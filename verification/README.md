# Model of the VMware Cloud Director Terraform provider

A Dafny model of the stateful parts of `terraform-provider-vcd`: the keyed locks and the
protocols built on them, the cache of authenticated connections, the update of independent
disks, the metadata reconciler and its converters, the nested edge-gateway interfaces, the
quotas of an IP space, the import ids, the ignore rules for metadata, the vNIC table of the
NAT rules, two polling loops, and the script that collects test resource names.

`dafny verify dfyconfig.toml` checks everything. Each file is one module.

| file | content |
|---|---|
| `LockMachine.dfy` | threads as sequences of lock and filter operations; the atomic machine that interleaves them; its invariant |
| `MutexKv.dfy` | the keyed mutex as a class; the fine machine in which `get` is three steps; refinement in both directions; termination |
| `LockScripts.dfy` | the operations of the provider's own code paths and the theorems about any number of them |
| `DiskUpdate.dfy` | detach, resize and attach back, as methods on the server's state that issue exactly the scripts of `LockScripts` |
| `ConcurrentUpdates.dfy` | any number of disk updates at once: the lock machine together with the server's VMs |
| `LockPairing.dfy` | the lock helpers that re-read the resource when they release, operations under them, and what pairing means for whole runs |
| `ConnectionCache.dfy` | `Config.Client` and `reset`, one step per critical section |
| `Metadata.dfy`, `IgnoreRules.dfy` | metadata entries between state and server; ignore rules and conflicts |
| `EdgeGateway.dfy` | external networks between nested sets and nested lists |
| `Decimal.dfy`, `Quota.dfy` | Go's decimal numerals; quotas as text and as integers |
| `Text.dfy`, `ImportIds.dfy` | join, split and replace; the printer and the parsers of import ids |
| `Nat.dfy`, `Polling.dfy`, `TestNames.dfy` | vNIC lookups; bounded polling; names of test resources |
| `Options.dfy` | `Option`, `Result`, and the set of a sequence's elements |

## How the model reads the code

The server is state (maps, sets, sequences) behind methods with small contracts: a fetch by
href returns that VM, a detach or a delete removes, a merge overwrites per key, setting the
filter returns the old one. Whether a call succeeds is arbitrary (`x := *`), counted where it
explains a failure, or a parameter where the result depends on it. A VM's own href is the one
it was fetched by, the query for a disk's VMs lists different VMs that have the disk, and an
external network found by name has that name. Regular expressions and the hash are function
parameters; the hash is assumed injective only where a lemma says so.

A run of the lock machines is a schedule: the list of the threads that move, one step each.
The lemmas quantify over every list of tasks, every schedule and every configured filter.
Nothing is said about fairness: a run is bounded, and a run that cannot be continued has
finished.

## What was found

- The lock protocol cannot deadlock unless a task waits for itself: an update whose VM list
  names a VM twice blocks on its own key, and so would metadata read under a helper lock
  whose key is the text `metadata`. Reads after the swap section are unprotected and can see
  the nil filter of another thread; a merge of metadata can, too, and then sends what the
  filter should have dropped.
- An edge-gateway update whose final read no longer finds the gateway clears the id before
  the deferred release runs; the release panics, and as nothing recovers the process ends.
  An isolated network update whose final read stores another owner leaves the key of the VDC
  group locked, for good, or releases the key of another group; a routed one releases another
  key when the read stores another edge gateway outside a VDC group.
- The cache key leaves out the organization, the TLS and SAML settings and the ignore rules,
  so a caller can be served a client with other values of these, exactly when another caller
  has the same key. The branch for unknown conflict actions can be met in two ways: every
  configuration replaces the table of actions that all clients share, so a client with its
  own rules meets it under the table of a later configuration; and a client from the cache
  has the rules of another caller. A connection authenticated before a reset can be stored after it, and served.
- Metadata reconciliation leaves an old entry behind when its key changes domain or is
  ignored by the filter. Reading metadata crashes on an entry without a value, although the
  code after it allows for one.
- A one-character separator that occurs in no component is necessary and sufficient for an
  import id to parse back; for longer separators non-containment is not enough. The disk
  importer accepts two-part ids in its length check and then indexes the third part.
- `ip_address` can be injected into a subnet without one when another subnet of the same
  network with the same gateway and netmask has one.
- "007" passes the quota validation and comes back as "7".
- A name with two `${count.index}` tokens can hide another template from the script.
- The metadata readiness loop looks at the clock before it looks at the link, so a link that
  the 61st refresh brings is reported as a timeout.

The comment on `resourceVcdEdgeGatewayUpdate` says that only load balancer settings are
updated, and the one on `wasIpAddressSet` that it tells apart single elements; the code also
updates the firewall, and it matches by network, gateway and netmask. The model follows the
code.

## Model

| member | source | states |
|---|---|---|
| `LockMachine.StepKeepsInv` | vcd/metadata.go:331-341 | any step of any thread keeps the invariant: holdings, lock order, saved copies and the shared filter |
| `LockMachine.StepKeepsFilter` | vcd/metadata.go:334-336 | no swap is lost: the filter is nil exactly while some thread is between its hide and its restore, and that thread saved the configured filter |
| `LockMachine.InsideIsUnique` | vcd/metadata.go:332-333 | at most one thread is inside the swap section |
| `LockMachine.FilterRestored` | vcd/metadata.go:331-359 | in every reachable state the filter is nil exactly while a thread is inside the section, and the configured one when the metadata key is free; a filtered read sees the configured one if and only if no other thread is inside (or nothing is configured) |
| `LockMachine.UnlocksOwnKeys` | vcd/mutexkv.go:34-43 | no run unlocks a key its thread does not hold, and a finished thread holds none |
| `LockMachine.DeadlockNeedsDoomedThread` | vcd/resource_vcd_independent_disk.go:285-299 | where nothing can move, some thread asks for a key it already holds |
| `LockMachine.StepKeepsDoom` | vcd/mutexkv.go:24-32 | a thread that will ask for a key it holds stays so whoever moves |
| `MutexKv.KeyedMutex.constructor` | vcd/mutexkv.go:58-62 | a new store is empty and nothing is locked |
| `MutexKv.KeyedMutex.Get` | vcd/mutexkv.go:46-55 | interns one mutex per key: the store only grows, never rebinds, keys never share, and lock status is untouched |
| `MutexKv.KeyedMutex.KvLock` | vcd/mutexkv.go:24-32 | interns the key's mutex and locks it, or finds it locked and has to wait; no other key is touched |
| `MutexKv.KeyedMutex.KvUnlock` | vcd/mutexkv.go:35-43 | exactly the key becomes free and the store is as it was |
| `MutexKv.FineStepKeepsInv` | vcd/mutexkv.go:46-55 | every step of the split machine keeps: one owner of the map lock, keys never share a mutex, a found mutex is the store's |
| `MutexKv.StoreOnlyGrows` | vcd/mutexkv.go:49-53 | no step of any thread removes or rebinds a key |
| `MutexKv.StepRefines` | vcd/mutexkv.go:24-55 | a fine step is invisible or is exactly the atomic step of its thread |
| `MutexKv.RunRefines` | vcd/mutexkv.go:24-55 | every interleaving of the fine steps is an atomic interleaving on the key-to-holder map |
| `MutexKv.RunRealised` | vcd/mutexkv.go:24-55 | conversely every atomic interleaving is the image of a fine one |
| `MutexKv.MapOwnerNeverBlocks` | vcd/mutexkv.go:46-55 | a thread holding the map lock can always move: it never waits for a key mutex |
| `MutexKv.FineDeadlockIsAtomic` | vcd/mutexkv.go:46-55 | splitting `get` adds no deadlock |
| `MutexKv.AtomicDeadlockIsReal` | vcd/mutexkv.go:24-43 | a deadlock of the atomic machine is reachable in the fine one |
| `MutexKv.StepUsesWork` | vcd/mutexkv.go:24-55 | every step decreases a non-negative rank |
| `MutexKv.RunsAreBounded` | vcd/mutexkv.go:24-55 | every run is shorter than a bound known at its start |
| `MutexKv.DeadlockFreeIff` | vcd/mutexkv.go:24-55 | threads that follow the lock order can deadlock if and only if one of them asks for a key it holds |
| `MutexKv.EveryRunFinishes` | vcd/mutexkv.go:24-55 | a run that cannot go on has finished with no key held and the filter as configured |
| `LockScripts.DiskOpsFollowOrder` | vcd/resource_vcd_independent_disk.go:285-299 | a disk update takes global key, VM keys, metadata key in that order for every VM list, and waits for itself if and only if a VM is listed twice |
| `LockScripts.UnderKeyFollowsOrder` | vcd/resource_vcd_network_routed_v2.go:153-178 | an operation that holds one helper lock while it reads metadata keeps the order, and waits for itself only if that key is the metadata key |
| `LockScripts.ScriptFollowsOrder` | vcd/resource_vcd_catalog_item.go:170-184 | every modelled code path keeps the lock order and the section brackets |
| `LockScripts.ProviderDeadlockFreeIff` | vcd/resource_vcd_independent_disk.go:285-299 | any number of disk updates, metadata reads, catalog item reads and operations under a helper lock: no deadlock is reachable if and only if no task waits for itself |
| `LockScripts.ProviderFinishes` | vcd/resource_vcd_independent_disk.go:285-299 | and then all of them finish holding no key, in boundedly many steps |
| `LockScripts.ProviderFilterRestored` | vcd/resource_vcd_catalog_item.go:170-184 | over all runs with both swap sites: filter configured whenever the metadata key is free, nil for reads inside; filtered reads as in `LockMachine.FilterRestored` |
| `LockScripts.FilterSeenOutside` | vcd/metadata.go:265-284 | whatever a thread outside the section does with the filter, it sees the configured one when no other thread is inside and nil otherwise |
| `LockScripts.SingleVmHoldsOneKey` | vcd/resource_vcd_independent_disk.go:292-299 | a disk on one VM takes no global key and no second VM key |
| `LockScripts.DiskOpsSpeltOut` | vcd/resource_vcd_independent_disk.go:285-366 | position by position: the global key only for more than one VM, the VM keys in list order, the read, the VM keys again in list order, the global key last |
| `LockScripts.ReadsSpeltOut` | vcd/metadata.go:331-360 | the reads operation by operation: one unfiltered read in the section, two for a catalog item, then the filtered ones |
| `LockScripts.WithoutGlobalKeyDeadlocks` | vcd/resource_vcd_independent_disk.go:285-292 | without the global key two disks on the same two VMs deadlock |
| `LockScripts.WithoutMetadataKeyFilterIsLost` | vcd/metadata.go:332-336 | without the metadata key two swaps can leave nil for good |
| `LockScripts.FilteredReadCanSeeNil` | vcd/metadata.go:354-359 | a run in which a filtered read sees the nil filter of another thread |
| `DiskUpdate.WithoutLosesOne` | vcd/resource_vcd_independent_disk.go:386-408 | detaching takes out exactly the setting the scan remembered |
| `DiskUpdate.AttachUndoesDetach` | vcd/resource_vcd_independent_disk.go:414-434 | attaching back with the collected details restores every listed VM's disks at their bus and unit numbers; an interrupted attach disturbs this disk only |
| `DiskUpdate.Provider.LockVmsForIndependentDisks` | vcd/resource_vcd_independent_disk.go:353-358 | locks the VM keys in list order |
| `DiskUpdate.Provider.UnlockVmsForIndependentDisks` | vcd/resource_vcd_independent_disk.go:361-366 | unlocks the VM keys in list order |
| `DiskUpdate.Provider.FetchVms` | vcd/resource_vcd_independent_disk.go:371-381 | fails exactly when a call fails or some VM is unknown or, for IDE, not powered off; detaches nothing |
| `DiskUpdate.Provider.FindDisk` | vcd/resource_vcd_independent_disk.go:386-391 | finds the last matching setting |
| `DiskUpdate.Provider.DetachFetched` | vcd/resource_vcd_independent_disk.go:383-409 | on success the disk is gone from exactly the listed VMs and its details are known for each; fails exactly when a call fails or a VM lacks the disk; what the server did is a beginning of the list |
| `DiskUpdate.Provider.DetachVms` | vcd/resource_vcd_independent_disk.go:368-411 | both passes: a rejected VM means nothing was detached from any, and the exact causes of failure |
| `DiskUpdate.Provider.AttachBackVms` | vcd/resource_vcd_independent_disk.go:414-434 | on success the disk is back on exactly the listed VMs at the collected slots, in list order; fails exactly when a call fails |
| `DiskUpdate.Provider.UpdateMetadataInState` | vcd/metadata.go:326-370 | issues the swap section and then a filtered read for each block looked at and one more, leaves the filter as it was even when a read fails, stores all values and the entries that the filter of the moment lets through, and returns diagnostics exactly when a call failed or an entry conflicts with an ignore rule |
| `DiskUpdate.Provider.SetDeprecatedMetadata` | vcd/metadata.go:331-352 | the swap section: every entry is read whatever the filter is, and one without a value is a failure |
| `DiskUpdate.Provider.SetEntries` | vcd/metadata.go:360-367 | what the last read stores under the configured or the nil filter; an error stores nothing |
| `DiskUpdate.Provider.ReadDisk` | vcd/resource_vcd_independent_disk.go:436-533 | the final read: without an error the state holds the server's record of the disk and its metadata, or is removed, and no metadata is read, when the disk is gone |
| `DiskUpdate.EndsAttached` | vcd/resource_vcd_independent_disk.go:301-332 | detaching everywhere followed by a beginning of the rest of the plan ends as `Ended` says |
| `DiskUpdate.EndedServer` | vcd/resource_vcd_independent_disk.go:311-314 | in the server's own terms: a completed resize sets size and description, keeps the profile if none is asked for, and changes no other disk; every VM has its settings; a listed VM that is unknown, or powered on with an IDE disk, means that nothing changed; and without a failed call only such a VM or one without the disk makes it fail |
| `DiskUpdate.EndedEffects` | vcd/resource_vcd_independent_disk.go:301-332 | and in order: a detach from each VM, the resize, an attach to each VM at the bus and unit numbers it had there |
| `DiskUpdate.Provider.ResizeDetached` | vcd/resource_vcd_independent_disk.go:301-332 | detach everywhere, resize, attach back: on success every placement is the initial one and only this disk's record changed; otherwise a beginning of that plan; the exact causes of failure |
| `DiskUpdate.Provider.ResizeLocked` | vcd/resource_vcd_independent_disk.go:292-340 | the locks around it: every change falls after the last lock and before the final read and the first unlock; once the disk is attached back, later failures do not undo the conservation |
| `DiskUpdate.Provider.Update` | vcd/resource_vcd_independent_disk.go:248-341 | the whole update: its lock operations are one task of the lock machine however it ends; the server carries out the plan or a beginning of it between locks and unlocks; placements are conserved as soon as the attach-back succeeded, whatever the metadata write and the final read do; and it returns diagnostics exactly when a call failed, a conflict was found, the sharing type changes, a VM is rejected or lacks the disk; without diagnostics the state holds what the server has, and after a resize the size and description that were asked for, the profile unless none was, and the old bus type |
| `ConcurrentUpdates.StepsAreOrderly` | vcd/resource_vcd_independent_disk.go:285-332 | in the script of an update every call about a VM lies between the lock and the unlock of that VM's key, also when it is cut short |
| `ConcurrentUpdates.SyncsOfSteps` | vcd/resource_vcd_independent_disk.go:285-340 | the lock operations of that script are those of the task of `LockScripts` |
| `ConcurrentUpdates.CallsCarryOutPlan` | vcd/resource_vcd_independent_disk.go:301-332 | its calls carry out the plan of `DiskUpdate.Provider.Update` |
| `ConcurrentUpdates.StepKeepsSound` | vcd/resource_vcd_independent_disk.go:285-434 | every step of every update keeps the invariant: each VM has its initial settings except those of disks that are off it at the moment |
| `ConcurrentUpdates.CallsAreUnderTheirKey` | vcd/resource_vcd_independent_disk.go:353-358 | in every run of any number of updates of different disks, a call about a VM is made by the one update that holds its key, and is never refused because of the others |
| `ConcurrentUpdates.EverySettingIsAccountedFor` | vcd/resource_vcd_independent_disk.go:368-434 | in every reachable state every VM has exactly its initial settings except those taken off at the moment |
| `ConcurrentUpdates.UpdatesConserve` | vcd/resource_vcd_independent_disk.go:301-332 | over every interleaving, when all have ended only settings of updates cut short between detach and attach are missing, and every key is free |
| `ConcurrentUpdates.CompleteUpdatesRestoreEverything` | vcd/resource_vcd_independent_disk.go:301-332 | over every interleaving, when all make all their calls every VM has its disks at the bus and unit numbers where they were |
| `ConcurrentUpdates.UpdatesFinish` | vcd/resource_vcd_independent_disk.go:285-299 | every run is bounded, and one that cannot go on has ended with every update done |
| `LockPairing.PairedIff` | vcd/config.go:173-191 | an acquire and a release, with or without reading metadata between them, keep the lock discipline if and only if the release finds the acquired key (or the read waits for its own key) |
| `LockPairing.PairedIsTask` | vcd/config.go:173-191 | a paired operation issues exactly the script of one task of the lock machine |
| `LockPairing.Client.UnchangedFieldsPair` | vcd/config.go:154-435 | every helper releases the key it acquired while the fields it re-reads are unchanged |
| `LockPairing.Client.Lock` | vcd/config.go:332-365 | locks the key the helper finds, or panics when there is none |
| `LockPairing.Client.Unlock` | vcd/config.go:367-402 | unlocks the key the helper finds at that time, or panics |
| `LockPairing.Client.VappHelpersAgree` | vcd/config.go:153-219 | for one organisation, VDC and vApp name the helper of the vApp and both helpers of its children find the same key, and panic exactly for an empty name |
| `LockPairing.VappKeysDiffer` | vcd/config.go:213-219 | two vApp keys are equal if and only if organisation, VDC and name are, when organisations and VDCs have no bar |
| `LockPairing.Client.IdHelpersTakeTheId` | vcd/config.go:173-328 | the helpers by id find the very id they read; which of them panic for an empty one, and which have nothing to lock |
| `LockPairing.Client.EdgeHelperTakesTheId` | vcd/config.go:332-366 | the parent edge gateway's id when it is given, otherwise the one its name finds; a panic when there is neither |
| `LockPairing.SameKeyExcludes` | vcd/config.go:213-219 | over all runs of operations that release no key but their own, two operations that find the same key are never under way at once |
| `LockPairing.Client.NatRuleCreate` | vcd/nsxv_nat.go:22-48 | releases exactly its key, even when the read clears the id, unless the gateway's name finds another id or none by then |
| `LockPairing.Client.NatRuleUpdate` | vcd/nsxv_nat.go:51-82 | the same for the update, which writes the rule's fields twice |
| `LockPairing.Client.NatRuleDelete` | vcd/nsxv_nat.go:122-142 | the same for the deletion, which clears the id |
| `LockPairing.Client.EdgeGatewayRead` | vcd/resource_vcd_edgegateway.go:362-430 | which id the read leaves: the old one, none, or the one found |
| `LockPairing.Client.EdgeGatewayUpdate` | vcd/resource_vcd_edgegateway.go:433-460 | releases its key if and only if its final read is not reached or finds the same id; when the gateway is gone the release panics with the key still locked |
| `LockPairing.Client.EdgeGatewayDelete` | vcd/resource_vcd_edgegateway.go:463-480 | always releases its key |
| `LockPairing.Client.NetworkRead` | vcd/resource_vcd_network_isolated_v2.go:217-260 | stores the owner and the edge gateway it finds, and reads metadata, under its lock, only outside a VDC group; with filtered reads for the blocks it looks at and one more |
| `LockPairing.Client.IsolatedNetworkUpdate` | vcd/resource_vcd_network_isolated_v2.go:166-215 | releases the VDC group it locked if and only if the final read keeps the owner, or neither owner is a group; then it issues exactly one task, the metadata read included |
| `LockPairing.Client.LockParentVdcGroupOrEdgeGateway` | vcd/config.go:408-430 | the returned unlock remembers a group's id but looks an edge gateway up again |
| `LockPairing.Client.RoutedNetworkUpdate` | vcd/resource_vcd_network_routed_v2.go:181-231 | in a VDC group the key is always released; otherwise if and only if the final read keeps the edge gateway; then it issues exactly one task, with the metadata read under the gateway's key |
| `LockPairing.FinishedHolds` | vcd/mutexkv.go:24-43 | any operations in any order: a finished run holds a key exactly when it was locked once more than unlocked |
| `LockPairing.FinishedHoldsLeaks` | vcd/config.go:332-402 | any operations under helper locks whose releases find no other operation's key: a finished run holds exactly the leaked keys, so none if and only if every operation was paired |
| `LockPairing.TwoLeaksNeverFinish` | vcd/config.go:173-191 | no run with a key leaked twice finishes |
| `LockPairing.LeakedKeyStaysLocked` | vcd/config.go:332-402 | over all runs of operations that release no key but their own: once an operation that leaks a key has finished it keeps the key, and whoever waits for it never takes another step, however the run goes on |
| `LockPairing.LeakedKeyBlocks` | vcd/resource_vcd_network_isolated_v2.go:177-178 | an example: the key of a VDC group that an isolated network has left blocks the next operation on the group |
| `LockPairing.WrongKeyBreaksExclusion` | vcd/config.go:322-328 | releasing another key lets two operations work under it at once |
| `ConnectionCache.DoKeepsInv` | vcd/config.go:712-758 | every critical section of every call, every reset and every tick keeps the cache invariant |
| `ConnectionCache.CacheIsSafe` | vcd/config.go:700-761 | over all interleavings a served connection was stored under the caller's checksum, was not too old when checked, and was stored after every reset that preceded the call; others are the caller's own |
| `ConnectionCache.ServedAgreesIff` | vcd/config.go:701-710 | each served connection was built for one of the callers, and agrees with its own caller on the nine keyed fields if and only if the two have equally many '#' in each |
| `ConnectionCache.ServedAgreeIff` | vcd/config.go:700-761 | for any part of the configuration: over all runs every served connection agrees with its caller on it if and only if nothing can be served or callers with the same checksum agree on it |
| `ConnectionCache.TransparentIff` | vcd/config.go:701-710 | under an injective hash served clients are always the caller's own in every respect if and only if callers with the same key text have the same configuration |
| `ConnectionCache.OrgAgreesIff` | vcd/config.go:746-750 | the same for the organization, which the key leaves out |
| `ConnectionCache.KeyedFieldsAgreeIff` | vcd/config.go:701-709 | the nine keyed fields always agree if and only if callers with the same key text have equally many '#' in each |
| `ConnectionCache.KeyedFieldsAgree` | vcd/config.go:701-709 | so they always agree when no caller has a '#' in a keyed field |
| `ConnectionCache.ServedToItsOwner` | vcd/config.go:701-726 | over all runs, without a '#' in them, a served connection has the caller's own user, password, tokens, token files, system organization, VDC and server |
| `ConnectionCache.OtherFieldsAreIgnored` | vcd/config.go:701-726 | and these nine are all that counts: a caller that agrees on them is served the first one's connection in some run, whatever else differs |
| `ConnectionCache.StepsOnTheCache` | vcd/config.go:716-755 | an outdated connection is evicted under the caller's checksum, a new one stored there with the time, a reset empties cache and counter, a failed call leaves the cache alone |
| `ConnectionCache.ServedIsAuthenticatedSince` | vcd/config.go:112-117 | when no reset falls between a call's authentication and its storing, every served connection was authenticated after every reset that preceded the call |
| `ConnectionCache.OvertakenStoreIsServed` | vcd/config.go:752-758 | conversely, from any state in which a reset has overtaken a store, a later caller with the same checksum can be served that connection |
| `ConnectionCache.SameKeySharesConnection` | vcd/config.go:701-728 | any two configurations with equal key text share a connection |
| `ConnectionCache.ServedOrgCanDiffer` | vcd/config.go:746-750 | a served client can differ in the organization |
| `ConnectionCache.HashInFieldsCollides` | vcd/config.go:701-709 | different user and password with the same key text |
| `ConnectionCache.ResetCanBeOutrun` | vcd/config.go:112-117 | a run in which that happens |
| `Metadata.GetMetadataEmptySubAttributes` | vcd/metadata.go:476-484 | the count tells blank, complete and malformed blocks apart |
| `Metadata.ConvertFromStateToMetadataValues` | vcd/metadata.go:405-445 | the loop computes `Converted`: blank entries skipped, a malformed one fails all |
| `Metadata.GetMetadataKeyWithDomainMap` | vcd/metadata.go:449-472 | the loop computes `KeyDomains` |
| `Metadata.ConversionFailsIff` | vcd/metadata.go:420-428 | conversion fails if and only if some entry has one to three empty texts |
| `Metadata.ScannersAgree` | vcd/metadata.go:405-472 | both scanners see the same keys in the same domains |
| `Metadata.KeysOfConversion` | vcd/metadata.go:417-419 | exactly the keys of entries that are not blank |
| `Metadata.LastDuplicateWins` | vcd/metadata.go:433-442 | the last entry of a key decides its value |
| `Metadata.SentAttributes` | vcd/metadata.go:405-445 | attribute by attribute: what is sent for a key is what its last entry says, in the domain its flag says |
| `Metadata.KeyDomainsIff` | vcd/metadata.go:449-472 | the keys are those of the entries with some text, malformed ones included |
| `Metadata.LastDomainWins` | vcd/metadata.go:449-472 | the last entry of a key decides its domain |
| `Metadata.SetMetadataEntryInState` | vcd/metadata.go:373-401 | the state is the image of the answer; an empty answer changes nothing |
| `Metadata.GetMetadataStruct` | vcd/resource_vcd_org_vdc.go:577-583 | the plain map of the values, which is reached if and only if every entry has one |
| `Metadata.PlainMapAgrees` | vcd/metadata.go:350-367 | both attributes tell the same about a key: the value of its last entry |
| `Metadata.RoundTripIff` | vcd/metadata.go:373-445 | server to state to API is the identity on distinct keys if and only if every entry is complete |
| `Metadata.MissingDomainBecomesGeneral` | vcd/metadata.go:385-396 | an entry without domain comes back as GENERAL and read-write |
| `Metadata.Resource.DeleteOutdated` | vcd/metadata.go:245-255 | for every order of the old keys exactly the outdated entries are deleted; fails exactly when a call fails |
| `Metadata.Resource.MergeNew` | vcd/metadata.go:258-271 | all or nothing: an error leaves the server as it was; fails exactly when the call fails or an entry is malformed |
| `Metadata.Resource.CreateOrUpdateMetadataEntryInVcd` | vcd/metadata.go:237-272 | on success the server is `Reconciled` for the keys that the filter of the moment drops, on error only some outdated entries are gone; fails exactly when a call fails or, after a change, a new entry is malformed |
| `Metadata.ReconciledAt` | vcd/metadata.go:237-272 | entry by entry: what is on the server afterwards, and with which value |
| `Metadata.ConvergesIff` | vcd/metadata.go:245-271 | the result is the unrelated entries plus the new ones if and only if every kept key keeps its domain and is not ignored |
| `Metadata.MergeSeesEitherFilter` | vcd/metadata.go:265-271 | over all runs of any tasks: a reconciliation ends as under the configured filter when no other thread is inside the swap section at its merge, and as under nil otherwise |
| `Metadata.NilFilterHarmlessIff` | vcd/metadata.go:245-271 | the two results are equal if and only if the server already has what the ignored new entries say |
| `Metadata.CollectRemoved` | vcd/structure.go:268-275 | the keys only the old map has, for every order |
| `Metadata.Resource.DeleteAll` | vcd/structure.go:276-281 | deletes them in turn, an error stopping in the middle |
| `Metadata.Resource.UpdatePlainMetadata` | vcd/resource_vcd_catalog_item.go:279-303 | the plain-map variant converges to unrelated plus new, without a condition; an error leaves at most deletions |
| `Metadata.Resource.CreateOrUpdateMetadata` | vcd/structure.go:255-290 | both attributes: the blocks are reconciled first and the map is touched only when they have not changed; what each ends with, and the exact causes of failure |
| `IgnoreRules.GetIgnoredMetadata` | vcd/metadata.go:74-113 | fails if and only if a block has no pattern or one that does not compile; otherwise one rule per block |
| `IgnoreRules.ConfigureIgnoredMetadata` | vcd/provider.go:497-506 | the rules and the action table the provider installs |
| `IgnoreRules.LastBlockDecides` | vcd/provider.go:502-506 | of blocks that print alike the last one's action counts |
| `IgnoreRules.EveryRuleHasAction` | vcd/provider.go:503-506 | every configured rule has one of the three actions |
| `IgnoreRules.CheckIgnoredMetadataConflicts` | vcd/metadata.go:276-322 | the first conflicting entry and rule, entries before rules, alone decides the outcome, the rules being read again for each entry |
| `IgnoreRules.ConflictOfBlockIff` | vcd/metadata.go:285-288 | an entry conflicts with a block if and only if each of type, name, key and value is left out in the block or met |
| `IgnoreRules.ConfigureThenCheck` | vcd/metadata.go:276-322 | from the configured blocks to the outcome: of the first entry and block that conflict, the last block that prints alike has the action "error" if and only if an error is reported for them, "warn" if and only if a warning, "none" if and only if nothing |
| `IgnoreRules.FreshClientHasNoUnknownAction` | vcd/metadata.go:298-309 | the unknown-action branch is unreachable for a client with the rules of the configuration whose table is installed |
| `IgnoreRules.StaleClientUnknownActionIff` | vcd/metadata.go:298-309 | for any client and any table it is reached if and only if the first conflicting rule prints like no block of the table's configuration |
| `IgnoreRules.UnknownActionIsOrphaned` | vcd/provider.go:502-511 | over all runs in which configurations install their tables and calls use the cache: an unknown action is met only on a rule of the caller's own client or of one built for a caller with the same checksum, when it prints like no block of the configuration that installed its table last |
| `IgnoreRules.UnknownActionComesFromCache` | vcd/config.go:716-729 | under the caller's own table, only by a client from the cache that was built for another caller with the same checksum |
| `IgnoreRules.ClientMeetsTable` | vcd/provider.go:502-511 | any client that a caller can have meets the table of any caller but the one it was built for |
| `IgnoreRules.OrphanedRuleIsMet` | vcd/config.go:701-728 | conversely every such rule is met in some run |
| `IgnoreRules.UnknownActionReachableIff` | vcd/metadata.go:296-306 | so the branch is reachable for a caller's client under the table of any caller u if and only if a conflicting rule of its own, or, when the cache can serve, of a caller with the same checksum, prints like no block of u |
| `IgnoreRules.ReplacedPatternMeetsUnknownAction` | vcd/metadata.go:296-306 | an example: a key pattern is replaced between two configurations; the first caller's own client reaches the branch, cache or not, and with the cache the second caller's, too |
| `IgnoreRules.CachedClientKeepsOldRules` | vcd/config.go:701-728 | a caller that differs in its rules only is served the client with the other rules |
| `EdgeGateway.GetGatewayInterfaceIpRangeType` | vcd/resource_vcd_edgegateway.go:663-681 | one range per pool, in any order |
| `EdgeGateway.GetGatewayInterfaceSubnetParticipationType` | vcd/resource_vcd_edgegateway.go:626-659 | spells out exactly the subnets; the flag is set if and only if some subnet is used for the default route |
| `EdgeGateway.GetGatewayInterfacesType` | vcd/resource_vcd_edgegateway.go:566-624 | one uplink per block spelling out exactly that block, its default-route flag included; fails exactly when a network is unknown |
| `EdgeGateway.BlockOfIs` | vcd/resource_vcd_edgegateway.go:567-636 | which attribute of a block is which of an interface, down to the pools |
| `EdgeGateway.WasIpAddressSet` | vcd/resource_vcd_edgegateway.go:793-812 | true if and only if the configuration sets an address for that network, gateway and netmask |
| `EdgeGateway.GetExternalNetworkSubnetTypeSet` | vcd/resource_vcd_edgegateway.go:741-772 | the subnets, without the addresses nobody configured |
| `EdgeGateway.GetExternalNetworkData` | vcd/resource_vcd_edgegateway.go:692-737 | the blocks of the uplinks that are not the transit interface; fails exactly when there is something to read and a configured network is unknown |
| `EdgeGateway.ReadBlockIs` | vcd/resource_vcd_edgegateway.go:716-760 | field by field: what is read is what the server says, save for addresses the configuration does not have |
| `EdgeGateway.BackLosesUnset` | vcd/resource_vcd_edgegateway.go:753-759 | a block that comes back changed has strictly fewer unset addresses |
| `EdgeGateway.RoundTripIff` | vcd/resource_vcd_edgegateway.go:566-812 | whatever the server adds or fills in, the read gives the configured blocks if and only if each of them has a subnet, is not named like the transit interface and gets no address injected |
| `EdgeGateway.NothingInjectedIff` | vcd/resource_vcd_edgegateway.go:793-812 | no server can inject an address if and only if no subnet without one shares network, gateway and netmask with one that has one |
| `EdgeGateway.UniqueSubnetsComeBack` | vcd/resource_vcd_edgegateway.go:566-812 | the round trip is the identity when network, gateway and netmask identify a subnet |
| `EdgeGateway.WriteThenRead` | vcd/resource_vcd_edgegateway.go:567-760 | through both methods, with a server that fills in addresses and adds interfaces of its own: the blocks come back if and only if each has a subnet, none is named like the transit interface of a distributed router, and no address is filled in where the configuration has one for the same network, gateway and netmask |
| `Decimal.AtoiUndoesItoa` | vcd/resource_vcd_ip_space_custom_quota.go:279-296 | parsing a printed 64-bit integer gives it back without error |
| `Decimal.ItoaUndoesAtoiIff` | vcd/resource_vcd_ip_space_custom_quota.go:219-246 | printing a parsed text gives it back if and only if it is a canonical numeral in range, errors ignored |
| `Decimal.AtoiCases` | vcd/resource_vcd_ip_space_custom_quota.go:219-246 | digits with an optional sign are their number, or, with an error, the end of the 64-bit range they lie beyond |
| `Decimal.AtoiOfMixed` | vcd/resource_vcd_ip_space_custom_quota.go:219-246 | when something else follows the digits: zero with an error, or the end of the range if the digits alone are beyond 64 bits |
| `Quota.GetIpSpaceOrgAssignmentType` | vcd/resource_vcd_ip_space_custom_quota.go:207-260 | what the update sends, prefix by prefix |
| `Quota.SetIpSpaceOrgAssignmentData` | vcd/resource_vcd_ip_space_custom_quota.go:262-306 | what the read stores, and what it leaves when the state refuses the empty or the filled set |
| `Quota.WriteThenRead` | vcd/resource_vcd_ip_space_custom_quota.go:207-306 | the state is reproduced if and only if every number in it is canonical and in range; "", "0" and "-1" reach the API as three values |
| `Quota.ValidatedButNotCanonical` | vcd/validate_funcs.go:157-171 | the schema's check lets texts through that do not come back |
| `Quota.ValidatedIff` | vcd/validate_funcs.go:157-171 | the validator accepts a numeral if and only if its number is at least the minimum |
| `Text.SplitUndoesJoin` | vcd/nsxv_nat.go:147-151 | splitting a joined id gives the parts back if and only if they are split-proof, for every separator |
| `Text.JoinInjectiveIff` | vcd/config.go:701-709 | joined lists of equal length are equal if and only if their fields contain the separator equally often |
| `ImportIds.GenericResourceList` | vcd/datasource_vcd_resource_list.go:779-858 | one line, and in import mode one block id, per kept reference |
| `ImportIds.KeptEach` | vcd/datasource_vcd_resource_list.go:794-804 | the name filter takes each reference on its own, in order: kept unless a pattern is given and finds no text |
| `ImportIds.PrintReference` | vcd/datasource_vcd_resource_list.go:805-847 | the line and the block id of one reference in each mode |
| `ImportIds.BlockIdSplitsBack` | vcd/datasource_vcd_resource_list.go:841-846 | a printed block id splits into ancestors and identifier if and only if they are split-proof |
| `ImportIds.BlockIdWithOneCharacter` | vcd/datasource_vcd_resource_list.go:841-846 | for one character: if and only if no component contains it |
| `ImportIds.CommandIdSplitsBack` | vcd/datasource_vcd_resource_list.go:827-832 | the command line agrees with the block if there are ancestors and never parses back without |
| `ImportIds.LongSeparatorWitness` | vcd/datasource_vcd_resource_list.go:841-846 | with a longer separator non-containment is not enough |
| `ImportIds.NatImportIff` | vcd/nsxv_nat.go:147-151 | accepts exactly the joinings of four split-proof fields and passes them on verbatim |
| `ImportIds.GlobalRoleImportIff` | vcd/resource_vcd_global_role.go:310-315 | the same for one field |
| `ImportIds.CatalogImportIff` | vcd/resource_vcd_catalog.go:460-464 | the same for two fields |
| `ImportIds.CatalogItemImportIff` | vcd/resource_vcd_catalog_item.go:315-330 | the same for three fields, none of them empty |
| `ImportIds.DiskImportIff` | vcd/resource_vcd_independent_disk.go:598-624 | the same for the disk importer outside its listing mode |
| `ImportIds.DiskImportPanicsIff` | vcd/resource_vcd_independent_disk.go:605-622 | it crashes on exactly the two-part ids without `list@` |
| `ImportIds.DiskImportListsIff` | vcd/resource_vcd_independent_disk.go:605-618 | its listing mode: which ids list which organisation, VDC and disk name |
| `ImportIds.NatListRoundTrip` | vcd/datasource_vcd_resource_list.go:1048-1071 | what is listed for a NAT rule is read back if and only if the four fields are split-proof |
| `ImportIds.CatalogListRoundTrip` | vcd/datasource_vcd_resource_list.go:333-355 | the same for a catalog |
| `ImportIds.GlobalRoleListRoundTrip` | vcd/datasource_vcd_resource_list.go:256-274 | without ancestors: the printed block is read back if and only if the name has no separator, the printed command never is |
| `Nat.IndexRoundTripIff` | vcd/nsxv_nat.go:182-225 | index to network to index is the identity if and only if the name tells the vNIC apart; an internal network hides a subinterface of the same name |
| `Nat.IndexOfNetworkIff` | vcd/nsxv_nat.go:182-207 | a network is looked up to a vNIC if and only if it is the only one of its name and kind and the kind fits the type, a subinterface only when no internal network has the name |
| `Nat.NetworkOfIndex` | vcd/nsxv_nat.go:209-226 | a vNIC's index is looked up to its name and the type of its kind; an unknown index fails |
| `Nat.UniqueNamesRoundTrip` | vcd/nsxv_nat.go:182-225 | so for names unique within uplinks and within internal networks and subinterfaces |
| `Nat.NetworkRoundTrip` | vcd/nsxv_nat.go:182-225 | a network that is found comes back from its index, without a condition |
| `Polling.CheckSynchronised` | vcd/resource_vcd_catalog_vapp_template.go:413-433 | stops at the first success or timeout, after at most 122 queries, and succeeds if and only if a query did |
| `Polling.SynchronisedInTime` | vcd/resource_vcd_catalog_vapp_template.go:413-433 | succeeds if and only if some query made in time does |
| `Polling.BoundIsReached` | vcd/resource_vcd_catalog_vapp_template.go:15 | 122 queries do happen |
| `Polling.WaitForMetadataReadiness` | vcd/resource_vcd_catalog.go:228-247 | at most 61 refreshes; ready if and only if some turn in time sees the link and no refresh before it failed |
| `Polling.LinkOfLastRefreshIsLost` | vcd/resource_vcd_catalog.go:232-236 | the link of the 61st refresh is not seen |
| `TestNames.CollectNames` | scripts/get_test_resource_names.go:125-220 | the emitted pairs are distinct, proper, numbered in order, and exactly `Emitted` |
| `TestNames.CollectItem` | scripts/get_test_resource_names.go:138-219 | one turn: skip, retype, dedupe, unroll or emit |
| `TestNames.Unroll` | scripts/get_test_resource_names.go:192-207 | all new instances of a template, in order |
| `TestNames.IdIsInjective` | scripts/get_test_resource_names.go:167-171 | a recorded id stands for one type and name |
| `TestNames.PlainNameAppears` | scripts/get_test_resource_names.go:210-218 | every eligible plain name is emitted |
| `TestNames.InstancesCount` | scripts/get_test_resource_names.go:191-194 | a template offers exactly as many names as its count |
| `TestNames.InstanceIsTemplateIff` | scripts/get_test_resource_names.go:193-194 | an instance is a template again if and only if its template has a second token |
| `TestNames.EligibleIff` | scripts/get_test_resource_names.go:147-164 | an item takes part if and only if its replaced type is not empty and its name does not start with Test or test |
| `TestNames.OfferedIff` | scripts/get_test_resource_names.go:176-218 | it offers its name, or, for a name with the token, the instances numbered below its count, if that is a number |
| `TestNames.EmittedIsOffered` | scripts/get_test_resource_names.go:125-220 | nothing is emitted that no eligible item offers |
| `TestNames.OneMoreItem` | scripts/get_test_resource_names.go:167-174 | an item adds what it offers and is new if it is the first with its type and name and its own text was not emitted before as an instance; otherwise nothing |
| `TestNames.EmittedIff` | scripts/get_test_resource_names.go:125-220 | emitted if and only if offered by a first occurrence, when no first occurrence of a template is an instance that a first occurrence offers |
| `TestNames.EmitterOf` | scripts/get_test_resource_names.go:138-219 | whatever is emitted is offered by the first item with its type and name, one whose own text was not emitted before |
| `TestNames.OfferedTemplateLosesOne` | scripts/get_test_resource_names.go:193-200 | conversely, when a template is offered as an instance and has an instance of its own, one of the two is never emitted |
| `TestNames.FirstOccurrencesFixEmittedIff` | scripts/get_test_resource_names.go:125-220 | so when every offered template has an instance of its own, emitted is what first occurrences offer if and only if no template is offered |
| `TestNames.SingleTokensSuffice` | scripts/get_test_resource_names.go:193-194 | names with at most one token meet the condition |
| `TestNames.SecondTokenHidesTemplate` | scripts/get_test_resource_names.go:193-200 | an example in which a name with two tokens hides another template |

## Left out

- Terraform schemas, validators and the data sources that copy fields: no behaviour beyond one lookup.
- HTTP, authentication, file writes, logging and console output: the server's outcomes are arbitrary.
- Regular expressions and SHA-256: parameters of the model.
- The loops that wait for a media or catalog item upload without a timeout: whether they end depends on the server alone.
- The tables of bus types: finite, without logic.
- The circuit breaker, rate limiter, worker pool and synchronisation services the repository's README describes: their source is not part of this model.
- Go's scheduler and memory model: a step of a thread is atomic, and a thread runs only its own list of operations.
- LockScripts.ProviderDeadlockFreeIff: covers operations under one helper lock; operations that hold two helper locks at once are not among the tasks.
- LockPairing.Client.Lock: the server's answer to the name lookup is a parameter; the lookup itself is not part of this model.
- LockPairing.Client.NatRuleUpdate: creation, update and deletion of the other resources under these helpers follow the same pattern and are covered by UnchangedFieldsPair only.
- MutexKv.KeyedMutex.KvLock: the method ends where the caller begins to wait; how the wait ends is in the machine.
- ConnectionCache.CacheIsSafe: the clock is read in the step that checks the age, and the time of storing is the time of that step.
- DiskUpdate.Provider.UpdateMetadataInState: whether an entry conflicts is arbitrary here; the check itself is IgnoreRules.CheckIgnoredMetadataConflicts. A crash counts as a failed call.
- DiskUpdate.Provider.ReadDisk: of the disk's fields the state keeps those the update can change and the bus type; the others are copied in the same way.
- DiskUpdate.Provider.Update: what the metadata write leaves on the server is arbitrary here; it is the subject of Metadata.Resource.CreateOrUpdateMetadata.
- IgnoreRules.UnknownActionReachableIff: a configuration installs its whole table in one step; the moment in which the new table is still being filled is not covered.
- ConcurrentUpdates.UpdatesConserve: the machine interleaves the atomic lock steps; that the steps inside `get` add nothing is MutexKv.RunRefines. A failed call ends an update's calls; a call that fails but takes effect counts as made. Two updates of the same disk are not covered: Terraform runs one operation on a resource at a time.
- Metadata.Resource.CreateOrUpdateMetadata: the blocks and the map act on separate views of the server's entries.
- LockPairing.Client.NetworkRead: of the metadata read only the lock and filter operations are followed, and of the network's fields those the lock depends on.
- Metadata.GetMetadataEmptySubAttributes: the attributes are visited in one fixed order; the count does not depend on it.
- EdgeGateway.GetGatewayInterfacesType: the network reference it attaches is reduced to the network's name.
- EdgeGateway.GetExternalNetworkData: only the data source stores this result in the state; the resource calls the same functions when it is created.
- ImportIds.GenericResourceList: the file header with its timestamp and the comment lines and resource addresses of the import blocks are not printed; a pattern that does not compile ends the listing before it starts.
- TestNames.CollectNames: the resources found in the files are the input; reading and matching the files is not modelled, and the comment of an entity is reduced to its number.
