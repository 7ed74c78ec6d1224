/** vcd/resource_vcd_independent_disk.go: detaching a disk from its VMs, resizing it and
    attaching it back, as methods over the server's state and the lock operations they
    issue. The operations are exactly the scripts that LockScripts interleaves. */
module DiskUpdate {
  import opened LockMachine
  import opened LockScripts
  import opened Options

  import Metadata

  /** `disk` is None for a disk that is not independent. */
  datatype DiskSetting = DiskSetting(disk: Option<string>, bus: int, unit: int)

  datatype Vm = Vm(name: string, poweredOff: bool, settings: seq<DiskSetting>)

  datatype Disk = Disk(busType: string, sizeMb: int, description: string, profile: string)

  /** The fields of the resource the update reads. */
  datatype Change = Change(
    sharingTypeChanged: bool,
    resized: bool,               // size_in_mb, storage_profile or description changed
    sizeMb: int,
    description: string,
    profile: string,             // "" keeps the profile
    entries: nat)                // its metadata_entry blocks

  /** The resource's state; without an id it is removed. */
  datatype DiskState = DiskState(
    id: string, disk: Disk, metadata: map<string, string>, metadataEntries: seq<Metadata.Entry>)

  const IDE := "IDE"

  // ------------------------------------------------------------ one VM's disks

  predicate Holds(settings: seq<DiskSetting>, disk: string) {
    exists i :: 0 <= i < |settings| && settings[i].disk == Some(disk)
  }

  /** A VM has an independent disk at most once. */
  predicate AtMostOnce(settings: seq<DiskSetting>, disk: string) {
    forall i, j :: 0 <= i < j < |settings| && settings[i].disk == Some(disk) ==> settings[j].disk != Some(disk)
  }

  /** A single setting of the disk is allowed, two are not. */
  lemma AtMostOnceMeans(others: seq<DiskSetting>, x: DiskSetting, disk: string)
    requires x.disk == Some(disk)
    ensures AtMostOnce(others + [x], disk) <==> forall y :: y in others ==> y.disk != Some(disk)
  {
    var all := others + [x];
    assert all[|others|] == x;
    if y :| y in others && y.disk == Some(disk) {
      var i :| 0 <= i < |others| && others[i] == y;
      assert all[i] == y;
    }
  }

  function Without(settings: seq<DiskSetting>, disk: string): (rest: seq<DiskSetting>)
    ensures !Holds(rest, disk)
    ensures forall s :: s in rest ==> s in settings
  {
    if settings == [] then []
    else if settings[0].disk == Some(disk) then Without(settings[1..], disk)
    else [settings[0]] + Without(settings[1..], disk)
  }

  /** The setting a scan of the whole list remembers: the last match. */
  function LastMatch(settings: seq<DiskSetting>, disk: string): (found: Option<DiskSetting>)
    ensures found.Some? <==> Holds(settings, disk)
    ensures found.Some? ==> found.value in settings && found.value.disk == Some(disk)
  {
    if settings == [] then None
    else
      var last := settings[|settings| - 1];
      if last.disk == Some(disk) then Some(last) else LastMatch(settings[..|settings| - 1], disk)
  }

  lemma {:induction false} WithoutAbsent(settings: seq<DiskSetting>, disk: string)
    requires !Holds(settings, disk)
    ensures Without(settings, disk) == settings
  {
    if settings != [] {
      WithoutAbsent(settings[1..], disk);
      assert settings[0].disk != Some(disk);
    }
  }

  lemma {:induction false} WithoutAt(settings: seq<DiskSetting>, disk: string, i: nat)
    requires AtMostOnce(settings, disk) && i < |settings| && settings[i].disk == Some(disk)
    ensures Without(settings, disk) == settings[..i] + settings[i + 1..]
    decreases i
  {
    if i == 0 {
      WithoutAbsent(settings[1..], disk);
    } else {
      WithoutAt(settings[1..], disk, i - 1);
      assert settings[..i] == [settings[0]] + settings[1..][..i - 1];
      assert settings[1..][i..] == settings[i + 1..];
    }
  }

  /** Taking the one setting of the disk out loses exactly that setting. */
  lemma WithoutLosesOne(settings: seq<DiskSetting>, disk: string)
    requires AtMostOnce(settings, disk) && Holds(settings, disk)
    ensures multiset(settings) == multiset(Without(settings, disk)) + multiset{LastMatch(settings, disk).value}
  {
    var i :| 0 <= i < |settings| && settings[i].disk == Some(disk);
    WithoutAt(settings, disk, i);
    LastMatchUnique(settings, disk, i);
    MultisetAround(settings, i);
  }

  lemma MultisetAround(settings: seq<DiskSetting>, i: nat)
    requires i < |settings|
    ensures multiset(settings) == multiset(settings[..i] + settings[i + 1..]) + multiset{settings[i]}
  {
    assert settings == settings[..i] + [settings[i]] + settings[i + 1..];
  }

  lemma LastMatchUnique(settings: seq<DiskSetting>, disk: string, i: nat)
    requires AtMostOnce(settings, disk) && i < |settings| && settings[i].disk == Some(disk)
    ensures LastMatch(settings, disk) == Some(settings[i])
  {
    var found := LastMatch(settings, disk);
    var j :| 0 <= j < |settings| && settings[j] == found.value;
    assert i == j;
  }

  // ------------------------------------------------------ the server's VMs

  type Vms = map<string, Vm>

  function Detached(vm: Vm, disk: string): Vm {
    vm.(settings := Without(vm.settings, disk))
  }

  function Attached(vm: Vm, disk: string, bus: int, unit: int): Vm {
    vm.(settings := vm.settings + [DiskSetting(Some(disk), bus, unit)])
  }

  function DetachFrom(vms: Vms, hrefs: set<string>, disk: string): (vms': Vms) {
    map h | h in vms :: if h in hrefs then Detached(vms[h], disk) else vms[h]
  }

  /** Bus and unit to attach back at: a missing entry of the Go map is all zeroes. */
  function Slot(details: map<string, DiskSetting>, href: string): (int, int) {
    if href in details then (details[href].bus, details[href].unit) else (0, 0)
  }

  /** A disk that was collected goes back to its bus and unit, any other to bus and unit zero. */
  lemma SlotIs(details: map<string, DiskSetting>, href: string)
    ensures href in details ==> Slot(details, href) == (details[href].bus, details[href].unit)
    ensures href !in details ==> Slot(details, href) == (0, 0)
  {}

  function AttachTo(vms: Vms, hrefs: set<string>, disk: string, details: map<string, DiskSetting>): (vms': Vms) {
    map h | h in vms :: if h in hrefs then Attached(vms[h], disk, Slot(details, h).0, Slot(details, h).1) else vms[h]
  }

  /** The same VMs with the same disks at the same bus and unit numbers. */
  ghost predicate SamePlacement(before: Vms, after: Vms) {
    && before.Keys == after.Keys
    && forall h :: h in before ==>
         after[h] == before[h].(settings := after[h].settings)
         && multiset(after[h].settings) == multiset(before[h].settings)
  }

  /** No VM lost anything but the given disk, and none gained anything. */
  ghost predicate OnlyDetached(before: Vms, after: Vms, disk: string) {
    && before.Keys == after.Keys
    && forall h :: h in before ==> after[h] == before[h] || after[h] == Detached(before[h], disk)
  }

  /** The damage an interrupted update can do: a VM is as it was up to the order of its
      disks, or it misses this disk and nothing else. */
  ghost predicate OnlyThisDiskDisturbed(before: Vms, after: Vms, disk: string) {
    && before.Keys == after.Keys
    && forall h :: h in before ==>
         after[h] == before[h].(settings := after[h].settings)
         && (multiset(after[h].settings) == multiset(before[h].settings)
             || after[h].settings == Without(before[h].settings, disk))
  }

  ghost predicate ValidVms(vms: Vms) {
    forall h, d :: h in vms ==> AtMostOnce(vms[h].settings, d)
  }

  /** The first pass refuses one of the listed VMs: it is unknown, or it is powered on
      while the disk is an IDE disk. */
  predicate Rejected(vms: Vms, busType: string, hrefs: seq<string>) {
    exists i :: 0 <= i < |hrefs| && (hrefs[i] !in vms || (busType == IDE && !vms[hrefs[i]].poweredOff))
  }

  /** What detachVms must have collected for attachBackVms to put everything back. */
  predicate Collected(vms: Vms, hrefs: set<string>, disk: string, details: map<string, DiskSetting>) {
    && details.Keys == hrefs
    && forall h :: h in hrefs ==>
         h in vms && LastMatch(vms[h].settings, disk) == Some(details[h])
  }

  /** Attaching back what was detached restores every VM, for the listed VMs that got
      that far. */
  lemma AttachUndoesDetach(vms: Vms, hrefs: set<string>, done: set<string>, disk: string,
                           details: map<string, DiskSetting>)
    requires ValidVms(vms) && Collected(vms, hrefs, disk, details) && done <= hrefs
    ensures var after := AttachTo(DetachFrom(vms, hrefs, disk), done, disk, details);
            && OnlyThisDiskDisturbed(vms, after, disk)
            && (done == hrefs ==> SamePlacement(vms, after))
  {
    var after := AttachTo(DetachFrom(vms, hrefs, disk), done, disk, details);
    forall h | h in vms
      ensures after[h] == vms[h].(settings := after[h].settings)
      ensures h in done || h !in hrefs ==> multiset(after[h].settings) == multiset(vms[h].settings)
      ensures h !in done && h in hrefs ==> after[h].settings == Without(vms[h].settings, disk)
    {
      if h in done {
        WithoutLosesOne(vms[h].settings, disk);
        assert details[h] == DiskSetting(Some(disk), details[h].bus, details[h].unit);
      }
    }
  }

  lemma NothingDetached(vms: Vms, hrefs: seq<string>, disk: string)
    ensures vms == DetachFrom(vms, Elements(hrefs[..0]), disk) && OnlyDetached(vms, vms, disk)
    ensures Collected(vms, Elements(hrefs[..0]), disk, map[])
  {}

  lemma DetachOneMore(vms: Vms, hrefs: seq<string>, i: nat, disk: string)
    requires i < |hrefs| && hrefs[i] in vms
    ensures var before := DetachFrom(vms, Elements(hrefs[..i]), disk);
            && hrefs[i] in before
            && OnlyDetached(vms, before, disk)
            && OnlyDetached(vms, before[hrefs[i] := Detached(before[hrefs[i]], disk)], disk)
            && (Holds(before[hrefs[i]].settings, disk) ==>
                  && before[hrefs[i]] == vms[hrefs[i]]
                  && DetachFrom(vms, Elements(hrefs[..i + 1]), disk)
                     == before[hrefs[i] := Detached(before[hrefs[i]], disk)])
  {
    assert hrefs[..i + 1] == hrefs[..i] + [hrefs[i]];
    WithoutAbsent(Without(vms[hrefs[i]].settings, disk), disk);
  }

  lemma CollectedOneMore(vms: Vms, hrefs: seq<string>, i: nat, disk: string,
                         details: map<string, DiskSetting>, found: DiskSetting)
    requires i < |hrefs| && hrefs[i] in vms && LastMatch(vms[hrefs[i]].settings, disk) == Some(found)
    requires Collected(vms, Elements(hrefs[..i]), disk, details)
    ensures Collected(vms, Elements(hrefs[..i + 1]), disk, details[hrefs[i] := found])
  {
    assert hrefs[..i + 1] == hrefs[..i] + [hrefs[i]];
    assert Elements(hrefs[..i + 1]) == Elements(hrefs[..i]) + {hrefs[i]};
  }

  lemma ListedMore(hrefs: seq<string>, i: nat)
    requires i < |hrefs|
    ensures hrefs[i] in Elements(hrefs)
    ensures Elements(hrefs[..i]) <= Elements(hrefs) && Elements(hrefs[..i + 1]) <= Elements(hrefs)
  {}

  lemma NothingAttached(vms: Vms, hrefs: seq<string>, disk: string, details: map<string, DiskSetting>)
    ensures vms == AttachTo(vms, Elements(hrefs[..0]), disk, details)
  {}

  lemma AttachOneMore(vms: Vms, hrefs: seq<string>, i: nat, disk: string, details: map<string, DiskSetting>)
    requires i < |hrefs| && hrefs[i] in vms
    ensures var before, slot := AttachTo(vms, Elements(hrefs[..i]), disk, details), Slot(details, hrefs[i]);
            && hrefs[i] in before
            && (!Holds(before[hrefs[i]].settings, disk) ==>
                  AttachTo(vms, Elements(hrefs[..i + 1]), disk, details)
                  == before[hrefs[i] := Attached(before[hrefs[i]], disk, slot.0, slot.1)])
  {
    assert hrefs[..i + 1] == hrefs[..i] + [hrefs[i]];
    if hrefs[i] in hrefs[..i] {
      var settings := AttachTo(vms, Elements(hrefs[..i]), disk, details)[hrefs[i]].settings;
      assert settings[|settings| - 1].disk == Some(disk);
    }
  }

  // -------------------------------------------------------- what the server does

  /** A change the server carries out, and how many lock and filter operations the
      provider had issued by then. */
  datatype Effect =
    | DetachedFrom(href: string, at: nat)
    | ResizedDisk(at: nat)
    | AttachedTo(href: string, bus: int, unit: int, at: nat)

  function DetachPlan(hrefs: seq<string>, at: nat): seq<Effect> {
    seq(|hrefs|, i requires 0 <= i < |hrefs| => DetachedFrom(hrefs[i], at))
  }

  function AttachPlan(details: map<string, DiskSetting>, hrefs: seq<string>, at: nat): seq<Effect> {
    seq(|hrefs|, i requires 0 <= i < |hrefs| =>
      AttachedTo(hrefs[i], Slot(details, hrefs[i]).0, Slot(details, hrefs[i]).1, at))
  }

  /** Where the disk sits on each of the VMs that have it. */
  function Placements(vms: Vms, hrefs: seq<string>, disk: string): (details: map<string, DiskSetting>) {
    map h | h in hrefs && h in vms && Holds(vms[h].settings, disk) :: LastMatch(vms[h].settings, disk).value
  }

  /** First off every VM, then the resize, then back where it was, all at one point
      between the locks and the unlocks. */
  function Plan(vms: Vms, hrefs: seq<string>, disk: string, at: nat): seq<Effect> {
    DetachPlan(hrefs, at) + ([ResizedDisk(at)] + AttachPlan(Placements(vms, hrefs, disk), hrefs, at))
  }

  /** Some listed VM turns out not to have the disk. */
  predicate NotAttached(vms: Vms, hrefs: seq<string>, disk: string) {
    exists i :: 0 <= i < |hrefs| && hrefs[i] in vms && !Holds(vms[hrefs[i]].settings, disk)
  }

  lemma CollectedIsPlacements(vms: Vms, hrefs: seq<string>, disk: string, details: map<string, DiskSetting>)
    requires Collected(vms, Elements(hrefs), disk, details)
    ensures details == Placements(vms, hrefs, disk)
  {
    assert details.Keys == Placements(vms, hrefs, disk).Keys;
  }

  /** One more effect of a plan. */
  lemma PlanStep(before: seq<Effect>, plan: seq<Effect>, i: nat)
    requires i < |plan|
    ensures before + plan[..i] + [plan[i]] == before + plan[..i + 1]
    ensures before <= before + plan[..i] <= before + plan
    ensures before <= before + plan[..i + 1] <= before + plan
  {
    assert plan[..i + 1] == plan[..i] + [plan[i]];
    assert (before + plan)[..|before| + i] == before + plan[..i];
    assert (before + plan)[..|before| + i + 1] == before + plan[..i + 1];
  }

  /** The end of a plan after its beginning. */
  lemma PlanTail(before: seq<Effect>, first: seq<Effect>, rest: seq<Effect>, after: seq<Effect>)
    requires before + first <= after <= before + first + rest
    ensures before <= after <= before + (first + rest)
    ensures after == before + first + rest ==> after == before + (first + rest)
  {
    assert before + first + rest == before + (first + rest);
    assert (before + first)[..|before|] == before;
  }

  // ----------------------------------------------------------------- methods

  /** What a read with the given filter gets of the server's entries; nil hides nothing. */
  function Visible(shows: (Filter, Metadata.VcdEntry) -> bool, filter: Filter,
                   entries: seq<Metadata.VcdEntry>): (visible: seq<Metadata.VcdEntry>)
    ensures forall e :: e in visible <==> e in entries && (filter == [] || shows(filter, e))
  {
    if entries == [] then []
    else
      (if filter == [] || shows(filter, entries[0]) then [entries[0]] else [])
      + Visible(shows, filter, entries[1..])
  }

  lemma {:induction false} NilHidesNothing(shows: (Filter, Metadata.VcdEntry) -> bool,
                                           entries: seq<Metadata.VcdEntry>)
    ensures Visible(shows, [], entries) == entries
  {
    if entries != [] {
      NilHidesNothing(shows, entries[1..]);
    }
  }

  class Provider {
    /** Whether the filter lets an entry through. */
    const shows: (Filter, Metadata.VcdEntry) -> bool
    var vms: Vms                   // the server's VMs
    var disks: map<string, Disk>   // the server's independent disks
    var metadata: seq<Metadata.VcdEntry>   // the server's metadata of the disk being updated
    var state: DiskState           // the resource being updated
    var filter: Filter             // the client's metadata filter
    var ops: seq<Op>               // lock and filter operations issued so far
    var effects: seq<Effect>       // changes the server has carried out so far
    var faults: nat                // calls that failed so far
    var conflicts: nat             // conflicts with an ignore rule reported so far

    constructor (vms: Vms, disks: map<string, Disk>, metadata: seq<Metadata.VcdEntry>, state: DiskState,
                 filter: Filter, shows: (Filter, Metadata.VcdEntry) -> bool)
      ensures this.vms == vms && this.disks == disks && this.filter == filter
      ensures this.metadata == metadata && this.state == state && this.shows == shows
      ensures ops == [] && effects == [] && faults == 0 && conflicts == 0
    {
      this.vms, this.disks, this.filter, this.ops := vms, disks, filter, [];
      this.metadata, this.state, this.shows := metadata, state, shows;
      this.effects, this.faults, this.conflicts := [], 0, 0;
    }

    ghost function Now(): Server
      reads this
    {
      Server(vms, disks, effects)
    }

    // Server calls. Each may fail for reasons the provider cannot see.

    /** A call whose outcome is the server's. */
    method Call() returns (ok: bool)
      modifies this`faults
      ensures faults == if ok then old(faults) else old(faults) + 1
    {
      ok := *;
      if !ok {
        faults := faults + 1;
      }
    }

    /** The hrefs come from a query the provider does not control. */
    method GetAttachedVmsHrefs(disk: string) returns (hrefs: Option<seq<string>>)
      modifies this`faults
      ensures faults == if hrefs.Some? then old(faults) else old(faults) + 1
    {
      var ok := Call();
      var list: seq<string> := *;
      hrefs := if ok then Some(list) else None;
    }

    /** A VM by its href. */
    method GetVMByHref(href: string) returns (vm: Option<Vm>)
      modifies this`faults
      ensures vm.Some? ==> href in vms && vm.value == vms[href] && faults == old(faults)
      ensures vm.None? ==> href !in vms || faults > old(faults)
      ensures faults >= old(faults)
    {
      var ok := Call();
      vm := if ok && href in vms then Some(vms[href]) else None;
    }

    /** Detaching needs the disk to be there; a failed task may have detached it. */
    method DetachDisk(href: string, disk: string) returns (ok: bool)
      requires href in vms
      modifies this`vms, this`effects, this`faults
      ensures ok ==> Holds(old(vms)[href].settings, disk) && faults == old(faults)
      ensures !ok ==> faults > old(faults)
      ensures (!ok && vms == old(vms) && effects == old(effects))
              || (vms == old(vms)[href := Detached(old(vms)[href], disk)]
                  && effects == old(effects) + [DetachedFrom(href, |ops|)])
    {
      ok := Call();
      var accepted: bool := *;
      if Holds(vms[href].settings, disk) && (ok || accepted) {
        vms := vms[href := Detached(vms[href], disk)];
        effects := effects + [DetachedFrom(href, |ops|)];
      } else {
        ok, faults := false, faults + 1;
      }
    }

    /** Attaching needs the disk not to be there; a failed task may have attached it. */
    method AttachDisk(href: string, disk: string, bus: int, unit: int) returns (ok: bool)
      requires href in vms
      modifies this`vms, this`effects, this`faults
      ensures ok ==> !Holds(old(vms)[href].settings, disk) && faults == old(faults)
      ensures !ok ==> faults > old(faults)
      ensures (!ok && vms == old(vms) && effects == old(effects))
              || (!Holds(old(vms)[href].settings, disk)
                  && vms == old(vms)[href := Attached(old(vms)[href], disk, bus, unit)]
                  && effects == old(effects) + [AttachedTo(href, bus, unit, |ops|)])
    {
      ok := Call();
      var accepted: bool := *;
      if !Holds(vms[href].settings, disk) && (ok || accepted) {
        vms := vms[href := Attached(vms[href], disk, bus, unit)];
        effects := effects + [AttachedTo(href, bus, unit, |ops|)];
      } else {
        ok, faults := false, faults + 1;
      }
    }

    /** The disk's own update; a failed task may have carried it out. */
    method UpdateDisk(disk: string, change: Change) returns (ok: bool)
      modifies this`disks, this`effects, this`faults
      ensures ok ==> faults == old(faults)
      ensures !ok ==> faults > old(faults)
      ensures (!ok && disks == old(disks) && effects == old(effects))
              || (disk in old(disks) && disks == old(disks)[disk := Resized(old(disks)[disk], change)]
                  && effects == old(effects) + [ResizedDisk(|ops|)])
    {
      ok := Call();
      var accepted: bool := *;
      if disk in disks && (ok || accepted) {
        disks := disks[disk := Resized(disks[disk], change)];
        effects := effects + [ResizedDisk(|ops|)];
      } else {
        ok, faults := false, faults + 1;
      }
    }

    // Locks.

    method KvLock(key: string)
      modifies this`ops
      ensures ops == old(ops) + [Lock(key)]
    {
      ops := ops + [Lock(key)];
    }

    method KvUnlock(key: string)
      modifies this`ops
      ensures ops == old(ops) + [Unlock(key)]
    {
      ops := ops + [Unlock(key)];
    }

    method LockVmsForIndependentDisks(hrefs: seq<string>)
      modifies this`ops
      ensures ops == old(ops) + LockVmsOps(hrefs)
      ensures |ops| == |old(ops)| + |hrefs| && ops[..|old(ops)|] == old(ops)
      ensures forall i :: 0 <= i < |hrefs| ==> ops[|old(ops)| + i] == Lock("independentDiskLock:" + hrefs[i])
    {
      for i := 0 to |hrefs|
        invariant ops == old(ops) + LockVmsOps(hrefs[..i])
        invariant |ops| == |old(ops)| + i && ops[..|old(ops)|] == old(ops)
        invariant forall j :: 0 <= j < i ==> ops[|old(ops)| + j] == Lock("independentDiskLock:" + hrefs[j])
      {
        LockVmsSnoc(hrefs, i);
        KvLock(VmKey(hrefs[i]));
      }
      assert hrefs[..|hrefs|] == hrefs;
    }

    method UnlockVmsForIndependentDisks(hrefs: seq<string>)
      modifies this`ops
      ensures ops == old(ops) + UnlockVmsOps(hrefs)
      ensures |ops| == |old(ops)| + |hrefs| && ops[..|old(ops)|] == old(ops)
      ensures forall i :: 0 <= i < |hrefs| ==> ops[|old(ops)| + i] == Unlock("independentDiskLock:" + hrefs[i])
    {
      for i := 0 to |hrefs|
        invariant ops == old(ops) + UnlockVmsOps(hrefs[..i])
        invariant |ops| == |old(ops)| + i && ops[..|old(ops)|] == old(ops)
        invariant forall j :: 0 <= j < i ==> ops[|old(ops)| + j] == Unlock("independentDiskLock:" + hrefs[j])
      {
        UnlockVmsSnoc(hrefs, i);
        KvUnlock(VmKey(hrefs[i]));
      }
      assert hrefs[..|hrefs|] == hrefs;
    }

    // The three phases.

    /** The first pass: every VM is fetched and its power state checked before anything
        is detached. */
    method FetchVms(disk: string, busType: string, hrefs: seq<string>)
      returns (err: bool, fetched: seq<(string, Vm)>)
      modifies this`faults
      ensures !err ==> |fetched| == |hrefs|
      ensures !err ==> forall i :: 0 <= i < |hrefs| ==>
                         fetched[i].0 == hrefs[i] && hrefs[i] in vms && fetched[i].1 == vms[hrefs[i]]
      ensures faults >= old(faults)
      ensures err <==> faults > old(faults) || Rejected(vms, busType, hrefs)
    {
      err, fetched := false, [];
      for i := 0 to |hrefs|
        invariant |fetched| == i && faults == old(faults)
        invariant forall j :: 0 <= j < i ==>
                    && fetched[j].0 == hrefs[j] && hrefs[j] in vms && fetched[j].1 == vms[hrefs[j]]
                    && (busType == IDE ==> vms[hrefs[j]].poweredOff)
      {
        var vm := GetVMByHref(hrefs[i]);
        if vm.None? || (!vm.value.poweredOff && busType == IDE) {
          return true, fetched;
        }
        fetched := fetched + [(hrefs[i], vm.value)];
      }
    }

    /** The scan of one VM's disk settings. */
    method FindDisk(settings: seq<DiskSetting>, disk: string) returns (found: Option<DiskSetting>)
      ensures found == LastMatch(settings, disk)
      ensures found.None? ==> forall i :: 0 <= i < |settings| ==> settings[i].disk != Some(disk)
      ensures found.Some? ==>
                exists i :: 0 <= i < |settings| && settings[i] == found.value && settings[i].disk == Some(disk)
                            && forall j :: i < j < |settings| ==> settings[j].disk != Some(disk)
    {
      found := None;
      for i := 0 to |settings|
        invariant found == LastMatch(settings[..i], disk)
        invariant found.None? ==> forall j :: 0 <= j < i ==> settings[j].disk != Some(disk)
        invariant found.Some? ==>
                    exists k :: 0 <= k < i && settings[k] == found.value && settings[k].disk == Some(disk)
                                && forall j :: k < j < i ==> settings[j].disk != Some(disk)
      {
        assert settings[..i + 1][..i] == settings[..i];
        if settings[i].disk == Some(disk) {
          found := Some(settings[i]);
        }
      }
      assert settings[..|settings|] == settings;
    }

    /** The second pass over the VMs fetched by the first. An answer without the disk
        section counts as a failed call. */
    method DetachFetched(disk: string, hrefs: seq<string>, fetched: seq<(string, Vm)>)
      returns (err: bool, details: map<string, DiskSetting>)
      requires |fetched| == |hrefs|
      requires forall i :: 0 <= i < |hrefs| ==>
                 fetched[i].0 == hrefs[i] && hrefs[i] in vms && fetched[i].1 == vms[hrefs[i]]
      modifies this`vms, this`effects, this`faults
      ensures !err ==> Collected(old(vms), Elements(hrefs), disk, details)
      ensures !err ==> vms == DetachFrom(old(vms), Elements(hrefs), disk)
      ensures !err ==> effects == old(effects) + DetachPlan(hrefs, |ops|)
      ensures OnlyDetached(old(vms), vms, disk)
      ensures old(effects) <= effects <= old(effects) + DetachPlan(hrefs, |ops|)
      ensures faults >= old(faults)
      ensures err <==> faults > old(faults) || NotAttached(old(vms), hrefs, disk)
    {
      hide DetachFrom, Collected, OnlyDetached, Without, LastMatch;
      err, details := false, map[];
      ghost var plan := DetachPlan(hrefs, |ops|);
      NothingDetached(vms, hrefs, disk);
      for i := 0 to |hrefs|
        invariant vms == DetachFrom(old(vms), Elements(hrefs[..i]), disk) && OnlyDetached(old(vms), vms, disk)
        invariant Collected(old(vms), Elements(hrefs[..i]), disk, details)
        invariant effects == old(effects) + plan[..i] && faults == old(faults)
        invariant forall j :: 0 <= j < i ==> Holds(old(vms)[hrefs[j]].settings, disk)
      {
        var (href, vm) := fetched[i];
        DetachOneMore(old(vms), hrefs, i, disk);
        PlanStep(old(effects), plan, i);
        var hasDiskSection := Call();
        if !hasDiskSection {
          return true, map[];
        }
        var found := FindDisk(vm.settings, disk);
        if found.None? {
          return true, map[];
        }
        CollectedOneMore(old(vms), hrefs, i, disk, details, found.value);
        details := details[href := found.value];
        var ok := DetachDisk(href, disk);
        if !ok {
          return true, map[];
        }
      }
      assert hrefs[..|hrefs|] == hrefs && plan[..|hrefs|] == plan;
    }

    /** On success the disk is gone from exactly the listed VMs and its bus and unit
        numbers are known for each. On error no VM lost anything else; and if any VM is
        unknown, or powered on while the disk is IDE, no VM lost anything at all. */
    method DetachVms(disk: string, busType: string, hrefs: seq<string>)
      returns (err: bool, details: map<string, DiskSetting>)
      modifies this`vms, this`effects, this`faults
      ensures !err ==> Collected(old(vms), Elements(hrefs), disk, details)
      ensures !err ==> vms == DetachFrom(old(vms), Elements(hrefs), disk)
      ensures !err ==> effects == old(effects) + DetachPlan(hrefs, |ops|)
      ensures OnlyDetached(old(vms), vms, disk)
      ensures old(effects) <= effects <= old(effects) + DetachPlan(hrefs, |ops|)
      ensures Rejected(old(vms), busType, hrefs) ==> vms == old(vms) && disks == old(disks) && effects == old(effects)
      ensures faults >= old(faults)
      ensures err <==> faults > old(faults) || Rejected(old(vms), busType, hrefs) || NotAttached(old(vms), hrefs, disk)
    {
      var fetched;
      err, fetched := FetchVms(disk, busType, hrefs);
      if err {
        return err, map[];
      }
      err, details := DetachFetched(disk, hrefs, fetched);
    }

    /** On success the disk is back on exactly the listed VMs, at the collected slots;
        on error it is back on some of them. */
    method AttachBackVms(disk: string, details: map<string, DiskSetting>, hrefs: seq<string>)
      returns (err: bool)
      requires Elements(hrefs) <= vms.Keys
      modifies this`vms, this`effects, this`faults
      ensures !err ==> vms == AttachTo(old(vms), Elements(hrefs), disk, details)
      ensures !err ==> effects == old(effects) + AttachPlan(details, hrefs, |ops|)
      ensures exists done :: done <= Elements(hrefs) && vms == AttachTo(old(vms), done, disk, details)
      ensures old(effects) <= effects <= old(effects) + AttachPlan(details, hrefs, |ops|)
      ensures faults >= old(faults) && (err <==> faults > old(faults))
    {
      hide AttachTo;
      err := false;
      ghost var plan := AttachPlan(details, hrefs, |ops|);
      NothingAttached(vms, hrefs, disk, details);
      for i := 0 to |hrefs|
        invariant vms == AttachTo(old(vms), Elements(hrefs[..i]), disk, details) && vms.Keys == old(vms).Keys
        invariant effects == old(effects) + plan[..i] && faults == old(faults)
      {
        ListedMore(hrefs, i);
        PlanStep(old(effects), plan, i);
        var vm := GetVMByHref(hrefs[i]);
        if vm.None? {
          return true;
        }
        var slot := Slot(details, hrefs[i]);
        AttachOneMore(old(vms), hrefs, i, disk, details);
        var ok := AttachDisk(hrefs[i], disk, slot.0, slot.1);
        if !ok {
          return true;
        }
      }
      assert hrefs[..|hrefs|] == hrefs && plan[..|hrefs|] == plan;
    }

    /** The swap section: all entries are read whatever the filter is, and the deprecated
        attribute is set from them. */
    method SetDeprecatedMetadata() returns (err: bool)
      modifies this`ops, this`filter, this`faults, this`state
      ensures ops == old(ops) + ReadOps(1, 0)
      ensures filter == old(filter)
      ensures state == old(state).(metadata := state.metadata)
      ensures !err ==> (forall e :: e in metadata ==> e.typedValue.Some?)
                       && state.metadata == Metadata.PlainMap(metadata)
      ensures faults >= old(faults) && (err <==> faults > old(faults))
    {
      KvLock(METADATA_KEY);
      var saved := filter;
      filter := [];
      ops := ops + [Hide];
      var read := Call();
      var answer := Visible(shows, filter, metadata);
      ops := ops + [ReadAll];
      filter := saved;
      ops := ops + [Restore];
      KvUnlock(METADATA_KEY);
      assert ops == old(ops) + ReadOps(1, 0) by {
        assert Repeat(ReadAll, 1) == [ReadAll] && Repeat(ReadFiltered, 0) == [];
      }
      if !read {
        return true;
      }
      NilHidesNothing(shows, metadata);
      var plain := Metadata.GetMetadataStruct(answer);
      if plain.None? {
        faults := faults + 1;
        return true;
      }
      var stored := Call();
      if !stored {
        return true;
      }
      state := state.(metadata := plain.value);
      err := false;
    }

    /** The read with the filter, whatever that is at the moment. */
    method SetEntries() returns (err: bool)
      modifies this`faults, this`state
      ensures faults >= old(faults) && (err <==> faults > old(faults))
      ensures err ==> state == old(state)
      ensures !err ==>
                exists seen ::
                  (seen == filter || seen == [])
                  && state == old(state).(metadataEntries :=
                                Metadata.Stored(Visible(shows, seen, metadata), old(state).metadataEntries))
    {
      var read := Call();
      if !read {
        return true;
      }
      var swappedOut: bool := *;
      var seen := if swappedOut then [] else filter;
      var entries := Metadata.SetMetadataEntryInState(Visible(shows, seen, metadata), state.metadataEntries);
      var stored := Call();
      if !stored {
        return true;
      }
      state := state.(metadataEntries := entries);
      assert entries == Metadata.Stored(Visible(shows, seen, metadata), old(state).metadataEntries);
      err := false;
    }

    /** The state holds what the server has of the disk: its record, all its metadata, and
        the entries that pass the filter, or all of them when another thread had the filter
        swapped out at the last read. A disk that is gone is removed from the state. */
    ghost predicate Reflects(disk: string, before: DiskState)
      reads this`disks, this`metadata, this`state, this`filter
    {
      if disk !in disks then state == before.(id := "")
      else
        && (forall e :: e in metadata ==> e.typedValue.Some?)
        && exists seen ::
             (seen == filter || seen == [])
             && state == DiskState(disk, disks[disk], Metadata.PlainMap(metadata),
                                   Metadata.Stored(Visible(shows, seen, metadata), before.metadataEntries))
    }

    /** updateMetadataInState for a resource with the given number of metadata_entry blocks:
        the swap section and the reads with the filter after it, which are one for each block
        looked at and one for the entries. The filter is back whether or not the unfiltered
        read failed. It returns diagnostics when a call fails, or when an entry of the
        resource conflicts with an ignore rule: then they may be a mere warning, but the
        read ends there all the same. A crash counts as a failed call. */
    method UpdateMetadataInState(disk: string, entries: nat) returns (err: bool, filtered: nat)
      requires disk in disks && state.id == disk && state.disk == disks[disk]
      modifies this`ops, this`filter, this`faults, this`conflicts, this`state
      ensures ops == old(ops) + ReadOps(1, filtered)
      ensures filter == old(filter)
      ensures filtered <= entries + 1 && (!err ==> filtered > 0)
      ensures !err ==> Reflects(disk, old(state))
      ensures faults >= old(faults) && conflicts >= old(conflicts)
      ensures err <==> faults > old(faults) || conflicts > old(conflicts)
      ensures conflicts > old(conflicts) ==> faults == old(faults) && 0 < filtered <= entries
    {
      filtered := 0;
      err := SetDeprecatedMetadata();
      if err {
        return;
      }
      var done := false;
      while filtered < entries && !done
        invariant filtered <= entries && (done ==> filtered > 0)
        invariant ops == old(ops) + ReadOps(1, filtered)
        modifies this`ops
      {
        ReadOpsSnoc(1, filtered);
        ops := ops + [ReadFiltered];
        filtered := filtered + 1;
        done := *;
      }
      var reported: bool := *;
      if done && reported {
        conflicts := conflicts + 1;
        return true, filtered;
      }
      ReadOpsSnoc(1, filtered);
      ops := ops + [ReadFiltered];
      filtered := filtered + 1;
      err := SetEntries();
    }

    /** The final read of the update: it may fail before it gets to the metadata, and
        when the disk is gone it ends without an error. */
    method ReadDisk(disk: string, entries: nat) returns (err: bool, read: Option<nat>)
      modifies this`ops, this`filter, this`faults, this`conflicts, this`state
      ensures ops == old(ops) + OptionalRead(read)
      ensures filter == old(filter)
      ensures read.Some? ==> disk in disks && read.value <= entries + 1
      ensures !err ==> Reflects(disk, old(state)) && (read.Some? <==> disk in disks)
      ensures !err && disk in disks ==> state.id == disk && state.disk == disks[disk]
      ensures !err && disk !in disks ==> state.id == "" && state.disk == old(state).disk
      ensures faults >= old(faults) && conflicts >= old(conflicts)
      ensures err <==> faults > old(faults) || conflicts > old(conflicts)
      ensures conflicts > old(conflicts) ==> read.Some?
    {
      read := None;
      var looked := Call();
      if !looked {
        return true, None;
      }
      if disk !in disks {
        state := state.(id := "");
        return false, None;
      }
      var queried := Call();
      if !queried {
        return true, None;
      }
      state := state.(id := disk, disk := disks[disk]);
      var attachedVmsSet := Call();
      if !attachedVmsSet {
        return true, None;
      }
      var filtered;
      err, filtered := UpdateMetadataInState(disk, entries);
      read := Some(filtered);
    }

    /** The second half of the plan, once the disk is off every VM. */
    method ResizeAndAttach(disk: string, change: Change, hrefs: seq<string>, details: map<string, DiskSetting>)
      returns (err: bool)
      requires Elements(hrefs) <= vms.Keys
      modifies this`vms, this`disks, this`effects, this`faults
      ensures exists done :: done <= Elements(hrefs) && vms == AttachTo(old(vms), done, disk, details)
      ensures !err ==> vms == AttachTo(old(vms), Elements(hrefs), disk, details)
      ensures (err && disks == old(disks))
              || (disk in old(disks) && disks == old(disks)[disk := Resized(old(disks)[disk], change)])
      ensures old(effects) <= effects <= old(effects) + ([ResizedDisk(|ops|)] + AttachPlan(details, hrefs, |ops|))
      ensures !err ==> effects == old(effects) + ([ResizedDisk(|ops|)] + AttachPlan(details, hrefs, |ops|))
      ensures faults >= old(faults) && (err <==> faults > old(faults))
    {
      ghost var attaching := AttachPlan(details, hrefs, |ops|);
      assert vms == AttachTo(vms, {}, disk, details);
      var refreshed := Call();
      if !refreshed {
        return true;
      }
      var updated := UpdateDisk(disk, change);
      ghost var resized := effects;
      if !updated {
        return true;
      }
      err := AttachBackVms(disk, details, hrefs);
      PlanTail(old(effects), [ResizedDisk(|ops|)], attaching, effects);
    }

    /** What the update does while it holds the locks: the plan, or a beginning of it. */
    method ResizeDetached(disk: string, busType: string, change: Change, hrefs: seq<string>)
      returns (err: bool)
      requires ValidVms(vms)
      modifies this`vms, this`disks, this`effects, this`faults
      ensures faults >= old(faults)
      ensures Ended(err, faults > old(faults), disk, busType, change, hrefs, |ops|, old(Now()), Now())
    {
      ghost var start := Now();
      var details;
      err, details := DetachVms(disk, busType, hrefs);
      if err {
        OnlyDetachedDisturbs(start.vms, vms, disk);
        DetachFits(start.effects, effects, start.vms, hrefs, disk, |ops|);
        return;
      }
      ghost var middle := Now();
      err := ResizeAndAttach(disk, change, hrefs, details);
      ghost var done :| done <= Elements(hrefs) && vms == AttachTo(middle.vms, done, disk, details);
      EndsAttached(err, faults > old(faults), disk, busType, change, hrefs, |ops|, details,
                   if err then done else Elements(hrefs), start, middle, Now());
    }

    /** The work between the last lock and the first deferred unlock. `done` says that the
        disk is back on its VMs; what fails after that does not undo it. */
    method ResizeThenRead(disk: string, busType: string, change: Change, hrefs: seq<string>)
      returns (err: bool, done: bool, read: Option<nat>)
      requires ValidVms(vms)
      modifies this
      ensures ops == old(ops) + OptionalRead(read)
      ensures filter == old(filter)
      ensures faults >= old(faults) && conflicts >= old(conflicts)
      ensures Ended(!done, !done && faults > old(faults), disk, busType, change, hrefs, |old(ops)|, old(Now()), Now())
      ensures read.Some? ==> read.value <= change.entries + 1
      ensures err <==> !done || faults > old(faults) || conflicts > old(conflicts)
      ensures !err ==> Reflects(disk, old(state))
    {
      hide Reflects;
      read := None;
      err := ResizeDetached(disk, busType, change, hrefs);
      done := !err;
      if done {
        err, read := WriteMetadataAndRead(disk, change.entries);
      }
    }

    /** The update from its first lock to its last deferred unlock: every change falls
        after the last lock and before the final read and the first unlock. */
    method ResizeLocked(disk: string, busType: string, change: Change, hrefs: seq<string>)
      returns (err: bool, done: bool, read: Option<nat>)
      requires ValidVms(vms)
      modifies this
      ensures ops == old(ops) + DiskOps(hrefs, read)
      ensures filter == old(filter)
      ensures faults >= old(faults) && conflicts >= old(conflicts)
      ensures Ended(!done, !done && faults > old(faults), disk, busType, change, hrefs,
                    |old(ops)| + Locks(hrefs), old(Now()), Now())
      ensures read.Some? ==> read.value <= change.entries + 1
      ensures err <==> !done || faults > old(faults) || conflicts > old(conflicts)
      ensures !err ==> Reflects(disk, old(state))
    {
      hide Ended, Reflects;
      ghost var first: seq<Op> := if |hrefs| > 1 then [Lock(GLOBAL_DISK_KEY)] else [];
      ghost var last: seq<Op> := if |hrefs| > 1 then [Unlock(GLOBAL_DISK_KEY)] else [];
      if |hrefs| > 1 {
        KvLock(GLOBAL_DISK_KEY);
      }
      assert ops == old(ops) + first;
      LockVmsForIndependentDisks(hrefs);
      LockVmsCount(hrefs);
      assert |ops| == |old(ops)| + Locks(hrefs);
      err, done, read := ResizeThenRead(disk, busType, change, hrefs);
      UnlockVmsForIndependentDisks(hrefs);
      ghost var before := ops;
      if |hrefs| > 1 {
        KvUnlock(GLOBAL_DISK_KEY);
      }
      assert ops == before + last;
      Regroup(old(ops), first, LockVmsOps(hrefs), OptionalRead(read), UnlockVmsOps(hrefs), last);
    }

    method ResizeAttached(disk: string, busType: string, change: Change)
      returns (err: bool, locked: Option<seq<string>>, done: bool, read: Option<nat>)
      requires ValidVms(vms)
      modifies this
      ensures ops == old(ops) + (if locked.Some? then DiskOps(locked.value, read) else [])
      ensures filter == old(filter)
      ensures locked.Some? ==>
                Ended(!done, !done && faults > old(faults), disk, busType, change, locked.value,
                      |old(ops)| + Locks(locked.value), old(Now()), Now())
      ensures locked.None? ==> Now() == old(Now()) && !done && faults > old(faults) && read.None?
      ensures faults >= old(faults) && conflicts >= old(conflicts)
      ensures read.Some? ==> read.value <= change.entries + 1
      ensures err <==> !done || faults > old(faults) || conflicts > old(conflicts)
      ensures !err ==> Reflects(disk, old(state))
    {
      hide Ended, Reflects;
      locked := ListVms(disk, change);
      if locked.None? {
        return true, None, false, None;
      }
      err, done, read := ResizeLocked(disk, busType, change, locked.value);
    }

    /** The lookups before the first lock: the storage profile and the attached VMs. */
    method ListVms(disk: string, change: Change) returns (hrefs: Option<seq<string>>)
      modifies this`faults
      ensures faults >= old(faults) && (hrefs.None? <==> faults > old(faults))
    {
      if change.profile != "" {
        var profileFound := Call();
        if !profileFound {
          return None;
        }
      }
      hrefs := GetAttachedVmsHrefs(disk);
    }

    /** The update. Its lock operations are those of one task of LockScripts, whichever
        way it ends. When it gets as far as attaching the disk back (`done`), the server has
        carried out exactly the plan, between the locks and the unlocks, and every VM has its
        disks where they were; otherwise a beginning of the plan. It returns diagnostics
        exactly when a call failed, a conflict with an ignore rule was found, the sharing
        type changes, a VM is rejected or a listed VM lacks the disk. */
    method Update(disk: string, busType: string, change: Change)
      returns (err: bool, locked: Option<seq<string>>, done: bool, read: Option<nat>)
      requires ValidVms(vms)
      modifies this
      ensures ops == old(ops) + (if locked.Some? then Script(DiskUpdate(locked.value, read)) else OptionalRead(read))
      ensures filter == old(filter)
      ensures locked.Some? ==> change.resized && !change.sharingTypeChanged
      ensures !err && change.resized ==> done
      ensures locked.Some? ==>
                Ended(!done, !done && faults > old(faults), disk, busType, change, locked.value,
                      |old(ops)| + Locks(locked.value), old(Now()), Now())
      ensures locked.Some? ==> (err <==> !done || faults > old(faults) || conflicts > old(conflicts))
      ensures locked.None? ==> Now() == old(Now()) && !done
      ensures locked.None? ==>
                (err <==> faults > old(faults) || conflicts > old(conflicts) || change.sharingTypeChanged)
      ensures change.sharingTypeChanged ==> ops == old(ops)
      ensures read.Some? ==> read.value <= change.entries + 1
      ensures !err ==> Reflects(disk, old(state))
      ensures !err && change.resized ==>
                && disk in old(disks) && state.id == disk
                && state.disk.sizeMb == change.sizeMb && state.disk.description == change.description
                && state.disk.profile == (if change.profile != "" then change.profile else old(disks)[disk].profile)
                && state.disk.busType == old(disks)[disk].busType
      ensures done ==>
                && disk in old(disks) && disks == old(disks)[disk := disks[disk]]
                && disks[disk].sizeMb == change.sizeMb && disks[disk].description == change.description
                && disks[disk].profile == (if change.profile != "" then change.profile else old(disks)[disk].profile)
                && disks[disk].busType == old(disks)[disk].busType
      ensures done ==>
                && vms.Keys == old(vms).Keys
                && forall h :: h in vms ==>
                     && vms[h].name == old(vms)[h].name && vms[h].poweredOff == old(vms)[h].poweredOff
                     && multiset(vms[h].settings) == multiset(old(vms)[h].settings)
      ensures locked.Some?
              && (exists h :: h in locked.value
                              && (h !in old(vms) || (busType == "IDE" && !old(vms)[h].poweredOff))) ==>
                err && Now() == old(Now())
      ensures locked.Some? && err && faults == old(faults) && conflicts == old(conflicts) ==>
                exists h :: h in locked.value
                            && (h !in old(vms) || (busType == "IDE" && !old(vms)[h].poweredOff)
                                || forall s :: s in old(vms)[h].settings ==> s.disk != Some(disk))
    {
      hide Ended, Reflects;
      locked, done, read := None, false, None;
      var diskFound := Call();
      if !diskFound {
        return true, None, false, None;
      }
      if change.sharingTypeChanged {
        return true, None, false, None;
      }
      if change.resized {
        err, locked, done, read := ResizeAttached(disk, busType, change);
        if locked.Some? {
          EndedServer(!done, !done && faults > old(faults), disk, busType, change, locked.value,
                      |old(ops)| + Locks(locked.value), old(Now()), Now());
        }
        if !err {
          RecordIsReflected(disk, old(state));
        }
      } else {
        err, read := WriteMetadataAndRead(disk, change.entries);
      }
    }

    lemma RecordIsReflected(disk: string, before: DiskState)
      requires Reflects(disk, before) && disk in disks
      ensures state.id == disk && state.disk == disks[disk]
    {}

    /** createOrUpdateMetadata takes no key; if it fails the read is skipped. What it leaves
        on the server is the subject of the module Metadata. */
    method WriteMetadataAndRead(disk: string, entries: nat) returns (err: bool, read: Option<nat>)
      modifies this`ops, this`filter, this`faults, this`conflicts, this`metadata, this`state
      ensures ops == old(ops) + OptionalRead(read)
      ensures filter == old(filter)
      ensures read.Some? ==> read.value <= entries + 1
      ensures !err ==> Reflects(disk, old(state))
      ensures faults >= old(faults) && conflicts >= old(conflicts)
      ensures err <==> faults > old(faults) || conflicts > old(conflicts)
      ensures conflicts > old(conflicts) ==> read.Some?
    {
      var written := Call();
      metadata := *;
      if !written {
        return true, None;
      }
      err, read := ReadDisk(disk, entries);
    }
  }

  /** The keys an update takes before it starts. */
  function Locks(hrefs: seq<string>): nat {
    |hrefs| + if |hrefs| > 1 then 1 else 0
  }

  lemma {:induction false} LockVmsCount(hrefs: seq<string>)
    ensures |LockVmsOps(hrefs)| == |hrefs|
  {
    if hrefs != [] {
      LockVmsCount(hrefs[1..]);
    }
  }

  datatype Server = Server(vms: Vms, disks: map<string, Disk>, effects: seq<Effect>)

  /** How a resize of a disk on the listed VMs ends, `at` being the point where its changes
      may fall. On success the whole plan was carried out and every VM has its disks where
      they were. Otherwise a beginning of it was: VMs may miss this disk and nothing else.
      A rejected VM means that nothing changed. It fails exactly when a call failed, a VM
      is rejected, or a listed VM does not have the disk. */
  ghost predicate Ended(err: bool, faulted: bool, disk: string, busType: string, change: Change,
                        hrefs: seq<string>, at: nat, before: Server, after: Server)
  {
    var plan := Plan(before.vms, hrefs, disk, at);
    && (!err ==>
          && SamePlacement(before.vms, after.vms)
          && after.effects == before.effects + plan
          && disk in before.disks
          && after.disks == before.disks[disk := Resized(before.disks[disk], change)])
    && OnlyThisDiskDisturbed(before.vms, after.vms, disk)
    && before.effects <= after.effects <= before.effects + plan
    && (after.disks == before.disks
        || (disk in before.disks && after.disks == before.disks[disk := Resized(before.disks[disk], change)]))
    && (Rejected(before.vms, busType, hrefs) ==> after == before)
    && (err <==> faulted || Rejected(before.vms, busType, hrefs) || NotAttached(before.vms, hrefs, disk))
  }

  /** In terms of the server alone: what a resize leaves there, and why it fails. */
  lemma EndedServer(err: bool, faulted: bool, disk: string, busType: string, change: Change,
                    hrefs: seq<string>, at: nat, before: Server, after: Server)
    requires Ended(err, faulted, disk, busType, change, hrefs, at, before, after)
    ensures !err ==>
              && disk in before.disks && after.disks.Keys == before.disks.Keys
              && after.disks == before.disks[disk := after.disks[disk]]
              && after.disks[disk].sizeMb == change.sizeMb && after.disks[disk].description == change.description
              && after.disks[disk].profile
                 == (if change.profile != "" then change.profile else before.disks[disk].profile)
              && after.disks[disk].busType == before.disks[disk].busType
    ensures !err ==>
              && after.vms.Keys == before.vms.Keys
              && forall h :: h in after.vms ==>
                   && after.vms[h].name == before.vms[h].name && after.vms[h].poweredOff == before.vms[h].poweredOff
                   && multiset(after.vms[h].settings) == multiset(before.vms[h].settings)
    ensures (exists h :: h in hrefs && (h !in before.vms || (busType == "IDE" && !before.vms[h].poweredOff))) ==>
              err && after == before
    ensures err && !faulted ==>
              exists h :: h in hrefs
                          && (h !in before.vms || (busType == "IDE" && !before.vms[h].poweredOff)
                              || forall s :: s in before.vms[h].settings ==> s.disk != Some(disk))
  {
    if h :| h in hrefs && (h !in before.vms || (busType == "IDE" && !before.vms[h].poweredOff)) {
      var i :| 0 <= i < |hrefs| && hrefs[i] == h;
      assert Rejected(before.vms, busType, hrefs);
    }
    if err && !faulted && !Rejected(before.vms, busType, hrefs) {
      var i :| 0 <= i < |hrefs| && hrefs[i] in before.vms && !Holds(before.vms[hrefs[i]].settings, disk);
      assert hrefs[i] in hrefs;
    }
  }

  /** The disk is put back on the VM at the bus and unit numbers it had there. */
  ghost predicate PutBack(vms: Vms, href: string, disk: string, e: Effect, at: nat) {
    && href in vms
    && exists s :: s in vms[href].settings && s.disk == Some(disk) && e == AttachedTo(href, s.bus, s.unit, at)
  }

  lemma PlanIs(vms: Vms, hrefs: seq<string>, disk: string, at: nat)
    ensures |Plan(vms, hrefs, disk, at)| == |hrefs| + 1 + |hrefs|
    ensures Plan(vms, hrefs, disk, at)[|hrefs|] == ResizedDisk(at)
  {}

  lemma PlanAt(vms: Vms, hrefs: seq<string>, disk: string, busType: string, at: nat, i: nat)
    requires !Rejected(vms, busType, hrefs) && !NotAttached(vms, hrefs, disk) && i < |hrefs|
    ensures |Plan(vms, hrefs, disk, at)| == |hrefs| + 1 + |hrefs|
    ensures Plan(vms, hrefs, disk, at)[i] == DetachedFrom(hrefs[i], at)
    ensures PutBack(vms, hrefs[i], disk, Plan(vms, hrefs, disk, at)[|hrefs| + 1 + i], at)
  {
    AttachPutsBack(vms, hrefs, disk, busType, at, i);
    hide PutBack, Rejected, NotAttached;
    ThreePieces(DetachPlan(hrefs, at), ResizedDisk(at), AttachPlan(Placements(vms, hrefs, disk), hrefs, at));
  }

  lemma ThreePieces(a: seq<Effect>, e: Effect, b: seq<Effect>)
    ensures var all := a + ([e] + b);
            && |all| == |a| + 1 + |b| && all[|a|] == e
            && (forall i :: 0 <= i < |a| ==> all[i] == a[i])
            && (forall i: nat :: i < |b| ==> all[|a| + 1 + i] == b[i])
  {}

  lemma AttachPutsBack(vms: Vms, hrefs: seq<string>, disk: string, busType: string, at: nat, i: nat)
    requires !Rejected(vms, busType, hrefs) && !NotAttached(vms, hrefs, disk) && i < |hrefs|
    ensures PutBack(vms, hrefs[i], disk, AttachPlan(Placements(vms, hrefs, disk), hrefs, at)[i], at)
  {
    assert hrefs[i] in hrefs && hrefs[i] in Placements(vms, hrefs, disk);
    var s := Placements(vms, hrefs, disk)[hrefs[i]];
  }

  /** And what the server did on the way: off every VM in list order, the resize, and back
      onto every VM in list order, all after the last lock. */
  lemma EndedEffects(faulted: bool, disk: string, busType: string, change: Change,
                     hrefs: seq<string>, at: nat, before: Server, after: Server)
    requires Ended(false, faulted, disk, busType, change, hrefs, at, before, after)
    ensures var n, m := |hrefs|, |before.effects|;
            && |after.effects| == m + n + 1 + n && after.effects[..m] == before.effects
            && (forall i :: 0 <= i < n ==> after.effects[m + i] == DetachedFrom(hrefs[i], at))
            && after.effects[m + n] == ResizedDisk(at)
            && (forall i :: 0 <= i < n ==>
                  PutBack(before.vms, hrefs[i], disk, after.effects[m + n + 1 + i], at))
  {
    PlanIs(before.vms, hrefs, disk, at);
    forall i: nat | i < |hrefs|
      ensures Plan(before.vms, hrefs, disk, at)[i] == DetachedFrom(hrefs[i], at)
      ensures PutBack(before.vms, hrefs[i], disk, Plan(before.vms, hrefs, disk, at)[|hrefs| + 1 + i], at)
    {
      PlanAt(before.vms, hrefs, disk, busType, at, i);
    }
    hide Plan, PutBack, SamePlacement, OnlyThisDiskDisturbed, Rejected, NotAttached;
    var plan := Plan(before.vms, hrefs, disk, at);
    assert after.effects == before.effects + plan;
    forall i | 0 <= i < |plan| ensures after.effects[|before.effects| + i] == plan[i] {}
  }

  lemma DetachFits(before: seq<Effect>, after: seq<Effect>, vms: Vms, hrefs: seq<string>, disk: string, at: nat)
    requires before <= after <= before + DetachPlan(hrefs, at)
    ensures before <= after <= before + Plan(vms, hrefs, disk, at)
  {
    var rest := [ResizedDisk(at)] + AttachPlan(Placements(vms, hrefs, disk), hrefs, at);
    assert before + (DetachPlan(hrefs, at) + rest) == before + DetachPlan(hrefs, at) + rest;
  }

  /** A detach of every listed VM, followed by a beginning of the rest of the plan. */
  lemma EndsAttached(err: bool, faulted: bool, disk: string, busType: string, change: Change,
                     hrefs: seq<string>, at: nat, details: map<string, DiskSetting>, done: set<string>,
                     start: Server, middle: Server, end: Server)
    requires ValidVms(start.vms) && Collected(start.vms, Elements(hrefs), disk, details)
    requires !Rejected(start.vms, busType, hrefs) && !NotAttached(start.vms, hrefs, disk) && (err <==> faulted)
    requires middle == Server(DetachFrom(start.vms, Elements(hrefs), disk), start.disks,
                              start.effects + DetachPlan(hrefs, at))
    requires done <= Elements(hrefs) && (!err ==> done == Elements(hrefs))
    requires end.vms == AttachTo(middle.vms, done, disk, details)
    requires (err && end.disks == start.disks)
             || (disk in start.disks && end.disks == start.disks[disk := Resized(start.disks[disk], change)])
    requires var rest := [ResizedDisk(at)] + AttachPlan(details, hrefs, at);
             middle.effects <= end.effects <= middle.effects + rest
             && (!err ==> end.effects == middle.effects + rest)
    ensures Ended(err, faulted, disk, busType, change, hrefs, at, start, end)
  {
    CollectedIsPlacements(start.vms, hrefs, disk, details);
    AttachUndoesDetach(start.vms, Elements(hrefs), done, disk, details);
    PlanTail(start.effects, DetachPlan(hrefs, at), [ResizedDisk(at)] + AttachPlan(details, hrefs, at), end.effects);
  }

  function Resized(disk: Disk, change: Change): Disk {
    disk.(sizeMb := change.sizeMb, description := change.description,
          profile := if change.profile != "" then change.profile else disk.profile)
  }

  lemma OnlyDetachedDisturbs(before: Vms, after: Vms, disk: string)
    requires OnlyDetached(before, after, disk)
    ensures OnlyThisDiskDisturbed(before, after, disk)
  {}

  lemma {:induction false} LockVmsSnoc(hrefs: seq<string>, i: nat)
    requires i < |hrefs|
    ensures LockVmsOps(hrefs[..i + 1]) == LockVmsOps(hrefs[..i]) + [Lock(VmKey(hrefs[i]))]
    decreases i
  {
    if i == 0 {
      assert hrefs[..1][1..] == [];
    } else {
      LockVmsSnoc(hrefs[1..], i - 1);
      assert hrefs[..i + 1][1..] == hrefs[1..][..i] && hrefs[..i][1..] == hrefs[1..][..i - 1];
    }
  }

  lemma {:induction false} UnlockVmsSnoc(hrefs: seq<string>, i: nat)
    requires i < |hrefs|
    ensures UnlockVmsOps(hrefs[..i + 1]) == UnlockVmsOps(hrefs[..i]) + [Unlock(VmKey(hrefs[i]))]
    decreases i
  {
    if i == 0 {
      assert hrefs[..1][1..] == [];
    } else {
      UnlockVmsSnoc(hrefs[1..], i - 1);
      assert hrefs[..i + 1][1..] == hrefs[1..][..i] && hrefs[..i][1..] == hrefs[1..][..i - 1];
    }
  }

  lemma Regroup(start: seq<Op>, a: seq<Op>, b: seq<Op>, c: seq<Op>, d: seq<Op>, e: seq<Op>)
    ensures start + a + b + c + d + e == start + (a + b + c + d + e)
  {}

  lemma ReadOpsSnoc(unfiltered: nat, filtered: nat)
    ensures ReadOps(unfiltered, filtered + 1) == ReadOps(unfiltered, filtered) + [ReadFiltered]
  {
    RepeatIs(ReadFiltered, filtered);
    RepeatIs(ReadFiltered, filtered + 1);
    assert Repeat(ReadFiltered, filtered + 1) == Repeat(ReadFiltered, filtered) + [ReadFiltered];
  }
}
