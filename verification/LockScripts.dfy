/** The lock and filter operations of the provider's own code paths, in order, and
    what the machines say about any number of them running together. */
module LockScripts {
  import opened LockMachine
  import opened MutexKv
  import opened Options

  /** A resource operation, resolved to how far its calls to the server got.

      `read` is None when the operation returned an error before the metadata section,
      and otherwise the number of reads it made after the section with filtering on. */
  datatype Task =
    | MetadataRead(filtered: nat)                         // updateMetadataInState
    | CatalogItemRead(filtered: nat)                      // genericVcdCatalogItemRead
    | DiskUpdate(vms: seq<string>, read: Option<nat>)     // resourceVcdIndependentDiskUpdate
    | UnderKey(key: string, read: Option<nat>)            // an operation under a helper lock

  function Repeat(op: Op, n: nat): seq<Op> {
    if n == 0 then [] else [op] + Repeat(op, n - 1)
  }

  /** The swap section and the filtered reads after it. */
  function ReadOps(unfiltered: nat, filtered: nat): seq<Op> {
    [Lock(METADATA_KEY), Hide] + Repeat(ReadAll, unfiltered)
    + [Restore, Unlock(METADATA_KEY)] + Repeat(ReadFiltered, filtered)
  }

  function OptionalRead(read: Option<nat>): seq<Op> {
    if read.Some? then ReadOps(1, read.value) else []
  }

  function LockVmsOps(vms: seq<string>): seq<Op> {
    if vms == [] then [] else [Lock(VmKey(vms[0]))] + LockVmsOps(vms[1..])
  }

  function UnlockVmsOps(vms: seq<string>): seq<Op> {
    if vms == [] then [] else [Unlock(VmKey(vms[0]))] + UnlockVmsOps(vms[1..])
  }

  /** The whole locked part of a disk update: the final read runs inside, because the
      deferred unlocks fire when the function returns, last deferred first. */
  function DiskOps(vms: seq<string>, read: Option<nat>): seq<Op> {
    (if |vms| > 1 then [Lock(GLOBAL_DISK_KEY)] else [])
    + LockVmsOps(vms) + OptionalRead(read) + UnlockVmsOps(vms)
    + (if |vms| > 1 then [Unlock(GLOBAL_DISK_KEY)] else [])
  }

  function Script(task: Task): (ops: seq<Op>) {
    match task
    case MetadataRead(n) => ReadOps(1, n)
    case CatalogItemRead(n) => ReadOps(2, n)
    case DiskUpdate(vms, read) => DiskOps(vms, read)
    case UnderKey(key, read) => [Lock(key)] + OptionalRead(read) + [Unlock(key)]
  }

  function Scripts(tasks: seq<Task>): (scripts: seq<seq<Op>>)
    ensures |scripts| == |tasks|
    ensures forall i :: 0 <= i < |tasks| ==> scripts[i] == Script(tasks[i])
  {
    seq(|tasks|, i requires 0 <= i < |tasks| => Script(tasks[i]))
  }

  // ------------------------------------------------------ segments of a script

  function VmKeys(vms: seq<string>): set<string> {
    set h | h in vms :: VmKey(h)
  }

  predicate Distinct<T(==)>(xs: seq<T>) {
    forall i, j :: 0 <= i < j < |xs| ==> xs[i] != xs[j]
  }

  lemma VmKeyFacts(h: string)
    ensures IsVmKey(VmKey(h)) && VmKey(h) != METADATA_KEY && VmKey(h) != GLOBAL_DISK_KEY
    ensures VmKey(h)[|VM_KEY_PREFIX|..] == h
  {
    assert VmKey(h)[0] == 'i' && METADATA_KEY[0] == 'm' && GLOBAL_DISK_KEY[0] == 'g';
  }

  lemma VmKeysOfCons(vms: seq<string>)
    requires vms != []
    ensures VmKeys(vms) == {VmKey(vms[0])} + VmKeys(vms[1..])
    ensures Distinct(vms) ==> Distinct(vms[1..]) && VmKey(vms[0]) !in VmKeys(vms[1..])
    ensures METADATA_KEY !in VmKeys(vms) && GLOBAL_DISK_KEY !in VmKeys(vms)
  {
    assert vms == [vms[0]] + vms[1..];
    forall h | h in vms ensures VmKey(h) != METADATA_KEY && VmKey(h) != GLOBAL_DISK_KEY {
      VmKeyFacts(h);
    }
    if Distinct(vms) && VmKey(vms[0]) in VmKeys(vms[1..]) {
      var h :| h in vms[1..] && VmKey(h) == VmKey(vms[0]);
      VmKeyFacts(h);
      VmKeyFacts(vms[0]);
    }
  }

  lemma LockCons(k: string, rest: seq<Op>, held: set<string>)
    requires !InSection(rest)
    ensures var ops := [Lock(k)] + rest;
            && !InSection(ops)
            && (Disciplined(ops, held) <==> k in held || (Admissible(held, k) && Disciplined(rest, held + {k})))
            && (Doomed(ops, held) <==> k in held || Doomed(rest, held + {k}))
  {
    assert ([Lock(k)] + rest)[1..] == rest;
  }

  lemma UnlockCons(k: string, rest: seq<Op>, held: set<string>)
    requires !InSection(rest)
    ensures var ops := [Unlock(k)] + rest;
            && !InSection(ops)
            && (Disciplined(ops, held) <==> k in held && Disciplined(rest, held - {k}))
            && (Doomed(ops, held) <==> Doomed(rest, held - {k}))
  {
    assert ([Unlock(k)] + rest)[1..] == rest;
  }

  lemma LockVmsCons(vms: seq<string>, rest: seq<Op>)
    requires vms != []
    ensures LockVmsOps(vms) + rest == [Lock(VmKey(vms[0]))] + (LockVmsOps(vms[1..]) + rest)
  {}

  lemma UnlockVmsCons(vms: seq<string>, rest: seq<Op>)
    requires vms != []
    ensures UnlockVmsOps(vms) + rest == [Unlock(VmKey(vms[0]))] + (UnlockVmsOps(vms[1..]) + rest)
  {}

  /** Operations that neither lock nor finish a section. */
  lemma {:induction false} FilteredReads(n: nat, rest: seq<Op>, held: set<string>)
    requires !InSection(rest)
    ensures !InSection(Repeat(ReadFiltered, n) + rest)
    ensures Disciplined(Repeat(ReadFiltered, n) + rest, held) <==> Disciplined(rest, held)
    ensures Doomed(Repeat(ReadFiltered, n) + rest, held) <==> Doomed(rest, held)
  {
    if n == 0 {
      assert Repeat(ReadFiltered, n) + rest == rest;
    } else {
      FilteredReads(n - 1, rest, held);
      assert (Repeat(ReadFiltered, n) + rest)[1..] == Repeat(ReadFiltered, n - 1) + rest;
    }
  }

  lemma {:induction false} UnfilteredReads(n: nat, rest: seq<Op>, held: set<string>)
    requires METADATA_KEY in held && InSection(rest)
    ensures InSection(Repeat(ReadAll, n) + rest)
    ensures Disciplined(Repeat(ReadAll, n) + rest, held) <==> Disciplined(rest, held)
    ensures Doomed(Repeat(ReadAll, n) + rest, held) <==> Doomed(rest, held)
  {
    if n == 0 {
      assert Repeat(ReadAll, n) + rest == rest;
    } else {
      UnfilteredReads(n - 1, rest, held);
      assert (Repeat(ReadAll, n) + rest)[1..] == Repeat(ReadAll, n - 1) + rest;
    }
  }

  lemma SectionSegment(unfiltered: nat, filtered: nat, rest: seq<Op>, held: set<string>)
    requires !InSection(rest)
    ensures !InSection(ReadOps(unfiltered, filtered) + rest)
    ensures METADATA_KEY !in held ==>
              (Disciplined(ReadOps(unfiltered, filtered) + rest, held) <==> Disciplined(rest, held))
    ensures METADATA_KEY in held ==> Disciplined(ReadOps(unfiltered, filtered) + rest, held)
    ensures Doomed(ReadOps(unfiltered, filtered) + rest, held)
            <==> METADATA_KEY in held || Doomed(rest, held)
  {
    var tail := Repeat(ReadFiltered, filtered) + rest;
    var close := [Restore, Unlock(METADATA_KEY)] + tail;
    var body := Repeat(ReadAll, unfiltered) + close;
    var inner := held + {METADATA_KEY};
    var all := [Lock(METADATA_KEY), Hide] + body;
    assert ReadOps(unfiltered, filtered) + rest == all;
    FilteredReads(filtered, rest, held);
    assert close[1..] == [Unlock(METADATA_KEY)] + tail && close[1..][1..] == tail;
    UnfilteredReads(unfiltered, close, inner);
    assert all[1..] == [Hide] + body && all[1..][1..] == body;
    if METADATA_KEY !in held {
      assert inner - {METADATA_KEY} == held;
    }
  }

  lemma OptionalReadSegment(read: Option<nat>, rest: seq<Op>, held: set<string>)
    requires !InSection(rest)
    ensures !InSection(OptionalRead(read) + rest)
    ensures Disciplined(OptionalRead(read) + rest, held)
            <==> (read.Some? && METADATA_KEY in held) || Disciplined(rest, held)
    ensures Doomed(OptionalRead(read) + rest, held)
            <==> (read.Some? && METADATA_KEY in held) || Doomed(rest, held)
  {
    if read.Some? {
      SectionSegment(1, read.value, rest, held);
    } else {
      assert OptionalRead(read) + rest == rest;
    }
  }

  /** Locking the VM keys one after the other: they may be taken over the global key,
      and a single one may be taken over nothing. */
  lemma {:induction false} LockSegment(vms: seq<string>, rest: seq<Op>, held: set<string>)
    requires !InSection(rest) && METADATA_KEY !in held
    requires GLOBAL_DISK_KEY in held || (held == {} && |vms| <= 1)
    ensures !InSection(LockVmsOps(vms) + rest)
    ensures (Distinct(vms) && VmKeys(vms) !! held ==> Disciplined(rest, held + VmKeys(vms))) ==>
              Disciplined(LockVmsOps(vms) + rest, held)
    ensures Doomed(LockVmsOps(vms) + rest, held)
            <==> !Distinct(vms) || !(VmKeys(vms) !! held) || Doomed(rest, held + VmKeys(vms))
    decreases |vms|
  {
    if vms == [] {
      assert LockVmsOps(vms) + rest == rest;
      assert held + VmKeys(vms) == held;
    } else {
      var k := VmKey(vms[0]);
      VmKeyFacts(vms[0]);
      VmKeysOfCons(vms);
      LockVmsCons(vms, rest);
      assert held + VmKeys(vms) == (held + {k}) + VmKeys(vms[1..]);
      if |vms| == 1 && held == {} {
        assert vms[1..] == [];
        assert LockVmsOps(vms[1..]) + rest == rest;
        assert VmKeys(vms[1..]) == {} && held + VmKeys(vms) == held + {k};
      } else {
        LockSegment(vms[1..], rest, held + {k});
      }
      LockCons(k, LockVmsOps(vms[1..]) + rest, held);
      DistinctCons(vms, held);
    }
  }

  lemma DistinctCons(vms: seq<string>, held: set<string>)
    requires vms != []
    ensures VmKey(vms[0]) !in held ==>
              ((Distinct(vms) && VmKeys(vms) !! held)
               <==> (Distinct(vms[1..]) && VmKeys(vms[1..]) !! held + {VmKey(vms[0])}))
  {
    VmKeysOfCons(vms);
    if Distinct(vms[1..]) && VmKey(vms[0]) !in VmKeys(vms[1..]) {
      forall i, j | 0 <= i < j < |vms| ensures vms[i] != vms[j] {
        assert vms[j] == vms[1..][j - 1];
        if i > 0 { assert vms[i] == vms[1..][i - 1]; }
      }
    }
  }

  lemma {:induction false} UnlockSegment(vms: seq<string>, rest: seq<Op>, held: set<string>)
    requires !InSection(rest) && Distinct(vms) && VmKeys(vms) <= held
    ensures !InSection(UnlockVmsOps(vms) + rest)
    ensures Disciplined(UnlockVmsOps(vms) + rest, held) <==> Disciplined(rest, held - VmKeys(vms))
    ensures Doomed(UnlockVmsOps(vms) + rest, held) <==> Doomed(rest, held - VmKeys(vms))
    decreases |vms|
  {
    if vms == [] {
      assert UnlockVmsOps(vms) + rest == rest;
      assert held - VmKeys(vms) == held;
    } else {
      VmKeysOfCons(vms);
      UnlockVmsCons(vms, rest);
      assert held - VmKeys(vms) == (held - {VmKey(vms[0])}) - VmKeys(vms[1..]);
      UnlockSegment(vms[1..], rest, held - {VmKey(vms[0])});
      UnlockCons(VmKey(vms[0]), UnlockVmsOps(vms[1..]) + rest, held);
    }
  }

  lemma {:induction false} UnlockSegmentOutside(vms: seq<string>, rest: seq<Op>)
    requires !InSection(rest)
    ensures !InSection(UnlockVmsOps(vms) + rest)
    decreases |vms|
  {
    if vms == [] {
      assert UnlockVmsOps(vms) + rest == rest;
    } else {
      UnlockVmsCons(vms, rest);
      UnlockSegmentOutside(vms[1..], rest);
      UnlockCons(VmKey(vms[0]), UnlockVmsOps(vms[1..]) + rest, {});
    }
  }

  // --------------------------------------------------------- whole scripts

  /** Taking the VM keys, reading, and releasing them, over the keys in `base`. */
  lemma LockedBody(vms: seq<string>, read: Option<nat>, last: seq<Op>, base: set<string>)
    requires base == {GLOBAL_DISK_KEY} || (base == {} && |vms| <= 1)
    requires Disciplined(last, base) && !Doomed(last, base) && !InSection(last)
    ensures var ops := LockVmsOps(vms) + (OptionalRead(read) + (UnlockVmsOps(vms) + last));
            && !InSection(ops) && Disciplined(ops, base) && (Doomed(ops, base) <==> !Distinct(vms))
  {
    var release := UnlockVmsOps(vms) + last;
    var held := base + VmKeys(vms);
    assert VmKeys(vms) !! base && METADATA_KEY !in held by {
      if vms != [] { VmKeysOfCons(vms); }
    }
    if Distinct(vms) {
      UnlockSegment(vms, last, held);
      assert held - VmKeys(vms) == base;
    }
    UnlockSegmentOutside(vms, last);
    OptionalReadSegment(read, release, held);
    LockSegment(vms, OptionalRead(read) + release, base);
  }

  /** The disk update follows the lock order whatever its VM list is, and waits for
      itself exactly when a VM occurs twice in the list. */
  lemma DiskOpsFollowOrder(vms: seq<string>, read: Option<nat>)
    ensures Disciplined(DiskOps(vms, read), {})
    ensures Doomed(DiskOps(vms, read), {}) <==> !Distinct(vms)
  {
    DiskOpsRegrouped(vms, read);
    if |vms| > 1 {
      var last := [Unlock(GLOBAL_DISK_KEY)];
      UnlockCons(GLOBAL_DISK_KEY, [], {GLOBAL_DISK_KEY});
      assert last + [] == last && {GLOBAL_DISK_KEY} - {GLOBAL_DISK_KEY} == {};
      LockedBody(vms, read, last, {GLOBAL_DISK_KEY});
      LockCons(GLOBAL_DISK_KEY, LockVmsOps(vms) + (OptionalRead(read) + (UnlockVmsOps(vms) + last)), {});
      assert {} + {GLOBAL_DISK_KEY} == {GLOBAL_DISK_KEY};
    } else {
      LockedBody(vms, read, [], {});
    }
  }

  lemma DiskOpsRegrouped(vms: seq<string>, read: Option<nat>)
    ensures var close := if |vms| > 1 then [Unlock(GLOBAL_DISK_KEY)] else [];
            var body := LockVmsOps(vms) + (OptionalRead(read) + (UnlockVmsOps(vms) + close));
            DiskOps(vms, read) == if |vms| > 1 then [Lock(GLOBAL_DISK_KEY)] + body else body
  {
    var open := if |vms| > 1 then [Lock(GLOBAL_DISK_KEY)] else [];
    var close := if |vms| > 1 then [Unlock(GLOBAL_DISK_KEY)] else [];
    RegroupFive(open, LockVmsOps(vms), OptionalRead(read), UnlockVmsOps(vms), close);
    var body := LockVmsOps(vms) + (OptionalRead(read) + (UnlockVmsOps(vms) + close));
    assert [] + body == body;
  }

  lemma RegroupFive(a: seq<Op>, b: seq<Op>, c: seq<Op>, d: seq<Op>, e: seq<Op>)
    ensures a + b + c + d + e == a + (b + (c + (d + e)))
  {}

  lemma UnderKeyFollowsOrder(key: string, read: Option<nat>)
    ensures Disciplined(Script(UnderKey(key, read)), {})
    ensures Doomed(Script(UnderKey(key, read)), {}) <==> key == METADATA_KEY && read.Some?
  {
    var ops, held := Script(UnderKey(key, read)), {key};
    var rest := OptionalRead(read) + [Unlock(key)];
    assert ops == [Lock(key)] + rest && ops[1..] == rest;
    var close := [Unlock(key)];
    assert {} + {key} == held && held - {key} == {} && close[1..] == [];
    assert Disciplined(close, held);
    assert !Doomed(close[1..], held - {key});
    OptionalReadSegment(read, close, held);
  }

  /** A task waits for itself: its disk lists a VM twice, or its helper lock is the
      metadata key and it reads metadata under it. */
  predicate WaitsForItself(task: Task) {
    match task
    case DiskUpdate(vms, _) => !Distinct(vms)
    case UnderKey(key, read) => key == METADATA_KEY && read.Some?
    case _ => false
  }

  lemma ScriptFollowsOrder(task: Task)
    ensures Disciplined(Script(task), {})
    ensures Doomed(Script(task), {}) <==> WaitsForItself(task)
  {
    match task
    case MetadataRead(n) =>
      SectionSegment(1, n, [], {});
      assert ReadOps(1, n) + [] == ReadOps(1, n);
    case CatalogItemRead(n) =>
      SectionSegment(2, n, [], {});
      assert ReadOps(2, n) + [] == ReadOps(2, n);
    case DiskUpdate(vms, read) => DiskOpsFollowOrder(vms, read);
    case UnderKey(key, read) => UnderKeyFollowsOrder(key, read);
  }

  lemma ScriptsFollowOrder(tasks: seq<Task>)
    ensures forall i :: 0 <= i < |tasks| ==> Disciplined(Scripts(tasks)[i], {})
    ensures forall i :: 0 <= i < |tasks| ==> (Doomed(Scripts(tasks)[i], {}) <==> WaitsForItself(tasks[i]))
  {
    forall i | 0 <= i < |tasks|
      ensures Disciplined(Scripts(tasks)[i], {})
      ensures Doomed(Scripts(tasks)[i], {}) <==> WaitsForItself(tasks[i])
    {
      ScriptFollowsOrder(tasks[i]);
    }
  }

  // ----------------------------------------------------------- main theorems

  /** Any number of disk updates, metadata reads and operations under helper locks,
      in any interleaving of the fine machine: no deadlock is reachable exactly when no
      task waits for itself. */
  lemma ProviderDeadlockFreeIff(tasks: seq<Task>, configured: Filter)
    ensures DeadlockFree(Scripts(tasks), configured)
            <==> forall i :: 0 <= i < |tasks| ==> !WaitsForItself(tasks[i])
  {
    ScriptsFollowOrder(tasks);
    DeadlockFreeIff(Scripts(tasks), configured);
  }

  /** ... and then every run is bounded and, once nothing can move, everything is done,
      no key is held and the filter is the configured one. */
  lemma ProviderFinishes(tasks: seq<Task>, configured: Filter, schedule: seq<nat>)
    requires forall i :: 0 <= i < |tasks| ==> !WaitsForItself(tasks[i])
    requires FineLegal(FineInit(Scripts(tasks), configured), schedule)
    ensures var c0 := FineInit(Scripts(tasks), configured);
            var c := FineRun(c0, schedule);
            && |schedule| <= WorkLeft(c0.threads, c0.phases)
            && ((forall t: nat :: t < |c.threads| ==> !FineEnabled(c, t)) ==>
                  FineFinished(c) && c.locked == map[] && c.mapOwner == {} && c.filter == configured)
  {
    ScriptsFollowOrder(tasks);
    EveryRunFinishes(Scripts(tasks), configured, schedule);
  }

  /** The filter over all runs of the fine machine, deadlocked or not: configured
      whenever the metadata key is free, nil for every read inside the section. */
  lemma ProviderFilterRestored(tasks: seq<Task>, configured: Filter, schedule: seq<nat>)
    requires FineLegal(FineInit(Scripts(tasks), configured), schedule)
    ensures var c := FineRun(FineInit(Scripts(tasks), configured), schedule);
            && c.filter == (if SomeoneInside(Abs(c)) then [] else configured)
            && (METADATA_KEY !in Abs(c).holder ==> c.filter == configured)
            && (forall t: nat :: FineEnabled(c, t) && c.threads[t].todo[0] == ReadAll ==> c.filter == [])
            && (forall t: nat :: FineEnabled(c, t) && c.threads[t].todo[0] == ReadFiltered ==>
                  (c.filter == configured <==>
                   (configured == [] || forall u: nat :: u < |c.threads| && u != t ==> !InSection(c.threads[u].todo))))
  {
    var c0 := FineInit(Scripts(tasks), configured);
    ScriptsFollowOrder(tasks);
    FineInitRefines(Scripts(tasks), configured);
    RunRefines(c0, schedule);
    FilterRestored(Scripts(tasks), configured, Projection(c0, schedule));
    var c := FineRun(c0, schedule);
    forall t: nat | FineEnabled(c, t) && c.threads[t].todo[0] in {ReadAll, ReadFiltered}
      ensures Enabled(Abs(c), t)
    {
    }
  }

  /** No other thread is inside the swap section. */
  ghost predicate AloneOutside(threads: seq<Thread>, t: nat) {
    forall u: nat :: u < |threads| && u != t ==> !InSection(threads[u].todo)
  }

  /** What a thread outside the section sees, whatever it does with the filter there. */
  lemma FilterSeenOutside(tasks: seq<Task>, configured: Filter, schedule: seq<nat>, t: nat)
    requires FineLegal(FineInit(Scripts(tasks), configured), schedule)
    requires var c := FineRun(FineInit(Scripts(tasks), configured), schedule);
             t < |c.threads| && !InSection(c.threads[t].todo)
    ensures var c := FineRun(FineInit(Scripts(tasks), configured), schedule);
            c.filter == if AloneOutside(c.threads, t) then configured else []
  {
    ProviderFilterRestored(tasks, configured, schedule);
    var c := FineRun(FineInit(Scripts(tasks), configured), schedule);
    hide FineRun, FineLegal, FineInit, InSection;
    assert SomeoneInside(Abs(c)) <==> !AloneOutside(c.threads, t);
  }

  /** A disk on a single VM never waits for a VM key while it holds one. */
  lemma SingleVmHoldsOneKey(href: string, read: Option<nat>)
    ensures Script(DiskUpdate([href], read))
            == [Lock(VmKey(href))] + OptionalRead(read) + [Unlock(VmKey(href))]
    ensures forall i :: 0 < i < |Script(DiskUpdate([href], read))| ==>
              match Script(DiskUpdate([href], read))[i] { case Lock(k) => k == METADATA_KEY case _ => true }
  {
    var ops := Script(DiskUpdate([href], read));
    assert LockVmsOps([href]) == [Lock(VmKey(href))];
    assert UnlockVmsOps([href]) == [Unlock(VmKey(href))];
    if read.Some? {
      RepeatIs(ReadFiltered, read.value);
      RepeatIs(ReadAll, 1);
    }
  }

  lemma {:induction false} RepeatIs(op: Op, n: nat)
    ensures |Repeat(op, n)| == n && forall i :: 0 <= i < n ==> Repeat(op, n)[i] == op
  {
    if n > 0 { RepeatIs(op, n - 1); }
  }

  // ------------------------------------------------- the scripts, spelt out

  lemma KeysSpeltOut(href: string)
    ensures METADATA_KEY == "metadata" && GLOBAL_DISK_KEY == "globalIndependentDiskLockKey"
    ensures VmKey(href) == "independentDiskLock:" + href
  {}

  /** The short scripts operation by operation, with the keys as the source writes them. */
  lemma ReadsSpeltOut(filtered: nat, key: string)
    ensures Script(MetadataRead(filtered))
            == [Lock("metadata"), Hide, ReadAll, Restore, Unlock("metadata")] + seq(filtered, i => ReadFiltered)
    ensures Script(CatalogItemRead(filtered))
            == [Lock("metadata"), Hide, ReadAll, ReadAll, Restore, Unlock("metadata")]
               + seq(filtered, i => ReadFiltered)
    ensures Script(UnderKey(key, None)) == [Lock(key), Unlock(key)]
    ensures Script(UnderKey(key, Some(filtered)))
            == [Lock(key)] + Script(MetadataRead(filtered)) + [Unlock(key)]
  {
    RepeatIs(ReadFiltered, filtered);
    RepeatIs(ReadAll, 1);
    RepeatIs(ReadAll, 2);
    assert Repeat(ReadFiltered, filtered) == seq(filtered, i => ReadFiltered);
    assert Repeat(ReadAll, 1) == [ReadAll] && Repeat(ReadAll, 2) == [ReadAll, ReadAll];
  }

  lemma {:induction false} VmOpsSpeltOut(vms: seq<string>)
    ensures |LockVmsOps(vms)| == |vms| && |UnlockVmsOps(vms)| == |vms|
    ensures forall i :: 0 <= i < |vms| ==> LockVmsOps(vms)[i] == Lock(VmKey(vms[i]))
    ensures forall i :: 0 <= i < |vms| ==> UnlockVmsOps(vms)[i] == Unlock(VmKey(vms[i]))
  {
    if vms != [] {
      VmOpsSpeltOut(vms[1..]);
    }
  }

  /** The operations are the global key, the VMs' keys in list order, `body`, and the keys
      again in list order and last of all the global one. */
  ghost predicate DiskShape(ops: seq<Op>, vms: seq<string>, body: seq<Op>) {
    var n, g := |vms|, if |vms| > 1 then 1 else 0;
    && |ops| == g + n + |body| + n + g
    && (g == 1 ==> ops[0] == Lock(GLOBAL_DISK_KEY) && ops[|ops| - 1] == Unlock(GLOBAL_DISK_KEY))
    && (forall i :: 0 <= i < n ==> ops[g + i] == Lock(VmKey(vms[i])))
    && ops[g + n..g + n + |body|] == body
    && (forall i :: 0 <= i < n ==> ops[g + n + |body| + i] == Unlock(VmKey(vms[i])))
  }

  ghost predicate Pieces(all: seq<Op>, a: seq<Op>, b: seq<Op>, c: seq<Op>, d: seq<Op>, e: seq<Op>) {
    && |all| == |a| + |b| + |c| + |d| + |e|
    && (a != [] ==> all[0] == a[0]) && (e != [] ==> all[|all| - 1] == e[|e| - 1])
    && (forall i :: 0 <= i < |b| ==> all[|a| + i] == b[i])
    && all[|a| + |b|..|a| + |b| + |c|] == c
    && (forall i :: 0 <= i < |d| ==> all[|a| + |b| + |c| + i] == d[i])
  }

  lemma FivePieces(a: seq<Op>, b: seq<Op>, c: seq<Op>, d: seq<Op>, e: seq<Op>)
    ensures Pieces(a + b + c + d + e, a, b, c, d, e)
  {}

  lemma PiecesHaveShape(vms: seq<string>, all: seq<Op>, a: seq<Op>, b: seq<Op>, c: seq<Op>, d: seq<Op>, e: seq<Op>)
    requires Pieces(all, a, b, c, d, e) && |b| == |d| == |vms|
    requires a == (if |vms| > 1 then [Lock(GLOBAL_DISK_KEY)] else [])
    requires e == (if |vms| > 1 then [Unlock(GLOBAL_DISK_KEY)] else [])
    requires forall i :: 0 <= i < |vms| ==> b[i] == Lock(VmKey(vms[i]))
    requires forall i :: 0 <= i < |vms| ==> d[i] == Unlock(VmKey(vms[i]))
    ensures DiskShape(all, vms, c)
  {}

  /** The locked part of a disk update, the read in the middle. */
  lemma DiskOpsSpeltOut(vms: seq<string>, read: Option<nat>)
    ensures DiskShape(Script(DiskUpdate(vms, read)), vms, OptionalRead(read))
  {
    hide Pieces, DiskShape;
    var open: seq<Op> := if |vms| > 1 then [Lock(GLOBAL_DISK_KEY)] else [];
    var close: seq<Op> := if |vms| > 1 then [Unlock(GLOBAL_DISK_KEY)] else [];
    VmOpsSpeltOut(vms);
    FivePieces(open, LockVmsOps(vms), OptionalRead(read), UnlockVmsOps(vms), close);
    PiecesHaveShape(vms, Script(DiskUpdate(vms, read)), open, LockVmsOps(vms), OptionalRead(read),
                    UnlockVmsOps(vms), close);
  }

  // ---------------------------------------------------------------- witnesses

  /** Without the global key two disks on the same two VMs, listed in opposite
      orders, deadlock: each takes its first key and waits for the other's. */
  lemma WithoutGlobalKeyDeadlocks(a: string, b: string, configured: Filter)
    requires a != b
    ensures !DeadlockFree([LockVmsOps([a, b]) + UnlockVmsOps([a, b]),
                           LockVmsOps([b, a]) + UnlockVmsOps([b, a])], configured)
  {
    VmKeyFacts(a);
    VmKeyFacts(b);
    var first := LockVmsOps([a, b]) + UnlockVmsOps([a, b]);
    var second := LockVmsOps([b, a]) + UnlockVmsOps([b, a]);
    assert [a, b][1..] == [b] && [b, a][1..] == [a];
    assert LockVmsOps([b]) == [Lock(VmKey(b))] && LockVmsOps([a]) == [Lock(VmKey(a))];
    assert first[0] == Lock(VmKey(a)) && first[1] == Lock(VmKey(b));
    assert second[0] == Lock(VmKey(b)) && second[1] == Lock(VmKey(a));
    var s0 := Init([first, second], configured);
    var s1 := Next(s0, 0);
    var s2 := Next(s1, 1);
    RunCons(s1, 1, []);
    RunCons(s0, 0, [1]);
    assert s2.threads[0].todo[0] == Lock(VmKey(b)) && s2.threads[1].todo[0] == Lock(VmKey(a));
    AtomicDeadlockIsReal([first, second], configured, [0] + [1]);
  }

  /** Without the metadata key two swap sections can leave the filter nil for good. */
  lemma WithoutMetadataKeyFilterIsLost(configured: Filter)
    ensures var bare := [Hide, ReadAll, Restore];
            var s0 := Init([bare, bare], configured);
            Legal(s0, [0, 1, 0, 0, 1, 1])
            && Finished(Run(s0, [0, 1, 0, 0, 1, 1])) && Run(s0, [0, 1, 0, 0, 1, 1]).filter == []
  {
    var bare := [Hide, ReadAll, Restore];
    var s0 := Init([bare, bare], configured);
    var s1 := Next(s0, 0);
    var s2 := Next(s1, 1);
    var s3 := Next(s2, 0);
    var s4 := Next(s3, 0);
    var s5 := Next(s4, 1);
    var s6 := Next(s5, 1);
    assert s6.filter == [] && Finished(s6);
    RunCons(s5, 1, []);
    RunCons(s4, 1, [1]);
    RunCons(s3, 0, [1, 1]);
    RunCons(s2, 0, [0, 1, 1]);
    RunCons(s1, 1, [0, 0, 1, 1]);
    RunCons(s0, 0, [1, 0, 0, 1, 1]);
  }

  lemma RunCons(s: State, t: nat, rest: seq<nat>)
    requires Enabled(s, t) && Legal(Next(s, t), rest)
    ensures Legal(s, [t] + rest) && Run(s, [t] + rest) == Run(Next(s, t), rest)
  {
    assert ([t] + rest)[1..] == rest;
  }

  /** A filtered read is not protected: it can run while another thread is inside the
      section, and then it sees nil instead of the configured filter. */
  lemma FilteredReadCanSeeNil(configured: Filter)
    requires configured != []
    ensures var s0 := Init(Scripts([MetadataRead(1), MetadataRead(1)]), configured);
            var schedule := [0, 0, 0, 0, 0, 1, 1];
            && Legal(s0, schedule)
            && var s := Run(s0, schedule);
               Enabled(s, 0) && s.threads[0].todo[0] == ReadFiltered && s.filter == []
  {
    var ops := [Lock(METADATA_KEY), Hide, ReadAll, Restore, Unlock(METADATA_KEY), ReadFiltered];
    RepeatIs(ReadAll, 1);
    RepeatIs(ReadFiltered, 1);
    assert ReadOps(1, 1) == ops;
    var s0 := Init(Scripts([MetadataRead(1), MetadataRead(1)]), configured);
    assert s0.threads[0].todo == ops && s0.threads[1].todo == ops;
    var s1 := Next(s0, 0);
    var s2 := Next(s1, 0);
    var s3 := Next(s2, 0);
    var s4 := Next(s3, 0);
    var s5 := Next(s4, 0);
    var s6 := Next(s5, 1);
    var s7 := Next(s6, 1);
    assert s7.filter == [] && s7.threads[0].todo == [ReadFiltered];
    RunCons(s6, 1, []);
    RunCons(s5, 1, [1]);
    RunCons(s4, 0, [1, 1]);
    RunCons(s3, 0, [0, 1, 1]);
    RunCons(s2, 0, [0, 0, 1, 1]);
    RunCons(s1, 0, [0, 0, 0, 1, 1]);
    RunCons(s0, 0, [0, 0, 0, 0, 1, 1]);
  }
}
