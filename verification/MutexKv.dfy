/** vcd/mutexkv.go: one mutex per key, interned in a map behind a map lock.

    The class is the store as one goroutine sees it. The machine below it splits
    kvLock and kvUnlock into the steps other goroutines can observe (take the map
    lock, look up or create, release the map lock, act on the mutex) and is proved
    to refine the atomic machine of LockMachine. */
module MutexKv {
  import opened LockMachine

  class Mutex {
    var locked: bool

    constructor ()
      ensures !locked
    {
      locked := false;
    }
  }

  class KeyedMutex {
    var store: map<string, Mutex>

    /** Distinct keys never share a mutex. */
    ghost predicate Valid()
      reads this
    {
      forall k, l :: k in store && l in store && k != l ==> store[k] != store[l]
    }

    /** The keys whose mutex is locked: all that a caller can observe. */
    ghost function Locked(): set<string>
      reads this, store.Values
    {
      set k | k in store && store[k].locked
    }

    constructor ()
      ensures Valid() && Locked() == {} && store == map[]
    {
      store := map[];
    }

    /** Returns the mutex of the key, interning a new one on first use. */
    method Get(key: string) returns (mutex: Mutex)
      requires Valid()
      modifies this
      ensures Valid() && forall k, l :: k in store && l in store && k != l ==> store[k] != store[l]
      ensures key in store && store[key] == mutex
      ensures store.Keys == old(store.Keys) + {key}
      ensures forall k :: k in old(store) ==> store[k] == old(store[k])
      ensures Locked() == old(Locked())
      ensures key !in old(store) ==> fresh(mutex)
    {
      if key in store {
        mutex := store[key];
      } else {
        mutex := new Mutex();
        store := store[key := mutex];
      }
    }

    /** kvLock up to the point where it holds the mutex, or has to wait for it. */
    method KvLock(key: string) returns (acquired: bool)
      requires Valid()
      modifies this, store.Values
      ensures Valid() && (acquired <==> key !in old(Locked()))
      ensures Locked() == old(Locked()) + {key}
      ensures store.Keys == old(store.Keys) + {key}
      ensures forall k :: k in old(store) ==> store[k] == old(store[k])
      ensures fresh(store.Values - old(store.Values))
    {
      var mutex := Get(key);
      acquired := !mutex.locked;
      mutex.locked := true;
    }

    method KvUnlock(key: string)
      requires Valid() && key in Locked()
      modifies this, store.Values
      ensures Valid() && Locked() == old(Locked()) - {key}
      ensures store == old(store)
    {
      var mutex := Get(key);
      mutex.locked := false;
    }
  }

  // ------------------------------------------------------------ fine machine

  /** Where a goroutine stands inside kvLock or kvUnlock. */
  datatype Phase =
    | Outside                // not in get
    | HasMap                 // took m.lock
    | Interned(mutex: nat)   // looked up or created the mutex, still under m.lock
    | Ready(mutex: nat)      // released m.lock, about to lock or unlock the mutex

  datatype Fine = Fine(
    threads: seq<Thread>,
    phases: seq<Phase>,
    mapOwner: set<nat>,        // empty, or the one goroutine holding m.lock
    store: map<string, nat>,   // key to mutex, mutexes numbered in order of creation
    created: nat,
    locked: map<nat, nat>,     // locked mutex to the thread that locked it
    filter: Filter)

  predicate FineEnabled(c: Fine, t: nat) {
    && t < |c.threads| == |c.phases|
    && c.threads[t].todo != []
    && match c.threads[t].todo[0] {
         case Lock(k) => (c.phases[t].Outside? ==> c.mapOwner == {})
                         && (c.phases[t].Ready? ==> c.phases[t].mutex !in c.locked)
         case Unlock(k) => (c.phases[t].Outside? ==> c.mapOwner == {})
                           && (c.phases[t].Ready? ==> c.phases[t].mutex in c.locked)
         case _ => true
       }
  }

  function FineNext(c: Fine, t: nat): (c': Fine)
    requires FineEnabled(c, t)
  {
    var th := c.threads[t];
    var done := c.threads[t := th.(todo := th.todo[1..])];
    match th.todo[0] {
      case Hide => c.(threads := done[t := done[t].(saved := c.filter)], filter := [])
      case Restore => c.(threads := done, filter := th.saved)
      case ReadAll => c.(threads := done)
      case ReadFiltered => c.(threads := done)
      case op =>
        match c.phases[t] {
          case Outside => c.(phases := c.phases[t := HasMap], mapOwner := {t})
          case HasMap =>
            if op.key in c.store then
              c.(phases := c.phases[t := Interned(c.store[op.key])])
            else
              c.(phases := c.phases[t := Interned(c.created)],
                 store := c.store[op.key := c.created], created := c.created + 1)
          case Interned(m) => c.(phases := c.phases[t := Ready(m)], mapOwner := {})
          case Ready(m) =>
            c.(threads := done, phases := c.phases[t := Outside],
               locked := if op.Lock? then c.locked[m := t] else c.locked - {m})
        }
    }
  }

  predicate FineLegal(c: Fine, schedule: seq<nat>)
    decreases |schedule|
  {
    schedule == [] || (FineEnabled(c, schedule[0]) && FineLegal(FineNext(c, schedule[0]), schedule[1..]))
  }

  function FineRun(c: Fine, schedule: seq<nat>): (c': Fine)
    requires FineLegal(c, schedule)
    decreases |schedule|
  {
    if schedule == [] then c else FineRun(FineNext(c, schedule[0]), schedule[1..])
  }

  function FineInit(scripts: seq<seq<Op>>, configured: Filter): Fine {
    Fine(Init(scripts, configured).threads, seq(|scripts|, i => Outside), {}, map[], 0, map[], configured)
  }

  predicate FineFinished(c: Fine) {
    forall t :: 0 <= t < |c.threads| ==> c.threads[t].todo == []
  }

  predicate FineDeadlocked(c: Fine) {
    !FineFinished(c) && forall t: nat :: t < |c.threads| ==> !FineEnabled(c, t)
  }

  // -------------------------------------------------------------- refinement

  /** A thread is inside get for the key of its next operation, and a mutex it has
      found is the one the store binds to that key. */
  predicate PhaseOk(c: Fine, t: nat)
    requires t < |c.threads| == |c.phases|
  {
    c.phases[t].Outside? || (
      && c.threads[t].todo != []
      && (c.threads[t].todo[0].Lock? || c.threads[t].todo[0].Unlock?)
      && (c.phases[t].HasMap? ||
          (c.threads[t].todo[0].key in c.store && c.store[c.threads[t].todo[0].key] == c.phases[t].mutex)))
  }

  ghost predicate FineInv(c: Fine) {
    && |c.phases| == |c.threads|
    && (forall t: nat :: t < |c.threads| ==> PhaseOk(c, t))
    && (forall t: nat :: t in c.mapOwner <==>
          t < |c.threads| && (c.phases[t].HasMap? || c.phases[t].Interned?))
    && (forall t: nat, u: nat :: t in c.mapOwner && u in c.mapOwner ==> t == u)
    && (forall k :: k in c.store ==> c.store[k] < c.created)
    && (forall k, l :: k in c.store && l in c.store && k != l ==> c.store[k] != c.store[l])
    && (forall m :: m in c.locked ==> exists k :: k in c.store && c.store[k] == m)
  }

  function Holders(store: map<string, nat>, locked: map<nat, nat>): map<string, nat> {
    map k | k in store && store[k] in locked :: locked[store[k]]
  }

  /** The atomic state a fine state stands for. */
  function Abs(c: Fine): State {
    State(c.threads, Holders(c.store, c.locked), c.filter)
  }

  /** The step is the one that takes effect, as opposed to a step inside get. */
  predicate Commits(c: Fine, t: nat)
    requires FineEnabled(c, t)
  {
    c.phases[t].Ready? || !(c.threads[t].todo[0].Lock? || c.threads[t].todo[0].Unlock?)
  }

  lemma FineStepKeepsInv(c: Fine, t: nat)
    requires FineInv(c) && FineEnabled(c, t)
    ensures FineInv(FineNext(c, t))
  {
    var c' := FineNext(c, t);
    assert PhaseOk(c, t);
    forall u: nat | u < |c'.threads| ensures PhaseOk(c', u) {
      assert PhaseOk(c, u);
    }
    LockedMutexesAreInterned(c, t);
  }

  lemma LockedMutexesAreInterned(c: Fine, t: nat)
    requires FineInv(c) && FineEnabled(c, t)
    ensures var c' := FineNext(c, t);
            forall m :: m in c'.locked ==> exists k :: k in c'.store && c'.store[k] == m
  {
    var c' := FineNext(c, t);
    assert PhaseOk(c, t);
    forall m | m in c'.locked ensures exists k :: k in c'.store && c'.store[k] == m {
      if m in c.locked {
        var k :| k in c.store && c.store[k] == m;
        assert k in c'.store && c'.store[k] == m;
      } else {
        var k := c.threads[t].todo[0].key;
        assert k in c'.store && c'.store[k] == m;
      }
    }
  }

  /** The store only grows and never rebinds a key, whatever the thread does. */
  lemma StoreOnlyGrows(c: Fine, t: nat)
    requires FineInv(c) && FineEnabled(c, t)
    ensures c.store.Keys <= FineNext(c, t).store.Keys
    ensures forall k :: k in c.store ==> FineNext(c, t).store[k] == c.store[k]
  {}

  lemma SilentStep(c: Fine, t: nat)
    requires FineInv(c) && FineEnabled(c, t) && !Commits(c, t)
    ensures Abs(FineNext(c, t)) == Abs(c)
  {
    assert PhaseOk(c, t);
    if c.phases[t].HasMap? && c.threads[t].todo[0].key !in c.store {
      HoldersAfterIntern(c.store, c.locked, c.threads[t].todo[0].key, c.created);
    }
  }

  /** A new mutex is not locked yet. */
  lemma HoldersAfterIntern(store: map<string, nat>, locked: map<nat, nat>, key: string, mutex: nat)
    requires key !in store && mutex !in locked
    ensures Holders(store[key := mutex], locked) == Holders(store, locked)
  {}

  lemma HoldersAfterLock(store: map<string, nat>, locked: map<nat, nat>, key: string, t: nat)
    requires key in store
    requires forall k :: k in store && k != key ==> store[k] != store[key]
    ensures Holders(store, locked[store[key] := t]) == Holders(store, locked)[key := t]
  {}

  lemma HoldersAfterUnlock(store: map<string, nat>, locked: map<nat, nat>, key: string)
    requires key in store
    requires forall k :: k in store && k != key ==> store[k] != store[key]
    ensures Holders(store, locked - {store[key]}) == Holders(store, locked) - {key}
  {
    var after, before := Holders(store, locked - {store[key]}), Holders(store, locked);
    assert after.Keys == before.Keys - {key};
  }

  lemma LockStep(c: Fine, t: nat)
    requires FineInv(c) && FineEnabled(c, t) && c.phases[t].Ready?
    requires c.threads[t].todo[0].Lock? || c.threads[t].todo[0].Unlock?
    ensures Enabled(Abs(c), t) && Abs(FineNext(c, t)).holder == Next(Abs(c), t).holder
  {
    assert PhaseOk(c, t);
    var key := c.threads[t].todo[0].key;
    if c.threads[t].todo[0].Lock? {
      HoldersAfterLock(c.store, c.locked, key, t);
    } else {
      HoldersAfterUnlock(c.store, c.locked, key);
    }
  }

  /** Every fine step is either invisible or exactly the atomic step of its thread. */
  lemma StepRefines(c: Fine, t: nat)
    requires FineInv(c) && FineEnabled(c, t)
    ensures !Commits(c, t) ==> Abs(FineNext(c, t)) == Abs(c)
    ensures Commits(c, t) ==> Enabled(Abs(c), t) && Abs(FineNext(c, t)) == Next(Abs(c), t)
  {
    if !Commits(c, t) {
      SilentStep(c, t);
    } else if c.threads[t].todo[0].Lock? || c.threads[t].todo[0].Unlock? {
      LockStep(c, t);
    }
  }

  /** The atomic schedule behind a fine schedule. */
  function Projection(c: Fine, schedule: seq<nat>): (atomic: seq<nat>)
    requires FineLegal(c, schedule)
    decreases |schedule|
  {
    if schedule == [] then []
    else
      (if Commits(c, schedule[0]) then [schedule[0]] else [])
      + Projection(FineNext(c, schedule[0]), schedule[1..])
  }

  /** Keyed mutual exclusion by refinement: every interleaving of the fine steps is,
      seen through the key-to-holder map, an interleaving of atomic steps. */
  lemma {:induction false} RunRefines(c: Fine, schedule: seq<nat>)
    requires FineInv(c) && FineLegal(c, schedule)
    ensures FineInv(FineRun(c, schedule))
    ensures Legal(Abs(c), Projection(c, schedule))
    ensures Run(Abs(c), Projection(c, schedule)) == Abs(FineRun(c, schedule))
    decreases |schedule|
  {
    if schedule != [] {
      var t, rest := schedule[0], schedule[1..];
      FineStepKeepsInv(c, t);
      StepRefines(c, t);
      RunRefines(FineNext(c, t), rest);
      if Commits(c, t) {
        assert Projection(c, schedule)[1..] == Projection(FineNext(c, t), rest);
      } else {
        assert Projection(c, schedule) == Projection(FineNext(c, t), rest);
      }
    }
  }

  lemma FineInitRefines(scripts: seq<seq<Op>>, configured: Filter)
    ensures FineInv(FineInit(scripts, configured))
    ensures Abs(FineInit(scripts, configured)) == Init(scripts, configured)
  {
    assert Abs(FineInit(scripts, configured)).holder == map[];
  }

  /** No goroutine blocks on a key mutex while it holds the map lock. */
  lemma MapOwnerNeverBlocks(c: Fine, t: nat)
    requires FineInv(c) && t in c.mapOwner
    ensures FineEnabled(c, t)
  {
    assert PhaseOk(c, t);
  }

  /** A fine state in which nothing can move stands for an atomic state in which
      nothing can move: get itself never deadlocks. */
  lemma FineDeadlockIsAtomic(c: Fine)
    requires FineInv(c) && FineDeadlocked(c)
    ensures Deadlocked(Abs(c))
  {
    forall t: nat ensures t !in c.mapOwner {
      if t in c.mapOwner && t < |c.threads| {
        MapOwnerNeverBlocks(c, t);
      }
    }
    forall t: nat | t < |c.threads| ensures !Enabled(Abs(c), t) {
      assert PhaseOk(c, t) && !FineEnabled(c, t);
    }
  }

  /** Nobody is inside get. */
  predicate Quiet(c: Fine) {
    c.mapOwner == {} && forall t :: 0 <= t < |c.phases| ==> c.phases[t].Outside?
  }

  /** One step of get. */
  lemma GetStep(c: Fine, t: nat) returns (c': Fine)
    requires FineInv(c) && t < |c.threads| && c.threads[t].todo != []
    requires c.threads[t].todo[0].Lock? || c.threads[t].todo[0].Unlock?
    requires !c.phases[t].Ready? && (c.phases[t].Outside? ==> c.mapOwner == {})
    ensures FineEnabled(c, t) && c' == FineNext(c, t) && FineInv(c') && Abs(c') == Abs(c)
    ensures c'.threads == c.threads && c'.phases == c.phases[t := c'.phases[t]]
    ensures c.phases[t].Outside? ==> c'.phases[t].HasMap?
    ensures c.phases[t].HasMap? ==> c'.phases[t].Interned?
    ensures c.phases[t].Interned? ==> c'.phases[t].Ready? && c'.mapOwner == {}
  {
    c' := FineNext(c, t);
    FineStepKeepsInv(c, t);
    SilentStep(c, t);
  }

  lemma FineRunThree(c: Fine, t: nat)
    requires FineEnabled(c, t) && FineEnabled(FineNext(c, t), t) && FineEnabled(FineNext(FineNext(c, t), t), t)
    ensures FineLegal(c, [t, t, t])
    ensures FineRun(c, [t, t, t]) == FineNext(FineNext(FineNext(c, t), t), t)
  {
    FineRunCons(FineNext(FineNext(c, t), t), t, []);
    FineRunCons(FineNext(c, t), t, [t]);
    FineRunCons(c, t, [t, t]);
    assert [t] + [t, t] == [t, t, t];
  }

  /** The three steps of get, run without interference. */
  lemma PlayGet(c: Fine, t: nat) returns (c': Fine, schedule: seq<nat>)
    requires FineInv(c) && Quiet(c) && t < |c.threads| && c.threads[t].todo != []
    requires c.threads[t].todo[0].Lock? || c.threads[t].todo[0].Unlock?
    ensures FineLegal(c, schedule) && c' == FineRun(c, schedule)
    ensures FineInv(c') && Abs(c') == Abs(c) && c'.mapOwner == {} && c'.threads == c.threads
    ensures c'.phases[t].Ready? && forall u :: 0 <= u < |c'.phases| && u != t ==> c'.phases[u].Outside?
  {
    var c1 := GetStep(c, t);
    var c2 := GetStep(c1, t);
    c' := GetStep(c2, t);
    FineRunThree(c, t);
    schedule := [t, t, t];
  }

  lemma CommitStep(c: Fine, t: nat)
    requires FineInv(c) && Enabled(Abs(c), t) && c.phases[t].Ready? && c.mapOwner == {}
    requires forall u :: 0 <= u < |c.phases| && u != t ==> c.phases[u].Outside?
    ensures FineEnabled(c, t) && FineInv(FineNext(c, t)) && Abs(FineNext(c, t)) == Next(Abs(c), t)
    ensures Quiet(FineNext(c, t))
  {
    assert PhaseOk(c, t);
    FineStepKeepsInv(c, t);
    StepRefines(c, t);
  }

  /** One atomic step, played through get: the converse of StepRefines. */
  lemma RealiseStep(c: Fine, t: nat) returns (schedule: seq<nat>)
    requires FineInv(c) && Quiet(c) && Enabled(Abs(c), t)
    ensures FineLegal(c, schedule)
    ensures FineInv(FineRun(c, schedule)) && Quiet(FineRun(c, schedule))
    ensures Abs(FineRun(c, schedule)) == Next(Abs(c), t)
  {
    if c.threads[t].todo[0].Lock? || c.threads[t].todo[0].Unlock? {
      schedule := RealiseLockStep(c, t);
    } else {
      FineStepKeepsInv(c, t);
      StepRefines(c, t);
      FineRunCons(c, t, []);
      schedule := [t];
    }
  }

  lemma RealiseLockStep(c: Fine, t: nat) returns (schedule: seq<nat>)
    requires FineInv(c) && Quiet(c) && Enabled(Abs(c), t)
    requires c.threads[t].todo[0].Lock? || c.threads[t].todo[0].Unlock?
    ensures FineLegal(c, schedule)
    ensures FineInv(FineRun(c, schedule)) && Quiet(FineRun(c, schedule))
    ensures Abs(FineRun(c, schedule)) == Next(Abs(c), t)
  {
    var c3, get := PlayGet(c, t);
    CommitStep(c3, t);
    FineRunSnoc(c, get, t);
    schedule := get + [t];
  }

  lemma FineRunSnoc(c: Fine, schedule: seq<nat>, t: nat)
    requires FineLegal(c, schedule) && FineEnabled(FineRun(c, schedule), t)
    ensures FineLegal(c, schedule + [t])
    ensures FineRun(c, schedule + [t]) == FineNext(FineRun(c, schedule), t)
  {
    FineRunCons(FineRun(c, schedule), t, []);
    FineRunConcat(c, schedule, [t]);
  }

  lemma FineRunCons(c: Fine, t: nat, rest: seq<nat>)
    requires FineEnabled(c, t) && FineLegal(FineNext(c, t), rest)
    ensures FineLegal(c, [t] + rest) && FineRun(c, [t] + rest) == FineRun(FineNext(c, t), rest)
  {
    assert ([t] + rest)[1..] == rest;
  }

  lemma {:induction false} FineRunConcat(c: Fine, first: seq<nat>, second: seq<nat>)
    requires FineLegal(c, first) && FineLegal(FineRun(c, first), second)
    ensures FineLegal(c, first + second)
    ensures FineRun(c, first + second) == FineRun(FineRun(c, first), second)
    decreases |first|
  {
    if first == [] {
      assert first + second == second;
    } else {
      assert (first + second)[1..] == first[1..] + second;
      FineRunConcat(FineNext(c, first[0]), first[1..], second);
    }
  }

  /** Every interleaving of atomic steps is the image of some fine interleaving, so the
      two machines reach the same atomic states. */
  lemma {:induction false} RunRealised(c: Fine, atomic: seq<nat>) returns (schedule: seq<nat>)
    requires FineInv(c) && Quiet(c) && Legal(Abs(c), atomic)
    ensures FineLegal(c, schedule) && FineInv(FineRun(c, schedule)) && Quiet(FineRun(c, schedule))
    ensures Abs(FineRun(c, schedule)) == Run(Abs(c), atomic)
    decreases |atomic|
  {
    if atomic == [] {
      schedule := [];
    } else {
      var first := RealiseStep(c, atomic[0]);
      var second := RunRealised(FineRun(c, first), atomic[1..]);
      FineRunConcat(c, first, second);
      schedule := first + second;
    }
  }

  // ------------------------------------------------------------- termination

  function PhaseCost(p: Phase): nat {
    match p {
      case Outside => 0
      case HasMap => 1
      case Interned(_) => 2
      case Ready(_) => 3
    }
  }

  /** Steps the thread at index t and those before it still have to take. */
  function WorkLeft(threads: seq<Thread>, phases: seq<Phase>): int
    requires |threads| == |phases|
  {
    if threads == [] then 0
    else 4 * |threads[0].todo| - PhaseCost(phases[0]) + WorkLeft(threads[1..], phases[1..])
  }

  lemma {:induction false} WorkLeftUpdate(threads: seq<Thread>, phases: seq<Phase>, t: nat, th: Thread, p: Phase)
    requires t < |threads| == |phases|
    ensures WorkLeft(threads[t := th], phases[t := p])
            == WorkLeft(threads, phases)
               - (4 * |threads[t].todo| - PhaseCost(phases[t])) + (4 * |th.todo| - PhaseCost(p))
  {
    if t == 0 {
    } else {
      assert threads[t := th][1..] == threads[1..][t - 1 := th];
      assert phases[t := p][1..] == phases[1..][t - 1 := p];
      WorkLeftUpdate(threads[1..], phases[1..], t - 1, th, p);
    }
  }

  lemma {:induction false} WorkLeftNonNegative(threads: seq<Thread>, phases: seq<Phase>)
    requires |threads| == |phases|
    requires forall t :: 0 <= t < |threads| ==> phases[t].Outside? || threads[t].todo != []
    ensures WorkLeft(threads, phases) >= 0
  {
    if threads != [] {
      WorkLeftNonNegative(threads[1..], phases[1..]);
    }
  }

  /** Every step of every thread uses up work. */
  lemma StepUsesWork(c: Fine, t: nat)
    requires FineInv(c) && FineEnabled(c, t)
    ensures 0 <= WorkLeft(FineNext(c, t).threads, FineNext(c, t).phases) < WorkLeft(c.threads, c.phases)
  {
    assert PhaseOk(c, t);
    var c' := FineNext(c, t);
    assert c'.threads == c.threads[t := c'.threads[t]];
    assert c'.phases == c.phases[t := c'.phases[t]];
    WorkLeftUpdate(c.threads, c.phases, t, c'.threads[t], c'.phases[t]);
    FineStepKeepsInv(c, t);
    forall u: nat | u < |c'.threads| ensures c'.phases[u].Outside? || c'.threads[u].todo != [] {
      assert PhaseOk(c', u);
    }
    WorkLeftNonNegative(c'.threads, c'.phases);
  }

  /** Every run is finite, with a bound known before it starts. */
  lemma {:induction false} RunsAreBounded(c: Fine, schedule: seq<nat>)
    requires FineInv(c) && FineLegal(c, schedule)
    ensures |schedule| <= WorkLeft(c.threads, c.phases)
    decreases |schedule|
  {
    if schedule == [] {
      forall u: nat | u < |c.threads| ensures c.phases[u].Outside? || c.threads[u].todo != [] {
        assert PhaseOk(c, u);
      }
      WorkLeftNonNegative(c.threads, c.phases);
    } else {
      FineStepKeepsInv(c, schedule[0]);
      StepUsesWork(c, schedule[0]);
      RunsAreBounded(FineNext(c, schedule[0]), schedule[1..]);
    }
  }

  /** From every state some run reaches a state where nothing can move. */
  lemma {:induction false} SomeRunEnds(c: Fine) returns (schedule: seq<nat>)
    requires FineInv(c)
    ensures FineLegal(c, schedule)
    ensures FineFinished(FineRun(c, schedule)) || FineDeadlocked(FineRun(c, schedule))
    decreases WorkLeft(c.threads, c.phases)
  {
    if t: nat :| t < |c.threads| && FineEnabled(c, t) {
      FineStepKeepsInv(c, t);
      StepUsesWork(c, t);
      var rest := SomeRunEnds(FineNext(c, t));
      schedule := [t] + rest;
      assert schedule[1..] == rest;
    } else {
      schedule := [];
    }
  }

  // ------------------------------------------------------------ main theorem

  ghost predicate DeadlockFree(scripts: seq<seq<Op>>, configured: Filter) {
    forall schedule :: FineLegal(FineInit(scripts, configured), schedule) ==>
      !FineDeadlocked(FineRun(FineInit(scripts, configured), schedule))
  }

  lemma {:induction false} StuckStaysStuck(c: Fine, schedule: seq<nat>)
    requires FineInv(c) && Deadlocked(Abs(c)) && FineLegal(c, schedule)
    ensures Abs(FineRun(c, schedule)) == Abs(c)
    decreases |schedule|
  {
    if schedule != [] {
      FineStepKeepsInv(c, schedule[0]);
      StepRefines(c, schedule[0]);
      StuckStaysStuck(FineNext(c, schedule[0]), schedule[1..]);
    }
  }

  /** A deadlock of the atomic machine is one of the fine machine too. */
  lemma AtomicDeadlockIsReal(scripts: seq<seq<Op>>, configured: Filter, atomic: seq<nat>)
    requires Legal(Init(scripts, configured), atomic)
    requires Deadlocked(Run(Init(scripts, configured), atomic))
    ensures !DeadlockFree(scripts, configured)
  {
    var c0 := FineInit(scripts, configured);
    FineInitRefines(scripts, configured);
    var first := RunRealised(c0, atomic);
    var c := FineRun(c0, first);
    var second := SomeRunEnds(c);
    StuckStaysStuck(c, second);
    FineRunConcat(c0, first, second);
    assert FineDeadlocked(FineRun(c0, first + second));
  }

  lemma {:induction false} RunKeepsDoom(s: State, schedule: seq<nat>, configured: Filter, u: nat)
    requires Inv(s, configured) && Legal(s, schedule) && u < |s.threads|
    ensures DoomedThread(Run(s, schedule), u) <==> DoomedThread(s, u)
    decreases |schedule|
  {
    if schedule != [] {
      StepKeepsInv(s, schedule[0], configured);
      StepKeepsDoom(s, schedule[0], u, configured);
      RunKeepsDoom(Next(s, schedule[0]), schedule[1..], configured, u);
    }
  }

  /** Threads that follow the lock order deadlock, in some run of the fine machine,
      exactly when one of them asks for a key it already holds. */
  lemma DeadlockFreeIff(scripts: seq<seq<Op>>, configured: Filter)
    requires forall i :: 0 <= i < |scripts| ==> Disciplined(scripts[i], {})
    ensures DeadlockFree(scripts, configured)
            <==> forall i :: 0 <= i < |scripts| ==> !Doomed(scripts[i], {})
  {
    var c0, s0 := FineInit(scripts, configured), Init(scripts, configured);
    FineInitRefines(scripts, configured);
    InitEstablishesInv(scripts, configured);
    if u: nat :| u < |scripts| && Doomed(scripts[u], {}) {
      var schedule := SomeRunEnds(c0);
      RunRefines(c0, schedule);
      assert HeldBy(s0.holder, u) == {};
      RunKeepsDoom(s0, Projection(c0, schedule), configured, u);
      assert DoomedThread(Abs(FineRun(c0, schedule)), u);
      assert !FineFinished(FineRun(c0, schedule));
      assert !DeadlockFree(scripts, configured);
    } else {
      forall schedule | FineLegal(c0, schedule) ensures !FineDeadlocked(FineRun(c0, schedule)) {
        NoDoomNoDeadlock(scripts, configured, schedule);
      }
    }
  }

  lemma NoDoomNoDeadlock(scripts: seq<seq<Op>>, configured: Filter, schedule: seq<nat>)
    requires forall i :: 0 <= i < |scripts| ==> Disciplined(scripts[i], {}) && !Doomed(scripts[i], {})
    requires FineLegal(FineInit(scripts, configured), schedule)
    ensures !FineDeadlocked(FineRun(FineInit(scripts, configured), schedule))
  {
    var c0, s0 := FineInit(scripts, configured), Init(scripts, configured);
    FineInitRefines(scripts, configured);
    InitEstablishesInv(scripts, configured);
    RunRefines(c0, schedule);
    var c, atomic := FineRun(c0, schedule), Projection(c0, schedule);
    RunKeepsInv(s0, atomic, configured);
    forall t: nat | t < |scripts| ensures !DoomedThread(Abs(c), t) {
      assert HeldBy(s0.holder, t) == {};
      RunKeepsDoom(s0, atomic, configured, t);
    }
    if FineDeadlocked(c) {
      FineDeadlockIsAtomic(c);
      DeadlockNeedsDoomedThread(Abs(c), configured);
    }
  }

  lemma LockedMutexHasHolder(c: Fine, m: nat, configured: Filter)
    requires FineInv(c) && Inv(Abs(c), configured) && m in c.locked
    ensures c.locked[m] < |c.threads| && HeldBy(Abs(c).holder, c.locked[m]) != {}
  {
    var k :| k in c.store && c.store[k] == m;
    assert k in Abs(c).holder;
    assert k in HeldBy(Abs(c).holder, c.locked[m]);
  }

  /** A run that cannot go on has finished: every thread did all its work, no key is
      held, and the filter is the configured one. Since runs are bounded
      (RunsAreBounded), every run can be, and eventually is, driven there. */
  lemma EveryRunFinishes(scripts: seq<seq<Op>>, configured: Filter, schedule: seq<nat>)
    requires forall i :: 0 <= i < |scripts| ==> Disciplined(scripts[i], {}) && !Doomed(scripts[i], {})
    requires FineLegal(FineInit(scripts, configured), schedule)
    ensures var c := FineRun(FineInit(scripts, configured), schedule);
            && |schedule| <= WorkLeft(FineInit(scripts, configured).threads, FineInit(scripts, configured).phases)
            && ((forall t: nat :: t < |c.threads| ==> !FineEnabled(c, t)) ==>
                  FineFinished(c) && c.locked == map[] && c.mapOwner == {} && c.filter == configured)
  {
    var c0, s0 := FineInit(scripts, configured), Init(scripts, configured);
    FineInitRefines(scripts, configured);
    InitEstablishesInv(scripts, configured);
    RunsAreBounded(c0, schedule);
    NoDoomNoDeadlock(scripts, configured, schedule);
    RunRefines(c0, schedule);
    var c, atomic := FineRun(c0, schedule), Projection(c0, schedule);
    RunKeepsInv(s0, atomic, configured);
    if forall t: nat :: t < |c.threads| ==> !FineEnabled(c, t) {
      assert FineFinished(c);
      forall t: nat | t < |c.threads| ensures HeldBy(Abs(c).holder, t) == {} && t !in c.mapOwner {
        assert Disciplined(c.threads[t].todo, HeldBy(Abs(c).holder, t));
        assert PhaseOk(c, t);
      }
      if m :| m in c.locked {
        LockedMutexHasHolder(c, m, configured);
      }
    }
  }
}
