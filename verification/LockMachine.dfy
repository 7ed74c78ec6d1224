/** Threads of the provider as sequences of lock and filter operations, and the
    atomic machine that interleaves them: one map from a key to the thread that
    holds it, and one metadata filter shared by every thread. */
module LockMachine {

  /** The client's metadata filter. The empty filter is the nil the source installs. */
  type Filter = seq<string>

  /** The key under which the shared filter is swapped (vcd/metadata.go:332). */
  const METADATA_KEY := "metadata"

  /** The key a disk on several VMs takes first. */
  const GLOBAL_DISK_KEY := "globalIndependentDiskLockKey"

  const VM_KEY_PREFIX := "independentDiskLock:"

  function VmKey(href: string): string {
    VM_KEY_PREFIX + href
  }

  /** One step of a thread that touches the locks or the shared filter. */
  datatype Op =
    | Lock(key: string)
    | Unlock(key: string)
    | Hide          // saved := SetMetadataToIgnore(nil)
    | ReadAll       // GetMetadata inside the section
    | Restore       // SetMetadataToIgnore(saved)
    | ReadFiltered  // a later read that relies on the configured filter

  /** What a thread still has to do, and its local copy of the filter. */
  datatype Thread = Thread(todo: seq<Op>, saved: Filter)

  datatype State = State(threads: seq<Thread>, holder: map<string, nat>, filter: Filter)

  function HeldBy(holder: map<string, nat>, t: nat): (held: set<string>) {
    set k | k in holder && holder[k] == t
  }

  /** The thread stands between a Hide and its Restore. */
  predicate InSection(ops: seq<Op>) {
    ops != [] && match ops[0] {
      case Restore => true
      case Hide => false
      case _ => InSection(ops[1..])
    }
  }

  predicate IsVmKey(key: string) {
    |VM_KEY_PREFIX| <= |key| && key[..|VM_KEY_PREFIX|] == VM_KEY_PREFIX
  }

  /** The lock order of the source: nothing is taken inside the metadata section,
      the metadata key may be taken over anything else, a VM key over the global
      disk key, and every other key only by a thread that holds none. */
  predicate Admissible(held: set<string>, key: string) {
    && METADATA_KEY !in held
    && (held == {} || key == METADATA_KEY || (GLOBAL_DISK_KEY in held && IsVmKey(key)))
  }

  /** The operations respect the lock order and the section brackets when they start
      with the given keys held. Taking a key twice ends the obligation: the thread
      blocks there for ever (see Doomed). */
  predicate Disciplined(ops: seq<Op>, held: set<string>) {
    if ops == [] then held == {}
    else
      var rest := ops[1..];
      match ops[0] {
        case Lock(k) =>
          !InSection(ops) && (k in held || (Admissible(held, k) && Disciplined(rest, held + {k})))
        case Unlock(k) => !InSection(ops) && k in held && Disciplined(rest, held - {k})
        case Hide => METADATA_KEY in held && InSection(rest) && Disciplined(rest, held)
        case ReadAll => METADATA_KEY in held && InSection(rest) && Disciplined(rest, held)
        case Restore => METADATA_KEY in held && !InSection(rest) && Disciplined(rest, held)
        case ReadFiltered => !InSection(ops) && Disciplined(rest, held)
      }
  }

  /** The operations ask for a key the thread already holds. Go mutexes are not
      reentrant, so the thread can never get past that point. */
  predicate Doomed(ops: seq<Op>, held: set<string>) {
    ops != [] && match ops[0] {
      case Lock(k) => k in held || Doomed(ops[1..], held + {k})
      case Unlock(k) => Doomed(ops[1..], held - {k})
      case _ => Doomed(ops[1..], held)
    }
  }

  // ------------------------------------------------------------------ steps

  predicate Enabled(s: State, t: nat) {
    t < |s.threads| && s.threads[t].todo != [] && match s.threads[t].todo[0] {
      case Lock(k) => k !in s.holder
      case Unlock(k) => k in s.holder  // sync.Mutex aborts on an unlocked mutex
      case _ => true
    }
  }

  function Next(s: State, t: nat): (s': State)
    requires Enabled(s, t)
  {
    var th := s.threads[t];
    var rest := th.(todo := th.todo[1..]);
    match th.todo[0] {
      case Lock(k) => s.(threads := s.threads[t := rest], holder := s.holder[k := t])
      case Unlock(k) => s.(threads := s.threads[t := rest], holder := s.holder - {k})
      case Hide => s.(threads := s.threads[t := rest.(saved := s.filter)], filter := [])
      case Restore => s.(threads := s.threads[t := rest], filter := th.saved)
      case _ => s.(threads := s.threads[t := rest])
    }
  }

  /** A schedule names the thread that moves at each step. */
  predicate Legal(s: State, schedule: seq<nat>)
    decreases |schedule|
  {
    schedule == [] || (Enabled(s, schedule[0]) && Legal(Next(s, schedule[0]), schedule[1..]))
  }

  function Run(s: State, schedule: seq<nat>): (s': State)
    requires Legal(s, schedule)
    decreases |schedule|
  {
    if schedule == [] then s else Run(Next(s, schedule[0]), schedule[1..])
  }

  function Init(scripts: seq<seq<Op>>, configured: Filter): State {
    State(seq(|scripts|, i requires 0 <= i < |scripts| => Thread(scripts[i], [])), map[], configured)
  }

  predicate Finished(s: State) {
    forall t :: 0 <= t < |s.threads| ==> s.threads[t].todo == []
  }

  predicate Deadlocked(s: State) {
    !Finished(s) && forall t: nat :: t < |s.threads| ==> !Enabled(s, t)
  }

  // -------------------------------------------------------------- invariant

  predicate SomeoneInside(s: State) {
    exists t :: 0 <= t < |s.threads| && InSection(s.threads[t].todo)
  }

  /** What every reachable state keeps. */
  predicate Inv(s: State, configured: Filter) {
    && (forall k :: k in s.holder ==> s.holder[k] < |s.threads|)
    && (forall t: nat :: t < |s.threads| ==>
          Disciplined(s.threads[t].todo, HeldBy(s.holder, t)))
    && (forall t: nat :: t < |s.threads| && InSection(s.threads[t].todo) ==>
          s.threads[t].saved == configured)
    && s.filter == (if SomeoneInside(s) then [] else configured)
  }

  lemma InitEstablishesInv(scripts: seq<seq<Op>>, configured: Filter)
    requires forall i :: 0 <= i < |scripts| ==> Disciplined(scripts[i], {})
    ensures Inv(Init(scripts, configured), configured)
  {
    var s := Init(scripts, configured);
    forall t: nat | t < |s.threads|
      ensures HeldBy(s.holder, t) == {} && !InSection(s.threads[t].todo)
    {
      assert Disciplined(s.threads[t].todo, {});
    }
  }

  lemma InsideHoldsMetadataKey(ops: seq<Op>, held: set<string>)
    requires Disciplined(ops, held) && InSection(ops)
    ensures METADATA_KEY in held
  {}

  /** At most one thread is inside the swap section. */
  lemma InsideIsUnique(s: State, configured: Filter, t: nat, u: nat)
    requires Inv(s, configured)
    requires t < |s.threads| && u < |s.threads|
    requires InSection(s.threads[t].todo) && InSection(s.threads[u].todo)
    ensures t == u
  {
    InsideHoldsMetadataKey(s.threads[t].todo, HeldBy(s.holder, t));
    InsideHoldsMetadataKey(s.threads[u].todo, HeldBy(s.holder, u));
  }

  lemma OutsideOfHolder(s: State, configured: Filter, t: nat, u: nat)
    requires Inv(s, configured) && METADATA_KEY in HeldBy(s.holder, t)
    requires u < |s.threads|
    ensures u != t ==> !InSection(s.threads[u].todo)
  {
    assert Disciplined(s.threads[u].todo, HeldBy(s.holder, u));
  }

  /** The holdings of the threads that do not move are untouched by a step. */
  lemma StepHoldings(s: State, t: nat, configured: Filter)
    requires Inv(s, configured) && Enabled(s, t)
    ensures forall u: nat :: u != t ==> HeldBy(Next(s, t).holder, u) == HeldBy(s.holder, u)
    ensures match s.threads[t].todo[0] {
              case Lock(k) => HeldBy(Next(s, t).holder, t) == HeldBy(s.holder, t) + {k}
              case Unlock(k) => k in HeldBy(s.holder, t)
                                && HeldBy(Next(s, t).holder, t) == HeldBy(s.holder, t) - {k}
              case _ => Next(s, t).holder == s.holder
            }
  {
    assert Disciplined(s.threads[t].todo, HeldBy(s.holder, t));
  }

  lemma StepKeepsInv(s: State, t: nat, configured: Filter)
    requires Inv(s, configured) && Enabled(s, t)
    ensures Inv(Next(s, t), configured)
  {
    var s' := Next(s, t);
    StepHoldings(s, t, configured);
    assert Disciplined(s.threads[t].todo, HeldBy(s.holder, t));
    forall u: nat | u < |s'.threads|
      ensures Disciplined(s'.threads[u].todo, HeldBy(s'.holder, u))
    {
    }
    StepKeepsFilter(s, t, configured);
  }

  /** The filter clause of the invariant, the one the section exists for. */
  lemma StepKeepsFilter(s: State, t: nat, configured: Filter)
    requires Inv(s, configured) && Enabled(s, t)
    ensures var s' := Next(s, t);
            && s'.filter == (if SomeoneInside(s') then [] else configured)
            && forall u: nat :: u < |s'.threads| && InSection(s'.threads[u].todo) ==>
                 s'.threads[u].saved == configured
  {
    var s' := Next(s, t);
    assert Disciplined(s.threads[t].todo, HeldBy(s.holder, t));
    forall u: nat | u < |s.threads| && u != t ensures s'.threads[u] == s.threads[u] {}
    match s.threads[t].todo[0] {
      case Hide =>
        forall u: nat | u < |s.threads| ensures !InSection(s.threads[u].todo) {
          OutsideOfHolder(s, configured, t, u);
        }
        assert InSection(s'.threads[t].todo);
      case Restore =>
        forall u: nat | u < |s'.threads| ensures !InSection(s'.threads[u].todo) {
          OutsideOfHolder(s, configured, t, u);
        }
      case _ =>
        assert InSection(s'.threads[t].todo) == InSection(s.threads[t].todo);
        forall u: nat | u < |s.threads|
          ensures InSection(s'.threads[u].todo) == InSection(s.threads[u].todo)
        {
        }
    }
  }

  lemma {:induction false} RunKeepsInv(s: State, schedule: seq<nat>, configured: Filter)
    requires Inv(s, configured) && Legal(s, schedule)
    ensures Inv(Run(s, schedule), configured)
    ensures |Run(s, schedule).threads| == |s.threads|
    decreases |schedule|
  {
    if schedule != [] {
      StepKeepsInv(s, schedule[0], configured);
      RunKeepsInv(Next(s, schedule[0]), schedule[1..], configured);
    }
  }

  // ------------------------------------------------ main results, atomic level

  /** Filter restoration over all runs: in every reachable state the shared filter is
      the configured one exactly when nobody is inside the section; unfiltered reads
      see nil, and a filtered read sees the configured filter exactly when no other
      thread is inside (or when nothing is configured). */
  lemma FilterRestored(scripts: seq<seq<Op>>, configured: Filter, schedule: seq<nat>)
    requires forall i :: 0 <= i < |scripts| ==> Disciplined(scripts[i], {})
    requires Legal(Init(scripts, configured), schedule)
    ensures var s := Run(Init(scripts, configured), schedule);
            && s.filter == (if SomeoneInside(s) then [] else configured)
            && (METADATA_KEY !in s.holder ==> s.filter == configured)
            && (forall t: nat :: Enabled(s, t) && s.threads[t].todo[0] == ReadAll ==> s.filter == [])
            && (forall t: nat :: Enabled(s, t) && s.threads[t].todo[0] == ReadFiltered ==>
                  (s.filter == configured <==>
                   (configured == [] || forall u: nat :: u < |s.threads| && u != t ==> !InSection(s.threads[u].todo))))
  {
    InitEstablishesInv(scripts, configured);
    RunKeepsInv(Init(scripts, configured), schedule, configured);
    var s := Run(Init(scripts, configured), schedule);
    if METADATA_KEY !in s.holder && SomeoneInside(s) {
      var t: nat :| t < |s.threads| && InSection(s.threads[t].todo);
      InsideHoldsMetadataKey(s.threads[t].todo, HeldBy(s.holder, t));
    }
    forall t: nat | Enabled(s, t)
      ensures Disciplined(s.threads[t].todo, HeldBy(s.holder, t))
    {
    }
    forall t: nat | Enabled(s, t) && s.threads[t].todo[0] == ReadAll ensures s.filter == [] {
      assert InSection(s.threads[t].todo);
    }
  }

  /** No run ever unlocks a key that the thread does not hold: sync.Mutex's
      fatal "unlock of unlocked mutex" is unreachable, and so is stealing. */
  lemma UnlocksOwnKeys(scripts: seq<seq<Op>>, configured: Filter, schedule: seq<nat>, t: nat)
    requires forall i :: 0 <= i < |scripts| ==> Disciplined(scripts[i], {})
    requires Legal(Init(scripts, configured), schedule)
    requires t < |scripts|
    ensures var s := Run(Init(scripts, configured), schedule);
            && |s.threads| == |scripts|
            && (s.threads[t].todo != [] && s.threads[t].todo[0].Unlock? ==>
                  s.threads[t].todo[0].key in s.holder && s.holder[s.threads[t].todo[0].key] == t)
            && (s.threads[t].todo == [] ==> forall k :: k in s.holder ==> s.holder[k] != t)
  {
    InitEstablishesInv(scripts, configured);
    RunKeepsInv(Init(scripts, configured), schedule, configured);
    var s := Run(Init(scripts, configured), schedule);
    assert Disciplined(s.threads[t].todo, HeldBy(s.holder, t));
    if s.threads[t].todo == [] {
      forall k | k in s.holder ensures s.holder[k] != t {
        assert k !in HeldBy(s.holder, t);
      }
    }
  }

  /** In a deadlock an unfinished thread waits for a key someone else holds. */
  lemma WaitsForHolder(s: State, configured: Filter, t: nat)
    requires Inv(s, configured) && Deadlocked(s)
    requires t < |s.threads| && s.threads[t].todo != []
    ensures s.threads[t].todo[0].Lock? && s.threads[t].todo[0].key in s.holder
    ensures s.holder[s.threads[t].todo[0].key] < |s.threads|
    ensures s.threads[s.holder[s.threads[t].todo[0].key]].todo != []
  {
    assert !Enabled(s, t);
    assert Disciplined(s.threads[t].todo, HeldBy(s.holder, t));
    var k := s.threads[t].todo[0].key;
    var u := s.holder[k];
    assert Disciplined(s.threads[u].todo, HeldBy(s.holder, u));
    assert k in HeldBy(s.holder, u);
  }

  predicate DoomedThread(s: State, t: nat) {
    t < |s.threads| && Doomed(s.threads[t].todo, HeldBy(s.holder, t))
  }

  /** ... and unless some thread waits for itself, that holder also has the global key. */
  lemma HolderHoldsGlobalKey(s: State, configured: Filter, t: nat)
    requires Inv(s, configured) && Deadlocked(s)
    requires t < |s.threads| && s.threads[t].todo != []
    requires s.threads[t].todo[0].Lock? && s.threads[t].todo[0].key in s.holder
    ensures (exists v: nat :: DoomedThread(s, v))
            || GLOBAL_DISK_KEY in HeldBy(s.holder, s.holder[s.threads[t].todo[0].key])
  {
    WaitsForHolder(s, configured, t);
    var k := s.threads[t].todo[0].key;
    var u := s.holder[k];
    assert k in HeldBy(s.holder, u);
    WaitsForHolder(s, configured, u);
    var k2 := s.threads[u].todo[0].key;
    assert Disciplined(s.threads[u].todo, HeldBy(s.holder, u));
    if k2 in HeldBy(s.holder, u) {
      assert DoomedThread(s, u);
    } else if k2 == METADATA_KEY {
      var w := s.holder[k2];
      WaitsForHolder(s, configured, w);
      assert METADATA_KEY in HeldBy(s.holder, w);
      assert Disciplined(s.threads[w].todo, HeldBy(s.holder, w));
      assert DoomedThread(s, w);
    }
  }

  /** A state in which every unfinished thread waits has a thread waiting for itself. */
  lemma DeadlockNeedsDoomedThread(s: State, configured: Filter)
    requires Inv(s, configured) && Deadlocked(s)
    ensures exists t: nat :: DoomedThread(s, t)
  {
    var t: nat :| t < |s.threads| && s.threads[t].todo != [];
    WaitsForHolder(s, configured, t);
    var u := s.holder[s.threads[t].todo[0].key];
    WaitsForHolder(s, configured, u);
    var k := s.threads[u].todo[0].key;
    var w := s.holder[k];
    HolderHoldsGlobalKey(s, configured, t);
    HolderHoldsGlobalKey(s, configured, u);
    if GLOBAL_DISK_KEY in HeldBy(s.holder, u) && GLOBAL_DISK_KEY in HeldBy(s.holder, w) {
      assert k in HeldBy(s.holder, w) && u == w;
      assert DoomedThread(s, u);
    }
  }

  /** A doomed thread stays doomed, whoever moves, and so never finishes. */
  lemma StepKeepsDoom(s: State, t: nat, u: nat, configured: Filter)
    requires Inv(s, configured) && Enabled(s, t) && u < |s.threads|
    ensures Doomed(Next(s, t).threads[u].todo, HeldBy(Next(s, t).holder, u))
            <==> Doomed(s.threads[u].todo, HeldBy(s.holder, u))
  {
    StepHoldings(s, t, configured);
    if u == t {
      assert Disciplined(s.threads[t].todo, HeldBy(s.holder, t));
    }
  }
}
