/** Any number of updates of different disks at once: vcd/resource_vcd_independent_disk.go
    under the locks of vcd/mutexkv.go. The machine adds the server's VMs and the calls that
    change them to the lock machine; the theorem is that the updates do not disturb each
    other's disks, and that none of them gets stuck. */
module ConcurrentUpdates {
  import opened DiskUpdate
  import opened LockMachine
  import opened LockScripts
  import opened MutexKv
  import opened Options

  /** One step of an update: on the locks and the filter, or a call about one VM. */
  datatype Step =
    | Sync(op: Op)
    | Fetch(href: string)
    | Detach(href: string)
    | ResizeDisk
    | AttachBack(href: string)

  /** An update under way. `out` is history: the VMs the disk is off at the moment. */
  datatype Worker = Worker(
    disk: string, todo: seq<Step>,
    fetched: map<string, seq<DiskSetting>>, details: map<string, DiskSetting>, out: set<string>)

  datatype Machine = Machine(locks: State, workers: seq<Worker>, vms: Vms)

  /** The update of a disk on the listed VMs. It makes `cut` of its calls: all of them, or
      fewer when one fails and it goes on to release its locks. */
  datatype Job = Job(disk: string, hrefs: seq<string>, cut: nat, read: Option<nat>)

  // ------------------------------------------------------------- the script

  function Lift(ops: seq<Op>): (steps: seq<Step>) {
    if ops == [] then [] else [Sync(ops[0])] + Lift(ops[1..])
  }

  function Fetches(hrefs: seq<string>): (steps: seq<Step>) {
    if hrefs == [] then [] else [Fetch(hrefs[0])] + Fetches(hrefs[1..])
  }

  function Detaches(hrefs: seq<string>): (steps: seq<Step>) {
    if hrefs == [] then [] else [Detach(hrefs[0])] + Detaches(hrefs[1..])
  }

  function Attaches(hrefs: seq<string>): (steps: seq<Step>) {
    if hrefs == [] then [] else [AttachBack(hrefs[0])] + Attaches(hrefs[1..])
  }

  function Calls(hrefs: seq<string>): (steps: seq<Step>) {
    Fetches(hrefs) + (Detaches(hrefs) + ([ResizeDisk] + Attaches(hrefs)))
  }

  predicate ValidJob(job: Job) {
    job.cut <= |Calls(job.hrefs)| && (job.cut < |Calls(job.hrefs)| ==> job.read.None?)
  }

  predicate Complete(job: Job) {
    ValidJob(job) && job.cut == |Calls(job.hrefs)|
  }

  /** Every update can make all its calls, whether it then reads the metadata or not, and be
      cut short anywhere before, without reading. */
  lemma JobsAreValid(disk: string, hrefs: seq<string>, cut: nat, read: Option<nat>)
    ensures Complete(Job(disk, hrefs, |Calls(hrefs)|, read))
    ensures cut < |Calls(hrefs)| ==> (ValidJob(Job(disk, hrefs, cut, read)) <==> read.None?)
    ensures cut > |Calls(hrefs)| ==> !ValidJob(Job(disk, hrefs, cut, read))
  {}

  function OpenOps(hrefs: seq<string>): seq<Op> {
    (if |hrefs| > 1 then [Lock(GLOBAL_DISK_KEY)] else []) + LockVmsOps(hrefs)
  }

  function CloseOps(hrefs: seq<string>, read: Option<nat>): seq<Op> {
    OptionalRead(read) + UnlockVmsOps(hrefs) + (if |hrefs| > 1 then [Unlock(GLOBAL_DISK_KEY)] else [])
  }

  function Steps(job: Job): seq<Step>
    requires ValidJob(job)
  {
    Lift(OpenOps(job.hrefs)) + (Calls(job.hrefs)[..job.cut] + Lift(CloseOps(job.hrefs, job.read)))
  }

  function Syncs(todo: seq<Step>): (ops: seq<Op>) {
    if todo == [] then []
    else (if todo[0].Sync? then [todo[0].op] else []) + Syncs(todo[1..])
  }

  /** What the server is asked to change, as DiskUpdate records it. */
  function EffectsOf(steps: seq<Step>, details: map<string, DiskSetting>, at: nat): (effects: seq<Effect>) {
    if steps == [] then []
    else
      (match steps[0]
       case Detach(h) => [DetachedFrom(h, at)]
       case ResizeDisk => [ResizedDisk(at)]
       case AttachBack(h) => [Effect.AttachedTo(h, Slot(details, h).0, Slot(details, h).1, at)]
       case _ => [])
      + EffectsOf(steps[1..], details, at)
  }

  lemma {:induction false} EffectsAppend(a: seq<Step>, b: seq<Step>, details: map<string, DiskSetting>, at: nat)
    ensures EffectsOf(a + b, details, at) == EffectsOf(a, details, at) + EffectsOf(b, details, at)
  {
    if a == [] {
      assert a + b == b;
    } else {
      assert (a + b)[1..] == a[1..] + b;
      EffectsAppend(a[1..], b, details, at);
    }
  }

  lemma {:induction false} EffectsOfFetches(hrefs: seq<string>, details: map<string, DiskSetting>, at: nat)
    ensures EffectsOf(Fetches(hrefs), details, at) == []
  {
    if hrefs != [] {
      EffectsOfFetches(hrefs[1..], details, at);
      assert Fetches(hrefs)[1..] == Fetches(hrefs[1..]);
    }
  }

  lemma {:induction false} EffectsOfDetaches(hrefs: seq<string>, details: map<string, DiskSetting>, at: nat)
    ensures EffectsOf(Detaches(hrefs), details, at) == DetachPlan(hrefs, at)
  {
    if hrefs != [] {
      EffectsOfDetaches(hrefs[1..], details, at);
      assert Detaches(hrefs)[1..] == Detaches(hrefs[1..]);
      assert DetachPlan(hrefs, at) == [DetachedFrom(hrefs[0], at)] + DetachPlan(hrefs[1..], at);
    }
  }

  lemma {:induction false} EffectsOfAttaches(hrefs: seq<string>, details: map<string, DiskSetting>, at: nat)
    ensures EffectsOf(Attaches(hrefs), details, at) == AttachPlan(details, hrefs, at)
  {
    if hrefs != [] {
      var slot := Slot(details, hrefs[0]);
      EffectsOfAttaches(hrefs[1..], details, at);
      assert Attaches(hrefs)[1..] == Attaches(hrefs[1..]);
      assert AttachPlan(details, hrefs, at)
             == [Effect.AttachedTo(hrefs[0], slot.0, slot.1, at)] + AttachPlan(details, hrefs[1..], at);
    }
  }

  /** The calls of a job carry out the plan that DiskUpdate.Provider.Update is proved to
      carry out. */
  lemma CallsCarryOutPlan(hrefs: seq<string>, disk: string, vms: Vms, at: nat)
    ensures EffectsOf(Calls(hrefs), Placements(vms, hrefs, disk), at) == Plan(vms, hrefs, disk, at)
  {
    var details := Placements(vms, hrefs, disk);
    var tail := [ResizeDisk] + Attaches(hrefs);
    EffectsOfFetches(hrefs, details, at);
    EffectsOfDetaches(hrefs, details, at);
    EffectsOfAttaches(hrefs, details, at);
    EffectsAppend(Fetches(hrefs), Detaches(hrefs) + tail, details, at);
    EffectsAppend(Detaches(hrefs), tail, details, at);
    assert tail[1..] == Attaches(hrefs);
  }

  // ------------------------------------------------------------ the machine

  predicate CanStep(m: Machine, t: nat) {
    && t < |m.workers| && m.workers[t].todo != []
    && var w := m.workers[t];
       match w.todo[0] {
         case Sync(_) => Enabled(m.locks, t)
         case Fetch(h) => h in m.vms
         case Detach(h) =>
           h in w.fetched && Holds(w.fetched[h], w.disk) && h in m.vms && Holds(m.vms[h].settings, w.disk)
         case ResizeDisk => true
         case AttachBack(h) => h in m.vms && !Holds(m.vms[h].settings, w.disk)
       }
  }

  function DoStep(m: Machine, t: nat): (m': Machine)
    requires CanStep(m, t)
  {
    var w := m.workers[t];
    var rest := w.(todo := w.todo[1..]);
    match w.todo[0] {
      case Sync(_) => m.(locks := Next(m.locks, t), workers := m.workers[t := rest])
      case Fetch(h) => m.(workers := m.workers[t := rest.(fetched := w.fetched[h := m.vms[h].settings])])
      case Detach(h) =>
        var found := LastMatch(w.fetched[h], w.disk).value;
        m.(workers := m.workers[t := rest.(details := w.details[h := found], out := w.out + {h})],
           vms := m.vms[h := Detached(m.vms[h], w.disk)])
      case ResizeDisk => m.(workers := m.workers[t := rest])
      case AttachBack(h) =>
        var slot := Slot(w.details, h);
        m.(workers := m.workers[t := rest.(out := w.out - {h})],
           vms := m.vms[h := Attached(m.vms[h], w.disk, slot.0, slot.1)])
    }
  }

  predicate LegalRun(m: Machine, schedule: seq<nat>)
    decreases |schedule|
  {
    schedule == [] || (CanStep(m, schedule[0]) && LegalRun(DoStep(m, schedule[0]), schedule[1..]))
  }

  function After(m: Machine, schedule: seq<nat>): (m': Machine)
    requires LegalRun(m, schedule)
    decreases |schedule|
  {
    if schedule == [] then m else After(DoStep(m, schedule[0]), schedule[1..])
  }

  predicate ValidJobs(jobs: seq<Job>) {
    forall t :: 0 <= t < |jobs| ==> ValidJob(jobs[t])
  }

  function LockTasks(jobs: seq<Job>): (tasks: seq<Task>)
    ensures |tasks| == |jobs|
  {
    seq(|jobs|, t requires 0 <= t < |jobs| => Task.DiskUpdate(jobs[t].hrefs, jobs[t].read))
  }

  function Begin(jobs: seq<Job>, vms: Vms, configured: Filter): Machine
    requires ValidJobs(jobs)
  {
    Machine(Init(Scripts(LockTasks(jobs)), configured),
            seq(|jobs|, t requires 0 <= t < |jobs| => Worker(jobs[t].disk, Steps(jobs[t]), map[], map[], {})),
            vms)
  }

  predicate AllDone(m: Machine) {
    forall t :: 0 <= t < |m.workers| ==> m.workers[t].todo == []
  }

  // -------------------------------------------------- scripts keep the VM keys

  function HeldNext(op: Op, held: set<string>): set<string> {
    match op
    case Lock(k) => held + {k}
    case Unlock(k) => held - {k}
    case _ => held
  }

  /** The calls come in an order that makes sense, each under its VM's key, for a disk that
      is initially on those VMs. */
  predicate Orderly(todo: seq<Step>, held: set<string>, fetched: set<string>, out: set<string>,
                    disk: string, vms: Vms)
  {
    todo == [] || (
      var rest := todo[1..];
      match todo[0] {
        case Sync(op) => Orderly(rest, HeldNext(op, held), fetched, out, disk, vms)
        case Fetch(h) =>
          VmKey(h) in held && h in vms && h !in out && Orderly(rest, held, fetched + {h}, out, disk, vms)
        case Detach(h) =>
          && VmKey(h) in held && h in fetched && h !in out
          && h in vms && Holds(vms[h].settings, disk)
          && Orderly(rest, held, fetched, out + {h}, disk, vms)
        case ResizeDisk => Orderly(rest, held, fetched, out, disk, vms)
        case AttachBack(h) => VmKey(h) in held && h in out && Orderly(rest, held, fetched, out - {h}, disk, vms)
      })
  }

  /** The VMs the disk is off in the end. */
  function LeftOut(todo: seq<Step>, out: set<string>): set<string> {
    if todo == [] then out
    else
      LeftOut(todo[1..],
              match todo[0] { case Detach(h) => out + {h} case AttachBack(h) => out - {h} case _ => out })
  }

  function HeldAfter(ops: seq<Op>, held: set<string>): set<string> {
    if ops == [] then held else HeldAfter(ops[1..], HeldNext(ops[0], held))
  }

  lemma SyncCons(op: Op, rest: seq<Step>, held: set<string>, fetched: set<string>,
                 out: set<string>, disk: string, vms: Vms)
    ensures var steps := [Sync(op)] + rest;
            && (Orderly(steps, held, fetched, out, disk, vms)
                <==> Orderly(rest, HeldNext(op, held), fetched, out, disk, vms))
            && LeftOut(steps, out) == LeftOut(rest, out)
            && Syncs(steps) == [op] + Syncs(rest)
  {
    assert ([Sync(op)] + rest)[1..] == rest;
  }

  lemma LiftCons(ops: seq<Op>, rest: seq<Step>)
    requires ops != []
    ensures Lift(ops) + rest == [Sync(ops[0])] + (Lift(ops[1..]) + rest)
  {}

  lemma {:induction false} LiftThen(ops: seq<Op>, rest: seq<Step>, held: set<string>, fetched: set<string>,
                                    out: set<string>, disk: string, vms: Vms)
    ensures Orderly(Lift(ops) + rest, held, fetched, out, disk, vms)
            <==> Orderly(rest, HeldAfter(ops, held), fetched, out, disk, vms)
    ensures LeftOut(Lift(ops) + rest, out) == LeftOut(rest, out)
    ensures Syncs(Lift(ops) + rest) == ops + Syncs(rest)
  {
    hide Orderly;
    hide LeftOut;
    hide Syncs;
    if ops == [] {
      assert Lift(ops) + rest == rest;
    } else {
      LiftCons(ops, rest);
      SyncCons(ops[0], Lift(ops[1..]) + rest, held, fetched, out, disk, vms);
      LiftThen(ops[1..], rest, HeldNext(ops[0], held), fetched, out, disk, vms);
      assert ops + Syncs(rest) == [ops[0]] + (ops[1..] + Syncs(rest));
    }
  }

  /** A beginning of an orderly script, followed by steps on the locks, is orderly. */
  lemma {:induction false} CutIsOrderly(todo: seq<Step>, cut: nat, ops: seq<Op>, held: set<string>,
                                        fetched: set<string>, out: set<string>, disk: string, vms: Vms)
    requires cut <= |todo| && Orderly(todo, held, fetched, out, disk, vms)
    ensures Orderly(todo[..cut] + Lift(ops), held, fetched, out, disk, vms)
    decreases cut
  {
    if cut == 0 {
      assert todo[..cut] + Lift(ops) == Lift(ops) + [];
      LiftThen(ops, [], held, fetched, out, disk, vms);
    } else {
      var steps, rest := todo[..cut] + Lift(ops), todo[1..];
      assert steps[0] == todo[0] && steps[1..] == rest[..cut - 1] + Lift(ops);
      match todo[0] {
        case Sync(op) => CutIsOrderly(rest, cut - 1, ops, HeldNext(op, held), fetched, out, disk, vms);
        case Fetch(h) => CutIsOrderly(rest, cut - 1, ops, held, fetched + {h}, out, disk, vms);
        case Detach(h) => CutIsOrderly(rest, cut - 1, ops, held, fetched, out + {h}, disk, vms);
        case ResizeDisk => CutIsOrderly(rest, cut - 1, ops, held, fetched, out, disk, vms);
        case AttachBack(h) => CutIsOrderly(rest, cut - 1, ops, held, fetched, out - {h}, disk, vms);
      }
    }
  }

  lemma FetchCons(h: string, rest: seq<Step>, held: set<string>, fetched: set<string>,
                  out: set<string>, disk: string, vms: Vms)
    requires VmKey(h) in held && h in vms && h !in out
    ensures Orderly([Fetch(h)] + rest, held, fetched, out, disk, vms)
            <==> Orderly(rest, held, fetched + {h}, out, disk, vms)
    ensures LeftOut([Fetch(h)] + rest, out) == LeftOut(rest, out)
  {
    assert ([Fetch(h)] + rest)[1..] == rest;
  }

  lemma DetachCons(h: string, rest: seq<Step>, held: set<string>, fetched: set<string>,
                   out: set<string>, disk: string, vms: Vms)
    requires VmKey(h) in held && h in fetched && h !in out && h in vms && Holds(vms[h].settings, disk)
    ensures Orderly([Detach(h)] + rest, held, fetched, out, disk, vms)
            <==> Orderly(rest, held, fetched, out + {h}, disk, vms)
    ensures LeftOut([Detach(h)] + rest, out) == LeftOut(rest, out + {h})
  {
    assert ([Detach(h)] + rest)[1..] == rest;
  }

  lemma {:induction false} FetchSegment(hrefs: seq<string>, rest: seq<Step>, held: set<string>, fetched: set<string>,
                                        out: set<string>, disk: string, vms: Vms)
    requires forall h :: h in hrefs ==> VmKey(h) in held && h in vms && h !in out
    requires Orderly(rest, held, fetched + Elements(hrefs), out, disk, vms)
    ensures Orderly(Fetches(hrefs) + rest, held, fetched, out, disk, vms)
    ensures LeftOut(Fetches(hrefs) + rest, out) == LeftOut(rest, out)
    decreases |hrefs|
  {
    hide Orderly;
    hide LeftOut;
    if hrefs == [] {
      assert Fetches(hrefs) + rest == rest && fetched + Elements(hrefs) == fetched;
    } else {
      assert Fetches(hrefs) + rest == [Fetch(hrefs[0])] + (Fetches(hrefs[1..]) + rest);
      FetchCons(hrefs[0], Fetches(hrefs[1..]) + rest, held, fetched, out, disk, vms);
      assert fetched + Elements(hrefs) == (fetched + {hrefs[0]}) + Elements(hrefs[1..]) by { ElementsCons(hrefs); }
      FetchSegment(hrefs[1..], rest, held, fetched + {hrefs[0]}, out, disk, vms);
    }
  }

  lemma ElementsCons(hrefs: seq<string>)
    requires hrefs != []
    ensures Elements(hrefs) == {hrefs[0]} + Elements(hrefs[1..])
    ensures Distinct(hrefs) ==> Distinct(hrefs[1..]) && hrefs[0] !in Elements(hrefs[1..])
  {
    assert hrefs == [hrefs[0]] + hrefs[1..];
  }

  lemma {:induction false} DetachSegment(hrefs: seq<string>, rest: seq<Step>, held: set<string>, fetched: set<string>,
                                         out: set<string>, disk: string, vms: Vms)
    requires Distinct(hrefs) && Elements(hrefs) !! out && Elements(hrefs) <= fetched
    requires forall h :: h in hrefs ==> VmKey(h) in held && h in vms && Holds(vms[h].settings, disk)
    requires Orderly(rest, held, fetched, out + Elements(hrefs), disk, vms)
    ensures Orderly(Detaches(hrefs) + rest, held, fetched, out, disk, vms)
    ensures LeftOut(Detaches(hrefs) + rest, out) == LeftOut(rest, out + Elements(hrefs))
    decreases |hrefs|
  {
    hide Orderly;
    hide LeftOut;
    if hrefs == [] {
      assert Detaches(hrefs) + rest == rest && out + Elements(hrefs) == out;
    } else {
      ElementsCons(hrefs);
      assert Detaches(hrefs) + rest == [Detach(hrefs[0])] + (Detaches(hrefs[1..]) + rest);
      DetachCons(hrefs[0], Detaches(hrefs[1..]) + rest, held, fetched, out, disk, vms);
      assert out + Elements(hrefs) == (out + {hrefs[0]}) + Elements(hrefs[1..]);
      DetachSegment(hrefs[1..], rest, held, fetched, out + {hrefs[0]}, disk, vms);
    }
  }

  lemma {:induction false} AttachSegment(hrefs: seq<string>, held: set<string>, fetched: set<string>,
                                         out: set<string>, disk: string, vms: Vms)
    requires Distinct(hrefs) && Elements(hrefs) <= out
    requires forall h :: h in hrefs ==> VmKey(h) in held
    ensures Orderly(Attaches(hrefs), held, fetched, out, disk, vms)
    ensures LeftOut(Attaches(hrefs), out) == out - Elements(hrefs)
    decreases |hrefs|
  {
    if hrefs == [] {
      assert out - Elements(hrefs) == out;
    } else {
      ElementsCons(hrefs);
      assert Attaches(hrefs)[1..] == Attaches(hrefs[1..]);
      assert out - Elements(hrefs) == (out - {hrefs[0]}) - Elements(hrefs[1..]);
      AttachSegment(hrefs[1..], held, fetched, out - {hrefs[0]}, disk, vms);
    }
  }

  /** What the query for a disk's VMs promises: different VMs that have the disk. */
  predicate AttachedEverywhere(hrefs: seq<string>, disk: string, vms: Vms) {
    Distinct(hrefs) && forall h :: h in hrefs ==> h in vms && Holds(vms[h].settings, disk)
  }

  lemma CallsAreOrderly(hrefs: seq<string>, held: set<string>, disk: string, vms: Vms)
    requires AttachedEverywhere(hrefs, disk, vms) && VmKeys(hrefs) <= held
    ensures Orderly(Calls(hrefs), held, {}, {}, disk, vms)
    ensures LeftOut(Calls(hrefs), {}) == {}
  {
    var all := Elements(hrefs);
    var attaches := Attaches(hrefs);
    assert {} + all == all && all - all == {};
    forall h | h in hrefs ensures VmKey(h) in held {}
    AttachSegment(hrefs, held, all, all, disk, vms);
    assert ([ResizeDisk] + attaches)[1..] == attaches;
    DetachSegment(hrefs, [ResizeDisk] + attaches, held, all, {}, disk, vms);
    FetchSegment(hrefs, Detaches(hrefs) + ([ResizeDisk] + attaches), held, {}, {}, disk, vms);
  }

  lemma {:induction false} HeldAfterLocks(vms: seq<string>, held: set<string>)
    ensures HeldAfter(LockVmsOps(vms), held) == held + VmKeys(vms)
    decreases |vms|
  {
    if vms == [] {
      assert held + VmKeys(vms) == held;
    } else {
      VmKeysOfCons(vms);
      assert LockVmsOps(vms)[1..] == LockVmsOps(vms[1..]);
      assert held + VmKeys(vms) == (held + {VmKey(vms[0])}) + VmKeys(vms[1..]);
      HeldAfterLocks(vms[1..], held + {VmKey(vms[0])});
    }
  }

  lemma HeldAfterOpen(hrefs: seq<string>)
    ensures VmKeys(hrefs) <= HeldAfter(OpenOps(hrefs), {})
  {
    var first: seq<Op> := if |hrefs| > 1 then [Lock(GLOBAL_DISK_KEY)] else [];
    if |hrefs| > 1 {
      assert OpenOps(hrefs)[1..] == LockVmsOps(hrefs);
      HeldAfterLocks(hrefs, {} + {GLOBAL_DISK_KEY});
    } else {
      assert OpenOps(hrefs) == LockVmsOps(hrefs);
      HeldAfterLocks(hrefs, {});
    }
  }

  lemma {:induction false} CallsAreSilent(steps: seq<Step>, rest: seq<Step>)
    requires forall s :: s in steps ==> !s.Sync?
    ensures Syncs(steps + rest) == Syncs(rest)
    decreases |steps|
  {
    if steps == [] {
      assert steps + rest == rest;
    } else {
      assert steps[0] in steps;
      assert (steps + rest)[1..] == steps[1..] + rest;
      CallsAreSilent(steps[1..], rest);
    }
  }

  lemma {:induction false} NoSyncs(hrefs: seq<string>)
    ensures forall s :: s in Fetches(hrefs) + Detaches(hrefs) + Attaches(hrefs) ==> !s.Sync?
  {
    if hrefs != [] {
      NoSyncs(hrefs[1..]);
    }
  }

  lemma StepsAreOrderly(job: Job, vms: Vms)
    requires ValidJob(job) && AttachedEverywhere(job.hrefs, job.disk, vms)
    ensures Orderly(Steps(job), {}, {}, {}, job.disk, vms)
  {
    var open, close := OpenOps(job.hrefs), CloseOps(job.hrefs, job.read);
    var held := HeldAfter(open, {});
    HeldAfterOpen(job.hrefs);
    CallsAreOrderly(job.hrefs, held, job.disk, vms);
    CutIsOrderly(Calls(job.hrefs), job.cut, close, held, {}, {}, job.disk, vms);
    LiftThen(open, Calls(job.hrefs)[..job.cut] + Lift(close), {}, {}, {}, job.disk, vms);
  }

  /** The lock operations of a job are those of its task, however many calls it makes. */
  lemma SyncsOfSteps(job: Job)
    requires ValidJob(job)
    ensures Syncs(Steps(job)) == Script(Task.DiskUpdate(job.hrefs, job.read))
  {
    var open, close, calls := OpenOps(job.hrefs), CloseOps(job.hrefs, job.read), Calls(job.hrefs)[..job.cut];
    LiftThen(open, calls + Lift(close), {}, {}, {}, "", map[]);
    NoSyncs(job.hrefs);
    CallsAreSilent(calls, Lift(close));
    LiftThen(close, [], {}, {}, {}, "", map[]);
    assert Lift(close) + [] == Lift(close) && close + [] == close;
    OpenAndClose(job.hrefs, job.read);
  }

  lemma CompleteLeavesNothingOut(job: Job, vms: Vms)
    requires Complete(job) && AttachedEverywhere(job.hrefs, job.disk, vms)
    ensures LeftOut(Steps(job), {}) == {}
  {
    var open, close := OpenOps(job.hrefs), CloseOps(job.hrefs, job.read);
    CallsAreOrderly(job.hrefs, VmKeys(job.hrefs), job.disk, vms);
    LiftThen(open, Calls(job.hrefs) + Lift(close), {}, {}, {}, job.disk, vms);
    LeftOutThenLocks(Calls(job.hrefs), close, {});
    assert Calls(job.hrefs)[..job.cut] == Calls(job.hrefs);
  }

  lemma OpenAndClose(hrefs: seq<string>, read: Option<nat>)
    ensures OpenOps(hrefs) + CloseOps(hrefs, read) == DiskOps(hrefs, read)
  {
    var first: seq<Op> := if |hrefs| > 1 then [Lock(GLOBAL_DISK_KEY)] else [];
    var last: seq<Op> := if |hrefs| > 1 then [Unlock(GLOBAL_DISK_KEY)] else [];
    RegroupFive(first, LockVmsOps(hrefs), OptionalRead(read), UnlockVmsOps(hrefs), last);
    AppendPair(first, LockVmsOps(hrefs), OptionalRead(read), UnlockVmsOps(hrefs), last);
  }

  lemma AppendPair(a: seq<Op>, b: seq<Op>, c: seq<Op>, d: seq<Op>, e: seq<Op>)
    ensures (a + b) + (c + d + e) == a + (b + (c + (d + e)))
  {}

  lemma {:induction false} LeftOutThenLocks(todo: seq<Step>, ops: seq<Op>, out: set<string>)
    ensures LeftOut(todo + Lift(ops), out) == LeftOut(todo, out)
    decreases |todo|
  {
    if todo == [] {
      assert todo + Lift(ops) == Lift(ops) + [];
      LiftThen(ops, [], {}, {}, out, "", map[]);
    } else {
      assert (todo + Lift(ops))[1..] == todo[1..] + Lift(ops);
      LeftOutThenLocks(todo[1..], ops,
                       match todo[0] { case Detach(h) => out + {h} case AttachBack(h) => out - {h} case _ => out });
    }
  }

  // ------------------------------------------------------------ one VM's disks

  /** Two lists agree on the settings of one disk. */
  ghost predicate SameDisk(a: seq<DiskSetting>, b: seq<DiskSetting>, disk: string) {
    forall x: DiskSetting :: x.disk == Some(disk) ==> multiset(a)[x] == multiset(b)[x]
  }

  lemma HoldsCounts(settings: seq<DiskSetting>, disk: string)
    ensures Holds(settings, disk) <==> exists x: DiskSetting :: x.disk == Some(disk) && multiset(settings)[x] > 0
  {
    if i :| 0 <= i < |settings| && settings[i].disk == Some(disk) {
      assert settings[i] in multiset(settings);
    }
    if x: DiskSetting :| x.disk == Some(disk) && multiset(settings)[x] > 0 {
      assert x in settings;
      var i :| 0 <= i < |settings| && settings[i] == x;
    }
  }

  /** A disk that is on a VM once has exactly the setting that a scan finds. */
  lemma OnlySetting(settings: seq<DiskSetting>, disk: string, x: DiskSetting)
    requires AtMostOnce(settings, disk) && Holds(settings, disk) && x.disk == Some(disk)
    ensures multiset(settings)[x] == if Some(x) == LastMatch(settings, disk) then 1 else 0
  {
    WithoutLosesOne(settings, disk);
    HoldsCounts(Without(settings, disk), disk);
  }

  lemma SameDiskSameMatch(a: seq<DiskSetting>, b: seq<DiskSetting>, disk: string)
    requires SameDisk(a, b, disk) && AtMostOnce(b, disk) && Holds(b, disk)
    ensures Holds(a, disk) && LastMatch(a, disk) == LastMatch(b, disk)
  {
    HoldsCounts(a, disk);
    HoldsCounts(b, disk);
    var x := LastMatch(a, disk).value;
    assert x in multiset(a);
    OnlySetting(b, disk, x);
  }

  lemma {:induction false} WithoutCounts(settings: seq<DiskSetting>, disk: string, x: DiskSetting)
    ensures multiset(Without(settings, disk))[x] == if x.disk == Some(disk) then 0 else multiset(settings)[x]
  {
    if settings != [] {
      var rest := Without(settings[1..], disk);
      WithoutCounts(settings[1..], disk, x);
      assert settings == [settings[0]] + settings[1..];
      if settings[0].disk != Some(disk) {
        assert Without(settings, disk) == [settings[0]] + rest;
      }
    }
  }

  // ---------------------------------------------------------------- invariant

  /** Some update has the disk of this setting off this VM. */
  predicate Taken(workers: seq<Worker>, h: string, x: DiskSetting) {
    exists t :: 0 <= t < |workers| && x.disk == Some(workers[t].disk) && h in workers[t].out
  }

  /** Every VM has the settings it began with, except those that are taken. */
  ghost predicate Placed(workers: seq<Worker>, vms: Vms, start: Vms) {
    && vms.Keys == start.Keys
    && (forall h :: h in start ==> vms[h] == start[h].(settings := vms[h].settings))
    && forall h, x: DiskSetting :: h in start ==>
         multiset(vms[h].settings)[x] == if Taken(workers, h, x) then 0 else multiset(start[h].settings)[x]
  }

  /** What a worker knows is right, and the rest of its script fits it. */
  ghost predicate Ready(w: Worker, held: set<string>, left: set<string>, start: Vms) {
    && Orderly(w.todo, held, w.fetched.Keys, w.out, w.disk, start)
    && LeftOut(w.todo, w.out) == left
    && (forall h :: h in w.fetched ==> h in start && SameDisk(w.fetched[h], start[h].settings, w.disk))
    && (forall h :: h in w.out ==>
          h in start && h in w.details && LastMatch(start[h].settings, w.disk) == Some(w.details[h]))
  }

  predicate DistinctDisks(workers: seq<Worker>) {
    forall t, u :: 0 <= t < u < |workers| ==> workers[t].disk != workers[u].disk
  }

  ghost predicate Sound(m: Machine, left: seq<set<string>>, start: Vms, configured: Filter) {
    && |m.workers| == |m.locks.threads| == |left|
    && DistinctDisks(m.workers) && ValidVms(start)
    && Inv(m.locks, configured)
    && (forall t: nat :: t < |m.workers| ==> m.locks.threads[t].todo == Syncs(m.workers[t].todo))
    && (forall t: nat :: t < |m.workers| ==> Ready(m.workers[t], HeldBy(m.locks.holder, t), left[t], start))
    && Placed(m.workers, m.vms, start)
  }

  /** The disk of an update is on a VM of its list unless the update has it off. */
  lemma DiskIsWhereItShould(m: Machine, left: seq<set<string>>, start: Vms, configured: Filter, t: nat, h: string)
    requires Sound(m, left, start, configured) && t < |m.workers| && h in start
    requires Holds(start[h].settings, m.workers[t].disk)
    ensures h in m.workers[t].out ==> !Holds(m.vms[h].settings, m.workers[t].disk)
    ensures h !in m.workers[t].out ==>
              Holds(m.vms[h].settings, m.workers[t].disk)
              && SameDisk(m.vms[h].settings, start[h].settings, m.workers[t].disk)
  {
    var disk := m.workers[t].disk;
    HoldsCounts(m.vms[h].settings, disk);
    HoldsCounts(start[h].settings, disk);
    forall x: DiskSetting | x.disk == Some(disk) ensures Taken(m.workers, h, x) <==> h in m.workers[t].out {
      if u :| 0 <= u < |m.workers| && x.disk == Some(m.workers[u].disk) && h in m.workers[u].out {
        assert u == t;
      }
    }
  }

  /** No call of an update is ever refused because of the others. */
  lemma CallsSucceed(m: Machine, left: seq<set<string>>, start: Vms, configured: Filter, t: nat)
    requires Sound(m, left, start, configured) && t < |m.workers|
    requires m.workers[t].todo != [] && !m.workers[t].todo[0].Sync?
    ensures CanStep(m, t)
  {
    var w := m.workers[t];
    assert Ready(w, HeldBy(m.locks.holder, t), left[t], start);
    match w.todo[0] {
      case Detach(h) =>
        SameDiskSameMatch(w.fetched[h], start[h].settings, w.disk);
        DiskIsWhereItShould(m, left, start, configured, t, h);
      case AttachBack(h) =>
        DiskIsWhereItShould(m, left, start, configured, t, h);
      case _ =>
    }
  }

  lemma DetachKeepsPlaced(m: Machine, left: seq<set<string>>, start: Vms, configured: Filter, t: nat)
    requires Sound(m, left, start, configured) && CanStep(m, t) && m.workers[t].todo[0].Detach?
    ensures Placed(DoStep(m, t).workers, DoStep(m, t).vms, start)
  {
    hide Inv, Ready, Taken;
    var m', w, h0 := DoStep(m, t), m.workers[t], m.workers[t].todo[0].href;
    forall h, x: DiskSetting | h in start
      ensures multiset(m'.vms[h].settings)[x] == if Taken(m'.workers, h, x) then 0 else multiset(start[h].settings)[x]
    {
      TakenAfter(m.workers, t, m'.workers[t], h, x);
      if h == h0 {
        WithoutCounts(m.vms[h].settings, w.disk, x);
      }
    }
  }

  /** What a step of one worker changes in who has what off. */
  lemma TakenAfter(workers: seq<Worker>, t: nat, w: Worker, h: string, x: DiskSetting)
    requires t < |workers| && w.disk == workers[t].disk && DistinctDisks(workers)
    ensures x.disk == Some(w.disk) ==> (Taken(workers[t := w], h, x) <==> h in w.out)
    ensures x.disk != Some(w.disk) ==> (Taken(workers[t := w], h, x) <==> Taken(workers, h, x))
    ensures x.disk == Some(w.disk) ==> (Taken(workers, h, x) <==> h in workers[t].out)
  {
    var after := workers[t := w];
    if x.disk == Some(w.disk) {
      forall u | 0 <= u < |workers| && u != t
        ensures x.disk != Some(after[u].disk) && x.disk != Some(workers[u].disk)
      {
      }
      assert h in w.out ==> x.disk == Some(after[t].disk) && h in after[t].out;
      assert h in workers[t].out ==> x.disk == Some(workers[t].disk);
    } else {
      assert forall u :: 0 <= u < |workers| && u != t ==> after[u] == workers[u];
    }
  }

  lemma AttachKeepsPlaced(m: Machine, left: seq<set<string>>, start: Vms, configured: Filter, t: nat)
    requires Sound(m, left, start, configured) && CanStep(m, t) && m.workers[t].todo[0].AttachBack?
    ensures Placed(DoStep(m, t).workers, DoStep(m, t).vms, start)
  {
    var m', w, h0 := DoStep(m, t), m.workers[t], m.workers[t].todo[0].href;
    assert Ready(w, HeldBy(m.locks.holder, t), left[t], start);
    var back := w.details[h0];
    assert back == DiskSetting(Some(w.disk), back.bus, back.unit);
    forall h, x: DiskSetting | h in start
      ensures multiset(m'.vms[h].settings)[x] == if Taken(m'.workers, h, x) then 0 else multiset(start[h].settings)[x]
    {
      TakenAfter(m.workers, t, m'.workers[t], h, x);
      if h == h0 {
        assert multiset(m'.vms[h].settings) == multiset(m.vms[h].settings) + multiset{back};
        if x.disk == Some(w.disk) {
          OnlySetting(start[h].settings, w.disk, x);
        }
      }
    }
  }

  lemma OtherStepsKeepPlaced(m: Machine, left: seq<set<string>>, start: Vms, configured: Filter, t: nat)
    requires Sound(m, left, start, configured) && CanStep(m, t)
    requires !m.workers[t].todo[0].Detach? && !m.workers[t].todo[0].AttachBack?
    ensures Placed(DoStep(m, t).workers, DoStep(m, t).vms, start)
  {
    var m' := DoStep(m, t);
    forall h, x: DiskSetting ensures Taken(m'.workers, h, x) <==> Taken(m.workers, h, x) {
      TakenAfter(m.workers, t, m'.workers[t], h, x);
    }
  }

  lemma ReadyAfterSync(w: Worker, held: set<string>, left: set<string>, start: Vms)
    requires w.todo != [] && w.todo[0].Sync? && Ready(w, held, left, start)
    ensures Ready(w.(todo := w.todo[1..]), HeldNext(w.todo[0].op, held), left, start)
  {}

  lemma ReadyAfterFetch(w: Worker, held: set<string>, left: set<string>, start: Vms, settings: seq<DiskSetting>)
    requires w.todo != [] && w.todo[0].Fetch? && Ready(w, held, left, start)
    requires SameDisk(settings, start[w.todo[0].href].settings, w.disk)
    ensures Ready(w.(todo := w.todo[1..], fetched := w.fetched[w.todo[0].href := settings]), held, left, start)
  {
    var h := w.todo[0].href;
    assert w.fetched[h := settings].Keys == w.fetched.Keys + {h};
  }

  lemma ReadyAfterDetach(w: Worker, held: set<string>, left: set<string>, start: Vms)
    requires w.todo != [] && w.todo[0].Detach? && Ready(w, held, left, start) && ValidVms(start)
    ensures var h := w.todo[0].href;
            && Holds(w.fetched[h], w.disk)
            && Ready(w.(todo := w.todo[1..], out := w.out + {h},
                        details := w.details[h := LastMatch(w.fetched[h], w.disk).value]), held, left, start)
  {
    var h := w.todo[0].href;
    SameDiskSameMatch(w.fetched[h], start[h].settings, w.disk);
  }

  lemma ReadyAfterAttach(w: Worker, held: set<string>, left: set<string>, start: Vms)
    requires w.todo != [] && w.todo[0].AttachBack? && Ready(w, held, left, start)
    ensures Ready(w.(todo := w.todo[1..], out := w.out - {w.todo[0].href}), held, left, start)
  {}

  /** The worker that moves stays ready. */
  lemma MoverStaysReady(m: Machine, left: seq<set<string>>, start: Vms, configured: Filter, t: nat)
    requires Sound(m, left, start, configured) && CanStep(m, t)
    ensures var m' := DoStep(m, t);
            && Ready(m'.workers[t], HeldBy(m'.locks.holder, t), left[t], start)
            && m'.workers[t].disk == m.workers[t].disk
  {
    hide Ready;
    hide Placed;
    var w, held := m.workers[t], HeldBy(m.locks.holder, t);
    assert Ready(w, held, left[t], start);
    match w.todo[0] {
      case Sync(op) =>
        HeadOfSyncs(w.todo);
        StepHoldings(m.locks, t, configured);
        ReadyAfterSync(w, held, left[t], start);
      case Fetch(h) =>
        FetchedIsRight(m, left, start, configured, t);
        ReadyAfterFetch(w, held, left[t], start, m.vms[h].settings);
      case Detach(h) =>
        ReadyAfterDetach(w, held, left[t], start);
      case ResizeDisk =>
        ReadyAfterResize(w, held, left[t], start);
      case AttachBack(h) =>
        ReadyAfterAttach(w, held, left[t], start);
    }
  }

  lemma HeadOfSyncs(todo: seq<Step>)
    requires todo != [] && todo[0].Sync?
    ensures Syncs(todo) != [] && Syncs(todo)[0] == todo[0].op && Syncs(todo)[1..] == Syncs(todo[1..])
  {}

  lemma ReadyAfterResize(w: Worker, held: set<string>, left: set<string>, start: Vms)
    requires w.todo != [] && w.todo[0].ResizeDisk? && Ready(w, held, left, start)
    ensures Ready(w.(todo := w.todo[1..]), held, left, start)
  {}

  lemma FetchedIsRight(m: Machine, left: seq<set<string>>, start: Vms, configured: Filter, t: nat)
    requires Sound(m, left, start, configured) && CanStep(m, t) && m.workers[t].todo[0].Fetch?
    ensures var w, h := m.workers[t], m.workers[t].todo[0].href;
            h in start && SameDisk(m.vms[h].settings, start[h].settings, w.disk)
  {
    var w, h := m.workers[t], m.workers[t].todo[0].href;
    assert Ready(w, HeldBy(m.locks.holder, t), left[t], start);
    forall x: DiskSetting | x.disk == Some(w.disk)
      ensures multiset(m.vms[h].settings)[x] == multiset(start[h].settings)[x]
    {
      TakenAfter(m.workers, t, w, h, x);
      assert m.workers[t := w] == m.workers;
    }
  }

  lemma LocksAfter(m: Machine, left: seq<set<string>>, start: Vms, configured: Filter, t: nat)
    requires Sound(m, left, start, configured) && CanStep(m, t)
    ensures var m' := DoStep(m, t);
            && Inv(m'.locks, configured) && |m'.workers| == |m'.locks.threads| == |m.workers|
            && (forall u: nat :: u < |m'.workers| ==> m'.locks.threads[u].todo == Syncs(m'.workers[u].todo))
            && (forall u: nat :: u < |m'.workers| && u != t ==>
                  m'.workers[u] == m.workers[u] && HeldBy(m'.locks.holder, u) == HeldBy(m.locks.holder, u))
  {
    var w := m.workers[t];
    assert m.locks.threads[t].todo == Syncs(w.todo);
    if w.todo[0].Sync? {
      assert Syncs(w.todo)[1..] == Syncs(w.todo[1..]);
      StepKeepsInv(m.locks, t, configured);
      StepHoldings(m.locks, t, configured);
    }
  }

  lemma StepKeepsSound(m: Machine, left: seq<set<string>>, start: Vms, configured: Filter, t: nat)
    requires Sound(m, left, start, configured) && CanStep(m, t)
    ensures Sound(DoStep(m, t), left, start, configured)
  {
    var m' := DoStep(m, t);
    LocksAfter(m, left, start, configured, t);
    MoverStaysReady(m, left, start, configured, t);
    if m.workers[t].todo[0].Detach? {
      DetachKeepsPlaced(m, left, start, configured, t);
    } else if m.workers[t].todo[0].AttachBack? {
      AttachKeepsPlaced(m, left, start, configured, t);
    } else {
      OtherStepsKeepPlaced(m, left, start, configured, t);
    }
    forall u: nat | u < |m'.workers| ensures Ready(m'.workers[u], HeldBy(m'.locks.holder, u), left[u], start) {
      if u != t {
        assert Ready(m.workers[u], HeldBy(m.locks.holder, u), left[u], start);
      }
    }
  }

  lemma {:induction false} RunKeepsSound(m: Machine, left: seq<set<string>>, start: Vms, configured: Filter,
                                         schedule: seq<nat>)
    requires Sound(m, left, start, configured) && LegalRun(m, schedule)
    ensures Sound(After(m, schedule), left, start, configured)
    ensures |After(m, schedule).workers| == |m.workers|
    decreases |schedule|
  {
    if schedule != [] {
      StepKeepsSound(m, left, start, configured, schedule[0]);
      RunKeepsSound(DoStep(m, schedule[0]), left, start, configured, schedule[1..]);
    }
  }

  // ------------------------------------------------------------ main theorems

  /** Updates of different disks, each listing exactly different VMs that have its disk. */
  ghost predicate GoodStart(jobs: seq<Job>, vms: Vms) {
    && ValidJobs(jobs) && ValidVms(vms)
    && (forall t, u :: 0 <= t < u < |jobs| ==> jobs[t].disk != jobs[u].disk)
    && (forall t :: 0 <= t < |jobs| ==> AttachedEverywhere(jobs[t].hrefs, jobs[t].disk, vms))
  }

  /** One more update can start with the others when its disk is another one. */
  lemma GoodStartMeans(jobs: seq<Job>, job: Job, vms: Vms)
    ensures ValidVms(vms) ==> GoodStart([], vms)
    ensures GoodStart(jobs, vms) && ValidJob(job) && AttachedEverywhere(job.hrefs, job.disk, vms)
            && (forall j :: j in jobs ==> j.disk != job.disk) ==>
              GoodStart(jobs + [job], vms)
  {}

  /** The VMs that each update leaves without its disk: none if it makes all its calls. */
  function LeftBy(jobs: seq<Job>): (left: seq<set<string>>)
    requires ValidJobs(jobs)
  {
    seq(|jobs|, t requires 0 <= t < |jobs| => LeftOut(Steps(jobs[t]), {}))
  }

  lemma BeginIsSound(jobs: seq<Job>, vms: Vms, configured: Filter)
    requires GoodStart(jobs, vms)
    ensures Sound(Begin(jobs, vms, configured), LeftBy(jobs), vms, configured)
    ensures forall t: nat :: !DoomedThread(Begin(jobs, vms, configured).locks, t)
  {
    var m, tasks := Begin(jobs, vms, configured), LockTasks(jobs);
    ScriptsFollowOrder(tasks);
    InitEstablishesInv(Scripts(tasks), configured);
    forall t: nat | t < |jobs|
      ensures m.locks.threads[t].todo == Syncs(m.workers[t].todo)
      ensures Ready(m.workers[t], HeldBy(m.locks.holder, t), LeftBy(jobs)[t], vms)
      ensures !DoomedThread(m.locks, t)
    {
      StepsAreOrderly(jobs[t], vms);
      SyncsOfSteps(jobs[t]);
      assert HeldBy(m.locks.holder, t) == {} && m.workers[t].fetched.Keys == {};
    }
    forall h, x: DiskSetting ensures !Taken(m.workers, h, x) {}
  }

  lemma {:induction false} RunKeepsUndoomed(m: Machine, left: seq<set<string>>, start: Vms, configured: Filter,
                                            schedule: seq<nat>)
    requires Sound(m, left, start, configured) && LegalRun(m, schedule)
    requires forall t: nat :: !DoomedThread(m.locks, t)
    ensures forall t: nat :: !DoomedThread(After(m, schedule).locks, t)
    decreases |schedule|
  {
    if schedule != [] {
      var t, m' := schedule[0], DoStep(m, schedule[0]);
      StepKeepsSound(m, left, start, configured, t);
      forall u: nat ensures !DoomedThread(m'.locks, u) {
        assert !DoomedThread(m.locks, u);
        if m.workers[t].todo[0].Sync? && u < |m.locks.threads| {
          StepKeepsDoom(m.locks, t, u, configured);
        }
      }
      RunKeepsUndoomed(m', left, start, configured, schedule[1..]);
    }
  }

  /** The VM that a worker's next call is about. */
  function NextVm(m: Machine, t: nat): Option<string> {
    if t < |m.workers| && m.workers[t].todo != [] then
      match m.workers[t].todo[0]
      case Fetch(h) => Some(h)
      case Detach(h) => Some(h)
      case AttachBack(h) => Some(h)
      case _ => None
    else None
  }

  /** In every run every call about a VM is made by the one update that holds the VM's key,
      and no call is refused because of the other updates. */
  lemma CallsAreUnderTheirKey(jobs: seq<Job>, vms: Vms, configured: Filter, schedule: seq<nat>, t: nat)
    requires GoodStart(jobs, vms) && LegalRun(Begin(jobs, vms, configured), schedule)
    requires NextVm(After(Begin(jobs, vms, configured), schedule), t).Some?
    ensures var m := After(Begin(jobs, vms, configured), schedule);
            var key := VmKey(NextVm(m, t).value);
            key in m.locks.holder && m.locks.holder[key] == t && CanStep(m, t)
  {
    var m0 := Begin(jobs, vms, configured);
    var m := After(m0, schedule);
    BeginIsSound(jobs, vms, configured);
    RunKeepsSound(m0, LeftBy(jobs), vms, configured, schedule);
    assert Ready(m.workers[t], HeldBy(m.locks.holder, t), LeftBy(jobs)[t], vms);
    CallsSucceed(m, LeftBy(jobs), vms, configured, t);
  }

  /** In every state of every run each VM has exactly the settings it began with, except
      those of the disks that are off it at the moment. */
  lemma EverySettingIsAccountedFor(jobs: seq<Job>, vms: Vms, configured: Filter, schedule: seq<nat>)
    requires GoodStart(jobs, vms) && LegalRun(Begin(jobs, vms, configured), schedule)
    ensures Placed(After(Begin(jobs, vms, configured), schedule).workers,
                   After(Begin(jobs, vms, configured), schedule).vms, vms)
  {
    BeginIsSound(jobs, vms, configured);
    RunKeepsSound(Begin(jobs, vms, configured), LeftBy(jobs), vms, configured, schedule);
  }

  /** Conservation over all interleavings: when every update has ended, no key is held and
      the filter is configured, and the only settings missing anywhere are those of disks
      whose update was cut short between a detach and its attach. */
  lemma UpdatesConserve(jobs: seq<Job>, vms: Vms, configured: Filter, schedule: seq<nat>)
    requires GoodStart(jobs, vms) && LegalRun(Begin(jobs, vms, configured), schedule)
    requires AllDone(After(Begin(jobs, vms, configured), schedule))
    ensures var m := After(Begin(jobs, vms, configured), schedule);
            && m.locks.holder == map[] && m.locks.filter == configured
            && m.vms.Keys == vms.Keys
            && (forall h, x: DiskSetting :: h in vms ==>
                  multiset(m.vms[h].settings)[x]
                  == if exists t :: 0 <= t < |jobs| && x.disk == Some(jobs[t].disk) && h in LeftBy(jobs)[t]
                     then 0 else multiset(vms[h].settings)[x])
  {
    var m0 := Begin(jobs, vms, configured);
    var m := After(m0, schedule);
    BeginIsSound(jobs, vms, configured);
    RunKeepsSound(m0, LeftBy(jobs), vms, configured, schedule);
    RunKeepsDisks(m0, schedule);
    forall t: nat | t < |jobs| ensures m.workers[t].out == LeftBy(jobs)[t] && m.workers[t].disk == jobs[t].disk {
      assert Ready(m.workers[t], HeldBy(m.locks.holder, t), LeftBy(jobs)[t], vms);
    }
    forall h, x: DiskSetting
      ensures Taken(m.workers, h, x)
              <==> exists t :: 0 <= t < |jobs| && x.disk == Some(jobs[t].disk) && h in LeftBy(jobs)[t]
    {
    }
    DoneLocksAreFree(m, LeftBy(jobs), vms, configured);
  }

  lemma {:induction false} RunKeepsDisks(m: Machine, schedule: seq<nat>)
    requires LegalRun(m, schedule)
    ensures |After(m, schedule).workers| == |m.workers|
    ensures forall t :: 0 <= t < |m.workers| ==> After(m, schedule).workers[t].disk == m.workers[t].disk
    decreases |schedule|
  {
    if schedule != [] {
      RunKeepsDisks(DoStep(m, schedule[0]), schedule[1..]);
    }
  }

  lemma DoneLocksAreFree(m: Machine, left: seq<set<string>>, start: Vms, configured: Filter)
    requires Sound(m, left, start, configured) && AllDone(m)
    ensures m.locks.holder == map[] && m.locks.filter == configured
  {
    forall t: nat | t < |m.workers| ensures HeldBy(m.locks.holder, t) == {} && !InSection(m.locks.threads[t].todo) {
      assert Disciplined(m.locks.threads[t].todo, HeldBy(m.locks.holder, t));
    }
    assert forall k :: k in m.locks.holder ==> k in HeldBy(m.locks.holder, m.locks.holder[k]);
  }

  /** In particular, when every update makes all its calls, every VM ends with its disks at
      the bus and unit numbers where they were. */
  lemma CompleteUpdatesRestoreEverything(jobs: seq<Job>, vms: Vms, configured: Filter, schedule: seq<nat>)
    requires GoodStart(jobs, vms) && LegalRun(Begin(jobs, vms, configured), schedule)
    requires AllDone(After(Begin(jobs, vms, configured), schedule))
    requires forall t :: 0 <= t < |jobs| ==> Complete(jobs[t])
    ensures SamePlacement(vms, After(Begin(jobs, vms, configured), schedule).vms)
  {
    var m := After(Begin(jobs, vms, configured), schedule);
    UpdatesConserve(jobs, vms, configured, schedule);
    EverySettingIsAccountedFor(jobs, vms, configured, schedule);
    forall t | 0 <= t < |jobs| ensures LeftBy(jobs)[t] == {} {
      CompleteLeavesNothingOut(jobs[t], vms);
    }
    forall h | h in vms ensures multiset(m.vms[h].settings) == multiset(vms[h].settings) {
      assert forall x: DiskSetting :: multiset(m.vms[h].settings)[x] == multiset(vms[h].settings)[x];
    }
  }

  function TotalSteps(workers: seq<Worker>): nat {
    if workers == [] then 0 else |workers[0].todo| + TotalSteps(workers[1..])
  }

  lemma {:induction false} TotalStepsUpdate(workers: seq<Worker>, t: nat, w: Worker)
    requires t < |workers|
    ensures TotalSteps(workers[t := w]) == TotalSteps(workers) - |workers[t].todo| + |w.todo|
  {
    if t > 0 {
      assert workers[t := w][1..] == workers[1..][t - 1 := w];
      TotalStepsUpdate(workers[1..], t - 1, w);
    }
  }

  lemma {:induction false} RunUsesSteps(m: Machine, schedule: seq<nat>)
    requires LegalRun(m, schedule)
    ensures |schedule| + TotalSteps(After(m, schedule).workers) == TotalSteps(m.workers)
    decreases |schedule|
  {
    if schedule != [] {
      var t, m' := schedule[0], DoStep(m, schedule[0]);
      assert m'.workers == m.workers[t := m'.workers[t]];
      TotalStepsUpdate(m.workers, t, m'.workers[t]);
      RunUsesSteps(m', schedule[1..]);
    }
  }

  /** Every run is bounded, and one that cannot go on has ended with every update done: no
      update waits for ever, for a key or for a call. */
  lemma UpdatesFinish(jobs: seq<Job>, vms: Vms, configured: Filter, schedule: seq<nat>)
    requires GoodStart(jobs, vms) && LegalRun(Begin(jobs, vms, configured), schedule)
    ensures var m := After(Begin(jobs, vms, configured), schedule);
            && |schedule| <= TotalSteps(Begin(jobs, vms, configured).workers)
            && ((forall t: nat :: !CanStep(m, t)) ==> AllDone(m))
  {
    hide After, LegalRun, TotalSteps, Sound;
    var m0 := Begin(jobs, vms, configured);
    var m := After(m0, schedule);
    RunUsesSteps(m0, schedule);
    BeginIsSound(jobs, vms, configured);
    RunKeepsSound(m0, LeftBy(jobs), vms, configured, schedule);
    RunKeepsUndoomed(m0, LeftBy(jobs), vms, configured, schedule);
    if forall t: nat :: !CanStep(m, t) {
      StuckOnlyWhenDone(m, LeftBy(jobs), vms, configured);
    }
  }

  lemma StuckOnlyWhenDone(m: Machine, left: seq<set<string>>, start: Vms, configured: Filter)
    requires Sound(m, left, start, configured)
    requires (forall t: nat :: !CanStep(m, t)) && (forall t: nat :: !DoomedThread(m.locks, t))
    ensures AllDone(m)
  {
    if !AllDone(m) {
      StuckIsDeadlock(m, left, start, configured);
      DeadlockNeedsDoomedThread(m.locks, configured);
    }
  }

  lemma StuckIsDeadlock(m: Machine, left: seq<set<string>>, start: Vms, configured: Filter)
    requires Sound(m, left, start, configured) && (forall t: nat :: !CanStep(m, t)) && !AllDone(m)
    ensures Deadlocked(m.locks)
  {
    forall t: nat | t < |m.workers|
      ensures m.workers[t].todo != [] ==> m.locks.threads[t].todo != []
      ensures !Enabled(m.locks, t)
    {
      assert !CanStep(m, t);
      if m.workers[t].todo != [] {
        if m.workers[t].todo[0].Sync? {
          HeadOfSyncs(m.workers[t].todo);
        } else {
          CallsSucceed(m, left, start, configured, t);
        }
      }
    }
  }
}
