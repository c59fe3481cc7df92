/**
 Any number of threads in any number of processes carry out calls one file write at a time.  Locks keep two
 calls off one epoch, except that a creation takes only the lock of its own process.  Every interleaving of
 the single writes is equivalent to a run of whole attempts, so what is proved of runs holds of interleavings.
 A call loads and decides in one step: while it holds the locks nobody writes what it reads, and a creation in
 another process makes an epoch readable with its last write.
 */
module EpochInterleaving {
  import opened Wrappers
  import opened EpochDocuments
  import opened EpochLoad
  import opened EpochCalls
  import opened EpochCrash
  import opened EpochAtomicity
  import opened EpochRuns
  import EpochLocks

  /** A call at work: what it decided, how many of its writes have landed, and its place in the log. */
  datatype Job = Job(process: nat, epoch: Ref, call: Call, decision: Decision, written: nat, at: nat)

  /** A success that a finished call has reported. */
  datatype Report = Report(at: nat, reply: Reply)

  /**
   The store and the calls at work, by thread.  The log is a record only: every call that was not refused, in
   the order of their starts, cut at the writes that have landed so far.
   */
  datatype World = World(store: Store, jobs: map<nat, Job>, log: seq<Attempt>, reports: seq<Report>)

  datatype Move =
    | Start(thread: nat, process: nat, epoch: Ref, call: Call)
    | WriteNext(thread: nat)
    | Finish(thread: nat)

  // ---- Steps ----

  function Needs(e: Ref, call: Call): set<Ref> {
    if call.Supersede? then (if call.successor == e then {} else {e, call.successor}) else {e}
  }

  /** A call at work keeps another from starting: they share an epoch, and a lock on it. */
  predicate Excludes(job: Job, process: nat, e: Ref, call: Call) {
    && Needs(job.epoch, job.call) * Needs(e, call) != {}
    && (job.process == process || (!job.call.Create? && !call.Create?))
  }

  // ---- The rule is that of the locks ----

  /** What a call asks of the locks. */
  function TaskOf(e: Ref, call: Call): EpochLocks.Task {
    match call
    case Create(_, _, _) => EpochLocks.Creation(e)
    case Supersede(successor) => EpochLocks.Pair(e, successor)
    case _ => EpochLocks.Single(e)
  }

  function PlanOf(process: nat, e: Ref, call: Call): seq<EpochLocks.Lock> {
    EpochLocks.Plan(process, TaskOf(e, call))
  }

  lemma PlanLocks(process: nat, e: Ref, call: Call, l: EpochLocks.Lock)
    ensures l in PlanOf(process, e, call) <==>
            && l.epoch in Needs(e, call)
            && if l.InProcess? then l.process == process else !call.Create?
  {
    var plan := PlanOf(process, e, call);
    if call.Supersede? && call.successor != e {
      var a, b := EpochLocks.EpochLock(process, e), EpochLocks.EpochLock(process, call.successor);
      assert plan == a + b || plan == b + a;
      assert l in plan <==> l in a || l in b;
    }
  }

  /** One call excludes another exactly if their plans share a lock. */
  lemma ExcludesIff(job: Job, process: nat, e: Ref, call: Call)
    ensures Excludes(job, process, e, call) <==>
            exists l :: l in PlanOf(job.process, job.epoch, job.call) && l in PlanOf(process, e, call)
  {
    hide Needs, PlanOf;
    if Excludes(job, process, e, call) {
      var x :| x in Needs(job.epoch, job.call) * Needs(e, call);
      var l := if job.process == process then EpochLocks.InProcess(process, x) else EpochLocks.OnFile(x);
      PlanLocks(job.process, job.epoch, job.call, l);
      PlanLocks(process, e, call, l);
    }
    if l :| l in PlanOf(job.process, job.epoch, job.call) && l in PlanOf(process, e, call) {
      PlanLocks(job.process, job.epoch, job.call, l);
      PlanLocks(process, e, call, l);
      assert l.epoch in Needs(job.epoch, job.call) * Needs(e, call);
    }
  }

  /** A thread holds every lock of its current call. */
  predicate AtWork(t: EpochLocks.Thread, e: Ref, call: Call) {
    EpochLocks.Live(t) && t.tasks[0] == TaskOf(e, call) && t.held == |EpochLocks.Locks(t)|
  }

  lemma WorksOnNeeds(t: EpochLocks.Thread, e: Ref, call: Call, x: Ref)
    requires AtWork(t, e, call) && x in Needs(e, call)
    ensures EpochLocks.WorksOn(t, x)
  {
  }

  /** Under every schedule of the locks, calls that are at work at once do not exclude each other. */
  lemma LocksExclude(c: EpochLocks.Config, steps: seq<nat>, i: nat, j: nat, job: Job, e: Ref, call: Call)
    requires EpochLocks.Initial(c) && i < |EpochLocks.Schedule(c, steps)| && j < |EpochLocks.Schedule(c, steps)| && i != j
    requires var now := EpochLocks.Schedule(c, steps);
             && AtWork(now[i], job.epoch, job.call) && now[i].process == job.process && AtWork(now[j], e, call)
    ensures !Excludes(job, EpochLocks.Schedule(c, steps)[j].process, e, call)
  {
    hide Needs;
    var now := EpochLocks.Schedule(c, steps);
    if Excludes(job, now[j].process, e, call) {
      var x :| x in Needs(job.epoch, job.call) * Needs(e, call);
      WorksOnNeeds(now[i], job.epoch, job.call, x);
      WorksOnNeeds(now[j], e, call, x);
      if i < j {
        EpochLocks.WorkIsExclusive(c, steps, i, j, x);
      } else {
        EpochLocks.WorkIsExclusive(c, steps, j, i, x);
      }
    }
  }

  predicate CanStart(w: World, thread: nat, process: nat, e: Ref, call: Call) {
    thread !in w.jobs && forall i :: i in w.jobs ==> !Excludes(w.jobs[i], process, e, call)
  }

  function WritesOf(decision: Decision): seq<Write> {
    match decision
    case Persist(writes, _) => writes
    case Stuck(writes) => writes
    case _ => []
  }

  /** Load, decide, and for a creation make the directories. */
  function StartCall(w: World, thread: nat, process: nat, e: Ref, call: Call): World {
    var decision := Decide(w.store, e, call);
    World(Effect(w.store, e, decision, 0).0,
          w.jobs[thread := Job(process, e, call, decision, 0, |w.log|)],
          if decision.Refuse? then w.log else w.log + [Attempt(e, call, 0)],
          w.reports)
  }

  predicate CanWrite(w: World, thread: nat) {
    && thread in w.jobs && w.jobs[thread].written < |WritesOf(w.jobs[thread].decision)|
    && w.jobs[thread].at < |w.log|
  }

  function WriteOne(w: World, thread: nat): World
    requires CanWrite(w, thread)
  {
    var job := w.jobs[thread];
    var next := WritesOf(job.decision)[job.written];
    World(w.store[job.epoch := Base(w.store, job.epoch)[next.file := next.doc]],
          w.jobs[thread := job.(written := job.written + 1)],
          w.log[job.at := Attempt(job.epoch, job.call, job.written + 1)],
          w.reports)
  }

  /** What a call reports if it finishes now: it crashed, it failed, or it wrote everything and reloads. */
  function Outcome(store: Store, job: Job): Result {
    match job.decision
    case Answer(reply) => Done(reply)
    case Persist(writes, reply) =>
      if job.written == |writes| && job.epoch in store && Load(job.epoch, store[job.epoch]).Some? then Done(reply) else Failed
    case _ => Failed
  }

  function FinishCall(w: World, thread: nat): World
    requires thread in w.jobs
  {
    var job := w.jobs[thread];
    var result := Outcome(w.store, job);
    World(w.store, w.jobs - {thread}, w.log,
          if result.Done? then w.reports + [Report(job.at, result.reply)] else w.reports)
  }

  /** A move that is not possible is skipped. */
  function Step(w: World, move: Move): World {
    match move
    case Start(thread, process, e, call) =>
      if CanStart(w, thread, process, e, call) then StartCall(w, thread, process, e, call) else w
    case WriteNext(thread) => if CanWrite(w, thread) then WriteOne(w, thread) else w
    case Finish(thread) => if thread in w.jobs then FinishCall(w, thread) else w
  }

  function Play(store: Store, moves: seq<Move>): World {
    if moves == [] then World(store, map[], [], [])
    else Step(Play(store, moves[..|moves| - 1]), moves[|moves| - 1])
  }

  // ---- Attempts on other epochs ----

  predicate Touches(a: Attempt, e: Ref) {
    e in Needs(a.epoch, a.call)
  }

  lemma DecideElsewhere(store: Store, e: Ref, d: Disk, x: Ref, call: Call)
    requires e in store && e !in Needs(x, call)
    ensures Decide(store[e := d], x, call) == Decide(store, x, call)
  {
    hide Load, DecideLoaded, DecideSupersede, RefOk, PrivateOk;
  }

  /** A call that is not refused needs its own epoch. */
  lemma NeedsItself(store: Store, e: Ref, call: Call)
    ensures !Decide(store, e, call).Refuse? ==> e in Needs(e, call)
  {
    hide Load, DecideLoaded, DecideSupersede, RefOk, PrivateOk, CreateWrites;
  }

  lemma PerformElsewhere(store: Store, e: Ref, d: Disk, a: Attempt)
    requires e in store && !Touches(a, e)
    ensures var one, other := Perform(store, a.epoch, a.call, a.cut), Perform(store[e := d], a.epoch, a.call, a.cut);
            && e in one.0 && one.0[e] == store[e]
            && other.0 == one.0[e := d] && other.1 == one.1
  {
    hide Load, Decide;
    DecideElsewhere(store, e, d, a.epoch, a.call);
    NeedsItself(store, a.epoch, a.call);
    var decision := Decide(store, a.epoch, a.call);
    match decision {
      case Persist(writes, _) => SwapUpdates(store, e, d, a.epoch, Apply(Base(store, a.epoch), writes[..Min(a.cut, |writes|)]));
      case Stuck(writes) => SwapUpdates(store, e, d, a.epoch, Apply(Base(store, a.epoch), writes[..Min(a.cut, |writes|)]));
      case Refuse =>
      case Answer(_) =>
    }
  }

  lemma SwapUpdates(store: Store, e: Ref, d: Disk, x: Ref, y: Disk)
    requires e != x
    ensures store[e := d][x := y] == store[x := y][e := d]
  {
  }

  /** One more landed write of an attempt, as an update of the store after it. */
  lemma OneMoreWrite(store: Store, e: Ref, call: Call, cut: nat)
    requires cut < |WritesOf(Decide(store, e, call))|
    ensures var next := WritesOf(Decide(store, e, call))[cut];
            var after := Perform(store, e, call, cut).0;
            && e in after
            && Perform(store, e, call, cut + 1).0 == after[e := after[e][next.file := next.doc]]
  {
    hide Load, Decide;
    PrefixStep(Base(store, e), WritesOf(Decide(store, e, call)), cut);
  }

  // ---- The log replays ----

  lemma SameUpTo(store: Store, log: seq<Attempt>, other: seq<Attempt>, n: nat)
    requires n <= |log| && n <= |other| && log[..n] == other[..n]
    ensures StoreAt(store, log, n) == StoreAt(store, other, n)
    ensures n < |log| && n < |other| && log[n] == other[n] ==> ResultAt(store, log, n) == ResultAt(store, other, n)
  {
  }

  lemma Whole(store: Store, log: seq<Attempt>)
    ensures StoreAt(store, log, |log|) == Run(store, log)
  {
    assert log[..|log|] == log;
  }

  /** An epoch stays as it is while the attempts do not touch it. */
  lemma {:induction false} Untouched(store: Store, log: seq<Attempt>, e: Ref, k: nat, n: nat)
    requires k <= n <= |log| && e in StoreAt(store, log, k)
    requires forall m :: k <= m < n ==> !Touches(log[m], e)
    ensures e in StoreAt(store, log, n) && StoreAt(store, log, n)[e] == StoreAt(store, log, k)[e]
    decreases n - k
  {
    hide Perform, Touches;
    if k < n {
      Untouched(store, log, e, k, n - 1);
      StoreStep(store, log, n - 1);
      PerformElsewhere(StoreAt(store, log, n - 1), e, map[], log[n - 1]);
    }
  }

  /** Letting one more write of attempt `k` land changes nothing in the later attempts but that one document. */
  lemma {:induction false} Lands(store: Store, log: seq<Attempt>, k: nat, n: nat)
    requires k < n <= |log|
    requires var a := log[k]; a.cut < |WritesOf(Decide(StoreAt(store, log, k), a.epoch, a.call))|
    requires forall m :: k < m < |log| ==> !Touches(log[m], log[k].epoch)
    ensures var a := log[k];
            var next := WritesOf(Decide(StoreAt(store, log, k), a.epoch, a.call))[a.cut];
            var longer := log[k := a.(cut := a.cut + 1)];
            var was := StoreAt(store, log, n);
            && a.epoch in was
            && StoreAt(store, longer, n) == was[a.epoch := was[a.epoch][next.file := next.doc]]
            && (n < |log| ==> ResultAt(store, longer, n) == ResultAt(store, log, n))
            && (n < |log| ==>
                  Decide(StoreAt(store, longer, n), log[n].epoch, log[n].call) == Decide(was, log[n].epoch, log[n].call))
    decreases n
  {
    hide Perform, Touches, Decide, WritesOf;
    var a := log[k];
    var longer := log[k := a.(cut := a.cut + 1)];
    StoreStep(store, log, n - 1);
    StoreStep(store, longer, n - 1);
    if n == k + 1 {
      SameUpTo(store, log, longer, k);
      OneMoreWrite(StoreAt(store, log, k), a.epoch, a.call, a.cut);
    } else {
      Lands(store, log, k, n - 1);
      var before := StoreAt(store, log, n - 1);
      PerformElsewhere(before, a.epoch, StoreAt(store, longer, n - 1)[a.epoch], log[n - 1]);
    }
    if n < |log| {
      var was := StoreAt(store, log, n);
      PerformElsewhere(was, a.epoch, StoreAt(store, longer, n)[a.epoch], log[n]);
      assert a.epoch !in Needs(log[n].epoch, log[n].call) by { assert !Touches(log[n], a.epoch); Touching(log[n], a.epoch); }
      DecideElsewhere(was, a.epoch, StoreAt(store, longer, n)[a.epoch], log[n].epoch, log[n].call);
    }
  }

  lemma Touching(a: Attempt, e: Ref)
    ensures Touches(a, e) <==> e in Needs(a.epoch, a.call)
  {
  }

  // ---- The invariant ----

  /** The call may still write, or holds its epoch's file lock. */
  predicate Guarded(job: Job) {
    !job.call.Create? || job.written < |WritesOf(job.decision)|
  }

  /** The log knows a call at work: where it stands, what it decided there, and that nobody came between. */
  predicate Logged(store: Store, log: seq<Attempt>, job: Job) {
    && job.at < |log| && log[job.at] == Attempt(job.epoch, job.call, job.written)
    && Decide(StoreAt(store, log, job.at), job.epoch, job.call) == job.decision
    && job.written <= |WritesOf(job.decision)|
    && (Guarded(job) ==> forall m :: job.at < m < |log| ==> !Touches(log[m], job.epoch))
  }

  ghost predicate Serial(store: Store, w: World) {
    && Run(store, w.log) == w.store
    && (forall i :: i in w.jobs && !w.jobs[i].decision.Refuse? ==> Logged(store, w.log, w.jobs[i]))
    && (forall i, j :: i in w.jobs && j in w.jobs && i != j && w.jobs[i].at == w.jobs[j].at ==>
          w.jobs[i].decision.Refuse? || w.jobs[j].decision.Refuse?)
    && (forall r :: r in w.reports ==>
          && r.at < |w.log| && ResultAt(store, w.log, r.at) == Done(r.reply)
          && forall i :: i in w.jobs && !w.jobs[i].decision.Refuse? ==> w.jobs[i].at != r.at)
    && (forall p, q :: 0 <= p < q < |w.reports| ==> w.reports[p].at != w.reports[q].at)
  }

  // ---- A call starts ----

  /** Where a call at work stands, its epoch is on disk. */
  lemma JobOnDisk(store: Store, log: seq<Attempt>, job: Job)
    requires Logged(store, log, job) && !job.decision.Refuse? && Guarded(job)
    ensures var now := Run(store, log);
            && job.epoch in now
            && now[job.epoch] == Perform(StoreAt(store, log, job.at), job.epoch, job.call, job.written).0[job.epoch]
  {
    hide Perform, Decide, Guarded, WritesOf, Load;
    StoreStep(store, log, job.at);
    OnDiskAfter(StoreAt(store, log, job.at), job.epoch, job.call, job.written);
    Untouched(store, log, job.epoch, job.at + 1, |log|);
    Whole(store, log);
  }

  lemma OnDiskAfter(store: Store, e: Ref, call: Call, cut: nat)
    requires !Decide(store, e, call).Refuse?
    ensures e in Perform(store, e, call, cut).0
  {
    hide Load, DecideLoaded, DecideSupersede, CreateWrites, RefOk, PrivateOk;
  }

  /** No call that is not refused starts on an epoch that another call guards. */
  lemma NobodyComesBetween(store: Store, w: World, i: nat, thread: nat, process: nat, e: Ref, call: Call)
    requires Serial(store, w) && CanStart(w, thread, process, e, call)
    requires i in w.jobs && !w.jobs[i].decision.Refuse? && Guarded(w.jobs[i])
    requires w.jobs[i].epoch in Needs(e, call)
    ensures Decide(w.store, e, call).Refuse?
  {
    hide Perform, Decide, WritesOf, Load, Run, CreateWrites;
    var job := w.jobs[i];
    JobOnDisk(store, w.log, job);
    NeedsItself(StoreAt(store, w.log, job.at), job.epoch, job.call);
    assert job.epoch in Needs(job.epoch, job.call) * Needs(e, call);
    if call.Create? {
      TakenRefuses(w.store, e, call);
    } else {
      assert job.call.Create? && job.written < |WritesOf(job.decision)|;
      HalfCreated(StoreAt(store, w.log, job.at), job.epoch, job.call, job.written);
      UnreadableRefuses(w.store, job.epoch, call);
      UnreadableSuccessorRefuses(w.store, e, job.epoch);
      SupersedeNeeds(w.store, e, call, job.epoch);
    }
  }

  lemma TakenRefuses(store: Store, e: Ref, call: Call)
    requires e in store && call.Create?
    ensures Decide(store, e, call).Refuse?
  {
  }

  lemma SupersedeNeeds(store: Store, e: Ref, call: Call, x: Ref)
    requires x in Needs(e, call)
    ensures x == e || call == Supersede(x)
  {
  }

  lemma HalfCreated(store: Store, e: Ref, call: Call, cut: nat)
    requires call.Create? && cut < |WritesOf(Decide(store, e, call))|
    ensures var after := Perform(store, e, call, cut).0; e in after && Load(e, after[e]).None?
  {
    hide Load, CreateWrites, RefOk, PrivateOk;
    CreateCount(e, call.authority, call.identities, call.supersedes);
    CreateAtomic(store, e, call, cut);
  }

  lemma LoggedGrows(store: Store, log: seq<Attempt>, job: Job, a: Attempt)
    requires Logged(store, log, job) && (Guarded(job) ==> !Touches(a, job.epoch))
    ensures Logged(store, log + [a], job)
  {
    hide Decide, Touches, WritesOf, Run;
    assert (log + [a])[..job.at] == log[..job.at];
  }

  lemma StartKeeps(store: Store, w: World, thread: nat, process: nat, e: Ref, call: Call)
    requires Serial(store, w) && CanStart(w, thread, process, e, call)
    ensures Serial(store, StartCall(w, thread, process, e, call))
  {
    hide Decide, Logged, CanStart, Touches, Run, Perform;
    var decision := Decide(w.store, e, call);
    var w', a := StartCall(w, thread, process, e, call), Attempt(e, call, 0);
    FreeThread(w, thread, process, e, call);
    if decision.Refuse? {
      RefusalKeeps(store, w, w', thread);
    } else {
      Appended(store, w.log, a);
      Performs(w.store, e, call);
      forall i | i in w.jobs && !w.jobs[i].decision.Refuse?
        ensures Logged(store, w'.log, w.jobs[i]) && w.jobs[i].at < |w.log|
      {
        InLog(store, w.log, w.jobs[i]);
        if Guarded(w.jobs[i]) && Touches(a, w.jobs[i].epoch) {
          Touching(a, w.jobs[i].epoch);
          NobodyComesBetween(store, w, i, thread, process, e, call);
        }
        LoggedGrows(store, w.log, w.jobs[i], a);
      }
      FreshLogged(store, w.log, w'.jobs[thread]);
      forall r | r in w.reports
        ensures ResultAt(store, w'.log, r.at) == ResultAt(store, w.log, r.at)
      {
        assert w'.log[..r.at] == w.log[..r.at];
        SameUpTo(store, w.log, w'.log, r.at);
      }
    }
  }

  lemma FreeThread(w: World, thread: nat, process: nat, e: Ref, call: Call)
    requires CanStart(w, thread, process, e, call)
    ensures thread !in w.jobs
  {
  }

  lemma RefusalKeeps(store: Store, w: World, w': World, thread: nat)
    requires Serial(store, w) && thread !in w.jobs
    requires w'.store == w.store && w'.log == w.log && w'.reports == w.reports
    requires thread in w'.jobs && w'.jobs == w.jobs[thread := w'.jobs[thread]] && w'.jobs[thread].decision.Refuse?
    ensures Serial(store, w')
  {
    hide Decide, Logged, Run, Perform;
    forall i | i in w'.jobs && !w'.jobs[i].decision.Refuse?
      ensures i in w.jobs && w'.jobs[i] == w.jobs[i]
    {
    }
  }

  lemma Performs(store: Store, e: Ref, call: Call)
    ensures Perform(store, e, call, 0) == Effect(store, e, Decide(store, e, call), 0)
  {
  }

  lemma Appended(store: Store, log: seq<Attempt>, a: Attempt)
    ensures Run(store, log + [a]) == Perform(Run(store, log), a.epoch, a.call, a.cut).0
  {
    assert (log + [a])[..|log|] == log;
  }

  lemma FreshLogged(store: Store, log: seq<Attempt>, job: Job)
    requires job.at == |log| && job.written == 0 && Decide(Run(store, log), job.epoch, job.call) == job.decision
    ensures Logged(store, log + [Attempt(job.epoch, job.call, 0)], job)
  {
    hide Decide, Run;
    assert (log + [Attempt(job.epoch, job.call, 0)])[..|log|] == log;
  }

  // ---- A write lands ----

  lemma LoggedLands(store: Store, log: seq<Attempt>, k: nat, job: Job)
    requires k < |log| && Logged(store, log, job) && job.at != k
    requires var a := log[k]; a.cut < |WritesOf(Decide(StoreAt(store, log, k), a.epoch, a.call))|
    requires forall m :: k < m < |log| ==> !Touches(log[m], log[k].epoch)
    ensures Logged(store, log[k := log[k].(cut := log[k].cut + 1)], job)
  {
    hide Decide, WritesOf, Run, Guarded, Perform;
    var longer := log[k := log[k].(cut := log[k].cut + 1)];
    if job.at < k {
      assert longer[..job.at] == log[..job.at];
    } else {
      Lands(store, log, k, job.at);
    }
  }

  lemma WriteKeeps(store: Store, w: World, thread: nat)
    requires Serial(store, w) && CanWrite(w, thread)
    ensures Serial(store, WriteOne(w, thread))
  {
    hide Decide, Run, Perform, Touches, WritesOf;
    var job, w' := w.jobs[thread], WriteOne(w, thread);
    var k := job.at;
    assert !job.decision.Refuse? && Guarded(job) by { Writes(job); }
    var log := w.log;
    assert w'.log == log[k := log[k].(cut := log[k].cut + 1)];
    Lands(store, log, k, |log|);
    Whole(store, log);
    Whole(store, w'.log);
    forall i | i in w'.jobs && !w'.jobs[i].decision.Refuse?
      ensures Logged(store, w'.log, w'.jobs[i])
    {
      if i == thread {
        assert w'.log[..k] == log[..k];
      } else {
        LoggedLands(store, log, k, w.jobs[i]);
      }
    }
    forall r | r in w.reports
      ensures ResultAt(store, w'.log, r.at) == ResultAt(store, log, r.at)
    {
      if r.at < k {
        assert w'.log[..r.at] == log[..r.at];
        SameUpTo(store, log, w'.log, r.at);
      } else {
        Lands(store, log, k, r.at);
      }
    }
  }

  lemma Writes(job: Job)
    requires job.written < |WritesOf(job.decision)|
    ensures !job.decision.Refuse? && Guarded(job)
  {
  }

  // ---- A call finishes ----

  /** What a finished call reports is the result of its attempt. */
  lemma OutcomeIsResult(store: Store, log: seq<Attempt>, job: Job)
    requires Logged(store, log, job) && !job.decision.Refuse? && Outcome(Run(store, log), job).Done?
    ensures ResultAt(store, log, job.at) == Outcome(Run(store, log), job)
  {
    hide Decide, Run, Load, Touches, RefOk, PrivateOk, CreateWrites;
    var at := StoreAt(store, log, job.at);
    if job.decision.Persist? {
      if job.call.Create? {
        CreationLoads(at, job.epoch, job.call, job.written);
      } else {
        JobOnDisk(store, log, job);
      }
    }
  }

  lemma CreationLoads(store: Store, e: Ref, call: Call, cut: nat)
    requires call.Create? && Decide(store, e, call).Persist? && cut == |Decide(store, e, call).writes|
    ensures Perform(store, e, call, cut).1 == Done(Decide(store, e, call).reply)
  {
    hide Load, CreateWrites, RefOk, PrivateOk;
    CreateCount(e, call.authority, call.identities, call.supersedes);
    CreateAtomic(store, e, call, cut);
    LedgerRefOk(e);
  }

  lemma FinishKeeps(store: Store, w: World, thread: nat)
    requires Serial(store, w) && thread in w.jobs
    ensures Serial(store, FinishCall(w, thread))
  {
    hide Decide, Run, Perform, Touches, Logged, Outcome;
    var job, result := w.jobs[thread], Outcome(w.store, w.jobs[thread]);
    if result.Done? {
      assert !job.decision.Refuse? by { NoNews(w.store, job); }
      OutcomeIsResult(store, w.log, job);
      assert job.at < |w.log| by { InLog(store, w.log, job); }
    }
  }

  lemma NoNews(store: Store, job: Job)
    ensures Outcome(store, job).Done? ==> !job.decision.Refuse?
  {
  }

  lemma InLog(store: Store, log: seq<Attempt>, job: Job)
    requires Logged(store, log, job)
    ensures job.at < |log|
  {
  }

  // ---- Every interleaving ----

  /** Whatever the threads do, the store is that of a run of whole attempts, and every report is a result of that run. */
  lemma {:induction false} Serialised(store: Store, moves: seq<Move>)
    ensures Serial(store, Play(store, moves))
  {
    hide Run, Decide, Perform, Logged, CanStart, CanWrite, StartCall, WriteOne, FinishCall;
    if moves == [] {
      NothingRuns(store);
    } else {
      var w, move := Play(store, moves[..|moves| - 1]), moves[|moves| - 1];
      Serialised(store, moves[..|moves| - 1]);
      match move {
        case Start(thread, process, e, call) =>
          if CanStart(w, thread, process, e, call) {
            StartKeeps(store, w, thread, process, e, call);
          }
        case WriteNext(thread) =>
          if CanWrite(w, thread) {
            WriteKeeps(store, w, thread);
          }
        case Finish(thread) =>
          if thread in w.jobs {
            FinishKeeps(store, w, thread);
          }
      }
    }
  }

  lemma NothingRuns(store: Store)
    ensures Serial(store, World(store, map[], [], []))
  {
  }

  /**
   The restore authority under concurrency: of two permits that calls of any threads have reported for one
   epoch, the one that started later repeats the other and is marked idempotent.
   */
  lemma ConcurrentAuthority(store: Store, moves: seq<Move>, p: nat, q: nat)
    requires StoreOk(store)
    requires var w := Play(store, moves);
             && p < |w.reports| && q < |w.reports| && p != q
             && w.reports[p].at <= w.reports[q].at < |w.log|
             && w.log[w.reports[p].at].epoch == w.log[w.reports[q].at].epoch
    requires var w := Play(store, moves); w.reports[p].reply.Permit? && w.reports[q].reply.Permit?
    ensures var w := Play(store, moves);
            var first := w.reports[p].reply;
            w.reports[q].reply == Permit(first.transitionId, first.data, true)
  {
    hide Run, Perform, Logged, Play;
    var w := Play(store, moves);
    var a, b := w.reports[p], w.reports[q];
    Serialised(store, moves);
    assert a in w.reports && b in w.reports && a.at != b.at;
    OneWayAuthority(store, w.log, w.log[a.at].epoch, a.at, b.at);
  }
}
