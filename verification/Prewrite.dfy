/**
 The locked prewrite protocol.  Any number of executors work on one target.  Each begins a transaction
 whose snapshot is taken no later than its lock request, waits for the target lock, checks the prestate
 inside its transaction, checks it once more with a fresh observation, mutates and commits.
 Executors that run a repository inverse also commit under the lock, but make no fresh observation.
 A database state is represented by its prestate digest.
 */
module Prewrite {
  import opened Wrappers

  type Digest = nat

  datatype Role = Forward(plan: Digest) | Inverse(expected: Digest)

  datatype Stage =
    | Idle
    | Waiting(snapshot: Digest)
    | Locked(snapshot: Digest)
    | SeenInside
    | SeenFresh
    | Mutating

  datatype Executor = Executor(role: Role, stage: Stage)

  /** `observesFresh` says whether the protocol includes the fresh observation; the real one does. */
  datatype System = System(committed: Digest, holder: Option<nat>, executors: seq<Executor>, observesFresh: bool)

  datatype Action =
    | Begin(role: Role)
    | Acquire
    | LookInside
    | LookFresh
    | Mutate
    | CommitTo(state: Digest)
    | Abort

  predicate Holding(stage: Stage) {
    stage.Locked? || stage.SeenInside? || stage.SeenFresh? || stage.Mutating?
  }

  function Expected(role: Role): Digest {
    match role case Forward(plan) => plan case Inverse(expected) => expected
  }

  predicate Enabled(s: System, i: nat, a: Action) {
    && i < |s.executors|
    && var e := s.executors[i];
       match a
       case Begin(_) => e.stage.Idle?
       case Acquire => e.stage.Waiting? && s.holder.None?
       case LookInside => e.stage.Locked? && e.stage.snapshot == Expected(e.role)
       case LookFresh => e.role.Forward? && e.stage.SeenInside? && s.committed == e.role.plan
       case Mutate => e.stage.SeenFresh? || (e.stage.SeenInside? && (e.role.Inverse? || !s.observesFresh))
       case CommitTo(_) => e.stage.Mutating?
       case Abort => !e.stage.Idle?
  }

  function Do(s: System, i: nat, a: Action): System
    requires Enabled(s, i, a)
  {
    var e := s.executors[i];
    match a
    case Begin(role) => s.(executors := s.executors[i := Executor(role, Waiting(s.committed))])
    case Acquire => s.(holder := Some(i), executors := s.executors[i := e.(stage := Locked(e.stage.snapshot))])
    case LookInside => s.(executors := s.executors[i := e.(stage := SeenInside)])
    case LookFresh => s.(executors := s.executors[i := e.(stage := SeenFresh)])
    case Mutate => s.(executors := s.executors[i := e.(stage := Mutating)])
    case CommitTo(state) => s.(committed := state, holder := None, executors := s.executors[i := e.(stage := Idle)])
    case Abort => s.(holder := if Holding(e.stage) then None else s.holder, executors := s.executors[i := e.(stage := Idle)])
  }

  datatype Event = Event(executor: nat, action: Action)

  /** Runs every event that is enabled at its turn. */
  function Run(s: System, events: seq<Event>): System {
    if events == [] then s
    else
      var before := Run(s, events[..|events| - 1]);
      var e := events[|events| - 1];
      if Enabled(before, e.executor, e.action) then Do(before, e.executor, e.action) else before
  }

  predicate Initial(s: System) {
    s.holder.None? && forall i :: 0 <= i < |s.executors| ==> s.executors[i].stage.Idle?
  }

  /** The holder is exactly the executor past its lock request, and a cleared forward run sees its prestate. */
  predicate Safe(s: System) {
    forall i :: 0 <= i < |s.executors| ==>
      && (Holding(s.executors[i].stage) <==> s.holder == Some(i))
      && (s.executors[i].role.Forward? && (s.executors[i].stage.SeenFresh? || s.executors[i].stage.Mutating?) ==>
            s.committed == s.executors[i].role.plan)
  }

  lemma StepSafe(s: System, i: nat, a: Action)
    requires s.observesFresh && Safe(s) && Enabled(s, i, a)
    ensures Safe(Do(s, i, a)) && Do(s, i, a).observesFresh
  {
    var s' := Do(s, i, a);
    forall j | 0 <= j < |s'.executors|
      ensures Holding(s'.executors[j].stage) <==> s'.holder == Some(j)
      ensures s'.executors[j].role.Forward? && (s'.executors[j].stage.SeenFresh? || s'.executors[j].stage.Mutating?) ==>
                s'.committed == s'.executors[j].role.plan
    {
      assert Holding(s.executors[j].stage) <==> s.holder == Some(j);
      assert Holding(s.executors[i].stage) <==> s.holder == Some(i);
    }
  }

  lemma {:induction false} AlwaysSafe(s: System, events: seq<Event>)
    requires s.observesFresh && Initial(s)
    ensures Safe(Run(s, events)) && Run(s, events).observesFresh
  {
    if events != [] {
      var last := |events| - 1;
      AlwaysSafe(s, events[..last]);
      var before, e := Run(s, events[..last]), events[last];
      if Enabled(before, e.executor, e.action) {
        StepSafe(before, e.executor, e.action);
      }
    }
  }

  /** In every run: whenever a forward executor mutates, the committed state is exactly its plan's prestate. */
  lemma MutatesOnPrestate(s: System, events: seq<Event>, i: nat)
    requires s.observesFresh && Initial(s) && i < |Run(s, events).executors|
    requires Run(s, events).executors[i].role.Forward? && Run(s, events).executors[i].stage.Mutating?
    ensures Run(s, events).committed == Run(s, events).executors[i].role.plan
    ensures Run(s, events).holder == Some(i)
  {
    AlwaysSafe(s, events);
  }

  /** Event `k` of the run is a commit that took effect. */
  predicate CommitsAt(s: System, events: seq<Event>, k: nat) {
    k < |events| && events[k].action.CommitTo?
    && Enabled(Run(s, events[..k]), events[k].executor, events[k].action)
  }

  /** Executor `i` ends its run at event `k`, by commit or abort. */
  predicate EndsAt(s: System, events: seq<Event>, i: nat, k: nat) {
    k < |events| && events[k].executor == i && (events[k].action.CommitTo? || events[k].action.Abort?)
    && Enabled(Run(s, events[..k]), events[k].executor, events[k].action)
  }

  lemma RunStep(s: System, events: seq<Event>, k: nat)
    requires k < |events|
    ensures var before, e := Run(s, events[..k]), events[k];
            Run(s, events[..k + 1]) == if Enabled(before, e.executor, e.action) then Do(before, e.executor, e.action) else before
  {
    assert events[..k + 1][..k] == events[..k];
  }

  /** From its first mutation until its run ends, no other executor commits and the committed state stands still. */
  lemma {:induction false} AloneWhileMutating(s: System, events: seq<Event>, i: nat, start: nat, end: nat)
    requires s.observesFresh && Initial(s) && start <= end <= |events|
    requires i < |Run(s, events[..start]).executors| && Run(s, events[..start]).executors[i].stage.Mutating?
    requires forall k :: start <= k < end ==> !EndsAt(s, events, i, k)
    ensures i < |Run(s, events[..end]).executors|
    ensures Run(s, events[..end]).executors[i] == Run(s, events[..start]).executors[i]
    ensures Run(s, events[..end]).committed == Run(s, events[..start]).committed
    ensures forall k :: start <= k < end ==> !CommitsAt(s, events, k)
    decreases end - start
  {
    hide Run;
    if start < end {
      AloneWhileMutating(s, events, i, start, end - 1);
      RunStep(s, events, end - 1);
      AlwaysSafe(s, events[..end - 1]);
      assert !EndsAt(s, events, i, end - 1);
      assert !CommitsAt(s, events, end - 1);
    }
  }

  /** One enabled event of a run, with the system before and after it. */
  lemma Leads(s: System, events: seq<Event>, k: nat, before: System, after: System)
    requires k < |events| && Run(s, events[..k]) == before
    requires Enabled(before, events[k].executor, events[k].action)
    requires after == Do(before, events[k].executor, events[k].action)
    ensures Run(s, events[..k + 1]) == after
  {
    RunStep(s, events, k);
  }

  const STALE_EVENTS: seq<Event> :=
    [Event(1, Begin(Forward(0))), Event(1, Acquire), Event(0, Begin(Forward(0))),
     Event(1, LookInside), Event(1, Mutate), Event(1, CommitTo(1)),
     Event(0, Acquire), Event(0, LookInside), Event(0, Mutate)]

  lemma StaleFirstHalf(s: System)
    requires s == System(0, None, [Executor(Forward(0), Idle), Executor(Forward(0), Idle)], false)
    ensures Run(s, STALE_EVENTS[..5]) ==
            System(0, Some(1), [Executor(Forward(0), Waiting(0)), Executor(Forward(0), Mutating)], false)
  {
    hide Run;
    var a, w := Executor(Forward(0), Idle), Executor(Forward(0), Waiting(0));
    var s2 := System(0, None, [a, w], false);
    var s3 := System(0, Some(1), [a, Executor(Forward(0), Locked(0))], false);
    var s4 := System(0, Some(1), [w, Executor(Forward(0), Locked(0))], false);
    var s5 := System(0, Some(1), [w, Executor(Forward(0), SeenInside)], false);
    RunNothing(s, STALE_EVENTS[..0]);
    Leads(s, STALE_EVENTS, 0, s, s2);
    Leads(s, STALE_EVENTS, 1, s2, s3);
    Leads(s, STALE_EVENTS, 2, s3, s4);
    Leads(s, STALE_EVENTS, 3, s4, s5);
    Leads(s, STALE_EVENTS, 4, s5, System(0, Some(1), [w, Executor(Forward(0), Mutating)], false));
  }

  /**
   The fresh observation is needed: without it, an executor whose snapshot predates its lock mutates a
   database that another executor has meanwhile moved on.
   */
  lemma StaleWithoutFreshObservation()
    ensures var s := System(0, None, [Executor(Forward(0), Idle), Executor(Forward(0), Idle)], false);
            && Initial(s)
            && Run(s, STALE_EVENTS) == System(1, Some(0), [Executor(Forward(0), Mutating), Executor(Forward(0), Idle)], false)
  {
    hide Run;
    var a, w := Executor(Forward(0), Idle), Executor(Forward(0), Waiting(0));
    var s := System(0, None, [a, a], false);
    var s6 := System(0, Some(1), [w, Executor(Forward(0), Mutating)], false);
    var s7 := System(1, None, [w, a], false);
    var s8 := System(1, Some(0), [Executor(Forward(0), Locked(0)), a], false);
    var s9 := System(1, Some(0), [Executor(Forward(0), SeenInside), a], false);
    StaleFirstHalf(s);
    Leads(s, STALE_EVENTS, 5, s6, s7);
    Leads(s, STALE_EVENTS, 6, s7, s8);
    Leads(s, STALE_EVENTS, 7, s8, s9);
    Leads(s, STALE_EVENTS, 8, s9, System(1, Some(0), [Executor(Forward(0), Mutating), a], false));
    assert STALE_EVENTS[..9] == STALE_EVENTS;
  }

  lemma RunNothing(s: System, events: seq<Event>)
    requires events == []
    ensures Run(s, events) == s
  {
  }

  // ---- The protocol lets a run through ----

  /** An idle executor whose plan matches the committed state, undisturbed and with the lock free, commits what it likes. */
  lemma CleanRun(s: System, i: nat, events: seq<Event>, state: Digest)
    requires i < |s.executors| && s.executors[i].stage.Idle? && s.holder.None? && s.observesFresh
    requires |events| == 6 && forall k :: 0 <= k < 6 ==> events[k].executor == i
    requires events[0].action == Begin(Forward(s.committed)) && events[1].action == Acquire && events[2].action == LookInside
    requires events[3].action == LookFresh && events[4].action == Mutate && events[5].action == CommitTo(state)
    ensures Run(s, events) == s.(committed := state, executors := s.executors[i := Executor(Forward(s.committed), Idle)])
  {
    hide Run, Enabled, Do, At;
    CleanEnd(s, i, state);
    CleanSteps(s, i, state);
    RunNothing(s, events[..0]);
    Leads(s, events, 0, s, At(s, i, Waiting(s.committed), None));
    Leads(s, events, 1, At(s, i, Waiting(s.committed), None), At(s, i, Locked(s.committed), Some(i)));
    Leads(s, events, 2, At(s, i, Locked(s.committed), Some(i)), At(s, i, SeenInside, Some(i)));
    Leads(s, events, 3, At(s, i, SeenInside, Some(i)), At(s, i, SeenFresh, Some(i)));
    Leads(s, events, 4, At(s, i, SeenFresh, Some(i)), At(s, i, Mutating, Some(i)));
    Leads(s, events, 5, At(s, i, Mutating, Some(i)), At(s, i, Idle, None).(committed := state));
    assert events[..6] == events;
  }

  /** The system with executor `i` at a stage of a plan for the state committed now. */
  function At(s: System, i: nat, stage: Stage, holder: Option<nat>): System
    requires i < |s.executors|
  {
    s.(holder := holder, executors := s.executors[i := Executor(Forward(s.committed), stage)])
  }

  lemma CleanEnd(s: System, i: nat, state: Digest)
    requires i < |s.executors| && s.holder.None?
    ensures At(s, i, Idle, None).(committed := state)
         == s.(committed := state, executors := s.executors[i := Executor(Forward(s.committed), Idle)])
  {
  }

  lemma CleanSteps(s: System, i: nat, state: Digest)
    requires i < |s.executors| && s.executors[i].stage.Idle? && s.holder.None? && s.observesFresh
    ensures var begin := Begin(Forward(s.committed));
            Enabled(s, i, begin) && Do(s, i, begin) == At(s, i, Waiting(s.committed), None)
    ensures Enabled(At(s, i, Waiting(s.committed), None), i, Acquire)
    ensures Do(At(s, i, Waiting(s.committed), None), i, Acquire) == At(s, i, Locked(s.committed), Some(i))
    ensures Enabled(At(s, i, Locked(s.committed), Some(i)), i, LookInside)
    ensures Do(At(s, i, Locked(s.committed), Some(i)), i, LookInside) == At(s, i, SeenInside, Some(i))
    ensures Enabled(At(s, i, SeenInside, Some(i)), i, LookFresh)
    ensures Do(At(s, i, SeenInside, Some(i)), i, LookFresh) == At(s, i, SeenFresh, Some(i))
    ensures Enabled(At(s, i, SeenFresh, Some(i)), i, Mutate)
    ensures Do(At(s, i, SeenFresh, Some(i)), i, Mutate) == At(s, i, Mutating, Some(i))
    ensures Enabled(At(s, i, Mutating, Some(i)), i, CommitTo(state))
    ensures Do(At(s, i, Mutating, Some(i)), i, CommitTo(state)) == At(s, i, Idle, None).(committed := state)
  {
  }

  /** An executor that finds another state inside its transaction can only give up, and so can a forward one that finds it afresh. */
  lemma DriftStops(s: System, i: nat, a: Action)
    requires s.observesFresh && i < |s.executors| && Enabled(s, i, a)
    ensures s.executors[i].role.Forward? && s.executors[i].stage.Locked? && s.executors[i].stage.snapshot != s.executors[i].role.plan
            ==> a == Abort
    ensures s.executors[i].role.Inverse? && s.executors[i].stage.Locked? && s.executors[i].stage.snapshot != s.executors[i].role.expected
            ==> a == Abort
    ensures s.executors[i].role.Forward? && s.executors[i].stage.SeenInside? && s.committed != s.executors[i].role.plan ==> a == Abort
  {
  }
}
