/**
 The locks of the controller store.  Every call takes, per epoch, a lock shared by the threads of its
 process and then a lock on a file shared by all processes; `supersede` takes both epochs' locks in
 sorted order.  Any number of threads in any number of processes run calls concurrently.
 */
module EpochLocks {
  import Lex

  type Ref = string

  datatype Lock = InProcess(process: nat, epoch: Ref) | OnFile(epoch: Ref)

  datatype Task = Single(epoch: Ref) | Creation(epoch: Ref) | Pair(superseded: Ref, successor: Ref)

  /** A thread works through its tasks; it holds the first `held` locks of its current task. */
  datatype Thread = Thread(process: nat, tasks: seq<Task>, held: nat, releasing: bool)

  type Config = seq<Thread>

  function EpochLock(process: nat, e: Ref): seq<Lock> {
    [InProcess(process, e), OnFile(e)]
  }

  /** The locks a task takes, in the order it takes them. */
  function Plan(process: nat, task: Task): seq<Lock> {
    match task
    case Single(e) => EpochLock(process, e)
    case Creation(e) => [InProcess(process, e)]
    case Pair(a, b) =>
      if a == b then []
      else if Lex.Less(a, b) then EpochLock(process, a) + EpochLock(process, b)
      else EpochLock(process, b) + EpochLock(process, a)
  }

  predicate Live(t: Thread) {
    t.tasks != []
  }

  function Locks(t: Thread): seq<Lock>
    requires Live(t)
  {
    Plan(t.process, t.tasks[0])
  }

  predicate Sound(t: Thread) {
    if Live(t) then t.held <= |Locks(t)| else t.held == 0
  }

  predicate Holds(t: Thread, l: Lock) {
    Live(t) && exists k :: 0 <= k < t.held && k < |Locks(t)| && Locks(t)[k] == l
  }

  /** The lock a thread must get next, if it is still taking locks. */
  predicate Wants(t: Thread) {
    Live(t) && !t.releasing && t.held < |Locks(t)|
  }

  function Wanted(t: Thread): Lock
    requires Wants(t)
  {
    Locks(t)[t.held]
  }

  predicate Free(c: Config, l: Lock) {
    forall i :: 0 <= i < |c| ==> !Holds(c[i], l)
  }

  predicate CanStep(c: Config, i: nat) {
    i < |c| && Live(c[i]) && (Wants(c[i]) ==> Free(c, Wanted(c[i])))
  }

  /** One step: take the next lock, finish the work, give back the last lock, or go on to the next task. */
  function Step(c: Config, i: nat): Config
    requires CanStep(c, i)
  {
    var t := c[i];
    c[i := if Wants(t) then t.(held := t.held + 1)
           else if !t.releasing then t.(releasing := true)
           else if t.held > 0 then t.(held := t.held - 1)
           else t.(tasks := t.tasks[1..], releasing := false)]
  }

  predicate Initial(c: Config) {
    forall i :: 0 <= i < |c| ==> c[i].held == 0 && !c[i].releasing
  }

  /** Exclusion: no lock has two holders. */
  ghost predicate Exclusive(c: Config) {
    && (forall i :: 0 <= i < |c| ==> Sound(c[i]))
    && (forall i, j, l :: 0 <= i < j < |c| && Holds(c[i], l) ==> !Holds(c[j], l))
  }

  /** Runs every scheduled step that is possible at its turn. */
  function Schedule(c: Config, steps: seq<nat>): Config {
    if steps == [] then c
    else
      var before := Schedule(c, steps[..|steps| - 1]);
      var i := steps[|steps| - 1];
      if CanStep(before, i) then Step(before, i) else before
  }

  // ---- Mutual exclusion ----

  lemma StepHolds(c: Config, i: nat, j: nat, l: Lock)
    requires CanStep(c, i) && j < |c| && Sound(c[i])
    ensures Sound(Step(c, i)[i])
    ensures Holds(Step(c, i)[j], l) ==> Holds(c[j], l) || (i == j && Wants(c[i]) && l == Wanted(c[i]))
  {
  }

  lemma ExclusiveStep(c: Config, i: nat)
    requires Exclusive(c) && CanStep(c, i)
    ensures Exclusive(Step(c, i))
  {
    hide Holds, Step, Sound, Wants;
    var c' := Step(c, i);
    assert |c'| == |c| && forall j :: 0 <= j < |c| && j != i ==> c'[j] == c[j] by { StepElsewhere(c, i); }
    forall a, b, l | 0 <= a < b < |c| && Holds(c'[a], l)
      ensures !Holds(c'[b], l)
    {
      StepHolds(c, i, a, l);
      StepHolds(c, i, b, l);
    }
    StepHolds(c, i, i, InProcess(0, ""));
  }

  lemma StepElsewhere(c: Config, i: nat)
    requires CanStep(c, i)
    ensures |Step(c, i)| == |c| && forall j :: 0 <= j < |c| && j != i ==> Step(c, i)[j] == c[j]
  {
  }

  /** However the threads are scheduled, no lock ever has two holders. */
  lemma {:induction false} AlwaysExclusive(c: Config, steps: seq<nat>)
    requires Initial(c)
    ensures Exclusive(Schedule(c, steps))
  {
    hide CanStep, Step;
    if steps != [] {
      var before := Schedule(c, steps[..|steps| - 1]);
      AlwaysExclusive(c, steps[..|steps| - 1]);
      if CanStep(before, steps[|steps| - 1]) {
        ExclusiveStep(before, steps[|steps| - 1]);
      }
    }
  }

  /** A thread is at work on an epoch when it holds all locks of a task that names the epoch. */
  predicate WorksOn(t: Thread, e: Ref) {
    && Live(t) && t.held == |Locks(t)|
    && match t.tasks[0]
       case Single(a) => e == a
       case Creation(a) => e == a
       case Pair(a, b) => a != b && (e == a || e == b)
  }

  lemma WorkerHolds(t: Thread, e: Ref)
    requires WorksOn(t, e)
    ensures Holds(t, InProcess(t.process, e))
    ensures !t.tasks[0].Creation? ==> Holds(t, OnFile(e))
  {
    var first := Locks(t)[0];
    if t.tasks[0].Pair? && first != InProcess(t.process, e) {
      assert Locks(t)[2] == InProcess(t.process, e) && Locks(t)[3] == OnFile(e);
    } else {
      assert Locks(t)[0] == InProcess(t.process, e);
      assert !t.tasks[0].Creation? ==> Locks(t)[1] == OnFile(e);
    }
  }

  /**
   Two calls never work on the same epoch at once: not in one process, and not in two processes
   unless one of them is the epoch's creation, which takes the in-process lock only.
   */
  lemma WorkIsExclusive(c: Config, steps: seq<nat>, i: nat, j: nat, e: Ref)
    requires Initial(c)
    requires i < j < |Schedule(c, steps)|
    requires var a, b := Schedule(c, steps)[i], Schedule(c, steps)[j]; WorksOn(a, e) && WorksOn(b, e)
    ensures var a, b := Schedule(c, steps)[i], Schedule(c, steps)[j];
            a.process != b.process && (a.tasks[0].Creation? || b.tasks[0].Creation?)
  {
    hide Holds, WorksOn, Schedule;
    AlwaysExclusive(c, steps);
    var a, b := Schedule(c, steps)[i], Schedule(c, steps)[j];
    WorkerHolds(a, e);
    WorkerHolds(b, e);
  }

  // ---- Deadlock freedom ----

  /** Locks are ordered by epoch, and within an epoch the in-process lock comes before the file lock. */
  predicate Before(a: Lock, b: Lock) {
    Lex.Less(a.epoch, b.epoch) || (a.epoch == b.epoch && a.InProcess? && b.OnFile?)
  }

  lemma BeforeIrreflexive(a: Lock)
    ensures !Before(a, a)
  {
    Lex.Irreflexive(a.epoch);
  }

  lemma BeforeTransitive(a: Lock, b: Lock, c: Lock)
    requires Before(a, b) && Before(b, c)
    ensures Before(a, c)
  {
    if Lex.Less(a.epoch, b.epoch) && Lex.Less(b.epoch, c.epoch) {
      Lex.Transitive(a.epoch, b.epoch, c.epoch);
    }
  }

  /** Every task takes its locks in increasing order. */
  lemma PlanAscends(process: nat, task: Task, j: nat, k: nat)
    requires j < k < |Plan(process, task)|
    ensures Before(Plan(process, task)[j], Plan(process, task)[k])
  {
    if task.Pair? {
      Lex.Total(task.superseded, task.successor);
    }
  }

  /** The threads that wait for a lock beyond `l`. */
  function WaitingBeyond(c: Config, l: Lock): set<nat> {
    set i | 0 <= i < |c| && Wants(c[i]) && Before(l, Wanted(c[i])) :: i
  }

  lemma BeyondShrinks(c: Config, l: Lock, i: nat)
    requires i < |c| && Wants(c[i]) && Before(l, Wanted(c[i]))
    ensures WaitingBeyond(c, Wanted(c[i])) < WaitingBeyond(c, l)
  {
    forall k | k in WaitingBeyond(c, Wanted(c[i]))
      ensures k in WaitingBeyond(c, l)
    {
      BeforeTransitive(l, Wanted(c[i]), Wanted(c[k]));
    }
    BeforeIrreflexive(Wanted(c[i]));
    assert i in WaitingBeyond(c, l);
  }

  lemma CardinalityDrops(a: set<nat>, b: set<nat>)
    requires a < b
    ensures |a| < |b|
  {
    assert b == a + (b - a) && |b| == |a| + |b - a|;
  }

  /** From any waiting thread, following holders leads to a thread that can step. */
  lemma {:induction false} FindRunnable(c: Config, i: nat) returns (k: nat)
    requires i < |c| && Live(c[i])
    ensures CanStep(c, k)
    decreases if Wants(c[i]) then 1 + |WaitingBeyond(c, Wanted(c[i]))| else 0
  {
    if CanStep(c, i) {
      k := i;
    } else {
      var l := Wanted(c[i]);
      var h: nat :| h < |c| && Holds(c[h], l);
      if Wants(c[h]) {
        var at :| 0 <= at < c[h].held && at < |Locks(c[h])| && Locks(c[h])[at] == l;
        PlanAscends(c[h].process, c[h].tasks[0], at, c[h].held);
        BeyondShrinks(c, l, h);
        CardinalityDrops(WaitingBeyond(c, Wanted(c[h])), WaitingBeyond(c, l));
      }
      k := FindRunnable(c, h);
    }
  }

  /** No schedule reaches a deadlock: while any thread has work left, some thread can step. */
  lemma NoDeadlock(c: Config, steps: seq<nat>, i: nat) returns (k: nat)
    requires i < |Schedule(c, steps)| && Live(Schedule(c, steps)[i])
    ensures CanStep(Schedule(c, steps), k)
  {
    k := FindRunnable(Schedule(c, steps), i);
  }

  // ---- Every thread finishes ----

  function TaskWork(process: nat, tasks: seq<Task>): nat {
    if tasks == [] then 0 else 2 * |Plan(process, tasks[0])| + 2 + TaskWork(process, tasks[1..])
  }

  /** The steps a thread has left. */
  function WorkLeft(t: Thread): nat
    requires Sound(t)
  {
    if !Live(t) then 0
    else TaskWork(t.process, t.tasks[1..]) + if t.releasing then t.held + 1 else 2 * |Locks(t)| + 2 - t.held
  }

  function TotalWork(c: Config): nat
    requires forall i :: 0 <= i < |c| ==> Sound(c[i])
  {
    if c == [] then 0 else WorkLeft(c[0]) + TotalWork(c[1..])
  }

  lemma {:induction false} OneLess(c: Config, i: nat, t: Thread)
    requires (forall j :: 0 <= j < |c| ==> Sound(c[j])) && i < |c|
    requires Sound(t) && WorkLeft(t) == WorkLeft(c[i]) - 1
    ensures TotalWork(c[i := t]) == TotalWork(c) - 1
  {
    if i == 0 {
      assert c[0 := t][1..] == c[1..];
    } else {
      OneLess(c[1..], i - 1, t);
      assert c[i := t][1..] == c[1..][i - 1 := t];
    }
  }

  lemma StepWorks(c: Config, i: nat)
    requires Exclusive(c) && CanStep(c, i)
    ensures Exclusive(Step(c, i)) && TotalWork(Step(c, i)) == TotalWork(c) - 1
  {
    ExclusiveStep(c, i);
    OneLess(c, i, Step(c, i)[i]);
  }

  lemma {:induction false} NothingLeft(c: Config)
    requires forall i :: 0 <= i < |c| ==> Sound(c[i])
    ensures TotalWork(c) == 0 ==> forall i :: 0 <= i < |c| ==> !Live(c[i])
  {
    if c != [] {
      NothingLeft(c[1..]);
      assert forall i :: 1 <= i < |c| ==> c[i] == c[1..][i - 1];
    }
  }

  /** From every reachable configuration all threads can finish, in at most as many steps as there is work left. */
  lemma {:induction false} EveryThreadFinishes(c: Config, steps: seq<nat>) returns (more: seq<nat>)
    requires Initial(c)
    ensures forall i :: 0 <= i < |Schedule(c, steps + more)| ==> !Live(Schedule(c, steps + more)[i])
    ensures Exclusive(Schedule(c, steps)) && |more| <= TotalWork(Schedule(c, steps))
    decreases assert Exclusive(Schedule(c, steps)) by { AlwaysExclusive(c, steps); } TotalWork(Schedule(c, steps))
  {
    hide CanStep, Step, Live, WorkLeft, Holds;
    AlwaysExclusive(c, steps);
    var now := Schedule(c, steps);
    if i: nat :| i < |now| && Live(now[i]) {
      var k := FindRunnable(now, i);
      assert (steps + [k])[..|steps|] == steps;
      StepWorks(now, k);
      var rest := EveryThreadFinishes(c, steps + [k]);
      more := [k] + rest;
      assert steps + more == steps + [k] + rest;
    } else {
      more := [];
      assert steps + more == steps;
    }
  }
}
