/**
 The executor of a durable plan, against every behaviour of its environment.  A script says how each
 step it may reach turns out: which step throws what, what each observation sees.  The executor leaves
 a trace of what it sent and observed, and what its receipt says is compared with that trace.
 */
module Executor {
  import opened Wrappers
  import opened Receipts

  // ---- The environment ----

  /** An error with a code of the program's own, or any other error; `lost` means the connection broke. */
  datatype Thrown = Coded(code: Code) | Foreign(lost: bool)

  datatype Step = Fine | Throws(error: Thrown)
  datatype Text = Told(text: string) | Unavailable(error: Thrown)

  /** One observation of the whole database. */
  datatype Seen = Seen(digest: string, ready: bool) | Unseen(error: Thrown)
  datatype FinalSeen = FinalSeen(posture: bool, ready: bool) | FinalUnseen

  /** One operation: refused before it is sent, or sent and then completed or failed. */
  datatype Applied = RefusedUnsent(code: Code) | Sent | SentAndFailed(error: Thrown)

  datatype Derived = Derivation(external: bool, steps: nat) | NotDerived(error: Thrown)
  datatype Migrated = Migrated(started: bool) | NotMigrated(error: Thrown, started: bool)

  datatype InverseScript = InverseScript(
    consistent: bool, connect: Step, begin: Step, lock: Step, objectLocks: Step, capture: Seen, authorityMatches: bool,
    apply: nat -> Applied, commit: Step, rollback: Step, verify: Seen)

  datatype Script = Script(
    revision: Step, contract: Text, observe: Seen, derive: Derived,
    connect: Step, begin: Step, lock: Step, objectLocks: Step, contractAgain: Text, inTransaction: Seen, afterLock: Seen,
    migrate: Migrated, apply: nat -> Applied, commit: Step, final: FinalSeen,
    earlyRollback: Step, rollback: Step, verifyFirst: Seen, inverse: InverseScript, verifyInverse: Seen,
    restore: Step, verifyRestore: Seen)

  /** The frozen inputs. `targetDigest` is computed from the binding, the others come with the plan. */
  datatype Input = Input(
    migration: bool, operations: nat,
    planPrestate: string, planContract: string, planTarget: string,
    expectedPrestate: string, expectedContract: string, targetDigest: string,
    rootDir: bool, migrationsFolder: bool, ownConnection: bool, capability: Option<bool>)

  // ---- The trace ----

  datatype Statement =
    | BeginTx | TargetLock | ObjectLocks | Operation(index: nat) | MigrationRun | CommitTx | RollbackTx
    | InverseBegin | InverseLocks | InverseOperation(index: nat) | InverseCommit | InverseRollback
    | RestoreCall

  datatype Event = Sending(statement: Statement, ok: bool) | Observed(seen: Seen) | ObservedFinal(final: FinalSeen)

  type Trace = seq<Event>

  /** An operation of the plan reached the connection. */
  predicate SentOperation(t: Trace) {
    exists i :: 0 <= i < |t| && t[i].Sending? && t[i].statement.Operation?
  }

  predicate CommitReturned(t: Trace) {
    Sending(CommitTx, true) in t
  }

  predicate Matches(seen: Seen, expected: string) {
    seen.Seen? && seen.digest == expected && seen.ready
  }

  /** The run ends with an observation of exactly the expected prestate. */
  predicate EndsVerified(t: Trace, expected: string) {
    t != [] && t[|t| - 1].Observed? && Matches(t[|t| - 1].seen, expected)
  }

  predicate EndsReady(t: Trace) {
    t != [] && t[|t| - 1] == ObservedFinal(FinalSeen(true, true))
  }

  /** A rollback, an inverse or an external restore was tried. */
  predicate RecoveryTried(t: Trace) {
    exists i :: 0 <= i < |t| && t[i].Sending? && t[i].statement in {RollbackTx, InverseBegin, RestoreCall}
  }

  /** A statement was sent, whatever came of it. */
  predicate Attempted(t: Trace, statement: Statement) {
    Sending(statement, true) in t || Sending(statement, false) in t
  }

  /** Neither the repository inverse nor the external restore was started. */
  predicate NoRestoration(t: Trace) {
    !Attempted(t, InverseBegin) && !Attempted(t, RestoreCall)
  }

  // ---- Failure codes ----

  function MapFailure(e: Thrown): Code {
    if e.Coded? then e.code else UNEXPECTED_FAILURE
  }

  function MutationFailure(e: Thrown): Code {
    match e case Coded(code) => code case Foreign(lost) => if lost then WRITE_INDETERMINATE else MUTATION_FAILED
  }

  function CommitFailure(e: Thrown): Code {
    match e case Coded(code) => code case Foreign(lost) => if lost then COMMIT_INDETERMINATE else COMMIT_FAILED
  }

  /** How far the run got before it failed, and the error. */
  datatype Failure = Failure(phase: Phase, error: Thrown)

  // ---- A run as a list of stages ----

  /** One stage of a run: what it leaves in the trace, and how it fails if it does. */
  datatype Stage = Stage(events: Trace, failure: Option<Failure>)

  /** The trace of the stages up to the first that fails. */
  function Until(stages: seq<Stage>): Trace {
    if stages == [] then []
    else stages[0].events + if stages[0].failure.Some? then [] else Until(stages[1..])
  }

  function FirstFailure(stages: seq<Stage>): Option<Failure> {
    if stages == [] then None
    else if stages[0].failure.Some? then stages[0].failure else FirstFailure(stages[1..])
  }

  /** The first `k` stages have passed and left `t`. */
  ghost predicate Reached(stages: seq<Stage>, k: nat, t: Trace) {
    && k <= |stages| && Until(stages) == t + Until(stages[k..])
    && FirstFailure(stages) == FirstFailure(stages[k..])
  }

  lemma Enter(stages: seq<Stage>)
    ensures Reached(stages, 0, [])
  {
    assert stages[0..] == stages;
    assert [] + Until(stages) == Until(stages);
  }

  lemma Joined(a: Trace, b: Trace, c: Trace)
    ensures (a + b) + c == a + (b + c)
  {
  }

  /** One more stage: it passes, or it is the one the run fails at. */
  lemma Pass(stages: seq<Stage>, k: nat, t: Trace)
    requires Reached(stages, k, t) && k < |stages|
    ensures stages[k].failure.None? ==> Reached(stages, k + 1, t + stages[k].events)
    ensures stages[k].failure.Some? ==> Until(stages) == t + stages[k].events && FirstFailure(stages) == stages[k].failure
  {
    var left := stages[k..];
    assert left[0] == stages[k] && left[1..] == stages[k + 1..];
    Opened(left);
    hide Until, FirstFailure;
    Joined(t, stages[k].events, Until(stages[k + 1..]));
  }

  /** A stage that leaves nothing in the trace. */
  lemma PassSilent(stages: seq<Stage>, k: nat, t: Trace)
    requires Reached(stages, k, t) && k < |stages| && stages[k].events == []
    ensures stages[k].failure.None? ==> Reached(stages, k + 1, t)
    ensures stages[k].failure.Some? ==> Until(stages) == t && FirstFailure(stages) == stages[k].failure
  {
    hide Reached;
    Pass(stages, k, t);
    assert t + stages[k].events == t;
  }

  lemma Opened(stages: seq<Stage>)
    requires stages != []
    ensures stages[0].failure.None? ==>
              Until(stages) == stages[0].events + Until(stages[1..]) && FirstFailure(stages) == FirstFailure(stages[1..])
    ensures stages[0].failure.Some? ==> Until(stages) == stages[0].events && FirstFailure(stages) == stages[0].failure
  {
  }

  lemma Passed(stages: seq<Stage>, t: Trace)
    requires Reached(stages, |stages|, t)
    ensures Until(stages) == t && FirstFailure(stages) == None
  {
  }

  lemma {:induction false} Then(a: seq<Stage>, b: seq<Stage>)
    ensures Until(a + b) == Until(a) + if FirstFailure(a).Some? then [] else Until(b)
    ensures FirstFailure(a + b) == if FirstFailure(a).Some? then FirstFailure(a) else FirstFailure(b)
  {
    if a == [] {
      assert a + b == b;
      assert [] + Until(b) == Until(b);
    } else {
      assert (a + b)[1..] == a[1..] + b;
      Then(a[1..], b);
      var rest := if FirstFailure(a[1..]).Some? then [] else Until(b);
      assert (a[0].events + Until(a[1..])) + rest == a[0].events + (Until(a[1..]) + rest);
    }
  }

  function Unless(ok: bool, failure: Failure): Option<Failure> {
    if ok then None else Some(failure)
  }

  function StepFailure(step: Step, phase: Phase): Option<Failure> {
    match step case Fine => None case Throws(error) => Some(Failure(phase, error))
  }

  /** An observation that fails, or sees something other than the expected prestate. */
  function SeenFailure(seen: Seen, expected: string, unseen: Phase, other: Phase): Option<Failure> {
    match seen
    case Unseen(error) => Some(Failure(unseen, error))
    case Seen(digest, _) => Unless(digest == expected, Failure(other, Coded(PREWRITE_DRIFT)))
  }

  function AdmitStages(input: Input, script: Script): seq<Stage> {
    var phase := if input.rootDir then Admission else Planning;
    [ Stage([], if input.rootDir then StepFailure(script.revision, Admission) else None),
      Stage([], if input.rootDir && script.contract.Unavailable? then Some(Failure(Admission, script.contract.error)) else None),
      Stage([], Unless(input.expectedPrestate == input.planPrestate && input.expectedContract == input.planContract
                       && (input.rootDir ==> script.contract == Told(input.expectedContract)),
                       Failure(phase, Coded(CONTRACT_DIGEST_MISMATCH)))),
      Stage([], Unless(input.targetDigest == input.planTarget, Failure(phase, Coded(TARGET_MISMATCH)))),
      Stage([], Unless(input.capability != Some(false), Failure(phase, Coded(RESTORE_CAPABILITY_REQUIRED)))),
      Stage([], Unless(input.migration && input.operations > 0 ==> input.capability.Some?,
                       Failure(phase, Coded(RESTORE_CAPABILITY_REQUIRED)))) ]
  }

  /** Whether the plan can be inverted, or a migration run, at all. */
  function InverseFailure(input: Input, script: Script): Option<Failure> {
    if input.migration then Unless(input.migrationsFolder, Failure(InverseCheck, Coded(OPERATION_UNSUPPORTED)))
    else match script.derive
         case NotDerived(error) => Some(Failure(InverseCheck, error))
         case Derivation(external, _) =>
           Unless(external ==> input.capability.Some?, Failure(InverseCheck, Coded(RESTORE_CAPABILITY_REQUIRED)))
  }

  function ContractFailure(input: Input, script: Script): Option<Failure> {
    if !input.rootDir then None
    else match script.contractAgain
         case Unavailable(error) => Some(Failure(Prewrite, error))
         case Told(text) => Unless(text == input.expectedContract, Failure(Prewrite, Coded(PREWRITE_DRIFT)))
  }

  function OpeningStages(input: Input, script: Script): seq<Stage> {
    [ Stage([Observed(script.observe)], SeenFailure(script.observe, input.expectedPrestate, Observe, PrestateCheck)),
      Stage([], InverseFailure(input, script)),
      Stage([], if input.ownConnection then None else StepFailure(script.connect, Prewrite)) ]
  }

  function LockStages(script: Script): seq<Stage> {
    [ Stage([Sending(BeginTx, script.begin.Fine?)], StepFailure(script.begin, Prewrite)),
      Stage([Sending(TargetLock, script.lock.Fine?)], StepFailure(script.lock, Prewrite)),
      Stage([Sending(ObjectLocks, script.objectLocks.Fine?)], StepFailure(script.objectLocks, Prewrite)) ]
  }

  function LookStages(input: Input, script: Script): seq<Stage> {
    [ Stage([], ContractFailure(input, script)),
      Stage([Observed(script.inTransaction)], SeenFailure(script.inTransaction, input.expectedPrestate, Prewrite, Prewrite)),
      Stage([Observed(script.afterLock)], SeenFailure(script.afterLock, input.expectedPrestate, Prewrite, Prewrite)) ]
  }

  function PrepareStages(input: Input, script: Script): seq<Stage> {
    OpeningStages(input, script) + (LockStages(script) + LookStages(input, script))
  }

  /** One operation: refused unsent, sent and completed, or sent and failed. */
  function OperationStage(i: nat, applied: Applied): Stage {
    match applied
    case RefusedUnsent(code) => Stage([], Some(Failure(Forward, Coded(code))))
    case Sent => Stage([Sending(Operation(i), true)], None)
    case SentAndFailed(error) => Stage([Sending(Operation(i), false)], Some(Failure(Forward, Coded(MutationFailure(error)))))
  }

  function OperationStages(operations: nat, apply: nat -> Applied): seq<Stage> {
    seq(operations, i requires 0 <= i < operations => OperationStage(i, apply(i)))
  }

  function MutationStages(input: Input, script: Script): seq<Stage> {
    if input.migration then
      [Stage([Sending(MigrationRun, script.migrate.Migrated?)],
             match script.migrate case Migrated(_) => None case NotMigrated(error, _) => Some(Failure(Forward, error)))]
    else OperationStages(input.operations, script.apply)
  }

  function ClosingStages(script: Script): seq<Stage> {
    [ Stage([Sending(CommitTx, script.commit.Fine?)],
            match script.commit case Fine => None case Throws(error) => Some(Failure(CommitPhase, Coded(CommitFailure(error))))),
      Stage([ObservedFinal(script.final)],
            Unless(script.final == FinalSeen(true, true), Failure(FinalVerify, Coded(FINAL_VERIFICATION_FAILED)))) ]
  }

  function ForwardStages(input: Input, script: Script): seq<Stage> {
    MutationStages(input, script) + ClosingStages(script)
  }

  // ---- Everything before the first mutation ----

  /** The inputs agree with each other and with the checkout, and any capability is valid. */
  predicate AdmitsSmoothly(input: Input, script: Script) {
    && (input.rootDir ==> script.revision.Fine? && script.contract == Told(input.expectedContract))
    && input.expectedPrestate == input.planPrestate && input.expectedContract == input.planContract
    && input.targetDigest == input.planTarget && input.capability != Some(false)
    && (input.migration && input.operations > 0 ==> input.capability.Some?)
  }

  /** Every step up to the last look at the database succeeds and sees the expected prestate. */
  predicate PreparesSmoothly(input: Input, script: Script) {
    && script.observe.Seen? && script.observe.digest == input.expectedPrestate
    && (if input.migration then input.migrationsFolder
        else script.derive.Derivation? && (script.derive.external ==> input.capability.Some?))
    && (input.ownConnection || script.connect.Fine?)
    && script.begin.Fine? && script.lock.Fine? && script.objectLocks.Fine?
    && (input.rootDir ==> script.contractAgain == Told(input.expectedContract))
    && script.inTransaction.Seen? && script.inTransaction.digest == input.expectedPrestate
    && script.afterLock.Seen? && script.afterLock.digest == input.expectedPrestate
  }

  /** Every operation is sent and completed, or the migrations run, and the commit returns. */
  predicate CommitsSmoothly(input: Input, script: Script) {
    && (if input.migration then script.migrate.Migrated?
        else forall i :: 0 <= i < input.operations ==> script.apply(i).Sent?)
    && script.commit.Fine?
  }

  /** The run gets as far as its commit. */
  predicate Smooth(input: Input, script: Script) {
    AdmitsSmoothly(input, script) && PreparesSmoothly(input, script) && CommitsSmoothly(input, script)
  }

  /** The run has something to mutate: an operation, or a migration that applied at least one file. */
  predicate Starts(input: Input, script: Script) {
    if input.migration then script.migrate.Migrated? && script.migrate.started else input.operations > 0
  }

  /**
   How the environment must behave for the run to end without a receipt: the plan mutates and commits, final
   verification fails, and the first look at the database afterwards nevertheless sees the prestate.
   */
  predicate Strands(input: Input, script: Script) {
    && Smooth(input, script) && Starts(input, script)
    && script.final != FinalSeen(true, true) && Matches(script.verifyFirst, input.expectedPrestate)
  }

  method Admit(input: Input, script: Script) returns (failed: Option<Failure>)
    ensures failed.Some? ==> failed.value.phase in {Admission, Planning}
    ensures failed.None? ==> input.expectedPrestate == input.planPrestate && input.targetDigest == input.planTarget
    ensures failed.None? && input.migration && input.operations > 0 ==> input.capability.Some?
    ensures failed.None? ==> input.capability != Some(false)
    ensures failed.None? <==> AdmitsSmoothly(input, script)
    ensures failed == FirstFailure(AdmitStages(input, script)) && Until(AdmitStages(input, script)) == []
  {
    hide Until, FirstFailure, Reached;
    ghost var stages := AdmitStages(input, script);
    Enter(stages);
    PassSilent(stages, 0, []);
    var phase := Planning;
    var contract := input.expectedContract;
    if input.rootDir {
      phase := Admission;
      if script.revision.Throws? {
        return Some(Failure(phase, script.revision.error));
      }
      PassSilent(stages, 1, []);
      if script.contract.Unavailable? {
        return Some(Failure(phase, script.contract.error));
      }
      contract := script.contract.text;
    } else {
      PassSilent(stages, 1, []);
    }
    PassSilent(stages, 2, []);
    if input.expectedPrestate != input.planPrestate || input.expectedContract != input.planContract
       || contract != input.expectedContract {
      return Some(Failure(phase, Coded(CONTRACT_DIGEST_MISMATCH)));
    }
    PassSilent(stages, 3, []);
    if input.targetDigest != input.planTarget {
      return Some(Failure(phase, Coded(TARGET_MISMATCH)));
    }
    PassSilent(stages, 4, []);
    if input.capability == Some(false) {
      return Some(Failure(phase, Coded(RESTORE_CAPABILITY_REQUIRED)));
    }
    PassSilent(stages, 5, []);
    if input.migration && input.operations > 0 && input.capability.None? {
      return Some(Failure(phase, Coded(RESTORE_CAPABILITY_REQUIRED)));
    }
    Passed(stages, []);
    failed := None;
  }

  datatype Prepared = Prepared(failed: Option<Failure>, session: bool, external: bool, steps: nat, hasInverse: bool)

  /** The expected prestate was seen, and there is a way to undo the plan or to migrate. */
  predicate Plans(input: Input, script: Script) {
    && script.observe.Seen? && script.observe.digest == input.expectedPrestate
    && if input.migration then input.migrationsFolder
       else script.derive.Derivation? && (script.derive.external ==> input.capability.Some?)
  }

  /** What the preparation hands on: how it failed, whether there is a session, and the inverse. */
  function PreparedOf(input: Input, script: Script): Prepared {
    var inverse := !input.migration && Plans(input, script);
    Prepared(FirstFailure(PrepareStages(input, script)), Plans(input, script) && (input.ownConnection || script.connect.Fine?),
             inverse && script.derive.external, if inverse then script.derive.steps else 0, inverse)
  }

  /** Nothing in a trace so far mutates, commits or recovers. */
  predicate Harmless(t: Trace) {
    forall i :: 0 <= i < |t| ==> t[i].Observed? || (t[i].Sending? && t[i].statement in {BeginTx, TargetLock, ObjectLocks})
  }

  /** The first look at the database, the inverse, and the connection. */
  method Open(input: Input, script: Script) returns (failed: Option<Failure>, t: Trace)
    ensures t == Until(OpeningStages(input, script)) == [Observed(script.observe)]
    ensures failed == FirstFailure(OpeningStages(input, script))
    ensures failed.None? <==> PreparedOf(input, script).session
    ensures failed.Some? ==> failed.value.phase in {Observe, PrestateCheck, InverseCheck, Prewrite}
    ensures Plans(input, script) <==> failed.None? || failed.value.phase == Prewrite
  {
    hide Until, FirstFailure, Reached;
    ghost var stages := OpeningStages(input, script);
    Enter(stages);
    Pass(stages, 0, []);
    t := [Observed(script.observe)];
    assert [] + t == t;
    if script.observe.Unseen? {
      return Some(Failure(Observe, script.observe.error)), t;
    }
    if script.observe.digest != input.expectedPrestate {
      return Some(Failure(PrestateCheck, Coded(PREWRITE_DRIFT))), t;
    }
    PassSilent(stages, 1, t);
    if !input.migration {
      if script.derive.NotDerived? {
        return Some(Failure(InverseCheck, script.derive.error)), t;
      }
      if script.derive.external && input.capability.None? {
        return Some(Failure(InverseCheck, Coded(RESTORE_CAPABILITY_REQUIRED))), t;
      }
    } else if !input.migrationsFolder {
      return Some(Failure(InverseCheck, Coded(OPERATION_UNSUPPORTED))), t;
    }
    PassSilent(stages, 2, t);
    if !input.ownConnection && script.connect.Throws? {
      return Some(Failure(Prewrite, script.connect.error)), t;
    }
    Passed(stages, t);
    failed := None;
  }

  /** Begin, and take the locks. */
  method Lock(script: Script) returns (failed: Option<Failure>, t: Trace)
    ensures t == Until(LockStages(script)) && failed == FirstFailure(LockStages(script))
    ensures Harmless(t) && (failed.Some? ==> failed.value.phase == Prewrite)
    ensures failed.None? <==> script.begin.Fine? && script.lock.Fine? && script.objectLocks.Fine?
    ensures failed.None? ==> t == [Sending(BeginTx, true), Sending(TargetLock, true), Sending(ObjectLocks, true)]
  {
    hide Until, FirstFailure, Reached;
    ghost var stages := LockStages(script);
    Enter(stages);
    t := [];
    Pass(stages, 0, t);
    t := t + [Sending(BeginTx, script.begin.Fine?)];
    if script.begin.Throws? {
      return Some(Failure(Prewrite, script.begin.error)), t;
    }
    Pass(stages, 1, t);
    t := t + [Sending(TargetLock, script.lock.Fine?)];
    if script.lock.Throws? {
      return Some(Failure(Prewrite, script.lock.error)), t;
    }
    Pass(stages, 2, t);
    t := t + [Sending(ObjectLocks, script.objectLocks.Fine?)];
    if script.objectLocks.Throws? {
      return Some(Failure(Prewrite, script.objectLocks.error)), t;
    }
    Passed(stages, t);
    failed := None;
  }

  /** The contract and the database, seen again under the locks. */
  method LookAgain(input: Input, script: Script) returns (failed: Option<Failure>, t: Trace)
    ensures t == Until(LookStages(input, script)) && failed == FirstFailure(LookStages(input, script))
    ensures Harmless(t) && (failed.Some? ==> failed.value.phase == Prewrite)
    ensures failed.None? <==>
              && (input.rootDir ==> script.contractAgain == Told(input.expectedContract))
              && script.inTransaction.Seen? && script.inTransaction.digest == input.expectedPrestate
              && script.afterLock.Seen? && script.afterLock.digest == input.expectedPrestate
    ensures failed.None? ==> t == [Observed(script.inTransaction), Observed(script.afterLock)]
  {
    hide Until, FirstFailure, Reached;
    ghost var stages := LookStages(input, script);
    Enter(stages);
    t := [];
    PassSilent(stages, 0, t);
    if input.rootDir {
      if script.contractAgain.Unavailable? {
        return Some(Failure(Prewrite, script.contractAgain.error)), t;
      }
      if script.contractAgain.text != input.expectedContract {
        return Some(Failure(Prewrite, Coded(PREWRITE_DRIFT))), t;
      }
    }
    Pass(stages, 1, t);
    t := t + [Observed(script.inTransaction)];
    if script.inTransaction.Unseen? {
      return Some(Failure(Prewrite, script.inTransaction.error)), t;
    }
    if script.inTransaction.digest != input.expectedPrestate {
      return Some(Failure(Prewrite, Coded(PREWRITE_DRIFT))), t;
    }
    Pass(stages, 2, t);
    t := t + [Observed(script.afterLock)];
    if script.afterLock.Unseen? {
      return Some(Failure(Prewrite, script.afterLock.error)), t;
    }
    if script.afterLock.digest != input.expectedPrestate {
      return Some(Failure(Prewrite, Coded(PREWRITE_DRIFT))), t;
    }
    Passed(stages, t);
    failed := None;
  }

  /** Observe, derive the inverse, take the locks, and observe twice more under them. */
  method Prepare(input: Input, script: Script) returns (p: Prepared, t: Trace)
    ensures t == Until(PrepareStages(input, script)) && p == PreparedOf(input, script)
    ensures p.failed == FirstFailure(PrepareStages(input, script))
    ensures Harmless(t)
    ensures p.failed.None? <==> PreparesSmoothly(input, script)
    ensures p.failed.Some? ==> p.failed.value.phase in {Observe, PrestateCheck, InverseCheck, Prewrite}
    ensures p.hasInverse == (!input.migration && script.derive.Derivation? && (p.failed.None? || p.failed.value.phase == Prewrite))
    ensures p.hasInverse ==> p.external == script.derive.external && p.steps == script.derive.steps
    ensures p.failed.None? ==>
              && p.session && (input.migration || p.hasInverse)
              && t == [Observed(script.observe), Sending(BeginTx, true), Sending(TargetLock, true), Sending(ObjectLocks, true),
                       Observed(script.inTransaction), Observed(script.afterLock)]
              && script.inTransaction.Seen? && script.inTransaction.digest == input.expectedPrestate
              && script.afterLock.Seen? && script.afterLock.digest == input.expectedPrestate
  {
    hide Until, FirstFailure, OpeningStages, LockStages, LookStages;
    var failed, opening := Open(input, script);
    t := opening;
    var session := failed.None?;
    Then(OpeningStages(input, script), LockStages(script) + LookStages(input, script));
    Then(LockStages(script), LookStages(input, script));
    assert opening + [] == opening;
    if failed.None? {
      var locking;
      failed, locking := Lock(script);
      assert locking + [] == locking;
      t := opening + locking;
      if failed.None? {
        var looking;
        failed, looking := LookAgain(input, script);
        Joined(opening, locking, looking);
        t := t + looking;
      }
    }
    var inverse := !input.migration && (failed.None? || failed.value.phase == Prewrite);
    p := Prepared(failed, session, inverse && script.derive.external, if inverse then script.derive.steps else 0, inverse);
  }

  // ---- Operations, commit and final verification ----

  datatype Progress = Progress(started: bool, committed: bool, commitState: CommitState, readiness: Readiness,
                               failed: Option<Failure>)

  lemma StagesOf(operations: nat, apply: nat -> Applied)
    ensures |OperationStages(operations, apply)| == operations
    ensures forall i :: 0 <= i < operations ==> OperationStages(operations, apply)[i] == OperationStage(i, apply(i))
  {
  }

  /** Applies the operations in order until one fails. */
  method ApplyAll(operations: nat, apply: nat -> Applied) returns (failed: Option<Thrown>, started: bool, t: Trace)
    ensures forall i :: 0 <= i < |t| ==> t[i].Sending? && t[i].statement.Operation?
    ensures started <==> t != []
    ensures failed.None? <==> forall i :: 0 <= i < operations ==> apply(i).Sent?
    ensures failed.None? ==> |t| == operations && forall i :: 0 <= i < operations ==> t[i] == Sending(Operation(i), true)
    ensures t == Until(OperationStages(operations, apply))
    ensures FirstFailure(OperationStages(operations, apply)) == if failed.None? then None else Some(Failure(Forward, failed.value))
    ensures started <==> operations > 0 && !apply(0).RefusedUnsent?
  {
    hide Until, FirstFailure, Reached, OperationStages, SentInOrder;
    ghost var stages := OperationStages(operations, apply);
    StagesOf(operations, apply);
    Enter(stages);
    t, started := [], false;
    OrderFacts(0);
    for i := 0 to operations
      invariant t == SentInOrder(i) && (started <==> i > 0) && Reached(stages, i, t)
      invariant forall j :: 0 <= j < i ==> apply(j).Sent?
    {
      Pass(stages, i, t);
      OrderFacts(i);
      match apply(i)
      case RefusedUnsent(code) =>
        assert t + [] == t;
        return Some(Coded(code)), started, t;
      case Sent =>
        started := true;
        t := t + [Sending(Operation(i), true)];
      case SentAndFailed(error) =>
        t := t + [Sending(Operation(i), false)];
        return Some(Coded(MutationFailure(error))), true, t;
    }
    OrderFacts(operations);
    Passed(stages, t);
    failed := None;
  }

  /** All operations of the plan, each sent and completed, in order. */
  function SentInOrder(operations: nat): Trace {
    seq(operations, i requires 0 <= i < operations => Sending(Operation(i), true))
  }

  lemma OrderFacts(k: nat)
    ensures var t := SentInOrder(k);
            && |t| == k && t + [Sending(Operation(k), true)] == SentInOrder(k + 1)
            && (forall i :: 0 <= i < k ==> t[i] == Sending(Operation(i), true))
            && SentInOrder(0) == []
  {
  }

  /** Something reached the database: an operation was sent, or the migrator says so, even if it failed. */
  predicate Mutates(input: Input, script: Script) {
    if input.migration then
      match script.migrate case Migrated(started) => started case NotMigrated(error, started) => error.Coded? && started
    else input.operations > 0 && !script.apply(0).RefusedUnsent?
  }

  /** What the run knows of its commit when it ends. */
  function CommitOutcome(input: Input, script: Script): CommitState {
    if FirstFailure(MutationStages(input, script)).Some? then NotStarted
    else match script.commit
         case Fine => Committed
         case Throws(error) => if CommitFailure(error) == COMMIT_INDETERMINATE then Indeterminate else NotCommitted
  }

  function ReadinessOutcome(input: Input, script: Script): Readiness {
    if CommitOutcome(input, script) != Committed || script.final.FinalUnseen? || !script.final.posture then NotRun
    else if script.final.ready then Ready else NotReady
  }

  /** How far the forward run got. */
  function ProgressOf(input: Input, script: Script): Progress {
    var commit := CommitOutcome(input, script);
    Progress(Mutates(input, script), commit == Committed, commit, ReadinessOutcome(input, script),
             FirstFailure(ForwardStages(input, script)))
  }

  method Mutate(input: Input, script: Script) returns (failed: Option<Failure>, started: bool, t: Trace)
    ensures t == Until(MutationStages(input, script)) && failed == FirstFailure(MutationStages(input, script))
    ensures started <==> Mutates(input, script)
    ensures failed.Some? ==> failed.value.phase == Forward
    ensures failed.None? <==> if input.migration then script.migrate.Migrated?
                              else forall i :: 0 <= i < input.operations ==> script.apply(i).Sent?
    ensures forall i :: 0 <= i < |t| ==> t[i].Sending? && (if input.migration then t[i].statement.MigrationRun? else t[i].statement.Operation?)
    ensures !input.migration ==> (started <==> SentOperation(t))
    ensures failed.None? ==> t == if input.migration then [Sending(MigrationRun, true)] else SentInOrder(input.operations)
  {
    if input.migration {
      t := [Sending(MigrationRun, script.migrate.Migrated?)];
      OneStage(MutationStages(input, script));
      match script.migrate
      case Migrated(s) =>
        return None, s, t;
      case NotMigrated(error, s) =>
        return Some(Failure(Forward, error)), error.Coded? && s, t;
    }
    hide Until, FirstFailure;
    var error;
    error, started, t := ApplyAll(input.operations, script.apply);
    assert started ==> t[0].statement.Operation?;
    failed := if error.None? then None else Some(Failure(Forward, error.value));
  }

  lemma OneStage(stages: seq<Stage>)
    requires |stages| == 1
    ensures Until(stages) == stages[0].events && FirstFailure(stages) == stages[0].failure
  {
    Opened(stages);
    assert stages[1..] == [] && stages[0].events + [] == stages[0].events;
  }

  method RunForward(input: Input, script: Script) returns (g: Progress, t: Trace)
    ensures t == Until(ForwardStages(input, script)) && g == ProgressOf(input, script)
    ensures NoneOf(t, InverseStatement)
    ensures Attempted(t, CommitTx) ==>
              t == (if input.migration then [Sending(MigrationRun, true)] else SentInOrder(input.operations))
                   + [Sending(CommitTx, script.commit.Fine?)] + if script.commit.Fine? then [ObservedFinal(script.final)] else []
    ensures g.failed.None? ==> g.committed && g.readiness == Ready && EndsReady(t)
    ensures g.committed <==> CommitReturned(t)
    ensures g.committed <==> g.commitState == Committed
    ensures !input.migration ==> (g.started <==> SentOperation(t))
    ensures !RecoveryTried(t) && NoRestoration(t)
    ensures g.committed <==> CommitsSmoothly(input, script)
    ensures g.committed ==> (g.started <==> Starts(input, script))
    ensures g.failed.None? <==> g.committed && script.final == FinalSeen(true, true)
    ensures g.failed.Some? ==>
              match g.failed.value.phase
              case Forward => !g.committed && g.commitState == NotStarted && g.readiness == NotRun
              case CommitPhase => g.commitState in {NotCommitted, Indeterminate} && g.readiness == NotRun
              case FinalVerify => g.committed && g.failed.value.error == Coded(FINAL_VERIFICATION_FAILED)
              case _ => false
  {
    hide Until, FirstFailure, SentOperation, CommitReturned, RecoveryTried, Attempted, MutationStages, ClosingStages, Mutates, EndsReady;
    var failed, started, before := Mutate(input, script);
    Then(MutationStages(input, script), ClosingStages(script));
    NothingClosed(before);
    if failed.Some? {
      assert before + [] == before;
      return Progress(started, false, NotStarted, NotRun, failed), before;
    }
    var commit, readiness, closing;
    commit, readiness, failed, closing := CommitAndVerify(script);
    t := before + closing;
    Closed(before, script);
    if failed.None? {
      ReadyEnd(before, closing, input.expectedPrestate);
    }
    MutatesStarts(input, script);
    g := Progress(started, commit == Committed, commit, readiness, failed);
  }

  lemma MutatesStarts(input: Input, script: Script)
    ensures CommitsSmoothly(input, script) ==> (Mutates(input, script) <==> Starts(input, script))
  {
  }

  /** The commit, and the last look at the database after it. */
  method CommitAndVerify(script: Script) returns (commit: CommitState, readiness: Readiness, failed: Option<Failure>, t: Trace)
    ensures t == Until(ClosingStages(script)) && failed == FirstFailure(ClosingStages(script))
    ensures t == [Sending(CommitTx, script.commit.Fine?)] + if script.commit.Fine? then [ObservedFinal(script.final)] else []
    ensures commit == match script.commit
                      case Fine => Committed
                      case Throws(error) => if CommitFailure(error) == COMMIT_INDETERMINATE then Indeterminate else NotCommitted
    ensures readiness == if commit != Committed || script.final.FinalUnseen? || !script.final.posture then NotRun
                         else if script.final.ready then Ready else NotReady
    ensures failed.None? <==> commit == Committed && script.final == FinalSeen(true, true)
    ensures failed.Some? ==>
              if commit == Committed then failed.value == Failure(FinalVerify, Coded(FINAL_VERIFICATION_FAILED))
              else failed.value.phase == CommitPhase
    ensures failed.None? ==> EndsReady(t)
  {
    hide Until, FirstFailure, Reached;
    ghost var stages := ClosingStages(script);
    Enter(stages);
    Pass(stages, 0, []);
    t := [Sending(CommitTx, script.commit.Fine?)];
    assert [] + t == t;
    if script.commit.Throws? {
      var code := CommitFailure(script.commit.error);
      return if code == COMMIT_INDETERMINATE then Indeterminate else NotCommitted, NotRun, Some(Failure(CommitPhase, Coded(code))), t;
    }
    Pass(stages, 1, t);
    t := t + [ObservedFinal(script.final)];
    failed := Some(Failure(FinalVerify, Coded(FINAL_VERIFICATION_FAILED)));
    if script.final.FinalUnseen? || !script.final.posture {
      return Committed, NotRun, failed, t;
    }
    if !script.final.ready {
      return Committed, NotReady, failed, t;
    }
    Passed(stages, t);
    return Committed, Ready, None, t;
  }

  lemma NothingClosed(t: Trace)
    requires forall i :: 0 <= i < |t| ==> t[i].Sending? && (t[i].statement.MigrationRun? || t[i].statement.Operation?)
    ensures !CommitReturned(t) && !RecoveryTried(t) && NoRestoration(t) && !Attempted(t, CommitTx)
  {
  }

  lemma Closed(before: Trace, script: Script)
    requires !CommitReturned(before) && !RecoveryTried(before) && NoRestoration(before)
    ensures var t := before + ([Sending(CommitTx, script.commit.Fine?)] + if script.commit.Fine? then [ObservedFinal(script.final)] else []);
            && (CommitReturned(t) <==> script.commit.Fine?) && !RecoveryTried(t) && NoRestoration(t)
            && (SentOperation(t) <==> SentOperation(before))
  {
    var c := [Sending(CommitTx, script.commit.Fine?)] + if script.commit.Fine? then [ObservedFinal(script.final)] else [];
    assert c[0] == Sending(CommitTx, script.commit.Fine?);
    Extends(before, c, [], before + c);
  }

  // ---- Recovery ----

  function Restored(seen: Seen, expected: string): Restoration {
    match seen
    case Unseen(_) => Ambiguous
    case Seen(digest, ready) => if digest == expected && ready then Verified else Failed
  }

  function InverseOpening(script: InverseScript): seq<Stage> {
    [ Stage([], Unless(script.consistent, Failure(RestoreVerify, Coded(INVERSE_INCOMPLETE)))),
      Stage([], StepFailure(script.connect, RestoreVerify)),
      Stage([Sending(InverseBegin, script.begin.Fine?)], StepFailure(script.begin, RestoreVerify)) ]
  }

  function InverseLocking(script: InverseScript): seq<Stage> {
    var locked := script.lock.Fine? && script.objectLocks.Fine?;
    [ Stage([Sending(InverseLocks, locked)],
            if script.lock.Throws? then StepFailure(script.lock, RestoreVerify) else StepFailure(script.objectLocks, RestoreVerify)),
      Stage([Observed(script.capture)],
            match script.capture
            case Unseen(error) => Some(Failure(RestoreVerify, error))
            case Seen(_, _) => Unless(script.authorityMatches, Failure(RestoreVerify, Coded(PREWRITE_DRIFT)))) ]
  }

  function InverseStage(i: nat, applied: Applied): Stage {
    match applied
    case RefusedUnsent(code) => Stage([], Some(Failure(RestoreVerify, Coded(code))))
    case Sent => Stage([Sending(InverseOperation(i), true)], None)
    case SentAndFailed(error) => Stage([Sending(InverseOperation(i), false)], Some(Failure(RestoreVerify, error)))
  }

  /** Every inverse step in order, then the commit. */
  function InverseWork(steps: nat, script: InverseScript): seq<Stage> {
    seq(steps, i requires 0 <= i < steps => InverseStage(i, script.apply(i)))
    + [Stage([Sending(InverseCommit, script.commit.Fine?)], StepFailure(script.commit, RestoreVerify))]
  }

  /** Everything the inverse transaction needs goes well, its commit included. */
  predicate InverseCommits(steps: nat, script: InverseScript) {
    InverseReaches(steps, script) && script.commit.Fine?
  }

  /** The inverse transaction gets as far as its commit. */
  predicate InverseReaches(steps: nat, script: InverseScript) {
    && script.consistent && script.connect.Fine? && script.begin.Fine? && script.lock.Fine? && script.objectLocks.Fine?
    && script.capture.Seen? && script.authorityMatches && forall k :: 0 <= k < steps ==> script.apply(k).Sent?
  }

  /** All inverse steps, each sent and completed, in order. */
  function UndoneInOrder(steps: nat): Trace {
    seq(steps, k requires 0 <= k < steps => Sending(InverseOperation(k), true))
  }

  /** What the repository inverse leaves in the trace. */
  function InverseTrace(steps: nat, script: InverseScript): Trace {
    var inside := InverseLocking(script) + InverseWork(steps, script);
    Until(InverseOpening(script))
    + if FirstFailure(InverseOpening(script)).Some? then []
      else Until(inside) + if FirstFailure(inside).Some? then [Sending(InverseRollback, script.rollback.Fine?)]
                           else [Observed(script.verify)]
  }

  /** The inverse steps, in order, and the commit behind the last. */
  method ApplyInverse(steps: nat, script: InverseScript) returns (ok: bool, t: Trace)
    ensures t == Until(InverseWork(steps, script)) && (ok <==> FirstFailure(InverseWork(steps, script)).None?)
    ensures ok <==> script.commit.Fine? && forall k :: 0 <= k < steps ==> script.apply(k).Sent?
    ensures Attempted(t, InverseCommit) <==> forall k :: 0 <= k < steps ==> script.apply(k).Sent?
    ensures Attempted(t, InverseCommit) ==> t == UndoneInOrder(steps) + [Sending(InverseCommit, script.commit.Fine?)]
    ensures forall j :: 0 <= j < |t| ==> t[j].Sending? && (t[j].statement.InverseOperation? || t[j].statement == InverseCommit)
  {
    hide Until, FirstFailure, Reached, InverseWork, UndoneInOrder, Attempted;
    ghost var stages := InverseWork(steps, script);
    WorkOf(steps, script);
    Enter(stages);
    t := [];
    UndoneFacts(0);
    for i := 0 to steps
      invariant t == UndoneInOrder(i) && Reached(stages, i, t)
      invariant forall j :: 0 <= j < i ==> script.apply(j).Sent?
    {
      Pass(stages, i, t);
      UndoneFacts(i);
      match script.apply(i)
      case RefusedUnsent(_) =>
        assert t + [] == t;
        return false, t;
      case Sent =>
        t := t + [Sending(InverseOperation(i), true)];
      case SentAndFailed(_) =>
        t := t + [Sending(InverseOperation(i), false)];
        return false, t;
    }
    UndoneFacts(steps);
    Pass(stages, steps, t);
    t := t + [Sending(InverseCommit, script.commit.Fine?)];
    ok := script.commit.Fine?;
    if ok {
      Passed(stages, t);
    }
  }

  lemma WorkOf(steps: nat, script: InverseScript)
    ensures var stages := InverseWork(steps, script);
            && |stages| == steps + 1
            && (forall i :: 0 <= i < steps ==> stages[i] == InverseStage(i, script.apply(i)))
            && stages[steps] == Stage([Sending(InverseCommit, script.commit.Fine?)], StepFailure(script.commit, RestoreVerify))
  {
  }

  lemma UndoneFacts(k: nat)
    ensures var t := UndoneInOrder(k);
            && |t| == k && t + [Sending(InverseOperation(k), true)] == UndoneInOrder(k + 1)
            && (forall i :: 0 <= i < k ==> t[i] == Sending(InverseOperation(i), true))
            && UndoneInOrder(0) == [] && !Attempted(t, InverseCommit) && !Attempted(t + [Sending(InverseOperation(k), false)], InverseCommit)
            && Attempted(t + [Sending(InverseCommit, true)], InverseCommit)
            && Attempted(t + [Sending(InverseCommit, false)], InverseCommit)
  {
    var t := UndoneInOrder(k);
    assert (t + [Sending(InverseCommit, true)])[k] == Sending(InverseCommit, true);
    assert (t + [Sending(InverseCommit, false)])[k] == Sending(InverseCommit, false);
  }

  /** The locks of the inverse and its look at the database before the first step. */
  method LockInverse(script: InverseScript) returns (ok: bool, t: Trace)
    ensures t == Until(InverseLocking(script)) && (ok <==> FirstFailure(InverseLocking(script)).None?)
    ensures ok <==> script.lock.Fine? && script.objectLocks.Fine? && script.capture.Seen? && script.authorityMatches
    ensures ok ==> t == [Sending(InverseLocks, true), Observed(script.capture)]
    ensures forall j :: 0 <= j < |t| ==> t[j].Observed? || (t[j].Sending? && t[j].statement == InverseLocks)
  {
    hide Until, FirstFailure, Reached;
    ghost var stages := InverseLocking(script);
    Enter(stages);
    Pass(stages, 0, []);
    ok := script.lock.Fine? && script.objectLocks.Fine?;
    t := [Sending(InverseLocks, ok)];
    assert [] + t == t;
    if ok {
      Pass(stages, 1, t);
      t := t + [Observed(script.capture)];
      ok := script.capture.Seen? && script.authorityMatches;
      if ok {
        Passed(stages, t);
      }
    }
  }

  lemma OpeningOf(script: InverseScript)
    ensures var opening := InverseOpening(script);
            && (FirstFailure(opening).None? <==> script.consistent && script.connect.Fine? && script.begin.Fine?)
            && Until(opening) == if script.consistent && script.connect.Fine? then [Sending(InverseBegin, script.begin.Fine?)] else []
  {
    hide Until, FirstFailure, Reached;
    var stages := InverseOpening(script);
    Enter(stages);
    PassSilent(stages, 0, []);
    if script.consistent {
      PassSilent(stages, 1, []);
      if script.connect.Fine? {
        Pass(stages, 2, []);
        assert [] + stages[2].events == stages[2].events;
        if script.begin.Fine? {
          Passed(stages, stages[2].events);
        }
      }
    }
  }

  /** No event of these belongs to anything but the inverse. */
  predicate InverseOnly(t: Trace) {
    forall j :: 0 <= j < |t| ==>
      t[j].Observed? || (t[j].Sending? && (t[j].statement in {InverseBegin, InverseLocks, InverseCommit, InverseRollback}
                                           || t[j].statement.InverseOperation?))
  }

  /**
   The repository inverse, in its own transaction; true exactly when every step of it succeeds and it ends in a
   verified observation.  A commit is only sent behind all inverse steps, in order.
   */
  method RunInverse(steps: nat, expected: string, script: InverseScript) returns (ok: bool, t: Trace)
    ensures ok ==> EndsVerified(t, expected) && RecoveryTried(t)
    ensures !SentOperation(t) && !CommitReturned(t)
    ensures t == [] || RecoveryTried(t)
    ensures !Attempted(t, RestoreCall)
    ensures t == InverseTrace(steps, script) && InverseOnly(t)
    ensures ok <==> InverseCommits(steps, script) && Matches(script.verify, expected)
    ensures Attempted(t, InverseCommit) <==> InverseReaches(steps, script)
    ensures Attempted(t, InverseCommit) ==>
              t == [Sending(InverseBegin, true), Sending(InverseLocks, true), Observed(script.capture)]
                   + UndoneInOrder(steps)
                   + [Sending(InverseCommit, script.commit.Fine?),
                      if script.commit.Fine? then Observed(script.verify) else Sending(InverseRollback, script.rollback.Fine?)]
  {
    hide Until, FirstFailure, InverseOpening, InverseLocking, InverseWork, Attempted, InverseOnly, EndsVerified, RecoveryTried,
         SentOperation, CommitReturned, UndoneInOrder;
    OpeningOf(script);
    t, ok := [], false;
    if !script.consistent || script.connect.Throws? {
      NoInverseEvents();
      return;
    }
    var begin := [Sending(InverseBegin, script.begin.Fine?)];
    t := begin;
    if script.begin.Throws? {
      assert begin + [] == begin && begin + ([] + []) == begin;
      NoInverseEvents();
      InverseFrame(begin, [], []);
      return;
    }
    var inside;
    ok, inside := WorkInside(steps, script);
    var end := [if ok then Observed(script.verify) else Sending(InverseRollback, script.rollback.Fine?)];
    t := begin + (inside + end);
    InverseFrame(begin, inside, end);
    Joined(begin, inside, end);
    InverseLiteral(steps, script, begin, inside, end);
    ok := ok && Restored(script.verify, expected) == Verified;
    EndsWith(begin + inside, script.verify, expected);
  }

  /** The locks, the look at the database, the inverse steps and the commit. */
  method WorkInside(steps: nat, script: InverseScript) returns (ok: bool, t: Trace)
    ensures t == Until(InverseLocking(script) + InverseWork(steps, script)) && InverseOnly(t)
    ensures ok <==> FirstFailure(InverseLocking(script) + InverseWork(steps, script)).None?
    ensures script.consistent && script.connect.Fine? && script.begin.Fine? ==>
              && (ok <==> InverseCommits(steps, script)) && (Attempted(t, InverseCommit) <==> InverseReaches(steps, script))
    ensures Attempted(t, InverseCommit) ==>
              t == [Sending(InverseLocks, true), Observed(script.capture)] + UndoneInOrder(steps)
                   + [Sending(InverseCommit, script.commit.Fine?)]
    ensures !Attempted(t, RestoreCall)
  {
    hide Until, FirstFailure, InverseLocking, InverseWork, UndoneInOrder;
    var locking;
    ok, locking := LockInverse(script);
    Then(InverseLocking(script), InverseWork(steps, script));
    if !ok {
      assert locking + [] == locking;
      return ok, locking;
    }
    var working;
    ok, working := ApplyInverse(steps, script);
    t := locking + working;
    assert forall e :: e in t <==> e in locking || e in working;
    Joined(locking, UndoneInOrder(steps), [Sending(InverseCommit, script.commit.Fine?)]);
  }

  lemma NoInverseEvents()
    ensures InverseOnly([]) && !SentOperation([]) && !CommitReturned([]) && !RecoveryTried([])
    ensures !Attempted([], RestoreCall) && !Attempted([], InverseCommit)
  {
  }

  lemma InverseEvents(t: Trace)
    requires InverseOnly(t)
    ensures !SentOperation(t) && !CommitReturned(t) && !Attempted(t, RestoreCall)
  {
  }

  /** Around the work of the inverse stand only its begin and its end. */
  lemma InverseFrame(begin: Trace, inside: Trace, end: Trace)
    requires |begin| == 1 && begin[0].Sending? && begin[0].statement == InverseBegin && InverseOnly(inside)
    requires |end| <= 1 && (end != [] ==> end[0].Observed? || (end[0].Sending? && end[0].statement == InverseRollback))
    ensures var t := begin + (inside + end);
            && InverseOnly(t) && RecoveryTried(t) && !SentOperation(t) && !CommitReturned(t) && !Attempted(t, RestoreCall)
            && (Attempted(t, InverseCommit) <==> Attempted(inside, InverseCommit))
  {
    var t := begin + (inside + end);
    assert forall e :: e in t <==> e in begin || e in inside || e in end;
    assert t[0].statement == InverseBegin;
    InverseEvents(t);
  }

  lemma InverseLiteral(steps: nat, script: InverseScript, begin: Trace, inside: Trace, end: Trace)
    requires begin == [Sending(InverseBegin, true)] && |end| == 1
    ensures inside == [Sending(InverseLocks, true), Observed(script.capture)] + UndoneInOrder(steps) + [Sending(InverseCommit, script.commit.Fine?)]
            ==> begin + (inside + end) == [Sending(InverseBegin, true), Sending(InverseLocks, true), Observed(script.capture)]
                                          + UndoneInOrder(steps) + [Sending(InverseCommit, script.commit.Fine?), end[0]]
  {
    hide UndoneInOrder;
  }

  lemma EndsWith(t: Trace, seen: Seen, expected: string)
    ensures EndsVerified(t + [Observed(seen)], expected) <==> Restored(seen, expected) == Verified
    ensures Restored(seen, expected) == Verified <==> Matches(seen, expected)
  {
  }

  /** One recovery step: whether it was attempted and verified, and what the restoration state is after it. */
  datatype Attempt = Attempt(recovery: Recovery, failed: bool, restoration: Restoration)

  /** Recovery steps send no operation of the plan and no commit of it. */
  predicate Recovering(t: Trace) {
    !SentOperation(t) && !CommitReturned(t)
  }

  /** The part of a trace that sends statements of one kind. */
  function Only(t: Trace, kind: Statement -> bool): Trace {
    if t == [] then []
    else Only(t[..|t| - 1], kind) + if t[|t| - 1].Sending? && kind(t[|t| - 1].statement) then [t[|t| - 1]] else []
  }

  predicate ForwardStatement(s: Statement) {
    s in {BeginTx, TargetLock, ObjectLocks, MigrationRun, CommitTx} || s.Operation?
  }

  predicate InverseStatement(s: Statement) {
    s in {InverseBegin, InverseLocks, InverseCommit, InverseRollback} || s.InverseOperation?
  }

  predicate NoneOf(t: Trace, kind: Statement -> bool) {
    forall i :: 0 <= i < |t| ==> t[i].Sending? ==> !kind(t[i].statement)
  }

  lemma {:induction false} OnlyJoin(a: Trace, b: Trace, kind: Statement -> bool)
    ensures Only(a + b, kind) == Only(a, kind) + Only(b, kind)
    decreases |b|
  {
    if b == [] {
      assert a + b == a && Only(a, kind) + [] == Only(a, kind);
    } else {
      var last := |b| - 1;
      assert (a + b)[..|a + b| - 1] == a + b[..last] && (a + b)[|a + b| - 1] == b[last];
      OnlyJoin(a, b[..last], kind);
    }
  }

  lemma {:induction false} OnlyNone(t: Trace, kind: Statement -> bool)
    requires NoneOf(t, kind)
    ensures Only(t, kind) == []
  {
    if t != [] {
      OnlyNone(t[..|t| - 1], kind);
    }
  }

  lemma {:induction false} OnlyAll(t: Trace, kind: Statement -> bool)
    requires forall i :: 0 <= i < |t| ==> t[i].Sending? && kind(t[i].statement)
    ensures Only(t, kind) == t
  {
    if t != [] {
      OnlyAll(t[..|t| - 1], kind);
    }
  }

  function BackOf(input: Input, script: Script, committed: bool): Attempt {
    var restoration := Restored(script.verifyFirst, input.expectedPrestate);
    Attempt(Recovery(!committed, !committed && script.rollback.Fine? && restoration == Verified),
            !committed && script.rollback.Throws?, restoration)
  }

  function BackTrace(script: Script, committed: bool): Trace {
    (if committed then [] else [Sending(RollbackTx, script.rollback.Fine?)]) + [Observed(script.verifyFirst)]
  }

  predicate Inverts(p: Prepared, restoration: Restoration) {
    restoration == Failed && p.hasInverse && !p.external
  }

  predicate InverseSucceeds(input: Input, script: Script, p: Prepared) {
    InverseCommits(p.steps, script.inverse) && Matches(script.inverse.verify, input.expectedPrestate)
  }

  function InverseOf(input: Input, script: Script, p: Prepared, restoration: Restoration): Attempt {
    if !Inverts(p, restoration) then Attempt(Recovery(false, false), false, restoration)
    else if InverseSucceeds(input, script, p) then
      Attempt(Recovery(true, true), false, Restored(script.verifyInverse, input.expectedPrestate))
    else Attempt(Recovery(true, false), true, Failed)
  }

  function InversePart(input: Input, script: Script, p: Prepared, restoration: Restoration): Trace {
    if !Inverts(p, restoration) then []
    else InverseTrace(p.steps, script.inverse) + if InverseSucceeds(input, script, p) then [Observed(script.verifyInverse)] else []
  }

  predicate Restores(input: Input, restoration: Restoration) {
    restoration != Verified && input.capability.Some?
  }

  function ExternalOf(input: Input, script: Script, restoration: Restoration): Attempt {
    if !Restores(input, restoration) then Attempt(Recovery(false, false), false, restoration)
    else if script.restore.Throws? then Attempt(Recovery(true, false), true, Ambiguous)
    else
      var now := Restored(script.verifyRestore, input.expectedPrestate);
      Attempt(Recovery(true, now == Verified), false, now)
  }

  function ExternalPart(input: Input, script: Script, restoration: Restoration): Trace {
    if !Restores(input, restoration) then []
    else if script.restore.Throws? then [Sending(RestoreCall, false)]
    else [Sending(RestoreCall, true), Observed(script.verifyRestore)]
  }

  method RollBackAndVerify(input: Input, script: Script, committed: bool) returns (a: Attempt, t: Trace)
    ensures Recovering(t) && t != [] && NoRestoration(t)
    ensures a.restoration == Restored(script.verifyFirst, input.expectedPrestate)
    ensures a.restoration == Verified <==> Matches(script.verifyFirst, input.expectedPrestate)
    ensures a.restoration == Verified <==> EndsVerified(t, input.expectedPrestate)
    ensures a.restoration in {Verified, Failed, Ambiguous}
    ensures a.recovery.attempted == !committed == RecoveryTried(t)
    ensures a.recovery.verified ==>
              a.recovery.attempted && a.restoration == Verified && Sending(RollbackTx, true) in t && !a.failed
    ensures a.failed ==> a.recovery.attempted
    ensures a == BackOf(input, script, committed) && t == BackTrace(script, committed)
    ensures NoneOf(t, ForwardStatement) && NoneOf(t, InverseStatement)
  {
    t := [];
    if !committed {
      t := [Sending(RollbackTx, script.rollback.Fine?)];
    }
    var failed := !committed && script.rollback.Throws?;
    var restoration := Restored(script.verifyFirst, input.expectedPrestate);
    a := Attempt(Recovery(!committed, !committed && !failed && restoration == Verified), failed, restoration);
    Extends(t, [Observed(script.verifyFirst)], [], t + [Observed(script.verifyFirst)]);
    assert !committed ==> t[0].statement == RollbackTx;
    t := t + [Observed(script.verifyFirst)];
  }

  /** All the inverse sends once it comes to its commit: begin, locks, every step in order, the commit, and no more. */
  function WholeInverse(steps: nat, script: InverseScript): Trace {
    [Sending(InverseBegin, true), Sending(InverseLocks, true)] + UndoneInOrder(steps)
    + [Sending(InverseCommit, script.commit.Fine?)]
    + if script.commit.Fine? then [] else [Sending(InverseRollback, script.rollback.Fine?)]
  }

  lemma OnlyOfInverse(steps: nat, script: InverseScript, t: Trace, seen: Seen)
    requires InverseOnly(t)
    requires Attempted(t, InverseCommit) ==>
              t == [Sending(InverseBegin, true), Sending(InverseLocks, true), Observed(script.capture)]
                   + UndoneInOrder(steps)
                   + [Sending(InverseCommit, script.commit.Fine?),
                      if script.commit.Fine? then Observed(script.verify) else Sending(InverseRollback, script.rollback.Fine?)]
    ensures NoneOf(t, ForwardStatement) && NoneOf(t + [Observed(seen)], ForwardStatement)
    ensures Attempted(t + [Observed(seen)], InverseCommit) <==> Attempted(t, InverseCommit)
    ensures Attempted(t, InverseCommit) ==>
              && Only(t, InverseStatement) == WholeInverse(steps, script)
              && Only(t + [Observed(seen)], InverseStatement) == WholeInverse(steps, script)
  {
    hide Only;
    OnlyJoin(t, [Observed(seen)], InverseStatement);
    OnlyNone([Observed(seen)], InverseStatement);
    assert WholeInverse(steps, script) + [] == WholeInverse(steps, script);
    if Attempted(t, InverseCommit) {
      OnlyOfLiteral(steps, script);
    }
  }

  lemma OnlyOfLiteral(steps: nat, script: InverseScript)
    ensures Only([Sending(InverseBegin, true), Sending(InverseLocks, true), Observed(script.capture)]
                 + UndoneInOrder(steps)
                 + [Sending(InverseCommit, script.commit.Fine?),
                    if script.commit.Fine? then Observed(script.verify) else Sending(InverseRollback, script.rollback.Fine?)],
                 InverseStatement) == WholeInverse(steps, script)
  {
    hide Only;
    var begin, look := [Sending(InverseBegin, true), Sending(InverseLocks, true)], [Observed(script.capture)];
    var work := UndoneInOrder(steps);
    OnlyAll(begin, InverseStatement);
    OnlyNone(look, InverseStatement);
    OnlyAll(work, InverseStatement);
    hide InverseStatement, UndoneInOrder;
    var commit := [Sending(InverseCommit, script.commit.Fine?)];
    var end := [if script.commit.Fine? then Observed(script.verify) else Sending(InverseRollback, script.rollback.Fine?)];
    OnlyOfEnd(script);
    OnlyJoin(begin, look, InverseStatement);
    OnlyJoin(begin + look, work, InverseStatement);
    OnlyJoin(begin + look + work, commit + end, InverseStatement);
    assert begin + look == [Sending(InverseBegin, true), Sending(InverseLocks, true), Observed(script.capture)];
    assert [commit[0], end[0]] == commit + end && begin + [] == begin;
    Joined(begin + work, commit, if script.commit.Fine? then [] else end);
    assert Only(begin + look + work + (commit + end), InverseStatement) == WholeInverse(steps, script);
  }

  lemma OnlyOfEnd(script: InverseScript)
    ensures var commit := [Sending(InverseCommit, script.commit.Fine?)];
            var end := [if script.commit.Fine? then Observed(script.verify) else Sending(InverseRollback, script.rollback.Fine?)];
            Only(commit + end, InverseStatement) == commit + if script.commit.Fine? then [] else end
  {
    hide Only;
    var commit := [Sending(InverseCommit, script.commit.Fine?)];
    var end := [if script.commit.Fine? then Observed(script.verify) else Sending(InverseRollback, script.rollback.Fine?)];
    OnlyJoin(commit, end, InverseStatement);
    OnlyAll(commit, InverseStatement);
    if script.commit.Fine? {
      OnlyNone(end, InverseStatement);
    } else {
      OnlyAll(end, InverseStatement);
    }
  }

  method TryInverse(input: Input, script: Script, p: Prepared, restoration: Restoration) returns (a: Attempt, t: Trace)
    requires restoration in {Verified, Failed, Ambiguous}
    ensures Recovering(t) && !Attempted(t, RestoreCall)
    ensures Attempted(t, InverseBegin) ==> restoration == Failed && p.hasInverse && !p.external
    ensures a.restoration in {Verified, Failed, Ambiguous}
    ensures t == [] || RecoveryTried(t)
    ensures t == [] ==> (a.restoration == Verified <==> restoration == Verified)
    ensures t != [] ==> (a.restoration == Verified ==> EndsVerified(t, input.expectedPrestate))
    ensures restoration == Verified ==> t == [] && !a.recovery.attempted && a.restoration == Verified
    ensures RecoveryTried(t) ==> a.recovery.attempted
    ensures !a.recovery.attempted ==> a.restoration == restoration
    ensures a.recovery.verified ==> a.recovery.attempted
    ensures a == InverseOf(input, script, p, restoration) && t == InversePart(input, script, p, restoration)
    ensures NoneOf(t, ForwardStatement)
    ensures Attempted(t, InverseCommit) ==> p.hasInverse && Only(t, InverseStatement) == WholeInverse(p.steps, script.inverse)
  {
    hide InverseCommits, InverseTrace, InverseOnly, Matches, WholeInverse, Only;
    t := [];
    a := Attempt(Recovery(false, false), false, restoration);
    if restoration == Failed && p.hasInverse && !p.external {
      var ok;
      ok, t := RunInverse(p.steps, input.expectedPrestate, script.inverse);
      OnlyOfInverse(p.steps, script.inverse, t, script.verifyInverse);
      a := Attempt(Recovery(true, ok), !ok, Failed);
      if ok {
        Extends(t, [Observed(script.verifyInverse)], [], t + [Observed(script.verifyInverse)]);
        EndsWith(t, script.verifyInverse, input.expectedPrestate);
        t := t + [Observed(script.verifyInverse)];
        a := Attempt(Recovery(true, true), false, Restored(script.verifyInverse, input.expectedPrestate));
      }
    }
  }

  method TryExternal(input: Input, script: Script, restoration: Restoration) returns (a: Attempt, t: Trace)
    requires restoration in {Verified, Failed, Ambiguous}
    ensures Recovering(t) && !Attempted(t, InverseBegin)
    ensures Attempted(t, RestoreCall) ==> input.capability.Some? && restoration != Verified
    ensures a.restoration in {Verified, Failed, Ambiguous}
    ensures t == [] || RecoveryTried(t)
    ensures t == [] ==> a == Attempt(Recovery(false, false), false, restoration)
    ensures t != [] ==> a.recovery.attempted && (a.restoration == Verified ==> EndsVerified(t, input.expectedPrestate))
    ensures a.recovery.verified ==> a.recovery.attempted && a.restoration == Verified
    ensures a.failed ==> a.recovery == Recovery(true, false) && a.restoration == Ambiguous
    ensures restoration == Verified ==> t == []
    ensures a == ExternalOf(input, script, restoration) && t == ExternalPart(input, script, restoration)
    ensures NoneOf(t, ForwardStatement) && NoneOf(t, InverseStatement)
  {
    t := [];
    a := Attempt(Recovery(false, false), false, restoration);
    if restoration != Verified && input.capability.Some? {
      if script.restore.Throws? {
        t := [Sending(RestoreCall, false)];
        a := Attempt(Recovery(true, false), true, Ambiguous);
      } else {
        t := [Sending(RestoreCall, true), Observed(script.verifyRestore)];
        var now := Restored(script.verifyRestore, input.expectedPrestate);
        a := Attempt(Recovery(true, now == Verified), false, now);
      }
      assert t[0].statement == RestoreCall;
    }
  }

  /** The receipt of a run that had started to mutate and failed, after the three recovery steps. */
  function RecoveryReceipt(g: Progress, originalCode: Code, back: Attempt, inverse: Attempt, external: Attempt): Receipt
    requires g.failed.Some?
  {
    var restoration := external.restoration;
    var code := if external.failed then RESTORE_EXECUTION_FAILED
                else if back.failed then ROLLBACK_FAILED
                else if restoration == Verified then originalCode
                else if restoration == Failed then RESTORATION_FAILED else RESTORATION_AMBIGUOUS;
    var phase := if external.failed then RestorePhase
                 else if back.failed then RollbackPhase
                 else if restoration == Verified then g.failed.value.phase else RestoreVerify;
    Receipt(phase, FAIL, code, true, if g.commitState == NotStarted then NotCommitted else g.commitState,
            back.recovery, inverse.recovery, external.recovery, restoration, g.readiness)
  }

  /** The code of the error a run failed with, by the phase it failed in. */
  function FailureCode(f: Failure): Code {
    match f.phase
    case Forward => MutationFailure(f.error)
    case CommitPhase => CommitFailure(f.error)
    case _ => MapFailure(f.error)
  }

  function UnstartedReceipt(f: Failure, readiness: Readiness): Receipt {
    var none := Recovery(false, false);
    Receipt(f.phase, if f.phase == Forward then FAIL else BLOCKED, FailureCode(f), false, NotStarted,
            none, none, none, NotRequired, readiness)
  }

  /** The receipt a failed run asks for. */
  function Claimed(input: Input, script: Script, p: Prepared, g: Progress): Receipt
    requires g.failed.Some?
  {
    if !g.started then UnstartedReceipt(g.failed.value, g.readiness)
    else
      var back := BackOf(input, script, g.committed);
      var inverse := InverseOf(input, script, p, back.restoration);
      RecoveryReceipt(g, FailureCode(g.failed.value), back, inverse, ExternalOf(input, script, inverse.restoration))
  }

  /** What the handler of a failed run leaves in the trace. */
  function HandlerTrace(input: Input, script: Script, p: Prepared, g: Progress): Trace {
    if !g.started then (if p.session then [Sending(RollbackTx, script.earlyRollback.Fine?)] else [])
    else
      var back := BackOf(input, script, g.committed);
      var inverse := InverseOf(input, script, p, back.restoration);
      BackTrace(script, g.committed) + InversePart(input, script, p, back.restoration)
      + ExternalPart(input, script, inverse.restoration)
  }

  lemma RecoveryReceiptMade(g: Progress, originalCode: Code, back: Attempt, inverse: Attempt, external: Attempt)
    requires g.failed.Some? && (g.committed <==> g.commitState == Committed)
    requires g.failed.value.phase in {Forward, CommitPhase, FinalVerify} && (g.committed <==> g.failed.value.phase == FinalVerify)
    requires back.recovery.attempted == !g.committed && (back.failed ==> back.recovery.attempted)
    requires external.restoration in {Verified, Failed, Ambiguous}
    requires inverse.recovery.verified ==> inverse.recovery.attempted
    requires external.recovery.verified ==> external.recovery.attempted && external.restoration == Verified
    requires back.recovery.verified ==> back.recovery.attempted
    ensures var r := MakeReceipt(RecoveryReceipt(g, originalCode, back, inverse, external));
            && (r.None? <==> g.committed && external.restoration == Verified
                             && !inverse.recovery.attempted && !external.recovery.attempted)
            && (r.Some? ==>
                  && ValidReceipt(r.value) && r.value.outcome == FAIL && r.value.mutationStarted
                  && (r.value.restoration == Verified ==> external.restoration == Verified)
                  && (r.value.commitState == Committed <==> g.committed)
                  && (r.value.rollback.verified ==> back.recovery.verified))
  {
    hide Allowed;
    var receipt := RecoveryReceipt(g, originalCode, back, inverse, external);
    MakeReceiptThrows(receipt);
    if MakeReceipt(receipt).Some? {
      ReceiptKeepsFacts(receipt);
    }
  }

  lemma OnlyOfThree(a: Trace, b: Trace, c: Trace)
    requires NoneOf(a, ForwardStatement) && NoneOf(b, ForwardStatement) && NoneOf(c, ForwardStatement)
    requires NoneOf(a, InverseStatement) && NoneOf(c, InverseStatement)
    ensures Only(a + b + c, ForwardStatement) == [] && Only(a + b + c, InverseStatement) == Only(b, InverseStatement)
    ensures Attempted(a + b + c, InverseCommit) <==> Attempted(b, InverseCommit)
  {
    hide Only;
    OnlyNone(a + b + c, ForwardStatement);
    OnlyJoin(a + b, c, InverseStatement);
    OnlyJoin(a, b, InverseStatement);
    OnlyNone(a, InverseStatement);
    OnlyNone(c, InverseStatement);
    assert forall e :: e in a + b + c <==> e in a || e in b || e in c;
    forall ok: bool, s: seq<Event> | s in [a, c] && NoneOf(s, InverseStatement)
      ensures Sending(InverseCommit, ok) !in s
    {
    }
  }

  /** What the executor's handler does after a failure: roll back, verify, then inverse, then external restore. */
  method Recover(input: Input, script: Script, p: Prepared, g: Progress) returns (r: Option<Receipt>, t: Trace)
    requires g.failed.Some?
    requires g.started || g.committed ==> p.session
    requires g.committed <==> g.commitState == Committed
    requires g.failed.value.phase in {Admission, Planning, Observe, PrestateCheck, InverseCheck, Prewrite, Forward, CommitPhase, FinalVerify}
    requires g.failed.value.phase !in {Forward, CommitPhase, FinalVerify} ==> !g.started
    requires g.committed <==> g.failed.value.phase == FinalVerify
    ensures Recovering(t) && (p.session ==> t != [])
    ensures Attempted(t, RestoreCall) ==> input.capability.Some?
    ensures Attempted(t, InverseBegin) ==>
              p.hasInverse && !p.external && Restored(script.verifyFirst, input.expectedPrestate) == Failed
    ensures r.None? <==> g.started && g.committed && Matches(script.verifyFirst, input.expectedPrestate)
    ensures r.None? <==> g.committed && EndsVerified(t, input.expectedPrestate) && !RecoveryTried(t)
    ensures r.Some? ==>
              && ValidReceipt(r.value) && r.value.outcome != PASS
              && r.value.mutationStarted == g.started
              && (r.value.outcome == BLOCKED ==> g.failed.value.phase !in {Forward, CommitPhase, FinalVerify})
              && (r.value.restoration == Verified ==> EndsVerified(t, input.expectedPrestate))
              && (g.started ==> (r.value.commitState == Committed <==> g.committed))
              && (!g.started ==> r.value.commitState != Committed)
              && (r.value.rollback.verified ==> Sending(RollbackTx, true) in t)
    ensures r == MakeReceipt(Claimed(input, script, p, g)) && t == HandlerTrace(input, script, p, g)
    ensures Only(t, ForwardStatement) == []
    ensures Attempted(t, InverseCommit) ==> p.hasInverse && Only(t, InverseStatement) == WholeInverse(p.steps, script.inverse)
  {
    hide InverseCommits, InverseTrace, WholeInverse, Only, BackOf, BackTrace, InverseOf, InversePart, ExternalOf, ExternalPart;
    hide RecoveryReceipt, MakeReceipt, ValidReceipt, SentOperation, CommitReturned, RecoveryTried, EndsVerified, Matches, Allowed, Restored;
    var phase, error := g.failed.value.phase, g.failed.value.error;
    var originalCode := if phase == Forward then MutationFailure(error)
                        else if phase == CommitPhase then CommitFailure(error) else MapFailure(error);
    if !g.started {
      r, t := ReportUnstarted(phase, originalCode, p.session, script.earlyRollback, g.readiness);
      NotVerifiedEnd(t, input.expectedPrestate);
      OnlyNone(t, ForwardStatement);
      return;
    }
    var back, t1 := RollBackAndVerify(input, script, g.committed);
    var inverse, t2 := TryInverse(input, script, p, back.restoration);
    var external, t3 := TryExternal(input, script, inverse.restoration);
    t := t1 + t2 + t3;
    Extends(t1, t2, t3, t);
    EndsAs(t1, t2, t3, input.expectedPrestate);
    OnlyOfThree(t1, t2, t3);
    RecoveryReceiptMade(g, originalCode, back, inverse, external);
    r := MakeReceipt(RecoveryReceipt(g, originalCode, back, inverse, external));
  }

  /** A failure before any mutation: the session is rolled back without a claim, and the receipt is BLOCKED or FORWARD/FAIL. */
  method ReportUnstarted(phase: Phase, code: Code, session: bool, earlyRollback: Step, readiness: Readiness)
    returns (r: Option<Receipt>, t: Trace)
    requires phase in {Admission, Planning, Observe, PrestateCheck, InverseCheck, Prewrite, Forward, CommitPhase, FinalVerify}
    ensures Recovering(t) && NoRestoration(t)
    ensures t == if session then [Sending(RollbackTx, earlyRollback.Fine?)] else []
    ensures session ==> RecoveryTried(t)
    ensures r.Some? && ValidReceipt(r.value) && r.value.outcome != PASS && !r.value.mutationStarted
    ensures r.value.outcome == BLOCKED ==> phase !in {Forward, CommitPhase, FinalVerify}
    ensures r.value.restoration != Verified && r.value.commitState != Committed && !r.value.rollback.verified
    ensures r == MakeReceipt(Receipt(phase, if phase == Forward then FAIL else BLOCKED, code, false, NotStarted,
                                     Recovery(false, false), Recovery(false, false), Recovery(false, false), NotRequired, readiness))
    ensures NoneOf(t, ForwardStatement) && !Attempted(t, InverseCommit)
  {
    hide Allowed, FailRules, Recovering, RecoveryTried;
    t := if session then [Sending(RollbackTx, earlyRollback.Fine?)] else [];
    EarlyTrace(session, earlyRollback.Fine?);
    var none := Recovery(false, false);
    var receipt := Receipt(phase, if phase == Forward then FAIL else BLOCKED, code, false, NotStarted,
                           none, none, none, NotRequired, readiness);
    r := MakeReceipt(receipt);
    MakeReceiptThrows(receipt);
    ReceiptKeepsFacts(receipt);
    if r.value.outcome == BLOCKED {
      BlockedPhases(r.value);
    }
  }

  lemma EarlyTrace(session: bool, ok: bool)
    ensures Recovering(if session then [Sending(RollbackTx, ok)] else [])
    ensures session ==> RecoveryTried([Sending(RollbackTx, ok)])
  {
    var t := [Sending(RollbackTx, ok)];
    assert t[0].statement == RollbackTx;
  }

  lemma NotVerifiedEnd(t: Trace, expected: string)
    requires t == [] || t[|t| - 1].Sending?
    ensures !EndsVerified(t, expected)
  {
  }

  lemma EndsAs(t1: Trace, t2: Trace, t3: Trace, expected: string)
    ensures t3 != [] ==> (EndsVerified(t1 + t2 + t3, expected) <==> EndsVerified(t3, expected))
    ensures t3 == [] && t2 != [] ==> (EndsVerified(t1 + t2 + t3, expected) <==> EndsVerified(t2, expected))
    ensures t3 == [] && t2 == [] ==> (EndsVerified(t1 + t2 + t3, expected) <==> EndsVerified(t1, expected))
  {
  }

  /** Trace facts survive appending. */
  lemma Extends(a: Trace, b: Trace, c: Trace, t: Trace)
    requires t == a + b + c
    ensures SentOperation(t) <==> SentOperation(a) || SentOperation(b) || SentOperation(c)
    ensures CommitReturned(t) <==> CommitReturned(a) || CommitReturned(b) || CommitReturned(c)
    ensures RecoveryTried(t) <==> RecoveryTried(a) || RecoveryTried(b) || RecoveryTried(c)
    ensures forall e :: e in t <==> e in a || e in b || e in c
  {
    assert forall i :: 0 <= i < |a| ==> t[i] == a[i];
    assert forall i :: 0 <= i < |b| ==> t[|a| + i] == b[i];
    assert forall i :: 0 <= i < |c| ==> t[|a| + |b| + i] == c[i];
  }

  // ---- The whole run ----

  /** The one exit without a receipt: the plan committed, the prestate was nevertheless observed again, and no recovery ran. */
  predicate Stranded(t: Trace, expected: string) {
    CommitReturned(t) && EndsVerified(t, expected) && !RecoveryTried(t)
  }

  /**
   For every environment the executor ends with a valid receipt, except in the one stranded exit; and
   the receipt is faithful: BLOCKED means no operation reached the connection and no commit returned,
   PASS means the commit returned and the last thing seen was readiness, VERIFIED means the last event
   is an observation of the expected prestate, with nothing sent after it.
   */
  method ExecuteDurablePlan(input: Input, script: Script) returns (r: Option<Receipt>, t: Trace)
    ensures t == TraceOf(input, script) && r == ReceiptOf(input, script)
    ensures r.None? <==> Stranded(t, input.expectedPrestate)
    ensures r.Some? ==> ValidReceipt(r.value)
    ensures r.Some? && !input.migration ==> (r.value.mutationStarted <==> SentOperation(t))
    ensures r.Some? && r.value.outcome == BLOCKED ==> !CommitReturned(t) && (!input.migration ==> !SentOperation(t))
    ensures r.Some? && r.value.outcome == PASS ==> CommitReturned(t) && EndsReady(t) && !RecoveryTried(t)
    ensures r.Some? && r.value.restoration == Verified ==> EndsVerified(t, input.expectedPrestate)
    ensures r.Some? && r.value.mutationStarted ==> (r.value.commitState == Committed <==> CommitReturned(t))
    ensures r.Some? && r.value.commitState == Committed ==> CommitReturned(t)
    ensures r.Some? && r.value.rollback.verified ==> Sending(RollbackTx, true) in t
    ensures Attempted(t, RestoreCall) ==> input.capability.Some?
    ensures Attempted(t, InverseBegin) ==>
              !input.migration && Restored(script.verifyFirst, input.expectedPrestate) == Failed
    ensures r.None? <==> Strands(input, script)
    ensures r.Some? && r.value.outcome == PASS <==> Smooth(input, script) && script.final == FinalSeen(true, true)
    ensures Attempted(t, CommitTx) ==> Only(t, ForwardStatement) == WholeForward(input, script)
    ensures Attempted(t, InverseCommit) ==>
              script.derive.Derivation? && Only(t, InverseStatement) == WholeInverse(script.derive.steps, script.inverse)
  {
    hide SentOperation, CommitReturned, RecoveryTried, EndsVerified, EndsReady, Matches, Allowed, Harmless, Restored, AdmitsSmoothly,
         PreparesSmoothly, CommitsSmoothly, ValidReceipt;
    hide Until, FirstFailure, AdmitStages, PrepareStages, ForwardStages, HandlerTrace, Claimed, Only, WholeForward, WholeInverse,
         Smooth, Starts, Attempted, MakeReceipt, PreparedOf, ProgressOf;
    NothingVerified(input.expectedPrestate);
    var p, g, front := RunForwardPart(input, script);
    t := front;
    if g.failed.None? {
      var none := Recovery(false, false);
      var receipt := Receipt(FinalVerify, PASS, SUCCESS, g.started, g.commitState, none, none, none, NotRequired, Ready);
      SuccessReceipt(receipt);
      r := MakeReceipt(receipt);
      ReadyEnd([], front, input.expectedPrestate);
      assert [] + front == front && front + [] == front;
      return;
    }
    var more;
    r, more := Recover(input, script, p, g);
    t := front + more;
    Extends(front, [], more, t);
    EndsAs(front, [], more, input.expectedPrestate);
    Whole(front, more);
  }

  lemma Whole(front: Trace, more: Trace)
    ensures front + [] + more == front + more
    ensures Only(more, ForwardStatement) == [] ==> Only(front + more, ForwardStatement) == Only(front, ForwardStatement)
    ensures Only(front, InverseStatement) == [] ==> Only(front + more, InverseStatement) == Only(more, InverseStatement)
    ensures forall s: Statement :: Attempted(front + more, s) <==> Attempted(front, s) || Attempted(more, s)
    ensures Only(more, ForwardStatement) == [] ==> !Attempted(more, CommitTx)
  {
    OnlyJoin(front, more, ForwardStatement);
    OnlyJoin(front, more, InverseStatement);
    assert forall e :: e in front + more <==> e in front || e in more;
    OnlyKeeps(more, ForwardStatement);
  }

  lemma {:induction false} OnlyKeeps(t: Trace, kind: Statement -> bool)
    ensures forall e :: e in t && e.Sending? && kind(e.statement) ==> e in Only(t, kind)
  {
    if t != [] {
      OnlyKeeps(t[..|t| - 1], kind);
      assert t == t[..|t| - 1] + [t[|t| - 1]];
    }
  }

  /** All the run sends of its plan once it comes to its commit: begin, locks, every operation in order, the commit. */
  function WholeForward(input: Input, script: Script): Trace {
    [Sending(BeginTx, true), Sending(TargetLock, true), Sending(ObjectLocks, true)]
    + (if input.migration then [Sending(MigrationRun, true)] else SentInOrder(input.operations))
    + [Sending(CommitTx, script.commit.Fine?)]
  }

  const NOTHING_PREPARED := Prepared(None, false, false, 0, false)

  /** How far the run gets before its handler, if it comes to that. */
  function ReachedOf(input: Input, script: Script): (Prepared, Progress) {
    var admission := FirstFailure(AdmitStages(input, script));
    var p := PreparedOf(input, script);
    if admission.Some? then (NOTHING_PREPARED, Progress(false, false, NotStarted, NotRun, admission))
    else if p.failed.Some? then (p, Progress(false, false, NotStarted, NotRun, p.failed))
    else (p, ProgressOf(input, script))
  }

  function FrontTrace(input: Input, script: Script): Trace {
    Until(AdmitStages(input, script) + (PrepareStages(input, script) + ForwardStages(input, script)))
  }

  /** The whole trace, as the stages and the handler say. */
  function TraceOf(input: Input, script: Script): Trace {
    var (p, g) := ReachedOf(input, script);
    FrontTrace(input, script) + if g.failed.None? then [] else HandlerTrace(input, script, p, g)
  }

  function ReceiptOf(input: Input, script: Script): Option<Receipt> {
    var (p, g) := ReachedOf(input, script);
    if g.failed.None? then
      var none := Recovery(false, false);
      Some(Receipt(FinalVerify, PASS, SUCCESS, g.started, Committed, none, none, none, NotRequired, Ready))
    else MakeReceipt(Claimed(input, script, p, g))
  }

  /** Admission, preparation, and the forward run: everything before the handler. */
  method RunForwardPart(input: Input, script: Script) returns (p: Prepared, g: Progress, t: Trace)
    ensures (p, g) == ReachedOf(input, script) && t == FrontTrace(input, script)
    ensures g.started || g.committed ==> p.session
    ensures g.committed <==> g.commitState == Committed
    ensures g.committed <==> CommitReturned(t)
    ensures g.committed <==> Smooth(input, script)
    ensures g.committed ==> (g.started <==> Starts(input, script))
    ensures g.failed.None? <==> g.committed && script.final == FinalSeen(true, true)
    ensures g.failed.None? ==> EndsReady(t) && g.readiness == Ready
    ensures !input.migration ==> (g.started <==> SentOperation(t))
    ensures !RecoveryTried(t) && NoRestoration(t)
    ensures g.failed.Some? ==>
              && g.failed.value.phase in {Admission, Planning, Observe, PrestateCheck, InverseCheck, Prewrite, Forward, CommitPhase, FinalVerify}
              && (g.failed.value.phase !in {Forward, CommitPhase, FinalVerify} ==> !g.started)
              && (g.committed <==> g.failed.value.phase == FinalVerify)
    ensures p.hasInverse ==> !input.migration && script.derive.Derivation? && p.steps == script.derive.steps
    ensures Attempted(t, CommitTx) ==> Only(t, ForwardStatement) == WholeForward(input, script)
    ensures Only(t, InverseStatement) == [] && !Attempted(t, InverseCommit)
  {
    hide Until, FirstFailure, AdmitStages, PrepareStages, ForwardStages, Only, WholeForward, SentOperation, CommitReturned, RecoveryTried,
         EndsReady, Harmless, AdmitsSmoothly, PreparesSmoothly, CommitsSmoothly, ProgressOf, PreparedOf, Attempted, NoRestoration;
    NothingVerified(input.expectedPrestate);
    NothingSent(input, script);
    var failed := Admit(input, script);
    Then(AdmitStages(input, script), PrepareStages(input, script) + ForwardStages(input, script));
    if failed.Some? {
      return NOTHING_PREPARED, Progress(false, false, NotStarted, NotRun, failed), [];
    }
    var before;
    p, before := Prepare(input, script);
    HarmlessIs(before);
    Then(PrepareStages(input, script), ForwardStages(input, script));
    if p.failed.Some? {
      assert before + [] == before && [] + before == before;
      assert FrontTrace(input, script) == [] + (before + []);
      return p, Progress(false, false, NotStarted, NotRun, p.failed), before;
    }
    var forward;
    g, forward := RunForward(input, script);
    t := before + forward;
    assert [] + t == t;
    Extends(before, forward, [], t + []);
    assert t + [] == t;
    OnlyOfFront(input, script, before, forward);
    if g.failed.None? {
      ReadyEnd(before, forward, input.expectedPrestate);
    }
  }

  lemma HarmlessIs(t: Trace)
    requires Harmless(t)
    ensures !SentOperation(t) && !CommitReturned(t) && !RecoveryTried(t) && NoRestoration(t)
    ensures !Attempted(t, CommitTx) && !Attempted(t, InverseCommit) && Only(t, InverseStatement) == []
  {
    OnlyNone(t, InverseStatement);
  }

  lemma OnlyOfFront(input: Input, script: Script, before: Trace, forward: Trace)
    requires before == [Observed(script.observe), Sending(BeginTx, true), Sending(TargetLock, true), Sending(ObjectLocks, true),
                        Observed(script.inTransaction), Observed(script.afterLock)]
    requires Attempted(forward, CommitTx) ==>
               forward == (if input.migration then [Sending(MigrationRun, true)] else SentInOrder(input.operations))
                          + [Sending(CommitTx, script.commit.Fine?)] + if script.commit.Fine? then [ObservedFinal(script.final)] else []
    requires NoneOf(forward, InverseStatement) && NoRestoration(forward)
    ensures var t := before + forward;
            && (Attempted(t, CommitTx) ==> Only(t, ForwardStatement) == WholeForward(input, script))
            && Only(t, InverseStatement) == [] && !Attempted(t, InverseCommit) && NoRestoration(t)
  {
    hide Only, SentInOrder;
    var t := before + forward;
    OnlyNone(t, InverseStatement);
    assert forall e :: e in t <==> e in before || e in forward;
    if Attempted(forward, CommitTx) {
      OnlyJoin(before, forward, ForwardStatement);
      OnlyOfBefore(script, before);
      OnlyOfForward(input, script, forward);
      Joined([Sending(BeginTx, true), Sending(TargetLock, true), Sending(ObjectLocks, true)],
             if input.migration then [Sending(MigrationRun, true)] else SentInOrder(input.operations),
             [Sending(CommitTx, script.commit.Fine?)]);
    }
  }

  lemma OnlyOfBefore(script: Script, before: Trace)
    requires before == [Observed(script.observe), Sending(BeginTx, true), Sending(TargetLock, true), Sending(ObjectLocks, true),
                        Observed(script.inTransaction), Observed(script.afterLock)]
    ensures Only(before, ForwardStatement) == [Sending(BeginTx, true), Sending(TargetLock, true), Sending(ObjectLocks, true)]
  {
    hide Only;
    var first, looks := [Observed(script.observe)], [Observed(script.inTransaction), Observed(script.afterLock)];
    var locks := [Sending(BeginTx, true), Sending(TargetLock, true), Sending(ObjectLocks, true)];
    assert before == first + locks + looks;
    OnlyJoin(first + locks, looks, ForwardStatement);
    OnlyJoin(first, locks, ForwardStatement);
    OnlyNone(first, ForwardStatement);
    OnlyNone(looks, ForwardStatement);
    OnlyAll(locks, ForwardStatement);
  }

  lemma OnlyOfForward(input: Input, script: Script, forward: Trace)
    requires forward == (if input.migration then [Sending(MigrationRun, true)] else SentInOrder(input.operations))
                        + [Sending(CommitTx, script.commit.Fine?)] + if script.commit.Fine? then [ObservedFinal(script.final)] else []
    ensures Only(forward, ForwardStatement) ==
            (if input.migration then [Sending(MigrationRun, true)] else SentInOrder(input.operations))
            + [Sending(CommitTx, script.commit.Fine?)]
  {
    hide Only;
    var sent := (if input.migration then [Sending(MigrationRun, true)] else SentInOrder(input.operations))
                + [Sending(CommitTx, script.commit.Fine?)];
    var end := if script.commit.Fine? then [ObservedFinal(script.final)] else [];
    OnlyJoin(sent, end, ForwardStatement);
    OnlyNone(end, ForwardStatement);
    OnlyAll(sent, ForwardStatement);
  }

  lemma NothingSent(input: Input, script: Script)
    ensures !Attempted([], CommitTx) && Only([], InverseStatement) == [] && !Attempted([], InverseCommit)
  {
  }

  lemma NothingVerified(expected: string)
    ensures !EndsVerified([], expected) && !SentOperation([]) && !CommitReturned([]) && !RecoveryTried([]) && NoRestoration([])
  {
  }

  lemma ReadyEnd(before: Trace, forward: Trace, expected: string)
    requires EndsReady(forward)
    ensures EndsReady(before + forward) && !EndsVerified(before + forward, expected)
  {
  }

  lemma PreparedPlans(input: Input, script: Script)
    requires FirstFailure(PrepareStages(input, script)).None?
    ensures Plans(input, script)
  {
    hide Until, FirstFailure, Reached;
    var stages := OpeningStages(input, script);
    Then(stages, LockStages(script) + LookStages(input, script));
    Enter(stages);
    Pass(stages, 0, []);
    if script.observe.Seen? && script.observe.digest == input.expectedPrestate {
      PassSilent(stages, 1, [] + stages[0].events);
    }
  }

  /**
   What a receipt says of the recovery, in terms of the environment: each step is reported as attempted exactly if the
   one before left the database unrestored and the step was possible, as verified exactly if all of it went well, and
   the code is that of the last thing that went wrong.
   */
  lemma RecoveryReported(input: Input, script: Script, r: Receipt)
    requires ReceiptOf(input, script) == Some(r) && r.outcome == FAIL && r.mutationStarted && r.phase != ReceiptPhase
    ensures var first := Restored(script.verifyFirst, input.expectedPrestate);
            var second := if !r.inverse.attempted then first
                          else if r.inverse.verified then Restored(script.verifyInverse, input.expectedPrestate) else Failed;
            && r.rollback.attempted == (r.commitState != Committed)
            && r.rollback.verified == (r.rollback.attempted && script.rollback.Fine? && first == Verified)
            && r.inverse.attempted == (first == Failed && !input.migration && script.derive.Derivation? && !script.derive.external)
            && (r.inverse.verified <==>
                  r.inverse.attempted && InverseCommits(script.derive.steps, script.inverse)
                  && Matches(script.inverse.verify, input.expectedPrestate))
            && r.external.attempted == (second != Verified && input.capability.Some?)
            && r.external.verified == (r.external.attempted && script.restore.Fine? && Matches(script.verifyRestore, input.expectedPrestate))
            && r.restoration == (if !r.external.attempted then second else if script.restore.Throws? then Ambiguous
                                 else Restored(script.verifyRestore, input.expectedPrestate))
            && ReachedOf(input, script).1.failed.Some?
            && var failed := ReachedOf(input, script).1.failed.value;
               (r.phase, r.code) ==
                 if r.external.attempted && script.restore.Throws? then (RestorePhase, RESTORE_EXECUTION_FAILED)
                 else if r.rollback.attempted && script.rollback.Throws? then (RollbackPhase, ROLLBACK_FAILED)
                 else if r.restoration == Verified then (failed.phase, FailureCode(failed))
                 else (RestoreVerify, if r.restoration == Failed then RESTORATION_FAILED else RESTORATION_AMBIGUOUS)
  {
    hide Until, FirstFailure, AdmitStages, PrepareStages, ForwardStages, ValidReceipt, Fallback, InverseCommits, Matches;
    var (p, g) := ReachedOf(input, script);
    AsClaimed(Claimed(input, script, p, g), r);
    assert g.started;
    assert p == PreparedOf(input, script) && p.failed.None?;
    PreparedPlans(input, script);
    RestoredIs(script.verifyFirst, input.expectedPrestate);
    RestoredIs(script.verifyRestore, input.expectedPrestate);
  }

  lemma {:induction false} NoneFails(stages: seq<Stage>)
    ensures FirstFailure(stages).None? <==> forall i :: 0 <= i < |stages| ==> stages[i].failure.None?
  {
    if stages != [] {
      NoneFails(stages[1..]);
      assert forall i :: 1 <= i < |stages| ==> stages[i] == stages[1..][i - 1];
    }
  }

  /** Every operation was sent and completed, or the migrator returned. */
  predicate MutatesSmoothly(input: Input, script: Script) {
    if input.migration then script.migrate.Migrated? else forall i :: 0 <= i < input.operations ==> script.apply(i).Sent?
  }

  lemma MutationFails(input: Input, script: Script)
    ensures FirstFailure(MutationStages(input, script)).None? <==> MutatesSmoothly(input, script)
  {
    hide FirstFailure;
    var stages := MutationStages(input, script);
    NoneFails(stages);
    if input.migration {
      assert stages[0].failure.None? <==> script.migrate.Migrated?;
    } else {
      StagesOf(input.operations, script.apply);
      assert forall i :: 0 <= i < input.operations ==> (stages[i].failure.None? <==> script.apply(i).Sent?);
    }
  }

  /**
   What a receipt says of the commit and of readiness: committed exactly if everything up to the commit went well and
   it returned, in doubt exactly if the commit lost its connection or says so itself, and ready or not as the last look found.
   */
  lemma CommitReported(input: Input, script: Script, r: Receipt)
    requires ReceiptOf(input, script) == Some(r) && r.outcome == FAIL && r.mutationStarted && r.phase != ReceiptPhase
    ensures r.commitState in {NotCommitted, Committed, Indeterminate}
    ensures r.commitState == Committed <==> MutatesSmoothly(input, script) && script.commit.Fine?
    ensures r.commitState == Indeterminate <==>
              MutatesSmoothly(input, script) && script.commit in {Throws(Foreign(true)), Throws(Coded(COMMIT_INDETERMINATE))}
    ensures r.readiness ==
            if r.commitState == Committed && script.final.FinalSeen? && script.final.posture
            then (if script.final.ready then Ready else NotReady) else NotRun
  {
    hide Until, FirstFailure, AdmitStages, PrepareStages, ForwardStages, MutationStages, ValidReceipt, Fallback, BackOf, InverseOf, ExternalOf,
         MutatesSmoothly;
    var (p, g) := ReachedOf(input, script);
    AsClaimed(Claimed(input, script, p, g), r);
    assert g.started && g == ProgressOf(input, script);
    MutationFails(input, script);
  }

  lemma {:induction false} FailsAt(stages: seq<Stage>) returns (i: nat)
    requires FirstFailure(stages).Some?
    ensures i < |stages| && FirstFailure(stages) == stages[i].failure
  {
    i := 0;
    if stages[0].failure.None? {
      var k := FailsAt(stages[1..]);
      i := k + 1;
    }
  }

  /** The first failure of three stages. */
  lemma FirstOfThree(a: Stage, b: Stage, c: Stage)
    ensures FirstFailure([a, b, c]) == if a.failure.Some? then a.failure else if b.failure.Some? then b.failure else c.failure
  {
    hide FirstFailure;
    Opened([a, b, c]);
    Opened([b, c]);
    assert [a, b, c][1..] == [b, c] && [b, c][1..] == [c];
    OneStage([c]);
  }

  lemma AdmitFails(input: Input, script: Script)
    ensures var f := FirstFailure(AdmitStages(input, script));
            && (f.None? <==> AdmitsSmoothly(input, script))
            && (f.Some? ==> f.value.phase == if input.rootDir then Admission else Planning)
  {
    hide FirstFailure;
    var s := AdmitStages(input, script);
    FirstOfThree(s[0], s[1], s[2]);
    FirstOfThree(s[3], s[4], s[5]);
    assert s == [s[0], s[1], s[2]] + [s[3], s[4], s[5]];
    Then([s[0], s[1], s[2]], [s[3], s[4], s[5]]);
  }

  lemma OpenFails(input: Input, script: Script)
    ensures var f := FirstFailure(OpeningStages(input, script));
            && (f.None? <==> Plans(input, script) && (input.ownConnection || script.connect.Fine?))
            && (f.Some? ==> f.value.phase ==
                            if script.observe.Unseen? then Observe
                            else if script.observe.digest != input.expectedPrestate then PrestateCheck
                            else if !Plans(input, script) then InverseCheck else Prewrite)
  {
    hide FirstFailure;
    var s := OpeningStages(input, script);
    FirstOfThree(s[0], s[1], s[2]);
    assert s == [s[0], s[1], s[2]];
  }

  lemma LockFails(input: Input, script: Script)
    ensures var f := FirstFailure(LockStages(script) + LookStages(input, script));
            && (f.None? <==>
                  && script.begin.Fine? && script.lock.Fine? && script.objectLocks.Fine?
                  && (input.rootDir ==> script.contractAgain == Told(input.expectedContract))
                  && script.inTransaction.Seen? && script.inTransaction.digest == input.expectedPrestate
                  && script.afterLock.Seen? && script.afterLock.digest == input.expectedPrestate)
            && (f.Some? ==> f.value.phase == Prewrite)
  {
    hide FirstFailure;
    var s, t := LockStages(script), LookStages(input, script);
    FirstOfThree(s[0], s[1], s[2]);
    FirstOfThree(t[0], t[1], t[2]);
    assert s == [s[0], s[1], s[2]] && t == [t[0], t[1], t[2]];
    Then(s, t);
  }

  lemma ForwardFails(input: Input, script: Script)
    ensures var f := FirstFailure(ForwardStages(input, script));
            && (f.None? <==> MutatesSmoothly(input, script) && script.commit.Fine? && script.final == FinalSeen(true, true))
            && (f.Some? ==> f.value.phase ==
                            if !MutatesSmoothly(input, script) then Forward else if script.commit.Throws? then CommitPhase else FinalVerify)
  {
    hide FirstFailure, MutatesSmoothly;
    var work, closing := MutationStages(input, script), ClosingStages(script);
    Then(work, closing);
    MutationFails(input, script);
    Opened(closing);
    OneStage(closing[1..]);
    if FirstFailure(work).Some? {
      var i := FailsAt(work);
      WorkPhase(input, script, i);
    }
  }

  lemma WorkPhase(input: Input, script: Script, i: nat)
    requires i < |MutationStages(input, script)|
    ensures MutationStages(input, script)[i].failure.Some? ==> MutationStages(input, script)[i].failure.value.phase == Forward
  {
    if !input.migration {
      StagesOf(input.operations, script.apply);
    }
  }

  /** The phase a run fails in, from the first thing that goes wrong; it fails in none exactly if everything goes well. */
  lemma FailedPhase(input: Input, script: Script)
    ensures var f := ReachedOf(input, script).1.failed;
            && (f.None? <==> Smooth(input, script) && script.final == FinalSeen(true, true))
            && (f.Some? ==>
                  f.value.phase ==
                    if !AdmitsSmoothly(input, script) then (if input.rootDir then Admission else Planning)
                    else if script.observe.Unseen? then Observe
                    else if script.observe.digest != input.expectedPrestate then PrestateCheck
                    else if !Plans(input, script) then InverseCheck
                    else if !PreparesSmoothly(input, script) then Prewrite
                    else if !MutatesSmoothly(input, script) then Forward
                    else if script.commit.Throws? then CommitPhase else FinalVerify)
  {
    hide FirstFailure, AdmitStages, OpeningStages, LockStages, LookStages, ForwardStages, AdmitsSmoothly, MutatesSmoothly, MutationStages,
         CommitOutcome, ReadinessOutcome, Mutates;
    AdmitFails(input, script);
    OpenFails(input, script);
    LockFails(input, script);
    Then(OpeningStages(input, script), LockStages(script) + LookStages(input, script));
    ForwardFails(input, script);
    CommitsMeans(input, script);
  }

  lemma CommitsMeans(input: Input, script: Script)
    ensures CommitsSmoothly(input, script) <==> MutatesSmoothly(input, script) && script.commit.Fine?
  {
  }

  /** A receipt of a run that failed before its first mutation names that phase, and blocks unless it was the forward run. */
  lemma UnstartedReported(input: Input, script: Script, r: Receipt)
    requires ReceiptOf(input, script) == Some(r) && !r.mutationStarted && r.outcome != PASS && r.phase != ReceiptPhase
    ensures ReachedOf(input, script).1.failed.Some?
    ensures var f := ReachedOf(input, script).1.failed.value;
            r.phase == f.phase && r.code == FailureCode(f) && r.outcome == if f.phase == Forward then FAIL else BLOCKED
  {
    hide Until, FirstFailure, AdmitStages, PrepareStages, ForwardStages, ValidReceipt, Fallback, FailureCode, BackOf, InverseOf, ExternalOf,
         RecoveryReceipt;
    var (p, g) := ReachedOf(input, script);
    AsClaimed(Claimed(input, script, p, g), r);
    if g.started {
      StartedClaim(input, script, p, g);
    }
  }

  lemma StartedClaim(input: Input, script: Script, p: Prepared, g: Progress)
    requires g.failed.Some? && g.started
    ensures Claimed(input, script, p, g).mutationStarted
  {
  }

  /** The code of a failure with a code is that code. */
  lemma OwnCode(phase: Phase, code: Code)
    ensures FailureCode(Failure(phase, Coded(code))) == code
  {
  }

  /** Any other error tells a lost connection from the rest while mutating and committing, and is unexpected elsewhere. */
  lemma ForeignCode(phase: Phase, lost: bool)
    ensures FailureCode(Failure(phase, Foreign(lost))) ==
            if phase == Forward then (if lost then WRITE_INDETERMINATE else MUTATION_FAILED)
            else if phase == CommitPhase then (if lost then COMMIT_INDETERMINATE else COMMIT_FAILED)
            else UNEXPECTED_FAILURE
  {
  }

  lemma AsClaimed(claimed: Receipt, r: Receipt)
    requires MakeReceipt(claimed) == Some(r) && r.phase != ReceiptPhase
    ensures r == claimed
  {
    hide ValidReceipt;
  }

  lemma RestoredIs(seen: Seen, expected: string)
    ensures Restored(seen, expected) == Verified <==> Matches(seen, expected)
  {
  }

  /** Such environments exist, for plans of operations and for migrations. */
  lemma StrandsReally(migration: bool) returns (input: Input, script: Script)
    ensures input.migration == migration && Strands(input, script)
  {
    input := Input(migration, 1, "prestate", "contract", "target", "prestate", "contract", "target", true, true, false, Some(true));
    var seen := Seen("prestate", true);
    var inverse := InverseScript(true, Fine, Fine, Fine, Fine, seen, true, _ => Sent, Fine, Fine, seen);
    script := Script(Fine, Told("contract"), seen, Derivation(false, 1), Fine, Fine, Fine, Fine, Told("contract"), seen, seen,
                     Migrated(true), _ => Sent, Fine, FinalSeen(true, false), Fine, Fine, seen, inverse, seen, Fine, seen);
  }
}
