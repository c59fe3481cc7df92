/**
 The receipt of a durable plan: the grammar every receipt must satisfy, and `makeReceipt`, which falls
 back to a RECEIPT/RECEIPT_REJECTED receipt when the grammar rejects the one it was asked for.
 Fields that the plan validator has already checked (digests, roles, counts, tag) are left out.
 */
module Receipts {
  import opened Wrappers

  datatype Phase =
    | Admission | Observe | Planning | PrestateCheck | InverseCheck | Prewrite | Forward | CommitPhase
    | RollbackPhase | RestorePhase | RestoreVerify | FinalVerify | ReceiptPhase

  datatype Outcome = PASS | FAIL | BLOCKED
  datatype CommitState = NotStarted | NotCommitted | Committed | Indeterminate
  datatype Restoration = NotRequired | RestorationNotStarted | Verified | Failed | Ambiguous
  datatype Readiness = NotRun | Ready | NotReady

  datatype Code =
    | SUCCESS | ADMISSION_FAILED | REVISION_UNAVAILABLE | REVISION_MISMATCH | DIRTY_CHECKOUT
    | CONTRACT_DIGEST_MISMATCH | TARGET_IDENTITY_UNAVAILABLE | TARGET_MISMATCH | POSTGRES_VERSION_UNSUPPORTED
    | SESSION_IDENTITY_MISMATCH | RECOVERY_STATE_UNSUPPORTED | READ_ONLY_ASSERTION_FAILED | OBSERVATION_FAILED
    | PRESTATE_INVALID | PRESTATE_MISMATCH | UNKNOWN_DRIFT | OPERATION_UNSUPPORTED | ARBITRARY_INPUT_REJECTED
    | MIGRATION_IDENTITY_MISMATCH | INVERSE_INCOMPLETE | RESTORE_CAPABILITY_REQUIRED | RESTORE_EXECUTION_FAILED
    | PREWRITE_DRIFT | MUTATION_FAILED | WRITE_INDETERMINATE | COMMIT_FAILED | COMMIT_INDETERMINATE
    | ROLLBACK_FAILED | RESTORATION_FAILED | RESTORATION_AMBIGUOUS | FINAL_VERIFICATION_FAILED
    | RECEIPT_REJECTED | UNEXPECTED_FAILURE

  /** An attempted recovery, and whether it was verified. */
  datatype Recovery = Recovery(attempted: bool, verified: bool)

  datatype Receipt = Receipt(
    phase: Phase,
    outcome: Outcome,
    code: Code,
    mutationStarted: bool,
    commitState: CommitState,
    rollback: Recovery,
    inverse: Recovery,
    external: Recovery,
    restoration: Restoration,
    readiness: Readiness)

  /** The codes the receipt matrix allows for an outcome and a phase. */
  function Allowed(outcome: Outcome, phase: Phase): set<Code> {
    match outcome
    case PASS => if phase == FinalVerify then {SUCCESS} else {}
    case BLOCKED =>
      (match phase
       case Admission => {ADMISSION_FAILED, REVISION_UNAVAILABLE, REVISION_MISMATCH, DIRTY_CHECKOUT,
                          CONTRACT_DIGEST_MISMATCH, TARGET_MISMATCH}
       case Observe => {TARGET_IDENTITY_UNAVAILABLE, TARGET_MISMATCH, POSTGRES_VERSION_UNSUPPORTED,
                        SESSION_IDENTITY_MISMATCH, RECOVERY_STATE_UNSUPPORTED, READ_ONLY_ASSERTION_FAILED,
                        OBSERVATION_FAILED, PRESTATE_INVALID, UNKNOWN_DRIFT, MIGRATION_IDENTITY_MISMATCH}
       case Planning => {ADMISSION_FAILED, REVISION_UNAVAILABLE, REVISION_MISMATCH, DIRTY_CHECKOUT,
                         CONTRACT_DIGEST_MISMATCH, MIGRATION_IDENTITY_MISMATCH}
       case PrestateCheck => {OBSERVATION_FAILED, PRESTATE_INVALID, PRESTATE_MISMATCH, PREWRITE_DRIFT,
                              MIGRATION_IDENTITY_MISMATCH, TARGET_MISMATCH, SESSION_IDENTITY_MISMATCH,
                              READ_ONLY_ASSERTION_FAILED}
       case InverseCheck => {PRESTATE_MISMATCH, OPERATION_UNSUPPORTED, INVERSE_INCOMPLETE,
                             RESTORE_CAPABILITY_REQUIRED, ARBITRARY_INPUT_REJECTED}
       case Prewrite => {OBSERVATION_FAILED, PRESTATE_INVALID, PRESTATE_MISMATCH, PREWRITE_DRIFT, TARGET_MISMATCH,
                         SESSION_IDENTITY_MISMATCH, READ_ONLY_ASSERTION_FAILED, MIGRATION_IDENTITY_MISMATCH}
       case _ => {})
    case FAIL =>
      (match phase
       case Forward => {MUTATION_FAILED, WRITE_INDETERMINATE, UNEXPECTED_FAILURE}
       case CommitPhase => {COMMIT_FAILED, COMMIT_INDETERMINATE, UNEXPECTED_FAILURE}
       case RollbackPhase => {ROLLBACK_FAILED, UNEXPECTED_FAILURE}
       case RestorePhase => {RESTORE_CAPABILITY_REQUIRED, RESTORE_EXECUTION_FAILED, RESTORATION_FAILED, UNEXPECTED_FAILURE}
       case RestoreVerify => {RESTORATION_FAILED, RESTORATION_AMBIGUOUS, UNEXPECTED_FAILURE}
       case FinalVerify => {FINAL_VERIFICATION_FAILED, UNEXPECTED_FAILURE}
       case ReceiptPhase => {RECEIPT_REJECTED, UNEXPECTED_FAILURE}
       case _ => {})
  }

  predicate AnyAttempted(r: Receipt) {
    r.rollback.attempted || r.inverse.attempted || r.external.attempted
  }

  predicate AnyVerified(r: Receipt) {
    r.rollback.verified || r.inverse.verified || r.external.verified
  }

  /** The rules every receipt must satisfy, whatever its outcome. */
  predicate Coherent(r: Receipt) {
    && (r.rollback.verified ==> r.rollback.attempted && r.restoration == Verified)
    && (r.inverse.verified ==> r.inverse.attempted && r.restoration == Verified)
    && (r.external.verified ==> r.external.attempted && r.restoration == Verified)
    && (!r.mutationStarted ==> !AnyAttempted(r) && !AnyVerified(r))
    && (r.mutationStarted ==> r.commitState != NotStarted)
    && (r.rollback.attempted ==> r.commitState != Committed)
    && (r.restoration == NotRequired ==> !AnyAttempted(r) && !AnyVerified(r))
    && (r.restoration == RestorationNotStarted ==> !AnyAttempted(r))
    && (r.restoration == Verified ==> r.mutationStarted && AnyAttempted(r))
    && (r.restoration != Verified ==> !AnyVerified(r))
    && (r.mutationStarted ==> r.restoration != RestorationNotStarted)
  }

  predicate PassRules(r: Receipt) {
    r.readiness == Ready && r.commitState == Committed && !AnyAttempted(r) && !AnyVerified(r) && r.restoration == NotRequired
  }

  predicate BlockedRules(r: Receipt) {
    && !r.mutationStarted && r.commitState == NotStarted && !AnyAttempted(r) && !AnyVerified(r)
    && r.restoration == NotRequired && r.readiness == NotRun
  }

  predicate FailRules(r: Receipt) {
    if !r.mutationStarted then
      && (r.phase == ReceiptPhase || r.phase == Forward)
      && r.commitState == NotStarted && r.restoration == NotRequired && r.readiness == NotRun
      && (r.phase == Forward ==> r.code in {MUTATION_FAILED, UNEXPECTED_FAILURE})
    else
      && (r.phase == Forward ==> r.rollback.attempted && r.commitState == NotCommitted)
      && (r.phase == CommitPhase ==> r.commitState != NotStarted && r.rollback.attempted)
      && (r.phase == RollbackPhase ==>
            r.rollback.attempted && r.code == ROLLBACK_FAILED && !r.rollback.verified && r.commitState != Committed)
      && (r.phase == FinalVerify ==> r.commitState == Committed && r.restoration == Verified && AnyAttempted(r))
      && (r.phase == RestorePhase ==> r.external.attempted && !r.external.verified && r.restoration == Ambiguous)
      && (r.phase == RestoreVerify ==> AnyAttempted(r) && r.restoration != Verified)
      && r.restoration != NotRequired
  }

  predicate ValidReceipt(r: Receipt) {
    && Coherent(r)
    && r.code in Allowed(r.outcome, r.phase)
    && match r.outcome
       case PASS => PassRules(r)
       case BLOCKED => BlockedRules(r)
       case FAIL => FailRules(r)
  }

  /** The receipt that stands in for one the grammar rejects. */
  function Fallback(r: Receipt): Receipt {
    var restoration := if !r.mutationStarted then NotRequired else if r.restoration == Verified then Verified else Ambiguous;
    var keep := restoration == Verified;
    Receipt(ReceiptPhase, FAIL, RECEIPT_REJECTED, r.mutationStarted,
            if r.mutationStarted && r.commitState == NotStarted then Indeterminate else r.commitState,
            Recovery(r.rollback.attempted, keep && r.rollback.attempted && r.rollback.verified),
            Recovery(r.inverse.attempted, keep && r.inverse.attempted && r.inverse.verified),
            Recovery(r.external.attempted, keep && r.external.attempted && r.external.verified),
            restoration, if r.mutationStarted then r.readiness else NotRun)
  }

  /** None: both the receipt and its fallback are rejected, and the projection throws. */
  function MakeReceipt(r: Receipt): Option<Receipt> {
    if ValidReceipt(r) then Some(r)
    else if ValidReceipt(Fallback(r)) then Some(Fallback(r))
    else None
  }

  /** Whatever comes out obeys the grammar and keeps the facts about the run that went in. */
  lemma ReceiptKeepsFacts(r: Receipt)
    requires MakeReceipt(r).Some?
    ensures var made := MakeReceipt(r).value;
            && ValidReceipt(made)
            && made.mutationStarted == r.mutationStarted
            && (made.outcome == PASS ==> made == r)
            && (made.outcome == BLOCKED ==> made == r)
            && (made.restoration == Verified ==> r.restoration == Verified)
            && (made.commitState == Committed ==> r.commitState == Committed)
            && (made.rollback.attempted == r.rollback.attempted && made.inverse.attempted == r.inverse.attempted
                && made.external.attempted == r.external.attempted)
            && (made.rollback.verified ==> r.rollback.verified)
            && (made.inverse.verified ==> r.inverse.verified)
            && (made.external.verified ==> r.external.verified)
  {
  }

  /**
   When the projection throws: exactly when the receipt is rejected and either nothing was mutated but
   recovery or a commit is claimed, or a rollback is claimed beside a commit, or a restoration is
   claimed without any recovery.
   */
  lemma MakeReceiptThrows(r: Receipt)
    ensures MakeReceipt(r).None? <==>
            && !ValidReceipt(r)
            && if r.mutationStarted
               then (r.rollback.attempted && r.commitState == Committed) || (r.restoration == Verified && !AnyAttempted(r))
               else AnyAttempted(r) || r.commitState != NotStarted
  {
  }

  /** A BLOCKED receipt names a phase before the first operation. */
  lemma BlockedPhases(r: Receipt)
    requires ValidReceipt(r) && r.outcome == BLOCKED
    ensures r.phase in {Admission, Planning, Observe, PrestateCheck, InverseCheck, Prewrite}
  {
  }

  lemma SuccessReceipt(r: Receipt)
    requires r == Receipt(FinalVerify, PASS, SUCCESS, r.mutationStarted, Committed, Recovery(false, false),
                          Recovery(false, false), Recovery(false, false), NotRequired, Ready)
    ensures ValidReceipt(r) && MakeReceipt(r) == Some(r)
  {
  }

  // ---- The grammar, said again: outcome by outcome, and code by code ----

  const UNTRIED := Recovery(false, false)

  /** Where each code may appear. */
  predicate AppearsIn(code: Code, outcome: Outcome, phase: Phase) {
    match code
    case SUCCESS => outcome == PASS && phase == FinalVerify
    case ADMISSION_FAILED | REVISION_UNAVAILABLE | REVISION_MISMATCH | DIRTY_CHECKOUT | CONTRACT_DIGEST_MISMATCH =>
      outcome == BLOCKED && phase in {Admission, Planning}
    case TARGET_MISMATCH => outcome == BLOCKED && phase in {Admission, Observe, PrestateCheck, Prewrite}
    case TARGET_IDENTITY_UNAVAILABLE | POSTGRES_VERSION_UNSUPPORTED | RECOVERY_STATE_UNSUPPORTED | UNKNOWN_DRIFT =>
      outcome == BLOCKED && phase == Observe
    case SESSION_IDENTITY_MISMATCH | READ_ONLY_ASSERTION_FAILED | OBSERVATION_FAILED | PRESTATE_INVALID =>
      outcome == BLOCKED && phase in {Observe, PrestateCheck, Prewrite}
    case MIGRATION_IDENTITY_MISMATCH => outcome == BLOCKED && phase in {Planning, Observe, PrestateCheck, Prewrite}
    case PRESTATE_MISMATCH => outcome == BLOCKED && phase in {PrestateCheck, InverseCheck, Prewrite}
    case PREWRITE_DRIFT => outcome == BLOCKED && phase in {PrestateCheck, Prewrite}
    case OPERATION_UNSUPPORTED | INVERSE_INCOMPLETE | ARBITRARY_INPUT_REJECTED => outcome == BLOCKED && phase == InverseCheck
    case RESTORE_CAPABILITY_REQUIRED => (outcome == BLOCKED && phase == InverseCheck) || (outcome == FAIL && phase == RestorePhase)
    case MUTATION_FAILED | WRITE_INDETERMINATE => outcome == FAIL && phase == Forward
    case COMMIT_FAILED | COMMIT_INDETERMINATE => outcome == FAIL && phase == CommitPhase
    case ROLLBACK_FAILED => outcome == FAIL && phase == RollbackPhase
    case RESTORE_EXECUTION_FAILED => outcome == FAIL && phase == RestorePhase
    case RESTORATION_FAILED => outcome == FAIL && phase in {RestorePhase, RestoreVerify}
    case RESTORATION_AMBIGUOUS => outcome == FAIL && phase == RestoreVerify
    case FINAL_VERIFICATION_FAILED => outcome == FAIL && phase == FinalVerify
    case RECEIPT_REJECTED => outcome == FAIL && phase == ReceiptPhase
    case UNEXPECTED_FAILURE =>
      outcome == FAIL && phase in {Forward, CommitPhase, RollbackPhase, RestorePhase, RestoreVerify, FinalVerify, ReceiptPhase}
  }

  /** The matrix of codes by phase and the list of phases by code are the same relation. */
  lemma AllowedByCode(code: Code, outcome: Outcome, phase: Phase)
    ensures code in Allowed(outcome, phase) <==> AppearsIn(code, outcome, phase)
  {
    hide AppearsIn, Allowed;
    match outcome {
      case PASS => PassCode(code, phase);
      case BLOCKED => BlockedByCode(code, phase);
      case FAIL => FailByCode(code, phase);
    }
  }

  lemma PassCode(code: Code, phase: Phase)
    ensures code in Allowed(PASS, phase) <==> AppearsIn(code, PASS, phase)
    ensures AppearsIn(code, PASS, phase) <==> code == SUCCESS && phase == FinalVerify
  {
  }

  lemma BlockedByCode(code: Code, phase: Phase)
    ensures code in Allowed(BLOCKED, phase) <==> AppearsIn(code, BLOCKED, phase)
  {
    hide AppearsIn, Allowed;
    match phase {
      case Admission => BlockedAdmission(code);
      case Planning => BlockedPlanning(code);
      case Observe => BlockedObserve(code);
      case PrestateCheck => BlockedPrestate(code);
      case InverseCheck => BlockedInverse(code);
      case Prewrite => BlockedPrewrite(code);
      case _ => BlockedNowhere(code, phase);
    }
  }

  lemma BlockedAdmission(code: Code)
    ensures code in Allowed(BLOCKED, Admission) <==> AppearsIn(code, BLOCKED, Admission)
  {
  }

  lemma BlockedPlanning(code: Code)
    ensures code in Allowed(BLOCKED, Planning) <==> AppearsIn(code, BLOCKED, Planning)
  {
  }

  lemma BlockedObserve(code: Code)
    ensures code in Allowed(BLOCKED, Observe) <==> AppearsIn(code, BLOCKED, Observe)
  {
  }

  lemma BlockedPrestate(code: Code)
    ensures code in Allowed(BLOCKED, PrestateCheck) <==> AppearsIn(code, BLOCKED, PrestateCheck)
  {
  }

  lemma BlockedInverse(code: Code)
    ensures code in Allowed(BLOCKED, InverseCheck) <==> AppearsIn(code, BLOCKED, InverseCheck)
  {
  }

  lemma BlockedPrewrite(code: Code)
    ensures code in Allowed(BLOCKED, Prewrite) <==> AppearsIn(code, BLOCKED, Prewrite)
  {
  }

  lemma BlockedNowhere(code: Code, phase: Phase)
    requires phase !in {Admission, Planning, Observe, PrestateCheck, InverseCheck, Prewrite}
    ensures code !in Allowed(BLOCKED, phase) && !AppearsIn(code, BLOCKED, phase)
  {
  }

  lemma FailByCode(code: Code, phase: Phase)
    ensures code in Allowed(FAIL, phase) <==> AppearsIn(code, FAIL, phase)
  {
    hide AppearsIn, Allowed;
    match phase {
      case Forward => FailInForward(code);
      case CommitPhase => FailInCommit(code);
      case RollbackPhase => FailInRollback(code);
      case RestorePhase => FailInRestore(code);
      case RestoreVerify => FailInRestoreVerify(code);
      case FinalVerify => FailInFinalVerify(code);
      case ReceiptPhase => FailInReceipt(code);
      case _ => FailNowhere(code, phase);
    }
  }

  lemma FailInForward(code: Code)
    ensures code in Allowed(FAIL, Forward) <==> AppearsIn(code, FAIL, Forward)
  {
  }

  lemma FailInCommit(code: Code)
    ensures code in Allowed(FAIL, CommitPhase) <==> AppearsIn(code, FAIL, CommitPhase)
  {
  }

  lemma FailInRollback(code: Code)
    ensures code in Allowed(FAIL, RollbackPhase) <==> AppearsIn(code, FAIL, RollbackPhase)
  {
  }

  lemma FailInRestore(code: Code)
    ensures code in Allowed(FAIL, RestorePhase) <==> AppearsIn(code, FAIL, RestorePhase)
  {
  }

  lemma FailInRestoreVerify(code: Code)
    ensures code in Allowed(FAIL, RestoreVerify) <==> AppearsIn(code, FAIL, RestoreVerify)
  {
  }

  lemma FailInFinalVerify(code: Code)
    ensures code in Allowed(FAIL, FinalVerify) <==> AppearsIn(code, FAIL, FinalVerify)
  {
  }

  lemma FailInReceipt(code: Code)
    ensures code in Allowed(FAIL, ReceiptPhase) <==> AppearsIn(code, FAIL, ReceiptPhase)
  {
  }

  lemma FailNowhere(code: Code, phase: Phase)
    requires phase !in {Forward, CommitPhase, RollbackPhase, RestorePhase, RestoreVerify, FinalVerify, ReceiptPhase}
    ensures code !in Allowed(FAIL, phase) && !AppearsIn(code, FAIL, phase)
  {
  }

  /** A PASS receipt is one receipt, mutation aside; a BLOCKED one is fixed by its phase and code. */
  lemma PassAndBlocked(r: Receipt)
    ensures r.outcome == PASS ==>
              (ValidReceipt(r) <==>
                 r == Receipt(FinalVerify, PASS, SUCCESS, r.mutationStarted, Committed, UNTRIED, UNTRIED, UNTRIED, NotRequired, Ready))
    ensures r.outcome == BLOCKED ==>
              (ValidReceipt(r) <==>
                 && AppearsIn(r.code, BLOCKED, r.phase)
                 && r == Receipt(r.phase, BLOCKED, r.code, false, NotStarted, UNTRIED, UNTRIED, UNTRIED, NotRequired, NotRun))
  {
    hide Allowed, AppearsIn;
    AllowedByCode(r.code, r.outcome, r.phase);
    PassCode(r.code, r.phase);
  }

  /** A failure without any mutation is one receipt for each of four phases and codes. */
  lemma UnstartedFailure(r: Receipt)
    requires r.outcome == FAIL && !r.mutationStarted
    ensures ValidReceipt(r) <==>
            && (r.phase, r.code) in {(Forward, MUTATION_FAILED), (Forward, UNEXPECTED_FAILURE),
                                     (ReceiptPhase, RECEIPT_REJECTED), (ReceiptPhase, UNEXPECTED_FAILURE)}
            && r == Receipt(r.phase, FAIL, r.code, false, NotStarted, UNTRIED, UNTRIED, UNTRIED, NotRequired, NotRun)
  {
  }

  /** What a recovery claims is consistent: verified only if attempted, and only beside a verified restoration. */
  predicate Claims(recovery: Recovery, restoration: Restoration) {
    recovery.verified ==> recovery.attempted && restoration == Verified
  }

  /** What each phase of a failure after a mutation asks of the rest of its receipt. */
  predicate PhaseOk(r: Receipt) {
    match r.phase
    case Forward => r.rollback.attempted && r.commitState == NotCommitted
    case CommitPhase => r.rollback.attempted && r.commitState in {NotCommitted, Indeterminate}
    case RollbackPhase => r.rollback == Recovery(true, false) && r.code == ROLLBACK_FAILED
    case RestorePhase => r.external == Recovery(true, false) && r.restoration == Ambiguous
    case RestoreVerify => r.restoration in {Failed, Ambiguous} && (r.rollback.attempted || r.inverse.attempted || r.external.attempted)
    case FinalVerify => r.restoration == Verified && r.commitState == Committed
    case ReceiptPhase => true
    case _ => false
  }

  /** A failure after a mutation: exactly what its receipt may say. */
  lemma StartedFailure(r: Receipt)
    requires r.outcome == FAIL && r.mutationStarted
    ensures ValidReceipt(r) <==>
            && AppearsIn(r.code, FAIL, r.phase) && PhaseOk(r)
            && r.commitState != NotStarted && (r.rollback.attempted ==> r.commitState != Committed)
            && r.restoration in {Verified, Failed, Ambiguous}
            && (r.restoration == Verified ==> r.rollback.attempted || r.inverse.attempted || r.external.attempted)
            && Claims(r.rollback, r.restoration) && Claims(r.inverse, r.restoration) && Claims(r.external, r.restoration)
  {
    hide Allowed, AppearsIn;
    AllowedByCode(r.code, r.outcome, r.phase);
    FailPhases(r.code, r.phase);
  }

  lemma FailPhases(code: Code, phase: Phase)
    ensures AppearsIn(code, FAIL, phase) ==>
              phase in {Forward, CommitPhase, RollbackPhase, RestorePhase, RestoreVerify, FinalVerify, ReceiptPhase}
  {
  }

  /** What becomes of a receipt the grammar rejects, field by field. */
  lemma RejectedReceipt(r: Receipt, made: Receipt)
    requires MakeReceipt(r) == Some(made) && !ValidReceipt(r)
    ensures made.phase == ReceiptPhase && made.outcome == FAIL && made.code == RECEIPT_REJECTED
    ensures made.mutationStarted == r.mutationStarted
    ensures made.commitState == if r.mutationStarted && r.commitState == NotStarted then Indeterminate else r.commitState
    ensures made.readiness == if r.mutationStarted then r.readiness else NotRun
    ensures made.restoration ==
            if !r.mutationStarted then NotRequired else if r.restoration == Verified then Verified else Ambiguous
    ensures made.rollback.attempted == r.rollback.attempted && made.inverse.attempted == r.inverse.attempted
    ensures made.external.attempted == r.external.attempted
    ensures made.rollback.verified == (made.restoration == Verified && r.rollback.attempted && r.rollback.verified)
    ensures made.inverse.verified == (made.restoration == Verified && r.inverse.attempted && r.inverse.verified)
    ensures made.external.verified == (made.restoration == Verified && r.external.attempted && r.external.verified)
  {
    hide ValidReceipt;
  }
}
