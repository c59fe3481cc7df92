/**
 Which calls go through.  For every call on a readable epoch whose adapter grants all its writes: exactly when
 it is accepted, in terms of the snapshot that was loaded, what it reports, and how the epoch loads afterwards.
 */
module EpochAcceptance {
  import opened Wrappers
  import opened EpochDocuments
  import opened EpochLoad
  import opened EpochHistory
  import opened EpochCalls
  import opened EpochCrash
  import opened EpochAtomicity
  import opened EpochRuns
  import opened EpochLifetime
  import opened EpochProtocol

  /** Enough for the longest list of writes of a call on an existing epoch. */
  const ALL := 4

  /** A readable epoch of a store. */
  ghost predicate Holds(store: Store, e: Ref, s: Snapshot) {
    StoreOk(store) && e in store && Load(e, store[e]) == Some(s)
  }

  predicate Refused(store: Store, e: Ref, call: Call, cut: nat) {
    Perform(store, e, call, cut) == (store, Failed)
  }

  /** The call reports `reply`, the epoch then loads as `t`, and no other epoch is touched. */
  predicate Succeeds(store: Store, e: Ref, call: Call, cut: nat, t: Snapshot, reply: Reply) {
    var (after, result) := Perform(store, e, call, cut);
    && result == Done(reply) && e in after && Load(e, after[e]) == Some(t)
    && after.Keys == store.Keys + {e} && forall x :: x in store && x != e ==> after[x] == store[x]
  }

  /** A decided call, with all its writes granted. */
  lemma Granted(store: Store, e: Ref, s: Snapshot, call: Call, cut: nat)
    requires Holds(store, e, s) && !call.Create? && cut >= ALL
    ensures var decision := Decide(store, e, call);
            && !decision.Stuck?
            && (decision.Refuse? ==> Refused(store, e, call, cut))
            && (decision.Answer? ==> Succeeds(store, e, call, cut, s, decision.reply))
            && (decision.Persist? && !LandsUnreadable(s, call) ==>
                  Succeeds(store, e, call, cut, Intended(e, s, call), decision.reply))
            && (decision.Persist? && LandsUnreadable(s, call) ==>
                  var (after, result) := Perform(store, e, call, cut);
                  result == Failed && e in after && Load(e, after[e]).None?)
  {
    hide Load, Decide, Intended, StoreOk, LandsUnreadable;
    StuckIff(store, e, call);
    PerformKeepsOk(store, e, call, cut);
    if Decide(store, e, call).Persist? {
      CrashAtomicity(store, e, s, call, cut);
    }
  }

  lemma Valid(store: Store, e: Ref, s: Snapshot)
    requires Holds(store, e, s)
    ensures Shapes(s) && CrossValid(s) && s.record.header.epoch == e
    ensures s.spool.frameCount <= 4 && s.spool.nextSequence == s.spool.frameCount + 1
  {
    hide Load, Shapes, CrossValid, StateAgrees, RefOk, PrivateOk;
    LoadedFiles(e, store[e]);
    StoreDiskOk(store, e);
    SpoolBounds(e, store[e], s);
    NextSequence(e, store[e], s);
  }

  // ---- Binding ----

  /** A row is bound exactly on a live version-1 epoch that has no binding yet, and only the row the epoch was created for. */
  lemma RowBinding(store: Store, e: Ref, s: Snapshot, rowId: Identity, cut: nat)
    requires Holds(store, e, s) && cut >= ALL
    ensures var h, commitment := s.record.header, Sealed(ArtifactRow, [rowId]);
            if s.private.PrivateV1? && rowId == s.private.rowId && h.artifactState == Pending
               && h.state !in {Abandoned, Superseded, Consumed}
            then Succeeds(store, e, BindRow(rowId), cut,
                          WithHeader(s, h.(artifactState := RowBound, artifactCommitment := Some(commitment))), BoundTo(commitment))
            else Refused(store, e, BindRow(rowId), cut)
  {
    hide Load, StoreOk, Perform, Shapes, Succeeds, Refused;
    Valid(store, e, s);
    Granted(store, e, s, BindRow(rowId), cut);
  }

  /** The artifact is bound exactly on a live version-1 epoch whose row is bound, and only row and file of its creation. */
  lemma ArtifactBinding(store: Store, e: Ref, s: Snapshot, rowId: Identity, filename: Identity, cut: nat)
    requires Holds(store, e, s) && cut >= ALL
    ensures var h, commitment := s.record.header, Sealed(ArtifactRow, [rowId, filename]);
            if s.private.PrivateV1? && rowId == s.private.rowId && filename == s.private.filename && h.artifactState == RowBound
               && h.state !in {Abandoned, Superseded, Consumed}
            then Succeeds(store, e, BindArtifact(rowId, filename), cut,
                          WithHeader(s, h.(artifactState := Bound, artifactCommitment := Some(commitment))), BoundTo(commitment))
            else Refused(store, e, BindArtifact(rowId, filename), cut)
  {
    hide Load, StoreOk, Perform, Shapes, Succeeds, Refused;
    Valid(store, e, s);
    Granted(store, e, s, BindArtifact(rowId, filename), cut);
  }

  /**
   A version-2 epoch is bound exactly while it is new and unbound, to any legal row and file; once bound, a live one
   answers the same pair again and refuses every other.
   */
  lemma BindingV2(store: Store, e: Ref, s: Snapshot, rowId: Identity, filename: Identity, cut: nat)
    requires Holds(store, e, s) && cut >= ALL
    ensures var h, commitment := s.record.header, Sealed(ArtifactRow, [rowId, filename]);
            var bound := Binding(e, h.authority, Bound, Some(rowId), Some(filename), Some(commitment), h.privateDigest);
            if !RowIdOk(rowId) || !FilenameOk(filename) || s.private.PrivateV1? || h.state in {Abandoned, Superseded, Consumed}
            then Refused(store, e, BindV2(rowId, filename), cut)
            else if h.artifactState == Pending then
              Succeeds(store, e, BindV2(rowId, filename), cut,
                       WithHeader(s.(binding := Some(bound)), h.(artifactState := Bound, artifactCommitment := Some(commitment),
                                                                 bindingDigest := Some(BindingDigest(bound)))),
                       BoundTo(commitment))
            else if s.binding.Some? && s.binding.value.rowId == Some(rowId) && s.binding.value.filename == Some(filename) then
              Succeeds(store, e, BindV2(rowId, filename), cut, s, BoundTo(commitment))
            else Refused(store, e, BindV2(rowId, filename), cut)
  {
    hide Load, StoreOk, Perform, Succeeds, Refused, RowIdOk, FilenameOk, RefOk, PrivateOk, HeaderShape, SpoolShape, StateAgrees;
    Valid(store, e, s);
    Granted(store, e, s, BindV2(rowId, filename), cut);
  }

  // ---- Epoch states ----

  /** An epoch becomes ready exactly from its first state, and if version 2 only once it is bound. */
  lemma MakingReady(store: Store, e: Ref, s: Snapshot, cut: nat)
    requires Holds(store, e, s) && cut >= ALL
    ensures var h := s.record.header;
            if h.state == Initialised && (s.private.PrivateV1? || h.artifactState == Bound)
            then Succeeds(store, e, MarkReady, cut, WithHeader(s, h.(state := Ready)), Reloaded)
            else Refused(store, e, MarkReady, cut)
  {
    hide Load, StoreOk, Perform, Succeeds, Refused, RefOk, PrivateOk, HeaderShape, SpoolShape, StateAgrees;
    Valid(store, e, s);
    Granted(store, e, s, MarkReady, cut);
  }

  /** It becomes active exactly when it is ready. */
  lemma Activating(store: Store, e: Ref, s: Snapshot, cut: nat)
    requires Holds(store, e, s) && cut >= ALL
    ensures var h := s.record.header;
            if h.state == Ready then Succeeds(store, e, Activate, cut, WithHeader(s, h.(state := Active)), Reloaded)
            else Refused(store, e, Activate, cut)
  {
    hide Load, StoreOk, Perform, Succeeds, Refused, RefOk, PrivateOk, HeaderShape, SpoolShape, StateAgrees;
    Valid(store, e, s);
    Granted(store, e, s, Activate, cut);
  }

  /** The successor is new or ready, and was made to replace this epoch under the same authority. */
  predicate Replaces(e: Ref, s: Snapshot, f: Ref, t: Snapshot) {
    && (t.record.header.state == Initialised || t.record.header.state == Ready)
    && t.record.header.barrier == Text(SupersessionBarrier, [e, f, s.record.header.authority])
  }

  /** The record on disk, whatever else is there, says SUPERSEDED. */
  predicate SaysSuperseded(store: Store, e: Ref, v: Version) {
    && e in store && RecordFile(v) in store[e] && store[e][RecordFile(v)].RecordDoc?
    && store[e][RecordFile(v)].record.header.state == Superseded
  }

  /**
   A live epoch can be superseded exactly by a successor made for it that is still new or ready; the call then writes
   SUPERSEDED.  It succeeds exactly if, besides, the runner has not started and the restore authority is not spent.
   */
  lemma Superseding(store: Store, e: Ref, s: Snapshot, f: Ref, t: Snapshot, cut: nat)
    requires Holds(store, e, s) && Holds(store, f, t) && e != f && cut >= ALL
    ensures var after, live := Perform(store, e, Supersede(f), cut).0, s.record.header.state !in {Abandoned, Superseded, Consumed};
            && (live && Replaces(e, s, f, t) <==> live && SaysSuperseded(after, e, s.record.version))
            && (Perform(store, e, Supersede(f), cut).1.Done? <==>
                  && live && Replaces(e, s, f, t)
                  && s.ledger.state == LedgerUnconsumed && s.spool.lastStage !in {RunnerStarted, RestoreBegin})
            && (Perform(store, e, Supersede(f), cut).1.Done? ==>
                  Succeeds(store, e, Supersede(f), cut, WithHeader(s, s.record.header.(state := Superseded)), Reloaded))
            && (!(live && Replaces(e, s, f, t)) ==> Refused(store, e, Supersede(f), cut))
  {
    hide Load, StoreOk, StateAgrees, HeaderShape, RefOk, PrivateOk;
    Granted(store, e, s, Supersede(f), cut);
    LateMeans(s, f);
    RecordSays(store, e, s);
    if Decide(store, e, Supersede(f)).Persist? {
      SupersededRecord(store, e, s, f, cut);
    }
  }

  lemma RecordSays(store: Store, e: Ref, s: Snapshot)
    requires Holds(store, e, s)
    ensures SaysSuperseded(store, e, s.record.version) <==> s.record.header.state == Superseded
  {
    hide Load, StoreOk, Shapes, CrossValid, ReplayAgrees;
    LoadedFiles(e, store[e]);
  }

  lemma SupersededRecord(store: Store, e: Ref, s: Snapshot, f: Ref, cut: nat)
    requires Holds(store, e, s) && Decide(store, e, Supersede(f)).Persist? && cut >= ALL
    ensures SaysSuperseded(Perform(store, e, Supersede(f), cut).0, e, s.record.version)
  {
    hide Load, StoreOk, Prefix;
    var writes := Decide(store, e, Supersede(f)).writes;
    CutDisk(store, e, Supersede(f), cut);
    assert Prefix(store[e], writes, cut) == Prefix(store[e], writes, 2) by { PrefixAll(store[e], writes, cut); }
    PrefixStep(store[e], writes, 1);
  }

  lemma PrefixAll(d: Disk, writes: seq<Write>, cut: nat)
    requires cut >= |writes|
    ensures Prefix(d, writes, cut) == Prefix(d, writes, |writes|)
  {
  }

  /** An epoch never supersedes itself, nor through an epoch that does not load. */
  lemma NoSuccessor(store: Store, e: Ref, f: Ref, cut: nat)
    requires e == f || f !in store || Load(f, store[f]).None?
    ensures Refused(store, e, Supersede(f), cut)
  {
    hide Load;
  }

  // ---- Restore authority ----

  /** A permit is repeated, or given for the first time, exactly while the runner of an active epoch waits for its restore. */
  lemma Consuming(store: Store, e: Ref, s: Snapshot, id: string, expected: Commitment, data: string, cut: nat)
    requires Holds(store, e, s) && cut >= ALL
    ensures var call, h := ConsumeRestore(id, expected, data), s.record.header;
            if !RefOk(id) || h.state != Active || s.spool.lastStage != RunnerStarted then Refused(store, e, call, cut)
            else if s.ledger.state == LedgerUnconsumed then
              (if expected == LedgerDigest(s.ledger) then
                 Succeeds(store, e, call, cut,
                          WithHeader(s.(ledger := Ledger(e, LedgerConsumed, Some(id), Some("RESTORE_STARTED"), Some(DataCommitment(data)))),
                                     h.(ledgerState := LedgerConsumed)),
                          Permit(id, DataCommitment(data), false))
               else Refused(store, e, call, cut))
            else if s.ledger.transitionId == Some(id) && s.ledger.data == Some(DataCommitment(data)) then
              Succeeds(store, e, call, cut, s, Permit(id, DataCommitment(data), true))
            else Refused(store, e, call, cut)
  {
    hide Load, StoreOk, Perform, Succeeds, Refused, RefOk, PrivateOk, HeaderShape;
    Valid(store, e, s);
    Granted(store, e, s, ConsumeRestore(id, expected, data), cut);
  }

  // ---- Frames ----

  /** The stages a live epoch can record next. */
  predicate Next(s: Snapshot, stage: Stage) {
    var state, last, spent := s.record.header.state, s.spool.lastStage, s.ledger.state == LedgerConsumed;
    match stage
    case NoStage => false
    case EpochReady => last == NoStage && (state == Ready || state == Active)
    case RunnerStarted => last == EpochReady && state == Active
    case RestoreBegin => last == RunnerStarted && state == Active && spent
    case Commit => last == RestoreBegin && state == Active
    case Abandon =>
      || ((last == EpochReady || last == RunnerStarted) && !spent)
      || last == RestoreBegin
      || (s.private.PrivateV2? && s.record.header.artifactState == Pending && last == NoStage && !spent && state == Initialised)
  }

  lemma NextIs(store: Store, e: Ref, s: Snapshot, stage: Stage)
    requires Holds(store, e, s) && s.record.header.state !in {Abandoned, Superseded, Consumed}
    ensures StageAllowed(s, stage) <==> Next(s, stage)
    ensures stage == Abandon && Next(s, stage) ==> (DirectPendingAbandonAllowed(s) <==> s.spool.lastStage == NoStage)
  {
    hide Load, StoreOk, RefOk, PrivateOk, HeaderShape;
    Valid(store, e, s);
    Summary(store, e, s);
  }

  /** Before the first frame the spool is untouched. */
  lemma Summary(store: Store, e: Ref, s: Snapshot)
    requires Holds(store, e, s)
    ensures s.spool.state == SpoolStateOf(s.spool.lastStage)
    ensures s.spool.lastStage == NoStage ==>
              s.spool.nextSequence == 1 && s.spool.frameCount == 0 && s.spool.highestCommit == 0 && s.spool.totalBytes == 0
              && s.spool.lastHash == ZeroHash
  {
    hide Load, StoreOk, Shapes, CrossValid, FrameAccepted;
    LoadedFiles(e, store[e]);
    if s.spool.lastStage == NoStage {
      StartsEmpty(ContextOf(e, s), FrameDocs(store[e]));
    }
  }

  lemma StartsEmpty(c: Context, docs: seq<Doc>)
    requires Replay(c, docs).Some? && Replay(c, docs).value.stage == NoStage
    ensures docs == []
  {
  }

  /** The next frame of an epoch, field by field. */
  predicate FrameIs(s: Snapshot, f: Frame, stage: Stage, payload: Payload) {
    && f.epoch == s.record.header.epoch && f.sequence == s.spool.frameCount + 1 && f.stage == stage && f.payload == payload
    && f.previous == s.spool.lastHash
    && f.auth == FrameAuth(s.private, f.epoch, f.sequence, stage, payload, f.previous)
    && f.hash == HashOf(f.epoch, f.sequence, stage, payload, f.previous, f.auth)
  }

  /** A payload a frame may carry: within its bounds, and the fixed one if an unbound epoch is abandoned. */
  predicate Carries(s: Snapshot, stage: Stage, payload: Payload) {
    PayloadOk(payload) && (stage == Abandon && s.spool.lastStage == NoStage ==> payload == ABANDON_PAYLOAD)
  }

  /** A frame is prepared exactly for a stage that can come next, with a payload it may carry. */
  lemma Preparing(store: Store, e: Ref, s: Snapshot, stage: Stage, payload: Payload, cut: nat)
    requires Holds(store, e, s) && cut >= ALL
    ensures if s.record.header.state !in {Abandoned, Superseded, Consumed} && Next(s, stage) && Carries(s, stage, payload)
            then exists f :: FrameIs(s, f, stage, payload)
                             && Succeeds(store, e, PrepareFrame(stage, payload), cut, s, Prepared(f))
            else Refused(store, e, PrepareFrame(stage, payload), cut)
  {
    hide Load, StoreOk, Perform, Succeeds, Refused, RefOk, PrivateOk, PayloadOk, StageAllowed, CrossValid, Next, DirectPendingAbandonAllowed;
    Valid(store, e, s);
    Granted(store, e, s, PrepareFrame(stage, payload), cut);
    if !Terminal(s.record.header.state) {
      NextIs(store, e, s, stage);
      EpochRefOk(s);
      if Next(s, stage) && Carries(s, stage, payload) {
        assert FrameIs(s, NextFrame(s, stage, payload), stage, payload);
      }
      NoStageNext(s);
    }
  }

  lemma EpochRefOk(s: Snapshot)
    requires Shapes(s)
    ensures RefOk(s.record.header.epoch)
  {
    hide RefOk, PrivateOk;
  }

  lemma NoStageNext(s: Snapshot)
    ensures !Next(s, NoStage)
  {
  }

  /** A frame is taken in exactly if it is the next one; the metadata then counts it, and COMMIT and ABANDON end the epoch. */
  lemma Ingesting(store: Store, e: Ref, s: Snapshot, f: Frame, cut: nat)
    requires Holds(store, e, s) && cut >= ALL
    ensures var spool := s.spool.(state := SpoolStateOf(f.stage), nextSequence := s.spool.nextSequence + 1, lastHash := f.hash,
                                  highestCommit := if f.stage == Commit then f.sequence else s.spool.highestCommit,
                                  frameCount := s.spool.frameCount + 1, totalBytes := s.spool.totalBytes + FrameBytes(f),
                                  lastStage := f.stage);
            var h := s.record.header;
            var counted := s.(spool := spool);
            if s.record.header.state !in {Abandoned, Superseded, Consumed} && Next(s, f.stage) && Carries(s, f.stage, f.payload)
               && FrameIs(s, f, f.stage, f.payload)
            then Succeeds(store, e, IngestFrame(f), cut,
                          match f.stage
                          case Commit => WithHeader(counted, h.(state := Consumed))
                          case Abandon => WithHeader(counted, h.(state := Abandoned))
                          case _ => counted,
                          Receipt(f.sequence, spool.highestCommit, spool.frameCount))
            else Refused(store, e, IngestFrame(f), cut)
  {
    hide Load, StoreOk, Perform, Succeeds, Refused, RefOk, PrivateOk, PayloadOk, StageAllowed, CrossValid, Next, DirectPendingAbandonAllowed,
         FrameBytes, DiskOk, DecideIngest, DecidePrepare;
    Valid(store, e, s);
    Granted(store, e, s, IngestFrame(f), cut);
    StoreDiskOk(store, e);
    if !Terminal(s.record.header.state) {
      Accepted(store, e, s, f);
      if DecideIngest(s, store[e], f).Persist? {
        ReplyOf(s, store[e], f);
      }
    }
  }

  lemma ReplyOf(s: Snapshot, d: Disk, f: Frame)
    requires DecideIngest(s, d, f).Persist?
    ensures DecideIngest(s, d, f).reply ==
            Receipt(f.sequence, if f.stage == Commit then f.sequence else s.spool.highestCommit, s.spool.frameCount + 1)
  {
    hide FrameGenuine, StageAllowed, PendingAbandonPayloadOk, SpoolShape;
  }

  lemma Accepted(store: Store, e: Ref, s: Snapshot, f: Frame)
    requires Holds(store, e, s) && !Terminal(s.record.header.state) && DiskOk(e, store[e])
    ensures !DecideIngest(s, store[e], f).Stuck? && !DecideIngest(s, store[e], f).Answer?
    ensures DecideIngest(s, store[e], f).Persist? <==>
            Next(s, f.stage) && Carries(s, f.stage, f.payload) && FrameIs(s, f, f.stage, f.payload)
  {
    hide Load, StoreOk, RefOk, PrivateOk, PayloadOk, StageAllowed, CrossValid, Next, DirectPendingAbandonAllowed, FrameBytes, DiskOk,
         DecideIngest;
    Valid(store, e, s);
    NextIs(store, e, s, f.stage);
    EpochRefOk(s);
    NoStageNext(s);
    NeverStuck(e, store[e], s, f);
    NeverAnswers(s, store[e], f);
    if !DecideIngest(s, store[e], f).Refuse? {
      OnlyTheNextFrame(s, store[e], f);
    }
    if Next(s, f.stage) && Carries(s, f.stage, f.payload) && FrameIs(s, f, f.stage, f.payload) {
      assert f == NextFrame(s, f.stage, f.payload);
      PreparedIsAccepted(e, store[e], s, f.stage, f.payload);
    }
  }

  lemma NeverAnswers(s: Snapshot, d: Disk, f: Frame)
    ensures !DecideIngest(s, d, f).Answer?
  {
    hide FrameGenuine, StageAllowed, PendingAbandonPayloadOk, SpoolShape;
  }

  /** A live epoch can be abandoned exactly when ABANDON can come next; it is then closed. */
  lemma Abandoning(store: Store, e: Ref, s: Snapshot, cut: nat)
    requires Holds(store, e, s) && cut >= ALL
    ensures if s.record.header.state !in {Abandoned, Superseded, Consumed} && Next(s, Abandon)
            then exists f, t, reply :: FrameIs(s, f, Abandon, ABANDON_PAYLOAD) && Succeeds(store, e, AbandonEpoch, cut, t, reply)
                                       && t.record.header == s.record.header.(state := Abandoned)
                                       && t.spool.lastStage == Abandon && t.spool.lastHash == f.hash
            else Refused(store, e, AbandonEpoch, cut)
  {
    hide Load, StoreOk, Perform, Succeeds, Refused, RefOk, PrivateOk, PayloadOk, StageAllowed, CrossValid, Next, DirectPendingAbandonAllowed,
         FrameBytes, DiskOk, DecideIngest;
    Valid(store, e, s);
    Granted(store, e, s, AbandonEpoch, cut);
    StoreDiskOk(store, e);
    var f := NextFrame(s, Abandon, ABANDON_PAYLOAD);
    if !Terminal(s.record.header.state) {
      NextIs(store, e, s, Abandon);
      AbandonPayload();
      EpochRefOk(s);
      Accepted(store, e, s, f);
      if Next(s, Abandon) {
        assert FrameIs(s, f, Abandon, ABANDON_PAYLOAD);
        assert Decide(store, e, AbandonEpoch).Persist?;
      }
    }
  }

  lemma AbandonPayload()
    ensures PayloadOk(ABANDON_PAYLOAD)
  {
  }

  // ---- Creation ----

  /** A creation succeeds exactly for a new, legal ref of at most 121 characters with legal refs and identities. */
  lemma Creating(store: Store, e: Ref, authority: Ref, identities: Private, supersedes: Option<Ref>, cut: nat)
    requires StoreOk(store) && cut >= 6
    ensures var call := Create(authority, identities, supersedes);
            if e !in store && RefOk(e) && RefOk(authority) && (supersedes.Some? ==> RefOk(supersedes.value))
               && |e| <= 121 && PrivateOk(identities.(epoch := e))
            then Succeeds(store, e, call, cut, Created(e, authority, identities, supersedes), Reloaded)
            else Perform(store, e, call, cut).1 == Failed && (e in store ==> Refused(store, e, call, cut))
  {
    hide Load, StoreOk, RefOk, PrivateOk, Created, CreateWrites;
    var call := Create(authority, identities, supersedes);
    PerformKeepsOk(store, e, call, cut);
    if e !in store && Admitted(e, authority, supersedes) {
      CreateAtomic(store, e, call, cut);
      LedgerRefOk(e);
      CreateCount(e, authority, identities, supersedes);
    }
  }

  /** A fresh epoch, literally: first state, unbound, authority unspent, no frame, and the barrier it was given. */
  lemma FreshIs(e: Ref, authority: Ref, identities: Private, supersedes: Option<Ref>)
    ensures var s := Created(e, authority, identities, supersedes);
            && s.record.header.epoch == e && s.record.header.authority == authority && s.record.header.state == Initialised
            && s.record.header.artifactState == Pending && s.record.header.artifactCommitment == None
            && s.record.header.barrier ==
               Text(SupersessionBarrier, [if supersedes.Some? then supersedes.value else "NONE", e, authority])
            && s.private == identities.(epoch := e) && (s.record.version == V1 <==> identities.PrivateV1?)
            && s.ledger == Ledger(e, LedgerUnconsumed, None, None, None)
            && s.spool.frameCount == 0 && s.spool.lastStage == NoStage && s.spool.lastHash == ZeroHash
  {
  }

  // ---- Reading ----

  /** Loading a readable epoch always succeeds and changes nothing. */
  lemma Loading(store: Store, e: Ref, s: Snapshot, cut: nat)
    requires Holds(store, e, s) && cut >= ALL
    ensures Succeeds(store, e, LoadEpoch, cut, s, Reloaded)
  {
    hide Load, StoreOk, Perform, Succeeds, Refused;
    Granted(store, e, s, LoadEpoch, cut);
  }
}
