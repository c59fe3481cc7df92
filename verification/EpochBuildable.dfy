/**
 Which readable disks the store can build.  The load checks accept more than any run writes; this module says
 exactly how much more: a readable disk is that of some run, from an empty store, if and only if it is `Buildable`.
 */
module EpochBuildable {
  import opened Wrappers
  import opened EpochDocuments
  import opened EpochLoad
  import opened EpochHistory
  import opened EpochCalls
  import opened EpochCrash
  import opened EpochAtomicity
  import opened EpochRuns
  import opened EpochLifetime
  import EpochProtocol
  import Supersession

  // ---- What the store alone ensures ----

  /** The ref that the supersession barrier names first. */
  function Source(h: Header): Ref {
    if h.barrier.TextCommitment? && |h.barrier.fields| > 0 then h.barrier.fields[0] else ""
  }

  /** The barrier was made for this epoch, from a legal ref. */
  predicate BarrierOk(e: Ref, h: Header) {
    RefOk(Source(h)) && h.barrier == Text(SupersessionBarrier, [Source(h), e, h.authority])
  }

  /** What a readable snapshot shows if a run has built it, beyond what the load checks ask for. */
  predicate Made(e: Ref, s: Snapshot) {
    && Lived(s)
    && s.record.header.epoch == e
    && BarrierOk(e, s.record.header)
    && (s.ledger.data.Some? ==> s.ledger.data.value.DataCommitment?)
    && (s.record.version == V2 && s.record.header.artifactState == Pending ==>
          s.spool.lastStage == NoStage || (s.spool.lastStage == Abandon && s.spool.frameCount == 1))
  }

  ghost predicate Buildable(e: Ref, d: Disk, s: Snapshot) {
    Consecutive(d) && Made(e, s)
  }

  // ---- Every run builds such disks ----

  lemma CreatedMade(e: Ref, authority: Ref, identities: Private, supersedes: Option<Ref>)
    requires Admitted(e, authority, supersedes)
    ensures Made(e, Created(e, authority, identities, supersedes))
  {
    assert RefOk("NONE") by { ShortRefs(); }
    hide RefOk;
  }

  lemma FrameKeepsMade(e: Ref, s: Snapshot, d: Disk, f: Frame)
    requires Made(e, s) && Shapes(s) && CrossValid(s) && DecideIngest(s, d, f).Persist?
    ensures Made(e, AfterFrame(s, f))
  {
    hide FrameGenuine, PendingAbandonPayloadOk, RefOk, PrivateOk, FrameBytes;
  }

  lemma IntendedMade(e: Ref, d: Disk, s: Snapshot, call: Call)
    requires Made(e, s) && Shapes(s) && CrossValid(s)
    requires !call.Create? && !call.Supersede? && DecideLoaded(e, s, d, call).Persist?
    ensures Made(e, Intended(e, s, call))
  {
    hide DecideIngest, AfterFrame, RefOk, PrivateOk, RowIdOk, FilenameOk, Shapes, CrossValid;
    if call.AbandonEpoch? {
      FrameKeepsMade(e, s, d, NextFrame(s, Abandon, ABANDON_PAYLOAD));
    } else if call.IngestFrame? {
      FrameKeepsMade(e, s, d, call.frame);
    }
  }

  lemma SupersededMade(e: Ref, s: Snapshot, successor: Ref)
    requires Made(e, s)
    ensures Made(e, Intended(e, s, Supersede(successor)))
  {
    hide RefOk;
  }

  predicate MadeOnDisk(e: Ref, d: Disk) {
    Load(e, d).Some? ==> Made(e, Load(e, d).value)
  }

  lemma MadeStep(store: Store, e: Ref, x: Ref, call: Call, cut: nat)
    requires StoreOk(store) && MadeOnDisk(e, Base(store, e))
    ensures MadeOnDisk(e, DiskAfter(store, e, x, call, cut))
  {
    hide Load, Decide, DecideLoaded, Intended, Made, StoreOk, DiskAfter, Admitted, Creatable;
    AttemptOutcome(store, e, x, call, cut);
    if call.Create? && Admitted(e, call.authority, call.supersedes) {
      CreatedMade(e, call.authority, call.identities, call.supersedes);
    }
    if e in store && x == e && !call.Create? && Decide(store, e, call).Persist? {
      PersistMeansLoaded(store, e, call);
      var s := Load(e, store[e]).value;
      LoadedFiles(e, store[e]);
      if call.Supersede? {
        SupersededMade(e, s, call.successor);
      } else {
        IntendedMade(e, store[e], s, call);
      }
    }
  }

  lemma {:induction false} RunMade(attempts: seq<Attempt>, e: Ref)
    ensures MadeOnDisk(e, Base(Run(map[], attempts), e))
  {
    hide Perform, MadeOnDisk, StoreOk;
    EmptyStoreOk();
    if attempts == [] {
      NothingMade(e);
    } else {
      var last := |attempts| - 1;
      var a := attempts[last];
      RunKeepsOk(map[], attempts[..last]);
      RunMade(attempts[..last], e);
      MadeStep(Run(map[], attempts[..last]), e, a.epoch, a.call, a.cut);
    }
  }

  lemma NothingMade(e: Ref)
    ensures MadeOnDisk(e, map[])
  {
    EmptyUnreadable(e);
  }

  // ---- A snapshot determines its disk ----

  /** The document that a file other than a frame must hold for the snapshot to load. */
  function DocOf(s: Snapshot, f: File): Option<Doc> {
    var v := s.record.version;
    if f == RecordFile(v) then Some(RecordDoc(s.record))
    else if f == ManifestFile(v) then Some(ManifestDoc(s.manifest))
    else if f == PrivateFile(v) then Some(PrivateDoc(s.private))
    else if f == LedgerFile then Some(LedgerDoc(s.ledger))
    else if f == SpoolFile then Some(SpoolDoc(s.spool))
    else if f == BindingFile && v == V2 && s.binding.Some? then Some(BindingDoc(s.binding.value))
    else None
  }

  lemma LoadedDoc(e: Ref, d: Disk, s: Snapshot, f: File)
    requires Load(e, d) == Some(s) && !f.FrameFile?
    ensures if f in d then DocOf(s, f) == Some(d[f]) else DocOf(s, f) == None
  {
    hide Shapes, CrossValid, ReplayAgrees, Load, Layout;
    LoadedFiles(e, d);
    LayoutKeys(d);
    match f {
      case RecordFile(v) =>
      case ManifestFile(v) =>
      case PrivateFile(v) =>
      case BindingFile =>
      case LedgerFile =>
      case SpoolFile =>
    }
  }

  lemma LayoutKeys(d: Disk)
    ensures Layout(d) == Some(V1) ==> RecordFile(V2) !in d && ManifestFile(V2) !in d && PrivateFile(V2) !in d && BindingFile !in d
    ensures Layout(d) == Some(V2) ==> RecordFile(V1) !in d && ManifestFile(V1) !in d && PrivateFile(V1) !in d
  {
    assert forall f :: f in AuthorityFiles(V1) && f in d ==> f in d.Keys * AuthorityFiles(V1);
    assert forall f :: f in AuthorityFiles(V2) && f in d ==> f in d.Keys * AuthorityFiles(V2);
  }

  lemma SameFrameDocs(e: Ref, d: Disk, d': Disk, s: Snapshot)
    requires Load(e, d) == Some(s) && Load(e, d') == Some(s)
    ensures FrameDocs(d) == FrameDocs(d')
  {
    hide Load, Shapes, CrossValid, Layout, Readable, ReadAll, Replay, FrameDocs;
    LoadedFiles(e, d);
    LoadedFiles(e, d');
    HashPinsFrames(ContextOf(e, s), ContextOf(e, s), FrameDocs(d), FrameDocs(d'));
  }

  lemma SameFrameFile(d: Disk, d': Disk, n: nat)
    requires Consecutive(d) && Consecutive(d') && FrameDocs(d) == FrameDocs(d')
    ensures FrameFile(n) in d <==> FrameFile(n) in d'
    ensures FrameFile(n) in d ==> d[FrameFile(n)] == d'[FrameFile(n)]
  {
    hide FrameDocs;
    assert |FrameNumbers(d)| == |FrameDocs(d)| == |FrameNumbers(d')|;
    if FrameFile(n) in d {
      FrameDocAt(d, n);
      FrameDocAt(d', n);
    }
  }

  /** Two disks without gaps that load as the same snapshot are the same. */
  lemma SameDisk(e: Ref, d: Disk, d': Disk, s: Snapshot)
    requires Load(e, d) == Some(s) && Load(e, d') == Some(s) && Consecutive(d) && Consecutive(d')
    ensures d == d'
  {
    hide Load, Consecutive, FrameDocs, DocOf;
    SameFrameDocs(e, d, d', s);
    forall f: File
      ensures f in d <==> f in d'
      ensures f in d ==> d[f] == d'[f]
    {
      if f.FrameFile? {
        SameFrameFile(d, d', f.number);
      } else {
        LoadedDoc(e, d, s, f);
        LoadedDoc(e, d', s, f);
      }
    }
  }

  // ---- What the load checks pin ----

  predicate Valid(s: Snapshot) {
    Shapes(s) && CrossValid(s) && s.manifest.version == s.record.version
  }

  /** The parts of a valid snapshot that determine the rest. */
  predicate SameRoots(s: Snapshot, t: Snapshot) {
    && t.record.version == s.record.version && t.private == s.private
    && t.record.header.epoch == s.record.header.epoch && t.record.header.authority == s.record.header.authority
    && t.record.header.barrier == s.record.header.barrier
  }

  lemma SameWhole(s: Snapshot, t: Snapshot)
    requires Valid(s) && Valid(t) && SameRoots(s, t)
    requires t.record.header.state == s.record.header.state && t.record.header.artifactState == s.record.header.artifactState
    requires t.binding == s.binding && t.ledger == s.ledger && t.spool == s.spool
    ensures t == s
  {
    hide RefOk, PrivateOk, StateAgrees, SpoolShape, LedgerShape, BindingShape;
    assert t.record.header == s.record.header;
  }

  lemma UnspentLedgers(s: Snapshot, t: Snapshot)
    requires Valid(s) && Valid(t) && SameRoots(s, t)
    requires s.ledger.state == LedgerUnconsumed && t.ledger.state == LedgerUnconsumed
    ensures t.ledger == s.ledger
  {
    hide RefOk, PrivateOk, StateAgrees, SpoolShape, BindingShape, HeaderShape;
  }

  lemma PendingBindings(s: Snapshot, t: Snapshot)
    requires Valid(s) && Valid(t) && SameRoots(s, t)
    requires s.record.version == V1 ||
             (s.record.header.artifactState == Pending && t.record.header.artifactState == Pending)
    ensures t.binding == s.binding
  {
    hide RefOk, PrivateOk, StateAgrees, SpoolShape, LedgerShape, HeaderShape;
  }

  lemma SameSpools(s: Snapshot, t: Snapshot, fold: Fold, n: nat)
    requires Valid(s) && Valid(t) && SameRoots(s, t) && SpoolMatches(s.spool, fold, n) && SpoolMatches(t.spool, fold, n)
    ensures t.spool == s.spool
  {
    hide RefOk, PrivateOk, StateAgrees, BindingShape, LedgerShape, HeaderShape;
  }

  // ---- The way to a snapshot ----

  /** The live state in which an epoch takes its last frames, or is superseded. */
  function Goal(s: Snapshot): EpochState {
    match s.record.header.state
    case Initialised => Initialised
    case Ready => Ready
    case Active => Active
    case Consumed => Active
    case Abandoned => if s.record.version == V2 && s.record.header.artifactState == Pending then Initialised else Active
    case Superseded => if s.spool.lastStage == NoStage then Initialised else Ready
  }

  function StateRank(state: EpochState): nat {
    match state case Initialised => 0 case Ready => 1 case _ => 2
  }

  function ArtifactRank(state: ArtifactState): nat {
    match state case Pending => 0 case RowBound => 1 case Bound => 2
  }

  /** A snapshot to be built, with the frames its spool sums up. */
  predicate Target(e: Ref, s: Snapshot, docs: seq<Doc>) {
    && Valid(s) && Made(e, s) && s.record.header.state != Superseded
    && Replay(ContextOf(e, s), docs).Some?
    && SpoolMatches(s.spool, Replay(ContextOf(e, s), docs).value, |docs|)
  }

  /** The summary of the first `k` frames. */
  function FoldAt(e: Ref, s: Snapshot, docs: seq<Doc>, k: nat): Fold
    requires Replay(ContextOf(e, s), docs).Some? && k <= |docs|
  {
    ReplayPrefix(ContextOf(e, s), docs, k);
    Replay(ContextOf(e, s), docs[..k]).value
  }

  lemma FoldStep(e: Ref, s: Snapshot, docs: seq<Doc>, k: nat)
    requires Replay(ContextOf(e, s), docs).Some? && k < |docs|
    ensures FrameAccepted(ContextOf(e, s), FoldAt(e, s, docs, k), docs[k])
    ensures FoldAt(e, s, docs, k + 1) == Advance(FoldAt(e, s, docs, k), docs[k])
  {
    hide FrameAccepted, Advance;
    ReplayPrefix(ContextOf(e, s), docs, k + 1);
    assert docs[..k + 1][..k] == docs[..k];
  }

  predicate ArtifactFits(s: Snapshot, cur: Snapshot) {
    match s.record.version
    case V1 => ArtifactRank(cur.record.header.artifactState) <= ArtifactRank(s.record.header.artifactState)
    case V2 => cur.binding == s.binding || cur.record.header.artifactState == Pending
  }

  predicate FramesFit(e: Ref, s: Snapshot, docs: seq<Doc>, cur: Snapshot)
    requires Replay(ContextOf(e, s), docs).Some?
  {
    && 0 <= cur.spool.frameCount <= |docs|
    && SpoolMatches(cur.spool, FoldAt(e, s, docs, cur.spool.frameCount), cur.spool.frameCount)
  }

  /** First the artifact, then the state, then the frames. */
  predicate InPhase(s: Snapshot, cur: Snapshot) {
    var h := cur.record.header;
    && StateRank(h.state) <= StateRank(Goal(s))
    && (h.artifactState != s.record.header.artifactState ==> h.state == Initialised)
    && (h.artifactState != s.record.header.artifactState || h.state != Goal(s) ==>
          cur.spool.frameCount == 0 && cur.ledger.state == LedgerUnconsumed)
  }

  predicate OnTheWay(e: Ref, s: Snapshot, docs: seq<Doc>, cur: Snapshot)
    requires Replay(ContextOf(e, s), docs).Some?
  {
    && Valid(cur) && SameRoots(s, cur) && ArtifactFits(s, cur) && FramesFit(e, s, docs, cur)
    && (cur.ledger == s.ledger || cur.ledger.state == LedgerUnconsumed)
    && if Terminal(cur.record.header.state) then cur == s else InPhase(s, cur)
  }

  lemma StartsOnTheWay(e: Ref, s: Snapshot, docs: seq<Doc>)
    requires Target(e, s, docs)
    ensures Admitted(e, s.record.header.authority, Some(Source(s.record.header))) && Creatable(e, s.private)
    ensures Valid(Created(e, s.record.header.authority, s.private, Some(Source(s.record.header)))) ==>
            OnTheWay(e, s, docs, Created(e, s.record.header.authority, s.private, Some(Source(s.record.header))))
  {
    hide RefOk, PrivateOk, StateAgrees, SpoolShape, FrameAccepted;
    assert docs[..0] == [];
    assert FoldAt(e, s, docs, 0) == EMPTY_FOLD;
  }

  // ---- One call nearer ----

  lemma BindRowNearer(e: Ref, s: Snapshot, docs: seq<Doc>, cur: Snapshot)
    requires Target(e, s, docs) && OnTheWay(e, s, docs, cur) && !Terminal(cur.record.header.state)
    requires s.record.version == V1 && cur.record.header.artifactState == Pending != s.record.header.artifactState
    ensures cur.private.PrivateV1?
    ensures var call := BindRow(cur.private.rowId);
            DecideBindRow(cur, cur.private.rowId).Persist? && OnTheWay(e, s, docs, Intended(e, cur, call))
  {
    hide RefOk, PrivateOk, StateAgrees, SpoolShape, FoldAt, Made, Replay, SpoolMatches;
    assert DecideBindRow(cur, cur.private.rowId).Persist?;
    BindRowConsistent(cur, cur.private.rowId);
    hide Shapes, CrossValid;
  }

  lemma BindArtifactNearer(e: Ref, s: Snapshot, docs: seq<Doc>, cur: Snapshot)
    requires Target(e, s, docs) && OnTheWay(e, s, docs, cur) && !Terminal(cur.record.header.state)
    requires s.record.version == V1 && cur.record.header.artifactState == RowBound != s.record.header.artifactState
    ensures cur.private.PrivateV1?
    ensures var call := BindArtifact(cur.private.rowId, cur.private.filename);
            && DecideBindArtifact(cur, cur.private.rowId, cur.private.filename).Persist?
            && OnTheWay(e, s, docs, Intended(e, cur, call))
  {
    hide RefOk, PrivateOk, StateAgrees, SpoolShape, FoldAt, Made, Replay, SpoolMatches;
    assert DecideBindArtifact(cur, cur.private.rowId, cur.private.filename).Persist?;
    BindArtifactConsistent(cur, cur.private.rowId, cur.private.filename);
    hide Shapes, CrossValid;
  }

  lemma BoundParts(s: Snapshot)
    requires Valid(s) && s.record.version == V2 && s.record.header.artifactState != Pending
    ensures s.binding.Some?
    ensures var b, h := s.binding.value, s.record.header;
            && b.rowId.Some? && b.filename.Some? && RowIdOk(b.rowId.value) && FilenameOk(b.filename.value)
            && b == Binding(h.epoch, h.authority, Bound, b.rowId, b.filename,
                            Some(Sealed(ArtifactRow, [b.rowId.value, b.filename.value])), h.privateDigest)
  {
    hide RefOk, PrivateOk, StateAgrees, SpoolShape, RowIdOk, FilenameOk, LedgerShape;
  }

  lemma BindV2Nearer(e: Ref, s: Snapshot, docs: seq<Doc>, cur: Snapshot)
    requires Target(e, s, docs) && OnTheWay(e, s, docs, cur) && !Terminal(cur.record.header.state)
    requires s.record.version == V2 && cur.record.header.artifactState != s.record.header.artifactState
    ensures s.binding.Some? && s.binding.value.rowId.Some? && s.binding.value.filename.Some?
    ensures var row, file := s.binding.value.rowId.value, s.binding.value.filename.value;
            DecideBindV2(e, cur, row, file).Persist? && OnTheWay(e, s, docs, Intended(e, cur, BindV2(row, file)))
  {
    hide RefOk, PrivateOk, StateAgrees, SpoolShape, FoldAt, Replay, SpoolMatches, RowIdOk, FilenameOk, LedgerShape;
    assert cur.record.header.artifactState == Pending && s.record.header.artifactState == Bound;
    BoundParts(s);
    var row, file := s.binding.value.rowId.value, s.binding.value.filename.value;
    assert DecideBindV2(e, cur, row, file).Persist?;
    assert cur.record.header.privateDigest == s.record.header.privateDigest;
    BindV2Consistent(e, cur, row, file);
    hide Shapes, CrossValid;
  }

  /** A version-2 epoch that has to leave its first state is bound. */
  lemma GoalBound(e: Ref, s: Snapshot, docs: seq<Doc>)
    requires Target(e, s, docs) && Goal(s) != Initialised
    ensures s.record.version == V2 ==> s.record.header.artifactState == Bound
  {
    hide RefOk, PrivateOk, StateAgrees, SpoolShape, RowIdOk, FilenameOk, LedgerShape, Replay, SpoolMatches;
  }

  lemma TransitionNearer(e: Ref, s: Snapshot, docs: seq<Doc>, cur: Snapshot)
    requires Target(e, s, docs) && OnTheWay(e, s, docs, cur) && !Terminal(cur.record.header.state)
    requires cur.record.header.artifactState == s.record.header.artifactState && cur.record.header.state != Goal(s)
    ensures var h := cur.record.header;
            && h.state in {Initialised, Ready}
            && var next := if h.state == Initialised then Ready else Active;
               && DecideTransition(cur, h.state, next).Persist?
               && OnTheWay(e, s, docs, WithState(cur, next))
  {
    hide RefOk, PrivateOk, StateAgrees, SpoolShape, FoldAt, Replay, SpoolMatches, RowIdOk, FilenameOk, LedgerShape;
    GoalBound(e, s, docs);
    var h := cur.record.header;
    var next := if h.state == Initialised then Ready else Active;
    assert DecideTransition(cur, h.state, next).Persist?;
    TransitionConsistent(cur, h.state, next);
    hide Shapes, CrossValid;
  }

  lemma BoundByNow(e: Ref, s: Snapshot, docs: seq<Doc>, cur: Snapshot)
    requires Target(e, s, docs) && Goal(s) != Initialised && Valid(cur) && SameRoots(s, cur)
    requires cur.record.header.artifactState == s.record.header.artifactState
    ensures BoundIfV2(cur)
  {
    hide RefOk, PrivateOk, StateAgrees, SpoolShape, LedgerShape, Replay, SpoolMatches, Goal, Made, RowIdOk, FilenameOk;
    GoalBound(e, s, docs);
  }

  lemma SpentLedger(e: Ref, s: Snapshot)
    requires Valid(s) && Made(e, s) && s.ledger.state == LedgerConsumed
    ensures s.ledger.transitionId.Some? && RefOk(s.ledger.transitionId.value)
    ensures s.ledger.data.Some? && s.ledger.data.value.DataCommitment?
    ensures s.ledger == Ledger(e, LedgerConsumed, s.ledger.transitionId, Some("RESTORE_STARTED"), s.ledger.data)
  {
    hide RefOk, PrivateOk, StateAgrees, SpoolShape, BindingShape;
  }

  lemma ConsumeNearer(e: Ref, s: Snapshot, docs: seq<Doc>, cur: Snapshot)
    requires Target(e, s, docs) && OnTheWay(e, s, docs, cur) && !Terminal(cur.record.header.state)
    requires cur.record.header.artifactState == s.record.header.artifactState && cur.record.header.state == Goal(s) == Active
    requires cur.ledger.state == LedgerUnconsumed && s.ledger.state == LedgerConsumed
    requires cur.spool.lastStage == RunnerStarted && cur.spool.state == SpoolOpen
    ensures s.ledger.transitionId.Some? && s.ledger.data.Some? && s.ledger.data.value.DataCommitment?
    ensures var id, data := s.ledger.transitionId.value, s.ledger.data.value.data;
            && DecideConsume(e, cur, id, LedgerDigest(cur.ledger), data).Persist?
            && OnTheWay(e, s, docs, Intended(e, cur, ConsumeRestore(id, LedgerDigest(cur.ledger), data)))
  {
    hide RefOk, PrivateOk, FoldAt, Replay, SpoolMatches, Shapes, CrossValid, BoundIfV2, Lived, BarrierOk;
    SpentLedger(e, s);
    BoundByNow(e, s, docs, cur);
    var id, data := s.ledger.transitionId.value, s.ledger.data.value.data;
    assert DecideConsume(e, cur, id, LedgerDigest(cur.ledger), data).Persist?;
    SameEpoch(e, s, cur);
    ConsumeConsistent(e, cur, id, LedgerDigest(cur.ledger), data);
  }

  lemma SameEpoch(e: Ref, s: Snapshot, cur: Snapshot)
    requires Made(e, s) && SameRoots(s, cur)
    ensures cur.record.header.epoch == e
  {
  }

  /** What the replayed target says about the place of its frame `k`. */
  lemma StageOf(e: Ref, s: Snapshot, docs: seq<Doc>, k: nat)
    requires Target(e, s, docs) && k < |docs|
    ensures docs[k].FrameDoc?
    ensures var stage, before := docs[k].frame.stage, FoldAt(e, s, docs, k).stage;
            && (stage in {Commit, Abandon} ==> k + 1 == |docs| && s.spool.lastStage == stage)
            && (stage == EpochReady ==> Goal(s) in {Ready, Active})
            && (stage in {RunnerStarted, RestoreBegin, Commit} ==> Goal(s) == Active)
            && (stage == Abandon ==> Goal(s) == if before == NoStage then Initialised else Active)
  {
    hide RefOk, PrivateOk, FrameAccepted, RowIdOk, FilenameOk, LedgerShape, SpoolShape, BindingShape, FrameBytes;
    ReplayedHistory(ContextOf(e, s), docs);
    ReplayPrefix(ContextOf(e, s), docs, k);
    ReplayedHistory(ContextOf(e, s), docs[..k]);
    assert Stages(docs)[k] == docs[k].frame.stage;
  }

  /** With artifact and state in place, the next frame of the target may be taken. */
  predicate ReadyFor(e: Ref, s: Snapshot, docs: seq<Doc>, cur: Snapshot, k: nat)
    requires Replay(ContextOf(e, s), docs).Some?
  {
    && OnTheWay(e, s, docs, cur) && !Terminal(cur.record.header.state)
    && cur.record.header.artifactState == s.record.header.artifactState && cur.record.header.state == Goal(s)
    && cur.spool.frameCount == k < |docs| && docs[k].FrameDoc?
    && (docs[k].frame.stage == RestoreBegin ==> cur.ledger.state == LedgerConsumed)
  }

  lemma FrameIsNext(e: Ref, s: Snapshot, docs: seq<Doc>, cur: Snapshot, k: nat)
    requires Target(e, s, docs) && ReadyFor(e, s, docs, cur, k)
    ensures FrameGenuine(cur, docs[k].frame)
  {
    hide RefOk, PrivateOk, Shapes, CrossValid, Replay, FoldAt, Successors, LegalAbandon, DirectPendingAbandon, FrameBytes, PayloadOk,
         InPhase, ArtifactFits, Goal, Lived;
    FoldStep(e, s, docs, k);
    SameEpoch(e, s, cur);
  }

  /** The ledgers agree as far as the next frame asks for them. */
  lemma LedgerInTime(e: Ref, s: Snapshot, docs: seq<Doc>, cur: Snapshot, k: nat)
    requires Target(e, s, docs) && ReadyFor(e, s, docs, cur, k)
    ensures docs[k].frame.stage in {RestoreBegin, Commit} ==> cur.ledger.state == LedgerConsumed
    ensures docs[k].frame.stage in {Commit, Abandon} ==> cur.ledger == s.ledger
    ensures cur.spool.state == SpoolOpen && cur.spool.lastStage == FoldAt(e, s, docs, k).stage
  {
    hide RefOk, PrivateOk, Shapes, CrossValid, Replay, FoldAt, FrameBytes, PayloadOk, FrameShape, InPhase, ArtifactFits, Goal, Made;
    FoldStep(e, s, docs, k);
    OpenSpool(cur);
    if s.ledger.state == LedgerUnconsumed {
      NotSpent(s, cur);
      UnspentLedgers(s, cur);
    }
  }

  lemma NotSpent(s: Snapshot, cur: Snapshot)
    requires cur.ledger == s.ledger || cur.ledger.state == LedgerUnconsumed
    ensures s.ledger.state == LedgerUnconsumed ==> cur.ledger.state == LedgerUnconsumed
  {
  }

  lemma SameBinding(s: Snapshot, cur: Snapshot)
    requires Valid(s) && Valid(cur) && SameRoots(s, cur) && ArtifactFits(s, cur)
    requires cur.record.header.artifactState == s.record.header.artifactState
    ensures cur.binding == s.binding
  {
    hide RefOk, PrivateOk, Shapes, CrossValid;
    if s.record.version == V1 || s.record.header.artifactState == Pending {
      PendingBindings(s, cur);
    }
  }

  lemma BindingState(s: Snapshot)
    requires Valid(s) && s.record.version == V2
    ensures s.binding.Some? && s.binding.value.state == s.record.header.artifactState
  {
    hide RefOk, PrivateOk, StateAgrees, SpoolShape, LedgerShape;
  }

  lemma DirectAllowed(e: Ref, s: Snapshot, docs: seq<Doc>, cur: Snapshot, k: nat)
    requires Target(e, s, docs) && ReadyFor(e, s, docs, cur, k)
    requires docs[k].frame.stage == Abandon && FoldAt(e, s, docs, k).stage == NoStage
    ensures DirectPendingAbandonAllowed(cur)
    ensures docs[k].frame.payload == ABANDON_PAYLOAD
  {
    hide RefOk, PrivateOk, Shapes, CrossValid, Replay, FrameBytes, PayloadOk, FrameShape, InPhase, ArtifactFits, Made;
    StageOf(e, s, docs, k);
    LedgerInTime(e, s, docs, cur, k);
    FoldStep(e, s, docs, k);
    ReplayPrefix(ContextOf(e, s), docs, k);
    ReplayedHistory(ContextOf(e, s), docs[..k]);
    assert k == 0;
    assert docs[..k] == [];
    BindingState(cur);
  }

  lemma StageIsAllowed(e: Ref, s: Snapshot, docs: seq<Doc>, cur: Snapshot, k: nat)
    requires Target(e, s, docs) && ReadyFor(e, s, docs, cur, k)
    ensures var f := docs[k].frame; StageAllowed(cur, f.stage) && PendingAbandonPayloadOk(cur, f.stage, f.payload)
  {
    hide RefOk, PrivateOk, Shapes, CrossValid, Replay, FrameBytes, PayloadOk, InPhase, ArtifactFits, Made, FoldAt, BoundIfV2,
         DirectPendingAbandonAllowed, Goal;
    StageOf(e, s, docs, k);
    LedgerInTime(e, s, docs, cur, k);
    FoldStep(e, s, docs, k);
    if docs[k].frame.stage == Abandon && FoldAt(e, s, docs, k).stage == NoStage {
      DirectAllowed(e, s, docs, cur, k);
    } else if docs[k].frame.stage == Abandon {
      NotDirect(cur);
    }
    if docs[k].frame.stage != Abandon {
      BoundByNow(e, s, docs, cur);
    }
  }

  lemma NotDirect(cur: Snapshot)
    ensures DirectPendingAbandonAllowed(cur) ==> cur.spool.lastStage == NoStage
  {
  }

  lemma FramePersists(e: Ref, s: Snapshot, docs: seq<Doc>, cur: Snapshot, k: nat, d: Disk)
    requires Target(e, s, docs) && ReadyFor(e, s, docs, cur, k)
    requires Load(e, d) == Some(cur) && DiskOk(e, d)
    ensures DecideIngest(cur, d, docs[k].frame).Persist?
  {
    hide RefOk, PrivateOk, Shapes, CrossValid, Replay, FrameBytes, PayloadOk, FoldAt, StageAllowed, PendingAbandonPayloadOk, Load,
         SpoolShape, OnTheWay, Goal, Made;
    var f := docs[k].frame;
    FrameIsNext(e, s, docs, cur, k);
    StageIsAllowed(e, s, docs, cur, k);
    FrameFits(f);
    EpochProtocol.NextNumber(e, d, cur);
    NeverStuck(e, d, cur, f);
  }

  lemma FrameAdvances(e: Ref, s: Snapshot, docs: seq<Doc>, cur: Snapshot, k: nat, d: Disk)
    requires Target(e, s, docs) && ReadyFor(e, s, docs, cur, k)
    requires DecideIngest(cur, d, docs[k].frame).Persist?
    ensures var t := AfterFrame(cur, docs[k].frame);
            Valid(t) && SameRoots(s, t) && ArtifactFits(s, t) && FramesFit(e, s, docs, t)
            && t.ledger == cur.ledger && t.binding == cur.binding && t.spool.frameCount == k + 1
            && t.record.header.artifactState == cur.record.header.artifactState
            && t.record.header.state == match docs[k].frame.stage case Commit => Consumed case Abandon => Abandoned case _ => Goal(s)
  {
    hide RefOk, PrivateOk, Shapes, CrossValid, Replay, FrameBytes, PayloadOk, FoldAt, DecideIngest, Made, FrameAccepted, SpoolMatches;
    var f := docs[k].frame;
    FoldStep(e, s, docs, k);
    IngestStaysValid(cur, d, f);
    AcceptedSequence(ContextOf(e, s), FoldAt(e, s, docs, k), docs[k]);
    SpoolAdvances(cur.spool, FoldAt(e, s, docs, k), k, docs[k]);
  }

  lemma AcceptedSequence(c: Context, fold: Fold, doc: Doc)
    requires FrameAccepted(c, fold, doc)
    ensures doc.FrameDoc? && doc.frame.sequence == fold.next
  {
    hide FrameBytes, FrameShape;
  }

  lemma SpoolAdvances(spool: Spool, fold: Fold, n: nat, doc: Doc)
    requires SpoolMatches(spool, fold, n) && doc.FrameDoc? && doc.frame.sequence == fold.next
    ensures SpoolMatches(NextSpool(spool, doc.frame), Advance(fold, doc), n + 1)
  {
    hide FrameBytes;
  }

  lemma FrameNearer(e: Ref, s: Snapshot, docs: seq<Doc>, cur: Snapshot, k: nat, d: Disk)
    requires Target(e, s, docs) && ReadyFor(e, s, docs, cur, k)
    requires DecideIngest(cur, d, docs[k].frame).Persist?
    ensures OnTheWay(e, s, docs, AfterFrame(cur, docs[k].frame))
  {
    hide RefOk, PrivateOk, Shapes, CrossValid, Replay, FrameBytes, PayloadOk, FoldAt, DecideIngest, Made, FrameAccepted,
         AfterFrame, ArtifactFits, Goal;
    var f, t := docs[k].frame, AfterFrame(cur, docs[k].frame);
    FrameAdvances(e, s, docs, cur, k, d);
    if f.stage in {Commit, Abandon} {
      StageOf(e, s, docs, k);
      LedgerInTime(e, s, docs, cur, k);
      SameBinding(s, cur);
      assert docs[..|docs|] == docs;
      assert FoldAt(e, s, docs, |docs|) == Replay(ContextOf(e, s), docs).value by { WholeFold(e, s, docs); }
      SameSpools(s, t, FoldAt(e, s, docs, |docs|), |docs|);
      ClosedState(s);
      SameWhole(s, t);
    }
  }

  lemma WholeFold(e: Ref, s: Snapshot, docs: seq<Doc>)
    requires Replay(ContextOf(e, s), docs).Some?
    ensures FoldAt(e, s, docs, |docs|) == Replay(ContextOf(e, s), docs).value
  {
    hide Replay;
    assert docs[..|docs|] == docs;
  }

  lemma ClosedState(s: Snapshot)
    requires Valid(s)
    ensures s.spool.lastStage == Commit ==> s.record.header.state == Consumed
    ensures s.spool.lastStage == Abandon ==> s.record.header.state == Abandoned
  {
    hide RefOk, PrivateOk, BindingShape, LedgerShape, SpoolShape;
  }

  // ---- The run that builds it ----

  /** Nothing is left to do: the live snapshot is the target. */
  lemma Arrived(e: Ref, s: Snapshot, docs: seq<Doc>, cur: Snapshot)
    requires Target(e, s, docs) && OnTheWay(e, s, docs, cur) && !Terminal(cur.record.header.state)
    requires cur.record.header.artifactState == s.record.header.artifactState && cur.record.header.state == Goal(s)
    requires cur.spool.frameCount == |docs| && cur.ledger.state == s.ledger.state
    ensures cur == s
  {
    hide RefOk, PrivateOk, Shapes, CrossValid, Replay, FoldAt, Made, ArtifactFits;
    WholeFold(e, s, docs);
    SameBinding(s, cur);
    SameSpools(s, cur, FoldAt(e, s, docs, |docs|), |docs|);
    if s.ledger.state == LedgerUnconsumed {
      UnspentLedgers(s, cur);
    }
    OpenSpool(cur);
    StillOpen(s);
    SameWhole(s, cur);
  }

  /** An epoch that has ended, other than by supersession, has a closed spool. */
  lemma StillOpen(s: Snapshot)
    requires Valid(s) && s.spool.state == SpoolOpen
    ensures s.record.header.state !in {Abandoned, Consumed}
  {
    hide RefOk, PrivateOk, BindingShape, LedgerShape, SpoolShape;
  }

  /** The restore authority has to be spent now: the next frame asks for it, or nothing else is left. */
  lemma TimeToConsume(e: Ref, s: Snapshot, docs: seq<Doc>, cur: Snapshot)
    requires Target(e, s, docs) && OnTheWay(e, s, docs, cur) && !Terminal(cur.record.header.state)
    requires cur.ledger.state == LedgerUnconsumed
    requires var k := cur.spool.frameCount;
             if k < |docs| then docs[k].FrameDoc? && docs[k].frame.stage == RestoreBegin else s.ledger.state == LedgerConsumed
    ensures s.ledger.state == LedgerConsumed && cur.spool.lastStage == RunnerStarted && cur.spool.state == SpoolOpen
    ensures cur.record.header.state == Active
  {
    hide RefOk, PrivateOk, Shapes, Replay, FoldAt, ArtifactFits, FrameBytes, PayloadOk, FrameShape, InPhase, BarrierOk;
    var k := cur.spool.frameCount;
    OpenSpool(cur);
    if k < |docs| {
      FoldStep(e, s, docs, k);
    } else {
      WholeFold(e, s, docs);
      assert cur.spool.lastStage == s.spool.lastStage;
    }
  }

  lemma BindNearer(e: Ref, s: Snapshot, docs: seq<Doc>, cur: Snapshot, d: Disk) returns (call: Call)
    requires Target(e, s, docs) && OnTheWay(e, s, docs, cur) && !Terminal(cur.record.header.state)
    requires cur.record.header.artifactState != s.record.header.artifactState
    ensures !call.Create? && !call.Supersede? && DecideLoaded(e, cur, d, call).Persist?
    ensures OnTheWay(e, s, docs, Intended(e, cur, call))
  {
    hide RefOk, PrivateOk, Shapes, CrossValid, Replay, FoldAt, Made, DecideIngest, DecideConsume, DecideBindV2, DecideBindRow,
         DecideBindArtifact, DecideTransition, AfterFrame, Goal, InPhase, FramesFit;
    if s.record.version == V2 {
      BindV2Nearer(e, s, docs, cur);
      call := BindV2(s.binding.value.rowId.value, s.binding.value.filename.value);
    } else if cur.record.header.artifactState == Pending {
      BindRowNearer(e, s, docs, cur);
      call := BindRow(cur.private.rowId);
    } else {
      BindArtifactNearer(e, s, docs, cur);
      call := BindArtifact(cur.private.rowId, cur.private.filename);
    }
  }

  lemma LastCalls(e: Ref, s: Snapshot, docs: seq<Doc>, cur: Snapshot, d: Disk) returns (call: Call)
    requires Load(e, d) == Some(cur) && DiskOk(e, d) && cur != s
    requires Target(e, s, docs) && OnTheWay(e, s, docs, cur) && !Terminal(cur.record.header.state)
    requires cur.record.header.artifactState == s.record.header.artifactState && cur.record.header.state == Goal(s)
    ensures !call.Create? && !call.Supersede? && DecideLoaded(e, cur, d, call).Persist?
    ensures OnTheWay(e, s, docs, Intended(e, cur, call))
  {
    hide RefOk, PrivateOk, Shapes, CrossValid, Replay, FoldAt, Made, DecideIngest, DecideConsume, DecideBindV2, DecideBindRow,
         DecideBindArtifact, DecideTransition, AfterFrame, Goal, InPhase, Load, ArtifactFits;
    var k := cur.spool.frameCount;
    if k < |docs| {
      StageOf(e, s, docs, k);
    }
    if k < |docs| && (docs[k].frame.stage == RestoreBegin ==> cur.ledger.state == LedgerConsumed) {
      FramePersists(e, s, docs, cur, k, d);
      FrameNearer(e, s, docs, cur, k, d);
      call := IngestFrame(docs[k].frame);
    } else {
      if k == |docs| && cur.ledger.state == s.ledger.state {
        Arrived(e, s, docs, cur);
      }
      TimeToConsume(e, s, docs, cur);
      ConsumeNearer(e, s, docs, cur);
      call := ConsumeRestore(s.ledger.transitionId.value, LedgerDigest(cur.ledger), s.ledger.data.value.data);
    }
  }

  /** One call on the way, chosen by what is missing first. */
  lemma OneNearer(e: Ref, s: Snapshot, docs: seq<Doc>, cur: Snapshot, d: Disk) returns (call: Call)
    requires Load(e, d) == Some(cur) && DiskOk(e, d) && cur != s
    requires Target(e, s, docs) && OnTheWay(e, s, docs, cur)
    ensures !call.Create? && !call.Supersede? && DecideLoaded(e, cur, d, call).Persist?
    ensures OnTheWay(e, s, docs, Intended(e, cur, call))
  {
    hide RefOk, PrivateOk, Shapes, CrossValid, Replay, FoldAt, Made, DecideIngest, DecideConsume, DecideBindV2, DecideBindRow,
         DecideBindArtifact, DecideTransition, AfterFrame, Goal, InPhase, Load, ArtifactFits, FramesFit;
    var h := cur.record.header;
    if h.artifactState != s.record.header.artifactState {
      call := BindNearer(e, s, docs, cur, d);
    } else if h.state != Goal(s) {
      TransitionNearer(e, s, docs, cur);
      call := if h.state == Initialised then MarkReady else Activate;
    } else {
      call := LastCalls(e, s, docs, cur, d);
    }
  }

  lemma {:induction false} ReachFrom(store: Store, e: Ref, s: Snapshot, docs: seq<Doc>, cur: Snapshot)
    returns (attempts: seq<Attempt>)
    requires StoreOk(store) && e in store && Load(e, store[e]) == Some(cur)
    requires Target(e, s, docs) && OnTheWay(e, s, docs, cur)
    ensures var after := Run(store, attempts);
            && StoreOk(after) && e in after && Load(e, after[e]) == Some(s)
            && forall x :: x in after && x != e ==> x in store
    decreases Rank(cur)
  {
    hide Load, DecideLoaded, Intended, StoreOk, Perform, Rank, OnTheWay, Target;
    if cur == s {
      attempts := [];
    } else {
      StoreDiskOk(store, e);
      var call := OneNearer(e, s, docs, cur, store[e]);
      DecidesLoaded(store, e, cur, call);
      Completes(store, e, cur, call);
      RankDecreases(store, e, cur, call);
      PerformKeepsOk(store, e, call, 4);
      var rest := ReachFrom(Perform(store, e, call, 4).0, e, s, docs, Intended(e, cur, call));
      attempts := [Attempt(e, call, 4)] + rest;
      RunOneMore(store, rest, Attempt(e, call, 4));
    }
  }

  lemma DecidesLoaded(store: Store, e: Ref, s: Snapshot, call: Call)
    requires e in store && Load(e, store[e]) == Some(s) && !call.Create? && !call.Supersede?
    ensures Decide(store, e, call) == DecideLoaded(e, s, store[e], call)
  {
    hide Load, DecideLoaded;
  }

  lemma ValidLoaded(e: Ref, d: Disk, s: Snapshot)
    requires Load(e, d) == Some(s)
    ensures Valid(s)
  {
    hide Load, Shapes, CrossValid, ReplayAgrees, Layout;
    LoadedFiles(e, d);
  }

  /** Every target is the snapshot of some run from an empty store. */
  lemma Reach(e: Ref, s: Snapshot, docs: seq<Doc>) returns (attempts: seq<Attempt>)
    requires Target(e, s, docs)
    ensures var after := Run(map[], attempts);
            && StoreOk(after) && after.Keys == {e} && Load(e, after[e]) == Some(s)
  {
    hide Load, StoreOk, Perform, RefOk, PrivateOk, Created, OnTheWay, Made, CrossValid, Shapes, Replay;
    var create := Create(s.record.header.authority, s.private, Some(Source(s.record.header)));
    StartsOnTheWay(e, s, docs);
    EmptyStoreOk();
    LedgerRefOk(e);
    CreateAtomic(map[], e, create, 6);
    PerformKeepsOk(map[], e, create, 6);
    var store := Perform(map[], e, create, 6).0;
    var start := Created(e, s.record.header.authority, s.private, Some(Source(s.record.header)));
    ValidLoaded(e, store[e], start);
    var rest := ReachFrom(store, e, s, docs, start);
    attempts := [Attempt(e, create, 6)] + rest;
    RunOneMore(map[], rest, Attempt(e, create, 6));
  }

  // ---- Superseded epochs ----

  /** The live epoch that a superseded one was before. */
  lemma LiveBefore(e: Ref, s: Snapshot, docs: seq<Doc>)
    requires Valid(s) && Made(e, s) && s.record.header.state == Superseded
    requires Replay(ContextOf(e, s), docs).Some? && SpoolMatches(s.spool, Replay(ContextOf(e, s), docs).value, |docs|)
    ensures var t := WithState(s, Goal(s));
            && Target(e, t, docs) && !Terminal(t.record.header.state) && !SupersedeTooLate(t)
            && t.record.header.authority == s.record.header.authority
    ensures WithState(WithState(s, Goal(s)), Superseded) == s
  {
    hide RefOk, PrivateOk, Replay;
    var t := WithState(s, Goal(s));
    assert Valid(t);
    assert Made(e, t);
    ReplaySurvives(ContextOf(e, s), ContextOf(e, t), docs);
  }

  lemma Superseding(store: Store, e: Ref, t: Snapshot, x: Ref) returns (attempts: seq<Attempt>)
    requires StoreOk(store) && store.Keys == {e} && Load(e, store[e]) == Some(t) && !Terminal(t.record.header.state)
    requires !SupersedeTooLate(t) && RefOk(e) && RefOk(t.record.header.authority) && RefOk(x) && x != e && |x| <= 121
    ensures var after := Run(store, attempts);
            StoreOk(after) && e in after && Load(e, after[e]) == Some(WithState(t, Superseded))
  {
    hide Load, StoreOk, Decide, Intended, LandsUnreadable, RefOk, PrivateOk, Prefix, Perform;
    var create := Create(t.record.header.authority, SAMPLE, Some(e));
    SampleOk(x);
    LedgerRefOk(x);
    EpochProtocol.SuccessorAccepted(store, e, t, x, SAMPLE);
    var made := Perform(store, x, create, 6).0;
    EpochProtocol.LateMeans(t, x);
    CutDisk(made, e, Supersede(x), 4);
    CrashAtomicity(made, e, t, Supersede(x), 4);
    IntendedSupersede(e, t, x);
    PerformKeepsOk(made, e, Supersede(x), 4);
    attempts := [Attempt(x, create, 6), Attempt(e, Supersede(x), 4)];
    assert attempts[..1] == [attempts[0]] && attempts[..1][..0] == [];
    assert Run(store, []) == store;
    assert Run(store, attempts[..1]) == made;
  }

  lemma IntendedSupersede(e: Ref, t: Snapshot, x: Ref)
    ensures Intended(e, t, Supersede(x)) == WithState(t, Superseded)
  {
  }

  lemma {:induction false} RunOn(store: Store, a: seq<Attempt>, b: seq<Attempt>)
    ensures Run(store, a + b) == Run(Run(store, a), b)
  {
    hide Perform;
    if b == [] {
      assert a + b == a;
    } else {
      var last := |b| - 1;
      RunOn(store, a, b[..last]);
      assert (a + b)[..|a + b| - 1] == a + b[..last];
    }
  }

  lemma LegalRefs(e: Ref, s: Snapshot)
    requires Valid(s) && s.record.header.epoch == e
    ensures RefOk(e) && RefOk(s.record.header.authority)
  {
    hide RefOk, PrivateOk, StateAgrees, SpoolShape, LedgerShape, BindingShape;
  }

  lemma ReachSuperseded(e: Ref, s: Snapshot, docs: seq<Doc>) returns (attempts: seq<Attempt>)
    requires Valid(s) && Made(e, s) && s.record.header.state == Superseded
    requires Replay(ContextOf(e, s), docs).Some? && SpoolMatches(s.spool, Replay(ContextOf(e, s), docs).value, |docs|)
    ensures var after := Run(map[], attempts); StoreOk(after) && e in after && Load(e, after[e]) == Some(s)
  {
    hide Load, StoreOk, Run, RefOk, Replay, Target, Made, Valid;
    LiveBefore(e, s, docs);
    var t := WithState(s, Goal(s));
    MadeEpoch(e, s);
    LegalRefs(e, s);
    ShortRefs();
    var x := if e == "first" then "next" else "first";
    var front := Reach(e, t, docs);
    var back := Superseding(Run(map[], front), e, t, x);
    attempts := front + back;
    RunOn(map[], front, back);
  }

  lemma MadeEpoch(e: Ref, s: Snapshot)
    requires Made(e, s)
    ensures s.record.header.epoch == e
  {
  }

  // ---- The theorem ----

  /** The snapshot of every buildable disk is built by some run. */
  lemma SomeRun(e: Ref, d: Disk, s: Snapshot) returns (attempts: seq<Attempt>)
    requires Load(e, d) == Some(s) && Buildable(e, d, s)
    ensures Base(Run(map[], attempts), e) == d
  {
    hide Load, StoreOk, Run, Replay, Made, Consecutive, Valid, FrameDocs, Owned;
    var docs := FrameDocs(d);
    ValidLoaded(e, d, s);
    LoadedReplay(e, d, s);
    if s.record.header.state == Superseded {
      attempts := ReachSuperseded(e, s, docs);
    } else {
      attempts := Reach(e, s, docs);
    }
    StoreDiskOk(Run(map[], attempts), e);
    SameDisk(e, d, Run(map[], attempts)[e], s);
  }

  lemma LoadedReplay(e: Ref, d: Disk, s: Snapshot)
    requires Load(e, d) == Some(s)
    ensures Replay(ContextOf(e, s), FrameDocs(d)).Some?
    ensures SpoolMatches(s.spool, Replay(ContextOf(e, s), FrameDocs(d)).value, |FrameDocs(d)|)
  {
    hide Load, Shapes, CrossValid, Layout, Readable, ReadAll, Replay, SpoolMatches, FrameDocs;
    LoadedFiles(e, d);
  }

  /** What a run has built is buildable. */
  lemma RunBuildable(attempts: seq<Attempt>, e: Ref, s: Snapshot)
    requires Load(e, Base(Run(map[], attempts), e)) == Some(s)
    ensures Buildable(e, Base(Run(map[], attempts), e), s)
  {
    hide Load, StoreOk, Run, Made, Consecutive, Owned;
    EmptyStoreOk();
    RunKeepsOk(map[], attempts);
    RunMade(attempts, e);
    EmptyUnreadable(e);
    StoreDiskOk(Run(map[], attempts), e);
  }

  /** A readable disk is that of some run from an empty store if and only if it is buildable. */
  lemma BuildableIff(e: Ref, d: Disk, s: Snapshot)
    requires Load(e, d) == Some(s)
    ensures (exists attempts: seq<Attempt> :: Base(Run(map[], attempts), e) == d) <==> Buildable(e, d, s)
  {
    hide Load, Run, Buildable, Base;
    if attempts: seq<Attempt> :| Base(Run(map[], attempts), e) == d {
      RunBuildable(attempts, e, s);
    }
    if Buildable(e, d, s) {
      var attempts := SomeRun(e, d, s);
    }
  }
}
