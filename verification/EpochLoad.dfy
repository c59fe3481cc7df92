/**
 Loading an epoch: layout detection, the cross-file checks, and the offline replay of the
 hash-chained frames.  `Load` is total over every disk: a disk that fails any check gives None.
 */
module EpochLoad {
  import opened Wrappers
  import opened EpochDocuments

  // ---- The stage automaton ----

  function Successors(stage: Stage): set<Stage> {
    match stage
    case NoStage => {EpochReady}
    case EpochReady => {RunnerStarted, Abandon}
    case RunnerStarted => {RestoreBegin, Abandon}
    case RestoreBegin => {Commit, Abandon}
    case Commit => {}
    case Abandon => {}
  }

  predicate LegalAbandon(previous: Stage, ledger: LedgerState) {
    || (ledger == LedgerUnconsumed && previous in {EpochReady, RunnerStarted})
    || (ledger == LedgerConsumed && previous == RestoreBegin)
  }

  // ---- Replay of the frame files ----

  /** What the replay knows from the other documents. */
  datatype Context = Context(
    epoch: Ref,
    version: Version,
    state: EpochState,
    artifactState: ArtifactState,
    ledger: LedgerState,
    private: Private)

  function ContextOf(e: Ref, s: Snapshot): Context {
    Context(e, s.record.version, s.record.header.state, s.record.header.artifactState,
            s.ledger.state, s.private)
  }

  datatype Fold = Fold(next: nat, hash: FrameHash, bytes: nat, highest: nat, stage: Stage)

  const EMPTY_FOLD: Fold := Fold(1, ZeroHash, 0, 0, NoStage)

  predicate DirectPendingAbandon(c: Context, fold: Fold, frame: Frame) {
    && c.version == V2 && c.state == Abandoned && c.artifactState == Pending
    && c.ledger == LedgerUnconsumed
    && frame.stage == Abandon && fold.stage == NoStage && fold.next == 1
  }

  predicate FrameAccepted(c: Context, fold: Fold, doc: Doc) {
    && doc.FrameDoc? && FrameShape(doc.frame) && FrameBytes(doc.frame) <= MAX_FRAME_BYTES
    && var f := doc.frame;
    && f.epoch == c.epoch && f.sequence == fold.next
    && f.previous == fold.hash
    && f.auth == FrameAuth(c.private, c.epoch, f.sequence, f.stage, f.payload, f.previous)
    && f.hash == HashOf(c.epoch, f.sequence, f.stage, f.payload, f.previous, f.auth)
    && var direct := DirectPendingAbandon(c, fold, f);
    && (direct ==> f.payload == ABANDON_PAYLOAD)
    && (f.stage in Successors(fold.stage) || direct)
    && (f.stage in {RestoreBegin, Commit} ==> c.ledger == LedgerConsumed)
    && (f.stage == Abandon ==> LegalAbandon(fold.stage, c.ledger) || direct)
  }

  function Advance(fold: Fold, doc: Doc): Fold
    requires doc.FrameDoc?
  {
    Fold(fold.next + 1, doc.frame.hash, fold.bytes + FrameBytes(doc.frame),
         if doc.frame.stage == Commit then fold.next else fold.highest, doc.frame.stage)
  }

  function Replay(c: Context, docs: seq<Doc>): Option<Fold> {
    if docs == [] then Some(EMPTY_FOLD)
    else
      var last := |docs| - 1;
      match Replay(c, docs[..last])
      case None => None
      case Some(fold) => if FrameAccepted(c, fold, docs[last]) then Some(Advance(fold, docs[last])) else None
  }

  function SpoolStateOf(stage: Stage): SpoolState {
    match stage
    case Commit => SpoolCommitted
    case Abandon => SpoolAbandoned
    case _ => SpoolOpen
  }

  /** The spool metadata equals the summary the replay derives. */
  predicate SpoolMatches(s: Spool, fold: Fold, frames: nat) {
    && s.state == SpoolStateOf(fold.stage)
    && s.nextSequence == fold.next
    && s.lastHash == fold.hash
    && s.highestCommit == fold.highest
    && s.frameCount == frames
    && s.totalBytes == fold.bytes
    && s.lastStage == fold.stage
  }

  // ---- Frame files in name order ----

  function FrameNumbers(d: Disk): set<nat> {
    set f | f in d.Keys && f.FrameFile? :: f.number
  }

  function Largest(s: set<nat>): (m: nat)
    requires s != {}
    ensures m in s && forall n :: n in s ==> n <= m
  {
    LargestExists(s);
    var m :| m in s && forall n :: n in s ==> n <= m;
    m
  }

  lemma LargestExists(s: set<nat>)
    requires s != {}
    ensures exists m :: m in s && forall n :: n in s ==> n <= m
  {
    var x :| x in s;
    if s != {x} {
      LargestExists(s - {x});
      var m :| m in s - {x} && forall n :: n in s - {x} ==> n <= m;
      var top := if x < m then m else x;
      assert top in s;
      forall n | n in s
        ensures n <= top
      {
        assert n == x || n in s - {x};
      }
    }
  }

  /** The documents of the numbered frame files `numbers`, in increasing order of their names. */
  function DocsInOrder(d: Disk, numbers: set<nat>): (docs: seq<Doc>)
    requires forall n :: n in numbers ==> FrameFile(n) in d
    ensures |docs| == |numbers|
  {
    if numbers == {} then []
    else
      var m := Largest(numbers);
      DocsInOrder(d, numbers - {m}) + [d[FrameFile(m)]]
  }

  function FrameDocs(d: Disk): (docs: seq<Doc>)
    ensures |docs| == |FrameNumbers(d)|
  {
    DocsInOrder(d, FrameNumbers(d))
  }

  // ---- Cross-file checks ----

  predicate StateAgrees(state: EpochState, ledger: LedgerState, spool: SpoolState, stage: Stage) {
    && (match spool
        case SpoolCommitted => state == Consumed && ledger == LedgerConsumed
        case SpoolAbandoned => state == Abandoned
        case SpoolOpen =>
          && state != Abandoned && state != Consumed
          && (ledger == LedgerConsumed ==> state == Active))
    && (stage == EpochReady ==> state in {Ready, Active, Superseded})
    && (stage == RunnerStarted ==> state == Active)
    && (stage == RestoreBegin ==> state == Active && ledger == LedgerConsumed)
    && (stage == Commit ==> state == Consumed && ledger == LedgerConsumed)
    && (stage == Abandon ==> state == Abandoned)
  }

  predicate ArtifactAgreesV1(h: Header, p: Private)
    requires p.PrivateV1?
  {
    h.artifactCommitment ==
      match h.artifactState
      case Pending => None
      case RowBound => Some(Sealed(ArtifactRow, [p.rowId]))
      case Bound => Some(Sealed(ArtifactRow, [p.rowId, p.filename]))
  }

  predicate BindingAgreesV2(h: Header, b: Binding) {
    && b.epoch == h.epoch && b.authority == h.authority && b.privateDigest == h.privateDigest
    && h.bindingDigest == Some(BindingDigest(b))
    && h.artifactState == b.state && h.artifactCommitment == b.commitment
    && (b.state == Pending ==> h.state in {Initialised, Abandoned, Superseded})
  }

  predicate CrossValid(s: Snapshot) {
    var h := s.record.header;
    && s.manifest.header == h
    && s.private.epoch == h.epoch && s.ledger.epoch == h.epoch && s.spool.epoch == h.epoch
    && h.privateDigest == PrivateDigest(s.private)
    && h.container == Sealed(ContainerIdentity, [s.private.container])
    && h.volume == Sealed(VolumeIdentity, [s.private.volume])
    && h.runner == Sealed(RunnerIdentity, [s.private.runner])
    && h.spool == Text(SpoolDomain, [h.epoch, h.authority])
    && h.ledgerRef == LedgerRef(h.epoch)
    && s.record.manifestDigest == ManifestDigest(s.manifest)
    && h.ledgerState == s.ledger.state
    && h.spool == s.spool.commitment
    && StateAgrees(h.state, s.ledger.state, s.spool.state, s.spool.lastStage)
    && match s.record.version
       case V1 => s.private.PrivateV1? && s.binding.None? && ArtifactAgreesV1(h, s.private)
       case V2 => s.private.PrivateV2? && s.binding.Some? && BindingAgreesV2(h, s.binding.value)
  }

  predicate Shapes(s: Snapshot) {
    && HeaderShape(s.record.version, s.record.header)
    && HeaderShape(s.manifest.version, s.manifest.header)
    && PrivateOk(s.private)
    && (s.binding.Some? ==> BindingShape(s.binding.value))
    && LedgerShape(s.ledger)
    && SpoolShape(s.spool)
  }

  // ---- Layout and load ----

  function AuthorityFiles(v: Version): set<File> {
    match v
    case V1 => {RecordFile(V1), ManifestFile(V1), PrivateFile(V1)}
    case V2 => {RecordFile(V2), ManifestFile(V2), PrivateFile(V2), BindingFile}
  }

  function Layout(d: Disk): Option<Version> {
    var v1 := d.Keys * AuthorityFiles(V1);
    var v2 := d.Keys * AuthorityFiles(V2);
    if v1 != {} && v2 != {} then None
    else if v1 == AuthorityFiles(V1) then Some(V1)
    else if v2 == AuthorityFiles(V2) then Some(V2)
    else None
  }

  predicate Readable(d: Disk, v: Version) {
    && RecordFile(v) in d && d[RecordFile(v)].RecordDoc? && d[RecordFile(v)].record.version == v
    && ManifestFile(v) in d && d[ManifestFile(v)].ManifestDoc? && d[ManifestFile(v)].manifest.version == v
    && PrivateFile(v) in d && d[PrivateFile(v)].PrivateDoc?
    && (v == V2 ==> BindingFile in d && d[BindingFile].BindingDoc?)
    && LedgerFile in d && d[LedgerFile].LedgerDoc?
    && SpoolFile in d && d[SpoolFile].SpoolDoc?
  }

  function ReadAll(d: Disk, v: Version): Snapshot
    requires Readable(d, v)
  {
    Snapshot(d[RecordFile(v)].record, d[ManifestFile(v)].manifest, d[PrivateFile(v)].private,
             if v == V2 then Some(d[BindingFile].binding) else None,
             d[LedgerFile].ledger, d[SpoolFile].spool)
  }

  predicate ReplayAgrees(e: Ref, s: Snapshot, docs: seq<Doc>) {
    var replayed := Replay(ContextOf(e, s), docs);
    replayed.Some? && SpoolMatches(s.spool, replayed.value, |docs|)
  }

  /** Loads the epoch directory named `e`.  Frames must name `e` itself. */
  function Load(e: Ref, d: Disk): Option<Snapshot> {
    match Layout(d)
    case None => None
    case Some(v) =>
      if !Readable(d, v) then None
      else
        var s := ReadAll(d, v);
        if Shapes(s) && CrossValid(s) && ReplayAgrees(e, s, FrameDocs(d))
        then Some(s) else None
  }
}
