/**
 The public calls of the controller store as decisions: given what is on disk, a call is refused,
 answered without writing, or turned into a short list of whole-file writes followed by a reload.
 `Perform` runs a call whose adapter completes only `cut` more writes: a crash, or an I/O error,
 after any prefix of the list.
 */
module EpochCalls {
  import opened Wrappers
  import opened EpochDocuments
  import opened EpochLoad

  type Store = map<Ref, Disk>

  datatype Call =
    | Create(authority: Ref, identities: Private, supersedes: Option<Ref>)
    | BindRow(rowId: Identity)
    | BindArtifact(rowId: Identity, filename: Identity)
    | BindV2(rowId: Identity, filename: Identity)
    | MarkReady
    | Activate
    | AbandonEpoch
    | Supersede(successor: Ref)
    | ConsumeRestore(transitionId: string, expected: Commitment, data: string)
    | PrepareFrame(stage: Stage, payload: Payload)
    | IngestFrame(frame: Frame)
    | LoadEpoch

  datatype Reply =
    | Reloaded
    | BoundTo(commitment: Commitment)
    | Permit(transitionId: string, data: Commitment, idempotent: bool)
    | Prepared(frame: Frame)
    | Receipt(sequence: int, highestCommit: int, frameCount: int)

  datatype Write = Write(file: File, doc: Doc)

  /** `Stuck` is the path on which the call has changed the disk and a later validation then rejects. */
  datatype Decision =
    | Refuse
    | Answer(reply: Reply)
    | Persist(writes: seq<Write>, reply: Reply)
    | Stuck(writes: seq<Write>)

  datatype Result = Failed | Done(reply: Reply)

  function Apply(d: Disk, writes: seq<Write>): Disk {
    if writes == [] then d
    else
      var last := |writes| - 1;
      Apply(d, writes[..last])[writes[last].file := writes[last].doc]
  }

  // ---- State update: manifest first, then the record that commits to it ----

  function StateUpdate(s: Snapshot, h: Header): (writes: seq<Write>) {
    var manifest := s.manifest.(header := h);
    [Write(ManifestFile(s.record.version), ManifestDoc(manifest)),
     Write(RecordFile(s.record.version), RecordDoc(s.record.(header := h, manifestDigest := ManifestDigest(manifest))))]
  }

  // ---- Creation ----

  function Barrier(supersedes: Option<Ref>, e: Ref, authority: Ref): Commitment {
    var source := match supersedes case None => "NONE" case Some(predecessor) => predecessor;
    Text(SupersessionBarrier, [source, e, authority])
  }

  function VersionOf(p: Private): Version {
    if p.PrivateV1? then V1 else V2
  }

  function FreshBinding(e: Ref, authority: Ref, p: Private): Binding {
    Binding(e, authority, Pending, None, None, None, PrivateDigest(p))
  }

  function FreshHeader(e: Ref, authority: Ref, p: Private, supersedes: Option<Ref>): Header {
    Header(e, authority, Initialised, Barrier(supersedes, e, authority), Pending,
           if p.PrivateV1? then None else Some(BindingDigest(FreshBinding(e, authority, p))), None,
           Sealed(ContainerIdentity, [p.container]), Sealed(VolumeIdentity, [p.volume]), Sealed(RunnerIdentity, [p.runner]),
           Text(SpoolDomain, [e, authority]), PrivateDigest(p), LedgerRef(e), LedgerUnconsumed)
  }

  function CreateWrites(e: Ref, authority: Ref, identities: Private, supersedes: Option<Ref>): (writes: seq<Write>) {
    var p := identities.(epoch := e);
    var v := VersionOf(p);
    var h := FreshHeader(e, authority, p, supersedes);
    var manifest := Manifest(v, h);
    var record := Record(v, h, ManifestDigest(manifest));
    [Write(ManifestFile(v), ManifestDoc(manifest)),
     Write(PrivateFile(v), PrivateDoc(p)),
     Write(LedgerFile, LedgerDoc(Ledger(e, LedgerUnconsumed, None, None, None))),
     Write(SpoolFile, SpoolDoc(Spool(e, SpoolOpen, 1, ZeroHash, 0, 0, 0, NoStage, h.spool)))]
    + (if v == V1 then [] else [Write(BindingFile, BindingDoc(FreshBinding(e, authority, p)))])
    + [Write(RecordFile(v), RecordDoc(record))]
  }

  /** What creation checks before it touches the disk. */
  predicate Admitted(e: Ref, authority: Ref, supersedes: Option<Ref>) {
    RefOk(e) && RefOk(authority) && (supersedes.Some? ==> RefOk(supersedes.value))
  }

  /** What creation checks only after it has made the epoch's directories. */
  predicate Creatable(e: Ref, identities: Private) {
    PrivateOk(identities.(epoch := e)) && RefOk(LedgerRef(e))
  }

  // ---- Binding ----

  function DecideBindRow(s: Snapshot, rowId: Identity): Decision {
    var h := s.record.header;
    if s.record.version != V1 || Terminal(h.state) || h.artifactState != Pending then Refuse
    else if !s.private.PrivateV1? || rowId != s.private.rowId then Refuse
    else
      var commitment := Sealed(ArtifactRow, [rowId]);
      Persist(StateUpdate(s, h.(artifactState := RowBound, artifactCommitment := Some(commitment))),
                      BoundTo(commitment))
  }

  function DecideBindArtifact(s: Snapshot, rowId: Identity, filename: Identity): Decision {
    var h := s.record.header;
    if s.record.version != V1 || Terminal(h.state) || h.artifactState != RowBound then Refuse
    else if !s.private.PrivateV1? || rowId != s.private.rowId || filename != s.private.filename then Refuse
    else
      var commitment := Sealed(ArtifactRow, [rowId, filename]);
      Persist(StateUpdate(s, h.(artifactState := Bound, artifactCommitment := Some(commitment))),
                      BoundTo(commitment))
  }

  function DecideBindV2(e: Ref, s: Snapshot, rowId: Identity, filename: Identity): Decision {
    var h := s.record.header;
    var commitment := Sealed(ArtifactRow, [rowId, filename]);
    if !RowIdOk(rowId) || !FilenameOk(filename) then Refuse
    else if s.record.version != V2 || s.binding.None? || Terminal(h.state) then Refuse
    else
      var bound := s.binding.value;
      if bound.state == Bound then
        if bound.rowId == Some(rowId) && bound.filename == Some(filename) && bound.commitment == Some(commitment)
           && h.artifactCommitment == Some(commitment)
        then Answer(BoundTo(commitment)) else Refuse
      else if bound.state != Pending || h.artifactState != Pending then Refuse
      else
        var binding := Binding(e, h.authority, Bound, Some(rowId), Some(filename), Some(commitment), h.privateDigest);
        Persist(
          [Write(BindingFile, BindingDoc(binding))]
          + StateUpdate(s, h.(artifactState := Bound, artifactCommitment := Some(commitment),
                              bindingDigest := Some(BindingDigest(binding)))),
          BoundTo(commitment))
  }

  /** A version-2 epoch must be bound before it may become ready, run or restore. */
  predicate BoundIfV2(s: Snapshot) {
    s.record.version == V2 ==>
      && s.record.header.artifactState == Bound
      && s.binding.Some? && s.binding.value.state == Bound
      && s.record.header.artifactCommitment.Some?
  }

  // ---- Epoch state transitions ----

  function DecideTransition(s: Snapshot, from: EpochState, to: EpochState): Decision {
    if !BoundIfV2(s) || s.record.header.state != from then Refuse
    else Persist(StateUpdate(s, s.record.header.(state := to)), Reloaded)
  }

  function DecideSupersede(e: Ref, s: Snapshot, successor: Ref, t: Snapshot): Decision {
    if Terminal(s.record.header.state) then Refuse
    else if t.record.header.state !in {Initialised, Ready} then Refuse
    else if t.record.header.barrier != Text(SupersessionBarrier, [e, successor, s.record.header.authority]) then Refuse
    else Persist(StateUpdate(s, s.record.header.(state := Superseded)), Reloaded)
  }

  // ---- The one-way restore authority ----

  function DecideConsume(e: Ref, s: Snapshot, transitionId: string, expected: Commitment, data: string): Decision {
    var h := s.record.header;
    var commitment := DataCommitment(data);
    if !RefOk(transitionId) || !BoundIfV2(s) then Refuse
    else if s.ledger.state == LedgerConsumed then
      if h.state == Abandoned then Refuse
      else if s.ledger.transitionId != Some(transitionId) || s.ledger.target != Some("RESTORE_STARTED")
              || s.ledger.data != Some(commitment) then Refuse
      else if h.state != Active || s.spool.state != SpoolOpen || s.spool.lastStage != RunnerStarted then Refuse
      else Answer(Permit(transitionId, commitment, true))
    else if h.state != Active then Refuse
    else if s.spool.state != SpoolOpen || s.spool.lastStage != RunnerStarted then Refuse
    else if LedgerDigest(s.ledger) != expected then Refuse
    else
      var consumed := Ledger(e, LedgerConsumed, Some(transitionId), Some("RESTORE_STARTED"), Some(commitment));
      Persist([Write(LedgerFile, LedgerDoc(consumed))] + StateUpdate(s, h.(ledgerState := LedgerConsumed)),
                      Permit(transitionId, commitment, false))
  }

  // ---- Runner frames ----

  predicate DirectPendingAbandonAllowed(s: Snapshot) {
    && s.record.version == V2
    && s.record.header.state == Initialised && s.record.header.artifactState == Pending
    && s.binding.Some? && s.binding.value.state == Pending
    && s.ledger.state == LedgerUnconsumed
    && s.spool.state == SpoolOpen && s.spool.lastStage == NoStage
    && s.spool.nextSequence == 1 && s.spool.frameCount == 0 && s.spool.highestCommit == 0
    && s.spool.totalBytes == 0 && s.spool.lastHash == ZeroHash
  }

  predicate StageAllowed(s: Snapshot, stage: Stage) {
    && stage != NoStage
    && (stage != Abandon ==> BoundIfV2(s))
    && s.spool.state == SpoolOpen
    && if stage !in Successors(s.spool.lastStage) then stage == Abandon && DirectPendingAbandonAllowed(s)
       else match stage
         case EpochReady => s.record.header.state in {Ready, Active}
         case RunnerStarted => s.record.header.state == Active
         case RestoreBegin => s.record.header.state == Active && s.ledger.state == LedgerConsumed
         case Commit => s.record.header.state == Active && s.ledger.state == LedgerConsumed
         case Abandon => LegalAbandon(s.spool.lastStage, s.ledger.state)
         case NoStage => false
  }

  predicate PendingAbandonPayloadOk(s: Snapshot, stage: Stage, payload: Payload) {
    stage == Abandon && DirectPendingAbandonAllowed(s) ==> payload == ABANDON_PAYLOAD
  }

  function NextFrame(s: Snapshot, stage: Stage, payload: Payload): Frame {
    var e := s.record.header.epoch;
    var auth := FrameAuth(s.private, e, s.spool.nextSequence, stage, payload, s.spool.lastHash);
    Frame(e, s.spool.nextSequence, stage, payload, s.spool.lastHash, auth,
          HashOf(e, s.spool.nextSequence, stage, payload, s.spool.lastHash, auth))
  }

  function DecidePrepare(s: Snapshot, stage: Stage, payload: Payload): Decision {
    if !StageAllowed(s, stage) || !PendingAbandonPayloadOk(s, stage, payload)
       || !FrameShape(NextFrame(s, stage, payload)) then Refuse
    else Answer(Prepared(NextFrame(s, stage, payload)))
  }

  /** The spool metadata after one more frame, updated from the old metadata alone. */
  function NextSpool(s: Spool, f: Frame): Spool {
    s.(state := SpoolStateOf(f.stage),
       nextSequence := s.nextSequence + 1,
       lastHash := f.hash,
       highestCommit := if f.stage == Commit then f.sequence else s.highestCommit,
       frameCount := s.frameCount + 1,
       totalBytes := s.totalBytes + FrameBytes(f),
       lastStage := f.stage)
  }

  predicate FrameGenuine(s: Snapshot, f: Frame) {
    && FrameShape(f)
    && f.epoch == s.record.header.epoch
    && f.sequence == s.spool.nextSequence
    && f.previous == s.spool.lastHash
    && f.auth == FrameAuth(s.private, f.epoch, f.sequence, f.stage, f.payload, f.previous)
    && f.hash == HashOf(f.epoch, f.sequence, f.stage, f.payload, f.previous, f.auth)
  }

  function DecideIngest(s: Snapshot, d: Disk, f: Frame): Decision {
    if !FrameGenuine(s, f) || !PendingAbandonPayloadOk(s, f.stage, f.payload) || !StageAllowed(s, f.stage) then Refuse
    else if FrameBytes(f) > MAX_FRAME_BYTES || FrameFile(f.sequence) in d then Refuse
    else
      var frame := Write(FrameFile(f.sequence), FrameDoc(f));
      var spool := NextSpool(s.spool, f);
      var h := s.record.header;
      if !SpoolShape(spool) then Stuck([frame])
      else
        Persist(
          [frame, Write(SpoolFile, SpoolDoc(spool))]
          + (match f.stage
             case Commit => StateUpdate(s, h.(state := Consumed))
             case Abandon => StateUpdate(s, h.(state := Abandoned))
             case _ => []),
          Receipt(f.sequence, spool.highestCommit, spool.frameCount))
  }

  // ---- Every call ----

  function DecideLoaded(e: Ref, s: Snapshot, d: Disk, call: Call): Decision
    requires !call.Create? && !call.Supersede?
  {
    match call
    case BindRow(rowId) => DecideBindRow(s, rowId)
    case BindArtifact(rowId, filename) => DecideBindArtifact(s, rowId, filename)
    case BindV2(rowId, filename) => DecideBindV2(e, s, rowId, filename)
    case MarkReady => DecideTransition(s, Initialised, Ready)
    case Activate => DecideTransition(s, Ready, Active)
    case AbandonEpoch =>
      if Terminal(s.record.header.state) || DecidePrepare(s, Abandon, ABANDON_PAYLOAD).Refuse? then Refuse
      else DecideIngest(s, d, NextFrame(s, Abandon, ABANDON_PAYLOAD))
    case ConsumeRestore(transitionId, expected, data) => DecideConsume(e, s, transitionId, expected, data)
    case PrepareFrame(stage, payload) =>
      if Terminal(s.record.header.state) then Refuse else DecidePrepare(s, stage, payload)
    case IngestFrame(f) =>
      if Terminal(s.record.header.state) then Refuse else DecideIngest(s, d, f)
    case LoadEpoch => Answer(Reloaded)
  }

  function Decide(store: Store, e: Ref, call: Call): Decision {
    match call
    case Create(authority, identities, supersedes) =>
      if !Admitted(e, authority, supersedes) || e in store then Refuse
      else if !Creatable(e, identities) then Stuck([])
      else Persist(CreateWrites(e, authority, identities, supersedes), Reloaded)
    case Supersede(successor) =>
      if e == successor || e !in store || successor !in store then Refuse
      else
        var mine := Load(e, store[e]);
        var theirs := Load(successor, store[successor]);
        if mine.None? || theirs.None? then Refuse else DecideSupersede(e, mine.value, successor, theirs.value)
    case _ =>
      if e !in store || Load(e, store[e]).None? then Refuse
      else DecideLoaded(e, Load(e, store[e]).value, store[e], call)
  }

  function Min(a: nat, b: nat): nat {
    if a <= b then a else b
  }

  /** The disk a call starts writing to: creation makes an empty directory first. */
  function Base(store: Store, e: Ref): Disk {
    if e in store then store[e] else map[]
  }

  /** Carries out a decision whose adapter completes only `cut` more writes. */
  function Effect(store: Store, e: Ref, decision: Decision, cut: nat): (Store, Result) {
    match decision
    case Refuse => (store, Failed)
    case Answer(reply) => (store, Done(reply))
    case Stuck(writes) => (store[e := Apply(Base(store, e), writes[..Min(cut, |writes|)])], Failed)
    case Persist(writes, reply) =>
      var after := Apply(Base(store, e), writes[..Min(cut, |writes|)]);
      (store[e := after],
       if cut >= |writes| && Load(e, after).Some? then Done(reply) else Failed)
  }

  function Perform(store: Store, e: Ref, call: Call, cut: nat): (Store, Result) {
    Effect(store, e, Decide(store, e, call), cut)
  }
}
