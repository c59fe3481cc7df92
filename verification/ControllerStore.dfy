/**
 The controller store itself: a mutable store whose methods load, check, write one file at a time and
 reload.  Each method is proved to carry out exactly the call that module EpochCalls decides, so the
 theorems about whole runs are theorems about these methods.
 */
module ControllerStore {
  import opened Wrappers
  import opened EpochDocuments
  import opened EpochLoad
  import opened EpochHistory
  import opened EpochCalls
  import opened EpochCrash
  import opened EpochRuns

  // ---- Replay as the loop the store runs over its frame files ----

  /** Reads the frames in order, keeping sequence, hash, byte count and stage as it goes. */
  method ReadFrameFiles(c: Context, docs: seq<Doc>) returns (r: Option<Fold>)
    ensures r == Replay(c, docs)
  {
    hide FrameBytes, PayloadOk, FrameAuth, RefOk;
    var sequence: nat, hash, bytes: nat, highest: nat, stage := 1, ZeroHash, 0, 0, NoStage;
    var i := 0;
    while i < |docs|
      invariant 0 <= i <= |docs|
      invariant Replay(c, docs[..i]) == Some(Fold(sequence, hash, bytes, highest, stage))
    {
      assert docs[..i + 1][..i] == docs[..i];
      var doc := docs[i];
      if !FrameAccepted(c, Fold(sequence, hash, bytes, highest, stage), doc) {
        if Replay(c, docs).Some? {
          ReplayPrefix(c, docs, i + 1);
        }
        return None;
      }
      var f := doc.frame;
      if f.stage == Commit {
        highest := f.sequence;
      }
      sequence, hash, bytes, stage := sequence + 1, f.hash, bytes + FrameBytes(f), f.stage;
      i := i + 1;
    }
    assert docs[..i] == docs;
    r := Some(Fold(sequence, hash, bytes, highest, stage));
  }

  // ---- What one call does to the store, and how many of the granted writes it uses ----

  function Written(decision: Decision, cut: nat): nat {
    match decision
    case Persist(writes, _) => Min(cut, |writes|)
    case Stuck(writes) => Min(cut, |writes|)
    case _ => 0
  }

  /** `n` writes succeed: they are all granted, and the last granted one is not lost after it has landed. */
  predicate Completes(granted: nat, lost: bool, n: nat) {
    granted >= n && !(lost && granted == n > 0)
  }

  /**
   A method carries out a decision: it does to the store what `Effect` says, and it reports the same
   result, or failure if the last write it was granted landed and its read-back or durability check then raised.
   */
  predicate Carries(before: Store, granted: nat, lost: bool, e: Ref, decision: Decision, after: Store, left: nat, r: Result) {
    var (store, result) := Effect(before, e, decision, granted);
    && after == store && left == granted - Written(decision, granted)
    && r == if lost && 0 < granted == Written(decision, granted) then Failed else result
  }

  function Loaded(store: Store, e: Ref): Option<Snapshot> {
    if e in store then Load(e, store[e]) else None
  }

  /** Writing one file and then the rest of a list is writing the list. */
  lemma {:induction false} PrefixCons(d: Disk, w: Write, rest: seq<Write>, k: nat)
    ensures Prefix(d, [w] + rest, k) == if k == 0 then d else Prefix(d[w.file := w.doc], rest, k - 1)
    ensures k == 1 ==> Prefix(d, [w] + rest, k) == d[w.file := w.doc]
  {
    var writes := [w] + rest;
    PrefixStep(d, writes, 0);
    if k == 1 {
      PrefixStep(d[w.file := w.doc], rest, 0);
    } else if 1 < k <= |writes| {
      PrefixCons(d, w, rest, k - 1);
      PrefixStep(d, writes, k - 1);
      PrefixStep(d[w.file := w.doc], rest, k - 2);
    } else if k > |writes| {
      PrefixCons(d, w, rest, |writes|);
    }
  }

  /** Sequential writes followed by a reload carry out a persisting decision. */
  lemma Persisted(before: Store, granted: nat, lost: bool, e: Ref, decision: Decision, after: Store, left: nat, r: Result)
    requires decision.Persist?
    requires after == before[e := Prefix(Base(before, e), decision.writes, granted)]
    requires left == granted - Min(granted, |decision.writes|)
    requires r == if Completes(granted, lost, |decision.writes|) && Loaded(after, e).Some? then Done(decision.reply) else Failed
    ensures Carries(before, granted, lost, e, decision, after, left, r)
  {
    hide Load;
  }

  lemma PrefixPast(d: Disk, writes: seq<Write>, k: nat)
    ensures k >= |writes| ==> Prefix(d, writes, k) == Prefix(d, writes, |writes|)
  {
  }

  lemma GenuineNumbered(s: Snapshot, f: Frame)
    requires FrameGenuine(s, f)
    ensures f.sequence >= 1
  {
  }

  lemma StuckOrPersisted(before: Store, granted: nat, lost: bool, e: Ref, decision: Decision, after: Store, left: nat)
    requires decision.Persist? || decision.Stuck?
    requires e in before && |decision.writes| > 0 && !Completes(granted, lost, 1) && left == 0
    requires after == before[e := Prefix(before[e], decision.writes, granted)]
    ensures Carries(before, granted, lost, e, decision, after, left, Failed)
  {
    hide Load;
  }

  lemma FreshLedgerRef(e: Ref, authority: Ref, p: Private, supersedes: Option<Ref>)
    ensures FreshHeader(e, authority, p, supersedes).ledgerRef == LedgerRef(e)
  {
  }

  lemma CreatesV1(e: Ref, authority: Ref, identities: Private, supersedes: Option<Ref>)
    requires identities.PrivateV1?
    ensures var p := PrivateV1(e, identities.container, identities.volume, identities.runner, identities.rowId, identities.filename,
                           identities.salt, identities.hmacKey);
            var h := FreshHeader(e, authority, p, supersedes);
            var manifest := Manifest(V1, h);
            CreateWrites(e, authority, identities, supersedes) ==
            [Write(ManifestFile(V1), ManifestDoc(manifest)), Write(PrivateFile(V1), PrivateDoc(p)),
             Write(LedgerFile, LedgerDoc(Ledger(e, LedgerUnconsumed, None, None, None))),
             Write(SpoolFile, SpoolDoc(Spool(e, SpoolOpen, 1, ZeroHash, 0, 0, 0, NoStage, h.spool))),
             Write(RecordFile(V1), RecordDoc(Record(V1, h, ManifestDigest(manifest))))]
  {
    hide FreshHeader;
  }

  lemma CreatesV2(e: Ref, authority: Ref, identities: Private, supersedes: Option<Ref>)
    requires identities.PrivateV2?
    ensures var p := PrivateV2(e, identities.container, identities.volume, identities.runner, identities.salt, identities.hmacKey);
            var h := FreshHeader(e, authority, p, supersedes);
            var manifest := Manifest(V2, h);
            CreateWrites(e, authority, identities, supersedes) ==
            [Write(ManifestFile(V2), ManifestDoc(manifest)), Write(PrivateFile(V2), PrivateDoc(p)),
             Write(LedgerFile, LedgerDoc(Ledger(e, LedgerUnconsumed, None, None, None))),
             Write(SpoolFile, SpoolDoc(Spool(e, SpoolOpen, 1, ZeroHash, 0, 0, 0, NoStage, h.spool))),
             Write(BindingFile, BindingDoc(FreshBinding(e, authority, p))),
             Write(RecordFile(V2), RecordDoc(Record(V2, h, ManifestDigest(manifest))))]
  {
    hide FreshHeader, FreshBinding;
  }

  lemma CreateDecision(before: Store, e: Ref, authority: Ref, identities: Private, supersedes: Option<Ref>)
    ensures Decide(before, e, Create(authority, identities, supersedes)) ==
            if !Admitted(e, authority, supersedes) || e in before then Refuse
            else if !PrivateOk(identities.(epoch := e)) || !RefOk(LedgerRef(e)) then Stuck([])
            else Persist(CreateWrites(e, authority, identities, supersedes), Reloaded)
  {
    hide RefOk, PrivateOk, CreateWrites;
  }

  lemma RefusedCarries(before: Store, granted: nat, lost: bool, e: Ref)
    ensures Carries(before, granted, lost, e, Refuse, before, granted, Failed)
  {
  }

  lemma StuckCarries(before: Store, granted: nat, lost: bool, e: Ref, writes: seq<Write>, after: Store, left: nat)
    requires after == before[e := Prefix(Base(before, e), writes, granted)] && left == granted - Min(granted, |writes|)
    ensures Carries(before, granted, lost, e, Stuck(writes), after, left, Failed)
  {
  }

  /** The files that follow the frame and its metadata. */
  function StateWrites(s: Snapshot, stage: Stage): seq<Write> {
    if stage == Commit then StateUpdate(s, s.record.header.(state := Consumed))
    else if stage == Abandon then StateUpdate(s, s.record.header.(state := Abandoned)) else []
  }

  lemma IngestDecision(s: Snapshot, d: Disk, f: Frame)
    requires FrameGenuine(s, f) && PendingAbandonPayloadOk(s, f.stage, f.payload) && StageAllowed(s, f.stage)
    requires f.sequence >= 1 && FrameBytes(f) <= MAX_FRAME_BYTES && FrameFile(f.sequence) !in d
    ensures var frame, spool := Write(FrameFile(f.sequence), FrameDoc(f)), NextSpool(s.spool, f);
            DecideIngest(s, d, f) ==
            if !SpoolShape(spool) then Stuck([frame])
            else Persist([frame] + ([Write(SpoolFile, SpoolDoc(spool))] + StateWrites(s, f.stage)),
                         Receipt(f.sequence, spool.highestCommit, spool.frameCount))
  {
    hide FrameGenuine, PendingAbandonPayloadOk, StageAllowed, SpoolShape, StateUpdate;
    var frame, meta := Write(FrameFile(f.sequence), FrameDoc(f)), Write(SpoolFile, SpoolDoc(NextSpool(s.spool, f)));
    assert [frame, meta] + StateWrites(s, f.stage) == [frame] + ([meta] + StateWrites(s, f.stage));
  }

  class Controller {
    /** Every epoch directory. */
    var epochs: Store
    /** How many more single-file writes the adapter completes before it fails. */
    var budget: nat
    /** Whether the last of them lands and then fails its read-back or durability check. */
    const lost: bool

    constructor (granted: nat, lost: bool)
      ensures epochs == map[] && budget == granted && this.lost == lost
    {
      epochs, budget := map[], granted;
      this.lost := lost;
    }

    /** One atomic authority write, which may also land and be reported as failed. */
    method WriteDocument(e: Ref, file: File, doc: Doc) returns (ok: bool)
      requires e in epochs
      modifies this
      ensures ok == Completes(old(budget), lost, 1)
      ensures old(budget) > 0 ==> epochs == old(epochs)[e := old(epochs)[e][file := doc]] && budget == old(budget) - 1
      ensures old(budget) == 0 ==> epochs == old(epochs) && budget == old(budget)
    {
      ok := false;
      if budget > 0 {
        epochs := epochs[e := epochs[e][file := doc]];
        budget := budget - 1;
        ok := !(lost && budget == 0);
      }
    }

    method LoadUnlocked(e: Ref) returns (s: Option<Snapshot>)
      ensures s == Loaded(epochs, e)
    {
      if e !in epochs {
        return None;
      }
      var d := epochs[e];
      var layout := Layout(d);
      if layout.None? || !Readable(d, layout.value) {
        return None;
      }
      var snapshot := ReadAll(d, layout.value);
      if !Shapes(snapshot) || !CrossValid(snapshot) {
        return None;
      }
      var frames := FrameDocs(d);
      var fold := ReadFrameFiles(ContextOf(e, snapshot), frames);
      if fold.None? || !SpoolMatches(snapshot.spool, fold.value, |frames|) {
        return None;
      }
      s := Some(snapshot);
    }

    /** Manifest, then record, then reload. */
    method StateUpdateUnlocked(e: Ref, s: Snapshot, h: Header) returns (ok: bool)
      requires e in epochs
      modifies this
      ensures epochs == old(epochs)[e := Prefix(old(epochs)[e], StateUpdate(s, h), old(budget))]
      ensures budget == old(budget) - Min(old(budget), 2)
      ensures ok == (Completes(old(budget), lost, 2) && Loaded(epochs, e).Some?)
    {
      hide Load, Prefix, Layout;
      ghost var d, k, writes := epochs[e], budget, StateUpdate(s, h);
      Prefix2(d, writes[0], writes[1], k);
      var manifest := s.manifest.(header := h);
      ok := WriteDocument(e, ManifestFile(s.record.version), ManifestDoc(manifest));
      if ok {
        ok := WriteDocument(e, RecordFile(s.record.version),
                            RecordDoc(s.record.(header := h, manifestDigest := ManifestDigest(manifest))));
      }
      if ok {
        var t := LoadUnlocked(e);
        ok := t.Some?;
      }
    }

    /** Creation of `e` has tried the first `tried` writes of the list in its new directory. */
    ghost predicate Underway(before: Store, granted: nat, e: Ref, writes: seq<Write>, tried: nat)
      reads this
    {
      && epochs == before[e := Prefix(map[], writes, Min(granted, tried))]
      && budget == granted - Min(granted, tried)
    }

    method WriteNext(e: Ref, file: File, doc: Doc, ghost before: Store, ghost granted: nat, ghost writes: seq<Write>,
                     ghost tried: nat)
      returns (ok: bool)
      requires tried < |writes| && writes[tried] == Write(file, doc)
      requires Underway(before, granted, e, writes, tried) && Completes(granted, lost, tried)
      modifies this
      ensures ok == Completes(granted, lost, tried + 1)
      ensures Underway(before, granted, e, writes, tried + 1)
    {
      hide Prefix;
      PrefixStep(map[], writes, tried);
      ok := WriteDocument(e, file, doc);
    }

    /** Makes the directories of a new epoch. */
    method StartCreation(e: Ref, ghost writes: seq<Write>)
      modifies this
      ensures Underway(old(epochs), old(budget), e, writes, 0)
      ensures epochs == old(epochs)[e := map[]] && budget == old(budget)
    {
      PrefixStep(map[], writes, 0);
      epochs := epochs[e := map[]];
    }

    /** Reloads a created epoch if all its files were written. */
    method FinishCreation(e: Ref, written: bool, ghost before: Store, ghost granted: nat, ghost writes: seq<Write>, ghost tried: nat)
      returns (r: Result)
      requires e !in before && tried <= |writes| && Underway(before, granted, e, writes, tried)
      requires written == Completes(granted, lost, |writes|)
      requires written ==> tried == |writes|
      requires !written ==> granted <= tried
      ensures Carries(before, granted, lost, e, Persist(writes, Reloaded), epochs, budget, r)
    {
      hide Load, Layout, Prefix, Carries;
      r := Failed;
      if written {
        var s := LoadUnlocked(e);
        r := if s.Some? then Done(Reloaded) else Failed;
      }
      PrefixPast(map[], writes, granted);
      Persisted(before, granted, lost, e, Persist(writes, Reloaded), epochs, budget, r);
    }

    /** The directories are made, and a validator then rejects: nothing else is written. */
    lemma RejectedCreation(before: Store, granted: nat, e: Ref)
      requires e !in before
      ensures Carries(before, granted, lost, e, Stuck([]), before[e := map[]], granted, Failed)
    {
      PrefixStep(map[], [], 0);
    }

    method CreateEpoch(e: Ref, authority: Ref, identities: Private, supersedes: Option<Ref>) returns (r: Result)
      requires identities.PrivateV1?
      modifies this
      ensures Carries(old(epochs), old(budget), lost, e,
                      Decide(old(epochs), e, Create(authority, identities, supersedes)), epochs, budget, r)
    {
      hide Load, Layout, Prefix, Underway, CreateWrites, FreshHeader, FreshBinding, Decide, Carries, PrivateOk, RefOk, Admitted;
      CreateDecision(epochs, e, authority, identities, supersedes);
      CreatesV1(e, authority, identities, supersedes);
      RefusedCarries(epochs, budget, lost, e);
      if !Admitted(e, authority, supersedes) || e in epochs {
        return Failed;
      }
      ghost var before, granted, writes := epochs, budget, CreateWrites(e, authority, identities, supersedes);
      RejectedCreation(before, granted, e);
      StartCreation(e, writes);
      var p := PrivateV1(e, identities.container, identities.volume, identities.runner, identities.rowId, identities.filename,
                         identities.salt, identities.hmacKey);
      if !PrivateOk(p) {
        return Failed;
      }
      var h := FreshHeader(e, authority, p, supersedes);
      FreshLedgerRef(e, authority, p, supersedes);
      var manifest := Manifest(V1, h);
      if !RefOk(h.ledgerRef) {
        return Failed;
      }
      ghost var tried := 1;
      var ok := WriteNext(e, ManifestFile(V1), ManifestDoc(manifest), before, granted, writes, 0);
      if ok {
        ok := WriteNext(e, PrivateFile(V1), PrivateDoc(p), before, granted, writes, 1);
        tried := 2;
      }
      if ok {
        ok := WriteNext(e, LedgerFile, LedgerDoc(Ledger(e, LedgerUnconsumed, None, None, None)), before, granted, writes, 2);
        tried := 3;
      }
      if ok {
        ok := WriteNext(e, SpoolFile, SpoolDoc(Spool(e, SpoolOpen, 1, ZeroHash, 0, 0, 0, NoStage, h.spool)),
                        before, granted, writes, 3);
        tried := 4;
      }
      if ok {
        ok := WriteNext(e, RecordFile(V1), RecordDoc(Record(V1, h, ManifestDigest(manifest))), before, granted, writes, 4);
        tried := 5;
      }
      r := FinishCreation(e, ok, before, granted, writes, tried);
    }

    method CreateEpochV2(e: Ref, authority: Ref, identities: Private, supersedes: Option<Ref>) returns (r: Result)
      requires identities.PrivateV2?
      modifies this
      ensures Carries(old(epochs), old(budget), lost, e,
                      Decide(old(epochs), e, Create(authority, identities, supersedes)), epochs, budget, r)
    {
      hide Load, Layout, Prefix, Underway, CreateWrites, FreshHeader, FreshBinding, Decide, Carries, PrivateOk, RefOk, Admitted;
      CreateDecision(epochs, e, authority, identities, supersedes);
      CreatesV2(e, authority, identities, supersedes);
      RefusedCarries(epochs, budget, lost, e);
      if !Admitted(e, authority, supersedes) || e in epochs {
        return Failed;
      }
      ghost var before, granted, writes := epochs, budget, CreateWrites(e, authority, identities, supersedes);
      RejectedCreation(before, granted, e);
      StartCreation(e, writes);
      var p := PrivateV2(e, identities.container, identities.volume, identities.runner, identities.salt, identities.hmacKey);
      if !PrivateOk(p) {
        return Failed;
      }
      var binding := FreshBinding(e, authority, p);
      var h := FreshHeader(e, authority, p, supersedes);
      FreshLedgerRef(e, authority, p, supersedes);
      var manifest := Manifest(V2, h);
      if !RefOk(h.ledgerRef) {
        return Failed;
      }
      ghost var tried := 1;
      var ok := WriteNext(e, ManifestFile(V2), ManifestDoc(manifest), before, granted, writes, 0);
      if ok {
        ok := WriteNext(e, PrivateFile(V2), PrivateDoc(p), before, granted, writes, 1);
        tried := 2;
      }
      if ok {
        ok := WriteNext(e, LedgerFile, LedgerDoc(Ledger(e, LedgerUnconsumed, None, None, None)), before, granted, writes, 2);
        tried := 3;
      }
      if ok {
        ok := WriteNext(e, SpoolFile, SpoolDoc(Spool(e, SpoolOpen, 1, ZeroHash, 0, 0, 0, NoStage, h.spool)),
                        before, granted, writes, 3);
        tried := 4;
      }
      if ok {
        ok := WriteNext(e, BindingFile, BindingDoc(binding), before, granted, writes, 4);
        tried := 5;
      }
      if ok {
        ok := WriteNext(e, RecordFile(V2), RecordDoc(Record(V2, h, ManifestDigest(manifest))), before, granted, writes, 5);
        tried := 6;
      }
      r := FinishCreation(e, ok, before, granted, writes, tried);
    }

    method BindArtifactRow(e: Ref, rowId: Identity) returns (r: Result)
      modifies this
      ensures Carries(old(epochs), old(budget), lost, e, Decide(old(epochs), e, BindRow(rowId)), epochs, budget, r)
    {
      hide Load, Layout;
      var loaded := LoadUnlocked(e);
      if loaded.None? {
        return Failed;
      }
      var s := loaded.value;
      var h := s.record.header;
      if s.record.version != V1 || Terminal(h.state) || h.artifactState != Pending {
        return Failed;
      }
      if !s.private.PrivateV1? || rowId != s.private.rowId {
        return Failed;
      }
      var commitment := Sealed(ArtifactRow, [rowId]);
      var ok := StateUpdateUnlocked(e, s, h.(artifactState := RowBound, artifactCommitment := Some(commitment)));
      r := if ok then Done(BoundTo(commitment)) else Failed;
    }

    method BindArtifact(e: Ref, rowId: Identity, filename: Identity) returns (r: Result)
      modifies this
      ensures Carries(old(epochs), old(budget), lost, e,
                      Decide(old(epochs), e, EpochCalls.BindArtifact(rowId, filename)), epochs, budget, r)
    {
      hide Load, Layout;
      var loaded := LoadUnlocked(e);
      if loaded.None? {
        return Failed;
      }
      var s := loaded.value;
      var h := s.record.header;
      if s.record.version != V1 || Terminal(h.state) || h.artifactState != RowBound {
        return Failed;
      }
      if !s.private.PrivateV1? || rowId != s.private.rowId || filename != s.private.filename {
        return Failed;
      }
      var commitment := Sealed(ArtifactRow, [rowId, filename]);
      var ok := StateUpdateUnlocked(e, s, h.(artifactState := Bound, artifactCommitment := Some(commitment)));
      r := if ok then Done(BoundTo(commitment)) else Failed;
    }

    method BindArtifactV2(e: Ref, rowId: Identity, filename: Identity) returns (r: Result)
      modifies this
      ensures Carries(old(epochs), old(budget), lost, e, Decide(old(epochs), e, BindV2(rowId, filename)), epochs, budget, r)
    {
      hide Load, Layout, Prefix, RowIdOk, FilenameOk;
      if !RowIdOk(rowId) || !FilenameOk(filename) {
        return Failed;
      }
      var commitment := Sealed(ArtifactRow, [rowId, filename]);
      var loaded := LoadUnlocked(e);
      if loaded.None? {
        return Failed;
      }
      var s := loaded.value;
      var h := s.record.header;
      if s.record.version != V2 || s.binding.None? || Terminal(h.state) {
        return Failed;
      }
      var bound := s.binding.value;
      if bound.state == Bound {
        if bound.rowId == Some(rowId) && bound.filename == Some(filename) && bound.commitment == Some(commitment)
           && h.artifactCommitment == Some(commitment) {
          return Done(BoundTo(commitment));
        }
        return Failed;
      }
      if bound.state != Pending || h.artifactState != Pending {
        return Failed;
      }
      var candidate := Binding(e, h.authority, Bound, Some(rowId), Some(filename), Some(commitment), h.privateDigest);
      var bindingHeader := h.(artifactState := Bound, artifactCommitment := Some(commitment),
                              bindingDigest := Some(BindingDigest(candidate)));
      PrefixCons(epochs[e], Write(BindingFile, BindingDoc(candidate)), StateUpdate(s, bindingHeader), budget);
      var ok := WriteDocument(e, BindingFile, BindingDoc(candidate));
      if ok {
        ok := StateUpdateUnlocked(e, s, bindingHeader);
      }
      r := if ok then Done(BoundTo(commitment)) else Failed;
      Persisted(old(epochs), old(budget), lost, e, Decide(old(epochs), e, BindV2(rowId, filename)), epochs, budget, r);
    }

    method TransitionEpoch(e: Ref, from: EpochState, to: EpochState) returns (r: Result)
      modifies this
      ensures Carries(old(epochs), old(budget), lost, e,
                      if Loaded(old(epochs), e).None? then Refuse else DecideTransition(Loaded(old(epochs), e).value, from, to),
                      epochs, budget, r)
    {
      hide Load, Layout;
      var loaded := LoadUnlocked(e);
      if loaded.None? {
        return Failed;
      }
      var s := loaded.value;
      if !BoundIfV2(s) {
        return Failed;
      }
      if s.record.header.state != from {
        return Failed;
      }
      var ok := StateUpdateUnlocked(e, s, s.record.header.(state := to));
      r := if ok then Done(Reloaded) else Failed;
    }

    method MarkReady(e: Ref) returns (r: Result)
      modifies this
      ensures Carries(old(epochs), old(budget), lost, e, Decide(old(epochs), e, EpochCalls.MarkReady), epochs, budget, r)
    {
      hide Load, DecideTransition, Carries;
      r := TransitionEpoch(e, Initialised, Ready);
    }

    method Activate(e: Ref) returns (r: Result)
      modifies this
      ensures Carries(old(epochs), old(budget), lost, e, Decide(old(epochs), e, EpochCalls.Activate), epochs, budget, r)
    {
      hide Load, DecideTransition, Carries;
      r := TransitionEpoch(e, Ready, Active);
    }

    method SupersedeEpoch(e: Ref, successor: Ref) returns (r: Result)
      modifies this
      ensures Carries(old(epochs), old(budget), lost, e, Decide(old(epochs), e, Supersede(successor)), epochs, budget, r)
    {
      hide Load, Layout;
      if e == successor {
        return Failed;
      }
      var mine := LoadUnlocked(e);
      if mine.None? {
        return Failed;
      }
      var theirs := LoadUnlocked(successor);
      if theirs.None? {
        return Failed;
      }
      var s, t := mine.value, theirs.value;
      if Terminal(s.record.header.state) {
        return Failed;
      }
      if t.record.header.state != Initialised && t.record.header.state != Ready {
        return Failed;
      }
      if t.record.header.barrier != Text(SupersessionBarrier, [e, successor, s.record.header.authority]) {
        return Failed;
      }
      var ok := StateUpdateUnlocked(e, s, s.record.header.(state := Superseded));
      r := if ok then Done(Reloaded) else Failed;
    }

    method Consume(e: Ref, transitionId: string, expected: Commitment, data: string) returns (r: Result)
      modifies this
      ensures Carries(old(epochs), old(budget), lost, e,
                      Decide(old(epochs), e, ConsumeRestore(transitionId, expected, data)), epochs, budget, r)
    {
      hide Load, Layout, Prefix, BoundIfV2, RefOk;
      if !RefOk(transitionId) {
        return Failed;
      }
      var commitment := DataCommitment(data);
      var loaded := LoadUnlocked(e);
      if loaded.None? {
        return Failed;
      }
      var s := loaded.value;
      var h := s.record.header;
      if !BoundIfV2(s) {
        return Failed;
      }
      if s.ledger.state == LedgerConsumed {
        if h.state == Abandoned {
          return Failed;
        }
        if s.ledger.transitionId != Some(transitionId) || s.ledger.target != Some("RESTORE_STARTED")
           || s.ledger.data != Some(commitment) {
          return Failed;
        }
        if h.state != Active || s.spool.state != SpoolOpen || s.spool.lastStage != RunnerStarted {
          return Failed;
        }
        return Done(Permit(transitionId, commitment, true));
      }
      if h.state != Active {
        return Failed;
      }
      if s.spool.state != SpoolOpen || s.spool.lastStage != RunnerStarted {
        return Failed;
      }
      if LedgerDigest(s.ledger) != expected {
        return Failed;
      }
      var consumed := Ledger(e, LedgerConsumed, Some(transitionId), Some("RESTORE_STARTED"), Some(commitment));
      var consumedHeader := h.(ledgerState := LedgerConsumed);
      PrefixCons(epochs[e], Write(LedgerFile, LedgerDoc(consumed)), StateUpdate(s, consumedHeader), budget);
      var ok := WriteDocument(e, LedgerFile, LedgerDoc(consumed));
      if ok {
        ok := StateUpdateUnlocked(e, s, consumedHeader);
      }
      r := if ok then Done(Permit(transitionId, commitment, false)) else Failed;
      Persisted(old(epochs), old(budget), lost, e, Decide(old(epochs), e, ConsumeRestore(transitionId, expected, data)),
                epochs, budget, r);
    }

    method PrepareRunnerFrame(e: Ref, stage: Stage, payload: Payload) returns (r: Result)
      ensures Carries(epochs, budget, lost, e, Decide(epochs, e, PrepareFrame(stage, payload)), epochs, budget, r)
    {
      hide Load, Layout, StageAllowed, PendingAbandonPayloadOk;
      var loaded := LoadUnlocked(e);
      if loaded.None? || Terminal(loaded.value.record.header.state) {
        return Failed;
      }
      var s := loaded.value;
      if !StageAllowed(s, stage) || !PendingAbandonPayloadOk(s, stage, payload) {
        return Failed;
      }
      var frame := NextFrame(s, stage, payload);
      if !FrameShape(frame) {
        return Failed;
      }
      r := Done(Prepared(frame));
    }

    /** Spool metadata, then for a closing frame manifest and record; then reload. */
    method AfterFrameFile(e: Ref, s: Snapshot, stage: Stage, spool: Spool) returns (ok: bool)
      requires e in epochs
      modifies this
      ensures var writes := [Write(SpoolFile, SpoolDoc(spool))] + StateWrites(s, stage);
              && epochs == old(epochs)[e := Prefix(old(epochs)[e], writes, old(budget))]
              && budget == old(budget) - Min(old(budget), |writes|)
              && ok == (Completes(old(budget), lost, |writes|) && Loaded(epochs, e).Some?)
    {
      hide Load, Layout, Prefix;
      ghost var d, k, meta, rest := epochs[e], budget, Write(SpoolFile, SpoolDoc(spool)), StateWrites(s, stage);
      PrefixCons(d, meta, rest, k);
      ok := WriteDocument(e, SpoolFile, SpoolDoc(spool));
      if ok {
        if stage == Commit {
          ok := StateUpdateUnlocked(e, s, s.record.header.(state := Consumed));
        } else if stage == Abandon {
          ok := StateUpdateUnlocked(e, s, s.record.header.(state := Abandoned));
        } else {
          PrefixPast(d[meta.file := meta.doc], rest, k - 1);
          PrefixStep(d[meta.file := meta.doc], rest, 0);
          var t := LoadUnlocked(e);
          ok := t.Some?;
        }
      }
    }

    /** Frame file, then the metadata that counts it, then for a closing frame manifest and record. */
    method IngestUnlocked(e: Ref, s: Snapshot, f: Frame) returns (r: Result)
      requires Loaded(epochs, e) == Some(s)
      modifies this
      ensures Carries(old(epochs), old(budget), lost, e, DecideIngest(s, old(epochs)[e], f), epochs, budget, r)
    {
      hide Load, Layout, Prefix, FrameGenuine, StageAllowed, PendingAbandonPayloadOk, SpoolShape, NextSpool, Carries, StateWrites;
      ghost var before, d, k := epochs, epochs[e], budget;
      if !FrameGenuine(s, f) || !PendingAbandonPayloadOk(s, f.stage, f.payload) || !StageAllowed(s, f.stage) {
        RefusedCarries(before, k, lost, e);
        return Failed;
      }
      assert f.sequence >= 1 by { GenuineNumbered(s, f); }
      if FrameBytes(f) > MAX_FRAME_BYTES || FrameFile(f.sequence) in epochs[e] {
        RefusedCarries(before, k, lost, e);
        return Failed;
      }
      hide DecideIngest;
      IngestDecision(s, d, f);
      ghost var frame := Write(FrameFile(f.sequence), FrameDoc(f));
      var spool := NextSpool(s.spool, f);
      var ok := WriteDocument(e, FrameFile(f.sequence), FrameDoc(f));
      if !ok {
        PrefixCons(d, frame, [], k);
        PrefixCons(d, frame, [Write(SpoolFile, SpoolDoc(spool))] + StateWrites(s, f.stage), k);
        assert [frame] + [] == [frame] && before[e := d] == before;
        StuckOrPersisted(before, k, lost, e, DecideIngest(s, d, f), epochs, budget);
        return Failed;
      }
      if !SpoolShape(spool) {
        PrefixCons(d, frame, [], k);
        PrefixStep(d[frame.file := frame.doc], [], 0);
        PrefixPast(d[frame.file := frame.doc], [], k - 1);
        assert [frame] + [] == [frame];
        StuckCarries(before, k, lost, e, [frame], epochs, budget);
        return Failed;
      }
      PrefixCons(d, frame, [Write(SpoolFile, SpoolDoc(spool))] + StateWrites(s, f.stage), k);
      ok := AfterFrameFile(e, s, f.stage, spool);
      r := if ok then Done(Receipt(f.sequence, spool.highestCommit, spool.frameCount)) else Failed;
      Persisted(before, k, lost, e, DecideIngest(s, d, f), epochs, budget, r);
    }

    method Ingest(e: Ref, f: Frame) returns (r: Result)
      modifies this
      ensures Carries(old(epochs), old(budget), lost, e, Decide(old(epochs), e, IngestFrame(f)), epochs, budget, r)
    {
      hide Load, Layout, DecideIngest;
      var loaded := LoadUnlocked(e);
      if loaded.None? || Terminal(loaded.value.record.header.state) {
        return Failed;
      }
      r := IngestUnlocked(e, loaded.value, f);
    }

    method AbandonEpochNow(e: Ref) returns (r: Result)
      modifies this
      ensures Carries(old(epochs), old(budget), lost, e, Decide(old(epochs), e, AbandonEpoch), epochs, budget, r)
    {
      hide Load, Layout, DecideIngest, StageAllowed, PendingAbandonPayloadOk;
      var loaded := LoadUnlocked(e);
      if loaded.None? || Terminal(loaded.value.record.header.state) {
        return Failed;
      }
      var s := loaded.value;
      if !StageAllowed(s, Abandon) || !PendingAbandonPayloadOk(s, Abandon, ABANDON_PAYLOAD) {
        return Failed;
      }
      var frame := NextFrame(s, Abandon, ABANDON_PAYLOAD);
      if !FrameShape(frame) {
        return Failed;
      }
      r := IngestUnlocked(e, s, frame);
    }

    method LoadEpochNow(e: Ref) returns (r: Result)
      ensures Carries(epochs, budget, lost, e, Decide(epochs, e, LoadEpoch), epochs, budget, r)
    {
      hide Load, Layout;
      var loaded := LoadUnlocked(e);
      r := if loaded.None? then Failed else Done(Reloaded);
    }

    /** An epoch that cannot be read is classified as spent. */
    method LedgerSafetyClassification(e: Ref) returns (state: LedgerState)
      ensures state == Classification(epochs, e)
    {
      hide Load;
      var loaded := LoadUnlocked(e);
      state := if loaded.Some? && loaded.value.ledger.state == LedgerUnconsumed then LedgerUnconsumed else LedgerConsumed;
    }
  }
}
