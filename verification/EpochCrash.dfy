/**
 Crash atomicity.  A call that is cut short after some but not all of its writes leaves an epoch
 that no longer loads; a call whose writes all land leaves exactly the intended snapshot.
 */
module EpochCrash {
  import opened Wrappers
  import opened EpochDocuments
  import opened EpochLoad
  import opened EpochHistory
  import opened EpochCalls

  // ---- What a completed call means, said without its writes ----

  function WithHeader(s: Snapshot, h: Header): Snapshot {
    var manifest := s.manifest.(header := h);
    s.(manifest := manifest, record := s.record.(header := h, manifestDigest := ManifestDigest(manifest)))
  }

  function WithState(s: Snapshot, state: EpochState): Snapshot {
    WithHeader(s, s.record.header.(state := state))
  }

  function AfterFrame(s: Snapshot, f: Frame): Snapshot {
    var t := s.(spool := NextSpool(s.spool, f));
    match f.stage
    case Commit => WithState(t, Consumed)
    case Abandon => WithState(t, Abandoned)
    case _ => t
  }

  /** The snapshot a writing call on a loaded epoch is meant to leave. */
  function Intended(e: Ref, s: Snapshot, call: Call): Snapshot
    requires !call.Create?
  {
    var h := s.record.header;
    match call
    case BindRow(rowId) =>
      WithHeader(s, h.(artifactState := RowBound, artifactCommitment := Some(Sealed(ArtifactRow, [rowId]))))
    case BindArtifact(rowId, filename) =>
      WithHeader(s, h.(artifactState := Bound, artifactCommitment := Some(Sealed(ArtifactRow, [rowId, filename]))))
    case BindV2(rowId, filename) =>
      var commitment := Sealed(ArtifactRow, [rowId, filename]);
      var binding := Binding(e, h.authority, Bound, Some(rowId), Some(filename), Some(commitment), h.privateDigest);
      WithHeader(s.(binding := Some(binding)),
                 h.(artifactState := Bound, artifactCommitment := Some(commitment),
                    bindingDigest := Some(BindingDigest(binding))))
    case MarkReady => WithState(s, Ready)
    case Activate => WithState(s, Active)
    case Supersede(_) => WithState(s, Superseded)
    case ConsumeRestore(transitionId, _, data) =>
      WithHeader(s.(ledger := Ledger(e, LedgerConsumed, Some(transitionId), Some("RESTORE_STARTED"),
                                     Some(DataCommitment(data)))),
                 h.(ledgerState := LedgerConsumed))
    case AbandonEpoch => AfterFrame(s, NextFrame(s, Abandon, ABANDON_PAYLOAD))
    case IngestFrame(f) => AfterFrame(s, f)
    case PrepareFrame(_, _) => s
    case LoadEpoch => s
  }

  /** The snapshot of an epoch that has just been created. */
  function Created(e: Ref, authority: Ref, identities: Private, supersedes: Option<Ref>): Snapshot {
    var p := identities.(epoch := e);
    var h := FreshHeader(e, authority, p, supersedes);
    var manifest := Manifest(VersionOf(p), h);
    Snapshot(Record(VersionOf(p), h, ManifestDigest(manifest)), manifest, p,
             if p.PrivateV1? then None else Some(FreshBinding(e, authority, p)),
             Ledger(e, LedgerUnconsumed, None, None, None),
             Spool(e, SpoolOpen, 1, ZeroHash, 0, 0, 0, NoStage, h.spool))
  }

  // ---- Invariants of every disk the store builds ----

  /** Every record, readable or not, names its own directory. */
  predicate Owned(e: Ref, d: Disk) {
    && (RecordFile(V1) in d && d[RecordFile(V1)].RecordDoc? ==> d[RecordFile(V1)].record.header.epoch == e)
    && (RecordFile(V2) in d && d[RecordFile(V2)].RecordDoc? ==> d[RecordFile(V2)].record.header.epoch == e)
  }

  ghost predicate DiskOk(e: Ref, d: Disk) {
    Owned(e, d) && Consecutive(d)
  }

  ghost predicate StoreOk(store: Store) {
    forall e :: e in store ==> DiskOk(e, store[e])
  }

  // ---- Reading a disk back ----

  lemma LoadedFiles(e: Ref, d: Disk)
    requires Load(e, d).Some?
    ensures var s := Load(e, d).value; var v := s.record.version;
            && Layout(d) == Some(v) && Readable(d, v) && s == ReadAll(d, v)
            && Shapes(s) && CrossValid(s) && ReplayAgrees(e, s, FrameDocs(d))
            && (Owned(e, d) ==> s.record.header.epoch == e)
  {
    hide RefOk, PrivateOk;
  }

  lemma LayoutKept(d1: Disk, d2: Disk)
    requires forall f: File :: !f.FrameFile? ==> (f in d1 <==> f in d2)
    ensures Layout(d1) == Layout(d2)
  {
    assert d1.Keys * AuthorityFiles(V1) == d2.Keys * AuthorityFiles(V1);
    assert d1.Keys * AuthorityFiles(V2) == d2.Keys * AuthorityFiles(V2);
  }

  /** The record pins everything the other files may say. */
  lemma RecordPins(e: Ref, d: Disk, d': Disk)
    requires Load(e, d).Some? && Load(e, d').Some?
    requires var v := Load(e, d).value.record.version;
             forall f: File :: !f.FrameFile? ==> (f in d <==> f in d')
    requires var v := Load(e, d).value.record.version;
             RecordFile(v) in d && RecordFile(v) in d' && d'[RecordFile(v)] == d[RecordFile(v)]
    ensures var s, s' := Load(e, d).value, Load(e, d').value;
            && s'.record == s.record && s'.manifest == s.manifest && s'.private == s.private
            && s'.binding == s.binding && s'.ledger.state == s.ledger.state
  {
    hide RefOk, PrivateOk;
    LayoutKept(d, d');
    LoadedFiles(e, d);
    LoadedFiles(e, d');
  }

  /** A disk that differs from a loadable one in named documents loads exactly when the checks pass. */
  lemma Reloads(e: Ref, d: Disk, d': Disk, s': Snapshot)
    requires Load(e, d).Some? && s'.record.version == Load(e, d).value.record.version
    requires forall f: File :: !f.FrameFile? ==> (f in d <==> f in d')
    requires Readable(d', s'.record.version) && s' == ReadAll(d', s'.record.version)
    ensures Load(e, d') ==
            if Shapes(s') && CrossValid(s') && ReplayAgrees(e, s', FrameDocs(d')) then Some(s') else None
  {
    LayoutKept(d, d');
    LoadedFiles(e, d);
  }

  // ---- Torn calls ----

  lemma TornFile(e: Ref, d: Disk, d': Disk, f: File)
    requires Load(e, d).Some?
    requires forall g: File :: !g.FrameFile? ==> (g in d <==> g in d')
    requires var v := Load(e, d).value.record.version;
             && RecordFile(v) in d && d'[RecordFile(v)] == d[RecordFile(v)]
             && (f == ManifestFile(v) || (f == BindingFile && v == V2))
    requires f in d && d'[f] != d[f]
    ensures Load(e, d').None?
  {
    hide RefOk, PrivateOk;
    LoadedFiles(e, d);
    if Load(e, d').Some? {
      RecordPins(e, d, d');
      LoadedFiles(e, d');
    }
  }

  lemma TornLedger(e: Ref, d: Disk, d': Disk)
    requires Load(e, d).Some?
    requires forall g: File :: !g.FrameFile? ==> (g in d <==> g in d')
    requires var v := Load(e, d).value.record.version;
             RecordFile(v) in d && d'[RecordFile(v)] == d[RecordFile(v)]
    requires LedgerFile in d && d[LedgerFile].LedgerDoc? && d'[LedgerFile].LedgerDoc?
             && d'[LedgerFile].ledger.state != d[LedgerFile].ledger.state
    ensures Load(e, d').None?
  {
    hide RefOk, PrivateOk;
    LoadedFiles(e, d);
    if Load(e, d').Some? {
      RecordPins(e, d, d');
      LoadedFiles(e, d');
    }
  }

  /** A frame file without its metadata update breaks the frame count. */
  lemma TornFrame(e: Ref, d: Disk, n: nat, doc: Doc)
    requires Load(e, d).Some? && Consecutive(d) && n == |FrameNumbers(d)| + 1
    ensures Load(e, d[FrameFile(n) := doc]).None?
  {
    hide RefOk, PrivateOk;
    var d' := d[FrameFile(n) := doc];
    LoadedFiles(e, d);
    FrameDocsAppend(d, n, doc);
    if Load(e, d').Some? {
      RecordPins(e, d, d');
      LoadedFiles(e, d');
    }
  }

  /** Terminal spool metadata contradicts a record that is not yet terminal. */
  lemma TornSpool(e: Ref, d: Disk, d': Disk)
    requires Load(e, d).Some? && !Terminal(Load(e, d).value.record.header.state)
    requires forall g: File :: !g.FrameFile? ==> (g in d <==> g in d')
    requires var v := Load(e, d).value.record.version;
             RecordFile(v) in d && d'[RecordFile(v)] == d[RecordFile(v)]
    requires SpoolFile in d && d'[SpoolFile].SpoolDoc? && d'[SpoolFile].spool.state != SpoolOpen
    ensures Load(e, d').None?
  {
    hide RefOk, PrivateOk;
    LoadedFiles(e, d);
    if Load(e, d').Some? {
      RecordPins(e, d, d');
      LoadedFiles(e, d');
    }
  }

  // ---- Completed calls ----

  lemma OpenFold(s: Spool)
    requires s.state == SpoolOpen
    ensures forall fold, n :: SpoolMatches(s, fold, n) ==> fold.stage in {NoStage, EpochReady, RunnerStarted, RestoreBegin}
  {
  }

  /** A consistent rewrite of record, manifest, binding or ledger is accepted by the frames already there. */
  lemma RewriteLands(e: Ref, d: Disk, d': Disk, s': Snapshot)
    requires Load(e, d).Some?
    requires forall f: File :: !f.FrameFile? ==> (f in d <==> f in d')
    requires SameFrames(d, d')
    requires Readable(d', s'.record.version) && s' == ReadAll(d', s'.record.version)
    requires Shapes(s') && CrossValid(s')
    requires var s := Load(e, d).value;
             && s'.record.version == s.record.version && s'.private == s.private && s'.spool == s.spool
             && s.spool.state == SpoolOpen
             && (s.ledger.state == LedgerConsumed ==> s'.ledger.state == LedgerConsumed)
    ensures Load(e, d') == Some(s')
  {
    hide Load, CrossValid, Shapes, Layout;
    var s := Load(e, d).value;
    LoadedFiles(e, d);
    OpenFold(s.spool);
    FrameDocsSame(d, d');
    ReplayedHistory(ContextOf(e, s), FrameDocs(d));
    ReplaySurvives(ContextOf(e, s), ContextOf(e, s'), FrameDocs(d));
    Reloads(e, d, d', s');
  }

  /** The offline step accepts the frame that the online checks accepted. */
  lemma StepAccepts(s: Snapshot, d: Disk, fold: Fold, n: nat, f: Frame, c': Context)
    requires Shapes(s) && CrossValid(s) && SpoolMatches(s.spool, fold, n)
    requires DecideIngest(s, d, f).Persist? && !Terminal(s.record.header.state)
    requires var h := AfterFrame(s, f).record.header;
             c' == Context(s.record.header.epoch, s.record.version, h.state, h.artifactState, s.ledger.state, s.private)
    ensures FrameAccepted(c', fold, FrameDoc(f))
    ensures SpoolMatches(NextSpool(s.spool, f), Advance(fold, FrameDoc(f)), n + 1)
  {
    hide RowIdOk, FilenameOk, RefOk, PrivateOk;
  }

  lemma AfterFrameContext(s: Snapshot, f: Frame)
    ensures var t := AfterFrame(s, f);
            && t.record.version == s.record.version && t.ledger == s.ledger && t.private == s.private
            && t.record.header.artifactState == s.record.header.artifactState
  {
  }

  lemma LoadedOwner(e: Ref, d: Disk)
    requires Load(e, d).Some? && DiskOk(e, d)
    ensures Load(e, d).value.record.header.epoch == e
  {
    LoadedFiles(e, d);
  }

  lemma MatchedStage(s: Spool, fold: Fold, n: nat)
    requires SpoolMatches(s, fold, n)
    ensures fold.stage == s.lastStage
    ensures s.state == SpoolOpen ==> fold.stage in {NoStage, EpochReady, RunnerStarted, RestoreBegin}
  {
  }

  /** Replay under the final documents accepts the whole history. */
  lemma FrameLands(e: Ref, d: Disk, s: Snapshot, f: Frame, c': Context)
    requires Load(e, d) == Some(s) && DiskOk(e, d)
    requires DecideIngest(s, d, f).Persist?
    requires !Terminal(s.record.header.state)
    requires c' == ContextOf(e, AfterFrame(s, f))
    ensures var docs := FrameDocs(d) + [FrameDoc(f)];
            && Replay(c', docs).Some?
            && SpoolMatches(NextSpool(s.spool, f), Replay(c', docs).value, |docs|)
  {
    hide Load, DecideIngest, CrossValid, Shapes, FrameAccepted, Layout, Readable, ReadAll, AfterFrame, FrameDocs, SpoolMatches,
         NextSpool, Consecutive, Owned, FrameGenuine, StageAllowed;
    var c, docs := ContextOf(e, s), FrameDocs(d);
    LoadedFiles(e, d);
    var fold := Replay(c, docs).value;
    AfterFrameContext(s, f);
    assert s.record.header.epoch == e by { LoadedOwner(e, d); }
    StepAccepts(s, d, fold, |docs|, f, c');
    OpenSpool(s);
    MatchedStage(s.spool, fold, |docs|);
    ReplaySurvives(c, c', docs);
    assert (docs + [FrameDoc(f)])[..|docs|] == docs;
  }

  /** An epoch that is not terminal has an open spool. */
  lemma OpenSpool(s: Snapshot)
    requires CrossValid(s) && !Terminal(s.record.header.state)
    ensures s.spool.state == SpoolOpen && s.spool.lastStage !in {Commit, Abandon}
    ensures s.ledger.state == LedgerConsumed ==> s.record.header.state == Active
    ensures s.spool.lastStage == RestoreBegin ==> s.ledger.state == LedgerConsumed
  {
  }

  // ---- Crash atomicity, call by call ----

  function Prefix(d: Disk, writes: seq<Write>, k: nat): Disk {
    Apply(d, writes[..Min(k, |writes|)])
  }

  lemma PrefixStep(d: Disk, writes: seq<Write>, k: nat)
    ensures Prefix(d, writes, 0) == d
    ensures k < |writes| ==> Prefix(d, writes, k + 1) == Prefix(d, writes, k)[writes[k].file := writes[k].doc]
  {
    if k < |writes| {
      assert writes[..k + 1][..k] == writes[..k];
    }
  }

  /** Superseding an epoch that has started its runner, or whose restore authority is spent, cannot reload. */
  predicate SupersedeTooLate(s: Snapshot) {
    s.ledger.state == LedgerConsumed || s.spool.lastStage in {RunnerStarted, RestoreBegin}
  }

  predicate LandsUnreadable(s: Snapshot, call: Call) {
    call.Supersede? && SupersedeTooLate(s)
  }

  /** The two-write state update: torn after one write, whole after two. */
  lemma UpdateReads(d: Disk, s: Snapshot, h: Header)
    requires Readable(d, s.record.version) && s == ReadAll(d, s.record.version)
    ensures var t := WithHeader(s, h); var v := s.record.version;
            var d' := d[ManifestFile(v) := ManifestDoc(t.manifest)][RecordFile(v) := RecordDoc(t.record)];
            && SameFrames(d, d') && Readable(d', v) && ReadAll(d', v) == t && (forall f: File :: f in d <==> f in d')
  {
  }

  lemma StateUpdateAtomic(e: Ref, d: Disk, s: Snapshot, h: Header, k: nat)
    requires Load(e, d) == Some(s) && h != s.record.header
    ensures var d' := Prefix(d, StateUpdate(s, h), k);
            && (k == 0 ==> d' == d)
            && (k == 1 ==> Load(e, d').None?)
            && (k >= 2 ==> SameFrames(d, d') && Readable(d', s.record.version)
                           && ReadAll(d', s.record.version) == WithHeader(s, h)
                           && (forall f: File :: f in d <==> f in d'))
  {
    hide Load, Shapes, ReplayAgrees, Layout;
    var writes := StateUpdate(s, h);
    LoadedFiles(e, d);
    Prefix2(d, writes[0], writes[1], k);
    if k == 1 {
      LoadedHeader(e, d);
      TornFile(e, d, Prefix(d, writes, 1), ManifestFile(s.record.version));
    } else if k >= 2 {
      UpdateReads(d, s, h);
    }
  }

  lemma LoadedHeader(e: Ref, d: Disk)
    requires Load(e, d).Some?
    ensures var s := Load(e, d).value; s.manifest.header == s.record.header
  {
  }

  lemma HeaderCallAtomic(e: Ref, d: Disk, s: Snapshot, h: Header, k: nat)
    requires Load(e, d) == Some(s) && h != s.record.header
    requires s.spool.state == SpoolOpen
    requires Shapes(WithHeader(s, h)) && CrossValid(WithHeader(s, h))
    ensures var d' := Prefix(d, StateUpdate(s, h), k);
            Load(e, d') == if k == 0 then Some(s) else if k == 1 then None else Some(WithHeader(s, h))
  {
    StateUpdateAtomic(e, d, s, h, k);
    if k >= 2 {
      RewriteLands(e, d, Prefix(d, StateUpdate(s, h), k), WithHeader(s, h));
    }
  }

  lemma Prefix3(d: Disk, a: Write, b: Write, c: Write, k: nat)
    ensures Prefix(d, [a, b, c], k) ==
            if k == 0 then d
            else if k == 1 then d[a.file := a.doc]
            else if k == 2 then d[a.file := a.doc][b.file := b.doc]
            else d[a.file := a.doc][b.file := b.doc][c.file := c.doc]
  {
    var writes := [a, b, c];
    PrefixStep(d, writes, 0);
    PrefixStep(d, writes, 1);
    PrefixStep(d, writes, 2);
    if k >= 3 {
      assert Prefix(d, writes, k) == Prefix(d, writes, 3);
    }
  }

  // ---- Binding and consuming: one more file, then manifest and record ----

  /** `t` rewrites `s` through one extra file, the manifest and the record. */
  predicate Rewrites(s: Snapshot, t: Snapshot, extra: Write) {
    && t.record.version == s.record.version && t.manifest.version == s.record.version
    && ((extra == Write(LedgerFile, LedgerDoc(t.ledger))
         && t == s.(record := t.record, manifest := t.manifest, ledger := t.ledger))
        || (s.record.version == V2 && t.binding.Some? && extra == Write(BindingFile, BindingDoc(t.binding.value))
            && t == s.(record := t.record, manifest := t.manifest, binding := t.binding)))
  }

  function Rewritten(d: Disk, t: Snapshot, extra: Write): Disk {
    d[extra.file := extra.doc][ManifestFile(t.record.version) := ManifestDoc(t.manifest)]
     [RecordFile(t.record.version) := RecordDoc(t.record)]
  }

  lemma RewriteReads(d: Disk, s: Snapshot, t: Snapshot, extra: Write)
    requires Readable(d, s.record.version) && s == ReadAll(d, s.record.version)
    requires Rewrites(s, t, extra)
    ensures var d' := Rewritten(d, t, extra); var v := s.record.version;
            && Readable(d', v) && ReadAll(d', v) == t && SameFrames(d, d')
            && (forall f: File :: f in d <==> f in d')
  {
  }

  lemma RewriteAtomic(e: Ref, d: Disk, s: Snapshot, t: Snapshot, extra: Write, k: nat)
    requires Load(e, d) == Some(s) && Rewrites(s, t, extra)
    requires extra.file == LedgerFile ==> t.ledger.state != s.ledger.state
    requires extra.file == BindingFile ==> t.binding != s.binding
    requires s.spool.state == SpoolOpen && (s.ledger.state == LedgerConsumed ==> t.ledger.state == LedgerConsumed)
    requires Shapes(t) && CrossValid(t)
    ensures var v := t.record.version;
            var writes := [extra, Write(ManifestFile(v), ManifestDoc(t.manifest)), Write(RecordFile(v), RecordDoc(t.record))];
            Load(e, Prefix(d, writes, k)) == if k == 0 then Some(s) else if k < 3 then None else Some(t)
  {
    hide Load, CrossValid, Shapes, ReplayAgrees, Layout;
    var v := t.record.version;
    var writes := [extra, Write(ManifestFile(v), ManifestDoc(t.manifest)), Write(RecordFile(v), RecordDoc(t.record))];
    Prefix3(d, writes[0], writes[1], writes[2], k);
    LoadedFiles(e, d);
    if k >= 3 {
      RewriteReads(d, s, t, extra);
      RewriteLands(e, d, Rewritten(d, t, extra), t);
    } else if k > 0 {
      if extra.file == LedgerFile {
        TornLedger(e, d, Prefix(d, writes, k));
      } else {
        TornFile(e, d, Prefix(d, writes, k), BindingFile);
      }
    }
  }

  lemma BindV2Writes(e: Ref, s: Snapshot, rowId: Identity, filename: Identity)
    requires Shapes(s) && CrossValid(s) && s.record.header.epoch == e && s.manifest.version == s.record.version
    requires DecideBindV2(e, s, rowId, filename).Persist?
    ensures Intended(e, s, BindV2(rowId, filename)).binding.Some?
    ensures var t := Intended(e, s, BindV2(rowId, filename));
            var extra := Write(BindingFile, BindingDoc(t.binding.value));
            && Rewrites(s, t, extra) && t.binding != s.binding && s.spool.state == SpoolOpen && t.record.version == V2
            && t.ledger == s.ledger
            && DecideBindV2(e, s, rowId, filename).writes ==
               [extra, Write(ManifestFile(V2), ManifestDoc(t.manifest)), Write(RecordFile(V2), RecordDoc(t.record))]
  {
    hide RowIdOk, FilenameOk, RefOk, PrivateOk;
  }

  lemma BindV2Consistent(e: Ref, s: Snapshot, rowId: Identity, filename: Identity)
    requires Shapes(s) && CrossValid(s) && s.record.header.epoch == e
    requires DecideBindV2(e, s, rowId, filename).Persist?
    ensures var t := Intended(e, s, BindV2(rowId, filename)); Shapes(t) && CrossValid(t)
  {
    hide RowIdOk, FilenameOk, RefOk, PrivateOk;
  }

  lemma BindV2Atomic(e: Ref, d: Disk, s: Snapshot, rowId: Identity, filename: Identity, k: nat)
    requires Load(e, d) == Some(s) && DiskOk(e, d)
    requires DecideBindV2(e, s, rowId, filename).Persist?
    ensures var writes := DecideBindV2(e, s, rowId, filename).writes;
            && |writes| == 3
            && Load(e, Prefix(d, writes, k)) ==
               if k == 0 then Some(s) else if k < 3 then None else Some(Intended(e, s, BindV2(rowId, filename)))
  {
    hide Load, CrossValid, Shapes, Intended, DecideBindV2, Rewrites, ReadAll, Prefix;
    LoadedFiles(e, d);
    LoadedVersions(e, d);
    BindV2Writes(e, s, rowId, filename);
    BindV2Consistent(e, s, rowId, filename);
    var t := Intended(e, s, BindV2(rowId, filename));
    RewriteAtomic(e, d, s, t, Write(BindingFile, BindingDoc(t.binding.value)), k);
  }

  lemma ConsumeWrites(e: Ref, s: Snapshot, id: string, expected: Commitment, data: string)
    requires Shapes(s) && CrossValid(s) && s.record.header.epoch == e && s.manifest.version == s.record.version
    requires DecideConsume(e, s, id, expected, data).Persist?
    ensures var t := Intended(e, s, ConsumeRestore(id, expected, data)); var v := s.record.version;
            var extra := Write(LedgerFile, LedgerDoc(t.ledger));
            && Rewrites(s, t, extra) && t.ledger.state != s.ledger.state && t.ledger.state == LedgerConsumed
            && s.spool.state == SpoolOpen && t.record.version == v
            && DecideConsume(e, s, id, expected, data).writes ==
               [extra, Write(ManifestFile(v), ManifestDoc(t.manifest)), Write(RecordFile(v), RecordDoc(t.record))]
  {
    hide RefOk, PrivateOk;
  }

  lemma ConsumeConsistent(e: Ref, s: Snapshot, id: string, expected: Commitment, data: string)
    requires Shapes(s) && CrossValid(s) && s.record.header.epoch == e
    requires DecideConsume(e, s, id, expected, data).Persist?
    ensures var t := Intended(e, s, ConsumeRestore(id, expected, data)); Shapes(t) && CrossValid(t)
  {
    hide RefOk, PrivateOk;
  }

  lemma ConsumeAtomic(e: Ref, d: Disk, s: Snapshot, id: string, expected: Commitment, data: string, k: nat)
    requires Load(e, d) == Some(s) && DiskOk(e, d)
    requires DecideConsume(e, s, id, expected, data).Persist?
    ensures var writes := DecideConsume(e, s, id, expected, data).writes;
            && |writes| == 3
            && Load(e, Prefix(d, writes, k)) ==
               if k == 0 then Some(s) else if k < 3 then None else Some(Intended(e, s, ConsumeRestore(id, expected, data)))
  {
    hide Load, CrossValid, Shapes, Intended, DecideConsume, Rewrites, ReadAll, Prefix;
    LoadedFiles(e, d);
    LoadedVersions(e, d);
    ConsumeWrites(e, s, id, expected, data);
    ConsumeConsistent(e, s, id, expected, data);
    var t := Intended(e, s, ConsumeRestore(id, expected, data));
    RewriteAtomic(e, d, s, t, Write(LedgerFile, LedgerDoc(t.ledger)), k);
  }

  lemma LoadedVersions(e: Ref, d: Disk)
    requires Load(e, d).Some?
    ensures var s := Load(e, d).value; s.manifest.version == s.record.version
  {
  }

  // ---- Ingesting a frame ----

  /** The state table accepts the states that the next frame leads to. */
  lemma NextStateAgrees(s: Snapshot, stage: Stage)
    requires CrossValid(s) && StageAllowed(s, stage) && !Terminal(s.record.header.state)
    ensures var state := match stage case Commit => Consumed case Abandon => Abandoned case _ => s.record.header.state;
            StateAgrees(state, s.ledger.state, SpoolStateOf(stage), stage)
    ensures stage == Commit ==> s.ledger.state == LedgerConsumed && BoundIfV2(s)
  {
  }

  lemma IngestStaysValid(s: Snapshot, d: Disk, f: Frame)
    requires Shapes(s) && CrossValid(s) && !Terminal(s.record.header.state)
    requires DecideIngest(s, d, f).Persist?
    ensures var t := AfterFrame(s, f); Shapes(t) && CrossValid(t)
    ensures f.sequence == s.spool.nextSequence
  {
    hide RowIdOk, FilenameOk, RefOk, PrivateOk, StageAllowed, StateAgrees, SpoolShape, LedgerShape, BindingShape, PendingAbandonPayloadOk;
    NextStateAgrees(s, f.stage);
  }

  lemma IngestConsistent(e: Ref, d: Disk, s: Snapshot, f: Frame)
    requires Load(e, d) == Some(s) && DiskOk(e, d)
    requires !Terminal(s.record.header.state) && DecideIngest(s, d, f).Persist?
    ensures var t := AfterFrame(s, f); Shapes(t) && CrossValid(t)
    ensures f.sequence == |FrameNumbers(d)| + 1
    ensures s.spool.state == SpoolOpen
  {
    hide Load, CrossValid, Shapes, DecideIngest, AfterFrame, ContextOf;
    LoadedFiles(e, d);
    IngestStaysValid(s, d, f);
    OpenSpool(s);
    ReplayedHistory(ContextOf(e, s), FrameDocs(d));
  }

  lemma IngestReads(d: Disk, s: Snapshot, t: Snapshot, f: Frame)
    requires var v := s.record.version;
             Readable(d, v) && s == ReadAll(d, v) && t.record.version == v && t.manifest.version == v
    requires t == s.(record := t.record, manifest := t.manifest, spool := t.spool)
    requires f.sequence >= 0
    ensures var v := s.record.version;
            var framed := d[FrameFile(f.sequence) := FrameDoc(f)];
            var spooled := framed[SpoolFile := SpoolDoc(t.spool)];
            var d' := spooled[ManifestFile(v) := ManifestDoc(t.manifest)][RecordFile(v) := RecordDoc(t.record)];
            && Readable(d', v) && ReadAll(d', v) == t && SameFrames(framed, d') && SameFrames(framed, spooled)
            && Readable(spooled, v) && ReadAll(spooled, v) == s.(spool := t.spool)
            && (forall g: File :: !g.FrameFile? ==> (g in d <==> g in d') && (g in d <==> g in spooled))
  {
  }

  /** Any disk that holds the new frame and the intended documents loads as the intended snapshot. */
  lemma IngestLands(e: Ref, d: Disk, s: Snapshot, f: Frame, d': Disk)
    requires Load(e, d) == Some(s) && DiskOk(e, d)
    requires !Terminal(s.record.header.state) && DecideIngest(s, d, f).Persist?
    requires f.sequence >= 0 && SameFrames(d[FrameFile(f.sequence) := FrameDoc(f)], d')
    requires forall g: File :: !g.FrameFile? ==> (g in d <==> g in d')
    requires var v := s.record.version; Readable(d', v) && ReadAll(d', v) == AfterFrame(s, f)
    ensures Load(e, d') == Some(AfterFrame(s, f))
  {
    hide Load, CrossValid, Shapes, DecideIngest, AfterFrame, Replay, SpoolMatches;
    var t := AfterFrame(s, f);
    AfterFrameKeeps(s, f);
    IngestConsistent(e, d, s, f);
    FrameDocsAppend(d, f.sequence, FrameDoc(f));
    FrameDocsSame(d[FrameFile(f.sequence) := FrameDoc(f)], d');
    FrameLands(e, d, s, f, ContextOf(e, t));
    Reloads(e, d, d', t);
  }

  lemma AfterFrameKeeps(s: Snapshot, f: Frame)
    ensures var t := AfterFrame(s, f);
            && t.record.version == s.record.version && t.spool == NextSpool(s.spool, f)
            && t.private == s.private && t.ledger == s.ledger && t.binding == s.binding
            && (t.manifest.version == s.manifest.version)
            && t == s.(record := t.record, manifest := t.manifest, spool := t.spool)
  {
  }

  predicate ClosesEpoch(f: Frame) {
    f.stage == Commit || f.stage == Abandon
  }

  lemma Prefix4(d: Disk, a: Write, b: Write, c: Write, z: Write, k: nat)
    ensures Prefix(d, [a, b, c, z], k) ==
            if k == 0 then d
            else if k == 1 then d[a.file := a.doc]
            else if k == 2 then d[a.file := a.doc][b.file := b.doc]
            else if k == 3 then d[a.file := a.doc][b.file := b.doc][c.file := c.doc]
            else d[a.file := a.doc][b.file := b.doc][c.file := c.doc][z.file := z.doc]
  {
    var writes := [a, b, c, z];
    PrefixStep(d, writes, 0);
    PrefixStep(d, writes, 1);
    PrefixStep(d, writes, 2);
    PrefixStep(d, writes, 3);
    if k >= 4 {
      assert Prefix(d, writes, k) == Prefix(d, writes, 4);
    }
  }

  lemma Prefix2(d: Disk, a: Write, b: Write, k: nat)
    ensures Prefix(d, [a, b], k) ==
            if k == 0 then d
            else if k == 1 then d[a.file := a.doc]
            else d[a.file := a.doc][b.file := b.doc]
  {
    var writes := [a, b];
    PrefixStep(d, writes, 0);
    PrefixStep(d, writes, 1);
    if k >= 2 {
      assert Prefix(d, writes, k) == Prefix(d, writes, 2);
    }
  }

  lemma OpenWrites(s: Snapshot, d: Disk, f: Frame)
    requires DecideIngest(s, d, f).Persist? && !ClosesEpoch(f)
    ensures var t := AfterFrame(s, f);
            && f.sequence >= 0
            && DecideIngest(s, d, f).writes ==
               [Write(FrameFile(f.sequence), FrameDoc(f)), Write(SpoolFile, SpoolDoc(t.spool))]
            && t == s.(spool := t.spool)
  {
    hide FrameGenuine, StageAllowed, PendingAbandonPayloadOk, SpoolShape;
    assert f.sequence >= 0 by { GenuineSequence(s, f); }
    var two := [Write(FrameFile(f.sequence), FrameDoc(f)), Write(SpoolFile, SpoolDoc(NextSpool(s.spool, f)))];
    assert two + [] == two;
  }

  lemma GenuineSequence(s: Snapshot, f: Frame)
    requires FrameGenuine(s, f)
    ensures f.sequence >= 1
  {
  }

  lemma OpenReads(d: Disk, s: Snapshot, t: Snapshot, f: Frame)
    requires Readable(d, s.record.version) && s == ReadAll(d, s.record.version)
    requires t == s.(spool := t.spool) && f.sequence >= 0
    ensures var framed := d[FrameFile(f.sequence) := FrameDoc(f)];
            var spooled := framed[SpoolFile := SpoolDoc(t.spool)];
            && SameFrames(framed, spooled) && Readable(spooled, s.record.version) && ReadAll(spooled, s.record.version) == t
            && (forall g: File :: !g.FrameFile? ==> (g in d <==> g in spooled))
  {
  }

  lemma IngestOpenAtomic(e: Ref, d: Disk, s: Snapshot, f: Frame, k: nat)
    requires Load(e, d) == Some(s) && DiskOk(e, d)
    requires !Terminal(s.record.header.state) && DecideIngest(s, d, f).Persist? && !ClosesEpoch(f)
    ensures var writes := DecideIngest(s, d, f).writes;
            && |writes| == 2
            && Load(e, Prefix(d, writes, k)) ==
               if k == 0 then Some(s) else if k < 2 then None else Some(AfterFrame(s, f))
  {
    hide Load, DecideIngest, AfterFrame, Prefix, CrossValid, Shapes, Layout, Consecutive, FrameDocs, ReplayAgrees;
    var writes := DecideIngest(s, d, f).writes;
    OpenWrites(s, d, f);
    Prefix2(d, writes[0], writes[1], k);
    IngestConsistent(e, d, s, f);
    LoadedFiles(e, d);
    if k == 1 {
      TornFrame(e, d, f.sequence, FrameDoc(f));
    } else if k >= 2 {
      OpenReads(d, s, AfterFrame(s, f), f);
      IngestLands(e, d, s, f, Prefix(d, writes, k));
    }
  }

  lemma ClosingWrites(s: Snapshot, d: Disk, f: Frame)
    requires DecideIngest(s, d, f).Persist? && ClosesEpoch(f)
    ensures var t := AfterFrame(s, f); var v := s.record.version;
            DecideIngest(s, d, f).writes ==
            [Write(FrameFile(f.sequence), FrameDoc(f)), Write(SpoolFile, SpoolDoc(t.spool)),
             Write(ManifestFile(v), ManifestDoc(t.manifest)), Write(RecordFile(v), RecordDoc(t.record))]
  {
  }

  /** Terminal metadata with the old record is unreadable, whether or not the manifest has followed. */
  lemma ClosedEarly(e: Ref, d: Disk, s: Snapshot, n: nat, frame: Doc, spool: Spool, manifest: Doc, k: nat)
    requires Load(e, d) == Some(s) && !Terminal(s.record.header.state) && spool.state != SpoolOpen && 2 <= k <= 3
    ensures var spooled := d[FrameFile(n) := frame][SpoolFile := SpoolDoc(spool)];
            Load(e, if k == 2 then spooled else spooled[ManifestFile(s.record.version) := manifest]).None?
  {
    hide Load, Shapes, CrossValid, ReplayAgrees, Layout, ReadAll, Owned, RefOk, PrivateOk;
    LoadedFiles(e, d);
    var spooled := d[FrameFile(n) := frame][SpoolFile := SpoolDoc(spool)];
    TornSpool(e, d, if k == 2 then spooled else spooled[ManifestFile(s.record.version) := manifest]);
  }

  lemma IngestClosingTorn(e: Ref, d: Disk, s: Snapshot, f: Frame, k: nat)
    requires Load(e, d) == Some(s) && DiskOk(e, d)
    requires !Terminal(s.record.header.state) && DecideIngest(s, d, f).Persist? && ClosesEpoch(f)
    requires 0 < k < 4
    ensures Load(e, Prefix(d, DecideIngest(s, d, f).writes, k)).None?
  {
    hide Load, DecideIngest, Prefix, CrossValid, Layout, FrameDocs, ReplayAgrees;
    var writes := DecideIngest(s, d, f).writes;
    ClosingWrites(s, d, f);
    Prefix4(d, writes[0], writes[1], writes[2], writes[3], k);
    IngestConsistent(e, d, s, f);
    LoadedFiles(e, d);
    if k == 1 {
      TornFrame(e, d, f.sequence, FrameDoc(f));
    } else {
      ClosedEarly(e, d, s, f.sequence, FrameDoc(f), AfterFrame(s, f).spool, writes[2].doc, k);
    }
  }

  lemma IngestClosingAtomic(e: Ref, d: Disk, s: Snapshot, f: Frame, k: nat)
    requires Load(e, d) == Some(s) && DiskOk(e, d)
    requires !Terminal(s.record.header.state) && DecideIngest(s, d, f).Persist? && ClosesEpoch(f)
    ensures var writes := DecideIngest(s, d, f).writes;
            && |writes| == 4
            && Load(e, Prefix(d, writes, k)) ==
               if k == 0 then Some(s) else if k < 4 then None else Some(AfterFrame(s, f))
  {
    hide Load, DecideIngest, Prefix, CrossValid, Shapes, Layout, FrameDocs, ReplayAgrees, Consecutive;
    var writes := DecideIngest(s, d, f).writes;
    ClosingWrites(s, d, f);
    Prefix4(d, writes[0], writes[1], writes[2], writes[3], k);
    if 0 < k < 4 {
      IngestClosingTorn(e, d, s, f, k);
    } else if k >= 4 {
      LoadedFiles(e, d);
      IngestReads(d, s, AfterFrame(s, f), f);
      IngestLands(e, d, s, f, Prefix(d, writes, k));
    }
  }

  lemma NextSpoolShape(s: Snapshot, d: Disk, f: Frame, fold: Fold, n: nat)
    requires SpoolShape(s.spool) && SpoolMatches(s.spool, fold, n)
    requires n <= 4 && fold.bytes <= n * MAX_FRAME_BYTES && fold.highest == (if fold.stage == Commit then 4 else 0)
    requires FrameGenuine(s, f) && StageAllowed(s, f.stage) && FrameBytes(f) <= MAX_FRAME_BYTES
    ensures SpoolShape(NextSpool(s.spool, f))
  {
  }

  /** The size check that runs after the frame file is written never rejects. */
  lemma NeverStuck(e: Ref, d: Disk, s: Snapshot, f: Frame)
    requires Load(e, d) == Some(s)
    ensures !DecideIngest(s, d, f).Stuck?
  {
    hide Load, CrossValid, SpoolShape, FrameGenuine, StageAllowed, PendingAbandonPayloadOk, Layout, Readable, ReadAll, SpoolMatches;
    LoadedFiles(e, d);
    ReplayedHistory(ContextOf(e, s), FrameDocs(d));
    if DecideIngest(s, d, f).Stuck? {
      NextSpoolShape(s, d, f, Replay(ContextOf(e, s), FrameDocs(d)).value, |FrameDocs(d)|);
    }
  }
}
