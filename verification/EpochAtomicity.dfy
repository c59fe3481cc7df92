/**
 The main crash theorem: every writing call, cut after any number of its writes.
 */
module EpochAtomicity {
  import opened Wrappers
  import Commitments
  import opened EpochDocuments
  import opened EpochLoad
  import opened EpochHistory
  import opened EpochCalls
  import opened EpochCrash

  // ---- The disk invariants survive every prefix of every call ----

  lemma {:induction false} PrefixKeepsOwned(e: Ref, d: Disk, writes: seq<Write>, k: nat)
    requires Owned(e, d)
    requires forall i :: 0 <= i < |writes| && writes[i].doc.RecordDoc? ==> writes[i].doc.record.header.epoch == e
    ensures Owned(e, Prefix(d, writes, k))
    decreases k
  {
    PrefixStep(d, writes, k);
    if k > |writes| {
      assert Prefix(d, writes, k) == Prefix(d, writes, |writes|);
      PrefixKeepsOwned(e, d, writes, |writes|);
    } else if k > 0 {
      PrefixKeepsOwned(e, d, writes, k - 1);
      PrefixStep(d, writes, k - 1);
    }
  }

  lemma {:induction false} PrefixKeepsFrames(d: Disk, writes: seq<Write>, k: nat)
    requires forall i :: 1 <= i < |writes| ==> !writes[i].file.FrameFile?
    requires 1 <= k <= |writes|
    ensures SameFrames(d[writes[0].file := writes[0].doc], Prefix(d, writes, k))
  {
    PrefixStep(d, writes, 0);
    PrefixStep(d, writes, k - 1);
    if k > 1 {
      PrefixKeepsFrames(d, writes, k - 1);
    }
  }

  lemma PrefixKeepsOk(e: Ref, d: Disk, writes: seq<Write>, k: nat)
    requires DiskOk(e, d)
    requires forall i :: 0 <= i < |writes| && writes[i].doc.RecordDoc? ==> writes[i].doc.record.header.epoch == e
    requires forall i :: 1 <= i < |writes| ==> !writes[i].file.FrameFile?
    requires |writes| > 0 && writes[0].file.FrameFile? ==> writes[0].file.number == |FrameNumbers(d)| + 1
    ensures DiskOk(e, Prefix(d, writes, k))
  {
    PrefixKeepsOwned(e, d, writes, k);
    if k == 0 || writes == [] {
      PrefixStep(d, writes, 0);
    } else {
      PrefixKeepsFrames(d, writes, Min(k, |writes|));
      var first := d[writes[0].file := writes[0].doc];
      if writes[0].file.FrameFile? {
        FrameDocsAppend(d, writes[0].file.number, writes[0].doc);
      } else {
        FrameDocsSame(d, first);
      }
      FrameDocsSame(first, Prefix(d, writes, k));
    }
  }

  /** Every write list keeps records in their own directory and frames in sequence. */
  predicate WritesOk(e: Ref, frames: nat, writes: seq<Write>) {
    && (forall i :: 0 <= i < |writes| && writes[i].doc.RecordDoc? ==> writes[i].doc.record.header.epoch == e)
    && (forall i :: 1 <= i < |writes| ==> !writes[i].file.FrameFile?)
    && (|writes| > 0 && writes[0].file.FrameFile? ==> writes[0].file.number == frames + 1)
  }

  lemma IngestWritesOk(e: Ref, d: Disk, s: Snapshot, f: Frame)
    requires Load(e, d) == Some(s) && DiskOk(e, d)
    requires DecideIngest(s, d, f).Persist?
    ensures WritesOk(e, |FrameNumbers(d)|, DecideIngest(s, d, f).writes)
  {
    hide Load, StageAllowed, PendingAbandonPayloadOk, SpoolShape;
    assert s.record.header.epoch == e by { LoadedFiles(e, d); }
    NextSequence(e, d, s);
  }

  lemma NextSequence(e: Ref, d: Disk, s: Snapshot)
    requires Load(e, d) == Some(s)
    ensures s.spool.nextSequence == |FrameNumbers(d)| + 1
  {
    hide Load, CrossValid, Layout, Readable, ReadAll, Replay;
    LoadedFiles(e, d);
  }

  lemma OtherWritesOk(e: Ref, d: Disk, s: Snapshot, call: Call, frames: nat)
    requires s.record.header.epoch == e
    requires !call.Create? && !call.Supersede? && !call.AbandonEpoch? && !call.IngestFrame?
    requires DecideLoaded(e, s, d, call).Persist?
    ensures WritesOk(e, frames, DecideLoaded(e, s, d, call).writes)
  {
    hide RowIdOk, FilenameOk, RefOk;
  }

  lemma LoadedWritesOk(e: Ref, d: Disk, s: Snapshot, call: Call)
    requires Load(e, d) == Some(s) && DiskOk(e, d)
    requires !call.Create? && !call.Supersede? && DecideLoaded(e, s, d, call).Persist?
    ensures WritesOk(e, |FrameNumbers(d)|, DecideLoaded(e, s, d, call).writes)
  {
    hide Load, WritesOk, DecideIngest, DecidePrepare;
    assert s.record.header.epoch == e by { LoadedFiles(e, d); }
    if call.AbandonEpoch? {
      IngestWritesOk(e, d, s, NextFrame(s, Abandon, ABANDON_PAYLOAD));
    } else if call.IngestFrame? {
      IngestWritesOk(e, d, s, call.frame);
    } else {
      OtherWritesOk(e, d, s, call, |FrameNumbers(d)|);
    }
  }

  lemma DecidedWritesOk(store: Store, e: Ref, call: Call)
    requires StoreOk(store)
    requires Decide(store, e, call).Persist?
    ensures WritesOk(e, |FrameNumbers(Base(store, e))|, Decide(store, e, call).writes)
  {
    hide RefOk, PrivateOk, Load, DecideLoaded;
    if call.Supersede? {
      assert Load(e, store[e]).value.record.header.epoch == e by { LoadedFiles(e, store[e]); }
    } else if !call.Create? {
      LoadedWritesOk(e, store[e], Load(e, store[e]).value, call);
    }
  }

  lemma EffectKeepsOk(store: Store, e: Ref, decision: Decision, cut: nat)
    requires StoreOk(store) && (decision.Stuck? ==> decision.writes == [] && e !in store)
    requires decision.Persist? ==> WritesOk(e, |FrameNumbers(Base(store, e))|, decision.writes)
    ensures var store' := Effect(store, e, decision, cut).0;
            && StoreOk(store')
            && (forall x :: x in store ==> x in store')
            && (forall x :: x in store' && x != e ==> x in store && store'[x] == store[x])
  {
    if decision.Stuck? {
      EmptyDiskOk(e);
    } else if decision.Persist? {
      if e !in store {
        FrameNumbersAre(map[]);
        assert FrameNumbers(map[]) == {};
      }
      PrefixKeepsOk(e, Base(store, e), decision.writes, cut);
    }
  }

  lemma EmptyDiskOk(e: Ref)
    ensures DiskOk(e, map[])
  {
    FrameNumbersAre(map[]);
    assert FrameNumbers(map[]) == {};
  }

  lemma LoadedNotStuck(e: Ref, d: Disk, s: Snapshot, call: Call)
    requires Load(e, d) == Some(s) && !call.Create? && !call.Supersede?
    ensures !DecideLoaded(e, s, d, call).Stuck?
  {
    hide Load, DecideIngest, StageAllowed;
    if call.AbandonEpoch? {
      NeverStuck(e, d, s, NextFrame(s, Abandon, ABANDON_PAYLOAD));
    } else if call.IngestFrame? {
      NeverStuck(e, d, s, call.frame);
    }
  }

  /** Given a legal ref, the ledger's ref is legal exactly if it leaves room for the prefix. */
  lemma LedgerRefOk(e: Ref)
    requires RefOk(e)
    ensures RefOk(LedgerRef(e)) <==> |e| <= 121
  {
    var prefix, ref := "ledger-", LedgerRef(e);
    assert forall i :: 0 <= i < 7 ==> ref[i] == prefix[i];
    assert forall i :: 7 <= i < |ref| ==> ref[i] == e[i - 7];
  }

  /**
   The calls that change the disk and are then rejected by their own validation: exactly the creations
   with a legal ref of more than 121 characters, or with private identities the validator refuses.
   They leave an empty directory; no other call of any kind gets stuck.
   */
  lemma StuckIff(store: Store, e: Ref, call: Call)
    ensures Decide(store, e, call).Stuck? <==>
            && call.Create? && e !in store && Admitted(e, call.authority, call.supersedes)
            && (|e| > 121 || !PrivateOk(call.identities.(epoch := e)))
    ensures Decide(store, e, call).Stuck? ==> Decide(store, e, call).writes == []
  {
    hide Load, DecideLoaded, RefOk, PrivateOk;
    if call.Create? {
      if RefOk(e) {
        LedgerRefOk(e);
      }
    } else if e in store && Load(e, store[e]).Some? && !call.Supersede? {
      LoadedNotStuck(e, store[e], Load(e, store[e]).value, call);
    }
  }

  /** Every attempt, cut anywhere, keeps the store invariant and touches one epoch only. */
  lemma PerformKeepsOk(store: Store, e: Ref, call: Call, cut: nat)
    requires StoreOk(store)
    ensures var store' := Perform(store, e, call, cut).0;
            && StoreOk(store')
            && (forall x :: x in store ==> x in store')
            && (forall x :: x in store' && x != e ==> x in store && store'[x] == store[x])
  {
    hide Decide, Effect, StoreOk;
    StuckIff(store, e, call);
    if Decide(store, e, call).Persist? {
      DecidedWritesOk(store, e, call);
    }
    EffectKeepsOk(store, e, Decide(store, e, call), cut);
  }

  // ---- Creation ----

  lemma {:induction false} CreatePrefixHasNoRecord(writes: seq<Write>, k: nat, v: Version)
    requires forall i :: 0 <= i < |writes| - 1 ==> !writes[i].file.RecordFile?
    requires k < |writes|
    ensures RecordFile(v) !in Prefix(map[], writes, k)
  {
    PrefixStep(map[], writes, 0);
    if k > 0 {
      CreatePrefixHasNoRecord(writes, k - 1, v);
      PrefixStep(map[], writes, k - 1);
    }
  }

  lemma CreateLandsV1(e: Ref, authority: Ref, identities: Private, supersedes: Option<Ref>)
    requires identities.PrivateV1? && Admitted(e, authority, supersedes) && Creatable(e, identities)
    ensures var writes := CreateWrites(e, authority, identities, supersedes);
            && |writes| == 5
            && Load(e, Prefix(map[], writes, 5)) == Some(Created(e, authority, identities, supersedes))
  {
    hide RefOk, PrivateOk, Load, Prefix;
    var writes := CreateWrites(e, authority, identities, supersedes);
    var t := Created(e, authority, identities, supersedes);
    PrefixStep(map[], writes, 0);
    PrefixStep(map[], writes, 1);
    PrefixStep(map[], writes, 2);
    PrefixStep(map[], writes, 3);
    PrefixStep(map[], writes, 4);
    var d := Prefix(map[], writes, 5);
    assert d == map[ManifestFile(V1) := ManifestDoc(t.manifest), PrivateFile(V1) := PrivateDoc(t.private),
                    LedgerFile := LedgerDoc(t.ledger), SpoolFile := SpoolDoc(t.spool),
                    RecordFile(V1) := RecordDoc(t.record)];
    FreshLoads(e, d, t);
  }

  lemma FreshV2(e: Ref, authority: Ref, identities: Private, supersedes: Option<Ref>, d: Disk)
    requires identities.PrivateV2? && Admitted(e, authority, supersedes) && Creatable(e, identities)
    requires var t := Created(e, authority, identities, supersedes);
             d == map[ManifestFile(V2) := ManifestDoc(t.manifest), PrivateFile(V2) := PrivateDoc(t.private),
                      LedgerFile := LedgerDoc(t.ledger), SpoolFile := SpoolDoc(t.spool),
                      BindingFile := BindingDoc(t.binding.value), RecordFile(V2) := RecordDoc(t.record)]
    ensures Load(e, d) == Some(Created(e, authority, identities, supersedes))
  {
    hide RefOk, PrivateOk, Load;
    FreshLoads(e, d, Created(e, authority, identities, supersedes));
  }

  lemma CreateLandsV2(e: Ref, authority: Ref, identities: Private, supersedes: Option<Ref>)
    requires identities.PrivateV2? && Admitted(e, authority, supersedes) && Creatable(e, identities)
    ensures var writes := CreateWrites(e, authority, identities, supersedes);
            && |writes| == 6
            && Load(e, Prefix(map[], writes, 6)) == Some(Created(e, authority, identities, supersedes))
  {
    hide RefOk, PrivateOk, Load, Prefix;
    var writes := CreateWrites(e, authority, identities, supersedes);
    PrefixStep(map[], writes, 0);
    PrefixStep(map[], writes, 1);
    PrefixStep(map[], writes, 2);
    PrefixStep(map[], writes, 3);
    PrefixStep(map[], writes, 4);
    PrefixStep(map[], writes, 5);
    FreshV2(e, authority, identities, supersedes, Prefix(map[], writes, 6));
  }

  lemma FreshLoads(e: Ref, d: Disk, t: Snapshot)
    requires forall n: nat :: FrameFile(n) !in d
    requires Readable(d, t.record.version) && ReadAll(d, t.record.version) == t
    requires Layout(d) == Some(t.record.version)
    requires Shapes(t) && CrossValid(t) && SpoolMatches(t.spool, EMPTY_FOLD, 0)
    ensures Load(e, d) == Some(t)
  {
    FrameNumbersAre(d);
    assert FrameNumbers(d) == {};
    assert FrameDocs(d) == [];
  }

  lemma NoRecordNoLayout(e: Ref, d: Disk)
    requires RecordFile(V1) !in d && RecordFile(V2) !in d
    ensures Load(e, d).None?
  {
    hide Readable, ReadAll, Shapes, CrossValid, ReplayAgrees;
    assert RecordFile(V1) in AuthorityFiles(V1) && RecordFile(V2) in AuthorityFiles(V2);
    assert RecordFile(V1) !in d.Keys * AuthorityFiles(V1) && RecordFile(V2) !in d.Keys * AuthorityFiles(V2);
  }

  lemma RecordIsLast(e: Ref, authority: Ref, identities: Private, supersedes: Option<Ref>)
    ensures var writes := CreateWrites(e, authority, identities, supersedes);
            forall i :: 0 <= i < |writes| - 1 ==> !writes[i].file.RecordFile?
  {
  }

  /** Creation cut anywhere is unreadable; creation completed is the fresh epoch. */
  lemma WritesCreate(e: Ref, authority: Ref, identities: Private, supersedes: Option<Ref>, cut: nat)
    requires Admitted(e, authority, supersedes) && Creatable(e, identities)
    ensures var writes := CreateWrites(e, authority, identities, supersedes);
            Load(e, Prefix(map[], writes, cut)) ==
            if cut < |writes| then None else Some(Created(e, authority, identities, supersedes))
  {
    hide Load, CreateWrites, Created;
    var writes := CreateWrites(e, authority, identities, supersedes);
    if cut < |writes| {
      RecordIsLast(e, authority, identities, supersedes);
      CreatePrefixHasNoRecord(writes, cut, V1);
      CreatePrefixHasNoRecord(writes, cut, V2);
      NoRecordNoLayout(e, Prefix(map[], writes, cut));
    } else {
      assert Prefix(map[], writes, cut) == Prefix(map[], writes, |writes|);
      if identities.PrivateV1? {
        CreateLandsV1(e, authority, identities, supersedes);
      } else {
        CreateLandsV2(e, authority, identities, supersedes);
      }
    }
  }

  /**
   Every admitted creation of a new ref takes the ref for good.  It leaves the fresh epoch if its
   identities and the ledger's ref are accepted and all its writes land, and an unreadable epoch otherwise.
   */
  lemma CreateAtomic(store: Store, e: Ref, call: Call, cut: nat)
    requires call.Create? && e !in store && Admitted(e, call.authority, call.supersedes)
    ensures var store' := Perform(store, e, call, cut).0;
            && e in store'
            && Load(e, store'[e]) ==
               if |e| <= 121 && PrivateOk(call.identities.(epoch := e))
                  && cut >= (if call.identities.PrivateV1? then 5 else 6)
               then Some(Created(e, call.authority, call.identities, call.supersedes)) else None
  {
    hide Load, CreateWrites, Created, RefOk, PrivateOk;
    LedgerRefOk(e);
    NoRecordNoLayout(e, map[]);
    if Creatable(e, call.identities) {
      WritesCreate(e, call.authority, call.identities, call.supersedes, cut);
      CreateCount(e, call.authority, call.identities, call.supersedes);
    }
  }

  /** Identities of one ASCII character each. */
  const SAMPLE: Private := PrivateV1("", [0x63], [0x76], [0x72], [0x31], [0x66], [0x73], [0x6B])

  lemma SampleOk(e: Ref)
    requires RefOk(e)
    ensures PrivateOk(SAMPLE.(epoch := e))
  {
    hide RefOk, ObjectBytes, IdentityOk, JsonBytes;
    assert |e| <= MAX_REF by { ShortRef(e); }
    forall c: Commitments.CodePoint | c in [0x63, 0x76, 0x72, 0x31, 0x66, 0x73, 0x6B]
      ensures IdentityOk([c]) && JsonBytes([c]) == 3
    {
      OneByte(c);
    }
    var common := [("schema", 32), ("epoch_ref", 2 + |e|), ("container_identity", 3), ("volume_identity", 3),
                   ("runner_identity", 3), ("salt", 3), ("spool_hmac_key", 3)];
    ObjectBound(common + [("artifact_row_id", 3), ("artifact_filename", 3)]);
  }

  lemma ShortRefs()
    ensures RefOk("NONE") && RefOk("first") && RefOk("next") && RefOk("owner")
  {
  }

  lemma ShortRef(e: Ref)
    requires RefOk(e)
    ensures |e| <= MAX_REF
  {
  }

  lemma OneByte(c: Commitments.CodePoint)
    requires 0x23 <= c < 0x5C || 0x5C < c < 0x7F
    ensures IdentityOk([c]) && JsonBytes([c]) == 3
  {
    assert Commitments.Utf8([c][1..]) == Some([]) && JsonBytes([c][1..]) == 2;
  }

  lemma CreateCount(e: Ref, authority: Ref, identities: Private, supersedes: Option<Ref>)
    ensures |CreateWrites(e, authority, identities, supersedes)| == if identities.PrivateV1? then 5 else 6
  {
  }

  // ---- The calls that only rewrite record and manifest ----

  /** The header a state-update call writes. */
  function NewHeader(s: Snapshot, call: Call): Header
    requires call.BindRow? || call.BindArtifact? || call.MarkReady? || call.Activate? || call.Supersede?
  {
    var h := s.record.header;
    match call
    case BindRow(rowId) => h.(artifactState := RowBound, artifactCommitment := Some(Sealed(ArtifactRow, [rowId])))
    case BindArtifact(rowId, filename) =>
      h.(artifactState := Bound, artifactCommitment := Some(Sealed(ArtifactRow, [rowId, filename])))
    case MarkReady => h.(state := Ready)
    case Activate => h.(state := Active)
    case Supersede(_) => h.(state := Superseded)
  }

  lemma BindRowConsistent(s: Snapshot, rowId: Identity)
    requires Shapes(s) && CrossValid(s) && DecideBindRow(s, rowId).Persist?
    ensures s.spool.state == SpoolOpen
    ensures var t := WithHeader(s, NewHeader(s, BindRow(rowId))); Shapes(t) && CrossValid(t)
  {
    hide RefOk, PrivateOk;
  }

  lemma BindArtifactConsistent(s: Snapshot, rowId: Identity, filename: Identity)
    requires Shapes(s) && CrossValid(s) && DecideBindArtifact(s, rowId, filename).Persist?
    ensures s.spool.state == SpoolOpen
    ensures var t := WithHeader(s, NewHeader(s, BindArtifact(rowId, filename))); Shapes(t) && CrossValid(t)
  {
    hide RefOk, PrivateOk;
  }

  lemma TransitionConsistent(s: Snapshot, from: EpochState, to: EpochState)
    requires Shapes(s) && CrossValid(s) && DecideTransition(s, from, to).Persist?
    requires (from == Initialised && to == Ready) || (from == Ready && to == Active)
    ensures s.spool.state == SpoolOpen
    ensures var t := WithState(s, to); Shapes(t) && CrossValid(t)
  {
    hide RefOk, PrivateOk;
  }

  lemma SupersedeConsistent(s: Snapshot)
    requires Shapes(s) && CrossValid(s) && !Terminal(s.record.header.state)
    ensures s.spool.state == SpoolOpen
    ensures var t := WithState(s, Superseded); Shapes(t) && CrossValid(t) <==> !SupersedeTooLate(s)
  {
    hide RefOk, PrivateOk;
  }

  lemma HeaderCallConsistent(store: Store, e: Ref, s: Snapshot, call: Call)
    requires call.BindRow? || call.BindArtifact? || call.MarkReady? || call.Activate? || call.Supersede?
    requires e in store && Load(e, store[e]) == Some(s)
    requires Decide(store, e, call).Persist?
    ensures Decide(store, e, call).writes == StateUpdate(s, NewHeader(s, call))
    ensures NewHeader(s, call) != s.record.header && s.spool.state == SpoolOpen
    ensures Intended(e, s, call) == WithHeader(s, NewHeader(s, call))
    ensures var t := WithHeader(s, NewHeader(s, call));
            Shapes(t) && CrossValid(t) <==> !LandsUnreadable(s, call)
  {
    hide RefOk, PrivateOk, Load, Shapes, CrossValid;
    assert Shapes(s) && CrossValid(s) by { LoadedFiles(e, store[e]); }
    match call
    case BindRow(rowId) => BindRowConsistent(s, rowId);
    case BindArtifact(rowId, filename) => BindArtifactConsistent(s, rowId, filename);
    case MarkReady => TransitionConsistent(s, Initialised, Ready);
    case Activate => TransitionConsistent(s, Ready, Active);
    case Supersede(_) => SupersedeConsistent(s);
  }

  lemma HeaderCallCut(store: Store, e: Ref, s: Snapshot, call: Call, cut: nat)
    requires call.BindRow? || call.BindArtifact? || call.MarkReady? || call.Activate? || call.Supersede?
    requires e in store && Load(e, store[e]) == Some(s)
    requires Decide(store, e, call).Persist?
    ensures var writes := Decide(store, e, call).writes;
            && |writes| == 2
            && Load(e, Prefix(store[e], writes, cut)) ==
               if cut == 0 then Some(s)
               else if cut == 1 || LandsUnreadable(s, call) then None
               else Some(Intended(e, s, call))
  {
    hide Load, Decide, Shapes, CrossValid, Intended, NewHeader, Readable, ReadAll;
    HeaderCallConsistent(store, e, s, call);
    var h, d := NewHeader(s, call), store[e];
    if LandsUnreadable(s, call) {
      StateUpdateAtomic(e, d, s, h, cut);
      if cut >= 2 {
        Reloads(e, d, Prefix(d, StateUpdate(s, h), cut), WithHeader(s, h));
      }
    } else {
      HeaderCallAtomic(e, d, s, h, cut);
    }
  }

  // ---- The theorem ----

  lemma CutDisk(store: Store, e: Ref, call: Call, cut: nat)
    requires Decide(store, e, call).Persist?
    ensures var store' := Perform(store, e, call, cut).0;
            && e in store' && store'[e] == Prefix(Base(store, e), Decide(store, e, call).writes, cut)
  {
    hide Decide;
  }

  lemma AtomicByCall(store: Store, e: Ref, s: Snapshot, call: Call, cut: nat)
    requires StoreOk(store) && e in store && Load(e, store[e]) == Some(s)
    requires Decide(store, e, call).Persist?
    ensures var writes := Decide(store, e, call).writes;
            && 2 <= |writes| <= 4
            && Load(e, Prefix(store[e], writes, cut)) ==
               if cut == 0 then Some(s)
               else if cut < |writes| || LandsUnreadable(s, call) then None
               else Some(Intended(e, s, call))
  {
    hide Load, DecideIngest, DecideConsume, DecideBindV2, DecidePrepare, DecideSupersede, DecideBindRow, DecideBindArtifact,
         DecideTransition, StoreOk, Prefix, AfterFrame, NextFrame, CreateWrites, DiskOk;
    assert DiskOk(e, store[e]) by { StoreDiskOk(store, e); }
    var d := store[e];
    if call.BindRow? || call.BindArtifact? || call.MarkReady? || call.Activate? || call.Supersede? {
      HeaderCallCut(store, e, s, call, cut);
    } else if call.BindV2? {
      BindV2Atomic(e, d, s, call.rowId, call.filename, cut);
    } else if call.ConsumeRestore? {
      ConsumeAtomic(e, d, s, call.transitionId, call.expected, call.data, cut);
    } else if call.AbandonEpoch? {
      IngestAtomic(e, d, s, NextFrame(s, Abandon, ABANDON_PAYLOAD), cut);
    } else if call.IngestFrame? {
      IngestAtomic(e, d, s, call.frame, cut);
    } else {
      NothingPersists(s, call);
    }
  }

  lemma NothingPersists(s: Snapshot, call: Call)
    requires call.PrepareFrame?
    ensures !DecidePrepare(s, call.stage, call.payload).Persist?
  {
  }

  lemma StoreDiskOk(store: Store, e: Ref)
    requires StoreOk(store) && e in store
    ensures DiskOk(e, store[e])
  {
  }

  lemma IngestAtomic(e: Ref, d: Disk, s: Snapshot, f: Frame, k: nat)
    requires Load(e, d) == Some(s) && DiskOk(e, d)
    requires !Terminal(s.record.header.state) && DecideIngest(s, d, f).Persist?
    ensures var writes := DecideIngest(s, d, f).writes;
            && 2 <= |writes| <= 4
            && Load(e, Prefix(d, writes, k)) ==
               if k == 0 then Some(s) else if k < |writes| then None else Some(AfterFrame(s, f))
  {
    hide Load, DecideIngest, AfterFrame, Prefix, DiskOk;
    if ClosesEpoch(f) {
      IngestClosingAtomic(e, d, s, f, k);
    } else {
      IngestOpenAtomic(e, d, s, f, k);
    }
  }

  /**
   Crash atomicity.  Cut before its first write, a call leaves what was there; cut later but before
   its last write, it leaves an epoch that fails to load; completed, it leaves exactly the intended
   snapshot, except for a supersession that comes too late, which leaves an epoch that fails to load.
   */
  lemma CrashAtomicity(store: Store, e: Ref, s: Snapshot, call: Call, cut: nat)
    requires StoreOk(store) && e in store && Load(e, store[e]) == Some(s)
    requires Decide(store, e, call).Persist?
    ensures var writes := Decide(store, e, call).writes;
            var store' := Perform(store, e, call, cut).0;
            && 2 <= |writes| <= 4 && e in store'
            && Load(e, store'[e]) ==
               if cut == 0 then Some(s)
               else if cut < |writes| || LandsUnreadable(s, call) then None
               else Some(Intended(e, s, call))
  {
    hide Load, DecideIngest, DecideConsume, DecideBindV2, DecidePrepare, Intended, StoreOk, Prefix;
    CutDisk(store, e, call, cut);
    AtomicByCall(store, e, s, call, cut);
  }

  lemma UnreadableRefuses(store: Store, e: Ref, call: Call)
    requires e in store && Load(e, store[e]).None?
    ensures Decide(store, e, call) == Refuse
  {
  }

  lemma UnreadableSuccessorRefuses(store: Store, x: Ref, e: Ref)
    requires e in store && Load(e, store[e]).None?
    ensures Decide(store, x, Supersede(e)) == Refuse
  {
  }

  lemma EffectElsewhere(store: Store, e: Ref, x: Ref, decision: Decision, cut: nat)
    requires e in store && (x == e ==> decision == Refuse)
    ensures var store' := Effect(store, x, decision, cut).0; e in store' && store'[e] == store[e]
  {
  }

  /** Once an epoch on disk fails to load, no call ever writes to it again, nor succeeds through it. */
  lemma FailClosed(store: Store, e: Ref, x: Ref, call: Call, cut: nat)
    requires e in store && Load(e, store[e]).None?
    ensures var (store', result) := Perform(store, x, call, cut);
            && e in store' && store'[e] == store[e]
            && (x == e || call == Supersede(e) ==> store' == store && result == Failed)
  {
    hide Load, Decide;
    UnreadableRefuses(store, e, call);
    UnreadableSuccessorRefuses(store, x, e);
    EffectElsewhere(store, e, x, Decide(store, x, call), cut);
  }
}
