/**
 How long an epoch can live and how it can end: which snapshots a run can build, a measure that
 every completed call strictly decreases, and a path to COMMIT from every live epoch.
 */
module EpochLifetime {
  import opened Wrappers
  import Commitments
  import opened EpochDocuments
  import opened EpochLoad
  import opened EpochHistory
  import opened EpochCalls
  import opened EpochCrash
  import opened EpochAtomicity
  import opened EpochRuns

  // ---- The snapshots a run can build ----

  /** Restore authority is spent only after the runner has started. */
  predicate Lived(s: Snapshot) {
    s.ledger.state == LedgerConsumed ==> s.spool.lastStage in {RunnerStarted, RestoreBegin, Commit, Abandon}
  }

  lemma FrameKeepsLived(s: Snapshot, d: Disk, f: Frame)
    requires Lived(s) && DecideIngest(s, d, f).Persist?
    ensures Lived(AfterFrame(s, f))
  {
    hide FrameGenuine, PendingAbandonPayloadOk, SpoolShape;
  }

  lemma IntendedLived(e: Ref, d: Disk, s: Snapshot, call: Call)
    requires Lived(s)
    requires !call.Create? && !call.Supersede? && DecideLoaded(e, s, d, call).Persist?
    ensures Lived(Intended(e, s, call))
  {
    hide RowIdOk, FilenameOk, RefOk, DecideIngest, AfterFrame;
    if call.AbandonEpoch? {
      FrameKeepsLived(s, d, NextFrame(s, Abandon, ABANDON_PAYLOAD));
    } else if call.IngestFrame? {
      FrameKeepsLived(s, d, call.frame);
    }
  }

  /** The disk of epoch `e` after one attempt at any call; an absent epoch has an empty disk. */
  function DiskAfter(store: Store, e: Ref, x: Ref, call: Call, cut: nat): Disk {
    Base(Perform(store, x, call, cut).0, e)
  }

  /** What an attempt can do to one epoch: nothing, fail it closed, create it, or complete a call on it. */
  lemma AttemptOutcome(store: Store, e: Ref, x: Ref, call: Call, cut: nat)
    requires StoreOk(store)
    ensures var d' := DiskAfter(store, e, x, call, cut);
            || d' == Base(store, e)
            || Load(e, d').None?
            || (x == e && e !in store && call.Create? && Admitted(e, call.authority, call.supersedes) && Creatable(e, call.identities)
                && Load(e, d') == Some(Created(e, call.authority, call.identities, call.supersedes)))
            || (x == e && e in store && Load(e, store[e]).Some? && !call.Create? && Decide(store, e, call).Persist?
                && cut >= |Decide(store, e, call).writes| && !LandsUnreadable(Load(e, store[e]).value, call)
                && Load(e, d') == Some(Intended(e, Load(e, store[e]).value, call)))
  {
    hide Load, Decide, Intended, Created, StoreOk, CreateWrites, LandsUnreadable;
    StuckIff(store, x, call);
    if x == e && Decide(store, e, call).Persist? {
      CutDisk(store, e, call, cut);
      if call.Create? {
        CreateMeaning(store, e, call);
        WritesCreate(e, call.authority, call.identities, call.supersedes, cut);
      } else {
        PersistMeansLoaded(store, e, call);
        CrashAtomicity(store, e, Load(e, store[e]).value, call, cut);
        if cut == 0 {
          PrefixStep(store[e], Decide(store, e, call).writes, 0);
        }
      }
    }
  }

  lemma CreateMeaning(store: Store, e: Ref, call: Call)
    requires call.Create? && Decide(store, e, call).Persist?
    ensures e !in store && Decide(store, e, call).writes == CreateWrites(e, call.authority, call.identities, call.supersedes)
    ensures Admitted(e, call.authority, call.supersedes) && Creatable(e, call.identities)
  {
  }

  lemma PersistMeansLoaded(store: Store, e: Ref, call: Call)
    requires !call.Create? && Decide(store, e, call).Persist?
    ensures e in store && Load(e, store[e]).Some?
    ensures !call.Supersede? ==> Decide(store, e, call) == DecideLoaded(e, Load(e, store[e]).value, store[e], call)
    ensures call.Supersede? ==> !Terminal(Load(e, store[e]).value.record.header.state)
  {
    hide Load, DecideLoaded;
  }

  /** The live snapshot of an epoch satisfies the reachable-state invariant, if it loads at all. */
  predicate LivedOnDisk(e: Ref, d: Disk) {
    Load(e, d).Some? ==> Lived(Load(e, d).value)
  }

  lemma LivedStep(store: Store, e: Ref, x: Ref, call: Call, cut: nat)
    requires StoreOk(store) && LivedOnDisk(e, Base(store, e))
    ensures LivedOnDisk(e, DiskAfter(store, e, x, call, cut))
  {
    hide Load, Decide, DecideLoaded, Intended, Lived, StoreOk, DiskAfter;
    AttemptOutcome(store, e, x, call, cut);
    CreatedLived(e, call);
    if e in store && x == e && !call.Create? && Decide(store, e, call).Persist? {
      PersistMeansLoaded(store, e, call);
      var s := Load(e, store[e]).value;
      if call.Supersede? {
        SupersededLived(e, s, call.successor);
      } else {
        IntendedLived(e, store[e], s, call);
      }
    }
  }

  lemma CreatedLived(e: Ref, call: Call)
    ensures call.Create? ==> Lived(Created(e, call.authority, call.identities, call.supersedes))
  {
  }

  lemma SupersededLived(e: Ref, s: Snapshot, successor: Ref)
    ensures Lived(s) ==> Lived(Intended(e, s, Supersede(successor)))
  {
  }

  /** Every run keeps every readable epoch in the reachable shape. */
  lemma {:induction false} ReachableLived(attempts: seq<Attempt>, e: Ref)
    ensures LivedOnDisk(e, Base(Run(map[], attempts), e))
  {
    hide Perform, LivedOnDisk, StoreOk;
    if attempts == [] {
      EmptyUnreadable(e);
    } else {
      var last := |attempts| - 1;
      var a := attempts[last];
      RunKeepsOk(map[], attempts[..last]);
      ReachableLived(attempts[..last], e);
      LivedStep(Run(map[], attempts[..last]), e, a.epoch, a.call, a.cut);
    }
  }

  lemma EmptyUnreadable(e: Ref)
    ensures Load(e, map[]).None? && LivedOnDisk(e, map[])
  {
    NoRecordNoLayout(e, map[]);
  }

  /**
   The load checks admit spent authority before the runner has started, and in that state only an ACTIVE epoch.
   (Module EpochBuildable says which readable disks no run builds, exactly.)
   */
  lemma SpentTooEarly(e: Ref, d: Disk, s: Snapshot)
    requires Load(e, d) == Some(s)
    ensures !Lived(s) <==>
            s.ledger.state == LedgerConsumed && s.record.header.state == Active && s.spool.lastStage in {NoStage, EpochReady}
  {
    hide RefOk, PrivateOk, Load, Layout, Readable, ReadAll, ReplayAgrees;
    LoadedFiles(e, d);
  }

  lemma SpentWithoutFrames(e: Ref, identities: Private, id: string, data: string) returns (d: Disk)
    requires identities.PrivateV1? && RefOk(e) && RefOk(id) && Creatable(e, identities)
    ensures Load(e, d).Some? && !Lived(Load(e, d).value)
  {
    hide RefOk, PrivateOk, Load, Run, Layout;
    assert RefOk("owner") by { ShortRefs(); }
    var s := Created(e, "owner", identities, None);
    var t := WithHeader(s.(ledger := Ledger(e, LedgerConsumed, Some(id), Some("RESTORE_STARTED"), Some(DataCommitment(data)))),
                        s.record.header.(state := Active, ledgerState := LedgerConsumed));
    d := map[ManifestFile(V1) := ManifestDoc(t.manifest), PrivateFile(V1) := PrivateDoc(t.private),
             LedgerFile := LedgerDoc(t.ledger), SpoolFile := SpoolDoc(t.spool), RecordFile(V1) := RecordDoc(t.record)];
    V1Layout(d);
    FreshLoads(e, d, t);
  }

  lemma V1Layout(d: Disk)
    requires d.Keys == {ManifestFile(V1), PrivateFile(V1), LedgerFile, SpoolFile, RecordFile(V1)}
    ensures Layout(d) == Some(V1)
  {
    assert d.Keys * AuthorityFiles(V1) == AuthorityFiles(V1);
    assert d.Keys * AuthorityFiles(V2) == {};
  }

  /** Such a disk exists: the checks alone do not rule it out. */
  lemma SpentWithoutFramesLoads(e: Ref, identities: Private, id: string, data: string) returns (d: Disk)
    requires identities.PrivateV1? && RefOk(e) && RefOk(id) && Creatable(e, identities)
    ensures Load(e, d).Some? && !Lived(Load(e, d).value)
    ensures forall attempts: seq<Attempt> :: Base(Run(map[], attempts), e) != d
  {
    hide Load, Run;
    d := SpentWithoutFrames(e, identities, id, data);
    forall attempts: seq<Attempt>
      ensures Base(Run(map[], attempts), e) != d
    {
      ReachableLived(attempts, e);
    }
  }

  // ---- Offline replay of what the online checks built ----

  /** Every loadable epoch holds at most four frames and 65536 spool bytes, in a prefix of the one legal history. */
  lemma SpoolBounds(e: Ref, d: Disk, s: Snapshot)
    requires Load(e, d) == Some(s)
    ensures s.spool.frameCount == |FrameDocs(d)| <= 4
    ensures s.spool.totalBytes <= 65536 < MAX_TOTAL_SPOOL_BYTES
    ensures forall i :: 0 <= i < |FrameDocs(d)| ==> FrameDocs(d)[i].FrameDoc?
    ensures HistoryShape(Stages(FrameDocs(d)), s.spool.lastStage)
  {
    hide Load, CrossValid, Layout, Readable, ReadAll, Shapes, Replay;
    LoadedFiles(e, d);
    ReplayedHistory(ContextOf(e, s), FrameDocs(d));
  }

  /** A committed epoch has run the whole history, in order, with its authority spent. */
  lemma CommittedHistory(e: Ref, d: Disk, s: Snapshot)
    requires Load(e, d) == Some(s)
    ensures forall i :: 0 <= i < |FrameDocs(d)| ==> FrameDocs(d)[i].FrameDoc?
    ensures s.record.header.state == Consumed <==> s.spool.state == SpoolCommitted
    ensures s.record.header.state == Consumed <==> Stages(FrameDocs(d)) == [EpochReady, RunnerStarted, RestoreBegin, Commit]
    ensures s.record.header.state == Consumed ==> s.ledger.state == LedgerConsumed && s.spool.highestCommit == 4
  {
    hide Load, Layout, Readable, ReadAll, Shapes, Replay, Stages;
    LoadedFiles(e, d);
    ReplayedHistory(ContextOf(e, s), FrameDocs(d));
    WholeHistory(Stages(FrameDocs(d)), s.spool.lastStage);
  }

  lemma WholeHistory(stages: seq<Stage>, last: Stage)
    requires HistoryShape(stages, last)
    ensures last == Commit <==> stages == [EpochReady, RunnerStarted, RestoreBegin, Commit]
  {
    if last == Abandon {
      assert stages[|stages| - 1] == Abandon;
    }
  }

  /** A history built online replays offline: the stored metadata is the fold over the frame files, old and new. */
  lemma OnlineAgreesWithReplay(store: Store, e: Ref, s: Snapshot, f: Frame, cut: nat)
    requires StoreOk(store) && e in store && Load(e, store[e]) == Some(s)
    requires Perform(store, e, IngestFrame(f), cut).1.Done?
    ensures var d', t := DiskAfter(store, e, e, IngestFrame(f), cut), AfterFrame(s, f);
            && Load(e, d') == Some(t)
            && FrameDocs(d') == FrameDocs(store[e]) + [FrameDoc(f)]
            && var replayed := Replay(ContextOf(e, t), FrameDocs(d'));
               replayed.Some? && SpoolMatches(NextSpool(s.spool, f), replayed.value, |FrameDocs(d')|)
  {
    hide Load, DecideIngest, AfterFrame, StoreOk, Replay, SpoolMatches, FrameDocs, Prefix;
    var call := IngestFrame(f);
    var d := store[e];
    IngestAccepted(store, e, s, f, cut);
    StoreDiskOk(store, e);
    CutDisk(store, e, call, cut);
    var writes := DecideIngest(s, d, f).writes;
    IngestAtomic(e, d, s, f, cut);
    FrameFirst(s, d, f);
    var d' := Prefix(d, writes, cut);
    AppendedFrames(e, d, s, f, cut);
    AfterFrameKeeps(s, f);
    LoadedFiles(e, d');
  }

  lemma IngestAccepted(store: Store, e: Ref, s: Snapshot, f: Frame, cut: nat)
    requires e in store && Load(e, store[e]) == Some(s)
    requires Perform(store, e, IngestFrame(f), cut).1.Done?
    ensures !Terminal(s.record.header.state) && DecideIngest(s, store[e], f).Persist?
    ensures Decide(store, e, IngestFrame(f)) == DecideIngest(s, store[e], f)
    ensures cut >= |DecideIngest(s, store[e], f).writes|
  {
    hide Load, FrameGenuine, StageAllowed, PendingAbandonPayloadOk, SpoolShape;
  }

  lemma FrameFirst(s: Snapshot, d: Disk, f: Frame)
    requires DecideIngest(s, d, f).Persist?
    ensures var writes := DecideIngest(s, d, f).writes;
            && |writes| >= 2 && f.sequence >= 0 && writes[0] == Write(FrameFile(f.sequence), FrameDoc(f))
            && forall i :: 1 <= i < |writes| ==> !writes[i].file.FrameFile?
  {
  }

  lemma AppendedFrames(e: Ref, d: Disk, s: Snapshot, f: Frame, cut: nat)
    requires Load(e, d) == Some(s) && DiskOk(e, d) && !Terminal(s.record.header.state)
    requires DecideIngest(s, d, f).Persist? && cut >= |DecideIngest(s, d, f).writes|
    ensures FrameDocs(Prefix(d, DecideIngest(s, d, f).writes, cut)) == FrameDocs(d) + [FrameDoc(f)]
  {
    hide Load, DecideIngest, AfterFrame, FrameDocs;
    var writes := DecideIngest(s, d, f).writes;
    FrameFirst(s, d, f);
    IngestConsistent(e, d, s, f);
    assert Prefix(d, writes, cut) == Prefix(d, writes, |writes|);
    PrefixKeepsFrames(d, writes, |writes|);
    FrameDocsAppend(d, f.sequence, FrameDoc(f));
    FrameDocsSame(d[FrameFile(f.sequence) := FrameDoc(f)], Prefix(d, writes, cut));
  }

  // ---- No permit once the restore has begun ----

  /** After RESTORE_BEGIN an epoch either still says so or cannot be read. */
  predicate PastRestore(e: Ref, d: Disk) {
    Load(e, d).Some? ==> Load(e, d).value.spool.lastStage in {RestoreBegin, Commit, Abandon}
  }

  lemma IngestMovesOn(s: Snapshot, d: Disk, f: Frame)
    requires DecideIngest(s, d, f).Persist?
    ensures AfterFrame(s, f).spool.lastStage == f.stage
    ensures s.spool.lastStage in {RestoreBegin, Commit, Abandon} ==> f.stage in {Commit, Abandon}
  {
    hide FrameGenuine, PendingAbandonPayloadOk, SpoolShape;
  }

  lemma IntendedPastRestore(e: Ref, d: Disk, s: Snapshot, call: Call)
    requires s.spool.lastStage in {RestoreBegin, Commit, Abandon}
    requires !call.Create? && !call.Supersede? && DecideLoaded(e, s, d, call).Persist?
    ensures Intended(e, s, call).spool.lastStage in {RestoreBegin, Commit, Abandon}
  {
    hide RowIdOk, FilenameOk, RefOk, DecideIngest, AfterFrame;
    if call.AbandonEpoch? {
      IngestMovesOn(s, d, NextFrame(s, Abandon, ABANDON_PAYLOAD));
    } else if call.IngestFrame? {
      IngestMovesOn(s, d, call.frame);
    }
  }

  lemma SupersedeKeepsSpool(e: Ref, s: Snapshot, successor: Ref)
    ensures Intended(e, s, Supersede(successor)).spool == s.spool
  {
  }

  lemma PastRestoreStep(store: Store, e: Ref, x: Ref, call: Call, cut: nat)
    requires StoreOk(store) && e in store && PastRestore(e, store[e])
    ensures e in Perform(store, x, call, cut).0
    ensures PastRestore(e, DiskAfter(store, e, x, call, cut))
  {
    hide Load, Decide, DecideLoaded, Intended, StoreOk, DiskAfter;
    PerformKeepsOk(store, x, call, cut);
    AttemptOutcome(store, e, x, call, cut);
    if x == e && !call.Create? && Decide(store, e, call).Persist? {
      PersistMeansLoaded(store, e, call);
      var s := Load(e, store[e]).value;
      if call.Supersede? {
        SupersedeKeepsSpool(e, s, call.successor);
      } else {
        IntendedPastRestore(e, store[e], s, call);
      }
    }
  }

  lemma {:induction false} PastRestoreForever(store: Store, attempts: seq<Attempt>, e: Ref, i: nat, j: nat)
    requires StoreOk(store) && i <= j <= |attempts|
    requires e in StoreAt(store, attempts, i) && PastRestore(e, Base(StoreAt(store, attempts, i), e))
    ensures e in StoreAt(store, attempts, j) && PastRestore(e, Base(StoreAt(store, attempts, j), e))
    decreases j - i
  {
    hide Perform, PastRestore, StoreOk;
    if i < j {
      PastRestoreForever(store, attempts, e, i, j - 1);
      StoreStep(store, attempts, j - 1);
      RunKeepsOk(store, attempts[..j - 1]);
      var a := attempts[j - 1];
      PastRestoreStep(StoreAt(store, attempts, j - 1), e, a.epoch, a.call, a.cut);
    }
  }

  /** A RESTORE_BEGIN frame that leaves any trace on disk closes the permit window. */
  lemma RestoreBeginCloses(store: Store, e: Ref, call: Call, cut: nat)
    requires StoreOk(store) && e in store
    requires call.IngestFrame? && call.frame.stage == RestoreBegin
    requires DiskAfter(store, e, e, call, cut) != store[e]
    ensures PastRestore(e, DiskAfter(store, e, e, call, cut))
  {
    hide Load, Decide, DecideIngest, StoreOk, DiskAfter, AfterFrame;
    AttemptOutcome(store, e, e, call, cut);
    if Decide(store, e, call).Persist? {
      PersistMeansLoaded(store, e, call);
      IngestMovesOn(Load(e, store[e]).value, store[e], call.frame);
    }
  }

  /** Once a RESTORE_BEGIN frame has put anything on disk, the run returns no permit for its epoch. */
  lemma NoPermitAfterRestoreBegin(store: Store, attempts: seq<Attempt>, e: Ref, i: nat, j: nat)
    requires StoreOk(store) && i < j <= |attempts|
    requires attempts[i].epoch == e && attempts[i].call.IngestFrame? && attempts[i].call.frame.stage == RestoreBegin
    requires e in StoreAt(store, attempts, i)
    requires Base(StoreAt(store, attempts, i + 1), e) != Base(StoreAt(store, attempts, i), e)
    ensures !PermitAt(store, attempts, e, j)
  {
    hide Perform, Load, StoreOk;
    var a, before := attempts[i], StoreAt(store, attempts, i);
    RunKeepsOk(store, attempts[..i]);
    StoreStep(store, attempts, i);
    PerformKeepsOk(before, e, a.call, a.cut);
    RestoreBeginCloses(before, e, a.call, a.cut);
    PastRestoreForever(store, attempts, e, i + 1, j);
    if PermitAt(store, attempts, e, j) {
      RunKeepsOk(store, attempts[..j]);
      PermitMeaning(StoreAt(store, attempts, j), e, attempts[j].call, attempts[j].cut);
    }
  }

  // ---- The lifetime measure ----

  function StageLeft(stage: Stage): nat {
    match stage
    case NoStage => 4
    case EpochReady => 3
    case RunnerStarted => 2
    case RestoreBegin => 1
    case Commit => 0
    case Abandon => 0
  }

  /** How many more completed calls a readable epoch can take. */
  function Rank(s: Snapshot): nat {
    var h := s.record.header;
    if Terminal(h.state) then 0
    else
      (match h.artifactState case Pending => (if s.record.version == V1 then 2 else 1) case RowBound => 1 case Bound => 0)
      + (match h.state case Initialised => 2 case Ready => 1 case _ => 0)
      + (if s.ledger.state == LedgerUnconsumed then 1 else 0)
      + StageLeft(s.spool.lastStage)
  }

  lemma CreatedRank(e: Ref, authority: Ref, identities: Private, supersedes: Option<Ref>)
    ensures Rank(Created(e, authority, identities, supersedes)) == if identities.PrivateV1? then 9 else 8
  {
  }

  lemma FrameDropsRank(s: Snapshot, d: Disk, f: Frame)
    requires CrossValid(s) && !Terminal(s.record.header.state) && DecideIngest(s, d, f).Persist?
    ensures Rank(AfterFrame(s, f)) < Rank(s)
  {
    hide FrameGenuine, PendingAbandonPayloadOk, SpoolShape;
  }

  lemma OtherDropsRank(e: Ref, d: Disk, s: Snapshot, call: Call)
    requires !call.Create? && !call.Supersede? && !call.AbandonEpoch? && !call.IngestFrame?
    requires Shapes(s) && CrossValid(s) && DecideLoaded(e, s, d, call).Persist?
    ensures Rank(Intended(e, s, call)) < Rank(s)
  {
    hide RowIdOk, FilenameOk, RefOk, PrivateOk;
  }

  lemma SupersedeDropsRank(e: Ref, s: Snapshot, successor: Ref)
    requires CrossValid(s) && !Terminal(s.record.header.state)
    ensures Rank(Intended(e, s, Supersede(successor))) < Rank(s)
  {
  }

  /** Every call that completes its writes strictly lowers the rank. */
  lemma RankDecreases(store: Store, e: Ref, s: Snapshot, call: Call)
    requires e in store && Load(e, store[e]) == Some(s)
    requires !call.Create? && Decide(store, e, call).Persist?
    ensures Rank(Intended(e, s, call)) < Rank(s)
  {
    hide Load, Decide, DecideIngest, Intended, CrossValid, Shapes, Rank, StageAllowed;
    LoadedFiles(e, store[e]);
    PersistMeansLoaded(store, e, call);
    if call.Supersede? {
      SupersedeDropsRank(e, s, call.successor);
    } else if call.AbandonEpoch? {
      IntendedFrames(e, s, call);
      FrameDropsRank(s, store[e], NextFrame(s, Abandon, ABANDON_PAYLOAD));
    } else if call.IngestFrame? {
      IntendedFrames(e, s, call);
      FrameDropsRank(s, store[e], call.frame);
    } else {
      OtherDropsRank(e, store[e], s, call);
    }
  }

  lemma IntendedFrames(e: Ref, s: Snapshot, call: Call)
    ensures call.AbandonEpoch? ==> Intended(e, s, call) == AfterFrame(s, NextFrame(s, Abandon, ABANDON_PAYLOAD))
    ensures call.IngestFrame? ==> Intended(e, s, call) == AfterFrame(s, call.frame)
  {
  }

  /** How many attempts of the run completed a writing call on `e`. */
  function Changes(store: Store, attempts: seq<Attempt>, e: Ref): nat {
    if attempts == [] then 0
    else
      var last := |attempts| - 1;
      Changes(store, attempts[..last], e)
      + (var a := attempts[last]; var before := Run(store, attempts[..last]);
         if a.epoch == e && Perform(before, e, a.call, a.cut).1.Done? && Decide(before, e, a.call).Persist? then 1 else 0)
  }

  function RankOnDisk(e: Ref, d: Disk): nat {
    if Load(e, d).Some? then Rank(Load(e, d).value) else 0
  }

  lemma ChangeStep(store: Store, e: Ref, x: Ref, call: Call, cut: nat)
    requires StoreOk(store) && e in store
    ensures e in Perform(store, x, call, cut).0
    ensures RankOnDisk(e, DiskAfter(store, e, x, call, cut)) <= RankOnDisk(e, store[e])
    ensures x == e && Perform(store, e, call, cut).1.Done? && Decide(store, e, call).Persist? ==>
            RankOnDisk(e, DiskAfter(store, e, x, call, cut)) < RankOnDisk(e, store[e])
  {
    hide Load, Decide, Intended, StoreOk, Rank, LandsUnreadable;
    PerformKeepsOk(store, x, call, cut);
    AttemptOutcome(store, e, x, call, cut);
    if x == e && Decide(store, e, call).Persist? {
      if call.Create? {
        CreateMeaning(store, e, call);
      } else {
        PersistMeansLoaded(store, e, call);
        var s := Load(e, store[e]).value;
        RankDecreases(store, e, s, call);
        CutDisk(store, e, call, cut);
        CrashAtomicity(store, e, s, call, cut);
      }
    }
  }

  /** No run completes more writing calls on an existing epoch than its rank: at most nine after creation. */
  lemma {:induction false} LifetimeBound(store: Store, attempts: seq<Attempt>, e: Ref)
    requires StoreOk(store) && e in store
    ensures Changes(store, attempts, e) + RankOnDisk(e, Base(Run(store, attempts), e)) <= RankOnDisk(e, store[e])
    ensures e in Run(store, attempts)
  {
    hide Perform, Decide, RankOnDisk, StoreOk;
    if attempts != [] {
      var last := |attempts| - 1;
      var a := attempts[last];
      LifetimeBound(store, attempts[..last], e);
      RunKeepsOk(store, attempts[..last]);
      ChangeStep(Run(store, attempts[..last]), e, a.epoch, a.call, a.cut);
    }
  }

  lemma RankBounded(s: Snapshot)
    ensures Rank(s) <= 9
  {
  }

  /** After its creation an epoch completes at most nine writing calls, in any run. */
  lemma NineCalls(store: Store, attempts: seq<Attempt>, e: Ref)
    requires StoreOk(store) && e in store
    ensures Changes(store, attempts, e) <= 9
  {
    hide Load, Rank, Changes;
    LifetimeBound(store, attempts, e);
    if Load(e, store[e]).Some? {
      RankBounded(Load(e, store[e]).value);
    }
  }

  // ---- Every live epoch can still be committed ----

  /** One call that moves a live epoch towards COMMIT. */
  function NextCall(s: Snapshot, id: string, data: string, payload: Payload): Call {
    var h := s.record.header;
    if s.record.version == V2 && h.artifactState == Pending then BindV2([0x31], [0x66])
    else if h.state == Initialised then MarkReady
    else if h.state == Ready then Activate
    else if s.spool.lastStage == RunnerStarted && s.ledger.state == LedgerUnconsumed
    then ConsumeRestore(id, LedgerDigest(s.ledger), data)
    else IngestFrame(NextFrame(s, NextStage(s.spool.lastStage), payload))
  }

  function NextStage(stage: Stage): Stage {
    match stage
    case NoStage => EpochReady
    case EpochReady => RunnerStarted
    case RunnerStarted => RestoreBegin
    case _ => Commit
  }

  lemma PlainNames()
    ensures RowIdOk([0x31]) && FilenameOk([0x66])
  {
    assert Commitments.Utf8([0x66][1..]) == Some([]) && Decimal([0x31][..0]) == 0;
  }

  lemma SetupCallPersists(e: Ref, d: Disk, s: Snapshot, id: string, data: string, payload: Payload)
    requires RefOk(id)
    requires Shapes(s) && CrossValid(s) && !Terminal(s.record.header.state)
    requires !NextCall(s, id, data, payload).IngestFrame?
    ensures var call := NextCall(s, id, data, payload);
            && !call.Create? && !call.Supersede?
            && DecideLoaded(e, s, d, call).Persist?
            && Intended(e, s, call).record.header.state in {Initialised, Ready, Active}
  {
    hide RowIdOk, FilenameOk, RefOk, PrivateOk;
    assert RowIdOk([0x31]) && FilenameOk([0x66]) by { PlainNames(); }
  }

  lemma FrameCallPersists(e: Ref, d: Disk, s: Snapshot, id: string, data: string, payload: Payload)
    requires Shapes(s) && CrossValid(s) && !Terminal(s.record.header.state)
    requires s.spool.frameCount == |FrameNumbers(d)| <= 4 && s.spool.totalBytes <= 65536 && Consecutive(d)
    requires PayloadOk(payload)
    requires NextCall(s, id, data, payload).IngestFrame?
    ensures var call := NextCall(s, id, data, payload);
            && DecideIngest(s, d, call.frame).Persist?
            && AfterFrame(s, call.frame).record.header.state in {Active, Consumed}
  {
    hide FrameBytes, PayloadOk, TextOk, RowIdOk, FilenameOk, RefOk, PrivateOk;
    OpenSpool(s);
    var f := NextFrame(s, NextStage(s.spool.lastStage), payload);
    assert FrameFile(f.sequence) !in d;
    assert StageAllowed(s, f.stage);
    assert FrameGenuine(s, f);
    FrameFits(f);
    assert SpoolShape(NextSpool(s.spool, f));
  }

  lemma NextCallPersists(store: Store, e: Ref, s: Snapshot, id: string, data: string, payload: Payload)
    requires RefOk(id)
    requires StoreOk(store) && e in store && Load(e, store[e]) == Some(s) && !Terminal(s.record.header.state)
    requires PayloadOk(payload)
    ensures var call := NextCall(s, id, data, payload);
            && !call.Create? && !call.Supersede?
            && Decide(store, e, call).Persist?
            && Intended(e, s, call).record.header.state in {Initialised, Ready, Active, Consumed}
  {
    hide Load, DecideIngest, DecideConsume, DecideBindV2, DecideTransition, StoreOk, Shapes, CrossValid, AfterFrame, FrameDocs,
         Layout, Readable, ReadAll, Replay;
    LoadedFiles(e, store[e]);
    StoreDiskOk(store, e);
    SpoolBounds(e, store[e], s);
    if NextCall(s, id, data, payload).IngestFrame? {
      FrameCallPersists(e, store[e], s, id, data, payload);
    } else {
      SetupCallPersists(e, store[e], s, id, data, payload);
    }
  }

  lemma Completes(store: Store, e: Ref, s: Snapshot, call: Call)
    requires StoreOk(store) && e in store && Load(e, store[e]) == Some(s)
    requires !call.Create? && !call.Supersede? && Decide(store, e, call).Persist?
    ensures var (store', result) := Perform(store, e, call, 4);
            && result.Done? && e in store' && Load(e, store'[e]) == Some(Intended(e, s, call))
  {
    hide Load, Decide, Intended, StoreOk, Prefix;
    CrashAtomicity(store, e, s, call, 4);
    CutDisk(store, e, call, 4);
  }

  lemma RunOneMore(store: Store, attempts: seq<Attempt>, a: Attempt)
    ensures Run(store, [a] + attempts) == Run(Perform(store, a.epoch, a.call, a.cut).0, attempts)
  {
    hide Perform;
    if attempts == [] {
      assert [a] + attempts == [a];
      assert Run(store, []) == store;
    } else {
      var last := |attempts| - 1;
      RunOneMore(store, attempts[..last], a);
      assert ([a] + attempts)[..last + 1] == [a] + attempts[..last];
    }
  }

  /** From every readable epoch that is not terminal, at most Rank more calls end in COMMIT. */
  lemma {:induction false} CommitIsReachable(store: Store, e: Ref, s: Snapshot, id: string, data: string, payload: Payload)
    returns (attempts: seq<Attempt>)
    requires RefOk(id)
    requires StoreOk(store) && e in store && Load(e, store[e]) == Some(s) && !Terminal(s.record.header.state)
    requires PayloadOk(payload)
    ensures |attempts| <= Rank(s)
    ensures var d' := Base(Run(store, attempts), e);
            Load(e, d').Some? && Load(e, d').value.record.header.state == Consumed
    decreases Rank(s)
  {
    hide Load, Decide, Intended, StoreOk, Perform, Rank, NextCall;
    var call := NextCall(s, id, data, payload);
    NextCallPersists(store, e, s, id, data, payload);
    Completes(store, e, s, call);
    RankDecreases(store, e, s, call);
    PerformKeepsOk(store, e, call, 4);
    var store', t := Perform(store, e, call, 4).0, Intended(e, s, call);
    var rest := [];
    if t.record.header.state != Consumed {
      rest := CommitIsReachable(store', e, t, id, data, payload);
    }
    attempts := [Attempt(e, call, 4)] + rest;
    RunOneMore(store, rest, Attempt(e, call, 4));
  }
}
