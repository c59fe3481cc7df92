/**
 How calls on one epoch answer each other: what a completed call makes of the same call again, which
 frames a spool accepts, which creations use up their ref for nothing, and when a supersession comes too late.
 */
module EpochProtocol {
  import opened Wrappers
  import Commitments
  import opened EpochDocuments
  import opened EpochLoad
  import opened EpochCalls
  import opened EpochCrash
  import opened EpochHistory
  import opened EpochAtomicity
  import opened EpochRuns
  import opened EpochLifetime
  import Supersession

  /** A version-2 binding is written once: the same pair is answered again without a write, any other is refused. */
  lemma RebindV2(e: Ref, s: Snapshot, rowId: Identity, filename: Identity, rowAgain: Identity, filenameAgain: Identity)
    requires DecideBindV2(e, s, rowId, filename).Persist?
    ensures DecideBindV2(e, Intended(e, s, BindV2(rowId, filename)), rowAgain, filenameAgain) ==
            if rowAgain == rowId && filenameAgain == filename
            then Answer(BoundTo(Sealed(ArtifactRow, [rowId, filename]))) else Refuse
  {
    hide RowIdOk, FilenameOk, RefOk;
  }

  /** The epoch's version-2 binding names this pair, if the epoch can be read. */
  predicate Names(e: Ref, d: Disk, rowId: Identity, filename: Identity) {
    Load(e, d).Some? ==>
      var b := Load(e, d).value.binding;
      b.Some? && b.value.state == Bound && b.value.rowId == Some(rowId) && b.value.filename == Some(filename)
  }

  lemma IntendedKeepsBinding(e: Ref, d: Disk, s: Snapshot, call: Call)
    requires s.binding.Some? && s.binding.value.state == Bound
    requires !call.Create? && !call.Supersede? && DecideLoaded(e, s, d, call).Persist?
    ensures Intended(e, s, call).binding == s.binding
  {
    hide DecideIngest, StageAllowed, DecideConsume, RowIdOk, FilenameOk;
    if call.AbandonEpoch? {
      AfterFrameKeeps(s, NextFrame(s, Abandon, ABANDON_PAYLOAD));
    } else if call.IngestFrame? {
      AfterFrameKeeps(s, call.frame);
    }
  }

  lemma SupersedeKeepsBinding(e: Ref, s: Snapshot, successor: Ref)
    ensures Intended(e, s, Supersede(successor)).binding == s.binding
  {
  }

  lemma NamesStep(store: Store, e: Ref, x: Ref, call: Call, cut: nat, rowId: Identity, filename: Identity)
    requires StoreOk(store) && e in store && Names(e, store[e], rowId, filename)
    ensures e in Perform(store, x, call, cut).0
    ensures Names(e, DiskAfter(store, e, x, call, cut), rowId, filename)
  {
    hide Load, Decide, DecideLoaded, Intended, StoreOk, DiskAfter;
    PerformKeepsOk(store, x, call, cut);
    AttemptOutcome(store, e, x, call, cut);
    if x == e && !call.Create? && Decide(store, e, call).Persist? {
      PersistMeansLoaded(store, e, call);
      var s := Load(e, store[e]).value;
      if call.Supersede? {
        SupersedeKeepsBinding(e, s, call.successor);
      } else {
        IntendedKeepsBinding(e, store[e], s, call);
      }
    }
  }

  lemma {:induction false} NamesForever(store: Store, attempts: seq<Attempt>, e: Ref, i: nat, j: nat, rowId: Identity,
                                        filename: Identity)
    requires StoreOk(store) && i <= j <= |attempts|
    requires e in StoreAt(store, attempts, i) && Names(e, StoreAt(store, attempts, i)[e], rowId, filename)
    ensures e in StoreAt(store, attempts, j) && Names(e, StoreAt(store, attempts, j)[e], rowId, filename)
    decreases j - i
  {
    hide Perform, Names, StoreOk;
    if i < j {
      NamesForever(store, attempts, e, i, j - 1, rowId, filename);
      StoreStep(store, attempts, j - 1);
      RunKeepsOk(store, attempts[..j - 1]);
      var a := attempts[j - 1];
      NamesStep(StoreAt(store, attempts, j - 1), e, a.epoch, a.call, a.cut, rowId, filename);
    }
  }

  /** What a successful version-2 binding means for the disk before and after it. */
  lemma BindingMeaning(store: Store, e: Ref, rowId: Identity, filename: Identity, cut: nat)
    requires StoreOk(store) && Perform(store, e, BindV2(rowId, filename), cut).1.Done?
    ensures e in store && Load(e, store[e]).Some?
    ensures var b := Load(e, store[e]).value.binding;
            b.Some? && (b.value.state == Pending || (b.value.rowId == Some(rowId) && b.value.filename == Some(filename)))
    ensures var store' := Perform(store, e, BindV2(rowId, filename), cut).0;
            e in store' && Names(e, store'[e], rowId, filename)
  {
    hide Load, StoreOk, RowIdOk, FilenameOk, Prefix;
    var s := Load(e, store[e]).value;
    if DecideBindV2(e, s, rowId, filename).Persist? {
      StoreDiskOk(store, e);
      CutDisk(store, e, BindV2(rowId, filename), cut);
      hide DecideBindV2;
      BindV2Atomic(e, store[e], s, rowId, filename, cut);
    }
  }

  /** Over any run, every successful version-2 binding of an epoch names the same row and file as the first one. */
  lemma FirstBindingStands(store: Store, attempts: seq<Attempt>, i: nat, j: nat)
    requires StoreOk(store) && i < j < |attempts| && attempts[i].epoch == attempts[j].epoch
    requires attempts[i].call.BindV2? && attempts[j].call.BindV2?
    requires ResultAt(store, attempts, i).Done? && ResultAt(store, attempts, j).Done?
    ensures attempts[j].call == attempts[i].call
  {
    hide Perform, Load, StoreOk;
    var e, a, b := attempts[i].epoch, attempts[i], attempts[j];
    RunKeepsOk(store, attempts[..i]);
    RunKeepsOk(store, attempts[..j]);
    StoreStep(store, attempts, i);
    BindingMeaning(StoreAt(store, attempts, i), e, a.call.rowId, a.call.filename, a.cut);
    PerformKeepsOk(StoreAt(store, attempts, i), e, a.call, a.cut);
    NamesForever(store, attempts, e, i + 1, j, a.call.rowId, a.call.filename);
    BindingMeaning(StoreAt(store, attempts, j), e, b.call.rowId, b.call.filename, b.cut);
  }

  /** Restore authority is spent once: the same transition and data are answered again as idempotent, any other is refused. */
  lemma ConsumeAgain(e: Ref, s: Snapshot, id: string, expected: Commitment, data: string,
                     idAgain: string, expectedAgain: Commitment, dataAgain: string)
    requires DecideConsume(e, s, id, expected, data).Persist?
    ensures DecideConsume(e, Intended(e, s, ConsumeRestore(id, expected, data)), idAgain, expectedAgain, dataAgain) ==
            if idAgain == id && dataAgain == data then Answer(Permit(id, DataCommitment(data), true)) else Refuse
  {
    hide RowIdOk, FilenameOk, RefOk;
  }

  /** The first permit is a compare-and-swap: its caller named the exact ledger that was on disk. */
  lemma PermitNamesLedger(store: Store, e: Ref, call: Call, cut: nat)
    requires var result := Perform(store, e, call, cut).1; result.Done? && result.reply.Permit? && !result.reply.idempotent
    ensures call.ConsumeRestore? && e in store && Load(e, store[e]).Some?
    ensures call.expected == LedgerDigest(Load(e, store[e]).value.ledger)
    ensures Perform(store, e, call, cut).1.reply == Permit(call.transitionId, DataCommitment(call.data), false)
  {
    hide Load, BoundIfV2;
    PermitCaller(store, e, call, cut);
  }

  /** A frame is accepted only if it is, field by field, the frame the store itself would prepare next. */
  lemma OnlyTheNextFrame(s: Snapshot, d: Disk, f: Frame)
    requires !DecideIngest(s, d, f).Refuse?
    ensures f == NextFrame(s, f.stage, f.payload)
    ensures DecidePrepare(s, f.stage, f.payload) == Answer(Prepared(f))
  {
  }

  /** A prepared frame is always accepted: its payload passed the field bounds, so it is never too long. */
  lemma PreparedIsAccepted(e: Ref, d: Disk, s: Snapshot, stage: Stage, payload: Payload)
    requires Load(e, d) == Some(s) && DiskOk(e, d) && DecidePrepare(s, stage, payload).Answer?
    ensures var f := NextFrame(s, stage, payload); DecideIngest(s, d, f).Persist?
  {
    hide Load, CrossValid, SpoolShape, StageAllowed, PendingAbandonPayloadOk, Layout, Readable, ReadAll, FrameBytes, PayloadOk;
    var f := NextFrame(s, stage, payload);
    FrameFits(f);
    NeverStuck(e, d, s, f);
    NextNumber(e, d, s);
    assert FrameGenuine(s, f);
  }

  /** The next frame file does not exist yet. */
  lemma NextNumber(e: Ref, d: Disk, s: Snapshot)
    requires Load(e, d) == Some(s) && DiskOk(e, d)
    ensures s.spool.nextSequence >= 1 && FrameFile(s.spool.nextSequence) !in d
  {
    hide Load, CrossValid, Layout, Readable, ReadAll;
    LoadedFiles(e, d);
  }

  // ---- Creations that use up their ref ----

  lemma StuckMeaning(store: Store, e: Ref, call: Call, cut: nat)
    requires Decide(store, e, call).Stuck?
    ensures Perform(store, e, call, cut) == (store[e := map[]], Failed)
  {
    hide Decide;
    StuckIff(store, e, call);
    PrefixStep(map[], [], 0);
  }

  /**
   A creation that is rejected after it has made its directories burns its ref: in the rest of the run the
   epoch stays empty and unreadable, and every later call on it fails, a second creation included.
   */
  lemma {:induction false} RefBurned(store: Store, attempts: seq<Attempt>, e: Ref, i: nat, j: nat)
    requires i < j <= |attempts| && attempts[i].epoch == e
    requires Decide(StoreAt(store, attempts, i), e, attempts[i].call).Stuck?
    ensures e in StoreAt(store, attempts, j) && StoreAt(store, attempts, j)[e] == map[]
    ensures Load(e, StoreAt(store, attempts, j)[e]).None?
    ensures j < |attempts| && attempts[j].epoch == e ==> ResultAt(store, attempts, j) == Failed
    decreases j - i
  {
    hide Decide, Perform, Load;
    EmptyUnreadable(e);
    StoreStep(store, attempts, j - 1);
    var a := attempts[j - 1];
    if j == i + 1 {
      StuckMeaning(StoreAt(store, attempts, i), e, a.call, a.cut);
    } else {
      RefBurned(store, attempts, e, i, j - 1);
      FailClosed(StoreAt(store, attempts, j - 1), e, a.epoch, a.call, a.cut);
    }
    if j < |attempts| && attempts[j].epoch == e {
      FailClosed(StoreAt(store, attempts, j), e, e, attempts[j].call, attempts[j].cut);
    }
  }

  /** A ref of `n` letters. */
  function Letters(n: nat): Ref {
    seq(n, _ => 'a')
  }

  /** Refs of 122 to 128 characters are legal, and yet creating them gets stuck; shorter ones are created. */
  lemma LongRefs(n: nat)
    requires 1 <= n <= MAX_REF
    ensures var decision := Decide(map[], Letters(n), Create("owner", SAMPLE, None));
            if n <= 121 then decision.Persist? else decision == Stuck([])
  {
    hide PrivateOk;
    assert RefOk(Letters(n));
    SampleOk(Letters(n));
    StuckIff(map[], Letters(n), Create("owner", SAMPLE, None));
  }

  function Repeated(n: nat): Identity {
    seq(n, _ => 0x63)
  }

  lemma {:induction false} RepeatedBytes(n: nat)
    ensures Commitments.Utf8(Repeated(n)).Some? && |Commitments.Utf8(Repeated(n)).value| == n
    ensures JsonBytes(Repeated(n)) == n + 2
  {
    if n > 0 {
      RepeatedBytes(n - 1);
      assert Repeated(n)[1..] == Repeated(n - 1);
    }
  }

  /** Identities that are each within bounds can be too long together: here, four of `n` bytes each. */
  lemma LongIdentities(e: Ref, n: nat)
    requires RefOk(e) && 1 <= n <= MAX_IDENTITY_BYTES
    ensures var p := PrivateV2(e, Repeated(n), Repeated(n), Repeated(n), Repeated(n), [0x6B]);
            && IdentityOk(Repeated(n)) && IdentityOk([0x6B])
            && (PrivateOk(p) <==> |e| + 4 * n <= 32612)
  {
    hide RefOk, JsonBytes, IdentityOk;
    assert IdentityOk(Repeated(n)) && JsonBytes(Repeated(n)) == n + 2 by { RepeatedOk(n); }
    OneByte(0x6B);
    LongBytes(e, n + 2);
  }

  lemma RepeatedOk(n: nat)
    requires 1 <= n <= MAX_IDENTITY_BYTES
    ensures IdentityOk(Repeated(n)) && JsonBytes(Repeated(n)) == n + 2
  {
    RepeatedBytes(n);
  }

  lemma LongBytes(e: Ref, n: nat)
    ensures ObjectBytes([("schema", 32), ("epoch_ref", 2 + |e|), ("container_identity", n), ("volume_identity", n),
                         ("runner_identity", n), ("salt", n), ("spool_hmac_key", 3)]) == 148 + |e| + 4 * n
  {
    hide ObjectBytes;
    var key := [("spool_hmac_key", 3)];
    var salt := [("salt", n)] + key;
    var runner := [("runner_identity", n)] + salt;
    var volume := [("volume_identity", n)] + runner;
    var container := [("container_identity", n)] + volume;
    var ref := [("epoch_ref", 2 + |e|)] + container;
    OneMember("spool_hmac_key", 3, []);
    NoMembers();
    assert key == key + [];
    OneMember("salt", n, key);
    OneMember("runner_identity", n, salt);
    OneMember("volume_identity", n, runner);
    OneMember("container_identity", n, volume);
    OneMember("epoch_ref", 2 + |e|, container);
    OneMember("schema", 32, ref);
    assert [("schema", 32)] + ref ==
           [("schema", 32), ("epoch_ref", 2 + |e|), ("container_identity", n), ("volume_identity", n),
            ("runner_identity", n), ("salt", n), ("spool_hmac_key", 3)];
  }

  lemma NoMembers()
    ensures ObjectBytes([]) == 2
  {
  }

  lemma OneMember(name: string, value: nat, rest: seq<(string, nat)>)
    ensures ObjectBytes([(name, value)] + rest) == |name| + 4 + value + ObjectBytes(rest)
  {
    assert ([(name, value)] + rest)[1..] == rest;
  }

  // ---- Supersessions that come too late ----

  /** From every readable epoch that has not got so far, a run leads to a started runner. */
  lemma {:induction false} RunnerIsReachable(store: Store, e: Ref, s: Snapshot) returns (attempts: seq<Attempt>)
    requires StoreOk(store) && e in store && Load(e, store[e]) == Some(s) && !Terminal(s.record.header.state)
    requires s.spool.lastStage in {NoStage, EpochReady, RunnerStarted}
    ensures var after := Run(store, attempts);
            && e in after && StoreOk(after) && (forall x :: x in after && x != e ==> x in store)
            && Load(e, after[e]).Some? && !Terminal(Load(e, after[e]).value.record.header.state)
            && Load(e, after[e]).value.spool.lastStage == RunnerStarted
            && Load(e, after[e]).value.record.header.authority == s.record.header.authority
    decreases Rank(s)
  {
    hide Load, Decide, Intended, StoreOk, Perform, Rank, NextCall;
    if s.spool.lastStage == RunnerStarted {
      return [];
    }
    var payload := Payload(None, None, None, None);
    var call := NextCall(s, "first", "", payload);
    NextCallPersists(store, e, s, "first", "", payload);
    Completes(store, e, s, call);
    RankDecreases(store, e, s, call);
    PerformKeepsOk(store, e, call, 4);
    NextStageFirst(e, s, payload);
    Supersession.IntendedKeepsOrigin(e, s, call);
    var rest := RunnerIsReachable(Perform(store, e, call, 4).0, e, Intended(e, s, call));
    attempts := [Attempt(e, call, 4)] + rest;
    RunOneMore(store, rest, Attempt(e, call, 4));
  }

  lemma NextStageFirst(e: Ref, s: Snapshot, payload: Payload)
    requires s.spool.lastStage in {NoStage, EpochReady} && !Terminal(s.record.header.state)
    ensures var t := Intended(e, s, NextCall(s, "first", "", payload));
            t.spool.lastStage in {NoStage, EpochReady, RunnerStarted} && t.record.header.state != Consumed
  {
  }

  /** A successor made to replace a live epoch is accepted, and nothing else has changed so far. */
  lemma SuccessorAccepted(store: Store, e: Ref, s: Snapshot, successor: Ref, identities: Private)
    requires StoreOk(store) && e in store && Load(e, store[e]) == Some(s) && !Terminal(s.record.header.state)
    requires successor !in store
    requires RefOk(e) && RefOk(s.record.header.authority) && RefOk(successor) && Creatable(successor, identities)
    ensures var made := Perform(store, successor, Create(s.record.header.authority, identities, Some(e)), 6).0;
            && StoreOk(made) && e in made && made[e] == store[e]
            && Decide(made, e, Supersede(successor)).Persist?
  {
    hide Load, StoreOk, RefOk, PrivateOk, CreateWrites, Created;
    var create := Create(s.record.header.authority, identities, Some(e));
    CreateAtomic(store, successor, create, 6);
    LedgerRefOk(successor);
    PerformKeepsOk(store, successor, create, 6);
    ReplacementHeader(successor, s.record.header.authority, identities, e);
  }

  /**
   Every live epoch whose runner has started can be lost this way: a successor is created to replace it,
   the supersession passes its checks and writes both files, and the epoch no longer loads.
   */
  lemma TooLate(store: Store, e: Ref, s: Snapshot, successor: Ref, identities: Private)
    requires StoreOk(store) && e in store && Load(e, store[e]) == Some(s) && !Terminal(s.record.header.state)
    requires SupersedeTooLate(s) && successor !in store
    requires RefOk(e) && RefOk(s.record.header.authority) && RefOk(successor) && Creatable(successor, identities)
    ensures var made := Perform(store, successor, Create(s.record.header.authority, identities, Some(e)), 6).0;
            && Decide(made, e, Supersede(successor)).Persist?
            && Perform(made, e, Supersede(successor), 2).1 == Failed
            && e in Perform(made, e, Supersede(successor), 2).0
            && Load(e, Perform(made, e, Supersede(successor), 2).0[e]).None?
  {
    hide Load, StoreOk, Decide, Intended, LandsUnreadable, RefOk, PrivateOk, Prefix;
    SuccessorAccepted(store, e, s, successor, identities);
    var made := Perform(store, successor, Create(s.record.header.authority, identities, Some(e)), 6).0;
    CutDisk(made, e, Supersede(successor), 2);
    assert LandsUnreadable(s, Supersede(successor)) by { LateMeans(s, successor); }
    CrashAtomicity(made, e, s, Supersede(successor), 2);
  }

  lemma LateMeans(s: Snapshot, successor: Ref)
    ensures LandsUnreadable(s, Supersede(successor)) <==> SupersedeTooLate(s)
  {
  }

  lemma ReplacementHeader(e: Ref, authority: Ref, identities: Private, predecessor: Ref)
    ensures var h := Created(e, authority, identities, Some(predecessor)).record.header;
            h.state == Initialised && h.barrier == Text(SupersessionBarrier, [predecessor, e, authority])
  {
  }

  lemma FreshStart(e: Ref)
    requires RefOk(e) && |e| <= 121
    ensures var create := Create("owner", SAMPLE, None);
            var store := Perform(map[], e, create, 6).0;
            var s := Created(e, "owner", SAMPLE, None);
            && StoreOk(store) && store.Keys == {e} && Load(e, store[e]) == Some(s)
            && !Terminal(s.record.header.state) && s.spool.lastStage == NoStage && s.record.header.authority == "owner"
  {
    hide Load, RefOk, PrivateOk, CreateWrites, Perform;
    EmptyStoreOk();
    Supersession.FreshEpoch(map[], e);
  }

  /** Such a run exists, from an empty store to a supersession that makes its epoch unreadable. */
  lemma LateSupersession() returns (attempts: seq<Attempt>)
    ensures |attempts| > 0 && attempts[|attempts| - 1] == Attempt("first", Supersede("next"), 2)
    ensures Supersession.SupersededAt(attempts, |attempts| - 1)
    ensures ResultAt(map[], attempts, |attempts| - 1) == Failed
    ensures "first" in Run(map[], attempts) && Load("first", Run(map[], attempts)["first"]).None?
  {
    hide Load, StoreOk, RefOk, PrivateOk, Perform, Decide, Created;
    ShortRefs();
    var a, b := Attempt("first", Create("owner", SAMPLE, None), 6), Attempt("next", Create("owner", SAMPLE, Some("first")), 6);
    var c := Attempt("first", Supersede("next"), 2);
    FreshStart("first");
    var started := RunnerIsReachable(Perform(map[], "first", a.call, 6).0, "first", Created("first", "owner", SAMPLE, None));
    var before := [a] + started;
    RunOneMore(map[], started, a);
    var store := Run(map[], before);
    SampleOk("next");
    LedgerRefOk("next");
    TooLate(store, "first", Load("first", store["first"]).value, "next", SAMPLE);
    attempts := before + [b] + [c];
    var last := |attempts| - 1;
    assert attempts[..last] == before + [b] && (before + [b])[..last - 1] == before && attempts[..last + 1] == attempts;
    assert Run(map[], before + [b]) == Perform(store, "next", b.call, 6).0;
  }
}
