/**
 Runs: any number of attempts at any calls on any epochs, each cut anywhere.
 Calls on one epoch hold its lock, so a run is a sequence of whole attempts.
 */
module EpochRuns {
  import opened Wrappers
  import opened EpochDocuments
  import opened EpochLoad
  import opened EpochHistory
  import opened EpochCalls
  import opened EpochCrash
  import opened EpochAtomicity

  datatype Attempt = Attempt(epoch: Ref, call: Call, cut: nat)

  function Run(store: Store, attempts: seq<Attempt>): Store {
    if attempts == [] then store
    else
      var last := |attempts| - 1;
      var a := attempts[last];
      Perform(Run(store, attempts[..last]), a.epoch, a.call, a.cut).0
  }

  /** The store just before attempt `i`. */
  function StoreAt(store: Store, attempts: seq<Attempt>, i: nat): Store
    requires i <= |attempts|
  {
    Run(store, attempts[..i])
  }

  function ResultAt(store: Store, attempts: seq<Attempt>, i: nat): Result
    requires i < |attempts|
  {
    Perform(StoreAt(store, attempts, i), attempts[i].epoch, attempts[i].call, attempts[i].cut).1
  }

  lemma StoreStep(store: Store, attempts: seq<Attempt>, i: nat)
    requires i < |attempts|
    ensures var a := attempts[i];
            StoreAt(store, attempts, i + 1) == Perform(StoreAt(store, attempts, i), a.epoch, a.call, a.cut).0
  {
    assert attempts[..i + 1][..i] == attempts[..i];
  }

  lemma {:induction false} RunKeepsOk(store: Store, attempts: seq<Attempt>)
    requires StoreOk(store)
    ensures StoreOk(Run(store, attempts))
    ensures forall e :: e in store ==> e in Run(store, attempts)
  {
    if attempts != [] {
      var last := |attempts| - 1;
      RunKeepsOk(store, attempts[..last]);
      PerformKeepsOk(Run(store, attempts[..last]), attempts[last].epoch, attempts[last].call, attempts[last].cut);
    }
  }

  lemma EmptyStoreOk()
    ensures StoreOk(map[])
  {
  }

  // ---- Facts on disk that no attempt can undo ----

  lemma {:induction false} PrefixKeepsFile(d: Disk, writes: seq<Write>, f: File, k: nat)
    requires forall i :: 0 <= i < |writes| ==> writes[i].file != f
    requires k <= |writes|
    ensures f in d <==> f in Prefix(d, writes, k)
    ensures f in d ==> Prefix(d, writes, k)[f] == d[f]
  {
    PrefixStep(d, writes, 0);
    if k > 0 {
      PrefixKeepsFile(d, writes, f, k - 1);
      PrefixStep(d, writes, k - 1);
    }
  }

  predicate Writes(decision: Decision, f: File) {
    match decision
    case Persist(writes, _) => exists i :: 0 <= i < |writes| && writes[i].file == f
    case Stuck(writes) => exists i :: 0 <= i < |writes| && writes[i].file == f
    case _ => false
  }

  lemma EffectKeepsFile(store: Store, e: Ref, x: Ref, decision: Decision, f: File, cut: nat)
    requires e in store && (x == e ==> !Writes(decision, f))
    ensures var store' := Effect(store, x, decision, cut).0;
            && e in store'
            && (f in store[e] <==> f in store'[e])
            && (f in store[e] ==> store'[e][f] == store[e][f])
  {
    if x == e {
      match decision
      case Persist(writes, _) => PrefixKeepsFile(store[e], writes, f, Min(cut, |writes|));
      case Stuck(writes) => PrefixKeepsFile(store[e], writes, f, Min(cut, |writes|));
      case Refuse =>
      case Answer(_) =>
    }
  }

  lemma IngestLeavesLedger(s: Snapshot, d: Disk, f: Frame)
    ensures !Writes(DecideIngest(s, d, f), LedgerFile)
  {
  }

  lemma LoadedLedgerWriter(e: Ref, s: Snapshot, d: Disk, call: Call)
    requires !call.Create? && !call.Supersede?
    requires Writes(DecideLoaded(e, s, d, call), LedgerFile)
    ensures call.ConsumeRestore? && s.ledger.state == LedgerUnconsumed
  {
    hide RowIdOk, FilenameOk, RefOk;
    if call.AbandonEpoch? {
      IngestLeavesLedger(s, d, NextFrame(s, Abandon, ABANDON_PAYLOAD));
    } else if call.IngestFrame? {
      IngestLeavesLedger(s, d, call.frame);
    }
  }

  lemma SupersedeLeavesLedger(store: Store, e: Ref, successor: Ref)
    ensures !Writes(Decide(store, e, Supersede(successor)), LedgerFile)
  {
    hide Load;
  }

  /** Only a successful restore check on an unspent, readable ledger writes the ledger of an existing epoch. */
  lemma LedgerWriter(store: Store, e: Ref, call: Call)
    requires e in store && Writes(Decide(store, e, call), LedgerFile)
    ensures call.ConsumeRestore?
    ensures LedgerFile in store[e] && store[e][LedgerFile].LedgerDoc?
    ensures store[e][LedgerFile].ledger.state == LedgerUnconsumed
  {
    hide Load, DecideLoaded, DecideSupersede;
    if !call.Create? && !call.Supersede? && Load(e, store[e]).Some? {
      LoadedLedgerWriter(e, Load(e, store[e]).value, store[e], call);
      LedgerOnDisk(e, store[e]);
    } else if call.Supersede? {
      SupersedeLeavesLedger(store, e, call.successor);
    }
  }

  predicate Spent(d: Disk, ledger: Ledger) {
    LedgerFile in d && d[LedgerFile] == LedgerDoc(ledger) && ledger.state == LedgerConsumed
  }

  lemma SpentStays(store: Store, e: Ref, ledger: Ledger, x: Ref, call: Call, cut: nat)
    requires e in store && Spent(store[e], ledger)
    ensures var store' := Perform(store, x, call, cut).0; e in store' && Spent(store'[e], ledger)
  {
    if x == e && Writes(Decide(store, e, call), LedgerFile) {
      LedgerWriter(store, e, call);
    }
    EffectKeepsFile(store, e, x, Decide(store, x, call), LedgerFile, cut);
  }

  lemma {:induction false} SpentForever(store: Store, attempts: seq<Attempt>, e: Ref, ledger: Ledger, i: nat, j: nat)
    requires i <= j <= |attempts|
    requires var before := StoreAt(store, attempts, i); e in before && Spent(before[e], ledger)
    ensures var after := StoreAt(store, attempts, j); e in after && Spent(after[e], ledger)
    decreases j - i
  {
    hide Perform, Spent;
    if i < j {
      SpentForever(store, attempts, e, ledger, i, j - 1);
      StoreStep(store, attempts, j - 1);
      var a := attempts[j - 1];
      SpentStays(StoreAt(store, attempts, j - 1), e, ledger, a.epoch, a.call, a.cut);
    }
  }

  // ---- The restore authority is one-way ----

  predicate PermitAt(store: Store, attempts: seq<Attempt>, e: Ref, i: nat) {
    && i < |attempts| && attempts[i].epoch == e
    && ResultAt(store, attempts, i).Done? && ResultAt(store, attempts, i).reply.Permit?
  }

  lemma LedgerOnDisk(e: Ref, d: Disk)
    requires Load(e, d).Some?
    ensures LedgerFile in d && d[LedgerFile] == LedgerDoc(Load(e, d).value.ledger)
    ensures Load(e, d).value.record.header.epoch == Load(e, d).value.ledger.epoch
    ensures LedgerShape(Load(e, d).value.ledger)
  {
  }

  lemma ConsumeDecision(e: Ref, d: Disk, s: Snapshot, id: string, expected: Commitment, data: string, cut: nat)
    requires Load(e, d) == Some(s) && DiskOk(e, d)
    requires DecideConsume(e, s, id, expected, data).Persist?
    requires cut >= |DecideConsume(e, s, id, expected, data).writes|
    ensures var d' := Prefix(d, DecideConsume(e, s, id, expected, data).writes, cut);
            Spent(d', Intended(e, s, ConsumeRestore(id, expected, data)).ledger)
  {
    hide Load, DecideConsume, DiskOk, Prefix;
    ConsumeAtomic(e, d, s, id, expected, data, cut);
    var d' := Prefix(d, DecideConsume(e, s, id, expected, data).writes, cut);
    LedgerOnDisk(e, d');
  }

  /** What a permit says about the ledger before and after it. */
  lemma PermitMeaning(store: Store, e: Ref, call: Call, cut: nat)
    requires StoreOk(store)
    requires var result := Perform(store, e, call, cut).1; result.Done? && result.reply.Permit?
    ensures e in store && Load(e, store[e]).Some?
    ensures var s := Load(e, store[e]).value; var permit := Perform(store, e, call, cut).1.reply;
            && s.spool.lastStage == RunnerStarted && s.record.header.state == Active
            && (permit.idempotent <==> s.ledger.state == LedgerConsumed)
    ensures var permit := Perform(store, e, call, cut).1.reply;
            var store' := Perform(store, e, call, cut).0;
            e in store' && Spent(store'[e], Ledger(LedgerEpoch(store, e), LedgerConsumed, Some(permit.transitionId),
                                                   Some("RESTORE_STARTED"), Some(permit.data)))
  {
    hide Load, StoreOk, BoundIfV2;
    assert call.ConsumeRestore? by { PermitCaller(store, e, call, cut); }
    var s := Load(e, store[e]).value;
    LedgerOnDisk(e, store[e]);
    StoreDiskOk(store, e);
    assert s.record.header.epoch == e by { LoadedFiles(e, store[e]); }
    if DecideConsume(e, s, call.transitionId, call.expected, call.data).Persist? {
      ConsumeDecision(e, store[e], s, call.transitionId, call.expected, call.data, cut);
    }
  }

  function LedgerEpoch(store: Store, e: Ref): Ref
    requires e in store && Load(e, store[e]).Some?
  {
    Load(e, store[e]).value.record.header.epoch
  }

  lemma LoadedPermitCaller(e: Ref, s: Snapshot, d: Disk, call: Call, reply: Reply)
    requires !call.Create? && !call.Supersede? && reply.Permit?
    requires var decision := DecideLoaded(e, s, d, call);
             decision == Answer(reply) || (decision.Persist? && decision.reply == reply)
    ensures call.ConsumeRestore?
  {
    hide RowIdOk, FilenameOk, RefOk, FrameGenuine, StageAllowed, PendingAbandonPayloadOk, SpoolShape, FrameShape;
  }

  lemma PermitCaller(store: Store, e: Ref, call: Call, cut: nat)
    requires var result := Perform(store, e, call, cut).1; result.Done? && result.reply.Permit?
    ensures call.ConsumeRestore? && e in store && Load(e, store[e]).Some?
  {
    hide Load, DecideLoaded, DecideSupersede, CreateWrites;
    if call.Create? || call.Supersede? {
      SupersedeGrantsNothing(store, e, call);
    }
    if !call.Create? && !call.Supersede? {
      var s := Load(e, store[e]).value;
      LoadedPermitCaller(e, s, store[e], call, Perform(store, e, call, cut).1.reply);
    }
  }

  lemma SupersedeGrantsNothing(store: Store, e: Ref, call: Call)
    requires call.Create? || call.Supersede?
    ensures var decision := Decide(store, e, call); decision.Refuse? || decision.Stuck? || (decision.Persist? && decision.reply == Reloaded)
  {
  }

  /**
   Over any run, two permits for one epoch carry the same transition id and the same data commitment,
   and every permit after the first is marked idempotent: the authority is granted once.
   */
  lemma OneWayAuthority(store: Store, attempts: seq<Attempt>, e: Ref, i: nat, j: nat)
    requires StoreOk(store)
    requires i < j && PermitAt(store, attempts, e, i) && PermitAt(store, attempts, e, j)
    ensures var first, later := ResultAt(store, attempts, i).reply, ResultAt(store, attempts, j).reply;
            later == Permit(first.transitionId, first.data, true)
  {
    hide Perform, Load, StoreOk;
    var a, b := attempts[i], attempts[j];
    var at, bt := StoreAt(store, attempts, i), StoreAt(store, attempts, j);
    RunKeepsOk(store, attempts[..i]);
    RunKeepsOk(store, attempts[..j]);
    PermitMeaning(at, e, a.call, a.cut);
    PermitMeaning(bt, e, b.call, b.cut);
    StoreStep(store, attempts, i);
    var first := ResultAt(store, attempts, i).reply;
    var spent := Ledger(LedgerEpoch(at, e), LedgerConsumed, Some(first.transitionId), Some("RESTORE_STARTED"), Some(first.data));
    SpentForever(store, attempts, e, spent, i + 1, j);
    LedgerOnDisk(e, bt[e]);
    SpentStays(bt, e, spent, e, b.call, b.cut);
  }

  // ---- The safety classification never goes back ----

  function Classification(store: Store, e: Ref): LedgerState {
    if e in store && Load(e, store[e]).Some? then Load(e, store[e]).value.ledger.state else LedgerConsumed
  }

  lemma ClassificationStep(store: Store, e: Ref, x: Ref, call: Call, cut: nat)
    requires e in store && Classification(store, e) == LedgerConsumed
    ensures var store' := Perform(store, x, call, cut).0;
            e in store' && Classification(store', e) == LedgerConsumed
  {
    if Load(e, store[e]).None? {
      FailClosed(store, e, x, call, cut);
    } else {
      var ledger := Load(e, store[e]).value.ledger;
      LoadedFiles(e, store[e]);
      SpentStays(store, e, ledger, x, call, cut);
      var d' := Perform(store, x, call, cut).0[e];
      if Load(e, d').Some? {
        LoadedFiles(e, d');
      }
    }
  }

  /** An epoch on disk that is classified CONSUMED is classified CONSUMED in every later state. */
  lemma {:induction false} ClassificationIsOneWay(store: Store, attempts: seq<Attempt>, e: Ref)
    requires e in store && Classification(store, e) == LedgerConsumed
    ensures e in Run(store, attempts) && Classification(Run(store, attempts), e) == LedgerConsumed
  {
    if attempts != [] {
      var last := |attempts| - 1;
      ClassificationIsOneWay(store, attempts[..last], e);
      var a := attempts[last];
      ClassificationStep(Run(store, attempts[..last]), e, a.epoch, a.call, a.cut);
    }
  }
}
