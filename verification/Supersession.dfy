/**
 The supersession relation over whole runs: an epoch is superseded at most once, only by an epoch
 created to replace it under the same authority, and the relation never closes a cycle.
 */
module Supersession {
  import opened Wrappers
  import opened EpochDocuments
  import opened EpochLoad
  import opened EpochCalls
  import opened EpochCrash
  import opened EpochAtomicity
  import opened EpochRuns
  import opened EpochLifetime

  // ---- An epoch that has ended stays ended ----

  predicate Ended(e: Ref, d: Disk) {
    Load(e, d).Some? ==> Terminal(Load(e, d).value.record.header.state)
  }

  lemma TerminalNeverWrites(e: Ref, s: Snapshot, d: Disk, call: Call)
    requires !call.Create? && !call.Supersede? && CrossValid(s) && Terminal(s.record.header.state)
    ensures !DecideLoaded(e, s, d, call).Persist?
  {
    hide RowIdOk, FilenameOk, RefOk, DecideIngest, DecidePrepare;
  }

  lemma EndedStep(store: Store, e: Ref, x: Ref, call: Call, cut: nat)
    requires StoreOk(store) && e in store && Ended(e, store[e])
    ensures e in Perform(store, x, call, cut).0
    ensures Ended(e, DiskAfter(store, e, x, call, cut))
  {
    hide Load, Decide, DecideLoaded, Intended, StoreOk, DiskAfter, CrossValid;
    PerformKeepsOk(store, x, call, cut);
    AttemptOutcome(store, e, x, call, cut);
    if x == e && !call.Create? && Decide(store, e, call).Persist? {
      PersistMeansLoaded(store, e, call);
      LoadedFiles(e, store[e]);
      if !call.Supersede? {
        TerminalNeverWrites(e, Load(e, store[e]).value, store[e], call);
      }
    }
  }

  lemma {:induction false} EndedForever(attempts: seq<Attempt>, e: Ref, i: nat, j: nat)
    requires i <= j <= |attempts|
    requires e in StoreAt(map[], attempts, i) && Ended(e, Base(StoreAt(map[], attempts, i), e))
    ensures e in StoreAt(map[], attempts, j) && Ended(e, Base(StoreAt(map[], attempts, j), e))
    decreases j - i
  {
    hide Perform, Ended, StoreOk;
    if i < j {
      EndedForever(attempts, e, i, j - 1);
      StoreStep(map[], attempts, j - 1);
      EmptyStoreOk();
      RunKeepsOk(map[], attempts[..j - 1]);
      var a := attempts[j - 1];
      EndedStep(StoreAt(map[], attempts, j - 1), e, a.epoch, a.call, a.cut);
    }
  }

  // ---- Supersessions of a run ----

  /** Attempt `i` of the run passed every supersession check and wrote at least one file. */
  predicate SupersededAt(attempts: seq<Attempt>, i: nat) {
    && i < |attempts| && attempts[i].call.Supersede? && attempts[i].cut >= 1
    && Decide(StoreAt(map[], attempts, i), attempts[i].epoch, attempts[i].call).Persist?
  }

  /** What the checks of a supersession establish about both epochs. */
  lemma SupersedeChecks(store: Store, e: Ref, successor: Ref)
    requires Decide(store, e, Supersede(successor)).Persist?
    ensures e != successor && e in store && successor in store
    ensures Load(e, store[e]).Some? && Load(successor, store[successor]).Some?
    ensures var mine, theirs := Load(e, store[e]).value.record.header, Load(successor, store[successor]).value.record.header;
            && !Terminal(mine.state) && theirs.state in {Initialised, Ready}
            && theirs.barrier == Text(SupersessionBarrier, [e, successor, mine.authority])
  {
    hide Load, StateUpdate;
  }

  lemma SupersedeEnds(store: Store, e: Ref, successor: Ref, cut: nat)
    requires StoreOk(store) && cut >= 1 && Decide(store, e, Supersede(successor)).Persist?
    ensures e in Perform(store, e, Supersede(successor), cut).0
    ensures Ended(e, DiskAfter(store, e, e, Supersede(successor), cut))
  {
    hide Load, Decide, StoreOk, Prefix;
    SupersedeChecks(store, e, successor);
    CutDisk(store, e, Supersede(successor), cut);
    CrashAtomicity(store, e, Load(e, store[e]).value, Supersede(successor), cut);
  }

  lemma EndedAfter(attempts: seq<Attempt>, i: nat, j: nat)
    requires SupersededAt(attempts, i) && i < j <= |attempts|
    ensures var e := attempts[i].epoch; e in StoreAt(map[], attempts, j) && Ended(e, Base(StoreAt(map[], attempts, j), e))
  {
    hide Load, Decide, StoreOk, Ended, Perform;
    EmptyStoreOk();
    RunKeepsOk(map[], attempts[..i]);
    StoreStep(map[], attempts, i);
    SupersedeEnds(StoreAt(map[], attempts, i), attempts[i].epoch, attempts[i].call.successor, attempts[i].cut);
    EndedForever(attempts, attempts[i].epoch, i + 1, j);
  }

  /** In any run an epoch is superseded at most once, even counting supersessions torn by a crash. */
  lemma SupersededOnce(attempts: seq<Attempt>, i: nat, j: nat)
    requires SupersededAt(attempts, i) && SupersededAt(attempts, j)
    ensures attempts[i].epoch == attempts[j].epoch ==> i == j
  {
    hide Load, Decide, StoreOk;
    if i < j {
      EndedAfter(attempts, i, j);
      SupersedeChecks(StoreAt(map[], attempts, j), attempts[j].epoch, attempts[j].call.successor);
    } else if j < i {
      EndedAfter(attempts, j, i);
      SupersedeChecks(StoreAt(map[], attempts, i), attempts[i].epoch, attempts[i].call.successor);
    }
  }

  /** A successor is still live when it succeeds, so its own supersession can only come later. */
  lemma SuccessorComesLater(attempts: seq<Attempt>, i: nat, j: nat)
    requires SupersededAt(attempts, i) && SupersededAt(attempts, j)
    requires attempts[i].call.successor == attempts[j].epoch
    ensures i < j
  {
    hide Load, Decide, StoreOk;
    SupersedeChecks(StoreAt(map[], attempts, i), attempts[i].epoch, attempts[i].call.successor);
    if j < i {
      EndedAfter(attempts, j, i);
    }
  }

  /** A chain of supersessions: each one's successor is the epoch that the next one supersedes. */
  ghost predicate Chain(attempts: seq<Attempt>, links: seq<nat>) {
    && (forall k :: 0 <= k < |links| ==> SupersededAt(attempts, links[k]))
    && (forall k :: 0 <= k < |links| - 1 ==> attempts[links[k]].call.successor == attempts[links[k + 1]].epoch)
  }

  lemma {:induction false} ChainAscends(attempts: seq<Attempt>, links: seq<nat>)
    requires |links| > 0 && Chain(attempts, links)
    ensures links[0] <= links[|links| - 1]
  {
    hide SupersededAt;
    if |links| > 1 {
      ChainAscends(attempts, links[1..]);
      SuccessorComesLater(attempts, links[0], links[1]);
    }
  }

  /** No run closes a supersession cycle of any length. */
  lemma NoSupersessionCycle(attempts: seq<Attempt>, links: seq<nat>)
    requires |links| > 0 && Chain(attempts, links)
    ensures attempts[links[|links| - 1]].call.successor != attempts[links[0]].epoch
  {
    hide Decide;
    ChainAscends(attempts, links);
    var last := links[|links| - 1];
    if attempts[last].call.successor == attempts[links[0]].epoch {
      SuccessorComesLater(attempts, last, links[0]);
    }
  }

  // ---- Where a successor comes from ----

  predicate OriginIs(e: Ref, d: Disk, authority: Ref, supersedes: Option<Ref>) {
    Load(e, d).Some? ==>
      var h := Load(e, d).value.record.header;
      h.authority == authority && h.barrier == Barrier(supersedes, e, authority)
  }

  lemma IntendedKeepsOrigin(e: Ref, s: Snapshot, call: Call)
    requires !call.Create?
    ensures Intended(e, s, call).record.header.authority == s.record.header.authority
    ensures Intended(e, s, call).record.header.barrier == s.record.header.barrier
  {
  }

  lemma OriginStep(store: Store, e: Ref, x: Ref, call: Call, cut: nat, authority: Ref, supersedes: Option<Ref>)
    requires StoreOk(store) && e in store && OriginIs(e, store[e], authority, supersedes)
    ensures OriginIs(e, DiskAfter(store, e, x, call, cut), authority, supersedes)
  {
    hide Load, Decide, Intended, StoreOk, DiskAfter, Barrier, LandsUnreadable;
    AttemptOutcome(store, e, x, call, cut);
    if x == e && !call.Create? && Decide(store, e, call).Persist? {
      PersistMeansLoaded(store, e, call);
      IntendedKeepsOrigin(e, Load(e, store[e]).value, call);
    }
  }

  lemma CreatedOrigin(store: Store, e: Ref, x: Ref, call: Call, cut: nat)
    requires StoreOk(store) && e !in store && e in Perform(store, x, call, cut).0
    ensures x == e && call.Create?
    ensures OriginIs(e, DiskAfter(store, e, x, call, cut), call.authority, call.supersedes)
  {
    hide Load, Decide, StoreOk, CreateWrites;
    PerformKeepsOk(store, x, call, cut);
    if !call.Create? && Decide(store, e, call).Persist? {
      PersistMeansLoaded(store, e, call);
    }
    StuckIff(store, e, call);
    AttemptOutcome(store, e, x, call, cut);
    NothingLoadsEmpty(e);
  }

  lemma NothingLoadsEmpty(e: Ref)
    ensures Load(e, map[]).None?
  {
    EmptyUnreadable(e);
  }

  /** Every epoch a run holds was created by one of its attempts, and keeps that attempt's authority and barrier. */
  lemma {:induction false} Origin(attempts: seq<Attempt>, e: Ref) returns (k: nat)
    requires e in Run(map[], attempts)
    ensures k < |attempts| && attempts[k].epoch == e && attempts[k].call.Create?
    ensures OriginIs(e, Run(map[], attempts)[e], attempts[k].call.authority, attempts[k].call.supersedes)
  {
    hide Perform, OriginIs, StoreOk;
    var last := |attempts| - 1;
    var a, before := attempts[last], Run(map[], attempts[..last]);
    EmptyStoreOk();
    RunKeepsOk(map[], attempts[..last]);
    if e in before {
      k := Origin(attempts[..last], e);
      OriginStep(before, e, a.epoch, a.call, a.cut, attempts[k].call.authority, attempts[k].call.supersedes);
    } else {
      k := last;
      CreatedOrigin(before, e, a.epoch, a.call, a.cut);
    }
  }

  /**
   A supersession only happens between an epoch and one created earlier in the run to replace it,
   under the same authority.  "NONE" stands for no predecessor, so an epoch that is itself called
   "NONE" can also be replaced by one created with no predecessor.
   */
  lemma SuccessorWasNamed(attempts: seq<Attempt>, i: nat) returns (k: nat)
    requires SupersededAt(attempts, i)
    ensures k < i && attempts[k].epoch == attempts[i].call.successor && attempts[k].call.Create?
    ensures attempts[i].epoch in StoreAt(map[], attempts, i)
    ensures var d := StoreAt(map[], attempts, i)[attempts[i].epoch];
            Load(attempts[i].epoch, d).Some?
            && attempts[k].call.authority == Load(attempts[i].epoch, d).value.record.header.authority
    ensures || attempts[k].call.supersedes == Some(attempts[i].epoch)
            || (attempts[k].call.supersedes == None && attempts[i].epoch == "NONE")
  {
    hide Load, Decide, Run;
    var e, successor := attempts[i].epoch, attempts[i].call.successor;
    var store := StoreAt(map[], attempts, i);
    SupersedeChecks(store, e, successor);
    k := Origin(attempts[..i], successor);
    var created := attempts[k].call;
    var source := match created.supersedes case None => "NONE" case Some(predecessor) => predecessor;
    var named := [source, successor, created.authority];
    var mine := Load(e, store[e]).value.record.header;
    var required := [e, successor, mine.authority];
    assert named == required;
    assert named[0] == required[0] && named[2] == required[2];
  }

  /** The exception is real: an epoch called "NONE" accepts a successor that was created to replace nothing. */
  lemma NoneIsAmbiguous()
    ensures var attempts := [Attempt("NONE", Create("owner", SAMPLE, None), 6),
                             Attempt("next", Create("owner", SAMPLE, None), 6),
                             Attempt("NONE", Supersede("next"), 2)];
            SupersededAt(attempts, 2)
  {
    hide Load, Created, RefOk, Perform, StoreOk;
    ShortRefs();
    EmptyStoreOk();
    var a, b := Attempt("NONE", Create("owner", SAMPLE, None), 6), Attempt("next", Create("owner", SAMPLE, None), 6);
    var attempts := [a, b, Attempt("NONE", Supersede("next"), 2)];
    StoreStep(map[], attempts, 0);
    StoreStep(map[], attempts, 1);
    FreshEpoch(StoreAt(map[], attempts, 0), "NONE");
    FreshEpoch(StoreAt(map[], attempts, 1), "next");
    FreshHeaderFacts("NONE", "owner", SAMPLE);
    FreshHeaderFacts("next", "owner", SAMPLE);
  }

  /** Creating a new epoch from the sample identities succeeds and leaves every other epoch alone. */
  lemma FreshEpoch(store: Store, e: Ref)
    requires StoreOk(store) && e !in store && RefOk(e) && |e| <= 121
    ensures var after := Perform(store, e, Create("owner", SAMPLE, None), 6).0;
            && StoreOk(after) && e in after && Load(e, after[e]) == Some(Created(e, "owner", SAMPLE, None))
            && after.Keys == store.Keys + {e}
            && forall x :: x in store ==> after[x] == store[x]
  {
    hide Load, RefOk, PrivateOk, CreateWrites, Perform, StoreOk, Created;
    assert RefOk("owner") by { ShortRefs(); }
    SampleOk(e);
    CreateAtomic(store, e, Create("owner", SAMPLE, None), 6);
    PerformKeepsOk(store, e, Create("owner", SAMPLE, None), 6);
  }

  lemma FreshHeaderFacts(e: Ref, authority: Ref, identities: Private)
    ensures var h := Created(e, authority, identities, None).record.header;
            && h.state == Initialised && h.authority == authority
            && h.barrier == Text(SupersessionBarrier, ["NONE", e, authority])
  {
  }
}
