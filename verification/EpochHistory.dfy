/**
 What a replayed frame list can look like, and when two disks list the same frames.
 */
module EpochHistory {
  import opened Wrappers
  import opened EpochDocuments
  import opened EpochLoad

  function Stages(docs: seq<Doc>): seq<Stage>
    requires forall i :: 0 <= i < |docs| ==> docs[i].FrameDoc?
  {
    seq(|docs|, i requires 0 <= i < |docs| => docs[i].frame.stage)
  }

  /** The stage histories an accepted spool can hold; ABANDON may close any of them. */
  const FULL_RUN: seq<Stage> := [EpochReady, RunnerStarted, RestoreBegin, Commit]

  predicate HistoryShape(stages: seq<Stage>, last: Stage) {
    if last == Abandon
    then 1 <= |stages| <= 4 && stages == FULL_RUN[..|stages| - 1] + [Abandon]
    else |stages| <= 4 && stages == FULL_RUN[..|stages|] && last == (if stages == [] then NoStage else FULL_RUN[|stages| - 1])
  }

  /** The facts a replayed history carries from one frame to the next. */
  predicate History(c: Context, stages: seq<Stage>, fold: Fold) {
    && HistoryShape(stages, fold.stage)
    && fold.next == |stages| + 1
    && fold.bytes <= |stages| * MAX_FRAME_BYTES
    && fold.highest == (if fold.stage == Commit then 4 else 0)
    && (fold.hash == ZeroHash <==> stages == [])
    && (fold.stage in {RestoreBegin, Commit} ==> c.ledger == LedgerConsumed)
    && (fold.stage == Abandon ==> (c.ledger == LedgerConsumed <==> |stages| == 4))
    && (fold.stage == Abandon && |stages| == 1 ==> c.version == V2 && c.state == Abandoned && c.artifactState == Pending)
  }

  lemma HistoryStep(c: Context, stages: seq<Stage>, fold: Fold, doc: Doc)
    requires History(c, stages, fold) && FrameAccepted(c, fold, doc)
    ensures History(c, stages + [doc.frame.stage], Advance(fold, doc))
  {
    hide FrameBytes, PayloadOk, RefOk;
  }

  lemma {:induction false} ReplayedHistory(c: Context, docs: seq<Doc>)
    requires Replay(c, docs).Some?
    ensures forall i :: 0 <= i < |docs| ==> docs[i].FrameDoc?
    ensures History(c, Stages(docs), Replay(c, docs).value)
  {
    hide History, FrameAccepted, Advance;
    if docs == [] {
      assert Stages(docs) == [];
      EmptyHistory(c);
    } else {
      var last := |docs| - 1;
      ReplayedHistory(c, docs[..last]);
      var fold := Replay(c, docs[..last]).value;
      AcceptedIsFrame(c, fold, docs[last]);
      assert Stages(docs) == Stages(docs[..last]) + [docs[last].frame.stage];
      HistoryStep(c, Stages(docs[..last]), fold, docs[last]);
    }
  }

  lemma EmptyHistory(c: Context)
    ensures History(c, [], EMPTY_FOLD)
  {
  }

  lemma AcceptedIsFrame(c: Context, fold: Fold, doc: Doc)
    requires FrameAccepted(c, fold, doc)
    ensures doc.FrameDoc?
  {
  }

  lemma {:induction false} ReplayPrefix(c: Context, docs: seq<Doc>, i: nat)
    requires i <= |docs| && Replay(c, docs).Some?
    ensures Replay(c, docs[..i]).Some?
  {
    if i == |docs| {
      assert docs[..i] == docs;
    } else {
      var last := |docs| - 1;
      ReplayPrefix(c, docs[..last], i);
      assert docs[..last][..i] == docs[..i];
    }
  }

  /** Frames that carry no verdict on the restore replay alike whatever the other documents now say. */
  lemma {:induction false} ReplaySurvives(c1: Context, c2: Context, docs: seq<Doc>)
    requires c1.epoch == c2.epoch && c1.private == c2.private
    requires Replay(c1, docs).Some?
    requires var stage := Replay(c1, docs).value.stage;
             stage in {NoStage, EpochReady, RunnerStarted} || (stage == RestoreBegin && c2.ledger == LedgerConsumed)
    ensures Replay(c2, docs) == Replay(c1, docs)
  {
    if docs != [] {
      var last := |docs| - 1;
      var fold := Replay(c1, docs[..last]).value;
      assert FrameAccepted(c1, fold, docs[last]);
      ReplaySurvives(c1, c2, docs[..last]);
      assert FrameAccepted(c2, fold, docs[last]);
    }
  }

  /** The last frame hash pins the whole history, whatever the other documents say. */
  lemma {:induction false} HashPinsFrames(c1: Context, c2: Context, a: seq<Doc>, b: seq<Doc>)
    requires Replay(c1, a).Some? && Replay(c2, b).Some?
    requires Replay(c1, a).value.hash == Replay(c2, b).value.hash
    ensures a == b
  {
    hide Successors, LegalAbandon, DirectPendingAbandon, FrameBytes, PayloadOk, RefOk, HistoryShape;
    ReplayedHistory(c1, a);
    ReplayedHistory(c2, b);
    if a != [] {
      var last := |a| - 1;
      assert FrameAccepted(c1, Replay(c1, a[..last]).value, a[last]);
      assert FrameAccepted(c2, Replay(c2, b[..|b| - 1]).value, b[|b| - 1]);
      HashPinsFrames(c1, c2, a[..last], b[..|b| - 1]);
      assert a == a[..last] + [a[last]] && b == b[..last] + [b[last]];
    }
  }

  // ---- Frame file names ----

  /** Frame files are numbered 1, 2, ... without a gap. */
  ghost predicate Consecutive(d: Disk) {
    forall n: nat :: FrameFile(n) in d <==> 1 <= n <= |FrameNumbers(d)|
  }

  ghost predicate SameFrames(d1: Disk, d2: Disk) {
    && (forall n: nat :: FrameFile(n) in d1 <==> FrameFile(n) in d2)
    && (forall n: nat :: FrameFile(n) in d1 && FrameFile(n) in d2 ==> d1[FrameFile(n)] == d2[FrameFile(n)])
  }

  lemma {:induction false} DocsInOrderSame(d1: Disk, d2: Disk, numbers: set<nat>)
    requires forall n :: n in numbers ==> FrameFile(n) in d1 && FrameFile(n) in d2 && d1[FrameFile(n)] == d2[FrameFile(n)]
    ensures DocsInOrder(d1, numbers) == DocsInOrder(d2, numbers)
  {
    if numbers != {} {
      DocsInOrderSame(d1, d2, numbers - {Largest(numbers)});
    }
  }

  lemma FrameNumbersAre(d: Disk)
    ensures forall n: nat :: n in FrameNumbers(d) <==> FrameFile(n) in d
  {
    forall n: nat
      ensures n in FrameNumbers(d) <==> FrameFile(n) in d
    {
      if FrameFile(n) in d {
        assert FrameFile(n).number == n;
      }
    }
  }

  lemma FrameDocsSame(d1: Disk, d2: Disk)
    requires SameFrames(d1, d2)
    ensures FrameNumbers(d1) == FrameNumbers(d2)
    ensures FrameDocs(d1) == FrameDocs(d2)
    ensures Consecutive(d1) ==> Consecutive(d2)
  {
    FrameNumbersAre(d1);
    FrameNumbersAre(d2);
    assert FrameNumbers(d1) == FrameNumbers(d2);
    DocsInOrderSame(d1, d2, FrameNumbers(d1));
  }

  /** Writing the next numbered frame file appends one frame to the list. */
  lemma FrameDocsAppend(d: Disk, n: nat, doc: Doc)
    requires Consecutive(d) && n == |FrameNumbers(d)| + 1
    ensures FrameDocs(d[FrameFile(n) := doc]) == FrameDocs(d) + [doc]
    ensures Consecutive(d[FrameFile(n) := doc])
    ensures |FrameNumbers(d[FrameFile(n) := doc])| == n
  {
    var d' := d[FrameFile(n) := doc];
    var before := FrameNumbers(d);
    FrameNumbersAre(d);
    FrameNumbersAre(d');
    assert n !in before;
    assert FrameNumbers(d') == before + {n};
    assert Largest(before + {n}) == n by {
      assert forall m :: m in before + {n} ==> m <= n;
    }
    assert before + {n} - {n} == before;
    DocsInOrderSame(d, d', before);
  }

  function UpTo(k: nat): (numbers: set<nat>)
    ensures |numbers| == k && forall n :: n in numbers <==> 1 <= n <= k
  {
    if k == 0 then {} else UpTo(k - 1) + {k}
  }

  lemma {:induction false} DocsAt(d: Disk, k: nat, n: nat)
    requires 1 <= n <= k && forall m: nat :: 1 <= m <= k ==> FrameFile(m) in d
    ensures DocsInOrder(d, UpTo(k))[n - 1] == d[FrameFile(n)]
  {
    assert Largest(UpTo(k)) == k by { assert k in UpTo(k); }
    assert UpTo(k) - {k} == UpTo(k - 1);
    if n < k {
      DocsAt(d, k - 1, n);
    }
  }

  /** Frame files without a gap are listed by their numbers. */
  lemma FrameDocAt(d: Disk, n: nat)
    requires Consecutive(d) && 1 <= n <= |FrameNumbers(d)|
    ensures FrameFile(n) in d && FrameDocs(d)[n - 1] == d[FrameFile(n)]
  {
    FrameNumbersAre(d);
    assert FrameNumbers(d) == UpTo(|FrameNumbers(d)|);
    DocsAt(d, |FrameNumbers(d)|, n);
  }
}
