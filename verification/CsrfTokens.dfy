/**
 The bounded CSRF token store.  Issuing a token purges the dead tokens of its session and purpose,
 evicts all but the seven newest, and inserts the new one.
 */
module CsrfTokens {
  import opened Wrappers

  const MAX_ACTIVE := 8

  datatype Token = Token(id: string, session: string, purpose: string, hash: string, createdAt: int, expiresAt: int,
                         consumed: bool, revoked: bool)

  /** How ids compare in the database host's locale; nothing is assumed of it. */
  type Collation = (string, string) -> int

  // ---- Rows ----

  predicate InGroup(t: Token, session: string, purpose: string) {
    t.session == session && t.purpose == purpose
  }

  predicate Active(t: Token, now: int) {
    t.expiresAt > now && !t.consumed && !t.revoked
  }

  function Filter(rows: seq<Token>, keep: Token -> bool): (r: seq<Token>)
    ensures |r| <= |rows|
  {
    if rows == [] then []
    else Filter(rows[..|rows| - 1], keep) + (if keep(rows[|rows| - 1]) then [rows[|rows| - 1]] else [])
  }

  function Group(rows: seq<Token>, session: string, purpose: string): seq<Token> {
    Filter(rows, (t: Token) => InGroup(t, session, purpose))
  }

  /** The rows of every other session or purpose. */
  function Others(rows: seq<Token>, session: string, purpose: string): seq<Token> {
    Filter(rows, (t: Token) => !InGroup(t, session, purpose))
  }

  lemma {:induction false} FilterMembers(rows: seq<Token>, keep: Token -> bool)
    ensures forall t :: t in Filter(rows, keep) <==> t in rows && keep(t)
  {
    if rows != [] {
      var last := |rows| - 1;
      assert rows == rows[..last] + [rows[last]];
      FilterMembers(rows[..last], keep);
    }
  }

  lemma {:induction false} FilterTwice(rows: seq<Token>, p: Token -> bool, q: Token -> bool, both: Token -> bool)
    requires forall t :: both(t) == (p(t) && q(t))
    ensures Filter(Filter(rows, p), q) == Filter(rows, both)
  {
    if rows != [] {
      var last := |rows| - 1;
      var front := Filter(rows[..last], p);
      FilterTwice(rows[..last], p, q, both);
      FilterAppend(front, rows[last], q);
      assert front + [] == front && Filter(front, q) + [] == Filter(front, q);
    }
  }

  lemma FilterAppend(rows: seq<Token>, t: Token, keep: Token -> bool)
    ensures Filter(rows + [t], keep) == Filter(rows, keep) + (if keep(t) then [t] else [])
  {
    assert (rows + [t])[..|rows|] == rows;
  }

  lemma {:induction false} FilterSame(rows: seq<Token>, p: Token -> bool, q: Token -> bool)
    requires forall t :: t in rows ==> p(t) == q(t)
    ensures Filter(rows, p) == Filter(rows, q)
  {
    if rows != [] {
      FilterSame(rows[..|rows| - 1], p, q);
    }
  }

  // ---- Newest first ----

  function CompareNewestFirst(left: Token, right: Token, collate: Collation): int {
    if right.createdAt != left.createdAt then right.createdAt - left.createdAt else collate(right.id, left.id)
  }

  function Insert(s: seq<Token>, t: Token, collate: Collation): seq<Token> {
    if s == [] || CompareNewestFirst(s[|s| - 1], t, collate) <= 0 then s + [t]
    else Insert(s[..|s| - 1], t, collate) + [s[|s| - 1]]
  }

  function NewestFirst(rows: seq<Token>, collate: Collation): seq<Token> {
    if rows == [] then [] else Insert(NewestFirst(rows[..|rows| - 1], collate), rows[|rows| - 1], collate)
  }

  predicate Descending(s: seq<Token>) {
    forall i, j :: 0 <= i < j < |s| ==> s[i].createdAt >= s[j].createdAt
  }

  /** No row of `s` is older than `t`. */
  predicate NoneOlder(s: seq<Token>, t: Token) {
    forall i :: 0 <= i < |s| ==> s[i].createdAt >= t.createdAt
  }

  lemma NoneOlderRows(s: seq<Token>, front: seq<Token>, t: Token, x: Token)
    requires multiset(front) == multiset(s) + multiset{t} && NoneOlder(s, x) && t.createdAt >= x.createdAt
    ensures NoneOlder(front, x)
  {
    forall i | 0 <= i < |front|
      ensures front[i].createdAt >= x.createdAt
    {
      assert front[i] in multiset(front);
      if front[i] != t {
        assert front[i] in multiset(s);
        assert front[i] in s;
      }
    }
  }

  lemma {:induction false} InsertDescends(s: seq<Token>, t: Token, collate: Collation)
    requires Descending(s)
    ensures Descending(Insert(s, t, collate))
    ensures multiset(Insert(s, t, collate)) == multiset(s) + multiset{t}
  {
    if s != [] && CompareNewestFirst(s[|s| - 1], t, collate) > 0 {
      var last := |s| - 1;
      assert s == s[..last] + [s[last]];
      InsertDescends(s[..last], t, collate);
      NoneOlderRows(s[..last], Insert(s[..last], t, collate), t, s[last]);
    }
  }

  lemma {:induction false} NewestFirstSorts(rows: seq<Token>, collate: Collation)
    ensures Descending(NewestFirst(rows, collate))
    ensures multiset(NewestFirst(rows, collate)) == multiset(rows)
  {
    if rows != [] {
      var last := |rows| - 1;
      assert rows == rows[..last] + [rows[last]];
      NewestFirstSorts(rows[..last], collate);
      InsertDescends(NewestFirst(rows[..last], collate), rows[last], collate);
    }
  }

  /** The ids of all but the `retained` newest rows. */
  function OldestIds(rows: seq<Token>, retained: nat, collate: Collation): set<string> {
    var sorted := NewestFirst(rows, collate);
    set i | retained <= i < |sorted| :: sorted[i].id
  }

  // ---- Issuing a token ----

  predicate Dead(t: Token, input: Token) {
    InGroup(t, input.session, input.purpose) && (t.expiresAt <= input.createdAt || t.consumed || t.revoked)
  }

  function Purged(rows: seq<Token>, input: Token): seq<Token> {
    Filter(rows, (t: Token) => !Dead(t, input))
  }

  function ActiveRows(rows: seq<Token>, input: Token): seq<Token> {
    Filter(rows, (t: Token) => InGroup(t, input.session, input.purpose) && Active(t, input.createdAt))
  }

  function Evicted(rows: seq<Token>, input: Token, collate: Collation): set<string> {
    OldestIds(ActiveRows(Purged(rows, input), input), MAX_ACTIVE - 1, collate)
  }

  function Retained(rows: seq<Token>, input: Token, collate: Collation): seq<Token> {
    var gone := Evicted(rows, input, collate);
    Filter(Purged(rows, input), (t: Token) => !(InGroup(t, input.session, input.purpose) && t.id in gone))
  }

  /** The unique index of the table: session, purpose and token hash. */
  predicate SameHash(a: Token, b: Token) {
    InGroup(a, b.session, b.purpose) && a.hash == b.hash
  }

  /** The two ways the insert can be refused: the primary key and the unique index. */
  predicate Clashes(rows: seq<Token>, input: Token) {
    exists i :: 0 <= i < |rows| && (rows[i].id == input.id || SameHash(rows[i], input))
  }

  /** The table after issuing `input`; a clashing id or token hash rolls the whole transaction back. */
  function Issue(rows: seq<Token>, input: Token, collate: Collation): Option<seq<Token>> {
    var retained := Retained(rows, input, collate);
    if Clashes(retained, input) then None else Some(retained + [input])
  }

  predicate UniqueIds(rows: seq<Token>) {
    forall i, j :: 0 <= i < j < |rows| ==> rows[i].id != rows[j].id
  }

  predicate UniqueHashes(rows: seq<Token>) {
    forall i, j :: 0 <= i < j < |rows| ==> !SameHash(rows[i], rows[j])
  }

  class Repository {
    var rows: seq<Token>

    /** One serializable transaction: purge, read, evict, insert. */
    method CreateBoundedForSession(input: Token, collate: Collation) returns (ok: bool)
      modifies this
      ensures ok == Issue(old(rows), input, collate).Some?
      ensures rows == if ok then Issue(old(rows), input, collate).value else old(rows)
    {
      var before := rows;
      rows := Filter(rows, (t: Token) => !Dead(t, input));
      var activeRows := Filter(rows, (t: Token) => InGroup(t, input.session, input.purpose) && Active(t, input.createdAt));
      var idsToEvict := OldestIds(activeRows, MAX_ACTIVE - 1, collate);
      if idsToEvict != {} {
        rows := Filter(rows, (t: Token) => !(InGroup(t, input.session, input.purpose) && t.id in idsToEvict));
      } else {
        KeepAll(rows, (t: Token) => !(InGroup(t, input.session, input.purpose) && t.id in idsToEvict));
      }
      if Clashes(rows, input) {
        rows := before;
        return false;
      }
      rows := rows + [input];
      ok := true;
    }
  }

  lemma {:induction false} KeepAll(rows: seq<Token>, keep: Token -> bool)
    requires forall t :: t in rows ==> keep(t)
    ensures Filter(rows, keep) == rows
  {
    if rows != [] {
      KeepAll(rows[..|rows| - 1], keep);
      assert rows == rows[..|rows| - 1] + [rows[|rows| - 1]];
    }
  }

  // ---- What one issue does ----

  lemma {:induction false} FilterBag(rows: seq<Token>, keep: Token -> bool, t: Token)
    ensures multiset(Filter(rows, keep))[t] == if keep(t) then multiset(rows)[t] else 0
  {
    if rows != [] {
      assert rows == rows[..|rows| - 1] + [rows[|rows| - 1]];
      FilterBag(rows[..|rows| - 1], keep, t);
    }
  }

  lemma FilterPermuted(a: seq<Token>, b: seq<Token>, keep: Token -> bool)
    requires multiset(a) == multiset(b)
    ensures |Filter(a, keep)| == |Filter(b, keep)|
  {
    hide Filter;
    forall t: Token
      ensures multiset(Filter(a, keep))[t] == multiset(Filter(b, keep))[t]
    {
      FilterBag(a, keep, t);
      FilterBag(b, keep, t);
    }
    assert multiset(Filter(a, keep)) == multiset(Filter(b, keep));
    assert |Filter(a, keep)| == |multiset(Filter(a, keep))| && |Filter(b, keep)| == |multiset(Filter(b, keep))|;
  }

  lemma {:induction false} FilterCut(rows: seq<Token>, keep: Token -> bool, n: nat)
    requires forall i :: n <= i < |rows| ==> !keep(rows[i])
    ensures |Filter(rows, keep)| <= n
  {
    if rows != [] && |rows| > n {
      FilterCut(rows[..|rows| - 1], keep, n);
    }
  }

  /** The rows of the input's group after the purge are exactly its active rows. */
  lemma PurgedGroup(rows: seq<Token>, input: Token)
    ensures ActiveRows(Purged(rows, input), input) == Group(Purged(rows, input), input.session, input.purpose)
    ensures ActiveRows(Purged(rows, input), input) == ActiveRows(rows, input)
  {
    var alive := (t: Token) => !Dead(t, input);
    var active := (t: Token) => InGroup(t, input.session, input.purpose) && Active(t, input.createdAt);
    var group := (t: Token) => InGroup(t, input.session, input.purpose);
    FilterMembers(rows, alive);
    FilterSame(Purged(rows, input), active, group);
    FilterTwice(rows, alive, active, active);
  }

  /** The rows of the input's group that the eviction keeps. */
  lemma RetainedGroup(rows: seq<Token>, input: Token, collate: Collation)
    ensures Group(Retained(rows, input, collate), input.session, input.purpose)
         == Filter(ActiveRows(rows, input), (t: Token) => t.id !in Evicted(rows, input, collate))
  {
    var purged, gone := Purged(rows, input), Evicted(rows, input, collate);
    var kept := (t: Token) => !(InGroup(t, input.session, input.purpose) && t.id in gone);
    var group := (t: Token) => InGroup(t, input.session, input.purpose);
    var unlisted := (t: Token) => t.id !in gone;
    var both := (t: Token) => InGroup(t, input.session, input.purpose) && t.id !in gone;
    PurgedGroup(rows, input);
    FilterTwice(purged, kept, group, both);
    FilterTwice(purged, group, unlisted, both);
  }

  /** After every issue the session and purpose hold at most eight rows, the new one among them. */
  lemma AtMostEight(rows: seq<Token>, input: Token, collate: Collation)
    requires Issue(rows, input, collate).Some?
    ensures var after := Issue(rows, input, collate).value;
            |Group(after, input.session, input.purpose)| <= MAX_ACTIVE && input in Group(after, input.session, input.purpose)
  {
    var active, gone := ActiveRows(rows, input), Evicted(rows, input, collate);
    var sorted := NewestFirst(active, collate);
    var keep := (t: Token) => t.id !in gone;
    PurgedGroup(rows, input);
    RetainedGroup(rows, input, collate);
    NewestFirstSorts(active, collate);
    FilterPermuted(active, sorted, keep);
    FilterCut(sorted, keep, MAX_ACTIVE - 1);
    FilterAppend(Retained(rows, input, collate), input, (t: Token) => InGroup(t, input.session, input.purpose));
  }

  /** Rows of other sessions and purposes are untouched, and stay in order. */
  lemma OthersUntouched(rows: seq<Token>, input: Token, collate: Collation)
    requires Issue(rows, input, collate).Some?
    ensures Others(Issue(rows, input, collate).value, input.session, input.purpose)
         == Others(rows, input.session, input.purpose)
  {
    var gone := Evicted(rows, input, collate);
    var other := (t: Token) => !InGroup(t, input.session, input.purpose);
    var alive := (t: Token) => !Dead(t, input);
    var kept := (t: Token) => !(InGroup(t, input.session, input.purpose) && t.id in gone);
    FilterAppend(Retained(rows, input, collate), input, other);
    FilterTwice(Purged(rows, input), kept, other, other);
    FilterTwice(rows, alive, other, other);
  }

  lemma {:induction false} FilterUnique(rows: seq<Token>, keep: Token -> bool)
    requires UniqueIds(rows)
    ensures UniqueIds(Filter(rows, keep))
  {
    if rows != [] {
      var last := |rows| - 1;
      FilterUnique(rows[..last], keep);
      FilterMembers(rows[..last], keep);
      var front := Filter(rows[..last], keep);
      forall i | 0 <= i < |front|
        ensures front[i].id != rows[last].id
      {
        assert front[i] in front;
        var k :| 0 <= k < last && rows[..last][k] == front[i];
      }
    }
  }

  lemma {:induction false} FilterUniqueHashes(rows: seq<Token>, keep: Token -> bool)
    requires UniqueHashes(rows)
    ensures UniqueHashes(Filter(rows, keep))
  {
    if rows != [] {
      var last := |rows| - 1;
      FilterUniqueHashes(rows[..last], keep);
      FilterMembers(rows[..last], keep);
      var front := Filter(rows[..last], keep);
      forall i | 0 <= i < |front|
        ensures !SameHash(front[i], rows[last])
      {
        assert front[i] in front;
        var k :| 0 <= k < last && rows[..last][k] == front[i];
      }
    }
  }

  /** Both keys stay unique. */
  lemma IssueKeepsUnique(rows: seq<Token>, input: Token, collate: Collation)
    requires Issue(rows, input, collate).Some?
    ensures UniqueIds(rows) ==> UniqueIds(Issue(rows, input, collate).value)
    ensures UniqueHashes(rows) ==> UniqueHashes(Issue(rows, input, collate).value)
  {
    var gone := Evicted(rows, input, collate);
    var alive := (t: Token) => !Dead(t, input);
    var kept := (t: Token) => !(InGroup(t, input.session, input.purpose) && t.id in gone);
    if UniqueIds(rows) {
      FilterUnique(rows, alive);
      FilterUnique(Purged(rows, input), kept);
    }
    if UniqueHashes(rows) {
      FilterUniqueHashes(rows, alive);
      FilterUniqueHashes(Purged(rows, input), kept);
    }
  }

  lemma SameId(rows: seq<Token>, a: Token, b: Token)
    requires UniqueIds(rows) && a in rows && b in rows && a.id == b.id
    ensures a == b
  {
    var i :| 0 <= i < |rows| && rows[i] == a;
    var j :| 0 <= j < |rows| && rows[j] == b;
  }

  /** Where an active row stands among the newest, and whether it is evicted. */
  lemma EvictedByRank(rows: seq<Token>, input: Token, collate: Collation, t: Token) returns (i: nat)
    requires UniqueIds(rows) && t in ActiveRows(rows, input)
    ensures var sorted := NewestFirst(ActiveRows(rows, input), collate);
            && i < |sorted| && sorted[i] == t
            && (t.id in Evicted(rows, input, collate) <==> i >= MAX_ACTIVE - 1)
  {
    var active := ActiveRows(rows, input);
    var sorted := NewestFirst(active, collate);
    PurgedGroup(rows, input);
    NewestFirstSorts(active, collate);
    FilterUnique(rows, (t: Token) => InGroup(t, input.session, input.purpose) && Active(t, input.createdAt));
    UniquePermuted(active, sorted);
    assert t in multiset(sorted);
    assert t in sorted;
    i :| 0 <= i < |sorted| && sorted[i] == t;
  }

  lemma UniquePermuted(a: seq<Token>, b: seq<Token>)
    requires multiset(a) == multiset(b) && UniqueIds(a)
    ensures UniqueIds(b)
  {
    forall i, j | 0 <= i < j < |b|
      ensures b[i].id != b[j].id
    {
      if b[i].id == b[j].id {
        assert b[i] in multiset(a) && b[j] in multiset(a);
        assert b[i] in a && b[j] in a;
        SameId(a, b[i], b[j]);
        assert b == b[..i] + [b[i]] + b[i + 1..j] + [b[j]] + b[j + 1..];
        assert multiset(b)[b[i]] >= 2;
        OnlyOnce(a, b[i]);
      }
    }
  }

  lemma {:induction false} OnlyOnce(rows: seq<Token>, t: Token)
    requires UniqueIds(rows)
    ensures multiset(rows)[t] <= 1
  {
    if rows != [] {
      var last := |rows| - 1;
      assert rows == rows[..last] + [rows[last]];
      OnlyOnce(rows[..last], t);
      if t == rows[last] {
        assert t !in rows[..last];
      }
    }
  }

  /** An active row that is evicted is no newer than any active row that stays. */
  lemma EvictsOldest(rows: seq<Token>, input: Token, collate: Collation, gone: Token, stays: Token)
    requires UniqueIds(rows) && gone in ActiveRows(rows, input) && stays in ActiveRows(rows, input)
    requires gone.id in Evicted(rows, input, collate) && stays.id !in Evicted(rows, input, collate)
    ensures gone.createdAt <= stays.createdAt
  {
    var i := EvictedByRank(rows, input, collate, gone);
    var j := EvictedByRank(rows, input, collate, stays);
    NewestFirstSorts(ActiveRows(rows, input), collate);
  }

  /** A collation that orders ids. */
  ghost predicate Orders(collate: Collation) {
    && (forall a, b :: collate(a, b) <= 0 <==> collate(b, a) >= 0)
    && (forall a, b, c :: collate(a, b) <= 0 && collate(b, c) <= 0 ==> collate(a, c) <= 0)
  }

  predicate InOrder(s: seq<Token>, collate: Collation) {
    forall i, j :: 0 <= i < j < |s| ==> CompareNewestFirst(s[i], s[j], collate) <= 0
  }

  predicate AllBefore(s: seq<Token>, t: Token, collate: Collation) {
    forall i :: 0 <= i < |s| ==> CompareNewestFirst(s[i], t, collate) <= 0
  }

  lemma CompareChains(a: Token, b: Token, c: Token, collate: Collation)
    requires Orders(collate)
    ensures CompareNewestFirst(a, b, collate) <= 0 && CompareNewestFirst(b, c, collate) <= 0 ==> CompareNewestFirst(a, c, collate) <= 0
    ensures CompareNewestFirst(a, b, collate) <= 0 <==> CompareNewestFirst(b, a, collate) >= 0
  {
    if a.createdAt == b.createdAt == c.createdAt {
      assert collate(c.id, b.id) <= 0 && collate(b.id, a.id) <= 0 ==> collate(c.id, a.id) <= 0;
    }
  }

  lemma AllBeforeRows(s: seq<Token>, front: seq<Token>, t: Token, x: Token, collate: Collation)
    requires multiset(front) == multiset(s) + multiset{t} && AllBefore(s, x, collate) && CompareNewestFirst(t, x, collate) <= 0
    ensures AllBefore(front, x, collate)
  {
    forall i | 0 <= i < |front|
      ensures CompareNewestFirst(front[i], x, collate) <= 0
    {
      assert front[i] in multiset(front);
      if front[i] != t {
        assert front[i] in multiset(s);
        assert front[i] in s;
      }
    }
  }

  lemma {:induction false} InsertInOrder(s: seq<Token>, t: Token, collate: Collation)
    requires Orders(collate) && InOrder(s, collate) && Descending(s)
    ensures InOrder(Insert(s, t, collate), collate)
  {
    hide CompareNewestFirst;
    if s != [] {
      var last := |s| - 1;
      CompareChains(s[last], t, t, collate);
      if CompareNewestFirst(s[last], t, collate) <= 0 {
        forall i | 0 <= i < last
          ensures CompareNewestFirst(s[i], t, collate) <= 0
        {
          CompareChains(s[i], s[last], t, collate);
        }
      } else {
        assert s == s[..last] + [s[last]];
        InsertInOrder(s[..last], t, collate);
        InsertDescends(s[..last], t, collate);
        CompareChains(t, s[last], s[last], collate);
        AllBeforeRows(s[..last], Insert(s[..last], t, collate), t, s[last], collate);
      }
    }
  }

  lemma {:induction false} NewestFirstInOrder(rows: seq<Token>, collate: Collation)
    requires Orders(collate)
    ensures InOrder(NewestFirst(rows, collate), collate)
  {
    if rows != [] {
      NewestFirstInOrder(rows[..|rows| - 1], collate);
      NewestFirstSorts(rows[..|rows| - 1], collate);
      InsertInOrder(NewestFirst(rows[..|rows| - 1], collate), rows[|rows| - 1], collate);
    }
  }

  /** Among rows of one time, those with the smaller ids go first, if the collation orders ids. */
  lemma EvictsSmallerIds(rows: seq<Token>, input: Token, collate: Collation, gone: Token, stays: Token)
    requires UniqueIds(rows) && gone in ActiveRows(rows, input) && stays in ActiveRows(rows, input) && Orders(collate)
    requires gone.id in Evicted(rows, input, collate) && stays.id !in Evicted(rows, input, collate)
    requires gone.createdAt == stays.createdAt
    ensures collate(gone.id, stays.id) <= 0
  {
    hide NewestFirst;
    var i := EvictedByRank(rows, input, collate, gone);
    var j := EvictedByRank(rows, input, collate, stays);
    NewestFirstInOrder(ActiveRows(rows, input), collate);
  }

  /** An active row stays exactly when it is among the seven newest. */
  lemma StaysIff(rows: seq<Token>, input: Token, collate: Collation, t: Token)
    requires UniqueIds(rows) && Issue(rows, input, collate).Some? && t in ActiveRows(rows, input) && t != input
    ensures t in Issue(rows, input, collate).value <==> t.id !in Evicted(rows, input, collate)
  {
    var gone := Evicted(rows, input, collate);
    FilterMembers(rows, (u: Token) => InGroup(u, input.session, input.purpose) && Active(u, input.createdAt));
    FilterMembers(rows, (u: Token) => !Dead(u, input));
    FilterMembers(Purged(rows, input), (u: Token) => !(InGroup(u, input.session, input.purpose) && u.id in gone));
  }

  /** A row that is still there when the new one is inserted. */
  predicate Survives(rows: seq<Token>, input: Token, collate: Collation, t: Token) {
    !Dead(t, input) && !(InGroup(t, input.session, input.purpose) && t.id in Evicted(rows, input, collate))
  }

  lemma RetainedRows(rows: seq<Token>, input: Token, collate: Collation)
    ensures forall t :: t in Retained(rows, input, collate) <==> t in rows && Survives(rows, input, collate, t)
  {
    var gone := Evicted(rows, input, collate);
    FilterMembers(rows, (t: Token) => !Dead(t, input));
    FilterMembers(Purged(rows, input), (t: Token) => !(InGroup(t, input.session, input.purpose) && t.id in gone));
  }

  /** An issue succeeds exactly if no surviving row has the new row's id, or its session, purpose and token hash. */
  lemma IssuesIff(rows: seq<Token>, input: Token, collate: Collation)
    ensures Issue(rows, input, collate).Some? <==>
            forall t :: t in rows && Survives(rows, input, collate, t) ==> t.id != input.id && !SameHash(t, input)
  {
    hide Retained, Survives;
    RetainedRows(rows, input, collate);
    var retained := Retained(rows, input, collate);
    if Clashes(retained, input) {
      var i :| 0 <= i < |retained| && (retained[i].id == input.id || SameHash(retained[i], input));
      assert retained[i] in retained;
    }
  }

  /** A token with a new id, and a token hash that is new to its session and purpose, is always issued. */
  lemma NewIsIssued(rows: seq<Token>, input: Token, collate: Collation)
    requires forall t :: t in rows ==> t.id != input.id && !SameHash(t, input)
    ensures Issue(rows, input, collate).Some?
  {
    IssuesIff(rows, input, collate);
  }

  /** After an issue the table holds the new row and the surviving ones, and nothing else. */
  lemma IssueRows(rows: seq<Token>, input: Token, collate: Collation, t: Token)
    requires Issue(rows, input, collate).Some?
    ensures t in Issue(rows, input, collate).value <==> t == input || (t in rows && Survives(rows, input, collate, t))
  {
    hide Survives, Retained;
    RetainedRows(rows, input, collate);
  }

  /** Eviction makes room for one and takes no more: of the active rows the seven newest stay, or all if there are fewer. */
  lemma GroupSize(rows: seq<Token>, input: Token, collate: Collation)
    requires UniqueIds(rows) && Issue(rows, input, collate).Some?
    ensures var active := |ActiveRows(rows, input)|;
            |Group(Issue(rows, input, collate).value, input.session, input.purpose)| ==
            1 + if active < MAX_ACTIVE - 1 then active else MAX_ACTIVE - 1
  {
    hide NewestFirst, Filter, Purged, Dead;
    var active, gone := ActiveRows(rows, input), Evicted(rows, input, collate);
    var sorted := NewestFirst(active, collate);
    var keep := (t: Token) => t.id !in gone;
    PurgedGroup(rows, input);
    RetainedGroup(rows, input, collate);
    NewestFirstSorts(active, collate);
    FilterUnique(rows, (t: Token) => InGroup(t, input.session, input.purpose) && Active(t, input.createdAt));
    UniquePermuted(active, sorted);
    FilterPermuted(active, sorted, keep);
    assert |sorted| == |multiset(sorted)| == |multiset(active)| == |active|;
    var n := if |sorted| < MAX_ACTIVE - 1 then |sorted| else MAX_ACTIVE - 1;
    FilterCut(sorted, keep, MAX_ACTIVE - 1);
    forall i | 0 <= i < n
      ensures keep(sorted[i])
    {
    }
    FilterAll(sorted, keep, n);
    FilterAppend(Retained(rows, input, collate), input, (t: Token) => InGroup(t, input.session, input.purpose));
  }

  // ---- Whole runs ----

  /** What can happen to the table: an issue for any session, or one token being consumed or revoked. */
  datatype Event = Issued(input: Token) | Consumed(id: string) | Revoked(id: string)

  function Marked(rows: seq<Token>, event: Event): seq<Token>
    requires !event.Issued?
  {
    seq(|rows|, i requires 0 <= i < |rows| =>
      if rows[i].id != event.id then rows[i]
      else if event.Consumed? then rows[i].(consumed := true) else rows[i].(revoked := true))
  }

  function Step(rows: seq<Token>, event: Event, collate: Collation): seq<Token> {
    if event.Issued? then
      var after := Issue(rows, event.input, collate);
      if after.None? then rows else after.value
    else Marked(rows, event)
  }

  function Run(rows: seq<Token>, events: seq<Event>, collate: Collation): seq<Token> {
    if events == [] then rows
    else Step(Run(rows, events[..|events| - 1], collate), events[|events| - 1], collate)
  }

  /** How many issues for the token's own session and purpose the events hold. */
  function OwnIssues(events: seq<Event>, t: Token): nat {
    if events == [] then 0
    else
      var e := events[|events| - 1];
      OwnIssues(events[..|events| - 1], t)
      + if e.Issued? && InGroup(e.input, t.session, t.purpose) then 1 else 0
  }

  /** Every issue for the token's own group is later than the token and finds it unexpired; nothing marks the token itself. */
  predicate Later(events: seq<Event>, t: Token) {
    forall i :: 0 <= i < |events| ==>
      match events[i]
      case Issued(input) => InGroup(input, t.session, t.purpose) ==> t.createdAt < input.createdAt < t.expiresAt
      case Consumed(id) => id != t.id
      case Revoked(id) => id != t.id
  }

  /** The rows of the token's group that are newer than it. */
  function Newer(rows: seq<Token>, t: Token): seq<Token> {
    Filter(rows, (u: Token) => InGroup(u, t.session, t.purpose) && u.createdAt > t.createdAt)
  }

  /** No other row of the group is as old as the token to the millisecond. */
  predicate OwnTime(rows: seq<Token>, t: Token) {
    forall u :: u in rows && InGroup(u, t.session, t.purpose) && u.id != t.id ==> u.createdAt != t.createdAt
  }

  lemma {:induction false} FilterNarrower(rows: seq<Token>, p: Token -> bool, q: Token -> bool)
    requires forall t :: p(t) ==> q(t)
    ensures |Filter(rows, p)| <= |Filter(rows, q)|
  {
    if rows != [] {
      FilterNarrower(rows[..|rows| - 1], p, q);
    }
  }

  /** Filtering before counting counts no more. */
  lemma {:induction false} FilterFewer(rows: seq<Token>, p: Token -> bool, q: Token -> bool)
    ensures |Filter(Filter(rows, p), q)| <= |Filter(rows, q)|
  {
    var both := (t: Token) => p(t) && q(t);
    FilterTwice(rows, p, q, both);
    FilterNarrower(rows, both, q);
  }

  lemma {:induction false} FilterAll(rows: seq<Token>, keep: Token -> bool, n: nat)
    requires n <= |rows| && forall i :: 0 <= i < n ==> keep(rows[i])
    ensures |Filter(rows, keep)| >= n
  {
    if rows != [] {
      FilterAll(rows[..|rows| - 1], keep, if n < |rows| then n else n - 1);
    }
  }

  /** A row's place among the newest is at most the number of newer rows. */
  lemma PlaceBound(rows: seq<Token>, input: Token, collate: Collation, t: Token, i: nat)
    requires UniqueIds(rows) && OwnTime(rows, t) && InGroup(input, t.session, t.purpose)
    requires var sorted := NewestFirst(ActiveRows(rows, input), collate); i < |sorted| && sorted[i] == t
    ensures i <= |Newer(rows, t)|
  {
    var active := ActiveRows(rows, input);
    var sorted := NewestFirst(active, collate);
    var group := (u: Token) => InGroup(u, input.session, input.purpose) && Active(u, input.createdAt);
    var newer := (u: Token) => InGroup(u, t.session, t.purpose) && u.createdAt > t.createdAt;
    NewestFirstSorts(active, collate);
    FilterMembers(rows, group);
    FilterUnique(rows, group);
    UniquePermuted(active, sorted);
    forall k | 0 <= k < i
      ensures newer(sorted[k])
    {
      assert sorted[k] in multiset(active);
      assert sorted[k] in active;
    }
    FilterAll(sorted, newer, i);
    FilterPermuted(sorted, active, newer);
    FilterFewer(rows, group, newer);
  }

  /** With fewer than seven newer rows in its group, an unexpired token survives an issue. */
  lemma SurvivesIssue(rows: seq<Token>, input: Token, collate: Collation, t: Token)
    requires UniqueIds(rows) && OwnTime(rows, t) && t in rows && !t.consumed && !t.revoked
    requires InGroup(input, t.session, t.purpose) ==>
               t.createdAt < input.createdAt < t.expiresAt && |Newer(rows, t)| < MAX_ACTIVE - 1
    requires Issue(rows, input, collate).Some?
    ensures t in Issue(rows, input, collate).value
  {
    var gone := Evicted(rows, input, collate);
    if InGroup(input, t.session, t.purpose) {
      FilterMembers(rows, (u: Token) => InGroup(u, input.session, input.purpose) && Active(u, input.createdAt));
      var i := EvictedByRank(rows, input, collate, t);
      PlaceBound(rows, input, collate, t, i);
      StaysIff(rows, input, collate, t);
    } else {
      FilterMembers(rows, (u: Token) => !Dead(u, input));
      FilterMembers(Purged(rows, input), (u: Token) => !(InGroup(u, input.session, input.purpose) && u.id in gone));
    }
  }

  /** An issue adds at most one newer row, and only to its own group. */
  lemma NewerAfterIssue(rows: seq<Token>, input: Token, collate: Collation, t: Token)
    requires Issue(rows, input, collate).Some? && OwnTime(rows, t)
    requires InGroup(input, t.session, t.purpose) ==> t.createdAt < input.createdAt
    ensures |Newer(Issue(rows, input, collate).value, t)| <= |Newer(rows, t)| + if InGroup(input, t.session, t.purpose) then 1 else 0
    ensures OwnTime(Issue(rows, input, collate).value, t)
  {
    var gone := Evicted(rows, input, collate);
    var alive := (u: Token) => !Dead(u, input);
    var kept := (u: Token) => !(InGroup(u, input.session, input.purpose) && u.id in gone);
    var newer := (u: Token) => InGroup(u, t.session, t.purpose) && u.createdAt > t.createdAt;
    FilterAppend(Retained(rows, input, collate), input, newer);
    FilterFewer(Purged(rows, input), kept, newer);
    FilterFewer(rows, alive, newer);
    FilterMembers(rows, alive);
    FilterMembers(Purged(rows, input), kept);
  }

  lemma {:induction false} MarkedNewer(rows: seq<Token>, event: Event, t: Token)
    requires !event.Issued?
    ensures |Newer(Marked(rows, event), t)| == |Newer(rows, t)|
  {
    if rows != [] {
      var last := |rows| - 1;
      MarkedNewer(rows[..last], event, t);
      assert Marked(rows, event)[..last] == Marked(rows[..last], event);
    }
  }

  lemma MarkedKeeps(rows: seq<Token>, event: Event, t: Token)
    requires !event.Issued? && event.id != t.id && UniqueIds(rows) && OwnTime(rows, t) && t in rows
    ensures UniqueIds(Marked(rows, event)) && OwnTime(Marked(rows, event), t) && t in Marked(rows, event)
  {
    var i :| 0 <= i < |rows| && rows[i] == t;
    assert Marked(rows, event)[i] == t;
    forall u | u in Marked(rows, event) && InGroup(u, t.session, t.purpose) && u.id != t.id
      ensures u.createdAt != t.createdAt
    {
      var k :| 0 <= k < |rows| && Marked(rows, event)[k] == u;
      assert rows[k] in rows;
    }
  }

  /** What a run keeps about a token for as long as it may not be evicted. */
  lemma {:induction false} RunKeeps(rows: seq<Token>, events: seq<Event>, collate: Collation, t: Token)
    requires UniqueIds(rows) && OwnTime(rows, t) && t in rows && !t.consumed && !t.revoked
    requires Newer(rows, t) == [] && Later(events, t) && OwnIssues(events, t) <= MAX_ACTIVE - 1
    ensures var after := Run(rows, events, collate);
            t in after && UniqueIds(after) && OwnTime(after, t) && |Newer(after, t)| <= OwnIssues(events, t)
  {
    hide UniqueIds, OwnTime, Newer, Issue, Marked;
    if events != [] {
      var last := |events| - 1;
      var e := events[last];
      RunKeeps(rows, events[..last], collate, t);
      var before := Run(rows, events[..last], collate);
      if e.Issued? {
        if Issue(before, e.input, collate).Some? {
          SurvivesIssue(before, e.input, collate, t);
          NewerAfterIssue(before, e.input, collate, t);
          IssueKeepsUnique(before, e.input, collate);
        }
      } else {
        MarkedNewer(before, e, t);
        MarkedKeeps(before, e, t);
      }
    }
  }

  /**
   Bounded retention: a token that is newer than the rows of its own session and purpose is still there after
   any run of issues, consumptions and revocations, as long as at most seven of the issues are for its own
   session and purpose, those are later than it and find it unexpired, and it is neither consumed nor revoked.
   */
  lemma SurvivesSevenIssues(rows: seq<Token>, t: Token, events: seq<Event>, collate: Collation)
    requires UniqueIds(rows) && Issue(rows, t, collate).Some? && !t.consumed && !t.revoked
    requires forall u :: u in rows && InGroup(u, t.session, t.purpose) ==> u.createdAt < t.createdAt
    requires Later(events, t) && OwnIssues(events, t) <= 7
    ensures t in Run(Issue(rows, t, collate).value, events, collate)
  {
    hide Issue, Newer, OwnTime, UniqueIds, Run, Later;
    IssueKeepsUnique(rows, t, collate);
    NewestAfterIssue(rows, t, collate);
    RunKeeps(Issue(rows, t, collate).value, events, collate, t);
  }

  lemma FilterSubset(rows: seq<Token>, keep: Token -> bool, u: Token)
    requires u in Filter(rows, keep)
    ensures u in rows
  {
    FilterMembers(rows, keep);
  }

  lemma IssuedMember(rows: seq<Token>, input: Token, collate: Collation, u: Token)
    requires Issue(rows, input, collate).Some? && u in Issue(rows, input, collate).value
    ensures u == input || u in rows
  {
    hide Filter;
    if u != input {
      var gone := Evicted(rows, input, collate);
      FilterSubset(Purged(rows, input), (v: Token) => !(InGroup(v, input.session, input.purpose) && v.id in gone), u);
      FilterSubset(rows, (v: Token) => !Dead(v, input), u);
    }
  }

  /** The token just issued is the newest of its group. */
  lemma NewestAfterIssue(rows: seq<Token>, t: Token, collate: Collation)
    requires Issue(rows, t, collate).Some?
    requires forall u :: u in rows && InGroup(u, t.session, t.purpose) ==> u.createdAt < t.createdAt
    ensures var after := Issue(rows, t, collate).value; t in after && OwnTime(after, t) && Newer(after, t) == []
  {
    var after := Issue(rows, t, collate).value;
    assert after[|after| - 1] == t;
    hide Issue, Filter;
    forall u | u in after
      ensures u == t || !InGroup(u, t.session, t.purpose) || u.createdAt < t.createdAt
    {
      IssuedMember(rows, t, collate, u);
    }
    FilterCut(after, (u: Token) => InGroup(u, t.session, t.purpose) && u.createdAt > t.createdAt, 0);
  }
}
