/**
 Sorting rows by `compareTuple` on string tuples.  JavaScript's sort is stable, so it is a stable
 insertion sort here.  The results say when the sorted list is independent of the order of the input.
 */
module Sorting {
  import Lex

  type Tuple = seq<string>

  // ---- compareTuple ----

  function At(t: Tuple, i: nat): string {
    if i < |t| then t[i] else ""
  }

  function Longer(a: Tuple, b: Tuple): nat {
    if |a| < |b| then |b| else |a|
  }

  function CompareFrom(a: Tuple, b: Tuple, i: nat): int
    decreases Longer(a, b) - i
  {
    if i >= Longer(a, b) then 0
    else if Lex.Less(At(a, i), At(b, i)) then -1
    else if Lex.Less(At(b, i), At(a, i)) then 1
    else CompareFrom(a, b, i + 1)
  }

  function Compare(a: Tuple, b: Tuple): int {
    CompareFrom(a, b, 0)
  }

  /** The comparison loop; a missing component counts as the empty string. */
  method CompareTuple(a: Tuple, b: Tuple) returns (r: int)
    ensures r == Compare(a, b)
  {
    var i := 0;
    while i < Longer(a, b)
      invariant 0 <= i <= Longer(a, b)
      invariant Compare(a, b) == CompareFrom(a, b, i)
    {
      if Lex.Less(At(a, i), At(b, i)) {
        return -1;
      }
      if Lex.Less(At(b, i), At(a, i)) {
        return 1;
      }
      i := i + 1;
    }
    r := 0;
  }

  lemma {:induction false} FirstDifference(a: Tuple, b: Tuple, i: nat, k: nat)
    requires i <= k && forall j :: i <= j < k ==> At(a, j) == At(b, j)
    requires At(a, k) != At(b, k)
    ensures CompareFrom(a, b, i) == if Lex.Less(At(a, k), At(b, k)) then -1 else 1
    decreases k - i
  {
    Lex.Irreflexive(At(a, i));
    Lex.Total(At(a, k), At(b, k));
    if i < k {
      FirstDifference(a, b, i + 1, k);
    }
  }

  lemma {:induction false} ZeroMeansEqual(a: Tuple, b: Tuple, i: nat)
    ensures CompareFrom(a, b, i) == 0 <==> forall j :: j >= i ==> At(a, j) == At(b, j)
    decreases Longer(a, b) - i
  {
    if i < Longer(a, b) {
      Lex.Total(At(a, i), At(b, i));
      Lex.Irreflexive(At(a, i));
      ZeroMeansEqual(a, b, i + 1);
    }
  }

  /** The first component from `i` on in which two tuples differ. */
  lemma {:induction false} Differ(a: Tuple, b: Tuple, i: nat) returns (k: nat)
    requires CompareFrom(a, b, i) != 0
    ensures i <= k && At(a, k) != At(b, k) && forall j :: i <= j < k ==> At(a, j) == At(b, j)
    decreases Longer(a, b) - i
  {
    Lex.Irreflexive(At(a, i));
    Lex.Total(At(a, i), At(b, i));
    if At(a, i) != At(b, i) {
      k := i;
    } else {
      k := Differ(a, b, i + 1);
    }
  }

  /** A missing component counts as empty: a longer tuple comes behind its front, unless what it adds is empty. */
  lemma Longest(a: Tuple, last: string)
    ensures Compare(a, a + [last]) == if last == "" then 0 else -1
  {
    var b := a + [last];
    if last == "" {
      CompareZero(a, b);
    } else {
      FirstDifference(a, b, 0, |a|);
    }
  }

  /** Equal exactly when all components agree, a missing one counting as empty. */
  lemma CompareZero(a: Tuple, b: Tuple)
    ensures Compare(a, b) == 0 <==> forall j: nat :: At(a, j) == At(b, j)
    ensures |a| == |b| ==> (Compare(a, b) == 0 <==> a == b)
  {
    ZeroMeansEqual(a, b, 0);
    if |a| == |b| && Compare(a, b) == 0 {
      assert forall j :: 0 <= j < |a| ==> a[j] == At(a, j) == At(b, j) == b[j];
    }
  }

  lemma CompareAntisymmetric(a: Tuple, b: Tuple)
    ensures Compare(b, a) == -Compare(a, b)
  {
    if Compare(a, b) == 0 {
      ZeroMeansEqual(a, b, 0);
      ZeroMeansEqual(b, a, 0);
    } else {
      var k := Differ(a, b, 0);
      FirstDifference(a, b, 0, k);
      FirstDifference(b, a, 0, k);
      Lex.Total(At(a, k), At(b, k));
      if Lex.Less(At(a, k), At(b, k)) && Lex.Less(At(b, k), At(a, k)) {
        Lex.Transitive(At(a, k), At(b, k), At(a, k));
        Lex.Irreflexive(At(a, k));
      }
    }
  }

  lemma CompareTransitive(a: Tuple, b: Tuple, c: Tuple)
    requires Compare(a, b) <= 0 && Compare(b, c) <= 0
    ensures Compare(a, c) <= 0
  {
    ZeroMeansEqual(a, b, 0);
    ZeroMeansEqual(b, c, 0);
    ZeroMeansEqual(a, c, 0);
    if Compare(a, b) == 0 && Compare(b, c) == 0 {
      assert forall j: nat :: At(a, j) == At(b, j) == At(c, j);
    } else if Compare(a, b) == 0 {
      var k := Differ(b, c, 0);
      FirstDifference(b, c, 0, k);
      FirstDifference(a, c, 0, k);
    } else if Compare(b, c) == 0 {
      var k := Differ(a, b, 0);
      FirstDifference(a, b, 0, k);
      FirstDifference(a, c, 0, k);
    } else {
      var k := Differ(a, b, 0);
      var m := Differ(b, c, 0);
      FirstDifference(a, b, 0, k);
      FirstDifference(b, c, 0, m);
      if k == m {
        Lex.Transitive(At(a, k), At(b, k), At(c, k));
        if At(a, k) == At(c, k) {
          Lex.Irreflexive(At(a, k));
        }
        FirstDifference(a, c, 0, k);
      } else {
        FirstDifference(a, c, 0, if k < m then k else m);
      }
    }
  }

  // ---- Stable sort by a key ----

  predicate Sorted<T>(s: seq<T>, key: T -> Tuple) {
    forall i, j :: 0 <= i < j < |s| ==> Compare(key(s[i]), key(s[j])) <= 0
  }

  /** Puts `x` behind every row that does not come after it. */
  function Insert<T>(s: seq<T>, x: T, key: T -> Tuple): seq<T> {
    if s == [] || Compare(key(s[|s| - 1]), key(x)) <= 0 then s + [x]
    else Insert(s[..|s| - 1], x, key) + [s[|s| - 1]]
  }

  function Sort<T>(s: seq<T>, key: T -> Tuple): seq<T> {
    if s == [] then [] else Insert(Sort(s[..|s| - 1], key), s[|s| - 1], key)
  }

  /** No row of `s` comes after `x`. */
  predicate AllBefore<T>(s: seq<T>, x: T, key: T -> Tuple) {
    forall i :: 0 <= i < |s| ==> Compare(key(s[i]), key(x)) <= 0
  }

  lemma AppendSorted<T>(s: seq<T>, x: T, key: T -> Tuple)
    requires Sorted(s, key) && AllBefore(s, x, key)
    ensures Sorted(s + [x], key)
  {
    hide Compare;
  }

  lemma LastIsLargest<T>(s: seq<T>, x: T, key: T -> Tuple)
    requires Sorted(s, key)
    requires s == [] || Compare(key(s[|s| - 1]), key(x)) <= 0
    ensures AllBefore(s, x, key)
  {
    hide Compare;
    forall i | 0 <= i < |s|
      ensures Compare(key(s[i]), key(x)) <= 0
    {
      if i < |s| - 1 {
        CompareTransitive(key(s[i]), key(s[|s| - 1]), key(x));
      }
    }
  }

  lemma AllBeforeRows<T>(s: seq<T>, t: seq<T>, y: T, x: T, key: T -> Tuple)
    requires multiset(t) == multiset(s) + multiset{y}
    requires AllBefore(s, x, key) && Compare(key(y), key(x)) <= 0
    ensures AllBefore(t, x, key)
  {
    hide Compare;
    forall i | 0 <= i < |t|
      ensures Compare(key(t[i]), key(x)) <= 0
    {
      assert t[i] in multiset(t);
      if t[i] != y {
        assert t[i] in multiset(s);
        assert t[i] in s;
      }
    }
  }

  lemma {:induction false} InsertSorted<T>(s: seq<T>, x: T, key: T -> Tuple)
    requires Sorted(s, key)
    ensures Sorted(Insert(s, x, key), key)
    ensures multiset(Insert(s, x, key)) == multiset(s) + multiset{x}
  {
    hide Compare, AllBefore;
    if s == [] || Compare(key(s[|s| - 1]), key(x)) <= 0 {
      LastIsLargest(s, x, key);
      AppendSorted(s, x, key);
    } else {
      var last := |s| - 1;
      assert s == s[..last] + [s[last]];
      var rest := Insert(s[..last], x, key);
      InsertSorted(s[..last], x, key);
      CompareAntisymmetric(key(s[last]), key(x));
      assert AllBefore(s[..last], s[last], key) by { PrefixBefore(s, key); }
      AllBeforeRows(s[..last], rest, x, s[last], key);
      AppendSorted(rest, s[last], key);
    }
  }

  lemma PrefixBefore<T>(s: seq<T>, key: T -> Tuple)
    requires s != [] && Sorted(s, key)
    ensures AllBefore(s[..|s| - 1], s[|s| - 1], key)
  {
  }

  lemma {:induction false} SortSorts<T>(s: seq<T>, key: T -> Tuple)
    ensures Sorted(Sort(s, key), key)
    ensures multiset(Sort(s, key)) == multiset(s)
  {
    if s != [] {
      SortSorts(s[..|s| - 1], key);
      InsertSorted(Sort(s[..|s| - 1], key), s[|s| - 1], key);
      assert s == s[..|s| - 1] + [s[|s| - 1]];
    }
  }

  /** A sorted list is left alone. */
  lemma {:induction false} SortedIsFixed<T>(s: seq<T>, key: T -> Tuple)
    requires Sorted(s, key)
    ensures Sort(s, key) == s
  {
    if s != [] {
      SortedIsFixed(s[..|s| - 1], key);
      assert s == s[..|s| - 1] + [s[|s| - 1]];
      if |s| > 1 {
        assert s[..|s| - 1][|s| - 2] == s[|s| - 2];
      }
    }
  }

  lemma SortIdempotent<T>(s: seq<T>, key: T -> Tuple)
    ensures Sort(Sort(s, key), key) == Sort(s, key)
  {
    SortSorts(s, key);
    SortedIsFixed(Sort(s, key), key);
  }

  /** Rows that the key cannot tell apart are equal. */
  predicate KeyDetermines<T(==)>(s: seq<T>, key: T -> Tuple) {
    forall i, j :: 0 <= i < |s| && 0 <= j < |s| && Compare(key(s[i]), key(s[j])) == 0 ==> s[i] == s[j]
  }

  /** The last rows of two sorted lists of the same rows are equal. */
  lemma LastEqual<T>(a: seq<T>, b: seq<T>, key: T -> Tuple)
    requires Sorted(a, key) && Sorted(b, key) && multiset(a) == multiset(b) && KeyDetermines(a, key)
    requires a != [] && b != []
    ensures a[|a| - 1] == b[|b| - 1]
  {
    hide Compare;
    var x, y := a[|a| - 1], b[|b| - 1];
    assert x in multiset(b) && y in multiset(a);
    assert x in b && y in a;
    var i :| 0 <= i < |b| && b[i] == x;
    var j :| 0 <= j < |a| && a[j] == y;
    CompareAntisymmetric(key(x), key(y));
    CompareZero(key(x), key(x));
    CompareZero(key(y), key(y));
    assert Compare(key(a[j]), key(x)) <= 0 && Compare(key(b[i]), key(y)) <= 0;
  }

  lemma DropLast<T>(a: seq<T>, key: T -> Tuple)
    requires a != [] && Sorted(a, key)
    ensures Sorted(a[..|a| - 1], key)
    ensures KeyDetermines(a, key) ==> KeyDetermines(a[..|a| - 1], key)
  {
    hide Compare;
  }

  /** Two sorted lists of the same rows are the same list, when the key determines the row. */
  lemma {:induction false} SortedUnique<T>(a: seq<T>, b: seq<T>, key: T -> Tuple)
    requires Sorted(a, key) && Sorted(b, key) && multiset(a) == multiset(b) && KeyDetermines(a, key)
    ensures a == b
  {
    hide Compare, Sorted, KeyDetermines;
    assert |a| == |multiset(a)| == |multiset(b)| == |b|;
    if a != [] {
      var last := |a| - 1;
      LastEqual(a, b, key);
      DropLast(a, key);
      DropLast(b, key);
      assert a == a[..last] + [a[last]] && b == b[..last] + [b[last]];
      assert multiset(a[..last]) == multiset(a) - multiset{a[last]} == multiset(b[..last]);
      SortedUnique(a[..last], b[..last], key);
    }
  }

  // ---- When the sorted list forgets the input order ----

  /** The rows with a given key, in order. */
  function Same<T>(s: seq<T>, k: Tuple, key: T -> Tuple): seq<T> {
    if s == [] then []
    else
      var last := |s| - 1;
      Same(s[..last], k, key) + (if Compare(key(s[last]), k) == 0 then [s[last]] else [])
  }

  lemma ZeroTransitive(a: Tuple, b: Tuple, c: Tuple)
    requires Compare(a, b) == 0
    ensures Compare(a, c) == 0 <==> Compare(b, c) == 0
  {
    CompareZero(a, b);
    CompareZero(b, c);
    CompareZero(a, c);
  }

  lemma {:induction false} InsertKeepsSame<T>(s: seq<T>, x: T, k: Tuple, key: T -> Tuple)
    ensures Same(Insert(s, x, key), k, key) == Same(s + [x], k, key)
  {
    assert (s + [x])[..|s|] == s;
    if s != [] && Compare(key(s[|s| - 1]), key(x)) > 0 {
      var last := |s| - 1;
      InsertKeepsSame(s[..last], x, k, key);
      assert (s[..last] + [x])[..last] == s[..last];
      var inserted := Insert(s[..last], x, key);
      assert (inserted + [s[last]])[..|inserted|] == inserted;
      if Compare(key(s[last]), k) == 0 && Compare(key(x), k) == 0 {
        CompareAntisymmetric(key(x), k);
        ZeroTransitive(key(s[last]), k, key(x));
        assert false;
      }
    }
  }

  /** Stability: rows with equal keys keep their order. */
  lemma {:induction false} SortStable<T>(s: seq<T>, k: Tuple, key: T -> Tuple)
    ensures Same(Sort(s, key), k, key) == Same(s, k, key)
  {
    if s != [] {
      var last := |s| - 1;
      SortStable(s[..last], k, key);
      var sorted := Sort(s[..last], key);
      InsertKeepsSame(sorted, s[last], k, key);
      assert (sorted + [s[last]])[..|sorted|] == sorted;
    }
  }

  lemma {:induction false} SameAppend<T>(a: seq<T>, b: seq<T>, k: Tuple, key: T -> Tuple)
    ensures Same(a + b, k, key) == Same(a, k, key) + Same(b, k, key)
  {
    if b == [] {
      assert a + b == a;
    } else {
      var last := |b| - 1;
      assert (a + b)[..|a| + last] == a + b[..last];
      SameAppend(a, b[..last], k, key);
    }
  }

  /** Swapping two different rows that compare equal changes the sorted list. */
  lemma SwapShows<T>(s: seq<T>, i: nat, j: nat, key: T -> Tuple)
    requires i < j < |s| && s[i] != s[j] && Compare(key(s[i]), key(s[j])) == 0
    ensures var t := s[i := s[j]][j := s[i]]; multiset(t) == multiset(s) && Sort(t, key) != Sort(s, key)
  {
    var t, k := s[i := s[j]][j := s[i]], key(s[j]);
    var a, b, c := s[..i], s[i + 1..j], s[j + 1..];
    assert s == a + [s[i]] + b + [s[j]] + c;
    assert t == a + [s[j]] + b + [s[i]] + c;
    CompareZero(k, k);
    SplitSame(a, s[i], b, s[j], c, k, key);
    SplitSame(a, s[j], b, s[i], c, k, key);
    var x, y := Same(s, k, key), Same(t, k, key);
    assert x[|Same(a, k, key)|] == s[i] && y[|Same(a, k, key)|] == s[j];
    SortStable(s, k, key);
    SortStable(t, k, key);
  }

  lemma SplitSame<T>(a: seq<T>, x: T, b: seq<T>, y: T, c: seq<T>, k: Tuple, key: T -> Tuple)
    requires Compare(key(x), k) == 0 && Compare(key(y), k) == 0
    ensures Same(a + [x] + b + [y] + c, k, key) == Same(a, k, key) + [x] + Same(b, k, key) + [y] + Same(c, k, key)
  {
    SameAppend(a + [x] + b + [y], c, k, key);
    SameAppend(a + [x] + b, [y], k, key);
    SameAppend(a + [x], b, k, key);
    SameAppend(a, [x], k, key);
    assert [x][..0] == [] && [y][..0] == [];
  }

  ghost predicate OrderForgotten<T(!new)>(s: seq<T>, key: T -> Tuple) {
    forall t: seq<T> :: multiset(t) == multiset(s) ==> Sort(t, key) == Sort(s, key)
  }

  /** Sorting forgets the order of its input exactly when rows with equal keys are equal. */
  lemma OrderForgottenIff<T(!new)>(s: seq<T>, key: T -> Tuple)
    ensures OrderForgotten(s, key) <==> KeyDetermines(s, key)
  {
    hide Compare, Sort, Sorted;
    if KeyDetermines(s, key) {
      hide KeyDetermines;
      forall t: seq<T> | multiset(t) == multiset(s)
        ensures Sort(t, key) == Sort(s, key)
      {
        SortSorts(s, key);
        SortSorts(t, key);
        SameRows(s, Sort(s, key), key);
        SortedUnique(Sort(s, key), Sort(t, key), key);
      }
    } else {
      var i, j :| 0 <= i < |s| && 0 <= j < |s| && Compare(key(s[i]), key(s[j])) == 0 && s[i] != s[j];
      CompareAntisymmetric(key(s[i]), key(s[j]));
      if i < j {
        SwapShows(s, i, j, key);
      } else {
        SwapShows(s, j, i, key);
      }
    }
  }

  lemma SameRows<T>(s: seq<T>, t: seq<T>, key: T -> Tuple)
    requires multiset(s) == multiset(t) && KeyDetermines(s, key)
    ensures KeyDetermines(t, key)
  {
    forall i, j | 0 <= i < |t| && 0 <= j < |t| && Compare(key(t[i]), key(t[j])) == 0
      ensures t[i] == t[j]
    {
      assert t[i] in multiset(t) && t[j] in multiset(t);
      assert t[i] in multiset(s) && t[j] in multiset(s);
      var a :| 0 <= a < |s| && s[a] == t[i];
      var b :| 0 <= b < |s| && s[b] == t[j];
    }
  }
}
