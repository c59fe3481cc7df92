/**
 The canonical serializer: members sorted by key at every depth, then enumerated as JavaScript
 enumerates an object's own properties, array indices first and in numeric order.
 */
module CanonicalJson {
  import opened Wrappers
  import opened JsonText
  import opened StrictJson
  import opened Bags
  import opened Sorting
  import Lex

  // ---- Keys in order ----

  /** A text as a string of bytes, so that it sorts by code units. */
  function Wide(t: Text): string {
    if t == [] then "" else [(t[0] / 0x100) as char, (t[0] % 0x100) as char] + Wide(t[1..])
  }

  lemma {:induction false} WideInjective(a: Text, b: Text)
    requires Wide(a) == Wide(b)
    ensures a == b
  {
    if a != [] && b != [] {
      var x, y := Wide(a), Wide(b);
      assert x[0] == y[0] && x[1] == y[1];
      assert a[0] / 0x100 == b[0] / 0x100 && a[0] % 0x100 == b[0] % 0x100;
      assert x[2..] == Wide(a[1..]) && y[2..] == Wide(b[1..]);
      WideInjective(a[1..], b[1..]);
      assert a == [a[0]] + a[1..] && b == [b[0]] + b[1..];
    }
  }

  function KeyTuple(m: Member): Tuple {
    [Wide(m.key)]
  }

  /** An array index: a canonical decimal below 2^32 - 1. */
  predicate IsIndex(t: Text) {
    && t != [] && (forall i :: 0 <= i < |t| ==> Digit(t[i]))
    && (t[0] == 0x30 ==> |t| == 1) && DecimalValue(t) < 0xFFFFFFFF
  }

  function Ones(n: nat): string {
    seq(n, _ => '1')
  }

  /** An index as a run of that many ones, which sorts as the number does. */
  function IndexTuple(m: Member): Tuple {
    [Ones(if IsIndex(m.key) then DecimalValue(m.key) else 0)]
  }

  lemma {:induction false} OnesOrder(m: nat, n: nat)
    ensures Lex.Less(Ones(m), Ones(n)) <==> m < n
  {
    if m > 0 && n > 0 {
      OnesOrder(m - 1, n - 1);
      assert Ones(m)[1..] == Ones(m - 1) && Ones(n)[1..] == Ones(n - 1);
    }
  }

  /** Code units, compared from the front. */
  predicate UnitsLess(a: Text, b: Text) {
    if b == [] then false
    else if a == [] then true
    else a[0] < b[0] || (a[0] == b[0] && UnitsLess(a[1..], b[1..]))
  }

  lemma {:induction false} WideOrder(a: Text, b: Text)
    ensures Lex.Less(Wide(a), Wide(b)) <==> UnitsLess(a, b)
  {
    if a != [] && b != [] {
      var x, y := Wide(a), Wide(b);
      assert x[1..][1..] == Wide(a[1..]) && y[1..][1..] == Wide(b[1..]);
      assert x[1..][0] == x[1] && y[1..][0] == y[1];
      WideOrder(a[1..], b[1..]);
      assert (x[0] < y[0] || (x[0] == y[0] && x[1] < y[1])) <==> a[0] < b[0];
    }
  }

  function Indices(members: seq<Member>): seq<Member> {
    if members == [] then []
    else
      var last := |members| - 1;
      Indices(members[..last]) + (if IsIndex(members[last].key) then [members[last]] else [])
  }

  function Names(members: seq<Member>): seq<Member> {
    if members == [] then []
    else
      var last := |members| - 1;
      Names(members[..last]) + (if IsIndex(members[last].key) then [] else [members[last]])
  }

  /** The order in which JavaScript lists members that were set in the given order. */
  function Enumerate(members: seq<Member>): seq<Member> {
    Sort(Indices(members), IndexTuple) + Names(members)
  }

  function Canonical(v: Json): Json {
    match v
    case Arr(items) => Arr(seq(|items|, i requires 0 <= i < |items| => Canonical(items[i])))
    case Obj(members) =>
      Obj(Enumerate(Sort(seq(|members|, i requires 0 <= i < |members| => Member(members[i].key, Canonical(members[i].value))),
                         KeyTuple)))
    case _ => v
  }

  predicate SafeNumbers(v: Json) {
    match v
    case Num(n) => Safe(n)
    case Arr(items) => forall i :: 0 <= i < |items| ==> SafeNumbers(items[i])
    case Obj(members) => forall i :: 0 <= i < |members| ==> SafeNumbers(members[i].value)
    case _ => true
  }

  /** Object keys are distinct at every depth, as they are in any JavaScript value. */
  predicate JsValue(v: Json) {
    match v
    case Arr(items) => forall i :: 0 <= i < |items| ==> JsValue(items[i])
    case Obj(members) => DistinctKeys(members) && forall i :: 0 <= i < |members| ==> JsValue(members[i].value)
    case _ => true
  }

  /** Refuses a value that holds an unsafe number anywhere. */
  function Serialize(v: Json): Option<Text> {
    if SafeNumbers(v) then Some(Print(Canonical(v))) else None
  }

  // ---- Reordering keeps keys distinct ----

  lemma DistinctWithout(a: seq<Member>, k: nat)
    requires DistinctKeys(a) && k < |a|
    ensures DistinctKeys(a[..k] + a[k + 1..])
    ensures forall m :: m in a[..k] + a[k + 1..] ==> m.key != a[k].key
  {
    var rest := a[..k] + a[k + 1..];
    forall j | 0 <= j < |rest|
      ensures rest[j] == if j < k then a[j] else a[j + 1]
    {
    }
  }

  lemma {:induction false} DistinctPermuted(a: seq<Member>, b: seq<Member>)
    requires multiset(a) == multiset(b) && DistinctKeys(a)
    ensures DistinctKeys(b)
    decreases |b|
  {
    if b != [] {
      var last := |b| - 1;
      var k := TakeOut(a, b);
      var rest := a[..k] + a[k + 1..];
      DistinctWithout(a, k);
      DistinctPermuted(rest, b[..last]);
      forall i | 0 <= i < last
        ensures b[i].key != b[last].key
      {
        SameMember(rest, b[..last], b[..last][i]);
      }
    }
  }

  lemma {:induction false} Partition(members: seq<Member>)
    ensures multiset(Indices(members)) + multiset(Names(members)) == multiset(members)
  {
    if members != [] {
      var last := |members| - 1;
      assert members == members[..last] + [members[last]];
      Partition(members[..last]);
    }
  }

  lemma EnumerateKeeps(members: seq<Member>)
    ensures multiset(Enumerate(members)) == multiset(members)
  {
    Partition(members);
    SortSorts(Indices(members), IndexTuple);
  }

  lemma ArrangedKeeps(members: seq<Member>)
    ensures multiset(Enumerate(Sort(members, KeyTuple))) == multiset(members)
  {
    SortSorts(members, KeyTuple);
    EnumerateKeeps(Sort(members, KeyTuple));
  }

  /** The members of a canonical object, before they are arranged. */
  function CanonicalMembers(members: seq<Member>): (r: seq<Member>)
    ensures |r| == |members|
    ensures forall i :: 0 <= i < |members| ==> r[i] == Member(members[i].key, Canonical(members[i].value))
  {
    seq(|members|, i requires 0 <= i < |members| => Member(members[i].key, Canonical(members[i].value)))
  }

  lemma CanonicalObject(members: seq<Member>)
    ensures Canonical(Obj(members)) == Obj(Enumerate(Sort(CanonicalMembers(members), KeyTuple)))
  {
    assert seq(|members|, i requires 0 <= i < |members| => Member(members[i].key, Canonical(members[i].value)))
        == CanonicalMembers(members);
  }

  /** The canonical form of a JavaScript value with safe numbers can be printed. */
  lemma {:induction false} CanonicalPrintable(v: Json)
    requires JsValue(v) && SafeNumbers(v)
    ensures Printable(Canonical(v))
    decreases v
  {
    hide Enumerate, Sort;
    match v
    case Arr(items) =>
      forall i | 0 <= i < |items|
        ensures Printable(Canonical(items[i]))
      {
        CanonicalPrintable(items[i]);
      }
    case Obj(members) =>
      var inner := CanonicalMembers(members);
      var outer := Enumerate(Sort(inner, KeyTuple));
      CanonicalObject(members);
      ArrangedKeeps(inner);
      DistinctPermuted(inner, outer);
      forall i | 0 <= i < |outer|
        ensures Printable(outer[i].value)
      {
        SameMember(inner, outer, outer[i]);
        var k :| 0 <= k < |inner| && inner[k] == outer[i];
        CanonicalPrintable(members[k].value);
      }
    case Null =>
    case Bool(_) =>
    case Num(_) =>
    case Str(_) =>
  }

  /** Serializing and parsing gives the canonical form, for every nesting of the supported values. */
  lemma RoundTrip(v: Json)
    requires JsValue(v) && SafeNumbers(v)
    ensures Serialize(v).Some? && Parse(Serialize(v).value) == Some(Canonical(v))
  {
    hide Parse, Print, Canonical;
    CanonicalPrintable(v);
    PrintParse(Canonical(v));
  }

  /** Two values serialize alike exactly when they have the same canonical form. */
  lemma SerializeInjective(a: Json, b: Json)
    requires JsValue(a) && SafeNumbers(a) && JsValue(b) && SafeNumbers(b)
    ensures Serialize(a) == Serialize(b) <==> Canonical(a) == Canonical(b)
  {
    hide Parse, Print, Canonical;
    RoundTrip(a);
    RoundTrip(b);
  }

  // ---- The canonical form does not depend on member order ----

  lemma KeysDetermine(members: seq<Member>)
    requires DistinctKeys(members)
    ensures KeyDetermines(members, KeyTuple)
  {
    hide Compare;
    forall i, j | 0 <= i < |members| && 0 <= j < |members| && Compare(KeyTuple(members[i]), KeyTuple(members[j])) == 0
      ensures members[i] == members[j]
    {
      CompareZero(KeyTuple(members[i]), KeyTuple(members[j]));
      assert KeyTuple(members[i])[0] == KeyTuple(members[j])[0];
      WideInjective(members[i].key, members[j].key);
    }
  }

  lemma SortForgets(a: seq<Member>, b: seq<Member>)
    requires multiset(a) == multiset(b) && DistinctKeys(a)
    ensures Sort(a, KeyTuple) == Sort(b, KeyTuple)
  {
    KeysDetermine(a);
    SortSorts(a, KeyTuple);
    SortSorts(b, KeyTuple);
    SameRows(a, Sort(a, KeyTuple), KeyTuple);
    SortedUnique(Sort(a, KeyTuple), Sort(b, KeyTuple), KeyTuple);
  }

  lemma CanonicalSplit(a: seq<Member>, b: seq<Member>)
    ensures CanonicalMembers(a + b) == CanonicalMembers(a) + CanonicalMembers(b)
  {
    hide Canonical;
  }

  lemma {:induction false} CanonicalBag(a: seq<Member>, b: seq<Member>)
    requires multiset(a) == multiset(b)
    ensures multiset(CanonicalMembers(a)) == multiset(CanonicalMembers(b))
    decreases |b|
  {
    hide Canonical, CanonicalMembers;
    if b == [] {
      assert |a| == |multiset(a)| == 0;
    } else {
      var last := |b| - 1;
      var k := TakeOut(a, b);
      var x, front, back := [b[last]], a[..k], a[k + 1..];
      CanonicalBag(front + back, b[..last]);
      CanonicalSplit(front, back);
      CanonicalSplit(front + x, back);
      CanonicalSplit(front, x);
      assert b == b[..last] + x;
      CanonicalSplit(b[..last], x);
    }
  }

  /** Objects with the same members, set in any order, have the same canonical form and the same text. */
  lemma OrderForgotten(a: seq<Member>, b: seq<Member>)
    requires DistinctKeys(a) && multiset(a) == multiset(b)
    ensures Canonical(Obj(a)) == Canonical(Obj(b))
  {
    hide Enumerate, Sort, Canonical;
    CanonicalObject(a);
    CanonicalObject(b);
    CanonicalBag(a, b);
    SortForgets(CanonicalMembers(a), CanonicalMembers(b));
  }

  /** Canonical forms are fixed: canonicalising twice changes nothing. */
  lemma {:induction false} CanonicalIdempotent(v: Json)
    requires JsValue(v)
    ensures Canonical(Canonical(v)) == Canonical(v)
    decreases v
  {
    hide Enumerate, Sort;
    match v
    case Arr(items) =>
      forall i | 0 <= i < |items|
        ensures Canonical(Canonical(items[i])) == Canonical(items[i])
      {
        CanonicalIdempotent(items[i]);
      }
    case Obj(members) =>
      var inner := CanonicalMembers(members);
      var outer := Enumerate(Sort(inner, KeyTuple));
      CanonicalObject(members);
      CanonicalObject(outer);
      ArrangedKeeps(inner);
      forall i | 0 <= i < |outer|
        ensures Canonical(outer[i].value) == outer[i].value
      {
        SameMember(inner, outer, outer[i]);
        var k :| 0 <= k < |inner| && inner[k] == outer[i];
        CanonicalIdempotent(members[k].value);
      }
      assert CanonicalMembers(outer) == outer;
      SortForgets(inner, outer);
    case Null =>
    case Bool(_) =>
    case Num(_) =>
    case Str(_) =>
  }

  // ---- An object read back lists its members in the order of the text ----

  lemma {:induction false} IndicesAppend(a: seq<Member>, b: seq<Member>)
    ensures Indices(a + b) == Indices(a) + Indices(b)
    decreases |b|
  {
    hide IsIndex, Names, Canonical;
    if b == [] {
      assert a + b == a;
    } else {
      var last := |b| - 1;
      var whole := a + b;
      assert whole[..|whole| - 1] == a + b[..last] && whole[|whole| - 1] == b[last];
      IndicesAppend(a, b[..last]);
    }
  }

  lemma {:induction false} NamesAppend(a: seq<Member>, b: seq<Member>)
    ensures Names(a + b) == Names(a) + Names(b)
    decreases |b|
  {
    hide IsIndex, Indices, Canonical;
    if b == [] {
      assert a + b == a;
    } else {
      var last := |b| - 1;
      var whole := a + b;
      assert whole[..|whole| - 1] == a + b[..last] && whole[|whole| - 1] == b[last];
      NamesAppend(a, b[..last]);
    }
  }

  lemma {:induction false} OnlyIndices(a: seq<Member>)
    requires forall i :: 0 <= i < |a| ==> IsIndex(a[i].key)
    ensures Indices(a) == a && Names(a) == []
  {
    hide IsIndex;
    if a != [] {
      var last := |a| - 1;
      OnlyIndices(a[..last]);
      assert a == a[..last] + [a[last]];
    }
  }

  lemma {:induction false} OnlyNames(a: seq<Member>)
    requires forall i :: 0 <= i < |a| ==> !IsIndex(a[i].key)
    ensures Indices(a) == [] && Names(a) == a
  {
    hide IsIndex;
    if a != [] {
      var last := |a| - 1;
      OnlyNames(a[..last]);
      assert a == a[..last] + [a[last]];
    }
  }

  lemma {:induction false} KindsOf(a: seq<Member>)
    ensures forall m :: m in Indices(a) ==> IsIndex(m.key)
    ensures forall m :: m in Names(a) ==> !IsIndex(m.key)
  {
    hide IsIndex;
    if a != [] {
      KindsOf(a[..|a| - 1]);
    }
  }

  /** Setting members in enumeration order keeps that order, so a parsed canonical text serializes to itself. */
  lemma EnumerateTwice(members: seq<Member>)
    ensures Enumerate(Enumerate(members)) == Enumerate(members)
  {
    hide IsIndex, Sort, Sorted, Indices, Names, Canonical, Compare;
    var sorted, names := Sort(Indices(members), IndexTuple), Names(members);
    KindsOf(members);
    SortSorts(Indices(members), IndexTuple);
    forall m | m in sorted
      ensures IsIndex(m.key)
    {
      SameMember(Indices(members), sorted, m);
    }
    OnlyIndices(sorted);
    OnlyNames(names);
    IndicesAppend(sorted, names);
    NamesAppend(sorted, names);
    SortIdempotent(Indices(members), IndexTuple);
    assert sorted + [] == sorted && [] + names == names;
    assert Indices(sorted + names) == sorted && Names(sorted + names) == names;
    assert Sort(sorted, IndexTuple) == sorted;
  }

  // ---- When the text lists the members in key order ----

  lemma KeyOrder(a: Member, b: Member)
    ensures Compare(KeyTuple(a), KeyTuple(b)) <= 0 <==> a.key == b.key || UnitsLess(a.key, b.key)
    ensures a.key != b.key ==> (UnitsLess(a.key, b.key) <==> !UnitsLess(b.key, a.key))
  {
    var x, y := Wide(a.key), Wide(b.key);
    WideOrder(a.key, b.key);
    WideOrder(b.key, a.key);
    Lex.Total(x, y);
    Lex.Irreflexive(x);
    if Lex.Less(x, y) && Lex.Less(y, x) {
      Lex.Transitive(x, y, x);
    }
    if x == y {
      WideInjective(a.key, b.key);
    }
    assert Sorting.At(KeyTuple(a), 0) == x && Sorting.At(KeyTuple(b), 0) == y;
    assert CompareFrom(KeyTuple(a), KeyTuple(b), 1) == 0;
  }

  lemma IndexOrder(a: Member, b: Member)
    requires IsIndex(a.key) && IsIndex(b.key)
    ensures Compare(IndexTuple(a), IndexTuple(b)) <= 0 <==> DecimalValue(a.key) <= DecimalValue(b.key)
  {
    var m, n := DecimalValue(a.key), DecimalValue(b.key);
    OnesOrder(m, n);
    OnesOrder(n, m);
    assert Sorting.At(IndexTuple(a), 0) == Ones(m) && Sorting.At(IndexTuple(b), 0) == Ones(n);
    assert CompareFrom(IndexTuple(a), IndexTuple(b), 1) == 0;
  }

  /** Canonical decimals with the same value are the same text. */
  lemma {:induction false} CanonicalDecimal(t: Text)
    requires t != [] && (forall i :: 0 <= i < |t| ==> Digit(t[i])) && (t[0] == 0x30 ==> |t| == 1)
    ensures Decimal(DecimalValue(t)) == t
    ensures |t| > 1 ==> DecimalValue(t) >= 10
  {
    var last := |t| - 1;
    if last > 0 {
      CanonicalDecimal(t[..last]);
      assert t == t[..last] + [t[last]];
      assert last == 1 ==> t[..last] == [t[0]] && DecimalValue(t[..last][..0]) == 0;
    } else {
      assert DecimalValue(t[..0]) == 0;
    }
  }

  /** The array indices are exactly the decimal texts of the numbers below 2^32 - 1. */
  lemma IndexIff(t: Text)
    ensures IsIndex(t) <==> exists n: nat :: n <= 4294967294 && t == Decimal(n)
  {
    if IsIndex(t) {
      CanonicalDecimal(t);
    }
    if n: nat :| n <= 4294967294 && t == Decimal(n) {
      DecimalRoundTrip(n);
    }
  }

  /** JavaScript lists indices before names, and indices in numeric order, however they were set. */
  predicate ListedBefore(a: Text, b: Text) {
    IsIndex(a) && (IsIndex(b) ==> DecimalValue(a) < DecimalValue(b))
  }

  /** Key order agrees with JavaScript's listing: indices before names, and in numeric order. */
  predicate ListedByKey(members: seq<Member>) {
    forall a, b :: a in members && b in members && ListedBefore(a.key, b.key) ==> UnitsLess(a.key, b.key)
  }

  lemma {:induction false} NamesInOrder(members: seq<Member>)
    requires Sorted(members, KeyTuple)
    ensures Sorted(Names(members), KeyTuple)
  {
    hide IsIndex, Compare, KeyTuple, Indices;
    if members != [] {
      var last := |members| - 1;
      DropLast(members, KeyTuple);
      NamesInOrder(members[..last]);
      if !IsIndex(members[last].key) {
        NamesFrom(members[..last]);
        PrefixBefore(members, KeyTuple);
        forall i | 0 <= i < |Names(members[..last])|
          ensures Compare(KeyTuple(Names(members[..last])[i]), KeyTuple(members[last])) <= 0
        {
          assert Names(members[..last])[i] in members[..last];
          var k :| 0 <= k < last && members[..last][k] == Names(members[..last])[i];
        }
        AppendSorted(Names(members[..last]), members[last], KeyTuple);
      }
    }
  }

  lemma {:induction false} NamesFrom(members: seq<Member>)
    ensures forall m :: m in Names(members) ==> m in members && !IsIndex(m.key)
  {
    hide IsIndex, Indices;
    if members != [] {
      NamesFrom(members[..|members| - 1]);
    }
  }

  lemma {:induction false} IndicesFrom(members: seq<Member>)
    ensures forall m :: m in Indices(members) <==> m in members && IsIndex(m.key)
  {
    hide IsIndex, Names;
    if members != [] {
      IndicesFrom(members[..|members| - 1]);
      assert members == members[..|members| - 1] + [members[|members| - 1]];
    }
  }

  lemma {:induction false} NamesAll(members: seq<Member>)
    ensures forall m :: m in members && !IsIndex(m.key) ==> m in Names(members)
  {
    hide IsIndex, Indices;
    if members != [] {
      NamesAll(members[..|members| - 1]);
      assert members == members[..|members| - 1] + [members[|members| - 1]];
    }
  }

  /** The listing of sorted members, pair by pair. */
  lemma ListedPair(s: seq<Member>, i: nat, j: nat)
    requires DistinctKeys(s) && Sorted(s, KeyTuple) && ListedByKey(s) && i < j < |Enumerate(s)|
    ensures Compare(KeyTuple(Enumerate(s)[i]), KeyTuple(Enumerate(s)[j])) <= 0
  {
    hide IsIndex, Compare, KeyTuple, IndexTuple, Sort, Indices, Names, UnitsLess, Canonical;
    var sorted, names := Sort(Indices(s), IndexTuple), Names(s);
    var a, b := Enumerate(s)[i], Enumerate(s)[j];
    SortSorts(Indices(s), IndexTuple);
    SameMember(Indices(s), sorted, a);
    SameMember(Indices(s), sorted, b);
    IndicesFrom(s);
    NamesFrom(s);
    NamesInOrder(s);
    KeyOrder(a, b);
    if i >= |sorted| {
      assert a == names[i - |sorted|] && b == names[j - |sorted|];
    } else if j >= |sorted| {
      assert a == sorted[i] && b == names[j - |sorted|];
      assert a in sorted && b in names;
    } else {
      assert a == sorted[i] && b == sorted[j] && a in sorted && b in sorted;
      assert Compare(IndexTuple(sorted[i]), IndexTuple(sorted[j])) <= 0;
      IndexOrder(a, b);
      SameIndex(a, b);
    }
  }

  lemma SameIndex(a: Member, b: Member)
    requires IsIndex(a.key) && IsIndex(b.key)
    ensures DecimalValue(a.key) == DecimalValue(b.key) ==> a.key == b.key
  {
    CanonicalDecimal(a.key);
    CanonicalDecimal(b.key);
  }

  lemma ListingSorts(s: seq<Member>)
    requires DistinctKeys(s) && Sorted(s, KeyTuple) && ListedByKey(s)
    ensures Enumerate(s) == s
  {
    hide IsIndex, Compare, KeyTuple, IndexTuple, Sort, Indices, Names, UnitsLess, Enumerate, ListedByKey;
    forall i, j | 0 <= i < j < |Enumerate(s)|
      ensures Compare(KeyTuple(Enumerate(s)[i]), KeyTuple(Enumerate(s)[j])) <= 0
    {
      ListedPair(s, i, j);
    }
    EnumerateKeeps(s);
    KeysDetermine(s);
    SortedUnique(s, Enumerate(s), KeyTuple);
  }

  lemma SortedPosition(s: seq<Member>, key: Member -> Tuple, i: nat, j: nat)
    requires Sorted(s, key) && i < |s| && j < |s| && Compare(key(s[j]), key(s[i])) > 0
    ensures i < j
  {
    hide Compare;
    CompareZero(key(s[i]), key(s[i]));
  }

  lemma SortedListing(s: seq<Member>, a: Member, b: Member)
    requires DistinctKeys(s) && Sorted(s, KeyTuple) && Enumerate(s) == s
    requires a in s && b in s && ListedBefore(a.key, b.key)
    ensures UnitsLess(a.key, b.key)
  {
    hide IsIndex, Compare, KeyTuple, IndexTuple, Sort, Indices, Names, UnitsLess;
    var sorted, names := Sort(Indices(s), IndexTuple), Names(s);
    SortSorts(Indices(s), IndexTuple);
    IndicesFrom(s);
    NamesAll(s);
    SameMember(Indices(s), sorted, a);
    SameMember(Indices(s), sorted, b);
    var i :| 0 <= i < |sorted| && sorted[i] == a;
    assert s[i] == a;
    KeyOrder(a, b);
    if IsIndex(b.key) {
      var j :| 0 <= j < |sorted| && sorted[j] == b;
      assert s[j] == b;
      IndexOrder(b, a);
      SortedPosition(sorted, IndexTuple, i, j);
    } else {
      var j :| 0 <= j < |names| && names[j] == b;
      assert s[|sorted| + j] == b;
    }
  }

  lemma ListedPermuted(a: seq<Member>, b: seq<Member>)
    requires multiset(a) == multiset(b)
    ensures ListedByKey(a) <==> ListedByKey(b)
  {
    hide IsIndex, UnitsLess;
    forall m | true
      ensures m in a <==> m in b
    {
      SameMember(a, b, m);
    }
  }

  /**
   The members of an object come out in key order exactly if key order agrees with JavaScript's listing:
   every index key is less than every other key, and the index keys increase with their numbers.
   */
  lemma PrintedInKeyOrderIff(members: seq<Member>)
    requires DistinctKeys(members)
    ensures Enumerate(Sort(members, KeyTuple)) == Sort(members, KeyTuple) <==> ListedByKey(members)
  {
    hide IsIndex, Compare, KeyTuple, Sort, Enumerate, UnitsLess, ListedByKey;
    var s := Sort(members, KeyTuple);
    SortSorts(members, KeyTuple);
    DistinctPermuted(members, s);
    ListedPermuted(members, s);
    if ListedByKey(s) {
      ListingSorts(s);
    }
    if Enumerate(s) == s {
      InKeyOrder(s);
    }
  }

  /** So the canonical text of an object is in key order exactly if its keys are listed that way. */
  lemma CanonicalInKeyOrderIff(members: seq<Member>)
    requires DistinctKeys(members)
    ensures Sorted(Canonical(Obj(members)).members, KeyTuple) <==> ListedByKey(members)
  {
    hide IsIndex, Compare, KeyTuple, Sort, Enumerate, UnitsLess, Canonical, Sorted;
    var inner := CanonicalMembers(members);
    var s := Sort(inner, KeyTuple);
    CanonicalObject(members);
    SameKeys(members, inner);
    PrintedInKeyOrderIff(inner);
    SortSorts(inner, KeyTuple);
    EnumerateKeeps(s);
    DistinctPermuted(inner, s);
    KeysDetermine(s);
    if Sorted(Enumerate(s), KeyTuple) {
      SortedUnique(s, Enumerate(s), KeyTuple);
    }
  }

  lemma SameKeys(a: seq<Member>, b: seq<Member>)
    requires |a| == |b| && forall i :: 0 <= i < |a| ==> a[i].key == b[i].key
    ensures DistinctKeys(a) <==> DistinctKeys(b)
    ensures ListedByKey(a) <==> ListedByKey(b)
  {
    hide ListedByKey;
    if ListedByKey(a) {
      KeysKept(a, b);
    }
    if ListedByKey(b) {
      KeysKept(b, a);
    }
  }

  lemma KeysKept(a: seq<Member>, b: seq<Member>)
    requires |a| == |b| && (forall i :: 0 <= i < |a| ==> a[i].key == b[i].key) && ListedByKey(a)
    ensures ListedByKey(b)
  {
    hide IsIndex, UnitsLess, ListedBefore;
    forall x, y | x in b && y in b && ListedBefore(x.key, y.key)
      ensures UnitsLess(x.key, y.key)
    {
      var i :| 0 <= i < |b| && b[i] == x;
      var j :| 0 <= j < |b| && b[j] == y;
      assert a[i].key == x.key && a[j].key == y.key;
      assert a[i] in a && a[j] in a;
    }
  }

  lemma InKeyOrder(s: seq<Member>)
    requires DistinctKeys(s) && Sorted(s, KeyTuple) && Enumerate(s) == s
    ensures ListedByKey(s)
  {
    hide IsIndex, KeyTuple, Enumerate, UnitsLess;
    forall a, b | a in s && b in s && ListedBefore(a.key, b.key)
      ensures UnitsLess(a.key, b.key)
    {
      SortedListing(s, a, b);
    }
  }

  /** The keys "9" and "10": sorting puts "10" first, and the text still lists "9" first. */
  lemma NineBeforeTen(nine: Json, ten: Json)
    ensures var a, b := Member([0x39], nine), Member([0x31, 0x30], ten);
            && Sort([a, b], KeyTuple) == [b, a]
            && Enumerate(Sort([a, b], KeyTuple)) == [a, b]
  {
    hide Compare, KeyTuple, IndexTuple, Sort, IsIndex, Indices, Names;
    var a, b := Member([0x39], nine), Member([0x31, 0x30], ten);
    TenFirst(a, b);
    NineFirst(a, b);
    OnlyIndices([b, a]);
  }

  lemma TenFirst(a: Member, b: Member)
    requires a.key == [0x39] && b.key == [0x31, 0x30]
    ensures Sort([a, b], KeyTuple) == [b, a]
  {
    hide Compare, KeyTuple, Sort;
    KeyOrder(b, a);
    KeyOrder(a, b);
    SortsTo([a, b], [b, a], KeyTuple);
  }

  lemma NineFirst(a: Member, b: Member)
    requires a.key == [0x39] && b.key == [0x31, 0x30]
    ensures IsIndex(a.key) && IsIndex(b.key) && Sort([b, a], IndexTuple) == [a, b]
  {
    hide Compare, IndexTuple, Sort, IsIndex;
    TwoIndices();
    IndexOrder(a, b);
    IndexOrder(b, a);
    SortsTo([b, a], [a, b], IndexTuple);
  }

  lemma TwoIndices()
    ensures IsIndex([0x39]) && IsIndex([0x31, 0x30])
    ensures DecimalValue([0x39]) == 9 && DecimalValue([0x31, 0x30]) == 10
  {
    assert [0x39][..0] == [] && [0x31, 0x30][..1] == [0x31] && [0x31][..0] == [];
    assert DecimalValue([0x31]) == 1;
  }

  /** Two rows in strict order are the sorted form of the same two rows. */
  lemma SortsTo(rows: seq<Member>, sorted: seq<Member>, key: Member -> Tuple)
    requires |rows| == |sorted| == 2 && multiset(rows) == multiset(sorted)
    requires Compare(key(sorted[0]), key(sorted[1])) <= 0 && Compare(key(sorted[1]), key(sorted[0])) > 0
    ensures Sort(rows, key) == sorted
  {
    hide Compare, Sort, Sorted;
    CompareZero(key(sorted[0]), key(sorted[0]));
    CompareZero(key(sorted[1]), key(sorted[1]));
    CompareAntisymmetric(key(sorted[0]), key(sorted[1]));
    SortSorts(rows, key);
    TwoSorted(sorted, key);
    SortedUnique(sorted, Sort(rows, key), key);
  }

  lemma TwoSorted(sorted: seq<Member>, key: Member -> Tuple)
    requires |sorted| == 2 && Compare(key(sorted[0]), key(sorted[1])) < 0 && Compare(key(sorted[1]), key(sorted[0])) > 0
    ensures Sorted(sorted, key) && KeyDetermines(sorted, key)
  {
    hide Compare;
  }
}
