/**
 What canonical text stands for: two values have the same text exactly if they are the same up to the order
 of object members at every depth.
 */
module CanonicalMeaning {
  import opened Wrappers
  import opened JsonText
  import opened StrictJson
  import opened Sorting
  import opened Bags
  import opened CanonicalJson

  /** The same scalars, the same items in the same order, the same members in any order. */
  predicate SameValue(a: Json, b: Json)
    decreases a
  {
    match a
    case Arr(items) =>
      b.Arr? && |items| == |b.items| && forall i :: 0 <= i < |items| ==> SameValue(items[i], b.items[i])
    case Obj(members) =>
      && b.Obj? && |members| == |b.members|
      && forall i :: 0 <= i < |members| ==>
           exists j :: 0 <= j < |b.members| && b.members[j].key == members[i].key && SameValue(members[i].value, b.members[j].value)
    case _ => a == b
  }

  lemma StillThere(b: seq<Member>, k: nat, x: Member)
    requires k < |b| && x in b && x != b[k]
    ensures x in b[..k] + b[k + 1..]
  {
    var rest := b[..k] + b[k + 1..];
    var j :| 0 <= j < |b| && b[j] == x;
    assert if j < k then rest[j] == x else rest[j - 1] == x;
  }

  lemma BagWithout(b: seq<Member>, k: nat)
    requires k < |b|
    ensures multiset(b) == multiset(b[..k] + b[k + 1..]) + multiset([b[k]])
  {
    assert b == b[..k] + [b[k]] + b[k + 1..];
  }

  lemma {:induction false} DistinctIncluded(a: seq<Member>, b: seq<Member>)
    requires DistinctKeys(a) && DistinctKeys(b) && |a| == |b| && forall x :: x in a ==> x in b
    ensures multiset(a) == multiset(b)
  {
    if a != [] {
      var last := |a| - 1;
      assert a[last] in b;
      var k :| 0 <= k < |b| && b[k] == a[last];
      var rest := b[..k] + b[k + 1..];
      DistinctWithout(b, k);
      forall x | x in a[..last]
        ensures x in rest
      {
        var i :| 0 <= i < last && a[i] == x;
        assert x in a && x.key != a[last].key;
        StillThere(b, k, x);
      }
      DistinctIncluded(a[..last], rest);
      BagWithout(b, k);
      assert a == a[..last] + [a[last]];
    }
  }

  /** Canonical objects are equal exactly if they have the same canonical members. */
  lemma ObjectsAgree(m: seq<Member>, n: seq<Member>)
    requires DistinctKeys(m)
    ensures Canonical(Obj(m)) == Canonical(Obj(n)) <==> multiset(CanonicalMembers(m)) == multiset(CanonicalMembers(n))
  {
    hide Enumerate, Sort, Canonical;
    CanonicalObject(m);
    CanonicalObject(n);
    ArrangedKeeps(CanonicalMembers(m));
    ArrangedKeeps(CanonicalMembers(n));
    if multiset(CanonicalMembers(m)) == multiset(CanonicalMembers(n)) {
      SortForgets(CanonicalMembers(m), CanonicalMembers(n));
    }
  }

  /** One object has the members of another, up to canonical forms of their values. */
  predicate HasMembers(m: seq<Member>, n: seq<Member>) {
    && |m| == |n|
    && forall i :: 0 <= i < |m| ==>
         exists j :: 0 <= j < |n| && n[j].key == m[i].key && Canonical(m[i].value) == Canonical(n[j].value)
  }

  lemma MembersAgree(m: seq<Member>, n: seq<Member>)
    requires DistinctKeys(m) && DistinctKeys(n)
    ensures multiset(CanonicalMembers(m)) == multiset(CanonicalMembers(n)) <==> HasMembers(m, n)
  {
    hide Canonical;
    var a, b := CanonicalMembers(m), CanonicalMembers(n);
    if multiset(a) == multiset(b) {
      assert |a| == |multiset(a)| && |b| == |multiset(b)|;
      forall i | 0 <= i < |m|
        ensures exists j :: 0 <= j < |n| && n[j].key == m[i].key && Canonical(m[i].value) == Canonical(n[j].value)
      {
        SameMember(a, b, a[i]);
        var j :| 0 <= j < |b| && b[j] == a[i];
      }
    }
    if HasMembers(m, n) {
      forall x | x in a
        ensures x in b
      {
        var i :| 0 <= i < |a| && a[i] == x;
        var j :| 0 <= j < |n| && n[j].key == m[i].key && Canonical(m[i].value) == Canonical(n[j].value);
        assert b[j] == x;
      }
      DistinctIncluded(a, b);
    }
  }

  /** Canonical forms are equal exactly for values that are the same. */
  lemma {:induction false} CanonicalMeans(a: Json, b: Json)
    requires JsValue(a) && JsValue(b)
    ensures Canonical(a) == Canonical(b) <==> SameValue(a, b)
    decreases a
  {
    hide Canonical, SameValue;
    if a.Arr? && b.Arr? && |a.items| == |b.items| {
      forall i | 0 <= i < |a.items|
        ensures Canonical(a.items[i]) == Canonical(b.items[i]) <==> SameValue(a.items[i], b.items[i])
      {
        CanonicalMeans(a.items[i], b.items[i]);
      }
      ArraysMean(a, b);
    } else if a.Obj? && b.Obj? {
      forall i, j | 0 <= i < |a.members| && 0 <= j < |b.members|
        ensures Canonical(a.members[i].value) == Canonical(b.members[j].value) <==> SameValue(a.members[i].value, b.members[j].value)
      {
        CanonicalMeans(a.members[i].value, b.members[j].value);
      }
      ObjectsMean(a, b);
    } else {
      OthersMean(a, b);
    }
  }

  lemma ArraysMean(a: Json, b: Json)
    requires a.Arr? && b.Arr? && |a.items| == |b.items|
    requires forall i :: 0 <= i < |a.items| ==> (Canonical(a.items[i]) == Canonical(b.items[i]) <==> SameValue(a.items[i], b.items[i]))
    ensures Canonical(a) == Canonical(b) <==> SameValue(a, b)
  {
    ArraysAgree(a.items, b.items);
    hide Canonical;
  }

  lemma ObjectsMean(a: Json, b: Json)
    requires a.Obj? && b.Obj? && DistinctKeys(a.members) && DistinctKeys(b.members)
    requires forall i, j :: 0 <= i < |a.members| && 0 <= j < |b.members| ==>
               (Canonical(a.members[i].value) == Canonical(b.members[j].value) <==> SameValue(a.members[i].value, b.members[j].value))
    ensures Canonical(a) == Canonical(b) <==> SameValue(a, b)
  {
    hide Canonical;
    ObjectsAgree(a.members, b.members);
    MembersAgree(a.members, b.members);
  }

  /** Values of different kinds, arrays of different lengths, and scalars. */
  lemma OthersMean(a: Json, b: Json)
    requires !(a.Arr? && b.Arr? && |a.items| == |b.items|) && !(a.Obj? && b.Obj?)
    ensures Canonical(a) == Canonical(b) <==> SameValue(a, b)
  {
    KindKept(a);
    KindKept(b);
    hide Canonical;
  }

  lemma ArraysAgree(x: seq<Json>, y: seq<Json>)
    requires |x| == |y|
    ensures Canonical(Arr(x)) == Canonical(Arr(y)) <==> forall i :: 0 <= i < |x| ==> Canonical(x[i]) == Canonical(y[i])
  {
    var a, b := Canonical(Arr(x)).items, Canonical(Arr(y)).items;
    assert forall i :: 0 <= i < |x| ==> a[i] == Canonical(x[i]) && b[i] == Canonical(y[i]);
  }

  lemma KindKept(v: Json)
    ensures v.Arr? ==> Canonical(v).Arr? && |Canonical(v).items| == |v.items|
    ensures v.Obj? ==> Canonical(v).Obj?
    ensures !v.Arr? && !v.Obj? ==> Canonical(v) == v
  {
    hide Enumerate, Sort;
  }

  /** Two supported values have the same canonical text exactly if they are the same, up to member order at every depth. */
  lemma SerializeMeans(a: Json, b: Json)
    requires JsValue(a) && SafeNumbers(a) && JsValue(b) && SafeNumbers(b)
    ensures Serialize(a) == Serialize(b) <==> SameValue(a, b)
  {
    hide Canonical, Serialize, SameValue;
    SerializeInjective(a, b);
    CanonicalMeans(a, b);
  }
}
