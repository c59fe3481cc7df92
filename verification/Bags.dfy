/** Lists with the same elements in different orders. */
module Bags {
  /** Where the last element of `b` stands in a list with the same elements, and what is left without it. */
  lemma TakeOut<T>(a: seq<T>, b: seq<T>) returns (k: nat)
    requires multiset(a) == multiset(b) && b != []
    ensures k < |a| && a[k] == b[|b| - 1] && a == a[..k] + [a[k]] + a[k + 1..]
    ensures multiset(a[..k] + a[k + 1..]) == multiset(b[..|b| - 1])
  {
    var last := |b| - 1;
    var x := b[last];
    assert b == b[..last] + [x];
    assert x in multiset(a);
    assert x in a;
    k :| 0 <= k < |a| && a[k] == x;
    assert a == a[..k] + [x] + a[k + 1..];
    var rest := a[..k] + a[k + 1..];
    assert multiset(rest) == multiset(a) - multiset{x} by {
      assert multiset(a) == multiset(rest) + multiset{x};
    }
    assert multiset(b[..last]) == multiset(b) - multiset{x} by {
      assert multiset(b) == multiset(b[..last]) + multiset{x};
    }
  }

  lemma SameMember<T>(a: seq<T>, b: seq<T>, x: T)
    requires multiset(a) == multiset(b)
    ensures x in a <==> x in b
  {
    assert x in a <==> x in multiset(a);
    assert x in b <==> x in multiset(b);
  }
}
