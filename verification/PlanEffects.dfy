/**
 What a derived plan says the database will look like: which rows of the prestate each operation starts
 from, which operations are accepted, and what owners and grants the plan ends with.
 */
module PlanEffects {
  import opened Wrappers
  import opened AsciiText
  import opened Bags
  import opened Sorting
  import opened AclInverse
  import opened InversePlan

  // ---- Entries about one grantee and privilege ----

  predicate About(e: Entry, p: string, q: string) {
    e.grantee == p && Upper(e.privilege) == q
  }

  predicate Nothing(s: seq<Entry>, p: string, q: string) {
    forall e :: e in s ==> !About(e, p, q)
  }

  /** `x` is there once, and nothing else is about the same grantee and privilege. */
  predicate Only(s: seq<Entry>, p: string, q: string, x: Entry) {
    About(x, p, q) && multiset(s)[x] == 1 && forall e :: e in s && About(e, p, q) ==> e == x
  }

  /** Two lists agree on everything that is not about the grantee and privilege. */
  ghost predicate SameOthers(s: seq<Entry>, t: seq<Entry>, p: string, q: string) {
    forall e :: !About(e, p, q) ==> multiset(s)[e] == multiset(t)[e]
  }

  lemma OnlyHit(s: seq<Entry>, p: string, q: string, x: Entry)
    ensures Hits(s, p, q) == [x] ==> Only(s, p, q, x)
    ensures Only(s, p, q, x) ==> Hits(s, p, q) == [x]
    ensures Hits(s, p, q) == [] <==> Nothing(s, p, q)
  {
    HitsAndMisses(s, p, q);
    var hits, misses := Hits(s, p, q), Misses(s, p, q);
    HitsMembers(s, p, q);
    if hits == [x] {
      assert x in hits;
      assert multiset(s)[x] == multiset([x])[x] + multiset(misses)[x];
      assert x !in misses;
    }
    if Only(s, p, q, x) {
      assert x in s;
      assert x in hits;
      assert multiset(s)[x] == multiset(hits)[x] + multiset(misses)[x];
      assert forall e :: e in hits ==> e == x;
      AllOne(hits, x);
    }
    if hits != [] {
      assert hits[0] in hits;
    }
  }

  lemma HitsMembers(s: seq<Entry>, p: string, q: string)
    ensures forall e :: e in Hits(s, p, q) <==> e in s && About(e, p, q)
    ensures forall e :: e in Misses(s, p, q) <==> e in s && !About(e, p, q)
  {
    HitsAndMisses(s, p, q);
    SameMembers(s, Hits(s, p, q) + Misses(s, p, q));
  }

  lemma AllOne(s: seq<Entry>, x: Entry)
    requires (forall e :: e in s ==> e == x) && multiset(s)[x] == 1
    ensures s == [x]
  {
    forall e: Entry
      ensures multiset(s)[e] == multiset{x}[e]
    {
      assert e in multiset(s) ==> e in s;
    }
    assert multiset(s) == multiset{x};
    OneRow(s, x);
  }

  /** What the code looks up, as what is in the list. */
  lemma TargetIs(s: seq<Entry>, p: string, q: string)
    ensures TargetEntry(s, p, q).Absent? <==> Nothing(s, p, q)
    ensures forall x :: TargetEntry(s, p, q) == Present(x) <==> Only(s, p, q, x)
  {
    hide Hits, Only;
    forall x: Entry
      ensures TargetEntry(s, p, q) == Present(x) <==> Only(s, p, q, x)
    {
      OnlyHit(s, p, q, x);
    }
    OnlyHit(s, p, q, Entry("", "", "", false));
  }

  /** The entries after a grant or a revoke, told by what is in the list before. */
  predicate Effect(s: seq<Entry>, t: seq<Entry>, op: Operation, user: string)
    requires !op.SetOwner?
  {
    var p, q := op.principal, op.privilege;
    match op.action
    case Revoke => Nothing(t, p, q)
    case Grant =>
      if Nothing(s, p, q) then Only(t, p, q, Entry(user, p, Lower(q), op.grantOption))
      else forall x :: x in s && About(x, p, q) ==> Only(t, p, q, x.(grantOption := x.grantOption || op.grantOption))
  }

  lemma RowsMean(s: seq<Entry>, p: string, q: string, hits: seq<Entry>, misses: multiset<Entry>)
    requires Rows(s, p, q, hits, misses)
    ensures hits == [] ==> Nothing(s, p, q)
    ensures |hits| == 1 ==> Only(s, p, q, hits[0])
    ensures forall e :: !About(e, p, q) ==> multiset(s)[e] == misses[e]
  {
    OnlyHit(s, p, q, if |hits| == 1 then hits[0] else Entry("", "", "", false));
    HitsMembers(s, p, q);
    if |hits| == 1 {
      assert hits == [hits[0]];
    }
    forall e | !About(e, p, q)
      ensures multiset(s)[e] == misses[e]
    {
      assert e !in Hits(s, p, q);
    }
  }

  lemma ChangedEffect(s: seq<Entry>, op: Operation, user: string)
    requires !op.SetOwner? && Normal(op) && !TargetEntry(s, op.principal, op.privilege).Unclear?
    ensures var p, q := op.principal, op.privilege;
            var t := Arrange(Changed(s, op.action, p, q, op.grantOption, TargetEntry(s, p, q), user));
            Effect(s, t, op, user) && SameOthers(s, t, p, q) && Sorted(t, EntryTuple)
  {
    hide Sort, Sorted, Hits, Misses, Only, Upper, Lower, Rows, Changed;
    var p, q := op.principal, op.privilege;
    var target, misses := TargetEntry(s, p, q), multiset(Misses(s, p, q));
    var t := Arrange(Changed(s, op.action, p, q, op.grantOption, target, user));
    RowsOf(s, p, q);
    RowsMean(s, p, q, Hits(s, p, q), misses);
    ChangedRows(s, op.action, p, q, op.grantOption, user, misses);
    RowsMean(t, p, q, ChangedHits(op.action, p, q, op.grantOption, target, user), misses);
    TargetIs(s, p, q);
    if target.Present? {
      OnlyMeans(s, p, q, target.entry);
    }
  }

  lemma OnlyMeans(s: seq<Entry>, p: string, q: string, x: Entry)
    requires Only(s, p, q, x)
    ensures x in s && !Nothing(s, p, q) && forall e :: e in s && About(e, p, q) ==> e == x
  {
    assert x in multiset(s);
  }

  // ---- One more operation ----

  /** The inverse of a grant or a revoke, literally. */
  function InverseFor(op: Operation, present: bool): Inverse
    requires !op.SetOwner?
  {
    if present && op.action == Grant && !op.previousGrantOption && op.grantOption then
      Inverse(op.(action := Revoke, grantOption := false, previousGrantOption := true), true)
    else
      Inverse(op.(action := if present then Grant else Revoke, grantOption := op.previousGrantOption,
                  previousGrantOption := op.grantOption), false)
  }

  /** A plan goes on with a change of owner exactly if it names the current owner, and then only the owner changes. */
  lemma OwnerStep(pre: Prestate, ops: seq<Operation>, op: Operation)
    requires op.SetOwner? && Derive(pre, ops).Some?
    ensures var m, key := Derive(pre, ops).value, OwnerKey(op.class_, op.name);
            && (Derive(pre, ops + [op]).Some? <==> exists oid :: Before(pre, m.state, key) == Some(Owner(oid, op.previousOwner)))
            && forall oid :: Before(pre, m.state, key) == Some(Owner(oid, op.previousOwner)) ==>
                 Derive(pre, ops + [op]) ==
                 Some(Model(m.unsupported, m.state[key := Owner(oid, op.nextOwner)],
                            m.inverses + [Inverse(SetOwner(op.class_, op.name, op.nextOwner, op.previousOwner), false)]))
  {
    hide AuthorityFor;
    assert (ops + [op])[..|ops|] == ops;
    var before := Before(pre, Derive(pre, ops).value.state, KeyOf(op));
    if before.Some? && before.value.Owner? && before.value.owner == op.previousOwner {
      assert before == Some(Owner(before.value.oid, op.previousOwner));
    }
  }

  /** The kind of authority a key has. */
  predicate KindOk(key: Key, a: Authority) {
    match key
    case OwnerKey(_, _) => a.Owner?
    case ObjectKey(_, _) => a.ObjectAcl?
    case DefaultKey(_, _, _) => a.DefaultAcl?
  }

  lemma {:induction false} KindsKept(pre: Prestate, ops: seq<Operation>, key: Key)
    requires Derive(pre, ops).Some? && Before(pre, Derive(pre, ops).value.state, key).Some?
    ensures KindOk(key, Before(pre, Derive(pre, ops).value.state, key).value)
  {
    hide AuthorityFor, ObjectTransition, DefaultTransition, Arranged;
    var m := Derive(pre, ops).value;
    if key !in m.state {
      PrestateArranged(pre, key);
    } else if ops != [] {
      var last := |ops| - 1;
      var earlier := Derive(pre, ops[..last]).value;
      if KeyOf(ops[last]) == key {
        TransitionKind(ops[last], Before(pre, earlier.state, key).value, pre.currentUser);
      } else {
        KindsKept(pre, ops[..last], key);
      }
    }
  }

  lemma TransitionKind(op: Operation, before: Authority, user: string)
    requires TransitionOf(op, before, user).Some?
    ensures KindOk(KeyOf(op), TransitionOf(op, before, user).value.after)
  {
    hide Changed, Sort, TargetEntry, Reverse;
  }

  /** The authority itself, apart from its entries: an object keeps it; a default list that had no row gets one with its first entry. */
  predicate HeaderAfter(before: Authority, after: Authority) {
    match before
    case Owner(_, _) => false
    case ObjectAcl(name, oid, aclIsNull, _) => after.ObjectAcl? && after.name == name && after.oid == oid && after.aclIsNull == aclIsNull
    case DefaultAcl(oid, rowPresent, aclIsNull, _) =>
      && after.DefaultAcl? && after.aclIsNull == aclIsNull && after.oid == (if rowPresent then oid else "")
      && after.rowPresent == (rowPresent || after.entries != [])
  }

  /** Both kinds of grant change agree, apart from the authority around the entries. */
  lemma GrantTransition(op: Operation, before: Authority, user: string)
    requires !op.SetOwner? && Normal(op) && KindOk(KeyOf(op), before)
    ensures var s, p, q := before.entries, op.principal, op.privilege;
            var t := TransitionOf(op, before, user);
            && (t.Some? <==> if Nothing(s, p, q) then !op.previousGrantOption
                             else exists x :: Only(s, p, q, x) && x.grantOption == op.previousGrantOption)
            && (t.Some? ==>
                  && HeaderAfter(before, t.value.after) && Effect(s, t.value.after.entries, op, user)
                  && SameOthers(s, t.value.after.entries, p, q) && Sorted(t.value.after.entries, EntryTuple)
                  && t.value.inverse == InverseFor(op, !Nothing(s, p, q)))
  {
    hide Sort, Sorted, Hits, Misses, Only, Upper, Lower, Changed, Nothing, Effect, SameOthers;
    var s, p, q := before.entries, op.principal, op.privilege;
    var target := TargetEntry(s, p, q);
    TargetIs(s, p, q);
    if !target.Unclear? {
      ChangedEffect(s, op, user);
      var raw := Changed(s, op.action, p, q, op.grantOption, target, user);
      ArrangedLength(raw);
      if target.Present? {
        OnlyMeans(s, p, q, target.entry);
        assert forall x :: Only(s, p, q, x) ==> x == target.entry;
      }
    } else {
      assert forall x :: !Only(s, p, q, x);
    }
  }

  lemma ArrangedLength(s: seq<Entry>)
    ensures |Arrange(s)| == |s|
  {
    SortSorts(s, EntryTuple);
    assert |Arrange(s)| == |multiset(Arrange(s))| && |s| == |multiset(s)|;
  }

  /**
   A plan goes on with a grant or a revoke exactly if at most one entry is about its grantee and privilege and that
   entry's option is the one it names; then the entries change as the operation says and nothing else does.
   */
  lemma GrantStep(pre: Prestate, ops: seq<Operation>, op: Operation)
    requires !op.SetOwner? && Normal(op) && Derive(pre, ops).Some?
    ensures var m, key, p, q := Derive(pre, ops).value, KeyOf(op), op.principal, op.privilege;
            var before := Before(pre, m.state, key);
            && (Derive(pre, ops + [op]).Some? <==>
                  && before.Some? && !before.value.Owner?
                  && if Nothing(before.value.entries, p, q) then !op.previousGrantOption
                     else exists x :: Only(before.value.entries, p, q, x) && x.grantOption == op.previousGrantOption)
            && (Derive(pre, ops + [op]).Some? ==>
                  var n := Derive(pre, ops + [op]).value;
                  && n.state.Keys == m.state.Keys + {key} && (forall k :: k in m.state && k != key ==> n.state[k] == m.state[k])
                  && HeaderAfter(before.value, n.state[key])
                  && Effect(before.value.entries, n.state[key].entries, op, pre.currentUser)
                  && SameOthers(before.value.entries, n.state[key].entries, p, q)
                  && Sorted(n.state[key].entries, EntryTuple)
                  && n.inverses == m.inverses + [InverseFor(op, !Nothing(before.value.entries, p, q))])
  {
    hide AuthorityFor, TransitionOf, Only, Nothing, Effect, SameOthers, Sorted, HeaderAfter, KindOk, InverseFor;
    assert (ops + [op])[..|ops|] == ops;
    var before := Before(pre, Derive(pre, ops).value.state, KeyOf(op));
    if before.Some? {
      KindsKept(pre, ops, KeyOf(op));
      KindMeans(op, before.value);
      GrantTransition(op, before.value, pre.currentUser);
    }
  }

  lemma KindMeans(op: Operation, a: Authority)
    requires !op.SetOwner? && KindOk(KeyOf(op), a)
    ensures !a.Owner?
  {
  }

  // ---- What a whole plan ends with ----

  predicate LastOn(ops: seq<Operation>, i: nat, key: Key)
    requires i < |ops|
  {
    KeyOf(ops[i]) == key && forall j :: i < j < |ops| ==> KeyOf(ops[j]) != key
  }

  lemma Prefixes(pre: Prestate, ops: seq<Operation>)
    requires ops != [] && Derive(pre, ops).Some?
    ensures Derive(pre, ops[..|ops| - 1]).Some? && ops == ops[..|ops| - 1] + [ops[|ops| - 1]]
  {
    hide Extend;
  }

  lemma OtherKeys(pre: Prestate, ops: seq<Operation>, key: Key)
    requires ops != [] && Derive(pre, ops).Some? && KeyOf(ops[|ops| - 1]) != key
    ensures var earlier := Derive(pre, ops[..|ops| - 1]).value;
            && Before(pre, Derive(pre, ops).value.state, key) == Before(pre, earlier.state, key)
            && (key in Derive(pre, ops).value.state <==> key in earlier.state)
  {
    hide TransitionOf, AuthorityFor;
  }

  /** The oid of an owned object never changes, and the plan starts from the prestate's. */
  lemma {:induction false} OidKept(pre: Prestate, ops: seq<Operation>, key: Key)
    requires key.OwnerKey? && Derive(pre, ops).Some? && Before(pre, Derive(pre, ops).value.state, key).Some?
    ensures AuthorityFor(pre, key).Some? && AuthorityFor(pre, key).value.Owner?
    ensures Before(pre, Derive(pre, ops).value.state, key).value.Owner?
    ensures Before(pre, Derive(pre, ops).value.state, key).value.oid == AuthorityFor(pre, key).value.oid
  {
    hide AuthorityFor;
    KindsKept(pre, ops, key);
    if ops == [] {
    } else {
      var last := |ops| - 1;
      Prefixes(pre, ops);
      if KeyOf(ops[last]) == key {
        OwnerStep(pre, ops[..last], ops[last]);
        OidKept(pre, ops[..last], key);
      } else {
        OtherKeys(pre, ops, key);
        OidKept(pre, ops[..last], key);
      }
    }
  }

  /** A derived plan leaves every object it gives away with the last new owner, under the prestate's oid. */
  lemma {:induction false} OwnerFinal(pre: Prestate, ops: seq<Operation>, i: nat)
    requires Derive(pre, ops).Some? && i < |ops| && ops[i].SetOwner? && LastOn(ops, i, KeyOf(ops[i]))
    ensures KeyOf(ops[i]) in Derive(pre, ops).value.state && AuthorityFor(pre, KeyOf(ops[i])).Some?
    ensures AuthorityFor(pre, KeyOf(ops[i])).value.Owner?
    ensures Derive(pre, ops).value.state[KeyOf(ops[i])] == Owner(AuthorityFor(pre, KeyOf(ops[i])).value.oid, ops[i].nextOwner)
  {
    hide AuthorityFor;
    var last, key := |ops| - 1, KeyOf(ops[i]);
    Prefixes(pre, ops);
    if i == last {
      OwnerStep(pre, ops[..last], ops[last]);
      OidKept(pre, ops[..last], key);
    } else {
      assert KeyOf(ops[last]) != key;
      OtherKeys(pre, ops, key);
      assert ops[..last][i] == ops[i];
      OwnerFinal(pre, ops[..last], i);
    }
  }

  /** Each change of owner in a derived plan takes over from the one before it on that object, or from the prestate. */
  lemma OwnerChain(pre: Prestate, ops: seq<Operation>, i: nat, j: nat)
    requires Derive(pre, ops).Some? && i < j < |ops| && ops[i].SetOwner? && ops[j].SetOwner? && KeyOf(ops[i]) == KeyOf(ops[j])
    requires forall k :: i < k < j ==> KeyOf(ops[k]) != KeyOf(ops[i])
    ensures ops[j].previousOwner == ops[i].nextOwner
  {
    hide AuthorityFor, Derive, Before;
    DerivePrefix(pre, ops, j + 1);
    assert ops[..j + 1] == ops[..j] + [ops[j]];
    DerivePrefix(pre, ops, j);
    OwnerStep(pre, ops[..j], ops[j]);
    assert LastOn(ops[..j], i, KeyOf(ops[i]));
    OwnerFinal(pre, ops[..j], i);
    BeforeKept(pre, Derive(pre, ops[..j]).value, KeyOf(ops[j]));
  }

  lemma BeforeKept(pre: Prestate, m: Model, key: Key)
    ensures key in m.state ==> Before(pre, m.state, key) == Some(m.state[key])
  {
  }

  lemma DerivePrefix(pre: Prestate, ops: seq<Operation>, n: nat)
    requires n <= |ops| && Derive(pre, ops).Some?
    ensures Derive(pre, ops[..n]).Some?
  {
    if Derive(pre, ops[..n]).None? {
      DeriveFails(pre, ops, n);
    }
  }

  predicate Names(op: Operation, key: Key, p: string, q: string) {
    !op.SetOwner? && KeyOf(op) == key && op.principal == p && op.privilege == q
  }

  /** The entries a list of grants ends with, as the last operation that names one grantee and privilege says. */
  predicate Ended(s: seq<Entry>, op: Operation)
    requires !op.SetOwner?
  {
    match op.action
    case Revoke => Nothing(s, op.principal, op.privilege)
    case Grant =>
      exists x :: x in s && Only(s, op.principal, op.privilege, x) && x.grantOption == (op.previousGrantOption || op.grantOption)
  }

  lemma OnlyFrom(s: seq<Entry>, p: string, q: string, x: Entry)
    ensures Only(s, p, q, x) ==> x in s && About(x, p, q)
  {
    if Only(s, p, q, x) {
      assert x in multiset(s);
    }
  }

  lemma EffectEnds(s: seq<Entry>, t: seq<Entry>, op: Operation, user: string)
    requires !op.SetOwner? && Effect(s, t, op, user)
    requires if Nothing(s, op.principal, op.privilege) then !op.previousGrantOption
             else exists x :: Only(s, op.principal, op.privilege, x) && x.grantOption == op.previousGrantOption
    ensures Ended(t, op)
  {
    hide Only, About, Lower;
    var p, q := op.principal, op.privilege;
    if op.action == Grant {
      if Nothing(s, p, q) {
        OnlyFrom(t, p, q, Entry(user, p, Lower(q), op.grantOption));
      } else {
        var x :| Only(s, p, q, x) && x.grantOption == op.previousGrantOption;
        OnlyFrom(s, p, q, x);
        OnlyFrom(t, p, q, x.(grantOption := x.grantOption || op.grantOption));
      }
    }
  }

  /** A change of another grantee or privilege leaves the end as it is. */
  lemma EndedStays(s: seq<Entry>, t: seq<Entry>, op: Operation, other: Operation)
    requires !op.SetOwner? && !other.SetOwner? && (other.principal != op.principal || other.privilege != op.privilege)
    requires Ended(s, op) && SameOthers(s, t, other.principal, other.privilege)
    ensures Ended(t, op)
  {
    hide Upper;
    var p, q := op.principal, op.privilege;
    forall e | About(e, p, q)
      ensures multiset(s)[e] == multiset(t)[e] && (e in s <==> e in t)
    {
      assert !About(e, other.principal, other.privilege);
      assert e in s <==> e in multiset(s);
      assert e in t <==> e in multiset(t);
    }
    if op.action == Grant {
      var x :| x in s && Only(s, p, q, x) && x.grantOption == (op.previousGrantOption || op.grantOption);
      assert Only(t, p, q, x);
    }
  }

  /**
   A derived plan ends, for each grantee and privilege of each list, as the last operation that names it says: after
   a grant exactly one entry, with the option it named or gave; after a revoke none.
   */
  lemma {:induction false} GrantFinal(pre: Prestate, ops: seq<Operation>, i: nat)
    requires Derive(pre, ops).Some? && AllNormal(ops) && i < |ops| && !ops[i].SetOwner?
    requires forall j :: i < j < |ops| ==> !Names(ops[j], KeyOf(ops[i]), ops[i].principal, ops[i].privilege)
    ensures KeyOf(ops[i]) in Derive(pre, ops).value.state && !Derive(pre, ops).value.state[KeyOf(ops[i])].Owner?
    ensures Ended(Derive(pre, ops).value.state[KeyOf(ops[i])].entries, ops[i])
  {
    hide AuthorityFor, Ended, Effect, Nothing, Only, SameOthers, HeaderAfter, InverseFor;
    var last, key := |ops| - 1, KeyOf(ops[i]);
    Prefixes(pre, ops);
    HeaderMeans();
    if i == last {
      GrantStep(pre, ops[..last], ops[last]);
      var before := Before(pre, Derive(pre, ops[..last]).value.state, key).value;
      EffectEnds(before.entries, Derive(pre, ops).value.state[key].entries, ops[i], pre.currentUser);
    } else {
      assert ops[..last][i] == ops[i];
      GrantFinal(pre, ops[..last], i);
      if KeyOf(ops[last]) == key {
        GrantStep(pre, ops[..last], ops[last]);
        var before := Derive(pre, ops[..last]).value.state[key];
        assert !Names(ops[last], key, ops[i].principal, ops[i].privilege);
        EndedStays(before.entries, Derive(pre, ops).value.state[key].entries, ops[i], ops[last]);
      } else {
        OtherKeys(pre, ops, key);
      }
    }
  }

  lemma HeaderMeans()
    ensures forall a, b :: HeaderAfter(a, b) ==> !a.Owner? && !b.Owner?
  {
  }

  /** What no operation of a derived plan names stays as the prestate has it. */
  lemma {:induction false} GrantUntouched(pre: Prestate, ops: seq<Operation>, key: Key, e: Entry)
    requires Derive(pre, ops).Some? && AllNormal(ops) && key in Derive(pre, ops).value.state && !key.OwnerKey?
    requires forall j :: 0 <= j < |ops| ==> !Names(ops[j], key, e.grantee, Upper(e.privilege))
    ensures AuthorityFor(pre, key).Some? && !AuthorityFor(pre, key).value.Owner?
    ensures !Derive(pre, ops).value.state[key].Owner?
    ensures multiset(Derive(pre, ops).value.state[key].entries)[e] == multiset(AuthorityFor(pre, key).value.entries)[e]
  {
    hide AuthorityFor, Effect, Nothing, Only, HeaderAfter, InverseFor, Upper;
    var last := |ops| - 1;
    Prefixes(pre, ops);
    HeaderMeans();
    if KeyOf(ops[last]) == key {
      KeyIsGrant(ops[last], key);
      GrantStep(pre, ops[..last], ops[last]);
      assert !Names(ops[last], key, e.grantee, Upper(e.privilege));
      assert !About(e, ops[last].principal, ops[last].privilege);
      if key in Derive(pre, ops[..last]).value.state {
        GrantUntouched(pre, ops[..last], key, e);
      }
    } else {
      OtherKeys(pre, ops, key);
      GrantUntouched(pre, ops[..last], key, e);
    }
  }

  lemma KeyIsGrant(op: Operation, key: Key)
    requires KeyOf(op) == key && !key.OwnerKey?
    ensures !op.SetOwner?
  {
  }

  // ---- Which plans need no external restore ----

  lemma {:induction false} ArrangedKept(pre: Prestate, ops: seq<Operation>, key: Key)
    requires Derive(pre, ops).Some? && AllNormal(ops) && Before(pre, Derive(pre, ops).value.state, key).Some?
    ensures Arranged(Before(pre, Derive(pre, ops).value.state, key).value)
  {
    hide AuthorityFor, Arranged, TransitionOf;
    var m := Derive(pre, ops).value;
    if key !in m.state {
      PrestateArranged(pre, key);
    } else if ops != [] {
      var last := |ops| - 1;
      var earlier := Derive(pre, ops[..last]).value;
      if KeyOf(ops[last]) == key {
        ArrangedKept(pre, ops[..last], key);
        TransitionArranged(ops[last], Before(pre, earlier.state, key).value, pre.currentUser);
      } else {
        ArrangedKept(pre, ops[..last], key);
      }
    }
  }

  lemma TransitionArranged(op: Operation, before: Authority, user: string)
    requires Normal(op) && Arranged(before) && TransitionOf(op, before, user).Some?
    ensures Arranged(TransitionOf(op, before, user).value.after)
  {
    hide Changed, Sort, TargetEntry, Reverse, LowerCase, Sorted;
    if !op.SetOwner? {
      ChangedArranged(before.entries, op, user);
    }
  }

  /**
   A grant or a revoke keeps a plan free of external restores exactly if the entry it is about came from the right
   grantor and, when it changes anything, it turns an explicit list into one that is not empty.
   */
  lemma SupportedStep(pre: Prestate, ops: seq<Operation>, op: Operation)
    requires !op.SetOwner? && AllNormal(ops) && Normal(op) && Derive(pre, ops + [op]).Some?
    ensures Derive(pre, ops).Some? && Before(pre, Derive(pre, ops).value.state, KeyOf(op)).Some?
    ensures var m, n, p, q := Derive(pre, ops).value, Derive(pre, ops + [op]).value, op.principal, op.privilege;
            var before := Before(pre, m.state, KeyOf(op)).value;
            && KeyOf(op) in n.state && !before.Owner? && !n.state[KeyOf(op)].Owner?
            && (!n.unsupported <==>
                  && !m.unsupported
                  && (forall x :: x in before.entries && About(x, p, q) ==> x.grantor == GrantorFor(op, pre.currentUser))
                  && (n.state[KeyOf(op)] != before ==> Explicit(before) && n.state[KeyOf(op)].entries != []))
  {
    hide AuthorityFor, TransitionOf, Arranged, Explicit, GrantorFor, Only, About, KindOk;
    assert (ops + [op])[..|ops|] == ops;
    var m := Derive(pre, ops).value;
    var before := Before(pre, m.state, KeyOf(op)).value;
    ArrangedKept(pre, ops, KeyOf(op));
    KindsKept(pre, ops, KeyOf(op));
    KindMeans(op, before);
    SupportedIff(op, before, pre.currentUser);
    TransitionKind(op, before, pre.currentUser);
    KindMeans(op, Derive(pre, ops + [op]).value.state[KeyOf(op)]);
    TargetGrantor(op, before, pre.currentUser);
  }

  lemma TargetGrantor(op: Operation, before: Authority, user: string)
    requires !op.SetOwner? && !before.Owner? && TransitionOf(op, before, user).Some?
    ensures var target := TargetEntry(before.entries, op.principal, op.privilege);
            (target.Present? ==> target.entry.grantor == GrantorFor(op, user)) <==>
            forall x :: x in before.entries && About(x, op.principal, op.privilege) ==> x.grantor == GrantorFor(op, user)
  {
    hide Changed, Sort, Hits, Only, About, Reverse, GrantorFor;
    var s, p, q := before.entries, op.principal, op.privilege;
    var target := TargetEntry(s, p, q);
    TargetIs(s, p, q);
    if target.Present? {
      OnlyMeans(s, p, q, target.entry);
      OnlyFrom(s, p, q, target.entry);
    }
  }

  // ---- What the plan starts from ----

  /** The one row of a list with this name. */
  predicate OneRowNamed(rows: seq<OwnerRow>, name: string, oid: string, owner: string) {
    exists i :: 0 <= i < |rows| && rows[i] == OwnerRow(name, oid, owner)
                && forall j :: 0 <= j < |rows| && rows[j].name == name ==> j == i
  }

  lemma {:induction false} NamedRows(rows: seq<OwnerRow>, name: string)
    ensures OwnersNamed(rows, name) == [] <==> forall j :: 0 <= j < |rows| ==> rows[j].name != name
    ensures forall oid, owner :: OwnersNamed(rows, name) == [OwnerRow(name, oid, owner)] <==> OneRowNamed(rows, name, oid, owner)
    ensures forall r :: r in OwnersNamed(rows, name) ==> r.name == name
  {
    if rows != [] {
      var rest := rows[1..];
      NamedRows(rest, name);
      forall oid, owner
        ensures OwnersNamed(rows, name) == [OwnerRow(name, oid, owner)] <==> OneRowNamed(rows, name, oid, owner)
      {
        OneMoreNamed(rows, name, oid, owner);
      }
    }
  }

  lemma OneMoreNamed(rows: seq<OwnerRow>, name: string, oid: string, owner: string)
    requires rows != []
    requires OwnersNamed(rows[1..], name) == [] <==> forall j :: 0 <= j < |rows[1..]| ==> rows[1..][j].name != name
    requires OwnersNamed(rows[1..], name) == [OwnerRow(name, oid, owner)] <==> OneRowNamed(rows[1..], name, oid, owner)
    ensures OwnersNamed(rows, name) == [OwnerRow(name, oid, owner)] <==> OneRowNamed(rows, name, oid, owner)
  {
    var rest := rows[1..];
    if rows[0].name == name {
      if OneRowNamed(rows, name, oid, owner) {
        var i :| 0 <= i < |rows| && rows[i] == OwnerRow(name, oid, owner) && forall j :: 0 <= j < |rows| && rows[j].name == name ==> j == i;
        assert i == 0;
        forall j | 0 <= j < |rest|
          ensures rest[j].name != name
        {
          assert rest[j] == rows[j + 1];
        }
      }
      if OwnersNamed(rows, name) == [OwnerRow(name, oid, owner)] {
        assert OwnersNamed(rest, name) == OwnersNamed(rows, name)[1..] == [];
        assert forall j :: 1 <= j < |rows| ==> rest[j - 1] == rows[j];
        assert rows[0] == OwnersNamed(rows, name)[0];
      }
    } else {
      assert [] + OwnersNamed(rest, name) == OwnersNamed(rest, name);
      if OneRowNamed(rows, name, oid, owner) {
        var i :| 0 <= i < |rows| && rows[i] == OwnerRow(name, oid, owner) && forall j :: 0 <= j < |rows| && rows[j].name == name ==> j == i;
        assert rest[i - 1] == rows[i];
        forall j | 0 <= j < |rest| && rest[j].name == name
          ensures j == i - 1
        {
          assert rows[j + 1] == rest[j];
        }
      }
      if OneRowNamed(rest, name, oid, owner) {
        var i :| 0 <= i < |rest| && rest[i] == OwnerRow(name, oid, owner) && forall j :: 0 <= j < |rest| && rest[j].name == name ==> j == i;
        assert rows[i + 1] == rest[i];
        forall j | 0 <= j < |rows| && rows[j].name == name
          ensures j == i + 1
        {
          assert rest[j - 1] == rows[j];
        }
      }
    }
  }

  /** The row each class of object gets its owner from. */
  lemma OwnerRows(pre: Prestate, name: string, oid: string, owner: string)
    ensures AuthorityFor(pre, OwnerKey("database", name)) == Some(Owner(pre.databaseRow.oid, pre.databaseRow.owner))
    ensures AuthorityFor(pre, OwnerKey("schema", "public")) == Some(Owner(pre.publicRow.oid, pre.publicRow.owner))
    ensures AuthorityFor(pre, OwnerKey("schema", "drizzle")) == Some(Owner(pre.drizzleRow.oid, pre.drizzleRow.owner))
    ensures AuthorityFor(pre, OwnerKey("relation", name)) == Some(Owner(oid, owner)) <==> OneRowNamed(pre.relations, name, oid, owner)
    ensures AuthorityFor(pre, OwnerKey("index", name)) == Some(Owner(oid, owner)) <==> OneRowNamed(pre.indexes, name, oid, owner)
    ensures AuthorityFor(pre, OwnerKey("sequence", name)) == Some(Owner(oid, owner)) <==> OneRowNamed(pre.sequences, name, oid, owner)
    ensures AuthorityFor(pre, OwnerKey("type", name)) == Some(Owner(oid, owner)) <==> OneRowNamed(pre.types, name, oid, owner)
  {
    RowAuthority(pre, "relation", name, oid, owner);
    RowAuthority(pre, "index", name, oid, owner);
    RowAuthority(pre, "sequence", name, oid, owner);
    RowAuthority(pre, "type", name, oid, owner);
  }

  lemma RowAuthority(pre: Prestate, class_: string, name: string, oid: string, owner: string)
    requires class_ in {"relation", "index", "sequence", "type"}
    ensures OwnerFor(pre, class_, name) == Some(Owner(oid, owner)) <==> OneRowNamed(OwnersOf(pre, class_), name, oid, owner)
  {
    hide OneRowNamed, OwnersNamed;
    var matches := OwnersNamed(OwnersOf(pre, class_), name);
    NamedRows(OwnersOf(pre, class_), name);
    if |matches| == 1 {
      assert matches[0] in matches;
      assert matches == [OwnerRow(name, matches[0].oid, matches[0].owner)];
    }
  }

  /** A privilege row of the prestate that an object's authority is made of. */
  predicate RowOf(pre: Prestate, row: AclRow, class_: string, name: string) {
    row.class_ == class_ && row.name == if class_ == "database" then pre.database else name
  }

  function EntryOf(row: AclRow): Entry {
    Entry(row.grantor, row.grantee, Lower(row.privilege), row.grantOption)
  }

  lemma {:induction false} AclMembers(pre: Prestate, rows: seq<AclRow>, class_: string, name: string)
    ensures forall row :: row in AclRows(pre, rows, class_, name) <==> row in rows && RowOf(pre, row, class_, name)
  {
    if rows != [] {
      AclMembers(pre, rows[1..], class_, name);
      assert rows == [rows[0]] + rows[1..];
    }
  }

  lemma {:induction false} EntryMembers(rows: seq<AclRow>)
    ensures forall e :: e in AclEntries(rows) <==> exists row :: row in rows && row.privilege != "" && e == EntryOf(row)
  {
    hide Lower;
    if rows != [] {
      EntryMembers(rows[1..]);
      assert rows == [rows[0]] + rows[1..];
    }
  }

  /** An object's entries are its privilege rows, from whichever list, and its name, oid and null flag are those of all its rows. */
  lemma ObjectRows(pre: Prestate, class_: string, name: string, a: Authority)
    requires AuthorityFor(pre, ObjectKey(class_, name)) == Some(a)
    ensures a.ObjectAcl? && exists row :: row in pre.acls && RowOf(pre, row, class_, name)
    ensures forall row :: row in pre.acls && RowOf(pre, row, class_, name) ==>
                            row.oid == a.oid && row.aclIsNull == a.aclIsNull && row.name == a.name
    ensures forall e :: e in a.entries <==>
                          exists row :: row in pre.acls && RowOf(pre, row, class_, name) && row.privilege != "" && e == EntryOf(row)
    ensures Sorted(a.entries, EntryTuple)
  {
    hide Lower, Sort, Sorted, AclRows, AclEntries, Compare;
    var rows := AclRows(pre, pre.acls, class_, name);
    AclMembers(pre, pre.acls, class_, name);
    EntryMembers(rows);
    SortSorts(AclEntries(rows), EntryTuple);
    SameMembers(AclEntries(rows), Arrange(AclEntries(rows)));
    assert rows[0] in rows;
    assert a.name == rows[0].name;
    forall row | row in rows
      ensures row.oid == a.oid && row.aclIsNull == a.aclIsNull
    {
      var i :| 0 <= i < |rows| && rows[i] == row;
    }
  }

  lemma {:induction false} BlankRows(rows: seq<AclRow>)
    ensures |AclEntries(rows)| == |rows| <==> forall row :: row in rows ==> row.privilege != ""
    ensures |AclEntries(rows)| <= |rows|
  {
    if rows != [] {
      BlankRows(rows[1..]);
      assert rows == [rows[0]] + rows[1..];
    }
  }

  /** An object has an authority exactly if it has rows, they agree on oid and null flag, and a row without a privilege stands alone. */
  lemma ObjectKnown(pre: Prestate, class_: string, name: string)
    ensures var rows := AclRows(pre, pre.acls, class_, name);
            AuthorityFor(pre, ObjectKey(class_, name)).Some? <==>
              && rows != []
              && (forall a, b :: a in rows && b in rows ==> a.oid == b.oid && a.aclIsNull == b.aclIsNull)
              && ((exists row :: row in rows && row.privilege == "") ==> |rows| == 1)
  {
    hide Sort, Lower, AclRows;
    var rows := AclRows(pre, pre.acls, class_, name);
    BlankRows(rows);
    ArrangedLength(AclEntries(rows));
    if |rows| == 1 {
      assert rows[0] in rows;
    }
    forall i | 0 <= i < |rows|
      ensures rows[i] in rows && rows[0] in rows
    {
    }
  }

  predicate DefaultRowOf(row: DefaultRow, creator: string, schema: string, objectType: string) {
    row.creator == creator && row.schema == schema && row.objectType == objectType
  }

  function DefaultEntryOf(row: DefaultRow): Entry {
    Entry(row.grantor, row.grantee, Lower(row.privilege), row.grantOption)
  }

  lemma {:induction false} DefaultMembers(rows: seq<DefaultRow>, creator: string, schema: string, objectType: string)
    ensures forall row :: row in DefaultRows(rows, creator, schema, objectType) <==>
                            row in rows && DefaultRowOf(row, creator, schema, objectType)
  {
    if rows != [] {
      DefaultMembers(rows[1..], creator, schema, objectType);
      assert rows == [rows[0]] + rows[1..];
    }
  }

  lemma {:induction false} DefaultEntryMembers(rows: seq<DefaultRow>)
    ensures forall e :: e in DefaultEntries(rows) <==> exists row :: row in rows && row.privilege != "" && e == DefaultEntryOf(row)
    ensures |DefaultEntries(rows)| == |rows| <==> forall row :: row in rows ==> row.privilege != ""
    ensures |DefaultEntries(rows)| <= |rows|
  {
    hide Lower;
    if rows != [] {
      DefaultEntryMembers(rows[1..]);
      assert rows == [rows[0]] + rows[1..];
    }
  }

  /** The same for default privileges, where a creator, schema and kind without any row start from an absent, empty list. */
  lemma DefaultsKnown(pre: Prestate, creator: string, schema: string, objectType: string)
    ensures var rows := DefaultRows(pre.defaults, creator, schema, objectType);
            && (rows == [] ==> AuthorityFor(pre, DefaultKey(creator, schema, objectType)) == Some(DefaultAcl("", false, false, [])))
            && (rows != [] ==>
                  (AuthorityFor(pre, DefaultKey(creator, schema, objectType)).Some? <==>
                     && (forall a, b :: a in rows && b in rows ==>
                           a.oid == b.oid && a.rowPresent == b.rowPresent && a.aclIsNull == b.aclIsNull)
                     && ((exists row :: row in rows && row.privilege == "") ==> |rows| == 1)))
  {
    hide Sort, Lower, DefaultRows;
    var rows := DefaultRows(pre.defaults, creator, schema, objectType);
    DefaultEntryMembers(rows);
    ArrangedLength(DefaultEntries(rows));
    if |rows| == 1 {
      assert rows[0] in rows;
    }
    forall i | 0 <= i < |rows|
      ensures rows[i] in rows && rows[0] in rows
    {
    }
  }

  /** Default privileges start from the entries of their rows, under the row's oid and flags. */
  lemma DefaultsFrom(pre: Prestate, creator: string, schema: string, objectType: string, a: Authority)
    requires AuthorityFor(pre, DefaultKey(creator, schema, objectType)) == Some(a)
    ensures a.DefaultAcl? && Sorted(a.entries, EntryTuple)
    ensures forall row :: row in pre.defaults && DefaultRowOf(row, creator, schema, objectType) ==>
                            row.oid == a.oid && row.rowPresent == a.rowPresent && row.aclIsNull == a.aclIsNull
    ensures forall e :: e in a.entries <==>
                          exists row :: row in pre.defaults && DefaultRowOf(row, creator, schema, objectType)
                                        && row.privilege != "" && e == DefaultEntryOf(row)
  {
    hide Lower, Sort, Sorted, DefaultRows, DefaultEntries, Compare;
    var rows := DefaultRows(pre.defaults, creator, schema, objectType);
    DefaultMembers(pre.defaults, creator, schema, objectType);
    DefaultEntryMembers(rows);
    SortSorts(DefaultEntries(rows), EntryTuple);
    SameMembers(DefaultEntries(rows), Arrange(DefaultEntries(rows)));
    if rows == [] {
      SortSorts([], EntryTuple);
      PrestateArranged(pre, DefaultKey(creator, schema, objectType));
    }
    forall row | row in rows
      ensures row.oid == a.oid && row.rowPresent == a.rowPresent && row.aclIsNull == a.aclIsNull
    {
      var i :| 0 <= i < |rows| && rows[i] == row;
    }
  }
}
