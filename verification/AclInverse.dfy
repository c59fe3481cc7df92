/**
 Deriving the inverse of a plan of ownership, privilege and default-privilege changes.  Each operation
 moves one authority (an owner, or a sorted list of grants) and yields the operation that undoes it;
 some changes are not supported, and then no inverse is offered.
 */
module AclInverse {
  import opened Wrappers
  import opened AsciiText
  import opened Bags
  import opened Sorting

  // ---- Data ----

  datatype Entry = Entry(grantor: string, grantee: string, privilege: string, grantOption: bool)

  datatype Authority =
    | Owner(oid: string, owner: string)
    | ObjectAcl(name: string, oid: string, aclIsNull: bool, entries: seq<Entry>)
    | DefaultAcl(oid: string, rowPresent: bool, aclIsNull: bool, entries: seq<Entry>)

  datatype Key =
    | OwnerKey(class_: string, name: string)
    | ObjectKey(class_: string, name: string)
    | DefaultKey(creator: string, schema: string, objectType: string)

  datatype Action = Grant | Revoke

  datatype Operation =
    | SetOwner(class_: string, name: string, previousOwner: string, nextOwner: string)
    | Privilege(action: Action, class_: string, name: string, principal: string, privilege: string,
                grantOption: bool, previousGrantOption: bool)
    | DefaultPrivilege(action: Action, creator: string, schema: string, objectType: string, principal: string,
                       privilege: string, grantOption: bool, previousGrantOption: bool)

  /** An operation that undoes another; `optionOnly` revokes the grant option and keeps the grant. */
  datatype Inverse = Inverse(operation: Operation, optionOnly: bool)

  datatype OwnerRow = OwnerRow(name: string, oid: string, owner: string)
  datatype AclRow = AclRow(class_: string, name: string, oid: string, aclIsNull: bool,
                           grantor: string, grantee: string, privilege: string, grantOption: bool)
  datatype DefaultRow = DefaultRow(oid: string, rowPresent: bool, aclIsNull: bool, creator: string, schema: string,
                                   objectType: string, grantee: string, grantor: string, privilege: string,
                                   grantOption: bool)

  datatype Prestate = Prestate(
    currentUser: string, database: string,
    databaseRow: OwnerRow, publicRow: OwnerRow, drizzleRow: OwnerRow,
    relations: seq<OwnerRow>, indexes: seq<OwnerRow>, sequences: seq<OwnerRow>, types: seq<OwnerRow>,
    acls: seq<AclRow>, defaults: seq<DefaultRow>)

  /** Operations as the plan normaliser leaves them: privilege names are upper case. */
  predicate Normal(op: Operation) {
    op.SetOwner? || Upper(op.privilege) == op.privilege
  }

  function KeyOf(op: Operation): Key {
    match op
    case SetOwner(c, n, _, _) => OwnerKey(c, n)
    case Privilege(_, c, n, _, _, _, _) => ObjectKey(c, n)
    case DefaultPrivilege(_, creator, schema, objectType, _, _, _, _) => DefaultKey(creator, schema, objectType)
  }

  // ---- Entries ----

  function EntryTuple(e: Entry): Tuple {
    [e.grantor, e.grantee, e.privilege, BoolText(e.grantOption)]
  }

  function Arrange(s: seq<Entry>): seq<Entry> {
    Sort(s, EntryTuple)
  }

  predicate Hit(e: Entry, principal: string, privilege: string) {
    e.grantee == principal && Upper(e.privilege) == privilege
  }

  /** The entries that the operation is about. */
  function Hits(s: seq<Entry>, principal: string, privilege: string): seq<Entry> {
    if s == [] then []
    else
      var last := |s| - 1;
      Hits(s[..last], principal, privilege) + (if Hit(s[last], principal, privilege) then [s[last]] else [])
  }

  function Misses(s: seq<Entry>, principal: string, privilege: string): seq<Entry> {
    if s == [] then []
    else
      var last := |s| - 1;
      Misses(s[..last], principal, privilege) + (if Hit(s[last], principal, privilege) then [] else [s[last]])
  }

  /** `e` with one entry replaced. */
  function Replace(s: seq<Entry>, before: Entry, after: Entry): seq<Entry> {
    if s == [] then []
    else if s[0] == before then [after] + s[1..]
    else [s[0]] + Replace(s[1..], before, after)
  }

  lemma EntriesDetermined(s: seq<Entry>)
    ensures KeyDetermines(s, EntryTuple)
  {
    forall a: Entry, b: Entry | Compare(EntryTuple(a), EntryTuple(b)) == 0
      ensures a == b
    {
      CompareZero(EntryTuple(a), EntryTuple(b));
      assert EntryTuple(a)[0] == EntryTuple(b)[0] && EntryTuple(a)[1] == EntryTuple(b)[1];
      assert EntryTuple(a)[2] == EntryTuple(b)[2] && EntryTuple(a)[3] == EntryTuple(b)[3];
    }
  }

  /** An arranged list is its multiset: two of them with the same entries are equal. */
  lemma ArrangedUnique(a: seq<Entry>, b: seq<Entry>)
    requires multiset(a) == multiset(b) && Sorted(b, EntryTuple)
    ensures Arrange(a) == b
  {
    SortSorts(a, EntryTuple);
    EntriesDetermined(Arrange(a));
    SortedUnique(Arrange(a), b, EntryTuple);
  }

  lemma {:induction false} HitsAndMisses(s: seq<Entry>, p: string, q: string)
    ensures multiset(s) == multiset(Hits(s, p, q)) + multiset(Misses(s, p, q))
    ensures forall e :: e in Hits(s, p, q) ==> Hit(e, p, q)
    ensures forall e :: e in Misses(s, p, q) ==> !Hit(e, p, q)
    ensures forall e :: e in s && Hit(e, p, q) ==> e in Hits(s, p, q)
  {
    if s != [] {
      var last := |s| - 1;
      assert s == s[..last] + [s[last]];
      HitsAndMisses(s[..last], p, q);
    }
  }

  /** The hits depend on the entries alone, not on their order. */
  lemma HitsOf(s: seq<Entry>, hits: multiset<Entry>, misses: multiset<Entry>, p: string, q: string)
    requires multiset(s) == hits + misses
    requires forall e :: e in hits ==> Hit(e, p, q)
    requires forall e :: e in misses ==> !Hit(e, p, q)
    ensures multiset(Hits(s, p, q)) == hits && multiset(Misses(s, p, q)) == misses
  {
    hide Hit;
    HitsAndMisses(s, p, q);
    var h, m := multiset(Hits(s, p, q)), multiset(Misses(s, p, q));
    forall e: Entry
      ensures h[e] == hits[e] && m[e] == misses[e]
    {
      assert (h + m)[e] == (hits + misses)[e];
      assert e in h ==> e in Hits(s, p, q);
      assert e in m ==> e in Misses(s, p, q);
    }
  }

  lemma {:induction false} ReplaceRows(s: seq<Entry>, before: Entry, after: Entry)
    requires before in s
    ensures multiset(Replace(s, before, after)) == multiset(s) - multiset{before} + multiset{after}
  {
    assert s == [s[0]] + s[1..];
    if s[0] != before {
      ReplaceRows(s[1..], before, after);
    }
  }

  // ---- One operation ----

  datatype Target = Unclear | Absent | Present(entry: Entry)

  /** The entry an operation is about; more than one is a prestate mismatch. */
  function TargetEntry(s: seq<Entry>, principal: string, privilege: string): Target {
    var hits := Hits(s, principal, privilege);
    if |hits| > 1 then Unclear else if hits == [] then Absent else Present(hits[0])
  }

  function OptionOf(t: Target): bool {
    t.Present? && t.entry.grantOption
  }

  /** The entries after a grant or a revoke by `user`. */
  function Changed(s: seq<Entry>, action: Action, principal: string, privilege: string, option: bool, target: Target,
                   user: string): seq<Entry>
  {
    match action
    case Grant =>
      if target.Present?
      then Replace(s, target.entry, target.entry.(grantOption := target.entry.grantOption || option))
      else s + [Entry(user, principal, Lower(privilege), option)]
    case Revoke => Misses(s, principal, privilege)
  }

  /** The inverse of a grant or a revoke, from the target entry before it. */
  function Reverse(op: Operation, target: Target): Inverse
    requires !op.SetOwner?
  {
    if target.Present? && op.action == Grant && !target.entry.grantOption && op.grantOption
    then Inverse(op.(action := Revoke, grantOption := false, previousGrantOption := op.grantOption), true)
    else Inverse(op.(action := if target.Present? then Grant else Revoke, grantOption := OptionOf(target),
                     previousGrantOption := op.grantOption), false)
  }

  datatype Transition = Transition(after: Authority, inverse: Inverse, supported: bool)

  function ObjectTransition(op: Operation, before: Authority, user: string): Option<Transition>
    requires op.Privilege? && before.ObjectAcl?
  {
    var target := TargetEntry(before.entries, op.principal, op.privilege);
    if target.Unclear? || op.previousGrantOption != OptionOf(target) then None
    else
      var entries := Changed(before.entries, op.action, op.principal, op.privilege, op.grantOption, target, user);
      var after := ObjectAcl(before.name, before.oid, before.aclIsNull, Arrange(entries));
      Some(Transition(after, Reverse(op, target),
                      && !(before != after && (before.aclIsNull || before.entries == []))
                      && !(before != after && after.entries == [])
                      && !(target.Present? && target.entry.grantor != user)))
  }

  function DefaultTransition(op: Operation, before: Authority, user: string): Option<Transition>
    requires op.DefaultPrivilege? && before.DefaultAcl?
  {
    var target := TargetEntry(before.entries, op.principal, op.privilege);
    if target.Unclear? || op.previousGrantOption != OptionOf(target) then None
    else
      var entries := Changed(before.entries, op.action, op.principal, op.privilege, op.grantOption, target, user);
      var after := DefaultAcl(if before.rowPresent then before.oid else "", before.rowPresent || |entries| > 0,
                              before.aclIsNull, Arrange(entries));
      Some(Transition(after, Reverse(op, target),
                      && !(before != after && (!before.rowPresent || before.aclIsNull))
                      && !(before != after && op.action == Revoke && target.Present? && |before.entries| == 1)
                      && !(target.Present? && target.entry.grantor != op.creator)))
  }

  /** What one operation makes of the authority it is about; None is a prestate mismatch. */
  function TransitionOf(op: Operation, before: Authority, user: string): Option<Transition> {
    match op
    case SetOwner(_, _, previousOwner, nextOwner) =>
      if !before.Owner? || previousOwner != before.owner then None
      else Some(Transition(before.(owner := nextOwner),
                           Inverse(op.(previousOwner := nextOwner, nextOwner := before.owner), false), true))
    case Privilege(_, _, _, _, _, _, _) => if !before.ObjectAcl? then None else ObjectTransition(op, before, user)
    case DefaultPrivilege(_, _, _, _, _, _, _, _) =>
      if !before.DefaultAcl? then None else DefaultTransition(op, before, user)
  }

  // ---- What running an inverse operation does ----

  /** A grant or revoke as the database carries it out: an update of the entries, with no guard. */
  function Carried(s: seq<Entry>, inverse: Inverse, user: string): seq<Entry>
    requires !inverse.operation.SetOwner?
  {
    var op := inverse.operation;
    var hits := Hits(s, op.principal, op.privilege);
    if inverse.optionOnly then
      (if hits == [] then s else Replace(s, hits[0], hits[0].(grantOption := false)))
    else
      Changed(s, op.action, op.principal, op.privilege, op.grantOption, if hits == [] then Absent else Present(hits[0]), user)
  }

  function WithEntries(a: Authority, entries: seq<Entry>): Authority {
    match a
    case Owner(_, _) => a
    case ObjectAcl(name, oid, aclIsNull, _) => ObjectAcl(name, oid, aclIsNull, entries)
    case DefaultAcl(oid, rowPresent, aclIsNull, _) => DefaultAcl(oid, rowPresent, aclIsNull, entries)
  }

  function Undo(inverse: Inverse, now: Authority, user: string): Authority {
    if inverse.operation.SetOwner? then
      (if now.Owner? then Owner(now.oid, inverse.operation.nextOwner) else now)
    else if now.Owner? then now
    else WithEntries(now, Arrange(Carried(now.entries, inverse, user)))
  }

  // ---- One operation and its inverse ----

  predicate LowerCase(s: seq<Entry>) {
    forall e :: e in s ==> Lower(e.privilege) == e.privilege
  }

  /** Authorities as the prestate gives them and as every transition leaves them. */
  predicate Arranged(a: Authority) {
    a.Owner? || (Sorted(a.entries, EntryTuple) && LowerCase(a.entries))
  }

  lemma OneRow(s: seq<Entry>, e: Entry)
    ensures multiset(s) == multiset{e} ==> s == [e]
    ensures multiset(s) == multiset{} ==> s == []
  {
    assert |s| == |multiset(s)|;
    if multiset(s) == multiset{e} {
      assert |s| == 1;
      assert s[0] in multiset(s);
    }
  }

  lemma SameMembers(a: seq<Entry>, b: seq<Entry>)
    requires multiset(a) == multiset(b)
    ensures forall e :: e in a <==> e in b
  {
    forall e: Entry
      ensures e in a <==> e in b
    {
      SameMember(a, b, e);
    }
  }

  /** `s` holds exactly one list of hits and one bag of misses. */
  predicate Rows(s: seq<Entry>, p: string, q: string, hits: seq<Entry>, misses: multiset<Entry>) {
    Hits(s, p, q) == hits && multiset(Misses(s, p, q)) == misses && multiset(s) == multiset(hits) + misses
  }

  lemma RowsOf(s: seq<Entry>, p: string, q: string)
    ensures Rows(s, p, q, Hits(s, p, q), multiset(Misses(s, p, q)))
  {
    HitsAndMisses(s, p, q);
  }

  lemma MissesMiss(s: seq<Entry>, p: string, q: string)
    ensures forall e :: e in multiset(Misses(s, p, q)) ==> !Hit(e, p, q)
  {
    HitsAndMisses(s, p, q);
    forall e | e in multiset(Misses(s, p, q))
      ensures !Hit(e, p, q)
    {
      assert e in Misses(s, p, q);
    }
  }

  /** Any list with these entries has these hits and misses. */
  lemma RowsFrom(s: seq<Entry>, t: seq<Entry>, p: string, q: string, hits: seq<Entry>, misses: multiset<Entry>)
    requires Rows(s, p, q, Hits(s, p, q), misses)
    requires |hits| <= 1 && (forall e :: e in hits ==> Hit(e, p, q))
    requires multiset(t) == multiset(hits) + misses
    ensures Rows(t, p, q, hits, misses)
  {
    hide Hit, Hits, Misses;
    HitsAndMisses(s, p, q);
    MissesMiss(s, p, q);
    HitsOf(t, multiset(hits), misses, p, q);
    OneRow(Hits(t, p, q), if hits == [] then Entry("", "", "", false) else hits[0]);
    if hits != [] {
      assert hits == [hits[0]];
    }
  }

  lemma RowsArranged(s: seq<Entry>, p: string, q: string, hits: seq<Entry>, misses: multiset<Entry>)
    requires Rows(s, p, q, hits, misses) && |hits| <= 1
    ensures Rows(Arrange(s), p, q, hits, misses) && Sorted(Arrange(s), EntryTuple)
  {
    SortSorts(s, EntryTuple);
    HitsAndMisses(s, p, q);
    RowsFrom(s, Arrange(s), p, q, hits, misses);
  }

  lemma RowPushed(s: seq<Entry>, p: string, q: string, e: Entry, misses: multiset<Entry>)
    requires Rows(s, p, q, [], misses) && Hit(e, p, q)
    ensures Rows(s + [e], p, q, [e], misses)
  {
    RowsFrom(s, s + [e], p, q, [e], misses);
  }

  lemma RowReplaced(s: seq<Entry>, p: string, q: string, e: Entry, after: Entry, misses: multiset<Entry>)
    requires Rows(s, p, q, [e], misses) && Hit(after, p, q)
    ensures Rows(Replace(s, e, after), p, q, [after], misses)
  {
    assert e in multiset(s);
    ReplaceRows(s, e, after);
    RowsFrom(s, Replace(s, e, after), p, q, [after], misses);
  }

  lemma RowsDropped(s: seq<Entry>, p: string, q: string, hits: seq<Entry>, misses: multiset<Entry>)
    requires Rows(s, p, q, hits, misses)
    ensures Rows(Misses(s, p, q), p, q, [], misses)
  {
    RowsFrom(s, Misses(s, p, q), p, q, [], misses);
  }

  /** The hits of an arranged change. */
  function ChangedHits(action: Action, p: string, q: string, option: bool, target: Target, user: string): seq<Entry> {
    if action == Revoke then []
    else if target.Present? then [target.entry.(grantOption := target.entry.grantOption || option)]
    else [Entry(user, p, Lower(q), option)]
  }

  lemma ChangedRows(s: seq<Entry>, action: Action, p: string, q: string, option: bool, user: string, misses: multiset<Entry>)
    requires Upper(q) == q && !TargetEntry(s, p, q).Unclear?
    requires Rows(s, p, q, Hits(s, p, q), misses)
    ensures var target := TargetEntry(s, p, q);
            var changed := Arrange(Changed(s, action, p, q, option, target, user));
            Rows(changed, p, q, ChangedHits(action, p, q, option, target, user), misses) && Sorted(changed, EntryTuple)
  {
    hide Rows, Sort, Sorted, Misses, Lower, Replace;
    var target := TargetEntry(s, p, q);
    var changed := Changed(s, action, p, q, option, target, user);
    var hits := ChangedHits(action, p, q, option, target, user);
    if action == Revoke {
      RowsDropped(s, p, q, Hits(s, p, q), misses);
    } else if target.Present? {
      HitsAndMisses(s, p, q);
      assert Hits(s, p, q) == [target.entry];
      assert target.entry in Hits(s, p, q);
      RowReplaced(s, p, q, target.entry, hits[0], misses);
    } else {
      CaseRoundTrip(q, q);
      RowPushed(s, p, q, hits[0], misses);
    }
    RowsArranged(changed, p, q, hits, misses);
  }

  lemma SameArranged(s: seq<Entry>, back: seq<Entry>, p: string, q: string, hits: seq<Entry>, misses: multiset<Entry>)
    requires Rows(s, p, q, hits, misses) && Rows(back, p, q, hits, misses) && Sorted(s, EntryTuple)
    ensures Arrange(back) == s
  {
    ArrangedUnique(back, s);
  }

  /** A present target is the one hit, and its privilege is written as a grant would write it. */
  lemma TargetRow(s: seq<Entry>, p: string, q: string)
    requires LowerCase(s) && Upper(q) == q && TargetEntry(s, p, q).Present?
    ensures var e := TargetEntry(s, p, q).entry; Hits(s, p, q) == [e] && Hit(e, p, q) && e == Entry(e.grantor, p, Lower(q), e.grantOption)
  {
    hide Lower, Upper;
    var e := TargetEntry(s, p, q).entry;
    HitsAndMisses(s, p, q);
    assert Hits(s, p, q) == [e];
    assert e in Hits(s, p, q);
    assert e in multiset(s);
    assert e in s;
    CaseRoundTrip(e.privilege, q);
  }

  lemma RevokeUndone(s: seq<Entry>, op: Operation, changed: seq<Entry>, misses: multiset<Entry>, user: string)
    requires !op.SetOwner? && op.action == Revoke && Normal(op)
    requires Sorted(s, EntryTuple) && LowerCase(s) && !TargetEntry(s, op.principal, op.privilege).Unclear?
    requires Rows(s, op.principal, op.privilege, Hits(s, op.principal, op.privilege), misses)
    requires Rows(changed, op.principal, op.privilege, [], misses)
    requires var target := TargetEntry(s, op.principal, op.privilege); target.Present? ==> target.entry.grantor == user
    ensures Arrange(Carried(changed, Reverse(op, TargetEntry(s, op.principal, op.privilege)), user)) == s
  {
    hide Sort, Sorted, Misses, Lower, Upper, Rows, Replace, Hits;
    var p, q := op.principal, op.privilege;
    var target := TargetEntry(s, p, q);
    var back := Carried(changed, Reverse(op, target), user);
    RowsHits(changed, p, q, [], misses);
    if target.Present? {
      TargetRow(s, p, q);
      RowPushed(changed, p, q, target.entry, misses);
    } else {
      RowsDropped(changed, p, q, [], misses);
    }
    SameArranged(s, back, p, q, Hits(s, p, q), misses);
  }

  lemma NewGrantUndone(s: seq<Entry>, op: Operation, changed: seq<Entry>, e: Entry, misses: multiset<Entry>, user: string)
    requires !op.SetOwner? && op.action == Grant
    requires Sorted(s, EntryTuple) && TargetEntry(s, op.principal, op.privilege).Absent?
    requires Rows(s, op.principal, op.privilege, [], misses)
    requires Rows(changed, op.principal, op.privilege, [e], misses)
    ensures Arrange(Carried(changed, Reverse(op, TargetEntry(s, op.principal, op.privilege)), user)) == s
  {
    hide Sort, Sorted, Misses, Lower, Upper, Rows, Replace, Hits;
    var p, q := op.principal, op.privilege;
    RowsDropped(changed, p, q, [e], misses);
    SameArranged(s, Misses(changed, p, q), p, q, [], misses);
  }

  lemma UpgradeUndone(s: seq<Entry>, op: Operation, changed: seq<Entry>, misses: multiset<Entry>, user: string)
    requires !op.SetOwner? && op.action == Grant && Normal(op)
    requires Sorted(s, EntryTuple) && LowerCase(s) && TargetEntry(s, op.principal, op.privilege).Present?
    requires Rows(s, op.principal, op.privilege, Hits(s, op.principal, op.privilege), misses)
    requires var e := TargetEntry(s, op.principal, op.privilege).entry;
             Rows(changed, op.principal, op.privilege, [e.(grantOption := e.grantOption || op.grantOption)], misses)
    ensures Arrange(Carried(changed, Reverse(op, TargetEntry(s, op.principal, op.privilege)), user)) == s
  {
    hide Sort, Sorted, Misses, Lower, Upper, Rows, Replace, Hits, Hit;
    var p, q := op.principal, op.privilege;
    var target := TargetEntry(s, p, q);
    var e := target.entry;
    var granted := e.(grantOption := e.grantOption || op.grantOption);
    TargetRow(s, p, q);
    RowsHits(changed, p, q, [granted], misses);
    RowReplaced(changed, p, q, granted, e, misses);
    assert Carried(changed, Reverse(op, target), user) == Replace(changed, granted, e);
    SameArranged(s, Replace(changed, granted, e), p, q, [e], misses);
  }

  /** Undoing a change gives back the same sorted entries, if the entry a revoke removed was granted by `user`. */
  lemma EntriesUndone(s: seq<Entry>, op: Operation, user: string)
    requires Sorted(s, EntryTuple) && LowerCase(s)
    requires !op.SetOwner? && Normal(op) && !TargetEntry(s, op.principal, op.privilege).Unclear?
    requires var target := TargetEntry(s, op.principal, op.privilege);
             op.action == Revoke && target.Present? ==> target.entry.grantor == user
    ensures var target := TargetEntry(s, op.principal, op.privilege);
            var changed := Arrange(Changed(s, op.action, op.principal, op.privilege, op.grantOption, target, user));
            Arrange(Carried(changed, Reverse(op, target), user)) == s
  {
    hide Sort, Sorted, Misses, Lower, Upper, Rows, Replace, Carried, Reverse, Changed;
    var p, q := op.principal, op.privilege;
    var target, misses := TargetEntry(s, p, q), multiset(Misses(s, p, q));
    var changed := Arrange(Changed(s, op.action, p, q, op.grantOption, target, user));
    RowsOf(s, p, q);
    ChangedRows(s, op.action, p, q, op.grantOption, user, misses);
    if op.action == Revoke {
      RevokeUndone(s, op, changed, misses, user);
    } else if target.Present? {
      UpgradeUndone(s, op, changed, misses, user);
    } else {
      NewGrantUndone(s, op, changed, Entry(user, p, Lower(q), op.grantOption), misses, user);
    }
  }

  lemma RowsHits(s: seq<Entry>, p: string, q: string, hits: seq<Entry>, misses: multiset<Entry>)
    requires Rows(s, p, q, hits, misses)
    ensures Hits(s, p, q) == hits
  {
  }

  // ---- Which changes are supported ----

  /** An explicit grant list: a row that exists and is not the built-in default. */
  predicate Explicit(a: Authority) {
    match a
    case Owner(_, _) => true
    case ObjectAcl(_, _, aclIsNull, entries) => !aclIsNull && entries != []
    case DefaultAcl(_, rowPresent, aclIsNull, _) => rowPresent && !aclIsNull
  }

  /** Who a grant must come from for a plan to undo its removal. */
  function GrantorFor(op: Operation, user: string): string {
    if op.DefaultPrivilege? then op.creator else user
  }

  /**
   A change of grants is supported exactly if the entry it is about came from the right grantor and, when
   it changes anything, it turns an explicit list into a list that is not empty.
   */
  lemma SupportedIff(op: Operation, before: Authority, user: string)
    requires Arranged(before) && Normal(op) && !op.SetOwner? && TransitionOf(op, before, user).Some?
    ensures var t := TransitionOf(op, before, user).value;
            var target := TargetEntry(before.entries, op.principal, op.privilege);
            t.supported <==>
              && (target.Present? ==> target.entry.grantor == GrantorFor(op, user))
              && (t.after != before ==> Explicit(before) && t.after.entries != [])
  {
    hide Sort, Sorted, Hits, Misses, Lower, Upper, Replace, Rows, Reverse;
    var s, p, q := before.entries, op.principal, op.privilege;
    var target := TargetEntry(s, p, q);
    RowsOf(s, p, q);
    ChangedRows(s, op.action, p, q, op.grantOption, user, multiset(Misses(s, p, q)));
    var changed := Arrange(Changed(s, op.action, p, q, op.grantOption, target, user));
    RowsCount(s, p, q, Hits(s, p, q), multiset(Misses(s, p, q)));
    RowsCount(changed, p, q, ChangedHits(op.action, p, q, op.grantOption, target, user), multiset(Misses(s, p, q)));
    if op.action == Revoke && target.Absent? {
      RevokeAbsent(s, p, q);
    }
  }

  lemma RowsCount(s: seq<Entry>, p: string, q: string, hits: seq<Entry>, misses: multiset<Entry>)
    requires Rows(s, p, q, hits, misses)
    ensures |s| == |hits| + |misses|
  {
    assert |s| == |multiset(s)| && |hits| == |multiset(hits)|;
  }

  lemma RevokeAbsent(s: seq<Entry>, p: string, q: string)
    requires Sorted(s, EntryTuple) && Hits(s, p, q) == []
    ensures Arrange(Misses(s, p, q)) == s
  {
    HitsAndMisses(s, p, q);
    ArrangedUnique(Misses(s, p, q), s);
  }
}
