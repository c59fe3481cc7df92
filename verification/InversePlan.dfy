/**
 Whole plans: running every operation forward and then the derived steps backwards.
 */
module InversePlan {
  import opened Wrappers
  import opened AsciiText
  import opened Sorting
  import opened AclInverse

  // ---- The authority the prestate gives to a key ----

  function OwnersOf(pre: Prestate, class_: string): seq<OwnerRow> {
    if class_ == "relation" then pre.relations
    else if class_ == "index" then pre.indexes
    else if class_ == "sequence" then pre.sequences
    else pre.types
  }

  function OwnersNamed(rows: seq<OwnerRow>, name: string): seq<OwnerRow> {
    if rows == [] then []
    else (if rows[0].name == name then [rows[0]] else []) + OwnersNamed(rows[1..], name)
  }

  function OwnerFor(pre: Prestate, class_: string, name: string): Option<Authority> {
    if class_ == "database" then Some(Owner(pre.databaseRow.oid, pre.databaseRow.owner))
    else if class_ == "schema" && name == "public" then Some(Owner(pre.publicRow.oid, pre.publicRow.owner))
    else if class_ == "schema" && name == "drizzle" then Some(Owner(pre.drizzleRow.oid, pre.drizzleRow.owner))
    else
      var matches := OwnersNamed(OwnersOf(pre, class_), name);
      if |matches| != 1 then None else Some(Owner(matches[0].oid, matches[0].owner))
  }

  function AclRows(pre: Prestate, rows: seq<AclRow>, class_: string, name: string): seq<AclRow> {
    if rows == [] then []
    else
      (if rows[0].class_ == class_ && rows[0].name == (if class_ == "database" then pre.database else name)
       then [rows[0]] else [])
      + AclRows(pre, rows[1..], class_, name)
  }

  function DefaultRows(rows: seq<DefaultRow>, creator: string, schema: string, objectType: string): seq<DefaultRow> {
    if rows == [] then []
    else
      (if rows[0].creator == creator && rows[0].schema == schema && rows[0].objectType == objectType
       then [rows[0]] else [])
      + DefaultRows(rows[1..], creator, schema, objectType)
  }

  /** The rows that name a privilege, as entries. */
  function AclEntries(rows: seq<AclRow>): seq<Entry> {
    if rows == [] then []
    else
      (if rows[0].privilege == "" then []
       else [Entry(rows[0].grantor, rows[0].grantee, Lower(rows[0].privilege), rows[0].grantOption)])
      + AclEntries(rows[1..])
  }

  function DefaultEntries(rows: seq<DefaultRow>): seq<Entry> {
    if rows == [] then []
    else
      (if rows[0].privilege == "" then []
       else [Entry(rows[0].grantor, rows[0].grantee, Lower(rows[0].privilege), rows[0].grantOption)])
      + DefaultEntries(rows[1..])
  }

  /** At most one row without a privilege, and none beside entries. */
  predicate EmptyRowsOk(rows: nat, entries: nat)
    requires entries <= rows
  {
    rows == entries || (rows == 1 && entries == 0)
  }

  lemma {:induction false} EntriesFromRows(rows: seq<AclRow>)
    ensures |AclEntries(rows)| <= |rows| && LowerCase(AclEntries(rows))
  {
    if rows != [] {
      EntriesFromRows(rows[1..]);
      LowerTwice(rows[0].privilege);
    }
  }

  lemma {:induction false} EntriesFromDefaults(rows: seq<DefaultRow>)
    ensures |DefaultEntries(rows)| <= |rows| && LowerCase(DefaultEntries(rows))
  {
    if rows != [] {
      EntriesFromDefaults(rows[1..]);
      LowerTwice(rows[0].privilege);
    }
  }

  function ObjectFor(pre: Prestate, class_: string, name: string): Option<Authority> {
    var rows := AclRows(pre, pre.acls, class_, name);
    EntriesFromRows(rows);
    var entries := Arrange(AclEntries(rows));
    SortSorts(AclEntries(rows), EntryTuple);
    assert |entries| == |multiset(entries)| == |multiset(AclEntries(rows))|;
    if rows == [] || (exists i :: 0 <= i < |rows| && (rows[i].oid != rows[0].oid || rows[i].aclIsNull != rows[0].aclIsNull))
       || !EmptyRowsOk(|rows|, |entries|)
    then None
    else Some(ObjectAcl(rows[0].name, rows[0].oid, rows[0].aclIsNull, entries))
  }

  function DefaultFor(pre: Prestate, creator: string, schema: string, objectType: string): Option<Authority> {
    var rows := DefaultRows(pre.defaults, creator, schema, objectType);
    EntriesFromDefaults(rows);
    var entries := Arrange(DefaultEntries(rows));
    SortSorts(DefaultEntries(rows), EntryTuple);
    assert |entries| == |multiset(entries)| == |multiset(DefaultEntries(rows))|;
    if rows == [] then Some(DefaultAcl("", false, false, []))
    else if (exists i :: 0 <= i < |rows| && (rows[i].oid != rows[0].oid || rows[i].rowPresent != rows[0].rowPresent
                                             || rows[i].aclIsNull != rows[0].aclIsNull))
            || !EmptyRowsOk(|rows|, |entries|)
    then None
    else Some(DefaultAcl(rows[0].oid, rows[0].rowPresent, rows[0].aclIsNull, entries))
  }

  function AuthorityFor(pre: Prestate, key: Key): Option<Authority> {
    match key
    case OwnerKey(c, n) => OwnerFor(pre, c, n)
    case ObjectKey(c, n) => ObjectFor(pre, c, n)
    case DefaultKey(creator, schema, objectType) => DefaultFor(pre, creator, schema, objectType)
  }

  lemma ArrangedEntries(s: seq<Entry>)
    requires LowerCase(s)
    ensures Sorted(Arrange(s), EntryTuple) && LowerCase(Arrange(s))
  {
    SortSorts(s, EntryTuple);
    SameMembers(s, Arrange(s));
  }

  /** The prestate hands out sorted, lower-case entries. */
  lemma PrestateArranged(pre: Prestate, key: Key)
    requires AuthorityFor(pre, key).Some?
    ensures Arranged(AuthorityFor(pre, key).value)
    ensures match key
            case OwnerKey(_, _) => AuthorityFor(pre, key).value.Owner?
            case ObjectKey(_, _) => AuthorityFor(pre, key).value.ObjectAcl?
            case DefaultKey(_, _, _) => AuthorityFor(pre, key).value.DefaultAcl?
  {
    match key
    case OwnerKey(_, _) =>
    case ObjectKey(c, n) =>
      var rows := AclRows(pre, pre.acls, c, n);
      EntriesFromRows(rows);
      ArrangedEntries(AclEntries(rows));
    case DefaultKey(creator, schema, objectType) =>
      var rows := DefaultRows(pre.defaults, creator, schema, objectType);
      EntriesFromDefaults(rows);
      ArrangedEntries(DefaultEntries(rows));
  }

  // ---- Deriving the model of a plan ----

  datatype Model = Model(unsupported: bool, state: map<Key, Authority>, inverses: seq<Inverse>)

  function Before(pre: Prestate, state: map<Key, Authority>, key: Key): Option<Authority> {
    if key in state then Some(state[key]) else AuthorityFor(pre, key)
  }

  function Extend(pre: Prestate, m: Model, op: Operation): Option<Model> {
    var key := KeyOf(op);
    var before := Before(pre, m.state, key);
    if before.None? then None
    else
      var t := TransitionOf(op, before.value, pre.currentUser);
      if t.None? then None
      else Some(Model(m.unsupported || !t.value.supported, m.state[key := t.value.after], m.inverses + [t.value.inverse]))
  }

  const NOTHING: Model := Model(false, map[], [])

  /** The model of a plan; None is a prestate mismatch. */
  function Derive(pre: Prestate, ops: seq<Operation>): Option<Model> {
    if ops == [] then Some(NOTHING)
    else
      var m := Derive(pre, ops[..|ops| - 1]);
      if m.None? then None else Extend(pre, m.value, ops[|ops| - 1])
  }

  lemma {:induction false} DeriveFails(pre: Prestate, ops: seq<Operation>, i: nat)
    requires i <= |ops| && Derive(pre, ops[..i]).None?
    ensures Derive(pre, ops).None?
  {
    hide Extend;
    if i < |ops| {
      var last := |ops| - 1;
      assert ops[..last][..i] == ops[..i];
      DeriveFails(pre, ops[..last], i);
    } else {
      assert ops[..i] == ops;
    }
  }

  /** The loop over the plan, with its mutable map of current authorities. */
  method DeriveInverseModel(pre: Prestate, ops: seq<Operation>) returns (r: Option<Model>)
    ensures r == Derive(pre, ops)
  {
    hide TransitionOf, AuthorityFor;
    var current: map<Key, Authority> := map[];
    var inverses: seq<Inverse> := [];
    var unsupported := false;
    var i := 0;
    while i < |ops|
      invariant 0 <= i <= |ops|
      invariant Derive(pre, ops[..i]) == Some(Model(unsupported, current, inverses))
    {
      assert ops[..i + 1][..i] == ops[..i];
      var key := KeyOf(ops[i]);
      var before := Before(pre, current, key);
      if before.None? {
        DeriveFails(pre, ops, i + 1);
        return None;
      }
      var t := TransitionOf(ops[i], before.value, pre.currentUser);
      if t.None? {
        DeriveFails(pre, ops, i + 1);
        return None;
      }
      current := current[key := t.value.after];
      unsupported := unsupported || !t.value.supported;
      inverses := inverses + [t.value.inverse];
      i := i + 1;
    }
    assert ops[..i] == ops;
    r := Some(Model(unsupported, current, inverses));
  }

  // ---- Running the inverse ----

  function UndoStep(state: map<Key, Authority>, inverse: Inverse, user: string): map<Key, Authority> {
    var key := KeyOf(inverse.operation);
    if key in state then state[key := Undo(inverse, state[key], user)] else state
  }

  /** Runs the inverses from the last to the first. */
  function UndoAll(state: map<Key, Authority>, inverses: seq<Inverse>, user: string): map<Key, Authority> {
    if inverses == [] then state
    else
      var last := |inverses| - 1;
      UndoAll(UndoStep(state, inverses[last], user), inverses[..last], user)
  }

  /** The steps of a published inverse, in the order they are run. */
  function Steps(inverses: seq<Inverse>): seq<Inverse> {
    seq(|inverses|, i requires 0 <= i < |inverses| => inverses[|inverses| - 1 - i])
  }

  function RunSteps(state: map<Key, Authority>, steps: seq<Inverse>, user: string): map<Key, Authority> {
    if steps == [] then state else RunSteps(UndoStep(state, steps[0], user), steps[1..], user)
  }

  lemma {:induction false} StepsUndo(state: map<Key, Authority>, inverses: seq<Inverse>, user: string)
    ensures RunSteps(state, Steps(inverses), user) == UndoAll(state, inverses, user)
    decreases inverses
  {
    hide UndoStep;
    if inverses != [] {
      var last := |inverses| - 1;
      assert Steps(inverses)[0] == inverses[last];
      assert Steps(inverses)[1..] == Steps(inverses[..last]);
      StepsUndo(UndoStep(state, inverses[last], user), inverses[..last], user);
    }
  }

  // ---- One step of the round trip ----

  /** The one change that its inverse cannot undo: a default grant by a role other than the current user is taken away. */
  predicate RemovesForeign(op: Operation, before: Authority, user: string) {
    op.DefaultPrivilege? && op.action == Revoke && op.creator != user && before.DefaultAcl?
    && TargetEntry(before.entries, op.principal, op.privilege).Present?
  }

  lemma ChangedArranged(s: seq<Entry>, op: Operation, user: string)
    requires !op.SetOwner? && Normal(op) && LowerCase(s) && !TargetEntry(s, op.principal, op.privilege).Unclear?
    ensures var changed := Changed(s, op.action, op.principal, op.privilege, op.grantOption,
                                   TargetEntry(s, op.principal, op.privilege), user);
            Sorted(Arrange(changed), EntryTuple) && LowerCase(Arrange(changed))
  {
    hide Hit, Sort, Sorted, Lower;
    var p, q := op.principal, op.privilege;
    var target := TargetEntry(s, p, q);
    var changed := Changed(s, op.action, p, q, op.grantOption, target, user);
    HitsAndMisses(s, p, q);
    LowerTwice(q);
    forall e | e in changed
      ensures Lower(e.privilege) == e.privilege
    {
      ChangedMember(s, op, user, e);
    }
    ArrangedEntries(changed);
  }

  /** Every entry after a change was there before, or is the target with its option raised, or is the new grant. */
  lemma ChangedMember(s: seq<Entry>, op: Operation, user: string, e: Entry)
    requires !op.SetOwner? && !TargetEntry(s, op.principal, op.privilege).Unclear?
    requires e in Changed(s, op.action, op.principal, op.privilege, op.grantOption,
                          TargetEntry(s, op.principal, op.privilege), user)
    ensures || e in s
            || (op.action == Grant && e == Entry(user, op.principal, Lower(op.privilege), op.grantOption))
            || exists x :: x in s && Hit(x, op.principal, op.privilege) && e == x.(grantOption := e.grantOption)
  {
    hide Hit, Lower;
    var p, q := op.principal, op.privilege;
    var target := TargetEntry(s, p, q);
    HitsAndMisses(s, p, q);
    SameMembers(s, Misses(s, p, q) + Hits(s, p, q));
    if op.action == Grant && target.Present? {
      var after := target.entry.(grantOption := target.entry.grantOption || op.grantOption);
      assert target.entry in Hits(s, p, q);
      ReplaceRows(s, target.entry, after);
      ReplacedMember(s, target.entry, after, e);
    }
  }

  lemma {:induction false} ReplacedMember(s: seq<Entry>, before: Entry, after: Entry, e: Entry)
    requires e in Replace(s, before, after)
    ensures e in s || e == after
  {
    if s != [] && s[0] != before {
      assert s == [s[0]] + s[1..];
      if e != s[0] {
        ReplacedMember(s[1..], before, after, e);
      }
    }
  }

  /** A supported change, undone, gives back the authority before it, unless it removes a foreign default grant. */
  lemma TransitionUndone(op: Operation, before: Authority, user: string)
    requires Normal(op) && Arranged(before)
    requires TransitionOf(op, before, user).Some? && TransitionOf(op, before, user).value.supported
    ensures var t := TransitionOf(op, before, user).value;
            && KeyOf(t.inverse.operation) == KeyOf(op) && Arranged(t.after)
            && (!RemovesForeign(op, before, user) ==> Undo(t.inverse, t.after, user) == before)
  {
    hide Changed, Carried, Arrange, LowerCase, Sorted, Hits;
    if !op.SetOwner? {
      ChangedArranged(before.entries, op, user);
      if !RemovesForeign(op, before, user) {
        EntriesUndone(before.entries, op, user);
        if before.DefaultAcl? {
          DefaultShapeKept(op, before, user);
        }
      }
    }
  }

  /** A supported default-privilege change leaves the catalogue row itself alone. */
  lemma DefaultShapeKept(op: Operation, before: Authority, user: string)
    requires TransitionOf(op, before, user).Some? && TransitionOf(op, before, user).value.supported
    requires before.DefaultAcl?
    ensures var after := TransitionOf(op, before, user).value.after;
            after.DefaultAcl? && after.oid == before.oid && after.rowPresent == before.rowPresent
            && after.aclIsNull == before.aclIsNull
  {
    hide Changed, Arrange, Hits, Reverse;
  }

  // ---- Entries granted by others ----

  /** Every entry of a key that one target names was granted by `user`. */
  predicate OwnGrants(a: Authority, p: string, q: string, user: string) {
    a.Owner? || forall e :: e in a.entries && Hit(e, p, q) ==> e.grantor == user
  }

  /** Both directions of any change only ever bring in entries granted by `user`. */
  lemma ChangeKeepsOwn(s: seq<Entry>, op: Operation, user: string, p: string, q: string)
    requires !op.SetOwner? && !TargetEntry(s, op.principal, op.privilege).Unclear?
    requires forall e :: e in s && Hit(e, p, q) ==> e.grantor == user
    ensures var changed := Arrange(Changed(s, op.action, op.principal, op.privilege, op.grantOption,
                                           TargetEntry(s, op.principal, op.privilege), user));
            forall e :: e in changed && Hit(e, p, q) ==> e.grantor == user
  {
    hide Changed, Sort, TargetEntry;
    var raw := Changed(s, op.action, op.principal, op.privilege, op.grantOption, TargetEntry(s, op.principal, op.privilege), user);
    SortSorts(raw, EntryTuple);
    SameMembers(raw, Arrange(raw));
    forall e | e in raw && Hit(e, p, q)
      ensures e.grantor == user
    {
      ChangedMember(s, op, user, e);
    }
  }

  lemma UndoKeepsOwn(a: Authority, inverse: Inverse, user: string, p: string, q: string)
    requires OwnGrants(a, p, q, user)
    ensures OwnGrants(Undo(inverse, a, user), p, q, user)
  {
    hide Changed, Sort, Hits;
    var op := inverse.operation;
    if !a.Owner? && !op.SetOwner? {
      var back := Carried(a.entries, inverse, user);
      SortSorts(back, EntryTuple);
      SameMembers(back, Arrange(back));
      forall e | e in back && Hit(e, p, q)
        ensures e.grantor == user
      {
        CarriedMember(a.entries, inverse, user, e);
      }
    }
  }

  lemma CarriedMember(s: seq<Entry>, inverse: Inverse, user: string, e: Entry)
    requires !inverse.operation.SetOwner? && e in Carried(s, inverse, user)
    ensures || e in s
            || e == Entry(user, inverse.operation.principal, Lower(inverse.operation.privilege), inverse.operation.grantOption)
            || exists x :: x in s && e == x.(grantOption := e.grantOption)
  {
    hide Hit, Lower;
    var op := inverse.operation;
    var hits := Hits(s, op.principal, op.privilege);
    HitsAndMisses(s, op.principal, op.privilege);
    SameMembers(s, Misses(s, op.principal, op.privilege) + hits);
    if hits != [] {
      assert hits[0] in s;
      var after := hits[0].(grantOption := hits[0].grantOption || op.grantOption);
      var kept := hits[0].(grantOption := false);
      if e in Replace(s, hits[0], after) {
        ReplacedMember(s, hits[0], after, e);
      }
      if e in Replace(s, hits[0], kept) {
        ReplacedMember(s, hits[0], kept, e);
      }
    }
  }

  lemma {:induction false} UndoAllKeepsOwn(state: map<Key, Authority>, inverses: seq<Inverse>, user: string, key: Key, p: string, q: string)
    requires key in state && OwnGrants(state[key], p, q, user)
    ensures key in UndoAll(state, inverses, user) && OwnGrants(UndoAll(state, inverses, user)[key], p, q, user)
    decreases inverses
  {
    hide OwnGrants, Undo;
    if inverses != [] {
      var last := |inverses| - 1;
      UndoKeepsOwn(state[key], inverses[last], user, p, q);
      UndoAllKeepsOwn(UndoStep(state, inverses[last], user), inverses[..last], user, key, p, q);
    }
  }

  lemma TransitionKeepsOwn(op: Operation, before: Authority, user: string, p: string, q: string)
    requires TransitionOf(op, before, user).Some? && OwnGrants(before, p, q, user)
    ensures OwnGrants(TransitionOf(op, before, user).value.after, p, q, user)
  {
    hide Changed, Sort, Hit, Hits;
    if !op.SetOwner? {
      ChangeKeepsOwn(before.entries, op, user, p, q);
    }
  }

  /** If a plan finds a foreign entry for a target, the prestate already had it. */
  lemma {:induction false} ForeignComesFromPrestate(pre: Prestate, ops: seq<Operation>, key: Key, p: string, q: string)
    requires Derive(pre, ops).Some? && Before(pre, Derive(pre, ops).value.state, key).Some?
    requires AuthorityFor(pre, key).Some? && OwnGrants(AuthorityFor(pre, key).value, p, q, pre.currentUser)
    ensures OwnGrants(Before(pre, Derive(pre, ops).value.state, key).value, p, q, pre.currentUser)
  {
    hide OwnGrants, TransitionOf, AuthorityFor;
    if ops != [] {
      var last := |ops| - 1;
      var m := Derive(pre, ops[..last]).value;
      assert Before(pre, m.state, key).Some?;
      ForeignComesFromPrestate(pre, ops[..last], key, p, q);
      if KeyOf(ops[last]) == key {
        TransitionKeepsOwn(ops[last], Before(pre, m.state, key).value, pre.currentUser, p, q);
      }
    }
  }

  // ---- A target stays until a revoke names it ----

  predicate HasTarget(a: Authority, p: string, q: string) {
    !a.Owner? && exists e :: e in a.entries && Hit(e, p, q)
  }

  predicate Revokes(op: Operation, key: Key, p: string, q: string) {
    !op.SetOwner? && KeyOf(op) == key && op.action == Revoke && op.principal == p && op.privilege == q
  }

  lemma {:induction false} ReplaceKeeps(s: seq<Entry>, before: Entry, after: Entry, e: Entry)
    requires e in s && before in s
    ensures e in Replace(s, before, after) || e == before
    ensures after in Replace(s, before, after)
  {
    assert s == [s[0]] + s[1..];
    if s[0] != before {
      if e != s[0] {
        ReplaceKeeps(s[1..], before, after, e);
      } else {
        ReplaceKeeps(s[1..], before, after, before);
      }
      var rest := Replace(s[1..], before, after);
      assert forall x :: x in rest ==> x in [s[0]] + rest;
    }
  }

  lemma HitInOrOut(s: seq<Entry>, p: string, q: string, e: Entry)
    requires e in s
    ensures if Hit(e, p, q) then e in Hits(s, p, q) else e in Misses(s, p, q)
  {
    hide Hit;
    HitsAndMisses(s, p, q);
    SameMembers(s, Hits(s, p, q) + Misses(s, p, q));
  }

  /** A change that does not revoke a target keeps an entry for it. */
  lemma ChangeKeepsTarget(s: seq<Entry>, op: Operation, user: string, e: Entry, p: string, q: string) returns (x: Entry)
    requires !op.SetOwner? && !TargetEntry(s, op.principal, op.privilege).Unclear?
    requires op.action == Revoke ==> op.principal != p || op.privilege != q
    requires e in s && Hit(e, p, q)
    ensures Hit(x, p, q)
    ensures x in Changed(s, op.action, op.principal, op.privilege, op.grantOption,
                         TargetEntry(s, op.principal, op.privilege), user)
  {
    hide Hits, Misses, Upper, Lower, Replace;
    var target := TargetEntry(s, op.principal, op.privilege);
    x := e;
    HitInOrOut(s, op.principal, op.privilege, e);
    if op.action == Grant && target.Present? {
      HitsAndMisses(s, op.principal, op.privilege);
      assert target.entry in Hits(s, op.principal, op.privilege);
      assert target.entry in multiset(s);
      var after := target.entry.(grantOption := target.entry.grantOption || op.grantOption);
      ReplaceKeeps(s, target.entry, after, e);
      if e == target.entry {
        x := after;
      }
    }
  }

  lemma TransitionKeepsTarget(op: Operation, before: Authority, user: string, key: Key, p: string, q: string)
    requires TransitionOf(op, before, user).Some? && KeyOf(op) == key && !Revokes(op, key, p, q)
    requires HasTarget(before, p, q)
    ensures HasTarget(TransitionOf(op, before, user).value.after, p, q)
  {
    hide Sort, Changed, Hits, Hit, Reverse;
    var s := before.entries;
    var e :| e in s && Hit(e, p, q);
    var raw := Changed(s, op.action, op.principal, op.privilege, op.grantOption, TargetEntry(s, op.principal, op.privilege), user);
    var x := ChangeKeepsTarget(s, op, user, e, p, q);
    SortSorts(raw, EntryTuple);
    SameMembers(raw, Arrange(raw));
    assert x in Arrange(raw);
  }

  lemma {:induction false} TargetStays(pre: Prestate, ops: seq<Operation>, key: Key, p: string, q: string)
    requires Derive(pre, ops).Some? && Before(pre, Derive(pre, ops).value.state, key).Some?
    requires AuthorityFor(pre, key).Some? && HasTarget(AuthorityFor(pre, key).value, p, q)
    requires forall i :: 0 <= i < |ops| ==> !Revokes(ops[i], key, p, q)
    ensures HasTarget(Before(pre, Derive(pre, ops).value.state, key).value, p, q)
  {
    hide HasTarget, TransitionOf, AuthorityFor, Revokes;
    if ops != [] {
      var last := |ops| - 1;
      var m := Derive(pre, ops[..last]).value;
      assert Before(pre, m.state, key).Some?;
      TargetStays(pre, ops[..last], key, p, q);
      if KeyOf(ops[last]) == key {
        TransitionKeepsTarget(ops[last], Before(pre, m.state, key).value, pre.currentUser, key, p, q);
      }
    }
  }

  // ---- The round trip of a whole plan ----

  /** A default-privilege revoke of a grant that the prestate holds for a creator other than the current user. */
  predicate ForeignRevoke(pre: Prestate, op: Operation) {
    && op.DefaultPrivilege? && op.action == Revoke && op.creator != pre.currentUser
    && AuthorityFor(pre, KeyOf(op)).Some? && HasTarget(AuthorityFor(pre, KeyOf(op)).value, op.principal, op.privilege)
  }

  predicate NoForeignRevoke(pre: Prestate, ops: seq<Operation>) {
    forall i :: 0 <= i < |ops| ==> !ForeignRevoke(pre, ops[i])
  }

  predicate Restored(pre: Prestate, keys: set<Key>, state: map<Key, Authority>) {
    forall k :: k in keys && k in state ==> AuthorityFor(pre, k) == Some(state[k])
  }

  predicate AllNormal(ops: seq<Operation>) {
    forall i :: 0 <= i < |ops| ==> Normal(ops[i])
  }

  lemma UndoKeepsKeys(state: map<Key, Authority>, inverses: seq<Inverse>, user: string)
    ensures UndoAll(state, inverses, user).Keys == state.Keys
    decreases inverses
  {
    hide Undo;
    if inverses != [] {
      var last := |inverses| - 1;
      UndoKeepsKeys(UndoStep(state, inverses[last], user), inverses[..last], user);
    }
  }

  lemma {:induction false} StateArranged(pre: Prestate, ops: seq<Operation>)
    requires Derive(pre, ops).Some? && !Derive(pre, ops).value.unsupported && AllNormal(ops)
    ensures forall k :: k in Derive(pre, ops).value.state ==>
                          Arranged(Derive(pre, ops).value.state[k]) && AuthorityFor(pre, k).Some?
  {
    hide TransitionOf, AuthorityFor, Arranged, Normal;
    if ops != [] {
      var last := |ops| - 1;
      StateArranged(pre, ops[..last]);
      BeforeArranged(pre, ops[..last], KeyOf(ops[last]));
      TransitionUndone(ops[last], Before(pre, Derive(pre, ops[..last]).value.state, KeyOf(ops[last])).value, pre.currentUser);
    }
  }

  lemma BeforeArranged(pre: Prestate, ops: seq<Operation>, key: Key)
    requires Derive(pre, ops).Some? && Before(pre, Derive(pre, ops).value.state, key).Some?
    requires forall k :: k in Derive(pre, ops).value.state ==> Arranged(Derive(pre, ops).value.state[k])
    ensures Arranged(Before(pre, Derive(pre, ops).value.state, key).value)
  {
    if key !in Derive(pre, ops).value.state {
      PrestateArranged(pre, key);
    }
  }

  /** Removing a foreign grant leaves a mark that no later undo step repairs. */
  lemma ForeignMark(op: Operation, before: Authority, user: string)
    requires Normal(op) && RemovesForeign(op, before, user)
    requires TransitionOf(op, before, user).Some? && TransitionOf(op, before, user).value.supported
    ensures OwnGrants(TransitionOf(op, before, user).value.after, op.principal, op.privilege, user)
    ensures !OwnGrants(before, op.principal, op.privilege, user)
  {
    hide Sort, Upper;
    var s := before.entries;
    var raw := Changed(s, op.action, op.principal, op.privilege, op.grantOption, TargetEntry(s, op.principal, op.privilege), user);
    HitsAndMisses(s, op.principal, op.privilege);
    SameMembers(s, Hits(s, op.principal, op.privilege) + Misses(s, op.principal, op.privilege));
    assert TargetEntry(s, op.principal, op.privilege).entry in Hits(s, op.principal, op.privilege);
    SortSorts(raw, EntryTuple);
    SameMembers(raw, Arrange(raw));
  }

  /** The last operation of a plan removes a foreign grant exactly when it is a foreign revoke and the first of its kind. */
  lemma LastRemoves(pre: Prestate, ops: seq<Operation>)
    requires ops != [] && Derive(pre, ops).Some? && !Derive(pre, ops).value.unsupported && AllNormal(ops)
    requires var m := Derive(pre, ops[..|ops| - 1]).value;
             AuthorityFor(pre, KeyOf(ops[|ops| - 1])).Some?
    ensures var op, m := ops[|ops| - 1], Derive(pre, ops[..|ops| - 1]).value;
            var before := Before(pre, m.state, KeyOf(op)).value;
            && (RemovesForeign(op, before, pre.currentUser) ==> ForeignRevoke(pre, op))
            && (ForeignRevoke(pre, op) && NoForeignRevoke(pre, ops[..|ops| - 1]) ==> RemovesForeign(op, before, pre.currentUser))
  {
    hide AuthorityFor, Hits, Hit;
    var last := |ops| - 1;
    var op, m := ops[last], Derive(pre, ops[..last]).value;
    var key, user := KeyOf(op), pre.currentUser;
    var before := Before(pre, m.state, key).value;
    if RemovesForeign(op, before, user) {
      ForeignMark(op, before, user);
      if OwnGrants(AuthorityFor(pre, key).value, op.principal, op.privilege, user) {
        ForeignComesFromPrestate(pre, ops[..last], key, op.principal, op.privilege);
      }
    }
    if ForeignRevoke(pre, op) && NoForeignRevoke(pre, ops[..last]) {
      forall i | 0 <= i < last
        ensures !Revokes(ops[..last][i], key, op.principal, op.privilege)
      {
        assert !ForeignRevoke(pre, ops[..last][i]);
      }
      TargetStays(pre, ops[..last], key, op.principal, op.privilege);
      TargetPresent(before.entries, op.principal, op.privilege);
    }
  }

  lemma TargetPresent(s: seq<Entry>, p: string, q: string)
    requires exists e :: e in s && Hit(e, p, q)
    ensures !TargetEntry(s, p, q).Absent?
  {
    hide Hit;
    var e :| e in s && Hit(e, p, q);
    HitInOrOut(s, p, q, e);
  }

  /** The inverses of a plan touch no other keys. */
  lemma {:induction false} OthersUntouched(pre: Prestate, ops: seq<Operation>, state: map<Key, Authority>, k: Key)
    requires Derive(pre, ops).Some? && !Derive(pre, ops).value.unsupported && AllNormal(ops)
    requires k in state && k !in Derive(pre, ops).value.state
    ensures k in UndoAll(state, Derive(pre, ops).value.inverses, pre.currentUser)
    ensures UndoAll(state, Derive(pre, ops).value.inverses, pre.currentUser)[k] == state[k]
  {
    hide TransitionOf, AuthorityFor, Arranged, Normal, Undo, RemovesForeign;
    if ops != [] {
      var last := |ops| - 1;
      var m, earlier := Derive(pre, ops).value, Derive(pre, ops[..last]).value;
      var before := Before(pre, earlier.state, KeyOf(ops[last])).value;
      var t := TransitionOf(ops[last], before, pre.currentUser).value;
      StateArranged(pre, ops[..last]);
      BeforeArranged(pre, ops[..last], KeyOf(ops[last]));
      TransitionUndone(ops[last], before, pre.currentUser);
      assert m.inverses == earlier.inverses + [t.inverse];
      OthersUntouched(pre, ops[..last], UndoStep(state, t.inverse, pre.currentUser), k);
    }
  }

  /** A plan whose last operation removes a foreign grant is not restored. */
  lemma ForeignLast(pre: Prestate, ops: seq<Operation>, earlier: Model, before: Authority, t: Transition, state: map<Key, Authority>)
    requires ops != [] && AllNormal(ops)
    requires Derive(pre, ops[..|ops| - 1]) == Some(earlier)
    requires Before(pre, earlier.state, KeyOf(ops[|ops| - 1])) == Some(before)
    requires TransitionOf(ops[|ops| - 1], before, pre.currentUser) == Some(t) && t.supported
    requires RemovesForeign(ops[|ops| - 1], before, pre.currentUser)
    requires KeyOf(t.inverse.operation) == KeyOf(ops[|ops| - 1])
    requires KeyOf(ops[|ops| - 1]) in state && state[KeyOf(ops[|ops| - 1])] == t.after
    requires AuthorityFor(pre, KeyOf(ops[|ops| - 1])).Some?
    ensures var u := UndoAll(UndoStep(state, t.inverse, pre.currentUser), earlier.inverses, pre.currentUser);
            KeyOf(ops[|ops| - 1]) in u
            && AuthorityFor(pre, KeyOf(ops[|ops| - 1])) != Some(u[KeyOf(ops[|ops| - 1])])
  {
    hide TransitionOf, AuthorityFor, Undo, OwnGrants, Hits, Derive;
    var last := |ops| - 1;
    var op, user := ops[last], pre.currentUser;
    var key := KeyOf(op);
    var undone := UndoStep(state, t.inverse, user);
    ForeignMark(op, before, user);
    UndoKeepsOwn(t.after, t.inverse, user, op.principal, op.privilege);
    UndoAllKeepsOwn(undone, earlier.inverses, user, key, op.principal, op.privilege);
    if OwnGrants(AuthorityFor(pre, key).value, op.principal, op.privilege, user) {
      ForeignComesFromPrestate(pre, ops[..last], key, op.principal, op.privilege);
    }
  }

  lemma BeforeKnown(pre: Prestate, m: Model, key: Key, before: Authority)
    requires Before(pre, m.state, key) == Some(before)
    requires forall k :: k in m.state ==> AuthorityFor(pre, k).Some?
    ensures AuthorityFor(pre, key).Some?
  {
  }

  /**
   The round trip, from any state that extends the plan's final one: the plan's keys get their prestate
   authority back, entry by entry in the same order, exactly when the plan revokes no foreign default grant.
   */
  lemma {:induction false} RoundTripFrom(pre: Prestate, ops: seq<Operation>, state: map<Key, Authority>)
    requires Derive(pre, ops).Some? && !Derive(pre, ops).value.unsupported && AllNormal(ops)
    requires forall k :: k in Derive(pre, ops).value.state ==> k in state && state[k] == Derive(pre, ops).value.state[k]
    ensures var m := Derive(pre, ops).value;
            Restored(pre, m.state.Keys, UndoAll(state, m.inverses, pre.currentUser)) <==> NoForeignRevoke(pre, ops)
  {
    hide TransitionOf, AuthorityFor, Arranged, Normal, Undo, RemovesForeign, ForeignRevoke, OwnGrants;
    if ops != [] {
      var last := |ops| - 1;
      var op, m, earlier := ops[last], Derive(pre, ops).value, Derive(pre, ops[..last]).value;
      var key, user := KeyOf(op), pre.currentUser;
      var before := Before(pre, earlier.state, key).value;
      var t := TransitionOf(op, before, user).value;
      StateArranged(pre, ops[..last]);
      BeforeArranged(pre, ops[..last], key);
      BeforeKnown(pre, earlier, key, before);
      TransitionUndone(op, before, user);
      LastRemoves(pre, ops);
      var undone := UndoStep(state, t.inverse, user);
      assert m.inverses == earlier.inverses + [t.inverse];
      assert UndoAll(state, m.inverses, user) == UndoAll(undone, earlier.inverses, user);
      UndoKeepsKeys(undone, earlier.inverses, user);
      if RemovesForeign(op, before, user) {
        ForeignLast(pre, ops, earlier, before, t, state);
        assert key in m.state.Keys;
      } else {
        RoundTripFrom(pre, ops[..last], undone);
        if key !in earlier.state {
          OthersUntouched(pre, ops[..last], undone, key);
        }
        LastCounts(pre, ops);
      }
    }
  }

  lemma LastCounts(pre: Prestate, ops: seq<Operation>)
    requires ops != []
    ensures NoForeignRevoke(pre, ops) <==> NoForeignRevoke(pre, ops[..|ops| - 1]) && !ForeignRevoke(pre, ops[|ops| - 1])
  {
    hide ForeignRevoke;
  }

  /** Running the published steps after a supported plan restores every authority, exactly unless it revokes a foreign default grant. */
  lemma InverseRestores(pre: Prestate, ops: seq<Operation>)
    requires Derive(pre, ops).Some? && !Derive(pre, ops).value.unsupported && AllNormal(ops)
    ensures var m := Derive(pre, ops).value;
            var u := RunSteps(m.state, Steps(m.inverses), pre.currentUser);
            && u.Keys == m.state.Keys
            && ((forall k :: k in u ==> AuthorityFor(pre, k) == Some(u[k])) <==> NoForeignRevoke(pre, ops))
  {
    hide ForeignRevoke, AuthorityFor, Undo;
    var m := Derive(pre, ops).value;
    StepsUndo(m.state, m.inverses, pre.currentUser);
    UndoKeepsKeys(m.state, m.inverses, pre.currentUser);
    RoundTripFrom(pre, ops, m.state);
  }

  /** Plans of ownership and object privileges, or whose creators are the current user, always round trip. */
  lemma OwnPlansRestore(pre: Prestate, ops: seq<Operation>)
    requires Derive(pre, ops).Some? && !Derive(pre, ops).value.unsupported && AllNormal(ops)
    requires forall i :: 0 <= i < |ops| && ops[i].DefaultPrivilege? ==> ops[i].creator == pre.currentUser
    ensures var m := Derive(pre, ops).value;
            var u := RunSteps(m.state, Steps(m.inverses), pre.currentUser);
            forall k :: k in u ==> AuthorityFor(pre, k) == Some(u[k])
  {
    hide AuthorityFor, Undo, Derive, UndoStep;
    InverseRestores(pre, ops);
  }

  const ADMIN := "cloud_admin"
  const MIGRATOR := "platform_migrator"
  const RUNTIME := "platform_runtime"
  const APP := "platform_app"

  /**
   The exception is real: a supported plan by one approved role that revokes a default grant made by
   another does not round trip.
   */
  lemma ForeignRevokeIsReal() returns (pre: Prestate, ops: seq<Operation>)
    ensures Derive(pre, ops).Some? && !Derive(pre, ops).value.unsupported && AllNormal(ops)
    ensures var m := Derive(pre, ops).value;
            var u := RunSteps(m.state, Steps(m.inverses), pre.currentUser);
            exists k :: k in u && AuthorityFor(pre, k) != Some(u[k])
  {
    hide Sort, Sorted, Compare, UndoAll, RunSteps, Steps;
    var row := OwnerRow("public.one", "1", MIGRATOR);
    var a := DefaultRow("7", true, false, MIGRATOR, "public", "table", RUNTIME, MIGRATOR, "select", false);
    var b := DefaultRow("7", true, false, MIGRATOR, "public", "table", APP, MIGRATOR, "select", false);
    pre := Prestate(ADMIN, "db", row, row, row, [], [], [], [], [], [a, b]);
    var op := DefaultPrivilege(Revoke, MIGRATOR, "public", "table", RUNTIME, "SELECT", false, false);
    ops := [op];
    var entries := [Entry(MIGRATOR, RUNTIME, "select", false), Entry(MIGRATOR, APP, "select", false)];
    ExampleText();
    ExampleAuthority(pre, a, b, entries);
    ExampleTarget(entries);
    var before := AuthorityFor(pre, KeyOf(op)).value;
    var t := TransitionOf(op, before, ADMIN).value;
    assert Derive(pre, []) == Some(NOTHING);
    assert ops[..0] == [];
    assert entries[0] in Arrange(entries) by { SortSorts(entries, EntryTuple); SameMembers(entries, Arrange(entries)); }
    assert ForeignRevoke(pre, ops[0]);
    InverseRestores(pre, ops);
  }

  lemma ExampleText()
    ensures Lower("select") == "select" && Upper("select") == "SELECT" && Upper("SELECT") == "SELECT"
  {
    assert Lower("select") == "select";
    assert Upper("select") == "SELECT";
    assert Upper("SELECT") == "SELECT";
  }

  lemma ExampleAuthority(pre: Prestate, a: DefaultRow, b: DefaultRow, entries: seq<Entry>)
    requires pre.defaults == [a, b]
    requires a == DefaultRow("7", true, false, MIGRATOR, "public", "table", RUNTIME, MIGRATOR, "select", false)
    requires b == DefaultRow("7", true, false, MIGRATOR, "public", "table", APP, MIGRATOR, "select", false)
    requires entries == [Entry(MIGRATOR, RUNTIME, "select", false), Entry(MIGRATOR, APP, "select", false)]
    ensures AuthorityFor(pre, DefaultKey(MIGRATOR, "public", "table")) == Some(DefaultAcl("7", true, false, Arrange(entries)))
  {
    hide Sort, Sorted, Compare;
    ExampleText();
    var rows := DefaultRows(pre.defaults, MIGRATOR, "public", "table");
    assert [a, b][1..] == [b] && [b][1..] == [];
    assert DefaultRows([], MIGRATOR, "public", "table") == [];
    assert DefaultRows([b], MIGRATOR, "public", "table") == [b];
    assert rows == [a] + [b] == [a, b];
    assert DefaultEntries([b]) == [entries[1]];
    assert DefaultEntries(rows) == entries;
    SortSorts(entries, EntryTuple);
    assert |Arrange(entries)| == |multiset(Arrange(entries))| == |multiset(entries)| == 2;
  }

  lemma ExampleTarget(entries: seq<Entry>)
    requires entries == [Entry(MIGRATOR, RUNTIME, "select", false), Entry(MIGRATOR, APP, "select", false)]
    ensures TargetEntry(Arrange(entries), RUNTIME, "SELECT") == Present(entries[0])
    ensures |Arrange(entries)| == 2
  {
    hide Sort, Sorted, Compare;
    ExampleText();
    assert entries[..1] == [entries[0]] && [entries[0]][..0] == [];
    assert Hits(entries[..1], RUNTIME, "SELECT") == [entries[0]];
    assert Hits(entries, RUNTIME, "SELECT") == [entries[0]];
    RowsOf(entries, RUNTIME, "SELECT");
    RowsArranged(entries, RUNTIME, "SELECT", [entries[0]], multiset(Misses(entries, RUNTIME, "SELECT")));
    SortSorts(entries, EntryTuple);
    assert |Arrange(entries)| == |multiset(Arrange(entries))| == |multiset(entries)| == 2;
  }

  // ---- The recorded post-forward authority ----

  /** The authority of one key after the operations that name it, all others ignored. */
  function Alone(pre: Prestate, ops: seq<Operation>, key: Key): Option<Authority> {
    if ops == [] then AuthorityFor(pre, key)
    else
      var last := |ops| - 1;
      var before := Alone(pre, ops[..last], key);
      if KeyOf(ops[last]) != key then before
      else if before.None? then None
      else
        var t := TransitionOf(ops[last], before.value, pre.currentUser);
        if t.None? then None else Some(t.value.after)
  }

  /** What the plan records after each operation: the final authority of its key. */
  function PostForward(m: Model, ops: seq<Operation>): seq<Authority>
    requires forall i :: 0 <= i < |ops| ==> KeyOf(ops[i]) in m.state
  {
    seq(|ops|, i requires 0 <= i < |ops| => m.state[KeyOf(ops[i])])
  }

  lemma {:induction false} StateIsAlone(pre: Prestate, ops: seq<Operation>, key: Key)
    requires Derive(pre, ops).Some?
    ensures Before(pre, Derive(pre, ops).value.state, key) == Alone(pre, ops, key)
    ensures key in Derive(pre, ops).value.state <==> exists i :: 0 <= i < |ops| && KeyOf(ops[i]) == key
  {
    hide TransitionOf, AuthorityFor;
    if ops != [] {
      var last := |ops| - 1;
      StateIsAlone(pre, ops[..last], key);
      if i :| 0 <= i < |ops| && KeyOf(ops[i]) == key {
        assert i < last ==> ops[..last][i] == ops[i];
      }
      if i :| 0 <= i < last && KeyOf(ops[..last][i]) == key {
        assert ops[i] == ops[..last][i];
      }
    }
  }

  /** Each recorded authority is where its own key's operations alone lead, whatever the plan does to other keys. */
  lemma PostForwardIsFinal(pre: Prestate, ops: seq<Operation>, i: nat)
    requires Derive(pre, ops).Some? && i < |ops|
    ensures forall j :: 0 <= j < |ops| ==> KeyOf(ops[j]) in Derive(pre, ops).value.state
    ensures Alone(pre, ops, KeyOf(ops[i])) == Some(PostForward(Derive(pre, ops).value, ops)[i])
  {
    hide Derive, Alone, AuthorityFor;
    forall j | 0 <= j < |ops|
      ensures KeyOf(ops[j]) in Derive(pre, ops).value.state
    {
      StateIsAlone(pre, ops, KeyOf(ops[j]));
    }
    StateIsAlone(pre, ops, KeyOf(ops[i]));
  }
}
