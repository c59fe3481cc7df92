/**
 Normalising an observed prestate: every list of rows is checked row by row and sorted.  The results say
 that normalising twice changes nothing, and exactly when the outcome forgets the order in which the
 database returned its rows.
 */
module Normalise {
  import opened Wrappers
  import opened AsciiText
  import opened Bags
  import opened Sorting

  // ---- One list, for any kind of row ----

  /** All rows checked and rewritten, or None if one is refused. */
  function Checked<R, T>(rows: seq<R>, check: R -> Option<T>): Option<seq<T>> {
    if rows == [] then Some([])
    else
      var last := |rows| - 1;
      match (Checked(rows[..last], check), check(rows[last]))
      case (Some(before), Some(row)) => Some(before + [row])
      case _ => None
  }

  function List<R, T>(rows: seq<R>, check: R -> Option<T>, key: T -> Tuple): Option<seq<T>> {
    match Checked(rows, check)
    case None => None
    case Some(checked) => Some(Sort(checked, key))
  }

  lemma {:induction false} CheckedRows<R, T>(rows: seq<R>, check: R -> Option<T>)
    ensures Checked(rows, check).Some? <==> forall i :: 0 <= i < |rows| ==> check(rows[i]).Some?
    ensures Checked(rows, check).Some? ==>
              && |Checked(rows, check).value| == |rows|
              && forall i :: 0 <= i < |rows| ==> check(rows[i]) == Some(Checked(rows, check).value[i])
  {
    if rows != [] {
      CheckedRows(rows[..|rows| - 1], check);
    }
  }

  lemma {:induction false} CheckedAppend<R, T>(a: seq<R>, b: seq<R>, check: R -> Option<T>)
    ensures Checked(a + b, check) ==
            match (Checked(a, check), Checked(b, check))
            case (Some(x), Some(y)) => Some(x + y)
            case _ => None
    decreases |b|
  {
    if b == [] {
      assert a + b == a;
      if Checked(a, check).Some? {
        assert Checked(a, check).value + [] == Checked(a, check).value;
      }
    } else {
      var last := |b| - 1;
      var whole := a + b;
      assert whole[..|whole| - 1] == a + b[..last] && whole[|whole| - 1] == b[last];
      CheckedAppend(a, b[..last], check);
      if Checked(a, check).Some? && Checked(b[..last], check).Some? && check(b[last]).Some? {
        var x, y, z := Checked(a, check).value, Checked(b[..last], check).value, check(b[last]).value;
        assert (x + y) + [z] == x + (y + [z]);
      }
    }
  }

  lemma CheckedOne<R, T>(x: R, check: R -> Option<T>)
    ensures Checked([x], check) == match check(x) case None => None case Some(y) => Some([y])
  {
    assert [x][..0] == [];
    assert Checked([x][..0], check) == Some([]);
    if check(x).Some? {
      assert [] + [check(x).value] == [check(x).value];
    }
  }

  lemma {:induction false} CheckedPermuted<R, T>(a: seq<R>, b: seq<R>, check: R -> Option<T>)
    requires multiset(a) == multiset(b)
    ensures Checked(a, check).Some? <==> Checked(b, check).Some?
    ensures Checked(a, check).Some? ==> multiset(Checked(a, check).value) == multiset(Checked(b, check).value)
    decreases |b|
  {
    hide Checked;
    if b == [] {
      assert |a| == |multiset(a)| == 0;
    } else {
      var last := |b| - 1;
      var k := TakeOut(a, b);
      var front, x, back := a[..k], a[k], a[k + 1..];
      CheckedPermuted(front + back, b[..last], check);
      CheckedAppend(front, back, check);
      CheckedAppend(front + [x], back, check);
      CheckedAppend(front, [x], check);
      CheckedOne(x, check);
      assert b == b[..last] + [x];
      CheckedAppend(b[..last], [x], check);
    }
  }

  /** Reordering the rows changes neither whether a list is accepted nor, if the key determines the row, the result. */
  lemma ListPermuted<R, T>(a: seq<R>, b: seq<R>, check: R -> Option<T>, key: T -> Tuple)
    requires multiset(a) == multiset(b)
    ensures List(a, check, key).Some? <==> List(b, check, key).Some?
    ensures List(a, check, key).Some? && KeyDetermines(Checked(a, check).value, key) ==>
              List(a, check, key) == List(b, check, key)
  {
    hide Checked, Compare;
    CheckedPermuted(a, b, check);
    if Checked(a, check).Some? && KeyDetermines(Checked(a, check).value, key) {
      var x, y := Checked(a, check).value, Checked(b, check).value;
      SortSorts(x, key);
      SortSorts(y, key);
      SameRows(x, Sort(x, key), key);
      SortedUnique(Sort(x, key), Sort(y, key), key);
    }
  }

  lemma {:induction false} CheckedSelf<T>(rows: seq<T>, check: T -> Option<T>)
    requires forall t :: t in rows ==> check(t) == Some(t)
    ensures Checked(rows, check) == Some(rows)
  {
    if rows != [] {
      CheckedSelf(rows[..|rows| - 1], check);
      assert rows == rows[..|rows| - 1] + [rows[|rows| - 1]];
    }
  }

  /** A list whose accepted rows are rewritten to rows that are accepted as they are is fixed by a second pass. */
  lemma ListTwice<R, T>(rows: seq<R>, check: R -> Option<T>, again: T -> Option<T>, key: T -> Tuple)
    requires List(rows, check, key).Some?
    requires forall r, t :: r in rows && check(r) == Some(t) ==> again(t) == Some(t)
    ensures List(List(rows, check, key).value, again, key) == List(rows, check, key)
  {
    hide Compare;
    var checked := Checked(rows, check).value;
    var sorted := Sort(checked, key);
    CheckedRows(rows, check);
    SortSorts(checked, key);
    forall t | t in sorted
      ensures again(t) == Some(t)
    {
      assert t in multiset(sorted);
      assert t in multiset(checked);
      assert t in checked;
      var i :| 0 <= i < |checked| && checked[i] == t;
      assert rows[i] in rows;
    }
    CheckedSelf(sorted, again);
    SortedIsFixed(sorted, key);
  }

  // ---- The rows of a prestate ----

  datatype Role = Role(name: string, oid: string, flags: seq<bool>, connectionLimit: int)
  datatype Membership = Membership(granted: string, member: string, grantor: string, admin: bool, inherits: bool, sets: bool)
  datatype Owner = Owner(class_: string, name: string, oid: string, owner: string)
  datatype Acl = Acl(class_: string, name: string, oid: string, aclIsNull: bool, grantor: Option<string>,
                     grantee: Option<string>, privilege: Option<string>, grantOption: Option<bool>)
  datatype Default = Default(oid: string, rowPresent: bool, aclIsNull: bool, creator: string, schema: string,
                             objectType: string, grantee: string, grantor: string, privilege: string, grantOption: bool)
  datatype Grant = Grant(class_: string, schema: string, name: string, privilege: string, source: string, grantOption: bool)

  /** The lists that are sorted; `owners` holds one list per kind of object. */
  datatype Prestate = Prestate(
    roles: seq<Role>, unknownRoles: seq<string>, memberships: seq<Membership>, owners: seq<seq<Owner>>,
    direct: seq<Acl>, public_: seq<Acl>, options: seq<Acl>, defaults: seq<Default>, grants: seq<Grant>,
    fields: seq<string>)

  // ---- Row checks ----

  const APPROVED_ROLES: set<string> := {"platform_runtime", "platform_migrator", "platform_app", "cloud_admin"}

  predicate IdStart(c: char) {
    'a' <= c <= 'z' || c == '_'
  }

  predicate IdPart(c: char) {
    IdStart(c) || '0' <= c <= '9' || c == '$'
  }

  predicate SafeIdentifier(s: string) {
    1 <= |s| <= 63 && IdStart(s[0]) && forall i :: 1 <= i < |s| ==> IdPart(s[i])
  }

  predicate NumericId(s: string) {
    1 <= |s| <= 20 && '1' <= s[0] <= '9' && forall i :: 0 <= i < |s| ==> '0' <= s[i] <= '9'
  }

  function Keep<T>(ok: bool, t: T): Option<T> {
    if ok then Some(t) else None
  }

  function CheckRole(r: Role): Option<Role> {
    Keep(r.name in APPROVED_ROLES && NumericId(r.oid) && |r.flags| == 7 && r.connectionLimit >= -1, r)
  }

  function CheckUnknown(s: string): Option<string> {
    Keep(SafeIdentifier(s) && s !in APPROVED_ROLES, s)
  }

  function CheckMembership(m: Membership): Option<Membership> {
    Keep(m.granted in APPROVED_ROLES && m.member in APPROVED_ROLES && m.grantor in APPROVED_ROLES, m)
  }

  /** The part of a qualified name behind its dot. */
  predicate LocalName(s: string) {
    1 <= |s| <= 127 && IdStart(s[0]) && forall i :: 1 <= i < |s| ==> IdPart(s[i]) || s[i] in {'(', ')', '-'}
  }

  predicate QualifiedName(s: string) {
    exists k :: 0 <= k < |s| && s[k] == '.' && SafeIdentifier(s[..k]) && LocalName(s[k + 1..])
  }

  function CheckOwner(o: Owner): Option<Owner> {
    Keep(SafeIdentifier(o.class_) && QualifiedName(o.name) && NumericId(o.oid) && SafeIdentifier(o.owner), o)
  }

  predicate BlankText(s: Option<string>) {
    s == None || s == Some("")
  }

  predicate EmptyAcl(a: Acl) {
    || a.privilege.None?
    || (a.privilege == Some("") && BlankText(a.grantor) && BlankText(a.grantee) && a.grantOption in {None, Some(false)})
  }

  predicate GranteeOk(s: string) {
    SafeIdentifier(s) || s == "PUBLIC"
  }

  /** An empty grant list is one row with blank fields; any other row names who granted what to whom. */
  function CheckAcl(a: Acl): Option<Acl> {
    if !SafeIdentifier(a.class_) || a.name == "" || !NumericId(a.oid) then None
    else if EmptyAcl(a) then
      Keep(a.grantOption in {None, Some(false)}, a.(grantor := Some(""), grantee := Some(""), privilege := Some(""),
                                                    grantOption := Some(false)))
    else if a.grantOption.None? || a.grantor.None? || a.grantee.None? then None
    else
      Keep(SafeIdentifier(a.grantor.value) && GranteeOk(a.grantee.value) && SafeIdentifier(Lower(a.privilege.value)),
           a.(privilege := Some(Lower(a.privilege.value))))
  }

  function CheckDefault(d: Default): Option<Default> {
    Keep(NumericId(d.oid) && SafeIdentifier(d.creator) && d.objectType != "", d)
  }

  function CheckGrant(g: Grant): Option<Grant> {
    Keep(g.class_ != "" && g.schema != "" && g.name != "" && g.privilege != "" && g.source != "", g)
  }

  function CheckField(s: string): Option<string> {
    Some(s)
  }

  // ---- Sort keys ----

  function OptionText(s: Option<string>): string {
    match s case None => "" case Some(t) => t
  }

  function RoleKey(r: Role): Tuple { [r.name] }
  function TextKey(s: string): Tuple { [s] }

  function MembershipKey(m: Membership): Tuple {
    [m.granted, m.member, m.grantor, BoolText(m.admin), BoolText(m.inherits), BoolText(m.sets)]
  }

  function OwnerKey(o: Owner): Tuple { [o.name, o.owner] }

  function AclKey(a: Acl): Tuple {
    [a.class_, a.name, a.oid, BoolText(a.aclIsNull), OptionText(a.grantor), OptionText(a.grantee), OptionText(a.privilege),
     BoolText(a.grantOption == Some(true))]
  }

  function DefaultKey(d: Default): Tuple {
    [d.oid, BoolText(d.rowPresent), BoolText(d.aclIsNull), d.creator, d.schema, d.objectType, d.grantee, d.grantor,
     d.privilege, BoolText(d.grantOption)]
  }

  function GrantKey(g: Grant): Tuple {
    [g.class_, g.schema, g.name, g.privilege, g.source, BoolText(g.grantOption)]
  }

  // ---- The whole prestate ----

  function OwnerList(o: seq<Owner>): Option<seq<Owner>> {
    List(o, CheckOwner, OwnerKey)
  }

  function OwnerLists(owners: seq<seq<Owner>>): Option<seq<seq<Owner>>> {
    Checked(owners, OwnerList)
  }

  /** `grantsOk` stands for the comparison with the canonical runtime grant set. */
  function Normal(p: Prestate, grantsOk: seq<Grant> -> bool): Option<Prestate> {
    var roles, unknown, memberships := List(p.roles, CheckRole, RoleKey), List(p.unknownRoles, CheckUnknown, TextKey),
                                       List(p.memberships, CheckMembership, MembershipKey);
    var owners, direct, public_, options := OwnerLists(p.owners), List(p.direct, CheckAcl, AclKey),
                                            List(p.public_, CheckAcl, AclKey), List(p.options, CheckAcl, AclKey);
    var defaults, grants, fields := List(p.defaults, CheckDefault, DefaultKey), List(p.grants, CheckGrant, GrantKey),
                                    List(p.fields, CheckField, TextKey);
    if roles.None? || unknown.None? || memberships.None? || owners.None? || direct.None? || public_.None? || options.None?
       || defaults.None? || grants.None? || fields.None? || !grantsOk(grants.value)
    then None
    else Some(Prestate(roles.value, unknown.value, memberships.value, owners.value, direct.value, public_.value, options.value,
                       defaults.value, grants.value, fields.value))
  }

  // ---- Idempotence ----

  lemma AclTwice(a: Acl)
    ensures CheckAcl(a).Some? ==> CheckAcl(CheckAcl(a).value) == CheckAcl(a)
  {
    if CheckAcl(a).Some? && a.privilege.Some? {
      LowerTwice(a.privilege.value);
      assert |Lower(a.privilege.value)| == |a.privilege.value|;
    }
  }

  lemma AclListTwice(rows: seq<Acl>)
    requires List(rows, CheckAcl, AclKey).Some?
    ensures List(List(rows, CheckAcl, AclKey).value, CheckAcl, AclKey) == List(rows, CheckAcl, AclKey)
  {
    forall r, t | r in rows && CheckAcl(r) == Some(t)
      ensures CheckAcl(t) == Some(t)
    {
      AclTwice(r);
    }
    hide CheckAcl, AclKey, List;
    ListTwice(rows, CheckAcl, CheckAcl, AclKey);
  }

  lemma OwnersTwice(owners: seq<seq<Owner>>)
    requires OwnerLists(owners).Some?
    ensures OwnerLists(OwnerLists(owners).value) == OwnerLists(owners)
  {
    var once := OwnerLists(owners).value;
    CheckedRows(owners, OwnerList);
    forall t | t in once
      ensures OwnerList(t) == Some(t)
    {
      var i :| 0 <= i < |once| && once[i] == t;
      ListTwice(owners[i], CheckOwner, CheckOwner, OwnerKey);
    }
    CheckedSelf(once, OwnerList);
  }

  /** Normalising a normalised prestate changes nothing. */
  lemma NormalTwice(p: Prestate, grantsOk: seq<Grant> -> bool)
    requires Normal(p, grantsOk).Some?
    ensures Normal(Normal(p, grantsOk).value, grantsOk) == Normal(p, grantsOk)
  {
    ListTwice(p.roles, CheckRole, CheckRole, RoleKey);
    ListTwice(p.unknownRoles, CheckUnknown, CheckUnknown, TextKey);
    ListTwice(p.memberships, CheckMembership, CheckMembership, MembershipKey);
    OwnersTwice(p.owners);
    AclListTwice(p.direct);
    AclListTwice(p.public_);
    AclListTwice(p.options);
    ListTwice(p.defaults, CheckDefault, CheckDefault, DefaultKey);
    ListTwice(p.grants, CheckGrant, CheckGrant, GrantKey);
    ListTwice(p.fields, CheckField, CheckField, TextKey);
  }

  // ---- Forgetting the order of the rows ----

  lemma TupleEqual(a: Tuple, b: Tuple)
    requires |a| == |b| && Compare(a, b) == 0
    ensures forall i :: 0 <= i < |a| ==> a[i] == b[i]
  {
    CompareZero(a, b);
  }

  lemma MembershipsDetermined(rows: seq<Membership>)
    ensures KeyDetermines(rows, MembershipKey)
  {
    hide Compare;
    forall a: Membership, b: Membership | Compare(MembershipKey(a), MembershipKey(b)) == 0
      ensures a == b
    {
      var x, y := MembershipKey(a), MembershipKey(b);
      TupleEqual(x, y);
      assert x[0] == y[0] && x[1] == y[1] && x[2] == y[2] && x[3] == y[3] && x[4] == y[4] && x[5] == y[5];
      BoolTextInjective(a.admin, b.admin);
      BoolTextInjective(a.inherits, b.inherits);
      BoolTextInjective(a.sets, b.sets);
    }
  }

  lemma DefaultsDetermined(rows: seq<Default>)
    ensures KeyDetermines(rows, DefaultKey)
  {
    hide Compare;
    forall a: Default, b: Default | Compare(DefaultKey(a), DefaultKey(b)) == 0
      ensures a == b
    {
      var x, y := DefaultKey(a), DefaultKey(b);
      TupleEqual(x, y);
      assert x[0] == y[0] && x[1] == y[1] && x[2] == y[2] && x[3] == y[3] && x[4] == y[4];
      assert x[5] == y[5] && x[6] == y[6] && x[7] == y[7] && x[8] == y[8] && x[9] == y[9];
      BoolTextInjective(a.rowPresent, b.rowPresent);
      BoolTextInjective(a.aclIsNull, b.aclIsNull);
      BoolTextInjective(a.grantOption, b.grantOption);
    }
  }

  lemma GrantsDetermined(rows: seq<Grant>)
    ensures KeyDetermines(rows, GrantKey)
  {
    hide Compare;
    forall a: Grant, b: Grant | Compare(GrantKey(a), GrantKey(b)) == 0
      ensures a == b
    {
      var x, y := GrantKey(a), GrantKey(b);
      TupleEqual(x, y);
      assert x[0] == y[0] && x[1] == y[1] && x[2] == y[2] && x[3] == y[3] && x[4] == y[4] && x[5] == y[5];
      BoolTextInjective(a.grantOption, b.grantOption);
    }
  }

  lemma TextsDetermined(rows: seq<string>)
    ensures KeyDetermines(rows, TextKey)
  {
    hide Compare;
    forall a: string, b: string | Compare(TextKey(a), TextKey(b)) == 0
      ensures a == b
    {
      TupleEqual(TextKey(a), TextKey(b));
      assert TextKey(a)[0] == TextKey(b)[0];
    }
  }

  /** A checked grant row has all its optional fields filled. */
  predicate Filled(a: Acl) {
    a.grantor.Some? && a.grantee.Some? && a.privilege.Some? && a.grantOption.Some?
  }

  lemma OptionOfBool(o: Option<bool>)
    requires o.Some?
    ensures o == Some(true) || o == Some(false)
  {
    if o.value {
      assert o == Some(true);
    } else {
      assert o == Some(false);
    }
  }

  lemma AclDetermined(a: Acl, b: Acl)
    requires Filled(a) && Filled(b) && Compare(AclKey(a), AclKey(b)) == 0
    ensures a == b
  {
    hide Compare;
    var x, y := AclKey(a), AclKey(b);
    TupleEqual(x, y);
    assert x[0] == y[0] && x[1] == y[1] && x[2] == y[2] && x[3] == y[3];
    assert x[4] == y[4] && x[5] == y[5] && x[6] == y[6] && x[7] == y[7];
    BoolTextInjective(a.aclIsNull, b.aclIsNull);
    BoolTextInjective(a.grantOption == Some(true), b.grantOption == Some(true));
    assert a.grantOption == Some(a.grantOption.value) && b.grantOption == Some(b.grantOption.value);
    assert a.grantor.value == b.grantor.value && a.grantee.value == b.grantee.value && a.privilege.value == b.privilege.value;
    OptionOfBool(a.grantOption);
    OptionOfBool(b.grantOption);
    assert a.grantOption == b.grantOption;
    assert a.grantor == Some(a.grantor.value) == Some(b.grantor.value) == b.grantor;
    assert a.grantee == Some(a.grantee.value) == Some(b.grantee.value) == b.grantee;
    assert a.privilege == Some(a.privilege.value) == Some(b.privilege.value) == b.privilege;
  }

  lemma AclsDetermined(rows: seq<Acl>)
    requires Checked(rows, CheckAcl).Some?
    ensures KeyDetermines(Checked(rows, CheckAcl).value, AclKey)
  {
    hide Compare, AclKey;
    var checked := Checked(rows, CheckAcl).value;
    CheckedRows(rows, CheckAcl);
    forall i | 0 <= i < |checked|
      ensures Filled(checked[i])
    {
      assert CheckAcl(rows[i]) == Some(checked[i]);
    }
    forall i, j | 0 <= i < |checked| && 0 <= j < |checked| && Compare(AclKey(checked[i]), AclKey(checked[j])) == 0
      ensures checked[i] == checked[j]
    {
      AclDetermined(checked[i], checked[j]);
    }
  }

  /** The same rows in another order, list by list. */
  ghost predicate Reordered(p: Prestate, q: Prestate) {
    && multiset(p.roles) == multiset(q.roles) && multiset(p.unknownRoles) == multiset(q.unknownRoles)
    && multiset(p.memberships) == multiset(q.memberships)
    && |p.owners| == |q.owners| && (forall i :: 0 <= i < |p.owners| ==> multiset(p.owners[i]) == multiset(q.owners[i]))
    && multiset(p.direct) == multiset(q.direct) && multiset(p.public_) == multiset(q.public_)
    && multiset(p.options) == multiset(q.options) && multiset(p.defaults) == multiset(q.defaults)
    && multiset(p.grants) == multiset(q.grants) && multiset(p.fields) == multiset(q.fields)
  }

  /** Role names are unique, and so are the name and owner of each kind of object, up to equal rows. */
  predicate KeysUnique(p: Prestate) {
    KeyDetermines(p.roles, RoleKey) && forall i :: 0 <= i < |p.owners| ==> KeyDetermines(p.owners[i], OwnerKey)
  }

  lemma SameChecked<T>(rows: seq<T>, check: T -> Option<T>)
    requires Checked(rows, check).Some?
    requires forall t :: check(t).Some? ==> check(t).value == t
    ensures Checked(rows, check).value == rows
  {
    CheckedRows(rows, check);
    var checked := Checked(rows, check).value;
    forall i | 0 <= i < |rows|
      ensures checked[i] == rows[i]
    {
      assert check(rows[i]) == Some(checked[i]);
    }
  }

  lemma OwnersReordered(a: seq<seq<Owner>>, b: seq<seq<Owner>>)
    requires |a| == |b| && OwnerLists(a).Some?
    requires forall i :: 0 <= i < |a| ==> multiset(a[i]) == multiset(b[i]) && KeyDetermines(a[i], OwnerKey)
    ensures OwnerLists(b) == OwnerLists(a)
  {
    hide Compare, Sort, QualifiedName;
    CheckedRows(a, OwnerList);
    CheckedRows(b, OwnerList);
    forall i | 0 <= i < |a|
      ensures OwnerList(a[i]).Some? && OwnerList(b[i]) == OwnerList(a[i])
    {
      assert OwnerList(a[i]).Some?;
      SameChecked(a[i], CheckOwner);
      ListPermuted(a[i], b[i], CheckOwner, OwnerKey);
    }
    assert OwnerLists(b).value == OwnerLists(a).value;
  }

  lemma RolesReordered(a: seq<Role>, b: seq<Role>)
    requires multiset(a) == multiset(b) && List(a, CheckRole, RoleKey).Some? && KeyDetermines(a, RoleKey)
    ensures List(b, CheckRole, RoleKey) == List(a, CheckRole, RoleKey)
  {
    SameChecked(a, CheckRole);
    ListPermuted(a, b, CheckRole, RoleKey);
  }

  lemma AclsReordered(a: seq<Acl>, b: seq<Acl>)
    requires multiset(a) == multiset(b) && List(a, CheckAcl, AclKey).Some?
    ensures List(b, CheckAcl, AclKey) == List(a, CheckAcl, AclKey)
  {
    AclsDetermined(a);
    ListPermuted(a, b, CheckAcl, AclKey);
  }

  lemma PlainReordered(p: Prestate, q: Prestate)
    requires Reordered(p, q)
    requires List(p.unknownRoles, CheckUnknown, TextKey).Some? && List(p.memberships, CheckMembership, MembershipKey).Some?
    requires List(p.defaults, CheckDefault, DefaultKey).Some? && List(p.grants, CheckGrant, GrantKey).Some?
    requires List(p.fields, CheckField, TextKey).Some?
    ensures List(q.unknownRoles, CheckUnknown, TextKey) == List(p.unknownRoles, CheckUnknown, TextKey)
    ensures List(q.memberships, CheckMembership, MembershipKey) == List(p.memberships, CheckMembership, MembershipKey)
    ensures List(q.defaults, CheckDefault, DefaultKey) == List(p.defaults, CheckDefault, DefaultKey)
    ensures List(q.grants, CheckGrant, GrantKey) == List(p.grants, CheckGrant, GrantKey)
    ensures List(q.fields, CheckField, TextKey) == List(p.fields, CheckField, TextKey)
  {
    hide Sort, Compare, KeyDetermines;
    TextsDetermined(Checked(p.unknownRoles, CheckUnknown).value);
    ListPermuted(p.unknownRoles, q.unknownRoles, CheckUnknown, TextKey);
    MembershipsDetermined(Checked(p.memberships, CheckMembership).value);
    ListPermuted(p.memberships, q.memberships, CheckMembership, MembershipKey);
    DefaultsDetermined(Checked(p.defaults, CheckDefault).value);
    ListPermuted(p.defaults, q.defaults, CheckDefault, DefaultKey);
    GrantsDetermined(Checked(p.grants, CheckGrant).value);
    ListPermuted(p.grants, q.grants, CheckGrant, GrantKey);
    TextsDetermined(Checked(p.fields, CheckField).value);
    ListPermuted(p.fields, q.fields, CheckField, TextKey);
  }

  lemma ReorderedSame(p: Prestate, q: Prestate, grantsOk: seq<Grant> -> bool)
    requires Normal(p, grantsOk).Some? && Reordered(p, q) && KeysUnique(p)
    ensures Normal(q, grantsOk) == Normal(p, grantsOk)
  {
    hide List, OwnerLists, KeyDetermines;
    RolesReordered(p.roles, q.roles);
    OwnersReordered(p.owners, q.owners);
    AclsReordered(p.direct, q.direct);
    AclsReordered(p.public_, q.public_);
    AclsReordered(p.options, q.options);
    PlainReordered(p, q);
  }

  /** Two rows the key cannot tell apart: swapping them gives a different normal form. */
  lemma RolesShow(p: Prestate, grantsOk: seq<Grant> -> bool) returns (q: Prestate)
    requires Normal(p, grantsOk).Some? && !KeyDetermines(p.roles, RoleKey)
    ensures Reordered(p, q) && Normal(q, grantsOk) != Normal(p, grantsOk)
  {
    hide Compare, Normal, Sort;
    var i, j :| 0 <= i < |p.roles| && 0 <= j < |p.roles| && Compare(RoleKey(p.roles[i]), RoleKey(p.roles[j])) == 0
                && p.roles[i] != p.roles[j];
    var t := Swapped(p.roles, i, j, RoleKey);
    q := p.(roles := t);
    if Normal(q, grantsOk) == Normal(p, grantsOk) {
      NormalParts(p, grantsOk);
      NormalParts(q, grantsOk);
      SameChecked(p.roles, CheckRole);
      SameChecked(t, CheckRole);
    }
  }

  lemma NormalParts(p: Prestate, grantsOk: seq<Grant> -> bool)
    requires Normal(p, grantsOk).Some?
    ensures List(p.roles, CheckRole, RoleKey) == Some(Normal(p, grantsOk).value.roles)
    ensures OwnerLists(p.owners) == Some(Normal(p, grantsOk).value.owners)
  {
    hide List, OwnerLists;
  }

  lemma Swapped<T>(s: seq<T>, i: nat, j: nat, key: T -> Tuple) returns (t: seq<T>)
    requires i < |s| && j < |s| && Compare(key(s[i]), key(s[j])) == 0 && s[i] != s[j]
    ensures multiset(t) == multiset(s) && Sort(t, key) != Sort(s, key)
  {
    CompareAntisymmetric(key(s[i]), key(s[j]));
    if i < j {
      SwapShows(s, i, j, key);
      t := s[i := s[j]][j := s[i]];
    } else {
      SwapShows(s, j, i, key);
      t := s[j := s[i]][i := s[j]];
    }
  }

  lemma OwnersShow(p: Prestate, grantsOk: seq<Grant> -> bool, k: nat) returns (q: Prestate)
    requires Normal(p, grantsOk).Some? && k < |p.owners| && !KeyDetermines(p.owners[k], OwnerKey)
    ensures Reordered(p, q) && Normal(q, grantsOk) != Normal(p, grantsOk)
  {
    hide Compare, QualifiedName, Sort, Normal;
    var rows := p.owners[k];
    var i, j :| 0 <= i < |rows| && 0 <= j < |rows| && Compare(OwnerKey(rows[i]), OwnerKey(rows[j])) == 0 && rows[i] != rows[j];
    var t := Swapped(rows, i, j, OwnerKey);
    q := p.(owners := p.owners[k := t]);
    if Normal(q, grantsOk) == Normal(p, grantsOk) {
      NormalParts(p, grantsOk);
      NormalParts(q, grantsOk);
      CheckedRows(p.owners, OwnerList);
      CheckedRows(q.owners, OwnerList);
      assert OwnerList(p.owners[k]) == Some(OwnerLists(p.owners).value[k]);
      assert OwnerList(q.owners[k]) == Some(OwnerLists(q.owners).value[k]);
      SameChecked(rows, CheckOwner);
      SameChecked(t, CheckOwner);
    }
  }

  ghost predicate OrderIrrelevant(p: Prestate, grantsOk: seq<Grant> -> bool) {
    forall q :: Reordered(p, q) ==> Normal(q, grantsOk) == Normal(p, grantsOk)
  }

  /** The normal form, and so its digest, ignores row order exactly when role names and object names with owners are unique. */
  lemma OrderIrrelevantIff(p: Prestate, grantsOk: seq<Grant> -> bool)
    requires Normal(p, grantsOk).Some?
    ensures OrderIrrelevant(p, grantsOk) <==> KeysUnique(p)
  {
    hide Normal, KeyDetermines, Reordered;
    if KeysUnique(p) {
      forall q | Reordered(p, q)
        ensures Normal(q, grantsOk) == Normal(p, grantsOk)
      {
        ReorderedSame(p, q, grantsOk);
      }
    } else if !KeyDetermines(p.roles, RoleKey) {
      var q := RolesShow(p, grantsOk);
    } else {
      var k :| 0 <= k < |p.owners| && !KeyDetermines(p.owners[k], OwnerKey);
      var q := OwnersShow(p, grantsOk, k);
    }
  }

  // ---- Nothing is lost, row by row ----

  /** What becomes of one privilege row: its object is kept; a blank entry is blank, any other keeps all but letter case. */
  predicate Rewritten(a: Acl, b: Acl) {
    && b.class_ == a.class_ && b.name == a.name && b.oid == a.oid && b.aclIsNull == a.aclIsNull
    && if EmptyAcl(a) then
         b.grantor == Some("") && b.grantee == Some("") && b.privilege == Some("") && b.grantOption == Some(false)
       else
         b.grantor == a.grantor && b.grantee == a.grantee && b.grantOption == a.grantOption
         && b.privilege == Some(Lower(a.privilege.value))
  }

  /** One rewritten row for each row, up to order. */
  ghost predicate AllRewritten(rows: seq<Acl>, sorted: seq<Acl>) {
    exists kept: seq<Acl> ::
      && |kept| == |rows| && multiset(kept) == multiset(sorted)
      && forall i :: 0 <= i < |rows| ==> Rewritten(rows[i], kept[i])
  }

  lemma AclsKept(rows: seq<Acl>)
    requires List(rows, CheckAcl, AclKey).Some?
    ensures AllRewritten(rows, List(rows, CheckAcl, AclKey).value)
    ensures Sorted(List(rows, CheckAcl, AclKey).value, AclKey)
  {
    hide Sort, Compare, AclKey, SafeIdentifier, NumericId, Lower;
    var kept := Checked(rows, CheckAcl).value;
    CheckedRows(rows, CheckAcl);
    SortSorts(kept, AclKey);
    forall i | 0 <= i < |rows|
      ensures Rewritten(rows[i], kept[i])
    {
      assert CheckAcl(rows[i]) == Some(kept[i]);
    }
  }

  lemma RowsKept<T>(rows: seq<T>, check: T -> Option<T>, key: T -> Tuple)
    requires List(rows, check, key).Some?
    requires forall t :: check(t).Some? ==> check(t).value == t
    ensures multiset(List(rows, check, key).value) == multiset(rows) && Sorted(List(rows, check, key).value, key)
  {
    hide Sort, Compare;
    SameChecked(rows, check);
    SortSorts(rows, key);
  }

  /** The rows of every list of the normal form are those of the same list of the prestate, put in order. */
  lemma NormalKeepsRows(p: Prestate, grantsOk: seq<Grant> -> bool, q: Prestate)
    requires Normal(p, grantsOk) == Some(q)
    ensures multiset(q.roles) == multiset(p.roles) && multiset(q.unknownRoles) == multiset(p.unknownRoles)
    ensures multiset(q.memberships) == multiset(p.memberships) && multiset(q.defaults) == multiset(p.defaults)
    ensures multiset(q.grants) == multiset(p.grants) && multiset(q.fields) == multiset(p.fields)
    ensures |q.owners| == |p.owners| && forall k :: 0 <= k < |p.owners| ==> multiset(q.owners[k]) == multiset(p.owners[k])
    ensures AllRewritten(p.direct, q.direct) && AllRewritten(p.public_, q.public_) && AllRewritten(p.options, q.options)
  {
    hide List, Compare, Sort, AllRewritten, QualifiedName, SafeIdentifier, NumericId, CheckAcl;
    RowsKept(p.roles, CheckRole, RoleKey);
    RowsKept(p.unknownRoles, CheckUnknown, TextKey);
    RowsKept(p.memberships, CheckMembership, MembershipKey);
    RowsKept(p.defaults, CheckDefault, DefaultKey);
    RowsKept(p.grants, CheckGrant, GrantKey);
    RowsKept(p.fields, CheckField, TextKey);
    OwnersKept(p.owners);
    AclsKept(p.direct);
    AclsKept(p.public_);
    AclsKept(p.options);
  }

  lemma OwnersKept(owners: seq<seq<Owner>>)
    requires OwnerLists(owners).Some?
    ensures var sorted := OwnerLists(owners).value;
            && |sorted| == |owners|
            && forall k :: 0 <= k < |owners| ==> multiset(sorted[k]) == multiset(owners[k]) && Sorted(sorted[k], OwnerKey)
  {
    hide List, Sort, Compare, QualifiedName, SafeIdentifier, NumericId;
    var sorted := OwnerLists(owners).value;
    CheckedRows(owners, OwnerList);
    forall k | 0 <= k < |owners|
      ensures multiset(sorted[k]) == multiset(owners[k]) && Sorted(sorted[k], OwnerKey)
    {
      assert OwnerList(owners[k]) == Some(sorted[k]);
      RowsKept(owners[k], CheckOwner, OwnerKey);
    }
  }

  /** `a` is not behind `b`, by the given columns. */
  predicate InOrder(a: Tuple, b: Tuple) {
    Compare(a, b) <= 0
  }

  /** Privilege rows in order of object, null flag, grantor, grantee, privilege and grant option. */
  predicate AclsInOrder(rows: seq<Acl>) {
    forall i, j :: 0 <= i < j < |rows| ==>
      var a, b := rows[i], rows[j];
      InOrder([a.class_, a.name, a.oid, BoolText(a.aclIsNull), OptionText(a.grantor), OptionText(a.grantee),
               OptionText(a.privilege), BoolText(a.grantOption == Some(true))],
              [b.class_, b.name, b.oid, BoolText(b.aclIsNull), OptionText(b.grantor), OptionText(b.grantee),
               OptionText(b.privilege), BoolText(b.grantOption == Some(true))])
  }

  /** The columns each list of the normal form is ordered by. */
  lemma NormalSorts(p: Prestate, grantsOk: seq<Grant> -> bool, q: Prestate)
    requires Normal(p, grantsOk) == Some(q)
    ensures forall i, j :: 0 <= i < j < |q.roles| ==> InOrder([q.roles[i].name], [q.roles[j].name])
    ensures forall i, j :: 0 <= i < j < |q.unknownRoles| ==> InOrder([q.unknownRoles[i]], [q.unknownRoles[j]])
    ensures forall i, j :: 0 <= i < j < |q.memberships| ==>
              var a, b := q.memberships[i], q.memberships[j];
              InOrder([a.granted, a.member, a.grantor, BoolText(a.admin), BoolText(a.inherits), BoolText(a.sets)],
                      [b.granted, b.member, b.grantor, BoolText(b.admin), BoolText(b.inherits), BoolText(b.sets)])
    ensures forall k, i, j :: 0 <= k < |q.owners| && 0 <= i < j < |q.owners[k]| ==>
              InOrder([q.owners[k][i].name, q.owners[k][i].owner], [q.owners[k][j].name, q.owners[k][j].owner])
    ensures AclsInOrder(q.direct) && AclsInOrder(q.public_) && AclsInOrder(q.options)
    ensures forall i, j :: 0 <= i < j < |q.defaults| ==>
              var a, b := q.defaults[i], q.defaults[j];
              InOrder([a.oid, BoolText(a.rowPresent), BoolText(a.aclIsNull), a.creator, a.schema, a.objectType, a.grantee,
                       a.grantor, a.privilege, BoolText(a.grantOption)],
                      [b.oid, BoolText(b.rowPresent), BoolText(b.aclIsNull), b.creator, b.schema, b.objectType, b.grantee,
                       b.grantor, b.privilege, BoolText(b.grantOption)])
    ensures forall i, j :: 0 <= i < j < |q.grants| ==>
              var a, b := q.grants[i], q.grants[j];
              InOrder([a.class_, a.schema, a.name, a.privilege, a.source, BoolText(a.grantOption)],
                      [b.class_, b.schema, b.name, b.privilege, b.source, BoolText(b.grantOption)])
    ensures forall i, j :: 0 <= i < j < |q.fields| ==> InOrder([q.fields[i]], [q.fields[j]])
  {
    hide List, Compare, Sort, AllRewritten, QualifiedName, SafeIdentifier, NumericId, CheckAcl;
    RowsKept(p.roles, CheckRole, RoleKey);
    RowsKept(p.unknownRoles, CheckUnknown, TextKey);
    RowsKept(p.memberships, CheckMembership, MembershipKey);
    RowsKept(p.defaults, CheckDefault, DefaultKey);
    RowsKept(p.grants, CheckGrant, GrantKey);
    RowsKept(p.fields, CheckField, TextKey);
    OwnersKept(p.owners);
    AclsKept(p.direct);
    AclsKept(p.public_);
    AclsKept(p.options);
  }

  /** A privilege row is in order: blank, or with a grantor, a grantee, a privilege and a grant option. */
  predicate AclRowOk(a: Acl) {
    && SafeIdentifier(a.class_) && a.name != "" && NumericId(a.oid)
    && if EmptyAcl(a) then a.grantOption != Some(true)
       else
         && a.grantor.Some? && SafeIdentifier(a.grantor.value) && a.grantOption.Some?
         && a.grantee.Some? && (SafeIdentifier(a.grantee.value) || a.grantee.value == "PUBLIC")
         && SafeIdentifier(Lower(a.privilege.value))
  }

  predicate RoleRowOk(r: Role) {
    r.name in APPROVED_ROLES && NumericId(r.oid) && |r.flags| == 7 && r.connectionLimit >= -1
  }

  predicate MembershipRowOk(m: Membership) {
    m.granted in APPROVED_ROLES && m.member in APPROVED_ROLES && m.grantor in APPROVED_ROLES
  }

  predicate OwnerRowOk(o: Owner) {
    SafeIdentifier(o.class_) && QualifiedName(o.name) && NumericId(o.oid) && SafeIdentifier(o.owner)
  }

  predicate DefaultRowOk(d: Default) {
    NumericId(d.oid) && SafeIdentifier(d.creator) && d.objectType != ""
  }

  predicate GrantRowOk(g: Grant) {
    g.class_ != "" && g.schema != "" && g.name != "" && g.privilege != "" && g.source != ""
  }

  /** Every row of every list is in order. */
  predicate RowsOk(p: Prestate) {
    && (forall r :: r in p.roles ==> RoleRowOk(r))
    && (forall u :: u in p.unknownRoles ==> SafeIdentifier(u) && u !in APPROVED_ROLES)
    && (forall m :: m in p.memberships ==> MembershipRowOk(m))
    && (forall o, k :: 0 <= k < |p.owners| && o in p.owners[k] ==> OwnerRowOk(o))
    && (forall a :: a in p.direct ==> AclRowOk(a))
    && (forall a :: a in p.public_ ==> AclRowOk(a))
    && (forall a :: a in p.options ==> AclRowOk(a))
    && (forall d :: d in p.defaults ==> DefaultRowOk(d))
    && (forall g :: g in p.grants ==> GrantRowOk(g))
  }

  lemma ListAccepts<R, T>(rows: seq<R>, check: R -> Option<T>, key: T -> Tuple, ok: R -> bool)
    requires forall r :: check(r).Some? <==> ok(r)
    ensures List(rows, check, key).Some? <==> forall r :: r in rows ==> ok(r)
  {
    CheckedRows(rows, check);
    if forall r :: r in rows ==> ok(r) {
      forall i | 0 <= i < |rows|
        ensures check(rows[i]).Some?
      {
        assert rows[i] in rows;
      }
    }
  }

  lemma AclRowChecked(a: Acl)
    ensures CheckAcl(a).Some? <==> AclRowOk(a)
  {
    hide SafeIdentifier, NumericId, Lower;
    if a.grantOption.Some? {
      OptionOfBool(a.grantOption);
    }
  }

  lemma OwnersAccept(owners: seq<seq<Owner>>)
    ensures OwnerLists(owners).Some? <==> forall o, k :: 0 <= k < |owners| && o in owners[k] ==> OwnerRowOk(o)
  {
    hide List, QualifiedName, SafeIdentifier, NumericId;
    CheckedRows(owners, OwnerList);
    forall k | 0 <= k < |owners|
      ensures OwnerList(owners[k]).Some? <==> forall o :: o in owners[k] ==> OwnerRowOk(o)
    {
      ListAccepts(owners[k], CheckOwner, OwnerKey, OwnerRowOk);
    }
  }

  /** A prestate is accepted exactly if every row is in order and its grants, in order, are the expected ones. */
  lemma NormalAcceptsIff(p: Prestate, grantsOk: seq<Grant> -> bool)
    ensures Normal(p, grantsOk).Some? <==>
            && RowsOk(p)
            && exists grants: seq<Grant> :: multiset(grants) == multiset(p.grants) && Sorted(grants, GrantKey) && grantsOk(grants)
  {
    hide List, OwnerLists, Compare, Sort, QualifiedName, SafeIdentifier, NumericId, CheckAcl, AclRowOk, OwnerRowOk, KeyDetermines;
    ListAccepts(p.roles, CheckRole, RoleKey, RoleRowOk);
    ListAccepts(p.unknownRoles, CheckUnknown, TextKey, (u: string) => SafeIdentifier(u) && u !in APPROVED_ROLES);
    ListAccepts(p.memberships, CheckMembership, MembershipKey, MembershipRowOk);
    OwnersAccept(p.owners);
    forall a: Acl
      ensures CheckAcl(a).Some? <==> AclRowOk(a)
    {
      AclRowChecked(a);
    }
    ListAccepts(p.direct, CheckAcl, AclKey, AclRowOk);
    ListAccepts(p.public_, CheckAcl, AclKey, AclRowOk);
    ListAccepts(p.options, CheckAcl, AclKey, AclRowOk);
    ListAccepts(p.defaults, CheckDefault, DefaultKey, DefaultRowOk);
    ListAccepts(p.grants, CheckGrant, GrantKey, GrantRowOk);
    ListAccepts(p.fields, CheckField, TextKey, _ => true);
    if List(p.grants, CheckGrant, GrantKey).Some? {
      GrantsInOrder(p.grants, grantsOk);
    }
  }

  lemma GrantsInOrder(rows: seq<Grant>, grantsOk: seq<Grant> -> bool)
    requires List(rows, CheckGrant, GrantKey).Some?
    ensures grantsOk(List(rows, CheckGrant, GrantKey).value) <==>
            exists grants: seq<Grant> :: multiset(grants) == multiset(rows) && Sorted(grants, GrantKey) && grantsOk(grants)
  {
    hide List, Compare, Sort, Sorted, KeyDetermines;
    var sorted := List(rows, CheckGrant, GrantKey).value;
    RowsKept(rows, CheckGrant, GrantKey);
    forall grants: seq<Grant> | multiset(grants) == multiset(rows) && Sorted(grants, GrantKey)
      ensures grants == sorted
    {
      GrantsDetermined(sorted);
      SortedUnique(sorted, grants, GrantKey);
    }
  }

  // ---- The condition can fail ----

  function Bare(roles: seq<Role>, owners: seq<seq<Owner>>, grants: seq<Grant>): Prestate {
    Prestate(roles, [], [], owners, [], [], [], [], grants, [])
  }

  const PLAIN_FLAGS := [false, false, false, false, false, false, false]
  const TWICE_NAMED := [Role("cloud_admin", "1", PLAIN_FLAGS, -1), Role("cloud_admin", "2", PLAIN_FLAGS, -1)]
  const TWICE_OWNED := [Owner("table", "public.t", "1", "cloud_admin"), Owner("table", "public.t", "2", "cloud_admin")]

  /** One owner list for each of the six kinds of object: relations, indexes, sequences, types, enums, routines. */
  function SixKinds(relations: seq<Owner>): seq<seq<Owner>> {
    [relations, [], [], [], [], []]
  }

  lemma PairChecked<T>(rows: seq<T>, check: T -> Option<T>)
    requires |rows| == 2 && check(rows[0]).Some? && check(rows[1]).Some?
    ensures Checked(rows, check).Some?
  {
    CheckedRows(rows, check);
  }

  lemma PairAlike<T>(rows: seq<T>, key: T -> Tuple)
    requires |rows| == 2 && rows[0] != rows[1] && key(rows[0]) == key(rows[1])
    ensures !KeyDetermines(rows, key)
  {
    CompareZero(key(rows[0]), key(rows[1]));
  }

  /** Two rows of one role name are accepted beside any accepted grants, and their order decides the normal form. */
  lemma RoleOrderShows(grants: seq<Grant>, grantsOk: seq<Grant> -> bool)
    requires List(grants, CheckGrant, GrantKey).Some? && grantsOk(List(grants, CheckGrant, GrantKey).value)
    ensures Normal(Bare(TWICE_NAMED, SixKinds([]), grants), grantsOk).Some?
    ensures !OrderIrrelevant(Bare(TWICE_NAMED, SixKinds([]), grants), grantsOk)
  {
    hide Sort, Compare, KeyDetermines, OrderIrrelevant, QualifiedName;
    var p := Bare(TWICE_NAMED, SixKinds([]), grants);
    CheckedRows(p.owners, OwnerList);
    PairChecked(TWICE_NAMED, CheckRole);
    assert Normal(p, grantsOk).Some?;
    PairAlike(TWICE_NAMED, RoleKey);
    OrderIrrelevantIff(p, grantsOk);
  }

  lemma SampleName()
    ensures QualifiedName("public.t")
  {
    var name := "public.t";
    assert name[6] == '.' && name[..6] == "public" && name[7..] == "t";
  }

  lemma TwiceOwned()
    ensures OwnerList(TWICE_OWNED).Some? && !KeyDetermines(TWICE_OWNED, OwnerKey)
  {
    hide Sort, Compare, QualifiedName;
    SampleName();
    PairChecked(TWICE_OWNED, CheckOwner);
    PairAlike(TWICE_OWNED, OwnerKey);
  }

  /** So are two objects of one name and owner. */
  lemma OwnerOrderShows(grants: seq<Grant>, grantsOk: seq<Grant> -> bool)
    requires List(grants, CheckGrant, GrantKey).Some? && grantsOk(List(grants, CheckGrant, GrantKey).value)
    ensures Normal(Bare([], SixKinds(TWICE_OWNED), grants), grantsOk).Some?
    ensures !OrderIrrelevant(Bare([], SixKinds(TWICE_OWNED), grants), grantsOk)
  {
    hide Sort, Compare, KeyDetermines, OrderIrrelevant, CheckOwner, OwnerKey;
    var p := Bare([], SixKinds(TWICE_OWNED), grants);
    TwiceOwned();
    CheckedRows(p.owners, OwnerList);
    assert OwnerLists(p.owners).Some?;
    assert !KeyDetermines(p.owners[0], OwnerKey);
    OrderIrrelevantIff(p, grantsOk);
  }
}
