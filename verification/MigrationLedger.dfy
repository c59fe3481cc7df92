/**
 The migration ledger: which lists of applied rows are an accepted prefix of the canonical journal, and
 what the ledger can be after the migration primitive returns.  The digest of a ledger is any function
 on row lists; results name the two lists that would have to collide.
 */
module MigrationLedger {
  import opened Wrappers
  import opened Octets

  datatype Entry = Entry(idx: int, tag: string, when: string, hash: string)
  datatype Row = Row(when: string, hash: string)
  datatype Operation = Operation(tag: string, idx: int, when: string, hash: string, prefixDigest: string, postDigest: string)

  /** The canonical journal, with the digests that some historical rows carry for CRLF line endings. */
  datatype Journal = Journal(entries: seq<Entry>, aliases: map<nat, string>)

  type Digest = seq<Row> -> string

  // ---- The applied prefix ----

  predicate RowMatches(row: Row, j: Journal, i: nat)
    requires i < |j.entries|
  {
    row.when == j.entries[i].when
    && (row.hash == j.entries[i].hash || (i in j.aliases && row.hash == j.aliases[i]))
  }

  predicate Numbered(j: Journal) {
    forall i :: 0 <= i < |j.entries| ==> j.entries[i].idx == i
  }

  predicate Accepted(rows: seq<Row>, j: Journal) {
    && |rows| <= |j.entries| && Numbered(j)
    && (forall i :: 0 <= i < |rows| ==> RowMatches(rows[i], j, i))
    && (forall i, k :: 0 <= i < k < |rows| ==> rows[i] != rows[k])
  }

  /** The check itself, with its set of rows already seen. */
  method AssertAppliedPrefix(rows: seq<Row>, j: Journal) returns (ok: bool)
    ensures ok == Accepted(rows, j)
  {
    if |rows| > |j.entries| {
      return false;
    }
    for i := 0 to |j.entries|
      invariant forall k :: 0 <= k < i ==> j.entries[k].idx == k
    {
      if j.entries[i].idx != i {
        return false;
      }
    }
    var seen: set<Row> := {};
    for i := 0 to |rows|
      invariant forall k :: 0 <= k < i ==> RowMatches(rows[k], j, k)
      invariant forall r :: r in seen <==> r in rows[..i]
      invariant forall m, k :: 0 <= m < k < i ==> rows[m] != rows[k]
    {
      if !RowMatches(rows[i], j, i) || rows[i] in seen {
        return false;
      }
      seen := seen + {rows[i]};
      assert rows[..i + 1] == rows[..i] + [rows[i]];
    }
    ok := true;
  }

  /**
   A ledger is accepted exactly if the journal is numbered from zero, and the ledger repeats no row and starts the
   journal's rows, some of them perhaps under their alias.
   */
  lemma AcceptedIff(rows: seq<Row>, j: Journal)
    ensures Accepted(rows, j) <==>
            && |rows| <= |j.entries| && (forall i :: 0 <= i < |j.entries| ==> j.entries[i].idx == i)
            && (forall r :: r in rows ==> multiset(rows)[r] == 1)
            && forall i :: 0 <= i < |rows| ==>
                 rows[i] == Row(j.entries[i].when, if i in j.aliases && rows[i].hash == j.aliases[i] then j.aliases[i] else j.entries[i].hash)
  {
    OncePlaced(rows);
  }

  lemma OncePlaced(rows: seq<Row>)
    ensures (forall r :: r in rows ==> multiset(rows)[r] == 1) <==> forall i, k :: 0 <= i < k < |rows| ==> rows[i] != rows[k]
  {
    forall i, k | 0 <= i < k < |rows| && rows[i] == rows[k]
      ensures multiset(rows)[rows[i]] >= 2
    {
      assert rows == rows[..i] + [rows[i]] + rows[i + 1..k] + [rows[k]] + rows[k + 1..];
    }
    if forall i, k :: 0 <= i < k < |rows| ==> rows[i] != rows[k] {
      CountedOnce(rows);
    }
  }

  lemma {:induction false} CountedOnce(rows: seq<Row>)
    requires forall i, k :: 0 <= i < k < |rows| ==> rows[i] != rows[k]
    ensures forall r :: r in rows ==> multiset(rows)[r] == 1
  {
    if rows != [] {
      var last := |rows| - 1;
      CountedOnce(rows[..last]);
      assert rows == rows[..last] + [rows[last]];
      forall r | r in rows
        ensures multiset(rows)[r] == 1
      {
        assert rows[last] !in rows[..last];
        assert r in rows[..last] || r == rows[last];
      }
    }
  }

  /** Every prefix of an accepted ledger is accepted. */
  lemma PrefixClosed(rows: seq<Row>, j: Journal, n: nat)
    requires Accepted(rows, j) && n <= |rows|
    ensures Accepted(rows[..n], j)
  {
  }

  function RowOf(e: Entry): Row {
    Row(e.when, e.hash)
  }

  function Canonical(entries: seq<Entry>): (rows: seq<Row>)
    ensures |rows| == |entries|
    ensures forall i :: 0 <= i < |entries| ==> rows[i] == RowOf(entries[i])
  {
    seq(|entries|, i requires 0 <= i < |entries| => RowOf(entries[i]))
  }

  /** The next canonical row may be appended exactly when the ledger does not hold it already. */
  lemma AppendAccepted(rows: seq<Row>, j: Journal)
    requires Accepted(rows, j) && |rows| < |j.entries|
    ensures Accepted(rows + [RowOf(j.entries[|rows|])], j) <==> RowOf(j.entries[|rows|]) !in rows
  {
    var longer := rows + [RowOf(j.entries[|rows|])];
    if RowOf(j.entries[|rows|]) in rows {
      var k :| 0 <= k < |rows| && rows[k] == RowOf(j.entries[|rows|]);
      assert longer[k] == longer[|rows|];
    }
  }

  /** The canonical rows still to come are new to the ledger and to each other. */
  predicate PendingNew(rows: seq<Row>, j: Journal)
    requires |rows| <= |j.entries|
  {
    && (forall i :: |rows| <= i < |j.entries| ==> RowOf(j.entries[i]) !in rows)
    && (forall i, k :: |rows| <= i < k < |j.entries| ==> RowOf(j.entries[i]) != RowOf(j.entries[k]))
  }

  /** A ledger can be completed exactly when the pending rows are new. */
  lemma Completable(rows: seq<Row>, j: Journal)
    requires Accepted(rows, j)
    ensures Accepted(rows + Canonical(j.entries[|rows|..]), j) <==> PendingNew(rows, j)
  {
    var all := rows + Canonical(j.entries[|rows|..]);
    assert forall i :: |rows| <= i < |all| ==> all[i] == RowOf(j.entries[i]);
    assert forall i :: 0 <= i < |rows| ==> all[i] == rows[i];
    if PendingNew(rows, j) {
      forall i, k | 0 <= i < k < |all|
        ensures all[i] != all[k]
      {
        if i < |rows| <= k {
          assert RowOf(j.entries[k]) !in rows;
        }
      }
    }
    if Accepted(all, j) {
      forall i | |rows| <= i < |j.entries|
        ensures RowOf(j.entries[i]) !in rows
      {
        assert all[i] == RowOf(j.entries[i]);
      }
      forall i, k | |rows| <= i < k < |j.entries|
        ensures RowOf(j.entries[i]) != RowOf(j.entries[k])
      {
        assert all[i] != all[k];
      }
    }
  }

  /** With distinct (when, hash) pairs in the journal and no aliased row in the ledger, pending rows are always new. */
  lemma DistinctJournalCompletes(rows: seq<Row>, j: Journal)
    requires Accepted(rows, j)
    requires forall i, k :: 0 <= i < k < |j.entries| ==> RowOf(j.entries[i]) != RowOf(j.entries[k])
    requires forall i :: 0 <= i < |rows| ==> rows[i].hash == j.entries[i].hash
    ensures PendingNew(rows, j)
  {
    forall i | |rows| <= i < |j.entries|
      ensures RowOf(j.entries[i]) !in rows
    {
      forall k | 0 <= k < |rows|
        ensures rows[k] != RowOf(j.entries[i])
      {
        assert rows[k] == RowOf(j.entries[k]);
      }
    }
  }

  /** Journals whose times are all different can always be completed, whatever rows are aliased. */
  lemma DistinctTimesComplete(rows: seq<Row>, j: Journal)
    requires Accepted(rows, j)
    requires forall i, k :: 0 <= i < k < |j.entries| ==> j.entries[i].when != j.entries[k].when
    ensures PendingNew(rows, j)
  {
    forall i | |rows| <= i < |j.entries|
      ensures RowOf(j.entries[i]) !in rows
    {
      forall k | 0 <= k < |rows|
        ensures rows[k] != RowOf(j.entries[i])
      {
        assert rows[k].when == j.entries[k].when;
      }
    }
  }

  // ---- The one canonical journal ----

  const TAGS := [
    "0000_overconfident_onslaught", "0001_lovely_famine", "0002_futuristic_aaron_stack", "0003_worthless_scourge",
    "0004_illegal_william_stryker", "0005_sqag_app_key_migration", "0006_optimal_tomorrow_man",
    "0007_remove_legacy_kqag_tables", "0009_wonderful_star_brand", "0010_admin_operator_viewer_role_collapse"]

  const SIXTH_ALIAS := "b47e5a1575abc53c" + "523fada3266e3255" + "6f3e3b267c7d6878" + "719c5aee30876a3e"

  /** The known digests of migrations that were once applied with CRLF line endings, by position. */
  const ALIASES: map<nat, string> := map[
    0 := "a4636f7af908cae22e8b15ed59103251b2f865f65a37b496b0ac4e38bc68d09b",
    1 := "f32a717626f2ab3d009a457b81664ba2666a2318129a3383a45146b0ea6634cd",
    2 := "b8f3c2d5ac88d9cba57368695219325b025f9c953ce1e7ac59f2882ec1592321",
    3 := "41a3648d3443e63031277734e805b8826e8f6f34b6f6fdb9db8ed63f5fcdeb1f",
    4 := "5be34c50c70b76f167da4722920946f9272fd8b3aafd405718e3c76dfcea2b3d",
    5 := SIXTH_ALIAS,
    7 := "1a74bbfbe23b11693dd1d1571bf6eb6d4340832124143134afe89e2c9337d0b3",
    8 := "b1f9291edfb018633add360eb4e81520f9be9690c38bb1c2dede9de29a2fe25b"]

  predicate HexDigit(c: char) {
    '0' <= c <= '9' || 'a' <= c <= 'f'
  }

  predicate Hex64(s: string) {
    |s| == 64 && forall i :: 0 <= i < 64 ==> HexDigit(s[i])
  }

  predicate DecimalText(s: string) {
    s != "" && forall i :: 0 <= i < |s| ==> '0' <= s[i] <= '9'
  }

  type Hash = Bytes -> string

  /** The bytes of a file with a carriage return before every line feed. */
  function Crlf(b: Bytes): Bytes {
    if b == [] then [] else (if b[0] == 0x0A then [0x0D, 0x0A] else [b[0]]) + Crlf(b[1..])
  }

  /**
   What the journal loader lets through: ten entries in order with the canonical tags, each with the digest of its
   file, and for eight of them the known digest of the file's CRLF form as alias.
   */
  predicate Loadable(j: Journal, files: seq<Bytes>, hash: Hash) {
    && |j.entries| == |TAGS| == |files| && Numbered(j) && j.aliases == ALIASES
    && (forall i :: 0 <= i < |files| ==>
          && j.entries[i].tag == TAGS[i] && DecimalText(j.entries[i].when)
          && j.entries[i].hash == hash(files[i]) && Hex64(j.entries[i].hash))
    && forall i :: 0 <= i < |files| && i in ALIASES ==> hash(Crlf(files[i])) == ALIASES[i]
  }

  /** Whenever two entries share their time and the later one's digest is the earlier one's alias, the aliased row blocks. */
  lemma AliasBlocks(j: Journal, i: nat, k: nat)
    requires Numbered(j) && i < k < |j.entries| && i in j.aliases
    requires j.entries[k].when == j.entries[i].when && j.entries[k].hash == j.aliases[i]
    requires forall m, n :: 0 <= m < n < |j.entries| ==> RowOf(j.entries[m]) != RowOf(j.entries[n])
    ensures var rows := Canonical(j.entries[..k])[i := Row(j.entries[i].when, j.aliases[i])];
            Accepted(rows, j) && !PendingNew(rows, j)
  {
    var rows := Canonical(j.entries[..k])[i := Row(j.entries[i].when, j.aliases[i])];
    forall m | 0 <= m < k
      ensures RowMatches(rows[m], j, m)
    {
    }
    assert rows[i] == RowOf(j.entries[k]);
    forall m, n | 0 <= m < n < k
      ensures rows[m] != rows[n]
    {
      assert RowOf(j.entries[m]) != RowOf(j.entries[n]) && RowOf(j.entries[m]) != RowOf(j.entries[k]);
      assert RowOf(j.entries[n]) != RowOf(j.entries[k]);
    }
  }

  predicate DistinctPairs(j: Journal) {
    forall i, k :: 0 <= i < k < |j.entries| ==> RowOf(j.entries[i]) != RowOf(j.entries[k])
  }

  /** An aliased row `i` stands in the way of entry `k`: same time, and file `k` has the digest of file `i`'s CRLF form. */
  predicate Blocks(j: Journal, files: seq<Bytes>, hash: Hash, rows: seq<Row>, i: nat, k: nat)
  {
    && i < |rows| <= k < |j.entries| == |files| && i in ALIASES && rows[i].hash == ALIASES[i]
    && j.entries[i].when == j.entries[k].when && hash(Crlf(files[i])) == hash(files[k])
  }

  /** With distinct pairs, a ledger that the loaded journal accepts cannot be completed exactly if an aliased row blocks. */
  lemma BlockedIff(j: Journal, files: seq<Bytes>, hash: Hash, rows: seq<Row>)
    requires Loadable(j, files, hash) && DistinctPairs(j) && Accepted(rows, j)
    ensures !Accepted(rows + Canonical(j.entries[|rows|..]), j) <==> exists i: nat, k: nat :: Blocks(j, files, hash, rows, i, k)
  {
    hide Loadable, DistinctPairs, Blocks, PendingNew;
    Completable(rows, j);
    if i: nat, k: nat :| Blocks(j, files, hash, rows, i, k) {
      BlockedIsOld(j, files, hash, rows, i, k);
    }
    if !PendingNew(rows, j) {
      var i, k := OldIsBlocked(j, files, hash, rows);
    }
  }

  lemma BlockedIsOld(j: Journal, files: seq<Bytes>, hash: Hash, rows: seq<Row>, i: nat, k: nat)
    requires Loadable(j, files, hash) && Accepted(rows, j) && Blocks(j, files, hash, rows, i, k)
    ensures !PendingNew(rows, j)
  {
    hide Hex64, DecimalText;
    assert RowMatches(rows[i], j, i);
    assert rows[i] == RowOf(j.entries[k]);
  }

  lemma OldIsBlocked(j: Journal, files: seq<Bytes>, hash: Hash, rows: seq<Row>) returns (i: nat, k: nat)
    requires Loadable(j, files, hash) && DistinctPairs(j) && Accepted(rows, j) && !PendingNew(rows, j)
    ensures Blocks(j, files, hash, rows, i, k)
  {
    hide Hex64, DecimalText;
    k :| |rows| <= k < |j.entries| && RowOf(j.entries[k]) in rows;
    i :| 0 <= i < |rows| && rows[i] == RowOf(j.entries[k]);
    assert RowMatches(rows[i], j, i);
    assert RowOf(j.entries[i]) != RowOf(j.entries[k]);
  }

  /**
   With an aliased row, distinct pairs in the journal are not enough: in every loaded journal whose seventh file is
   the CRLF form of its sixth, at the same time, a ledger with the sixth migration under its alias never gets the seventh.
   */
  lemma AliasCanBlock(j: Journal, files: seq<Bytes>, hash: Hash)
    requires Loadable(j, files, hash) && DistinctPairs(j)
    requires files[6] == Crlf(files[5]) && j.entries[6].when == j.entries[5].when
    ensures var rows := Canonical(j.entries[..6])[5 := Row(j.entries[5].when, SIXTH_ALIAS)];
            Accepted(rows, j) && !Accepted(rows + [RowOf(j.entries[6])], j)
  {
    hide Hex64, DecimalText;
    AliasBlocks(j, 5, 6);
    var rows := Canonical(j.entries[..6])[5 := Row(j.entries[5].when, SIXTH_ALIAS)];
    AppendAccepted(rows, j);
    assert rows[5] == RowOf(j.entries[6]);
  }

  lemma SixthAlias()
    ensures Hex64(SIXTH_ALIAS) && SIXTH_ALIAS[0] == 'b'
  {
    Hex16("b47e5a1575abc53c");
    Hex16("523fada3266e3255");
    Hex16("6f3e3b267c7d6878");
    Hex16("719c5aee30876a3e");
  }

  lemma Hex16(s: string)
    requires |s| == 16
    requires HexDigit(s[0]) && HexDigit(s[1]) && HexDigit(s[2]) && HexDigit(s[3])
    requires HexDigit(s[4]) && HexDigit(s[5]) && HexDigit(s[6]) && HexDigit(s[7])
    requires HexDigit(s[8]) && HexDigit(s[9]) && HexDigit(s[10]) && HexDigit(s[11])
    requires HexDigit(s[12]) && HexDigit(s[13]) && HexDigit(s[14]) && HexDigit(s[15])
    ensures forall i :: 0 <= i < 16 ==> HexDigit(s[i])
  {
  }

  // ---- Such a journal and such files exist, for some digest ----

  function Letter(i: nat): Byte
    requires i < 10
  {
    0x61 + i
  }

  /** Ten one-line files; the seventh is the CRLF form of the sixth. */
  function SampleFile(i: nat): Bytes
    requires i < 10
  {
    if i == 6 then [Letter(5), 0x0D, 0x0A] else [Letter(i), 0x0A]
  }

  /** A digest that gives each file's CRLF form its alias, and otherwise counts. */
  function SampleHash(b: Bytes): string {
    if |b| == 3 && 0x61 <= b[0] <= 0x6A && (b[0] - 0x61) in ALIASES then ALIASES[b[0] - 0x61]
    else seq(63, _ => '0') + [if |b| > 0 && 0x61 <= b[0] <= 0x6A then ('0' as int + b[0] - 0x61) as char else '0']
  }

  function SampleTime(i: nat): string
    requires i < 10
  {
    [('0' as int + if i == 6 then 5 else i) as char]
  }

  function SampleFiles(): seq<Bytes> {
    seq(10, i requires 0 <= i < 10 => SampleFile(i))
  }

  function SampleJournal(): Journal {
    Journal(seq(10, i requires 0 <= i < 10 => Entry(i, TAGS[i], SampleTime(i), SampleHash(SampleFile(i)))), ALIASES)
  }

  lemma SampleCrlf(i: nat)
    requires i < 10 && i != 6
    ensures Crlf(SampleFile(i)) == [Letter(i), 0x0D, 0x0A]
  {
    var b := SampleFile(i);
    assert b[1..] == [0x0A] && b[1..][1..] == [];
    assert Crlf(b[1..]) == [0x0D, 0x0A] + [];
  }

  lemma SampleHex(i: nat)
    requires i < 10
    ensures Hex64(SampleHash(SampleFile(i)))
  {
    SixthAlias();
  }

  lemma SampleLoads()
    ensures Loadable(SampleJournal(), SampleFiles(), SampleHash)
  {
    hide Hex64, SampleHash, Crlf;
    forall i | 0 <= i < 10
      ensures Hex64(SampleHash(SampleFile(i))) && DecimalText(SampleTime(i))
      ensures i in ALIASES ==> SampleHash(Crlf(SampleFile(i))) == ALIASES[i]
    {
      SampleHex(i);
      if i in ALIASES {
        SampleCrlf(i);
        SampleAlias(i);
      }
    }
  }

  lemma SampleAlias(i: nat)
    requires i < 10 && i in ALIASES
    ensures SampleHash([Letter(i), 0x0D, 0x0A]) == ALIASES[i]
  {
  }

  lemma SampleDistinct()
    ensures DistinctPairs(SampleJournal())
  {
    SixthAlias();
    forall i, k | 0 <= i < k < 10
      ensures RowOf(SampleJournal().entries[i]) != RowOf(SampleJournal().entries[k])
    {
      assert (i == 5 && k == 6) || SampleTime(i)[0] != SampleTime(k)[0];
      assert SampleHash(SampleFile(5))[0] == '0' && SampleHash(SampleFile(6)) == SIXTH_ALIAS;
    }
  }

  /** The conditions of AliasCanBlock can be met. */
  lemma SampleBlocks()
    ensures var j, files := SampleJournal(), SampleFiles();
            && Loadable(j, files, SampleHash) && DistinctPairs(j)
            && files[6] == Crlf(files[5]) && j.entries[6].when == j.entries[5].when
  {
    hide Loadable, DistinctPairs, Crlf;
    SampleLoads();
    SampleDistinct();
    SampleCrlf(5);
  }

  // ---- The primitive ----

  predicate SameEntry(op: Operation, e: Entry) {
    op.tag == e.tag && op.idx == e.idx && op.when == e.when && op.hash == e.hash
  }

  /** The digests an operation must carry: of the ledger before it and of the ledger after it. */
  predicate Chained(ops: seq<Operation>, before: seq<Row>, pending: seq<Entry>, digest: Digest, i: nat)
    requires i < |ops| && i < |pending|
  {
    && ops[i].prefixDigest == digest(before + Canonical(pending[..i]))
    && ops[i].postDigest == digest(before + Canonical(pending[..i + 1]))
  }

  /** The operations the primitive derives for itself. */
  function Derived(before: seq<Row>, pending: seq<Entry>, digest: Digest): (ops: seq<Operation>)
    ensures |ops| == |pending|
    ensures forall i :: 0 <= i < |ops| ==> SameEntry(ops[i], pending[i]) && Chained(ops, before, pending, digest, i)
  {
    seq(|pending|, i requires 0 <= i < |pending| =>
      Operation(pending[i].tag, pending[i].idx, pending[i].when, pending[i].hash,
                digest(before + Canonical(pending[..i])), digest(before + Canonical(pending[..i + 1]))))
  }

  /** How the environment behaves: the ledger it shows before and after, and whether the migrator returns. */
  datatype Environment = Environment(files: nat, before: Option<seq<Row>>, migrated: bool, started: bool, after: Option<seq<Row>>)

  datatype Returned = Returned(started: bool, before: seq<Row>, after: seq<Row>, applied: seq<Entry>)

  predicate Expected(ops: seq<Operation>, before: seq<Row>, pending: seq<Entry>, digest: Digest) {
    && |ops| == |pending|
    && (forall i :: 0 <= i < |ops| ==> SameEntry(ops[i], pending[i]) && Chained(ops, before, pending, digest, i))
  }

  /** The operations a caller may name are exactly those the primitive would derive itself. */
  lemma ExpectedAreDerived(ops: seq<Operation>, before: seq<Row>, pending: seq<Entry>, digest: Digest)
    ensures Expected(ops, before, pending, digest) <==> ops == Derived(before, pending, digest)
  {
    var derived := Derived(before, pending, digest);
    if Expected(ops, before, pending, digest) {
      forall i | 0 <= i < |ops|
        ensures ops[i] == derived[i]
      {
        assert SameEntry(ops[i], pending[i]) && Chained(ops, before, pending, digest, i);
      }
    }
  }

  /** Two different ledgers with the same digest. */
  predicate Collide(digest: Digest, a: seq<Row>, b: seq<Row>) {
    a != b && digest(a) == digest(b)
  }

  method CheckExpected(ops: seq<Operation>, before: seq<Row>, pending: seq<Entry>, digest: Digest) returns (ok: bool)
    ensures ok == Expected(ops, before, pending, digest)
  {
    if |ops| != |pending| {
      return false;
    }
    for i := 0 to |ops|
      invariant forall k :: 0 <= k < i ==> SameEntry(ops[k], pending[k])
    {
      if !SameEntry(ops[i], pending[i]) {
        return false;
      }
    }
    var expectedRows := before;
    for i := 0 to |ops|
      invariant expectedRows == before + Canonical(pending[..i])
      invariant forall k :: 0 <= k < i ==> Chained(ops, before, pending, digest, k)
    {
      var nextRows := expectedRows + [RowOf(pending[i])];
      assert nextRows == before + Canonical(pending[..i + 1]);
      if ops[i].prefixDigest != digest(expectedRows) || ops[i].postDigest != digest(nextRows) {
        return false;
      }
      expectedRows := nextRows;
    }
    ok := true;
  }

  /** The migrator is started: everything before it is in order and something is pending. */
  predicate Migrates(j: Journal, expected: Option<seq<Operation>>, digest: Digest, env: Environment) {
    && env.files == |j.entries| && env.before.Some? && Accepted(env.before.value, j) && |env.before.value| < |j.entries|
    && (expected.Some? ==> Expected(expected.value, env.before.value, j.entries[|env.before.value|..], digest))
  }

  /** What a whole run of the primitive needs in order to return. */
  predicate Succeeds(j: Journal, expected: Option<seq<Operation>>, digest: Digest, env: Environment) {
    && env.files == |j.entries| && env.before.Some? && Accepted(env.before.value, j)
    && var pending := j.entries[|env.before.value|..];
       && (expected.Some? ==> Expected(expected.value, env.before.value, pending, digest))
       && (pending != [] ==>
             && env.migrated && env.after.Some? && Accepted(env.after.value, j) && |env.after.value| == |j.entries|
             && digest(env.after.value) == digest(env.before.value + Canonical(pending)))
  }

  /**
   If the primitive returns, the ledger after it is exactly the rows before, untouched, followed by the
   pending canonical rows; or the two lists are a digest collision.  It returns exactly when the
   environment and the expected operations meet the checks.  If it fails, `mutated` marks the error:
   the migrator was started and had reached the database.
   */
  method RunCanonicalMigrationPrimitive(j: Journal, expected: Option<seq<Operation>>, digest: Digest, env: Environment)
    returns (r: Option<Returned>, mutated: bool)
    ensures r.Some? <==> Succeeds(j, expected, digest, env)
    ensures r.Some? ==>
              && r.value.before == env.before.value && Accepted(r.value.before, j) && Accepted(r.value.after, j)
              && r.value.applied == j.entries[|r.value.before|..]
              && |r.value.after| == |j.entries|
              && var whole := r.value.before + Canonical(r.value.applied);
                 r.value.after == whole || Collide(digest, r.value.after, whole)
    ensures r.Some? && r.value.applied == [] ==> !r.value.started && r.value.after == r.value.before
    ensures r.Some? && r.value.applied != [] ==> r.value.started == env.started && Some(r.value.after) == env.after
    ensures r.None? ==> (mutated <==> env.started && Migrates(j, expected, digest, env))
  {
    mutated := false;
    if env.files != |j.entries| || env.before.None? {
      return None, false;
    }
    var before := env.before.value;
    var ok := AssertAppliedPrefix(before, j);
    if !ok {
      return None, false;
    }
    var pending := j.entries[|before|..];
    var ops := if expected.Some? then expected.value else Derived(before, pending, digest);
    ok := CheckExpected(ops, before, pending, digest);
    if !ok {
      return None, false;
    }
    if pending == [] {
      assert before + Canonical(pending) == before;
      return Some(Returned(false, before, before, [])), false;
    }
    mutated := env.started;
    if !env.migrated || env.after.None? {
      return None, mutated;
    }
    var after := env.after.value;
    ok := AssertAppliedPrefix(after, j);
    var last := |ops| - 1;
    assert pending[..last + 1] == pending;
    assert Chained(ops, before, pending, digest, last);
    if !ok || |after| != |j.entries| || digest(after) != ops[last].postDigest {
      return None, mutated;
    }
    r := Some(Returned(env.started, before, after, pending));
  }
}
