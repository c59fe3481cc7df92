/**
 The byte framing behind every commitment.  Fields are encoded as UTF-8 and written one after the
 other, each behind its length as four big-endian bytes.  Text is a list of Python code points, so it
 may hold lone surrogates, which strict UTF-8 refuses.
 SHA-256 is any function on bytes: the results say that equal commitments mean equal fields, or else
 name two different messages that were actually hashed to the same digest.
 */
module Commitments {
  import opened Wrappers
  import opened Octets

  type CodePoint = x: int | 0 <= x < 0x110000
  type Text = seq<CodePoint>

  const MAX_FIELD_BYTES := 0xFFFFFFFF

  // ---- UTF-8 ----

  predicate Surrogate(c: CodePoint) {
    0xD800 <= c < 0xE000
  }

  function EncodeChar(c: CodePoint): Bytes {
    if c < 0x80 then [c]
    else if c < 0x800 then [0xC0 + c / 0x40, 0x80 + c % 0x40]
    else if c < 0x10000 then [0xE0 + c / 0x40 / 0x40, 0x80 + c / 0x40 % 0x40, 0x80 + c % 0x40]
    else [0xF0 + c / 0x40 / 0x40 / 0x40, 0x80 + c / 0x40 / 0x40 % 0x40, 0x80 + c / 0x40 % 0x40, 0x80 + c % 0x40]
  }

  function Utf8(t: Text): Option<Bytes> {
    if t == [] then Some([])
    else if Surrogate(t[0]) then None
    else
      match Utf8(t[1..])
      case None => None
      case Some(rest) => Some(EncodeChar(t[0]) + rest)
  }

  lemma {:induction false} Utf8Fails(t: Text)
    ensures Utf8(t).None? <==> exists i :: 0 <= i < |t| && Surrogate(t[i])
  {
    if t != [] && !Surrogate(t[0]) {
      Utf8Fails(t[1..]);
      if i :| 0 <= i < |t| && Surrogate(t[i]) {
        assert t[1..][i - 1] == t[i];
      }
      if i :| 0 <= i < |t[1..]| && Surrogate(t[1..][i]) {
        assert t[i + 1] == t[1..][i];
      }
    }
  }

  function CharValue(c: seq<int>): int
    requires 1 <= |c| <= 4
  {
    if |c| == 1 then c[0]
    else if |c| == 2 then (c[0] - 0xC0) * 0x40 + (c[1] - 0x80)
    else if |c| == 3 then (c[0] - 0xE0) * 0x1000 + (c[1] - 0x80) * 0x40 + (c[2] - 0x80)
    else (c[0] - 0xF0) * 0x40000 + (c[1] - 0x80) * 0x1000 + (c[2] - 0x80) * 0x40 + (c[3] - 0x80)
  }

  lemma EncodedValue(c: CodePoint)
    ensures CharValue(EncodeChar(c)) == c
  {
  }

  /** No character's encoding is a proper prefix of another's, and each encodes one character. */
  lemma CharPrefixFree(a: CodePoint, b: CodePoint, s: Bytes, t: Bytes)
    requires EncodeChar(a) + s == EncodeChar(b) + t
    ensures a == b && s == t
  {
    var x, y := EncodeChar(a), EncodeChar(b);
    assert (x + s)[0] == x[0] && (y + t)[0] == y[0];
    assert |x| == |y|;
    assert x == (x + s)[..|x|] == (y + t)[..|y|] == y;
    EncodedValue(a);
    EncodedValue(b);
    assert s == (x + s)[|x|..] == (y + t)[|y|..] == t;
  }

  lemma {:induction false} Utf8Injective(a: Text, b: Text)
    requires Utf8(a).Some? && Utf8(a) == Utf8(b)
    ensures a == b
  {
    if a != [] && b != [] {
      CharPrefixFree(a[0], b[0], Utf8(a[1..]).value, Utf8(b[1..]).value);
      Utf8Injective(a[1..], b[1..]);
      assert a == [a[0]] + a[1..] && b == [b[0]] + b[1..];
    }
  }

  // ---- Length-prefixed framing ----

  function Length4(n: nat): (b: Bytes)
    ensures |b| == 4
  {
    Pack(n, 4)
  }

  lemma Length4Injective(m: nat, n: nat)
    requires m <= MAX_FIELD_BYTES && n <= MAX_FIELD_BYTES && Length4(m) == Length4(n)
    ensures m == n
  {
    assert Fits(m / 0x100 / 0x100, 2) && Fits(n / 0x100 / 0x100, 2);
    PackRoundTrip(m, 4);
    PackRoundTrip(n, 4);
  }

  function Chunk(b: Bytes): Option<Bytes> {
    if |b| > MAX_FIELD_BYTES then None else Some(Length4(|b|) + b)
  }

  function Field(t: Text): Option<Bytes> {
    match Utf8(t)
    case None => None
    case Some(b) => Chunk(b)
  }

  function LengthPrefixed(parts: seq<Text>): Option<Bytes> {
    if parts == [] then Some([])
    else
      var last := |parts| - 1;
      match (LengthPrefixed(parts[..last]), Field(parts[last]))
      case (Some(before), Some(field)) => Some(before + field)
      case _ => None
  }

  /** The loop that frames the fields one by one. */
  method Frame(parts: seq<Text>) returns (r: Option<Bytes>)
    ensures r == LengthPrefixed(parts)
  {
    var framed: Bytes := [];
    var i := 0;
    while i < |parts|
      invariant 0 <= i <= |parts|
      invariant LengthPrefixed(parts[..i]) == Some(framed)
    {
      assert parts[..i + 1][..i] == parts[..i];
      var field := Field(parts[i]);
      if field.None? {
        FailsFrom(parts, i + 1);
        return None;
      }
      framed := framed + field.value;
      i := i + 1;
    }
    assert parts[..i] == parts;
    r := Some(framed);
  }

  lemma {:induction false} FailsFrom(parts: seq<Text>, i: nat)
    requires i <= |parts| && LengthPrefixed(parts[..i]).None?
    ensures LengthPrefixed(parts).None?
  {
    if i < |parts| {
      var last := |parts| - 1;
      assert parts[..last][..i] == parts[..i];
      FailsFrom(parts[..last], i);
    } else {
      assert parts[..i] == parts;
    }
  }

  /** Framing fails exactly on a field that has no strict UTF-8 form or is too long to count in four bytes. */
  lemma {:induction false} FramingFails(parts: seq<Text>)
    ensures LengthPrefixed(parts).None? <==>
            exists i :: 0 <= i < |parts| && (Utf8(parts[i]).None? || |Utf8(parts[i]).value| > MAX_FIELD_BYTES)
  {
    if parts != [] {
      var last := |parts| - 1;
      FramingFails(parts[..last]);
      assert forall i :: 0 <= i < last ==> parts[..last][i] == parts[i];
    }
  }

  /** The same bytes, read from the front. */
  lemma {:induction false} FromFront(parts: seq<Text>)
    requires parts != []
    ensures LengthPrefixed(parts) ==
            match (Field(parts[0]), LengthPrefixed(parts[1..]))
            case (Some(field), Some(rest)) => Some(field + rest)
            case _ => None
  {
    var last := |parts| - 1;
    if last > 0 {
      FromFront(parts[..last]);
      var rest := parts[1..];
      assert parts[..last][1..] == rest[..last - 1] && rest[last - 1] == parts[last] && |rest| - 1 == last - 1;
      if Field(parts[0]).Some? && LengthPrefixed(rest[..last - 1]).Some? && Field(parts[last]).Some? {
        var a, b, c := Field(parts[0]).value, LengthPrefixed(rest[..last - 1]).value, Field(parts[last]).value;
        assert (a + b) + c == a + (b + c);
      }
    } else {
      assert parts[1..] == [] && parts[..last] == [];
      assert LengthPrefixed(parts[..last]) == Some([]) && LengthPrefixed(parts[1..]) == Some([]);
      if Field(parts[0]).Some? {
        assert [] + Field(parts[0]).value == Field(parts[0]).value + [];
      }
    }
  }

  lemma ChunkPrefixFree(a: Bytes, b: Bytes, s: Bytes, t: Bytes)
    requires Chunk(a).Some? && Chunk(b).Some? && Chunk(a).value + s == Chunk(b).value + t
    ensures a == b && s == t
  {
    var x, y := Chunk(a).value + s, Chunk(b).value + t;
    assert x[..4] == Length4(|a|) && y[..4] == Length4(|b|);
    Length4Injective(|a|, |b|);
    assert a == x[4..4 + |a|] == y[4..4 + |b|] == b;
    assert s == x[4 + |a|..] == y[4 + |b|..] == t;
  }

  /** Different field lists, of any lengths, never frame to the same bytes. */
  lemma {:induction false} FramingInjective(a: seq<Text>, b: seq<Text>)
    requires LengthPrefixed(a).Some? && LengthPrefixed(a) == LengthPrefixed(b)
    ensures a == b
  {
    if a == [] {
      if b != [] {
        FromFront(b);
      }
    } else if b == [] {
      FromFront(a);
    } else {
      FromFront(a);
      FromFront(b);
      ChunkPrefixFree(Utf8(a[0]).value, Utf8(b[0]).value, LengthPrefixed(a[1..]).value, LengthPrefixed(b[1..]).value);
      Utf8Injective(a[0], b[0]);
      FramingInjective(a[1..], b[1..]);
      assert a == [a[0]] + a[1..] && b == [b[0]] + b[1..];
    }
  }

  /** UTF-8 as section 3 of RFC 3629 has it: the length by the range, the lead byte by the length, six bits in each further byte. */
  lemma Utf8Bytes(c: CodePoint)
    ensures var b := EncodeChar(c);
            && |b| == (if c <= 0x7F then 1 else if c <= 0x7FF then 2 else if c <= 0xFFFF then 3 else 4)
            && CharValue(b) == c
            && (|b| == 2 ==> 0xC0 <= b[0] <= 0xDF) && (|b| == 3 ==> 0xE0 <= b[0] <= 0xEF) && (|b| == 4 ==> 0xF0 <= b[0] <= 0xF4)
            && forall i :: 1 <= i < |b| ==> 0x80 <= b[i] <= 0xBF
  {
  }

  /** A framed list starts with its first field: four bytes of length, the most significant first, then its UTF-8 form. */
  lemma FramedBytes(t: Text, rest: seq<Text>, b: Bytes, tail: Bytes)
    requires Utf8(t) == Some(b) && LengthPrefixed(rest) == Some(tail) && |b| <= MAX_FIELD_BYTES
    ensures LengthPrefixed([t] + rest) ==
            Some([|b| / 0x100 / 0x100 / 0x100, |b| / 0x100 / 0x100 % 0x100, |b| / 0x100 % 0x100, |b| % 0x100] + b + tail)
  {
    hide Utf8;
    FromFront([t] + rest);
    assert ([t] + rest)[1..] == rest;
    FitsFour(|b|);
    BigEndian(|b|);
  }

  // ---- Commitments ----

  type Hash = Bytes -> Text

  function Ascii(s: string): Text {
    seq(|s|, i requires 0 <= i < |s| => if s[i] < '\U{80}' then s[i] as int else 0)
  }

  const VERSION_TAG := "recovery-commitment.v1"
  const PREFIX := "sha256:v1:"

  predicate DomainOk(domain: Text) {
    domain != [] && forall i :: 0 <= i < |domain| ==> domain[i] <= 0x7F
  }

  function RecoveryMessage(domain: Text, fields: seq<Text>): Option<Bytes> {
    if !DomainOk(domain) then None else LengthPrefixed([Ascii(VERSION_TAG), domain] + fields)
  }

  function BytesMessage(domain: Text, payload: Bytes): Option<Bytes> {
    if !DomainOk(domain) then None
    else
      match (LengthPrefixed([Ascii(VERSION_TAG), domain]), Chunk(payload))
      case (Some(head), Some(tail)) => Some(head + tail)
      case _ => None
  }

  function Digest(sha: Hash, message: Option<Bytes>): Option<Text> {
    match message
    case None => None
    case Some(m) => Some(Ascii(PREFIX) + sha(m))
  }

  predicate Collide(sha: Hash, x: Option<Bytes>, y: Option<Bytes>) {
    x.Some? && y.Some? && x != y && sha(x.value) == sha(y.value)
  }

  lemma DigestBinds(sha: Hash, x: Option<Bytes>, y: Option<Bytes>)
    requires Digest(sha, x).Some? && Digest(sha, x) == Digest(sha, y)
    ensures x == y || Collide(sha, x, y)
  {
    assert (Ascii(PREFIX) + sha(x.value))[|PREFIX|..] == sha(x.value);
    assert (Ascii(PREFIX) + sha(y.value))[|PREFIX|..] == sha(y.value);
  }

  /** Two recovery commitments agree only for the same domain and fields, or on a hash collision between their messages. */
  lemma RecoveryCommitmentBinds(sha: Hash, d1: Text, f1: seq<Text>, d2: Text, f2: seq<Text>)
    requires Digest(sha, RecoveryMessage(d1, f1)).Some?
    requires Digest(sha, RecoveryMessage(d1, f1)) == Digest(sha, RecoveryMessage(d2, f2))
    ensures (d1 == d2 && f1 == f2) || Collide(sha, RecoveryMessage(d1, f1), RecoveryMessage(d2, f2))
  {
    DigestBinds(sha, RecoveryMessage(d1, f1), RecoveryMessage(d2, f2));
    if RecoveryMessage(d1, f1) == RecoveryMessage(d2, f2) {
      var p1, p2 := [Ascii(VERSION_TAG), d1] + f1, [Ascii(VERSION_TAG), d2] + f2;
      FramingInjective(p1, p2);
      assert d1 == p1[1] == p2[1] == d2;
      assert f1 == p1[2..] == p2[2..] == f2;
    }
  }

  lemma {:induction false} AsciiBytes(t: Text)
    requires forall i :: 0 <= i < |t| ==> t[i] <= 0x7F
    ensures Utf8(t).Some? && |Utf8(t).value| == |t|
  {
    if t != [] {
      AsciiBytes(t[1..]);
    }
  }

  /** A field that cannot be framed: it has no strict UTF-8 form, or more bytes than four can count. */
  predicate Unframed(t: Text) {
    Utf8(t).None? || |Utf8(t).value| > MAX_FIELD_BYTES
  }

  /** A recovery commitment is refused exactly for an empty, overlong or non-ASCII domain, or a field that cannot be framed. */
  lemma MessageFails(domain: Text, fields: seq<Text>)
    ensures RecoveryMessage(domain, fields).None? <==>
            || domain == [] || |domain| > MAX_FIELD_BYTES || (exists i :: 0 <= i < |domain| && domain[i] > 0x7F)
            || exists i :: 0 <= i < |fields| && Unframed(fields[i])
  {
    hide LengthPrefixed, Utf8;
    var tag := Ascii(VERSION_TAG);
    var parts := [tag, domain] + fields;
    if DomainOk(domain) {
      FramingFails(parts);
      AsciiBytes(tag);
      AsciiBytes(domain);
      assert parts[0] == tag && parts[1] == domain && forall i :: 2 <= i < |parts| ==> parts[i] == fields[i - 2];
      if i :| 0 <= i < |fields| && Unframed(fields[i]) {
        assert parts[i + 2] == fields[i];
      }
    }
  }

  lemma BytesMessageInjective(d1: Text, b1: Bytes, d2: Text, b2: Bytes)
    requires BytesMessage(d1, b1).Some? && BytesMessage(d1, b1) == BytesMessage(d2, b2)
    ensures d1 == d2 && b1 == b2
  {
    hide Utf8, LengthPrefixed, Ascii, Length4;
    var tag := Ascii(VERSION_TAG);
    Pair(tag, d1);
    Pair(tag, d2);
    var t, c1, c2 := Field(tag).value, Field(d1).value, Field(d2).value;
    assert BytesMessage(d1, b1).value == t + (c1 + Chunk(b1).value);
    assert BytesMessage(d2, b2).value == t + (c2 + Chunk(b2).value);
    assert (t + (c1 + Chunk(b1).value))[|t|..] == c1 + Chunk(b1).value;
    assert (t + (c2 + Chunk(b2).value))[|t|..] == c2 + Chunk(b2).value;
    ChunkPrefixFree(Utf8(d1).value, Utf8(d2).value, Chunk(b1).value, Chunk(b2).value);
    Utf8Injective(d1, d2);
    ChunkPrefixFree(b1, b2, [], []);
  }

  lemma Pair(a: Text, b: Text)
    ensures LengthPrefixed([a, b]) ==
            match (Field(a), Field(b))
            case (Some(x), Some(y)) => Some(x + y)
            case _ => None
  {
    FromFront([a, b]);
    FromFront([b]);
    assert [a, b][1..] == [b] && [b][1..] == [];
    assert LengthPrefixed([]) == Some([]);
    if Field(b).Some? {
      assert Field(b).value + [] == Field(b).value;
    }
  }

  /** The same for commitments to raw bytes. */
  lemma BytesCommitmentBinds(sha: Hash, d1: Text, b1: Bytes, d2: Text, b2: Bytes)
    requires Digest(sha, BytesMessage(d1, b1)).Some?
    requires Digest(sha, BytesMessage(d1, b1)) == Digest(sha, BytesMessage(d2, b2))
    ensures (d1 == d2 && b1 == b2) || Collide(sha, BytesMessage(d1, b1), BytesMessage(d2, b2))
  {
    DigestBinds(sha, BytesMessage(d1, b1), BytesMessage(d2, b2));
    if BytesMessage(d1, b1) == BytesMessage(d2, b2) {
      BytesMessageInjective(d1, b1, d2, b2);
    }
  }

  lemma SomeBytes(parts: seq<Text>)
    requires LengthPrefixed(parts).Some?
    ensures |LengthPrefixed(parts).value| >= 4 * |parts|
  {
    if parts != [] {
      SomeBytes(parts[..|parts| - 1]);
    }
  }

  /** The bytes behind the version tag of a recovery commitment. */
  lemma RecoveryFront(domain: Text, fields: seq<Text>)
    requires RecoveryMessage(domain, fields).Some?
    ensures Field(Ascii(VERSION_TAG)).Some? && Field(domain).Some? && LengthPrefixed(fields).Some?
    ensures RecoveryMessage(domain, fields).value ==
            Field(Ascii(VERSION_TAG)).value + (Field(domain).value + LengthPrefixed(fields).value)
  {
    var tag := Ascii(VERSION_TAG);
    var parts := [tag, domain] + fields;
    FromFront(parts);
    FromFront(parts[1..]);
    assert parts[1..][1..] == fields;
  }

  lemma BytesFront(domain: Text, payload: Bytes)
    requires BytesMessage(domain, payload).Some?
    ensures Field(Ascii(VERSION_TAG)).Some? && Field(domain).Some? && Chunk(payload).Some?
    ensures BytesMessage(domain, payload).value ==
            Field(Ascii(VERSION_TAG)).value + (Field(domain).value + Chunk(payload).value)
  {
    Pair(Ascii(VERSION_TAG), domain);
    var x, y, z := Field(Ascii(VERSION_TAG)).value, Field(domain).value, Chunk(payload).value;
    assert (x + y) + z == x + (y + z);
  }

  /** One framed field is exactly a framed payload. */
  lemma FieldsArePayload(fields: seq<Text>, payload: Bytes)
    requires LengthPrefixed(fields).Some? && Chunk(payload).Some?
    ensures LengthPrefixed(fields) == Chunk(payload) <==> |fields| == 1 && Utf8(fields[0]) == Some(payload)
  {
    if fields != [] {
      FromFront(fields);
      SomeBytes(fields[1..]);
      if LengthPrefixed(fields) == Chunk(payload) {
        assert Chunk(payload).value + [] == Chunk(payload).value;
        ChunkPrefixFree(Utf8(fields[0]).value, payload, LengthPrefixed(fields[1..]).value, []);
      }
      if |fields| == 1 {
        assert fields[1..] == [] && Field(fields[0]).value + [] == Field(fields[0]).value;
      }
    }
  }

  /**
   The two kinds of commitment share their framing: they hash the same message exactly for the same domain,
   one text field, and that field's own bytes as the payload.  Only the choice of domains keeps them apart.
   */
  lemma KindsCoincide(d1: Text, fields: seq<Text>, d2: Text, payload: Bytes)
    requires RecoveryMessage(d1, fields).Some? && BytesMessage(d2, payload).Some?
    ensures RecoveryMessage(d1, fields) == BytesMessage(d2, payload) <==>
            d1 == d2 && |fields| == 1 && Utf8(fields[0]) == Some(payload)
  {
    hide RecoveryMessage, BytesMessage, Utf8;
    RecoveryFront(d1, fields);
    BytesFront(d2, payload);
    FieldsArePayload(fields, payload);
    var t, c1, c2 := Field(Ascii(VERSION_TAG)).value, Field(d1).value, Field(d2).value;
    var x, y := LengthPrefixed(fields).value, Chunk(payload).value;
    if RecoveryMessage(d1, fields) == BytesMessage(d2, payload) {
      assert c1 + x == (t + (c1 + x))[|t|..] == (t + (c2 + y))[|t|..] == c2 + y;
      ChunkPrefixFree(Utf8(d1).value, Utf8(d2).value, x, y);
      Utf8Injective(d1, d2);
    }
  }

  /** A recovery commitment and a commitment to bytes agree only in that case, or on a hash collision. */
  lemma KindsBind(sha: Hash, d1: Text, fields: seq<Text>, d2: Text, payload: Bytes)
    requires Digest(sha, RecoveryMessage(d1, fields)).Some?
    requires Digest(sha, RecoveryMessage(d1, fields)) == Digest(sha, BytesMessage(d2, payload))
    ensures || (d1 == d2 && |fields| == 1 && Utf8(fields[0]) == Some(payload))
            || Collide(sha, RecoveryMessage(d1, fields), BytesMessage(d2, payload))
  {
    hide RecoveryMessage, BytesMessage, Utf8;
    DigestBinds(sha, RecoveryMessage(d1, fields), BytesMessage(d2, payload));
    KindsCoincide(d1, fields, d2, payload);
  }

  // ---- The frame hash chain ----

  datatype Link = Link(sequence: nat, stage: Text, payload: Bytes, previous: Text, auth: Text, hash: Text)

  function Decimal(n: nat): Text {
    if n < 10 then [48 + n] else Decimal(n / 10) + [48 + n % 10]
  }

  function ZeroHash(): Text {
    Ascii(PREFIX + "0000000000000000000000000000000000000000000000000000000000000000")
  }

  const PAYLOAD_DOMAIN := "runner-frame-payload"

  function PayloadDigest(sha: Hash, payload: Bytes): Option<Text> {
    Digest(sha, BytesMessage(Ascii(PAYLOAD_DOMAIN), payload))
  }

  function LinkMessage(sha: Hash, epoch: Text, f: Link): Option<Bytes> {
    match PayloadDigest(sha, f.payload)
    case None => None
    case Some(p) =>
      LengthPrefixed([Ascii("runner-frame-hash.v1"), epoch, Decimal(f.sequence), f.stage, p, f.previous, f.auth])
  }

  predicate LinkValid(sha: Hash, epoch: Text, links: seq<Link>, i: nat)
    requires i < |links|
  {
    && links[i].sequence == i + 1
    && links[i].previous == (if i == 0 then ZeroHash() else links[i - 1].hash)
    && Digest(sha, LinkMessage(sha, epoch, links[i])) == Some(links[i].hash)
  }

  predicate ChainValid(sha: Hash, epoch: Text, links: seq<Link>) {
    forall i :: 0 <= i < |links| ==> LinkValid(sha, epoch, links, i)
  }

  /** Two links show a collision: of the payload digests, or of the link hashes. */
  predicate LinksCollide(sha: Hash, e: Text, x: Link, f: Text, y: Link) {
    var domain := Ascii(PAYLOAD_DOMAIN);
    || Collide(sha, LinkMessage(sha, e, x), LinkMessage(sha, f, y))
    || Collide(sha, BytesMessage(domain, x.payload), BytesMessage(domain, y.payload))
  }

  lemma {:induction false} DecimalInjective(m: nat, n: nat)
    requires Decimal(m) == Decimal(n)
    ensures m == n
  {
    var x, y := Decimal(m), Decimal(n);
    assert x[|x| - 1] == y[|y| - 1];
    if m >= 10 && n >= 10 {
      assert x[..|x| - 1] == Decimal(m / 10) && y[..|y| - 1] == Decimal(n / 10);
      DecimalInjective(m / 10, n / 10);
    } else {
      DecimalLength(m);
      DecimalLength(n);
    }
  }

  lemma DecimalLength(n: nat)
    ensures |Decimal(n)| >= 1 && (|Decimal(n)| == 1 <==> n < 10)
  {
  }

  lemma LinkBinds(sha: Hash, e: Text, x: Link, f: Text, y: Link)
    requires x.hash == y.hash
    requires Digest(sha, LinkMessage(sha, e, x)) == Some(x.hash) && Digest(sha, LinkMessage(sha, f, y)) == Some(y.hash)
    ensures (e == f && x == y) || LinksCollide(sha, e, x, f, y)
  {
    DigestBinds(sha, LinkMessage(sha, e, x), LinkMessage(sha, f, y));
    var domain := Ascii(PAYLOAD_DOMAIN);
    if LinkMessage(sha, e, x) == LinkMessage(sha, f, y) {
      var p, q := PayloadDigest(sha, x.payload).value, PayloadDigest(sha, y.payload).value;
      var s := [Ascii("runner-frame-hash.v1"), e, Decimal(x.sequence), x.stage, p, x.previous, x.auth];
      var t := [Ascii("runner-frame-hash.v1"), f, Decimal(y.sequence), y.stage, q, y.previous, y.auth];
      FramingInjective(s, t);
      assert s[1] == t[1] && s[2] == t[2] && s[3] == t[3] && s[4] == t[4] && s[5] == t[5] && s[6] == t[6];
      DecimalInjective(x.sequence, y.sequence);
      BytesCommitmentBinds(sha, domain, x.payload, domain, y.payload);
    }
  }

  /**
   The last hash pins the whole history, its length and its epoch: two valid chains with the same last hash belong to
   one epoch and are equal link by link, or two links at the same distance from their ends exhibit a hash collision.
   */
  lemma {:induction false} ChainBinds(sha: Hash, e: Text, a: seq<Link>, f: Text, b: seq<Link>) returns (k: nat)
    requires ChainValid(sha, e, a) && ChainValid(sha, f, b)
    requires a != [] && b != [] && a[|a| - 1].hash == b[|b| - 1].hash
    ensures || (a == b && e == f)
            || (k < |a| && k < |b| && LinksCollide(sha, e, a[|a| - 1 - k], f, b[|b| - 1 - k]))
    decreases |a|
  {
    hide LinkMessage, Digest, LinksCollide;
    k := 0;
    var m, n := |a| - 1, |b| - 1;
    assert LinkValid(sha, e, a, m) && LinkValid(sha, f, b, n);
    LinkBinds(sha, e, a[m], f, b[n]);
    if a[m] == b[n] && e == f && m > 0 {
      ChainPrefix(sha, e, a, m);
      ChainPrefix(sha, f, b, n);
      var inner := ChainBinds(sha, e, a[..m], f, b[..n]);
      k := inner + 1;
      assert a == a[..m] + [a[m]] && b == b[..n] + [b[n]];
    } else if a[m] == b[n] && e == f {
      assert a == [a[0]] && b == [b[0]];
    }
  }

  /** A chain starts at sequence number one, from the hash of 64 zeros. */
  lemma ChainStarts(sha: Hash, epoch: Text, links: seq<Link>)
    requires ChainValid(sha, epoch, links) && links != []
    ensures links[0].sequence == 1 && links[0].previous == ZeroHash()
  {
    assert LinkValid(sha, epoch, links, 0);
  }

  lemma ChainPrefix(sha: Hash, epoch: Text, links: seq<Link>, n: nat)
    requires ChainValid(sha, epoch, links) && n <= |links|
    ensures ChainValid(sha, epoch, links[..n])
  {
    forall i | 0 <= i < n
      ensures LinkValid(sha, epoch, links[..n], i)
    {
      assert LinkValid(sha, epoch, links, i);
    }
  }
}
