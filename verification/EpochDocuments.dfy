/**
 The documents of one recovery epoch, as the controller store keeps them on disk, and the
 shape rules its validators enforce.  SHA-256, HMAC and canonical JSON are injective
 constructors here (see module Commitments for what their byte framing guarantees), so a
 commitment is the value it commits to.
 */
module EpochDocuments {
  import opened Wrappers
  import Commitments

  type Ref = string

  /** Text that a caller hands in: Python code points, lone surrogates included. */
  type Identity = Commitments.Text

  const MAX_FRAME_BYTES: nat := 16 * 1024
  const MAX_TOTAL_SPOOL_BYTES: nat := 4 * 1024 * 1024
  const MAX_FRAMES: nat := 4096

  datatype Version = V1 | V2
  datatype EpochState = Initialised | Ready | Active | Abandoned | Superseded | Consumed
  datatype ArtifactState = Pending | RowBound | Bound
  datatype LedgerState = LedgerUnconsumed | LedgerConsumed
  datatype SpoolState = SpoolOpen | SpoolAbandoned | SpoolCommitted
  datatype Stage = NoStage | EpochReady | RunnerStarted | RestoreBegin | Commit | Abandon

  datatype Domain =
    | SupersessionBarrier
    | ArtifactRow
    | ContainerIdentity
    | VolumeIdentity
    | RunnerIdentity
    | SpoolDomain

  datatype Commitment =
    | TextCommitment(domain: Domain, fields: seq<string>)
    | IdentityCommitment(domain: Domain, identities: seq<Identity>)
    | ManifestDigest(manifest: Manifest)
    | PrivateDigest(private: Private)
    | BindingDigest(binding: Binding)
    | LedgerDigest(ledger: Ledger)
    | DataCommitment(data: string)

  /** The fields that the epoch record and its manifest both carry. */
  datatype Header = Header(
    epoch: Ref,
    authority: Ref,
    state: EpochState,
    barrier: Commitment,
    artifactState: ArtifactState,
    bindingDigest: Option<Commitment>,
    artifactCommitment: Option<Commitment>,
    container: Commitment,
    volume: Commitment,
    runner: Commitment,
    spool: Commitment,
    privateDigest: Commitment,
    ledgerRef: string,
    ledgerState: LedgerState)

  datatype Record = Record(version: Version, header: Header, manifestDigest: Commitment)
  datatype Manifest = Manifest(version: Version, header: Header)

  datatype Private =
    | PrivateV1(epoch: Ref, container: Identity, volume: Identity, runner: Identity,
                rowId: Identity, filename: Identity, salt: Identity, hmacKey: Identity)
    | PrivateV2(epoch: Ref, container: Identity, volume: Identity, runner: Identity,
                salt: Identity, hmacKey: Identity)

  datatype Binding = Binding(
    epoch: Ref,
    authority: Ref,
    state: ArtifactState,
    rowId: Option<Identity>,
    filename: Option<Identity>,
    commitment: Option<Commitment>,
    privateDigest: Commitment)

  datatype Ledger = Ledger(
    epoch: Ref,
    state: LedgerState,
    transitionId: Option<string>,
    target: Option<string>,
    data: Option<Commitment>)

  datatype Spool = Spool(
    epoch: Ref,
    state: SpoolState,
    nextSequence: int,
    lastHash: FrameHash,
    highestCommit: int,
    frameCount: int,
    totalBytes: int,
    lastStage: Stage,
    commitment: Commitment)

  datatype Payload = Payload(
    classification: Option<Identity>,
    ref: Option<Identity>,
    commitment: Option<Identity>,
    state: Option<Identity>)

  datatype Auth = Hmac(key: Identity, epoch: Ref, sequence: int, stage: Stage, payload: Payload, previous: FrameHash)
  datatype FrameHash =
    | ZeroHash
    | HashOf(epoch: Ref, sequence: int, stage: Stage, payload: Payload, previous: FrameHash, auth: Auth)

  datatype Frame = Frame(
    epoch: Ref,
    sequence: int,
    stage: Stage,
    payload: Payload,
    previous: FrameHash,
    auth: Auth,
    hash: FrameHash)

  /** A file name inside one epoch directory. */
  datatype File =
    | RecordFile(version: Version)
    | ManifestFile(version: Version)
    | PrivateFile(version: Version)
    | BindingFile
    | LedgerFile
    | SpoolFile
    | FrameFile(number: nat)

  /** A parsed file. */
  datatype Doc =
    | RecordDoc(record: Record)
    | ManifestDoc(manifest: Manifest)
    | PrivateDoc(private: Private)
    | BindingDoc(binding: Binding)
    | LedgerDoc(ledger: Ledger)
    | SpoolDoc(spool: Spool)
    | FrameDoc(frame: Frame)

  type Disk = map<File, Doc>

  datatype Snapshot = Snapshot(
    record: Record,
    manifest: Manifest,
    private: Private,
    binding: Option<Binding>,
    ledger: Ledger,
    spool: Spool)

  predicate Terminal(state: EpochState) {
    state in {Abandoned, Superseded, Consumed}
  }

  function Text(domain: Domain, fields: seq<string>): Commitment {
    TextCommitment(domain, fields)
  }

  function Sealed(domain: Domain, identities: seq<Identity>): Commitment {
    IdentityCommitment(domain, identities)
  }

  function FrameAuth(private: Private, epoch: Ref, sequence: int, stage: Stage, payload: Payload,
                     previous: FrameHash): Auth
  {
    Hmac(private.hmacKey, epoch, sequence, stage, payload, previous)
  }

  const ABANDON_PAYLOAD: Payload := Payload(None, None, None, Some(Commitments.Ascii("ABANDONED")))

  // ---- Well-formed refs and identities ----

  const MAX_REF: nat := 128
  const MAX_IDENTITY_BYTES: nat := 8192
  const MAX_FILENAME_BYTES: nat := 2048
  const MAX_PRIVATE_BYTES: nat := 32 * 1024

  predicate Alphanumeric(c: char) {
    'A' <= c <= 'Z' || 'a' <= c <= 'z' || '0' <= c <= '9'
  }

  /** A letter or digit, followed by at most 127 letters, digits, dots, underscores and hyphens. */
  predicate RefOk(ref: string) {
    && 1 <= |ref| <= MAX_REF && Alphanumeric(ref[0])
    && forall i :: 1 <= i < |ref| ==> Alphanumeric(ref[i]) || ref[i] in "._-"
  }

  function LedgerRef(e: Ref): string {
    "ledger-" + e
  }

  predicate IdentityOk(t: Identity) {
    var encoded := Commitments.Utf8(t);
    encoded.Some? && 1 <= |encoded.value| <= MAX_IDENTITY_BYTES
  }

  /** The decimal text of a positive number that fits in 63 bits. */
  predicate RowIdOk(t: Identity) {
    && 1 <= |t| <= 19 && t[0] != 0x30
    && (forall i :: 0 <= i < |t| ==> 0x30 <= t[i] <= 0x39)
    && Decimal(t) <= 0x7FFF_FFFF_FFFF_FFFF
  }

  function Decimal(t: Identity): int {
    if t == [] then 0 else 10 * Decimal(t[..|t| - 1]) + t[|t| - 1] - 0x30
  }

  /** A file name: at most 2048 bytes, without separators and control characters. */
  predicate FilenameOk(t: Identity) {
    var encoded := Commitments.Utf8(t);
    && encoded.Some? && 1 <= |encoded.value| <= MAX_FILENAME_BYTES
    && t != [0x2E] && t != [0x2E, 0x2E]
    && forall i :: 0 <= i < |t| ==> t[i] !in [0x2F, 0x5C, 0x7F] && t[i] > 0x1F
  }

  /** The bytes of one code point inside a JSON string that escapes no more than it must. */
  function JsonWidth(c: Commitments.CodePoint): nat {
    if c in [0x08, 0x09, 0x0A, 0x0C, 0x0D, 0x22, 0x5C] then 2
    else if c < 0x20 then 6
    else |Commitments.EncodeChar(c)|
  }

  function JsonBytes(t: Identity): nat {
    if t == [] then 2 else JsonWidth(t[0]) + JsonBytes(t[1..])
  }

  /** The bytes of a one-line JSON object, given each member's name and the bytes of its value. */
  function ObjectBytes(members: seq<(string, nat)>): nat {
    if members == [] then 2
    else |members[0].0| + 4 + members[0].1 + ObjectBytes(members[1..])
  }

  /** The length of the private identities document. */
  function PrivateBytes(p: Private): nat {
    var common := [("schema", 32), ("epoch_ref", 2 + |p.epoch|), ("container_identity", JsonBytes(p.container)),
                   ("volume_identity", JsonBytes(p.volume)), ("runner_identity", JsonBytes(p.runner)),
                   ("salt", JsonBytes(p.salt)), ("spool_hmac_key", JsonBytes(p.hmacKey))];
    match p
    case PrivateV1(_, _, _, _, rowId, filename, _, _) =>
      ObjectBytes(common + [("artifact_row_id", JsonBytes(rowId)), ("artifact_filename", JsonBytes(filename))])
    case PrivateV2(_, _, _, _, _, _) => ObjectBytes(common)
  }

  predicate PrivateOk(p: Private) {
    && RefOk(p.epoch)
    && IdentityOk(p.container) && IdentityOk(p.volume) && IdentityOk(p.runner)
    && IdentityOk(p.salt) && IdentityOk(p.hmacKey)
    && (p.PrivateV1? ==> IdentityOk(p.rowId) && IdentityOk(p.filename))
    && PrivateBytes(p) <= MAX_PRIVATE_BYTES
  }

  // ---- Row ids and file names, said again ----

  lemma {:induction false} DecimalText(n: nat)
    ensures var t := Commitments.Decimal(n);
            && |t| >= 1 && (forall i :: 0 <= i < |t| ==> 0x30 <= t[i] <= 0x39) && Decimal(t) == n
            && (n > 0 ==> t[0] != 0x30)
  {
    if n >= 10 {
      DecimalText(n / 10);
      var t := Commitments.Decimal(n);
      assert t[..|t| - 1] == Commitments.Decimal(n / 10);
    } else {
      assert Commitments.Decimal(n)[..0] == [];
    }
  }

  lemma {:induction false} TextDecimal(t: Identity)
    requires t != [] && (forall i :: 0 <= i < |t| ==> 0x30 <= t[i] <= 0x39) && t[0] != 0x30
    ensures Decimal(t) >= 1 && Commitments.Decimal(Decimal(t)) == t
  {
    var last := |t| - 1;
    if last > 0 {
      TextDecimal(t[..last]);
      assert t == t[..last] + [t[last]];
    } else {
      assert t[..0] == [];
    }
  }

  function PowerOfTen(n: nat): nat {
    if n == 0 then 1 else 10 * PowerOfTen(n - 1)
  }

  lemma {:induction false} LongDecimal(t: Identity, n: nat)
    requires |t| > n && (forall i :: 0 <= i < |t| ==> 0x30 <= t[i] <= 0x39) && t[0] != 0x30
    ensures Decimal(t) >= PowerOfTen(n)
  {
    var last := |t| - 1;
    if last > 0 {
      LongDecimal(t[..last], if n > 0 then n - 1 else 0);
    } else {
      assert t[..0] == [];
    }
  }

  /** A row id is exactly the decimal text of a number from 1 to 2^63 - 1. */
  lemma RowIdIff(t: Identity)
    ensures RowIdOk(t) <==> exists n: nat :: 1 <= n <= 9223372036854775807 && t == Commitments.Decimal(n)
  {
    if RowIdOk(t) {
      TextDecimal(t);
    }
    if n: nat :| 1 <= n <= 9223372036854775807 && t == Commitments.Decimal(n) {
      DecimalText(n);
      if |t| > 19 {
        LongDecimal(t, 19);
        TenToNineteen();
      }
    }
  }

  lemma TenToNineteen()
    ensures PowerOfTen(19) == 10_000_000_000_000_000_000
  {
    assert PowerOfTen(5) == 100000;
    assert PowerOfTen(10) == 10000000000;
    assert PowerOfTen(15) == 1000000000000000;
  }

  // ---- Well-formed frames ----

  const MAX_PAYLOAD_TEXT: nat := 512

  predicate TextOk(t: Identity) {
    var encoded := Commitments.Utf8(t);
    encoded.Some? && 1 <= |encoded.value| <= MAX_PAYLOAD_TEXT
  }

  predicate HexDigit(c: Commitments.CodePoint) {
    0x30 <= c <= 0x39 || 0x61 <= c <= 0x66
  }

  /** The text of a commitment: its prefix and 64 hexadecimal digits. */
  predicate CommitmentTextOk(t: Identity) {
    |t| == 74 && t[..10] == Commitments.Ascii("sha256:v1:") && forall i :: 10 <= i < 74 ==> HexDigit(t[i])
  }

  predicate PayloadOk(p: Payload) {
    && (p.classification.Some? ==> TextOk(p.classification.value))
    && (p.ref.Some? ==> TextOk(p.ref.value))
    && (p.commitment.Some? ==> CommitmentTextOk(p.commitment.value))
    && (p.state.Some? ==> TextOk(p.state.value))
  }

  function PayloadMember(name: string, value: Option<Identity>): seq<(string, nat)> {
    match value
    case None => []
    case Some(t) => [(name, JsonBytes(t))]
  }

  /** The length of a payload inside its frame: an empty object, or a member for each field it has. */
  function PayloadBytes(p: Payload): nat {
    var members := PayloadMember("classification", p.classification) + PayloadMember("ref", p.ref)
                   + PayloadMember("commitment", p.commitment) + PayloadMember("state", p.state);
    if members == [] then 2 else ObjectBytes(members) - 1
  }

  function StageBytes(stage: Stage): nat {
    match stage
    case NoStage => |"NONE"|
    case EpochReady => |"EPOCH_READY"|
    case RunnerStarted => |"RUNNER_STARTED"|
    case RestoreBegin => |"RESTORE_BEGIN"|
    case Commit => |"COMMIT"|
    case Abandon => |"ABANDON"|
  }

  function DigitCount(n: nat): nat {
    if n < 10 then 1 else DigitCount(n / 10) + 1
  }

  /** The length of a frame's document.  Hashes have 74 characters and authenticators 72. */
  function FrameBytes(f: Frame): nat {
    ObjectBytes([("schema", 2 + |"runner-frame.v1"|), ("epoch_ref", 2 + |f.epoch|),
                 ("sequence", DigitCount(if f.sequence < 0 then 0 else f.sequence)), ("stage", 2 + StageBytes(f.stage)),
                 ("payload", PayloadBytes(f.payload)), ("previous_hash", 76), ("auth", 74), ("frame_hash", 76)])
  }

  // ---- Shape rules of the validators ----

  /** The shape rules common to record and manifest. */
  predicate HeaderShape(version: Version, h: Header) {
    && RefOk(h.epoch) && RefOk(h.authority) && RefOk(h.ledgerRef)
    && (h.state == Consumed ==> h.ledgerState == LedgerConsumed)
    && match version
       case V1 => h.bindingDigest.None?
       case V2 =>
         && h.artifactState != RowBound
         && h.bindingDigest.Some?
         && (h.artifactState == Pending <==> h.artifactCommitment.None?)
  }

  predicate BindingShape(b: Binding) {
    match b.state
    case Pending => b.rowId.None? && b.filename.None? && b.commitment.None?
    case Bound =>
      && b.rowId.Some? && b.filename.Some? && RowIdOk(b.rowId.value) && FilenameOk(b.filename.value)
      && b.commitment == Some(Sealed(ArtifactRow, [b.rowId.value, b.filename.value]))
    case RowBound => false
  }

  predicate LedgerShape(l: Ledger) {
    match l.state
    case LedgerUnconsumed => l.transitionId.None? && l.target.None? && l.data.None?
    case LedgerConsumed => l.transitionId.Some? && RefOk(l.transitionId.value) && l.target == Some("RESTORE_STARTED") && l.data.Some?
  }

  predicate SpoolShape(s: Spool) {
    && s.nextSequence >= 0 && s.highestCommit >= 0 && s.frameCount >= 0 && s.totalBytes >= 0
    && s.nextSequence == s.frameCount + 1
    && s.frameCount <= MAX_FRAMES && s.totalBytes <= MAX_TOTAL_SPOOL_BYTES
    && s.highestCommit <= s.frameCount
    && (s.state == SpoolOpen ==> s.lastStage != Commit && s.lastStage != Abandon)
    && (s.state == SpoolCommitted ==> s.lastStage == Commit && s.highestCommit != 0 && s.frameCount != 0)
    && (s.state == SpoolAbandoned ==> s.lastStage == Abandon && s.highestCommit == 0 && s.frameCount != 0)
  }

  predicate FrameShape(f: Frame) {
    RefOk(f.epoch) && 1 <= f.sequence <= MAX_FRAMES && f.stage != NoStage && PayloadOk(f.payload)
  }

  // ---- A well-formed frame always fits ----

  lemma {:induction false} JsonBound(t: Identity)
    ensures JsonBytes(t) <= 2 + 6 * |t|
  {
    if t != [] {
      JsonBound(t[1..]);
    }
  }

  lemma {:induction false} EncodedLength(t: Identity)
    requires Commitments.Utf8(t).Some?
    ensures |t| <= |Commitments.Utf8(t).value|
  {
    if t != [] {
      EncodedLength(t[1..]);
    }
  }

  lemma TextBound(t: Identity)
    requires TextOk(t) || CommitmentTextOk(t)
    ensures JsonBytes(t) <= 2 + 6 * MAX_PAYLOAD_TEXT
  {
    JsonBound(t);
    if TextOk(t) {
      EncodedLength(t);
    }
  }

  lemma {:induction false} ObjectAppend(a: seq<(string, nat)>, b: seq<(string, nat)>)
    ensures ObjectBytes(a + b) == ObjectBytes(a) + ObjectBytes(b) - 2
  {
    if a == [] {
      assert a + b == b;
    } else {
      ObjectAppend(a[1..], b);
      assert (a + b)[1..] == a[1..] + b;
    }
  }

  lemma {:induction false} ObjectBound(members: seq<(string, nat)>)
    requires forall i :: 0 <= i < |members| ==> |members[i].0| <= 20 && members[i].1 <= 200
    ensures ObjectBytes(members) <= 2 + 224 * |members|
  {
    if members != [] {
      ObjectBound(members[1..]);
    }
  }

  lemma MemberBound(name: string, value: Option<Identity>)
    requires |name| <= 20 && (value.Some? ==> TextOk(value.value) || CommitmentTextOk(value.value))
    ensures ObjectBytes(PayloadMember(name, value)) <= 2 + 24 + 2 + 6 * MAX_PAYLOAD_TEXT
  {
    hide TextOk, CommitmentTextOk;
    if value.Some? {
      TextBound(value.value);
      assert PayloadMember(name, value)[1..] == [];
    }
  }

  lemma PayloadBound(p: Payload)
    requires PayloadOk(p)
    ensures PayloadBytes(p) <= 12400
  {
    hide TextOk, CommitmentTextOk, ObjectBytes, PayloadMember;
    var a, b := PayloadMember("classification", p.classification), PayloadMember("ref", p.ref);
    var c, d := PayloadMember("commitment", p.commitment), PayloadMember("state", p.state);
    MemberBound("classification", p.classification);
    MemberBound("ref", p.ref);
    MemberBound("commitment", p.commitment);
    MemberBound("state", p.state);
    ObjectAppend(a, b);
    ObjectAppend(a + b, c);
    ObjectAppend(a + b + c, d);
  }

  lemma FourDigits(n: nat)
    requires n < 10000
    ensures DigitCount(n) <= 4
  {
    assert n / 10 / 10 / 10 < 10 && DigitCount(n / 10 / 10 / 10) == 1;
    assert DigitCount(n / 10 / 10) <= 2 && DigitCount(n / 10) <= 3;
  }

  /** The field bounds of the validators keep every well-formed frame within the limit for one frame. */
  lemma FrameFits(f: Frame)
    requires FrameShape(f)
    ensures FrameBytes(f) <= MAX_FRAME_BYTES
  {
    hide PayloadOk, PayloadBytes, ObjectBytes, DigitCount;
    PayloadBound(f.payload);
    FourDigits(f.sequence);
    var front := [("schema", 2 + |"runner-frame.v1"|), ("epoch_ref", 2 + |f.epoch|), ("sequence", DigitCount(f.sequence)),
                  ("stage", 2 + StageBytes(f.stage))];
    var payload := [("payload", PayloadBytes(f.payload))];
    var back := [("previous_hash", 76), ("auth", 74), ("frame_hash", 76)];
    ObjectBound(front);
    ObjectBound(back);
    SingleMember("payload", PayloadBytes(f.payload));
    ObjectAppend(front, payload);
    ObjectAppend(front + payload, back);
    assert front + payload + back ==
           [("schema", 2 + |"runner-frame.v1"|), ("epoch_ref", 2 + |f.epoch|), ("sequence", DigitCount(f.sequence)),
            ("stage", 2 + StageBytes(f.stage)), ("payload", PayloadBytes(f.payload)),
            ("previous_hash", 76), ("auth", 74), ("frame_hash", 76)];
  }

  /** The length of a frame's document, counted: 343 bytes of names, punctuation, hashes and schema, and the fields. */
  lemma FrameLength(f: Frame)
    requires f.sequence >= 0
    ensures FrameBytes(f) == 343 + |f.epoch| + DigitCount(f.sequence) + StageBytes(f.stage) + PayloadBytes(f.payload)
  {
    hide PayloadBytes, ObjectBytes, DigitCount, StageBytes;
    var a, b := [("schema", 17)], [("epoch_ref", 2 + |f.epoch|)];
    var c, d := [("sequence", DigitCount(f.sequence))], [("stage", 2 + StageBytes(f.stage))];
    var p, g := [("payload", PayloadBytes(f.payload))], [("previous_hash", 76)];
    var x, y := [("auth", 74)], [("frame_hash", 76)];
    SingleMember("schema", 17);
    SingleMember("epoch_ref", 2 + |f.epoch|);
    SingleMember("sequence", DigitCount(f.sequence));
    SingleMember("stage", 2 + StageBytes(f.stage));
    SingleMember("payload", PayloadBytes(f.payload));
    SingleMember("previous_hash", 76);
    SingleMember("auth", 74);
    SingleMember("frame_hash", 76);
    ObjectAppend(a, b);
    ObjectAppend(a + b, c);
    ObjectAppend(a + b + c, d);
    ObjectAppend(a + b + c + d, p);
    ObjectAppend(a + b + c + d + p, g);
    ObjectAppend(a + b + c + d + p + g, x);
    ObjectAppend(a + b + c + d + p + g + x, y);
    assert a + b + c + d + p + g + x + y ==
           [("schema", 17), ("epoch_ref", 2 + |f.epoch|), ("sequence", DigitCount(f.sequence)),
            ("stage", 2 + StageBytes(f.stage)), ("payload", PayloadBytes(f.payload)),
            ("previous_hash", 76), ("auth", 74), ("frame_hash", 76)];
  }

  lemma SingleMember(name: string, value: nat)
    ensures ObjectBytes([(name, value)]) == 2 + |name| + 4 + value
  {
    assert [(name, value)][1..] == [];
  }
}
