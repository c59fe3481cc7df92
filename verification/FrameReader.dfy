/**
 Reading one request frame from a stream that delivers its bytes in chunks.  The reader takes what it
 needs and keeps the rest of a chunk for later; the result is that of decoding the bytes in one piece.
 */
module FrameReader {
  import opened Wrappers
  import opened Octets

  const HEADER_SIZE := 12
  const REQUEST_MAX := 1024
  const MAGIC: Bytes := [0x53, 0x50, 0x4C, 0x51]
  const VERSION: Byte := 1
  const REQUEST: Byte := 1

  /** Magic, version, type, two flag bytes that must be zero, and the payload length in four bytes. */
  predicate HeaderOk(h: Bytes)
    requires |h| == HEADER_SIZE
  {
    h[..4] == MAGIC && h[4] == VERSION && h[5] == REQUEST && Unpack(h[6..8]) == 0
  }

  function PayloadLength(h: Bytes): nat
    requires |h| == HEADER_SIZE
  {
    Unpack(h[8..12])
  }

  type Parse<!V> = Bytes -> Option<V>

  /** The request a complete frame carries; every malformed frame is refused. */
  function Decode<V>(frame: Bytes, parse: Parse<V>): Option<V> {
    if |frame| < HEADER_SIZE then None
    else
      var h := frame[..HEADER_SIZE];
      if !HeaderOk(h) || PayloadLength(h) > REQUEST_MAX || |frame| != HEADER_SIZE + PayloadLength(h) then None
      else parse(frame[HEADER_SIZE..])
  }

  function Concat(chunks: seq<Bytes>): Bytes {
    if chunks == [] then [] else chunks[0] + Concat(chunks[1..])
  }

  lemma {:induction false} ConcatSplit(chunks: seq<Bytes>, k: nat)
    requires k <= |chunks|
    ensures Concat(chunks) == Concat(chunks[..k]) + Concat(chunks[k..])
  {
    if k > 0 {
      ConcatSplit(chunks[1..], k - 1);
      assert chunks[..k][1..] == chunks[1..][..k - 1] && chunks[1..][k - 1..] == chunks[k..];
    } else {
      assert chunks[..0] == [] && chunks[0..] == chunks;
    }
  }

  /**
   A stream and its reader's buffer.  `chunks` are what successive reads return; the first `timely` of
   them arrive before the deadline.  `late` says that whatever follows the frame has not arrived yet
   when the reader takes its one look for trailing input.
   */
  class Stream {
    const chunks: seq<Bytes>
    const timely: nat
    const late: bool
    var next: nat
    var pending: Bytes

    constructor (chunks: seq<Bytes>, timely: nat, late: bool)
      requires timely <= |chunks| && forall i :: 0 <= i < |chunks| ==> chunks[i] != []
      ensures this.chunks == chunks && this.timely == timely && this.late == late
      ensures next == 0 && pending == [] && Valid()
    {
      this.chunks, this.timely, this.late := chunks, timely, late;
      next, pending := 0, [];
    }

    ghost predicate Valid()
      reads this
    {
      next <= timely <= |chunks| && forall i :: 0 <= i < |chunks| ==> chunks[i] != []
    }

    /** The bytes no read has returned yet. */
    function Unread(): Bytes
      requires next <= |chunks|
      reads this
    {
      Concat(chunks[next..])
    }

    /** Takes exactly `length` bytes, or fails when the stream ends or the deadline passes first. */
    method ReadExact(length: nat) returns (r: Option<Bytes>)
      requires Valid()
      modifies this`next, this`pending
      ensures Valid()
      ensures r.Some? ==> |r.value| == length && r.value + pending + Unread() == old(pending + Unread())
      ensures r.None? ==> next == timely && 0 <= |old(pending + Unread())| - |Unread()| < length
      ensures r.None? && next == |chunks| ==> |old(pending + Unread())| < length
    {
      var result: Bytes := [];
      while |result| < length
        invariant Valid() && |result| <= length
        invariant result + pending + Unread() == old(pending + Unread())
        decreases |chunks| - next, |pending|
      {
        if pending != [] {
          var take := if length - |result| < |pending| then length - |result| else |pending|;
          ghost var was := pending;
          result := result + pending[..take];
          pending := pending[take..];
          assert was == was[..take] + was[take..];
        } else {
          if next == timely {
            if next == |chunks| {
              assert Unread() == [];
            }
            return None;
          }
          var chunk := chunks[next];
          assert chunks[next..][0] == chunk && chunks[next..][1..] == chunks[next + 1..];
          next := next + 1;
          var take := if length - |result| < |chunk| then length - |result| else |chunk|;
          assert chunk == chunk[..take] + chunk[take..];
          result := result + chunk[..take];
          pending := pending + chunk[take..];
        }
      }
      r := Some(result);
    }

    /** What a decoder of the whole would see: everything, or what had arrived if the rest is late. */
    ghost function Visible(): Bytes
      requires next <= |chunks|
      reads this
    {
      if late then Concat(chunks[..next]) else Concat(chunks)
    }

    lemma NothingUnread()
      requires next == |chunks|
      ensures Unread() == []
    {
    }

    lemma SomethingUnread()
      requires Valid() && next < |chunks|
      ensures Unread() != []
    {
      assert chunks[next..][0] == chunks[next];
    }

    /** Header, payload, no byte left over, and one look for more. */
    method ReadRequestFrame<V>(parse: Parse<V>) returns (r: Option<V>)
      requires Valid() && next == 0 && pending == []
      modifies this`next, this`pending
      ensures Valid()
      ensures r == if timely < |chunks| && !late then None else Decode(Visible(), parse)
    {
      hide HeaderOk, Decode, PayloadLength, Concat;
      assert chunks[0..] == chunks;
      ghost var whole := Concat(chunks);
      assert [] + whole == whole;
      var header := ReadExact(HEADER_SIZE);
      ConcatSplit(chunks, next);
      if header.None? {
        Short(Visible(), parse);
        return None;
      }
      ghost var h := header.value;
      Ahead(Concat(chunks[..next]), h + pending, Unread(), whole);
      if !HeaderOk(header.value) || PayloadLength(header.value) > REQUEST_MAX {
        BadHeader(h, pending, parse);
        BadHeader(h, pending + Unread(), parse);
        assert h + (pending + Unread()) == whole;
        return None;
      }
      ghost var rest := pending + Unread();
      assert whole == h + rest;
      var payload := ReadExact(PayloadLength(header.value));
      ConcatSplit(chunks, next);
      if payload.None? {
        assert chunks[..|chunks|] == chunks;
        Incomplete(Concat(chunks[..next]), h, rest, Unread(), parse);
        GoodHeader(h, rest, parse);
        return None;
      }
      ghost var p := payload.value;
      assert whole == h + (p + pending + Unread());
      assert h + (p + pending) + Unread() == whole;
      Ahead(Concat(chunks[..next]), h + (p + pending), Unread(), whole);
      GoodHeader(h, p + pending, parse);
      GoodHeader(h, p + pending + Unread(), parse);
      if pending != [] {
        return None;
      }
      assert p + pending == p;
      if next < |chunks| && !late {
        SomethingUnread();
        return None;
      }
      if next == |chunks| {
        NothingUnread();
        assert p + [] == p;
      }
      r := parse(payload.value);
    }
  }

  lemma Short<V>(frame: Bytes, parse: Parse<V>)
    ensures |frame| < HEADER_SIZE ==> Decode(frame, parse).None?
  {
  }

  lemma BadHeader<V>(h: Bytes, tail: Bytes, parse: Parse<V>)
    requires |h| == HEADER_SIZE && (!HeaderOk(h) || PayloadLength(h) > REQUEST_MAX)
    ensures Decode(h + tail, parse).None?
  {
    assert (h + tail)[..HEADER_SIZE] == h;
  }

  lemma GoodHeader<V>(h: Bytes, tail: Bytes, parse: Parse<V>)
    requires |h| == HEADER_SIZE && HeaderOk(h) && PayloadLength(h) <= REQUEST_MAX
    ensures Decode(h + tail, parse) == if |tail| == PayloadLength(h) then parse(tail) else None
  {
    assert (h + tail)[..HEADER_SIZE] == h && (h + tail)[HEADER_SIZE..] == tail;
  }

  /** What arrived before the deadline ends inside the payload. */
  lemma Incomplete<V>(read: Bytes, h: Bytes, rest: Bytes, unread: Bytes, parse: Parse<V>)
    requires |h| == HEADER_SIZE && HeaderOk(h) && PayloadLength(h) <= REQUEST_MAX
    requires read + unread == h + rest && 0 <= |rest| - |unread| < PayloadLength(h)
    ensures Decode(read, parse).None?
  {
    hide Decode, HeaderOk, PayloadLength;
    var tail := rest[..|rest| - |unread|];
    assert read == (h + rest)[..|read|] == h + tail;
    GoodHeader(h, tail, parse);
  }

  /** What has been read is the whole without what is unread. */
  lemma Ahead(read: Bytes, front: Bytes, unread: Bytes, whole: Bytes)
    requires whole == front + unread && whole == read + unread
    ensures read == front
  {
    assert |read| == |front|;
    assert read == whole[..|front|] == front;
  }

  /** Chunking does not matter: two streams that deliver the same bytes in time give the same answer. */
  method ReadTwice<V>(a: Stream, b: Stream, parse: Parse<V>) returns (x: Option<V>, y: Option<V>)
    requires a != b && a.Valid() && b.Valid() && a.next == 0 == b.next && a.pending == [] == b.pending
    requires Concat(a.chunks) == Concat(b.chunks)
    requires a.timely == |a.chunks| && b.timely == |b.chunks| && !a.late && !b.late
    modifies a, b
    ensures x == y == Decode(Concat(a.chunks), parse)
  {
    x := a.ReadRequestFrame(parse);
    y := b.ReadRequestFrame(parse);
  }

  // ---- Building frames ----

  /** A frame of any type.  A payload above the limit is not framed. */
  function Build(messageType: Byte, payload: Bytes, limit: nat): Option<Bytes> {
    if |payload| > limit then None
    else Some(MAGIC + [VERSION, messageType] + Pack(0, 2) + Pack(|payload|, 4) + payload)
  }

  /** A built frame decodes exactly if it is a request within the request limit, and then to what its payload parses to. */
  lemma BuildDecode<V>(messageType: Byte, payload: Bytes, limit: nat, parse: Parse<V>)
    requires |payload| <= limit < 0x1_0000_0000
    ensures Build(messageType, payload, limit).Some?
    ensures Decode(Build(messageType, payload, limit).value, parse) ==
            if messageType == REQUEST && |payload| <= REQUEST_MAX then parse(payload) else None
  {
    hide Unpack, Pack, Fits;
    var frame := Build(messageType, payload, limit).value;
    var h := frame[..HEADER_SIZE];
    assert h[..4] == MAGIC && h[4] == VERSION && h[5] == messageType;
    assert h[6..8] == Pack(0, 2) && h[8..12] == Pack(|payload|, 4);
    assert frame[HEADER_SIZE..] == payload;
    UnpackedHeader(h, |payload|);
  }

  /** A frame is accepted exactly if it is a request that could have been built, and its payload parses. */
  lemma DecodesBuilt<V(!new)>(frame: Bytes, parse: Parse<V>, v: V)
    ensures Decode(frame, parse) == Some(v) <==>
            exists payload: Bytes :: Build(REQUEST, payload, REQUEST_MAX) == Some(frame) && parse(payload) == Some(v)
  {
    hide Unpack, Pack, Fits;
    forall payload: Bytes | Build(REQUEST, payload, REQUEST_MAX) == Some(frame)
      ensures Decode(frame, parse) == parse(payload)
    {
      BuildDecode(REQUEST, payload, REQUEST_MAX, parse);
    }
    if Decode(frame, parse) == Some(v) {
      var h, payload := frame[..HEADER_SIZE], frame[HEADER_SIZE..];
      UnpackRoundTrip(h[6..8]);
      UnpackRoundTrip(h[8..12]);
      assert h == h[..4] + [h[4], h[5]] + h[6..8] + h[8..12];
      assert frame == h + payload;
      assert Build(REQUEST, payload, REQUEST_MAX) == Some(frame);
    }
  }

  /** The twelve header bytes, literally. */
  lemma BuildBytes(messageType: Byte, payload: Bytes, limit: nat)
    requires |payload| <= limit < 0x1_0000_0000
    ensures Build(messageType, payload, limit) ==
            Some([0x53, 0x50, 0x4C, 0x51, 1, messageType, 0, 0, |payload| / 0x100 / 0x100 / 0x100,
                  |payload| / 0x100 / 0x100 % 0x100, |payload| / 0x100 % 0x100, |payload| % 0x100] + payload)
  {
    FitsFour(|payload|);
    BigEndian(|payload|);
    assert Pack(0, 1) == [0] && Pack(0, 2) == [0, 0];
    hide Pack, Fits;
    var a: Bytes, b := [0x53, 0x50, 0x4C, 0x51, 1, messageType, 0, 0], Pack(|payload|, 4);
    assert MAGIC + [VERSION, messageType] + Pack(0, 2) == a;
    assert a + b == [0x53, 0x50, 0x4C, 0x51, 1, messageType, 0, 0, b[0], b[1], b[2], b[3]];
  }

  lemma UnpackedHeader(h: Bytes, n: nat)
    requires |h| == HEADER_SIZE && h[6..8] == Pack(0, 2) && h[8..12] == Pack(n, 4) && n < 0x1_0000_0000
    ensures Unpack(h[6..8]) == 0 && PayloadLength(h) == n
  {
    FitsFour(n);
    PackRoundTrip(n, 4);
    PackRoundTrip(0, 2);
  }

  /** Frames of different types or payloads have different bytes. */
  lemma BuildInjective(a: Byte, p: Bytes, b: Byte, q: Bytes, limit: nat)
    requires |p| <= limit < 0x1_0000_0000 && |q| <= limit
    requires Build(a, p, limit) == Build(b, q, limit)
    ensures a == b && p == q
  {
    var x, y := Build(a, p, limit).value, Build(b, q, limit).value;
    assert x[5] == a && y[5] == b;
    assert x[HEADER_SIZE..] == p && y[HEADER_SIZE..] == q;
  }
}
