/** Bytes, and numbers packed into a fixed number of big-endian bytes. */
module Octets {
  type Byte = x: int | 0 <= x < 256
  type Bytes = seq<Byte>

  /** `n` as `width` big-endian bytes. */
  function Pack(n: nat, width: nat): (b: Bytes)
    ensures |b| == width
  {
    if width == 0 then [] else Pack(n / 0x100, width - 1) + [n % 0x100]
  }

  function Value(b: Byte): nat {
    b
  }

  function Unpack(b: Bytes): nat {
    if b == [] then 0 else 0x100 * Unpack(b[..|b| - 1]) + Value(b[|b| - 1])
  }

  predicate Fits(n: nat, width: nat) {
    if width == 0 then n == 0 else Fits(n / 0x100, width - 1)
  }

  lemma {:induction false} PackRoundTrip(n: nat, width: nat)
    requires Fits(n, width)
    ensures Unpack(Pack(n, width)) == n
  {
    if width > 0 {
      PackRoundTrip(n / 0x100, width - 1);
      assert Pack(n, width)[..width - 1] == Pack(n / 0x100, width - 1);
    }
  }

  /** Packing is onto: every byte string packs the number it stands for. */
  lemma {:induction false} UnpackRoundTrip(b: Bytes)
    ensures Pack(Unpack(b), |b|) == b && Fits(Unpack(b), |b|)
  {
    if b != [] {
      var last := |b| - 1;
      UnpackRoundTrip(b[..last]);
      Quotient(Unpack(b[..last]), Value(b[last]));
    }
  }

  lemma Quotient(n: nat, b: nat)
    requires b < 0x100
    ensures (0x100 * n + b) / 0x100 == n && (0x100 * n + b) % 0x100 == b
  {
  }

  lemma FitsFour(n: nat)
    requires n < 0x1_0000_0000
    ensures Fits(n, 4)
  {
    assert Fits(n / 0x100 / 0x100 / 0x100, 1) && Fits(n / 0x100 / 0x100, 2);
  }

  /** The most significant byte comes first. */
  lemma BigEndian(n: nat)
    requires Fits(n, 4)
    ensures Pack(n, 4) == [n / 0x100 / 0x100 / 0x100, n / 0x100 / 0x100 % 0x100, n / 0x100 % 0x100, n % 0x100]
  {
    var b := n / 0x100 / 0x100;
    assert Pack(b, 2) == Pack(b / 0x100, 1) + [b % 0x100];
    assert Pack(b / 0x100, 1) == Pack(b / 0x100 / 0x100, 0) + [b / 0x100 % 0x100];
    assert Fits(n / 0x100, 3) && Fits(b, 2) && Fits(b / 0x100, 1) && Fits(b / 0x100 / 0x100, 0);
  }
}
