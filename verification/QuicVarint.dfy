// Variable-length integers of section 16 of RFC 9000, as the MoQ layer writes and reads them
// (crates/voip-client/src/moq.rs) and as the MASQUE capsule decoder reads them
// (crates/voip-client/src/masque.rs).

module QuicVarint {
  import opened Arith
  import opened Bytes

  // The two top bits tell the length. Values of 2^62 and more do not fit: the marker overwrites
  // their two top bits.
  function Encode(v: nat): seq<byte>
    requires v < TWO_64
  {
    if v < 0x40 then [v]
    else if v < 0x4000 then BigEndian(0x4000 + v, 2)
    else if v < 0x4000_0000 then BigEndian(0x8000_0000 + v, 4)
    else BigEndian(3 * TWO_62 + v % TWO_62, 8)
  }

  function EncodedLen(v: nat): nat {
    if v < 0x40 then 1 else if v < 0x4000 then 2 else if v < 0x4000_0000 then 4 else 8
  }

  // Value and number of bytes consumed; (0, 0) on a truncated input.
  function Decode(data: seq<byte>): (r: (nat, nat))
    ensures r.1 <= |data|
  {
    if data == [] then (0, 0) else
    match data[0] / 64
    case 0 => (data[0], 1)
    case 1 => if |data| < 2 then (0, 0) else (FromBigEndian(data[..2]) % 0x4000, 2)
    case 2 => if |data| < 4 then (0, 0) else (FromBigEndian(data[..4]) % 0x4000_0000, 4)
    case _ => if |data| < 8 then (0, 0) else (FromBigEndian(data[..8]) % TWO_62, 8)
  }

  lemma {:induction false} FirstByte(v: nat, n: nat)
    requires n > 0 && v < Pow256(n)
    ensures BigEndian(v, n)[0] == v / Pow256(n - 1)
  {
    if n == 1 {
      assert BigEndian(v, 0) == [] && BigEndian(v, 1) == [v % 256];
    } else {
      FirstByte(v / 256, n - 1);
      DivTwice(v, Pow256(n - 2));
    }
  }

  lemma DivTwice(v: nat, d: nat)
    requires d > 0
    ensures v / 256 / d == v / (256 * d)
  {
    var q, r := v / 256 / d, v / 256 % d;
    assert v == 256 * (d * q + r) + v % 256;
    assert 256 * (d * q + r) == 256 * d * q + 256 * r;
    assert 256 * r + v % 256 < 256 * d;
    DivAtLeast(v, 256 * d, q);
    DivAtMost(v, 256 * d, q);
  }

  // For every 64-bit value and whatever follows it: decoding yields the value modulo 2^62 and
  // consumes exactly the encoding.
  lemma RoundTrip(v: nat, rest: seq<byte>)
    requires v < TWO_64
    ensures Decode(Encode(v) + rest) == (v % TWO_62, EncodedLen(v)) && |Encode(v)| == EncodedLen(v)
  {
    var data := Encode(v) + rest;
    Units();
    if v < 0x40 {
    } else if v < 0x4000 {
      MarkedRoundTrip(0x4000 + v, 2, 1, 0x100, rest);
      Unmark(1, v, 0x4000);
    } else if v < 0x4000_0000 {
      MarkedRoundTrip(0x8000_0000 + v, 4, 2, 0x100_0000, rest);
      Unmark(2, v, 0x4000_0000);
    } else {
      MarkedRoundTrip(3 * TWO_62 + v % TWO_62, 8, 3, 0x100_0000_0000_0000, rest);
      Unmark(3, v % TWO_62, TWO_62);
    }
  }

  lemma Units()
    ensures Pow256(1) == 0x100 && Pow256(3) == 0x100_0000 && Pow256(7) == 0x100_0000_0000_0000
  {
    PowValues();
  }

  lemma Unmark(k: nat, v: nat, m: nat)
    requires v < m
    ensures (k * m + v) % m == v
  {
    DivAtLeast(k * m + v, m, k);
    DivAtMost(k * m + v, m, k);
  }

  // A number of `n` bytes that lies between 64 * k and 64 * (k + 1) times the weight of its first
  // byte is recognised by the two top bits of that byte.
  lemma MarkedRoundTrip(marked: nat, n: nat, k: nat, unit: nat, rest: seq<byte>)
    requires n > 0 && k < 4 && unit == Pow256(n - 1) && 64 * k * unit <= marked < (64 * k + 64) * unit
    ensures var data := BigEndian(marked, n) + rest;
      FromBigEndian(data[..n]) == marked && data[0] / 64 == k && data[..n] == BigEndian(marked, n)
  {
    var data := BigEndian(marked, n) + rest;
    assert data[..n] == BigEndian(marked, n);
    MulMono(64 * k + 64, 256, unit);
    BigEndianRoundTrip(marked, n);
    FirstByte(marked, n);
    DivAtLeast(marked, unit, 64 * k);
    DivAtMost(marked, unit, 64 * k + 63);
  }

  // An encoding that is cut short reads as nothing.
  lemma Truncated(v: nat, j: nat)
    requires v < TWO_64 && j < EncodedLen(v)
    ensures j <= |Encode(v)| && Decode(Encode(v)[..j]) == (0, 0)
  {
    RoundTrip(v, []);
    FirstByteMarks(v);
    if j > 0 {
      assert Encode(v)[..j][0] == Encode(v)[0];
    }
  }

  // The first byte tells the length.
  lemma FirstByteMarks(v: nat)
    requires v < TWO_64
    ensures |Encode(v)| == EncodedLen(v)
    ensures Encode(v)[0] / 64 == if v < 0x40 then 0 else if v < 0x4000 then 1 else if v < 0x4000_0000 then 2 else 3
  {
    Units();
    if v < 0x40 {
    } else if v < 0x4000 {
      MarkedRoundTrip(0x4000 + v, 2, 1, 0x100, []);
    } else if v < 0x4000_0000 {
      MarkedRoundTrip(0x8000_0000 + v, 4, 2, 0x100_0000, []);
    } else {
      MarkedRoundTrip(3 * TWO_62 + v % TWO_62, 8, 3, 0x100_0000_0000_0000, []);
    }
  }

  // The input behind its first varint.
  function Rest(data: seq<byte>): (r: seq<byte>)
    ensures |r| <= |data|
  {
    data[Decode(data).1..]
  }

  lemma ReadBack(v: nat, rest: seq<byte>)
    requires v < TWO_64
    ensures Decode(Encode(v) + rest).0 == v % TWO_62 && Rest(Encode(v) + rest) == rest
  {
    RoundTrip(v, rest);
  }

  lemma ReadBackSmall(v: nat, rest: seq<byte>)
    requires v < TWO_62
    ensures Decode(Encode(v) + rest).0 == v && Rest(Encode(v) + rest) == rest
  {
    ReadBack(v, rest);
  }
}
