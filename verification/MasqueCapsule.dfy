// DATAGRAM capsules of the MASQUE tunnel (crates/voip-client/src/masque.rs; sections 3.2 and 3.5 of
// RFC 9297). The encoder writes its numbers in LEB128, the decoder reads the varints of section 16 of
// RFC 9000.

module MasqueCapsule {
  import opened Arith
  import opened Bytes
  import opened QuicVarint

  // ----- The encoder ------------------------------------------------------------------------

  method EncodeVarint(buf: seq<byte>, value: nat) returns (out: seq<byte>)
    ensures out == buf + Leb(value)
  {
    out := buf;
    var v := value;
    while true
      invariant out + Leb(v) == buf + Leb(value)
      decreases v
    {
      var low := v % 128;
      v := v / 128;
      if v != 0 {
        low := low + 128;
      }
      out := out + [low];
      if v == 0 {
        break;
      }
    }
  }

  method VarintLen(value: nat) returns (len: nat)
    ensures len == |Leb(value)|
  {
    len := 1;
    var v := value;
    while v > 127
      invariant len + |Leb(v)| == |Leb(value)| + 1
      decreases v
    {
      v := v / 128;
      len := len + 1;
    }
  }

  function EncodeCapsule(packet: seq<byte>): seq<byte> {
    Leb(0) + Leb(|Leb(0)| + |packet|) + Leb(0) + packet
  }

  method BuildCapsule(packet: seq<byte>) returns (capsule: seq<byte>)
    ensures capsule == EncodeCapsule(packet)
  {
    var idLen := VarintLen(0);
    capsule := EncodeVarint([], 0);
    capsule := EncodeVarint(capsule, idLen + |packet|);
    capsule := EncodeVarint(capsule, 0);
    capsule := capsule + packet;
  }

  // ----- The decoder ------------------------------------------------------------------------

  // Slicing with a start behind the end panics.
  datatype Outcome = Ok(packet: seq<byte>) | BadType(got: nat) | Truncated(end: nat) | Panic

  function DecodeCapsule(data: seq<byte>): Outcome {
    var (kind, a) := Decode(data);
    if kind != 0 then BadType(kind) else
    var (len, b) := Decode(data[a..]);
    var (_, q) := Decode(data[a + b..]);
    var pos := a + b + q;
    var end := pos + len - q;
    if end > |data| then Truncated(end) else if end < pos then Panic else Ok(data[pos..end])
  }

  // ----- Where the two encodings agree ------------------------------------------------------

  lemma {:induction false} FromBigEndianHead(s: seq<byte>)
    requires s != []
    ensures FromBigEndian(s) == s[0] * Pow256(|s| - 1) + FromBigEndian(s[1..])
  {
    if |s| == 1 {
      assert s[..0] == [] && s[1..] == [];
    } else {
      var init := s[..|s| - 1];
      FromBigEndianHead(init);
      assert s[1..][..|s| - 2] == init[1..];
      assert (s[0] * Pow256(|s| - 2)) * 256 == s[0] * Pow256(|s| - 1);
    }
  }

  // Whatever the first byte is, clearing its two top bits leaves at least the weight of the second.
  lemma ClearedAtLeast(s: seq<byte>, top: nat)
    requires |s| >= 2 && s[1] >= 1 && top == 64 * Pow256(|s| - 1)
    ensures FromBigEndian(s) % top >= Pow256(|s| - 2)
  {
    hide Pow256, FromBigEndian;
    var rest := s[1..];
    FromBigEndianHead(s);
    FromBigEndianHead(rest);
    FromBigEndianBound(rest);
    MulMono(1, s[1], Pow256(|s| - 2));
    ClearTop(s[0], Pow256(|s| - 1), FromBigEndian(rest));
    MulMono(0, s[0] % 64, Pow256(|s| - 1));
  }

  lemma ClearTop(b: nat, unit: nat, r: nat)
    requires r < unit
    ensures (b * unit + r) % (64 * unit) == b % 64 * unit + r
  {
    var q, m := b / 64, b % 64;
    MulMono(m + 1, 64, unit);
    Distribute(m, 1, unit);
    Split(q, m, unit);
    Unmark(q, m * unit + r, 64 * unit);
  }

  lemma Split(q: nat, m: nat, unit: nat)
    ensures (64 * q + m) * unit == q * (64 * unit) + m * unit
  {
  }

  // A LEB128 length of two bytes or more reads as a number of at least 65536.
  lemma LongLengthMisread(data: seq<byte>)
    requires |data| >= 8 && data[0] >= 128 && data[1] >= 1
    ensures Decode(data).0 >= 0x1_0000 && Decode(data).1 >= 4
  {
    PowValues();
    Units();
    assert Pow256(6) == 0x1_0000_0000_0000;
    if data[0] / 64 == 2 {
      ClearedAtLeast(data[..4], 0x4000_0000);
    } else {
      ClearedAtLeast(data[..8], TWO_62);
    }
  }

  lemma LongLebShape(v: nat)
    requires 128 <= v < 0x20_0000
    ensures 2 <= |Leb(v)| <= 3 && Leb(v)[0] >= 128 && Leb(v)[1] >= 1
  {
    assert Leb(v) == [128 + v % 128] + Leb(v / 128);
    if v / 128 >= 128 {
      assert Leb(v / 128) == [128 + v / 128 % 128] + Leb(v / 128 / 128);
    }
  }

  // For every packet of at most 65535 bytes: the decoder returns it exactly when it has at most 62
  // bytes, panics exactly on 63 bytes, and calls every longer one truncated.
  lemma CapsuleRoundTripIff(packet: seq<byte>)
    requires |packet| <= 65535
    ensures var r := DecodeCapsule(EncodeCapsule(packet));
      && (r == Ok(packet) <==> |packet| <= 62)
      && (r == Panic <==> |packet| == 63)
      && (r.Truncated? <==> |packet| >= 64)
  {
    if |packet| < 63 {
      ShortCapsule(packet);
    } else if |packet| < 127 {
      MiddleCapsule(packet);
    } else {
      LongCapsule(packet);
    }
  }

  lemma ShortCapsule(packet: seq<byte>)
    requires |packet| <= 62
    ensures DecodeCapsule(EncodeCapsule(packet)) == Ok(packet)
  {
    var n := 1 + |packet|;
    var data := EncodeCapsule(packet);
    assert data == [0, n, 0] + packet;
    assert data[1..][0] == n && data[2..][0] == 0 && data[3..] == packet;
  }

  lemma MiddleCapsule(packet: seq<byte>)
    requires 63 <= |packet| <= 126
    ensures var r := DecodeCapsule(EncodeCapsule(packet)); if |packet| == 63 then r == Panic else r.Truncated?
  {
    var n := 1 + |packet|;
    var data := EncodeCapsule(packet);
    assert data == [0, n, 0] + packet;
    assert data[1..][..2] == [n, 0];
    TwoBytes(n, 0);
    assert data[3..] == packet;
  }

  lemma LongCapsule(packet: seq<byte>)
    requires 127 <= |packet| <= 65535
    ensures DecodeCapsule(EncodeCapsule(packet)).Truncated?
  {
    hide Decode;
    var n := 1 + |packet|;
    var data := EncodeCapsule(packet);
    assert Leb(0) == [0] && data == [0] + (Leb(n) + [0] + packet);
    assert Decode(data) == (0, 1) by {
      OneByte(data);
    }
    LongLebShape(n);
    assert data[1..][0] == Leb(n)[0] && data[1..][1] == Leb(n)[1];
    LongLengthMisread(data[1..]);
  }

  lemma OneByte(data: seq<byte>)
    requires data != [] && data[0] < 64
    ensures Decode(data) == (data[0], 1)
  {
  }

  lemma TwoBytes(a: byte, b: byte)
    ensures FromBigEndian([a, b]) == 256 * a + b
  {
    assert [a, b][..1] == [a] && [a][..0] == [] && FromBigEndian([a]) == a;
  }

  // ----- Every byte string ------------------------------------------------------------------

  // `data` is a type, a length `n`, a stream id and a rest, each number as long as the decoder reads it.
  ghost predicate Splits(data: seq<byte>, kind: nat, n: nat, t: seq<byte>, l: seq<byte>, id: seq<byte>, rest: seq<byte>) {
    && data == t + l + id + rest
    && Decode(data) == (kind, |t|) && Decode(l + id + rest) == (n, |l|) && Decode(id + rest).1 == |id|
  }

  // For every byte string: the type decides first, then the length is held against what is there.
  lemma DecodesTo(data: seq<byte>, kind: nat, n: nat, t: seq<byte>, l: seq<byte>, id: seq<byte>, rest: seq<byte>)
    requires Splits(data, kind, n, t, l, id, rest)
    ensures var r := DecodeCapsule(data);
      if kind != 0 then r == BadType(kind)
      else if n > |id| + |rest| then r == Truncated(|t| + |l| + n)
      else if n < |id| then r == Panic
      else r == Ok(rest[..n - |id|])
  {
    hide Decode;
    assert data[|t|..] == l + id + rest && data[|t| + |l|..] == id + rest;
    var pos := |t| + |l| + |id|;
    if kind == 0 && |id| <= n <= |id| + |rest| {
      assert data[pos..pos + n - |id|] == rest[..n - |id|];
    }
  }

  // And every byte string splits so, in one way.
  lemma SplitExists(data: seq<byte>)
    returns (kind: nat, n: nat, t: seq<byte>, l: seq<byte>, id: seq<byte>, rest: seq<byte>)
    ensures Splits(data, kind, n, t, l, id, rest)
  {
    hide Decode;
    kind, t := Decode(data).0, data[..Decode(data).1];
    var d1 := data[|t|..];
    n, l := Decode(d1).0, d1[..Decode(d1).1];
    var d2 := d1[|l|..];
    id, rest := d2[..Decode(d2).1], d2[Decode(d2).1..];
    assert id + rest == d2 && l + id + rest == d1 && t + l + id + rest == data;
  }

  // A capsule written with the varints of section 16 of RFC 9000 is understood, whatever the packet, the
  // stream id and what follows it; one of another type is refused.
  lemma ConformingCapsule(kind: nat, id: nat, packet: seq<byte>, rest: seq<byte>)
    requires kind < TWO_62 && id < TWO_62 && |packet| + 8 < TWO_62
    ensures var n := |Encode(id)| + |packet|;
      n < TWO_62 &&
      DecodeCapsule(Encode(kind) + Encode(n) + Encode(id) + (packet + rest)) ==
      if kind == 0 then Ok(packet) else BadType(kind)
  {
    hide Encode, Decode, DecodeCapsule;
    RoundTrip(id, packet + rest);
    var n := |Encode(id)| + |packet|;
    var t, l, i := Encode(kind), Encode(n), Encode(id);
    RoundTrip(kind, l + i + (packet + rest));
    RoundTrip(n, i + (packet + rest));
    assert t + l + i + (packet + rest) == t + (l + i + (packet + rest));
    assert l + i + (packet + rest) == l + (i + (packet + rest));
    DecodesTo(t + l + i + (packet + rest), kind, n, t, l, i, packet + rest);
    assert (packet + rest)[..|packet|] == packet;
  }
}
