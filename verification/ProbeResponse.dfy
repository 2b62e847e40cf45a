// The hand-written reader of PathProbeResponse messages (crates/voip-client/src/nat_probe.rs).
//
// Positions are 64-bit. A length field that pushes the position past 2^64 ends the model with
// `Overflow`; the program panics there, or wraps around in a build without overflow checks.
// The observed address is its UTF-8 bytes.

module ProbeResponse {
  import opened Arith
  import opened Bytes

  // The weight of the `n`-th group of seven bits: 2^(7 n).
  function Weight(n: nat): (r: nat)
    ensures r > 0
  {
    if n == 0 then 1 else 128 * Weight(n - 1)
  }

  // ----- Protobuf varints -------------------------------------------------------------------

  // The low seven bits of `b` as the `g`-th group of a 64-bit number.
  function Group(b: byte, g: nat): nat {
    b % 128 * Weight(g) % TWO_64
  }

  // Reading the groups from the `g`-th on: the value, dropping bits from 64 on, and the bytes
  // consumed. Groups do not overlap, so or-ing them in is adding them up. At most ten are read.
  function ReadVarint(data: seq<byte>, g: nat): (r: (nat, nat))
    ensures r.1 <= |data| && (data != [] ==> r.1 > 0)
    decreases |data|
  {
    if data == [] then (0, 0) else
    var part := Group(data[0], g);
    if data[0] < 128 || 7 * (g + 1) >= 64 then (part, 1) else
    var (value, len) := ReadVarint(data[1..], g + 1);
    (part + value, len + 1)
  }

  method DecodeVarint(data: seq<byte>) returns (value: nat, i: nat)
    ensures (value, i) == ReadVarint(data, 0)
  {
    hide Group;
    value, i := 0, 0;
    var shift := 0;
    while i < |data|
      invariant i <= |data| && shift == 7 * i && (i < |data| ==> shift < 64)
      invariant var (v, n) := ReadVarint(data[i..], i); ReadVarint(data, 0) == (value + v, i + n)
    {
      var b := data[i];
      assert data[i..][1..] == data[i + 1..];
      value := value + Group(b, i);
      i := i + 1;
      if b < 128 {
        break;
      }
      shift := shift + 7;
      if shift >= 64 {
        break;
      }
    }
  }

  // The values that still fit from the `g`-th group on: below 2^(64 - 7 g).
  function Room(g: nat): (r: nat)
    ensures r > 0
    decreases 9 - g
  {
    if g >= 9 then 2 else 128 * Room(g + 1)
  }

  lemma {:induction false} RoomTimesWeight(g: nat)
    requires g <= 9
    ensures Room(g) * Weight(g) == TWO_64
  {
    if g == 0 {
      assert Room(7) == 0x8000 && Room(5) == 0x2000_0000 && Room(3) == 0x800_0000_0000 && Room(1) == TWO_64 / 128;
    } else {
      RoomTimesWeight(g - 1);
      Regroup(Room(g), 0, Weight(g - 1));
    }
  }

  lemma Regroup(q: nat, r: nat, p: nat)
    ensures (128 * q + r) * p == q * (128 * p) + r * p
  {
  }

  // The number that groups of seven bits stand for, the lowest first.
  function Number(groups: seq<byte>): nat {
    if groups == [] then 0 else groups[0] % 128 + 128 * Number(groups[1..])
  }

  // The first `k` bytes are a varint from its `g`-th group on: all but the last are marked as continued, and
  // the last one is unmarked, the tenth group, or the end of the input.
  ghost predicate Spans(data: seq<byte>, g: nat, k: nat) {
    && k <= |data| && k + g <= 10 && (forall i | 0 <= i < k - 1 :: data[i] >= 128)
    && (k == |data| || k + g == 10 || (k > 0 && data[k - 1] < 128))
  }

  // For every byte string: the number in its first varint, modulo 2^64.
  lemma VarintMeans(data: seq<byte>)
    ensures var (v, k) := ReadVarint(data, 0); Spans(data, 0, k) && v == Number(data[..k]) % TWO_64
  {
    RoomTimesWeight(0);
    VarintSpans(data, 0);
    VarintFrom(data, 0);
  }

  lemma {:induction false} VarintSpans(data: seq<byte>, g: nat)
    requires g <= 9
    ensures Spans(data, g, ReadVarint(data, g).1)
    decreases |data|
  {
    hide Group;
    if data == [] || data[0] < 128 || g == 9 {
    } else {
      VarintSpans(data[1..], g + 1);
      var k := ReadVarint(data, g).1;
      assert forall i | 0 < i < k :: data[i] == data[1..][i - 1];
    }
  }

  // The number `n` from the `g`-th group on, dropping bits from 64 on.
  function Placed(n: nat, g: nat): nat {
    n % Room(g) * Weight(g)
  }

  lemma {:induction false} VarintFrom(data: seq<byte>, g: nat)
    requires g <= 9
    ensures var (v, k) := ReadVarint(data, g); v == Placed(Number(data[..k]), g)
    decreases |data|
  {
    hide Placed, Group, Number;
    NoGroups(g);
    if data == [] {
    } else {
      var k := ReadVarint(data, g).1;
      LowGroup(data[0], g);
      FirstGroup(data, k);
      if data[0] < 128 || g == 9 {
      } else {
        VarintFrom(data[1..], g + 1);
        Carry(data[0] % 128, Number(data[1..][..k - 1]), g);
      }
    }
  }

  lemma NoGroups(g: nat)
    ensures Number([]) == 0 && Placed(0, g) == 0
  {
    SmallMod(0, Room(g));
  }

  lemma FirstGroup(data: seq<byte>, k: nat)
    requires 0 < k <= |data|
    ensures Number(data[..k]) == data[0] % 128 + 128 * Number(data[1..][..k - 1])
  {
    assert data[..k][1..] == data[1..][..k - 1];
  }

  lemma LowGroup(b: byte, g: nat)
    requires g <= 9
    ensures Group(b, g) == Placed(b % 128, g)
  {
    hide Room, Weight;
    RoomTimesWeight(g);
    ScaledMod(b % 128, Weight(g), Room(g));
  }

  lemma ScaledMod(x: nat, w: nat, r: nat)
    requires r > 0 && w > 0
    ensures x * w % (r * w) == x % r * w
  {
    MulModSplit(x, 0, w, r);
    assert w * r == r * w;
  }

  lemma RoomStep(g: nat)
    requires g < 9
    ensures Room(g) == 128 * Room(g + 1) && Weight(g + 1) == 128 * Weight(g)
  {
  }

  // A group below what the further groups stand for.
  lemma Carry(d: nat, n: nat, g: nat)
    requires g < 9 && d < 128
    ensures Placed(d, g) + Placed(n, g + 1) == Placed(d + 128 * n, g)
  {
    hide Room, Weight;
    var r, w := Room(g + 1), Weight(g);
    RoomStep(g);
    MulModSplit(n, d, 128, r);
    MulModSplit(0, d, 128, r);
    Regroup(n % r, d, w);
  }

  // Reading back what the LEB128 writer wrote, at any group at which it fits.
  lemma {:induction false} ReadLeb(v: nat, rest: seq<byte>, g: nat)
    requires g <= 9 && v < Room(g)
    ensures ReadVarint(Leb(v) + rest, g) == (v * Weight(g), |Leb(v)|)
    decreases v
  {
    hide Room, Weight, Group;
    var data := Leb(v) + rest;
    Fits(v, g);
    if v >= 128 {
      RoomForRest(v, g);
      ReadLeb(v / 128, rest, g + 1);
      assert data[0] == 128 + v % 128 && data[1..] == Leb(v / 128) + rest;
    }
  }

  lemma Fits(v: nat, g: nat)
    requires g <= 9 && v < Room(g)
    ensures v < 128 ==> Group(v, g) == v * Weight(g)
    ensures Group(128 + v % 128, g) == v % 128 * Weight(g)
  {
    hide Room, Weight, Group;
    var x := v % 128;
    assert (128 + x) % 128 == x;
    LowGroup(128 + x, g);
    SmallMod(x, Room(g));
    if v < 128 {
      LowGroup(v, g);
    }
  }

  lemma SmallMod(v: nat, r: nat)
    requires v < r
    ensures v % r == v
  {
  }

  lemma RoomForRest(v: nat, g: nat)
    requires g <= 9 && 128 <= v < Room(g)
    ensures 7 * (g + 1) < 64 && v / 128 < Room(g + 1)
    ensures v * Weight(g) == v % 128 * Weight(g) + v / 128 * Weight(g + 1)
  {
    Regroup(v / 128, v % 128, Weight(g));
  }

  // ----- The reader -------------------------------------------------------------------------

  datatype Outcome = Overflow | Parsed(ip: seq<byte>, port: nat)

  datatype Next = Stop | Fail | Go(pos: nat, ip: seq<byte>, port: nat)

  // One field, starting at a position inside the message. A slice has fewer than 2^63 bytes, so that only a
  // length can make the position overflow.
  function ReadField(data: seq<byte>, pos: nat, ip: seq<byte>, port: nat): (r: Next)
    requires pos < |data| < TWO_64
    ensures r.Go? ==> r.pos > pos
  {
    var (key, k) := ReadVarint(data[pos..], 0);
    var p := pos + k;
    var field, wire := key / 8 % TWO_32, key % 8;
    var (v, n) := ReadVarint(data[p..], 0);
    if wire == 0 then Go(p + n, ip, if field == 3 then v % TWO_32 else port)
    else if wire == 2 then
      var end := p + n + v;
      if end >= TWO_64 then Fail
      else Go(end, if field == 2 && end <= |data| then data[p + n..end] else ip, port)
    else if wire == 1 then Go(p + 8, ip, port)
    else if wire == 5 then Go(p + 4, ip, port)
    else Stop
  }

  function ReadFrom(data: seq<byte>, pos: nat, ip: seq<byte>, port: nat): Outcome
    requires |data| < TWO_64
    decreases |data| - pos
  {
    if pos >= |data| then Parsed(ip, port % 0x1_0000) else
    match ReadField(data, pos, ip, port)
    case Stop => Parsed(ip, port % 0x1_0000)
    case Fail => Overflow
    case Go(pos', ip', port') => ReadFrom(data, pos', ip', port')
  }

  // The loop as it runs. Every slice it takes is in range, on every input.
  method ParseProbeResponse(data: seq<byte>) returns (r: Outcome)
    requires |data| < TWO_64
    ensures r == ReadFrom(data, 0, [], 0)
  {
    hide ReadVarint;
    var ip: seq<byte>, port: nat, pos: nat := [], 0, 0;
    while pos < |data|
      invariant ReadFrom(data, pos, ip, port) == ReadFrom(data, 0, [], 0)
      decreases |data| - pos
    {
      ghost var next := ReadField(data, pos, ip, port);
      var key, keyLen := DecodeVarint(data[pos..]);
      pos := pos + keyLen;
      var field, wire := key / 8 % TWO_32, key % 8;
      if wire == 0 {
        var v, n := DecodeVarint(data[pos..]);
        if field == 3 {
          port := v % TWO_32;
        }
        pos := pos + n;
      } else if wire == 2 {
        var len, n := DecodeVarint(data[pos..]);
        pos := pos + n;
        var end := pos + len;
        if end >= TWO_64 {
          return Overflow;
        }
        if field == 2 && end <= |data| {
          ip := data[pos..end];
        }
        pos := end;
      } else if wire == 1 || wire == 5 {
        pos := pos + if wire == 1 then 8 else 4;
      } else {
        break;
      }
      assert next == Go(pos, ip, port);
    }
    r := Parsed(ip, port % 0x1_0000);
  }

  // ----- When a position overflows ----------------------------------------------------------

  // Wire type of the field at `pos`, the number behind its key and the offset behind that number.
  function Header(data: seq<byte>, pos: nat): (r: (nat, nat, nat))
    requires pos < |data|
    ensures pos < r.2 <= |data|
  {
    var (key, k) := ReadVarint(data[pos..], 0);
    var (v, n) := ReadVarint(data[pos + k..], 0);
    (key % 8, v, pos + k + n)
  }

  // A string or a message that claims to end at 2^64 or later.
  predicate TooLong(data: seq<byte>, pos: nat) {
    pos < |data| && var (wire, len, payload) := Header(data, pos); wire == 2 && len >= TWO_64 - payload
  }

  // The reader, starting a field at `pos`, comes to start one at `p`.
  predicate Reaches(data: seq<byte>, pos: nat, p: nat)
    requires |data| < TWO_64
    decreases |data| - pos
  {
    pos == p ||
    (pos < |data| && var next := ReadField(data, pos, [], 0); next.Go? && Reaches(data, next.pos, p))
  }

  lemma FieldFailsIff(data: seq<byte>, pos: nat, ip: seq<byte>, port: nat)
    requires pos < |data| < TWO_64
    ensures ReadField(data, pos, ip, port).Fail? <==> TooLong(data, pos)
    ensures var r, r0 := ReadField(data, pos, ip, port), ReadField(data, pos, [], 0);
      (r.Go? <==> r0.Go?) && (r.Go? ==> r.pos == r0.pos)
  {
    hide ReadVarint;
  }

  // For every byte string: a position overflows if and only if the reader comes to a length-delimited field
  // that announces 2^64 less its payload offset or more.
  lemma {:induction false} OverflowIff(data: seq<byte>, pos: nat, ip: seq<byte>, port: nat)
    requires |data| < TWO_64
    ensures ReadFrom(data, pos, ip, port).Overflow? <==> exists p :: Reaches(data, pos, p) && TooLong(data, p)
    decreases |data| - pos
  {
    hide ReadField, TooLong;
    if pos >= |data| {
      NothingBehind(data, pos);
    } else {
      FieldFailsIff(data, pos, ip, port);
      var next := ReadField(data, pos, ip, port);
      if next.Go? {
        OverflowIff(data, next.pos, next.ip, next.port);
        assert forall p | Reaches(data, next.pos, p) :: Reaches(data, pos, p);
      } else if next.Fail? {
        assert Reaches(data, pos, pos);
      }
    }
  }

  lemma NothingBehind(data: seq<byte>, pos: nat)
    requires pos >= |data|
    ensures !TooLong(data, pos)
  {
  }

  // ----- Any sequence of well-formed fields -------------------------------------------------

  datatype Field =
    | VarintField(num: nat, value: nat)
    | BytesField(num: nat, bytes: seq<byte>)
    | Fixed64Field(num: nat, bytes: seq<byte>)
    | Fixed32Field(num: nat, bytes: seq<byte>)

  ghost predicate WellFormed(f: Field) {
    && f.num < TWO_32
    && (f.VarintField? ==> f.value < TWO_64)
    && (f.BytesField? ==> |f.bytes| < TWO_64)
    && (f.Fixed64Field? ==> |f.bytes| == 8) && (f.Fixed32Field? ==> |f.bytes| == 4)
  }

  function EncodeField(f: Field): seq<byte> {
    match f
    case VarintField(num, value) => Leb(num * 8) + Leb(value)
    case BytesField(num, bytes) => Leb(num * 8 + 2) + Leb(|bytes|) + bytes
    case Fixed64Field(num, bytes) => Leb(num * 8 + 1) + bytes
    case Fixed32Field(num, bytes) => Leb(num * 8 + 5) + bytes
  }

  function EncodeFields(fs: seq<Field>): seq<byte> {
    if fs == [] then [] else EncodeField(fs[0]) + EncodeFields(fs[1..])
  }

  // The observed address is field 2, a string; the observed port is field 3, a varint.
  function IpAfter(f: Field, ip: seq<byte>): seq<byte> {
    if f.BytesField? && f.num == 2 then f.bytes else ip
  }

  function PortAfter(f: Field, port: nat): nat {
    if f.VarintField? && f.num == 3 then f.value % TWO_32 else port
  }

  // What a list of fields says, the last one winning.
  function Meaning(fs: seq<Field>, ip: seq<byte>, port: nat): Outcome {
    if fs == [] then Parsed(ip, port % 0x1_0000)
    else Meaning(fs[1..], IpAfter(fs[0], ip), PortAfter(fs[0], port))
  }

  lemma ReadLeb0(v: nat, rest: seq<byte>)
    requires v < TWO_64
    ensures ReadVarint(Leb(v) + rest, 0) == (v, |Leb(v)|)
  {
    RoomTimesWeight(0);
    ReadLeb(v, rest, 0);
  }

  function Wire(f: Field): nat {
    match f
    case VarintField(_, _) => 0
    case BytesField(_, _) => 2
    case Fixed64Field(_, _) => 1
    case Fixed32Field(_, _) => 5
  }

  // The key of a field, and what stands behind it.
  lemma KeyReadBack(f: Field, data: seq<byte>, pos: nat, body: seq<byte>)
    requires f.num < TWO_32 && pos <= |data| && data[pos..] == Leb(f.num * 8 + Wire(f)) + body
    ensures var (key, k) := ReadVarint(data[pos..], 0);
      key / 8 % TWO_32 == f.num && key % 8 == Wire(f) && k == |Leb(f.num * 8 + Wire(f))| && data[pos + k..] == body
  {
    hide Leb, ReadVarint;
    var key := Leb(f.num * 8 + Wire(f));
    ReadLeb0(f.num * 8 + Wire(f), body);
    assert data[pos + |key|..] == data[pos..][|key|..];
  }

  lemma FieldReadBack(f: Field, data: seq<byte>, pos: nat, rest: seq<byte>, ip: seq<byte>, port: nat)
    requires WellFormed(f) && pos < |data| < TWO_64 && data[pos..] == EncodeField(f) + rest
    ensures ReadField(data, pos, ip, port) == Go(pos + |EncodeField(f)|, IpAfter(f, ip), PortAfter(f, port))
  {
    hide Leb, ReadVarint;
    if f.VarintField? {
      assert EncodeField(f) + rest == Leb(f.num * 8) + (Leb(f.value) + rest);
      KeyReadBack(f, data, pos, Leb(f.value) + rest);
      ReadLeb0(f.value, rest);
    } else if f.BytesField? {
      BytesReadBack(f, data, pos, rest, ip, port);
    } else {
      assert EncodeField(f) + rest == Leb(f.num * 8 + Wire(f)) + (f.bytes + rest);
      KeyReadBack(f, data, pos, f.bytes + rest);
    }
  }

  lemma BytesReadBack(f: Field, data: seq<byte>, pos: nat, rest: seq<byte>, ip: seq<byte>, port: nat)
    requires WellFormed(f) && f.BytesField? && pos < |data| < TWO_64 && data[pos..] == EncodeField(f) + rest
    ensures ReadField(data, pos, ip, port) == Go(pos + |EncodeField(f)|, IpAfter(f, ip), port)
  {
    hide Leb, ReadVarint;
    var k, n := Leb(f.num * 8 + 2), Leb(|f.bytes|);
    Parts(data, pos, k, n, f.bytes, rest);
    KeyReadBack(f, data, pos, n + (f.bytes + rest));
    ReadLeb0(|f.bytes|, f.bytes + rest);
  }

  lemma Parts(data: seq<byte>, pos: nat, k: seq<byte>, n: seq<byte>, bytes: seq<byte>, rest: seq<byte>)
    requires pos <= |data| && data[pos..] == k + n + bytes + rest
    ensures data[pos..] == k + (n + (bytes + rest))
    ensures var start := pos + |k| + |n|; start + |bytes| <= |data| && data[start..start + |bytes|] == bytes
  {
    var all, i := data[pos..], |k| + |n|;
    assert |all| == |data| - pos;
    assert data[pos + i..pos + i + |bytes|] == all[i..i + |bytes|] == bytes;
  }

  // What may stand behind the fields: nothing, a field of an unknown wire type and whatever follows it, or a
  // string that is cut short.
  datatype Tail =
    | Nothing
    | Unknown(num: nat, wire: nat, rest: seq<byte>)
    | CutShort(num: nat, len: nat, rest: seq<byte>)

  function EncodeTail(t: Tail): seq<byte> {
    match t
    case Nothing => []
    case Unknown(num, wire, rest) => Leb(num * 8 + wire) + rest
    case CutShort(num, len, rest) => Leb(num * 8 + 2) + (Leb(len) + rest)
  }

  ghost predicate IsTail(t: Tail, size: nat) {
    && (!t.Nothing? ==> t.num < TWO_32)
    && (t.Unknown? ==> t.wire in {3, 4, 6, 7})
    && (t.CutShort? ==> |t.rest| < t.len < TWO_64 && size - |t.rest| + t.len < TWO_64)
  }

  // From such a tail the reader takes nothing.
  lemma TailIgnored(t: Tail, data: seq<byte>, pos: nat, ip: seq<byte>, port: nat)
    requires pos <= |data| < TWO_64 && IsTail(t, |data|) && data[pos..] == EncodeTail(t)
    ensures ReadFrom(data, pos, ip, port) == Parsed(ip, port % 0x1_0000)
  {
    hide Leb, ReadVarint;
    match t
    case Nothing =>
    case Unknown(num, wire, rest) =>
      ReadLeb0(num * 8 + wire, rest);
    case CutShort(num, len, rest) =>
      KeyReadBack(BytesField(num, []), data, pos, Leb(len) + rest);
      ReadLeb0(len, rest);
  }

  lemma FirstField(fs: seq<Field>, tail: seq<byte>)
    requires fs != []
    ensures EncodeField(fs[0]) != []
    ensures EncodeFields(fs) + tail == EncodeField(fs[0]) + (EncodeFields(fs[1..]) + tail)
  {
    hide Leb;
  }

  lemma Behind(data: seq<byte>, pos: nat, e: seq<byte>, rest: seq<byte>)
    requires pos <= |data| && data[pos..] == e + rest
    ensures pos + |e| <= |data| && data[pos + |e|..] == rest
  {
    assert |data[pos..]| == |data| - pos && data[pos..][|e|..] == rest;
  }

  // For every list of well-formed fields, in any order, known or unknown, and such a tail: the reader returns
  // the last observed address and the last observed port.
  lemma {:induction false} ReadsUpToTail(fs: seq<Field>, t: Tail, data: seq<byte>, pos: nat, ip: seq<byte>, port: nat)
    requires (forall i | 0 <= i < |fs| :: WellFormed(fs[i])) && pos <= |data| < TWO_64 && IsTail(t, |data|)
    requires data[pos..] == EncodeFields(fs) + EncodeTail(t)
    ensures ReadFrom(data, pos, ip, port) == Meaning(fs, ip, port)
    decreases |fs|
  {
    hide ReadField, EncodeField, EncodeTail, WellFormed, IpAfter, PortAfter, IsTail;
    if fs == [] {
      assert data[pos..] == EncodeTail(t);
      TailIgnored(t, data, pos, ip, port);
    } else {
      var e, rest := EncodeField(fs[0]), EncodeFields(fs[1..]) + EncodeTail(t);
      FirstField(fs, EncodeTail(t));
      Behind(data, pos, e, rest);
      FieldReadBack(fs[0], data, pos, rest, ip, port);
      ReadsUpToTail(fs[1..], t, data, pos + |e|, IpAfter(fs[0], ip), PortAfter(fs[0], port));
    }
  }

  // In particular without one.
  lemma ReadsMeaning(fs: seq<Field>, data: seq<byte>, pos: nat, ip: seq<byte>, port: nat)
    requires (forall i | 0 <= i < |fs| :: WellFormed(fs[i])) && pos <= |data| < TWO_64
    requires data[pos..] == EncodeFields(fs)
    ensures ReadFrom(data, pos, ip, port) == Meaning(fs, ip, port)
  {
    hide WellFormed, EncodeFields, Meaning, ReadFrom;
    assert EncodeFields(fs) + EncodeTail(Nothing) == EncodeFields(fs);
    ReadsUpToTail(fs, Nothing, data, pos, ip, port);
  }

  lemma FieldIgnored(f: Field, after: seq<Field>, ip: seq<byte>, port: nat)
    requires !(f.BytesField? && f.num == 2) && !(f.VarintField? && f.num == 3)
    ensures Meaning([f] + after, ip, port) == Meaning(after, ip, port)
  {
    assert ([f] + after)[1..] == after;
  }

  lemma {:induction false} MeaningIgnores(before: seq<Field>, f: Field, after: seq<Field>, ip: seq<byte>, port: nat)
    requires !(f.BytesField? && f.num == 2) && !(f.VarintField? && f.num == 3)
    ensures Meaning(before + [f] + after, ip, port) == Meaning(before + after, ip, port)
  {
    hide IpAfter, PortAfter, Meaning;
    if before == [] {
      assert before + [f] + after == [f] + after && before + after == after;
      FieldIgnored(f, after, ip, port);
    } else {
      var g, rest := before[0], before[1..];
      MeaningIgnores(rest, f, after, IpAfter(g, ip), PortAfter(g, port));
      assert before + [f] + after == [g] + (rest + [f] + after) && before + after == [g] + (rest + after);
      MeaningStep(g, rest + [f] + after, ip, port);
      MeaningStep(g, rest + after, ip, port);
    }
  }

  lemma MeaningStep(g: Field, rest: seq<Field>, ip: seq<byte>, port: nat)
    ensures Meaning([g] + rest, ip, port) == Meaning(rest, IpAfter(g, ip), PortAfter(g, port))
  {
    assert ([g] + rest)[1..] == rest;
  }

  lemma {:induction false} EncodeConcat(a: seq<Field>, b: seq<Field>)
    ensures EncodeFields(a + b) == EncodeFields(a) + EncodeFields(b)
  {
    hide EncodeField;
    if a == [] {
      assert a + b == b;
    } else {
      var e, x, y := EncodeField(a[0]), EncodeFields(a[1..]), EncodeFields(b);
      EncodeConcat(a[1..], b);
      assert (a + b)[1..] == a[1..] + b && (a + b)[0] == a[0];
      assert EncodeFields(a + b) == e + (x + y) == e + x + y;
    }
  }

  // Inserting any well-formed field other than the observed address and port, anywhere in a message,
  // does not change what the reader returns.
  lemma UnknownFieldsIgnored(before: seq<Field>, f: Field, after: seq<Field>)
    requires forall g | g in before + [f] + after :: WellFormed(g)
    requires |EncodeFields(before + [f] + after)| < TWO_64
    requires !(f.BytesField? && f.num == 2) && !(f.VarintField? && f.num == 3)
    ensures |EncodeFields(before + after)| < TWO_64
    ensures ReadFrom(EncodeFields(before + [f] + after), 0, [], 0) == ReadFrom(EncodeFields(before + after), 0, [], 0)
  {
    hide EncodeFields, ReadFrom, Meaning, WellFormed;
    EncodeConcat(before, [f] + after);
    EncodeConcat([f], after);
    EncodeConcat(before, after);
    assert before + [f] + after == before + ([f] + after);
    var with, without := EncodeFields(before + [f] + after), EncodeFields(before + after);
    assert with[0..] == with && without[0..] == without;
    assert forall g | g in before + after :: g in before + [f] + after;
    ReadsMeaning(before + [f] + after, with, 0, [], 0);
    ReadsMeaning(before + after, without, 0, [], 0);
    MeaningIgnores(before, f, after, [], 0);
  }

  // The shortest message about an address: a key and a length, and nothing behind them. It overflows if
  // and only if the length is 2^64 less its own size or more.
  lemma LengthOverflowsIff(len: nat)
    requires len < TWO_64
    ensures var data := Leb(2 * 8 + 2) + Leb(len);
      |data| < TWO_64 && (ReadFrom(data, 0, [], 0).Overflow? <==> len >= TWO_64 - |data|)
  {
    hide ReadVarint;
    var data := Leb(2 * 8 + 2) + Leb(len);
    LebShort(len);
    assert |Leb(2 * 8 + 2)| == 1 && data[0..] == data;
    hide Leb;
    KeyReadBack(BytesField(2, []), data, 0, Leb(len));
    ReadLeb0(len, []);
    assert Leb(len) + [] == Leb(len);
  }

  lemma LebShort(v: nat)
    requires v < TWO_64
    ensures |Leb(v)| <= 10
  {
    LebShorter(v, 0);
  }

  lemma {:induction false} LebShorter(v: nat, g: nat)
    requires g <= 9 && v < Room(g)
    ensures |Leb(v)| <= 10 - g
    decreases v
  {
    if v < 128 {
    } else {
      RoomForRest(v, g);
      LebShorter(v / 128, g + 1);
    }
  }

  // A message that carries one address and one port yields them, in whatever order and among
  // whatever other fields they come.
  lemma RecoversAddress(fs: seq<Field>, address: seq<byte>, observed: nat)
    requires (forall i | 0 <= i < |fs| :: WellFormed(fs[i])) && |EncodeFields(fs)| < TWO_64 && observed < 0x1_0000
    requires BytesField(2, address) in fs && VarintField(3, observed) in fs
    requires forall f | f in fs :: (f.BytesField? && f.num == 2 ==> f.bytes == address) &&
                                   (f.VarintField? && f.num == 3 ==> f.value == observed)
    ensures ReadFrom(EncodeFields(fs), 0, [], 0) == Parsed(address, observed)
  {
    var data := EncodeFields(fs);
    assert data[0..] == data;
    ReadsMeaning(fs, data, 0, [], 0);
    MeaningOfUnique(fs, address, observed, [], 0);
  }

  lemma {:induction false} MeaningOfUnique(fs: seq<Field>, address: seq<byte>, observed: nat, ip: seq<byte>, port: nat)
    requires observed < 0x1_0000
    requires ip == address || BytesField(2, address) in fs
    requires port == observed || VarintField(3, observed) in fs
    requires forall f | f in fs :: (f.BytesField? && f.num == 2 ==> f.bytes == address) &&
                                   (f.VarintField? && f.num == 3 ==> f.value == observed)
    ensures Meaning(fs, ip, port) == Parsed(address, observed)
    decreases |fs|
  {
    if fs == [] {
    } else {
      assert fs == [fs[0]] + fs[1..];
      MeaningOfUnique(fs[1..], address, observed, IpAfter(fs[0], ip), PortAfter(fs[0], port));
    }
  }
}
