// Base64 and base64url (sections 4 and 5 of RFC 4648) as written by hand in
// crates/voip-client/src/proxy.rs, crates/voip-signaling/src/handlers.rs and
// crates/voip-signaling/src/jwt.rs. Shifts and masks of disjoint bit groups are written as
// multiplications, divisions and remainders.

module Base64 {
  import opened Arith
  import opened Bytes
  import opened Wrappers

  datatype Result<+T> = Ok(value: T) | InvalidCharacter(c: char)

  type sextet = x: int | 0 <= x < 64

  // ----- Alphabets --------------------------------------------------------------------------

  // A-Z, a-z, 0-9 and the two characters in which the alphabets differ.
  datatype Alphabet = Alphabet(c62: char, c63: char)

  const STANDARD := Alphabet('+', '/')
  const URL_SAFE := Alphabet('-', '_')

  function CharOf(a: Alphabet, v: sextet): char {
    if v < 26 then (v + 65) as char
    else if v < 52 then (v + 71) as char
    else if v < 62 then (v - 4) as char
    else if v == 62 then a.c62 else a.c63
  }

  // The position of a character in the alphabet.
  function ValueOf(a: Alphabet, c: char): Option<sextet> {
    if 'A' <= c <= 'Z' then Some(c as int - 65)
    else if 'a' <= c <= 'z' then Some(c as int - 71)
    else if '0' <= c <= '9' then Some(c as int + 4)
    else if c == a.c62 then Some(62)
    else if c == a.c63 then Some(63)
    else None
  }

  lemma AlphabetInverse(a: Alphabet, v: sextet)
    requires a == STANDARD || a == URL_SAFE
    ensures ValueOf(a, CharOf(a, v)) == Some(v) && CharOf(a, v) != '=' && CharOf(a, v) != '.'
  {
  }

  // ----- Encoding ---------------------------------------------------------------------------

  // The six-bit groups of a byte string, the last one filled up with zero bits.
  function Sextets(data: seq<byte>): seq<sextet> {
    if data == [] then []
    else if |data| == 1 then [data[0] / 4, data[0] % 4 * 16]
    else if |data| == 2 then [data[0] / 4, data[0] % 4 * 16 + data[1] / 16, data[1] % 16 * 4]
    else Block(data[0], data[1], data[2]) + Sextets(data[3..])
  }

  function Block(b0: byte, b1: byte, b2: byte): seq<sextet> {
    [b0 / 4, b0 % 4 * 16 + b1 / 16, b1 % 16 * 4 + b2 / 64, b2 % 64]
  }

  function Text(a: Alphabet, s: seq<sextet>): string {
    if s == [] then "" else [CharOf(a, s[0])] + Text(a, s[1..])
  }

  function Padding(data: seq<byte>): string {
    if |data| % 3 == 0 then "" else if |data| % 3 == 1 then "==" else "="
  }

  function Encode(data: seq<byte>): string {
    Text(STANDARD, Sextets(data)) + Padding(data)
  }

  function EncodeUrl(data: seq<byte>): string {
    Text(URL_SAFE, Sextets(data))
  }

  lemma {:induction false} TextConcat(a: Alphabet, s: seq<sextet>, t: seq<sextet>)
    ensures Text(a, s + t) == Text(a, s) + Text(a, t)
  {
    if s == [] {
      assert s + t == t;
    } else {
      TextConcat(a, s[1..], t);
      assert (s + t)[1..] == s[1..] + t;
    }
  }

  // Encoding proceeds in chunks of three bytes.
  lemma EncodeChunk(data: seq<byte>)
    requires |data| > 3
    ensures Encode(data) == Encode(data[..3]) + Encode(data[3..])
    ensures EncodeUrl(data) == EncodeUrl(data[..3]) + EncodeUrl(data[3..])
  {
    hide CharOf;
    var s := Block(data[0], data[1], data[2]);
    assert Sextets(data[..3]) == s + Sextets(data[..3][3..]) == s;
    TextConcat(STANDARD, s, Sextets(data[3..]));
    TextConcat(URL_SAFE, s, Sextets(data[3..]));
  }

  // The encoder of the proxy tokens: chunks of three bytes packed into a 24-bit number.
  method ProxyEncode(data: seq<byte>) returns (result: string)
    ensures result == Encode(data)
  {
    hide Encode, EncodeUrl, CharOf;
    result := "";
    var i := 0;
    EmptyText();
    while i < |data|
      invariant i <= |data| && result + Encode(data[i..]) == Encode(data)
    {
      var chunk := if i + 3 <= |data| then data[i..i + 3] else data[i..];
      var b0 := chunk[0];
      var b1 := if |chunk| > 1 then chunk[1] else 0;
      var b2 := if |chunk| > 2 then chunk[2] else 0;
      var triple: nat := (b0 as int) * 65536 + (b1 as int) * 256 + b2;
      var quad := [CharOf(STANDARD, triple / 262144 % 64), CharOf(STANDARD, triple / 4096 % 64)];
      quad := quad + [if |chunk| > 1 then CharOf(STANDARD, triple / 64 % 64) else '='];
      quad := quad + [if |chunk| > 2 then CharOf(STANDARD, triple % 64) else '='];
      TripleSplits(b0, b1, b2);
      QuadIs(chunk, quad);
      NextChunk(data, i, chunk);
      result := result + quad;
      i := i + |chunk|;
    }
    assert data[i..] == [];
  }

  // The encoder of the REST handlers: the same text, computed without the 24-bit number.
  method HandlerEncode(data: seq<byte>) returns (result: string)
    ensures result == Encode(data)
  {
    hide Encode, EncodeUrl, CharOf;
    result := "";
    var i := 0;
    EmptyText();
    while i < |data|
      invariant i <= |data| && result + Encode(data[i..]) == Encode(data)
    {
      var b0 := data[i];
      var b1 := if i + 1 < |data| then data[i + 1] else 0;
      var b2 := if i + 2 < |data| then data[i + 2] else 0;
      var quad := [CharOf(STANDARD, b0 / 4 % 64), CharOf(STANDARD, b0 % 4 * 16 + b1 / 16 % 16)];
      quad := quad + [if i + 1 < |data| then CharOf(STANDARD, b1 % 16 * 4 + b2 / 64 % 4) else '='];
      quad := quad + [if i + 2 < |data| then CharOf(STANDARD, b2 % 64) else '='];
      ghost var chunk := if i + 3 <= |data| then data[i..i + 3] else data[i..];
      QuadIs(chunk, quad);
      NextChunk(data, i, chunk);
      result := result + quad;
      i := if i + 3 <= |data| then i + 3 else |data|;
    }
    assert data[i..] == [];
  }

  // One to three bytes in the other alphabet, without padding.
  method JwtGroup(chunk: seq<byte>) returns (part: string)
    requires 1 <= |chunk| <= 3
    ensures part == EncodeUrl(chunk)
  {
    UrlQuadIs(chunk);
    hide EncodeUrl, CharOf;
    var b0 := chunk[0];
    var b1 := if |chunk| > 1 then chunk[1] else 0;
    var b2 := if |chunk| > 2 then chunk[2] else 0;
    QuotientsFit(b0, b1, b2);
    part := [CharOf(URL_SAFE, b0 / 4 % 64)];
    if |chunk| == 1 {
      return part + [CharOf(URL_SAFE, b0 % 4 * 16)];
    }
    part := part + [CharOf(URL_SAFE, b0 % 4 * 16 + b1 / 16 % 16)];
    if |chunk| == 2 {
      return part + [CharOf(URL_SAFE, b1 % 16 * 4)];
    }
    part := part + [CharOf(URL_SAFE, b1 % 16 * 4 + b2 / 64 % 4)];
    part := part + [CharOf(URL_SAFE, b2 % 64)];
  }

  // The encoder of the JWTs: a group of fewer than three bytes is the last one.
  method JwtEncode(data: seq<byte>) returns (result: string)
    ensures result == EncodeUrl(data)
  {
    hide EncodeUrl, Encode;
    result := "";
    var i := 0;
    EmptyText();
    while i < |data|
      invariant i <= |data| && result + EncodeUrl(data[i..]) == EncodeUrl(data)
      decreases |data| - i
    {
      var chunk := if i + 3 <= |data| then data[i..i + 3] else data[i..];
      var part := JwtGroup(chunk);
      NextChunk(data, i, chunk);
      result := result + part;
      i := i + |chunk|;
    }
    assert data[i..] == [];
  }

  lemma QuotientsFit(b0: byte, b1: byte, b2: byte)
    ensures b0 / 4 % 64 == b0 / 4 && b1 / 16 % 16 == b1 / 16 && b2 / 64 % 4 == b2 / 64
  {
  }

  lemma EmptyText()
    ensures Encode([]) == "" && EncodeUrl([]) == ""
  {
  }

  lemma TripleSplits(b0: nat, b1: nat, b2: nat)
    requires b0 < 256 && b1 < 256 && b2 < 256
    ensures var triple := b0 * 65536 + b1 * 256 + b2;
      && triple / 262144 % 64 == b0 / 4 && triple / 4096 % 64 == b0 % 4 * 16 + b1 / 16
      && triple / 64 % 64 == b1 % 16 * 4 + b2 / 64 && triple % 64 == b2 % 64
  {
    var triple := b0 * 65536 + b1 * 256 + b2;
    DivMod(triple, 262144, b0 / 4, b0 % 4 * 65536 + b1 * 256 + b2);
    DivMod(triple, 4096, b0 * 16 + b1 / 16, b1 % 16 * 256 + b2);
    DivMod(b0 * 16 + b1 / 16, 64, b0 / 4, b0 % 4 * 16 + b1 / 16);
    DivMod(triple, 64, b0 * 1024 + b1 * 4 + b2 / 64, b2 % 64);
    DivMod(b0 * 1024 + b1 * 4 + b2 / 64, 64, b0 * 16 + b1 / 16, b1 % 16 * 4 + b2 / 64);
  }

  lemma QuadIs(chunk: seq<byte>, quad: string)
    requires 1 <= |chunk| <= 3 && |quad| == 4
    requires var b0 := chunk[0];
      var b1 := if |chunk| > 1 then chunk[1] else 0;
      var b2 := if |chunk| > 2 then chunk[2] else 0;
      && quad[0] == CharOf(STANDARD, b0 / 4) && quad[1] == CharOf(STANDARD, b0 % 4 * 16 + b1 / 16)
      && quad[2] == (if |chunk| > 1 then CharOf(STANDARD, b1 % 16 * 4 + b2 / 64) else '=')
      && quad[3] == (if |chunk| > 2 then CharOf(STANDARD, b2 % 64) else '=')
    ensures quad == Encode(chunk)
  {
    var s := Sextets(chunk);
    if |chunk| == 3 {
      assert chunk[3..] == [] && Sextets([]) == [];
      assert s == Block(chunk[0], chunk[1], chunk[2]) + [] == Block(chunk[0], chunk[1], chunk[2]);
      Text4(STANDARD, s);
    } else if |chunk| == 2 {
      Text3(STANDARD, s);
    } else {
      Text2(STANDARD, s);
    }
  }

  lemma UrlQuadIs(chunk: seq<byte>)
    requires 1 <= |chunk| <= 3
    ensures EncodeUrl(chunk) ==
      if |chunk| == 1 then [CharOf(URL_SAFE, chunk[0] / 4), CharOf(URL_SAFE, chunk[0] % 4 * 16)]
      else if |chunk| == 2 then [CharOf(URL_SAFE, chunk[0] / 4), CharOf(URL_SAFE, chunk[0] % 4 * 16 + chunk[1] / 16),
                                 CharOf(URL_SAFE, chunk[1] % 16 * 4)]
      else [CharOf(URL_SAFE, chunk[0] / 4), CharOf(URL_SAFE, chunk[0] % 4 * 16 + chunk[1] / 16),
            CharOf(URL_SAFE, chunk[1] % 16 * 4 + chunk[2] / 64), CharOf(URL_SAFE, chunk[2] % 64)]
  {
    var s := Sextets(chunk);
    if |chunk| == 3 {
      assert chunk[3..] == [] && Sextets([]) == [];
      assert s == Block(chunk[0], chunk[1], chunk[2]) + [] == Block(chunk[0], chunk[1], chunk[2]);
      Text4(URL_SAFE, s);
    } else if |chunk| == 2 {
      Text3(URL_SAFE, s);
    } else {
      Text2(URL_SAFE, s);
    }
  }

  lemma Text2(a: Alphabet, s: seq<sextet>)
    requires |s| == 2
    ensures Text(a, s) == [CharOf(a, s[0]), CharOf(a, s[1])]
  {
    assert s[1..] == [s[1]] && s[1..][1..] == [] && Text(a, []) == "";
    assert Text(a, s[1..]) == [CharOf(a, s[1])] + "";
  }

  lemma Text3(a: Alphabet, s: seq<sextet>)
    requires |s| == 3
    ensures Text(a, s) == [CharOf(a, s[0]), CharOf(a, s[1]), CharOf(a, s[2])]
  {
    Text2(a, s[1..]);
  }

  lemma Text4(a: Alphabet, s: seq<sextet>)
    requires |s| == 4
    ensures Text(a, s) == [CharOf(a, s[0]), CharOf(a, s[1]), CharOf(a, s[2]), CharOf(a, s[3])]
  {
    Text3(a, s[1..]);
  }

  lemma NextChunk(data: seq<byte>, i: nat, chunk: seq<byte>)
    requires i < |data| && chunk == if i + 3 <= |data| then data[i..i + 3] else data[i..]
    ensures Encode(data[i..]) == Encode(chunk) + Encode(data[i + |chunk|..])
    ensures EncodeUrl(data[i..]) == EncodeUrl(chunk) + EncodeUrl(data[i + |chunk|..])
  {
    hide Encode, EncodeUrl;
    EmptyText();
    if i + 3 < |data| {
      EncodeChunk(data[i..]);
      assert data[i..][..3] == chunk && data[i..][3..] == data[i + 3..];
    } else {
      assert data[i..] == chunk && data[i + |chunk|..] == [];
    }
  }

  // The JWT text is the standard one with its padding dropped and two characters exchanged.
  lemma UrlIsStandardUnpadded(data: seq<byte>)
    ensures EncodeUrl(data) == Swapped(TrimPadding(Encode(data)))
  {
    var s := Sextets(data);
    NoPaddingInside(s);
    TrimText(Text(STANDARD, s), Padding(data));
    SwapText(s);
  }

  function Swapped(t: string): string {
    if t == "" then "" else [if t[0] == '+' then '-' else if t[0] == '/' then '_' else t[0]] + Swapped(t[1..])
  }

  // `trim_end_matches('=')`
  function TrimPadding(t: string): string {
    if t != "" && t[|t| - 1] == '=' then TrimPadding(t[..|t| - 1]) else t
  }

  lemma {:induction false} NoPaddingInside(s: seq<sextet>)
    ensures forall i | 0 <= i < |Text(STANDARD, s)| :: Text(STANDARD, s)[i] != '='
    ensures forall i | 0 <= i < |Text(URL_SAFE, s)| :: Text(URL_SAFE, s)[i] != '=' && Text(URL_SAFE, s)[i] != '.'
  {
    if s == [] {
    } else {
      NoPaddingInside(s[1..]);
      AlphabetInverse(STANDARD, s[0]);
      AlphabetInverse(URL_SAFE, s[0]);
    }
  }

  lemma {:induction false} TrimText(t: string, pad: string)
    requires (forall i | 0 <= i < |t| :: t[i] != '=') && (forall i | 0 <= i < |pad| :: pad[i] == '=')
    ensures TrimPadding(t + pad) == t
  {
    if pad == "" {
      assert t + pad == t;
    } else {
      assert (t + pad)[..|t + pad| - 1] == t + pad[..|pad| - 1];
      TrimText(t, pad[..|pad| - 1]);
    }
  }

  lemma {:induction false} SwapText(s: seq<sextet>)
    ensures Swapped(Text(STANDARD, s)) == Text(URL_SAFE, s)
  {
    if s == [] {
    } else {
      SwapText(s[1..]);
    }
  }

  // ----- Decoding ---------------------------------------------------------------------------

  // One character of the streaming decoder: six bits enter a 32-bit buffer, and a byte leaves it
  // as soon as eight bits are there.
  function Push(buffer: nat, v: sextet): nat {
    (buffer * 64 + v) % TWO_32
  }

  function Scale(bits: nat): nat {
    if bits == 0 then 1 else if bits == 2 then 4 else if bits == 4 then 16 else 64
  }

  // `bits` is 0, 2, 4 or 6 between characters; shifting right by it divides by its scale.
  function Decoded(a: Alphabet, t: string, buffer: nat, bits: nat): Result<seq<byte>>
    requires bits % 2 == 0 && bits <= 6
    decreases |t|
  {
    if t == "" then Ok([]) else
    match ValueOf(a, t[0])
    case None => InvalidCharacter(t[0])
    case Some(v) =>
      var b := Push(buffer, v);
      if bits == 0 then Decoded(a, t[1..], b, 6)
      else Prepend([b / Scale(bits - 2) % 256], Decoded(a, t[1..], b, bits - 2))
  }

  function Prepend(s: seq<byte>, r: Result<seq<byte>>): Result<seq<byte>> {
    if r.Ok? then Ok(s + r.value) else r
  }

  lemma PrependConcat(s: seq<byte>, t: seq<byte>, r: Result<seq<byte>>)
    ensures Prepend([], r) == r && Prepend(s + t, r) == Prepend(s, Prepend(t, r))
  {
    if r.Ok? {
      assert [] + r.value == r.value && s + t + r.value == s + (t + r.value);
    }
  }

  method Decode(a: Alphabet, input: string) returns (r: Result<seq<byte>>)
    ensures r == Decoded(a, TrimPadding(input), 0, 0)
  {
    hide Push, ValueOf, TrimPadding;
    var t := TrimPadding(input);
    assert t[0..] == t;
    var result: seq<byte> := [];
    var buffer: nat, bits: nat := 0, 0;
    PrependConcat([], [], Decoded(a, t, 0, 0));
    for i := 0 to |t|
      invariant bits % 2 == 0 && bits <= 6
      invariant Prepend(result, Decoded(a, t[i..], buffer, bits)) == Decoded(a, t, 0, 0)
    {
      var v := ValueOf(a, t[i]);
      if v.None? {
        return InvalidCharacter(t[i]);
      }
      assert t[i..][1..] == t[i + 1..];
      buffer := Push(buffer, v.value);
      bits := bits + 6;
      if bits >= 8 {
        bits := bits - 8;
        PrependConcat(result, [buffer / Scale(bits) % 256], Decoded(a, t[i + 1..], buffer, bits));
        result := result + [buffer / Scale(bits) % 256];
      }
    }
    assert t[|t|..] == "" && result + [] == result;
    r := Ok(result);
  }

  // Only the low bits of the buffer matter: the last character is in the lowest six, and what was
  // there before moves up.
  lemma LowBits(buffer: nat, v: sextet, m: nat)
    requires m == 1 || m == 4 || m == 16 || m == 64
    ensures Push(buffer, v) % (64 * m) == buffer % m * 64 + v
  {
    var x := buffer * 64 + v;
    ModMod(x, 64 * m, TWO_32 / (64 * m));
    MulModSplit(buffer, v, 64, m);
  }

  // The characters of a block of three bytes put out these bytes, whatever the buffer held.
  lemma FirstOut(b0: byte, b1: byte, c0: nat, c1: nat, buffer: nat)
    requires c0 == Push(buffer, b0 / 4) && c1 == Push(c0, b0 % 4 * 16 + b1 / 16)
    ensures c1 / 16 % 256 == b0
  {
    hide Push;
    LowBits(buffer, b0 / 4, 1);
    LowBits(c0, b0 % 4 * 16 + b1 / 16, 64);
    DivThenMod(c1, 16, 256);
    DivMod(c1 % 4096, 16, b0, b1 / 16);
  }

  lemma SecondOut(b0: byte, b1: byte, b2: byte, c0: nat, c1: nat, c2: nat)
    requires c1 == Push(c0, b0 % 4 * 16 + b1 / 16) && c2 == Push(c1, b1 % 16 * 4 + b2 / 64)
    ensures c2 / 4 % 256 == b1
  {
    hide Push;
    LowBits(c0, b0 % 4 * 16 + b1 / 16, 1);
    ModMod(c1, 16, 4);
    DivMod(b0 % 4 * 16 + b1 / 16, 16, b0 % 4, b1 / 16);
    LowBits(c1, b1 % 16 * 4 + b2 / 64, 16);
    DivThenMod(c2, 4, 256);
    DivMod(c2 % 1024, 4, b1, b2 / 64);
  }

  lemma ThirdOut(b1: byte, b2: byte, c1: nat, c2: nat, c3: nat)
    requires c2 == Push(c1, b1 % 16 * 4 + b2 / 64) && c3 == Push(c2, b2 % 64)
    ensures c3 / 1 % 256 == b2
  {
    hide Push;
    LowBits(c1, b1 % 16 * 4 + b2 / 64, 1);
    ModMod(c2, 4, 16);
    DivMod(b1 % 16 * 4 + b2 / 64, 4, b1 % 16, b2 / 64);
    LowBits(c2, b2 % 64, 4);
  }

  lemma DecodedStep(a: Alphabet, v: sextet, t: string, buffer: nat, bits: nat)
    requires (a == STANDARD || a == URL_SAFE) && bits % 2 == 0 && bits <= 6
    ensures var b := Push(buffer, v);
      Decoded(a, [CharOf(a, v)] + t, buffer, bits) ==
      if bits == 0 then Decoded(a, t, b, 6) else Prepend([b / Scale(bits - 2) % 256], Decoded(a, t, b, bits - 2))
  {
    hide Push, CharOf, ValueOf;
    AlphabetInverse(a, v);
    assert ([CharOf(a, v)] + t)[1..] == t;
  }

  // Two, three or four characters of a block.
  lemma TwoSteps(a: Alphabet, b0: byte, b1: byte, b2: byte, buffer: nat, t: string)
    requires a == STANDARD || a == URL_SAFE
    ensures var s := Block(b0, b1, b2);
      Decoded(a, [CharOf(a, s[0]), CharOf(a, s[1])] + t, buffer, 0) ==
      Prepend([b0], Decoded(a, t, Push(Push(buffer, s[0]), s[1]), 4))
  {
    hide Push, Decoded, CharOf, ValueOf;
    var s := Block(b0, b1, b2);
    FirstOut(b0, b1, Push(buffer, s[0]), Push(Push(buffer, s[0]), s[1]), buffer);
    TwoCharacters(a, s[0], s[1], b0, buffer, t);
  }

  lemma TwoCharacters(a: Alphabet, v0: sextet, v1: sextet, out: byte, buffer: nat, t: string)
    requires (a == STANDARD || a == URL_SAFE) && Push(Push(buffer, v0), v1) / 16 % 256 == out
    ensures Decoded(a, [CharOf(a, v0), CharOf(a, v1)] + t, buffer, 0) ==
            Prepend([out], Decoded(a, t, Push(Push(buffer, v0), v1), 4))
  {
    hide Push, Decoded, CharOf, ValueOf;
    DecodedStep(a, v0, [CharOf(a, v1)] + t, buffer, 0);
    DecodedStep(a, v1, t, Push(buffer, v0), 6);
    assert [CharOf(a, v0), CharOf(a, v1)] + t == [CharOf(a, v0)] + ([CharOf(a, v1)] + t);
  }

  lemma ThirdStep(a: Alphabet, b0: byte, b1: byte, b2: byte, buffer: nat, t: string)
    requires a == STANDARD || a == URL_SAFE
    ensures var s := Block(b0, b1, b2);
      var c1 := Push(Push(buffer, s[0]), s[1]);
      Decoded(a, [CharOf(a, s[2])] + t, c1, 4) == Prepend([b1], Decoded(a, t, Push(c1, s[2]), 2))
  {
    hide Push, Decoded, CharOf, ValueOf;
    var s := Block(b0, b1, b2);
    var c0 := Push(buffer, s[0]);
    var c1 := Push(c0, s[1]);
    SecondOut(b0, b1, b2, c0, c1, Push(c1, s[2]));
    DecodedStep(a, s[2], t, c1, 4);
  }

  lemma FourthStep(a: Alphabet, b0: byte, b1: byte, b2: byte, buffer: nat, t: string)
    requires a == STANDARD || a == URL_SAFE
    ensures var s := Block(b0, b1, b2);
      var c2 := Push(Push(Push(buffer, s[0]), s[1]), s[2]);
      Decoded(a, [CharOf(a, s[3])] + t, c2, 2) == Prepend([b2], Decoded(a, t, Push(c2, s[3]), 0))
  {
    hide Push, Decoded, CharOf, ValueOf;
    var s := Block(b0, b1, b2);
    var c1 := Push(Push(buffer, s[0]), s[1]);
    var c2 := Push(c1, s[2]);
    ThirdOut(b1, b2, c1, c2, Push(c2, s[3]));
    DecodedStep(a, s[3], t, c2, 2);
  }

  lemma NothingDecodes(a: Alphabet, buffer: nat, bits: nat)
    requires bits % 2 == 0 && bits <= 6
    ensures Decoded(a, "", buffer, bits) == Ok([])
  {
  }

  lemma TailDecodes(a: Alphabet, data: seq<byte>, buffer: nat)
    requires (a == STANDARD || a == URL_SAFE) && 1 <= |data| <= 2
    ensures Decoded(a, Text(a, Sextets(data)), buffer, 0) == Ok(data)
  {
    var s := Sextets(data);
    if |data| == 1 {
      Text2(a, s);
      TwoSteps(a, data[0], 0, 0, buffer, "");
      NothingDecodes(a, Push(Push(buffer, s[0]), s[1]), 4);
      assert Text(a, s) == [CharOf(a, s[0]), CharOf(a, s[1])] + "";
      assert [data[0]] + [] == data;
    } else {
      Text3(a, s);
      TwoSteps(a, data[0], data[1], 0, buffer, [CharOf(a, s[2])]);
      ThirdStep(a, data[0], data[1], 0, buffer, "");
      NothingDecodes(a, Push(Push(Push(buffer, s[0]), s[1]), s[2]), 2);
      assert [CharOf(a, s[2])] + "" == [CharOf(a, s[2])];
      assert Text(a, s) == [CharOf(a, s[0]), CharOf(a, s[1])] + [CharOf(a, s[2])];
      assert [data[0]] + ([data[1]] + []) == data;
    }
  }

  lemma FullBlock(a: Alphabet, head: seq<byte>, t: string, buffer: nat, rest: seq<byte>)
    requires (a == STANDARD || a == URL_SAFE) && |head| == 3
    requires var s := Block(head[0], head[1], head[2]);
      Decoded(a, t, Push(Push(Push(Push(buffer, s[0]), s[1]), s[2]), s[3]), 0) == Ok(rest)
    ensures Decoded(a, Text(a, Block(head[0], head[1], head[2])) + t, buffer, 0) == Ok(head + rest)
  {
    hide Push, Decoded, CharOf, ValueOf;
    var s := Block(head[0], head[1], head[2]);
    Text4(a, s);
    hide Text;
    var t3 := [CharOf(a, s[3])] + t;
    var t2 := [CharOf(a, s[2])] + t3;
    TwoSteps(a, head[0], head[1], head[2], buffer, t2);
    ThirdStep(a, head[0], head[1], head[2], buffer, t3);
    FourthStep(a, head[0], head[1], head[2], buffer, t);
    assert Text(a, s) + t == [CharOf(a, s[0]), CharOf(a, s[1])] + t2;
    assert head + rest == [head[0]] + ([head[1]] + ([head[2]] + rest));
  }

  // For every byte string and whatever the buffer held: decoding the unpadded text gives the bytes.
  lemma {:induction false} DecodeInverts(a: Alphabet, data: seq<byte>, buffer: nat)
    requires a == STANDARD || a == URL_SAFE
    ensures Decoded(a, Text(a, Sextets(data)), buffer, 0) == Ok(data)
    decreases |data|
  {
    hide Push, Decoded;
    if data == [] {
      NothingDecodes(a, buffer, 0);
    } else if |data| <= 2 {
      TailDecodes(a, data, buffer);
    } else {
      var s, rest := Block(data[0], data[1], data[2]), data[3..];
      DecodeInverts(a, rest, Push(Push(Push(Push(buffer, s[0]), s[1]), s[2]), s[3]));
      FullBlock(a, data[..3], Text(a, Sextets(rest)), buffer, rest);
      TextConcat(a, s, Sextets(rest));
      assert data == data[..3] + rest;
    }
  }

  // For every byte string the decoders invert the encoders, padding included.
  lemma RoundTrip(data: seq<byte>)
    ensures Decoded(STANDARD, TrimPadding(Encode(data)), 0, 0) == Ok(data)
    ensures Decoded(URL_SAFE, TrimPadding(EncodeUrl(data)), 0, 0) == Ok(data)
  {
    hide Decoded, Text, Sextets;
    var s := Sextets(data);
    NoPaddingInside(s);
    TrimText(Text(STANDARD, s), Padding(data));
    TrimText(Text(URL_SAFE, s), "");
    assert Text(URL_SAFE, s) + "" == Text(URL_SAFE, s);
    DecodeInverts(STANDARD, data, 0);
    DecodeInverts(URL_SAFE, data, 0);
  }
}
