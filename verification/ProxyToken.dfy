// Proxy tokens (crates/voip-client/src/proxy.rs). Strings are their UTF-8 bytes; `utf8` tells which
// byte strings are valid.

module ProxyToken {
  import opened Base64
  import opened Bytes

  datatype Token = Token(peerId: seq<byte>, proxyUrl: seq<byte>, expiresAt: nat, issuedAt: nat, signature: seq<byte>)

  datatype Read<+T> = Got(value: T) | BadBase64(c: char) | Underflow | InvalidUtf8 | BadSignatureLength(got: nat)

  // A 16-bit length prefix holds only the low bits of a longer length.
  function LengthPrefixed(s: seq<byte>): seq<byte> {
    BigEndian(|s| % TWO_16, 2) + s
  }

  function TokenBytes(t: Token): seq<byte> {
    LengthPrefixed(t.peerId) + LengthPrefixed(t.proxyUrl) +
    BigEndian(t.expiresAt, 8) + BigEndian(t.issuedAt, 8) + t.signature
  }

  function EncodeToken(t: Token): string {
    Encode(TokenBytes(t))
  }

  // A big-endian number of `n` bytes and what follows it.
  function ReadNumber(buf: seq<byte>, n: nat): Read<(nat, seq<byte>)> {
    if |buf| < n then Underflow else Got((FromBigEndian(buf[..n]), buf[n..]))
  }

  function ReadString(utf8: seq<byte> -> bool, buf: seq<byte>, len: nat): Read<(seq<byte>, seq<byte>)> {
    if |buf| < len then Underflow
    else if !utf8(buf[..len]) then InvalidUtf8
    else Got((buf[..len], buf[len..]))
  }

  // A string with its length in front.
  function ReadField(utf8: seq<byte> -> bool, buf: seq<byte>): (r: Read<(seq<byte>, seq<byte>)>)
  {
    match ReadNumber(buf, 2)
    case Got((len, rest)) => ReadString(utf8, rest, len)
    case _ => Underflow
  }

  function ReadTail(buf: seq<byte>): Read<(nat, nat, seq<byte>)> {
    match ReadNumber(buf, 8)
    case Got((expires, rest)) => (
      match ReadNumber(rest, 8)
      case Got((issued, signature)) =>
        if |signature| != 64 then BadSignatureLength(|signature|) else Got((expires, issued, signature))
      case _ => Underflow
    )
    case _ => Underflow
  }

  function DecodeBytes(utf8: seq<byte> -> bool, buf: seq<byte>): Read<Token> {
    match ReadField(utf8, buf)
    case Got((peerId, b1)) => (
      match ReadField(utf8, b1)
      case Got((url, b2)) => (
        match ReadTail(b2)
        case Got((expires, issued, signature)) => Got(Token(peerId, url, expires, issued, signature))
        case BadSignatureLength(n) => BadSignatureLength(n)
        case _ => Underflow
      )
      case InvalidUtf8 => InvalidUtf8
      case _ => Underflow
    )
    case InvalidUtf8 => InvalidUtf8
    case _ => Underflow
  }

  function DecodeToken(utf8: seq<byte> -> bool, text: string): Read<Token> {
    match Decoded(STANDARD, TrimPadding(text), 0, 0)
    case InvalidCharacter(c) => BadBase64(c)
    case Ok(buf) => DecodeBytes(utf8, buf)
  }

  // ----- Round trip -------------------------------------------------------------------------

  lemma FieldReadBack(utf8: seq<byte> -> bool, s: seq<byte>, rest: seq<byte>)
    requires |s| < TWO_16 && utf8(s)
    ensures ReadField(utf8, LengthPrefixed(s) + rest) == Got((s, rest))
  {
    var buf := LengthPrefixed(s) + rest;
    PowValues();
    BigEndianRoundTrip(|s|, 2);
    hide BigEndian, FromBigEndian, Pow256;
    assert buf[..2] == BigEndian(|s|, 2) && buf[2..] == s + rest;
    assert (s + rest)[..|s|] == s && (s + rest)[|s|..] == rest;
  }

  lemma TailReadBack(expires: nat, issued: nat, signature: seq<byte>)
    requires expires < TWO_64 && issued < TWO_64
    ensures ReadTail(BigEndian(expires, 8) + BigEndian(issued, 8) + signature) ==
            if |signature| != 64 then BadSignatureLength(|signature|) else Got((expires, issued, signature))
  {
    var buf := BigEndian(expires, 8) + BigEndian(issued, 8) + signature;
    PowValues();
    BigEndianRoundTrip(expires, 8);
    BigEndianRoundTrip(issued, 8);
    hide BigEndian, FromBigEndian, Pow256;
    assert buf[..8] == BigEndian(expires, 8) && buf[8..] == BigEndian(issued, 8) + signature;
    assert buf[8..][..8] == BigEndian(issued, 8) && buf[8..][8..] == signature;
  }

  // Whatever is decoded has short strings and a signature of 64 bytes.
  lemma DecodedIsShort(utf8: seq<byte> -> bool, buf: seq<byte>)
    ensures var r := DecodeBytes(utf8, buf);
      r.Got? ==> |r.value.peerId| < TWO_16 && |r.value.proxyUrl| < TWO_16 && |r.value.signature| == 64
  {
    var first := ReadField(utf8, buf);
    FieldIsShort(utf8, buf);
    if first.Got? {
      FieldIsShort(utf8, first.value.1);
    }
  }

  lemma FieldIsShort(utf8: seq<byte> -> bool, buf: seq<byte>)
    ensures var r := ReadField(utf8, buf); r.Got? ==> |r.value.0| < TWO_16
  {
    if |buf| >= 2 {
      FromBigEndianBound(buf[..2]);
      PowValues();
    }
  }

  // Decoding inverts encoding exactly for tokens whose strings are shorter than 65536 bytes and whose
  // signature has 64 bytes.
  lemma TokenRoundTripIff(utf8: seq<byte> -> bool, t: Token)
    requires utf8(t.peerId) && utf8(t.proxyUrl) && t.expiresAt < TWO_64 && t.issuedAt < TWO_64
    ensures DecodeToken(utf8, EncodeToken(t)) == Got(t) <==>
            |t.peerId| < TWO_16 && |t.proxyUrl| < TWO_16 && |t.signature| == 64
  {
    hide Encode, Decoded, TrimPadding, BigEndian, LengthPrefixed, ReadField, ReadTail;
    var buf := TokenBytes(t);
    RoundTrip(buf);
    DecodedIsShort(utf8, buf);
    if |t.peerId| < TWO_16 && |t.proxyUrl| < TWO_16 {
      var tail := BigEndian(t.expiresAt, 8) + BigEndian(t.issuedAt, 8) + t.signature;
      assert buf == LengthPrefixed(t.peerId) + (LengthPrefixed(t.proxyUrl) + tail);
      FieldReadBack(utf8, t.peerId, LengthPrefixed(t.proxyUrl) + tail);
      FieldReadBack(utf8, t.proxyUrl, tail);
      TailReadBack(t.expiresAt, t.issuedAt, t.signature);
    }
  }

  // ----- The signed message -----------------------------------------------------------------

  function LongPrefixed(s: seq<byte>): seq<byte> {
    BigEndian(|s| % 0x1_0000_0000, 4) + s
  }

  function SigningMessage(peerId: seq<byte>, proxyUrl: seq<byte>, expiresAt: nat, issuedAt: nat): seq<byte> {
    LongPrefixed(peerId) + LongPrefixed(proxyUrl) + BigEndian(expiresAt, 8) + BigEndian(issuedAt, 8)
  }

  // A number in front of a message can be read off it.
  lemma NumberInFront(v: nat, v': nat, n: nat, rest: seq<byte>, rest': seq<byte>)
    requires v < Pow256(n) && v' < Pow256(n) && BigEndian(v, n) + rest == BigEndian(v', n) + rest'
    ensures v == v' && rest == rest'
  {
    BigEndianRoundTrip(v, n);
    BigEndianRoundTrip(v', n);
    hide BigEndian;
    assert (BigEndian(v, n) + rest)[..n] == BigEndian(v, n) && (BigEndian(v', n) + rest')[..n] == BigEndian(v', n);
    assert (BigEndian(v, n) + rest)[n..] == rest && (BigEndian(v', n) + rest')[n..] == rest';
  }

  lemma StringInFront(s: seq<byte>, s': seq<byte>, rest: seq<byte>, rest': seq<byte>)
    requires |s| < 0x1_0000_0000 && |s'| < 0x1_0000_0000
    requires LongPrefixed(s) + rest == LongPrefixed(s') + rest'
    ensures s == s' && rest == rest'
  {
    PowValues();
    hide BigEndian;
    assert LongPrefixed(s) + rest == BigEndian(|s|, 4) + (s + rest);
    assert LongPrefixed(s') + rest' == BigEndian(|s'|, 4) + (s' + rest');
    NumberInFront(|s|, |s'|, 4, s + rest, s' + rest');
    assert (s + rest)[..|s|] == s && (s' + rest')[..|s|] == s';
    assert (s + rest)[|s|..] == rest && (s' + rest')[|s|..] == rest';
  }

  // The signed message determines all four fields, for strings shorter than 2^32 bytes.
  lemma SigningMessageInjective(p: seq<byte>, u: seq<byte>, e: nat, i: nat, p': seq<byte>, u': seq<byte>, e': nat, i': nat)
    requires |p| < 0x1_0000_0000 && |u| < 0x1_0000_0000 && |p'| < 0x1_0000_0000 && |u'| < 0x1_0000_0000
    requires e < TWO_64 && i < TWO_64 && e' < TWO_64 && i' < TWO_64
    requires SigningMessage(p, u, e, i) == SigningMessage(p', u', e', i')
    ensures p == p' && u == u' && e == e' && i == i'
  {
    PowValues();
    hide BigEndian, Pow256, LongPrefixed;
    var b, b' := BigEndian(e, 8) + BigEndian(i, 8), BigEndian(e', 8) + BigEndian(i', 8);
    assert SigningMessage(p, u, e, i) == LongPrefixed(p) + (LongPrefixed(u) + b);
    assert SigningMessage(p', u', e', i') == LongPrefixed(p') + (LongPrefixed(u') + b');
    StringInFront(p, p', LongPrefixed(u) + b, LongPrefixed(u') + b');
    StringInFront(u, u', b, b');
    NumberInFront(e, e', 8, BigEndian(i, 8), BigEndian(i', 8));
    assert BigEndian(i, 8) + [] == BigEndian(i, 8) && BigEndian(i', 8) + [] == BigEndian(i', 8);
    NumberInFront(i, i', 8, [], []);
  }
}
