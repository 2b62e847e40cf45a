// Tokens of the signaling server (crates/voip-signaling/src/jwt.rs). Signatures and JSON are
// functions that obey their usual laws.

module Jwt {
  import opened Base64
  import opened Bytes
  import opened Wrappers

  datatype Claims = Claims(sub: string, iat: nat, exp: nat, nbf: nat, pubKey: string)

  datatype Crypto = Crypto(
    sign: string -> seq<byte>,
    verify: (string, seq<byte>) -> bool,
    toJson: Claims -> seq<byte>,
    fromJson: seq<byte> -> Option<Claims>)

  ghost predicate Lawful(c: Crypto) {
    && (forall m :: |c.sign(m)| == 64 && c.verify(m, c.sign(m)))
    && (forall x :: c.fromJson(c.toJson(x)) == Some(x))
  }

  datatype Verdict =
    | Valid(claims: Claims)
    | BadFormat | BadHeader | BadSignatureEncoding | BadSignatureLength | BadSignature
    | BadPayloadEncoding | BadClaims | Expired | SubjectMismatch | NotYetValid

  const HEADER := "eyJhbGciOiJFZERTQSIsInR5cCI6IkpXVCJ9"

  function NewClaims(peerId: string, now: nat, expiry: nat): Claims {
    Claims(peerId, now, now + expiry, now, peerId)
  }

  function Create(c: Crypto, peerId: string, now: nat, expiry: nat): string {
    var payload := EncodeUrl(c.toJson(NewClaims(peerId, now, expiry)));
    var input := HEADER + "." + payload;
    input + "." + EncodeUrl(c.sign(input))
  }

  // The parts between dots.
  function Split(s: string): (r: seq<string>)
    ensures |r| > 0
  {
    if s == "" then [""]
    else if s[0] == '.' then [""] + Split(s[1..])
    else var rest := Split(s[1..]); [[s[0]] + rest[0]] + rest[1..]
  }

  function DecodeUrl(t: string): Base64.Result<seq<byte>> {
    Decoded(URL_SAFE, TrimPadding(t), 0, 0)
  }

  function Verify(c: Crypto, token: string, now: nat): Verdict {
    var parts := Split(token);
    if |parts| != 3 then BadFormat
    else if parts[0] != HEADER then BadHeader
    else
      var signature := DecodeUrl(parts[2]);
      if !signature.Ok? then BadSignatureEncoding
      else if |signature.value| != 64 then BadSignatureLength
      else if !c.verify(parts[0] + "." + parts[1], signature.value) then BadSignature
      else
        var payload := DecodeUrl(parts[1]);
        if !payload.Ok? then BadPayloadEncoding
        else
          var claims := c.fromJson(payload.value);
          if claims.None? then BadClaims
          else if claims.value.exp < now then Expired
          else if claims.value.sub != claims.value.pubKey then SubjectMismatch
          else if claims.value.nbf > now then NotYetValid
          else Valid(claims.value)
  }

  // ----- A created token verifies ------------------------------------------------------------

  lemma {:induction false} SplitPlain(s: string)
    requires forall i | 0 <= i < |s| :: s[i] != '.'
    ensures Split(s) == [s]
  {
    if s == "" {
    } else {
      SplitPlain(s[1..]);
      assert s == [s[0]] + s[1..];
    }
  }

  lemma {:induction false} SplitAtDot(s: string, t: string)
    requires forall i | 0 <= i < |s| :: s[i] != '.'
    ensures Split(s + "." + t) == [s] + Split(t)
  {
    var whole := s + "." + t;
    if s == "" {
      assert whole[1..] == t;
    } else {
      SplitAtDot(s[1..], t);
      assert whole[1..] == s[1..] + "." + t;
      assert s == [s[0]] + s[1..];
    }
  }

  lemma UrlPlain(data: seq<byte>)
    ensures forall i | 0 <= i < |EncodeUrl(data)| :: EncodeUrl(data)[i] != '.'
  {
    NoPaddingInside(Sextets(data));
  }

  lemma HeaderPlain()
    ensures forall i | 0 <= i < |HEADER| :: HEADER[i] != '.'
  {
  }

  // Encoded text has no dot, so a created token has exactly the three parts it was made of.
  lemma CreatedParts(c: Crypto, peerId: string, now: nat, expiry: nat)
    ensures var payload := EncodeUrl(c.toJson(NewClaims(peerId, now, expiry)));
      Split(Create(c, peerId, now, expiry)) == [HEADER, payload, EncodeUrl(c.sign(HEADER + "." + payload))]
  {
    var json := c.toJson(NewClaims(peerId, now, expiry));
    var payload := EncodeUrl(json);
    var bytes := c.sign(HEADER + "." + payload);
    var signature := EncodeUrl(bytes);
    UrlPlain(json);
    UrlPlain(bytes);
    HeaderPlain();
    hide EncodeUrl, Split, HEADER;
    SplitPlain(signature);
    SplitAtDot(payload, signature);
    SplitAtDot(HEADER, payload + "." + signature);
    assert Create(c, peerId, now, expiry) == HEADER + "." + (payload + "." + signature);
  }

  // A token created at `issued` verifies, to the very claims it was created with, exactly from that
  // moment through its expiry.
  lemma CreatedVerifiesIff(c: Crypto, peerId: string, issued: nat, expiry: nat, now: nat)
    requires Lawful(c)
    ensures Verify(c, Create(c, peerId, issued, expiry), now) ==
            if now > issued + expiry then Expired
            else if now < issued then NotYetValid
            else Valid(NewClaims(peerId, issued, expiry))
  {
    hide EncodeUrl, Create, Split, Decoded, TrimPadding;
    var claims := NewClaims(peerId, issued, expiry);
    var payload := EncodeUrl(c.toJson(claims));
    CreatedParts(c, peerId, issued, expiry);
    RoundTrip(c.toJson(claims));
    RoundTrip(c.sign(HEADER + "." + payload));
  }

  // ----- Which tokens are valid -------------------------------------------------------------

  predicate DotFree(s: string) {
    forall i | 0 <= i < |s| :: s[i] != '.'
  }

  // `token` is the header, a payload and a signature; the signature is one of 64 bytes that the key
  // accepts for all that stands before it; and the payload says `x`, of whose subject the key is and which
  // is valid now.
  ghost predicate Genuine(c: Crypto, token: string, now: nat, x: Claims, payload: string, signature: string) {
    && token == HEADER + "." + payload + "." + signature && DotFree(payload) && DotFree(signature)
    && (var bytes := DecodeUrl(signature);
        bytes.Ok? && |bytes.value| == 64 && c.verify(HEADER + "." + payload, bytes.value))
    && (var json := DecodeUrl(payload); json.Ok? && c.fromJson(json.value) == Some(x))
    && x.sub == x.pubKey && x.nbf <= now <= x.exp
  }

  // The parts with dots between them.
  function Join(parts: seq<string>): string
    requires parts != []
  {
    if |parts| == 1 then parts[0] else parts[0] + "." + Join(parts[1..])
  }

  lemma JoinCons(a: string, rest: seq<string>)
    requires rest != []
    ensures Join([a] + rest) == a + "." + Join(rest)
  {
    assert ([a] + rest)[1..] == rest;
  }

  lemma JoinOne(a: string)
    ensures Join([a]) == a
  {
  }

  lemma JoinPrefix(x: string, rest: seq<string>)
    requires rest != []
    ensures Join([x + rest[0]] + rest[1..]) == x + Join(rest)
  {
    hide Join;
    if |rest| == 1 {
      JoinOne(x + rest[0]);
      JoinOne(rest[0]);
      assert [x + rest[0]] + rest[1..] == [x + rest[0]] && rest == [rest[0]];
    } else {
      JoinCons(x + rest[0], rest[1..]);
      JoinCons(rest[0], rest[1..]);
      assert rest == [rest[0]] + rest[1..];
      assert x + rest[0] + "." + Join(rest[1..]) == x + (rest[0] + "." + Join(rest[1..]));
    }
  }

  lemma {:induction false} SplitJoins(s: string)
    ensures Join(Split(s)) == s && forall i | 0 <= i < |Split(s)| :: DotFree(Split(s)[i])
  {
    if s == "" {
    } else {
      var rest := Split(s[1..]);
      SplitJoins(s[1..]);
      JoinCons("", rest);
      JoinPrefix([s[0]], rest);
      hide Join;
      assert s == [s[0]] + s[1..];
    }
  }

  // Exact condition, for every string whatever: it verifies to these claims if and only if it is genuine.
  lemma ValidIff(c: Crypto, token: string, now: nat, x: Claims)
    ensures Verify(c, token, now) == Valid(x) <==> exists p, s :: Genuine(c, token, now, x, p, s)
  {
    hide Split, DecodeUrl, HEADER;
    if Verify(c, token, now) == Valid(x) {
      var parts := Split(token);
      SplitJoins(token);
      assert parts[1..][1..] == [parts[2]] && Join(parts[1..]) == parts[1] + "." + parts[2];
      assert token == HEADER + "." + (parts[1] + "." + parts[2]) == HEADER + "." + parts[1] + "." + parts[2];
      assert Genuine(c, token, now, x, parts[1], parts[2]);
    }
    if exists p, s :: Genuine(c, token, now, x, p, s) {
      var p, s :| Genuine(c, token, now, x, p, s);
      HeaderPlain();
      assert token == HEADER + "." + (p + "." + s);
      SplitAtDot(HEADER, p + "." + s);
      SplitAtDot(p, s);
      SplitPlain(s);
    }
  }

  // If the key accepts only messages of a given kind, what stands before the last dot of a valid token is
  // one of them.
  lemma ValidIsSigned(c: Crypto, token: string, now: nat, signed: string -> bool) returns (k: nat)
    requires Verify(c, token, now).Valid? && forall m, s :: c.verify(m, s) ==> signed(m)
    ensures k < |token| && token[k] == '.' && DotFree(token[k + 1..]) && signed(token[..k])
  {
    var x := Verify(c, token, now).claims;
    ValidIff(c, token, now, x);
    hide HEADER, Verify;
    var p, s :| Genuine(c, token, now, x, p, s);
    k := |HEADER + "." + p|;
    assert token[..k] == HEADER + "." + p && token[k + 1..] == s;
  }
}
