// MoQ datagrams, setup messages and the setup handshake (crates/voip-client/src/moq.rs).
//
// Strings are their UTF-8 bytes.

module Moq {
  import opened Bytes
  import opened QuicVarint
  import opened Wrappers

  datatype Error = TooShort | BadType(got: nat) | VersionNegotiationFailed | InvalidState | StreamClosed
  datatype Result<+T> = Ok(value: T) | Err(error: Error)

  const MEDIA := 0x01
  const CLIENT_SETUP := 0x01
  const SERVER_SETUP := 0x02
  const ANNOUNCE_CANCEL := 0x0D
  const GOAWAY := 0x1A
  const MAX_SUBSCRIBE_ID := 0x1B
  const DRAFT_17 := 0xff00_0011

  // ----- Datagrams --------------------------------------------------------------------------

  datatype Datagram = Datagram(kind: byte, alias: nat, sequence: nat, timestamp: nat, payload: seq<byte>)

  ghost predicate Representable(d: Datagram) {
    d.alias < 0x1_0000_0000 && d.sequence < TWO_64 && d.timestamp < TWO_64
  }

  function EncodeDatagram(d: Datagram): seq<byte>
    requires Representable(d)
  {
    [d.kind] + BigEndian(d.alias, 4) + Encode(d.sequence) + Encode(d.timestamp) + d.payload
  }

  function DecodeDatagram(data: seq<byte>): Result<Datagram> {
    if |data| < 5 then Err(TooShort)
    else if data[0] != MEDIA then Err(BadType(data[0]))
    else
      var d1 := data[5..];
      var d2 := Rest(d1);
      Ok(Datagram(data[0], FromBigEndian(data[1..5]), Decode(d1).0, Decode(d2).0, Rest(d2)))
  }

  // Decoding inverts encoding exactly for media datagrams whose counters are below 2^62.
  lemma DatagramRoundTripIff(d: Datagram)
    requires Representable(d)
    ensures DecodeDatagram(EncodeDatagram(d)) == Ok(d) <==>
            d.kind == MEDIA && d.sequence < TWO_62 && d.timestamp < TWO_62
  {
    var data := EncodeDatagram(d);
    var tail := Encode(d.timestamp) + d.payload;
    PowValues();
    BigEndianRoundTrip(d.alias, 4);
    assert data == [d.kind] + BigEndian(d.alias, 4) + (Encode(d.sequence) + tail);
    assert data[1..5] == BigEndian(d.alias, 4) && data[5..] == Encode(d.sequence) + tail;
    ReadBack(d.sequence, tail);
    ReadBack(d.timestamp, d.payload);
  }

  // For every byte string: one shorter than a type and an alias, or of another type, is refused; any other
  // is the alias, two counters as the varint reader reads them, and the rest.
  lemma DatagramDecodes(data: seq<byte>)
    ensures |data| < 5 ==> DecodeDatagram(data) == Err(TooShort)
    ensures |data| >= 5 && data[0] != 1 ==> DecodeDatagram(data) == Err(BadType(data[0]))
    ensures |data| >= 5 && data[0] == 1 ==>
      var r := DecodeDatagram(data);
      && r.Ok? && r.value.kind == 1
      && r.value.alias == BigEndian4(data[1], data[2], data[3], data[4])
      && var k := Decode(data[5..]).1;
         var l := Decode(data[5 + k..]).1;
         && r.value.sequence == Decode(data[5..]).0 && r.value.timestamp == Decode(data[5 + k..]).0
         && r.value.payload == data[5 + k + l..]
  {
    hide Decode, FromBigEndian;
    if |data| >= 5 {
      FourBytes(data[1], data[2], data[3], data[4]);
      assert data[1..5] == [data[1], data[2], data[3], data[4]];
      var k := Decode(data[5..]).1;
      var d2 := data[5..][k..];
      assert d2 == data[5 + k..];
      assert d2[Decode(d2).1..] == data[5 + k + Decode(d2).1..];
    }
  }

  ghost function BigEndian4(a: nat, b: nat, c: nat, d: nat): nat {
    0x100_0000 * a + 0x1_0000 * b + 0x100 * c + d
  }

  lemma FourBytes(a: byte, b: byte, c: byte, d: byte)
    ensures FromBigEndian([a, b, c, d]) == BigEndian4(a, b, c, d)
  {
    assert [a, b, c, d][..3] == [a, b, c] && [a, b, c][..2] == [a, b] && [a, b][..1] == [a] && [a][..0] == [];
    assert FromBigEndian([a]) == a && FromBigEndian([a, b]) == 256 * a + b;
  }

  // ----- CLIENT_SETUP -----------------------------------------------------------------------

  datatype ClientSetup = ClientSetup(versions: seq<nat>, role: byte, path: Option<seq<byte>>)

  ghost predicate SetupRepresentable(s: ClientSetup) {
    && |s.versions| < TWO_64 && (forall i | 0 <= i < |s.versions| :: s.versions[i] < TWO_64)
    && (s.path.Some? ==> |s.path.value| < TWO_64)
  }

  function EncodeVersions(versions: seq<nat>): seq<byte>
    requires forall i | 0 <= i < |versions| :: versions[i] < TWO_64
  {
    if versions == [] then [] else Encode(versions[0]) + EncodeVersions(versions[1..])
  }

  function EncodePath(path: Option<seq<byte>>): seq<byte>
    requires path.Some? ==> |path.value| < TWO_64
  {
    if path.None? then [] else Encode(|path.value|) + path.value
  }

  function EncodeClientSetup(s: ClientSetup): seq<byte>
    requires SetupRepresentable(s)
  {
    Encode(CLIENT_SETUP) + Encode(|s.versions|) + EncodeVersions(s.versions) + Encode(s.role) + EncodePath(s.path)
  }

  // The encoder as it runs, appending to a buffer.
  method BuildClientSetup(s: ClientSetup) returns (buf: seq<byte>)
    requires SetupRepresentable(s)
    ensures buf == EncodeClientSetup(s)
  {
    hide Encode;
    buf := Encode(CLIENT_SETUP) + Encode(|s.versions|);
    ghost var header := buf;
    for i := 0 to |s.versions|
      invariant buf + EncodeVersions(s.versions[i..]) == header + EncodeVersions(s.versions)
    {
      assert s.versions[i..][1..] == s.versions[i + 1..];
      buf := buf + Encode(s.versions[i]);
    }
    assert s.versions[|s.versions|..] == [] && buf == header + EncodeVersions(s.versions);
    buf := buf + Encode(s.role);
    if s.path.Some? {
      buf := buf + (Encode(|s.path.value|) + s.path.value);
    }
  }

  // Reading `n` versions: the versions and the input behind them.
  function DecodeVersions(data: seq<byte>, n: nat): (r: (seq<nat>, seq<byte>))
    ensures |r.0| == n
    decreases n
  {
    if n == 0 then ([], data) else
    var (vs, rest) := DecodeVersions(Rest(data), n - 1);
    ([Decode(data).0] + vs, rest)
  }

  function DecodePath(data: seq<byte>): Option<seq<byte>> {
    if data == [] then None else
    var len, rest := Decode(data).0, Rest(data);
    if |rest| >= len then Some(rest[..len]) else None
  }

  function DecodeClientSetup(data: seq<byte>): Result<ClientSetup> {
    var kind := Decode(data).0;
    if kind != CLIENT_SETUP then Err(BadType(kind)) else
    var d1 := Rest(data);
    var (versions, d2) := DecodeVersions(Rest(d1), Decode(d1).0);
    Ok(ClientSetup(versions, Decode(d2).0 % 256, DecodePath(Rest(d2))))
  }

  method ParseVersions(data: seq<byte>, n: nat) returns (versions: seq<nat>, cursor: seq<byte>)
    ensures (versions, cursor) == DecodeVersions(data, n)
  {
    ghost var all := DecodeVersions(data, n);
    versions, cursor := [], data;
    for i := 0 to n
      invariant versions + DecodeVersions(cursor, n - i).0 == all.0 && DecodeVersions(cursor, n - i).1 == all.1
    {
      var (v, k) := Decode(cursor);
      ghost var left := DecodeVersions(cursor, n - i);
      cursor := cursor[k..];
      versions := versions + [v];
      assert left.0 == [v] + DecodeVersions(cursor, n - i - 1).0;
    }
    assert versions == all.0;
  }

  // The parser as it runs, with a cursor that advances over the message.
  method ParseClientSetup(data: seq<byte>) returns (r: Result<ClientSetup>)
    ensures r == DecodeClientSetup(data)
  {
    var cursor := data;
    var (kind, k0) := Decode(cursor);
    cursor := cursor[k0..];
    if kind != CLIENT_SETUP {
      return Err(BadType(kind));
    }
    var (n, k1) := Decode(cursor);
    cursor := cursor[k1..];
    var versions;
    versions, cursor := ParseVersions(cursor, n);
    var (role, k3) := Decode(cursor);
    cursor := cursor[k3..];
    r := Ok(ClientSetup(versions, role % 256, DecodePath(cursor)));
  }

  function Clipped(versions: seq<nat>): seq<nat> {
    if versions == [] then [] else [versions[0] % TWO_62] + Clipped(versions[1..])
  }

  lemma {:induction false} VersionsReadBack(versions: seq<nat>, rest: seq<byte>)
    requires forall i | 0 <= i < |versions| :: versions[i] < TWO_64
    ensures DecodeVersions(EncodeVersions(versions) + rest, |versions|) == (Clipped(versions), rest)
  {
    if versions == [] {
      assert [] + rest == rest;
    } else {
      var tail := EncodeVersions(versions[1..]);
      assert EncodeVersions(versions) + rest == Encode(versions[0]) + (tail + rest);
      ReadBack(versions[0], tail + rest);
      VersionsReadBack(versions[1..], rest);
    }
  }

  lemma {:induction false} ClippedIff(versions: seq<nat>)
    ensures Clipped(versions) == versions <==> forall i | 0 <= i < |versions| :: versions[i] < TWO_62
  {
    if versions == [] {
    } else {
      ClippedIff(versions[1..]);
      assert versions == [versions[0]] + versions[1..];
      assert forall i | 0 < i < |versions| :: versions[i] == versions[1..][i - 1];
      assert Clipped(versions)[1..] == Clipped(versions[1..]);
    }
  }

  lemma PathRoundTripIff(path: Option<seq<byte>>)
    requires path.Some? ==> |path.value| < TWO_64
    ensures DecodePath(EncodePath(path)) == path <==> (path.Some? ==> |path.value| < TWO_62)
  {
    if path.Some? {
      ReadBack(|path.value|, path.value);
      RoundTrip(|path.value|, path.value);
      assert path.value[..|path.value|] == path.value;
    }
  }

  // Decoding inverts encoding exactly when the number of versions, every version and the length of
  // the path are below 2^62.
  lemma ClientSetupRoundTripIff(s: ClientSetup)
    requires SetupRepresentable(s)
    ensures DecodeClientSetup(EncodeClientSetup(s)) == Ok(s) <==>
            && |s.versions| < TWO_62 && (forall i | 0 <= i < |s.versions| :: s.versions[i] < TWO_62)
            && (s.path.Some? ==> |s.path.value| < TWO_62)
  {
    hide Decode, Encode, DecodeVersions, EncodeVersions, DecodePath, EncodePath, DecodeClientSetup, EncodeClientSetup;
    var d2 := Encode(s.role) + EncodePath(s.path);
    SetupHeader(s, EncodeVersions(s.versions) + d2);
    if |s.versions| < TWO_62 {
      VersionsReadBack(s.versions, d2);
      ClippedIff(s.versions);
      RolePathRoundTripIff(s.role, s.path);
    }
  }

  lemma SetupHeader(s: ClientSetup, body: seq<byte>)
    requires SetupRepresentable(s)
    requires body == EncodeVersions(s.versions) + (Encode(s.role) + EncodePath(s.path))
    ensures var (versions, rest) := DecodeVersions(body, |s.versions| % TWO_62);
      DecodeClientSetup(EncodeClientSetup(s)) == Ok(ClientSetup(versions, Decode(rest).0 % 256, DecodePath(Rest(rest))))
  {
    hide Decode, Encode, DecodeVersions, EncodeVersions, DecodePath, EncodePath;
    var n := Encode(|s.versions|);
    assert EncodeClientSetup(s) == Encode(CLIENT_SETUP) + (n + body);
    ReadBackSmall(CLIENT_SETUP, n + body);
    ReadBack(|s.versions|, body);
  }

  lemma RolePathRoundTripIff(role: byte, path: Option<seq<byte>>)
    requires path.Some? ==> |path.value| < TWO_64
    ensures var d := Encode(role) + EncodePath(path);
      && Decode(d).0 % 256 == role
      && (DecodePath(Rest(d)) == path <==> (path.Some? ==> |path.value| < TWO_62))
  {
    ReadBackSmall(role, EncodePath(path));
    PathRoundTripIff(path);
  }

  // ----- SERVER_SETUP and the handshake -----------------------------------------------------

  datatype ServerSetup = ServerSetup(version: nat, role: byte, path: Option<seq<byte>>)

  function DecodeServerSetup(data: seq<byte>): Result<ServerSetup> {
    var (kind, k0) := Decode(data);
    if kind != SERVER_SETUP then Err(BadType(kind)) else
    var d1 := data[k0..];
    var d2 := Rest(d1);
    Ok(ServerSetup(Decode(d1).0, Decode(d2).0 % 256, DecodePath(Rest(d2))))
  }

  const CLIENT_HELLO := EncodeClientSetup(ClientSetup([DRAFT_17], 0x03, None))
  const SERVER_HELLO := Encode(SERVER_SETUP) + Encode(DRAFT_17) + Encode(0x03)

  // What each side makes of the one read it does on the control stream.
  function ServerVerdict(read: seq<byte>): Result<()> {
    if read == [] then Err(StreamClosed) else
    match DecodeClientSetup(read)
    case Err(e) => Err(e)
    case Ok(s) => if DRAFT_17 in s.versions then Ok(()) else Err(VersionNegotiationFailed)
  }

  function ClientVerdict(read: seq<byte>): Result<()> {
    if read == [] then Err(StreamClosed) else
    var kind := Decode(read).0;
    if kind == SERVER_SETUP then
      match DecodeServerSetup(read)
      case Err(e) => Err(e)
      case Ok(s) => if s.version == DRAFT_17 then Ok(()) else Err(VersionNegotiationFailed)
    else if kind == ANNOUNCE_CANCEL || kind == GOAWAY || kind == MAX_SUBSCRIBE_ID then Ok(())
    else Err(BadType(kind))
  }

  datatype SessionState = Idle | SettingUp | Active

  class MoqSession {
    var state: SessionState

    constructor ()
      ensures state == Idle
    {
      state := Idle;
    }

    // The opening side, given what its read returns. A failed setup stays in SettingUp.
    method Setup(read: seq<byte>) returns (r: Result<()>)
      modifies this
      ensures old(state) != Idle ==> r == Err(InvalidState) && state == old(state)
      ensures old(state) == Idle ==> r == ClientVerdict(read) && state == if r.Ok? then Active else SettingUp
    {
      if state != Idle {
        return Err(InvalidState);
      }
      state := SettingUp;
      if read == [] {
        return Err(StreamClosed);
      }
      var (kind, _) := Decode(read);
      if kind == SERVER_SETUP {
        var decoded := DecodeServerSetup(read);
        if decoded.Err? || decoded.value.version != DRAFT_17 {
          return Err(VersionNegotiationFailed);
        }
      } else if kind != ANNOUNCE_CANCEL && kind != GOAWAY && kind != MAX_SUBSCRIBE_ID {
        return Err(BadType(kind));
      }
      state := Active;
      r := Ok(());
    }

    // The accepting side; it answers with SERVER_HELLO.
    method Accept(read: seq<byte>) returns (r: Result<()>, answer: seq<byte>)
      modifies this
      ensures old(state) != Idle ==> r == Err(InvalidState) && state == old(state) && answer == []
      ensures old(state) == Idle ==> r == ServerVerdict(read) && state == if r.Ok? then Active else SettingUp
      ensures old(state) == Idle ==> answer == if r.Ok? then SERVER_HELLO else []
    {
      answer := [];
      if state != Idle {
        return Err(InvalidState), [];
      }
      state := SettingUp;
      if read == [] {
        return Err(StreamClosed), [];
      }
      var parsed := ParseClientSetup(read);
      if parsed.Err? {
        return Err(parsed.error), [];
      }
      if DRAFT_17 !in parsed.value.versions {
        return Err(VersionNegotiationFailed), [];
      }
      state := Active;
      return Ok(()), SERVER_HELLO;
    }
  }

  // The accepting side takes exactly the setups that offer draft-17, among whatever other versions, roles
  // and paths, and refuses any other message.
  lemma ServerTakesIff(s: ClientSetup)
    requires SetupRepresentable(s) && |s.versions| < TWO_62
    ensures ServerVerdict(EncodeClientSetup(s)) ==
            if exists i | 0 <= i < |s.versions| :: s.versions[i] % TWO_62 == DRAFT_17 then Ok(())
            else Err(VersionNegotiationFailed)
  {
    hide Decode, Encode, DecodeVersions, EncodeVersions, DecodePath, EncodePath, DecodeClientSetup, EncodeClientSetup;
    var d2 := Encode(s.role) + EncodePath(s.path);
    SetupHeader(s, EncodeVersions(s.versions) + d2);
    VersionsReadBack(s.versions, d2);
    ClippedMembers(s.versions);
    NonEmpty(s);
  }

  lemma NonEmpty(s: ClientSetup)
    requires SetupRepresentable(s)
    ensures EncodeClientSetup(s) != []
  {
    hide Decode, Encode, EncodeVersions, EncodePath;
    RoundTrip(CLIENT_SETUP, []);
  }

  lemma {:induction false} ClippedMembers(versions: seq<nat>)
    ensures |Clipped(versions)| == |versions|
    ensures forall i | 0 <= i < |versions| :: Clipped(versions)[i] == versions[i] % TWO_62
  {
    if versions == [] {
    } else {
      ClippedMembers(versions[1..]);
    }
  }

  lemma ServerRefuses(kind: nat, rest: seq<byte>)
    requires kind < TWO_62 && kind != 1
    ensures ServerVerdict(Encode(kind) + rest) == Err(BadType(kind))
  {
    hide Decode, Encode;
    RoundTrip(kind, rest);
  }

  // The opening side takes a SERVER_SETUP exactly if it selects draft-17, lets three other control messages
  // pass for one, and refuses the rest.
  lemma ClientTakesIff(kind: nat, rest: seq<byte>)
    requires kind < TWO_62
    ensures ClientVerdict(Encode(kind) + rest) ==
            if kind == 2 then (if Decode(rest).0 == DRAFT_17 then Ok(()) else Err(VersionNegotiationFailed))
            else if kind in {0x0D, 0x1A, 0x1B} then Ok(())
            else Err(BadType(kind))
  {
    hide Decode, Encode, DecodePath;
    RoundTrip(kind, rest);
    ReadBackSmall(kind, rest);
  }

  lemma ClientHelloShape()
    ensures CLIENT_HELLO == [1, 1] + Encode(DRAFT_17) + [3] && |CLIENT_HELLO| == 11
  {
    RoundTrip(DRAFT_17, []);
    var versions: seq<nat> := [DRAFT_17];
    assert versions[1..] == [] && EncodeVersions(versions) == Encode(DRAFT_17) + EncodeVersions([]);
    assert CLIENT_HELLO == Encode(1) + Encode(1) + EncodeVersions(versions) + Encode(3) + [];
  }

  // A prefix of an eight-byte version number followed by at most one more byte reads as that number
  // if it is complete, and as 0 otherwise.
  lemma VersionPrefix(n: nat)
    requires n <= 9
    ensures |Encode(DRAFT_17)| == 8
    ensures Decode((Encode(DRAFT_17) + [3])[..n]).0 == if n >= 8 then DRAFT_17 else 0
  {
    var v := Encode(DRAFT_17);
    RoundTrip(DRAFT_17, []);
    if n < 8 {
      Truncated(DRAFT_17, n);
      assert (v + [3])[..n] == v[..n];
    } else {
      var tail: seq<byte> := [3][..n - 8];
      RoundTrip(DRAFT_17, tail);
      assert (v + [3])[..n] == v + tail;
    }
  }

  // The accepting side becomes active exactly when its one read delivers at least ten of the eleven
  // bytes of the client's message.
  lemma ServerAcceptsIff(n: nat)
    requires n <= 11
    ensures |CLIENT_HELLO| == 11 && (ServerVerdict(CLIENT_HELLO[..n]).Ok? <==> n >= 10)
  {
    hide DecodeVersions, DecodePath, Encode, EncodeClientSetup;
    ClientHelloShape();
    var read := CLIENT_HELLO[..n];
    if n >= 2 {
      var d2 := (Encode(DRAFT_17) + [3])[..n - 2];
      VersionPrefix(n - 2);
      assert Rest(read) == read[1..] && Rest(Rest(read)) == read[1..][1..] == d2;
      OneVersion(d2);
    } else if n == 1 {
      assert read == [1] && Rest(read) == [];
      NoVersions([]);
    }
  }

  lemma OneVersion(data: seq<byte>)
    ensures DecodeVersions(data, 1).0 == [Decode(data).0]
  {
    assert DecodeVersions(data, 1).0 == [Decode(data).0] + DecodeVersions(Rest(data), 0).0;
  }

  lemma NoVersions(data: seq<byte>)
    ensures DecodeVersions(data, 0).0 == []
  {
  }

  // The opening side becomes active exactly when its read delivers at least nine of the ten bytes.
  lemma ClientAcceptsIff(n: nat)
    requires n <= 10
    ensures |SERVER_HELLO| == 10 && (ClientVerdict(SERVER_HELLO[..n]).Ok? <==> n >= 9)
  {
    VersionPrefix(0);
    assert SERVER_HELLO == [2] + Encode(DRAFT_17) + [3];
    if n >= 1 {
      VersionPrefix(n - 1);
      assert SERVER_HELLO[..n][1..] == (Encode(DRAFT_17) + [3])[..n - 1];
    }
  }

  // `setup` run against `accept`: both ends become active, on draft-17, if and only if the reads
  // deliver at least ten bytes of the client's message and nine of the server's.
  method Handshake(n: nat, k: nat) returns (client: SessionState, server: SessionState)
    requires n <= |CLIENT_HELLO| && k <= |SERVER_HELLO|
    ensures server == Active <==> n >= 10
    ensures client == Active <==> n >= 10 && k >= 9
  {
    ClientHelloShape();
    ServerAcceptsIff(n);
    ClientAcceptsIff(k);
    var opening := new MoqSession();
    var accepting := new MoqSession();
    var accepted, answer := accepting.Accept(CLIENT_HELLO[..n]);
    var setUp := opening.Setup(if answer == [] then [] else answer[..k]);
    client, server := opening.state, accepting.state;
  }
}
