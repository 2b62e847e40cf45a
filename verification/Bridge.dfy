// UDP-over-TCP bridge with length-prefixed frames (scripts/udp_tcp_bridge.py).
//
// TCP keeps the bytes and their order but not their boundaries: a read returns any non-empty part of
// what is left, at most as much as asked for, and nothing only at the end of the stream.

module Bridge {
  import opened Bytes
  import opened Wrappers

  type Datagram = seq<byte>

  const MAX_FRAME := 65535

  // ----- Frames as functions ----------------------------------------------------------------

  function Frame(d: Datagram): seq<byte> {
    BigEndian(|d|, 4) + d
  }

  function Frames(ds: seq<Datagram>): seq<byte> {
    if ds == [] then [] else Frame(ds[0]) + Frames(ds[1..])
  }

  datatype End = Closed | TooLarge

  function Deframed(stream: seq<byte>): (r: (seq<Datagram>, End)) {
    if |stream| < 4 then ([], Closed) else
    var n := FromBigEndian(stream[..4]);
    if n > MAX_FRAME then ([], TooLarge)
    else if |stream| < 4 + n then ([], Closed)
    else
      var (rest, end) := Deframed(stream[4 + n..]);
      ([stream[4..4 + n]] + rest, end)
  }

  // ----- The imperative form ----------------------------------------------------------------

  class StreamReader {
    var pending: seq<byte>

    constructor (stream: seq<byte>)
      ensures pending == stream
    {
      pending := stream;
    }

    // How much arrives at once is not determined.
    method Read(n: nat) returns (chunk: seq<byte>)
      requires n > 0
      modifies this
      ensures chunk + pending == old(pending) && |chunk| <= n
      ensures chunk == [] <==> old(pending) == []
    {
      if pending == [] {
        return [];
      }
      var k :| 1 <= k <= n && k <= |pending|;
      chunk := pending[..k];
      pending := pending[k..];
    }

    method ReadExact(n: nat) returns (data: Option<seq<byte>>)
      modifies this
      ensures if n <= |old(pending)| then data == Some(old(pending)[..n]) && pending == old(pending)[n..]
              else data == None && pending == []
    {
      var got: seq<byte> := [];
      while |got| < n
        invariant |got| <= n && got + pending == old(pending)
        decreases n - |got|
      {
        var chunk := Read(n - |got|);
        if chunk == [] {
          return None;
        }
        got := got + chunk;
      }
      data := Some(got);
    }
  }

  // The loop from TCP to UDP: what it sends on is a function of the byte stream alone.
  method ReceiveLoop(reader: StreamReader) returns (sent: seq<Datagram>, end: End)
    modifies reader
    ensures (sent, end) == Deframed(old(reader.pending))
  {
    hide FromBigEndian;
    sent := [];
    ghost var all := Deframed(reader.pending);
    while true
      invariant sent + Deframed(reader.pending).0 == all.0 && Deframed(reader.pending).1 == all.1
      decreases |reader.pending|
    {
      ghost var stream := reader.pending;
      assert sent + [] == sent;
      var header := reader.ReadExact(4);
      if header.None? {
        return sent, Closed;
      }
      var n := FromBigEndian(header.value);
      if n > MAX_FRAME {
        return sent, TooLarge;
      }
      var payload := reader.ReadExact(n);
      if payload.None? {
        return sent, Closed;
      }
      assert stream[4..][..n] == stream[4..4 + n] && stream[4..][n..] == stream[4 + n..];
      sent := sent + [payload.value];
    }
  }

  // The loop from UDP to TCP, over the datagrams that come out of the queue.
  method SendLoop(queue: seq<Datagram>) returns (stream: seq<byte>)
    requires forall i | 0 <= i < |queue| :: |queue[i]| < TWO_32
    ensures stream == Frames(queue)
  {
    hide BigEndian;
    stream := [];
    for i := 0 to |queue|
      invariant stream + Frames(queue[i..]) == Frames(queue)
    {
      assert queue[i..][1..] == queue[i + 1..];
      stream := stream + (BigEndian(|queue[i]|, 4) + queue[i]);
    }
    assert queue[|queue|..] == [];
  }

  // ----- Delivery ---------------------------------------------------------------------------

  // How many whole frames the first `k` bytes of the stream hold.
  function Whole(ds: seq<Datagram>, k: nat): (n: nat)
    ensures n <= |ds|
  {
    if ds == [] || k < 4 + |ds[0]| then 0 else 1 + Whole(ds[1..], k - 4 - |ds[0]|)
  }

  lemma FrameReadBack(d: Datagram, rest: seq<byte>)
    requires |d| < TWO_32
    ensures var s := Frame(d) + rest;
      FromBigEndian(s[..4]) == |d| && |s| >= 4 + |d| && s[4..4 + |d|] == d && s[4 + |d|..] == rest
  {
    PowValues();
    BigEndianRoundTrip(|d|, 4);
    hide BigEndian, FromBigEndian;
    var s := Frame(d) + rest;
    assert s[..4] == BigEndian(|d|, 4);
  }

  // If the stream ends after `k` bytes, exactly the datagrams whose frames are complete arrive.
  lemma {:induction false} CutStream(ds: seq<Datagram>, k: nat)
    requires (forall i | 0 <= i < |ds| :: |ds[i]| <= MAX_FRAME) && k <= |Frames(ds)|
    ensures Deframed(Frames(ds)[..k]) == (ds[..Whole(ds, k)], Closed)
    decreases |ds|
  {
    hide Frame, BigEndian, FromBigEndian;
    if ds == [] {
    } else {
      var d, rest := ds[0], Frames(ds[1..]);
      var stream := Frames(ds)[..k];
      FrameReadBack(d, rest);
      assert Frames(ds) == Frame(d) + rest;
      if k >= 4 {
        assert stream[..4] == (Frame(d) + rest)[..4];
        if k >= 4 + |d| {
          assert stream[4..4 + |d|] == d;
          assert stream[4 + |d|..] == rest[..k - 4 - |d|];
          CutStream(ds[1..], k - 4 - |d|);
          assert [d] + ds[1..][..Whole(ds, k) - 1] == ds[..Whole(ds, k)];
        }
      }
    }
  }

  lemma {:induction false} AllWhole(ds: seq<Datagram>)
    ensures Whole(ds, |Frames(ds)|) == |ds|
  {
    if ds == [] {
    } else {
      AllWhole(ds[1..]);
    }
  }

  // Sending any datagrams of at most 65535 bytes and receiving what TCP delivers of them, in
  // whatever pieces: everything arrives, in order, and a prefix if the stream ends early.
  method Transfer(ds: seq<Datagram>, cut: nat) returns (delivered: seq<Datagram>)
    requires forall i | 0 <= i < |ds| :: |ds[i]| <= MAX_FRAME
    ensures delivered == ds[..Whole(ds, cut)]
    ensures cut >= |Frames(ds)| ==> delivered == ds
  {
    var stream := SendLoop(ds);
    var k := if cut <= |stream| then cut else |stream|;
    var reader := new StreamReader(stream[..k]);
    var end;
    delivered, end := ReceiveLoop(reader);
    CutStream(ds, k);
    AllWhole(ds);
    if cut > |stream| {
      MoreThanAll(ds, cut);
    }
  }

  lemma {:induction false} MoreThanAll(ds: seq<Datagram>, cut: nat)
    requires cut >= |Frames(ds)|
    ensures Whole(ds, cut) == |ds|
  {
    if ds == [] {
    } else {
      MoreThanAll(ds[1..], cut - 4 - |ds[0]|);
    }
  }

  // A datagram of more than 65535 bytes ends the transfer: what came before it arrives, the rest not.
  lemma {:induction false} OversizedEnds(ds: seq<Datagram>, big: Datagram, rest: seq<byte>)
    requires (forall i | 0 <= i < |ds| :: |ds[i]| <= MAX_FRAME) && MAX_FRAME < |big| < TWO_32
    ensures Deframed(Frames(ds) + (Frame(big) + rest)) == (ds, TooLarge)
    decreases |ds|
  {
    hide Frame, BigEndian, FromBigEndian;
    var tail := Frame(big) + rest;
    if ds == [] {
      FrameReadBack(big, rest);
      assert Frames(ds) + tail == tail;
    } else {
      var more := Frames(ds[1..]) + tail;
      FrameReadBack(ds[0], more);
      assert Frames(ds) + tail == Frame(ds[0]) + more;
      OversizedEnds(ds[1..], big, rest);
      assert [ds[0]] + ds[1..] == ds;
    }
  }
}
