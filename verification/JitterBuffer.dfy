// Jitter buffer and frame counters of the audio pipeline (crates/voip-client/src/pipeline.rs).

module JitterBuffer {
  import opened Arith
  import opened Bytes
  import opened Wrappers

  // Of a media datagram the buffer looks only at the sequence number and the timestamp.
  datatype Datagram<P> = Datagram(sequence: nat, timestamp: nat, payload: P)

  const SAMPLE_RATE := 48000
  const JITTER_TARGET_MS := 20
  const TARGET_SAMPLES := SAMPLE_RATE * JITTER_TARGET_MS / 1000

  function Sub(a: nat, b: nat): nat {
    if a < b then 0 else a - b
  }

  // ----- The two operations as functions ----------------------------------------------------

  predicate Has<P>(buf: seq<Datagram<P>>, sequence: nat) {
    exists i | 0 <= i < |buf| :: buf[i].sequence == sequence
  }

  function Position<P>(buf: seq<Datagram<P>>, sequence: nat): (p: nat)
    ensures p <= |buf|
  {
    if buf == [] || buf[0].sequence > sequence then 0 else 1 + Position(buf[1..], sequence)
  }

  function Buffered<P>(buf: seq<Datagram<P>>, d: Datagram<P>): seq<Datagram<P>> {
    if Has(buf, d.sequence) then buf else
    var p := Position(buf, d.sequence);
    buf[..p] + [d] + buf[p..]
  }

  // Once playback has started, whether a datagram is due depends on its timestamp alone.
  predicate Due(timestamp: nat, last: nat, now: nat) {
    Sub(last, timestamp) >= TARGET_SAMPLES || Sub(now, timestamp) >= TARGET_SAMPLES * 2
  }

  predicate ShouldDrain<P>(buf: seq<Datagram<P>>, last: Option<nat>, now: nat)
    requires buf != []
  {
    match last
    case Some(ts) => Due(buf[0].timestamp, ts, now)
    case None => |buf| >= 2
  }

  // How many datagrams a drain takes from the front.
  function DrainCount<P>(buf: seq<Datagram<P>>, last: Option<nat>, now: nat): (n: nat)
    ensures n <= |buf|
  {
    if buf == [] || !ShouldDrain(buf, last, now) then 0 else 1 + DrainCount(buf[1..], last, now)
  }

  function LastPlayback<P>(ready: seq<Datagram<P>>, last: Option<nat>): Option<nat> {
    if ready == [] then last else Some(ready[|ready| - 1].timestamp)
  }

  predicate Numbered<P>(d: Datagram<P>, frameSize: nat) {
    d.timestamp == d.sequence * frameSize
  }

  // ----- The imperative form ----------------------------------------------------------------

  class AudioPipeline<P> {
    var sequence: nat
    var timestamp: nat
    var buffer: seq<Datagram<P>>
    var lastPlayback: Option<nat>

    constructor ()
      ensures sequence == 0 && timestamp == 0 && buffer == [] && lastPlayback == None
    {
      sequence, timestamp, buffer, lastPlayback := 0, 0, [], None;
    }

    // Numbering one encoded frame; both counters are 64-bit atomics that wrap around. Until they do,
    // the timestamp of a frame is its number times the frame size.
    method NumberFrame(frameSize: nat, packet: P) returns (d: Datagram<P>)
      modifies this`sequence, this`timestamp
      ensures d == Datagram(old(sequence), old(timestamp), packet)
      ensures sequence == (old(sequence) + 1) % TWO_64 && timestamp == (old(timestamp) + frameSize) % TWO_64
      ensures
        old(timestamp) == old(sequence) * frameSize && old(sequence) + 1 < TWO_64 && old(timestamp) + frameSize < TWO_64
        ==> Numbered(d, frameSize) && timestamp == sequence * frameSize
    {
      d := Datagram(sequence, timestamp, packet);
      sequence := (sequence + 1) % TWO_64;
      timestamp := (timestamp + frameSize) % TWO_64;
    }

    method BufferIncoming(d: Datagram<P>)
      modifies this`buffer
      ensures buffer == Buffered(old(buffer), d)
    {
      var i := 0;
      while i < |buffer|
        invariant 0 <= i <= |buffer| && buffer == old(buffer)
        invariant forall k | 0 <= k < i :: buffer[k].sequence != d.sequence
      {
        if buffer[i].sequence == d.sequence {
          return;
        }
        i := i + 1;
      }
      var pos := 0;
      while pos < |buffer| && buffer[pos].sequence <= d.sequence
        invariant 0 <= pos <= |buffer| && buffer == old(buffer)
        invariant Position(buffer, d.sequence) == pos + Position(buffer[pos..], d.sequence)
      {
        assert buffer[pos..][1..] == buffer[pos + 1..];
        pos := pos + 1;
      }
      buffer := buffer[..pos] + [d] + buffer[pos..];
    }

    method DrainBuffer() returns (ready: seq<Datagram<P>>)
      modifies this`buffer, this`lastPlayback
      ensures var n := DrainCount(old(buffer), old(lastPlayback), timestamp);
        && ready == old(buffer)[..n] && buffer == old(buffer)[n..]
        && lastPlayback == LastPlayback(ready, old(lastPlayback))
    {
      ready := [];
      while buffer != []
        invariant ready + buffer == old(buffer) && lastPlayback == old(lastPlayback)
        invariant DrainCount(old(buffer), lastPlayback, timestamp) ==
                  |ready| + DrainCount(buffer, lastPlayback, timestamp)
        decreases |buffer|
      {
        if !ShouldDrain(buffer, lastPlayback, timestamp) {
          break;
        }
        ready := ready + [buffer[0]];
        buffer := buffer[1..];
      }
      if ready != [] {
        lastPlayback := Some(ready[|ready| - 1].timestamp);
      }
    }
  }

  // ----- One operation ----------------------------------------------------------------------

  // Sequence numbers strictly increase, and all exceed `lo`.
  ghost predicate Above<P>(s: seq<Datagram<P>>, lo: int) {
    s == [] || (lo < s[0].sequence && Above(s[1..], s[0].sequence))
  }

  ghost predicate Sorted<P>(s: seq<Datagram<P>>) {
    Above(s, -1)
  }

  lemma {:induction false} AboveMeans<P>(s: seq<Datagram<P>>, lo: int)
    ensures Above(s, lo) <==>
            && (forall i | 0 <= i < |s| :: lo < s[i].sequence)
            && (forall i, j | 0 <= i < j < |s| :: s[i].sequence < s[j].sequence)
  {
    if s == [] {
    } else {
      AboveMeans(s[1..], s[0].sequence);
      assert forall i | 0 < i < |s| :: s[i] == s[1..][i - 1];
      assert forall i | 0 <= i < |s| - 1 :: s[1..][i] == s[i + 1];
    }
  }

  function High<P>(s: seq<Datagram<P>>, lo: int): int {
    if s == [] then lo else s[|s| - 1].sequence
  }

  lemma {:induction false} AboveConcat<P>(a: seq<Datagram<P>>, b: seq<Datagram<P>>, lo: int)
    ensures Above(a + b, lo) <==> Above(a, lo) && Above(b, High(a, lo))
  {
    if a == [] {
      assert a + b == b;
    } else {
      AboveConcat(a[1..], b, a[0].sequence);
      assert (a + b)[1..] == a[1..] + b;
    }
  }

  lemma {:induction false} AboveBounds<P>(s: seq<Datagram<P>>, lo: int)
    requires Above(s, lo)
    ensures lo <= High(s, lo) && forall i | 0 <= i < |s| :: lo < s[i].sequence <= High(s, lo)
  {
    if s == [] {
    } else {
      AboveBounds(s[1..], s[0].sequence);
      assert forall i | 0 < i < |s| :: s[i] == s[1..][i - 1];
    }
  }

  lemma {:induction false} InsertedAboveIff<P>(buf: seq<Datagram<P>>, d: Datagram<P>, lo: int)
    requires !Has(buf, d.sequence)
    ensures Above(Buffered(buf, d), lo) <==> Above(buf, lo) && lo < d.sequence
  {
    if buf == [] || buf[0].sequence > d.sequence {
      assert Buffered(buf, d) == [d] + buf;
      assert ([d] + buf)[1..] == buf;
    } else {
      var rest := buf[1..];
      assert buf[0].sequence < d.sequence;
      assert forall i | 0 <= i < |rest| :: rest[i] == buf[i + 1];
      InsertedAboveIff(rest, d, buf[0].sequence);
      assert Buffered(buf, d)[1..] == Buffered(rest, d);
    }
  }

  // An ordered sequence in front of the buffer stays in order when `d` arrives if and only if it
  // ends below `d`.
  lemma ArrivalInOrderIff<P>(front: seq<Datagram<P>>, buf: seq<Datagram<P>>, d: Datagram<P>)
    requires !Has(buf, d.sequence)
    ensures Sorted(front + Buffered(buf, d)) <==> Sorted(front + buf) && High(front, -1) < d.sequence
  {
    AboveConcat(front, buf, -1);
    AboveConcat(front, Buffered(buf, d), -1);
    InsertedAboveIff(buf, d, High(front, -1));
  }

  lemma BufferedIsSorted<P>(buf: seq<Datagram<P>>, d: Datagram<P>)
    requires Sorted(buf)
    ensures Sorted(Buffered(buf, d))
  {
    if !Has(buf, d.sequence) {
      ArrivalInOrderIff([], buf, d);
      assert [] + buf == buf && [] + Buffered(buf, d) == Buffered(buf, d);
    }
  }

  // Ready to play: 20 ms (960 samples) before what was played last, or 40 ms before what was encoded last.
  predicate Ready(timestamp: nat, last: nat, now: nat) {
    timestamp + 960 <= last || timestamp + 1920 <= now
  }

  // The datagrams that are ready, in buffer order.
  function ReadyOnes<P>(buf: seq<Datagram<P>>, last: nat, now: nat): seq<Datagram<P>> {
    if buf == [] then []
    else (if Ready(buf[0].timestamp, last, now) then [buf[0]] else []) + ReadyOnes(buf[1..], last, now)
  }

  // After the first playback a drain takes exactly the datagrams that are ready if and only if none of
  // them waits behind one that is not.
  lemma {:induction false} DrainIsFilterIff<P>(buf: seq<Datagram<P>>, last: nat, now: nat)
    ensures buf[..DrainCount(buf, Some(last), now)] == ReadyOnes(buf, last, now) <==>
            forall i, j | 0 <= i < j < |buf| && Ready(buf[j].timestamp, last, now) :: Ready(buf[i].timestamp, last, now)
  {
    if buf == [] {
    } else {
      var rest, n := buf[1..], DrainCount(buf[1..], Some(last), now);
      assert forall i | 0 < i < |buf| :: buf[i] == rest[i - 1];
      if Ready(buf[0].timestamp, last, now) {
        DrainIsFilterIff(rest, last, now);
        assert buf[..n + 1] == [buf[0]] + rest[..n];
        assert (buf[..n + 1])[1..] == rest[..n];
        assert ReadyOnes(buf, last, now)[1..] == ReadyOnes(rest, last, now);
      } else {
        assert buf[..0] == [];
        NothingReady(rest, last, now);
      }
    }
  }

  lemma {:induction false} NothingReady<P>(buf: seq<Datagram<P>>, last: nat, now: nat)
    ensures ReadyOnes(buf, last, now) == [] <==> forall i | 0 <= i < |buf| :: !Ready(buf[i].timestamp, last, now)
  {
    if buf == [] {
    } else {
      NothingReady(buf[1..], last, now);
      assert forall i | 0 < i < |buf| :: buf[i] == buf[1..][i - 1];
    }
  }

  // In particular when timestamps do not decrease along the buffer.
  lemma DrainIsFilter<P>(buf: seq<Datagram<P>>, last: nat, now: nat)
    requires forall i, j | 0 <= i < j < |buf| :: buf[i].timestamp <= buf[j].timestamp
    ensures buf[..DrainCount(buf, Some(last), now)] == ReadyOnes(buf, last, now)
  {
    DrainIsFilterIff(buf, last, now);
  }

  // Before the first playback a drain takes all but the newest datagram.
  lemma {:induction false} FirstDrain<P>(buf: seq<Datagram<P>>, now: nat)
    ensures DrainCount(buf, None, now) == Sub(|buf|, 1)
  {
    if buf == [] {
    } else {
      FirstDrain(buf[1..], now);
    }
  }

  // ----- Runs -------------------------------------------------------------------------------

  datatype Event<P> = Arrive(d: Datagram<P>) | Drain(now: nat)

  // `played` is everything drained so far, in order; `accepted` everything the buffer took in.
  datatype State<P> = State(buffer: seq<Datagram<P>>, last: Option<nat>,
                            played: seq<Datagram<P>>, accepted: seq<Datagram<P>>)

  function Step<P>(s: State<P>, e: Event<P>): State<P> {
    match e
    case Arrive(d) =>
      if Has(s.buffer, d.sequence) then s
      else s.(buffer := Buffered(s.buffer, d), accepted := s.accepted + [d])
    case Drain(now) =>
      var n := DrainCount(s.buffer, s.last, now);
      var ready := s.buffer[..n];
      s.(buffer := s.buffer[n..], last := LastPlayback(ready, s.last), played := s.played + ready)
  }

  function Run<P>(events: seq<Event<P>>): State<P> {
    if events == [] then State([], None, [], [])
    else Step(Run(events[..|events| - 1]), events[|events| - 1])
  }

  // A datagram that is taken in although one with its number or a later one has been played.
  predicate Late<P>(s: State<P>, e: Event<P>) {
    e.Arrive? && !Has(s.buffer, e.d.sequence) &&
    exists i | 0 <= i < |s.played| :: s.played[i].sequence >= e.d.sequence
  }

  ghost predicate Balanced<P>(s: State<P>) {
    Sorted(s.buffer) && multiset(s.accepted) == multiset(s.played) + multiset(s.buffer)
  }

  lemma StepKeepsBalance<P>(s: State<P>, e: Event<P>)
    requires Balanced(s)
    ensures Balanced(Step(s, e))
  {
    hide Above, Position, DrainCount;
    var b := s.buffer;
    match e
    case Arrive(d) =>
      BufferedIsSorted(b, d);
      var p := Position(b, d.sequence);
      assert b == b[..p] + b[p..];
      assert multiset(b[..p] + [d] + b[p..]) == multiset(b[..p]) + multiset([d]) + multiset(b[p..]);
    case Drain(now) =>
      var n := DrainCount(b, s.last, now);
      assert b == b[..n] + b[n..];
      AboveConcat(b[..n], b[n..], -1);
      SortedSuffix(b[n..], High(b[..n], -1));
  }

  lemma SortedSuffix<P>(s: seq<Datagram<P>>, lo: int)
    requires Above(s, lo)
    ensures Sorted(s)
  {
  }

  // In every run the buffer is strictly sorted, and every accepted datagram is exactly once either
  // played or still buffered.
  lemma {:induction false} NothingLost<P>(events: seq<Event<P>>)
    ensures Balanced(Run(events))
  {
    if events == [] {
    } else {
      NothingLost(events[..|events| - 1]);
      StepKeepsBalance(Run(events[..|events| - 1]), events[|events| - 1]);
    }
  }

  lemma {:induction false} BuffersArrivals<P>(events: seq<Event<P>>, frameSize: nat)
    requires forall i | 0 <= i < |events| && events[i].Arrive? :: Numbered(events[i].d, frameSize)
    ensures forall i | 0 <= i < |Run(events).buffer| :: Numbered(Run(events).buffer[i], frameSize)
  {
    hide Numbered, Position, DrainCount;
    if events == [] {
    } else {
      BuffersArrivals(events[..|events| - 1], frameSize);
    }
  }

  // Whatever order the frames of one sender arrive in, and whichever are lost or repeated, every drain
  // after the first playback returns exactly the frames that are ready.
  lemma SenderDrainIsFilter<P>(events: seq<Event<P>>, frameSize: nat, last: nat, now: nat)
    requires forall i | 0 <= i < |events| && events[i].Arrive? :: Numbered(events[i].d, frameSize)
    ensures var buf := Run(events).buffer; buf[..DrainCount(buf, Some(last), now)] == ReadyOnes(buf, last, now)
  {
    var buf := Run(events).buffer;
    NothingLost(events);
    AboveMeans(buf, -1);
    BuffersArrivals(events, frameSize);
    forall i, j | 0 <= i < j < |buf|
      ensures buf[i].timestamp <= buf[j].timestamp
    {
      MulMono(buf[i].sequence, buf[j].sequence, frameSize);
    }
    DrainIsFilter(buf, last, now);
  }

  // Over every run: the playback time is that of the datagram played last, and there is none before the
  // first.
  lemma {:induction false} PlaybackTime<P>(events: seq<Event<P>>)
    ensures var s := Run(events);
      s.last == if s.played == [] then None else Some(s.played[|s.played| - 1].timestamp)
  {
    hide DrainCount, Buffered;
    if events == [] {
    } else {
      PlaybackTime(events[..|events| - 1]);
    }
  }

  ghost predicate InOrder<P>(s: State<P>) {
    Sorted(s.played + s.buffer)
  }

  lemma StepKeepsOrderIff<P>(s: State<P>, e: Event<P>)
    ensures InOrder(Step(s, e)) <==> InOrder(s) && !Late(s, e)
  {
    var b := s.buffer;
    match e
    case Drain(now) =>
      var n := DrainCount(b, s.last, now);
      assert s.played + b == (s.played + b[..n]) + b[n..];
    case Arrive(d) =>
      if !Has(b, d.sequence) {
        ArrivalInOrderIff(s.played, b, d);
        AboveConcat(s.played, b, -1);
        if InOrder(s) {
          AboveBounds(s.played, -1);
        }
      }
  }

  ghost predicate NeverLate<P>(events: seq<Event<P>>) {
    events == [] ||
    var k := |events| - 1;
    NeverLate(events[..k]) && !Late(Run(events[..k]), events[k])
  }

  // Over every run: what was played followed by what is buffered is in strictly increasing order if
  // and only if no datagram arrived late. In that case the drains, one after the other, play strictly
  // increasing sequence numbers.
  lemma {:induction false} PlayedInOrderIff<P>(events: seq<Event<P>>)
    ensures InOrder(Run(events)) <==> NeverLate(events)
    ensures NeverLate(events) ==> Sorted(Run(events).played)
  {
    if events == [] {
    } else {
      var before, e := events[..|events| - 1], events[|events| - 1];
      PlayedInOrderIff(before);
      StepKeepsOrderIff(Run(before), e);
    }
    AboveConcat(Run(events).played, Run(events).buffer, -1);
  }

  // ----- Duplicates -------------------------------------------------------------------------

  ghost predicate Distinct<P>(s: seq<Datagram<P>>) {
    forall i, j | 0 <= i < j < |s| :: s[i].sequence != s[j].sequence
  }

  // A datagram that is taken in although one with its number has been played.
  predicate Repeat<P>(s: State<P>, e: Event<P>) {
    e.Arrive? && !Has(s.buffer, e.d.sequence) && Has(s.played, e.d.sequence)
  }

  ghost predicate NeverRepeats<P>(events: seq<Event<P>>) {
    events == [] ||
    var k := |events| - 1;
    NeverRepeats(events[..k]) && !Repeat(Run(events[..k]), events[k])
  }

  lemma DistinctInsertIff<P>(a: seq<Datagram<P>>, d: Datagram<P>, b: seq<Datagram<P>>)
    ensures Distinct(a + [d] + b) <==> Distinct(a + b) && !Has(a, d.sequence) && !Has(b, d.sequence)
  {
    var s, t, n := a + [d] + b, a + b, |a|;
    assert forall i | 0 <= i < n :: s[i] == a[i] == t[i];
    assert forall i | n <= i < |t| :: s[i + 1] == t[i] == b[i - n];
    assert s[n] == d;
    if Distinct(s) {
      forall i, j | 0 <= i < j < |t|
        ensures t[i].sequence != t[j].sequence
      {
        assert s[if i < n then i else i + 1].sequence != s[if j < n then j else j + 1].sequence;
      }
      forall i | 0 <= i < |b|
        ensures b[i].sequence != d.sequence
      {
        assert s[n].sequence != s[n + 1 + i].sequence;
      }
    } else {
      var i, j :| 0 <= i < j < |s| && s[i].sequence == s[j].sequence;
      if i != n && j != n {
        var i', j' := if i < n then i else i - 1, if j < n then j else j - 1;
        assert t[i'] == s[i] && t[j'] == s[j];
      }
    }
  }

  lemma StepDistinctIff<P>(s: State<P>, e: Event<P>)
    ensures var s' := Step(s, e);
      Distinct(s'.played + s'.buffer) <==> Distinct(s.played + s.buffer) && !Repeat(s, e)
  {
    hide Distinct;
    var b := s.buffer;
    match e
    case Drain(now) =>
      var n := DrainCount(b, s.last, now);
      assert s.played + b == (s.played + b[..n]) + b[n..];
    case Arrive(d) =>
      if !Has(b, d.sequence) {
        var p := Position(b, d.sequence);
        DistinctInsertIff(s.played + b[..p], d, b[p..]);
        assert s.played + b == s.played + b[..p] + b[p..];
        assert s.played + Buffered(b, d) == s.played + b[..p] + [d] + b[p..];
        HasConcat(s.played, b[..p], d.sequence);
        HasConcat(b[..p], b[p..], d.sequence);
        assert b == b[..p] + b[p..];
      }
  }

  lemma HasConcat<P>(a: seq<Datagram<P>>, b: seq<Datagram<P>>, sequence: nat)
    ensures Has(a + b, sequence) <==> Has(a, sequence) || Has(b, sequence)
  {
    assert forall i | 0 <= i < |a| :: (a + b)[i] == a[i];
    assert forall i | 0 <= i < |b| :: (a + b)[|a| + i] == b[i];
  }

  // Over every run: every number is played or buffered at most once if and only if no datagram is taken
  // in whose number has been played.
  lemma {:induction false} DistinctIff<P>(events: seq<Event<P>>)
    ensures Distinct(Run(events).played + Run(events).buffer) <==> NeverRepeats(events)
  {
    if events == [] {
    } else {
      var before, e := events[..|events| - 1], events[|events| - 1];
      DistinctIff(before);
      StepDistinctIff(Run(before), e);
    }
  }

  lemma RunExtend<P>(events: seq<Event<P>>, e: Event<P>)
    ensures Run(events + [e]) == Step(Run(events), e)
  {
    assert (events + [e])[..|events|] == events;
  }

  // The steps of the run below.
  lemma TwiceSteps<P>(a: Datagram<P>, b: Datagram<P>)
    requires a.sequence == 0 && b.sequence == 1 && a.timestamp == 0 && b.timestamp == 960
    ensures Step(State([], None, [], []), Arrive(a)) == State([a], None, [], [a])
    ensures Step(State([a], None, [], [a]), Arrive(b)) == State([a, b], None, [], [a, b])
    ensures Step(State([a, b], None, [], [a, b]), Drain(0)) == State([b], Some(0), [a], [a, b])
    ensures Step(State([b], Some(0), [a], [a, b]), Arrive(a)) == State([a, b], Some(0), [a], [a, b, a])
    ensures Step(State([a, b], Some(0), [a], [a, b, a]), Drain(1920)).played == [a, a]
  {
    assert Position([a], 1) == 1 && Position([b], 0) == 0;
    assert [a, b][1..] == [b] && [a, b][..1] == [a];
    assert DrainCount([b], None, 0) == 0 && DrainCount([b], Some(0), 1920) == 0;
    assert DrainCount([a, b], None, 0) == 1 && DrainCount([a, b], Some(0), 1920) == 1;
  }

  // Late datagrams exist: a duplicate of a datagram that was played is taken in and played again.
  lemma PlayedTwice<P>(p: P) returns (events: seq<Event<P>>)
    ensures Run(events).played == [Datagram(0, 0, p), Datagram(0, 0, p)]
  {
    var a, b := Datagram(0, 0, p), Datagram(1, 960, p);
    TwiceSteps(a, b);
    events := [];
    assert Run(events) == State([], None, [], []);
    hide Run, Step;
    RunExtend(events, Arrive(a));
    events := events + [Arrive(a)];
    RunExtend(events, Arrive(b));
    events := events + [Arrive(b)];
    RunExtend(events, Drain(0));
    events := events + [Drain(0)];
    RunExtend(events, Arrive(a));
    events := events + [Arrive(a)];
    RunExtend(events, Drain(1920));
    events := events + [Drain(1920)];
  }
}
