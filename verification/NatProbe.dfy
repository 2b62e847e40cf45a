// NAT classification, port prediction, the probe cache (crates/voip-client/src/nat_probe.rs) and the
// ports that a prediction makes the client dial (crates/voip-client/src/probe.rs).
//
// The standard deviation that the program computes in floating point and truncates is the floor of
// an exact square root here.

module NatProbe {
  import opened Arith
  import opened Wrappers

  datatype NatType = NoNat | Cone | SymmetricSequential | SymmetricPseudo | SymmetricRandom
  datatype Confidence = Sequential | PseudoSequential | Random

  type port = x: int | 0 <= x < 65536

  datatype Probe = Probe(externalIp: string, externalPort: port, timestampMs: nat)

  datatype Config = Config(threshold: nat, marginSequential: nat, marginPseudo: nat, maxProbes: nat)

  const DEFAULT := Config(3, 3, 8, 17)

  datatype Prediction = Prediction(externalIp: string, start: nat, end: nat, confidence: Confidence,
                                   basePort: nat, delta: int, probedAt: nat)

  datatype NatInfo = NatInfo(natType: NatType, prediction: Option<Prediction>)

  // ----- Statistics over the observed ports -------------------------------------------------

  function Deltas(ps: seq<Probe>): seq<int> {
    if |ps| < 2 then [] else [ps[1].externalPort - ps[0].externalPort] + Deltas(ps[1..])
  }

  predicate AllSame(ps: seq<Probe>) {
    |ps| < 2 || (ps[0].externalPort == ps[1].externalPort && AllSame(ps[1..]))
  }

  function Sum(ds: seq<int>): int {
    if ds == [] then 0 else ds[0] + Sum(ds[1..])
  }

  // Integer division of the source rounds toward zero.
  function TruncDiv(a: int, n: nat): int
    requires n > 0
  {
    if a >= 0 then a / n else -(-a / n)
  }

  function Average(ds: seq<int>): int {
    if ds == [] then 0 else TruncDiv(Sum(ds), |ds|)
  }

  function SquaresAround(ds: seq<int>, mean: int): nat {
    if ds == [] then 0 else Square(ds[0] - mean) + SquaresAround(ds[1..], mean)
  }

  function Square(x: int): nat {
    x * x
  }

  function FloorSqrt(x: nat): (r: nat)
    ensures r * r <= x < (r + 1) * (r + 1)
  {
    if x == 0 then 0 else
    var r := FloorSqrt(x - 1);
    if (r + 1) * (r + 1) <= x then
      assert (r + 1) * (r + 1) == x;
      r + 1
    else r
  }

  function Deviation(ds: seq<int>): nat {
    if |ds| <= 1 then 0 else FloorSqrt(SquaresAround(ds, Average(ds)) / (|ds| - 1))
  }

  predicate IsV6(p: Probe) {
    ':' in p.externalIp
  }

  // ----- Classification ---------------------------------------------------------------------

  function AsU32(x: int): nat {
    x % 0x1_0000_0000
  }

  function Max(a: int, b: int): int {
    if a >= b then a else b
  }

  function Min(a: int, b: int): int {
    if a <= b then a else b
  }

  function RangeStart(center: int, margin: nat): nat {
    AsU32(Max(center - margin, 1024))
  }

  function RangeEnd(center: int, margin: nat): nat {
    AsU32(Min(center + margin, 65535))
  }

  function Predict(last: Probe, average: int, confidence: Confidence, margin: nat, probedAt: nat): Prediction {
    var center := last.externalPort + average;
    Prediction(last.externalIp, RangeStart(center, margin), RangeEnd(center, margin), confidence,
               last.externalPort, average, probedAt)
  }

  function Margin(c: Config, confidence: Confidence): nat {
    match confidence
    case Sequential => c.marginSequential
    case PseudoSequential => c.marginPseudo
    case Random => 0
  }

  function ConfidenceOf(c: Config, deviation: nat): Confidence {
    if deviation == 0 || deviation <= c.threshold then Sequential
    else if deviation <= c.threshold * 3 then PseudoSequential
    else Random
  }

  function TypeOf(confidence: Confidence): NatType {
    match confidence
    case Sequential => SymmetricSequential
    case PseudoSequential => SymmetricPseudo
    case Random => SymmetricRandom
  }

  function Classify(ps: seq<Probe>, c: Config, now: nat): NatInfo {
    if ps == [] || IsV6(ps[0]) then NatInfo(NoNat, None)
    else if AllSame(ps) then NatInfo(Cone, None)
    else
      var ds := Deltas(ps);
      if ds == [] then NatInfo(SymmetricRandom, None) else
      var confidence := ConfidenceOf(c, Deviation(ds));
      NatInfo(TypeOf(confidence),
              if confidence == Random then None
              else Some(Predict(ps[|ps| - 1], Average(ds), confidence, Margin(c, confidence), now)))
  }

  // The test on the deviation without the square root: it is at most `t` exactly when the squares
  // add up to less than (t + 1)^2 (n - 1).
  lemma DeviationAtMost(ds: seq<int>, t: nat)
    requires |ds| > 1
    ensures Deviation(ds) <= t <==> SquaresAround(ds, Average(ds)) < (t + 1) * (t + 1) * (|ds| - 1)
  {
    var s, m := SquaresAround(ds, Average(ds)), |ds| - 1;
    var q := s / m;
    SqrtAtMost(q, t);
    var u := (t + 1) * (t + 1);
    if q < u {
      MulMono(q + 1, u, m);
      DivBounds(s, m);
      Distribute(q, 1, m);
    } else {
      MulMono(u, q, m);
      DivBounds(s, m);
    }
  }

  lemma SqrtAtMost(x: nat, t: nat)
    ensures FloorSqrt(x) <= t <==> x < (t + 1) * (t + 1)
  {
    var r := FloorSqrt(x);
    if r <= t {
      SquareMono(r + 1, t + 1);
    } else {
      SquareMono(t + 1, r);
    }
  }

  lemma SquareMono(a: nat, b: nat)
    requires a <= b
    ensures a * a <= b * b
  {
    MulMono(a, b, a);
    MulMono(a, b, b);
  }

  // ----- The cache --------------------------------------------------------------------------

  datatype Cache = Cache(probes: seq<Probe>, averageDelta: int, deltaVariance: nat, confidence: Confidence)

  function BuildCache(ps: seq<Probe>, info: NatInfo): Cache {
    var ds := Deltas(ps);
    Cache(ps, Average(ds), Deviation(ds),
          if info.prediction.Some? then info.prediction.value.confidence else Random)
  }

  function FixedMargin(confidence: Confidence): nat {
    match confidence
    case Sequential => 3
    case PseudoSequential => 8
    case Random => 0
  }

  function FromCache(c: Cache): NatInfo {
    if AllSame(c.probes) then NatInfo(Cone, None)
    else if c.confidence == Random then NatInfo(SymmetricRandom, None)
    else
      NatInfo(TypeOf(c.confidence),
        if c.probes == [] then None else
        var last := c.probes[|c.probes| - 1];
        Some(Predict(last, c.averageDelta, c.confidence, FixedMargin(c.confidence), last.timestampMs / 1000)))
  }

  // Equal in everything but the time of the probe.
  predicate SameInfo(a: NatInfo, b: NatInfo) {
    && a.natType == b.natType
    && (a.prediction.Some? <==> b.prediction.Some?)
    && (a.prediction.Some? ==> a.prediction.value.(probedAt := 0) == b.prediction.value.(probedAt := 0))
  }

  predicate CacheAgrees(ps: seq<Probe>, c: Config, now: nat) {
    var info := Classify(ps, c, now);
    SameInfo(FromCache(BuildCache(ps, info)), info)
  }

  lemma {:induction false} DeltasOfDifferent(ps: seq<Probe>)
    ensures |Deltas(ps)| == if |ps| < 2 then 0 else |ps| - 1
    ensures !AllSame(ps) ==> Deltas(ps) != []
  {
    if |ps| < 2 {
    } else {
      DeltasOfDifferent(ps[1..]);
    }
  }

  // With the default margins, and whatever the variance threshold, the answer rebuilt from the cache
  // agrees with the fresh classification exactly for non-empty lists of IPv4 probes.
  lemma CacheAgreesIff(ps: seq<Probe>, c: Config, now: nat)
    requires c.marginSequential == 3 && c.marginPseudo == 8
    ensures CacheAgrees(ps, c, now) <==> ps != [] && !IsV6(ps[0])
    ensures FromCache(BuildCache(ps, Classify(ps, c, now))).natType != NoNat
  {
    DeltasOfDifferent(ps);
  }

  // ----- What a classification says ---------------------------------------------------------

  lemma {:induction false} AllSameMeans(ps: seq<Probe>)
    ensures AllSame(ps) <==> forall i | 0 <= i < |ps| :: ps[i].externalPort == ps[0].externalPort
  {
    if |ps| < 2 {
    } else {
      AllSameMeans(ps[1..]);
      assert forall i | 0 < i < |ps| :: ps[i] == ps[1..][i - 1];
      assert forall i | 0 <= i < |ps| - 1 :: ps[1..][i] == ps[i + 1];
    }
  }

  // `q` is `a` divided by `n`, cut off toward zero.
  predicate IsCutOff(a: int, n: nat, q: int) {
    if a >= 0 then 0 <= q && q * n <= a < (q + 1) * n else q <= 0 && (q - 1) * n < a <= q * n
  }

  lemma TruncDivCutsOff(a: int, n: nat)
    requires n > 0
    ensures IsCutOff(a, n, TruncDiv(a, n))
  {
    var b: nat := if a >= 0 then a else 0 - a;
    DivBounds(b, n);
    CutOff(a, n, b, b / n, TruncDiv(a, n));
  }

  lemma CutOff(a: int, n: nat, b: nat, q: nat, r: int)
    requires q * n <= b < q * n + n && ((a == b && r == q) || (a == 0 - b && a < 0 && r == 0 - q))
    ensures IsCutOff(a, n, r)
  {
    AroundMultiple(q, n);
  }

  lemma AroundMultiple(q: int, n: int)
    ensures (q + 1) * n == q * n + n && (0 - q) * n == 0 - q * n && (0 - q - 1) * n == 0 - q * n - n
  {
  }

  predicate SpreadBelow(s: nat, x: nat, n: nat)
    requires n > 0
  {
    s < x * x * (n - 1)
  }

  lemma ConfidenceBySquares(ds: seq<int>, c: Config, n: nat, s: nat, t: nat)
    requires |ds| == n > 0 && s == SquaresAround(ds, Average(ds)) && t == c.threshold
    ensures var confidence := ConfidenceOf(c, Deviation(ds));
      && (confidence == Sequential <==> n == 1 || SpreadBelow(s, t + 1, n))
      && (confidence == PseudoSequential <==> n > 1 && !SpreadBelow(s, t + 1, n) && SpreadBelow(s, 3 * t + 1, n))
  {
    if |ds| > 1 {
      DeviationAtMost(ds, t);
      DeviationAtMost(ds, 3 * t);
      hide Average, SquaresAround, Deviation;
    }
  }

  // No list but one of equal ports is a cone, none but an empty or an IPv6 one is without NAT. Otherwise the
  // type is decided by the squares of the n deltas around their mean: below (t + 1)^2 (n - 1) it is
  // sequential, below (3 t + 1)^2 (n - 1) pseudo-sequential, and else random.
  lemma TypeBySquares(ps: seq<Probe>, c: Config, now: nat)
    ensures var natType := Classify(ps, c, now).natType;
      && (natType == NoNat <==> ps == [] || IsV6(ps[0]))
      && (natType == Cone <==>
            ps != [] && !IsV6(ps[0]) && forall i | 0 <= i < |ps| :: ps[i].externalPort == ps[0].externalPort)
      && (natType != NoNat && natType != Cone ==>
            var n, s, t := |ps| - 1, SquaresAround(Deltas(ps), Average(Deltas(ps))), c.threshold;
            && n >= 1
            && (natType == SymmetricSequential <==> n == 1 || SpreadBelow(s, t + 1, n))
            && (natType == SymmetricPseudo <==> n > 1 && !SpreadBelow(s, t + 1, n) && SpreadBelow(s, 3 * t + 1, n)))
  {
    hide Classify, Deltas, Average, SquaresAround, Deviation, ConfidenceOf, AllSame, SpreadBelow, IsV6;
    AllSameMeans(ps);
    ClassifyCases(ps, c, now);
    if ps != [] && !IsV6(ps[0]) && !AllSame(ps) {
      var ds := Deltas(ps);
      ConfidenceBySquares(ds, c, |ps| - 1, SquaresAround(ds, Average(ds)), c.threshold);
    }
  }

  lemma ClassifyCases(ps: seq<Probe>, c: Config, now: nat)
    ensures Classify(ps, c, now).natType ==
            if ps == [] || IsV6(ps[0]) then NoNat
            else if AllSame(ps) then Cone
            else TypeOf(ConfidenceOf(c, Deviation(Deltas(ps))))
    ensures ps != [] && !AllSame(ps) ==> |Deltas(ps)| == |ps| - 1 > 0
  {
    DeltasOfDifferent(ps);
    hide Deltas, Average, Deviation, ConfidenceOf, AllSame, IsV6, Predict;
  }

  // There is a prediction exactly for the first two of these, and it says what it should: the last address
  // and port, the mean delta, a range around their sum of the configured margin, cut to 1024..65535.
  lemma PredictionSays(ps: seq<Probe>, c: Config, now: nat)
    ensures var info := Classify(ps, c, now);
      && (info.prediction.Some? <==> info.natType in {SymmetricSequential, SymmetricPseudo})
      && (info.prediction.Some? ==>
            && |ps| >= 2
            && var p, first, last := info.prediction.value, ps[0].externalPort, ps[|ps| - 1].externalPort;
               var margin := if info.natType == SymmetricSequential then c.marginSequential else c.marginPseudo;
               && p.externalIp == ps[|ps| - 1].externalIp && p.basePort == last && p.probedAt == now
               && p.confidence == (if info.natType == SymmetricSequential then Sequential else PseudoSequential)
               && IsCutOff(last - first, |ps| - 1, p.delta)
               && p.start == Max(last + p.delta - margin, 1024)
               && (last + p.delta + margin >= 0 ==> p.end == Min(last + p.delta + margin, 65535)))
  {
    DeltasOfDifferent(ps);
    if |ps| >= 2 {
      DeltasTelescope(ps);
      TruncDivCutsOff(ps[|ps| - 1].externalPort - ps[0].externalPort, |ps| - 1);
      MeanDeltaSmall(ps);
      assert Average(Deltas(ps)) == TruncDiv(ps[|ps| - 1].externalPort - ps[0].externalPort, |ps| - 1);
      RangeCuts(ps[|ps| - 1].externalPort + Average(Deltas(ps)), c.marginSequential);
      RangeCuts(ps[|ps| - 1].externalPort + Average(Deltas(ps)), c.marginPseudo);
    }
    hide Deltas, Average, TruncDiv, Deviation, AllSame, ConfidenceOf, IsCutOff, RangeStart, RangeEnd, IsV6;
  }

  lemma RangeCuts(center: int, margin: nat)
    requires -65535 <= center <= 131070
    ensures RangeStart(center, margin) == Max(center - margin, 1024)
    ensures center + margin >= 0 ==> RangeEnd(center, margin) == Min(center + margin, 65535)
  {
  }

  lemma MeanDeltaSmall(ps: seq<Probe>)
    requires |ps| >= 2
    ensures -65535 <= TruncDiv(ps[|ps| - 1].externalPort - ps[0].externalPort, |ps| - 1) <= 65535
  {
    var a, n := ps[|ps| - 1].externalPort - ps[0].externalPort, |ps| - 1;
    var b: nat := if a >= 0 then a else 0 - a;
    DivBounds(b, n);
    MulMono(1, n, b / n);
  }

  // ----- Port progressions ------------------------------------------------------------------

  // Each observed port is the one before it plus `d`.
  ghost predicate Progression(ps: seq<Probe>, d: int) {
    |ps| < 2 || (ps[1].externalPort == ps[0].externalPort + d && Progression(ps[1..], d))
  }

  // The deltas add up to the distance between the first and the last port.
  lemma {:induction false} DeltasTelescope(ps: seq<Probe>)
    requires ps != []
    ensures Sum(Deltas(ps)) == ps[|ps| - 1].externalPort - ps[0].externalPort
  {
    if |ps| < 2 {
    } else {
      DeltasTelescope(ps[1..]);
    }
  }

  lemma {:induction false} ProgressionDeltas(ps: seq<Probe>, d: int)
    requires Progression(ps, d)
    ensures forall i | 0 <= i < |Deltas(ps)| :: Deltas(ps)[i] == d
    ensures Sum(Deltas(ps)) == d * |Deltas(ps)|
  {
    if |ps| < 2 {
    } else {
      ProgressionDeltas(ps[1..], d);
      assert Deltas(ps) == [d] + Deltas(ps[1..]) && Deltas(ps)[1..] == Deltas(ps[1..]);
      Distribute(|Deltas(ps[1..])|, 1, d);
    }
  }

  lemma {:induction false} NoSquares(ds: seq<int>, mean: int)
    requires forall i | 0 <= i < |ds| :: ds[i] == mean
    ensures SquaresAround(ds, mean) == 0
  {
    if ds == [] {
    } else {
      NoSquares(ds[1..], mean);
    }
  }

  lemma ExactDivision(d: int, n: nat)
    requires n > 0
    ensures TruncDiv(d * n, n) == d
  {
    var a: nat := if d >= 0 then d else -d;
    DivMod(a * n, n, a, 0);
    if d < 0 {
      assert d * n == -(a * n);
    } else {
      MulMono(0, d, n);
    }
  }

  lemma ProgressionStatistics(ps: seq<Probe>, d: int)
    requires |ps| >= 2 && Progression(ps, d) && d != 0
    ensures !AllSame(ps) && |Deltas(ps)| == |ps| - 1 && Average(Deltas(ps)) == d && Deviation(Deltas(ps)) == 0
  {
    var ds := Deltas(ps);
    DeltasOfDifferent(ps);
    ProgressionDeltas(ps, d);
    ExactDivision(d, |ds|);
    NoSquares(ds, d);
    if |ds| > 1 {
      DivMod(0, |ds| - 1, 0, 0);
    }
  }

  // Any arithmetic progression of IPv4 ports is classified as sequential, with its step as the delta.
  // Whatever the margin, the range contains the true next port if and only if that port lies between
  // 1024 and 65535.
  lemma ProgressionIsSequential(ps: seq<Probe>, d: int, c: Config, now: nat)
    requires |ps| >= 2 && Progression(ps, d) && d != 0 && !IsV6(ps[0])
    ensures var last := ps[|ps| - 1];
      var p, next := Predict(last, d, Sequential, c.marginSequential, now), last.externalPort + d;
      && Classify(ps, c, now) == NatInfo(SymmetricSequential, Some(p))
      && (p.start <= next <= p.end <==> 1024 <= next <= 65535)
  {
    ProgressionStatistics(ps, d);
    RangeContainsIff(ps[|ps| - 1].externalPort + d, c.marginSequential);
    hide RangeStart, RangeEnd;
  }

  lemma RangeContainsIff(next: int, margin: nat)
    ensures RangeStart(next, margin) <= next <= RangeEnd(next, margin) <==> 1024 <= next <= 65535
  {
  }

  // The range is well formed exactly when it overlaps the ports from 1024 to 65535.
  lemma RangeWellFormedIff(center: int, margin: nat)
    requires -65535 <= center <= 131070
    ensures 1024 <= RangeStart(center, margin) <= RangeEnd(center, margin) <= 65535 <==>
            center - margin <= 65535 && center + margin >= 1024
  {
  }

  // ----- Dialling the predicted ports -------------------------------------------------------

  // 16-bit arithmetic that overflows panics in a build with overflow checks and wraps around in one
  // without them.
  datatype Dial = Panic | Dialled(ports: seq<port>)

  function PortsFrom(start: nat, end: int): seq<port>
    requires end < 65536
    decreases end - start
  {
    if start > end then [] else [start] + PortsFrom(start + 1, end)
  }

  function Dialling(start: port, end: port, maxProbes: nat, checks: bool): Dial {
    var cap := maxProbes % 65536;
    if checks && (end < start || start + cap >= 65536 || start + cap == 0) then Panic
    else Dialled(PortsFrom(start, Min(end, (start + cap - 1) % 65536)))
  }

  method ProbeRange(start: port, end: port, maxProbes: nat, checks: bool) returns (r: Dial)
    ensures r == Dialling(start, end, maxProbes, checks)
  {
    var cap := maxProbes % 65536;
    if checks && (end < start || start + cap >= 65536 || start + cap == 0) {
      return Panic;
    }
    var effectiveEnd := Min(end, (start + cap - 1) % 65536);
    var ports := DialEach(start, effectiveEnd);
    r := Dialled(ports);
  }

  method DialEach(start: port, end: int) returns (ports: seq<port>)
    requires end < 65536
    ensures ports == PortsFrom(start, end)
  {
    ports := [];
    var p: nat := start;
    while p <= end
      invariant p <= 65536 && ports + PortsFrom(p, end) == PortsFrom(start, end)
      decreases end - p
    {
      assert PortsFrom(p, end) == [p] + PortsFrom(p + 1, end);
      ports := ports + [p];
      p := p + 1;
    }
  }

  lemma {:induction false} AboutPortsFrom(start: nat, end: int)
    requires end < 65536
    ensures |PortsFrom(start, end)| == if start > end then 0 else end - start + 1
    ensures forall p: port :: p in PortsFrom(start, end) <==> start <= p <= end
    decreases end - start
  {
    if start > end {
    } else {
      AboutPortsFrom(start + 1, end);
    }
  }

  // The last sum of start and limit that does not get out of hand.
  function SumLimit(checks: bool): nat {
    if checks then 65535 else 65536
  }

  // Exactly the given range is dialled if and only if it fits the probe limit and the limit fits below
  // 65536, or both start and limit are zero and the difference wraps around.
  lemma DialsRangeIff(start: port, end: port, maxProbes: nat, checks: bool)
    requires start <= end
    ensures var cap := maxProbes % 65536;
      Dialling(start, end, maxProbes, checks) == Dialled(PortsFrom(start, end)) <==>
        (end - start < cap && start + cap <= SumLimit(checks)) || (!checks && start + cap == 0)
  {
    var cap := maxProbes % 65536;
    AboutPortsFrom(start, end);
    AboutPortsFrom(start, Min(end, (start + cap - 1) % 65536));
    hide PortsFrom;
    WrappedSum(start, cap);
  }

  lemma WrappedSum(start: nat, cap: nat)
    requires start < 65536 && cap < 65536
    ensures (start + cap - 1) % 65536 ==
            if start + cap == 0 then 65535 else if start + cap <= 65536 then start + cap - 1 else start + cap - 65537
  {
  }

  // `predicted_range` narrows both ends to 16 bits.
  function DialPrediction(p: Prediction, maxProbes: nat, checks: bool): Dial {
    Dialling(p.start % 65536, p.end % 65536, maxProbes, checks)
  }

  lemma NarrowedRange(next: port, margin: nat)
    ensures RangeStart(next, margin) % 65536 == Max(next - margin, 1024)
    ensures RangeEnd(next, margin) % 65536 == Min(next + margin, 65535)
  {
  }

  predicate Dials(dial: Dial, p: int) {
    dial.Dialled? && 0 <= p < 65536 && p in dial.ports
  }

  lemma DialAroundIff(next: port, margin: nat, maxProbes: nat, checks: bool, p: Prediction)
    requires p.start == RangeStart(next, margin) && p.end == RangeEnd(next, margin)
    ensures var start, cap, dial := Max(next - margin, 1024), maxProbes % 65536, DialPrediction(p, maxProbes, checks);
      && (Dials(dial, next) <==> 1024 <= next && next < start + cap <= SumLimit(checks))
      && (1024 <= next ==> (dial.Panic? <==> checks && start + cap > 65535))
  {
    NarrowedRange(next, margin);
    hide RangeStart, RangeEnd, PortsFrom;
    var start, end, cap := Max(next - margin, 1024), Min(next + margin, 65535), maxProbes % 65536;
    WrappedSum(start, cap);
    AboutPortsFrom(start, Min(end, (start + cap - 1) % 65536));
  }

  // From the probes to the wire, for every configuration and either kind of build: after a progression
  // of ports, the true next port is among the ports dialled if and only if it is a port from 1024 on, the
  // limit reaches it from the start of the range, and start plus limit do not overflow.
  lemma NextPortDialledIff(ps: seq<Probe>, d: int, c: Config, now: nat, checks: bool)
    requires |ps| >= 2 && Progression(ps, d) && d != 0 && !IsV6(ps[0])
    ensures var next, info := ps[|ps| - 1].externalPort + d, Classify(ps, c, now);
      && info.prediction.Some?
      && var start, cap := Max(next - c.marginSequential, 1024), c.maxProbes % 65536;
         var dial := DialPrediction(info.prediction.value, c.maxProbes, checks);
         && (Dials(dial, next) <==> 1024 <= next <= 65535 && next < start + cap <= SumLimit(checks))
         && (1024 <= next <= 65535 ==> (dial.Panic? <==> checks && start + cap > 65535))
  {
    hide Classify, DialPrediction, RangeStart, RangeEnd;
    ProgressionIsSequential(ps, d, c, now);
    var last := ps[|ps| - 1];
    var next := last.externalPort + d;
    if 0 <= next < 65536 {
      DialAroundIff(next, c.marginSequential, c.maxProbes, checks, Predict(last, d, Sequential, c.marginSequential, now));
    }
  }

  // With the default configuration that is from 1024 to 65521, and to 65522 where sums wrap around.
  lemma DefaultNextPortIff(ps: seq<Probe>, d: int, now: nat, checks: bool)
    requires |ps| >= 2 && Progression(ps, d) && d != 0 && !IsV6(ps[0])
    ensures var next, info := ps[|ps| - 1].externalPort + d, Classify(ps, DEFAULT, now);
      && info.prediction.Some?
      && var dial := DialPrediction(info.prediction.value, DEFAULT.maxProbes, checks);
         && (Dials(dial, next) <==> 1024 <= next <= (if checks then 65521 else 65522))
         && (checks && 65522 <= next <= 65535 ==> dial == Panic)
  {
    hide Classify, DialPrediction;
    NextPortDialledIff(ps, d, DEFAULT, now, checks);
  }

  // ----- The margins the cache assumes ------------------------------------------------------

  function At(p: port): Probe {
    Probe("203.0.113.7", p, 0)
  }

  const STEADY := [At(30000), At(30010), At(30020)]

  // Where there is a prediction, the two answers differ in the margin only.
  lemma PredictionAgreesIff(ps: seq<Probe>, c: Config, now: nat, confidence: Confidence)
    requires ps != [] && !IsV6(ps[0]) && !AllSame(ps)
    requires confidence == ConfidenceOf(c, Deviation(Deltas(ps))) != Random
    ensures var center := ps[|ps| - 1].externalPort + Average(Deltas(ps));
      CacheAgrees(ps, c, now) <==>
        && RangeStart(center, Margin(c, confidence)) == RangeStart(center, FixedMargin(confidence))
        && RangeEnd(center, Margin(c, confidence)) == RangeEnd(center, FixedMargin(confidence))
  {
    FreshPrediction(ps, c, now, confidence);
    CachedPrediction(ps, Classify(ps, c, now), confidence);
    hide Deltas, Average, Deviation, AllSame, ConfidenceOf, RangeStart, RangeEnd, Classify, FromCache, BuildCache;
  }

  lemma FreshPrediction(ps: seq<Probe>, c: Config, now: nat, confidence: Confidence)
    requires ps != [] && !IsV6(ps[0]) && !AllSame(ps)
    requires confidence == ConfidenceOf(c, Deviation(Deltas(ps))) != Random
    ensures Classify(ps, c, now) == NatInfo(TypeOf(confidence),
      Some(Predict(ps[|ps| - 1], Average(Deltas(ps)), confidence, Margin(c, confidence), now)))
  {
    DeltasOfDifferent(ps);
    hide Deltas, Average, Deviation, AllSame, ConfidenceOf, Predict;
  }

  lemma CachedPrediction(ps: seq<Probe>, info: NatInfo, confidence: Confidence)
    requires ps != [] && !AllSame(ps) && confidence != Random
    requires info.prediction.Some? && info.prediction.value.confidence == confidence
    ensures var last := ps[|ps| - 1];
      FromCache(BuildCache(ps, info)) == NatInfo(TypeOf(confidence),
        Some(Predict(last, Average(Deltas(ps)), confidence, FixedMargin(confidence), last.timestampMs / 1000)))
  {
    hide Deltas, Average, Deviation, AllSame, Predict;
  }

  lemma SteadyDisagrees(c: Config, now: nat)
    requires c.marginSequential != 3
    ensures STEADY != [] && !IsV6(STEADY[0]) && !CacheAgrees(STEADY, c, now)
  {
    assert STEADY[1..] == [At(30010), At(30020)] && STEADY[1..][1..] == [At(30020)];
    ProgressionStatistics(STEADY, 10);
    PredictionAgreesIff(STEADY, c, now, Sequential);
    assert RangeStart(30030, c.marginSequential) != RangeStart(30030, 3);
  }

  // Ports that go up by `d` and down again.
  function Swing(d: int): seq<Probe>
    requires 0 <= d < 65536
  {
    [At(0), At(d), At(0)]
  }

  lemma SwingDeltas(d: int)
    requires 0 < d < 65536
    ensures Deltas(Swing(d)) == [d, -d] && !AllSame(Swing(d))
  {
    var ps := Swing(d);
    assert ps[1..] == [At(d), At(0)] && ps[1..][1..] == [At(0)];
    assert Deltas(ps[1..]) == [-d] + Deltas(ps[1..][1..]) == [-d];
    assert Deltas(ps) == [d] + [-d];
  }

  lemma SwingStatistics(d: int)
    ensures Average([d, -d]) == 0 && SquaresAround([d, -d], 0) == 2 * (d * d)
  {
    var ds := [d, -d];
    assert ds[1..] == [-d] && [-d][1..] == [] && Sum([-d]) == -d && Sum(ds) == 0;
    assert SquaresAround([-d], 0) == Square(-d) == d * d;
  }

  // The largest deviation there is.
  const MAX_DEVIATION := 92680

  // For every threshold below the largest deviation some swing lies between one and three times it.
  lemma SwingBetween(t: nat) returns (d: int)
    requires 1 <= t < MAX_DEVIATION
    ensures 0 < d < 65536 && t < FloorSqrt(2 * (d * d)) <= 3 * t
  {
    hide FloorSqrt;
    d := if t < 65535 then t + 1 else 65535;
    SqrtAtMost(2 * (d * d), t);
    SqrtAtMost(2 * (d * d), 3 * t);
    Expand(t);
    MulMono(1, t, t);
    if t >= 65535 {
      SquareMono(t + 1, MAX_DEVIATION);
      SquareMono(3 * 65535 + 1, 3 * t + 1);
    }
  }

  lemma Expand(t: nat)
    ensures (t + 1) * (t + 1) == t * t + 2 * t + 1 && (3 * t + 1) * (3 * t + 1) == 9 * (t * t) + 6 * t + 1
  {
  }

  lemma SwingIsPseudo(c: Config, d: int)
    requires 0 < d < 65536 && c.threshold < FloorSqrt(2 * (d * d)) <= 3 * c.threshold
    ensures ConfidenceOf(c, Deviation(Deltas(Swing(d)))) == PseudoSequential && Average(Deltas(Swing(d))) == 0
  {
    SwingDeltas(d);
    SwingStatistics(d);
    hide Deltas, Average, FloorSqrt, SquaresAround;
    assert Deviation([d, -d]) == FloorSqrt(2 * (d * d));
  }

  lemma SwingDisagrees(c: Config, now: nat) returns (ps: seq<Probe>)
    requires 1 <= c.threshold < MAX_DEVIATION && c.marginPseudo != 8
    ensures ps != [] && !IsV6(ps[0]) && !CacheAgrees(ps, c, now)
  {
    hide Deltas, Average, AllSame, FloorSqrt, Deviation, ConfidenceOf, CacheAgrees;
    var d := SwingBetween(c.threshold);
    ps := Swing(d);
    SwingDeltas(d);
    SwingIsPseudo(c, d);
    PredictionAgreesIff(ps, c, now, PseudoSequential);
    assert RangeEnd(0, c.marginPseudo) != RangeEnd(0, 8);
  }

  lemma {:induction false} DeltaSquares(ps: seq<Probe>)
    ensures SquaresAround(Deltas(ps), 0) <= |Deltas(ps)| * 4294836225
  {
    if |ps| < 2 {
    } else {
      DeltaSquares(ps[1..]);
      var d := ps[1].externalPort - ps[0].externalPort;
      SquareMono(if d < 0 then -d else d, 65535);
      assert Square(d - 0) <= 4294836225;
      assert Deltas(ps)[1..] == Deltas(ps[1..]);
    }
  }

  lemma {:induction false} ShiftMean(ds: seq<int>, mean: int)
    ensures SquaresAround(ds, mean) == SquaresAround(ds, 0) - 2 * (mean * Sum(ds)) + |ds| * (mean * mean)
  {
    if ds == [] {
    } else {
      ShiftMean(ds[1..], mean);
      ShiftOne(ds[0], Sum(ds[1..]), mean, |ds| - 1);
    }
  }

  lemma ShiftOne(d: int, rest: int, mean: int, n: nat)
    ensures Square(d - mean) == Square(d - 0) - 2 * (mean * d) + mean * mean
    ensures mean * (d + rest) == mean * d + mean * rest && (n + 1) * (mean * mean) == n * (mean * mean) + mean * mean
  {
  }

  // Around the truncated mean the squares are no larger than around zero.
  lemma MeanShrinks(ds: seq<int>)
    requires ds != []
    ensures SquaresAround(ds, Average(ds)) <= SquaresAround(ds, 0)
  {
    var a, s, n := Average(ds), Sum(ds), |ds|;
    ShiftMean(ds, a);
    hide SquaresAround, Sum;
    var t := if s >= 0 then s else 0 - s;
    DivBounds(t, n);
    TruncatedMean(s, n, a, t, t / n);
  }

  lemma TruncatedMean(s: int, n: nat, a: int, t: nat, b: nat)
    requires b * n <= t && ((s == t && a == b) || (s == 0 - t && a == 0 - b))
    ensures n * (a * a) <= 2 * (a * s)
  {
    TimesSelf(b, n, t);
    if a != b {
      Negated(b, t, a, s);
    }
  }

  lemma TimesSelf(b: nat, n: nat, s: nat)
    requires b * n <= s
    ensures n * (b * b) <= 2 * (b * s)
  {
    MulMono(b * n, s, b);
    MulMono(0, s, b);
    assert b * n * b == n * (b * b) && s * b == b * s;
  }

  lemma Negated(b: int, t: int, a: int, s: int)
    requires a == 0 - b && s == 0 - t
    ensures a * a == b * b && a * s == b * t
  {
  }

  lemma DeviationBound(ps: seq<Probe>)
    ensures Deviation(Deltas(ps)) <= MAX_DEVIATION
  {
    var ds := Deltas(ps);
    if |ds| > 1 {
      DeltaSquares(ps);
      MeanShrinks(ds);
      DeviationAtMost(ds, MAX_DEVIATION);
      assert (MAX_DEVIATION + 1) * (MAX_DEVIATION + 1) == 8589767761;
    }
  }

  // The pseudo-sequential margin is of no account where nothing is classified so.
  lemma PseudoUnused(ps: seq<Probe>, c: Config, now: nat)
    requires c.marginSequential == 3 && ps != [] && !IsV6(ps[0])
    requires ConfidenceOf(c, Deviation(Deltas(ps))) != PseudoSequential
    ensures CacheAgrees(ps, c, now)
  {
    var c8 := c.(marginPseudo := 8);
    CacheAgreesIff(ps, c8, now);
    hide Deltas, Average, Deviation, AllSame, Predict;
    assert Classify(ps, c, now) == Classify(ps, c8, now);
  }

  // The margins are fixed in the cache: it agrees on every list of IPv4 probes if and only if they
  // are configured to these very values, the second one unless the threshold rules out its use.
  lemma AlwaysAgreesIff(c: Config, now: nat)
    ensures (forall ps: seq<Probe> | ps != [] && !IsV6(ps[0]) :: CacheAgrees(ps, c, now)) <==>
            c.marginSequential == 3 && (c.marginPseudo == 8 || c.threshold == 0 || c.threshold >= MAX_DEVIATION)
  {
    hide CacheAgrees, IsV6, Deviation, Deltas;
    if c.marginSequential != 3 {
      SteadyDisagrees(c, now);
    } else if c.marginPseudo != 8 && 1 <= c.threshold < MAX_DEVIATION {
      var _ := SwingDisagrees(c, now);
    } else {
      forall ps: seq<Probe> | ps != [] && !IsV6(ps[0])
        ensures CacheAgrees(ps, c, now)
      {
        if c.marginPseudo == 8 {
          CacheAgreesIff(ps, c, now);
        } else {
          DeviationBound(ps);
          PseudoUnused(ps, c, now);
        }
      }
    }
  }
}
