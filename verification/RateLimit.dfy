// Token-bucket rate limiter of the signaling server (crates/voip-signaling/src/rate_limit.rs).
//
// Time is a monotone integer number of milliseconds, passed in where the server reads its clock.
// Tokens are whole numbers: every update of the `f64` field adds or subtracts a whole number and
// caps the sum at a 32-bit maximum, so no rounding is visible.

module RateLimit {
  import opened Arith

  // ----- The state of one bucket ------------------------------------------------------------

  datatype BucketConfig = BucketConfig(maxTokens: nat, refillAmount: nat, intervalMs: nat)

  datatype BucketState = BucketState(tokens: nat, lastRefill: nat)

  type Buckets = map<string, BucketState>

  function Min(a: int, b: int): int {
    if a <= b then a else b
  }

  // Clock differences saturate at zero.
  function Elapsed(since: nat, now: nat): nat {
    if now < since then 0 else now - since
  }

  function NewBucket(c: BucketConfig, now: nat): BucketState {
    BucketState(c.maxTokens, now)
  }

  function Refilled(c: BucketConfig, b: BucketState, now: nat): BucketState
    requires c.intervalMs > 0
  {
    var elapsed := Elapsed(b.lastRefill, now);
    if elapsed >= c.intervalMs then
      BucketState(Min(b.tokens + elapsed / c.intervalMs * c.refillAmount, c.maxTokens), now)
    else
      b
  }

  function Consumed(c: BucketConfig, b: BucketState, now: nat): (r: (BucketState, bool))
    requires c.intervalMs > 0
  {
    var b' := Refilled(c, b, now);
    if b'.tokens >= 1 then (b'.(tokens := b'.tokens - 1), true) else (b', false)
  }

  // The bucket a check works on: the stored one, or a new full one.
  function Entry(c: BucketConfig, m: Buckets, peer: string, now: nat): BucketState {
    if peer in m then m[peer] else NewBucket(c, now)
  }

  function Checked(c: BucketConfig, m: Buckets, peer: string, now: nat): (r: (Buckets, bool))
    requires c.intervalMs > 0
  {
    var (b, allowed) := Consumed(c, Entry(c, m, peer, now), now);
    (m[peer := b], allowed)
  }

  predicate Stale(c: BucketConfig, b: BucketState, now: nat) {
    Elapsed(b.lastRefill, now) >= c.intervalMs * 2
  }

  function Retained(c: BucketConfig, m: Buckets, now: nat): Buckets {
    map p | p in m && !Stale(c, m[p], now) :: m[p]
  }

  // What one pass of the cleanup may leave behind. Which entries an over-full map loses depends on
  // the iteration order of the hash map, so the overflow case is a relation.
  ghost predicate CleanedUp(c: BucketConfig, m: Buckets, now: nat, max: nat, m': Buckets) {
    var kept := Retained(c, m, now);
    && m'.Keys <= kept.Keys
    && (forall p | p in m' :: m'[p] == kept[p])
    && (if |kept| <= max then m' == kept else |m'| == max)
  }

  // ----- The imperative form ----------------------------------------------------------------

  class Bucket {
    var tokens: nat
    var lastRefill: nat
    const config: BucketConfig

    constructor (config: BucketConfig, now: nat)
      ensures this.config == config && State() == NewBucket(config, now)
    {
      this.tokens := config.maxTokens;
      this.lastRefill := now;
      this.config := config;
    }

    ghost function State(): BucketState
      reads this
    {
      BucketState(tokens, lastRefill)
    }

    method Refill(now: nat)
      requires config.intervalMs > 0
      modifies this
      ensures State() == Refilled(config, old(State()), now)
    {
      var elapsed := Elapsed(lastRefill, now);
      if elapsed >= config.intervalMs {
        var intervals := elapsed / config.intervalMs;
        var added := intervals * config.refillAmount;
        tokens := Min(tokens + added, config.maxTokens);
        lastRefill := now;
      }
    }

    method TryConsume(count: nat, now: nat) returns (allowed: bool)
      requires config.intervalMs > 0
      modifies this
      ensures var b := Refilled(config, old(State()), now);
        && allowed == (b.tokens >= count)
        && State() == if allowed then b.(tokens := b.tokens - count) else b
    {
      Refill(now);
      if tokens >= count {
        tokens := tokens - count;
        allowed := true;
      } else {
        allowed := false;
      }
    }
  }

  // One hash map of the limiter, which keeps three of them (calls, registrations, messages) side by
  // side. The buckets are objects of their own, changed in place.
  class BucketMap {
    var buckets: map<string, Bucket>
    const config: BucketConfig

    constructor (config: BucketConfig)
      requires config.intervalMs > 0
      ensures Valid() && buckets == map[] && this.config == config
    {
      buckets := map[];
      this.config := config;
    }

    ghost predicate Valid()
      reads this, buckets.Values
    {
      && config.intervalMs > 0
      && (forall p | p in buckets :: buckets[p].config == config)
      && (forall p, q | p in buckets && q in buckets && p != q :: buckets[p] != buckets[q])
    }

    ghost function View(): Buckets
      reads this, buckets.Values
    {
      map p | p in buckets :: buckets[p].State()
    }

    method Check(peer: string, now: nat) returns (allowed: bool)
      requires Valid()
      modifies this, buckets.Values
      ensures Valid()
      ensures (View(), allowed) == Checked(config, old(View()), peer, now)
      ensures forall b | b in buckets.Values :: b in old(buckets.Values) || fresh(b)
    {
      if peer !in buckets {
        var created := new Bucket(config, now);
        buckets := buckets[peer := created];
      }
      var bucket := buckets[peer];
      assert bucket.State() == Entry(config, old(View()), peer, now);
      allowed := bucket.TryConsume(1, now);
      assert View() == old(View())[peer := bucket.State()];
    }

    method Remove(peer: string)
      requires Valid()
      modifies this
      ensures Valid() && View() == old(View()) - {peer}
      ensures buckets.Values <= old(buckets.Values)
    {
      buckets := buckets - {peer};
    }

    // The hash map's `retain`: drop the stale buckets.
    method Retain(now: nat)
      requires Valid()
      modifies this
      ensures Valid() && View() == Retained(config, old(View()), now)
      ensures buckets.Values <= old(buckets.Values)
    {
      buckets := map p | p in buckets && Elapsed(buckets[p].lastRefill, now) < config.intervalMs * 2 :: buckets[p];
    }

    method Cleanup(now: nat, max: nat)
      requires Valid()
      modifies this
      ensures Valid() && CleanedUp(config, old(View()), now, max, View())
      ensures buckets.Values <= old(buckets.Values)
    {
      Retain(now);
      Trim(max);
    }

    // Drop entries, in whatever order the hash map yields them, until at most `max` are left.
    method Trim(max: nat)
      requires Valid()
      modifies this
      ensures Valid() && View().Keys <= old(View()).Keys
      ensures forall p | p in View() :: View()[p] == old(View())[p]
      ensures if |old(View())| <= max then View() == old(View()) else |View()| == max
      ensures buckets.Values <= old(buckets.Values)
    {
      while |buckets| > max
        invariant buckets.Keys <= old(buckets.Keys) && forall p | p in buckets :: buckets[p] == old(buckets)[p]
        invariant if |old(buckets)| <= max then buckets == old(buckets) else |buckets| >= max
        decreases |buckets|
      {
        var key :| key in buckets;
        buckets := Without(buckets, key);
      }
      assert View().Keys == buckets.Keys && old(View()).Keys == old(buckets).Keys;
    }
  }

  // Dropping a present key makes a map one entry smaller.
  function Without<V>(m: map<string, V>, key: string): (m': map<string, V>)
    requires key in m
    ensures |m'| == |m| - 1 && m'.Keys == m.Keys - {key}
    ensures forall p | p in m' :: m'[p] == m[p]
  {
    var m' := m - {key};
    assert m.Keys == m'.Keys + {key};
    m'
  }

  // ----- Runs -------------------------------------------------------------------------------

  datatype Op = Check(peer: string) | Remove(peer: string) | Cleanup

  // One operation, the clock it saw, its answer (false where there is none) and the map it left.
  datatype Step = Step(now: nat, op: Op, answer: bool, post: Buckets)

  ghost predicate StepOk(c: BucketConfig, max: nat, m: Buckets, s: Step)
    requires c.intervalMs > 0
  {
    match s.op
    case Check(p) => (s.post, s.answer) == Checked(c, m, p, s.now)
    case Remove(p) => s.post == m - {p} && !s.answer
    case Cleanup => CleanedUp(c, m, s.now, max, s.post) && !s.answer
  }

  // `steps` is a run from map `m` under a clock that starts at `now` and never goes back.
  ghost predicate IsRun(c: BucketConfig, max: nat, m: Buckets, now: nat, steps: seq<Step>)
    requires c.intervalMs > 0
    decreases |steps|
  {
    steps == [] ||
    (now <= steps[0].now && StepOk(c, max, m, steps[0]) && IsRun(c, max, steps[0].post, steps[0].now, steps[1..]))
  }

  // No cleanup of the run meets more live buckets than the map may hold.
  ghost predicate NeverOverflows(c: BucketConfig, max: nat, m: Buckets, steps: seq<Step>)
    decreases |steps|
  {
    steps == [] ||
    ((steps[0].op.Cleanup? ==> |Retained(c, m, steps[0].now)| <= max) &&
     NeverOverflows(c, max, steps[0].post, steps[1..]))
  }

  function Answers(steps: seq<Step>): seq<bool> {
    if steps == [] then []
    else (if steps[0].op.Check? then [steps[0].answer] else []) + Answers(steps[1..])
  }

  // The same requests on a limiter that starts from `m` and never cleans up.
  function Uncleaned(c: BucketConfig, m: Buckets, steps: seq<Step>): seq<Step>
    requires c.intervalMs > 0
    decreases |steps|
  {
    if steps == [] then [] else
    var now := steps[0].now;
    match steps[0].op
    case Check(p) =>
      var (m', answer) := Checked(c, m, p, now);
      [Step(now, Check(p), answer, m')] + Uncleaned(c, m', steps[1..])
    case Remove(p) => [Step(now, Remove(p), false, m - {p})] + Uncleaned(c, m - {p}, steps[1..])
    case Cleanup => Uncleaned(c, m, steps[1..])
  }

  function UncleanedAnswers(c: BucketConfig, m: Buckets, steps: seq<Step>): seq<bool>
    requires c.intervalMs > 0
  {
    Answers(Uncleaned(c, m, steps))
  }

  // ----- Stale eviction is invisible exactly when two intervals refill a bucket -------------

  // `m` is `all` without some buckets that have been stale for a while.
  ghost predicate MissesOnlyStale(c: BucketConfig, m: Buckets, all: Buckets, now: nat) {
    && m.Keys <= all.Keys
    && (forall p | p in all :: if p in m then m[p] == all[p] else all[p].lastRefill + c.intervalMs * 2 <= now)
  }

  // A stale bucket and a new one become equal at the next request.
  lemma StaleActsAsNew(c: BucketConfig, b: BucketState, now: nat)
    requires c.intervalMs > 0 && 2 * c.refillAmount >= c.maxTokens && b.lastRefill + c.intervalMs * 2 <= now
    ensures Refilled(c, b, now) == NewBucket(c, now) == Refilled(c, NewBucket(c, now), now)
  {
    var k := (now - b.lastRefill) / c.intervalMs;
    DivAtLeast(now - b.lastRefill, c.intervalMs, 2);
    MulMono(2, k, c.refillAmount);
  }

  // The uncleaned map after the step.
  function Shadow(c: BucketConfig, all: Buckets, s: Step): Buckets
    requires c.intervalMs > 0
  {
    match s.op
    case Check(p) => Checked(c, all, p, s.now).0
    case Remove(p) => all - {p}
    case Cleanup => all
  }

  lemma StepMissesOnlyStale(c: BucketConfig, max: nat, m: Buckets, all: Buckets, now: nat, s: Step)
    requires c.intervalMs > 0 && 2 * c.refillAmount >= c.maxTokens && now <= s.now
    requires StepOk(c, max, m, s) && (s.op.Cleanup? ==> |Retained(c, m, s.now)| <= max)
    requires MissesOnlyStale(c, m, all, now)
    ensures MissesOnlyStale(c, s.post, Shadow(c, all, s), s.now)
    ensures s.op.Check? ==> Checked(c, all, s.op.peer, s.now).1 == s.answer
  {
    if s.op.Check? && s.op.peer in all && s.op.peer !in m {
      StaleActsAsNew(c, all[s.op.peer], s.now);
    }
  }

  lemma {:induction false} EvictionInvisibleFrom(
    c: BucketConfig, max: nat, m: Buckets, all: Buckets, now: nat, steps: seq<Step>)
    requires c.intervalMs > 0 && 2 * c.refillAmount >= c.maxTokens
    requires IsRun(c, max, m, now, steps) && NeverOverflows(c, max, m, steps)
    requires MissesOnlyStale(c, m, all, now)
    ensures Answers(steps) == UncleanedAnswers(c, all, steps)
    ensures forall p :: Admitted(steps, p) == Admitted(Uncleaned(c, all, steps), p)
    decreases |steps|
  {
    hide MissesOnlyStale, StepOk, Retained, Checked;
    if steps == [] {
    } else {
      var s := steps[0];
      StepMissesOnlyStale(c, max, m, all, now, s);
      EvictionInvisibleFrom(c, max, s.post, Shadow(c, all, s), s.now, steps[1..]);
    }
  }

  ghost predicate EvictionInvisible(c: BucketConfig, max: nat)
    requires c.intervalMs > 0
  {
    forall steps | IsRun(c, max, map[], 0, steps) && NeverOverflows(c, max, map[], steps) ::
      Answers(steps) == UncleanedAnswers(c, map[], steps)
  }

  // For every configuration: evicting stale buckets never changes an answer if and only if two
  // refill intervals are enough to fill a bucket.
  lemma EvictionInvisibleIff(c: BucketConfig, max: nat)
    requires c.intervalMs > 0
    ensures EvictionInvisible(c, max) <==> 2 * c.refillAmount >= c.maxTokens
  {
    if 2 * c.refillAmount >= c.maxTokens {
      forall steps | IsRun(c, max, map[], 0, steps) && NeverOverflows(c, max, map[], steps)
        ensures Answers(steps) == UncleanedAnswers(c, map[], steps)
      {
        EvictionInvisibleFrom(c, max, map[], map[], 0, steps);
      }
    } else {
      var _ := EvictionVisible(c, max);
    }
  }

  // A check made now on map `m` finds `k` tokens and will refill no more at this instant.
  ghost predicate Holds(c: BucketConfig, m: Buckets, now: nat, k: nat)
    requires c.intervalMs > 0
  {
    Refilled(c, Entry(c, m, "p", now), now) == BucketState(k, now)
  }

  function Spent(m: Buckets, k: nat, now: nat, n: nat): Buckets
    requires n <= k
  {
    if n == 0 then m else m["p" := BucketState(k - n, now)]
  }

  // Two limiters that both hold at least `n` tokens answer `n` requests alike.
  lemma {:induction false} Spend(c: BucketConfig, max: nat, m: Buckets, k: nat, m2: Buckets, k2: nat,
                                 now: nat, n: nat, rest: seq<Step>) returns (run: seq<Step>)
    requires c.intervalMs > 0 && n <= k && n <= k2
    requires Holds(c, m, now, k) && Holds(c, m2, now, k2)
    requires IsRun(c, max, Spent(m, k, now, n), now, rest) && NeverOverflows(c, max, Spent(m, k, now, n), rest)
    ensures IsRun(c, max, m, now, run) && NeverOverflows(c, max, m, run)
    ensures Answers(run) == UncleanedAnswers(c, m2, run) <==>
            Answers(rest) == UncleanedAnswers(c, Spent(m2, k2, now, n), rest)
    decreases n
  {
    hide IsRun, NeverOverflows, Answers, UncleanedAnswers;
    run := rest;
    if n == 0 {
    } else {
      var next, next2 := Spent(m, k, now, 1), Spent(m2, k2, now, 1);
      assert Spent(next, k - 1, now, n - 1) == Spent(m, k, now, n);
      assert Spent(next2, k2 - 1, now, n - 1) == Spent(m2, k2, now, n);
      var tail := Spend(c, max, next, k - 1, next2, k2 - 1, now, n - 1, rest);
      run := SpendOne(c, max, m, k, m2, k2, now, tail);
    }
  }

  lemma SpendOne(c: BucketConfig, max: nat, m: Buckets, k: nat, m2: Buckets, k2: nat, now: nat, tail: seq<Step>)
    returns (run: seq<Step>)
    requires c.intervalMs > 0 && k > 0 && k2 > 0 && Holds(c, m, now, k) && Holds(c, m2, now, k2)
    requires IsRun(c, max, Spent(m, k, now, 1), now, tail) && NeverOverflows(c, max, Spent(m, k, now, 1), tail)
    ensures IsRun(c, max, m, now, run) && NeverOverflows(c, max, m, run)
    ensures Answers(run) == UncleanedAnswers(c, m2, run) <==>
            Answers(tail) == UncleanedAnswers(c, Spent(m2, k2, now, 1), tail)
  {
    var s, next2 := Step(now, Check("p"), true, Spent(m, k, now, 1)), Spent(m2, k2, now, 1);
    run := [s] + tail;
    assert run[1..] == tail;
    assert Checked(c, m2, "p", now) == (next2, true);
    assert Answers(run)[1..] == Answers(tail);
    assert Uncleaned(c, m2, run)[1..] == Uncleaned(c, next2, tail);
    assert UncleanedAnswers(c, m2, run)[1..] == UncleanedAnswers(c, next2, tail);
  }

  const DRAINED: Buckets := map["p" := BucketState(0, 0)]

  lemma EvictionVisibleOnceDrained(c: BucketConfig, max: nat) returns (run: seq<Step>)
    requires c.intervalMs > 0 && 2 * c.refillAmount < c.maxTokens
    ensures IsRun(c, max, DRAINED, 0, run) && NeverOverflows(c, max, DRAINED, run)
    ensures Answers(run) != UncleanedAnswers(c, DRAINED, run)
  {
    var t, due, full := 2 * c.intervalMs, 2 * c.refillAmount, c.maxTokens;
    DivAtLeast(t, c.intervalMs, 2);
    DivAtMost(t, c.intervalMs, 2);
    var left := Spent(map[], full, t, due);
    var last := Step(t, Check("p"), true, Checked(c, left, "p", t).0);
    var again := Spend(c, max, map[], full, DRAINED, due, t, due, [last]);
    assert Answers([last])[0];
    assert !UncleanedAnswers(c, Spent(DRAINED, due, t, due), [last])[0];
    run := [Step(t, Cleanup, false, map[])] + again;
    assert Retained(c, DRAINED, t) == map[];
    assert run[1..] == again;
  }

  // Otherwise a peer that spends all its tokens, waits two intervals for the cleanup and asks again
  // gets a token it is not due.
  lemma EvictionVisible(c: BucketConfig, max: nat) returns (run: seq<Step>)
    requires c.intervalMs > 0 && 2 * c.refillAmount < c.maxTokens
    ensures IsRun(c, max, map[], 0, run) && NeverOverflows(c, max, map[], run)
    ensures Answers(run) != UncleanedAnswers(c, map[], run)
  {
    var rest := EvictionVisibleOnceDrained(c, max);
    run := Spend(c, max, map[], c.maxTokens, map[], c.maxTokens, 0, c.maxTokens, rest);
  }

  // ----- Admission bounds -------------------------------------------------------------------

  function Admitted(steps: seq<Step>, p: string): nat {
    if steps == [] then 0
    else (if steps[0].op == Check(p) && steps[0].answer then 1 else 0) + Admitted(steps[1..], p)
  }

  // Once `p` has a bucket the run does not take it away.
  ghost predicate KeepsBucket(m: Buckets, steps: seq<Step>, p: string)
    decreases |steps|
  {
    steps == [] || ((p in m ==> p in steps[0].post) && KeepsBucket(steps[0].post, steps[1..], p))
  }

  ghost predicate EndsBy(steps: seq<Step>, end: nat) {
    forall i | 0 <= i < |steps| :: steps[i].now <= end
  }

  // A check moves the credit of a bucket (its tokens plus what the clock can add by `end`) down by
  // the request it admits.
  lemma CheckSpendsCredit(c: BucketConfig, b: BucketState, now: nat, end: nat)
    requires c.intervalMs > 0 && b.lastRefill <= now <= end
    ensures var (b', allowed) := Consumed(c, b, now);
      && b'.lastRefill <= now
      && (if allowed then 1 else 0) + Credit(c, b', end) <= Credit(c, b, end)
  {
    var k, l, d := now - b.lastRefill, end - now, c.intervalMs;
    if k >= d {
      FloorsAddTimes(c.refillAmount, k, l, d);
      assert Elapsed(b.lastRefill, end) == k + l;
    }
  }

  function Credit(c: BucketConfig, b: BucketState, end: nat): nat
    requires c.intervalMs > 0
  {
    b.tokens + c.refillAmount * (Elapsed(b.lastRefill, end) / c.intervalMs)
  }

  // A step that is not a check of `p` leaves the bucket of `p` alone, if it leaves it there.
  lemma OthersUntouched(c: BucketConfig, max: nat, m: Buckets, s: Step, p: string)
    requires c.intervalMs > 0 && StepOk(c, max, m, s) && s.op != Check(p) && p in m && p in s.post
    ensures s.post[p] == m[p]
  {
    if s.op.Cleanup? {
      assert s.post[p] == Retained(c, m, s.now)[p];
    }
  }

  // From any state, a bucket admits at most its credit.
  lemma {:induction false} AdmittedFrom(
    c: BucketConfig, max: nat, m: Buckets, now: nat, steps: seq<Step>, p: string, end: nat)
    requires c.intervalMs > 0 && IsRun(c, max, m, now, steps) && KeepsBucket(m, steps, p) && EndsBy(steps, end)
    requires p in m && m[p].lastRefill <= now <= end
    ensures Admitted(steps, p) <= Credit(c, m[p], end)
    decreases |steps|
  {
    if steps == [] {
    } else {
      var s := steps[0];
      if s.op == Check(p) {
        CheckSpendsCredit(c, m[p], s.now, end);
      } else {
        OthersUntouched(c, max, m, s, p);
      }
      AdmittedFrom(c, max, s.post, s.now, steps[1..], p, end);
    }
  }

  // Lifetime bound: a peer without a bucket at `now` is admitted at most
  // max + refill * floor((end - now) / interval) times by `end`, while its bucket is kept.
  lemma LifetimeBound(c: BucketConfig, max: nat, m: Buckets, now: nat, steps: seq<Step>, p: string, end: nat)
    requires c.intervalMs > 0 && IsRun(c, max, m, now, steps) && KeepsBucket(m, steps, p) && EndsBy(steps, end)
    requires p !in m && now <= end
    ensures Admitted(steps, p) <= c.maxTokens + c.refillAmount * ((end - now) / c.intervalMs)
  {
    AdmittedFromNew(c, max, m, now, steps, p, end);
  }

  lemma {:induction false} AdmittedFromNew(
    c: BucketConfig, max: nat, m: Buckets, now: nat, steps: seq<Step>, p: string, end: nat)
    requires c.intervalMs > 0 && IsRun(c, max, m, now, steps) && KeepsBucket(m, steps, p) && EndsBy(steps, end)
    requires p !in m && now <= end
    ensures Admitted(steps, p) <= Credit(c, NewBucket(c, now), end)
    decreases |steps|
  {
    if steps == [] {
    } else {
      var s := steps[0];
      if s.op == Check(p) {
        CheckSpendsCredit(c, NewBucket(c, s.now), s.now, end);
        AdmittedFrom(c, max, s.post, s.now, steps[1..], p, end);
      } else {
        AdmittedFromNew(c, max, s.post, s.now, steps[1..], p, end);
      }
      FloorMono(c.refillAmount, end - s.now, end - now, c.intervalMs);
    }
  }

  lemma {:induction false} UncleanedIsRun(
    c: BucketConfig, max: nat, m: Buckets, now: nat, steps: seq<Step>, p: string, end: nat)
    requires c.intervalMs > 0 && EndsBy(steps, end) && (forall i | 0 <= i < |steps| :: steps[i].op != Remove(p))
    requires forall i, j | 0 <= i < j < |steps| :: steps[i].now <= steps[j].now
    requires forall i | 0 <= i < |steps| :: now <= steps[i].now
    ensures var run := Uncleaned(c, m, steps);
      IsRun(c, max, m, now, run) && KeepsBucket(m, run, p) && EndsBy(run, end)
    decreases |steps|
  {
    if steps == [] {
    } else {
      var s := steps[0];
      var m' := match s.op case Check(q) => Checked(c, m, q, s.now).0 case Remove(q) => m - {q} case Cleanup => m;
      UncleanedIsRun(c, max, m', if s.op.Cleanup? then now else s.now, steps[1..], p, end);
      var run, rest := Uncleaned(c, m, steps), Uncleaned(c, m', steps[1..]);
      if !s.op.Cleanup? {
        assert run[1..] == rest;
      }
    }
  }

  lemma {:induction false} ClockNeverGoesBack(c: BucketConfig, max: nat, m: Buckets, now: nat, steps: seq<Step>)
    requires c.intervalMs > 0 && IsRun(c, max, m, now, steps)
    ensures forall i | 0 <= i < |steps| :: now <= steps[i].now
    ensures forall i, j | 0 <= i < j < |steps| :: steps[i].now <= steps[j].now
    decreases |steps|
  {
    if steps == [] {
    } else {
      ClockNeverGoesBack(c, max, steps[0].post, steps[0].now, steps[1..]);
      assert forall i | 0 < i < |steps| :: steps[i] == steps[1..][i - 1];
    }
  }

  // Eviction does not loosen the limit: the lifetime bound also holds of a peer whose stale buckets
  // are evicted and created anew any number of times.
  lemma BoundDespiteEviction(c: BucketConfig, max: nat, now: nat, steps: seq<Step>, p: string, end: nat)
    requires c.intervalMs > 0 && 2 * c.refillAmount >= c.maxTokens
    requires IsRun(c, max, map[], now, steps) && NeverOverflows(c, max, map[], steps)
    requires now <= end && EndsBy(steps, end) && forall i | 0 <= i < |steps| :: steps[i].op != Remove(p)
    ensures Admitted(steps, p) <= c.maxTokens + c.refillAmount * ((end - now) / c.intervalMs)
  {
    EvictionInvisibleFrom(c, max, map[], map[], now, steps);
    ClockNeverGoesBack(c, max, map[], now, steps);
    UncleanedIsRun(c, max, map[], now, steps, p, end);
    LifetimeBound(c, max, map[], now, Uncleaned(c, map[], steps), p, end);
  }

  // What holds of every bucket at every moment of a run.
  ghost predicate Sound(c: BucketConfig, m: Buckets, now: nat) {
    forall p | p in m :: m[p].tokens <= c.maxTokens && m[p].lastRefill <= now
  }

  // A check that finds a new or refilled bucket starts a stretch with the plain lifetime bound.
  lemma AfterRefill(
    c: BucketConfig, max: nat, m: Buckets, now: nat, steps: seq<Step>, p: string, start: nat, width: nat)
    requires c.intervalMs > 0 && IsRun(c, max, m, now, steps) && KeepsBucket(m, steps, p)
    requires start <= now <= start + width && EndsBy(steps, start + width)
    requires steps != [] && steps[0].op == Check(p)
    requires p !in m || Elapsed(m[p].lastRefill, steps[0].now) >= c.intervalMs
    ensures Admitted(steps, p) <= c.maxTokens + c.refillAmount * (width / c.intervalMs)
  {
    var s, end := steps[0], start + width;
    AdmittedFrom(c, max, s.post, s.now, steps[1..], p, end);
    FloorMono(c.refillAmount, end - s.now, width, c.intervalMs);
  }

  lemma {:induction false} WindowBoundFrom(
    c: BucketConfig, max: nat, m: Buckets, now: nat, steps: seq<Step>, p: string, start: nat, width: nat, flow: nat)
    requires c.intervalMs > 0 && IsRun(c, max, m, now, steps) && KeepsBucket(m, steps, p)
    requires Sound(c, m, now) && start <= now <= start + width && EndsBy(steps, start + width)
    requires flow == c.refillAmount * (width / c.intervalMs)
    ensures Admitted(steps, p) <= (if p in m then m[p].tokens else 0) + c.maxTokens + flow
    ensures Admitted(steps, p) <= c.maxTokens + c.refillAmount + flow
    decreases |steps|
  {
    if steps == [] {
    } else {
      var s := steps[0];
      if s.op == Check(p) && (p !in m || Elapsed(m[p].lastRefill, s.now) >= c.intervalMs) {
        AfterRefill(c, max, m, now, steps, p, start, width);
      } else {
        StepSound(c, max, m, now, s);
        WindowBoundFrom(c, max, s.post, s.now, steps[1..], p, start, width, flow);
        if s.op == Check(p) {
          AdmittedFrom(c, max, m, now, steps, p, start + width);
          RecentCredit(c, m[p], start, width);
        } else if p in m {
          OthersUntouched(c, max, m, s, p);
        }
      }
    }
  }

  lemma RecentCredit(c: BucketConfig, b: BucketState, start: nat, width: nat)
    requires c.intervalMs > 0 && b.lastRefill <= start + width && start < b.lastRefill + c.intervalMs
    ensures Credit(c, b, start + width) <= b.tokens + c.refillAmount + c.refillAmount * (width / c.intervalMs)
  {
    var d, n := c.intervalMs, c.refillAmount;
    var gap := if b.lastRefill <= start then start - b.lastRefill else 0;
    FloorsAdd(gap, width, d);
    DivAtMost(gap, d, 0);
    FloorMono(n, start + width - b.lastRefill, gap + width, d);
    MulMono((gap + width) / d, width / d + 1, n);
    Distribute(width / d, 1, n);
  }

  lemma StepSound(c: BucketConfig, max: nat, m: Buckets, now: nat, s: Step)
    requires c.intervalMs > 0 && Sound(c, m, now) && now <= s.now && StepOk(c, max, m, s)
    ensures Sound(c, s.post, s.now)
  {
    forall p | p in s.post
      ensures s.post[p].tokens <= c.maxTokens && s.post[p].lastRefill <= s.now
    {
      if s.op != Check(p) {
        OthersUntouched(c, max, m, s, p);
      }
    }
  }

  function MapAt(steps: seq<Step>, i: nat): Buckets
    requires i <= |steps|
  {
    if i == 0 then map[] else steps[i - 1].post
  }

  function ClockAt(steps: seq<Step>, i: nat): nat
    requires i <= |steps|
  {
    if i == 0 then 0 else steps[i - 1].now
  }

  lemma {:induction false} SliceOfRun(c: BucketConfig, max: nat, steps: seq<Step>, i: nat, j: nat)
    requires c.intervalMs > 0 && IsRun(c, max, map[], 0, steps) && i < j <= |steps|
    ensures Sound(c, MapAt(steps, i), steps[i].now)
    ensures IsRun(c, max, MapAt(steps, i), steps[i].now, steps[i..j])
  {
    SuffixOfRun(c, max, steps, i);
    PrefixOfRun(c, max, MapAt(steps, i), ClockAt(steps, i), steps[i..], j - i);
    assert steps[i..][..j - i] == steps[i..j];
  }

  lemma {:induction false} SuffixOfRun(c: BucketConfig, max: nat, steps: seq<Step>, i: nat)
    requires c.intervalMs > 0 && IsRun(c, max, map[], 0, steps) && i <= |steps|
    ensures Sound(c, MapAt(steps, i), ClockAt(steps, i))
    ensures IsRun(c, max, MapAt(steps, i), ClockAt(steps, i), steps[i..])
  {
    if i == 0 {
    } else {
      SuffixOfRun(c, max, steps, i - 1);
      StepSound(c, max, MapAt(steps, i - 1), ClockAt(steps, i - 1), steps[i - 1]);
      assert steps[i - 1..][1..] == steps[i..];
    }
  }

  lemma {:induction false} PrefixOfRun(c: BucketConfig, max: nat, m: Buckets, now: nat, steps: seq<Step>, k: nat)
    requires c.intervalMs > 0 && IsRun(c, max, m, now, steps) && k <= |steps|
    ensures IsRun(c, max, m, now, steps[..k])
    decreases k
  {
    if k == 0 {
    } else {
      PrefixOfRun(c, max, steps[0].post, steps[0].now, steps[1..], k - 1);
      assert steps[..k][1..] == steps[1..][..k - 1];
    }
  }

  // Window bound: in every run, and for every stretch of it that fits into `width` milliseconds and
  // does not lose the bucket of `p`, at most 2 * max + refill * floor(width / interval) requests of
  // `p` are admitted, and at most max + refill + refill * floor(width / interval).
  lemma WindowBound(c: BucketConfig, max: nat, steps: seq<Step>, i: nat, j: nat, p: string, width: nat, flow: nat)
    requires c.intervalMs > 0 && IsRun(c, max, map[], 0, steps) && i < j <= |steps|
    requires EndsBy(steps[i..j], steps[i].now + width) && KeepsBucket(MapAt(steps, i), steps[i..j], p)
    requires flow == c.refillAmount * (width / c.intervalMs)
    ensures Admitted(steps[i..j], p) <= 2 * c.maxTokens + flow
    ensures Admitted(steps[i..j], p) <= c.maxTokens + c.refillAmount + flow
  {
    SliceOfRun(c, max, steps, i, j);
    WindowBoundFrom(c, max, MapAt(steps, i), steps[i].now, steps[i..j], p, steps[i].now, width, flow);
  }

  // ----- The window bound across evictions --------------------------------------------------

  lemma {:induction false} SuffixNeverOverflows(c: BucketConfig, max: nat, steps: seq<Step>, i: nat)
    requires NeverOverflows(c, max, map[], steps) && i <= |steps|
    ensures NeverOverflows(c, max, MapAt(steps, i), steps[i..])
  {
    if i == 0 {
      assert steps[0..] == steps;
    } else {
      SuffixNeverOverflows(c, max, steps, i - 1);
      assert steps[i - 1..][1..] == steps[i..];
    }
  }

  lemma {:induction false} PrefixNeverOverflows(c: BucketConfig, max: nat, m: Buckets, steps: seq<Step>, k: nat)
    requires NeverOverflows(c, max, m, steps) && k <= |steps|
    ensures NeverOverflows(c, max, m, steps[..k])
    decreases k
  {
    if k == 0 {
    } else {
      PrefixNeverOverflows(c, max, steps[0].post, steps[1..], k - 1);
      assert steps[..k][1..] == steps[1..][..k - 1];
    }
  }

  // The uncleaned map beside the i-th map of a run.
  lemma {:induction false} ShadowAt(c: BucketConfig, max: nat, steps: seq<Step>, i: nat) returns (all: Buckets)
    requires c.intervalMs > 0 && 2 * c.refillAmount >= c.maxTokens
    requires IsRun(c, max, map[], 0, steps) && NeverOverflows(c, max, map[], steps) && i <= |steps|
    ensures MissesOnlyStale(c, MapAt(steps, i), all, ClockAt(steps, i)) && Sound(c, all, ClockAt(steps, i))
  {
    hide MissesOnlyStale, StepOk, Sound, Retained;
    all := map[];
    if i == 0 {
      NothingMissing(c);
    } else {
      all := ShadowAt(c, max, steps, i - 1);
      SuffixOfRun(c, max, steps, i - 1);
      SuffixNeverOverflows(c, max, steps, i - 1);
      StepMissesOnlyStale(c, max, MapAt(steps, i - 1), all, ClockAt(steps, i - 1), steps[i - 1]);
      ShadowSound(c, all, ClockAt(steps, i - 1), steps[i - 1]);
      all := Shadow(c, all, steps[i - 1]);
    }
  }

  lemma NothingMissing(c: BucketConfig)
    ensures MissesOnlyStale(c, map[], map[], 0) && Sound(c, map[], 0)
  {
  }

  lemma ShadowSound(c: BucketConfig, all: Buckets, now: nat, s: Step)
    requires c.intervalMs > 0 && Sound(c, all, now) && now <= s.now
    ensures Sound(c, Shadow(c, all, s), s.now)
  {
  }

  // The window bound also holds of a peer whose stale buckets are evicted and created anew in the window.
  lemma WindowBoundDespiteEviction(
    c: BucketConfig, max: nat, steps: seq<Step>, i: nat, j: nat, p: string, width: nat, flow: nat)
    requires c.intervalMs > 0 && 2 * c.refillAmount >= c.maxTokens
    requires IsRun(c, max, map[], 0, steps) && NeverOverflows(c, max, map[], steps) && i < j <= |steps|
    requires EndsBy(steps[i..j], steps[i].now + width) && forall k | i <= k < j :: steps[k].op != Remove(p)
    requires flow == c.refillAmount * (width / c.intervalMs)
    ensures Admitted(steps[i..j], p) <= 2 * c.maxTokens + flow
    ensures Admitted(steps[i..j], p) <= c.maxTokens + c.refillAmount + flow
  {
    hide MissesOnlyStale, StepOk, Sound, IsRun, NeverOverflows;
    var all := ShadowAt(c, max, steps, i);
    var window, now := steps[i..j], steps[i].now;
    SliceOfRun(c, max, steps, i, j);
    SuffixNeverOverflows(c, max, steps, i);
    PrefixNeverOverflows(c, max, MapAt(steps, i), steps[i..], j - i);
    assert steps[i..][..j - i] == window;
    ClockNeverGoesBack(c, max, map[], 0, steps);
    MissesOnlyStaleLater(c, MapAt(steps, i), all, ClockAt(steps, i), now);
    EvictionInvisibleFrom(c, max, MapAt(steps, i), all, now, window);
    ClockNeverGoesBack(c, max, MapAt(steps, i), now, window);
    UncleanedIsRun(c, max, all, now, window, p, now + width);
    WindowBoundFrom(c, max, all, now, Uncleaned(c, all, window), p, now, width, flow);
  }

  lemma MissesOnlyStaleLater(c: BucketConfig, m: Buckets, all: Buckets, now: nat, later: nat)
    requires MissesOnlyStale(c, m, all, now) && Sound(c, all, now) && now <= later
    ensures MissesOnlyStale(c, m, all, later) && Sound(c, all, later)
  {
  }

  // ----- What a cleanup leaves --------------------------------------------------------------

  // In every run, a cleanup leaves as many of the buckets refilled less than two intervals ago as fit, with
  // their states, and no other; if all of them fit, all of them.
  lemma CleanupLeaves(c: BucketConfig, max: nat, m: Buckets, now: nat, steps: seq<Step>, p: string, young: set<string>)
    requires c.intervalMs > 0 && IsRun(c, max, m, now, steps) && steps != [] && steps[0].op.Cleanup?
    requires young == set q | q in m && steps[0].now < m[q].lastRefill + c.intervalMs * 2
    ensures var m' := steps[0].post;
      && |m'| == Min(|young|, max)
      && (p in m' ==> p in young && m'[p] == m[p])
      && (|young| <= max ==> (p in m' <==> p in young))
  {
    var kept := Retained(c, m, steps[0].now);
    assert kept.Keys == young;
    assert |kept| == |young|;
  }

  // ----- What a peer is sure to get ---------------------------------------------------------

  // A refill after `k` whole intervals, and no more, adds `k` refill amounts up to the maximum and starts
  // the clock anew; before the first whole interval nothing changes.
  lemma RefillExact(c: BucketConfig, b: BucketState, now: nat, k: nat)
    requires c.intervalMs > 0 && b.lastRefill + k * c.intervalMs <= now < b.lastRefill + (k + 1) * c.intervalMs
    ensures k == 0 ==> Refilled(c, b, now) == b
    ensures k > 0 ==> Refilled(c, b, now) == BucketState(Min(b.tokens + k * c.refillAmount, c.maxTokens), now)
  {
    var d := c.intervalMs;
    Distribute(k, 1, d);
    DivMod(now - b.lastRefill, d, k, now - b.lastRefill - k * d);
    if k > 0 {
      MulMono(1, k, d);
    }
  }

  // A clock that goes back refills nothing.
  lemma NoRefillBackwards(c: BucketConfig, b: BucketState, now: nat)
    requires c.intervalMs > 0 && now < b.lastRefill
    ensures Refilled(c, b, now) == b
  {
  }

  // `n` requests of one peer at the same moment.
  ghost predicate IsBurst(steps: seq<Step>, p: string, now: nat) {
    forall i | 0 <= i < |steps| :: steps[i].op == Check(p) && steps[i].now == now
  }

  lemma {:induction false} BurstSpends(
    c: BucketConfig, max: nat, m: Buckets, clock: nat, steps: seq<Step>, p: string, now: nat)
    requires c.intervalMs > 0 && IsRun(c, max, m, clock, steps) && IsBurst(steps, p, now)
    requires p in m && Elapsed(m[p].lastRefill, now) < c.intervalMs
    ensures Admitted(steps, p) == Min(|steps|, m[p].tokens)
    decreases |steps|
  {
    if steps == [] {
    } else {
      BurstSpends(c, max, steps[0].post, now, steps[1..], p, now);
    }
  }

  // Exactly as many requests of a burst are admitted as there are tokens: those left, and those of `k`
  // whole intervals since the last refill, up to the maximum.
  lemma BurstExact(c: BucketConfig, max: nat, m: Buckets, clock: nat, steps: seq<Step>, p: string, now: nat, k: nat)
    requires c.intervalMs > 0 && IsRun(c, max, m, clock, steps) && IsBurst(steps, p, now)
    requires p in m && m[p].tokens <= c.maxTokens
    requires m[p].lastRefill + k * c.intervalMs <= now < m[p].lastRefill + (k + 1) * c.intervalMs
    ensures Admitted(steps, p) == Min(|steps|, Min(m[p].tokens + k * c.refillAmount, c.maxTokens))
  {
    RefillExact(c, m[p], now, k);
    if steps == [] {
    } else {
      BurstSpends(c, max, steps[0].post, now, steps[1..], p, now);
    }
  }

  // Of a peer without a bucket exactly the maximum.
  lemma NewBurstExact(c: BucketConfig, max: nat, m: Buckets, clock: nat, steps: seq<Step>, p: string, now: nat)
    requires c.intervalMs > 0 && IsRun(c, max, m, clock, steps) && IsBurst(steps, p, now) && p !in m
    ensures Admitted(steps, p) == Min(|steps|, c.maxTokens)
  {
    if steps == [] {
    } else {
      BurstSpends(c, max, steps[0].post, now, steps[1..], p, now);
    }
  }

  // How many of the steps are requests of `p` before `end`.
  function Requests(steps: seq<Step>, p: string, end: nat): nat {
    if steps == [] then 0
    else (if steps[0].op == Check(p) && steps[0].now < end then 1 else 0) + Requests(steps[1..], p, end)
  }

  // From each of its requests on, within one interval, the peer makes at most as many as a refill gives.
  ghost predicate Paced(c: BucketConfig, steps: seq<Step>, p: string) {
    forall i | 0 <= i < |steps| && steps[i].op == Check(p) ::
      Requests(steps[i..], p, steps[i].now + c.intervalMs) <= Min(c.maxTokens, c.refillAmount)
  }

  // There are tokens for all requests before the next refill.
  ghost predicate Provided(c: BucketConfig, m: Buckets, steps: seq<Step>, p: string) {
    p in m ==> Requests(steps, p, m[p].lastRefill + c.intervalMs) <= m[p].tokens
  }

  lemma CheckProvides(c: BucketConfig, max: nat, m: Buckets, now: nat, steps: seq<Step>, p: string)
    requires c.intervalMs > 0 && IsRun(c, max, m, now, steps) && Sound(c, m, now) && Provided(c, m, steps, p)
    requires steps != [] && steps[0].op == Check(p)
    requires Requests(steps, p, steps[0].now + c.intervalMs) <= Min(c.maxTokens, c.refillAmount)
    ensures steps[0].answer && Provided(c, steps[0].post, steps[1..], p)
  {
    var s := steps[0];
    if p in m && Elapsed(m[p].lastRefill, s.now) >= c.intervalMs {
      var k := (s.now - m[p].lastRefill) / c.intervalMs;
      DivAtLeast(s.now - m[p].lastRefill, c.intervalMs, 1);
      MulMono(1, k, c.refillAmount);
    }
  }

  lemma {:induction false} NeverRefusedFrom(c: BucketConfig, max: nat, m: Buckets, now: nat, steps: seq<Step>,
                                            p: string, i: nat)
    requires c.intervalMs > 0 && IsRun(c, max, m, now, steps) && Sound(c, m, now)
    requires Paced(c, steps, p) && Provided(c, m, steps, p) && i < |steps| && steps[i].op == Check(p)
    ensures steps[i].answer
    decreases |steps|
  {
    hide StepOk, Sound;
    var s := steps[0];
    assert steps[0..] == steps;
    if s.op == Check(p) {
      CheckProvides(c, max, m, now, steps, p);
    } else {
      if p in m && p in s.post {
        OthersUntouched(c, max, m, s, p);
      } else if p in s.post {
        NotCreated(c, max, m, s, p);
        assert false;
      }
    }
    if i > 0 {
      StepSound(c, max, m, now, s);
      forall j | 0 <= j < |steps[1..]| && steps[1..][j].op == Check(p)
        ensures Requests(steps[1..][j..], p, steps[1..][j].now + c.intervalMs) <= Min(c.maxTokens, c.refillAmount)
      {
        assert steps[1..][j] == steps[j + 1] && steps[1..][j..] == steps[j + 1..];
      }
      NeverRefusedFrom(c, max, s.post, s.now, steps[1..], p, i - 1);
    }
  }

  lemma NotCreated(c: BucketConfig, max: nat, m: Buckets, s: Step, p: string)
    requires c.intervalMs > 0 && StepOk(c, max, m, s) && s.op != Check(p) && p !in m
    ensures p !in s.post
  {
  }

  // Lower bound: a peer that makes at most min(max, refill) requests within any interval is never refused,
  // in any run, whatever other peers do and whatever is removed, evicted or dropped.
  lemma NeverRefused(c: BucketConfig, max: nat, steps: seq<Step>, p: string, i: nat)
    requires c.intervalMs > 0 && IsRun(c, max, map[], 0, steps) && Paced(c, steps, p)
    requires i < |steps| && steps[i].op == Check(p)
    ensures steps[i].answer
  {
    NeverRefusedFrom(c, max, map[], 0, steps, p, i);
  }
}
