// Which proxy to try (crates/voip-client/src/proxy.rs): the recovery order and the cache's choice.

module ProxyOrder {
  import opened Wrappers

  datatype Proxy = Proxy(url: string, latencyMs: nat, id: nat)

  function Matching(ps: seq<Proxy>, url: string): Option<Proxy> {
    if ps == [] then None else if ps[0].url == url then Some(ps[0]) else Matching(ps[1..], url)
  }

  function Find(ps: seq<Proxy>, last: Option<string>): Option<Proxy> {
    if last.None? then None else Matching(ps, last.value)
  }

  function Others(ps: seq<Proxy>, last: Option<string>): seq<Proxy> {
    if ps == [] then []
    else (if last == Some(ps[0].url) then [] else [ps[0]]) + Others(ps[1..], last)
  }

  // A stable sort by latency, as `sort_by_key` is.
  function Insert(p: Proxy, s: seq<Proxy>): seq<Proxy> {
    if s == [] || p.latencyMs <= s[0].latencyMs then [p] + s else [s[0]] + Insert(p, s[1..])
  }

  function SortByLatency(s: seq<Proxy>): seq<Proxy> {
    if s == [] then [] else Insert(s[0], SortByLatency(s[1..]))
  }

  function First(p: Option<Proxy>): seq<Proxy> {
    if p.Some? then [p.value] else []
  }

  function RecoveryOrder(ps: seq<Proxy>, last: Option<string>): seq<Proxy> {
    First(Find(ps, last)) + SortByLatency(Others(ps, last))
  }

  // The first of the proxies with the least latency, as `min_by_key` picks it.
  function Fastest(ps: seq<Proxy>): Option<Proxy> {
    if ps == [] then None else
    var rest := Fastest(ps[1..]);
    if rest.None? || ps[0].latencyMs <= rest.value.latencyMs then Some(ps[0]) else rest
  }

  // A cache is valid within its time to live and as long as it is not empty.
  function Best(ps: seq<Proxy>, last: Option<string>, age: nat, ttl: nat): Option<Proxy> {
    if age >= ttl || ps == [] then None else
    var preferred := Find(ps, last);
    if preferred.Some? then preferred else Fastest(ps)
  }

  // ----- The sort ---------------------------------------------------------------------------

  ghost predicate Sorted(s: seq<Proxy>) {
    |s| < 2 || (s[0].latencyMs <= s[1].latencyMs && Sorted(s[1..]))
  }

  // The proxies of one latency, in order.
  function OfLatency(s: seq<Proxy>, latency: nat): seq<Proxy> {
    if s == [] then [] else (if s[0].latencyMs == latency then [s[0]] else []) + OfLatency(s[1..], latency)
  }

  lemma {:induction false} InsertSorted(p: Proxy, s: seq<Proxy>)
    requires Sorted(s)
    ensures Sorted(Insert(p, s))
  {
    if s == [] || p.latencyMs <= s[0].latencyMs {
      assert ([p] + s)[1..] == s;
    } else {
      InsertSorted(p, s[1..]);
      assert ([s[0]] + Insert(p, s[1..]))[1..] == Insert(p, s[1..]);
    }
  }

  lemma {:induction false} InsertPermutes(p: Proxy, s: seq<Proxy>)
    ensures multiset(Insert(p, s)) == multiset([p]) + multiset(s)
  {
    if s != [] && p.latencyMs > s[0].latencyMs {
      InsertPermutes(p, s[1..]);
      assert s == [s[0]] + s[1..];
    }
  }

  lemma {:induction false} InsertStable(p: Proxy, s: seq<Proxy>, l: nat)
    ensures OfLatency(Insert(p, s), l) == (if p.latencyMs == l then [p] else []) + OfLatency(s, l)
  {
    if s == [] || p.latencyMs <= s[0].latencyMs {
      assert ([p] + s)[1..] == s;
    } else {
      InsertStable(p, s[1..], l);
      var r := Insert(p, s[1..]);
      assert Insert(p, s) == [s[0]] + r && ([s[0]] + r)[1..] == r;
      hide Insert;
      if p.latencyMs == l {
        assert OfLatency(Insert(p, s), l) == [] + OfLatency(r, l) == OfLatency(r, l);
        assert OfLatency(s, l) == [] + OfLatency(s[1..], l) == OfLatency(s[1..], l);
      } else {
        assert [] + OfLatency(s[1..], l) == OfLatency(s[1..], l) && [] + OfLatency(s, l) == OfLatency(s, l);
      }
    }
  }

  // Sorted and a permutation.
  lemma {:induction false} AboutSort(s: seq<Proxy>)
    ensures Sorted(SortByLatency(s)) && multiset(SortByLatency(s)) == multiset(s)
  {
    if s == [] {
    } else {
      AboutSort(s[1..]);
      InsertSorted(s[0], SortByLatency(s[1..]));
      InsertPermutes(s[0], SortByLatency(s[1..]));
      assert s == [s[0]] + s[1..];
    }
  }

  // Stable: entries of equal latency keep their order.
  lemma {:induction false} SortStable(s: seq<Proxy>, l: nat)
    ensures OfLatency(SortByLatency(s), l) == OfLatency(s, l)
  {
    if s == [] {
    } else {
      SortStable(s[1..], l);
      InsertStable(s[0], SortByLatency(s[1..]), l);
    }
  }

  // ----- The recovery order -----------------------------------------------------------------

  // The entries of the last-used URL, in order.
  function OfUrl(ps: seq<Proxy>, last: Option<string>): seq<Proxy> {
    if ps == [] then [] else (if last == Some(ps[0].url) then [ps[0]] else []) + OfUrl(ps[1..], last)
  }

  lemma {:induction false} Partition(ps: seq<Proxy>, last: Option<string>)
    ensures multiset(ps) == multiset(OfUrl(ps, last)) + multiset(Others(ps, last))
  {
    if ps == [] {
    } else {
      Partition(ps[1..], last);
      assert ps == [ps[0]] + ps[1..];
    }
  }

  lemma {:induction false} FindIsFirst(ps: seq<Proxy>, last: Option<string>)
    ensures Find(ps, last) == if OfUrl(ps, last) == [] then None else Some(OfUrl(ps, last)[0])
  {
    if ps == [] {
    } else {
      FindIsFirst(ps[1..], last);
    }
  }

  // Nothing is lost but later duplicates of the last-used URL; what follows the preferred proxy is
  // sorted by latency, stably.
  lemma OrderIsComplete(ps: seq<Proxy>, last: Option<string>, l: nat)
    ensures var order, same := RecoveryOrder(ps, last), OfUrl(ps, last);
      var tail := order[|First(Find(ps, last))|..];
      && multiset(order) + multiset(if same == [] then [] else same[1..]) == multiset(ps)
      && Sorted(tail) && OfLatency(tail, l) == OfLatency(Others(ps, last), l)
  {
    hide OfUrl, Others, Sorted, OfLatency, SortByLatency, Find;
    var order, same, others := RecoveryOrder(ps, last), OfUrl(ps, last), Others(ps, last);
    Partition(ps, last);
    FindIsFirst(ps, last);
    AboutSort(others);
    SortStable(others, l);
    var first := First(Find(ps, last));
    assert order[|first|..] == SortByLatency(others);
    assert multiset(order) == multiset(first) + multiset(SortByLatency(others));
    if same != [] {
      assert same == [same[0]] + same[1..];
    }
  }

  lemma {:induction false} SortHead(s: seq<Proxy>)
    ensures Fastest(s) == if SortByLatency(s) == [] then None else Some(SortByLatency(s)[0])
  {
    if s == [] {
    } else {
      SortHead(s[1..]);
    }
  }

  // The recovery order starts with the proxy that a cache picks from the same list within its time to live;
  // a cache picks none exactly if it is too old or empty.
  lemma HeadIsBest(ps: seq<Proxy>, last: Option<string>, age: nat, ttl: nat)
    ensures var order := RecoveryOrder(ps, last);
      age < ttl ==> Best(ps, last, age, ttl) == if order == [] then None else Some(order[0])
    ensures Best(ps, last, age, ttl) == None <==> age >= ttl || ps == []
  {
    FastestOfSome(ps);
    FindIsFirst(ps, last);
    if OfUrl(ps, last) == [] {
      NoneMatches(ps, last);
      SortHead(ps);
      assert [] + SortByLatency(ps) == SortByLatency(ps);
    }
  }

  lemma FastestOfSome(ps: seq<Proxy>)
    ensures Fastest(ps) == None <==> ps == []
  {
  }

  lemma {:induction false} NoneMatches(ps: seq<Proxy>, last: Option<string>)
    requires OfUrl(ps, last) == []
    ensures Others(ps, last) == ps
  {
    if ps == [] {
    } else {
      NoneMatches(ps[1..], last);
    }
  }
}
