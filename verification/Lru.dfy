// A bounded least-recently-used cache with the documented behaviour of the `lru` crate: lookups and
// updates promote, `contains` does not, and inserting into a full cache evicts the entry that was
// used longest ago.

module Lru {
  import opened Wrappers

  // `order` lists the keys, most recently used first.
  datatype Cache<V> = Cache(order: seq<string>, items: map<string, V>)

  function Empty<V>(): Cache<V> {
    Cache([], map[])
  }

  function Without(o: seq<string>, k: string): seq<string> {
    if o == [] then [] else if o[0] == k then Without(o[1..], k) else [o[0]] + Without(o[1..], k)
  }

  function Front(o: seq<string>, k: string): seq<string> {
    [k] + Without(o, k)
  }

  predicate Contains<V>(c: Cache<V>, k: string) {
    k in c.items
  }

  function Get<V>(c: Cache<V>, k: string): (Cache<V>, Option<V>) {
    if k in c.items then (c.(order := Front(c.order, k)), Some(c.items[k])) else (c, None)
  }

  // Overwriting the entry that `get_mut` returned.
  function Update<V>(c: Cache<V>, k: string, v: V): Cache<V>
    requires k in c.items
  {
    Cache(Front(c.order, k), c.items[k := v])
  }

  function Put<V>(c: Cache<V>, cap: nat, k: string, v: V): Cache<V>
    requires cap > 0
  {
    if k in c.items then Update(c, k, v)
    else if |c.order| < cap || c.order == [] then Cache([k] + c.order, c.items[k := v])
    else
      var last := |c.order| - 1;
      Cache([k] + c.order[..last], (c.items - {c.order[last]})[k := v])
  }

  function Pop<V>(c: Cache<V>, k: string): Cache<V> {
    Cache(Without(c.order, k), c.items - {k})
  }

  // ----- Invariant --------------------------------------------------------------------------

  ghost predicate NoDuplicates(o: seq<string>) {
    forall i, j | 0 <= i < j < |o| :: o[i] != o[j]
  }

  ghost function Elements(o: seq<string>): set<string> {
    set k | k in o
  }

  ghost predicate Valid<V>(c: Cache<V>, cap: nat) {
    NoDuplicates(c.order) && |c.order| <= cap && Elements(c.order) == c.items.Keys
  }

  lemma {:induction false} AboutWithout(o: seq<string>, k: string)
    requires NoDuplicates(o)
    ensures NoDuplicates(Without(o, k)) && Elements(Without(o, k)) == Elements(o) - {k}
    ensures |Without(o, k)| == |o| - (if k in o then 1 else 0)
  {
    if o == [] {
    } else {
      AboutWithout(o[1..], k);
      assert Elements(o) == {o[0]} + Elements(o[1..]);
      assert o[0] !in Elements(o[1..]);
      if o[0] != k {
        var r := Without(o[1..], k);
        assert forall x | x in r :: x in Elements(r);
        assert Elements([o[0]] + r) == {o[0]} + Elements(r);
      }
    }
  }

  lemma AboutFront(o: seq<string>, k: string)
    requires NoDuplicates(o)
    ensures NoDuplicates(Front(o, k)) && Elements(Front(o, k)) == Elements(o) + {k}
    ensures |Front(o, k)| == |o| + (if k in o then 0 else 1)
  {
    AboutWithout(o, k);
    var r := Without(o, k);
    assert k !in Elements(r);
    assert forall x | x in r :: x in Elements(r);
    assert Elements([k] + r) == {k} + Elements(r);
  }

  lemma GetAndPopKeepValid<V>(c: Cache<V>, cap: nat, k: string)
    requires Valid(c, cap)
    ensures Valid(Get(c, k).0, cap) && Valid(Pop(c, k), cap)
  {
    AboutWithout(c.order, k);
    AboutFront(c.order, k);
    assert k in c.items <==> k in Elements(c.order);
  }

  lemma PutKeepsValid<V>(c: Cache<V>, cap: nat, k: string, v: V)
    requires Valid(c, cap) && cap > 0
    ensures Valid(Put(c, cap, k, v), cap)
  {
    AboutFront(c.order, k);
    assert k in c.items <==> k in Elements(c.order);
    if k !in c.items {
      PutNewKeepsValid(c, cap, k, v);
    }
  }

  lemma PutNewKeepsValid<V>(c: Cache<V>, cap: nat, k: string, v: V)
    requires Valid(c, cap) && cap > 0 && k !in c.items
    ensures Valid(Put(c, cap, k, v), cap)
  {
    assert k !in Elements(c.order);
    var o := Put(c, cap, k, v).order;
    if |c.order| < cap {
      assert Elements(o) == {k} + Elements(c.order);
    } else {
      var last := |c.order| - 1;
      assert c.order[last] in Elements(c.order);
      assert c.order == c.order[..last] + [c.order[last]];
      assert c.order[last] !in c.order[..last];
      assert Elements(c.order) == Elements(c.order[..last]) + {c.order[last]};
      assert Elements(o) == {k} + Elements(c.order[..last]);
    }
  }

  // ----- What an eviction costs -------------------------------------------------------------

  // The keys used after the last use of `k`; `used` lists all uses so far, oldest first.
  ghost function UsedSince(used: seq<string>, k: string): set<string> {
    if used == [] || used[|used| - 1] == k then {}
    else {used[|used| - 1]} + UsedSince(used[..|used| - 1], k)
  }

  lemma UsedSinceAppend(used: seq<string>, k: string, k': string)
    ensures UsedSince(used + [k'], k) == if k' == k then {} else UsedSince(used, k) + {k'}
  {
    assert (used + [k'])[..|used|] == used;
  }

  lemma {:induction false} NotUsedSinceItself(used: seq<string>, k: string)
    ensures k !in UsedSince(used, k)
  {
    if used != [] && used[|used| - 1] != k {
      NotUsedSinceItself(used[..|used| - 1], k);
    }
  }

  // Whatever stands in front of a key has been used since that key was.
  ghost predicate Recent(o: seq<string>, used: seq<string>) {
    forall i, j | 0 <= i < j < |o| :: o[i] in UsedSince(used, o[j])
  }

  lemma {:induction false} RecentWithout(o: seq<string>, used: seq<string>, k: string)
    requires Recent(o, used)
    ensures Recent(Without(o, k), used)
    ensures forall x | x in Without(o, k) :: x in o && x != k
  {
    if o == [] {
    } else {
      RecentWithout(o[1..], used, k);
      if o[0] != k {
        var r := Without(o[1..], k);
        forall j | 0 <= j < |r|
          ensures o[0] in UsedSince(used, r[j])
        {
          assert r[j] in o[1..];
        }
      }
    }
  }

  lemma RecentUse(o: seq<string>, used: seq<string>, k: string)
    requires Recent(o, used) && k !in o
    ensures Recent([k] + o, used + [k])
  {
    forall i, j | 0 <= i < j < |o| + 1
      ensures ([k] + o)[i] in UsedSince(used + [k], ([k] + o)[j])
    {
      UsedSinceAppend(used, ([k] + o)[j], k);
    }
  }

  lemma RecentFront(o: seq<string>, used: seq<string>, k: string)
    requires Recent(o, used)
    ensures Recent(Front(o, k), used + [k])
  {
    RecentWithout(o, used, k);
    RecentUse(Without(o, k), used, k);
  }

  // Inserting `k` into a full cache evicts a key only if `cap` distinct other keys, `k` among them,
  // have been used since that key was.
  lemma EvictionCost<V>(c: Cache<V>, cap: nat, used: seq<string>, k: string, v: V, victim: string)
    requires cap > 0 && Valid(c, cap) && Recent(c.order, used) && k !in c.items
    requires victim in c.items && victim !in Put(c, cap, k, v).items
    ensures |UsedSince(used + [k], victim)| >= cap && victim !in UsedSince(used + [k], victim)
  {
    var last := |c.order| - 1;
    assert victim in Elements(c.order);
    assert |c.order| == cap && victim == c.order[last];
    UsedSinceAppend(used, victim, k);
    NotUsedSinceItself(used + [k], victim);
    var others := Elements(c.order[..last]);
    forall x | x in others
      ensures x in UsedSince(used, victim)
    {
      var i :| 0 <= i < last && c.order[i] == x;
    }
    assert k !in Elements(c.order);
    ElementsSize(c.order[..last]);
    assert others + {k} <= UsedSince(used + [k], victim);
    SubsetSize(others + {k}, UsedSince(used + [k], victim));
  }

  lemma {:induction false} ElementsSize(o: seq<string>)
    requires NoDuplicates(o)
    ensures |Elements(o)| == |o|
  {
    if o == [] {
    } else {
      ElementsSize(o[1..]);
      assert Elements(o) == {o[0]} + Elements(o[1..]);
      assert o[0] !in Elements(o[1..]);
    }
  }

  lemma {:induction false} SubsetSize(a: set<string>, b: set<string>)
    requires a <= b
    ensures |a| <= |b|
    decreases |a|
  {
    if a == {} {
    } else {
      var x :| x in a;
      SubsetSize(a - {x}, b - {x});
    }
  }
}
