// Facts about multiplication and floor division by a variable divisor.

module Arith {

  lemma MulMono(a: int, b: int, n: nat)
    requires a <= b
    ensures a * n <= b * n
  {
  }

  lemma Distribute(q: int, r: int, d: int)
    ensures (q + r) * d == q * d + r * d && (q + r + 2) * d == q * d + r * d + d + d
  {
  }

  lemma DivBounds(x: nat, d: nat)
    requires d > 0
    ensures x / d * d <= x < x / d * d + d
  {
  }

  lemma DivAtLeast(x: nat, d: nat, q: nat)
    requires d > 0 && q * d <= x
    ensures x / d >= q
  {
    if x / d < q {
      MulMono(x / d + 1, q, d);
      assert false;
    }
  }

  lemma DivAtMost(x: nat, d: nat, q: nat)
    requires d > 0 && x < (q + 1) * d
    ensures x / d <= q
  {
    if x / d > q {
      MulMono(q + 1, x / d, d);
      assert false;
    }
  }

  // Floors of parts never exceed the floor of the whole, and miss it by at most one.
  lemma FloorsAdd(a: nat, b: nat, d: nat)
    requires d > 0
    ensures a / d + b / d <= (a + b) / d <= a / d + b / d + 1
  {
    var q, r := a / d, b / d;
    DivBounds(a, d);
    DivBounds(b, d);
    Distribute(q, r, d);
    DivAtLeast(a + b, d, q + r);
    DivAtMost(a + b, d, q + r + 1);
  }

  lemma FloorMono(n: nat, a: nat, b: nat, d: nat)
    requires d > 0 && a <= b
    ensures n * (a / d) <= n * (b / d)
  {
    FloorsAdd(a, b - a, d);
    MulMono(a / d, b / d, n);
  }

  lemma FloorsAddTimes(n: nat, a: nat, b: nat, d: nat)
    requires d > 0
    ensures a / d * n + n * (b / d) <= n * ((a + b) / d)
  {
    FloorsAdd(a, b, d);
    MulMono(a / d + b / d, (a + b) / d, n);
    Distribute(a / d, b / d, n);
  }

  lemma DivMod(x: nat, d: nat, q: nat, r: nat)
    requires x == q * d + r && r < d
    ensures x / d == q && x % d == r
  {
    DivAtLeast(x, d, q);
    DivAtMost(x, d, q);
  }

  lemma ModMod(x: nat, a: nat, k: nat)
    requires a > 0 && k > 0
    ensures x % (a * k) % a == x % a
  {
    var m := a * k;
    var q, r := x / m, x % m;
    ScaledSum(q, k, r / a, a);
    DivMod(x, a, q * k + r / a, r % a);
  }

  lemma MulModSplit(b: nat, v: nat, c: nat, m: nat)
    requires v < c && m > 0
    ensures (b * c + v) % (c * m) == b % m * c + v
  {
    var q, r := b / m, b % m;
    ScaledSum(q, m, r, c);
    MulMono(r + 1, m, c);
    Distribute(r, 1, c);
    DivMod(b * c + v, c * m, q, r * c + v);
  }

  lemma ScaledSum(q: nat, m: nat, r: nat, c: nat)
    ensures (q * m + r) * c == q * (c * m) + r * c
  {
    Distribute(q * m, r, c);
    assert q * m * c == q * (c * m);
  }

  lemma DivThenMod(x: nat, s: nat, m: nat)
    requires s > 0 && m > 0
    ensures x / s % m == x % (s * m) / s
  {
    var y, t := x / s, x % s;
    MulModSplit(y, t, s, m);
    assert x == y * s + t;
    DivMod(y % m * s + t, s, y % m, t);
  }
}
