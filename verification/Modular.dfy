/** Remainders of sums and products, for a divisor that is not a constant. */
module Modular {
  lemma AtLeast(k: int, m: int)
    requires k >= 1 && m > 0
    ensures k * m >= m
  {}

  lemma Distribute(a: int, b: int, m: int)
    ensures (a - b) * m == a * m - b * m
  {}

  lemma Unique(q1: int, r1: int, q2: int, r2: int, m: int)
    requires 0 <= r1 < m && 0 <= r2 < m && q1 * m + r1 == q2 * m + r2
    ensures r1 == r2
  {
    Distribute(q1, q2, m);
    Distribute(q2, q1, m);
    if q1 > q2 {
      AtLeast(q1 - q2, m);
    } else if q1 < q2 {
      AtLeast(q2 - q1, m);
    }
  }

  lemma Split(x: int, m: int)
    requires m > 0
    ensures x == (x / m) * m + x % m && 0 <= x % m < m
  {}

  lemma AddMultiple(x: int, q: int, m: int)
    requires m > 0
    ensures (x + q * m) % m == x % m
  {
    var y := x + q * m;
    Split(x, m);
    Split(y, m);
    assert (x / m + q) * m == (x / m) * m + q * m;
    Unique(x / m + q, x % m, y / m, y % m, m);
  }

  lemma ModProduct(v: int, base: int, m: int)
    requires m > 0
    ensures (v % m) * base % m == v * base % m
  {
    var q, x := v / m, v % m;
    Split(v, m);
    assert (q * m + x) * base == x * base + (q * base) * m;
    AddMultiple(x * base, q * base, m);
  }

  lemma Congruent(x: nat, m: int)
    requires m > 0
    ensures (x % m - x) % m == 0 && (x - x % m) % m == 0
    ensures x < m ==> x % m == x
  {
    var q := x / m;
    Split(x, m);
    AddMultiple(0, q, m);
    AddMultiple(0, -q, m);
    assert x % m - x == 0 + (-q) * m;
  }

  lemma Quotient(q: int, r: int, m: int)
    requires 0 <= r < m
    ensures (q * m + r) / m == q && (q * m + r) % m == r
  {
    var x := q * m + r;
    Split(x, m);
    Unique(q, r, x / m, x % m, m);
    Distribute(q, x / m, m);
    if q > x / m {
      AtLeast(q - x / m, m);
    } else if q < x / m {
      Distribute(x / m, q, m);
      AtLeast(x / m - q, m);
    }
  }

  lemma Fewer(a: int, b: int, m: nat)
    requires a <= b
    ensures a * m <= b * m
  {
    Distribute(b, a, m);
    assert (b - a) * m >= 0;
  }

  /** The numbers of block `q` are those whose quotient is `q`. */
  lemma Between(x: int, q: int, m: nat)
    requires m > 0
    ensures (q + 1) * m == q * m + m
    ensures q * m <= x < (q + 1) * m <==> x / m == q
  {
    Split(x, m);
    Distribute(q + 1, 1, m);
    if q * m <= x < (q + 1) * m { Quotient(q, x - q * m, m); }
  }

  lemma Below(x: nat, n: nat, m: nat)
    requires m > 0 && x < n * m
    ensures x / m < n
  {
    Split(x, m);
    if x / m >= n { Fewer(n, x / m, m); }
  }

  /** Place `j` of block `s`, when there are `n` blocks of `m`. */
  lemma Slot(s: nat, j: nat, n: nat, m: nat)
    requires s < n && j < m
    ensures 0 <= s * m + j < n * m
    ensures (s * m + j) / m == s && (s * m + j) % m == j
  {
    Fewer(s + 1, n, m);
    Distribute(s + 1, 1, m);
    Quotient(s, j, m);
    assert s * m >= 0;
  }
}
