/** Powers of two, and the bit tricks that find them. */
module PowersOfTwo {
  import opened Modular

  function Pow2(k: nat): (p: nat)
    ensures p > 0
  {
    if k == 0 then 1 else 2 * Pow2(k - 1)
  }

  ghost predicate IsPow2(n: int) {
    exists k: nat :: n == Pow2(k)
  }

  /** Bitwise and of nonnegative numbers. */
  function And(a: nat, b: nat): nat {
    if a == 0 || b == 0 then 0 else 2 * And(a / 2, b / 2) + (if a % 2 == 1 && b % 2 == 1 then 1 else 0)
  }

  lemma {:induction false} AndSelf(n: nat)
    ensures And(n, n) == n
  {
    if n > 0 { AndSelf(n / 2); }
  }

  lemma Doubles(n: nat)
    requires n > 0
    ensures IsPow2(2 * n) <==> IsPow2(n)
  {
    if IsPow2(n) {
      var k: nat :| n == Pow2(k);
      assert 2 * n == Pow2(k + 1);
    }
    if IsPow2(2 * n) {
      var k: nat :| 2 * n == Pow2(k);
      assert n == Pow2(k - 1);
    }
  }

  predicate IsPowerOfTwo(n: nat)
    requires n >= 1
  {
    And(n, n - 1) == 0
  }

  /** Clearing the lowest bit leaves nothing exactly of a power of two. */
  lemma {:induction false} IsPowerOfTwoExact(n: nat)
    requires n >= 1
    ensures IsPowerOfTwo(n) <==> IsPow2(n)
  {
    if n == 1 {
      assert Pow2(0) == 1;
    } else if n % 2 == 1 {
      AndSelf(n / 2);
      assert (n - 1) / 2 == n / 2;
      forall k: nat
        ensures Pow2(k) != n
      {
        assert k > 0 ==> Pow2(k) % 2 == 0;
      }
    } else {
      IsPowerOfTwoExact(n / 2);
      Doubles(n / 2);
      assert (n - 1) / 2 == n / 2 - 1 && n == 2 * (n / 2);
    }
  }

  /** The largest power of two that is not larger. */
  function RoundDown(x: nat): (p: nat)
    requires x >= 1
    ensures p <= x < 2 * p
  {
    if x < 2 then 1 else 2 * RoundDown(x / 2)
  }

  lemma {:induction false} RoundDownIsPow2(x: nat)
    requires x >= 1
    ensures IsPow2(RoundDown(x))
  {
    if x < 2 {
      assert Pow2(0) == 1;
    } else {
      RoundDownIsPow2(x / 2);
      Doubles(RoundDown(x / 2));
    }
  }

  lemma {:induction false} Pow2Monotone(j: nat, k: nat)
    requires j <= k
    ensures Pow2(j) <= Pow2(k)
  {
    if j < k { Pow2Monotone(j, k - 1); }
  }

  lemma Associative(x: nat, y: nat)
    ensures 2 * (x * y) == (2 * x) * y
  {
  }

  lemma {:induction false} Pow2Sum(j: nat, k: nat)
    ensures Pow2(j + k) == Pow2(j) * Pow2(k)
    decreases j
  {
    if j > 0 {
      Pow2Sum(j - 1, k);
      assert Pow2(j + k) == 2 * Pow2(j - 1 + k);
      Associative(Pow2(j - 1), Pow2(k));
    }
  }

  /** Of two powers of two the smaller divides the larger, and the quotient is one too. */
  lemma Divides(a: nat, b: nat)
    requires IsPow2(a) && IsPow2(b) && a <= b
    ensures b % a == 0 && b / a > 0 && IsPow2(b / a)
  {
    var j: nat :| a == Pow2(j);
    var k: nat :| b == Pow2(k);
    if k < j {
      Pow2Monotone(k + 1, j);
    } else {
      Pow2Sum(k - j, j);
      Quotient(Pow2(k - j), 0, a);
    }
  }
}
