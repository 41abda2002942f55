// Integer facts shared by the layout simulator: Python's bitwise `&` on
// non-negative integers, powers of two, and divisibility by an alignment.

module Bits {

  /** Bitwise AND of two non-negative integers, taken one bit at a time from
      the least significant end (Python's `x & y` for x, y >= 0). */
  function BitAnd(x: nat, y: nat): nat
  {
    if x == 0 || y == 0 then 0
    else 2 * BitAnd(x / 2, y / 2) + (if x % 2 == 1 && y % 2 == 1 then 1 else 0)
  }

  /** Reference definition: n is 1, 2, 4, 8, ... */
  predicate IsPow2(n: int)
  {
    n == 1 || (n > 1 && n % 2 == 0 && IsPow2(n / 2))
  }

  function Max(x: int, y: int): int { if x >= y then x else y }

  lemma {:induction false} BitAndSelf(x: nat)
    ensures BitAnd(x, x) == x
  {
    if x > 0 {
      BitAndSelf(x / 2);
    }
  }

  /** The test `n & (n - 1) == 0` used to validate alignments accepts exactly
      the powers of two among the positive integers. */
  lemma {:induction false} PowerOfTwoTest(n: nat)
    requires n > 0
    ensures BitAnd(n, n - 1) == 0 <==> IsPow2(n)
  {
    if n == 1 {
    } else if n % 2 == 0 {
      PowerOfTwoTest(n / 2);
      assert (n - 1) / 2 == n / 2 - 1 && (n - 1) % 2 == 1;
      assert BitAnd(n, n - 1) == 2 * BitAnd(n / 2, n / 2 - 1);
    } else {
      BitAndSelf(n / 2);
      assert (n - 1) / 2 == n / 2 && (n - 1) % 2 == 0;
      assert BitAnd(n, n - 1) == 2 * BitAnd(n / 2, n / 2);
    }
  }

  /** A multiple of m leaves no remainder. */
  lemma MultipleMod(k: int, m: int)
    requires m > 0
    ensures (k * m) % m == 0
  {
    var q, r := (k * m) / m, (k * m) % m;
    assert k * m == q * m + r && 0 <= r < m;
    assert (k - q) * m == r;
    MulSmall(k - q, m);
  }

  /** A multiple of m strictly between -m and m is zero. */
  lemma MulSmall(d: int, m: int)
    requires m > 0 && 0 <= d * m < m
    ensures d == 0
  {
  }

  /** A value that leaves no remainder is a multiple. */
  lemma ModZeroMultiple(x: int, m: int)
    requires m > 0 && x % m == 0
    ensures x == (x / m) * m
  {
  }

  /** The sum of two multiples of m is a multiple of m. */
  lemma {:induction false} AddMultiples(x: int, y: int, m: int)
    requires m > 0 && x % m == 0 && y % m == 0
    ensures (x + y) % m == 0
  {
    ModZeroMultiple(x, m);
    ModZeroMultiple(y, m);
    assert x + y == (x / m + y / m) * m;
    MultipleMod(x / m + y / m, m);
  }

  /** Of two powers of two, the smaller divides the larger. */
  lemma {:induction false} Pow2Divides(small: int, large: int)
    requires IsPow2(small) && IsPow2(large) && small <= large
    ensures large % small == 0
  {
    if small == 1 || small == large {
    } else {
      assert large > 1 && small > 1;
      Pow2Divides(small / 2, large / 2);
      var k := (large / 2) / (small / 2);
      ModZeroMultiple(large / 2, small / 2);
      assert large == 2 * (large / 2) == 2 * (k * (small / 2));
      assert large == k * small;
      MultipleMod(k, small);
    }
  }

  /** Divisibility is transitive: a multiple of b is a multiple of every
      divisor of b. */
  lemma {:induction false} DividesTrans(x: int, b: int, a: int)
    requires a > 0 && b > 0 && x % b == 0 && b % a == 0
    ensures x % a == 0
  {
    ModZeroMultiple(x, b);
    ModZeroMultiple(b, a);
    assert x == (x / b) * ((b / a) * a) == ((x / b) * (b / a)) * a;
    MultipleMod((x / b) * (b / a), a);
  }
}
