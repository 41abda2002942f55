// Generalised Fibonacci F_{a,b} and the four ways Tarea2/Pregunta4/Preg4.py
// computes it.
//
//   F(n) = n                          if n < a*b
//   F(n) = F(n-b) + F(n-2b) + ... + F(n-a*b)   otherwise
//
// The recursive definition is the specification; each implementation is
// proved to return F(n).

module Fab {

  /** The parameters (a, b) derived from three integers X, Y, Z:
      a - 3 and b - 3 are the residues of X + Y and Y + Z modulo 5
      (Python's `%` by a positive divisor is never negative, as Dafny's). */
  function ComputeAlphaBeta(x: int, y: int, z: int): (ab: (int, int))
    ensures 3 <= ab.0 <= 7 && 3 <= ab.1 <= 7
    ensures (x + y - (ab.0 - 3)) % 5 == 0
    ensures (y + z - (ab.1 - 3)) % 5 == 0
  {
    ((x + y) % 5 + 3, (y + z) % 5 + 3)
  }

  /** With a, b >= 1 and n >= a*b, the i-th recursive argument n - b*i
      (1 <= i <= a) lies in [0, n - b]: the recursion only goes down. */
  lemma RecursiveArgumentInRange(n: int, a: int, b: int, i: int)
    requires a >= 1 && b >= 1 && n >= a * b && 1 <= i <= a
    ensures 0 <= n - b * i <= n - b
  {
    assert b * i <= b * a;
    assert b * i >= b;
  }

  /** The specification: fab_recursive read as a mathematical definition. */
  function F(n: int, a: int, b: int): int
    requires a >= 1 && b >= 1
    decreases n, 1
  {
    if n < a * b then n else SumF(n, a, b, a)
  }

  /** F(n - b) + F(n - 2b) + ... + F(n - k*b), the first k terms of the sum. */
  function SumF(n: int, a: int, b: int, k: int): int
    requires a >= 1 && b >= 1 && n >= a * b && 0 <= k <= a
    decreases n, 0, k
  {
    if k == 0 then 0
    else
      RecursiveArgumentInRange(n, a, b, k);
      SumF(n, a, b, k - 1) + F(n - b * k, a, b)
  }

  /** Below the threshold a*b every variant returns its argument. */
  lemma BaseCase(n: int, a: int, b: int)
    requires a >= 1 && b >= 1 && n < a * b
    ensures F(n, a, b) == n
  {
  }

  /** F is never negative on the natural numbers. */
  lemma {:induction false} FNonNegative(n: int, a: int, b: int)
    requires a >= 1 && b >= 1 && n >= 0
    ensures F(n, a, b) >= 0
    decreases n, 1
  {
    if n >= a * b {
      SumFNonNegative(n, a, b, a);
    }
  }

  lemma {:induction false} SumFNonNegative(n: int, a: int, b: int, k: int)
    requires a >= 1 && b >= 1 && n >= a * b && 0 <= k <= a
    ensures SumF(n, a, b, k) >= 0
    decreases n, 0, k
  {
    if k > 0 {
      RecursiveArgumentInRange(n, a, b, k);
      SumFNonNegative(n, a, b, k - 1);
      FNonNegative(n - b * k, a, b);
    }
  }

  // ---------------------------------------------------------------------
  // fab_recursive: direct recursion, accumulating s over i = 1..a

  method FabRecursive(n: int, a: int, b: int) returns (s: int)
    requires a >= 1 && b >= 1
    ensures s == F(n, a, b)
    decreases n
  {
    if n < a * b {
      return n;
    }
    s := 0;
    var i := 1;
    while i <= a
      invariant 1 <= i <= a + 1
      invariant s == SumF(n, a, b, i - 1)
    {
      RecursiveArgumentInRange(n, a, b, i);
      var term := FabRecursive(n - b * i, a, b);
      s := s + term;
      i := i + 1;
    }
  }

  // ---------------------------------------------------------------------
  // fab_recursive_memo: the same recursion written as `sum(generator)`

  /** Sum of a sequence, added from the left as Python's `sum` does. */
  function Sum(xs: seq<int>): int
  {
    if xs == [] then 0 else Sum(xs[..|xs| - 1]) + xs[|xs| - 1]
  }

  /** The memoised variant's value: n below a*b, otherwise the sum of the
      generator F(n - b*i) for i in 1..a. */
  function FabMemo(n: int, a: int, b: int): int
    requires a >= 1 && b >= 1
    decreases n
  {
    if n < a * b then n
    else
      Sum(seq(a, j requires 0 <= j < a =>
        RecursiveArgumentInRange(n, a, b, j + 1);
        FabMemo(n - b * (j + 1), a, b)))
  }

  /** Memoisation does not change the value: the generator form is F. */
  lemma {:induction false} FabMemoIsF(n: int, a: int, b: int)
    requires a >= 1 && b >= 1
    ensures FabMemo(n, a, b) == F(n, a, b)
    decreases n, 1
  {
    if n >= a * b {
      var terms := seq(a, j requires 0 <= j < a =>
        RecursiveArgumentInRange(n, a, b, j + 1);
        FabMemo(n - b * (j + 1), a, b));
      GeneratorSum(n, a, b, a);
      assert terms[..a] == terms;
    }
  }

  /** The first k terms of the generator add up to SumF(n, a, b, k). */
  lemma {:induction false} GeneratorSum(n: int, a: int, b: int, k: int)
    requires a >= 1 && b >= 1 && n >= a * b && 0 <= k <= a
    ensures Sum(seq(a, j requires 0 <= j < a =>
                RecursiveArgumentInRange(n, a, b, j + 1);
                FabMemo(n - b * (j + 1), a, b))[..k]) == SumF(n, a, b, k)
    decreases n, 0, k
  {
    var terms := seq(a, j requires 0 <= j < a =>
      RecursiveArgumentInRange(n, a, b, j + 1);
      FabMemo(n - b * (j + 1), a, b));
    if k > 0 {
      RecursiveArgumentInRange(n, a, b, k);
      GeneratorSum(n, a, b, k - 1);
      FabMemoIsF(n - b * k, a, b);
      assert terms[..k][..k - 1] == terms[..k - 1];
    }
  }

  /** A memo table that agrees with F wherever it has an entry (the cache
      of `lru_cache`, keyed by (n, a, b)). */
  ghost predicate MemoSound(cache: map<(int, int, int), int>)
  {
    forall key :: key in cache && key.1 >= 1 && key.2 >= 1 ==> cache[key] == F(key.0, key.1, key.2)
  }

  /** fab_recursive_memo with its cache made explicit: the cache is consulted
      first, and every computed value is stored before it is returned. */
  method FabMemoCached(n: int, a: int, b: int, cache: map<(int, int, int), int>)
    returns (v: int, cache': map<(int, int, int), int>)
    requires a >= 1 && b >= 1 && MemoSound(cache)
    ensures v == F(n, a, b)
    ensures MemoSound(cache') && (n, a, b) in cache' && cache.Keys <= cache'.Keys
    decreases n
  {
    if (n, a, b) in cache {
      return cache[(n, a, b)], cache;
    }
    if n < a * b {
      v := n;
    } else {
      v := 0;
      cache' := cache;
      var i := 1;
      while i <= a
        invariant 1 <= i <= a + 1
        invariant v == SumF(n, a, b, i - 1)
        invariant MemoSound(cache') && cache.Keys <= cache'.Keys
      {
        RecursiveArgumentInRange(n, a, b, i);
        var term;
        term, cache' := FabMemoCached(n - b * i, a, b, cache');
        v := v + term;
        i := i + 1;
      }
    }
    if n < a * b {
      cache' := cache;
    }
    cache' := cache'[(n, a, b) := v];
  }

  // ---------------------------------------------------------------------
  // fab_tail: a list dp of F(0..k-1), extended one value per helper call

  method FabTail(n: int, a: int, b: int) returns (r: int)
    requires a >= 1 && b >= 1 && n >= 0
    ensures r == F(n, a, b)
  {
    var baseLen := a * b;
    var dp := seq(if n + 1 <= baseLen then n + 1 else baseLen, k => k);
    if n < baseLen {
      return dp[n];
    }
    r := TailHelper(n, a, b, baseLen, dp);
  }

  /** `helper(k)`: dp holds F(0), ..., F(k-1); computes F(k) from dp, appends
      it and continues with k + 1 until k passes n. */
  method TailHelper(n: int, a: int, b: int, k: int, dp: seq<int>) returns (r: int)
    requires a >= 1 && b >= 1 && a * b <= k <= n + 1
    requires |dp| == k && forall j :: 0 <= j < k ==> dp[j] == F(j, a, b)
    ensures r == F(n, a, b)
    decreases n + 1 - k
  {
    if k > n {
      return dp[n];
    }
    var val := 0;
    var i := 1;
    while i <= a
      invariant 1 <= i <= a + 1
      invariant val == SumF(k, a, b, i - 1)
    {
      RecursiveArgumentInRange(k, a, b, i);
      val := val + dp[k - b * i];
      i := i + 1;
    }
    r := TailHelper(n, a, b, k + 1, dp + [val]);
  }

  // ---------------------------------------------------------------------
  // fab_iterative: bottom-up over an array dp[0..n]

  method FabIterative(n: int, a: int, b: int) returns (r: int)
    requires a >= 1 && b >= 1
    ensures r == F(n, a, b)
  {
    var baseLen := a * b;
    if n < baseLen {
      return n;
    }
    var dp := new int[n + 1](_ => 0);
    var k := 0;
    while k < baseLen
      invariant 0 <= k <= baseLen
      invariant forall j :: 0 <= j < k ==> dp[j] == F(j, a, b)
    {
      dp[k] := k;
      k := k + 1;
    }
    while k <= n
      invariant baseLen <= k <= n + 1
      invariant forall j :: 0 <= j < k ==> dp[j] == F(j, a, b)
    {
      var s := 0;
      var i := 1;
      while i <= a
        invariant 1 <= i <= a + 1
        invariant s == SumF(k, a, b, i - 1)
        invariant forall j :: 0 <= j < k ==> dp[j] == F(j, a, b)
      {
        RecursiveArgumentInRange(k, a, b, i);
        s := s + dp[k - b * i];
        i := i + 1;
      }
      dp[k] := s;
      k := k + 1;
    }
    r := dp[n];
  }

  /** The repository's agreement test: the memoised, tail and iterative
      variants return the same value, F(n). */
  method AllVariantsAgree(n: int, a: int, b: int) returns (v1: int, v2: int, v3: int)
    requires a >= 1 && b >= 1 && n >= 0
    ensures v1 == v2 == v3 == F(n, a, b)
  {
    FabMemoIsF(n, a, b);
    v1 := FabMemo(n, a, b);
    v2 := FabTail(n, a, b);
    v3 := FabIterative(n, a, b);
  }

  /** The test derives its parameters from X, Y, Z = 4, 3, 6. */
  lemma TestParameters()
    ensures ComputeAlphaBeta(4, 3, 6) == (5, 7)
  {
  }

  // ---------------------------------------------------------------------
  // a = 2, b = 1 is the classic Fibonacci sequence

  /** Classic Fibonacci, an independent reference definition. */
  function Fib(n: nat): nat
  {
    if n < 2 then n else Fib(n - 1) + Fib(n - 2)
  }

  lemma {:induction false} ClassicFibonacci(n: nat)
    ensures F(n, 2, 1) == Fib(n)
  {
    if n >= 2 {
      ClassicFibonacci(n - 1);
      ClassicFibonacci(n - 2);
      assert SumF(n, 2, 1, 1) == F(n - 1, 2, 1);
      assert F(n, 2, 1) == SumF(n, 2, 1, 1) + F(n - 2, 2, 1);
    }
  }
}
