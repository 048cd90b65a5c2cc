/** Integer division as Go does it, and what the time alignments built on it need. */
module GoInt {

  /** Division truncated toward zero. */
  function Quo(a: int, b: int): int
    requires 0 < b
  {
    if 0 <= a then a / b else -((-a) / b)
  }

  predicate IsMultiple(x: int, n: int)
    requires 0 < n
  {
    x % n == 0
  }

  lemma {:induction false} MultipleOf(k: int, n: int)
    requires 0 < n
    ensures IsMultiple(n * k, n)
  {
    assert n * k == k * n + 0;
    DivModUnique(n * k, n, k, 0);
  }

  lemma {:induction false} DivModUnique(x: int, n: int, q: int, r: int)
    requires 0 < n && 0 <= r < n && x == q * n + r
    ensures x / n == q && x % n == r
  {
    var d := x / n - q;
    assert x == n * (x / n) + x % n;
    assert n * d == r - x % n by {
      assert n * (x / n) - q * n == n * (x / n - q);
    }
    if d >= 1 {
      MulAtLeast(n, d);
      assert false;
    } else if d <= -1 {
      MulAtMost(n, d);
      assert false;
    }
  }

  lemma {:induction false} MulAtLeast(n: int, k: int)
    requires 0 < n && 1 <= k
    ensures n <= n * k
  {
  }

  lemma {:induction false} MulAtMost(n: int, k: int)
    requires 0 < n && k <= 0
    ensures n * k <= 0
    ensures k <= -1 ==> n * k <= -n
  {
  }

  lemma {:induction false} NextMultiple(x: int, n: int)
    requires 0 < n && IsMultiple(x, n)
    ensures IsMultiple(x + n, n)
  {
    DivModUnique(x + n, n, x / n + 1, 0);
  }

  /** No two multiples are closer than n. */
  lemma {:induction false} MultiplesApart(a: int, x: int, n: int)
    requires 0 < n && IsMultiple(a, n) && IsMultiple(x, n) && a < x
    ensures a + n <= x
  {
    var k := x / n - a / n;
    assert x - a == n * k by {
      assert x == n * (x / n) && a == n * (a / n);
      assert n * (x / n) - n * (a / n) == n * (x / n - a / n);
    }
    if k <= 0 {
      MulAtMost(n, k);
      assert false;
    }
    MulAtLeast(n, k);
  }

  /** Truncation leaves a multiple less than n away, on the side of zero. */
  lemma {:induction false} QuoBounds(a: int, n: int)
    requires 0 < n
    ensures IsMultiple(n * Quo(a, n), n)
    ensures 0 <= a ==> n * Quo(a, n) <= a < n * Quo(a, n) + n
    ensures a <= 0 ==> n * Quo(a, n) - n < a <= n * Quo(a, n)
  {
    MultipleOf(Quo(a, n), n);
    if a < 0 {
      assert n * -((-a) / n) == -(n * ((-a) / n));
      assert -a == n * ((-a) / n) + (-a) % n;
    } else {
      assert a == n * (a / n) + a % n;
    }
  }

  /** What is on a grid from ts on is ts, or on the grid from the next point on. */
  lemma {:induction false} LaterStep(t: int, ts: int, interval: int)
    requires 0 < interval
    ensures ts <= t && (t - ts) % interval == 0 <==>
      t == ts || (ts + interval <= t && (t - (ts + interval)) % interval == 0)
  {
    if ts <= t && t < ts + interval {
      SmallRemainder(t - ts, interval);
    }
    SubtractOnce(t - ts, interval);
  }

  lemma {:induction false} SmallRemainder(a: int, d: int)
    requires 0 <= a < d
    ensures a % d == a
  {
  }

  lemma {:induction false} SubtractOnce(a: int, d: int)
    requires 0 < d
    ensures (a - d) % d == a % d
  {
    var k := a / d;
    assert a == d * k + a % d;
    assert a - d == d * (k - 1) + a % d;
    DivModUnique(a - d, d, k - 1, a % d);
  }
}
