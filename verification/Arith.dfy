/** The few facts about quotients and remainders the proofs lean on. */
module Arith {

  lemma MulSign(d: int, n: int)
    requires n >= 0
    ensures d >= 1 ==> d * n >= n
    ensures d <= -1 ==> d * n <= -n
  {
    if d >= 1 {
      assert d * n == n + (d - 1) * n;
    } else if d <= -1 {
      assert d * n == -n + (d + 1) * n;
    }
  }

  lemma DivMod(x: int, n: nat, q: int, r: nat)
    requires r < n && x == q * n + r
    ensures x / n == q && x % n == r
  {
    var d := x / n - q;
    assert x == (x / n) * n + x % n;
    assert d * n == r - x % n by {
      assert d * n == (x / n) * n - q * n;
    }
    MulSign(d, n);
  }

  /** x and x + k * n have the same remainder. */
  lemma ModAdd(x: int, k: int, n: nat)
    requires n > 0
    ensures (x + k * n) % n == x % n
  {
    var q, r := x / n, x % n;
    assert x + k * n == (q + k) * n + r by {
      assert (q + k) * n == q * n + k * n;
    }
    DivMod(x + k * n, n, q + k, r);
  }

  lemma QuotientBound(f: nat, n: nat, m: nat)
    requires 0 < n && f <= m * n
    ensures f / n <= m
  {
    var d := f / n - m;
    assert f == (f / n) * n + f % n;
    assert d * n == (f / n) * n - m * n;
    MulSign(d, n);
  }

  /** Equal remainders differ by a multiple. */
  lemma ModDiff(x: int, y: int, n: nat)
    requires n > 0
    ensures x % n == y % n <==> (x - y) % n == 0
  {
    var k := x / n - y / n;
    assert x - y == x % n - y % n + k * n by {
      assert x == (x / n) * n + x % n && y == (y / n) * n + y % n;
      assert k * n == (x / n) * n - (y / n) * n;
    }
    ModAdd(x % n - y % n, k, n);
    var d := x % n - y % n;
    if d >= 0 {
      DivMod(d, n, 0, d);
    } else {
      DivMod(d, n, -1, d + n);
    }
  }

  /** Stepping an index steps its quotient and remainder like a pair of nested counters. */
  lemma NextPosition(f: nat, n: nat)
    requires n > 0
    ensures (f + 1) % n == (if f % n == n - 1 then 0 else f % n + 1)
    ensures (f + 1) / n == (if f % n == n - 1 then f / n + 1 else f / n)
  {
    var q, r := f / n, f % n;
    assert f == q * n + r;
    if r == n - 1 {
      assert f + 1 == (q + 1) * n + 0;
      DivMod(f + 1, n, q + 1, 0);
    } else {
      DivMod(f + 1, n, q, r + 1);
    }
  }

  /** Reducing first by a multiple of n changes nothing mod n. */
  lemma ModMod(x: int, n: nat, k: nat)
    requires n > 0 && k > 0
    ensures n * k > 0 && x % (n * k) % n == x % n
  {
    assert n * k > 0;
    var q := x / (n * k);
    assert x == x % (n * k) + q * (n * k);
    assert q * (n * k) == (q * k) * n;
    ModAdd(x % (n * k), q * k, n);
  }

  lemma QuotientBelow(q: nat, n: nat, f: nat)
    requires n > 0 && q < n * f
    ensures q / n < f
  {
    var d := q / n - f;
    assert q == (q / n) * n + q % n;
    assert d * n == (q / n) * n - n * f;
    MulSign(d, n);
  }
}
