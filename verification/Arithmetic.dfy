/** Division facts the solver does not find on its own. */
module Arithmetic {

  lemma {:induction false} MultipleAtLeast(n: nat, k: nat)
    requires n > 0 && k >= 1
    ensures n * k >= n
  {
    if k > 1 {
      MultipleAtLeast(n, k - 1);
      assert n * k == n * (k - 1) + n;
    }
  }

  lemma SmallMultipleIsZero(n: int, k: int)
    requires n > 0 && -n < n * k < n
    ensures k == 0
  {
    assert n * -k == -(n * k);
    if k >= 1 { MultipleAtLeast(n, k); } else if k <= -1 { MultipleAtLeast(n, -k); }
  }

  /** Quotient and remainder are unique. */
  lemma DivModUnique(x: int, n: nat, q: int, r: int)
    requires n > 0 && 0 <= r < n && x == n * q + r
    ensures x / n == q && x % n == r
  {
    assert x == n * (x / n) + x % n;
    assert n * (x / n - q) == r - x % n;
    SmallMultipleIsZero(n, x / n - q);
  }

  lemma ResiduesDistinct(a: nat, i: nat, j: nat, n: nat)
    requires i < j < i + n
    ensures (a + i) % n != (a + j) % n
  {
    if (a + i) % n == (a + j) % n {
      var q := (a + i) / n;
      assert a + j == n * ((a + j) / n) + (a + i) % n;
      assert a + i == n * q + (a + i) % n;
      assert n * ((a + j) / n - q) == j - i;
      SmallMultipleIsZero(n, (a + j) / n - q);
    }
  }

  /** The step from a to the next number that is t modulo n. */
  lemma Wraps(a: nat, t: nat, n: nat)
    requires t < n
    ensures (a + (t - a) % n) % n == t
  {
    var q := (t - a) / n;
    assert t - a == n * q + (t - a) % n;
    assert a + (t - a) % n == n * -q + t;
    DivModUnique(a + (t - a) % n, n, -q, t);
  }

  lemma QuotientStep(k: nat, n: nat)
    requires 0 < n <= k
    ensures k / n == (k - n) / n + 1
  {
    var q, r := (k - n) / n, (k - n) % n;
    assert k - n == n * q + r;
    assert k == n * (q + 1) + r;
    DivModUnique(k, n, q + 1, r);
  }
}
