/** Counting by division. */
module Arithmetic {

  function CeilDiv(a: nat, b: nat): nat
    requires b > 0
  {
    (a + b - 1) / b
  }

  lemma LessThanOne(k: int, d: nat)
    requires d > 0 && k * d < d
    ensures k <= 0
  {
  }

  /** n steps of at least one delay, the first at zero and the last before the limit. */
  lemma CountBelowCeil(n: nat, delay: nat, limit: nat)
    requires delay > 0 && (n > 0 ==> (n - 1) * delay < limit)
    ensures n <= CeilDiv(limit, delay)
  {
    if n > 0 {
      var x := limit + delay - 1;
      var q := x / delay;
      assert n * delay == (n - 1) * delay + delay;
      assert x == q * delay + x % delay;
      assert (n - q) * delay == n * delay - q * delay;
      LessThanOne(n - q, delay);
    }
  }

  lemma QuotientIs(a: nat, d: nat, q: nat, r: nat)
    requires d > 0 && a == q * d + r && r < d
    ensures a / d == q
  {
    var p := a / d;
    assert a == p * d + a % d;
    assert (p - q) * d == p * d - q * d;
    assert (q - p) * d == q * d - p * d;
    LessThanOne(p - q, d);
    LessThanOne(q - p, d);
  }

  /** One step covers a limit up to its size, and every further step covers that much more. */
  lemma CeilStep(a: nat, d: nat)
    requires d > 0
    ensures CeilDiv(0, d) == 0 && (0 < a <= d ==> CeilDiv(a, d) == 1)
    ensures a > d ==> CeilDiv(a, d) == 1 + CeilDiv(a - d, d)
  {
    QuotientIs(d - 1, d, 0, d - 1);
    if 0 < a <= d {
      QuotientIs(a + d - 1, d, 1, a - 1);
    } else if a > d {
      var x := a - 1;
      assert x == (x / d) * d + x % d;
      assert (x / d + 1) * d == (x / d) * d + d;
      QuotientIs(x + d, d, x / d + 1, x % d);
    }
  }
}
