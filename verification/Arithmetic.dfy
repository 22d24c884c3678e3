/** Whole-number division, rounded down and up. */
module Arithmetic {

  lemma AtLeast(a: int, k: int)
    requires a >= 1 && k > 0
    ensures a * k >= k
  {
  }

  lemma Multiples(a: int, b: int, k: int)
    requires a <= b && k > 0
    ensures a * k <= b * k
  {
  }

  lemma Distribute(a: int, b: int, k: int)
    ensures (a + b) * k == a * k + b * k
  {
  }

  lemma Quotient(x: int, d: int, k: int)
    requires k > 0 && 0 <= x - d * k < k
    ensures x / k == d
  {
    var q, r := x / k, x % k;
    assert x == q * k + r;
    if q < d {
      assert (d - q) * k == d * k - q * k;
      AtLeast(d - q, k);
    } else if q > d {
      assert (q - d) * k == q * k - d * k;
      AtLeast(q - d, k);
    }
  }

  function CeilDiv(a: int, b: int): (n: nat)
    requires b > 0
  {
    if a <= 0 then 0 else
      NotNegative(a + b - 1, b);
      (a + b - 1) / b
  }

  lemma NotNegative(a: int, b: int)
    requires a >= 0 && b > 0
    ensures a / b >= 0
  {
  }

  /** A multiple of `b` is below `a` exactly when it is one of the first so many. */
  lemma Below(n: nat, a: int, b: int)
    requires b > 0
    ensures n * b < a <==> n < CeilDiv(a, b)
  {
    if a > 0 {
      var q := (a + b - 1) / b;
      var r := (a + b - 1) % b;
      assert a + b - 1 == q * b + r;
      if n < q {
        Multiples(n + 1, q, b);
        assert (n + 1) * b == n * b + b;
      } else {
        Multiples(q, n, b);
      }
    } else {
      Multiples(0, n, b);
    }
  }
}
