/** Facts about products and remainders that the verifier does not find by itself. */
module Arithmetic {
  lemma MulMonotone(x: int, y: int, b: nat)
    requires x <= y
    ensures x * b <= y * b
  {
  }

  /** A remainder is what is left below the divisor. */
  lemma RemainderIs(n: nat, b: nat, q: nat, r: nat)
    requires n == b * q + r && r < b
    ensures n % b == r
  {
    var k := n / b;
    assert n == b * k + n % b;
    assert b * (q - k) == n % b - r && b * (k - q) == r - n % b;
    if q > k {
      MulMonotone(1, q - k, b);
    } else if q < k {
      MulMonotone(1, k - q, b);
    }
  }

  /** Taking a digit away makes a number smaller. */
  lemma Shorter(n: nat, b: nat)
    requires 2 <= b && n >= b
    ensures 0 < n / b < n && n == n / b * b + n % b && n % b < b
  {
    assert n == n / b * b + n % b;
    if n / b >= n {
      MulMonotone(n, n / b, b);
      MulMonotone(2, b, n);
    }
  }
}
