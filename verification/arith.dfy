/** Integer division facts used across the model, and `Math.round` of a
    quotient. Dafny's `/` and `%` on a positive divisor round down, as
    `Math.floor` does. */
module Arith {

  /** A quotient is determined by any decomposition with a remainder in range. */
  lemma DivUnique(a: int, k: int, q: int, r: int)
    requires k > 0 && 0 <= r < k && a == k * q + r
    ensures a / k == q
  {
    var q', r' := a / k, a % k;
    assert k * (q' - q) == r - r' by {
      assert k * (q' - q) == k * q' - k * q;
    }
    if q' > q {
      MulAtLeast(k, q' - q);
    } else if q' < q {
      MulAtLeast(k, q - q');
    }
  }

  lemma MulAtLeast(k: int, d: int)
    requires k > 0 && d >= 1
    ensures k * d >= k
  {
    assert k * d == k + k * (d - 1);
  }

  lemma ModOfMultiple(a: int, k: int, q: int)
    requires k > 0 && a == k * q
    ensures a % k == 0
  {
    DivUnique(a, k, q, 0);
  }

  /** `Math.round(a / b)` for a positive divisor: the nearest integer, with
      halves rounding up (towards positive infinity, as JavaScript does). */
  function RoundDiv(a: int, b: int): (r: int)
    requires b > 0
    ensures 2 * b * r - b <= 2 * a < 2 * b * r + b
  {
    (2 * a + b) / (2 * b)
  }

  /** Only one integer is that close to `a / b`. */
  lemma RoundDivUnique(a: int, b: int, r: int)
    requires b > 0 && 2 * b * r - b <= 2 * a < 2 * b * r + b
    ensures RoundDiv(a, b) == r
  {
    DivUnique(2 * a + b, 2 * b, r, 2 * a + b - 2 * b * r);
  }

  /** Rounding the quotient never reverses the order of the numerators. */
  lemma RoundDivMonotone(a: int, a': int, b: int)
    requires b > 0 && a <= a'
    ensures RoundDiv(a, b) <= RoundDiv(a', b)
  {
    var r, r' := RoundDiv(a, b), RoundDiv(a', b);
    if r > r' {
      assert 2 * b * (r - r') == 2 * b * r - 2 * b * r';
      MulAtLeast(2 * b, r - r');
    }
  }
}
