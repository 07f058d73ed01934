/** Integer arithmetic of the rating calculator: `Math.trunc(a / b)` and
    `Math.round(Math.sqrt(n))` on whole numbers, stated exactly. */
module RatingMath {

  /** `Math.trunc(a / b)` for a positive divisor: the quotient rounded toward zero,
      so the remainder has the sign of `a`. */
  function TruncDiv(a: int, b: int): (q: int)
    requires b > 0
    ensures a >= 0 ==> 0 <= a - b * q < b
    ensures a < 0 ==> -b < a - b * q <= 0
  {
    if a >= 0 then a / b else -((-a) / b)
  }

  /** `Math.round(Math.sqrt(n))`: the whole number nearest to the square root of
      `n`.  A square root never lies exactly half-way between two whole numbers,
      so `k - 1/2 <= sqrt(n) < k + 1/2` pins `k` down. */
  function RoundSqrt(n: nat): (k: nat)
    ensures k == 0 || (2 * k - 1) * (2 * k - 1) <= 4 * n
    ensures 4 * n < (2 * k + 1) * (2 * k + 1)
  {
    RoundSqrtFrom(n, 0)
  }

  function RoundSqrtFrom(n: nat, k: nat): (r: nat)
    requires k == 0 || (2 * k - 1) * (2 * k - 1) <= 4 * n
    ensures r == 0 || (2 * r - 1) * (2 * r - 1) <= 4 * n
    ensures 4 * n < (2 * r + 1) * (2 * r + 1)
    decreases 4 * n - k
  {
    if 4 * n < (2 * k + 1) * (2 * k + 1) then k
    else
      assert k <= (2 * k + 1) * (2 * k + 1);
      RoundSqrtFrom(n, k + 1)
  }

  /** The number of top contestants the second adjustment balances:
      `Math.min(4 * Math.round(Math.sqrt(n)), n)`. */
  function TopCount(n: nat): (k: nat)
    ensures n >= 1 ==> 1 <= k <= n
    ensures k <= 4 * RoundSqrt(n)
  {
    if 4 * RoundSqrt(n) < n then 4 * RoundSqrt(n) else n
  }
}
