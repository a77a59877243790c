/** Banker's rounding of a quotient, as Python's round() and Decimal.to_integral_value() do it. */
module Rounding {

  function RoundHalfEven(n: int, d: int): int
    requires d > 0
  {
    var q, r := n / d, n % d;
    if 2 * r < d then q
    else if 2 * r > d then q + 1
    else if q % 2 == 0 then q else q + 1
  }

  /**
   What "nearest, ties to even" means: twice the error never exceeds the divisor, and reaches it only at an even x.
   */
  predicate IsNearestEven(x: int, d: int, error: int) {
    && -d <= 2 * error <= d
    && (2 * error == d || 2 * error == -d ==> x % 2 == 0)
  }

  /** Exactly one integer is nearest in that sense, and it is the rounded one. */
  lemma RoundsToNearestEven(n: int, d: int, x: int)
    requires d > 0
    ensures x == RoundHalfEven(n, d) <==> IsNearestEven(x, d, x * d - n)
  {
    var q, r := n / d, n % d;
    Distributes(x, q, d);
    OffsetFromFloor(q, r, d, x - q, x * d - n);
  }

  lemma Distributes(x: int, q: int, d: int)
    ensures x * d - q * d == (x - q) * d
  {}

  /** A candidate k away from the floor q has error k * d - r; only k = 0 or k = 1 can be nearest. */
  lemma OffsetFromFloor(q: int, r: int, d: int, k: int, error: int)
    requires 0 <= r < d && error == k * d - r
    ensures IsNearestEven(q + k, d, error) <==>
            (k == if 2 * r < d || (2 * r == d && q % 2 == 0) then 0 else 1)
  {
    if k <= -1 {
      assert (-1 - k) * d >= 0;
    } else if k >= 2 {
      assert (k - 2) * d >= 0;
    }
  }
}
