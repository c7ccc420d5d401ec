/** Half-up rounding of rational minor-unit amounts, and the till's shortcut for it. */
module Rounding {
  import opened Wrappers

  const MAX_SAFE_INTEGER: int := 0x1F_FFFF_FFFF_FFFF

  // A JavaScript number: a whole value, or a fraction, a NaN or an infinity.
  datatype Number = Whole(value: int) | NotWhole

  datatype RangeError =
    | NegativeNumerator
    | NonPositiveDenominator
    | RoundedTooLarge
    | InvalidAmount
    | InvalidRate
    | TotalTooLarge

  predicate IsSafeInteger(n: Number) {
    n.Whole? && -MAX_SAFE_INTEGER <= n.value <= MAX_SAFE_INTEGER
  }

  function RoundHalfUp(numerator: int, denominator: int): Result<nat, RangeError> {
    if numerator < 0 then Err(NegativeNumerator)
    else if denominator <= 0 then Err(NonPositiveDenominator)
    else
      var quotient := numerator / denominator;
      var remainder := numerator % denominator;
      var rounded := if remainder * 2 >= denominator then quotient + 1 else quotient;
      if rounded > MAX_SAFE_INTEGER then Err(RoundedTooLarge) else Ok(rounded)
  }

  function BasisPointsHalfUp(amount: Number, basisPoints: Number): Result<nat, RangeError> {
    if !IsSafeInteger(amount) || amount.value < 0 then Err(InvalidAmount)
    else if !IsSafeInteger(basisPoints) || basisPoints.value < 0 then Err(InvalidRate)
    else RoundHalfUp(amount.value * basisPoints.value, 10_000)
  }

  // BigInt division truncates toward zero.
  function TruncatedQuotient(a: int, b: int): int
    requires b > 0
  {
    if a >= 0 then a / b else -(-a / b)
  }

  // The till's preview of a percentage, before it is turned back into a number.
  function PercentagePreview(amount: int, basisPoints: int): int {
    TruncatedQuotient(amount * basisPoints + 5_000, 10_000)
  }

  // r - 1/2 <= n/d < r + 1/2: r is the closest integer, a tie going up.
  predicate IsHalfUp(r: int, n: int, d: int) {
    (2 * r - 1) * d <= 2 * n < (2 * r + 1) * d
  }

  function Distance(n: int, d: int, s: int): nat {
    if n >= s * d then n - s * d else s * d - n
  }

  lemma MulMonotone(a: int, b: int, d: nat)
    requires a <= b
    ensures a * d <= b * d
  {}

  lemma HalfUpIsUnique(r: int, s: int, n: int, d: int)
    requires 0 < d && IsHalfUp(r, n, d) && IsHalfUp(s, n, d)
    ensures r == s
  {
    if r < s {
      MulMonotone(2 * r + 1, 2 * s - 1, d);
      assert false;
    }
    if s < r {
      MulMonotone(2 * s + 1, 2 * r - 1, d);
      assert false;
    }
  }

  // What IsHalfUp means: no integer is closer, and one as close is smaller.
  lemma HalfUpIsNearest(r: int, n: int, d: int, s: int)
    requires 0 < d && IsHalfUp(r, n, d) && s != r
    ensures Distance(n, d, r) <= Distance(n, d, s)
    ensures Distance(n, d, r) == Distance(n, d, s) ==> s < r
  {
    assert (2 * r - 1) * d == 2 * (r * d) - d && (2 * r + 1) * d == 2 * (r * d) + d;
    if s < r {
      MulMonotone(s, r - 1, d);
      assert (r - 1) * d == r * d - d;
    } else {
      MulMonotone(r + 1, s, d);
      assert (r + 1) * d == r * d + d;
    }
  }

  lemma QuotientIsHalfUp(n: nat, d: nat)
    requires 0 < d
    ensures IsHalfUp(if n % d * 2 >= d then n / d + 1 else n / d, n, d)
  {
    var q, m := n / d, n % d;
    assert n == q * d + m;
    assert (2 * q - 1) * d == 2 * (q * d) - d;
    assert (2 * q + 1) * d == 2 * (q * d) + d;
    assert (2 * (q + 1) + 1) * d == 2 * (q * d) + 3 * d;
    assert (2 * (q + 1) - 1) * d == (2 * q + 1) * d;
  }

  // The calculation returns exactly the half-up integer, and refuses exactly
  // negative numerators, non-positive denominators and results over the bound.
  lemma RoundingSpecification(n: int, d: int, r: nat)
    ensures RoundHalfUp(n, d) == Ok(r) <==> 0 <= n && 0 < d && IsHalfUp(r, n, d) && r <= MAX_SAFE_INTEGER
    ensures 0 <= n && 0 < d && IsHalfUp(r, n, d) && r > MAX_SAFE_INTEGER ==> RoundHalfUp(n, d) == Err(RoundedTooLarge)
  {
    if 0 <= n && 0 < d {
      QuotientIsHalfUp(n, d);
      var rounded := if n % d * 2 >= d then n / d + 1 else n / d;
      if IsHalfUp(r, n, d) {
        HalfUpIsUnique(r, rounded, n, d);
      }
    }
  }

  // Which refusal comes when: the numerator is looked at first, and the amount
  // before the rate.
  lemma Refusals(n: int, d: int, amount: Number, rate: Number)
    ensures RoundHalfUp(n, d) == Err(NegativeNumerator) <==> n < 0
    ensures RoundHalfUp(n, d) == Err(NonPositiveDenominator) <==> 0 <= n && d <= 0
    ensures BasisPointsHalfUp(amount, rate) == Err(InvalidAmount) <==> !IsAmount(amount)
    ensures BasisPointsHalfUp(amount, rate) == Err(InvalidRate) <==> IsAmount(amount) && !IsAmount(rate)
  {
    if IsAmount(amount) && IsAmount(rate) { MulMonotone(0, amount.value, rate.value); }
  }

  // A whole number from zero to the largest safe integer.
  predicate IsAmount(n: Number) { n.Whole? && 0 <= n.value <= 9_007_199_254_740_991 }

  lemma SomeHalfUp(n: nat, d: nat) returns (r: nat)
    requires 0 < d
    ensures IsHalfUp(r, n, d)
  {
    r := if n % d * 2 >= d then n / d + 1 else n / d;
    QuotientIsHalfUp(n, d);
  }

  lemma HalfUpIsMonotone(m: int, n: int, d: int, low: int, high: int)
    requires 0 < d && m <= n && IsHalfUp(low, m, d) && IsHalfUp(high, n, d)
    ensures low <= high
  {
    if high < low {
      MulMonotone(2 * high + 1, 2 * low - 1, d);
      assert false;
    }
  }

  lemma RoundingIsMonotone(m: int, n: int, d: int)
    requires 0 <= m <= n && RoundHalfUp(n, d).Ok?
    ensures RoundHalfUp(m, d).Ok? && RoundHalfUp(m, d).value <= RoundHalfUp(n, d).value
  {
    var low := SomeHalfUp(m, d);
    var high := RoundHalfUp(n, d).value;
    RoundingSpecification(n, d, high);
    HalfUpIsMonotone(m, n, d, low, high);
    RoundingSpecification(m, d, low);
  }

  // On every pair the checked calculation accepts, the till's shortcut agrees;
  // and it stays in range exactly when the calculation accepts.
  lemma PreviewRefinesCalculation(amount: Number, basisPoints: Number)
    requires IsSafeInteger(amount) && IsSafeInteger(basisPoints)
    requires 0 <= amount.value && 0 <= basisPoints.value
    ensures var preview := PercentagePreview(amount.value, basisPoints.value);
            BasisPointsHalfUp(amount, basisPoints)
              == if preview <= MAX_SAFE_INTEGER then Ok(preview) else Err(RoundedTooLarge)
  {
    var n := amount.value * basisPoints.value;
    assert 0 <= n by { MulMonotone(0, amount.value, basisPoints.value); }
    assert PercentagePreview(amount.value, basisPoints.value) == (n + 5_000) / 10_000;
  }

  // For negative products truncation gives way: the shortcut is half-up only
  // down to minus one half, or where the division happens to be exact, and one
  // too high everywhere else.
  lemma PreviewIsHalfUpExactly(amount: int, basisPoints: int)
    ensures var n := amount * basisPoints;
            IsHalfUp(PercentagePreview(amount, basisPoints), n, 10_000) <==>
              -5_000 <= n || (n + 5_000) % 10_000 == 0
    ensures var n, p := amount * basisPoints, PercentagePreview(amount, basisPoints);
            IsHalfUp(p, n, 10_000) || IsHalfUp(p - 1, n, 10_000)
  {
    TruncationIsHalfUpExactly(amount * basisPoints);
  }

  lemma TruncationIsHalfUpExactly(n: int)
    ensures IsHalfUp(TruncatedQuotient(n + 5_000, 10_000), n, 10_000) <==>
              -5_000 <= n || (n + 5_000) % 10_000 == 0
    ensures var p := TruncatedQuotient(n + 5_000, 10_000); IsHalfUp(p, n, 10_000) || IsHalfUp(p - 1, n, 10_000)
  {}
}
