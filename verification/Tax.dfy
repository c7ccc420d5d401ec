/** Line tax: added on top of a base, or taken out of a total that includes it. */
module Tax {
  import opened Wrappers
  import opened Rounding

  datatype Mode = TaxAdded | TaxIncluded

  datatype LineTax = LineTax(base: int, tax: int, total: int)

  const WHOLE: nat := 10_000 // basis points in one unit

  function CalculateLineTax(amount: Number, rate: Number, mode: Mode): Result<LineTax, RangeError> {
    if !IsSafeInteger(amount) || amount.value < 0 then Err(InvalidAmount)
    else if !IsSafeInteger(rate) || rate.value < 0 then Err(InvalidRate)
    else
      match RoundHalfUp(amount.value * rate.value, if mode.TaxAdded? then WHOLE else WHOLE + rate.value)
      case Err(e) => Err(e)
      case Ok(tax) =>
        var total := if mode.TaxAdded? then amount.value + tax else amount.value;
        if !IsSafeInteger(Whole(total)) then Err(TotalTooLarge)
        else Ok(LineTax(if mode.TaxAdded? then amount.value else amount.value - tax, tax, total))
  }

  predicate Accepted(amount: int, rate: int) {
    0 <= amount <= MAX_SAFE_INTEGER && 0 <= rate <= MAX_SAFE_INTEGER
  }

  lemma ProductIsNatural(a: nat, b: nat)
    ensures 0 <= a * b
  {}

  /* ---- What the two modes compute ---- */

  // Added: the tax is the half-up share of the base, unless the total overflows.
  lemma AddedSpecification(base: int, rate: int, tax: nat)
    requires Accepted(base, rate) && IsHalfUp(tax, base * rate, WHOLE)
    ensures CalculateLineTax(Whole(base), Whole(rate), TaxAdded)
              == if tax > MAX_SAFE_INTEGER then Err(RoundedTooLarge)
                 else if base + tax > MAX_SAFE_INTEGER then Err(TotalTooLarge)
                 else Ok(LineTax(base, tax, base + tax))
  {
    ProductIsNatural(base, rate);
    RoundingSpecification(base * rate, WHOLE, tax);
  }

  // Included: never refused; base and tax share the total without loss, both non-negative.
  lemma IncludedSpecification(total: int, rate: int)
    requires Accepted(total, rate)
    ensures var r := CalculateLineTax(Whole(total), Whole(rate), TaxIncluded);
            && r.Ok? && r.value.total == total
            && r.value.base + r.value.tax == total
            && 0 <= r.value.tax && 0 <= r.value.base
            && IsHalfUp(r.value.tax, total * rate, WHOLE + rate)
  {
    ProductIsNatural(total, rate);
    var n, d := total * rate, WHOLE + rate;
    QuotientIsHalfUp(n, d);
    var tax := if n % d * 2 >= d then n / d + 1 else n / d;
    ShareIsAtMostTotal(total, rate, tax);
    RoundingSpecification(n, d, tax);
  }

  // Which refusal comes when: the amount is looked at before the rate.
  lemma TaxRefusals(amount: Number, rate: Number, mode: Mode)
    ensures CalculateLineTax(amount, rate, mode) == Err(InvalidAmount) <==> !IsAmount(amount)
    ensures CalculateLineTax(amount, rate, mode) == Err(InvalidRate) <==> IsAmount(amount) && !IsAmount(rate)
  {
    if IsAmount(amount) && IsAmount(rate) { ProductIsNatural(amount.value, rate.value); }
  }

  function IncludedTax(total: int, rate: int): (line: LineTax)
    requires Accepted(total, rate)
    ensures CalculateLineTax(Whole(total), Whole(rate), TaxIncluded) == Ok(line)
  {
    IncludedSpecification(total, rate);
    CalculateLineTax(Whole(total), Whole(rate), TaxIncluded).value
  }

  lemma ShareIsAtMostTotal(total: nat, rate: nat, tax: int)
    requires IsHalfUp(tax, total * rate, WHOLE + rate)
    ensures 0 <= tax <= total
  {
    var d := WHOLE + rate;
    ProductIsNatural(total, rate);
    assert (2 * total + 1) * d == 2 * (total * rate) + 2 * total * WHOLE + d;
    if tax < 0 {
      MulMonotone(2 * tax + 1, 0, d);
      assert false;
    }
    if total < tax {
      MulMonotone(2 * total + 1, 2 * tax - 1, d);
      assert false;
    }
  }

  /* ---- Out of an added total comes what went in ---- */

  lemma HalfUpSurvivesInclusion(base: int, rate: nat, tax: int)
    requires IsHalfUp(tax, base * rate, WHOLE)
    ensures IsHalfUp(tax, (base + tax) * rate, WHOLE + rate)
  {
    assert (base + tax) * rate == base * rate + tax * rate;
    assert (2 * tax - 1) * (WHOLE + rate) == (2 * tax - 1) * WHOLE + 2 * (tax * rate) - rate;
    assert (2 * tax + 1) * (WHOLE + rate) == (2 * tax + 1) * WHOLE + 2 * (tax * rate) + rate;
  }

  lemma ExactRoundTrip(base: Number, rate: Number)
    requires CalculateLineTax(base, rate, TaxAdded).Ok?
    ensures var added := CalculateLineTax(base, rate, TaxAdded).value;
            CalculateLineTax(Whole(added.total), rate, TaxIncluded) == Ok(added)
  {
    var b, r := base.value, rate.value;
    var added := CalculateLineTax(base, rate, TaxAdded).value;
    ProductIsNatural(b, r);
    RoundingSpecification(b * r, WHOLE, added.tax);
    HalfUpSurvivesInclusion(b, r, added.tax);
    IncludedSpecification(added.total, r);
    var out := CalculateLineTax(Whole(added.total), rate, TaxIncluded).value;
    HalfUpIsUnique(out.tax, added.tax, added.total * r, WHOLE + r);
  }

  /* ---- Included tax is monotone in the total ---- */

  lemma IncludedIsMonotone(small: int, large: int, rate: int)
    requires Accepted(small, rate) && Accepted(large, rate) && small <= large
    ensures IncludedTax(small, rate).base <= IncludedTax(large, rate).base
    ensures IncludedTax(small, rate).tax <= IncludedTax(large, rate).tax
  {
    IncludedSpecification(small, rate);
    IncludedSpecification(large, rate);
    var s, l := IncludedTax(small, rate), IncludedTax(large, rate);
    var d := WHOLE + rate;
    MulMonotone(small, large, rate);
    if l.tax < s.tax {
      MulMonotone(2 * l.tax + 1, 2 * s.tax - 1, d);
      assert false;
    }
    if l.base < s.base {
      SharesGrowApart(small, large, rate, s.tax, l.tax);
      assert false;
    }
  }

  lemma SharesGrowApart(small: int, large: int, rate: nat, sTax: int, lTax: int)
    requires small <= large
    requires IsHalfUp(sTax, small * rate, WHOLE + rate) && IsHalfUp(lTax, large * rate, WHOLE + rate)
    ensures lTax - sTax <= large - small
  {
    // two roundings cannot together gain a whole unit over the true growth
    var d, gap := WHOLE + rate, large - small;
    assert (2 * sTax + 1 + 2 * gap) * d == (2 * sTax + 1) * d + 2 * (gap * d);
    assert gap * d == gap * WHOLE + gap * rate;
    assert large * rate == small * rate + gap * rate;
    if lTax - sTax > gap {
      MulMonotone(2 * sTax + 1 + 2 * gap, 2 * lTax - 1, d);
      assert false;
    }
  }

  /* ---- Out of a total and back ---- */

  // The tax taken out of `total`, and the tax added back to what is left.
  ghost predicate ThereAndBack(total: nat, rate: nat, out: int, back: int) {
    && IsHalfUp(out, total * rate, WHOLE + rate)
    && IsHalfUp(back, (total - out) * rate, WHOLE)
  }

  lemma DriftBound(total: nat, rate: nat, out: int, back: int)
    requires ThereAndBack(total, rate, out, back)
    ensures -(20_000 + rate) < 20_000 * (back - out) < 20_000 + rate
  {
    assert (total - out) * rate == total * rate - out * rate;
    assert (2 * out - 1) * (WHOLE + rate) == 20_000 * out + 2 * (out * rate) - WHOLE - rate;
    assert (2 * out + 1) * (WHOLE + rate) == 20_000 * out + 2 * (out * rate) + WHOLE + rate;
  }

  // Taking the tax out of a total and adding it back returns the total to within
  // one unit for every rate up to 20,000 basis points, and in general to within
  // 1 + rate/20,000 units; only a total at the very bound can be refused.
  lemma OneUnitBound(total: int, rate: int)
    requires Accepted(total, rate)
    ensures var again := CalculateLineTax(Whole(IncludedTax(total, rate).base), Whole(rate), TaxAdded);
            && (again.Ok? ==> -(20_000 + rate) < 20_000 * (again.value.total - total) < 20_000 + rate)
            && (again.Ok? && rate <= 20_000 ==> -1 <= again.value.total - total <= 1)
            && (again.Err? ==> 20_000 * (MAX_SAFE_INTEGER - total) < 20_000 + rate)
  {
    IncludedSpecification(total, rate);
    var out := IncludedTax(total, rate);
    ProductIsNatural(out.base, rate);
    var n := out.base * rate;
    QuotientIsHalfUp(n, WHOLE);
    var back := if n % WHOLE * 2 >= WHOLE then n / WHOLE + 1 else n / WHOLE;
    DriftBound(total, rate, out.tax, back);
    AddedSpecification(out.base, rate, back);
  }

  /* ---- Above 20,000 basis points some total drifts by two ---- */

  function Gcd(a: nat, b: nat): (g: nat)
    requires 0 < a || 0 < b
    ensures 0 < g
    decreases b
  {
    if b == 0 then a else Gcd(b, a % b)
  }

  lemma {:induction false} GcdDivides(a: nat, b: nat)
    requires 0 < a || 0 < b
    ensures a % Gcd(a, b) == 0 && b % Gcd(a, b) == 0
    decreases b
  {
    if b != 0 {
      GcdDivides(b, a % b);
      EuclidStep(a, b);
      CombinationIsDivisible(a / b, b, a % b, Gcd(b, a % b));
    }
  }

  lemma EuclidStep(a: nat, b: nat)
    requires 0 < b
    ensures a / b * b + a % b == a
  {}

  lemma CombinationIsDivisible(q: int, b: int, m: int, g: int)
    requires 0 < g && b % g == 0 && m % g == 0
    ensures (q * b + m) % g == 0
  {
    var x, y := b / g, m / g;
    assert q * (x * g) == (q * x) * g;
    assert (q * x + y) * g == (q * x) * g + y * g;
    DivisionIsUnique(q * b + m, q * x + y, 0, g);
  }

  lemma DivisionIsUnique(n: int, q: int, r: int, d: int)
    requires 0 < d && n == q * d + r && 0 <= r < d
    ensures n / d == q && n % d == r
  {
    var p := n / d;
    assert n == p * d + n % d;
    assert (p + 1) * d == p * d + d && (q + 1) * d == q * d + d;
    if p < q {
      MulMonotone(p + 1, q, d);
      assert false;
    }
    if q < p {
      MulMonotone(q + 1, p, d);
      assert false;
    }
  }

  lemma {:induction false} Bezout(a: nat, b: nat) returns (x: int, y: int)
    requires 0 < a || 0 < b
    ensures a * x + b * y == Gcd(a, b)
    decreases b
  {
    if b == 0 {
      x, y := 1, 0;
    } else {
      var u, v := Bezout(b, a % b);
      x, y := v, u - a / b * v;
      EuclidStep(a, b);
      BezoutStep(a / b, b, a % b, u, v);
    }
  }

  lemma BezoutStep(q: int, b: int, m: int, u: int, v: int)
    ensures (q * b + m) * v + b * (u - q * v) == b * u + m * v
  {
    assert b * (u - q * v) == b * u - q * b * v;
    assert (q * b + m) * v == q * b * v + m * v;
  }

  // Within half of d, and more than one and a half units away once scaled back.
  predicate FarFromMultiples(m: int, d: int) {
    (15_000 < m && 2 * m <= d) || (m <= -15_000 && -d < 2 * m)
  }

  lemma HalfOf(k: int, g: int)
    ensures 2 * (k / 2 * g) == (k - k % 2) * g
  {
    assert 2 * (k / 2) == k - k % 2;
    assert 2 * (k / 2 * g) == 2 * (k / 2) * g;
  }

  // One multiple of g less is still three times as much as one whole.
  lemma OneMultipleLess(k: int, w: int, g: nat)
    requires 0 < g && WHOLE == w * g && 30_000 < k * g
    ensures (k - 1) * g >= 30_000
  {
    assert 3 * w * g == 3 * (w * g);
    if k <= 3 * w {
      MulMonotone(k, 3 * w, g);
      assert false;
    }
    MulMonotone(3 * w, k - 1, g);
  }

  // A multiple of the gcd that is as far from a multiple of d as rounding allows.
  lemma FarResidue(d: nat) returns (m: int)
    requires 30_000 < d
    ensures m % Gcd(WHOLE, d) == 0
    ensures FarFromMultiples(m, d)
  {
    var g := Gcd(WHOLE, d);
    GcdDivides(WHOLE, d);
    m := FarMultiple(d, g);
  }

  lemma FarMultiple(d: nat, g: nat) returns (m: int)
    requires 30_000 < d && 0 < g && WHOLE % g == 0 && d % g == 0
    ensures m % g == 0
    ensures FarFromMultiples(m, d)
  {
    var k, w := d / g, WHOLE / g;
    EuclidStep(d, g);
    EuclidStep(WHOLE, g);
    HalfOf(k, g);
    if k % 2 == 0 {
      m := k / 2 * g;
      DivisionIsUnique(m, k / 2, 0, g);
    } else {
      m := -(k / 2) * g;
      OneMultipleLess(k, w, g);
      assert 0 < g <= 10_000 by { MulMonotone(1, w, g); }
      assert (k - 1) * g == d - g && m == -(k / 2 * g);
      DivisionIsUnique(m, -(k / 2), 0, g);
    }
  }

  // Some total leaves exactly that residue when its tax is taken out.
  lemma TotalWithResidue(d: nat, m: int) returns (total: nat, q: int)
    requires 0 < d && m % Gcd(WHOLE, d) == 0
    ensures total < d
    ensures WHOLE * total == q * d + m
  {
    var g := Gcd(WHOLE, d);
    var x, y := Bezout(WHOLE, d);
    var k := m / g;
    var z := x * k;
    total := z % d;
    q := -(y * k) - WHOLE * (z / d);
    assert z == z / d * d + total;
    assert m == k * g;
    assert (WHOLE * x + d * y) * k == WHOLE * (x * k) + d * (y * k);
    assert WHOLE * (z / d * d) == WHOLE * (z / d) * d;
    assert (-(y * k) - WHOLE * (z / d)) * d == -(d * (y * k)) - WHOLE * (z / d) * d;
  }

  lemma FarResidueDriftsByTwo(total: nat, rate: nat, q: int, m: int)
    requires WHOLE * total == q * (WHOLE + rate) + m
    requires FarFromMultiples(m, WHOLE + rate)
    ensures var out := total - q;
            IsHalfUp(out, total * rate, WHOLE + rate)
    ensures forall back | IsHalfUp(back, q * rate, WHOLE) :: back <= total - q - 2 || back >= total - q + 2
  {
    var out, d := total - q, WHOLE + rate;
    assert q * d == q * WHOLE + q * rate;
    assert total * d == total * WHOLE + total * rate;
    assert out * d == total * d - q * d;
    assert (2 * out - 1) * d == 2 * (out * d) - d;
    assert (2 * out + 1) * d == 2 * (out * d) + d;
  }

  lemma SomeTotalDriftsByTwo(rate: nat) returns (total: nat)
    requires 20_000 < rate <= MAX_SAFE_INTEGER
    ensures Accepted(total, rate) && Drifts(total, rate)
  {
    var d := WHOLE + rate;
    if rate >= 25_000 {
      total := 2;
      if rate >= 30_000 {
        FarResidueDriftsByTwo(2, rate, 0, 20_000);
        DriftsFrom(2, rate, 0);
      } else {
        FarResidueDriftsByTwo(2, rate, 1, 20_000 - d);
        DriftsFrom(2, rate, 1);
      }
    } else {
      var m := FarResidue(d);
      var q;
      total, q := TotalWithResidue(d, m);
      FarResidueDriftsByTwo(total, rate, q, m);
      DriftsFrom(total, rate, q);
    }
  }

  // The total, taken apart and put together again, is off by two units or more.
  predicate Drifts(total: int, rate: int)
    requires Accepted(total, rate)
  {
    var again := CalculateLineTax(Whole(IncludedTax(total, rate).base), Whole(rate), TaxAdded);
    again.Ok? && (again.value.total <= total - 2 || again.value.total >= total + 2)
  }

  lemma DriftsFrom(total: nat, rate: nat, base: int)
    requires Accepted(total, rate) && IsHalfUp(total - base, total * rate, WHOLE + rate)
    requires forall back | IsHalfUp(back, base * rate, WHOLE) :: back <= total - base - 2 || back >= total - base + 2
    requires 20_000 * (MAX_SAFE_INTEGER - total) >= 20_000 + rate
    ensures Drifts(total, rate)
  {
    IncludedSpecification(total, rate);
    var out := IncludedTax(total, rate);
    HalfUpIsUnique(out.tax, total - base, total * rate, WHOLE + rate);
    OneUnitBound(total, rate);
    var again := CalculateLineTax(Whole(base), Whole(rate), TaxAdded);
    ProductIsNatural(base, rate);
    RoundingSpecification(base * rate, WHOLE, again.value.tax);
  }

  // The one-unit bound holds for every total exactly up to 20,000 basis points.
  lemma OneUnitBoundIsTight(rate: nat)
    requires rate <= MAX_SAFE_INTEGER
    ensures (forall total: nat | total <= MAX_SAFE_INTEGER :: !Drifts(total, rate)) <==> rate <= 20_000
  {
    if rate <= 20_000 {
      forall total: nat | total <= MAX_SAFE_INTEGER
        ensures !Drifts(total, rate)
      {
        OneUnitBound(total, rate);
      }
    } else {
      var total := SomeTotalDriftsByTwo(rate);
    }
  }
}
