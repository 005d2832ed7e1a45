// Billed machine hours (internal/models/models.go, BilledHours): rounded up to the
// increment of the basis, then raised to its minimum. The quotient is rounded to
// sixteen places before the ceiling is taken.
module BillingRule {
  import opened Decimals

  function BilledHours(hours: real, increment: real, minimum: real): real {
    var h := if increment > 0.0 then Times(Ceil(Div(hours, increment)), increment) else hours;
    if minimum > 0.0 && h < minimum then minimum else h
  }

  function Times(k: int, step: real): real { k as real * step }

  ghost predicate Multiple(x: real, step: real) { exists k: int :: x == Times(k, step) }

  // The least multiple of step that is not below x.
  ghost predicate LeastMultiple(r: real, step: real, x: real) {
    Multiple(r, step) && x <= r < x + step
  }

  function Fraction(q: real): real { q - q.Floor as real }

  // The rounding of the quotient loses a fraction below half a unit of the sixteenth
  // place, and no other.
  lemma CeilOfQuotient(q: real)
    requires q >= 0.0
    ensures Ceil(Round16(q)) == if 0.0 < Fraction(q) < 0.5 / SIXTEEN then q.Floor else Ceil(q)
  {
    hide RoundAway;
    var n, unit := q.Floor, 10_000_000_000_000_000;
    var x := q * SIXTEEN;
    RoundsNear(x);
    RoundsInteger(n * unit);
    RoundsInteger((n + 1) * unit);
    if Fraction(q) == 0.0 {
      assert x == (n * unit) as real;
    } else if Fraction(q) < 0.5 / SIXTEEN {
      assert (n * unit) as real < x < (n * unit) as real + 0.5;
      assert RoundAway(x) == n * unit;
    } else {
      RoundsMonotone(x, ((n + 1) * unit) as real);
      assert RoundAway(x) > n * unit by {
        RoundsMonotone((n * unit) as real + 0.5, x);
        HalfRoundsUp(n * unit);
      }
    }
  }

  lemma HalfRoundsUp(k: nat)
    ensures RoundAway(k as real + 0.5) == k + 1
  {}

  lemma Quotient(hours: real, step: real)
    requires step > 0.0
    ensures (hours / step) * step == hours
    ensures hours >= 0.0 ==> hours / step >= 0.0
  {
    var q := hours / step;
    if q < 0.0 {
      assert (-q) * step > 0.0;
    }
  }

  lemma CeilIsLeast(q: real, step: real)
    requires step > 0.0
    ensures LeastMultiple(Times(Ceil(q), step), step, q * step)
  {
    var c := Ceil(q) as real;
    TimesMonotone(q, c, step);
    assert (q + 1.0 - c) * step > 0.0;
  }

  lemma FloorIsBelow(q: real, step: real)
    requires step > 0.0 && Fraction(q) > 0.0
    ensures Times(q.Floor, step) < q * step
  {
    assert (q - q.Floor as real) * step > 0.0;
  }

  // Without a minimum the billed hours are the least multiple of the increment not
  // below the hours, exactly unless the quotient exceeds an integer by less than half
  // a unit of the sixteenth place.
  lemma BilledExactlyUnless(hours: real, increment: real)
    requires hours >= 0.0 && increment > 0.0
    ensures LeastMultiple(BilledHours(hours, increment, 0.0), increment, hours) <==>
      !(0.0 < Fraction(hours / increment) < 0.5 / SIXTEEN)
  {
    hide Ceil, Times, Round16, Multiple;
    var q := hours / increment;
    Quotient(hours, increment);
    CeilOfQuotient(q);
    CeilIsLeast(q, increment);
    if Fraction(q) > 0.0 {
      FloorIsBelow(q, increment);
    }
  }

  // ----- decimals in a common unit -------------------------------------------

  // hours and increment are h and a units of 1/scale hours.
  ghost predicate ExactAt(h: nat, a: int, scale: real)
    requires a > 0 && scale > 0.0
  {
    Positive(a, scale);
    LeastMultiple(BilledHours(h as real / scale, a as real / scale, 0.0), a as real / scale, h as real / scale)
  }

  lemma Positive(a: int, scale: real)
    requires a > 0 && scale > 0.0
    ensures a as real / scale > 0.0
  {
    Quotient(a as real, scale);
  }

  lemma RatioOfUnits(h: nat, a: int, scale: real)
    requires a > 0 && scale > 0.0
    ensures a as real / scale > 0.0 && h as real / scale >= 0.0
    ensures (h as real / scale) / (a as real / scale) == h as real / a as real
  {
    Positive(a, scale);
    Quotient(h as real, scale);
    var x, y := h as real / scale, a as real / scale;
    Quotient(a as real, scale);
    Quotient(x, y);
    assert (x / y) * (y * scale) == x * scale;
    var q := x / y;
    assert q * a as real == h as real;
    Quotient(h as real, a as real);
    SameFactor(q, h as real / a as real, a as real);
  }

  lemma SameFactor(p: real, q: real, z: real)
    requires z != 0.0 && p * z == q * z
    ensures p == q
  {
    assert (p - q) * z == 0.0;
  }

  lemma SameSign(x: real, z: real)
    requires z > 0.0
    ensures x * z >= 0.0 ==> x >= 0.0
  {
    if x < 0.0 {
      assert (-x) * z > 0.0;
    }
  }

  lemma Remainder(q: real, n: int, r: int, a: int)
    requires q * a as real == (n * a + r) as real
    ensures (q - n as real) * a as real == r as real
  {
    assert (n * a) as real == n as real * a as real;
  }

  lemma FractionOfRatio(h: nat, a: int)
    requires a > 0
    ensures var q := h as real / a as real;
      q.Floor == h / a && Fraction(q) * a as real == (h % a) as real
  {
    hide Product;
    var q, n := h as real / a as real, h / a;
    FloorOfRatio(h, a);
    Quotient(h as real, a as real);
    Remainder(q, n, h % a, a);
  }

  lemma FloorOfRatio(h: nat, a: int)
    requires a > 0
    ensures (h as real / a as real).Floor == h / a
  {
    hide Product;
    var q, n := h as real / a as real, h / a;
    QuotientTimes(h as real, a as real);
    ProductOfInts(n, a);
    ProductOfInts(n + 1, a);
    assert n * a <= h < (n + 1) * a by {
      assert h == n * a + h % a && (n + 1) * a == n * a + a;
    }
    OrderedByFactor(n as real, q, a as real);
    OrderedByFactor((n + 1) as real, q, a as real);
  }

  // A quotient of h by a units has no lost fraction while a is at most 2 * 10^16;
  // above that, a single unit of hours already loses its own.
  lemma LostFraction(h: nat, a: int)
    requires a > 0
    ensures a <= 20_000_000_000_000_000 ==> !(0.0 < Fraction(h as real / a as real) < 0.5 / SIXTEEN)
    ensures a > 20_000_000_000_000_000 ==> 0.0 < Fraction(1.0 / a as real) < 0.5 / SIXTEEN
  {
    hide Fraction;
    FractionOfRatio(h, a);
    SmallDivisor(Fraction(h as real / a as real), h % a, a);
    if a > 20_000_000_000_000_000 {
      FractionOfRatio(1, a);
      assert 1 % a == 1;
      LargeDivisor(Fraction(1.0 / a as real), a);
    }
  }

  lemma SmallDivisor(f: real, r: nat, a: int)
    requires a > 0 && f * a as real == r as real
    ensures a <= 20_000_000_000_000_000 ==> !(0.0 < f < 0.5 / SIXTEEN)
  {
    if f > 0.0 && a <= 20_000_000_000_000_000 {
      PositiveProduct(f, a as real);
      assert r >= 1;
      TimesMonotone(a as real, 20_000_000_000_000_000.0, f);
      assert 1.0 <= 20_000_000_000_000_000.0 * f;
    }
  }

  lemma LargeDivisor(f: real, a: int)
    requires a > 20_000_000_000_000_000 && f * a as real == 1.0
    ensures 0.0 < f < 0.5 / SIXTEEN
  {
    OrderedByFactor(f, 0.0, a as real);
    OrderedByFactor(0.5 / SIXTEEN, f, a as real);
  }

  lemma PositiveProduct(x: real, y: real)
    requires x > 0.0 && y > 0.0
    ensures x * y > 0.0
  {}

  // Rounding up is exact for all hours exactly when the increment is at most
  // 2 * 10^16 of the units in which hours and increment are whole.
  lemma ExactForAllHours(a: int, scale: real)
    requires a > 0 && scale > 0.0
    ensures (forall h: nat :: ExactAt(h, a, scale)) <==> a <= 20_000_000_000_000_000
  {
    hide LeastMultiple, BilledHours, Fraction;
    forall h: nat ensures ExactAt(h, a, scale) <==> !(0.0 < Fraction(h as real / a as real) < 0.5 / SIXTEEN) {
      RatioOfUnits(h, a, scale);
      BilledExactlyUnless(h as real / scale, a as real / scale);
    }
    forall h: nat ensures a <= 20_000_000_000_000_000 ==> ExactAt(h, a, scale) {
      LostFraction(h, a);
    }
    LostFraction(1, a);
    assert ExactAt(1, a, scale) <==> !(0.0 < Fraction(1 as real / a as real) < 0.5 / SIXTEEN);
  }

  // The rule as it is stored: at most three decimals and at most a day.
  lemma BilledIsLeastMultiple(hours: real, increment: real, minimum: real)
    requires hours >= 0.0 && Whole(hours * 1000.0)
    requires 0.0 < increment <= 24.0 && Whole(increment * 1000.0)
    ensures var up := BilledHours(hours, increment, 0.0);
      && LeastMultiple(up, increment, hours)
      && BilledHours(hours, increment, minimum) == if minimum > up then minimum else up
  {
    hide LeastMultiple, Ceil, Round16, Times;
    var h, a := (hours * 1000.0).Floor, (increment * 1000.0).Floor;
    assert hours == h as real / 1000.0 && increment == a as real / 1000.0;
    ExactForAllHours(a, 1000.0);
    assert ExactAt(h, a, 1000.0);
    NoNegative(hours, increment);
  }

  lemma NoNegative(hours: real, increment: real)
    requires hours >= 0.0 && increment > 0.0
    ensures BilledHours(hours, increment, 0.0) >= 0.0
  {
    Quotient(hours, increment);
    CeilOfQuotient(hours / increment);
    TimesMonotone(0.0, Ceil(Div(hours, increment)) as real, increment);
  }

  // ----- monotone and idempotent ---------------------------------------------

  lemma BilledMonotone(hours: real, more: real, increment: real, minimum: real)
    requires hours <= more
    ensures BilledHours(hours, increment, minimum) <= BilledHours(more, increment, minimum)
  {
    hide Ceil, Round16, Times;
    if increment > 0.0 {
      QuotientMonotone(hours, more, increment);
      CeilMonotone(hours / increment, more / increment);
      TimesGrow(Ceil(Div(hours, increment)), Ceil(Div(more, increment)), increment);
    }
  }

  lemma TimesGrow(j: int, k: int, step: real)
    requires j <= k && step >= 0.0
    ensures Times(j, step) <= Times(k, step)
  {
    TimesMonotone(j as real, k as real, step);
  }

  lemma QuotientMonotone(x: real, y: real, z: real)
    requires x <= y && z > 0.0
    ensures x / z <= y / z
  {
    hide Product;
    QuotientTimes(x, z);
    QuotientTimes(y, z);
    OrderedByFactor(x / z, y / z, z);
  }

  lemma QuotientTimes(x: real, z: real)
    requires z > 0.0
    ensures Product(x / z, z) == x
  {
    Quotient(x, z);
  }

  lemma OrderedByFactor(p: real, q: real, z: real)
    requires z > 0.0
    ensures p <= q <==> Product(p, z) <= Product(q, z)
  {
    if p <= q {
      TimesMonotone(p, q, z);
    } else {
      assert (p - q) * z > 0.0;
    }
  }

  lemma ProductOfInts(n: int, a: int)
    ensures Product(n as real, a as real) == (n * a) as real
  {}

  lemma CeilMonotone(p: real, q: real)
    requires p <= q
    ensures Ceil(Round16(p)) <= Ceil(Round16(q))
  {
    RoundsMonotone(p * SIXTEEN, q * SIXTEEN);
  }

  lemma MultipleStays(k: int, increment: real, minimum: real)
    requires increment > 0.0 && (minimum > 0.0 ==> minimum <= Times(k, increment))
    ensures BilledHours(Times(k, increment), increment, minimum) == Times(k, increment)
  {
    var x := Times(k, increment);
    Quotient(x, increment);
    SameFactor(x / increment, k as real, increment);
    RoundsInteger(k * 10_000_000_000_000_000);
    assert k as real * SIXTEEN == (k * 10_000_000_000_000_000) as real;
  }

  // Billing billed hours again changes nothing, for all hours that can be booked,
  // exactly when one of the two is off, the minimum is a multiple of the increment, or
  // it is below the increment and so never reached. The increment and the minimum are
  // a and m units; booked hours are positive and whole in the unit.
  lemma IdempotentExactly(a: int, m: int, scale: real)
    requires scale > 0.0 && a <= 20_000_000_000_000_000
    ensures AlwaysIdempotent(a as real / scale, m as real / scale, scale) <==> Harmless(a, m)
  {
    hide BilledHours;
    var increment, minimum := a as real / scale, m as real / scale;
    UnitSign(a, scale);
    UnitSign(m, scale);
    if Harmless(a, m) {
      forall h: nat | h > 0 ensures IdempotentAt(h, increment, minimum, scale) {
        BilledOnce(h, a, m, scale);
      }
    } else {
      UnitIsRaised(a, m, scale);
      assert !IdempotentAt(1, increment, minimum, scale);
    }
  }

  predicate Harmless(a: int, m: int) { a <= 0 || m <= 0 || m % a == 0 || m < a }

  ghost predicate AlwaysIdempotent(increment: real, minimum: real, scale: real)
    requires scale > 0.0
  {
    forall h: nat :: h > 0 ==> IdempotentAt(h, increment, minimum, scale)
  }

  ghost predicate IdempotentAt(h: nat, increment: real, minimum: real, scale: real)
    requires scale > 0.0
  {
    Idempotent(h as real / scale, increment, minimum)
  }

  lemma BilledOnce(h: nat, a: int, m: int, scale: real)
    requires h > 0 && scale > 0.0 && a <= 20_000_000_000_000_000 && Harmless(a, m)
    ensures Idempotent(h as real / scale, a as real / scale, m as real / scale)
  {
    hide BilledHours;
    var increment, minimum := a as real / scale, m as real / scale;
    UnitSign(a, scale);
    UnitSign(m, scale);
    if a > 0 && 0 < m < a {
      AtLeastOne(h, a, scale);
      SmallerUnits(m, a, scale);
      SmallMinimum(h as real / scale, increment, minimum);
    } else {
      if a > 0 && m > 0 {
        MinimumIsMultiple(a, m, scale);
      }
      BilledAgain(h as real / scale, increment, minimum, m / if a > 0 then a else 1);
    }
  }

  // Positive hours are billed at least one increment.
  lemma AtLeastOne(h: nat, a: int, scale: real)
    requires h > 0 && 0 < a <= 20_000_000_000_000_000 && scale > 0.0
    ensures a as real / scale > 0.0 && Ceil(Div(h as real / scale, a as real / scale)) >= 1
    ensures h <= a ==> Ceil(Div(h as real / scale, a as real / scale)) == 1
  {
    hide Round16;
    RatioOfUnits(h, a, scale);
    var q := h as real / a as real;
    Quotient(h as real, a as real);
    LostFraction(h, a);
    CeilOfQuotient(q);
    if q <= 0.0 {
      TimesMonotone(q, 0.0, a as real);
    }
    if h <= a {
      SameSign(1.0 - q, a as real);
    }
  }

  lemma SmallerUnits(m: int, a: int, scale: real)
    requires m < a && scale > 0.0
    ensures m as real / scale < a as real / scale
  {
    hide Product;
    QuotientTimes(m as real, scale);
    QuotientTimes(a as real, scale);
    OrderedByFactor(a as real / scale, m as real / scale, scale);
  }

  lemma SmallMinimum(hours: real, increment: real, minimum: real)
    requires 0.0 < minimum < increment && Ceil(Div(hours, increment)) >= 1
    ensures Idempotent(hours, increment, minimum)
  {
    hide Ceil, Round16;
    var k := Ceil(Div(hours, increment));
    TimesMonotone(1.0, k as real, increment);
    MultipleStays(k, increment, minimum);
  }

  // The smallest bookable hours are raised to such a minimum, and then beyond it.
  lemma UnitIsRaised(a: int, m: int, scale: real)
    requires scale > 0.0 && a <= 20_000_000_000_000_000 && !Harmless(a, m)
    ensures !Idempotent(1.0 / scale, a as real / scale, m as real / scale)
  {
    hide Ceil, Round16;
    var increment, minimum := a as real / scale, m as real / scale;
    UnitSign(m, scale);
    AtLeastOne(1, a, scale);
    SmallerUnits(a, m, scale);
    assert BilledHours(1.0 / scale, increment, minimum) == minimum;
    RatioOfUnits(m, a, scale);
    FractionOfRatio(m, a);
    LostFraction(m, a);
    MinimumIsNoMultiple(1.0 / scale, increment, minimum);
  }

  ghost predicate Idempotent(hours: real, increment: real, minimum: real) {
    BilledHours(BilledHours(hours, increment, minimum), increment, minimum) == BilledHours(hours, increment, minimum)
  }

  lemma UnitSign(n: int, scale: real)
    requires scale > 0.0
    ensures n as real / scale > 0.0 <==> n > 0
  {
    var x := n as real / scale;
    assert x * scale == n as real;
    if x > 0.0 {
      assert x * scale > 0.0;
    }
    if n > 0 {
      Positive(n, scale);
    }
  }

  lemma MinimumIsMultiple(a: int, m: int, scale: real)
    requires a > 0 && scale > 0.0 && m % a == 0
    ensures m as real / scale == Times(m / a, a as real / scale)
  {
    Quotient(m as real, scale);
    Quotient(a as real, scale);
    var k := m / a;
    assert m == k * a;
    assert Times(k, a as real / scale) * scale == k as real * (a as real / scale * scale);
    SameFactor(m as real / scale, Times(k, a as real / scale), scale);
  }

  // c is the minimum in increments, when both are on.
  lemma BilledAgain(hours: real, increment: real, minimum: real, c: int)
    requires increment > 0.0 && minimum > 0.0 ==> minimum == Times(c, increment)
    ensures Idempotent(hours, increment, minimum)
  {
    hide Ceil, Round16;
    if increment > 0.0 {
      var k := Ceil(Div(hours, increment));
      if minimum > 0.0 && Times(k, increment) < minimum {
        MultipleStays(c, increment, minimum);
      } else {
        MultipleStays(k, increment, minimum);
      }
    }
  }

  lemma MinimumIsNoMultiple(hours: real, increment: real, minimum: real)
    requires increment > 0.0 && minimum > 0.0 && BilledHours(hours, increment, minimum) == minimum
    requires Fraction(minimum / increment) >= 0.5 / SIXTEEN
    ensures !Idempotent(hours, increment, minimum)
  {
    hide Round16;
    Quotient(minimum, increment);
    CeilOfQuotient(minimum / increment);
    NotReached(minimum / increment, increment);
  }

  lemma NotReached(q: real, step: real)
    requires step > 0.0 && Fraction(q) > 0.0
    ensures Times(Ceil(q), step) > q * step
  {
    assert (Ceil(q) as real - q) * step > 0.0;
  }
}
