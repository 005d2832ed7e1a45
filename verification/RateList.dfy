// Price lists (internal/server/base_import.go): raising a rate by a percentage, and the
// text escaping of an exported list.
module RateList {
  import opened Decimals
  import opened BillingRule
  import Text

  // ----- upliftRate ----------------------------------------------------------

  function UpliftRate(rate: real, pct: real, step: real): real
    requires step > 0.0
  {
    if pct == 0.0 then rate
    else Times(RoundAway(Div(Div(rate * (100.0 + pct), 100.0), step)), step)
  }

  // A step that divides a euro evenly, as the offered ones do: 1/100, 1/10000, 1/20
  // and 1/10.
  predicate Offered(step: real, n: int) {
    0 < n && 5_000_000_000_000_000 % n == 0 && step * n as real == 1.0
  }

  lemma OfferedSteps()
    ensures Offered(0.01, 100) && Offered(0.0001, 10000) && Offered(0.05, 20) && Offered(0.1, 10)
  {}

  lemma RoundByFraction(q: real)
    requires q >= 0.0
    ensures RoundAway(q) == if Fraction(q) >= 0.5 then q.Floor + 1 else q.Floor
  {}

  lemma HalfOrMore(f: real, t: int, r: int)
    requires t > 0 && f * (2 * t) as real == r as real
    ensures f >= 0.5 <==> r >= t
  {
    if f >= 0.5 {
      TimesMonotone(0.5, f, (2 * t) as real);
    } else {
      Below(f, 0.5, (2 * t) as real);
    }
  }

  // The nearest integer to u / (2t), halves away from zero.
  lemma NearestHalf(u: nat, t: int)
    requires t > 0
    ensures var k := RoundAway(u as real / (2 * t) as real); -t < 2 * t * k - u <= t
  {
    hide RoundAway, Fraction;
    var d := 2 * t;
    var q, n, r := u as real / d as real, u / d, u % d;
    FractionOfRatio(u, d);
    Quotient(u as real, d as real);
    RoundByFraction(q);
    HalfOrMore(Fraction(q), t, r);
    FromRemainder(u, t, n, r);
  }

  lemma FromRemainder(u: nat, t: int, n: int, r: int)
    requires t > 0 && n == u / (2 * t) && r == u % (2 * t)
    ensures 2 * t * n - u == -r && 2 * t * (n + 1) - u == 2 * t - r && 0 <= r < 2 * t
  {
    assert u == n * (2 * t) + r;
    assert 2 * t * (n + 1) == 2 * t * n + 2 * t;
  }

  lemma Below(x: real, y: real, z: real)
    requires x < y && z > 0.0
    ensures x * z < y * z
  {
    assert (y - x) * z > 0.0;
  }

  lemma GridStays(v: nat)
    ensures Round16(v as real / SIXTEEN) == v as real / SIXTEEN
  {
    RoundsInteger(v);
  }

  // u / 10^16 euro, an amount with at most sixteen places, in steps.
  lemma InSteps(u: nat, step: real, n: int, t: int)
    requires step > 0.0 && n > 0 && t > 0 && step * n as real == 1.0 && 2 * t * n == 10_000_000_000_000_000
    ensures Div(u as real / SIXTEEN, step) == u as real / (2 * t) as real
  {
    hide Round16;
    var y := u as real / SIXTEEN;
    Quotient(y, step);
    PerStep(y / step, y, step, n);
    Cancel(u, n, t);
    Grid(u, n);
    GridStays(u * n);
  }

  lemma Grid(u: nat, n: int)
    requires n > 0
    ensures u * n >= 0 && u as real / SIXTEEN * n as real == (u * n) as real / SIXTEEN
  {}

  lemma PerStep(q: real, y: real, step: real, n: int)
    requires step > 0.0 && q * step == y && step * n as real == 1.0
    ensures q == y * n as real
  {
    assert q == q * (step * n as real) == (q * step) * n as real;
  }

  lemma Cancel(u: nat, n: int, t: int)
    requires n > 0 && t > 0 && 2 * t * n == 10_000_000_000_000_000
    ensures u as real / SIXTEEN * n as real == u as real / (2 * t) as real
  {
    var x, y := u as real / SIXTEEN * n as real, u as real / (2 * t) as real;
    Quotient(u as real, (2 * t) as real);
    assert (2 * t) as real * n as real == SIXTEEN;
    assert y * SIXTEEN == u as real * n as real;
    assert x * SIXTEEN == u as real * n as real;
  }

  // The rate raised by a percentage, before any rounding.
  function Raised(rate: real, pct: real): real { rate * (100.0 + pct) / 100.0 }

  ghost predicate WithinHalfStep(result: real, exact: real, step: real) {
    -step / 2.0 <= result - exact <= step / 2.0
  }

  // The distance in sixteenth places: e from the rounded amount, d lost before.
  lemma Distance(k: int, u: nat, t: int, step: real, exact: real)
    requires t > 0 && step * SIXTEEN == (2 * t) as real && -t < 2 * t * k - u <= t
    requires u == RoundAway(exact * SIXTEEN)
    ensures WithinHalfStep(Times(k, step), exact, step) <==> !(2 * t * k - u == t && exact * SIXTEEN < u as real)
    ensures -step / 2.0 - 0.5 / SIXTEEN <= Times(k, step) - exact <= step / 2.0 + 0.5 / SIXTEEN
  {
    RoundsNear(exact * SIXTEEN);
    var e, d := 2 * t * k - u, exact * SIXTEEN - u as real;
    Units(k, t, step);
    assert (Times(k, step) - exact) * SIXTEEN == e as real - d;
  }

  lemma Units(k: int, t: int, step: real)
    requires step * SIXTEEN == (2 * t) as real
    ensures Times(k, step) * SIXTEEN == (2 * t * k) as real
  {
    assert k as real * step * SIXTEEN == k as real * (2 * t) as real;
  }

  lemma StepUnits(step: real, n: int, t: int)
    requires step * n as real == 1.0 && 2 * t * n == 10_000_000_000_000_000
    ensures step * SIXTEEN == (2 * t) as real
  {
    assert (2 * t) as real * n as real == SIXTEEN;
    assert step * SIXTEEN == step * n as real * (2 * t) as real;
  }

  // Whether the quotient is a tie that the rounding to sixteen places has lifted.
  predicate LiftedTie(rate: real, pct: real, step: real)
    requires step > 0.0
  {
    var y := Div(rate * (100.0 + pct), 100.0);
    pct != 0.0 && Raised(rate, pct) < y && Fraction(Div(y, step)) == 0.5
  }

  // A raised rate is a multiple of the step, and a rate that is not raised is one only
  // if it was one. It is within half a step of the exact raised rate, except that a rate
  // just below a tie may have been lifted onto it; that needs more than sixteen
  // decimals.
  lemma UpliftIsNearest(rate: real, pct: real, step: real, n: int)
    requires step > 0.0 && Offered(step, n) && rate * (100.0 + pct) >= 0.0
    ensures var result, exact := UpliftRate(rate, pct, step), Raised(rate, pct);
      && (Multiple(result, step) <==> pct != 0.0 || Multiple(rate, step))
      && (WithinHalfStep(result, exact, step) <==> !LiftedTie(rate, pct, step))
      && (Whole(exact * SIXTEEN) ==> WithinHalfStep(result, exact, step))
      && -step / 2.0 - 0.5 / SIXTEEN <= result - exact <= step / 2.0 + 0.5 / SIXTEEN
  {
    hide RoundAway, Times, Whole, Offered, Fraction, WithinHalfStep;
    if pct == 0.0 {
      UnchangedIsExact(rate, step);
    } else {
      RaisedIsNearest(rate, pct, step, n);
    }
  }

  lemma UnchangedIsExact(rate: real, step: real)
    requires step > 0.0
    ensures UpliftRate(rate, 0.0, step) == rate == Raised(rate, 0.0) && WithinHalfStep(rate, Raised(rate, 0.0), step)
  {}

  lemma RaisedIsNearest(rate: real, pct: real, step: real, n: int)
    requires step > 0.0 && Offered(step, n) && pct != 0.0 && rate * (100.0 + pct) >= 0.0
    ensures var result, exact := UpliftRate(rate, pct, step), Raised(rate, pct);
      && Multiple(result, step)
      && (WithinHalfStep(result, exact, step) <==> !LiftedTie(rate, pct, step))
      && (Whole(exact * SIXTEEN) ==> WithinHalfStep(result, exact, step))
      && -step / 2.0 - 0.5 / SIXTEEN <= result - exact <= step / 2.0 + 0.5 / SIXTEEN
  {
    hide RoundAway, Times, Whole, Offered, Fraction, WithinHalfStep;
    var exact, t := Raised(rate, pct), HalfStep(step, n);
    var u := RoundAway(exact * SIXTEEN);
    NotNegative(exact);
    InSteps(u, step, n, t);
    NearestHalf(u, t);
    StepUnits(step, n, t);
    var k := RoundAway(u as real / (2 * t) as real);
    Distance(k, u, t, step, exact);
    TieIsHalf(u, t);
    if Whole(exact * SIXTEEN) {
      WholeIsKept(exact * SIXTEEN);
    }
    Lifted(exact, u);
  }

  // Such a rate: one euro raised by almost half a percent becomes 1.01 euro, more than
  // half a cent above the exact amount. And a rate that is not raised keeps its decimals.
  lemma TieIsLifted()
    ensures var pct := 0.499_999_999_999_999_999_9;
      LiftedTie(1.0, pct, 0.01) && UpliftRate(1.0, pct, 0.01) == 1.01 && !WithinHalfStep(1.01, Raised(1.0, pct), 0.01)
    ensures UpliftRate(0.0123, 0.0, 0.01) == 0.0123 && !Multiple(0.0123, 0.01)
  {
    var pct := 0.499_999_999_999_999_999_9;
    var x := 1.0 * (100.0 + pct) / 100.0;
    assert RoundAway(x * SIXTEEN) == 10_050_000_000_000_000;
    assert Div(100.0 + pct, 100.0) == 1.005;
    assert 1.005 / 0.01 == 100.5;
    RoundsInteger(1_005_000_000_000_000_000);
    assert Div(1.005, 0.01) == 100.5;
    forall k: int ensures Times(k, 0.01) != 0.0123 {
      assert Times(k, 0.01) * 10_000.0 == (100 * k) as real;
    }
  }

  ghost function HalfStep(step: real, n: int): (t: int)
    requires Offered(step, n)
    ensures n > 0 && t > 0 && step * n as real == 1.0 && 2 * t * n == 10_000_000_000_000_000
  {
    5_000_000_000_000_000 / n
  }

  lemma NotNegative(x: real)
    requires x >= 0.0
    ensures RoundAway(x * SIXTEEN) >= 0
  {}

  lemma WholeIsKept(x: real)
    requires Whole(x)
    ensures RoundAway(x) as real == x
  {
    RoundsInteger(x.Floor);
  }

  lemma Lifted(x: real, u: int)
    ensures x * SIXTEEN < u as real <==> x < u as real / SIXTEEN
  {}

  lemma TieIsHalf(u: nat, t: int)
    requires t > 0
    ensures var q := u as real / (2 * t) as real;
      2 * t * RoundAway(q) - u == t <==> Fraction(q) == 0.5
  {
    hide RoundAway, Fraction;
    var d := 2 * t;
    var q, n, r := u as real / d as real, u / d, u % d;
    FractionOfRatio(u, d);
    Quotient(u as real, d as real);
    RoundByFraction(q);
    HalfOrMore(Fraction(q), t, r);
    ExactlyHalf(Fraction(q), t, r);
    FromRemainder(u, t, n, r);
  }

  lemma ExactlyHalf(f: real, t: int, r: int)
    requires t > 0 && f * (2 * t) as real == r as real
    ensures f == 0.5 <==> r == t
  {
    if r == t {
      SameFactor(f, 0.5, (2 * t) as real);
    }
  }

  // ----- the text of an exported list ----------------------------------------

  // What a spreadsheet would read as a formula.
  predicate FormulaStart(v: string) {
    var t := Text.TrimLeft(v, Text.IsSpace);
    t != "" && t[0] in "=+-@"
  }

  // csvSafe
  function CsvSafe(v: string): string { if FormulaStart(v) then "'" + v else v }

  function WriteText(s: string): string { if "'" <= s then "'" + s else CsvSafe(s) }

  function ReadText(cell: string): string {
    if "'" <= cell && ("'" <= cell[1..] || CsvSafe(cell[1..]) != cell[1..]) then cell[1..] else cell
  }

  // Every text comes back from an export, and no exported text is read as a formula.
  lemma TextRoundTrip(s: string)
    ensures ReadText(WriteText(s)) == s && !FormulaStart(WriteText(s))
  {
    if "'" <= s || CsvSafe(s) != s {
      assert ("'" + s)[1..] == s;
      assert Text.TrimLeft("'" + s, Text.IsSpace) == "'" + s;
    }
  }
}
