// How a quick-entry row becomes a booking, and how the yearly recalculation prices it
// again (internal/server/entries.go, createQuickRows and applyEffectiveFuelAdjustment;
// internal/server/price_terms.go, internal/server/billing_rule.go,
// internal/store/recalc.go, internal/models/price_term.go).
module Booking {
  import opened Wrappers
  import opened Decimals
  import opened BillingRule
  import opened Pricing

  datatype Surcharge = Surcharge(title: string, amountPerH: real)
  datatype Term = Term(title: string, discountPct: real)
  datatype Base = Base(increment: real, minimum: real)

  function Discounted(rate: real, pct: real): (real, real) {
    var discounted := Round2(rate * Div(100.0 - pct, 100.0));
    (discounted, rate - discounted)
  }

  // The rate less the percentage, to the nearest cent; and what is taken off is the
  // rest. A percentage as the column holds it divides exactly; one with more decimals
  // moves the quotient by half of its sixteenth place.
  lemma DiscountIsNearest(rate: real, pct: real)
    ensures var (discounted, off) := Discounted(rate, pct);
      && Cents(discounted) && discounted + off == rate
      && Near(discounted, Product(rate, (100.0 - pct) / 100.0), 0.005 + Product(Magnitude(rate), 0.5 / SIXTEEN))
      && (FourPlaces(pct) ==> Near(discounted, Product(rate, (100.0 - pct) / 100.0), 0.005))
  {
    hide Round2, Div, FourPlaces, Cents, Product, Discounted, Magnitude;
    var exact, factor := (100.0 - pct) / 100.0, Div(100.0 - pct, 100.0);
    DiscountedParts(rate, pct);
    Round2Near(Product(rate, factor));
    DivNear(100.0 - pct);
    ScaledNear(rate, factor, exact, 0.5 / SIXTEEN);
    if FourPlaces(pct) {
      PercentDivides(pct);
    }
  }

  lemma DiscountedParts(rate: real, pct: real)
    ensures Discounted(rate, pct).0 == Round2(Product(rate, Div(100.0 - pct, 100.0)))
    ensures Discounted(rate, pct).0 + Discounted(rate, pct).1 == rate
  {
    hide Round2, Div;
  }

  predicate Near(x: real, y: real, tolerance: real) { -tolerance <= x - y <= tolerance }

  function Magnitude(x: real): real { if x < 0.0 then -x else x }

  lemma DivNear(x: real)
    ensures Near(Div(x, 100.0), x / 100.0, 0.5 / SIXTEEN)
  {
    hide RoundAway;
    RoundsNear(x / 100.0 * SIXTEEN);
  }

  lemma ScaledNear(rate: real, x: real, y: real, tolerance: real)
    requires Near(x, y, tolerance)
    ensures Near(Product(rate, x), Product(rate, y), Product(Magnitude(rate), tolerance))
  {
    if rate >= 0.0 {
      TimesMonotone(x - y, tolerance, rate);
      TimesMonotone(-tolerance, x - y, rate);
    } else {
      TimesMonotone(x - y, tolerance, -rate);
      TimesMonotone(-tolerance, x - y, -rate);
    }
  }

  lemma PercentDivides(pct: real)
    requires FourPlaces(pct)
    ensures Div(100.0 - pct, 100.0) == (100.0 - pct) / 100.0
  {
    hide RoundAway;
    var k := (pct * 10_000.0).Floor;
    RoundsInteger((1_000_000 - k) * 10_000_000_000);
    assert (100.0 - pct) / 100.0 * SIXTEEN == ((1_000_000 - k) * 10_000_000_000) as real;
  }

  class Entry {
    var hours: real
    var hourlyRate: real
    var quantity: real
    var unitPrice: real
    var cost: real
    var fuelLabel: string
    var fuelPerH: real
    var termLabel: string
    var termPct: real
    var termPerH: real

    // The resolved rig: its rate, nothing else decided.
    constructor (rate: real)
      ensures hourlyRate == rate && fuelLabel == termLabel == "" && fuelPerH == termPct == termPerH == 0.0
    {
      hourlyRate := rate;
      hours, quantity, unitPrice, cost, fuelPerH, termPct, termPerH := 0.0, 0.0, 0.0, 0.0, 0.0, 0.0, 0.0;
      fuelLabel, termLabel := "", "";
    }

    method ApplyEffectiveFuelAdjustment(adjustment: Option<Surcharge>)
      modifies `fuelLabel, `fuelPerH, `hourlyRate
      ensures var (title, amount) := InEffect(adjustment);
        fuelLabel == title && fuelPerH == amount && hourlyRate == WithSurcharge(old(hourlyRate), amount)
    {
      fuelLabel, fuelPerH := "", 0.0;
      if adjustment.None? || adjustment.value.amountPerH <= 0.0 {
        return;
      }
      fuelLabel, fuelPerH := adjustment.value.title, adjustment.value.amountPerH;
      hourlyRate := Round2(hourlyRate + adjustment.value.amountPerH);
    }

    // machineHours: the entry is in hours and names a rig, a tractor or machines.
    method ApplyPriceTerm(machineHours: bool, term: Option<Term>)
      modifies `termLabel, `termPct, `termPerH, `hourlyRate, `unitPrice, `cost
      ensures var agreed := if machineHours then term else None;
        && (termLabel, termPct, termPerH) == TermSnapshot(old(hourlyRate), agreed)
        && hourlyRate == TermRate(old(hourlyRate), agreed)
        && unitPrice == (if agreed.Some? && old(unitPrice) == old(hourlyRate) then hourlyRate else old(unitPrice))
        && cost == if agreed.Some? then Cost(hours, hourlyRate) else old(cost)
    {
      termLabel, termPct, termPerH := "", 0.0, 0.0;
      if term.None? || !machineHours {
        return;
      }
      var list := hourlyRate;
      var (rate, perH) := Discounted(list, term.value.discountPct);
      termLabel, termPct, termPerH := term.value.title, term.value.discountPct, perH;
      hourlyRate := rate;
      if unitPrice == list {
        unitPrice := rate;
      }
      cost := Cost(hours, rate);
    }

    method ApplyBillingRule(machineHours: bool, base: Option<Base>) returns (measured: real, changed: bool)
      modifies `hours, `quantity, `cost
      ensures hours == if machineHours then Billed(old(hours), base) else old(hours)
      ensures changed <==> hours != old(hours)
      ensures changed ==> measured == old(hours) && cost == Cost(hours, hourlyRate)
      ensures quantity == if changed && old(quantity) == old(hours) then hours else old(quantity)
      ensures !changed ==> cost == old(cost)
    {
      if base.None? || !HasBillingRule(base.value) || !machineHours {
        return 0.0, false;
      }
      measured := hours;
      var billed := BilledHours(measured, base.value.increment, base.value.minimum);
      if billed == measured {
        return measured, false;
      }
      if quantity == measured {
        quantity := billed;
      }
      hours := billed;
      cost := Cost(billed, hourlyRate);
      return measured, true;
    }
  }

  predicate HasBillingRule(base: Base) { base.increment > 0.0 || base.minimum > 0.0 }

  function InEffect(adjustment: Option<Surcharge>): (string, real) {
    if adjustment.Some? && adjustment.value.amountPerH > 0.0
    then (adjustment.value.title, adjustment.value.amountPerH) else ("", 0.0)
  }

  function TermRate(rate: real, term: Option<Term>): real {
    if term.Some? then Discounted(rate, term.value.discountPct).0 else rate
  }

  function TermSnapshot(rate: real, term: Option<Term>): (string, real, real) {
    if term.Some? then (term.value.title, term.value.discountPct, Discounted(rate, term.value.discountPct).1)
    else ("", 0.0, 0.0)
  }

  function Billed(hours: real, base: Option<Base>): real {
    if base.Some? then BilledHours(hours, base.value.increment, base.value.minimum) else hours
  }

  // ----- the recalculation ---------------------------------------------------

  datatype Row = Row(hours: real, rate: real, cost: real, fuelLabel: string, fuelPerH: real, term: (string, real, real))

  // What RecalcPreview proposes for a booking of a rig with these hours.
  function Recalc(tractor: Option<Part>, machines: seq<Part>, hours: real,
                  adjustment: Option<Surcharge>, term: Option<Term>, base: Option<Base>): Row
  {
    var (title, amount) := InEffect(adjustment);
    var list := HourlyRate(tractor, machines, amount);
    var rate, billed := TermRate(list, term), Billed(hours, base);
    Row(billed, rate, Cost(billed, rate), title, amount, TermSnapshot(list, term))
  }

  function RowOf(e: Entry): Row
    reads e
  {
    Row(e.hours, e.hourlyRate, e.cost, e.fuelLabel, e.fuelPerH, (e.termLabel, e.termPct, e.termPerH))
  }

  // One row of a quick entry, booked on a rig. It gets exactly the hours, rate, cost
  // and snapshots that the recalculation computes in its own way.
  method QuickRow(tractor: Option<Part>, machines: seq<Part>, hours: real,
                  adjustment: Option<Surcharge>, term: Option<Term>, base: Option<Base>) returns (e: Entry)
    requires adjustment.Some? ==> FourPlaces(adjustment.value.amountPerH)
    ensures fresh(e) && RowOf(e) == Recalc(tractor, machines, hours, adjustment, term, base)
  {
    hide Round2, Round4, Round16, HourlyRate, WithSurcharge, Catalog, BilledHours, Cost, Discounted, FourPlaces;
    var b := NewAdjustedRateBreakdown(tractor, machines, 0.0);
    e := new Entry(b.hourlyRate);
    e.ApplyEffectiveFuelAdjustment(adjustment);
    ZeroPlaces();
    SnapshotMatchesBreakdown(tractor, machines, InEffect(adjustment).1);
    e.hours := hours;
    e.cost := Cost(hours, e.hourlyRate);
    e.quantity, e.unitPrice := 0.0, 0.0;
    e.ApplyPriceTerm(true, term);
    var _, _ := e.ApplyBillingRule(true, base);
  }

  lemma ZeroPlaces()
    ensures FourPlaces(0.0)
  {}

  // The recalculation leaves every fresh booking as it is exactly when the billing rule
  // is harmless: one of the two is off, or the minimum is a multiple of the increment,
  // or it is below it. The increment, the minimum and the hours are a, m and h units.
  lemma FreshBookingsAreStable(tractor: Option<Part>, machines: seq<Part>, adjustment: Option<Surcharge>,
                               term: Option<Term>, a: int, m: int, scale: real)
    requires scale > 0.0 && a <= 20_000_000_000_000_000
    ensures (forall h: nat :: h > 0 ==> StableAt(tractor, machines, adjustment, term, a, m, scale, h)) <==> Harmless(a, m)
  {
    hide BilledHours, StableAt;
    IdempotentExactly(a, m, scale);
    var increment, minimum := a as real / scale, m as real / scale;
    forall h: nat ensures StableAt(tractor, machines, adjustment, term, a, m, scale, h)
      <==> IdempotentAt(h, increment, minimum, scale)
    {
      StableExactly(tractor, machines, adjustment, term, a, m, scale, h);
    }
  }

  ghost predicate StableAt(tractor: Option<Part>, machines: seq<Part>, adjustment: Option<Surcharge>, term: Option<Term>,
                           a: int, m: int, scale: real, h: nat)
    requires scale > 0.0
  {
    var base := Some(Base(a as real / scale, m as real / scale));
    var booked := Recalc(tractor, machines, h as real / scale, adjustment, term, base);
    Recalc(tractor, machines, booked.hours, adjustment, term, base) == booked
  }

  lemma StableExactly(tractor: Option<Part>, machines: seq<Part>, adjustment: Option<Surcharge>, term: Option<Term>,
                      a: int, m: int, scale: real, h: nat)
    requires scale > 0.0
    ensures StableAt(tractor, machines, adjustment, term, a, m, scale, h)
      <==> IdempotentAt(h, a as real / scale, m as real / scale, scale)
  {
    hide Round2, Round4, HourlyRate, BilledHours, Cost, Discounted;
  }

  // A rule that is not: with half-hour steps and a minimum of three quarters, a quarter
  // of an hour is billed as 0.75 h, and recalculated to a whole hour.
  lemma RecalculationRaisesHours(tractor: Option<Part>, machines: seq<Part>, adjustment: Option<Surcharge>, term: Option<Term>)
    ensures var base := Some(Base(0.5, 0.75));
      var booked := Recalc(tractor, machines, 0.25, adjustment, term, base);
      booked.hours == 0.75 && Recalc(tractor, machines, booked.hours, adjustment, term, base).hours == 1.0
  {
    hide Round2, Round4, HourlyRate, Cost, Discounted;
    RoundsInteger(5_000_000_000_000_000);
    RoundsInteger(15_000_000_000_000_000);
    assert 0.75 / 0.5 == 1.5 && 1.5 * SIXTEEN == 15_000_000_000_000_000 as real;
    assert 0.25 / 0.5 == 0.5 && 0.5 * SIXTEEN == 5_000_000_000_000_000 as real;
  }

  // ----- the agreement that applies ------------------------------------------

  type Day = int

  datatype PriceTerm = PriceTerm(id: int, validFrom: Day, validTo: Option<Day>, term: Term)

  predicate Covers(t: PriceTerm, day: Day) {
    t.validFrom <= day && (t.validTo.Some? ==> day <= t.validTo.value)
  }

  predicate Later(t: PriceTerm, u: PriceTerm) {
    t.validFrom > u.validFrom || (t.validFrom == u.validFrom && t.id > u.id)
  }

  // The covering term no other covering term is later than, whatever the order of
  // the list; none when none covers the day.
  ghost predicate Applies(terms: seq<PriceTerm>, day: Day, selected: Option<PriceTerm>) {
    match selected
    case None => forall t :: t in terms ==> day < t.validFrom || (t.validTo.Some? && t.validTo.value < day)
    case Some(s) =>
      && s in terms && s.validFrom <= day && (s.validTo.Some? ==> day <= s.validTo.value)
      && forall t :: t in terms && t.validFrom <= day && (t.validTo.Some? ==> day <= t.validTo.value) ==>
           t.validFrom < s.validFrom || (t.validFrom == s.validFrom && t.id <= s.id)
  }

  method EffectivePriceTerm(terms: seq<PriceTerm>, day: Day) returns (selected: Option<PriceTerm>)
    ensures Applies(terms, day, selected)
  {
    selected := None;
    assert terms[..0] == [];
    for i := 0 to |terms|
      invariant Applies(terms[..i], day, selected)
    {
      assert terms[..i + 1] == terms[..i] + [terms[i]];
      var candidate := terms[i];
      if Covers(candidate, day) && (selected.None? || Later(candidate, selected.value)) {
        selected := Some(candidate);
      }
    }
    assert terms[..|terms|] == terms;
  }

  lemma OneTermApplies(a: seq<PriceTerm>, b: seq<PriceTerm>, day: Day, s: Option<PriceTerm>, t: Option<PriceTerm>)
    requires multiset(a) == multiset(b) && forall x, y :: x in a && y in a && x.id == y.id ==> x == y
    requires Applies(a, day, s) && Applies(b, day, t)
    ensures s == t
  {
    assert forall x :: x in a <==> x in multiset(a);
    assert forall x :: x in b <==> x in multiset(b);
  }
}
