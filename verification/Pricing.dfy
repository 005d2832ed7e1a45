// The hourly price of a rig and the cost of a booking (internal/calc/calc.go,
// internal/money/money.go, internal/models/price_term.go and the two paths that price
// a booking, internal/server/entries.go and internal/store/recalc.go).
module Pricing {
  import opened Wrappers
  import opened Decimals
  import opened BillingRule

  // A priced component: a tractor under a load level, or a machine.
  datatype Part = Part(quantity: real, unitPrice: real)

  function Amount(quantity: real, unitPrice: real): real { Round2(quantity * unitPrice) }

  function Cost(hours: real, hourlyRate: real): real { Amount(hours, hourlyRate) }

  function Rate(p: Part): real { Amount(p.quantity, p.unitPrice) }

  function Rates(parts: seq<Part>): real {
    if parts == [] then 0.0 else Rates(parts[..|parts| - 1]) + Rate(parts[|parts| - 1])
  }

  // A nil tractor or load level contributes nothing.
  function Catalog(tractor: Option<Part>, machines: seq<Part>): real {
    (if tractor.Some? then Rate(tractor.value) else 0.0) + Rates(machines)
  }

  function HourlyRate(tractor: Option<Part>, machines: seq<Part>, adjustment: real): real {
    Round2(Catalog(tractor, machines) + Round4(adjustment))
  }

  datatype Breakdown = Breakdown(tractorRate: real, machineRates: seq<real>, adjustment: real, hourlyRate: real)

  method NewAdjustedRateBreakdown(tractor: Option<Part>, machines: seq<Part>, adjustment: real) returns (b: Breakdown)
    ensures b.hourlyRate == HourlyRate(tractor, machines, adjustment)
    ensures b.tractorRate == if tractor.Some? then Rate(tractor.value) else 0.0
    ensures |b.machineRates| == |machines| && forall i :: 0 <= i < |machines| ==> b.machineRates[i] == Rate(machines[i])
    ensures b.adjustment == Round4(adjustment)
  {
    hide Rate, Round2, Round4;
    var tractorRate, hourly := 0.0, 0.0;
    if tractor.Some? {
      tractorRate := Rate(tractor.value);
      hourly := tractorRate;
    }
    var rates: seq<real> := [];
    assert machines[..0] == [];
    for i := 0 to |machines|
      invariant hourly == tractorRate + Rates(machines[..i])
      invariant |rates| == i && forall k :: 0 <= k < i ==> rates[k] == Rate(machines[k])
    {
      assert machines[..i + 1][..i] == machines[..i];
      var rate := Rate(machines[i]);
      rates := rates + [rate];
      hourly := hourly + rate;
    }
    assert machines[..|machines|] == machines;
    b := Breakdown(tractorRate, rates, Round4(adjustment), Round2(hourly + Round4(adjustment)));
  }

  // ----- the order of machines -----------------------------------------------

  lemma {:induction false} RatesRemove(parts: seq<Part>, i: nat)
    requires i < |parts|
    ensures Rates(parts) == Rates(parts[..i] + parts[i + 1..]) + Rate(parts[i])
  {
    hide Rate;
    var last := |parts| - 1;
    if i < last {
      RatesRemove(parts[..last], i);
      assert (parts[..i] + parts[i + 1..])[..last - 1] == parts[..last][..i] + parts[..last][i + 1..];
    } else {
      assert parts[..i] + parts[i + 1..] == parts[..last];
    }
  }

  lemma RemoveAt(b: seq<Part>, i: nat)
    requires i < |b|
    ensures multiset(b[..i] + b[i + 1..]) == multiset(b) - multiset{b[i]}
  {
    assert b == b[..i] + [b[i]] + b[i + 1..];
  }

  // The price depends on which machines there are, not on their order.
  lemma {:induction false} OrderDoesNotMatter(a: seq<Part>, b: seq<Part>)
    requires multiset(a) == multiset(b)
    ensures Rates(a) == Rates(b)
    decreases |a|
  {
    hide Rate, Rates;
    if a == [] {
      assert |multiset(b)| == 0;
      assert b == a;
    } else {
      var last := |a| - 1;
      assert a[last] in multiset(b);
      var i :| 0 <= i < |b| && b[i] == a[last];
      RemoveAt(a, last);
      RemoveAt(b, i);
      OrderDoesNotMatter(a[..last] + a[last + 1..], b[..i] + b[i + 1..]);
      RatesRemove(a, last);
      RatesRemove(b, i);
    }
  }

  // Every amount is in cents, and within half a cent of the product.
  lemma AmountNear(quantity: real, unitPrice: real)
    ensures Cents(Amount(quantity, unitPrice))
    ensures -0.005 <= Amount(quantity, unitPrice) - Product(quantity, unitPrice) <= 0.005
  {
    Round2Near(quantity * unitPrice);
  }

  lemma {:induction false} RatesAreCents(parts: seq<Part>)
    ensures Cents(Rates(parts))
  {
    hide Cents, Amount;
    NothingIsCents();
    if parts != [] {
      var last := parts[|parts| - 1];
      RatesAreCents(parts[..|parts| - 1]);
      AmountNear(last.quantity, last.unitPrice);
      CentsAdd(Rates(parts[..|parts| - 1]), Rate(last));
    }
  }

  lemma NothingIsCents()
    ensures Cents(0.0)
  {}

  lemma CatalogIsCents(tractor: Option<Part>, machines: seq<Part>)
    ensures Cents(Catalog(tractor, machines))
  {
    hide Cents, Amount, Rates;
    NothingIsCents();
    RatesAreCents(machines);
    if tractor.Some? {
      AmountNear(tractor.value.quantity, tractor.value.unitPrice);
      CentsAdd(Rate(tractor.value), Rates(machines));
    }
  }

  // ----- how far rounding can take a cost ------------------------------------

  function Exact(parts: seq<Part>): real {
    if parts == [] then 0.0
    else Exact(parts[..|parts| - 1]) + Product(parts[|parts| - 1].quantity, parts[|parts| - 1].unitPrice)
  }

  lemma {:induction false} RatesNearExact(parts: seq<Part>)
    ensures -0.005 * |parts| as real <= Rates(parts) - Exact(parts) <= 0.005 * |parts| as real
  {
    hide Amount, Product;
    if parts != [] {
      RatesNearExact(parts[..|parts| - 1]);
      AmountNear(parts[|parts| - 1].quantity, parts[|parts| - 1].unitPrice);
    }
  }

  function Parts(tractor: Option<Part>, machines: seq<Part>): seq<Part> {
    machines + if tractor.Some? then [tractor.value] else []
  }

  // Without a surcharge the booked cost is within half a cent, and another half cent
  // an hour for every component, of the exact hours times the exact rate.
  lemma CostNearExact(hours: real, tractor: Option<Part>, machines: seq<Part>)
    requires hours >= 0.0
    ensures var parts := Parts(tractor, machines);
      var error := Cost(hours, HourlyRate(tractor, machines, 0.0)) - hours * Exact(parts);
      -(0.005 + hours * 0.005 * |parts| as real) <= error <= 0.005 + hours * 0.005 * |parts| as real
  {
    hide Round2, Round4, Cents, Cost;
    var parts := Parts(tractor, machines);
    var rate := Catalog(tractor, machines);
    CatalogIsCents(tractor, machines);
    RoundsCents(rate);
    ZeroRounds();
    if tractor.Some? {
      assert parts[..|parts| - 1] == machines;
    } else {
      assert parts == machines;
    }
    assert Rates(parts) == rate;
    RatesNearExact(parts);
    var hourly := HourlyRate(tractor, machines, 0.0);
    assert hourly == rate;
    CostWithin(hours, hourly, Exact(parts), |parts| as real);
  }

  lemma CostWithin(hours: real, rate: real, exact: real, n: real)
    requires hours >= 0.0 && -0.005 * n <= rate - exact <= 0.005 * n
    ensures -(0.005 + hours * 0.005 * n) <= Cost(hours, rate) - hours * exact <= 0.005 + hours * 0.005 * n
  {
    hide Amount, Product;
    AmountNear(hours, rate);
    Within(hours, rate, exact, 0.005 * n);
    Products(hours, exact, n);
  }

  lemma Products(hours: real, exact: real, n: real)
    ensures Product(hours, exact) == hours * exact && Product(hours, 0.005 * n) == hours * 0.005 * n
  {}

  lemma Within(hours: real, rate: real, exact: real, bound: real)
    requires hours >= 0.0 && -bound <= rate - exact <= bound
    ensures -Product(hours, bound) <= Product(hours, rate) - Product(hours, exact) <= Product(hours, bound)
  {
    TimesMonotone(rate, exact + bound, hours);
    TimesMonotone(exact - bound, rate, hours);
  }

  lemma ZeroRounds()
    ensures Round4(0.0) == 0.0
  {}

  // ----- the two ways a booking gets its rate --------------------------------

  // A rate already in cents, with a surcharge added and rounded, as
  // applyEffectiveFuelAdjustment does it.
  function WithSurcharge(rate: real, amount: real): real {
    if amount > 0.0 then Round2(rate + amount) else rate
  }

  // Adding the surcharge to the rig's snapshot gives the price computed in one go,
  // for every surcharge with at most four decimals.
  lemma SnapshotMatchesBreakdown(tractor: Option<Part>, machines: seq<Part>, amount: real)
    requires amount >= 0.0 && FourPlaces(amount)
    ensures WithSurcharge(HourlyRate(tractor, machines, 0.0), amount) == HourlyRate(tractor, machines, amount)
  {
    hide Round2, Round4, Cents, Catalog, FourPlaces;
    CatalogIsCents(tractor, machines);
    RoundsCents(Catalog(tractor, machines));
    RoundsFourPlaces(amount);
    ZeroRounds();
  }

  // With more decimals the two agree, for a rate that is not negative, exactly when
  // rounding the surcharge first to four places does not change its cents.
  lemma SnapshotMatchesExactly(tractor: Option<Part>, machines: seq<Part>, amount: real)
    requires amount > 0.0 && Catalog(tractor, machines) >= 0.0
    ensures WithSurcharge(HourlyRate(tractor, machines, 0.0), amount) == HourlyRate(tractor, machines, amount)
      <==> Round2(amount) == Round2(Round4(amount))
  {
    hide Round2, Round4, Cents, Catalog;
    var rate := Catalog(tractor, machines);
    CatalogIsCents(tractor, machines);
    RoundsCents(rate);
    ZeroRounds();
    PositiveRounds(amount);
    CentsShift(rate, amount);
    CentsShift(rate, Round4(amount));
  }

  lemma PositiveRounds(x: real)
    requires x > 0.0
    ensures Round4(x) >= 0.0
  {}

  lemma CentsShift(rate: real, x: real)
    requires Cents(rate) && rate >= 0.0 && x >= 0.0
    ensures Round2(rate + x) == rate + Round2(x)
  {
    RoundShifts(x * 100.0, (rate * 100.0).Floor);
    assert (rate + x) * 100.0 == x * 100.0 + (rate * 100.0).Floor as real;
  }

  // The two rates for one with seven decimals. The column amount_per_h, NUMERIC(12,4),
  // holds none, so no stored surcharge makes them differ.
  lemma SurchargePathsDiffer()
    ensures WithSurcharge(HourlyRate(None, [], 0.0), 0.004_999_6) == 0.0 && HourlyRate(None, [], 0.004_999_6) == 0.01
  {
    assert Catalog(None, []) == 0.0;
    assert Round4(0.004_999_6) == 0.005;
    assert Round2(0.005) == 0.01 && Round2(0.004_999_6) == 0.0 && Round2(0.0) == 0.0;
  }
}
