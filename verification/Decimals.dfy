// Rounding of exact decimals: Round is half away from zero, and Div rounds the
// quotient to sixteen places in the same way. A decimal is the real number it states.
module Decimals {
  function RoundAway(x: real): int {
    if x >= 0.0 then (x + 0.5).Floor else -((0.5 - x).Floor)
  }

  function Ceil(x: real): int { -((-x).Floor) }

  const SIXTEEN := 10_000_000_000_000_000.0

  function Round2(x: real): real { RoundAway(x * 100.0) as real / 100.0 }
  function Round4(x: real): real { RoundAway(x * 10_000.0) as real / 10_000.0 }
  function Round16(x: real): real { RoundAway(x * SIXTEEN) as real / SIXTEEN }

  function Div(x: real, y: real): real
    requires y != 0.0
  {
    Round16(x / y)
  }

  predicate Whole(x: real) { x == x.Floor as real }

  // At most two and at most four decimals.
  predicate Cents(x: real) { Whole(x * 100.0) }
  predicate FourPlaces(x: real) { Whole(x * 10_000.0) }

  lemma RoundsNear(x: real)
    ensures -0.5 <= RoundAway(x) as real - x <= 0.5
  {}

  lemma RoundsMonotone(x: real, y: real)
    requires x <= y
    ensures RoundAway(x) <= RoundAway(y)
  {}

  lemma RoundsInteger(k: int)
    ensures RoundAway(k as real) == k
  {}

  lemma RoundShifts(x: real, k: nat)
    requires x >= 0.0
    ensures RoundAway(x + k as real) == RoundAway(x) + k
  {}

  lemma RoundsCents(x: real)
    requires Cents(x)
    ensures Round2(x) == x
  {
    RoundsInteger((x * 100.0).Floor);
  }

  lemma RoundsFourPlaces(x: real)
    requires FourPlaces(x)
    ensures Round4(x) == x
  {
    RoundsInteger((x * 10_000.0).Floor);
  }

  lemma Round2Near(x: real)
    ensures Cents(Round2(x)) && -0.005 <= Round2(x) - x <= 0.005
  {
    hide RoundAway;
    RoundsNear(x * 100.0);
    assert Round2(x) * 100.0 == RoundAway(x * 100.0) as real;
  }

  lemma CentsAdd(x: real, y: real)
    requires Cents(x) && Cents(y)
    ensures Cents(x + y)
  {
    assert (x + y) * 100.0 == ((x * 100.0).Floor + (y * 100.0).Floor) as real;
  }

  // Proofs that match products by their factors name them and hide this.
  function Product(x: real, y: real): real { x * y }

  lemma TimesMonotone(x: real, y: real, z: real)
    requires x <= y && z >= 0.0
    ensures x * z <= y * z
  {
    assert (y - x) * z >= 0.0;
  }
}
