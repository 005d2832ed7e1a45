// Euro amounts as text: the German printer of the invoices (internal/pdf/invoice.go,
// money) and the parser of the bank import (internal/bankimport/bankimport.go,
// parseAmount). An amount in cents stands for the decimal.
module Amounts {
  import opened Wrappers
  import opened Text
  import opened Numerals

  // ----- printing ------------------------------------------------------------

  function Abs(n: int): nat { if n < 0 then -n else n }

  function Sign(cents: int): string { if cents < 0 then "-" else "" }

  function Cents2(cents: int): string { [Digit(Abs(cents) % 100 / 10), Digit(Abs(cents) % 100 % 10)] }

  // StringFixed(2)
  function Fixed2(cents: int): string { Sign(cents) + Itoa(Abs(cents) / 100) + "." + Cents2(cents) }

  // Digits in groups of three from the right.
  function Grouped(digits: string, separator: char): string {
    if |digits| <= 3 then digits
    else Grouped(digits[..|digits| - 3], separator) + [separator] + digits[|digits| - 3..]
  }

  // An amount with the given separators; "1.234,56" and "1,234.56".
  function Written(cents: int, group: char, point: char): string {
    Sign(cents) + Grouped(Itoa(Abs(cents) / 100), group) + [point] + Cents2(cents)
  }

  // The first i of n digits as the printer's loop writes them.
  function Spread(digits: string, i: nat, n: nat): string
    requires i <= |digits|
  {
    if i == 0 then ""
    else Spread(digits, i - 1, n) + (if i > 1 && (n - (i - 1)) % 3 == 0 then "." else "") + [digits[i - 1]]
  }

  lemma {:induction false} SpreadPrefix(digits: string, k: nat, i: nat, n: nat, m: nat)
    requires i <= k <= |digits| && (n - m) % 3 == 0
    ensures Spread(digits[..k], i, m) == Spread(digits, i, n)
  {
    hide Spread;
    SpreadStart(digits, n);
    SpreadStart(digits[..k], m);
    if i > 0 {
      SpreadPrefix(digits, k, i - 1, n, m);
      SpreadNext(digits, i - 1, n);
      SpreadNext(digits[..k], i - 1, m);
      SameThird(n, m, i - 1);
    }
  }

  lemma SameThird(n: nat, m: nat, i: nat)
    requires (n - m) % 3 == 0
    ensures (n - i) % 3 == (m - i) % 3
  {
    assert (n - i) - (m - i) == n - m;
  }

  lemma {:induction false} SpreadIsGrouped(digits: string)
    ensures Spread(digits, |digits|, |digits|) == Grouped(digits, '.')
  {
    hide Spread, Grouped;
    var n := |digits|;
    GroupedUnfolds(digits);
    if n <= 3 {
      SpreadShort(digits, n, n);
    } else {
      var init := digits[..n - 3];
      SpreadIsGrouped(init);
      SpreadPrefix(digits, n - 3, n - 3, n, n - 3);
      LastGroup(digits, n);
    }
  }

  lemma GroupedUnfolds(digits: string)
    ensures |digits| <= 3 ==> Grouped(digits, '.') == digits
    ensures |digits| > 3 ==> Grouped(digits, '.') == Grouped(digits[..|digits| - 3], '.') + "." + digits[|digits| - 3..]
  {}

  lemma LastGroup(digits: string, n: nat)
    requires |digits| == n > 3
    ensures Spread(digits, n, n) == Spread(digits, n - 3, n) + "." + digits[n - 3..]
  {
    hide Spread;
    SpreadNext(digits, n - 3, n);
    SpreadNext(digits, n - 2, n);
    SpreadNext(digits, n - 1, n);
    LastThree(Spread(digits, n - 3, n) + ".", digits);
  }

  lemma LastThree(s: string, t: string)
    requires |t| >= 3
    ensures s + [t[|t| - 3]] + [t[|t| - 2]] + [t[|t| - 1]] == s + t[|t| - 3..]
  {}

  lemma {:induction false} SpreadShort(digits: string, i: nat, n: nat)
    requires i <= |digits| == n <= 3
    ensures Spread(digits, i, n) == digits[..i]
  {
    if i > 0 {
      SpreadShort(digits, i - 1, n);
      assert digits[..i] == digits[..i - 1] + [digits[i - 1]];
    }
  }

  lemma FixedParts(cents: int)
    ensures var s := Fixed2(cents)[|Sign(cents)|..];
      && Cut(s, '.') == (Itoa(Abs(cents) / 100), Cents2(cents), true)
      && (Fixed2(cents)[0] == '-' <==> cents < 0)
  {
    hide Cut, First;
    var digits := Itoa(Abs(cents) / 100);
    CutIs(digits + "." + Cents2(cents), '.', digits, Cents2(cents));
    assert Fixed2(cents)[|Sign(cents)|..] == digits + "." + Cents2(cents);
    assert cents >= 0 ==> Fixed2(cents)[0] == digits[0];
  }

  method Money(cents: int) returns (out: string)
    ensures out == Written(cents, '.', ',') + " \U{20AC}"
  {
    hide Itoa, Cut, First, Cents2, Spread, Grouped, Abs;
    var s := Fixed2(cents);
    FixedParts(cents);
    var neg := s[0] == '-';
    if neg {
      s := s[1..];
    }
    var (digits, frac, _) := Cut(s, '.');
    var n, b := |digits|, "";
    SpreadIsGrouped(digits);
    SpreadStart(digits, |digits|);
    for i := 0 to n
      invariant b == Spread(digits, i, n)
    {
      SpreadNext(digits, i, n);
      if i > 0 && (n - i) % 3 == 0 {
        b := b + ".";
      }
      b := b + [digits[i]];
    }
    out := b + "," + frac + " \U{20AC}";
    if neg {
      out := "-" + out;
    }
  }

  lemma SpreadStart(digits: string, n: nat)
    ensures Spread(digits, 0, n) == ""
  {}

  lemma SpreadNext(digits: string, i: nat, n: nat)
    requires i < |digits|
    ensures i > 0 && (n - i) % 3 == 0 ==> Spread(digits, i + 1, n) == Spread(digits, i, n) + "." + [digits[i]]
    ensures !(i > 0 && (n - i) % 3 == 0) ==> Spread(digits, i + 1, n) == Spread(digits, i, n) + [digits[i]]
  {}

  // ----- parsing -------------------------------------------------------------

  // coef / 10^places
  datatype Decimal = Decimal(coef: int, places: nat)

  // What strconv.ParseInt and big.Int accept in base ten.
  function ReadInt(s: string): Option<int> {
    if s != "" && s[0] == '-' then
      if s != "-" && IsDigits(s[1..]) then Some(0 - Value(s[1..])) else None
    else
      var digits := if s != "" && s[0] == '+' then s[1..] else s;
      if digits != "" && IsDigits(digits) then Some(Value(digits)) else None
  }

  // decimal.NewFromString without an exponent: at most one point, and the rest read
  // as an integer.
  function ReadDecimal(s: string): Option<Decimal> {
    var (whole, fraction, pointed) := Cut(s, '.');
    if '.' in fraction then None
    else match ReadInt(whole + fraction)
         case Some(coef) => Some(Decimal(coef, |fraction|))
         case None => None
  }

  const MAX_LENGTH := 32
  const MAX_AMOUNT := 1_000_000_000

  // The last of the two separators is the decimal one.
  function Normalized(s: string): string {
    var di, ci := LastIndex(s, '.'), LastIndex(s, ',');
    if ci >= 0 && di >= 0 && ci > di then Replace(Without(s, '.'), ',', '.')
    else if ci >= 0 && di >= 0 then Without(s, ',')
    else if ci >= 0 then Replace(s, ',', '.')
    else s
  }

  predicate IsEuroAmount(d: Decimal) {
    Abs(d.coef) < MAX_AMOUNT * Pow10(d.places) && (100 * d.coef) % Pow10(d.places) == 0
  }

  function ParseAmount(raw: string): (r: Option<Decimal>)
    ensures r.Some? ==> IsEuroAmount(r.value)
  {
    var s := Without(TrimSpace(raw), ' ');
    if s == "" || |s| > MAX_LENGTH || 'e' in s || 'E' in s then None
    else match ReadDecimal(Normalized(s))
         case Some(d) => if IsEuroAmount(d) then Some(d) else None
         case None => None
  }

  // The accepted amount in cents, exactly.
  function InCents(d: Decimal): (cents: int)
    requires IsEuroAmount(d)
    ensures cents * Pow10(d.places) == 100 * d.coef
    ensures Abs(cents) < 100 * MAX_AMOUNT
  {
    assert 100 * d.coef / Pow10(d.places) * Pow10(d.places) == 100 * d.coef;
    BoundedQuotient(100 * d.coef / Pow10(d.places), Pow10(d.places), d.coef);
    100 * d.coef / Pow10(d.places)
  }

  lemma BoundedQuotient(cents: int, unit: nat, coef: int)
    requires unit > 0 && cents * unit == 100 * coef && Abs(coef) < MAX_AMOUNT * unit
    ensures Abs(cents) < 100 * MAX_AMOUNT
  {
    if cents >= 100 * MAX_AMOUNT {
      Scaled(cents, 100 * MAX_AMOUNT, unit);
    } else if -cents >= 100 * MAX_AMOUNT {
      Scaled(-cents, 100 * MAX_AMOUNT, unit);
      assert -cents * unit == -100 * coef;
    }
  }

  lemma Scaled(a: int, b: int, unit: nat)
    requires a >= b
    ensures a * unit >= b * unit
  {
    assert (a - b) * unit >= 0;
  }

  // ----- what is printed is read back ----------------------------------------

  lemma FixedReads(cents: int)
    ensures ReadDecimal(Fixed2(cents)) == Some(Decimal(cents, 2))
  {
    hide Cut, First, Itoa, Value;
    var q, digits, frac := Abs(cents) / 100, Itoa(Abs(cents) / 100), Cents2(cents);
    assert IsDigits(frac) && '.' !in frac;
    CutIs(Fixed2(cents), '.', Sign(cents) + digits, frac);
    ItoaReads(q);
    ValueJoin(digits, frac);
    CentsRead(cents);
    assert Value(digits + frac) == Abs(cents);
    var s := Sign(cents) + digits + frac;
    if cents < 0 {
      assert s == "-" + (digits + frac) && s[1..] == digits + frac;
    } else {
      assert s == digits + frac && s[0] == digits[0];
    }
  }

  lemma Fixed2Injective(cents: int, other: int)
    ensures Fixed2(cents) == Fixed2(other) ==> cents == other
  {
    hide Fixed2, ReadDecimal;
    FixedReads(cents);
    FixedReads(other);
  }

  lemma Fixed2IsPlain(cents: int)
    ensures Fixed2(cents) != "" && forall i :: 0 <= i < |Fixed2(cents)| ==> Fixed2(cents)[i] in "0123456789.-"
  {
    hide Itoa;
    var digits := Itoa(Abs(cents) / 100);
    assert forall i :: 0 <= i < |digits| ==> digits[i] in "0123456789";
    CentsRead(cents);
  }

  lemma CentsRead(cents: int)
    ensures IsDigits(Cents2(cents)) && Value(Cents2(cents)) == Abs(cents) % 100
    ensures Pow10(|Cents2(cents)|) == 100
  {
    var s, n := Cents2(cents), Abs(cents);
    assert s[..1] == [s[0]];
    assert [s[0]][..0] == "" && Value([s[0]]) == n % 100 / 10;
    assert n % 100 == 10 * (n % 100 / 10) + n % 100 % 10;
    assert Pow10(2) == 10 * Pow10(1);
  }

  predicate DigitOr(c: char, other: char) { '0' <= c <= '9' || c == other }

  lemma {:induction false} GroupedShape(digits: string, separator: char)
    requires digits != "" && IsDigits(digits)
    ensures var g := Grouped(digits, separator);
      && 0 < |g| <= 2 * |digits| && g[0] == digits[0]
      && forall i :: 0 <= i < |g| ==> DigitOr(g[i], separator)
  {
    if |digits| > 3 {
      GroupedShape(digits[..|digits| - 3], separator);
    }
  }

  lemma {:induction false} GroupedDigits(digits: string, separator: char)
    requires digits != "" && IsDigits(digits) && !('0' <= separator <= '9')
    ensures Without(Grouped(digits, separator), separator) == digits
  {
    hide Without, Itoa;
    if |digits| <= 3 {
      WithoutNone(digits, separator);
    } else {
      var init, last := digits[..|digits| - 3], digits[|digits| - 3..];
      GroupedDigits(init, separator);
      WithoutNone(last, separator);
      WithoutAround(Grouped(init, separator), last, separator);
    }
  }

  lemma WithoutAround(a: string, b: string, c: char)
    ensures Without(a + [c] + b, c) == Without(a, c) + Without(b, c)
  {
    WithoutJoin(a + [c], b, c);
    WithoutJoin(a, [c], c);
    assert Without(a, c) + [] == Without(a, c);
  }

  // Removing the group separators leaves the plain form, up to the decimal sign.
  lemma WrittenPlain(cents: int, group: char, point: char)
    requires group in ",." && point in ",." && group != point
    ensures var t := Written(cents, group, point);
      && Replace(Without(t, group), point, '.') == Fixed2(cents)
      && |t| > 3 && t[|t| - 3] == point
      && (t[0] == '-' || '0' <= t[0] <= '9') && '0' <= t[|t| - 1] <= '9'
      && (forall i :: 0 <= i < |t| && i != |t| - 3 ==> t[i] == '-' || DigitOr(t[i], group))
      && |t| <= 2 * |Itoa(Abs(cents) / 100)| + 4
  {
    hide Grouped, Itoa, Without, Replace;
    var digits, frac := Itoa(Abs(cents) / 100), Cents2(cents);
    var g := Grouped(digits, group);
    GroupedDigits(digits, group);
    GroupedShape(digits, group);
    CentsRead(cents);
    WithoutNone(Sign(cents), group);
    WithoutNone([point], group);
    WithoutNone(frac, group);
    WithoutJoin(Sign(cents), g, group);
    WithoutJoin(Sign(cents) + g, [point], group);
    WithoutJoin(Sign(cents) + g + [point], frac, group);
    var plain := Sign(cents) + digits + [point] + frac;
    assert Without(Written(cents, group, point), group) == plain;
    assert Replace(plain, point, '.') == Fixed2(cents);
  }

  lemma WrittenNormalizes(cents: int, group: char, point: char)
    requires group in ",." && point in ",." && group != point
    ensures Normalized(Written(cents, group, point)) == Fixed2(cents)
  {
    hide Grouped, Itoa, Without, Replace, LastIndex, Fixed2;
    WrittenPlain(cents, group, point);
    var t := Written(cents, group, point);
    hide Written;
    assert forall i :: |t| - 3 < i < |t| ==> t[i] != point;
    assert LastIndex(t, point) == |t| - 3;
    if group !in t {
      WithoutNone(t, group);
    }
    if point == '.' {
      assert '.' !in Without(t, group) || Replace(Without(t, group), '.', '.') == Without(t, group);
    }
  }

  lemma WrittenIsShort(cents: int)
    requires Abs(cents) < 100 * MAX_AMOUNT
    ensures 2 * |Itoa(Abs(cents) / 100)| + 4 <= MAX_LENGTH
  {
    assert Pow10(3) == 1000 && Pow10(6) == 1000000;
    ItoaLength(Abs(cents) / 100, 9);
  }

  // Every amount below the bound is read back exactly as it was written, in the
  // German form the printer uses, in the en-US form, and plain.
  lemma WrittenParses(cents: int, group: char, point: char)
    requires Abs(cents) < 100 * MAX_AMOUNT
    requires group in ",." && point in ",." && group != point
    ensures ParseAmount(Written(cents, group, point)) == Some(Decimal(cents, 2))
    ensures InCents(Decimal(cents, 2)) == cents
  {
    hide Written, Normalized, ReadDecimal, Itoa, Without, TrimLeft, TrimRight, Fixed2, Replace;
    var t := Written(cents, group, point);
    WrittenPlain(cents, group, point);
    WrittenNormalizes(cents, group, point);
    FixedReads(cents);
    WrittenIsShort(cents);
    TrimNone(t, IsSpace);
    WithoutNone(t, ' ');
    assert Pow10(2) == 100;
  }

  // A comma and two decimals, without groups, as statements write it.
  lemma CommaAmountReads(whole: string, fraction: string)
    requires whole != "" && IsDigits(whole) && |whole| <= 9 && IsDigits(fraction) && |fraction| == 2
    ensures ParseAmount(whole + "," + fraction) == Some(Decimal(100 * Value(whole) + Value(fraction), 2))
  {
    hide Value, IsDigits, Without, LastIndex, Replace, TrimLeft, TrimRight, ReadDecimal, Pow10;
    var s := whole + "," + fraction;
    CommaShape(whole, fraction);
    OnlyComma(s, |whole|);
    TrimNone(s, IsSpace);
    WithoutNone(s, ' ');
    CommaToPoint(whole, fraction);
    PointReads(whole, fraction);
    Hundredfold(whole, fraction);
  }

  lemma CommaShape(whole: string, fraction: string)
    requires whole != "" && IsDigits(whole) && IsDigits(fraction) && |fraction| == 2
    ensures var s := whole + "," + fraction;
      && s != "" && !IsSpace(s[0]) && !IsSpace(s[|s| - 1])
      && (forall i :: 0 <= i < |s| ==> (s[i] == ',' <==> i == |whole|))
      && forall c :: c in " .eE" ==> c !in s
  {
    var s := whole + "," + fraction;
    forall i | 0 <= i < |s| ensures DigitOr(s[i], ',') && (s[i] == ',' <==> i == |whole|) {
      assert s[i] == if i < |whole| then whole[i] else if i == |whole| then ',' else fraction[i - |whole| - 1];
    }
  }

  lemma OnlyComma(s: string, k: nat)
    requires k < |s| && (forall i :: 0 <= i < |s| ==> (s[i] == ',' <==> i == k)) && forall c :: c in " .eE" ==> c !in s
    ensures LastIndex(s, '.') == -1 && LastIndex(s, ',') == k
    ensures ' ' !in s && 'e' !in s && 'E' !in s
  {
    hide LastIndex;
    var none := " .eE";
    assert none[0] in none && none[1] in none && none[2] in none && none[3] in none;
    assert s[k] == ',';
  }

  lemma CommaToPoint(whole: string, fraction: string)
    requires IsDigits(whole) && IsDigits(fraction)
    ensures Replace(whole + "," + fraction, ',', '.') == whole + "." + fraction
  {
    hide Replace;
    var s := whole + "," + fraction;
    forall i | 0 <= i < |s| ensures Replace(s, ',', '.')[i] == (whole + "." + fraction)[i] {
      assert s[i] == if i < |whole| then whole[i] else if i == |whole| then ',' else fraction[i - |whole| - 1];
    }
  }

  lemma PointReads(whole: string, fraction: string)
    requires whole != "" && IsDigits(whole) && IsDigits(fraction)
    ensures ReadDecimal(whole + "." + fraction) == Some(Decimal(Value(whole + fraction), |fraction|))
  {
    hide Cut, Value;
    CutIs(whole + "." + fraction, '.', whole, fraction);
    assert (whole + fraction)[0] == whole[0];
  }

  lemma Hundredfold(whole: string, fraction: string)
    requires IsDigits(whole) && |whole| <= 9 && IsDigits(fraction) && |fraction| == 2
    ensures Value(whole + fraction) == 100 * Value(whole) + Value(fraction)
    ensures IsEuroAmount(Decimal(100 * Value(whole) + Value(fraction), 2))
  {
    hide Value, Pow10, IsEuroAmount;
    ValueJoin(whole, fraction);
    ValueBound(whole);
    ValueBound(fraction);
    PowersUpTo9(|whole|);
    WholeCents(100 * Value(whole) + Value(fraction));
  }

  lemma WholeCents(cents: nat)
    requires cents < 100 * MAX_AMOUNT
    ensures IsEuroAmount(Decimal(cents, 2))
  {
    PowersUpTo9(2);
  }

  lemma PowersUpTo9(n: nat)
    requires n <= 9
    ensures Pow10(n) <= MAX_AMOUNT && Pow10(2) == 100
  {
    assert Pow10(2) == 10 * Pow10(1) == 100;
    assert Pow10(4) == 10 * Pow10(3) == 100 * Pow10(2);
    assert Pow10(6) == 10 * Pow10(5) == 100 * Pow10(4);
    assert Pow10(8) == 10 * Pow10(7) == 100 * Pow10(6);
    assert Pow10(9) == 10 * Pow10(8);
  }
}
