// Decimal digits: strconv.Itoa for natural numbers, and reading them back.
module Numerals {
  function Pow10(n: nat): (r: nat)
    ensures r > 0
  {
    if n == 0 then 1 else 10 * Pow10(n - 1)
  }

  predicate IsDigits(s: string) { forall i :: 0 <= i < |s| ==> '0' <= s[i] <= '9' }

  function Digit(n: nat): char
    requires n < 10
  {
    '0' + n as char
  }

  function Itoa(n: nat): (s: string)
    ensures s != [] && IsDigits(s)
  {
    if n < 10 then [Digit(n)] else Itoa(n / 10) + [Digit(n % 10)]
  }

  function Value(s: string): nat
    requires IsDigits(s)
  {
    if s == [] then 0 else 10 * Value(s[..|s| - 1]) + (s[|s| - 1] - '0') as nat
  }

  lemma {:induction false} ItoaReads(n: nat)
    ensures Value(Itoa(n)) == n
  {
    if n < 10 {
      assert Itoa(n)[..0] == "";
    } else {
      ItoaReads(n / 10);
      assert Itoa(n)[..|Itoa(n)| - 1] == Itoa(n / 10);
    }
  }

  lemma ItoaInjective(m: nat, n: nat)
    ensures Itoa(m) == Itoa(n) ==> m == n
  {
    ItoaReads(m);
    ItoaReads(n);
  }

  lemma {:induction false} ItoaLength(n: nat, k: nat)
    requires n < Pow10(k) && k > 0
    ensures |Itoa(n)| <= k
  {
    if n >= 10 {
      assert k > 1;
      ItoaLength(n / 10, k - 1);
    }
  }

  lemma {:induction false} ValueBound(s: string)
    requires IsDigits(s)
    ensures Value(s) < Pow10(|s|)
  {
    if s != "" {
      ValueBound(s[..|s| - 1]);
    }
  }

  function Scaled(v: nat, n: nat): nat { v * Pow10(n) }

  lemma ValueJoin(a: string, b: string)
    requires IsDigits(a) && IsDigits(b)
    ensures IsDigits(a + b) && Value(a + b) == Value(a) * Pow10(|b|) + Value(b)
  {
    hide IsDigits, Value, Pow10;
    ScaledJoin(a, b);
  }

  lemma {:induction false} ScaledJoin(a: string, b: string)
    requires IsDigits(a) && IsDigits(b)
    ensures IsDigits(a + b) && Value(a + b) == Scaled(Value(a), |b|) + Value(b)
  {
    if b == [] {
      assert a + b == a;
    } else {
      hide IsDigits, Value, Scaled;
      var init, last := b[..|b| - 1], b[|b| - 1];
      ShorterDigits(b);
      ScaledJoin(a, init);
      assert a + b == (a + init) + [last] && b == init + [last];
      ValueSnoc(a + init, last);
      ValueSnoc(init, last);
      ScaledNext(Value(a), |init|);
    }
  }

  lemma ShorterDigits(s: string)
    requires IsDigits(s) && s != []
    ensures IsDigits(s[..|s| - 1]) && '0' <= s[|s| - 1] <= '9'
  {}

  lemma ValueSnoc(s: string, c: char)
    requires IsDigits(s) && '0' <= c <= '9'
    ensures IsDigits(s + [c]) && Value(s + [c]) == 10 * Value(s) + (c - '0') as nat
  {
    assert (s + [c])[..|s|] == s;
  }

  lemma ScaledNext(v: nat, n: nat)
    ensures Scaled(v, n + 1) == 10 * Scaled(v, n)
  {
    TimesTen(v, Pow10(n));
  }

  lemma TimesTen(x: int, y: int)
    ensures x * (10 * y) == 10 * (x * y)
  {}
}
