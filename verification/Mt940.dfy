// MT940 statements as a state machine over lines, against a grammar of blocks
// (internal/bankimport/bankimport.go, ParseMT940 and parse86).
module Mt940 {
  import opened Wrappers
  import opened Text
  import opened Numerals
  import opened Amounts
  import opened BankHashes
  import Camt

  type DateOf = string -> string

  // ----- lines ---------------------------------------------------------------

  predicate Tag61(line: string) { ":61:" <= line }
  predicate Tag86(line: string) { ":86:" <= line }

  // Any other tag ends the block of a statement line, and so does the next one.
  predicate Closes(line: string) { ":" <= line && !Tag86(line) }

  predicate Continues(line: string) {
    !(":" <= line) && !("-" <= line) && TrimSpace(line) != ""
  }

  function DigitsFrom(s: string, i: nat): (r: nat)
    requires i <= |s|
    ensures i <= r <= |s| && IsDigits(s[i..r])
    ensures r < |s| ==> !('0' <= s[r] <= '9')
    decreases |s| - i
  {
    if i < |s| && '0' <= s[i] <= '9' then
      var r := DigitsFrom(s, i + 1);
      assert s[i..r] == [s[i]] + s[i + 1..r];
      r
    else i
  }

  datatype Statement = Statement(date: string, mark: string, amount: string)

  // The pattern of a :61: line: six or ten digits of dates, R?[CD], [A-Z]?, and an
  // amount with a comma.
  function Match61(s: string): Option<Statement> {
    var d := DigitsFrom(s, 0);
    var r := if d < |s| && s[d] == 'R' then d + 1 else d;
    if (d != 6 && d != 10) || r >= |s| || (s[r] != 'C' && s[r] != 'D') then None
    else
      var a := if r + 1 < |s| && 'A' <= s[r + 1] <= 'Z' then r + 2 else r + 1;
      var comma := DigitsFrom(s, a);
      if comma == a || comma >= |s| || s[comma] != ',' then None
      else Some(Statement(s[..6], s[d..r + 1], s[a..DigitsFrom(s, comma + 1)]))
  }

  // An accepted statement line: a credit with a positive amount.
  function Credit(line: string): Option<(string, int)> {
    if !Tag61(line) then None
    else match Match61(line[4..])
         case None => None
         case Some(m) =>
           if m.mark != "C" then None
           else match ParseAmount(m.amount)
                case Some(d) => if InCents(d) > 0 then Some((m.date, InCents(d))) else None
                case None => None
  }

  lemma {:induction false} DigitsEnd(s: string, i: nat, k: nat)
    requires i <= k <= |s| && (forall j :: i <= j < k ==> '0' <= s[j] <= '9') && (k < |s| ==> !('0' <= s[k] <= '9'))
    ensures DigitsFrom(s, i) == k
    decreases k - i
  {
    if i < k {
      DigitsEnd(s, i + 1, k);
    }
  }

  // A statement line as it is written: the value date, perhaps an entry date, the mark,
  // perhaps a funds code, and the amount; rest does not go on with it.
  lemma WrittenStatementMatches(date: string, entry: string, mark: string, funds: string, whole: string, fraction: string,
                                rest: string)
    requires |date| == 6 && IsDigits(date) && (|entry| == 0 || |entry| == 4) && IsDigits(entry)
    requires mark in {"C", "D", "RC", "RD"} && (funds == "" || (|funds| == 1 && 'A' <= funds[0] <= 'Z'))
    requires whole != "" && IsDigits(whole) && IsDigits(fraction) && (rest != "" ==> !('0' <= rest[0] <= '9'))
    ensures Match61(date + entry + mark + funds + whole + "," + fraction + rest)
         == Some(Statement(date, mark, whole + "," + fraction))
  {
    hide Match61, IsDigits;
    var prefix, number := date + entry, whole + "," + fraction;
    var s := prefix + mark + funds + number + rest;
    assert date + entry + mark + funds + whole + "," + fraction + rest == s;
    Sections(prefix, mark, funds, number, rest);
    AllDigits(date, entry);
    assert rest != "" ==> s[|prefix + mark + funds + number|..][0] == rest[0];
    MatchSections(s, prefix, mark, funds, whole, fraction);
    assert prefix[..6] == date;
  }

  // The sections of a line, each in its place.
  ghost predicate Consists(s: string, prefix: string, mark: string, funds: string, number: string) {
    var d := |prefix|;
    var m := d + |mark|;
    var a := m + |funds|;
    var e := a + |number|;
    && e <= |s| && s[..d] == prefix && s[d..m] == mark && s[m..a] == funds && s[a..e] == number
    && (e < |s| ==> !('0' <= s[e] <= '9'))
  }

  lemma MatchSections(s: string, prefix: string, mark: string, funds: string, whole: string, fraction: string)
    requires (|prefix| == 6 || |prefix| == 10) && IsDigits(prefix)
    requires mark in {"C", "D", "RC", "RD"} && (funds == "" || (|funds| == 1 && 'A' <= funds[0] <= 'Z'))
    requires whole != "" && IsDigits(whole) && IsDigits(fraction)
    requires Consists(s, prefix, mark, funds, whole + "," + fraction)
    ensures Match61(s) == Some(Statement(prefix[..6], mark, whole + "," + fraction))
  {
    hide Match61, IsDigits, DigitsFrom;
    var number := whole + "," + fraction;
    var d, m, a := |prefix|, |prefix| + |mark|, |prefix| + |mark| + |funds|;
    FirstDigit(whole, fraction);
    MarkIsLetter(mark);
    MarkAt(s, d, mark, funds, number);
    assert s[d] == s[d..m][0];
    DigitsOf(s, 0, prefix);
    AmountEnds(s, a, whole, fraction);
    MatchesAt(s, d, m - 1, a, a + |number|);
    assert s[..6] == s[..d][..6];
  }

  lemma MarkIsLetter(mark: string)
    requires mark in {"C", "D", "RC", "RD"}
    ensures mark != "" && !('0' <= mark[0] <= '9')
  {}

  lemma FirstDigit(whole: string, fraction: string)
    requires whole != "" && IsDigits(whole)
    ensures '0' <= (whole + "," + fraction)[0] <= '9'
  {}

  lemma AllDigits(a: string, b: string)
    requires IsDigits(a) && IsDigits(b)
    ensures IsDigits(a + b)
  {}

  lemma Sections(a: string, b: string, c: string, d: string, e: string)
    ensures var s, i := a + b + c + d + e, |a + b + c|;
      && s[..|a|] == a && s[|a|..|a + b|] == b && s[|a + b|..i] == c && s[i..i + |d|] == d && s[i + |d|..] == e
  {}

  lemma DigitsOf(s: string, i: nat, digits: string)
    requires i + |digits| <= |s| && s[i..i + |digits|] == digits && IsDigits(digits)
    requires i + |digits| < |s| ==> !('0' <= s[i + |digits|] <= '9')
    ensures DigitsFrom(s, i) == i + |digits|
  {
    hide DigitsFrom;
    forall j | i <= j < i + |digits| ensures '0' <= s[j] <= '9' {
      assert s[j] == digits[j - i];
    }
    DigitsEnd(s, i, i + |digits|);
  }

  // Where the amount that begins at a has its comma and its end.
  lemma AmountEnds(s: string, a: nat, whole: string, fraction: string)
    requires IsDigits(whole) && IsDigits(fraction)
    requires var number := whole + "," + fraction;
      && a + |number| <= |s| && s[a..a + |number|] == number
      && (a + |number| < |s| ==> !('0' <= s[a + |number|] <= '9'))
    ensures DigitsFrom(s, a) == a + |whole| < |s| && s[a + |whole|] == ','
    ensures DigitsFrom(s, a + |whole| + 1) == a + |whole| + 1 + |fraction|
  {
    hide DigitsFrom, IsDigits;
    var number, comma := whole + "," + fraction, a + |whole|;
    assert s[comma] == number[|whole|] == ',';
    assert s[a..comma] == number[..|whole|] == whole;
    assert s[comma + 1..a + |number|] == number[|whole| + 1..] == fraction;
    DigitsOf(s, a, whole);
    DigitsOf(s, comma + 1, fraction);
  }

  lemma MatchesAt(s: string, d: nat, r: nat, a: nat, e: nat)
    requires (d == 6 || d == 10) && DigitsFrom(s, 0) == d && d <= r < a < |s|
    requires r == (if s[d] == 'R' then d + 1 else d) && (s[r] == 'C' || s[r] == 'D')
    requires a == if 'A' <= s[r + 1] <= 'Z' then r + 2 else r + 1
    requires var comma := DigitsFrom(s, a); a < comma < |s| && s[comma] == ',' && DigitsFrom(s, comma + 1) == e
    ensures Match61(s) == Some(Statement(s[..6], s[d..r + 1], s[a..e]))
  {
    hide DigitsFrom;
  }

  // The mark and the funds code, character by character.
  lemma MarkAt(s: string, d: nat, mark: string, funds: string, number: string)
    requires mark in {"C", "D", "RC", "RD"} && (funds == "" || (|funds| == 1 && 'A' <= funds[0] <= 'Z'))
    requires var m, a := d + |mark|, d + |mark| + |funds|;
      && a + |number| <= |s| && s[d..m] == mark && s[m..a] == funds && s[a..a + |number|] == number
    requires number != "" && '0' <= number[0] <= '9'
    ensures var r := d + |mark| - 1;
      && r == (if s[d] == 'R' then d + 1 else d) && (s[r] == 'C' || s[r] == 'D')
      && d + |mark| + |funds| == if 'A' <= s[r + 1] <= 'Z' then r + 2 else r + 1
  {
    var m, a := d + |mark|, d + |mark| + |funds|;
    assert s[d] == s[d..m][0] && s[m - 1] == s[d..m][|mark| - 1];
    assert s[a] == s[a..a + |number|][0];
    assert funds != "" ==> s[m] == s[m..a][0];
  }

  // With two decimals it is a credit of exactly this amount if and only if its mark is C
  // and the amount is not nothing: reversals and debits are left out.
  lemma WrittenStatementIsRead(date: string, entry: string, mark: string, funds: string, whole: string, fraction: string,
                               rest: string)
    requires |date| == 6 && IsDigits(date) && (|entry| == 0 || |entry| == 4) && IsDigits(entry)
    requires mark in {"C", "D", "RC", "RD"} && (funds == "" || (|funds| == 1 && 'A' <= funds[0] <= 'Z'))
    requires 0 < |whole| <= 9 && IsDigits(whole) && |fraction| == 2 && IsDigits(fraction)
    requires rest != "" ==> !('0' <= rest[0] <= '9')
    ensures var cents := 100 * Value(whole) + Value(fraction);
      Credit(":61:" + (date + entry + mark + funds + whole + "," + fraction + rest))
      == if mark == "C" && cents > 0 then Some((date, cents)) else None
  {
    hide Match61, ParseAmount, Value, Pow10, InCents;
    var text := date + entry + mark + funds + whole + "," + fraction + rest;
    assert (":61:" + text)[4..] == text;
    WrittenStatementMatches(date, entry, mark, funds, whole, fraction, rest);
    CommaAmountReads(whole, fraction);
    InCentsOfTwo(Decimal(100 * Value(whole) + Value(fraction), 2));
  }

  lemma InCentsOfTwo(d: Decimal)
    requires IsEuroAmount(d) && d.places == 2
    ensures InCents(d) == d.coef
  {
    assert Pow10(2) == 100;
  }

  // ----- the grammar ---------------------------------------------------------

  // The first line from j on that closes a block, or the end.
  function BlockEnd(lines: seq<string>, j: nat): (r: nat)
    requires j <= |lines|
    ensures j <= r <= |lines|
    ensures forall k :: j <= k < r ==> !Closes(lines[k])
    ensures r < |lines| ==> Closes(lines[r])
    decreases |lines| - j
  {
    if j == |lines| || Closes(lines[j]) then j else BlockEnd(lines, j + 1)
  }

  // The last :86: line of lines[j..i], or -1.
  function Last86(lines: seq<string>, j: nat, i: nat): (r: int)
    requires j <= i <= |lines|
    ensures r == -1 || (j <= r < i && Tag86(lines[r]))
    ensures forall k :: j <= k < i && k > r ==> !Tag86(lines[k])
  {
    if i == j then -1 else if Tag86(lines[i - 1]) then i - 1 else Last86(lines, j, i - 1)
  }

  // The end of the continuation lines that start at j, within lines[..i].
  function RunEnd(lines: seq<string>, j: nat, i: nat): (r: nat)
    requires j <= i <= |lines|
    ensures j <= r <= i
    ensures forall k :: j <= k < r ==> Continues(lines[k])
    ensures r < i ==> !Continues(lines[r])
    decreases i - j
  {
    if j == i || !Continues(lines[j]) then j else RunEnd(lines, j + 1, i)
  }

  // An :86: line and the continuation lines up to c.
  function Raw(lines: seq<string>, m: nat, c: nat): string
    requires m < c <= |lines| && Tag86(lines[m])
  {
    if c == m + 1 then TrimSpace(lines[m][4..]) else Raw(lines, m, c - 1) + "\n" + TrimSpace(lines[c - 1])
  }

  // The narrative of the statement at o as far as line i: its last :86: line with
  // the continuation lines behind it.
  function Narrative(lines: seq<string>, o: nat, i: nat): string
    requires o < i <= |lines|
  {
    var m := Last86(lines, o + 1, i);
    if m < 0 then "" else Raw(lines, m, RunEnd(lines, m + 1, i))
  }

  function TxnOf(date: string, cents: int, raw: string, dateOf: DateOf, hash: Hash): Txn {
    var (reference, name, iban) := Parse86(raw);
    var t := Txn(dateOf(date), cents, reference, name, iban, "");
    t.(hash := hash(Tuple(t)))
  }

  function TxnAt(lines: seq<string>, o: nat, dateOf: DateOf, hash: Hash): Txn
    requires o < |lines| && Credit(lines[o]).Some?
  {
    var (date, cents) := Credit(lines[o]).value;
    TxnOf(date, cents, Narrative(lines, o, BlockEnd(lines, o + 1)), dateOf, hash)
  }

  // One transaction for each accepted statement line among the first n, in order.
  function Parsed(lines: seq<string>, n: nat, dateOf: DateOf, hash: Hash): seq<Txn>
    requires n <= |lines|
  {
    if n == 0 then []
    else if Credit(lines[n - 1]).Some? then Parsed(lines, n - 1, dateOf, hash) + [TxnAt(lines, n - 1, dateOf, hash)]
    else Parsed(lines, n - 1, dateOf, hash)
  }

  // ----- parse86 -------------------------------------------------------------

  predicate Remittance(part: string) {
    |part| >= 2 && ((part[0] == '2' && '0' <= part[1] <= '9') || (part[0] == '6' && '0' <= part[1] <= '3'))
  }

  predicate Coded(part: string, code: string) { |code| == 2 && code <= part }

  function WithoutPrefix(s: string, prefix: string): string { if prefix <= s then s[|prefix|..] else s }

  // The texts of the remittance fields that have one.
  function Remittances(parts: seq<string>): seq<string> {
    if parts == [] then []
    else
      var last := parts[|parts| - 1];
      var text := if Remittance(last) then WithoutPrefix(TrimSpace(last[2..]), "SVWZ+") else "";
      Remittances(parts[..|parts| - 1]) + if text != "" then [text] else []
  }

  function PayerIban(parts: seq<string>): string {
    if parts == [] then ""
    else if Coded(parts[|parts| - 1], "31") then Camt.NormIban(TrimSpace(parts[|parts| - 1][2..]))
    else PayerIban(parts[..|parts| - 1])
  }

  function PayerName(parts: seq<string>): string {
    if parts == [] then ""
    else
      var last, before := parts[|parts| - 1], PayerName(parts[..|parts| - 1]);
      if !Coded(last, "32") && !Coded(last, "33") then before
      else if before == "" then TrimSpace(last[2..])
      else before + " " + TrimSpace(last[2..])
  }

  function Parse86(s: string): (string, string, string) {
    if '?' !in s then (TrimSpace(s), "", "")
    else
      var parts := Split(s, '?');
      (Camt.Join(Remittances(parts), " "), PayerName(parts), PayerIban(parts))
  }

  lemma NextField(parts: seq<string>, i: nat)
    requires i < |parts|
    ensures var part, before, after := parts[i], parts[..i], parts[..i + 1];
      && Remittances(after) ==
           (if Remittance(part) && WithoutPrefix(TrimSpace(part[2..]), "SVWZ+") != ""
            then Remittances(before) + [WithoutPrefix(TrimSpace(part[2..]), "SVWZ+")] else Remittances(before))
      && PayerIban(after) == (if Coded(part, "31") then Camt.NormIban(TrimSpace(part[2..])) else PayerIban(before))
      && PayerName(after) ==
           (if !Coded(part, "32") && !Coded(part, "33") then PayerName(before)
            else if PayerName(before) == "" then TrimSpace(part[2..])
            else PayerName(before) + " " + TrimSpace(part[2..]))
  {
    hide Remittance, TrimSpace, Camt.NormIban, WithoutPrefix;
    assert parts[..i + 1][..i] == parts[..i] && parts[..i + 1][i] == parts[i];
  }

  method Parse86Fields(s: string) returns (reference: string, name: string, iban: string)
    ensures (reference, name, iban) == Parse86(s)
  {
    hide TrimSpace, Camt.NormIban, Camt.Join, Split, WithoutPrefix, Remittances, PayerName, PayerIban;
    if '?' !in s {
      return TrimSpace(s), "", "";
    }
    var parts := Split(s, '?');
    var refs: seq<string> := [];
    name, iban := "", "";
    NoFields(parts);
    for i := 0 to |parts|
      invariant refs == Remittances(parts[..i]) && name == PayerName(parts[..i]) && iban == PayerIban(parts[..i])
    {
      var part := parts[i];
      NextField(parts, i);
      if |part| < 2 {
        continue;
      }
      var code, text := part[..2], TrimSpace(part[2..]);
      if (code[0] == '2' && '0' <= code[1] <= '9') || (code[0] == '6' && '0' <= code[1] <= '3') {
        text := WithoutPrefix(text, "SVWZ+");
        if text != "" {
          refs := refs + [text];
        }
      } else if code == "31" {
        iban := Camt.NormIban(text);
      } else if code == "32" || code == "33" {
        name := if name == "" then text else name + " " + text;
      }
    }
    assert parts[..|parts|] == parts;
    reference := Camt.Join(refs, " ");
  }

  lemma NoFields(parts: seq<string>)
    ensures Remittances(parts[..0]) == [] && PayerName(parts[..0]) == "" && PayerIban(parts[..0]) == ""
  {}

  // ----- what the field codes give -------------------------------------------

  datatype Field = Field(code: string, text: string)

  const REMITTANCE_CODES := {"20", "21", "22", "23", "24", "25", "26", "27", "28", "29", "60", "61", "62", "63"}
  const IBAN_CODES := {"31"}
  const NAME_CODES := {"32", "33"}

  predicate IsField(f: Field) { |f.code| == 2 && '?' !in f.code && '?' !in f.text }

  // What precedes the first field; a text that begins like a field would be read as one.
  predicate IsHead(head: string) {
    '?' !in head && (|head| >= 2 ==> head[..2] !in REMITTANCE_CODES + IBAN_CODES + NAME_CODES)
  }

  function PartsOf(head: string, fields: seq<Field>): (r: seq<string>)
    ensures |r| == |fields| + 1 && r[0] == head
    ensures forall i :: 0 <= i < |fields| ==> r[i + 1] == fields[i].code + fields[i].text
  {
    [head] + seq(|fields|, i requires 0 <= i < |fields| => fields[i].code + fields[i].text)
  }

  // head?20...?32...
  function WrittenFields(head: string, fields: seq<Field>): string { Camt.Join(PartsOf(head, fields), "?") }

  // The texts of the fields with these codes, in order.
  function TextsOf(fields: seq<Field>, codes: set<string>): seq<string> {
    if fields == [] then []
    else
      var last := fields[|fields| - 1];
      TextsOf(fields[..|fields| - 1], codes) + if last.code in codes then [TrimSpace(last.text)] else []
  }

  // Without their SEPA keyword, as far as anything is left.
  function Kept(texts: seq<string>): seq<string> {
    if texts == [] then []
    else
      var text := WithoutPrefix(texts[|texts| - 1], "SVWZ+");
      Kept(texts[..|texts| - 1]) + if text != "" then [text] else []
  }

  // One after the other, from the first that is not empty.
  function Strung(texts: seq<string>): string {
    if texts == [] then ""
    else
      var before, last := Strung(texts[..|texts| - 1]), texts[|texts| - 1];
      if before == "" then last else before + " " + last
  }

  // A text written from fields gives as reference the texts of ?20 to ?29 and ?60 to ?63,
  // as name those of ?32 and ?33, and as IBAN the last of ?31; nothing else counts.
  lemma FieldsAreRead(head: string, fields: seq<Field>)
    requires IsHead(head) && fields != [] && forall f :: f in fields ==> IsField(f)
    ensures var (reference, name, iban) := Parse86(WrittenFields(head, fields));
      && reference == Camt.Join(Kept(TextsOf(fields, REMITTANCE_CODES)), " ")
      && name == Strung(TextsOf(fields, NAME_CODES))
      && var ibans := TextsOf(fields, IBAN_CODES);
         iban == if ibans == [] then "" else Camt.NormIban(ibans[|ibans| - 1])
  {
    hide TrimSpace, Split, Camt.Join, Camt.NormIban, Remittances, PayerName, PayerIban, TextsOf, Kept, Strung;
    var parts := PartsOf(head, fields);
    forall p | p in parts ensures '?' !in p {
      var i :| 0 <= i < |parts| && parts[i] == p;
      assert i > 0 ==> fields[i - 1] in fields && IsField(fields[i - 1]);
    }
    SplitOfJoin(parts, '?');
    JoinHas(parts, '?');
    FieldsOfParts(head, fields);
  }

  lemma {:induction false} SplitOfJoin(parts: seq<string>, c: char)
    requires parts != [] && forall p :: p in parts ==> c !in p
    ensures Split(Camt.Join(parts, [c]), c) == parts
  {
    hide Cut;
    var s := Camt.Join(parts, [c]);
    if |parts| == 1 {
      CutNone(s, c);
    } else {
      assert s == parts[0] + [c] + Camt.Join(parts[1..], [c]);
      CutIs(s, c, parts[0], Camt.Join(parts[1..], [c]));
      SplitOfJoin(parts[1..], c);
    }
  }

  lemma JoinHas(parts: seq<string>, c: char)
    requires |parts| > 1
    ensures c in Camt.Join(parts, [c])
  {
    assert Camt.Join(parts, [c])[|parts[0]|] == c;
  }

  lemma {:induction false} FieldsOfParts(head: string, fields: seq<Field>)
    requires IsHead(head) && forall f :: f in fields ==> IsField(f)
    ensures ReadAs(PartsOf(head, fields), fields)
  {
    hide ReadAs, IsHead, IsField;
    var parts, n := PartsOf(head, fields), |fields|;
    assert parts[..n + 1] == parts;
    if n == 0 {
      HeadAlone(head, parts);
    } else {
      assert fields[n - 1] in fields;
      assert parts[..n] == PartsOf(head, fields[..n - 1]);
      FieldsOfParts(head, fields[..n - 1]);
      OneMoreField(parts, fields);
    }
  }

  ghost predicate ReadAs(parts: seq<string>, fields: seq<Field>) {
    && Remittances(parts) == Kept(TextsOf(fields, REMITTANCE_CODES))
    && PayerName(parts) == Strung(TextsOf(fields, NAME_CODES))
    && var ibans := TextsOf(fields, IBAN_CODES);
       PayerIban(parts) == if ibans == [] then "" else Camt.NormIban(ibans[|ibans| - 1])
  }

  lemma HeadAlone(head: string, parts: seq<string>)
    requires IsHead(head) && parts == [head]
    ensures ReadAs(parts, [])
  {
    hide Remittance, Coded, IsHead, Remittances, PayerName, PayerIban;
    HeadIsNoField(head);
    NoFields(parts);
    NextField(parts, 0);
    assert parts[..1] == parts;
  }

  lemma OneMoreField(parts: seq<string>, fields: seq<Field>)
    requires |parts| == |fields| + 1 > 1 && IsField(fields[|fields| - 1])
    requires parts[|fields|] == fields[|fields| - 1].code + fields[|fields| - 1].text
    requires ReadAs(parts[..|fields|], fields[..|fields| - 1])
    ensures ReadAs(parts, fields)
  {
    hide Remittances, PayerName, PayerIban, WithoutPrefix, Remittance, Coded, TextsOf, Kept, Strung, IsField, TrimSpace, Camt.NormIban;
    var n := |fields|;
    var last := fields[n - 1];
    assert parts[..n + 1] == parts;
    NextField(parts, n);
    CodeDecides(last);
    NextText(fields, REMITTANCE_CODES);
    NextText(fields, IBAN_CODES);
    NextText(fields, NAME_CODES);
    AfterText(TextsOf(fields[..n - 1], REMITTANCE_CODES), TrimSpace(last.text));
    AfterText(TextsOf(fields[..n - 1], NAME_CODES), TrimSpace(last.text));
  }

  lemma NextText(fields: seq<Field>, codes: set<string>)
    requires fields != []
    ensures var last, before := fields[|fields| - 1], TextsOf(fields[..|fields| - 1], codes);
      TextsOf(fields, codes) == if last.code in codes then before + [TrimSpace(last.text)] else before
  {}

  lemma AfterText(texts: seq<string>, text: string)
    ensures Kept(texts + [text]) ==
      if WithoutPrefix(text, "SVWZ+") != "" then Kept(texts) + [WithoutPrefix(text, "SVWZ+")] else Kept(texts)
    ensures Strung(texts + [text]) == if Strung(texts) == "" then text else Strung(texts) + " " + text
  {
    assert (texts + [text])[..|texts|] == texts;
  }

  lemma HeadIsNoField(head: string)
    requires IsHead(head)
    ensures !Remittance(head) && !Coded(head, "31") && !Coded(head, "32") && !Coded(head, "33")
  {
    if |head| >= 2 {
      assert head[..2] == [head[0], head[1]];
    }
  }

  lemma CodeDecides(f: Field)
    requires IsField(f)
    ensures var part := f.code + f.text;
      && part[2..] == f.text
      && (Remittance(part) <==> f.code in REMITTANCE_CODES)
      && (Coded(part, "31") <==> f.code in IBAN_CODES)
      && (Coded(part, "32") || Coded(part, "33") <==> f.code in NAME_CODES)
  {
    var part := f.code + f.text;
    assert part[..2] == f.code == [f.code[0], f.code[1]];
  }

  // ----- the loop ------------------------------------------------------------

  // Where the loop stands before line i: out holds the finished transactions, cur
  // the one begun at an accepted line whose block has not ended, raw86 its narrative
  // so far, and in86 says that a continuation line would still belong to it.
  ghost predicate State(lines: seq<string>, i: nat, out: seq<Txn>, cur: Option<(string, int)>, at: nat,
                        raw86: string, in86: bool, dateOf: DateOf, hash: Hash)
  {
    i <= |lines| &&
    match cur
    case None => out == Parsed(lines, i, dateOf, hash) && raw86 == ""
    case Some(c) =>
      && at < i && Credit(lines[at]) == cur
      && out == Parsed(lines, at, dateOf, hash)
      && BlockEnd(lines, at + 1) >= i
      && raw86 == Narrative(lines, at, i)
      && (in86 <==> Last86(lines, at + 1, i) >= 0 && RunEnd(lines, Last86(lines, at + 1, i) + 1, i) == i)
  }

  lemma OnlyStatementsCount(lines: seq<string>, o: nat, i: nat, dateOf: DateOf, hash: Hash)
    requires o < i <= |lines| && Credit(lines[o]).Some? && BlockEnd(lines, o + 1) >= i
    ensures Parsed(lines, i, dateOf, hash) == Parsed(lines, o, dateOf, hash) + [TxnAt(lines, o, dateOf, hash)]
  {
    hide Match61, TxnAt, ParseAmount;
    if i > o + 1 {
      OnlyStatementsCount(lines, o, i - 1, dateOf, hash);
      assert !Closes(lines[i - 1]);
      ClosedByStatement(lines[i - 1]);
    }
  }

  // A statement line closes the block before it.
  lemma ClosedByStatement(line: string)
    ensures Tag61(line) ==> Closes(line)
    ensures Credit(line).Some? ==> Tag61(line)
  {
    if Tag61(line) {
      assert line[1] == '6';
    }
  }

  // Flushing at the end of the block.
  lemma Flushed(lines: seq<string>, i: nat, out: seq<Txn>, c: (string, int), at: nat, raw86: string, in86: bool,
                dateOf: DateOf, hash: Hash)
    requires State(lines, i, out, Some(c), at, raw86, in86, dateOf, hash)
    requires i == |lines| || Closes(lines[i])
    ensures State(lines, i, out + [TxnOf(c.0, c.1, raw86, dateOf, hash)], None, 0, "", in86, dateOf, hash)
  {
    hide TxnOf, Credit, Narrative, Last86, RunEnd, Closes, Parsed;
    assert BlockEnd(lines, at + 1) == i;
    OnlyStatementsCount(lines, at, i, dateOf, hash);
  }

  lemma {:induction false} RunEndGrows(lines: seq<string>, j: nat, i: nat)
    requires j <= i < |lines|
    ensures RunEnd(lines, j, i + 1) ==
      if RunEnd(lines, j, i) == i && Continues(lines[i]) then i + 1 else RunEnd(lines, j, i)
    decreases i - j
  {
    hide Continues;
    if j < i && Continues(lines[j]) {
      RunEndGrows(lines, j + 1, i);
    }
  }

  lemma Opened(lines: seq<string>, i: nat, out: seq<Txn>, in86: bool, dateOf: DateOf, hash: Hash)
    requires i < |lines| && State(lines, i, out, None, 0, "", in86, dateOf, hash)
    ensures Credit(lines[i]).Some? ==> State(lines, i + 1, out, Credit(lines[i]), i, "", false, dateOf, hash)
    ensures Credit(lines[i]).None? ==> State(lines, i + 1, out, None, 0, "", false, dateOf, hash)
  {
    hide Credit, TxnAt, Raw;
  }

  lemma NotAStatement(lines: seq<string>, i: nat, out: seq<Txn>, in86: bool, next86: bool, dateOf: DateOf, hash: Hash)
    requires i < |lines| && State(lines, i, out, None, 0, "", in86, dateOf, hash) && !Tag61(lines[i])
    ensures State(lines, i + 1, out, None, 0, "", next86, dateOf, hash)
  {
    hide Credit, TxnAt, Tag61;
    ClosedByStatement(lines[i]);
  }

  // One more line of an open block.
  lemma Narrative86(lines: seq<string>, i: nat, out: seq<Txn>, c: (string, int), at: nat, raw86: string, in86: bool,
                    dateOf: DateOf, hash: Hash)
    requires i < |lines| && State(lines, i, out, Some(c), at, raw86, in86, dateOf, hash) && Tag86(lines[i])
    ensures State(lines, i + 1, out, Some(c), at, TrimSpace(lines[i][4..]), true, dateOf, hash)
  {
    hide Credit, TxnAt, TrimSpace, Parsed, Tag86, Tag61;
  }

  lemma Continued(lines: seq<string>, i: nat, out: seq<Txn>, c: (string, int), at: nat, raw86: string,
                  dateOf: DateOf, hash: Hash)
    requires i < |lines| && State(lines, i, out, Some(c), at, raw86, true, dateOf, hash) && Continues(lines[i])
    ensures State(lines, i + 1, out, Some(c), at, raw86 + "\n" + TrimSpace(lines[i]), true, dateOf, hash)
  {
    hide Credit, TxnAt, TrimSpace, Parsed, Tag86;
    Kinds(lines[i]);
    RunEndGrows(lines, Last86(lines, at + 1, i) + 1, i);
  }

  lemma Ignored(lines: seq<string>, i: nat, out: seq<Txn>, c: (string, int), at: nat, raw86: string, in86: bool,
                dateOf: DateOf, hash: Hash)
    requires i < |lines| && State(lines, i, out, Some(c), at, raw86, in86, dateOf, hash) && !Closes(lines[i])
    requires !Tag86(lines[i]) && !(in86 && Continues(lines[i]))
    ensures State(lines, i + 1, out, Some(c), at, raw86, false, dateOf, hash)
  {
    hide Credit, TxnAt, TrimSpace, Parsed, Closes, Continues, Tag86;
    var m := Last86(lines, at + 1, i);
    if m >= 0 {
      RunEndGrows(lines, m + 1, i);
    }
  }

  // flush
  method Append(out: seq<Txn>, cur: (string, int), raw86: string, dateOf: DateOf, hash: Hash) returns (next: seq<Txn>)
    ensures next == out + [TxnOf(cur.0, cur.1, raw86, dateOf, hash)]
  {
    hide Parse86, Tuple;
    var reference, name, iban := Parse86Fields(raw86);
    var t := Txn(dateOf(cur.0), cur.1, reference, name, iban, "");
    next := out + [t.(hash := hash(Tuple(t)))];
  }

  // One transaction for each accepted statement line, in order, each with the last
  // :86: narrative of its block; None when there is none.
  method ParseMT940(lines: seq<string>, dateOf: DateOf, hash: Hash) returns (r: Option<seq<Txn>>)
    ensures r.None? <==> Parsed(lines, |lines|, dateOf, hash) == []
    ensures r.Some? ==> r.value == Disambiguated(Parsed(lines, |lines|, dateOf, hash), hash)
  {
    hide State, Credit, TxnOf, Parsed, Continues, Closes, Tag61, Tag86, TrimSpace, Disambiguated;
    var out: seq<Txn> := [];
    var cur: Option<(string, int)>, raw86, in86 := None, "", false;
    ghost var at := 0;
    AtStart(lines, dateOf, hash);
    for i := 0 to |lines|
      invariant State(lines, i, out, cur, at, raw86, in86, dateOf, hash)
      invariant cur.None? ==> at == 0 && raw86 == ""
    {
      var line := lines[i];
      Kinds(line);
      if Tag61(line) {
        if cur.Some? {
          Flushed(lines, i, out, cur.value, at, raw86, in86, dateOf, hash);
          out := Append(out, cur.value, raw86, dateOf, hash);
          raw86, at := "", 0;
        }
        Opened(lines, i, out, in86, dateOf, hash);
        in86, cur := false, Credit(line);
        at := if cur.Some? then i else 0;
      } else if Tag86(line) {
        if cur.Some? {
          Narrative86(lines, i, out, cur.value, at, raw86, in86, dateOf, hash);
          raw86, in86 := TrimSpace(line[4..]), true;
        } else {
          NotAStatement(lines, i, out, in86, in86, dateOf, hash);
        }
      } else if in86 && cur.Some? && Continues(line) {
        Continued(lines, i, out, cur.value, at, raw86, dateOf, hash);
        raw86 := raw86 + "\n" + TrimSpace(line);
      } else {
        if ":" <= line && cur.Some? {
          Flushed(lines, i, out, cur.value, at, raw86, in86, dateOf, hash);
          out := Append(out, cur.value, raw86, dateOf, hash);
          cur, raw86, at := None, "", 0;
        }
        if cur.None? {
          NotAStatement(lines, i, out, in86, false, dateOf, hash);
        } else {
          Ignored(lines, i, out, cur.value, at, raw86, in86, dateOf, hash);
        }
        in86 := false;
      }
    }
    if cur.Some? {
      Flushed(lines, |lines|, out, cur.value, at, raw86, in86, dateOf, hash);
      out := Append(out, cur.value, raw86, dateOf, hash);
    }
    AtEnd(lines, out, in86, dateOf, hash);
    if |out| == 0 {
      return None;
    }
    var txns := new Txn[|out|](i requires 0 <= i < |out| => out[i]);
    assert txns[..] == out;
    DisambiguateDuplicateHashes(txns, hash);
    r := Some(txns[..]);
  }

  lemma AtStart(lines: seq<string>, dateOf: DateOf, hash: Hash)
    ensures State(lines, 0, [], None, 0, "", false, dateOf, hash)
  {}

  lemma AtEnd(lines: seq<string>, out: seq<Txn>, in86: bool, dateOf: DateOf, hash: Hash)
    requires State(lines, |lines|, out, None, 0, "", in86, dateOf, hash)
    ensures out == Parsed(lines, |lines|, dateOf, hash)
  {}

  lemma Kinds(line: string)
    ensures Closes(line) <==> ":" <= line && !Tag86(line)
    ensures Tag61(line) ==> Closes(line)
    ensures Tag86(line) ==> |line| >= 4 && !Continues(line)
    ensures Continues(line) ==> !Closes(line)
  {
    ClosedByStatement(line);
    assert Tag86(line) ==> line[0] == ':';
  }

  // ----- concatenation -------------------------------------------------------

  // b is what lines hold from n on, as far as b goes.
  ghost predicate Holds(lines: seq<string>, n: nat, b: seq<string>) {
    n + |b| <= |lines| && forall k {:trigger b[k]} :: 0 <= k < |b| ==> lines[n + k] == b[k]
  }

  lemma {:induction false} SameLast86(lines: seq<string>, n: nat, b: seq<string>, j: nat, i: nat)
    requires Holds(lines, n, b) && j <= i <= |b|
    ensures Last86(lines, n + j, n + i) == if Last86(b, j, i) < 0 then -1 else n + Last86(b, j, i)
  {
    hide Tag86;
    if i > j && !Tag86(b[i - 1]) {
      SameLast86(lines, n, b, j, i - 1);
    }
  }

  lemma {:induction false} SameRunEnd(lines: seq<string>, n: nat, b: seq<string>, j: nat, i: nat)
    requires Holds(lines, n, b) && j <= i <= |b|
    ensures RunEnd(lines, n + j, n + i) == n + RunEnd(b, j, i)
    decreases i - j
  {
    hide Continues;
    if j < i && Continues(b[j]) {
      SameRunEnd(lines, n, b, j + 1, i);
    }
  }

  lemma {:induction false} SameRaw(lines: seq<string>, n: nat, b: seq<string>, m: nat, c: nat)
    requires Holds(lines, n, b) && m < c <= |b| && Tag86(b[m])
    ensures Tag86(lines[n + m]) && Raw(lines, n + m, n + c) == Raw(b, m, c)
  {
    hide TrimSpace;
    assert lines[n + m] == b[m] && lines[n + (c - 1)] == b[c - 1];
    if c > m + 1 {
      SameRaw(lines, n, b, m, c - 1);
    }
  }

  lemma {:induction false} SameBlockEnd(lines: seq<string>, n: nat, b: seq<string>, j: nat)
    requires Holds(lines, n, b) && j <= |b|
    requires n + |b| == |lines| || Closes(lines[n + |b|])
    ensures BlockEnd(lines, n + j) == n + BlockEnd(b, j)
    decreases |b| - j
  {
    hide Closes;
    if j < |b| && !Closes(b[j]) {
      SameBlockEnd(lines, n, b, j + 1);
    }
  }

  lemma SameTxn(lines: seq<string>, n: nat, b: seq<string>, o: nat, dateOf: DateOf, hash: Hash)
    requires Holds(lines, n, b) && o < |b| && Credit(b[o]).Some?
    requires n + |b| == |lines| || Closes(lines[n + |b|])
    ensures Credit(lines[n + o]) == Credit(b[o]) && TxnAt(lines, n + o, dateOf, hash) == TxnAt(b, o, dateOf, hash)
  {
    hide Credit, TxnOf, Closes, BlockEnd, Narrative;
    assert lines[n + o] == b[o];
    SameBlockEnd(lines, n, b, o + 1);
    SameNarrative(lines, n, b, o, BlockEnd(b, o + 1));
    assert BlockEnd(lines, n + o + 1) == n + BlockEnd(b, o + 1);
  }

  lemma SameNarrative(lines: seq<string>, n: nat, b: seq<string>, o: nat, i: nat)
    requires Holds(lines, n, b) && o < i <= |b|
    ensures Narrative(lines, n + o, n + i) == Narrative(b, o, i)
  {
    hide Last86, RunEnd, Raw, Holds, Tag86, Continues;
    SameLast86(lines, n, b, o + 1, i);
    var m := Last86(b, o + 1, i);
    if m >= 0 {
      SameRunEnd(lines, n, b, m + 1, i);
      SameRaw(lines, n, b, m, RunEnd(b, m + 1, i));
    }
  }

  lemma {:induction false} SameParsed(lines: seq<string>, n: nat, b: seq<string>, k: nat, dateOf: DateOf, hash: Hash)
    requires Holds(lines, n, b) && k <= |b|
    requires n + |b| == |lines| || Closes(lines[n + |b|])
    ensures Parsed(lines, n + k, dateOf, hash) == Parsed(lines, n, dateOf, hash) + Parsed(b, k, dateOf, hash)
  {
    hide Credit, TxnAt, Closes;
    if k > 0 {
      SameParsed(lines, n, b, k - 1, dateOf, hash);
      assert lines[n + (k - 1)] == b[k - 1];
      if Credit(b[k - 1]).Some? {
        SameTxn(lines, n, b, k - 1, dateOf, hash);
      }
    }
  }

  // The statement at o is open at the end of a, and so is its :86: text.
  predicate Open(a: seq<string>, o: nat)
    requires o < |a|
  {
    Credit(a[o]).Some? && BlockEnd(a, o + 1) == |a|
  }

  predicate Running(a: seq<string>, o: nat)
    requires o < |a|
  {
    Open(a, o) && var m := Last86(a, o + 1, |a|); m >= 0 && RunEnd(a, m + 1, |a|) == |a|
  }

  // Before its first closing tag b has an :86: line of its own.
  predicate Leads86(b: seq<string>) { Last86(b, 0, BlockEnd(b, 0)) >= 0 }

  // What b begins with is read into the narrative of the statement at o.
  predicate Joins(a: seq<string>, o: nat, b: seq<string>)
    requires o < |a|
  {
    Open(a, o) && (Leads86(b) || (Running(a, o) && b != [] && Continues(b[0])))
  }

  predicate Apart(a: seq<string>, b: seq<string>) { forall o :: 0 <= o < |a| ==> !Joins(a, o, b) }

  lemma {:induction false} BlockEndOfBoth(a: seq<string>, b: seq<string>, j: nat)
    requires j <= |a|
    ensures BlockEnd(a + b, j) == if BlockEnd(a, j) < |a| then BlockEnd(a, j) else |a| + BlockEnd(b, 0)
    decreases |a| - j
  {
    hide Closes;
    if j == |a| {
      assert Holds(a + b, |a|, b);
      SameBlockEnd(a + b, |a|, b, 0);
    } else if !Closes(a[j]) {
      assert (a + b)[j] == a[j];
      BlockEndOfBoth(a, b, j + 1);
    }
  }

  lemma {:induction false} Last86OfBoth(a: seq<string>, b: seq<string>, j: nat, l: nat)
    requires j <= |a| && l <= |b| && Last86(b, 0, l) < 0
    ensures Last86(a + b, j, |a| + l) == Last86(a, j, |a|)
    decreases l
  {
    hide Tag86;
    if l == 0 {
      assert Holds(a + b, 0, a);
      SameLast86(a + b, 0, a, j, |a|);
    } else {
      assert (a + b)[|a| + l - 1] == b[l - 1];
      Last86OfBoth(a, b, j, l - 1);
    }
  }

  lemma {:induction false} RunEndOfBoth(a: seq<string>, b: seq<string>, j: nat, l: nat)
    requires j <= |a| && l <= |b|
    ensures RunEnd(a + b, j, |a| + l) == if RunEnd(a, j, |a|) < |a| then RunEnd(a, j, |a|) else |a| + RunEnd(b, 0, l)
    decreases |a| - j
  {
    hide Continues;
    if j == |a| {
      assert Holds(a + b, |a|, b);
      SameRunEnd(a + b, |a|, b, 0, l);
    } else {
      assert (a + b)[j] == a[j];
      if Continues(a[j]) {
        RunEndOfBoth(a, b, j + 1, l);
      }
    }
  }

  lemma {:induction false} RawGrows(lines: seq<string>, m: nat, c: nat, d: nat)
    requires m < c <= d <= |lines| && Tag86(lines[m])
    ensures |Raw(lines, m, c)| <= |Raw(lines, m, d)| && (c < d ==> |Raw(lines, m, c)| < |Raw(lines, m, d)|)
  {
    hide TrimSpace, Tag86;
    if c < d {
      RawGrows(lines, m, c, d - 1);
    }
  }

  // Without an :86: line of its own, what b begins with changes the narrative of an
  // accepted statement exactly if its text is still open and the first line of b goes on
  // with it; the text is longer then.
  lemma NarrativeStaysExactly(a: seq<string>, b: seq<string>, o: nat)
    requires o < |a| && Credit(a[o]).Some? && !Leads86(b)
    ensures BlockEnd(a + b, o + 1) > o
    ensures Narrative(a + b, o, BlockEnd(a + b, o + 1)) == Narrative(a, o, BlockEnd(a, o + 1)) <==> !Joins(a, o, b)
  {
    hide Credit, Narrative, Last86, RunEnd, Continues, BlockEnd;
    BlockEndOfBoth(a, b, o + 1);
    if BlockEnd(a, o + 1) < |a| {
      assert Holds(a + b, 0, a);
      SameNarrative(a + b, 0, a, o, BlockEnd(a, o + 1));
    } else {
      OpenNarrative(a, b, o, BlockEnd(b, 0));
    }
  }

  lemma OpenNarrative(a: seq<string>, b: seq<string>, o: nat, l: nat)
    requires o < |a| && l == BlockEnd(b, 0) && Last86(b, 0, l) < 0
    ensures var m := Last86(a, o + 1, |a|);
      Narrative(a + b, o, |a| + l) == Narrative(a, o, |a|) <==>
        !(m >= 0 && RunEnd(a, m + 1, |a|) == |a| && b != [] && Continues(b[0]))
  {
    hide Last86, RunEnd, Raw, Tag86, Continues, BlockEnd;
    Last86OfBoth(a, b, o + 1, l);
    var m := Last86(a, o + 1, |a|);
    if m >= 0 {
      var end := RunEnd(a, m + 1, |a|);
      assert Holds(a + b, 0, a);
      SameRaw(a + b, 0, a, m, end);
      RunEndOfBoth(a, b, m + 1, l);
      RunStarts(b, l);
      RawGrows(a + b, m, end, RunEnd(a + b, m + 1, |a| + l));
    }
  }

  lemma RunStarts(b: seq<string>, l: nat)
    requires l == BlockEnd(b, 0)
    ensures RunEnd(b, 0, l) > 0 <==> b != [] && Continues(b[0])
  {}

  lemma OpenStays(a: seq<string>, b: seq<string>, o: nat, dateOf: DateOf, hash: Hash)
    requires o < |a| && Credit(a[o]).Some? && !Joins(a, o, b)
    ensures TxnAt(a + b, o, dateOf, hash) == TxnAt(a, o, dateOf, hash)
  {
    hide Credit, TxnOf, Narrative, Leads86, Running, BlockEnd;
    assert (a + b)[o] == a[o];
    if Open(a, o) {
      NarrativeStaysExactly(a, b, o);
    } else {
      BlockEndOfBoth(a, b, o + 1);
      assert Holds(a + b, 0, a);
      SameNarrative(a + b, 0, a, o, BlockEnd(a, o + 1));
    }
  }

  lemma {:induction false} ParsedStays(a: seq<string>, b: seq<string>, k: nat, dateOf: DateOf, hash: Hash)
    requires k <= |a| && Apart(a, b)
    ensures Parsed(a + b, k, dateOf, hash) == Parsed(a, k, dateOf, hash)
  {
    hide Credit, TxnAt, Joins;
    if k > 0 {
      ParsedStays(a, b, k - 1, dateOf, hash);
      assert (a + b)[k - 1] == a[k - 1];
      if Credit(a[k - 1]).Some? {
        OpenStays(a, b, k - 1, dateOf, hash);
      }
    }
  }

  // Files appended to one another are read as each of them alone, unless the second
  // begins with lines that are read into the last statement of the first.
  lemma StatementsConcatenate(a: seq<string>, b: seq<string>, dateOf: DateOf, hash: Hash)
    requires Apart(a, b)
    ensures Parsed(a + b, |a + b|, dateOf, hash) == Parsed(a, |a|, dateOf, hash) + Parsed(b, |b|, dateOf, hash)
  {
    hide Credit, TxnAt, Apart;
    assert Holds(a + b, |a|, b);
    ParsedStays(a, b, |a|, dateOf, hash);
    SameParsed(a + b, |a|, b, |b|, dateOf, hash);
  }

  // Nothing precedes a file that stands alone, and a file that begins with a tag of its
  // own closes whatever is open.
  lemma ClosedFilesAreApart(a: seq<string>, b: seq<string>)
    ensures a == [] || b == [] || Closes(b[0]) ==> Apart(a, b)
  {}

  // ----- what the transactions carry -----------------------------------------

  function CreditTotal(lines: seq<string>, n: nat): int
    requires n <= |lines|
  {
    if n == 0 then 0
    else CreditTotal(lines, n - 1) + if Credit(lines[n - 1]).Some? then Credit(lines[n - 1]).value.1 else 0
  }

  // The money of a statement is that of its accepted lines.
  lemma {:induction false} StatementConserves(lines: seq<string>, n: nat, dateOf: DateOf, hash: Hash)
    requires n <= |lines|
    ensures Camt.Total(Parsed(lines, n, dateOf, hash)) == CreditTotal(lines, n)
  {
    hide Credit, Narrative, BlockEnd, Parse86, Tuple, Camt.Total;
    Camt.NothingSums();
    if n > 0 {
      StatementConserves(lines, n - 1, dateOf, hash);
      if Credit(lines[n - 1]).Some? {
        Camt.TotalNext(Parsed(lines, n - 1, dateOf, hash), TxnAt(lines, n - 1, dateOf, hash));
      }
    }
  }

  lemma {:induction false} StatementOriginals(lines: seq<string>, n: nat, dateOf: DateOf, hash: Hash)
    requires n <= |lines| && Camt.GivesDates(dateOf)
    ensures forall t :: t in Parsed(lines, n, dateOf, hash) ==> OfOriginal(t.hash, hash)
  {
    hide Credit, Narrative, BlockEnd, Parse86, OfOriginal;
    if n > 0 {
      StatementOriginals(lines, n - 1, dateOf, hash);
      if Credit(lines[n - 1]).Some? {
        var (date, cents) := Credit(lines[n - 1]).value;
        TxnOriginal(date, cents, Narrative(lines, n - 1, BlockEnd(lines, n)), dateOf, hash);
      }
    }
  }

  lemma TxnOriginal(date: string, cents: int, raw: string, dateOf: DateOf, hash: Hash)
    requires Camt.GivesDates(dateOf)
    ensures OfOriginal(TxnOf(date, cents, raw, dateOf, hash).hash, hash)
  {
    hide Original, Tuple, Parse86;
    var (reference, name, iban) := Parse86(raw);
    var t := Txn(dateOf(date), cents, reference, name, iban, "");
    InputsAreApart(t, "", "", 0);
  }

  // So no two transactions of a statement are taken for the same one.
  lemma NoCollisions(lines: seq<string>, dateOf: DateOf, hash: Hash, i: nat, j: nat)
    requires Ideal(hash) && Camt.GivesDates(dateOf) && i < j < |Parsed(lines, |lines|, dateOf, hash)|
    ensures var txns := Disambiguated(Parsed(lines, |lines|, dateOf, hash), hash); txns[i].hash != txns[j].hash
  {
    hide Parsed, Disambiguated, Numbered, HashesOf, OfOriginal, Ideal;
    var txns := Parsed(lines, |lines|, dateOf, hash);
    StatementOriginals(lines, |lines|, dateOf, hash);
    assert Originals(HashesOf(txns), hash) by {
      assert forall k :: 0 <= k < |txns| ==> HashesOf(txns)[k] == txns[k].hash && txns[k] in txns;
    }
    NumberedDistinct(HashesOf(txns), hash, i, j);
  }

  // Importing a statement and then a file that contains it, with more lines before or
  // after it, books exactly the additional transactions: none of the first twice, and
  // none of the rest is lost.
  lemma ContainingFileAddsTheRest(pre: seq<string>, a: seq<string>, post: seq<string>, dateOf: DateOf, hash: Hash)
    requires Ideal(hash) && Camt.GivesDates(dateOf)
    requires Apart(pre, a) && Apart(pre + a, post)
    ensures var file := pre + a + post;
      var was, now := Parsed(a, |a|, dateOf, hash), Parsed(file, |file|, dateOf, hash);
      var known, all := KnownBy(Disambiguated(was, hash)), KnownBy(Disambiguated(now, hash));
      known <= all && |known| == |was| && |all - known| == |now| - |was|
  {
    hide Parsed, Disambiguated, Numbered, HashesOf, OfOriginal, Ideal, Apart, KnownBy;
    var file := pre + a + post;
    StatementsConcatenate(pre, a, dateOf, hash);
    StatementsConcatenate(pre + a, post, dateOf, hash);
    var first, was, last := Parsed(pre, |pre|, dateOf, hash), Parsed(a, |a|, dateOf, hash), Parsed(post, |post|, dateOf, hash);
    assert Parsed(file, |file|, dateOf, hash) == first + was + last;
    StatementOriginals(file, |file|, dateOf, hash);
    assert Originals(HashesOf(first + was + last), hash) by {
      var all := first + was + last;
      assert forall k :: 0 <= k < |all| ==> HashesOf(all)[k] == all[k].hash && all[k] in all;
    }
    ContainedAddsTheRest(first, was, last, hash);
  }

  // ----- any two imports -------------------------------------------------------

  datatype File = Message(entries: seq<Camt.Entry>) | Lines(lines: seq<string>)

  // The credits of a file before they are numbered, and the bank references they are
  // known by; MT940 has none.
  function CreditsOf(file: File, dateOf: DateOf, hash: Hash): seq<Txn> {
    match file
    case Message(entries) => Camt.AllCredits(entries, dateOf, hash)
    case Lines(lines) => Parsed(lines, |lines|, dateOf, hash)
  }

  function KeysOf(file: File, dateOf: DateOf, hash: Hash): seq<Option<string>> {
    match file
    case Message(entries) => Camt.AllKeys(entries)
    case Lines(lines) => NoKeys(|Parsed(lines, |lines|, dateOf, hash)|)
  }

  function NoKeys(n: nat): (r: seq<Option<string>>)
    ensures |r| == n && forall i :: 0 <= i < n ==> r[i].None?
  {
    seq(n, _ => None)
  }

  lemma {:induction false} StatementKeyed(lines: seq<string>, n: nat, dateOf: DateOf, hash: Hash)
    requires n <= |lines| && Camt.GivesDates(dateOf)
    ensures Keyed(Parsed(lines, n, dateOf, hash), NoKeys(|Parsed(lines, n, dateOf, hash)|), hash)
  {
    hide Credit, Narrative, BlockEnd, Parse86, IsDate, Tuple, TxnAt;
    if n > 0 {
      StatementKeyed(lines, n - 1, dateOf, hash);
      if Credit(lines[n - 1]).Some? {
        TxnIsHashed(lines, n - 1, dateOf, hash);
      }
    }
  }

  lemma TxnIsHashed(lines: seq<string>, o: nat, dateOf: DateOf, hash: Hash)
    requires o < |lines| && Credit(lines[o]).Some? && Camt.GivesDates(dateOf)
    ensures var t := TxnAt(lines, o, dateOf, hash); IsDate(t.date) && t.hash == hash(Tuple(t))
  {
    hide Credit, Narrative, BlockEnd, TxnOf;
    var (date, cents) := Credit(lines[o]).value;
    HashedTxn(date, cents, Narrative(lines, o, BlockEnd(lines, o + 1)), dateOf, hash);
  }

  lemma HashedTxn(date: string, cents: int, raw: string, dateOf: DateOf, hash: Hash)
    requires Camt.GivesDates(dateOf)
    ensures var t := TxnOf(date, cents, raw, dateOf, hash); IsDate(t.date) && t.hash == hash(Tuple(t))
  {
    hide Parse86, IsDate, TrimSpace, Fixed2;
    assert IsDate(dateOf(date));
  }

  // For any two files of either kind: a credit of one is taken for a credit of the other
  // exactly if both have the same bank reference, or neither has one and day, amount and
  // text agree, and as many of the kind precede them in their files.
  lemma TakenForTheSameExactly(f: File, i: nat, g: File, j: nat, dateOf: DateOf, hash: Hash)
    requires Ideal(hash) && Camt.GivesDates(dateOf)
    requires i < |CreditsOf(f, dateOf, hash)| && j < |CreditsOf(g, dateOf, hash)|
    ensures var a, b := CreditsOf(f, dateOf, hash), CreditsOf(g, dateOf, hash);
      var ka, kb := KeysOf(f, dateOf, hash), KeysOf(g, dateOf, hash);
      && |ka| == |a| && |kb| == |b|
      && (Disambiguated(a, hash)[i].hash == Disambiguated(b, hash)[j].hash <==>
            SameCredit(a[i], ka[i], b[j], kb[j]) && |SameBefore(a, ka, i, i)| == |SameBefore(b, kb, j, j)|)
  {
    hide Ideal, Disambiguated, SameCredit, SameBefore, CreditsOf, KeysOf;
    FileKeyed(f, dateOf, hash);
    FileKeyed(g, dateOf, hash);
    SameHashExactly(CreditsOf(f, dateOf, hash), KeysOf(f, dateOf, hash), i,
                    CreditsOf(g, dateOf, hash), KeysOf(g, dateOf, hash), j, hash);
  }

  lemma FileKeyed(file: File, dateOf: DateOf, hash: Hash)
    requires Camt.GivesDates(dateOf)
    ensures Keyed(CreditsOf(file, dateOf, hash), KeysOf(file, dateOf, hash), hash)
  {
    hide Keyed, Parsed;
    match file
    case Message(entries) => Camt.MessageKeyed(entries, dateOf, hash);
    case Lines(lines) => StatementKeyed(lines, |lines|, dateOf, hash);
  }
}
