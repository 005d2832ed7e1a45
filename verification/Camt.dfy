// Credits of an ISO 20022 camt message, from its decoded entries
// (internal/bankimport/bankimport.go, ParseCamt and splitBatch).
module Camt {
  import opened Wrappers
  import opened Text
  import opened Numerals
  import opened Amounts
  import opened BankHashes

  datatype Sum = Sum(value: string, currency: string)

  datatype Detail = Detail(texts: seq<string>, name: string, iban: string, own: Sum, inner: Sum)

  datatype Entry = Entry(sum: Sum, direction: string, booked: string, bookedAt: string, reference: string, details: seq<Detail>)

  // parseDate and the formatting of its result; a malformed date gives year one.
  type DateOf = string -> string

  ghost predicate GivesDates(dateOf: DateOf) { forall s :: IsDate(dateOf(s)) }

  function Upper(c: char): char { if 'a' <= c <= 'z' then c - 'a' + 'A' else c }

  // strings.EqualFold with an upper-case ASCII word.
  predicate Folds(s: string, word: string) {
    |s| == |word| && forall i :: 0 <= i < |s| ==> Upper(s[i]) == word[i]
  }

  function NormIban(s: string): string {
    var t := Without(TrimSpace(s), ' ');
    seq(|t|, i requires 0 <= i < |t| => Upper(t[i]))
  }

  function Join(parts: seq<string>, separator: string): string {
    if parts == [] then "" else if |parts| == 1 then parts[0] else parts[0] + separator + Join(parts[1..], separator)
  }

  // An explicit, positive amount in euro.
  function Euros(sum: Sum): (r: Option<int>)
    ensures r.Some? ==> 0 < r.value < 100 * MAX_AMOUNT
  {
    if !Folds(TrimSpace(sum.currency), "EUR") then None
    else match ParseAmount(sum.value)
         case Some(d) => if InCents(d) > 0 then Some(InCents(d)) else None
         case None => None
  }

  function DetailAmount(d: Detail): Option<int> {
    if TrimSpace(d.own.value) != "" then Euros(d.own)
    else if TrimSpace(d.inner.value) != "" then Euros(d.inner)
    else None
  }

  predicate Accepted(e: Entry) { Folds(TrimSpace(e.direction), "CRDT") && Euros(e.sum).Some? }

  function DateIn(e: Entry): string {
    if e.booked == "" && |e.bookedAt| >= 10 then e.bookedAt[..10] else e.booked
  }

  function Hashed(t: Txn, reference: string, suffix: string, hash: Hash): Txn {
    t.(hash := if reference != "" then hash(BankReference(reference + suffix)) else hash(Tuple(t)))
  }

  function Unhashed(e: Entry, d: Detail, cents: int, dateOf: DateOf): Txn {
    var reference, name := TrimSpace(Join(d.texts, " ")), TrimSpace(d.name);
    Txn(dateOf(DateIn(e)), cents, reference, name, NormIban(d.iban), "")
  }

  function DetailTxn(e: Entry, i: nat, dateOf: DateOf, hash: Hash): Txn
    requires i < |e.details| && DetailAmount(e.details[i]).Some?
  {
    var d := e.details[i];
    var t := Unhashed(e, d, DetailAmount(d).value, dateOf);
    Hashed(t, TrimSpace(e.reference), "#" + Itoa(i), hash)
  }

  function SingleTxn(e: Entry, dateOf: DateOf, hash: Hash): Txn
    requires Accepted(e) && |e.details| <= 1
  {
    var d := if e.details == [] then Detail([], "", "", Sum("", ""), Sum("", "")) else e.details[0];
    var t := Unhashed(e, d, Euros(e.sum).value, dateOf);
    Hashed(t, TrimSpace(e.reference), "", hash)
  }

  function Total(txns: seq<Txn>): int {
    if txns == [] then 0 else Total(txns[..|txns| - 1]) + txns[|txns| - 1].cents
  }

  // What the details of a batch say it is worth, when each says so.
  function DetailSum(details: seq<Detail>): Option<int> {
    if details == [] then Some(0)
    else match (DetailSum(details[..|details| - 1]), DetailAmount(details[|details| - 1]))
         case (Some(a), Some(b)) => Some(a + b)
         case _ => None
  }

  // A batch is booked when its details account for exactly its amount.
  predicate Booked(e: Entry) {
    Accepted(e) && (|e.details| > 1 ==> DetailSum(e.details) == Some(Euros(e.sum).value))
  }

  lemma {:induction false} DetailSumIsTotal(details: seq<Detail>)
    ensures DetailSum(details).Some? <==> forall i :: 0 <= i < |details| ==> DetailAmount(details[i]).Some?
  {
    hide DetailAmount;
    if details != [] {
      DetailSumIsTotal(details[..|details| - 1]);
    }
  }

  lemma DetailSumNext(details: seq<Detail>, i: nat)
    requires i < |details| && DetailSum(details[..i]).Some? && DetailAmount(details[i]).Some?
    ensures DetailSum(details[..i + 1]) == Some(DetailSum(details[..i]).value + DetailAmount(details[i]).value)
  {
    hide DetailAmount;
    assert details[..i + 1][..i] == details[..i];
  }

  lemma TotalNext(txns: seq<Txn>, t: Txn)
    ensures Total(txns + [t]) == Total(txns) + t.cents
  {
    assert (txns + [t])[..|txns|] == txns;
  }

  // One credit for each detail, or none when one of them states no amount of its own.
  method SplitBatch(e: Entry, dateOf: DateOf, hash: Hash) returns (r: Option<seq<Txn>>)
    ensures r.Some? <==> DetailSum(e.details).Some?
    ensures r.Some? ==> Total(r.value) == DetailSum(e.details).value
    ensures r.Some? ==> |r.value| == |e.details| && AreDetails(r.value, e, dateOf, hash)
  {
    hide DetailAmount, Itoa, TrimSpace, BankReference, Tuple, NormIban, Join, DetailSum, Total, DateIn;
    DetailSumIsTotal(e.details);
    NothingSums();
    assert e.details[..0] == [];
    var txns: seq<Txn> := [];
    for i := 0 to |e.details|
      invariant |txns| == i
      invariant AreDetails(txns, e, dateOf, hash)
      invariant DetailSum(e.details[..i]) == Some(Total(txns))
    {
      var d := e.details[i];
      var amount := DetailAmount(d);
      if amount.None? {
        return None;
      }
      DetailSumNext(e.details, i);
      var t := Unhashed(e, d, amount.value, dateOf);
      t := Hashed(t, TrimSpace(e.reference), "#" + Itoa(i), hash);
      TotalNext(txns, t);
      txns := txns + [t];
    }
    assert e.details[..|e.details|] == e.details;
    r := Some(txns);
  }

  lemma NothingSums()
    ensures DetailSum([]) == Some(0) && Total([]) == 0
  {}

  // The credits of one entry: a booked batch split into its details, any other
  // booked entry whole.
  function Credits(e: Entry, dateOf: DateOf, hash: Hash): (r: seq<Txn>) {
    if !Booked(e) then []
    else if |e.details| <= 1 then [SingleTxn(e, dateOf, hash)]
    else
      DetailSumIsTotal(e.details);
      seq(|e.details|, i requires 0 <= i < |e.details| => DetailTxn(e, i, dateOf, hash))
  }

  function AllCredits(entries: seq<Entry>, dateOf: DateOf, hash: Hash): seq<Txn> {
    if entries == [] then []
    else AllCredits(entries[..|entries| - 1], dateOf, hash) + Credits(entries[|entries| - 1], dateOf, hash)
  }

  // The message as a list of credits; None when there is none.
  method ParseCamt(entries: seq<Entry>, dateOf: DateOf, hash: Hash) returns (r: Option<seq<Txn>>)
    ensures r.None? <==> AllCredits(entries, dateOf, hash) == []
    ensures r.Some? ==> r.value == Disambiguated(AllCredits(entries, dateOf, hash), hash)
  {
    hide Credits, Euros, Folds, Disambiguated, TrimSpace, DetailTxn, DetailAmount, Total, DetailSum, DateIn;
    var out: seq<Txn> := [];
    assert entries[..0] == [];
    for i := 0 to |entries|
      invariant out == AllCredits(entries[..i], dateOf, hash)
    {
      var e := entries[i];
      assert entries[..i + 1][..i] == entries[..i];
      CreditsAre(e, dateOf, hash);
      if !Folds(TrimSpace(e.direction), "CRDT") || Euros(e.sum).None? {
        continue;
      }
      var amt := Euros(e.sum).value;
      if |e.details| > 1 {
        var split := SplitBatch(e, dateOf, hash);
        var total := if split.Some? then Total(split.value) else 0;
        if total == amt {
          assert split.value == Credits(e, dateOf, hash);
          out := out + split.value;
        }
        continue;
      }
      out := out + [SingleTxn(e, dateOf, hash)];
    }
    assert entries[..|entries|] == entries;
    if |out| == 0 {
      return None;
    }
    var txns := new Txn[|out|](i requires 0 <= i < |out| => out[i]);
    assert txns[..] == out;
    DisambiguateDuplicateHashes(txns, hash);
    r := Some(txns[..]);
  }

  predicate AreDetails(txns: seq<Txn>, e: Entry, dateOf: DateOf, hash: Hash) {
    forall i :: 0 <= i < |txns| ==>
      i < |e.details| && DetailAmount(e.details[i]).Some? && txns[i] == DetailTxn(e, i, dateOf, hash)
  }

  lemma CreditsAre(e: Entry, dateOf: DateOf, hash: Hash)
    ensures !Booked(e) ==> Credits(e, dateOf, hash) == []
    ensures Booked(e) && |e.details| <= 1 ==> Credits(e, dateOf, hash) == [SingleTxn(e, dateOf, hash)]
    ensures Booked(e) && |e.details| > 1 ==>
      |Credits(e, dateOf, hash)| == |e.details| && AreDetails(Credits(e, dateOf, hash), e, dateOf, hash)
    ensures Accepted(e) ==> Euros(e.sum).Some? && Euros(e.sum).value > 0
  {
    hide Euros, Folds, DetailTxn, DetailAmount, TrimSpace;
    DetailSumIsTotal(e.details);
  }

  // What a credit carries: the booking date, else that of the time stamp; the texts, name
  // and IBAN of its detail; and the amount of the entry, or in a batch the detail's own,
  // else the one stated with it.
  lemma CreditsCarry(e: Entry, i: nat, dateOf: DateOf, hash: Hash)
    requires i < |Credits(e, dateOf, hash)|
    ensures var t := Credits(e, dateOf, hash)[i];
      t.date == dateOf(if e.booked != "" || |e.bookedAt| < 10 then e.booked else e.bookedAt[..10])
    ensures i < |e.details| ==>
      var t, d := Credits(e, dateOf, hash)[i], e.details[i];
      t.reference == TrimSpace(Join(d.texts, " ")) && t.name == TrimSpace(d.name) && t.iban == NormIban(d.iban)
    ensures e.details == [] ==>
      var t := Credits(e, dateOf, hash)[i]; t.reference == "" && t.name == "" && t.iban == ""
    ensures |e.details| <= 1 ==> Some(Credits(e, dateOf, hash)[i].cents) == Euros(e.sum)
    ensures |e.details| > 1 ==>
      i < |e.details|
      && var d := e.details[i];
         Some(Credits(e, dateOf, hash)[i].cents) == Euros(if TrimSpace(d.own.value) != "" then d.own else d.inner)
  {
    hide Euros, Folds, TrimSpace, NormIban, Join, Itoa, BankReference, Tuple, Credits;
    CreditsAre(e, dateOf, hash);
    NothingTrims();
    if |e.details| <= 1 {
      assert Credits(e, dateOf, hash) == [SingleTxn(e, dateOf, hash)];
    }
  }

  lemma NothingTrims()
    ensures TrimSpace("") == "" && TrimSpace(Join([], " ")) == "" && NormIban("") == ""
  {
    assert TrimSpace("") == "";
  }

  // ----- conservation --------------------------------------------------------

  lemma {:induction false} BatchTotal(e: Entry, n: nat, txns: seq<Txn>, dateOf: DateOf, hash: Hash)
    requires n <= |e.details| && |txns| == n && AreDetails(txns, e, dateOf, hash)
    ensures DetailSum(e.details[..n]) == Some(Total(txns))
  {
    hide DetailAmount, TrimSpace, NormIban, Join, DateIn, Itoa, BankReference, Tuple;
    if n > 0 {
      BatchTotal(e, n - 1, txns[..n - 1], dateOf, hash);
      DetailSumNext(e.details, n - 1);
    }
  }

  // Each entry contributes exactly its own amount, whole or split, or nothing; and it
  // contributes nothing exactly when it is not a credit in euro or is a batch whose
  // details do not account for it.
  lemma EntryConserves(e: Entry, dateOf: DateOf, hash: Hash)
    ensures Booked(e) ==> Total(Credits(e, dateOf, hash)) == Euros(e.sum).value
    ensures Booked(e) <==> Credits(e, dateOf, hash) != []
    ensures Total(Credits(e, dateOf, hash)) == if Booked(e) then Euros(e.sum).value else 0
  {
    hide Euros, DetailTxn, DetailAmount, Credits, Folds, TrimSpace, NormIban, Join, DateIn, BankReference, Tuple;
    CreditsAre(e, dateOf, hash);
    NothingSums();
    var txns := Credits(e, dateOf, hash);
    if Booked(e) && |e.details| > 1 {
      BatchTotal(e, |e.details|, txns, dateOf, hash);
      assert e.details[..|e.details|] == e.details;
    } else if Booked(e) {
      TotalNext([], txns[0]);
      assert [] + [txns[0]] == txns;
    }
  }

  function BookedTotal(entries: seq<Entry>): int {
    if entries == [] then 0
    else
      var e := entries[|entries| - 1];
      BookedTotal(entries[..|entries| - 1]) + if Booked(e) then Euros(e.sum).value else 0
  }

  lemma {:induction false} TotalJoin(a: seq<Txn>, b: seq<Txn>)
    ensures Total(a + b) == Total(a) + Total(b)
  {
    if b == [] {
      assert a + b == a;
    } else {
      TotalJoin(a, b[..|b| - 1]);
      assert (a + b)[..|a + b| - 1] == a + b[..|b| - 1];
    }
  }

  lemma {:induction false} RenamingKeepsTotal(a: seq<Txn>, b: seq<Txn>)
    requires |a| == |b| && forall i :: 0 <= i < |a| ==> a[i].cents == b[i].cents
    ensures Total(a) == Total(b)
  {
    if a != [] {
      RenamingKeepsTotal(a[..|a| - 1], b[..|b| - 1]);
    }
  }

  // Over a whole message the money is conserved.
  lemma {:induction false} MessageConserves(entries: seq<Entry>, dateOf: DateOf, hash: Hash)
    ensures Total(Disambiguated(AllCredits(entries, dateOf, hash), hash)) == BookedTotal(entries)
  {
    hide Credits, Booked, Euros, Disambiguated, Numbered, HashesOf;
    RenamingKeepsTotal(AllCredits(entries, dateOf, hash), Disambiguated(AllCredits(entries, dateOf, hash), hash));
    if entries != [] {
      var init, e := entries[..|entries| - 1], entries[|entries| - 1];
      MessageConserves(init, dateOf, hash);
      RenamingKeepsTotal(AllCredits(init, dateOf, hash), Disambiguated(AllCredits(init, dateOf, hash), hash));
      TotalJoin(AllCredits(init, dateOf, hash), Credits(e, dateOf, hash));
      EntryConserves(e, dateOf, hash);
    }
  }

  // ----- hashes --------------------------------------------------------------

  lemma HashedOriginal(t: Txn, reference: string, suffix: string, hash: Hash)
    requires IsDate(t.date)
    ensures OfOriginal(Hashed(t, reference, suffix, hash).hash, hash)
  {
    hide Original, Tuple, BankReference;
    InputsAreApart(t, reference + suffix, "", 0);
  }

  lemma CreditsOriginal(e: Entry, dateOf: DateOf, hash: Hash)
    requires GivesDates(dateOf)
    ensures forall t :: t in Credits(e, dateOf, hash) ==> OfOriginal(t.hash, hash)
  {
    hide OfOriginal, Credits, TrimSpace, Join, NormIban, Hashed, DateIn, IsDate, Euros, DetailAmount, Accepted;
    CreditsAre(e, dateOf, hash);
    forall t | t in Credits(e, dateOf, hash) ensures OfOriginal(t.hash, hash) {
      if |e.details| > 1 {
        var i :| 0 <= i < |e.details| && t == DetailTxn(e, i, dateOf, hash);
        var d := e.details[i];
        HashedOriginal(Unhashed(e, d, DetailAmount(d).value, dateOf), TrimSpace(e.reference), "#" + Itoa(i), hash);
      } else {
        var d := if e.details == [] then Detail([], "", "", Sum("", ""), Sum("", "")) else e.details[0];
        HashedOriginal(Unhashed(e, d, Euros(e.sum).value, dateOf), TrimSpace(e.reference), "", hash);
      }
    }
  }

  // So the transactions of one message never collide.
  lemma {:induction false} MessageOriginals(entries: seq<Entry>, dateOf: DateOf, hash: Hash)
    requires GivesDates(dateOf)
    ensures Originals(HashesOf(AllCredits(entries, dateOf, hash)), hash)
  {
    hide OfOriginal, Credits;
    if entries != [] {
      var init, e := entries[..|entries| - 1], entries[|entries| - 1];
      MessageOriginals(init, dateOf, hash);
      CreditsOriginal(e, dateOf, hash);
      var all, before := AllCredits(entries, dateOf, hash), AllCredits(init, dateOf, hash);
      forall i | 0 <= i < |all| ensures OfOriginal(HashesOf(all)[i], hash) {
        if i < |before| {
          assert all[i] == before[i] && HashesOf(before)[i] == before[i].hash;
        } else {
          assert all[i] in Credits(e, dateOf, hash);
        }
      }
    }
  }

  lemma NoCollisions(entries: seq<Entry>, dateOf: DateOf, hash: Hash, i: nat, j: nat)
    requires Ideal(hash) && GivesDates(dateOf) && i < j < |AllCredits(entries, dateOf, hash)|
    ensures var txns := Disambiguated(AllCredits(entries, dateOf, hash), hash); txns[i].hash != txns[j].hash
  {
    hide AllCredits, Disambiguated, Numbered, HashesOf, Originals, Ideal;
    MessageOriginals(entries, dateOf, hash);
    NumberedDistinct(HashesOf(AllCredits(entries, dateOf, hash)), hash, i, j);
  }

  // The bank's own reference, with the position in a batch.
  function EntryKey(e: Entry, suffix: string): Option<string> {
    if TrimSpace(e.reference) == "" then None else Some(TrimSpace(e.reference) + suffix)
  }

  // What the credits of an entry are known by.
  function Keys(e: Entry): seq<Option<string>> {
    if !Booked(e) then []
    else if |e.details| <= 1 then [EntryKey(e, "")]
    else seq(|e.details|, i requires 0 <= i < |e.details| => EntryKey(e, "#" + Itoa(i)))
  }

  function AllKeys(entries: seq<Entry>): seq<Option<string>> {
    if entries == [] then [] else AllKeys(entries[..|entries| - 1]) + Keys(entries[|entries| - 1])
  }

  // Two details of batches have the same key exactly if they have the same place in
  // batches of the same reference.
  lemma BatchKeysAreApart(e: Entry, i: nat, f: Entry, j: nat)
    requires TrimSpace(e.reference) != "" && TrimSpace(f.reference) != ""
    ensures EntryKey(e, "#" + Itoa(i)) == EntryKey(f, "#" + Itoa(j)) <==>
      TrimSpace(e.reference) == TrimSpace(f.reference) && i == j
  {
    hide Itoa, TrimSpace, LastIndex;
    var r, q := TrimSpace(e.reference), TrimSpace(f.reference);
    LastHash(r, Itoa(i));
    LastHash(q, Itoa(j));
    ItoaInjective(i, j);
    if r + ("#" + Itoa(i)) == q + ("#" + Itoa(j)) {
      assert |r| == |q|;
      assert (r + ("#" + Itoa(i)))[..|r|] == r && (q + ("#" + Itoa(j)))[..|q|] == q;
      assert (r + ("#" + Itoa(i)))[|r| + 1..] == Itoa(i) && (q + ("#" + Itoa(j)))[|q| + 1..] == Itoa(j);
    }
  }

  lemma LastHash(s: string, digits: string)
    requires IsDigits(digits)
    ensures LastIndex(s + ("#" + digits), '#') == |s|
  {
    hide LastIndex;
    var t := s + ("#" + digits);
    forall k | |s| < k < |t| ensures t[k] != '#' {
      assert t[k] == digits[k - |s| - 1];
    }
    assert t[|s|] == '#';
  }

  lemma HashedInput(t: Txn, e: Entry, suffix: string, hash: Hash)
    ensures Hashed(t, TrimSpace(e.reference), suffix, hash).hash
         == hash(Input(Hashed(t, TrimSpace(e.reference), suffix, hash), EntryKey(e, suffix)))
    ensures Hashed(t, TrimSpace(e.reference), suffix, hash).date == t.date
  {
    hide TrimSpace, Fixed2;
  }

  lemma CreditsKeyed(e: Entry, dateOf: DateOf, hash: Hash)
    requires GivesDates(dateOf)
    ensures Keyed(Credits(e, dateOf, hash), Keys(e), hash)
  {
    hide TrimSpace, Join, NormIban, Hashed, DateIn, IsDate, Euros, DetailAmount, Accepted, Itoa, Input, EntryKey, Credits;
    CreditsAre(e, dateOf, hash);
    var txns := Credits(e, dateOf, hash);
    forall i | 0 <= i < |txns| ensures IsDate(txns[i].date) && txns[i].hash == hash(Input(txns[i], Keys(e)[i])) {
      if |e.details| > 1 {
        HashedInput(Unhashed(e, e.details[i], DetailAmount(e.details[i]).value, dateOf), e, "#" + Itoa(i), hash);
      } else {
        var d := if e.details == [] then Detail([], "", "", Sum("", ""), Sum("", "")) else e.details[0];
        HashedInput(Unhashed(e, d, Euros(e.sum).value, dateOf), e, "", hash);
      }
    }
  }

  lemma {:induction false} MessageKeyed(entries: seq<Entry>, dateOf: DateOf, hash: Hash)
    requires GivesDates(dateOf)
    ensures Keyed(AllCredits(entries, dateOf, hash), AllKeys(entries), hash)
  {
    hide Credits, Keys, Keyed;
    if entries == [] {
      assert Keyed([], [], hash) by {
        NothingKeyed(hash);
      }
    } else {
      var init, e := entries[..|entries| - 1], entries[|entries| - 1];
      MessageKeyed(init, dateOf, hash);
      CreditsKeyed(e, dateOf, hash);
      KeyedJoin(AllCredits(init, dateOf, hash), AllKeys(init), Credits(e, dateOf, hash), Keys(e), hash);
    }
  }

  lemma {:induction false} CreditsConcatenate(a: seq<Entry>, b: seq<Entry>, dateOf: DateOf, hash: Hash)
    ensures AllCredits(a + b, dateOf, hash) == AllCredits(a, dateOf, hash) + AllCredits(b, dateOf, hash)
  {
    hide Credits;
    if b == [] {
      assert a + b == a;
    } else {
      var init := b[..|b| - 1];
      CreditsConcatenate(a, init, dateOf, hash);
      assert (a + b)[..|a + b| - 1] == a + init;
    }
  }

  // Importing a message and then one that contains its entries, with more before or after
  // them, books exactly the additional transactions.
  lemma ContainingMessageAddsTheRest(pre: seq<Entry>, a: seq<Entry>, post: seq<Entry>, dateOf: DateOf, hash: Hash)
    requires Ideal(hash) && GivesDates(dateOf)
    ensures var was, now := AllCredits(a, dateOf, hash), AllCredits(pre + a + post, dateOf, hash);
      var known, all := KnownBy(Disambiguated(was, hash)), KnownBy(Disambiguated(now, hash));
      known <= all && |known| == |was| && |all - known| == |now| - |was|
  {
    hide AllCredits, Disambiguated, Numbered, HashesOf, Originals, Ideal, KnownBy;
    CreditsConcatenate(pre + a, post, dateOf, hash);
    CreditsConcatenate(pre, a, dateOf, hash);
    MessageOriginals(pre + a + post, dateOf, hash);
    ContainedAddsTheRest(AllCredits(pre, dateOf, hash), AllCredits(a, dateOf, hash), AllCredits(post, dateOf, hash), hash);
  }
}
