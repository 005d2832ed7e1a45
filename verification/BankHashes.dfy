// De-duplication of imported credits (internal/bankimport/bankimport.go): the hash of
// a transaction and the numbering of identical ones. SHA-256 in hex is taken to be an
// ideal hash, injective on what is hashed.
module BankHashes {
  import opened Wrappers
  import opened Numerals
  import Amounts
  import Text

  // The booking date is kept as it is formatted, YYYY-MM-DD.
  datatype Txn = Txn(date: string, cents: int, reference: string, name: string, iban: string, hash: string)

  type Hash = string -> string

  predicate HexChar(c: char) { '0' <= c <= '9' || 'a' <= c <= 'f' }

  predicate IsHex(s: string) { forall i :: 0 <= i < |s| ==> HexChar(s[i]) }

  ghost predicate Ideal(hash: Hash) {
    && (forall x, y {:trigger hash(x), hash(y)} :: hash(x) == hash(y) ==> x == y)
    && (forall x :: IsHex(hash(x)))
  }

  predicate IsDate(s: string) {
    |s| == 10 && s[4] == s[7] == '-' && IsDigits(s[..4]) && IsDigits(s[5..7]) && IsDigits(s[8..])
  }

  // What setHash hashes.
  function Tuple(t: Txn): string {
    t.date + "|" + Amounts.Fixed2(t.cents) + "|" + Text.TrimSpace(t.reference) + "|" + Text.TrimSpace(t.name)
  }

  // What a bank's own reference is hashed as.
  function BankReference(reference: string): string { "camt:acctsvcrref:" + reference }

  function DupInput(h: string, n: nat): string { h + "#dup" + Itoa(n) }

  // Not the hash of a duplicate: the first character that is no hex digit is no '#'.
  ghost predicate Original(x: string) {
    exists k :: 0 <= k < |x| && !HexChar(x[k]) && x[k] != '#' && IsHex(x[..k])
  }

  // The text part of a tuple.
  function Remark(t: Txn): string { Text.TrimSpace(t.reference) + "|" + Text.TrimSpace(t.name) }

  // Two credits are hashed alike exactly if day, amount and text agree.
  lemma TupleSaysAll(t: Txn, u: Txn)
    requires IsDate(t.date) && IsDate(u.date)
    ensures Tuple(t) == Tuple(u) <==> t.date == u.date && t.cents == u.cents && Remark(t) == Remark(u)
  {
    hide Text.TrimSpace, Amounts.Fixed2, Text.Cut, Remark;
    TupleParts(t);
    TupleParts(u);
    if Tuple(t) == Tuple(u) {
      Amounts.Fixed2Injective(t.cents, u.cents);
    }
    if t.date == u.date && t.cents == u.cents && Remark(t) == Remark(u) {
      RemarkOfTuple(t, u);
    }
  }

  lemma TupleParts(t: Txn)
    requires IsDate(t.date)
    ensures |Tuple(t)| > 11 && Tuple(t)[..10] == t.date
    ensures Text.Cut(Tuple(t)[11..], '|') == (Amounts.Fixed2(t.cents), Remark(t), true)
  {
    hide Text.TrimSpace, Amounts.Fixed2, Text.Cut;
    var amount, remark := Amounts.Fixed2(t.cents), Remark(t);
    Amounts.Fixed2IsPlain(t.cents);
    assert Tuple(t) == t.date + "|" + (amount + "|" + remark);
    assert Tuple(t)[11..] == amount + ['|'] + remark;
    Text.CutIs(Tuple(t)[11..], '|', amount, remark);
  }

  lemma RemarkOfTuple(t: Txn, u: Txn)
    requires t.date == u.date && t.cents == u.cents && Remark(t) == Remark(u)
    ensures Tuple(t) == Tuple(u)
  {
    hide Text.TrimSpace, Amounts.Fixed2;
    assert Tuple(t) == t.date + "|" + Amounts.Fixed2(t.cents) + "|" + Remark(t);
    assert Tuple(u) == u.date + "|" + Amounts.Fixed2(u.cents) + "|" + Remark(u);
  }

  // And the text says both of its parts, unless a reference holds the separator.
  lemma RemarkSaysBoth(t: Txn, u: Txn)
    requires '|' !in Text.TrimSpace(t.reference) && '|' !in Text.TrimSpace(u.reference)
    ensures Remark(t) == Remark(u) <==>
      Text.TrimSpace(t.reference) == Text.TrimSpace(u.reference) && Text.TrimSpace(t.name) == Text.TrimSpace(u.name)
  {
    hide Text.TrimSpace, Text.Cut;
    Text.CutIs(Remark(t), '|', Text.TrimSpace(t.reference), Text.TrimSpace(t.name));
    Text.CutIs(Remark(u), '|', Text.TrimSpace(u.reference), Text.TrimSpace(u.name));
  }

  lemma InputsAreApart(t: Txn, reference: string, h: string, n: nat)
    requires IsDate(t.date) && IsHex(h)
    ensures Original(Tuple(t)) && Original(BankReference(reference)) && !Original(DupInput(h, n))
    ensures Tuple(t) != BankReference(reference)
  {
    hide Itoa;
    hide Amounts.Fixed2, Text.TrimSpace;
    var tuple, camt := Tuple(t), BankReference(reference);
    assert tuple[..10] == t.date && t.date[..4] == tuple[..4] && tuple[4] == '-';
    assert forall i :: 0 <= i < 4 ==> tuple[..4][i] == t.date[..4][i];
    assert IsHex(tuple[..4]);
    assert camt[2] == 'm' && camt[..2] == "ca" && IsHex(camt[..2]);
    assert camt[4] == ':';
    DupIsNotOriginal(h, n);
  }

  lemma DupInputInjective(h: string, m: nat, g: string, n: nat)
    requires IsHex(h) && IsHex(g) && DupInput(h, m) == DupInput(g, n)
    ensures h == g && m == n
  {
    hide Itoa;
    var x := DupInput(h, m);
    assert x[|h|] == '#' && x[|g|] == '#';
    assert forall i :: 0 <= i < |h| ==> x[i] == h[i];
    assert forall i :: 0 <= i < |g| ==> x[i] == g[i];
    assert |h| == |g| && h == x[..|h|] == g;
    assert Itoa(m) == x[|h| + 4..] == Itoa(n);
    ItoaInjective(m, n);
  }

  // ----- numbering -----------------------------------------------------------

  // The hash of the (n+1)-th transaction whose own hash is h.
  function Name(h: string, n: nat, hash: Hash): string {
    if n == 0 then h else hash(DupInput(h, n))
  }

  function Earlier(hs: seq<string>, i: nat): nat
    requires i < |hs|
  {
    multiset(hs[..i])[hs[i]]
  }

  function Numbered(hs: seq<string>, hash: Hash): (r: seq<string>)
    ensures |r| == |hs| && forall i :: 0 <= i < |hs| ==> r[i] == Name(hs[i], Earlier(hs, i), hash)
  {
    seq(|hs|, i requires 0 <= i < |hs| => Name(hs[i], Earlier(hs, i), hash))
  }

  function Disambiguated(txns: seq<Txn>, hash: Hash): (r: seq<Txn>)
    ensures |r| == |txns|
    ensures forall i :: 0 <= i < |txns| ==> r[i] == txns[i].(hash := Numbered(HashesOf(txns), hash)[i])
  {
    seq(|txns|, i requires 0 <= i < |txns| => txns[i].(hash := Numbered(HashesOf(txns), hash)[i]))
  }

  function Count(seen: map<string, nat>, h: string): nat { if h in seen then seen[h] else 0 }

  ghost predicate Counts(seen: map<string, nat>, hs: seq<string>) {
    forall h {:trigger Count(seen, h)} :: Count(seen, h) == multiset(hs)[h]
  }

  lemma CountsNext(seen: map<string, nat>, hs: seq<string>, i: nat)
    requires i < |hs| && Counts(seen, hs[..i])
    ensures Counts(seen[hs[i] := Count(seen, hs[i]) + 1], hs[..i + 1])
  {
    var next := seen[hs[i] := Count(seen, hs[i]) + 1];
    assert hs[..i + 1] == hs[..i] + [hs[i]];
    forall h ensures Count(next, h) == multiset(hs[..i + 1])[h] {
      assert Count(seen, h) == multiset(hs[..i])[h];
    }
  }

  method DisambiguateDuplicateHashes(txns: array<Txn>, hash: Hash)
    modifies txns
    ensures txns[..] == Disambiguated(old(txns[..]), hash)
  {
    hide Numbered, HashesOf, Itoa, Disambiguated, Counts, DupInput, Name, Earlier, Count;
    ghost var before := txns[..];
    ghost var hs := HashesOf(before);
    var seen: map<string, nat> := map[];
    NothingCounted();
    assert hs[..0] == [];
    for i := 0 to txns.Length
      invariant Counts(seen, hs[..i])
      invariant forall k :: i <= k < txns.Length ==> txns[k] == before[k]
      invariant forall k :: 0 <= k < i ==> txns[k] == Disambiguated(before, hash)[k]
    {
      var h := txns[i].hash;
      var n := Count(seen, h);
      NextHash(seen, before, hash, i);
      if n > 0 {
        txns[i] := txns[i].(hash := hash(DupInput(h, n)));
      }
      CountsNext(seen, hs, i);
      seen := seen[h := n + 1];
    }
  }

  lemma NothingCounted()
    ensures Counts(map[], [])
  {}

  lemma NextHash(seen: map<string, nat>, txns: seq<Txn>, hash: Hash, i: nat)
    requires i < |txns| && Counts(seen, HashesOf(txns)[..i])
    ensures var n := Count(seen, txns[i].hash);
      Disambiguated(txns, hash)[i] == if n == 0 then txns[i] else txns[i].(hash := hash(DupInput(txns[i].hash, n)))
  {
    hide Itoa, DupInput;
  }

  function HashesOf(txns: seq<Txn>): (r: seq<string>)
    ensures |r| == |txns| && forall i :: 0 <= i < |txns| ==> r[i] == txns[i].hash
  {
    seq(|txns|, i requires 0 <= i < |txns| => txns[i].hash)
  }

  // ----- what the numbering gives --------------------------------------------

  // Every hash is that of an original input.
  ghost predicate Originals(hs: seq<string>, hash: Hash) {
    forall i :: 0 <= i < |hs| ==> OfOriginal(hs[i], hash)
  }

  ghost predicate OfOriginal(h: string, hash: Hash) {
    exists x :: Original(x) && h == hash(x)
  }

  lemma NameInjective(h: string, m: nat, g: string, n: nat, x: string, y: string, hash: Hash)
    requires Ideal(hash) && Original(x) && Original(y) && h == hash(x) && g == hash(y)
    requires Name(h, m, hash) == Name(g, n, hash)
    ensures h == g && m == n
  {
    hide Original, IsHex, DupInput;
    DupIsNotOriginal(h, m);
    DupIsNotOriginal(g, n);
    if m > 0 && n > 0 {
      DupInputInjective(h, m, g, n);
    }
  }

  lemma DupIsNotOriginal(h: string, n: nat)
    requires IsHex(h)
    ensures !Original(DupInput(h, n))
  {
    hide Itoa;
    var dup := DupInput(h, n);
    assert dup[|h|] == '#';
    forall k | 0 <= k < |h| ensures HexChar(dup[k]) {
      assert dup[k] == h[k];
    }
    forall k | |h| < k < |dup| ensures !IsHex(dup[..k]) {
      assert dup[..k][|h|] == '#';
    }
  }

  lemma EarlierGrows(hs: seq<string>, i: nat, j: nat)
    requires i < j < |hs| && hs[i] == hs[j]
    ensures Earlier(hs, i) < Earlier(hs, j)
  {
    assert hs[..j] == hs[..i] + [hs[i]] + hs[i + 1..j];
  }

  // The numbered hashes are pairwise different, and a first occurrence keeps its own.
  lemma NumberedDistinct(hs: seq<string>, hash: Hash, i: nat, j: nat)
    requires Ideal(hash) && Originals(hs, hash) && i < j < |hs|
    ensures Numbered(hs, hash)[i] != Numbered(hs, hash)[j]
    ensures hs[j] !in hs[..j] ==> Numbered(hs, hash)[j] == hs[j]
  {
    hide Ideal, Name, Original, Earlier;
    assert hs[j] !in hs[..j] ==> Earlier(hs, j) == 0 by {
      FirstHasNoEarlier(hs, j);
    }
    FirstName(hs[j], hash);
    if Numbered(hs, hash)[i] == Numbered(hs, hash)[j] {
      var x :| Original(x) && hs[i] == hash(x);
      var y :| Original(y) && hs[j] == hash(y);
      NameInjective(hs[i], Earlier(hs, i), hs[j], Earlier(hs, j), x, y, hash);
      EarlierGrows(hs, i, j);
    }
  }

  lemma FirstHasNoEarlier(hs: seq<string>, j: nat)
    requires j < |hs|
    ensures hs[j] !in hs[..j] ==> Earlier(hs, j) == 0
  {}

  lemma FirstName(h: string, hash: Hash)
    ensures Name(h, 0, hash) == h
  {}

  ghost predicate IsNumbered(hs: seq<string>, hash: Hash, name: string) {
    exists h, n: nat {:trigger Name(h, n, hash)} :: n < multiset(hs)[h] && name == Name(h, n, hash)
  }

  // Which hashes a file gives depends on how often each one occurs in it, not on the
  // order of its transactions.
  lemma NumberedExactly(hs: seq<string>, hash: Hash, name: string)
    ensures name in Numbered(hs, hash) <==> IsNumbered(hs, hash, name)
  {
    hide Name, Numbered;
    if name in Numbered(hs, hash) {
      var i :| 0 <= i < |hs| && Numbered(hs, hash)[i] == name;
      EarlierIsFewer(hs, i);
    }
    if IsNumbered(hs, hash, name) {
      var h, n: nat {:trigger Name(h, n, hash)} :| n < multiset(hs)[h] && name == Name(h, n, hash);
      var i := NthOccurrence(hs, h, n);
      assert Numbered(hs, hash)[i] == name;
    }
  }

  lemma EarlierIsFewer(hs: seq<string>, i: nat)
    requires i < |hs|
    ensures Earlier(hs, i) < multiset(hs)[hs[i]]
  {
    assert hs == hs[..i] + [hs[i]] + hs[i + 1..];
  }

  lemma {:induction false} NthOccurrence(hs: seq<string>, h: string, n: nat) returns (i: nat)
    requires n < multiset(hs)[h]
    ensures i < |hs| && hs[i] == h && Earlier(hs, i) == n
  {
    var last := |hs| - 1;
    assert hs == hs[..last] + [hs[last]];
    if hs[last] == h && multiset(hs[..last])[h] == n {
      i := last;
    } else {
      i := NthOccurrence(hs[..last], h, n);
      assert hs[..last][..i] == hs[..i];
    }
  }

  ghost function Stored(hs: seq<string>, hash: Hash): (r: set<string>)
    ensures forall name :: name in r <==> name in Numbered(hs, hash)
  {
    set name | name in Numbered(hs, hash)
  }

  // Importing a file and then any file that contains its transactions, in any order,
  // books exactly the additional ones: nothing twice, and nothing is lost.
  lemma ReimportAddsTheRest(a: seq<string>, b: seq<string>, hash: Hash)
    requires Ideal(hash) && Originals(b, hash) && multiset(a) <= multiset(b)
    ensures Stored(a, hash) <= Stored(b, hash)
    ensures |Stored(a, hash)| == |a| && |Stored(b, hash) - Stored(a, hash)| == |b| - |a|
  {
    hide Ideal, Name, Original, Numbered, Stored, IsNumbered;
    forall name | name in Stored(a, hash) ensures name in Stored(b, hash) {
      NumberedExactly(a, hash, name);
      NumberedExactly(b, hash, name);
      MoreNumbered(a, b, hash, name);
    }
    SubsetOriginals(a, b, hash);
    StoredCount(a, hash);
    StoredCount(b, hash);
    assert Stored(b, hash) == Stored(a, hash) + (Stored(b, hash) - Stored(a, hash));
  }

  lemma MoreNumbered(a: seq<string>, b: seq<string>, hash: Hash, name: string)
    requires multiset(a) <= multiset(b)
    ensures IsNumbered(a, hash, name) ==> IsNumbered(b, hash, name)
  {}

  lemma SubsetOriginals(a: seq<string>, b: seq<string>, hash: Hash)
    requires Originals(b, hash) && multiset(a) <= multiset(b)
    ensures Originals(a, hash)
  {
    hide OfOriginal;
    forall i | 0 <= i < |a| ensures OfOriginal(a[i], hash) {
      assert a[i] in multiset(a) && a[i] in multiset(b);
    }
  }

  lemma StoredCount(hs: seq<string>, hash: Hash)
    requires Ideal(hash) && Originals(hs, hash)
    ensures |Stored(hs, hash)| == |hs|
  {
    hide Ideal, Originals;
    var names := Numbered(hs, hash);
    forall i, j | 0 <= i < j < |names| ensures names[i] != names[j] {
      NumberedDistinct(hs, hash, i, j);
    }
    DistinctCount(names, Stored(hs, hash));
  }

  lemma {:induction false} DistinctCount(names: seq<string>, all: set<string>)
    requires forall i, j :: 0 <= i < j < |names| ==> names[i] != names[j]
    requires forall name :: name in all <==> name in names
    ensures |all| == |names|
  {
    if names == [] {
      assert all == {};
    } else {
      var init, last := names[..|names| - 1], names[|names| - 1];
      assert names == init + [last];
      DistinctCount(init, all - {last});
    }
  }

  // What the bookings are known by.
  ghost function KnownBy(txns: seq<Txn>): (r: set<string>)
    ensures forall h :: h in r <==> exists i :: 0 <= i < |txns| && txns[i].hash == h
  {
    set i | 0 <= i < |txns| :: txns[i].hash
  }

  // The same for the transactions of a file among those of another.
  lemma ContainedAddsTheRest(pre: seq<Txn>, a: seq<Txn>, post: seq<Txn>, hash: Hash)
    requires Ideal(hash) && Originals(HashesOf(pre + a + post), hash)
    ensures var was, now := KnownBy(Disambiguated(a, hash)), KnownBy(Disambiguated(pre + a + post, hash));
      was <= now && |was| == |a| && |now - was| == |pre| + |post|
  {
    hide Ideal, Originals, Numbered, Disambiguated, HashesOf;
    var all := pre + a + post;
    var h, k, t := HashesOf(pre), HashesOf(a), HashesOf(post);
    assert HashesOf(all) == h + k + t;
    assert multiset(k) <= multiset(h + k + t);
    ReimportAddsTheRest(k, HashesOf(all), hash);
    KnownIsStored(a, hash);
    KnownIsStored(all, hash);
  }

  lemma KnownIsStored(txns: seq<Txn>, hash: Hash)
    ensures KnownBy(Disambiguated(txns, hash)) == Stored(HashesOf(txns), hash)
  {
    hide Numbered;
    var named, done := Numbered(HashesOf(txns), hash), Disambiguated(txns, hash);
    assert forall i :: 0 <= i < |txns| ==> done[i].hash == named[i];
    forall name | name in KnownBy(done) ensures name in named {
      var i :| 0 <= i < |done| && done[i].hash == name;
    }
    forall name | name in named ensures name in KnownBy(done) {
      var i :| 0 <= i < |named| && named[i] == name;
      assert done[i].hash == name;
    }
  }

  // ----- which credits are taken for the same ---------------------------------

  // What is hashed for a credit that the bank has given this reference, or none.
  function Input(t: Txn, key: Option<string>): string {
    match key
    case Some(reference) => BankReference(reference)
    case None => Tuple(t)
  }

  // The credits of a file before the numbering, with the references they are known by.
  ghost predicate Keyed(txns: seq<Txn>, keys: seq<Option<string>>, hash: Hash) {
    |keys| == |txns|
    && forall i :: 0 <= i < |txns| ==> IsDate(txns[i].date) && txns[i].hash == hash(Input(txns[i], keys[i]))
  }

  // The same bank reference, or without one the same day, amount and text.
  predicate SameCredit(t: Txn, key: Option<string>, u: Txn, other: Option<string>) {
    if key.Some? || other.Some? then key == other
    else t.date == u.date && t.cents == u.cents && Remark(t) == Remark(u)
  }

  lemma SameInputExactly(t: Txn, key: Option<string>, u: Txn, other: Option<string>)
    requires IsDate(t.date) && IsDate(u.date)
    ensures Input(t, key) == Input(u, other) <==> SameCredit(t, key, u, other)
    ensures Original(Input(t, key))
  {
    hide Tuple, BankReference, Original, Remark;
    TupleSaysAll(t, u);
    InputsAreApart(t, if key.Some? then key.value else "", "", 0);
    if other.Some? {
      InputsAreApart(t, other.value, "", 0);
    }
    if key.Some? {
      InputsAreApart(u, key.value, "", 0);
      if other.Some? {
        BankReferenceInjective(key.value, other.value);
      }
    }
  }

  lemma BankReferenceInjective(reference: string, other: string)
    ensures BankReference(reference) == BankReference(other) ==> reference == other
  {
    var n := |"camt:acctsvcrref:"|;
    assert BankReference(reference)[n..] == reference && BankReference(other)[n..] == other;
  }

  lemma NamedAs(txns: seq<Txn>, i: nat, hash: Hash)
    requires i < |txns|
    ensures Disambiguated(txns, hash)[i].hash == Name(txns[i].hash, Earlier(HashesOf(txns), i), hash)
  {
    hide Name, Earlier;
  }

  lemma IdealInjective(hash: Hash, x: string, y: string)
    requires Ideal(hash) && hash(x) == hash(y)
    ensures x == y
  {}

  lemma NothingKeyed(hash: Hash)
    ensures Keyed([], [], hash)
  {}

  lemma KeyedJoin(a: seq<Txn>, ka: seq<Option<string>>, b: seq<Txn>, kb: seq<Option<string>>, hash: Hash)
    requires Keyed(a, ka, hash) && Keyed(b, kb, hash)
    ensures Keyed(a + b, ka + kb, hash)
  {
    hide IsDate, Input;
  }

  // How many of its kind precede a credit.
  lemma {:induction false} EarlierCounts(txns: seq<Txn>, keys: seq<Option<string>>, i: nat, n: nat, hash: Hash)
    requires Ideal(hash) && Keyed(txns, keys, hash) && n <= i < |txns|
    ensures multiset(HashesOf(txns)[..n])[txns[i].hash] == |SameBefore(txns, keys, i, n)|
    ensures n == i ==> Earlier(HashesOf(txns), i) == |SameBefore(txns, keys, i, i)|
  {
    hide Ideal, Input, SameCredit;
    if n == 0 {
      assert HashesOf(txns)[..0] == [];
    } else {
      EarlierCounts(txns, keys, i, n - 1, hash);
      assert HashesOf(txns)[..n] == HashesOf(txns)[..n - 1] + [txns[n - 1].hash];
      SameInputExactly(txns[n - 1], keys[n - 1], txns[i], keys[i]);
      if hash(Input(txns[n - 1], keys[n - 1])) == hash(Input(txns[i], keys[i])) {
        IdealInjective(hash, Input(txns[n - 1], keys[n - 1]), Input(txns[i], keys[i]));
      }
      SameBeforeNext(txns, keys, i, n - 1);
    }
  }

  // The positions among the first n that hold the credit at i.
  function SameBefore(txns: seq<Txn>, keys: seq<Option<string>>, i: nat, n: nat): set<nat>
    requires |keys| == |txns| && n <= i < |txns|
  {
    set k: nat | k < n && SameCredit(txns[k], keys[k], txns[i], keys[i])
  }

  lemma SameBeforeNext(txns: seq<Txn>, keys: seq<Option<string>>, i: nat, n: nat)
    requires |keys| == |txns| && n < i < |txns|
    ensures |SameBefore(txns, keys, i, n + 1)| ==
      |SameBefore(txns, keys, i, n)| + if SameCredit(txns[n], keys[n], txns[i], keys[i]) then 1 else 0
  {
    hide SameCredit;
    assert SameBefore(txns, keys, i, n + 1) ==
      SameBefore(txns, keys, i, n) + if SameCredit(txns[n], keys[n], txns[i], keys[i]) then {n} else {};
  }

  // For any two imports: a credit of one is known by the hash of a credit of the other
  // exactly if they are the same credit, and as many of that kind precede them.
  lemma SameHashExactly(a: seq<Txn>, ka: seq<Option<string>>, i: nat, b: seq<Txn>, kb: seq<Option<string>>, j: nat, hash: Hash)
    requires Ideal(hash) && Keyed(a, ka, hash) && Keyed(b, kb, hash) && i < |a| && j < |b|
    ensures Disambiguated(a, hash)[i].hash == Disambiguated(b, hash)[j].hash <==>
      SameCredit(a[i], ka[i], b[j], kb[j]) && |SameBefore(a, ka, i, i)| == |SameBefore(b, kb, j, j)|
  {
    hide Ideal, Original, Input, SameCredit, Earlier, Name, SameBefore, Disambiguated;
    EarlierCounts(a, ka, i, i, hash);
    EarlierCounts(b, kb, j, j, hash);
    var x, y := Input(a[i], ka[i]), Input(b[j], kb[j]);
    SameInputExactly(a[i], ka[i], b[j], kb[j]);
    SameInputExactly(b[j], kb[j], a[i], ka[i]);
    var m, n := Earlier(HashesOf(a), i), Earlier(HashesOf(b), j);
    NamedAs(a, i, hash);
    NamedAs(b, j, hash);
    if Name(hash(x), m, hash) == Name(hash(y), n, hash) {
      NameInjective(hash(x), m, hash(y), n, x, y, hash);
      IdealInjective(hash, x, y);
    }
  }
}
