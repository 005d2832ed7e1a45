// iCalendar content lines (internal/server/calendar.go): folding and text escaping,
// against sections 3.1 and 3.3.11 of RFC 5545.
module Calendar {
  import opened Wrappers

  type Byte = x: int | 0 <= x < 256

  type Bytes = seq<Byte>

  const CR: Byte := 13
  const LF: Byte := 10
  const SPACE: Byte := 32
  const FOLD: Bytes := [CR, LF, SPACE]

  // utf8.RuneStart
  predicate RuneStart(b: Byte) { !(0x80 <= b < 0xC0) }

  // The bytes behind p up to p + n are there and are all continuation bytes.
  predicate Run(line: Bytes, p: nat, n: nat) {
    p + n < |line| && forall k :: p < k <= p + n ==> !RuneStart(line[k])
  }

  // Somewhere behind the first byte a byte is followed by 74 continuation bytes.
  ghost predicate Stuck(line: Bytes) {
    exists p :: 1 <= p && Run(line, p, 74)
  }

  // Where the search for a cut ends: the last rune start up to limit, or 0.
  function CutAt(line: Bytes, limit: nat): (r: nat)
    requires limit < |line|
    ensures r <= limit && (r == 0 || RuneStart(line[r]))
    ensures forall k :: r < k <= limit ==> !RuneStart(line[k])
  {
    if limit == 0 || RuneStart(line[limit]) then limit else CutAt(line, limit - 1)
  }

  // A line cut into pieces and put together with folds.
  function Folded(pieces: seq<Bytes>): Bytes
    requires pieces != []
  {
    if |pieces| == 1 then pieces[0] else Folded(pieces[..|pieces| - 1]) + FOLD + pieces[|pieces| - 1]
  }

  function Joined(pieces: seq<Bytes>): Bytes {
    if pieces == [] then [] else Joined(pieces[..|pieces| - 1]) + pieces[|pieces| - 1]
  }

  // No piece is longer than a physical line allows, and none but the first begins
  // inside a code point.
  ghost predicate Fits(pieces: seq<Bytes>) {
    forall i :: 0 <= i < |pieces| ==>
      if i == 0 then |pieces[0]| <= 75 else 0 < |pieces[i]| <= 74 && RuneStart(pieces[i][0])
  }

  // Why a cut at the start of the line is the end of all progress: the next round
  // looks at the same bytes with the smaller limit and cuts at the start again.
  lemma NoProgress(line: Bytes, limit: nat)
    requires limit == 74 || limit == 75
    requires limit < |line| && CutAt(line, limit) == 0
    ensures CutAt(line, 74) == 0
  {}

  // The loop makes n rounds from here, at least.
  ghost predicate Rounds(rest: Bytes, limit: nat, n: nat)
    decreases n
  {
    n == 0 || (|rest| > limit && Rounds(rest[CutAt(rest, limit)..], 74, n - 1))
  }

  // It never ends.
  ghost predicate Diverges(line: Bytes) { forall n: nat :: Rounds(line, 75, n) }

  lemma {:induction false} RepeatsForever(rest: Bytes, limit: nat, n: nat)
    requires limit == 74 || limit == 75
    requires limit < |rest| && CutAt(rest, limit) == 0
    ensures Rounds(rest, limit, n)
    decreases n
  {
    hide CutAt;
    NoProgress(rest, limit);
    if n > 0 {
      RepeatsForever(rest, 74, n - 1);
      assert rest[0..] == rest;
    }
  }

  // The loop has come from the whole line to rest in this many rounds.
  ghost predicate Reached(line: Bytes, rounds: nat, rest: Bytes, limit: nat) {
    forall n: nat {:trigger Rounds(rest, limit, n)} :: Rounds(line, 75, rounds + n) <==> Rounds(rest, limit, n)
  }

  lemma ReachedNext(line: Bytes, rounds: nat, rest: Bytes, limit: nat)
    requires Reached(line, rounds, rest, limit) && limit < |rest|
    ensures Reached(line, rounds + 1, rest[CutAt(rest, limit)..], 74)
  {
    hide CutAt;
    var next := rest[CutAt(rest, limit)..];
    forall n: nat ensures Rounds(line, 75, rounds + 1 + n) <==> Rounds(next, 74, n) {
      assert Rounds(rest, limit, n + 1) <==> Rounds(next, 74, n);
      assert rounds + (n + 1) == rounds + 1 + n;
    }
  }

  lemma ReachedStuck(line: Bytes, rounds: nat, rest: Bytes, limit: nat)
    requires Reached(line, rounds, rest, limit) && (limit == 74 || limit == 75)
    requires limit < |rest| && CutAt(rest, limit) == 0
    ensures Diverges(line)
  {
    hide CutAt;
    forall n: nat ensures Rounds(line, 75, n) {
      RepeatsForever(rest, limit, n);
      assert Rounds(line, 75, rounds + n);
      FewerRounds(line, 75, n, rounds + n);
    }
  }

  lemma {:induction false} FewerRounds(rest: Bytes, limit: nat, m: nat, n: nat)
    requires Rounds(rest, limit, n) && m <= n
    ensures Rounds(rest, limit, m)
    decreases n
  {
    hide CutAt;
    if m > 0 {
      FewerRounds(rest[CutAt(rest, limit)..], 74, m - 1, n - 1);
    }
  }

  lemma ReachedEnd(line: Bytes, rounds: nat, rest: Bytes, limit: nat)
    requires Reached(line, rounds, rest, limit) && |rest| <= limit
    ensures !Diverges(line)
  {
    assert !Rounds(rest, limit, 1);
    assert !Rounds(line, 75, rounds + 1);
  }

  lemma ReachedStart(line: Bytes)
    ensures Reached(line, 0, line, 75)
  {}

  lemma StuckHere(line: Bytes, at: nat, limit: nat)
    requires at < |line| && limit == (if at == 0 then 75 else 74) && limit < |line[at..]|
    requires CutAt(line[at..], limit) == 0
    ensures Stuck(line)
  {
    assert forall k :: 0 < k <= limit ==> line[at..][k] == line[at + k];
    if at == 0 {
      assert Run(line, 1, 74);
    } else {
      forall k | at < k <= at + 74 ensures !RuneStart(line[k]) {
        assert line[at..][k - at] == line[k];
      }
      assert Run(line, at, 74);
    }
  }

  // A run that could stop the loop is still ahead.
  ghost predicate Ahead(line: Bytes, at: nat) {
    exists p :: 1 <= p && at <= p && Run(line, p, 74)
  }

  lemma RunStaysAhead(line: Bytes, at: nat, cut: nat, limit: nat)
    requires Ahead(line, at) && 0 < cut <= limit == (if at == 0 then 75 else 74)
    requires at + cut < |line| && RuneStart(line[at + cut])
    ensures Ahead(line, at + cut)
  {
    var p :| 1 <= p && at <= p && Run(line, p, 74);
  }

  lemma PieceAdded(pieces: seq<Bytes>, piece: Bytes)
    ensures Joined(pieces + [piece]) == Joined(pieces) + piece
    ensures Folded(pieces + [piece]) == if pieces == [] then piece else Folded(pieces) + FOLD + piece
  {
    assert (pieces + [piece])[..|pieces|] == pieces;
  }

  // What the loop has written before byte at.
  ghost predicate Written(line: Bytes, at: nat, buf: Bytes, pieces: seq<Bytes>) {
    && at <= |line| && Joined(pieces) == line[..at] && Fits(pieces)
    && (at == 0 <==> pieces == [])
    && (at > 0 ==> at < |line| && RuneStart(line[at]))
    && buf == (if pieces == [] then [] else Folded(pieces) + FOLD)
  }

  lemma WrittenNext(line: Bytes, at: nat, cut: nat, buf: Bytes, pieces: seq<Bytes>)
    requires Written(line, at, buf, pieces)
    requires 0 < cut <= (if at == 0 then 75 else 74) && at + cut < |line| && RuneStart(line[at + cut])
    ensures Written(line, at + cut, buf + line[at..at + cut] + FOLD, pieces + [line[at..at + cut]])
  {
    hide Joined, Folded;
    PieceAdded(pieces, line[at..at + cut]);
    assert line[..at] + line[at..at + cut] == line[..at + cut];
  }

  lemma WrittenLast(line: Bytes, at: nat, buf: Bytes, pieces: seq<Bytes>)
    requires Written(line, at, buf, pieces) && |line| - at <= (if at == 0 then 75 else 74)
    ensures var all := pieces + [line[at..]]; buf + line[at..] == Folded(all) && Joined(all) == line && Fits(all)
  {
    hide Joined, Folded;
    PieceAdded(pieces, line[at..]);
    assert line[..at] + line[at..] == line;
  }

  method FindCut(rest: Bytes, limit: nat) returns (cut: nat)
    requires limit < |rest|
    ensures cut == CutAt(rest, limit)
  {
    cut := limit;
    while cut > 0 && !RuneStart(rest[cut])
      invariant cut <= limit && CutAt(rest, cut) == CutAt(rest, limit)
    {
      cut := cut - 1;
    }
  }

  // icsLine on a buffer: what it appends, or None when it never returns.
  method IcsLine(line: Bytes) returns (r: Option<Bytes>, ghost pieces: seq<Bytes>)
    ensures r.None? <==> Diverges(line)
    ensures r.Some? <==> !Stuck(line)
    ensures r.Some? ==> pieces != [] && r.value == Folded(pieces) + [CR, LF] && Joined(pieces) == line && Fits(pieces)
  {
    hide Ahead, Stuck, Folded, Joined, CutAt, Run, Fits, Written, Reached, Diverges, Rounds;
    var buf, rest, limit := [], line, 75;
    pieces := [];
    ghost var at, rounds := 0, 0;
    Start(line);
    ReachedStart(line);
    while |rest| > limit
      invariant at <= |line| && rest == line[at..] && Written(line, at, buf, pieces)
      invariant limit == if at == 0 then 75 else 74
      invariant Reached(line, rounds, rest, limit)
      invariant Stuck(line) ==> Ahead(line, at)
      decreases |rest|
    {
      var cut := FindCut(rest, limit);
      if cut == 0 {
        StuckHere(line, at, limit);
        ReachedStuck(line, rounds, rest, limit);
        return None, [];
      }
      assert rest[cut] == line[at + cut] && rest[..cut] == line[at..at + cut] && rest[cut..] == line[at + cut..];
      WrittenNext(line, at, cut, buf, pieces);
      if Stuck(line) {
        RunStaysAhead(line, at, cut, limit);
      }
      ReachedNext(line, rounds, rest, limit);
      rounds := rounds + 1;
      buf := buf + rest[..cut] + FOLD;
      pieces := pieces + [rest[..cut]];
      rest := rest[cut..];
      limit := 74;
      at := at + cut;
    }
    NothingAhead(line, at, limit);
    ReachedEnd(line, rounds, rest, limit);
    WrittenLast(line, at, buf, pieces);
    buf := buf + rest;
    pieces := pieces + [rest];
    r := Some(buf + [CR, LF]);
  }

  lemma Start(line: Bytes)
    ensures Written(line, 0, [], []) && (Stuck(line) ==> Ahead(line, 0))
  {}

  lemma NothingAhead(line: Bytes, at: nat, limit: nat)
    requires at <= |line| && limit == (if at == 0 then 75 else 74) && |line| - at <= limit
    ensures !Ahead(line, at)
  {}

  // A line of one letter and 75 continuation bytes is one that never gets folded.
  lemma ContinuationsNeverFold(line: Bytes)
    requires |line| == 76 && line[0] == 0x61 && forall i :: 1 <= i < 76 ==> line[i] == 0x80
    ensures Stuck(line)
  {
    assert Run(line, 1, 74);
  }

  // ----- unfolding (section 3.1) ---------------------------------------------

  // Removes every line break that a space or a tab follows, with that character.
  function Unfold(s: Bytes): Bytes {
    if |s| >= 3 && s[0] == CR && s[1] == LF && (s[2] == SPACE || s[2] == 9) then Unfold(s[3..])
    else if s == [] then [] else [s[0]] + Unfold(s[1..])
  }

  ghost predicate NoBreaks(s: Bytes) { forall i :: 0 <= i < |s| ==> s[i] != CR && s[i] != LF }

  lemma {:induction false} UnfoldPlain(a: Bytes, t: Bytes)
    requires NoBreaks(a)
    ensures Unfold(a + t) == a + Unfold(t)
  {
    if a == [] {
      assert a + t == t;
    } else {
      UnfoldPlain(a[1..], t);
      assert (a + t)[1..] == a[1..] + t;
    }
  }

  lemma {:induction false} UnfoldPieces(pieces: seq<Bytes>, t: Bytes)
    requires pieces != [] && forall i :: 0 <= i < |pieces| ==> NoBreaks(pieces[i])
    ensures Unfold(Folded(pieces) + t) == Joined(pieces) + Unfold(t)
  {
    hide NoBreaks, Unfold, Folded, Joined;
    var init, last := pieces[..|pieces| - 1], pieces[|pieces| - 1];
    assert pieces == init + [last];
    PieceAdded(init, last);
    UnfoldPlain(last, t);
    if init != [] {
      UnfoldPieces(init, FOLD + (last + t));
      UnfoldFold(last + t);
      FourParts(Folded(init), FOLD, last, t);
      FourParts(Joined(init), [], last, Unfold(t));
      assert Joined(init) + [] == Joined(init) && [] + (last + Unfold(t)) == last + Unfold(t);
    } else {
      NothingJoined();
      assert [] + last == last;
    }
  }

  lemma NothingJoined()
    ensures Joined([]) == []
  {}

  lemma FourParts(a: Bytes, b: Bytes, c: Bytes, d: Bytes)
    ensures a + b + c + d == a + (b + (c + d))
  {}

  lemma UnfoldFold(t: Bytes)
    ensures Unfold(FOLD + t) == Unfold(t)
  {
    assert (FOLD + t)[3..] == t;
  }

  lemma {:induction false} PiecesHaveNoBreaks(pieces: seq<Bytes>)
    requires NoBreaks(Joined(pieces))
    ensures forall i :: 0 <= i < |pieces| ==> NoBreaks(pieces[i])
  {
    if pieces != [] {
      var init, last := pieces[..|pieces| - 1], pieces[|pieces| - 1];
      assert forall k :: 0 <= k < |init| ==> init[k] == pieces[k];
      assert NoBreaks(Joined(init)) by {
        assert forall k :: 0 <= k < |Joined(init)| ==> Joined(pieces)[k] == Joined(init)[k];
      }
      assert NoBreaks(last) by {
        assert forall k :: 0 <= k < |last| ==> Joined(pieces)[|Joined(init)| + k] == last[k];
      }
      PiecesHaveNoBreaks(init);
    }
  }

  // Unfolding what was written gives the line back.
  lemma UnfoldReturnsLine(line: Bytes, pieces: seq<Bytes>)
    requires NoBreaks(line) && pieces != [] && Joined(pieces) == line
    ensures Unfold(Folded(pieces) + [CR, LF]) == line + [CR, LF]
  {
    hide NoBreaks;
    PiecesHaveNoBreaks(pieces);
    UnfoldPieces(pieces, [CR, LF]);
    UnfoldEnd();
  }

  lemma UnfoldEnd()
    ensures Unfold([CR, LF]) == [CR, LF]
  {
    assert [LF][1..] == [] && Unfold([LF]) == [LF];
    assert [CR, LF][1..] == [LF];
  }

  // ----- line length ---------------------------------------------------------

  // The octets since the last line feed.
  function Column(s: Bytes): nat {
    if s == [] || s[|s| - 1] == LF then 0 else Column(s[..|s| - 1]) + 1
  }

  // Every octet of a physical line, its break excluded, is one of the first 75.
  ghost predicate Short(s: Bytes) {
    forall i :: 0 <= i < |s| && s[i] != CR && s[i] != LF ==> Column(s[..i + 1]) <= 75
  }

  lemma {:induction false} ColumnGrows(a: Bytes, b: Bytes)
    requires NoBreaks(b)
    ensures Column(a + b) == Column(a) + |b|
  {
    if b == [] {
      assert a + b == a;
    } else {
      ColumnGrows(a, b[..|b| - 1]);
      assert (a + b)[..|a + b| - 1] == a + b[..|b| - 1];
    }
  }

  lemma ShortGrows(a: Bytes, b: Bytes)
    requires Short(a) && NoBreaks(b) && Column(a) + |b| <= 75
    ensures Short(a + b) && Column(a + b) == Column(a) + |b|
  {
    hide Column;
    ColumnGrows(a, b);
    forall i | 0 <= i < |a + b| && (a + b)[i] != CR && (a + b)[i] != LF ensures Column((a + b)[..i + 1]) <= 75 {
      if i < |a| {
        assert (a + b)[..i + 1] == a[..i + 1];
      } else {
        var k := i + 1 - |a|;
        assert (a + b)[..i + 1] == a + b[..k];
        ColumnGrows(a, b[..k]);
      }
    }
  }

  lemma ShortBreaks(a: Bytes)
    requires Short(a)
    ensures Short(a + [CR, LF]) && Column(a + [CR, LF]) == 0
  {
    hide Column;
    var s := a + [CR, LF];
    forall i | 0 <= i < |s| && s[i] != CR && s[i] != LF ensures Column(s[..i + 1]) <= 75 {
      assert s[..i + 1] == a[..i + 1];
    }
    EndsLine(s);
  }

  lemma EndsLine(s: Bytes)
    requires s != [] && s[|s| - 1] == LF
    ensures Column(s) == 0
  {}

  lemma {:induction false} FoldedIsShort(pieces: seq<Bytes>)
    requires pieces != [] && Fits(pieces) && forall i :: 0 <= i < |pieces| ==> NoBreaks(pieces[i])
    ensures Short(Folded(pieces))
  {
    hide Column, Short, NoBreaks;
    Nothing();
    var init, last := pieces[..|pieces| - 1], pieces[|pieces| - 1];
    if init == [] {
      ShortGrows([], last);
      assert [] + last == last;
    } else {
      FoldedIsShort(init);
      ShortBreaks(Folded(init));
      var s := Folded(init) + [CR, LF];
      ShortGrows(s, [SPACE]);
      ShortGrows(s + [SPACE], last);
      assert Folded(init) + FOLD + last == s + [SPACE] + last;
    }
  }

  lemma Nothing()
    ensures Short([]) && Column([]) == 0 && NoBreaks([SPACE])
  {}

  lemma WrittenIsShort(line: Bytes, pieces: seq<Bytes>)
    requires NoBreaks(line) && pieces != [] && Joined(pieces) == line && Fits(pieces)
    ensures Short(Folded(pieces) + [CR, LF])
  {
    hide Short, NoBreaks, Fits;
    PiecesHaveNoBreaks(pieces);
    FoldedIsShort(pieces);
    ShortBreaks(Folded(pieces));
  }

  // ----- UTF-8 ---------------------------------------------------------------

  predicate Within(s: Bytes, i: nat, low: Byte, high: Byte) { i < |s| && low <= s[i] <= high }

  // The length of the well-formed sequence s begins with, or 0.
  function Width(s: Bytes): (r: nat)
    ensures r <= |s| && r <= 4
    ensures r > 0 ==> RuneStart(s[0]) && forall k :: 1 <= k < r ==> !RuneStart(s[k])
  {
    if Within(s, 0, 0, 0x7F) then 1
    else if Within(s, 0, 0xC2, 0xDF) && Within(s, 1, 0x80, 0xBF) then 2
    else if (|| (Within(s, 0, 0xE0, 0xE0) && Within(s, 1, 0xA0, 0xBF))
             || (Within(s, 0, 0xE1, 0xEC) && Within(s, 1, 0x80, 0xBF))
             || (Within(s, 0, 0xED, 0xED) && Within(s, 1, 0x80, 0x9F))
             || (Within(s, 0, 0xEE, 0xEF) && Within(s, 1, 0x80, 0xBF))) && Within(s, 2, 0x80, 0xBF) then 3
    else if (|| (Within(s, 0, 0xF0, 0xF0) && Within(s, 1, 0x90, 0xBF))
             || (Within(s, 0, 0xF1, 0xF3) && Within(s, 1, 0x80, 0xBF))
             || (Within(s, 0, 0xF4, 0xF4) && Within(s, 1, 0x80, 0x8F)))
            && Within(s, 2, 0x80, 0xBF) && Within(s, 3, 0x80, 0xBF) then 4
    else 0
  }

  predicate Utf8(s: Bytes) {
    s == [] || (Width(s) > 0 && Utf8(s[Width(s)..]))
  }

  // A Unicode scalar value, and its encoding (section 3 of RFC 3629).
  type Rune = c: int | 0 <= c < 0xD800 || 0xE000 <= c <= 0x10FFFF

  function EncodeRune(c: Rune): (r: Bytes)
    ensures 1 <= |r| <= 4
  {
    if c < 0x80 then [c]
    else if c < 0x800 then [0xC0 + c / 64, 0x80 + c % 64]
    else if c < 0x10000 then [0xE0 + c / 4096, 0x80 + c / 64 % 64, 0x80 + c % 64]
    else [0xF0 + c / 262144, 0x80 + c / 4096 % 64, 0x80 + c / 64 % 64, 0x80 + c % 64]
  }

  function Encode(text: seq<Rune>): Bytes {
    if text == [] then [] else EncodeRune(text[0]) + Encode(text[1..])
  }

  lemma WidthOfRune(c: Rune, rest: Bytes)
    ensures Width(EncodeRune(c) + rest) == |EncodeRune(c)|
  {
    var s := EncodeRune(c) + rest;
    assert forall k :: 0 <= k < |EncodeRune(c)| ==> s[k] == EncodeRune(c)[k];
    if 0x800 <= c < 0x10000 {
      assert c / 64 / 64 == c / 4096;
    } else if c >= 0x10000 {
      assert c / 4096 / 64 == c / 262144;
    }
  }

  lemma RuneOfWidth(s: Bytes) returns (c: Rune)
    requires Width(s) > 0
    ensures EncodeRune(c) == s[..Width(s)]
  {
    if Width(s) == 1 {
      c := s[0];
    } else if Width(s) == 2 {
      var a: int, b: int := s[0], s[1];
      c := (a - 0xC0) * 64 + (b - 0x80);
      assert s[..2] == [s[0], s[1]];
    } else if Width(s) == 3 {
      c := RuneOfThree(s);
    } else {
      c := RuneOfFour(s);
    }
  }

  // The number with these digits to the base of 64.
  lemma Digits64(x: nat, y: nat, z: nat, w: nat)
    requires y < 64 && z < 64 && w < 64
    ensures var n := x * 262144 + y * 4096 + z * 64 + w;
      n / 262144 == x && n / 4096 % 64 == y && n / 64 % 64 == z && n % 64 == w
      && (x == 0 ==> n / 4096 == y)
  {
    var n := x * 262144 + y * 4096 + z * 64 + w;
    assert n / 64 == x * 4096 + y * 64 + z;
    assert n / 4096 == x * 64 + y;
  }

  lemma RuneOfThree(s: Bytes) returns (c: Rune)
    requires Width(s) == 3
    ensures EncodeRune(c) == s[..3]
  {
    var a: int, b: int, d: int := s[0], s[1], s[2];
    c := (a - 0xE0) * 4096 + (b - 0x80) * 64 + (d - 0x80);
    Digits64(0, a - 0xE0, b - 0x80, d - 0x80);
    assert s[..3] == [s[0], s[1], s[2]];
  }

  lemma RuneOfFour(s: Bytes) returns (c: Rune)
    requires Width(s) == 4
    ensures EncodeRune(c) == s[..4]
  {
    var a: int, b: int, d: int, e: int := s[0], s[1], s[2], s[3];
    c := (a - 0xF0) * 262144 + (b - 0x80) * 4096 + (d - 0x80) * 64 + (e - 0x80);
    Digits64(a - 0xF0, b - 0x80, d - 0x80, e - 0x80);
    assert s[..4] == [s[0], s[1], s[2], s[3]];
  }

  // Valid text is exactly what the encoding of some text gives.
  lemma {:induction false} EncodedIsUtf8(text: seq<Rune>)
    ensures Utf8(Encode(text))
  {
    hide Width, EncodeRune;
    if text != [] {
      var head, rest := EncodeRune(text[0]), Encode(text[1..]);
      WidthOfRune(text[0], rest);
      assert (head + rest)[|head|..] == rest;
      EncodedIsUtf8(text[1..]);
    }
  }

  lemma {:induction false} Utf8IsEncoded(s: Bytes) returns (text: seq<Rune>)
    requires Utf8(s)
    ensures s == Encode(text)
  {
    hide Width, EncodeRune;
    if s == [] {
      text := [];
    } else {
      var c := RuneOfWidth(s);
      var rest := Utf8IsEncoded(s[Width(s)..]);
      text := [c] + rest;
      assert text[1..] == rest && s == s[..Width(s)] + s[Width(s)..];
    }
  }

  lemma WidthOfPrefix(s: Bytes, c: nat)
    requires 0 < Width(s) <= c <= |s|
    ensures Width(s[..c]) == Width(s)
  {}

  // Cutting valid text at the start of a code point leaves both parts valid.
  lemma {:induction false} CutValid(s: Bytes, c: nat)
    requires Utf8(s) && c <= |s| && (c == |s| || RuneStart(s[c]))
    ensures Utf8(s[..c]) && Utf8(s[c..])
  {
    hide Width, RuneStart;
    if c == 0 {
      assert s[c..] == s;
    } else if c == |s| {
      assert s[..c] == s;
    } else {
      var k := Width(s);
      assert c >= k;
      CutValid(s[k..], c - k);
      WidthOfPrefix(s, c);
      assert s[..c][k..] == s[k..][..c - k] && s[k..][c - k..] == s[c..];
    }
  }

  lemma {:induction false} NoLongRun(s: Bytes, p: nat)
    requires Utf8(s) && p + 3 < |s|
    ensures exists j :: p <= j <= p + 3 && RuneStart(s[j])
  {
    hide Width, RuneStart;
    var k := Width(s);
    if p >= k {
      NoLongRun(s[k..], p - k);
      var j :| p - k <= j <= p - k + 3 && RuneStart(s[k..][j]);
      assert RuneStart(s[k + j]);
    } else if p > 0 {
      assert k <= p + 3 && s[k..] != [];
      assert RuneStart(s[k..][0]) && s[k..][0] == s[k];
    } else {
      assert RuneStart(s[0]);
    }
  }

  // So folding valid text always ends, and every piece is valid text by itself.
  lemma ValidTextFolds(line: Bytes)
    requires Utf8(line)
    ensures !Stuck(line)
  {
    hide Utf8, RuneStart;
    if Stuck(line) {
      var p :| 1 <= p && Run(line, p, 74);
      NoLongRun(line, p + 1);
    }
  }

  lemma {:induction false} PiecesAreValid(pieces: seq<Bytes>)
    requires Utf8(Joined(pieces)) && Fits(pieces)
    ensures forall i :: 0 <= i < |pieces| ==> Utf8(pieces[i])
  {
    hide Utf8, RuneStart;
    if pieces != [] {
      var init, last := pieces[..|pieces| - 1], pieces[|pieces| - 1];
      var n := |Joined(init)|;
      if init == [] {
        assert Joined(init) == [] && Joined(pieces) == last;
      } else {
        assert Joined(pieces)[n] == last[0];
        CutValid(Joined(pieces), n);
        assert Joined(pieces)[..n] == Joined(init) && Joined(pieces)[n..] == last;
        PiecesAreValid(init);
        assert forall k :: 0 <= k < |init| ==> init[k] == pieces[k];
      }
    }
  }

  // ----- escaping (section 3.3.11) -------------------------------------------

  function IcsEscape(s: string): string {
    if s == "" then ""
    else if s[0] in "\\;," then ['\\', s[0]] + IcsEscape(s[1..])
    else if |s| > 1 && s[0] == '\r' && s[1] == '\n' then "\\n" + IcsEscape(s[2..])
    else if s[0] == '\n' || s[0] == '\r' then "\\n" + IcsEscape(s[1..])
    else [s[0]] + IcsEscape(s[1..])
  }

  // How a reader decodes a TEXT value.
  function Unescape(s: string): string {
    if s == "" then ""
    else if s[0] == '\\' && |s| > 1 then
      [if s[1] == 'n' || s[1] == 'N' then '\n' else s[1]] + Unescape(s[2..])
    else [s[0]] + Unescape(s[1..])
  }

  // Every line break of the text as one line feed.
  function NormalBreaks(s: string): string {
    if s == "" then ""
    else if |s| > 1 && s[0] == '\r' && s[1] == '\n' then "\n" + NormalBreaks(s[2..])
    else [if s[0] == '\r' then '\n' else s[0]] + NormalBreaks(s[1..])
  }

  lemma UnescapePair(c: char, t: string)
    ensures Unescape(['\\', c] + t) == [if c == 'n' || c == 'N' then '\n' else c] + Unescape(t)
  {
    assert (['\\', c] + t)[2..] == t;
  }

  lemma UnescapePlain(c: char, t: string)
    requires c != '\\'
    ensures Unescape([c] + t) == [c] + Unescape(t)
  {
    assert ([c] + t)[1..] == t;
  }

  // Unescaping gives the text back with its line breaks normalized, and an escaped
  // text has none left, so it can be folded.
  lemma {:induction false} EscapeReads(s: string)
    ensures Unescape(IcsEscape(s)) == NormalBreaks(s)
    ensures forall c :: c in IcsEscape(s) ==> c != '\r' && c != '\n'
  {
    hide Unescape;
    if s == "" {
      UnescapeNothing();
    } else if s[0] in "\\;," {
      EscapeReads(s[1..]);
      UnescapePair(s[0], IcsEscape(s[1..]));
    } else if |s| > 1 && s[0] == '\r' && s[1] == '\n' {
      EscapeReads(s[2..]);
      UnescapePair('n', IcsEscape(s[2..]));
      assert "\\n" == ['\\', 'n'];
    } else if s[0] == '\n' || s[0] == '\r' {
      EscapeReads(s[1..]);
      UnescapePair('n', IcsEscape(s[1..]));
      assert "\\n" == ['\\', 'n'];
    } else {
      EscapeReads(s[1..]);
      UnescapePlain(s[0], IcsEscape(s[1..]));
    }
  }

  lemma UnescapeNothing()
    ensures Unescape("") == ""
  {}
}
