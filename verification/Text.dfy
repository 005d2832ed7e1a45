// Go's string helpers on the characters of a string.
module Text {
  // unicode.IsSpace
  predicate IsSpace(c: char) {
    c in "\t\n\U{0B}\U{0C}\r \U{85}\U{A0}\U{1680}\U{2028}\U{2029}\U{202F}\U{205F}\U{3000}"
    || '\U{2000}' <= c <= '\U{200A}'
  }

  function TrimLeft(s: string, cut: char -> bool): string {
    if s != [] && cut(s[0]) then TrimLeft(s[1..], cut) else s
  }

  function TrimRight(s: string, cut: char -> bool): string {
    if s != [] && cut(s[|s| - 1]) then TrimRight(s[..|s| - 1], cut) else s
  }

  function Trim(s: string, cut: char -> bool): string { TrimRight(TrimLeft(s, cut), cut) }

  function TrimSpace(s: string): string { Trim(s, IsSpace) }

  // strings.ReplaceAll(s, c, d) for one character, and with nothing for d.
  function Replace(s: string, c: char, d: char): (r: string)
    ensures |r| == |s| && forall i :: 0 <= i < |s| ==> r[i] == if s[i] == c then d else s[i]
  {
    if s == [] then [] else [if s[0] == c then d else s[0]] + Replace(s[1..], c, d)
  }

  function Without(s: string, c: char): (r: string)
    ensures c !in r && forall x :: x in r ==> x in s
  {
    if s == [] then [] else (if s[0] == c then [] else [s[0]]) + Without(s[1..], c)
  }

  // strings.LastIndexByte
  function LastIndex(s: string, c: char): (r: int)
    ensures -1 <= r < |s|
    ensures r >= 0 ==> s[r] == c
    ensures forall i :: r < i < |s| ==> s[i] != c
  {
    if s == [] then -1 else if s[|s| - 1] == c then |s| - 1 else LastIndex(s[..|s| - 1], c)
  }

  lemma {:induction false} WithoutNone(s: string, c: char)
    requires c !in s
    ensures Without(s, c) == s
  {
    if s != [] {
      WithoutNone(s[1..], c);
    }
  }

  lemma {:induction false} WithoutJoin(a: string, b: string, c: char)
    ensures Without(a + b, c) == Without(a, c) + Without(b, c)
  {
    if a == [] {
      assert a + b == b;
    } else {
      assert (a + b)[1..] == a[1..] + b;
      WithoutJoin(a[1..], b, c);
    }
  }

  lemma TrimNone(s: string, cut: char -> bool)
    requires s != [] ==> !cut(s[0]) && !cut(s[|s| - 1])
    ensures Trim(s, cut) == s
  {}

  // The first position from i on that holds a or b, or |s|.
  function First(s: string, i: nat, a: char, b: char): (r: nat)
    requires i <= |s|
    ensures i <= r <= |s|
    ensures r < |s| ==> s[r] == a || s[r] == b
    ensures forall k :: i <= k < r ==> s[k] != a && s[k] != b
    decreases |s| - i
  {
    if i == |s| || s[i] == a || s[i] == b then i else First(s, i + 1, a, b)
  }

  lemma FirstIs(s: string, i: nat, a: char, b: char, k: nat)
    requires i <= k <= |s|
    requires k < |s| ==> s[k] == a || s[k] == b
    requires forall x :: i <= x < k ==> s[x] != a && s[x] != b
    ensures First(s, i, a, b) == k
  {
  }

  // strings.Cut: the parts before and behind the first c.
  function Cut(s: string, c: char): (r: (string, string, bool))
    ensures r.2 ==> s == r.0 + [c] + r.1
    ensures !r.2 ==> s == r.0 && r.1 == "" && c !in s
    ensures c !in r.0
  {
    var k := First(s, 0, c, c);
    if k == |s| then (s, "", false) else (s[..k], s[k + 1..], true)
  }

  lemma CutIs(s: string, c: char, head: string, tail: string)
    requires s == head + [c] + tail && c !in head
    ensures Cut(s, c) == (head, tail, true)
  {
    FirstIs(s, 0, c, c, |head|);
    assert s[..|head|] == head && s[|head| + 1..] == tail;
  }

  lemma CutNone(s: string, c: char)
    requires c !in s
    ensures Cut(s, c) == (s, "", false)
  {}

  // strings.Split for one character
  function Split(s: string, c: char): seq<string>
    decreases |s|
  {
    var (head, tail, found) := Cut(s, c);
    if found then [head] + Split(tail, c) else [head]
  }
}
