// The URI form of a libpq connection string: parser, printer and the two edits
// made on it (internal/backup/connection.go, internal/backup/rehearse.go).
module DatabaseUri {
  import opened Wrappers
  import opened Text

  // One query parameter: the bytes it was written with and its decoded halves.
  datatype Param = Param(raw: string, key: string, value: string)

  datatype Uri = Uri(scheme: string, user: Option<string>, hosts: string, path: string, params: seq<Param>)

  // The parser trims spaces only.
  function TrimSpaces(s: string): string { Trim(s, c => c == ' ') }

  // ----- percent encoding (url.PathUnescape, url.PathEscape) ------------------

  function HexValue(c: char): Option<nat> {
    if '0' <= c <= '9' then Some(c as nat - '0' as nat)
    else if 'a' <= c <= 'f' then Some(c as nat - 'a' as nat + 10)
    else if 'A' <= c <= 'F' then Some(c as nat - 'A' as nat + 10)
    else None
  }

  function HexDigit(n: nat): char
    requires n < 16
  {
    if n < 10 then '0' + n as char else 'A' + (n - 10) as char
  }

  function PathUnescape(s: string): Option<string> {
    if s == "" then Some("")
    else if s[0] == '%' then
      if |s| < 3 || HexValue(s[1]).None? || HexValue(s[2]).None? then None
      else Onto((HexValue(s[1]).value * 16 + HexValue(s[2]).value) as char, PathUnescape(s[3..]))
    else Onto(s[0], PathUnescape(s[1..]))
  }

  function Onto(c: char, rest: Option<string>): Option<string> {
    match rest case None => None case Some(t) => Some([c] + t)
  }

  // The bytes url.PathEscape leaves alone; '&', '=' and '@' are among them.
  predicate Unescaped(c: char) {
    'a' <= c <= 'z' || 'A' <= c <= 'Z' || '0' <= c <= '9' || c in "-_.~$&+:=@"
  }

  predicate IsByteString(s: string) {
    forall i :: 0 <= i < |s| ==> s[i] as int < 256
  }

  function EscapeByte(c: char): string
    requires c as int < 256
  {
    if Unescaped(c) then [c] else ['%', HexDigit(c as nat / 16), HexDigit(c as nat % 16)]
  }

  function PathEscape(s: string): string
    requires IsByteString(s)
  {
    if s == "" then "" else EscapeByte(s[0]) + PathEscape(s[1..])
  }

  predicate UriSafe(c: char) { Unescaped(c) || c == '%' }

  lemma HexRoundTrip(n: nat)
    requires n < 16
    ensures HexValue(HexDigit(n)) == Some(n) && UriSafe(HexDigit(n))
  {
  }

  lemma EscapeByteDecodes(c: char, tail: string)
    requires c as int < 256
    ensures PathUnescape(EscapeByte(c) + tail) == Onto(c, PathUnescape(tail))
    ensures forall x :: x in EscapeByte(c) ==> UriSafe(x)
    ensures c == '&' ==> EscapeByte(c) == "&"
    ensures c != '&' ==> '&' !in EscapeByte(c)
  {
    var s := EscapeByte(c) + tail;
    assert s[|EscapeByte(c)|..] == tail;
    if !Unescaped(c) {
      HexRoundTrip(c as nat / 16);
      HexRoundTrip(c as nat % 16);
      assert (c as nat / 16 * 16 + c as nat % 16) as char == c;
    }
  }

  lemma {:induction false} PathEscapeDecodes(s: string)
    requires IsByteString(s)
    ensures PathUnescape(PathEscape(s)) == Some(s)
    ensures forall c :: c in PathEscape(s) ==> UriSafe(c)
    ensures '&' in PathEscape(s) <==> '&' in s
  {
    if s != "" {
      EscapeByteDecodes(s[0], PathEscape(s[1..]));
      PathEscapeDecodes(s[1..]);
      assert s == [s[0]] + s[1..];
    }
  }

  // ----- the parser ----------------------------------------------------------

  function SchemeOf(dsn: string): (r: Option<(string, string)>)
    ensures r.Some? ==> dsn == r.value.0 + "://" + r.value.1
    ensures r.Some? ==> r.value.0 == "postgres" || r.value.0 == "postgresql"
  {
    if |dsn| >= 11 && dsn[..11] == "postgres://" then
      assert dsn == dsn[..11] + dsn[11..];
      Some(("postgres", dsn[11..]))
    else if |dsn| >= 13 && dsn[..13] == "postgresql://" then
      assert dsn == dsn[..13] + dsn[13..];
      Some(("postgresql", dsn[13..]))
    else None
  }

  // The end of the host list: a '/', a '?' or the end, outside a leading [...].
  function HostEnd(rest: string, i: nat): (r: Option<nat>)
    requires i <= |rest|
    ensures r.Some? ==> i <= r.value <= |rest|
    ensures r.Some? && r.value < |rest| ==> rest[r.value] == '/' || rest[r.value] == '?'
    decreases |rest| - i
  {
    if i < |rest| && rest[i] != '/' && rest[i] != '?' then
      if (i == 0 || rest[i - 1] == ',') && rest[i] == '[' then
        var close := First(rest, i, ']', ']');
        if close == |rest| then None else HostEnd(rest, close + 1)
      else HostEnd(rest, i + 1)
    else Some(i)
  }

  function Pairs(query: string): (r: seq<string>)
    ensures forall i :: 0 <= i < |r| ==> '&' !in r[i]
    decreases |query|
  {
    if query == "" then []
    else
      var (pair, tail, _) := Cut(query, '&');
      [pair] + Pairs(tail)
  }

  function ReadParam(raw: string): (r: Option<Param>)
    ensures r.Some? ==> r.value.raw == raw
  {
    var (rawKey, rawValue, _) := Cut(raw, '=');
    match (PathUnescape(TrimSpaces(rawKey)), PathUnescape(TrimSpaces(rawValue)))
    case (Some(key), Some(value)) => Some(Param(raw, key, value))
    case _ => None
  }

  function ReadParams(raws: seq<string>): (r: Option<seq<Param>>)
    ensures r.Some? ==> Raws(r.value) == raws
  {
    if raws == [] then Some([])
    else
      match (ReadParam(raws[0]), ReadParams(raws[1..]))
      case (Some(p), Some(ps)) =>
        assert raws == [raws[0]] + raws[1..];
        Some([p] + ps)
      case _ => None
  }

  function Raws(params: seq<Param>): (r: seq<string>)
    ensures |r| == |params| && forall i :: 0 <= i < |r| ==> r[i] == params[i].raw
  {
    seq(|params|, i requires 0 <= i < |params| => params[i].raw)
  }

  // Behind the scheme: an optional user part up to the first '@' before a '/'.
  function SplitUser(rest: string): (r: (Option<string>, string))
    ensures r.0.None? ==> r.1 == rest
    ensures r.0.Some? ==> rest == r.0.value + "@" + r.1 && '@' !in r.0.value && '/' !in r.0.value
  {
    var k := First(rest, 0, '@', '/');
    if k < |rest| && rest[k] == '@' then (Some(rest[..k]), rest[k + 1..]) else (None, rest)
  }

  function ParseTail(scheme: string, user: Option<string>, tail: string): Option<Uri> {
    match HostEnd(tail, 0)
    case None => None
    case Some(end) =>
      var (path, query, _) := Cut(tail[end..], '?');
      match ReadParams(Pairs(query))
      case None => None
      case Some(params) => Some(Uri(scheme, user, tail[..end], path, params))
  }

  function Parse(dsn: string): Option<Uri> {
    match SchemeOf(dsn)
    case None => None
    case Some((scheme, rest)) => ParseTail(scheme, SplitUser(rest).0, SplitUser(rest).1)
  }

  // ----- the printer ---------------------------------------------------------

  function JoinAmp(raws: seq<string>): string {
    if raws == [] then "" else if |raws| == 1 then raws[0] else raws[0] + "&" + JoinAmp(raws[1..])
  }

  function Query(params: seq<Param>): string {
    if params == [] then "" else "?" + JoinAmp(Raws(params))
  }

  function PrintTail(u: Uri): string { u.hosts + u.path + Query(u.params) }

  function Front(user: Option<string>): string {
    if user.Some? then user.value + "@" else ""
  }

  function Print(u: Uri): string {
    u.scheme + "://" + Front(u.user) + PrintTail(u)
  }

  // ----- printing undoes parsing ----------------------------------------------

  // What every parsed URI satisfies, and every edit below keeps.
  ghost predicate WellFormed(u: Uri) {
    && (u.scheme == "postgres" || u.scheme == "postgresql")
    && (u.user.Some? ==> '@' !in u.user.value && '/' !in u.user.value)
    && HostEnd(u.hosts, 0) == Some(|u.hosts|)
    && (u.path == "" || u.path[0] == '/') && '?' !in u.path
    && forall i :: 0 <= i < |u.params| ==> '&' !in u.params[i].raw && ReadParam(u.params[i].raw) == Some(u.params[i])
  }

  // Finding the host list needs only the host list and what ends it.
  lemma {:induction false} HostEndLocal(r: string, i: nat, u: string, n: nat)
    requires i <= |r| && HostEnd(r, i) == Some(n)
    requires n <= |u| && forall k :: 0 <= k < n ==> u[k] == r[k]
    requires n < |u| ==> u[n] == '/' || u[n] == '?'
    ensures HostEnd(u, i) == Some(n)
    decreases |r| - i
  {
    if i < n {
      if (i == 0 || r[i - 1] == ',') && r[i] == '[' {
        var close := First(r, i, ']', ']');
        FirstIs(u, i, ']', ']', close);
        HostEndLocal(r, close + 1, u, n);
      } else {
        HostEndLocal(r, i + 1, u, n);
      }
    }
  }

  lemma {:induction false} ReadParamsAt(raws: seq<string>, i: nat)
    requires ReadParams(raws).Some? && i < |raws|
    ensures ReadParam(raws[i]) == Some(ReadParams(raws).value[i])
  {
    hide ReadParam, Raws;
    if i > 0 {
      ReadParamsAt(raws[1..], i - 1);
      assert raws[1..][i - 1] == raws[i];
    }
  }

  lemma {:induction false} ReadParamsOf(params: seq<Param>)
    requires forall i :: 0 <= i < |params| ==> ReadParam(params[i].raw) == Some(params[i])
    ensures ReadParams(Raws(params)) == Some(params)
  {
    if params != [] {
      ReadParamsOf(params[1..]);
      assert Raws(params)[1..] == Raws(params[1..]);
      assert [params[0]] + params[1..] == params;
    }
  }

  lemma ParseTailWellFormed(scheme: string, user: Option<string>, tail: string)
    requires ParseTail(scheme, user, tail).Some?
    requires scheme == "postgres" || scheme == "postgresql"
    requires user.Some? ==> '@' !in user.value && '/' !in user.value
    ensures WellFormed(ParseTail(scheme, user, tail).value)
  {
    var u := ParseTail(scheme, user, tail).value;
    var end := HostEnd(tail, 0).value;
    HostEndLocal(tail, 0, u.hosts, end);
    var (path, query, _) := Cut(tail[end..], '?');
    if path != "" {
      assert tail[end..][0] == tail[end] == path[0];
    }
    forall i | 0 <= i < |u.params|
      ensures '&' !in u.params[i].raw && ReadParam(u.params[i].raw) == Some(u.params[i])
    {
      ReadParamsAt(Pairs(query), i);
      assert Raws(u.params)[i] == Pairs(query)[i];
    }
  }

  lemma ParseWellFormed(dsn: string)
    requires Parse(dsn).Some?
    ensures WellFormed(Parse(dsn).value)
  {
    var (scheme, rest) := SchemeOf(dsn).value;
    ParseTailWellFormed(scheme, SplitUser(rest).0, SplitUser(rest).1);
  }

  // A list of parameters loses exactly one trailing empty one when re-read.
  function DropTrailingEmpty(params: seq<Param>): seq<Param> {
    if params != [] && params[|params| - 1].raw == "" then params[..|params| - 1] else params
  }

  lemma PairsOfJoin(params: seq<Param>)
    requires forall i :: 0 <= i < |params| ==> '&' !in params[i].raw
    ensures Pairs(JoinAmp(Raws(params))) == Raws(DropTrailingEmpty(params))
  {
    hide Pairs, JoinAmp;
    PairsOfRaws(Raws(params));
  }

  lemma {:induction false} PairsOfRaws(raws: seq<string>)
    requires forall i :: 0 <= i < |raws| ==> '&' !in raws[i]
    ensures Pairs(JoinAmp(raws)) == if raws != [] && raws[|raws| - 1] == "" then raws[..|raws| - 1] else raws
  {
    hide Pairs, JoinAmp;
    if raws == [] {
      JoinNothing();
      PairsNothing("");
    } else if |raws| == 1 {
      assert raws == [raws[0]];
      PairsOfOne(raws[0]);
    } else {
      var rest := raws[1..];
      PairsOfRaws(rest);
      assert raws == [raws[0]] + rest;
      PairsOfMore(raws[0], rest);
      assert raws[..|raws| - 1] == [raws[0]] + rest[..|rest| - 1];
    }
  }

  lemma PairsOfOne(raw: string)
    requires '&' !in raw
    ensures Pairs(JoinAmp([raw])) == if raw == "" then [] else [raw]
  {
    hide Cut;
    assert JoinAmp([raw]) == raw;
    if raw != "" {
      CutNone(raw, '&');
      assert Pairs(raw) == [raw] + Pairs("");
    }
  }

  lemma PairsOfMore(raw: string, rest: seq<string>)
    requires '&' !in raw && rest != []
    ensures Pairs(JoinAmp([raw] + rest)) == [raw] + Pairs(JoinAmp(rest))
  {
    hide Cut;
    var q := JoinAmp([raw] + rest);
    assert ([raw] + rest)[1..] == rest;
    assert q == raw + ['&'] + JoinAmp(rest);
    CutIs(q, '&', raw, JoinAmp(rest));
  }

  lemma QueryReads(path: string, params: seq<Param>)
    requires '?' !in path && forall i :: 0 <= i < |params| ==> '&' !in params[i].raw
    ensures Cut(path + Query(params), '?').0 == path
    ensures Pairs(Cut(path + Query(params), '?').1) == Raws(DropTrailingEmpty(params))
  {
    hide JoinAmp, Pairs, First, Cut;
    if params == [] {
      assert path + Query(params) == path;
      assert Cut(path, '?') == (path, "", false) by { CutNone(path, '?'); }
      PairsOfJoin(params);
      JoinNothing();
    } else {
      assert path + Query(params) == path + ['?'] + JoinAmp(Raws(params));
      CutIs(path + Query(params), '?', path, JoinAmp(Raws(params)));
      PairsOfJoin(params);
    }
  }

  lemma JoinNothing()
    ensures JoinAmp(Raws([])) == ""
  {
  }

  lemma ReprintTail(u: Uri)
    requires WellFormed(u)
    ensures ParseTail(u.scheme, u.user, PrintTail(u)) == Some(u.(params := DropTrailingEmpty(u.params)))
  {
    hide HostEnd, Cut, Pairs, ReadParams, Query, ReadParam;
    var tail := PrintTail(u);
    var rest := u.path + Query(u.params);
    assert tail == u.hosts + rest;
    assert tail[..|u.hosts|] == u.hosts && tail[|u.hosts|..] == rest;
    QueryStart(u.path, u.params);
    HostEndLocal(u.hosts, 0, tail, |u.hosts|);
    QueryReads(u.path, u.params);
    ReadParamsOf(DropTrailingEmpty(u.params));
  }

  lemma QueryStart(path: string, params: seq<Param>)
    requires path == "" || path[0] == '/'
    ensures var rest := path + Query(params); rest == "" || rest[0] == '/' || rest[0] == '?'
  {
    hide JoinAmp;
  }

  lemma SchemeReads(scheme: string, rest: string)
    requires scheme == "postgres" || scheme == "postgresql"
    ensures SchemeOf(scheme + "://" + rest) == Some((scheme, rest))
  {
    var dsn := scheme + "://" + rest;
    if scheme == "postgres" {
      assert dsn[..11] == "postgres://" && dsn[11..] == rest;
    } else {
      assert dsn[..11] == "postgresql:" && dsn[..13] == "postgresql://" && dsn[13..] == rest;
    }
  }

  // The text behind the scheme would be read as starting with a user part.
  ghost predicate ShowsUser(tail: string) {
    var k := First(tail, 0, '@', '/'); k < |tail| && tail[k] == '@'
  }

  lemma SplitUserReads(user: Option<string>, tail: string)
    requires user.Some? ==> '@' !in user.value && '/' !in user.value
    ensures user.Some? || !ShowsUser(tail) ==> SplitUser(Front(user) + tail) == (user, tail)
    ensures user.None? && ShowsUser(tail) ==> SplitUser(Front(user) + tail).0.Some?
  {
    var rest := Front(user) + tail;
    if user.Some? {
      FirstIs(rest, 0, '@', '/', |user.value|);
      assert rest[..|user.value|] == user.value && rest[|user.value| + 1..] == tail;
    } else {
      assert rest == tail;
    }
  }

  lemma ParsePrinted(u: Uri)
    requires WellFormed(u)
    ensures Parse(Print(u)) ==
      ParseTail(u.scheme, SplitUser(Front(u.user) + PrintTail(u)).0, SplitUser(Front(u.user) + PrintTail(u)).1)
  {
    hide PrintTail, SplitUser, ParseTail, SchemeOf;
    var rest := Front(u.user) + PrintTail(u);
    assert Print(u) == u.scheme + "://" + rest;
    SchemeReads(u.scheme, rest);
  }

  // Re-reading a printed URI gives it back, up to one trailing empty parameter,
  // exactly when it has a user part or its text does not show one.
  lemma Reprint(u: Uri)
    requires WellFormed(u)
    ensures Parse(Print(u)) == Some(u.(params := DropTrailingEmpty(u.params)))
            <==> u.user.Some? || !ShowsUser(PrintTail(u))
  {
    hide PrintTail, SplitUser, ShowsUser, Print;
    ParsePrinted(u);
    SplitUserReads(u.user, PrintTail(u));
    ReprintTail(u);
  }

  // The printer keeps the bytes it was given: a parsed URI prints as the
  // original text, less a '?' or '&' that nothing follows.
  lemma PrintParsed(dsn: string)
    requires Parse(dsn).Some?
    ensures var out := Print(Parse(dsn).value); dsn == out || dsn == out + "?" || dsn == out + "&"
  {
    hide SchemeOf, SplitUser, ParseTail, PrintTail;
    var (scheme, rest) := SchemeOf(dsn).value;
    var (user, tail) := SplitUser(rest);
    assert rest == Front(user) + tail;
    PrintParsedTail(scheme, user, tail);
    var u := ParseTail(scheme, user, tail).value;
    var head := scheme + "://" + Front(user);
    assert dsn == head + tail && Print(u) == head + PrintTail(u);
    SameEnd(head, tail, PrintTail(u));
  }

  lemma SameEnd(head: string, tail: string, out: string)
    requires tail == out || tail == out + "?" || tail == out + "&"
    ensures head + tail == head + out || head + tail == head + out + "?" || head + tail == head + out + "&"
  {
    assert head + (out + "?") == head + out + "?" && head + (out + "&") == head + out + "&";
  }

  lemma PrintParsedTail(scheme: string, user: Option<string>, tail: string)
    requires ParseTail(scheme, user, tail).Some?
    ensures var u := ParseTail(scheme, user, tail).value; var out := PrintTail(u);
            && u.scheme == scheme && u.user == user
            && (tail == out || tail == out + "?" || tail == out + "&")
  {
    hide First, HostEnd, Pairs, ReadParams, JoinAmp, Cut;
    var u := ParseTail(scheme, user, tail).value;
    var end := HostEnd(tail, 0).value;
    var (path, query, more) := Cut(tail[end..], '?');
    assert tail == u.hosts + tail[end..];
    JoinOfPairs(query);
    JoinNothing();
    PairsNothing(query);
    if more {
      assert tail == u.hosts + u.path + "?" + query;
    } else {
      assert tail == u.hosts + u.path;
    }
  }

  lemma PairsNothing(query: string)
    ensures Pairs(query) == [] <==> query == ""
  {
  }

  lemma {:induction false} JoinOfPairs(query: string)
    ensures query == JoinAmp(Pairs(query)) || query == JoinAmp(Pairs(query)) + "&"
    decreases |query|
  {
    hide First, Cut;
    if query != "" {
      var (pair, tail, more) := Cut(query, '&');
      JoinOfPairs(tail);
      assert ([pair] + Pairs(tail))[1..] == Pairs(tail);
      if tail == "" {
        assert Pairs(query) == [pair];
      }
    }
  }

  // ----- the edits -------------------------------------------------------------

  // The parameters whose decoded key is not in keys, in order.
  function WithoutKeys(params: seq<Param>, keys: set<string>): (r: seq<Param>)
    ensures forall i :: 0 <= i < |r| ==> r[i] in params && r[i].key !in keys
    ensures forall p :: p in params && p.key !in keys ==> p in r
  {
    if params == [] then []
    else
      var init, last := params[..|params| - 1], params[|params| - 1];
      assert params == init + [last];
      WithoutKeys(init, keys) + (if last.key in keys then [] else [last])
  }

  function LastValue(params: seq<Param>, key: string): Option<string> {
    if params == [] then None
    else if params[|params| - 1].key == key then Some(params[|params| - 1].value)
    else LastValue(params[..|params| - 1], key)
  }

  function RemovePassword(u: Uri): Uri {
    u.(user := if u.user.Some? then Some(Cut(u.user.value, ':').0) else None,
       params := WithoutKeys(u.params, {"password"}))
  }

  function RedirectTo(u: Uri, database: string): Uri
    requires IsByteString(database)
  {
    u.(path := "/" + PathEscape(database),
       params := WithoutKeys(u.params, {"dbname", "database"})
                 + [Param("dbname=" + PathEscape(database), "dbname", database)])
  }

  lemma RemovePasswordWellFormed(u: Uri)
    requires WellFormed(u)
    ensures WellFormed(RemovePassword(u))
  {
    if u.user.Some? {
      var (user, password, more) := Cut(u.user.value, ':');
      assert forall c :: c in user ==> c in u.user.value;
    }
  }

  // Without a user part, a '/' in the hosts or the path keeps a later '@' hidden.
  lemma PathHidesUser(dsn: string, u: Uri, v: Uri)
    requires Parse(dsn) == Some(u) && u.user.None?
    requires v.hosts == u.hosts && (v.path == u.path != "" || (v.path != "" && v.path[0] == '/'))
    ensures !ShowsUser(PrintTail(v))
  {
    hide HostEnd, ReadParams, Pairs, Query, SchemeOf;
    var (scheme, rest) := SchemeOf(dsn).value;
    ParseWellFormed(dsn);
    assert ParseTail(scheme, None, rest) == Some(u);
    var end := HostEnd(rest, 0).value;
    assert u.hosts == rest[..end];
    var k := First(rest, 0, '@', '/');
    assert k == |rest| || rest[k] == '/';
    var tail := PrintTail(v);
    assert forall i :: 0 <= i < end ==> tail[i] == rest[i];
    assert tail[end] == v.path[0] == '/';
    FirstIs(tail, 0, '@', '/', if k < end then k else end);
  }

  // The first '@' or '/' of a text.
  function FirstMark(s: string): Option<char> {
    if s == "" then None else if s[0] == '@' || s[0] == '/' then Some(s[0]) else FirstMark(s[1..])
  }

  function Concat(raws: seq<string>): string {
    if raws == [] then "" else raws[0] + Concat(raws[1..])
  }

  // Without user part and path: in the hosts and the parameters that stay, written one
  // after the other, an '@' comes before any '/'.
  predicate Uncovers(u: Uri) {
    u.user.None? && u.path == "" && FirstMark(u.hosts + Concat(Raws(WithoutKeys(u.params, {"password"})))) == Some('@')
  }

  lemma {:induction false} FirstMarkOfJoin(a: string, b: string)
    ensures FirstMark(a + b) == if FirstMark(a).Some? then FirstMark(a) else FirstMark(b)
  {
    if a == "" {
      assert a + b == b;
    } else {
      assert (a + b)[1..] == a[1..] + b;
      FirstMarkOfJoin(a[1..], b);
    }
  }

  lemma {:induction false} FirstMarkOfRaws(raws: seq<string>)
    ensures FirstMark(JoinAmp(raws)) == FirstMark(Concat(raws))
  {
    hide FirstMark;
    if |raws| == 1 {
      assert Concat(raws) == raws[0] + Concat(raws[1..]) == raws[0];
    } else if raws != [] {
      FirstMarkOfRaws(raws[1..]);
      FirstMarkOfJoin(raws[0], "&" + JoinAmp(raws[1..]));
      SeparatorIsNoMark('&', JoinAmp(raws[1..]));
      FirstMarkOfJoin(raws[0], Concat(raws[1..]));
      assert JoinAmp(raws) == raws[0] + ("&" + JoinAmp(raws[1..]));
    }
  }

  lemma SeparatorIsNoMark(c: char, s: string)
    requires c != '@' && c != '/'
    ensures FirstMark([c] + s) == FirstMark(s)
  {
    assert ([c] + s)[1..] == s;
  }

  lemma {:induction false} ShowsUserIsFirstMark(s: string, i: nat)
    requires i <= |s|
    ensures var k := First(s, i, '@', '/'); (k < |s| && s[k] == '@') <==> FirstMark(s[i..]) == Some('@')
    decreases |s| - i
  {
    if i < |s| && s[i] != '@' && s[i] != '/' {
      ShowsUserIsFirstMark(s, i + 1);
      assert s[i..][1..] == s[i + 1..];
    }
  }

  lemma UncoversExactly(u: Uri)
    requires u.user.None? && u.path == ""
    ensures ShowsUser(PrintTail(RemovePassword(u))) <==> Uncovers(u)
  {
    hide FirstMark, Concat, JoinAmp, First, WithoutKeys;
    var params := WithoutKeys(u.params, {"password"});
    var tail, query := PrintTail(RemovePassword(u)), Query(params);
    assert tail[0..] == tail && tail == u.hosts + query;
    ShowsUserIsFirstMark(tail, 0);
    FirstMarkOfJoin(u.hosts, query);
    FirstMarkOfJoin(u.hosts, Concat(Raws(params)));
    if params == [] {
      NothingConcat();
    } else {
      SeparatorIsNoMark('?', JoinAmp(Raws(params)));
      FirstMarkOfRaws(Raws(params));
    }
  }

  lemma NothingConcat()
    ensures Concat(Raws([])) == ""
  {}

  // Taking the password out changes nothing else: the cleaned URI re-reads with
  // the same user name, hosts, path and remaining parameters (less one trailing
  // empty one), and shows no password. This is so exactly unless the URI has neither
  // user part nor path and removing the parameters uncovers an '@'.
  lemma RemovePasswordPreserves(dsn: string)
    requires Parse(dsn).Some?
    ensures var u := Parse(dsn).value; var v := RemovePassword(u);
            && (Parse(Print(v)) == Some(v.(params := DropTrailingEmpty(v.params))) <==> !Uncovers(u))
            && (v.user.Some? ==> ':' !in v.user.value)
            && LastValue(v.params, "password") == None
  {
    hide Parse, Print, ShowsUser, PrintTail, WellFormed, FirstMark, Concat;
    var u := Parse(dsn).value;
    var v := RemovePassword(u);
    ParseWellFormed(dsn);
    RemovePasswordWellFormed(u);
    Reprint(v);
    if u.user.None? {
      if u.path != "" {
        ParsedPath(dsn);
        PathHidesUser(dsn, u, v);
      } else {
        UncoversExactly(u);
      }
    }
    NoSuchKey(v.params, "password");
  }

  lemma ParsedPath(dsn: string)
    requires Parse(dsn).Some?
    ensures var u := Parse(dsn).value; u.path == "" || u.path[0] == '/'
  {
    ParseWellFormed(dsn);
  }

  lemma {:induction false} NoSuchKey(params: seq<Param>, key: string)
    requires forall i :: 0 <= i < |params| ==> params[i].key != key
    ensures LastValue(params, key) == None
  {
    if params != [] {
      NoSuchKey(params[..|params| - 1], key);
    }
  }

  lemma {:induction false} NoValueExactly(params: seq<Param>, key: string)
    ensures LastValue(params, key) == None <==> forall i :: 0 <= i < |params| ==> params[i].key != key
  {
    if params != [] {
      NoValueExactly(params[..|params| - 1], key);
    }
  }

  // Text that means nothing to the parser.
  predicate Plain(s: string) {
    forall c :: c in s ==> c !in "@/&?=% "
  }

  // The exception above is real: here the only '/' goes with the password, and what was
  // a query is read as a user part, whose text may even state a password.
  lemma RemovedSlashUncoversUser(dsn: string, u: Uri, clean: string, head: string)
    requires Plain(head) && dsn == "postgres://?password=/&" + head + "@" && clean == "postgres://?" + head + "@"
    requires u == Uri("postgres", None, "", "", [Param("password=/", "password", "/"), Param(head + "@", head + "@", "")])
    ensures Parse(dsn) == Some(u) && Uncovers(u)
    ensures Print(RemovePassword(u)) == clean
    ensures Parse(clean) == Some(Uri("postgres", Some("?" + head), "", "", []))
  {
    hide Parse, Print, WithoutKeys, FirstMark;
    SlashHidesUser(dsn, "?password=/&" + head + "@", u.params, head);
    UserUncovered(clean, "?" + head + "@", head);
    WithoutPasswordParam(u.params, head);
    PrintOneParam(u.params[1]);
    assert "?" + (head + "@") == "?" + head + "@";
    MarkBehindPlain(head);
    assert Raws([u.params[1]]) == [head + "@"];
    assert Concat([head + "@"]) == head + "@" + Concat([head + "@"][1..]) == head + "@";
    assert "" + (head + "@") == head + "@";
  }

  lemma {:induction false} MarkBehindPlain(head: string)
    requires Plain(head)
    ensures FirstMark(head + "@") == Some('@')
  {
    if head != "" {
      assert head[0] in head && (head + "@")[1..] == head[1..] + "@";
      assert forall c :: c in head[1..] ==> c in head;
      MarkBehindPlain(head[1..]);
    }
  }

  lemma PrintOneParam(p: Param)
    ensures Print(Uri("postgres", None, "", "", [p])) == "postgres://?" + p.raw
  {
    assert Raws([p]) == [p.raw];
  }

  lemma WithoutPasswordParam(params: seq<Param>, head: string)
    requires params == [Param("password=/", "password", "/"), Param(head + "@", head + "@", "")]
    ensures WithoutKeys(params, {"password"}) == [params[1]]
  {
    assert params[..1] == [params[0]];
    assert [params[0]][..0] == [];
    assert WithoutKeys([params[0]], {"password"}) == [];
    var key, word := head + "@", "password";
    assert key[|key| - 1] == '@' && word[7] == 'd';
  }

  lemma SlashHidesUser(dsn: string, rest: string, params: seq<Param>, head: string)
    requires Plain(head) && dsn == "postgres://" + rest && rest == "?password=/&" + head + "@"
    requires params == [Param("password=/", "password", "/"), Param(head + "@", head + "@", "")]
    ensures Parse(dsn) == Some(Uri("postgres", None, "", "", params))
  {
    hide First, Pairs, ReadParams, SchemeOf, Cut;
    assert dsn == "postgres" + "://" + rest;
    SchemeReads("postgres", rest);
    FirstIs(rest, 0, '@', '/', 10);
    assert SplitUser(rest) == (None, rest);
    assert rest == "" + "?" + ("password=/&" + head + "@");
    CutIs(rest, '?', "", "password=/&" + head + "@");
    assert rest[0..] == rest && rest[..0] == "";
    TwoPairs(rest[1..], params, head);
  }

  lemma UserUncovered(dsn: string, rest: string, head: string)
    requires Plain(head) && dsn == "postgres://" + rest && rest == "?" + head + "@"
    ensures Parse(dsn) == Some(Uri("postgres", Some("?" + head), "", "", []))
  {
    hide First, SchemeOf;
    assert dsn == "postgres" + "://" + rest;
    SchemeReads("postgres", rest);
    var k := |head| + 1;
    forall i | 0 <= i < k ensures rest[i] != '@' && rest[i] != '/' {
      assert i > 0 ==> rest[i] == head[i - 1] && head[i - 1] in head;
    }
    FirstIs(rest, 0, '@', '/', k);
    assert SplitUser(rest) == (Some(rest[..k]), rest[k + 1..]);
    assert rest[..k] == "?" + head && rest[k + 1..] == "";
    CutNone("", '?');
  }

  lemma {:induction false} PlainTextUnescapes(s: string)
    requires '%' !in s
    ensures PathUnescape(s) == Some(s)
  {
    if s != "" {
      PlainTextUnescapes(s[1..]);
      assert s == [s[0]] + s[1..];
    }
  }

  lemma TwoPairs(query: string, params: seq<Param>, head: string)
    requires Plain(head) && query == "password=/&" + head + "@"
    requires params == [Param("password=/", "password", "/"), Param(head + "@", head + "@", "")]
    ensures ReadParams(Pairs(query)) == Some(params)
  {
    hide First, Cut;
    TwoRaws(query, head);
    assert "password" + "=" + "/" == "password=/";
    PlainParam(params[0], "password", "/");
    LoneParam(params[1], head);
    ReadParamsOf(params);
    assert Raws(params) == Pairs(query);
  }

  lemma TwoRaws(query: string, head: string)
    requires Plain(head) && query == "password=/&" + head + "@"
    ensures Pairs(query) == ["password=/", head + "@"]
  {
    hide First, Cut;
    var raw := head + "@";
    assert query == "password=/" + "&" + raw;
    CutIs(query, '&', "password=/", raw);
    CutNone(raw, '&');
    assert Pairs(raw) == [raw] + Pairs("");
    assert Pairs(query) == ["password=/"] + Pairs(raw);
  }

  lemma LoneParam(p: Param, head: string)
    requires Plain(head) && p == Param(head + "@", head + "@", "")
    ensures ReadParam(p.raw) == Some(p)
  {
    hide First, Cut, TrimSpaces;
    CutNone(p.raw, '=');
    TrimNothing(p.raw);
    TrimNothing("");
    PlainTextUnescapes(p.raw);
  }

  lemma PlainParam(p: Param, key: string, value: string)
    requires p == Param(key + "=" + value, key, value) && '=' !in key && '%' !in key + value
    requires TrimSpaces(key) == key && TrimSpaces(value) == value
    ensures ReadParam(p.raw) == Some(p)
  {
    hide First, Cut;
    CutIs(p.raw, '=', key, value);
    assert forall c :: c in key || c in value ==> c in key + value;
    PlainTextUnescapes(key);
    PlainTextUnescapes(value);
  }

  // ----- redirecting to another database ---------------------------------------

  lemma TrimNothing(s: string)
    requires ' ' !in s
    ensures TrimSpaces(s) == s
  {
  }

  lemma TargetParamReads(database: string)
    requires IsByteString(database)
    ensures ReadParam("dbname=" + PathEscape(database)) ==
      Some(Param("dbname=" + PathEscape(database), "dbname", database))
  {
    hide First, Cut, PathEscape, TrimSpaces;
    var value := PathEscape(database);
    PathEscapeDecodes(database);
    assert ' ' !in value by { assert !UriSafe(' '); }
    CutIs("dbname=" + value, '=', "dbname", value);
    PlainTextUnescapes("dbname");
    TrimNothing("dbname");
    TrimNothing(value);
  }

  lemma RedirectWellFormed(u: Uri, database: string)
    requires WellFormed(u) && IsByteString(database) && '&' !in database
    ensures WellFormed(RedirectTo(u, database))
  {
    hide PathEscape, HostEnd, ReadParam;
    var v := RedirectTo(u, database);
    PathEscapeDecodes(database);
    assert '?' !in v.path by { assert !UriSafe('?'); }
    TargetParamReads(database);
    forall i | 0 <= i < |v.params|
      ensures '&' !in v.params[i].raw && ReadParam(v.params[i].raw) == Some(v.params[i])
    {
      if i < |v.params| - 1 {
        assert v.params[i] == WithoutKeys(u.params, {"dbname", "database"})[i];
      }
    }
  }

  // The redirected URI re-reads as the same URI with the new path and exactly one
  // database alias, the last parameter. This is so exactly for names without '&',
  // the one separator that url.PathEscape leaves in place.
  lemma RedirectTargets(dsn: string, database: string)
    requires Parse(dsn).Some? && IsByteString(database)
    ensures var u := Parse(dsn).value; var v := RedirectTo(u, database);
            && (Parse(Print(v)) == Some(v) <==> '&' !in database)
            && (v.user == u.user && v.hosts == u.hosts && v.scheme == u.scheme)
            && v.path[0] == '/' && PathUnescape(v.path[1..]) == Some(database)
            && v.params[|v.params| - 1].key == "dbname" && v.params[|v.params| - 1].value == database
            && (forall i :: 0 <= i < |v.params| - 1 ==> v.params[i].key !in {"dbname", "database"})
  {
    hide PathEscape, Parse, Print, WellFormed;
    var u := Parse(dsn).value;
    var v := RedirectTo(u, database);
    ParseWellFormed(dsn);
    PathEscapeDecodes(database);
    assert v.path[1..] == PathEscape(database);
    if '&' in database {
      AmpersandIsLost(dsn, u, v);
    } else {
      RedirectWellFormed(u, database);
      Reprint(v);
      if u.user.None? {
        PathHidesUser(dsn, u, v);
      }
    }
  }

  lemma AmpersandIsLost(dsn: string, u: Uri, v: Uri)
    requires v.params != [] && '&' in v.params[|v.params| - 1].raw
    ensures Parse(Print(v)) != Some(v)
  {
    hide Print, Parse;
    if Parse(Print(v)) == Some(v) {
      ParseWellFormed(Print(v));
    }
  }

  lemma {:induction false} OtherValuesStay(params: seq<Param>, keys: set<string>, key: string)
    requires key !in keys
    ensures LastValue(WithoutKeys(params, keys), key) == LastValue(params, key)
  {
    if params != [] {
      var init, last := params[..|params| - 1], params[|params| - 1];
      OtherValuesStay(init, keys, key);
      var kept := WithoutKeys(params, keys);
      if last.key !in keys {
        assert kept[..|kept| - 1] == WithoutKeys(init, keys);
      } else {
        assert kept == WithoutKeys(init, keys);
      }
    }
  }

  // The password a redirected URI states is that of the original.
  lemma RedirectKeepsPassword(u: Uri, database: string)
    requires IsByteString(database)
    ensures LastValue(RedirectTo(u, database).params, "password") == LastValue(u.params, "password")
  {
    hide PathEscape;
    var v, keys := RedirectTo(u, database), {"dbname", "database"};
    OtherValuesStay(u.params, keys, "password");
    assert v.params[..|v.params| - 1] == WithoutKeys(u.params, keys);
  }

  // Taking the password out of a redirected URI leaves the target and drops nothing else.
  lemma RedirectedLosesPasswordOnly(u: Uri, database: string)
    requires IsByteString(database)
    ensures var v := RedirectTo(u, database); var w := RemovePassword(v);
      && w.params != [] && w.params[|w.params| - 1] == v.params[|v.params| - 1]
      && DropTrailingEmpty(w.params) == w.params
      && forall i :: 0 <= i < |w.params| - 1 ==> w.params[i].key !in {"dbname", "database"}
  {
    hide PathEscape;
    var v := RedirectTo(u, database);
    var others := WithoutKeys(u.params, {"dbname", "database"});
    assert v.params[..|v.params| - 1] == others;
    assert WithoutKeys(v.params, {"password"}) == WithoutKeys(others, {"password"}) + [v.params[|v.params| - 1]];
  }

  // ----- the loops ---------------------------------------------------------------

  lemma {:induction false} JoinSnoc(raws: seq<string>, raw: string)
    ensures JoinAmp(raws + [raw]) == JoinAmp(raws) + (if raws == [] then "" else "&") + raw
  {
    if raws == [] {
      assert raws + [raw] == [raw];
    } else {
      JoinSnoc(raws[1..], raw);
      assert (raws + [raw])[1..] == raws[1..] + [raw];
    }
  }

  // databaseURI.String
  method PrintUri(u: Uri) returns (out: string)
    ensures out == Print(u)
  {
    hide Query;
    out := u.scheme + "://";
    if u.user.Some? {
      out := out + u.user.value + "@";
    }
    out := out + (u.hosts + u.path);
    ghost var front := out;
    assert Print(u) == front + Query(u.params);
    NoQuery();
    assert u.params[..0] == [];
    for i := 0 to |u.params|
      invariant out == front + Query(u.params[..i])
    {
      PrintOneMore(u.params, i);
      var separator := if i == 0 then "?" else "&";
      out := out + (separator + u.params[i].raw);
    }
    assert u.params[..|u.params|] == u.params;
  }

  lemma NoQuery()
    ensures Query([]) == ""
  {
  }

  lemma PrintOneMore(params: seq<Param>, i: nat)
    requires i < |params|
    ensures Query(params[..i + 1]) == Query(params[..i]) + ((if i == 0 then "?" else "&") + params[i].raw)
  {
    hide JoinAmp;
    var init, next := params[..i], params[..i + 1];
    assert Raws(next) == Raws(init) + [params[i].raw];
    JoinSnoc(Raws(init), params[i].raw);
    assert Query(next) == "?" + JoinAmp(Raws(next));
    var joined := JoinAmp(Raws(init));
    if i == 0 {
      JoinNothing();
      assert init == [] && joined == "";
      assert joined + "" + params[i].raw == params[i].raw;
    } else {
      assert Query(init) == "?" + joined;
      assert "?" + (joined + "&" + params[i].raw) == ("?" + joined) + ("&" + params[i].raw);
    }
  }

  function Behind(done: seq<Param>, rest: Option<seq<Param>>): Option<seq<Param>> {
    match rest case None => None case Some(ps) => Some(done + ps)
  }

  lemma ReadOnePair(done: seq<Param>, query: string)
    requires query != ""
    ensures var pair := Cut(query, '&').0; var tail := Cut(query, '&').1;
            Behind(done, ReadParams(Pairs(query))) ==
            match ReadParam(pair) case None => None case Some(p) => Behind(done + [p], ReadParams(Pairs(tail)))
  {
    hide Cut, ReadParam;
    var (pair, tail, _) := Cut(query, '&');
    assert Pairs(query)[1..] == Pairs(tail);
    if ReadParam(pair).Some? && ReadParams(Pairs(tail)).Some? {
      var p, ps := ReadParam(pair).value, ReadParams(Pairs(tail)).value;
      assert done + ([p] + ps) == (done + [p]) + ps;
    }
  }

  // parseDatabaseURI behind its call of the driver's own validation.
  method ParseDatabaseUri(dsn: string) returns (parsed: Option<Uri>)
    ensures parsed == Parse(dsn)
  {
    hide ReadParam, PathUnescape, First, ReadParams, Pairs, HostEnd, SplitUser, Cut;
    if SchemeOf(dsn).None? {
      return None;
    }
    var (scheme, rest) := SchemeOf(dsn).value;
    var (user, tail) := SplitUser(rest);
    var hosts := FindHostEnd(tail);
    if hosts.None? {
      return None;
    }
    var (path, query, _) := Cut(tail[hosts.value..], '?');
    var params := ReadQuery(query);
    return match params case None => None case Some(ps) => Some(Uri(scheme, user, tail[..hosts.value], path, ps));
  }

  method FindHostEnd(tail: string) returns (r: Option<nat>)
    ensures r == HostEnd(tail, 0)
  {
    hide First;
    var end := 0;
    while end < |tail| && tail[end] != '/' && tail[end] != '?'
      invariant 0 <= end <= |tail|
      invariant HostEnd(tail, 0) == HostEnd(tail, end)
    {
      var hostStart := end == 0 || tail[end - 1] == ',';
      if hostStart && tail[end] == '[' {
        var close := First(tail, end, ']', ']');
        if close == |tail| {
          return None;
        }
        end := close;
      }
      end := end + 1;
    }
    r := Some(end);
  }

  method ReadQuery(query: string) returns (params: Option<seq<Param>>)
    ensures params == ReadParams(Pairs(query))
  {
    hide ReadParam, Cut;
    var done: seq<Param> := [];
    var rest := query;
    if ReadParams(Pairs(query)).Some? {
      assert done + ReadParams(Pairs(query)).value == ReadParams(Pairs(query)).value;
    }
    while rest != ""
      invariant ReadParams(Pairs(query)) == Behind(done, ReadParams(Pairs(rest)))
      decreases |rest|
    {
      var (pair, tail, _) := Cut(rest, '&');
      ReadOnePair(done, rest);
      var param := ReadParam(pair);
      if param.None? {
        return None;
      }
      done := done + [param.value];
      rest := tail;
    }
    assert done + [] == done;
    return Some(done);
  }

  method DropKeys(params: seq<Param>, keys: set<string>) returns (kept: seq<Param>)
    ensures kept == WithoutKeys(params, keys)
  {
    kept := [];
    for i := 0 to |params|
      invariant kept == WithoutKeys(params[..i], keys)
    {
      assert params[..i + 1][..i] == params[..i];
      if params[i].key !in keys {
        kept := kept + [params[i]];
      }
    }
    assert params[..|params|] == params;
  }

  // withDatabase: an unreadable URI is handed back unchanged.
  method WithDatabase(rawUrl: string, database: string) returns (out: string)
    requires IsByteString(database)
    ensures Parse(rawUrl).None? ==> out == rawUrl
    ensures Parse(rawUrl).Some? ==> out == Print(RedirectTo(Parse(rawUrl).value, database))
  {
    var parsed := ParseDatabaseUri(rawUrl);
    if parsed.None? {
      return rawUrl;
    }
    var u := parsed.value;
    var params := DropKeys(u.params, {"dbname", "database"});
    params := params + [Param("dbname=" + PathEscape(database), "dbname", database)];
    out := PrintUri(u.(path := "/" + PathEscape(database), params := params));
  }
}
