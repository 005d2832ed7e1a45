// The keyword form of a libpq connection string ("host=db password='a b' ...")
// and the walk that takes the password out of it (internal/backup/connection.go).
module KeywordDsn {
  import opened Wrappers

  predicate IsSpace(c: char) {
    c == ' ' || c == '\t' || c == '\n' || c == '\r' || c == '\U{0B}' || c == '\U{0C}'
  }

  // One assignment: its key, the decoded value, and the bytes it was written with.
  datatype Setting = Setting(key: string, value: string, raw: string)

  // ----- the grammar ---------------------------------------------------------

  function SkipSpaces(s: string, i: nat): (r: nat)
    requires i <= |s|
    ensures i <= r <= |s|
    ensures r < |s| ==> !IsSpace(s[r])
    decreases |s| - i
  {
    if i < |s| && IsSpace(s[i]) then SkipSpaces(s, i + 1) else i
  }

  function KeyEnd(s: string, i: nat): (r: nat)
    requires i <= |s|
    ensures i <= r <= |s|
    decreases |s| - i
  {
    if i < |s| && s[i] != '=' && !IsSpace(s[i]) then KeyEnd(s, i + 1) else i
  }

  // The decoded value that starts at i and the position just behind it.
  function ScanValue(s: string, i: nat, quoted: bool): (r: Option<(string, nat)>)
    requires i <= |s|
    ensures r.Some? ==> i <= r.value.1 <= |s|
    ensures r.Some? && !quoted && i < |s| && !IsSpace(s[i]) ==> i < r.value.1
    decreases |s| - i
  {
    if i == |s| then if quoted then None else Some(("", i))
    else if quoted && s[i] == '\'' then Some(("", i + 1))
    else if !quoted && IsSpace(s[i]) then Some(("", i))
    else if s[i] == '\\' then
      if i + 1 == |s| then None else Prepend(s[i + 1], ScanValue(s, i + 2, quoted))
    else Prepend(s[i], ScanValue(s, i + 1, quoted))
  }

  function Prepend(c: char, scan: Option<(string, nat)>): Option<(string, nat)> {
    match scan
    case None => None
    case Some((value, end)) => Some(([c] + value, end))
  }

  // The position of the '=' of the assignment that starts at i, if it has one.
  function EqualsSign(s: string, i: nat): (r: nat)
    requires i <= |s|
    ensures i <= r <= |s|
  {
    SkipSpaces(s, KeyEnd(s, i))
  }

  // The decoded value of the assignment that starts at i, and its end.
  function ReadBounds(s: string, i: nat): (r: Option<(string, nat)>)
    requires i <= |s|
    ensures r.Some? ==> i < r.value.1 <= |s|
  {
    var eq := EqualsSign(s, i);
    if eq == |s| || s[eq] != '=' then None
    else
      QuotedOrBare(s, SkipSpaces(s, eq + 1))
  }

  function QuotedOrBare(s: string, v: nat): (r: Option<(string, nat)>)
    requires v <= |s|
    ensures r.Some? ==> v <= r.value.1 <= |s|
    ensures r.Some? && v < |s| && !IsSpace(s[v]) ==> v < r.value.1
  {
    if v < |s| && s[v] == '\'' then ScanValue(s, v + 1, true) else ScanValue(s, v, false)
  }

  // The assignment that starts at i, and the position just behind it.
  function ReadSetting(s: string, i: nat): (r: Option<(Setting, nat)>)
    requires i <= |s|
    ensures r.Some? ==> i < r.value.1 <= |s| && r.value.0.raw == s[i..r.value.1]
  {
    match ReadBounds(s, i)
    case None => None
    case Some((value, end)) => Some((Setting(s[i..KeyEnd(s, i)], value, s[i..end]), end))
  }

  // All assignments from position i on; None for a malformed string.
  function Settings(s: string, i: nat): Option<seq<Setting>>
    requires i <= |s|
    decreases |s| - i
  {
    var p := SkipSpaces(s, i);
    if p == |s| then Some([]) else
    match ReadSetting(s, p)
    case None => None
    case Some((setting, end)) =>
      match Settings(s, end)
      case None => None
      case Some(rest) => Some([setting] + rest)
  }

  function WithoutPassword(settings: seq<Setting>): (r: seq<Setting>)
    ensures forall t :: t in r <==> t in settings && t.key != "password"
  {
    if settings == [] then []
    else (if settings[0].key == "password" then [] else [settings[0]]) + WithoutPassword(settings[1..])
  }

  // The decoded value of the last password assignment.
  function LastPassword(settings: seq<Setting>): (r: Option<string>)
    ensures r.None? <==> forall t :: t in settings ==> t.key != "password"
    ensures r.Some? ==> exists t :: t in settings && t.key == "password" && t.value == r.value
  {
    if settings == [] then None
    else
      var t := settings[|settings| - 1];
      var init := settings[..|settings| - 1];
      assert settings == init + [t];
      if t.key == "password" then Some(t.value) else LastPassword(init)
  }

  function Raws(settings: seq<Setting>): seq<string> {
    seq(|settings|, i requires 0 <= i < |settings| => settings[i].raw)
  }

  function Join(parts: seq<string>): string {
    if parts == [] then ""
    else if |parts| == 1 then parts[0]
    else parts[0] + " " + Join(parts[1..])
  }

  // ----- what the walk computes ---------------------------------------------

  // Reading one more assignment: what is kept and which password is the last.
  lemma ReadOneMore(done: seq<Setting>, t: Setting)
    ensures Raws(WithoutPassword(done + [t])) ==
      Raws(WithoutPassword(done)) + (if t.key == "password" then [] else [t.raw])
    ensures LastPassword(done + [t]) == if t.key == "password" then Some(t.value) else LastPassword(done)
  {
    hide WithoutPassword;
    WithoutPasswordSnoc(done, t);
    assert (done + [t])[..|done|] == done;
  }

  lemma {:induction false} WithoutPasswordSnoc(done: seq<Setting>, t: Setting)
    ensures WithoutPassword(done + [t]) == WithoutPassword(done) + (if t.key == "password" then [] else [t])
  {
    if done == [] {
      assert done + [t] == [t];
      assert [t][1..] == [];
    } else {
      assert (done + [t])[1..] == done[1..] + [t];
      WithoutPasswordSnoc(done[1..], t);
      Prepended(if done[0].key == "password" then [] else [done[0]],
                WithoutPassword(done[1..]), if t.key == "password" then [] else [t]);
    }
  }

  lemma Prepended(a: seq<Setting>, b: seq<Setting>, c: seq<Setting>)
    ensures a + (b + c) == a + b + c
  {}

  method SkipSpacesLoop(dsn: string, start: nat) returns (i: nat)
    requires start <= |dsn|
    ensures i == SkipSpaces(dsn, start)
  {
    i := start;
    while i < |dsn| && IsSpace(dsn[i])
      invariant start <= i <= |dsn|
      invariant SkipSpaces(dsn, i) == SkipSpaces(dsn, start)
    {
      i := i + 1;
    }
  }

  method KeyLoop(dsn: string, start: nat) returns (i: nat)
    requires start <= |dsn|
    ensures i == KeyEnd(dsn, start)
  {
    i := start;
    while i < |dsn| && dsn[i] != '=' && !IsSpace(dsn[i])
      invariant start <= i <= |dsn|
      invariant KeyEnd(dsn, i) == KeyEnd(dsn, start)
    {
      i := i + 1;
    }
  }

  // The walk over one assignment, from its first byte.
  method ReadAssignment(dsn: string, start: nat) returns (ok: bool, key: string, value: string, i: nat)
    requires start <= |dsn|
    ensures ok <==> ReadSetting(dsn, start).Some?
    ensures ok ==> start < i <= |dsn| && ReadSetting(dsn, start) == Some((Setting(key, value, dsn[start..i]), i))
  {
    ok, key, value, i := false, "", "", start;
    i := KeyLoop(dsn, i);
    key := dsn[start..i];
    i := SkipSpacesLoop(dsn, i);
    if i == |dsn| || dsn[i] != '=' {
      return;
    }
    i := SkipSpacesLoop(dsn, i + 1);
    var quoted := i < |dsn| && dsn[i] == '\'';
    if quoted {
      i := i + 1;
    }
    ok, value, i := ReadValue(dsn, i, quoted);
  }

  function Extend(prefix: string, scan: Option<(string, nat)>): Option<(string, nat)> {
    match scan
    case None => None
    case Some((value, end)) => Some((prefix + value, end))
  }

  lemma ExtendPrepend(prefix: string, c: char, scan: Option<(string, nat)>)
    ensures Extend(prefix, Prepend(c, scan)) == Extend(prefix + [c], scan)
  {
    if scan.Some? {
      assert prefix + ([c] + scan.value.0) == (prefix + [c]) + scan.value.0;
    }
  }

  lemma ExtendEmpty(prefix: string, scan: Option<(string, nat)>)
    ensures Extend("", scan) == scan
    ensures scan.Some? && scan.value.0 == "" ==> Extend(prefix, scan) == Some((prefix, scan.value.1))
  {
    if scan.Some? {
      assert "" + scan.value.0 == scan.value.0;
      assert prefix + "" == prefix;
    }
  }

  // The innermost loop: quotes, backslash escapes and the end of a bare value.
  method ReadValue(dsn: string, start: nat, quoted: bool) returns (closed: bool, value: string, i: nat)
    requires start <= |dsn|
    ensures ScanValue(dsn, start, quoted) == if closed then Some((value, i)) else None
  {
    i, value, closed := start, "", !quoted;
    ExtendEmpty("", ScanValue(dsn, start, quoted));
    while i < |dsn|
      invariant start <= i <= |dsn|
      invariant closed == !quoted
      invariant ScanValue(dsn, start, quoted) == Extend(value, ScanValue(dsn, i, quoted))
    {
      var c := dsn[i];
      if quoted && c == '\'' {
        ExtendEmpty(value, ScanValue(dsn, i, quoted));
        return true, value, i + 1;
      }
      if !quoted && IsSpace(c) {
        ExtendEmpty(value, ScanValue(dsn, i, quoted));
        return true, value, i;
      }
      ghost var at := i;
      i := i + 1;
      if c == '\\' {
        if i == |dsn| {
          return false, value, i;
        }
        c := dsn[i];
        i := i + 1;
      }
      assert ScanValue(dsn, at, quoted) == Prepend(c, ScanValue(dsn, i, quoted));
      ExtendPrepend(value, c, ScanValue(dsn, i, quoted));
      value := value + [c];
    }
    ExtendEmpty(value, ScanValue(dsn, i, quoted));
  }

  function Then(done: seq<Setting>, rest: Option<seq<Setting>>): Option<seq<Setting>> {
    match rest case None => None case Some(ts) => Some(done + ts)
  }

  lemma SettingsStep(dsn: string, i: nat, start: nat, t: Setting, end: nat, done: seq<Setting>)
    requires i <= |dsn| && start == SkipSpaces(dsn, i) < |dsn|
    requires ReadSetting(dsn, start) == Some((t, end))
    ensures Then(done, Settings(dsn, i)) == Then(done + [t], Settings(dsn, end))
  {
    if Settings(dsn, end).Some? {
      var rest := Settings(dsn, end).value;
      assert done + ([t] + rest) == (done + [t]) + rest;
    }
  }

  // The decoded value of the last password assignment, and the rest joined by spaces.
  method StripDsnPassword(dsn: string) returns (ok: bool, clean: string, password: string, found: bool)
    ensures ok <==> Settings(dsn, 0).Some?
    ensures ok ==> clean == Join(Raws(WithoutPassword(Settings(dsn, 0).value)))
    ensures ok ==> (if found then Some(password) else None) == LastPassword(Settings(dsn, 0).value)
  {
    var parts: seq<string> := [];
    ok, clean, password, found := false, "", "", false;
    var i := 0;
    ghost var done: seq<Setting> := [];
    if Settings(dsn, 0).Some? {
      assert done + Settings(dsn, 0).value == Settings(dsn, 0).value;
    }
    while i < |dsn|
      invariant 0 <= i <= |dsn|
      invariant Settings(dsn, 0) == Then(done, Settings(dsn, i))
      invariant parts == Raws(WithoutPassword(done))
      invariant (if found then Some(password) else None) == LastPassword(done)
    {
      var before := i;
      i := SkipSpacesLoop(dsn, i);
      if i == |dsn| {
        break;
      }
      var start := i;
      var read, key, value;
      read, key, value, i := ReadAssignment(dsn, start);
      if !read {
        return false, "", "", false;
      }
      ghost var t := Setting(key, value, dsn[start..i]);
      SettingsStep(dsn, before, start, t, i, done);
      ReadOneMore(done, t);
      if key == "password" {
        password, found := value, true;
      } else {
        parts := parts + [dsn[start..i]];
      }
      done := done + [t];
    }
    assert done + [] == done;
    return true, Join(parts), password, found;
  }

  // ----- what the walk keeps -------------------------------------------------

  // u holds the bytes s[i..n], moved by d.
  ghost predicate Copied(s: string, i: nat, n: nat, u: string, d: int) {
    && i <= n <= |s| && 0 <= i + d && n + d <= |u|
    && forall k {:trigger s[k]} :: i <= k < n ==> u[k + d] == s[k]
  }

  lemma {:induction false} SkipSpacesLocal(s: string, i: nat, n: nat, u: string, d: int)
    requires Copied(s, i, n, u, d)
    requires SkipSpaces(s, i) < n || (SkipSpaces(s, i) == n == |s| && n + d == |u|)
    ensures SkipSpaces(u, i + d) == SkipSpaces(s, i) + d
    decreases |s| - i
  {
    if i < n && IsSpace(s[i]) {
      SkipSpacesLocal(s, i + 1, n, u, d);
    }
  }

  lemma {:induction false} KeyEndLocal(s: string, i: nat, n: nat, u: string, d: int)
    requires Copied(s, i, n, u, d) && KeyEnd(s, i) < n
    ensures KeyEnd(u, i + d) == KeyEnd(s, i) + d
    decreases |s| - i
  {
    if s[i] != '=' && !IsSpace(s[i]) {
      KeyEndLocal(s, i + 1, n, u, d);
    }
  }

  // A value needs only its own bytes and, unquoted, a space or the end behind it.
  lemma {:induction false} ScanValueLocal(s: string, i: nat, quoted: bool, value: string, n: nat, u: string, d: int)
    requires i <= |s| && ScanValue(s, i, quoted) == Some((value, n))
    requires Copied(s, i, n, u, d)
    requires quoted || n + d == |u| || IsSpace(u[n + d])
    ensures ScanValue(u, i + d, quoted) == Some((value, n + d))
    decreases |s| - i
  {
    if i < n && !(quoted && s[i] == '\'') {
      var j := if s[i] == '\\' then i + 2 else i + 1;
      ScanValueLocal(s, j, quoted, value[1..], n, u, d);
    }
  }

  lemma CopiedSlice(s: string, i: nat, n: nat, u: string, d: int, k: nat)
    requires Copied(s, i, n, u, d) && i <= k <= n
    ensures u[i + d..k + d] == s[i..k]
  {
    forall x | 0 <= x < k - i ensures u[i + d..k + d][x] == s[i..k][x] {
      assert u[i + x + d] == s[i + x];
    }
  }

  lemma EqualsLocal(s: string, i: nat, n: nat, u: string, d: int)
    requires Copied(s, i, n, u, d) && EqualsSign(s, i) < n
    ensures KeyEnd(u, i + d) == KeyEnd(s, i) + d
    ensures EqualsSign(u, i + d) == EqualsSign(s, i) + d
    ensures u[EqualsSign(s, i) + d] == s[EqualsSign(s, i)]
  {
    KeyEndLocal(s, i, n, u, d);
    SkipSpacesLocal(s, KeyEnd(s, i), n, u, d);
  }

  lemma QuotedOrBareLocal(s: string, v: nat, value: string, n: nat, u: string, d: int)
    requires v <= |s| && QuotedOrBare(s, v) == Some((value, n))
    requires Copied(s, v, n, u, d)
    requires n + d == |u| || (n < |s| && IsSpace(u[n + d]))
    requires v < n || n == |s|
    ensures QuotedOrBare(u, v + d) == Some((value, n + d))
  {
    if v < |s| && s[v] == '\'' {
      ScanValueLocal(s, v + 1, true, value, n, u, d);
    } else {
      ScanValueLocal(s, v, false, value, n, u, d);
    }
  }

  // An assignment copied elsewhere reads the same when a space or the end
  // follows; one that ran to the end of s must again stand at the end.
  lemma ReadBoundsLocal(s: string, i: nat, value: string, n: nat, u: string, d: int)
    requires i <= |s| && ReadBounds(s, i) == Some((value, n))
    requires Copied(s, i, n, u, d)
    requires n + d == |u| || (n < |s| && IsSpace(u[n + d]))
    ensures KeyEnd(u, i + d) == KeyEnd(s, i) + d
    ensures ReadBounds(u, i + d) == Some((value, n + d))
  {
    var eq := EqualsSign(s, i);
    var v := SkipSpaces(s, eq + 1);
    EqualsLocal(s, i, n, u, d);
    SkipSpacesLocal(s, eq + 1, n, u, d);
    QuotedOrBareLocal(s, v, value, n, u, d);
  }

  lemma ReadSettingLocal(s: string, i: nat, t: Setting, n: nat, u: string, d: int)
    requires i <= |s| && ReadSetting(s, i) == Some((t, n))
    requires Copied(s, i, n, u, d)
    requires n + d == |u| || (n < |s| && IsSpace(u[n + d]))
    ensures ReadSetting(u, i + d) == Some((t, n + d))
  {
    ReadBoundsLocal(s, i, t.value, n, u, d);
    CopiedSlice(s, i, n, u, d, n);
    CopiedSlice(s, i, n, u, d, KeyEnd(s, i));
  }

  // The joined text of a nonempty list starts with the first raw part.
  lemma JoinHead(t: Setting, kept: seq<Setting>, u: string, j: nat)
    requires j <= |u| && u[j..] == Join(Raws([t] + kept))
    ensures j + |t.raw| <= |u| && u[j..j + |t.raw|] == t.raw
    ensures kept == [] ==> j + |t.raw| == |u|
    ensures kept != [] ==> j + |t.raw| < |u| && u[j + |t.raw|] == ' ' && u[j + |t.raw| + 1..] == Join(Raws(kept))
  {
    assert Raws([t] + kept)[1..] == Raws(kept);
    var b := j + |t.raw|;
    assert u[j..] == t.raw + (if kept == [] then "" else " " + Join(Raws(kept)));
    assert u[j..b] == u[j..][..|t.raw|];
    if kept != [] {
      assert u[b] == u[j..][|t.raw|];
      assert u[b + 1..] == u[j..][|t.raw| + 1..];
    }
  }

  lemma CopyReads(s: string, p: nat, t: Setting, e: nat, u: string, j: nat)
    requires p < |s| && !IsSpace(s[p]) && ReadSetting(s, p) == Some((t, e))
    requires j + |t.raw| <= |u| && u[j..j + |t.raw|] == t.raw
    requires j + |t.raw| == |u| || (e < |s| && u[j + |t.raw|] == ' ')
    ensures j < |u| && SkipSpaces(u, j) == j && ReadSetting(u, j) == Some((t, j + |t.raw|))
  {
    forall k {:trigger s[k]} | p <= k < e ensures u[k + (j - p)] == s[k] {
      assert u[j..j + |t.raw|][k - p] == t.raw[k - p];
    }
    assert u[j] == s[p];
    ReadSettingLocal(s, p, t, e, u, j - p);
  }

  // From position j on, u holds exactly the surviving assignments of s from i on.
  lemma {:induction false} CleanReads(s: string, i: nat, u: string, j: nat)
    requires i <= |s| && j <= |u| && Settings(s, i).Some?
    requires u[j..] == Join(Raws(WithoutPassword(Settings(s, i).value)))
    ensures Settings(u, j) == Some(WithoutPassword(Settings(s, i).value))
    decreases |s| - i
  {
    hide ReadSetting, WithoutPassword, Join, Raws;
    var p := SkipSpaces(s, i);
    if p == |s| {
      JoinNil();
      assert u[j..] == "";
      EndReads(u, j);
    } else {
      var (t, e) := ReadSetting(s, p).value;
      var rest := Settings(s, e).value;
      WithoutPasswordCons(t, rest);
      var kept := WithoutPassword(rest);
      if t.key == "password" {
        CleanReads(s, e, u, j);
      } else {
        JoinHead(t, kept, u, j);
        if kept != [] {
          CleanReads(s, e, u, j + |t.raw| + 1);
        }
        KeptReads(s, p, t, e, u, j, kept);
      }
    }
  }

  // One kept assignment in front of text that already reads as the rest.
  lemma KeptReads(s: string, p: nat, t: Setting, e: nat, u: string, j: nat, kept: seq<Setting>)
    requires p < |s| && !IsSpace(s[p]) && ReadSetting(s, p) == Some((t, e))
    requires j + |t.raw| <= |u| && u[j..j + |t.raw|] == t.raw
    requires if kept == [] then j + |t.raw| == |u| else
             e < |s| && j + |t.raw| < |u| && u[j + |t.raw|] == ' ' && Settings(u, j + |t.raw| + 1) == Some(kept)
    ensures Settings(u, j) == Some([t] + kept)
  {
    hide ReadSetting, SkipSpaces;
    CopyReads(s, p, t, e, u, j);
    if kept != [] {
      SpaceSkipped(u, j + |t.raw|);
    }
  }

  lemma SpaceSkipped(u: string, b: nat)
    requires b < |u| && IsSpace(u[b])
    ensures Settings(u, b) == Settings(u, b + 1)
  {
  }

  lemma JoinNil()
    ensures WithoutPassword([]) == [] && Join(Raws([])) == ""
  {
  }

  lemma EndReads(u: string, j: nat)
    requires j <= |u| && u[j..] == ""
    ensures Settings(u, j) == Some([])
  {
    assert j == |u|;
  }

  lemma WithoutPasswordCons(t: Setting, rest: seq<Setting>)
    ensures WithoutPassword([t] + rest) == (if t.key == "password" then [] else [t]) + WithoutPassword(rest)
    ensures t.key == "password" ==> WithoutPassword([t] + rest) == WithoutPassword(rest)
  {
    assert ([t] + rest)[1..] == rest;
    assert [] + WithoutPassword(rest) == WithoutPassword(rest);
  }

  // Re-reading the cleaned string gives the original assignments, byte for byte
  // and in order, with every password assignment gone.
  lemma StripKeepsOtherSettings(dsn: string)
    requires Settings(dsn, 0).Some?
    ensures var clean := Join(Raws(WithoutPassword(Settings(dsn, 0).value)));
            Settings(clean, 0) == Some(WithoutPassword(Settings(dsn, 0).value))
  {
    var clean := Join(Raws(WithoutPassword(Settings(dsn, 0).value)));
    assert clean[0..] == clean;
    CleanReads(dsn, 0, clean, 0);
  }

  lemma {:induction false} WithoutPasswordIdempotent(settings: seq<Setting>)
    ensures WithoutPassword(WithoutPassword(settings)) == WithoutPassword(settings)
  {
    if settings != [] {
      var kept := WithoutPassword(settings[1..]);
      WithoutPasswordIdempotent(settings[1..]);
      if settings[0].key != "password" {
        assert ([settings[0]] + kept)[1..] == kept;
      } else {
        assert WithoutPassword(settings) == [] + kept == kept;
      }
    }
  }

  // A second pass over the cleaned string finds no password and changes no byte.
  lemma StripIsIdempotent(dsn: string)
    requires Settings(dsn, 0).Some?
    ensures var clean := Join(Raws(WithoutPassword(Settings(dsn, 0).value)));
            && Settings(clean, 0).Some?
            && Join(Raws(WithoutPassword(Settings(clean, 0).value))) == clean
            && LastPassword(Settings(clean, 0).value) == None
  {
    StripKeepsOtherSettings(dsn);
    WithoutPasswordIdempotent(Settings(dsn, 0).value);
  }

  // ----- what a value means --------------------------------------------------

  // libpq's quoting: a backslash before every quote and backslash.
  function Escape(value: string): string {
    if value == "" then ""
    else (if value[0] == '\'' || value[0] == '\\' then ['\\', value[0]] else [value[0]]) + Escape(value[1..])
  }

  lemma {:induction false} QuotedValueDecodes(value: string, s: string, i: nat)
    requires i <= |s| && s[i..] == Escape(value) + "'"
    ensures ScanValue(s, i, true) == Some((value, |s|))
    decreases |value|
  {
    if value == "" {
      assert s[i] == s[i..][0];
    } else {
      var head := if value[0] == '\'' || value[0] == '\\' then ['\\', value[0]] else [value[0]];
      var rest := Escape(value[1..]) + "'";
      assert s[i..] == head + rest;
      assert s[i] == s[i..][0];
      if |head| == 2 {
        assert s[i + 1] == s[i..][1];
      }
      assert s[i + |head|..] == s[i..][|head|..] == rest;
      QuotedValueDecodes(value[1..], s, i + |head|);
      assert value == [value[0]] + value[1..];
    }
  }

  // Whatever the password is, writing it quoted and reading it back returns it.
  lemma QuotedPasswordIsReturned(password: string)
    ensures var settings := Settings("password='" + Escape(password) + "'", 0);
            settings.Some? && LastPassword(settings.value) == Some(password) && WithoutPassword(settings.value) == []
  {
    var s := "password='" + Escape(password) + "'";
    assert s[10..] == Escape(password) + "'";
    PasswordKey(s);
    QuotedValueDecodes(password, s, 10);
    assert ReadBounds(s, 0) == Some((password, |s|));
    var t := Setting("password", password, s[0..|s|]);
    OnlySetting(s, t);
    WithoutPasswordCons(t, []);
    assert [t] + [] == [t];
  }

  lemma OnlySetting(s: string, t: Setting)
    requires s != "" && SkipSpaces(s, 0) == 0 && ReadSetting(s, 0) == Some((t, |s|))
    ensures Settings(s, 0) == Some([t])
  {
    hide ReadSetting;
    assert Settings(s, |s|) == Some([]);
    assert [t] + [] == [t];
  }

  lemma PasswordKey(s: string)
    requires 10 <= |s| && s[..10] == "password='"
    ensures SkipSpaces(s, 0) == 0 && KeyEnd(s, 0) == 8 && EqualsSign(s, 0) == 8 && SkipSpaces(s, 9) == 9
    ensures s[8] == '=' && s[9] == '\'' && s[0..8] == "password"
  {
    assert forall k :: 0 <= k < 10 ==> s[k] == s[..10][k];
    assert KeyEnd(s, 8) == 8;
    assert KeyEnd(s, 7) == 8;
    assert KeyEnd(s, 6) == 8;
    assert KeyEnd(s, 5) == 8;
    assert KeyEnd(s, 4) == 8;
    assert KeyEnd(s, 3) == 8;
    assert KeyEnd(s, 2) == 8;
    assert KeyEnd(s, 1) == 8;
  }

  // A key may be any text without spaces and equals signs.
  lemma AnyKeyIsKept(s: string, rest: string, key: string)
    requires s == "password=''" + rest && rest == " " + (key + "=")
    requires key != "" && key != "password" && forall i :: 0 <= i < |key| ==> key[i] != '=' && !IsSpace(key[i])
    ensures Settings(s, 0).Some? && WithoutPassword(Settings(s, 0).value) == [Setting(key, "", key + "=")]
  {
    hide WithoutPassword, Settings, ReadSetting, IsSpace, SkipSpaces, KeyEnd;
    var first, second := Setting("password", "", "password=''"), Setting(key, "", key + "=");
    assert rest[1] == key[0];
    EmptyPasswordReads(s, rest);
    assert s[12..] == rest[1..] == key + "=";
    LastKeyReads(s, 12, key);
    NoMoreSettings(s);
    OneMoreSetting(s, 11, 12, second, |s|, []);
    OneMoreSetting(s, 0, 0, first, 11, [second] + []);
    TwoKept(first, second);
  }

  lemma TwoKept(first: Setting, second: Setting)
    requires first.key == "password" && second.key != "password"
    ensures WithoutPassword([first] + ([second] + [])) == [second]
  {
    WithoutPasswordCons(second, []);
    WithoutPasswordCons(first, [second] + []);
    NothingKept();
  }

  lemma OneMoreSetting(s: string, i: nat, p: nat, t: Setting, end: nat, rest: seq<Setting>)
    requires i <= p < |s| && SkipSpaces(s, i) == p && ReadSetting(s, p) == Some((t, end))
    requires end <= |s| && Settings(s, end) == Some(rest)
    ensures Settings(s, i) == Some([t] + rest)
  {
    hide ReadSetting;
  }

  lemma NoMoreSettings(s: string)
    ensures Settings(s, |s|) == Some([])
  {}

  lemma EmptyPasswordReads(s: string, rest: string)
    requires s == "password=''" + rest && rest != "" && rest[0] == ' ' && |rest| > 1 && !IsSpace(rest[1])
    ensures SkipSpaces(s, 0) == 0 && SkipSpaces(s, 11) == 12
    ensures ReadSetting(s, 0) == Some((Setting("password", "", "password=''"), 11))
  {
    assert s[..10] == "password='" && s[10] == '\'' && s[11] == ' ' && s[12] == rest[1] && s[0..11] == "password=''";
    PasswordKey(s);
    assert ScanValue(s, 10, true) == Some(("", 11));
  }

  // An assignment that ends the string with an empty value.
  lemma LastKeyReads(s: string, i: nat, key: string)
    requires i <= |s| && s[i..] == key + "=" && key != ""
    requires forall k :: 0 <= k < |key| ==> key[k] != '=' && !IsSpace(key[k])
    ensures ReadSetting(s, i) == Some((Setting(key, "", key + "="), |s|))
  {
    var n := |s| - 1;
    forall k | i <= k < n ensures s[k] == key[k - i] {
      assert s[k] == s[i..][k - i];
    }
    assert s[n] == s[i..][n - i] == '=';
    KeyEndAt(s, i, n);
    assert s[i..n] == s[i..][..n - i] == key && s[i..|s|] == s[i..];
    assert SkipSpaces(s, n) == n && SkipSpaces(s, n + 1) == |s|;
    assert QuotedOrBare(s, |s|) == Some(("", |s|));
  }

  lemma NothingKept()
    ensures WithoutPassword([]) == []
  {}

  lemma {:induction false} KeyEndAt(s: string, i: nat, n: nat)
    requires i <= n < |s| && s[n] == '=' && forall k :: i <= k < n ==> s[k] != '=' && !IsSpace(s[k])
    ensures KeyEnd(s, i) == n
    decreases n - i
  {
    if i < n {
      KeyEndAt(s, i + 1, n);
    }
  }
}
