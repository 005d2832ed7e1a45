// dbURLEnv: the password leaves the connection string and travels in PGPASSWORD
// (internal/backup/connection.go). The driver's own validation, which runs
// first, is not part of this model.
module ConnectionEnv {
  import opened Wrappers
  import KeywordDsn
  import DatabaseUri
  import Text

  const VARIABLE := "PGPASSWORD="

  predicate IsPassword(item: string) { VARIABLE <= item }

  function Others(environ: seq<string>): (r: seq<string>)
    ensures forall item :: item in r <==> item in environ && !IsPassword(item)
  {
    if environ == [] then []
    else
      var init, last := environ[..|environ| - 1], environ[|environ| - 1];
      assert environ == init + [last];
      Others(init) + (if IsPassword(last) then [] else [last])
  }

  // os.LookupEnv: the first entry counts.
  function Inherited(environ: seq<string>): (r: Option<string>)
    ensures r.None? <==> forall item :: item in environ ==> !IsPassword(item)
    ensures r.Some? ==> VARIABLE + r.value in environ
  {
    if environ == [] then None
    else if IsPassword(environ[0]) then
      assert environ[0] == VARIABLE + environ[0][|VARIABLE|..];
      Some(environ[0][|VARIABLE|..])
    else Inherited(environ[1..])
  }

  predicate IsUri(dsn: string) { "postgres://" <= dsn || "postgresql://" <= dsn }

  // The password of the user part: None when it cannot be decoded, Some(None)
  // when there is none or it is empty.
  function UserPassword(u: DatabaseUri.Uri): Option<Option<string>> {
    if u.user.None? then Some(None) else
    var (_, raw, given) := Text.Cut(u.user.value, ':');
    if !given then Some(None) else
    match DatabaseUri.PathUnescape(DatabaseUri.TrimSpaces(raw))
    case None => None
    case Some(password) => Some(if raw == "" then None else Some(password))
  }

  // What a connection string says about the password; None when it is refused.
  function Stated(dsn: string): Option<Option<string>> {
    if IsUri(dsn) then
      match DatabaseUri.Parse(dsn)
      case None => None
      case Some(u) =>
        match UserPassword(u)
        case None => None
        case Some(fromUser) =>
          var fromQuery := DatabaseUri.LastValue(u.params, "password");
          Some(if fromQuery.Some? then fromQuery else fromUser)
    else
      match KeywordDsn.Settings(dsn, 0)
      case None => None
      case Some(settings) => Some(KeywordDsn.LastPassword(settings))
  }

  function Cleaned(dsn: string): string
    requires Stated(dsn).Some?
  {
    if IsUri(dsn) then DatabaseUri.Print(DatabaseUri.RemovePassword(DatabaseUri.Parse(dsn).value))
    else KeywordDsn.Join(KeywordDsn.Raws(KeywordDsn.WithoutPassword(KeywordDsn.Settings(dsn, 0).value)))
  }

  // The subprocess environment carries exactly one password entry, the last:
  // the one stated by the connection string, else the inherited one, else none.
  method DbUrlEnv(dsn: string, environ: seq<string>) returns (ok: bool, clean: string, env: seq<string>)
    ensures ok <==> Stated(dsn).Some?
    ensures ok ==> clean == Cleaned(dsn)
    ensures ok ==>
      var password := if Stated(dsn).value.Some? then Stated(dsn).value else Inherited(environ);
      env == Others(environ) + (if password.Some? then [VARIABLE + password.value] else [])
  {
    var password := Inherited(environ);
    if IsUri(dsn) {
      var parsed := DatabaseUri.ParseDatabaseUri(dsn);
      if parsed.None? {
        return false, "", [];
      }
      var u := parsed.value;
      if u.user.Some? {
        var (user, rawPassword, given) := Text.Cut(u.user.value, ':');
        if given {
          var decoded := DatabaseUri.PathUnescape(DatabaseUri.TrimSpaces(rawPassword));
          if decoded.None? {
            return false, "", [];
          }
          if rawPassword != "" {
            password := decoded;
          }
          u := u.(user := Some(user));
        }
      }
      var fromQuery := LastOf(u.params, "password");
      if fromQuery.Some? {
        password := fromQuery;
      }
      var params := DatabaseUri.DropKeys(u.params, {"password"});
      clean := DatabaseUri.PrintUri(u.(params := params));
    } else {
      var found, stated;
      ok, clean, stated, found := KeywordDsn.StripDsnPassword(dsn);
      if !ok {
        return false, "", [];
      }
      if found {
        password := Some(stated);
      }
    }
    env := [];
    for i := 0 to |environ|
      invariant env == Others(environ[..i])
    {
      assert environ[..i + 1][..i] == environ[..i];
      if !IsPassword(environ[i]) {
        env := env + [environ[i]];
      }
    }
    assert environ[..|environ|] == environ;
    if password.Some? {
      env := env + [VARIABLE + password.value];
    }
    ok := true;
  }

  method LastOf(params: seq<DatabaseUri.Param>, key: string) returns (value: Option<string>)
    ensures value == DatabaseUri.LastValue(params, key)
  {
    value := None;
    for i := 0 to |params|
      invariant value == DatabaseUri.LastValue(params[..i], key)
    {
      assert params[..i + 1][..i] == params[..i];
      if params[i].key == key {
        value := Some(params[i].value);
      }
    }
    assert params[..|params|] == params;
  }

  // ----- the password that comes out -------------------------------------------

  predicate IsHexOf(c: char, n: nat)
    requires n < 16
  {
    if n < 10 then c == '0' + n as char else c == 'A' + (n - 10) as char || c == 'a' + (n - 10) as char
  }

  // Percent encodings of a text: every byte stands for itself or is written in
  // hexadecimal, and '%' always is.
  predicate Encodes(e: string, s: string)
    decreases |s|
  {
    if s == "" then e == ""
    else if e == "" then false
    else if e[0] != '%' then e[0] == s[0] && Encodes(e[1..], s[1..])
    else
      && |e| >= 3 && s[0] as int < 256
      && IsHexOf(e[1], s[0] as nat / 16) && IsHexOf(e[2], s[0] as nat % 16) && Encodes(e[3..], s[1..])
  }

  lemma {:induction false} EncodedIsDecoded(e: string, s: string)
    requires Encodes(e, s)
    ensures DatabaseUri.PathUnescape(e) == Some(s)
    decreases |s|
  {
    if s != "" {
      assert s == [s[0]] + s[1..];
      if e[0] == '%' {
        assert (s[0] as nat / 16 * 16 + s[0] as nat % 16) as char == s[0];
        EncodedIsDecoded(e[3..], s[1..]);
      } else {
        EncodedIsDecoded(e[1..], s[1..]);
      }
    }
  }

  // No space at either end, where the parser would drop it.
  predicate Unspaced(e: string) { e != "" ==> e[0] != ' ' && e[|e| - 1] != ' ' }

  lemma EncodedIsRead(e: string, s: string)
    requires Encodes(e, s) && Unspaced(e)
    ensures DatabaseUri.PathUnescape(DatabaseUri.TrimSpaces(e)) == Some(s)
  {
    EncodedIsDecoded(e, s);
    Text.TrimNone(e, c => c == ' ');
  }

  lemma PrintedIsRead(u: DatabaseUri.Uri)
    requires DatabaseUri.WellFormed(u) && (u.user.Some? || !DatabaseUri.ShowsUser(DatabaseUri.PrintTail(u)))
    ensures Stated(DatabaseUri.Print(u)) ==
      match UserPassword(u)
      case None => None
      case Some(fromUser) =>
        var fromQuery := DatabaseUri.LastValue(u.params, "password");
        Some(if fromQuery.Some? then fromQuery else fromUser)
  {
    hide DatabaseUri.Parse, DatabaseUri.WellFormed, DatabaseUri.PrintTail, DatabaseUri.Front, DatabaseUri.ShowsUser, Text.Cut,
      DatabaseUri.PathUnescape, DatabaseUri.TrimSpaces;
    DatabaseUri.Reprint(u);
    SchemeOfWellFormed(u);
    SchemeIsUri(u.scheme, DatabaseUri.Front(u.user) + DatabaseUri.PrintTail(u));
    assert DatabaseUri.Print(u) == u.scheme + "://" + (DatabaseUri.Front(u.user) + DatabaseUri.PrintTail(u));
    TrailingEmptyIsNoPassword(u);
  }

  lemma SchemeOfWellFormed(u: DatabaseUri.Uri)
    requires DatabaseUri.WellFormed(u)
    ensures u.scheme == "postgres" || u.scheme == "postgresql"
  {}

  lemma TrailingEmptyIsNoPassword(u: DatabaseUri.Uri)
    requires DatabaseUri.WellFormed(u)
    ensures DatabaseUri.LastValue(DatabaseUri.DropTrailingEmpty(u.params), "password")
         == DatabaseUri.LastValue(u.params, "password")
  {
    if u.params != [] && u.params[|u.params| - 1].raw == "" {
      assert DatabaseUri.ReadParam("") == Some(u.params[|u.params| - 1]);
    }
  }

  // The password of the user part is returned as it was before it was encoded, however
  // its bytes were written, unless a parameter states another one.
  lemma UserPasswordIsReturned(u: DatabaseUri.Uri, name: string, e: string, password: string)
    requires DatabaseUri.WellFormed(u) && u.user == Some(name + ":" + e) && ':' !in name
    requires e != "" && Unspaced(e) && Encodes(e, password)
    ensures Stated(DatabaseUri.Print(u)) ==
      Some(Some(var other := DatabaseUri.LastValue(u.params, "password"); if other.Some? then other.value else password))
  {
    hide DatabaseUri.WellFormed, DatabaseUri.PrintTail, DatabaseUri.Print, Stated, Text.Cut, DatabaseUri.PathUnescape,
      DatabaseUri.TrimSpaces, Encodes, DatabaseUri.LastValue;
    EncodedIsRead(e, password);
    Text.CutIs(name + ":" + e, ':', name, e);
    PrintedIsRead(u);
  }

  // And so is that of the last parameter of this name, which counts before the user part.
  lemma ParameterPasswordIsReturned(u: DatabaseUri.Uri, before: seq<DatabaseUri.Param>, after: seq<DatabaseUri.Param>,
                                    e: string, password: string)
    requires DatabaseUri.WellFormed(u) && u.params == before + after && UserPassword(u).Some?
    requires DatabaseUri.LastValue(after, "password").None?
    requires '&' !in e && Unspaced(e) && Encodes(e, password)
    ensures var p := DatabaseUri.Param("password=" + e, "password", password);
      var v := u.(params := before + [p] + after);
      v.user.Some? || !DatabaseUri.ShowsUser(DatabaseUri.PrintTail(v)) ==>
        Stated(DatabaseUri.Print(v)) == Some(Some(password))
  {
    hide DatabaseUri.WellFormed, DatabaseUri.PrintTail, DatabaseUri.Print, Stated, DatabaseUri.PathUnescape,
      DatabaseUri.TrimSpaces, Encodes, DatabaseUri.ShowsUser, DatabaseUri.LastValue, DatabaseUri.ReadParam, Unspaced;
    var p := DatabaseUri.Param("password=" + e, "password", password);
    var v := u.(params := before + [p] + after);
    PasswordParamReads(e, password);
    OneMoreParam(u, before, after, p);
    LastOfThree(before, p, after);
    if v.user.Some? || !DatabaseUri.ShowsUser(DatabaseUri.PrintTail(v)) {
      PrintedIsRead(v);
      SameUser(u, v);
    }
  }

  lemma SameUser(u: DatabaseUri.Uri, v: DatabaseUri.Uri)
    requires u.user == v.user
    ensures UserPassword(u) == UserPassword(v)
  {}

  lemma PasswordParamReads(e: string, password: string)
    requires Unspaced(e) && Encodes(e, password)
    ensures DatabaseUri.ReadParam("password=" + e) == Some(DatabaseUri.Param("password=" + e, "password", password))
  {
    hide Text.Cut, DatabaseUri.PathUnescape, DatabaseUri.TrimSpaces, Encodes;
    EncodedIsRead(e, password);
    DatabaseUri.PlainTextUnescapes("password");
    DatabaseUri.TrimNothing("password");
    Text.CutIs("password=" + e, '=', "password", e);
  }

  lemma OneMoreParam(u: DatabaseUri.Uri, before: seq<DatabaseUri.Param>, after: seq<DatabaseUri.Param>, p: DatabaseUri.Param)
    requires DatabaseUri.WellFormed(u) && u.params == before + after
    requires '&' !in p.raw && DatabaseUri.ReadParam(p.raw) == Some(p)
    ensures DatabaseUri.WellFormed(u.(params := before + [p] + after))
  {
    hide DatabaseUri.ReadParam, DatabaseUri.HostEnd;
    var params := before + [p] + after;
    forall i | 0 <= i < |params| ensures '&' !in params[i].raw && DatabaseUri.ReadParam(params[i].raw) == Some(params[i]) {
      if i < |before| {
        assert params[i] == u.params[i];
      } else if i > |before| {
        assert params[i] == u.params[i - 1];
      }
    }
  }

  lemma {:induction false} LastOfThree(before: seq<DatabaseUri.Param>, p: DatabaseUri.Param, after: seq<DatabaseUri.Param>)
    requires p.key == "password" && DatabaseUri.LastValue(after, "password").None?
    ensures DatabaseUri.LastValue(before + [p] + after, "password") == Some(p.value)
    decreases |after|
  {
    var all := before + [p] + after;
    if after == [] {
      assert all[|all| - 1] == p;
    } else {
      var init := after[..|after| - 1];
      LastOfThree(before, p, init);
      assert all[..|all| - 1] == before + [p] + init && all[|all| - 1] == after[|after| - 1];
    }
  }

  // The cleaned string is read as something else than it is: a URI whose removed
  // parameters uncover an '@', or assignments of which the first that stays looks like
  // the start of a URI.
  predicate Misread(dsn: string)
    requires Stated(dsn).Some?
  {
    if IsUri(dsn) then DatabaseUri.Uncovers(DatabaseUri.Parse(dsn).value)
    else
      var kept := KeptSettings(dsn);
      kept != [] && IsUri(kept[0].raw)
  }

  function KeptSettings(dsn: string): seq<KeywordDsn.Setting>
    requires !IsUri(dsn) && Stated(dsn).Some?
  {
    KeywordDsn.WithoutPassword(KeywordDsn.Settings(dsn, 0).value)
  }

  // What is then read behind the scheme: the hosts and the parameters that stay, or the
  // assignments that stay.
  function MisreadText(dsn: string): string
    requires Stated(dsn).Some? && Misread(dsn)
  {
    if IsUri(dsn) then
      var u := DatabaseUri.Parse(dsn).value;
      u.hosts + DatabaseUri.Query(DatabaseUri.WithoutKeys(u.params, {"password"}))
    else
      var kept := KeywordDsn.Join(KeywordDsn.Raws(KeptSettings(dsn)));
      StartOfJoin(KeywordDsn.Raws(KeptSettings(dsn)));
      if "postgres://" <= kept then kept[11..] else kept[13..]
  }

  // Such a text mentions no password: nothing is behind a ':' before its '@', the hosts
  // and parameters behind that can be read, and none of them is a password.
  predicate Silent(text: string) {
    var (front, tail) := DatabaseUri.SplitUser(text);
    (front.Some? ==> Text.Cut(front.value, ':').1 == "") && SilentTail(tail)
  }

  predicate SilentTail(tail: string) {
    match DatabaseUri.HostEnd(tail, 0)
    case None => false
    case Some(end) =>
      match DatabaseUri.ReadParams(DatabaseUri.Pairs(Text.Cut(tail[end..], '?').1))
      case None => false
      case Some(params) => forall i :: 0 <= i < |params| ==> params[i].key != "password"
  }

  // The cleaned string states no password if and only if it is read as it was meant, or
  // what it is read as mentions none.
  lemma CleanedStatesNoPassword(dsn: string)
    requires Stated(dsn).Some?
    ensures Stated(Cleaned(dsn)) == Some(None) <==> !Misread(dsn) || Silent(MisreadText(dsn))
    ensures !IsUri(dsn) ==> (IsUri(Cleaned(dsn)) <==> Misread(dsn))
    ensures !IsUri(dsn) ==> (KeywordDsn.Settings(Cleaned(dsn), 0).Some?
                             && KeywordDsn.LastPassword(KeywordDsn.Settings(Cleaned(dsn), 0).value) == None)
  {
    hide Silent, MisreadText, Misread, Stated, Cleaned;
    if !IsUri(dsn) {
      KeywordsStayClean(dsn);
    }
    if Misread(dsn) {
      MisreadIsRead(dsn);
    } else {
      WellReadStatesNothing(dsn);
    }
  }

  lemma KeywordsStayClean(dsn: string)
    requires Stated(dsn).Some? && !IsUri(dsn)
    ensures IsUri(Cleaned(dsn)) <==> Misread(dsn)
    ensures KeywordDsn.Settings(Cleaned(dsn), 0).Some?
    ensures KeywordDsn.LastPassword(KeywordDsn.Settings(Cleaned(dsn), 0).value) == None
  {
    hide KeywordDsn.Settings, KeywordDsn.Join, KeywordDsn.WithoutPassword;
    KeywordDsn.StripIsIdempotent(dsn);
    StartOfJoin(KeywordDsn.Raws(KeptSettings(dsn)));
  }

  lemma WellReadStatesNothing(dsn: string)
    requires Stated(dsn).Some? && !Misread(dsn)
    ensures Stated(Cleaned(dsn)) == Some(None)
  {
    hide DatabaseUri.Parse, DatabaseUri.Print, KeywordDsn.Settings, KeywordDsn.Join, KeywordDsn.WithoutPassword,
      DatabaseUri.Uncovers;
    if !IsUri(dsn) {
      KeywordsStayClean(dsn);
    } else {
      CleanedUriStatesNoPassword(dsn);
    }
  }

  lemma MisreadIsRead(dsn: string)
    requires Stated(dsn).Some? && Misread(dsn)
    ensures Stated(Cleaned(dsn)) == Some(None) <==> Silent(MisreadText(dsn))
  {
    hide Silent, Stated, Misread, MisreadText, Cleaned;
    var text := MisreadText(dsn);
    var scheme := MisreadScheme(dsn);
    StatesNothingExactly(scheme, text);
  }

  lemma MisreadScheme(dsn: string) returns (scheme: string)
    requires Stated(dsn).Some? && Misread(dsn)
    ensures scheme == "postgres" || scheme == "postgresql"
    ensures Cleaned(dsn) == scheme + "://" + MisreadText(dsn)
  {
    hide DatabaseUri.Parse, KeywordDsn.Settings, KeywordDsn.Join, KeywordDsn.WithoutPassword, DatabaseUri.Query,
      DatabaseUri.WithoutKeys, DatabaseUri.FirstMark, DatabaseUri.Concat;
    if IsUri(dsn) {
      DatabaseUri.ParseWellFormed(dsn);
      scheme := DatabaseUri.Parse(dsn).value.scheme;
      PrintsUncovered(DatabaseUri.Parse(dsn).value);
    } else {
      var kept := Cleaned(dsn);
      StartOfJoin(KeywordDsn.Raws(KeptSettings(dsn)));
      scheme := if "postgres://" <= kept then "postgres" else "postgresql";
    }
  }

  lemma PrintsUncovered(u: DatabaseUri.Uri)
    requires u.user.None? && u.path == ""
    ensures DatabaseUri.Print(DatabaseUri.RemovePassword(u)) ==
      u.scheme + "://" + (u.hosts + DatabaseUri.Query(DatabaseUri.WithoutKeys(u.params, {"password"})))
  {
    hide DatabaseUri.Query, DatabaseUri.WithoutKeys;
  }

  lemma StatesNothingExactly(scheme: string, text: string)
    requires scheme == "postgres" || scheme == "postgresql"
    ensures Stated(scheme + "://" + text) == Some(None) <==> Silent(text)
  {
    hide DatabaseUri.HostEnd, DatabaseUri.ReadParams, DatabaseUri.Pairs, DatabaseUri.SplitUser, Text.Cut, DatabaseUri.LastValue,
      DatabaseUri.SchemeOf, DatabaseUri.PathUnescape, DatabaseUri.TrimSpaces;
    var dsn := scheme + "://" + text;
    DatabaseUri.SchemeReads(scheme, text);
    SchemeIsUri(scheme, text);
    var (front, tail) := DatabaseUri.SplitUser(text);
    var read := DatabaseUri.ParseTail(scheme, front, tail);
    assert DatabaseUri.Parse(dsn) == read;
    if read.Some? {
      DatabaseUri.NoValueExactly(read.value.params, "password");
      NothingUnescapes();
      if front.Some? {
        NoSeparatorNoTail(front.value, ':');
      }
    }
  }

  lemma SchemeIsUri(scheme: string, text: string)
    requires scheme == "postgres" || scheme == "postgresql"
    ensures IsUri(scheme + "://" + text)
  {
    assert scheme + "://" + text == (scheme + "://") + text;
  }

  lemma NothingUnescapes()
    ensures DatabaseUri.PathUnescape(DatabaseUri.TrimSpaces("")) == Some("")
  {}

  lemma NoSeparatorNoTail(s: string, c: char)
    ensures !Text.Cut(s, c).2 ==> Text.Cut(s, c).1 == ""
  {}

  lemma CleanedUriStatesNoPassword(dsn: string)
    requires Stated(dsn).Some? && IsUri(dsn) && !DatabaseUri.Uncovers(DatabaseUri.Parse(dsn).value)
    ensures Stated(Cleaned(dsn)) == Some(None)
  {
    hide DatabaseUri.Parse, DatabaseUri.Print, DatabaseUri.Uncovers;
    var u := DatabaseUri.Parse(dsn).value;
    var v := DatabaseUri.RemovePassword(u);
    DatabaseUri.RemovePasswordPreserves(dsn);
    var w := v.(params := DatabaseUri.DropTrailingEmpty(v.params));
    assert DatabaseUri.Parse(DatabaseUri.Print(v)) == Some(w);
    PrintsAsUri(dsn, v);
    forall i | 0 <= i < |w.params| ensures w.params[i].key != "password" {
      assert w.params[i] == v.params[i];
    }
    DatabaseUri.NoSuchKey(w.params, "password");
    if v.user.Some? {
      Text.CutNone(v.user.value, ':');
    }
  }

  // A rehearsal redirects its URI to the scratch database and takes the environment of
  // that: it is refused exactly if the original is, the password is the original's, the
  // cleaned string states none, and it reads as the target on the original's hosts.
  lemma RehearsalEnvironment(dsn: string, database: string)
    requires IsUri(dsn) && DatabaseUri.Parse(dsn).Some? && DatabaseUri.IsByteString(database) && '&' !in database
    ensures var u := DatabaseUri.Parse(dsn).value; var v := DatabaseUri.RedirectTo(u, database);
      var target := DatabaseUri.Print(v);
      && Stated(target) == Stated(dsn)
      && (Stated(target).Some? ==>
            Stated(Cleaned(target)) == Some(None)
            && DatabaseUri.Parse(Cleaned(target)) == Some(DatabaseUri.RemovePassword(v)))
    ensures var u := DatabaseUri.Parse(dsn).value;
      ReadsAsTarget(DatabaseUri.RemovePassword(DatabaseUri.RedirectTo(u, database)), u, database)
  {
    hide DatabaseUri.Parse, DatabaseUri.Print, DatabaseUri.Uncovers, DatabaseUri.PathEscape, DatabaseUri.RemovePassword,
      DatabaseUri.RedirectTo;
    var u := DatabaseUri.Parse(dsn).value;
    var v := DatabaseUri.RedirectTo(u, database);
    var target := DatabaseUri.Print(v);
    TargetOf(u, database);
    DatabaseUri.RedirectTargets(dsn, database);
    DatabaseUri.RedirectKeepsPassword(u, database);
    PrintsAsUri(dsn, v);
    assert Stated(target) == Stated(dsn);
    if Stated(target).Some? {
      NothingUncovered(v);
      CleanedUriStatesNoPassword(target);
      DatabaseUri.RemovePasswordPreserves(target);
    }
  }

  // The text reads as a URI on the same hosts, with the target as path and only alias.
  predicate ReadsAsTarget(w: DatabaseUri.Uri, u: DatabaseUri.Uri, database: string) {
    && w.scheme == u.scheme && w.hosts == u.hosts
    && w.path != "" && w.path[0] == '/' && DatabaseUri.PathUnescape(w.path[1..]) == Some(database)
    && w.params != [] && w.params[|w.params| - 1].key == "dbname" && w.params[|w.params| - 1].value == database
    && forall i :: 0 <= i < |w.params| - 1 ==> w.params[i].key !in {"dbname", "database"}
  }

  lemma TargetOf(u: DatabaseUri.Uri, database: string)
    requires DatabaseUri.IsByteString(database)
    ensures var v := DatabaseUri.RedirectTo(u, database);
      && v.scheme == u.scheme && v.user == u.user && v.path != ""
      && DatabaseUri.DropTrailingEmpty(DatabaseUri.RemovePassword(v).params) == DatabaseUri.RemovePassword(v).params
      && ReadsAsTarget(DatabaseUri.RemovePassword(v), u, database)
  {
    hide DatabaseUri.PathEscape, DatabaseUri.WithoutKeys, DatabaseUri.PathUnescape;
    DatabaseUri.PathEscapeDecodes(database);
    DatabaseUri.RedirectedLosesPasswordOnly(u, database);
    assert DatabaseUri.RedirectTo(u, database).path[1..] == DatabaseUri.PathEscape(database);
  }

  lemma NothingUncovered(v: DatabaseUri.Uri)
    requires v.path != ""
    ensures !DatabaseUri.Uncovers(v)
  {}

  lemma StartOfJoin(raws: seq<string>)
    ensures IsUri(KeywordDsn.Join(raws)) <==> raws != [] && IsUri(raws[0])
  {
    if |raws| > 1 {
      StartsWithin("postgres://", raws[0], " " + KeywordDsn.Join(raws[1..]));
      StartsWithin("postgresql://", raws[0], " " + KeywordDsn.Join(raws[1..]));
      assert KeywordDsn.Join(raws) == raws[0] + (" " + KeywordDsn.Join(raws[1..]));
    }
  }

  lemma StartsWithin(start: string, a: string, b: string)
    requires ' ' !in start && b != "" && b[0] == ' '
    ensures start <= a + b <==> start <= a
  {
    assert (a + b)[|a|] == ' ';
    assert forall i :: 0 <= i < |start| ==> start[i] in start;
    if |start| <= |a| {
      assert (a + b)[..|start|] == a[..|start|];
    }
  }

  // Texts of both kinds may state a password, or none.
  lemma UncoveredTextStatesPassword(dsn: string)
    requires dsn == "postgres://?password=/&" + ":p" + "@"
    ensures Stated(dsn).Some? && IsUri(dsn) && Misread(dsn) && Stated(Cleaned(dsn)) == Some(Some("p"))
  {
    hide DatabaseUri.Parse, DatabaseUri.Print, DatabaseUri.Uncovers, DatabaseUri.RemovePassword;
    var head := ":p";
    var clean := "postgres://?" + head + "@";
    var u := DatabaseUri.Uri("postgres", None, "", "",
      [DatabaseUri.Param("password=/", "password", "/"), DatabaseUri.Param(head + "@", head + "@", "")]);
    DatabaseUri.RemovedSlashUncoversUser(dsn, u, clean, head);
    UserPasswordIs("?", "p");
    assert "?" + head == "?" + ":" + "p";
  }

  lemma UncoveredTextStatesNothing(dsn: string)
    requires dsn == "postgres://?password=/&" + "a" + "@"
    ensures Stated(dsn).Some? && Misread(dsn) && Stated(Cleaned(dsn)) == Some(None)
  {
    hide DatabaseUri.Parse, DatabaseUri.Print, DatabaseUri.Uncovers, DatabaseUri.RemovePassword;
    var head := "a";
    var clean := "postgres://?" + head + "@";
    var u := DatabaseUri.Uri("postgres", None, "", "",
      [DatabaseUri.Param("password=/", "password", "/"), DatabaseUri.Param(head + "@", head + "@", "")]);
    DatabaseUri.RemovedSlashUncoversUser(dsn, u, clean, head);
    Text.CutNone("?" + head, ':');
  }

  lemma UserPasswordIs(user: string, password: string)
    requires ':' !in user && password != "" && '%' !in password && ' ' !in password
    ensures UserPassword(DatabaseUri.Uri("postgres", Some(user + ":" + password), "", "", [])) == Some(Some(password))
    ensures forall hosts :: UserPassword(DatabaseUri.Uri("postgres", Some(user + ":" + password), hosts, "", [])) == Some(Some(password))
  {
    Text.CutIs(user + ":" + password, ':', user, password);
    DatabaseUri.TrimNothing(password);
    DatabaseUri.PlainTextUnescapes(password);
  }

  lemma KeywordReadAsUriStatesPassword(dsn: string)
    requires dsn == "password=''" + (" " + ("postgres://:p@" + "="))
    ensures Stated(dsn).Some? && !IsUri(dsn) && Misread(dsn) && Stated(Cleaned(dsn)) == Some(Some("p"))
  {
    hide DatabaseUri.Parse, KeywordDsn.Settings, KeywordDsn.WithoutPassword;
    var key := "postgres://:p@";
    KeywordDsn.AnyKeyIsKept(dsn, " " + (key + "="), key);
    var t := KeywordDsn.Setting(key, "", key + "=");
    assert KeywordDsn.Raws([t]) == [key + "="];
    assert dsn[0] == 'p' && dsn[1] == 'a';
    assert Cleaned(dsn) == key + "=";
    LoneHost(key + "=");
    UserPasswordIs("", "p");
    assert "" + ":" + "p" == ":p";
  }

  lemma LoneHost(dsn: string)
    requires dsn == "postgres://:p@="
    ensures IsUri(dsn) && DatabaseUri.Parse(dsn) == Some(DatabaseUri.Uri("postgres", Some(":p"), "=", "", []))
  {
    hide Text.First, DatabaseUri.SchemeOf;
    var rest := ":p@=";
    assert dsn == "postgres" + "://" + rest;
    DatabaseUri.SchemeReads("postgres", rest);
    Text.FirstIs(rest, 0, '@', '/', 2);
    assert rest[..2] == ":p" && rest[3..] == "=";
    assert DatabaseUri.SplitUser(rest) == (Some(":p"), "=");
    var tail := "=";
    assert DatabaseUri.HostEnd(tail, 1) == Some(1) && DatabaseUri.HostEnd(tail, 0) == Some(1);
    assert tail[1..] == "" && tail[..1] == "=";
    Text.CutNone("", '?');
    assert dsn[..11] == "postgres://";
  }

  lemma PrintsAsUri(dsn: string, v: DatabaseUri.Uri)
    requires DatabaseUri.Parse(dsn).Some? && v.scheme == DatabaseUri.Parse(dsn).value.scheme
    ensures IsUri(DatabaseUri.Print(v))
  {
    hide DatabaseUri.PrintTail, DatabaseUri.Parse, DatabaseUri.Front, DatabaseUri.HostEnd, DatabaseUri.ReadParam;
    DatabaseUri.ParseWellFormed(dsn);
    var rest := DatabaseUri.Front(v.user) + DatabaseUri.PrintTail(v);
    assert DatabaseUri.Print(v) == v.scheme + "://" + rest;
  }
}
