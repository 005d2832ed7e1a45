// Which keys belong to an installation (internal/config/config.go,
// normalizeS3Prefix; internal/backup/backup.go, s3InstallationID).
module S3Namespace {
  import opened Wrappers
  import opened Text
  import opened Bucket
  import opened S3Mirror

  function Trimmed(raw: string): string { Trim(Replace(TrimSpace(raw), '\\', '/'), c => c == '/') }

  predicate Control(c: char) { c < ' ' || c == '\U{7F}' }

  predicate ValidSegment(segment: string) {
    segment != "" && segment != "." && segment != ".." && forall c :: c in segment ==> !Control(c)
  }

  // The shape of a namespace, said of its characters: segments closed by single
  // slashes, none of them empty, a dot or two dots, and no control character.
  ghost predicate Namespace(p: Key) {
    && p != [] && p[|p| - 1] == '/'
    && (forall i :: 0 <= i < |p| ==> ' ' <= p[i] != '\U{7F}')
    && (forall i :: 0 <= i < |p| && (i == 0 || p[i - 1] == '/') ==> Begins(p, i))
  }

  // No bad segment begins at i.
  ghost predicate Begins(p: Key, i: nat)
    requires i < |p|
  {
    && p[i] != '/'
    && !(i + 1 < |p| && p[i] == '.' && p[i + 1] == '/')
    && !(i + 2 < |p| && p[i] == '.' && p[i + 1] == '.' && p[i + 2] == '/')
  }

  lemma FirstSegment(head: string, rest: Key)
    requires '/' !in head
    ensures Begins(head + "/" + rest, 0) <==> head != "" && head != "." && head != ".."
  {
    var p := head + "/" + rest;
    assert p[|head|] == '/';
    assert forall k :: 0 <= k < |head| ==> p[k] == head[k] && head[k] in head;
    if |head| == 1 {
      assert head == [p[0]];
    }
    if |head| == 2 {
      assert head == [p[0], p[1]];
    }
  }

  lemma NamespaceOfJoin(head: string, rest: Key)
    requires '/' !in head
    ensures Namespace(head + "/" + rest) <==> ValidSegment(head) && (rest == "" || Namespace(rest))
  {
    hide Begins;
    var p, n := head + "/" + rest, |head| + 1;
    FirstSegment(head, rest);
    assert forall k {:trigger rest[k]} :: 0 <= k < |rest| ==> p[n + k] == rest[k];
    assert forall k {:trigger head[k]} {:trigger p[k]} :: 0 <= k < |head| ==> p[k] == head[k] && head[k] in head;
    assert p[|head|] == '/';
    forall k | 0 <= k < |rest| ensures Begins(rest, k) <==> Begins(p, n + k) {
      BeginsLater(p, rest, n, k);
    }
    assert !Control('/') by {
      SlashIsPlain();
    }
    if ValidSegment(head) && (rest == "" || Namespace(rest)) {
      forall i | 0 <= i < |p| && (i == 0 || p[i - 1] == '/') ensures Begins(p, i) {
        if i > |head| {
          assert Begins(rest, i - n);
        }
      }
      forall i | 0 <= i < |p| ensures !Control(p[i]) {
        assert p[i] == if i < |head| then head[i] else if i == |head| then '/' else rest[i - n];
      }
    }
    if Namespace(p) {
      forall c | c in head ensures !Control(c) {
        var k :| 0 <= k < |head| && head[k] == c;
        assert !Control(p[k]);
      }
      forall k | 0 <= k < |rest| ensures !Control(rest[k]) {
        assert !Control(p[n + k]);
      }
      forall k | 0 <= k < |rest| && (k == 0 || rest[k - 1] == '/') ensures Begins(rest, k) {
        assert p[n + k - 1] == '/';
        assert Begins(p, n + k);
      }
    }
  }

  lemma SlashIsPlain()
    ensures !Control('/')
  {}

  lemma BeginsLater(p: Key, rest: Key, n: nat, k: nat)
    requires k < |rest| && |p| == n + |rest|
    requires forall j {:trigger rest[j]} :: 0 <= j < |rest| ==> p[n + j] == rest[j]
    ensures Begins(rest, k) <==> Begins(p, n + k)
  {}

  lemma {:induction false} NamespaceOfSegments(s: string)
    ensures Namespace(s + "/") <==> forall segment :: segment in Split(s, '/') ==> ValidSegment(segment)
    decreases |s|
  {
    hide Namespace, ValidSegment;
    var (head, tail, found) := Cut(s, '/');
    if found {
      NamespaceOfSegments(tail);
      NamespaceOfJoin(head, tail + "/");
      assert s + "/" == head + "/" + (tail + "/");
    } else {
      NamespaceOfJoin(head, "");
      assert s + "/" == head + "/" + "";
    }
  }

  // Exactly the namespaces are accepted, closed by one slash.
  method NormalizeS3Prefix(raw: string) returns (r: Option<Key>)
    ensures r.Some? <==> Namespace(Trimmed(raw) + "/")
    ensures r.Some? ==> r.value == Trimmed(raw) + "/"
  {
    hide Namespace, Trimmed, Split;
    var prefix := Trimmed(raw);
    NamespaceOfSegments(prefix);
    NoEmptyNamespace();
    if prefix == "" {
      assert prefix + "/" == "/";
      return None;
    }
    var segments := Split(prefix, '/');
    for i := 0 to |segments|
      invariant forall k :: 0 <= k < i ==> ValidSegment(segments[k])
    {
      var segment := segments[i];
      if segment == "" || segment == "." || segment == ".." {
        assert !ValidSegment(segments[i]);
        return None;
      }
      for j := 0 to |segment|
        invariant forall k :: 0 <= k < j ==> !Control(segment[k])
      {
        if Control(segment[j]) {
          assert segment[j] in segment && !ValidSegment(segments[i]);
          return None;
        }
      }
    }
    r := Some(prefix + "/");
  }

  lemma NoEmptyNamespace()
    ensures !Namespace("/")
  {
    var p := "/";
    assert p[0] == '/' && !Begins(p, 0);
  }

  // The hash of the bucket's name and the prefix; nothing else hashes to it.
  function InstallationId(bucket: string, prefix: Key): Mark { bucket + "\0" + prefix }

  // Dumps of different namespaces never share a key, and two dumps of one never do.
  lemma KeysAreApart(p: Key, q: Key, name: string, other: string)
    requires Namespace(p) && Namespace(q) && '/' !in name && '/' !in other
    ensures p + name == q + other ==> p == q && name == other
  {
    hide Begins, Control;
    var key := p + name;
    if key == q + other {
      assert key[|p| - 1] == '/' && key[|q| - 1] == '/';
      assert forall i :: |p| <= i < |key| ==> key[i] == name[i - |p|] && name[i - |p|] in name;
      assert forall i :: |q| <= i < |key| ==> key[i] == other[i - |q|] && other[i - |q|] in other;
      assert |p| == |q| && p == key[..|p|] && name == key[|p|..];
    }
  }

  // Installations with different namespaces in one bucket: whatever one of them does
  // stays within what the other expects of its environment, as long as its own objects
  // stay where they are.
  lemma InstallationsShareABucket(bucket: string, mine: Key, theirs: Key, was: seq<Step>, trace: seq<Step>, scope: Scope, i: nat)
    requires mine != theirs && scope.mark == InstallationId(bucket, theirs) && scope.steady
    requires AllowedFrom(was, trace, scope) && |was| <= i < |trace| && trace[i].own
    ensures Rely(trace[i].before, trace[i].after, InstallationId(bucket, mine))
  {
    hide Allowed, Rely, Gentle;
    MarksAreApart(bucket, mine, theirs);
    assert AllowedAt(trace, i, scope);
    AllowedIsGentle(trace[i - 1], trace[i], scope);
    GentleIsWithinRely(trace[i].before, trace[i].after, InstallationId(bucket, mine), scope.mark);
  }

  // ----- many installations in one bucket ------------------------------------

  // Installations of different namespaces and nobody else: the i-th request, made by the
  // installation with mark makers[i], leads from one state to the next.
  datatype History = History(states: seq<Objects>, makers: seq<Mark>)

  // The i-th request is one its installation may make whatever others do: allowed after
  // the turn of the others since an earlier answer.
  ghost predicate Obeys(h: History, i: nat, scope: Scope)
    requires |h.states| == |h.makers| + 1 && i < |h.makers|
  {
    exists c: nat :: c <= i && Alone(h, c, i, h.makers[i])
      && Allowed(Step(false, h.states[c], h.states[i]), Step(true, h.states[i], h.states[i + 1]), scope)
  }

  // Only others act from c to i.
  ghost predicate Alone(h: History, c: nat, i: nat, mark: Mark)
    requires i <= |h.makers|
  {
    forall k :: c <= k < i ==> h.makers[k] != mark
  }

  ghost predicate AllObey(h: History, scopes: Mark -> Scope) {
    && |h.states| == |h.makers| + 1
    && (forall mark {:trigger scopes(mark)} :: scopes(mark).mark == mark)
    && forall i :: 0 <= i < |h.makers| ==> Obeys(h, i, scopes(h.makers[i]))
  }

  // The i-th request changes and deletes no object with this mark, and makes none.
  ghost predicate Spares(h: History, i: nat, mark: Mark)
    requires |h.states| == |h.makers| + 1 && i < |h.makers|
  {
    Rely(h.states[i], h.states[i + 1], mark)
  }

  // No request ever touches an object of another installation.
  lemma {:induction false} NobodyTouchesOthers(h: History, scopes: Mark -> Scope, i: nat)
    requires AllObey(h, scopes) && i < |h.makers|
    ensures Gentle(h.states[i], h.states[i + 1], h.makers[i])
    ensures forall mark :: mark != h.makers[i] ==> Spares(h, i, mark)
    decreases i, 1
  {
    hide Allowed, Gentle, Rely, Alone;
    var mark, scope := h.makers[i], scopes(h.makers[i]);
    assert Obeys(h, i, scope);
    var c: nat :| c <= i && Alone(h, c, i, mark)
      && Allowed(Step(false, h.states[c], h.states[i]), Step(true, h.states[i], h.states[i + 1]), scope);
    OwnedObjectsStay(h, scopes, c, i, mark);
    AllowedIsGentle(Step(false, h.states[c], h.states[i]), Step(true, h.states[i], h.states[i + 1]), scope);
    NotReused(h.states[c], h.states[i], h.states[i + 1], mark);
    forall other | other != mark ensures Spares(h, i, other) {
      GentleIsWithinRely(h.states[i], h.states[i + 1], other, mark);
    }
  }

  lemma NotReused(a: Objects, b: Objects, after: Objects, mark: Mark)
    requires Rely(a, b, mark)
    ensures forall key :: Follows(Step(false, a, b), Step(true, b, after), key, mark) ==> !Reused(Step(false, a, b), key, mark)
  {
    hide Loose;
  }

  // So whatever an installation owns stays where it is while others act: its bucket is
  // steady, and all that is proved of a steady bucket holds for each of them.
  lemma {:induction false} OwnedObjectsStay(h: History, scopes: Mark -> Scope, c: nat, i: nat, mark: Mark)
    requires AllObey(h, scopes) && c <= i <= |h.makers| && Alone(h, c, i, mark)
    ensures Rely(h.states[c], h.states[i], mark)
    decreases i, 0
  {
    hide Rely, Gentle, AllObey;
    assert |h.states| == |h.makers| + 1 by {
      OneStateMore(h, scopes);
    }
    if c == i {
      RelyReflexive(h.states[c], mark);
    } else {
      OwnedObjectsStay(h, scopes, c, i - 1, mark);
      NobodyTouchesOthers(h, scopes, i - 1);
      assert Spares(h, i - 1, mark);
      RelyTransitive(h.states[c], h.states[i - 1], h.states[i], mark);
    }
  }

  lemma OneStateMore(h: History, scopes: Mark -> Scope)
    requires AllObey(h, scopes)
    ensures |h.states| == |h.makers| + 1
  {}

  // Different namespaces of one bucket have different marks.
  lemma MarksAreApart(bucket: string, mine: Key, theirs: Key)
    ensures InstallationId(bucket, mine) == InstallationId(bucket, theirs) ==> mine == theirs
  {
    var n := |bucket| + 1;
    assert InstallationId(bucket, mine)[n..] == mine && InstallationId(bucket, theirs)[n..] == theirs;
  }
}
