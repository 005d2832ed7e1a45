// Mirroring the newest dump into the bucket, with verification, repair and
// retention (internal/backup/backup.go, runS3Mirror and its steps).
module S3Mirror {
  import opened Wrappers
  import opened Archive
  import opened BackupDir
  import opened Ranking
  import opened Bucket
  import Retention

  datatype Config = Config(prefix: Key, legacy: Option<Key>, secret: Secret, maxBytes: nat, stamp: Stamp)

  // validName: a dump's name without a directory.
  predicate ValidName(name: string) { IsDump(name) && '/' !in name }

  // The installation only looked while the trace grew.
  ghost predicate Quiet(was: seq<Step>, trace: seq<Step>) {
    was <= trace && forall i {:trigger trace[i]} :: |was| <= i < |trace| ==> !trace[i].own
  }

  predicate Covered(key: Key, prefixes: seq<Key>) {
    exists p :: p in prefixes && p <= key
  }

  ghost predicate AllValid(list: seq<Listed>) {
    forall k {:trigger list[k]} :: 0 <= k < |list| ==> ValidName(list[k].name)
  }

  ghost predicate Named(list: seq<Listed>, name: string) {
    exists k :: 0 <= k < |list| && list[k].name == name
  }

  const MAX_LISTING := 10_000

  // The listing of one namespace, added to what earlier namespaces gave.
  method Collect(items: seq<Item>, prefix: Key, covered: seq<Key>, out: seq<Listed>) returns (r: Option<seq<Listed>>)
    requires Distinct(out) && AllValid(out)
    ensures r.Some? ==> out <= r.value && Distinct(r.value)
    ensures r.Some? ==> AllValid(r.value)
    ensures r.Some? ==> forall k {:trigger r.value[k]} :: |out| <= k < |r.value| ==>
      !Named(out, r.value[k].name) && Item(prefix + r.value[k].name, r.value[k].modified) in items
      && !Covered(prefix + r.value[k].name, covered)
    ensures r.Some? ==> forall name {:trigger ValidName(name)} ::
      ValidName(name) && !Covered(prefix + name, covered) && HasKey(items, prefix + name) ==> Named(r.value, name)
    ensures |items| <= MAX_LISTING ==> r.Some?
  {
    hide IsDump, ValidName, Covered;
    var list := out;
    var names := set k | 0 <= k < |out| :: out[k].name;
    var seen := 0;
    for i := 0 to |items|
      invariant seen <= i
      invariant out <= list && Distinct(list)
      invariant forall name :: name in names <==> Named(list, name)
      invariant AllValid(list)
      invariant forall k {:trigger list[k]} :: |out| <= k < |list| ==>
        !Named(out, list[k].name) && Item(prefix + list[k].name, list[k].modified) in items
        && !Covered(prefix + list[k].name, covered)
      invariant forall name {:trigger ValidName(name)} :: ValidName(name) && !Covered(prefix + name, covered) ==>
        forall j :: 0 <= j < i && items[j].key == prefix + name ==> Named(list, name)
    {
      var key := items[i].key;
      if !(prefix <= key) || Covered(key, covered) {
        continue;
      }
      seen := seen + 1;
      if seen > MAX_LISTING {
        return None;
      }
      var name := key[|prefix|..];
      assert key == prefix + name;
      if !ValidName(name) || name in names {
        continue;
      }
      AppendListed(list, Listed(name, items[i].modified));
      NamedGrows(out, list, name);
      list := list + [Listed(name, items[i].modified)];
      names := names + {name};
    }
    r := Some(list);
  }

  lemma AppendListed(list: seq<Listed>, f: Listed)
    ensures Named(list + [f], f.name)
    ensures forall name :: Named(list + [f], name) <==> Named(list, name) || name == f.name
  {
    assert (list + [f])[|list|].name == f.name;
    forall name | Named(list, name) ensures Named(list + [f], name) {
      var k :| 0 <= k < |list| && list[k].name == name;
      assert (list + [f])[k].name == name;
    }
  }

  lemma NamedGrows(out: seq<Listed>, list: seq<Listed>, name: string)
    requires out <= list
    ensures Named(out, name) ==> Named(list, name)
  {
    if Named(out, name) {
      var k :| 0 <= k < |out| && out[k].name == name;
      assert list[k].name == name;
    }
  }

  // The listing gives the installation's own objects with their true times.
  ghost predicate Accurate(list: seq<Listed>, objects: Objects, prefix: Key, mark: Mark) {
    forall k {:trigger list[k]} :: 0 <= k < |list| && Owned(objects, prefix + list[k].name, mark) ==>
      list[k].modified == objects[prefix + list[k].name].modified
  }

  // Every owned dump is listed.
  ghost predicate Complete(list: seq<Listed>, objects: Objects, prefix: Key, mark: Mark) {
    forall name {:trigger ValidName(name)} :: ValidName(name) && Owned(objects, prefix + name, mark) ==> Named(list, name)
  }

  lemma RelyTransitive(a: Objects, b: Objects, c: Objects, mark: Mark)
    requires Rely(a, b, mark) && Rely(b, c, mark)
    ensures Rely(a, c, mark)
  {}

  lemma AccurateUnderRely(list: seq<Listed>, a: Objects, b: Objects, prefix: Key, mark: Mark)
    requires Accurate(list, a, prefix, mark) && Rely(a, b, mark)
    ensures Accurate(list, b, prefix, mark)
    ensures Complete(list, a, prefix, mark) ==> Complete(list, b, prefix, mark)
  {
    hide ValidName, Named;
  }

  lemma CollectedIsAccurate(items: seq<Item>, list: seq<Listed>, objects: Objects, prefix: Key, mark: Mark)
    requires forall i {:trigger items[i]} :: 0 <= i < |items| && Owned(objects, items[i].key, mark) ==>
      items[i].modified == objects[items[i].key].modified
    requires forall k {:trigger list[k]} :: 0 <= k < |list| ==> Item(prefix + list[k].name, list[k].modified) in items
    ensures Accurate(list, objects, prefix, mark)
  {
    forall k | 0 <= k < |list| && Owned(objects, prefix + list[k].name, mark)
      ensures list[k].modified == objects[prefix + list[k].name].modified
    {
      var i :| 0 <= i < |items| && items[i] == Item(prefix + list[k].name, list[k].modified);
      assert items[i].key == prefix + list[k].name;
    }
  }

  // Every owned dump is in the listing of the first namespace, so what the second
  // one adds is not owned.
  lemma LegacyAddsNothingOwned(first: seq<Listed>, list: seq<Listed>, objects: Objects, prefix: Key, mark: Mark)
    requires first <= list && Accurate(first, objects, prefix, mark)
    requires AllValid(list)
    requires forall k {:trigger list[k]} :: |first| <= k < |list| ==> !Named(first, list[k].name)
    requires Complete(first, objects, prefix, mark)
    ensures Accurate(list, objects, prefix, mark) && Complete(list, objects, prefix, mark)
  {
    hide ValidName, Named;
    forall name | ValidName(name) && Owned(objects, prefix + name, mark) ensures Named(list, name) {
      NamedGrows(first, list, name);
    }
    forall k | 0 <= k < |list| && Owned(objects, prefix + list[k].name, mark)
      ensures list[k].modified == objects[prefix + list[k].name].modified
    {
      assert ValidName(list[k].name);
      assert k < |first| && list[k] == first[k];
    }
  }

  lemma LurksQuietly(world: World, theft: Changes, n: nat, request: Request)
    ensures Lurks(world, theft) && !request.Delete? ==> world(n, request) == QUIET
    ensures Lurks(world, theft) && request.Delete? ==> world(n, request) == QUIET.(changes := Only(theft, request.key))
  {}

  lemma CalmIsQuiet(world: World, n: nat, request: Request)
    ensures Calm(world) ==> world(n, request) == QUIET
  {
    LurksQuietly(world, map[], n, request);
  }

  // One namespace: the request and what it adds.
  method ListNamespace(b: Bucket, prefix: Key, covered: seq<Key>, out: seq<Listed>, ghost theft: Changes)
    returns (r: Option<seq<Listed>>)
    requires Distinct(out) && AllValid(out)
    modifies b
    ensures Quiet(old(b.trace), b.trace) && (b.steady ==> Rely(old(b.objects), b.objects, b.mark))
    ensures r.Some? ==> out <= r.value && Distinct(r.value) && AllValid(r.value)
    ensures r.Some? ==> forall k {:trigger r.value[k]} :: |out| <= k < |r.value| ==> !Named(out, r.value[k].name)
    ensures r.Some? && out == [] && covered == [] ==>
      Accurate(r.value, b.objects, prefix, b.mark) && Complete(r.value, b.objects, prefix, b.mark)
    ensures Lurks(b.world, theft) ==> b.objects == old(b.objects) && (|b.objects| <= MAX_LISTING ==> r.Some?)
    ensures Lurks(b.world, theft) && r.Some? ==> Extends(out, r.value, b.objects, prefix, covered)
  {
    hide ValidName, IsDump, Owned, Rely, Loose, Meanwhile, Accurate, Complete, Named, Lurks, HasKey, ListsExactly, Covered,
      Distinct, AllValid, Extends;
    LurksQuietly(b.world, theft, b.turns, Enumerate(prefix + "treckrr-"));
    var items := b.ListBelow(prefix + "treckrr-");
    if items.None? {
      return None;
    }
    r := Collect(items.value, prefix, covered, out);
    if r.None? {
      return None;
    }
    if out == [] && covered == [] {
      CollectedIsAccurate(items.value, r.value, b.objects, prefix, b.mark);
      OwnedIsListed(items.value, r.value, b.objects, prefix, b.mark);
    }
    if Lurks(b.world, theft) {
      AddedAreThere(items.value, out, r.value, b.objects, prefix, covered);
    }
  }

  // Newest first over both namespaces. The claims about owned dumps need a bucket in
  // which they stay, or one in which others act only before removals.
  method S3List(b: Bucket, cfg: Config, ghost theft: Changes) returns (r: Option<seq<Listed>>)
    modifies b
    ensures Quiet(old(b.trace), b.trace) && (b.steady ==> Rely(old(b.objects), b.objects, b.mark))
    ensures r.Some? ==> Distinct(r.value) && Ordered(r.value, cfg.stamp)
    ensures r.Some? && (b.steady || Lurks(b.world, theft)) ==>
      Accurate(r.value, b.objects, cfg.prefix, b.mark) && Complete(r.value, b.objects, cfg.prefix, b.mark)
    ensures Lurks(b.world, theft) ==> b.objects == old(b.objects) && (|b.objects| <= MAX_LISTING ==> r.Some?)
    ensures r.Some? ==> AllValid(r.value)
    ensures r.Some? && Lurks(b.world, theft) ==> Shows(r.value, b.objects, cfg)
  {
    hide ValidName, IsDump, Newer, Owned, Rely, Loose, Meanwhile, Accurate, Complete, Insert, SortNewestFirst, Named, Lurks,
      Shows, AllValid, Ordered, Extends;
    NothingListed();
    r := ListNamespace(b, cfg.prefix, [], [], theft);
    if r.None? {
      return None;
    }
    ghost var first, mid := r.value, b.objects;
    if cfg.legacy.Some? && cfg.legacy.value != cfg.prefix {
      r := ListNamespace(b, cfg.legacy.value, [cfg.prefix], r.value, theft);
      if b.steady {
        RelyTransitive(old(b.objects), mid, b.objects, b.mark);
      }
      if r.None? {
        return None;
      }
      LegacyAddsNothingOwned(first, r.value, mid, cfg.prefix, b.mark);
      if b.steady {
        AccurateUnderRely(r.value, mid, b.objects, cfg.prefix, b.mark);
      }
    }
    if Lurks(b.world, theft) {
      BothShown(first, r.value, b.objects, cfg);
    }
    SortedNewestFirst(r.value, cfg.stamp);
    SortKeepsNames(r.value, SortNewestFirst(r.value, cfg.stamp));
    SameNamesShow(r.value, SortNewestFirst(r.value, cfg.stamp), b.objects, cfg);
    if b.steady || Lurks(b.world, theft) {
      SortKeeps(r.value, SortNewestFirst(r.value, cfg.stamp), b.objects, cfg.prefix, b.mark);
    }
    r := Some(SortNewestFirst(r.value, cfg.stamp));
  }

  lemma NothingListed()
    ensures AllValid([]) && Distinct([])
  {}

  lemma SameNamesShow(list: seq<Listed>, sorted: seq<Listed>, objects: Objects, cfg: Config)
    requires forall name :: Named(sorted, name) <==> Named(list, name)
    ensures Shows(list, objects, cfg) ==> Shows(sorted, objects, cfg)
  {
    hide ValidName, Named, Visible;
  }

  lemma OwnedIsListed(items: seq<Item>, list: seq<Listed>, objects: Objects, prefix: Key, mark: Mark)
    requires forall key :: Owned(objects, key, mark) && prefix + "treckrr-" <= key ==> HasKey(items, key)
    requires forall name {:trigger ValidName(name)} ::
      ValidName(name) && !Covered(prefix + name, []) && HasKey(items, prefix + name) ==> Named(list, name)
    ensures Complete(list, objects, prefix, mark)
  {
    hide Owned, Named, HasKey;
    forall name | ValidName(name) && Owned(objects, prefix + name, mark) ensures Named(list, name) {
      BelowPrefix(prefix, name);
    }
  }

  // What a listing shows: the dumps of its own namespace, and those of the legacy one.
  predicate Visible(objects: Objects, cfg: Config, name: string) {
    cfg.prefix + name in objects || InLegacy(objects, cfg, name)
  }

  predicate InLegacy(objects: Objects, cfg: Config, name: string) {
    && cfg.legacy.Some? && cfg.legacy.value != cfg.prefix
    && cfg.legacy.value + name in objects && !(cfg.prefix <= cfg.legacy.value + name)
  }

  ghost predicate Shows(list: seq<Listed>, objects: Objects, cfg: Config) {
    forall name {:trigger ValidName(name)} :: ValidName(name) ==> (Named(list, name) <==> Visible(objects, cfg, name))
  }

  // The entries a namespace adds are those that lie below it.
  ghost predicate Extends(out: seq<Listed>, list: seq<Listed>, objects: Objects, prefix: Key, covered: seq<Key>) {
    forall name {:trigger ValidName(name)} :: ValidName(name) ==>
      (Named(list, name) <==> Named(out, name) || (prefix + name in objects && !Covered(prefix + name, covered)))
  }

  lemma AddedAreThere(items: seq<Item>, out: seq<Listed>, list: seq<Listed>, objects: Objects, prefix: Key, covered: seq<Key>)
    requires ListsExactly(items, objects, prefix + "treckrr-") && out <= list && AllValid(list)
    requires forall k {:trigger list[k]} :: |out| <= k < |list| ==>
      Item(prefix + list[k].name, list[k].modified) in items && !Covered(prefix + list[k].name, covered)
    requires forall name {:trigger ValidName(name)} ::
      ValidName(name) && !Covered(prefix + name, covered) && HasKey(items, prefix + name) ==> Named(list, name)
    ensures Extends(out, list, objects, prefix, covered)
  {
    hide IsDump, Covered, HasKey;
    forall name | ValidName(name)
      ensures Named(list, name) <==> Named(out, name) || (prefix + name in objects && !Covered(prefix + name, covered))
    {
      BelowPrefix(prefix, name);
      NamedGrows(out, list, name);
      if Named(list, name) && !Named(out, name) {
        var k :| 0 <= k < |list| && list[k].name == name;
        assert forall j :: 0 <= j < |out| ==> out[j] == list[j];
        var i :| 0 <= i < |items| && items[i] == Item(prefix + list[k].name, list[k].modified);
      }
    }
  }

  lemma BothShown(first: seq<Listed>, list: seq<Listed>, objects: Objects, cfg: Config)
    requires Extends([], first, objects, cfg.prefix, [])
    requires if cfg.legacy.Some? && cfg.legacy.value != cfg.prefix
             then Extends(first, list, objects, cfg.legacy.value, [cfg.prefix]) else list == first
    ensures Shows(list, objects, cfg)
  {
    hide ValidName;
    forall key ensures Covered(key, [cfg.prefix]) <==> cfg.prefix <= key {
      assert cfg.prefix in [cfg.prefix];
    }
  }

  lemma BelowPrefix(prefix: Key, name: string)
    requires IsDump(name)
    ensures prefix + "treckrr-" <= prefix + name
  {
    var start := "treckrr-";
    assert prefix + name == prefix + start + name[|start|..];
  }

  lemma SortKeepsNames(list: seq<Listed>, sorted: seq<Listed>)
    requires multiset(sorted) == multiset(list) && AllValid(list)
    ensures AllValid(sorted)
    ensures forall name :: Named(sorted, name) <==> Named(list, name)
  {
    hide ValidName;
    forall name ensures Named(sorted, name) <==> Named(list, name) {
      if Named(list, name) {
        var j :| 0 <= j < |list| && list[j].name == name;
        assert list[j] in multiset(list) && list[j] in sorted;
      }
      if Named(sorted, name) {
        var j :| 0 <= j < |sorted| && sorted[j].name == name;
        assert sorted[j] in multiset(sorted) && sorted[j] in list;
      }
    }
    forall k | 0 <= k < |sorted| ensures ValidName(sorted[k].name) {
      assert sorted[k] in multiset(sorted);
      var j :| 0 <= j < |list| && list[j] == sorted[k];
    }
  }

  lemma SortKeeps(list: seq<Listed>, sorted: seq<Listed>, objects: Objects, prefix: Key, mark: Mark)
    requires multiset(sorted) == multiset(list) && Distinct(list)
    requires Accurate(list, objects, prefix, mark) && Complete(list, objects, prefix, mark)
    ensures Accurate(sorted, objects, prefix, mark) && Complete(sorted, objects, prefix, mark)
  {
    hide ValidName;
    forall k | 0 <= k < |sorted| && Owned(objects, prefix + sorted[k].name, mark)
      ensures sorted[k].modified == objects[prefix + sorted[k].name].modified
    {
      assert sorted[k] in multiset(sorted);
      var j :| 0 <= j < |list| && list[j] == sorted[k];
    }
    forall name | ValidName(name) && Owned(objects, prefix + name, mark) ensures Named(sorted, name) {
      var j :| 0 <= j < |list| && list[j].name == name;
      assert list[j] in multiset(list) && list[j] in multiset(sorted);
      var k :| 0 <= k < |sorted| && sorted[k] == list[j];
    }
  }

  // s3ObjectOwned; None when the request fails.
  method ObjectOwned(b: Bucket, cfg: Config, name: string) returns (r: Option<bool>)
    modifies b
    ensures b.turns == old(b.turns) + 1 && b.objects == old(b.Then(Head(cfg.prefix + name)))
    ensures b.trace == old(b.trace) + [Step(false, old(b.objects), b.objects)]
    ensures old(b.Now(Head(cfg.prefix + name))).changes == map[] ==> b.objects == old(b.objects)
    ensures Quiet(old(b.trace), b.trace) && (b.steady ==> Rely(old(b.objects), b.objects, b.mark))
    ensures r.Some? <==> old(b.Now(Head(cfg.prefix + name))).fault.Works?
    ensures r.Some? ==> (r.value <==> Owned(b.objects, cfg.prefix + name, b.mark))
  {
    hide Meanwhile, Rely, Loose;
    var info := b.Stat(cfg.prefix + name);
    match info {
      case Found(mark, _) => r := Some(mark == Some(b.mark));
      case Missing => r := Some(false);
      case Unreachable => r := None;
    }
  }

  ghost predicate Holds(objects: Objects, key: Key, mark: Mark, data: Blob) {
    Owned(objects, key, mark) && objects[key].blob == data
  }

  // One turn of the others: before it, the object under key was this installation's and
  // as large as data; after it, whatever is under key holds exactly data.
  ghost predicate Answered(step: Step, key: Key, mark: Mark, data: Blob) {
    && !step.own && Owned(step.before, key, mark) && Size(step.before[key].blob) == Size(data)
    && key in step.after && step.after[key].blob == data
  }

  // The two answers a verification has got. Where own objects stay, both are about one
  // object.
  ghost predicate Proven(was: seq<Step>, trace: seq<Step>, key: Key, mark: Mark, data: Blob, stays: bool) {
    exists i {:trigger trace[i]} :: |was| <= i < |trace| && Answered(trace[i], key, mark, data)
      && (stays ==> Holds(trace[i].after, key, mark, data))
  }

  lemma ProvenWithin(was: seq<Step>, start: seq<Step>, end: seq<Step>, trace: seq<Step>, key: Key, mark: Mark, data: Blob, stays: bool)
    requires was <= start && end <= trace && Proven(start, end, key, mark, data, stays)
    ensures Proven(was, trace, key, mark, data, stays)
  {
    hide Holds, Answered;
    var i {:trigger end[i]} :| |start| <= i < |end| && Answered(end[i], key, mark, data)
      && (stays ==> Holds(end[i].after, key, mark, data));
    assert trace[i] == end[i];
  }

  // At one of the two moments the object was this installation's and held exactly data:
  // exactly unless the key was reused between them and the object asked about did not
  // hold data itself.
  lemma AnsweredAtOnceExactly(step: Step, key: Key, mark: Mark, data: Blob)
    requires Answered(step, key, mark, data) && Loose(step.before, step.after, mark)
    ensures Holds(step.before, key, mark, data) || Holds(step.after, key, mark, data) <==>
      !Reused(step, key, mark) || step.before[key].blob == data
  {}

  // Identical: the stored object is this installation's and holds exactly data. The
  // sizes and hashes the source compares are equal exactly when the bytes are.
  // Unanswered: a request failed, so nothing is known. The source returns an error for
  // both of the others.
  datatype Verdict = Identical | Differs | Unanswered

  predicate SizeFits(cfg: Config, data: Blob) { 0 < Size(data) <= cfg.maxBytes }

  // Whether a verification that starts with request n is cut short, and which request
  // comes after it then.
  predicate CutShort(world: World, n: nat, key: Key) {
    !world(n, Head(key)).fault.Works? || !world(n + 1, Fetch(key)).fault.Works?
  }

  function AfterCut(world: World, n: nat, key: Key): nat {
    if !world(n, Head(key)).fault.Works? then n + 1 else n + 2
  }

  // The verification that starts with request n passes: exactly if both requests are
  // answered, the first with an owned object of the right size and the second with data.
  predicate Passes(cfg: Config, objects: Objects, key: Key, data: Blob, world: World, n: nat, mark: Mark, steady: bool) {
    var seen := Meanwhile(objects, world(n, Head(key)).changes, mark, steady);
    var last := Meanwhile(seen, world(n + 1, Fetch(key)).changes, mark, steady);
    && SizeFits(cfg, data) && !CutShort(world, n, key)
    && Owned(seen, key, mark) && Size(seen[key].blob) == Size(data)
    && key in last && last[key].blob == data
  }

  method VerifyS3Object(b: Bucket, cfg: Config, name: string, data: Blob) returns (r: Verdict)
    modifies b
    ensures Quiet(old(b.trace), b.trace) && (b.steady ==> Rely(old(b.objects), b.objects, b.mark))
    ensures Calm(b.world) ==> b.objects == old(b.objects) && !r.Unanswered?
    ensures r.Identical? <==> Passes(cfg, old(b.objects), cfg.prefix + name, data, b.world, old(b.turns), b.mark, b.steady)
    ensures r.Identical? ==> Proven(old(b.trace), b.trace, cfg.prefix + name, b.mark, data, b.Reliable())
    ensures r.Identical? ==> SizeFits(cfg, data)
    ensures r.Identical? && b.Reliable() ==> Holds(b.objects, cfg.prefix + name, b.mark, data)
    ensures r.Identical? ==> var seen := old(b.Then(Head(cfg.prefix + name)));
      b.objects == Meanwhile(seen, b.world(old(b.turns) + 1, Fetch(cfg.prefix + name)).changes, b.mark, b.steady)
      && b.trace == old(b.trace) + [Step(false, old(b.objects), seen)] + [Step(false, seen, b.objects)]
    ensures r.Differs? ==> !SizeFits(cfg, data) || !Holds(b.objects, cfg.prefix + name, b.mark, data)
    ensures b.steady && SizeFits(cfg, data) && Holds(old(b.objects), cfg.prefix + name, b.mark, data) ==>
      !r.Differs? && (r.Unanswered? <==> CutShort(b.world, old(b.turns), cfg.prefix + name))
      && (r.Unanswered? ==> b.turns == AfterCut(b.world, old(b.turns), cfg.prefix + name))
  {
    hide Meanwhile, Loose, Lurks, Size, Rely, Proven, Holds, Calm;
    ghost var key, was, first := cfg.prefix + name, b.trace, b.objects;
    RelyReflexive(b.objects, b.mark);
    var wantSize := Size(data);
    if wantSize == 0 || wantSize > cfg.maxBytes {
      return Differs;
    }
    CalmIsQuiet(b.world, b.turns, Head(key));
    var info := b.Stat(cfg.prefix + name);
    ghost var seen := b.objects;
    HoldsUnderRely(first, seen, key, b.mark, data);
    if info.Unreachable? {
      return Unanswered;
    }
    if !info.Found? || info.mark != Some(b.mark) || info.size != wantSize {
      NotHeld(seen, key, b.mark, data);
      return Differs;
    }
    CalmIsQuiet(b.world, b.turns, Fetch(key));
    var stored := b.Get(cfg.prefix + name);
    Compared(was, b.trace, first, seen, b.objects, key, b.mark, data, b.steady, b.Reliable());
    r := if stored.NoAnswer? then Unanswered else if stored == Content(data) then Identical else Differs;
  }

  lemma HoldsUnderRely(a: Objects, b: Objects, key: Key, mark: Mark, data: Blob)
    ensures Rely(a, b, mark) && Holds(a, key, mark, data) ==> Holds(b, key, mark, data)
  {}

  lemma NotHeld(objects: Objects, key: Key, mark: Mark, data: Blob)
    ensures Holds(objects, key, mark, data) ==>
      key in objects && objects[key].mark == Some(mark) && Size(objects[key].blob) == Size(data)
  {}

  lemma Compared(was: seq<Step>, trace: seq<Step>, first: Objects, seen: Objects, last: Objects, key: Key, mark: Mark,
                 data: Blob, steady: bool, stays: bool)
    requires trace == was + [Step(false, first, seen)] + [Step(false, seen, last)] && Owned(seen, key, mark)
    requires Size(seen[key].blob) == Size(data)
    requires steady ==> Rely(first, seen, mark) && Rely(seen, last, mark)
    requires stays ==> steady || last == seen
    ensures Quiet(was, trace) && (steady ==> Rely(first, last, mark))
    ensures steady && Holds(seen, key, mark, data) ==> Holds(last, key, mark, data)
    ensures Holds(last, key, mark, data) ==> key in last && last[key].blob == data
    ensures key in last && last[key].blob == data ==>
      Proven(was, trace, key, mark, data, stays) && (stays ==> Holds(last, key, mark, data))
  {
    hide Loose, Size;
    if steady {
      RelyTransitive(first, seen, last, mark);
    }
    assert trace[|trace| - 1] == Step(false, seen, last);
  }

  // What one change by this installation may be: a new object, or the removal of a key
  // that an answer showed to be its own just before. In a steady bucket the removed
  // object is still its own, and retention covers its removal or a drilled local dump
  // replaces it. Retention by itself only removes.
  datatype Scope = Scope(prefix: Key, mark: Mark, steady: bool, keep: int, now: Time, stamp: Stamp,
                         volume: map<string, File>, secret: Secret, onlyEvict: bool)

  ghost predicate Adds(step: Step, scope: Scope) {
    exists key :: key !in step.before && key in step.after && step.after == step.before[key := step.after[key]]
      && step.after[key].mark == Some(scope.mark)
  }

  // This installation's dumps that rank before f.
  ghost function OwnedAhead(objects: Objects, scope: Scope, f: Listed): set<Key> {
    set key | key in objects && Owned(objects, key, scope.mark) && scope.prefix <= key
      && ValidName(key[|scope.prefix|..])
      && Newer(Listed(key[|scope.prefix|..], objects[key].modified), f, scope.stamp)
  }

  ghost predicate Evicts(step: Step, name: string, scope: Scope) {
    && Owned(step.before, scope.prefix + name, scope.mark)
    && var modified := step.before[scope.prefix + name].modified;
       NO_TIME != modified <= scope.now - DAY
       && 0 < scope.keep <= |OwnedAhead(step.after, scope, Listed(name, modified))|
  }

  ghost predicate Replaces(step: Step, name: string, scope: Scope) {
    && Owned(step.before, scope.prefix + name, scope.mark) && !scope.onlyEvict
    && name in scope.volume && Drilled(scope.volume[name].blob, scope.secret)
  }

  // step removes key, found to be owned before others had their turn.
  ghost predicate Follows(prev: Step, step: Step, key: Key, mark: Mark) {
    !prev.own && prev.after == step.before && Owned(prev.before, key, mark) && step.after == step.before - {key}
  }

  ghost predicate Removes(prev: Step, step: Step, scope: Scope) {
    exists name {:trigger ValidName(name)} :: ValidName(name) && Follows(prev, step, scope.prefix + name, scope.mark)
      && (scope.steady ==> Evicts(step, name, scope) || Replaces(step, name, scope))
  }

  ghost predicate Allowed(prev: Step, step: Step, scope: Scope) {
    step.after == step.before || Removes(prev, step, scope) || (!scope.onlyEvict && Adds(step, scope))
  }

  ghost predicate AllowedAt(trace: seq<Step>, i: nat, scope: Scope)
    requires i < |trace|
  {
    trace[i].own ==> i > 0 && Allowed(trace[i - 1], trace[i], scope)
  }

  ghost predicate AllowedFrom(was: seq<Step>, trace: seq<Step>, scope: Scope) {
    was <= trace && forall i {:trigger trace[i]} :: |was| <= i < |trace| ==> AllowedAt(trace, i, scope)
  }

  // How many changes to the bucket the installation has made.
  ghost function Changes(was: seq<Step>, trace: seq<Step>): nat
    requires was <= trace
    decreases |trace|
  {
    if |trace| == |was| then 0
    else
      var last := trace[|trace| - 1];
      Changes(was, trace[..|trace| - 1]) + if last.own && last.before != last.after then 1 else 0
  }

  lemma {:induction false} QuietChangesNothing(was: seq<Step>, mid: seq<Step>, trace: seq<Step>)
    requires was <= mid && Quiet(mid, trace)
    ensures was <= trace && Changes(was, trace) == Changes(was, mid)
    decreases |trace|
  {
    if |trace| > |mid| {
      var init := trace[..|trace| - 1];
      assert Quiet(mid, init);
      QuietChangesNothing(was, mid, init);
    } else {
      assert trace == mid;
    }
  }

  lemma OneMoreChange(was: seq<Step>, mid: seq<Step>, trace: seq<Step>, before: Step, step: Step)
    requires was <= mid && trace == mid + [before, step] && !before.own && step.own
    ensures was <= trace && Changes(was, trace) == Changes(was, mid) + if step.before != step.after then 1 else 0
  {
    assert trace[..|trace| - 1] == mid + [before];
    assert (mid + [before])[..|mid|] == mid;
  }

  lemma SameBefore(mid: seq<Step>, trace: seq<Step>, i: nat, scope: Scope)
    requires mid <= trace && i < |mid| && AllowedAt(mid, i, scope)
    ensures AllowedAt(trace, i, scope)
  {
    hide Allowed;
    assert trace[i] == mid[i] && (i > 0 ==> trace[i - 1] == mid[i - 1]);
  }

  lemma AllowedThenQuiet(was: seq<Step>, mid: seq<Step>, trace: seq<Step>, scope: Scope)
    requires AllowedFrom(was, mid, scope) && Quiet(mid, trace)
    ensures AllowedFrom(was, trace, scope)
  {
    hide Allowed;
    forall i | |was| <= i < |trace| ensures AllowedAt(trace, i, scope) {
      if i < |mid| {
        SameBefore(mid, trace, i, scope);
      }
    }
  }

  lemma AllowedThenStep(was: seq<Step>, mid: seq<Step>, trace: seq<Step>, before: Step, step: Step, scope: Scope)
    requires AllowedFrom(was, mid, scope) && trace == mid + [before, step]
    requires !before.own && Allowed(before, step, scope)
    ensures AllowedFrom(was, trace, scope)
  {
    hide Allowed;
    forall i | |was| <= i < |trace| ensures AllowedAt(trace, i, scope) {
      if i < |mid| {
        SameBefore(mid, trace, i, scope);
      }
    }
  }

  // Somebody else has put an object under a key that was this installation's.
  ghost predicate Reused(prev: Step, key: Key, mark: Mark) { key in prev.after && !Owned(prev.after, key, mark) }

  // Overwriting nothing and deleting only owned objects is exactly this: no removed key
  // was reused between the answer that showed it to be owned and the removal. In a
  // steady bucket none ever is, so installations that follow this code keep within what
  // each of them expects of the others.
  lemma AllowedIsGentle(prev: Step, step: Step, scope: Scope)
    requires Allowed(prev, step, scope)
    ensures Gentle(step.before, step.after, scope.mark) <==>
      !exists key :: Follows(prev, step, key, scope.mark) && Reused(prev, key, scope.mark)
    ensures scope.steady ==> Gentle(step.before, step.after, scope.mark)
  {
    hide IsDump, ValidName, Newer, Drilled, OwnedAhead;
    if Removes(prev, step, scope) {
      var name {:trigger ValidName(name)} :| ValidName(name) && Follows(prev, step, scope.prefix + name, scope.mark)
        && (scope.steady ==> Evicts(step, name, scope) || Replaces(step, name, scope));
      RemovalIsGentleExactly(prev, step, scope.prefix + name, scope.mark);
    }
  }

  lemma RemovalIsGentleExactly(prev: Step, step: Step, key: Key, mark: Mark)
    requires Follows(prev, step, key, mark)
    ensures Gentle(step.before, step.after, mark) <==> !Reused(prev, key, mark)
    ensures forall other :: Follows(prev, step, other, mark) && Reused(prev, other, mark) ==> other == key
  {
    assert key in step.before && !Owned(step.before, key, mark) ==> key !in step.after;
    forall other | Follows(prev, step, other, mark) && Reused(prev, other, mark) ensures other == key {
      assert other !in step.before - {other} && other in step.before;
    }
  }

  // The removal of key is in the trace, and the changes before it are these.
  ghost predicate Struck(was: seq<Step>, trace: seq<Step>, key: Key, changes: Changes, mark: Mark, steady: bool) {
    exists j {:trigger trace[j]} :: |was| < j < |trace| && trace[j].own && Follows(trace[j - 1], trace[j], key, mark)
      && trace[j].before == Meanwhile(trace[j - 1].before, changes, mark, steady)
  }

  lemma StruckLater(was: seq<Step>, mid: seq<Step>, trace: seq<Step>, key: Key, changes: Changes, mark: Mark, steady: bool)
    requires was <= mid <= trace && Struck(was, mid, key, changes, mark, steady)
    ensures Struck(was, trace, key, changes, mark, steady)
  {
    hide Follows, Meanwhile;
    var j {:trigger mid[j]} :| |was| < j < |mid| && mid[j].own && Follows(mid[j - 1], mid[j], key, mark)
      && mid[j].before == Meanwhile(mid[j - 1].before, changes, mark, steady);
    assert trace[j] == mid[j] && trace[j - 1] == mid[j - 1];
  }

  lemma StruckNow(was: seq<Step>, mid: seq<Step>, trace: seq<Step>, key: Key, changes: Changes, mark: Mark, steady: bool,
                  objects: Objects, after: Objects)
    requires was <= mid && Owned(objects, key, mark)
    requires var reached := Meanwhile(objects, changes, mark, steady);
      trace == mid + [Step(false, objects, reached), Step(true, reached, after)] && after == reached - {key}
    ensures Struck(was, trace, key, changes, mark, steady)
  {
    hide Meanwhile;
    var j := |mid| + 1;
    assert trace[j].own && Follows(trace[j - 1], trace[j], key, mark);
  }

  // Somebody else takes the key with these changes.
  predicate Takes(changes: Changes, key: Key, mark: Mark) {
    key in changes && changes[key].Some? && changes[key].value.mark != Some(mark)
  }

  // The installation deleted somebody else's object.
  ghost predicate DeletesForeign(was: seq<Step>, trace: seq<Step>, key: Key, foreign: Object) {
    exists j {:trigger trace[j]} :: |was| <= j < |trace| && trace[j].own
      && key in trace[j].before && trace[j].before[key] == foreign && key !in trace[j].after
  }

  // A removal after these changes is safe exactly if the bucket is steady or the changes
  // put nothing foreign under the key.
  lemma StruckIsGentleExactly(prev: Step, step: Step, key: Key, changes: Changes, mark: Mark, steady: bool)
    requires Follows(prev, step, key, mark) && step.before == Meanwhile(prev.before, changes, mark, steady)
    ensures Gentle(step.before, step.after, mark) <==> steady || !Takes(changes, key, mark)
  {
    hide Gentle;
    RemovalIsGentleExactly(prev, step, key, mark);
    assert Under(prev.before, changes, key, mark, steady).Some? <==> key in step.before;
  }

  lemma StruckDeletesForeign(was: seq<Step>, trace: seq<Step>, key: Key, changes: Changes, mark: Mark)
    requires Struck(was, trace, key, changes, mark, false) && Takes(changes, key, mark)
    ensures DeletesForeign(was, trace, key, changes[key].value)
  {
    hide Meanwhile;
    var j {:trigger trace[j]} :| |was| < j < |trace| && trace[j].own && Follows(trace[j - 1], trace[j], key, mark)
      && trace[j].before == Meanwhile(trace[j - 1].before, changes, mark, false);
    assert Under(trace[j - 1].before, changes, key, mark, false) == changes[key];
    assert key in Meanwhile(trace[j - 1].before, changes, mark, false);
    assert Meanwhile(trace[j - 1].before, changes, mark, false)[key] == changes[key].value;
  }

  // Owned objects listed before the i-th.
  ghost predicate Keepers(keepers: set<Key>, list: seq<Listed>, i: nat, objects: Objects, prefix: Key, mark: Mark) {
    forall key :: key in keepers ==>
      Owned(objects, key, mark) && exists k :: 0 <= k < i && k < |list| && key == prefix + list[k].name
  }

  lemma KeepersUnderRely(keepers: set<Key>, list: seq<Listed>, i: nat, a: Objects, b: Objects, prefix: Key, mark: Mark)
    requires Keepers(keepers, list, i, a, prefix, mark) && Rely(a, b, mark)
    ensures Keepers(keepers, list, i, b, prefix, mark) && Keepers(keepers, list, i + 1, b, prefix, mark)
  {}

  lemma KeepersAdd(keepers: set<Key>, list: seq<Listed>, i: nat, objects: Objects, prefix: Key, mark: Mark)
    requires Keepers(keepers, list, i, objects, prefix, mark) && i < |list| && Distinct(list)
    requires Owned(objects, prefix + list[i].name, mark)
    ensures prefix + list[i].name !in keepers
    ensures Keepers(keepers + {prefix + list[i].name}, list, i + 1, objects, prefix, mark)
  {
    hide Owned;
    var key := prefix + list[i].name;
    forall k | 0 <= k < i ensures key != prefix + list[k].name {
      assert (prefix + list[k].name)[|prefix|..] == list[k].name;
      assert key[|prefix|..] == list[i].name;
    }
  }

  // Removing the i-th listed object, with enough owned ones listed before it.
  lemma EvictionIsCovered(keepers: set<Key>, list: seq<Listed>, i: nat, objects: Objects, after: Objects, scope: Scope)
    requires i < |list| && Distinct(list) && Ordered(list, scope.stamp) && AllValid(list)
    requires Accurate(list, objects, scope.prefix, scope.mark)
    requires Keepers(keepers, list, i, objects, scope.prefix, scope.mark) && 0 < scope.keep <= |keepers|
    requires Owned(objects, scope.prefix + list[i].name, scope.mark)
    requires NO_TIME != list[i].modified <= scope.now - DAY
    requires after == objects - {scope.prefix + list[i].name}
    ensures Evicts(Step(true, objects, after), list[i].name, scope)
    ensures Accurate(list, after, scope.prefix, scope.mark)
    ensures Keepers(keepers, list, i, after, scope.prefix, scope.mark)
  {
    hide ValidName, Newer;
    var gone := scope.prefix + list[i].name;
    var ahead := OwnedAhead(after, scope, list[i]);
    forall key | key in keepers ensures key in ahead && key != gone {
      var k :| 0 <= k < i && key == scope.prefix + list[k].name;
      assert list[k].name == key[|scope.prefix|..];
      assert gone[|scope.prefix|..] == list[i].name;
      assert Newer(list[k], list[i], scope.stamp);
      assert objects[key].modified == list[k].modified;
    }
    Fewer(keepers, ahead);
    assert Listed(list[i].name, objects[gone].modified) == list[i];
  }

  // ----- what a faultless pruning removes ------------------------------------

  // An owned dump retention no longer needs.
  ghost predicate Expendable(objects: Objects, scope: Scope, name: string) {
    && ValidName(name) && Owned(objects, scope.prefix + name, scope.mark)
    && var modified := objects[scope.prefix + name].modified;
       NO_TIME != modified <= scope.now - DAY
       && 0 < scope.keep <= |OwnedAhead(objects, scope, Listed(name, modified))|
  }

  // Exactly those are gone.
  ghost predicate Retained(before: Objects, after: Objects, scope: Scope) {
    && (forall key :: key in after ==> key in before && after[key] == before[key])
    && (forall key :: key in before ==>
          (key in after <==> !(scope.prefix <= key && Expendable(before, scope, key[|scope.prefix|..]))))
  }

  // The owned objects among the first i listed.
  ghost function OwnedUpTo(list: seq<Listed>, i: nat, objects: Objects, scope: Scope): (r: set<Key>)
    requires i <= |list|
    ensures forall key :: key in r <==>
      exists k {:trigger list[k]} :: 0 <= k < i && key == scope.prefix + list[k].name && Owned(objects, key, scope.mark)
  {
    set k | 0 <= k < i && Owned(objects, scope.prefix + list[k].name, scope.mark) :: scope.prefix + list[k].name
  }

  lemma AheadInList(list: seq<Listed>, i: nat, objects: Objects, scope: Scope)
    requires i < |list| && Distinct(list) && Ordered(list, scope.stamp) && AllValid(list)
    requires Accurate(list, objects, scope.prefix, scope.mark) && Complete(list, objects, scope.prefix, scope.mark)
    ensures OwnedAhead(objects, scope, list[i]) == OwnedUpTo(list, i, objects, scope)
  {
    hide ValidName, Newer;
    var ahead, upTo := OwnedAhead(objects, scope, list[i]), OwnedUpTo(list, i, objects, scope);
    forall key | key in upTo ensures key in ahead {
      var k {:trigger list[k]} :| 0 <= k < i && key == scope.prefix + list[k].name && Owned(objects, key, scope.mark);
      assert key[|scope.prefix|..] == list[k].name;
      assert Listed(list[k].name, objects[key].modified) == list[k];
    }
    forall key | key in ahead ensures key in upTo {
      var name := key[|scope.prefix|..];
      assert key == scope.prefix + name && Named(list, name);
      var k :| 0 <= k < |list| && list[k].name == name;
      assert Listed(name, objects[key].modified) == list[k];
      NewerIsStrictTotal(list[k], list[i], scope.stamp);
      assert k < i;
    }
  }

  // The i-th listed object can go exactly if it is owned, old enough, and keep owned
  // ones are listed before it.
  lemma ExpendableInList(list: seq<Listed>, i: nat, objects: Objects, scope: Scope)
    requires i < |list| && Distinct(list) && Ordered(list, scope.stamp) && AllValid(list)
    requires Accurate(list, objects, scope.prefix, scope.mark) && Complete(list, objects, scope.prefix, scope.mark)
    ensures Expendable(objects, scope, list[i].name) <==>
      Owned(objects, scope.prefix + list[i].name, scope.mark) && NO_TIME != list[i].modified <= scope.now - DAY
      && 0 < scope.keep <= |OwnedUpTo(list, i, objects, scope)|
  {
    hide ValidName, Newer, OwnedUpTo, Ordered;
    AheadInList(list, i, objects, scope);
    if Owned(objects, scope.prefix + list[i].name, scope.mark) {
      assert Listed(list[i].name, objects[scope.prefix + list[i].name].modified) == list[i];
    }
  }

  lemma UpToNext(list: seq<Listed>, i: nat, objects: Objects, scope: Scope)
    requires i < |list|
    ensures var key := scope.prefix + list[i].name;
      OwnedUpTo(list, i + 1, objects, scope) ==
        OwnedUpTo(list, i, objects, scope) + if Owned(objects, key, scope.mark) then {key} else {}
  {
    hide Owned;
  }

  // Where a faultless loop stands before the i-th listed object: which of the owned
  // ones it has kept, and what is gone.
  ghost predicate Counted(list: seq<Listed>, i: nat, before: Objects, keepers: set<Key>, scope: Scope) {
    && i <= |list| && keepers <= OwnedUpTo(list, i, before, scope)
    && |keepers| <= scope.keep
    && (|keepers| < scope.keep ==> keepers == OwnedUpTo(list, i, before, scope))
  }

  ghost predicate Gone(list: seq<Listed>, i: nat, before: Objects, objects: Objects, scope: Scope) {
    && i <= |list|
    && (forall key :: key in objects ==> key in before && objects[key] == before[key])
    && (forall k {:trigger list[k]} :: 0 <= k < i && scope.prefix + list[k].name in before ==>
          (scope.prefix + list[k].name in objects <==> !Expendable(before, scope, list[k].name)))
    && (forall key :: key in before && key !in objects ==>
          exists k {:trigger list[k]} :: 0 <= k < i && key == scope.prefix + list[k].name)
  }

  lemma DifferentKeys(list: seq<Listed>, i: nat, k: nat, prefix: Key)
    requires Distinct(list) && i < |list| && k < |list| && i != k
    ensures prefix + list[k].name != prefix + list[i].name
  {
    assert (prefix + list[k].name)[|prefix|..] == list[k].name;
    assert (prefix + list[i].name)[|prefix|..] == list[i].name;
  }

  lemma StillAsBefore(list: seq<Listed>, i: nat, before: Objects, objects: Objects, scope: Scope)
    requires Gone(list, i, before, objects, scope) && i < |list| && Distinct(list)
    ensures var key := scope.prefix + list[i].name;
      (key in objects <==> key in before) && (Owned(objects, key, scope.mark) <==> Owned(before, key, scope.mark))
  {
    hide Expendable;
    forall k | 0 <= k < i ensures scope.prefix + list[k].name != scope.prefix + list[i].name {
      DifferentKeys(list, i, k, scope.prefix);
    }
  }

  lemma GoneNext(list: seq<Listed>, i: nat, before: Objects, objects: Objects, after: Objects, scope: Scope)
    requires Gone(list, i, before, objects, scope) && i < |list| && Distinct(list)
    requires var key := scope.prefix + list[i].name;
      after == if Expendable(before, scope, list[i].name) then objects - {key} else objects
    ensures Gone(list, i + 1, before, after, scope)
  {
    hide Expendable;
    StillAsBefore(list, i, before, objects, scope);
    forall k | 0 <= k < i ensures scope.prefix + list[k].name != scope.prefix + list[i].name {
      DifferentKeys(list, i, k, scope.prefix);
    }
  }

  // While places are left, an owned object is kept, and none is expendable.
  lemma KeepNext(list: seq<Listed>, i: nat, before: Objects, keepers: set<Key>, scope: Scope)
    requires Counted(list, i, before, keepers, scope) && i < |list| && |keepers| < scope.keep && AllValid(list)
    requires Distinct(list) && Ordered(list, scope.stamp)
    requires Accurate(list, before, scope.prefix, scope.mark) && Complete(list, before, scope.prefix, scope.mark)
    ensures !Expendable(before, scope, list[i].name)
    ensures var key := scope.prefix + list[i].name;
      Counted(list, i + 1, before, keepers + (if Owned(before, key, scope.mark) then {key} else {}), scope)
  {
    hide ValidName, Ordered, OwnedUpTo, Expendable, Accurate, Complete, Owned;
    ExpendableInList(list, i, before, scope);
    UpToNext(list, i, before, scope);
  }

  // Afterwards the rest of the listing goes, as far as it is owned and old enough.
  lemma EvictNext(list: seq<Listed>, i: nat, before: Objects, keepers: set<Key>, scope: Scope)
    requires Counted(list, i, before, keepers, scope) && i < |list| && |keepers| == scope.keep > 0 && AllValid(list)
    requires Distinct(list) && Ordered(list, scope.stamp)
    requires Accurate(list, before, scope.prefix, scope.mark) && Complete(list, before, scope.prefix, scope.mark)
    ensures Expendable(before, scope, list[i].name) <==>
      Owned(before, scope.prefix + list[i].name, scope.mark) && NO_TIME != list[i].modified <= scope.now - DAY
    ensures Counted(list, i + 1, before, keepers, scope)
  {
    hide ValidName, Ordered, OwnedUpTo, Expendable, Accurate, Complete, Owned;
    ExpendableInList(list, i, before, scope);
    UpToNext(list, i, before, scope);
    Fewer(keepers, OwnedUpTo(list, i, before, scope));
  }

  lemma NothingGone(list: seq<Listed>, before: Objects, scope: Scope)
    requires scope.keep >= 0
    ensures Counted(list, 0, before, {}, scope) && Gone(list, 0, before, before, scope)
  {}

  lemma AllGone(list: seq<Listed>, before: Objects, objects: Objects, scope: Scope)
    requires Gone(list, |list|, before, objects, scope)
    requires Complete(list, before, scope.prefix, scope.mark)
    ensures Retained(before, objects, scope)
  {
    forall key | key in before
      ensures key in objects <==> !(scope.prefix <= key && Expendable(before, scope, key[|scope.prefix|..]))
    {
      GoneExactly(list, before, objects, key, scope);
    }
  }

  lemma GoneExactly(list: seq<Listed>, before: Objects, objects: Objects, key: Key, scope: Scope)
    requires Gone(list, |list|, before, objects, scope) && key in before
    requires Complete(list, before, scope.prefix, scope.mark)
    ensures key in objects <==> !(scope.prefix <= key && Expendable(before, scope, key[|scope.prefix|..]))
  {
    hide ValidName, OwnedAhead;
    if scope.prefix <= key && Expendable(before, scope, key[|scope.prefix|..]) {
      var name := key[|scope.prefix|..];
      assert key == scope.prefix + name && Named(list, name);
      var k :| 0 <= k < |list| && list[k].name == name;
    }
    if key !in objects {
      var k {:trigger list[k]} :| 0 <= k < |list| && key == scope.prefix + list[k].name;
      assert key[|scope.prefix|..] == list[k].name;
    }
  }

  // Where the loop stands in a bucket in which others act only before removals.
  ghost predicate Lurked(was: seq<Step>, trace: seq<Step>, list: seq<Listed>, i: nat, before: Objects, objects: Objects,
                         keepers: set<Key>, theft: Changes, scope: Scope) {
    && was <= trace && i <= |list|
    && Counted(list, i, before, keepers, scope) && Gone(list, i, before, objects, scope)
    && forall k {:trigger list[k]} :: 0 <= k < i && Expendable(before, scope, list[k].name) ==>
         StruckAt(was, trace, scope.prefix + list[k].name, theft, scope)
  }

  ghost predicate StruckAt(was: seq<Step>, trace: seq<Step>, key: Key, theft: Changes, scope: Scope) {
    Struck(was, trace, key, Only(theft, key), scope.mark, scope.steady)
  }

  lemma StruckAllLater(was: seq<Step>, mid: seq<Step>, trace: seq<Step>, list: seq<Listed>, i: nat, before: Objects,
                       objects: Objects, keepers: set<Key>, theft: Changes, scope: Scope)
    requires Lurked(was, mid, list, i, before, objects, keepers, theft, scope) && mid <= trace
    ensures Lurked(was, trace, list, i, before, objects, keepers, theft, scope)
  {
    hide Expendable, Counted, Gone, Struck;
    forall k | 0 <= k < i && Expendable(before, scope, list[k].name)
      ensures StruckAt(was, trace, scope.prefix + list[k].name, theft, scope)
    {
      var key := scope.prefix + list[k].name;
      StruckLater(was, mid, trace, key, Only(theft, key), scope.mark, scope.steady);
    }
  }

  // What the loop knows of the listing throughout.
  ghost predicate Listing(list: seq<Listed>, before: Objects, scope: Scope) {
    && scope.keep > 0 && AllValid(list) && Distinct(list) && Ordered(list, scope.stamp)
    && Accurate(list, before, scope.prefix, scope.mark) && Complete(list, before, scope.prefix, scope.mark)
  }

  lemma LurkedPast(was: seq<Step>, trace: seq<Step>, list: seq<Listed>, i: nat, before: Objects, objects: Objects,
                   keepers: set<Key>, theft: Changes, scope: Scope)
    requires Lurked(was, trace, list, i, before, objects, keepers, theft, scope) && i < |list| && Listing(list, before, scope)
    ensures var key := scope.prefix + list[i].name; var owned := Owned(objects, key, scope.mark);
      && (|keepers| < scope.keep && owned ==>
            key !in keepers && Lurked(was, trace, list, i + 1, before, objects, keepers + {key}, theft, scope))
      && (!owned || (|keepers| == scope.keep && !(NO_TIME != list[i].modified <= scope.now - DAY)) ==>
            Lurked(was, trace, list, i + 1, before, objects, keepers, theft, scope))
  {
    hide ValidName, Ordered, Expendable, Accurate, Complete, Owned, Counted, Gone, AllValid, StruckAt;
    NextListed(list, i, before, objects, keepers, scope);
    NotYetKept(list, i, before, keepers, scope);
  }

  lemma LurkedRemoval(was: seq<Step>, mid: seq<Step>, trace: seq<Step>, list: seq<Listed>, i: nat, before: Objects,
                      objects: Objects, reached: Objects, after: Objects, keepers: set<Key>, theft: Changes, scope: Scope)
    requires Lurked(was, mid, list, i, before, objects, keepers, theft, scope) && i < |list| && Listing(list, before, scope)
    requires |keepers| == scope.keep && NO_TIME != list[i].modified <= scope.now - DAY
    requires Owned(objects, scope.prefix + list[i].name, scope.mark)
    requires var key := scope.prefix + list[i].name;
      && reached == Meanwhile(objects, Only(theft, key), scope.mark, scope.steady) && after == reached - {key}
      && trace == mid + [Step(false, objects, reached), Step(true, reached, after)]
    ensures Lurked(was, trace, list, i + 1, before, after, keepers, theft, scope)
  {
    hide ValidName, Ordered, Expendable, Accurate, Complete, Owned, Counted, Gone, AllValid, StruckAt, Meanwhile;
    var key := scope.prefix + list[i].name;
    NextListed(list, i, before, objects, keepers, scope);
    StruckAllLater(was, mid, trace, list, i, before, objects, keepers, theft, scope);
    OnlyTouches(objects, theft, key, scope.mark, scope.steady);
    StruckNow(was, mid, trace, key, Only(theft, key), scope.mark, scope.steady, objects, after);
    assert StruckAt(was, trace, key, theft, scope) by {
      IsStruckAt(was, trace, key, theft, scope);
    }
  }

  lemma IsStruckAt(was: seq<Step>, trace: seq<Step>, key: Key, theft: Changes, scope: Scope)
    requires Struck(was, trace, key, Only(theft, key), scope.mark, scope.steady)
    ensures StruckAt(was, trace, key, theft, scope)
  {}

  lemma OnlyTouches(objects: Objects, theft: Changes, key: Key, mark: Mark, steady: bool)
    ensures Meanwhile(objects, Only(theft, key), mark, steady) - {key} == objects - {key}
  {
    var reached := Meanwhile(objects, Only(theft, key), mark, steady);
    forall other | other != key ensures other in reached <==> other in objects {
      assert Under(objects, Only(theft, key), other, mark, steady) == if other in objects then Some(objects[other]) else None;
    }
    forall other | other != key && other in reached ensures reached[other] == objects[other] {
      assert Under(objects, Only(theft, key), other, mark, steady) == Some(objects[other]);
    }
  }

  lemma NotYetKept(list: seq<Listed>, i: nat, before: Objects, keepers: set<Key>, scope: Scope)
    requires Counted(list, i, before, keepers, scope) && i < |list| && Distinct(list)
    ensures scope.prefix + list[i].name !in keepers
  {
    hide Owned;
    forall k | 0 <= k < i ensures scope.prefix + list[k].name != scope.prefix + list[i].name {
      DifferentKeys(list, i, k, scope.prefix);
    }
  }

  lemma LurkedToEnd(was: seq<Step>, trace: seq<Step>, list: seq<Listed>, before: Objects, objects: Objects,
                    keepers: set<Key>, theft: Changes, scope: Scope)
    requires Lurked(was, trace, list, |list|, before, objects, keepers, theft, scope) && Listing(list, before, scope)
    ensures Retained(before, objects, scope)
    ensures forall name {:trigger Expendable(before, scope, name)} :: Expendable(before, scope, name) ==>
      StruckAt(was, trace, scope.prefix + name, theft, scope)
  {
    hide StruckAt, Counted, Gone, ValidName, Accurate, OwnedAhead, Ordered, Newer, Owned, Retained, AllValid;
    AllGone(list, before, objects, scope);
    forall name | Expendable(before, scope, name)
      ensures StruckAt(was, trace, scope.prefix + name, theft, scope)
    {
      assert Named(list, name);
      var k :| 0 <= k < |list| && list[k].name == name;
    }
  }

  // Where the loop stands in a steady bucket.
  ghost predicate Steadily(list: seq<Listed>, i: nat, objects: Objects, keepers: set<Key>, scope: Scope) {
    Accurate(list, objects, scope.prefix, scope.mark) && Keepers(keepers, list, i, objects, scope.prefix, scope.mark)
  }

  lemma SteadilyPast(list: seq<Listed>, i: nat, a: Objects, b: Objects, keepers: set<Key>, scope: Scope)
    requires Steadily(list, i, a, keepers, scope) && Rely(a, b, scope.mark) && i < |list| && Distinct(list)
    ensures Steadily(list, i, b, keepers, scope) && Steadily(list, i + 1, b, keepers, scope)
    ensures var key := scope.prefix + list[i].name;
      Owned(b, key, scope.mark) ==> key !in keepers && Steadily(list, i + 1, b, keepers + {key}, scope)
  {
    hide Accurate, Keepers, Rely, Owned;
    AccurateUnderRely(list, a, b, scope.prefix, scope.mark);
    KeepersUnderRely(keepers, list, i, a, b, scope.prefix, scope.mark);
    if Owned(b, scope.prefix + list[i].name, scope.mark) {
      KeepersAdd(keepers, list, i, b, scope.prefix, scope.mark);
    }
  }

  // One of the newest keep of this installation's dumps.
  ghost predicate Leading(objects: Objects, scope: Scope, name: string) {
    && ValidName(name) && Owned(objects, scope.prefix + name, scope.mark)
    && |OwnedAhead(objects, scope, Listed(name, objects[scope.prefix + name].modified))| < scope.keep
  }

  // It leads as long as nobody adds a dump with this mark and it is not removed.
  lemma StillLeading(a: Objects, b: Objects, scope: Scope, name: string)
    requires Leading(a, scope, name) && scope.prefix + name in b
    requires forall key :: Owned(b, key, scope.mark) ==> key in a && a[key] == b[key]
    requires b[scope.prefix + name] == a[scope.prefix + name]
    ensures Leading(b, scope, name)
  {
    hide ValidName, Newer;
    var f := Listed(name, a[scope.prefix + name].modified);
    Fewer(OwnedAhead(b, scope, f), OwnedAhead(a, scope, f));
  }

  ghost predicate LeadersStay(before: Objects, after: Objects, scope: Scope) {
    forall name {:trigger ValidName(name)} :: Leading(before, scope, name) ==> Leading(after, scope, name)
  }

  lemma LeadersRely(before: Objects, a: Objects, b: Objects, scope: Scope)
    requires LeadersStay(before, a, scope) && Rely(a, b, scope.mark)
    ensures LeadersStay(before, b, scope)
  {
    hide ValidName, OwnedAhead;
    forall name | Leading(before, scope, name) ensures Leading(b, scope, name) {
      assert ValidName(name);
      StillLeading(a, b, scope, name);
    }
  }

  lemma LeadersAtStart(objects: Objects, scope: Scope)
    ensures LeadersStay(objects, objects, scope)
  {}

  lemma LeadersTwice(a: Objects, b: Objects, c: Objects, scope: Scope)
    requires LeadersStay(a, b, scope) && LeadersStay(b, c, scope)
    ensures LeadersStay(a, c, scope)
  {
    hide ValidName, OwnedAhead;
    forall name | Leading(a, scope, name) ensures Leading(c, scope, name) {
      assert ValidName(name);
    }
  }

  // What retention evicts never leads.
  lemma LeadersEvict(before: Objects, a: Objects, b: Objects, scope: Scope, gone: string)
    requires LeadersStay(before, a, scope)
    requires b == a || (b == a - {scope.prefix + gone} && Evicts(Step(true, a, b), gone, scope))
    ensures LeadersStay(before, b, scope)
  {
    hide ValidName, Newer;
    forall name | Leading(before, scope, name) ensures Leading(b, scope, name) {
      assert ValidName(name);
      if b != a {
        assert (scope.prefix + name)[|scope.prefix|..] == name && (scope.prefix + gone)[|scope.prefix|..] == gone;
        if name == gone {
          var f := Listed(name, a[scope.prefix + name].modified);
          Fewer(OwnedAhead(b, scope, f), OwnedAhead(a, scope, f));
        }
        StillLeading(a, b, scope, name);
      }
    }
  }

  // With the times in the names written out: a pruning that leaves the leaders, or that
  // removes exactly what is expendable, leaves every owned dump that fewer than keep
  // others have a time not earlier than its own, or no time in the name. So the dump with the
  // latest time of all stays, whatever was modified when.
  lemma LatestStampSurvives(before: Objects, after: Objects, scope: Scope, name: string)
    requires LeadersStay(before, after, scope) || Retained(before, after, scope)
    requires ValidName(name) && Owned(before, scope.prefix + name, scope.mark) && scope.stamp(name).Some?
    requires |NotEarlier(before, scope, name)| < scope.keep
    ensures Owned(after, scope.prefix + name, scope.mark)
  {
    hide ValidName, Less;
    var f := Listed(name, before[scope.prefix + name].modified);
    NewerIsStrictTotal(f, f, scope.stamp);
    assert (scope.prefix + name)[|scope.prefix|..] == name;
    Fewer(OwnedAhead(before, scope, f), NotEarlier(before, scope, name));
  }

  // The other owned dumps without a time in the name, or with one that is not earlier.
  ghost function NotEarlier(objects: Objects, scope: Scope, name: string): set<Key>
    requires scope.stamp(name).Some?
  {
    set key | key in objects && key != scope.prefix + name && Owned(objects, key, scope.mark) && scope.prefix <= key
      && ValidName(key[|scope.prefix|..])
      && var stamp := scope.stamp(key[|scope.prefix|..]);
         stamp.None? || stamp.value >= scope.stamp(name).value
  }

  // The owned dumps with a later time in the name.
  ghost function Later(objects: Objects, scope: Scope, name: string): set<Key> {
    set key | key in objects && Owned(objects, key, scope.mark) && scope.prefix <= key
      && ValidName(key[|scope.prefix|..])
      && var (stamp, own) := (scope.stamp(key[|scope.prefix|..]), scope.stamp(name));
         stamp.Some? && own.Some? && stamp.value > own.value
  }

  // And where all owned dumps have a time of their own in the name, these alone decide.
  lemma ExpendableByStamps(objects: Objects, scope: Scope, name: string)
    requires ValidName(name) && Owned(objects, scope.prefix + name, scope.mark) && scope.stamp(name).Some?
    requires forall other {:trigger ValidName(other)} :: ValidName(other) && Owned(objects, scope.prefix + other, scope.mark) ==>
      scope.stamp(other).Some? && (other != name ==> scope.stamp(other) != scope.stamp(name))
    ensures Expendable(objects, scope, name) <==>
      NO_TIME != objects[scope.prefix + name].modified <= scope.now - DAY && 0 < scope.keep <= |Later(objects, scope, name)|
  {
    hide ValidName, Less;
    var f := Listed(name, objects[scope.prefix + name].modified);
    NewerIsStrictTotal(f, f, scope.stamp);
    forall key | key in objects && Owned(objects, key, scope.mark) && scope.prefix <= key && ValidName(key[|scope.prefix|..])
      ensures key in OwnedAhead(objects, scope, f) <==> key in Later(objects, scope, name)
    {
      var other := key[|scope.prefix|..];
      assert key == scope.prefix + other;
    }
    assert OwnedAhead(objects, scope, f) == Later(objects, scope, name);
  }

  // One pass of the loop: what it started from.
  datatype Pass = Pass(was: seq<Step>, list: seq<Listed>, before: Objects, theft: Changes, scope: Scope, lurks: bool)

  ghost predicate Known(p: Pass) {
    && AllValid(p.list) && Distinct(p.list) && Ordered(p.list, p.scope.stamp) && p.scope.keep > 0
    && (p.scope.steady || p.lurks ==> Listing(p.list, p.before, p.scope))
  }

  // And where it stands before the i-th listed object.
  ghost predicate Standing(p: Pass, i: nat, trace: seq<Step>, objects: Objects, keepers: set<Key>, kept: nat,
                           removed: nat, failures: nat) {
    && i <= |p.list| && AllowedFrom(p.was, trace, p.scope) && p.was <= trace && kept <= p.scope.keep
    && Changes(p.was, trace) <= removed + failures && (p.scope.steady ==> removed <= Changes(p.was, trace))
    && (p.scope.steady || p.lurks ==> kept == |keepers|)
    && (p.lurks ==> failures == 0 && Lurked(p.was, trace, p.list, i, p.before, objects, keepers, p.theft, p.scope))
    && (p.scope.steady ==> Steadily(p.list, i, objects, keepers, p.scope) && LeadersStay(p.before, objects, p.scope))
  }

  // No question is asked about an object too young to go.
  lemma PassesYoung(p: Pass, i: nat, trace: seq<Step>, objects: Objects, keepers: set<Key>, kept: nat, removed: nat, failures: nat)
    requires Known(p) && Standing(p, i, trace, objects, keepers, kept, removed, failures) && i < |p.list|
    requires kept >= p.scope.keep && !(NO_TIME != p.list[i].modified <= p.scope.now - DAY)
    ensures Standing(p, i + 1, trace, objects, keepers, kept, removed, failures)
  {
    hide AllValid, Ordered, Listing, AllowedFrom, Changes, Lurked, Steadily, LeadersStay, Rely, Owned;
    if p.lurks {
      LurkedPast(p.was, trace, p.list, i, p.before, objects, keepers, p.theft, p.scope);
    }
    if p.scope.steady {
      RelyReflexive(objects, p.scope.mark);
      SteadilyPast(p.list, i, objects, objects, keepers, p.scope);
    }
  }

  // After the question whether it is owned.
  lemma Asked(p: Pass, i: nat, trace: seq<Step>, objects: Objects, after: seq<Step>, now: Objects, keepers: set<Key>, kept: nat,
              removed: nat, failures: nat)
    requires Known(p) && Standing(p, i, trace, objects, keepers, kept, removed, failures) && i < |p.list|
    requires Quiet(trace, after) && (p.scope.steady ==> Rely(objects, now, p.scope.mark)) && (p.lurks ==> now == objects)
    ensures Standing(p, i, after, now, keepers, kept, removed, failures)
    ensures !p.lurks ==> Standing(p, i + 1, after, now, keepers, kept, removed, failures + 1)
    ensures var key := p.scope.prefix + p.list[i].name;
      && (!Owned(now, key, p.scope.mark) ==> Standing(p, i + 1, after, now, keepers, kept, removed, failures))
      && (Owned(now, key, p.scope.mark) && kept < p.scope.keep ==>
            Standing(p, i + 1, after, now, keepers + {key}, kept + 1, removed, failures))
  {
    hide AllValid, Ordered, Listing, AllowedFrom, Changes, Lurked, Steadily, LeadersStay, Rely, Owned, Quiet;
    AllowedThenQuiet(p.was, trace, after, p.scope);
    QuietChangesNothing(p.was, trace, after);
    Grew(trace, after);
    if p.lurks {
      StruckAllLater(p.was, trace, after, p.list, i, p.before, objects, keepers, p.theft, p.scope);
      LurkedPast(p.was, after, p.list, i, p.before, objects, keepers, p.theft, p.scope);
    }
    if p.scope.steady {
      SteadilyPast(p.list, i, objects, now, keepers, p.scope);
      LeadersRely(p.before, objects, now, p.scope);
    }
  }

  // After the request to remove it.
  lemma RemovedNext(p: Pass, i: nat, trace: seq<Step>, objects: Objects, reached: Objects, after: Objects, end: seq<Step>,
                    keepers: set<Key>, kept: nat, removed: nat, failures: nat, ok: bool)
    requires Known(p) && Standing(p, i, trace, objects, keepers, kept, removed, failures) && i < |p.list|
    requires kept == p.scope.keep && NO_TIME != p.list[i].modified <= p.scope.now - DAY
    requires end == trace + [Step(false, objects, reached), Step(true, reached, after)]
    requires var key := p.scope.prefix + p.list[i].name;
      && Owned(objects, key, p.scope.mark) && (after == reached || after == reached - {key}) && (ok ==> after == reached - {key})
      && (p.lurks ==> ok && reached == Meanwhile(objects, Only(p.theft, key), p.scope.mark, p.scope.steady))
    requires p.scope.steady ==> Rely(objects, reached, p.scope.mark)
    ensures Standing(p, i + 1, end, after, keepers, kept, removed + if ok then 1 else 0, failures + if ok then 0 else 1)
  {
    hide AllValid, Ordered, Listing, AllowedFrom, Changes, Lurked, Steadily, LeadersStay, Rely, Owned, Meanwhile, Allowed;
    RemovalIsAllowed(keepers, p.list, i, objects, reached, after, p.scope);
    AllowedThenStep(p.was, trace, end, Step(false, objects, reached), Step(true, reached, after), p.scope);
    OneMoreChange(p.was, trace, end, Step(false, objects, reached), Step(true, reached, after));
    if p.lurks {
      LurkedRemoval(p.was, trace, end, p.list, i, p.before, objects, reached, after, keepers, p.theft, p.scope);
    }
    if p.scope.steady {
      LeadersRely(p.before, objects, reached, p.scope);
      LeadersEvict(p.before, reached, after, p.scope, p.list[i].name);
    }
    if p.scope.steady && ok {
      StillThere(objects, reached, p.scope.prefix + p.list[i].name, p.scope.mark);
    }
  }

  // Whatever others do, a key is only removed directly after an answer that showed it
  // to be owned, so AllowedIsGentle says exactly when a removal is safe. The counters
  // bracket the changes. In a steady bucket every removal is covered; and when
  // nothing fails and others act at most under a key that is about to be removed,
  // exactly the expendable dumps are removed, each by a request of its own.
  method PruneS3(b: Bucket, cfg: Config, keep: int, now: Time, ghost scope: Scope, ghost theft: Changes)
    returns (removed: nat, failures: nat)
    requires scope.prefix == cfg.prefix && scope.mark == b.mark && scope.stamp == cfg.stamp && scope.steady == b.steady
    requires scope.keep == keep && scope.now == now && scope.onlyEvict
    modifies b
    ensures AllowedFrom(old(b.trace), b.trace, scope)
    ensures keep <= 0 ==> b.objects == old(b.objects)
    ensures Lurks(b.world, theft) && keep > 0 && |old(b.objects)| <= MAX_LISTING ==>
      failures == 0 && Retained(old(b.objects), b.objects, scope)
    ensures Lurks(b.world, theft) && keep > 0 && |old(b.objects)| <= MAX_LISTING ==>
      forall name {:trigger Expendable(old(b.objects), scope, name)} :: Expendable(old(b.objects), scope, name) ==>
        StruckAt(old(b.trace), b.trace, scope.prefix + name, theft, scope)
    ensures old(b.trace) <= b.trace && Changes(old(b.trace), b.trace) <= removed + failures
    ensures b.steady ==> removed <= Changes(old(b.trace), b.trace)
    // Whatever fails, the newest keep stay.
    ensures b.steady ==> LeadersStay(old(b.objects), b.objects, scope)
  {
    hide Accurate, Rely, Loose, Owned, ValidName, AllowedFrom, Quiet, Newer, Ordered, Changes, Complete,
      Expendable, Retained, AllValid, Meanwhile, Lurks, StruckAt, Standing, Listing, OwnedAhead, Known, Only, Distinct,
      LeadersStay;
    removed, failures := 0, 0;
    LeadersAtStart(b.objects, scope);
    AllowedAtStart(b.trace, scope);
    NoChanges(b.trace);
    if keep <= 0 {
      return;
    }
    ghost var was, before := b.trace, b.objects;
    var files := S3List(b, cfg, theft);
    if b.steady {
      LeadersRely(before, before, b.objects, scope);
    }
    AllowedThenQuiet(was, was, b.trace, scope);
    Grew(was, b.trace);
    QuietChangesNothing(was, was, b.trace);
    if files.None? {
      return 0, 1;
    }
    var list := files.value;
    var cutoff := now - DAY;
    var kept: nat := 0;
    ghost var keepers: set<Key> := {};
    ghost var p := Pass(was, list, b.objects, theft, scope, Lurks(b.world, theft));
    StartsListing(p, b.trace, b.objects);
    for i := 0 to |list|
      invariant Known(p) && Standing(p, i, b.trace, b.objects, keepers, kept, removed, failures) && kept <= keep
    {
      var gone, failed, counted;
      gone, failed, counted, keepers := VisitListed(b, cfg, list[i], kept, keep, cutoff, p, i, keepers, removed, failures);
      removed, failures, kept := removed + gone, failures + failed, kept + counted;
    }
    PassEnds(p, b.trace, b.objects, keepers, kept, removed, failures);
    if b.steady {
      LeadersTwice(before, p.before, b.objects, scope);
    }
  }

  // The body of the loop for one listed object: what it adds to the counters.
  method VisitListed(b: Bucket, cfg: Config, file: Listed, kept: nat, keep: int, cutoff: Time,
                     ghost p: Pass, ghost i: nat, ghost keepers: set<Key>, ghost removed: nat, ghost failures: nat)
    returns (gone: nat, failed: nat, counted: nat, ghost keepers': set<Key>)
    requires Known(p) && i < |p.list| && file == p.list[i] && p.lurks == Lurks(b.world, p.theft)
    requires p.scope.prefix == cfg.prefix && p.scope.mark == b.mark && p.scope.steady == b.steady
    requires p.scope.keep == keep && cutoff == p.scope.now - DAY && kept <= keep
    requires Standing(p, i, b.trace, b.objects, keepers, kept, removed, failures)
    modifies b
    ensures Standing(p, i + 1, b.trace, b.objects, keepers', kept + counted, removed + gone, failures + failed)
    ensures kept + counted <= keep
  {
    hide Rely, Loose, Owned, Quiet, Meanwhile, Lurks, Standing, Known, Only;
    gone, failed, counted, keepers' := 0, 0, 0, keepers;
    ghost var key := cfg.prefix + file.name;
    ghost var trace, objects := b.trace, b.objects;
    if kept >= keep && (file.modified == NO_TIME || file.modified > cutoff) {
      PassesYoung(p, i, trace, objects, keepers, kept, removed, failures);
      return;
    }
    LurksQuietly(b.world, p.theft, b.turns, Head(key));
    var isOwned := ObjectOwned(b, cfg, file.name);
    Asked(p, i, trace, objects, b.trace, b.objects, keepers, kept, removed, failures);
    if isOwned.None? {
      failed := 1;
      return;
    }
    if !isOwned.value {
      return;
    }
    if kept < keep {
      counted, keepers' := 1, keepers + {key};
      return;
    }
    trace, objects := b.trace, b.objects;
    LurksQuietly(b.world, p.theft, b.turns, Delete(key));
    var ok, mid := b.Remove(cfg.prefix + file.name);
    RemovedNext(p, i, trace, objects, mid, b.objects, b.trace, keepers, kept, removed, failures, ok);
    if ok {
      gone := 1;
    } else {
      failed := 1;
    }
  }

  lemma PassEnds(p: Pass, trace: seq<Step>, objects: Objects, keepers: set<Key>, kept: nat, removed: nat, failures: nat)
    requires Known(p) && Standing(p, |p.list|, trace, objects, keepers, kept, removed, failures)
    ensures AllowedFrom(p.was, trace, p.scope) && p.was <= trace && Changes(p.was, trace) <= removed + failures
    ensures p.scope.steady ==> removed <= Changes(p.was, trace) && LeadersStay(p.before, objects, p.scope)
    ensures p.lurks ==> failures == 0 && Retained(p.before, objects, p.scope)
    ensures p.lurks ==> forall name {:trigger Expendable(p.before, p.scope, name)} :: Expendable(p.before, p.scope, name) ==>
      StruckAt(p.was, trace, p.scope.prefix + name, p.theft, p.scope)
  {
    hide AllValid, Ordered, Listing, AllowedFrom, Changes, Lurked, Steadily, LeadersStay, Retained, Expendable, StruckAt;
    if p.lurks {
      LurkedToEnd(p.was, trace, p.list, p.before, objects, keepers, p.theft, p.scope);
    }
  }

  lemma Grew(mid: seq<Step>, trace: seq<Step>)
    requires Quiet(mid, trace)
    ensures mid <= trace
  {}

  lemma StartsListing(p: Pass, trace: seq<Step>, objects: Objects)
    requires p.scope.keep > 0 && AllValid(p.list) && Distinct(p.list) && Ordered(p.list, p.scope.stamp) && p.before == objects
    requires AllowedFrom(p.was, trace, p.scope) && p.was <= trace && Changes(p.was, trace) == 0
    requires p.scope.steady || p.lurks ==>
      Accurate(p.list, objects, p.scope.prefix, p.scope.mark) && Complete(p.list, objects, p.scope.prefix, p.scope.mark)
    ensures Known(p) && Standing(p, 0, trace, objects, {}, 0, 0, 0)
  {
    LeadersAtStart(objects, p.scope);
    hide LeadersStay, Accurate, Complete, AllValid, Ordered, ValidName, AllowedFrom, Changes;
    NothingGone(p.list, objects, p.scope);
    NoKeepers(p.list, objects, p.scope.prefix, p.scope.mark);
  }

  // The two cases of a faultless step.
  lemma NextListed(list: seq<Listed>, i: nat, before: Objects, objects: Objects, keepers: set<Key>, scope: Scope)
    requires Counted(list, i, before, keepers, scope) && Gone(list, i, before, objects, scope)
    requires i < |list| && scope.keep > 0 && AllValid(list) && Distinct(list) && Ordered(list, scope.stamp)
    requires Accurate(list, before, scope.prefix, scope.mark) && Complete(list, before, scope.prefix, scope.mark)
    ensures var key := scope.prefix + list[i].name; var owned := Owned(objects, key, scope.mark);
      && (|keepers| < scope.keep && owned ==> Counted(list, i + 1, before, keepers + {key}, scope))
      && (|keepers| == scope.keep || !owned ==> Counted(list, i + 1, before, keepers, scope))
      && (|keepers| < scope.keep || !owned || !(NO_TIME != list[i].modified <= scope.now - DAY) ==>
            Gone(list, i + 1, before, objects, scope))
      && (|keepers| == scope.keep && owned && NO_TIME != list[i].modified <= scope.now - DAY ==>
            Gone(list, i + 1, before, objects - {key}, scope))
      && (Expendable(before, scope, list[i].name) <==>
            |keepers| == scope.keep && owned && NO_TIME != list[i].modified <= scope.now - DAY)
  {
    hide ValidName, Ordered, Expendable, Accurate, Complete, Owned, Gone, AllValid;
    StillAsBefore(list, i, before, objects, scope);
    if |keepers| < scope.keep {
      KeepNext(list, i, before, keepers, scope);
    } else {
      EvictNext(list, i, before, keepers, scope);
    }
    hide Counted;
    GoneNext(list, i, before, objects, if Expendable(before, scope, list[i].name)
                                       then objects - {scope.prefix + list[i].name} else objects, scope);
    ExpendableIsOwned(before, scope, list[i].name);
  }

  lemma ExpendableIsOwned(objects: Objects, scope: Scope, name: string)
    ensures Expendable(objects, scope, name) ==> Owned(objects, scope.prefix + name, scope.mark)
  {}

  lemma StillThere(objects: Objects, mid: Objects, key: Key, mark: Mark)
    requires Owned(objects, key, mark) && Rely(objects, mid, mark)
    ensures mid - {key} != mid
  {
    assert key in mid && key !in mid - {key};
  }

  lemma NoChanges(was: seq<Step>)
    ensures Changes(was, was) == 0
  {}

  lemma AllowedAtStart(trace: seq<Step>, scope: Scope)
    ensures AllowedFrom(trace, trace, scope) && Quiet(trace, trace)
  {}

  lemma NoKeepers(list: seq<Listed>, objects: Objects, prefix: Key, mark: Mark)
    ensures Keepers({}, list, 0, objects, prefix, mark)
  {}

  lemma RelyReflexive(objects: Objects, mark: Mark)
    ensures Rely(objects, objects, mark)
  {}

  lemma RemovalIsAllowed(keepers: set<Key>, list: seq<Listed>, i: nat, objects: Objects, mid: Objects,
                         after: Objects, scope: Scope)
    requires i < |list| && Distinct(list) && Ordered(list, scope.stamp) && AllValid(list)
    requires Owned(objects, scope.prefix + list[i].name, scope.mark)
    requires after == mid || after == mid - {scope.prefix + list[i].name}
    requires scope.steady ==> Steadily(list, i, objects, keepers, scope) && Rely(objects, mid, scope.mark)
    requires scope.steady ==> 0 < scope.keep <= |keepers| && NO_TIME != list[i].modified <= scope.now - DAY
    ensures Allowed(Step(false, objects, mid), Step(true, mid, after), scope)
    ensures scope.steady ==> Steadily(list, i + 1, after, keepers, scope)
    ensures scope.steady && after != mid ==> Evicts(Step(true, mid, after), list[i].name, scope)
  {
    hide ValidName, Newer, Accurate, Keepers, Evicts, Ordered, Rely, Owned;
    if scope.steady {
      SteadilyPast(list, i, objects, mid, keepers, scope);
      if after != mid {
        OwnedUnderRely(objects, mid, scope.prefix + list[i].name, scope.mark);
        EvictionIsCovered(keepers, list, i, mid, after, scope);
        RelyReflexive(after, scope.mark);
        KeepersUnderRely(keepers, list, i, after, after, scope.prefix, scope.mark);
      }
    }
    if after != mid {
      assert ValidName(list[i].name);
      assert Follows(Step(false, objects, mid), Step(true, mid, after), scope.prefix + list[i].name, scope.mark);
    }
  }

  lemma OwnedUnderRely(objects: Objects, mid: Objects, key: Key, mark: Mark)
    requires Owned(objects, key, mark) && Rely(objects, mid, mark)
    ensures Owned(mid, key, mark)
  {}

  lemma PutIsAllowed(before: Step, mid: Objects, after: Objects, key: Key, stored: Object, scope: Scope)
    requires after == mid || (key !in mid && after == mid[key := stored])
    requires stored.mark == Some(scope.mark) && !scope.onlyEvict
    ensures Allowed(before, Step(true, mid, after), scope)
  {
    hide Removes;
    if after != mid {
      assert after[key] == stored;
      assert Adds(Step(true, mid, after), scope);
    }
  }

  // What a conditional upload leaves when nothing fails and nobody else acts.
  function Uploaded(objects: Objects, key: Key, data: Blob, now: Time, mark: Mark): Objects {
    if key in objects then objects else objects[key := Object(data, Some(mark), now)]
  }

  // The installation deleted what was under key.
  ghost predicate Deleted(was: seq<Step>, trace: seq<Step>, key: Key) {
    exists i {:trigger trace[i]} :: |was| <= i < |trace| && Drops(trace[i], key)
  }

  predicate Drops(step: Step, key: Key) { step.own && key in step.before && key !in step.after }

  lemma QuietDeletesNothing(was: seq<Step>, mid: seq<Step>, trace: seq<Step>, key: Key)
    requires was <= mid && Quiet(mid, trace)
    ensures was <= trace && (Deleted(was, trace, key) <==> Deleted(was, mid, key))
  {
    if Deleted(was, mid, key) {
      var i {:trigger mid[i]} :| |was| <= i < |mid| && Drops(mid[i], key);
      assert trace[i] == mid[i];
    }
    if Deleted(was, trace, key) {
      var i {:trigger trace[i]} :| |was| <= i < |trace| && Drops(trace[i], key);
      assert trace[i] == mid[i];
    }
  }

  lemma DeletedByStep(was: seq<Step>, mid: seq<Step>, trace: seq<Step>, before: Step, step: Step, key: Key)
    requires was <= mid && trace == mid + [before, step] && !before.own
    ensures was <= trace && (Deleted(was, trace, key) <==> Deleted(was, mid, key) || Drops(step, key))
  {
    hide Drops;
    assert !Drops(before, key) by {
      OthersDropNothing(before, key);
    }
    if Deleted(was, mid, key) {
      var i {:trigger mid[i]} :| |was| <= i < |mid| && Drops(mid[i], key);
      assert trace[i] == mid[i];
    }
    if Deleted(was, trace, key) {
      var i {:trigger trace[i]} :| |was| <= i < |trace| && Drops(trace[i], key);
      assert trace[i] == if i < |mid| then mid[i] else if i == |mid| then before else step;
    }
    assert trace[|mid| + 1] == step;
  }

  lemma OthersDropNothing(step: Step, key: Key)
    ensures !step.own ==> !Drops(step, key)
  {}

  lemma NothingDeleted(trace: seq<Step>, key: Key)
    ensures !Deleted(trace, trace, key)
  {}

  // With the key free, an upload finds it taken exactly if somebody else takes it first.
  lemma FreeKey(objects: Objects, changes: Changes, key: Key, mark: Mark, steady: bool)
    requires key !in objects
    ensures key in Meanwhile(objects, changes, mark, steady) <==> Takes(changes, key, mark)
    ensures !Owned(Meanwhile(objects, changes, mark, steady), key, mark)
  {
    var reached := Meanwhile(objects, changes, mark, steady);
    assert key in reached <==> Under(objects, changes, key, mark, steady).Some?;
    if key in reached {
      assert reached[key] == Under(objects, changes, key, mark, steady).value;
    }
  }

  method UploadS3(b: Bucket, cfg: Config, name: string, data: Blob, now: Time, ghost scope: Scope) returns (r: PutResult)
    requires scope.mark == b.mark && !scope.onlyEvict
    modifies b
    ensures AllowedFrom(old(b.trace), b.trace, scope)
    ensures b.turns == old(b.turns) + 1
    ensures var reached, turn := old(b.Then(Upload(cfg.prefix + name))), old(b.Now(Upload(cfg.prefix + name)));
      && r == Reply(cfg.prefix + name in reached, turn)
      && b.objects == (if cfg.prefix + name in reached || turn.fault.Fails? then reached
                       else reached[cfg.prefix + name := Object(data, Some(b.mark), now)])
      && b.trace == old(b.trace) + [Step(false, old(b.objects), reached), Step(true, reached, b.objects)]
    ensures Calm(b.world) ==> b.objects == Uploaded(old(b.objects), cfg.prefix + name, data, now, b.mark)
    ensures Calm(b.world) ==> r == if cfg.prefix + name in old(b.objects) then Taken else Stored
  {
    hide Allowed, AllowedFrom, Rely, Loose, Owned, Meanwhile, Lurks;
    ghost var was, objects := b.trace, b.objects;
    CalmIsQuiet(b.world, b.turns, Upload(cfg.prefix + name));
    ghost var mid;
    r, mid := b.Put(cfg.prefix + name, data, now);
    PutIsAllowed(Step(false, objects, mid), mid, b.objects, cfg.prefix + name, Object(data, Some(b.mark), now), scope);
    AllowedAtStart(was, scope);
    AllowedThenStep(was, was, b.trace, Step(false, objects, mid), Step(true, mid, b.objects), scope);
  }

  method UploadVerified(b: Bucket, cfg: Config, name: string, data: Blob, now: Time, ghost scope: Scope) returns (ok: bool)
    requires scope.mark == b.mark && !scope.onlyEvict
    modifies b
    ensures AllowedFrom(old(b.trace), b.trace, scope)
    ensures ok ==> Proven(old(b.trace), b.trace, cfg.prefix + name, b.mark, data, b.Reliable())
    ensures ok && b.Reliable() ==> Holds(b.objects, cfg.prefix + name, b.mark, data)
    ensures Calm(b.world) ==> b.objects == Uploaded(old(b.objects), cfg.prefix + name, data, now, b.mark)
    ensures Calm(b.world) ==> (ok <==> SizeFits(cfg, data) && Holds(b.objects, cfg.prefix + name, b.mark, data))
  {
    hide Allowed, AllowedFrom, Rely, Loose, Owned, Proven, Meanwhile, Lurks, Size, CutShort, AfterCut, Passes;
    ghost var was := b.trace;
    var put := UploadS3(b, cfg, name, data, now, scope);
    ghost var mid := b.trace;
    if put.Taken? {
      CalmIsQuiet(b.world, b.turns, Head(cfg.prefix + name));
      var owned := ObjectOwned(b, cfg, name);
      AllowedThenQuiet(was, mid, b.trace, scope);
      if owned != Some(true) {
        return false;
      }
    } else if !put.Stored? {
      return false;
    }
    mid := b.trace;
    var verdict := VerifyS3Object(b, cfg, name, data);
    ok := verdict.Identical?;
    AllowedThenQuiet(was, mid, b.trace, scope);
    if ok {
      Grows(was, mid, scope);
      ProvenWithin(was, mid, b.trace, b.trace, cfg.prefix + name, b.mark, data, b.Reliable());
    }
  }

  // A repair that starts with request n and finds the copy owned clears its key if the
  // ownership check is answered and the removal takes effect.
  predicate Clears(world: World, n: nat, key: Key) {
    world(n, Head(key)).fault.Works? && !world(n + 1, Delete(key)).fault.Fails?
  }

  // It leaves no copy if then the removal is reported as failed, the upload is not
  // carried out, or somebody else takes the key.
  predicate Loses(world: World, n: nat, key: Key, mark: Mark) {
    && Clears(world, n, key)
    && (world(n + 1, Delete(key)).fault.AppliesThenFails? || world(n + 2, Upload(key)).fault.Fails?
        || Takes(world(n + 2, Upload(key)).changes, key, mark))
  }

  // What becomes of the copy. One that the check finds owned is removed if the key is
  // cleared, after whatever others did before the removal. In a steady bucket an owned
  // copy is deleted exactly if the key is cleared, and no copy is left exactly if the
  // repair loses it.
  ghost predicate Fate(was: seq<Step>, trace: seq<Step>, first: Objects, seen: Objects, last: Objects, key: Key,
                       world: World, n: nat, mark: Mark, steady: bool) {
    && (Owned(seen, key, mark) && Clears(world, n, key) ==>
          Struck(was, trace, key, world(n + 1, Delete(key)).changes, mark, steady))
    && (steady && Owned(first, key, mark) ==>
          (Deleted(was, trace, key) <==> Clears(world, n, key)) && (Owned(last, key, mark) <==> !Loses(world, n, key, mark)))
  }

  method RepairS3Mirror(b: Bucket, cfg: Config, name: string, data: Blob, now: Time, ghost scope: Scope) returns (ok: bool)
    requires scope.mark == b.mark && scope.prefix == cfg.prefix && scope.steady == b.steady && !scope.onlyEvict
    requires ValidName(name) && name in scope.volume && Drilled(scope.volume[name].blob, scope.secret)
    modifies b
    ensures AllowedFrom(old(b.trace), b.trace, scope)
    ensures ok ==> Proven(old(b.trace), b.trace, cfg.prefix + name, b.mark, data, b.Reliable())
    ensures ok && b.Reliable() ==> Holds(b.objects, cfg.prefix + name, b.mark, data)
    ensures Fate(old(b.trace), b.trace, old(b.objects), old(b.Then(Head(cfg.prefix + name))), b.objects, cfg.prefix + name,
                 b.world, old(b.turns), b.mark, b.steady)
    ensures Calm(b.world) ==> (ok <==> SizeFits(cfg, data) && Owned(old(b.objects), cfg.prefix + name, b.mark))
    ensures Calm(b.world) && ok ==> b.objects == old(b.objects)[cfg.prefix + name := Object(data, Some(b.mark), now)]
  {
    hide ValidName, Rely, Loose, Owned, Proven, AllowedFrom, Drilled, Meanwhile, Quiet, Holds, Fate, Repairing, Calm, SizeFits;
    ghost var key, n := cfg.prefix + name, b.turns;
    ghost var was, first := b.trace, b.objects;
    CalmIsQuiet(b.world, n, Head(key));
    var owned := ObjectOwned(b, cfg, name);
    ghost var seen := b.objects;
    CheckInRepair(was, b.trace, first, seen, key, b.world, n, owned, scope);
    if owned != Some(true) {
      return false;
    }
    ghost var trace := b.trace;
    CalmIsQuiet(b.world, n + 1, Delete(key));
    var removed, mid := b.Remove(cfg.prefix + name);
    RemovalInRepair(was, trace, b.trace, first, seen, mid, b.objects, name, b.world, n, scope);
    if !removed {
      return false;
    }
    ok := PutBack(b, cfg, name, data, now, was, first, seen, n, scope);
    SameAsReplaced(first, key, Object(data, Some(b.mark), now));
  }

  // The upload and verification of a repair that began with request n and has cleared
  // the key.
  method PutBack(b: Bucket, cfg: Config, name: string, data: Blob, now: Time,
                 ghost was: seq<Step>, ghost first: Objects, ghost seen: Objects, ghost n: nat, ghost scope: Scope)
    returns (ok: bool)
    requires scope.mark == b.mark && scope.prefix == cfg.prefix && scope.steady == b.steady && !scope.onlyEvict
    requires b.turns == n + 2 && cfg.prefix + name !in b.objects && b.world(n + 1, Delete(cfg.prefix + name)).fault.Works?
    requires Repairing(was, b.trace, first, seen, cfg.prefix + name, b.world, n, scope)
    modifies b
    ensures AllowedFrom(was, b.trace, scope)
    ensures ok ==> Proven(was, b.trace, cfg.prefix + name, b.mark, data, b.Reliable())
    ensures ok && b.Reliable() ==> Holds(b.objects, cfg.prefix + name, b.mark, data)
    ensures Fate(was, b.trace, first, seen, b.objects, cfg.prefix + name, b.world, n, b.mark, b.steady)
    ensures Calm(b.world) ==> (ok <==> SizeFits(cfg, data))
    ensures Calm(b.world) ==> b.objects == old(b.objects)[cfg.prefix + name := Object(data, Some(b.mark), now)]
  {
    hide Rely, Loose, Owned, Proven, AllowedFrom, Meanwhile, Quiet, Holds, Fate, Repairing, Calm, SizeFits, Passes, CutShort, AfterCut,
      Reply;
    ghost var key := cfg.prefix + name;
    ghost var trace, objects := b.trace, b.objects;
    UploadedIsHeld(objects, key, data, now, b.mark);
    ghost var reached := b.Then(Upload(key));
    var put := UploadS3(b, cfg, name, data, now, scope);
    UploadInRepair(was, trace, b.trace, first, seen, objects, reached, b.objects, key, b.world, n, data, now, scope);
    if !put.Stored? {
      return false;
    }
    trace, objects := b.trace, b.objects;
    var verdict := VerifyS3Object(b, cfg, name, data);
    ok := verdict.Identical?;
    VerifiedInRepair(was, trace, b.trace, first, seen, objects, b.objects, key, b.world, n, data, ok, b.Reliable(), scope);
  }

  lemma SameAsReplaced(objects: Objects, key: Key, stored: Object)
    ensures (objects - {key})[key := stored] == objects[key := stored]
  {}

  // The key is cleared, and no copy is there.
  ghost predicate Repairing(was: seq<Step>, trace: seq<Step>, first: Objects, seen: Objects, key: Key, world: World, n: nat, scope: Scope) {
    && was <= trace && AllowedFrom(was, trace, scope) && Clears(world, n, key)
    && Struck(was, trace, key, world(n + 1, Delete(key)).changes, scope.mark, scope.steady)
    && (scope.steady && Owned(first, key, scope.mark) ==> Deleted(was, trace, key))
  }

  lemma CheckInRepair(was: seq<Step>, trace: seq<Step>, first: Objects, seen: Objects, key: Key, world: World, n: nat,
                      owned: Option<bool>, scope: Scope)
    requires Quiet(was, trace) && (scope.steady ==> Rely(first, seen, scope.mark))
    requires owned.Some? <==> world(n, Head(key)).fault.Works?
    requires owned.Some? ==> (owned.value <==> Owned(seen, key, scope.mark))
    ensures was <= trace && AllowedFrom(was, trace, scope) && !Deleted(was, trace, key)
    ensures scope.steady ==> (Owned(first, key, scope.mark) <==> Owned(seen, key, scope.mark))
    ensures owned != Some(true) ==> Fate(was, trace, first, seen, seen, key, world, n, scope.mark, scope.steady)
  {
    hide Rely, Owned, Quiet, AllowedFrom, Deleted, Struck, Takes;
    AllowedAtStart(was, scope);
    NothingDeleted(was, key);
    AllowedThenQuiet(was, was, trace, scope);
    QuietDeletesNothing(was, was, trace, key);
    if scope.steady {
      OwnedThroughout(first, seen, key, scope.mark);
    }
  }

  lemma OwnedThroughout(a: Objects, b: Objects, key: Key, mark: Mark)
    requires Rely(a, b, mark)
    ensures Owned(a, key, mark) <==> Owned(b, key, mark)
  {}

  lemma RemovalInRepair(was: seq<Step>, trace: seq<Step>, end: seq<Step>, first: Objects, seen: Objects, reached: Objects,
                        after: Objects, name: string, world: World, n: nat, scope: Scope)
    requires was <= trace && AllowedFrom(was, trace, scope) && !Deleted(was, trace, scope.prefix + name)
    requires end == trace + [Step(false, seen, reached), Step(true, reached, after)]
    requires ValidName(name) && Owned(seen, scope.prefix + name, scope.mark)
    requires scope.steady ==> Owned(first, scope.prefix + name, scope.mark)
    requires name in scope.volume && Drilled(scope.volume[name].blob, scope.secret) && !scope.onlyEvict
    requires world(n, Head(scope.prefix + name)).fault.Works?
    requires var turn := world(n + 1, Delete(scope.prefix + name));
      && reached == Meanwhile(seen, turn.changes, scope.mark, scope.steady)
      && after == if turn.fault.Fails? then reached else reached - {scope.prefix + name}
    ensures AllowedFrom(was, end, scope)
    ensures var key, fault := scope.prefix + name, world(n + 1, Delete(scope.prefix + name)).fault;
      && (fault.Works? ==> key !in after && Repairing(was, end, first, seen, key, world, n, scope))
      && (!fault.Works? ==> Fate(was, end, first, seen, after, key, world, n, scope.mark, scope.steady))
  {
    hide ValidName, Drilled, Allowed, AllowedFrom, Deleted, Rely, Loose, Meanwhile, Struck, Takes;
    var key, turn := scope.prefix + name, world(n + 1, Delete(scope.prefix + name));
    MeanwhileIsLoose(seen, turn.changes, scope.mark, scope.steady);
    DeletedByStep(was, trace, end, Step(false, seen, reached), Step(true, reached, after), key);
    ReplacementIsAllowed(name, seen, reached, after, scope);
    AllowedThenStep(was, trace, end, Step(false, seen, reached), Step(true, reached, after), scope);
    if scope.steady {
      OwnedUnderRely(seen, reached, key, scope.mark);
    }
    if !turn.fault.Fails? {
      StruckNow(was, trace, end, key, turn.changes, scope.mark, scope.steady, seen, after);
    }
  }

  lemma UploadInRepair(was: seq<Step>, trace: seq<Step>, end: seq<Step>, first: Objects, seen: Objects, objects: Objects,
                       reached: Objects, after: Objects, key: Key, world: World, n: nat, data: Blob, now: Time, scope: Scope)
    requires Repairing(was, trace, first, seen, key, world, n, scope) && AllowedFrom(trace, end, scope) && key !in objects
    requires world(n + 1, Delete(key)).fault.Works?
    requires var turn := world(n + 2, Upload(key));
      && reached == Meanwhile(objects, turn.changes, scope.mark, scope.steady)
      && after == if key in reached || turn.fault.Fails? then reached else reached[key := Object(data, Some(scope.mark), now)]
    requires end == trace + [Step(false, objects, reached), Step(true, reached, after)]
    ensures was <= end && AllowedFrom(was, end, scope)
    ensures Fate(was, end, first, seen, after, key, world, n, scope.mark, scope.steady)
  {
    hide Allowed, AllowedFrom, Deleted, Struck, Takes, Meanwhile, Drops;
    FreeKey(objects, world(n + 2, Upload(key)).changes, key, scope.mark, scope.steady);
    AllowedTwice(was, trace, end, scope);
    StillStruck(was, trace, end, key, world(n + 1, Delete(key)).changes, scope.mark, scope.steady);
    DeletedByStep(was, trace, end, Step(false, objects, reached), Step(true, reached, after), key);
    AnUploadDropsNothing(reached, after, key, Object(data, Some(scope.mark), now), scope.mark);
  }

  lemma VerifiedInRepair(was: seq<Step>, trace: seq<Step>, end: seq<Step>, first: Objects, seen: Objects, objects: Objects,
                         after: Objects, key: Key, world: World, n: nat, data: Blob, proven: bool, stays: bool,
                         scope: Scope)
    requires was <= trace && AllowedFrom(was, trace, scope) && Quiet(trace, end)
    requires Fate(was, trace, first, seen, objects, key, world, n, scope.mark, scope.steady)
    requires scope.steady ==> Rely(objects, after, scope.mark)
    requires proven ==> Proven(trace, end, key, scope.mark, data, stays)
    ensures AllowedFrom(was, end, scope) && Fate(was, end, first, seen, after, key, world, n, scope.mark, scope.steady)
    ensures proven ==> Proven(was, end, key, scope.mark, data, stays)
  {
    hide AllowedFrom, Deleted, Struck, Rely, Owned, Proven, Quiet, Clears, Loses;
    AllowedThenQuiet(was, trace, end, scope);
    QuietDeletesNothing(was, trace, end, key);
    Grew(trace, end);
    StillStruck(was, trace, end, key, world(n + 1, Delete(key)).changes, scope.mark, scope.steady);
    if scope.steady {
      OwnedThroughout(objects, after, key, scope.mark);
    }
    if proven {
      ProvenWithin(was, trace, end, end, key, scope.mark, data, stays);
    }
  }

  lemma AnUploadDropsNothing(reached: Objects, after: Objects, key: Key, stored: Object, mark: Mark)
    requires after == reached || after == reached[key := stored]
    ensures !Drops(Step(true, reached, after), key)
    ensures stored.mark == Some(mark) && after == reached[key := stored] ==> Owned(after, key, mark)
  {}

  lemma StillStruck(was: seq<Step>, mid: seq<Step>, trace: seq<Step>, key: Key, changes: Changes, mark: Mark, steady: bool)
    requires was <= mid <= trace
    ensures Struck(was, mid, key, changes, mark, steady) ==> Struck(was, trace, key, changes, mark, steady)
  {
    hide Struck;
    if Struck(was, mid, key, changes, mark, steady) {
      StruckLater(was, mid, trace, key, changes, mark, steady);
    }
  }

  lemma UploadedIsHeld(objects: Objects, key: Key, data: Blob, now: Time, mark: Mark)
    ensures key !in objects ==> Holds(Uploaded(objects, key, data, now, mark), key, mark, data)
    ensures key !in objects ==> Uploaded(objects, key, data, now, mark) == Renewed(objects, key, data, now, mark)
  {}

  lemma Grows(was: seq<Step>, trace: seq<Step>, scope: Scope)
    requires AllowedFrom(was, trace, scope)
    ensures was <= trace
  {}

  lemma AllowedTwice(was: seq<Step>, mid: seq<Step>, trace: seq<Step>, scope: Scope)
    requires AllowedFrom(was, mid, scope) && AllowedFrom(mid, trace, scope)
    ensures AllowedFrom(was, trace, scope)
  {
    hide Allowed;
    forall i | |was| <= i < |trace| ensures AllowedAt(trace, i, scope) {
      if i < |mid| {
        SameBefore(mid, trace, i, scope);
      }
    }
  }

  lemma ReplacementIsAllowed(name: string, objects: Objects, mid: Objects, after: Objects, scope: Scope)
    requires ValidName(name) && Owned(objects, scope.prefix + name, scope.mark)
    requires name in scope.volume && Drilled(scope.volume[name].blob, scope.secret) && !scope.onlyEvict
    requires scope.steady ==> Rely(objects, mid, scope.mark)
    requires after == mid || after == mid - {scope.prefix + name}
    ensures Allowed(Step(false, objects, mid), Step(true, mid, after), scope)
  {
    hide ValidName, Drilled, Adds, Evicts;
    if after != mid {
      if scope.steady {
        OwnedUnderRely(objects, mid, scope.prefix + name, scope.mark);
        assert Replaces(Step(true, mid, after), name, scope);
      }
      assert Removes(Step(false, objects, mid), Step(true, mid, after), scope);
    }
  }

  // A verification has got its two answers about this data, which passes the drill, under
  // this name. Where own objects stay, the bucket held an owned copy at that moment.
  ghost predicate Backed(was: seq<Step>, trace: seq<Step>, name: string, data: Blob, scope: Scope, stays: bool) {
    ValidName(name) && Drilled(data, scope.secret) && Proven(was, trace, scope.prefix + name, scope.mark, data, stays)
  }

  // A file name has no slash in it.
  ghost predicate IsVolume(files: map<string, File>) {
    forall name :: name in files ==> '/' !in name
  }

  // A local dump fit to be mirrored.
  predicate Sound(cfg: Config, files: map<string, File>, name: string) {
    name in files && Drilled(files[name].blob, cfg.secret) && SizeFits(cfg, files[name].blob)
  }

  // OpenContext
  method OpenDump(dir: Dir, name: string, maxBytes: nat, fault: Fault) returns (data: Option<Blob>)
    ensures data.Some? <==> name in dir.files && fault.Works? && Size(dir.files[name].blob) <= maxBytes
    ensures data.Some? ==> data.value == dir.files[name].blob
  {
    data := dir.Read(name, fault);
    data := Within(data, maxBytes);
  }

  // A sound local dump, and a copy of it in a bucket in which it stays.
  ghost predicate Good(steady: bool, local: Fault, cfg: Config, objects: Objects, mark: Mark, files: map<string, File>, name: string) {
    steady && local.Works? && Sound(cfg, files, name) && Holds(objects, cfg.prefix + name, mark, files[name].blob)
  }

  predicate WouldPass(local: Fault, cfg: Config, files: map<string, File>, name: string, objects: Objects, world: World, n: nat,
                      mark: Mark, steady: bool)
  {
    local.Works? && Sound(cfg, files, name) && Passes(cfg, objects, cfg.prefix + name, files[name].blob, world, n, mark, steady)
  }

  // A request of the verification starting with request n goes unanswered, and the
  // repair after it clears the key, or loses the copy.
  predicate ClearsGood(world: World, n: nat, key: Key) { CutShort(world, n, key) && Clears(world, AfterCut(world, n, key), key) }

  predicate LosesGood(world: World, n: nat, key: Key, mark: Mark) {
    CutShort(world, n, key) && Loses(world, AfterCut(world, n, key), key, mark)
  }

  // What is left where a copy of data is verified and, if need be, replaced.
  function Renewed(objects: Objects, key: Key, data: Blob, now: Time, mark: Mark): Objects {
    if Owned(objects, key, mark) && objects[key].blob == data then objects else objects[key := Object(data, Some(mark), now)]
  }

  // The promise that only a bad copy is replaced is not kept: in a steady bucket a copy
  // that holds exactly the local bytes is removed if and only if a request of its
  // verification goes unanswered and then the repair clears the key, and it is lost if
  // and only if the repair loses it.
  method VerifyMirroredCopy(b: Bucket, dir: Dir, cfg: Config, name: string, local: Fault, now: Time, ghost scope: Scope)
    returns (ok: bool)
    requires scope.mark == b.mark && scope.prefix == cfg.prefix && scope.steady == b.steady
    requires scope.secret == cfg.secret && scope.volume == dir.files && ValidName(name) && !scope.onlyEvict
    modifies b
    ensures AllowedFrom(old(b.trace), b.trace, scope)
    ensures ok ==> name in dir.files && Backed(old(b.trace), b.trace, name, dir.files[name].blob, scope, b.Reliable())
    ensures ok && b.Reliable() ==> Owned(b.objects, cfg.prefix + name, b.mark)
    ensures Good(b.steady, local, cfg, old(b.objects), b.mark, dir.files, name) ==>
      (Deleted(old(b.trace), b.trace, cfg.prefix + name) <==> ClearsGood(b.world, old(b.turns), cfg.prefix + name))
    ensures Good(b.steady, local, cfg, old(b.objects), b.mark, dir.files, name) ==>
      (!Owned(b.objects, cfg.prefix + name, b.mark) <==> LosesGood(b.world, old(b.turns), cfg.prefix + name, b.mark))
    ensures Calm(b.world) && local.Works? && Sound(cfg, dir.files, name) && Owned(old(b.objects), cfg.prefix + name, b.mark) ==>
      ok && b.objects == Renewed(old(b.objects), cfg.prefix + name, dir.files[name].blob, now, b.mark)
    // A verification that passes is all there is.
    ensures WouldPass(local, cfg, dir.files, name, old(b.objects), b.world, old(b.turns), b.mark, b.steady) ==>
        var seen := old(b.Then(Head(cfg.prefix + name)));
        ok && b.trace == old(b.trace) + [Step(false, old(b.objects), seen)] + [Step(false, seen, b.objects)]
        && b.objects == Meanwhile(seen, b.world(old(b.turns) + 1, Fetch(cfg.prefix + name)).changes, b.mark, b.steady)
  {
    hide ValidName, Allowed, Rely, Loose, Owned, Proven, AllowedFrom, Drilled, Lurks, Size, CutShort, AfterCut, Clears, Loses,
      Struck, Deleted, Meanwhile, Passes;
    ghost var key := cfg.prefix + name;
    ghost var was, first := b.trace, b.objects;
    AllowedAtStart(was, scope);
    NothingDeleted(was, key);
    var data := OpenDump(dir, name, cfg.maxBytes, local);
    if data.None? || !Drilled(data.value, cfg.secret) {
      return false;
    }
    var verdict := VerifyS3Object(b, cfg, name, data.value);
    AllowedThenQuiet(was, was, b.trace, scope);
    QuietDeletesNothing(was, was, b.trace, key);
    if b.steady {
      OwnedThroughout(first, b.objects, key, b.mark);
    }
    ghost var mid := b.trace;
    if verdict.Identical? {
      return true;
    }
    ok := RepairS3Mirror(b, cfg, name, data.value, now, scope);
    Grows(mid, b.trace, scope);
    AllowedTwice(was, mid, b.trace, scope);
    DeletedInTwo(was, mid, b.trace, key);
    OwnedKeys(first, key, Object(data.value, Some(b.mark), now), b.mark);
    if ok {
      ProvenWithin(was, mid, b.trace, b.trace, key, b.mark, data.value, b.Reliable());
    }
  }

  lemma DeletedInTwo(was: seq<Step>, mid: seq<Step>, trace: seq<Step>, key: Key)
    requires was <= mid <= trace && !Deleted(was, mid, key)
    ensures Deleted(was, trace, key) <==> Deleted(mid, trace, key)
  {
    hide Drops;
    forall i | |was| <= i < |mid| ensures !Drops(trace[i], key) {
      assert trace[i] == mid[i];
    }
  }

  lemma OwnedKeys(objects: Objects, key: Key, stored: Object, mark: Mark)
    ensures Owned(objects, key, mark) ==> objects[key := stored].Keys == objects.Keys
    ensures Holds(objects, key, mark, stored.blob) ==> Owned(objects, key, mark)
  {}

  // ----- runs that break a promise -------------------------------------------

  // Only the n-th and the m-th request fail.
  function Failing(n: nat, m: nat): World { (k: nat, request) => if k == n || k == m then QUIET.(fault := Fails) else QUIET }

  // A good copy is deleted and not replaced, with nobody else at work: the verification
  // cannot reach the object, the repair can and removes it, and its upload fails.
  method GoodCopyIsLost(cfg: Config, name: string, data: Blob, mark: Mark, now: Time) returns (b: Bucket, ok: bool)
    requires ValidName(name) && Drilled(data, cfg.secret) && SizeFits(cfg, data)
    ensures fresh(b) && b.steady && b.world == Failing(0, 3) && !ok
    ensures Deleted([], b.trace, cfg.prefix + name) && !Owned(b.objects, cfg.prefix + name, mark)
  {
    hide ValidName, Drilled, SizeFits, AllowedFrom, Backed, Deleted, Lurks;
    var key := cfg.prefix + name;
    var dir := new Dir(map[name := File(data, now)]);
    b := new Bucket(mark, true, Failing(0, 3), map[key := Object(data, Some(mark), now)]);
    assert CutShort(b.world, 0, key) && AfterCut(b.world, 0, key) == 1 && Loses(b.world, 1, key, mark);
    ok := VerifyMirroredCopy(b, dir, cfg, name, Works, now,
                             Scope(cfg.prefix, mark, true, 0, now, cfg.stamp, dir.files, cfg.secret, false));
  }

  // Before each download somebody deletes the object and somebody else uses its key.
  function Swapping(foreign: Object): World {
    (k: nat, request: Request) => if request.Fetch? then QUIET.(changes := map[request.key := Some(foreign)]) else QUIET
  }

  // A bad copy passes: it is owned and of the right size when it is asked about, and the
  // bytes that are then read are those of a foreign object. At no moment does the bucket
  // hold a good owned copy.
  method ForeignBytesPass(cfg: Config, name: string, data: Blob, bad: Blob, foreign: Object, mark: Mark, now: Time)
    returns (b: Bucket, ok: bool)
    requires ValidName(name) && Drilled(data, cfg.secret) && SizeFits(cfg, data) && Size(bad) == Size(data) && bad != data
    requires foreign.blob == data && foreign.mark != Some(mark)
    ensures fresh(b) && !b.steady && b.world == Swapping(foreign) && ok
    ensures forall i :: 0 <= i < |b.trace| ==>
      !Holds(b.trace[i].before, cfg.prefix + name, mark, data) && !Holds(b.trace[i].after, cfg.prefix + name, mark, data)
  {
    hide ValidName, Drilled, SizeFits, AllowedFrom, Backed, Deleted, Meanwhile, Size, Calm;
    var key := cfg.prefix + name;
    var dir := new Dir(map[name := File(data, now)]);
    var objects: Objects := map[key := Object(bad, Some(mark), now)];
    b := new Bucket(mark, false, Swapping(foreign), objects);
    MeanwhileIsLoose(objects, map[], mark, false);
    ghost var last := Meanwhile(objects, map[key := Some(foreign)], mark, false);
    assert Under(objects, map[key := Some(foreign)], key, mark, false) == Some(foreign);
    assert key in last && last[key] == foreign;
    assert Passes(cfg, objects, key, data, b.world, 0, mark, false);
    ok := VerifyMirroredCopy(b, dir, cfg, name, Works, now,
                             Scope(cfg.prefix, mark, false, 0, now, cfg.stamp, dir.files, cfg.secret, false));
  }

  // Before each removal somebody deletes the owned object and somebody else uses its key.
  function Stealing(theft: Changes): World {
    (k: nat, request: Request) => if request.Delete? then QUIET.(changes := Only(theft, request.key)) else QUIET
  }

  // Repair then deletes the foreign object and puts its own copy in its place.
  method RepairDeletesForeign(cfg: Config, name: string, data: Blob, bad: Blob, foreign: Object, mark: Mark, now: Time)
    returns (b: Bucket, ok: bool)
    requires ValidName(name) && Drilled(data, cfg.secret) && foreign.mark != Some(mark)
    ensures fresh(b) && DeletesForeign([], b.trace, cfg.prefix + name, foreign)
  {
    hide ValidName, Drilled, AllowedFrom, Struck, Meanwhile, DeletesForeign;
    var key := cfg.prefix + name;
    var theft: Changes := map[key := Some(foreign)];
    b := new Bucket(mark, false, Stealing(theft), map[key := Object(bad, Some(mark), now)]);
    MeanwhileIsLoose(b.objects, b.world(0, Head(key)).changes, mark, false);
    assert b.world(1, Delete(key)).changes == theft;
    ghost var volume := map[name := File(data, now)];
    ok := RepairS3Mirror(b, cfg, name, data, now, Scope(cfg.prefix, mark, false, 0, now, cfg.stamp, volume, cfg.secret, false));
    StruckDeletesForeign([], b.trace, key, theft, mark);
  }

  // And so does retention, given a bucket with an expendable dump.
  method PruneDeletesForeign(cfg: Config, objects: Objects, name: string, foreign: Object, keep: int, mark: Mark, now: Time,
                             ghost scope: Scope)
    returns (b: Bucket)
    requires scope == Scope(cfg.prefix, mark, false, keep, now, cfg.stamp, map[], cfg.secret, true)
    requires Expendable(objects, scope, name) && |objects| <= MAX_LISTING && foreign.mark != Some(mark)
    ensures fresh(b) && DeletesForeign([], b.trace, cfg.prefix + name, foreign)
  {
    hide AllowedFrom, Struck, Meanwhile, DeletesForeign, Retained, OwnedAhead, ValidName;
    var key := cfg.prefix + name;
    var theft: Changes := map[key := Some(foreign)];
    b := new Bucket(mark, false, Stealing(theft), objects);
    var _, _ := PruneS3(b, cfg, keep, now, scope, theft);
    assert ValidName(name) && StruckAt([], b.trace, key, theft, scope);
    StruckDeletesForeign([], b.trace, key, Only(theft, key), mark);
  }

  // Two owned dumps, the older one more than a day old: it is expendable when one is kept.
  lemma OlderOfTwoIsExpendable(newer: string, older: string, a: Object, z: Object, scope: Scope)
    requires ValidName(newer) && ValidName(older) && newer != older && scope.keep == 1
    requires a.mark == Some(scope.mark) && z.mark == Some(scope.mark) && NO_TIME != z.modified <= scope.now - DAY
    requires Newer(Listed(newer, a.modified), Listed(older, z.modified), scope.stamp)
    ensures Expendable(map[scope.prefix + newer := a, scope.prefix + older := z], scope, older)
  {
    hide ValidName, Newer;
    var objects: Objects := map[scope.prefix + newer := a, scope.prefix + older := z];
    assert (scope.prefix + newer)[|scope.prefix|..] == newer && (scope.prefix + older)[|scope.prefix|..] == older;
    assert scope.prefix + newer in OwnedAhead(objects, scope, Listed(older, z.modified));
    Fewer({scope.prefix + newer}, OwnedAhead(objects, scope, Listed(older, z.modified)));
  }

  datatype Result = Result(ok: bool, at: Time)

  // One run: whether it starts, the dump pg_dump would produce for it, and which of
  // the local steps go wrong.
  datatype Run = Run(busy: bool, enabled: bool, keep: int, now: Time, unseen: set<string>, localListFails: bool,
                     localRead: Fault, dump: Option<Plain>, nextName: string, nonce: nat, sealFails: bool, status: Fault)

  method RecordResult(status: StatusFile<Result>, ok: bool, run: Run) returns (r: bool)
    modifies status
    ensures status.value == if run.status.Fails? then old(status.value) else Result(ok, run.now)
    ensures r <==> ok && run.status.Works?
  {
    r := status.Update(Result(ok, run.now), run.status);
    r := r && ok;
  }

  // The dump a run would make for itself.
  ghost predicate FreshDump(cfg: Config, run: Run, name: string, data: Blob) {
    name == run.nextName && run.dump.Some? && Restorable(run.dump.value) && data == Encrypt(run.dump.value, cfg.secret, run.nonce)
  }

  // What the run is about: the newest listed dump, or one of its own making if there is
  // none, or if an answer, got before the run did anything, showed no owned object under
  // the name of the newest.
  ghost predicate Chosen(was: seq<Step>, trace: seq<Step>, cfg: Config, run: Run, scope: Scope, name: string, data: Blob) {
    || LocalNewest(cfg, run, scope, name, data)
    || (FreshDump(cfg, run, name, data)
        && forall newest {:trigger Retention.IsNewest(scope.volume, run.unseen, cfg.stamp, newest)} ::
             Retention.IsNewest(scope.volume, run.unseen, cfg.stamp, newest) ==>
               Disowned(was, trace, scope.prefix + newest, scope.mark))
  }

  ghost predicate LocalNewest(cfg: Config, run: Run, scope: Scope, name: string, data: Blob) {
    Retention.IsNewest(scope.volume, run.unseen, cfg.stamp, name) && data == scope.volume[name].blob
  }

  ghost predicate Disowned(was: seq<Step>, trace: seq<Step>, key: Key, mark: Mark) {
    exists i {:trigger trace[i]} :: |was| <= i < |trace| && !Owned(trace[i].after, key, mark)
      && forall k {:trigger trace[k]} :: |was| <= k <= i ==> !trace[k].own
  }

  // That dump, and no other, was proven to be in the bucket.
  ghost predicate Mirrors(was: seq<Step>, trace: seq<Step>, cfg: Config, run: Run, scope: Scope, stays: bool) {
    exists name, data :: Chosen(was, trace, cfg, run, scope, name, data) && Backed(was, trace, name, data, scope, stays)
  }

  // Nothing stands in the way of a run: every local dump is sound, and a fresh one would
  // be sound and have a free key.
  ghost predicate Ready(b: Bucket, dir: Dir, cfg: Config, run: Run, objects: Objects)
    reads dir
  {
    && run.enabled && !run.busy && !run.localListFails && run.localRead.Works? && run.status.Works?
    && (forall name {:trigger name in dir.files} :: name in Dumps(dir.files) - run.unseen ==> Sound(cfg, dir.files, name))
    && run.dump.Some? && Restorable(run.dump.value) && !run.sealFails
    && SizeFits(cfg, Encrypt(run.dump.value, cfg.secret, run.nonce)) && cfg.prefix + run.nextName !in objects
  }

  // The listing shows the name, and the object under its key is not this installation's:
  // somebody else's, or only in the legacy namespace.
  predicate HeldByOthers(objects: Objects, cfg: Config, mark: Mark, name: string) {
    Visible(objects, cfg, name) && !Owned(objects, cfg.prefix + name, mark)
  }

  // With nobody else at work: a dump of its own making exactly if nothing is listed or
  // the name of the newest is held by others.
  ghost predicate Picked(objects: Objects, cfg: Config, run: Run, scope: Scope, name: string, data: Blob) {
    if forall newest {:trigger Retention.IsNewest(scope.volume, run.unseen, cfg.stamp, newest)} ::
         Retention.IsNewest(scope.volume, run.unseen, cfg.stamp, newest) ==> HeldByOthers(objects, cfg, scope.mark, newest)
    then FreshDump(cfg, run, name, data)
    else LocalNewest(cfg, run, scope, name, data)
  }

  // After such a run the bucket holds the bytes of that dump under its key, unless the
  // good copy was already there and keep newer ones with it.
  ghost predicate Mirrored(before: Objects, after: Objects, cfg: Config, run: Run, scope: Scope) {
    exists name, data :: Picked(before, cfg, run, scope, name, data) && HoldsUnlessSurplus(before, after, scope, name, data)
  }

  ghost predicate HoldsUnlessSurplus(before: Objects, after: Objects, scope: Scope, name: string, data: Blob) {
    Holds(after, scope.prefix + name, scope.mark, data) <==>
      !(Holds(before, scope.prefix + name, scope.mark, data) && Expendable(before, scope, name))
  }

  // Where the newest dump is found in the bucket: nowhere in its listing, under a key of
  // this installation, or under one that is not.
  datatype Place = NotListed | Absent | NoReply | Ours | Others

  // The listing, the search for the name in it, and the question who owns the object.
  method Locate(b: Bucket, cfg: Config, name: string) returns (r: Place)
    requires ValidName(name)
    modifies b
    ensures Quiet(old(b.trace), b.trace)
    ensures r.Others? ==> Disowned(old(b.trace), b.trace, cfg.prefix + name, b.mark)
    ensures Calm(b.world) ==> b.objects == old(b.objects) && !r.NoReply? && (|b.objects| <= MAX_LISTING ==> !r.NotListed?)
    ensures Calm(b.world) && !r.NotListed? ==>
      && (r.Absent? <==> !Visible(b.objects, cfg, name)) && (r.Absent? ==> cfg.prefix + name !in b.objects)
      && (r.Ours? <==> Owned(b.objects, cfg.prefix + name, b.mark))
      && (r.Others? <==> HeldByOthers(b.objects, cfg, b.mark, name))
  {
    hide ValidName, Owned, Rely, Loose, Meanwhile, Accurate, Ordered, Complete, Visible, Shows, Named, Distinct, Lurks, Disowned;
    ghost var was, key := b.trace, cfg.prefix + name;
    var remote := S3List(b, cfg, map[]);
    if remote.None? {
      return NotListed;
    }
    var k := 0;
    while k < |remote.value| && remote.value[k].name != name
      invariant k <= |remote.value| && forall j :: 0 <= j < k ==> remote.value[j].name != name
    {
      k := k + 1;
    }
    FoundOrNot(remote.value, k, name, b.objects, cfg, b.mark);
    if k == |remote.value| {
      return Absent;
    }
    ghost var mid := b.trace;
    CalmIsQuiet(b.world, b.turns, Head(key));
    var owned := ObjectOwned(b, cfg, name);
    QuietTwice(was, mid, b.trace);
    if owned.None? {
      return NoReply;
    }
    if !owned.value {
      DisownedNow(was, b.trace, key, b.mark);
    }
    r := if owned.value then Ours else Others;
  }

  lemma SoundIsFit(cfg: Config, files: map<string, File>, name: string)
    ensures Sound(cfg, files, name) ==>
      Size(files[name].blob) <= cfg.maxBytes && Drilled(files[name].blob, cfg.secret) && SizeFits(cfg, files[name].blob)
  {
    hide Drilled, Size;
  }

  // Everything the run does to the bucket is allowed, and a success, returned or
  // recorded, means that the chosen dump was in the bucket.
  method RunS3Mirror(b: Bucket, dir: Dir, status: StatusFile<Result>, cfg: Config, run: Run, ghost scope: Scope)
    returns (ok: bool)
    requires scope == Scope(cfg.prefix, b.mark, b.steady, run.keep, run.now, cfg.stamp, dir.files, cfg.secret, false)
    requires IsVolume(dir.files) && ValidName(run.nextName)
    modifies b, status
    ensures AllowedFrom(old(b.trace), b.trace, scope)
    ensures ok && run.enabled ==>
      status.value == Result(true, run.now) && Mirrors(old(b.trace), b.trace, cfg, run, scope, b.Reliable())
    ensures status.value == old(status.value) || status.value == Result(false, run.now)
      || (status.value == Result(true, run.now) && Mirrors(old(b.trace), b.trace, cfg, run, scope, b.Reliable()))
    ensures Calm(b.world) && |old(b.objects)| < MAX_LISTING && Ready(b, dir, cfg, run, old(b.objects)) ==>
      ok && Mirrored(old(b.objects), b.objects, cfg, run, scope) && (run.keep > 0 ==> NothingExpendable(b.objects, scope))
  {
    hide ValidName, Allowed, Rely, Loose, Meanwhile, Owned, Proven, AllowedFrom, Drilled, Newer, Retention.Lists, Accurate,
      Ordered, Complete, Uploaded, Holds, NothingExpendable, IsDump, Restorable, Lurks, Deleted, CutShort, Clears, Loses, Size,
      Retention.IsNewest, Visible, Shows, Named, Mirrors, Mirrored, Picked, Disowned, Renewed, Retained, SizeFits, Passes, Distinct;
    ghost var was, before := b.trace, b.objects;
    AllowedAtStart(was, scope);
    if run.busy {
      return false;
    }
    if !run.enabled {
      return true;
    }
    if run.localListFails {
      return false;
    }
    var files := Retention.List(dir, run.unseen, cfg.stamp);
    Retention.NewestIsFirst(files, dir.files, run.unseen, cfg.stamp);
    var name: Option<string>, data: Blob := None, Junk("");
    if |files| > 0 {
      var newest := files[0].name;
      NewestIsValid(files, dir.files, run.unseen, cfg.stamp);
      var place := Locate(b, cfg, newest);
      AllowedThenQuiet(was, was, b.trace, scope);
      if place.NotListed? {
        ok := RecordResult(status, false, run);
        return;
      }
      if place.NoReply? {
        return false;
      }
      if place.Ours? {
        ghost var mid := b.trace;
        ok := VerifyMirroredCopy(b, dir, cfg, newest, run.localRead, run.now, scope);
        Grows(mid, b.trace, scope);
        AllowedTwice(was, mid, b.trace, scope);
        if Calm(b.world) {
          PickedNewest(before, cfg, run, scope, newest);
        }
        ok := Conclude(b, status, cfg, run, ok, newest, dir.files[newest].blob, before, was, mid, scope);
        return;
      }
      // A name that others hold is left to them: make another dump.
      if place.Absent? {
        SoundIsFit(cfg, dir.files, newest);
        var local := OpenDump(dir, newest, cfg.maxBytes, run.localRead);
        if local.None? {
          return false;
        }
        if !Drilled(local.value, cfg.secret) {
          ok := RecordResult(status, false, run);
          return;
        }
        name, data := Some(newest), local.value;
        if Calm(b.world) {
          PickedNewest(before, cfg, run, scope, newest);
        }
      }
    }
    if name.None? {
      var dump := CreateVerifiedDump(run.dump, cfg.secret, run.nonce, run.sealFails);
      if dump.None? {
        return false;
      }
      name, data := Some(run.nextName), dump.value;
      if Calm(b.world) {
        PickedFresh(before, cfg, run, scope, data);
      }
    }
    ghost var mid := b.trace;
    UploadedIsHeld(b.objects, cfg.prefix + name.value, data, run.now, b.mark);
    ok := UploadVerified(b, cfg, name.value, data, run.now, scope);
    Grows(was, mid, scope);
    Grows(mid, b.trace, scope);
    AllowedTwice(was, mid, b.trace, scope);
    ok := Conclude(b, status, cfg, run, ok, name.value, data, before, was, mid, scope);
  }

  // Prune after a success, and record.
  method Conclude(b: Bucket, status: StatusFile<Result>, cfg: Config, run: Run, good: bool, ghost name: string, ghost data: Blob,
                  ghost before: Objects, ghost was: seq<Step>, ghost start: seq<Step>, ghost scope: Scope) returns (ok: bool)
    requires scope.prefix == cfg.prefix && scope.mark == b.mark && scope.stamp == cfg.stamp && scope.steady == b.steady
    requires scope.keep == run.keep && scope.now == run.now && !scope.onlyEvict
    requires AllowedFrom(was, b.trace, scope) && was <= start <= b.trace
    requires good ==> Chosen(was, start, cfg, run, scope, name, data) && Backed(start, b.trace, name, data, scope, b.Reliable())
    modifies b, status
    ensures AllowedFrom(was, b.trace, scope)
    ensures good ==> Mirrors(was, b.trace, cfg, run, scope, b.Reliable())
    ensures status.value == if run.status.Fails? then old(status.value) else Result(good, run.now)
    ensures ok <==> good && run.status.Works?
    ensures Calm(b.world) && good && |before| < MAX_LISTING && Picked(before, cfg, run, scope, name, data)
            && old(b.objects) == Renewed(before, cfg.prefix + name, data, run.now, b.mark) ==>
      Mirrored(before, b.objects, cfg, run, scope) && (run.keep > 0 ==> NothingExpendable(b.objects, scope))
  {
    hide Allowed, AllowedFrom, Backed, ValidName, Retained, NothingExpendable, Lurks, Expendable, StruckAt, Mirrors, Mirrored,
      Chosen, Picked, Renewed, LeadersStay;
    ghost var trace, objects := b.trace, b.objects;
    if good {
      var _, _ := PruneS3(b, cfg, run.keep, run.now, scope.(onlyEvict := true), map[]);
      EvictionsAreAllowed(trace, b.trace, scope);
      AllowedTwice(was, trace, b.trace, scope);
      Grows(trace, b.trace, scope);
      MirrorsInAll(was, start, trace, b.trace, cfg, run, name, data, scope, b.Reliable());
      RenewedSize(before, cfg.prefix + name, data, run.now, b.mark);
      if Calm(b.world) && |objects| <= MAX_LISTING {
        RetainedInScope(objects, b.objects, scope);
        EndsMirrored(before, objects, b.objects, cfg, run, scope, name, data);
      }
    }
    ok := RecordResult(status, good, run);
  }

  ghost predicate NothingExpendable(objects: Objects, scope: Scope) {
    forall name {:trigger ValidName(name)} :: !Expendable(objects, scope, name)
  }

  // What is kept does not depend on what else the scope allows, and nothing goes when
  // nothing is to be kept.
  lemma RetainedInScope(before: Objects, after: Objects, scope: Scope)
    requires if scope.keep > 0 then Retained(before, after, scope.(onlyEvict := true)) else after == before
    ensures Retained(before, after, scope)
  {
    hide Expendable;
    forall name ensures Expendable(before, scope.(onlyEvict := true), name) <==> Expendable(before, scope, name) {
      ExpendableInScope(before, scope, name);
    }
    if scope.keep <= 0 {
      forall name ensures !Expendable(before, scope, name) {
        ExpendableInScope(before, scope, name);
      }
    }
  }

  lemma ExpendableInScope(objects: Objects, scope: Scope, name: string)
    ensures Expendable(objects, scope.(onlyEvict := true), name) <==> Expendable(objects, scope, name)
    ensures Expendable(objects, scope, name) ==> scope.keep > 0
  {
    hide ValidName, Newer;
    forall f ensures OwnedAhead(objects, scope.(onlyEvict := true), f) == OwnedAhead(objects, scope, f) {
    }
  }

  lemma RetainedLeavesNothing(before: Objects, after: Objects, scope: Scope)
    requires Retained(before, after, scope)
    ensures NothingExpendable(after, scope)
  {
    hide ValidName, Newer;
    forall name ensures !Expendable(after, scope, name) {
      assert (scope.prefix + name)[|scope.prefix|..] == name;
      if scope.prefix + name in after {
        var f := Listed(name, after[scope.prefix + name].modified);
        Fewer(OwnedAhead(after, scope, f), OwnedAhead(before, scope, f));
      }
    }
  }

  // A renewed copy is too young to go.
  lemma EndsMirrored(before: Objects, objects: Objects, after: Objects, cfg: Config, run: Run, scope: Scope, name: string, data: Blob)
    requires scope.prefix == cfg.prefix && scope.now == run.now && Retained(objects, after, scope) && ValidName(name)
    ensures Picked(before, cfg, run, scope, name, data)
            && objects == Renewed(before, cfg.prefix + name, data, run.now, scope.mark) ==>
      Mirrored(before, after, cfg, run, scope) && NothingExpendable(after, scope)
  {
    hide Picked, ValidName, OwnedAhead, NothingExpendable;
    RetainedLeavesNothing(objects, after, scope);
    var key := scope.prefix + name;
    assert key[|scope.prefix|..] == name;
    if objects == Renewed(before, key, data, run.now, scope.mark) {
      assert Owned(objects, key, scope.mark) && objects[key].blob == data;
      assert HoldsUnlessSurplus(before, after, scope, name, data);
    }
  }

  lemma EvictionsAreAllowed(was: seq<Step>, trace: seq<Step>, scope: Scope)
    requires AllowedFrom(was, trace, scope.(onlyEvict := true))
    ensures AllowedFrom(was, trace, scope)
  {
    hide Allowed;
    forall i | |was| <= i < |trace| ensures AllowedAt(trace, i, scope) {
      if trace[i].own {
        SameEviction(trace[i - 1], trace[i], scope);
      }
    }
  }

  lemma SameEviction(prev: Step, step: Step, scope: Scope)
    requires Allowed(prev, step, scope.(onlyEvict := true))
    ensures Allowed(prev, step, scope)
  {
    hide ValidName, Newer, Adds, Follows;
    forall f ensures OwnedAhead(step.after, scope.(onlyEvict := true), f) == OwnedAhead(step.after, scope, f) {
    }
  }

  lemma MirrorsInAll(was: seq<Step>, start: seq<Step>, end: seq<Step>, trace: seq<Step>, cfg: Config, run: Run, name: string,
                     data: Blob, scope: Scope, stays: bool)
    requires was <= start && end <= trace && start <= end
    requires Chosen(was, start, cfg, run, scope, name, data) && Backed(start, end, name, data, scope, stays)
    ensures Mirrors(was, trace, cfg, run, scope, stays) && ValidName(name)
  {
    hide ValidName, Drilled, Proven, FreshDump, LocalNewest, Disowned, Retention.IsNewest;
    ProvenWithin(was, start, end, trace, scope.prefix + name, scope.mark, data, stays);
    forall key | Disowned(was, start, key, scope.mark) ensures Disowned(was, trace, key, scope.mark) {
      DisownedLater(was, start, trace, key, scope.mark);
    }
    assert Chosen(was, trace, cfg, run, scope, name, data) && Backed(was, trace, name, data, scope, stays);
  }

  lemma DisownedLater(was: seq<Step>, mid: seq<Step>, trace: seq<Step>, key: Key, mark: Mark)
    requires mid <= trace && Disowned(was, mid, key, mark)
    ensures Disowned(was, trace, key, mark)
  {
    hide Owned;
    var i {:trigger mid[i]} :| |was| <= i < |mid| && !Owned(mid[i].after, key, mark)
      && forall k {:trigger mid[k]} :: |was| <= k <= i ==> !mid[k].own;
    assert forall k :: 0 <= k <= i ==> trace[k] == mid[k];
  }

  lemma DisownedNow(was: seq<Step>, trace: seq<Step>, key: Key, mark: Mark)
    requires Quiet(was, trace) && |was| < |trace| && !Owned(trace[|trace| - 1].after, key, mark)
    ensures Disowned(was, trace, key, mark)
  {
    hide Owned;
  }

  lemma QuietTwice(was: seq<Step>, mid: seq<Step>, trace: seq<Step>)
    requires Quiet(was, mid) && Quiet(mid, trace)
    ensures Quiet(was, trace)
  {
    assert forall i {:trigger trace[i]} :: 0 <= i < |mid| ==> trace[i] == mid[i];
  }

  lemma RenewedSize(objects: Objects, key: Key, data: Blob, now: Time, mark: Mark)
    ensures |Renewed(objects, key, data, now, mark)| <= |objects| + 1
  {
    if Renewed(objects, key, data, now, mark) != objects {
      assert Renewed(objects, key, data, now, mark).Keys == objects.Keys + {key};
    }
  }

  lemma PickedNewest(objects: Objects, cfg: Config, run: Run, scope: Scope, newest: string)
    requires Retention.IsNewest(scope.volume, run.unseen, cfg.stamp, newest)
    requires !HeldByOthers(objects, cfg, scope.mark, newest)
    ensures Picked(objects, cfg, run, scope, newest, scope.volume[newest].blob)
  {
    hide HeldByOthers, Newer, IsDump;
  }

  lemma PickedFresh(objects: Objects, cfg: Config, run: Run, scope: Scope, data: Blob)
    requires forall newest :: Retention.IsNewest(scope.volume, run.unseen, cfg.stamp, newest) ==>
      HeldByOthers(objects, cfg, scope.mark, newest)
    requires FreshDump(cfg, run, run.nextName, data)
    ensures Picked(objects, cfg, run, scope, run.nextName, data)
  {}

  // Whether the search has found the name.
  lemma FoundOrNot(list: seq<Listed>, k: nat, name: string, objects: Objects, cfg: Config, mark: Mark)
    requires k <= |list| && (forall j :: 0 <= j < k ==> list[j].name != name) && (k < |list| ==> list[k].name == name)
    requires ValidName(name)
    ensures Shows(list, objects, cfg) ==> (k < |list| <==> Visible(objects, cfg, name))
    ensures !Visible(objects, cfg, name) ==> cfg.prefix + name !in objects && !Owned(objects, cfg.prefix + name, mark)
  {
    hide ValidName;
    assert Named(list, name) <==> k < |list|;
  }

  lemma NewestIsValid(files: seq<Listed>, volume: map<string, File>, unseen: set<string>, stamp: Stamp)
    requires Retention.Lists(files, volume, Dumps(volume) - unseen, stamp) && files != [] && IsVolume(volume)
    ensures ValidName(files[0].name) && files[0].name in volume && files[0].name in Dumps(volume) - unseen
  {
    hide IsDump;
  }
}
