// The bucket that holds the off-site copies, shared with others who act before every
// request. What they do and how each request goes is an input, the world. The trace
// records every change and whose it was.
module Bucket {
  import opened Wrappers
  import opened Archive
  import opened BackupDir

  type Key = string
  type Mark = string

  datatype Object = Object(blob: Blob, mark: Option<Mark>, modified: Time)

  type Objects = map<Key, Object>

  predicate Owned(objects: Objects, key: Key, mark: Mark) {
    key in objects && objects[key].mark == Some(mark)
  }

  // Nobody else makes objects with this mark, nor changes one.
  ghost predicate Loose(before: Objects, after: Objects, mark: Mark) {
    forall key :: Owned(after, key, mark) ==> key in before && before[key] == after[key]
  }

  // What an installation expects of everybody else: that its own objects are not
  // deleted either.
  ghost predicate Rely(before: Objects, after: Objects, mark: Mark) {
    && (forall key :: Owned(before, key, mark) ==> key in after && after[key] == before[key])
    && Loose(before, after, mark)
  }

  // What it does itself: nothing is overwritten, only its own objects are deleted,
  // and new objects carry its mark.
  ghost predicate Gentle(before: Objects, after: Objects, mark: Mark) {
    && (forall key :: key in before && key in after ==> after[key] == before[key])
    && (forall key :: key in before && key !in after ==> Owned(before, key, mark))
    && (forall key :: key in after && key !in before ==> Owned(after, key, mark))
  }

  // So installations with different marks can share a bucket.
  lemma GentleIsWithinRely(before: Objects, after: Objects, mine: Mark, theirs: Mark)
    requires Gentle(before, after, theirs) && mine != theirs
    ensures Rely(before, after, mine)
  {}

  datatype Step = Step(own: bool, before: Objects, after: Objects)

  datatype Stated = Found(mark: Option<Mark>, size: nat) | Missing | Unreachable

  datatype Fetched = Content(blob: Blob) | NotThere | NoAnswer

  datatype PutResult = Stored | Taken | PutFailed

  datatype Item = Item(key: Key, modified: Time)

  datatype Request = Head(key: Key) | Fetch(key: Key) | Upload(key: Key) | Delete(key: Key) | Enumerate(prefix: Key)

  // What others write or delete, and under which keys.
  type Changes = map<Key, Option<Object>>

  // The circumstances of one request: what others do before it, how it goes, whether
  // the client repeats an upload that timed out, and what a listing says of objects
  // that others change meanwhile.
  datatype Turn = Turn(changes: Changes, fault: Fault, retried: bool, noise: Option<seq<Item>>)

  const QUIET := Turn(map[], Works, false, None)

  // The n-th request and what it asks decide the circumstances.
  type World = (nat, Request) -> Turn

  // Every request works, and others act only under a key that is about to be removed.
  ghost predicate Lurks(world: World, theft: Changes) {
    forall n, request {:trigger world(n, request)} ::
      world(n, request) == if request.Delete? then QUIET.(changes := Only(theft, request.key)) else QUIET
  }

  // Every request works, and nobody else does anything.
  ghost predicate Calm(world: World) { Lurks(world, map[]) }

  function Only(changes: Changes, key: Key): Changes {
    if key in changes then map[key := changes[key]] else map[]
  }

  // What is under key after these changes. In a steady bucket others leave owned
  // objects alone. Elsewhere they may delete one and use its key; a change that
  // claims this mark counts as a deletion.
  function Under(objects: Objects, changes: Changes, key: Key, mark: Mark, steady: bool): Option<Object> {
    if key !in changes || (steady && Owned(objects, key, mark)) then if key in objects then Some(objects[key]) else None
    else if changes[key].Some? && changes[key].value.mark == Some(mark) then None
    else changes[key]
  }

  function Meanwhile(objects: Objects, changes: Changes, mark: Mark, steady: bool): (r: Objects)
    ensures forall key {:trigger key in r} :: key in r <==> Under(objects, changes, key, mark, steady).Some?
    ensures forall key {:trigger r[key]} :: key in r ==> r[key] == Under(objects, changes, key, mark, steady).value
  {
    map key | key in objects.Keys + changes.Keys && Under(objects, changes, key, mark, steady).Some? ::
      Under(objects, changes, key, mark, steady).value
  }

  lemma MeanwhileIsLoose(objects: Objects, changes: Changes, mark: Mark, steady: bool)
    ensures Loose(objects, Meanwhile(objects, changes, mark, steady), mark)
    ensures steady ==> Rely(objects, Meanwhile(objects, changes, mark, steady), mark)
    ensures changes == map[] ==> Meanwhile(objects, changes, mark, steady) == objects
  {
    if changes == map[] {
      assert forall key {:trigger key in objects} ::
        Under(objects, changes, key, mark, steady) == if key in objects then Some(objects[key]) else None;
    }
  }

  function Reply(taken: bool, turn: Turn): PutResult {
    if taken then if turn.fault.Works? then Taken else PutFailed
    else match turn.fault
         case Works => Stored
         case Fails => PutFailed
         case AppliesThenFails => if turn.retried then Taken else PutFailed
  }

  ghost predicate HasKey(items: seq<Item>, key: Key) { exists i {:trigger items[i]} :: 0 <= i < |items| && items[i].key == key }

  lemma HasKeyInSum(a: seq<Item>, b: seq<Item>)
    ensures forall key :: HasKey(a + b, key) <==> HasKey(a, key) || HasKey(b, key)
  {
    forall key ensures HasKey(a + b, key) <==> HasKey(a, key) || HasKey(b, key) {
      if HasKey(a, key) {
        var i {:trigger a[i]} :| 0 <= i < |a| && a[i].key == key;
        assert (a + b)[i].key == key;
      }
      if HasKey(b, key) {
        var i {:trigger b[i]} :| 0 <= i < |b| && b[i].key == key;
        assert (a + b)[|a| + i].key == key;
      }
    }
  }

  lemma HasItsKey(item: Item)
    ensures HasKey([item], item.key)
  {
    assert [item][0] == item;
  }

  // What lies below the prefix, and nothing else.
  ghost predicate ListsExactly(items: seq<Item>, objects: Objects, prefix: Key) {
    && (forall i {:trigger items[i]} :: 0 <= i < |items| ==> items[i].key in objects && prefix <= items[i].key)
    && (forall key :: key in objects && prefix <= key ==> HasKey(items, key))
  }

  // Each of these keys once, with its time.
  method ItemsOf(objects: Objects, keys: set<Key>) returns (items: seq<Item>)
    requires keys <= objects.Keys
    ensures |items| == |keys|
    ensures forall i {:trigger items[i]} :: 0 <= i < |items| ==>
      items[i].key in keys && items[i].modified == objects[items[i].key].modified
    ensures forall key :: key in keys ==> HasKey(items, key)
  {
    hide HasKey;
    items := [];
    var rest := keys;
    while rest != {}
      invariant rest <= keys && |items| + |rest| == |keys|
      invariant forall i {:trigger items[i]} :: 0 <= i < |items| ==>
        items[i].key in keys && items[i].modified == objects[items[i].key].modified
      invariant forall key :: key in keys && key !in rest ==> HasKey(items, key)
      decreases |rest|
    {
      var key :| key in rest;
      HasKeyInSum(items, [Item(key, objects[key].modified)]);
      HasItsKey(Item(key, objects[key].modified));
      items := items + [Item(key, objects[key].modified)];
      rest := rest - {key};
    }
  }

  class Bucket {
    const mark: Mark
    const steady: bool
    const world: World
    var turns: nat
    var objects: Objects
    ghost var trace: seq<Step>

    constructor (mark: Mark, steady: bool, world: World, initial: Objects)
      ensures this.mark == mark && this.steady == steady && this.world == world
      ensures turns == 0 && objects == initial && trace == []
    {
      this.mark := mark;
      this.steady := steady;
      this.world := world;
      turns := 0;
      objects := initial;
      trace := [];
    }

    // Its own objects stay where they are.
    ghost predicate Reliable() { steady || Calm(world) }

    function Now(request: Request): Turn
      reads this
    {
      world(turns, request)
    }

    // The bucket when the request reaches it.
    function Then(request: Request): Objects
      reads this
    {
      Meanwhile(objects, Now(request).changes, mark, steady)
    }

    // What others do before a request.
    method Environment(request: Request) returns (turn: Turn)
      modifies this
      ensures turn == old(Now(request)) && turns == old(turns) + 1
      ensures objects == old(Then(request)) && trace == old(trace) + [Step(false, old(objects), objects)]
      ensures Loose(old(objects), objects, mark) && (steady ==> Rely(old(objects), objects, mark))
      ensures turn.changes == map[] ==> objects == old(objects)
    {
      hide Rely, Loose, Meanwhile;
      turn := world(turns, request);
      MeanwhileIsLoose(objects, turn.changes, mark, steady);
      ghost var before := objects;
      objects := Meanwhile(objects, turn.changes, mark, steady);
      trace := trace + [Step(false, before, objects)];
      turns := turns + 1;
    }

    // StatObject
    method Stat(key: Key) returns (r: Stated)
      modifies this
      ensures turns == old(turns) + 1
      ensures objects == old(Then(Head(key))) && trace == old(trace) + [Step(false, old(objects), objects)]
      ensures Loose(old(objects), objects, mark) && (steady ==> Rely(old(objects), objects, mark))
      ensures old(Now(Head(key))).changes == map[] ==> objects == old(objects)
      ensures r == if !old(Now(Head(key))).fault.Works? then Unreachable
                   else if key in objects then Found(objects[key].mark, Size(objects[key].blob)) else Missing
    {
      hide Rely, Loose, Meanwhile, Size;
      var turn := Environment(Head(key));
      r := if !turn.fault.Works? then Unreachable
           else if key in objects then Found(objects[key].mark, Size(objects[key].blob))
           else Missing;
    }

    // GetObject, read to the end.
    method Get(key: Key) returns (r: Fetched)
      modifies this
      ensures turns == old(turns) + 1
      ensures objects == old(Then(Fetch(key))) && trace == old(trace) + [Step(false, old(objects), objects)]
      ensures Loose(old(objects), objects, mark) && (steady ==> Rely(old(objects), objects, mark))
      ensures old(Now(Fetch(key))).changes == map[] ==> objects == old(objects)
      ensures r == if !old(Now(Fetch(key))).fault.Works? then NoAnswer
                   else if key in objects then Content(objects[key].blob) else NotThere
    {
      hide Rely, Loose, Meanwhile;
      var turn := Environment(Fetch(key));
      r := if !turn.fault.Works? then NoAnswer else if key in objects then Content(objects[key].blob) else NotThere;
    }

    // PutObject with If-None-Match: *. A request that times out may have been
    // carried out, and a repeated one then finds its own object in the way.
    method Put(key: Key, blob: Blob, now: Time) returns (r: PutResult, ghost mid: Objects)
      modifies this
      ensures turns == old(turns) + 1 && mid == old(Then(Upload(key)))
      ensures trace == old(trace) + [Step(false, old(objects), mid), Step(true, mid, objects)]
      ensures Loose(old(objects), mid, mark) && (steady ==> Rely(old(objects), mid, mark))
      ensures old(Now(Upload(key))).changes == map[] ==> mid == old(objects)
      ensures objects == if key in mid || old(Now(Upload(key))).fault.Fails? then mid
                         else mid[key := Object(blob, Some(mark), now)]
      ensures r == Reply(key in mid, old(Now(Upload(key))))
    {
      hide Rely, Loose, Meanwhile;
      var turn := Environment(Upload(key));
      mid := objects;
      r := Reply(key in objects, turn);
      if key !in objects && !turn.fault.Fails? {
        objects := objects[key := Object(blob, Some(mark), now)];
      }
      trace := trace + [Step(true, mid, objects)];
    }

    // RemoveObject asks nothing about the object it removes.
    method Remove(key: Key) returns (ok: bool, ghost mid: Objects)
      modifies this
      ensures turns == old(turns) + 1 && mid == old(Then(Delete(key)))
      ensures trace == old(trace) + [Step(false, old(objects), mid), Step(true, mid, objects)]
      ensures Loose(old(objects), mid, mark) && (steady ==> Rely(old(objects), mid, mark))
      ensures old(Now(Delete(key))).changes == map[] ==> mid == old(objects)
      ensures objects == if old(Now(Delete(key))).fault.Fails? then mid else mid - {key}
      ensures ok <==> old(Now(Delete(key))).fault.Works?
    {
      hide Rely, Loose, Meanwhile;
      var turn := Environment(Delete(key));
      mid := objects;
      if !turn.fault.Fails? {
        objects := objects - {key};
      }
      ok := turn.fault.Works?;
      trace := trace + [Step(true, mid, objects)];
    }

    // ListObjects below a prefix. Objects that others change meanwhile may be
    // missed or misreported; its own are listed as they are.
    method ListBelow(prefix: Key) returns (r: Option<seq<Item>>)
      modifies this
      ensures turns == old(turns) + 1
      ensures objects == old(Then(Enumerate(prefix))) && trace == old(trace) + [Step(false, old(objects), objects)]
      ensures Loose(old(objects), objects, mark) && (steady ==> Rely(old(objects), objects, mark))
      ensures old(Now(Enumerate(prefix))).changes == map[] ==> objects == old(objects)
      ensures r.Some? <==> old(Now(Enumerate(prefix))).fault.Works?
      ensures r.Some? ==> forall i {:trigger r.value[i]} :: 0 <= i < |r.value| && Owned(objects, r.value[i].key, mark) ==>
        r.value[i].modified == objects[r.value[i].key].modified
      ensures r.Some? ==> forall key :: Owned(objects, key, mark) && prefix <= key ==>
        HasKey(r.value, key)
      ensures r.Some? && old(Now(Enumerate(prefix))).noise.None? ==> |r.value| <= |objects| && ListsExactly(r.value, objects, prefix)
    {
      hide Rely, Loose, Meanwhile, HasKey;
      var turn := Environment(Enumerate(prefix));
      if !turn.fault.Works? {
        return None;
      }
      var others := if turn.noise.Some? then turn.noise.value else [];
      var items: seq<Item> := [];
      for i := 0 to |others|
        invariant |items| <= i
        invariant forall j {:trigger items[j]} :: 0 <= j < |items| ==> !Owned(objects, items[j].key, mark)
      {
        if !Owned(objects, others[i].key, mark) {
          items := items + [others[i]];
        }
      }
      var rest := set key | key in objects && (objects[key].mark == Some(mark) || turn.noise.None?) && prefix <= key;
      Fewer(rest, objects.Keys);
      var listed := ItemsOf(objects, rest);
      HasKeyInSum(items, listed);
      r := Some(items + listed);
    }
  }
}
