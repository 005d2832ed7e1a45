// Writing one dump to the volume and pruning the volume to its newest dumps
// (internal/backup/backup.go, runVolume, List and prune). Every failing check or
// delete is an input, so the claims hold under any pattern of failures.
module Retention {
  import opened Wrappers
  import opened Archive
  import opened BackupDir
  import opened Ranking

  type Files = map<string, File>

  function Entry(files: Files, name: string): Listed
    requires name in files
  {
    Listed(name, files[name].modified)
  }

  // The dumps among these that rank before name.
  function Ahead(files: Files, among: set<string>, name: string, stamp: Stamp): (r: set<string>)
    requires name in files
    ensures forall other :: other in r <==>
      other in among && other in files && Newer(Entry(files, other), Entry(files, name), stamp)
  {
    set other | other in among && other in files && Newer(Entry(files, other), Entry(files, name), stamp)
  }

  // What retention may evict: at least keep listed dumps rank before it, and it is
  // a day old. unseen are the dumps whose file information could not be read.
  ghost predicate Expired(files: Files, unseen: set<string>, keep: int, now: Time, stamp: Stamp, name: string) {
    && name in Dumps(files) - unseen
    && 0 < keep <= |Ahead(files, Dumps(files) - unseen, name, stamp)|
    && files[name].modified <= now - DAY
  }

  // The volume after pruning; stuck are the files that cannot be removed.
  ghost function Pruned(files: Files, keep: int, now: Time, stamp: Stamp, unseen: set<string>, stuck: set<string>): (r: Files)
    ensures forall name :: name in r <==>
      name in files && (name in stuck || !Expired(files, unseen, keep, now, stamp, name))
    ensures forall name :: name in r ==> r[name] == files[name]
  {
    map name | name in files && (name in stuck || !Expired(files, unseen, keep, now, stamp, name)) :: files[name]
  }

  // A listing of some files: each once, newest first.
  ghost predicate Lists(list: seq<Listed>, files: Files, names: set<string>, stamp: Stamp) {
    && (forall k {:trigger list[k]} :: 0 <= k < |list| ==>
          list[k].name in names && list[k].name in files && list[k] == Entry(files, list[k].name))
    && (forall name :: name in names ==> exists k :: 0 <= k < |list| && list[k].name == name)
    && Distinct(list) && Ordered(list, stamp)
  }

  lemma SortLists(out: seq<Listed>, files: Files, names: set<string>, stamp: Stamp)
    requires forall k {:trigger out[k]} :: 0 <= k < |out| ==>
      out[k].name in names && out[k].name in files && out[k] == Entry(files, out[k].name)
    requires forall name :: name in names ==> exists k :: 0 <= k < |out| && out[k].name == name
    requires Distinct(out)
    ensures Lists(SortNewestFirst(out, stamp), files, names, stamp)
  {
    hide Newer, Insert, SortNewestFirst;
    var list := SortNewestFirst(out, stamp);
    SortedNewestFirst(out, stamp);
    forall k | 0 <= k < |list|
      ensures list[k].name in names && list[k].name in files && list[k] == Entry(files, list[k].name)
    {
      assert list[k] in multiset(list);
      assert list[k] in out;
    }
    forall name | name in names ensures exists k :: 0 <= k < |list| && list[k].name == name {
      var k :| 0 <= k < |out| && out[k].name == name;
      assert out[k] in multiset(out);
      assert out[k] in list;
    }
  }

  method List(dir: Dir, unseen: set<string>, stamp: Stamp) returns (list: seq<Listed>)
    ensures Lists(list, dir.files, Dumps(dir.files) - unseen, stamp)
  {
    hide Newer, Insert, SortNewestFirst, IsDump;
    var paths := dir.Glob();
    var out: seq<Listed> := [];
    for i := 0 to |paths|
      invariant forall k {:trigger out[k]} :: 0 <= k < |out| ==>
        out[k].name in paths[..i] && out[k].name !in unseen && out[k].name in dir.files
        && out[k] == Entry(dir.files, out[k].name)
      invariant forall j :: 0 <= j < i && paths[j] !in unseen ==> exists k :: 0 <= k < |out| && out[k].name == paths[j]
      invariant Distinct(out)
    {
      if paths[i] !in unseen {
        assert paths[i] in Dumps(dir.files);
        ghost var before := out;
        out := out + [Entry(dir.files, paths[i])];
        assert out[|before|].name == paths[i];
        assert forall k :: 0 <= k < |before| ==> out[k] == before[k];
      }
      assert paths[..i + 1] == paths[..i] + [paths[i]];
    }
    forall name | name in Dumps(dir.files) - unseen ensures exists k :: 0 <= k < |out| && out[k].name == name {
      assert name in paths;
      var j :| 0 <= j < |paths| && paths[j] == name;
    }
    SortLists(out, dir.files, Dumps(dir.files) - unseen, stamp);
    list := SortNewestFirst(out, stamp);
  }

  ghost function NamesOf(list: seq<Listed>): (r: set<string>)
    ensures forall name :: name in r <==> exists k :: 0 <= k < |list| && list[k].name == name
  {
    set k | 0 <= k < |list| :: list[k].name
  }

  lemma {:induction false} NamesCount(list: seq<Listed>)
    requires Distinct(list)
    ensures |NamesOf(list)| == |list|
  {
    if list == [] {
      assert NamesOf(list) == {};
    } else {
      var init, last := list[..|list| - 1], list[|list| - 1];
      NamesCount(init);
      assert last.name !in NamesOf(init);
      assert NamesOf(list) == NamesOf(init) + {last.name} by {
        assert forall k :: 0 <= k < |init| ==> init[k] == list[k];
      }
    }
  }

  // In a listing, the dumps ranked before the k-th are the first k.
  lemma RankIsIndex(list: seq<Listed>, files: Files, names: set<string>, stamp: Stamp, k: nat)
    requires Lists(list, files, names, stamp) && k < |list|
    ensures Ahead(files, names, list[k].name, stamp) == NamesOf(list[..k])
    ensures |Ahead(files, names, list[k].name, stamp)| == k
  {
    hide Newer;
    var ahead := Ahead(files, names, list[k].name, stamp);
    forall name | name in NamesOf(list[..k]) ensures name in ahead {
      var i :| 0 <= i < k && list[..k][i].name == name;
      assert list[i].name == name;
    }
    forall name | name in ahead ensures name in NamesOf(list[..k]) {
      var i :| 0 <= i < |list| && list[i].name == name;
      assert list[k] == Entry(files, list[k].name) && list[i] == Entry(files, list[i].name);
      NewerIsStrictTotal(list[i], list[k], stamp);
      assert list[..k][i].name == name;
    }
    assert ahead == NamesOf(list[..k]);
    NamesCount(list[..k]);
  }

  // The listed dump that no other listed one ranks ahead of.
  ghost predicate IsNewest(files: Files, unseen: set<string>, stamp: Stamp, name: string) {
    name in Dumps(files) - unseen && Ahead(files, Dumps(files) - unseen, name, stamp) == {}
  }

  // It is the first of the listing, and there is one unless nothing is listed.
  lemma NewestIsFirst(list: seq<Listed>, files: Files, unseen: set<string>, stamp: Stamp)
    requires Lists(list, files, Dumps(files) - unseen, stamp)
    ensures forall name :: IsNewest(files, unseen, stamp, name) <==> list != [] && name == list[0].name
  {
    hide Newer, IsDump;
    forall name ensures IsNewest(files, unseen, stamp, name) <==> list != [] && name == list[0].name {
      if list != [] && name == list[0].name {
        RankIsIndex(list, files, Dumps(files) - unseen, stamp, 0);
      }
      if IsNewest(files, unseen, stamp, name) {
        var k :| 0 <= k < |list| && list[k].name == name;
        RankIsIndex(list, files, Dumps(files) - unseen, stamp, k);
      }
    }
  }

  // No listed dump has a later time in its name.
  lemma NewestHasLatestStamp(files: Files, unseen: set<string>, stamp: Stamp, name: string, other: string)
    requires IsNewest(files, unseen, stamp, name) && other in Dumps(files) - unseen
    requires stamp(name).Some? && stamp(other).Some?
    ensures stamp(other).value <= stamp(name).value
  {
    hide IsDump, Less;
    assert other !in Ahead(files, Dumps(files) - unseen, name, stamp);
  }

  lemma ExpiredByIndex(list: seq<Listed>, files: Files, unseen: set<string>, keep: int, now: Time, stamp: Stamp, k: nat)
    requires Lists(list, files, Dumps(files) - unseen, stamp) && k < |list|
    ensures Expired(files, unseen, keep, now, stamp, list[k].name) <==> 0 < keep <= k && list[k].modified <= now - DAY
  {
    hide Newer, IsDump;
    RankIsIndex(list, files, Dumps(files) - unseen, stamp, k);
    assert list[k] == Entry(files, list[k].name);
  }

  lemma NothingExpires(files: Files, unseen: set<string>, keep: int, now: Time, stamp: Stamp)
    ensures keep <= 0 ==> forall name :: !Expired(files, unseen, keep, now, stamp, name)
  {}

  // Exactly the listed dumps from the keep-th on that are old enough are evicted.
  lemma ExpiredInListing(list: seq<Listed>, files: Files, unseen: set<string>, keep: int, now: Time, stamp: Stamp)
    requires Lists(list, files, Dumps(files) - unseen, stamp) && 0 < keep
    ensures forall k {:trigger list[k]} :: 0 <= k < |list| ==>
      (Expired(files, unseen, keep, now, stamp, list[k].name) <==> keep <= k && list[k].modified <= now - DAY)
    ensures forall name :: Expired(files, unseen, keep, now, stamp, name) ==> name in NamesOf(list)
    ensures keep <= |list| ==> forall name :: name in NamesOf(list[..keep]) ==> !Expired(files, unseen, keep, now, stamp, name)
    ensures |list| <= keep ==> forall name :: !Expired(files, unseen, keep, now, stamp, name)
  {
    hide Newer, IsDump, Ahead;
    forall k | 0 <= k < |list|
      ensures Expired(files, unseen, keep, now, stamp, list[k].name) <==> keep <= k && list[k].modified <= now - DAY
    {
      ExpiredByIndex(list, files, unseen, keep, now, stamp, k);
    }
    forall name | Expired(files, unseen, keep, now, stamp, name) ensures name in NamesOf(list) {
    }
    hide Expired, Lists;
    if keep <= |list| {
      forall name | name in NamesOf(list[..keep]) ensures !Expired(files, unseen, keep, now, stamp, name) {
        var k :| 0 <= k < keep && list[..keep][k].name == name;
        assert list[k].name == name;
      }
    }
  }

  method Prune(dir: Dir, keep: int, now: Time, stamp: Stamp, listFails: bool, unseen: set<string>, stuck: set<string>)
    modifies dir
    ensures dir.files == if listFails then old(dir.files) else Pruned(old(dir.files), keep, now, stamp, unseen, stuck)
  {
    hide Newer, IsDump, Expired, Lists, Ahead, Dumps;
    if keep <= 0 || listFails {
      NothingExpires(dir.files, unseen, keep, now, stamp);
      return;
    }
    ghost var before := dir.files;
    var list := List(dir, unseen, stamp);
    ExpiredInListing(list, before, unseen, keep, now, stamp);
    if |list| <= keep {
      return;
    }
    var cutoff := now - DAY;
    for i := keep to |list|
      invariant forall name :: name in dir.files ==> name in before && dir.files[name] == before[name]
      invariant forall name :: name in before ==>
        (name in dir.files <==> name in stuck || name !in NamesOf(list[..i]) || !Expired(before, unseen, keep, now, stamp, name))
    {
      var name := list[i].name;
      NamesGrow(list, i);
      if list[i].modified > cutoff {
        continue;
      }
      var _ := dir.Remove(name, if name in stuck then Fails else Works);
    }
    assert list[..|list|] == list;
  }

  lemma NamesGrow(list: seq<Listed>, i: nat)
    requires i < |list|
    ensures NamesOf(list[..i + 1]) == NamesOf(list[..i]) + {list[i].name}
  {
    forall name | name in NamesOf(list[..i + 1]) ensures name in NamesOf(list[..i]) + {list[i].name} {
      var k :| 0 <= k < i + 1 && list[..i + 1][k].name == name;
      if k < i {
        assert list[..i][k].name == name;
      }
    }
    forall name | name in NamesOf(list[..i]) ensures name in NamesOf(list[..i + 1]) {
      var k :| 0 <= k < i && list[..i][k].name == name;
      assert list[..i + 1][k].name == name;
    }
    assert list[..i + 1][i].name == list[i].name;
  }

  // Every set of files has a listing.
  lemma {:induction false} ListingExists(files: Files, names: set<string>) returns (out: seq<Listed>)
    requires names <= files.Keys
    ensures forall k {:trigger out[k]} :: 0 <= k < |out| ==>
      out[k].name in names && out[k].name in files && out[k] == Entry(files, out[k].name)
    ensures forall name :: name in names ==> exists k :: 0 <= k < |out| && out[k].name == name
    ensures Distinct(out)
  {
    if names == {} {
      out := [];
    } else {
      var name :| name in names;
      var rest := ListingExists(files, names - {name});
      out := [Entry(files, name)] + rest;
      assert out[0].name == name;
      forall other | other in names ensures exists k :: 0 <= k < |out| && out[k].name == other {
        if other != name {
          assert other in names - {name};
          var k :| 0 <= k < |rest| && rest[k].name == other;
          assert out[k + 1].name == other;
        }
      }
    }
  }

  // Whatever could not be read or removed: an evicted dump is at least a day old,
  // at least keep newer dumps are still stored, and no other file changes.
  lemma EvictionIsCovered(files: Files, keep: int, now: Time, stamp: Stamp, unseen: set<string>, stuck: set<string>, name: string)
    requires name in files && name !in Pruned(files, keep, now, stamp, unseen, stuck)
    ensures IsDump(name) && files[name].modified <= now - DAY
    ensures 0 < keep <= |Ahead(files, Dumps(Pruned(files, keep, now, stamp, unseen, stuck)), name, stamp)|
  {
    hide Newer, IsDump, Insert, SortNewestFirst, Expired, Ahead, Lists;
    assert Expired(files, unseen, keep, now, stamp, name);
    var seen := Dumps(files) - unseen;
    var out := ListingExists(files, seen);
    SortLists(out, files, seen, stamp);
    var list := SortNewestFirst(out, stamp);
    CoveredByNewest(list, files, keep, now, stamp, unseen, stuck, name);
  }

  lemma CoveredByNewest(list: seq<Listed>, files: Files, keep: int, now: Time, stamp: Stamp,
                        unseen: set<string>, stuck: set<string>, name: string)
    requires Lists(list, files, Dumps(files) - unseen, stamp) && Expired(files, unseen, keep, now, stamp, name)
    ensures IsDump(name) && files[name].modified <= now - DAY
    ensures 0 < keep <= |Ahead(files, Dumps(Pruned(files, keep, now, stamp, unseen, stuck)), name, stamp)|
  {
    hide Newer, IsDump;
    ExpiredInListing(list, files, unseen, keep, now, stamp);
    hide Expired;
    var k :| 0 <= k < |list| && list[k].name == name;
    var newest := NamesOf(list[..keep]);
    NamesCount(list[..keep]);
    var after := Dumps(Pruned(files, keep, now, stamp, unseen, stuck));
    forall other | other in newest ensures other in Ahead(files, after, name, stamp) {
      var i :| 0 <= i < keep && list[..keep][i].name == other;
      assert list[i] == Entry(files, other) && list[k] == Entry(files, name);
    }
    Fewer(newest, Ahead(files, after, name, stamp));
  }

  // The newest keep dumps survive, even when some of them could not be listed.
  lemma NewestSurvive(files: Files, keep: int, now: Time, stamp: Stamp, unseen: set<string>, stuck: set<string>, name: string)
    requires name in Dumps(files) && |Ahead(files, Dumps(files), name, stamp)| < keep
    ensures name in Pruned(files, keep, now, stamp, unseen, stuck)
  {
    hide Newer, IsDump;
    Fewer(Ahead(files, Dumps(files) - unseen, name, stamp), Ahead(files, Dumps(files), name, stamp));
  }

  // Where every listed dump has a time of its own in its name, exactly the dumps go that
  // at least keep later-stamped ones precede and that were last modified a day ago. What
  // ranks them is never the modification time, which a rotation renews.
  lemma EvictedByStamps(files: Files, keep: int, now: Time, stamp: Stamp, unseen: set<string>, stuck: set<string>, name: string)
    requires name in Dumps(files) - unseen && name !in stuck
    requires forall other :: other in Dumps(files) - unseen ==>
      stamp(other).Some? && (other != name ==> stamp(other) != stamp(name))
    ensures var later := set other | other in Dumps(files) - unseen && stamp(other).value > stamp(name).value;
      name !in Pruned(files, keep, now, stamp, unseen, stuck) <==> 0 < keep <= |later| && files[name].modified <= now - DAY
  {
    hide IsDump, Less;
    var later := set other | other in Dumps(files) - unseen && stamp(other).value > stamp(name).value;
    NewerIsStrictTotal(Entry(files, name), Entry(files, name), stamp);
    assert Ahead(files, Dumps(files) - unseen, name, stamp) == later;
  }

  // A dump stays when fewer than keep others have a time in the name that is not earlier,
  // or none in it: so the dump with the latest time of all does, whatever was modified when.
  lemma LatestStampSurvives(files: Files, keep: int, now: Time, stamp: Stamp, unseen: set<string>, stuck: set<string>, name: string)
    requires name in Dumps(files) && stamp(name).Some?
    requires var rivals := set other | other in Dumps(files) - {name}
                                       && (stamp(other).None? || stamp(other).value >= stamp(name).value);
      keep <= 0 || |rivals| < keep
    ensures name in Pruned(files, keep, now, stamp, unseen, stuck)
  {
    hide IsDump, Less;
    var rivals := set other | other in Dumps(files) - {name}
                              && (stamp(other).None? || stamp(other).value >= stamp(name).value);
    NewerIsStrictTotal(Entry(files, name), Entry(files, name), stamp);
    Fewer(Ahead(files, Dumps(files) - unseen, name, stamp), rivals);
  }

  // What runVolume keeps in status.json.
  datatype Status = Status(ok: bool, lastBackup: Time)

  // One run: what pg_dump produced, the name and times the clock gave, and which
  // of its steps go wrong.
  datatype Run = Run(
    busy: bool, dump: Option<Plain>, name: string, nonce: nat, sealFails: bool, mkdirFails: bool,
    write: Fault, rename: Fault, cleanup: Fault,
    keep: int, listFails: bool, unseen: set<string>, stuck: set<string>,
    written: Time, pruned: Time, status: Fault)

  predicate Verified(run: Run) {
    !run.busy && run.dump.Some? && Restorable(run.dump.value) && !run.sealFails
  }

  predicate Promotes(run: Run) { Verified(run) && !run.mkdirFails && run.write.Works? && run.rename.Works? }

  predicate Succeeds(run: Run) { Promotes(run) && run.status.Works? }

  function NewFile(run: Run, secret: Secret): File
    requires run.dump.Some?
  {
    File(Encrypt(run.dump.value, secret, run.nonce), run.written)
  }

  // The volume a promoting run prunes.
  function Promoted(files: Files, run: Run, secret: Secret): Files
    requires Promotes(run)
  {
    (files - {run.name + STAGING})[run.name := NewFile(run, secret)]
  }

  // What the run leaves of the listed dumps.
  ghost predicate LeavesDumps(files: Files, after: Files, run: Run, secret: Secret, stamp: Stamp) {
    if Promotes(run) then
      after == if run.listFails then Promoted(files, run, secret)
               else Pruned(Promoted(files, run, secret), run.keep, run.pruned, stamp, run.unseen, run.stuck)
    else
      && (forall name :: name in Dumps(files) && name != run.name ==> name in after && after[name] == files[name])
      && (forall name :: name in Dumps(after) ==> name in files || name == run.name)
      && (run.name in files ==> run.name in after)
      && (run.name in after && (run.name !in files || after[run.name] != files[run.name]) ==>
            Verified(run) && run.rename.AppliesThenFails? && after[run.name] == NewFile(run, secret))
  }

  predicate SameAt(files: Files, after: Files, name: string) {
    (name in after <==> name in files) && (name in files ==> after[name] == files[name])
  }

  // At most the staging file and the new dump differ, the latter after a rename that took
  // effect.
  lemma NotPromoted(files: Files, after: Files, run: Run, secret: Secret, stamp: Stamp)
    requires IsDump(run.name)
    requires forall name {:trigger SameAt(files, after, name)} :: name != run.name + STAGING && name != run.name ==>
      SameAt(files, after, name)
    requires SameAt(files, after, run.name)
      || (run.name in after && Verified(run) && run.rename.AppliesThenFails? && after[run.name] == NewFile(run, secret))
    ensures !Promotes(run) ==> LeavesDumps(files, after, run, secret, stamp)
  {
    hide IsDump, Restorable, Pruned, NewFile, Verified;
    StagingIsNoDump(run.name);
    forall name | IsDump(name) && name != run.name ensures SameAt(files, after, name) {
    }
    assert forall name :: name in Dumps(files) && name != run.name ==> SameAt(files, after, name);
    assert forall name :: name in Dumps(after) && name != run.name ==> SameAt(files, after, name);
  }

  lemma PrunedAfterPromotion(files: Files, after: Files, run: Run, secret: Secret, stamp: Stamp)
    requires Promotes(run)
    requires after == if run.listFails then Promoted(files, run, secret)
                      else Pruned(Promoted(files, run, secret), run.keep, run.pruned, stamp, run.unseen, run.stuck)
    ensures LeavesDumps(files, after, run, secret, stamp)
  {}

  // The error of runVolume is ok being false.
  method RunVolume(dir: Dir, status: StatusFile<Status>, run: Run, secret: Secret, stamp: Stamp) returns (ok: bool)
    requires IsDump(run.name)
    modifies dir, status
    ensures ok <==> Succeeds(run)
    ensures !Verified(run) ==> dir.files == old(dir.files)
    ensures LeavesDumps(old(dir.files), dir.files, run, secret, stamp)
    ensures status.value ==
      if run.busy || run.status.Fails? then old(status.value)
      else if Promotes(run) then Status(true, run.pruned)
      else Status(false, old(status.value.lastBackup))
  {
    hide IsDump, Restorable, Pruned, LeavesDumps;
    ghost var before := dir.files;
    NotPromoted(before, before, run, secret, stamp);
    if run.busy {
      return false;
    }
    var failed := Status(false, status.value.lastBackup);
    var enc := CreateVerifiedDump(run.dump, secret, run.nonce, run.sealFails);
    if enc.None? || run.mkdirFails {
      var _ := status.Update(failed, run.status);
      return false;
    }
    assert enc.value == NewFile(run, secret).blob;
    var staging := run.name + STAGING;
    StagingIsNoDump(run.name);
    ok := dir.Write(staging, enc.value, run.written, run.write);
    NotPromoted(before, dir.files, run, secret, stamp);
    if !ok {
      var _ := status.Update(failed, run.status);
      return false;
    }
    ok := dir.Rename(staging, run.name, run.rename);
    if !ok {
      var _ := dir.Remove(staging, run.cleanup);
      NotPromoted(before, dir.files, run, secret, stamp);
      var _ := status.Update(failed, run.status);
      return false;
    }
    assert dir.files == Promoted(before, run, secret);
    Prune(dir, run.keep, run.pruned, stamp, run.listFails, run.unseen, run.stuck);
    PrunedAfterPromotion(before, dir.files, run, secret, stamp);
    ok := status.Update(Status(true, run.pruned), run.status);
  }

  // A failing run loses a listed dump exactly when it fails by not recording its
  // status, after it has already promoted the new dump and pruned for it.
  lemma FailedRunKeepsDumpsExactlyUnless(files: Files, after: Files, run: Run, secret: Secret, stamp: Stamp)
    requires IsDump(run.name) && LeavesDumps(files, after, run, secret, stamp) && !Succeeds(run)
    ensures Dumps(files) <= Dumps(after) <==>
      !(Promotes(run) && !run.status.Works? && !run.listFails
        && exists name :: name in Dumps(files) && name !in run.stuck
             && Expired(Promoted(files, run, secret), run.unseen, run.keep, run.pruned, stamp, name))
  {
    hide IsDump, Restorable, Expired, Pruned;
    if Promotes(run) {
      StagingIsNoDump(run.name);
      var promoted := Promoted(files, run, secret);
      assert forall name :: name in Dumps(files) ==> name in promoted;
    }
  }

  // The older dump and the new one carry the times in their names.
  lemma LostStatusShrinks(a: string, b: string, files: Files, after: Files, run: Run, stamp: Stamp)
    requires IsDump(a) && IsDump(b) && stamp(a) == Some(0) && stamp(b) == Some(2 * DAY)
    requires files == map[a := File(Junk("old"), 0)]
    requires run == Run(false, Some("PGDMP"), b, 0, false, false, Works, Works, Works,
                        1, false, {}, {}, 2 * DAY, 2 * DAY, Fails)
    requires LeavesDumps(files, after, run, "key", stamp)
    ensures !Succeeds(run) && !(Dumps(files) <= Dumps(after))
  {
    hide IsDump;
    StagingIsNoDump(b);
    assert Promotes(run);
    var promoted := Promoted(files, run, "key");
    assert promoted[a].modified == 0 && promoted[b].modified == 2 * DAY;
    assert Dumps(promoted) - {} == Dumps(promoted) == {a, b};
    assert Newer(Entry(promoted, b), Entry(promoted, a), stamp) && !Newer(Entry(promoted, a), Entry(promoted, a), stamp) by {
      NewerIsStrictTotal(Entry(promoted, a), Entry(promoted, a), stamp);
    }
    assert Ahead(promoted, {a, b}, a, stamp) == {b};
    assert Expired(promoted, {}, 1, 2 * DAY, stamp, a);
    assert a in Dumps(files) && a !in after;
  }

  // Whatever becomes of the run, a dump is afterwards what it was, or the new one,
  // which passed the drill.
  lemma NothingUnverifiedIsListed(files: Files, after: Files, run: Run, secret: Secret, stamp: Stamp, name: string)
    requires LeavesDumps(files, after, run, secret, stamp) && name in Dumps(after)
    ensures (name in files && after[name] == files[name])
         || (name == run.name && Drilled(after[name].blob, secret))
  {
    hide IsDump, Restorable, Expired;
    if Promotes(run) && name == run.name + STAGING {
      StagingIsNoDump(run.name);
    }
  }

  // A run that records a success has a drilled dump on the volume, provided it
  // prunes within a day of writing it.
  lemma RecordedSuccessIsStored(files: Files, after: Files, run: Run, secret: Secret, stamp: Stamp)
    requires IsDump(run.name) && LeavesDumps(files, after, run, secret, stamp)
    requires Promotes(run) && run.pruned < run.written + DAY
    ensures run.name in Dumps(after) && Drilled(after[run.name].blob, secret)
  {
    hide IsDump, Restorable;
  }
}
