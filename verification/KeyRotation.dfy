// Re-encrypting every dump under a new key (internal/backup/rotate.go). How every
// operation on a dump goes, and where the process stops, is an input.
module KeyRotation {
  import opened Wrappers
  import opened Archive
  import opened BackupDir

  type Files = map<string, File>

  // What rotation may leave in place of a file: the original, or bytes that open
  // under the current key to what the original held under the previous one.
  ghost predicate Preserved(before: File, after: File, previous: Secret, current: Secret) {
    || after == before
    || (Decrypt(before.blob, previous).Some? && Decrypt(after.blob, current) == Decrypt(before.blob, previous)
        && after.blob.version == 2)
  }

  ghost predicate Safe(before: Files, after: Files, previous: Secret, current: Secret) {
    && Dumps(after) == Dumps(before)
    && forall name :: name in Dumps(before) ==> Preserved(before[name], after[name], previous, current)
  }

  // Still under the previous key, and able to pass the check after re-encryption.
  predicate Rotatable(blob: Blob, previous: Secret, current: Secret) {
    Decrypt(blob, current).None? && Decrypt(blob, previous).Some? && Restorable(Decrypt(blob, previous).value)
  }

  // The keys and the memory budget of a run.
  datatype Job = Job(previous: Secret, current: Secret, maxBytes: nat)

  // The handling of one dump: how reading, the check, the staging write, the rename and
  // the cleanup after a failed one go, and whether the process stops before or after the
  // rename.
  datatype FileRun = FileRun(read: Fault, checkFails: bool, write: Writing, stopBefore: bool, rename: Fault, stopAfter: bool,
                             cleanup: Fault)

  const CLEAN := FileRun(Works, false, Writing(Works, Works, Works, None), false, Works, false, Works)

  // It gets as far as the staging file, and as far as the rename.
  predicate Stages(file: File, run: FileRun, job: Job) {
    run.read.Works? && Size(file.blob) <= job.maxBytes && Rotatable(file.blob, job.previous, job.current) && !run.checkFails
  }

  predicate Renames(file: File, run: FileRun, job: Job) {
    && Stages(file, run, job) && !run.stopBefore
    && Replaces(run.write) && run.write.rename.Works? && !Halts(run.write)
  }

  datatype Outcome = Rotated | Skipped | Stopped

  // The dump is replaced, it is reported as rotated, the process stops.
  predicate Turns(file: File, run: FileRun, job: Job) { Renames(file, run, job) && !run.rename.Fails? }

  predicate Reports(file: File, run: FileRun, job: Job) { Renames(file, run, job) && run.rename.Works? && !run.stopAfter }

  predicate Stops(file: File, run: FileRun, job: Job) {
    Stages(file, run, job) && (Halts(run.write) || run.stopBefore || (Renames(file, run, job) && run.stopAfter))
  }

  // What handling one dump does to the directory and reports, exactly.
  ghost predicate Handled(before: Files, after: Files, name: string, outcome: Outcome, run: FileRun, job: Job)
    requires name in Dumps(before)
  {
    && Safe(before, after, job.previous, job.current)
    && (forall other :: other in Dumps(before) && other != name ==> after[other] == before[other])
    && (after[name] != before[name] <==> Turns(before[name], run, job))
    && (outcome.Rotated? <==> Reports(before[name], run, job))
    && (outcome.Stopped? <==> Stops(before[name], run, job))
    && (Turns(before[name], run, job) ==> Drilled(after[name].blob, job.current))
  }

  // The body of the loop for one dump.
  method RotateFile(dir: Dir, name: string, job: Job, run: FileRun, nonce: nat, now: Time) returns (outcome: Outcome)
    requires name in Dumps(dir.files)
    modifies dir
    ensures Handled(old(dir.files), dir.files, name, outcome, run, job)
    // A dump reported as skipped has been replaced exactly if everything up to the rename
    // works and the rename takes effect before it reports an error.
    ensures outcome.Skipped? && dir.files[name] != old(dir.files)[name] <==>
      Renames(old(dir.files)[name], run, job) && run.rename.AppliesThenFails? && !run.stopAfter
  {
    hide IsDump, Restorable, Size, Halts, Replaces;
    ghost var before := dir.files;
    var enc := dir.Read(name, run.read);
    enc := Within(enc, job.maxBytes);
    if enc.None? {
      return Skipped;
    }
    if Decrypt(enc.value, job.current).Some? {
      return Skipped;  // a previous run got this far
    }
    var raw := Decrypt(enc.value, job.previous);
    if raw.None? {
      return Skipped;
    }
    var reenc := Encrypt(raw.value, job.current, nonce);
    if run.checkFails || !Drilled(reenc, job.current) {
      return Skipped;
    }
    assert Stages(before[name], run, job);
    var staging := name + STAGING;
    var end := dir.WriteFileAtomic(staging, reenc, now, run.write);
    ghost var temp := TempName(before.Keys + {staging}, staging);
    StagedBeside(before, dir.files, name, staging, temp, File(reenc, now));
    if end.Halted? || run.stopBefore {
      return Stopped;
    }
    if end.Failed? {
      return Skipped;
    }
    ghost var staged := dir.files;
    var ok := dir.Rename(staging, name, run.rename);
    RenamedOver(before, staged, dir.files, name, staging, File(reenc, now), run.rename, job);
    if run.stopAfter {
      return Stopped;
    }
    if !ok {
      ghost var renamed := dir.files;
      var _ := dir.Remove(staging, run.cleanup);
      StagingIsNoDump(name);
      assert Dumps(dir.files) == Dumps(renamed);
      return Skipped;
    }
    return Rotated;
  }

  // A staging write changes no dump.
  lemma StagedBeside(before: Files, after: Files, name: string, staging: string, temp: string, file: File)
    requires name in Dumps(before) && staging == name + STAGING && temp == TempName(before.Keys + {staging}, staging)
    requires after - {temp} == before || after - {temp} == before[staging := file]
    ensures Dumps(after) == Dumps(before) && forall other :: other in Dumps(before) ==> after[other] == before[other]
    ensures after - {temp} == before[staging := file] ==> staging in after && after[staging] == file
  {
    hide IsDump;
    StagingIsNoDump(name);
    TempIsNoDump(temp);
    assert forall other :: other != temp && other in after ==> other in after - {temp} && (after - {temp})[other] == after[other];
    assert forall other :: other in after - {temp} ==> other in after;
    assert temp !in before && temp != staging;
  }

  lemma RenamedOver(before: Files, staged: Files, after: Files, name: string, staging: string, file: File, fault: Fault, job: Job)
    requires name in Dumps(before) && staging == name + STAGING && staging in staged && staged[staging] == file
    requires Dumps(staged) == Dumps(before) && forall other :: other in Dumps(before) ==> staged[other] == before[other]
    requires after == if fault.Fails? then staged else (staged - {staging})[name := file]
    requires Rotatable(before[name].blob, job.previous, job.current)
    requires file.blob.Sealed? && Decrypt(file.blob, job.current) == Decrypt(before[name].blob, job.previous) && file.blob.version == 2
    ensures Safe(before, after, job.previous, job.current)
    ensures forall other :: other in Dumps(before) && other != name ==> after[other] == before[other]
    ensures after[name] == (if fault.Fails? then before[name] else file) && (after[name] != before[name] <==> !fault.Fails?)
  {
    hide IsDump, Restorable;
    StagingIsNoDump(name);
    assert Dumps(after) == Dumps(staged);
  }

  // stopped: the process died before the report; failed: no dump could be rotated.
  datatype Report = Refused | Report(rotated: seq<string>, skipped: seq<string>, stopped: bool, failed: bool)

  method RotateKey(dir: Dir, current: Option<Secret>, previous: Secret, maxBytes: nat, workFree: bool, runs: string -> FileRun,
                   now: Time)
    returns (report: Report)
    modifies dir
    ensures report.Refused? <==> !workFree || current.None? || previous == "" || previous == current.value
    ensures report.Refused? ==> dir.files == old(dir.files)
    ensures report.Report? ==> Safe(old(dir.files), dir.files, previous, current.value)
    ensures report.Report? ==> (report.stopped <==> StopsAny(old(dir.files), runs, Job(previous, current.value, maxBytes)))
    ensures report.Report? && !report.stopped ==>
      multiset(report.rotated) + multiset(report.skipped) == multiset(Dumps(old(dir.files)))
    ensures report.Report? && !report.stopped ==> (report.failed <==> report.rotated == [] && report.skipped != [])
    // Each dump on its own: when it is reported as rotated, and when it is replaced.
    ensures report.Report? && !report.stopped ==> forall name :: name in Dumps(old(dir.files)) ==>
      Settled(old(dir.files), dir.files, name, name in report.rotated, runs(name), Job(previous, current.value, maxBytes))
    ensures report.Report? && !report.stopped ==> forall name :: name in Dumps(old(dir.files)) ==>
      (name in report.skipped && dir.files[name] != old(dir.files)[name] <==>
         Renames(old(dir.files)[name], runs(name), Job(previous, current.value, maxBytes)) && runs(name).rename.AppliesThenFails?)
    ensures report.Report? ==> forall name :: name in report.rotated ==>
      name in Dumps(old(dir.files)) && name in Dumps(dir.files)
      && Settled(old(dir.files), dir.files, name, true, runs(name), Job(previous, current.value, maxBytes))
  {
    hide Settled, IsDump, Handled, Safe, Stops;
    if !workFree || current.None? || previous == "" || previous == current.value {
      return Refused;
    }
    var job := Job(previous, current.value, maxBytes);
    ghost var before := dir.files;
    var names := dir.Glob();
    var rotated: seq<string>, skipped: seq<string> := [], [];
    StartsRotation(before, names, runs, job);
    for i := 0 to |names|
      invariant Progress(before, dir.files, names, i, rotated, skipped, runs, job)
    {
      var name := names[i];
      ghost var files := dir.files;
      NextName(before, files, names, i, rotated, skipped, runs, job);
      var outcome := RotateFile(dir, name, job, runs(name), i, now);
      ProgressStep(before, files, dir.files, names, i, rotated, skipped, outcome, runs, job);
      match outcome {
        case Rotated => rotated := rotated + [name];
        case Skipped => skipped := skipped + [name];
        case Stopped => return Report(rotated, skipped, true, false);
      }
    }
    AllSettled(before, dir.files, names, rotated, skipped, runs, job);
    return Report(rotated, skipped, false, rotated == [] && skipped != []);
  }

  ghost predicate StopsAny(files: Files, runs: string -> FileRun, job: Job) {
    exists name :: name in Dumps(files) && Stops(files[name], runs(name), job)
  }

  // One dump after the run.
  ghost predicate Settled(before: Files, files: Files, name: string, rotated: bool, run: FileRun, job: Job) {
    && name in before && name in files
    && (rotated <==> Reports(before[name], run, job))
    && (files[name] != before[name] <==> Turns(before[name], run, job))
    && (Turns(before[name], run, job) ==> Drilled(files[name].blob, job.current))
  }

  // The first i names are handled, the others untouched.
  ghost predicate Progress(before: Files, files: Files, names: seq<string>, i: nat,
                           rotated: seq<string>, skipped: seq<string>, runs: string -> FileRun, job: Job)
  {
    && i <= |names| && EachDumpOnce(before, names)
    && Safe(before, files, job.previous, job.current)
    && (forall k :: i <= k < |names| ==> names[k] in files && files[names[k]] == before[names[k]])
    && multiset(rotated) + multiset(skipped) == multiset(names[..i])
    && (forall k {:trigger names[k]} :: 0 <= k < i ==>
          Settled(before, files, names[k], names[k] in rotated, runs(names[k]), job)
          && !Stops(before[names[k]], runs(names[k]), job))
  }

  ghost predicate EachDumpOnce(before: Files, names: seq<string>) {
    && (forall k :: 0 <= k < |names| ==> names[k] in before && names[k] in Dumps(before))
    && (forall k, l :: 0 <= k < l < |names| ==> names[k] != names[l])
    && (forall name :: name in Dumps(before) ==> name in names)
  }

  lemma StartsRotation(before: Files, names: seq<string>, runs: string -> FileRun, job: Job)
    requires forall name :: name in names <==> name in Dumps(before)
    requires forall k, l :: 0 <= k < l < |names| ==> names[k] != names[l]
    ensures Progress(before, before, names, 0, [], [], runs, job)
  {
    hide IsDump, Settled, Stops;
    forall k | 0 <= k < |names| ensures names[k] in before && names[k] in Dumps(before) {
      assert names[k] in names;
    }
  }

  lemma NextName(before: Files, files: Files, names: seq<string>, i: nat, rotated: seq<string>, skipped: seq<string>,
                 runs: string -> FileRun, job: Job)
    requires Progress(before, files, names, i, rotated, skipped, runs, job) && i < |names|
    ensures names[i] in Dumps(before) && names[i] in Dumps(files)
  {
    hide IsDump, Settled, Stops, Preserved;
  }

  lemma SafeStep(before: Files, files: Files, after: Files, name: string, outcome: Outcome, run: FileRun, job: Job)
    requires Safe(before, files, job.previous, job.current) && name in Dumps(before) && name in Dumps(files)
    requires files[name] == before[name] && Handled(files, after, name, outcome, run, job)
    ensures Safe(before, after, job.previous, job.current)
    ensures name in after && Settled(before, after, name, outcome.Rotated?, run, job)
    ensures outcome.Stopped? <==> Stops(before[name], run, job)
    ensures forall other :: other in Dumps(before) && other != name ==> other in files && other in after && after[other] == files[other]
  {
    hide Preserved, Rotatable, Drilled, Turns, Reports, Stops;
  }

  lemma ProgressStep(before: Files, files: Files, after: Files, names: seq<string>, i: nat, rotated: seq<string>, skipped: seq<string>,
                     outcome: Outcome, runs: string -> FileRun, job: Job)
    requires i < |names| && Progress(before, files, names, i, rotated, skipped, runs, job)
    requires names[i] in Dumps(files) && Handled(files, after, names[i], outcome, runs(names[i]), job)
    ensures outcome.Rotated? ==> Progress(before, after, names, i + 1, rotated + [names[i]], skipped, runs, job)
    ensures outcome.Skipped? ==> Progress(before, after, names, i + 1, rotated, skipped + [names[i]], runs, job)
    ensures outcome.Stopped? ==> StoppedHere(before, after, names, i, rotated, skipped, runs, job)
  {
    hide Safe, Settled, Handled, Dumps, Stops;
    var name := names[i];
    assert name in Dumps(before) && files[name] == before[name];
    SafeStep(before, files, after, name, outcome, runs(name), job);
    Reported(names, i, rotated, skipped);
    forall k | i < k < |names| ensures names[k] in after && after[names[k]] == before[names[k]] {
      assert names[k] in Dumps(before) && names[k] != name;
    }
    forall k | 0 <= k < i ensures Settled(before, after, names[k], names[k] in rotated, runs(names[k]), job) {
      assert names[k] in Dumps(before) && names[k] != name;
      SettledLater(before, files, after, names[k], names[k] in rotated, runs(names[k]), job);
    }
    if outcome.Stopped? {
      StopsThere(before, after, names, i, rotated, skipped, runs, job);
    }
  }

  // The process stopped while it handled this name.
  ghost predicate StoppedHere(before: Files, after: Files, names: seq<string>, i: nat, rotated: seq<string>, skipped: seq<string>,
                              runs: string -> FileRun, job: Job)
  {
    && Safe(before, after, job.previous, job.current)
    && StopsAny(before, runs, job)
    && (forall name :: name in rotated ==>
          name in Dumps(before) && name in Dumps(after) && Settled(before, after, name, true, runs(name), job))
  }

  lemma StopsThere(before: Files, after: Files, names: seq<string>, i: nat, rotated: seq<string>, skipped: seq<string>,
                   runs: string -> FileRun, job: Job)
    requires i < |names| && EachDumpOnce(before, names) && Safe(before, after, job.previous, job.current)
    requires Stops(before[names[i]], runs(names[i]), job)
    requires multiset(rotated) + multiset(skipped) == multiset(names[..i])
    requires forall k {:trigger names[k]} :: 0 <= k < i ==>
      Settled(before, after, names[k], names[k] in rotated, runs(names[k]), job)
    ensures StoppedHere(before, after, names, i, rotated, skipped, runs, job)
  {
    hide Settled, Stops, IsDump, Preserved;
    forall name | name in rotated
      ensures name in Dumps(before) && name in Dumps(after) && Settled(before, after, name, true, runs(name), job)
    {
      assert name in multiset(rotated) && name in multiset(names[..i]);
      var k :| 0 <= k < i && names[..i][k] == name;
      assert names[k] == name;
    }
  }

  lemma SettledLater(before: Files, files: Files, after: Files, other: string, rotated: bool, run: FileRun, job: Job)
    requires Settled(before, files, other, rotated, run, job) && other in files && other in after && after[other] == files[other]
    ensures Settled(before, after, other, rotated, run, job)
  {
    hide Turns, Reports, Drilled;
  }

  lemma AllSettled(before: Files, files: Files, names: seq<string>, rotated: seq<string>, skipped: seq<string>,
                   runs: string -> FileRun, job: Job)
    requires Progress(before, files, names, |names|, rotated, skipped, runs, job)
    ensures Safe(before, files, job.previous, job.current)
    ensures multiset(rotated) + multiset(skipped) == multiset(Dumps(before))
    ensures forall name :: name in Dumps(before) ==>
      Settled(before, files, name, name in rotated, runs(name), job) && !Stops(before[name], runs(name), job)
    ensures forall name :: name in rotated ==> name in Dumps(before) && name in Dumps(files)
    ensures forall name :: name in Dumps(before) ==>
      (name in skipped && files[name] != before[name] <==> Renames(before[name], runs(name), job) && runs(name).rename.AppliesThenFails?)
  {
    hide Settled, Stops, IsDump, Preserved, Renames;
    assert names[..|names|] == names;
    forall name | name in Dumps(before)
      ensures Settled(before, files, name, name in rotated, runs(name), job) && !Stops(before[name], runs(name), job)
    {
      var k :| 0 <= k < |names| && names[k] == name;
    }
    forall name ensures name in names <==> name in Dumps(before) {
      if name in names {
        var k :| 0 <= k < |names| && names[k] == name;
      }
    }
    EachOnce(names, Dumps(before));
    forall name | name in rotated ensures name in Dumps(before) && name in Dumps(files) {
      assert name in multiset(rotated) && name in multiset(names);
      assert name in names;
    }
    forall name | name in Dumps(before)
      ensures name in skipped && files[name] != before[name] <==>
        Renames(before[name], runs(name), job) && runs(name).rename.AppliesThenFails?
    {
      InOneOfTwo(rotated, skipped, Dumps(before), name);
      SkippedExactly(before, files, name, name in rotated, runs(name), job);
    }
  }

  lemma InOneOfTwo(rotated: seq<string>, skipped: seq<string>, all: set<string>, name: string)
    requires multiset(rotated) + multiset(skipped) == multiset(all) && name in all
    ensures name in skipped <==> name !in rotated
  {
    assert (multiset(rotated) + multiset(skipped))[name] == multiset(all)[name] == 1;
    assert name in skipped <==> name in multiset(skipped);
    assert name in rotated <==> name in multiset(rotated);
  }

  lemma SkippedExactly(before: Files, files: Files, name: string, rotated: bool, run: FileRun, job: Job)
    requires Settled(before, files, name, rotated, run, job) && !Stops(before[name], run, job)
    ensures !rotated && files[name] != before[name] <==> Renames(before[name], run, job) && run.rename.AppliesThenFails?
  {
    hide Drilled, Rotatable, Size;
  }

  // The next name is new to the report, and joins it.
  lemma Reported(names: seq<string>, i: nat, rotated: seq<string>, skipped: seq<string>)
    requires i < |names| && forall k, l :: 0 <= k < l < |names| ==> names[k] != names[l]
    requires multiset(rotated) + multiset(skipped) == multiset(names[..i])
    ensures names[i] !in rotated
    ensures multiset(rotated + [names[i]]) + multiset(skipped) == multiset(names[..i + 1])
    ensures multiset(rotated) + multiset(skipped + [names[i]]) == multiset(names[..i + 1])
  {
    assert names[..i + 1] == names[..i] + [names[i]];
    assert names[i] !in multiset(names[..i]);
    assert names[i] !in multiset(rotated);
  }

  lemma {:induction false} EachOnce(names: seq<string>, all: set<string>)
    requires forall name :: name in names <==> name in all
    requires forall i, j :: 0 <= i < j < |names| ==> names[i] != names[j]
    ensures multiset(names) == multiset(all)
  {
    if names != [] {
      var init, last := names[..|names| - 1], names[|names| - 1];
      assert names == init + [last];
      EachOnce(init, all - {last});
    }
  }

  // Runs add up: what several runs leave is still the original or opens under the
  // current key to the same dump.
  lemma SafeTransitive(a: Files, b: Files, c: Files, previous: Secret, current: Secret)
    requires previous != current && Safe(a, b, previous, current) && Safe(b, c, previous, current)
    ensures Safe(a, c, previous, current)
  {
    forall name | name in Dumps(a) ensures Preserved(a[name], c[name], previous, current) {
      assert Preserved(a[name], b[name], previous, current) && Preserved(b[name], c[name], previous, current);
    }
  }

  // An interrupted rotation is finished by one undisturbed run: afterwards nothing
  // within the budget is left to rotate, and a third run rotates no file.
  method ResumeRotation(dir: Dir, current: Secret, previous: Secret, maxBytes: nat, runs: string -> FileRun, now: Time)
    returns (first: Report, second: Report, third: Report)
    requires previous != "" && previous != current
    modifies dir
    ensures Safe(old(dir.files), dir.files, previous, current)
    ensures forall name :: name in Dumps(dir.files) ==> !Stages(dir.files[name], CLEAN, Job(previous, current, maxBytes))
    ensures third.Report? && !third.stopped && forall name :: name !in third.rotated
    ensures forall name :: name in Dumps(old(dir.files)) && Stages(old(dir.files)[name], CLEAN, Job(previous, current, maxBytes)) ==>
      Decrypt(dir.files[name].blob, current) == Decrypt(old(dir.files)[name].blob, previous)
  {
    hide IsDump, Size, Safe, Settled;
    ghost var job := Job(previous, current, maxBytes);
    ghost var before := dir.files;
    first := RotateKey(dir, Some(current), previous, maxBytes, true, runs, now);
    ghost var partial := dir.files;
    second := RotateKey(dir, Some(current), previous, maxBytes, true, _ => CLEAN, now);
    ghost var done := dir.files;
    SafeTransitive(before, partial, done, previous, current);
    NeverStops(partial, job);
    NothingLeftToDo(partial, done, job, second.rotated);
    third := RotateKey(dir, Some(current), previous, maxBytes, true, _ => CLEAN, now);
    NeverStops(done, job);
    NothingDone(done, dir.files, third.rotated, job);
    SafeTransitive(before, done, dir.files, previous, current);
    NothingLeft(before, dir.files, job);
  }

  lemma NeverStops(files: Files, job: Job)
    ensures forall name :: name in Dumps(files) ==> !Stops(files[name], CLEAN, job)
  {}

  lemma NothingLeftToDo(partial: Files, done: Files, job: Job, rotated: seq<string>)
    requires Safe(partial, done, job.previous, job.current) && job.previous != job.current
    requires forall name :: name in Dumps(partial) ==> Settled(partial, done, name, name in rotated, CLEAN, job)
    ensures forall name :: name in Dumps(done) ==> !Stages(done[name], CLEAN, job)
  {
    hide IsDump, Size, Restorable, Preserved;
    forall name | name in Dumps(done) ensures !Stages(done[name], CLEAN, job) {
      assert name in Dumps(partial) && Settled(partial, done, name, name in rotated, CLEAN, job);
    }
  }

  lemma NothingDone(done: Files, after: Files, rotated: seq<string>, job: Job)
    requires Safe(done, after, job.previous, job.current)
    requires forall name :: name in Dumps(done) ==> !Stages(done[name], CLEAN, job)
    requires forall name :: name in Dumps(done) ==> Settled(done, after, name, name in rotated, CLEAN, job)
    requires forall name :: name in rotated ==> name in Dumps(done)
    ensures forall name :: name !in rotated
    ensures forall name :: name in Dumps(after) ==> !Stages(after[name], CLEAN, job)
  {
    hide IsDump, Stages, Preserved;
    forall name | name in Dumps(done) ensures name !in rotated && after[name] == done[name] {
      assert Settled(done, after, name, name in rotated, CLEAN, job);
    }
  }

  lemma NothingLeft(before: Files, after: Files, job: Job)
    requires Safe(before, after, job.previous, job.current)
    requires forall name :: name in Dumps(after) ==> !Stages(after[name], CLEAN, job)
    ensures forall name :: name in Dumps(before) && Stages(before[name], CLEAN, job) ==>
      Decrypt(after[name].blob, job.current) == Decrypt(before[name].blob, job.previous)
  {
    hide IsDump, Stages;
    forall name | name in Dumps(before) && Stages(before[name], CLEAN, job)
      ensures Decrypt(after[name].blob, job.current) == Decrypt(before[name].blob, job.previous)
    {
      assert Preserved(before[name], after[name], job.previous, job.current);
    }
  }

  // ----- what the report and the budget do not say ---------------------------

  // A skipped dump that has been re-encrypted: its rename takes effect, and syncing the
  // directory after it fails.
  method SkippedButRotated(name: string, plain: Plain, current: Secret, previous: Secret, now: Time)
    returns (report: Report, left: map<string, File>)
    requires IsDump(name) && Restorable(plain) && previous != "" && previous != current
    ensures report == Report([], [name], false, true)
    ensures name in left && Decrypt(left[name].blob, previous).None? && Decrypt(left[name].blob, current) == Some(plain)
  {
    hide IsDump, Restorable, Size;
    var file := File(Sealed(2, previous, 0, plain), now);
    var dir := new Dir(map[name := file]);
    var maxBytes := Size(file.blob);
    var run := CLEAN.(rename := AppliesThenFails);
    report := RotateKey(dir, Some(current), previous, maxBytes, true, _ => run, now);
    assert Dumps(map[name := file]) == {name};
    assert Renames(file, run, Job(previous, current, maxBytes));
    OnlyOne(report.rotated, report.skipped, name);
    left := dir.files;
  }

  lemma OnlyOne(rotated: seq<string>, skipped: seq<string>, name: string)
    requires multiset(rotated) + multiset(skipped) == multiset{name}
    ensures name !in rotated ==> rotated == [] && skipped == [name]
  {
    assert |multiset(rotated) + multiset(skipped)| == 1;
    assert forall other :: other in rotated ==> other in multiset(rotated);
    if name !in rotated && skipped != [] {
      assert skipped[0] in multiset(skipped);
    }
  }

  // A replaced dump is read under the budget exactly if its own size fits, with a salt
  // added when the original had none.
  lemma ReadableAfterRotation(before: File, after: File, job: Job)
    requires Preserved(before, after, job.previous, job.current) && after != before
    ensures Within(Some(after.blob), job.maxBytes).Some? <==>
      Size(before.blob) + (if before.blob.version == 1 then SALT else 0) <= job.maxBytes
  {}

  // So a dump in the old format can be read before the rotation and not after it.
  method RotationOutgrowsBudget(name: string, plain: Plain, current: Secret, previous: Secret, now: Time)
    returns (report: Report, maxBytes: nat, was: Blob, left: map<string, File>)
    requires IsDump(name) && Restorable(plain) && previous != "" && previous != current
    ensures report.Report? && report.rotated == [name] && Within(Some(was), maxBytes) == Some(was)
    ensures Decrypt(was, previous) == Some(plain) && name in left && Within(Some(left[name].blob), maxBytes).None?
  {
    hide IsDump, Restorable;
    was := Sealed(1, previous, 0, plain);
    var file := File(was, now);
    var dir := new Dir(map[name := file]);
    maxBytes := Size(was);
    report := RotateKey(dir, Some(current), previous, maxBytes, true, _ => CLEAN, now);
    assert Dumps(map[name := file]) == {name};
    assert Renames(file, CLEAN, Job(previous, current, maxBytes));
    OnlyRotated(report.rotated, report.skipped, name);
    left := dir.files;
    ReadableAfterRotation(file, left[name], Job(previous, current, maxBytes));
  }

  lemma OnlyRotated(rotated: seq<string>, skipped: seq<string>, name: string)
    requires multiset(rotated) + multiset(skipped) == multiset{name}
    ensures name in rotated ==> rotated == [name]
  {
    assert |multiset(rotated) + multiset(skipped)| == 1;
    if name in rotated {
      assert |multiset(rotated)| == |rotated| == 1;
      assert rotated[0] in multiset(rotated);
    }
  }
}
