// The backup directory: files that change only by atomic renames, and the
// listing of the dumps in it (internal/backup/backup.go, writeFileAtomic and List;
// internal/backup/durability.go). Every operation may fail; a rename may also report
// an error after taking effect, when syncing the directory fails.
module BackupDir {
  import opened Wrappers
  import opened Archive

  type Time = int

  datatype File = File(blob: Blob, modified: Time)

  const STAGING := ".staging"

  // The glob treckrr-*.dump.enc
  predicate IsDump(name: string) {
    |name| >= 17 && "treckrr-" <= name && name[|name| - 9..] == ".dump.enc"
  }

  lemma StagingIsNoDump(name: string)
    requires IsDump(name)
    ensures !IsDump(name + STAGING) && name + STAGING != name
  {
    var s := name + STAGING;
    assert s[|s| - 9..][8] == 'g';
    assert ".dump.enc"[8] == 'c';
  }

  function Dumps(files: map<string, File>): (r: set<string>)
    ensures forall name :: name in r <==> name in files && IsDump(name)
  {
    set name | name in files && IsDump(name)
  }

  // How one file operation goes: it works, it fails before having any effect, or
  // it takes effect and still reports an error.
  datatype Fault = Works | Fails | AppliesThenFails

  // os.CreateTemp: a new name beside base, and never a dump's.
  function TempName(taken: set<string>, base: string): (r: string)
    ensures r !in taken && |r| > |base| && r[|r| - 1] == 'p'
    decreases |taken|
  {
    var name := base + ".tmp";
    if name in taken then TempName(taken - {name}, name) else name
  }

  lemma TempIsNoDump(name: string)
    requires name != "" && name[|name| - 1] == 'p'
    ensures !IsDump(name)
  {
    assert ".dump.enc"[8] == 'c';
    if |name| >= 9 {
      assert name[|name| - 9..][8] == 'p';
    }
  }

  // One atomic write: how filling the temporary file, renaming it and removing it after
  // an error go, and after how many of these steps the process stops, if it does.
  datatype Writing = Writing(fill: Fault, rename: Fault, cleanup: Fault, stop: Option<nat>)

  datatype End = Done | Failed | Halted

  predicate StopsBy(w: Writing, step: nat) { w.stop.Some? && w.stop.value <= step }

  // The file gets its new content.
  predicate Replaces(w: Writing) { w.fill.Works? && !w.rename.Fails? && !StopsBy(w, 2) }

  predicate Halts(w: Writing) {
    StopsBy(w, 0) || (!w.fill.Fails? && StopsBy(w, 1)) || (w.fill.Works? && StopsBy(w, 3))
  }

  class Dir {
    var files: map<string, File>

    constructor (initial: map<string, File>)
      ensures files == initial
    {
      files := initial;
    }

    method Read(name: string, fault: Fault) returns (blob: Option<Blob>)
      ensures blob == if name in files && fault.Works? then Some(files[name].blob) else None
    {
      blob := if name in files && fault.Works? then Some(files[name].blob) else None;
    }

    // durableRename
    method Rename(source: string, target: string, fault: Fault) returns (ok: bool)
      requires source in files && source != target
      modifies this
      ensures files == if fault.Fails? then old(files) else (old(files) - {source})[target := old(files[source])]
      ensures ok <==> fault.Works?
    {
      if !fault.Fails? {
        files := (files - {source})[target := files[source]];
      }
      ok := fault.Works?;
    }

    method Remove(name: string, fault: Fault) returns (ok: bool)
      modifies this
      ensures files == if fault.Works? then old(files) - {name} else old(files)
      ensures ok <==> fault.Works?
    {
      if fault.Works? {
        files := files - {name};
      }
      ok := fault.Works?;
    }

    // Whatever fails and wherever the process stops, name has its old content or all of
    // the new, no other file changes, and at most a temporary file is left.
    method WriteFileAtomic(name: string, blob: Blob, now: Time, w: Writing) returns (end: End)
      modifies this
      ensures end.Done? <==> Replaces(w) && w.rename.Works? && !Halts(w)
      ensures end.Halted? <==> Halts(w)
      ensures var temp := TempName(old(files).Keys + {name}, name);
        && files - {temp} == (if Replaces(w) then old(files)[name := File(blob, now)] else old(files))
        && (temp in files ==> Halts(w) || !w.cleanup.Works?)
    {
      var temp := TempName(files.Keys + {name}, name);
      if StopsBy(w, 0) {
        return Halted;
      }
      if w.fill.Fails? {
        return Failed;
      }
      files := files[temp := File(Junk(""), now)];
      if StopsBy(w, 1) {
        return Halted;
      }
      if !w.fill.Works? {
        var _ := Remove(temp, w.cleanup);
        return Failed;
      }
      files := files[temp := File(blob, now)];
      if StopsBy(w, 2) {
        return Halted;
      }
      var ok := Rename(temp, name, w.rename);
      if StopsBy(w, 3) {
        return Halted;
      }
      if !ok {
        var _ := Remove(temp, w.cleanup);
        return Failed;
      }
      end := Done;
    }

    // The same without a stop, and with the temporary file removed after an error.
    method Write(name: string, blob: Blob, now: Time, fault: Fault) returns (ok: bool)
      modifies this
      ensures files == if fault.Fails? then old(files) else old(files)[name := File(blob, now)]
      ensures ok <==> fault.Works?
    {
      var end := WriteFileAtomic(name, blob, now, Writing(Works, fault, Works, None));
      ok := end.Done?;
    }

    // filepath.Glob: every dump once.
    method Glob() returns (names: seq<string>)
      ensures forall name :: name in names <==> name in Dumps(files)
      ensures forall i, j :: 0 <= i < j < |names| ==> names[i] != names[j]
    {
      names := [];
      var rest := Dumps(files);
      while rest != {}
        invariant rest <= Dumps(files)
        invariant forall name :: name in names <==> name in Dumps(files) && name !in rest
        invariant forall i, j :: 0 <= i < j < |names| ==> names[i] != names[j]
        decreases |rest|
      {
        var name :| name in rest;
        names := names + [name];
        rest := rest - {name};
      }
    }
  }

  // status.json, or the part of it that one operation writes.
  class StatusFile<T> {
    var value: T

    constructor (initial: T)
      ensures value == initial
    {
      value := initial;
    }

    method Update(next: T, fault: Fault) returns (ok: bool)
      modifies this
      ensures value == if fault.Fails? then old(value) else next
      ensures ok <==> fault.Works?
    {
      if !fault.Fails? {
        value := next;
      }
      ok := fault.Works?;
    }
  }
}
