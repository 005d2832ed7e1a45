// Newest-first order of backups, shared by the volume and the bucket
// (internal/backup/backup.go, sortNewestFirst). The stamp function stands for
// archiveTime: the time encoded in a name, when there is one.
module Ranking {
  import opened Wrappers
  import opened BackupDir

  // minRetention, in nanoseconds
  const DAY: Time := 24 * 60 * 60 * 1_000_000_000

  // time.Time's zero value
  const NO_TIME: Time := -62_135_596_800_000_000_000

  type Stamp = string -> Option<Time>

  datatype Listed = Listed(name: string, modified: Time)

  // Go's order on strings.
  predicate Less(a: string, b: string) {
    if a == [] then b != []
    else if b == [] then false
    else if a[0] != b[0] then a[0] < b[0]
    else Less(a[1..], b[1..])
  }

  function At(f: Listed, stamp: Stamp): Time {
    match stamp(f.name)
    case Some(t) => t
    case None => f.modified
  }

  predicate Newer(f: Listed, g: Listed, stamp: Stamp) {
    if At(f, stamp) != At(g, stamp) then At(f, stamp) > At(g, stamp) else Less(g.name, f.name)
  }

  // The first difference decides; of two strings without one, the shorter is less.
  lemma {:induction false} FirstDifferenceDecides(prefix: string, a: string, b: string)
    requires a != [] && b != [] ==> a[0] != b[0]
    ensures Less(prefix + a, prefix + b) <==> b != [] && (a == [] || a[0] < b[0])
  {
    if prefix == [] {
      assert prefix + a == a && prefix + b == b;
    } else {
      FirstDifferenceDecides(prefix[1..], a, b);
      assert (prefix + a)[1..] == prefix[1..] + a && (prefix + b)[1..] == prefix[1..] + b;
    }
  }

  lemma {:induction false} LessTransitive(a: string, b: string, c: string)
    requires Less(a, b) && Less(b, c)
    ensures Less(a, c)
  {
    if a != [] && a[0] == b[0] == c[0] {
      LessTransitive(a[1..], b[1..], c[1..]);
    }
  }

  lemma {:induction false} LessIsStrictTotal(a: string, b: string)
    ensures !(Less(a, b) && Less(b, a))
    ensures Less(a, b) || Less(b, a) || a == b
    ensures !Less(a, a)
  {
    if a != [] {
      LessIsStrictTotal(a[1..], if b == [] then [] else b[1..]);
    }
    if a != [] && b != [] && a[0] == b[0] && a[1..] == b[1..] {
      assert a == [a[0]] + a[1..] && b == [b[0]] + b[1..];
    }
  }

  // Newer orders backups of different names strictly and totally.
  lemma NewerTransitive(f: Listed, g: Listed, h: Listed, stamp: Stamp)
    requires Newer(f, g, stamp) && Newer(g, h, stamp)
    ensures Newer(f, h, stamp)
  {
    if At(f, stamp) == At(g, stamp) == At(h, stamp) {
      LessTransitive(h.name, g.name, f.name);
    }
  }

  lemma NewerIsStrictTotal(f: Listed, g: Listed, stamp: Stamp)
    ensures !(Newer(f, g, stamp) && Newer(g, f, stamp))
    ensures Newer(f, g, stamp) || Newer(g, f, stamp) || f.name == g.name
    ensures f.name == g.name && f.modified == g.modified ==> !Newer(f, g, stamp)
  {
    LessIsStrictTotal(f.name, g.name);
  }

  ghost predicate Distinct(s: seq<Listed>) {
    forall i, j :: 0 <= i < j < |s| ==> s[i].name != s[j].name
  }

  ghost predicate Ordered(s: seq<Listed>, stamp: Stamp) {
    forall i, j :: 0 <= i < j < |s| ==> Newer(s[i], s[j], stamp)
  }

  // sort.SliceStable with the comparison above.
  function Insert(f: Listed, s: seq<Listed>, stamp: Stamp): (r: seq<Listed>)
    ensures multiset(r) == multiset([f]) + multiset(s)
  {
    if s == [] then [f]
    else if Newer(s[0], f, stamp) then
      assert s == [s[0]] + s[1..];
      [s[0]] + Insert(f, s[1..], stamp)
    else [f] + s
  }

  function SortNewestFirst(s: seq<Listed>, stamp: Stamp): (r: seq<Listed>)
    ensures multiset(r) == multiset(s)
  {
    if s == [] then [] else
      assert s == [s[0]] + s[1..];
      Insert(s[0], SortNewestFirst(s[1..], stamp), stamp)
  }

  lemma {:induction false} InsertOrdered(f: Listed, s: seq<Listed>, stamp: Stamp)
    requires Ordered(s, stamp) && forall g :: g in s ==> g.name != f.name
    ensures Ordered(Insert(f, s, stamp), stamp)
  {
    hide Newer;
    if s != [] {
      NewerIsStrictTotal(f, s[0], stamp);
      if Newer(s[0], f, stamp) {
        InsertOrdered(f, s[1..], stamp);
        var r := Insert(f, s[1..], stamp);
        forall k | 0 <= k < |r| ensures Newer(s[0], r[k], stamp) {
          assert r[k] in multiset(r);
          assert r[k] == f || r[k] in s[1..];
        }
      } else {
        forall k | 0 < k < |s| ensures Newer(f, s[k], stamp) {
          NewerTransitive(f, s[0], s[k], stamp);
        }
      }
    }
  }

  lemma {:induction false} InsertDistinct(f: Listed, s: seq<Listed>, stamp: Stamp)
    requires Distinct(s) && forall g :: g in s ==> g.name != f.name
    ensures Distinct(Insert(f, s, stamp))
  {
    hide Newer;
    if s != [] && Newer(s[0], f, stamp) {
      InsertDistinct(f, s[1..], stamp);
      var r := Insert(f, s[1..], stamp);
      forall k | 0 <= k < |r| ensures s[0].name != r[k].name {
        assert r[k] in multiset(r);
        assert r[k] == f || r[k] in s[1..];
      }
    }
  }

  lemma {:induction false} SortedNewestFirst(s: seq<Listed>, stamp: Stamp)
    requires Distinct(s)
    ensures Distinct(SortNewestFirst(s, stamp)) && Ordered(SortNewestFirst(s, stamp), stamp)
  {
    hide Newer, Insert;
    if s != [] {
      var rest := SortNewestFirst(s[1..], stamp);
      SortedNewestFirst(s[1..], stamp);
      forall g | g in rest ensures g.name != s[0].name {
        assert g in multiset(rest);
        assert g in s[1..];
      }
      InsertOrdered(s[0], rest, stamp);
      InsertDistinct(s[0], rest, stamp);
    }
  }

  // What comes first in such a list: the time in the name, where there is one, whatever
  // the modification times; without one the modification time; and of two equal times
  // the name that is not less.
  lemma OrderedByStamps(list: seq<Listed>, stamp: Stamp, i: nat, j: nat)
    requires Distinct(list) && Ordered(list, stamp) && i < |list| && j < |list| && i != j
    ensures var f, g := list[i], list[j];
      i < j <==>
        match (stamp(f.name), stamp(g.name))
        case (Some(t), Some(u)) => t > u || (t == u && Less(g.name, f.name))
        case (Some(t), None) => t > g.modified || (t == g.modified && Less(g.name, f.name))
        case (None, Some(u)) => f.modified > u || (f.modified == u && Less(g.name, f.name))
        case (None, None) => f.modified > g.modified || (f.modified == g.modified && Less(g.name, f.name))
  {
    hide Less;
    NewerIsStrictTotal(list[i], list[j], stamp);
  }
}
