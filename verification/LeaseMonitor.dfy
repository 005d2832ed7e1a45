// Watching the session that holds the application lease (internal/db/maintenance.go,
// monitor). Each tick either finds the lease in use by a restore and passes, or probes
// the session.
module LeaseMonitor {
  import opened Wrappers

  // closed: the session is known to be gone; canceled: the process is stopping.
  datatype Probe = Busy | Alive | Failed(closed: bool, canceled: bool)

  // Failures since the session last answered; skipped ticks do not count.
  function Streak(probes: seq<Probe>): nat {
    if probes == [] then 0
    else match probes[|probes| - 1]
         case Busy => Streak(probes[..|probes| - 1])
         case Alive => 0
         case Failed(_, _) => Streak(probes[..|probes| - 1]) + 1
  }

  // After these probes the lease counts as lost.
  predicate Lost(probes: seq<Probe>, maxFailures: int) {
    && probes != [] && probes[|probes| - 1].Failed? && !probes[|probes| - 1].canceled
    && (probes[|probes| - 1].closed || Streak(probes) >= maxFailures)
  }

  predicate LostAt(probes: seq<Probe>, i: nat, maxFailures: int) {
    i < |probes| && Lost(probes[..i + 1], maxFailures)
  }

  predicate Canceled(probe: Probe) { probe.Failed? && probe.canceled }

  function Allowance(limit: int): int { if limit < 1 then 1 else limit }

  // The tick at which the lease is reported lost: the first one, unless the process
  // is stopping before it. None is a normal return.
  ghost predicate FirstLoss(probes: seq<Probe>, maxFailures: int, r: Option<nat>) {
    match r
    case Some(i) =>
      && LostAt(probes, i, maxFailures)
      && forall k :: 0 <= k < i ==> !LostAt(probes, k, maxFailures) && !Canceled(probes[k])
    case None =>
      forall k :: LostAt(probes, k, maxFailures) ==> exists j :: 0 <= j < k && Canceled(probes[j])
  }

  method Monitor(probes: seq<Probe>, limit: int) returns (r: Option<nat>)
    ensures FirstLoss(probes, Allowance(limit), r)
  {
    var maxFailures := Allowance(limit);
    var failures := 0;
    for i := 0 to |probes|
      invariant failures == Streak(probes[..i])
      invariant forall k :: 0 <= k < i ==> !LostAt(probes, k, maxFailures) && !Canceled(probes[k])
    {
      assert probes[..i + 1][..i] == probes[..i] && probes[..i + 1][i] == probes[i];
      var probe := probes[i];
      if probe.Busy? {
        continue;
      }
      if probe.Alive? {
        failures := 0;
        continue;
      }
      if probe.canceled {
        assert forall k :: LostAt(probes, k, maxFailures) ==> i < k;
        return None;
      }
      failures := failures + 1;
      if probe.closed || failures >= maxFailures {
        return Some(i);
      }
    }
    r := None;
  }

  function Failures(probes: seq<Probe>): nat {
    if probes == [] then 0 else Failures(probes[..|probes| - 1]) + if probes[|probes| - 1].Failed? then 1 else 0
  }

  ghost predicate Silent(probes: seq<Probe>) { forall i :: 0 <= i < |probes| ==> !probes[i].Alive? }

  // The streak is the number of failures in the longest silence at the end.
  lemma {:induction false} StreakOfSilence(probes: seq<Probe>, j: nat)
    requires j <= |probes| && Silent(probes[j..])
    ensures Streak(probes) >= Failures(probes[j..])
  {
    if j < |probes| {
      var last := |probes| - 1;
      assert probes[..last][j..] == probes[j..][..last - j];
      assert probes[j..][last - j] == probes[last];
      StreakOfSilence(probes[..last], j);
    }
  }

  lemma {:induction false} SilenceOfStreak(probes: seq<Probe>) returns (j: nat)
    ensures j <= |probes| && Silent(probes[j..]) && Failures(probes[j..]) == Streak(probes)
  {
    var last := |probes| - 1;
    if probes == [] || probes[last].Alive? {
      j := |probes|;
      assert probes[j..] == [];
    } else {
      j := SilenceOfStreak(probes[..last]);
      assert probes[..last][j..] == probes[j..][..last - j];
      assert probes[j..][last - j] == probes[last];
      assert forall i :: 0 <= i < last - j ==> probes[j..][i] == probes[..last][j..][i];
    }
  }

  // A session not known to be closed is given up exactly after as many failures as
  // allowed with no answer between them.
  lemma LostExactlyAfterSilence(probes: seq<Probe>, maxFailures: nat)
    requires probes != [] && probes[|probes| - 1].Failed? && !probes[|probes| - 1].closed && !Canceled(probes[|probes| - 1])
    ensures Lost(probes, maxFailures) <==>
      exists j :: 0 <= j <= |probes| && Silent(probes[j..]) && Failures(probes[j..]) >= maxFailures
  {
    hide Silent, Failures, Streak;
    var j := SilenceOfStreak(probes);
    if k :| 0 <= k <= |probes| && Silent(probes[k..]) && Failures(probes[k..]) >= maxFailures {
      StreakOfSilence(probes, k);
    }
  }

  // A session that is lost from the j-th tick on is reported, unless the process is
  // stopping: at the latest when as many probes since then have failed as are allowed,
  // ticks that find a restore at work not counted.
  lemma LostSessionIsReported(probes: seq<Probe>, limit: int, j: nat, r: Option<nat>)
    requires FirstLoss(probes, Allowance(limit), r) && j <= |probes| && Silent(probes[j..])
    requires forall k :: 0 <= k < |probes| ==> !Canceled(probes[k])
    requires Failures(probes[j..]) >= Allowance(limit)
    ensures r.Some? && r.value < |probes| && (r.value >= j ==> Failures(probes[j..r.value + 1]) <= Allowance(limit))
  {
    hide Streak, Failures, Lost;
    var i := EnoughFailures(probes, j, Allowance(limit));
    assert probes[..i + 1][i] == probes[i];
    assert probes[..i + 1][j..] == probes[j..i + 1];
    assert forall k {:trigger probes[j..i + 1][k]} :: 0 <= k < i + 1 - j ==> probes[j..i + 1][k] == probes[j..][k];
    StreakOfSilence(probes[..i + 1], j);
    IsLost(probes[..i + 1], Allowance(limit));
    assert LostAt(probes, i, Allowance(limit));
    if r.value >= j {
      FailuresGrow(probes, j, r.value + 1, i + 1);
    }
  }

  lemma IsLost(probes: seq<Probe>, maxFailures: int)
    requires probes != [] && probes[|probes| - 1].Failed? && !Canceled(probes[|probes| - 1]) && Streak(probes) >= maxFailures
    ensures Lost(probes, maxFailures)
  {}

  // The tick with the n-th failure since the j-th.
  lemma {:induction false} EnoughFailures(probes: seq<Probe>, j: nat, n: int) returns (i: nat)
    requires j <= |probes| && 0 < n <= Failures(probes[j..])
    ensures j <= i < |probes| && probes[i].Failed? && Failures(probes[j..i + 1]) == n
    decreases |probes|
  {
    var last := |probes| - 1;
    assert |probes[j..]| > 0;
    assert probes[j..][..last - j] == probes[..last][j..] && probes[j..][last - j] == probes[last];
    if Failures(probes[..last][j..]) >= n {
      i := EnoughFailures(probes[..last], j, n);
      assert probes[..last][j..i + 1] == probes[j..i + 1];
    } else {
      i := last;
      assert probes[j..last + 1] == probes[j..];
    }
  }

  lemma {:induction false} FailuresGrow(probes: seq<Probe>, j: nat, a: nat, b: nat)
    requires j <= a <= b <= |probes|
    ensures Failures(probes[j..a]) <= Failures(probes[j..b])
    decreases b
  {
    if a < b {
      assert probes[j..b][..b - j - 1] == probes[j..b - 1];
      FailuresGrow(probes, j, a, b - 1);
    }
  }
}
