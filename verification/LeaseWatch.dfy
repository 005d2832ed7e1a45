// What the monitor of one process makes of the sessions in a cluster: how long a
// process can go on beside another one after it has lost its session
// (internal/db/maintenance.go, Exclusive and monitor).
module LeaseWatch {
  import opened Wrappers
  import opened ApplicationLease
  import opened LeaseMonitor

  // The k-th tick of the monitor of p falls on the state at[k]. It passes exactly while
  // a restore of p keeps l.mu, and it gets an answer only from a live session.
  ghost predicate Watched(trace: seq<Cluster>, p: Pid, probes: seq<Probe>, at: seq<nat>) {
    && |at| == |probes|
    && (forall k :: 0 <= k < |at| ==> at[k] < |trace| && Fits(Get(trace[at[k]], p), probes[k]))
    && forall j, k :: 0 <= j < k < |at| ==> at[j] <= at[k]
  }

  predicate Fits(proc: Proc, probe: Probe) {
    proc.Serving? && (probe.Busy? <==> proc.held) && (probe.Alive? ==> proc.session.alive)
  }

  // p serves at all states from l to i.
  ghost predicate ServesOn(trace: seq<Cluster>, p: Pid, l: nat, i: nat) {
    l <= i < |trace| && forall k {:trigger trace[k]} :: l <= k <= i ==> Get(trace[k], p).Serving?
  }

  // A lost session never comes back to the process.
  lemma {:induction false} LostStays(trace: seq<Cluster>, events: seq<Event>, p: Pid, l: nat, i: nat)
    requires Run(trace, events) && ServesOn(trace, p, l, i) && !SessionOf(Get(trace[l], p)).alive
    ensures !SessionOf(Get(trace[i], p)).alive
    decreases i
  {
    hide Next;
    if l < i {
      LostStays(trace, events, p, l, i - 1);
      StepKeepsLost(trace[i - 1], events[i - 1], trace[i], p);
    }
  }

  lemma StepKeepsLost(c: Cluster, e: Event, d: Cluster, p: Pid)
    requires Next(c, e, d) && Get(c, p).Serving? && Get(d, p).Serving? && !Get(c, p).session.alive
    ensures !Get(d, p).session.alive
  {
    hide R.Step, CanShare, CanExclusive;
  }

  // From the loss on no tick is answered.
  lemma SilentSinceLoss(trace: seq<Cluster>, events: seq<Event>, p: Pid, l: nat, i: nat, probes: seq<Probe>, at: seq<nat>, m: nat)
    requires Run(trace, events) && ServesOn(trace, p, l, i) && !SessionOf(Get(trace[l], p)).alive
    requires Watched(trace, p, probes, at) && m <= |at| && forall k :: m <= k < |at| ==> l <= at[k] <= i
    ensures Silent(probes[m..])
  {
    hide Next;
    forall k | 0 <= k < |probes[m..]| ensures !probes[m..][k].Alive? {
      assert probes[m..][k] == probes[m + k] && l <= at[m + k] <= i;
      assert ServesOn(trace, p, l, at[m + k]);
      LostStays(trace, events, p, l, at[m + k]);
      assert Fits(Get(trace[at[m + k]], p), probes[m + k]);
    }
  }

  // While another process holds the lease exclusively, the session of a serving process
  // is gone. So a process that has lost its session at l and still serves or restores
  // beside the other one at i, with no loss reported, has had fewer failing ticks since
  // then than are allowed; ticks that fall on its own restores are not among them.
  lemma OverlapIsReported(trace: seq<Cluster>, events: seq<Event>, p: Pid, q: Pid, l: nat, i: nat,
                          probes: seq<Probe>, at: seq<nat>, m: nat, limit: int, r: Option<nat>)
    requires Run(trace, events) && ServesOn(trace, p, l, i) && p != q
    requires SessionOf(Get(trace[i], q)).exclusive > 0
    requires Watched(trace, p, probes, at) && m <= |at| && forall k :: m <= k < |at| ==> l <= at[k] <= i
    requires FirstLoss(probes, Allowance(limit), r) && r.None? && forall k :: 0 <= k < |probes| ==> !Canceled(probes[k])
    ensures !SessionOf(Get(trace[i], p)).alive
    ensures !SessionOf(Get(trace[l], p)).alive ==>
      Unheld(trace, p, at[m..]) == Failures(probes[m..]) < Allowance(limit)
  {
    hide Next, Failures, FirstLoss, Unheld, Watched;
    RunKeepsInv(trace, events);
    ExclusiveIsExclusive(trace, events, i, q, p);
    ServingAliveShares(trace[i], p);
    if !SessionOf(Get(trace[l], p)).alive {
      SilentSinceLoss(trace, events, p, l, i, probes, at, m);
      FailuresAreUnheld(trace, p, probes, at, m, |at|);
      assert at[m..|at|] == at[m..] && probes[m..|at|] == probes[m..] by {
        SameLength(trace, p, probes, at);
      }
      if Failures(probes[m..]) >= Allowance(limit) {
        SameLength(trace, p, probes, at);
        LostSessionIsReported(probes, limit, m, r);
      }
    }
  }

  lemma SameLength(trace: seq<Cluster>, p: Pid, probes: seq<Probe>, at: seq<nat>)
    requires Watched(trace, p, probes, at)
    ensures |at| == |probes|
  {}

  lemma ServingAliveShares(c: Cluster, p: Pid)
    requires Inv(c) && Get(c, p).Serving?
    ensures SessionOf(Get(c, p)).alive ==> SessionOf(Get(c, p)).shared > 0
  {
    hide R.Inv;
    assert SessionFits(Get(c, p));
  }

  // How many of these states find l.mu free.
  ghost function Unheld(trace: seq<Cluster>, p: Pid, at: seq<nat>): nat {
    if at == [] then 0
    else
      var last := at[|at| - 1];
      Unheld(trace, p, at[..|at| - 1])
      + if last < |trace| && Get(trace[last], p).Serving? && Get(trace[last], p).held then 0 else 1
  }

  lemma {:induction false} FailuresAreUnheld(trace: seq<Cluster>, p: Pid, probes: seq<Probe>, at: seq<nat>, m: nat, n: nat)
    requires Watched(trace, p, probes, at) && m <= n <= |at| && Silent(probes[m..])
    ensures Failures(probes[m..n]) == Unheld(trace, p, at[m..n])
    decreases n
  {
    if m < n {
      FailuresAreUnheld(trace, p, probes, at, m, n - 1);
      assert probes[m..n][..n - 1 - m] == probes[m..n - 1] && at[m..n][..n - 1 - m] == at[m..n - 1];
      assert probes[m..n][n - 1 - m] == probes[n - 1] == probes[m..][n - 1 - m] && at[m..n][n - 1 - m] == at[n - 1];
      assert Fits(Get(trace[at[n - 1]], p), probes[n - 1]);
    }
  }

  // There is no such bound for a restore: as long as it keeps l.mu, no loss is reported,
  // whatever has become of its session.
  lemma RestoreIsUnwatched(trace: seq<Cluster>, p: Pid, probes: seq<Probe>, at: seq<nat>, m: nat, limit: int, r: Option<nat>)
    requires Watched(trace, p, probes, at) && m <= |at|
    requires forall k :: m <= k < |at| ==> Get(trace[at[k]], p).Serving? && Get(trace[at[k]], p).held
    requires FirstLoss(probes, Allowance(limit), r)
    ensures r.Some? ==> r.value < m
  {
    hide LostAt;
    forall k | m <= k < |probes| ensures !LostAt(probes, k, Allowance(limit)) {
      assert Fits(Get(trace[at[k]], p), probes[k]);
      BusyIsNoLoss(probes, k, Allowance(limit));
    }
    LossIsATick(probes, r, Allowance(limit));
  }

  lemma BusyIsNoLoss(probes: seq<Probe>, k: nat, maxFailures: int)
    requires k < |probes|
    ensures probes[k].Busy? ==> !LostAt(probes, k, maxFailures)
  {
    assert probes[..k + 1][k] == probes[k];
  }

  lemma LossIsATick(probes: seq<Probe>, r: Option<nat>, maxFailures: int)
    ensures r.Some? && LostAt(probes, r.value, maxFailures) ==> r.value < |probes|
  {}
}
