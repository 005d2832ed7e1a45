// Several processes on one database: serving instances, which upgrade their
// shared lease for a restore, and offline recoveries, which take the exclusive
// one (internal/db/maintenance.go). Advisory locks are counted per session;
// a session's own locks never conflict with each other, and a lost session
// drops all of its locks (PostgreSQL documentation, section 13.3.5).
module ApplicationLease {
  import opened Wrappers
  import R = RestoreAdmission

  type Pid = int

  // The dedicated database session of a process, and how often it holds the lock.
  datatype Session = Session(alive: bool, shared: nat, exclusive: nat)

  const LOST := Session(false, 0, 0)

  datatype Proc =
    | Absent
    | Serving(server: R.Server, session: Session, held: bool)  // held: l.mu is kept by Exclusive
    | Offline(session: Session)                                // a CLI recovery, restoring
    | Crashed(session: Session)                                // its session has not been reaped yet

  type Cluster = map<Pid, Proc>

  function Get(c: Cluster, p: Pid): Proc { if p in c then c[p] else Absent }

  function SessionOf(proc: Proc): Session { if proc.Absent? then LOST else proc.session }

  // pg_try_advisory_lock and pg_try_advisory_lock_shared for the session of p.
  ghost predicate CanExclusive(c: Cluster, p: Pid) {
    forall q :: q != p ==> SessionOf(Get(c, q)).shared == 0 && SessionOf(Get(c, q)).exclusive == 0
  }

  ghost predicate CanShare(c: Cluster, p: Pid) {
    forall q :: q != p ==> SessionOf(Get(c, q)).exclusive == 0
  }

  // What is asked of the database, and what the process hears. An error is heard
  // both when the call had no effect and when it took effect unnoticed.
  datatype Event =
    | StartServer(p: Pid)
    | StartOffline(p: Pid)
    | StopOffline(p: Pid)
    | Work(p: Pid, t: R.Tid, a: R.Action)                       // no lease call involved
    | Upgrade(p: Pid, t: R.Tid, granted: bool, applied: bool)    // Exclusive
    | Release(p: Pid, t: R.Tid, reconciled: bool, ok: bool, applied: bool)
    | LoseSession(p: Pid)
    | Stop(p: Pid)                                               // orderly shutdown, then Close
    | Crash(p: Pid)

  function Grab(s: Session): Session { s.(exclusive := s.exclusive + 1) }

  function Drop(s: Session): Session { s.(exclusive := if s.exclusive == 0 then 0 else s.exclusive - 1) }

  predicate CallsLease(server: R.Server, t: R.Tid, a: R.Action) {
    || (R.At(server, t) == R.RestoreLeasing)
    || (R.At(server, t) == R.Restoring)
  }

  ghost predicate Next(c: Cluster, e: Event, d: Cluster) {
    var proc := Get(c, e.p);
    match e
    case StartServer(p) =>
      proc.Absent? && CanShare(c, p) && d == c[p := Serving(R.Boot, Session(true, 1, 0), false)]
    case StartOffline(p) =>
      proc.Absent? && CanExclusive(c, p) && d == c[p := Offline(Session(true, 0, 1))]
    case StopOffline(p) => proc.Offline? && d == c[p := Absent]
    case Work(p, t, a) =>
      && proc.Serving? && !CallsLease(proc.server, t, a)
      && R.Step(proc.server, t, a).Some? && d == c[p := proc.(server := R.Step(proc.server, t, a).value)]
    case Upgrade(p, t, granted, applied) =>
      && proc.Serving? && !proc.held && R.At(proc.server, t) == R.RestoreLeasing
      && (applied ==> proc.session.alive && CanExclusive(c, p)) && (granted ==> applied)
      && var next := R.Step(proc.server, t, if granted then R.Advance else R.GiveUp);
         next.Some?
         && d == c[p := Serving(next.value, if applied then Grab(proc.session) else proc.session, granted)]
    case Release(p, t, reconciled, ok, applied) =>
      && proc.Serving? && R.At(proc.server, t) == R.Restoring
      && (applied ==> proc.session.alive) && (ok ==> applied)
      && var next := R.Step(proc.server, t, R.Finish(reconciled && ok));
         next.Some?
         && d == c[p := Serving(next.value, if applied then Drop(proc.session) else proc.session, false)]
    case LoseSession(p) =>
      && !proc.Absent?
      && d == c[p := if proc.Crashed? then Absent else proc.(session := LOST)]
    case Stop(p) =>
      && proc.Serving? && !proc.held && (forall t :: R.At(proc.server, t).Idle?) && d == c[p := Absent]
    case Crash(p) => (proc.Serving? || proc.Offline?) && d == c[p := Crashed(proc.session)]
  }

  ghost predicate Run(trace: seq<Cluster>, events: seq<Event>) {
    && |trace| == |events| + 1 && trace[0] == map[]
    && forall i :: 0 <= i < |events| ==> Next(trace[i], events[i], trace[i + 1])
  }

  // A process between the return of beginRestore (or the offline lease) and the
  // end of its restore.
  ghost predicate RestoringAt(proc: Proc, t: R.Tid) { proc.Serving? && R.At(proc.server, t).Restoring? }

  ghost predicate IsRestoring(proc: Proc) {
    proc.Offline? || exists t :: RestoringAt(proc, t)
  }

  // ----- the invariant ---------------------------------------------------------------

  ghost predicate SessionFits(proc: Proc) {
    && (!SessionOf(proc).alive ==> SessionOf(proc) == LOST)
    && (proc.Serving? && proc.session.alive ==> proc.session.shared > 0)
    && (proc.Serving? && proc.session.alive && IsRestoring(proc) ==> proc.session.exclusive > 0)
    && (proc.Offline? && proc.session.alive ==> proc.session.exclusive > 0)
    && (proc.Serving? ==> R.Inv(proc.server))
  }

  ghost predicate Compatible(c: Cluster) {
    forall p, q {:trigger Get(c, p), Get(c, q)} :: p != q && SessionOf(Get(c, p)).exclusive > 0 ==>
      SessionOf(Get(c, q)).shared == 0 && SessionOf(Get(c, q)).exclusive == 0
  }

  ghost predicate Inv(c: Cluster) {
    Compatible(c) && forall p :: SessionFits(Get(c, p))
  }

  // Whoever's session changes, locks stay compatible if they only shrink or the
  // database granted the new one.
  lemma SessionChange(c: Cluster, p: Pid, proc: Proc)
    requires Compatible(c)
    requires var before, after := SessionOf(Get(c, p)), SessionOf(proc);
             && (after.exclusive > 0 ==> before.exclusive > 0 || CanExclusive(c, p))
             && (after.shared > 0 ==> before.shared > 0 || CanShare(c, p))
    ensures Compatible(c[p := proc])
  {
    hide SessionOf, Get;
    GetAfter(c, p, proc);
  }

  lemma GetAfter(c: Cluster, p: Pid, proc: Proc)
    ensures forall q {:trigger Get(c[p := proc], q)} :: Get(c[p := proc], q) == if q == p then proc else Get(c, q)
  {
  }

  lemma Others(c: Cluster, p: Pid, proc: Proc)
    requires Inv(c) && SessionFits(proc) && Compatible(c[p := proc])
    ensures Inv(c[p := proc])
  {
    hide SessionFits, Compatible;
    GetAfter(c, p, proc);
  }

  // Only the lease calls enter or leave the restoring state.
  lemma StepRestoring(s: R.Server, t: R.Tid, a: R.Action)
    requires R.Step(s, t, a).Some?
    ensures forall u :: u != t ==> R.At(R.Step(s, t, a).value, u) == R.At(s, u)
    ensures R.At(R.Step(s, t, a).value, t).Restoring? ==> R.At(s, t) == R.RestoreLeasing && a == R.Advance
  {
    var m := R.Next(s, R.At(s, t), a).value;
    R.AtOthers(s, t, m);
    if m.pc.Restoring? {
      R.RestoringFrom(s, R.At(s, t), a);
    }
  }

  lemma WorkFits(proc: Proc, t: R.Tid, a: R.Action)
    requires SessionFits(proc) && proc.Serving? && !CallsLease(proc.server, t, a) && R.Step(proc.server, t, a).Some?
    ensures SessionFits(proc.(server := R.Step(proc.server, t, a).value))
  {
    hide R.Step, R.Inv, R.At;
    var next := proc.(server := R.Step(proc.server, t, a).value);
    R.StepKeepsInv(proc.server, t, a);
    StepRestoring(proc.server, t, a);
    if IsRestoring(next) {
      var u :| RestoringAt(next, u);
      assert RestoringAt(proc, u);
    }
  }

  lemma UpgradeFits(proc: Proc, t: R.Tid, granted: bool, session: Session)
    requires SessionFits(proc) && proc.Serving? && R.At(proc.server, t) == R.RestoreLeasing
    requires session == Grab(proc.session) || (session == proc.session && !granted)
    requires session == Grab(proc.session) ==> proc.session.alive
    requires R.Step(proc.server, t, if granted then R.Advance else R.GiveUp).Some?
    ensures SessionFits(Serving(R.Step(proc.server, t, if granted then R.Advance else R.GiveUp).value, session, granted))
  {
    hide R.Step, R.Inv, R.At;
    var a := if granted then R.Advance else R.GiveUp;
    var next := Serving(R.Step(proc.server, t, a).value, session, granted);
    R.StepKeepsInv(proc.server, t, a);
    StepRestoring(proc.server, t, a);
    if session == proc.session && IsRestoring(next) {
      var u :| RestoringAt(next, u);
      assert RestoringAt(proc, u);
    }
  }

  // A process restores in one thread at a time, so its release ends its restore.
  lemma ReleaseFits(proc: Proc, t: R.Tid, reconciled: bool, session: Session)
    requires SessionFits(proc) && proc.Serving? && R.At(proc.server, t) == R.Restoring
    requires session == proc.session || (session == Drop(proc.session) && proc.session.alive)
    requires R.Step(proc.server, t, R.Finish(reconciled)).Some?
    ensures SessionFits(Serving(R.Step(proc.server, t, R.Finish(reconciled)).value, session, false))
  {
    hide R.Step, R.Inv, R.At;
    var next := Serving(R.Step(proc.server, t, R.Finish(reconciled)).value, session, false);
    R.StepKeepsInv(proc.server, t, R.Finish(reconciled));
    StepRestoring(proc.server, t, R.Finish(reconciled));
    OneRestoring(proc.server, t);
    assert forall u :: !RestoringAt(next, u);
  }

  lemma OneRestoring(s: R.Server, t: R.Tid)
    requires R.Inv(s) && R.At(s, t) == R.Restoring
    ensures forall u :: u != t ==> !R.At(s, u).Restoring?
  {
    R.InvShields(s, t);
    forall u | u != t ensures !R.At(s, u).Restoring? {
      assert R.At(s, u).Restoring? ==> R.Shielded(R.At(s, u));
    }
  }

  lemma ServerBootFits()
    ensures SessionFits(Serving(R.Boot, Session(true, 1, 0), false))
  {
    R.BootInv();
    forall t ensures R.At(R.Boot, t).Idle? {}
  }

  lemma LostFits(proc: Proc)
    requires SessionFits(proc) && !proc.Absent?
    ensures !proc.Crashed? ==> SessionFits(proc.(session := LOST))
  {
    hide R.Inv;
  }

  lemma NextKeepsInv(c: Cluster, e: Event, d: Cluster)
    requires Inv(c) && Next(c, e, d)
    ensures Inv(d)
  {
    hide R.Step, R.Inv, SessionFits, Compatible, CanExclusive, CanShare;
    var proc := Get(c, e.p);
    assert SessionFits(proc);
    var after := Get(d, e.p);
    assert SessionFits(after) by {
      match e {
        case StartServer(p) => ServerBootFits();
        case Work(p, t, a) => WorkFits(proc, t, a);
        case Upgrade(p, t, granted, applied) => UpgradeFits(proc, t, granted, after.session);
        case Release(p, t, reconciled, ok, applied) => ReleaseFits(proc, t, reconciled && ok, after.session);
        case LoseSession(p) => LostFits(proc); PlainFits(after);
        case Crash(p) => CrashFits(proc);
        case _ => PlainFits(after);
      }
    }
    SessionChange(c, e.p, after);
    Others(c, e.p, after);
  }

  lemma PlainFits(proc: Proc)
    ensures proc.Absent? ==> SessionFits(proc)
    ensures proc == Offline(Session(true, 0, 1)) ==> SessionFits(proc)
  {
  }

  lemma CrashFits(proc: Proc)
    requires SessionFits(proc) && !proc.Absent?
    ensures SessionFits(Crashed(proc.session))
  {
  }

  lemma {:induction false} RunKeepsInv(trace: seq<Cluster>, events: seq<Event>)
    requires Run(trace, events)
    ensures forall i :: 0 <= i < |trace| ==> Inv(trace[i])
  {
    hide Next;
    if events == [] {
      assert forall p :: Get(map[], p) == Absent;
    } else {
      var n := |events|;
      assert Run(trace[..n], events[..n - 1]);
      RunKeepsInv(trace[..n], events[..n - 1]);
      assert trace[..n][n - 1] == trace[n - 1];
      NextKeepsInv(trace[n - 1], events[n - 1], trace[n]);
    }
  }

  // ----- restores are alone -------------------------------------------------------------

  // At most one session holds the lock exclusively, and then no other session
  // holds it at all.
  lemma ExclusiveIsExclusive(trace: seq<Cluster>, events: seq<Event>, i: nat, p: Pid, q: Pid)
    requires Run(trace, events) && i < |trace| && p != q
    requires SessionOf(Get(trace[i], p)).exclusive > 0
    ensures SessionOf(Get(trace[i], q)).exclusive == 0 && SessionOf(Get(trace[i], q)).shared == 0
  {
    RunKeepsInv(trace, events);
  }

  // While a process restores with its session alive, no other process with a live
  // session serves or restores, and the process itself has nothing else running.
  lemma RestoreIsIsolated(trace: seq<Cluster>, events: seq<Event>, i: nat, p: Pid)
    requires Run(trace, events) && i < |trace|
    requires IsRestoring(Get(trace[i], p)) && SessionOf(Get(trace[i], p)).alive
    ensures forall q :: q != p && SessionOf(Get(trace[i], q)).alive ==> Get(trace[i], q).Crashed?
    ensures forall t :: RestoringAt(Get(trace[i], p), t) ==> R.Quiet(Get(trace[i], p).server, t)
  {
    hide R.Inv, R.Quiet;
    RunKeepsInv(trace, events);
    var c := trace[i];
    assert SessionFits(Get(c, p));
    forall q | q != p && SessionOf(Get(c, q)).alive ensures Get(c, q).Crashed? {
      ExclusiveIsExclusive(trace, events, i, p, q);
      assert SessionFits(Get(c, q));
    }
    forall t | RestoringAt(Get(c, p), t) ensures R.Quiet(Get(c, p).server, t) {
      R.InvShields(Get(c, p).server, t);
    }
  }

  // Two restores can overlap only when one of them has already lost its session.
  lemma OverlapNeedsLostSession(trace: seq<Cluster>, events: seq<Event>, i: nat, p: Pid, q: Pid)
    requires Run(trace, events) && i < |trace| && p != q
    requires IsRestoring(Get(trace[i], p)) && IsRestoring(Get(trace[i], q))
    ensures !SessionOf(Get(trace[i], p)).alive || !SessionOf(Get(trace[i], q)).alive
  {
    if SessionOf(Get(trace[i], p)).alive && SessionOf(Get(trace[i], q)).alive {
      RestoreIsIsolated(trace, events, i, p);
    }
  }

  // ----- the lease is given back -----------------------------------------------------------

  // No lock is taken or kept without the process hearing of it.
  predicate Noticed(e: Event) { (e.Upgrade? ==> e.granted == e.applied) && (e.Release? ==> e.ok) }

  ghost predicate Balanced(proc: Proc) {
    proc.Serving? ==>
      && (proc.held <==> IsRestoring(proc))
      && (proc.session.alive ==> proc.session.shared == 1 && proc.session.exclusive == if proc.held then 1 else 0)
  }

  lemma WorkBalanced(proc: Proc, t: R.Tid, a: R.Action)
    requires Balanced(proc) && proc.Serving? && !CallsLease(proc.server, t, a) && R.Step(proc.server, t, a).Some?
    ensures Balanced(proc.(server := R.Step(proc.server, t, a).value))
  {
    hide R.Step, R.At;
    var next := proc.(server := R.Step(proc.server, t, a).value);
    StepRestoring(proc.server, t, a);
    if proc.held {
      var u :| RestoringAt(proc, u);
      assert RestoringAt(next, u);
    }
    if IsRestoring(next) {
      var u :| RestoringAt(next, u);
      assert RestoringAt(proc, u);
    }
  }

  lemma UpgradeBalanced(proc: Proc, t: R.Tid, granted: bool)
    requires Balanced(proc) && proc.Serving? && !proc.held && (granted ==> proc.session.alive)
    requires R.At(proc.server, t) == R.RestoreLeasing
    requires R.Step(proc.server, t, if granted then R.Advance else R.GiveUp).Some?
    ensures Balanced(Serving(R.Step(proc.server, t, if granted then R.Advance else R.GiveUp).value,
                             if granted then Grab(proc.session) else proc.session, granted))
  {
    hide R.Step, R.At;
    var a := if granted then R.Advance else R.GiveUp;
    var next := Serving(R.Step(proc.server, t, a).value, if granted then Grab(proc.session) else proc.session, granted);
    StepRestoring(proc.server, t, a);
    if granted {
      LeasingAdvances(proc.server, t);
      assert RestoringAt(next, t);
    }
    if !granted {
      assert forall u :: RestoringAt(next, u) ==> RestoringAt(proc, u);
    }
  }

  lemma LeasingAdvances(s: R.Server, t: R.Tid)
    requires R.At(s, t) == R.RestoreLeasing && R.Step(s, t, R.Advance).Some?
    ensures R.At(R.Step(s, t, R.Advance).value, t).Restoring?
  {}

  lemma ReleaseBalanced(proc: Proc, t: R.Tid, reconciled: bool)
    requires Balanced(proc) && proc.Serving? && R.Inv(proc.server) && R.At(proc.server, t) == R.Restoring
    requires R.Step(proc.server, t, R.Finish(reconciled)).Some?
    ensures Balanced(Serving(R.Step(proc.server, t, R.Finish(reconciled)).value, Drop(proc.session), false))
  {
    hide R.Step, R.At, R.Inv;
    var next := Serving(R.Step(proc.server, t, R.Finish(reconciled)).value, Drop(proc.session), false);
    assert RestoringAt(proc, t);
    StepRestoring(proc.server, t, R.Finish(reconciled));
    OneRestoring(proc.server, t);
    assert forall u :: !RestoringAt(next, u);
  }

  lemma NextBalanced(c: Cluster, e: Event, d: Cluster)
    requires Inv(c) && Next(c, e, d) && Noticed(e) && forall p :: Balanced(Get(c, p))
    ensures forall p :: Balanced(Get(d, p))
  {
    hide R.Step, R.Inv, Balanced, Compatible, CanExclusive, CanShare, R.At;
    var proc, after := Get(c, e.p), Get(d, e.p);
    assert SessionFits(proc);
    assert Balanced(after) by {
      match e {
        case StartServer(p) => BootBalanced();
        case Work(p, t, a) => WorkBalanced(proc, t, a);
        case Upgrade(p, t, granted, applied) => UpgradeBalanced(proc, t, granted);
        case Release(p, t, reconciled, ok, applied) => ReleaseBalanced(proc, t, reconciled);
        case LoseSession(p) => LostBalanced(proc); NotServingBalanced(after);
        case _ => NotServingBalanced(after);
      }
    }
    GetAfter(c, e.p, after);
    assert d == c[e.p := after];
  }

  lemma BootBalanced()
    ensures Balanced(Serving(R.Boot, Session(true, 1, 0), false))
  {
    forall t ensures R.At(R.Boot, t).Idle? {}
  }

  lemma NotServingBalanced(proc: Proc)
    ensures !proc.Serving? ==> Balanced(proc)
  {}

  lemma LostBalanced(proc: Proc)
    requires Balanced(proc) && !proc.Absent?
    ensures Balanced(proc.(session := LOST))
  {
    if proc.Serving? {
      var lost := proc.(session := LOST);
      assert forall t :: RestoringAt(lost, t) <==> RestoringAt(proc, t);
    }
  }

  // Where every effect of a call is noticed, a serving process with a live session holds
  // the lock once shared, and once exclusively exactly while it restores: so after a
  // restore other processes can start again.
  lemma LeaseIsGivenBack(trace: seq<Cluster>, events: seq<Event>, p: Pid)
    requires Run(trace, events) && forall i :: 0 <= i < |events| ==> Noticed(events[i])
    ensures var proc := Get(trace[|events|], p);
      proc.Serving? && proc.session.alive ==>
        proc.session.shared == 1 && proc.session.exclusive == if IsRestoring(proc) then 1 else 0
  {
    hide R.Inv;
    AllBalanced(trace, events);
    assert Balanced(Get(trace[|events|], p));
  }

  lemma {:induction false} AllBalanced(trace: seq<Cluster>, events: seq<Event>)
    requires Run(trace, events) && forall i :: 0 <= i < |events| ==> Noticed(events[i])
    ensures forall p :: Balanced(Get(trace[|events|], p))
  {
    hide Next, Balanced, Inv, Noticed;
    if events == [] {
      forall p ensures Balanced(Get(trace[0], p)) {
        NotServingBalanced(Get(trace[0], p));
      }
    } else {
      var n := |events|;
      assert Run(trace[..n], events[..n - 1]);
      AllBalanced(trace[..n], events[..n - 1]);
      RunKeepsInv(trace, events);
      assert trace[..n][n - 1] == trace[n - 1];
      NextBalanced(trace[n - 1], events[n - 1], trace[n]);
    }
  }
}
