// What the process admits after a restore and after a shutdown
// (internal/server/backup_resources.go, the callback of beginRestore,
// clearRestoreMaintenance and BackgroundTask).
module AdmissionOutcome {
  import opened Wrappers
  import opened RestoreAdmission

  // ----- a restore that was not reconciled ------------------------------------------

  // Admitted, or about to be: past the check of the maintenance flag under the lock.
  predicate Admitted(pc: Pc) {
    pc.Looked? || pc.Working? || pc.RestoreAsked? || Registering(pc) || TaskOf(pc).Some?
  }

  // Maintenance is shown and nobody is left who could end it: no thread may store the
  // flag but the one that has been told not to, and nobody is or will be admitted.
  ghost predicate Sealed(s: Server) {
    && s.maintenance && s.tasks == {}
    && (forall u {:trigger At(s, u)} :: Owns(At(s, u)) ==> At(s, u) == Finishing(false))
    && (forall u {:trigger At(s, u)} :: !Admitted(At(s, u)))
  }

  lemma FinishSeals(s: Server, t: Tid)
    requires Inv(s) && At(s, t).Restoring? && Step(s, t, Finish(false)).Some?
    ensures Sealed(Step(s, t, Finish(false)).value)
  {
    hide TaskOf, Registering, Owns, At, Inv, Next, Admitted;
    var r := Step(s, t, Finish(false)).value;
    RestoringNext(s, At(s, t), false);
    AtOthers(s, t, Move(Finishing(false), Nothing));
    forall u ensures (Owns(At(r, u)) ==> At(r, u) == Finishing(false)) && !Admitted(At(r, u)) {
      OwnersAndReaders(s, t, u);
      FinishingIsNotAdmitted();
    }
    RestoringClasses(s, t);
  }

  lemma FinishingIsNotAdmitted()
    ensures !Admitted(Finishing(false))
  {}

  lemma RestoringClasses(s: Server, t: Tid)
    requires Inv(s) && At(s, t).Restoring?
    ensures s.maintenance && s.tasks == {}
  {
    assert Owns(At(s, t)) && Drained(At(s, t));
  }

  // While t restores, nobody else owns the flag or is admitted.
  lemma OwnersAndReaders(s: Server, t: Tid, u: Tid)
    requires Inv(s) && At(s, t).Restoring?
    ensures u != t ==> !Owns(At(s, u)) && !Admitted(At(s, u))
  {
    hide Admitted;
    assert Owns(At(s, t)) && HoldsWrite(At(s, t)) && Drained(At(s, t)) && PastSnapshot(At(s, t));
    AdmittedMeans(At(s, u));
  }

  lemma AdmittedMeans(pc: Pc)
    ensures Admitted(pc) ==> HoldsRead(pc) || Registering(pc) || TaskOf(pc).Some?
  {}

  lemma StepKeepsSealed(s: Server, t: Tid, a: Action)
    requires Sealed(s) && Step(s, t, a).Some?
    ensures Sealed(Step(s, t, a).value)
  {
    hide Next, At, Owns, Admitted, Registering, TaskOf;
    var m := Next(s, At(s, t), a).value;
    assert !Admitted(At(s, t)) && (Owns(At(s, t)) ==> At(s, t) == Finishing(false));
    SealedMove(s, At(s, t), a, m);
    AtOthers(s, t, m);
  }

  // What a thread that is not admitted can do while maintenance is shown.
  lemma SealedMove(s: Server, p: Pc, a: Action, m: Move)
    requires s.maintenance && !Admitted(p) && (Owns(p) ==> p == Finishing(false)) && Next(s, p, a) == Some(m)
    ensures !Admitted(m.pc) && (Owns(m.pc) ==> m.pc == Finishing(false))
    ensures m.effect != StoreMaintenance(false) && m.effect != Insert
  {
    hide NextStart, NextWorker, NextTask, NextControl, NextRestore, NextFinish;
    RestoresOwn(p);
    match PartOf(p) {
      case PStart => SealedStart(s, a, m);
      case PWorker => SealedWorker(s, p, a, m);
      case PTask => SealedTask(s, p, a, m);
      case PControl => SealedControl(p, a, m);
      case PRestore =>
      case PFinish => SealedFinish(s, p, a, m);
    }
  }

  lemma RestoresOwn(p: Pc)
    ensures PartOf(p) == PRestore ==> Owns(p) || Admitted(p)
    ensures !Owns(p) || p == Finishing(false) ==> PartOf(p) != PRestore || Admitted(p)
  {}

  lemma SealedStart(s: Server, a: Action, m: Move)
    requires s.maintenance && NextStart(s, a) == Some(m)
    ensures !Admitted(m.pc) && !Owns(m.pc) && m.effect != StoreMaintenance(false) && m.effect != Insert
  {}

  lemma SealedWorker(s: Server, p: Pc, a: Action, m: Move)
    requires s.maintenance && PartOf(p) == PWorker && !Admitted(p) && NextWorker(s, p, a) == Some(m)
    ensures !Admitted(m.pc) && !Owns(m.pc) && m.effect != StoreMaintenance(false) && m.effect != Insert
  {}

  lemma SealedTask(s: Server, p: Pc, a: Action, m: Move)
    requires s.maintenance && !Admitted(p) && NextTask(s, p, a) == Some(m)
    ensures !Admitted(m.pc) && !Owns(m.pc) && m.effect != StoreMaintenance(false) && m.effect != Insert
  {}

  lemma SealedControl(p: Pc, a: Action, m: Move)
    requires NextControl(p, a) == Some(m)
    ensures !Admitted(m.pc) && !Owns(m.pc) && m.effect != StoreMaintenance(false) && m.effect != Insert
  {}

  lemma SealedFinish(s: Server, p: Pc, a: Action, m: Move)
    requires PartOf(p) == PFinish && (Owns(p) ==> p == Finishing(false)) && NextFinish(s, p, a) == Some(m)
    ensures !Admitted(m.pc) && !Owns(m.pc) && m.effect != StoreMaintenance(false) && m.effect != Insert
  {}

  // Once a restore has ended without being reconciled, the process shows maintenance for
  // the rest of every run: no request, Background body or task is admitted any more, and
  // no further restore begins.
  lemma UnreconciledStaysClosed(steps: seq<(Tid, Action)>, t: Tid, more: seq<(Tid, Action)>)
    requires Run(Boot, steps).Some? && At(Run(Boot, steps).value, t).Restoring?
    requires Run(Boot, steps + [(t, Finish(false))] + more).Some?
    ensures var s := Run(Boot, steps + [(t, Finish(false))] + more).value;
      && s.maintenance && s.tasks == {}
      && forall u :: !At(s, u).Working? && TaskOf(At(s, u)).None? && !At(s, u).Restoring?
  {
    SealedThroughout(steps, t, more);
    var s := Run(Boot, steps + [(t, Finish(false))] + more).value;
    forall u ensures !At(s, u).Working? && TaskOf(At(s, u)).None? && !At(s, u).Restoring? {
      assert !Admitted(At(s, u)) && (Owns(At(s, u)) ==> At(s, u) == Finishing(false));
    }
  }

  lemma {:induction false} SealedThroughout(steps: seq<(Tid, Action)>, t: Tid, more: seq<(Tid, Action)>)
    requires Run(Boot, steps).Some? && At(Run(Boot, steps).value, t).Restoring?
    requires Run(Boot, steps + [(t, Finish(false))] + more).Some?
    ensures Sealed(Run(Boot, steps + [(t, Finish(false))] + more).value)
  {
    hide Step, Sealed, Inv, At;
    var ended := steps + [(t, Finish(false))];
    var all := ended + more;
    if more == [] {
      assert all == ended && ended[..|ended| - 1] == steps;
      RunKeepsInv(steps);
      FinishSeals(Run(Boot, steps).value, t);
    } else {
      var last := |more| - 1;
      assert all[..|all| - 1] == ended + more[..last] && all[|all| - 1] == more[last];
      SealedThroughout(steps, t, more[..last]);
      StepKeepsSealed(Run(Boot, ended + more[..last]).value, more[last].0, more[last].1);
    }
  }

  // ----- a restore that was, or that gave up -----------------------------------------

  // Thread t makes these steps and nobody else makes any.
  function Alone(s: Server, t: Tid, actions: seq<Action>): Option<Server>
    decreases |actions|
  {
    if actions == [] then Some(s)
    else
      match Step(s, t, actions[0])
      case None => None
      case Some(r) => Alone(r, t, actions[1..])
  }

  lemma {:induction false} AloneIsRun(steps: seq<(Tid, Action)>, t: Tid, actions: seq<Action>)
    requires Run(Boot, steps).Some? && Alone(Run(Boot, steps).value, t, actions).Some?
    ensures Run(Boot, steps + seq(|actions|, i requires 0 <= i < |actions| => (t, actions[i])))
         == Alone(Run(Boot, steps).value, t, actions)
    decreases |actions|
  {
    hide Step;
    var mine := seq(|actions|, i requires 0 <= i < |actions| => (t, actions[i]));
    if actions == [] {
      assert steps + mine == steps;
    } else {
      var next := steps + [(t, actions[0])];
      assert next[..|next| - 1] == steps;
      AloneIsRun(next, t, actions[1..]);
      assert steps + mine == next + seq(|actions[1..]|, i requires 0 <= i < |actions[1..]| => (t, actions[1..][i]));
    }
  }

  function Advances(n: nat): (r: seq<Action>)
    ensures |r| == n
  {
    if n == 0 then [] else [Advance] + Advances(n - 1)
  }

  // s with thread t at pc.
  function Put(s: Server, t: Tid, pc: Pc): (r: Server)
    ensures r.maintenance == s.maintenance && r.leaseLost == s.leaseLost && r.draining == s.draining
    ensures r.mutex == s.mutex && r.readers == s.readers && r.writer == s.writer
    ensures r.tasks == s.tasks && r.closed == s.closed && r.next == s.next
  {
    s.(pcs := s.pcs[t := pc])
  }

  lemma AffectElsewhere(s: Server, t: Tid, pcs: map<Tid, Pc>, e: Effect)
    ensures Affect(s.(pcs := pcs), t, e) == Affect(s, t, e).(pcs := pcs)
  {}

  lemma PutTwice(s: Server, t: Tid, pc: Pc, m: Move)
    ensures At(Put(s, t, pc), t) == pc
    ensures Apply(Put(s, t, pc), t, m) == Put(Affect(s, t, m.effect), t, m.pc)
  {
    hide Affect;
    assert s.pcs[t := pc][t := m.pc] == s.pcs[t := m.pc];
    AffectElsewhere(s, t, s.pcs[t := pc], m.effect);
    AffectKeepsPcs(s, t, m.effect);
  }

  lemma AffectKeepsPcs(s: Server, t: Tid, e: Effect)
    ensures Affect(s, t, e).pcs == s.pcs
  {}

  lemma First(s: Server, t: Tid, pc: Pc, a: Action, m: Move, rest: seq<Action>)
    requires Next(Put(s, t, pc), pc, a) == Some(m) && Enabled(Put(s, t, pc), m.effect)
    ensures Alone(Put(s, t, pc), t, [a] + rest) == Alone(Put(Affect(s, t, m.effect), t, m.pc), t, rest)
  {
    hide Next, Affect;
    PutTwice(s, t, pc, m);
    assert ([a] + rest)[1..] == rest;
  }

  lemma FirstFinish(s: Server, t: Tid, pc: Pc, a: Action, m: Move, rest: seq<Action>)
    requires PartOf(pc) == PFinish && NextFinish(s, pc, a) == Some(m)
    ensures Alone(Put(s, t, pc), t, [a] + rest) == Alone(Put(Affect(s, t, m.effect), t, m.pc), t, rest)
  {
    hide Affect, Alone, Put, NextStart, NextWorker, NextTask, NextControl, NextRestore;
    FinishIsEnabled(s, Put(s, t, pc), pc, a, m);
    First(s, t, pc, a, m, rest);
  }

  lemma FinishIsEnabled(s: Server, r: Server, pc: Pc, a: Action, m: Move)
    requires NextFinish(s, pc, a) == Some(m) && r.leaseLost == s.leaseLost
    ensures NextFinish(r, pc, a) == Some(m) && Enabled(r, m.effect)
  {}

  // Clearing, with the activity lock held or not, reopens the process unless its lease is
  // lost; the thread ends outside the lock either way.
  lemma Clears(s: Server, t: Tid, locked: bool)
    requires s.maintenance
    ensures Alone(Put(s, t, Clearing(locked)), t, Advances((if s.leaseLost then 2 else 4) + if locked then 1 else 0))
         == Some(Put(s.(maintenance := s.leaseLost, writer := if locked then None else s.writer), t, Idle))
  {
    hide Alone, Put, Next;
    var n := if locked then 2 else 1;
    if s.leaseLost {
      FirstFinish(s, t, Clearing(locked), Advance, Move(Cleared(locked), Nothing), Advances(n));
      Leaves(s, t, locked);
    } else {
      var r := s.(maintenance := false);
      Stores(s, t, locked, Advances(n + 1));
      FirstFinish(r, t, ClearRecheck(locked), Advance, Move(Cleared(locked), Nothing), Advances(n));
      Leaves(r, t, locked);
    }
  }

  lemma Stores(s: Server, t: Tid, locked: bool, rest: seq<Action>)
    requires s.maintenance && !s.leaseLost
    ensures Alone(Put(s, t, Clearing(locked)), t, [Advance] + ([Advance] + rest))
         == Alone(Put(s.(maintenance := false), t, ClearRecheck(locked)), t, rest)
  {
    hide Alone, Put, Next, Affect;
    Effects(s, t);
    FirstFinish(s, t, Clearing(locked), Advance, Move(ClearStore(locked), Nothing), [Advance] + rest);
    FirstFinish(s, t, ClearStore(locked), Advance, Move(ClearRecheck(locked), StoreMaintenance(false)), rest);
  }

  lemma Leaves(s: Server, t: Tid, locked: bool)
    ensures Alone(Put(s, t, Cleared(locked)), t, Advances(if locked then 2 else 1))
         == Some(Put(s.(writer := if locked then None else s.writer), t, Idle))
  {
    hide Alone, Put, Next, Affect;
    Effects(s, t);
    Effects(s.(writer := None), t);
    if locked {
      FirstFinish(s, t, Unlocking(false), Advance, Move(Replying, UnlockWriter), Advances(1));
    }
    var r := s.(writer := if locked then None else s.writer);
    FirstFinish(r, t, Replying, Advance, Move(Idle, Nothing), []);
    NoMore(Put(r, t, Idle), t);
  }

  lemma NoMore(s: Server, t: Tid)
    ensures Alone(s, t, []) == Some(s)
  {}

  lemma Begins(s: Server, t: Tid, a: Action, m: Move, rest: seq<Action>)
    requires Next(s, At(s, t), a) == Some(m) && Enabled(s, m.effect)
    ensures Alone(s, t, [a] + rest) == Alone(Put(Affect(s, t, m.effect), t, m.pc), t, rest)
  {
    hide Next, Affect;
    AffectKeepsPcs(s, t, m.effect);
    assert ([a] + rest)[1..] == rest;
  }

  // The three effects on the way out.
  lemma Effects(s: Server, t: Tid)
    ensures Affect(s, t, Nothing) == s
    ensures Affect(s, t, UnlockWriter) == s.(writer := None)
    ensures Affect(s, t, StoreMaintenance(false)) == s.(maintenance := false)
  {}

  lemma OwnerShows(s: Server, t: Tid)
    requires Inv(s) && Owns(At(s, t))
    ensures s.maintenance && (HoldsWrite(At(s, t)) ==> s.writer == Some(t))
  {}

  // After a reconciled restore the thread alone reopens the process and gives the lock
  // back, unless the lease is lost: then maintenance stays.
  lemma ReconciledReopens(steps: seq<(Tid, Action)>, t: Tid)
    requires Run(Boot, steps).Some? && At(Run(Boot, steps).value, t).Restoring?
    ensures var s := Run(Boot, steps).value;
      && s.maintenance && s.writer == Some(t)
      && Alone(s, t, [Finish(true)] + Advances(if s.leaseLost then 4 else 6))
         == Some(Put(s.(maintenance := s.leaseLost, writer := None), t, Idle))
  {
    hide Alone, Put, Next, Inv, Advances, At;
    var s := Run(Boot, steps).value;
    RunKeepsInv(steps);
    OwnerShows(s, t);
    ReopensFrom(s, t);
  }

  lemma ReopensFrom(s: Server, t: Tid)
    requires At(s, t).Restoring? && s.maintenance
    ensures Alone(s, t, [Finish(true)] + Advances(if s.leaseLost then 4 else 6))
         == Some(Put(s.(maintenance := s.leaseLost, writer := None), t, Idle))
  {
    hide Alone, Put, Next, Affect, At;
    var n := if s.leaseLost then 3 else 5;
    Effects(s, t);
    RestoringNext(s, At(s, t), true);
    Begins(s, t, Finish(true), Move(Finishing(true), Nothing), Advances(n + 1));
    FirstFinish(s, t, Finishing(true), Advance, Move(Clearing(true), Nothing), Advances(n));
    Clears(s, t, true);
  }

  // After one that was not, it gives back the lock only.
  lemma UnreconciledLeaves(steps: seq<(Tid, Action)>, t: Tid)
    requires Run(Boot, steps).Some? && At(Run(Boot, steps).value, t).Restoring?
    ensures var s := Run(Boot, steps).value;
      Alone(s, t, [Finish(false)] + Advances(3)) == Some(Put(s.(writer := None), t, Idle))
  {
    hide Alone, Put, Next, Inv, Affect;
    var s := Run(Boot, steps).value;
    Effects(s, t);
    RestoringNext(s, At(s, t), false);
    Begins(s, t, Finish(false), Move(Finishing(false), Nothing), Advances(3));
    FirstFinish(s, t, Finishing(false), Advance, Move(Unlocking(false), Nothing), Advances(2));
    Leaves(s, t, true);
  }

  lemma RestoringNext(s: Server, p: Pc, reconciled: bool)
    requires p == Restoring
    ensures Next(s, p, Finish(reconciled)) == Some(Move(Finishing(reconciled), Nothing))
  {}

  // A restore that gives up earlier, while it drains, before it has the lock for sure, or
  // when the lease is refused, reopens the process in the same way.
  predicate MayGiveUp(pc: Pc) { pc.RestoreDraining? || pc.RestoreDrained? || pc.RestoreExclusive? || pc.RestoreLeasing? }

  lemma GivingUpReopens(steps: seq<(Tid, Action)>, t: Tid)
    requires Run(Boot, steps).Some? && MayGiveUp(At(Run(Boot, steps).value, t))
    ensures var s := Run(Boot, steps).value;
      var locked := At(s, t).RestoreExclusive? || At(s, t).RestoreLeasing?;
      && s.maintenance && (locked ==> s.writer == Some(t))
      && Alone(s, t, [GiveUp] + Advances((if s.leaseLost then 2 else 4) + if locked then 1 else 0))
         == Some(Put(s.(maintenance := s.leaseLost, writer := if locked then None else s.writer), t, Idle))
  {
    hide Alone, Put, Next, Inv, Advances, At, HoldsWrite, Owns;
    var s := Run(Boot, steps).value;
    RunKeepsInv(steps);
    GiveUpClasses(s, At(s, t));
    OwnerShows(s, t);
    GivesUpFrom(s, t);
  }

  lemma GivesUpFrom(s: Server, t: Tid)
    requires MayGiveUp(At(s, t)) && s.maintenance
    ensures var locked := At(s, t).RestoreExclusive? || At(s, t).RestoreLeasing?;
      Alone(s, t, [GiveUp] + Advances((if s.leaseLost then 2 else 4) + if locked then 1 else 0))
      == Some(Put(s.(maintenance := s.leaseLost, writer := if locked then None else s.writer), t, Idle))
  {
    hide Alone, Put, Next, Affect, At, HoldsWrite, Owns;
    GiveUpClasses(s, At(s, t));
    Effects(s, t);
    var n := if s.leaseLost then 2 else 4;
    if At(s, t).RestoreExclusive? || At(s, t).RestoreLeasing? {
      Begins(s, t, GiveUp, Move(Unlocking(true), Nothing), Advances(n + 1));
      FirstFinish(s, t, Unlocking(true), Advance, Move(Clearing(false), UnlockWriter), Advances(n));
      Clears(s.(writer := None), t, false);
    } else {
      Begins(s, t, GiveUp, Move(Clearing(false), Nothing), Advances(n));
      Clears(s, t, false);
    }
  }

  lemma GiveUpClasses(s: Server, p: Pc)
    requires MayGiveUp(p)
    ensures Owns(p) && (HoldsWrite(p) <==> p.RestoreExclusive? || p.RestoreLeasing?)
    ensures Next(s, p, GiveUp) == Some(Move(if HoldsWrite(p) then Unlocking(true) else Clearing(false), Nothing))
  {}

  // An open process does admit.
  lemma OpenAdmits(s: Server, t: Tid, w: Worker)
    requires At(s, t).Idle? && !s.maintenance && !s.leaseLost && s.writer.None?
    ensures Alone(s, t, [StartWorker(w)] + Advances(4)) == Some(Put(s.(readers := s.readers + {t}), t, Working(w)))
  {
    hide Alone, Put, NextTask, NextControl, NextRestore, NextFinish;
    Begins(s, t, StartWorker(w), Move(Peeked(w), Nothing), Advances(4));
    First(s, t, Peeked(w), Advance, Move(Entered(w), Nothing), Advances(3));
    First(s, t, Entered(w), Advance, Move(Admitting(w), AddReader), Advances(2));
    var r := s.(readers := s.readers + {t});
    Looks(r, t, w);
  }

  lemma Looks(s: Server, t: Tid, w: Worker)
    requires !s.maintenance && !s.leaseLost
    ensures Alone(Put(s, t, Admitting(w)), t, Advances(2)) == Some(Put(s, t, Working(w)))
  {
    hide Alone, Put, NextTask, NextControl, NextRestore, NextFinish;
    First(s, t, Admitting(w), Advance, Move(Looked(w), Nothing), Advances(1));
    First(s, t, Looked(w), Advance, Move(Working(w), Nothing), []);
    NoMore(Put(s, t, Working(w)), t);
  }

  lemma FirstTask(s: Server, t: Tid, pc: Pc, m: Move, rest: seq<Action>)
    requires PartOf(pc) == PTask && NextTask(s, pc, Advance) == Some(m) && Enabled(s, m.effect)
    ensures Alone(Put(s, t, pc), t, [Advance] + rest) == Alone(Put(Affect(s, t, m.effect), t, m.pc), t, rest)
  {
    hide Affect, Alone, Put, NextStart, NextWorker, NextFinish, NextControl, NextRestore;
    TaskIsEnabled(s, Put(s, t, pc), pc, m);
    First(s, t, pc, Advance, m, rest);
  }

  lemma TaskIsEnabled(s: Server, r: Server, pc: Pc, m: Move)
    requires NextTask(s, pc, Advance) == Some(m) && Enabled(s, m.effect)
    requires r.maintenance == s.maintenance && r.leaseLost == s.leaseLost && r.draining == s.draining && r.next == s.next
    requires r.mutex == s.mutex && r.readers == s.readers && r.writer == s.writer
    ensures NextTask(r, pc, Advance) == Some(m) && Enabled(r, m.effect)
  {}

  // A step of a task that only looks.
  lemma TaskLooks(s: Server, t: Tid, pc: Pc, next: Pc, n: nat)
    requires PartOf(pc) == PTask && NextTask(s, pc, Advance) == Some(Move(next, Nothing))
    ensures Alone(Put(s, t, pc), t, Advances(n + 1)) == Alone(Put(s, t, next), t, Advances(n))
  {
    hide Alone, Put, NextTask, PartOf;
    FirstTask(s, t, pc, Move(next, Nothing), Advances(n));
  }

  // And so does a task get registered, and then run with the mutex free again.
  lemma OpenRegisters(s: Server, t: Tid)
    requires At(s, t).Idle? && !s.maintenance && !s.leaseLost && !s.draining && s.mutex.None?
    ensures Alone(s, t, [StartTask] + Advances(8))
         == Some(Put(s.(next := s.next + 1, tasks := s.tasks + {s.next + 1}), t, TaskWorking(s.next + 1)))
  {
    hide Alone, Put, Next, Advances;
    TaskBegins(s, t, Advances(8));
    TaskLooks(s, t, TaskPeeked, TaskPeekedLease, 7);
    TaskLooks(s, t, TaskPeekedLease, TaskEntered, 6);
    TaskEnters(s, t);
    Registers(s, t);
  }

  lemma TaskEnters(s: Server, t: Tid)
    requires s.mutex.None?
    ensures Alone(Put(s, t, TaskEntered), t, Advances(6)) == Alone(Put(s.(mutex := Some(t)), t, TaskLocked), t, Advances(5))
  {
    hide Alone, Put, Next, Affect;
    TaskEffects(s, t);
    FirstTask(s, t, TaskEntered, Move(TaskLocked, LockMutex), Advances(5));
  }

  lemma TaskBegins(s: Server, t: Tid, rest: seq<Action>)
    requires At(s, t).Idle? && !s.maintenance
    ensures Alone(s, t, [StartTask] + rest) == Alone(Put(s, t, TaskPeeked), t, rest)
  {
    hide Alone, Put, NextTask, NextWorker, NextFinish, NextControl, NextRestore;
    Begins(s, t, StartTask, Move(TaskPeeked, Nothing), rest);
  }

  lemma Registers(s: Server, t: Tid)
    requires s.mutex.None? && !s.maintenance && !s.leaseLost && !s.draining
    ensures Alone(Put(s.(mutex := Some(t)), t, TaskLocked), t, Advances(5))
         == Some(Put(s.(next := s.next + 1, tasks := s.tasks + {s.next + 1}), t, TaskWorking(s.next + 1)))
  {
    hide Alone, Put, Next, Advances;
    var r := s.(mutex := Some(t));
    TaskLooks(r, t, TaskLocked, TaskLooked, 4);
    TaskLooks(r, t, TaskLooked, TaskLookedLease, 3);
    TaskLooks(r, t, TaskLookedLease, TaskAdmitted, 2);
    Inserts(s, t);
  }

  lemma Inserts(s: Server, t: Tid)
    requires s.mutex.None?
    ensures Alone(Put(s.(mutex := Some(t)), t, TaskAdmitted), t, Advances(2))
         == Some(Put(s.(next := s.next + 1, tasks := s.tasks + {s.next + 1}), t, TaskWorking(s.next + 1)))
  {
    hide Alone, Put, Next, Affect;
    var id := s.next + 1;
    var held := s.(mutex := Some(t));
    var inserted := held.(next := id, tasks := s.tasks + {id});
    TaskEffects(held, t);
    TaskEffects(inserted, t);
    FirstTask(held, t, TaskAdmitted, Move(TaskInserted(id), Insert), Advances(1));
    FirstTask(inserted, t, TaskInserted(id), Move(TaskWorking(id), UnlockMutex), []);
    NoMore(Put(inserted.(mutex := None), t, TaskWorking(id)), t);
  }

  lemma TaskEffects(s: Server, t: Tid)
    ensures Affect(s, t, Nothing) == s
    ensures Affect(s, t, LockMutex) == s.(mutex := Some(t))
    ensures Affect(s, t, UnlockMutex) == s.(mutex := None)
    ensures Affect(s, t, Insert) == s.(next := s.next + 1, tasks := s.tasks + {s.next + 1})
  {}

  lemma FirstControl(s: Server, t: Tid, pc: Pc, m: Move, n: nat)
    requires PartOf(pc) == PControl && NextControl(pc, Advance) == Some(m) && Enabled(s, m.effect)
    ensures Alone(Put(s, t, pc), t, Advances(n + 1)) == Alone(Put(Affect(s, t, m.effect), t, m.pc), t, Advances(n))
  {
    hide Affect, Alone, Put, NextStart, NextWorker, NextFinish, NextTask, NextRestore;
    SameLocks(s, Put(s, t, pc), m.effect);
    First(s, t, pc, Advance, m, Advances(n));
  }

  lemma SameLocks(s: Server, r: Server, e: Effect)
    requires Enabled(s, e) && r.mutex == s.mutex && r.readers == s.readers && r.writer == s.writer
    ensures Enabled(r, e)
  {}

  lemma ControlEffects(s: Server, t: Tid)
    ensures Affect(s, t, StoreLeaseLost) == s.(leaseLost := true)
    ensures Affect(s, t, StoreMaintenance(true)) == s.(maintenance := true)
    ensures Affect(s, t, StoreDraining) == s.(draining := true)
    ensures Affect(s, t, LockMutex) == s.(mutex := Some(t))
    ensures Affect(s, t, UnlockMutex) == s.(mutex := None)
  {}

  // Failing closed marks the lease as lost and shows maintenance, and nothing else stays
  // changed.
  lemma FailingCloses(s: Server, t: Tid)
    requires At(s, t).Idle? && s.mutex.None?
    ensures Alone(s, t, [StartFailClosed] + Advances(3)) == Some(Put(s.(leaseLost := true, maintenance := true), t, Idle))
  {
    hide Alone, Put, Next, Affect, Advances, Enabled;
    var shown := s.(leaseLost := true, maintenance := true);
    MarksAndShows(s, t);
    LocksAndLeaves(shown, t, FailStored, FailLocked);
  }

  lemma MarksAndShows(s: Server, t: Tid)
    requires At(s, t).Idle?
    ensures Alone(s, t, [StartFailClosed] + Advances(3))
         == Alone(Put(s.(leaseLost := true, maintenance := true), t, FailStored), t, Advances(2))
  {
    hide Alone, Put, Next, Affect, Advances, Enabled;
    var lost := s.(leaseLost := true);
    ControlEffects(s, t);
    ControlEffects(lost, t);
    StoresAreEnabled(s);
    StoresAreEnabled(lost);
    ControlBegins(s, t, StartFailClosed, Move(FailMarked, StoreLeaseLost), 3);
    FirstControl(lost, t, FailMarked, Move(FailStored, StoreMaintenance(true)), 2);
  }

  // And a shutdown sets its flag.
  lemma ShutdownSetsFlag(s: Server, t: Tid)
    requires At(s, t).Idle? && s.mutex.None?
    ensures Alone(s, t, [StartShutdown] + Advances(2)) == Some(Put(s.(draining := true), t, Idle))
  {
    hide Alone, Put, Next, Affect, Advances, Enabled;
    var held := s.(mutex := Some(t));
    ControlEffects(s, t);
    ControlEffects(held, t);
    ControlEffects(held.(draining := true), t);
    StoresAreEnabled(held);
    StoresAreEnabled(held.(draining := true));
    MutexIsEnabled(s);
    ControlBegins(s, t, StartShutdown, Move(ShutdownLocked, LockMutex), 2);
    FirstControl(held, t, ShutdownLocked, Move(ShutdownStored, StoreDraining), 1);
    FirstControl(held.(draining := true), t, ShutdownStored, Move(Idle, UnlockMutex), 0);
    NoneLeft(Put(s.(draining := true), t, Idle), t);
  }

  lemma LocksAndLeaves(s: Server, t: Tid, pc: Pc, locked: Pc)
    requires s.mutex.None? && pc == FailStored && locked == FailLocked
    ensures Alone(Put(s, t, pc), t, Advances(2)) == Some(Put(s, t, Idle))
  {
    hide Alone, Put, Next, Affect, Advances, Enabled;
    var held := s.(mutex := Some(t));
    ControlEffects(s, t);
    ControlEffects(held, t);
    MutexIsEnabled(s);
    StoresAreEnabled(held);
    FirstControl(s, t, pc, Move(locked, LockMutex), 1);
    FirstControl(held, t, locked, Move(Idle, UnlockMutex), 0);
    NoneLeft(Put(s, t, Idle), t);
  }

  lemma MutexIsEnabled(s: Server)
    ensures s.mutex.None? ==> Enabled(s, LockMutex)
  {}

  lemma StoresAreEnabled(s: Server)
    ensures Enabled(s, StoreMaintenance(true)) && Enabled(s, StoreLeaseLost)
    ensures Enabled(s, StoreDraining) && Enabled(s, UnlockMutex)
  {}

  lemma NoneLeft(s: Server, t: Tid)
    ensures Alone(s, t, Advances(0)) == Some(s)
  {}

  lemma ControlBegins(s: Server, t: Tid, a: Action, m: Move, n: nat)
    requires At(s, t).Idle? && NextStart(s, a) == Some(m) && Enabled(s, m.effect)
    ensures Alone(s, t, [a] + Advances(n)) == Alone(Put(Affect(s, t, m.effect), t, m.pc), t, Advances(n))
  {
    hide Alone, Put, NextTask, NextWorker, NextFinish, NextControl, NextRestore, NextStart;
    Begins(s, t, a, m, Advances(n));
  }

  // ----- after a shutdown ---------------------------------------------------------------

  // Nobody is between the check of the draining flag and the registration.
  ghost predicate Drains(s: Server) {
    s.draining ==> forall u {:trigger At(s, u)} :: !At(s, u).TaskAdmitted?
  }

  lemma StepKeepsDrains(s: Server, t: Tid, a: Action)
    requires Inv(s) && Drains(s) && Step(s, t, a).Some?
    ensures Drains(Step(s, t, a).value)
    ensures s.draining ==>
      Step(s, t, a).value.draining && Step(s, t, a).value.next == s.next && Step(s, t, a).value.tasks <= s.tasks
  {
    hide Next, At, Inv, HoldsMutex;
    var m := Next(s, At(s, t), a).value;
    AtOthers(s, t, m);
    DrainingMove(s, At(s, t), a, m);
    if m.effect == StoreDraining {
      forall u ensures !At(s, u).TaskAdmitted? {
        NobodyRegisters(s, t, u);
      }
    }
  }

  lemma NobodyRegisters(s: Server, t: Tid, u: Tid)
    requires Inv(s) && At(s, t).ShutdownLocked?
    ensures !At(s, u).TaskAdmitted?
  {
    assert HoldsMutex(At(s, t)) && (At(s, u).TaskAdmitted? ==> HoldsMutex(At(s, u)));
  }

  lemma DrainingMove(s: Server, p: Pc, a: Action, m: Move)
    requires Next(s, p, a) == Some(m)
    ensures m.pc.TaskAdmitted? ==> !s.draining && m.effect == Nothing
    ensures m.effect == Insert ==> p.TaskAdmitted?
    ensures m.effect == StoreDraining ==> p.ShutdownLocked? && !m.pc.TaskAdmitted?
  {
    hide NextStart, NextWorker, NextTask, NextControl, NextRestore, NextFinish;
    match PartOf(p) {
      case PStart => DrainingStart(s, a, m);
      case PWorker => DrainingWorker(s, p, a, m);
      case PTask => DrainingTask(s, p, a, m);
      case PControl => DrainingControl(p, a, m);
      case PRestore => DrainingRestore(s, p, a, m);
      case PFinish => DrainingFinish(s, p, a, m);
    }
  }

  lemma DrainingStart(s: Server, a: Action, m: Move)
    requires NextStart(s, a) == Some(m)
    ensures !m.pc.TaskAdmitted? && m.effect != Insert && m.effect != StoreDraining
  {}

  lemma DrainingWorker(s: Server, p: Pc, a: Action, m: Move)
    requires NextWorker(s, p, a) == Some(m)
    ensures !m.pc.TaskAdmitted? && m.effect != Insert && m.effect != StoreDraining
  {}

  lemma DrainingTask(s: Server, p: Pc, a: Action, m: Move)
    requires NextTask(s, p, a) == Some(m)
    ensures m.pc.TaskAdmitted? ==> !s.draining && m.effect == Nothing
    ensures (m.effect == Insert ==> p.TaskAdmitted?) && m.effect != StoreDraining
  {}

  lemma DrainingControl(p: Pc, a: Action, m: Move)
    requires NextControl(p, a) == Some(m)
    ensures !m.pc.TaskAdmitted? && m.effect != Insert && (m.effect == StoreDraining ==> p.ShutdownLocked?)
  {}

  lemma DrainingRestore(s: Server, p: Pc, a: Action, m: Move)
    requires NextRestore(s, p, a) == Some(m)
    ensures !m.pc.TaskAdmitted? && m.effect != Insert && m.effect != StoreDraining
  {}

  lemma DrainingFinish(s: Server, p: Pc, a: Action, m: Move)
    requires NextFinish(s, p, a) == Some(m)
    ensures !m.pc.TaskAdmitted? && m.effect != Insert && m.effect != StoreDraining
  {}

  lemma {:induction false} RunDrains(steps: seq<(Tid, Action)>)
    requires Run(Boot, steps).Some?
    ensures Drains(Run(Boot, steps).value)
  {
    hide Step, Drains, Inv;
    if steps == [] {
      BootDrains();
    } else {
      var last := |steps| - 1;
      RunDrains(steps[..last]);
      RunKeepsInv(steps[..last]);
      StepKeepsDrains(Run(Boot, steps[..last]).value, steps[last].0, steps[last].1);
    }
  }

  lemma BootDrains()
    ensures Drains(Boot)
  {}

  // Once a shutdown has set the flag, no task is registered any more, in any
  // interleaving: those that are registered can only finish.
  lemma {:induction false} ShutdownEndsRegistration(steps: seq<(Tid, Action)>, more: seq<(Tid, Action)>)
    requires Run(Boot, steps).Some? && Run(Boot, steps).value.draining && Run(Boot, steps + more).Some?
    ensures var before, after := Run(Boot, steps).value, Run(Boot, steps + more).value;
      after.draining && after.next == before.next && after.tasks <= before.tasks
  {
    hide Step, Drains, Inv;
    if more == [] {
      assert steps + more == steps;
    } else {
      var last := |more| - 1;
      var all := steps + more;
      assert all[..|all| - 1] == steps + more[..last] && all[|all| - 1] == more[last];
      ShutdownEndsRegistration(steps, more[..last]);
      RunDrains(steps + more[..last]);
      RunKeepsInv(steps + more[..last]);
      StepKeepsDrains(Run(Boot, steps + more[..last]).value, more[last].0, more[last].1);
    }
  }

  // ----- after the lease is lost ----------------------------------------------------------

  // From then on, whatever else happens, a step that begins work is that of a request
  // whose restore is refused and that goes on, and no task or restore passes its check.
  lemma LostLeaseAdmitsNobody(steps: seq<(Tid, Action)>, more: seq<(Tid, Action)>, t: Tid, a: Action)
    requires Run(Boot, steps).Some? && Run(Boot, steps).value.leaseLost && Run(Boot, steps + more).Some?
    requires Step(Run(Boot, steps + more).value, t, a).Some?
    ensures var s := Run(Boot, steps + more).value;
      var next := At(Step(s, t, a).value, t);
      && (next.Working? ==> At(s, t).RestoreAsked? || At(s, t).Working?)
      && !next.TaskLookedLease? && !next.TaskPeekedLease? && !next.RestoreLeasing?
  {
    hide Next, At, Run;
    LossIsPermanent(steps, more);
    var s := Run(Boot, steps + more).value;
    var m := Next(s, At(s, t), a).value;
    AtOthers(s, t, m);
    LostMove(s, At(s, t), a, m);
  }

  lemma LostMove(s: Server, p: Pc, a: Action, m: Move)
    requires s.leaseLost && Next(s, p, a) == Some(m)
    ensures m.pc.Working? ==> p.RestoreAsked? || p.Working?
    ensures !m.pc.TaskLookedLease? && !m.pc.TaskPeekedLease? && !m.pc.RestoreLeasing?
  {
    hide NextStart, NextWorker, NextTask, NextControl, NextRestore, NextFinish;
    match PartOf(p) {
      case PStart => LostStart(s, a, m);
      case PWorker => LostWorker(s, p, a, m);
      case PTask => LostTask(s, p, a, m);
      case PControl => LostControl(p, a, m);
      case PRestore => LostRestore(s, p, a, m);
      case PFinish => LostFinish(s, p, a, m);
    }
  }

  lemma LostStart(s: Server, a: Action, m: Move)
    requires NextStart(s, a) == Some(m)
    ensures !m.pc.Working? && !m.pc.TaskLookedLease? && !m.pc.TaskPeekedLease? && !m.pc.RestoreLeasing?
  {}

  lemma LostWorker(s: Server, p: Pc, a: Action, m: Move)
    requires s.leaseLost && NextWorker(s, p, a) == Some(m)
    ensures (m.pc.Working? ==> p.Working?) && !m.pc.TaskLookedLease? && !m.pc.TaskPeekedLease? && !m.pc.RestoreLeasing?
  {}

  lemma LostTask(s: Server, p: Pc, a: Action, m: Move)
    requires s.leaseLost && NextTask(s, p, a) == Some(m)
    ensures !m.pc.Working? && !m.pc.TaskLookedLease? && !m.pc.TaskPeekedLease? && !m.pc.RestoreLeasing?
  {}

  lemma LostControl(p: Pc, a: Action, m: Move)
    requires NextControl(p, a) == Some(m)
    ensures !m.pc.Working? && !m.pc.TaskLookedLease? && !m.pc.TaskPeekedLease? && !m.pc.RestoreLeasing?
  {}

  lemma LostRestore(s: Server, p: Pc, a: Action, m: Move)
    requires s.leaseLost && NextRestore(s, p, a) == Some(m)
    ensures (m.pc.Working? ==> p.RestoreAsked?) && !m.pc.TaskLookedLease? && !m.pc.TaskPeekedLease? && !m.pc.RestoreLeasing?
  {}

  lemma LostFinish(s: Server, p: Pc, a: Action, m: Move)
    requires NextFinish(s, p, a) == Some(m)
    ensures !m.pc.Working? && !m.pc.TaskLookedLease? && !m.pc.TaskPeekedLease? && !m.pc.RestoreLeasing?
  {}
}
