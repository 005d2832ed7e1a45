// The cluster-wide backup scheduler (internal/backup/backup.go, tick to
// settleInterruptedAttempts; internal/backup/scheduler.go): ticks of several
// processes under one advisory lease, a durable row per destination, crashes at
// any step, and results of manual runs arriving at any time. What was written to
// the row is kept as a log; a process holds the lease for its whole tick.
module Scheduler {
  import opened Wrappers

  type Pid = int
  type Time = int  // 0 stands for Go's zero time

  const BACKOFF: Time := 15 * 60  // statusRetryBackoff, in seconds

  datatype Dest = Volume | S3

  // One destination's columns; NULL is None.
  datatype Row = Row(last: Option<Time>, retry: Option<Time>, attempt: Option<Time>)

  // What happened to the row of destination d.
  datatype Event =
    // markSchedulerAttempt took effect; the run follows unless the caller saw an
    // error. due is the cron occurrence it answers, at the part of the log it saw.
    | Began(d: Dest, now: Time, due: Time, at: nat, running: bool)
    | Recorded(d: Dest, ok: bool, stamp: Time, scheduled: bool)  // recordSchedulerResult
    | Settled(d: Dest, startedAt: Time)          // counted as an interrupted run
    | Cleared(d: Dest)                           // clearSchedulerAttempt
    | Seeded(d: Dest, last: Time)                // from the legacy status file

  function ApplyEvent(row: Row, e: Event): Row {
    match e
    case Began(_, now, _, _, _) => row.(attempt := Some(now), retry := Some(now + BACKOFF))
    case Recorded(_, true, stamp, _) => Row(Some(stamp), None, None)
    case Recorded(_, false, stamp, _) => row.(retry := Some(stamp + BACKOFF), attempt := None)
    case Settled(_, _) => row
    case Cleared(_) => row.(attempt := None)
    case Seeded(_, last) => row.(last := Some(last))
  }

  // The row of d after the whole log.
  function Replay(log: seq<Event>, d: Dest): Row {
    if log == [] then Row(None, None, None)
    else
      var before, e := Replay(log[..|log| - 1], d), log[|log| - 1];
      if e.d == d then ApplyEvent(before, e) else before
  }

  // The attempt of d that has neither a result nor been counted as interrupted.
  function Unsettled(log: seq<Event>, d: Dest): Option<Time> {
    if log == [] then None
    else
      var before, e := Unsettled(log[..|log| - 1], d), log[|log| - 1];
      if e.d != d then before
      else if e.Began? then Some(e.now)
      else if e.Recorded? || e.Settled? then None
      else before
  }

  // What loadSchedulerState hands to the tick for one destination.
  datatype View = View(last: Time, retry: Time, attempt: Option<Time>)
  datatype Views = Views(volume: View, s3: View)

  function Of(views: Views, d: Dest): View { if d.Volume? then views.volume else views.s3 }

  function OrZero(t: Option<Time>): Time { if t.Some? then t.value else 0 }

  datatype Pc =
    | Idle
    | Leased
    | Stamped(now: Time)
    | Settling(now: Time, seen: Views, at: nat, d: Dest)
    | Deciding(now: Time, seen: Views, at: nat, d: Dest)
    | Running(now: Time, seen: Views, at: nat, d: Dest)
    | Recording(now: Time, seen: Views, at: nat, d: Dest, ok: bool)
    | Leaving

  datatype Sys = Sys(
    clock: Time,
    log: seq<Event>,
    lease: Option<Pid>,                // holder of the scheduler lease
    pcs: map<Pid, Pc>,
    local: map<(Pid, Dest), Time>)     // volRetryAt and s3RetryAt of each process

  const Boot := Sys(1, [], None, map[], map[])

  function At(s: Sys, p: Pid): Pc { if p in s.pcs then s.pcs[p] else Idle }

  function Local(s: Sys, p: Pid, d: Dest): Time { if (p, d) in s.local then s.local[(p, d)] else 0 }

  datatype Action =
    | Wait(seconds: nat)
    | Acquire(p: Pid)
    | Stamp(p: Pid)
    | Load(p: Pid, fallback: map<Dest, Time>)
    | LoadFails(p: Pid)
    | Settle(p: Pid, cleared: bool)
    // The next cron occurrence after the last success (None: switched off), and
    // whether the attempt marker was written and whether an error was reported.
    | Decide(p: Pid, next: Option<Time>, written: bool, failed: bool)
    | EndRun(p: Pid, ok: bool)
    | Persist(p: Pid, written: bool, failed: bool)
    | Leave(p: Pid)
    | Crash(p: Pid)
    | Manual(d: Dest, ok: bool, stamp: Time)  // ManualVolume, ManualS3, RunScheduled

  // ----- the steps ---------------------------------------------------------------

  function Goto(s: Sys, p: Pid, pc: Pc): Sys { s.(pcs := s.pcs[p := pc]) }

  function Log(s: Sys, events: seq<Event>): Sys { s.(log := s.log + events) }

  function AfterDeciding(pc: Pc): Pc
    requires pc.Deciding? || pc.Recording?
  {
    if pc.d.Volume? then Deciding(pc.now, pc.seen, pc.at, S3) else Leaving
  }

  // setLocalRetry
  function HoldBack(s: Sys, p: Pid, d: Dest, now: Time): Sys { s.(local := s.local[(p, d) := now + BACKOFF]) }

  function Seeds(s: Sys, fallback: map<Dest, Time>): seq<Event> {
    SeedOf(s, fallback, Volume) + SeedOf(s, fallback, S3)
  }

  function SeedOf(s: Sys, fallback: map<Dest, Time>, d: Dest): seq<Event> {
    if Replay(s.log, d).last.None? && d in fallback && fallback[d] != 0 then [Seeded(d, fallback[d])] else []
  }

  function ViewOf(log: seq<Event>, d: Dest, local: Time): View {
    var row := Replay(log, d);
    View(OrZero(row.last), if row.retry.Some? then row.retry.value else local, row.attempt)
  }

  function StepLoad(s: Sys, p: Pid, fallback: map<Dest, Time>): Option<Sys> {
    match At(s, p)
    case Stamped(now) =>
      var r := Log(s, Seeds(s, fallback));
      var seen := Views(ViewOf(r.log, Volume, Local(s, p, Volume)), ViewOf(r.log, S3, Local(s, p, S3)));
      Some(Goto(r, p, Settling(now, seen, |r.log|, Volume)))
    case _ => None
  }

  function StepSettle(s: Sys, p: Pid, cleared: bool): Option<Sys> {
    match At(s, p)
    case Settling(now, seen, at, d) =>
      var next := if d.Volume? then Settling(now, seen, at, S3) else Deciding(now, seen, at, Volume);
      var attempt := Of(seen, d).attempt;
      Some(Goto(Log(s, if attempt.None? then []
                       else [Settled(d, attempt.value)] + (if cleared then [Cleared(d)] else [])), p, next))
    case _ => None
  }

  function StepDecide(s: Sys, p: Pid, next: Option<Time>, written: bool, failed: bool): Option<Sys> {
    match At(s, p)
    case Deciding(now, seen, at, d) =>
      var view := Of(seen, d);
      if next.Some? && next.value <= view.last then None  // cron: Next(t) is after t
      else if next.None? || now < next.value || now <= view.retry then Some(Goto(s, p, AfterDeciding(At(s, p))))
      else if !written && !failed then None
      else
        var r := if written then Log(s, [Began(d, now, next.value, at, !failed)]) else s;
        Some(if failed then Goto(HoldBack(r, p, d, now), p, AfterDeciding(At(s, p)))
             else Goto(r, p, Running(now, seen, at, d)))
    case _ => None
  }

  function StepPersist(s: Sys, p: Pid, written: bool, failed: bool): Option<Sys> {
    match At(s, p)
    case Recording(now, seen, at, d, ok) =>
      if !written && !failed then None
      else
        var r := if written then Log(s, [Recorded(d, ok, now, true)]) else s;
        Some(Goto(if failed || !ok then HoldBack(r, p, d, now) else r, p, AfterDeciding(At(s, p))))
    case _ => None
  }

  function Step(s: Sys, a: Action): Option<Sys> {
    match a
    case Wait(seconds) => Some(s.(clock := s.clock + seconds))
    case Acquire(p) => if s.lease.None? then Some(Goto(s, p, Leased).(lease := Some(p))) else None
    case Stamp(p) => if At(s, p).Leased? then Some(Goto(s, p, Stamped(s.clock))) else None
    case Load(p, fallback) => StepLoad(s, p, fallback)
    case LoadFails(p) => if At(s, p).Stamped? then Some(Goto(s, p, Leaving)) else None
    case Settle(p, cleared) => StepSettle(s, p, cleared)
    case Decide(p, next, written, failed) => StepDecide(s, p, next, written, failed)
    case EndRun(p, ok) =>
      (match At(s, p)
       case Running(now, seen, at, d) => Some(Goto(s, p, Recording(now, seen, at, d, ok)))
       case _ => None)
    case Persist(p, written, failed) => StepPersist(s, p, written, failed)
    case Leave(p) => if At(s, p).Leaving? then Some(Goto(s, p, Idle).(lease := None)) else None
    case Crash(p) =>
      Some(Goto(s, p, Idle).(lease := if s.lease == Some(p) then None else s.lease, local := s.local - {(p, Volume), (p, S3)}))
    case Manual(d, ok, stamp) => if stamp <= s.clock then Some(Log(s, [Recorded(d, ok, stamp, false)])) else None
  }

  function Run(actions: seq<Action>): Option<Sys> {
    if actions == [] then Some(Boot)
    else
      match Run(actions[..|actions| - 1])
      case None => None
      case Some(s) => Step(s, actions[|actions| - 1])
  }

  // ----- the invariant --------------------------------------------------------------

  predicate Begins(e: Event, d: Dest) { e.Began? && e.d == d }

  // Written to the row of d by a tick that started it.
  predicate ByTick(e: Event, d: Dest) { e.d == d && (e.Began? || (e.Recorded? && e.scheduled)) }

  // A start was admitted by what its tick had loaded, nothing of its destination
  // began since then, and every earlier attempt was accounted for.
  ghost predicate GoodStart(log: seq<Event>, j: nat)
    requires j < |log| && log[j].Began?
  {
    var Began(d, now, due, at, _) := log[j];
    && at <= j
    && (forall k :: at <= k < j ==> !ByTick(log[k], d))
    && (Replay(log[..at], d).retry.Some? ==> now > Replay(log[..at], d).retry.value)
    && OrZero(Replay(log[..at], d).last) < due <= now
    && Unsettled(log[..j], d).None?
  }

  ghost predicate GoodLog(log: seq<Event>) {
    forall j :: 0 <= j < |log| && log[j].Began? ==> GoodStart(log, j)
  }

  // The legacy status file only fills a column that was never written.
  ghost predicate SeedsFirst(log: seq<Event>) {
    forall k :: 0 <= k < |log| && log[k].Seeded? ==> Replay(log[..k], log[k].d).last.None?
  }

  // A marker stays in the row until it has been accounted for.
  ghost predicate MarkersStay(log: seq<Event>) {
    forall d :: Unsettled(log, d).Some? ==> Replay(log, d).attempt == Unsettled(log, d)
  }

  predicate HasViews(pc: Pc) { pc.Settling? || pc.Deciding? || pc.Running? || pc.Recording? }

  // Destinations the tick may still start, and those whose attempts it has settled.
  predicate Open(pc: Pc, d: Dest) {
    pc.Settling? || (pc.Deciding? && (pc.d.Volume? || d.S3?)) || ((pc.Running? || pc.Recording?) && pc.d.Volume? && d.S3?)
  }

  predicate Accounted(pc: Pc, d: Dest) { !pc.Settling? || (pc.d.S3? && d.Volume?) }

  ghost predicate ViewFits(log: seq<Event>, pc: Pc, d: Dest)
    requires HasViews(pc)
  {
    && pc.at <= |log|
    && (forall k :: pc.at <= k < |log| ==> !ByTick(log[k], d))
    && Of(pc.seen, d).last == OrZero(Replay(log[..pc.at], d).last)
    && (Replay(log[..pc.at], d).retry.Some? ==> Of(pc.seen, d).retry == Replay(log[..pc.at], d).retry.value)
    && (Unsettled(log, d).Some? ==> !Accounted(pc, d) && Of(pc.seen, d).attempt.Some?)
  }

  ghost predicate TickFits(log: seq<Event>, pc: Pc) {
    forall d :: HasViews(pc) && Open(pc, d) ==> ViewFits(log, pc, d)
  }

  ghost predicate Inv(s: Sys) {
    && (forall p :: At(s, p).Idle? <==> s.lease != Some(p))
    && (forall p :: TickFits(s.log, At(s, p)))
    && GoodLog(s.log) && MarkersStay(s.log) && SeedsFirst(s.log)
  }

  // ----- every step keeps it ----------------------------------------------------------

  lemma Prefixes(log: seq<Event>, e: Event)
    ensures (log + [e])[..|log|] == log && (log + [e])[|log|] == e
    ensures forall k {:trigger (log + [e])[..k]} {:trigger log[..k]} :: 0 <= k <= |log| ==> (log + [e])[..k] == log[..k]
    ensures forall k :: 0 <= k < |log| ==> (log + [e])[k] == log[k]
  {
  }

  lemma ReplayAppend(log: seq<Event>, e: Event, d: Dest)
    ensures Replay(log + [e], d) == if e.d == d then ApplyEvent(Replay(log, d), e) else Replay(log, d)
    ensures Unsettled(log + [e], d) ==
      if e.d != d then Unsettled(log, d)
      else if e.Began? then Some(e.now) else if e.Recorded? || e.Settled? then None else Unsettled(log, d)
  {
    assert (log + [e])[..|log|] == log;
  }

  lemma AppendKeepsView(log: seq<Event>, e: Event, pc: Pc, d: Dest)
    requires HasViews(pc) && ViewFits(log, pc, d) && !ByTick(e, d)
    ensures ViewFits(log + [e], pc, d)
  {
    hide Replay, Unsettled;
    Prefixes(log, e);
    ReplayAppend(log, e, d);
  }

  // A tick moves on: what it saw stays true of its next program counter.
  lemma ViewMoves(log: seq<Event>, pc: Pc, next: Pc, d: Dest)
    requires HasViews(pc) && ViewFits(log, pc, d)
    requires HasViews(next) && next.seen == pc.seen && next.at == pc.at
    requires Accounted(next, d) ==> Unsettled(log, d).None?
    ensures ViewFits(log, next, d)
  {
  }

  lemma GoodStartStays(log: seq<Event>, e: Event, j: nat)
    requires j < |log| && log[j].Began? && GoodStart(log, j)
    ensures (log + [e])[j] == log[j] && GoodStart(log + [e], j)
  {
    hide Replay, Unsettled;
    Prefixes(log, e);
  }

  lemma AppendKeepsLog(log: seq<Event>, e: Event)
    requires GoodLog(log) && MarkersStay(log) && SeedsFirst(log)
    requires e.Began? ==> GoodStart(log + [e], |log|)
    requires e.Cleared? ==> Unsettled(log, e.d).None?
    requires e.Seeded? ==> Replay(log, e.d).last.None?
    ensures GoodLog(log + [e]) && MarkersStay(log + [e]) && SeedsFirst(log + [e])
  {
    hide Replay, Unsettled, GoodStart;
    forall j | 0 <= j < |log + [e]| && (log + [e])[j].Began? ensures GoodStart(log + [e], j) {
      if j < |log| {
        GoodStartStays(log, e, j);
      }
    }
    forall d ensures Unsettled(log + [e], d).Some? ==> Replay(log + [e], d).attempt == Unsettled(log + [e], d) {
      ReplayAppend(log, e, d);
    }
    Prefixes(log, e);
  }

  // The tick's view admits the start it decides on.
  lemma NewStartIsGood(log: seq<Event>, pc: Pc, next: Time, running: bool)
    requires pc.Deciding? && ViewFits(log, pc, pc.d)
    requires Of(pc.seen, pc.d).last < next <= pc.now && pc.now > Of(pc.seen, pc.d).retry
    ensures GoodStart(log + [Began(pc.d, pc.now, next, pc.at, running)], |log|)
  {
    hide Replay, Unsettled;
    Prefixes(log, Began(pc.d, pc.now, next, pc.at, running));
  }

  lemma AtGoto(s: Sys, p: Pid, pc: Pc)
    ensures forall q {:trigger At(Goto(s, p, pc), q)} :: At(Goto(s, p, pc), q) == if q == p then pc else At(s, q)
  {
  }

  // The shape of every step made inside a tick.
  lemma TickStep(s: Sys, p: Pid, pc: Pc, r: Sys)
    requires Inv(s) && !At(s, p).Idle? && !pc.Idle?
    requires r.lease == s.lease && r.pcs == Goto(s, p, pc).pcs
    requires GoodLog(r.log) && MarkersStay(r.log) && SeedsFirst(r.log) && TickFits(r.log, pc)
    ensures Inv(r)
  {
    hide TickFits, GoodLog, MarkersStay, SeedsFirst, At;
    AtGoto(s, p, pc);
    assert forall q :: At(r, q) == At(Goto(s, p, pc), q) by { SamePcs(r, Goto(s, p, pc)); }
    forall q ensures TickFits(r.log, At(r, q)) {
      if q != p {
        IdleFits(r.log, At(r, q));
      }
    }
  }

  lemma SamePcs(s: Sys, r: Sys)
    requires s.pcs == r.pcs
    ensures forall q :: At(s, q) == At(r, q)
  {
  }

  lemma IdleFits(log: seq<Event>, pc: Pc)
    requires !HasViews(pc)
    ensures TickFits(log, pc)
  {
  }

  lemma LoadKeeps(s: Sys, p: Pid, fallback: map<Dest, Time>)
    requires Inv(s) && StepLoad(s, p, fallback).Some?
    ensures Inv(StepLoad(s, p, fallback).value)
  {
    hide Replay, Unsettled, GoodStart;
    var r := StepLoad(s, p, fallback).value;
    var v, t := SeedOf(s, fallback, Volume), SeedOf(s, fallback, S3);
    SeedsKeep(s.log, v);
    SeedsKeep(s.log + v, t);
    assert r.log == s.log + v + t;
    LoadedFits(r.log, At(r, p), Local(s, p, Volume), Local(s, p, S3));
    TickStep(s, p, At(r, p), r);
  }

  lemma SeedsKeep(log: seq<Event>, seeds: seq<Event>)
    requires GoodLog(log) && MarkersStay(log) && SeedsFirst(log)
    requires |seeds| <= 1
    requires forall i :: 0 <= i < |seeds| ==> seeds[i].Seeded? && Replay(log, seeds[i].d).last.None?
    ensures GoodLog(log + seeds) && MarkersStay(log + seeds) && SeedsFirst(log + seeds)
    ensures forall d :: (forall i :: 0 <= i < |seeds| ==> seeds[i].d != d) ==> Replay(log + seeds, d) == Replay(log, d)
  {
    hide GoodLog, MarkersStay, SeedsFirst, Replay, Unsettled;
    if seeds == [] {
      assert log + seeds == log;
    } else {
      assert seeds == [seeds[0]];
      AppendKeepsLog(log, seeds[0]);
      forall d ensures seeds[0].d != d ==> Replay(log + seeds, d) == Replay(log, d) {
        ReplayAppend(log, seeds[0], d);
      }
    }
  }

  lemma LoadedFits(log: seq<Event>, pc: Pc, volume: Time, s3: Time)
    requires MarkersStay(log)
    requires pc.Settling? && pc.d.Volume? && pc.at == |log|
    requires pc.seen == Views(ViewOf(log, Volume, volume), ViewOf(log, S3, s3))
    ensures TickFits(log, pc)
  {
    hide Replay, Unsettled;
    assert log[..|log|] == log;
  }

  lemma SettleKeeps(s: Sys, p: Pid, cleared: bool)
    requires Inv(s) && StepSettle(s, p, cleared).Some?
    ensures Inv(StepSettle(s, p, cleared).value)
  {
    hide Replay, Unsettled, GoodLog, MarkersStay, SeedsFirst, ViewFits;
    var r := StepSettle(s, p, cleared).value;
    var pc, next := At(s, p), At(r, p);
    assert TickFits(s.log, pc);
    var attempt := Of(pc.seen, pc.d).attempt;
    var log := s.log;
    if attempt.None? {
      assert r.log == log + [] == log;
    } else {
      var e := Settled(pc.d, attempt.value);
      AppendKeepsLog(log, e);
      ReplayAppend(log, e, pc.d);
      forall d ensures ViewFits(log + [e], pc, d) { AppendKeepsView(log, e, pc, d); }
      if cleared {
        var c := Cleared(pc.d);
        AppendKeepsLog(log + [e], c);
        ReplayAppend(log + [e], c, pc.d);
        forall d ensures ViewFits(log + [e] + [c], pc, d) { AppendKeepsView(log + [e], c, pc, d); }
        assert r.log == log + [e] + [c];
      } else {
        assert r.log == log + [e];
      }
    }
    SettledFits(r.log, pc, next);
    TickStep(s, p, next, r);
  }

  lemma SettledFits(log: seq<Event>, pc: Pc, next: Pc)
    requires pc.Settling? && (forall d :: ViewFits(log, pc, d))
    requires Of(pc.seen, pc.d).attempt.Some? ==> Unsettled(log, pc.d).None?
    requires next == if pc.d.Volume? then Settling(pc.now, pc.seen, pc.at, S3) else Deciding(pc.now, pc.seen, pc.at, Volume)
    ensures TickFits(log, next)
  {
    hide Replay, Unsettled;
    forall d | Open(next, d) ensures ViewFits(log, next, d) {
      assert ViewFits(log, pc, d) && ViewFits(log, pc, pc.d);
      ViewMoves(log, pc, next, d);
    }
  }

  lemma OnwardFits(log: seq<Event>, pc: Pc, next: Pc)
    requires pc.Deciding? || pc.Running? || pc.Recording?
    requires TickFits(log, pc)
    requires HasViews(next) ==> next.seen == pc.seen && next.at == pc.at && !next.Settling?
    requires forall d :: HasViews(next) && Open(next, d) ==> Open(pc, d)
    ensures TickFits(log, next)
  {
    hide Replay, Unsettled;
    forall d | HasViews(next) && Open(next, d) ensures ViewFits(log, next, d) {
      assert ViewFits(log, pc, d);
      ViewMoves(log, pc, next, d);
    }
  }

  // After a start or a result of pc.d, the other destination's view still fits.
  lemma AppendFits(log: seq<Event>, e: Event, pc: Pc, next: Pc)
    requires pc.Deciding? || pc.Recording?
    requires TickFits(log, pc) && e.d == pc.d
    requires HasViews(next) ==> next.seen == pc.seen && next.at == pc.at && !next.Settling?
    requires forall d :: HasViews(next) && Open(next, d) ==> Open(pc, d) && d != pc.d
    ensures TickFits(log + [e], next)
  {
    hide Replay, Unsettled;
    forall d | HasViews(next) && Open(next, d) ensures ViewFits(log + [e], next, d) {
      assert ViewFits(log, pc, d);
      AppendKeepsView(log, e, pc, d);
      ViewMoves(log + [e], pc, next, d);
    }
  }

  lemma DecideKeeps(s: Sys, p: Pid, next: Option<Time>, written: bool, failed: bool)
    requires Inv(s) && StepDecide(s, p, next, written, failed).Some?
    ensures Inv(StepDecide(s, p, next, written, failed).value)
  {
    hide Replay, Unsettled, GoodLog, MarkersStay, SeedsFirst, ViewFits, GoodStart;
    var r := StepDecide(s, p, next, written, failed).value;
    var pc, after := At(s, p), At(r, p);
    assert TickFits(s.log, pc);
    if r.log == s.log {
      OnwardFits(s.log, pc, after);
    } else {
      var e := Began(pc.d, pc.now, next.value, pc.at, !failed);
      assert ViewFits(s.log, pc, pc.d);
      NewStartIsGood(s.log, pc, next.value, !failed);
      AppendKeepsLog(s.log, e);
      AppendFits(s.log, e, pc, after);
    }
    TickStep(s, p, after, r);
  }

  lemma PersistKeeps(s: Sys, p: Pid, written: bool, failed: bool)
    requires Inv(s) && StepPersist(s, p, written, failed).Some?
    ensures Inv(StepPersist(s, p, written, failed).value)
  {
    hide Replay, Unsettled, GoodLog, MarkersStay, SeedsFirst, ViewFits, GoodStart;
    var r := StepPersist(s, p, written, failed).value;
    var pc, after := At(s, p), At(r, p);
    assert TickFits(s.log, pc);
    if written {
      AppendKeepsLog(s.log, Recorded(pc.d, pc.ok, pc.now, true));
      AppendFits(s.log, Recorded(pc.d, pc.ok, pc.now, true), pc, after);
    } else {
      OnwardFits(s.log, pc, after);
    }
    TickStep(s, p, after, r);
  }

  lemma ManualKeeps(s: Sys, d: Dest, ok: bool, stamp: Time)
    requires Inv(s)
    ensures Inv(Log(s, [Recorded(d, ok, stamp, false)]))
  {
    hide Replay, Unsettled, GoodLog, MarkersStay, SeedsFirst, ViewFits, GoodStart;
    var e := Recorded(d, ok, stamp, false);
    AppendKeepsLog(s.log, e);
    forall p ensures TickFits(s.log + [e], At(s, p)) {
      assert TickFits(s.log, At(s, p));
      forall x | HasViews(At(s, p)) && Open(At(s, p), x) ensures ViewFits(s.log + [e], At(s, p), x) {
        AppendKeepsView(s.log, e, At(s, p), x);
      }
    }
    SamePcs(s, Log(s, [e]));
  }

  lemma EdgeKeeps(s: Sys, p: Pid, pc: Pc, lease: Option<Pid>, r: Sys)
    requires Inv(s) && (pc.Leased? || pc.Idle?)
    requires r.log == s.log && r.pcs == Goto(s, p, pc).pcs && r.lease == lease
    requires if pc.Leased? then s.lease.None? && lease == Some(p)
             else lease == if s.lease == Some(p) then None else s.lease
    ensures Inv(r)
  {
    hide TickFits, GoodLog, MarkersStay, SeedsFirst, At;
    AtGoto(s, p, pc);
    SamePcs(r, Goto(s, p, pc));
    IdleFits(s.log, pc);
  }

  lemma StepKeepsInv(s: Sys, a: Action)
    requires Inv(s) && Step(s, a).Some?
    ensures Inv(Step(s, a).value)
  {
    hide StepLoad, StepSettle, StepDecide, StepPersist, TickFits, GoodLog, MarkersStay, SeedsFirst;
    var r := Step(s, a).value;
    match a {
      case Wait(_) => SamePcs(s, r);
      case Acquire(p) => EdgeKeeps(s, p, Leased, Some(p), r);
      case Stamp(p) => IdleFits(s.log, Stamped(s.clock)); TickStep(s, p, Stamped(s.clock), r);
      case Load(p, fallback) => LoadKeeps(s, p, fallback);
      case LoadFails(p) => IdleFits(s.log, Leaving); TickStep(s, p, Leaving, r);
      case Settle(p, cleared) => SettleKeeps(s, p, cleared);
      case Decide(p, next, written, failed) => DecideKeeps(s, p, next, written, failed);
      case EndRun(p, ok) => OnwardFits(s.log, At(s, p), At(r, p)); TickStep(s, p, At(r, p), r);
      case Persist(p, written, failed) => PersistKeeps(s, p, written, failed);
      case Leave(p) => EdgeKeeps(s, p, Idle, None, r);
      case Crash(p) => EdgeKeeps(s, p, Idle, r.lease, r);
      case Manual(d, ok, stamp) => ManualKeeps(s, d, ok, stamp);
    }
  }

  lemma {:induction false} RunKeepsInv(actions: seq<Action>)
    requires Run(actions).Some?
    ensures Inv(Run(actions).value)
  {
    hide Step, Inv;
    if actions == [] {
      BootInv();
    } else {
      var last := |actions| - 1;
      RunKeepsInv(actions[..last]);
      StepKeepsInv(Run(actions[..last]).value, actions[last]);
    }
  }

  lemma BootInv()
    ensures Inv(Boot)
  {
  }

  // ----- the backoff holds between starts -----------------------------------------------

  // No success of d was recorded behind position i, and every failure recorded
  // there carries a stamp no older than from.
  ghost predicate NoSuccessSince(log: seq<Event>, i: nat, j: nat, d: Dest) {
    forall k :: i < k < j && k < |log| && log[k].Recorded? && log[k].d == d ==> !log[k].ok
  }

  ghost predicate FreshFailuresSince(log: seq<Event>, i: nat, j: nat, d: Dest, from: Time) {
    forall k :: i < k < j && k < |log| && log[k].Recorded? && log[k].d == d && !log[k].ok ==> log[k].stamp >= from
  }

  // The retry clock after log[..at] is still at least one backoff behind start i.
  lemma {:induction false} RetryStays(log: seq<Event>, i: nat, at: nat, d: Dest)
    requires i < at <= |log| && Begins(log[i], d)
    requires NoSuccessSince(log, i, at, d) && FreshFailuresSince(log, i, at, d, log[i].now)
    requires forall k :: i < k < at && Begins(log[k], d) ==> log[k].now >= log[i].now
    ensures Replay(log[..at], d).retry.Some? && Replay(log[..at], d).retry.value >= log[i].now + BACKOFF
    decreases at
  {
    assert log[..at] == log[..at - 1] + [log[at - 1]];
    ReplayAppend(log[..at - 1], log[at - 1], d);
    if at - 1 > i {
      RetryStays(log, i, at - 1, d);
    }
  }

  lemma {:induction false} StartsAreApart(log: seq<Event>, i: nat, j: nat, d: Dest)
    requires GoodLog(log) && i < j < |log| && Begins(log[i], d) && Begins(log[j], d)
    requires NoSuccessSince(log, i, j, d) && FreshFailuresSince(log, i, j, d, log[i].now)
    ensures log[j].now > log[i].now + BACKOFF
    decreases j
  {
    hide Replay, Unsettled;
    assert GoodStart(log, j);
    var at := log[j].at;
    forall k | i < k < at && Begins(log[k], d) ensures log[k].now >= log[i].now {
      StartsAreApart(log, i, k, d);
    }
    RetryStays(log, i, at, d);
  }

  // Over every run, with crashes at any step, restarts and several processes: two
  // starts of one destination without a recorded success in between are more than
  // the backoff apart, provided no failure recorded in between carries a stamp
  // from before the first start.
  lemma ScheduledStartsAreApart(actions: seq<Action>, i: nat, j: nat, d: Dest)
    requires Run(actions).Some?
    requires var log := Run(actions).value.log;
             && i < j < |log| && Begins(log[i], d) && Begins(log[j], d)
             && NoSuccessSince(log, i, j, d) && FreshFailuresSince(log, i, j, d, log[i].now)
    ensures var log := Run(actions).value.log; log[j].now > log[i].now + BACKOFF
  {
    RunKeepsInv(actions);
    StartsAreApart(Run(actions).value.log, i, j, d);
  }

  // The stamp of the last failure recorded for d behind position i, if any.
  function LastFailure(log: seq<Event>, i: nat, d: Dest): (r: Option<Time>)
    requires i < |log|
    decreases |log|
  {
    if |log| == i + 1 then None
    else
      var e := log[|log| - 1];
      if e.Recorded? && e.d == d && !e.ok then Some(e.stamp) else LastFailure(log[..|log| - 1], i, d)
  }

  // A tick that loads this log may start d at time now.
  predicate Admits(log: seq<Event>, d: Dest, now: Time) {
    var retry := Replay(log, d).retry; retry.Some? ==> now > retry.value
  }

  lemma {:induction false} RetryIsLastFailure(log: seq<Event>, i: nat, d: Dest)
    requires i < |log| && Begins(log[i], d) && NoSuccessSince(log, i, |log|, d)
    requires forall k :: i < k < |log| ==> !Begins(log[k], d)
    ensures Replay(log, d).retry ==
      Some((if LastFailure(log, i, d).Some? then LastFailure(log, i, d).value else log[i].now) + BACKOFF)
    decreases |log|
  {
    var n := |log| - 1;
    assert log == log[..n] + [log[n]];
    ReplayAppend(log[..n], log[n], d);
    if n > i {
      RetryIsLastFailure(log[..n], i, d);
    }
  }

  // The proviso above is exact: behind a start, without success, every admitted
  // next start respects the backoff if and only if the last failure recorded since
  // is stamped no earlier than that start.
  lemma BackoffExactlyWhenFresh(log: seq<Event>, i: nat, d: Dest)
    requires i < |log| && Begins(log[i], d) && NoSuccessSince(log, i, |log|, d)
    requires forall k :: i < k < |log| ==> !Begins(log[k], d)
    ensures (forall now {:trigger Admits(log, d, now)} :: Admits(log, d, now) ==> now > log[i].now + BACKOFF)
            <==> (LastFailure(log, i, d).Some? ==> LastFailure(log, i, d).value >= log[i].now)
  {
    hide Replay, LastFailure;
    RetryIsLastFailure(log, i, d);
    var retry := Replay(log, d).retry.value;
    assert Admits(log, d, retry + 1);
  }

  // ----- attempts are accounted for, successes wait for the schedule ----------------------

  // Before a destination starts again, every earlier attempt either has a recorded
  // result (its own or a manual one) or has been counted as interrupted.
  lemma AttemptsAreAccounted(actions: seq<Action>, i: nat, j: nat, d: Dest)
    requires Run(actions).Some?
    requires var log := Run(actions).value.log; i < j < |log| && Begins(log[i], d) && Begins(log[j], d)
    ensures var log := Run(actions).value.log;
            exists k :: i < k < j && log[k].d == d && (log[k].Recorded? || log[k].Settled?)
  {
    hide Replay;
    var log := Run(actions).value.log;
    RunKeepsInv(actions);
    assert GoodStart(log, j);
    if forall k :: i < k < j && log[k].d == d ==> !log[k].Recorded? && !log[k].Settled? {
      StillUnsettled(log, i, j, d);
    }
  }

  lemma {:induction false} StillUnsettled(log: seq<Event>, i: nat, j: nat, d: Dest)
    requires i < j <= |log| && Begins(log[i], d)
    requires forall k :: i < k < j && log[k].d == d ==> !log[k].Recorded? && !log[k].Settled?
    ensures Unsettled(log[..j], d).Some?
    decreases j
  {
    assert log[..j] == log[..j - 1] + [log[j - 1]];
    ReplayAppend(log[..j - 1], log[j - 1], d);
    if j - 1 > i {
      StillUnsettled(log, i, j - 1, d);
    }
  }

  // A marker that a tick loads and settles is never that of a scheduled run in
  // progress: whoever is inside a run holds the lease.
  lemma NoRunBesideSettling(actions: seq<Action>, p: Pid, q: Pid)
    requires Run(actions).Some? && At(Run(actions).value, p).Settling? && p != q
    ensures At(Run(actions).value, q).Idle?
  {
    RunKeepsInv(actions);
  }

  lemma {:induction false} LastStays(log: seq<Event>, i: nat, at: nat, d: Dest)
    requires SeedsFirst(log) && i < at <= |log| && log[i].Recorded? && log[i].d == d && log[i].ok
    requires FreshSuccessesSince(log, i, at, d, log[i].stamp)
    ensures Replay(log[..at], d).last.Some? && Replay(log[..at], d).last.value >= log[i].stamp
    decreases at
  {
    assert log[..at] == log[..at - 1] + [log[at - 1]];
    ReplayAppend(log[..at - 1], log[at - 1], d);
    if at - 1 > i {
      LastStays(log, i, at - 1, d);
    }
  }

  ghost predicate FreshSuccessesSince(log: seq<Event>, i: nat, j: nat, d: Dest, from: Time) {
    forall k :: i < k < j && k < |log| && log[k].Recorded? && log[k].d == d && log[k].ok ==> log[k].stamp >= from
  }

  // Between a scheduled success and the next start of its destination lies a cron
  // occurrence, later than the success and no later than that start, provided no
  // success recorded in between carries an older stamp.
  lemma StartsAnswerTheSchedule(actions: seq<Action>, i: nat, j: nat, d: Dest)
    requires Run(actions).Some?
    requires var log := Run(actions).value.log;
             && i < j < |log| && log[i].Recorded? && log[i].scheduled && log[i].ok && log[i].d == d && Begins(log[j], d)
             && FreshSuccessesSince(log, i, j, d, log[i].stamp)
    ensures var log := Run(actions).value.log; log[i].stamp < log[j].due <= log[j].now
  {
    hide Replay, Unsettled, Run;
    var log := Run(actions).value.log;
    RunKeepsInv(actions);
    assert GoodStart(log, j);
    assert ByTick(log[i], d);
    LastStays(log, i, log[j].at, d);
  }

  // ----- every occurrence is answered at most once ---------------------------------------------

  // The start of d at time now is at position i, and no tick has written to d's row since.
  ghost predicate StartOf(log: seq<Event>, i: nat, n: nat, d: Dest, now: Time) {
    i < n <= |log| && Begins(log[i], d) && log[i].now == now && forall k :: i < k < n ==> !ByTick(log[k], d)
  }

  ghost predicate Started(log: seq<Event>, n: nat, d: Dest, now: Time) { exists i: nat :: StartOf(log, i, n, d, now) }

  // Every result of a scheduled run has its start before it, with its stamp, and every
  // run in progress has one.
  ghost predicate ResultsHaveStarts(log: seq<Event>) {
    forall k :: 0 <= k < |log| && log[k].Recorded? && log[k].scheduled ==> Started(log, k, log[k].d, log[k].stamp)
  }

  ghost predicate RunHasStart(log: seq<Event>, pc: Pc) { pc.Running? || pc.Recording? ==> Started(log, |log|, pc.d, pc.now) }

  ghost predicate Paired(s: Sys) { ResultsHaveStarts(s.log) && forall p :: RunHasStart(s.log, At(s, p)) }

  lemma StartStays(log: seq<Event>, e: Event, n: nat, d: Dest, now: Time)
    requires n <= |log| && Started(log, n, d, now)
    ensures Started(log + [e], n, d, now)
    ensures n == |log| && !ByTick(e, d) ==> Started(log + [e], n + 1, d, now)
  {
    var i :| StartOf(log, i, n, d, now);
    assert forall k :: 0 <= k < |log| ==> (log + [e])[k] == log[k];
    assert StartOf(log + [e], i, n, d, now);
    if n == |log| && !ByTick(e, d) {
      assert StartOf(log + [e], i, n + 1, d, now);
    }
  }

  lemma StartIsStarted(log: seq<Event>, e: Event)
    requires e.Began?
    ensures Started(log + [e], |log| + 1, e.d, e.now)
  {
    assert StartOf(log + [e], |log|, |log| + 1, e.d, e.now);
  }

  lemma ResultsStay(log: seq<Event>, e: Event)
    requires ResultsHaveStarts(log) && (e.Recorded? && e.scheduled ==> Started(log, |log|, e.d, e.stamp))
    ensures ResultsHaveStarts(log + [e])
  {
    hide Started;
    var more := log + [e];
    forall k | 0 <= k < |more| && more[k].Recorded? && more[k].scheduled ensures Started(more, k, more[k].d, more[k].stamp) {
      assert more[k] == if k < |log| then log[k] else e;
      StartStays(log, e, k, more[k].d, more[k].stamp);
    }
  }

  // Events no tick writes about a start or result of its own.
  lemma {:induction false} AsideStays(log: seq<Event>, events: seq<Event>)
    requires ResultsHaveStarts(log)
    requires forall e :: e in events ==> !e.Began? && !(e.Recorded? && e.scheduled)
    ensures ResultsHaveStarts(log + events)
    ensures forall d, now {:trigger Started(log, |log|, d, now)} ::
      Started(log, |log|, d, now) ==> Started(log + events, |log + events|, d, now)
  {
    hide Started, ResultsHaveStarts;
    if events == [] {
      assert log + events == log;
    } else {
      var init, last := events[..|events| - 1], events[|events| - 1];
      AsideStays(log, init);
      assert log + events == (log + init) + [last];
      ResultsStay(log + init, last);
      forall d, now | Started(log, |log|, d, now) ensures Started(log + events, |log + events|, d, now) {
        StartStays(log + init, last, |log + init|, d, now);
      }
    }
  }

  // A step of p, which holds the lease: only its own program counter matters.
  lemma PairedStep(s: Sys, p: Pid, r: Sys)
    requires Inv(s) && !At(s, p).Idle? && ResultsHaveStarts(r.log) && RunHasStart(r.log, At(r, p))
    requires forall q :: q != p ==> At(r, q) == At(s, q)
    ensures Paired(r)
  {
    hide TickFits, GoodLog, MarkersStay, SeedsFirst, At, ResultsHaveStarts, Started;
    forall q ensures RunHasStart(r.log, At(r, q)) {
      if q != p {
        assert s.lease == Some(p) && At(s, q).Idle?;
      }
    }
  }

  lemma OthersStay(s: Sys, p: Pid, r: Sys, pc: Pc)
    requires r.pcs == Goto(s, p, pc).pcs
    ensures At(r, p) == pc && forall q :: q != p ==> At(r, q) == At(s, q)
  {}

  lemma DecidePairs(s: Sys, p: Pid, next: Option<Time>, written: bool, failed: bool)
    requires Inv(s) && Paired(s) && StepDecide(s, p, next, written, failed).Some?
    ensures Paired(StepDecide(s, p, next, written, failed).value)
  {
    hide Inv, ResultsHaveStarts, Started;
    var r := StepDecide(s, p, next, written, failed).value;
    var pc := At(s, p);
    OthersStay(s, p, r, At(r, p));
    if r.log != s.log {
      var e := Began(pc.d, pc.now, next.value, pc.at, !failed);
      ResultsStay(s.log, e);
      StartIsStarted(s.log, e);
    }
    PairedStep(s, p, r);
  }

  lemma PersistPairs(s: Sys, p: Pid, written: bool, failed: bool)
    requires Inv(s) && Paired(s) && StepPersist(s, p, written, failed).Some?
    ensures Paired(StepPersist(s, p, written, failed).value)
  {
    hide Inv, ResultsHaveStarts, Started;
    var r := StepPersist(s, p, written, failed).value;
    var pc := At(s, p);
    OthersStay(s, p, r, At(r, p));
    assert RunHasStart(s.log, pc);
    if written {
      ResultsStay(s.log, Recorded(pc.d, pc.ok, pc.now, true));
    }
    PairedStep(s, p, r);
  }

  lemma LoadPairs(s: Sys, p: Pid, fallback: map<Dest, Time>)
    requires Inv(s) && Paired(s) && StepLoad(s, p, fallback).Some?
    ensures Paired(StepLoad(s, p, fallback).value)
  {
    hide Inv, ResultsHaveStarts, Started, Replay;
    var r := StepLoad(s, p, fallback).value;
    OthersStay(s, p, r, At(r, p));
    AsideStays(s.log, Seeds(s, fallback));
    PairedStep(s, p, r);
  }

  lemma SettlePairs(s: Sys, p: Pid, cleared: bool)
    requires Inv(s) && Paired(s) && StepSettle(s, p, cleared).Some?
    ensures Paired(StepSettle(s, p, cleared).value)
  {
    hide Inv, ResultsHaveStarts, Started;
    var r := StepSettle(s, p, cleared).value;
    var attempt := Of(At(s, p).seen, At(s, p).d).attempt;
    OthersStay(s, p, r, At(r, p));
    AsideStays(s.log, if attempt.None? then []
                      else [Settled(At(s, p).d, attempt.value)] + (if cleared then [Cleared(At(s, p).d)] else []));
    PairedStep(s, p, r);
  }

  // Steps that write nothing and start no run.
  lemma PlainPairs(s: Sys, p: Pid, r: Sys)
    requires Paired(s) && r.log == s.log && forall q :: q != p ==> At(r, q) == At(s, q)
    requires At(r, p) == At(s, p) || !(At(r, p).Running? || At(r, p).Recording?)
      || (At(s, p).Running? && At(r, p).Recording? && At(r, p).d == At(s, p).d && At(r, p).now == At(s, p).now)
    ensures Paired(r)
  {
    hide At, ResultsHaveStarts, Started;
    assert RunHasStart(s.log, At(s, p));
    forall q ensures RunHasStart(r.log, At(r, q)) {
      if q != p {
        assert RunHasStart(s.log, At(s, q));
      }
    }
  }

  lemma StepKeepsPaired(s: Sys, a: Action)
    requires Inv(s) && Paired(s) && Step(s, a).Some?
    ensures Paired(Step(s, a).value)
  {
    hide StepLoad, StepSettle, StepDecide, StepPersist, Inv, ResultsHaveStarts, Started, RunHasStart;
    var r := Step(s, a).value;
    match a {
      case Wait(_) => SamePcs(s, r);
      case Acquire(p) => OthersStay(s, p, r, Leased); PlainPairs(s, p, r);
      case Stamp(p) => OthersStay(s, p, r, Stamped(s.clock)); PlainPairs(s, p, r);
      case Load(p, fallback) => LoadPairs(s, p, fallback);
      case LoadFails(p) => OthersStay(s, p, r, Leaving); PlainPairs(s, p, r);
      case Settle(p, cleared) => SettlePairs(s, p, cleared);
      case Decide(p, next, written, failed) => DecidePairs(s, p, next, written, failed);
      case EndRun(p, ok) => OthersStay(s, p, r, At(r, p)); PlainPairs(s, p, r);
      case Persist(p, written, failed) => PersistPairs(s, p, written, failed);
      case Leave(p) => OthersStay(s, p, r, Idle); PlainPairs(s, p, r);
      case Crash(p) => OthersStay(s, p, r, Idle); PlainPairs(s, p, r);
      case Manual(d, ok, stamp) => ManualPairs(s, d, ok, stamp);
    }
  }

  lemma ManualPairs(s: Sys, d: Dest, ok: bool, stamp: Time)
    requires Paired(s)
    ensures Paired(Log(s, [Recorded(d, ok, stamp, false)]))
  {
    hide ResultsHaveStarts, Started;
    var r := Log(s, [Recorded(d, ok, stamp, false)]);
    AsideStays(s.log, [Recorded(d, ok, stamp, false)]);
    SamePcs(s, r);
    forall p ensures RunHasStart(r.log, At(r, p)) {
      assert RunHasStart(s.log, At(s, p));
    }
  }

  lemma {:induction false} RunKeepsPaired(actions: seq<Action>)
    requires Run(actions).Some?
    ensures Paired(Run(actions).value)
  {
    hide Step, Inv, Paired;
    if actions == [] {
      BootPaired();
    } else {
      var last := |actions| - 1;
      RunKeepsPaired(actions[..last]);
      RunKeepsInv(actions[..last]);
      StepKeepsPaired(Run(actions[..last]).value, actions[last]);
    }
  }

  lemma BootPaired()
    ensures Paired(Boot)
  {}

  predicate Success(e: Event, d: Dest) { e.Recorded? && e.ok && e.d == d }

  predicate ScheduledSuccess(e: Event, d: Dest) { Success(e, d) && e.scheduled }

  // No success is stamped earlier than one recorded before it.
  ghost predicate StampsInOrder(log: seq<Event>, d: Dest) {
    forall i, k :: 0 <= i < k < |log| && Success(log[i], d) && Success(log[k], d) ==> log[i].stamp <= log[k].stamp
  }

  // With stamps in order, two scheduled successes answer different occurrences, the
  // later one the later occurrence.
  lemma OccurrencesIncrease(actions: seq<Action>, i: nat, k: nat, j: nat, l: nat, d: Dest)
    requires Run(actions).Some?
    requires var log := Run(actions).value.log;
      && StampsInOrder(log, d) && k < l < |log| && ScheduledSuccess(log[k], d) && ScheduledSuccess(log[l], d)
      && StartOf(log, i, k, d, log[k].stamp) && StartOf(log, j, l, d, log[l].stamp)
    ensures var log := Run(actions).value.log; log[i].due <= log[k].stamp < log[j].due
  {
    hide Run, Replay, Unsettled;
    var log := Run(actions).value.log;
    RunKeepsInv(actions);
    assert GoodStart(log, i);
    assert ByTick(log[k], d);
    assert k < j;
    StartsAnswerTheSchedule(actions, k, j, d);
  }

  ghost function Successes(log: seq<Event>, n: nat, d: Dest): set<nat>
    requires n <= |log|
  {
    set k: nat | k < n && ScheduledSuccess(log[k], d)
  }

  // So with the occurrences of the schedule among these, there are no more scheduled
  // successes than occurrences, whatever crashes, restarts and manual runs there are.
  lemma SuccessesNeverOutnumberOccurrences(actions: seq<Action>, d: Dest, occurrences: set<Time>)
    requires Run(actions).Some? && StampsInOrder(Run(actions).value.log, d)
    requires var log := Run(actions).value.log; forall j :: 0 <= j < |log| && Begins(log[j], d) ==> log[j].due in occurrences
    ensures |Successes(Run(actions).value.log, |Run(actions).value.log|, d)| <= |occurrences|
  {
    hide Run, Successes;
    var log := Run(actions).value.log;
    var answered := Answered(actions, |log|, d, occurrences);
    Fewer(answered, occurrences);
  }

  // A success among the first n events answers the occurrence t.
  ghost predicate AnsweredBy(log: seq<Event>, n: nat, d: Dest, t: Time)
    requires n <= |log|
  {
    exists i: nat, k: nat {:trigger StartOf(log, i, k, d, log[k].stamp)} ::
      i < k < n && ScheduledSuccess(log[k], d) && StartOf(log, i, k, d, log[k].stamp) && log[i].due == t
  }

  lemma NextAnswer(actions: seq<Action>, j: nat, l: nat, d: Dest)
    requires Run(actions).Some? && StampsInOrder(Run(actions).value.log, d)
    requires var log := Run(actions).value.log;
      l < |log| && ScheduledSuccess(log[l], d) && StartOf(log, j, l, d, log[l].stamp)
    ensures var log := Run(actions).value.log; log[j].Began? && AnsweredBy(log, l + 1, d, log[j].due)
    ensures var log := Run(actions).value.log; forall t :: AnsweredBy(log, l, d, t) ==> t < log[j].due && AnsweredBy(log, l + 1, d, t)
  {
    hide Run, StampsInOrder, ByTick;
    var log := Run(actions).value.log;
    assert AnsweredBy(log, l + 1, d, log[j].due);
    forall t | AnsweredBy(log, l, d, t) ensures t < log[j].due && AnsweredBy(log, l + 1, d, t) {
      var i: nat, k: nat :| i < k < l && ScheduledSuccess(log[k], d) && StartOf(log, i, k, d, log[k].stamp) && log[i].due == t;
      OccurrencesIncrease(actions, i, k, j, l, d);
      assert AnsweredBy(log, l + 1, d, t);
    }
  }

  lemma LaterAnswered(log: seq<Event>, l: nat, d: Dest)
    requires l < |log|
    ensures forall t :: AnsweredBy(log, l, d, t) ==> AnsweredBy(log, l + 1, d, t)
  {
    hide ByTick;
    forall t | AnsweredBy(log, l, d, t) ensures AnsweredBy(log, l + 1, d, t) {
      var i: nat, k: nat :| i < k < l && ScheduledSuccess(log[k], d) && StartOf(log, i, k, d, log[k].stamp) && log[i].due == t;
    }
  }

  lemma NextSuccess(log: seq<Event>, l: nat, d: Dest)
    requires l < |log|
    ensures Successes(log, l + 1, d) == Successes(log, l, d) + if ScheduledSuccess(log[l], d) then {l} else {}
    ensures l !in Successes(log, l, d)
  {}

  // The occurrences answered by the successes among the first n events.
  lemma {:induction false} Answered(actions: seq<Action>, n: nat, d: Dest, occurrences: set<Time>) returns (answered: set<Time>)
    requires Run(actions).Some? && StampsInOrder(Run(actions).value.log, d) && n <= |Run(actions).value.log|
    requires var log := Run(actions).value.log; forall j :: 0 <= j < |log| && Begins(log[j], d) ==> log[j].due in occurrences
    ensures answered <= occurrences && |answered| == |Successes(Run(actions).value.log, n, d)|
    ensures forall t :: t in answered ==> AnsweredBy(Run(actions).value.log, n, d, t)
  {
    hide Run, StartOf, StampsInOrder, AnsweredBy, Successes, ResultsHaveStarts, RunHasStart;
    var log := Run(actions).value.log;
    if n == 0 {
      answered := {};
      assert Successes(log, 0, d) == {} by {
        NoSuccesses(log, d);
      }
    } else {
      var l := n - 1;
      answered := Answered(actions, l, d, occurrences);
      NextSuccess(log, l, d);
      LaterAnswered(log, l, d);
      if ScheduledSuccess(log[l], d) {
        RunKeepsPaired(actions);
        ResultHasStart(log, l);
        var j: nat :| StartOf(log, j, l, d, log[l].stamp);
        StartFacts(log, j, l, d, log[l].stamp);
        NextAnswer(actions, j, l, d);
        answered := answered + {log[j].due};
      }
    }
  }

  lemma NoSuccesses(log: seq<Event>, d: Dest)
    ensures Successes(log, 0, d) == {}
  {}

  lemma ResultHasStart(log: seq<Event>, l: nat)
    requires ResultsHaveStarts(log) && l < |log| && log[l].Recorded? && log[l].scheduled
    ensures Started(log, l, log[l].d, log[l].stamp)
  {}

  lemma StartFacts(log: seq<Event>, i: nat, n: nat, d: Dest, now: Time)
    requires StartOf(log, i, n, d, now)
    ensures i < n <= |log| && Begins(log[i], d)
  {}

  // The stamp of the last success recorded for d behind position i, else that of i.
  function LastSuccess(log: seq<Event>, i: nat, d: Dest): Time
    requires i < |log| && log[i].Recorded?
    decreases |log|
  {
    if |log| == i + 1 then log[i].stamp
    else
      var e := log[|log| - 1];
      if e.Recorded? && e.d == d && e.ok then e.stamp else LastSuccess(log[..|log| - 1], i, d)
  }

  lemma {:induction false} LastIsLastSuccess(log: seq<Event>, i: nat, d: Dest)
    requires SeedsFirst(log) && i < |log| && log[i].Recorded? && log[i].ok && log[i].d == d
    ensures Replay(log, d).last == Some(LastSuccess(log, i, d))
    decreases |log|
  {
    var n := |log| - 1;
    assert log == log[..n] + [log[n]];
    ReplayAppend(log[..n], log[n], d);
    if n > i {
      assert SeedsFirst(log[..n]) by { ShorterSeeds(log, n); }
      LastIsLastSuccess(log[..n], i, d);
    }
  }

  lemma ShorterSeeds(log: seq<Event>, n: nat)
    requires SeedsFirst(log) && n <= |log|
    ensures SeedsFirst(log[..n])
  {
    hide Replay;
    forall k | 0 <= k < n && log[..n][k].Seeded? ensures Replay(log[..n][..k], log[..n][k].d).last.None? {
      assert log[..n][..k] == log[..k];
    }
  }

  // Again exact: every occurrence a later tick may answer lies behind the success
  // at i if and only if the last success recorded since is stamped no earlier.
  lemma ScheduleExactlyWhenFresh(actions: seq<Action>, i: nat, d: Dest)
    requires Run(actions).Some?
    requires var log := Run(actions).value.log; i < |log| && log[i].Recorded? && log[i].ok && log[i].d == d
    ensures var log := Run(actions).value.log;
            (forall due {:trigger Answers(log, d, due)} :: Answers(log, d, due) ==> due > log[i].stamp)
            <==> LastSuccess(log, i, d) >= log[i].stamp
  {
    hide Replay, LastSuccess, Run, GoodLog, MarkersStay;
    var log := Run(actions).value.log;
    RunKeepsInv(actions);
    LastIsLastSuccess(log, i, d);
    assert Answers(log, d, LastSuccess(log, i, d) + 1);
  }

  // A tick that loads this log may answer the occurrence due for d.
  predicate Answers(log: seq<Event>, d: Dest, due: Time) { due > OrZero(Replay(log, d).last) }

  // ----- ticks do start what is due, and stale stamps do harm -------------------------------

  ghost predicate Reachable(s: Sys) { exists actions: seq<Action> :: Run(actions) == Some(s) }

  lemma Reach(s: Sys, a: Action)
    requires Reachable(s) && Step(s, a).Some?
    ensures Reachable(Step(s, a).value)
  {
    hide Step;
    var actions :| Run(actions) == Some(s);
    var more := actions + [a];
    assert more[..|actions|] == actions;
    assert Run(more) == Step(s, a);
  }

  // The decision for either destination, with the marker written: the run starts, and the
  // log says so, if and only if the schedule is on, its next occurrence is no later than
  // now, and now is after the retry time. Otherwise the tick goes on to what comes next.
  lemma DecisionIsExact(s: Sys, p: Pid, next: Option<Time>)
    requires At(s, p).Deciding?
    requires next.Some? ==> next.value > Of(At(s, p).seen, At(s, p).d).last
    ensures var Deciding(now, seen, at, d) := At(s, p);
      Step(s, Decide(p, next, true, false)) == Some(
        if next.Some? && next.value <= now && now > Of(seen, d).retry
        then s.(log := s.log + [Began(d, now, next.value, at, true)], pcs := s.pcs[p := Running(now, seen, at, d)])
        else s.(pcs := s.pcs[p := if d == Volume then Deciding(now, seen, at, S3) else Leaving]))
  {}

  // An error while the marker is written holds the destination back, and nothing runs.
  lemma FailedMarkerHoldsBack(s: Sys, p: Pid, next: Time, written: bool)
    requires At(s, p).Deciding? && Of(At(s, p).seen, At(s, p).d).last < next <= At(s, p).now
    requires At(s, p).now > Of(At(s, p).seen, At(s, p).d).retry
    ensures var Deciding(now, seen, at, d) := At(s, p);
      Step(s, Decide(p, Some(next), written, true)) == Some(
        s.(log := s.log + if written then [Began(d, now, next, at, false)] else [],
           local := s.local[(p, d) := now + BACKOFF],
           pcs := s.pcs[p := if d == Volume then Deciding(now, seen, at, S3) else Leaving]))
  {
    assert s.log + [] == s.log;
  }

  // Whatever becomes of the record of a result, a failed run or an error while it is
  // written holds the destination back, and the tick goes on.
  lemma ResultIsRecorded(s: Sys, p: Pid, written: bool, failed: bool)
    requires At(s, p).Recording? && (written || failed)
    ensures var Recording(now, seen, at, d, ok) := At(s, p);
      Step(s, Persist(p, written, failed)) == Some(
        s.(log := s.log + if written then [Recorded(d, ok, now, true)] else [],
           local := if failed || !ok then s.local[(p, d) := now + BACKOFF] else s.local,
           pcs := s.pcs[p := if d == Volume then Deciding(now, seen, at, S3) else Leaving]))
  {
    assert s.log + [] == s.log;
  }

  // What the tick of p at now makes of a log it has loaded: it is due if the schedule is
  // on, the occurrence is no later than now, and now is after the retry time of the row,
  // or of the process when the row has none.
  predicate IsDue(log: seq<Event>, local: Time, d: Dest, next: Option<Time>, now: Time) {
    var retry := Replay(log, d).retry;
    next.Some? && next.value <= now && now > (if retry.Some? then retry.value else local)
  }

  function SettleLog(log: seq<Event>, d: Dest, cleared: bool): seq<Event> {
    var attempt := Replay(log, d).attempt;
    if attempt.None? then [] else [Settled(d, attempt.value)] + if cleared then [Cleared(d)] else []
  }

  function RunLog(log: seq<Event>, local: Time, d: Dest, next: Option<Time>, now: Time, ok: bool): seq<Event> {
    if IsDue(log, local, d, next, now) then [Began(d, now, next.value, |log|, true), Recorded(d, ok, now, true)] else []
  }

  // The next occurrence of a schedule lies after the last success.
  predicate Next(log: seq<Event>, d: Dest, next: Option<Time>) {
    next.Some? ==> next.value > OrZero(Replay(log, d).last)
  }

  // The schedules and results of a tick.
  datatype Fate = Fate(next: Option<Time>, ok: bool)

  predicate FailsIn(log: seq<Event>, local: Time, d: Dest, fate: Fate, now: Time) {
    IsDue(log, local, d, fate.next, now) && !fate.ok
  }

  function HeldBack(local: map<(Pid, Dest), Time>, p: Pid, d: Dest, fails: bool, now: Time): map<(Pid, Dest), Time> {
    if fails then local[(p, d) := now + BACKOFF] else local
  }

  // A whole tick, left alone: it settles what was interrupted, runs each destination that
  // is due and no other, the volume first, records their results with its time, and gives
  // the lease back. After a failure the process holds the destination back on its own.
  lemma WholeTick(s: Sys, p: Pid, fallback: map<Dest, Time>, cleared: bool, volume: Fate, s3: Fate) returns (r: Sys)
    requires Reachable(s) && s.lease.None?
    requires var log := s.log + Seeds(s, fallback); Next(log, Volume, volume.next) && Next(log, S3, s3.next)
    ensures Reachable(r) && r.clock == s.clock && r.lease == None
    ensures var log := s.log + Seeds(s, fallback);
      r.log == log + SettleLog(log, Volume, cleared) + SettleLog(log, S3, cleared)
                   + RunLog(log, Local(s, p, Volume), Volume, volume.next, s.clock, volume.ok)
                   + RunLog(log, Local(s, p, S3), S3, s3.next, s.clock, s3.ok)
    ensures var log := s.log + Seeds(s, fallback);
      r.local == HeldBack(HeldBack(s.local, p, Volume, FailsIn(log, Local(s, p, Volume), Volume, volume, s.clock), s.clock),
                          p, S3, FailsIn(log, Local(s, p, S3), S3, s3, s.clock), s.clock)
  {
    hide Replay, Run, SettleLog, Seeds, Reachable, Local;
    var log := s.log + Seeds(s, fallback);
    ViewFacts(log, s, p, Volume);
    ViewFacts(log, s, p, S3);
    var settled := Settles(s, p, fallback, cleared);
    var halfway := DecidesAndRuns(settled, p, volume);
    var done := DecidesAndRuns(halfway, p, s3);
    r := Leaves(done, p);
  }

  lemma ViewFacts(log: seq<Event>, s: Sys, p: Pid, d: Dest)
    ensures var view, row := Of(ViewsOf(log, s, p), d), Replay(log, d);
      view.last == OrZero(row.last) && view.retry == if row.retry.Some? then row.retry.value else Local(s, p, d)
  {}

  lemma Leaves(s: Sys, p: Pid) returns (r: Sys)
    requires Reachable(s) && At(s, p).Leaving?
    ensures Reachable(r) && r == s.(pcs := s.pcs[p := Idle], lease := None)
  {
    hide Reachable, Run;
    Reach(s, Leave(p));
    r := Step(s, Leave(p)).value;
  }

  // Up to the first decision.
  lemma Settles(s: Sys, p: Pid, fallback: map<Dest, Time>, cleared: bool) returns (r: Sys)
    requires Reachable(s) && s.lease.None?
    ensures Reachable(r) && r.clock == s.clock && r.lease == Some(p) && r.local == s.local
    ensures var log := s.log + Seeds(s, fallback);
      && r.log == log + SettleLog(log, Volume, cleared) + SettleLog(log, S3, cleared)
      && At(r, p) == Deciding(s.clock, ViewsOf(log, s, p), |log|, Volume)
  {
    hide Replay, Run, Reachable, Seeds;
    Reach(s, Acquire(p));
    var s1 := Step(s, Acquire(p)).value;
    Reach(s1, Stamp(p));
    var s2 := Step(s1, Stamp(p)).value;
    assert Seeds(s2, fallback) == Seeds(s, fallback) by {
      SeedsOfLog(s, s2, fallback);
    }
    Reach(s2, Load(p, fallback));
    var s3 := Step(s2, Load(p, fallback)).value;
    Reach(s3, Settle(p, cleared));
    var s4 := Step(s3, Settle(p, cleared)).value;
    Reach(s4, Settle(p, cleared));
    r := Step(s4, Settle(p, cleared)).value;
  }

  function ViewsOf(log: seq<Event>, s: Sys, p: Pid): Views {
    Views(ViewOf(log, Volume, Local(s, p, Volume)), ViewOf(log, S3, Local(s, p, S3)))
  }

  lemma SeedsOfLog(s: Sys, r: Sys, fallback: map<Dest, Time>)
    requires s.log == r.log
    ensures Seeds(s, fallback) == Seeds(r, fallback)
  {}

  // From the decision for a destination to that for the next one, or to the end.
  lemma DecidesAndRuns(s: Sys, p: Pid, fate: Fate) returns (r: Sys)
    requires Reachable(s) && At(s, p).Deciding?
    requires fate.next.Some? ==> fate.next.value > Of(At(s, p).seen, At(s, p).d).last
    ensures Reachable(r) && r.clock == s.clock && r.lease == s.lease
    ensures At(r, p) == AfterDeciding(At(s, p))
    ensures var Deciding(now, seen, at, d) := At(s, p);
      r.log == s.log + if fate.next.Some? && fate.next.value <= now && now > Of(seen, d).retry
                       then [Began(d, now, fate.next.value, at, true), Recorded(d, fate.ok, now, true)] else []
    ensures var Deciding(now, seen, _, d) := At(s, p);
      r.local == if fate.next.Some? && fate.next.value <= now && now > Of(seen, d).retry && !fate.ok
                 then s.local[(p, d) := now + BACKOFF] else s.local
  {
    hide Run, Reachable, StepDecide;
    DecisionIsExact(s, p, fate.next);
    Reach(s, Decide(p, fate.next, true, false));
    r := Step(s, Decide(p, fate.next, true, false)).value;
    if At(r, p).Running? {
      var s1 := r;
      Reach(s1, EndRun(p, fate.ok));
      var s2 := Step(s1, EndRun(p, fate.ok)).value;
      Reach(s2, Persist(p, true, false));
      r := Step(s2, Persist(p, true, false)).value;
    }
  }

  // What a tick loads: the columns, with a last success that was never recorded filled
  // in from the legacy status file.
  lemma SeedsFillGaps(s: Sys, fallback: map<Dest, Time>, d: Dest)
    ensures var before, after := Replay(s.log, d), Replay(s.log + Seeds(s, fallback), d);
      after == before.(last := if before.last.None? && d in fallback && fallback[d] != 0 then Some(fallback[d]) else before.last)
  {
    hide Replay;
    var volume, s3 := SeedOf(s, fallback, Volume), SeedOf(s, fallback, S3);
    assert s.log + Seeds(s, fallback) == s.log + volume + s3;
    SeedFills(s, s.log, fallback, Volume, d);
    SeedFills(s, s.log + volume, fallback, S3, d);
  }

  lemma SeedFills(s: Sys, log: seq<Event>, fallback: map<Dest, Time>, e: Dest, d: Dest)
    ensures Replay(log + SeedOf(s, fallback, e), d) ==
      if e == d && SeedOf(s, fallback, e) != [] then Replay(log, d).(last := Some(fallback[d])) else Replay(log, d)
  {
    hide Replay;
    if SeedOf(s, fallback, e) == [] {
      assert log + [] == log;
    } else {
      ReplayAppend(log, Seeded(e, fallback[e]), d);
    }
  }

  // A free lease, an overdue destination past its retry clock, no marker left.
  predicate DestIsDue(s: Sys, p: Pid, d: Dest, next: Time) {
    && s.lease.None? && Local(s, p, d) < s.clock
    && Replay(s.log, Volume).attempt.None? && Replay(s.log, S3).attempt.None?
    && OrZero(Replay(s.log, d).last) < next <= s.clock
    && s.clock > OrZero(Replay(s.log, d).retry) && s.clock > 0
  }

  // Such a tick, left alone, starts the run with the current time.
  lemma DueTickStarts(s: Sys, p: Pid, d: Dest, next: Time) returns (r: Sys)
    requires Reachable(s) && DestIsDue(s, p, d, next)
    ensures Reachable(r) && r.log == s.log + [Began(d, s.clock, next, |s.log|, true)]
    ensures r.clock == s.clock && r.lease == Some(p) && r.local == s.local
    ensures At(r, p).Running? && At(r, p).d == d && At(r, p).now == s.clock
  {
    hide Replay, Run, Reachable, StepDecide;
    var log := s.log + Seeds(s, map[]);
    assert log == s.log;
    ViewFacts(log, s, p, d);
    var settled := Settles(s, p, map[], false);
    var at := settled;
    if d.S3? {
      at := DecidesAndRuns(settled, p, Fate(None, false));
    }
    DecisionIsExact(at, p, Some(next));
    Reach(at, Decide(p, Some(next), true, false));
    r := Step(at, Decide(p, Some(next), true, false)).value;
  }

  // The running backup ends with its result; the tick then makes its decision for the
  // bucket, if that is still to come, and ends.
  lemma TickEnds(s: Sys, p: Pid, ok: bool, s3: Fate) returns (r: Sys)
    requires Reachable(s) && At(s, p).Running? && s.lease == Some(p)
    requires At(s, p).d.Volume? && s3.next.Some? ==> s3.next.value > At(s, p).seen.s3.last
    ensures Reachable(r) && r.clock == s.clock && r.lease == None
    ensures var Running(now, seen, at, d) := At(s, p);
      r.log == s.log + [Recorded(d, ok, now, true)]
               + if d.Volume? && s3.next.Some? && s3.next.value <= now && now > seen.s3.retry
                 then [Began(S3, now, s3.next.value, at, true), Recorded(S3, s3.ok, now, true)] else []
    ensures forall q, d :: q != p ==> Local(r, q, d) == Local(s, q, d)
  {
    hide Run, Reachable, StepPersist;
    Reach(s, EndRun(p, ok));
    var s1 := Step(s, EndRun(p, ok)).value;
    ResultIsRecorded(s1, p, true, false);
    Reach(s1, Persist(p, true, false));
    var s2 := Step(s1, Persist(p, true, false)).value;
    var done := s2;
    if At(s, p).d.Volume? {
      done := DecidesAndRuns(s2, p, s3);
    }
    r := Leaves(done, p);
  }

  // One scheduled volume backup at second 501 with result ok, a manual result with
  // the same outcome but the stamp 10, and the next tick at second 1001.
  lemma StaleResult(ok: bool) returns (r: Sys)
    ensures Reachable(r)
    ensures r.log == [Began(Volume, 501, 300, 0, true), Recorded(Volume, ok, 501, true),
                      Recorded(Volume, ok, 10, false), Began(Volume, 1001, 300, 3, true)]
  {
    hide Replay;
    assert Run([]) == Some(Boot);
    Reach(Boot, Wait(500));
    var s := Step(Boot, Wait(500)).value;
    ReplayEmpty();
    var s1 := DueTickStarts(s, 1, Volume, 300);
    var s2 := TickEnds(s1, 1, ok, Fate(None, false));
    assert s2.log == s1.log + [Recorded(Volume, ok, 501, true)];
    Reach(s2, Manual(Volume, ok, 10));
    var s3 := Step(s2, Manual(Volume, ok, 10)).value;
    Reach(s3, Wait(500));
    var s4 := Step(s3, Wait(500)).value;
    ReplayAppend([], s1.log[0], Volume);
    ReplayAppend([], s1.log[0], S3);
    assert [] + [s1.log[0]] == s1.log;
    ReplayAppend(s1.log, Recorded(Volume, ok, 501, true), Volume);
    ReplayAppend(s1.log, Recorded(Volume, ok, 501, true), S3);
    ReplayAppend(s2.log, Recorded(Volume, ok, 10, false), Volume);
    ReplayAppend(s2.log, Recorded(Volume, ok, 10, false), S3);
    assert Local(s2, 2, Volume) == Local(s1, 2, Volume) == 0;
    assert s4.log == s2.log + [Recorded(Volume, ok, 10, false)];
    r := DueTickStarts(s4, 2, Volume, 300);
  }

  lemma ReplayEmpty()
    ensures forall d :: Replay([], d) == Row(None, None, None)
  {
  }

  // RunScheduled takes its stamp before it runs. Recorded late, its failure sets
  // the retry clock back: two starts, 500 seconds apart, with no success between.
  lemma StaleFailureShortensBackoff()
    ensures exists s :: Reachable(s) && |s.log| == 4 && Begins(s.log[0], Volume) && Begins(s.log[3], Volume)
              && NoSuccessSince(s.log, 0, 3, Volume) && s.log[3].now <= s.log[0].now + BACKOFF
  {
    var s := StaleResult(false);
  }

  // Its success sets the last success back: the same occurrence is answered twice.
  lemma StaleSuccessRepeatsOccurrence()
    ensures exists s :: Reachable(s) && |s.log| == 4 && Begins(s.log[0], Volume) && Begins(s.log[3], Volume)
              && s.log[1] == Recorded(Volume, true, s.log[0].now, true) && s.log[3].due == s.log[0].due
  {
    var s := StaleResult(true);
  }
}
