// The lease for memory-heavy work: one per process by a semaphore, one per database
// by an advisory lock, re-entered through the context (internal/backup/resources.go).
// Calls of any number of services interleave step by step.
module WorkLease {
  import opened Wrappers

  type Service = nat
  type Database = nat
  type CallId = nat   // names the lease a call creates, and its session

  // Where a call that got the semaphore stands. Ending: no longer active, the
  // advisory lock not yet given back. Leaving: only the semaphore is left to return.
  datatype Stage = Entering | Active | Ending | Leaving | Over

  datatype Call = Call(service: Service, stage: Stage)

  // nested are the calls granted on the context of another one, with that call; lost
  // are the calls whose session ended under them while active.
  datatype State = State(calls: map<CallId, Call>, nested: map<CallId, CallId>, slots: map<Service, nat>,
                         locks: map<Database, CallId>, lost: set<CallId>)

  type Databases = Service -> Option<Database>

  const START := State(map[], map[], map[], map[], {})

  function Slots(st: State, s: Service): nat { if s in st.slots then st.slots[s] else 0 }

  // The lease carried by a context is good for this service and still active.
  predicate Grants(st: State, s: Service, context: Option<CallId>) {
    context.Some? && context.value in st.calls && st.calls[context.value] == Call(s, Active)
  }

  datatype Action =
    | Acquire(call: CallId, service: Service, context: Option<CallId>, canceled: bool)
    // reached: the query came back; orphaned: it did not, but took the lock
    | TakeLock(call: CallId, reached: bool, orphaned: bool)
    // the release function the call got, a nested one included
    | Release(call: CallId)
    | GiveLock(call: CallId, ok: bool)
    | GiveSlot(call: CallId)
    | SessionEnds(call: CallId)

  datatype Reply = Granted | Nested | Refused | Silent

  predicate Possible(st: State, a: Action) {
    match a
    case Acquire(call, _, _, _) => call !in st.calls && call !in st.nested
    case TakeLock(call, _, _) => call in st.calls && st.calls[call].stage.Entering?
    case Release(call) => call in st.nested || (call in st.calls && !st.calls[call].stage.Entering?)
    case GiveLock(call, _) => call in st.calls && st.calls[call].stage.Ending?
    case GiveSlot(call) => call in st.calls && st.calls[call].stage.Leaving?
    case SessionEnds(call) => call in st.calls
  }

  function To(st: State, call: CallId, stage: Stage): State
    requires call in st.calls
  {
    st.(calls := st.calls[call := Call(st.calls[call].service, stage)])
  }

  function Unlock(locks: map<Database, CallId>, call: CallId): map<Database, CallId> {
    map d | d in locks && locks[d] != call :: locks[d]
  }

  function AcquireStep(st: State, call: CallId, s: Service, context: Option<CallId>, canceled: bool): (State, Reply) {
    if canceled then (st, Refused)
    else if Grants(st, s, context) then (st.(nested := st.nested[call := context.value]), Nested)
    else if Slots(st, s) >= 1 then (st, Refused)
    else (st.(calls := st.calls[call := Call(s, Entering)], slots := st.slots[s := Slots(st, s) + 1]), Silent)
  }

  function TakeLockStep(st: State, call: CallId, reached: bool, orphaned: bool, dbs: Databases): (State, Reply)
    requires call in st.calls
  {
    match dbs(st.calls[call].service)
    case None => (To(st, call, Active), Granted)
    case Some(d) =>
      if reached && d !in st.locks then (To(st, call, Active).(locks := st.locks[d := call]), Granted)
      else if !reached && orphaned && d !in st.locks then (To(st, call, Leaving).(locks := st.locks[d := call]), Refused)
      else (To(st, call, Leaving), Refused)
  }

  function Next(st: State, a: Action, dbs: Databases): (State, Reply)
    requires Possible(st, a)
  {
    match a
    case Acquire(call, s, context, canceled) => AcquireStep(st, call, s, context, canceled)
    case TakeLock(call, reached, orphaned) => TakeLockStep(st, call, reached, orphaned, dbs)
    case Release(call) =>
      (if call in st.calls && st.calls[call].stage.Active? then To(st, call, Ending) else st, Silent)
    case GiveLock(call, ok) =>
      (To(st, call, Leaving).(locks := if ok then Unlock(st.locks, call) else st.locks), Silent)
    case GiveSlot(call) =>
      var s := st.calls[call].service;
      (To(st, call, Over).(slots := st.slots[s := if Slots(st, s) > 0 then Slots(st, s) - 1 else 0]), Silent)
    case SessionEnds(call) =>
      (st.(locks := Unlock(st.locks, call), lost := if st.calls[call].stage.Active? then st.lost + {call} else st.lost), Silent)
  }

  // ----- the invariant -------------------------------------------------------

  ghost function Holders(st: State, s: Service): set<CallId> {
    set call | call in st.calls && st.calls[call].service == s && !st.calls[call].stage.Over?
  }

  ghost predicate Counted(st: State) {
    forall s {:trigger Slots(st, s)} :: Slots(st, s) == |Holders(st, s)| <= 1
  }

  ghost predicate Locked(st: State, dbs: Databases) {
    forall call :: call in st.calls && st.calls[call].stage.Active? && call !in st.lost ==>
      match dbs(st.calls[call].service)
      case None => true
      case Some(d) => d in st.locks && st.locks[d] == call
  }

  ghost predicate Separate(st: State) { forall call :: call in st.calls ==> call !in st.nested }

  ghost predicate Inv(st: State, dbs: Databases) { Counted(st) && Locked(st, dbs) && Separate(st) }

  lemma SameHolders(st: State, after: State, call: CallId)
    requires Counted(st) && after.slots == st.slots && call in st.calls && call in after.calls
    requires after.calls == st.calls[call := after.calls[call]]
    requires after.calls[call].service == st.calls[call].service
    requires !st.calls[call].stage.Over? && !after.calls[call].stage.Over?
    ensures Counted(after)
  {
    forall s ensures Slots(after, s) == |Holders(after, s)| <= 1 {
      assert Slots(after, s) == Slots(st, s);
      assert Holders(after, s) == Holders(st, s);
    }
  }

  lemma Entered(st: State, after: State, call: CallId, s: Service)
    requires Counted(st) && call !in st.calls && Slots(st, s) == 0
    requires after.calls == st.calls[call := Call(s, Entering)] && after.slots == st.slots[s := 1]
    ensures Counted(after)
  {
    forall t ensures Slots(after, t) == |Holders(after, t)| <= 1 {
      assert Slots(st, t) == |Holders(st, t)|;
      HolderJoins(st, after, call, s, t);
    }
  }

  lemma HolderJoins(st: State, after: State, call: CallId, s: Service, t: Service)
    requires call !in st.calls && after.calls == st.calls[call := Call(s, Entering)]
    ensures call !in Holders(st, t)
    ensures Holders(after, t) == if t == s then Holders(st, t) + {call} else Holders(st, t)
  {}

  lemma Left(st: State, after: State, call: CallId)
    requires Counted(st) && call in st.calls && !st.calls[call].stage.Over?
    requires after.calls == st.calls[call := Call(st.calls[call].service, Over)]
    requires after.slots == st.slots[st.calls[call].service := 0]
    ensures Counted(after)
  {
    forall t ensures Slots(after, t) == |Holders(after, t)| <= 1 {
      assert Slots(st, t) == |Holders(st, t)|;
      assert Holders(after, t) == Holders(st, t) - {call};
    }
  }

  lemma OnlyHolder(st: State, a: CallId, b: CallId)
    requires Counted(st) && a in st.calls && b in st.calls && st.calls[a].service == st.calls[b].service
    requires !st.calls[a].stage.Over? && !st.calls[b].stage.Over?
    ensures a == b
  {
    var s := st.calls[a].service;
    assert Slots(st, s) == |Holders(st, s)|;
    assert a in Holders(st, s) && b in Holders(st, s);
    assert |Holders(st, s) - {a}| == 0;
  }

  lemma StepKeepsInv(st: State, a: Action, dbs: Databases)
    requires Possible(st, a) && Inv(st, dbs)
    ensures Inv(Next(st, a, dbs).0, dbs)
  {
    StepKeepsCount(st, a, dbs);
    StepKeepsLocks(st, a, dbs);
    StepKeepsSeparate(st, a, dbs);
  }

  lemma StepKeepsCount(st: State, a: Action, dbs: Databases)
    requires Possible(st, a) && Counted(st)
    ensures Counted(Next(st, a, dbs).0)
  {
    hide Counted;
    var after := Next(st, a, dbs).0;
    match a {
      case Acquire(call, s, _, _) =>
        if after.calls != st.calls {
          Entered(st, after, call, s);
        } else {
          SameCalls(st, after);
        }
      case TakeLock(call, _, _) => SameHolders(st, after, call);
      case Release(call) =>
        if call in st.calls && after != st {
          SameHolders(st, after, call);
        }
      case GiveLock(call, _) => SameHolders(st, after, call);
      case GiveSlot(call) =>
        AtMostOne(st, st.calls[call].service);
        Left(st, after, call);
      case SessionEnds(call) => SameCalls(st, after);
    }
  }

  lemma StepKeepsSeparate(st: State, a: Action, dbs: Databases)
    requires Possible(st, a) && Separate(st)
    ensures Separate(Next(st, a, dbs).0)
  {
    hide Unlock;
  }

  lemma AtMostOne(st: State, s: Service)
    requires Counted(st)
    ensures Slots(st, s) <= 1
  {}

  lemma SameCalls(st: State, after: State)
    requires Counted(st) && after.calls == st.calls && after.slots == st.slots
    ensures Counted(after)
  {
    forall s ensures Slots(after, s) == |Holders(after, s)| <= 1 {
      assert Slots(after, s) == Slots(st, s) && Holders(after, s) == Holders(st, s);
    }
  }

  lemma StepKeepsLocks(st: State, a: Action, dbs: Databases)
    requires Possible(st, a) && Locked(st, dbs)
    ensures Locked(Next(st, a, dbs).0, dbs)
  {}

  // ----- whole runs ----------------------------------------------------------

  function Run(actions: seq<Action>, from: State, dbs: Databases): Option<State> {
    if actions == [] then Some(from)
    else
      var before := Run(actions[..|actions| - 1], from, dbs);
      var last := actions[|actions| - 1];
      if before.Some? && Possible(before.value, last) then Some(Next(before.value, last, dbs).0) else None
  }

  lemma {:induction false} RunKeepsInv(actions: seq<Action>, from: State, dbs: Databases)
    requires Inv(from, dbs) && Run(actions, from, dbs).Some?
    ensures Inv(Run(actions, from, dbs).value, dbs)
  {
    hide Inv, Next, Possible;
    if actions != [] {
      RunKeepsInv(actions[..|actions| - 1], from, dbs);
      StepKeepsInv(Run(actions[..|actions| - 1], from, dbs).value, actions[|actions| - 1], dbs);
    }
  }

  lemma StartInv(dbs: Databases)
    ensures Inv(START, dbs)
  {
    forall s ensures Slots(START, s) == |Holders(START, s)| <= 1 {
      assert Holders(START, s) == {};
    }
  }

  ghost predicate Reached(st: State, dbs: Databases) {
    exists actions :: Run(actions, START, dbs) == Some(st)
  }

  lemma ReachedInv(st: State, dbs: Databases)
    requires Reached(st, dbs)
    ensures Inv(st, dbs)
  {
    hide Inv, Run;
    var actions :| Run(actions, START, dbs) == Some(st);
    StartInv(dbs);
    RunKeepsInv(actions, START, dbs);
  }

  // In every reachable state a process has at most one active lease, and two active
  // leases on one database mean that one of them has lost its session. A semaphore
  // is occupied exactly by the leases that are being taken, held or given back.
  lemma AtMostOneActive(st: State, dbs: Databases, a: CallId, b: CallId)
    requires Reached(st, dbs) && a in st.calls && b in st.calls
    requires st.calls[a].stage.Active? && st.calls[b].stage.Active? && a != b
    ensures st.calls[a].service != st.calls[b].service
    ensures dbs(st.calls[a].service).Some? && dbs(st.calls[a].service) == dbs(st.calls[b].service) ==>
      a in st.lost || b in st.lost
  {
    ReachedInv(st, dbs);
    if st.calls[a].service == st.calls[b].service {
      OnlyHolder(st, a, b);
    }
  }

  lemma OccupancyIsExact(st: State, dbs: Databases, s: Service)
    requires Reached(st, dbs)
    ensures Slots(st, s) == |Holders(st, s)| <= 1
  {
    ReachedInv(st, dbs);
  }

  // ----- nesting and release -------------------------------------------------

  // The call keeps its lease until its own release function is called: whatever else
  // happens, nested calls on its context included and their release functions called in
  // any number and order, further calls on the context are granted at once.
  lemma {:induction false} NestedReleasesKeepLease(actions: seq<Action>, from: State, dbs: Databases, call: CallId, s: Service)
    requires Separate(from) && call in from.calls && from.calls[call] == Call(s, Active)
    requires Run(actions, from, dbs).Some? && Release(call) !in actions
    ensures var st := Run(actions, from, dbs).value;
      && Separate(st) && call in st.calls && st.calls[call] == Call(s, Active)
      && forall a :: Possible(st, a) && a.Acquire? && !a.canceled && a.service == s && a.context == Some(call) ==>
           Next(st, a, dbs).1 == Nested && OnlyNested(st, Next(st, a, dbs).0)
  {
    hide Run, Unlock, Next, Possible;
    if actions == [] {
      NoStep(from, dbs);
    } else {
      var init, last := actions[..|actions| - 1], actions[|actions| - 1];
      assert last in actions && forall a :: a in init ==> a in actions;
      LastStep(actions, from, dbs);
      NestedReleasesKeepLease(init, from, dbs, call, s);
      StepKeepsActive(Run(init, from, dbs).value, last, dbs, call, s);
    }
    var st := Run(actions, from, dbs).value;
    forall a | Possible(st, a) && a.Acquire? && !a.canceled && a.service == s && a.context == Some(call)
      ensures Next(st, a, dbs).1 == Nested && OnlyNested(st, Next(st, a, dbs).0)
    {
      NestedExactlyUnderActiveLease(st, a, dbs);
    }
  }

  // A call is granted as a nested one exactly on the context of an active lease of the
  // same service, and takes neither semaphore nor lock; its release function does nothing
  // then and for the rest of the run.
  lemma NestedExactlyUnderActiveLease(st: State, a: Action, dbs: Databases)
    requires a.Acquire? && Possible(st, a)
    ensures Next(st, a, dbs).1 == Nested <==> !a.canceled && Grants(st, a.service, a.context)
    ensures Next(st, a, dbs).1 == Nested ==> OnlyNested(st, Next(st, a, dbs).0) && a.call in Next(st, a, dbs).0.nested
    ensures Next(st, a, dbs).1 != Nested ==> Next(st, a, dbs) == Next(st, a.(context := None), dbs)
  {}

  lemma {:induction false} NestedReleaseDoesNothing(actions: seq<Action>, from: State, dbs: Databases, handle: CallId)
    requires Separate(from) && handle in from.nested && Run(actions, from, dbs).Some?
    ensures var st := Run(actions, from, dbs).value;
      Separate(st) && handle in st.nested && Possible(st, Release(handle)) && Next(st, Release(handle), dbs).0 == st
  {
    hide Run, Next;
    if actions == [] {
      NoStep(from, dbs);
    } else {
      var init, last := actions[..|actions| - 1], actions[|actions| - 1];
      LastStep(actions, from, dbs);
      NestedReleaseDoesNothing(init, from, dbs, handle);
      StepKeepsSeparate(Run(init, from, dbs).value, last, dbs);
      StepKeepsHandle(Run(init, from, dbs).value, last, dbs, handle);
    }
    HandleDoesNothing(Run(actions, from, dbs).value, dbs, handle);
  }

  lemma StepKeepsHandle(st: State, a: Action, dbs: Databases, handle: CallId)
    requires Possible(st, a) && handle in st.nested
    ensures handle in Next(st, a, dbs).0.nested
  {
    hide Unlock;
  }

  lemma HandleDoesNothing(st: State, dbs: Databases, handle: CallId)
    requires Separate(st) && handle in st.nested
    ensures Possible(st, Release(handle)) && Next(st, Release(handle), dbs).0 == st
  {}

  // All that counts is as before.
  ghost predicate OnlyNested(st: State, after: State) {
    after.calls == st.calls && after.slots == st.slots && after.locks == st.locks && after.lost == st.lost
  }

  lemma NoStep(from: State, dbs: Databases)
    ensures Run([], from, dbs) == Some(from)
  {}

  lemma LastStep(actions: seq<Action>, from: State, dbs: Databases)
    requires actions != [] && Run(actions, from, dbs).Some?
    ensures var before := Run(actions[..|actions| - 1], from, dbs);
      && before.Some? && Possible(before.value, actions[|actions| - 1])
      && Run(actions, from, dbs).value == Next(before.value, actions[|actions| - 1], dbs).0
  {}

  lemma StepKeepsActive(st: State, a: Action, dbs: Databases, call: CallId, s: Service)
    requires Separate(st) && Possible(st, a) && a != Release(call) && call in st.calls && st.calls[call] == Call(s, Active)
    ensures var after := Next(st, a, dbs).0; Separate(after) && call in after.calls && after.calls[call] == Call(s, Active)
  {
    hide Unlock;
  }

  // Once released, a lease is never active again: its context grants nothing for the
  // rest of the run, and releasing it once more changes nothing.
  lemma {:induction false} ReleasedForGood(actions: seq<Action>, from: State, dbs: Databases, call: CallId)
    requires Released(from, call) && Run(actions, from, dbs).Some?
    ensures var st := Run(actions, from, dbs).value;
      && Released(st, call) && Possible(st, Release(call)) && Next(st, Release(call), dbs).0 == st
      && forall s :: !Grants(st, s, Some(call))
  {
    hide Run, Next;
    if actions == [] {
      NoStep(from, dbs);
    } else {
      var init, last := actions[..|actions| - 1], actions[|actions| - 1];
      LastStep(actions, from, dbs);
      ReleasedForGood(init, from, dbs, call);
      StepKeepsReleased(Run(init, from, dbs).value, last, dbs, call);
    }
    ReleasedGrantsNothing(Run(actions, from, dbs).value, dbs, call);
  }

  predicate Released(st: State, call: CallId) {
    call in st.calls && !st.calls[call].stage.Entering? && !st.calls[call].stage.Active?
  }

  lemma StepKeepsReleased(st: State, a: Action, dbs: Databases, call: CallId)
    requires Released(st, call) && Possible(st, a)
    ensures Released(Next(st, a, dbs).0, call)
  {
    hide Unlock;
  }

  lemma ReleasedGrantsNothing(st: State, dbs: Databases, call: CallId)
    requires Released(st, call)
    ensures Possible(st, Release(call)) && Next(st, Release(call), dbs).0 == st
    ensures forall s :: !Grants(st, s, Some(call))
  {}

  function Handover(call: CallId, next: CallId, s: Service): seq<Action> {
    [Release(call), GiveLock(call, true), GiveSlot(call), Acquire(next, s, Some(call), false), TakeLock(next, true, false)]
  }

  // Giving the lease back in full frees it for the next caller.
  lemma ReleaseFreesBoth(st: State, dbs: Databases, call: CallId, next: CallId, s: Service)
    requires Inv(st, dbs) && call in st.calls && st.calls[call] == Call(s, Active) && call !in st.lost
    requires next !in st.calls && next !in st.nested
    ensures var end := Run(Handover(call, next, s), st, dbs);
      end.Some? && next in end.value.calls && end.value.calls[next] == Call(s, Active)
  {
    hide Run, Next, Possible, Inv;
    var c := GivesBack(st, dbs, call, s);
    var a := Next(st, Release(call), dbs).0;
    var b := Next(a, GiveLock(call, true), dbs).0;
    var d, e := NextEnters(c, dbs, call, next, s);
    RunOfFive(st, Release(call), GiveLock(call, true), GiveSlot(call), Acquire(next, s, Some(call), false),
              TakeLock(next, true, false), a, b, c, d, e, dbs);
  }

  lemma GivesBack(st: State, dbs: Databases, call: CallId, s: Service) returns (c: State)
    requires Inv(st, dbs) && call in st.calls && st.calls[call] == Call(s, Active) && call !in st.lost
    ensures Possible(st, Release(call)) && Possible(Next(st, Release(call), dbs).0, GiveLock(call, true))
    ensures var b := Next(Next(st, Release(call), dbs).0, GiveLock(call, true), dbs).0;
      Possible(b, GiveSlot(call)) && Next(b, GiveSlot(call), dbs).0 == c
    ensures c.calls == st.calls[call := Call(s, Over)] && c.nested == st.nested && Slots(c, s) == 0
    ensures dbs(s).Some? ==> dbs(s).value !in c.locks
  {
    AtMostOne(st, s);
    var a := Next(st, Release(call), dbs).0;
    var b := Next(a, GiveLock(call, true), dbs).0;
    c := Next(b, GiveSlot(call), dbs).0;
  }

  lemma NextEnters(c: State, dbs: Databases, call: CallId, next: CallId, s: Service) returns (d: State, e: State)
    requires call in c.calls && c.calls[call] == Call(s, Over) && Slots(c, s) == 0
    requires next !in c.calls && next !in c.nested && (dbs(s).Some? ==> dbs(s).value !in c.locks)
    ensures Possible(c, Acquire(next, s, Some(call), false)) && Next(c, Acquire(next, s, Some(call), false), dbs).0 == d
    ensures Possible(d, TakeLock(next, true, false)) && Next(d, TakeLock(next, true, false), dbs).0 == e
    ensures next in e.calls && e.calls[next] == Call(s, Active)
  {
    d := Next(c, Acquire(next, s, Some(call), false), dbs).0;
    e := Next(d, TakeLock(next, true, false), dbs).0;
  }

  lemma RunOfFive(st: State, a1: Action, a2: Action, a3: Action, a4: Action, a5: Action,
                  s1: State, s2: State, s3: State, s4: State, s5: State, dbs: Databases)
    requires Possible(st, a1) && Next(st, a1, dbs).0 == s1 && Possible(s1, a2) && Next(s1, a2, dbs).0 == s2
    requires Possible(s2, a3) && Next(s2, a3, dbs).0 == s3 && Possible(s3, a4) && Next(s3, a4, dbs).0 == s4
    requires Possible(s4, a5) && Next(s4, a5, dbs).0 == s5
    ensures Run([a1, a2, a3, a4, a5], st, dbs) == Some(s5)
  {
    hide Next, Possible;
    assert Run([], st, dbs) == Some(st);
    assert [a1][..0] == [];
    assert Run([a1], st, dbs) == Some(s1);
    assert [a1, a2][..1] == [a1];
    assert Run([a1, a2], st, dbs) == Some(s2);
    assert [a1, a2, a3][..2] == [a1, a2];
    assert Run([a1, a2, a3], st, dbs) == Some(s3);
    assert [a1, a2, a3, a4][..3] == [a1, a2, a3];
    assert Run([a1, a2, a3, a4], st, dbs) == Some(s4);
    assert [a1, a2, a3, a4, a5][..4] == [a1, a2, a3, a4];
  }
}
