// How one serving process drains its work before a restore
// (internal/server/backup_resources.go; maintenanceGate and the two maintenance
// helpers of internal/server/server.go). The goroutines of the process are
// threads whose program counters advance by one atomic step at a time: one load
// or store of an atomic flag, one lock operation, or one change of the
// registry of tasks, which only the holder of backgroundMu can see.
module RestoreAdmission {
  import opened Wrappers

  type Tid = int
  type TaskId = int

  // Who shares the activity lock: Background bodies and HTTP requests.
  datatype Worker = Background | Request

  datatype Pc =
    | Idle
    // Background and maintenanceGate: two unlocked loads, RLock, two loads, work.
    | Peeked(w: Worker)
    | Entered(w: Worker)
    | Admitting(w: Worker)
    | Looked(w: Worker)
    | Working(w: Worker)
    | Leaving(w: Worker)
    // BackgroundTask: three unlocked loads, then the same under backgroundMu.
    | TaskPeeked
    | TaskPeekedLease
    | TaskEntered
    | TaskLocked
    | TaskLooked
    | TaskLookedLease
    | TaskAdmitted
    | TaskRefused
    | TaskInserted(id: TaskId)
    | TaskWorking(id: TaskId)
    | TaskReturned(id: TaskId)
    | TaskRemoving(id: TaskId)
    | TaskRemoved
    // BeginShutdown and FailClosed.
    | ShutdownLocked
    | ShutdownStored
    | FailMarked
    | FailStored
    | FailLocked
    // beginRestore, called by a request.
    | RestoreAsked
    | RestoreClaimed
    | RestoreReleased
    | RestoreLocked
    | RestoreSnapshot(pending: set<TaskId>)
    | RestoreDraining(pending: set<TaskId>)
    | RestoreDrained
    | RestoreExclusive
    | RestoreChecked
    | RestoreLeasing
    // The callback is out: the database is being overwritten.
    | Restoring
    // The callback, and clearRestoreMaintenance (locked: still under the lock).
    | Finishing(reconciled: bool)
    | Clearing(locked: bool)
    | ClearStore(locked: bool)
    | ClearRecheck(locked: bool)
    | ClearUndo(locked: bool)
    | Unlocking(thenClear: bool)
    | Replying

  datatype Server = Server(
    maintenance: bool,
    leaseLost: bool,
    draining: bool,
    mutex: Option<Tid>,      // holder of backgroundMu
    readers: set<Tid>,       // read holders of activity
    writer: Option<Tid>,     // write holder of activity
    tasks: set<TaskId>,      // backgroundTasks
    closed: set<TaskId>,     // tasks whose done channel is closed
    next: TaskId,            // backgroundNext
    pcs: map<Tid, Pc>)

  function At(s: Server, t: Tid): Pc { if t in s.pcs then s.pcs[t] else Idle }

  const Boot := Server(false, false, false, None, {}, None, {}, {}, 0, map[])

  datatype Action =
    | StartWorker(w: Worker)
    | StartTask
    | StartShutdown
    | StartFailClosed
    | AskRestore
    | Advance
    | GiveUp                  // the context ended, or the lease was refused
    | Confirm(id: TaskId)     // a done channel was seen closed
    | Finish(reconciled: bool)

  // The one shared effect of an atomic step.
  datatype Effect =
    | Nothing
    | LockMutex
    | UnlockMutex
    | AddReader
    | DropReader
    | LockWriter
    | UnlockWriter
    | StoreMaintenance(on: bool)
    | StoreLeaseLost
    | StoreDraining
    | Insert                  // backgroundNext++ and the new map entry
    | Remove(id: TaskId)      // delete the map entry, close its done channel

  datatype Move = Move(pc: Pc, effect: Effect)

  // ----- the steps -------------------------------------------------------------

  function Goto(pc: Pc): Option<Move> { Some(Move(pc, Nothing)) }

  function NextStart(s: Server, a: Action): Option<Move> {
    match a
    case StartWorker(w) => Goto(if s.maintenance then Idle else Peeked(w))
    case StartTask => Goto(if s.maintenance then Idle else TaskPeeked)
    case StartShutdown => Some(Move(ShutdownLocked, LockMutex))
    case StartFailClosed => Some(Move(FailMarked, StoreLeaseLost))
    case _ => None
  }

  function NextWorker(s: Server, pc: Pc, a: Action): Option<Move> {
    match (pc, a)
    case (Peeked(w), Advance) => Goto(if s.leaseLost then Idle else Entered(w))
    case (Entered(w), Advance) => Some(Move(Admitting(w), AddReader))
    case (Admitting(w), Advance) => Goto(if s.maintenance then Leaving(w) else Looked(w))
    case (Looked(w), Advance) => Goto(if s.leaseLost then Leaving(w) else Working(w))
    case (Working(w), Advance) => Goto(Leaving(w))
    case (Working(Request), AskRestore) => Goto(if s.leaseLost then pc else RestoreAsked)
    case (Leaving(w), Advance) => Some(Move(Idle, DropReader))
    case _ => None
  }

  function NextTask(s: Server, pc: Pc, a: Action): Option<Move> {
    if a != Advance then None else
    match pc
    case TaskPeeked => Goto(if s.leaseLost then Idle else TaskPeekedLease)
    case TaskPeekedLease => Goto(if s.draining then Idle else TaskEntered)
    case TaskEntered => Some(Move(TaskLocked, LockMutex))
    case TaskLocked => Goto(if s.maintenance then TaskRefused else TaskLooked)
    case TaskLooked => Goto(if s.leaseLost then TaskRefused else TaskLookedLease)
    case TaskLookedLease => Goto(if s.draining then TaskRefused else TaskAdmitted)
    case TaskAdmitted => Some(Move(TaskInserted(s.next + 1), Insert))
    case TaskInserted(id) => Some(Move(TaskWorking(id), UnlockMutex))
    case TaskWorking(id) => Goto(TaskReturned(id))
    case TaskReturned(id) => Some(Move(TaskRemoving(id), LockMutex))
    case TaskRemoving(id) => Some(Move(TaskRemoved, Remove(id)))
    case TaskRemoved => Some(Move(Idle, UnlockMutex))
    case TaskRefused => Some(Move(Idle, UnlockMutex))
    case _ => None
  }

  function NextControl(pc: Pc, a: Action): Option<Move> {
    if a != Advance then None else
    match pc
    case ShutdownLocked => Some(Move(ShutdownStored, StoreDraining))
    case ShutdownStored => Some(Move(Idle, UnlockMutex))
    case FailMarked => Some(Move(FailStored, StoreMaintenance(true)))
    case FailStored => Some(Move(FailLocked, LockMutex))
    case FailLocked => Some(Move(Idle, UnlockMutex))
    case _ => None
  }

  function NextRestore(s: Server, pc: Pc, a: Action): Option<Move> {
    match (pc, a)
    case (RestoreAsked, Advance) =>  // CompareAndSwap(false, true)
      if s.maintenance then Goto(Working(Request)) else Some(Move(RestoreClaimed, StoreMaintenance(true)))
    case (RestoreClaimed, Advance) => Some(Move(RestoreReleased, DropReader))
    case (RestoreReleased, Advance) => Some(Move(RestoreLocked, LockMutex))
    case (RestoreLocked, Advance) => Goto(RestoreSnapshot(s.tasks))
    case (RestoreSnapshot(pending), Advance) => Some(Move(RestoreDraining(pending), UnlockMutex))
    case (RestoreDraining(pending), Confirm(id)) =>
      if id in pending && id in s.closed then Goto(RestoreDraining(pending - {id})) else None
    case (RestoreDraining(pending), Advance) => if pending == {} then Goto(RestoreDrained) else None
    case (RestoreDraining(pending), GiveUp) => Goto(Clearing(false))
    case (RestoreDrained, Advance) => Some(Move(RestoreExclusive, LockWriter))  // activity.TryLock
    case (RestoreDrained, GiveUp) => Goto(Clearing(false))
    case (RestoreExclusive, Advance) => Goto(RestoreChecked)
    case (RestoreExclusive, GiveUp) => Goto(Unlocking(true))
    case (RestoreChecked, Advance) => Goto(if s.leaseLost then Unlocking(false) else RestoreLeasing)
    case (RestoreLeasing, Advance) => Goto(Restoring)
    case (RestoreLeasing, GiveUp) => Goto(Unlocking(true))
    case _ => None
  }

  function NextFinish(s: Server, pc: Pc, a: Action): Option<Move> {
    match (pc, a)
    case (Restoring, Finish(reconciled)) => Goto(Finishing(reconciled))
    case (Finishing(reconciled), Advance) => Goto(if reconciled then Clearing(true) else Unlocking(false))
    case (Clearing(locked), Advance) => Goto(if s.leaseLost then Cleared(locked) else ClearStore(locked))
    case (ClearStore(locked), Advance) => Some(Move(ClearRecheck(locked), StoreMaintenance(false)))
    case (ClearRecheck(locked), Advance) => Goto(if s.leaseLost then ClearUndo(locked) else Cleared(locked))
    case (ClearUndo(locked), Advance) => Some(Move(Cleared(locked), StoreMaintenance(true)))
    case (Unlocking(thenClear), Advance) => Some(Move(if thenClear then Clearing(false) else Replying, UnlockWriter))
    case (Replying, Advance) => Goto(Idle)
    case _ => None
  }

  function Cleared(locked: bool): Pc { if locked then Unlocking(false) else Replying }

  datatype Part = PStart | PWorker | PTask | PControl | PRestore | PFinish

  function PartOf(pc: Pc): Part {
    if pc.Idle? then PStart
    else if pc.Peeked? || pc.Entered? || pc.Admitting? || pc.Looked? || pc.Working? || pc.Leaving? then PWorker
    else if pc.ShutdownLocked? || pc.ShutdownStored? || pc.FailMarked? || pc.FailStored? || pc.FailLocked? then PControl
    else if pc.RestoreAsked? || pc.RestoreClaimed? || pc.RestoreReleased? || pc.RestoreLocked? || pc.RestoreSnapshot?
      || pc.RestoreDraining? || pc.RestoreDrained? || pc.RestoreExclusive? || pc.RestoreChecked? || pc.RestoreLeasing?
    then PRestore
    else if pc.Restoring? || pc.Finishing? || pc.Clearing? || pc.ClearStore? || pc.ClearRecheck? || pc.ClearUndo?
      || pc.Unlocking? || pc.Replying?
    then PFinish
    else PTask
  }

  // What a thread at pc does next.
  function Next(s: Server, pc: Pc, a: Action): Option<Move> {
    match PartOf(pc)
    case PStart => NextStart(s, a)
    case PWorker => NextWorker(s, pc, a)
    case PTask => NextTask(s, pc, a)
    case PControl => NextControl(pc, a)
    case PRestore => NextRestore(s, pc, a)
    case PFinish => NextFinish(s, pc, a)
  }

  // A lock is waited for; sync.RWMutex admits readers unless a writer holds it.
  predicate Enabled(s: Server, e: Effect) {
    match e
    case LockMutex => s.mutex.None?
    case AddReader => s.writer.None?
    case LockWriter => s.writer.None? && s.readers == {}
    case _ => true
  }

  function Affect(s: Server, t: Tid, e: Effect): Server {
    match e
    case Nothing => s
    case LockMutex => s.(mutex := Some(t))
    case UnlockMutex => s.(mutex := None)
    case AddReader => s.(readers := s.readers + {t})
    case DropReader => s.(readers := s.readers - {t})
    case LockWriter => s.(writer := Some(t))
    case UnlockWriter => s.(writer := None)
    case StoreMaintenance(on) => s.(maintenance := on)
    case StoreLeaseLost => s.(leaseLost := true)
    case StoreDraining => s.(draining := true)
    case Insert => s.(next := s.next + 1, tasks := s.tasks + {s.next + 1})
    case Remove(id) => s.(tasks := s.tasks - {id}, closed := s.closed + {id})
  }

  function Apply(s: Server, t: Tid, m: Move): Server {
    Affect(s, t, m.effect).(pcs := s.pcs[t := m.pc])
  }

  // One step of thread t; None when it cannot move that way now.
  function Step(s: Server, t: Tid, a: Action): Option<Server> {
    match Next(s, At(s, t), a)
    case None => None
    case Some(m) => if Enabled(s, m.effect) then Some(Apply(s, t, m)) else None
  }

  function Run(s: Server, steps: seq<(Tid, Action)>): Option<Server> {
    if steps == [] then Some(s)
    else
      match Run(s, steps[..|steps| - 1])
      case None => None
      case Some(before) => Step(before, steps[|steps| - 1].0, steps[|steps| - 1].1)
  }

  // ----- the invariant -----------------------------------------------------------

  predicate HoldsMutex(pc: Pc) {
    match pc
    case TaskLocked => true
    case TaskLooked => true
    case TaskLookedLease => true
    case TaskAdmitted => true
    case TaskRefused => true
    case TaskInserted(_) => true
    case TaskRemoving(_) => true
    case TaskRemoved => true
    case ShutdownLocked => true
    case ShutdownStored => true
    case FailLocked => true
    case RestoreLocked => true
    case RestoreSnapshot(_) => true
    case _ => false
  }

  predicate HoldsRead(pc: Pc) {
    match pc
    case Admitting(_) => true
    case Looked(_) => true
    case Working(_) => true
    case Leaving(_) => true
    case RestoreAsked => true
    case RestoreClaimed => true
    case _ => false
  }

  predicate HoldsWrite(pc: Pc) {
    match pc
    case RestoreExclusive => true
    case RestoreChecked => true
    case RestoreLeasing => true
    case Restoring => true
    case Finishing(_) => true
    case Unlocking(_) => true
    case Clearing(locked) => locked
    case ClearStore(locked) => locked
    case ClearRecheck(locked) => locked
    case ClearUndo(locked) => locked
    case _ => false
  }

  // Between the successful swap of the maintenance flag and the store that undoes it.
  predicate Owns(pc: Pc) {
    match pc
    case RestoreClaimed => true
    case RestoreReleased => true
    case RestoreLocked => true
    case RestoreSnapshot(_) => true
    case RestoreDraining(_) => true
    case RestoreDrained => true
    case RestoreExclusive => true
    case RestoreChecked => true
    case RestoreLeasing => true
    case Restoring => true
    case Finishing(_) => true
    case Clearing(_) => true
    case ClearStore(_) => true
    case Unlocking(thenClear) => thenClear
    case _ => false
  }

  // All registered tasks have returned, and none can have been added since.
  predicate Drained(pc: Pc) {
    match pc
    case RestoreDrained => true
    case RestoreExclusive => true
    case RestoreChecked => true
    case RestoreLeasing => true
    case Restoring => true
    case Finishing(_) => true
    case Clearing(locked) => locked
    case ClearStore(locked) => locked
    case _ => false
  }

  // Saw maintenance off under backgroundMu and has not inserted its task yet.
  predicate Registering(pc: Pc) {
    match pc
    case TaskLooked => true
    case TaskLookedLease => true
    case TaskAdmitted => true
    case _ => false
  }

  // A store of the maintenance flag is under way that will show a lost lease.
  predicate WillStore(pc: Pc) {
    match pc
    case FailMarked => true
    case ClearRecheck(_) => true
    case ClearUndo(_) => true
    case _ => false
  }

  // The registered task a thread runs, and the tasks a drain still waits for.
  function TaskOf(pc: Pc): Option<TaskId> {
    match pc
    case TaskInserted(id) => Some(id)
    case TaskWorking(id) => Some(id)
    case TaskReturned(id) => Some(id)
    case TaskRemoving(id) => Some(id)
    case _ => None
  }

  function AwaitedBy(pc: Pc): Option<set<TaskId>> {
    match pc
    case RestoreSnapshot(pending) => Some(pending)
    case RestoreDraining(pending) => Some(pending)
    case _ => None
  }

  predicate PastSnapshot(pc: Pc) { AwaitedBy(pc).Some? || Drained(pc) }

  ghost predicate MutexMatches(s: Server) {
    forall t {:trigger At(s, t)} :: s.mutex == Some(t) <==> HoldsMutex(At(s, t))
  }

  ghost predicate ActivityMatches(s: Server) {
    && (forall t {:trigger At(s, t)} :: t in s.readers <==> HoldsRead(At(s, t)))
    && (forall t {:trigger At(s, t)} :: s.writer == Some(t) <==> HoldsWrite(At(s, t)))
    && (s.writer.Some? ==> s.readers == {})
  }

  ghost predicate LocksMatch(s: Server) { MutexMatches(s) && ActivityMatches(s) }

  ghost predicate OneOwner(s: Server) {
    && (forall t :: Owns(At(s, t)) ==> s.maintenance)
    && (forall t, u :: Owns(At(s, t)) && Owns(At(s, u)) ==> t == u)
  }

  ghost predicate RegistryMatches(s: Server) {
    && (forall id :: id in s.tasks ==> id <= s.next)
    && (forall id :: id in s.closed ==> id <= s.next && id !in s.tasks)
    && (forall t :: TaskOf(At(s, t)).Some? ==> TaskOf(At(s, t)).value in s.tasks)
    && (forall t, u :: TaskOf(At(s, t)).Some? && TaskOf(At(s, t)) == TaskOf(At(s, u)) ==> t == u)
  }

  ghost predicate DrainHolds(s: Server) {
    && (forall t :: AwaitedBy(At(s, t)).Some? ==> s.tasks <= AwaitedBy(At(s, t)).value)
    && (forall t :: Drained(At(s, t)) ==> s.tasks == {})
    && (forall t, u :: PastSnapshot(At(s, t)) ==> !Registering(At(s, u)))
  }

  // Once the lease is lost only a store that is already under way can still show
  // the maintenance flag off.
  ghost predicate LossIsSeen(s: Server) {
    s.leaseLost && !s.maintenance ==> exists t :: WillStore(At(s, t))
  }

  ghost predicate Inv(s: Server) {
    LocksMatch(s) && OneOwner(s) && RegistryMatches(s) && DrainHolds(s) && LossIsSeen(s)
  }

  // ----- legal moves ---------------------------------------------------------------
  // What a thread at p may do by move m, in terms of the classes of program
  // counters. Every step is legal, and legal moves keep the invariant; only the
  // first half looks at single program counters.


  predicate LegalMutex(p: Pc, m: Move) {
    match m.effect
    case LockMutex => HoldsMutex(m.pc)
    case UnlockMutex => HoldsMutex(p) && !HoldsMutex(m.pc)
    case _ => HoldsMutex(m.pc) == HoldsMutex(p)
  }

  predicate LegalRead(p: Pc, m: Move) {
    match m.effect
    case AddReader => HoldsRead(m.pc)
    case DropReader => !HoldsRead(m.pc)
    case _ => HoldsRead(m.pc) == HoldsRead(p)
  }

  predicate LegalWrite(p: Pc, m: Move) {
    match m.effect
    case LockWriter => HoldsWrite(m.pc)
    case UnlockWriter => HoldsWrite(p) && !HoldsWrite(m.pc)
    case _ => HoldsWrite(m.pc) == HoldsWrite(p)
  }

  predicate LegalLocks(p: Pc, m: Move) { LegalMutex(p, m) && LegalRead(p, m) && LegalWrite(p, m) }

  predicate LegalOwner(s: Server, p: Pc, m: Move) {
    && (m.effect == StoreMaintenance(false) ==> Owns(p) && !Owns(m.pc))
    && (Owns(m.pc) && !Owns(p) ==> !s.maintenance && m.effect == StoreMaintenance(true))
  }

  predicate LegalTask(s: Server, p: Pc, m: Move) {
    match m.effect
    case Insert => TaskOf(p).None? && TaskOf(m.pc) == Some(s.next + 1) && Registering(p)
    case Remove(id) => TaskOf(p) == Some(id) && TaskOf(m.pc).None?
    case _ => TaskOf(m.pc).Some? ==> TaskOf(m.pc) == TaskOf(p)
  }

  predicate LegalDrain(s: Server, p: Pc, m: Move) {
    && (AwaitedBy(m.pc).Some? ==>
          || AwaitedBy(m.pc).value == s.tasks
          || (AwaitedBy(p).Some? && forall id :: id in AwaitedBy(p).value && id !in AwaitedBy(m.pc).value ==> id in s.closed))
    && (Drained(m.pc) ==> Drained(p) || AwaitedBy(p) == Some({}))
    && (Registering(m.pc) && !Registering(p) ==> !s.maintenance)
    && (PastSnapshot(m.pc) ==> !Registering(m.pc) && m.effect != Insert && !m.effect.Remove?)
    && (PastSnapshot(m.pc) && !PastSnapshot(p) ==> HoldsMutex(p))
  }

  predicate LegalLoss(s: Server, p: Pc, m: Move) {
    && (m.effect == StoreLeaseLost ==> WillStore(m.pc))
    && (m.effect == StoreMaintenance(false) ==> WillStore(m.pc))
    && (WillStore(p) && !WillStore(m.pc) ==> m.effect == StoreMaintenance(true) || !s.leaseLost)
  }

  ghost predicate Legal(s: Server, p: Pc, m: Move) {
    LegalLocks(p, m) && LegalOwner(s, p, m) && LegalTask(s, p, m) && LegalDrain(s, p, m) && LegalLoss(s, p, m)
  }

  lemma StepIsLegal(s: Server, p: Pc, a: Action)
    requires Next(s, p, a).Some?
    ensures Legal(s, p, Next(s, p, a).value)
  {
    hide LegalLocks, LegalOwner, LegalTask, LegalDrain, LegalLoss,
         NextStart, NextWorker, NextTask, NextControl, NextRestore, NextFinish;
    var m := Next(s, p, a).value;
    match PartOf(p) {
      case PStart => StartLocks(s, p, a, m); StartRest(s, p, a, m);
      case PWorker => WorkerLocks(s, p, a, m); WorkerRest(s, p, a, m);
      case PTask => TaskLocks(s, p, a, m); TaskRest(s, p, a, m);
      case PControl => ControlLocks(s, p, a, m); ControlRest(s, p, a, m);
      case PRestore => RestoreLocks(s, p, a, m); RestoreRest(s, p, a, m);
      case PFinish => FinishLocks(s, p, a, m); FinishRest(s, p, a, m);
    }
  }

  lemma StartLocks(s: Server, p: Pc, a: Action, m: Move)
    requires PartOf(p) == PStart && NextStart(s, a) == Some(m)
    ensures LegalLocks(p, m)
  {
  }

  lemma StartRest(s: Server, p: Pc, a: Action, m: Move)
    requires PartOf(p) == PStart && NextStart(s, a) == Some(m)
    ensures LegalOwner(s, p, m) && LegalTask(s, p, m) && LegalDrain(s, p, m) && LegalLoss(s, p, m)
  {
  }

  lemma WorkerLocks(s: Server, p: Pc, a: Action, m: Move)
    requires PartOf(p) == PWorker && NextWorker(s, p, a) == Some(m)
    ensures LegalLocks(p, m)
  {
  }

  lemma WorkerRest(s: Server, p: Pc, a: Action, m: Move)
    requires PartOf(p) == PWorker && NextWorker(s, p, a) == Some(m)
    ensures LegalOwner(s, p, m) && LegalTask(s, p, m) && LegalDrain(s, p, m) && LegalLoss(s, p, m)
  {
  }

  lemma TaskLocks(s: Server, p: Pc, a: Action, m: Move)
    requires PartOf(p) == PTask && NextTask(s, p, a) == Some(m)
    ensures LegalLocks(p, m)
  {
  }

  lemma TaskRest(s: Server, p: Pc, a: Action, m: Move)
    requires PartOf(p) == PTask && NextTask(s, p, a) == Some(m)
    ensures LegalOwner(s, p, m) && LegalTask(s, p, m) && LegalDrain(s, p, m) && LegalLoss(s, p, m)
  {
  }

  lemma ControlLocks(s: Server, p: Pc, a: Action, m: Move)
    requires PartOf(p) == PControl && NextControl(p, a) == Some(m)
    ensures LegalLocks(p, m)
  {
  }

  lemma ControlRest(s: Server, p: Pc, a: Action, m: Move)
    requires PartOf(p) == PControl && NextControl(p, a) == Some(m)
    ensures LegalOwner(s, p, m) && LegalTask(s, p, m) && LegalDrain(s, p, m) && LegalLoss(s, p, m)
  {
  }

  lemma RestoreLocks(s: Server, p: Pc, a: Action, m: Move)
    requires PartOf(p) == PRestore && NextRestore(s, p, a) == Some(m)
    ensures LegalLocks(p, m)
  {
    hide LegalMutex, LegalRead, LegalWrite, NextRestore;
    RestoreMutex(s, p, a, m);
    RestoreActivity(s, p, a, m);
  }

  lemma RestoreMutex(s: Server, p: Pc, a: Action, m: Move)
    requires PartOf(p) == PRestore && NextRestore(s, p, a) == Some(m)
    ensures LegalMutex(p, m)
  {
  }

  lemma RestoreActivity(s: Server, p: Pc, a: Action, m: Move)
    requires PartOf(p) == PRestore && NextRestore(s, p, a) == Some(m)
    ensures LegalRead(p, m) && LegalWrite(p, m)
  {
    hide LegalRead, LegalWrite, NextRestore;
    RestoreReads(s, p, a, m);
    RestoreWrites(s, p, a, m);
  }

  lemma RestoreReads(s: Server, p: Pc, a: Action, m: Move)
    requires PartOf(p) == PRestore && NextRestore(s, p, a) == Some(m)
    ensures LegalRead(p, m)
  {
  }

  lemma RestoreWrites(s: Server, p: Pc, a: Action, m: Move)
    requires PartOf(p) == PRestore && NextRestore(s, p, a) == Some(m)
    ensures LegalWrite(p, m)
  {
    hide LegalWrite;
    WriteByEffect(p, m);
    RestoreEffects(s, p, a, m);
  }

  // The effect of each step of a restore, and whether it holds the lock around it.
  lemma RestoreEffects(s: Server, p: Pc, a: Action, m: Move)
    requires PartOf(p) == PRestore && NextRestore(s, p, a) == Some(m)
    ensures m.effect == LockWriter ==> HoldsWrite(m.pc)
    ensures m.effect != UnlockWriter
    ensures m.effect != LockWriter ==> HoldsWrite(m.pc) == HoldsWrite(p)
  {
  }

  lemma WriteByEffect(p: Pc, m: Move)
    requires m.effect == LockWriter ==> HoldsWrite(m.pc)
    requires m.effect != UnlockWriter && (m.effect != LockWriter ==> HoldsWrite(m.pc) == HoldsWrite(p))
    ensures LegalWrite(p, m)
  {
  }

  lemma RestoreRest(s: Server, p: Pc, a: Action, m: Move)
    requires PartOf(p) == PRestore && NextRestore(s, p, a) == Some(m)
    ensures LegalOwner(s, p, m) && LegalTask(s, p, m) && LegalDrain(s, p, m) && LegalLoss(s, p, m)
  {
    hide LegalOwner, LegalTask, LegalDrain, LegalLoss, NextRestore;
    RestoreFlags(s, p, a, m);
    RestoreDrain(s, p, a, m);
  }

  lemma RestoreFlags(s: Server, p: Pc, a: Action, m: Move)
    requires PartOf(p) == PRestore && NextRestore(s, p, a) == Some(m)
    ensures LegalOwner(s, p, m) && LegalLoss(s, p, m)
  {
  }

  lemma RestoreDrain(s: Server, p: Pc, a: Action, m: Move)
    requires PartOf(p) == PRestore && NextRestore(s, p, a) == Some(m)
    ensures LegalTask(s, p, m) && LegalDrain(s, p, m)
  {
  }

  lemma FinishLocks(s: Server, p: Pc, a: Action, m: Move)
    requires PartOf(p) == PFinish && NextFinish(s, p, a) == Some(m)
    ensures LegalLocks(p, m)
  {
    hide NextFinish, LegalMutex, LegalRead, LegalWrite, PartOf;
    FinishMutex(s, p, a, m);
    FinishReads(s, p, a, m);
    FinishWrites(s, p, a, m);
  }

  lemma FinishMutex(s: Server, p: Pc, a: Action, m: Move)
    requires PartOf(p) == PFinish && NextFinish(s, p, a) == Some(m)
    ensures LegalMutex(p, m)
  {}

  lemma FinishReads(s: Server, p: Pc, a: Action, m: Move)
    requires PartOf(p) == PFinish && NextFinish(s, p, a) == Some(m)
    ensures LegalRead(p, m)
  {}

  lemma FinishWrites(s: Server, p: Pc, a: Action, m: Move)
    requires PartOf(p) == PFinish && NextFinish(s, p, a) == Some(m)
    ensures LegalWrite(p, m)
  {}

  lemma FinishRest(s: Server, p: Pc, a: Action, m: Move)
    requires PartOf(p) == PFinish && NextFinish(s, p, a) == Some(m)
    ensures LegalOwner(s, p, m) && LegalTask(s, p, m) && LegalDrain(s, p, m) && LegalLoss(s, p, m)
  {
  }

  lemma AtOthers(s: Server, t: Tid, m: Move)
    ensures forall u {:trigger At(Apply(s, t, m), u)} {:trigger At(s, u)} ::
              At(Apply(s, t, m), u) == if u == t then m.pc else At(s, u)
  {
  }

  lemma MoveKeepsMutex(s: Server, t: Tid, m: Move)
    requires MutexMatches(s) && Enabled(s, m.effect) && LegalMutex(At(s, t), m)
    ensures MutexMatches(Apply(s, t, m))
  {
    hide HoldsMutex, At;
    AtOthers(s, t, m);
  }

  lemma MoveKeepsActivity(s: Server, t: Tid, m: Move)
    requires ActivityMatches(s) && Enabled(s, m.effect) && LegalRead(At(s, t), m) && LegalWrite(At(s, t), m)
    ensures ActivityMatches(Apply(s, t, m))
  {
    hide HoldsRead, HoldsWrite, At;
    AtOthers(s, t, m);
  }

  lemma MoveKeepsOwner(s: Server, t: Tid, m: Move)
    requires OneOwner(s) && LegalOwner(s, At(s, t), m)
    ensures OneOwner(Apply(s, t, m))
  {
    hide Owns, At;
    AtOthers(s, t, m);
  }

  lemma MoveKeepsRegistry(s: Server, t: Tid, m: Move)
    requires RegistryMatches(s) && LegalTask(s, At(s, t), m)
    ensures RegistryMatches(Apply(s, t, m))
  {
    hide TaskOf, Registering, At;
    AtOthers(s, t, m);
  }

  lemma Classes(pc: Pc)
    ensures Registering(pc) ==> HoldsMutex(pc)
    ensures PastSnapshot(pc) ==> Owns(pc)
  {
  }

  lemma MoveKeepsDrain(s: Server, t: Tid, m: Move)
    requires DrainHolds(s) && OneOwner(s) && RegistryMatches(s) && LocksMatch(s)
    requires LegalDrain(s, At(s, t), m) && LegalTask(s, At(s, t), m)
    ensures DrainHolds(Apply(s, t, m))
  {
    hide Registering, Owns, HoldsMutex, AwaitedBy, Drained, At, HoldsRead, HoldsWrite, TaskOf;
    AtOthers(s, t, m);
    forall u ensures Registering(At(s, u)) ==> HoldsMutex(At(s, u)) { Classes(At(s, u)); }
    forall u ensures PastSnapshot(At(s, u)) ==> Owns(At(s, u)) { Classes(At(s, u)); }
    var r := Apply(s, t, m);
    forall u | AwaitedBy(At(r, u)).Some? ensures r.tasks <= AwaitedBy(At(r, u)).value {
      assert PastSnapshot(At(r, u));
      if u == t {
        assert m.effect != Insert && !m.effect.Remove?;
        forall id | id in r.tasks ensures id in AwaitedBy(m.pc).value {
          assert id in s.tasks && id !in s.closed;
        }
      } else {
        assert PastSnapshot(At(s, u));
        assert m.effect != Insert;
        assert r.tasks <= s.tasks;
      }
    }
  }

  lemma MoveKeepsLoss(s: Server, t: Tid, m: Move)
    requires LossIsSeen(s) && LegalLoss(s, At(s, t), m)
    ensures LossIsSeen(Apply(s, t, m))
  {
    hide WillStore, At;
    AtOthers(s, t, m);
    var r := Apply(s, t, m);
    if r.leaseLost && !r.maintenance {
      if WillStore(m.pc) {
        assert WillStore(At(r, t));
      } else {
        var u :| WillStore(At(s, u));
        assert WillStore(At(r, u));
      }
    }
  }

  lemma StepKeepsInv(s: Server, t: Tid, a: Action)
    requires Inv(s) && Step(s, t, a).Some?
    ensures Inv(Step(s, t, a).value)
  {
    hide MutexMatches, ActivityMatches, OneOwner, RegistryMatches, DrainHolds, LossIsSeen, Next, At,
         LegalMutex, LegalRead, LegalWrite, LegalOwner, LegalTask, LegalDrain, LegalLoss;
    var m := Next(s, At(s, t), a).value;
    StepIsLegal(s, At(s, t), a);
    MoveKeepsMutex(s, t, m);
    MoveKeepsActivity(s, t, m);
    MoveKeepsOwner(s, t, m);
    MoveKeepsRegistry(s, t, m);
    MoveKeepsDrain(s, t, m);
    MoveKeepsLoss(s, t, m);
  }

  lemma BootInv()
    ensures Inv(Boot)
  {
  }

  lemma {:induction false} RunKeepsInv(steps: seq<(Tid, Action)>)
    requires Run(Boot, steps).Some?
    ensures Inv(Run(Boot, steps).value)
  {
    hide Inv, Step;
    if steps == [] {
      BootInv();
    } else {
      var last := |steps| - 1;
      RunKeepsInv(steps[..last]);
      StepKeepsInv(Run(Boot, steps[..last]).value, steps[last].0, steps[last].1);
    }
  }

  // Only a granted lease leads into the restore, held by a thread that has drained the
  // registry and has the activity lock for itself.
  lemma RestoringEntry(steps: seq<(Tid, Action)>, t: Tid, a: Action)
    requires Run(Boot, steps).Some? && Step(Run(Boot, steps).value, t, a).Some?
    requires At(Step(Run(Boot, steps).value, t, a).value, t).Restoring?
    ensures var s := Run(Boot, steps).value;
      && At(s, t).RestoreLeasing? && a.Advance?
      && s.writer == Some(t) && s.readers == {} && s.tasks == {} && Quiet(s, t)
  {
    hide Next, Affect, Quiet;
    var s := Run(Boot, steps).value;
    RunKeepsInv(steps);
    RestoringFrom(s, At(s, t), a);
    InvShields(s, t);
    assert HoldsWrite(At(s, t)) && Drained(At(s, t));
  }

  lemma RestoringFrom(s: Server, p: Pc, a: Action)
    requires Next(s, p, a).Some? && Next(s, p, a).value.pc.Restoring?
    ensures p.RestoreLeasing? && a.Advance?
  {
    hide NextStart, NextWorker, NextTask, NextControl, NextRestore, NextFinish;
    match PartOf(p) {
      case PStart => StartEntry(s, p, a);
      case PWorker => WorkerEntry(s, p, a);
      case PTask => TaskEntry(s, p, a);
      case PControl => ControlEntry(s, p, a);
      case PRestore => RestoreEntry(s, p, a);
      case PFinish => FinishEntry(s, p, a);
    }
  }

  lemma StartEntry(s: Server, p: Pc, a: Action)
    requires NextStart(s, a).Some?
    ensures !NextStart(s, a).value.pc.Restoring?
  {
  }

  lemma WorkerEntry(s: Server, p: Pc, a: Action)
    requires NextWorker(s, p, a).Some?
    ensures !NextWorker(s, p, a).value.pc.Restoring?
  {
  }

  lemma TaskEntry(s: Server, p: Pc, a: Action)
    requires NextTask(s, p, a).Some?
    ensures !NextTask(s, p, a).value.pc.Restoring?
  {
  }

  lemma ControlEntry(s: Server, p: Pc, a: Action)
    requires NextControl(p, a).Some?
    ensures !NextControl(p, a).value.pc.Restoring?
  {
  }

  lemma RestoreEntry(s: Server, p: Pc, a: Action)
    requires NextRestore(s, p, a).Some? && NextRestore(s, p, a).value.pc.Restoring?
    ensures p.RestoreLeasing? && a.Advance?
  {
  }

  lemma FinishEntry(s: Server, p: Pc, a: Action)
    requires NextFinish(s, p, a).Some?
    ensures !NextFinish(s, p, a).value.pc.Restoring?
  {
  }

  // ----- what a restore can rely on ---------------------------------------------------

  // Exclusive and drained: from the successful TryLock until the callback has
  // reopened traffic or given up doing so.
  predicate Shielded(pc: Pc) { HoldsWrite(pc) && Drained(pc) }

  ghost predicate Quiet(s: Server, t: Tid) {
    && s.tasks == {}
    && (forall u :: TaskOf(At(s, u)).None? && !At(s, u).Working?)
    && (forall u :: Shielded(At(s, u)) ==> u == t)
    && s.maintenance
  }

  lemma InvShields(s: Server, t: Tid)
    requires Inv(s) && Shielded(At(s, t))
    ensures Quiet(s, t)
  {
    forall u ensures TaskOf(At(s, u)).None? && !At(s, u).Working? && (Shielded(At(s, u)) ==> u == t) {
      assert HoldsWrite(At(s, t)) && !HoldsRead(At(s, u));
    }
    assert Owns(At(s, t));
  }

  // In every interleaving, between the return of beginRestore's callback and its
  // call no registered task, Background body or request is running, no second
  // restore is under way, and the process shows maintenance.
  lemma RestoreRunsAlone(steps: seq<(Tid, Action)>, t: Tid)
    requires Run(Boot, steps).Some? && At(Run(Boot, steps).value, t).Restoring?
    ensures Quiet(Run(Boot, steps).value, t)
  {
    RunKeepsInv(steps);
    InvShields(Run(Boot, steps).value, t);
  }

  // A lost lease is never forgotten, and it shows in the maintenance flag unless a
  // store that brings it back (or first sets it) is still to come.
  lemma LossIsPermanent(steps: seq<(Tid, Action)>, more: seq<(Tid, Action)>)
    requires Run(Boot, steps).Some? && Run(Boot, steps).value.leaseLost && Run(Boot, steps + more).Some?
    ensures Run(Boot, steps + more).value.leaseLost
    ensures var s := Run(Boot, steps + more).value;
            s.maintenance || exists t :: At(s, t).FailMarked? || At(s, t).ClearRecheck? || At(s, t).ClearUndo?
  {
    LossLasts(steps, more);
    RunKeepsInv(steps + more);
    var s := Run(Boot, steps + more).value;
    if !s.maintenance {
      var t :| WillStore(At(s, t));
      assert At(s, t).FailMarked? || At(s, t).ClearRecheck? || At(s, t).ClearUndo?;
    }
  }

  lemma {:induction false} LossLasts(steps: seq<(Tid, Action)>, more: seq<(Tid, Action)>)
    requires Run(Boot, steps).Some? && Run(Boot, steps).value.leaseLost && Run(Boot, steps + more).Some?
    ensures Run(Boot, steps + more).value.leaseLost
  {
    hide Step;
    if more == [] {
      assert steps + more == steps;
    } else {
      var last := |more| - 1;
      var all := steps + more;
      assert all[..|all| - 1] == steps + more[..last] && all[|all| - 1] == more[last];
      LossLasts(steps, more[..last]);
      StepKeepsLoss(Run(Boot, steps + more[..last]).value, more[last].0, more[last].1);
    }
  }

  lemma StepKeepsLoss(s: Server, t: Tid, a: Action)
    requires s.leaseLost && Step(s, t, a).Some?
    ensures Step(s, t, a).value.leaseLost
  {
    hide Next;
  }

  // The protocol is not vacuous: a lone request gets through to the restore.
  lemma RestoreIsReachable()
    ensures exists steps: seq<(Tid, Action)> :: Run(Boot, steps).Some? && At(Run(Boot, steps).value, 0).Restoring?
  {
    hide Run, Lone, At;
    var steps := BootIsLone();
    var pc := Idle;
    while pc != Restoring
      invariant Lone(Run(Boot, steps), pc) && Stage(pc) <= 16
      decreases 16 - Stage(pc)
    {
      steps := LoneStep(steps, pc);
      pc := Onward(pc).1;
    }
    LoneAt(Run(Boot, steps), Restoring);
  }

  // The undisturbed way of a request into a restore.
  function Onward(pc: Pc): (Action, Pc) {
    match pc
    case Idle => (StartWorker(Request), Peeked(Request))
    case Peeked(_) => (Advance, Entered(Request))
    case Entered(_) => (Advance, Admitting(Request))
    case Admitting(_) => (Advance, Looked(Request))
    case Looked(_) => (Advance, Working(Request))
    case Working(_) => (AskRestore, RestoreAsked)
    case RestoreAsked => (Advance, RestoreClaimed)
    case RestoreClaimed => (Advance, RestoreReleased)
    case RestoreReleased => (Advance, RestoreLocked)
    case RestoreLocked => (Advance, RestoreSnapshot({}))
    case RestoreSnapshot(_) => (Advance, RestoreDraining({}))
    case RestoreDraining(_) => (Advance, RestoreDrained)
    case RestoreDrained => (Advance, RestoreExclusive)
    case RestoreExclusive => (Advance, RestoreChecked)
    case RestoreChecked => (Advance, RestoreLeasing)
    case _ => (Advance, Restoring)
  }

  function Stage(pc: Pc): nat {
    match pc
    case Idle => 0
    case Peeked(_) => 1
    case Entered(_) => 2
    case Admitting(_) => 3
    case Looked(_) => 4
    case Working(_) => 5
    case RestoreAsked => 6
    case RestoreClaimed => 7
    case RestoreReleased => 8
    case RestoreLocked => 9
    case RestoreSnapshot(_) => 10
    case RestoreDraining(_) => 11
    case RestoreDrained => 12
    case RestoreExclusive => 13
    case RestoreChecked => 14
    case RestoreLeasing => 15
    case Restoring => 16
    case _ => 17
  }

  predicate OnWay(pc: Pc) {
    match pc
    case Peeked(w) => w == Request
    case Entered(w) => w == Request
    case Admitting(w) => w == Request
    case Looked(w) => w == Request
    case Working(w) => w == Request
    case RestoreSnapshot(pending) => pending == {}
    case RestoreDraining(pending) => pending == {}
    case _ => Stage(pc) <= 16
  }

  // Thread 0 is at pc and nothing else has ever run.
  ghost predicate Lone(s: Option<Server>, pc: Pc) {
    && s.Some? && OnWay(pc) && At(s.value, 0) == pc && s.value.tasks == {} && !s.value.leaseLost
    && s.value.maintenance == (Stage(pc) >= 7)
    && s.value.mutex.Some? == (Stage(pc) in {9, 10})
    && s.value.readers == (if 3 <= Stage(pc) <= 7 then {0} else {})
    && s.value.writer.Some? == (Stage(pc) >= 13)
  }

  lemma BootIsLone() returns (steps: seq<(Tid, Action)>)
    ensures Lone(Run(Boot, steps), Idle)
  {
    steps := [];
  }

  lemma LoneAt(s: Option<Server>, pc: Pc)
    requires Lone(s, pc)
    ensures s.Some? && At(s.value, 0) == pc
  {
  }

  lemma LoneStep(steps: seq<(Tid, Action)>, pc: Pc) returns (more: seq<(Tid, Action)>)
    requires Lone(Run(Boot, steps), pc) && pc != Restoring
    ensures Lone(Run(Boot, more), Onward(pc).1) && Stage(Onward(pc).1) == Stage(pc) + 1
  {
    hide Step, Lone, Onward, Stage;
    LoneAt(Run(Boot, steps), pc);
    LoneNext(Run(Boot, steps).value, pc);
    more := steps + [(0, Onward(pc).0)];
    assert more[..|more| - 1] == steps;
  }

  function OnwardEffect(pc: Pc): Effect {
    match pc
    case Entered(_) => AddReader
    case RestoreAsked => StoreMaintenance(true)
    case RestoreClaimed => DropReader
    case RestoreReleased => LockMutex
    case RestoreSnapshot(_) => UnlockMutex
    case RestoreDrained => LockWriter
    case _ => Nothing
  }

  lemma LoneNext(s: Server, pc: Pc)
    requires Lone(Some(s), pc) && pc != Restoring
    ensures Lone(Step(s, 0, Onward(pc).0), Onward(pc).1) && Stage(Onward(pc).1) == Stage(pc) + 1
  {
    hide NextStart, NextWorker, NextRestore, NextTask, NextControl, NextFinish, Onward, OnwardEffect, Stage, PartOf;
    StageUp(pc);
    NextOnward(s, pc);
    EffectOnward(s, pc);
  }

  lemma StageUp(pc: Pc)
    requires OnWay(pc) && pc != Restoring
    ensures Stage(Onward(pc).1) == Stage(pc) + 1 <= 16 && OnWay(Onward(pc).1)
  {
    hide Stage, Onward, OnWay, PartOf;
    if PartOf(pc) == PRestore {
      RestoreStageUp(pc);
    } else {
      RequestStageUp(pc);
    }
  }

  lemma RequestStageUp(pc: Pc)
    requires OnWay(pc) && pc != Restoring && PartOf(pc) != PRestore
    ensures Stage(Onward(pc).1) == Stage(pc) + 1 <= 16 && OnWay(Onward(pc).1)
  {}

  lemma RestoreStageUp(pc: Pc)
    requires OnWay(pc) && PartOf(pc) == PRestore
    ensures Stage(Onward(pc).1) == Stage(pc) + 1 <= 16 && OnWay(Onward(pc).1)
  {}

  lemma NextOnward(s: Server, pc: Pc)
    requires OnWay(pc) && pc != Restoring && s.tasks == {} && !s.leaseLost && s.maintenance == (Stage(pc) >= 7)
    ensures Next(s, pc, Onward(pc).0) == Some(Move(Onward(pc).1, OnwardEffect(pc)))
  {
    hide NextTask, NextControl, NextFinish;
  }

  lemma EffectOnward(s: Server, pc: Pc)
    requires Lone(Some(s), pc) && pc != Restoring && Stage(Onward(pc).1) == Stage(pc) + 1 && OnWay(Onward(pc).1)
    ensures Enabled(s, OnwardEffect(pc)) && Lone(Some(Apply(s, 0, Move(Onward(pc).1, OnwardEffect(pc)))), Onward(pc).1)
  {
    hide Next, Onward;
    assert {0} - {0} == {} && {} + {0} == {0};
  }
}
