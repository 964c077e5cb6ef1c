/** Every interleaving of gated readers, database outcomes, writers and shutdown.

    Each block that runs under one lock, and each database call, is one atomic step of one thread.
    Threads are identified by numbers, leases by their position in `leases` (they are never
    reused).  What the environment decides (timeouts, database answers, the outcome of
    `materialize`) is the `Choice` of a step. */
module GateProtocol {
  import opened Wrappers
  import opened ReaderGateSpec

  type Tid = nat

  /** Where a thread stands in `gated_read`.  From `Connecting` to `FailLeaving` it is the creator
      of a lease; `Waiting` is the joiner; `Materializing` is inside the caller's callback. */
  datatype Pc =
    | Idle
    | Admitted
    | Entered
    | Connecting(lid: nat)
    | LockingAdmission(lid: nat)
    | LockingGate(lid: nat)
    | UnlockingAdmission(lid: nat, raised: Option<Failure>)
    | Aborting(lid: nat, failure: Failure)
    | AbortClosing(lid: nat, failure: Failure)
    | Revalidating(lid: nat)
    | Activating(lid: nat)
    | Failing(lid: nat, failure: Failure)
    | FailUnregistering(lid: nat, failure: Failure)
    | FailReleasing(lid: nat, failure: Failure)
    | FailClosing(lid: nat, failure: Failure)
    | FailLeaving(lid: nat, failure: Failure)
    | Waiting(lid: nat)
    | Materializing(lid: nat)
    | ExitingLease(lid: nat, outcome: Option<Failure>)
    | Unregistering(lid: nat, outcome: Option<Failure>)
    | Unlocking(lid: nat, outcome: Option<Failure>)
    | ReturningConn(lid: nat, outcome: Option<Failure>)
    | Leaving(outcome: Option<Failure>)
    | Releasing(outcome: Option<Failure>)

  datatype Thread = Thread(pc: Pc, key: Key)

  datatype State = State(
    limit: nat,
    permits: int,
    life: Lifecycle,
    drained: bool,
    registry: map<Key, nat>,
    idle: multiset<Conn>,
    exclusive: set<LockId>,
    leases: seq<Lease>,
    threads: map<Tid, Thread>)

  datatype Choice =
    | Proceed
    | Raise(failure: Failure)
    | Checkout(conn: Conn)
    | LockCall(lock: LockOutcome)
    | UnlockCall(unlock: UnlockOutcome)
    | Row(row: Option<RunRow>)
    | Deadline

  datatype Action =
    | Call(t: Tid, key: Key)
    | Enter(t: Tid)
    | AcquireOrJoin(t: Tid, withinLifetime: bool)
    | RejectPath(t: Tid)
    | LeaseStep(t: Tid, choice: Choice)
    | Exit(t: Tid)
    | Release(t: Tid)
    | TakeExclusive(lock: LockId)
    | DropExclusive(lock: LockId)
    | BeginShutdown
    | WaitDrainedReturns

  /** What one lease step does to its thread, its lease and the shared tables. */
  datatype Effect = Effect(pc: Pc, lease: Lease, idle: multiset<Conn>, registry: map<Key, nat>)

  predicate HasLease(pc: Pc) {
    !(pc.Idle? || pc.Admitted? || pc.Entered? || pc.Leaving? || pc.Releasing?)
  }

  // ---------------------------------------------------------------- one lease step

  /** `_close_conn`: the connection goes back to the pool with whatever it still holds. */
  function Returned(idle: multiset<Conn>, s: Session): multiset<Conn> {
    if s.conn.None? then idle else idle + multiset{s.conn.value}
  }

  function UnlockGate(s: Session, o: UnlockOutcome): Session {
    if s.gateHeld then AfterUnlock(s, Gate(s.store), o).(gateHeld := false) else s
  }

  /** First half of `release`: unlock the gate if it is held. */
  function StartRelease(l: Lease, o: UnlockOutcome): Lease {
    l.(session := UnlockGate(l.session, o), released := l.released + 1)
  }

  /** Second half of `release`: close the connection if it is still there. */
  function FinishRelease(l: Lease): Lease {
    l.(session := l.session.(conn := None), driver := None)
  }

  /** `if _leases.get(key) is lease: _leases.pop(key)` */
  function Unregister(registry: map<Key, nat>, key: Key, lid: nat): map<Key, nat> {
    if key in registry && registry[key] == lid then registry - {key} else registry
  }

  /** `_ReaderGateSession.acquire` followed by `revalidate` and the switch to ACTIVE. */
  function SetupStep(pc: Pc, l: Lease, s: State, c: Choice): Option<Effect>
    requires Setup(pc)
  {
    var lid, session := pc.lid, l.session;
    var admission, gate := Admission(session.store), Gate(session.store);
    match pc
    case Connecting(_) =>
      // The deadline passed before checkout, or the pool had no connection to give.
      if c.Raise? then Some(Effect(Failing(lid, c.failure), l, s.idle, s.registry))
      // A pooled connection, or a new one.
      else if c.Checkout? && (c.conn in s.idle || c.conn == Conn(multiset{})) then
        Some(Effect(LockingAdmission(lid), l.(session := session.(conn := Some(c.conn))),
                    s.idle - multiset{c.conn}, s.registry))
      else None
    case LockingAdmission(_) =>
      if !c.LockCall? || session.conn.None? || (c.lock.Granted? && admission in s.exclusive) then None
      else
        Some(Effect(if c.lock.Granted? then LockingGate(lid) else Aborting(lid, LockFailure(c.lock)),
                    l.(session := AfterLock(session, admission, c.lock)), s.idle, s.registry))
    case LockingGate(_) =>
      if !c.LockCall? || session.conn.None? || (c.lock.Granted? && gate in s.exclusive) then None
      else
        Some(Effect(UnlockingAdmission(lid, if c.lock.Granted? then None else Some(LockFailure(c.lock))),
                    l.(session := AfterLock(session, gate, c.lock).(gateHeld := c.lock.Granted?)),
                    s.idle, s.registry))
    case UnlockingAdmission(_, raised) =>
      if !c.UnlockCall? || !UnlockPossible(session, admission, c.unlock) then None
      else
        Some(Effect(if raised.None? then Revalidating(lid) else Aborting(lid, raised.value),
                    l.(session := AfterUnlock(session, admission, c.unlock)), s.idle, s.registry))
    case Aborting(_, f) =>
      if !session.gateHeld then
        if c.Proceed? then Some(Effect(AbortClosing(lid, f), l, s.idle, s.registry)) else None
      else if !c.UnlockCall? || !UnlockPossible(session, gate, c.unlock) then None
      else Some(Effect(AbortClosing(lid, f), l.(session := UnlockGate(session, c.unlock)), s.idle, s.registry))
    case AbortClosing(_, f) =>
      if !c.Proceed? then None
      else Some(Effect(Failing(lid, f), l.(session := session.(conn := None)), Returned(s.idle, session), s.registry))
    case Revalidating(_) =>
      // `assert self._conn is not None` fails when the admission unlock dropped the connection.
      if c.Raise? || (c.Row? && session.conn.None?) then Some(Effect(Failing(lid, OtherError), l, s.idle, s.registry))
      else if !c.Row? then None
      else
        Some(Effect(if Readable(c.row, session.store) then Activating(lid) else Failing(lid, NotReady),
                    l.(row := c.row), s.idle, s.registry))
    case Activating(_) =>
      if c.Proceed? then Some(Effect(Materializing(lid), Activate(l), s.idle, s.registry)) else None
  }

  /** The creator's exception handler. */
  function FailStep(pc: Pc, l: Lease, s: State, c: Choice): Option<Effect>
    requires Failed(pc)
  {
    var lid, f, session := pc.lid, pc.failure, l.session;
    if pc.FailReleasing? then
      if !c.UnlockCall? || !UnlockPossible(session, Gate(session.store), c.unlock) then None
      else Some(Effect(FailClosing(lid, f), StartRelease(l, c.unlock), s.idle, s.registry))
    else if !c.Proceed? then None
    else match pc
      case Failing(_, _) => Some(Effect(FailUnregistering(lid, f), Fail(l, f), s.idle, s.registry))
      case FailUnregistering(_, _) =>
        Some(Effect(FailReleasing(lid, f), l, s.idle, Unregister(s.registry, l.key, lid)))
      case FailClosing(_, _) =>
        Some(Effect(FailLeaving(lid, f), FinishRelease(l), Returned(s.idle, session), s.registry))
      case FailLeaving(_, _) => Some(Effect(Leaving(Some(f)), Leave(l), s.idle, s.registry))
  }

  /** The joiner's wait and the caller's callback. */
  function WaitStep(pc: Pc, l: Lease, s: State, c: Choice): Option<Effect>
    requires pc.Waiting? || pc.Materializing?
  {
    var lid := pc.lid;
    if pc.Materializing? then
      if c.Proceed? then Some(Effect(ExitingLease(lid, None), l, s.idle, s.registry))
      else if c.Raise? then Some(Effect(ExitingLease(lid, Some(c.failure)), l, s.idle, s.registry))
      else None
    else if l.state.INITIALIZING? then
      if c.Deadline? then Some(Effect(Leaving(Some(GateTimeout)), Leave(l), s.idle, s.registry))
      else if c.Proceed? then Some(Effect(pc, l, s.idle, s.registry))
      else None
    else if !c.Proceed? then None
    else if l.state.FAILED? then
      Some(Effect(Leaving(Some(JoinerFailure(l.error))), Leave(l), s.idle, s.registry))
    else Some(Effect(Materializing(lid), l, s.idle, s.registry))
  }

  /** `_exit_lease`. */
  function ExitStep(pc: Pc, l: Lease, s: State, t: Tid, c: Choice): Option<Effect>
    requires Exits(pc)
  {
    var lid, r, session := pc.lid, pc.outcome, l.session;
    if pc.Unlocking? then
      if !c.UnlockCall? || !UnlockPossible(session, Gate(session.store), c.unlock) then None
      else Some(Effect(ReturningConn(lid, r), StartRelease(l, c.unlock), s.idle, s.registry))
    else if !c.Proceed? then None
    else match pc
      case ExitingLease(_, _) =>
        var left := ExitLease(l, t);
        Some(Effect(if left.state.CLOSED? then Unregistering(lid, r) else Leaving(r), left, s.idle, s.registry))
      case Unregistering(_, _) => Some(Effect(Unlocking(lid, r), l, s.idle, Unregister(s.registry, l.key, lid)))
      case ReturningConn(_, _) => Some(Effect(Leaving(r), FinishRelease(l), Returned(s.idle, session), s.registry))
  }

  function Step(pc: Pc, l: Lease, s: State, t: Tid, c: Choice): Option<Effect>
    requires HasLease(pc)
  {
    if Setup(pc) then SetupStep(pc, l, s, c)
    else if Failed(pc) then FailStep(pc, l, s, c)
    else if Exits(pc) then ExitStep(pc, l, s, t, c)
    else WaitStep(pc, l, s, c)
  }

  predicate Exits(pc: Pc) {
    pc.ExitingLease? || pc.Unregistering? || pc.Unlocking? || pc.ReturningConn?
  }

  predicate Setup(pc: Pc) {
    pc.Connecting? || pc.LockingAdmission? || pc.LockingGate? || pc.UnlockingAdmission? ||
    pc.Aborting? || pc.AbortClosing? || pc.Revalidating? || pc.Activating?
  }

  predicate Failed(pc: Pc) {
    pc.Failing? || pc.FailUnregistering? || pc.FailReleasing? || pc.FailClosing? || pc.FailLeaving?
  }

  // ---------------------------------------------------------------- the transition relation

  function HoldersOf(s: State, l: LockId): set<nat> {
    set i | 0 <= i < |s.leases| && s.leases[i].session.conn.Some? && l in s.leases[i].session.conn.value.held
  }

  predicate HeldShared(s: State, l: LockId) {
    HoldersOf(s, l) != {} || exists c <- s.idle :: l in c.held
  }

  function Goto(s: State, t: Tid, pc: Pc): State
    requires t in s.threads
  {
    s.(threads := s.threads[t := s.threads[t].(pc := pc)])
  }

  /** The action is possible in `s` and leads to `s'`. */
  predicate NextBy(s: State, a: Action, s': State) {
    match a
    case Call(t, key) =>
      // The admission semaphore is taken first; a caller that times out on it stays Idle.
      && t in s.threads && s.threads[t].pc.Idle? && s.permits > 0
      && s' == s.(permits := s.permits - 1, threads := s.threads[t := Thread(Admitted, key)])
    case Enter(t) =>
      && t in s.threads && s.threads[t].pc.Admitted?
      && s' == if s.life.closing then Goto(s, t, Releasing(Some(Closing)))
               else Goto(s, t, Entered).(life := EnterCall(s.life))
    case AcquireOrJoin(t, withinLifetime) =>
      && t in s.threads && s.threads[t].pc.Entered?
      && s' == AcquireOrJoinLease(s, t, withinLifetime)
    case RejectPath(t) =>
      // The lock-key derivation raises for a path that is no store identity.
      && t in s.threads && s.threads[t].pc.Entered?
      && s' == Goto(s, t, Leaving(Some(OtherError)))
    case LeaseStep(t, c) =>
      && t in s.threads && HasLease(s.threads[t].pc) && s.threads[t].pc.lid < |s.leases|
      && var lid := s.threads[t].pc.lid;
      && var e := Step(s.threads[t].pc, s.leases[lid], s, t, c);
      && e.Some?
      && s' == Goto(s, t, e.value.pc).(leases := s.leases[lid := e.value.lease],
                                       idle := e.value.idle, registry := e.value.registry)
    case Exit(t) =>
      && t in s.threads && s.threads[t].pc.Leaving?
      && s' == Goto(s, t, Releasing(s.threads[t].pc.outcome)).(life := ExitCall(s.life))
    case Release(t) =>
      && t in s.threads && s.threads[t].pc.Releasing?
      && s' == Goto(s, t, Idle).(permits := s.permits + 1)
    case TakeExclusive(l) =>
      && l !in s.exclusive && !HeldShared(s, l)
      && s' == s.(exclusive := s.exclusive + {l})
    case DropExclusive(l) => s' == s.(exclusive := s.exclusive - {l})
    case BeginShutdown => s' == s.(life := StartClosing(s.life))
    case WaitDrainedReturns =>
      s.life.active <= 0 && s' == s.(drained := s.drained || s.life.closing)
  }

  /** `_acquire_or_join_lease` making a new lease. */
  function Created(s: State, t: Tid): State
    requires t in s.threads
  {
    var lid := |s.leases|;
    var key := s.threads[t].key;
    Goto(s, t, Connecting(lid)).(leases := s.leases + [NewLease(key, t)], registry := s.registry[key := lid])
  }

  /** `_acquire_or_join_lease` under `_leases_lock`. */
  function AcquireOrJoinLease(s: State, t: Tid, withinLifetime: bool): State
    requires t in s.threads
  {
    var key := s.threads[t].key;
    if key in s.registry && s.registry[key] < |s.leases| && withinLifetime && Joinable(s.leases[s.registry[key]]) then
      var lid := s.registry[key];
      Goto(s, t, Waiting(lid)).(leases := s.leases[lid := Join(s.leases[lid])])
    else Created(s, t)
  }

  ghost predicate Next(s: State, s': State) {
    exists a :: NextBy(s, a, s')
  }

  predicate Init(s: State) {
    && s.limit >= 1 && s.permits == s.limit
    && s.life == Lifecycle(false, 0) && !s.drained
    && s.registry == map[] && s.idle == multiset{} && s.exclusive == {} && s.leases == []
    && forall t <- s.threads :: s.threads[t].pc.Idle?
  }

  ghost predicate StepAt(run: seq<State>, i: nat)
    requires i + 1 < |run|
  {
    Next(run[i], run[i + 1])
  }

  /** A finite run of the system from its start. */
  ghost predicate Execution(run: seq<State>) {
    && |run| > 0 && Init(run[0])
    && forall i :: 0 <= i < |run| - 1 ==> StepAt(run, i)
  }
}
