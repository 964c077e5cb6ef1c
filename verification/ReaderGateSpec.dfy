/** The values behind the SHARED reader gate: advisory locks as PostgreSQL keeps them per
    connection, one reader session, one lease, and the shutdown lifecycle.  The classes in
    ReaderGate.dfy and the thread interleavings in GateProtocol.dfy both use these functions. */
module ReaderGateSpec {
  import opened Wrappers

  /** The admission key and the store-gate key live in different 4-bit namespaces, so they
      never name the same lock. */
  datatype LockId = Admission(store: string) | Gate(store: string)

  /** A checked-out connection with the session-level SHARED locks it holds.  PostgreSQL counts
      repeated grants, and a transaction rollback does not take a session-level lock away. */
  datatype Conn = Conn(held: multiset<LockId>)

  /** How a `pg_advisory_lock_shared` call ended.  `granted` of a failure says whether the server
      had taken the lock before the call raised (for example when only the COMMIT failed). */
  datatype LockOutcome = Granted | LockTimeout | LockError(granted: bool)

  /** How a `pg_advisory_unlock_shared` call ended: it returned true, returned false, or raised. */
  datatype UnlockOutcome = Unlocked | NotUnlocked | UnlockError

  /** Exception classes the gate tells apart. */
  datatype Failure = NotReady | GateTimeout | Closing | OtherError

  datatype Session = Session(store: string, conn: Option<Conn>, gateHeld: bool)

  datatype LeaseState = INITIALIZING | ACTIVE | FAILED | CLOSED

  /** The row revalidation reads from `model_runs`. */
  datatype RunRow = RunRow(status: string, path: string)

  /** `driver`, `released` and `row` are history variables: the thread that is setting the session up
      or tearing it down, how often `release` was started on it, and what its creator read of the run. */
  datatype Lease = Lease(
    key: Key,
    session: Session,
    refCount: int,
    state: LeaseState,
    error: Option<Failure>,
    driver: Option<nat>,
    released: nat,
    row: Option<RunRow>)

  datatype Key = Key(pool: nat, store: string, db: string)

  datatype Lifecycle = Lifecycle(closing: bool, active: int)

  /** The database can only answer true to an unlock of a lock the connection holds. */
  predicate UnlockPossible(s: Session, l: LockId, o: UnlockOutcome) {
    o.Unlocked? && s.conn.Some? ==> l in s.conn.value.held
  }

  /** `_acquire_shared`: a lock timeout leaves the connection usable, any other error drops it. */
  function AfterLock(s: Session, l: LockId, o: LockOutcome): Session
    requires s.conn.Some?
  {
    match o
    case Granted => s.(conn := Some(Conn(s.conn.value.held + multiset{l})))
    case LockTimeout => s
    case LockError(_) => s.(conn := None)
  }

  /** `_release_shared`: nothing without a connection; anything but a true answer drops it. */
  function AfterUnlock(s: Session, l: LockId, o: UnlockOutcome): Session {
    if s.conn.None? then s
    else if o.Unlocked? then s.(conn := Some(Conn(s.conn.value.held - multiset{l})))
    else s.(conn := None)
  }

  /** The exception a failed lock call raises. */
  function LockFailure(o: LockOutcome): Failure
    requires !o.Granted?
  {
    if o.LockTimeout? then GateTimeout else OtherError
  }

  predicate Readable(row: Option<RunRow>, store: string) {
    row.Some? && row.value.status in {"ready", "processing", "partial"} && row.value.path == store
  }

  /** The states in which `_acquire_or_join_lease` accepts another reader. */
  predicate Joinable(l: Lease) {
    l.state in {INITIALIZING, ACTIVE}
  }

  function NewLease(key: Key, creator: nat): Lease {
    Lease(key, Session(key.store, None, false), 1, INITIALIZING, None, Some(creator), 0, None)
  }

  function Join(l: Lease): Lease {
    l.(refCount := l.refCount + 1)
  }

  /** A reader that gives up (or sees FAILED) only takes its own reference away. */
  function Leave(l: Lease): Lease {
    l.(refCount := l.refCount - 1)
  }

  function Activate(l: Lease): Lease {
    l.(state := ACTIVE, driver := None)
  }

  function Fail(l: Lease, f: Failure): Lease {
    l.(state := FAILED, error := Some(f))
  }

  /** First block of `_exit_lease`: the last reader closes the lease. */
  function ExitLease(l: Lease, reader: nat): Lease {
    var left := Leave(l);
    if left.refCount <= 0 then left.(state := CLOSED, driver := Some(reader)) else left
  }

  /** `enter`: refused once the gate is closing, else counted. */
  function EnterCall(l: Lifecycle): Lifecycle {
    if l.closing then l else l.(active := l.active + 1)
  }

  function ExitCall(l: Lifecycle): Lifecycle {
    l.(active := l.active - 1)
  }

  function StartClosing(l: Lifecycle): Lifecycle {
    l.(closing := true)
  }

  /** What a joiner raises when the lease it waited for has failed. */
  function JoinerFailure(error: Option<Failure>): Failure {
    match error
    case Some(NotReady) => NotReady
    case Some(GateTimeout) => GateTimeout
    case _ => OtherError
  }
}
