/** The gate's objects, updated in place as the API does it.  Database answers are parameters;
    every method says which function of ReaderGateSpec it carries out. */
module ReaderGate {
  import opened Wrappers
  import opened ReaderGateSpec

  datatype Fate = CheckedOut | Pooled | Invalidated

  /** A pool connection: the advisory locks its server session holds and where it ended up. */
  class Connection {
    var held: multiset<LockId>
    var fate: Fate

    constructor ()
      ensures held == multiset{} && fate == CheckedOut
    {
      held, fate := multiset{}, CheckedOut;
    }
  }

  class ReaderGateSession {
    const store: string
    var conn: Connection?
    var gateHeld: bool

    constructor (store: string)
      ensures this.store == store && conn == null && !gateHeld
    {
      this.store, conn, gateHeld := store, null, false;
    }

    ghost function View(): Session
      reads this, conn
    {
      Session(store, if conn == null then None else Some(Conn(conn.held)), gateHeld)
    }

    /** Between calls a session holds nothing, or exactly its store's gate, or lost its
        connection while still believing in the gate. */
    ghost predicate Settled()
      reads this, conn
    {
      conn != null ==> conn.fate == CheckedOut && gateHeld && conn.held == multiset{Gate(store)}
    }

    method InvalidateConn()
      modifies this`conn, conn
      ensures conn == null
      ensures old(conn) != null ==> old(conn).fate == Invalidated && old(conn).held == old(conn.held)
    {
      if conn != null {
        conn.fate := Invalidated;
        conn := null;
      }
    }

    method CloseConn()
      modifies this`conn, conn
      ensures conn == null
      ensures old(conn) != null ==> old(conn).fate == Pooled && old(conn).held == old(conn.held)
    {
      if conn != null {
        conn.fate := Pooled;
        conn := null;
      }
    }

    method AcquireShared(l: LockId, o: LockOutcome) returns (raised: Option<Failure>)
      requires conn != null
      modifies this`conn, conn
      ensures View() == AfterLock(old(View()), l, o)
      ensures raised == if o.Granted? then None else Some(LockFailure(o))
      ensures conn == if o.LockError? then null else old(conn)
      ensures old(conn).fate == if o.LockError? then Invalidated else old(conn.fate)
      ensures o.LockError? ==>
                old(conn).held == old(conn.held) + if o.granted then multiset{l} else multiset{}
    {
      match o
      case Granted =>
        conn.held := conn.held + multiset{l};
        raised := None;
      case LockTimeout => raised := Some(GateTimeout);
      case LockError(granted) =>
        if granted { conn.held := conn.held + multiset{l}; }
        InvalidateConn();
        raised := Some(OtherError);
    }

    method ReleaseShared(l: LockId, o: UnlockOutcome)
      requires UnlockPossible(View(), l, o)
      modifies this`conn, conn
      ensures View() == AfterUnlock(old(View()), l, o)
      ensures conn == if o.Unlocked? then old(conn) else null
      ensures old(conn) != null ==> old(conn).fate == if o.Unlocked? then old(conn.fate) else Invalidated
    {
      if conn == null { return; }
      if o.Unlocked? {
        conn.held := conn.held - multiset{l};
      } else {
        InvalidateConn();
      }
    }

    /** `acquire`: `pooled` is what the pool handed out, null when checkout failed.  Whatever the
        four database calls answer, a connection that went back to the pool holds no lock, and one
        whose lock call broke or whose unlock was not confirmed was invalidated.  On success the
        gate is held, unless the admission unlock cost the session its connection.  (The source's
        handler would also unlock the gate, but it never runs with the gate held.) */
    method Acquire(pooled: Connection?, admission: LockOutcome, gate: LockOutcome, unlock: UnlockOutcome)
      returns (raised: Option<Failure>)
      requires conn == null && !gateHeld
      requires pooled != null ==> pooled.held == multiset{} && pooled.fate == CheckedOut
      modifies this`conn, this`gateHeld, pooled
      ensures raised.None? <==> pooled != null && admission.Granted? && gate.Granted?
      ensures raised.None? ==> gateHeld && Settled() && (conn == pooled <==> unlock.Unlocked?)
      ensures raised.Some? ==> conn == null && !gateHeld
      ensures conn == null || conn == pooled
      ensures pooled != null && pooled.fate == Pooled ==> pooled.held == multiset{}
      ensures pooled != null ==>
                (pooled.fate == Invalidated <==>
                   || admission.LockError?
                   || (admission.Granted? && (gate.LockError? || !unlock.Unlocked?)))
      ensures pooled != null && conn == null ==> pooled.fate != CheckedOut
    {
      if pooled == null { return Some(OtherError); }
      conn := pooled;
      raised := AcquireShared(Admission(store), admission);
      if raised.None? {
        raised := AcquireShared(Gate(store), gate);
        gateHeld := raised.None?;
        ReleaseShared(Admission(store), unlock);
      }
      if raised.Some? {
        CloseConn();
      }
    }

    /** `release`: the second call of a pair finds nothing to do. */
    method Release(o: UnlockOutcome)
      requires Settled() && UnlockPossible(View(), Gate(store), o)
      modifies this`conn, this`gateHeld, conn
      ensures conn == null && !gateHeld
      ensures old(conn) != null ==>
                if o.Unlocked? then old(conn).fate == Pooled && old(conn).held == multiset{}
                else old(conn).fate == Invalidated
    {
      if gateHeld {
        ReleaseShared(Gate(store), o);
        gateHeld := false;
      }
      CloseConn();
    }
  }

  class StoreGateLease {
    const key: Key
    const session: ReaderGateSession
    var refCount: int
    var state: LeaseState
    var error: Option<Failure>
    ghost var driver: Option<nat>
    ghost var released: nat
    ghost var row: Option<RunRow>

    constructor (key: Key, session: ReaderGateSession, ghost creator: nat)
      requires session.View() == Session(key.store, None, false)
      ensures this.key == key && this.session == session && View() == NewLease(key, creator)
    {
      this.key, this.session := key, session;
      refCount, state, error := 1, INITIALIZING, None;
      driver, released, row := Some(creator), 0, None;
    }

    ghost function View(): Lease
      reads this, session, session.conn
    {
      Lease(key, session.View(), refCount, state, error, driver, released, row)
    }

    method TryJoin() returns (joined: bool)
      modifies this`refCount
      ensures joined == Joinable(old(View()))
      ensures View() == if joined then Join(old(View())) else old(View())
    {
      joined := state in {INITIALIZING, ACTIVE};
      if joined { refCount := refCount + 1; }
    }

    method MakeActive()
      modifies this`state, this`driver
      ensures View() == Activate(old(View()))
    {
      state, driver := ACTIVE, None;
    }

    method MakeFailed(f: Failure)
      modifies this`state, this`error
      ensures View() == Fail(old(View()), f)
    {
      state, error := FAILED, Some(f);
    }

    method GiveUp()
      modifies this`refCount
      ensures View() == Leave(old(View()))
    {
      refCount := refCount - 1;
    }

    method Exit(ghost reader: nat) returns (last: bool)
      modifies this`refCount, this`state, this`driver
      ensures View() == ExitLease(old(View()), reader)
      ensures last <==> old(refCount) <= 1
    {
      refCount := refCount - 1;
      last := refCount <= 0;
      if last { state, driver := CLOSED, Some(reader); }
    }
  }

  class LeaseTable {
    var leases: map<Key, StoreGateLease>

    constructor ()
      ensures leases == map[]
    {
      leases := map[];
    }

    /** Joins the registered lease while it is young and alive; otherwise registers a new one. */
    method AcquireOrJoin(key: Key, withinLifetime: bool, ghost reader: nat)
      returns (lease: StoreGateLease, created: bool)
      modifies this, leases.Values`refCount
      ensures created <==>
                !(key in old(leases) && withinLifetime && old(leases[key].state) in {INITIALIZING, ACTIVE})
      ensures !created ==>
                lease == old(leases)[key] && leases == old(leases) && lease.View() == Join(old(leases[key].View()))
      ensures created ==> fresh(lease) && lease.View() == NewLease(key, reader) && leases == old(leases)[key := lease]
      ensures forall l <- old(leases.Values) :: l != lease ==> l.refCount == old(l.refCount)
    {
      if key in leases && withinLifetime {
        lease := leases[key];
        var joined := lease.TryJoin();
        if joined { return lease, false; }
      }
      var session := new ReaderGateSession(key.store);
      lease := new StoreGateLease(key, session, reader);
      leases := leases[key := lease];
      created := true;
    }

    method Remove(key: Key, lease: StoreGateLease)
      modifies this
      ensures leases == if key in old(leases) && old(leases)[key] == lease then old(leases) - {key} else old(leases)
    {
      if key in leases && leases[key] == lease { leases := leases - {key}; }
    }

    /** `_exit_lease`: the last reader closes the lease, takes it out of the table if it is still
        the registered one, and releases its session; everybody else only counts down. */
    method ExitLease(key: Key, lease: StoreGateLease, ghost reader: nat, o: UnlockOutcome)
      requires lease.session.Settled() && UnlockPossible(lease.session.View(), Gate(lease.session.store), o)
      modifies this, lease, lease.session, lease.session.conn
      ensures lease.refCount == old(lease.refCount) - 1
      ensures old(lease.refCount) > 1 ==>
                lease.View() == Leave(old(lease.View())) && leases == old(leases)
      ensures old(lease.refCount) <= 1 ==>
                && lease.state == CLOSED && lease.session.conn == null && !lease.session.gateHeld
                && leases == (if key in old(leases) && old(leases)[key] == lease then old(leases) - {key}
                              else old(leases))
                && var conn := old(lease.session.conn);
                   conn != null ==> conn.fate == (if o.Unlocked? then Pooled else Invalidated) &&
                                    (conn.fate == Pooled ==> conn.held == multiset{})
    {
      var last := lease.Exit(reader);
      if last {
        Remove(key, lease);
        lease.session.Release(o);
      }
    }
  }

  class ReaderGateLifecycle {
    var closing: bool
    var activeCount: int

    constructor ()
      ensures View() == Lifecycle(false, 0)
    {
      closing, activeCount := false, 0;
    }

    ghost function View(): Lifecycle
      reads this
    {
      Lifecycle(closing, activeCount)
    }

    method Enter() returns (raised: Option<Failure>)
      modifies this
      ensures raised == if old(closing) then Some(Closing) else None
      ensures View() == EnterCall(old(View()))
    {
      if closing { return Some(Closing); }
      activeCount := activeCount + 1;
      raised := None;
    }

    method Exit()
      modifies this
      ensures View() == ExitCall(old(View()))
    {
      activeCount := activeCount - 1;
    }

    method BeginShutdown()
      modifies this
      ensures View() == StartClosing(old(View()))
    {
      closing := true;
    }
  }
}
