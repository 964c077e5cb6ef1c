/** What the SHARED reader gate promises, over every run. */
module GateTheorems {
  import opened Wrappers
  import opened ReaderGateSpec
  import opened GateProtocol
  import opened GateInvariant
  import opened GateSafety

  // ---------------------------------------------------------------- readers and writers

  /** A thread inside the callback reads a store whose SHARED gate its lease's connection holds,
      so no writer holds EXCLUSIVE on that store. */
  lemma ReadersExcludeWriters(run: seq<State>, i: nat, t: Tid)
    requires Execution(run) && i < |run|
    requires t in run[i].threads && run[i].threads[t].pc.Materializing?
    ensures var s := run[i]; var th := s.threads[t]; var gate := Gate(th.key.store);
            && th.pc.lid < |s.leases|
            && var l := s.leases[th.pc.lid];
            && l.key == th.key && l.state == ACTIVE
            && l.session.conn.Some? && gate in l.session.conn.value.held
            && gate !in s.exclusive
  {
    RunInvariant(run, i);
  }

  /** A creator's step out of revalidation: ACTIVE comes next exactly for a row of its own store in one
      of the three readable states, read on the connection that holds the gate; any other row read there
      means the run is not ready, and a lost connection or a raising query is an error of its own. */
  lemma RevalidationDecides(s: State, t: Tid, c: Choice, s': State)
    requires Inv(s) && NextBy(s, LeaseStep(t, c), s') && s.threads[t].pc.Revalidating?
    ensures var lid, key := s.threads[t].pc.lid, s.threads[t].key;
            var pc', row' := s'.threads[t].pc, s'.leases[lid].row;
            var read := c.Row? && s.leases[lid].session.conn.Some?;
            && (pc' == Activating(lid) <==>
                  && read && c.row.Some? && c.row.value.path == key.store
                  && (c.row.value.status == "ready" || c.row.value.status == "processing"
                      || c.row.value.status == "partial"))
            && (pc' == Failing(lid, NotReady) <==> read && pc' != Activating(lid))
            && (pc' == Failing(lid, OtherError) <==> !read)
            && row' == if read then c.row else s.leases[lid].row
  {
  }

  lemma StepReads(pc: Pc, l: Lease, s: State, t: Tid, c: Choice)
    requires HasLease(pc) && Step(pc, l, s, t, c).Some?
    ensures var row := Step(pc, l, s, t, c).value.lease.row; row != l.row ==> pc.Revalidating? && c == Row(row)
  {
    if Setup(pc) {
      assert pc.Revalidating? || SetupStep(pc, l, s, c).value.lease.row == l.row;
    } else if Failed(pc) {
      assert FailStep(pc, l, s, c).value.lease.row == l.row;
    }
  }

  lemma OtherActionsKeepRow(s: State, a: Action, s': State, lid: nat)
    requires NextBy(s, a, s') && lid < |s.leases| && !a.LeaseStep?
    ensures s'.leases[lid].row == s.leases[lid].row
  {
    match a
    case AcquireOrJoin(t, withinLifetime) =>
    case _ =>
  }

  /** A lease's row is what its creator read while revalidating it, and nothing else changes it. */
  lemma OnlyRevalidationReads(s: State, a: Action, s': State, lid: nat)
    requires Inv(s) && NextBy(s, a, s') && lid < |s.leases| && s'.leases[lid].row != s.leases[lid].row
    ensures a.LeaseStep? && s.threads[a.t].pc == Revalidating(lid) && a.choice == Row(s'.leases[lid].row)
  {
    match a
    case LeaseStep(t, c) => StepReads(s.threads[t].pc, s.leases[s.threads[t].pc.lid], s, t, c);
    case _ => OtherActionsKeepRow(s, a, s', lid);
  }

  /** Whoever is inside the callback reads a run that was ready, processing or partial, and stored at
      the path asked for, when the creator of its lease looked. */
  lemma ReadersReadReadableRuns(run: seq<State>, i: nat, t: Tid)
    requires Execution(run) && i < |run|
    requires t in run[i].threads && run[i].threads[t].pc.Materializing?
    ensures var s := run[i]; var th := s.threads[t];
            && th.pc.lid < |s.leases|
            && var row := s.leases[th.pc.lid].row;
            && row.Some? && row.value.path == th.key.store
            && (row.value.status == "ready" || row.value.status == "processing" || row.value.status == "partial")
  {
    RunInvariant(run, i);
  }

  /** The path where the admission unlock fails after the gate was taken: the connection is gone
      while the session still believes it holds the gate, and the assertion in `revalidate` turns
      every next step of the creator into a failure. */
  lemma DroppedConnectionNeverActivates(run: seq<State>, i: nat, t: Tid, c: Choice)
    requires Execution(run) && i < |run| - 1 && NextBy(run[i], LeaseStep(t, c), run[i + 1])
    requires run[i].threads[t].pc.UnlockingAdmission? && run[i].threads[t].pc.raised.None?
    requires c.UnlockCall? && !c.unlock.Unlocked?
    ensures var s' := run[i + 1]; var lid := run[i].threads[t].pc.lid;
            && s'.leases[lid].session.conn.None? && s'.leases[lid].session.gateHeld
            && s'.threads[t].pc == Revalidating(lid)
            && forall c', s'' :: NextBy(s', LeaseStep(t, c'), s'') ==> s''.threads[t].pc == Failing(lid, OtherError)
  {
    RunInvariant(run, i);
    LeaseStepKeepsInv(run[i], t, c, run[i + 1]);
    NoConnectionFails(run[i + 1], t);
  }

  lemma NoConnectionFails(s: State, t: Tid)
    requires t in s.threads && s.threads[t].pc.Revalidating? && s.threads[t].pc.lid < |s.leases|
    requires s.leases[s.threads[t].pc.lid].session.conn.None?
    ensures forall c, s' :: NextBy(s, LeaseStep(t, c), s') ==>
              s'.threads[t].pc == Failing(s.threads[t].pc.lid, OtherError)
  {
  }

  // ---------------------------------------------------------------- lease lifetime

  /** `ref_count` is the number of threads that joined the lease and have not left it. */
  lemma RefCountIsReaders(run: seq<State>, i: nat, lid: nat)
    requires Execution(run) && i < |run| && lid < |run[i].leases|
    ensures run[i].leases[lid].refCount == |Holders(run[i].threads, lid)|
  {
    RunInvariant(run, i);
  }

  /** The session of an ACTIVE lease has not been released; a lease nobody drives any more was
      released exactly once and holds nothing; no lease is ever released twice. */
  lemma ReleasedExactlyOnce(run: seq<State>, i: nat, lid: nat)
    requires Execution(run) && i < |run| && lid < |run[i].leases|
    ensures var l := run[i].leases[lid];
            && l.released <= 1
            && (l.state == ACTIVE ==> l.released == 0)
            && (Dead(l) && l.driver.None? ==> l.released == 1 && l.session.conn.None? && !l.session.gateHeld)
  {
    RunInvariant(run, i);
  }

  /** Any other action leaves an ACTIVE lease ACTIVE. */
  lemma ActiveStays(s: State, a: Action, s': State, lid: nat)
    requires Inv(s) && NextBy(s, a, s') && lid < |s.leases| && s.leases[lid].state == ACTIVE && !a.LeaseStep?
    ensures s'.leases[lid].state == ACTIVE
  {
  }

  lemma ClosedByReader(s: State, t: Tid, c: Choice, s': State, lid: nat)
    requires Inv(s) && NextBy(s, LeaseStep(t, c), s') && lid < |s.leases|
    requires s.leases[lid].state == ACTIVE && s'.leases[lid].state != ACTIVE
    ensures s'.leases[lid].state == CLOSED && s'.leases[lid].driver == Some(t)
    ensures t in Holders(s.threads, lid) && s.leases[lid].refCount == 1 && t !in Holders(s'.threads, lid)
    ensures s'.threads == s.threads[t := s'.threads[t]]
  {
    LeaseStepKeepsInv(s, t, c, s');
  }

  /** Only the last reader closes an ACTIVE lease, and it becomes the one that releases it. */
  lemma LastReaderCloses(s: State, a: Action, s': State, lid: nat)
    requires Inv(s) && NextBy(s, a, s') && lid < |s.leases|
    requires s.leases[lid].state == ACTIVE && s'.leases[lid].state != ACTIVE
    ensures s'.leases[lid].state == CLOSED
    ensures a.LeaseStep? && Holders(s.threads, lid) == {a.t} && Holders(s'.threads, lid) == {}
    ensures s'.leases[lid].driver == Some(a.t)
  {
    if a.LeaseStep? {
      ClosedByReader(s, a.t, a.choice, s', lid);
      LastHolder(s.threads, a.t, lid);
      assert forall u | u in Holders(s'.threads, lid) :: u in Holders(s.threads, lid);
    } else {
      ActiveStays(s, a, s', lid);
    }
  }

  lemma LastHolder(threads: map<Tid, Thread>, t: Tid, lid: nat)
    requires t in Holders(threads, lid)
    ensures |Holders(threads, lid)| == 1 ==> Holders(threads, lid) == {t}
  {
    var holders := Holders(threads, lid);
    assert |holders - {t}| == |holders| - 1;
  }

  lemma DeadLeaseAfter(s: State, t: Tid, c: Choice, lid: nat, lid': nat, e: Effect)
    requires Guaranteed(s, t, lid', c, e) && HasLease(s.threads[t].pc)
    requires lid < |s.leases| && Dead(s.leases[lid])
    ensures After(s, t, lid', e).leases[lid].state == s.leases[lid].state
    ensures HoldsRef(e.pc, lid) ==> HoldsRef(s.threads[t].pc, lid)
  {
    assert ThreadOk(t, s.threads[t], s.leases[lid']);
  }

  lemma DeadUnderLeaseStep(s: State, t: Tid, c: Choice, s': State, lid: nat)
    requires Inv(s) && NextBy(s, LeaseStep(t, c), s') && lid < |s.leases| && Dead(s.leases[lid])
    ensures lid < |s'.leases| && s'.leases[lid].state == s.leases[lid].state
    ensures Holders(s'.threads, lid) <= Holders(s.threads, lid)
  {
    LeaseStepKeepsInv(s, t, c, s');
    var lid' := s.threads[t].pc.lid;
    DeadLeaseAfter(s, t, c, lid, lid', Step(s.threads[t].pc, s.leases[lid'], s, t, c).value);
  }

  lemma DeadUnderJoin(s: State, t: Tid, withinLifetime: bool, s': State, lid: nat)
    requires Inv(s) && NextBy(s, AcquireOrJoin(t, withinLifetime), s') && lid < |s.leases| && Dead(s.leases[lid])
    ensures lid < |s'.leases| && s'.leases[lid].state == s.leases[lid].state
    ensures Holders(s'.threads, lid) <= Holders(s.threads, lid)
  {
  }

  /** Nobody joins a dead lease, and a dead lease stays dead. */
  lemma DeadLeasesStayDead(s: State, a: Action, s': State, lid: nat)
    requires Inv(s) && NextBy(s, a, s') && lid < |s.leases| && Dead(s.leases[lid])
    ensures lid < |s'.leases| && s'.leases[lid].state == s.leases[lid].state
    ensures Holders(s'.threads, lid) <= Holders(s.threads, lid)
  {
    match a
    case LeaseStep(t, c) => DeadUnderLeaseStep(s, t, c, s', lid);
    case AcquireOrJoin(t, withinLifetime) => DeadUnderJoin(s, t, withinLifetime, s', lid);
    case _ =>
  }

  /** The entry is still there, or replaced by a lease that did not exist before, or it is gone
      and was dead. */
  predicate EntryRespected(s: State, s': State, k: Key)
    requires k in s.registry && s.registry[k] < |s.leases|
  {
    || (k in s'.registry && (s'.registry[k] == s.registry[k] || s'.registry[k] >= |s.leases|))
    || (k !in s'.registry && Dead(s.leases[s.registry[k]]))
  }

  lemma EntryAfter(s: State, t: Tid, c: Choice, lid: nat, e: Effect, k: Key)
    requires Guaranteed(s, t, lid, c, e) && k in s.registry
    ensures EntryRespected(s, After(s, t, lid, e), k)
  {
  }

  lemma EntryUnderLeaseStep(s: State, t: Tid, c: Choice, s': State, k: Key)
    requires Inv(s) && NextBy(s, LeaseStep(t, c), s') && k in s.registry
    ensures EntryRespected(s, s', k)
  {
    LeaseStepKeepsInv(s, t, c, s');
    var lid := s.threads[t].pc.lid;
    EntryAfter(s, t, c, lid, Step(s.threads[t].pc, s.leases[lid], s, t, c).value, k);
  }

  lemma EntryUnderJoin(s: State, t: Tid, withinLifetime: bool, s': State, k: Key)
    requires Inv(s) && NextBy(s, AcquireOrJoin(t, withinLifetime), s') && k in s.registry
    ensures EntryRespected(s, s', k)
  {
  }

  /** Only creating a new lease or the death of the registered one changes an entry of the table;
      in particular the exit of a replaced lease never removes its successor. */
  lemma RegistryRespected(s: State, a: Action, s': State, k: Key)
    requires Inv(s) && NextBy(s, a, s') && k in s.registry
    ensures EntryRespected(s, s', k)
  {
    match a
    case LeaseStep(t, c) => EntryUnderLeaseStep(s, t, c, s', k);
    case AcquireOrJoin(t, withinLifetime) => EntryUnderJoin(s, t, withinLifetime, s', k);
    case _ =>
  }

  // ---------------------------------------------------------------- connections

  /** A connection that lies in the pool holds no advisory lock. */
  lemma PooledConnectionsHoldNothing(run: seq<State>, i: nat, c: Conn)
    requires Execution(run) && i < |run| && c in run[i].idle
    ensures c.held == multiset{}
  {
    RunInvariant(run, i);
  }

  /** A connection leaves its session in one of two ways: a lock or unlock call made it
      untrustworthy and it was dropped, or it was closed into the pool with nothing held.
      An untrustworthy connection is always dropped and never reaches the pool. */
  lemma ConnectionsLeaveCleanOrDropped(s: State, t: Tid, c: Choice, s': State)
    requires Inv(s) && NextBy(s, LeaseStep(t, c), s')
    ensures var lid := s.threads[t].pc.lid;
            var conn, conn' := s.leases[lid].session.conn, s'.leases[lid].session.conn;
            && (LostTrust(c) ==> conn'.None? && s'.idle == s.idle)
            && (!LostTrust(c) && conn.Some? && conn'.None? ==>
                  conn.value.held == multiset{} && s'.idle == s.idle + multiset{conn.value})
  {
    LeaseStepKeepsInv(s, t, c, s');
  }

  /** A session gets a connection only from a checkout, which takes it out of the pool or makes a new one. */
  lemma ConnectionsComeFromCheckout(s: State, t: Tid, c: Choice, s': State)
    requires NextBy(s, LeaseStep(t, c), s')
    ensures var lid := s.threads[t].pc.lid;
            var conn, conn' := s.leases[lid].session.conn, s'.leases[lid].session.conn;
            conn.None? && conn'.Some? ==>
              && c == Checkout(conn'.value) && s.threads[t].pc == Connecting(lid)
              && s.idle == s'.idle + if conn'.value in s.idle then multiset{conn'.value} else multiset{}
  {
    var l := s.leases[s.threads[t].pc.lid];
    if l.session.conn.None? { CheckoutOnly(s.threads[t].pc, l, s, t, c); }
  }

  lemma CheckoutOnly(pc: Pc, l: Lease, s: State, t: Tid, c: Choice)
    requires HasLease(pc) && Step(pc, l, s, t, c).Some? && l.session.conn.None?
    ensures var e := Step(pc, l, s, t, c).value;
            e.lease.session.conn.Some? ==>
              && pc.Connecting? && c == Checkout(e.lease.session.conn.value)
              && s.idle == e.idle + if c.conn in s.idle then multiset{c.conn} else multiset{}
  {
    if Setup(pc) {
      assert pc.Connecting? || SetupStep(pc, l, s, c).value.lease.session.conn.None?;
    } else if Failed(pc) {
      assert FailStep(pc, l, s, c).value.lease.session.conn.None?;
    } else if Exits(pc) {
      assert ExitStep(pc, l, s, t, c).value.lease.session.conn.None?;
    }
  }

  // ---------------------------------------------------------------- admission and shutdown

  function Readers(s: State): set<Tid> {
    set t | t in s.threads && s.threads[t].pc.Materializing?
  }

  lemma SubsetSize(a: set<Tid>, b: set<Tid>)
    requires a <= b
    ensures |a| <= |b|
  {
    assert b == a + (b - a);
  }

  /** Permits are conserved, so at most `limit` gated reads run at once, and the bounded semaphore
      is never released above its initial value. */
  lemma AdmissionBoundsReaders(run: seq<State>, i: nat)
    requires Execution(run) && i < |run|
    ensures run[i].permits + |Permitted(run[i].threads)| == run[i].limit
    ensures run[i].life.active == |Active(run[i].threads)|
    ensures |Readers(run[i])| <= run[i].limit && 0 <= run[i].permits <= run[i].limit
  {
    RunInvariant(run, i);
    SubsetSize(Readers(run[i]), Permitted(run[i].threads));
  }

  lemma {:induction false} DrainedStays(run: seq<State>, i: nat, j: nat)
    requires Execution(run) && i <= j < |run| && run[i].drained
    ensures run[j].drained
  {
    if i < j {
      DrainedStays(run, i, j - 1);
      assert StepAt(run, j - 1);
    }
  }

  /** Once shutdown began and `wait_drained` then returned, no gated body runs in any later state. */
  lemma NoReaderAfterDrain(run: seq<State>, i: nat, j: nat, t: Tid)
    requires Execution(run) && i < j < |run|
    requires run[i].life.closing && NextBy(run[i], WaitDrainedReturns, run[i + 1])
    requires t in run[j].threads
    ensures !Counted(run[j].threads[t].pc)
    ensures !run[j].threads[t].pc.Materializing?
  {
    DrainedStays(run, i + 1, j);
    RunInvariant(run, j);
    if Counted(run[j].threads[t].pc) { ActiveIsNotDrained(run[j], t); }
  }

  /** When no call is in progress nothing is left behind: every permit is back, the table is empty
      and every lease was released exactly once and holds no connection. */
  lemma QuietMeansClean(run: seq<State>, i: nat)
    requires Execution(run) && i < |run|
    requires forall t <- run[i].threads :: run[i].threads[t].pc.Idle?
    ensures run[i].permits == run[i].limit && run[i].life.active == 0 && run[i].registry == map[]
    ensures forall l <- run[i].leases ::
              Dead(l) && l.refCount == 0 && l.released == 1 && l.session.conn.None?
  {
    RunInvariant(run, i);
    var s := run[i];
    assert Permitted(s.threads) == {} && Active(s.threads) == {};
    forall j | 0 <= j < |s.leases|
      ensures Dead(s.leases[j]) && s.leases[j].refCount == 0 && s.leases[j].driver.None?
    {
      assert Holders(s.threads, j) == {};
    }
    forall v <- s.registry.Values ensures v >= |s.leases| {
    }
    assert forall k <- s.registry :: s.registry[k] in s.registry.Values;
  }
}
