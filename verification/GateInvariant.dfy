/** What every step of the gate protocol keeps.

    The proof is rely/guarantee: a lease step is checked against its own thread and lease only
    (`Guarantee`), and `Undisturbed` says what other threads of the lease may count on. */
module GateInvariant {
  import opened Wrappers
  import opened ReaderGateSpec
  import opened GateProtocol

  // ---------------------------------------------------------------- what a thread holds

  /** The thread joined (or created) lease `lid` and has not left it. */
  predicate HoldsRef(pc: Pc, lid: nat) {
    HasLease(pc) && pc.lid == lid && !(pc.Unregistering? || pc.Unlocking? || pc.ReturningConn?)
  }

  /** The thread is setting up or tearing down the session of lease `lid`. */
  predicate Drives(pc: Pc, lid: nat) {
    HasLease(pc) && pc.lid == lid &&
    (Setup(pc) || (Failed(pc) && !pc.FailLeaving?) || pc.Unregistering? || pc.Unlocking? || pc.ReturningConn?)
  }

  predicate HoldsPermit(pc: Pc) {
    !pc.Idle?
  }

  predicate Counted(pc: Pc) {
    !(pc.Idle? || pc.Admitted? || pc.Releasing?)
  }

  function Holders(threads: map<Tid, Thread>, lid: nat): set<Tid> {
    set t | t in threads && HoldsRef(threads[t].pc, lid)
  }

  function Permitted(threads: map<Tid, Thread>): set<Tid> {
    set t | t in threads && HoldsPermit(threads[t].pc)
  }

  function Active(threads: map<Tid, Thread>): set<Tid> {
    set t | t in threads && Counted(threads[t].pc)
  }

  function One(b: bool): int {
    if b then 1 else 0
  }

  // ---------------------------------------------------------------- the invariant

  /** The connection, if there is one, holds exactly these locks. */
  predicate Exactly(s: Session, held: multiset<LockId>) {
    s.conn.Some? ==> s.conn.value.held == held
  }

  predicate OnlyGate(s: Session) {
    Exactly(s, multiset{Gate(s.store)}) && (s.conn.Some? ==> s.gateHeld)
  }

  predicate HoldsGate(s: Session) {
    s.conn.Some? && s.gateHeld && s.conn.value.held == multiset{Gate(s.store)}
  }

  /** What the thread's position says about its lease. */
  predicate ThreadOk(t: Tid, th: Thread, l: Lease) {
    var s := l.session;
    var admission, gate := Admission(s.store), Gate(s.store);
    var setup := l.driver == Some(t) && l.state == INITIALIZING && l.released == 0;
    && l.key == th.key
    && match th.pc
       case Connecting(_) => setup && s.conn.None? && !s.gateHeld
       case LockingAdmission(_) => setup && s.conn == Some(Conn(multiset{})) && !s.gateHeld
       case LockingGate(_) => setup && s.conn == Some(Conn(multiset{admission})) && !s.gateHeld
       case UnlockingAdmission(_, raised) =>
         && setup && s.gateHeld == raised.None?
         && Exactly(s, if raised.None? then multiset{admission, gate} else multiset{admission})
         && (raised.None? ==> s.conn.Some?)
       case Aborting(_, _) => setup && !s.gateHeld && Exactly(s, multiset{})
       case AbortClosing(_, _) => setup && !s.gateHeld && Exactly(s, multiset{})
       case Revalidating(_) => setup && s.gateHeld && OnlyGate(s)
       case Activating(_) => setup && HoldsGate(s) && Readable(l.row, s.store)
       case Failing(_, _) => setup && OnlyGate(s)
       case FailUnregistering(_, _) => l.driver == Some(t) && l.state == FAILED && l.released == 0 && OnlyGate(s)
       case FailReleasing(_, _) => l.driver == Some(t) && l.state == FAILED && l.released == 0 && OnlyGate(s)
       case FailClosing(_, _) =>
         l.driver == Some(t) && l.state == FAILED && l.released == 1 && !s.gateHeld && Exactly(s, multiset{})
       case FailLeaving(_, _) => l.driver == None && l.state == FAILED
       case Waiting(_) => l.state != CLOSED
       case Materializing(_) => l.state == ACTIVE
       case ExitingLease(_, _) => l.state == ACTIVE
       case Unregistering(_, _) => l.driver == Some(t) && l.state == CLOSED && l.released == 0 && HoldsGate(s)
       case Unlocking(_, _) => l.driver == Some(t) && l.state == CLOSED && l.released == 0 && HoldsGate(s)
       case ReturningConn(_, _) =>
         l.driver == Some(t) && l.state == CLOSED && l.released == 1 && !s.gateHeld && Exactly(s, multiset{})
       case _ => true
  }

  /** A lease nobody drives is ACTIVE with its gate held and its run readable, or dead with nothing held. */
  predicate LeaseOk(l: Lease, exclusive: set<LockId>) {
    && l.session.store == l.key.store
    && (l.session.conn.Some? ==> forall x <- l.session.conn.value.held :: x !in exclusive)
    && (l.state == INITIALIZING ==> l.driver.Some?)
    && (l.state == ACTIVE ==> l.driver.None? && HoldsGate(l.session) && l.released == 0 && l.refCount > 0)
    && (l.state == ACTIVE ==> Readable(l.row, l.session.store))
    && (l.state == CLOSED ==> l.refCount == 0)
    && (l.state in {FAILED, CLOSED} && l.driver.None? ==>
          l.session.conn.None? && !l.session.gateHeld && l.released == 1)
    && l.released <= 1
  }

  predicate ThreadsOk(s: State) {
    forall t <- s.threads :: HasLease(s.threads[t].pc) ==>
      s.threads[t].pc.lid < |s.leases| && ThreadOk(t, s.threads[t], s.leases[s.threads[t].pc.lid])
  }

  predicate LeasesOk(s: State) {
    forall i | 0 <= i < |s.leases| :: LeaseOk(s.leases[i], s.exclusive)
  }

  predicate DriversOk(s: State) {
    forall i | 0 <= i < |s.leases| && s.leases[i].driver.Some? ::
      s.leases[i].driver.value in s.threads && Drives(s.threads[s.leases[i].driver.value].pc, i)
  }

  predicate CountsOk(s: State) {
    && (forall i | 0 <= i < |s.leases| :: s.leases[i].refCount == |Holders(s.threads, i)|)
    && s.permits >= 0 && s.permits + |Permitted(s.threads)| == s.limit
    && s.life.active == |Active(s.threads)|
  }

  predicate RegistryOk(s: State) {
    forall k <- s.registry :: s.registry[k] < |s.leases| && s.leases[s.registry[k]].key == k
  }

  predicate Dead(l: Lease) {
    l.state == FAILED || l.state == CLOSED
  }

  predicate AtUnregister(pc: Pc) {
    pc.FailUnregistering? || pc.Unregistering?
  }

  /** A dead lease stays registered only while its driver is about to take it out. */
  predicate DeadOk(s: State) {
    forall i | 0 <= i < |s.leases| && Dead(s.leases[i]) && i in s.registry.Values ::
      s.leases[i].driver.Some? && s.leases[i].driver.value in s.threads &&
      AtUnregister(s.threads[s.leases[i].driver.value].pc)
  }

  predicate IdleOk(idle: multiset<Conn>) {
    forall c <- idle :: c.held == multiset{}
  }

  predicate DrainOk(s: State) {
    s.drained ==> s.life.closing && s.life.active == 0
  }

  predicate Inv(s: State) {
    && ThreadsOk(s) && LeasesOk(s) && DriversOk(s) && CountsOk(s)
    && RegistryOk(s) && DeadOk(s) && IdleOk(s.idle) && DrainOk(s)
  }

  // ---------------------------------------------------------------- counting threads

  lemma UpdateSize(a: set<Tid>, b: set<Tid>, t: Tid)
    requires a - {t} == b - {t}
    ensures |b| == |a| - One(t in a) + One(t in b)
  {
    assert |a - {t}| == |a| - One(t in a) by {
      if t !in a { assert a - {t} == a; }
    }
    assert |b - {t}| == |b| - One(t in b) by {
      if t !in b { assert b - {t} == b; }
    }
  }

  lemma CountUpdate(threads: map<Tid, Thread>, t: Tid, th: Thread, lid: nat)
    requires t in threads
    ensures |Holders(threads[t := th], lid)| ==
            |Holders(threads, lid)| - One(HoldsRef(threads[t].pc, lid)) + One(HoldsRef(th.pc, lid))
    ensures |Permitted(threads[t := th])| ==
            |Permitted(threads)| - One(HoldsPermit(threads[t].pc)) + One(HoldsPermit(th.pc))
    ensures |Active(threads[t := th])| ==
            |Active(threads)| - One(Counted(threads[t].pc)) + One(Counted(th.pc))
  {
    var threads' := threads[t := th];
    UpdateSize(Holders(threads, lid), Holders(threads', lid), t);
    UpdateSize(Permitted(threads), Permitted(threads'), t);
    UpdateSize(Active(threads), Active(threads'), t);
  }

  lemma HolderCounts(threads: map<Tid, Thread>, t: Tid, lid: nat)
    requires t in threads && HoldsRef(threads[t].pc, lid)
    ensures |Holders(threads, lid)| >= 1
  {
    assert t in Holders(threads, lid);
  }

  // ---------------------------------------------------------------- one lease step

  /** What the other threads of a lease can count on when `t` changes it. */
  predicate Undisturbed(t: Tid, l: Lease, l': Lease) {
    && l'.key == l.key
    && (|| l' == l.(refCount := l'.refCount)
        || (l.driver == Some(t) && l'.state != INITIALIZING && l.state == INITIALIZING && l'.state != CLOSED)
        || (l.driver == Some(t) && l'.state == l.state)
        || (l.state == ACTIVE && l'.state == CLOSED && l'.refCount == 0))
  }

  /** The call did not end the way that lets the connection be trusted any more. */
  predicate LostTrust(c: Choice) {
    (c.LockCall? && c.lock.LockError?) || (c.UnlockCall? && !c.unlock.Unlocked?)
  }

  /** A connection leaves its session dropped after such a call, or closed with nothing held. */
  predicate ConnectionRule(s: State, l: Lease, c: Choice, e: Effect) {
    && (LostTrust(c) ==> e.lease.session.conn.None? && e.idle == s.idle)
    && (!LostTrust(c) && l.session.conn.Some? && e.lease.session.conn.None? ==>
          l.session.conn.value.held == multiset{} && e.idle == s.idle + multiset{l.session.conn.value})
  }

  predicate Guarantee(s: State, t: Tid, th: Thread, lid: nat, l: Lease, c: Choice, e: Effect) {
    && LeaseOk(e.lease, s.exclusive)
    && (HasLease(e.pc) ==> e.pc.lid == lid && ThreadOk(t, th.(pc := e.pc), e.lease))
    && (e.lease.driver == Some(t) ==> Drives(e.pc, lid))
    && (e.lease.driver.Some? && e.lease.driver != Some(t) ==> e.lease.driver == l.driver)
    && e.lease.refCount - l.refCount == One(HoldsRef(e.pc, lid)) - One(HoldsRef(th.pc, lid))
    && Undisturbed(t, l, e.lease)
    && IdleOk(e.idle)
    && ConnectionRule(s, l, c, e)
    && (e.registry == s.registry || (Dead(l) && e.registry == Unregister(s.registry, l.key, lid)))
    && !e.pc.Idle? && Counted(e.pc)
    && (AtUnregister(th.pc) ==> e.registry == Unregister(s.registry, l.key, lid))
    && (Dead(e.lease) && !Dead(l) ==> AtUnregister(e.pc) && e.lease.driver == Some(t))
  }

  /** The premises of a lease step: the thread and its lease fit together. */
  predicate Fits(s: State, t: Tid, th: Thread, lid: nat, l: Lease) {
    && HasLease(th.pc) && th.pc.lid == lid
    && ThreadOk(t, th, l) && LeaseOk(l, s.exclusive) && IdleOk(s.idle)
    && (HoldsRef(th.pc, lid) ==> l.refCount >= 1)
    && (l.driver == Some(t) ==> Drives(th.pc, lid))
  }

  lemma NoConnectionGuarantee(s: State, t: Tid, th: Thread, lid: nat, l: Lease, c: Choice)
    requires th.pc.Connecting? && c.Raise?
    requires Fits(s, t, th, lid, l) && SetupStep(th.pc, l, s, c).Some?
    ensures Guarantee(s, t, th, lid, l, c, SetupStep(th.pc, l, s, c).value)
  {
  }

  lemma ConnectedGuarantee(s: State, t: Tid, th: Thread, lid: nat, l: Lease, c: Choice)
    requires th.pc.Connecting? && c.Checkout?
    requires Fits(s, t, th, lid, l) && SetupStep(th.pc, l, s, c).Some?
    ensures Guarantee(s, t, th, lid, l, c, SetupStep(th.pc, l, s, c).value)
  {
    assert c.conn.held == multiset{};
  }

  lemma CheckoutGuarantee(s: State, t: Tid, th: Thread, lid: nat, l: Lease, c: Choice)
    requires th.pc.Connecting?
    requires Fits(s, t, th, lid, l) && SetupStep(th.pc, l, s, c).Some?
    ensures Guarantee(s, t, th, lid, l, c, SetupStep(th.pc, l, s, c).value)
  {
    if c.Raise? { NoConnectionGuarantee(s, t, th, lid, l, c); } else { ConnectedGuarantee(s, t, th, lid, l, c); }
  }

  lemma LockAdmissionGuarantee(s: State, t: Tid, th: Thread, lid: nat, l: Lease, c: Choice)
    requires th.pc.LockingAdmission?
    requires Fits(s, t, th, lid, l) && SetupStep(th.pc, l, s, c).Some?
    ensures Guarantee(s, t, th, lid, l, c, SetupStep(th.pc, l, s, c).value)
  {
    var admission := Admission(l.session.store);
    assert multiset{} + multiset{admission} == multiset{admission};
  }

  lemma LockGateGuarantee(s: State, t: Tid, th: Thread, lid: nat, l: Lease, c: Choice)
    requires th.pc.LockingGate?
    requires Fits(s, t, th, lid, l) && SetupStep(th.pc, l, s, c).Some?
    ensures Guarantee(s, t, th, lid, l, c, SetupStep(th.pc, l, s, c).value)
  {
    var admission, gate := Admission(l.session.store), Gate(l.session.store);
    assert multiset{admission} + multiset{gate} == multiset{admission, gate};
  }

  lemma UnlockAdmissionGuarantee(s: State, t: Tid, th: Thread, lid: nat, l: Lease, c: Choice)
    requires th.pc.UnlockingAdmission? && th.pc.raised.None?
    requires Fits(s, t, th, lid, l) && SetupStep(th.pc, l, s, c).Some?
    ensures Guarantee(s, t, th, lid, l, c, SetupStep(th.pc, l, s, c).value)
  {
    var admission, gate := Admission(l.session.store), Gate(l.session.store);
    assert multiset{admission, gate} - multiset{admission} == multiset{gate};
  }

  lemma UnlockAfterErrorGuarantee(s: State, t: Tid, th: Thread, lid: nat, l: Lease, c: Choice)
    requires th.pc.UnlockingAdmission? && th.pc.raised.Some?
    requires Fits(s, t, th, lid, l) && SetupStep(th.pc, l, s, c).Some?
    ensures Guarantee(s, t, th, lid, l, c, SetupStep(th.pc, l, s, c).value)
  {
    var admission := Admission(l.session.store);
    assert multiset{admission} - multiset{admission} == multiset{};
  }

  lemma AbortGuarantee(s: State, t: Tid, th: Thread, lid: nat, l: Lease, c: Choice)
    requires th.pc.Aborting?
    requires Fits(s, t, th, lid, l) && SetupStep(th.pc, l, s, c).Some?
    ensures Guarantee(s, t, th, lid, l, c, SetupStep(th.pc, l, s, c).value)
  {
  }

  lemma AbortCloseGuarantee(s: State, t: Tid, th: Thread, lid: nat, l: Lease, c: Choice)
    requires th.pc.AbortClosing?
    requires Fits(s, t, th, lid, l) && SetupStep(th.pc, l, s, c).Some?
    ensures Guarantee(s, t, th, lid, l, c, SetupStep(th.pc, l, s, c).value)
  {
  }

  lemma RevalidateGuarantee(s: State, t: Tid, th: Thread, lid: nat, l: Lease, c: Choice)
    requires th.pc.Revalidating?
    requires Fits(s, t, th, lid, l) && SetupStep(th.pc, l, s, c).Some?
    ensures Guarantee(s, t, th, lid, l, c, SetupStep(th.pc, l, s, c).value)
  {
    if SetupStep(th.pc, l, s, c).value.pc.Activating? {
      ReadableGuarantee(s, t, th, lid, l, c);
    } else {
      UnreadableGuarantee(s, t, th, lid, l, c);
    }
  }

  lemma ReadableGuarantee(s: State, t: Tid, th: Thread, lid: nat, l: Lease, c: Choice)
    requires th.pc.Revalidating? && l.session.conn.Some? && c.Row? && Readable(c.row, l.session.store)
    requires Fits(s, t, th, lid, l) && SetupStep(th.pc, l, s, c).Some?
    ensures Guarantee(s, t, th, lid, l, c, SetupStep(th.pc, l, s, c).value)
  {
  }

  lemma UnreadableGuarantee(s: State, t: Tid, th: Thread, lid: nat, l: Lease, c: Choice)
    requires th.pc.Revalidating? && !(l.session.conn.Some? && c.Row? && Readable(c.row, l.session.store))
    requires Fits(s, t, th, lid, l) && SetupStep(th.pc, l, s, c).Some?
    ensures Guarantee(s, t, th, lid, l, c, SetupStep(th.pc, l, s, c).value)
  {
    if l.session.conn.Some? && c.Row? {
      assert SetupStep(th.pc, l, s, c).value.pc == Failing(lid, NotReady);
    } else {
      assert SetupStep(th.pc, l, s, c).value.pc == Failing(lid, OtherError);
    }
  }

  lemma ActivateGuarantee(s: State, t: Tid, th: Thread, lid: nat, l: Lease, c: Choice)
    requires th.pc.Activating?
    requires Fits(s, t, th, lid, l) && SetupStep(th.pc, l, s, c).Some?
    ensures Guarantee(s, t, th, lid, l, c, SetupStep(th.pc, l, s, c).value)
  {
  }

  lemma FailGuarantee(s: State, t: Tid, th: Thread, lid: nat, l: Lease, c: Choice)
    requires th.pc.Failing?
    requires Fits(s, t, th, lid, l) && FailStep(th.pc, l, s, c).Some?
    ensures Guarantee(s, t, th, lid, l, c, FailStep(th.pc, l, s, c).value)
  {
  }

  lemma FailUnregisterGuarantee(s: State, t: Tid, th: Thread, lid: nat, l: Lease, c: Choice)
    requires th.pc.FailUnregistering?
    requires Fits(s, t, th, lid, l) && FailStep(th.pc, l, s, c).Some?
    ensures Guarantee(s, t, th, lid, l, c, FailStep(th.pc, l, s, c).value)
  {
  }

  lemma FailReleaseGuarantee(s: State, t: Tid, th: Thread, lid: nat, l: Lease, c: Choice)
    requires th.pc.FailReleasing?
    requires Fits(s, t, th, lid, l) && FailStep(th.pc, l, s, c).Some?
    ensures Guarantee(s, t, th, lid, l, c, FailStep(th.pc, l, s, c).value)
  {
    var gate := Gate(l.session.store);
    assert multiset{gate} - multiset{gate} == multiset{};
  }

  lemma ReturnedOk(idle: multiset<Conn>, session: Session)
    requires IdleOk(idle) && (session.conn.Some? ==> session.conn.value.held == multiset{})
    ensures IdleOk(Returned(idle, session))
  {
  }

  lemma FailCloseGuarantee(s: State, t: Tid, th: Thread, lid: nat, l: Lease, c: Choice)
    requires th.pc.FailClosing?
    requires Fits(s, t, th, lid, l) && FailStep(th.pc, l, s, c).Some?
    ensures Guarantee(s, t, th, lid, l, c, FailStep(th.pc, l, s, c).value)
  {
    ReturnedOk(s.idle, l.session);
  }

  lemma FailLeaveGuarantee(s: State, t: Tid, th: Thread, lid: nat, l: Lease, c: Choice)
    requires th.pc.FailLeaving?
    requires Fits(s, t, th, lid, l) && FailStep(th.pc, l, s, c).Some?
    ensures Guarantee(s, t, th, lid, l, c, FailStep(th.pc, l, s, c).value)
  {
  }

  lemma LeaveGuarantee(s: State, t: Tid, th: Thread, lid: nat, l: Lease, c: Choice)
    requires th.pc.Waiting? && (l.state.INITIALIZING? || l.state.FAILED?)
    requires Fits(s, t, th, lid, l) && WaitStep(th.pc, l, s, c).Some?
    ensures Guarantee(s, t, th, lid, l, c, WaitStep(th.pc, l, s, c).value)
  {
  }

  lemma WaitGuarantee(s: State, t: Tid, th: Thread, lid: nat, l: Lease, c: Choice)
    requires th.pc.Waiting?
    requires Fits(s, t, th, lid, l) && WaitStep(th.pc, l, s, c).Some?
    ensures Guarantee(s, t, th, lid, l, c, WaitStep(th.pc, l, s, c).value)
  {
    if l.state.INITIALIZING? || l.state.FAILED? { LeaveGuarantee(s, t, th, lid, l, c); }
  }

  lemma MaterializeGuarantee(s: State, t: Tid, th: Thread, lid: nat, l: Lease, c: Choice)
    requires th.pc.Materializing?
    requires Fits(s, t, th, lid, l) && WaitStep(th.pc, l, s, c).Some?
    ensures Guarantee(s, t, th, lid, l, c, WaitStep(th.pc, l, s, c).value)
  {
  }

  lemma ExitGuarantee(s: State, t: Tid, th: Thread, lid: nat, l: Lease, c: Choice)
    requires th.pc.ExitingLease?
    requires Fits(s, t, th, lid, l) && ExitStep(th.pc, l, s, t, c).Some?
    ensures Guarantee(s, t, th, lid, l, c, ExitStep(th.pc, l, s, t, c).value)
  {
  }

  lemma UnregisterGuarantee(s: State, t: Tid, th: Thread, lid: nat, l: Lease, c: Choice)
    requires th.pc.Unregistering?
    requires Fits(s, t, th, lid, l) && ExitStep(th.pc, l, s, t, c).Some?
    ensures Guarantee(s, t, th, lid, l, c, ExitStep(th.pc, l, s, t, c).value)
  {
  }

  lemma ReleaseGuarantee(s: State, t: Tid, th: Thread, lid: nat, l: Lease, c: Choice)
    requires th.pc.Unlocking?
    requires Fits(s, t, th, lid, l) && ExitStep(th.pc, l, s, t, c).Some?
    ensures Guarantee(s, t, th, lid, l, c, ExitStep(th.pc, l, s, t, c).value)
  {
    var gate := Gate(l.session.store);
    assert multiset{gate} - multiset{gate} == multiset{};
  }

  lemma CloseGuarantee(s: State, t: Tid, th: Thread, lid: nat, l: Lease, c: Choice)
    requires th.pc.ReturningConn?
    requires Fits(s, t, th, lid, l) && ExitStep(th.pc, l, s, t, c).Some?
    ensures Guarantee(s, t, th, lid, l, c, ExitStep(th.pc, l, s, t, c).value)
  {
    ReturnedOk(s.idle, l.session);
  }

  lemma SetupGuarantee(s: State, t: Tid, th: Thread, lid: nat, l: Lease, c: Choice)
    requires HasLease(th.pc) && Setup(th.pc)
    requires Fits(s, t, th, lid, l) && SetupStep(th.pc, l, s, c).Some?
    ensures Guarantee(s, t, th, lid, l, c, SetupStep(th.pc, l, s, c).value)
  {
    match th.pc
    case Connecting(_) => CheckoutGuarantee(s, t, th, lid, l, c);
    case LockingAdmission(_) => LockAdmissionGuarantee(s, t, th, lid, l, c);
    case LockingGate(_) => LockGateGuarantee(s, t, th, lid, l, c);
    case UnlockingAdmission(_, None) => UnlockAdmissionGuarantee(s, t, th, lid, l, c);
    case UnlockingAdmission(_, Some(_)) => UnlockAfterErrorGuarantee(s, t, th, lid, l, c);
    case Aborting(_, _) => AbortGuarantee(s, t, th, lid, l, c);
    case AbortClosing(_, _) => AbortCloseGuarantee(s, t, th, lid, l, c);
    case Revalidating(_) => RevalidateGuarantee(s, t, th, lid, l, c);
    case Activating(_) => ActivateGuarantee(s, t, th, lid, l, c);
  }

  lemma FailedGuarantee(s: State, t: Tid, th: Thread, lid: nat, l: Lease, c: Choice)
    requires HasLease(th.pc) && Failed(th.pc)
    requires Fits(s, t, th, lid, l) && FailStep(th.pc, l, s, c).Some?
    ensures Guarantee(s, t, th, lid, l, c, FailStep(th.pc, l, s, c).value)
  {
    match th.pc
    case Failing(_, _) => FailGuarantee(s, t, th, lid, l, c);
    case FailUnregistering(_, _) => FailUnregisterGuarantee(s, t, th, lid, l, c);
    case FailReleasing(_, _) => FailReleaseGuarantee(s, t, th, lid, l, c);
    case FailClosing(_, _) => FailCloseGuarantee(s, t, th, lid, l, c);
    case FailLeaving(_, _) => FailLeaveGuarantee(s, t, th, lid, l, c);
  }

  lemma ExitsGuarantee(s: State, t: Tid, th: Thread, lid: nat, l: Lease, c: Choice)
    requires HasLease(th.pc) && Exits(th.pc)
    requires Fits(s, t, th, lid, l) && ExitStep(th.pc, l, s, t, c).Some?
    ensures Guarantee(s, t, th, lid, l, c, ExitStep(th.pc, l, s, t, c).value)
  {
    match th.pc
    case ExitingLease(_, _) => ExitGuarantee(s, t, th, lid, l, c);
    case Unregistering(_, _) => UnregisterGuarantee(s, t, th, lid, l, c);
    case Unlocking(_, _) => ReleaseGuarantee(s, t, th, lid, l, c);
    case ReturningConn(_, _) => CloseGuarantee(s, t, th, lid, l, c);
  }

  lemma StepGuarantee(s: State, t: Tid, th: Thread, lid: nat, l: Lease, c: Choice)
    requires Fits(s, t, th, lid, l) && Step(th.pc, l, s, t, c).Some?
    ensures Guarantee(s, t, th, lid, l, c, Step(th.pc, l, s, t, c).value)
  {
    if Setup(th.pc) {
      SetupGuarantee(s, t, th, lid, l, c);
    } else if Failed(th.pc) {
      FailedGuarantee(s, t, th, lid, l, c);
    } else if Exits(th.pc) {
      ExitsGuarantee(s, t, th, lid, l, c);
    } else if th.pc.Waiting? {
      WaitGuarantee(s, t, th, lid, l, c);
    } else {
      MaterializeGuarantee(s, t, th, lid, l, c);
    }
  }

  /** Another thread of the same lease keeps its footing. */
  lemma OtherThreadKeeps(t: Tid, u: Tid, th: Thread, lid: nat, l: Lease, l': Lease, exclusive: set<LockId>)
    requires u != t && HasLease(th.pc) && th.pc.lid == lid
    requires ThreadOk(u, th, l) && LeaseOk(l, exclusive) && Undisturbed(t, l, l')
    requires HoldsRef(th.pc, lid) ==> l'.refCount >= 1
    ensures ThreadOk(u, th, l')
  {
  }
}
