/** The invariant holds in every state of every run, and what follows for readers, writers,
    connections, admission and shutdown. */
module GateSafety {
  import opened Wrappers
  import opened ReaderGateSpec
  import opened GateProtocol
  import opened GateInvariant

  // ---------------------------------------------------------------- a lease step keeps Inv

  /** The state after thread `t` took a lease step with effect `e`. */
  function After(s: State, t: Tid, lid: nat, e: Effect): State
    requires t in s.threads && lid < |s.leases|
  {
    Goto(s, t, e.pc).(leases := s.leases[lid := e.lease], idle := e.idle, registry := e.registry)
  }

  /** Thread `t` is on lease `lid`, or about to join it, and its step is guaranteed. */
  predicate Guaranteed(s: State, t: Tid, lid: nat, c: Choice, e: Effect) {
    && Inv(s) && t in s.threads && Counted(s.threads[t].pc) && lid < |s.leases|
    && (HasLease(s.threads[t].pc) ==> s.threads[t].pc.lid == lid)
    && Guarantee(s, t, s.threads[t], lid, s.leases[lid], c, e)
  }

  lemma CountsAfter(s: State, t: Tid, lid: nat, c: Choice, e: Effect)
    requires Guaranteed(s, t, lid, c, e)
    ensures CountsOk(After(s, t, lid, e))
  {
    var th' := s.threads[t].(pc := e.pc);
    var s' := After(s, t, lid, e);
    forall i | 0 <= i < |s'.leases| ensures s'.leases[i].refCount == |Holders(s'.threads, i)| {
      CountUpdate(s.threads, t, th', i);
    }
    CountUpdate(s.threads, t, th', lid);
  }

  lemma ThreadsAfter(s: State, t: Tid, lid: nat, c: Choice, e: Effect)
    requires Guaranteed(s, t, lid, c, e) && CountsOk(After(s, t, lid, e))
    ensures ThreadsOk(After(s, t, lid, e))
  {
    var s' := After(s, t, lid, e);
    forall u | u in s'.threads && HasLease(s'.threads[u].pc)
      ensures s'.threads[u].pc.lid < |s'.leases|
      ensures ThreadOk(u, s'.threads[u], s'.leases[s'.threads[u].pc.lid])
    {
      if u != t {
        var th := s.threads[u];
        assert s'.threads[u] == th;
        assert th.pc.lid < |s.leases| && ThreadOk(u, th, s.leases[th.pc.lid]);
        if th.pc.lid == lid {
          if HoldsRef(th.pc, lid) { HolderCounts(s'.threads, u, lid); }
          OtherThreadKeeps(t, u, th, lid, s.leases[lid], e.lease, s.exclusive);
        }
      }
    }
  }

  lemma DriversAfter(s: State, t: Tid, lid: nat, c: Choice, e: Effect)
    requires Guaranteed(s, t, lid, c, e)
    ensures DriversOk(After(s, t, lid, e))
  {
    var s' := After(s, t, lid, e);
    forall i | 0 <= i < |s'.leases| && s'.leases[i].driver.Some?
      ensures s'.leases[i].driver.value in s'.threads && Drives(s'.threads[s'.leases[i].driver.value].pc, i)
    {
      var d := s'.leases[i].driver.value;
      if i != lid || d != t {
        assert s.leases[i].driver == Some(d);
        assert Drives(s.threads[d].pc, i);
      }
    }
  }

  /** An entry of the table after the step was there before it, under the key of its lease. */
  lemma EntryBefore(s: State, t: Tid, lid: nat, c: Choice, e: Effect, i: nat)
    requires Guaranteed(s, t, lid, c, e) && i in e.registry.Values
    ensures i in s.registry.Values && i < |s.leases|
    ensures i == lid ==> e.registry != Unregister(s.registry, s.leases[lid].key, lid)
  {
    var k :| k in e.registry && e.registry[k] == i;
    assert k in s.registry && s.registry[k] == i;
    assert s.leases[i].key == k;
  }

  lemma DeadOneAfter(s: State, t: Tid, lid: nat, c: Choice, e: Effect, i: nat)
    requires Guaranteed(s, t, lid, c, e)
    requires var s' := After(s, t, lid, e); i < |s'.leases| && Dead(s'.leases[i]) && i in s'.registry.Values
    ensures var s' := After(s, t, lid, e);
            s'.leases[i].driver.Some? && s'.leases[i].driver.value in s'.threads
            && AtUnregister(s'.threads[s'.leases[i].driver.value].pc)
  {
    EntryBefore(s, t, lid, c, e, i);
  }

  lemma DeadAfter(s: State, t: Tid, lid: nat, c: Choice, e: Effect)
    requires Guaranteed(s, t, lid, c, e)
    ensures DeadOk(After(s, t, lid, e))
  {
    var s' := After(s, t, lid, e);
    forall i | 0 <= i < |s'.leases| && Dead(s'.leases[i]) && i in s'.registry.Values
      ensures s'.leases[i].driver.Some? && s'.leases[i].driver.value in s'.threads
      ensures AtUnregister(s'.threads[s'.leases[i].driver.value].pc)
    {
      DeadOneAfter(s, t, lid, c, e, i);
    }
  }

  lemma LeasesAfter(s: State, t: Tid, lid: nat, c: Choice, e: Effect)
    requires Guaranteed(s, t, lid, c, e)
    ensures var s' := After(s, t, lid, e); LeasesOk(s') && IdleOk(s'.idle) && DrainOk(s')
  {
  }

  lemma RegistryAfter(s: State, t: Tid, lid: nat, c: Choice, e: Effect)
    requires Guaranteed(s, t, lid, c, e)
    ensures RegistryOk(After(s, t, lid, e))
  {
    forall k | k in e.registry ensures k in s.registry && s.registry[k] == e.registry[k] {
    }
  }

  lemma LeaseStepPreserves(s: State, t: Tid, lid: nat, c: Choice, e: Effect)
    requires Guaranteed(s, t, lid, c, e)
    ensures Inv(After(s, t, lid, e))
  {
    CountsAfter(s, t, lid, c, e);
    ThreadsAfter(s, t, lid, c, e);
    DriversAfter(s, t, lid, c, e);
    DeadAfter(s, t, lid, c, e);
    LeasesAfter(s, t, lid, c, e);
    RegistryAfter(s, t, lid, c, e);
  }

  /** In a state that satisfies Inv, a lease step's thread and lease fit together. */
  lemma FitsOf(s: State, t: Tid)
    requires Inv(s) && t in s.threads && HasLease(s.threads[t].pc)
    ensures s.threads[t].pc.lid < |s.leases|
    ensures Fits(s, t, s.threads[t], s.threads[t].pc.lid, s.leases[s.threads[t].pc.lid])
  {
    var lid := s.threads[t].pc.lid;
    if HoldsRef(s.threads[t].pc, lid) { HolderCounts(s.threads, t, lid); }
  }

  lemma LeaseStepKeepsInv(s: State, t: Tid, c: Choice, s': State)
    requires Inv(s) && NextBy(s, LeaseStep(t, c), s')
    ensures Inv(s')
    ensures s' == After(s, t, s.threads[t].pc.lid, Step(s.threads[t].pc, s.leases[s.threads[t].pc.lid], s, t, c).value)
    ensures Guaranteed(s, t, s.threads[t].pc.lid, c,
                       Step(s.threads[t].pc, s.leases[s.threads[t].pc.lid], s, t, c).value)
  {
    FitsOf(s, t);
    var lid := s.threads[t].pc.lid;
    StepGuarantee(s, t, s.threads[t], lid, s.leases[lid], c);
    LeaseStepPreserves(s, t, lid, c, Step(s.threads[t].pc, s.leases[lid], s, t, c).value);
  }

  // ---------------------------------------------------------------- the other steps

  lemma PlainCounts(s: State, t: Tid, th: Thread, permits: int, active: int, s': State)
    requires CountsOk(s) && t in s.threads && !HasLease(s.threads[t].pc) && !HasLease(th.pc)
    requires permits == s.permits + One(HoldsPermit(s.threads[t].pc)) - One(HoldsPermit(th.pc)) >= 0
    requires active == s.life.active - One(Counted(s.threads[t].pc)) + One(Counted(th.pc))
    requires s' == s.(threads := s.threads[t := th], permits := permits, life := s.life.(active := active))
    ensures CountsOk(s')
  {
    forall i: nat { CountUpdate(s.threads, t, th, i); }
    CountUpdate(s.threads, t, th, 0);
  }

  /** Steps of a thread that touch no lease: only the thread and the two counters move. */
  lemma PlainStepKeepsInv(s: State, t: Tid, th: Thread, permits: int, active: int, s': State)
    requires Inv(s) && t in s.threads && !HasLease(s.threads[t].pc) && !HasLease(th.pc)
    requires permits == s.permits + One(HoldsPermit(s.threads[t].pc)) - One(HoldsPermit(th.pc)) >= 0
    requires active == s.life.active - One(Counted(s.threads[t].pc)) + One(Counted(th.pc))
    requires s.drained ==> active == 0
    requires s' == s.(threads := s.threads[t := th], permits := permits, life := s.life.(active := active))
    ensures Inv(s')
  {
    PlainCounts(s, t, th, permits, active, s');
    forall i | 0 <= i < |s'.leases| && s'.leases[i].driver.Some?
      ensures s'.leases[i].driver.value in s'.threads && Drives(s'.threads[s'.leases[i].driver.value].pc, i)
    {
      assert Drives(s.threads[s.leases[i].driver.value].pc, i);
    }
  }

  lemma NobodyOnNewLease(s: State)
    requires ThreadsOk(s)
    ensures Holders(s.threads, |s.leases|) == {}
  {
  }

  lemma CreateKeepsCounts(s: State, t: Tid, s': State)
    requires Inv(s) && t in s.threads && s.threads[t].pc.Entered? && s' == Created(s, t)
    ensures CountsOk(s')
  {
    var th' := s.threads[t].(pc := Connecting(|s.leases|));
    NobodyOnNewLease(s);
    forall i: nat { CountUpdate(s.threads, t, th', i); }
    CountUpdate(s.threads, t, th', 0);
  }

  lemma CreateKeepsDrivers(s: State, t: Tid, s': State)
    requires Inv(s) && t in s.threads && s.threads[t].pc.Entered? && s' == Created(s, t)
    ensures DriversOk(s') && DeadOk(s')
  {
    forall i | 0 <= i < |s'.leases| && s'.leases[i].driver.Some?
      ensures s'.leases[i].driver.value in s'.threads && Drives(s'.threads[s'.leases[i].driver.value].pc, i)
    {
      if i < |s.leases| { assert Drives(s.threads[s.leases[i].driver.value].pc, i); }
    }
    forall i | 0 <= i < |s'.leases| && Dead(s'.leases[i]) && i in s'.registry.Values
      ensures s'.leases[i].driver.Some? && AtUnregister(s'.threads[s'.leases[i].driver.value].pc)
    {
      assert i in s.registry.Values;
    }
  }

  lemma CreateKeepsLeases(s: State, t: Tid, s': State)
    requires Inv(s) && t in s.threads && s.threads[t].pc.Entered? && s' == Created(s, t)
    ensures ThreadsOk(s') && LeasesOk(s') && RegistryOk(s')
  {
  }

  lemma CreateKeepsInv(s: State, t: Tid, s': State)
    requires Inv(s) && t in s.threads && s.threads[t].pc.Entered? && s' == Created(s, t)
    ensures Inv(s')
  {
    CreateKeepsCounts(s, t, s');
    CreateKeepsDrivers(s, t, s');
    CreateKeepsLeases(s, t, s');
  }

  lemma JoinGuarantee(s: State, t: Tid, th: Thread, lid: nat, l: Lease)
    requires th.pc.Entered? && Joinable(l) && l.key == th.key && l.driver != Some(t)
    requires LeaseOk(l, s.exclusive) && IdleOk(s.idle) && l.refCount >= 0
    ensures Guarantee(s, t, th, lid, l, Proceed, Effect(Waiting(lid), Join(l), s.idle, s.registry))
  {
  }

  lemma JoinGuaranteed(s: State, t: Tid, lid: nat)
    requires Inv(s) && t in s.threads && s.threads[t].pc.Entered?
    requires lid < |s.leases| && Joinable(s.leases[lid]) && s.leases[lid].key == s.threads[t].key
    ensures Guaranteed(s, t, lid, Proceed, Effect(Waiting(lid), Join(s.leases[lid]), s.idle, s.registry))
  {
    JoinGuarantee(s, t, s.threads[t], lid, s.leases[lid]);
  }

  lemma JoinKeepsInv(s: State, t: Tid, lid: nat, s': State)
    requires Inv(s) && t in s.threads && s.threads[t].pc.Entered?
    requires lid < |s.leases| && Joinable(s.leases[lid]) && s.leases[lid].key == s.threads[t].key
    requires s' == Goto(s, t, Waiting(lid)).(leases := s.leases[lid := Join(s.leases[lid])])
    ensures Inv(s')
  {
    var e := Effect(Waiting(lid), Join(s.leases[lid]), s.idle, s.registry);
    JoinGuaranteed(s, t, lid);
    LeaseStepPreserves(s, t, lid, Proceed, e);
    assert s' == After(s, t, lid, e);
  }

  lemma SharedHolder(s: State, i: nat, l: LockId)
    requires i < |s.leases| && s.leases[i].session.conn.Some? && l in s.leases[i].session.conn.value.held
    ensures HeldShared(s, l)
  {
    assert i in HoldersOf(s, l);
  }

  lemma TakeExclusiveKeepsInv(s: State, x: LockId, s': State)
    requires Inv(s) && NextBy(s, TakeExclusive(x), s')
    ensures Inv(s')
  {
    forall i | 0 <= i < |s.leases| ensures LeaseOk(s'.leases[i], s'.exclusive) {
      assert LeaseOk(s.leases[i], s.exclusive);
      var conn := s.leases[i].session.conn;
      if conn.Some? && x in conn.value.held { SharedHolder(s, i, x); }
    }
  }

  lemma DropExclusiveKeepsInv(s: State, x: LockId, s': State)
    requires Inv(s) && NextBy(s, DropExclusive(x), s')
    ensures Inv(s')
  {
    forall i | 0 <= i < |s.leases| ensures LeaseOk(s'.leases[i], s'.exclusive) {
      assert LeaseOk(s.leases[i], s.exclusive);
    }
  }

  lemma ActiveIsNotDrained(s: State, t: Tid)
    requires Inv(s) && t in s.threads && Counted(s.threads[t].pc)
    ensures !s.drained && s.life.active > 0
  {
    assert t in Active(s.threads);
  }

  lemma CallKeepsInv(s: State, t: Tid, key: Key, s': State)
    requires Inv(s) && NextBy(s, Call(t, key), s')
    ensures Inv(s')
  {
    PlainStepKeepsInv(s, t, Thread(Admitted, key), s.permits - 1, s.life.active, s');
  }

  lemma EnterKeepsInv(s: State, t: Tid, s': State)
    requires Inv(s) && NextBy(s, Enter(t), s')
    ensures Inv(s')
  {
    if s.life.closing {
      PlainStepKeepsInv(s, t, s.threads[t].(pc := Releasing(Some(Closing))), s.permits, s.life.active, s');
    } else {
      PlainStepKeepsInv(s, t, s.threads[t].(pc := Entered), s.permits, s.life.active + 1, s');
    }
  }

  lemma AcquireOrJoinKeepsInv(s: State, t: Tid, withinLifetime: bool, s': State)
    requires Inv(s) && NextBy(s, AcquireOrJoin(t, withinLifetime), s')
    ensures Inv(s')
  {
    var key := s.threads[t].key;
    if key in s.registry && withinLifetime && Joinable(s.leases[s.registry[key]]) {
      JoinKeepsInv(s, t, s.registry[key], s');
    } else {
      CreateKeepsInv(s, t, s');
    }
  }

  lemma RejectKeepsInv(s: State, t: Tid, s': State)
    requires Inv(s) && NextBy(s, RejectPath(t), s')
    ensures Inv(s')
  {
    PlainStepKeepsInv(s, t, s.threads[t].(pc := Leaving(Some(OtherError))), s.permits, s.life.active, s');
  }

  lemma ExitKeepsInv(s: State, t: Tid, s': State)
    requires Inv(s) && NextBy(s, Exit(t), s')
    ensures Inv(s')
  {
    ActiveIsNotDrained(s, t);
    PlainStepKeepsInv(s, t, s.threads[t].(pc := Releasing(s.threads[t].pc.outcome)), s.permits,
                      s.life.active - 1, s');
  }

  lemma ReleaseKeepsInv(s: State, t: Tid, s': State)
    requires Inv(s) && NextBy(s, Release(t), s')
    ensures Inv(s')
  {
    PlainStepKeepsInv(s, t, s.threads[t].(pc := Idle), s.permits + 1, s.life.active, s');
  }

  lemma ShutdownKeepsInv(s: State, a: Action, s': State)
    requires Inv(s) && NextBy(s, a, s') && (a.BeginShutdown? || a.WaitDrainedReturns?)
    ensures Inv(s')
  {
  }

  lemma NextKeepsInv(s: State, a: Action, s': State)
    requires Inv(s) && NextBy(s, a, s')
    ensures Inv(s')
  {
    match a
    case Call(t, key) => CallKeepsInv(s, t, key, s');
    case Enter(t) => EnterKeepsInv(s, t, s');
    case AcquireOrJoin(t, withinLifetime) => AcquireOrJoinKeepsInv(s, t, withinLifetime, s');
    case RejectPath(t) => RejectKeepsInv(s, t, s');
    case LeaseStep(t, c) => LeaseStepKeepsInv(s, t, c, s');
    case Exit(t) => ExitKeepsInv(s, t, s');
    case Release(t) => ReleaseKeepsInv(s, t, s');
    case TakeExclusive(x) => TakeExclusiveKeepsInv(s, x, s');
    case DropExclusive(x) => DropExclusiveKeepsInv(s, x, s');
    case _ => ShutdownKeepsInv(s, a, s');
  }

  lemma InitHolds(s: State)
    requires Init(s)
    ensures Inv(s)
  {
    assert Permitted(s.threads) == {} && Active(s.threads) == {};
  }

  /** Every state of every run satisfies the invariant. */
  lemma {:induction false} RunInvariant(run: seq<State>, i: nat)
    requires Execution(run) && i < |run|
    ensures Inv(run[i])
  {
    if i == 0 {
      InitHolds(run[0]);
    } else {
      RunInvariant(run, i - 1);
      assert StepAt(run, i - 1);
      var a :| NextBy(run[i - 1], a, run[i]);
      NextKeepsInv(run[i - 1], a, run[i]);
    }
  }
}
