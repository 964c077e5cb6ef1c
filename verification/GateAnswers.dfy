/** What the environment may answer a gated call at every position, and what the call ends with. */
module GateAnswers {
  import opened Wrappers
  import opened ReaderGateSpec
  import opened GateProtocol
  import opened GateInvariant
  import opened GateSafety

  // ---------------------------------------------------------------- every answer is possible

  ghost predicate Enabled(s: State, a: Action) {
    exists s' :: NextBy(s, a, s')
  }

  /** Thread `t` can go on with answer `c`. */
  ghost predicate Answers(s: State, t: Tid, c: Choice) {
    Enabled(s, LeaseStep(t, c))
  }

  /** The thread's lease. */
  function LeaseOf(s: State, t: Tid): Lease
    requires t in s.threads && HasLease(s.threads[t].pc) && s.threads[t].pc.lid < |s.leases|
  {
    s.leases[s.threads[t].pc.lid]
  }

  lemma AnswersByStep(s: State, t: Tid, c: Choice)
    requires t in s.threads && HasLease(s.threads[t].pc) && s.threads[t].pc.lid < |s.leases|
    ensures Answers(s, t, c) <==> Step(s.threads[t].pc, LeaseOf(s, t), s, t, c).Some?
  {
    var e := Step(s.threads[t].pc, LeaseOf(s, t), s, t, c);
    if e.Some? {
      assert NextBy(s, LeaseStep(t, c), After(s, t, s.threads[t].pc.lid, e.value));
    }
  }

  lemma RunFits(run: seq<State>, i: nat, t: Tid)
    requires Execution(run) && i < |run| && t in run[i].threads && HasLease(run[i].threads[t].pc)
    ensures run[i].threads[t].pc.lid < |run[i].leases|
    ensures Fits(run[i], t, run[i].threads[t], run[i].threads[t].pc.lid, LeaseOf(run[i], t))
  {
    RunInvariant(run, i);
    FitsOf(run[i], t);
  }

  /** Checkout may raise anything, and hand out any pooled connection or a new one. */
  lemma CheckoutAnswers(run: seq<State>, i: nat, t: Tid, f: Failure, c: Conn)
    requires Execution(run) && i < |run| && t in run[i].threads && run[i].threads[t].pc.Connecting?
    ensures Answers(run[i], t, Raise(f))
    ensures Answers(run[i], t, Checkout(c)) <==> c in run[i].idle || c == Conn(multiset{})
  {
    RunFits(run, i, t);
    AnswersByStep(run[i], t, Raise(f));
    AnswersByStep(run[i], t, Checkout(c));
  }

  /** A lock call may time out or break at any time, and is granted exactly when no writer holds the lock. */
  lemma LockAnswers(run: seq<State>, i: nat, t: Tid, granted: bool)
    requires Execution(run) && i < |run| && t in run[i].threads
    requires run[i].threads[t].pc.LockingAdmission? || run[i].threads[t].pc.LockingGate?
    ensures Answers(run[i], t, LockCall(LockTimeout)) && Answers(run[i], t, LockCall(LockError(granted)))
    ensures var store := run[i].threads[t].key.store;
            var l := if run[i].threads[t].pc.LockingAdmission? then Admission(store) else Gate(store);
            Answers(run[i], t, LockCall(Granted)) <==> l !in run[i].exclusive
  {
    RunFits(run, i, t);
    AnswersByStep(run[i], t, LockCall(LockTimeout));
    AnswersByStep(run[i], t, LockCall(LockError(granted)));
    AnswersByStep(run[i], t, LockCall(Granted));
  }

  lemma UnlockFits(s: State, t: Tid, th: Thread, lid: nat, l: Lease, o: UnlockOutcome)
    requires Fits(s, t, th, lid, l) && (th.pc.UnlockingAdmission? || th.pc.FailReleasing? || th.pc.Unlocking?)
    ensures Step(th.pc, l, s, t, UnlockCall(o)).Some?
  {
  }

  /** An unlock call may be confirmed, refused or break, wherever one is made. */
  lemma UnlockAnswers(run: seq<State>, i: nat, t: Tid, o: UnlockOutcome)
    requires Execution(run) && i < |run| && t in run[i].threads
    requires var pc := run[i].threads[t].pc; pc.UnlockingAdmission? || pc.FailReleasing? || pc.Unlocking?
    ensures Answers(run[i], t, UnlockCall(o))
  {
    RunFits(run, i, t);
    AnswersByStep(run[i], t, UnlockCall(o));
    UnlockFits(run[i], t, run[i].threads[t], run[i].threads[t].pc.lid, LeaseOf(run[i], t), o);
  }

  /** The query may read any row or none and may raise. */
  lemma QueryAnswers(run: seq<State>, i: nat, t: Tid, row: Option<RunRow>, f: Failure)
    requires Execution(run) && i < |run| && t in run[i].threads && run[i].threads[t].pc.Revalidating?
    ensures Answers(run[i], t, Row(row)) && Answers(run[i], t, Raise(f))
  {
    RunFits(run, i, t);
    AnswersByStep(run[i], t, Row(row));
    AnswersByStep(run[i], t, Raise(f));
  }

  /** The callback may return or raise anything. */
  lemma CallbackAnswers(run: seq<State>, i: nat, t: Tid, f: Failure)
    requires Execution(run) && i < |run| && t in run[i].threads && run[i].threads[t].pc.Materializing?
    ensures Answers(run[i], t, Proceed) && Answers(run[i], t, Raise(f))
  {
    RunFits(run, i, t);
    AnswersByStep(run[i], t, Proceed);
    AnswersByStep(run[i], t, Raise(f));
  }

  predicate NeedsNoAnswer(pc: Pc) {
    pc.Aborting? || pc.AbortClosing? || pc.Activating? || pc.Failing? || pc.FailUnregistering? || pc.FailClosing?
    || pc.FailLeaving? || pc.Waiting? || pc.ExitingLease? || pc.Unregistering? || pc.ReturningConn?
  }

  lemma PlainFits(s: State, t: Tid, th: Thread, lid: nat, l: Lease)
    requires Fits(s, t, th, lid, l) && NeedsNoAnswer(th.pc)
    ensures Step(th.pc, l, s, t, Proceed).Some?
  {
  }

  /** All other positions of a lease go on by themselves. */
  lemma PlainAnswers(run: seq<State>, i: nat, t: Tid)
    requires Execution(run) && i < |run| && t in run[i].threads && NeedsNoAnswer(run[i].threads[t].pc)
    ensures Answers(run[i], t, Proceed)
  {
    RunFits(run, i, t);
    AnswersByStep(run[i], t, Proceed);
    PlainFits(run[i], t, run[i].threads[t], run[i].threads[t].pc.lid, LeaseOf(run[i], t));
  }

  /** A waiter may run out of time exactly while its lease is being set up, and then some thread is at it. */
  lemma WaiterAnswers(run: seq<State>, i: nat, t: Tid)
    requires Execution(run) && i < |run| && t in run[i].threads && run[i].threads[t].pc.Waiting?
    ensures var lid := run[i].threads[t].pc.lid;
            && lid < |run[i].leases|
            && (Answers(run[i], t, Deadline) <==> run[i].leases[lid].state == INITIALIZING)
            && (run[i].leases[lid].state == INITIALIZING ==>
                  exists u <- run[i].threads :: Drives(run[i].threads[u].pc, lid))
  {
    RunFits(run, i, t);
    AnswersByStep(run[i], t, Deadline);
    if LeaseOf(run[i], t).state == INITIALIZING { SetterUp(run, i, run[i].threads[t].pc.lid); }
  }

  lemma SetterUp(run: seq<State>, i: nat, lid: nat)
    requires Execution(run) && i < |run| && lid < |run[i].leases| && run[i].leases[lid].state == INITIALIZING
    ensures exists u <- run[i].threads :: Drives(run[i].threads[u].pc, lid)
  {
    RunInvariant(run, i);
    assert Drives(run[i].threads[run[i].leases[lid].driver.value].pc, lid);
  }

  /** Outside a lease a call always goes on, a new one when a permit is left. */
  lemma CallAnswers(s: State, t: Tid, key: Key, withinLifetime: bool)
    requires t in s.threads
    ensures s.threads[t].pc.Idle? ==> (Enabled(s, Call(t, key)) <==> s.permits > 0)
    ensures s.threads[t].pc.Admitted? ==> Enabled(s, Enter(t))
    ensures s.threads[t].pc.Entered? ==> Enabled(s, AcquireOrJoin(t, withinLifetime)) && Enabled(s, RejectPath(t))
    ensures s.threads[t].pc.Leaving? ==> Enabled(s, Exit(t))
    ensures s.threads[t].pc.Releasing? ==> Enabled(s, Release(t))
  {
    match s.threads[t].pc
    case Idle =>
      if s.permits > 0 {
        assert NextBy(s, Call(t, key), s.(permits := s.permits - 1, threads := s.threads[t := Thread(Admitted, key)]));
      }
    case Admitted =>
      assert NextBy(s, Enter(t), if s.life.closing then Goto(s, t, Releasing(Some(Closing)))
                                 else Goto(s, t, Entered).(life := EnterCall(s.life)));
    case Entered =>
      assert NextBy(s, AcquireOrJoin(t, withinLifetime), AcquireOrJoinLease(s, t, withinLifetime));
      assert NextBy(s, RejectPath(t), Goto(s, t, Leaving(Some(OtherError))));
    case Leaving(o) => assert NextBy(s, Exit(t), Goto(s, t, Releasing(o)).(life := ExitCall(s.life)));
    case Releasing(_) => assert NextBy(s, Release(t), Goto(s, t, Idle).(permits := s.permits + 1));
    case _ =>
  }

  lemma HeldSomewhere(s: State, l: LockId)
    ensures HeldShared(s, l) <==>
              || (exists i | 0 <= i < |s.leases| :: s.leases[i].session.conn.Some?
                                                    && l in s.leases[i].session.conn.value.held)
              || (exists c <- s.idle :: l in c.held)
  {
    if i :| 0 <= i < |s.leases| && s.leases[i].session.conn.Some? && l in s.leases[i].session.conn.value.held {
      assert i in HoldersOf(s, l);
    }
    if HoldersOf(s, l) != {} {
      var i :| i in HoldersOf(s, l);
    }
  }

  /** A writer gets a lock exactly when nobody holds it, shared or exclusive. */
  lemma WriterAnswers(s: State, l: LockId)
    ensures Enabled(s, TakeExclusive(l)) <==>
              && l !in s.exclusive
              && !(exists i | 0 <= i < |s.leases| :: s.leases[i].session.conn.Some?
                                                     && l in s.leases[i].session.conn.value.held)
              && !(exists c <- s.idle :: l in c.held)
    ensures Enabled(s, DropExclusive(l))
  {
    HeldSomewhere(s, l);
    assert NextBy(s, DropExclusive(l), s.(exclusive := s.exclusive - {l}));
    if l !in s.exclusive && !HeldShared(s, l) {
      assert NextBy(s, TakeExclusive(l), s.(exclusive := s.exclusive + {l}));
    }
  }

  /** A call joins the lease registered for its key exactly while that is young and not dead; otherwise it
      registers a new one and sets it up. */
  lemma JoinsOrCreates(run: seq<State>, i: nat, t: Tid, withinLifetime: bool, s': State)
    requires Execution(run) && i < |run| && NextBy(run[i], AcquireOrJoin(t, withinLifetime), s')
    ensures var s, key := run[i], run[i].threads[t].key;
            var lid := if key in s.registry then s.registry[key] else |s.leases|;
            if lid < |s.leases| && withinLifetime
               && (s.leases[lid].state == INITIALIZING || s.leases[lid].state == ACTIVE) then
              && s'.threads[t].pc == Waiting(lid) && |s'.leases| == |s.leases| && s'.registry == s.registry
              && s'.leases[lid].refCount == s.leases[lid].refCount + 1
            else
              && s'.threads[t].pc == Connecting(|s.leases|) && |s'.leases| == |s.leases| + 1
              && s'.registry == s.registry[key := |s.leases|]
              && s'.leases[|s.leases|].key == key && s'.leases[|s.leases|].state == INITIALIZING
              && s'.leases[|s.leases|].refCount == 1
  {
    RunInvariant(run, i);
  }

  lemma NobodyInside(run: seq<State>, i: nat)
    requires Execution(run) && i < |run|
    ensures run[i].life.active <= 0 <==> forall t <- run[i].threads :: !Counted(run[i].threads[t].pc)
  {
    RunInvariant(run, i);
    var inside := Active(run[i].threads);
    if run[i].life.active <= 0 {
      assert inside == {};
      forall t | t in run[i].threads ensures !Counted(run[i].threads[t].pc) {
        assert t !in inside;
      }
    } else {
      assert inside != {};
      var t :| t in inside;
      assert Counted(run[i].threads[t].pc);
    }
  }

  /** Shutdown may begin at any time, and its wait may return exactly when no call is inside. */
  lemma ShutdownAnswers(run: seq<State>, i: nat)
    requires Execution(run) && i < |run|
    ensures Enabled(run[i], BeginShutdown)
    ensures Enabled(run[i], WaitDrainedReturns) <==> forall t <- run[i].threads :: !Counted(run[i].threads[t].pc)
  {
    NobodyInside(run, i);
    var s := run[i];
    assert NextBy(s, BeginShutdown, s.(life := StartClosing(s.life)));
    if s.life.active <= 0 { assert NextBy(s, WaitDrainedReturns, s.(drained := s.drained || s.life.closing)); }
  }

  // ---------------------------------------------------------------- what a call ends with

  /** What a call will raise, or None for a value, from the moment that is settled. */
  function Settled(pc: Pc): Option<Option<Failure>> {
    match pc
    case UnlockingAdmission(_, Some(f)) => Some(Some(f))
    case Aborting(_, f) => Some(Some(f))
    case AbortClosing(_, f) => Some(Some(f))
    case Failing(_, f) => Some(Some(f))
    case FailUnregistering(_, f) => Some(Some(f))
    case FailReleasing(_, f) => Some(Some(f))
    case FailClosing(_, f) => Some(Some(f))
    case FailLeaving(_, f) => Some(Some(f))
    case ExitingLease(_, o) => Some(o)
    case Unregistering(_, o) => Some(o)
    case Unlocking(_, o) => Some(o)
    case ReturningConn(_, o) => Some(o)
    case Leaving(o) => Some(o)
    case Releasing(o) => Some(o)
    case _ => None
  }

  lemma SetupKeepsSettled(pc: Pc, l: Lease, s: State, c: Choice)
    requires Setup(pc) && Settled(pc).Some? && SetupStep(pc, l, s, c).Some?
    ensures Settled(SetupStep(pc, l, s, c).value.pc) == Settled(pc)
  {
  }

  lemma FailKeepsSettled(pc: Pc, l: Lease, s: State, c: Choice)
    requires Failed(pc) && FailStep(pc, l, s, c).Some?
    ensures Settled(FailStep(pc, l, s, c).value.pc) == Settled(pc)
  {
  }

  lemma StepKeepsSettled(pc: Pc, l: Lease, s: State, t: Tid, c: Choice)
    requires HasLease(pc) && Settled(pc).Some? && Step(pc, l, s, t, c).Some?
    ensures Settled(Step(pc, l, s, t, c).value.pc) == Settled(pc)
  {
    if Setup(pc) {
      SetupKeepsSettled(pc, l, s, c);
    } else if Failed(pc) {
      FailKeepsSettled(pc, l, s, c);
    } else {
      assert Settled(ExitStep(pc, l, s, t, c).value.pc) == Settled(pc);
    }
  }

  /** Once settled it stays so until the call is over. */
  lemma SettledStays(s: State, a: Action, s': State, t: Tid)
    requires t in s.threads && Settled(s.threads[t].pc).Some? && NextBy(s, a, s')
    ensures t in s'.threads && (Settled(s'.threads[t].pc) == Settled(s.threads[t].pc) || s'.threads[t].pc.Idle?)
  {
    match a
    case LeaseStep(u, c) =>
      if u == t { StepKeepsSettled(s.threads[t].pc, s.leases[s.threads[t].pc.lid], s, t, c); }
    case _ =>
  }

  lemma {:induction false} SettledUntil(run: seq<State>, i: nat, j: nat, t: Tid)
    requires Execution(run) && i <= j < |run|
    requires forall m | i <= m <= j :: t in run[m].threads && !run[m].threads[t].pc.Idle?
    requires Settled(run[i].threads[t].pc).Some?
    ensures Settled(run[j].threads[t].pc) == Settled(run[i].threads[t].pc)
  {
    if i == j {
    } else {
      SettledUntil(run, i, j - 1, t);
      assert StepAt(run, j - 1);
      var a :| NextBy(run[j - 1], a, run[j]);
      SettledStays(run[j - 1], a, run[j], t);
    }
  }

  lemma Moves(s: State, t: Tid, c: Choice, s': State)
    requires NextBy(s, LeaseStep(t, c), s')
    ensures t in s.threads && HasLease(s.threads[t].pc) && s.threads[t].pc.lid < |s.leases| && t in s'.threads
    ensures var e := Step(s.threads[t].pc, LeaseOf(s, t), s, t, c); e.Some? && s'.threads[t].pc == e.value.pc
  {
  }

  lemma SetupSettles(pc: Pc, l: Lease, s: State, c: Choice)
    requires Setup(pc) && Settled(pc).None? && SetupStep(pc, l, s, c).Some?
    ensures var pc' := SetupStep(pc, l, s, c).value.pc; var o := Settled(pc');
            && (pc.Connecting? ==> o == if c.Raise? then Some(Some(c.failure)) else None)
            && (pc.LockingAdmission? || pc.LockingGate? ==>
                  && c.LockCall?
                  && o == if c.lock.Granted? then None
                          else Some(Some(if c.lock.LockTimeout? then GateTimeout else OtherError)))
            && (pc.Revalidating? ==>
                  o == if pc'.Activating? then None
                       else Some(Some(if c.Row? && l.session.conn.Some? then NotReady else OtherError)))
            && (pc.UnlockingAdmission? || pc.Activating? ==> o == None)
  {
  }

  /** What settles the outcome of a creator: the deadline or the pool before checkout, a lock call that
      timed out or broke, and a run that is not readable; an error while revalidating stays unnamed. */
  lemma CreatorSettles(s: State, t: Tid, c: Choice, s': State)
    requires NextBy(s, LeaseStep(t, c), s') && Setup(s.threads[t].pc) && Settled(s.threads[t].pc).None?
    ensures t in s'.threads && s.threads[t].pc.lid < |s.leases|
    ensures var pc, o := s.threads[t].pc, Settled(s'.threads[t].pc);
            && (pc.Connecting? ==> o == if c.Raise? then Some(Some(c.failure)) else None)
            && (pc.LockingAdmission? || pc.LockingGate? ==>
                  && c.LockCall?
                  && o == if c.lock.Granted? then None
                          else Some(Some(if c.lock.LockTimeout? then GateTimeout else OtherError)))
            && (pc.Revalidating? ==>
                  o == if s'.threads[t].pc.Activating? then None
                       else Some(Some(if c.Row? && s.leases[pc.lid].session.conn.Some? then NotReady else OtherError)))
            && (pc.UnlockingAdmission? || pc.Activating? ==> o == None)
  {
    Moves(s, t, c, s');
    SetupSettles(s.threads[t].pc, LeaseOf(s, t), s, c);
  }

  /** What settles the outcome of a joiner: its deadline, or the failure of the lease it waited for, of
      which it repeats a missing run and a timeout and reports anything else as an error of its own. */
  lemma JoinerSettles(s: State, t: Tid, c: Choice, s': State)
    requires NextBy(s, LeaseStep(t, c), s') && s.threads[t].pc.Waiting?
    ensures t in s'.threads && s.threads[t].pc.lid < |s.leases|
    ensures var l := s.leases[s.threads[t].pc.lid];
            Settled(s'.threads[t].pc) ==
            match l.state
            case INITIALIZING => if c.Deadline? then Some(Some(GateTimeout)) else None
            case FAILED => Some(Some(if l.error == Some(NotReady) then NotReady
                                     else if l.error == Some(GateTimeout) then GateTimeout else OtherError))
            case _ => None
    ensures s.leases[s.threads[t].pc.lid].state == ACTIVE ==> s'.threads[t].pc == Materializing(s.threads[t].pc.lid)
  {
    Moves(s, t, c, s');
  }

  /** The callback settles everything else: its value, or what it raised. */
  lemma CallbackSettles(s: State, t: Tid, c: Choice, s': State)
    requires NextBy(s, LeaseStep(t, c), s') && s.threads[t].pc.Materializing?
    ensures t in s'.threads && (c.Raise? || c.Proceed?)
    ensures Settled(s'.threads[t].pc) == Some(if c.Raise? then Some(c.failure) else None)
  {
    Moves(s, t, c, s');
  }

  /** Outside a lease only a closing gate and an impossible path settle an outcome. */
  lemma CallSettles(s: State, a: Action, s': State, t: Tid)
    requires NextBy(s, a, s') && t in s.threads && Settled(s.threads[t].pc).None? && !a.LeaseStep?
    ensures t in s'.threads
    ensures Settled(s'.threads[t].pc) ==
            if a == Enter(t) && s.life.closing then Some(Some(Closing))
            else if a == RejectPath(t) then Some(Some(OtherError)) else None
  {
    match a
    case Call(u, _) => assert u == t ==> s'.threads[t].pc == Admitted;
    case Enter(u) => assert u != t ==> s'.threads[t] == s.threads[t];
    case AcquireOrJoin(u, withinLifetime) => CreatesOrWaits(s, u, withinLifetime, s', t);
    case _ =>
  }

  lemma CreatesOrWaits(s: State, u: Tid, withinLifetime: bool, s': State, t: Tid)
    requires NextBy(s, AcquireOrJoin(u, withinLifetime), s') && t in s.threads && Settled(s.threads[t].pc).None?
    ensures t in s'.threads && Settled(s'.threads[t].pc).None?
  {
  }

  /** A settled outcome is what the call hands out. */
  lemma OutcomeIsHandedOut(run: seq<State>, i: nat, j: nat, t: Tid)
    requires Execution(run) && i <= j < |run|
    requires forall m | i <= m <= j :: t in run[m].threads && !run[m].threads[t].pc.Idle?
    requires Settled(run[i].threads[t].pc).Some? && run[j].threads[t].pc.Releasing?
    ensures run[j].threads[t].pc == Releasing(Settled(run[i].threads[t].pc).value)
  {
    SettledUntil(run, i, j, t);
  }

  /** In step `m` the callback of thread `t` returned. */
  ghost predicate CallbackReturned(run: seq<State>, m: nat, t: Tid) {
    && m + 1 < |run| && t in run[m].threads && run[m].threads[t].pc.Materializing?
    && NextBy(run[m], LeaseStep(t, Proceed), run[m + 1])
  }

  lemma ValueStep(run: seq<State>, k: nat, t: Tid)
    requires Execution(run) && k + 1 < |run| && t in run[k].threads && t in run[k + 1].threads
    requires !run[k].threads[t].pc.Idle? && Settled(run[k + 1].threads[t].pc) == Some(None)
    ensures Settled(run[k].threads[t].pc) == Some(None) || CallbackReturned(run, k, t)
  {
    assert StepAt(run, k);
    var a :| NextBy(run[k], a, run[k + 1]);
    if Settled(run[k].threads[t].pc).Some? {
      SettledStays(run[k], a, run[k + 1], t);
    } else if !a.LeaseStep? {
      CallSettles(run[k], a, run[k + 1], t);
    } else if a.t == t {
      LeaseValueStep(run[k], t, a.choice, run[k + 1]);
    }
  }

  lemma LeaseValueStep(s: State, t: Tid, c: Choice, s': State)
    requires NextBy(s, LeaseStep(t, c), s') && Settled(s.threads[t].pc).None?
    requires Settled(s'.threads[t].pc) == Some(None)
    ensures s.threads[t].pc.Materializing? && c.Proceed?
  {
    if Setup(s.threads[t].pc) {
      CreatorSettles(s, t, c, s');
    } else if s.threads[t].pc.Waiting? {
      JoinerSettles(s, t, c, s');
    } else {
      CallbackSettles(s, t, c, s');
    }
  }

  lemma {:induction false} ValueFromCallback(run: seq<State>, i: nat, k: nat, t: Tid) returns (m: nat)
    requires Execution(run) && i <= k < |run|
    requires forall m | i <= m <= k :: t in run[m].threads && !run[m].threads[t].pc.Idle?
    requires Settled(run[i].threads[t].pc).None? && Settled(run[k].threads[t].pc) == Some(None)
    ensures i <= m < k && CallbackReturned(run, m, t)
  {
    ValueStep(run, k - 1, t);
    if CallbackReturned(run, k - 1, t) {
      m := k - 1;
    } else {
      m := ValueFromCallback(run, i, k - 1, t);
    }
  }

  /** A call returns a value only if, within it, its callback returned one under the gate. */
  lemma ValuesComeFromCallbacks(run: seq<State>, i: nat, j: nat, t: Tid) returns (m: nat)
    requires Execution(run) && i <= j < |run|
    requires forall m | i <= m <= j :: t in run[m].threads && !run[m].threads[t].pc.Idle?
    requires run[i].threads[t].pc.Admitted? && run[j].threads[t].pc == Releasing(None)
    ensures i <= m < j && run[m].threads[t].pc.Materializing? && NextBy(run[m], LeaseStep(t, Proceed), run[m + 1])
  {
    m := ValueFromCallback(run, i, j, t);
  }

  // ---------------------------------------------------------------- the error of a failed lease

  lemma StepRecords(pc: Pc, l: Lease, s: State, t: Tid, c: Choice)
    requires HasLease(pc) && Step(pc, l, s, t, c).Some?
    ensures var l' := Step(pc, l, s, t, c).value.lease;
            l'.state == FAILED ==>
              if pc.Failing? then l'.error == Some(pc.failure) else l.state == FAILED && l'.error == l.error
  {
    if Setup(pc) {
      assert SetupStep(pc, l, s, c).value.lease.state != FAILED || l.state == FAILED;
    } else if Failed(pc) {
      assert FailStep(pc, l, s, c).Some?;
    } else if Exits(pc) {
      assert ExitStep(pc, l, s, t, c).value.lease.state != FAILED || l.state == FAILED;
    }
  }

  lemma LeaseFailureRecorded(s: State, t: Tid, c: Choice, s': State, lid: nat)
    requires Inv(s) && NextBy(s, LeaseStep(t, c), s') && lid < |s'.leases| && s'.leases[lid].state == FAILED
    ensures lid < |s.leases|
    ensures s.leases[lid].state == FAILED ==> s'.leases[lid].error == s.leases[lid].error
    ensures s.leases[lid].state != FAILED ==>
              s'.leases[lid].error.Some? && s.threads[t].pc == Failing(lid, s'.leases[lid].error.value)
  {
    FitsOf(s, t);
    StepRecords(s.threads[t].pc, s.leases[s.threads[t].pc.lid], s, t, c);
  }

  lemma OthersRecordNothing(s: State, a: Action, s': State, lid: nat)
    requires NextBy(s, a, s') && !a.LeaseStep? && lid < |s'.leases| && s'.leases[lid].state == FAILED
    ensures lid < |s.leases| && s.leases[lid].state == FAILED && s'.leases[lid].error == s.leases[lid].error
  {
    match a
    case AcquireOrJoin(t, withinLifetime) =>
    case _ =>
  }

  lemma FailureRecorded(s: State, a: Action, s': State, lid: nat)
    requires Inv(s) && NextBy(s, a, s') && lid < |s'.leases| && s'.leases[lid].state == FAILED
    ensures lid < |s.leases|
    ensures s.leases[lid].state == FAILED ==> s'.leases[lid].error == s.leases[lid].error
    ensures s.leases[lid].state != FAILED ==>
              && a.LeaseStep? && s'.leases[lid].error.Some?
              && s.threads[a.t].pc == Failing(lid, s'.leases[lid].error.value)
  {
    if a.LeaseStep? {
      LeaseFailureRecorded(s, a.t, a.choice, s', lid);
    } else {
      OthersRecordNothing(s, a, s', lid);
    }
  }

  /** The error a failed lease shows its joiners is the failure its creator met, in some earlier state. */
  lemma {:induction false} LeaseErrorIsCreators(run: seq<State>, i: nat, lid: nat) returns (m: nat, u: Tid)
    requires Execution(run) && i < |run| && lid < |run[i].leases| && run[i].leases[lid].state == FAILED
    ensures m < i && u in run[m].threads && run[i].leases[lid].error.Some?
    ensures run[m].threads[u].pc == Failing(lid, run[i].leases[lid].error.value)
  {
    if i == 0 {
    } else {
      var a := StepInto(run, i, lid);
      if lid < |run[i - 1].leases| && run[i - 1].leases[lid].state == FAILED {
        m, u := LeaseErrorIsCreators(run, i - 1, lid);
      } else {
        m, u := i - 1, a.t;
      }
    }
  }

  lemma StepInto(run: seq<State>, i: nat, lid: nat) returns (a: Action)
    requires Execution(run) && 0 < i < |run| && lid < |run[i].leases| && run[i].leases[lid].state == FAILED
    ensures lid < |run[i - 1].leases|
    ensures run[i - 1].leases[lid].state == FAILED ==> run[i].leases[lid].error == run[i - 1].leases[lid].error
    ensures run[i - 1].leases[lid].state != FAILED ==>
              && a.LeaseStep? && run[i].leases[lid].error.Some? && a.t in run[i - 1].threads
              && run[i - 1].threads[a.t].pc == Failing(lid, run[i].leases[lid].error.value)
  {
    RunInvariant(run, i - 1);
    assert StepAt(run, i - 1);
    a :| NextBy(run[i - 1], a, run[i]);
    FailureRecorded(run[i - 1], a, run[i], lid);
  }

  // ---------------------------------------------------------------- there are runs

  /** The state the process starts in: nothing leased, pooled or locked, and every thread idle. */
  function Start(limit: nat, threads: set<Tid>, key: Key): State {
    State(limit, limit, Lifecycle(false, 0), false, map[], multiset{}, {}, [],
          map t | t in threads :: Thread(Idle, key))
  }

  /** Every run begins there, for any limit and any threads, and goes on with any step that is possible. */
  lemma RunsGrow(limit: nat, threads: set<Tid>, key: Key, run: seq<State>, s': State)
    ensures limit > 0 ==> Execution([Start(limit, threads, key)])
    ensures Execution(run) && Next(run[|run| - 1], s') ==> Execution(run + [s'])
  {
    if Execution(run) && Next(run[|run| - 1], s') {
      var longer := run + [s'];
      forall i: nat | i < |longer| - 1 ensures StepAt(longer, i) {
        if i < |run| - 1 { assert StepAt(run, i); }
      }
    }
  }
}
