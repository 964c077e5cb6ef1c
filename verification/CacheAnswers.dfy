/** What a call of `get_or_open` ends with, over every interleaving: a cached dataset, or exactly what
    the opener of its flight answered. */
module CacheAnswers {
  import opened Wrappers
  import opened Lru
  import opened StoreCache
  import opened CacheProtocol

  // ---------------------------------------------------------------- flights land once

  /** Flights are never dropped, keep their key and leader, and land once. */
  predicate FlightsKept(before: seq<FlightRecord>, after: seq<FlightRecord>) {
    && |before| <= |after|
    && forall i | 0 <= i < |before| ::
         after[i] == before[i] || (before[i].outcome.Pending? && after[i] == before[i].(outcome := after[i].outcome))
  }

  lemma LandingIsNew(s: State, t: Tid)
    requires Inv(s) && t in s.threads && Leads(s.threads[t])
    ensures s.threads[t].fid < |s.flights| && s.flights[s.threads[t].fid].outcome.Pending?
  {
    assert ThreadOk(s, t, s.threads[t]);
  }

  lemma StepKeepsFlights(s: State, a: Action, s': State)
    requires Inv(s) && NextBy(s, a, s')
    ensures FlightsKept(s.flights, s'.flights)
  {
    if a.Publish? || a.Withdraw? { LandingIsNew(s, a.t); }
  }

  // ---------------------------------------------------------------- a call and its flight

  /** The answer of a call that is over: its flight has landed, and the call returned the flight's
      dataset, as a hit unless it led the flight, or failed with the flight's error. */
  predicate Answered(s: State, pc: Pc, key: CacheKey, fid: nat, led: bool) {
    && fid < |s.flights|
    && match s.flights[fid].outcome
       case Pending => false
       case Opened(d) => pc == Returned(key, d, !led)
       case Raised(e) => pc == Failed(key, e)
  }

  /** A call in progress on its flight. */
  predicate OnFlight(s: State, pc: Pc, key: CacheKey, fid: nat, led: bool) {
    && fid < |s.flights|
    && match pc
       case Leading(k, f) => led && k == key && f == fid
       case Publishing(k, f, _) => led && k == key && f == fid
       case Withdrawing(k, f, _) => led && k == key && f == fid
       case Following(k, f) => !led && k == key && f == fid
       case Counting(k, d) => !led && k == key && s.flights[fid].outcome == Opened(d)
       case _ => false
  }

  lemma OwnStep(s: State, a: Action, s': State, key: CacheKey, fid: nat, led: bool)
    requires Inv(s) && NextBy(s, a, s') && OnFlight(s, s.threads[a.t], key, fid, led)
    ensures OnFlight(s', s'.threads[a.t], key, fid, led) || Answered(s', s'.threads[a.t], key, fid, led)
  {
    assert ThreadOk(s, a.t, s.threads[a.t]);
  }

  lemma OtherStep(s: State, a: Action, s': State, t: Tid, key: CacheKey, fid: nat, led: bool)
    requires Inv(s) && NextBy(s, a, s') && t in s.threads && a.t != t
    requires OnFlight(s, s.threads[t], key, fid, led)
    ensures t in s'.threads && OnFlight(s', s'.threads[t], key, fid, led)
  {
    StepKeepsFlights(s, a, s');
  }

  predicate Over(pc: Pc) {
    pc.Idle? || pc.Returned? || pc.Failed?
  }

  lemma OnFlightStep(run: seq<State>, i: nat, t: Tid, key: CacheKey, fid: nat, led: bool)
    requires Execution(run) && i + 1 < |run|
    requires t in run[i].threads && OnFlight(run[i], run[i].threads[t], key, fid, led)
    ensures var s := run[i + 1];
            t in s.threads && (OnFlight(s, s.threads[t], key, fid, led) || Answered(s, s.threads[t], key, fid, led))
  {
    RunInvariant(run, i);
    assert StepAt(run, i);
    var a :| NextBy(run[i], a, run[i + 1]);
    if a.t == t {
      OwnStep(run[i], a, run[i + 1], key, fid, led);
    } else {
      OtherStep(run[i], a, run[i + 1], t, key, fid, led);
    }
  }

  lemma {:induction false} OnFlightUntilOver(run: seq<State>, i: nat, j: nat, t: Tid, key: CacheKey, fid: nat,
                                             led: bool)
    requires Execution(run) && i < j < |run| && forall m | i < m < j :: t in run[m].threads && !Over(run[m].threads[t])
    requires t in run[i + 1].threads && OnFlight(run[i + 1], run[i + 1].threads[t], key, fid, led)
    ensures t in run[j].threads
    ensures var s := run[j];
            OnFlight(s, s.threads[t], key, fid, led) || Answered(s, s.threads[t], key, fid, led)
  {
    if j == i + 1 {
    } else {
      OnFlightUntilOver(run, i, j - 1, t, key, fid, led);
      OnFlightStep(run, j - 1, t, key, fid, led);
    }
  }

  lemma RunKeepsFlights(run: seq<State>, i: nat)
    requires Execution(run) && i + 1 < |run|
    ensures FlightsKept(run[i].flights, run[i + 1].flights)
  {
    RunInvariant(run, i);
    assert StepAt(run, i);
    var a :| NextBy(run[i], a, run[i + 1]);
    StepKeepsFlights(run[i], a, run[i + 1]);
  }

  /** Once a flight has landed its outcome is final. */
  lemma {:induction false} OutcomesAreFinal(run: seq<State>, i: nat, j: nat)
    requires Execution(run) && i <= j < |run|
    ensures FlightsKept(run[i].flights, run[j].flights)
  {
    if i == j {
    } else {
      OutcomesAreFinal(run, i, j - 1);
      RunKeepsFlights(run, j - 1);
    }
  }

  lemma LookupStarts(s: State, t: Tid, key: CacheKey, s': State)
    requires Inv(s) && NextBy(s, Lookup(t, key), s') && key !in Keys(s.entries)
    ensures var fid := if key in s.inFlight then s.inFlight[key] else |s.flights|;
            && fid < |s'.flights| && s'.flights[fid].key == key
            && OnFlight(s', s'.threads[t], key, fid, key !in s.inFlight)
  {
  }

  lemma FlightAnswer(run: seq<State>, i: nat, j: nat, t: Tid, key: CacheKey)
    requires Execution(run) && i < j < |run| && NextBy(run[i], Lookup(t, key), run[i + 1])
    requires key !in Keys(run[i].entries)
    requires forall m | i < m < j :: t in run[m].threads && !Over(run[m].threads[t])
    requires t in run[j].threads && Over(run[j].threads[t])
    ensures var joined := key in run[i].inFlight;
            var fid := if joined then run[i].inFlight[key] else |run[i].flights|;
            Answered(run[j], run[j].threads[t], key, fid, !joined) && run[j].flights[fid].key == key
  {
    RunInvariant(run, i);
    LookupStarts(run[i], t, key, run[i + 1]);
    var fid := if key in run[i].inFlight then run[i].inFlight[key] else |run[i].flights|;
    OnFlightUntilOver(run, i, j, t, key, fid, key !in run[i].inFlight);
    OutcomesAreFinal(run, i + 1, j);
  }

  /** How a call ends.  A key that was cached is answered at once, by what was cached, as a hit.
      Otherwise the call joins the flight of its key, or starts one, and when it is over that flight
      has landed: the call returned the dataset the flight opened, a hit exactly when it had joined,
      or failed with the very error the flight's opener raised. */
  lemma CallAnswer(run: seq<State>, i: nat, j: nat, t: Tid, key: CacheKey)
    requires Execution(run) && i < j < |run| && NextBy(run[i], Lookup(t, key), run[i + 1])
    requires forall m | i < m < j ::
               t in run[m].threads && var pc := run[m].threads[t]; !pc.Idle? && !pc.Returned? && !pc.Failed?
    requires t in run[j].threads && var pc := run[j].threads[t]; pc.Idle? || pc.Returned? || pc.Failed?
    ensures key in Keys(run[i].entries) ==>
              && j == i + 1 && run[j].threads[t].Returned? && (key, run[j].threads[t].dataset) in run[i].entries
              && run[j].threads[t].key == key && run[j].threads[t].hit
    ensures key !in Keys(run[i].entries) ==>
              var joined := key in run[i].inFlight;
              var fid := if joined then run[i].inFlight[key] else |run[i].flights|;
              && fid < |run[j].flights| && run[j].flights[fid].key == key
              && var o := run[j].flights[fid].outcome;
              && !o.Pending?
              && (o.Opened? ==> run[j].threads[t] == Returned(key, o.dataset, joined))
              && (o.Raised? ==> run[j].threads[t] == Failed(key, o.error))
  {
    if key !in Keys(run[i].entries) { FlightAnswer(run, i, j, t, key); }
  }

  // ---------------------------------------------------------------- where a flight's outcome comes from

  /** In step `i` the opener of thread `t`, which led flight `fid`, answered `o`. */
  ghost predicate OpenerAnswered(run: seq<State>, i: nat, t: Tid, fid: nat, o: Outcome) {
    && i + 1 < |run|
    && t in run[i].threads && run[i].threads[t].Leading? && run[i].threads[t].fid == fid
    && fid < |run[i].flights| && run[i].flights[fid].leader == t
    && (o.Opened? ==> NextBy(run[i], OpenerReturns(t, o.dataset), run[i + 1]))
    && (o.Raised? ==> NextBy(run[i], OpenerRaises(t, o.error), run[i + 1]))
  }

  /** The answer a leader holds when its opener is done. */
  function HeldAnswer(pc: Pc): Outcome {
    match pc
    case Publishing(_, _, d) => Opened(d)
    case Withdrawing(_, _, e) => Raised(e)
    case _ => Pending
  }

  lemma LeadsItsFlight(run: seq<State>, i: nat, t: Tid)
    requires Execution(run) && i < |run| && t in run[i].threads && run[i].threads[t].Leading?
    ensures var fid := run[i].threads[t].fid; fid < |run[i].flights| && run[i].flights[fid].leader == t
  {
    RunInvariant(run, i);
    assert ThreadOk(run[i], t, run[i].threads[t]);
  }

  lemma HeldAnswerStep(run: seq<State>, i: nat, t: Tid)
    requires Execution(run) && i + 1 < |run| && t in run[i + 1].threads && !HeldAnswer(run[i + 1].threads[t]).Pending?
    ensures t in run[i].threads
    ensures var pc := run[i + 1].threads[t];
            run[i].threads[t] == pc || OpenerAnswered(run, i, t, pc.fid, HeldAnswer(pc))
  {
    assert StepAt(run, i);
    var a :| NextBy(run[i], a, run[i + 1]);
    if a.t == t && run[i].threads[t].Leading? { LeadsItsFlight(run, i, t); }
  }

  lemma {:induction false} HeldAnswerIsOpeners(run: seq<State>, j: nat, t: Tid) returns (i: nat)
    requires Execution(run) && j < |run| && t in run[j].threads && !HeldAnswer(run[j].threads[t]).Pending?
    ensures i < j && OpenerAnswered(run, i, t, run[j].threads[t].fid, HeldAnswer(run[j].threads[t]))
  {
    if j == 0 {
    } else {
      HeldAnswerStep(run, j - 1, t);
      if run[j - 1].threads[t] == run[j].threads[t] {
        i := HeldAnswerIsOpeners(run, j - 1, t);
      } else {
        i := j - 1;
      }
    }
  }

  /** A flight that lands in this step does so with the answer its leader holds. */
  lemma LandingStep(run: seq<State>, i: nat, fid: nat) returns (t: Tid)
    requires Execution(run) && i + 1 < |run| && fid < |run[i + 1].flights|
    requires !run[i + 1].flights[fid].outcome.Pending?
    ensures (fid < |run[i].flights| && run[i].flights[fid] == run[i + 1].flights[fid])
            || (&& t in run[i].threads && HeldAnswer(run[i].threads[t]) == run[i + 1].flights[fid].outcome
                && run[i].threads[t].fid == fid)
  {
    assert StepAt(run, i);
    var a :| NextBy(run[i], a, run[i + 1]);
    t := a.t;
  }

  /** A landed flight carries what the opener of its leader answered, in some earlier step. */
  lemma {:induction false} OutcomeIsOpeners(run: seq<State>, j: nat, fid: nat) returns (i: nat, t: Tid)
    requires Execution(run) && j < |run| && fid < |run[j].flights| && !run[j].flights[fid].outcome.Pending?
    ensures i < j && t in run[i].threads && run[i].threads[t].Leading? && run[i].threads[t].fid == fid
    ensures fid < |run[i].flights| && run[i].flights[fid].leader == t
    ensures var o := run[j].flights[fid].outcome;
            && (o.Opened? ==> NextBy(run[i], OpenerReturns(t, o.dataset), run[i + 1]))
            && (o.Raised? ==> NextBy(run[i], OpenerRaises(t, o.error), run[i + 1]))
  {
    if j == 0 {
    } else {
      t := LandingStep(run, j - 1, fid);
      if fid < |run[j - 1].flights| && run[j - 1].flights[fid] == run[j].flights[fid] {
        i, t := OutcomeIsOpeners(run, j - 1, fid);
      } else {
        i := HeldAnswerIsOpeners(run, j - 1, t);
      }
    }
  }

  /** What a leader with an answer does next, if anything. */
  predicate HandsOut(s: State, pc: Pc, pc': Pc)
    requires pc.Publishing? || pc.Withdrawing?
  {
    && pc.fid < |s.flights| && s.flights[pc.fid].outcome == HeldAnswer(pc)
    && pc' == if pc.Publishing? then Returned(pc.key, pc.dataset, false) else Failed(pc.key, pc.error)
  }

  lemma HoldsStep(run: seq<State>, i: nat, t: Tid)
    requires Execution(run) && i + 1 < |run| && t in run[i].threads && !HeldAnswer(run[i].threads[t]).Pending?
    ensures t in run[i + 1].threads
    ensures var pc, pc' := run[i].threads[t], run[i + 1].threads[t]; pc' == pc || HandsOut(run[i + 1], pc, pc')
  {
    assert StepAt(run, i);
  }

  lemma {:induction false} HoldsUntilOver(run: seq<State>, i: nat, j: nat, t: Tid)
    requires Execution(run) && i < j < |run| && forall m | i < m < j :: t in run[m].threads && !Over(run[m].threads[t])
    requires t in run[i + 1].threads && !HeldAnswer(run[i + 1].threads[t]).Pending?
    ensures t in run[j].threads
    ensures var pc, pc' := run[i + 1].threads[t], run[j].threads[t]; pc' == pc || HandsOut(run[j], pc, pc')
  {
    if j == i + 1 {
    } else {
      HoldsUntilOver(run, i, j - 1, t);
      HoldsStep(run, j - 1, t);
    }
  }

  /** A leader hands out its own opener's answer, and lands its flight with it. */
  lemma LeaderHandsOut(run: seq<State>, i: nat, j: nat, a: Action)
    requires Execution(run) && i < j < |run| && NextBy(run[i], a, run[i + 1])
    requires a.OpenerReturns? || a.OpenerRaises?
    requires forall m | i < m < j ::
               a.t in run[m].threads && var pc := run[m].threads[a.t]; !pc.Idle? && !pc.Returned? && !pc.Failed?
    requires a.t in run[j].threads && var pc := run[j].threads[a.t]; pc.Idle? || pc.Returned? || pc.Failed?
    ensures var pc, pc' := run[i].threads[a.t], run[j].threads[a.t];
            && pc.Leading? && pc.fid < |run[j].flights|
            && (a.OpenerReturns? ==>
                  pc' == Returned(pc.key, a.dataset, false) && run[j].flights[pc.fid].outcome == Opened(a.dataset))
            && (a.OpenerRaises? ==>
                  pc' == Failed(pc.key, a.error) && run[j].flights[pc.fid].outcome == Raised(a.error))
  {
    HoldsUntilOver(run, i, j, a.t);
  }

  // ---------------------------------------------------------------- nobody is stuck

  ghost predicate Enabled(s: State, a: Action) {
    exists s' :: NextBy(s, a, s')
  }

  /** A thread that is over with its last call may look up any key. */
  lemma LookupEnabled(s: State, t: Tid, key: CacheKey)
    requires t in s.threads && Over(s.threads[t])
    ensures Enabled(s, Lookup(t, key))
  {
    if key in Keys(s.entries) {
      var d := Get(s.entries, key);
      var s' := Goto(s, t, Returned(key, d, true)).(
                  entries := PutLast(s.entries, key, d), history := s.history + [key]);
      assert NextBy(s, Lookup(t, key), s');
    } else if key in s.inFlight {
      assert NextBy(s, Lookup(t, key), Goto(s, t, Following(key, s.inFlight[key])));
    } else {
      var s' := Goto(s, t, Leading(key, |s.flights|)).(
                  flights := s.flights + [FlightRecord(key, t, Pending)], inFlight := s.inFlight[key := |s.flights|]);
      assert NextBy(s, Lookup(t, key), s');
    }
  }

  /** An opener may answer anything, and its leader can hand every answer out. */
  lemma LeaderEnabled(s: State, t: Tid, d: Dataset, e: string)
    requires Inv(s) && t in s.threads
    ensures s.threads[t].Leading? ==> Enabled(s, OpenerReturns(t, d)) && Enabled(s, OpenerRaises(t, e))
    ensures s.threads[t].Publishing? ==> Enabled(s, Action.Publish(t))
    ensures s.threads[t].Withdrawing? ==> Enabled(s, Withdraw(t))
  {
    var pc := s.threads[t];
    assert ThreadOk(s, t, pc);
    match pc
    case Leading(k, fid) =>
      assert NextBy(s, OpenerReturns(t, d), Goto(s, t, Publishing(k, fid, d)).(obtained := s.obtained + {(k, d)}));
      assert NextBy(s, OpenerRaises(t, e), Goto(s, t, Withdrawing(k, fid, e)));
    case Publishing(k, fid, x) =>
      var s' := Land(Goto(s, t, Returned(k, x, false)), k, fid, Opened(x)).(
                  entries := StoreCache.Publish(s.entries, k, x, s.maxEntries), history := s.history + [k]);
      assert NextBy(s, Action.Publish(t), s');
    case Withdrawing(k, fid, x) =>
      assert NextBy(s, Withdraw(t), Land(Goto(s, t, Failed(k, x)), k, fid, Raised(x)));
    case _ =>
  }

  lemma FollowerEnabled(s: State, t: Tid)
    requires Inv(s) && t in s.threads
    ensures s.threads[t].Counting? ==> Enabled(s, CountHit(t))
    ensures s.threads[t].Following? ==>
              s.threads[t].fid < |s.flights|
              && (!s.flights[s.threads[t].fid].outcome.Pending? ==> Enabled(s, Observe(t)))
  {
    var pc := s.threads[t];
    assert ThreadOk(s, t, pc);
    if pc.Counting? {
      assert NextBy(s, CountHit(t), Goto(s, t, Returned(pc.key, pc.dataset, true)));
    } else if pc.Following? {
      var o := s.flights[pc.fid].outcome;
      if o.Opened? {
        assert NextBy(s, Observe(t), Goto(s, t, Counting(pc.key, o.dataset)));
      } else if o.Raised? {
        assert NextBy(s, Observe(t), Goto(s, t, Failed(pc.key, o.error)));
      }
    }
  }

  /** In every reachable state every thread can take its next step, whatever the opener answers; only a
      follower whose flight is still in the air waits, and then a thread leads that flight. */
  lemma NobodyIsStuck(run: seq<State>, i: nat, t: Tid, key: CacheKey, d: Dataset, e: string)
    requires Execution(run) && i < |run| && t in run[i].threads
    ensures var s, pc := run[i], run[i].threads[t];
            match pc
            case Leading(_, _) => Enabled(s, OpenerReturns(t, d)) && Enabled(s, OpenerRaises(t, e))
            case Publishing(_, _, _) => Enabled(s, Action.Publish(t))
            case Withdrawing(_, _, _) => Enabled(s, Withdraw(t))
            case Counting(_, _) => Enabled(s, CountHit(t))
            case Following(_, fid) =>
              Enabled(s, Observe(t)) || exists u <- s.threads :: Leads(s.threads[u]) && s.threads[u].fid == fid
            case _ => Enabled(s, Lookup(t, key))
  {
    RunInvariant(run, i);
    if Over(run[i].threads[t]) { LookupEnabled(run[i], t, key); }
    LeaderEnabled(run[i], t, d, e);
    FollowerEnabled(run[i], t);
    if run[i].threads[t].Following? { FollowersHaveALeader(run, i, t); }
  }

  // ---------------------------------------------------------------- there are runs

  /** An empty cache that nobody uses yet. */
  function Start(maxEntries: nat, threads: set<Tid>): State {
    State(maxEntries, [], map[], [], {}, [], map t | t in threads :: Idle)
  }

  /** Every run begins there, for any capacity and any threads, and goes on with any step that is possible. */
  lemma RunsGrow(maxEntries: nat, threads: set<Tid>, run: seq<State>, s': State)
    ensures Execution([Start(maxEntries, threads)])
    ensures Execution(run) && Next(run[|run| - 1], s') ==> Execution(run + [s'])
  {
    if Execution(run) && Next(run[|run| - 1], s') {
      var longer := run + [s'];
      forall i: nat | i < |longer| - 1 ensures StepAt(longer, i) {
        if i < |run| - 1 { assert StepAt(run, i); }
      }
    }
  }
}
