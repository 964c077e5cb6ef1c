/** Concurrent callers of `StoreHandleCache.get_or_open`: every interleaving of the lock-protected
    blocks with openers that run outside the lock.  Flights are numbered and never reused. */
module CacheProtocol {
  import opened Wrappers
  import opened Lru
  import opened StoreCache

  type Tid = nat

  datatype FlightRecord = FlightRecord(key: CacheKey, leader: Tid, outcome: Outcome)

  /** `Leading` runs the opener; `Publishing` and `Withdrawing` have its answer but not the lock;
      `Counting` is a follower on its way to the hit counter. */
  datatype Pc =
    | Idle
    | Leading(key: CacheKey, fid: nat)
    | Publishing(key: CacheKey, fid: nat, dataset: Dataset)
    | Withdrawing(key: CacheKey, fid: nat, error: string)
    | Following(key: CacheKey, fid: nat)
    | Counting(key: CacheKey, dataset: Dataset)
    | Returned(key: CacheKey, dataset: Dataset, hit: bool)
    | Failed(key: CacheKey, error: string)

  /** `obtained` records every successful opener run, and `history` the order in which keys were used:
      found in the cache, or published.  Both are history variables. */
  datatype State = State(
    maxEntries: nat,
    entries: seq<(CacheKey, Dataset)>,
    inFlight: map<CacheKey, nat>,
    flights: seq<FlightRecord>,
    obtained: set<(CacheKey, Dataset)>,
    history: seq<CacheKey>,
    threads: map<Tid, Pc>)

  datatype Action =
    | Lookup(t: Tid, key: CacheKey)
    | OpenerReturns(t: Tid, dataset: Dataset)
    | OpenerRaises(t: Tid, error: string)
    | Publish(t: Tid)
    | Withdraw(t: Tid)
    | Observe(t: Tid)
    | CountHit(t: Tid)

  predicate AtRest(pc: Pc) {
    pc.Idle? || pc.Returned? || pc.Failed?
  }

  predicate Leads(pc: Pc) {
    pc.Leading? || pc.Publishing? || pc.Withdrawing?
  }

  function Goto(s: State, t: Tid, pc: Pc): State {
    s.(threads := s.threads[t := pc])
  }

  /** The flight lands with `o` and its key is free again. */
  function Land(s: State, key: CacheKey, fid: nat, o: Outcome): State
    requires fid < |s.flights|
  {
    s.(flights := s.flights[fid := s.flights[fid].(outcome := o)], inFlight := s.inFlight - {key})
  }

  predicate NextBy(s: State, a: Action, s': State) {
    a.t in s.threads &&
    var t, pc := a.t, s.threads[a.t];
    match a
    case Lookup(_, key) =>
      && AtRest(pc)
      && s' == if key in Keys(s.entries) then
                 var d := Get(s.entries, key);
                 Goto(s, t, Returned(key, d, true)).(
                   entries := PutLast(s.entries, key, d), history := s.history + [key])
               else if key in s.inFlight then Goto(s, t, Following(key, s.inFlight[key]))
               else Goto(s, t, Leading(key, |s.flights|)).(
                      flights := s.flights + [FlightRecord(key, t, Pending)],
                      inFlight := s.inFlight[key := |s.flights|])
    case OpenerReturns(_, d) =>
      && pc.Leading?
      && s' == Goto(s, t, Publishing(pc.key, pc.fid, d)).(obtained := s.obtained + {(pc.key, d)})
    case OpenerRaises(_, e) => pc.Leading? && s' == Goto(s, t, Withdrawing(pc.key, pc.fid, e))
    case Publish(_) =>
      && pc.Publishing? && pc.fid < |s.flights|
      && s' == Land(Goto(s, t, Returned(pc.key, pc.dataset, false)), pc.key, pc.fid, Opened(pc.dataset)).(
                 entries := StoreCache.Publish(s.entries, pc.key, pc.dataset, s.maxEntries),
                 history := s.history + [pc.key])
    case Withdraw(_) =>
      && pc.Withdrawing? && pc.fid < |s.flights|
      && s' == Land(Goto(s, t, Failed(pc.key, pc.error)), pc.key, pc.fid, Raised(pc.error))
    case Observe(_) =>
      && pc.Following? && pc.fid < |s.flights| && !s.flights[pc.fid].outcome.Pending?
      && var o := s.flights[pc.fid].outcome;
         s' == Goto(s, t, if o.Opened? then Counting(pc.key, o.dataset) else Failed(pc.key, o.error))
    case CountHit(_) => pc.Counting? && s' == Goto(s, t, Returned(pc.key, pc.dataset, true))
  }

  predicate Init(s: State) {
    && s.entries == [] && s.inFlight == map[] && s.flights == [] && s.obtained == {} && s.history == []
    && forall t <- s.threads :: s.threads[t].Idle?
  }

  ghost predicate StepAt(run: seq<State>, i: nat)
    requires i + 1 < |run|
  {
    Next(run[i], run[i + 1])
  }

  ghost predicate Execution(run: seq<State>) {
    && |run| > 0 && Init(run[0])
    && forall i :: 0 <= i < |run| - 1 ==> StepAt(run, i)
  }

  ghost predicate Next(s: State, s': State) {
    exists a :: NextBy(s, a, s')
  }

  // ---------------------------------------------------------------- the invariant

  ghost predicate EntriesOk(s: State) {
    && Tracks(s.entries, s.history, s.maxEntries)
    && (forall x <- s.entries :: x in s.obtained)
    && (forall k <- s.inFlight :: k !in Keys(s.entries))
  }

  /** Every key in the air has one pending flight whose leader is still at it. */
  predicate FlightsOk(s: State) {
    && (forall k <- s.inFlight ::
          && s.inFlight[k] < |s.flights|
          && var f := s.flights[s.inFlight[k]];
             f.key == k && f.outcome.Pending? && f.leader in s.threads
             && Leads(s.threads[f.leader]) && s.threads[f.leader].key == k && s.threads[f.leader].fid == s.inFlight[k])
    && (forall f <- s.flights :: f.outcome.Opened? ==> (f.key, f.outcome.dataset) in s.obtained)
  }

  predicate ThreadOk(s: State, t: Tid, pc: Pc) {
    && (pc.Following? ==>
          && pc.fid < |s.flights| && s.flights[pc.fid].key == pc.key
          && (s.flights[pc.fid].outcome.Pending? ==> pc.key in s.inFlight && s.inFlight[pc.key] == pc.fid))
    && (pc.Publishing? || pc.Counting? || pc.Returned? ==> (pc.key, pc.dataset) in s.obtained)
    && (Leads(pc) ==>
          && pc.key in s.inFlight && s.inFlight[pc.key] == pc.fid
          && pc.fid < |s.flights| && s.flights[pc.fid].leader == t)
  }

  ghost predicate Inv(s: State) {
    EntriesOk(s) && FlightsOk(s) && forall t <- s.threads :: ThreadOk(s, t, s.threads[t])
  }

  lemma PublishedKeys(es: seq<(CacheKey, Dataset)>, key: CacheKey, d: Dataset, n: nat)
    requires Distinct(Keys(es))
    ensures var ks := Keys(StoreCache.Publish(es, key, d, n));
            Distinct(ks) && forall k <- ks :: k in Keys(es) || k == key
  {
    PutLastKeys(es, key, d);
    LastKeys(PutLast(es, key, d), n);
    TouchDistinct(Keys(es), key);
    TouchMembers(Keys(es), key);
  }

  lemma PublishedPairs(es: seq<(CacheKey, Dataset)>, key: CacheKey, d: Dataset, n: nat)
    ensures forall x <- StoreCache.Publish(es, key, d, n) :: x in es || x == (key, d)
  {
    forall x | x in PutLast(es, key, d) ensures x in es || x == (key, d) { PutLastContents(es, key, d, x); }
  }

  lemma PublishedEntries(s: State, key: CacheKey, d: Dataset)
    requires EntriesOk(s) && (key, d) in s.obtained && key !in Keys(s.entries)
    ensures var es := StoreCache.Publish(s.entries, key, d, s.maxEntries);
            && Tracks(es, s.history + [key], s.maxEntries)
            && (forall x <- es :: x in s.obtained)
            && (forall k <- Keys(es) :: k in Keys(s.entries) || k == key)
  {
    PublishedKeys(s.entries, key, d, s.maxEntries);
    PublishedPairs(s.entries, key, d, s.maxEntries);
    MissTracks(s.entries, s.history, s.maxEntries, key, d);
  }

  lemma LandKeepsFlights(s: State, t: Tid, key: CacheKey, fid: nat, o: Outcome, pc': Pc)
    requires Inv(s) && t in s.threads && Leads(s.threads[t]) && !Leads(pc') && !pc'.Following?
    requires s.threads[t].key == key && s.threads[t].fid == fid
    requires !o.Pending? && (o.Opened? ==> (key, o.dataset) in s.obtained)
    requires ThreadOk(s, t, pc')
    ensures var s' := Land(Goto(s, t, pc'), key, fid, o);
            FlightsOk(s') && forall u <- s'.threads :: ThreadOk(s', u, s'.threads[u])
  {
    var s' := Land(Goto(s, t, pc'), key, fid, o);
    assert ThreadOk(s, t, s.threads[t]);
    forall u | u in s'.threads ensures ThreadOk(s', u, s'.threads[u]) {
      assert u != t ==> ThreadOk(s, u, s.threads[u]);
    }
    forall k | k in s'.inFlight
      ensures var f := s'.flights[s'.inFlight[k]];
              f.leader in s'.threads && Leads(s'.threads[f.leader])
              && s'.threads[f.leader].key == k && s'.threads[f.leader].fid == s'.inFlight[k]
    {
      assert s.inFlight[k] != fid;
    }
  }

  /** A step that only moves its thread: the new position must fit, and a leader stays one. */
  lemma MoveKeepsInv(s: State, t: Tid, pc': Pc, s': State)
    requires Inv(s) && t in s.threads
    requires s' == Goto(s, t, pc').(obtained := s'.obtained) && s.obtained <= s'.obtained
    requires ThreadOk(s', t, pc')
    requires Leads(s.threads[t]) ==> Leads(pc') && pc'.key == s.threads[t].key && pc'.fid == s.threads[t].fid
    ensures Inv(s')
  {
    forall u | u in s'.threads ensures ThreadOk(s', u, s'.threads[u]) {
      assert u != t ==> ThreadOk(s, u, s.threads[u]);
    }
  }

  lemma HitEntries(es: seq<(CacheKey, Dataset)>, key: CacheKey, d: Dataset)
    requires Distinct(Keys(es)) && key in Keys(es) && (key, d) in es
    ensures var hit := PutLast(es, key, d);
            && Distinct(Keys(hit)) && |hit| == |es| && (forall x <- hit :: x in es)
            && forall k <- Keys(hit) :: k in Keys(es)
  {
    PutLastKeys(es, key, d);
    TouchDistinct(Keys(es), key);
    TouchMembers(Keys(es), key);
    forall x | x in PutLast(es, key, d) ensures x in es { PutLastContents(es, key, d, x); }
  }

  lemma HitKeepsInv(s: State, t: Tid, key: CacheKey, s': State)
    requires Inv(s) && NextBy(s, Lookup(t, key), s') && key in Keys(s.entries)
    ensures Inv(s')
  {
    var d := Get(s.entries, key);
    var moved := Goto(s, t, Returned(key, d, true));
    MoveKeepsInv(s, t, Returned(key, d, true), moved);
    HitEntries(s.entries, key, d);
    HitTracks(s.entries, s.history, s.maxEntries, key, d);
    EntriesChange(moved, s'.entries, s'.history);
    assert s' == moved.(entries := s'.entries, history := s'.history);
  }

  /** Only the entries change, to some that were there before. */
  lemma EntriesChange(s: State, es: seq<(CacheKey, Dataset)>, history: seq<CacheKey>)
    requires Inv(s) && Tracks(es, history, s.maxEntries) && forall x <- es :: x in s.obtained
    requires forall k <- Keys(es) :: k !in s.inFlight
    ensures Inv(s.(entries := es, history := history))
  {
    var s' := s.(entries := es, history := history);
    forall u | u in s'.threads ensures ThreadOk(s', u, s'.threads[u]) {
      assert ThreadOk(s, u, s.threads[u]);
    }
  }

  lemma FollowKeepsInv(s: State, t: Tid, key: CacheKey)
    requires Inv(s) && t in s.threads && AtRest(s.threads[t]) && key in s.inFlight
    ensures Inv(Goto(s, t, Following(key, s.inFlight[key])))
  {
    MoveKeepsInv(s, t, Following(key, s.inFlight[key]), Goto(s, t, Following(key, s.inFlight[key])));
  }

  lemma LeadKeepsInv(s: State, t: Tid, key: CacheKey)
    requires Inv(s) && t in s.threads && AtRest(s.threads[t])
    requires key !in s.inFlight && key !in Keys(s.entries)
    ensures Inv(Goto(s, t, Leading(key, |s.flights|)).(
                  flights := s.flights + [FlightRecord(key, t, Pending)], inFlight := s.inFlight[key := |s.flights|]))
  {
    var s' := Goto(s, t, Leading(key, |s.flights|)).(
                flights := s.flights + [FlightRecord(key, t, Pending)], inFlight := s.inFlight[key := |s.flights|]);
    forall u | u in s'.threads ensures ThreadOk(s', u, s'.threads[u]) {
      assert u != t ==> ThreadOk(s, u, s.threads[u]);
    }
  }

  lemma LookupKeepsInv(s: State, t: Tid, key: CacheKey, s': State)
    requires Inv(s) && NextBy(s, Lookup(t, key), s')
    ensures Inv(s')
  {
    if key in Keys(s.entries) {
      HitKeepsInv(s, t, key, s');
    } else if key in s.inFlight {
      FollowKeepsInv(s, t, key);
    } else {
      LeadKeepsInv(s, t, key);
    }
  }

  lemma PublishKeepsInv(s: State, t: Tid, s': State)
    requires Inv(s) && NextBy(s, Publish(t), s')
    ensures Inv(s')
  {
    var pc := s.threads[t];
    assert ThreadOk(s, t, pc);
    PublishedEntries(s, pc.key, pc.dataset);
    LandKeepsFlights(s, t, pc.key, pc.fid, Opened(pc.dataset), Returned(pc.key, pc.dataset, false));
  }

  lemma WithdrawKeepsInv(s: State, t: Tid, s': State)
    requires Inv(s) && NextBy(s, Withdraw(t), s')
    ensures Inv(s')
  {
    var pc := s.threads[t];
    assert ThreadOk(s, t, pc);
    LandKeepsFlights(s, t, pc.key, pc.fid, Raised(pc.error), Failed(pc.key, pc.error));
  }

  /** The remaining steps only move their thread, a returning opener besides recording its dataset. */
  lemma OtherStepKeepsInv(s: State, a: Action, s': State)
    requires Inv(s) && NextBy(s, a, s') && !a.Lookup? && !a.Publish? && !a.Withdraw?
    ensures Inv(s')
  {
    assert ThreadOk(s, a.t, s.threads[a.t]);
    MoveKeepsInv(s, a.t, s'.threads[a.t], s');
  }

  lemma NextKeepsInv(s: State, a: Action, s': State)
    requires Inv(s) && NextBy(s, a, s')
    ensures Inv(s')
  {
    match a
    case Lookup(t, key) => LookupKeepsInv(s, t, key, s');
    case Publish(t) => PublishKeepsInv(s, t, s');
    case Withdraw(t) => WithdrawKeepsInv(s, t, s');
    case _ => OtherStepKeepsInv(s, a, s');
  }

  lemma {:induction false} RunInvariant(run: seq<State>, i: nat)
    requires Execution(run) && i < |run|
    ensures Inv(run[i])
  {
    if i == 0 {
    } else {
      RunInvariant(run, i - 1);
      assert StepAt(run, i - 1);
      var a :| NextBy(run[i - 1], a, run[i]);
      NextKeepsInv(run[i - 1], a, run[i]);
    }
  }

  // ---------------------------------------------------------------- what the cache promises

  /** At most one opener runs per key, in any state of any run. */
  lemma OneOpenerPerKey(run: seq<State>, i: nat, t: Tid, u: Tid)
    requires Execution(run) && i < |run| && t in run[i].threads && u in run[i].threads
    requires run[i].threads[t].Leading? && run[i].threads[u].Leading?
    requires run[i].threads[t].key == run[i].threads[u].key
    ensures t == u
  {
    RunInvariant(run, i);
    assert ThreadOk(run[i], t, run[i].threads[t]) && ThreadOk(run[i], u, run[i].threads[u]);
  }

  /** No key is both in flight and cached, the cache never outgrows its capacity, and no key is
      cached twice. */
  lemma CacheStaysBounded(run: seq<State>, i: nat)
    requires Execution(run) && i < |run|
    ensures |run[i].entries| <= run[i].maxEntries && Distinct(Keys(run[i].entries))
    ensures forall k <- run[i].inFlight :: k !in Keys(run[i].entries)
  {
    RunInvariant(run, i);
  }

  /** In every interleaving the cache holds exactly the `maxEntries` most recently used keys, a use being
      a hit or a publication. */
  lemma CacheHoldsMostRecentlyUsed(run: seq<State>, i: nat)
    requires Execution(run) && i < |run|
    ensures Keys(run[i].entries) == Last(Recency(run[i].history), run[i].maxEntries)
  {
    RunInvariant(run, i);
    CacheIsMostRecent(run[i].history, run[i].maxEntries);
  }

  /** Every dataset handed out for a key, and every cached one, came from a successful opener run
      for that key. */
  lemma OnlyOpenedDatasets(run: seq<State>, i: nat)
    requires Execution(run) && i < |run|
    ensures forall x <- run[i].entries :: x in run[i].obtained
    ensures forall t <- run[i].threads :: var pc := run[i].threads[t];
              pc.Returned? ==> (pc.key, pc.dataset) in run[i].obtained
  {
    RunInvariant(run, i);
    forall t | t in run[i].threads
      ensures run[i].threads[t].Returned? ==> (run[i].threads[t].key, run[i].threads[t].dataset) in run[i].obtained
    {
      assert ThreadOk(run[i], t, run[i].threads[t]);
    }
  }

  /** A failed open leaves nothing behind: the key is neither cached nor in flight, and no other
      entry moved. */
  lemma FailedOpenLeavesNothing(run: seq<State>, i: nat, t: Tid)
    requires Execution(run) && i < |run| - 1 && NextBy(run[i], Withdraw(t), run[i + 1])
    ensures var key := run[i].threads[t].key;
            && key !in Keys(run[i + 1].entries) && key !in run[i + 1].inFlight
            && run[i + 1].entries == run[i].entries && run[i + 1].obtained == run[i].obtained
  {
    RunInvariant(run, i);
    assert ThreadOk(run[i], t, run[i].threads[t]);
  }

  /** Nobody waits for a flight without a leader: as long as a follower's flight is pending, some
      thread is opening that key or about to land it. */
  lemma FollowersHaveALeader(run: seq<State>, i: nat, t: Tid)
    requires Execution(run) && i < |run| && t in run[i].threads && run[i].threads[t].Following?
    ensures var s, pc := run[i], run[i].threads[t];
            && pc.fid < |s.flights|
            && (s.flights[pc.fid].outcome.Pending? ==>
                  exists u :: u in s.threads && Leads(s.threads[u])
                              && s.threads[u].key == pc.key && s.threads[u].fid == pc.fid)
  {
    RunInvariant(run, i);
    assert ThreadOk(run[i], t, run[i].threads[t]);
  }
}
