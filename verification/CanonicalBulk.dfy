/** The bulk resolver: one pass over a schedule agrees with resolving every variable and time alone. */
module CanonicalBulk {
  import opened Wrappers
  import opened Text
  import opened CanonicalFence
  import opened CanonicalSources

  datatype Slot = Slot(variable: string, validTime: int)

  datatype Resolution = Resolution(anchors: map<int, Candidate>,
                                   sources: map<Slot, Option<Candidate>>,
                                   intervalFallbacks: map<Slot, Candidate>,
                                   companionDependencies: map<Slot, Candidate>)

  // ---------------------------------------------------------------- what it should contain

  predicate Considered(m: Schedule, t: int, targets: Option<set<int>>, start: Option<int>) {
    && t in m && m[t] != []
    && (start.Some? ==> start.value <= t)
    && (targets.Some? ==> t in targets.value)
  }

  function Times(m: Schedule, targets: Option<set<int>>, start: Option<int>): set<int> {
    set t | t in m && Considered(m, t, targets, start)
  }

  predicate WantsPrecipitation(vs: seq<string>) {
    PRECIPITATION in vs || exists v <- vs :: IsCompanion(v)
  }

  /** The variables that get an entry: those asked for, with the precipitation source wherever it or a
      companion is asked for, but no misspelt companion. */
  function Resolved(vs: seq<string>): set<string> {
    (if WantsPrecipitation(vs) then {PRECIPITATION} else {})
    + (set v | v in vs && v in COMPANIONS)
    + (set v | v in vs && v != PRECIPITATION && !IsCompanion(v))
  }

  function Slots(times: set<int>, vs: set<string>): set<Slot> {
    set t, v | t in times && v in vs :: Slot(v, t)
  }

  predicate Within(m: Schedule, slots: set<Slot>) {
    forall s <- slots :: s.validTime in m && m[s.validTime] != []
  }

  function Source(m: Schedule, s: Slot): Option<Candidate>
    requires s.validTime in m
  {
    Select(m[s.validTime], s.variable, None)
  }

  function Sources(m: Schedule, slots: set<Slot>): map<Slot, Option<Candidate>>
    requires Within(m, slots)
  {
    map s | s in slots :: Source(m, s)
  }

  /** Interval variables sourced while the newest run stands at lead 0. */
  function Fallbacks(m: Schedule, slots: set<Slot>): map<Slot, Candidate>
    requires Within(m, slots)
  {
    map s | s in slots && s.variable in {PRECIPITATION, CLOUD_COVER}
            && Source(m, s).Some? && m[s.validTime][0].lead == 0
      :: Source(m, s).value
  }

  function Dependencies(m: Schedule, slots: set<Slot>): map<Slot, Candidate>
    requires Within(m, slots)
  {
    map s | s in slots && s.variable in COMPANIONS && Source(m, s).Some? :: Source(m, s).value
  }

  function Anchors(m: Schedule, times: set<int>): map<int, Candidate>
    requires forall t <- times :: t in m && m[t] != []
  {
    map t | t in times :: m[t][0]
  }

  ghost predicate Holds(r: Resolution, m: Schedule, slots: set<Slot>) {
    && Within(m, slots)
    && r.sources == Sources(m, slots)
    && r.intervalFallbacks == Fallbacks(m, slots)
    && r.companionDependencies == Dependencies(m, slots)
  }

  // ---------------------------------------------------------------- the resolver

  /** Enter one source. */
  function Record(r: Resolution, s: Slot, source: Option<Candidate>, fallback: bool, companion: bool): Resolution {
    r.(sources := r.sources[s := source],
       intervalFallbacks :=
         if fallback && source.Some? then r.intervalFallbacks[s := source.value] else r.intervalFallbacks,
       companionDependencies :=
         if companion && source.Some? then r.companionDependencies[s := source.value] else r.companionDependencies)
  }

  lemma SourcesNext(m: Schedule, slots: set<Slot>, s: Slot)
    requires Within(m, slots + {s})
    ensures Sources(m, slots + {s}) == Sources(m, slots)[s := Source(m, s)]
  {
  }

  lemma FallbacksNext(m: Schedule, slots: set<Slot>, s: Slot)
    requires Within(m, slots + {s})
    ensures Fallbacks(m, slots + {s}) ==
            if s in Fallbacks(m, {s}) then Fallbacks(m, slots)[s := Source(m, s).value] else Fallbacks(m, slots)
  {
  }

  lemma DependenciesNext(m: Schedule, slots: set<Slot>, s: Slot)
    requires Within(m, slots + {s})
    ensures Dependencies(m, slots + {s}) ==
            if s in Dependencies(m, {s}) then Dependencies(m, slots)[s := Source(m, s).value]
            else Dependencies(m, slots)
  {
  }

  lemma RecordHolds(r: Resolution, m: Schedule, slots: set<Slot>, s: Slot, source: Option<Candidate>,
                    fallback: bool, companion: bool)
    requires Holds(r, m, slots) && s.validTime in m && m[s.validTime] != [] && source == Source(m, s)
    requires fallback <==> s.variable in {PRECIPITATION, CLOUD_COVER} && m[s.validTime][0].lead == 0
    requires companion <==> s.variable in COMPANIONS
    ensures Holds(Record(r, s, source, fallback, companion), m, slots + {s})
  {
    SourcesNext(m, slots, s);
    FallbacksNext(m, slots, s);
    DependenciesNext(m, slots, s);
  }

  lemma CompanionsFollowPrecipitation(cs: seq<Candidate>, v: string)
    requires v in COMPANIONS
    ensures IsCompanion(v) && v != PRECIPITATION && v != CLOUD_COVER
    ensures Select(cs, v, None) == Select(cs, PRECIPITATION, None)
  {
    assert Strip(v) == v;
    assert Lower(v) == v;
    PrecipitationLeads();
  }

  lemma PrecipitationLeads()
    ensures !IsCompanion(PRECIPITATION) && !IsCompanion(CLOUD_COVER)
  {
    assert Strip(PRECIPITATION) == PRECIPITATION;
    assert Strip(CLOUD_COVER) == CLOUD_COVER;
    assert |Lower(PRECIPITATION)| == 23 && |Lower(CLOUD_COVER)| == 14;
  }

  function CompanionsAmong(vs: seq<string>, n: nat): set<string>
    requires n <= |COMPANIONS|
  {
    set v | v in vs && v in COMPANIONS[..n]
  }

  lemma CompanionsAmongNext(vs: seq<string>, n: nat)
    requires n < |COMPANIONS|
    ensures CompanionsAmong(vs, n + 1) ==
            CompanionsAmong(vs, n) + if COMPANIONS[n] in vs then {COMPANIONS[n]} else {}
    ensures COMPANIONS[n] !in CompanionsAmong(vs, n)
  {
    assert COMPANIONS[..n + 1] == COMPANIONS[..n] + [COMPANIONS[n]];
    assert forall i | 0 <= i < n :: COMPANIONS[i] != COMPANIONS[n];
  }

  lemma SlotsNext(t: int, vs: set<string>, v: string)
    ensures Slots({t}, vs + {v}) == Slots({t}, vs) + {Slot(v, t)}
  {
  }

  /** The precipitation block of one valid time. */
  method ResolvePrecipitation(m: Schedule, t: int, vs: seq<string>, before: Resolution, ghost slots: set<Slot>)
    returns (r: Resolution)
    requires Holds(before, m, slots) && t in m && m[t] != []
    ensures Holds(r, m, slots + Slots({t}, {PRECIPITATION} + CompanionsAmong(vs, 4)))
    ensures r.anchors == before.anchors
  {
    var source := SelectVariableSource(m[t], PRECIPITATION, Some(m[t][0]));
    var atLeadZero := m[t][0].lead == 0;
    RecordHolds(before, m, slots, Slot(PRECIPITATION, t), source, atLeadZero, false);
    r := Record(before, Slot(PRECIPITATION, t), source, atLeadZero, false);
    ghost var done := {PRECIPITATION};
    SlotsNext(t, {}, PRECIPITATION);
    assert slots + {Slot(PRECIPITATION, t)} == slots + Slots({t}, done);
    for i := 0 to 4
      invariant Holds(r, m, slots + Slots({t}, done)) && r.anchors == before.anchors
      invariant done == {PRECIPITATION} + CompanionsAmong(vs, i)
    {
      CompanionsAmongNext(vs, i);
      if COMPANIONS[i] in vs {
        r := ResolveCompanion(m, t, COMPANIONS[i], source, r, slots, done);
        done := done + {COMPANIONS[i]};
      }
    }
  }

  /** One requested companion shares the precipitation source. */
  method ResolveCompanion(m: Schedule, t: int, v: string, source: Option<Candidate>, before: Resolution,
                          ghost slots: set<Slot>, ghost done: set<string>)
    returns (r: Resolution)
    requires t in m && m[t] != [] && v in COMPANIONS && source == Select(m[t], PRECIPITATION, None)
    requires Holds(before, m, slots + Slots({t}, done))
    ensures Holds(r, m, slots + Slots({t}, done + {v})) && r.anchors == before.anchors
  {
    CompanionsFollowPrecipitation(m[t], v);
    RecordHolds(before, m, slots + Slots({t}, done), Slot(v, t), source, false, true);
    r := Record(before, Slot(v, t), source, false, true);
    SlotsNext(t, done, v);
    assert slots + Slots({t}, done + {v}) == slots + Slots({t}, done) + {Slot(v, t)};
  }

  function OrdinaryAmong(vs: seq<string>): set<string> {
    set v | v in vs && v != PRECIPITATION && !IsCompanion(v)
  }

  lemma OrdinaryNext(slots: set<Slot>, t: int, vs: seq<string>, n: nat)
    requires n < |vs|
    ensures slots + Slots({t}, OrdinaryAmong(vs[..n + 1])) ==
            if vs[n] != PRECIPITATION && !IsCompanion(vs[n])
            then (slots + Slots({t}, OrdinaryAmong(vs[..n]))) + {Slot(vs[n], t)}
            else slots + Slots({t}, OrdinaryAmong(vs[..n]))
  {
    var here := OrdinaryAmong(vs[..n]);
    assert vs[..n + 1] == vs[..n] + [vs[n]];
    assert OrdinaryAmong(vs[..n + 1]) ==
           here + if vs[n] != PRECIPITATION && !IsCompanion(vs[n]) then {vs[n]} else {};
    SlotsNext(t, here, vs[n]);
    assert slots + (Slots({t}, here) + {Slot(vs[n], t)}) == (slots + Slots({t}, here)) + {Slot(vs[n], t)};
  }

  /** The loop over the other variables of one valid time. */
  method ResolveOrdinary(m: Schedule, t: int, vs: seq<string>, before: Resolution, ghost slots: set<Slot>)
    returns (r: Resolution)
    requires Holds(before, m, slots) && t in m && m[t] != []
    ensures Holds(r, m, slots + Slots({t}, OrdinaryAmong(vs)))
    ensures r.anchors == before.anchors
  {
    r := before;
    assert OrdinaryAmong(vs[..0]) == {};
    assert slots + Slots({t}, {}) == slots;
    for i := 0 to |vs|
      invariant Holds(r, m, slots + Slots({t}, OrdinaryAmong(vs[..i]))) && r.anchors == before.anchors
    {
      var v := vs[i];
      OrdinaryNext(slots, t, vs, i);
      if v == PRECIPITATION || IsCompanion(v) { continue; }
      if v in COMPANIONS { CompanionsFollowPrecipitation(m[t], v); }
      ghost var done := slots + Slots({t}, OrdinaryAmong(vs[..i]));
      var source := SelectVariableSource(m[t], v, Some(m[t][0]));
      var fallback := v == CLOUD_COVER && m[t][0].lead == 0;
      RecordHolds(r, m, done, Slot(v, t), source, fallback, false);
      r := Record(r, Slot(v, t), source, fallback, false);
    }
    assert vs[..|vs|] == vs;
  }

  lemma ResolvedParts(vs: seq<string>)
    ensures Resolved(vs) ==
            (if WantsPrecipitation(vs) then {PRECIPITATION} + CompanionsAmong(vs, 4) else {}) + OrdinaryAmong(vs)
  {
    assert COMPANIONS[..4] == COMPANIONS;
    forall v | v in vs && v in COMPANIONS ensures WantsPrecipitation(vs) {
      CompanionsFollowPrecipitation([], v);
    }
  }

  lemma TimeAdded(m: Schedule, times: set<int>, t: int, vs: set<string>)
    requires forall u <- times + {t} :: u in m && m[u] != []
    ensures Slots(times + {t}, vs) == Slots(times, vs) + Slots({t}, vs)
    ensures Anchors(m, times + {t}) == Anchors(m, times)[t := m[t][0]]
  {
  }

  /** The resolution of a set of valid times. */
  ghost predicate ResolvedAt(r: Resolution, m: Schedule, times: set<int>, vs: seq<string>) {
    && (forall t <- times :: t in m && m[t] != [])
    && r.anchors == Anchors(m, times)
    && Holds(r, m, Slots(times, Resolved(vs)))
  }

  /** One valid time. */
  method ResolveTime(m: Schedule, t: int, vs: seq<string>, before: Resolution, ghost times: set<int>)
    returns (r: Resolution)
    requires ResolvedAt(before, m, times, vs) && t in m && m[t] != []
    ensures ResolvedAt(r, m, times + {t}, vs)
  {
    r := before.(anchors := before.anchors[t := m[t][0]]);
    ghost var slots := Slots(times, Resolved(vs));
    ghost var done := slots;
    ResolvedParts(vs);
    if WantsPrecipitation(vs) {
      r := ResolvePrecipitation(m, t, vs, r, slots);
      done := slots + Slots({t}, {PRECIPITATION} + CompanionsAmong(vs, 4));
    }
    r := ResolveOrdinary(m, t, vs, r, done);
    assert done + Slots({t}, OrdinaryAmong(vs)) == slots + Slots({t}, Resolved(vs));
    TimeAdded(m, times, t, Resolved(vs));
  }

  lemma NothingResolved(m: Schedule, vs: seq<string>)
    ensures ResolvedAt(Resolution(map[], map[], map[], map[]), m, {}, vs)
  {
    assert Slots({}, Resolved(vs)) == {};
  }

  /** One valid time, passed over unless it is considered. */
  method ResolveNext(m: Schedule, t: int, vs: seq<string>, targets: Option<set<int>>, start: Option<int>,
                     before: Resolution, ghost times: set<int>)
    returns (r: Resolution)
    requires ResolvedAt(before, m, times, vs) && t in m
    ensures ResolvedAt(r, m, times + (Times(m, targets, start) * {t}), vs)
  {
    if Considered(m, t, targets, start) {
      r := ResolveTime(m, t, vs, before, times);
      assert Times(m, targets, start) * {t} == {t};
    } else {
      r := before;
      assert times + (Times(m, targets, start) * {t}) == times;
    }
  }

  lemma OneMoreTime(all: set<int>, left: set<int>, t: int)
    requires t in left
    ensures (all - left) + (all * {t}) == all - (left - {t})
  {
  }

  /** `select_canonical_sources_bulk` */
  method ResolveBulk(m: Schedule, vs: seq<string>, targets: Option<set<int>>, start: Option<int>)
    returns (r: Resolution)
    ensures ResolvedAt(r, m, Times(m, targets, start), vs)
  {
    r := Resolution(map[], map[], map[], map[]);
    NothingResolved(m, vs);
    ghost var all := Times(m, targets, start);
    var left: set<int> := m.Keys;
    assert all - left == {};
    while left != {}
      invariant left <= m.Keys
      invariant ResolvedAt(r, m, all - left, vs)
      decreases |left|
    {
      SomeTime(left);
      var t :| t in left;
      r := ResolveNext(m, t, vs, targets, start, r, all - left);
      OneMoreTime(all, left, t);
      left := left - {t};
    }
    assert all - left == all;
  }

  // ---------------------------------------------------------------- bulk and single resolution agree

  /** Every requested variable has an entry, unless it is a companion in another spelling. */
  lemma RequestedIsResolved(vs: seq<string>, v: string)
    requires v in vs
    ensures v in Resolved(vs) <==> !IsCompanion(v) || v in COMPANIONS
  {
    if v in COMPANIONS { CompanionsFollowPrecipitation([], v); }
    PrecipitationLeads();
  }

  /** The bulk answer over a fenced deterministic schedule names, for every requested variable and
      every valid time it serves, the first candidate that still has what the variable needs. */
  lemma BulkNamesTheOwner(m: Schedule, keys: set<FenceKey>, p: Policy, vs: seq<string>,
                          targets: Option<set<int>>, start: Option<int>, r: Resolution, v: string, t: int)
    requires !p.isEnsemble
    requires forall u <- m.Keys :: LeadAscending(m[u]) && NamesVariables(m[u])
    requires ResolvedAt(r, Fenced(m, IndexOf(keys), p), Times(Fenced(m, IndexOf(keys), p), targets, start), vs)
    requires v in vs && (IsCompanion(v) ==> v in COMPANIONS)
    requires Considered(Fenced(m, IndexOf(keys), p), t, targets, start)
    ensures Slot(v, t) in r.sources && r.sources[Slot(v, t)] == Owner(m[t], IndexOf(keys), p, v)
  {
    RequestedIsResolved(vs, v);
    FencedSelection(m, keys, p, t, v);
  }

  // ---------------------------------------------------------------- the entries, one by one

  /** The valid times resolved: those with candidates, wanted, and not before the serving start; each is
      anchored at its newest candidate. */
  lemma AnchorEntries(m: Schedule, vs: seq<string>, targets: Option<set<int>>, start: Option<int>, r: Resolution,
                      t: int)
    requires ResolvedAt(r, m, Times(m, targets, start), vs)
    ensures t in r.anchors <==>
              && t in m && m[t] != []
              && (start.None? || t >= start.value) && (targets.None? || t in targets.value)
    ensures t in r.anchors ==> r.anchors[t] == m[t][0]
  {
  }

  lemma ResolvedNames(vs: seq<string>, v: string)
    ensures v in Resolved(vs) <==>
              || (v == "precipitation_amount_3h" && (v in vs || exists w <- vs :: IsCompanion(w)))
              || (v in vs && (v == "crain" || v == "csnow" || v == "cfrzr" || v == "cicep"))
              || (v in vs && !IsCompanion(v))
  {
    PrecipitationLeads();
    FourNames(v);
  }

  /** The variables with an entry: the amount if it or a flag in any spelling is asked for, the flags asked
      for by their own names, and every other variable asked for; each with its own source. */
  lemma SourceEntries(m: Schedule, vs: seq<string>, targets: Option<set<int>>, start: Option<int>, r: Resolution,
                      v: string, t: int)
    requires ResolvedAt(r, m, Times(m, targets, start), vs)
    ensures Slot(v, t) in r.sources <==>
              && t in r.anchors
              && (|| (v == "precipitation_amount_3h" && (v in vs || exists w <- vs :: IsCompanion(w)))
                  || (v in vs && (v == "crain" || v == "csnow" || v == "cfrzr" || v == "cicep"))
                  || (v in vs && !IsCompanion(v)))
    ensures Slot(v, t) in r.sources ==> r.sources[Slot(v, t)] == Select(m[t], v, None)
  {
    ResolvedNames(vs, v);
    assert Slot(v, t) in r.sources <==> t in r.anchors && v in Resolved(vs);
  }

  lemma FourNames(v: string)
    ensures v in COMPANIONS <==> v == "crain" || v == "csnow" || v == "cfrzr" || v == "cicep"
  {
    assert COMPANIONS[0] == "crain" && COMPANIONS[1] == "csnow" && COMPANIONS[2] == "cfrzr" && COMPANIONS[3] == "cicep";
  }

  /** A fallback is noted exactly for the two intervals, when they have a source and the newest candidate
      stands at lead 0. */
  lemma FallbackEntries(m: Schedule, vs: seq<string>, targets: Option<set<int>>, start: Option<int>, r: Resolution,
                        v: string, t: int)
    requires ResolvedAt(r, m, Times(m, targets, start), vs)
    ensures Slot(v, t) in r.intervalFallbacks <==>
              && Slot(v, t) in r.sources && r.sources[Slot(v, t)].Some? && r.anchors[t].lead == 0
              && (v == "precipitation_amount_3h" || v == "cloud_cover_3h")
    ensures Slot(v, t) in r.intervalFallbacks ==> Some(r.intervalFallbacks[Slot(v, t)]) == r.sources[Slot(v, t)]
  {
  }

  /** A companion dependency is noted exactly for the four flags that have a source. */
  lemma DependencyEntries(m: Schedule, vs: seq<string>, targets: Option<set<int>>, start: Option<int>, r: Resolution,
                          v: string, t: int)
    requires ResolvedAt(r, m, Times(m, targets, start), vs)
    ensures Slot(v, t) in r.companionDependencies <==>
              && Slot(v, t) in r.sources && r.sources[Slot(v, t)].Some?
              && (v == "crain" || v == "csnow" || v == "cfrzr" || v == "cicep")
    ensures Slot(v, t) in r.companionDependencies ==>
              Some(r.companionDependencies[Slot(v, t)]) == r.sources[Slot(v, t)]
  {
    FourNames(v);
  }
}
