/** Precipitation phase of one ensemble member, and the support an ensemble gives each phase. */
module Precipitation {
  import opened Wrappers
  import opened Arrays

  const TRACE := 0.10

  datatype Phase = Dry | Rain | Snow | FreezingRain | IcePellets | UnknownPhase

  /** A summary type: `Pure(p)` carries the name of its phase. */
  datatype Kind = NoPrecipitation | Pure(phase: Phase) | Mixed | UnknownKind

  datatype Evidence = Exact | StronglyInferred | Ambiguous

  datatype Flags = Flags(crain: bool, csnow: bool, cfrzr: bool, cicep: bool)

  /** The state of one member over one interval. */
  datatype State = State(interval: Kind, start: Kind, end: Kind, transition: Transition, evidence: Evidence,
                         active: set<Phase>, amount: Option<real>)

  const PHASES: set<Phase> := {Dry, Rain, Snow, FreezingRain, IcePellets, UnknownPhase}

  /** The transitions a name can be formed for; `IsListed` says which of them are enumerated. */
  datatype Transition =
    | NoTransition | Persistent(phase: Phase) | DryTo(phase: Phase) | WetToDry
    | Change(before: Phase, after: Phase) | MixedTransition | UnknownTransition

  predicate IsListed(t: Transition) {
    match t
    case Persistent(p) => p != Dry && p != UnknownPhase
    case DryTo(p) => p != Dry && p != UnknownPhase
    case Change(p, q) =>
      (p, q) in {(Rain, Snow), (Snow, Rain), (Rain, FreezingRain), (FreezingRain, Rain), (Snow, FreezingRain),
                 (FreezingRain, Snow), (Snow, IcePellets), (IcePellets, Snow)}
    case _ => true
  }

  function Listed(t: Transition, otherwise: Transition): Transition {
    if IsListed(t) then t else otherwise
  }

  // ---------------------------------------------------------------- sets of phases

  predicate IsWet(p: Phase) {
    p != Dry && p != UnknownPhase
  }

  /** `_extract_active_physical_phases` */
  function ActivePhases(flags: Option<Flags>): (r: set<Phase>)
    ensures forall p <- r :: IsWet(p)
  {
    if flags.None? then {}
    else
      (if flags.value.crain then {Rain} else {}) + (if flags.value.csnow then {Snow} else {})
      + (if flags.value.cfrzr then {FreezingRain} else {}) + (if flags.value.cicep then {IcePellets} else {})
  }

  function One(b: bool): nat {
    if b then 1 else 0
  }

  function WetPhases(s: set<Phase>): set<Phase> {
    set p | p in s && IsWet(p)
  }

  /** `len` of a set of wet phases; `SizeIsLength` says so. */
  function Size(s: set<Phase>): nat {
    One(Rain in s) + One(Snow in s) + One(FreezingRain in s) + One(IcePellets in s)
  }

  /** The element of a set of one wet phase. */
  function Only(s: set<Phase>): Phase {
    if Rain in s then Rain else if Snow in s then Snow else if FreezingRain in s then FreezingRain else IcePellets
  }

  // ---------------------------------------------------------------- classification

  predicate Above(amount: Option<Sample>, trace: real) {
    amount.Some? && amount.value.Finite? && amount.value.x > trace
  }

  predicate AtMost(amount: Option<Sample>, trace: real) {
    amount.Some? && amount.value.Finite? && amount.value.x <= trace
  }

  function Single(p: Phase, start: Kind, transition: Transition, active: set<Phase>, amount: real): State {
    State(Pure(p), start, Pure(p), Listed(transition, UnknownTransition), Exact, active, Some(amount))
  }

  /** The wet cases with at least one flag. */
  function ClassifyWet(mm: real, current: set<Phase>, amountBefore: Option<Sample>, flagsBefore: Option<Flags>,
                       trace: real)
    : (r: State)
    ensures r.active == current && r.amount == Some(mm) && (r.interval.Pure? || r.interval.Mixed?)
    ensures IsListed(r.transition)
  {
    var before := ActivePhases(flagsBefore);
    var dryBefore := AtMost(amountBefore, trace);
    if amountBefore.None? || dryBefore || flagsBefore.None? then
      if Size(current) == 1 then
        var p := Only(current);
        Single(p, if dryBefore then NoPrecipitation else Pure(p),
               if dryBefore then DryTo(p) else Persistent(p), current, mm)
      else
        State(Mixed, if dryBefore then NoPrecipitation else Mixed, Mixed, MixedTransition, StronglyInferred, current,
              Some(mm))
    else if current == before && Size(current) == 1 then
      Single(Only(current), Pure(Only(current)), Persistent(Only(current)), current, mm)
    else
      var added := current - before;
      var start := if Size(before) == 1 then Pure(Only(before)) else Mixed;
      var end := if Size(added) == 1 then Pure(Only(added)) else Mixed;
      if Size(before) == 1 && Size(added) == 1 then
        State(Mixed, start, end, Listed(Change(Only(before), Only(added)), MixedTransition),
              StronglyInferred, current, Some(mm))
      else
        State(Mixed, start, end, MixedTransition, Ambiguous, current, Some(mm))
  }

  /** `classify_precipitation_phase`; the temperatures are accepted and not used. */
  function Classify(amount: Option<Sample>, flags: Option<Flags>,
                    amountBefore: Option<Sample>, flagsBefore: Option<Flags>,
                    tempStart: Option<real>, tempEnd: Option<real>, trace: real): State
  {
    if amount.None? || amount.value.NonFinite? then
      State(NoPrecipitation, NoPrecipitation, NoPrecipitation, NoTransition, Exact, {}, None)
    else
      var mm := amount.value.x;
      var current := ActivePhases(flags);
      if mm <= trace then
        var wetBefore := Above(amountBefore, trace);
        State(NoPrecipitation, NoPrecipitation, NoPrecipitation, if wetBefore then WetToDry else NoTransition,
              if wetBefore then StronglyInferred else Exact, {}, Some(mm))
      else if current == {} then
        State(UnknownKind, UnknownKind, UnknownKind, UnknownTransition, Ambiguous, {UnknownPhase}, Some(mm))
      else ClassifyWet(mm, current, amountBefore, flagsBefore, trace)
  }

  // ---------------------------------------------------------------- weights

  predicate IsDry(s: State) {
    s.amount.None? || s.amount.value <= TRACE || s.interval == NoPrecipitation
  }

  /** Where the support of a member goes; a member with no known wet phase supports a single bucket. */
  function Buckets(s: State): (r: set<Phase>)
    ensures r != {}
  {
    if IsDry(s) then assert Dry in {Dry}; {Dry}
    else if s.interval == UnknownKind || WetPhases(s.active) == {} then
      assert UnknownPhase in {UnknownPhase};
      {UnknownPhase}
    else WetPhases(s.active)
  }

  /** An equal split over a set of buckets. */
  function Share(buckets: set<Phase>, p: Phase): real
    requires buckets != {}
  {
    if p in buckets then 1.0 / |buckets| as real else 0.0
  }

  function Weight(s: State, p: Phase): real {
    Share(Buckets(s), p)
  }

  function Weights(s: State): map<Phase, real> {
    map p | p in PHASES :: Weight(s, p)
  }

  /** `compute_phase_weights` */
  method ComputePhaseWeights(s: State) returns (weights: map<Phase, real>)
    ensures weights == Weights(s)
  {
    weights := map[Dry := 0.0, Rain := 0.0, Snow := 0.0, FreezingRain := 0.0, IcePellets := 0.0, UnknownPhase := 0.0];
    if s.amount.None? || s.amount.value <= TRACE || s.interval == NoPrecipitation {
      weights := weights[Dry := 1.0];
      return;
    }
    if s.interval == UnknownKind || s.active == {} {
      assert WetPhases({}) == {};
      weights := weights[UnknownPhase := 1.0];
      return;
    }
    var known := WetPhases(s.active);
    if known == {} {
      weights := weights[UnknownPhase := 1.0];
      return;
    }
    var split := 1.0 / |known| as real;
    var left := known;
    while left != {}
      invariant left <= known
      invariant weights.Keys == PHASES
      invariant forall p <- weights.Keys :: weights[p] == if p in known && p !in left then split else 0.0
      decreases |left|
    {
      var p :| p in left;
      weights := weights[p := split];
      left := left - {p};
    }
  }

  // ---------------------------------------------------------------- weights of one member

  lemma CountThree(s: set<Phase>, a: Phase, b: Phase, c: Phase)
    requires s <= {a, b, c} && a != b && b != c && a != c
    ensures |s| == One(a in s) + One(b in s) + One(c in s)
  {
    Without(s, a);
    Without(s - {a}, b);
    Without(s - {a} - {b}, c);
    assert s - {a} - {b} - {c} == {};
  }

  lemma Without(s: set<Phase>, p: Phase)
    ensures |s| == |s - {p}| + One(p in s)
  {
    if p in s { assert s == (s - {p}) + {p}; } else { assert s == s - {p}; }
  }

  // The buckets in two halves, so that each is counted on its own.
  const FIRST: set<Phase> := {Dry, Rain, Snow}
  const SECOND: set<Phase> := {FreezingRain, IcePellets, UnknownPhase}

  lemma Halves(s: set<Phase>)
    ensures |s| == |s * FIRST| + |s * SECOND|
  {
    var first, second := s * FIRST, s * SECOND;
    forall p | p in s ensures p in first + second {
      match p case Dry => case Rain => case Snow => case FreezingRain => case IcePellets => case UnknownPhase =>
    }
    assert s == first + second && first * second == {};
  }

  function Total(w: map<Phase, real>): real
    requires w.Keys == PHASES
  {
    w[Dry] + w[Rain] + w[Snow] + w[FreezingRain] + w[IcePellets] + w[UnknownPhase]
  }

  lemma Reciprocal(n: nat)
    requires n > 0
    ensures n as real * (1.0 / n as real) == 1.0 && 0.0 < 1.0 / n as real <= 1.0
  {
  }

  lemma ShareInUnit(b: set<Phase>, p: Phase)
    requires b != {}
    ensures Share(b, p) == One(p in b) as real * (1.0 / |b| as real)
    ensures 0.0 <= Share(b, p) <= 1.0
  {
    Reciprocal(|b|);
  }

  function FirstShares(b: set<Phase>): real
    requires b != {}
  {
    Share(b, Dry) + Share(b, Rain) + Share(b, Snow)
  }

  function SecondShares(b: set<Phase>): real
    requires b != {}
  {
    Share(b, FreezingRain) + Share(b, IcePellets) + Share(b, UnknownPhase)
  }

  function Portion(m: nat, size: nat): real
    requires size > 0
  {
    m as real / size as real
  }

  lemma FirstSharesCount(b: set<Phase>)
    requires b != {}
    ensures FirstShares(b) == Portion(|b * FIRST|, |b|)
  {
    CountThree(b * FIRST, Dry, Rain, Snow);
  }

  lemma SecondSharesCount(b: set<Phase>)
    requires b != {}
    ensures SecondShares(b) == Portion(|b * SECOND|, |b|)
  {
    CountThree(b * SECOND, FreezingRain, IcePellets, UnknownPhase);
  }

  lemma PortionsAdd(m: nat, n: nat, size: nat)
    requires size == m + n && size > 0
    ensures Portion(m, size) + Portion(n, size) == 1.0
  {
  }

  lemma SharesSumToOne(b: set<Phase>)
    requires b != {}
    ensures FirstShares(b) + SecondShares(b) == 1.0
  {
    Halves(b);
    FirstSharesCount(b);
    SecondSharesCount(b);
    PortionsAdd(|b * FIRST|, |b * SECOND|, |b|);
  }

  /** The weights of a member are shares of one. */
  lemma WeightsSumToOne(s: State)
    ensures Total(Weights(s)) == 1.0 && forall p :: 0.0 <= Weight(s, p) <= 1.0
  {
    SharesSumToOne(Buckets(s));
    forall p ensures 0.0 <= Weight(s, p) <= 1.0 { ShareInUnit(Buckets(s), p); }
  }

  /** What the current inputs alone say: dry up to the higher of the two thresholds, unknown without a
      flag, else an equal split over the flagged phases. */
  function DirectBuckets(amount: Option<Sample>, flags: Option<Flags>, trace: real): set<Phase> {
    if !Above(amount, trace) || !Above(amount, TRACE) then {Dry}
    else if ActivePhases(flags) == {} then {UnknownPhase}
    else ActivePhases(flags)
  }

  /** Each flag stands for its own phase. */
  lemma FlagsArePhases(flags: Flags)
    ensures var active := ActivePhases(Some(flags));
            && (Rain in active <==> flags.crain) && (Snow in active <==> flags.csnow)
            && (FreezingRain in active <==> flags.cfrzr) && (IcePellets in active <==> flags.cicep)
            && Dry !in active && UnknownPhase !in active
    ensures ActivePhases(None) == {}
  {
    assert !IsWet(Dry) && !IsWet(UnknownPhase);
  }

  /** The weights of a classified member depend on its current amount and flags only, for any
      predecessor, any temperatures and any threshold. */
  lemma CurrentInputsDecide(amount: Option<Sample>, flags: Option<Flags>, amountBefore: Option<Sample>,
                            flagsBefore: Option<Flags>, tempStart: Option<real>, tempEnd: Option<real>, trace: real)
    ensures var s := Classify(amount, flags, amountBefore, flagsBefore, tempStart, tempEnd, trace);
            && Buckets(s) == DirectBuckets(amount, flags, trace)
            && IsListed(s.transition)
  {
    var active := ActivePhases(flags);
    assert WetPhases(active) == active;
  }

  /** At the default threshold a member counts as dry up to a tenth of a millimetre, inclusive. */
  lemma DryUpToATenth(mm: real, flags: Option<Flags>, amountBefore: Option<Sample>, flagsBefore: Option<Flags>)
    ensures Weight(Classify(Some(Finite(mm)), flags, amountBefore, flagsBefore, None, None, TRACE), Dry) ==
            if mm <= 0.1 then 1.0 else 0.0
  {
    CurrentInputsDecide(Some(Finite(mm)), flags, amountBefore, flagsBefore, None, None, TRACE);
    assert Dry !in ActivePhases(flags) by { assert !IsWet(Dry); }
    assert |{Dry}| == 1;
  }

  lemma SizeIsLength(s: set<Phase>)
    requires forall p <- s :: IsWet(p)
    ensures Size(s) == |s|
  {
    Halves(s);
    CountThree(s * FIRST, Dry, Rain, Snow);
    CountThree(s * SECOND, FreezingRain, IcePellets, UnknownPhase);
    assert !IsWet(Dry) && !IsWet(UnknownPhase);
  }

  lemma OnlyPhase(s: set<Phase>)
    requires Size(s) == 1 && forall p <- s :: IsWet(p)
    ensures s == {Only(s)}
  {
    forall p | p in s ensures p == Only(s) {
      match p case Rain => case Snow => case FreezingRain => case IcePellets => case _ =>
    }
  }

  predicate Unrelated(amountBefore: Option<Sample>, flagsBefore: Option<Flags>, trace: real) {
    amountBefore.None? || AtMost(amountBefore, trace) || flagsBefore.None?
  }

  /** The summary of an interval with no comparable predecessor, or with exactly the same single phase. */
  lemma PlainSummary(mm: real, now: set<Phase>, amountBefore: Option<Sample>, flagsBefore: Option<Flags>, trace: real)
    requires forall p <- now :: IsWet(p)
    requires Unrelated(amountBefore, flagsBefore, trace) || (now == ActivePhases(flagsBefore) && Size(now) == 1)
    ensures var s := ClassifyWet(mm, now, amountBefore, flagsBefore, trace);
            var dryBefore := AtMost(amountBefore, trace);
            && (s.interval.Pure? <==> Size(now) == 1)
            && (s.interval.Pure? ==> now == {s.interval.phase})
            && (s.interval.Pure? ==> s.end == s.interval && s.evidence == Exact)
            && (s.interval.Pure? ==>
                  s.transition == (if dryBefore then DryTo(s.interval.phase) else Persistent(s.interval.phase)))
            && s.start == (if dryBefore then NoPrecipitation else s.interval)
            && (s.interval.Mixed? ==> s.end == Mixed && s.transition == MixedTransition)
            && (s.interval.Mixed? ==> s.evidence == StronglyInferred)
  {
    if Size(now) == 1 { OnlyPhase(now); }
  }

  /** Which changes have a name: rain and snow, rain and freezing rain, snow and freezing rain, snow and
      ice pellets, in both directions. */
  predicate Named(p: Phase, q: Phase) {
    Either(p, q, Rain, Snow) || Either(p, q, Rain, FreezingRain) || Either(p, q, Snow, FreezingRain)
    || Either(p, q, Snow, IcePellets)
  }

  predicate Either(p: Phase, q: Phase, a: Phase, b: Phase) {
    (p == a && q == b) || (p == b && q == a)
  }

  lemma NamedTransitions(p: Phase, q: Phase)
    ensures IsListed(Change(p, q)) <==> Named(p, q)
    ensures IsListed(Persistent(p)) <==> p in {Rain, Snow, FreezingRain, IcePellets}
    ensures IsListed(DryTo(p)) <==> p in {Rain, Snow, FreezingRain, IcePellets}
  {
  }

  /** The summary of a change: it starts with the only earlier phase and ends with the only new one,
      where they are unique; then the change is named if it has a name, and mixed otherwise. */
  lemma ChangeSummary(mm: real, now: set<Phase>, amountBefore: Option<Sample>, flagsBefore: Option<Flags>, trace: real)
    requires forall p <- now :: IsWet(p)
    requires !Unrelated(amountBefore, flagsBefore, trace) && !(now == ActivePhases(flagsBefore) && Size(now) == 1)
    ensures var s := ClassifyWet(mm, now, amountBefore, flagsBefore, trace);
            var before := ActivePhases(flagsBefore);
            && s.interval == Mixed
            && (s.start.Pure? <==> Size(before) == 1) && (s.start.Pure? ==> before == {s.start.phase})
            && (s.end.Pure? <==> Size(now - before) == 1) && (s.end.Pure? ==> now - before == {s.end.phase})
            && s.transition ==
               (if s.start.Pure? && s.end.Pure? && Named(s.start.phase, s.end.phase)
                then Change(s.start.phase, s.end.phase) else MixedTransition)
            && (s.evidence == Ambiguous <==> !(s.start.Pure? && s.end.Pure?))
            && (s.evidence == StronglyInferred <==> s.start.Pure? && s.end.Pure?)
  {
    var before := ActivePhases(flagsBefore);
    if Size(before) == 1 { OnlyPhase(before); }
    if Size(now - before) == 1 { OnlyPhase(now - before); }
    NamedTransitions(Only(before), Only(now - before));
  }

  /** The dry and the unknown intervals: dry exactly up to the threshold, unknown exactly without a flag. */
  lemma DrySummary(amount: Option<Sample>, flags: Option<Flags>, amountBefore: Option<Sample>,
                   flagsBefore: Option<Flags>, tempStart: Option<real>, tempEnd: Option<real>, trace: real)
    ensures var s := Classify(amount, flags, amountBefore, flagsBefore, tempStart, tempEnd, trace);
            && (s.interval == NoPrecipitation <==> !Above(amount, trace))
            && (s.interval == UnknownKind <==> Above(amount, trace) && ActivePhases(flags) == {})
            && (s.transition == WetToDry <==> AtMost(amount, trace) && Above(amountBefore, trace))
            && (s.interval == NoPrecipitation ==>
                  && s.start == s.end == NoPrecipitation && s.active == {}
                  && (s.transition == WetToDry || s.transition == NoTransition)
                  && s.evidence == if s.transition == WetToDry then StronglyInferred else Exact)
            && (s.interval == UnknownKind ==>
                  && s.start == s.end == UnknownKind && s.active == {UnknownPhase}
                  && s.transition == UnknownTransition && s.evidence == Ambiguous)
            && (s.amount.Some? <==> amount.Some? && amount.value.Finite?)
            && (s.amount.Some? ==> s.amount.value == amount.value.x)
  {
  }

  // ---------------------------------------------------------------- ensemble support

  datatype Error = NoMembers | NegativeThreshold

  function Support(states: seq<State>, n: nat, p: Phase): real
    requires n > 0
  {
    if states == [] then 0.0 else Support(states[..|states| - 1], n, p) + Weight(states[|states| - 1], p) / n as real
  }

  function SupportMap(states: seq<State>, n: nat): map<Phase, real>
    requires n > 0
  {
    map p | p in PHASES :: Support(states, n, p)
  }

  function Added(support: map<Phase, real>, w: map<Phase, real>, n: nat): map<Phase, real>
    requires support.Keys == w.Keys == PHASES && n > 0
  {
    map p | p in PHASES :: support[p] + w[p] / n as real
  }

  lemma SupportMapNext(states: seq<State>, i: nat, n: nat)
    requires i < |states| && n > 0
    ensures SupportMap(states[..i + 1], n) == Added(SupportMap(states[..i], n), Weights(states[i]), n)
  {
    assert states[..i + 1][..i] == states[..i];
  }

  /** The loop over the weights of one member. */
  method AddShares(support: map<Phase, real>, w: map<Phase, real>, n: nat) returns (r: map<Phase, real>)
    requires support.Keys == w.Keys == PHASES && n > 0
    ensures r == Added(support, w, n)
  {
    r := support;
    ghost var sums := Added(support, w, n);
    var left := w.Keys;
    while left != {}
      invariant left <= w.Keys == r.Keys
      invariant forall p <- w.Keys :: r[p] == if p in left then support[p] else sums[p]
      decreases |left|
    {
      var p :| p in left;
      r := r[p := r[p] + w[p] / n as real];
      left := left - {p};
    }
  }

  lemma NoSupport(n: nat)
    requires n > 0
    ensures SupportMap([], n) == map p | p in PHASES :: 0.0
  {
  }

  /** `aggregate_ensemble_phase_support` */
  method AggregateSupport(states: seq<State>) returns (r: Result<map<Phase, real>, Error>)
    ensures r == if states == [] then Err(NoMembers) else Ok(SupportMap(states, |states|))
  {
    if states == [] { return Err(NoMembers); }
    var n := |states|;
    var support: map<Phase, real> := map p | p in PHASES :: 0.0;
    NoSupport(n);
    for i := 0 to n
      invariant support == SupportMap(states[..i], n)
    {
      SupportMapNext(states, i, n);
      var w := ComputePhaseWeights(states[i]);
      support := AddShares(support, w, n);
    }
    assert states[..n] == states;
    r := Ok(support);
  }

  /** `state.amount_3h_mm if ... is not None else 0.0` */
  predicate Reaches(s: State, threshold: real) {
    threshold <= if s.amount.Some? then s.amount.value else 0.0
  }

  function JointMass(states: seq<State>, threshold: real, p: Phase): real {
    if states == [] then 0.0
    else
      var last := states[|states| - 1];
      JointMass(states[..|states| - 1], threshold, p) + if Reaches(last, threshold) then Weight(last, p) else 0.0
  }

  function Joint(states: seq<State>, threshold: real, p: Phase): Result<real, Error> {
    if states == [] then Err(NoMembers)
    else if threshold < 0.0 then Err(NegativeThreshold)
    else Ok(JointMass(states, threshold, p) / |states| as real)
  }

  /** `compute_joint_amount_phase_support` */
  method ComputeJointSupport(states: seq<State>, threshold: real, p: Phase) returns (r: Result<real, Error>)
    ensures r == Joint(states, threshold, p)
  {
    if states == [] { return Err(NoMembers); }
    if threshold < 0.0 { return Err(NegativeThreshold); }
    var mass := 0.0;
    for i := 0 to |states|
      invariant mass == JointMass(states[..i], threshold, p)
    {
      assert states[..i + 1][..i] == states[..i];
      if Reaches(states[i], threshold) {
        var w := ComputePhaseWeights(states[i]);
        mass := mass + if p in w then w[p] else 0.0;
      }
    }
    assert states[..|states|] == states;
    r := Ok(mass / |states| as real);
  }

  // ---------------------------------------------------------------- laws of the support

  function Mass(states: seq<State>, p: Phase): real {
    if states == [] then 0.0 else Mass(states[..|states| - 1], p) + Weight(states[|states| - 1], p)
  }

  lemma QuotientsAdd(a: real, b: real, n: real)
    requires n > 0.0
    ensures a / n + b / n == (a + b) / n
  {
  }

  lemma {:induction false} SupportIsMean(states: seq<State>, n: nat, p: Phase)
    requires n > 0
    ensures Support(states, n, p) == Mass(states, p) / n as real
  {
    if states == [] {
    } else {
      var rest, last := states[..|states| - 1], states[|states| - 1];
      SupportIsMean(rest, n, p);
      QuotientsAdd(Mass(rest, p), Weight(last, p), n as real);
    }
  }

  lemma {:induction false} SupportsAddUp(states: seq<State>, n: nat)
    requires n > 0
    ensures Support(states, n, Dry) + Support(states, n, Rain) + Support(states, n, Snow)
            + Support(states, n, FreezingRain) + Support(states, n, IcePellets) + Support(states, n, UnknownPhase)
            == |states| as real / n as real
  {
    if states == [] {
    } else {
      var s := states[|states| - 1];
      SupportsAddUp(states[..|states| - 1], n);
      WeightsSumToOne(s);
      SixQuotients(Weight(s, Dry), Weight(s, Rain), Weight(s, Snow), Weight(s, FreezingRain), Weight(s, IcePellets),
                   Weight(s, UnknownPhase), n as real);
      QuotientsAdd((|states| - 1) as real, 1.0, n as real);
    }
  }

  /** The supports of a non-empty ensemble add up to one. */
  lemma SupportSumsToOne(states: seq<State>)
    requires states != []
    ensures Total(SupportMap(states, |states|)) == 1.0
  {
    SupportsAddUp(states, |states|);
    TotalSupport(states, |states|);
    Whole(|states| as real);
  }

  lemma TotalSupport(states: seq<State>, n: nat)
    requires n > 0
    ensures Total(SupportMap(states, n)) ==
            Support(states, n, Dry) + Support(states, n, Rain) + Support(states, n, Snow)
            + Support(states, n, FreezingRain) + Support(states, n, IcePellets) + Support(states, n, UnknownPhase)
  {
  }

  lemma Whole(n: real)
    requires n > 0.0
    ensures n / n == 1.0
  {
  }

  lemma {:induction false} JointMassOrder(states: seq<State>, low: real, high: real, p: Phase)
    requires low <= high
    ensures 0.0 <= JointMass(states, high, p) <= JointMass(states, low, p) <= Mass(states, p)
  {
    if states == [] {
    } else {
      JointMassOrder(states[..|states| - 1], low, high, p);
      WeightsSumToOne(states[|states| - 1]);
    }
  }

  lemma QuotientOrder(a: real, b: real, n: real)
    requires n > 0.0 && a <= b
    ensures a / n <= b / n
  {
  }

  /** Joint support never exceeds the support of its phase and can only fall as the threshold rises. */
  lemma JointSupportIsAntitone(states: seq<State>, low: real, high: real, p: Phase)
    requires states != [] && 0.0 <= low <= high
    ensures Joint(states, low, p).Ok? && Joint(states, high, p).Ok?
    ensures 0.0 <= Joint(states, high, p).value <= Joint(states, low, p).value <= Support(states, |states|, p)
  {
    var n := |states| as real;
    JointMassOrder(states, low, high, p);
    SupportIsMean(states, |states|, p);
    QuotientOrder(0.0, JointMass(states, high, p), n);
    QuotientOrder(JointMass(states, high, p), JointMass(states, low, p), n);
    QuotientOrder(JointMass(states, low, p), Mass(states, p), n);
  }

  /** One member: its weight when its amount, zero if there is none, is at least the threshold. */
  lemma OneMemberJoint(s: State, threshold: real, p: Phase)
    requires threshold >= 0.0
    ensures Joint([s], threshold, p) ==
            Ok(if (if s.amount.Some? then s.amount.value else 0.0) >= threshold then Weight(s, p) else 0.0)
  {
    assert [s][..0] == [];
    assert JointMass([s], threshold, p) == 0.0 + if Reaches(s, threshold) then Weight(s, p) else 0.0;
  }

  lemma {:induction false} AllReach(states: seq<State>, p: Phase)
    requires forall s <- states :: s.amount.Some? ==> s.amount.value >= 0.0
    ensures JointMass(states, 0.0, p) == Mass(states, p)
  {
    if states == [] {
    } else {
      AllReach(states[..|states| - 1], p);
    }
  }

  /** At threshold zero the joint support is the support of the phase. */
  lemma JointAtZero(states: seq<State>, p: Phase)
    requires states != [] && forall s <- states :: s.amount.Some? ==> s.amount.value >= 0.0
    ensures Joint(states, 0.0, p) == Ok(Support(states, |states|, p))
  {
    AllReach(states, p);
    SupportIsMean(states, |states|, p);
  }

  function ReachCount(states: seq<State>, threshold: real): nat {
    if states == [] then 0
    else ReachCount(states[..|states| - 1], threshold) + One(Reaches(states[|states| - 1], threshold))
  }

  lemma {:induction false} JointMassesAddUp(states: seq<State>, threshold: real)
    ensures JointMass(states, threshold, Dry) + JointMass(states, threshold, Rain) + JointMass(states, threshold, Snow)
            + JointMass(states, threshold, FreezingRain) + JointMass(states, threshold, IcePellets)
            + JointMass(states, threshold, UnknownPhase) == ReachCount(states, threshold) as real
  {
    if states == [] {
    } else {
      JointMassesAddUp(states[..|states| - 1], threshold);
      WeightsSumToOne(states[|states| - 1]);
    }
  }

  /** Over all phases the joint supports add up to the fraction of members that reach the threshold. */
  lemma JointSupportsAddUp(states: seq<State>, threshold: real)
    requires states != [] && threshold >= 0.0
    ensures forall p :: Joint(states, threshold, p).Ok?
    ensures Joint(states, threshold, Dry).value + Joint(states, threshold, Rain).value
            + Joint(states, threshold, Snow).value + Joint(states, threshold, FreezingRain).value
            + Joint(states, threshold, IcePellets).value
            + Joint(states, threshold, UnknownPhase).value == ReachCount(states, threshold) as real / |states| as real
  {
    var n := |states| as real;
    JointMassesAddUp(states, threshold);
    SixQuotients(JointMass(states, threshold, Dry), JointMass(states, threshold, Rain),
                 JointMass(states, threshold, Snow), JointMass(states, threshold, FreezingRain),
                 JointMass(states, threshold, IcePellets),
                 JointMass(states, threshold, UnknownPhase), n);
  }

  lemma SixQuotients(a: real, b: real, c: real, d: real, e: real, f: real, n: real)
    requires n > 0.0
    ensures a / n + b / n + c / n + d / n + e / n + f / n == (a + b + c + d + e + f) / n
  {
  }
}
