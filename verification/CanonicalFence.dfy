/** Reclamation fences: which candidates, variables and members of a forecast may still be served. */
module CanonicalFence {
  import opened Wrappers
  import opened Coverage

  /** One forecast cycle lead that covers a valid time.  `members` is None for a deterministic run. */
  datatype Candidate = Candidate(cycleTime: int, lead: int, runId: string, storePath: string,
                                 productTypes: set<string>, variables: set<string>,
                                 members: Option<seq<int>>, status: string)

  datatype FenceKey = FenceKey(runId: string, lead: int, variable: string, kind: string, member: int)

  datatype FenceIndex = FenceIndex(variableKeys: set<(string, int, string)>,
                                   memberKeys: set<(string, int, int)>,
                                   meanLeads: set<(string, int)>,
                                   hasKeys: bool)

  datatype Policy = Policy(isEnsemble: bool, expectedMembers: int, minCoverage: real)

  /** The candidates of each valid time, newest cycle first. */
  type Schedule = map<int, seq<Candidate>>

  // ---------------------------------------------------------------- the index

  function VariableKeys(keys: set<FenceKey>): set<(string, int, string)> {
    set k | k in keys && (k.kind == "mean" || k.kind == "det") :: (k.runId, k.lead, k.variable)
  }

  function MemberKeys(keys: set<FenceKey>): set<(string, int, int)> {
    set k | k in keys && k.kind == "mem" :: (k.runId, k.lead, k.member)
  }

  function MeanLeads(keys: set<FenceKey>): set<(string, int)> {
    set k | k in keys && k.kind == "mean" :: (k.runId, k.lead)
  }

  function IndexOf(keys: set<FenceKey>): FenceIndex {
    FenceIndex(VariableKeys(keys), MemberKeys(keys), MeanLeads(keys), keys != {})
  }

  function Merge(f: FenceIndex, g: FenceIndex): FenceIndex {
    FenceIndex(f.variableKeys + g.variableKeys, f.memberKeys + g.memberKeys, f.meanLeads + g.meanLeads,
               f.hasKeys || g.hasKeys)
  }

  lemma IndexOfUnion(a: set<FenceKey>, b: set<FenceKey>)
    ensures IndexOf(a + b) == Merge(IndexOf(a), IndexOf(b))
  {
    assert VariableKeys(a + b) == VariableKeys(a) + VariableKeys(b);
    assert MemberKeys(a + b) == MemberKeys(a) + MemberKeys(b);
    assert MeanLeads(a + b) == MeanLeads(a) + MeanLeads(b);
  }

  function Elements(stream: seq<FenceKey>): set<FenceKey> {
    set k | k in stream
  }

  lemma IndexOfOne(k: FenceKey)
    ensures VariableKeys({k}) == if k.kind == "mean" || k.kind == "det" then {(k.runId, k.lead, k.variable)} else {}
    ensures MemberKeys({k}) == if k.kind == "mem" then {(k.runId, k.lead, k.member)} else {}
    ensures MeanLeads({k}) == if k.kind == "mean" then {(k.runId, k.lead)} else {}
  {
    assert k in {k};
  }

  lemma IndexOfNext(stream: seq<FenceKey>, i: nat)
    requires i < |stream|
    ensures IndexOf(Elements(stream[..i + 1])) == Merge(IndexOf(Elements(stream[..i])), IndexOf({stream[i]}))
    ensures var one := IndexOf({stream[i]}); var k := stream[i];
            && one.variableKeys == (if k.kind == "mean" || k.kind == "det" then {(k.runId, k.lead, k.variable)} else {})
            && one.memberKeys == (if k.kind == "mem" then {(k.runId, k.lead, k.member)} else {})
            && one.meanLeads == (if k.kind == "mean" then {(k.runId, k.lead)} else {})
            && one.hasKeys
  {
    IndexOfUnion(Elements(stream[..i]), {stream[i]});
    IndexOfOne(stream[i]);
    assert Elements(stream[..i + 1]) == Elements(stream[..i]) + {stream[i]};
  }

  /** `build_fence_index`: one pass over a stream of rows, whatever their order and repetitions. */
  method BuildFenceIndex(stream: seq<FenceKey>) returns (index: FenceIndex)
    ensures index == IndexOf(Elements(stream))
  {
    var variableKeys: set<(string, int, string)> := {};
    var memberKeys: set<(string, int, int)> := {};
    var meanLeads: set<(string, int)> := {};
    var hasKeys := false;
    for i := 0 to |stream|
      invariant FenceIndex(variableKeys, memberKeys, meanLeads, hasKeys) == IndexOf(Elements(stream[..i]))
    {
      var k := stream[i];
      IndexOfNext(stream, i);
      hasKeys := true;
      if k.kind == "mean" {
        variableKeys := variableKeys + {(k.runId, k.lead, k.variable)};
        meanLeads := meanLeads + {(k.runId, k.lead)};
      } else if k.kind == "det" {
        variableKeys := variableKeys + {(k.runId, k.lead, k.variable)};
      } else if k.kind == "mem" {
        memberKeys := memberKeys + {(k.runId, k.lead, k.member)};
      }
    }
    assert stream[..|stream|] == stream;
    index := FenceIndex(variableKeys, memberKeys, meanLeads, hasKeys);
  }

  // ---------------------------------------------------------------- one candidate

  function ActiveVariables(c: Candidate, f: FenceIndex): set<string> {
    set v | v in c.variables && (c.runId, c.lead, v) !in f.variableKeys
  }

  function Remaining(ms: seq<int>, runId: string, lead: int, f: FenceIndex): (r: seq<int>)
    ensures |r| <= |ms|
  {
    if ms == [] then []
    else if (runId, lead, ms[0]) in f.memberKeys then Remaining(ms[1..], runId, lead, f)
    else [ms[0]] + Remaining(ms[1..], runId, lead, f)
  }

  function ProductTypes(c: Candidate, f: FenceIndex): set<string> {
    if (c.runId, c.lead) in f.meanLeads then c.productTypes - {"ensemble_mean"} else c.productTypes
  }

  /** What a non-empty fence leaves of a candidate; None when it can no longer be served. */
  function Narrow(c: Candidate, f: FenceIndex, p: Policy): Option<Candidate> {
    if p.isEnsemble && c.members.Some? then
      var left := Remaining(c.members.value, c.runId, c.lead, f);
      if IsLeadServable(|left|, p.expectedMembers, p.minCoverage)
      then Some(c.(productTypes := ProductTypes(c, f), variables := ActiveVariables(c, f), members := Some(left)))
      else None
    else if c.variables != {} && ActiveVariables(c, f) == {} then None
    else Some(c.(variables := ActiveVariables(c, f)))
  }

  function NarrowAll(cs: seq<Candidate>, f: FenceIndex, p: Policy): (r: seq<Candidate>)
    ensures |r| <= |cs|
  {
    if cs == [] then []
    else
      match Narrow(cs[0], f, p)
      case None => NarrowAll(cs[1..], f, p)
      case Some(c) => [c] + NarrowAll(cs[1..], f, p)
  }

  /** The schedule a fence leaves: an absent fence leaves it untouched, valid times included. */
  function Fenced(m: Schedule, f: FenceIndex, p: Policy): Schedule {
    if !f.hasKeys then m
    else map t | t in m && NarrowAll(m[t], f, p) != [] :: NarrowAll(m[t], f, p)
  }

  lemma NarrowAllFrom(cs: seq<Candidate>, i: nat, f: FenceIndex, p: Policy)
    requires i < |cs|
    ensures NarrowAll(cs[i..], f, p) ==
            match Narrow(cs[i], f, p)
            case None => NarrowAll(cs[i + 1..], f, p)
            case Some(c) => [c] + NarrowAll(cs[i + 1..], f, p)
  {
    assert cs[i..][0] == cs[i] && cs[i..][1..] == cs[i + 1..];
  }

  // ---------------------------------------------------------------- the filter

  /** The branches of the loop body. */
  method NarrowCandidate(c: Candidate, f: FenceIndex, p: Policy) returns (r: Option<Candidate>)
    ensures r == Narrow(c, f, p)
  {
    var active := ActiveVariables(c, f);
    if p.isEnsemble && c.members.Some? {
      var available := Remaining(c.members.value, c.runId, c.lead, f);
      if !IsLeadServable(|available|, p.expectedMembers, p.minCoverage) { return None; }
      var productTypes := c.productTypes;
      if (c.runId, c.lead) in f.meanLeads { productTypes := c.productTypes - {"ensemble_mean"}; }
      r := Some(Candidate(c.cycleTime, c.lead, c.runId, c.storePath, productTypes, active, Some(available), c.status));
    } else {
      if c.variables != {} && active == {} { return None; }
      r := Some(Candidate(c.cycleTime, c.lead, c.runId, c.storePath, c.productTypes, active, c.members, c.status));
    }
  }

  /** The loop over the candidates of one valid time. */
  method FilterCandidates(cs: seq<Candidate>, f: FenceIndex, p: Policy) returns (kept: seq<Candidate>)
    ensures kept == NarrowAll(cs, f, p)
  {
    kept := [];
    assert cs[0..] == cs;
    for i := 0 to |cs|
      invariant kept + NarrowAll(cs[i..], f, p) == NarrowAll(cs, f, p)
    {
      var d := NarrowCandidate(cs[i], f, p);
      NarrowAllFrom(cs, i, f, p);
      if d.None? { continue; }
      assert kept + ([d.value] + NarrowAll(cs[i + 1..], f, p)) == (kept + [d.value]) + NarrowAll(cs[i + 1..], f, p);
      kept := kept + [d.value];
    }
    assert NarrowAll(cs[|cs|..], f, p) == [];
  }

  lemma SomeTime(times: set<int>)
    requires times != {}
    ensures exists t :: t in times
  {
    assert (forall t :: t !in times) ==> times == {};
  }

  /** `filter_candidates_by_fence_index` */
  method FilterByFenceIndex(m: Schedule, f: FenceIndex, p: Policy) returns (out: Schedule)
    ensures out == Fenced(m, f, p)
  {
    if !f.hasKeys { return m; }
    out := map[];
    var left: set<int> := m.Keys;
    while left != {}
      invariant left <= m.Keys
      invariant out == map t | t in m && t !in left && NarrowAll(m[t], f, p) != [] :: NarrowAll(m[t], f, p)
      decreases |left|
    {
      SomeTime(left);
      var t :| t in left;
      var kept := FilterCandidates(m[t], f, p);
      if kept != [] { out := out[t := kept]; }
      left := left - {t};
    }
  }

  /** `filter_candidates_by_physical_fence` */
  method FilterByPhysicalFence(m: Schedule, keys: set<FenceKey>, p: Policy) returns (out: Schedule)
    ensures out == Fenced(m, IndexOf(keys), p)
  {
    if keys == {} { return m; }
    var stream: seq<FenceKey> := [];
    var left := keys;
    while left != {}
      invariant Elements(stream) + left == keys
      decreases |left|
    {
      var k :| k in left;
      assert Elements(stream + [k]) == Elements(stream) + {k};
      stream, left := stream + [k], left - {k};
    }
    var index := BuildFenceIndex(stream);
    out := FilterByFenceIndex(m, index, p);
  }

  // ---------------------------------------------------------------- the index against a scan of the keys

  predicate VariableFenced(keys: set<FenceKey>, c: Candidate, v: string) {
    exists k <- keys ::
      k.runId == c.runId && k.lead == c.lead && k.variable == v && (k.kind == "det" || k.kind == "mean")
  }

  predicate MemberFenced(keys: set<FenceKey>, c: Candidate, m: int) {
    exists k <- keys :: k.runId == c.runId && k.lead == c.lead && k.member == m && k.kind == "mem"
  }

  predicate MeanFenced(keys: set<FenceKey>, c: Candidate) {
    exists k <- keys :: k.runId == c.runId && k.lead == c.lead && k.kind == "mean"
  }

  /** The projections answer what scanning the raw keys would answer. */
  lemma IndexAnswersScan(keys: set<FenceKey>, c: Candidate, v: string, m: int)
    ensures (c.runId, c.lead, v) in IndexOf(keys).variableKeys <==> VariableFenced(keys, c, v)
    ensures (c.runId, c.lead, m) in IndexOf(keys).memberKeys <==> MemberFenced(keys, c, m)
    ensures (c.runId, c.lead) in IndexOf(keys).meanLeads <==> MeanFenced(keys, c)
  {
    if VariableFenced(keys, c, v) {
      var k :| k in keys && k.runId == c.runId && k.lead == c.lead && k.variable == v
               && (k.kind == "det" || k.kind == "mean");
      assert (k.runId, k.lead, k.variable) in VariableKeys(keys);
    }
    if MemberFenced(keys, c, m) {
      var k :| k in keys && k.runId == c.runId && k.lead == c.lead && k.member == m && k.kind == "mem";
      assert (k.runId, k.lead, k.member) in MemberKeys(keys);
    }
    if MeanFenced(keys, c) {
      var k :| k in keys && k.runId == c.runId && k.lead == c.lead && k.kind == "mean";
      assert (k.runId, k.lead) in MeanLeads(keys);
    }
  }

  lemma {:induction false} RemainingCounts(ms: seq<int>, runId: string, lead: int, f: FenceIndex, m: int)
    ensures multiset(Remaining(ms, runId, lead, f))[m] ==
            if (runId, lead, m) in f.memberKeys then 0 else multiset(ms)[m]
  {
    if ms == [] {
    } else {
      RemainingCounts(ms[1..], runId, lead, f, m);
      assert ms == [ms[0]] + ms[1..];
    }
  }

  lemma NarrowedIsServable(c: Candidate, f: FenceIndex, p: Policy, d: Candidate, n: int)
    requires Narrow(c, f, p) == Some(d) && p.isEnsemble && c.members.Some? && InTenThousandths(p.minCoverage, n)
    ensures d.members.Some? && p.expectedMembers > 0
    ensures |d.members.value| as real >= (n as real / 10000.0) * p.expectedMembers as real
  {
    ThresholdIsRounded(|d.members.value|, p.expectedMembers, p.minCoverage, n);
  }

  /** What a fence leaves of a candidate, in terms of the raw keys: each variable, each member and the
      ensemble mean stay exactly when no key of their run and lead takes them, all else is kept, and an
      ensemble lead still has the members its coverage ratio, in ten-thousandths `n`, asks for. */
  lemma NarrowMeaning(c: Candidate, keys: set<FenceKey>, p: Policy, d: Candidate, n: int)
    requires Narrow(c, IndexOf(keys), p) == Some(d) && InTenThousandths(p.minCoverage, n)
    ensures forall v :: v in d.variables <==> v in c.variables && !VariableFenced(keys, c, v)
    ensures d.members.Some? == c.members.Some?
    ensures p.isEnsemble && c.members.Some? ==>
              && (forall m :: multiset(d.members.value)[m] ==
                              if MemberFenced(keys, c, m) then 0 else multiset(c.members.value)[m])
              && d.productTypes == (if MeanFenced(keys, c) then c.productTypes - {"ensemble_mean"} else c.productTypes)
              && p.expectedMembers > 0
              && |d.members.value| as real >= (n as real / 10000.0) * p.expectedMembers as real
    ensures !(p.isEnsemble && c.members.Some?) ==> d.members == c.members && d.productTypes == c.productTypes
    ensures d == c.(variables := d.variables, productTypes := d.productTypes, members := d.members)
  {
    forall v ensures v in d.variables <==> v in c.variables && !VariableFenced(keys, c, v) {
      IndexAnswersScan(keys, c, v, 0);
    }
    if p.isEnsemble && c.members.Some? {
      IndexAnswersScan(keys, c, "", 0);
      forall m
        ensures multiset(d.members.value)[m] == if MemberFenced(keys, c, m) then 0 else multiset(c.members.value)[m]
      {
        IndexAnswersScan(keys, c, "", m);
        RemainingCounts(c.members.value, c.runId, c.lead, IndexOf(keys), m);
      }
      NarrowedIsServable(c, IndexOf(keys), p, d, n);
    }
  }

  lemma EnsembleDropped(c: Candidate, keys: set<FenceKey>, p: Policy, n: int, members: seq<int>)
    requires p.isEnsemble && c.members == Some(members) && InTenThousandths(p.minCoverage, n)
    ensures Narrow(c, IndexOf(keys), p).None? <==>
            p.expectedMembers <= 0 ||
            UnfencedMembers(members, c, keys) as real < (n as real / 10000.0) * p.expectedMembers as real
  {
    var left := UnfencedMembers(members, c, keys);
    UnfencedCount(members, c, keys);
    ThresholdIsRounded(left, p.expectedMembers, p.minCoverage, n);
    assert Narrow(c, IndexOf(keys), p).None? <==> !IsLeadServable(left, p.expectedMembers, p.minCoverage);
  }

  /** A candidate is dropped exactly when, as an ensemble lead, no members are expected or its unfenced
      ones fall below the coverage ratio of those expected, the ratio being taken to the nearest
      ten-thousandth `n`, or, otherwise, when it named variables and every one of them is fenced. */
  lemma DroppedMeaning(c: Candidate, keys: set<FenceKey>, p: Policy, n: int)
    requires InTenThousandths(p.minCoverage, n)
    ensures Narrow(c, IndexOf(keys), p).None? <==>
            if p.isEnsemble && c.members.Some? then
              p.expectedMembers <= 0 ||
              UnfencedMembers(c.members.value, c, keys) as real < (n as real / 10000.0) * p.expectedMembers as real
            else
              c.variables != {} && forall v <- c.variables :: VariableFenced(keys, c, v)
  {
    if p.isEnsemble && c.members.Some? {
      EnsembleDropped(c, keys, p, n, c.members.value);
    } else {
      forall v ensures v in ActiveVariables(c, IndexOf(keys)) <==> v in c.variables && !VariableFenced(keys, c, v) {
        IndexAnswersScan(keys, c, v, 0);
      }
    }
  }

  /** At the default ratio and thirty registered members: a lead with fewer than 26 unfenced ones goes. */
  lemma DroppedBelowTwentySix(c: Candidate, keys: set<FenceKey>, members: seq<int>)
    requires c.members == Some(members)
    ensures Narrow(c, IndexOf(keys), Policy(true, 30, 0.85)).None? <==> UnfencedMembers(members, c, keys) < 26
  {
    UnfencedCount(members, c, keys);
    LeastOfThirty(UnfencedMembers(members, c, keys));
  }

  function UnfencedMembers(ms: seq<int>, c: Candidate, keys: set<FenceKey>): nat {
    if ms == [] then 0
    else (if MemberFenced(keys, c, ms[0]) then 0 else 1) + UnfencedMembers(ms[1..], c, keys)
  }

  lemma {:induction false} UnfencedCount(ms: seq<int>, c: Candidate, keys: set<FenceKey>)
    ensures |Remaining(ms, c.runId, c.lead, IndexOf(keys))| == UnfencedMembers(ms, c, keys)
  {
    if ms == [] {
    } else {
      UnfencedCount(ms[1..], c, keys);
      IndexAnswersScan(keys, c, "", ms[0]);
    }
  }

  // ---------------------------------------------------------------- fencing twice

  lemma {:induction false} RemainingTwice(ms: seq<int>, runId: string, lead: int, f: FenceIndex, g: FenceIndex)
    ensures Remaining(Remaining(ms, runId, lead, f), runId, lead, g) == Remaining(ms, runId, lead, Merge(f, g))
  {
    if ms == [] {
    } else {
      RemainingTwice(ms[1..], runId, lead, f, g);
      var rest := Remaining(ms[1..], runId, lead, f);
      assert ([ms[0]] + rest)[1..] == rest;
    }
  }

  lemma NarrowTwice(c: Candidate, f: FenceIndex, g: FenceIndex, p: Policy)
    ensures Narrow(c, Merge(f, g), p) ==
            match Narrow(c, f, p) case None => None case Some(d) => Narrow(d, g, p)
  {
    var both := Merge(f, g);
    var first := c.(variables := ActiveVariables(c, f));
    assert ActiveVariables(c, both) == ActiveVariables(first, g);
    if p.isEnsemble && c.members.Some? {
      RemainingTwice(c.members.value, c.runId, c.lead, f, g);
      var d := first.(productTypes := ProductTypes(c, f),
                      members := Some(Remaining(c.members.value, c.runId, c.lead, f)));
      assert ActiveVariables(d, g) == ActiveVariables(first, g);
      assert ProductTypes(d, g) == ProductTypes(c, both);
    }
  }

  lemma {:induction false} NarrowAllTwice(cs: seq<Candidate>, f: FenceIndex, g: FenceIndex, p: Policy)
    ensures NarrowAll(NarrowAll(cs, f, p), g, p) == NarrowAll(cs, Merge(f, g), p)
  {
    if cs == [] {
    } else {
      NarrowTwice(cs[0], f, g, p);
      NarrowAllTwice(cs[1..], f, g, p);
      if Narrow(cs[0], f, p).Some? {
        var rest := NarrowAll(cs[1..], f, p);
        assert ([Narrow(cs[0], f, p).value] + rest)[1..] == rest;
      }
    }
  }

  lemma FencedTwice(m: Schedule, f: FenceIndex, g: FenceIndex, p: Policy)
    requires f.hasKeys && g.hasKeys
    ensures Fenced(Fenced(m, f, p), g, p) == Fenced(m, Merge(f, g), p)
  {
    var once, twice, both := Fenced(m, f, p), Fenced(Fenced(m, f, p), g, p), Fenced(m, Merge(f, g), p);
    forall t | t in m
      ensures t in both <==> t in twice
      ensures t in both ==> both[t] == twice[t]
    {
      NarrowAllTwice(m[t], f, g, p);
    }
  }

  /** Fencing by one key set and then by another is fencing once by their union: for both branches,
      for empty sets and for sets of kinds no branch recognises. */
  lemma FencesCompose(m: Schedule, a: set<FenceKey>, b: set<FenceKey>, p: Policy)
    ensures Fenced(Fenced(m, IndexOf(a), p), IndexOf(b), p) == Fenced(m, IndexOf(a + b), p)
  {
    if a == {} {
      assert a + b == b;
    } else if b == {} {
      assert a + b == a;
    } else {
      IndexOfUnion(a, b);
      FencedTwice(m, IndexOf(a), IndexOf(b), p);
    }
  }

  /** So the order fences are applied in does not matter, and applying one again changes nothing. */
  lemma FenceOrderIsIrrelevant(m: Schedule, a: set<FenceKey>, b: set<FenceKey>, p: Policy)
    ensures Fenced(Fenced(m, IndexOf(a), p), IndexOf(b), p) == Fenced(Fenced(m, IndexOf(b), p), IndexOf(a), p)
    ensures Fenced(Fenced(m, IndexOf(a), p), IndexOf(a), p) == Fenced(m, IndexOf(a), p)
  {
    FencesCompose(m, a, b, p);
    FencesCompose(m, b, a, p);
    FencesCompose(m, a, a, p);
    assert a + b == b + a && a + a == a;
  }

  // ---------------------------------------------------------------- a larger fence restores nothing

  predicate Narrows(d: Candidate, c: Candidate) {
    && d.variables <= c.variables && d.productTypes <= c.productTypes
    && d == c.(variables := d.variables, productTypes := d.productTypes, members := d.members)
    && d.members.Some? == c.members.Some?
    && (d.members.Some? ==> multiset(d.members.value) <= multiset(c.members.value))
  }

  /** Every candidate of `ds` narrows a candidate of `cs`, in order and one for one. */
  predicate NarrowsInOrder(ds: seq<Candidate>, cs: seq<Candidate>) {
    if ds == [] then true
    else if cs == [] then false
    else (Narrows(ds[0], cs[0]) && NarrowsInOrder(ds[1..], cs[1..])) || NarrowsInOrder(ds, cs[1..])
  }

  lemma RemainingIsPart(ms: seq<int>, runId: string, lead: int, f: FenceIndex)
    ensures multiset(Remaining(ms, runId, lead, f)) <= multiset(ms)
  {
    forall m ensures multiset(Remaining(ms, runId, lead, f))[m] <= multiset(ms)[m] {
      RemainingCounts(ms, runId, lead, f, m);
    }
  }

  lemma {:induction false} NarrowAllNarrows(cs: seq<Candidate>, f: FenceIndex, p: Policy)
    ensures NarrowsInOrder(NarrowAll(cs, f, p), cs)
  {
    if cs == [] {
    } else {
      NarrowAllNarrows(cs[1..], f, p);
      if cs[0].members.Some? { RemainingIsPart(cs[0].members.value, cs[0].runId, cs[0].lead, f); }
      if Narrow(cs[0], f, p).Some? {
        var d := Narrow(cs[0], f, p).value;
        assert Narrows(d, cs[0]);
        assert ([d] + NarrowAll(cs[1..], f, p))[1..] == NarrowAll(cs[1..], f, p);
      }
    }
  }

  lemma {:induction false} NarrowsItself(cs: seq<Candidate>)
    ensures NarrowsInOrder(cs, cs)
  {
    if cs == [] {
    } else {
      NarrowsItself(cs[1..]);
    }
  }

  /** Whatever a larger fence serves, the smaller one serves too, with at least the same variables,
      product types and members. */
  lemma LargerFenceNeverRestores(m: Schedule, a: set<FenceKey>, b: set<FenceKey>, p: Policy)
    requires a <= b
    ensures Fenced(m, IndexOf(b), p).Keys <= Fenced(m, IndexOf(a), p).Keys
    ensures forall t <- Fenced(m, IndexOf(b), p).Keys ::
              NarrowsInOrder(Fenced(m, IndexOf(b), p)[t], Fenced(m, IndexOf(a), p)[t])
  {
    FencesCompose(m, a, b, p);
    assert a + b == b;
    var small := Fenced(m, IndexOf(a), p);
    forall t | t in Fenced(small, IndexOf(b), p)
      ensures NarrowsInOrder(Fenced(small, IndexOf(b), p)[t], small[t])
    {
      if b == {} { NarrowsItself(small[t]); } else { NarrowAllNarrows(small[t], IndexOf(b), p); }
    }
  }

  lemma {:induction false} NarrowedFrom(ds: seq<Candidate>, cs: seq<Candidate>, d: Candidate) returns (c: Candidate)
    requires NarrowsInOrder(ds, cs) && d in ds
    ensures c in cs && d == c.(variables := d.variables, productTypes := d.productTypes, members := d.members)
    ensures d.variables <= c.variables && d.productTypes <= c.productTypes && d.members.Some? == c.members.Some?
    ensures d.members.Some? ==> multiset(d.members.value) <= multiset(c.members.value)
  {
    if Narrows(ds[0], cs[0]) && NarrowsInOrder(ds[1..], cs[1..]) {
      if d == ds[0] { c := cs[0]; } else { c := NarrowedFrom(ds[1..], cs[1..], d); }
    } else {
      c := NarrowedFrom(ds, cs[1..], d);
    }
  }

  /** So every candidate a larger fence serves is one the smaller fence serves, with at least its variables,
      product types and members, and everything else the same. */
  lemma LargerFenceServesLess(m: Schedule, a: set<FenceKey>, b: set<FenceKey>, p: Policy, t: int, d: Candidate)
    returns (c: Candidate)
    requires a <= b && t in Fenced(m, IndexOf(b), p) && d in Fenced(m, IndexOf(b), p)[t]
    ensures t in Fenced(m, IndexOf(a), p) && c in Fenced(m, IndexOf(a), p)[t]
    ensures d == c.(variables := d.variables, productTypes := d.productTypes, members := d.members)
    ensures d.variables <= c.variables && d.productTypes <= c.productTypes && d.members.Some? == c.members.Some?
    ensures d.members.Some? ==> multiset(d.members.value) <= multiset(c.members.value)
  {
    LargerFenceNeverRestores(m, a, b, p);
    c := NarrowedFrom(Fenced(m, IndexOf(b), p)[t], Fenced(m, IndexOf(a), p)[t], d);
  }
}
