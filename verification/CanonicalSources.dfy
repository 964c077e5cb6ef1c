/** Which forecast run serves a variable at a valid time, alone and in bulk, before and after fencing. */
module CanonicalSources {
  import opened Wrappers
  import opened Text
  import opened CanonicalFence

  const PRECIPITATION := "precipitation_amount_3h"
  const CLOUD_COVER := "cloud_cover_3h"
  const WIND := "wind_10m"
  const COMPANIONS := ["crain", "csnow", "cfrzr", "cicep"]

  /** `requires_lead0_display_fallback`: a backward-looking interval, void at lead 0. */
  predicate IsInterval(v: string) {
    Lower(Strip(v)) == PRECIPITATION || Lower(Strip(v)) == CLOUD_COVER
  }

  /** `is_precipitation_companion` */
  predicate IsCompanion(v: string) {
    Lower(Strip(v)) in COMPANIONS
  }

  /** The variable whose source a variable shares. */
  function Leader(v: string): string {
    if IsCompanion(v) then PRECIPITATION else v
  }

  function Needs(v: string): (r: set<string>)
    ensures r != {}
  {
    assert "wind_u_10m" in {"wind_u_10m", "wind_v_10m"};
    assert v in {v};
    if v == WIND then {"wind_u_10m", "wind_v_10m"} else {v}
  }

  /** An empty variable set reads as "carries everything". */
  predicate Carries(c: Candidate, v: string) {
    c.variables == {} || Needs(v) <= c.variables
  }

  function First(cs: seq<Candidate>, v: string, positiveOnly: bool): Option<Candidate> {
    if cs == [] then None
    else if (positiveOnly ==> cs[0].lead > 0) && Carries(cs[0], v) then Some(cs[0])
    else First(cs[1..], v, positiveOnly)
  }

  /** `select_variable_source` */
  function Select(cs: seq<Candidate>, v: string, anchor: Option<Candidate>): Option<Candidate> {
    if cs == [] then None
    else
      var lead := (if anchor.Some? then anchor.value else cs[0]).lead;
      First(cs, Leader(v), IsInterval(Leader(v)) && lead <= 0)
  }

  // ---------------------------------------------------------------- selection after fencing

  /** The candidate survives the fence with every variable `v` needs, at a positive lead if `v` is an
      interval. */
  predicate Serves(c: Candidate, f: FenceIndex, p: Policy, v: string) {
    && Narrow(c, f, p).Some?
    && Needs(Leader(v)) <= ActiveVariables(c, f)
    && (IsInterval(Leader(v)) ==> c.lead > 0)
  }

  /** The first candidate that serves `v`, as the fence leaves it. */
  function Owner(cs: seq<Candidate>, f: FenceIndex, p: Policy, v: string): Option<Candidate> {
    if cs == [] then None
    else if Serves(cs[0], f, p, v) then Narrow(cs[0], f, p)
    else Owner(cs[1..], f, p, v)
  }

  /** A survivor all of whose variables are fenced, at a lead where `v` would be looked up. */
  predicate Hollow(c: Candidate, f: FenceIndex, p: Policy, v: string) {
    && Narrow(c, f, p).Some?
    && ActiveVariables(c, f) == {}
    && (IsInterval(Leader(v)) ==> c.lead > 0)
  }

  /** A hollow survivor precedes every candidate that serves `v`. */
  predicate HollowFirst(cs: seq<Candidate>, f: FenceIndex, p: Policy, v: string) {
    exists i | 0 <= i < |cs| :: Hollow(cs[i], f, p, v) && forall j | 0 <= j < i :: !Serves(cs[j], f, p, v)
  }

  predicate LeadAscending(cs: seq<Candidate>) {
    forall i, j | 0 <= i < j < |cs| :: cs[i].lead <= cs[j].lead
  }

  predicate NamesVariables(cs: seq<Candidate>) {
    forall c <- cs :: c.variables != {}
  }

  lemma {:induction false} AllPositive(cs: seq<Candidate>, v: string)
    requires forall c <- cs :: c.lead > 0
    ensures First(cs, v, false) == First(cs, v, true)
  {
    if cs == [] {
    } else {
      AllPositive(cs[1..], v);
    }
  }

  lemma {:induction false} NarrowAllLeads(cs: seq<Candidate>, f: FenceIndex, p: Policy, least: int)
    requires LeadAscending(cs) && forall c <- cs :: least <= c.lead
    ensures var ds := NarrowAll(cs, f, p);
            (forall d <- ds :: least <= d.lead) && (ds != [] ==> forall d <- ds :: ds[0].lead <= d.lead)
  {
    if cs == [] {
    } else {
      NarrowAllLeads(cs[1..], f, p, cs[0].lead);
    }
  }

  /** The anchor only decides whether leads must be positive; with ascending leads they always are. */
  lemma SelectIsFirst(cs: seq<Candidate>, f: FenceIndex, p: Policy, v: string)
    requires LeadAscending(cs)
    ensures var ds := NarrowAll(cs, f, p); Select(ds, v, None) == First(ds, Leader(v), IsInterval(Leader(v)))
  {
    var ds := NarrowAll(cs, f, p);
    if cs != [] { NarrowAllLeads(cs, f, p, cs[0].lead); }
    if ds != [] && ds[0].lead > 0 { AllPositive(ds, Leader(v)); }
  }

  lemma {:induction false} FirstIsOwner(cs: seq<Candidate>, f: FenceIndex, p: Policy, v: string)
    requires NamesVariables(cs)
    ensures First(NarrowAll(cs, f, p), Leader(v), IsInterval(Leader(v))) == Owner(cs, f, p, v)
            <==> !HollowFirst(cs, f, p, v)
  {
    if cs == [] {
    } else {
      var rest := cs[1..];
      FirstIsOwner(rest, f, p, v);
      NarrowAllFrom(cs, 0, f, p);
      assert cs[0..] == cs && cs[0 + 1..] == rest;
      if Narrow(cs[0], f, p).Some? {
        var d := Narrow(cs[0], f, p).value;
        assert ([d] + NarrowAll(rest, f, p))[1..] == NarrowAll(rest, f, p);
      }
      if Serves(cs[0], f, p, v) {
        assert !HollowFirst(cs, f, p, v);
      } else if Hollow(cs[0], f, p, v) {
        OwnerHasVariables(cs, f, p, v);
      } else {
        HollowFirstRest(cs, f, p, v);
      }
    }
  }

  lemma {:induction false} OwnerHasVariables(cs: seq<Candidate>, f: FenceIndex, p: Policy, v: string)
    ensures Owner(cs, f, p, v).Some? ==> Owner(cs, f, p, v).value.variables != {}
  {
    if cs == [] {
    } else {
      OwnerHasVariables(cs[1..], f, p, v);
    }
  }

  lemma HollowFirstRest(cs: seq<Candidate>, f: FenceIndex, p: Policy, v: string)
    requires cs != [] && !Serves(cs[0], f, p, v) && !Hollow(cs[0], f, p, v)
    ensures HollowFirst(cs, f, p, v) <==> HollowFirst(cs[1..], f, p, v)
  {
    var rest := cs[1..];
    assert forall i | 0 < i < |cs| :: cs[i] == rest[i - 1];
    assert forall i | 0 <= i < |rest| :: rest[i] == cs[i + 1];
    if HollowFirst(rest, f, p, v) {
      var i :| 0 <= i < |rest| && Hollow(rest[i], f, p, v) && forall j | 0 <= j < i :: !Serves(rest[j], f, p, v);
      assert Hollow(cs[i + 1], f, p, v);
    }
    if HollowFirst(cs, f, p, v) {
      var i :| 0 <= i < |cs| && Hollow(cs[i], f, p, v) && forall j | 0 <= j < i :: !Serves(cs[j], f, p, v);
      assert Hollow(rest[i - 1], f, p, v);
    }
  }

  /** After fencing, the selected source is the first candidate that still has what the variable needs
      exactly when no survivor stripped of its last variable comes first. */
  lemma SelectionAfterFencing(cs: seq<Candidate>, f: FenceIndex, p: Policy, v: string)
    requires forall i, j | 0 <= i < j < |cs| :: cs[i].lead <= cs[j].lead
    requires forall c <- cs :: c.variables != {}
    ensures Select(NarrowAll(cs, f, p), v, None) == Owner(cs, f, p, v) <==> !HollowFirst(cs, f, p, v)
  {
    SelectIsFirst(cs, f, p, v);
    FirstIsOwner(cs, f, p, v);
  }

  /** A deterministic candidate is never left hollow, so the selection is always right there. */
  lemma DeterministicSelection(cs: seq<Candidate>, f: FenceIndex, p: Policy, v: string)
    requires LeadAscending(cs) && NamesVariables(cs)
    requires !p.isEnsemble || forall c <- cs :: c.members.None?
    ensures Select(NarrowAll(cs, f, p), v, None) == Owner(cs, f, p, v)
  {
    SelectionAfterFencing(cs, f, p, v);
    assert forall c <- cs :: !Hollow(c, f, p, v);
  }

  /** An ensemble lead whose only variable is fenced is selected for a variable it never carried. */
  lemma HollowEnsembleLeadIsSelected()
    ensures var c := Candidate(0, 6, "run", "store", {"member"}, {"temperature_2m"}, Some([1]), "ready");
            var f := IndexOf({FenceKey("run", 6, "temperature_2m", "mean", -1)});
            var p := Policy(true, 1, 0.85);
            && Select(NarrowAll([c], f, p), "wind_10m", None) == Some(c.(variables := {}))
            && Owner([c], f, p, "wind_10m") == None
  {
    var c := Candidate(0, 6, "run", "store", {"member"}, {"temperature_2m"}, Some([1]), "ready");
    var k := FenceKey("run", 6, "temperature_2m", "mean", -1);
    var f := IndexOf({k});
    var p := Policy(true, 1, 0.85);
    IndexOfOne(k);
    assert ActiveVariables(c, f) == {};
    assert Remaining([1], "run", 6, f) == [1];
    assert c.productTypes - {"ensemble_mean"} == {"member"};
    assert Narrow(c, f, p) == Some(c.(variables := {}));
    assert Strip("wind_10m") == "wind_10m";
  }

  /** In the whole schedule: at every valid time, fenced away or not. */
  lemma FencedSelection(m: Schedule, keys: set<FenceKey>, p: Policy, t: int, v: string)
    requires t in m && LeadAscending(m[t]) && NamesVariables(m[t])
    requires !p.isEnsemble || forall c <- m[t] :: c.members.None?
    ensures var out := Fenced(m, IndexOf(keys), p);
            (if t in out then Select(out[t], v, None) else None) == Owner(m[t], IndexOf(keys), p, v)
  {
    DeterministicSelection(m[t], IndexOf(keys), p, v);
    if keys == {} { EmptyFenceKeepsAll(m[t], p); }
  }

  lemma {:induction false} EmptyFenceKeepsAll(cs: seq<Candidate>, p: Policy)
    requires !p.isEnsemble || forall c <- cs :: c.members.None?
    ensures NarrowAll(cs, IndexOf({}), p) == cs
  {
    if cs == [] {
    } else {
      EmptyFenceKeepsAll(cs[1..], p);
      assert ActiveVariables(cs[0], IndexOf({})) == cs[0].variables;
    }
  }

  // ---------------------------------------------------------------- the search

  method FindFirst(cs: seq<Candidate>, v: string, positiveOnly: bool) returns (r: Option<Candidate>)
    ensures r == First(cs, v, positiveOnly)
  {
    for i := 0 to |cs|
      invariant First(cs, v, positiveOnly) == First(cs[i..], v, positiveOnly)
    {
      assert cs[i..][1..] == cs[i + 1..];
      if (positiveOnly ==> cs[i].lead > 0) && Carries(cs[i], v) { return Some(cs[i]); }
    }
    r := None;
  }

  method SelectVariableSource(cs: seq<Candidate>, v: string, anchor: Option<Candidate>) returns (r: Option<Candidate>)
    ensures r == Select(cs, v, anchor)
  {
    if cs == [] { return None; }
    var effective := if anchor.Some? then anchor.value else cs[0];
    if IsInterval(Leader(v)) && effective.lead <= 0 {
      r := FindFirst(cs, Leader(v), true);
    } else {
      r := FindFirst(cs, Leader(v), false);
    }
  }
}
