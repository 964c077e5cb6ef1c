/** Which source `select_variable_source` picks, name by name: every answer is the first candidate that
    has what the name asks for. */
module SourceNames {
  import opened Wrappers
  import opened Text
  import opened CanonicalFence
  import opened CanonicalSources

  /** `r` is the first of the candidates that fits, and None if none does. */
  predicate IsFirst(cs: seq<Candidate>, r: Option<Candidate>, fits: Candidate -> bool) {
    match r
    case None => forall c <- cs :: !fits(c)
    case Some(d) => exists i | 0 <= i < |cs| :: cs[i] == d && fits(d) && forall j | 0 <= j < i :: !fits(cs[j])
  }

  lemma FirstOfRest(cs: seq<Candidate>, r: Option<Candidate>, fits: Candidate -> bool)
    requires cs != [] && !fits(cs[0]) && IsFirst(cs[1..], r, fits)
    ensures IsFirst(cs, r, fits)
  {
    var rest := cs[1..];
    assert forall i | 0 < i < |cs| :: cs[i] == rest[i - 1];
    if r.Some? {
      var i :| 0 <= i < |rest| && rest[i] == r.value && fits(r.value) && forall j | 0 <= j < i :: !fits(rest[j]);
      assert cs[i + 1] == r.value;
    }
  }

  /** The search stops at the first candidate for which its test answers yes. */
  lemma {:induction false} FirstIsFirst(cs: seq<Candidate>, v: string, positiveOnly: bool, fits: Candidate -> bool)
    requires forall c :: fits(c) <==> (positiveOnly ==> c.lead > 0) && Carries(c, v)
    ensures IsFirst(cs, First(cs, v, positiveOnly), fits)
  {
    if cs == [] {
    } else if fits(cs[0]) {
      assert cs[0] == First(cs, v, positiveOnly).value;
    } else {
      FirstIsFirst(cs[1..], v, positiveOnly, fits);
      FirstOfRest(cs, First(cs, v, positiveOnly), fits);
    }
  }

  lemma OneName(v: string)
    requires v != "wind_10m"
    ensures forall c :: Carries(c, v) <==> c.variables == {} || v in c.variables
  {
  }

  /** The lead of the anchor: the one given, else the first candidate. */
  function AnchorLead(cs: seq<Candidate>, anchor: Option<Candidate>): int
    requires cs != []
  {
    if anchor.Some? then anchor.value.lead else cs[0].lead
  }

  lemma SelectByNeed(cs: seq<Candidate>, v: string, anchor: Option<Candidate>, fits: Candidate -> bool)
    requires cs != []
    requires forall c :: fits(c) <==>
               (IsInterval(Leader(v)) && AnchorLead(cs, anchor) <= 0 ==> c.lead > 0) && Carries(c, Leader(v))
    ensures IsFirst(cs, Select(cs, v, anchor), fits)
  {
    FirstIsFirst(cs, Leader(v), IsInterval(Leader(v)) && AnchorLead(cs, anchor) <= 0, fits);
  }

  /** The names the resolver compares with are spelt the way it spells them. */
  lemma NamesAreNormal()
    ensures Lower(Strip("precipitation_amount_3h")) == "precipitation_amount_3h"
    ensures Lower(Strip("cloud_cover_3h")) == "cloud_cover_3h" && Lower(Strip("wind_10m")) == "wind_10m"
    ensures Lower(Strip("crain")) == "crain" && Lower(Strip("csnow")) == "csnow"
    ensures Lower(Strip("cfrzr")) == "cfrzr" && Lower(Strip("cicep")) == "cicep"
  {
    NormalName("precipitation_amount_3h");
    NormalName("cloud_cover_3h");
    NormalName("wind_10m");
    NormalName("crain");
    NormalName("csnow");
    NormalName("cfrzr");
    NormalName("cicep");
  }

  lemma CompanionsAreFour(v: string)
    ensures var n := Lower(Strip(v));
            IsCompanion(v) <==> n == "crain" || n == "csnow" || n == "cfrzr" || n == "cicep"
  {
    var n := Lower(Strip(v));
    assert COMPANIONS[0] == "crain" && COMPANIONS[1] == "csnow" && COMPANIONS[2] == "cfrzr" && COMPANIONS[3] == "cicep";
    if IsCompanion(v) {
      var i :| 0 <= i < 4 && COMPANIONS[i] == n;
    }
  }

  lemma IntervalsAreTwo(v: string)
    ensures var n := Lower(Strip(v));
            IsInterval(v) <==> n == "precipitation_amount_3h" || n == "cloud_cover_3h"
    ensures IsInterval(v) ==> !IsCompanion(v) && v != "wind_10m"
  {
    CompanionsAreFour(v);
    NamesAreNormal();
  }

  /** The four precipitation flags, in any spelling, take the source of the amount. */
  lemma CompanionSource(cs: seq<Candidate>, v: string, anchor: Option<Candidate>)
    requires cs != []
    requires var n := Lower(Strip(v)); n == "crain" || n == "csnow" || n == "cfrzr" || n == "cicep"
    ensures IsFirst(cs, Select(cs, v, anchor),
                    (c: Candidate) => (AnchorLead(cs, anchor) <= 0 ==> c.lead > 0)
                                      && (c.variables == {} || "precipitation_amount_3h" in c.variables))
  {
    CompanionsAreFour(v);
    NamesAreNormal();
    IntervalsAreTwo("precipitation_amount_3h");
    OneName("precipitation_amount_3h");
    SelectByNeed(cs, v, anchor, (c: Candidate) => (AnchorLead(cs, anchor) <= 0 ==> c.lead > 0)
                                  && (c.variables == {} || "precipitation_amount_3h" in c.variables));
  }

  /** The two intervals, the precipitation amount and the mean cloud cover, are looked for as they are
      spelt; when the anchor stands at lead 0 only at positive leads. */
  lemma IntervalSource(cs: seq<Candidate>, v: string, anchor: Option<Candidate>)
    requires cs != []
    requires var n := Lower(Strip(v)); n == "precipitation_amount_3h" || n == "cloud_cover_3h"
    ensures IsFirst(cs, Select(cs, v, anchor),
                    (c: Candidate) => (AnchorLead(cs, anchor) <= 0 ==> c.lead > 0)
                                      && (c.variables == {} || v in c.variables))
  {
    IntervalsAreTwo(v);
    OneName(v);
    SelectByNeed(cs, v, anchor, (c: Candidate) => (AnchorLead(cs, anchor) <= 0 ==> c.lead > 0)
                                  && (c.variables == {} || v in c.variables));
  }

  /** The wind needs both components from one candidate, at any lead. */
  lemma WindSource(cs: seq<Candidate>, anchor: Option<Candidate>)
    requires cs != []
    ensures IsFirst(cs, Select(cs, "wind_10m", anchor),
                    (c: Candidate) => c.variables == {} || ("wind_u_10m" in c.variables && "wind_v_10m" in c.variables))
  {
    NamesAreNormal();
    CompanionsAreFour("wind_10m");
    IntervalsAreTwo("wind_10m");
    SelectByNeed(cs, "wind_10m", anchor,
                 (c: Candidate) => c.variables == {} || ("wind_u_10m" in c.variables && "wind_v_10m" in c.variables));
  }

  /** Every other name is looked for as it is, at any lead. */
  lemma OrdinarySource(cs: seq<Candidate>, v: string, anchor: Option<Candidate>)
    requires cs != [] && v != "wind_10m"
    requires var n := Lower(Strip(v));
             && n != "precipitation_amount_3h" && n != "cloud_cover_3h"
             && n != "crain" && n != "csnow" && n != "cfrzr" && n != "cicep"
    ensures IsFirst(cs, Select(cs, v, anchor), (c: Candidate) => c.variables == {} || v in c.variables)
  {
    CompanionsAreFour(v);
    IntervalsAreTwo(v);
    OneName(v);
    SelectByNeed(cs, v, anchor, (c: Candidate) => c.variables == {} || v in c.variables);
  }
}
