/** Which valid times may still be served: the window boundary, the protected set and cycle expiry. */
module ServingWindow {
  import opened Wrappers

  // Instants are microseconds counted from a midnight UTC.
  const HOUR := 3600000000
  const DAY := 24 * HOUR
  const CANONICAL_CADENCE := 3

  datatype Moment = Aware(utc: int) | Naive

  /** What a call names as its model: none, an unregistered one, or the leads of its horizon. */
  datatype Model = NoModel | Unknown | Known(leads: seq<int>)

  datatype Error = NaiveTime | BadCadence | UnknownModel

  /** What `register_canonical_lead_horizon` accepts. */
  predicate IsHorizon(leads: seq<int>) {
    leads != [] && (forall x <- leads :: x >= 0) && forall i, j | 0 <= i < j < |leads| :: leads[i] < leads[j]
  }

  function Cadence(leads: seq<int>): int
    requires IsHorizon(leads)
  {
    if |leads| > 1 then leads[1] - leads[0] else CANONICAL_CADENCE
  }

  function MaxLead(leads: seq<int>): int
    requires IsHorizon(leads)
  {
    leads[|leads| - 1]
  }

  function HourOfDay(t: int): (h: int)
    ensures 0 <= h < 24
  {
    t % DAY / HOUR
  }

  /** The cadence of a horizon is the step to its second lead; a single lead leaves the default of three
      hours. */
  lemma CadenceMeaning(first: int, second: int, rest: seq<int>)
    ensures IsHorizon([first]) ==> Cadence([first]) == 3
    ensures IsHorizon([first, second] + rest) ==> Cadence([first, second] + rest) == second - first
  {
  }

  /** The platform's horizon: every third hour up to ten days. */
  lemma PlatformHorizon()
    ensures var leads := seq(81, i => 3 * i);
            IsHorizon(leads) && Cadence(leads) == 3 && MaxLead(leads) == 240
  {
  }

  // ---------------------------------------------------------------- the boundary

  function Start(t: int, cadence: int): int
    requires cadence > 0
  {
    t / DAY * DAY + HourOfDay(t) / cadence * cadence * HOUR
  }

  /** `serving_start_valid_time` */
  function ServingStart(now: Moment, cadence: int): Result<int, Error> {
    if now.Naive? then Err(NaiveTime)
    else if cadence <= 0 then Err(BadCadence)
    else Ok(Start(now.utc, cadence))
  }

  predicate OnGrid(t: int, cadence: int)
    requires cadence > 0
  {
    t % HOUR == 0 && HourOfDay(t) % cadence == 0
  }

  lemma Instant(day: int, hour: int, t: int)
    requires 0 <= hour < 24 && t == day * DAY + hour * HOUR
    ensures t / DAY == day && HourOfDay(t) == hour && t % HOUR == 0
  {
    assert t == day * DAY + hour * HOUR && 0 <= hour * HOUR < DAY;
    assert t == (24 * day + hour) * HOUR;
  }

  lemma Parts(t: int)
    ensures var day, hour := t / DAY, HourOfDay(t);
            day * DAY + hour * HOUR <= t < day * DAY + hour * HOUR + HOUR
            && (t % HOUR == 0 <==> t == day * DAY + hour * HOUR)
  {
    var day, hour := t / DAY, HourOfDay(t);
    var left := t - day * DAY - hour * HOUR;
    assert 0 <= left < HOUR;
    assert t == (24 * day + hour) * HOUR + left;
  }

  lemma FloorHour(hour: int, cadence: int)
    requires hour >= 0 && cadence > 0
    ensures var floored := hour / cadence * cadence; 0 <= floored <= hour < floored + cadence && floored % cadence == 0
    ensures forall h | 0 <= h <= hour && h % cadence == 0 :: h <= hour / cadence * cadence
  {
    var q := hour / cadence;
    assert hour == q * cadence + hour % cadence;
    DivMod(q, 0, cadence);
    Larger(0, q, cadence);
    forall h | 0 <= h <= hour && h % cadence == 0 ensures h <= hour / cadence * cadence {
      MultipleBelow(h, hour, cadence);
    }
  }

  lemma MultipleBelow(h: int, hour: int, cadence: int)
    requires h <= hour && cadence > 0 && h % cadence == 0
    ensures h <= hour / cadence * cadence
  {
    var k, q := h / cadence, hour / cadence;
    assert h == k * cadence && hour == q * cadence + hour % cadence;
    if k > q { Larger(q + 1, k, cadence); }
  }

  lemma DivMod(q: int, r: int, c: int)
    requires 0 <= r < c
    ensures (q * c + r) / c == q && (q * c + r) % c == r
  {
    var x := q * c + r;
    var p := x / c;
    assert x == p * c + x % c;
    if q > p { Larger(p + 1, q, c); }
    if q < p { Larger(q + 1, p, c); }
  }

  lemma ModAdd(x: int, y: int, c: int)
    requires c > 0 && x % c == 0
    ensures (x + y) % c == y % c
  {
    var p, q := x / c, y / c;
    assert x == p * c && y == q * c + y % c;
    assert x + y == (p + q) * c + y % c;
    DivMod(p + q, y % c, c);
  }

  lemma Larger(a: int, b: int, cadence: int)
    requires a <= b && cadence > 0
    ensures a * cadence <= b * cadence
  {
  }

  /** For every positive cadence the boundary is the greatest grid instant not after now. */
  lemma StartIsLastGridInstant(t: int, cadence: int)
    requires cadence > 0
    ensures OnGrid(Start(t, cadence), cadence) && Start(t, cadence) <= t
    ensures forall g | OnGrid(g, cadence) && g <= t :: g <= Start(t, cadence)
    ensures Start(t, cadence) / DAY == t / DAY && HourOfDay(Start(t, cadence)) == HourOfDay(t) / cadence * cadence
  {
    var day, hour := t / DAY, HourOfDay(t);
    var floored := hour / cadence * cadence;
    FloorHour(hour, cadence);
    Instant(day, floored, Start(t, cadence));
    Parts(t);
    forall g | OnGrid(g, cadence) && g <= t ensures g <= Start(t, cadence) {
      Parts(g);
      EarlierInstant(g, t);
    }
  }

  /** In microseconds: within a day the hour is floored to a multiple of the cadence and everything below
      it dropped. */
  lemma StartInMicroseconds(day: int, hour: int, rest: int, cadence: int)
    requires 0 <= hour < 24 && 0 <= rest < 3_600_000_000 && cadence > 0
    ensures Start(day * 86_400_000_000 + hour * 3_600_000_000 + rest, cadence) ==
            day * 86_400_000_000 + hour / cadence * cadence * 3_600_000_000
  {
    var t := day * 86_400_000_000 + hour * 3_600_000_000 + rest;
    Instant(day, hour, day * DAY + hour * HOUR);
    Parts(t);
    assert t / DAY == day && HourOfDay(t) == hour;
  }

  lemma EarlierInstant(g: int, t: int)
    requires g <= t
    ensures g / DAY <= t / DAY && (g / DAY == t / DAY ==> HourOfDay(g) <= HourOfDay(t))
  {
  }

  lemma StartIsMonotone(t: int, u: int, cadence: int)
    requires cadence > 0 && t <= u
    ensures Start(t, cadence) <= Start(u, cadence)
  {
    StartIsLastGridInstant(t, cadence);
    StartIsLastGridInstant(u, cadence);
  }

  // ---------------------------------------------------------------- the protected set

  /** `is_valid_time_on_horizon_grid` of a model */
  function OnHorizonGrid(validTime: Moment, m: Model): Result<bool, Error>
    requires m.Known? ==> IsHorizon(m.leads)
  {
    if validTime.Naive? then Err(NaiveTime)
    else
      match m
      case Unknown => Err(UnknownModel)
      case NoModel => Ok(OnGrid(validTime.utc, CANONICAL_CADENCE))
      case Known(leads) => Ok(OnGrid(validTime.utc, Cadence(leads)))
  }

  /** `is_valid_time_protected`; off the grid the answer does not look at `now`, and the boundary is
      taken on `cadence` even when a model is named. */
  function IsProtected(validTime: Moment, now: Moment, m: Model, cadence: int): Result<bool, Error>
    requires m.Known? ==> IsHorizon(m.leads)
  {
    if validTime.Naive? then Err(NaiveTime)
    else if m != NoModel && OnHorizonGrid(validTime, m) != Ok(true) then OnHorizonGrid(validTime, m)
    else
      match ServingStart(now, cadence)
      case Err(e) => Err(e)
      case Ok(start) => Ok(validTime.utc >= start)
  }

  /** Leaving the protected set is permanent. */
  lemma ExitIsPermanent(validTime: int, now: int, later: int, m: Model, cadence: int)
    requires m.Known? ==> IsHorizon(m.leads)
    requires now <= later
    requires IsProtected(Aware(validTime), Aware(now), m, cadence) == Ok(false)
    ensures IsProtected(Aware(validTime), Aware(later), m, cadence) == Ok(false)
  {
    if cadence > 0 { StartIsMonotone(now, later, cadence); }
  }

  lemma HorizonShape(leads: seq<int>)
    requires IsHorizon(leads)
    ensures Cadence(leads) > 0 && MaxLead(leads) >= 0 && MaxLead(leads) / Cadence(leads) >= 0
  {
    assert leads[|leads| - 1] in leads;
    var c, n := Cadence(leads), MaxLead(leads);
    assert n == n / c * c + n % c;
    if n / c < 0 { Larger(n / c, -1, c); }
  }

  /** The test on the boundary the documentation promises for a named model: its own. */
  predicate SameAsOwnBoundary(leads: seq<int>, cadence: int, now: int, t: int)
    requires IsHorizon(leads)
  {
    IsProtected(Aware(t), Aware(now), Known(leads), cadence) ==
    IsProtected(Aware(t), Aware(now), Known(leads), Cadence(leads))
  }

  /** Five hours into a day, midnight is protected for a six-hourly model on its own boundary, but not on
      the three-hourly one a caller gets by naming only the model. */
  lemma DefaultCadenceDiffers()
    ensures IsHorizon([0, 6, 12])
    ensures IsProtected(Aware(0), Aware(5 * HOUR), Known([0, 6, 12]), CANONICAL_CADENCE) == Ok(false)
    ensures IsProtected(Aware(0), Aware(5 * HOUR), Known([0, 6, 12]), 6) == Ok(true)
  {
    Instant(0, 5, 5 * HOUR);
    Instant(0, 0, 0);
  }

  lemma BoundaryOf(day: int, hour: int, cadence: int)
    requires 0 <= hour < 24 && cadence > 0
    ensures Start(day * DAY + hour * HOUR, cadence) == day * DAY + hour / cadence * cadence * HOUR
  {
    Instant(day, hour, day * DAY + hour * HOUR);
  }

  /** At the first step of the finer cadence after midnight the two boundaries part. */
  lemma BoundariesPart(fine: int, coarse: int)
    requires 0 < fine < coarse && fine < 24
    ensures Start(fine * HOUR, fine) == fine * HOUR && Start(fine * HOUR, coarse) == 0
  {
    BoundaryOf(0, fine, fine);
    BoundaryOf(0, fine, coarse);
    DivMod(1, 0, fine);
    DivMod(0, fine, coarse);
  }

  lemma MidnightOnGrid(leads: seq<int>)
    requires IsHorizon(leads)
    ensures OnHorizonGrid(Aware(0), Known(leads)) == Ok(true)
  {
    HorizonShape(leads);
    Instant(0, 0, 0);
  }

  lemma DaylongCadences(t: int, cadence: int)
    requires cadence >= 24
    ensures Start(t, cadence) == t / DAY * DAY
  {
    DivMod(0, HourOfDay(t), cadence);
  }

  /** Naming a model, the test agrees with the model's own boundary at all times exactly when the cadence
      passed is the model's, or neither has a second step within a day. */
  lemma CadenceArgument(leads: seq<int>, cadence: int)
    requires IsHorizon(leads) && cadence > 0
    ensures (forall now, t :: SameAsOwnBoundary(leads, cadence, now, t))
            <==> cadence == Cadence(leads) || (cadence >= 24 && Cadence(leads) >= 24)
  {
    HorizonShape(leads);
    var own := Cadence(leads);
    if cadence >= 24 && own >= 24 {
      forall now, t ensures SameAsOwnBoundary(leads, cadence, now, t) {
        DaylongCadences(now, cadence);
        DaylongCadences(now, own);
      }
    } else if cadence != own {
      MidnightOnGrid(leads);
      var fine := if cadence < own then cadence else own;
      BoundariesPart(fine, if cadence < own then own else cadence);
      assert !SameAsOwnBoundary(leads, cadence, fine * HOUR, 0);
    }
  }

  function Step(start: int, i: nat, cadence: int): int {
    start + i * cadence * HOUR
  }

  /** `protected_valid_times` */
  function Enumerate(leads: seq<int>, now: Moment): Result<seq<int>, Error>
    requires IsHorizon(leads)
  {
    match ServingStart(now, Cadence(leads))
    case Err(e) => Err(e)
    case Ok(start) =>
      HorizonShape(leads);
      Ok(seq(MaxLead(leads) / Cadence(leads) + 1, i requires 0 <= i => Step(start, i, Cadence(leads))))
  }

  predicate Listed(leads: seq<int>, now: int, t: int)
    requires IsHorizon(leads)
  {
    Enumerate(leads, Aware(now)).Ok? && t in Enumerate(leads, Aware(now)).value
  }

  /** Protected for the model on its own cadence, and no later than its last lead after the boundary. */
  predicate InWindow(leads: seq<int>, now: int, t: int)
    requires IsHorizon(leads)
  {
    HorizonShape(leads);
    && IsProtected(Aware(t), Aware(now), Known(leads), Cadence(leads)) == Ok(true)
    && t <= Start(now, Cadence(leads)) + MaxLead(leads) * HOUR
  }

  // In whole hours: `from` is the boundary, `n` the last lead.

  lemma SameDay(from: int, hour: int)
    requires from <= hour && from % 24 + (hour - from) < 24
    ensures hour % 24 == from % 24 + (hour - from)
  {
  }

  lemma SameGrid(from: int, n: int, hour: int, c: int)
    requires c > 0 && from % 24 % c == 0 && from <= hour <= from + n
    requires 24 % c == 0 || from % 24 + n < 24
    ensures hour % 24 % c == 0 <==> (hour - from) % c == 0
  {
    if 24 % c == 0 {
      DayIsMultiple(from, c);
      DayIsMultiple(hour, c);
      ModAdd(from, hour - from, c);
    } else {
      SameDay(from, hour);
      ModAdd(from % 24, hour - from, c);
    }
  }

  lemma DayIsMultiple(hour: int, c: int)
    requires c > 0 && 24 % c == 0
    ensures hour % c == hour % 24 % c
  {
    var k, day := 24 / c, hour / 24;
    assert 24 == k * c;
    assert 24 * day == (k * day) * c;
    DivMod(k * day, 0, c);
    ModAdd(24 * day, hour % 24, c);
  }

  lemma MidnightIsMissed(from: int, c: int)
    requires c > 0 && from % 24 % c == 0 && 24 % c != 0
    ensures (24 - from % 24) % c != 0
  {
    ModAdd(from % 24, 24 - from % 24, c);
  }

  lemma StepInHours(from: int, i: nat, c: int, hour: int)
    ensures Step(from * HOUR, i, c) == hour * HOUR <==> hour == from + i * c
  {
    assert Step(from * HOUR, i, c) == (from + i * c) * HOUR;
  }

  /** An hour of the listing is a whole number of steps after the boundary. */
  lemma StepsReach(from: int, n: int, hour: int, c: int) returns (i: int)
    requires c > 0 && from <= hour <= from + n && (hour - from) % c == 0
    ensures 0 <= i <= n / c && hour == from + i * c
  {
    i := (hour - from) / c;
    QuotientOrder(hour - from, n, c);
  }

  lemma StepsStay(from: int, n: int, i: int, c: int)
    requires c > 0 && n >= 0 && 0 <= i <= n / c
    ensures from <= from + i * c <= from + n && (i * c) % c == 0
  {
    DivMod(i, 0, c);
    Larger(0, i, c);
    Larger(i, n / c, c);
  }

  /** The boundary in whole hours. */
  function StartHour(now: int, c: int): int
    requires c > 0
  {
    Start(now, c) / HOUR
  }

  lemma StartInHours(now: int, c: int)
    requires c > 0
    ensures Start(now, c) == StartHour(now, c) * HOUR
    ensures StartHour(now, c) % 24 == HourOfDay(Start(now, c)) && StartHour(now, c) % 24 % c == 0
  {
    StartIsLastGridInstant(now, c);
    HoursOf(Start(now, c));
  }

  lemma ListedInHours(leads: seq<int>, now: int, hour: int)
    requires IsHorizon(leads) && Cadence(leads) > 0
    ensures var c, from := Cadence(leads), StartHour(now, Cadence(leads));
            Listed(leads, now, hour * HOUR) <==> from <= hour <= from + MaxLead(leads) && (hour - from) % c == 0
  {
    HorizonShape(leads);
    var c, n, from := Cadence(leads), MaxLead(leads), StartHour(now, Cadence(leads));
    StartInHours(now, c);
    var listed := Enumerate(leads, Aware(now)).value;
    if from <= hour <= from + n && (hour - from) % c == 0 {
      var i := StepsReach(from, n, hour, c);
      StepInHours(from, i, c, hour);
      assert listed[i] == hour * HOUR;
    }
    if hour * HOUR in listed {
      var i :| 0 <= i < |listed| && listed[i] == hour * HOUR;
      StepInHours(from, i, c, hour);
      StepsStay(from, n, i, c);
    }
  }

  lemma WholeStep(from: int, i: nat, c: int)
    ensures Step(from * HOUR, i, c) % HOUR == 0
  {
    assert Step(from * HOUR, i, c) == (from + i * c) * HOUR;
    DivMod(from + i * c, 0, HOUR);
  }

  lemma ListedIsWhole(leads: seq<int>, now: int, t: int)
    requires IsHorizon(leads) && Listed(leads, now, t)
    ensures t % HOUR == 0
  {
    HorizonShape(leads);
    StartInHours(now, Cadence(leads));
    var listed := Enumerate(leads, Aware(now)).value;
    var i :| 0 <= i < |listed| && listed[i] == t;
    WholeStep(StartHour(now, Cadence(leads)), i, Cadence(leads));
  }

  lemma InWindowInHours(leads: seq<int>, now: int, hour: int)
    requires IsHorizon(leads) && Cadence(leads) > 0
    ensures var c, from := Cadence(leads), StartHour(now, Cadence(leads));
            InWindow(leads, now, hour * HOUR) <==> from <= hour <= from + MaxLead(leads) && hour % 24 % c == 0
  {
    StartInHours(now, Cadence(leads));
    HoursOf(hour * HOUR);
  }

  /** At a given time the listing is exact when the cadence divides a day or the listed window does not
      reach the next midnight. */
  predicate ListingFits(leads: seq<int>, now: int)
    requires IsHorizon(leads)
  {
    HorizonShape(leads);
    24 % Cadence(leads) == 0 || HourOfDay(Start(now, Cadence(leads))) + MaxLead(leads) < 24
  }

  /** Against the test on the model's own cadence, the listing of `protected_valid_times` is exact if and
      only if it fits; otherwise it misses a protected midnight. */
  lemma ListingOnOwnCadence(leads: seq<int>, now: int)
    requires IsHorizon(leads)
    ensures ListingFits(leads, now) <==> forall t :: Listed(leads, now, t) <==> InWindow(leads, now, t)
  {
    HorizonShape(leads);
    if ListingFits(leads, now) {
      forall t ensures Listed(leads, now, t) <==> InWindow(leads, now, t) {
        FittingListing(leads, now, t);
      }
    } else {
      var t := MissedMidnight(leads, now);
    }
  }

  lemma MissedMidnight(leads: seq<int>, now: int) returns (t: int)
    requires IsHorizon(leads) && !ListingFits(leads, now)
    ensures InWindow(leads, now, t) && !Listed(leads, now, t)
    ensures Cadence(leads) > 0 && t > Start(now, Cadence(leads)) && OnGrid(t, Cadence(leads))
  {
    HorizonShape(leads);
    var c, from := Cadence(leads), StartHour(now, Cadence(leads));
    StartInHours(now, c);
    var midnight := MidnightAhead(from, MaxLead(leads), c);
    ListedInHours(leads, now, midnight);
    InWindowInHours(leads, now, midnight);
    t := midnight * HOUR;
    DivMod(midnight, 0, HOUR);
    HoursOf(t);
  }

  lemma MidnightAhead(from: int, n: int, c: int) returns (hour: int)
    requires c > 0 && from % 24 % c == 0 && 24 % c != 0 && 24 <= from % 24 + n
    ensures from < hour <= from + n && hour % 24 % c == 0 && (hour - from) % c != 0
  {
    hour := from - from % 24 + 24;
    assert hour % 24 == 0;
    MidnightIsMissed(from, c);
  }

  lemma FittingListing(leads: seq<int>, now: int, t: int)
    requires IsHorizon(leads) && ListingFits(leads, now)
    ensures Listed(leads, now, t) <==> InWindow(leads, now, t)
  {
    HorizonShape(leads);
    var c, n, from := Cadence(leads), MaxLead(leads), StartHour(now, Cadence(leads));
    StartInHours(now, c);
    if t % HOUR == 0 {
      var hour := t / HOUR;
      HoursOf(t);
      ListedInHours(leads, now, hour);
      InWindowInHours(leads, now, hour);
      if from <= hour <= from + n { SameGrid(from, n, hour, c); }
    } else if Listed(leads, now, t) {
      ListedIsWhole(leads, now, t);
    }
  }

  /** The window as the test sees it under any cadence argument. */
  predicate InWindowFor(leads: seq<int>, now: int, t: int, cadence: int)
    requires IsHorizon(leads)
  {
    HorizonShape(leads);
    && IsProtected(Aware(t), Aware(now), Known(leads), cadence) == Ok(true)
    && t <= Start(now, Cadence(leads)) + MaxLead(leads) * HOUR
  }

  /** The listing fits, and the boundary on the cadence passed lies behind the grid instant before the
      model's boundary, but not behind the model's boundary itself. */
  predicate ListingFitsFor(leads: seq<int>, now: int, cadence: int)
    requires IsHorizon(leads)
  {
    HorizonShape(leads);
    var own := Cadence(leads);
    && ListingFits(leads, now) && cadence > 0
    && Start(Start(now, own) - 1, own) < Start(now, cadence) <= Start(now, own)
  }

  lemma ListedFromStart(leads: seq<int>, now: int)
    requires IsHorizon(leads)
    ensures Cadence(leads) > 0 && Listed(leads, now, Start(now, Cadence(leads)))
    ensures forall t | Listed(leads, now, t) :: Start(now, Cadence(leads)) <= t
  {
    HorizonShape(leads);
    var c := Cadence(leads);
    StartInHours(now, c);
    ListedInHours(leads, now, StartHour(now, c));
    forall t | Listed(leads, now, t) ensures Start(now, c) <= t {
      NotBeforeStart(leads, now, t);
    }
  }

  lemma NotBeforeStart(leads: seq<int>, now: int, t: int)
    requires IsHorizon(leads) && Listed(leads, now, t) && Cadence(leads) > 0
    ensures Start(now, Cadence(leads)) <= t
  {
    StartInHours(now, Cadence(leads));
    ListedIsWhole(leads, now, t);
    HoursOf(t);
    ListedInHours(leads, now, t / HOUR);
    Larger(StartHour(now, Cadence(leads)), t / HOUR, HOUR);
  }

  lemma FittingListingFor(leads: seq<int>, now: int, t: int, cadence: int)
    requires IsHorizon(leads) && ListingFitsFor(leads, now, cadence)
    ensures Listed(leads, now, t) <==> InWindowFor(leads, now, t, cadence)
  {
    HorizonShape(leads);
    FittingListing(leads, now, t);
    if OnGrid(t, Cadence(leads)) { StartIsLastGridInstant(Start(now, Cadence(leads)) - 1, Cadence(leads)); }
  }

  /** A valid time on which the listing and the test under the cadence passed disagree. */
  lemma ListingDiffers(leads: seq<int>, now: int, cadence: int) returns (t: int)
    requires IsHorizon(leads) && !ListingFitsFor(leads, now, cadence)
    ensures Listed(leads, now, t) != InWindowFor(leads, now, t, cadence)
  {
    HorizonShape(leads);
    var own := Cadence(leads);
    var start := Start(now, own);
    ListedFromStart(leads, now);
    if cadence <= 0 || Start(now, cadence) > start {
      t := start;
    } else if !ListingFits(leads, now) {
      t := MissedMidnight(leads, now);
      StartIsLastGridInstant(now, own);
      StartIsLastGridInstant(now, cadence);
    } else {
      t := Start(start - 1, own);
      StartIsLastGridInstant(start - 1, own);
    }
  }

  /** `protected_valid_times` against the membership test under any cadence argument, the default one
      included: the two agree on the window if and only if the condition holds at that time. */
  lemma ListingIsExact(leads: seq<int>, now: int, cadence: int)
    requires IsHorizon(leads)
    ensures ListingFitsFor(leads, now, cadence)
            <==> forall t :: Listed(leads, now, t) <==> InWindowFor(leads, now, t, cadence)
  {
    if ListingFitsFor(leads, now, cadence) {
      forall t ensures Listed(leads, now, t) <==> InWindowFor(leads, now, t, cadence) {
        FittingListingFor(leads, now, t, cadence);
      }
    } else {
      var t := ListingDiffers(leads, now, cadence);
    }
  }

  lemma HoursOf(t: int)
    requires t % HOUR == 0
    ensures t == t / HOUR * HOUR && HourOfDay(t) == t / HOUR % 24
  {
  }

  lemma QuotientOrder(a: int, b: int, c: int)
    requires 0 <= a <= b && c > 0
    ensures 0 <= a / c <= b / c
  {
    assert a == a / c * c + a % c && b == b / c * c + b % c;
    if a / c < 0 { Larger(a / c, -1, c); }
    if a / c > b / c { Larger(b / c + 1, a / c, c); }
  }

  // ---------------------------------------------------------------- cycle expiry

  /** `is_cycle_horizon_expired` */
  predicate Expired(cycle: int, maxLead: int, start: int) {
    cycle + maxLead * HOUR < start
  }

  /** The boundary test of a lead of a cycle. */
  predicate LeadProtected(cycle: int, lead: int, now: int, m: Model, cadence: int)
    requires m.Known? ==> IsHorizon(m.leads)
  {
    IsProtected(Aware(cycle + lead * HOUR), Aware(now), m, cadence) == Ok(true)
  }

  /** A cycle is expired exactly when no lead up to its last is protected, and then it stays expired. */
  lemma ExpiredMeansUnprotected(cycle: int, maxLead: int, now: int, cadence: int)
    requires maxLead >= 0 && cadence > 0
    ensures Expired(cycle, maxLead, Start(now, cadence))
            <==> forall lead | 0 <= lead <= maxLead :: !LeadProtected(cycle, lead, now, NoModel, cadence)
    ensures forall later | now <= later && Expired(cycle, maxLead, Start(now, cadence)) ::
              Expired(cycle, maxLead, Start(later, cadence))
  {
    if !Expired(cycle, maxLead, Start(now, cadence)) {
      assert LeadProtected(cycle, maxLead, now, NoModel, cadence);
    }
    forall later | now <= later ensures Start(now, cadence) <= Start(later, cadence) {
      StartIsMonotone(now, later, cadence);
    }
  }

  /** No registered lead of the cycle is protected for its model. */
  predicate NoLeadProtected(cycle: int, leads: seq<int>, now: int, cadence: int)
    requires IsHorizon(leads)
  {
    forall lead <- leads :: !LeadProtected(cycle, lead, now, Known(leads), cadence)
  }

  /** Some registered lead is a grid instant of the model and not before the boundary of the cycle's end. */
  predicate LateGridLead(cycle: int, leads: seq<int>, cadence: int)
    requires IsHorizon(leads) && cadence > 0
  {
    HorizonShape(leads);
    exists lead <- leads :: && OnGrid(cycle + lead * HOUR, Cadence(leads))
                            && Start(cycle + MaxLead(leads) * HOUR, cadence) <= cycle + lead * HOUR
  }

  lemma LeadsUpToLast(leads: seq<int>)
    requires IsHorizon(leads)
    ensures forall lead <- leads :: lead <= MaxLead(leads)
    ensures MaxLead(leads) in leads
  {
    forall lead | lead in leads ensures lead <= MaxLead(leads) {
      var i :| 0 <= i < |leads| && leads[i] == lead;
    }
  }

  lemma ExpiredLeavesNone(cycle: int, leads: seq<int>, now: int, cadence: int)
    requires IsHorizon(leads) && cadence > 0 && Expired(cycle, MaxLead(leads), Start(now, cadence))
    ensures NoLeadProtected(cycle, leads, now, cadence)
  {
    LeadsUpToLast(leads);
  }

  lemma LateLeadIsProtected(cycle: int, leads: seq<int>, now: int, cadence: int)
    requires IsHorizon(leads) && cadence > 0 && LateGridLead(cycle, leads, cadence)
    requires !Expired(cycle, MaxLead(leads), Start(now, cadence))
    ensures !NoLeadProtected(cycle, leads, now, cadence)
  {
    HorizonShape(leads);
    var end := cycle + MaxLead(leads) * HOUR;
    var lead :| lead in leads && OnGrid(cycle + lead * HOUR, Cadence(leads))
                && Start(end, cadence) <= cycle + lead * HOUR;
    StartIsLastGridInstant(now, cadence);
    StartIsLastGridInstant(end, cadence);
    assert LeadProtected(cycle, lead, now, Known(leads), cadence);
  }

  /** For a model, expiry says that no registered lead is protected; the two mean the same at all times
      exactly when a lead on the model's grid is not before the boundary taken at the cycle's end. */
  lemma ExpiredModelCycle(cycle: int, leads: seq<int>, cadence: int)
    requires IsHorizon(leads) && cadence > 0
    ensures forall now :: Expired(cycle, MaxLead(leads), Start(now, cadence)) ==>
                            NoLeadProtected(cycle, leads, now, cadence)
    ensures (forall now :: NoLeadProtected(cycle, leads, now, cadence) ==>
                             Expired(cycle, MaxLead(leads), Start(now, cadence)))
            <==> LateGridLead(cycle, leads, cadence)
  {
    HorizonShape(leads);
    forall now | Expired(cycle, MaxLead(leads), Start(now, cadence))
      ensures NoLeadProtected(cycle, leads, now, cadence)
    {
      ExpiredLeavesNone(cycle, leads, now, cadence);
    }
    if LateGridLead(cycle, leads, cadence) {
      forall now | NoLeadProtected(cycle, leads, now, cadence)
        ensures Expired(cycle, MaxLead(leads), Start(now, cadence))
      {
        if !Expired(cycle, MaxLead(leads), Start(now, cadence)) { LateLeadIsProtected(cycle, leads, now, cadence); }
      }
    } else {
      var end := cycle + MaxLead(leads) * HOUR;
      StartIsLastGridInstant(end, cadence);
      assert NoLeadProtected(cycle, leads, end, cadence) && !Expired(cycle, MaxLead(leads), Start(end, cadence));
    }
  }

  /** On the model's own cadence: exactly when some lead of the cycle is the boundary of its end. */
  lemma LateGridLeadOnOwnCadence(cycle: int, leads: seq<int>)
    requires IsHorizon(leads)
    ensures Cadence(leads) > 0
    ensures LateGridLead(cycle, leads, Cadence(leads))
            <==> exists lead <- leads :: cycle + lead * HOUR == Start(cycle + MaxLead(leads) * HOUR, Cadence(leads))
  {
    HorizonShape(leads);
    LeadsUpToLast(leads);
    var end := cycle + MaxLead(leads) * HOUR;
    StartIsLastGridInstant(end, Cadence(leads));
    forall lead | lead in leads && OnGrid(cycle + lead * HOUR, Cadence(leads))
      ensures cycle + lead * HOUR <= Start(end, Cadence(leads))
    {
      Larger(lead, MaxLead(leads), HOUR);
    }
  }

  /** A cycle that starts an hour off the grid: at its last valid time it is not expired, yet none of its
      leads is ever protected. */
  lemma OffGridCycle()
    ensures IsHorizon([0, 3])
    ensures NoLeadProtected(HOUR, [0, 3], 4 * HOUR, 3) && !Expired(HOUR, MaxLead([0, 3]), Start(4 * HOUR, 3))
  {
    Instant(0, 1, HOUR);
    Instant(0, 4, 4 * HOUR);
  }
}
