/** Counting an ensemble's winds by compass sector and speed. */
module WindRose {
  import opened Wrappers
  import opened Arrays
  import opened Text
  import Wilson

  const SECTORS := ["N", "NE", "E", "SE", "S", "SW", "W", "NW"]

  datatype Error =
    | EmptyEnsemble | MismatchedShapes | NonFiniteMembers
    | InvalidSector | InvalidThreshold | UnsupportedOperator

  /** The two foreign functions: the length of a vector and the bearing it comes from, in degrees. */
  datatype Geometry = Geometry(hypot: (real, real) -> real, bearing: (real, real) -> real)

  type Compass = i: nat | i < 8

  /** What the loops look at of one member. */
  datatype Member = Member(speed: real, sector: Compass)

  function SectorOf(degrees: real): Compass {
    ((degrees + 22.5) / 45.0).Floor % 8
  }

  /** The eight sectors split the circle, each reaching half a sector to both sides of its direction. */
  lemma SectorMeaning(degrees: real, i: nat)
    requires 0.0 <= degrees < 360.0 && i < 8
    ensures SectorOf(degrees) == i <==>
            (if i == 0 then degrees < 22.5 || 337.5 <= degrees
             else 45.0 * i as real - 22.5 <= degrees < 45.0 * i as real + 22.5)
  {
    var x := (degrees + 22.5) / 45.0;
    assert x * 45.0 == degrees + 22.5;
    assert x.Floor as real <= x < x.Floor as real + 1.0 && 0 <= x.Floor <= 8;
  }

  // ---------------------------------------------------------------- the members

  function CheckMembers(u: Field, v: Field): Option<Error> {
    if |u.cells| == 0 || |v.cells| == 0 then Some(EmptyEnsemble)
    else if u.shape != v.shape || |u.shape| != 1 then Some(MismatchedShapes)
    else if !AllFinite(u) || !AllFinite(v) then Some(NonFiniteMembers)
    else None
  }

  function Members(u: Field, v: Field, g: Geometry): (r: seq<Member>)
    requires u.Valid() && v.Valid() && CheckMembers(u, v).None?
    ensures |r| == |u.cells| > 0
  {
    seq(|u.cells|, k requires 0 <= k < |u.cells| =>
      Member(g.hypot(u.cells[k].x, v.cells[k].x), SectorOf(g.bearing(u.cells[k].x, v.cells[k].x))))
  }

  // ---------------------------------------------------------------- classes and counts

  datatype Threshold = NaN | Infinite | Num(value: real)

  datatype Operator = Gte | Gt | Lte | Lt

  function ParseOperator(name: string): Option<Operator> {
    if name == "gte" || name == "ge" then Some(Gte)
    else if name == "gt" || name == ">" then Some(Gt)
    else if name == "lte" || name == "le" then Some(Lte)
    else if name == "lt" || name == "<" then Some(Lt)
    else None
  }

  predicate Compare(speed: real, op: Operator, t: Threshold) {
    match t
    case NaN => false
    case Infinite => op.Lte? || op.Lt?
    case Num(x) =>
      match op
      case Gte => speed >= x
      case Gt => speed > x
      case Lte => speed <= x
      case Lt => speed < x
  }

  datatype Class =
    | Calm
    | Sector(sector: nat)
    | Bin(sector: nat, bin: nat)
    | Unbinned(sector: nat)
    | Joint(sector: nat, op: Operator, threshold: Threshold)
    | AtSpeed(sector: nat, speed: real)

  /** The bins light, moderate, strong and gale, in the order of the table. */
  predicate InBin(bin: nat, speed: real) {
    match bin
    case 0 => 0.5 <= speed < 5.5
    case 1 => 5.5 <= speed < 11.0
    case 2 => 11.0 <= speed < 17.0
    case 3 => 17.0 <= speed
    case _ => false
  }

  predicate Belongs(m: Member, c: Class, calm: real) {
    if c.Calm? then m.speed < calm
    else
      && !(m.speed < calm) && m.sector == c.sector
      && match c
         case Bin(_, b) => InBin(b, m.speed)
         case Unbinned(_) => m.speed < 0.5
         case Joint(_, op, t) => Compare(m.speed, op, t)
         case AtSpeed(_, x) => m.speed == x
         case _ => true
  }

  function Count(ms: seq<Member>, c: Class, calm: real): (r: nat)
    ensures r <= |ms|
  {
    if ms == [] then 0
    else Count(ms[..|ms| - 1], c, calm) + if Belongs(ms[|ms| - 1], c, calm) then 1 else 0
  }

  lemma CountNext(ms: seq<Member>, k: nat, c: Class, calm: real)
    requires k < |ms|
    ensures Count(ms[..k + 1], c, calm) == Count(ms[..k], c, calm) + if Belongs(ms[k], c, calm) then 1 else 0
  {
    assert ms[..k + 1][..k] == ms[..k];
  }

  // ---------------------------------------------------------------- the rose

  datatype Share = Share(name: string, count: nat, probability: real, binCounts: seq<nat>, bins: seq<real>)

  datatype Rose = Rose(memberCount: nat, calmCount: nat, calmProbability: real, sectors: seq<Share>)

  function Ratio(count: nat, n: nat): real
    requires n > 0
  {
    count as real / n as real
  }

  function ShareOf(ms: seq<Member>, calm: real, i: nat): Share
    requires ms != [] && i < 8
  {
    Share(SECTORS[i], Count(ms, Sector(i), calm), Ratio(Count(ms, Sector(i), calm), |ms|),
          seq(4, b requires 0 <= b < 4 => Count(ms, Bin(i, b), calm)),
          seq(4, b requires 0 <= b < 4 => Ratio(Count(ms, Bin(i, b), calm), |ms|)))
  }

  function RoseOf(ms: seq<Member>, calm: real): Rose
    requires ms != []
  {
    Rose(|ms|, Count(ms, Calm, calm), Ratio(Count(ms, Calm, calm), |ms|),
         seq(8, i requires 0 <= i < 8 => ShareOf(ms, calm, i)))
  }

  /** The scan of the speed bins, stopping at the first that holds the speed. */
  method FindBin(speed: real) returns (bin: nat)
    ensures bin <= 4 && (bin < 4 ==> InBin(bin, speed))
    ensures forall b: nat | b < 4 && b != bin :: !InBin(b, speed)
  {
    bin := 0;
    while bin < 4 && !InBin(bin, speed)
      invariant bin <= 4 && forall b: nat | b < bin :: !InBin(b, speed)
    {
      bin := bin + 1;
    }
  }

  lemma AllCountsNext(ms: seq<Member>, k: nat, calm: real)
    requires k < |ms|
    ensures Count(ms[..k + 1], Calm, calm) == Count(ms[..k], Calm, calm) + if Belongs(ms[k], Calm, calm) then 1 else 0
    ensures forall i: nat ::
              Count(ms[..k + 1], Sector(i), calm) ==
              Count(ms[..k], Sector(i), calm) + if Belongs(ms[k], Sector(i), calm) then 1 else 0
    ensures forall i: nat, b: nat ::
              Count(ms[..k + 1], Bin(i, b), calm) ==
              Count(ms[..k], Bin(i, b), calm) + if Belongs(ms[k], Bin(i, b), calm) then 1 else 0
  {
    forall c ensures Count(ms[..k + 1], c, calm) == Count(ms[..k], c, calm) + if Belongs(ms[k], c, calm) then 1 else 0 {
      CountNext(ms, k, c, calm);
    }
  }

  /** The counting loop. */
  method CountMembers(ms: seq<Member>, calm: real)
    returns (calmCount: nat, sectorCounts: seq<nat>, binCounts: seq<seq<nat>>)
    ensures calmCount == Count(ms, Calm, calm)
    ensures |sectorCounts| == |binCounts| == 8
    ensures forall i | 0 <= i < 8 :: sectorCounts[i] == Count(ms, Sector(i), calm) && |binCounts[i]| == 4
    ensures forall i, b | 0 <= i < 8 && 0 <= b < 4 :: binCounts[i][b] == Count(ms, Bin(i, b), calm)
  {
    calmCount := 0;
    sectorCounts := [0, 0, 0, 0, 0, 0, 0, 0];
    binCounts := seq(8, i => [0, 0, 0, 0]);
    for k := 0 to |ms|
      invariant calmCount == Count(ms[..k], Calm, calm)
      invariant |sectorCounts| == |binCounts| == 8
      invariant forall i | 0 <= i < 8 :: sectorCounts[i] == Count(ms[..k], Sector(i), calm) && |binCounts[i]| == 4
      invariant forall i, b | 0 <= i < 8 && 0 <= b < 4 :: binCounts[i][b] == Count(ms[..k], Bin(i, b), calm)
    {
      var m := ms[k];
      AllCountsNext(ms, k, calm);
      if m.speed < calm {
        calmCount := calmCount + 1;
        continue;
      }
      sectorCounts := sectorCounts[m.sector := sectorCounts[m.sector] + 1];
      var bin := FindBin(m.speed);
      if bin < 4 {
        var row := binCounts[m.sector];
        binCounts := binCounts[m.sector := row[bin := row[bin] + 1]];
      }
    }
    assert ms[..|ms|] == ms;
  }

  /** `compute_wind_rose` */
  method ComputeWindRose(u: Field, v: Field, calm: real, g: Geometry) returns (r: Result<Rose, Error>)
    requires u.Valid() && v.Valid()
    ensures r == match CheckMembers(u, v)
                 case Some(e) => Err(e)
                 case None => Ok(RoseOf(Members(u, v, g), calm))
  {
    var bad := CheckMembers(u, v);
    if bad.Some? { return Err(bad.value); }
    var ms := Members(u, v, g);
    var calmCount, sectorCounts, binCounts := CountMembers(ms, calm);
    var sectors: seq<Share> := [];
    for i := 0 to 8
      invariant |sectors| == i && forall j | 0 <= j < i :: sectors[j] == ShareOf(ms, calm, j)
    {
      var shares := seq(4, b requires 0 <= b < 4 => Ratio(binCounts[i][b], |ms|));
      var share := Share(SECTORS[i], sectorCounts[i], Ratio(sectorCounts[i], |ms|), binCounts[i], shares);
      assert share == ShareOf(ms, calm, i);
      sectors := sectors + [share];
    }
    r := Ok(Rose(|ms|, calmCount, Ratio(calmCount, |ms|), sectors));
    assert r.value.sectors == RoseOf(ms, calm).sectors;
  }

  // ---------------------------------------------------------------- conservation

  lemma {:induction false} EveryMemberCountedOnce(ms: seq<Member>, calm: real)
    ensures Count(ms, Calm, calm)
            + Count(ms, Sector(0), calm) + Count(ms, Sector(1), calm) + Count(ms, Sector(2), calm)
            + Count(ms, Sector(3), calm) + Count(ms, Sector(4), calm) + Count(ms, Sector(5), calm)
            + Count(ms, Sector(6), calm) + Count(ms, Sector(7), calm)
            == |ms|
  {
    if ms == [] {
    } else {
      EveryMemberCountedOnce(ms[..|ms| - 1], calm);
    }
  }

  lemma RatioOf(count: nat, n: nat)
    requires n > 0
    ensures Ratio(count, n) * n as real == count as real
  {
  }

  /** Calm members and sector counts add up to the ensemble. */
  lemma RoseIsConserved(ms: seq<Member>, calm: real)
    requires ms != []
    ensures var r := RoseOf(ms, calm); var s := r.sectors;
            r.calmCount + s[0].count + s[1].count + s[2].count + s[3].count
            + s[4].count + s[5].count + s[6].count + s[7].count == r.memberCount == |ms|
  {
    EveryMemberCountedOnce(ms, calm);
  }

  /** Each probability is its count's share of the ensemble, so the probabilities add up to one. */
  lemma ProbabilitiesAreShares(ms: seq<Member>, calm: real, i: nat)
    requires ms != [] && i < 8
    ensures RoseOf(ms, calm).calmProbability * |ms| as real == RoseOf(ms, calm).calmCount as real
    ensures var s := RoseOf(ms, calm).sectors[i]; s.probability * |ms| as real == s.count as real
  {
    RatioOf(Count(ms, Calm, calm), |ms|);
    RatioOf(Count(ms, Sector(i), calm), |ms|);
  }

  lemma RatiosAdd(a: nat, b: nat, n: nat)
    requires n > 0
    ensures Ratio(a, n) + Ratio(b, n) == Ratio(a + b, n)
  {
  }

  lemma {:induction false} BinsAndRest(ms: seq<Member>, calm: real, i: nat)
    ensures Count(ms, Sector(i), calm) ==
            Count(ms, Bin(i, 0), calm) + Count(ms, Bin(i, 1), calm)
            + Count(ms, Bin(i, 2), calm) + Count(ms, Bin(i, 3), calm)
            + Count(ms, Unbinned(i), calm)
  {
    if ms == [] {
    } else {
      BinsAndRest(ms[..|ms| - 1], calm, i);
    }
  }

  lemma {:induction false} CountIsZero(ms: seq<Member>, c: Class, calm: real)
    ensures Count(ms, c, calm) == 0 <==> forall m <- ms :: !Belongs(m, c, calm)
  {
    if ms == [] {
    } else {
      var n := |ms| - 1;
      CountIsZero(ms[..n], c, calm);
      assert ms == ms[..n] + [ms[n]];
    }
  }

  /** The speed bins partition a sector exactly when no member of it is slower than the first bin
      without being calm. */
  lemma BinsPartitionSector(ms: seq<Member>, calm: real, i: nat)
    requires ms != [] && i < 8
    ensures var s := RoseOf(ms, calm).sectors[i];
            s.count == s.binCounts[0] + s.binCounts[1] + s.binCounts[2] + s.binCounts[3]
            <==> !(exists m <- ms :: m.sector == i && calm <= m.speed < 0.5)
    ensures calm >= 0.5 ==> !(exists m <- ms :: m.sector == i && calm <= m.speed < 0.5)
  {
    BinsAndRest(ms, calm, i);
    CountIsZero(ms, Unbinned(i), calm);
    assert forall m <- ms :: Belongs(m, Unbinned(i), calm) <==> m.sector == i && calm <= m.speed < 0.5;
  }

  // ---------------------------------------------------------------- directional probability

  function SectorIndex(name: string): Option<nat> {
    var n := Upper(Strip(name));
    if n == "N" then Some(0) else if n == "NE" then Some(1)
    else if n == "E" then Some(2) else if n == "SE" then Some(3)
    else if n == "S" then Some(4) else if n == "SW" then Some(5)
    else if n == "W" then Some(6) else if n == "NW" then Some(7)
    else None
  }

  /** An unsupported operator is noticed only when a member of the sector is compared. */
  function MatchedCount(ms: seq<Member>, calm: real, i: nat, t: Option<Threshold>, op: string): Result<nat, Error> {
    if t.None? then Ok(Count(ms, Sector(i), calm))
    else
      match ParseOperator(op)
      case Some(parsed) => Ok(Count(ms, Joint(i, parsed, t.value), calm))
      case None => if Count(ms, Sector(i), calm) == 0 then Ok(0) else Err(UnsupportedOperator)
  }

  function CheckQuery(sector: string, t: Option<Threshold>): Option<Error> {
    if SectorIndex(sector).None? then Some(InvalidSector)
    else if t.Some? && (t.value.NaN? || (t.value.Num? && t.value.value < 0.0)) then Some(InvalidThreshold)
    else None
  }

  function Directional(u: Field, v: Field, sector: string, t: Option<Threshold>, op: string, calm: real, g: Geometry)
    : Result<real, Error>
    requires u.Valid() && v.Valid()
  {
    if CheckQuery(sector, t).Some? then Err(CheckQuery(sector, t).value)
    else if CheckMembers(u, v).Some? then Err(CheckMembers(u, v).value)
    else
      match MatchedCount(Members(u, v, g), calm, SectorIndex(sector).value, t, op)
      case Err(e) => Err(e)
      case Ok(matched) => Ok(Ratio(matched, |u.cells|))
  }

  /** The counting loop, which stops at the first member an unsupported operator would compare. */
  method CountMatches(ms: seq<Member>, calm: real, target: nat, t: Option<Threshold>, op: string)
    returns (r: Result<nat, Error>)
    ensures r == MatchedCount(ms, calm, target, t, op)
    ensures r.Ok? ==> r.value <= |ms|
  {
    var matched: nat := 0;
    for k := 0 to |ms|
      invariant matched <= k
      invariant MatchedCount(ms[..k], calm, target, t, op) == Ok(matched)
    {
      var m := ms[k];
      CountNext(ms, k, Sector(target), calm);
      if t.Some? && ParseOperator(op).Some? { CountNext(ms, k, Joint(target, ParseOperator(op).value, t.value), calm); }
      if m.speed < calm { continue; }
      if m.sector != target { continue; }
      if t.None? {
        matched := matched + 1;
        continue;
      }
      var parsed := ParseOperator(op);
      if parsed.None? {
        CountGrows(ms, k + 1, Sector(target), calm);
        return Err(UnsupportedOperator);
      }
      if Compare(m.speed, parsed.value, t.value) { matched := matched + 1; }
    }
    assert ms[..|ms|] == ms;
    r := Ok(matched);
  }

  /** `compute_directional_probability`: the probability with its Wilson interval. */
  method ComputeDirectionalProbability(u: Field, v: Field, sector: string, t: Option<Threshold>, op: string, calm: real,
                                       g: Geometry, sqrt: real -> real)
    returns (r: Result<(real, (real, real)), Error>)
    requires u.Valid() && v.Valid() && Wilson.IsSquareRoot(sqrt)
    ensures r.Err? <==> Directional(u, v, sector, t, op, calm, g).Err?
    ensures r.Err? ==> r.error == Directional(u, v, sector, t, op, calm, g).error
    ensures r.Ok? ==> var (p, (lower, upper)) := r.value;
              && p == Directional(u, v, sector, t, op, calm, g).value
              && 0.0 <= lower <= p <= upper <= 1.0 && lower < upper
              && Wilson.Interval(p, |u.cells|, 0.95, sqrt) == Ok((lower, upper))
  {
    var bad := CheckQuery(sector, t);
    if bad.Some? { return Err(bad.value); }
    bad := CheckMembers(u, v);
    if bad.Some? { return Err(bad.value); }
    var ms := Members(u, v, g);
    var counted := CountMatches(ms, calm, SectorIndex(sector).value, t, op);
    if counted.Err? { return Err(counted.error); }
    var p := Ratio(counted.value, |ms|);
    RatioInUnit(counted.value, |ms|);
    Wilson.IntervalHoldsProportion(p, |ms|, sqrt);
    r := Ok((p, Wilson.Interval(p, |ms|, 0.95, sqrt).value));
  }

  lemma RatioInUnit(c: nat, n: nat)
    requires c <= n && n > 0
    ensures 0.0 <= Ratio(c, n) <= 1.0
  {
  }

  lemma {:induction false} CountGrows(ms: seq<Member>, k: nat, c: Class, calm: real)
    requires k <= |ms|
    ensures Count(ms[..k], c, calm) <= Count(ms, c, calm)
    decreases |ms| - k
  {
    if k < |ms| {
      CountNext(ms, k, c, calm);
      CountGrows(ms, k + 1, c, calm);
    } else {
      assert ms[..k] == ms;
    }
  }

  /** Without a threshold the probability is the share of the sector in the rose. */
  lemma DirectionAgreesWithRose(u: Field, v: Field, sector: string, op: string, calm: real, g: Geometry)
    requires u.Valid() && v.Valid() && Directional(u, v, sector, None, op, calm, g).Ok?
    ensures SectorIndex(sector).Some? && CheckMembers(u, v).None?
    ensures Directional(u, v, sector, None, op, calm, g).value ==
            RoseOf(Members(u, v, g), calm).sectors[SectorIndex(sector).value].probability
  {
  }

  lemma {:induction false} ThresholdSplits(ms: seq<Member>, calm: real, i: nat, t: Threshold)
    requires !t.NaN?
    ensures Count(ms, Joint(i, Gte, t), calm) + Count(ms, Joint(i, Lt, t), calm) == Count(ms, Sector(i), calm)
    ensures Count(ms, Joint(i, Lte, t), calm) + Count(ms, Joint(i, Gt, t), calm) == Count(ms, Sector(i), calm)
  {
    if ms == [] {
    } else {
      ThresholdSplits(ms[..|ms| - 1], calm, i, t);
    }
  }

  /** The members at the threshold itself count for at-or-above and at-or-below, not for above or below. */
  lemma {:induction false} ThresholdMembers(ms: seq<Member>, calm: real, i: nat, x: real)
    ensures Count(ms, Joint(i, Gte, Num(x)), calm) ==
            Count(ms, Joint(i, Gt, Num(x)), calm) + Count(ms, AtSpeed(i, x), calm)
    ensures Count(ms, Joint(i, Lte, Num(x)), calm) ==
            Count(ms, Joint(i, Lt, Num(x)), calm) + Count(ms, AtSpeed(i, x), calm)
  {
    if ms == [] {
    } else {
      ThresholdMembers(ms[..|ms| - 1], calm, i, x);
    }
  }

  /** At-or-above and below split the direction-only probability, as do above and at-or-below. */
  lemma OperatorsSplitDirection(u: Field, v: Field, sector: string, t: Threshold, calm: real, g: Geometry)
    requires u.Valid() && v.Valid() && Directional(u, v, sector, Some(t), "gte", calm, g).Ok?
    ensures Directional(u, v, sector, None, "gte", calm, g).Ok?
    ensures Directional(u, v, sector, Some(t), "lt", calm, g).Ok?
    ensures Directional(u, v, sector, Some(t), "lte", calm, g).Ok?
    ensures Directional(u, v, sector, Some(t), "gt", calm, g).Ok?
    ensures var whole := Directional(u, v, sector, None, "gte", calm, g).value;
            && Directional(u, v, sector, Some(t), "gte", calm, g).value
               + Directional(u, v, sector, Some(t), "lt", calm, g).value == whole
            && Directional(u, v, sector, Some(t), "lte", calm, g).value
               + Directional(u, v, sector, Some(t), "gt", calm, g).value == whole
  {
    var ms, i := Members(u, v, g), SectorIndex(sector).value;
    ThresholdSplits(ms, calm, i, t);
    RatiosAdd(Count(ms, Joint(i, Gte, t), calm), Count(ms, Joint(i, Lt, t), calm), |ms|);
    RatiosAdd(Count(ms, Joint(i, Lte, t), calm), Count(ms, Joint(i, Gt, t), calm), |ms|);
    assert ParseOperator("gte") == Some(Gte) && ParseOperator("lt") == Some(Lt);
    assert ParseOperator("lte") == Some(Lte) && ParseOperator("gt") == Some(Gt);
  }
}
