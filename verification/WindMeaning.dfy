/** What the wind rose and the directional probability count, in degrees, metres per second and operator
    names, member by member. */
module WindMeaning {
  import opened Wrappers
  import opened Arrays
  import opened Text
  import opened WindRose

  // ---------------------------------------------------------------- directions

  /** The eight directions a name can mean, in degrees clockwise from north. */
  predicate Means(n: string, direction: real) {
    || (n == "N" && direction == 0.0) || (n == "NE" && direction == 45.0)
    || (n == "E" && direction == 90.0) || (n == "SE" && direction == 135.0)
    || (n == "S" && direction == 180.0) || (n == "SW" && direction == 225.0)
    || (n == "W" && direction == 270.0) || (n == "NW" && direction == 315.0)
  }

  /** At most half a sector away, the far end excluded; across north for north itself. */
  predicate Faces(degrees: real, direction: real) {
    if direction == 0.0 then degrees < 22.5 || 337.5 <= degrees
    else direction - 22.5 <= degrees < direction + 22.5
  }

  lemma SectorNamed(name: string, direction: real)
    ensures Means(Upper(Strip(name)), direction) <==>
            SectorIndex(name).Some? && direction == 45.0 * SectorIndex(name).value as real
  {
  }

  /** A bearing is counted in the sector of a name exactly when it faces the named direction. */
  lemma NamedSector(name: string, direction: real, degrees: real)
    requires Means(Upper(Strip(name)), direction) && 0.0 <= degrees < 360.0
    ensures SectorIndex(name).Some? && SectorIndex(name).value < 8
    ensures SectorOf(degrees) == SectorIndex(name).value <==> Faces(degrees, direction)
  {
    SectorNamed(name, direction);
    SectorMeaning(degrees, SectorIndex(name).value);
  }

  /** The sectors of a rose carry the names of their directions, clockwise from north. */
  lemma RoseNames(ms: seq<Member>, calm: real, i: nat)
    requires ms != [] && i < 8
    ensures Means(RoseOf(ms, calm).sectors[i].name, 45.0 * i as real)
  {
  }

  /** Names are taken without blanks around them and in any case; anything else is no sector. */
  lemma Spellings()
    ensures SectorIndex(" sw ") == Some(5) && SectorIndex("Ne") == Some(1) && SectorIndex("north") == None
  {
    assert " sw "[1..] == "sw " && "sw "[..2] == "sw" && Strip("sw") == "sw" && Strip("sw ") == "sw";
    assert Upper("sw") == "SW" && Strip("Ne") == "Ne" && Upper("Ne") == "NE";
    assert Strip("north") == "north" && |Upper("north")| == 5;
  }

  // ---------------------------------------------------------------- speeds

  /** The comparison an operator's name stands for; an infinite threshold is above every speed. */
  predicate SpeedIs(op: string, speed: real, t: Threshold)
    requires !t.NaN?
  {
    || ((op == "gte" || op == "ge") && t.Num? && speed >= t.value)
    || ((op == "gt" || op == ">") && t.Num? && speed > t.value)
    || ((op == "lte" || op == "le") && (t.Infinite? || speed <= t.value))
    || ((op == "lt" || op == "<") && (t.Infinite? || speed < t.value))
  }

  predicate Supported(op: string) {
    op == "gte" || op == "ge" || op == "gt" || op == ">" || op == "lte" || op == "le" || op == "lt" || op == "<"
  }

  lemma OperatorNamed(op: string, speed: real, t: Threshold)
    requires !t.NaN?
    ensures ParseOperator(op).Some? <==> Supported(op)
    ensures ParseOperator(op).Some? ==> (Compare(speed, ParseOperator(op).value, t) <==> SpeedIs(op, speed, t))
  {
  }

  /** A single member with wind fills the one bin of its sector that holds its speed, and none below
      half a metre per second: light to 5.5, moderate to 11, strong to 17, gale from there on. */
  lemma OneMemberBins(m: Member, calm: real)
    requires m.speed >= calm
    ensures RoseOf([m], calm).sectors[m.sector].binCounts ==
            if m.speed < 0.5 then [0, 0, 0, 0]
            else if m.speed < 5.5 then [1, 0, 0, 0]
            else if m.speed < 11.0 then [0, 1, 0, 0]
            else if m.speed < 17.0 then [0, 0, 1, 0]
            else [0, 0, 0, 1]
  {
    forall c: Class ensures Count([m], c, calm) == if Belongs(m, c, calm) then 1 else 0 {
      assert [m][..0] == [];
    }
  }

  // ---------------------------------------------------------------- the directional probability

  function Chosen(ms: seq<Member>, c: Class, calm: real, n: nat): set<nat>
    requires n <= |ms|
  {
    set k: nat | k < n && Belongs(ms[k], c, calm)
  }

  lemma ChosenNext(ms: seq<Member>, c: Class, calm: real, n: nat)
    requires n < |ms|
    ensures |Chosen(ms, c, calm, n + 1)| == |Chosen(ms, c, calm, n)| + if Belongs(ms[n], c, calm) then 1 else 0
  {
    if Belongs(ms[n], c, calm) { ChosenGrows(ms, c, calm, n); } else { ChosenStays(ms, c, calm, n); }
  }

  lemma ChosenGrows(ms: seq<Member>, c: Class, calm: real, n: nat)
    requires n < |ms| && Belongs(ms[n], c, calm)
    ensures |Chosen(ms, c, calm, n + 1)| == |Chosen(ms, c, calm, n)| + 1
  {
    var before := Chosen(ms, c, calm, n);
    assert n !in before && Chosen(ms, c, calm, n + 1) == before + {n};
  }

  lemma ChosenStays(ms: seq<Member>, c: Class, calm: real, n: nat)
    requires n < |ms| && !Belongs(ms[n], c, calm)
    ensures Chosen(ms, c, calm, n + 1) == Chosen(ms, c, calm, n)
  {
  }

  lemma {:induction false} CountIsSize(ms: seq<Member>, c: Class, calm: real, n: nat)
    requires n <= |ms|
    ensures Count(ms[..n], c, calm) == |Chosen(ms, c, calm, n)|
  {
    if n == 0 {
      assert Chosen(ms, c, calm, 0) == {};
    } else {
      CountIsSize(ms, c, calm, n - 1);
      CountNext(ms, n - 1, c, calm);
      ChosenNext(ms, c, calm, n - 1);
    }
  }

  /** The members the query asks for: not calm, coming from the named direction and, if there is a
      threshold, with a speed on its right side. */
  function Asked(u: Field, v: Field, direction: real, t: Option<Threshold>, op: string, calm: real, g: Geometry)
    : set<nat>
    requires u.Valid() && v.Valid() && CheckMembers(u, v).None? && (t.Some? ==> !t.value.NaN?)
  {
    set k: nat | k < |u.cells| &&
                 var speed := g.hypot(u.cells[k].x, v.cells[k].x);
                 && speed >= calm
                 && Faces(g.bearing(u.cells[k].x, v.cells[k].x), direction)
                 && (t.Some? ==> SpeedIs(op, speed, t.value))
  }

  lemma MatchedIsAsked(u: Field, v: Field, sector: string, direction: real, t: Option<Threshold>, op: string,
                       calm: real, g: Geometry)
    requires u.Valid() && v.Valid() && CheckMembers(u, v).None? && (t.Some? ==> !t.value.NaN? && Supported(op))
    requires Means(Upper(Strip(sector)), direction) && forall a, b :: 0.0 <= g.bearing(a, b) < 360.0
    ensures SectorIndex(sector).Some?
    ensures MatchedCount(Members(u, v, g), calm, SectorIndex(sector).value, t, op) ==
            Ok(|Asked(u, v, direction, t, op, calm, g)|)
  {
    var ms := Members(u, v, g);
    SectorNamed(sector, direction);
    var i := SectorIndex(sector).value;
    if t.Some? { OperatorNamed(op, 0.0, t.value); }
    var c := if t.None? then Sector(i) else Joint(i, ParseOperator(op).value, t.value);
    CountIsSize(ms, c, calm, |ms|);
    assert ms[..|ms|] == ms;
    forall k: nat | k < |ms|
      ensures Belongs(ms[k], c, calm) <==> k in Asked(u, v, direction, t, op, calm, g)
    {
      NamedSector(sector, direction, g.bearing(u.cells[k].x, v.cells[k].x));
      if t.Some? { OperatorNamed(op, ms[k].speed, t.value); }
    }
    assert Chosen(ms, c, calm, |ms|) == Asked(u, v, direction, t, op, calm, g);
  }

  /** What the probability is: the fraction of the members that are asked for. */
  lemma DirectionalMeaning(u: Field, v: Field, sector: string, direction: real, t: Option<Threshold>, op: string,
                           calm: real, g: Geometry)
    requires u.Valid() && v.Valid() && CheckMembers(u, v).None? && CheckQuery(sector, t).None?
    requires t.Some? ==> Supported(op)
    requires Means(Upper(Strip(sector)), direction) && forall a, b :: 0.0 <= g.bearing(a, b) < 360.0
    ensures t.Some? ==> !t.value.NaN?
    ensures Directional(u, v, sector, t, op, calm, g) ==
            Ok(|Asked(u, v, direction, t, op, calm, g)| as real / |u.cells| as real)
  {
    MatchedIsAsked(u, v, sector, direction, t, op, calm, g);
  }

  lemma NamedOrNot(sector: string)
    ensures SectorIndex(sector).Some? <==> exists d :: Means(Upper(Strip(sector)), d)
  {
    forall d { SectorNamed(sector, d); }
    if SectorIndex(sector).Some? {
      SectorNamed(sector, 45.0 * SectorIndex(sector).value as real);
    }
  }

  /** The errors, in the order they are raised: a name that is no direction, a threshold that is not a
      number or negative, members that are missing, of different or more than one dimension, or not
      finite. */
  lemma DirectionalErrors(u: Field, v: Field, sector: string, t: Option<Threshold>, op: string, calm: real, g: Geometry)
    requires u.Valid() && v.Valid()
    ensures var r := Directional(u, v, sector, t, op, calm, g);
            var named := exists d :: Means(Upper(Strip(sector)), d);
            var threshold := t.None? || t.value.Infinite? || (t.value.Num? && t.value.value >= 0.0);
            var present := u.cells != [] && v.cells != [];
            var alike := u.shape == v.shape && |u.shape| == 1;
            var finite := (forall s <- u.cells :: s.Finite?) && forall s <- v.cells :: s.Finite?;
            && (r == Err(InvalidSector) <==> !named)
            && (r == Err(InvalidThreshold) <==> named && !threshold)
            && (r == Err(EmptyEnsemble) <==> named && threshold && !present)
            && (r == Err(MismatchedShapes) <==> named && threshold && present && !alike)
            && (r == Err(NonFiniteMembers) <==> named && threshold && present && alike && !finite)
  {
    NamedOrNot(sector);
    var r := Directional(u, v, sector, t, op, calm, g);
    if CheckQuery(sector, t).None? && CheckMembers(u, v).None? {
      assert r.Ok? || r.error == UnsupportedOperator;
    }
  }

  /** An operator nobody knows is an error only if there is a member to compare. */
  lemma UnknownOperator(u: Field, v: Field, sector: string, direction: real, t: Option<Threshold>, op: string,
                        calm: real, g: Geometry)
    requires u.Valid() && v.Valid() && CheckMembers(u, v).None? && CheckQuery(sector, t).None?
    requires t.Some? && !Supported(op)
    requires Means(Upper(Strip(sector)), direction) && forall a, b :: 0.0 <= g.bearing(a, b) < 360.0
    ensures Directional(u, v, sector, t, op, calm, g) ==
            if Asked(u, v, direction, None, op, calm, g) == {} then Ok(0.0) else Err(UnsupportedOperator)
  {
    OperatorNamed(op, 0.0, t.value);
    MatchedIsAsked(u, v, sector, direction, None, op, calm, g);
  }
}
