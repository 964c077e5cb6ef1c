/** The Wilson score interval of an observed proportion, over the reals. */
module Wilson {
  import opened Wrappers

  const Z := 1.959963984540054

  datatype Error = BadProbability | BadSampleSize | BadConfidence

  function Times(x: real, y: real): (r: real)
    ensures x >= 0.0 && y >= 0.0 ==> r >= 0.0
    ensures x > 0.0 && y > 0.0 ==> r > 0.0
  {
    x * y
  }

  predicate IsRoot(s: real, x: real) {
    s >= 0.0 && Times(s, s) == x
  }

  /** `math.sqrt`, of which only its defining property is used. */
  ghost predicate IsSquareRoot(sqrt: real -> real) {
    forall x | x >= 0.0 :: IsRoot(sqrt(x), x)
  }

  /** What the square root is taken of. */
  function Radicand(p: real, n: real): real
    requires n > 0.0
  {
    Times(p, 1.0 - p) / n + Z * Z / (4.0 * Times(n, n))
  }

  function Center(p: real, n: real): real
    requires n > 0.0
  {
    (p + Z * Z / (2.0 * n)) / (1.0 + Z * Z / n)
  }

  function Margin(s: real, n: real): real
    requires n > 0.0
  {
    Z * s / (1.0 + Z * Z / n)
  }

  /** `probability_confidence_interval` for numeric arguments. */
  function Interval(p: real, size: int, confidence: real, sqrt: real -> real): Result<(real, real), Error> {
    if p < 0.0 || 1.0 < p then Err(BadProbability)
    else if size < 1 then Err(BadSampleSize)
    else if confidence != 0.95 then Err(BadConfidence)
    else
      var n := size as real;
      var margin := Margin(sqrt(Radicand(p, n)), n);
      var lower := Center(p, n) - margin;
      var upper := Center(p, n) + margin;
      Ok((if lower > 0.0 then lower else 0.0, if upper < 1.0 then upper else 1.0))
  }

  /** When an interval is refused, in this order: no proportion, no sample, any level but 95%. */
  lemma IntervalRefused(p: real, size: int, confidence: real, sqrt: real -> real)
    ensures var r := Interval(p, size, confidence, sqrt);
            && (r == Err(BadProbability) <==> !(0.0 <= p <= 1.0))
            && (r == Err(BadSampleSize) <==> 0.0 <= p <= 1.0 && size <= 0)
            && (r == Err(BadConfidence) <==> 0.0 <= p <= 1.0 && size > 0 && confidence != 0.95)
  {
  }

  // ---------------------------------------------------------------- what the interval contains

  lemma SquareOrder(x: real, y: real)
    requires y >= 0.0 && x * x <= y * y
    ensures x <= y
  {
    assert x > y ==> x * (x - y) > 0.0 && y * (x - y) >= 0.0;
    assert x * x - y * y == x * (x - y) + y * (x - y);
  }

  lemma Nonnegative(x: real, y: real)
    requires x >= 0.0 && y >= 0.0
    ensures x * y >= 0.0
  {
  }

  /** `b = Z*s` in terms of `w = Z*Z/n`. */
  predicate IsScaledRoot(b: real, p: real, w: real) {
    Times(b, b) == Times(w, Times(p, 1.0 - p)) + Times(w, w) / 4.0
  }

  /** How the interval scaled by `1 + w` lies in the unit interval. */
  lemma BelowTop(p: real, w: real, b: real)
    requires 0.0 <= p <= 1.0 && w > 0.0 && b >= 0.0 && IsScaledRoot(b, p, w)
    ensures b <= p + w / 2.0
  {
    var a := p + w / 2.0;
    assert a * a == p * p + p * w + w * w / 4.0;
    assert w * (p * (1.0 - p)) == w * p - w * (p * p);
    Nonnegative(p, p);
    Nonnegative(w, p * p);
    SquareOrder(b, a);
  }

  lemma Offset(p: real, w: real, b: real, e: real)
    requires 0.0 <= p <= 1.0 && w > 0.0 && b >= 0.0 && IsScaledRoot(b, p, w)
    requires e == w * (0.5 - p) || e == w * (p - 0.5)
    ensures e <= b
  {
    var v := p * (1.0 - p);
    var h := 0.5 - p;
    Nonnegative(p, 1.0 - p);
    Nonnegative(w, v);
    Nonnegative(w * w, v);
    assert h * h == 0.25 - v;
    assert e == w * h || e == -(w * h);
    assert e * e == (w * h) * (w * h);
    assert (w * h) * (w * h) == (w * w) * (h * h);
    assert (w * w) * (0.25 - v) == w * w / 4.0 - w * w * v;
    SquareOrder(e, b);
  }

  lemma Positive(p: real, w: real, b: real)
    requires 0.0 <= p <= 1.0 && w > 0.0 && b >= 0.0 && IsScaledRoot(b, p, w)
    ensures b > 0.0
  {
    assert Times(b, b) > 0.0;
    assert Times(0.0, 0.0) == 0.0;
  }

  lemma ScaledBounds(p: real, w: real, b: real)
    requires 0.0 <= p <= 1.0 && w > 0.0 && b >= 0.0 && IsScaledRoot(b, p, w)
    ensures 0.0 <= p + w / 2.0 - b <= p * (1.0 + w) <= p + w / 2.0 + b <= 1.0 + w
  {
    BelowTop(p, w, b);
    assert (1.0 - p) * (1.0 - (1.0 - p)) == p * (1.0 - p);
    BelowTop(1.0 - p, w, b);
    Offset(p, w, b, w * (0.5 - p));
    Offset(p, w, b, w * (p - 0.5));
    assert p * (1.0 + w) == p + w / 2.0 - w * (0.5 - p);
    assert w * (p - 0.5) == -(w * (0.5 - p));
  }

  lemma DivideBounds(x: real, y: real, d: real)
    requires d > 0.0
    ensures x <= y ==> x / d <= y / d
    ensures x < y ==> x / d < y / d
  {
    assert (x / d) * d == x && (y / d) * d == y;
    if x / d > y / d { assert (x / d - y / d) * d > 0.0; }
    if x / d == y / d { assert x == y; }
  }

  lemma RadicandIsScaled(p: real, n: real, s: real)
    requires n > 0.0 && Times(s, s) == Radicand(p, n)
    ensures IsScaledRoot(Z * s, p, Z * Z / n)
  {
    var zz := Z * Z;
    var i := 1.0 / n;
    assert zz / n == zz * i;
    assert p * (1.0 - p) / n == p * (1.0 - p) * i;
    assert i * n == 1.0;
    assert i * i * (4.0 * n * n) == 4.0;
    assert zz / (4.0 * n * n) == zz * (i * i) / 4.0;
    assert (Z * s) * (Z * s) == zz * (s * s);
  }

  lemma RootBounds(p: real, n: real, s: real)
    requires 0.0 <= p <= 1.0 && n > 0.0 && IsRoot(s, Radicand(p, n))
    ensures 0.0 <= Center(p, n) - Margin(s, n) <= p <= Center(p, n) + Margin(s, n) <= 1.0 && Margin(s, n) > 0.0
  {
    RadicandIsScaled(p, n, s);
    var w, b := Z * Z / n, Z * s;
    assert w > 0.0 && b >= 0.0;
    ScaledBounds(p, w, b);
    Positive(p, w, b);
    UnscaledBounds(p, w, b);
    HalfWidth(n);
  }

  lemma HalfWidth(n: real)
    requires n > 0.0
    ensures Z * Z / (2.0 * n) == Z * Z / n / 2.0
  {
  }

  /** For every proportion and sample size the clamps never bind: the interval lies in the unit
      interval, holds the proportion, and has positive width even at 0 and 1. */
  lemma IntervalHoldsProportion(p: real, size: int, sqrt: real -> real)
    requires 0.0 <= p <= 1.0 && size >= 1 && IsSquareRoot(sqrt)
    ensures var n := size as real; var m := Margin(sqrt(Radicand(p, n)), n);
            && Interval(p, size, 0.95, sqrt) == Ok((Center(p, n) - m, Center(p, n) + m))
            && 0.0 <= Center(p, n) - m <= p <= Center(p, n) + m <= 1.0
            && m > 0.0
  {
    var n := size as real;
    RadicandPositive(p, n);
    RootBounds(p, n, sqrt(Radicand(p, n)));
  }

  /** The square root as a caller knows it. */
  lemma SquareRootMeaning(sqrt: real -> real)
    ensures IsSquareRoot(sqrt) <==> forall x | x >= 0.0 :: sqrt(x) >= 0.0 && sqrt(x) * sqrt(x) == x
  {
    forall x | x >= 0.0 ensures IsRoot(sqrt(x), x) <==> sqrt(x) >= 0.0 && sqrt(x) * sqrt(x) == x {
    }
  }

  lemma RadicandPositive(p: real, n: real)
    requires 0.0 <= p <= 1.0 && n > 0.0
    ensures Radicand(p, n) >= 0.0
  {
    DivideBounds(0.0, Times(p, 1.0 - p), n);
    DivideBounds(0.0, Z * Z, 4.0 * Times(n, n));
  }

  lemma UnscaledBounds(p: real, w: real, b: real)
    requires w > 0.0 && b > 0.0
    requires 0.0 <= p + w / 2.0 - b <= p * (1.0 + w) <= p + w / 2.0 + b <= 1.0 + w
    ensures var d := 1.0 + w; var c := (p + w / 2.0) / d; var m := b / d;
            0.0 <= c - m <= p <= c + m <= 1.0 && m > 0.0
  {
    var d := 1.0 + w;
    var a := p + w / 2.0;
    Quotients(a, b, d);
    ProductOver(p, d);
    ProductOver(1.0, d);
    OrderedQuotients(a - b, p * d, a + b, d);
    DivideBounds(0.0, b, d);
  }

  lemma OrderedQuotients(x: real, y: real, z: real, d: real)
    requires 0.0 <= x <= y <= z <= d && d > 0.0
    ensures 0.0 <= x / d <= y / d <= z / d <= 1.0
  {
    DivideBounds(0.0, x, d);
    DivideBounds(x, y, d);
    DivideBounds(y, z, d);
    DivideBounds(z, d, d);
  }

  lemma Quotients(a: real, b: real, d: real)
    requires d > 0.0
    ensures (a - b) / d == a / d - b / d && (a + b) / d == a / d + b / d
  {
  }

  lemma ProductOver(p: real, d: real)
    requires d > 0.0
    ensures p * d / d == p
  {
  }

  // ---------------------------------------------------------------- the score equation

  /** Squares of numbers that are not both negative agree exactly for equal or opposite numbers. */
  lemma EqualSquares(y: real, b: real)
    ensures y * y == b * b <==> y == b || y == -b
  {
    assert y * y - b * b == (y - b) * (y + b);
    if y != b && y != -b { NonzeroProduct(y - b, y + b); }
  }

  lemma NonzeroProduct(a: real, b: real)
    requires a != 0.0 && b != 0.0
    ensures a * b != 0.0
  {
  }

  lemma ZeroFactor(d: real, f: real)
    requires d > 0.0
    ensures d * f == 0.0 <==> f == 0.0
  {
    if f != 0.0 { NonzeroProduct(d, f); }
  }

  lemma IsQuotient(x: real, a: real, d: real)
    requires d > 0.0
    ensures Times(x, d) == a <==> x == a / d
  {
    var q := a / d;
    assert q * d == a;
    assert (x - q) * d == x * d - a;
    if x != q { NonzeroProduct(x - q, d); }
  }

  lemma SquareVanishes(f: real, d: real, y: real, a: real, b: real)
    requires d > 0.0 && Times(y - a, y - a) - Times(b, b) == Times(d, f)
    ensures f == 0.0 <==> y == a + b || y == a - b
  {
    ZeroFactor(d, f);
    EqualSquares(y - a, b);
  }

  /** The difference of the two sides of the equation, per member. */
  function Gap(p: real, w: real, x: real): real {
    (p - x) * (p - x) - w * (x * (1.0 - x))
  }

  lemma SquareOfDifference(y: real, a: real)
    ensures Times(y - a, y - a) == Times(y, y) - 2.0 * Times(a, y) + Times(a, a)
  {
  }

  lemma Discriminant(p: real, w: real, b: real, d: real, a: real)
    requires IsScaledRoot(b, p, w) && d == 1.0 + w && a == p + w / 2.0
    ensures Times(a, a) - Times(b, b) == Times(Times(p, p), d)
  {
  }

  /** `d x^2 - 2 a x + p^2` */
  function Quadratic(d: real, a: real, p: real, x: real): real {
    x * x * d - 2.0 * a * x + p * p
  }

  lemma GapIsQuadratic(p: real, w: real, x: real)
    ensures Gap(p, w, x) == Quadratic(1.0 + w, p + w / 2.0, p, x)
  {
  }

  lemma TimesQuadratic(d: real, a: real, p: real, x: real)
    ensures Times(d, Quadratic(d, a, p, x)) ==
            Times(Times(x, d), Times(x, d)) - 2.0 * Times(a, Times(x, d)) + Times(Times(p, p), d)
  {
    Distribute(d, x * x * d, 2.0 * a * x, p * p);
    SquareTerm(x, d);
    MiddleTerm(a, x, d);
  }

  lemma Distribute(d: real, u: real, v: real, w: real)
    ensures Times(d, u - v + w) == Times(d, u) - Times(d, v) + Times(w, d)
  {
  }

  lemma SquareTerm(x: real, d: real)
    ensures Times(d, x * x * d) == Times(Times(x, d), Times(x, d))
  {
  }

  lemma MiddleTerm(a: real, x: real, d: real)
    ensures Times(d, 2.0 * a * x) == 2.0 * Times(a, Times(x, d))
  {
  }

  /** Completing the square. */
  lemma CompletedGap(p: real, w: real, b: real, x: real, d: real, a: real, y: real)
    requires IsScaledRoot(b, p, w) && d == 1.0 + w && a == p + w / 2.0 && y == Times(x, d)
    ensures Times(y - a, y - a) - Times(b, b) == Times(d, Gap(p, w, x))
  {
    SquareOfDifference(y, a);
    Discriminant(p, w, b, d, a);
    GapIsQuadratic(p, w, x);
    TimesQuadratic(d, a, p, x);
  }

  lemma ScaledEquation(p: real, w: real, b: real, x: real)
    requires w > 0.0 && IsScaledRoot(b, p, w)
    ensures var d := 1.0 + w; var a := p + w / 2.0;
            Gap(p, w, x) == 0.0 <==> x == a / d + b / d || x == a / d - b / d
  {
    var d, a := 1.0 + w, p + w / 2.0;
    CompletedGap(p, w, b, x, d, a, Times(x, d));
    SquareVanishes(Gap(p, w, x), d, Times(x, d), a, b);
    IsQuotient(x, a + b, d);
    IsQuotient(x, a - b, d);
    Quotients(a, b, d);
  }

  lemma OverSize(p: real, x: real, zz: real, n: real)
    requires n > 0.0
    ensures Times(n, Times(p - x, p - x)) == Times(zz, Times(x, 1.0 - x)) <==> Gap(p, zz / n, x) == 0.0
  {
    SameOverSize(Times(p - x, p - x), Times(x, 1.0 - x), zz, n);
  }

  lemma SameOverSize(left: real, right: real, zz: real, n: real)
    requires n > 0.0
    ensures n * left == zz * right <==> left - (zz / n) * right == 0.0
  {
    var w := zz / n;
    assert w * n == zz;
    assert n * (w * right) == (n * w) * right;
    ZeroFactor(n, left - w * right);
  }

  lemma EndsOfRoot(p: real, n: real, s: real, x: real)
    requires n > 0.0 && Times(s, s) == Radicand(p, n)
    ensures Times(n, Times(p - x, p - x)) == Times(Times(Z, Z), Times(x, 1.0 - x)) <==>
            x == Center(p, n) - Margin(s, n) || x == Center(p, n) + Margin(s, n)
  {
    RadicandIsScaled(p, n, s);
    HalfWidth(n);
    EndsOfScaled(p, Z * Z / n, Z * s, x, n, s);
    OverSize(p, x, Z * Z, n);
  }

  lemma EndsOfScaled(p: real, w: real, b: real, x: real, n: real, s: real)
    requires n > 0.0 && w == Z * Z / n && b == Z * s && IsScaledRoot(b, p, w) && Z * Z / (2.0 * n) == w / 2.0
    ensures Gap(p, w, x) == 0.0 <==> x == Center(p, n) - Margin(s, n) || x == Center(p, n) + Margin(s, n)
  {
    assert w > 0.0;
    ScaledEquation(p, w, b, x);
  }

  /** What the interval is: its ends are the two proportions whose distance from the observed one is 1.96
      standard errors of their own. */
  lemma EndsSolveScoreEquation(p: real, size: int, sqrt: real -> real, x: real)
    requires 0.0 <= p <= 1.0 && size >= 1
    requires forall x | x >= 0.0 :: sqrt(x) >= 0.0 && sqrt(x) * sqrt(x) == x
    ensures Interval(p, size, 0.95, sqrt).Ok?
    ensures var (lower, upper) := Interval(p, size, 0.95, sqrt).value; var z := 1.959963984540054;
            Times(size as real, Times(p - x, p - x)) == Times(Times(z, z), Times(x, 1.0 - x))
            <==> x == lower || x == upper
  {
    SquareRootMeaning(sqrt);
    IntervalHoldsProportion(p, size, sqrt);
    RadicandPositive(p, size as real);
    EndsOfRoot(p, size as real, sqrt(Radicand(p, size as real)), x);
  }
}
