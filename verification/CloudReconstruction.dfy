/** Recovering the mean of the last hours from two running averages, and the guardrails around it. */
module CloudReconstruction {
  import opened Wrappers
  import opened Arrays

  datatype Error = NonPositiveHours | WidthExceedsPeriod

  // ---------------------------------------------------------------- guardrails

  /** `_apply_reconstruction_guardrails_scalar` */
  function Guard(x: Sample, tolerance: real): Sample {
    if x.NonFinite? then NonFinite
    else if 0.0 <= x.x <= 100.0 then x
    else if -tolerance <= x.x < 0.0 then Finite(0.0)
    else if 100.0 < x.x <= 100.0 + tolerance then Finite(100.0)
    else NonFinite
  }

  /** A value within the tolerance of some percentage is brought between itself and every percentage, so
      to the nearest one; any other is void. */
  lemma GuardProjects(x: real, tolerance: real, truth: real)
    requires tolerance >= 0.0 && 0.0 <= truth <= 100.0
    ensures Guard(Finite(x), tolerance).Finite? <==> -tolerance <= x <= 100.0 + tolerance
    ensures Guard(Finite(x), tolerance).Finite? ==>
              var y := Guard(Finite(x), tolerance).x;
              0.0 <= y <= 100.0 && (x <= y <= truth || truth <= y <= x)
    ensures -tolerance <= x - truth <= tolerance ==> Guard(Finite(x), tolerance).Finite?
  {
  }

  /** `result[valid_mask] = x[valid_mask]` */
  method KeepValid(x: array<Sample>, result: array<Sample>)
    requires result.Length == x.Length && result != x
    modifies result
    ensures forall k | 0 <= k < x.Length ::
              result[k] == if x[k].Finite? && 0.0 <= x[k].x <= 100.0 then x[k] else old(result[k])
  {
    for k := 0 to x.Length
      invariant forall j | 0 <= j < k ::
                  result[j] == if x[j].Finite? && 0.0 <= x[j].x <= 100.0 then x[j] else old(result[j])
      invariant forall j | k <= j < x.Length :: result[j] == old(result[j])
    {
      if x[k].Finite? && 0.0 <= x[k].x <= 100.0 { result[k] := x[k]; }
    }
  }

  /** `result[undershoot_mask] = 0.0` */
  method RaiseToZero(x: array<Sample>, tolerance: real, result: array<Sample>)
    requires result.Length == x.Length && result != x
    modifies result
    ensures forall k | 0 <= k < x.Length ::
              result[k] == if x[k].Finite? && -tolerance <= x[k].x < 0.0 then Finite(0.0) else old(result[k])
  {
    for k := 0 to x.Length
      invariant forall j | 0 <= j < k ::
                  result[j] == if x[j].Finite? && -tolerance <= x[j].x < 0.0 then Finite(0.0) else old(result[j])
      invariant forall j | k <= j < x.Length :: result[j] == old(result[j])
    {
      if x[k].Finite? && -tolerance <= x[k].x < 0.0 { result[k] := Finite(0.0); }
    }
  }

  /** `result[overshoot_mask] = 100.0` */
  method LowerToHundred(x: array<Sample>, tolerance: real, result: array<Sample>)
    requires result.Length == x.Length && result != x
    modifies result
    ensures forall k | 0 <= k < x.Length ::
              result[k] == if x[k].Finite? && 100.0 < x[k].x <= 100.0 + tolerance then Finite(100.0)
                           else old(result[k])
  {
    for k := 0 to x.Length
      invariant forall j | 0 <= j < k ::
                  result[j] == if x[j].Finite? && 100.0 < x[j].x <= 100.0 + tolerance then Finite(100.0)
                               else old(result[j])
      invariant forall j | k <= j < x.Length :: result[j] == old(result[j])
    {
      if x[k].Finite? && 100.0 < x[k].x <= 100.0 + tolerance { result[k] := Finite(100.0); }
    }
  }

  /** The array form: a void result, then three masked writes. */
  method GuardArray(x: array<Sample>, tolerance: real) returns (result: array<Sample>)
    ensures fresh(result) && result.Length == x.Length
    ensures forall k | 0 <= k < x.Length :: result[k] == Guard(x[k], tolerance)
  {
    result := new Sample[x.Length](k => NonFinite);
    KeepValid(x, result);
    RaiseToZero(x, tolerance, result);
    LowerToHundred(x, tolerance, result);
  }

  // ---------------------------------------------------------------- reconstruction

  function Estimate(current: real, previous: real, r: int, w: int): real
    requires w > 0
  {
    (r as real * current - (r - w) as real * previous) / w as real
  }

  function CheckHours(r: int, w: int): Option<Error> {
    if r <= 0 || w <= 0 then Some(NonPositiveHours)
    else if w > r then Some(WidthExceedsPeriod)
    else None
  }

  function Unguarded(current: Sample, previous: Sample, r: int, w: int): Sample
    requires w > 0
  {
    if w == r then current
    else if current.NonFinite? || previous.NonFinite? then NonFinite
    else Finite(Estimate(current.x, previous.x, r, w))
  }

  /** `reconstruct_running_average_interval` of two numbers */
  function Reconstruct(current: Sample, previous: Sample, r: int, w: int, tolerance: real): Result<Sample, Error> {
    match CheckHours(r, w)
    case Some(e) => Err(e)
    case None => Ok(Guard(Unguarded(current, previous, r, w), tolerance))
  }

  /** `reconstruct_running_average_interval` of two arrays of one shape */
  method ReconstructArray(current: array<Sample>, previous: array<Sample>, r: int, w: int, tolerance: real)
    returns (result: Result<array<Sample>, Error>)
    requires current.Length == previous.Length
    ensures CheckHours(r, w).Some? ==> result == Err(CheckHours(r, w).value)
    ensures CheckHours(r, w).None? ==>
              && result.Ok? && fresh(result.value) && result.value.Length == current.Length
              && forall k | 0 <= k < current.Length ::
                   Reconstruct(current[k], previous[k], r, w, tolerance) == Ok(result.value[k])
  {
    var bad := CheckHours(r, w);
    if bad.Some? { return Err(bad.value); }
    var x := new Sample[current.Length](k reads current, previous requires 0 <= k < current.Length == previous.Length =>
      Unguarded(current[k], previous[k], r, w));
    var guarded := GuardArray(x, tolerance);
    result := Ok(guarded);
  }

  /** When hours are refused: either count not positive, else a width beyond the period. */
  lemma HoursRefused(current: Sample, previous: Sample, r: int, w: int, tolerance: real)
    ensures Reconstruct(current, previous, r, w, tolerance) == Err(NonPositiveHours) <==> r <= 0 || w <= 0
    ensures Reconstruct(current, previous, r, w, tolerance) == Err(WidthExceedsPeriod) <==> 0 < r < w
    ensures Reconstruct(current, previous, r, w, tolerance).Ok? <==> 0 < w <= r
  {
  }

  // ---------------------------------------------------------------- what it recovers

  function Sum(s: seq<real>): real {
    if s == [] then 0.0 else Sum(s[..|s| - 1]) + s[|s| - 1]
  }

  function Mean(s: seq<real>): real
    requires s != []
  {
    Sum(s) / |s| as real
  }

  predicate Percentages(s: seq<real>) {
    forall k | 0 <= k < |s| :: 0.0 <= s[k] <= 100.0
  }

  lemma {:induction false} SumSplits(s: seq<real>, k: nat)
    requires k <= |s|
    ensures Sum(s) == Sum(s[..k]) + Sum(s[k..])
  {
    if k == |s| {
      assert s[..k] == s;
    } else {
      var n := |s| - 1;
      SumSplits(s[..n], k);
      assert s[..n][..k] == s[..k];
      assert s[k..][..n - k] == s[..n][k..];
    }
  }

  lemma {:induction false} SumOfPercentages(s: seq<real>)
    requires Percentages(s)
    ensures 0.0 <= Sum(s) <= 100.0 * |s| as real
  {
    if s == [] {
    } else {
      SumOfPercentages(s[..|s| - 1]);
    }
  }

  lemma MeanTimes(s: seq<real>)
    requires s != []
    ensures Mean(s) * |s| as real == Sum(s)
  {
  }

  lemma Quotient(a: real, b: real, n: real)
    requires n > 0.0
    ensures a == b * n ==> a / n == b
    ensures a / n * n == a
  {
  }

  lemma Bounded(a: real, b: real, n: real)
    requires n > 0.0 && a * n <= b * n
    ensures a <= b
  {
  }

  lemma MeanOfPercentages(s: seq<real>)
    requires s != [] && Percentages(s)
    ensures 0.0 <= Mean(s) <= 100.0
  {
    SumOfPercentages(s);
    MeanTimes(s);
    Bounded(0.0, Mean(s), |s| as real);
    Bounded(Mean(s), 100.0, |s| as real);
  }

  /** The mean of the last `w` of the `r` hourly values, from the exact running averages. */
  lemma EstimateIsExact(hours: seq<real>, w: int)
    requires 0 < w < |hours|
    ensures Estimate(Mean(hours), Mean(hours[..|hours| - w]), |hours|, w) == Mean(hours[|hours| - w..])
  {
    var r := |hours|;
    var first, last := hours[..r - w], hours[r - w..];
    SumSplits(hours, r - w);
    MeanTimes(hours);
    MeanTimes(first);
    MeanTimes(last);
    Quotient(r as real * Mean(hours) - (r - w) as real * Mean(first), Mean(last), w as real);
  }

  function ErrorBound(e: real, r: int, w: int): real
    requires w > 0
  {
    (2 * r - w) as real * e / w as real
  }

  lemma EstimateError(c: real, p: real, d: real, q: real, e: real, r: int, w: int)
    requires 0 < w <= r
    requires -e <= c - d <= e && -e <= p - q <= e
    ensures -ErrorBound(e, r, w) <= Estimate(c, p, r, w) - Estimate(d, q, r, w) <= ErrorBound(e, r, w)
  {
    EstimateTimes(c, p, r, w);
    EstimateTimes(d, q, r, w);
    BoundTimes(e, r, w);
    QuotientError(Estimate(c, p, r, w), Estimate(d, q, r, w), ErrorBound(e, r, w), c, p, d, q, e,
                  r as real, (r - w) as real, w as real);
  }

  lemma EstimateTimes(c: real, p: real, r: int, w: int)
    requires w > 0
    ensures Estimate(c, p, r, w) * w as real == r as real * c - (r - w) as real * p
  {
    Quotient(r as real * c - (r - w) as real * p, 0.0, w as real);
  }

  lemma BoundTimes(e: real, r: int, w: int)
    requires w > 0
    ensures ErrorBound(e, r, w) * w as real == r as real * e + (r - w) as real * e
  {
    Quotient((2 * r - w) as real * e, 0.0, w as real);
    assert (2 * r - w) as real == r as real + (r - w) as real;
  }

  lemma QuotientError(x: real, y: real, b: real, c: real, p: real, d: real, q: real, e: real, a: real, k: real, n: real)
    requires a >= 0.0 && k >= 0.0 && n > 0.0 && -e <= c - d <= e && -e <= p - q <= e
    requires x * n == a * c - k * p && y * n == a * d - k * q && b * n == a * e + k * e
    ensures -b <= x - y <= b
  {
    WeightedDifference(c, p, d, q, e, a, k);
    ScaledDown(x, y, b, n);
  }

  lemma ScaledDown(x: real, y: real, b: real, n: real)
    requires n > 0.0 && -(b * n) <= x * n - y * n <= b * n
    ensures -b <= x - y <= b
  {
    assert (x - y) * n == x * n - y * n && (-b) * n == -(b * n);
    Bounded(x - y, b, n);
    Bounded(-b, x - y, n);
  }

  lemma WeightedDifference(c: real, p: real, d: real, q: real, e: real, a: real, k: real)
    requires a >= 0.0 && k >= 0.0 && -e <= c - d <= e && -e <= p - q <= e
    ensures -(a * e + k * e) <= (a * c - k * p) - (a * d - k * q) <= a * e + k * e
  {
    WeightedError(c - d, e, a);
    WeightedError(p - q, e, k);
    assert a * (c - d) == a * c - a * d && k * (p - q) == k * p - k * q;
  }

  lemma WeightedError(d: real, e: real, weight: real)
    requires -e <= d <= e && weight >= 0.0
    ensures -(weight * e) <= weight * d <= weight * e
  {
  }

  /** Running averages known within `e` give a percentage within `(2r - w) e / w` of the true mean of the
      last `w` hours, and never void, as long as that bound is within the tolerance. */
  lemma RecoversTheMean(hours: seq<real>, w: int, current: real, previous: real, e: real, tolerance: real)
    requires 0 < w <= |hours| && forall k | 0 <= k < |hours| :: 0.0 <= hours[k] <= 100.0
    requires -e <= current - Mean(hours) <= e
    requires w < |hours| ==> -e <= previous - Mean(hours[..|hours| - w]) <= e
    requires ErrorBound(e, |hours|, w) <= tolerance
    ensures var truth := Mean(hours[|hours| - w..]);
            var b := ErrorBound(e, |hours|, w);
            var back := Reconstruct(Finite(current), Finite(previous), |hours|, w, tolerance);
            && 0.0 <= truth <= 100.0
            && back.Ok? && back.value.Finite? && 0.0 <= back.value.x <= 100.0
            && -b <= back.value.x - truth <= b
  {
    var r := |hours|;
    var truth := Mean(hours[r - w..]);
    MeanOfPercentages(hours[r - w..]);
    if w == r {
      assert hours[0..] == hours;
      FullWidthBound(e, r);
      GuardProjects(current, tolerance, truth);
    } else {
      EstimateIsExact(hours, w);
      EstimateError(current, previous, Mean(hours), Mean(hours[..r - w]), e, r, w);
      GuardProjects(Estimate(current, previous, r, w), tolerance, truth);
    }
  }

  lemma FullWidthBound(e: real, r: int)
    requires r > 0
    ensures ErrorBound(e, r, r) == e
  {
    Quotient((2 * r - r) as real * e, e, r as real);
  }

  /** Exact averages give the exact mean. */
  lemma RecoversExactly(hours: seq<real>, w: int, previous: real, tolerance: real)
    requires 0 < w <= |hours| && tolerance >= 0.0 && forall k | 0 <= k < |hours| :: 0.0 <= hours[k] <= 100.0
    requires w < |hours| ==> previous == Mean(hours[..|hours| - w])
    ensures Reconstruct(Finite(Mean(hours)), Finite(previous), |hours|, w, tolerance)
            == Ok(Finite(Mean(hours[|hours| - w..])))
  {
    Quotient((2 * |hours| - w) as real * 0.0, 0.0, w as real);
    RecoversTheMean(hours, w, Mean(hours), previous, 0.0, tolerance);
  }

  /** The condition is tight: past it, averages of a clear sky within `e` of the truth can be void. */
  lemma ToleranceIsTight(r: int, w: int, e: real, tolerance: real)
    requires 0 < w <= r && tolerance >= 0.0 && ErrorBound(e, r, w) > tolerance
    ensures Reconstruct(Finite(-e), Finite(e), r, w, tolerance) == Ok(NonFinite)
  {
    if w == r { FullWidthBound(e, r); } else { OppositeErrors(e, r, w); }
  }

  lemma OppositeErrors(e: real, r: int, w: int)
    requires w > 0
    ensures Estimate(-e, e, r, w) == -ErrorBound(e, r, w)
  {
    EstimateTimes(-e, e, r, w);
    BoundTimes(e, r, w);
    Quotient(Estimate(-e, e, r, w) * w as real, -ErrorBound(e, r, w), w as real);
  }
}
