/** The member-coverage threshold of a forecast lead. */
module Coverage {
  /** Python's `round` and NumPy's `rint`: the nearest integer, ties to the even one. */
  function RoundHalfEven(x: real): int {
    var floor := x.Floor;
    var rest := x - floor as real;
    if rest < 0.5 || (rest == 0.5 && floor % 2 == 0) then floor else floor + 1
  }

  /** It is the one integer within half a unit, the even one of two. */
  lemma RoundIsNearest(x: real, n: int)
    ensures -0.5 <= RoundHalfEven(x) as real - x <= 0.5
    ensures RoundHalfEven(x) == n <==>
              -0.5 <= n as real - x <= 0.5 && (n as real - x == 0.5 || x - n as real == 0.5 ==> n % 2 == 0)
  {
    var floor := x.Floor;
    assert floor as real <= x < floor as real + 1.0;
    if -0.5 <= n as real - x <= 0.5 { assert n == floor || n == floor + 1; }
  }

  /** `is_lead_servable` under an active coverage ratio. */
  predicate IsLeadServable(available: int, expected: int, minRatio: real) {
    expected > 0 && available >= 0 && available * 10000 >= expected * RoundHalfEven(minRatio * 10000.0)
  }

  lemma Scaled(available: int, expected: int, n: int)
    ensures available * 10000 >= expected * n <==>
            available as real >= (n as real / 10000.0) * expected as real
  {
    assert (n as real / 10000.0) * expected as real * 10000.0 == n as real * expected as real;
    assert n as real * expected as real == (expected * n) as real;
  }

  /** The ratio in ten-thousandths, to the nearest one; of two the even one. */
  predicate InTenThousandths(minRatio: real, n: int) {
    && -0.5 <= n as real - 10000.0 * minRatio <= 0.5
    && (n as real - 10000.0 * minRatio == 0.5 || 10000.0 * minRatio - n as real == 0.5 ==> n % 2 == 0)
  }

  /** What the threshold is: the ratio taken to the nearest ten-thousandth, and no lead without expected
      members. */
  lemma ThresholdIsRounded(available: int, expected: int, minRatio: real, n: int)
    requires InTenThousandths(minRatio, n)
    ensures IsLeadServable(available, expected, minRatio) <==>
            expected > 0 && available >= 0 && available as real >= (n as real / 10000.0) * expected as real
  {
    RoundIsNearest(minRatio * 10000.0, n);
    Scaled(available, expected, n);
  }

  /** So for a ratio of whole ten-thousandths it is the ratio itself. */
  lemma ThresholdIsRatio(available: int, expected: int, minRatio: real, n: int)
    requires 10000.0 * minRatio == n as real
    ensures IsLeadServable(available, expected, minRatio) <==>
            expected > 0 && available >= 0 && available as real >= minRatio * expected as real
  {
    ThresholdIsRounded(available, expected, minRatio, n);
    assert n as real / 10000.0 == minRatio;
  }

  predicate Meets(available: int, expected: int, ratio: real) {
    available as real >= ratio * expected as real
  }

  lemma MeetsLess(available: int, expected: int, ratio: real, less: real)
    requires expected > 0 && less <= ratio && Meets(available, expected, ratio)
    ensures Meets(available, expected, less)
  {
    assert less * expected as real <= ratio * expected as real;
  }

  lemma MeetsRounded(available: int, expected: int, minRatio: real) returns (k: real)
    requires expected > 0 && available >= 0
    ensures IsLeadServable(available, expected, minRatio) <==> Meets(available, expected, k)
    ensures minRatio - 0.00005 <= k <= minRatio + 0.00005
  {
    var n := RoundHalfEven(minRatio * 10000.0);
    RoundIsNearest(minRatio * 10000.0, n);
    ThresholdIsRounded(available, expected, minRatio, n);
    k := n as real / 10000.0;
  }

  /** For any other ratio it is the ratio up to half a ten-thousandth. */
  lemma ThresholdIsNearRatio(available: int, expected: int, minRatio: real)
    requires expected > 0 && available >= 0
    ensures IsLeadServable(available, expected, minRatio) ==>
              available as real >= (minRatio - 0.00005) * expected as real
    ensures available as real >= (minRatio + 0.00005) * expected as real ==>
              IsLeadServable(available, expected, minRatio)
  {
    var k := MeetsRounded(available, expected, minRatio);
    if Meets(available, expected, k) {
      MeetsLess(available, expected, k, minRatio - 0.00005);
    }
    if Meets(available, expected, minRatio + 0.00005) {
      MeetsLess(available, expected, minRatio + 0.00005, k);
    }
  }

  /** The default ratio on the thirty registered ensemble members: 26 is the least that serves. */
  lemma LeastOfThirty(available: int)
    ensures IsLeadServable(available, 30, 0.85) <==> available >= 26
  {
    ThresholdIsRatio(available, 30, 0.85, 8500);
  }
}
