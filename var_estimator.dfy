/**
 Parametric (variance-covariance) Value-at-Risk of a close-price series:
 the mean daily simple return plus `z` sample standard deviations, where `z`
 is the standard normal quantile of the confidence level. The quantile and
 the square root are not computed here: `z` is a parameter, and `std` is any
 value that `IsSampleStd` accepts (there is exactly one, see
 `Statistics.SampleStdUnique`).
 */
module VarEstimator {
  import opened RealArith
  import opened Statistics

  /** What the estimate needs: at least three positive closes, so that there
      are at least two returns and the sample variance is defined, and `std`
      the sample standard deviation of those returns. */
  predicate ValidInput(closes: seq<real>, std: real) {
    |closes| >= 3 && AllPositive(closes) && IsSampleStd(PctChange(closes), std)
  }

  /** Mean daily return of the closes (`returns.mean()`): taken once for
      each of the `|closes| - 1` returns it adds up to their sum. Its sign
      follows the direction of the closes (`Statistics.MeanReturnSign`). */
  function MeanReturn(closes: seq<real>): (m: real)
    requires |closes| >= 3 && AllPositive(closes)
    ensures m * (|closes| - 1) as real == Sum(PctChange(closes))
  {
    Mean(PctChange(closes))
  }

  /** `calculate_parametric_var`: the VaR fraction. It lies `z` standard
      deviations away from the mean return: above it for a non-negative `z`,
      below it for a negative one. */
  function ParametricVar(closes: seq<real>, z: real, std: real): (v: real)
    requires ValidInput(closes, std)
    ensures z >= 0.0 ==> MeanReturn(closes) <= v
    ensures z <= 0.0 ==> v <= MeanReturn(closes)
    ensures v - MeanReturn(closes) == z * std
  {
    MulSign(z, std);
    MeanReturn(closes) + z * std
  }

  /** The estimate equals the mean return exactly when `z` is zero (a
      confidence level of one half) or the returns have no spread. */
  lemma VarEqualsMeanIff(closes: seq<real>, z: real, std: real)
    requires ValidInput(closes, std)
    ensures ParametricVar(closes, z, std) == MeanReturn(closes)
        <==> z == 0.0 || SampleVariance(PctChange(closes)) == 0.0
  {
    MulSign(z, std);
    SampleStdZeroIff(PctChange(closes), std);
  }

  /** A flat price path carries no risk: the estimate is zero at every
      confidence level. */
  lemma ConstantClosesZeroVar(closes: seq<real>, c: real, z: real, std: real)
    requires |closes| >= 3 && c > 0.0 && AllEqualTo(closes, c)
    requires IsSampleStd(PctChange(closes), std)
    ensures ValidInput(closes, std)
    ensures MeanReturn(closes) == 0.0
    ensures SampleVariance(PctChange(closes)) == 0.0
    ensures ParametricVar(closes, z, std) == 0.0
  {
    ConstantPricesZeroReturns(closes, c);
    var rets := PctChange(closes);
    ConstantSeriesStatistics(rets, 0.0);
    SampleStdZeroIff(rets, std);
  }

  /** The estimate is a function of the closes and `z` alone: every value
      `IsSampleStd` accepts gives the same result. */
  lemma VarDeterminedByCloses(closes: seq<real>, z: real, std1: real, std2: real)
    requires ValidInput(closes, std1) && ValidInput(closes, std2)
    ensures ParametricVar(closes, z, std1) == ParametricVar(closes, z, std2)
  {
    SampleStdUnique(PctChange(closes), std1, std2);
  }

  /** A higher confidence level has a larger quantile `z`, and so a larger
      (or equal) estimate. */
  lemma VarMonotoneInZ(closes: seq<real>, z1: real, z2: real, std: real)
    requires ValidInput(closes, std)
    requires z1 <= z2
    ensures ParametricVar(closes, z1, std) <= ParametricVar(closes, z2, std)
  {
    var m := MeanReturn(closes);
    var v1 := ParametricVar(closes, z1, std);
    var v2 := ParametricVar(closes, z2, std);
    assert v1 == m + z1 * std && v2 == m + z2 * std && std >= 0.0;
    MulSign(z2 - z1, std);
    assert (z2 - z1) * std == z2 * std - z1 * std;
  }
}
