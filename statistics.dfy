/**
 The series statistics the risk calculation relies on, computed exactly over
 the reals: simple percentage change between consecutive closes (what
 `Series.pct_change().dropna()` yields on a series without missing values),
 the arithmetic mean, and the sample variance with one delta degree of
 freedom (the default of `Series.std()`).
 */
module Statistics {
  import opened RealArith

  /** Every close is strictly positive: what the price feed is assumed to deliver. */
  predicate AllPositive(prices: seq<real>) {
    forall i :: 0 <= i < |prices| ==> prices[i] > 0.0
  }

  /** Every element equals `c`. */
  predicate AllEqualTo(s: seq<real>, c: real) {
    forall i :: 0 <= i < |s| ==> s[i] == c
  }

  /** The simple return between each pair of consecutive closes. The first
      close has no predecessor; its missing value is the one `dropna` removes. */
  function PctChange(prices: seq<real>): (r: seq<real>)
    requires AllPositive(prices)
    ensures |r| == if |prices| == 0 then 0 else |prices| - 1
    ensures forall i :: 0 <= i < |r| ==> r[i] == (prices[i + 1] - prices[i]) / prices[i]
    decreases |prices|
  {
    if |prices| < 2 then []
    else [(prices[1] - prices[0]) / prices[0]] + PctChange(prices[1..])
  }

  /** A close grown by the simple return `r`. */
  function Grow(p: real, r: real): real { p * (1.0 + r) }

  /** Rebuilds a price path from its first close and its simple returns:
      each close is the previous one grown by its return. */
  function Compound(start: real, rets: seq<real>): (p: seq<real>)
    ensures |p| == |rets| + 1 && p[0] == start
    decreases |rets|
  {
    if rets == [] then [start]
    else [start] + Compound(Grow(start, rets[0]), rets[1..])
  }

  lemma GrowByReturn(p: real, q: real)
    requires p > 0.0
    ensures Grow(p, (q - p) / p) == q
  {
    calc {
      p * (1.0 + (q - p) / p);
      p + p * ((q - p) / p);
      p + (q - p);
    }
  }

  lemma ReturnOfGrowth(p: real, r: real)
    requires p > 0.0
    ensures (Grow(p, r) - p) / p == r
  {
    assert p * (1.0 + r) - p == p * r;
  }

  /** The closes are recovered from the first close and the returns. */
  lemma {:induction false} CompoundPctChange(prices: seq<real>)
    requires |prices| >= 1 && AllPositive(prices)
    ensures Compound(prices[0], PctChange(prices)) == prices
    decreases |prices|
  {
    if |prices| >= 2 {
      var tail := prices[1..];
      assert AllPositive(tail);
      CompoundPctChange(tail);
      var rs := PctChange(prices);
      assert rs[1..] == PctChange(tail);
      var next := Grow(prices[0], rs[0]);
      assert Compound(prices[0], rs) == [prices[0]] + Compound(next, rs[1..]);
      GrowByReturn(prices[0], prices[1]);
      assert next == prices[1];
      assert prices == [prices[0]] + tail;
    } else {
      assert prices == [prices[0]];
    }
  }

  /** Growing a positive close by returns above -1 keeps every close positive. */
  lemma {:induction false} CompoundPositive(start: real, rets: seq<real>)
    requires start > 0.0
    requires forall i :: 0 <= i < |rets| ==> rets[i] > -1.0
    ensures AllPositive(Compound(start, rets))
    decreases |rets|
  {
    if rets != [] {
      var next := Grow(start, rets[0]);
      assert next > 0.0;
      CompoundPositive(next, rets[1..]);
      var p := Compound(start, rets);
      assert p == [start] + Compound(next, rets[1..]);
      forall i | 0 <= i < |p| ensures p[i] > 0.0 {
        if i > 0 { assert p[i] == Compound(next, rets[1..])[i - 1]; }
      }
    }
  }

  /** The returns of a compounded path are the returns it was built from. */
  lemma {:induction false} PctChangeCompound(start: real, rets: seq<real>)
    requires start > 0.0
    requires forall i :: 0 <= i < |rets| ==> rets[i] > -1.0
    ensures AllPositive(Compound(start, rets))
    ensures PctChange(Compound(start, rets)) == rets
    decreases |rets|
  {
    CompoundPositive(start, rets);
    if rets != [] {
      var p := Compound(start, rets);
      var next := Grow(start, rets[0]);
      assert next > 0.0;
      var tail := Compound(next, rets[1..]);
      assert p == [start] + tail;
      assert p[1..] == tail;
      PctChangeCompound(next, rets[1..]);
      assert PctChange(p) == [(p[1] - p[0]) / p[0]] + PctChange(tail);
      ReturnOfGrowth(start, rets[0]);
      assert (p[1] - p[0]) / p[0] == rets[0];
      assert rets == [rets[0]] + rets[1..];
    }
  }

  /** A close-to-close move up is a non-negative return, a move down a
      non-positive one. */
  lemma ReturnSign(p: real, q: real)
    requires p > 0.0
    ensures q >= p ==> (q - p) / p >= 0.0
    ensures q <= p ==> (q - p) / p <= 0.0
  {
    var r := (q - p) / p;
    assert r * p == q - p;
    MulSign(r, p);
  }

  /** No element is below its predecessor. */
  predicate NeverFalls(prices: seq<real>) {
    forall i :: 0 <= i < |prices| - 1 ==> prices[i] <= prices[i + 1]
  }

  /** No element is above its predecessor. */
  predicate NeverRises(prices: seq<real>) {
    forall i :: 0 <= i < |prices| - 1 ==> prices[i] >= prices[i + 1]
  }

  /** No close below its predecessor means no negative return. */
  lemma NonDecreasingReturns(prices: seq<real>)
    requires AllPositive(prices)
    requires NeverFalls(prices)
    ensures forall i :: 0 <= i < |PctChange(prices)| ==> PctChange(prices)[i] >= 0.0
  {
    var r := PctChange(prices);
    forall i | 0 <= i < |r| ensures r[i] >= 0.0 {
      ReturnSign(prices[i], prices[i + 1]);
    }
  }

  /** No close above its predecessor means no positive return. */
  lemma NonIncreasingReturns(prices: seq<real>)
    requires AllPositive(prices)
    requires NeverRises(prices)
    ensures forall i :: 0 <= i < |PctChange(prices)| ==> PctChange(prices)[i] <= 0.0
  {
    var r := PctChange(prices);
    forall i | 0 <= i < |r| ensures r[i] <= 0.0 {
      ReturnSign(prices[i], prices[i + 1]);
    }
  }

  /** The mean return of a series that never falls is non-negative; that of
      a series that never rises is non-positive. */
  lemma MeanReturnSign(prices: seq<real>)
    requires |prices| >= 2 && AllPositive(prices)
    ensures NeverFalls(prices) ==> Mean(PctChange(prices)) >= 0.0
    ensures NeverRises(prices) ==> Mean(PctChange(prices)) <= 0.0
  {
    var rets := PctChange(prices);
    if NeverFalls(prices) {
      NonDecreasingReturns(prices);
      MeanAtLeast(rets, 0.0);
    }
    if NeverRises(prices) {
      NonIncreasingReturns(prices);
      MeanAtMost(rets, 0.0);
    }
  }

  /** A flat price path has no movement: every return is zero. */
  lemma ConstantPricesZeroReturns(prices: seq<real>, c: real)
    requires c > 0.0 && AllEqualTo(prices, c)
    ensures AllPositive(prices)
    ensures AllEqualTo(PctChange(prices), 0.0)
  {
    var r := PctChange(prices);
    forall i | 0 <= i < |r| ensures r[i] == 0.0 {
      assert prices[i] == c && prices[i + 1] == c;
    }
  }

  function Sum(s: seq<real>): real
    decreases |s|
  {
    if s == [] then 0.0 else s[0] + Sum(s[1..])
  }

  /** The arithmetic mean (`Series.mean()`): the value that, taken once per
      element, adds up to the sum of the series. */
  function Mean(s: seq<real>): (m: real)
    requires |s| > 0
    ensures m * |s| as real == Sum(s)
  {
    Sum(s) / |s| as real
  }

  /** Sum of squared deviations of the elements from `m`. */
  function SquaredDeviations(s: seq<real>, m: real): (d: real)
    ensures d >= 0.0
    decreases |s|
  {
    if s == [] then 0.0
    else
      SquareNonNegative(s[0] - m);
      Square(s[0] - m) + SquaredDeviations(s[1..], m)
  }

  /** Sample variance, dividing by n - 1 (delta degrees of freedom 1). */
  function SampleVariance(s: seq<real>): (v: real)
    requires |s| >= 2
    ensures v >= 0.0
  {
    SquaredDeviations(s, Mean(s)) / (|s| - 1) as real
  }

  /** `std` is the sample standard deviation of `s`: the non-negative square
      root of its sample variance. The square root itself is not computed. */
  predicate IsSampleStd(s: seq<real>, std: real) {
    |s| >= 2 && std >= 0.0 && Square(std) == SampleVariance(s)
  }

  lemma {:induction false} SumAtLeast(s: seq<real>, lo: real)
    requires forall i :: 0 <= i < |s| ==> lo <= s[i]
    ensures |s| as real * lo <= Sum(s)
    decreases |s|
  {
    if s != [] {
      assert lo <= s[0];
      SumAtLeast(s[1..], lo);
    }
  }

  lemma {:induction false} SumAtMost(s: seq<real>, hi: real)
    requires forall i :: 0 <= i < |s| ==> s[i] <= hi
    ensures Sum(s) <= |s| as real * hi
    decreases |s|
  {
    if s != [] {
      assert s[0] <= hi;
      SumAtMost(s[1..], hi);
    }
  }

  /** The mean is at least any lower bound of the elements. */
  lemma MeanAtLeast(s: seq<real>, lo: real)
    requires |s| > 0
    requires forall i :: 0 <= i < |s| ==> lo <= s[i]
    ensures lo <= Mean(s)
  {
    SumAtLeast(s, lo);
  }

  /** The mean is at most any upper bound of the elements. */
  lemma MeanAtMost(s: seq<real>, hi: real)
    requires |s| > 0
    requires forall i :: 0 <= i < |s| ==> s[i] <= hi
    ensures Mean(s) <= hi
  {
    SumAtMost(s, hi);
  }

  /** The mean lies between any lower and upper bound of the elements. */
  lemma MeanBetween(s: seq<real>, lo: real, hi: real)
    requires |s| > 0
    requires forall i :: 0 <= i < |s| ==> lo <= s[i] <= hi
    ensures lo <= Mean(s) <= hi
  {
    MeanAtLeast(s, lo);
    MeanAtMost(s, hi);
  }

  /** The mean of a series whose elements all equal `c` is `c`. */
  lemma MeanOfConstant(s: seq<real>, c: real)
    requires |s| > 0 && AllEqualTo(s, c)
    ensures Mean(s) == c
  {
    MeanBetween(s, c, c);
  }

  /** The squared deviations vanish exactly when every element equals `m`. */
  lemma {:induction false} SquaredDeviationsZero(s: seq<real>, m: real)
    ensures SquaredDeviations(s, m) == 0.0 <==> AllEqualTo(s, m)
    decreases |s|
  {
    if s != [] {
      SquaredDeviationsZero(s[1..], m);
      var d := s[0] - m;
      assert SquaredDeviations(s, m) == Square(d) + SquaredDeviations(s[1..], m);
      SquareNonNegative(d);
      if d != 0.0 { SquarePositive(d); } else { SquareOfZero(); }
      if AllEqualTo(s, m) {
        assert AllEqualTo(s[1..], m);
      }
      if s[0] == m && AllEqualTo(s[1..], m) {
        forall i | 0 <= i < |s| ensures s[i] == m {
          if i > 0 { assert s[i] == s[1..][i - 1]; }
        }
      }
    }
  }

  /** The sample variance is zero exactly when every element equals the mean,
      that is, when the series is constant. */
  lemma VarianceZeroIff(s: seq<real>)
    requires |s| >= 2
    ensures SampleVariance(s) == 0.0 <==> AllEqualTo(s, Mean(s))
  {
    SquaredDeviationsZero(s, Mean(s));
    var n1 := (|s| - 1) as real;
    assert SampleVariance(s) * n1 == SquaredDeviations(s, Mean(s));
  }

  /** A constant series has mean `c` and sample variance zero. */
  lemma ConstantSeriesStatistics(s: seq<real>, c: real)
    requires |s| >= 2 && AllEqualTo(s, c)
    ensures Mean(s) == c
    ensures SampleVariance(s) == 0.0
  {
    MeanOfConstant(s, c);
    VarianceZeroIff(s);
  }

  /** The non-negative square root is unique, so the sample standard
      deviation is determined by the series. */
  lemma SampleStdUnique(s: seq<real>, std1: real, std2: real)
    requires IsSampleStd(s, std1) && IsSampleStd(s, std2)
    ensures std1 == std2
  {
    if std1 < std2 { SquareStrictlyMonotone(std1, std2); }
    if std2 < std1 { SquareStrictlyMonotone(std2, std1); }
  }

  /** The sample standard deviation is zero exactly when the variance is. */
  lemma SampleStdZeroIff(s: seq<real>, std: real)
    requires IsSampleStd(s, std)
    ensures std == 0.0 <==> SampleVariance(s) == 0.0
  {
    if std != 0.0 { SquarePositive(std); } else { SquareOfZero(); }
  }
}
