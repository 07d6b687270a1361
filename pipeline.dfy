/**
 The calculation chain the application runs once the closes are in hand:
 VaR fraction of the closes, risk budget of the account, pip value of the
 symbol at the default lot size, trade risk of the stop loss, and the
 position size that spends the budget on that trade. Each stage is a pure
 function of its inputs, so the whole chain is one.
 */
module Pipeline {
  import opened RealArith
  import opened Statistics
  import opened VarEstimator
  import opened PositionSizing

  /** The stages after the estimate: the risk budget of the account for the
      VaR fraction `v`, the pip value of `symbol` at the default lot size,
      the trade risk of the stop loss and the position size that spends the
      budget on that trade. */
  function SizeForEstimate(v: real, accountSize: real, symbol: string, stopLossPips: int): (r: Sizing)
    ensures stopLossPips >= 1 ==> r.Size?
    ensures r.Size? ==> r.units * TradeRisk(stopLossPips, PipValue(symbol, DefaultLotSize))
                        == accountSize * v
  {
    var budget := TotalRisk(accountSize, v);
    var pip := PipValue(symbol, DefaultLotSize);
    var tradeRisk := TradeRisk(stopLossPips, pip);
    PositionSize(budget, tradeRisk)
  }

  /** From one pip of stop loss on, the size is the budget divided by the
      stop loss in pips times the pip value. */
  lemma SizeForEstimateFormula(v: real, accountSize: real, symbol: string, stopLossPips: int)
    requires stopLossPips >= 1
    ensures SizeForEstimate(v, accountSize, symbol, stopLossPips)
         == Size(accountSize * v / (stopLossPips as real * PipValue(symbol, DefaultLotSize)))
  {
    var pip := PipValue(symbol, DefaultLotSize);
    var tradeRisk := TradeRisk(stopLossPips, pip);
    assert tradeRisk == stopLossPips as real * pip && tradeRisk != 0.0;
    assert SizeForEstimate(v, accountSize, symbol, stopLossPips)
        == PositionSize(TotalRisk(accountSize, v), tradeRisk);
  }

  /** For a positive account and one pip of stop loss or more the size has
      the sign of the estimate. */
  lemma SizeForEstimateSign(v: real, accountSize: real, symbol: string, stopLossPips: int)
    requires accountSize > 0.0 && stopLossPips >= 1
    ensures var r := SizeForEstimate(v, accountSize, symbol, stopLossPips);
            r.Size? && (r.units > 0.0 <==> v > 0.0) && (r.units < 0.0 <==> v < 0.0)
            && (r.units == 0.0 <==> v == 0.0)
  {
    var tradeRisk := TradeRisk(stopLossPips, PipValue(symbol, DefaultLotSize));
    PositionSizeSign(TotalRisk(accountSize, v), tradeRisk);
  }

  /** "GBPJPY.FOREX" is sized like "EURUSD", and a hundred times larger than
      "GBPJPY", for every estimate. */
  lemma DefaultSymbolSizes(v: real, accountSize: real, stopLossPips: int)
    requires stopLossPips >= 1
    ensures SizeForEstimate(v, accountSize, "GBPJPY.FOREX", stopLossPips)
         == SizeForEstimate(v, accountSize, "EURUSD", stopLossPips)
    ensures SizeForEstimate(v, accountSize, "GBPJPY.FOREX", stopLossPips).units
         == 100.0 * SizeForEstimate(v, accountSize, "GBPJPY", stopLossPips).units
  {
    DefaultLotPipValues();
    var budget := TotalRisk(accountSize, v);
    var jpyRisk := TradeRisk(stopLossPips, 1000.0);
    var otherRisk := TradeRisk(stopLossPips, 10.0);
    assert jpyRisk == 100.0 * otherRisk;
    var jpyUnits := PositionSize(budget, jpyRisk).units;
    assert jpyUnits * jpyRisk == budget;
    assert (100.0 * jpyUnits) * otherRisk == jpyUnits * jpyRisk;
    PositionSizeUnique(budget, otherRisk, 100.0 * jpyUnits);
  }

  /** The recommended position for the closes of `symbol`, an account of
      `accountSize` and a stop loss of `stopLossPips` pips. From the user
      interface's minimum stop loss of one pip on, a size is always produced,
      and its trade risk is the account's risk budget. */
  function RecommendPosition(closes: seq<real>, z: real, std: real, accountSize: real,
                             symbol: string, stopLossPips: int): (r: Sizing)
    requires ValidInput(closes, std)
    ensures stopLossPips >= 1 ==> r.Size?
    ensures r.Size? ==> r.units * TradeRisk(stopLossPips, PipValue(symbol, DefaultLotSize))
                        == accountSize * ParametricVar(closes, z, std)
  {
    SizeForEstimate(ParametricVar(closes, z, std), accountSize, symbol, stopLossPips)
  }

  /** End to end: the size is the account size times the VaR fraction,
      divided by the stop loss in pips times the pip value. */
  lemma RecommendPositionFormula(closes: seq<real>, z: real, std: real, accountSize: real,
                                 symbol: string, stopLossPips: int)
    requires ValidInput(closes, std)
    requires stopLossPips >= 1
    ensures RecommendPosition(closes, z, std, accountSize, symbol, stopLossPips)
         == Size(accountSize * ParametricVar(closes, z, std)
                 / (stopLossPips as real * PipValue(symbol, DefaultLotSize)))
  {
    SizeForEstimateFormula(ParametricVar(closes, z, std), accountSize, symbol, stopLossPips);
  }

  /** The recommendation is determined by its inputs: every standard
      deviation `IsSampleStd` accepts for the closes gives the same result. */
  lemma RecommendPositionDeterministic(closes: seq<real>, z: real, std1: real, std2: real,
                                       accountSize: real, symbol: string, stopLossPips: int)
    requires ValidInput(closes, std1) && ValidInput(closes, std2)
    ensures RecommendPosition(closes, z, std1, accountSize, symbol, stopLossPips)
         == RecommendPosition(closes, z, std2, accountSize, symbol, stopLossPips)
  {
    VarDeterminedByCloses(closes, z, std1, std2);
  }

  /** For a positive account and a stop loss of at least one pip the size
      has the sign of the VaR fraction: a negative estimate gives a negative
      size, which is returned rather than rejected. */
  lemma RecommendPositionSign(closes: seq<real>, z: real, std: real, accountSize: real,
                              symbol: string, stopLossPips: int)
    requires ValidInput(closes, std)
    requires accountSize > 0.0 && stopLossPips >= 1
    ensures var r := RecommendPosition(closes, z, std, accountSize, symbol, stopLossPips);
            r.Size? && (r.units > 0.0 <==> ParametricVar(closes, z, std) > 0.0)
            && (r.units < 0.0 <==> ParametricVar(closes, z, std) < 0.0)
  {
    SizeForEstimateSign(ParametricVar(closes, z, std), accountSize, symbol, stopLossPips);
  }

  /** A flat price path recommends a position of zero at every confidence
      level, for every account, symbol and stop loss of at least one pip. */
  lemma ConstantClosesZeroPosition(closes: seq<real>, c: real, z: real, std: real,
                                   accountSize: real, symbol: string, stopLossPips: int)
    requires |closes| >= 3 && c > 0.0 && AllEqualTo(closes, c)
    requires IsSampleStd(PctChange(closes), std)
    requires stopLossPips >= 1
    ensures ValidInput(closes, std)
    ensures RecommendPosition(closes, z, std, accountSize, symbol, stopLossPips) == Size(0.0)
  {
    ConstantClosesZeroVar(closes, c, z, std);
    var tradeRisk := TradeRisk(stopLossPips, PipValue(symbol, DefaultLotSize));
    PositionSizeSign(TotalRisk(accountSize, 0.0), tradeRisk);
  }

  /** The application's default symbol "GBPJPY.FOREX" fails the JPY test,
      so it is sized like "EURUSD" and a hundred times larger than "GBPJPY". */
  lemma DefaultSymbolSizedAsNonJpy(closes: seq<real>, z: real, std: real, accountSize: real,
                                   stopLossPips: int)
    requires ValidInput(closes, std)
    requires stopLossPips >= 1
    ensures RecommendPosition(closes, z, std, accountSize, "GBPJPY.FOREX", stopLossPips)
         == RecommendPosition(closes, z, std, accountSize, "EURUSD", stopLossPips)
    ensures RecommendPosition(closes, z, std, accountSize, "GBPJPY.FOREX", stopLossPips).units
         == 100.0 * RecommendPosition(closes, z, std, accountSize, "GBPJPY", stopLossPips).units
  {
    DefaultSymbolSizes(ParametricVar(closes, z, std), accountSize, stopLossPips);
  }

  /** The closes 100, 101, 99, 100, 102 give four returns, with the mean
      and sample variance below as exact fractions. */
  lemma FivePointFixture()
    ensures PctChange([100.0, 101.0, 99.0, 100.0, 102.0])
         == [1.0 / 100.0, -2.0 / 101.0, 1.0 / 99.0, 1.0 / 50.0]
    ensures MeanReturn([100.0, 101.0, 99.0, 100.0, 102.0]) == 20297.0 / 3999600.0
    ensures SampleVariance(PctChange([100.0, 101.0, 99.0, 100.0, 102.0]))
         == 1187943937.0 / 3999200040000.0
  {
    var closes := [100.0, 101.0, 99.0, 100.0, 102.0];
    var rets := PctChange(closes);
    assert |rets| == 4;
    assert rets[0] == 1.0 / 100.0 && rets[1] == -2.0 / 101.0;
    assert rets[2] == 1.0 / 99.0 && rets[3] == 1.0 / 50.0;
    assert rets == [1.0 / 100.0, -2.0 / 101.0, 1.0 / 99.0, 1.0 / 50.0];
    FixtureReturnStatistics();
  }

  lemma FixtureReturnStatistics()
    ensures Mean([1.0 / 100.0, -2.0 / 101.0, 1.0 / 99.0, 1.0 / 50.0]) == 20297.0 / 3999600.0
    ensures SampleVariance([1.0 / 100.0, -2.0 / 101.0, 1.0 / 99.0, 1.0 / 50.0])
         == 1187943937.0 / 3999200040000.0
  {
    var rets := [1.0 / 100.0, -2.0 / 101.0, 1.0 / 99.0, 1.0 / 50.0];
    assert rets[1..] == [-2.0 / 101.0, 1.0 / 99.0, 1.0 / 50.0];
    assert rets[2..] == [1.0 / 99.0, 1.0 / 50.0];
    assert rets[3..] == [1.0 / 50.0];
    assert rets[4..] == [];
    assert Sum(rets[3..]) == 1.0 / 50.0;
    assert Sum(rets[2..]) == 1.0 / 99.0 + 1.0 / 50.0;
    assert Sum(rets) == 20297.0 / 999900.0;
    var m := 20297.0 / 3999600.0;
    assert Mean(rets) == m;
    var d := SquaredDeviations(rets, m);
    assert SquaredDeviations(rets[3..], m) == Square(1.0 / 50.0 - m);
    assert d == Square(1.0 / 100.0 - m) + Square(-2.0 / 101.0 - m)
              + Square(1.0 / 99.0 - m) + Square(1.0 / 50.0 - m);
    assert d == 3.0 * (1187943937.0 / 3999200040000.0);
  }

  /** With "EURUSD" (pip value 10 at the default lot) and a stop loss of 50
      pips the trade risk is 500, so the size is the risk budget over 500. */
  lemma EurUsdFiftyPips(closes: seq<real>, z: real, std: real, accountSize: real)
    requires ValidInput(closes, std)
    ensures RecommendPosition(closes, z, std, accountSize, "EURUSD", 50)
         == Size(accountSize * ParametricVar(closes, z, std) / 500.0)
  {
    DefaultLotPipValues();
    SizeForEstimateFormula(ParametricVar(closes, z, std), accountSize, "EURUSD", 50);
  }
}
