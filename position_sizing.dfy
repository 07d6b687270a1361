/**
 From a VaR fraction to a recommended position size: the monetary risk
 budget of the account, the value of one pip for a currency pair, the
 monetary risk of a trade with a given stop loss, and the position size that
 spends exactly the budget on that trade.
 */
module PositionSizing {
  import opened RealArith

  /** The lot size `calculate_pip_value` assumes when none is given: one
      standard lot. */
  const DefaultLotSize: real := 100000.0

  /** Pip as a fraction of the lot for pairs the JPY test accepts. */
  const JpyPip: real := 0.01

  /** Pip as a fraction of the lot for every other pair. */
  const StandardPip: real := 0.0001

  /** Outcome of the position-size division. */
  datatype Sizing = Size(units: real) | DivisionByZero

  /** `calculate_total_risk`: the account's monetary risk budget. Dividing it
      by the account size gives back the VaR fraction; for a positive account
      it has the sign of the fraction, so a negative estimate gives a negative
      budget, which is returned as it is. */
  function TotalRisk(accountSize: real, varFraction: real): (risk: real)
    ensures accountSize != 0.0 ==> risk / accountSize == varFraction
    ensures accountSize > 0.0 ==> (risk > 0.0 <==> varFraction > 0.0)
    ensures accountSize > 0.0 ==> (risk < 0.0 <==> varFraction < 0.0)
    ensures risk == 0.0 <==> accountSize == 0.0 || varFraction == 0.0
  {
    MulSign(accountSize, varFraction);
    accountSize * varFraction
  }

  /** Python's `str.endswith`: the last `|suffix|` characters of `s` are `suffix`. */
  predicate EndsWith(s: string, suffix: string) {
    |suffix| <= |s| && s[|s| - |suffix|..] == suffix
  }

  /** `EndsWith` agrees with its declarative reading: `s` is some string
      followed by `suffix`. */
  lemma EndsWithIff(s: string, suffix: string)
    ensures EndsWith(s, suffix) <==> exists u :: s == u + suffix
  {
    if EndsWith(s, suffix) {
      var u := s[..|s| - |suffix|];
      assert s == u + suffix;
    }
    if exists u :: s == u + suffix {
      var u :| s == u + suffix;
      assert s[|s| - |suffix|..] == suffix;
    }
  }

  /** The literal JPY test: the symbol's last three characters are "JPY". */
  predicate IsJpyPair(pair: string) {
    EndsWith(pair, "JPY")
  }

  /** `calculate_pip_value`: the monetary value of one pip for `lotSize`
      units, a hundredth of the lot for pairs that pass the JPY test and a
      ten-thousandth otherwise. */
  function PipValue(pair: string, lotSize: real): (pip: real)
    ensures pip == JpyPip * lotSize || pip == StandardPip * lotSize
    ensures lotSize != 0.0 ==> (pip == JpyPip * lotSize <==> IsJpyPair(pair))
    ensures lotSize > 0.0 ==> pip > 0.0
  {
    if IsJpyPair(pair) then JpyPip * lotSize else StandardPip * lotSize
  }

  /** A pip of a pair that passes the JPY test is worth a hundred pips of
      one that does not, at the same lot size. */
  lemma JpyPipHundredfold(jpy: string, other: string, lotSize: real)
    requires IsJpyPair(jpy) && !IsJpyPair(other)
    ensures PipValue(jpy, lotSize) == 100.0 * PipValue(other, lotSize)
  {
  }

  /** Any symbol built as a pair code followed by "JPY" passes the JPY test. */
  lemma JpySuffixPasses(base: string)
    ensures IsJpyPair(base + "JPY")
  {
    EndsWithIff(base + "JPY", "JPY");
  }

  /** An exchange suffix hides the quote currency from the JPY test: a
      symbol ending in ".FOREX" is priced as a non-JPY pair whatever its pair
      code, so "GBPJPY.FOREX" gets the ten-thousandth pip. */
  lemma ExchangeSuffixFailsJpyTest(base: string, lotSize: real)
    ensures !IsJpyPair(base + ".FOREX")
    ensures PipValue(base + ".FOREX", lotSize) == StandardPip * lotSize
  {
    var s := base + ".FOREX";
    assert s[|s| - 3..] == "REX";
  }

  /** The pip values of the default symbol and of one JPY and one non-JPY pair,
      at the default lot size. */
  lemma DefaultLotPipValues()
    ensures PipValue("GBPJPY", DefaultLotSize) == 1000.0
    ensures PipValue("EURUSD", DefaultLotSize) == 10.0
    ensures PipValue("GBPJPY.FOREX", DefaultLotSize) == 10.0
  {
    JpySuffixPasses("GBP");
    assert "GBPJPY" == "GBP" + "JPY";
    ExchangeSuffixFailsJpyTest("GBPJPY", DefaultLotSize);
    assert "GBPJPY.FOREX" == "GBPJPY" + ".FOREX";
    var s := "EURUSD";
    assert s[|s| - 3..] == "USD";
  }

  /** `calculate_trade_risk`: the money lost when a stop loss of
      `stopLossPips` pips is hit. It is a whole number of pips' worth, and
      at least one pip's worth, hence positive, from the user interface's
      minimum stop loss of one pip on. */
  function TradeRisk(stopLossPips: int, pipValue: real): (risk: real)
    ensures pipValue != 0.0 ==> risk / pipValue == stopLossPips as real
    ensures stopLossPips >= 1 && pipValue > 0.0 ==> risk >= pipValue > 0.0
    ensures risk == 0.0 <==> stopLossPips == 0 || pipValue == 0.0
  {
    MulSign(stopLossPips as real, pipValue);
    MulSign((stopLossPips - 1) as real, pipValue);
    assert stopLossPips as real * pipValue - pipValue == (stopLossPips - 1) as real * pipValue;
    stopLossPips as real * pipValue
  }

  /** `calculate_position_size`: the size whose trade risk is exactly the
      account risk. The division is guarded: a zero trade risk has no such
      size and yields `DivisionByZero`. */
  function PositionSize(accountRisk: real, tradeRisk: real): (r: Sizing)
    ensures r.Size? <==> tradeRisk != 0.0
    ensures r.Size? ==> r.units * tradeRisk == accountRisk
  {
    if tradeRisk == 0.0 then DivisionByZero else Size(accountRisk / tradeRisk)
  }

  /** The size is the only one that matches the account risk. */
  lemma PositionSizeUnique(accountRisk: real, tradeRisk: real, units: real)
    requires tradeRisk != 0.0 && units * tradeRisk == accountRisk
    ensures PositionSize(accountRisk, tradeRisk) == Size(units)
  {
  }

  /** For a positive trade risk the size has the sign of the account risk:
      a negative budget gives a negative size, which is returned as it is. */
  lemma PositionSizeSign(accountRisk: real, tradeRisk: real)
    requires tradeRisk > 0.0
    ensures PositionSize(accountRisk, tradeRisk).Size?
    ensures PositionSize(accountRisk, tradeRisk).units > 0.0 <==> accountRisk > 0.0
    ensures PositionSize(accountRisk, tradeRisk).units < 0.0 <==> accountRisk < 0.0
    ensures PositionSize(accountRisk, tradeRisk).units == 0.0 <==> accountRisk == 0.0
  {
    var u := PositionSize(accountRisk, tradeRisk).units;
    MulSign(u, tradeRisk);
  }

  /** Two budgets: 2% and -1% of a 5000 account. */
  lemma TotalRiskExamples()
    ensures TotalRisk(5000.0, 0.02) == 100.0
    ensures TotalRisk(5000.0, -0.01) == -50.0
  {
  }
}
