# VaR and position sizing, verified in Dafny

This project models the calculations of a small risk calculator, written in
Dafny over exact reals. The calculator takes an instrument's daily closing
prices and works out three things:

1. a parametric Value-at-Risk (VaR) fraction: the mean daily simple return
   plus `z` sample standard deviations;
2. the account's monetary risk budget: account size times VaR;
3. a position size: the budget divided by the trade risk. The trade risk is
   the stop loss in pips times the value of one pip for the symbol.

Modules, one per stage of the chain:

- `Statistics` holds the three series operations the calculator uses. The
  first is the daily simple returns (`pct_change().dropna()`). The others are
  the mean and the sample variance, which uses one delta degree of freedom.
  The module also has `Compound`, which rebuilds prices from returns, so that
  the returns can be proved lossless.
- `VarEstimator` holds `ParametricVar` (`calculate_parametric_var`).
- `PositionSizing` holds the rest of the calculator: `TotalRisk`, `PipValue`
  with its literal `endswith('JPY')` test, `TradeRisk` and `PositionSize`.
- `Pipeline` holds `RecommendPosition`, the chain that `main` runs once the
  closes have been fetched, along with the end-to-end lemmas.
- `RealArith` holds one-step facts about products and squares that the other
  proofs use.

Some parts are parameters rather than computations:

- The standard normal quantile `z` (`norm.ppf`) is a parameter.
- The standard deviation is a parameter `std` that `Statistics.IsSampleStd`
  constrains: `std >= 0` and `std * std` equal to the sample variance.
  `Statistics.SampleStdUnique` proves that only one such value exists, so
  every result is still fixed by the closes.

The model follows what the calculation functions compute, with one
exception: `PositionSizing.PositionSize` returns `DivisionByZero` for a zero
trade risk, where the program's NumPy division gives infinity or NaN (see
"## Left out").

- The calculation functions check none of their inputs: there is no check
  of the confidence level, the account size or the stop loss. `main` fixes
  the confidence level at 0.95 and its form has a minimum of 1 for the
  account size and the stop loss; the lemmas that need those bounds take
  them as hypotheses.
- The JPY test is a literal suffix test on the whole symbol. It is not a
  look at the quote currency before an exchange suffix. So the default
  symbol `GBPJPY.FOREX` takes the non-JPY pip (see
  `PositionSizing.ExchangeSuffixFailsJpyTest` and
  `Pipeline.DefaultSymbolSizedAsNonJpy`).
- The model requires at least three closes: with a single return the sample
  variance (one delta degree of freedom) is undefined and pandas gives NaN.

## Model

| member | source | states |
|---|---|---|
| `Statistics.PctChange` | streamlit_app.py:38 | for positive closes there is one return fewer than closes (none for an empty series), and return i is (close[i+1] - close[i]) / close[i]; only the leading missing value is dropped |
| `Statistics.Mean` | streamlit_app.py:39 | the arithmetic mean of a non-empty series: taken once per element it adds up to the sum of the series; its bounds are stated by `Statistics.MeanBetween`, `Statistics.MeanAtLeast` and `Statistics.MeanAtMost` |
| `Statistics.MeanAtLeast` | streamlit_app.py:39 | the mean of a non-empty series is at least any lower bound of its elements |
| `Statistics.MeanAtMost` | streamlit_app.py:39 | the mean of a non-empty series is at most any upper bound of its elements |
| `Statistics.IsSampleStd` | streamlit_app.py:40 | what `returns.std()` is: a non-negative value whose square is the sample variance (divisor n - 1) of at least two returns; `Statistics.SampleStdUnique` proves there is only one |
| `Statistics.ReturnSign` | streamlit_app.py:38 | a move up between consecutive closes is a non-negative return, a move down a non-positive one |
| `Statistics.NonDecreasingReturns` | streamlit_app.py:38 | closes that never fall give only non-negative returns |
| `Statistics.NonIncreasingReturns` | streamlit_app.py:38 | closes that never rise give only non-positive returns |
| `Statistics.MeanReturnSign` | streamlit_app.py:38-39 | the mean return of closes that never fall is non-negative, and that of closes that never rise is non-positive |
| `VarEstimator.MeanReturn` | streamlit_app.py:38-39 | the mean of the daily returns of three or more positive closes: taken once per return (one fewer than the closes) it adds up to the sum of the returns; `Statistics.MeanReturnSign` gives its sign for closes that never fall or never rise |
| `Statistics.CompoundPctChange` | streamlit_app.py:38 | the returns lose nothing: compounding them from the first close gives back every close |
| `Statistics.PctChangeCompound` | streamlit_app.py:38 | the other direction of the round trip: the returns of a path compounded from a positive start, with returns above -1, are exactly those returns |
| `Statistics.CompoundPositive` | streamlit_app.py:38 | compounding a positive close by returns above -1 keeps every close positive, so the round trip stays in the domain of the returns |
| `Statistics.ConstantPricesZeroReturns` | streamlit_app.py:38 | a constant positive price series has only zero returns |
| `Statistics.MeanBetween` | streamlit_app.py:39 | the mean of a non-empty series lies between any lower and upper bound of its elements |
| `Statistics.MeanOfConstant` | streamlit_app.py:39 | the mean of a series with all elements equal to c is c |
| `Statistics.SquaredDeviations` | streamlit_app.py:40 | the sum of squared deviations from any centre is non-negative |
| `Statistics.SampleVariance` | streamlit_app.py:40 | the sample variance (divisor n - 1) of two or more values is non-negative |
| `Statistics.SquaredDeviationsZero` | streamlit_app.py:40 | the squared deviations from m are zero exactly when every element equals m |
| `Statistics.VarianceZeroIff` | streamlit_app.py:40 | the sample variance is zero exactly when every element equals the mean (both directions) |
| `Statistics.ConstantSeriesStatistics` | streamlit_app.py:39-40 | a constant series has mean equal to the constant and sample variance zero |
| `Statistics.SampleStdUnique` | streamlit_app.py:40 | only one non-negative value squares to the sample variance, so the standard deviation is fixed by the series |
| `Statistics.SampleStdZeroIff` | streamlit_app.py:40 | the standard deviation is zero exactly when the sample variance is zero |
| `VarEstimator.ParametricVar` | streamlit_app.py:37-43 | for three or more positive closes, VaR minus the mean return is z times the standard deviation; VaR is at least the mean return for z >= 0 and at most it for z <= 0 |
| `VarEstimator.VarEqualsMeanIff` | streamlit_app.py:39-42 | VaR equals the mean return exactly when z is zero or the returns' sample variance is zero |
| `VarEstimator.ConstantClosesZeroVar` | streamlit_app.py:38-42 | for constant closes the mean return is 0 and the variance is 0, so VaR is exactly 0 for every z |
| `VarEstimator.VarDeterminedByCloses` | streamlit_app.py:40-42 | VaR depends only on the closes and z: any two valid standard deviations give the same VaR |
| `VarEstimator.VarMonotoneInZ` | streamlit_app.py:41-42 | a larger quantile z (a higher confidence level) gives a VaR at least as large |
| `PositionSizing.TotalRisk` | streamlit_app.py:46-48 | the budget divided by a non-zero account size gives back the VaR fraction; for a positive account its sign is the fraction's sign, so a negative VaR gives a negative budget; it is zero exactly when one factor is |
| `PositionSizing.TotalRiskExamples` | streamlit_app.py:46-48 | 5000 at 0.02 gives 100, and 5000 at -0.01 gives -50, which is returned, not rejected |
| `PositionSizing.EndsWith` | streamlit_app.py:53 | Python's `str.endswith`: the suffix is no longer than the string and equals its last characters; `PositionSizing.EndsWithIff` proves it equivalent to "some string followed by the suffix" |
| `PositionSizing.IsJpyPair` | streamlit_app.py:53 | the literal `pair.endswith('JPY')` test on the whole symbol; `PositionSizing.JpySuffixPasses` and `PositionSizing.ExchangeSuffixFailsJpyTest` state which symbols pass it |
| `PositionSizing.DefaultLotSize` | streamlit_app.py:51 | the default lot size of 100000 units (one standard lot) that `main` uses; `PositionSizing.DefaultLotPipValues` gives the pip values at that lot |
| `PositionSizing.EndsWithIff` | streamlit_app.py:53 | the suffix test holds exactly when the string is some string followed by the suffix (both directions) |
| `PositionSizing.PipValue` | streamlit_app.py:51-58 | the pip value is 0.01 or 0.0001 times the lot; for a non-zero lot it is 0.01 times the lot exactly when the pair ends with "JPY"; it is positive for a positive lot |
| `PositionSizing.JpyPipHundredfold` | streamlit_app.py:51-58 | at the same lot size, the pip of a pair that passes the JPY test is worth 100 pips of a pair that fails it |
| `PositionSizing.JpySuffixPasses` | streamlit_app.py:53 | every symbol ending in "JPY" passes the test |
| `PositionSizing.ExchangeSuffixFailsJpyTest` | streamlit_app.py:51-58 | every symbol ending in ".FOREX" fails the JPY test and gets 0.0001 times the lot, whatever its pair code |
| `PositionSizing.DefaultLotPipValues` | streamlit_app.py:51-58 | at the default lot of 100000, "GBPJPY" gives 1000, while "EURUSD" and the default symbol "GBPJPY.FOREX" give 10 |
| `PositionSizing.TradeRisk` | streamlit_app.py:61-62 | trade risk divided by a non-zero pip value is the stop loss in pips; for a stop loss of at least one pip and a positive pip value it is at least one pip value, so it is positive; it is zero exactly when the stop loss or the pip value is zero |
| `PositionSizing.PositionSize` | streamlit_app.py:65-66 | a size comes back exactly when the trade risk is non-zero, and that size times the trade risk is the account risk; a zero trade risk gives `DivisionByZero` |
| `PositionSizing.PositionSizeUnique` | streamlit_app.py:65-66 | any size whose trade risk gives the account risk is the size returned |
| `PositionSizing.PositionSizeSign` | streamlit_app.py:65-66 | for a positive trade risk the size is positive, negative or zero exactly when the account risk is |
| `Pipeline.SizeForEstimate` | streamlit_app.py:96-103 | the stages after the estimate, for any VaR fraction v: from a stop loss of one pip on a size always comes back, and its trade risk at the default lot is account size times v |
| `Pipeline.SizeForEstimateFormula` | streamlit_app.py:96-103 | from one pip of stop loss on, the size is account size times v, divided by stop-loss pips times pip value |
| `Pipeline.SizeForEstimateSign` | streamlit_app.py:96-103 | for a positive account and a stop loss of at least one pip, the size is positive, negative or zero exactly when v is |
| `Pipeline.DefaultSymbolSizes` | streamlit_app.py:51-58 | for every estimate, "GBPJPY.FOREX" is sized the same as "EURUSD", and 100 times larger than "GBPJPY" |
| `Pipeline.RecommendPosition` | streamlit_app.py:86-103 | for a stop loss of at least one pip a size always comes back, and its trade risk at the default lot is account size times VaR |
| `Pipeline.RecommendPositionFormula` | streamlit_app.py:89-103 | end to end, the size is account size times VaR, divided by stop-loss pips times pip value |
| `Pipeline.RecommendPositionDeterministic` | streamlit_app.py:89-103 | the recommendation depends only on its inputs: any two valid standard deviations give the same result |
| `Pipeline.RecommendPositionSign` | streamlit_app.py:89-103 | for a positive account and a stop loss of at least one pip, the size has the sign of VaR, negative sizes included |
| `Pipeline.ConstantClosesZeroPosition` | streamlit_app.py:89-103 | constant closes give a size of exactly 0 for every z, account, symbol and stop loss of at least one pip |
| `Pipeline.DefaultSymbolSizedAsNonJpy` | streamlit_app.py:73-103 | the default symbol "GBPJPY.FOREX" is sized the same as "EURUSD", and 100 times larger than "GBPJPY" |
| `Pipeline.FivePointFixture` | streamlit_app.py:38-40 | closes 100, 101, 99, 100, 102 give returns 1/100, -2/101, 1/99, 1/50, mean return 20297/3999600 and sample variance 1187943937/3999200040000 |
| `Pipeline.FixtureReturnStatistics` | streamlit_app.py:39-40 | the mean and sample variance of those four returns, as exact fractions |
| `Pipeline.EurUsdFiftyPips` | streamlit_app.py:96-103 | with "EURUSD" and a 50-pip stop loss the trade risk is 500, so the size is the budget divided by 500 |

## Left out

- The shell line at streamlit_app.py:1 is not Python and is not modelled.
- `fetch_data_from_eod` (streamlit_app.py:11-34) is not modelled: it makes an HTTP request and parses CSV. The model starts from its result and assumes a sequence of positive closes with no missing values.
- `norm.ppf` (streamlit_app.py:41), SciPy's inverse normal CDF, is not computed. `z` is a parameter, and the model does not tie `z` to a confidence level.
- The square root inside `Series.std()` is not computed. `std` is a parameter, constrained by `Statistics.IsSampleStd`.
- `VarEstimator.ParametricVar`: requires at least three positive closes. The program also accepts shorter series. With a single return, pandas gives NaN for the standard deviation and the NaN reaches every later output; with no return, the mean is NaN too. A zero close is also outside the model: the return into it is -1, and the return out of it is infinite, or NaN (which `dropna` then removes) when the next close is zero as well. The model covers only inputs where every value is a finite real.
- Floating point is not modelled. All arithmetic is exact over the reals, so IEEE-754 rounding is out: for example `0.0001 * 100000` is exactly 10 in the model. NaN and infinity are out too, along with pandas' dropping of NaN returns other than the first.
- `PositionSizing.PositionSize`: for a zero trade risk the model returns `DivisionByZero`. The program divides a NumPy float there, which gives infinity or NaN. That case needs a stop loss of zero pips, which the form's minimum of one pip rules out.
- `main` (streamlit_app.py:69-107) is not modelled beyond its calculation chain: the Streamlit widgets, the date inputs, the API key field and the display formatting (×100, two decimals) are left out. The form's minimums (account size and stop loss at least 1) are not preconditions. They appear as hypotheses in the lemmas that need them.
- `leverage` (streamlit_app.py:79) is read but never used by any calculation, so it has no counterpart in the model.
