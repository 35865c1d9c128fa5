# Bullish-signal scoring and moving-average backtest, in Dafny

This project models the signal engine of a stock-screening application. The engine has three parts:

- **Detectors.** Six row-wise detectors turn a daily price table into the dates on which a bullish
  signal fires:
  - moving-average crossover;
  - RSI oversold;
  - volume spike;
  - breakout above the 50-day high;
  - close crossing above the lower Bollinger band;
  - close crossing above an exponential moving average.

  Three chart-pattern detectors (cup and handle, ascending triangle, inverse head and shoulders)
  walk the peaks and valleys of the closing price.
- **Aggregator (`calculate_score`).** It gives every indicator its weight when one of its dates
  lies in a trailing window ending at "now". It normalises by the sum of the weights and returns
  the sorted dates of the indicators that scored. A score strictly above one half recommends
  trading.
- **Backtest (`moving_average_crossover_backtest`).** It holds one share while the 50-day
  average is above the 200-day average and keeps a cash ledger. It classifies every change of
  position against that day's price change, then reports:
  - the final value;
  - the ROI;
  - accuracy, precision and recall.

Modules, one per file:

- `Series` (series.dfy): cells with pandas' NaN as `None`, `shift`, masks, the selection of the
  masked dates, and rolling windows.
- `Indicators` (indicators.dfy): the six detectors. The price table is a class `Frame`, because
  the breakout detector writes its `high_max` column in place.
- `Patterns` (patterns.dfy): the three pattern finders. Each is a loop proved against a
  recursive function that lists the matching windows.
- `Score` (score.dfy): the aggregator loop, its closed form and its bounds, and the
  recommendation rule.
- `Backtest` (backtest.dfy): the ledger loop, its closed form, the confusion counts and the
  metrics.

How values are represented:

- A date is a day number.
- "Now" is a real day number, because the source's `datetime.today()` carries the time of day.
- A NaN compares false, as in pandas.
- Missing division results (a zero initial capital) are `None`.
- The peak finder's output, the rolling standard deviation and the exponential moving average
  are inputs.

## Model

| member | source | states |
|---|---|---|
| Series.CrossAbove | bullish_signals_indicators.py:26 | the mask `(x > line) & (x.shift(1) < line.shift(1))` fires at row i exactly when x is strictly above the line at i and strictly below it at i-1; row 0 and NaN rows never fire |
| Series.Select | bullish_signals_indicators.py:29 | `data.loc[mask, 'date']`: every masked row's date is returned, every returned date is a masked row's date, and no more dates than rows are returned |
| Series.SelectExactly | bullish_signals_indicators.py:29 | on a date column without repeats, a row's date is selected if and only if the row is masked |
| Series.SelectOrdered | bullish_signals_indicators.py:29 | on increasing dates the selected dates come out strictly increasing (row order) |
| Series.RollingMaxPartial | bullish_signals_indicators.py:84 | `rolling(50, min_periods=1).max()`: each entry is one of the up to 50 trailing highs and bounds all of them |
| Series.RollingMean | bullish_signals_indicators.py:109 | `rolling(window).mean()` is NaN exactly on the first `window - 1` rows |
| Indicators.MovingAverageCrossover | bullish_signals_indicators.py:18-29 | the dates are exactly those of rows where the 50-day average is strictly above the 200-day one and was strictly below it the day before, in date order |
| Indicators.RsiOversold | bullish_signals_indicators.py:47-48 | the dates are exactly those of rows whose RSI is below the threshold (NaN excluded), in date order |
| Indicators.VolumeSpikes | bullish_signals_indicators.py:62-70 | the dates are exactly those of rows whose volume exceeds the threshold times the trailing 50-row mean volume (partial windows allowed) and whose close rose strictly over the previous row |
| Indicators.SpikeMask | bullish_signals_indicators.py:62-67 | the mask is set at row i exactly when the volume exceeds the threshold times the mean of the up to 50 volumes ending at i, and the close rose strictly over row i-1 (never at row 0) |
| Indicators.BreakoutDates | bullish_signals_indicators.py:86-90 | the dates are exactly those of rows from 1 on whose close exceeds the highest high of the up to 50 rows ending the row before |
| Indicators.Breakouts | bullish_signals_indicators.py:72-90 | writes the rolling 50-row high into the frame's `high_max` column, changes nothing else, and returns the breakout dates |
| Indicators.LowerBand | bullish_signals_indicators.py:109-114 | the lower band is defined exactly where the rolling mean has a full window and the standard deviation is defined |
| Indicators.UpperBand | bullish_signals_indicators.py:109-113 | the upper band is defined exactly where the rolling mean has a full window and the standard deviation is defined |
| Indicators.BollingerBands | bullish_signals_indicators.py:92-120 | returns both bands; the signals are exactly the dates where the close crosses strictly above the lower band, none before row `window`, in date order |
| Indicators.ExponentialMovingAverage | bullish_signals_indicators.py:136-142 | the dates are exactly those where the close crosses strictly above the supplied EMA, in date order |
| Indicators.FirstRowNeverFires | bullish_signals_indicators.py:26-90 | on unique dates, the crossover, volume, breakout and EMA detectors never report the first date, because they compare with the previous row |
| Patterns.Between | bullish_signals_indicators.py:205 | keeps exactly the troughs strictly between the two peaks |
| Patterns.FirstMinBy | bullish_signals_indicators.py:210 | `min(..., key=close)` picks a trough of lowest close, the first one on a tie |
| Patterns.LowestBetween | bullish_signals_indicators.py:205-210 | `min(relevant, key=close)` after the empty check: absent exactly when no trough lies strictly between the two peaks; otherwise a trough strictly between them whose close is at most that of every trough between them |
| Patterns.Hits | bullish_signals_indicators.py:166-176 | the positions of the matching windows before k, each exactly once, in increasing order |
| Patterns.FindCupAndHandle | bullish_signals_indicators.py:165-176 | emits one completion date (the right peak's date) and one left-to-right span for each peak triple that passes `CupAt` (bullish_signals_indicators.py:169-173: both outer peaks below the centre, the handle's lowest close above the cup's, the right peak above 95% of the centre), in peak order and nothing else; on increasing dates the completions increase and every span starts before it ends |
| Patterns.FindAscendingTriangle | bullish_signals_indicators.py:203-216 | the same for each peak pair that passes `TriangleAt` (bullish_signals_indicators.py:205-212: the lowest trough between the peaks, via `LowestBetween`, closes above 95% of the left peak), skipping pairs with no trough between them |
| Patterns.FindInverseHeadAndShoulders | bullish_signals_indicators.py:240-246 | the same for each valley triple that passes `InverseHeadShouldersAt` (bullish_signals_indicators.py:244: the head closes strictly below both shoulders) |
| Patterns.EmittedStep | bullish_signals_indicators.py:166-176 | visiting one more window appends its completion date and span when it matches and leaves the outputs unchanged otherwise, keeping them in step with the matched windows |
| Patterns.CompletionsAppend | bullish_signals_indicators.py:175 | one more matched window appends exactly its last peak's date to the completion dates |
| Patterns.OutputOrdered | bullish_signals_indicators.py:175-176 | every span ends on its completion date; on increasing dates completions strictly increase and spans start before they end |
| Patterns.TriangleSupport | bullish_signals_indicators.py:203-212 | `TriangleAt`, the per-pair test the triangle finder emits on, holds if and only if some trough lies strictly between the peaks and every such trough closes above 95% of the left peak |
| Score.WindowSumCounts | backtest_strategy.py:52 | `WindowSum`, the list sum `sum([w if now - d <= days else 0 ...])`, is the weight times the number of in-window dates |
| Score.CountPositiveIffFires | backtest_strategy.py:52-53 | some date lies in the window if and only if the in-window count is positive |
| Score.ContributionIffFires | backtest_strategy.py:52-57 | `Contribution`, the individual score of lines 53-57, is the weight exactly when the weight is non-zero and one of the dates lies in the window, and 0 otherwise |
| Score.OutOfWindowIgnored | backtest_strategy.py:52-53 | dates outside the window never change an indicator's window sum or contribution |
| Score.WindowScore | backtest_strategy.py:52 | the list sum looks the weight up only for in-window dates: it fails with `MissingWeight(s)` exactly when `s` has no weight and one of its dates lies in the window; otherwise it is the window sum under the weight, 0 when there is none; a non-zero sum implies the weight exists |
| Score.QuietUnweightedScoresZero | backtest_strategy.py:52-57 | an indicator without a weight none of whose dates lies in the window raises nothing: its list sum is 0 and its individual score is 0 |
| Score.IndividualScores | backtest_strategy.py:54-57 | an indicator has an individual score exactly when it was visited |
| Score.IndividualScoreIsContribution | backtest_strategy.py:54-57 | each visited indicator's individual score is its `Contribution`: its weight (0 when it has none) if its window sum is non-zero, else 0 |
| Score.Insert | backtest_strategy.py:61 | inserting into a sorted list keeps it sorted and adds exactly that date |
| Score.SortDates | backtest_strategy.py:61 | `sorted` returns an ordered permutation of its input |
| Score.ScoreSignals | backtest_strategy.py:43-61 | the loop fails with `MissingWeight` on the first indicator, in visiting order, that fires in the window without a weight; an indicator without a weight that does not fire scores 0; a zero sum of the given weights is an error; otherwise the score is the total `Contribution` (backtest_strategy.py:52-57) over the sum of the given weights, the individual scores are `IndividualScores`, and the dates are the sorted multiset union of all dates of the indicators that scored |
| Score.DetectorSignals | backtest_strategy.py:27-37 | the table holds the output of all nine detectors |
| Score.CalculateScore | backtest_strategy.py:8-61 | runs the nine detectors, leaving the frame's `high_max` column written, and scores their outputs as `ScoreSignals` states, partial weight maps included |
| Score.TotalWithinWeights | backtest_strategy.py:58 | with non-negative weights the summed contributions lie between 0 and the weight sum, and reach it exactly when every positively weighted indicator fires |
| Score.OverallScoreBounds | backtest_strategy.py:58-61 | with non-negative weights and a positive weight sum, the score lies in [0, 1] and equals 1 exactly when every positively weighted indicator fires |
| Score.DefaultTotals | backtest_strategy.py:45-58 | under `DefaultWeights` (backtest_strategy.py:45-46, weight 1 for each of the nine indicators) the total counts the firing indicators and the weight sum counts the indicators |
| Score.DefaultScore | backtest_strategy.py:45-61 | without weights (`DefaultWeights`, lines 45-46) the score is the fraction of the nine indicators that fire |
| Score.DefaultRecommendation | stock_functions.py:154-155 | the rule `Recommend` (stock_functions.py:155: trade on a score strictly above 0.5) applied to the default-weight score advises Trade exactly when at least five of the nine indicators fire |
| Backtest.Position | backtest_strategy.py:85 | for a 0/1 signal the position change is -1, 0 or 1: +1 exactly on a buy (0 to 1), -1 exactly on a sell (1 to 0) |
| Backtest.Ratio | backtest_strategy.py:115-117 | the zero-guarded ratio is 0 on a zero denominator, otherwise the ratio itself; it lies in [0, 1] when the numerator is at most the denominator |
| Backtest.Roi | backtest_strategy.py:118 | the ROI is defined exactly when the initial capital is non-zero, and then times the capital equals the gain |
| Backtest.MovingAverageCrossoverBacktest | backtest_strategy.py:63-129 | an empty series is the only error; otherwise the loop's results equal the closed forms: the final value is `Total` on the last row (lines 94-98: capital minus the `Debits` of the position changes, plus the share held), the counts are `Classify` of rows 1 on (lines 102-109, with `PriceMove` the sign of line 103's `pct_change`), and the report is `Metrics` (lines 115-127: zero-guarded ratios and the ROI) |
| Backtest.MarkToMarket | backtest_strategy.py:94-98 | the total at row i is the initial capital, plus the row-0 share's value, plus the price changes earned while holding |
| Backtest.FlatLedger | backtest_strategy.py:94-112 | a signal that never fires leaves no debits, keeps the total at the initial capital and classifies no trade |
| Backtest.ClassifiedTrades | backtest_strategy.py:102-112 | true and false positives are at most the buys, false and true negatives at most the sells |
| Backtest.EntriesExits | backtest_strategy.py:84-85 | for any 0/1 signal, as `Signal` of line 84 is, the buys minus the sells among the first n rows equal the signal's change from row 0 to row n-1 |
| Backtest.PriceMoveDirection | backtest_strategy.py:103 | with a positive previous close, `pct_change` is positive exactly when the price rose and negative exactly when it fell |
| Backtest.MetricsBounded | backtest_strategy.py:115-118 | for every input, `BacktestResult` is an error exactly on an empty series; the accuracy, precision and recall of `Metrics` lie in [0, 1]; the ROI is defined exactly when the initial capital is non-zero |
| Backtest.NoCrossoverNoTrade | backtest_strategy.py:84-127 | when the 50-day average is never strictly above the 200-day one, `Signal` (line 84) is 0 throughout, so the final value is the initial capital, the ROI is 0 (undefined for a zero capital) and all three metrics are 0 |

## Left out

- Peak finding is not part of this model. `scipy.signal.find_peaks` with `distance=50` is
  replaced by its output, the peak and valley row indices, taken as strictly increasing inputs.
- Rolling standard deviation is not part of this model. `rolling(window).std()` is replaced by
  its output column, NaN where undefined.
- The exponential moving average is not part of this model. `ewm(span=20).mean()` is replaced by
  its output column.
- Floating point: all prices are exact reals. Rounding, infinities and NaN arithmetic are
  modelled only where they decide a branch: NaN comparisons, `pct_change` after a zero close,
  and a zero initial capital.
- Indicators.BollingerBands: requires a window of at least 1. With a window of 0 pandas returns
  NaN everywhere and the detector reports no signal; every caller uses the window of 20.
- Score.CalculateScore: "now" is a parameter, because the source reads the clock with
  `datetime.today()`.
- Score.CalculateScore: the symbol-specific column names (`{stock}_50_day_ma`, `{stock}_rsi`)
  are plain fields of the frame.
- Score.ScoreSignals: the source's `KeyError` for an indicator that fires without a weight is
  the error result `MissingWeight`, naming that indicator.
- Score.ScoreSignals: weight maps are keyed by the nine indicators only. A caller's weight
  dictionary with extra keys would add those values to the source's `sum(weights.values())`, and
  that case is not modelled.
- Backtest.MovingAverageCrossoverBacktest: the `returns` column (`pct_change` of the total) is
  never read by the source, and is not modelled.
- Backtest.MovingAverageCrossoverBacktest: the ledger charges no purchase on row 0. `diff()`
  leaves row 0 as NaN and the row-wise sum turns it into 0, so a signal of 1 on row 0 holds a
  share that was never paid for (Backtest.MarkToMarket states this). With moving averages
  computed by `rolling(window=50)` and `rolling(window=200)`, row 0 has no average and the
  signal there is 0.
- Backtest.MovingAverageCrossoverBacktest: a zero initial capital gives `None` for the ROI where
  numpy produces an infinity or NaN.
- The web application, data download and preprocessing, plotting, CSV output and the
  fundamental-factor lookups are not part of this model. They are I/O and presentation around
  the engine.
