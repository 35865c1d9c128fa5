/** The six row-wise detectors. Each builds a boolean mask over the rows of a daily series and
    returns the dates of the rows it selects, in row order. */
module Indicators {
  import opened Series

  /** Trailing window of the volume average and of the breakout high. */
  const VolumeWindow: nat := 50
  const BreakoutWindow: nat := 50
  /** Default Bollinger window and band width (in standard deviations). */
  const BollingerWindow: nat := 20
  const BollingerStd: real := 2.0
  /** Default RSI oversold threshold and volume-spike multiplier. */
  const RsiThreshold: real := 30.0
  const VolumeThreshold: real := 2.0

  /** A daily price table: the date column, the price and volume columns and the per-symbol
      50-day and 200-day moving averages and RSI (NaN where not yet defined). `highMax` is the
      derived `high_max` column, absent until Breakouts writes it. */
  class Frame {
    var date: seq<Date>
    var high: seq<real>
    var close: seq<real>
    var volume: seq<real>
    var ma50: seq<Cell>
    var ma200: seq<Cell>
    var rsi: seq<Cell>
    var highMax: Option<seq<real>>

    ghost predicate Valid()
      reads this
    {
      |high| == |date| && |close| == |date| && |volume| == |date| &&
      |ma50| == |date| && |ma200| == |date| && |rsi| == |date|
    }

    constructor (date: seq<Date>, high: seq<real>, close: seq<real>, volume: seq<real>,
                 ma50: seq<Cell>, ma200: seq<Cell>, rsi: seq<Cell>)
      requires |high| == |date| && |close| == |date| && |volume| == |date|
      requires |ma50| == |date| && |ma200| == |date| && |rsi| == |date|
      ensures Valid()
      ensures this.date == date && this.high == high && this.close == close
      ensures this.volume == volume && this.ma50 == ma50 && this.ma200 == ma200 && this.rsi == rsi
      ensures highMax == None
    {
      this.date, this.high, this.close, this.volume := date, high, close, volume;
      this.ma50, this.ma200, this.rsi := ma50, ma200, rsi;
      highMax := None;
    }
  }

  /** Row i of the moving-average detector: the 50-day average is strictly above the 200-day
      average today and was strictly below it yesterday. */
  predicate MaCrossAt(ma50: seq<Cell>, ma200: seq<Cell>, i: int)
    requires |ma50| == |ma200|
  {
    1 <= i < |ma50| && Gt(ma50[i], ma200[i]) && Lt(ma50[i - 1], ma200[i - 1])
  }

  /** Dates where the 50-day average crosses strictly above the 200-day average. Equality
      yesterday, a missing average and row 0 never fire. */
  function MovingAverageCrossover(date: seq<Date>, ma50: seq<Cell>, ma200: seq<Cell>): (r: seq<Date>)
    requires |ma50| == |date| && |ma200| == |date|
    ensures forall i :: 0 <= i < |date| && MaCrossAt(ma50, ma200, i) ==> date[i] in r
    ensures forall d :: d in r ==> exists i :: 0 <= i < |date| && MaCrossAt(ma50, ma200, i) && date[i] == d
    ensures StrictlyIncreasing(date) ==> StrictlyIncreasing(r)
  {
    var m := CrossAbove(ma50, ma200);
    assert forall i :: 0 <= i < |date| ==> (m[i] <==> MaCrossAt(ma50, ma200, i));
    SelectOrdered(date, m);
    Select(date, m)
  }

  /** Row i of the RSI detector: the RSI is present and strictly below the threshold. */
  predicate OversoldAt(rsi: seq<Cell>, threshold: real, i: int) {
    0 <= i < |rsi| && rsi[i].Some? && rsi[i].value < threshold
  }

  /** Dates whose RSI is strictly below the threshold; every such day counts, runs included,
      and a missing RSI never does. */
  function RsiOversold(date: seq<Date>, rsi: seq<Cell>, threshold: real): (r: seq<Date>)
    requires |rsi| == |date|
    ensures forall i :: 0 <= i < |date| && OversoldAt(rsi, threshold, i) ==> date[i] in r
    ensures forall d :: d in r ==> exists i :: 0 <= i < |date| && OversoldAt(rsi, threshold, i) && date[i] == d
    ensures StrictlyIncreasing(date) ==> StrictlyIncreasing(r)
  {
    var m := LtCol(rsi, seq(|rsi|, _ => Some(threshold)));
    assert forall i :: 0 <= i < |date| ==> (m[i] <==> OversoldAt(rsi, threshold, i));
    SelectOrdered(date, m);
    Select(date, m)
  }

  /** Row i of the volume detector: the close rose from the previous row, and the volume
      exceeds `threshold` times the mean volume of the up to 50 rows ending at row i. */
  predicate SpikeAt(volume: seq<real>, close: seq<real>, threshold: real, i: int)
    requires |volume| == |close|
  {
    1 <= i < |close| && close[i] > close[i - 1] &&
    volume[i] > SpikeLevel(volume, threshold, i)
  }

  /** `threshold` times the mean volume of the up to 50 rows ending at row i. */
  function SpikeLevel(volume: seq<real>, threshold: real, i: nat): real
    requires i < |volume|
  {
    threshold * TrailingMean(volume, i, VolumeWindow)
  }

  /** The volume mask `(volume > threshold * avg_volume) & (close > close.shift(1))`. */
  function SpikeMask(volume: seq<real>, close: seq<real>, threshold: real): (m: seq<bool>)
    requires |volume| == |close|
    ensures |m| == |close|
    ensures forall i :: 0 <= i < |close| ==> (m[i] <==> SpikeAt(volume, close, threshold, i))
  {
    var avg := RollingMeanPartial(volume, VolumeWindow);
    var c := Lift(close);
    var level := Scale(threshold, avg);
    assert forall i :: 0 <= i < |close| ==> level[i] == SpikeLevel(volume, threshold, i);
    var above := GtCol(Lift(volume), Lift(level));
    var rising := GtCol(c, Shift(c));
    assert forall i :: 0 <= i < |close| ==> (above[i] <==> volume[i] > level[i]);
    assert forall i :: 0 <= i < |close| ==> (rising[i] <==> 1 <= i && close[i] > close[i - 1]);
    And(above, rising)
  }

  /** Dates of volume spikes that coincide with a price gain. */
  function VolumeSpikes(date: seq<Date>, volume: seq<real>, close: seq<real>, threshold: real): (r: seq<Date>)
    requires |volume| == |date| && |close| == |date|
    ensures forall i :: 0 <= i < |date| && SpikeAt(volume, close, threshold, i) ==> date[i] in r
    ensures forall d :: d in r ==> exists i :: 0 <= i < |date| && SpikeAt(volume, close, threshold, i) && date[i] == d
    ensures StrictlyIncreasing(date) ==> StrictlyIncreasing(r)
  {
    var m := SpikeMask(volume, close, threshold);
    SelectOrdered(date, m);
    Select(date, m)
  }

  /** Row i of the breakout detector: the close beats the highest high of the up to 50 rows
      ending the day before. */
  predicate BreakoutAt(high: seq<real>, close: seq<real>, i: int)
    requires |high| == |close|
  {
    1 <= i < |close| && close[i] > Max(high[WindowStart(i - 1, BreakoutWindow)..i])
  }

  /** Breakout dates; the rolling maximum is shifted one row, so row 0 never fires. */
  function BreakoutDates(date: seq<Date>, high: seq<real>, close: seq<real>): (r: seq<Date>)
    requires |high| == |date| && |close| == |date|
    ensures forall i :: 0 <= i < |date| && BreakoutAt(high, close, i) ==> date[i] in r
    ensures forall d :: d in r ==> exists i :: 0 <= i < |date| && BreakoutAt(high, close, i) && date[i] == d
    ensures StrictlyIncreasing(date) ==> StrictlyIncreasing(r)
  {
    var hm := RollingMaxPartial(high, BreakoutWindow);
    var m := GtCol(Lift(close), Shift(Lift(hm)));
    assert forall i :: 0 <= i < |date| ==> (m[i] <==> BreakoutAt(high, close, i)) by {
      forall i | 0 <= i < |date| ensures m[i] <==> BreakoutAt(high, close, i) {
        if i >= 1 {
          assert hm[i - 1] == Max(high[WindowStart(i - 1, BreakoutWindow)..i]);
        }
      }
    }
    SelectOrdered(date, m);
    Select(date, m)
  }

  /** `breakouts`: writes (or overwrites) the caller's `high_max` column with the 50-row rolling
      maximum of `high`, changes no other column, and returns the breakout dates. */
  method Breakouts(data: Frame) returns (r: seq<Date>)
    requires data.Valid()
    modifies data`highMax
    ensures data.highMax == Some(RollingMaxPartial(data.high, BreakoutWindow))
    ensures r == BreakoutDates(data.date, data.high, data.close)
  {
    data.highMax := Some(RollingMaxPartial(data.high, BreakoutWindow));
    var breakout := GtCol(Lift(data.close), Shift(Lift(data.highMax.value)));
    r := Select(data.date, breakout);
  }

  /** The lower Bollinger band: the `window`-row rolling mean minus `numStd` rolling standard
      deviations, missing wherever either is. */
  function LowerBand(close: seq<real>, std: seq<Cell>, window: nat, numStd: real): (lower: seq<Cell>)
    requires |std| == |close| && window >= 1
    ensures |lower| == |close|
    ensures forall i :: 0 <= i < |close| ==> (lower[i].Some? <==> i + 1 >= window && std[i].Some?)
  {
    var mean := RollingMean(close, window);
    seq(|close|, i requires 0 <= i < |close| =>
      if mean[i].Some? && std[i].Some? then Some(mean[i].value - std[i].value * numStd) else None)
  }

  /** The upper Bollinger band, `numStd` rolling standard deviations above the rolling mean. */
  function UpperBand(close: seq<real>, std: seq<Cell>, window: nat, numStd: real): (upper: seq<Cell>)
    requires |std| == |close| && window >= 1
    ensures |upper| == |close|
    ensures forall i :: 0 <= i < |close| ==> (upper[i].Some? <==> i + 1 >= window && std[i].Some?)
  {
    var mean := RollingMean(close, window);
    seq(|close|, i requires 0 <= i < |close| =>
      if mean[i].Some? && std[i].Some? then Some(mean[i].value + std[i].value * numStd) else None)
  }

  /** Row i of a close-over-line detector: the close is strictly above the line today and was
      strictly below it yesterday. */
  predicate CloseCrossAt(close: seq<real>, line: seq<Cell>, i: int)
    requires |line| == |close|
  {
    1 <= i < |close| && Gt(Some(close[i]), line[i]) && Lt(Some(close[i - 1]), line[i - 1])
  }

  /** The Bollinger detector's outputs: the signal dates and the two bands. */
  datatype Bands = Bands(signals: seq<Date>, upper: seq<Cell>, lower: seq<Cell>)

  /** Bollinger signals where the close crosses strictly above the lower band, with the bands.
      No signal fires before row `window`, the first row whose previous row has a band. */
  function BollingerBands(date: seq<Date>, close: seq<real>, std: seq<Cell>, window: nat, numStd: real): (r: Bands)
    requires |close| == |date| && |std| == |date|
    requires window >= 1
    ensures r.upper == UpperBand(close, std, window, numStd) && r.lower == LowerBand(close, std, window, numStd)
    ensures forall i :: 0 <= i < |date| && CloseCrossAt(close, r.lower, i) ==> date[i] in r.signals
    ensures forall d :: d in r.signals ==>
      exists i :: window <= i < |date| && CloseCrossAt(close, r.lower, i) && date[i] == d
    ensures StrictlyIncreasing(date) ==> StrictlyIncreasing(r.signals)
  {
    var lower := LowerBand(close, std, window, numStd);
    var m := CrossAbove(Lift(close), lower);
    assert forall i :: 0 <= i < |date| ==> (m[i] <==> CloseCrossAt(close, lower, i));
    SelectOrdered(date, m);
    Bands(Select(date, m), UpperBand(close, std, window, numStd), lower)
  }

  /** Dates where the close crosses strictly above the supplied exponential moving average. */
  function ExponentialMovingAverage(date: seq<Date>, close: seq<real>, ema: seq<real>): (r: seq<Date>)
    requires |close| == |date| && |ema| == |date|
    ensures forall i :: 0 <= i < |date| && CloseCrossAt(close, Lift(ema), i) ==> date[i] in r
    ensures forall d :: d in r ==> exists i :: 0 <= i < |date| && CloseCrossAt(close, Lift(ema), i) && date[i] == d
    ensures StrictlyIncreasing(date) ==> StrictlyIncreasing(r)
  {
    var line := Lift(ema);
    var m := CrossAbove(Lift(close), line);
    assert forall i :: 0 <= i < |date| ==> (m[i] <==> CloseCrossAt(close, line, i));
    SelectOrdered(date, m);
    Select(date, m)
  }

  /** On a series with unique dates, none of the edge detectors can report the first date. */
  lemma FirstRowNeverFires(date: seq<Date>, ma50: seq<Cell>, ma200: seq<Cell>, high: seq<real>,
                           close: seq<real>, volume: seq<real>, ema: seq<real>, threshold: real)
    requires StrictlyIncreasing(date) && |date| > 0
    requires |ma50| == |date| && |ma200| == |date| && |high| == |date|
    requires |close| == |date| && |volume| == |date| && |ema| == |date|
    ensures date[0] !in MovingAverageCrossover(date, ma50, ma200)
    ensures date[0] !in VolumeSpikes(date, volume, close, threshold)
    ensures date[0] !in BreakoutDates(date, high, close)
    ensures date[0] !in ExponentialMovingAverage(date, close, ema)
  {
  }
}
