/** `moving_average_crossover_backtest`: a held 0/1 signal (50-day average above the 200-day
    average) becomes a one-share position, a cash ledger and a mark-to-market total; every
    change of position is then classified against the same row's price change to give the
    accuracy, precision and recall of the strategy. */
module Backtest {
  import opened Series

  /** The confusion counts of the classified position changes: a buy before a rise is a true
      positive and a buy before a fall a false positive; a sell before a fall is a false
      negative and a sell before a rise a true negative. Rows from 1 on are counted, since
      row 0 has no position change. */
  datatype Counts = Counts(truePositive: nat, falsePositive: nat, falseNegative: nat, trueNegative: nat)

  datatype Report = Report(finalValue: real, roi: Option<real>, accuracy: real, precision: real, recall: real)

  datatype BacktestError = EmptySeries

  predicate Binary(s: seq<int>) {
    forall i :: 0 <= i < |s| ==> s[i] == 0 || s[i] == 1
  }

  /** The signal column: 1 on the rows where the 50-day average is above the 200-day average,
      0 elsewhere, including the rows where either average is still missing. */
  function Signal(ma50: seq<Cell>, ma200: seq<Cell>): (s: seq<int>)
    requires |ma50| == |ma200|
    ensures |s| == |ma50| && Binary(s)
    ensures forall i :: 0 <= i < |s| ==> (s[i] == 1 <==> Gt(ma50[i], ma200[i]))
  {
    seq(|ma50|, i requires 0 <= i < |ma50| => if Gt(ma50[i], ma200[i]) then 1 else 0)
  }

  /** `signal.diff()` at row i >= 1: +1 on a buy, -1 on a sell, 0 while the signal holds. */
  function Position(s: seq<int>, i: nat): (p: int)
    requires 1 <= i < |s|
    ensures Binary(s) ==> -1 <= p <= 1
    ensures Binary(s) ==> (p == 1 <==> s[i - 1] == 0 && s[i] == 1)
    ensures Binary(s) ==> (p == -1 <==> s[i - 1] == 1 && s[i] == 0)
  {
    s[i] - s[i - 1]
  }

  /** The cumulative cost of the position changes of rows 1..i. Row 0 has no difference, and
      its missing entry sums to nothing. */
  function Debits(s: seq<int>, close: seq<real>, i: nat): real
    requires |close| == |s| && i < |s|
  {
    if i == 0 then 0.0 else Debits(s, close, i - 1) + (Position(s, i) as real) * close[i]
  }

  /** The portfolio's `total` column at row i: cash left after the debits plus the value of
      the share held. */
  function Total(s: seq<int>, close: seq<real>, initial: real, i: nat): real
    requires |close| == |s| && i < |s|
  {
    (initial - Debits(s, close, i)) + (s[i] as real) * close[i]
  }

  /** What holding the signal's position earned from row 1 to row i: at every row the share
      held over the previous row gains the price change. */
  function Gains(s: seq<int>, close: seq<real>, i: nat): real
    requires |close| == |s| && i < |s|
  {
    if i == 0 then 0.0 else Gains(s, close, i - 1) + (s[i - 1] as real) * (close[i] - close[i - 1])
  }

  function Sign(x: real): int {
    if x > 0.0 then 1 else if x < 0.0 then -1 else 0
  }

  /** The sign of `pct_change` at a row: `(cur - prev) / prev`, which for `prev == 0` is an
      infinity of the sign of `cur`, or NaN (neither positive nor negative) when `cur` is 0
      too. */
  function PriceMove(prev: real, cur: real): int {
    if prev != 0.0 then Sign((cur - prev) / prev) else Sign(cur)
  }

  /** The classification of the rows 1..n-1 by the sign of `position * pct_change`. A buy (+1)
      on a rising price is a true positive and on a falling price a false positive; a sell
      (-1) on a falling price (a positive trade return) is a false negative and on a rising
      price a true negative. Rows without a position change or without a price move are not
      counted. */
  function Classify(s: seq<int>, close: seq<real>, n: nat): Counts
    requires |close| == |s| && n <= |s|
  {
    if n <= 1 then Counts(0, 0, 0, 0)
    else
      var c := Classify(s, close, n - 1);
      var p, m := Position(s, n - 1), PriceMove(close[n - 2], close[n - 1]);
      Counts(c.truePositive + (if p == 1 && m == 1 then 1 else 0),
             c.falsePositive + (if p == 1 && m == -1 then 1 else 0),
             c.falseNegative + (if p == -1 && m == -1 then 1 else 0),
             c.trueNegative + (if p == -1 && m == 1 then 1 else 0))
  }

  function Classified(c: Counts): nat {
    c.truePositive + c.falsePositive + c.falseNegative + c.trueNegative
  }

  /** The number of buys (+1) among rows 1..n-1. */
  function Entries(s: seq<int>, n: nat): nat
    requires n <= |s|
  {
    if n <= 1 then 0 else Entries(s, n - 1) + (if Position(s, n - 1) == 1 then 1 else 0)
  }

  /** The number of sells (-1) among rows 1..n-1. */
  function Exits(s: seq<int>, n: nat): nat
    requires n <= |s|
  {
    if n <= 1 then 0 else Exits(s, n - 1) + (if Position(s, n - 1) == -1 then 1 else 0)
  }

  /** A zero-guarded ratio of counts, `num / den if den > 0 else 0`. */
  function Ratio(num: nat, den: nat): (r: real)
    ensures den == 0 ==> r == 0.0
    ensures den > 0 ==> r * (den as real) == num as real
    ensures num <= den ==> 0.0 <= r <= 1.0
  {
    if den == 0 then 0.0 else (num as real) / (den as real)
  }

  /** `(final - initial) / initial`; a zero initial capital gives no finite ROI. */
  function Roi(finalValue: real, initial: real): (r: Option<real>)
    ensures r.Some? <==> initial != 0.0
    ensures r.Some? ==> r.value * initial == finalValue - initial
  {
    if initial == 0.0 then None else Some((finalValue - initial) / initial)
  }

  function Metrics(c: Counts, finalValue: real, initial: real): Report {
    Report(finalValue, Roi(finalValue, initial),
           Ratio(c.truePositive + c.trueNegative, Classified(c)),
           Ratio(c.truePositive, c.truePositive + c.falsePositive),
           Ratio(c.truePositive, c.truePositive + c.falseNegative))
  }

  /** The backtest's result on the whole series, from the specification functions. An empty
      series has no last row. */
  function BacktestResult(ma50: seq<Cell>, ma200: seq<Cell>, close: seq<real>, initial: real)
    : Result<Report, BacktestError>
    requires |ma50| == |close| && |ma200| == |close|
  {
    if |close| == 0 then Err(EmptySeries)
    else
      var s := Signal(ma50, ma200);
      Ok(Metrics(Classify(s, close, |close|), Total(s, close, initial, |close| - 1), initial))
  }

  /** The backtest, row by row: the signal, its difference, the cash ledger, the running total
      and the confusion counts, then the metrics of the last row. */
  method MovingAverageCrossoverBacktest(ma50: seq<Cell>, ma200: seq<Cell>, close: seq<real>, initial: real)
    returns (r: Result<Report, BacktestError>)
    requires |ma50| == |close| && |ma200| == |close|
    ensures r == BacktestResult(ma50, ma200, close, initial)
    ensures r.Err? <==> |close| == 0
  {
    var n := |close|;
    if n == 0 {
      return Err(EmptySeries);
    }
    ghost var s := Signal(ma50, ma200);
    var signal := if Gt(ma50[0], ma200[0]) then 1 else 0;
    var debits := 0.0;
    var total := initial + (signal as real) * close[0];
    var counts := Counts(0, 0, 0, 0);
    for i := 1 to n
      invariant signal == s[i - 1]
      invariant debits == Debits(s, close, i - 1)
      invariant total == Total(s, close, initial, i - 1)
      invariant counts == Classify(s, close, i)
    {
      var next := if Gt(ma50[i], ma200[i]) then 1 else 0;
      var position := next - signal;
      var move := PriceMove(close[i - 1], close[i]);
      assert next == s[i] && position == Position(s, i);
      debits := debits + (position as real) * close[i];
      total := (initial - debits) + (next as real) * close[i];
      counts := Counts(counts.truePositive + (if position == 1 && move == 1 then 1 else 0),
                       counts.falsePositive + (if position == 1 && move == -1 then 1 else 0),
                       counts.falseNegative + (if position == -1 && move == -1 then 1 else 0),
                       counts.trueNegative + (if position == -1 && move == 1 then 1 else 0));
      signal := next;
    }
    r := Ok(Metrics(counts, total, initial));
  }

  /** The ledger is self-financing from row 1 on: the total at row i is the initial capital,
      plus the value of the share held at row 0 (which the ledger never pays for), plus the
      price changes earned while holding. */
  lemma {:induction false} MarkToMarket(s: seq<int>, close: seq<real>, initial: real, i: nat)
    requires |close| == |s| && i < |s|
    ensures Total(s, close, initial, i) == initial + (s[0] as real) * close[0] + Gains(s, close, i)
  {
    if i > 0 {
      MarkToMarket(s, close, initial, i - 1);
      assert Debits(s, close, i) == Debits(s, close, i - 1) + ((s[i] - s[i - 1]) as real) * close[i];
      calc {
        Total(s, close, initial, i);
        (initial - Debits(s, close, i - 1)) - ((s[i] - s[i - 1]) as real) * close[i] + (s[i] as real) * close[i];
        { assert ((s[i] - s[i - 1]) as real) * close[i] == (s[i] as real) * close[i] - (s[i - 1] as real) * close[i]; }
        Total(s, close, initial, i - 1) + (s[i - 1] as real) * (close[i] - close[i - 1]);
      }
    }
  }

  /** A signal that never fires leaves the capital untouched. */
  lemma {:induction false} FlatLedger(s: seq<int>, close: seq<real>, initial: real, i: nat)
    requires |close| == |s| && i < |s|
    requires forall k :: 0 <= k < |s| ==> s[k] == 0
    ensures Debits(s, close, i) == 0.0 && Total(s, close, initial, i) == initial
    ensures Classify(s, close, i + 1) == Counts(0, 0, 0, 0)
  {
    if i > 0 {
      FlatLedger(s, close, initial, i - 1);
    }
  }

  /** Every classified row is a buy or a sell: true and false positives are buys, false and
      true negatives are sells. */
  lemma {:induction false} ClassifiedTrades(s: seq<int>, close: seq<real>, n: nat)
    requires |close| == |s| && n <= |s|
    ensures Classify(s, close, n).truePositive + Classify(s, close, n).falsePositive <= Entries(s, n)
    ensures Classify(s, close, n).falseNegative + Classify(s, close, n).trueNegative <= Exits(s, n)
  {
    if n > 1 {
      ClassifiedTrades(s, close, n - 1);
    }
  }

  /** Buys and sells of a 0/1 signal alternate: their difference is the net change of the
      signal from the first row to row n-1. */
  lemma {:induction false} EntriesExits(s: seq<int>, n: nat)
    requires Binary(s) && 1 <= n <= |s|
    ensures Entries(s, n) - Exits(s, n) == s[n - 1] - s[0]
  {
    if n > 1 {
      EntriesExits(s, n - 1);
    }
  }

  /** With a positive previous price the move is up exactly when the price rose and down
      exactly when it fell. */
  lemma PriceMoveDirection(prev: real, cur: real)
    requires prev > 0.0
    ensures PriceMove(prev, cur) == 1 <==> cur > prev
    ensures PriceMove(prev, cur) == -1 <==> cur < prev
  {
    var q := (cur - prev) / prev;
    assert q * prev == cur - prev;
    if cur > prev {
      assert q > 0.0;
    } else if cur < prev {
      assert q < 0.0;
    } else {
      assert q == 0.0;
    }
  }

  /** The reported metrics: an empty series is the only error; accuracy, precision and recall
      lie in [0, 1]; the ROI is defined exactly when the initial capital is not zero. */
  lemma MetricsBounded(ma50: seq<Cell>, ma200: seq<Cell>, close: seq<real>, initial: real)
    requires |ma50| == |close| && |ma200| == |close|
    ensures BacktestResult(ma50, ma200, close, initial).Err? <==> |close| == 0
    ensures BacktestResult(ma50, ma200, close, initial).Ok? ==>
      var rep := BacktestResult(ma50, ma200, close, initial).value;
      0.0 <= rep.accuracy <= 1.0 && 0.0 <= rep.precision <= 1.0 && 0.0 <= rep.recall <= 1.0 &&
      (rep.roi.Some? <==> initial != 0.0)
  {
  }

  /** When the 50-day average never rises above the 200-day average, nothing is traded: the
      final value is the initial capital, the ROI is 0 and all three metrics are 0. */
  lemma NoCrossoverNoTrade(ma50: seq<Cell>, ma200: seq<Cell>, close: seq<real>, initial: real)
    requires |ma50| == |close| && |ma200| == |close| && |close| > 0
    requires forall i :: 0 <= i < |close| ==> !Gt(ma50[i], ma200[i])
    ensures BacktestResult(ma50, ma200, close, initial) ==
      Ok(Report(initial, if initial == 0.0 then None else Some(0.0), 0.0, 0.0, 0.0))
  {
    var s := Signal(ma50, ma200);
    FlatLedger(s, close, initial, |close| - 1);
  }
}
