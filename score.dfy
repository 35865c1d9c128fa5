/** The score aggregator: runs the nine detectors, gives each indicator its weight when one of
    its dates falls inside the trailing window ending at "now", normalises by the sum of the
    weights, and returns the sorted dates of the indicators that scored. */
module Score {
  import opened Series
  import Indicators
  import Patterns

  datatype Indicator =
    | MaCross | RsiLow | VolumeSpike | Breakout | BollingerCross
    | EmaCross | CupAndHandle | AscendingTriangle | InverseHeadAndShoulders

  /** The nine indicators, in the order the aggregator visits them. */
  const AllIndicators: seq<Indicator> := [
    MaCross, RsiLow, VolumeSpike, Breakout, BollingerCross,
    EmaCross, CupAndHandle, AscendingTriangle, InverseHeadAndShoulders]

  type Weights = map<Indicator, real>

  datatype ScoreError =
    | MissingWeight(indicator: Indicator)  // a firing indicator without a weight
    | ZeroWeightSum                        // the weights add up to zero

  /** The aggregator's result: the normalised score, each indicator's contribution and the
      sorted dates of the indicators that scored. */
  datatype ScoreReport = ScoreReport(overall: real, individual: map<Indicator, real>, dates: seq<Date>)

  datatype Advice = Trade | DontTrade

  /** Weight 1 for every indicator, used when the caller supplies no weights. */
  function DefaultWeights(): (w: Weights)
    ensures forall s :: s in AllIndicators ==> s in w && w[s] == 1.0
  {
    map s: Indicator | s in AllIndicators :: 1.0
  }

  function EffectiveWeights(weights: Option<Weights>): Weights {
    if weights.None? then DefaultWeights() else weights.value
  }

  /** An indicator's weight, or 0 when the map has none for it. */
  function Weight(w: Weights, s: Indicator): real {
    if s in w then w[s] else 0.0
  }

  /** Every indicator has its list of dates. */
  predicate HasAllSignals(signals: map<Indicator, seq<Date>>) {
    forall s: Indicator :: s in signals
  }

  /** A date counts when `now - d <= days`; "now" carries the time of day, so it is a real
      day number, and future dates count too. */
  predicate InWindow(now: real, days: int, d: Date) {
    now - d as real <= days as real
  }

  /** An indicator fires when one of its dates lies inside the window. */
  predicate Fires(dates: seq<Date>, now: real, days: int) {
    exists d :: d in dates && InWindow(now, days, d)
  }

  /** The weight is looked up only for in-window dates, so a missing weight fails the
      aggregator only for an indicator that fires. */
  predicate MissesWeight(signals: map<Indicator, seq<Date>>, now: real, days: int, w: Weights, s: Indicator)
    requires s in signals
  {
    s !in w && Fires(signals[s], now, days)
  }

  /** `s` is the first indicator, in visiting order, that fires without a weight. */
  predicate FirstMissing(signals: map<Indicator, seq<Date>>, now: real, days: int, w: Weights, s: Indicator)
    requires HasAllSignals(signals)
  {
    exists k :: 0 <= k < |AllIndicators| && AllIndicators[k] == s && MissesWeight(signals, now, days, w, s) &&
      forall j :: 0 <= j < k ==> !MissesWeight(signals, now, days, w, AllIndicators[j])
  }

  /** `sum([w if now - d <= days else 0 for d in dates])`. */
  function WindowSum(dates: seq<Date>, now: real, days: int, w: real): real {
    if |dates| == 0 then 0.0
    else WindowSum(dates[..|dates| - 1], now, days, w) + (if InWindow(now, days, dates[|dates| - 1]) then w else 0.0)
  }

  /** The number of dates inside the window. */
  function CountInWindow(dates: seq<Date>, now: real, days: int): nat {
    if |dates| == 0 then 0
    else CountInWindow(dates[..|dates| - 1], now, days) + (if InWindow(now, days, dates[|dates| - 1]) then 1 else 0)
  }

  /** An indicator contributes its full weight when its window sum is non-zero, else nothing. */
  function Contribution(dates: seq<Date>, now: real, days: int, w: real): real {
    if WindowSum(dates, now, days, w) != 0.0 then w else 0.0
  }

  /** The aggregator's per-indicator list sum, which looks the weight of `s` up only for an
      in-window date: without a weight it fails exactly when a date lies in the window, and
      otherwise it is the window sum, 0 for an indicator without a weight. */
  function WindowScore(dates: seq<Date>, now: real, days: int, w: Weights, s: Indicator): (r: Result<real, ScoreError>)
    ensures r.Err? <==> s !in w && Fires(dates, now, days)
    ensures r.Err? ==> r.error == MissingWeight(s)
    ensures r.Ok? ==> r.value == WindowSum(dates, now, days, Weight(w, s))
    ensures r.Ok? && r.value != 0.0 ==> s in w
  {
    if |dates| == 0 then Ok(0.0)
    else
      var init, last := dates[..|dates| - 1], dates[|dates| - 1];
      assert forall d :: d in dates <==> d in init || d == last;
      var rest := WindowScore(init, now, days, w, s);
      if rest.Err? then rest
      else if !InWindow(now, days, last) then rest
      else if s in w then Ok(rest.value + w[s])
      else Err(MissingWeight(s))
  }

  /** The window sum is the weight times the number of in-window dates. */
  lemma {:induction false} WindowSumCounts(dates: seq<Date>, now: real, days: int, w: real)
    ensures WindowSum(dates, now, days, w) == w * CountInWindow(dates, now, days) as real
  {
    if |dates| > 0 {
      var init := dates[..|dates| - 1];
      WindowSumCounts(init, now, days, w);
      var c := CountInWindow(init, now, days) as real;
      assert w * c + w == w * (c + 1.0);
    }
  }

  /** At least one date is inside the window exactly when the in-window count is positive. */
  lemma {:induction false} CountPositiveIffFires(dates: seq<Date>, now: real, days: int)
    ensures CountInWindow(dates, now, days) > 0 <==> Fires(dates, now, days)
  {
    if |dates| > 0 {
      var init := dates[..|dates| - 1];
      var last := dates[|dates| - 1];
      CountPositiveIffFires(init, now, days);
      assert forall d :: d in dates <==> d in init || d == last;
    }
  }

  /** An indicator scores its weight exactly when the weight is non-zero and one of its dates,
      past or future, lies inside the window; otherwise it scores 0. */
  lemma ContributionIffFires(dates: seq<Date>, now: real, days: int, w: real)
    ensures Contribution(dates, now, days, w) == (if w != 0.0 && Fires(dates, now, days) then w else 0.0)
  {
    WindowSumCounts(dates, now, days, w);
    CountPositiveIffFires(dates, now, days);
  }

  /** An indicator without a weight whose dates all lie outside the window does not fail the
      aggregator: its list sum is 0 and it scores nothing. */
  lemma QuietUnweightedScoresZero(dates: seq<Date>, now: real, days: int, w: Weights, s: Indicator)
    requires s !in w && !Fires(dates, now, days)
    ensures WindowScore(dates, now, days, w, s) == Ok(0.0)
    ensures Contribution(dates, now, days, Weight(w, s)) == 0.0
  {
  }

  /** Dates outside the window never change an indicator's window sum. */
  lemma {:induction false} OutOfWindowIgnored(dates: seq<Date>, extra: seq<Date>, now: real, days: int, w: real)
    requires forall d :: d in extra ==> !InWindow(now, days, d)
    ensures WindowSum(dates + extra, now, days, w) == WindowSum(dates, now, days, w)
    ensures Contribution(dates + extra, now, days, w) == Contribution(dates, now, days, w)
  {
    if |extra| > 0 {
      var init := extra[..|extra| - 1];
      OutOfWindowIgnored(dates, init, now, days, w);
      assert (dates + extra)[..|dates + extra| - 1] == dates + init;
      assert extra[|extra| - 1] in extra;
    } else {
      assert dates + extra == dates;
    }
  }

  /** The sum of the weights of `inds`. */
  function WeightSum(inds: seq<Indicator>, w: Weights): real {
    if |inds| == 0 then 0.0 else WeightSum(inds[..|inds| - 1], w) + Weight(w, inds[|inds| - 1])
  }

  /** The sum of the contributions of `inds`. */
  function TotalContribution(inds: seq<Indicator>, signals: map<Indicator, seq<Date>>, now: real, days: int, w: Weights): real
    requires forall s :: s in inds ==> s in signals
  {
    if |inds| == 0 then 0.0
    else
      var s := inds[|inds| - 1];
      TotalContribution(inds[..|inds| - 1], signals, now, days, w) + Contribution(signals[s], now, days, Weight(w, s))
  }

  /** Each visited indicator mapped to its contribution. */
  function IndividualScores(inds: seq<Indicator>, signals: map<Indicator, seq<Date>>, now: real, days: int, w: Weights)
    : (m: map<Indicator, real>)
    requires forall s :: s in inds ==> s in signals
    ensures forall s :: s in m <==> s in inds
  {
    if |inds| == 0 then map[]
    else
      var s := inds[|inds| - 1];
      IndividualScores(inds[..|inds| - 1], signals, now, days, w)[s := Contribution(signals[s], now, days, Weight(w, s))]
  }

  /** Each visited indicator's entry is its own contribution: its weight (0 without one) when
      its window sum is non-zero, else 0. */
  lemma {:induction false} IndividualScoreIsContribution(inds: seq<Indicator>, signals: map<Indicator, seq<Date>>,
                                                         now: real, days: int, w: Weights)
    requires forall s :: s in inds ==> s in signals
    ensures forall s :: s in inds ==>
      IndividualScores(inds, signals, now, days, w)[s] == Contribution(signals[s], now, days, Weight(w, s))
  {
    if |inds| > 0 {
      var init, last := inds[..|inds| - 1], inds[|inds| - 1];
      assert forall x :: x in inds <==> x in init || x == last;
      IndividualScoreIsContribution(init, signals, now, days, w);
    }
  }

  /** All dates, in or out of the window, of the visited indicators whose window sum is non-zero. */
  function ScoredDates(inds: seq<Indicator>, signals: map<Indicator, seq<Date>>, now: real, days: int, w: Weights): seq<Date>
    requires forall s :: s in inds ==> s in signals
  {
    if |inds| == 0 then []
    else
      var s := inds[|inds| - 1];
      ScoredDates(inds[..|inds| - 1], signals, now, days, w) +
        (if WindowSum(signals[s], now, days, Weight(w, s)) != 0.0 then signals[s] else [])
  }

  predicate SortedDates(s: seq<Date>) {
    forall i, j :: 0 <= i < j < |s| ==> s[i] <= s[j]
  }

  /** Every entry of `r` is at least `b` when `r` holds `x >= b` and entries of `t`, all at least `b`. */
  lemma {:induction false} BoundedInsert(b: Date, x: Date, t: seq<Date>, r: seq<Date>)
    requires b <= x && forall k :: 0 <= k < |t| ==> b <= t[k]
    requires multiset(r) == multiset(t) + multiset{x}
    ensures forall k :: 0 <= k < |r| ==> b <= r[k]
  {
    forall k | 0 <= k < |r| ensures b <= r[k] {
      assert r[k] in multiset(r);
      if r[k] != x {
        assert r[k] in multiset(t);
        var j :| 0 <= j < |t| && t[j] == r[k];
      }
    }
  }

  /** Inserting into a sorted list keeps it sorted and adds exactly the new date. */
  function Insert(x: Date, s: seq<Date>): (r: seq<Date>)
    requires SortedDates(s)
    ensures SortedDates(r) && multiset(r) == multiset(s) + multiset{x}
  {
    if |s| == 0 then [x]
    else if x <= s[0] then [x] + s
    else
      var rest := Insert(x, s[1..]);
      assert s == [s[0]] + s[1..];
      BoundedInsert(s[0], x, s[1..], rest);
      [s[0]] + rest
  }

  /** Python's `sorted` on a list of dates: an ordered permutation. */
  function SortDates(s: seq<Date>): (r: seq<Date>)
    ensures SortedDates(r) && multiset(r) == multiset(s)
  {
    if |s| == 0 then []
    else
      assert s == s[..|s| - 1] + [s[|s| - 1]];
      Insert(s[|s| - 1], SortDates(s[..|s| - 1]))
  }

  /** The contract of the scoring loop, for the given detector outputs. When an indicator fires
      without a weight the loop fails on the first such indicator, in visiting order; weights
      that sum to zero fail the division; otherwise the score is the total contribution over
      the sum of the weights given, each indicator is mapped to its contribution (0 without a
      weight), and the dates are the sorted dates of the indicators that scored. */
  predicate Scored(signals: map<Indicator, seq<Date>>, now: real, days: int, weights: Option<Weights>,
                   r: Result<ScoreReport, ScoreError>)
    requires HasAllSignals(signals)
  {
    var w := EffectiveWeights(weights);
    if exists s :: s in AllIndicators && MissesWeight(signals, now, days, w, s) then
      r.Err? && r.error.MissingWeight? && FirstMissing(signals, now, days, w, r.error.indicator)
    else if WeightSum(AllIndicators, w) == 0.0 then
      r == Err(ZeroWeightSum)
    else
      r.Ok? &&
      r.value.overall == TotalContribution(AllIndicators, signals, now, days, w) / WeightSum(AllIndicators, w) &&
      r.value.individual == IndividualScores(AllIndicators, signals, now, days, w) &&
      SortedDates(r.value.dates) &&
      multiset(r.value.dates) == multiset(ScoredDates(AllIndicators, signals, now, days, w))
  }

  /** Visiting indicator k after the first k extends each accumulated value by that
      indicator's part. */
  lemma VisitStep(k: nat, signals: map<Indicator, seq<Date>>, now: real, days: int, w: Weights)
    requires k < |AllIndicators| && HasAllSignals(signals)
    ensures var prefix, s := AllIndicators[..k], AllIndicators[k];
      var scored := WindowSum(signals[s], now, days, Weight(w, s)) != 0.0;
      TotalContribution(AllIndicators[..k + 1], signals, now, days, w) ==
        TotalContribution(prefix, signals, now, days, w) + (if scored then Weight(w, s) else 0.0) &&
      IndividualScores(AllIndicators[..k + 1], signals, now, days, w) ==
        IndividualScores(prefix, signals, now, days, w)[s := if scored then Weight(w, s) else 0.0] &&
      ScoredDates(AllIndicators[..k + 1], signals, now, days, w) ==
        ScoredDates(prefix, signals, now, days, w) + (if scored then signals[s] else [])
  {
    assert AllIndicators[..k + 1][..k] == AllIndicators[..k];
  }

  /** None of the first k indicators, in visiting order, fires without a weight. */
  predicate NoneMissingBefore(k: nat, signals: map<Indicator, seq<Date>>, now: real, days: int, w: Weights)
    requires k <= |AllIndicators| && HasAllSignals(signals)
  {
    k == 0 || (NoneMissingBefore(k - 1, signals, now, days, w) && !MissesWeight(signals, now, days, w, AllIndicators[k - 1]))
  }

  lemma {:induction false} NoneMissingBeforeAll(k: nat, signals: map<Indicator, seq<Date>>, now: real, days: int, w: Weights)
    requires k <= |AllIndicators| && HasAllSignals(signals)
    requires NoneMissingBefore(k, signals, now, days, w)
    ensures forall j :: 0 <= j < k ==> !MissesWeight(signals, now, days, w, AllIndicators[j])
  {
    if k > 0 {
      NoneMissingBeforeAll(k - 1, signals, now, days, w);
    }
  }

  /** Failing on the first indicator, in visiting order, that fires without a weight meets
      the contract. */
  lemma ScoredOnMissing(k: nat, signals: map<Indicator, seq<Date>>, now: real, days: int, weights: Option<Weights>)
    requires k < |AllIndicators| && HasAllSignals(signals)
    requires NoneMissingBefore(k, signals, now, days, EffectiveWeights(weights))
    requires MissesWeight(signals, now, days, EffectiveWeights(weights), AllIndicators[k])
    ensures Scored(signals, now, days, weights, Err(MissingWeight(AllIndicators[k])))
  {
    var w := EffectiveWeights(weights);
    NoneMissingBeforeAll(k, signals, now, days, w);
    assert AllIndicators[k] in AllIndicators && MissesWeight(signals, now, days, w, AllIndicators[k]);
    assert FirstMissing(signals, now, days, w, AllIndicators[k]);
  }

  /** When no indicator fires without a weight, the accumulated values of all nine indicators
      meet the contract: a failed division on a zero weight sum, the normalised score otherwise. */
  lemma ScoredOnCompletion(signals: map<Indicator, seq<Date>>, now: real, days: int, weights: Option<Weights>)
    requires HasAllSignals(signals)
    requires NoneMissingBefore(|AllIndicators|, signals, now, days, EffectiveWeights(weights))
    ensures var w := EffectiveWeights(weights);
      var weightSum := WeightSum(AllIndicators, w);
      if weightSum == 0.0 then Scored(signals, now, days, weights, Err(ZeroWeightSum))
      else Scored(signals, now, days, weights,
        Ok(ScoreReport(TotalContribution(AllIndicators, signals, now, days, w) / weightSum,
                       IndividualScores(AllIndicators, signals, now, days, w),
                       SortDates(ScoredDates(AllIndicators, signals, now, days, w)))))
  {
    var w := EffectiveWeights(weights);
    NoneMissingBeforeAll(|AllIndicators|, signals, now, days, w);
    assert !exists s :: s in AllIndicators && MissesWeight(signals, now, days, w, s);
  }

  /** The loop of `calculate_score` over the nine detector outputs. */
  method ScoreSignals(signals: map<Indicator, seq<Date>>, now: real, days: int, weights: Option<Weights>)
    returns (r: Result<ScoreReport, ScoreError>)
    requires HasAllSignals(signals)
    ensures Scored(signals, now, days, weights, r)
  {
    var w := EffectiveWeights(weights);
    var overall := 0.0;
    var individual: map<Indicator, real> := map[];
    var signalDates: seq<Date> := [];
    for k := 0 to |AllIndicators|
      invariant NoneMissingBefore(k, signals, now, days, w)
      invariant overall == TotalContribution(AllIndicators[..k], signals, now, days, w)
      invariant individual == IndividualScores(AllIndicators[..k], signals, now, days, w)
      invariant signalDates == ScoredDates(AllIndicators[..k], signals, now, days, w)
    {
      var s := AllIndicators[k];
      var dates := signals[s];
      var score := WindowScore(dates, now, days, w, s);
      if score.Err? {
        ScoredOnMissing(k, signals, now, days, weights);
        return Err(score.error);
      }
      VisitStep(k, signals, now, days, w);
      if score.value != 0.0 {
        individual := individual[s := w[s]];
        signalDates := signalDates + dates;
      } else {
        individual := individual[s := 0.0];
      }
      overall := overall + individual[s];
    }
    assert AllIndicators[..|AllIndicators|] == AllIndicators;
    ScoredOnCompletion(signals, now, days, weights);
    var weightSum := WeightSum(AllIndicators, w);
    if weightSum == 0.0 {
      return Err(ZeroWeightSum);
    }
    r := Ok(ScoreReport(overall / weightSum, individual, SortDates(signalDates)));
  }

  /** The table of the nine detector outputs, keyed by indicator. */
  function SignalTable(crossover: seq<Date>, oversold: seq<Date>, spikes: seq<Date>, breakouts: seq<Date>,
                       bands: seq<Date>, ema: seq<Date>, cup: seq<Date>, triangle: seq<Date>,
                       shoulders: seq<Date>): (signals: map<Indicator, seq<Date>>)
    ensures HasAllSignals(signals)
  {
    var m := map[MaCross := crossover, RsiLow := oversold, VolumeSpike := spikes,
                 Breakout := breakouts, BollingerCross := bands, EmaCross := ema,
                 CupAndHandle := cup, AscendingTriangle := triangle, InverseHeadAndShoulders := shoulders];
    assert forall s: Indicator :: s in m by {
      forall s: Indicator ensures s in m {
        assert s.MaCross? || s.RsiLow? || s.VolumeSpike? || s.Breakout? || s.BollingerCross? || s.EmaCross? ||
          s.CupAndHandle? || s.AscendingTriangle? || s.InverseHeadAndShoulders?;
      }
    }
    m
  }

  /** The nine detector outputs the aggregator scores; the pattern detectors contribute their
      completion dates only. */
  function DetectorSignals(date: seq<Date>, high: seq<real>, close: seq<real>, volume: seq<real>,
                           ma50: seq<Cell>, ma200: seq<Cell>, rsi: seq<Cell>, bandStd: seq<Cell>,
                           ema: seq<real>, peaks: seq<nat>, valleys: seq<nat>,
                           threshold: real, rsiThreshold: real): (signals: map<Indicator, seq<Date>>)
    requires |high| == |date| && |close| == |date| && |volume| == |date|
    requires |ma50| == |date| && |ma200| == |date| && |rsi| == |date|
    requires |bandStd| == |date| && |ema| == |date|
    requires Patterns.ValidPeaks(peaks, |date|) && Patterns.ValidPeaks(valleys, |date|)
    ensures HasAllSignals(signals)
  {
    SignalTable(
      Indicators.MovingAverageCrossover(date, ma50, ma200),
      Indicators.RsiOversold(date, rsi, rsiThreshold),
      Indicators.VolumeSpikes(date, volume, close, threshold),
      Indicators.BreakoutDates(date, high, close),
      Indicators.BollingerBands(date, close, bandStd, Indicators.BollingerWindow, Indicators.BollingerStd).signals,
      Indicators.ExponentialMovingAverage(date, close, ema),
      Patterns.Completions(date, peaks, Patterns.Hits(Patterns.CupFlags(close, peaks), Patterns.WindowCount(peaks, 3)), 3),
      Patterns.Completions(date, peaks,
        Patterns.Hits(Patterns.TriangleFlags(close, peaks, valleys), Patterns.WindowCount(peaks, 2)), 2),
      Patterns.Completions(date, valleys,
        Patterns.Hits(Patterns.InverseHeadShouldersFlags(close, valleys), Patterns.WindowCount(valleys, 3)), 3))
  }

  /** `calculate_score`: runs the nine detectors on the frame (the breakout detector writes the
      frame's `high_max` column), then scores their outputs. `peaks` and `valleys` are the peak
      finder's maxima and minima of the close, `bandStd` the 20-row rolling standard deviation
      of the close and `ema` its 20-span exponential moving average. */
  method CalculateScore(data: Indicators.Frame, peaks: seq<nat>, valleys: seq<nat>, bandStd: seq<Cell>,
                        ema: seq<real>, now: real, days: int, threshold: real, rsiThreshold: real,
                        weights: Option<Weights>)
    returns (r: Result<ScoreReport, ScoreError>)
    requires data.Valid() && |bandStd| == |data.date| && |ema| == |data.date|
    requires Patterns.ValidPeaks(peaks, |data.date|) && Patterns.ValidPeaks(valleys, |data.date|)
    modifies data`highMax
    ensures data.highMax == Some(RollingMaxPartial(data.high, Indicators.BreakoutWindow))
    ensures Scored(DetectorSignals(data.date, data.high, data.close, data.volume, data.ma50, data.ma200,
                                   data.rsi, bandStd, ema, peaks, valleys, threshold, rsiThreshold),
                   now, days, weights, r)
  {
    var date, high, close, volume := data.date, data.high, data.close, data.volume;
    var ma50, ma200, rsi := data.ma50, data.ma200, data.rsi;
    var breakouts := Indicators.Breakouts(data);
    var cup, _ := Patterns.FindCupAndHandle(date, close, peaks);
    var triangle, _ := Patterns.FindAscendingTriangle(date, close, peaks, valleys);
    var shoulders, _ := Patterns.FindInverseHeadAndShoulders(date, close, valleys);
    var signals := SignalTable(
      Indicators.MovingAverageCrossover(date, ma50, ma200),
      Indicators.RsiOversold(date, rsi, rsiThreshold),
      Indicators.VolumeSpikes(date, volume, close, threshold),
      breakouts,
      Indicators.BollingerBands(date, close, bandStd, Indicators.BollingerWindow, Indicators.BollingerStd).signals,
      Indicators.ExponentialMovingAverage(date, close, ema),
      cup, triangle, shoulders);
    assert breakouts == Indicators.BreakoutDates(date, high, close);
    assert signals == DetectorSignals(date, high, close, volume, ma50, ma200, rsi, bandStd, ema, peaks, valleys,
                                      threshold, rsiThreshold);
    r := ScoreSignals(signals, now, days, weights);
  }

  /** The contributions of `inds` lie between 0 and their weight sum when weights are
      non-negative, and reach the weight sum exactly when every positively weighted indicator
      fires. */
  lemma {:induction false} TotalWithinWeights(inds: seq<Indicator>, signals: map<Indicator, seq<Date>>,
                                              now: real, days: int, w: Weights)
    requires forall s :: s in inds ==> s in signals && Weight(w, s) >= 0.0
    ensures 0.0 <= TotalContribution(inds, signals, now, days, w) <= WeightSum(inds, w)
    ensures TotalContribution(inds, signals, now, days, w) == WeightSum(inds, w) <==>
      forall s :: s in inds && Weight(w, s) > 0.0 ==> Fires(signals[s], now, days)
  {
    if |inds| > 0 {
      var init, s := inds[..|inds| - 1], inds[|inds| - 1];
      assert forall x :: x in inds <==> x in init || x == s;
      TotalWithinWeights(init, signals, now, days, w);
      ContributionIffFires(signals[s], now, days, Weight(w, s));
    }
  }

  /** With non-negative weights and a positive weight sum the score lies in [0, 1], and it is
      exactly 1 when, and only when, every positively weighted indicator fires in the window. */
  lemma OverallScoreBounds(signals: map<Indicator, seq<Date>>, now: real, days: int, w: Weights)
    requires HasAllSignals(signals)
    requires forall s :: s in w ==> w[s] >= 0.0
    requires WeightSum(AllIndicators, w) > 0.0
    ensures var score := TotalContribution(AllIndicators, signals, now, days, w) / WeightSum(AllIndicators, w);
      0.0 <= score <= 1.0 &&
      (score == 1.0 <==> forall s :: s in AllIndicators && Weight(w, s) > 0.0 ==> Fires(signals[s], now, days))
  {
    TotalWithinWeights(AllIndicators, signals, now, days, w);
    Fraction(TotalContribution(AllIndicators, signals, now, days, w), WeightSum(AllIndicators, w));
  }

  /** A part of a positive whole, over the whole, lies in [0, 1] and is 1 only for the whole. */
  lemma Fraction(part: real, whole: real)
    requires 0.0 <= part <= whole && whole > 0.0
    ensures 0.0 <= part / whole <= 1.0
    ensures part / whole == 1.0 <==> part == whole
  {
    assert (part / whole) * whole == part;
  }

  /** The number of indicators among `inds` that fire in the window. */
  function FiringCount(inds: seq<Indicator>, signals: map<Indicator, seq<Date>>, now: real, days: int): nat
    requires forall s :: s in inds ==> s in signals
  {
    if |inds| == 0 then 0
    else FiringCount(inds[..|inds| - 1], signals, now, days) + (if Fires(signals[inds[|inds| - 1]], now, days) then 1 else 0)
  }

  /** Under the default weights every indicator weighs 1, so the total contribution counts the
      indicators that fire and the weight sum counts the indicators. */
  lemma {:induction false} DefaultTotals(inds: seq<Indicator>, signals: map<Indicator, seq<Date>>, now: real, days: int)
    requires forall s :: s in inds ==> s in signals && s in AllIndicators
    ensures TotalContribution(inds, signals, now, days, DefaultWeights()) == FiringCount(inds, signals, now, days) as real
    ensures WeightSum(inds, DefaultWeights()) == |inds| as real
  {
    if |inds| > 0 {
      var init, s := inds[..|inds| - 1], inds[|inds| - 1];
      assert forall x :: x in init ==> x in inds;
      DefaultTotals(init, signals, now, days);
      ContributionIffFires(signals[s], now, days, 1.0);
    }
  }

  /** With no weights supplied the score is the fraction of the nine indicators that fire. */
  lemma DefaultScore(signals: map<Indicator, seq<Date>>, now: real, days: int)
    requires HasAllSignals(signals)
    ensures WeightSum(AllIndicators, EffectiveWeights(None)) == 9.0
    ensures TotalContribution(AllIndicators, signals, now, days, EffectiveWeights(None)) / 9.0 ==
      FiringCount(AllIndicators, signals, now, days) as real / 9.0
  {
    DefaultTotals(AllIndicators, signals, now, days);
  }

  /** The recommendation rule: trade only on a score strictly above one half. */
  function Recommend(score: real): (a: Advice)
    ensures a == Trade <==> score > 0.5
  {
    if score > 0.5 then Trade else DontTrade
  }

  /** Under the default weights the recommendation is to trade exactly when at least five of the
      nine indicators fire. */
  lemma DefaultRecommendation(signals: map<Indicator, seq<Date>>, now: real, days: int)
    requires HasAllSignals(signals)
    ensures var w := EffectiveWeights(None);
      WeightSum(AllIndicators, w) == 9.0 &&
      (Recommend(TotalContribution(AllIndicators, signals, now, days, w) / WeightSum(AllIndicators, w)) == Trade <==>
      FiringCount(AllIndicators, signals, now, days) >= 5)
  {
    DefaultScore(signals, now, days);
  }
}
