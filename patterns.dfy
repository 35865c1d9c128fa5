/** The three chart-pattern detectors. Each walks a list of peak (or valley) row indices,
    produced by a peak finder that is not part of this model, and appends a completion date
    and a start/end span for every window of consecutive peaks that matches. */
module Patterns {
  import opened Series

  /** A matched pattern's first and last date. */
  datatype Span = Span(start: Date, end: Date)

  /** What a peak finder returns: strictly increasing row indices of a series of `n` rows. */
  predicate ValidPeaks(peaks: seq<nat>, n: nat) {
    (forall i :: 0 <= i < |peaks| ==> peaks[i] < n) && StrictlyIncreasing(peaks)
  }

  /** `len(peaks) - k + 1` windows of k consecutive peaks, none when there are fewer than k. */
  function WindowCount(peaks: seq<nat>, k: nat): nat {
    if |peaks| + 1 >= k then |peaks| + 1 - k else 0
  }

  /** Cup and handle at the peak triple starting at position i: both outer peaks below the
      centre, the lowest close of the handle (centre up to the right peak) above the lowest
      close of the cup (left peak up to the centre), and the right peak within 5% of the centre. */
  predicate CupAt(close: seq<real>, peaks: seq<nat>, i: nat)
    requires ValidPeaks(peaks, |close|) && i + 2 < |peaks|
  {
    var l, c, r := peaks[i], peaks[i + 1], peaks[i + 2];
    close[l] < close[c] && close[r] < close[c] &&
    Min(close[c..r]) > Min(close[l..c]) && close[r] > close[c] * 0.95
  }

  /** Inverse head and shoulders at the valley triple starting at position i: the head is
      strictly below both shoulders. */
  predicate InverseHeadShouldersAt(close: seq<real>, valleys: seq<nat>, i: nat)
    requires ValidPeaks(valleys, |close|) && i + 2 < |valleys|
  {
    close[valleys[i]] > close[valleys[i + 1]] && close[valleys[i + 2]] > close[valleys[i + 1]]
  }

  /** `[t for t in troughs if left < t < right]`, in the troughs' order. */
  function Between(troughs: seq<nat>, left: nat, right: nat): (r: seq<nat>)
    ensures forall t :: t in r <==> t in troughs && left < t < right
    ensures forall j :: 0 <= j < |r| ==> left < r[j] < right
  {
    if |troughs| == 0 then []
    else
      var rest := Between(troughs[1..], left, right);
      assert forall x :: x in troughs <==> x == troughs[0] || x in troughs[1..];
      (if left < troughs[0] < right then [troughs[0]] else []) + rest
  }

  /** `min(ts, key=lambda x: close[x])`: the position of the lowest close among `ts`; on a tie
      the earliest position wins, as in a left-to-right scan that only replaces on a strictly
      lower close. */
  function FirstMinBy(close: seq<real>, ts: seq<nat>): (k: nat)
    requires |ts| > 0 && forall j :: 0 <= j < |ts| ==> ts[j] < |close|
    ensures k < |ts|
    ensures forall j :: 0 <= j < |ts| ==> close[ts[k]] <= close[ts[j]]
    ensures forall j :: 0 <= j < k ==> close[ts[k]] < close[ts[j]]
  {
    if |ts| == 1 then 0
    else
      var k' := FirstMinBy(close, ts[..|ts| - 1]);
      assert forall j :: 0 <= j < |ts| - 1 ==> ts[..|ts| - 1][j] == ts[j];
      if close[ts[|ts| - 1]] < close[ts[k']] then |ts| - 1 else k'
  }

  /** The lowest-closing trough strictly between two rows, `min(relevant, key=close)`, or
      nothing when no trough lies between them. */
  function LowestBetween(close: seq<real>, troughs: seq<nat>, left: nat, right: nat): (t: Option<nat>)
    requires ValidPeaks(troughs, |close|)
    ensures t.None? <==> forall u :: u in troughs ==> !(left < u < right)
    ensures t.Some? ==> t.value in troughs && left < t.value < right && t.value < |close|
    ensures t.Some? ==> forall u :: u in troughs && left < u < right ==> close[t.value] <= close[u]
  {
    var relevant := Between(troughs, left, right);
    if |relevant| == 0 then None
    else
      assert forall j :: 0 <= j < |relevant| ==> relevant[j] in troughs;
      var k := FirstMinBy(close, relevant);
      assert forall u :: u in troughs && left < u < right ==> close[relevant[k]] <= close[u] by {
        forall u | u in troughs && left < u < right ensures close[relevant[k]] <= close[u] {
          var j :| 0 <= j < |relevant| && relevant[j] == u;
        }
      }
      Some(relevant[k])
  }

  /** Ascending triangle at the peak pair starting at position i: some trough lies strictly
      between the two peaks, and the lowest of them closes above 95% of the left peak. */
  predicate TriangleAt(close: seq<real>, peaks: seq<nat>, troughs: seq<nat>, i: nat)
    requires ValidPeaks(peaks, |close|) && ValidPeaks(troughs, |close|) && i + 1 < |peaks|
  {
    var t := LowestBetween(close, troughs, peaks[i], peaks[i + 1]);
    t.Some? && close[t.value] > close[peaks[i]] * 0.95
  }

  /** The windows of the cup-and-handle test, one flag per peak triple. */
  function CupFlags(close: seq<real>, peaks: seq<nat>): (f: seq<bool>)
    requires ValidPeaks(peaks, |close|)
    ensures |f| == WindowCount(peaks, 3)
    ensures forall i: nat :: i < |f| ==> (f[i] <==> CupAt(close, peaks, i))
  {
    seq(WindowCount(peaks, 3), i requires 0 <= i < WindowCount(peaks, 3) => CupAt(close, peaks, i))
  }

  /** The windows of the inverse head-and-shoulders test, one flag per valley triple. */
  function InverseHeadShouldersFlags(close: seq<real>, valleys: seq<nat>): (f: seq<bool>)
    requires ValidPeaks(valleys, |close|)
    ensures |f| == WindowCount(valleys, 3)
    ensures forall i: nat :: i < |f| ==> (f[i] <==> InverseHeadShouldersAt(close, valleys, i))
  {
    seq(WindowCount(valleys, 3), i requires 0 <= i < WindowCount(valleys, 3) => InverseHeadShouldersAt(close, valleys, i))
  }

  /** The windows of the ascending-triangle test, one flag per peak pair. */
  function TriangleFlags(close: seq<real>, peaks: seq<nat>, troughs: seq<nat>): (f: seq<bool>)
    requires ValidPeaks(peaks, |close|) && ValidPeaks(troughs, |close|)
    ensures |f| == WindowCount(peaks, 2)
    ensures forall i: nat :: i < |f| ==> (f[i] <==> TriangleAt(close, peaks, troughs, i))
  {
    seq(WindowCount(peaks, 2), i requires 0 <= i < WindowCount(peaks, 2) => TriangleAt(close, peaks, troughs, i))
  }

  /** The positions i < k of the matching windows, in increasing order. */
  function Hits(flags: seq<bool>, k: nat): (r: seq<nat>)
    requires k <= |flags|
    ensures forall i: nat :: i in r <==> i < k && flags[i]
    ensures StrictlyIncreasing(r)
    ensures forall j :: 0 <= j < |r| ==> r[j] < k
  {
    if k == 0 then []
    else
      var rest := Hits(flags, k - 1);
      if flags[k - 1] then rest + [k - 1] else rest
  }

  /** The completion dates of the windows `hits` of `width` consecutive peaks: the date of each
      window's last peak, in the order of the hits. */
  function Completions(date: seq<Date>, peaks: seq<nat>, hits: seq<nat>, width: nat): (r: seq<Date>)
    requires ValidPeaks(peaks, |date|) && width >= 1
    requires forall j :: 0 <= j < |hits| ==> hits[j] + width <= |peaks|
    ensures |r| == |hits|
  {
    seq(|hits|, j requires 0 <= j < |hits| => date[peaks[hits[j] + width - 1]])
  }

  /** The outputs a pattern detector owes for the windows `hits` of `width` consecutive peaks:
      one completion date per hit, and one span per hit from its first to its last peak's
      date, both in the order of the hits. */
  predicate Emitted(date: seq<Date>, peaks: seq<nat>, hits: seq<nat>, width: nat,
                    patterns: seq<Date>, between: seq<Span>)
    requires ValidPeaks(peaks, |date|) && width >= 1
    requires forall j :: 0 <= j < |hits| ==> hits[j] + width <= |peaks|
  {
    patterns == Completions(date, peaks, hits, width) && |between| == |hits| &&
    forall j :: 0 <= j < |hits| ==> between[j] == Span(date[peaks[hits[j]]], date[peaks[hits[j] + width - 1]])
  }

  /** `find_cup_and_handle` on the supplied peaks. On a series with increasing dates every span
      starts strictly before it ends, ends on its completion date, and the completions follow
      the peak order. */
  method FindCupAndHandle(date: seq<Date>, close: seq<real>, peaks: seq<nat>)
    returns (patterns: seq<Date>, between: seq<Span>)
    requires |close| == |date| && ValidPeaks(peaks, |close|)
    ensures Emitted(date, peaks, Hits(CupFlags(close, peaks), WindowCount(peaks, 3)), 3, patterns, between)
    ensures forall j :: 0 <= j < |between| ==> between[j].end == patterns[j]
    ensures StrictlyIncreasing(date) ==> StrictlyIncreasing(patterns)
    ensures StrictlyIncreasing(date) ==> forall j :: 0 <= j < |between| ==> between[j].start < between[j].end
  {
    patterns, between := [], [];
    ghost var flags := CupFlags(close, peaks);
    for i := 0 to WindowCount(peaks, 3)
      invariant Emitted(date, peaks, Hits(flags, i), 3, patterns, between)
    {
      EmittedStep(date, peaks, flags, 3, i, patterns, between);
      var left, center, right := peaks[i], peaks[i + 1], peaks[i + 2];
      if close[left] < close[center] && close[right] < close[center] {
        var cupBottom := Min(close[left..center]);
        var handleBottom := Min(close[center..right]);
        if handleBottom > cupBottom && close[right] > close[center] * 0.95 {
          patterns := patterns + [date[right]];
          between := between + [Span(date[left], date[right])];
        }
      }
    }
    OutputOrdered(date, peaks, Hits(flags, WindowCount(peaks, 3)), 3, patterns, between);
  }

  /** `find_ascending_triangle` on the supplied peaks and troughs: peak pairs with no trough
      strictly between them are skipped. */
  method FindAscendingTriangle(date: seq<Date>, close: seq<real>, peaks: seq<nat>, troughs: seq<nat>)
    returns (patterns: seq<Date>, between: seq<Span>)
    requires |close| == |date| && ValidPeaks(peaks, |close|) && ValidPeaks(troughs, |close|)
    ensures Emitted(date, peaks, Hits(TriangleFlags(close, peaks, troughs), WindowCount(peaks, 2)), 2, patterns, between)
    ensures forall j :: 0 <= j < |between| ==> between[j].end == patterns[j]
    ensures StrictlyIncreasing(date) ==> StrictlyIncreasing(patterns)
    ensures StrictlyIncreasing(date) ==> forall j :: 0 <= j < |between| ==> between[j].start < between[j].end
  {
    patterns, between := [], [];
    ghost var flags := TriangleFlags(close, peaks, troughs);
    for i := 0 to WindowCount(peaks, 2)
      invariant Emitted(date, peaks, Hits(flags, i), 2, patterns, between)
    {
      EmittedStep(date, peaks, flags, 2, i, patterns, between);
      var left, right := peaks[i], peaks[i + 1];
      var relevant := Between(troughs, left, right);
      assert LowestBetween(close, troughs, left, right) ==
        if |relevant| == 0 then None else Some(relevant[FirstMinBy(close, relevant)]);
      if |relevant| == 0 {
        continue;
      }
      var minTrough := relevant[FirstMinBy(close, relevant)];
      if close[minTrough] > close[left] * 0.95 {
        patterns := patterns + [date[right]];
        between := between + [Span(date[left], date[right])];
      }
    }
    OutputOrdered(date, peaks, Hits(flags, WindowCount(peaks, 2)), 2, patterns, between);
  }

  /** `find_inverse_head_and_shoulders` on the supplied valleys. */
  method FindInverseHeadAndShoulders(date: seq<Date>, close: seq<real>, valleys: seq<nat>)
    returns (patterns: seq<Date>, between: seq<Span>)
    requires |close| == |date| && ValidPeaks(valleys, |close|)
    ensures Emitted(date, valleys, Hits(InverseHeadShouldersFlags(close, valleys), WindowCount(valleys, 3)), 3, patterns, between)
    ensures forall j :: 0 <= j < |between| ==> between[j].end == patterns[j]
    ensures StrictlyIncreasing(date) ==> StrictlyIncreasing(patterns)
    ensures StrictlyIncreasing(date) ==> forall j :: 0 <= j < |between| ==> between[j].start < between[j].end
  {
    patterns, between := [], [];
    ghost var flags := InverseHeadShouldersFlags(close, valleys);
    for i := 0 to WindowCount(valleys, 3)
      invariant Emitted(date, valleys, Hits(flags, i), 3, patterns, between)
    {
      EmittedStep(date, valleys, flags, 3, i, patterns, between);
      var leftShoulder, head, rightShoulder := valleys[i], valleys[i + 1], valleys[i + 2];
      if close[leftShoulder] > close[head] && close[rightShoulder] > close[head] {
        patterns := patterns + [date[rightShoulder]];
        between := between + [Span(date[leftShoulder], date[rightShoulder])];
      }
    }
    OutputOrdered(date, valleys, Hits(flags, WindowCount(valleys, 3)), 3, patterns, between);
  }

  /** One more window: a matching window appends its completion date and span to the outputs,
      any other leaves them as they are, and either way they stay in step with the hits. */
  lemma EmittedStep(date: seq<Date>, peaks: seq<nat>, flags: seq<bool>, width: nat, i: nat,
                    patterns: seq<Date>, between: seq<Span>)
    requires ValidPeaks(peaks, |date|) && width >= 1 && |flags| == WindowCount(peaks, width) && i < |flags|
    requires Emitted(date, peaks, Hits(flags, i), width, patterns, between)
    ensures flags[i] ==> Emitted(date, peaks, Hits(flags, i + 1), width, patterns + [date[peaks[i + width - 1]]],
                                 between + [Span(date[peaks[i]], date[peaks[i + width - 1]])])
    ensures !flags[i] ==> Emitted(date, peaks, Hits(flags, i + 1), width, patterns, between)
  {
    var hits := Hits(flags, i);
    assert Hits(flags, i + 1) == if flags[i] then hits + [i] else hits;
    if flags[i] {
      CompletionsAppend(date, peaks, hits, width, i);
    }
  }

  /** Completing one more window appends that window's completion date. */
  lemma CompletionsAppend(date: seq<Date>, peaks: seq<nat>, hits: seq<nat>, width: nat, i: nat)
    requires ValidPeaks(peaks, |date|) && width >= 1 && i + width <= |peaks|
    requires forall j :: 0 <= j < |hits| ==> hits[j] + width <= |peaks|
    ensures Completions(date, peaks, hits + [i], width) == Completions(date, peaks, hits, width) + [date[peaks[i + width - 1]]]
  {
    var before, after := Completions(date, peaks, hits, width), Completions(date, peaks, hits + [i], width);
    assert forall j :: 0 <= j < |before| ==> after[j] == before[j];
  }

  /** The emitted outputs of increasing hits on a series with increasing dates: completion
      dates strictly increase, and each span ends on its completion date after it starts. */
  lemma OutputOrdered(date: seq<Date>, peaks: seq<nat>, hits: seq<nat>, width: nat,
                      patterns: seq<Date>, between: seq<Span>)
    requires ValidPeaks(peaks, |date|) && width >= 2
    requires forall j :: 0 <= j < |hits| ==> hits[j] + width <= |peaks|
    requires StrictlyIncreasing(hits)
    requires Emitted(date, peaks, hits, width, patterns, between)
    ensures forall j :: 0 <= j < |between| ==> between[j].end == patterns[j]
    ensures StrictlyIncreasing(date) ==> StrictlyIncreasing(patterns)
    ensures StrictlyIncreasing(date) ==> forall j :: 0 <= j < |between| ==> between[j].start < between[j].end
  {
    if StrictlyIncreasing(date) {
      forall a, b | 0 <= a < b < |patterns| ensures patterns[a] < patterns[b] {
        assert peaks[hits[a] + width - 1] < peaks[hits[b] + width - 1];
      }
      forall j | 0 <= j < |between| ensures between[j].start < between[j].end {
        assert peaks[hits[j]] < peaks[hits[j] + width - 1];
      }
    }
  }

  /** The triangle test does not depend on which lowest trough is taken: it holds exactly when
      there is a trough strictly between the peaks and every such trough closes above 95% of
      the left peak. */
  lemma TriangleSupport(close: seq<real>, peaks: seq<nat>, troughs: seq<nat>, i: nat)
    requires ValidPeaks(peaks, |close|) && ValidPeaks(troughs, |close|) && i + 1 < |peaks|
    ensures TriangleAt(close, peaks, troughs, i) <==>
      (exists t :: t in troughs && peaks[i] < t < peaks[i + 1]) &&
      (forall t :: t in troughs && peaks[i] < t < peaks[i + 1] ==> close[t] > close[peaks[i]] * 0.95)
  {
  }
}
