/** Column-level building blocks shared by the detectors: pandas cells that may hold NaN,
    the one-row `shift`, boolean masks and the selection of the dates a mask picks out. */
module Series {

  datatype Option<T> = None | Some(value: T)

  datatype Result<T, E> = Ok(value: T) | Err(error: E)

  /** A calendar day, as a day number. */
  type Date = int

  /** One entry of a numeric column; `None` stands for pandas' NaN. */
  type Cell = Option<real>

  /** `a > b` on cells: a comparison with NaN is false. */
  predicate Gt(a: Cell, b: Cell) {
    a.Some? && b.Some? && a.value > b.value
  }

  /** `a < b` on cells: a comparison with NaN is false. */
  predicate Lt(a: Cell, b: Cell) {
    a.Some? && b.Some? && a.value < b.value
  }

  predicate StrictlyIncreasing(s: seq<int>) {
    forall i, j :: 0 <= i < j < |s| ==> s[i] < s[j]
  }

  /** A column without missing entries, seen as cells. */
  function Lift(s: seq<real>): (r: seq<Cell>)
    ensures |r| == |s|
    ensures forall i :: 0 <= i < |s| ==> r[i] == Some(s[i])
  {
    seq(|s|, i requires 0 <= i < |s| => Some(s[i]))
  }

  /** pandas `shift(1)`: every entry moves one row down and row 0 becomes NaN. */
  function Shift(s: seq<Cell>): (r: seq<Cell>)
    ensures |r| == |s|
    ensures |s| > 0 ==> r[0] == None
    ensures forall i :: 0 < i < |s| ==> r[i] == s[i - 1]
  {
    if |s| == 0 then [] else [None] + s[..|s| - 1]
  }

  /** Element-wise `a > b` of two columns. */
  function GtCol(a: seq<Cell>, b: seq<Cell>): (m: seq<bool>)
    requires |a| == |b|
    ensures |m| == |a|
    ensures forall i :: 0 <= i < |a| ==> m[i] == Gt(a[i], b[i])
  {
    seq(|a|, i requires 0 <= i < |a| => Gt(a[i], b[i]))
  }

  /** Element-wise `a < b` of two columns. */
  function LtCol(a: seq<Cell>, b: seq<Cell>): (m: seq<bool>)
    requires |a| == |b|
    ensures |m| == |a|
    ensures forall i :: 0 <= i < |a| ==> m[i] == Lt(a[i], b[i])
  {
    seq(|a|, i requires 0 <= i < |a| => Lt(a[i], b[i]))
  }

  /** The mask operator `&`. */
  function And(m1: seq<bool>, m2: seq<bool>): (m: seq<bool>)
    requires |m1| == |m2|
    ensures |m| == |m1|
    ensures forall i :: 0 <= i < |m1| ==> m[i] == (m1[i] && m2[i])
  {
    seq(|m1|, i requires 0 <= i < |m1| => m1[i] && m2[i])
  }

  /** The upward-cross mask `(x > line) & (x.shift(1) < line.shift(1))`, shared by the
      moving-average, Bollinger and EMA detectors. It fires at row i exactly when x is
      above the line there and was strictly below it the row before; row 0 never fires. */
  function CrossAbove(x: seq<Cell>, line: seq<Cell>): (m: seq<bool>)
    requires |x| == |line|
    ensures |m| == |x|
    ensures forall i :: 0 <= i < |x| ==>
      (m[i] <==> 1 <= i && Gt(x[i], line[i]) && Lt(x[i - 1], line[i - 1]))
  {
    And(GtCol(x, line), LtCol(Shift(x), Shift(line)))
  }

  /** `data.loc[mask, 'date'].tolist()`: the dates of the rows the mask selects, in row order.
      Every selected row's date is in the result and every date of the result comes from a
      selected row. */
  function Select(dates: seq<Date>, mask: seq<bool>): (r: seq<Date>)
    requires |mask| == |dates|
    ensures |r| <= |dates|
    ensures forall i :: 0 <= i < |dates| && mask[i] ==> dates[i] in r
    ensures forall d :: d in r ==> exists i :: 0 <= i < |dates| && mask[i] && dates[i] == d
    decreases |dates|
  {
    if |dates| == 0 then []
    else
      var rest := Select(dates[1..], mask[1..]);
      assert forall i :: 1 <= i < |dates| ==> dates[i] == dates[1..][i - 1] && mask[i] == mask[1..][i - 1];
      (if mask[0] then [dates[0]] else []) + rest
  }

  /** Every date Select returns lies at or after the first row's date. */
  lemma {:induction false} SelectFrom(dates: seq<Date>, mask: seq<bool>)
    requires |mask| == |dates|
    requires StrictlyIncreasing(dates)
    ensures forall d :: d in Select(dates, mask) ==> dates[0] <= d
  {
    forall d | d in Select(dates, mask) ensures dates[0] <= d {
      var i :| 0 <= i < |dates| && mask[i] && dates[i] == d;
    }
  }

  /** On a date column without repeats, Select keeps exactly the masked rows. */
  lemma {:induction false} SelectExactly(dates: seq<Date>, mask: seq<bool>)
    requires |mask| == |dates|
    requires StrictlyIncreasing(dates)
    ensures forall i :: 0 <= i < |dates| ==> (dates[i] in Select(dates, mask) <==> mask[i])
  {
    forall i | 0 <= i < |dates| && dates[i] in Select(dates, mask) ensures mask[i] {
      var k :| 0 <= k < |dates| && mask[k] && dates[k] == dates[i];
      assert k == i;
    }
  }

  /** On an increasing date column, Select returns its dates in increasing order. */
  lemma {:induction false} SelectOrdered(dates: seq<Date>, mask: seq<bool>)
    requires |mask| == |dates|
    ensures StrictlyIncreasing(dates) ==> StrictlyIncreasing(Select(dates, mask))
    decreases |dates|
  {
    if |dates| > 0 && StrictlyIncreasing(dates) {
      var tail, tmask := dates[1..], mask[1..];
      SelectOrdered(tail, tmask);
      var rest := Select(tail, tmask);
      var r := Select(dates, mask);
      assert r == (if mask[0] then [dates[0]] else []) + rest;
      if mask[0] && |rest| > 0 {
        SelectFrom(tail, tmask);
        assert dates[0] < tail[0];
        forall j | 0 <= j < |rest| ensures dates[0] < rest[j] {
          assert rest[j] in rest;
        }
        forall i, j | 0 <= i < j < |r| ensures r[i] < r[j] {
          assert r[j] == rest[j - 1];
          if i > 0 { assert r[i] == rest[i - 1]; }
        }
      }
    }
  }

  function Sum(s: seq<real>): real {
    if |s| == 0 then 0.0 else Sum(s[..|s| - 1]) + s[|s| - 1]
  }

  /** The arithmetic mean of a non-empty window. */
  function Mean(s: seq<real>): real
    requires |s| > 0
  {
    Sum(s) / (|s| as real)
  }

  /** The largest entry of a non-empty window. */
  function Max(s: seq<real>): (m: real)
    requires |s| > 0
    ensures m in s
    ensures forall k :: 0 <= k < |s| ==> s[k] <= m
  {
    if |s| == 1 then s[0]
    else
      var m' := Max(s[..|s| - 1]);
      assert forall k :: 0 <= k < |s| - 1 ==> s[k] == s[..|s| - 1][k];
      if s[|s| - 1] > m' then s[|s| - 1] else m'
  }

  /** The smallest entry of a non-empty window (numpy's `.min()`). */
  function Min(s: seq<real>): (m: real)
    requires |s| > 0
    ensures m in s
    ensures forall k :: 0 <= k < |s| ==> m <= s[k]
  {
    if |s| == 1 then s[0]
    else
      var m' := Min(s[..|s| - 1]);
      assert forall k :: 0 <= k < |s| - 1 ==> s[k] == s[..|s| - 1][k];
      if s[|s| - 1] < m' then s[|s| - 1] else m'
  }

  /** `k * s`, entry by entry. */
  function Scale(k: real, s: seq<real>): (r: seq<real>)
    ensures |r| == |s|
    ensures forall i :: 0 <= i < |s| ==> r[i] == k * s[i]
  {
    seq(|s|, i requires 0 <= i < |s| => k * s[i])
  }

  /** The first row of a trailing window of `w` rows ending at row i, clipped at row 0. */
  function WindowStart(i: nat, w: nat): nat {
    if i + 1 >= w then i + 1 - w else 0
  }

  /** The mean of the up to `w` rows of `s` ending at row i. */
  function TrailingMean(s: seq<real>, i: nat, w: nat): real
    requires i < |s| && w >= 1
  {
    Mean(s[WindowStart(i, w)..i + 1])
  }

  /** `rolling(window=w, min_periods=1).mean()`: the mean of the up to `w` rows ending at row i. */
  function RollingMeanPartial(s: seq<real>, w: nat): (r: seq<real>)
    requires w >= 1
    ensures |r| == |s|
    ensures forall i :: 0 <= i < |s| ==> r[i] == TrailingMean(s, i, w)
  {
    seq(|s|, i requires 0 <= i < |s| => TrailingMean(s, i, w))
  }

  /** `rolling(window=w, min_periods=1).max()`: the largest of the up to `w` rows ending at row i. */
  function RollingMaxPartial(s: seq<real>, w: nat): (r: seq<real>)
    requires w >= 1
    ensures |r| == |s|
    ensures forall i :: 0 <= i < |s| ==> r[i] in s[WindowStart(i, w)..i + 1]
    ensures forall i, k :: 0 <= i < |s| && WindowStart(i, w) <= k <= i ==> s[k] <= r[i]
  {
    seq(|s|, i requires 0 <= i < |s| => Max(s[WindowStart(i, w)..i + 1]))
  }

  /** `rolling(window=w).mean()`: NaN until a full window of `w` rows is available. */
  function RollingMean(s: seq<real>, w: nat): (r: seq<Cell>)
    requires w >= 1
    ensures |r| == |s|
    ensures forall i :: 0 <= i < |s| ==> (r[i].Some? <==> i + 1 >= w)
  {
    seq(|s|, i requires 0 <= i < |s| => if i + 1 >= w then Some(Mean(s[i + 1 - w..i + 1])) else None)
  }
}
