/**
 * The integer parts of the analytics chart (`analytics-chart.tsx`): the
 * largest plotted value, the column totals of the summary row and the
 * metric toggles of the legend.
 */
module AnalyticsChart {
  import opened Wrappers

  datatype ChartRow = ChartRow(date: string, sent: int, delivered: int, failed: int, read: int)

  datatype Metric = Sent | Delivered | Failed | Read

  function Value(row: ChartRow, m: Metric): int {
    match m
    case Sent => row.sent
    case Delivered => row.delivered
    case Failed => row.failed
    case Read => row.read
  }

  function Max(a: int, b: int): int {
    if a >= b then a else b
  }

  /** `Math.max(d.sent, d.delivered, d.failed, d.read)`: at least each field, and equal to one of them. */
  function RowMax(row: ChartRow): (r: int)
    ensures forall m: Metric :: Value(row, m) <= r
    ensures exists m: Metric :: Value(row, m) == r
  {
    var r := Max(Max(row.sent, row.delivered), Max(row.failed, row.read));
    assert Value(row, Sent) == r || Value(row, Delivered) == r || Value(row, Failed) == r || Value(row, Read) == r;
    r
  }

  /**
   * `maxValue`: `None` for no rows (where `Math.max()` is negative
   * infinity), otherwise a value no field of any row exceeds and which
   * some field of some row attains.
   */
  function MaxValue(data: seq<ChartRow>): (r: Option<int>)
    ensures r.None? <==> |data| == 0
    ensures r.Some? ==> forall i, m :: 0 <= i < |data| ==> Value(data[i], m) <= r.value
    ensures r.Some? ==> exists i, m :: 0 <= i < |data| && Value(data[i], m) == r.value
    decreases |data|
  {
    if |data| == 0 then None
    else
      var here := RowMax(data[0]);
      match MaxValue(data[1..])
      case None =>
        assert exists m :: Value(data[0], m) == here;
        Some(here)
      case Some(rest) =>
        var r := Max(here, rest);
        assert forall i, m :: 1 <= i < |data| ==> Value(data[i], m) == Value(data[1..][i - 1], m);
        if here >= rest then
          assert exists m :: Value(data[0], m) == r;
          Some(r)
        else
          var i, m :| 0 <= i < |data[1..]| && Value(data[1..][i], m) == rest;
          assert Value(data[i + 1], m) == r;
          Some(r)
  }

  /** `data.reduce((sum, item) => sum + item[m], 0)`, summed from the left. */
  function Total(data: seq<ChartRow>, m: Metric): (r: int)
    ensures (forall i :: 0 <= i < |data| ==> Value(data[i], m) >= 0) ==> r >= 0
    decreases |data|
  {
    if |data| == 0 then 0 else Total(data[..|data| - 1], m) + Value(data[|data| - 1], m)
  }

  /** The total over two runs of days is the sum of their totals. */
  lemma {:induction false} TotalAppend(a: seq<ChartRow>, b: seq<ChartRow>, m: Metric)
    ensures Total(a + b, m) == Total(a, m) + Total(b, m)
    decreases |b|
  {
    if |b| > 0 {
      var b' := b[..|b| - 1];
      assert (a + b)[..|a + b| - 1] == a + b';
      TotalAppend(a, b', m);
    } else {
      assert a + b == a;
    }
  }

  /** A column total is at most the number of rows times any bound on the column. */
  lemma {:induction false} TotalBelowBound(data: seq<ChartRow>, m: Metric, bound: int)
    requires forall i :: 0 <= i < |data| ==> Value(data[i], m) <= bound
    ensures Total(data, m) <= |data| * bound
    decreases |data|
  {
    if |data| > 0 {
      var init := data[..|data| - 1];
      TotalBelowBound(init, m, bound);
      assert |data| * bound == |init| * bound + bound;
    }
  }

  /** No column total exceeds the number of rows times the largest plotted value. */
  lemma TotalBelowMax(data: seq<ChartRow>, m: Metric)
    requires |data| > 0
    ensures Total(data, m) <= |data| * MaxValue(data).value
  {
    TotalBelowBound(data, m, MaxValue(data).value);
  }

  /** Which series the chart draws. */
  datatype ActiveMetrics = ActiveMetrics(sent: bool, delivered: bool, failed: bool, read: bool)

  function IsActive(a: ActiveMetrics, m: Metric): bool {
    match m
    case Sent => a.sent
    case Delivered => a.delivered
    case Failed => a.failed
    case Read => a.read
  }

  /** The chart starts with every series drawn. */
  const InitialMetrics := ActiveMetrics(true, true, true, true)

  lemma InitiallyAllActive(m: Metric)
    ensures IsActive(InitialMetrics, m)
  {
  }

  /** `toggleMetric(m)`: flips `m` and no other series. */
  function ToggleMetric(a: ActiveMetrics, m: Metric): (r: ActiveMetrics)
    ensures IsActive(r, m) == !IsActive(a, m)
    ensures forall n :: n != m ==> IsActive(r, n) == IsActive(a, n)
  {
    match m
    case Sent => a.(sent := !a.sent)
    case Delivered => a.(delivered := !a.delivered)
    case Failed => a.(failed := !a.failed)
    case Read => a.(read := !a.read)
  }

  /** Toggling a series twice restores the legend; toggles of different series commute. */
  lemma ToggleTwice(a: ActiveMetrics, m: Metric, n: Metric)
    ensures ToggleMetric(ToggleMetric(a, m), m) == a
    ensures ToggleMetric(ToggleMetric(a, m), n) == ToggleMetric(ToggleMetric(a, n), m)
  {
  }
}
