/** The numeric part of `create_bar_plot`: the y-axis range of a bar chart
    drawn from (label, total) rows. Drawing and PNG encoding are not part
    of this model. */
module Charts {
  import opened Records
  import opened Grouping

  /** The bars to draw and the y-axis range `[yBottom, yTop]`. */
  datatype Chart = Chart(bars: seq<Group<string>>, yBottom: int, yTop: int)

  /** The padded upper y-limit: `max + 5` when `max` is a multiple of 5,
      otherwise `max + max % 5`. Python's `%` and Dafny's agree for the
      positive divisor 5. The limit lies 1 to 5 above `max`, and it is a
      multiple of 5 exactly when `max` is, so it is not a round-up to the
      next multiple of 5 (12 gives 14). */
  function YLimit(max: int): (limit: int)
    ensures max < limit <= max + 5
    ensures limit % 5 == 0 <==> max % 5 == 0
  {
    max + (if max % 5 == 0 then 5 else max % 5)
  }

  lemma YLimitExamples()
    ensures YLimit(12) == 14 && YLimit(10) == 15 && YLimit(3) == 6 && YLimit(0) == 5
  {
  }

  /** The largest total among the bars. */
  function MaxTotal(bars: seq<Group<string>>): (m: nat)
    requires |bars| > 0
    ensures forall i :: 0 <= i < |bars| ==> bars[i].total <= m
    ensures exists i :: 0 <= i < |bars| && bars[i].total == m
  {
    if |bars| == 1 then bars[0].total
    else
      var rest := MaxTotal(bars[1..]);
      assert forall i :: 1 <= i < |bars| ==> bars[i] == bars[1..][i - 1];
      if bars[0].total >= rest then bars[0].total else rest
  }

  /** The chart of `bars`. An empty table has a NaN maximum, and setting a
      NaN axis limit fails. */
  function BarChart(bars: seq<Group<string>>): (r: Result<Chart>)
    ensures r.Err? <==> |bars| == 0
    ensures r.Err? ==> r.error == EmptyChart
    ensures r.Ok? ==> r.value.bars == bars && r.value.yBottom == 0
    ensures r.Ok? ==> r.value.yTop == YLimit(MaxTotal(bars))
    ensures r.Ok? ==> forall i :: 0 <= i < |bars| ==> bars[i].total < r.value.yTop
    ensures r.Ok? ==> exists i :: 0 <= i < |bars| && r.value.yTop <= bars[i].total + 5
  {
    if |bars| == 0 then Err(EmptyChart)
    else Ok(Chart(bars, 0, YLimit(MaxTotal(bars))))
  }
}
