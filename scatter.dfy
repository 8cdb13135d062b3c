/**
 * `create_scatter_plot`: one point per post, impressions against the
 * engagement rate as a percentage, with the summary and the click-through
 * rate shown on hover.
 */
module Scatter {
  import opened Optional
  import opened Stats
  import opened Table

  /** One plotted post; a missing value is `None` or `NaN` and leaves the point off that axis. */
  datatype Point = Point(impressions: Option<int>, engagement: Number, hover: string, ctr: Option<real>)

  /**
   * What `create_scatter_plot` produces: nothing without the impressions or
   * the engagement column; a `ValueError` from `px.scatter` when a column
   * named in `hover_data` is missing; otherwise one point per row.
   */
  datatype ScatterChart = NoScatter | ScatterError | ScatterPoints(points: seq<Point>)

  /** A float cell as pandas holds it: a missing value is `NaN`. */
  function AsNumber(v: Option<real>): (n: Number)
    ensures n.NaN? <==> v.None?
    ensures v.Some? ==> n.value == v.value
  {
    if v.Some? then Num(v.value) else NaN
  }

  function ScatterPlot(columns: seq<string>, rows: seq<Row>): (c: ScatterChart)
    ensures c.NoScatter? <==> Impressions !in columns || EngagementRate !in columns
    ensures c.ScatterError? <==>
      Impressions in columns && EngagementRate in columns && (SummaryColumn !in columns || ClickThroughRate !in columns)
    ensures c.ScatterPoints? ==> |c.points| == |rows|
    ensures c.ScatterPoints? ==> forall k :: 0 <= k < |rows| ==>
      && c.points[k].impressions == rows[k].impressions
      && c.points[k].engagement == Percent(AsNumber(rows[k].engagement))
      && c.points[k].hover == rows[k].summary
      && c.points[k].ctr == rows[k].ctr
  {
    if Impressions !in columns || EngagementRate !in columns then NoScatter
    else if SummaryColumn !in columns || ClickThroughRate !in columns then ScatterError
    else ScatterPoints(seq(|rows|, k requires 0 <= k < |rows| =>
      Point(rows[k].impressions, Percent(AsNumber(rows[k].engagement)), rows[k].summary, rows[k].ctr)))
  }

  /** A post with the higher engagement rate is plotted at least as high, and a post with a missing rate is not placed. */
  lemma ScatterKeepsOrder(columns: seq<string>, rows: seq<Row>, k: nat, l: nat)
    requires ScatterPlot(columns, rows).ScatterPoints?
    requires k < |rows| && l < |rows|
    ensures var p := ScatterPlot(columns, rows).points;
      && (p[k].engagement.NaN? <==> rows[k].engagement.None?)
      && (rows[k].engagement.Some? && rows[l].engagement.Some? ==>
            (rows[k].engagement.value <= rows[l].engagement.value <==> p[k].engagement.value <= p[l].engagement.value))
  {
    var p := ScatterPlot(columns, rows).points;
    if rows[k].engagement.Some? && rows[l].engagement.Some? {
      PercentKeepsOrder(AsNumber(rows[k].engagement), AsNumber(rows[l].engagement));
    }
  }
}
