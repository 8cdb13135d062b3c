/**
 * `create_summary_metrics`: the four headline numbers of the dashboard,
 * computed from the whole loaded table before any filter is applied.
 */
module Metrics {
  import opened Optional
  import opened Stats
  import opened Table

  datatype Metrics = Metrics(totalPosts: nat, totalImpressions: int, avgEngagement: Number, avgCtr: Number)

  /** The average of a rate column as a percentage, or 0 when the column does not exist. */
  function AverageRate(columns: seq<string>, rows: seq<Row>, m: Rate): (avg: Number)
    ensures RateColumn(m) !in columns ==> avg == Num(0.0)
    ensures avg.NaN? <==> RateColumn(m) in columns && forall k :: 0 <= k < |rows| ==> RateOf(rows[k], m).None?
    ensures RateColumn(m) in columns && avg.Num? ==> avg.value / 100.0 == Mean(Rates(rows, m)).value
  {
    PresentEmptyIff(Rates(rows, m));
    if RateColumn(m) in columns then Percent(Mean(Rates(rows, m))) else Num(0.0)
  }

  /**
   * The row count, the total of the present impressions (0 without the column)
   * and the two average rates over present values only (0 without the column).
   */
  function SummaryMetrics(columns: seq<string>, rows: seq<Row>): (m: Metrics)
    ensures m.totalPosts == |rows|
    ensures m.totalImpressions == if Impressions in columns then Total(ImpressionCounts(rows)) else 0
    ensures m.avgEngagement == AverageRate(columns, rows, Engagement)
    ensures m.avgCtr == AverageRate(columns, rows, ClickThrough)
  {
    Metrics(
      |rows|,
      if Impressions in columns then Total(ImpressionCounts(rows)) else 0,
      AverageRate(columns, rows, Engagement),
      AverageRate(columns, rows, ClickThrough))
  }

  /** A table with only the required columns reports zero impressions and zero average rates. */
  lemma TitleOnlyMetrics(columns: seq<string>, rows: seq<Row>)
    requires Impressions !in columns && EngagementRate !in columns && ClickThroughRate !in columns
    ensures SummaryMetrics(columns, rows) == Metrics(|rows|, 0, Num(0.0), Num(0.0))
  {
  }

  /** Rates that are fractions in `[0, 1]` average to a percentage in `[0, 100]`. */
  lemma AverageRateIsPercentage(columns: seq<string>, rows: seq<Row>, m: Rate)
    requires forall k :: 0 <= k < |rows| && RateOf(rows[k], m).Some? ==> 0.0 <= RateOf(rows[k], m).value <= 1.0
    requires AverageRate(columns, rows, m).Num?
    ensures 0.0 <= AverageRate(columns, rows, m).value <= 100.0
  {
    if RateColumn(m) in columns {
      MeanWithin(Rates(rows, m), 0.0, 1.0);
    }
  }

  /** A post whose impressions are missing leaves the impressions total unchanged. */
  lemma MissingImpressionsNotCounted(columns: seq<string>, rows: seq<Row>, k: nat, r: Row)
    requires k <= |rows| && r.impressions.None?
    ensures SummaryMetrics(columns, rows[..k] + [r] + rows[k..]).totalImpressions
         == SummaryMetrics(columns, rows).totalImpressions
  {
    var rows' := rows[..k] + [r] + rows[k..];
    assert ImpressionCounts(rows') == ImpressionCounts(rows[..k]) + [None] + ImpressionCounts(rows[k..]);
    assert ImpressionCounts(rows) == ImpressionCounts(rows[..k]) + ImpressionCounts(rows[k..]);
    TotalAppend(ImpressionCounts(rows[..k]) + [None], ImpressionCounts(rows[k..]));
    TotalAppend(ImpressionCounts(rows[..k]), [None]);
    TotalAppend(ImpressionCounts(rows[..k]), ImpressionCounts(rows[k..]));
  }

  /** Three rates 0.1, missing, 0.3 average to 20%, not to 13.33%. */
  lemma MissingRateSkipped(columns: seq<string>, a: Row, b: Row, c: Row)
    requires EngagementRate in columns
    requires a.engagement == Some(0.1) && b.engagement.None? && c.engagement == Some(0.3)
    ensures SummaryMetrics(columns, [a, b, c]).avgEngagement == Num(20.0)
  {
    assert Rates([a, b, c], Engagement) == [Some(0.1), None, Some(0.3)];
    ThreeRatesMean();
  }

  lemma ThreeRatesMean()
    ensures Percent(Mean([Some(0.1), None, Some(0.3)])) == Num(20.0)
  {
    var vals: seq<Option<real>> := [Some(0.1), None, Some(0.3)];
    assert vals[1..] == [None, Some(0.3)];
    assert vals[1..][1..] == [Some(0.3)];
    assert Present([Some(0.3)]) == [0.3];
    assert Present(vals) == [0.1, 0.3];
    assert Sum([0.1, 0.3]) == 0.4 by {
      assert [0.1, 0.3][1..] == [0.3];
    }
  }

  /** Two posts with 100 and 200 impressions and rates 5% and 10%: 2 posts, 300 impressions, 7.5%. */
  lemma TwoPostExample(columns: seq<string>, a: Row, b: Row)
    requires Impressions in columns && EngagementRate in columns
    requires a.impressions == Some(100) && a.engagement == Some(0.05)
    requires b.impressions == Some(200) && b.engagement == Some(0.10)
    ensures SummaryMetrics(columns, [a, b]).totalPosts == 2
    ensures SummaryMetrics(columns, [a, b]).totalImpressions == 300
    ensures SummaryMetrics(columns, [a, b]).avgEngagement == Num(7.5)
  {
    assert ImpressionCounts([a, b]) == [Some(100), Some(200)];
    TwoCountsTotal();
    assert Rates([a, b], Engagement) == [Some(0.05), Some(0.10)];
    TwoRatesMean();
  }

  lemma TwoCountsTotal()
    ensures Total([Some(100), Some(200)]) == 300
  {
    assert [Some(100), Some(200)][1..] == [Some(200)];
    assert Total([Some(200)]) == 200;
  }

  lemma TwoRatesMean()
    ensures Percent(Mean([Some(0.05), Some(0.10)])) == Num(7.5)
  {
    assert [Some(0.05), Some(0.10)][1..] == [Some(0.10)];
    assert Present([Some(0.10)]) == [0.10];
    assert Present([Some(0.05), Some(0.10)]) == [0.05, 0.10];
    assert Sum([0.05, 0.10]) == 0.15;
  }
}
