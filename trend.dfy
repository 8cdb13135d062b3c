/**
 * `create_engagement_trend_chart`: the posts grouped by the calendar day of
 * `created date`, with the mean engagement rate, the total impressions and
 * the mean click-through rate of each day.
 */
module Trend {
  import opened Optional
  import opened Stats
  import opened Seqs
  import opened Table

  /** The row was created on day `d`. A row without a date is on no day. */
  predicate OnDate(r: Row, d: int) {
    r.created.Some? && r.created.value.day == d
  }

  predicate Dated(r: Row) {
    r.created.Some?
  }

  predicate Ascending(keys: seq<int>) {
    forall i, j :: 0 <= i < j < |keys| ==> keys[i] < keys[j]
  }

  /** The days on which some post was created. */
  ghost function Days(rows: seq<Row>): set<int> {
    set k | 0 <= k < |rows| && Dated(rows[k]) :: rows[k].created.value.day
  }

  /** `d` put into its place in an ascending list of distinct days. */
  function Insert(keys: seq<int>, d: int): (r: seq<int>)
    requires Ascending(keys)
    ensures Ascending(r)
    ensures forall x :: x in r <==> x in keys || x == d
  {
    if keys == [] then [d]
    else if d < keys[0] then [d] + keys
    else if d == keys[0] then keys
    else
      var rest := Insert(keys[1..], d);
      assert forall x :: x in keys <==> x == keys[0] || x in keys[1..];
      assert forall i :: 0 <= i < |rest| ==> keys[0] < rest[i] by {
        forall i | 0 <= i < |rest| ensures keys[0] < rest[i] {
          assert rest[i] in rest;
          if rest[i] != d {
            var j :| 0 <= j < |keys[1..]| && keys[1..][j] == rest[i];
            assert keys[1..][j] == keys[j + 1];
          }
        }
      }
      [keys[0]] + rest
  }

  /** The group keys of `groupby(created date .dt.date)`: every day that occurs, once, in ascending order. */
  function DayKeys(rows: seq<Row>): (keys: seq<int>)
    ensures Ascending(keys)
    ensures forall d :: d in keys <==> d in Days(rows)
  {
    if rows == [] then []
    else
      var keys := DayKeys(rows[1..]);
      assert forall d :: d in Days(rows) <==> (OnDate(rows[0], d) || d in Days(rows[1..])) by {
        forall d | d in Days(rows[1..]) ensures d in Days(rows) {
          var k :| 0 <= k < |rows[1..]| && Dated(rows[1..][k]) && rows[1..][k].created.value.day == d;
          assert rows[k + 1] == rows[1..][k];
        }
        forall d | d in Days(rows) && !OnDate(rows[0], d) ensures d in Days(rows[1..]) {
          var k :| 0 <= k < |rows| && Dated(rows[k]) && rows[k].created.value.day == d;
          assert rows[1..][k - 1] == rows[k];
        }
        if Dated(rows[0]) {
          assert rows[0].created.value.day in Days(rows);
        }
      }
      if Dated(rows[0]) then Insert(keys, rows[0].created.value.day) else keys
  }

  /** The rows of one group. */
  function OnDay(rows: seq<Row>, d: int): (group: seq<Row>)
    ensures IsSubsequence(group, rows)
    ensures forall r :: r in group <==> r in rows && OnDate(r, d)
    ensures forall r :: multiset(group)[r] == if OnDate(r, d) then multiset(rows)[r] else 0
  {
    var group := Keep(rows, r => OnDate(r, d));
    forall r ensures r in group <==> r in rows && OnDate(r, d) {
      KeepMember(rows, r => OnDate(r, d), r);
    }
    group
  }

  /** One line of `daily_stats`. */
  datatype DayStats = DayStats(day: int, engagement: Number, impressions: int, ctr: Number)

  /** The aggregate of one day's rows: mean engagement, summed impressions, mean click-through rate. */
  function Aggregate(rows: seq<Row>, d: int): (s: DayStats)
    ensures s.day == d
    ensures s.engagement == Mean(Rates(OnDay(rows, d), Engagement))
    ensures s.impressions == Total(ImpressionCounts(OnDay(rows, d)))
    ensures s.ctr == Mean(Rates(OnDay(rows, d), ClickThrough))
  {
    var group := OnDay(rows, d);
    DayStats(d, Mean(Rates(group, Engagement)), Total(ImpressionCounts(group)), Mean(Rates(group, ClickThrough)))
  }

  /** `daily_stats`: one aggregate per day that occurs, in ascending day order. */
  function DailyStats(rows: seq<Row>): (stats: seq<DayStats>)
    ensures |stats| == |DayKeys(rows)|
    ensures forall i :: 0 <= i < |stats| ==> stats[i] == Aggregate(rows, DayKeys(rows)[i])
    ensures forall i, j :: 0 <= i < j < |stats| ==> stats[i].day < stats[j].day
  {
    var keys := DayKeys(rows);
    seq(|keys|, i requires 0 <= i < |keys| => Aggregate(rows, keys[i]))
  }

  /**
   * What the trend chart is drawn from: nothing without `created date`; a
   * `KeyError` when one of the three aggregated columns is missing; otherwise
   * the daily series.
   */
  datatype TrendChart = NoTrend | TrendKeyError | TrendSeries(stats: seq<DayStats>)

  function EngagementTrend(columns: seq<string>, rows: seq<Row>): (c: TrendChart)
    ensures c.NoTrend? <==> CreatedDate !in columns
    ensures c.TrendKeyError? <==>
      CreatedDate in columns && (EngagementRate !in columns || Impressions !in columns || ClickThroughRate !in columns)
    ensures c.TrendSeries? ==> c.stats == DailyStats(rows)
  {
    if CreatedDate !in columns then NoTrend
    else if EngagementRate !in columns || Impressions !in columns || ClickThroughRate !in columns then TrendKeyError
    else TrendSeries(DailyStats(rows))
  }

  /** The line is plotted as a percentage: `engagement rate * 100` for each day. */
  function PlottedEngagement(stats: seq<DayStats>): (ys: seq<Number>)
    ensures |ys| == |stats|
    ensures forall i :: 0 <= i < |ys| ==> ys[i] == Percent(stats[i].engagement)
  {
    seq(|stats|, i requires 0 <= i < |stats| => Percent(stats[i].engagement))
  }

  /** Every group holds at least one row, and only rows of its own day. */
  lemma GroupsNonEmpty(rows: seq<Row>, i: nat)
    requires i < |DayKeys(rows)|
    ensures OnDay(rows, DayKeys(rows)[i]) != []
    ensures forall r :: r in OnDay(rows, DayKeys(rows)[i]) ==> r.created.value.day == DayKeys(rows)[i]
  {
    var d := DayKeys(rows)[i];
    assert d in Days(rows);
    var k :| 0 <= k < |rows| && Dated(rows[k]) && rows[k].created.value.day == d;
    assert rows[k] in OnDay(rows, d);
  }

  /** A post without a creation date is dropped by the grouping: it is in no group. */
  lemma UndatedInNoGroup(rows: seq<Row>, r: Row, d: int)
    requires !Dated(r)
    ensures r !in OnDay(rows, d)
  {
  }

  /** The impressions of the rows on the days in `keys`, added up day by day. */
  function SumOver(rows: seq<Row>, keys: seq<int>): int {
    if keys == [] then 0
    else Total(ImpressionCounts(OnDay(rows, keys[0]))) + SumOver(rows, keys[1..])
  }

  /** The impressions of a row as `sum()` counts them. */
  function Counted(r: Row): int {
    if r.impressions.Some? then r.impressions.value else 0
  }

  lemma ImpressionsCons(r: Row, rows: seq<Row>)
    ensures Total(ImpressionCounts([r] + rows)) == Counted(r) + Total(ImpressionCounts(rows))
  {
    assert ImpressionCounts([r] + rows)[1..] == ImpressionCounts(rows);
  }

  lemma {:induction false} KeepCons(r: Row, rows: seq<Row>, d: int)
    ensures OnDay([r] + rows, d) == (if OnDate(r, d) then [r] else []) + OnDay(rows, d)
  {
    assert ([r] + rows)[1..] == rows;
  }

  /** Adding a row in front adds its impressions to the one day in `keys` it belongs to, if any. */
  lemma {:induction false} SumOverCons(r: Row, rows: seq<Row>, keys: seq<int>)
    requires forall i, j :: 0 <= i < j < |keys| ==> keys[i] != keys[j]
    ensures SumOver([r] + rows, keys)
         == (if Dated(r) && r.created.value.day in keys then Counted(r) else 0) + SumOver(rows, keys)
  {
    if keys != [] {
      SumOverCons(r, rows, keys[1..]);
      KeepCons(r, rows, keys[0]);
      var group := OnDay(rows, keys[0]);
      if OnDate(r, keys[0]) {
        ImpressionsCons(r, group);
        assert keys[0] !in keys[1..] by {
          forall j | 1 <= j < |keys| ensures keys[j] != keys[0] { }
        }
      } else {
        assert [] + group == group;
        assert r.created.Some? ==> (r.created.value.day in keys <==> r.created.value.day in keys[1..]);
      }
    }
  }

  /**
   * Summed over any list of distinct days that covers every dated row, the
   * per-day impression totals add up to the impressions of the dated rows.
   */
  lemma {:induction false} SumOverCovering(rows: seq<Row>, keys: seq<int>)
    requires forall i, j :: 0 <= i < j < |keys| ==> keys[i] != keys[j]
    requires forall k :: 0 <= k < |rows| && Dated(rows[k]) ==> rows[k].created.value.day in keys
    ensures SumOver(rows, keys) == Total(ImpressionCounts(Keep(rows, Dated)))
  {
    if rows == [] {
      SumOverEmpty(keys);
    } else {
      SumOverCovering(rows[1..], keys);
      assert rows == [rows[0]] + rows[1..];
      SumOverCons(rows[0], rows[1..], keys);
      if Dated(rows[0]) {
        ImpressionsCons(rows[0], Keep(rows[1..], Dated));
      }
    }
  }

  lemma {:induction false} SumOverEmpty(keys: seq<int>)
    ensures SumOver([], keys) == 0
  {
    if keys != [] {
      SumOverEmpty(keys[1..]);
      assert Keep([], (r: Row) => OnDate(r, keys[0])) == [];
    }
  }

  /** The daily impression totals add up to the impressions of all posts that have a creation date. */
  lemma DailyImpressionsAddUp(rows: seq<Row>)
    ensures SumOver(rows, DayKeys(rows)) == Total(ImpressionCounts(Keep(rows, Dated)))
  {
    var keys := DayKeys(rows);
    forall k | 0 <= k < |rows| && Dated(rows[k]) ensures rows[k].created.value.day in keys {
      assert rows[k].created.value.day in Days(rows);
    }
    SumOverCovering(rows, keys);
  }

  /** `daily_stats['impressions'].sum()`. */
  function DayImpressions(stats: seq<DayStats>): int {
    if stats == [] then 0 else stats[0].impressions + DayImpressions(stats[1..])
  }

  lemma {:induction false} AggregatesSumOver(rows: seq<Row>, keys: seq<int>, stats: seq<DayStats>)
    requires |stats| == |keys|
    requires forall i :: 0 <= i < |keys| ==> stats[i] == Aggregate(rows, keys[i])
    ensures DayImpressions(stats) == SumOver(rows, keys)
  {
    if keys != [] {
      AggregatesSumOver(rows, keys[1..], stats[1..]);
    }
  }

  /** The impressions column of `daily_stats` adds up to the impressions of all posts that have a creation date. */
  lemma DailyStatsImpressionsAddUp(rows: seq<Row>)
    ensures DayImpressions(DailyStats(rows)) == Total(ImpressionCounts(Keep(rows, Dated)))
  {
    AggregatesSumOver(rows, DayKeys(rows), DailyStats(rows));
    DailyImpressionsAddUp(rows);
  }
}
