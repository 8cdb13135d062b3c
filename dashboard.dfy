/**
 * The page `main` builds from a loaded table: the headline metrics of the
 * whole table, then the sidebar filters, the charts, the searchable table,
 * the CSV download and the two quick insights, all on the filtered rows.
 */
module Dashboard {
  import opened Optional
  import opened Seqs
  import opened Table
  import opened Loader
  import opened Stats
  import opened Metrics
  import opened Ranking
  import opened Trend
  import opened Filters
  import opened Scatter

  /** The number of posts each ranking chart shows (`top_n=10`). */
  const TopN: nat := 10

  /**
   * What the visitor chose in the sidebar and the search box. `dateRange`
   * holds the days the date picker returned: two while a range is picked,
   * fewer while it is being picked.
   */
  datatype View = View(postType: string, dateRange: seq<int>, search: string)

  /** A quick-insight box: not shown, the pick failing because every value is missing, or the post picked. */
  datatype Insight = NotShown | NoMaximum | Shown(post: Row)

  /** The performance table: the columns shown and the rows left after the search. */
  datatype TableView = TableView(columns: seq<string>, rows: seq<Row>)

  /**
   * What the page shows, section by section in the order `main` draws them.
   * `main` catches no exception, so the first section that raises ends the
   * page: every later section is `None`, as it is never drawn.
   */
  datatype Page = Page(
    metrics: Metrics,
    filtered: seq<Row>,
    trend: TrendChart,
    scatter: Option<ScatterChart>,
    topEngagement: Option<TopChart>,
    topCtr: Option<TopChart>,
    table: Option<TableView>,
    download: Option<seq<Row>>,
    best: Option<Insight>,
    mostViewed: Option<Insight>)

  /** `df.loc[column.idxmax()]` guarded by "the column exists and is not empty". */
  function Leader(present: bool, rows: seq<Row>, vals: seq<Option<real>>): (i: Insight)
    requires |vals| == |rows|
    ensures i.NotShown? <==> !present || rows == []
    ensures i.NoMaximum? <==> present && rows != [] && forall k :: 0 <= k < |vals| ==> vals[k].None?
    ensures i.Shown? ==> exists k ::
      && 0 <= k < |rows| && rows[k] == i.post && vals[k].Some?
      && (forall j :: 0 <= j < |vals| && vals[j].Some? ==> vals[j].value <= vals[k].value)
      && (forall j :: 0 <= j < k && vals[j].Some? ==> vals[j].value < vals[k].value)
  {
    if !present || rows == [] then NotShown
    else
      match FirstMax(vals)
      case None => NoMaximum
      case Some(k) => Shown(rows[k])
  }

  /** "Best performing post": the first post with the highest engagement rate. */
  function BestPost(columns: seq<string>, rows: seq<Row>): (i: Insight)
    ensures i.NotShown? <==> EngagementRate !in columns || rows == []
    ensures i.NoMaximum? <==>
      EngagementRate in columns && rows != [] && forall r :: r in rows ==> r.engagement.None?
    ensures i.Shown? ==> i.post in rows && i.post.engagement.Some?
    ensures i.Shown? ==> forall r :: r in rows && r.engagement.Some? ==> r.engagement.value <= i.post.engagement.value
    ensures i.Shown? ==> exists k ::
      && 0 <= k < |rows| && rows[k] == i.post
      && forall j :: 0 <= j < k && rows[j].engagement.Some? ==> rows[j].engagement.value < i.post.engagement.value
  {
    Leader(EngagementRate in columns, rows, Rates(rows, Engagement))
  }

  /** The impressions column as the floats pandas holds it in when a value is missing. */
  function ImpressionValues(rows: seq<Row>): (vals: seq<Option<real>>)
    ensures |vals| == |rows|
    ensures forall k :: 0 <= k < |rows| ==>
      vals[k] == if rows[k].impressions.Some? then Some(rows[k].impressions.value as real) else None
  {
    seq(|rows|, k requires 0 <= k < |rows| =>
      if rows[k].impressions.Some? then Some(rows[k].impressions.value as real) else None)
  }

  /** "Most viewed post": the first post with the most impressions. */
  function MostViewed(columns: seq<string>, rows: seq<Row>): (i: Insight)
    ensures i.NotShown? <==> Impressions !in columns || rows == []
    ensures i.NoMaximum? <==>
      Impressions in columns && rows != [] && forall r :: r in rows ==> r.impressions.None?
    ensures i.Shown? ==> i.post in rows && i.post.impressions.Some?
    ensures i.Shown? ==> forall r :: r in rows && r.impressions.Some? ==> r.impressions.value <= i.post.impressions.value
    ensures i.Shown? ==> exists k ::
      && 0 <= k < |rows| && rows[k] == i.post
      && forall j :: 0 <= j < k && rows[j].impressions.Some? ==> rows[j].impressions.value < i.post.impressions.value
  {
    Leader(Impressions in columns, rows, ImpressionValues(rows))
  }

  /** Every column the performance table can show. */
  const Displayable: set<string> :=
    {SummaryColumn, Impressions, EngagementRate, ClickThroughRate, CreatedDate, PostType}

  /** `display_columns`: the table's columns before `created date` and `post type` are added. */
  const Listed: seq<string> := [SummaryColumn, Impressions, EngagementRate, ClickThroughRate]

  /**
   * The columns of the performance table: those of `Listed` that exist, in
   * that order, with `created date` inserted at position 1 when it exists and
   * `post type` appended when it exists.
   */
  function DisplayColumns(columns: seq<string>): (shown: seq<string>)
    ensures var a := Available(columns);
      var d := if CreatedDate in columns then 1 else 0;
      && |shown| == |a| + d + (if PostType in columns then 1 else 0)
      && (forall k :: 0 <= k < |a| ==> shown[if k < 1 then k else k + d] == a[k])
      && (CreatedDate in columns ==> shown[if |a| < 1 then |a| else 1] == CreatedDate)
      && (PostType in columns ==> shown[|shown| - 1] == PostType)
  {
    Arrange(Available(columns), CreatedDate in columns, PostType in columns)
  }

  /** The listed columns that exist, with `created date` inserted at position 1 and `post type` appended when asked. */
  function Arrange(available: seq<string>, dated: bool, typed: bool): (shown: seq<string>)
    ensures var d := if dated then 1 else 0;
      && |shown| == |available| + d + (if typed then 1 else 0)
      && (forall k :: 0 <= k < |available| ==> shown[if k < 1 then k else k + d] == available[k])
      && (dated ==> shown[if |available| < 1 then |available| else 1] == CreatedDate)
      && (typed ==> shown[|shown| - 1] == PostType)
  {
    var withDate := if dated then InsertAt(available, 1, CreatedDate) else available;
    InsertSecond(available, CreatedDate);
    var shown := if typed then withDate + [PostType] else withDate;
    assert forall i :: 0 <= i < |withDate| ==> shown[i] == withDate[i];
    shown
  }

  /** Which columns the table shows: those that exist among the six it can show. */
  lemma DisplayMembers(columns: seq<string>)
    ensures forall c :: c in DisplayColumns(columns) <==> c in columns && c in Displayable
  {
    DistinctColumnNames();
  }

  /** `insert(1, x)` keeps the first element in place and moves the others one step on. */
  lemma InsertSecond(a: seq<string>, x: string)
    ensures var r := InsertAt(a, 1, x);
      && (forall k :: 0 <= k < |a| ==> r[if k < 1 then k else k + 1] == a[k])
      && r[if |a| < 1 then |a| else 1] == x
  {
    var r := InsertAt(a, 1, x);
    if |a| >= 1 {
      forall k | 1 <= k < |a| ensures r[k + 1] == a[k] {
        assert r[2..][k - 1] == a[1..][k - 1];
      }
    }
  }

  /** `[col for col in display_columns if col in df.columns]`: the existing ones, in the order of `Listed`, once each. */
  function Available(columns: seq<string>): (available: seq<string>)
    ensures IsSubsequence(available, Listed)
    ensures forall c :: c in available <==> c in columns && c in Listed
    ensures forall c :: multiset(available)[c] <= 1
    ensures SummaryColumn in columns ==> |available| > 0 && available[0] == SummaryColumn
  {
    var available := Keep(Listed, ColumnMask(columns));
    forall c ensures c in available <==> c in columns && c in Listed {
      KeepMember(Listed, ColumnMask(columns), c);
    }
    ListedOnce();
    available
  }

  function ColumnMask(columns: seq<string>): string -> bool {
    c => c in columns
  }

  /** No column is listed twice. */
  lemma ListedOnce()
    ensures forall c :: multiset(Listed)[c] <= 1
  {
    DistinctColumnNames();
  }

  /** The six column names differ, already in length. */
  lemma DistinctColumnNames()
    ensures |SummaryColumn| == 27 && |Impressions| == 11 && |EngagementRate| == 15
    ensures |ClickThroughRate| == 24 && |CreatedDate| == 12 && |PostType| == 9
  {
  }

  /** Python's `list.insert(i, x)`: at position `i`, or at the end when the list is shorter. */
  function InsertAt(xs: seq<string>, i: nat, x: string): (r: seq<string>)
    ensures |r| == |xs| + 1
    ensures forall c :: c in r <==> c in xs || c == x
    ensures i <= |xs| ==> r[..i] == xs[..i] && r[i] == x && r[i + 1..] == xs[i..]
    ensures i > |xs| ==> r[..|xs|] == xs && r[|xs|] == x
  {
    if i <= |xs| then xs[..i] + [x] + xs[i..]
    else
      xs + [x]
  }

  /** The sidebar's verdict on one row: it passes both filters that are in force. */
  predicate Wanted(columns: seq<string>, view: View, r: Row) {
    && (PostType in columns && view.postType != All ==> OfType(r, view.postType))
    && (CreatedDate in columns && |view.dateRange| == 2 ==> InRange(r, view.dateRange[0], view.dateRange[1]))
  }

  /** With `All` selected and no complete date range picked, every row is wanted. */
  lemma NoFilterWantsAll(columns: seq<string>, view: View, r: Row)
    requires view.postType == All && |view.dateRange| != 2
    ensures Wanted(columns, view, r)
  {
  }

  /** A row is wanted exactly when it has the selected type (if filtered) and a date in the picked range (if filtered). */
  lemma WantedBothFilters(columns: seq<string>, view: View, r: Row)
    requires PostType in columns && view.postType != All
    requires CreatedDate in columns && |view.dateRange| == 2
    ensures Wanted(columns, view, r) <==>
      r.postType == Some(view.postType) && r.created.Some?
      && view.dateRange[0] <= r.created.value.day <= view.dateRange[1]
  {
  }

  /**
   * The columns let every chart section draw without raising: the trend's
   * aggregation finds its three columns, the scatter plot finds its hover
   * columns, and each ranking chart finds the columns it selects.
   */
  predicate ChartsSucceed(columns: seq<string>) {
    && (CreatedDate in columns ==>
          EngagementRate in columns && Impressions in columns && ClickThroughRate in columns)
    && (Impressions in columns && EngagementRate in columns ==>
          SummaryColumn in columns && ClickThroughRate in columns)
    && (EngagementRate in columns ==> SummaryColumn in columns && Impressions in columns)
    && (ClickThroughRate in columns ==> SummaryColumn in columns && Impressions in columns)
  }

  /**
   * The sidebar: the post-type filter when the column exists and something
   * other than `All` is selected, then the date filter when the column exists
   * and two dates are picked.
   */
  method ApplyFilters(df: Frame, view: View) returns (rows: seq<Row>)
    ensures IsSubsequence(rows, df.rows)
    ensures forall r :: r in rows <==> r in df.rows && Wanted(df.columns, view, r)
    ensures forall r :: multiset(rows)[r] == if Wanted(df.columns, view, r) then multiset(df.rows)[r] else 0
  {
    var columns := df.columns;
    rows := df.rows;
    SubsequenceReflexive(rows);

    if PostType in columns {
      var kept := ByPostType(rows, view.postType);
      SubsequenceTransitive(kept, rows, df.rows);
      rows := kept;
    }
    var typed := PostType in columns && view.postType != All;
    assert forall r :: r in rows <==> r in df.rows && (typed ==> OfType(r, view.postType));
    assert forall r :: multiset(rows)[r] == if typed ==> OfType(r, view.postType) then multiset(df.rows)[r] else 0;

    if CreatedDate in columns && |view.dateRange| == 2 {
      var start, end := view.dateRange[0], view.dateRange[1];
      var kept := ByDateRange(rows, start, end);
      SubsequenceTransitive(kept, rows, df.rows);
      rows := kept;
    }
  }

  /**
   * The body of `main` once the table is loaded. The headline metrics use the
   * whole table; the post-type filter applies when the column exists, the date
   * filter when the column exists and two dates are picked; everything below
   * the filters uses the rows that remain, and the search narrows the
   * displayed table only. The sections are drawn in order, and the first one
   * that raises ends the page.
   */
  method Render(df: Frame, view: View) returns (page: Page)
    ensures page.metrics == SummaryMetrics(df.columns, df.rows)
    ensures IsSubsequence(page.filtered, df.rows)
    ensures forall r :: r in page.filtered <==> r in df.rows && Wanted(df.columns, view, r)
    ensures forall r :: multiset(page.filtered)[r] == if Wanted(df.columns, view, r) then multiset(df.rows)[r] else 0
    ensures page.trend == EngagementTrend(df.columns, page.filtered)
    ensures page.scatter.Some? <==> !page.trend.TrendKeyError?
    ensures page.scatter.Some? ==> page.scatter.value == ScatterPlot(df.columns, page.filtered)
    ensures page.topEngagement.Some? <==> page.scatter.Some? && !page.scatter.value.ScatterError?
    ensures page.topEngagement.Some? ==> page.topEngagement.value == TopPostsChart(df.columns, page.filtered, Engagement, TopN)
    ensures page.topCtr.Some? <==> page.topEngagement.Some? && !page.topEngagement.value.TopKeyError?
    ensures page.topCtr.Some? ==> page.topCtr.value == TopPostsChart(df.columns, page.filtered, ClickThrough, TopN)
    ensures page.table.Some? <==> page.topCtr.Some? && !page.topCtr.value.TopKeyError?
    ensures page.table.Some? <==> ChartsSucceed(df.columns)
    ensures page.table.Some? ==> page.table.value.columns == DisplayColumns(df.columns)
    ensures page.table.Some? ==> IsSubsequence(page.table.value.rows, page.filtered)
    ensures page.table.Some? ==> forall r :: r in page.table.value.rows <==> r in page.filtered && Matches(r, view.search)
    ensures page.table.Some? ==> forall r ::
      multiset(page.table.value.rows)[r] == if Matches(r, view.search) then multiset(page.filtered)[r] else 0
    ensures page.download.Some? <==> page.table.Some?
    ensures page.download.Some? ==> page.download.value == page.filtered
    ensures page.best.Some? <==> page.download.Some?
    ensures page.best.Some? ==> page.best.value == BestPost(df.columns, page.filtered)
    ensures page.mostViewed.Some? <==> page.best.Some? && !page.best.value.NoMaximum?
    ensures page.mostViewed.Some? ==> page.mostViewed.value == MostViewed(df.columns, page.filtered)
  {
    var columns := df.columns;
    var metrics := SummaryMetrics(columns, df.rows);
    var rows := ApplyFilters(df, view);
    ChartsSucceedIff(columns, rows);
    var trend := EngagementTrend(columns, rows);
    page := Page(metrics, rows, trend, None, None, None, None, None, None, None);
    if trend.TrendKeyError? {
      return;
    }
    var scatter := ScatterPlot(columns, rows);
    page := page.(scatter := Some(scatter));
    if scatter.ScatterError? {
      return;
    }
    var topEngagement := TopPostsChart(columns, rows, Engagement, TopN);
    page := page.(topEngagement := Some(topEngagement));
    if topEngagement.TopKeyError? {
      return;
    }
    var topCtr := TopPostsChart(columns, rows, ClickThrough, TopN);
    page := page.(topCtr := Some(topCtr));
    if topCtr.TopKeyError? {
      return;
    }
    var table := TableView(DisplayColumns(columns), BySearch(rows, view.search));
    var best := BestPost(columns, rows);
    page := page.(table := Some(table), download := Some(rows), best := Some(best));
    if best.NoMaximum? {
      return;
    }
    page := page.(mostViewed := Some(MostViewed(columns, rows)));
  }

  /** The four chart sections all draw exactly when the columns are as `ChartsSucceed` demands. */
  lemma ChartsSucceedIff(columns: seq<string>, rows: seq<Row>)
    ensures ChartsSucceed(columns) <==>
      && !EngagementTrend(columns, rows).TrendKeyError?
      && !ScatterPlot(columns, rows).ScatterError?
      && !TopPostsChart(columns, rows, Engagement, TopN).TopKeyError?
      && !TopPostsChart(columns, rows, ClickThrough, TopN).TopKeyError?
  {
  }

  /** A loaded export with every column the dashboard reads draws every chart and the table. */
  lemma FullTableRenders(columns: seq<string>)
    requires SummaryColumn in columns && Impressions in columns && EngagementRate in columns
    requires ClickThroughRate in columns && CreatedDate in columns
    ensures ChartsSucceed(columns)
  {
  }

  /** An export with the creation date but without one of the aggregated columns stops at the trend chart. */
  lemma TrendStopsPage(columns: seq<string>)
    requires CreatedDate in columns && ClickThroughRate !in columns
    ensures !ChartsSucceed(columns)
    ensures EngagementTrend(columns, []).TrendKeyError?
  {
  }

  /**
   * Loading then rendering: no page when no column is named `post title`;
   * otherwise the page of the loaded table, whose metrics count every post.
   */
  method Run(header: seq<string>, cells: seq<Row>, view: View) returns (page: Option<Page>)
    ensures page.None? <==> PostTitle !in NormaliseNames(header)
    ensures page.Some? ==> page.value.metrics.totalPosts == |cells|
    ensures page.Some? ==> forall r :: r in page.value.filtered ==> r in WithSummaries(cells)
    ensures page.Some? && page.value.table.Some? ==>
      forall r :: r in page.value.table.value.rows ==> r in page.value.filtered && Matches(r, view.search)
  {
    var df := LoadAndProcess(header, cells);
    if df == null {
      return None;
    }
    var p := Render(df, view);
    page := Some(p);
  }
}
