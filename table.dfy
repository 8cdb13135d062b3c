/**
 * The post table: one `Row` per post, the column names the dashboard
 * recognises, and the normalisation of spreadsheet headers.
 *
 * A table is a column list plus rows. The column list decides whether a
 * column "exists"; every consumer checks it exactly where the dashboard does,
 * so the field of a column that is absent is never read.
 */
module Table {
  import opened Optional
  import opened Text
  import opened Summariser

  /** A parsed `created date`: a calendar day number and the time within that day. */
  datatype Stamp = Stamp(day: int, secondOfDay: nat)

  /** One post. `summary` is the derived `post title (first sentence)` column. */
  datatype Row = Row(
    title: Option<string>,
    summary: string,
    created: Option<Stamp>,
    engagement: Option<real>,
    ctr: Option<real>,
    impressions: Option<int>,
    postType: Option<string>)

  const PostTitle: string := "post title"
  const SummaryColumn: string := "post title (first sentence)"
  const CreatedDate: string := "created date"
  const EngagementRate: string := "engagement rate"
  const ClickThroughRate: string := "click through rate (ctr)"
  const Impressions: string := "impressions"
  const PostType: string := "post type"

  /** The two rate columns a ranking chart can be drawn for. */
  datatype Rate = Engagement | ClickThrough

  function RateColumn(m: Rate): string {
    match m
    case Engagement => EngagementRate
    case ClickThrough => ClickThroughRate
  }

  function RateOf(r: Row, m: Rate): Option<real> {
    match m
    case Engagement => r.engagement
    case ClickThrough => r.ctr
  }

  /** One rate column of the table, `df[metric]`. */
  function Rates(rows: seq<Row>, m: Rate): (vals: seq<Option<real>>)
    ensures |vals| == |rows|
    ensures forall k :: 0 <= k < |rows| ==> vals[k] == RateOf(rows[k], m)
  {
    seq(|rows|, k requires 0 <= k < |rows| => RateOf(rows[k], m))
  }

  /** The `impressions` column. */
  function ImpressionCounts(rows: seq<Row>): (vals: seq<Option<int>>)
    ensures |vals| == |rows|
    ensures forall k :: 0 <= k < |rows| ==> vals[k] == rows[k].impressions
  {
    seq(|rows|, k requires 0 <= k < |rows| => rows[k].impressions)
  }

  /** A lower-case name with no whitespace at either end. */
  predicate IsNormalName(name: string) {
    NoUpper(name) && Stripped(name)
  }

  /** `str(col).lower().strip()`. */
  function NormaliseName(name: string): (r: string)
    ensures IsNormalName(r)
  {
    var lowered := Lower(name);
    StripKeepsNoUpper(lowered);
    Strip(lowered)
  }

  /** Normalising a normal name changes nothing. */
  lemma NormalNameFixed(name: string)
    requires IsNormalName(name)
    ensures NormaliseName(name) == name
  {
    LowerNoUpper(name);
    StripStripped(name);
  }

  /** Normalising twice is normalising once. */
  lemma NormaliseNameIdempotent(name: string)
    ensures NormaliseName(NormaliseName(name)) == NormaliseName(name)
  {
    NormalNameFixed(NormaliseName(name));
  }

  /** The derived column's own name needs no normalising. */
  lemma SummaryColumnIsNormal()
    ensures IsNormalName(SummaryColumn)
  {
    assert !IsSpace(SummaryColumn[0]) && !IsSpace(SummaryColumn[|SummaryColumn| - 1]);
  }

  /** The header list after `df.columns = [str(col).lower().strip() for col in df.columns]`. */
  function NormaliseNames(names: seq<string>): (r: seq<string>)
    ensures |r| == |names|
    ensures forall k :: 0 <= k < |r| ==> IsNormalName(r[k])
    ensures forall k :: 0 <= k < |r| ==> r[k] == NormaliseName(names[k])
  {
    seq(|names|, k requires 0 <= k < |names| => NormaliseName(names[k]))
  }

  lemma NormaliseNamesIdempotent(names: seq<string>)
    ensures NormaliseNames(NormaliseNames(names)) == NormaliseNames(names)
  {
    forall k | 0 <= k < |names| {
      NormaliseNameIdempotent(names[k]);
    }
  }

  /** The row with its summary column filled in from its title. */
  function WithSummary(r: Row): (s: Row)
    ensures s.summary == ExtractFirstSentence(r.title) && |s.summary| <= MaxSummary
    ensures s.(summary := r.summary) == r
  {
    r.(summary := ExtractFirstSentence(r.title))
  }

  /** `df['post title'].apply(extract_first_sentence)` stored as the summary column. */
  function WithSummaries(rows: seq<Row>): (r: seq<Row>)
    ensures |r| == |rows|
    ensures forall k :: 0 <= k < |rows| ==> r[k] == WithSummary(rows[k])
  {
    seq(|rows|, k requires 0 <= k < |rows| => WithSummary(rows[k]))
  }
}
