# LinkedIn post analytics dashboard — a verified model

This project is a Dafny model of the data handling behind a Streamlit dashboard (`streamlit_app.py`) for LinkedIn post analytics. It covers:

- **Summariser.** Each post title becomes a short summary: the first sentence, glued to the second when the first is very short, and capped at 100 characters.
- **Loading.** The header names are normalised, and the load is rejected when there is no `post title` column.
- **Metrics.** The headline metrics are computed over the whole table.
- **Charts.** The top-10 ranking charts use `nlargest`, and the daily engagement trend uses a `groupby` on the creation day.
- **Filters and search.** The sidebar has a post-type filter and a date-range filter. The post table can be searched without regard to case.
- **Quick insights.** These pick the best and the most viewed post with `idxmax`.

The model is split into these modules:

- `Text`: whitespace as Python's `str.isspace` defines it, `strip`, ASCII lower-casing and substring search.
- `Summariser`: `re.split(r'[.!?]\s+')` and `extract_first_sentence`.
- `Seqs`: boolean-mask selection (`df[mask]`) as an order-preserving subsequence.
- `Table`: the `Row` of a post, the column names and header normalisation.
- `Loader`: the data frame as a class whose columns and rows are updated in place, and `load_and_process_data`.
- `Stats`: pandas `sum` and `mean`, both of which skip missing values.
- `Metrics`: `create_summary_metrics`.
- `Ranking`: `nlargest` and `idxmax`, and what the top-posts chart plots.
- `Trend`: the per-day grouping behind the trend chart.
- `Scatter`: the points of the impressions-against-engagement scatter plot.
- `Filters`: the post-type filter, the date-range filter and the search.
- `Dashboard`: the page `main` builds, and loading followed by rendering.

Outcomes that are errors in the source are explicit values here, not preconditions:

- a load without `post title` gives `null`;
- a `KeyError` from a chart gives `TopKeyError` or `TrendKeyError`;
- the `ValueError` `px.scatter` raises for a missing hover column gives `ScatterError`;
- `idxmax` over a column whose values are all missing gives `NoMaximum`.

`main` catches no exception, so the first of these errors ends the page: every section after it is `None` in the model's `Page`.

## Model

| member | source | states |
|---|---|---|
| Text.Strip | streamlit_app.py:43 | the result has no whitespace at either end and is no longer than the input |
| Text.IsSpaceAscii | streamlit_app.py:42-43 | among ASCII characters, the whitespace of `\s` and `strip` is tab, line feed, vertical tab, form feed, carriage return, `\x1c` to `\x1f` and space |
| Text.StripIdempotent | streamlit_app.py:43 | stripping twice is stripping once |
| Text.StripEmptyIff | streamlit_app.py:43 | stripping gives the empty string exactly when the text is all whitespace |
| Text.Lower | streamlit_app.py:62 | lower-casing keeps the length, leaves no upper-case letter, and maps each character on its own |
| Text.LowerNoUpper | streamlit_app.py:62 | lower-casing text without capitals changes nothing |
| Text.ContainsAt | streamlit_app.py:324 | the substring test holds exactly when the term occurs at some position |
| Text.ContainsIgnoreCaseLowered | streamlit_app.py:324 | `case=False` matching gives the same answer when either the text or the term is lower-cased first |
| Summariser.FirstDelim | streamlit_app.py:42 | finds the leftmost `[.!?]\s` match, and finds none exactly when the text has none |
| Summariser.Split | streamlit_app.py:42 | `re.split` gives at least one piece; the first piece is a prefix ended by the leftmost delimiter; no piece contains a delimiter; later pieces never start with whitespace; the text splits into itself alone exactly when it has no delimiter |
| Summariser.SplitRest | streamlit_app.py:42 | after the first piece comes a whole delimiter match (a terminator and all the whitespace after it), and the later pieces are the split of the rest of the text |
| Summariser.SplitJoin | streamlit_app.py:42 | splitting a join of delimiter-free, unpadded pieces gives those pieces back |
| Summariser.SplitJoinSplit | streamlit_app.py:42 | splitting, joining and splitting again gives the first split |
| Summariser.Truncate | streamlit_app.py:50-51 | at most 100 characters; short text is unchanged; long text keeps its first 97 characters followed by `...` |
| Summariser.Draft | streamlit_app.py:42-47 | the summary before the length cap is never longer than the title |
| Summariser.ExtractFirstSentence | streamlit_app.py:36-53 | the summary has at most 100 characters and is never longer than the title; a missing or empty title gives `""` |
| Summariser.SummaryBasics | streamlit_app.py:42-47 | before the cap, the summary is the two first sentences joined by `. ` when the stripped first one is under 20 characters and a second exists, and otherwise the stripped first sentence |
| Summariser.SingleSentence | streamlit_app.py:42-53 | text without a sentence end is summarised by stripping it and capping its length |
| Summariser.GluedDraftResplits | streamlit_app.py:46-47 | a glued summary splits back into exactly the two sentences it was made from |
| Summariser.SummaryEmptyIff | streamlit_app.py:38-47 | the summary is empty exactly when the title is missing or all whitespace |
| Summariser.SingleSentenceSummaryShape | streamlit_app.py:43-51 | the summary of single-sentence text is itself stripped and has no sentence end |
| Summariser.SummaryIdempotent | streamlit_app.py:36-53 | summarising a single-sentence summary again changes nothing |
| Seqs.SubsequenceTransitive | streamlit_app.py:240 | a selection from a selection is a selection from the original |
| Seqs.Keep | streamlit_app.py:240 | a mask selection is an order-preserving subsequence; it keeps each accepted row as often as it occurs and drops every other row |
| Seqs.KeepMember | streamlit_app.py:240 | a row survives a mask exactly when it was there and the mask accepts it |
| Seqs.KeepAll | streamlit_app.py:240 | a mask that accepts every row changes nothing |
| Seqs.KeepKeep | streamlit_app.py:240-254 | two successive masks are one mask that combines both |
| Seqs.KeepCommute | streamlit_app.py:240-254 | two masks select the same rows in either order |
| Table.Rates | streamlit_app.py:96-97 | a rate column holds each row's rate, missing or present |
| Table.ImpressionCounts | streamlit_app.py:98 | the impressions column holds each row's count, missing or present |
| Table.NormaliseName | streamlit_app.py:62 | a normalised header is lower-case with no whitespace at either end |
| Table.NormalNameFixed | streamlit_app.py:62 | normalising a normalised name changes nothing |
| Table.NormaliseNameIdempotent | streamlit_app.py:62 | normalising twice is normalising once |
| Table.NormaliseNames | streamlit_app.py:62 | every header is normalised, in place and in order |
| Table.NormaliseNamesIdempotent | streamlit_app.py:62 | normalising the header list twice is normalising it once |
| Table.SummaryColumnIsNormal | streamlit_app.py:70 | the derived column's name is already normal |
| Table.WithSummary | streamlit_app.py:70 | a row's summary is computed from its own title, is at most 100 characters, and nothing else in the row changes |
| Table.WithSummaries | streamlit_app.py:70 | every row gets its own summary, and row order and count are kept |
| Loader.Frame.constructor | streamlit_app.py:59 | the frame holds the header and the rows as read |
| Loader.Frame.NormaliseColumns | streamlit_app.py:62 | the columns become their normalised names; the rows do not change |
| Loader.Frame.AssignSummaryColumn | streamlit_app.py:70 | the summary column is appended when absent, and every row's summary comes from its title with nothing else changed |
| Loader.LoadAndProcess | streamlit_app.py:55-87 | `null` exactly when no header normalises to `post title`; otherwise a fresh frame with normalised headers plus the summary column, and a summary for every row |
| Loader.WithSummaryColumn | streamlit_app.py:70 | adding the summary column to normalised headers that name the title keeps every name normal, and both the title and the summary are then columns |
| Stats.Present | streamlit_app.py:96-98 | the present values are those of the column, with the missing ones skipped |
| Stats.PresentCounts | streamlit_app.py:96-98 | each value occurs among the present values exactly as often as it is present in the column: only missing entries are dropped |
| Stats.PresentEmptyIff | streamlit_app.py:96-97 | no value is present exactly when every value is missing |
| Stats.PresentAppend | streamlit_app.py:96-98 | the present values of two parts concatenate |
| Stats.SumBounds | streamlit_app.py:96 | a sum of values in `[lo, hi]` lies between `n*lo` and `n*hi` |
| Stats.Mean | streamlit_app.py:96-97 | the mean is `NaN` exactly when no value is present, and otherwise times the count it equals the sum of the present values |
| Stats.Average | streamlit_app.py:96 | the average of a non-empty list, times its length, gives back its sum |
| Stats.MeanWithin | streamlit_app.py:96-97 | the mean lies within any bounds of the present values |
| Stats.BoundedAverage | streamlit_app.py:96 | the average of values that all lie in `[lo, hi]` lies in `[lo, hi]` |
| Stats.PresentWithin | streamlit_app.py:96 | bounds on a column's present values bound every value that survives `dropna()` |
| Stats.MeanSkipsMissing | streamlit_app.py:96-97 | inserting a missing value anywhere leaves the mean unchanged |
| Stats.Total | streamlit_app.py:98 | the total of a column whose values are all missing is 0, and non-negative counts have a non-negative total |
| Stats.TotalAppend | streamlit_app.py:98 | the total of two parts is the sum of their totals |
| Stats.TotalBoundsEach | streamlit_app.py:98 | every non-negative count is at most the total |
| Stats.Percent | streamlit_app.py:97 | the percentage is `NaN` exactly when the value is, and otherwise divided by 100 it gives the value back |
| Stats.PercentKeepsOrder | streamlit_app.py:142 | scaling to a percentage keeps the order of values, so the plotted line keeps its shape |
| Metrics.AverageRate | streamlit_app.py:96-97 | 0 without the column; `NaN` exactly when the column exists and every rate is missing; otherwise the mean of the present rates times 100 |
| Metrics.SummaryMetrics | streamlit_app.py:93-98 | the post count is the row count; impressions are the total of present counts, or 0 without the column; each average is the mean of the present rates times 100, or 0 without the column |
| Metrics.TitleOnlyMetrics | streamlit_app.py:95-98 | without the optional columns, the metrics are the row count and three zeros |
| Metrics.AverageRateIsPercentage | streamlit_app.py:96-97 | rates in `[0, 1]` give an average between 0 and 100 |
| Metrics.MissingImpressionsNotCounted | streamlit_app.py:98 | a post with missing impressions leaves the total unchanged |
| Metrics.MissingRateSkipped | streamlit_app.py:96 | rates 0.1, missing and 0.3 average to 20%: the missing rate is skipped |
| Metrics.TwoPostExample | streamlit_app.py:95-98 | two posts with 100 and 200 impressions and rates 5% and 10% give 2 posts, 300 impressions and 7.5% |
| Metrics.TwoCountsTotal | streamlit_app.py:98 | 100 and 200 impressions total 300 |
| Metrics.TwoRatesMean | streamlit_app.py:96 | rates 0.05 and 0.10 average to 7.5% |
| Metrics.ThreeRatesMean | streamlit_app.py:96 | rates 0.1, missing and 0.3 average to 20% |
| Ranking.AheadStrictOrder | streamlit_app.py:166 | ranking a row ahead of another (larger value, or equal value and earlier row) is a strict order |
| Ranking.Valued | streamlit_app.py:166 | the candidates are exactly the positions with a present value, in ascending order |
| Ranking.Gaps | streamlit_app.py:166 | the positions with a missing value, exactly those, in ascending order |
| Ranking.ValuedGapsCount | streamlit_app.py:166 | every row is either a present value or a gap |
| Ranking.ValuedAllPresent | streamlit_app.py:166 | with no value missing, every position is a candidate |
| Ranking.BestPos | streamlit_app.py:166 | picks the candidate that ranks ahead of every other candidate |
| Ranking.RemoveCandidate | streamlit_app.py:166 | removing one candidate leaves exactly the others, still valid candidates |
| Ranking.TakeBest | streamlit_app.py:166 | the best candidate in front of a ranking of the rest is a ranking of all candidates |
| Ranking.TopFrom | streamlit_app.py:166 | takes `min(n, #candidates)` candidates, ordered strictly best first, each ahead of every candidate left out; all candidates are taken when `n` is at least their number |
| Ranking.TopPositions | streamlit_app.py:166 | `nlargest(n)` gives `min(n, #rows)` distinct rows: the first rows in the order of `sort_values(ascending=False)` with missing values last, that is present values best first with ties in row order, then missing rows in row order; every row left out comes after every row taken |
| Ranking.TopThenGaps | streamlit_app.py:166 | the ranked present rows followed by the first missing rows are the first `min(n, #rows)` rows of that order |
| Ranking.TopThenGapsOrder | streamlit_app.py:166 | ranked present rows followed by ascending missing rows are ordered by `Before` |
| Ranking.TopThenGapsLeftOut | streamlit_app.py:166 | a row left out comes after every row taken: a missing row is taken only when every present row is |
| Ranking.TopPositionsDescending | streamlit_app.py:166 | no row is taken twice; rows with values come before rows without, in non-increasing order of value |
| Ranking.TopTwoExample | streamlit_app.py:166 | `nlargest(2)` of 0.5, 0.9, 0.2, 0.7 takes rows 1 and 3, in that order |
| Ranking.TopMissingExample | streamlit_app.py:166 | `nlargest(10)` of 0.5 and a missing value keeps both rows, the missing one last |
| Ranking.PresentThenMissing | streamlit_app.py:166 | of one present and one missing value, the only order `Before` allows is the present row first |
| Ranking.FirstMax | streamlit_app.py:350 | `idxmax` is `None` exactly when every value is missing; otherwise it is a present maximum, strictly greater than every earlier present value |
| Ranking.FirstMaxIsTopOne | streamlit_app.py:350 | `idxmax` picks the row that `nlargest(1)` puts first |
| Ranking.Pick | streamlit_app.py:166 | the selected rows are the rows at the ranked positions, in ranked order |
| Ranking.TopPostsChart | streamlit_app.py:160-166 | no chart without the metric column; a `KeyError` when the summary or impressions column is missing; otherwise the rows at `nlargest(n)`'s positions: `min(n, #rows)` rows of the table, those with the metric first in non-increasing order |
| Trend.Insert | streamlit_app.py:132 | inserting a day into an ascending list of distinct days keeps the list ascending and adds exactly that day |
| Trend.DayKeys | streamlit_app.py:132 | the group keys are strictly ascending and are exactly the days on which some dated post was created |
| Trend.OnDay | streamlit_app.py:132 | a group is a subsequence of the rows holding each row created on its day as often as it occurs, and no other row |
| Trend.Aggregate | streamlit_app.py:132-136 | a day's line has the mean engagement, the summed impressions and the mean click-through rate of that day's rows |
| Trend.DailyStats | streamlit_app.py:132-136 | one aggregate per group key, with days strictly ascending |
| Trend.EngagementTrend | streamlit_app.py:126-136 | no chart without `created date`; a `KeyError` when an aggregated column is missing; otherwise the daily series |
| Trend.PlottedEngagement | streamlit_app.py:142 | the plotted line is each day's mean engagement times 100 |
| Trend.GroupsNonEmpty | streamlit_app.py:132 | every group holds at least one row, and only rows of its own day |
| Trend.UndatedInNoGroup | streamlit_app.py:132 | a post without a creation date is in no group |
| Trend.SumOverCons | streamlit_app.py:132-136 | a row added in front adds its impressions to the one listed day it belongs to, if any |
| Trend.SumOverCovering | streamlit_app.py:132-136 | over distinct days that cover every dated row, the per-day totals add up to the impressions of the dated rows |
| Trend.DailyImpressionsAddUp | streamlit_app.py:132-136 | the daily impression totals add up to the impressions of all dated posts |
| Trend.AggregatesSumOver | streamlit_app.py:132-136 | the impressions of per-day aggregates add up to the per-day totals over the same days |
| Trend.DailyStatsImpressionsAddUp | streamlit_app.py:132-136 | the impressions column of `daily_stats` adds up to the impressions of all dated posts |
| Scatter.AsNumber | streamlit_app.py:199 | a float cell is `NaN` exactly when it is missing, and otherwise holds the value |
| Scatter.ScatterPlot | streamlit_app.py:191-206 | no plot without the impressions or the engagement column; a `ValueError` when the summary or click-through column named in `hover_data` is missing; otherwise one point per row, in row order, with the row's impressions, its engagement rate times 100, its summary and its click-through rate |
| Scatter.ScatterKeepsOrder | streamlit_app.py:199 | a post with a missing rate is not placed, and between two posts with rates the higher rate is plotted at least as high |
| Filters.ByPostType | streamlit_app.py:239-240 | keeps an order-preserving subsequence; for any selection but `All`, it keeps each row of the selected post type as often as it occurs and no other row; `All` keeps every row |
| Filters.PostTypeAll | streamlit_app.py:239 | selecting `All` keeps every row |
| Filters.PostTypeIdempotent | streamlit_app.py:240 | filtering twice by one post type is filtering once |
| Filters.ByDateRange | streamlit_app.py:251-254 | keeps an order-preserving subsequence holding each row with a creation day in the inclusive range as often as it occurs, and no other row |
| Filters.DateRangeInclusive | streamlit_app.py:253-254 | posts created on the start day or on the end day are kept |
| Filters.FiltersCommute | streamlit_app.py:235-254 | the two sidebar filters give the same rows in either order |
| Filters.BySearch | streamlit_app.py:323-325 | keeps an order-preserving subsequence holding each row whose summary contains the term, ignoring case, as often as it occurs, and no other row; an empty term matches everything |
| Filters.EmptySearchKeepsAll | streamlit_app.py:323 | an empty search term keeps every row |
| Filters.SearchIgnoresTermCase | streamlit_app.py:324 | the search result does not depend on the case of the term |
| Filters.SearchExample | streamlit_app.py:324 | a post summarised as "Product Launch Day" is found by "launch" |
| Dashboard.Leader | streamlit_app.py:349-356 | not shown when the column is absent or the table is empty; fails exactly when every value is missing; otherwise the first row holding the largest present value |
| Dashboard.BestPost | streamlit_app.py:349-350 | not shown without the column or rows; fails exactly when every rate is missing; otherwise a post with the highest engagement rate, every earlier post having a strictly lower rate (the first maximum) |
| Dashboard.ImpressionValues | streamlit_app.py:356 | the impressions column as floats, with missing values kept missing |
| Dashboard.MostViewed | streamlit_app.py:355-356 | not shown without the column or rows; fails exactly when every count is missing; otherwise a post with the most impressions, every earlier post having strictly fewer (the first maximum) |
| Dashboard.NoFilterWantsAll | streamlit_app.py:235-254 | with `All` selected and no full date range picked, every row passes the sidebar |
| Dashboard.WantedBothFilters | streamlit_app.py:235-254 | with both filters in force, a row passes exactly when it has the selected type and a creation day in the range |
| Dashboard.ApplyFilters | streamlit_app.py:234-254 | the rows left by the sidebar are a subsequence holding each wanted row as often as it occurs and no other row |
| Dashboard.ChartsSucceedIff | streamlit_app.py:126-206 | the four chart sections all draw without raising exactly when the columns satisfy `ChartsSucceed` |
| Dashboard.FullTableRenders | streamlit_app.py:126-206 | a table with all five data columns draws every chart |
| Dashboard.TrendStopsPage | streamlit_app.py:128-136 | with the creation date but without the click-through column, the trend aggregation raises and the page stops |
| Dashboard.Available | streamlit_app.py:290-298 | the listed columns that exist: a subsequence of summary, impressions, engagement rate, click-through rate, each at most once, with the summary first when present |
| Dashboard.ListedOnce | streamlit_app.py:290-295 | no column is listed twice |
| Dashboard.InsertAt | streamlit_app.py:301 | `list.insert(i, x)` keeps the elements before `i`, puts `x` at `i` and shifts the rest by one; past the end it appends |
| Dashboard.InsertSecond | streamlit_app.py:301 | `insert(1, x)` keeps the first column in place and moves every later one a step on |
| Dashboard.DisplayColumns | streamlit_app.py:290-304 | the table shows exactly the displayable columns the frame has: the available listed columns in their order, `created date` inserted at position 1 when present, `post type` last when present |
| Dashboard.Arrange | streamlit_app.py:298-304 | the available columns keep their order, `created date` goes to position 1 (0 when nothing is available), `post type` goes last, and nothing else is added |
| Dashboard.DisplayMembers | streamlit_app.py:290-304 | the shown columns are exactly the displayable ones that exist |
| Dashboard.Render | streamlit_app.py:224-358 | metrics come from the whole table; the kept rows are those the sidebar keeps; the sections come in order (trend, scatter, the two rankings, the table with the display columns and the search, the download, the two insights), each computed from the kept rows, and every section after the first one that raises is absent; the table is reached exactly when `ChartsSucceed` holds |
| Dashboard.Run | streamlit_app.py:219-228 | no page exactly when no header normalises to `post title`; otherwise the metrics count every post, the kept rows are loaded rows, and a table that is reached shows only kept rows that match the search |

## Left out

- **Interface and I/O.** Reading the Excel sheet (the `All posts` sheet, with the second row as header), the file upload, Streamlit widgets, the CSS, and the messages shown to the user are I/O. The model takes the header and the parsed rows as parameters.
- **Type coercion.** `pd.to_numeric(errors='coerce')` (lines 78, 81 and 85) is not modelled. A `Row` holds already-parsed values. For a rate or the impressions, `None` stands for a value that is missing or could not be parsed.
- Loader.LoadAndProcess: does not model the rejection of a whole load over a bad date. `pd.to_datetime` on `created date` (line 74) has no `errors='coerce'`, so a date that cannot be parsed raises, and the handler at lines 89-91 returns `None` for the whole file. The model takes creation dates already parsed, so for dates `None` stands only for an empty cell.
- **Exceptions during loading.** The generic exception handler in `load_and_process_data` is not modelled, except for the rejection without `post title`.
- **Non-string titles.** `str(text)` on a title that is not a string is not modelled, because the model's titles are strings.
- **Charts.** The Plotly figures and their layout are presentation. The model keeps the data each chart is drawn from, and whether drawing it raises.
- **Bar order.** The top-posts bar chart sorts bars for display with Plotly's `categoryorder`. The model keeps the order `nlargest` returns: best first.
- **Display formatting.** The metric cards, the percentage strings and the thousands separators are formatting. The model keeps the numbers.
- **CSV export.** `to_csv` and the time-stamped file name need a clock. The model keeps only the rows being exported.
- **Case and regex semantics.** Lower-casing and case-insensitive matching cover the ASCII letters only. The search term is treated as a literal string, not as a regular expression.
- **Duplicate headers.** Two headers that normalise to the same name are not modelled. The `columns` list may hold duplicates, and every lookup asks only whether a name is present.
- **Post-type options.** The selectable options, `All` plus the distinct values of the column, are not enumerated. Any string can be selected, so a missing post type cannot be chosen as an option.
- **Date defaults.** The date picker's default range and its bounds (the column's minimum and maximum) are not modelled. The picked dates are a parameter of the view. The widget's own behaviour when no remaining row has a creation date (the minimum is then `NaT`) is not modelled either.
- **Float arithmetic.** Rates and means use exact real arithmetic, not IEEE floating point. Impressions are unbounded integers.
- **Frames as values.** The filtered frames in `main` are modelled as row sequences. A new `DataFrame` and its index labels are not modelled. `df.loc[idxmax]` is modelled by position, which is the same row because filtering keeps the original order.
- **Trend chart x-axis.** The chart's x-axis is each group's calendar day. The time of day within a day is ignored, as `.dt.date` does.
