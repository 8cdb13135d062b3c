/**
 * `load_and_process_data`: the data frame is built from the sheet, its
 * column names are overwritten with their normalised form, the load is
 * rejected without a `post title` column, and the summary column is
 * assigned in place.
 */
module Loader {
  import opened Optional
  import opened Summariser
  import opened Table

  /** The pandas data frame: a header list and the rows under it, both updated in place. */
  class Frame {
    var columns: seq<string>
    var rows: seq<Row>

    /** The frame as the spreadsheet reader delivers it. */
    constructor (header: seq<string>, cells: seq<Row>)
      ensures columns == header && rows == cells
    {
      columns := header;
      rows := cells;
    }

    predicate Has(name: string)
      reads this
    {
      name in columns
    }

    /** `df.columns = [str(col).lower().strip() for col in df.columns]`. */
    method NormaliseColumns()
      modifies this
      ensures columns == NormaliseNames(old(columns))
      ensures forall k :: 0 <= k < |columns| ==> IsNormalName(columns[k])
      ensures rows == old(rows)
    {
      columns := NormaliseNames(columns);
    }

    /**
     * `df['post title (first sentence)'] = df['post title'].apply(extract_first_sentence)`:
     * the column is appended unless it already exists, and every row's summary is
     * recomputed from its own title; nothing else in a row changes.
     */
    method AssignSummaryColumn()
      modifies this
      ensures columns == if SummaryColumn in old(columns) then old(columns) else old(columns) + [SummaryColumn]
      ensures |rows| == |old(rows)|
      ensures forall k :: 0 <= k < |rows| ==>
                rows[k].summary == ExtractFirstSentence(old(rows)[k].title)
                && rows[k].(summary := old(rows)[k].summary) == old(rows)[k]
      ensures rows == WithSummaries(old(rows))
    {
      if SummaryColumn !in columns {
        columns := columns + [SummaryColumn];
      }
      rows := WithSummaries(rows);
    }
  }

  /**
   * The column handling of `load_and_process_data`: `null` (Python's `None`)
   * when no header normalises to `post title`, otherwise a fresh frame with
   * normalised headers and a summary for every row.
   */
  method LoadAndProcess(header: seq<string>, cells: seq<Row>) returns (df: Frame?)
    ensures df == null <==> PostTitle !in NormaliseNames(header)
    ensures df != null ==> fresh(df) && df.Has(PostTitle) && df.Has(SummaryColumn)
    ensures df != null ==>
      df.columns == if SummaryColumn in NormaliseNames(header) then NormaliseNames(header) else NormaliseNames(header) + [SummaryColumn]
    ensures df != null ==> forall k :: 0 <= k < |df.columns| ==> IsNormalName(df.columns[k])
    ensures df != null ==> df.rows == WithSummaries(cells)
  {
    df := new Frame(header, cells);
    df.NormaliseColumns();
    if !df.Has(PostTitle) {
      return null;
    }
    WithSummaryColumn(df.columns);
    df.AssignSummaryColumn();
  }

  /** Appending the summary column keeps `post title`, adds the summary column, and keeps every name normal. */
  lemma WithSummaryColumn(normal: seq<string>)
    requires PostTitle in normal
    requires forall k :: 0 <= k < |normal| ==> IsNormalName(normal[k])
    ensures var columns := if SummaryColumn in normal then normal else normal + [SummaryColumn];
      && PostTitle in columns && SummaryColumn in columns
      && forall k :: 0 <= k < |columns| ==> IsNormalName(columns[k])
  {
    SummaryColumnIsNormal();
  }
}
