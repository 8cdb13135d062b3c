/**
 * The row selections of the dashboard: the sidebar's post-type and date-range
 * filters, and the search over the summary column of the table.
 */
module Filters {
  import opened Optional
  import opened Text
  import opened Seqs
  import opened Table

  /** The sidebar option that switches the post-type filter off. */
  const All: string := "All"

  predicate OfType(r: Row, selected: string) {
    r.postType == Some(selected)
  }

  function TypeMask(selected: string): Row -> bool {
    r => OfType(r, selected)
  }

  /** `df[df['post type'] == selected]`, skipped when `All` is selected. */
  function ByPostType(rows: seq<Row>, selected: string): (kept: seq<Row>)
    ensures IsSubsequence(kept, rows)
    ensures selected != All ==> forall r :: r in kept <==> r in rows && OfType(r, selected)
    ensures selected != All ==> forall r :: multiset(kept)[r] == if OfType(r, selected) then multiset(rows)[r] else 0
    ensures selected == All ==> kept == rows
  {
    if selected == All then
      SubsequenceReflexive(rows);
      rows
    else
      var kept := Keep(rows, TypeMask(selected));
      forall r ensures r in kept <==> r in rows && OfType(r, selected) {
        KeepMember(rows, TypeMask(selected), r);
      }
      kept
  }

  /** The post was created on a day in `[start, end]`; a post without a date is in no range. */
  predicate InRange(r: Row, start: int, end: int) {
    r.created.Some? && start <= r.created.value.day <= end
  }

  function RangeMask(start: int, end: int): Row -> bool {
    r => InRange(r, start, end)
  }

  /** `df[(df['created date'].dt.date >= start) & (df['created date'].dt.date <= end)]`. */
  function ByDateRange(rows: seq<Row>, start: int, end: int): (kept: seq<Row>)
    ensures IsSubsequence(kept, rows)
    ensures forall r :: r in kept <==> r in rows && InRange(r, start, end)
    ensures forall r :: multiset(kept)[r] == if InRange(r, start, end) then multiset(rows)[r] else 0
  {
    var kept := Keep(rows, RangeMask(start, end));
    forall r ensures r in kept <==> r in rows && InRange(r, start, end) {
      KeepMember(rows, RangeMask(start, end), r);
    }
    kept
  }

  predicate Matches(r: Row, term: string) {
    ContainsIgnoreCase(r.summary, term)
  }

  /** `str.contains(term, case=False)` on the summary column, skipped for an empty term. */
  function BySearch(rows: seq<Row>, term: string): (kept: seq<Row>)
    ensures IsSubsequence(kept, rows)
    ensures forall r :: r in kept <==> r in rows && Matches(r, term)
    ensures forall r :: multiset(kept)[r] == if Matches(r, term) then multiset(rows)[r] else 0
  {
    if term == [] then
      forall r | r in rows ensures Matches(r, term) {
        assert Lower(r.summary)[..0] == [];
      }
      SubsequenceReflexive(rows);
      rows
    else
      var kept := Keep(rows, SearchMask(term));
      forall r ensures r in kept <==> r in rows && Matches(r, term) {
        KeepMember(rows, SearchMask(term), r);
      }
      kept
  }

  function SearchMask(term: string): Row -> bool {
    r => Matches(r, term)
  }

  /** Selecting `All` keeps every row; any other selection keeps only rows of that type. */
  lemma PostTypeAll(rows: seq<Row>)
    ensures ByPostType(rows, All) == rows
  {
  }

  /** Filtering twice by the same post type is filtering once. */
  lemma PostTypeIdempotent(rows: seq<Row>, selected: string)
    ensures ByPostType(ByPostType(rows, selected), selected) == ByPostType(rows, selected)
  {
    if selected != All {
      KeepAll(ByPostType(rows, selected), r => OfType(r, selected));
    }
  }

  /** The two sidebar filters select the same rows in either order. */
  lemma FiltersCommute(rows: seq<Row>, selected: string, start: int, end: int)
    ensures ByDateRange(ByPostType(rows, selected), start, end)
         == ByPostType(ByDateRange(rows, start, end), selected)
  {
    if selected != All {
      KeepCommute(rows, TypeMask(selected), RangeMask(start, end));
    }
  }

  /** Both ends of the date range are included. */
  lemma DateRangeInclusive(rows: seq<Row>, r: Row, start: int, end: int)
    requires r in rows && r.created.Some?
    requires r.created.value.day == start || r.created.value.day == end
    requires start <= end
    ensures r in ByDateRange(rows, start, end)
  {
  }

  /** An empty search term keeps every row. */
  lemma EmptySearchKeepsAll(rows: seq<Row>)
    ensures BySearch(rows, "") == rows
  {
  }

  /** The search does not depend on the case of the term. */
  lemma SearchIgnoresTermCase(rows: seq<Row>, term: string)
    ensures BySearch(rows, Lower(term)) == BySearch(rows, term)
  {
    LowerNoUpper(Lower(term));
    if term != [] {
      assert Lower(term) != [];
      KeepEquivalent(rows, SearchMask(Lower(term)), SearchMask(term));
    }
  }

  /** A post summarised as "Product Launch Day" is found by the term "launch". */
  lemma SearchExample(rows: seq<Row>, r: Row)
    requires r in rows && r.summary == "Product Launch Day"
    ensures r in BySearch(rows, "launch")
  {
    var s := Lower(r.summary);
    var t := Lower("launch");
    assert t == "launch";
    assert s[8..14] == "launch";
    assert OccursAt(s, t, 8);
    ContainsAt(s, t);
  }
}
