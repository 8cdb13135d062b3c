/**
 * Ranking rows by a metric: `DataFrame.nlargest(n, metric)` behind the top
 * posts charts, and `Series.idxmax()` behind the "best performing" and
 * "most viewed" picks. Both skip missing values and, among equal values,
 * prefer the earlier row.
 */
module Ranking {
  import opened Optional
  import opened Table

  /**
   * Row `i` ranks ahead of row `j`: both values are present and `i`'s is larger,
   * or they are equal and `i` comes first (`keep='first'`).
   */
  predicate Ahead(vals: seq<Option<real>>, i: int, j: int) {
    0 <= i < |vals| && 0 <= j < |vals| && vals[i].Some? && vals[j].Some?
    && (vals[i].value > vals[j].value || (vals[i].value == vals[j].value && i < j))
  }

  /** Ranking ahead is a strict order: no row is ahead of itself, and it is transitive. */
  lemma AheadStrictOrder(vals: seq<Option<real>>, i: int, j: int, k: int)
    ensures !Ahead(vals, i, i)
    ensures Ahead(vals, i, j) ==> !Ahead(vals, j, i)
    ensures Ahead(vals, i, j) && Ahead(vals, j, k) ==> Ahead(vals, i, k)
  {
  }

  /** Strictly increasing row positions whose values are present. */
  predicate Candidates(vals: seq<Option<real>>, cands: seq<nat>) {
    && (forall k :: 0 <= k < |cands| ==> cands[k] < |vals| && vals[cands[k]].Some?)
    && (forall k, l :: 0 <= k < l < |cands| ==> cands[k] < cands[l])
  }

  /** The positions of the present values, in row order. */
  function Valued(vals: seq<Option<real>>): (r: seq<nat>)
    ensures Candidates(vals, r)
    ensures forall i :: 0 <= i < |vals| ==> (i in r <==> vals[i].Some?)
    ensures forall x :: x in r ==> x < |vals|
  {
    if vals == [] then []
    else
      var n := |vals| - 1;
      var init := Valued(vals[..n]);
      assert forall k :: 0 <= k < |init| ==> init[k] < n && vals[init[k]] == vals[..n][init[k]];
      if vals[n].Some? then init + [n] else init
  }

  /** The positions of the missing values, in row order. */
  function Gaps(vals: seq<Option<real>>): (r: seq<nat>)
    ensures forall k :: 0 <= k < |r| ==> r[k] < |vals| && vals[r[k]].None?
    ensures forall k, l :: 0 <= k < l < |r| ==> r[k] < r[l]
    ensures forall i :: 0 <= i < |vals| ==> (i in r <==> vals[i].None?)
  {
    if vals == [] then []
    else
      var n := |vals| - 1;
      var init := Gaps(vals[..n]);
      assert forall i :: 0 <= i < n ==> vals[..n][i] == vals[i];
      assert forall k :: 0 <= k < |init| ==> init[k] < n;
      if vals[n].None? then init + [n] else init
  }

  /** Every row is either valued or a gap. */
  lemma {:induction false} ValuedGapsCount(vals: seq<Option<real>>)
    ensures |Valued(vals)| + |Gaps(vals)| == |vals|
  {
    if vals != [] {
      ValuedGapsCount(vals[..|vals| - 1]);
    }
  }

  /** The position in `cands` of the candidate that ranks ahead of all the others. */
  function BestPos(vals: seq<Option<real>>, cands: seq<nat>): (p: nat)
    requires Candidates(vals, cands) && |cands| > 0
    ensures p < |cands|
    ensures forall q :: 0 <= q < |cands| && q != p ==> Ahead(vals, cands[p], cands[q])
    decreases |cands|
  {
    if |cands| == 1 then 0
    else
      var p := BestPos(vals, cands[1..]);
      if vals[cands[0]].value >= vals[cands[1 + p]].value then 0 else 1 + p
  }

  /** Removing one candidate leaves candidates, namely all the others. */
  lemma RemoveCandidate(vals: seq<Option<real>>, cands: seq<nat>, p: nat)
    requires Candidates(vals, cands) && p < |cands|
    ensures Candidates(vals, cands[..p] + cands[p + 1..])
    ensures forall x :: x in cands[..p] + cands[p + 1..] <==> x in cands && x != cands[p]
  {
    var rest := cands[..p] + cands[p + 1..];
    assert forall k :: 0 <= k < |rest| ==> rest[k] == if k < p then cands[k] else cands[k + 1];
    forall x | x in cands && x != cands[p] ensures x in rest {
      var q :| 0 <= q < |cands| && cands[q] == x;
      if q < p { assert rest[q] == x; } else { assert rest[q - 1] == x; }
    }
  }

  /** Repeatedly take the candidate that ranks ahead of all others, `n` times. */
  function TopFrom(vals: seq<Option<real>>, cands: seq<nat>, n: nat): (r: seq<nat>)
    requires Candidates(vals, cands)
    ensures |r| == if n < |cands| then n else |cands|
    ensures forall k :: 0 <= k < |r| ==> r[k] in cands
    ensures forall k, l :: 0 <= k < l < |r| ==> Ahead(vals, r[k], r[l])
    ensures forall j, k :: j in cands && j !in r && 0 <= k < |r| ==> Ahead(vals, r[k], j)
    ensures n >= |cands| ==> forall j :: j in cands ==> j in r
    decreases n
  {
    if n == 0 || cands == [] then []
    else
      var p := BestPos(vals, cands);
      var rest := cands[..p] + cands[p + 1..];
      RemoveCandidate(vals, cands, p);
      var tail := TopFrom(vals, rest, n - 1);
      TakeBest(vals, cands, p, tail);
      [cands[p]] + tail
  }

  /** Putting the best candidate in front of a ranking of the others gives a ranking of all of them. */
  lemma TakeBest(vals: seq<Option<real>>, cands: seq<nat>, p: nat, tail: seq<nat>)
    requires Candidates(vals, cands) && p < |cands|
    requires forall q :: 0 <= q < |cands| && q != p ==> Ahead(vals, cands[p], cands[q])
    requires forall x :: x in cands[..p] + cands[p + 1..] <==> x in cands && x != cands[p]
    requires forall k :: 0 <= k < |tail| ==> tail[k] in cands[..p] + cands[p + 1..]
    requires forall k, l :: 0 <= k < l < |tail| ==> Ahead(vals, tail[k], tail[l])
    requires forall j, k :: j in cands[..p] + cands[p + 1..] && j !in tail && 0 <= k < |tail| ==> Ahead(vals, tail[k], j)
    ensures var r := [cands[p]] + tail;
      && (forall k :: 0 <= k < |r| ==> r[k] in cands)
      && (forall k, l :: 0 <= k < l < |r| ==> Ahead(vals, r[k], r[l]))
      && (forall j, k :: j in cands && j !in r && 0 <= k < |r| ==> Ahead(vals, r[k], j))
  {
    var r := [cands[p]] + tail;
    forall x | x in cands && x != cands[p] ensures Ahead(vals, cands[p], x) {
      var q :| 0 <= q < |cands| && cands[q] == x;
    }
    assert forall k :: 1 <= k < |r| ==> r[k] == tail[k - 1];
  }

  /**
   * Row `i` comes before row `j` in `sort_values(ascending=False)` with the
   * missing values placed last: it ranks ahead by value, or it has a value
   * where `j` has none, or both are missing and `i` is the earlier row.
   */
  predicate Before(vals: seq<Option<real>>, i: int, j: int) {
    || Ahead(vals, i, j)
    || (0 <= i < |vals| && 0 <= j < |vals| && vals[i].Some? && vals[j].None?)
    || (0 <= i < j < |vals| && vals[i].None? && vals[j].None?)
  }

  /**
   * `nlargest(n)` as row positions: the first `min(n, len)` rows in the order
   * `Before`, that is the present values best first, then as many rows with a
   * missing value as are needed, in row order. Every row left out comes after
   * every row taken.
   */
  function TopPositions(vals: seq<Option<real>>, n: nat): (r: seq<nat>)
    ensures |r| == if n < |vals| then n else |vals|
    ensures forall k :: 0 <= k < |r| ==> r[k] < |vals|
    ensures forall k, l :: 0 <= k < l < |r| ==> Before(vals, r[k], r[l])
    ensures forall j, k :: 0 <= j < |vals| && j !in r && 0 <= k < |r| ==> Before(vals, r[k], j)
  {
    var top := TopFrom(vals, Valued(vals), n);
    var gaps := Gaps(vals);
    var m: nat := if n - |top| < |gaps| then n - |top| else |gaps|;
    TopThenGaps(vals, n, top, gaps, m);
    top + gaps[..m]
  }

  /** The ranked present values followed by the first missing ones are the first rows in the order `Before`. */
  lemma TopThenGaps(vals: seq<Option<real>>, n: nat, top: seq<nat>, gaps: seq<nat>, m: nat)
    requires top == TopFrom(vals, Valued(vals), n) && gaps == Gaps(vals)
    requires m == if n - |top| < |gaps| then n - |top| else |gaps|
    ensures var r := top + gaps[..m];
      && |r| == (if n < |vals| then n else |vals|)
      && (forall k :: 0 <= k < |r| ==> r[k] < |vals|)
      && (forall k, l :: 0 <= k < l < |r| ==> Before(vals, r[k], r[l]))
      && (forall j, k :: 0 <= j < |vals| && j !in r && 0 <= k < |r| ==> Before(vals, r[k], j))
  {
    ValuedGapsCount(vals);
    assert forall k :: 0 <= k < |top| ==> top[k] in Valued(vals);
    TopThenGapsOrder(vals, top, gaps, m);
    TopThenGapsLeftOut(vals, n, top, gaps, m);
  }

  lemma TopThenGapsOrder(vals: seq<Option<real>>, top: seq<nat>, gaps: seq<nat>, m: nat)
    requires forall k :: 0 <= k < |top| ==> top[k] < |vals| && vals[top[k]].Some?
    requires forall k, l :: 0 <= k < l < |top| ==> Ahead(vals, top[k], top[l])
    requires forall k :: 0 <= k < |gaps| ==> gaps[k] < |vals| && vals[gaps[k]].None?
    requires forall k, l :: 0 <= k < l < |gaps| ==> gaps[k] < gaps[l]
    requires m <= |gaps|
    ensures var r := top + gaps[..m];
      && (forall k :: 0 <= k < |r| ==> r[k] < |vals|)
      && (forall k, l :: 0 <= k < l < |r| ==> Before(vals, r[k], r[l]))
  {
    var r := top + gaps[..m];
    assert forall k :: 0 <= k < |top| ==> r[k] == top[k];
    assert forall k :: |top| <= k < |r| ==> r[k] == gaps[k - |top|];
    forall k, l | 0 <= k < l < |r| ensures Before(vals, r[k], r[l]) {
      if l < |top| {
        assert Ahead(vals, top[k], top[l]);
      } else if k < |top| {
        assert vals[r[k]].Some? && vals[r[l]].None?;
      } else {
        assert gaps[k - |top|] < gaps[l - |top|];
      }
    }
  }

  lemma TopThenGapsLeftOut(vals: seq<Option<real>>, n: nat, top: seq<nat>, gaps: seq<nat>, m: nat)
    requires top == TopFrom(vals, Valued(vals), n) && gaps == Gaps(vals)
    requires m == if n - |top| < |gaps| then n - |top| else |gaps|
    ensures var r := top + gaps[..m];
      forall j, k :: 0 <= j < |vals| && j !in r && 0 <= k < |r| ==> Before(vals, r[k], j)
  {
    var cands := Valued(vals);
    var r := top + gaps[..m];
    assert m > 0 ==> |top| == |cands|;
    forall j, k | 0 <= j < |vals| && j !in r && 0 <= k < |r| ensures Before(vals, r[k], j) {
      if k < |top| {
        assert r[k] == top[k] && vals[r[k]].Some?;
        if vals[j].Some? {
          assert j in cands;
          assert j !in top;
        }
      } else {
        assert r[k] == gaps[k - |top|];
        assert forall x :: x in cands ==> x in top;
        assert j !in cands;
        assert j in gaps;
        var t :| 0 <= t < |gaps| && gaps[t] == j;
        assert forall u :: 0 <= u < m ==> r[|top| + u] == gaps[u];
        assert t >= m;
      }
    }
  }

  /** The ranked rows with values come first, in descending order of value, and no row is taken twice. */
  lemma TopPositionsDescending(vals: seq<Option<real>>, n: nat, k: nat, l: nat)
    requires k < l < |TopPositions(vals, n)|
    ensures var r := TopPositions(vals, n);
      && r[k] != r[l]
      && (vals[r[l]].Some? ==> vals[r[k]].Some? && vals[r[k]].value >= vals[r[l]].value)
  {
  }

  /** `nlargest(2)` of 0.5, 0.9, 0.2, 0.7 takes the rows holding 0.9 and 0.7, in that order. */
  lemma TopTwoExample()
    ensures TopPositions([Some(0.5), Some(0.9), Some(0.2), Some(0.7)], 2) == [1, 3]
  {
    var vals: seq<Option<real>> := [Some(0.5), Some(0.9), Some(0.2), Some(0.7)];
    ValuedAllPresent(vals);
    assert seq(4, i => i) == [0, 1, 2, 3];
    ExampleTopFrom(vals);
  }

  /** `nlargest(10)` of 0.5 and a missing value keeps both rows, the missing one last. */
  lemma TopMissingExample()
    ensures TopPositions([Some(0.5), None], 10) == [0, 1]
  {
    var vals: seq<Option<real>> := [Some(0.5), None];
    var r := TopPositions(vals, 10);
    PresentThenMissing(vals, r);
  }

  /** With one present and one missing value, the only order is the present row, then the missing one. */
  lemma PresentThenMissing(vals: seq<Option<real>>, r: seq<nat>)
    requires |vals| == 2 && vals[0].Some? && vals[1].None?
    requires |r| == 2 && r[0] < 2 && r[1] < 2 && Before(vals, r[0], r[1])
    ensures r == [0, 1]
  {
  }

  /** When no value is missing, every position is a candidate. */
  lemma {:induction false} ValuedAllPresent(vals: seq<Option<real>>)
    requires forall k :: 0 <= k < |vals| ==> vals[k].Some?
    ensures Valued(vals) == seq(|vals|, i => i)
    ensures Gaps(vals) == []
  {
    if vals != [] {
      var n := |vals| - 1;
      ValuedAllPresent(vals[..n]);
      assert seq(n, i => i) + [n] == seq(|vals|, i => i);
    }
  }

  lemma ExampleTopFrom(vals: seq<Option<real>>)
    requires vals == [Some(0.5), Some(0.9), Some(0.2), Some(0.7)]
    ensures TopFrom(vals, [0, 1, 2, 3], 2) == [1, 3]
  {
    var all: seq<nat> := [0, 1, 2, 3];
    var rest: seq<nat> := [0, 2, 3];
    ExampleBest(vals);
    assert all[..1] + all[2..] == rest;
    assert rest[..2] + rest[3..] == [0, 2];
    assert TopFrom(vals, rest, 1) == [3];
  }

  lemma ExampleBest(vals: seq<Option<real>>)
    requires vals == [Some(0.5), Some(0.9), Some(0.2), Some(0.7)]
    ensures BestPos(vals, [0, 1, 2, 3]) == 1
    ensures BestPos(vals, [0, 2, 3]) == 2
  {
    var all: seq<nat> := [0, 1, 2, 3];
    var rest: seq<nat> := [0, 2, 3];
    assert BestPos(vals, [2, 3]) == 1 by { assert [2, 3][1..] == [3]; }
    assert BestPos(vals, all[1..]) == 0 by { assert all[1..][1..] == [2, 3]; }
    assert rest[1..] == [2, 3];
  }

  /** `Series.idxmax()`: the first position holding the largest present value; `None` when every value is missing. */
  function FirstMax(vals: seq<Option<real>>): (r: Option<nat>)
    ensures r.None? <==> forall i :: 0 <= i < |vals| ==> vals[i].None?
    ensures r.Some? ==> r.value < |vals| && vals[r.value].Some?
    ensures r.Some? ==> forall j :: 0 <= j < |vals| && vals[j].Some? ==> vals[j].value <= vals[r.value].value
    ensures r.Some? ==> forall j :: 0 <= j < r.value && vals[j].Some? ==> vals[j].value < vals[r.value].value
  {
    if vals == [] then None
    else
      var n := |vals| - 1;
      var r := FirstMax(vals[..n]);
      assert forall j :: 0 <= j < n ==> vals[..n][j] == vals[j];
      match vals[n]
      case None => r
      case Some(v) => if r.Some? && vals[r.value].value >= v then r else Some(n)
  }

  /** `idxmax` picks the row `nlargest(1)` puts first. */
  lemma FirstMaxIsTopOne(vals: seq<Option<real>>)
    ensures FirstMax(vals) == if |Valued(vals)| == 0 then None else Some(TopPositions(vals, 1)[0])
  {
    var m := FirstMax(vals);
    if |Valued(vals)| == 0 {
      forall i | 0 <= i < |vals| ensures vals[i].None? {
        if vals[i].Some? { assert false; }
      }
    } else {
      var r := TopPositions(vals, 1);
      var i := m.value;
      assert |r| == 1;
      var t := r[0];
      assert i in r || Before(vals, t, i);
    }
  }

  /** The top `n` rows themselves. */
  function Pick(rows: seq<Row>, positions: seq<nat>): (r: seq<Row>)
    requires forall k :: 0 <= k < |positions| ==> positions[k] < |rows|
    ensures |r| == |positions|
    ensures forall k :: 0 <= k < |r| ==> r[k] == rows[positions[k]]
  {
    seq(|positions|, k requires 0 <= k < |positions| => rows[positions[k]])
  }

  /**
   * What `create_top_posts_chart` plots: nothing without the metric column;
   * a `KeyError` when the summary or impressions column it selects is missing;
   * otherwise the `nlargest(n, metric)` rows.
   */
  datatype TopChart = NoTopChart | TopKeyError | TopPosts(posts: seq<Row>)

  function TopPostsChart(columns: seq<string>, rows: seq<Row>, m: Rate, n: nat): (c: TopChart)
    ensures c.NoTopChart? <==> RateColumn(m) !in columns
    ensures c.TopKeyError? <==> RateColumn(m) in columns && (SummaryColumn !in columns || Impressions !in columns)
    ensures c.TopPosts? ==> c.posts == Pick(rows, TopPositions(Rates(rows, m), n))
    ensures c.TopPosts? ==> |c.posts| == if n < |rows| then n else |rows|
    ensures c.TopPosts? ==> forall k :: 0 <= k < |c.posts| ==> c.posts[k] in rows
    ensures c.TopPosts? ==> forall k, l :: 0 <= k < l < |c.posts| && RateOf(c.posts[l], m).Some? ==>
      RateOf(c.posts[k], m).Some? && RateOf(c.posts[k], m).value >= RateOf(c.posts[l], m).value
  {
    if RateColumn(m) !in columns then NoTopChart
    else if SummaryColumn !in columns || Impressions !in columns then TopKeyError
    else
      var vals := Rates(rows, m);
      var top := TopPositions(vals, n);
      TopPosts(Pick(rows, top))
  }
}
