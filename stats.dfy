/**
 * The pandas reductions the dashboard uses: `Series.sum()` and
 * `Series.mean()`, both of which skip missing values.
 */
module Stats {
  import opened Optional

  /** A pandas float result: `NaN` or a number. */
  datatype Number = NaN | Num(value: real)

  /** The present values of a column, in order. */
  function Present(vals: seq<Option<real>>): (xs: seq<real>)
    ensures |xs| <= |vals|
    ensures forall x :: x in xs <==> Some(x) in vals
  {
    if vals == [] then []
    else (if vals[0].Some? then [vals[0].value] else []) + Present(vals[1..])
  }

  /** `dropna()` leaves nothing exactly when every value is missing. */
  lemma PresentEmptyIff(vals: seq<Option<real>>)
    ensures Present(vals) == [] <==> forall k :: 0 <= k < |vals| ==> vals[k].None?
  {
    if Present(vals) != [] {
      assert Present(vals)[0] in Present(vals);
    }
    forall k | 0 <= k < |vals| && vals[k].Some? ensures Present(vals) != [] {
      assert vals[k].value in Present(vals);
    }
  }

  /** Each value appears in `dropna()` as often as it is present in the column: only missing entries go. */
  lemma {:induction false} PresentCounts(vals: seq<Option<real>>)
    ensures forall x :: multiset(Present(vals))[x] == multiset(vals)[Some(x)]
  {
    if vals != [] {
      PresentCounts(vals[1..]);
      assert vals == [vals[0]] + vals[1..];
    }
  }

  lemma {:induction false} PresentAppend(a: seq<Option<real>>, b: seq<Option<real>>)
    ensures Present(a + b) == Present(a) + Present(b)
  {
    if a == [] {
      assert a + b == b;
    } else {
      assert (a + b)[0] == a[0];
      assert (a + b)[1..] == a[1..] + b;
      PresentAppend(a[1..], b);
    }
  }

  function Sum(xs: seq<real>): real {
    if xs == [] then 0.0 else xs[0] + Sum(xs[1..])
  }

  /** The sum of values that all lie in `[lo, hi]` lies between `n * lo` and `n * hi`. */
  lemma {:induction false} SumBounds(xs: seq<real>, lo: real, hi: real)
    requires forall k :: 0 <= k < |xs| ==> lo <= xs[k] <= hi
    ensures (|xs| as real) * lo <= Sum(xs) <= (|xs| as real) * hi
  {
    if xs != [] {
      SumBounds(xs[1..], lo, hi);
      var n := (|xs| - 1) as real;
      assert (|xs| as real) * lo == n * lo + lo;
      assert (|xs| as real) * hi == n * hi + hi;
    }
  }

  /** `Series.mean()`: the average of the present values, `NaN` when there are none. */
  function Mean(vals: seq<Option<real>>): (m: Number)
    ensures m.NaN? <==> Present(vals) == []
    ensures m.Num? ==> m.value * (|Present(vals)| as real) == Sum(Present(vals))
  {
    var xs := Present(vals);
    if xs == [] then NaN
    else Num(Average(xs))
  }

  /** The sum of the values shared out evenly among them. */
  function Average(xs: seq<real>): (a: real)
    requires xs != []
    ensures a * (|xs| as real) == Sum(xs)
  {
    Sum(xs) / (|xs| as real)
  }

  /** The mean lies between any bounds of the present values. */
  lemma MeanWithin(vals: seq<Option<real>>, lo: real, hi: real)
    requires forall k :: 0 <= k < |vals| && vals[k].Some? ==> lo <= vals[k].value <= hi
    requires Mean(vals).Num?
    ensures lo <= Mean(vals).value <= hi
  {
    PresentWithin(vals, lo, hi);
    BoundedAverage(Present(vals), lo, hi);
  }

  /** The average of values that all lie in `[lo, hi]` lies in `[lo, hi]` too. */
  lemma BoundedAverage(xs: seq<real>, lo: real, hi: real)
    requires xs != [] && forall j :: 0 <= j < |xs| ==> lo <= xs[j] <= hi
    ensures lo <= Average(xs) <= hi
  {
    SumBounds(xs, lo, hi);
    MeanBetween(Average(xs), Sum(xs), |xs| as real, lo, hi);
  }

  /** Bounds on the column's present values bound every value `dropna()` keeps. */
  lemma PresentWithin(vals: seq<Option<real>>, lo: real, hi: real)
    requires forall k :: 0 <= k < |vals| && vals[k].Some? ==> lo <= vals[k].value <= hi
    ensures forall j :: 0 <= j < |Present(vals)| ==> lo <= Present(vals)[j] <= hi
  {
    var xs := Present(vals);
    forall j | 0 <= j < |xs| ensures lo <= xs[j] <= hi {
      assert xs[j] in xs;
      var k :| 0 <= k < |vals| && vals[k] == Some(xs[j]);
    }
  }

  lemma MeanBetween(m: real, s: real, n: real, lo: real, hi: real)
    requires n > 0.0 && m * n == s && n * lo <= s <= n * hi
    ensures lo <= m <= hi
  {
    ScaleMonotone(m, hi, n);
    ScaleMonotone(lo, m, n);
  }

  /** Dividing out a positive factor keeps an inequality. */
  lemma ScaleMonotone(a: real, b: real, n: real)
    requires n > 0.0 && a * n <= b * n
    ensures a <= b
  {
    assert (a - b) * n <= 0.0;
  }

  /** A missing value anywhere in the column leaves the mean unchanged: it is skipped, not counted as zero. */
  lemma MeanSkipsMissing(vals: seq<Option<real>>, k: nat)
    requires k <= |vals|
    ensures Mean(vals[..k] + [None] + vals[k..]) == Mean(vals)
  {
    PresentSkipsMissing(vals[..k], vals[k..]);
    assert vals[..k] + vals[k..] == vals;
  }

  lemma PresentSkipsMissing(a: seq<Option<real>>, b: seq<Option<real>>)
    ensures Present(a + [None] + b) == Present(a + b)
  {
    PresentAppend(a + [None], b);
    PresentAppend(a, [None]);
    PresentAppend(a, b);
  }

  /** `Series.sum()` of a count column: the present values added up, 0 when there are none. */
  function Total(vals: seq<Option<int>>): (t: int)
    ensures (forall k :: 0 <= k < |vals| ==> vals[k].None?) ==> t == 0
    ensures (forall k :: 0 <= k < |vals| && vals[k].Some? ==> vals[k].value >= 0) ==> t >= 0
  {
    if vals == [] then 0
    else (if vals[0].Some? then vals[0].value else 0) + Total(vals[1..])
  }

  lemma {:induction false} TotalAppend(a: seq<Option<int>>, b: seq<Option<int>>)
    ensures Total(a + b) == Total(a) + Total(b)
  {
    if a == [] {
      assert a + b == b;
    } else {
      assert (a + b)[0] == a[0];
      assert (a + b)[1..] == a[1..] + b;
      TotalAppend(a[1..], b);
    }
  }

  /** Non-negative counts have a non-negative total that bounds each of them. */
  lemma {:induction false} TotalBoundsEach(vals: seq<Option<int>>, k: nat)
    requires forall j :: 0 <= j < |vals| && vals[j].Some? ==> vals[j].value >= 0
    requires k < |vals| && vals[k].Some?
    ensures 0 <= vals[k].value <= Total(vals)
  {
    if k > 0 {
      TotalBoundsEach(vals[1..], k - 1);
    }
  }

  /** `x * 100`, with `NaN` staying `NaN`. */
  function Percent(n: Number): (r: Number)
    ensures r.NaN? <==> n.NaN?
    ensures r.Num? ==> r.value / 100.0 == n.value
  {
    match n
    case NaN => NaN
    case Num(v) => Num(v * 100.0)
  }

  /** Scaling to a percentage keeps the order of the values, so the plotted line has the same shape. */
  lemma PercentKeepsOrder(a: Number, b: Number)
    requires a.Num? && b.Num?
    ensures a.value <= b.value <==> Percent(a).value <= Percent(b).value
  {
  }
}
