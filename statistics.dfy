/** sum, min, max and the averages the report takes over lists of numbers, on exact reals. */
module Statistics {

  import opened Options

  /** sum(xs), added left to right. */
  function Sum(xs: seq<real>): real
    decreases |xs|
  {
    if xs == [] then 0.0 else Sum(xs[..|xs| - 1]) + xs[|xs| - 1]
  }

  function Mean(xs: seq<real>): real
    requires xs != []
  {
    Sum(xs) / |xs| as real
  }

  /** min(xs): an element no larger than any other. */
  function Min(xs: seq<real>): (m: real)
    requires xs != []
    ensures m in xs && forall i :: 0 <= i < |xs| ==> m <= xs[i]
    decreases |xs|
  {
    if |xs| == 1 then xs[0]
    else
      var init, last := xs[..|xs| - 1], xs[|xs| - 1];
      var m := Min(init);
      assert forall i :: 0 <= i < |xs| - 1 ==> xs[i] == init[i];
      if last < m then last else m
  }

  /** max(xs): an element no smaller than any other. */
  function Max(xs: seq<real>): (m: real)
    requires xs != []
    ensures m in xs && forall i :: 0 <= i < |xs| ==> xs[i] <= m
    decreases |xs|
  {
    if |xs| == 1 then xs[0]
    else
      var init, last := xs[..|xs| - 1], xs[|xs| - 1];
      var m := Max(init);
      assert forall i :: 0 <= i < |xs| - 1 ==> xs[i] == init[i];
      if last > m then last else m
  }

  lemma {:induction false} SumBounds(xs: seq<real>, lo: real, hi: real)
    requires forall i :: 0 <= i < |xs| ==> lo <= xs[i] <= hi
    ensures |xs| as real * lo <= Sum(xs) <= |xs| as real * hi
    decreases |xs|
  {
    if xs != [] {
      SumBounds(xs[..|xs| - 1], lo, hi);
    }
  }

  lemma QuotientBounds(total: real, n: real, lo: real, hi: real)
    requires 0.0 < n && n * lo <= total <= n * hi
    ensures lo <= total / n <= hi
  {
    assert total / n * n == total;
  }

  /** The mean lies between the smallest and the largest element. */
  lemma MeanWithinRange(xs: seq<real>)
    requires xs != []
    ensures Min(xs) <= Mean(xs) <= Max(xs)
  {
    SumBounds(xs, Min(xs), Max(xs));
    QuotientBounds(Sum(xs), |xs| as real, Min(xs), Max(xs));
  }

  lemma {:induction false} SumNonNegative(xs: seq<real>)
    requires forall i :: 0 <= i < |xs| ==> 0.0 <= xs[i]
    ensures 0.0 <= Sum(xs)
    decreases |xs|
  {
    if xs != [] {
      SumNonNegative(xs[..|xs| - 1]);
    }
  }

  lemma SquareNonNegative(x: real)
    ensures 0.0 <= x * x
  {
  }

  /** [x ** 2 for x in xs] */
  function Squares(xs: seq<real>): (r: seq<real>)
    ensures |r| == |xs| && forall i :: 0 <= i < |r| ==> r[i] == xs[i] * xs[i] && 0.0 <= r[i]
  {
    var r := seq(|xs|, i requires 0 <= i < |xs| => xs[i] * xs[i]);
    assert forall i :: 0 <= i < |r| ==> 0.0 <= r[i] by {
      forall i | 0 <= i < |r| {
        SquareNonNegative(xs[i]);
      }
    }
    r
  }

  /** [(x - m) ** 2 for x in xs] */
  function SquaredDeviations(xs: seq<real>, m: real): (r: seq<real>)
    ensures |r| == |xs| && forall i :: 0 <= i < |r| ==> r[i] == (xs[i] - m) * (xs[i] - m) && 0.0 <= r[i]
  {
    var r := seq(|xs|, i requires 0 <= i < |xs| => (xs[i] - m) * (xs[i] - m));
    assert forall i :: 0 <= i < |r| ==> 0.0 <= r[i] by {
      forall i | 0 <= i < |r| {
        SquareNonNegative(xs[i] - m);
      }
    }
    r
  }

  /** sum(1 for x in xs if x < lo or x > hi) */
  function CountOutside(xs: seq<real>, lo: real, hi: real): (n: nat)
    ensures n <= |xs|
    decreases |xs|
  {
    if xs == [] then 0
    else CountOutside(xs[..|xs| - 1], lo, hi) + (if xs[|xs| - 1] < lo || xs[|xs| - 1] > hi then 1 else 0)
  }

  /** The positions whose element falls strictly outside [lo, hi]. */
  function OutsideIndices(xs: seq<real>, lo: real, hi: real): set<nat> {
    set i: nat | i < |xs| && (xs[i] < lo || xs[i] > hi)
  }

  /** The count is the number of positions outside the limits. */
  lemma {:induction false} CountOutsideCounts(xs: seq<real>, lo: real, hi: real)
    ensures CountOutside(xs, lo, hi) == |OutsideIndices(xs, lo, hi)|
    decreases |xs|
  {
    if xs != [] {
      var n := |xs| - 1;
      var init := xs[..n];
      CountOutsideCounts(init, lo, hi);
      var before := OutsideIndices(init, lo, hi);
      if xs[n] < lo || xs[n] > hi {
        assert OutsideIndices(xs, lo, hi) == before + {n};
      } else {
        assert OutsideIndices(xs, lo, hi) == before;
      }
    }
  }

  /** The (avg, min, max) triple of calculate_stats. */
  datatype Stats = Stats(avg: Option<real>, min: Option<real>, max: Option<real>)

  /** calculate_stats: (None, None, None) for no data, else (sum/len, min, max). */
  function CalculateStats(data: seq<real>): (r: Stats)
    ensures data == [] ==> r == Stats(None, None, None)
    ensures data != [] ==> && r.avg.Some? && r.min.Some? && r.max.Some?
                           && r.min.value <= r.avg.value <= r.max.value
                           && r.min.value in data && r.max.value in data
                           && forall i :: 0 <= i < |data| ==> r.min.value <= data[i] <= r.max.value
  {
    if data == [] then Stats(None, None, None)
    else
      MeanWithinRange(data);
      Stats(Some(Mean(data)), Some(Min(data)), Some(Max(data)))
  }
}
