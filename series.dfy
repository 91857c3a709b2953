/**
 * Reductions over one pixel's time series as xarray performs them: a plain
 * sum, and the NaN-skipping sum and mean (`skipna=True`, the default for
 * float data), where an absent sample is a NaN.
 */
module Series {
  import opened Wrappers
  import opened FloatArith

  function Total(xs: seq<real>): real {
    if xs == [] then 0.0 else xs[0] + Total(xs[1..])
  }

  lemma {:induction false} TotalAppend(a: seq<real>, b: seq<real>)
    ensures Total(a + b) == Total(a) + Total(b)
  {
    if a == [] {
      assert a + b == b;
    } else {
      assert (a + b)[0] == a[0];
      assert (a + b)[1..] == a[1..] + b;
      TotalAppend(a[1..], b);
    }
  }

  lemma {:induction false} TotalBounds(xs: seq<real>, lo: real, hi: real)
    requires forall k :: 0 <= k < |xs| ==> lo <= xs[k] <= hi
    ensures |xs| as real * lo <= Total(xs) <= |xs| as real * hi
  {
    if xs != [] {
      TotalBounds(xs[1..], lo, hi);
    }
  }

  lemma {:induction false} TotalNonNegative(xs: seq<real>)
    requires forall x :: x in xs ==> x >= 0.0
    ensures Total(xs) >= 0.0
  {
    if xs != [] {
      assert xs[0] in xs;
      assert forall x :: x in xs[1..] ==> x in xs;
      TotalNonNegative(xs[1..]);
    }
  }

  /** The samples that are not NaN, in order. */
  function Present(xs: seq<Option<real>>): (r: seq<real>)
    ensures |r| <= |xs|
  {
    if xs == [] then []
    else if xs[0].Some? then [xs[0].value] + Present(xs[1..])
    else Present(xs[1..])
  }

  /** Nothing is present exactly when every sample is NaN. */
  lemma {:induction false} PresentEmpty(xs: seq<Option<real>>)
    ensures Present(xs) == [] <==> forall k :: 0 <= k < |xs| ==> xs[k].None?
  {
    if xs != [] {
      PresentEmpty(xs[1..]);
      assert forall k :: 1 <= k < |xs| ==> xs[k] == xs[1..][k - 1];
    }
  }

  /** Bounds on the non-NaN samples hold for every present value. */
  lemma {:induction false} PresentBounded(xs: seq<Option<real>>, lo: real, hi: real)
    requires forall k :: 0 <= k < |xs| && xs[k].Some? ==> lo <= xs[k].value <= hi
    ensures forall k :: 0 <= k < |Present(xs)| ==> lo <= Present(xs)[k] <= hi
  {
    if xs != [] {
      PresentBounded(xs[1..], lo, hi);
    }
  }

  lemma {:induction false} PresentAppend(a: seq<Option<real>>, b: seq<Option<real>>)
    ensures Present(a + b) == Present(a) + Present(b)
  {
    if a == [] {
      assert a + b == b;
    } else {
      assert (a + b)[0] == a[0];
      assert (a + b)[1..] == a[1..] + b;
      PresentAppend(a[1..], b);
    }
  }

  /** `.sum(dim="time")`: NaN samples count as nothing, so an all-NaN series sums to 0. */
  function SumSkipNaN(xs: seq<Option<real>>): real {
    Total(Present(xs))
  }

  /** `.mean(dim="time")`: the mean of the non-NaN samples, NaN when there are none. */
  function MeanSkipNaN(xs: seq<Option<real>>): (r: Float)
    ensures r.Inf? == false
    ensures r.NaN? <==> forall k :: 0 <= k < |xs| ==> xs[k].None?
    ensures r.Num? ==> |Present(xs)| > 0 && r.x * |Present(xs)| as real == SumSkipNaN(xs)
  {
    var p := Present(xs);
    PresentEmpty(xs);
    if |p| == 0 then NaN else Num(Total(p) / |p| as real)
  }

  /** The NaN-skipping mean lies between the smallest and the largest sample. */
  lemma MeanSkipNaNBounds(xs: seq<Option<real>>, lo: real, hi: real)
    requires forall k :: 0 <= k < |xs| && xs[k].Some? ==> lo <= xs[k].value <= hi
    ensures MeanSkipNaN(xs).Num? ==> lo <= MeanSkipNaN(xs).x <= hi
  {
    var p := Present(xs);
    if |p| > 0 {
      PresentBounded(xs, lo, hi);
      TotalBounds(p, lo, hi);
      QuotientBounds(Total(p), |p| as real, lo, hi);
    }
  }

  /** The mean of a non-empty sequence lies within any bounds of its elements. */
  lemma MeanBounds(xs: seq<real>, lo: real, hi: real)
    requires xs != []
    requires forall k :: 0 <= k < |xs| ==> lo <= xs[k] <= hi
    ensures lo <= Total(xs) / |xs| as real <= hi
  {
    TotalBounds(xs, lo, hi);
    QuotientBounds(Total(xs), |xs| as real, lo, hi);
  }

  lemma QuotientBounds(t: real, n: real, lo: real, hi: real)
    requires n > 0.0 && n * lo <= t <= n * hi
    ensures lo <= t / n <= hi
  {
    var m := t / n;
    assert m * n == t;
    ScaleStrict(m, hi, n);
    ScaleStrict(lo, m, n);
  }

  lemma ScaleStrict(a: real, b: real, n: real)
    requires n > 0.0
    ensures a > b ==> a * n > b * n
  {
    if a > b {
      assert a * n - b * n == (a - b) * n;
    }
  }

  lemma SumSkipNaNSingle(x: real)
    ensures SumSkipNaN([Some(x)]) == x
  {
    assert [Some(x)][1..] == [];
    assert Present([Some(x)]) == [x] + [];
    assert [x] + [] == [x];
    assert [x][1..] == [];
    assert Total([x]) == x + Total([]);
  }

  /** Summing a window in two pieces gives the sum of the whole window. */
  lemma SumSkipNaNAppend(a: seq<Option<real>>, b: seq<Option<real>>)
    ensures SumSkipNaN(a + b) == SumSkipNaN(a) + SumSkipNaN(b)
  {
    PresentAppend(a, b);
    TotalAppend(Present(a), Present(b));
  }
}
