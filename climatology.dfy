/**
 * Climatology subsetting: a climatology holds one normal per day-of-year
 * label 1, 2, ..., and an interval of the year selects the labels it covers,
 * wrapping around the end of the year when it starts after it ends.
 */
module Climatology {
  import opened FloatArith
  import opened Series

  /** The largest label the wrapping branch asks for. */
  const LastLabel: int := 366

  /**
   * The labels `subset_clim_interval` keeps: the inclusive label slice from
   * start to end, or, when start is not before end, the labels up to end
   * together with the labels from start up to the last label.
   */
  predicate Selected(doy: int, start: int, end: int) {
    if start < end then start <= doy <= end
    else doy <= end || start <= doy <= LastLabel
  }

  /** The values, labelled first, first + 1, ..., whose labels are selected, in label order. */
  function SubsetFrom(values: seq<real>, first: int, start: int, end: int): seq<real> {
    if values == [] then []
    else (if Selected(first, start, end) then [values[0]] else []) + SubsetFrom(values[1..], first + 1, start, end)
  }

  /**
   * `subset_clim_interval` on one grid cell's climatology, labelled 1, 2, ...:
   * some of its normals, each taken once.
   */
  function SubsetClimInterval(values: seq<real>, start: int, end: int): (r: seq<real>)
    ensures |r| <= |values|
    ensures forall x :: x in r ==> x in values
  {
    SubsetLength(values, 1, start, end);
    SubsetMembers(values, 1, start, end);
    SubsetFrom(values, 1, start, end)
  }

  lemma {:induction false} SubsetLength(values: seq<real>, first: int, start: int, end: int)
    ensures |SubsetFrom(values, first, start, end)| <= |values|
  {
    if values != [] {
      SubsetLength(values[1..], first + 1, start, end);
    }
  }

  lemma {:induction false} SubsetAppend(a: seq<real>, b: seq<real>, first: int, start: int, end: int)
    ensures SubsetFrom(a + b, first, start, end) == SubsetFrom(a, first, start, end) + SubsetFrom(b, first + |a|, start, end)
  {
    if a == [] {
      assert a + b == b;
    } else {
      assert (a + b)[0] == a[0];
      assert (a + b)[1..] == a[1..] + b;
      SubsetAppend(a[1..], b, first + 1, start, end);
    }
  }

  lemma {:induction false} SubsetAll(values: seq<real>, first: int, start: int, end: int)
    requires forall d :: first <= d < first + |values| ==> Selected(d, start, end)
    ensures SubsetFrom(values, first, start, end) == values
  {
    if values != [] {
      SubsetAll(values[1..], first + 1, start, end);
    }
  }

  lemma {:induction false} SubsetNone(values: seq<real>, first: int, start: int, end: int)
    requires forall d :: first <= d < first + |values| ==> !Selected(d, start, end)
    ensures SubsetFrom(values, first, start, end) == []
  {
    if values != [] {
      SubsetNone(values[1..], first + 1, start, end);
    }
  }

  /** An interval within one year selects the contiguous normals of its days. */
  lemma SubsetWithinYear(values: seq<real>, start: int, end: int)
    requires 1 <= start < end <= |values|
    ensures SubsetClimInterval(values, start, end) == values[start - 1..end]
  {
    var a, b, c := values[..start - 1], values[start - 1..end], values[end..];
    assert values == a + (b + c);
    SubsetAppend(a, b + c, 1, start, end);
    SubsetAppend(b, c, start, start, end);
    SubsetNone(a, 1, start, end);
    SubsetAll(b, start, start, end);
    SubsetNone(c, end + 1, start, end);
  }

  /** After the interval's end, only the labels from its start on are selected. */
  lemma SubsetAfterEnd(b: seq<real>, c: seq<real>, start: int, end: int)
    requires 1 <= end < start && |b| == start - 1 - end && start + |c| <= LastLabel + 1
    ensures SubsetFrom(b + c, end + 1, start, end) == c
  {
    SubsetAppend(b, c, end + 1, start, end);
    SubsetNone(b, end + 1, start, end);
    SubsetAll(c, start, start, end);
    assert [] + c == c;
  }

  /** An interval across the new year selects the year's end and its beginning. */
  lemma SubsetAcrossYearEnd(values: seq<real>, start: int, end: int)
    requires 1 <= end < start <= |values| <= LastLabel
    ensures SubsetClimInterval(values, start, end) == values[..end] + values[start - 1..]
  {
    var a, rest := values[..end], values[end..];
    assert values == a + rest;
    SubsetAppend(a, rest, 1, start, end);
    SubsetAll(a, 1, start, end);
    assert rest == values[end..start - 1] + values[start - 1..];
    SubsetAfterEnd(values[end..start - 1], values[start - 1..], start, end);
  }

  /** An interval that starts and ends on the same label selects the whole climatology. */
  lemma SubsetSameDay(values: seq<real>, day: int)
    requires |values| <= LastLabel
    ensures SubsetClimInterval(values, day, day) == values
  {
    SubsetAll(values, 1, day, day);
  }

  /**
   * Across the new year the selection holds end + 367 - start normals: one
   * more than the days of the interval whenever the interval does not
   * contain the 366th label's date, as in every year that is not a leap year.
   */
  lemma SubsetAcrossYearEndLength(values: seq<real>, start: int, end: int)
    requires 1 <= end < start <= |values| == LastLabel
    ensures |SubsetClimInterval(values, start, end)| == end + LastLabel + 1 - start
  {
    SubsetAcrossYearEnd(values, start, end);
  }

  /** `.sum(dim="time")` of the selected normals. */
  function ClimSum(values: seq<real>, start: int, end: int): real {
    Total(SubsetClimInterval(values, start, end))
  }

  /** `.mean(dim="time")` of the selected normals; NaN when no label is selected. */
  function ClimMean(values: seq<real>, start: int, end: int): (r: Float)
    ensures !r.Inf?
    ensures r.NaN? <==> SubsetClimInterval(values, start, end) == []
    ensures r.Num? ==> r.x * |SubsetClimInterval(values, start, end)| as real == ClimSum(values, start, end)
  {
    var sub := SubsetClimInterval(values, start, end);
    if sub == [] then NaN else Num(Total(sub) / |sub| as real)
  }

  /** Across the new year, the normal total is the year-end part plus the year-start part. */
  lemma ClimSumAcrossYearEnd(values: seq<real>, start: int, end: int)
    requires 1 <= end < start <= |values| <= LastLabel
    ensures ClimSum(values, start, end) == Total(values[..end]) + Total(values[start - 1..])
  {
    SubsetAcrossYearEnd(values, start, end);
    TotalAppend(values[..end], values[start - 1..]);
  }

  /** Non-negative normals give a non-negative normal total. */
  lemma ClimSumNonNegative(values: seq<real>, start: int, end: int)
    requires forall k :: 0 <= k < |values| ==> values[k] >= 0.0
    ensures ClimSum(values, start, end) >= 0.0
  {
    TotalNonNegative(SubsetClimInterval(values, start, end));
  }

  lemma {:induction false} SubsetMembers(values: seq<real>, first: int, start: int, end: int)
    ensures forall x :: x in SubsetFrom(values, first, start, end) ==> x in values
  {
    if values != [] {
      SubsetMembers(values[1..], first + 1, start, end);
    }
  }
}
