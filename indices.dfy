/**
 * The drought index computations over the last 365 days of the combined
 * daily dataset: total precipitation and its percent of normal, snow water
 * equivalent and its percent of normal, and the two standardized indices,
 * each for the intervals 30, 60, 90, 180 and 365 days ending on the last
 * day, then combined into one result per index.
 *
 * The results dictionary the processing functions fill in is the `indices`
 * field of an `IndexRun`; the window and the climatologies are its
 * constant fields. A grid is one value per grid cell.
 */
module Indices {
  import opened Wrappers
  import opened Calendar
  import opened FloatArith
  import opened Series
  import opened Climatology
  import opened Assembly

  /** The interval lengths in days, in the order they are computed and stacked. */
  const Intervals: seq<nat> := [30, 60, 90, 180, 365]

  /** The number of days every index looks back over at most. */
  const WindowLength: nat := 365

  /** Metres to centimetres, and a ratio to a percentage. */
  const Hundred: real := 100.0

  /** The 1 mm offset added to the water budget to match the precomputed parameters. */
  const WaterBudgetOffset: real := 0.001

  /** What replaces a NaN percent of normal snow water equivalent. */
  const NormalPercent: real := 100.0

  datatype IndexError =
    | TooFewDays               // fewer than 365 days: indexing the 365th-last time fails
    | WindowNotYear            // the 365 days do not span a year of consecutive days
    | MissingInterval          // an index lacks one of the intervals when stacking

  /** The j-th interval, a length the window can hold. */
  function IntervalLength(j: nat): (i: nat)
    requires j < |Intervals|
    ensures i == Intervals[j] && 1 <= i <= WindowLength
  {
    Intervals[j]
  }

  /** The intervals are distinct and in increasing order, the longest being the whole window. */
  lemma IntervalsIncreasing()
    ensures forall a, b :: 0 <= a < b < |Intervals| ==> Intervals[a] < Intervals[b]
    ensures Intervals[|Intervals| - 1] == WindowLength
  {
  }

  // ---------------------------------------------------------------------------
  // The 365-day window

  /** The dataset from position n on: `ds.sel(time=slice(start_time, end_time))` on a sorted axis. */
  function SliceFrom(ds: Dataset, n: nat): (w: Dataset)
    requires ValidDataset(ds) && n <= |ds.days|
    ensures ValidDataset(w) && w.days == ds.days[n..] && |w.pixels| == |ds.pixels|
    ensures forall p :: 0 <= p < |ds.pixels| ==>
      w.pixels[p] == Pixel(ds.pixels[p].tp[n..], ds.pixels[p].sd[n..], ds.pixels[p].pev[n..])
  {
    var pixels := seq(|ds.pixels|, p requires 0 <= p < |ds.pixels| =>
      Pixel(ds.pixels[p].tp[n..], ds.pixels[p].sd[n..], ds.pixels[p].pev[n..]));
    Dataset(ds.days[n..], pixels)
  }

  /**
   * The window selection as the script writes it: the 365th-last time must
   * exist, and the check on the window only rejects a zero time difference.
   */
  function SelectWindowAsWritten(ds: Dataset): (r: Result<Dataset, IndexError>)
    requires ValidDataset(ds)
    ensures r == Failure(TooFewDays) <==> |ds.days| < WindowLength
    ensures r == Failure(WindowNotYear) <==>
      |ds.days| >= WindowLength && ds.days[|ds.days| - 1] == ds.days[|ds.days| - WindowLength]
    ensures r.Success? ==> r.value == SliceFrom(ds, |ds.days| - WindowLength)
  {
    if |ds.days| < WindowLength then Failure(TooFewDays)
    else
      var n := |ds.days| - WindowLength;
      if ds.days[|ds.days| - 1] - ds.days[n] == 0 then Failure(WindowNotYear)
      else Success(SliceFrom(ds, n))
  }

  /** On a valid dataset the check as written never fails: it cannot tell a year from a longer span. */
  lemma SelectWindowAsWrittenNeverChecks(ds: Dataset)
    requires ValidDataset(ds) && |ds.days| >= WindowLength
    ensures SelectWindowAsWritten(ds).Success?
  {
    assert ds.days[|ds.days| - WindowLength] < ds.days[|ds.days| - 1];
  }

  /** 365 daily entries with a gap: days 1 .. 364 and then day 1000. */
  function GappedDataset(): (ds: Dataset)
    ensures ValidDataset(ds) && |ds.days| == WindowLength
  {
    Dataset(seq(WindowLength, k requires 0 <= k < WindowLength => if k < WindowLength - 1 then k + 1 else 1000), [])
  }

  /** The check as written accepts a window spanning 1000 days; the intended check rejects it. */
  lemma GappedWindowAccepted()
    ensures SelectWindowAsWritten(GappedDataset()).Success?
    ensures var w := SelectWindowAsWritten(GappedDataset()).value;
      w.days[WindowLength - 1] - w.days[0] == 999
    ensures SelectWindow(GappedDataset()) == Failure(WindowNotYear)
  {
    var ds := GappedDataset();
    assert ds.days[0] == 1 && ds.days[WindowLength - 1] == 1000;
  }

  /**
   * The window selection with the intended check: the last 365 entries must
   * span exactly 364 days, that is, be 365 consecutive days.
   */
  function SelectWindow(ds: Dataset): (r: Result<Dataset, IndexError>)
    requires ValidDataset(ds)
    ensures r == Failure(TooFewDays) <==> |ds.days| < WindowLength
    ensures r == Failure(WindowNotYear) <==>
      |ds.days| >= WindowLength && ds.days[|ds.days| - 1] - ds.days[|ds.days| - WindowLength] != WindowLength - 1
    ensures r.Success? ==> ValidDataset(r.value) && |r.value.days| == WindowLength && |r.value.pixels| == |ds.pixels|
    ensures r.Success? ==> r.value.days[WindowLength - 1] == ds.days[|ds.days| - 1]
    ensures r.Success? ==> r.value == SliceFrom(ds, |ds.days| - WindowLength)
  {
    if |ds.days| < WindowLength then Failure(TooFewDays)
    else
      var n := |ds.days| - WindowLength;
      if ds.days[|ds.days| - 1] - ds.days[n] != WindowLength - 1 then Failure(WindowNotYear)
      else Success(SliceFrom(ds, n))
  }

  lemma {:induction false} IncreasingSpan(days: seq<int>, i: nat, j: nat)
    requires IncreasingDays(days) && i <= j < |days|
    ensures days[j] - days[i] >= j - i
    decreases j - i
  {
    if i < j {
      IncreasingSpan(days, i + 1, j);
    }
  }

  /** A selected window is 365 consecutive days. */
  lemma SelectedWindowConsecutive(ds: Dataset)
    requires ValidDataset(ds) && SelectWindow(ds).Success?
    ensures var w := SelectWindow(ds).value;
      forall k :: 0 <= k < |w.days| ==> w.days[k] == w.days[0] + k
  {
    var w := SelectWindow(ds).value;
    forall k | 0 <= k < |w.days| ensures w.days[k] == w.days[0] + k {
      IncreasingSpan(w.days, 0, k);
      IncreasingSpan(w.days, k, |w.days| - 1);
    }
  }

  /** Both checks agree on a dataset of consecutive days. */
  lemma SelectWindowAgreesOnConsecutiveDays(ds: Dataset)
    requires ValidDataset(ds)
    requires forall k :: 0 <= k < |ds.days| ==> ds.days[k] == ds.days[0] + k
    ensures SelectWindow(ds) == SelectWindowAsWritten(ds)
  {
  }

  /**
   * The combined daily dataset has consecutive days, so on it the check as
   * written is the intended one: a selected window is 365 consecutive days.
   */
  lemma CombinedWindowIsYear(tp: seq<Daily>, sd: seq<Daily>, pev: seq<Daily>)
    requires |tp| >= 1 && |sd| == |tp| && |pev| == |tp| && tp[0].firstDay >= 1
    requires Combine(tp, sd, pev).Success?
    ensures var ds := Combine(tp, sd, pev).value;
      SelectWindowAsWritten(ds) == SelectWindow(ds) &&
      (SelectWindowAsWritten(ds).Success? ==>
        forall k :: 0 <= k < WindowLength ==> SelectWindowAsWritten(ds).value.days[k] == SelectWindowAsWritten(ds).value.days[0] + k)
  {
    var ds := Combine(tp, sd, pev).value;
    SelectWindowAgreesOnConsecutiveDays(ds);
    if SelectWindow(ds).Success? {
      SelectedWindowConsecutive(ds);
    }
  }

  // ---------------------------------------------------------------------------
  // One grid cell over one interval

  /** The last i entries of a window's series: `sel(time=slice(times[-i], times[-1]))`. */
  function LastDays<T>(xs: seq<T>, i: nat): (r: seq<T>)
    requires i <= |xs|
    ensures |r| == i
    ensures forall k :: 0 <= k < i ==> r[k] == xs[|xs| - i + k]
  {
    xs[|xs| - i..]
  }

  /**
   * On a strictly increasing axis the label slice from `times[-i]` to
   * `times[-1]` selects exactly the positions of the last i entries.
   */
  lemma LastDaysByLabel(days: seq<int>, i: nat)
    requires IncreasingDays(days) && 1 <= i <= |days|
    ensures forall k :: 0 <= k < |days| ==>
      (days[|days| - i] <= days[k] <= days[|days| - 1] <==> |days| - i <= k)
  {
    var n := |days|;
    forall k | 0 <= k < n
      ensures days[n - i] <= days[k] <= days[n - 1] <==> n - i <= k
    {
      if k < n - i {
        assert days[k] < days[n - i];
      } else {
        assert k == n - i || days[n - i] < days[k];
        assert k == n - 1 || days[k] < days[n - 1];
      }
    }
  }

  /** The last i days have no sample exactly when every one of them is NaN. */
  lemma LastDaysMissing(xs: seq<Option<real>>, i: nat)
    requires i <= |xs|
    ensures (forall k :: 0 <= k < i ==> LastDays(xs, i)[k].None?) <==>
            (forall k :: |xs| - i <= k < |xs| ==> xs[k].None?)
  {
    var w := LastDays(xs, i);
    assert forall k :: |xs| - i <= k < |xs| ==> xs[k] == w[k - (|xs| - i)];
  }

  /**
   * Total precipitation over the interval, in centimetres: never NaN, and 0
   * when the interval has no sample at all, since missing days count as nothing.
   */
  function TotalPrecip(p: Pixel, i: nat): (r: Float)
    requires i <= |p.tp|
    ensures r.Num? && r.x == Hundred * SumSkipNaN(LastDays(p.tp, i))
    ensures (forall k :: |p.tp| - i <= k < |p.tp| ==> p.tp[k].None?) ==> r == Num(0.0)
  {
    LastDaysMissing(p.tp, i);
    PresentEmpty(LastDays(p.tp, i));
    Num(SumSkipNaN(LastDays(p.tp, i)) * Hundred)
  }

  /**
   * Mean snow depth over the interval, in centimetres of water equivalent:
   * never infinite, NaN exactly when the interval has no snow depth sample.
   */
  function Swe(p: Pixel, i: nat): (r: Float)
    requires i <= |p.sd|
    ensures !r.Inf?
    ensures r.NaN? <==> forall k :: |p.sd| - i <= k < |p.sd| ==> p.sd[k].None?
    ensures r.Num? ==> r.x == Hundred * MeanSkipNaN(LastDays(p.sd, i)).x
  {
    LastDaysMissing(p.sd, i);
    Scale(MeanSkipNaN(LastDays(p.sd, i)), Hundred)
  }

  /** The day of the year of the first day of the interval. */
  function IntervalStartDoy(days: seq<int>, i: nat): int
    requires 1 <= i <= |days| && forall k :: 0 <= k < |days| ==> days[k] >= 1
  {
    DayOfYear(FromOrdinal(days[|days| - i]))
  }

  /** The day of the year of the last day of the window. */
  function IntervalEndDoy(days: seq<int>): int
    requires 1 <= |days| && forall k :: 0 <= k < |days| ==> days[k] >= 1
  {
    DayOfYear(FromOrdinal(days[|days| - 1]))
  }

  /**
   * `np.round((tp / clim_tp) * 100, 1)` at one grid cell: within 0.05 of the
   * exact percentage for a nonzero normal, infinite (with the sign of the
   * precipitation) for precipitation over a zero normal, and NaN for 0 / 0.
   */
  function PercentOfNormalPrecip(tp: Float, normal: real): (r: Float)
    ensures tp.NaN? ==> r.NaN?
    ensures tp.Num? && normal != 0.0 ==> r == Num(Round1(Hundred * (tp.x / normal)))
    ensures tp.Num? && normal != 0.0 ==> r.Num? && -0.05 <= r.x - Hundred * (tp.x / normal) <= 0.05
    ensures tp.Num? ==> (r.Inf? <==> normal == 0.0 && tp.x != 0.0)
    ensures tp.Num? && r.Inf? ==> r.positive == (tp.x > 0.0)
    ensures tp.Num? ==> (r.NaN? <==> normal == 0.0 && tp.x == 0.0)
  {
    RoundFloat1(Scale(Div(tp, Num(normal)), Hundred))
  }

  /** A NaN becomes the given value; everything else is kept. */
  function NaNTo(v: Float, fill: real): (r: Float)
    ensures !r.NaN?
    ensures v.NaN? ==> r == Num(fill)
    ensures !v.NaN? ==> r == v
  {
    if v.NaN? then Num(fill) else v
  }

  /**
   * `(swe / clim_swe) * 100` with NaN read as 100 percent, at one grid cell:
   * never NaN; 100 where the ratio is undefined (no data, or no snow over a
   * zero normal); infinite exactly for snow over a zero normal or an infinite
   * depth over a finite normal; the exact percentage otherwise.
   */
  function PercentOfNormalSwe(swe: Float, normal: Float): (r: Float)
    ensures !r.NaN?
    ensures swe.NaN? || normal.NaN? || (swe.Inf? && normal.Inf?) || (swe == Num(0.0) && normal == Num(0.0)) ==>
      r == Num(NormalPercent)
    ensures r.Inf? <==> (swe.Inf? && normal.Num?) || (swe.Num? && swe.x != 0.0 && normal == Num(0.0))
    ensures swe.Num? && normal.Num? && normal.x != 0.0 ==> r == Num(Hundred * (swe.x / normal.x))
  {
    NaNTo(Scale(Div(swe, normal), Hundred), NormalPercent)
  }

  /** `(tp + pev) + 0.001` on one day; NaN in either gives NaN. */
  function WaterBudgetDay(tp: Option<real>, pev: Option<real>): Option<real> {
    if tp.Some? && pev.Some? then Some(tp.value + pev.value + WaterBudgetOffset) else None
  }

  function WaterBudget(p: Pixel): (wb: seq<Option<real>>)
    requires |p.pev| == |p.tp|
    ensures |wb| == |p.tp|
    ensures forall k :: 0 <= k < |wb| ==> wb[k] == WaterBudgetDay(p.tp[k], p.pev[k])
    ensures forall k :: 0 <= k < |wb| ==> (wb[k].Some? <==> p.tp[k].Some? && p.pev[k].Some?)
    ensures forall k :: 0 <= k < |wb| && wb[k].Some? ==> wb[k].value == p.tp[k].value + p.pev[k].value + WaterBudgetOffset
  {
    seq(|p.tp|, k requires 0 <= k < |p.tp| => WaterBudgetDay(p.tp[k], p.pev[k]))
  }

  // ---------------------------------------------------------------------------
  // Properties of the per-cell indices

  /** With no negative precipitation, a longer interval never has less total precipitation. */
  lemma TotalPrecipMonotonic(p: Pixel, i: nat, j: nat)
    requires i <= j <= |p.tp|
    requires forall k :: 0 <= k < |p.tp| && p.tp[k].Some? ==> p.tp[k].value >= 0.0
    ensures TotalPrecip(p, i).x <= TotalPrecip(p, j).x
  {
    var n := |p.tp|;
    var extra := p.tp[n - j..n - i];
    assert LastDays(p.tp, j) == extra + LastDays(p.tp, i);
    SumSkipNaNAppend(extra, LastDays(p.tp, i));
    assert forall k :: 0 <= k < |extra| ==> extra[k] == p.tp[n - j + k];
    SumSkipNaNNonNegative(extra);
  }

  /** The non-negative largest present value, an upper bound of every present value. */
  function MaxPresent(xs: seq<Option<real>>): (m: real)
    ensures m >= 0.0
    ensures forall k :: 0 <= k < |xs| && xs[k].Some? ==> xs[k].value <= m
  {
    if xs == [] then 0.0
    else
      var rest := MaxPresent(xs[1..]);
      assert forall k :: 1 <= k < |xs| ==> xs[k] == xs[1..][k - 1];
      if xs[0].Some? && xs[0].value > rest then xs[0].value else rest
  }

  lemma SumSkipNaNNonNegative(xs: seq<Option<real>>)
    requires forall k :: 0 <= k < |xs| && xs[k].Some? ==> xs[k].value >= 0.0
    ensures SumSkipNaN(xs) >= 0.0
  {
    PresentBounded(xs, 0.0, MaxPresent(xs));
    var p := Present(xs);
    assert forall x :: x in p ==> x >= 0.0;
    TotalNonNegative(p);
  }

  /** A day's water budget is present exactly when both terms are, and is their sum plus 1 mm. */
  lemma WaterBudgetDayCases(tp: Option<real>, pev: Option<real>)
    ensures WaterBudgetDay(tp, pev).Some? <==> tp.Some? && pev.Some?
    ensures WaterBudgetDay(tp, pev).Some? ==> WaterBudgetDay(tp, pev).value - WaterBudgetOffset == tp.value + pev.value
  {
  }

  // ---------------------------------------------------------------------------
  // Whole grids, one per interval

  /** The window of the combined dataset that the indices are computed over. */
  predicate Window(days: seq<int>, pixels: seq<Pixel>) {
    ValidDataset(Dataset(days, pixels)) && |days| == WindowLength
  }

  /** The window's day ordinals, as the day-of-year lookups need them. */
  predicate WindowDays(days: seq<int>) {
    |days| == WindowLength && forall k :: 0 <= k < |days| ==> days[k] >= 1
  }

  /** Every grid cell has a value for each day of the window. */
  predicate Spans(pixels: seq<Pixel>) {
    forall p :: 0 <= p < |pixels| ==>
      |pixels[p].tp| == WindowLength && |pixels[p].sd| == WindowLength && |pixels[p].pev| == WindowLength
  }

  lemma WindowParts(days: seq<int>, pixels: seq<Pixel>)
    requires Window(days, pixels)
    ensures WindowDays(days) && Spans(pixels)
  {
  }

  /** A standardizing transform (SPI or SPEI with its fitted parameters): grid cell, daily series, interval. */
  type Standardizer = (nat, seq<Option<real>>, nat) -> Float

  function TotalPrecipGrid(pixels: seq<Pixel>, i: nat): (g: seq<Float>)
    requires Spans(pixels) && 1 <= i <= WindowLength
    ensures |g| == |pixels|
  {
    seq(|pixels|, p requires 0 <= p < |pixels| => TotalPrecip(pixels[p], i))
  }

  function PrecipPonGrid(tp: seq<Float>, normals: seq<seq<real>>, start: int, end: int): (g: seq<Float>)
    requires |normals| == |tp|
    ensures |g| == |tp|
  {
    seq(|tp|, p requires 0 <= p < |tp| => PercentOfNormalPrecip(tp[p], ClimSum(normals[p], start, end)))
  }

  function SweGrid(pixels: seq<Pixel>, i: nat): (g: seq<Float>)
    requires Spans(pixels) && 1 <= i <= WindowLength
    ensures |g| == |pixels|
  {
    seq(|pixels|, p requires 0 <= p < |pixels| => Swe(pixels[p], i))
  }

  /** `(swe / clim_swe) * 100` before the NaN entries are replaced. */
  function SweRatioGrid(swe: seq<Float>, normals: seq<seq<real>>, start: int, end: int): (g: seq<Float>)
    requires |normals| == |swe|
    ensures |g| == |swe|
  {
    seq(|swe|, p requires 0 <= p < |swe| => Scale(Div(swe[p], ClimMean(normals[p], start, end)), Hundred))
  }

  /** Every NaN of the grid replaced by the fill value. */
  function NaNFilled(g: seq<Float>, fill: real): (r: seq<Float>)
    ensures |r| == |g|
  {
    seq(|g|, k requires 0 <= k < |g| => NaNTo(g[k], fill))
  }

  /** Filling leaves no NaN, changes nothing else, and filling again changes nothing. */
  lemma NaNFilledCases(g: seq<Float>, fill: real)
    ensures forall k :: 0 <= k < |g| ==> !NaNFilled(g, fill)[k].NaN?
    ensures forall k :: 0 <= k < |g| && !g[k].NaN? ==> NaNFilled(g, fill)[k] == g[k]
    ensures forall k :: 0 <= k < |g| && g[k].NaN? ==> NaNFilled(g, fill)[k] == Num(fill)
    ensures NaNFilled(NaNFilled(g, fill), fill) == NaNFilled(g, fill)
  {
  }

  function SpiGrid(pixels: seq<Pixel>, spi: Standardizer, i: nat): (g: seq<Float>)
    ensures |g| == |pixels|
  {
    seq(|pixels|, p requires 0 <= p < |pixels| => spi(p, pixels[p].tp, i))
  }

  function SpeiGrid(pixels: seq<Pixel>, spei: Standardizer, i: nat): (g: seq<Float>)
    requires Spans(pixels)
    ensures |g| == |pixels|
  {
    seq(|pixels|, p requires 0 <= p < |pixels| => spei(p, WaterBudget(pixels[p]), i))
  }

  // ---------------------------------------------------------------------------
  // Results entries: interval to grid

  /** The grids of the first |grids| intervals, keyed by interval, added in interval order. */
  function Keyed(grids: seq<seq<Float>>): map<nat, seq<Float>>
    requires |grids| <= |Intervals|
  {
    if grids == [] then map[]
    else Keyed(grids[..|grids| - 1])[Intervals[|grids| - 1] := grids[|grids| - 1]]
  }

  lemma KeyedStep(grids: seq<seq<Float>>, k: nat)
    requires k < |grids| <= |Intervals|
    ensures Keyed(grids[..k + 1]) == Keyed(grids[..k])[Intervals[k] := grids[k]]
  {
    assert grids[..k + 1][..k] == grids[..k];
  }

  /** Adding interval k's grid to the entry holding the first k grids, leaving every other entry alone. */
  lemma EntryStep(indices: map<string, map<nat, seq<Float>>>, before: map<string, map<nat, seq<Float>>>,
                  name: string, all: seq<seq<Float>>, k: nat)
    requires k < |all| <= |Intervals|
    requires indices == before[name := Keyed(all[..k])]
    ensures indices[name := indices[name][Intervals[k] := all[k]]] == before[name := Keyed(all[..k + 1])]
  {
    KeyedStep(all, k);
  }

  /** Every interval added is a key, and looks up the grid added for it. */
  lemma {:induction false} KeyedLookup(grids: seq<seq<Float>>)
    requires |grids| <= |Intervals|
    ensures forall j :: 0 <= j < |grids| ==> Intervals[j] in Keyed(grids) && Keyed(grids)[Intervals[j]] == grids[j]
    ensures forall i :: i in Keyed(grids) ==> exists j :: 0 <= j < |grids| && Intervals[j] == i
  {
    if grids != [] {
      var n := |grids| - 1;
      var front := grids[..n];
      KeyedLookup(front);
      IntervalsIncreasing();
      forall j | 0 <= j < |grids|
        ensures Intervals[j] in Keyed(grids) && Keyed(grids)[Intervals[j]] == grids[j]
      {
        if j < n {
          assert front[j] == grids[j];
        }
      }
    }
  }

  /** A results entry with a grid of the given width for every interval. */
  predicate Complete(m: map<nat, seq<Float>>, width: nat) {
    forall j :: 0 <= j < |Intervals| ==> Intervals[j] in m && |m[Intervals[j]]| == width
  }

  /** Grids for all five intervals: the entry is complete, keyed by exactly the intervals. */
  lemma KeyedComplete(grids: seq<seq<Float>>, width: nat)
    requires |grids| == |Intervals|
    requires forall j :: 0 <= j < |grids| ==> |grids[j]| == width
    ensures Complete(Keyed(grids), width)
    ensures Keyed(grids).Keys == set j | 0 <= j < |Intervals| :: Intervals[j]
  {
    KeyedLookup(grids);
  }

  // The five grids of each index, in interval order.

  function TotalPrecipGrids(pixels: seq<Pixel>): (gs: seq<seq<Float>>)
    requires Spans(pixels)
    ensures |gs| == |Intervals| && forall j :: 0 <= j < |gs| ==> |gs[j]| == |pixels|
  {
    seq(|Intervals|, j requires 0 <= j < |Intervals| => TotalPrecipGrid(pixels, IntervalLength(j)))
  }

  function PrecipPonGrids(days: seq<int>, tp: map<nat, seq<Float>>, normals: seq<seq<real>>): (gs: seq<seq<Float>>)
    requires WindowDays(days) && Complete(tp, |normals|)
    ensures |gs| == |Intervals| && forall j :: 0 <= j < |gs| ==> |gs[j]| == |normals|
  {
    seq(|Intervals|, j requires 0 <= j < |Intervals| =>
      var i := IntervalLength(j);
      PrecipPonGrid(tp[i], normals, IntervalStartDoy(days, i), IntervalEndDoy(days)))
  }

  function SweGrids(pixels: seq<Pixel>): (gs: seq<seq<Float>>)
    requires Spans(pixels)
    ensures |gs| == |Intervals| && forall j :: 0 <= j < |gs| ==> |gs[j]| == |pixels|
  {
    seq(|Intervals|, j requires 0 <= j < |Intervals| => SweGrid(pixels, IntervalLength(j)))
  }

  function SwePonGrids(days: seq<int>, swe: map<nat, seq<Float>>, normals: seq<seq<real>>): (gs: seq<seq<Float>>)
    requires WindowDays(days) && Complete(swe, |normals|)
    ensures |gs| == |Intervals| && forall j :: 0 <= j < |gs| ==> |gs[j]| == |normals|
  {
    seq(|Intervals|, j requires 0 <= j < |Intervals| =>
      var i := IntervalLength(j);
      NaNFilled(SweRatioGrid(swe[i], normals, IntervalStartDoy(days, i), IntervalEndDoy(days)), NormalPercent))
  }

  function SpiGrids(pixels: seq<Pixel>, spi: Standardizer): (gs: seq<seq<Float>>)
    ensures |gs| == |Intervals| && forall j :: 0 <= j < |gs| ==> |gs[j]| == |pixels|
  {
    seq(|Intervals|, j requires 0 <= j < |Intervals| => SpiGrid(pixels, spi, Intervals[j]))
  }

  function SpeiGrids(pixels: seq<Pixel>, spei: Standardizer): (gs: seq<seq<Float>>)
    requires Spans(pixels)
    ensures |gs| == |Intervals| && forall j :: 0 <= j < |gs| ==> |gs[j]| == |pixels|
  {
    seq(|Intervals|, j requires 0 <= j < |Intervals| => SpeiGrid(pixels, spei, Intervals[j]))
  }

  // The value of each entry of the results dictionary.

  function TotalPrecipEntry(pixels: seq<Pixel>): (m: map<nat, seq<Float>>)
    requires Spans(pixels)
    ensures Complete(m, |pixels|)
  {
    KeyedComplete(TotalPrecipGrids(pixels), |pixels|);
    Keyed(TotalPrecipGrids(pixels))
  }

  function PrecipPonEntry(days: seq<int>, tp: map<nat, seq<Float>>, normals: seq<seq<real>>): (m: map<nat, seq<Float>>)
    requires WindowDays(days) && Complete(tp, |normals|)
    ensures Complete(m, |normals|)
  {
    KeyedComplete(PrecipPonGrids(days, tp, normals), |normals|);
    Keyed(PrecipPonGrids(days, tp, normals))
  }

  function SweEntry(pixels: seq<Pixel>): (m: map<nat, seq<Float>>)
    requires Spans(pixels)
    ensures Complete(m, |pixels|)
  {
    KeyedComplete(SweGrids(pixels), |pixels|);
    Keyed(SweGrids(pixels))
  }

  function SwePonEntry(days: seq<int>, swe: map<nat, seq<Float>>, normals: seq<seq<real>>): (m: map<nat, seq<Float>>)
    requires WindowDays(days) && Complete(swe, |normals|)
    ensures Complete(m, |normals|)
  {
    KeyedComplete(SwePonGrids(days, swe, normals), |normals|);
    Keyed(SwePonGrids(days, swe, normals))
  }

  function SpiEntry(pixels: seq<Pixel>, spi: Standardizer): (m: map<nat, seq<Float>>)
    ensures Complete(m, |pixels|)
  {
    KeyedComplete(SpiGrids(pixels, spi), |pixels|);
    Keyed(SpiGrids(pixels, spi))
  }

  function SpeiEntry(pixels: seq<Pixel>, spei: Standardizer): (m: map<nat, seq<Float>>)
    requires Spans(pixels)
    ensures Complete(m, |pixels|)
  {
    KeyedComplete(SpeiGrids(pixels, spei), |pixels|);
    Keyed(SpeiGrids(pixels, spei))
  }

  /** The names of the computed indices. */
  const IndexKeys: set<string> := {"tp", "pntp", "swe", "pnswe", "spi", "spei"}

  /** The results dictionary once every index has been processed, in the order they are processed. */
  function Expected(days: seq<int>, pixels: seq<Pixel>, tpNormals: seq<seq<real>>, sweNormals: seq<seq<real>>,
                    spi: Standardizer, spei: Standardizer): (e: map<string, map<nat, seq<Float>>>)
    requires WindowDays(days) && Spans(pixels) && |tpNormals| == |pixels| && |sweNormals| == |pixels|
    ensures e.Keys == IndexKeys
    ensures forall name :: name in e ==> Complete(e[name], |pixels|)
  {
    var tp := TotalPrecipEntry(pixels);
    var swe := SweEntry(pixels);
    map["tp" := tp, "pntp" := PrecipPonEntry(days, tp, tpNormals),
        "swe" := swe, "pnswe" := SwePonEntry(days, swe, sweNormals),
        "spi" := SpiEntry(pixels, spi), "spei" := SpeiEntry(pixels, spei)]
  }

  /**
   * The total precipitation of an interval at a grid cell is 100 times the
   * NaN-skipping sum of its last i days; the snow water equivalent is 100
   * times the mean of the snow depths present in those days, and NaN exactly
   * when none is.
   */
  lemma ExpectedTotals(days: seq<int>, pixels: seq<Pixel>, tpNormals: seq<seq<real>>, sweNormals: seq<seq<real>>,
                       spi: Standardizer, spei: Standardizer, j: nat, p: nat)
    requires WindowDays(days) && Spans(pixels) && |tpNormals| == |pixels| && |sweNormals| == |pixels|
    requires j < |Intervals| && p < |pixels|
    ensures var e := Expected(days, pixels, tpNormals, sweNormals, spi, spei);
      var i := IntervalLength(j);
      var recent := pixels[p].sd[WindowLength - i..];
      e["tp"][i][p] == Num(Hundred * SumSkipNaN(pixels[p].tp[WindowLength - i..])) &&
      (e["swe"][i][p].NaN? <==> forall k :: WindowLength - i <= k < WindowLength ==> pixels[p].sd[k].None?) &&
      (MeanSkipNaN(recent).Num? ==> e["swe"][i][p] == Num(Hundred * MeanSkipNaN(recent).x))
  {
    var i := IntervalLength(j);
    var e := Expected(days, pixels, tpNormals, sweNormals, spi, spei);
    assert e["tp"] == TotalPrecipEntry(pixels) && e["swe"] == SweEntry(pixels);
    TotalsCell(pixels, j, p);
  }

  lemma TotalsCell(pixels: seq<Pixel>, j: nat, p: nat)
    requires Spans(pixels) && j < |Intervals| && p < |pixels|
    ensures var i := IntervalLength(j);
      var recent := pixels[p].sd[WindowLength - i..];
      TotalPrecipEntry(pixels)[i][p] == Num(Hundred * SumSkipNaN(pixels[p].tp[WindowLength - i..])) &&
      (SweEntry(pixels)[i][p].NaN? <==> forall k :: WindowLength - i <= k < WindowLength ==> pixels[p].sd[k].None?) &&
      (MeanSkipNaN(recent).Num? ==> SweEntry(pixels)[i][p] == Num(Hundred * MeanSkipNaN(recent).x))
  {
    var i := IntervalLength(j);
    KeyedLookup(TotalPrecipGrids(pixels));
    KeyedLookup(SweGrids(pixels));
    assert SweEntry(pixels)[i] == SweGrid(pixels, i);
  }

  /**
   * The precipitation percent of normal at a grid cell is the rounded
   * percentage of that cell's interval total over its normal total for the
   * same days of the year.
   */
  lemma ExpectedPrecipPon(days: seq<int>, pixels: seq<Pixel>, tpNormals: seq<seq<real>>, sweNormals: seq<seq<real>>,
                          spi: Standardizer, spei: Standardizer, j: nat, p: nat)
    requires WindowDays(days) && Spans(pixels) && |tpNormals| == |pixels| && |sweNormals| == |pixels|
    requires j < |Intervals| && p < |pixels|
    ensures var e := Expected(days, pixels, tpNormals, sweNormals, spi, spei);
      var i := IntervalLength(j);
      e["pntp"][i][p] ==
        PercentOfNormalPrecip(TotalPrecip(pixels[p], i), ClimSum(tpNormals[p], IntervalStartDoy(days, i), IntervalEndDoy(days)))
  {
    var e := Expected(days, pixels, tpNormals, sweNormals, spi, spei);
    assert e["pntp"] == PrecipPonEntry(days, TotalPrecipEntry(pixels), tpNormals);
    PrecipPonCell(days, pixels, TotalPrecipEntry(pixels), tpNormals, j, p);
  }

  lemma PrecipPonCell(days: seq<int>, pixels: seq<Pixel>, tp: map<nat, seq<Float>>, tpNormals: seq<seq<real>>, j: nat, p: nat)
    requires WindowDays(days) && Spans(pixels) && |tpNormals| == |pixels|
    requires tp == TotalPrecipEntry(pixels) && j < |Intervals| && p < |pixels|
    ensures var i := IntervalLength(j);
      PrecipPonEntry(days, tp, tpNormals)[i][p] ==
        PercentOfNormalPrecip(TotalPrecip(pixels[p], i), ClimSum(tpNormals[p], IntervalStartDoy(days, i), IntervalEndDoy(days)))
  {
    var i := IntervalLength(j);
    KeyedLookup(TotalPrecipGrids(pixels));
    KeyedLookup(PrecipPonGrids(days, tp, tpNormals));
    assert tp[i] == TotalPrecipGrid(pixels, i);
  }

  /**
   * The snow water equivalent percent of normal has no NaN anywhere, and is
   * infinite exactly where there is snow over a zero normal.
   */
  lemma ExpectedSwePon(days: seq<int>, pixels: seq<Pixel>, tpNormals: seq<seq<real>>, sweNormals: seq<seq<real>>,
                       spi: Standardizer, spei: Standardizer, j: nat, p: nat)
    requires WindowDays(days) && Spans(pixels) && |tpNormals| == |pixels| && |sweNormals| == |pixels|
    requires j < |Intervals| && p < |pixels|
    ensures var e := Expected(days, pixels, tpNormals, sweNormals, spi, spei);
      var i := IntervalLength(j);
      var normal := ClimMean(sweNormals[p], IntervalStartDoy(days, i), IntervalEndDoy(days));
      e["pnswe"][i][p] == PercentOfNormalSwe(Swe(pixels[p], i), normal) &&
      !e["pnswe"][i][p].NaN? &&
      (e["pnswe"][i][p].Inf? <==> Swe(pixels[p], i).Num? && Swe(pixels[p], i).x != 0.0 && normal == Num(0.0))
  {
    var i := IntervalLength(j);
    var e := Expected(days, pixels, tpNormals, sweNormals, spi, spei);
    assert e["pnswe"] == SwePonEntry(days, SweEntry(pixels), sweNormals);
    SwePonCell(days, pixels, SweEntry(pixels), sweNormals, j, p);
  }

  lemma SwePonCell(days: seq<int>, pixels: seq<Pixel>, swe: map<nat, seq<Float>>, sweNormals: seq<seq<real>>, j: nat, p: nat)
    requires WindowDays(days) && Spans(pixels) && |sweNormals| == |pixels|
    requires swe == SweEntry(pixels) && j < |Intervals| && p < |pixels|
    ensures var i := IntervalLength(j);
      SwePonEntry(days, swe, sweNormals)[i][p] ==
        PercentOfNormalSwe(Swe(pixels[p], i), ClimMean(sweNormals[p], IntervalStartDoy(days, i), IntervalEndDoy(days)))
  {
    var i := IntervalLength(j);
    KeyedLookup(SweGrids(pixels));
    KeyedLookup(SwePonGrids(days, swe, sweNormals));
    assert swe[i] == SweGrid(pixels, i);
  }

  /** SPI standardizes each cell's precipitation, SPEI each cell's water budget. */
  lemma ExpectedStandardized(days: seq<int>, pixels: seq<Pixel>, tpNormals: seq<seq<real>>, sweNormals: seq<seq<real>>,
                             spi: Standardizer, spei: Standardizer, j: nat, p: nat)
    requires WindowDays(days) && Spans(pixels) && |tpNormals| == |pixels| && |sweNormals| == |pixels|
    requires j < |Intervals| && p < |pixels|
    ensures var e := Expected(days, pixels, tpNormals, sweNormals, spi, spei);
      var i := IntervalLength(j);
      e["spi"][i][p] == spi(p, pixels[p].tp, i) && e["spei"][i][p] == spei(p, WaterBudget(pixels[p]), i)
  {
    KeyedLookup(SpiGrids(pixels, spi));
    KeyedLookup(SpeiGrids(pixels, spei));
  }

  /** The four indices with long names are the first four computed; SPI and SPEI have none. */
  lemma IndexNamesAreComputed()
    ensures Luts.IndexNames.Keys <= IndexKeys
    ensures IndexKeys - Luts.IndexNames.Keys == {"spi", "spei"}
  {
    Luts.IndexNamesKeys();
  }

  // ---------------------------------------------------------------------------
  // The processing run

  /**
   * The loop of `process_swe_pon`: for each interval in order, the grid of
   * ratios to the normals, NaN-filled in place, is added under its interval.
   */
  method FilledSwePonEntry(days: seq<int>, swe: map<nat, seq<Float>>, normals: seq<seq<real>>)
    returns (m: map<nat, seq<Float>>)
    requires WindowDays(days) && Complete(swe, |normals|)
    ensures m == SwePonEntry(days, swe, normals)
  {
    ghost var all := SwePonGrids(days, swe, normals);
    var endDoy := IntervalEndDoy(days);
    m := map[];
    var k := 0;
    while k < |Intervals|
      invariant 0 <= k <= |Intervals|
      invariant m == Keyed(all[..k])
    {
      var i := IntervalLength(k);
      var ratio := SweRatioGrid(swe[i], normals, IntervalStartDoy(days, i), endDoy);
      var filled := FilledCopy(ratio, NormalPercent);
      assert filled == all[k];
      KeyedStep(all, k);
      m := m[i := filled];
      k := k + 1;
    }
    assert all[..k] == all;
  }

  /** A grid copied into a fresh array whose NaNs are then filled in place. */
  method FilledCopy(grid: seq<Float>, fill: real) returns (g: seq<Float>)
    ensures g == NaNFilled(grid, fill)
  {
    var values := new Float[|grid|](p requires 0 <= p < |grid| => grid[p]);
    assert values[..] == grid;
    FillNaN(values, fill);
    g := values[..];
  }

  /** `indices[index][i].values[np.isnan(indices[index][i])] = fill`, in place. */
  method FillNaN(a: array<Float>, fill: real)
    modifies a
    ensures a[..] == NaNFilled(old(a[..]), fill)
  {
    var k := 0;
    while k < a.Length
      invariant 0 <= k <= a.Length
      invariant forall j :: 0 <= j < k ==> a[j] == NaNTo(old(a[j]), fill)
      invariant forall j :: k <= j < a.Length ==> a[j] == old(a[j])
    {
      if a[k].NaN? {
        a[k] := Num(fill);
      }
      k := k + 1;
    }
  }

  /**
   * The global state the processing functions share: the 365-day window,
   * the climatologies they open, and the results dictionary they fill in.
   */
  class IndexRun {
    const days: seq<int>
    const pixels: seq<Pixel>
    const tpNormals: seq<seq<real>>
    const sweNormals: seq<seq<real>>
    var indices: map<string, map<nat, seq<Float>>>

    predicate Valid() {
      WindowDays(days) && Spans(pixels) && |tpNormals| == |pixels| && |sweNormals| == |pixels|
    }

    constructor (days: seq<int>, pixels: seq<Pixel>, tpNormals: seq<seq<real>>, sweNormals: seq<seq<real>>)
      requires Window(days, pixels) && |tpNormals| == |pixels| && |sweNormals| == |pixels|
      ensures Valid()
      ensures this.days == days && this.pixels == pixels
      ensures this.tpNormals == tpNormals && this.sweNormals == sweNormals
      ensures indices == map[]
    {
      WindowParts(days, pixels);
      this.days := days;
      this.pixels := pixels;
      this.tpNormals := tpNormals;
      this.sweNormals := sweNormals;
      indices := map[];
    }

    /** `process_total_precip`: replaces the "tp" entry and nothing else. */
    method ProcessTotalPrecip()
      requires Valid()
      modifies this
      ensures indices == old(indices)["tp" := TotalPrecipEntry(pixels)]
    {
      ghost var all := TotalPrecipGrids(pixels);
      indices := indices["tp" := map[]];
      var k := 0;
      while k < |Intervals|
        invariant 0 <= k <= |Intervals|
        invariant indices == old(indices)["tp" := Keyed(all[..k])]
      {
        var i := IntervalLength(k);
        var grid := TotalPrecipGrid(pixels, i);
        assert grid == all[k];
        EntryStep(indices, old(indices), "tp", all, k);
        indices := indices["tp" := indices["tp"][i := grid]];
        k := k + 1;
      }
      assert all[..k] == all;
    }

    /** `process_total_precip_pon`: needs the "tp" entry; replaces the "pntp" entry and nothing else. */
    method ProcessTotalPrecipPon()
      requires Valid()
      requires "tp" in indices && Complete(indices["tp"], |pixels|)
      modifies this
      ensures indices == old(indices)["pntp" := PrecipPonEntry(days, old(indices)["tp"], tpNormals)]
    {
      var tp := indices["tp"];
      ghost var all := PrecipPonGrids(days, tp, tpNormals);
      var endDoy := IntervalEndDoy(days);
      indices := indices["pntp" := map[]];
      var k := 0;
      while k < |Intervals|
        invariant 0 <= k <= |Intervals|
        invariant indices == old(indices)["pntp" := Keyed(all[..k])]
      {
        var i := IntervalLength(k);
        var startDoy := IntervalStartDoy(days, i);
        var grid := PrecipPonGrid(tp[i], tpNormals, startDoy, endDoy);
        assert grid == all[k];
        EntryStep(indices, old(indices), "pntp", all, k);
        indices := indices["pntp" := indices["pntp"][i := grid]];
        k := k + 1;
      }
      assert all[..k] == all;
    }

    /** `process_swe`: replaces the "swe" entry and nothing else. */
    method ProcessSwe()
      requires Valid()
      modifies this
      ensures indices == old(indices)["swe" := SweEntry(pixels)]
    {
      ghost var all := SweGrids(pixels);
      indices := indices["swe" := map[]];
      var k := 0;
      while k < |Intervals|
        invariant 0 <= k <= |Intervals|
        invariant indices == old(indices)["swe" := Keyed(all[..k])]
      {
        var i := IntervalLength(k);
        var grid := SweGrid(pixels, i);
        assert grid == all[k];
        EntryStep(indices, old(indices), "swe", all, k);
        indices := indices["swe" := indices["swe"][i := grid]];
        k := k + 1;
      }
      assert all[..k] == all;
    }

    /**
     * `process_swe_pon`: needs the "swe" entry; replaces the "pnswe" entry
     * and nothing else, filling each grid's NaN entries in place.
     */
    method ProcessSwePon()
      requires Valid()
      requires "swe" in indices && Complete(indices["swe"], |pixels|)
      modifies this
      ensures indices == old(indices)["pnswe" := SwePonEntry(days, old(indices)["swe"], sweNormals)]
    {
      var entry := FilledSwePonEntry(days, indices["swe"], sweNormals);
      indices := indices["pnswe" := entry];
    }

    /** `process_spi`: replaces the "spi" entry and nothing else. */
    method ProcessSpi(spi: Standardizer)
      requires Valid()
      modifies this
      ensures indices == old(indices)["spi" := SpiEntry(pixels, spi)]
    {
      ghost var all := SpiGrids(pixels, spi);
      indices := indices["spi" := map[]];
      var k := 0;
      while k < |Intervals|
        invariant 0 <= k <= |Intervals|
        invariant indices == old(indices)["spi" := Keyed(all[..k])]
      {
        var i := Intervals[k];
        var grid := SpiGrid(pixels, spi, i);
        assert grid == all[k];
        EntryStep(indices, old(indices), "spi", all, k);
        indices := indices["spi" := indices["spi"][i := grid]];
        k := k + 1;
      }
      assert all[..k] == all;
    }

    /** `process_spei`: the water budget `tp + pev + 0.001` standardized; replaces the "spei" entry and nothing else. */
    method ProcessSpei(spei: Standardizer)
      requires Valid()
      modifies this
      ensures indices == old(indices)["spei" := SpeiEntry(pixels, spei)]
    {
      ghost var all := SpeiGrids(pixels, spei);
      var budget := seq(|pixels|, p requires 0 <= p < |pixels| => WaterBudget(pixels[p]));
      indices := indices["spei" := map[]];
      var k := 0;
      while k < |Intervals|
        invariant 0 <= k <= |Intervals|
        invariant indices == old(indices)["spei" := Keyed(all[..k])]
      {
        var i := Intervals[k];
        var grid := seq(|pixels|, p requires 0 <= p < |pixels| => spei(p, budget[p], i));
        assert grid == SpeiGrid(pixels, spei, i);
        assert grid == all[k];
        EntryStep(indices, old(indices), "spei", all, k);
        indices := indices["spei" := indices["spei"][i := grid]];
        k := k + 1;
      }
      assert all[..k] == all;
    }
  }

  // ---------------------------------------------------------------------------
  // Combining

  /**
   * `xr.merge` of each index's grids concatenated along a new "interval"
   * dimension in the order 30, 60, 90, 180, 365.
   */
  function CombineIndices(indices: map<string, map<nat, seq<Float>>>): (r: Result<map<string, seq<seq<Float>>>, IndexError>)
    ensures r.Failure? <==> exists name, k :: name in indices && 0 <= k < |Intervals| && Intervals[k] !in indices[name]
    ensures r.Failure? ==> r.error == MissingInterval
    ensures r.Success? ==> r.value.Keys == indices.Keys
    ensures r.Success? ==> forall name :: name in r.value ==>
      |r.value[name]| == |Intervals| &&
      forall k :: 0 <= k < |Intervals| ==> r.value[name][k] == indices[name][Intervals[k]]
  {
    if exists name, k :: name in indices && 0 <= k < |Intervals| && Intervals[k] !in indices[name] then
      Failure(MissingInterval)
    else
      Success(map name | name in indices :: seq(|Intervals|, k requires 0 <= k < |Intervals| => indices[name][Intervals[k]]))
  }

  /**
   * The processing after the daily dataset is assembled: the window, the
   * six indices in order, and the combination.
   */
  method ComputeIndices(ds: Dataset, tpNormals: seq<seq<real>>, sweNormals: seq<seq<real>>,
                        spi: Standardizer, spei: Standardizer) returns (r: Result<map<string, seq<seq<Float>>>, IndexError>)
    requires ValidDataset(ds) && |tpNormals| == |ds.pixels| && |sweNormals| == |ds.pixels|
    ensures SelectWindowAsWritten(ds).Failure? ==> r == Failure(SelectWindowAsWritten(ds).error)
    ensures SelectWindowAsWritten(ds).Success? ==>
      var w := SelectWindowAsWritten(ds).value;
      r.Success? && r.value.Keys == IndexKeys &&
      r == CombineIndices(Expected(w.days, w.pixels, tpNormals, sweNormals, spi, spei))
  {
    var window := SelectWindowAsWritten(ds);
    if window.Failure? {
      return Failure(window.error);
    }
    var w := window.value;
    WindowParts(w.days, w.pixels);
    var run := new IndexRun(w.days, w.pixels, tpNormals, sweNormals);
    run.ProcessTotalPrecip();
    run.ProcessTotalPrecipPon();
    run.ProcessSwe();
    run.ProcessSwePon();
    run.ProcessSpi(spi);
    run.ProcessSpei(spei);
    var expected := Expected(w.days, w.pixels, tpNormals, sweNormals, spi, spei);
    assert run.indices == expected;
    r := CombineIndices(run.indices);
  }
}
