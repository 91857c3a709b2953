/**
 * Assembly of the daily ERA5 inputs from the three downloaded hourly
 * fragments of one variable: collapsing the current year's two experiment
 * versions (final data, expver 1, and provisional data, expver 5) into one
 * series, merging the fragments on their time axis, resampling to calendar
 * days, and combining the daily variables into one dataset.
 *
 * Every step is the same at every grid cell, so one cell's series is
 * modelled; times are hours since 0001-01-01T00:00, and a day is its
 * proleptic Gregorian ordinal (day 1 is 0001-01-01).
 */
module Assembly {
  import opened Wrappers
  import opened Series
  import Luts
  import Download

  /** One hourly sample of one variable at one grid cell. */
  datatype Obs = Obs(hour: nat, value: real)

  /** One hour of the current-year fragment: the expver 1 and expver 5 values, NaN as None. */
  datatype TrackPoint = TrackPoint(hour: nat, final: Option<real>, provisional: Option<real>)

  /** The three downloaded fragments of one variable at one grid cell. */
  datatype Fragments = Fragments(previousYear: seq<Obs>, currentYear: seq<TrackPoint>, currentMonth: seq<Obs>)

  /** How the hours of one day are reduced to the daily value. */
  datatype Aggregation = Sum | Mean

  /** A daily series: the value of day `firstDay + k` is `values[k]`, NaN as None. */
  datatype Daily = Daily(firstDay: int, values: seq<Option<real>>)

  datatype AssemblyError =
    | UnknownVariable      // the variable has no file prefix (a KeyError)
    | ExpverNotExclusive   // an hour has both or neither experiment version (a failed assertion)
    | ConflictingValues    // two fragments disagree at the same hour (a merge error)
    | UnhandledVariable    // no daily reduction is chosen (the daily dataset is never bound)
    | MisalignedAxes       // the daily variables do not share one time axis

  function DayOf(hour: nat): int {
    hour / 24 + 1
  }

  lemma DayOfMonotonic(h1: nat, h2: nat)
    requires h1 <= h2
    ensures DayOf(h1) <= DayOf(h2)
  {
  }

  predicate StrictlyIncreasing(s: seq<Obs>) {
    forall i, j :: 0 <= i < j < |s| ==> s[i].hour < s[j].hour
  }

  predicate TrackIncreasing(t: seq<TrackPoint>) {
    forall i, j :: 0 <= i < j < |t| ==> t[i].hour < t[j].hour
  }

  function Elements(s: seq<Obs>): set<Obs> {
    set k | 0 <= k < |s| :: s[k]
  }

  function Values(s: seq<Obs>): (r: seq<real>)
    ensures |r| == |s|
  {
    seq(|s|, k requires 0 <= k < |s| => s[k].value)
  }

  // ---------------------------------------------------------------------------
  // The current year's two experiment versions

  /** Exactly one of the two versions holds a value at this hour. */
  predicate Exclusive(p: TrackPoint) {
    p.final.Some? != p.provisional.Some?
  }

  /**
   * The current year as one series: fails unless every hour holds exactly one
   * version, and then takes that version's value at every hour.
   */
  function CollapseTracks(track: seq<TrackPoint>): (r: Result<seq<Obs>, AssemblyError>)
    ensures r.Failure? <==> exists k :: 0 <= k < |track| && !Exclusive(track[k])
    ensures r.Failure? ==> r.error == ExpverNotExclusive
    ensures r.Success? ==> |r.value| == |track|
    ensures r.Success? ==> forall k :: 0 <= k < |track| ==>
      r.value[k].hour == track[k].hour &&
      (Some(r.value[k].value) == track[k].final || Some(r.value[k].value) == track[k].provisional)
  {
    if track == [] then Success([])
    else if !Exclusive(track[0]) then Failure(ExpverNotExclusive)
    else
      var p := track[0];
      var head := Obs(p.hour, if p.final.Some? then p.final.value else p.provisional.value);
      match CollapseTracks(track[1..])
      case Failure(e) =>
        assert exists k :: 0 <= k < |track[1..]| && !Exclusive(track[1..][k]);
        Failure(e)
      case Success(rest) =>
        assert forall k :: 1 <= k < |track| ==> track[k] == track[1..][k - 1];
        Success([head] + rest)
  }

  /** Distributes a series over the two versions: provisional where the mask says so. */
  function Split(obs: seq<Obs>, provisional: seq<bool>): (t: seq<TrackPoint>)
    requires |provisional| == |obs|
    ensures |t| == |obs|
  {
    seq(|obs|, k requires 0 <= k < |obs| =>
      if provisional[k] then TrackPoint(obs[k].hour, None, Some(obs[k].value))
      else TrackPoint(obs[k].hour, Some(obs[k].value), None))
  }

  function ProvisionalMask(t: seq<TrackPoint>): (m: seq<bool>)
    ensures |m| == |t|
  {
    seq(|t|, k requires 0 <= k < |t| => t[k].provisional.Some?)
  }

  /** However a series is split over the two versions, collapsing gives it back. */
  lemma CollapseSplit(obs: seq<Obs>, provisional: seq<bool>)
    requires |provisional| == |obs|
    ensures CollapseTracks(Split(obs, provisional)) == Success(obs)
  {
    var r := CollapseTracks(Split(obs, provisional));
    assert r.Success?;
    assert r.value == obs;
  }

  /** A current year that collapses is the split of its collapse by its own mask. */
  lemma SplitCollapse(track: seq<TrackPoint>)
    requires CollapseTracks(track).Success?
    ensures Split(CollapseTracks(track).value, ProvisionalMask(track)) == track
  {
  }

  // ---------------------------------------------------------------------------
  // Merging fragments on their time axis

  /** Some hour carries two different values in a and b. */
  predicate Conflict(a: seq<Obs>, b: seq<Obs>) {
    exists i, j :: 0 <= i < |a| && 0 <= j < |b| && a[i].hour == b[j].hour && a[i].value != b[j].value
  }

  lemma ElementsCons(s: seq<Obs>)
    requires s != []
    ensures Elements(s) == {s[0]} + Elements(s[1..])
  {
    assert forall k :: 1 <= k < |s| ==> s[k] == s[1..][k - 1];
    assert forall k :: 0 <= k < |s[1..]| ==> s[1..][k] == s[k + 1];
  }

  lemma ConflictDropFirst(a: seq<Obs>, b: seq<Obs>)
    requires StrictlyIncreasing(b) && a != [] && b != [] && a[0].hour < b[0].hour
    ensures Conflict(a, b) <==> Conflict(a[1..], b)
  {
    if Conflict(a, b) {
      var i, j :| 0 <= i < |a| && 0 <= j < |b| && a[i].hour == b[j].hour && a[i].value != b[j].value;
      assert i != 0;
      assert a[1..][i - 1] == a[i];
    }
    if Conflict(a[1..], b) {
      var i, j :| 0 <= i < |a[1..]| && 0 <= j < |b| && a[1..][i].hour == b[j].hour && a[1..][i].value != b[j].value;
      assert a[i + 1] == a[1..][i];
    }
  }

  lemma ConflictSymmetric(a: seq<Obs>, b: seq<Obs>)
    ensures Conflict(a, b) <==> Conflict(b, a)
  {
    if Conflict(a, b) {
      var i, j :| 0 <= i < |a| && 0 <= j < |b| && a[i].hour == b[j].hour && a[i].value != b[j].value;
      assert b[j].hour == a[i].hour && b[j].value != a[i].value;
    }
    if Conflict(b, a) {
      var j, i :| 0 <= j < |b| && 0 <= i < |a| && b[j].hour == a[i].hour && b[j].value != a[i].value;
      assert a[i].hour == b[j].hour && a[i].value != b[j].value;
    }
  }

  lemma ConflictDropBoth(a: seq<Obs>, b: seq<Obs>)
    requires StrictlyIncreasing(a) && StrictlyIncreasing(b) && a != [] && b != [] && a[0] == b[0]
    ensures Conflict(a, b) <==> Conflict(a[1..], b[1..])
  {
    if Conflict(a, b) {
      var i, j :| 0 <= i < |a| && 0 <= j < |b| && a[i].hour == b[j].hour && a[i].value != b[j].value;
      assert i != 0 && j != 0;
      assert a[1..][i - 1] == a[i] && b[1..][j - 1] == b[j];
    }
    if Conflict(a[1..], b[1..]) {
      var i, j :| 0 <= i < |a[1..]| && 0 <= j < |b[1..]| && a[1..][i].hour == b[1..][j].hour && a[1..][i].value != b[1..][j].value;
      assert a[i + 1] == a[1..][i] && b[j + 1] == b[1..][j];
    }
  }

  lemma ConflictAtHead(a: seq<Obs>, b: seq<Obs>)
    requires a != [] && b != [] && a[0].hour == b[0].hour && a[0].value != b[0].value
    ensures Conflict(a, b)
  {
    assert a[0].hour == b[0].hour && a[0].value != b[0].value;
  }

  /** A sample that precedes every element of a sorted series can be put in front of it. */
  lemma ConsIncreasing(x: Obs, s: seq<Obs>)
    requires StrictlyIncreasing(s)
    requires forall o :: o in Elements(s) ==> x.hour < o.hour
    ensures StrictlyIncreasing([x] + s)
  {
    forall j | 0 <= j < |s| ensures x.hour < s[j].hour {
      assert s[j] in Elements(s);
    }
  }

  lemma AllAfterHead(s: seq<Obs>)
    requires StrictlyIncreasing(s) && s != []
    ensures forall o :: o in Elements(s[1..]) ==> s[0].hour < o.hour
  {
    forall o | o in Elements(s[1..]) ensures s[0].hour < o.hour {
      var k :| 0 <= k < |s[1..]| && s[1..][k] == o;
      assert o == s[k + 1];
    }
  }

  lemma AllFrom(s: seq<Obs>)
    requires StrictlyIncreasing(s) && s != []
    ensures forall o :: o in Elements(s) ==> s[0].hour <= o.hour
  {
    forall o | o in Elements(s) ensures s[0].hour <= o.hour {
      var k :| 0 <= k < |s| && s[k] == o;
    }
  }

  /** Putting x in front of a merged tail keeps the series sorted and adds x to its samples. */
  lemma ConsMerged(x: Obs, rest: seq<Obs>, s: seq<Obs>, t: seq<Obs>)
    requires StrictlyIncreasing(rest) && Elements(rest) == Elements(s) + Elements(t)
    requires forall o :: o in Elements(s) ==> x.hour < o.hour
    requires forall o :: o in Elements(t) ==> x.hour < o.hour
    ensures StrictlyIncreasing([x] + rest)
    ensures Elements([x] + rest) == {x} + Elements(s) + Elements(t)
  {
    ConsIncreasing(x, rest);
    ElementsCons([x] + rest);
    assert ([x] + rest)[1..] == rest;
  }

  /** The merge step that takes the head of a, which comes strictly first. */
  lemma MergeStepFirst(a: seq<Obs>, b: seq<Obs>, rest: seq<Obs>)
    requires StrictlyIncreasing(a) && StrictlyIncreasing(b) && a != [] && b != [] && a[0].hour < b[0].hour
    requires StrictlyIncreasing(rest) && Elements(rest) == Elements(a[1..]) + Elements(b)
    ensures StrictlyIncreasing([a[0]] + rest)
    ensures Elements([a[0]] + rest) == Elements(a) + Elements(b)
  {
    ElementsCons(a);
    AllAfterHead(a);
    AllFrom(b);
    ConsMerged(a[0], rest, a[1..], b);
  }

  /** The merge step where both heads are the same sample. */
  lemma MergeStepBoth(a: seq<Obs>, b: seq<Obs>, rest: seq<Obs>)
    requires StrictlyIncreasing(a) && StrictlyIncreasing(b) && a != [] && b != [] && a[0] == b[0]
    requires StrictlyIncreasing(rest) && Elements(rest) == Elements(a[1..]) + Elements(b[1..])
    ensures StrictlyIncreasing([a[0]] + rest)
    ensures Elements([a[0]] + rest) == Elements(a) + Elements(b)
  {
    ElementsCons(a);
    ElementsCons(b);
    AllAfterHead(a);
    AllAfterHead(b);
    ConsMerged(a[0], rest, a[1..], b[1..]);
  }

  lemma ElementsEmpty(s: seq<Obs>)
    ensures Elements(s) == {} <==> s == []
  {
    if s != [] {
      assert s[0] in Elements(s);
    }
  }

  /**
   * `xr.merge` of two fragments: the union of their samples in time order,
   * or a merge error when some hour carries two different values.
   */
  function MergeByTime(a: seq<Obs>, b: seq<Obs>): (r: Result<seq<Obs>, AssemblyError>)
    requires StrictlyIncreasing(a) && StrictlyIncreasing(b)
    ensures r.Failure? <==> Conflict(a, b)
    ensures r.Failure? ==> r.error == ConflictingValues
    ensures r.Success? ==> StrictlyIncreasing(r.value) && Elements(r.value) == Elements(a) + Elements(b)
    decreases |a| + |b|
  {
    if a == [] then
      ElementsEmpty(a);
      Success(b)
    else if b == [] then
      ElementsEmpty(b);
      Success(a)
    else if a[0].hour < b[0].hour then
      ConflictDropFirst(a, b);
      match MergeByTime(a[1..], b)
      case Failure(e) => Failure(e)
      case Success(rest) =>
        MergeStepFirst(a, b, rest);
        Success([a[0]] + rest)
    else if b[0].hour < a[0].hour then
      ConflictSymmetric(a, b);
      ConflictDropFirst(b, a);
      ConflictSymmetric(b[1..], a);
      match MergeByTime(a, b[1..])
      case Failure(e) => Failure(e)
      case Success(rest) =>
        MergeStepFirst(b, a, rest);
        Success([b[0]] + rest)
    else if a[0].value != b[0].value then
      ConflictAtHead(a, b);
      Failure(ConflictingValues)
    else
      ConflictDropBoth(a, b);
      match MergeByTime(a[1..], b[1..])
      case Failure(e) => Failure(e)
      case Success(rest) =>
        MergeStepBoth(a, b, rest);
        Success([a[0]] + rest)
  }

  /** A series conflicts with a merge of two series exactly when it conflicts with one of them. */
  lemma ConflictUnion(merged: seq<Obs>, a: seq<Obs>, b: seq<Obs>, c: seq<Obs>)
    requires Elements(merged) == Elements(a) + Elements(b)
    ensures Conflict(merged, c) <==> Conflict(a, c) || Conflict(b, c)
  {
    if Conflict(merged, c) {
      var i, j :| 0 <= i < |merged| && 0 <= j < |c| && merged[i].hour == c[j].hour && merged[i].value != c[j].value;
      assert merged[i] in Elements(merged);
      if merged[i] in Elements(a) {
        var k :| 0 <= k < |a| && a[k] == merged[i];
        assert a[k].hour == c[j].hour && a[k].value != c[j].value;
      } else {
        var k :| 0 <= k < |b| && b[k] == merged[i];
        assert b[k].hour == c[j].hour && b[k].value != c[j].value;
      }
    }
    if Conflict(a, c) {
      var i, j :| 0 <= i < |a| && 0 <= j < |c| && a[i].hour == c[j].hour && a[i].value != c[j].value;
      assert a[i] in Elements(merged);
      var k :| 0 <= k < |merged| && merged[k] == a[i];
      assert merged[k].hour == c[j].hour && merged[k].value != c[j].value;
    }
    if Conflict(b, c) {
      var i, j :| 0 <= i < |b| && 0 <= j < |c| && b[i].hour == c[j].hour && b[i].value != c[j].value;
      assert b[i] in Elements(merged);
      var k :| 0 <= k < |merged| && merged[k] == b[i];
      assert merged[k].hour == c[j].hour && merged[k].value != c[j].value;
    }
  }

  /** In a sorted series, a sample with the hour of s[k] is s[k]. */
  lemma HourDetermines(s: seq<Obs>, o: Obs, k: nat)
    requires StrictlyIncreasing(s) && k < |s| && o in Elements(s) && o.hour == s[k].hour
    ensures o == s[k]
  {
    var i :| 0 <= i < |s| && s[i] == o;
    assert i == k;
  }

  /** Two sorted series with the same samples are the same series. */
  lemma {:induction false} SortedByElements(s: seq<Obs>, t: seq<Obs>)
    requires StrictlyIncreasing(s) && StrictlyIncreasing(t) && Elements(s) == Elements(t)
    ensures s == t
    decreases |s|
  {
    ElementsEmpty(s);
    ElementsEmpty(t);
    if s != [] {
      AllFrom(s);
      AllFrom(t);
      assert s[0] in Elements(s) && t[0] in Elements(t);
      assert s[0].hour == t[0].hour;
      HourDetermines(t, s[0], 0);
      ElementsCons(s);
      ElementsCons(t);
      AllAfterHead(s);
      AllAfterHead(t);
      assert s[0] !in Elements(s[1..]) && t[0] !in Elements(t[1..]);
      assert Elements(s[1..]) == Elements(t[1..]);
      SortedByElements(s[1..], t[1..]);
      assert s == [s[0]] + s[1..] && t == [t[0]] + t[1..];
    }
  }

  /** Merging in the other order gives the same series or the same error. */
  lemma MergeCommutative(a: seq<Obs>, b: seq<Obs>)
    requires StrictlyIncreasing(a) && StrictlyIncreasing(b)
    ensures MergeByTime(a, b) == MergeByTime(b, a)
  {
    ConflictSymmetric(a, b);
    var r, q := MergeByTime(a, b), MergeByTime(b, a);
    if r.Success? {
      SortedByElements(r.value, q.value);
    }
  }

  // ---------------------------------------------------------------------------
  // Resampling hours to days

  /** The values of the samples that fall on day d, in time order. */
  function DayValues(s: seq<Obs>, d: int): seq<real> {
    if s == [] then []
    else (if DayOf(s[0].hour) == d then [s[0].value] else []) + DayValues(s[1..], d)
  }

  /**
   * The reduction of one day's values: their total, or their mean (the value
   * that times the count gives the total), which does not exist for no values.
   * An empty day does not arise from gap-free hourly input.
   */
  function Aggregate(xs: seq<real>, how: Aggregation): (r: Option<real>)
    ensures how == Sum ==> r == Some(Total(xs))
    ensures how == Mean ==> (r.Some? <==> xs != [])
    ensures how == Mean && r.Some? ==> r.value * |xs| as real == Total(xs)
  {
    match how
    case Sum => Some(Total(xs))
    case Mean => if xs == [] then None else Some(Total(xs) / |xs| as real)
  }

  /**
   * `resample(time="1D")`: one value per calendar day, from the day of the
   * first sample to the day of the last with no day skipped, each the
   * reduction of the samples of that day.
   */
  function Resample(s: seq<Obs>, how: Aggregation): (d: Daily)
    requires StrictlyIncreasing(s)
    ensures s == [] ==> d.values == []
    ensures s != [] ==> d.firstDay == DayOf(s[0].hour) && |d.values| == DayOf(s[|s| - 1].hour) - DayOf(s[0].hour) + 1
    ensures forall k :: 0 <= k < |d.values| ==> d.values[k] == Aggregate(DayValues(s, d.firstDay + k), how)
  {
    if s == [] then Daily(1, [])
    else
      var first := DayOf(s[0].hour);
      DayOfMonotonic(s[0].hour, s[|s| - 1].hour);
      var count := DayOf(s[|s| - 1].hour) - first + 1;
      Daily(first, seq(count, k requires 0 <= k < count => Aggregate(DayValues(s, first + k), how)))
  }

  /** The sum of the daily totals of days lo .. lo + count - 1. */
  function SumOfDays(s: seq<Obs>, lo: int, count: nat): real {
    if count == 0 then 0.0 else SumOfDays(s, lo, count - 1) + Total(DayValues(s, lo + count - 1))
  }

  lemma SumOfDaysStep(s: seq<Obs>, lo: int, n: nat)
    ensures SumOfDays(s, lo, n + 1) == SumOfDays(s, lo, n) + Total(DayValues(s, lo + n))
  {
  }

  /** Over a range of days, the first sample contributes its value once if its day is in range. */
  lemma {:induction false} SumOfDaysCons(s: seq<Obs>, lo: int, count: nat)
    requires s != []
    ensures SumOfDays(s, lo, count)
         == (if lo <= DayOf(s[0].hour) < lo + count then s[0].value else 0.0) + SumOfDays(s[1..], lo, count)
  {
    if count > 0 {
      SumOfDaysCons(s, lo, count - 1);
      var d := lo + count - 1;
      var head: seq<real> := if DayOf(s[0].hour) == d then [s[0].value] else [];
      TotalAppend(head, DayValues(s[1..], d));
    }
  }

  /** Days that cover every sample carry the whole hourly total between them. */
  lemma {:induction false} SumOfDaysCovering(s: seq<Obs>, lo: int, count: nat)
    requires forall k :: 0 <= k < |s| ==> lo <= DayOf(s[k].hour) < lo + count
    ensures SumOfDays(s, lo, count) == Total(Values(s))
  {
    if s == [] {
      SumOfDaysEmpty(lo, count);
    } else {
      SumOfDaysCons(s, lo, count);
      SumOfDaysCovering(s[1..], lo, count);
      assert Values(s) == [s[0].value] + Values(s[1..]);
    }
  }

  lemma {:induction false} SumOfDaysEmpty(lo: int, count: nat)
    ensures SumOfDays([], lo, count) == 0.0
  {
    if count > 0 {
      SumOfDaysEmpty(lo, count - 1);
    }
  }

  /** A series of daily totals sums to the total of its days. */
  lemma {:induction false} DailyTotalsSum(s: seq<Obs>, lo: int, values: seq<Option<real>>)
    requires forall k :: 0 <= k < |values| ==> values[k] == Some(Total(DayValues(s, lo + k)))
    ensures SumSkipNaN(values) == SumOfDays(s, lo, |values|)
  {
    if values != [] {
      var n := |values| - 1;
      DailyTotalsSum(s, lo, values[..n]);
      assert values == values[..n] + [values[n]];
      SumSkipNaNAppend(values[..n], [values[n]]);
      var x := Total(DayValues(s, lo + n));
      SumSkipNaNSingle(x);
      assert SumSkipNaN(values) == SumOfDays(s, lo, n) + x;
      SumOfDaysStep(s, lo, n);
    } else {
      assert Present(values) == [];
    }
  }

  /** Every sample of a sorted series falls between the days of its first and last samples. */
  lemma DaysWithinRange(s: seq<Obs>)
    requires StrictlyIncreasing(s) && s != []
    ensures forall k :: 0 <= k < |s| ==> DayOf(s[0].hour) <= DayOf(s[k].hour) <= DayOf(s[|s| - 1].hour)
  {
    forall k | 0 <= k < |s| ensures DayOf(s[0].hour) <= DayOf(s[k].hour) <= DayOf(s[|s| - 1].hour) {
      DayOfMonotonic(s[0].hour, s[k].hour);
      DayOfMonotonic(s[k].hour, s[|s| - 1].hour);
    }
  }

  /** Summing to days loses nothing: the daily totals add up to the hourly total. */
  lemma DailyTotalConserved(s: seq<Obs>)
    requires StrictlyIncreasing(s)
    ensures SumSkipNaN(Resample(s, Sum).values) == Total(Values(s))
  {
    var d := Resample(s, Sum);
    DailyTotalsSum(s, d.firstDay, d.values);
    if s != [] {
      DaysWithinRange(s);
    }
    SumOfDaysCovering(s, d.firstDay, |d.values|);
  }

  /** Every value of the day lies within the bounds of all hourly values. */
  lemma {:induction false} DayValuesBounded(s: seq<Obs>, d: int, lo: real, hi: real)
    requires forall k :: 0 <= k < |s| ==> lo <= s[k].value <= hi
    ensures forall k :: 0 <= k < |DayValues(s, d)| ==> lo <= DayValues(s, d)[k] <= hi
  {
    if s != [] {
      DayValuesBounded(s[1..], d, lo, hi);
    }
  }

  /** A daily mean lies within the bounds of the hourly values it averages. */
  lemma DailyMeanBounded(s: seq<Obs>, lo: real, hi: real, k: nat)
    requires StrictlyIncreasing(s)
    requires forall j :: 0 <= j < |s| ==> lo <= s[j].value <= hi
    requires k < |Resample(s, Mean).values| && Resample(s, Mean).values[k].Some?
    ensures lo <= Resample(s, Mean).values[k].value <= hi
  {
    var d := Resample(s, Mean);
    var xs := DayValues(s, d.firstDay + k);
    assert d.values[k] == Aggregate(xs, Mean);
    DayValuesBounded(s, d.firstDay + k, lo, hi);
    MeanBounds(xs, lo, hi);
  }

  // ---------------------------------------------------------------------------
  // One variable's daily dataset

  /**
   * Summed for the accumulated variables, averaged for the states: exactly
   * the variables with a file prefix get a daily reduction.
   */
  function AggregationFor(varname: string): (r: Option<Aggregation>)
    ensures r.Some? <==> varname in Luts.VarnamePrefix
    ensures r == Some(Sum) <==> varname == "tp" || varname == "pev"
  {
    Luts.VarnamePrefixEntries();
    if varname == "tp" || varname == "pev" then Some(Sum)
    else if varname == "sd" || varname == "swvl1" || varname == "swvl2" then Some(Mean)
    else None
  }

  /** The file the processing step opens for one fragment of one variable. */
  function InputFileName(varname: string, fragment: string): string
    requires varname in Luts.VarnamePrefix
  {
    Luts.VarnamePrefix[varname] + "_" + fragment + ".nc"
  }

  /**
   * The three files read for a variable are the ones the download step names
   * for that variable's long name, which is one of the downloaded variables.
   */
  lemma InputFilesAreDownloaded(varname: string)
    requires varname in Luts.VarnamePrefix
    ensures Luts.VarnamePrefix[varname] in Download.DownloadedVariables
    ensures forall fragment ::
      (InputFileName(varname, fragment) == Download.OutputFileName(Luts.VarnamePrefix[varname], fragment))
  {
    Luts.VarnamePrefixEntries();
  }

  /**
   * `assemble_dataset`: the daily series of one variable at one grid cell,
   * or the error that stops the script.
   */
  function AssembleDataset(varname: string, f: Fragments): (r: Result<Daily, AssemblyError>)
    requires StrictlyIncreasing(f.previousYear) && StrictlyIncreasing(f.currentMonth)
    requires TrackIncreasing(f.currentYear)
    ensures r == Failure(UnknownVariable) <==> varname !in Luts.VarnamePrefix
    ensures r == Failure(ExpverNotExclusive) <==>
      varname in Luts.VarnamePrefix && exists k :: 0 <= k < |f.currentYear| && !Exclusive(f.currentYear[k])
    ensures r == Failure(ConflictingValues) <==>
      varname in Luts.VarnamePrefix && CollapseTracks(f.currentYear).Success? &&
      (Conflict(f.previousYear, CollapseTracks(f.currentYear).value) ||
       Conflict(f.previousYear, f.currentMonth) ||
       Conflict(CollapseTracks(f.currentYear).value, f.currentMonth))
    ensures r.Success? <==>
      varname in Luts.VarnamePrefix && CollapseTracks(f.currentYear).Success? &&
      !Conflict(f.previousYear, CollapseTracks(f.currentYear).value) &&
      !Conflict(f.previousYear, f.currentMonth) &&
      !Conflict(CollapseTracks(f.currentYear).value, f.currentMonth)
    ensures r != Failure(UnhandledVariable)
    ensures r.Success? ==> exists hourly ::
      (StrictlyIncreasing(hourly) &&
       Elements(hourly) == Elements(f.previousYear) + Elements(CollapseTracks(f.currentYear).value) + Elements(f.currentMonth) &&
       r.value == Resample(hourly, AggregationFor(varname).value))
  {
    if varname !in Luts.VarnamePrefix then Failure(UnknownVariable)
    else
      match CollapseTracks(f.currentYear)
      case Failure(e) => Failure(e)
      case Success(fix) =>
        assert StrictlyIncreasing(fix) by {
          assert forall k :: 0 <= k < |fix| ==> fix[k].hour == f.currentYear[k].hour;
        }
        match MergeByTime(f.previousYear, fix)
        case Failure(e) => Failure(e)
        case Success(partial) =>
          ConflictUnion(partial, f.previousYear, fix, f.currentMonth);
          match MergeByTime(partial, f.currentMonth)
          case Failure(e) => Failure(e)
          case Success(hourly) =>
            Success(Resample(hourly, AggregationFor(varname).value))
  }

  // ---------------------------------------------------------------------------
  // Combining the daily variables

  /** One grid cell's daily total precipitation, snow depth and potential evaporation. */
  datatype Pixel = Pixel(tp: seq<Option<real>>, sd: seq<Option<real>>, pev: seq<Option<real>>)

  /** The combined daily dataset: day ordinals and every grid cell's series along them. */
  datatype Dataset = Dataset(days: seq<int>, pixels: seq<Pixel>)

  /** A strictly increasing day axis. */
  predicate IncreasingDays(days: seq<int>) {
    forall i, j :: 0 <= i < j < |days| ==> days[i] < days[j]
  }

  predicate ValidDataset(ds: Dataset) {
    (forall k :: 0 <= k < |ds.days| ==> ds.days[k] >= 1) &&
    IncreasingDays(ds.days) &&
    (forall p :: 0 <= p < |ds.pixels| ==>
      |ds.pixels[p].tp| == |ds.days| && |ds.pixels[p].sd| == |ds.days| && |ds.pixels[p].pev| == |ds.days|)
  }

  predicate SameAxis(a: Daily, b: Daily) {
    a.firstDay == b.firstDay && |a.values| == |b.values|
  }

  /**
   * `xr.combine_by_coords` of the daily total precipitation, snow depth and
   * potential evaporation over the grid, given cell by cell.
   */
  function Combine(tp: seq<Daily>, sd: seq<Daily>, pev: seq<Daily>): (r: Result<Dataset, AssemblyError>)
    requires |tp| >= 1 && |sd| == |tp| && |pev| == |tp|
    requires tp[0].firstDay >= 1
    ensures r.Failure? <==> exists p :: 0 <= p < |tp| && !(SameAxis(tp[p], tp[0]) && SameAxis(sd[p], tp[0]) && SameAxis(pev[p], tp[0]))
    ensures r.Success? ==> ValidDataset(r.value) && |r.value.pixels| == |tp| && |r.value.days| == |tp[0].values|
    ensures r.Success? ==> forall k :: 0 <= k < |r.value.days| ==> r.value.days[k] == tp[0].firstDay + k
    ensures r.Success? ==> forall p :: 0 <= p < |tp| ==>
      r.value.pixels[p] == Pixel(tp[p].values, sd[p].values, pev[p].values)
  {
    if exists p :: 0 <= p < |tp| && !(SameAxis(tp[p], tp[0]) && SameAxis(sd[p], tp[0]) && SameAxis(pev[p], tp[0])) then
      Failure(MisalignedAxes)
    else
      var first := tp[0].firstDay;
      var days := seq(|tp[0].values|, k requires 0 <= k < |tp[0].values| => first + k);
      var pixels := seq(|tp|, p requires 0 <= p < |tp| => Pixel(tp[p].values, sd[p].values, pev[p].values));
      Success(Dataset(days, pixels))
  }
}
