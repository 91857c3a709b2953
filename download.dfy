/**
 * Request planning of the download step: the analysis date (today minus a
 * fixed lag), the year/month/day lists of the three time fragments, the 24
 * hour strings, the output file name, and the order in which fragments are
 * requested. The remote retrieval itself is an appended `Request` record.
 */
module Download {
  import opened Wrappers
  import opened Calendar
  import opened Decimal

  /** Days between today and the most recent data the archive is expected to hold. */
  const DataLagTimeDays: nat := 8

  /** Requested area: north, west, south, east. */
  const BoundingBox: seq<int> := [76, -180, 44, -125]

  /** The ERA5 variables the download script fetches, in order. */
  const DownloadedVariables: seq<string> := [
    "total_precipitation",
    "snow_depth",
    "volumetric_soil_water_layer_1",
    "volumetric_soil_water_layer_2",
    "potential_evaporation"
  ]

  /** The archive's dataset, product type and file format every request asks for. */
  const Era5Dataset: string := "reanalysis-era5-single-levels"
  const ProductType: string := "reanalysis"
  const FileFormat: string := "netcdf"

  /** The names of the three fragments, which end up in the output file names. */
  const CurrentMonth: string := "current_month"
  const PreviousYear: string := "previous_year"
  const CurrentYear: string := "current_year"

  /** A request field that is either one string or a list of strings. */
  datatype FieldValue = Single(text: string) | Multiple(items: seq<string>)

  /** The dates of one fragment: a year, its month(s) and the days of each month. */
  datatype DateSpec = DateSpec(year: string, months: FieldValue, days: seq<string>)

  /** One retrieval from the archive and the file it writes. */
  datatype Request = Request(
    dataset: string,
    productType: string,
    format: string,
    variable: string,
    year: string,
    months: FieldValue,
    days: seq<string>,
    times: seq<string>,
    area: seq<int>,
    target: string)

  /** The analysis date: today minus the lag; None where Python's date arithmetic overflows. */
  function GetAnalysisDate(today: Date): (r: Option<Date>)
    requires Valid(today)
    ensures r.Some? <==> Ordinal(today) > DataLagTimeDays
    ensures r.Some? ==> Valid(r.value) && Ordinal(r.value) == Ordinal(today) - DataLagTimeDays
  {
    SubtractDays(today, DataLagTimeDays)
  }

  /** Outside January: exactly the dates past the 31st day of their year. */
  function AnalysisDateNotInJanuary(analysis: Date): (r: bool)
    requires Valid(analysis)
    ensures r <==> DayOfYear(analysis) > 31
  {
    analysis.month != 1
  }

  /** `[str(x) for x in range(lo, hi)]`. */
  function NumberStrings(lo: nat, hi: nat): (r: seq<string>)
    ensures |r| == if lo <= hi then hi - lo else 0
    ensures forall k :: 0 <= k < |r| ==> IsCanonical(r[k]) && ParseDecimal(r[k]) == lo + k
  {
    var count := if lo <= hi then hi - lo else 0;
    var r := seq(count, k requires 0 <= k < count => DecimalString(lo + k));
    assert forall k :: 0 <= k < count ==> r[k] == DecimalString(lo + k) && ParseDecimal(r[k]) == lo + k;
    r
  }

  /** The current month from its first day through the analysis day. */
  function CurrentMonthDates(analysis: Date): (r: DateSpec)
    requires Valid(analysis)
    ensures IsCanonical(r.year) && ParseDecimal(r.year) == analysis.year
    ensures r.months.Single? && IsCanonical(r.months.text) && ParseDecimal(r.months.text) == analysis.month
    ensures |r.days| == analysis.day
    ensures forall k :: 0 <= k < |r.days| ==> IsCanonical(r.days[k]) && ParseDecimal(r.days[k]) == k + 1
  {
    DateSpec(DecimalString(analysis.year), Single(DecimalString(analysis.month)), NumberStrings(1, analysis.day + 1))
  }

  /**
   * January up to the month before the analysis month, days 1 to 31. None in
   * January: the log message reads the first and last month of an empty list,
   * which raises IndexError.
   */
  function RestOfCurrentYearDates(analysis: Date): (r: Option<DateSpec>)
    requires Valid(analysis)
    ensures r.None? <==> analysis.month == 1
    ensures r.Some? ==> IsCanonical(r.value.year) && ParseDecimal(r.value.year) == analysis.year
    ensures r.Some? ==> r.value.months.Multiple? && |r.value.months.items| == analysis.month - 1
    ensures r.Some? ==> forall k :: 0 <= k < |r.value.months.items| ==>
      IsCanonical(r.value.months.items[k]) && ParseDecimal(r.value.months.items[k]) == k + 1
    ensures r.Some? ==> |r.value.days| == 31 && forall k :: 0 <= k < 31 ==>
      IsCanonical(r.value.days[k]) && ParseDecimal(r.value.days[k]) == k + 1
  {
    if analysis.month == 1 then None
    else
      Some(DateSpec(DecimalString(analysis.year), Multiple(NumberStrings(1, analysis.month)), NumberStrings(1, 32)))
  }

  /** The whole calendar year before the analysis year. */
  function PreviousYearDates(analysis: Date): (r: DateSpec)
    requires Valid(analysis)
    ensures IsCanonical(r.year) && ParseDecimal(r.year) == analysis.year - 1
    ensures r.months.Multiple? && |r.months.items| == 12
    ensures forall k :: 0 <= k < 12 ==> IsCanonical(r.months.items[k]) && ParseDecimal(r.months.items[k]) == k + 1
    ensures |r.days| == 31 && forall k :: 0 <= k < 31 ==> IsCanonical(r.days[k]) && ParseDecimal(r.days[k]) == k + 1
  {
    DateSpec(DecimalString(analysis.year - 1), Multiple(NumberStrings(1, 13)), NumberStrings(1, 32))
  }

  /** Hour x as "HH:00": two digits reading x, padded with one zero below ten. */
  function HourString(x: nat): (h: string)
    requires x < 24
    ensures |h| == 5 && h[2..] == ":00"
    ensures AllDigits(h[..2]) && ParseDecimal(h[..2]) == x
  {
    if x <= 9 then
      var h := "0" + DecimalString(x) + ":00";
      assert h[..2] == "0" + DecimalString(x);
      assert (h[..2])[..1] == "0";
      h
    else
      var h := DecimalString(x) + ":00";
      assert h[..2] == DecimalString(x);
      h
  }

  /** The request time list: exactly the 24 hours of the day, in order. */
  function HourStrings(): (hs: seq<string>)
    ensures |hs| == 24
    ensures forall x :: 0 <= x < 24 ==>
      |hs[x]| == 5 && hs[x][2..] == ":00" && AllDigits(hs[x][..2]) && ParseDecimal(hs[x][..2]) == x
  {
    seq(24, x requires 0 <= x < 24 => HourString(x))
  }

  /** `f"{data_variable}_{output_name}.nc"`. */
  function OutputFileName(variable: string, outputName: string): (f: string)
    ensures |f| == |variable| + |outputName| + 4
    ensures f[..|variable|] == variable && f[|variable|] == '_'
    ensures f[|variable| + 1..|f| - 3] == outputName && f[|f| - 3..] == ".nc"
  {
    var f := variable + "_" + outputName + ".nc";
    assert f[..|variable|] == variable;
    assert f[|variable| + 1..|f| - 3] == outputName;
    f
  }

  /** The three fragments of one variable are written to three different files. */
  lemma FragmentFilesDistinct(variable: string)
    ensures OutputFileName(variable, CurrentMonth) != OutputFileName(variable, PreviousYear)
    ensures OutputFileName(variable, CurrentMonth) != OutputFileName(variable, CurrentYear)
    ensures OutputFileName(variable, PreviousYear) != OutputFileName(variable, CurrentYear)
  {
    var n := |variable| + 1;
    var a, b, c := OutputFileName(variable, CurrentMonth), OutputFileName(variable, PreviousYear), OutputFileName(variable, CurrentYear);
    assert a[n..|a| - 3] == CurrentMonth && b[n..|b| - 3] == PreviousYear && c[n..|c| - 3] == CurrentYear;
    assert CurrentMonth[1] != PreviousYear[1];
    assert CurrentYear[8] != CurrentMonth[8];
    assert |PreviousYear| != |CurrentYear|;
  }

  /** The retrieve call of `download_data` for one fragment. */
  function MakeRequest(spec: DateSpec, variable: string, outputName: string): (q: Request)
    ensures q.variable == variable && q.times == HourStrings()
    ensures q.target == OutputFileName(variable, outputName)
    ensures q.year == spec.year && q.months == spec.months && q.days == spec.days
  {
    Request(Era5Dataset, ProductType, FileFormat, variable,
            spec.year, spec.months, spec.days, HourStrings(), BoundingBox,
            OutputFileName(variable, outputName))
  }

  /**
   * The requests one variable needs, in the order they are issued: current
   * month first, then the previous year, then the rest of the current year
   * only outside January; each fragment written to its own file, every one
   * asking for all 24 hours.
   */
  function PlannedRequests(variable: string, analysis: Date): (r: seq<Request>)
    requires Valid(analysis)
    ensures |r| == (if analysis.month == 1 then 2 else 3)
    ensures r[0].target == OutputFileName(variable, CurrentMonth)
    ensures r[1].target == OutputFileName(variable, PreviousYear)
    ensures |r| == 3 ==> r[2].target == OutputFileName(variable, CurrentYear)
    ensures forall q :: q in r ==> q.variable == variable && q.times == HourStrings()
  {
    var first := MakeRequest(CurrentMonthDates(analysis), variable, CurrentMonth);
    var second := MakeRequest(PreviousYearDates(analysis), variable, PreviousYear);
    if AnalysisDateNotInJanuary(analysis)
    then [first, second, MakeRequest(RestOfCurrentYearDates(analysis).value, variable, CurrentYear)]
    else [first, second]
  }

  /** The requests of several variables, one variable after another. */
  function PlannedForAll(variables: seq<string>, analysis: Date): seq<Request>
    requires Valid(analysis)
  {
    if variables == [] then []
    else PlannedForAll(variables[..|variables| - 1], analysis) + PlannedRequests(variables[|variables| - 1], analysis)
  }

  lemma AppendAssociative<T>(a: seq<T>, b: seq<T>, c: seq<T>)
    ensures (a + b) + c == a + (b + c)
  {
  }

  lemma AppendOneByOne<T>(a: seq<T>, b: seq<T>)
    requires 2 <= |b| <= 3
    ensures |b| == 2 ==> (a + [b[0]]) + [b[1]] == a + b
    ensures |b| == 3 ==> ((a + [b[0]]) + [b[1]]) + [b[2]] == a + b
  {
  }

  lemma PlannedForAllStep(variables: seq<string>, k: nat, analysis: Date)
    requires Valid(analysis) && k < |variables|
    ensures PlannedForAll(variables[..k + 1], analysis)
         == PlannedForAll(variables[..k], analysis) + PlannedRequests(variables[k], analysis)
  {
    assert variables[..k + 1][..k] == variables[..k];
  }

  /**
   * The planned fragments ask for the whole previous year (months 1 to 12,
   * days 1 to 31), every month of the current year before the analysis month
   * (days 1 to 31), and the analysis month from day 1 to the analysis day.
   */
  lemma PlannedMonthsCoverYear(variable: string, analysis: Date)
    requires Valid(analysis)
    ensures var r := PlannedRequests(variable, analysis);
      && IsCanonical(r[1].year) && ParseDecimal(r[1].year) == analysis.year - 1
      && r[1].months.Multiple? && |r[1].months.items| == 12
      && (forall k :: 0 <= k < 12 ==> IsCanonical(r[1].months.items[k]) && ParseDecimal(r[1].months.items[k]) == k + 1)
      && |r[1].days| == 31
      && (forall k :: 0 <= k < 31 ==> IsCanonical(r[1].days[k]) && ParseDecimal(r[1].days[k]) == k + 1)
      && IsCanonical(r[0].year) && ParseDecimal(r[0].year) == analysis.year && r[0].months.Single?
      && IsCanonical(r[0].months.text) && ParseDecimal(r[0].months.text) == analysis.month && |r[0].days| == analysis.day
      && (forall k :: 0 <= k < analysis.day ==> IsCanonical(r[0].days[k]) && ParseDecimal(r[0].days[k]) == k + 1)
      && (analysis.month != 1 ==>
           && |r| == 3 && IsCanonical(r[2].year) && ParseDecimal(r[2].year) == analysis.year
           && r[2].months.Multiple? && |r[2].months.items| == analysis.month - 1
           && (forall k :: 0 <= k < analysis.month - 1 ==>
                IsCanonical(r[2].months.items[k]) && ParseDecimal(r[2].months.items[k]) == k + 1)
           && |r[2].days| == 31
           && (forall k :: 0 <= k < 31 ==> IsCanonical(r[2].days[k]) && ParseDecimal(r[2].days[k]) == k + 1))
  {
    PlannedDates(variable, analysis);
  }

  /** Each planned request asks for the dates its fragment's helper gives. */
  lemma PlannedDates(variable: string, analysis: Date)
    requires Valid(analysis)
    ensures var r := PlannedRequests(variable, analysis);
      var current, previous := CurrentMonthDates(analysis), PreviousYearDates(analysis);
      && r[0].year == current.year && r[0].months == current.months && r[0].days == current.days
      && r[1].year == previous.year && r[1].months == previous.months && r[1].days == previous.days
      && (|r| == 3 ==>
           var rest := RestOfCurrentYearDates(analysis).value;
           r[2].year == rest.year && r[2].months == rest.months && r[2].days == rest.days)
  {
  }

  /** The download session: the requests sent so far. */
  class Downloader {
    /** In debug mode no request is sent. */
    const debugMode: bool
    var requests: seq<Request>

    constructor (debugMode: bool)
      ensures this.debugMode == debugMode && requests == []
    {
      this.debugMode := debugMode;
      requests := [];
    }

    /** `download_data`: one retrieval for one variable and fragment. */
    method DownloadData(spec: DateSpec, variable: string, outputName: string)
      modifies this
      ensures requests == old(requests) + (if debugMode then [] else [MakeRequest(spec, variable, outputName)])
    {
      if !debugMode {
        requests := requests + [MakeRequest(spec, variable, outputName)];
      }
    }

    /**
     * `run_all_downloads`: the fragments of one variable in their fixed order.
     * Fails, sending nothing, when the analysis date is before 0001-01-01.
     */
    method RunAllDownloads(variable: string, today: Date) returns (ok: bool)
      requires Valid(today)
      modifies this
      ensures ok <==> GetAnalysisDate(today).Some?
      ensures requests == old(requests) + (if ok && !debugMode then PlannedRequests(variable, GetAnalysisDate(today).value) else [])
    {
      var analysis := GetAnalysisDate(today);
      if analysis.None? {
        return false;
      }
      DownloadFragments(variable, analysis.value);
      ok := true;
    }

    /** The three (in January two) `download_data` calls of `run_all_downloads` for a known analysis date. */
    method DownloadFragments(variable: string, analysis: Date)
      requires Valid(analysis)
      modifies this
      ensures requests == old(requests) + (if debugMode then [] else PlannedRequests(variable, analysis))
    {
      var monthDates, previousDates := CurrentMonthDates(analysis), PreviousYearDates(analysis);
      ghost var before := requests;
      DownloadData(monthDates, variable, CurrentMonth);
      DownloadData(previousDates, variable, PreviousYear);
      if AnalysisDateNotInJanuary(analysis) {
        DownloadData(RestOfCurrentYearDates(analysis).value, variable, CurrentYear);
      }
      if !debugMode {
        AppendOneByOne(before, PlannedRequests(variable, analysis));
      }
    }

    /** The download script's main sequence: every variable, in the listed order. */
    method DownloadAllVariables(today: Date) returns (ok: bool)
      requires Valid(today)
      modifies this
      ensures ok <==> GetAnalysisDate(today).Some?
      ensures requests == old(requests) + (if ok && !debugMode then PlannedForAll(DownloadedVariables, GetAnalysisDate(today).value) else [])
    {
      var analysis := GetAnalysisDate(today);
      if analysis.None? {
        ok := RunAllDownloads(DownloadedVariables[0], today);
        return;
      }
      ghost var a := analysis.value;
      assert Valid(a);
      assert PlannedForAll(DownloadedVariables[..0], a) == [];
      var k := 0;
      while k < |DownloadedVariables|
        invariant 0 <= k <= |DownloadedVariables| && Valid(a)
        invariant debugMode ==> requests == old(requests)
        invariant !debugMode ==> requests == old(requests) + PlannedForAll(DownloadedVariables[..k], a)
      {
        ghost var done := requests;
        var _ := RunAllDownloads(DownloadedVariables[k], today);
        assert requests == done + (if debugMode then [] else PlannedRequests(DownloadedVariables[k], a));
        PlannedForAllStep(DownloadedVariables, k, a);
        if !debugMode {
          ghost var previous := PlannedForAll(DownloadedVariables[..k], a);
          ghost var step := PlannedRequests(DownloadedVariables[k], a);
          assert done == old(requests) + previous;
          assert requests == done + step;
          AppendAssociative(old(requests), previous, step);
        }
        k := k + 1;
      }
      ok := true;
      assert DownloadedVariables[..k] == DownloadedVariables;
    }
  }
}
