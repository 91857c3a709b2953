# nws-drought: a verified model of the drought-index pipeline

The nws-drought scripts download a year of hourly ERA5 reanalysis data for
Alaska and turn it into drought indices. The download script plans one
request per time fragment and variable: the current month, the whole previous
year and, outside January, the rest of the current year. The processing script
then:

- reassembles each variable into one daily series;
- takes the last 365 days;
- for the trailing intervals of 30, 60, 90, 180 and 365 days, computes:
  - total precipitation and its percent of normal;
  - snow water equivalent and its percent of normal;
  - SPI and SPEI;
- stacks every index along an `interval` dimension.

The model covers three parts.

- **`Download`** (`download.dfy`, with `Calendar` and `Decimal`) covers request planning:
  - the analysis date is today minus the 8-day lag, computed with Python's proleptic Gregorian date arithmetic;
  - the January predicate;
  - the unpadded year, month and day strings of the three fragments;
  - the 24 zero-padded hour strings;
  - the target file names.

  A `Downloader` object sends requests by appending `Request` records to its
  `requests` field. `run_all_downloads` and the script's five calls, one per
  variable, are methods proved against the planned request sequence.
- **`Assembly`** (`assembly.dfy`) covers `assemble_dataset` at one grid cell.
  Every step is the same at every cell.
  - **Collapse.** The current year's final (expver 1) and provisional (expver 5) tracks are collapsed. This fails unless exactly one is present at every hour.
  - **Merge.** The hourly fragments are merged on their time axis. This fails when they disagree at an hour.
  - **Resample.** The merged series is reduced to calendar days, summed for `tp`/`pev` and averaged for `sd`/`swvl1`/`swvl2`.
  - **Combine.** `combine_by_coords` puts `tp`, `sd` and `pev` into one dataset over a shared day axis.
- **`Indices`** (`indices.dfy`, with `Climatology`, `Series` and `FloatArith`) covers the rest of the processing script.
  - **Window.** The last 365 daily entries are selected.
  - **Climatology subset.** The day-of-year subset wraps across the new year.
  - **Per-cell arithmetic.** It uses NaN-skipping sums and means, IEEE division with NaN and infinities, and `numpy.round(x, 1)`, which rounds half to even.
  - **`IndexRun`.** A class holds the `indices` results dictionary. Each `process_*` function is a method that replaces only its own entry, one interval at a time. `process_swe_pon` replaces NaN with 100 in place on an array.
  - **Combination.** The results are stacked in interval order.
- **`Luts`** (`luts.dfy`) holds the two lookup tables. Lemmas connect the file prefixes to the files the download step writes, and the index names to the indices computed.

Quantities are exact reals. A float64 NaN is `None` in a series and `NaN` in a
`Float`. Time is counted in hours since 0001-01-01T00:00. A day is its
proleptic Gregorian ordinal.

Some behaviour of the code is worth stating plainly, since its comments or
its two scripts suggest otherwise:

- **Zero SWE normal.** The comment at scripts/process.py:121-122 expects NaN only over water, where the snow water equivalent is zero, and reads those cells as 100 percent of normal. A positive snow water equivalent over a zero normal gives +infinity instead, and the code keeps it (scripts/process.py:120-123, `Indices.PercentOfNormalSwe`).
- **Rounding.** Only `pntp` is rounded to one decimal (scripts/process.py:88). `tp`, `swe` and `pnswe` are not.
- **Intervals.** They are 30, 60, 90, 180 and 365 days (scripts/process.py:175). The soil-moisture deficit is a to-do comment (scripts/process.py:199) and is not computed.
- **January.** `assemble_dataset` always opens the current-year file (scripts/process.py:18), while in January the download script writes no such file (scripts/download.py:156-157). Processing has no January branch.

## Model

| member | source | states |
|---|---|---|
| `Calendar.DayOfYear` | scripts/process.py:85-86 | the day of the year of a valid date is between 1 and the length of its year |
| `Calendar.DaysBeforeYearStep` | scripts/download.py:40 | the closed-form count of days before year y + 1 is the count before year y plus the length of year y (365, or 366 in a leap year) |
| `Calendar.NextDay` | scripts/download.py:40 | the next calendar day is valid, has the next ordinal, and its day of year restarts at 1 only after December 31 |
| `Calendar.FromOrdinal` | scripts/process.py:85 | the date of a day ordinal (from 1) is a valid date |
| `Calendar.FromOrdinalOrdinal` | scripts/process.py:85-86 | the date of ordinal n has ordinal n |
| `Calendar.OrdinalInjective` | scripts/download.py:40 | two valid dates with the same ordinal are equal |
| `Calendar.FromOrdinalRoundTrip` | scripts/download.py:40 | `fromordinal(toordinal(d)) == d` for every valid date |
| `Calendar.SubtractDays` | scripts/download.py:40 | `d - timedelta(days=n)` exists exactly when its ordinal is at least 1, and it is then the valid date n ordinals earlier |
| `Calendar.SubtractZeroDays` | scripts/download.py:40 | subtracting zero days gives the same date |
| `Calendar.SubtractOneDayIsPrevious` | scripts/download.py:40 | subtracting one day gives the date whose next day is the original |
| `Decimal.DecimalString` | scripts/download.py:66-68 | `str(n)` is a canonical digit string (no leading zero) that reads back as n, one character below 10 and two below 100 |
| `Download.GetAnalysisDate` | scripts/download.py:34-42 | the analysis date is today minus `DATA_LAG_TIME_DAYS` = 8 days, or absent exactly when that falls before 0001-01-01 |
| `Download.NumberStrings` | scripts/download.py:68 | `[str(x) for x in range(lo, hi)]` has hi - lo entries, and entry k is the canonical string of lo + k |
| `Download.CurrentMonthDates` | scripts/download.py:57-72 | the year and month are the analysis year and month as unpadded strings; the days are "1" through the analysis day, exactly that many |
| `Download.RestOfCurrentYearDates` | scripts/download.py:75-91 | absent exactly in January (the log message indexes an empty month list); otherwise the analysis year, months "1" through the month before the analysis month, days "1" through "31" |
| `Download.AnalysisDateNotInJanuary` | scripts/download.py:45-54 | true exactly when the analysis date falls after the 31st day of its year, that is, outside January |
| `Download.PreviousYearDates` | scripts/download.py:94-109 | the year before the analysis year, months "1" through "12", days "1" through "31" |
| `Download.HourString` | scripts/download.py:136 | hour x is written as five characters: two digits reading x, followed by ":00" |
| `Download.HourStrings` | scripts/download.py:135-138 | the request time list has 24 entries, and entry x is two digits reading hour x followed by ":00" |
| `Download.OutputFileName` | scripts/download.py:122 | the target file is the variable, an underscore, the fragment name and ".nc", in that order and nothing else |
| `Download.FragmentFilesDistinct` | scripts/download.py:153-157 | the current_month, previous_year and current_year files of one variable are three different files, so no fragment overwrites another |
| `Download.MakeRequest` | scripts/download.py:122-142 | the retrieve call asks for the given variable, year, months and days, all 24 hours, and writes to the fragment's own file name |
| `Download.PlannedRequests` | scripts/download.py:147-157 | a variable's requests write current_month, then previous_year, then current_year only outside January, each to `"{variable}_{output_name}.nc"`, for that variable and all 24 hours |
| `Download.PlannedMonthsCoverYear` | scripts/download.py:153-157 | the previous-year request asks for the year before, months 1 to 12 and days 1 to 31; the current-month request for the analysis year and month, days 1 to the analysis day; outside January the current-year request for the analysis year, months 1 to the month before and days 1 to 31; every year, month and day is a canonical decimal string |
| `Download.PlannedDates` | scripts/download.py:153-157 | the current_month, previous_year and current_year requests ask for exactly the dates of `get_current_month_dates`, `get_all_previous_year_dates` and `get_rest_of_current_year_dates` |
| `Download.Downloader.DownloadData` | scripts/download.py:112-144 | one request is appended, carrying the dataset, product type, format, variable, dates, hours, area and target file; nothing is appended in debug mode |
| `Download.Downloader.DownloadFragments` | scripts/download.py:153-157 | the requests appended are exactly the planned requests of the variable, in order |
| `Download.Downloader.RunAllDownloads` | scripts/download.py:147-157 | it succeeds exactly when the analysis date exists, and then appends the variable's planned requests |
| `Download.Downloader.DownloadAllVariables` | scripts/download.py:171-175 | the five variables' planned requests are appended one variable after another, in the script's order |
| `Luts.VarnamePrefixEntries` | luts.py:3-9 | the prefix table has exactly the keys tp, sd, swvl1, swvl2, pev, with their ERA5 long names |
| `Luts.VarnamePrefixInjective` | luts.py:3-9 | no two short names share a long name |
| `Luts.IndexNamesKeys` | luts.py:11-16 | the index name table has exactly the keys tp, pntp, swe, pnswe, and no spi or spei |
| `FloatArith.Div` | scripts/process.py:88 | numpy division: NaN exactly for a NaN operand, inf/inf or 0/0; infinite exactly for inf over a finite value or a nonzero value over zero; otherwise the exact quotient |
| `FloatArith.Scale` | scripts/process.py:73 | multiplying by a positive constant keeps NaN and infinities and scales finite values |
| `FloatArith.RoundHalfEven` | scripts/process.py:88 | the rounded integer is within one half of the value, and even on a tie |
| `FloatArith.RoundHalfEvenIsNearest` | scripts/process.py:88 | no integer is nearer to the value than the rounded one |
| `FloatArith.RoundHalfEvenOfInteger` | scripts/process.py:88 | an integer rounds to itself |
| `FloatArith.Round1` | scripts/process.py:88 | rounding to one decimal moves a value by at most 0.05 and lands on a multiple of 0.1 |
| `FloatArith.Round1Idempotent` | scripts/process.py:88 | rounding a rounded value to one decimal changes nothing |
| `FloatArith.RoundFloat1` | scripts/process.py:88 | `np.round(a, 1)` keeps NaN and infinities, and turns a finite value into its one-decimal half-even rounding `Round1`, at most 0.05 away |
| `Series.MeanSkipNaN` | scripts/process.py:100 | the NaN-skipping mean is never infinite, is NaN exactly when every sample is NaN, and otherwise times the number of samples present equals their sum |
| `Series.MeanSkipNaNBounds` | scripts/process.py:100 | the NaN-skipping mean lies within any bounds of the samples |
| `Series.SumSkipNaNAppend` | scripts/process.py:73 | the NaN-skipping sum of a concatenation is the sum of the parts' sums |
| `Assembly.CollapseTracks` | scripts/process.py:23-35 | it fails exactly when some hour has both or neither experiment version; otherwise every hour keeps its time and takes the value of the version present, leaving no missing value |
| `Assembly.CollapseSplit` | scripts/process.py:31-34 | however a series is distributed over the two versions, collapsing gives it back |
| `Assembly.SplitCollapse` | scripts/process.py:31-34 | a current year that collapses is its collapse redistributed by its own provisional mask |
| `Assembly.MergeByTime` | scripts/process.py:38-42 | merging fails exactly when some hour carries two different values; otherwise the result is sorted by time and holds exactly the samples of both fragments |
| `Assembly.MergeCommutative` | scripts/process.py:38-42 | merging in either order gives the same series or the same error |
| `Assembly.ConflictUnion` | scripts/process.py:38-42 | a merge of two fragments conflicts with a third exactly when one of the two does |
| `Assembly.Aggregate` | scripts/process.py:44-49 | a day's sum is the total of its values; its mean exists exactly when it has a value, and times the number of values equals their total |
| `Assembly.Resample` | scripts/process.py:43-49 | one value per calendar day, from the first sample's day to the last's with no day skipped; each is the reduction of exactly that day's samples |
| `Assembly.DailyTotalConserved` | scripts/process.py:44-46 | the daily sums add up to the hourly total |
| `Assembly.DailyMeanBounded` | scripts/process.py:47-49 | every daily mean lies within the bounds of the hourly values |
| `Assembly.AggregationFor` | scripts/process.py:44-49 | a variable gets a daily reduction exactly when it has a file prefix, and the reduction is a sum exactly for tp and pev |
| `Assembly.InputFilesAreDownloaded` | scripts/process.py:16-19 | the three files read for a variable have the names of the files the download step writes for its long name, which is one of the downloaded variables |
| `Assembly.AssembleDataset` | scripts/process.py:15-51 | fails with KeyError exactly for an unknown variable, with the expver assertion exactly when some current-year hour is not exclusive, and with a merge conflict exactly when two of the three fragments carry different values at one hour; succeeds exactly when none of these happens, and is then the daily resampling of the merge of the previous year, the collapsed current year and the current month |
| `Assembly.Combine` | scripts/process.py:162-165 | it fails exactly when some grid cell's daily series do not share the common day axis; otherwise it gives a valid dataset over consecutive days with each cell's three series |
| `Climatology.SubsetClimInterval` | scripts/process.py:54-63 | the subset holds at most as many normals as the climatology, and only normals of the climatology |
| `Climatology.SubsetWithinYear` | scripts/process.py:55-56 | when start < end, the subset is exactly the normals of days start through end |
| `Climatology.SubsetAcrossYearEnd` | scripts/process.py:57-61 | when start > end, the subset is the normals of days 1 through end followed by those of days start through the last |
| `Climatology.SubsetSameDay` | scripts/process.py:54-63 | when start equals end, the subset is the whole climatology |
| `Climatology.SubsetAcrossYearEndLength` | scripts/process.py:57-61 | across the new year, a 366-day climatology yields end + 367 - start normals |
| `Climatology.ClimMean` | scripts/process.py:119 | the climatological mean is never infinite, is NaN exactly when no day is selected, and otherwise times the count equals the selected sum |
| `Climatology.ClimSumAcrossYearEnd` | scripts/process.py:87 | across the new year, the normal total is the year-end part plus the year-start part |
| `Climatology.ClimSumNonNegative` | scripts/process.py:87 | non-negative normals give a non-negative total |
| `Indices.IntervalLength` | scripts/process.py:175 | each interval is between 1 and 365 days |
| `Indices.IntervalsIncreasing` | scripts/process.py:175 | the intervals are strictly increasing and the last is the whole 365-day window |
| `Indices.SliceFrom` | scripts/process.py:174 | selecting from a position keeps a valid dataset whose days are exactly the days from there on, and whose every cell holds exactly its tp, sd and pev from there on |
| `Indices.SelectWindowAsWritten` | scripts/process.py:168-174 | as written: fails on fewer than 365 entries (`ds.time[-365]`), fails the assertion exactly when the 365th-last and the last time coincide, and otherwise selects the last 365 entries of every series |
| `Indices.SelectWindowAsWrittenNeverChecks` | scripts/process.py:168-171 | on a sorted axis the window check as written never fails once 365 entries exist |
| `Indices.GappedWindowAccepted` | scripts/process.py:168-174 | the check as written accepts a 365-entry window spanning 999 days, which the intended check rejects |
| `Indices.SelectWindow` | scripts/process.py:168-174 | the intended check: fails exactly when there are fewer than 365 days, or when the last 365 do not span 364 days; otherwise the window is the last 365 entries of the day axis and of every cell's series, ending on the last day |
| `Indices.SelectedWindowConsecutive` | scripts/process.py:170-171 | a selected window is 365 consecutive days |
| `Indices.SelectWindowAgreesOnConsecutiveDays` | scripts/process.py:168-174 | on consecutive days, which is what resampling produces, the intended check and the check as written agree |
| `Indices.CombinedWindowIsYear` | scripts/process.py:162-174 | on a successfully combined dataset the check as written and the intended check give the same result, and a selected window is 365 consecutive days |
| `Indices.LastDays` | scripts/process.py:70-71 | `slice(times[-i], times[-1])` holds exactly the last i entries, in order |
| `Indices.LastDaysByLabel` | scripts/process.py:70-71 | on a strictly increasing axis, the positions whose time lies between times[-i] and times[-1] are exactly the last i positions |
| `Indices.TotalPrecip` | scripts/process.py:69-73 | an interval's total precipitation is never NaN: it is 100 × the sum of the samples present, and 0 when the interval has none |
| `Indices.Swe` | scripts/process.py:97-100 | an interval's snow water equivalent is never infinite, is NaN exactly when the interval has no snow depth sample, and is otherwise 100 × the mean of the samples present |
| `Indices.PercentOfNormalPrecip` | scripts/process.py:84-88 | pntp keeps a NaN total; for a finite total over a nonzero normal it is exactly the one-decimal half-even rounding of 100 × tp / normal, so within 0.05 of it; it is infinite with the sign of tp exactly for precipitation over a zero normal, and NaN exactly for 0 / 0 |
| `Indices.NaNTo` | scripts/process.py:123 | a NaN becomes the fill value, and every other value is kept |
| `Indices.WaterBudget` | scripts/process.py:145 | the water budget has one entry per day; entry k is present exactly when tp and pev both are on day k, and is then tp + pev + 0.001 |
| `Indices.WaterBudgetDayCases` | scripts/process.py:145 | a day's water budget is present exactly when both terms are, and is then tp + pev + 0.001 |
| `Indices.TotalPrecipMonotonic` | scripts/process.py:69-73 | with no negative precipitation, a longer interval never has less total precipitation |
| `Indices.PercentOfNormalSwe` | scripts/process.py:120-123 | pnswe is never NaN; it is 100 for a NaN input, inf / inf or 0 / 0, infinite exactly for snow over a zero normal or an infinite depth over a finite normal, and otherwise exactly 100 × swe / normal |
| `Indices.NaNFilledCases` | scripts/process.py:123 | filling leaves no NaN, sets every NaN to the fill value, changes nothing else, and is idempotent |
| `Indices.KeyedLookup` | scripts/process.py:69-70 | every interval written is a key that looks up its own grid, and there are no other keys |
| `Indices.TotalPrecipEntry` | scripts/process.py:66-75 | the tp entry has a full grid for each of the five intervals |
| `Indices.PrecipPonEntry` | scripts/process.py:78-91 | the pntp entry has a full grid for each of the five intervals |
| `Indices.SweEntry` | scripts/process.py:94-103 | the swe entry has a full grid for each of the five intervals |
| `Indices.SwePonEntry` | scripts/process.py:106-126 | the pnswe entry has a full grid for each of the five intervals |
| `Indices.SpiEntry` | scripts/process.py:129-137 | the spi entry has a full grid for each of the five intervals |
| `Indices.SpeiEntry` | scripts/process.py:140-150 | the spei entry has a full grid for each of the five intervals |
| `Indices.Expected` | scripts/process.py:180-198 | after the six processors run, the dictionary has exactly the six index names, each complete over the five intervals |
| `Indices.ExpectedTotals` | scripts/process.py:66-103 | tp[i] is 100 × the NaN-skipping sum of the last i days; swe[i] is 100 × the mean of the snow depths present in those days, and NaN exactly when none is |
| `Indices.ExpectedPrecipPon` | scripts/process.py:84-88 | pntp[i] at a cell is `PercentOfNormalPrecip`, the one-decimal half-even rounded percentage, of that cell's tp[i] over the sum of its normals for the days of year from times[-i] to times[-1] |
| `Indices.ExpectedSwePon` | scripts/process.py:116-123 | pnswe[i] at a cell is the percentage of swe[i] over the mean of its normals for the same days of year, with NaN read as 100; it is never NaN, and infinite exactly for snow over a zero normal |
| `Indices.ExpectedStandardized` | scripts/process.py:129-150 | spi[i] standardizes the cell's daily precipitation, and spei[i] its water budget |
| `Indices.IndexNamesAreComputed` | luts.py:11-16 | the named indices are among the computed ones, and exactly spi and spei have no long name |
| `Indices.FillNaN` | scripts/process.py:123 | the array afterwards is its old contents with every NaN replaced by the fill value |
| `Indices.FilledCopy` | scripts/process.py:120-123 | copying a grid into a fresh array and filling that array in place gives the grid with every NaN replaced by the fill value |
| `Indices.FilledSwePonEntry` | scripts/process.py:116-123 | the loop over the intervals builds exactly the pnswe entry: under each interval, its ratio grid with NaN filled as 100 |
| `Indices.IndexRun.constructor` | scripts/process.py:174-180 | a run starts on a 365-day window with an empty results dictionary |
| `Indices.IndexRun.ProcessTotalPrecip` | scripts/process.py:66-75 | only the tp entry is replaced, by the totals of every interval |
| `Indices.IndexRun.ProcessTotalPrecipPon` | scripts/process.py:78-91 | it needs the tp entry; only the pntp entry is replaced, computed from the tp entry |
| `Indices.IndexRun.ProcessSwe` | scripts/process.py:94-103 | only the swe entry is replaced, by the means of every interval |
| `Indices.IndexRun.ProcessSwePon` | scripts/process.py:106-126 | it needs the swe entry; only the pnswe entry is replaced, computed from the swe entry with NaN filled as 100 |
| `Indices.IndexRun.ProcessSpi` | scripts/process.py:129-137 | only the spi entry is replaced |
| `Indices.IndexRun.ProcessSpei` | scripts/process.py:140-150 | only the spei entry is replaced, computed from each cell's daily water budget `WaterBudget`, tp + pev + 0.001 |
| `Indices.CombineIndices` | scripts/process.py:204-210 | it fails exactly when some index lacks an interval; otherwise every index becomes its five grids stacked in interval order |
| `Indices.ComputeIndices` | scripts/process.py:168-210 | the window check as written stops the run with its error; otherwise the result holds exactly the six indices, stacked from the expected dictionary of the selected window |

## Left out

- I/O is not modelled: `xr.open_dataset`, `to_netcdf`, the archive client's retrieval, the download directory wipe, configuration lookups from the environment and the credentials assertion. Requests are records, and file contents are parameters.
- Logging and the run timer are not modelled. They have no effect on the results.
- The longitude remapping of the climatologies (scripts/process.py:83, 111-112) is not modelled. It is coordinate bookkeeping, and climatologies are given per grid cell.
- Climatology labels are assumed to be 1, 2, ... for both normals files. For the snow file the code relabels them so (scripts/process.py:114); the precipitation file is assumed to be already labelled by day of year.
- SPI and SPEI values are opaque `Standardizer` parameters. `ic.spi` is not defined in indices.py, and the gamma/normal distribution calls are not visible to the model.
- IEEE float64 rounding is not modelled: values are exact reals and zero has one sign. Only the NaN and infinity behaviour of division is modelled. `RoundFloat1` is exact half-to-even rounding of the real value.
- Every helper in download.py calls `get_analysis_date` (and so `today()`) again; the model computes one analysis date per variable. A run that crosses midnight is not modelled.
- `xr.merge` of three fragments is modelled as two pairwise merges.
- Missing values inside the previous-year and current-month fragments and inside the climatologies are not modelled.
- Assembly.AssembleDataset: requires the fragments' time axes to be strictly increasing, as the archive writes them. It always reads a current-year fragment, as the code does, so the missing January file is not modelled.
- Assembly.Combine: requires at least one grid cell and a first day on or after 0001-01-01. Differently ranged daily series, which `combine_by_coords` would outer-join with NaN, are a `MisalignedAxes` failure.
- Assembly.Resample: an empty hourly series gives an empty daily series starting at day 1. A calendar day inside the series' range with no hourly sample is given a sum of 0 and no mean, a choice the model makes for xarray's empty-bin reduction, which is not part of this model; the archive's hourly fragments have no missing hour, so such days do not arise.
- Assembly.InputFilesAreDownloaded: proves only that the file names agree. Processing reads from `DOWNLOAD_DIR/inputs` (scripts/process.py:161) while downloads are written to `DOWNLOAD_DIR` itself (scripts/download.py:122); directories are not modelled, and moving the files between the two is outside both scripts.
- Calendar.Valid: imposes no upper bound on the year, whereas Python dates end at year 9999. The analysis date is eight days before today, so that bound is never reached.
- Indices.ComputeIndices: requires one climatology series per grid cell. It starts from the combined daily dataset, so writing that dataset to disk (scripts/process.py:166) is not modelled.
- Download.Downloader.DownloadAllVariables: is a loop over the five variables, whereas the script makes five separate calls (scripts/download.py:171-175). The requests are the same.
- The offline calibration, climatology and helper scripts are not part of this model (process_calibration_params.py, download_calibration_data.py, scripts/snap/).

## Findings

| source | as written | input that shows it | evidently intended | confidence | as-written member | corrected member |
|---|---|---|---|---|---|---|
| scripts/process.py:168-171 | `assert (end_time - start_time) / 86400E9` fails only when the 365th-last and the last time coincide | a daily axis whose last 365 entries are days 1 to 364 and then day 1000: the window spans 999 days and is accepted | the last 365 entries are 365 consecutive days, a span of 364 days | low: resampling always yields consecutive days, so on the real pipeline both checks agree (`Indices.SelectWindowAgreesOnConsecutiveDays`, `Indices.CombinedWindowIsYear`); not executed | `Indices.GappedWindowAccepted` | `Indices.SelectWindow` |
