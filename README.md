# Outbreak briefing report core, in Dafny

This project models the computational core of Global.health's outbreak
briefing-report generator (`obr`/`olm`). A linelist is a table with one row
per case. From it the report builds:

- the count of distinct countries per case status, and per combination of
  statuses;
- epidemic curves (cases per date and group, optionally cumulative);
- the headline counts and the latest date;
- a per-district time series of daily and cumulative confirmed and probable
  cases, ending with a "Total" block;
- the delays, in days, between an onset date and a later event date;
- the age-bin table, its parser and its bin names;
- the registry of configured outbreaks, with their schema URLs and data
  sources.

Files, all directly in this directory:

- `wrappers.dfy`: `Option` and `Result`. Python's `None` is `Option.None`,
  and each exception the source raises is an `Err` value.
- `text.dfy`: the parts of Python's `str` the core relies on:
  - the `<` order that `sorted` uses, `sorted` itself, and `sorted(set(...))`;
  - `split`, `join` and `startswith`;
  - `int(s)` and `str(n)`.
- `frames.dfy`: a pandas DataFrame as a sequence of rows. A row maps column
  names to cell text, and an absent key is a missing value (NaN). It holds
  the group counts (`groupby(...).size()` read through a pivot), the running
  sum (`cumsum`) and their summation lemmas.
- `age_bins.dfy`: `AGE_BINS`, `get_age_bins` (an imperative loop over the
  table) and `name_bin`, from `src/obr/util.py`.
- `plots.dfy`: from `src/obr/plots.py`:
  - `get_countries_with_status`, an imperative loop filling a dictionary;
  - `get_countries_with_anyof_statuses`;
  - `REGEX_DATE` and `get_delays`;
  - `get_epicurve`;
  - the count and date fields of `get_counts`;
  - `get_timeseries_location_status`, imperative: a loop over locations plus
    the per-location loops that add missing statuses and cumulative columns.
- `outbreaks.dfy`: from `src/olm/outbreaks/__init__.py`: `OUTBREAKS`,
  `get_schema_url`, `read_schema` and `read_outbreak`.

Dates are ISO `YYYY-MM-DD` text, so the order of the text is the order of
the dates. The calendar (`pd.to_datetime`), the HTTP GET, the local file
read and the CSV reader are parameters, or are left as the call the source
makes.

## Model

| member | source | states |
|---|---|---|
| AgeBins.TableIsPartition | src/obr/util.py:25-36 | The bin table has ten non-empty inclusive intervals. Each starts one past the previous one's end, and together they run from 0 to 120. |
| AgeBins.ExactlyOneBin | src/obr/util.py:25-36 | Every age in 0..120 lies in exactly one bin, the one given by a closed formula. No age outside 0..120 lies in any bin. |
| AgeBins.LastBinWithin | src/obr/util.py:48-53 | After k steps the loop's index is the last of the first k bins that contains the age. It is unbound when none does. |
| AgeBins.BinOfCovers | src/obr/util.py:48-54 | After the whole loop an age has a bin exactly when it is in 0..120, and that bin is the unique one holding it. |
| AgeBins.ParseSpan | src/obr/util.py:44-47 | "A-B", with A and B written as `str` writes them, is not the "0" shortcut and parses back to the pair (A, B). |
| AgeBins.GetAgeBins | src/obr/util.py:39-54 | The loop computes the specified range: the "0" shortcut first; a ValueError when `int` or the two-part unpacking fails; an UnboundLocalError when an age lies outside every bin; otherwise the bins from the start age's through the end age's. |
| AgeBins.ZeroShortcutAgrees | src/obr/util.py:42-43 | The "0" shortcut returns what the general path would return for age 0. |
| AgeBins.SingleAge | src/obr/util.py:46-54 | A single age N in 0..120, written as `str(N)`, gives the one-bin range of N's bin. |
| AgeBins.AgeSpan | src/obr/util.py:44-54 | "A-B" with A and B in 0..120 gives the range from A's bin through B's bin. |
| AgeBins.RangeWithinTable | src/obr/util.py:39-54 | For 0 <= A <= B <= 120 the range is non-empty, lies within the table, starts at a bin holding A and ends at a bin holding B. |
| AgeBins.AgeErrors | src/obr/util.py:44-54 | Unparsable input gives exactly ValueError. A parsed age outside 0..120 gives UnboundLocalError, and only such an age does. |
| AgeBins.ExampleAges | src/obr/util.py:39-54 | "50-55" gives range(6, 7), "0" gives range(0, 1) and "65" gives range(7, 8). |
| AgeBins.NameBinValues | src/obr/util.py:57-63 | Bin 0 is named "0", bin 1 "1-9" and bin 9 "80+". A negative index counts from the end, and an index out of range is an IndexError. |
| AgeBins.NameBinInjective | src/obr/util.py:57-63 | The ten bins have pairwise distinct names. |
| AgeBins.NameHead | src/obr/util.py:59-63 | A bin's name starts with the digits of its lower bound, and no further digit follows them. |
| Text.Sort | src/obr/plots.py:69 | `sorted` returns an ordered permutation of its input. |
| Text.SortIgnoresOrder | src/obr/plots.py:69 | `sorted` of two lists holding the same elements, counted with multiplicity, is the same list. |
| Text.SortedSet | src/obr/plots.py:174 | `sorted(set(xs))` is strictly increasing and holds exactly the elements of xs. |
| Text.SplitJoin | src/obr/util.py:45 | Joining the pieces of `s.split(c)` with c gives back s. |
| Text.SplitPieces | src/obr/util.py:44-45 | No piece of `s.split(c)` contains c. There is more than one piece exactly when c occurs in s. |
| Text.ParseNatToString | src/obr/util.py:45-47 | `int(str(n)) == n` for every natural n of at most 4300 digits. |
| Text.ParseIntRefuses | src/obr/util.py:45-47 | `int` rejects digits preceded by U+001C or followed by U+001F, which it does not strip, and a run of more than 4300 digits. |
| Frames.RunningSumPrefix | src/obr/plots.py:146 | Entry i of `cumsum` is the sum of the first i + 1 entries. |
| Frames.RunningSumFacts | src/obr/plots.py:202-203 | A running sum starts at the first entry and adds one entry per step. It never decreases, and it ends at the total. |
| Frames.SumOverDates | src/obr/plots.py:136-140 | Summing a group's per-date counts over distinct dates that cover every dated row gives the group's number of dated rows. |
| Frames.RowCountBounded | src/obr/plots.py:136-140 | No single cell of a group count exceeds the group's number of dated rows. |
| Plots.OnlyCountriesMeaning | src/obr/plots.py:53-56 | A country counts as "only s" exactly when it has a row of status s and every row of it has status s; a missing status spoils it. The "only" count never exceeds the count. |
| Plots.StatusCountriesValues | src/obr/plots.py:48-57 | When no status is another status followed by "_only", each listed s maps `n_countries_s` to the number of distinct countries with status s, and `n_countries_s_only` to the number of those with no other status. |
| Plots.TallyKeys | src/obr/plots.py:48-56 | The dictionary holds exactly the two keys of every listed status. |
| Plots.KeyFacts | src/obr/plots.py:50-53 | The count keys are injective, and so are the "only" keys. A count key equals an "only" key only when s == t + "_only". |
| Plots.GetCountriesWithStatus | src/obr/plots.py:39-57 | The loop's dictionary is the specified one. It has exactly the two keys per status, and under no key clash the values are the country counts above. |
| Plots.AnyOfIgnoresOrder | src/obr/plots.py:60-71 | Reordering the statuses changes neither the key (built from the sorted statuses) nor the count. |
| Plots.AnyOfIsUnion | src/obr/plots.py:68-70 | The countries counted are those having some row of some listed status. |
| Plots.AnyOfSingle | src/obr/plots.py:60-71 | For a single status the result is the count entry that `get_countries_with_status` writes for it. |
| Plots.ReportDateExamples | src/obr/plots.py:34 | The date filter accepts "2023-06-01" and also "2023-,1-05". It rejects a 2019 date, unpadded fields, a time suffix, day 41, month 26 and the empty string. |
| Plots.DelayRows | src/obr/plots.py:99-104 | A row is kept exactly when both date cells are present and both fully match the date pattern. |
| Plots.Delays | src/obr/plots.py:105-111 | The call fails exactly when some kept cell names no day. Otherwise each kept row gives its target day minus its onset day, in row order. |
| Plots.DelayRowsAppend | src/obr/plots.py:99-104 | Filtering a concatenation of linelists filters each part in turn, so the kept rows keep their order. |
| Plots.DelayRowsAt | src/obr/plots.py:99-104 | A row is kept once, at its own place, exactly when its two dates are present and date-shaped. |
| Plots.DelaysAppend | src/obr/plots.py:105-111 | The delays of two lists of kept rows are the two results side by side; a failure in either fails the whole. |
| Plots.GetDelaysAppend | src/obr/plots.py:96-111 | `get_delays` of a concatenation is the two results side by side, in order; a failure in either fails the whole. |
| Plots.GetDelaysSingle | src/obr/plots.py:96-111 | An empty linelist gives no delay. A row without two usable dates gives none, a row whose cell the calendar cannot read fails, and any other row gives its target day minus its onset day. |
| Plots.GetDelaysMeaning | src/obr/plots.py:96-111 | `get_delays` fails exactly when a row of the linelist with both dates present and date-shaped holds a cell the calendar cannot read. Otherwise it gives one delay per such row. |
| Plots.DelaysNonNegative | src/obr/plots.py:96-111 | With a calendar that orders days as their ISO text does, no delay is negative when no kept row's target date precedes its onset date. |
| Plots.CurveValues | src/obr/plots.py:136 | With `values=None`, a group value is used exactly when some row holds it. |
| Plots.CurveRows | src/obr/plots.py:138 | The rows kept are exactly those with a date and a group value among the values used. |
| Plots.CurveRowsCounts | src/obr/plots.py:138-140 | Dropping rows without a date or of other groups changes no count of a kept group. |
| Plots.EpicurveShape | src/obr/plots.py:137-144 | The index is the strictly increasing distinct dates of the kept rows. The columns are the strictly increasing kept groups that have a dated row. There is one full column of counts per group. |
| Plots.EpicurveDaily | src/obr/plots.py:137-144 | Without `cumulative`, each cell is the number of rows of the whole linelist with that date and that group. |
| Plots.CurveColumnTotal | src/obr/plots.py:137-144 | A column's daily counts sum to the group's number of dated rows. |
| Plots.EpicurveCumulative | src/obr/plots.py:145 | With `cumulative`, each column is the running sum of the daily column, on the same index and columns. It never decreases, and its last entry is the group's number of dated rows. |
| Plots.CumulativeColumn | src/obr/plots.py:137-145 | A cumulative column is the running sum of the daily one over a non-empty index. It never decreases and ends at the group's number of dated rows. |
| Plots.Latest | src/obr/plots.py:156 | The maximum of the present dates is one of them and is at least every one of them. It is None exactly when there is none. |
| Plots.ValueCountsRows | src/obr/plots.py:150 | `value_counts` gives each value its number of rows, and 0 exactly when no row holds it. |
| Plots.GetCountsStatuses | src/obr/plots.py:149-155 | `get_counts` fails exactly when no row is confirmed. Otherwise the confirmed, probable and suspected fields are their row counts, 0 for an absent status. |
| Plots.GetCountsDate | src/obr/plots.py:156 | The date field is the latest date present in the column, or "NaT" when no row has one. |
| Plots.Cases | src/obr/plots.py:169-173 | A row is kept exactly when it is confirmed or probable and has an onset date and a district. |
| Plots.AtDistrict | src/obr/plots.py:189 | A location's rows are exactly the cases of that district. |
| Plots.WithCumulativeKeepsDaily | src/obr/plots.py:202-203 | Adding cumulative columns never replaces a daily column. |
| Plots.AbsentStatusZeros | src/obr/plots.py:199-200 | A status missing from the pivot has the all-zero column that the source adds for it. |
| Plots.AddCumulativeColumns | src/obr/plots.py:202-203 | The loop adds, for each status, `cumulative_s` as the running sum of `daily_s`. |
| Plots.AddMissingStatuses | src/obr/plots.py:199-200 | After the loop every listed status has a column. Every column is that status's daily count column, absent statuses being zero. |
| Plots.RenamedColumns | src/obr/plots.py:199-201 | Once the missing statuses are added, the block's columns are exactly the two statuses. Renaming them gives the two daily count columns. |
| Plots.DailyCounts | src/obr/plots.py:180-201 | Pivoting, filling the missing statuses and renaming give each status's daily count column over the block's dates. |
| Plots.BlockStatuses | src/obr/plots.py:168-173 | Every status in a block is confirmed or probable. |
| Plots.TimeseriesForLocation | src/obr/plots.py:177-205 | The block built step by step is the specified one: the sorted onset dates, the daily and cumulative columns of both statuses, and the label. |
| Plots.ConcatBlocks | src/obr/plots.py:206 | The loop appends each location's block rows in order, giving the specified concatenation. |
| Plots.GetTimeseriesLocationStatus | src/obr/plots.py:164-210 | Concatenating the blocks of the locations in order gives the specified time series. |
| Plots.CumulativeColumns | src/obr/plots.py:199-204 | The cumulative loop over both statuses adds to the two daily columns exactly their running sums, leaving the block with the four named columns. |
| Plots.BlockCountsAgree | src/obr/plots.py:169-196 | Counting on a block's rows agrees with counting the linelist's cases of that location, per onset date and in total. |
| Plots.BlockRow | src/obr/plots.py:199-205 | Row i of a block holds the date, both daily counts, their running sums and the label. |
| Plots.BlockRowsCounts | src/obr/plots.py:177-205 | Each row of a block holds the number of the linelist's cases of that location, onset date and status, and the location's label. Dates increase strictly down the block. |
| Plots.BlockRowsRunning | src/obr/plots.py:202-203 | The first cumulative counts are the first day's counts. Each later one is the previous row's plus the day's count. |
| Plots.BlockTotal | src/obr/plots.py:177-203 | A status's daily counts in a block sum to the location's number of cases of that status. |
| Plots.BlockRowsTotals | src/obr/plots.py:177-205 | A block's last cumulative counts are the location's numbers of confirmed and probable cases. |
| Plots.BlockRowsZero | src/obr/plots.py:199-203 | A status the location has no case of reads 0 all the way down its block, daily and cumulative. |
| Plots.TimeseriesLayout | src/obr/plots.py:174-207 | The locations are the districts in strictly increasing order followed by None. The series is their blocks in that order, then the Total block over every case. |
| Plots.LocationsCover | src/obr/plots.py:174 | A district has a block exactly when some case of the linelist lies in it. |
| Outbreaks.RegistryFacts | src/olm/outbreaks/__init__.py:137-152 | The registry holds "marburg" and "mpox-2024" under distinct ids. Each has an HTTP schema URL in the shared schema repository, only Mpox 2024 has a data URL, and each plot list starts with the `get_counts` data step. |
| Outbreaks.GetSchemaUrl | src/olm/outbreaks/__init__.py:155-156 | An unregistered outbreak is a KeyError, and only an unregistered one is. |
| Outbreaks.SchemaUrlEverywhere | src/olm/outbreaks/__init__.py:137-156 | Every registered outbreak has a schema URL, and it starts with "http". |
| Outbreaks.ReadSchema | src/olm/outbreaks/__init__.py:159-165 | Text starting with "http" is fetched, giving the decoded body on status 200 and nothing otherwise. Any other text, and any path, is read from the local file system. |
| Outbreaks.RegisteredSchemaIsFetched | src/olm/outbreaks/__init__.py:155-165 | A registered outbreak's schema is fetched and never read locally. It is present exactly when the GET answers 200. |
| Outbreaks.ReadOutbreak | src/olm/outbreaks/__init__.py:168-180 | A successful read passes `convert_dates` through and uses the outbreak's additional date columns, which default to none. |
| Outbreaks.ReadOutbreakOutcome | src/olm/outbreaks/__init__.py:168-180 | A CSV is read exactly when the outbreak is registered and either a non-empty `data_url` is given (and is read) or a url is configured (and is read otherwise). Otherwise: AssertionError when unregistered; ValueError for no `data_url` and no url; KeyError for an empty `data_url` and no url. |
| Outbreaks.ReadOutbreakConfigured | src/olm/outbreaks/__init__.py:137-180 | Marburg needs a data URL (ValueError without one, KeyError with an empty one) and reads it with "Data_up_to" as an extra date column. Mpox 2024 reads its own S3 URL. An unknown outbreak fails the assertion. |

## Left out

- Out of scope:
  - report building, S3 upload, cache invalidation and templating (`build`, `store_s3`, `invalidate_cache`, `render`);
  - the command-line entry points, `lint.py`, and the data sources (`source_databutton`, Google Sheets);
  - every plotly figure function.
- Floating point, so not modelled: `get_age_bin_data` and `percentage_occurrence`. For that reason the `pc_valid_age_gender` field of `get_counts` is absent from `Plots.Counts`.
- `mpox_2024_aggregate` relies on `get_aggregate`, which is not part of this model. Its registry entry is only named.
- The `">N"` age strings pinned by `tests/test_util.py` belong to `olm.util`, a different `get_age_bins`, and are not part of this model.
- `fill_index` of `get_timeseries_location_status` (reindexing over a calendar date range) is not modelled; the model covers its default, `False`. The `min`/`max` dates it computes feed only that reindex.
- Not modelled as such: the `astype(int)` casts and the final `fillna(0)`, which change no value here because every block has all four columns. `Plots.At` reads a missing cell as 0.
- Row and column order in pandas output: the concatenated frame is a list of rows with named fields.
- The KeyError for a column missing from the whole frame is not modelled: an absent key is read as a missing cell.
- Calendar parsing (`pd.to_datetime`) is a parameter `toDay` of `Plots.GetDelays`, so which texts name real days is left to it. `Plots.GetDelays` returns whole days, as `.dt.days` reads them.
- Plots.GetCountsDate: the source takes `.date()` of the maximum datetime. The model takes the maximum of the date text and treats the cells as plain `YYYY-MM-DD` dates.
- NaN identity: pandas' `unique()` and Python's `set` treat missing values in their own way (one NaN for `unique`, possibly several for `set`). The model folds every missing country into the single value `None`.
- `int(s)` and `\d` also accept non-ASCII Unicode digits; the model accepts ASCII digits only.
- `assert outbreak in OUTBREAKS` is taken to be active (no `python -O`).
- Errors raised inside the HTTP GET, the file read, JSON decoding and `read_csv` are not modelled. Those operations are parameters (`Outbreaks.ReadSchema`) or are returned as the call to make (`Outbreaks.ReadOutbreak` returns a `CsvCall`).
- The keyword arguments in the plot lists (titles, columns, delay limits) are not modelled; `Outbreaks.Step` keeps each entry's output kind and function name.
- Plots.CurveValues: with `values=None`, `get_epicurve` calls `non_null_unique`, which `src/obr/util.py` does not define; it is not part of this model and is taken to be the distinct non-missing values of the group column, as its name says.
- Text.ParseInt: the digit limit modelled is Python's default of 4300 (`sys.int_info.default_max_str_digits`); a limit changed through `PYTHONINTMAXSTRDIGITS` or `sys.set_int_max_str_digits` is not modelled.
- Text.NatToString: `str(n)` raises ValueError beyond 4300 digits; the model writes every n. Its uses are bin bounds of at most 120.
- `types.py` (`OutbreakInfo` as a TypedDict) is mirrored by the `Outbreaks.OutbreakInfo` datatype, with optional keys as `Option`.
