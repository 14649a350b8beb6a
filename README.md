# copernicus-ssh, modelled in Dafny

The program averages daily gridded sea-level-anomaly (SLA) files into periods.
Each period is centred on a configured date. Its window is the centre date and
three days on each side. For every grid cell, `main` sums the scaled raw values
that are not the fill value. It counts them too, then writes mean and count
per period. Each period's offset in days from 1993-01-01 is written as its
timestamp. Two helpers sit beside it: `tidylon`, which maps longitudes from
[0, 360] to (-180, 180], and `find_basin`, which looks up the basin id of the
nearest centre of a 1-degree basin grid. A string conversion reads netCDF
string attributes. A Python proofreader recomputes one cell of one period
from the daily files. It reports the cell when the stored mean or count
disagree.

The Dafny modules follow that structure:

- `Longitude`: `tidylon`.
- `Attribute`: `Wrapper::try_from` over the netCDF attribute union.
- `Basin`: `find_basin`. It covers bracketing centres, the four corners in
  clockwise order, the strict running minimum, `as usize` and `as i32`, and
  the lookup in a 2-D basin array.
- `Decimal`, `Calendar`, `Rfc3339`: digit strings, the proleptic Gregorian
  calendar as day numbers, and chrono's RFC 3339 reader (section 5.6 of
  RFC 3339) for the UTC `...Z` form.
- `TimeIndex`: `timewindow` and the `timesteps` loop.
- `Aggregate`: the load and finalise loops of `main`, over `array3` sums and
  counts. A daily file is a function from its date token and a cell to the
  raw value.
- `Proofread`: the Python `timewindow`, built on a model of
  `strptime("%Y-%m-%dT%H:%M:%SZ")`; the per-cell reference loop; and the
  comparison.

## Model

| member | source | states |
|---|---|---|
| Longitude.TidyLon | src/main.rs:11-19 | the result is the input or the input minus 360; inputs in [0, 360] land in (-180, 180]; inputs in (-180, 180] are unchanged |
| Longitude.TidyLonIdempotent | src/main.rs:11-19 | applying `tidylon` twice equals applying it once, for every input up to 540 |
| Longitude.TidyLonExamples | src/main.rs:11-19 | 200 maps to -160; 180, 0 stay; 360 maps to 0 |
| Attribute.TryFrom | src/main.rs:38-45 | `Ok` exactly for the `Str` variant, carrying its string; every other variant gives `Err("nope")` |
| Attribute.TryFromInto | src/main.rs:38-45 | converting the `Str` attribute of a string yields that string |
| Attribute.IntoTryFrom | src/main.rs:38-45 | a successful conversion came from the `Str` attribute of its string |
| Basin.Below | src/main.rs:51-53 | `floor(c - 0.5) + 0.5` is a half-integer centre at or below `c`, less than one degree below |
| Basin.Above | src/main.rs:50-52 | `ceil(c - 0.5) + 0.5` is a half-integer centre at or above `c`, less than one degree above |
| Basin.BracketWidth | src/main.rs:50-53 | the plus and minus centres coincide when `c` is a centre and are 1 apart otherwise |
| Basin.NoCentreBetween | src/main.rs:50-53 | no centre lies strictly between the minus and plus centres |
| Basin.AsUsize | src/main.rs:55-58 | `as usize` lies in 0..`usize::MAX`, truncates toward zero in range, gives 0 below 1 (negatives included) and `usize::MAX` from `usize::MAX` up |
| Basin.IndexOfCentre | src/main.rs:55-58 | the centre `k` degrees past the origin (-179.5 lon, -77.5 lat) gets index `k` |
| Basin.SouthOfGridReadsFirstRow | src/main.rs:57-58 | a latitude south of -77.5 saturates to row 0 instead of failing |
| Basin.ToI32 | src/main.rs:85 | `as i32` keeps the value modulo 2^32 in the signed range and is the identity on that range |
| Basin.Corners | src/main.rs:60-66 | four corners, bottom-left first, then clockwise: corners 0 and 3 share the lower latitude and 1 and 2 the upper, corners 0 and 1 the western longitude and 2 and 3 the eastern, and together they enclose the query point |
| Basin.FirstMinIndex | src/main.rs:75-82 | the chosen position holds a smallest distance and every earlier distance is strictly larger |
| Basin.FirstMinUnique | src/main.rs:75-82 | those two properties single out one position |
| Basin.ClosestCorner | src/main.rs:75-82 | the running minimum with strict `<` ends on the first smallest distance |
| Basin.NearestAmongCorners | src/main.rs:68-82 | the chosen corner is at least as near as each of the four corners |
| Basin.NearestOverAllCentres | src/main.rs:49-82 | the chosen corner is at least as near as every centre of the whole basin grid |
| Basin.QueryAtCentre | src/main.rs:49-82 | a query exactly on a centre picks that centre at distance 0 |
| Basin.LongitudeTieGoesWest | src/main.rs:60-82 | on a whole-degree longitude (equal west/east distance) the west centre wins |
| Basin.LatitudeTieFollowsClockwiseOrder | src/main.rs:60-82 | on a whole-degree latitude the south centre wins unless the east column is strictly nearer, then the north one |
| Basin.Lookup | src/main.rs:84-87 | the basin read succeeds exactly for an index inside the grid; otherwise the error carries the index pair |
| Basin.FindBasin | src/main.rs:49-88 | `find_basin` returns the lookup of the index of the nearest corner |
| Basin.InsideGridIsFound | src/main.rs:84-87 | a query inside the span of the grid's centres never reaches the panic |
| Decimal.FixedRoundTrip | src/main.rs:98 | `{:02}` text of a value below 100 reads back as that value |
| Decimal.SignedRoundTrip | src/main.rs:98 | the `{}` text of a year reads back as that year |
| Calendar.YearLength | src/main.rs:97 | consecutive years are 365 days apart, 366 after a leap year |
| Calendar.NextDayNumber | src/main.rs:97 | the next calendar day has the next day number |
| Calendar.PrevDayNumber | src/main.rs:97 | the previous calendar day has the previous day number |
| Calendar.AddDaysNumber | src/main.rs:97 | adding `Duration::days(n)` moves the day number by exactly `n` |
| Calendar.AddDays | src/main.rs:97 | `rfc3339 + Duration::days(n)` on the date: `n` steps of `NextDay` forward, or `-n` of `PrevDay` back; the result is a valid date |
| Calendar.AddDaysSucc | src/main.rs:97 | shifting by `n + 1` days is the day after shifting by `n` |
| Calendar.FormatCompact | src/main.rs:98 | `format!("{}{:02}{:02}", year, month, day)`: the signed year, then month and day in two digits each, so the token ends in four digits |
| Calendar.CompactRoundTrip | src/main.rs:98 | the `yyyymmdd` token of a date reads back as that date |
| Calendar.CompactInjective | src/main.rs:98 | distinct dates have distinct tokens |
| Rfc3339.Parse | src/main.rs:94 | every accepted string denotes a valid date-time (second below 60, nanoseconds below 10^9) |
| Rfc3339.FractionNanos | src/main.rs:94 | nanoseconds below one second: up to nine digits are scaled by 10^(9 - digits), and longer fractions keep their first nine digits |
| Rfc3339.FormatRoundTrip | src/main.rs:94 | the canonical `YYYY-MM-DDThh:mm:ssZ` text of a whole-second date-time parses back to it |
| Rfc3339.ZeroFraction | src/main.rs:94 | `...:ss.000Z` (any number of zeros) parses as `...:ssZ` |
| TimeIndex.TimeWindow | src/main.rs:90-103 | returns the window's tokens; `None` (the `unwrap` panic) exactly when the centre does not parse |
| TimeIndex.PushTokens | src/main.rs:95-99 | the push loop yields the compact tokens of the days `c - radius ..= c + radius`, in order |
| TimeIndex.TokensDenoteDays | src/main.rs:96-99 | token `k` of the window names the day `centre + k - radius`; there are `2r+1` tokens, none for `r < 0` |
| TimeIndex.TokensCentre | src/main.rs:96-99 | the centre's own token sits at position `radius` |
| TimeIndex.TokensConsecutive | src/main.rs:96-99 | each token names the day after the previous token |
| TimeIndex.TokensDistinct | src/main.rs:96-99 | no token repeats, so no daily file is read twice for one period |
| TimeIndex.DaysSince | src/main.rs:115 | `signed_duration_since(epoch).num_days()`: the nanosecond span divided by a day, truncated toward zero, so never negative for a later instant and never positive for an earlier one |
| TimeIndex.DaysSinceTruncates | src/main.rs:115 | `num_days` is the whole number of days between the instants, truncated toward zero |
| TimeIndex.DaysSinceSameTime | src/main.rs:115 | at equal times of day the count is the difference of day numbers |
| TimeIndex.ParseEpoch | src/main.rs:111 | the fixed epoch string parses, to 1993-01-01 at midnight |
| TimeIndex.TimeSteps | src/main.rs:111-116 | one offset per date, each the day count from the epoch; `None` exactly when some date does not parse |
| TimeIndex.EpochParses | src/main.rs:112 | the epoch string reads as 1993-01-01T00:00:00Z |
| TimeIndex.Dates93Steps | src/main.rs:108-116 | the configured dates parse and sit 9, 16 and 23 days after the epoch |
| Aggregate.NoValidSamples | src/main.rs:141-147 | a cell has no sample exactly when all its raw values are the fill value, and then sums to 0 |
| Aggregate.SplitSamples | src/main.rs:135-151 | count and total of a concatenation are the sums of the parts; `LoadStep` is its one-file case |
| Aggregate.LoadStep | src/main.rs:140-147 | one raw value: fill is skipped; otherwise the sum restarts from 0 when the count was 0, adds `v * 0.0001`, and the count grows by 1 |
| Aggregate.AddRow | src/main.rs:139-149 | every cell of the row takes one more raw value; every other cell is unchanged |
| Aggregate.AddFile | src/main.rs:136-150 | every cell of slice `t` takes the file's raw value; other periods' slices are unchanged |
| Aggregate.LoadPeriod | src/main.rs:135-151 | starting from sentinel and 0, slice `t` ends at the scaled total and count of its window's files; other slices are untouched |
| Aggregate.Load | src/main.rs:127-154 | fresh arrays; every period's slice holds its window's scaled total and count; `None` when a centre does not parse |
| Aggregate.FinalisedIsMean | src/main.rs:158-167 | finalising a loaded cell gives mean of its valid raw values times 0.0001, or -999.9 when there are none |
| Aggregate.MeanRow | src/main.rs:158-167 | each row entry is sum over count, or the stored sum when the count is 0 |
| Aggregate.NobsRow | src/main.rs:175-180 | each row entry is the cell's count, unchanged |
| Aggregate.PutRow | src/main.rs:169 | `put_values` writes one row and leaves every other row unchanged |
| Aggregate.Finalise | src/main.rs:157-184 | every output cell is its finalised mean, and `nobs` is its count |
| Aggregate.Run | src/main.rs:105-184 | each output cell is the mean of its period's valid raw values, or -999.9; `nobs` is their count, within 0..7; timestamps are the day offsets |
| Aggregate.AsWrittenLoad | src/main.rs:141-147 | the load with the sentinel test: the count is still the number of non-fill values, and a count of 0 leaves -999.9 |
| Aggregate.AsWrittenAgrees | src/main.rs:141-167 | the sentinel test agrees with the count test whenever no running sum of a started cell equals -999.9 |
| Aggregate.AsWrittenFinalised | src/main.rs:162-166 | the finalisation as written: a sum equal to -999.9 is kept, any other sum is divided by its count, which is then positive |
| Aggregate.SentinelCollision | src/main.rs:141-167 | raw values -9999000 then 10 store 0.0005 where the mean is -499.9495 |
| Proofread.PyParse | proofread.py:7 | an accepted centre denotes a valid date-time with a year in 1..9999 and no fraction |
| Proofread.SharedForm | proofread.py:7 | on a fraction-free `...Z` string with a year from 1, `strptime` and chrono's reader agree |
| Proofread.ConfiguredCentresRefused | proofread.py:4-7 | each configured `.000Z` centre, the form the function's comment names, makes the Python `timewindow` raise `ValueError` |
| Proofread.FractionRefused | proofread.py:7 | a centre with a fraction of a second (like the configured `.000Z` dates) raises `ValueError` |
| Proofread.PyTimeWindow | proofread.py:3-12 | the Python window: same tokens as the Rust one, `ValueError` on a bad centre, `OverflowError` when a day leaves years 1..9999 |
| Proofread.PyDayLoop | proofread.py:8-10 | the loop appends the window's tokens in order, or stops with `OverflowError` at a day outside years 1..9999 |
| Proofread.ReferenceCell | proofread.py:23-29 | `total` is 0.0001 times the sum of the non-fill raw values and `nobs` their number |
| Proofread.Check | proofread.py:31-32 | a stored -999.9 is skipped; otherwise `nobs == 0` is a `ZeroDivisionError`; a mean or count differing from the stored one is reported |
| Proofread.OutputPassesCheck | proofread.py:31-32 | the check passes on every cell the aggregation writes from the same raw values |
| Proofread.StoredMeanHasSamples | proofread.py:31 | a stored value other than -999.9 always comes with at least one valid raw value |
| Proofread.SampledCellStoresSentinel | proofread.py:31 | the converse fails: a cell whose one raw value is -9999000 has one observation, is stored as -999.9, and the check skips it |
| Proofread.AsWrittenSkipped | proofread.py:31 | as written, raw values -19997 then -9979003 leave -999.9 with two observations, and the check skips the cell, whose mean is -499.95 |
| Proofread.AsWrittenReported | proofread.py:31-32 | the program as written is reported on the cell of `SentinelCollision` |
| Proofread.ShiftInMonth | proofread.py:10 | within one month, shifting by `n` days only changes the day of the month |
| Proofread.CentreParses | proofread.py:14 | the proofreader's centre reads as 1993-01-17 midnight |
| Proofread.MidJanuaryWindow | proofread.py:14 | its window is 14 to 20 January 1993, all days Python can hold |
| Proofread.ProofreadPairing | proofread.py:14-15 | the proofreader's window equals the window of `dates93[1]`, the period with index 1 |
| Proofread.PeriodPasses | proofread.py:23-32 | recomputing any cell of a period over that period's own files passes the check |
| Proofread.PairedPeriodPasses | proofread.py:23-32 | for every cell of a period whose window the proofreader reproduces, the check over the proofreader's files passes |

## Left out

- netCDF and xarray I/O (opening, creating, dimensions, variables, `put_values`
  into files) is not modelled. A daily file is a function from date token and
  cell to raw value. The output is the returned arrays. The `?` errors of file
  access are not modelled.
- `nowstring` reads the wall clock and is not modelled.
- The proofreader's endless random sampling loop and its printing are not
  modelled. One comparison of one cell is the `Check` verdict.
- Floating point: values are exact reals. The model leaves out f64 rounding of
  `v as f64 * 0.0001` and of the sums. It compares squared distances instead
  of `sqrt(powi(..))`, which orders the corners the same way in exact
  arithmetic. In f64, `sqrt` can round two squared distances that differ in
  the last bit to the same value. The strict `<` then keeps the earlier
  corner, where the model moves on to the later one. It reads
  `math.isclose(..., abs_tol=1e-5)` as exact equality.
- Basin.FindBasin: the panic on an index outside the grid is an `Err` carrying
  the index pair. The netCDF `value` error is not modelled apart from that
  out-of-bounds case.
- The grid is `nlat` by `nlon` instead of the fixed 720 by 1440.
- chrono's reader is modelled only for `YYYY-MM-DDThh:mm:ss[.fraction]Z`. It
  leaves out lower-case `t`/`z`, a space separator, numeric offsets, and the
  leap second `60`. It also leaves out chrono's limits on representable years
  and on `Duration::days`.
- Proofread.PyParse: reads ASCII digits only. Python's `\d` also matches other
  Unicode decimal digits.
- `strftime("%Y")` renders years below 1000 without padding on the usual C
  library. The model shares that form with Rust's `{}`.
- `timedelta(days=i)` itself overflows beyond 999999999 days. Such a day is
  outside years 1..9999 anyway, so it shows as the same `OverflowError`.
- The proofreader reads the output file with xarray's default masking and
  scaling. The model assumes the output variables carry no fill or scale
  attributes, so stored values are read unchanged.
- The numeric payload widths of the netCDF attribute variants are not
  modelled, because `try_from` never inspects them.
- The commented-out full-year list of period centres is not modelled. The
  model takes the three configured dates, and `Run` accepts any list.
- The proofreader opens `data/ssh_mean_1993.nc` (proofread.py:17), while the
  program writes `data/xx_ssh_mean_1993.nc` (src/main.rs:119).
  `Proofread.OutputPassesCheck`, `Proofread.PeriodPasses` and
  `Proofread.PairedPeriodPasses` assume the proofreader reads this program's
  output.
- The comment of the Python `timewindow` (proofread.py:4-5) gives the centre
  form `1993-02-07T00:00:00.000Z`, but its `%SZ` format (proofread.py:7)
  refuses a fraction. The model follows the code
  (`Proofread.ConfiguredCentresRefused`). The proofreader's own centre has no
  fraction.
- The final copy of the `latitude` and `longitude` coordinate variables
  (src/main.rs:187-204) is file I/O and is not modelled.

## Findings

| source | as written | input that shows it | evidently intended | confidence | as-written member | corrected member |
|---|---|---|---|---|---|---|
| src/main.rs:142 and src/main.rs:162 | whether a cell has started is judged by its running sum equalling the sentinel -999.9, both when loading and when finalising | in exact arithmetic, one cell with raw values -9999000 then 10: after the first the sum is exactly -999.9, so the second restarts it at 0.001, and finalisation stores 0.0005 for two observations (intended -499.9495); in f64 the raw pair -19997, -9979003 also sums to exactly -999.9 | a cell has started exactly when its count is positive, and a cell is divided by its count whenever the count is positive | not executed; reached only by raw values near -999.9 m | Aggregate.AsWrittenLoad | Aggregate.AddRow |

The as-written pair `AsWrittenLoad` and `AsWrittenFinalised` is exhibited by
`Aggregate.SentinelCollision`. `Proofread.AsWrittenReported` shows the
proofreader would report that cell. `Aggregate.AsWrittenAgrees` shows the
two forms agree while no running sum lands on -999.9. The corrected load
(`AddRow`) and finalisation (`MeanRow`) test the count. `Aggregate.Run`
and `Proofread.OutputPassesCheck` are proved about them.

Counting zero observations implies a stored -999.9, but the converse is
false. In exact arithmetic, even with the count test, a cell whose valid raw
values have a mean of exactly -9999000 stores the mean -999.9 with a
positive count, and the proofreader skips it as if it were empty
(`Proofread.SampledCellStoresSentinel`). In f64 a single -9999000 scales to
-999.9000000000001 instead. As written, the raw pair -19997, -9979003 sums to
exactly -999.9 in f64 as well as in exact arithmetic. The cell is then stored
as -999.9 with `nobs` 2, and the proofreader skips it
(`Proofread.AsWrittenSkipped`).
