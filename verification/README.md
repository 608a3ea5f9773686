# Synthetic power-load generator: a Dafny model

This project models the rule-based skeleton of `logic.py` from a desktop tool
that generates and analyses a synthetic hourly table of electrical load.
`generate_power_load_data` builds the table one year at a time. Each year has
an hourly timestamp index, and each hour gets:

- a temperature, a load, a wind speed, a holiday flag and a capacity;
- a peak-hour load boost;
- clipping of the four measured columns to fixed bands;
- rounding to one decimal place;
- a year column.

The year frames are concatenated in ascending year order. `prepare_data` then
enriches every row with calendar columns: date, month, Ukrainian month name
and its ordering number, quarter, hour, day type and Ukrainian weekday name.

The model is split into modules:

- `Wrappers` holds `Option` and `Result`.
- `Calendar` is proleptic Gregorian arithmetic in the conventions of Python's `datetime`:
  - leap years, day of year, ordinal and weekday (Monday is 0);
  - `pd.date_range(..., freq='H')` with its inclusive end;
  - the hourly index of one year and of a range of years.
- `Holidays` holds the nine fixed holidays and the per-row flag.
- `Rules` holds the piecewise per-row rules over exact reals:
  - the temperature effect and the weekend factor;
  - the peak-hour window;
  - clipping, and rounding half to even.
- `Generator` holds the generator, in two forms:
  - functions that compute the table column by column;
  - methods that run the loops of the source with their draw order. Each is proved equal to the functional form.
- `Enricher` holds the enrichment pass.

The sinusoids are uninterpreted real functions (`Sines`). The random generator
is an abstract stream of reals (`Stream`). Each row takes four consecutive
draws from it, in the order the source calls the generator: temperature noise,
load noise, wind, capacity noise. Row g of the whole run therefore uses draws
4g to 4g + 3. A seed is a function from seed values to streams; without a seed
the run continues from an arbitrary ambient stream.

Two consequences of the code are worth stating plainly:

- **Year end.** The end string `'Y-12-31'` parses to Dec 31 00:00, and `pd.date_range` includes its end, so `pd.date_range('Y-01-01', 'Y-12-31', freq='H')` stops at Dec 31 00:00. A year block therefore holds (days in year − 1) · 24 + 1 rows: 8761 for 2024 and 8737 for 2023. Between two years the index jumps 24 hours, from Dec 31 00:00 to Jan 1 00:00 (`Calendar.RangeIndexSteps`).
- **Empty range.** A range with start year after end year is not checked up front. The year loop runs zero times and `pd.concat([])` raises. `Generator.Generate` returns `Failure(NoObjectsToConcatenate)` exactly in that case.

## Model

| member | source | states |
|---|---|---|
| Calendar.DaysInYear | logic.py:15 | a year has 366 days exactly when it is a Gregorian leap year (divisible by 4, and by 400 if by 100), otherwise 365 |
| Calendar.DaysInMonth | logic.py:15 | months have 28 to 31 days; February has 29 exactly in leap years |
| Calendar.MonthsOrdered | logic.py:37 | a later month of a year starts no earlier than the end of an earlier one |
| Calendar.DayOfYear | logic.py:37 | `tm_yday` of a valid date lies in 1..days in its year |
| Calendar.DayOfYearInjective | logic.py:37 | two dates of one year with the same `tm_yday` are the same date |
| Calendar.DateOfYearDay | logic.py:37 | for every day number n of a year there is a date of that year whose `tm_yday` is n |
| Calendar.DayOfYearRoundTrip | logic.py:37 | finding the date of a day number inverts `tm_yday` |
| Calendar.YearStep | logic.py:36 | the closed-form day count before a year grows by exactly the days of that year, so consecutive years meet on the day line |
| Calendar.Ordinal | logic.py:36 | the ordinal of a date lies strictly inside its year's span of day numbers |
| Calendar.OrdinalInjective | logic.py:36 | distinct dates have distinct ordinals |
| Calendar.NextDay | logic.py:36 | the calendar successor of a date has the next ordinal, across month and year ends |
| Calendar.WeekdayAdvances | logic.py:36 | `weekday()` advances by one, modulo 7, from each date to the next |
| Calendar.OrdinalOrigin | logic.py:36 | 0001-01-01 has ordinal 1 and is a Monday (weekday 0), Python's convention |
| Calendar.WeekdayAnchors | logic.py:36 | 2024-01-01 has weekday 0 (Monday) and 2023-01-01 weekday 6 (Sunday) |
| Calendar.HourNumberInjective | logic.py:15 | distinct hourly timestamps have distinct hour numbers |
| Calendar.NextHour | logic.py:15 | the hourly successor of a timestamp is exactly one hour later, across day and year ends |
| Calendar.HourlyRange | logic.py:15 | `date_range(start, end, freq='H')`: element i is i hours after start, and a timestamp is in the range iff it lies between start and end inclusive |
| Calendar.YearIndexLength | logic.py:13-15 | a year's index has (days in year − 1) · 24 + 1 rows |
| Calendar.YearIndexShape | logic.py:13-15 | row k of a year's index falls on day k / 24 + 1 at hour k % 24; the index opens at Jan 1 00:00 and closes at Dec 31 00:00 |
| Calendar.YearIndexFirst | logic.py:13 | the first row of a year's index is Jan 1 00:00 |
| Calendar.YearIndexLast | logic.py:14-15 | the last row of a year's index is Dec 31 00:00 |
| Calendar.YearIndexAt | logic.py:34-37 | the timestamp at row k of a year's index, whose `hour` is k % 24 and `tm_yday` is k / 24 + 1 |
| Calendar.YearIndexHours | logic.py:12-15 | every row of a year's index lies in that year, k hours after its Jan 1 00:00 |
| Calendar.RangeIndexSnoc | logic.py:12-15 | the index of years start..end is that of start..end − 1 followed by the block of year end |
| Calendar.RangeIndexLength | logic.py:12-15 | the index of a range of years has the sum of the blocks' row counts |
| Calendar.RowsInYears | logic.py:12-15 | each year block contributes at least 8737 rows |
| Calendar.RangeIndexBounds | logic.py:12-15 | every row of the index of years start..end lies in one of those years |
| Calendar.RangeIndexSteps | logic.py:12-15 | consecutive rows are one hour apart within a year and 24 hours apart across a year boundary |
| Calendar.RangeIndexIncreasing | logic.py:12-15 | the timestamp column of a range is strictly increasing, so no timestamp repeats |
| Holidays.HolidayTimestamps | logic.py:27-32 | the nine holidays of a year, midnight timestamps on Jan 1, Jan 7, Mar 8, May 1, May 9, Jun 28, Aug 24, Oct 14, Dec 25 of that year |
| Holidays.HolidayFlag | logic.py:59-60 | `is_holiday` is 0 or 1, and 1 iff the timestamp's date is one of the nine holiday dates of the year being generated |
| Holidays.HolidayFlagIgnoresHour | logic.py:59 | the flag depends on the calendar date only, not the hour |
| Holidays.HolidaysDistinct | logic.py:27-31 | the nine holiday dates of a year are pairwise distinct |
| Holidays.HolidaysBeforeLastDay | logic.py:27-31 | every holiday falls before Dec 31, so all of its hours are in the year's index |
| Rules.ComfortDistance | logic.py:46-50 | the distance from the comfort band [0, 25] is non-negative and zero exactly inside the band |
| Rules.TempEffect | logic.py:46-50 | the temperature effect is never negative, is zero exactly on [0, 25], and equals 20 MW per degree outside it (300/15 below 0, 200/10 above 25) |
| Rules.TempEffectMonotone | logic.py:46-50 | the effect grows with the distance from the comfort band, on both sides |
| Rules.TempEffectStrictOutsideBand | logic.py:46-50 | colder below 0, or hotter above 25, means strictly more load |
| Rules.WeekdayFactor | logic.py:53 | the factor is 0.85 iff the day of week is 5 or more (Saturday, Sunday), and 1.0 otherwise |
| Rules.PeakHours | logic.py:71 | the peak window holds exactly the eight hours 7, 8, 9, 10, 17, 18, 19, 20 |
| Rules.Clip | logic.py:74-77 | `np.clip` lands in the band, is the identity inside it, and gives the nearer bound outside it |
| Rules.ClipIdempotent | logic.py:74-77 | clipping twice is clipping once |
| Rules.ClipMonotone | logic.py:74-77 | clipping keeps the order of its inputs |
| Rules.RoundHalfEven | logic.py:79-80 | the result is an integer within 0.5 of its input; on an exact tie it is the even neighbour |
| Rules.RoundTenth | logic.py:79-80 | `round(1)` moves a value by at most 0.05 |
| Rules.RoundTenthKeepsBand | logic.py:79-80 | rounding to tenths keeps a value inside any band with integer ends, such as the four clip bands |
| Rules.RoundTenthIdempotent | logic.py:79-80 | rounding an already rounded value changes nothing |
| Generator.Simulate | logic.py:34-64 | the first loop's row: temperature is the sinusoidal baseline plus its noise; load is the shaped, temperature- and weekday-adjusted load plus its noise; wind is its draw; capacity is the unboosted load plus 800 plus its noise; the holiday flag is 0 or 1, and 1 iff the date is a holiday of the year |
| Generator.BoostPeak | logic.py:69-72 | in a peak hour the load is multiplied by 1.12; outside one the row is unchanged; no other column ever changes |
| Generator.ClipSample | logic.py:74-77 | after clipping load, temperature, wind and capacity lie in their bands; a row already inside is unchanged; timestamp and flag are kept |
| Generator.RoundSample | logic.py:79-80 | rounding keeps a row inside the bands and keeps timestamp and flag |
| Generator.FinalRow | logic.py:34-82 | a final row carries its timestamp and the year of its frame; its measured columns lie in their bands; its flag is 0 or 1, and 1 iff its date is a holiday of that year |
| Generator.FinalRowColumns | logic.py:62-80 | each final column is the rounded, clipped value computed from its draws; the load is boosted in peak hours; the capacity is based on the unboosted load, so the boost never reaches it |
| Generator.WeekendLoadBelowWeekday | logic.py:52-56 | with sinusoids in [−1, 1], the noise-free weekend load is 0.85 of the same hour's weekday load and strictly below it |
| Generator.FrameRows | logic.py:66-82 | row k of a year frame is the final row of the k-th timestamp computed from the draws of row base + k |
| Generator.FrameTabulates | logic.py:66-82 | the column-wise passes over a year's frame compute, row by row, the final row of each timestamp |
| Generator.Generate | logic.py:10-86 | the run fails exactly when the start year is after the end year |
| Generator.ConcatFramesTabulates | logic.py:12-85 | the concatenated frames are the final rows of the concatenated year indexes, rows numbered on across years |
| Generator.ConcatFramesSnoc | logic.py:83-85 | the frames up to a year are the frames before it followed by that year's frame, whose rows follow theirs in the run |
| Generator.GenerateRows | logic.py:6-86 | for start ≤ end the table has one row per timestamp of the range index, and row g is the final row of the g-th timestamp computed from draws 4g to 4g + 3 |
| Generator.GeneratedTable | logic.py:6-86 | every row's year is its timestamp's year, inside the range; every measured column lies in its band; the flag is 0 or 1, and 1 exactly on holiday dates; timestamps strictly increase, one hour apart within a year |
| Generator.PerRowAgree | logic.py:41-63 | streams that agree on their first 4n draws give the first n rows the same draws |
| Generator.StreamPrefixDetermines | logic.py:6-86 | the table depends on the stream only through the 4 draws per row that the rows take |
| Generator.GenerateWithSeed | logic.py:6-8 | a seed outside 0 .. 2^32 − 1 fails before any year is built, as `np.random.seed` raises; otherwise the run fails exactly on an empty year range; without a seed the run draws from the generator's current state |
| Generator.SeededRunReproducible | logic.py:7-8 | with a valid seed the table does not depend on the generator's earlier state and is the table generated from that seed's stream; same seed and range, same result |
| Generator.SimulateLoop | logic.py:34-64 | the source's first loop, taking four draws per row from a cursor, computes the first pass, and the cursor ends 4 draws per row further on |
| Generator.BoostLoop | logic.py:68-72 | the source's in-place peak-hour loop computes the boost of every row |
| Generator.YearFrameLoop | logic.py:34-82 | one year as the source builds it equals the year's frame, and it consumes four draws per row |
| Generator.AppendYear | logic.py:12-83 | one turn of the year loop extends the frames of the earlier years by the frame of this year |
| Generator.GenerateLoop | logic.py:6-86 | the source's year loop with its final concatenation returns exactly the generated table, or the failure for an empty range |
| Enricher.MonthNamesCoverMonths | logic.py:93-98 | every month number 1..12, and nothing else, has a Ukrainian name |
| Enricher.MonthOrderInvertsNames | logic.py:93-105 | the ordering number of a month's name is that month |
| Enricher.MonthNamesInvertOrder | logic.py:100-105 | the name of an ordering number is the name it was given for |
| Enricher.EnglishDayName | logic.py:120 | `day_name()` of every weekday is a key of the Ukrainian weekday table |
| Enricher.UaDayName | logic.py:111-120 | the Ukrainian weekday name of weekday w is the w-th name from Monday to Sunday |
| Enricher.UaDayNamesDistinct | logic.py:111-119 | the seven Ukrainian weekday names are pairwise distinct |
| Enricher.DayNamesBijective | logic.py:111-120 | the weekday-name column is a bijection between the seven weekdays and the seven names of the table |
| Enricher.Quarter | logic.py:107 | the quarter is in 1..4, and month m is in quarter q iff 3q − 2 ≤ m ≤ 3q |
| Enricher.DayType | logic.py:109 | the day type is 'Свято' iff `is_holiday` is 1, and 'Робочий' otherwise |
| Enricher.Derive | logic.py:89-120 | the added columns of a row: its date, month and hour; the month's name, whose ordering number is the month; the quarter containing the month; day type 'Свято' iff `is_holiday` is 1 and 'Робочий' otherwise; the Ukrainian name of the weekday, counted from Monday |
| Enricher.Prepare | logic.py:88-122 | the pass keeps the number of rows and every generated column, and sets each row's added columns to those derived from its own generated columns |
| Enricher.PrepareIdempotent | logic.py:88-122 | running the pass twice gives what running it once gives |
| Enricher.PrepareIgnoresOldColumns | logic.py:88-122 | the pass depends on the generated columns only; whatever was derived before is recomputed |
| Enricher.EnrichedGeneratedTable | logic.py:88-122 | on a generated table the day type is 'Свято' exactly on the nine holiday dates, the month ordering equals the month, and every date lies in the requested years |

## Left out

- The sinusoids `np.sin(...)` are uninterpreted real functions, because transcendental floating point cannot be stated exactly. Only `Generator.WeekendLoadBelowWeekday` assumes a bound on them, [−1, 1].
- The normal and gamma draws of numpy are an abstract stream of reals. No claim is made about their distributions. How `np.random.seed` maps a valid seed to a stream is a parameter. Seeds that are not integers (arrays, floats) are not modelled; an integer outside 0 .. 2^32 − 1 is the `SeedOutOfRange` failure.
- Floating-point representation: all arithmetic is over exact reals. `round(1)` is modelled as ten times the value rounded half to even, divided by ten.
- Generator.RoundSample: states only that rounding keeps each column inside its band. It does not state the exact decimal result of numpy's float rounding.
- The pandas timestamp range (years 1677 to 2262 for nanosecond timestamps) is not modelled. Every integer year is accepted.
- Generator.Generate: an empty year range is a `Failure`, not a precondition. The source raises at the concatenation in that case.
- `create_csv_reports`, `create_text_report` and `get_random_mode_description` in logic.py are left out: file output, the wall clock and fixed strings.
- The UI modules (`ui_generation.py`, `ui_analysis.py`), plotting (`plotting.py`) and `main.py` are left out: widgets, threads, aggregation for display, and plotting.
- `pd.to_datetime` on the already typed timestamp column in `prepare_data` is the identity here, because timestamps are typed values.
