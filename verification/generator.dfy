/**
 * The synthetic power-load generator: per hour a temperature, a load, a wind
 * speed, a holiday flag and a capacity; per year frame a peak-hour pass, a
 * clipping pass, a rounding pass and a year column; the year frames
 * concatenated in ascending year order.
 *
 * The sinusoids are uninterpreted real functions and the random generator is
 * an abstract stream of draws, consumed four per row in a fixed order.
 */
module Generator {
  import opened Wrappers
  import opened Calendar
  import opened Holidays
  import opened Rules

  /**
   * The sinusoids of the model, left uninterpreted: `seasonal(d)` stands for
   * sin(2 pi (d - 15) / 365) at day of year d, `dailyTemp(h)` for
   * sin(2 pi (h - 6) / 24) and `dailyLoad(h)` for sin(2 pi h / 24) at hour h.
   */
  datatype Sines = Sines(seasonal: int -> real, dailyTemp: int -> real, dailyLoad: int -> real)

  /**
   * The values the process-wide random generator returns, in call order:
   * `s(k)` is the result of the k-th draw of the run, whatever its distribution.
   */
  type Stream = nat -> real

  /** The four draws one row takes: temperature noise, load noise, wind, capacity noise. */
  datatype RowDraws = RowDraws(tempNoise: real, loadNoise: real, wind: real, capacityNoise: real)

  /** The draws of a row whose first draw is the pos-th of the run, in the order the row takes them. */
  function DrawsAt(s: Stream, pos: nat): (d: RowDraws)
    ensures d.tempNoise == s(pos) && d.loadNoise == s(pos + 1)
    ensures d.wind == s(pos + 2) && d.capacityNoise == s(pos + 3)
  {
    RowDraws(s(pos), s(pos + 1), s(pos + 2), s(pos + 3))
  }

  /** The draws of the rows of a run in row order: row k starts at draw 4k. */
  type RowSource = nat -> RowDraws

  function PerRow(s: Stream): RowSource {
    (row: nat) => DrawsAt(s, 4 * row)
  }

  /** One row of a year frame before its year column is added. */
  datatype Sample = Sample(
    timestamp: Timestamp, loadMw: real, temperatureC: real, windMps: real, isHoliday: int, capacityMw: real)

  /** One row of the generated table. */
  datatype Row = Row(
    timestamp: Timestamp, loadMw: real, temperatureC: real, windMps: real, isHoliday: int, capacityMw: real,
    year: int)

  /** Temperature before its noise: seasonal baseline around 10 degrees plus the diurnal swing. */
  function BaseTemperature(sines: Sines, t: Timestamp): real {
    10.0 + 25.0 * sines.seasonal(DayOfYear(t.date)) + 8.0 * sines.dailyTemp(t.hour)
  }

  /** The weekday-independent part of the load before its noise. */
  function LoadShape(sines: Sines, dayOfYear: int, hour: int, temperature: real): real {
    (4000.0 + 800.0 * sines.dailyLoad(hour) + TempEffect(temperature)) * (1.0 + 0.15 * sines.seasonal(dayOfYear))
  }

  /** Load before its noise on a day with weekday `dayOfWeek`. */
  function PreNoiseLoad(sines: Sines, dayOfYear: int, hour: int, dayOfWeek: int, temperature: real): real {
    LoadShape(sines, dayOfYear, hour, temperature) * WeekdayFactor(dayOfWeek)
  }

  /** The first loop of a year: one row from its timestamp and its four draws. */
  function Simulate(t: Timestamp, year: int, sines: Sines, d: RowDraws): (s: Sample)
    ensures s.timestamp == t && s.windMps == d.wind
    ensures s.temperatureC - d.tempNoise == BaseTemperature(sines, t)
    ensures s.loadMw - d.loadNoise == PreNoiseLoad(sines, DayOfYear(t.date), t.hour, WeekdayOf(t.date), s.temperatureC)
    ensures s.capacityMw - s.loadMw == ReserveMargin + d.capacityNoise
    ensures s.isHoliday == 1 <==> t.date.year == year && (t.date.month, t.date.day) in HolidayDays
    ensures s.isHoliday == 0 || s.isHoliday == 1
  {
    var temperature := BaseTemperature(sines, t) + d.tempNoise;
    var load := PreNoiseLoad(sines, DayOfYear(t.date), t.hour, WeekdayOf(t.date), temperature) + d.loadNoise;
    Sample(t, load, temperature, d.wind, HolidayFlag(t, year), load + 800.0 + d.capacityNoise)
  }

  /** The second loop of a year: load times 1.12 in the peak hours, nothing else touched. */
  function BoostPeak(s: Sample): (r: Sample)
    ensures IsPeakHour(s.timestamp.hour) ==> r.loadMw == s.loadMw * PeakBoost
    ensures !IsPeakHour(s.timestamp.hour) ==> r == s
    ensures r.(loadMw := s.loadMw) == s
  {
    if IsPeakHour(s.timestamp.hour) then s.(loadMw := s.loadMw * 1.12) else s
  }

  /** The four measured columns lie in their clip bands. */
  predicate WithinBands(loadMw: real, temperatureC: real, windMps: real, capacityMw: real) {
    && LoadMin <= loadMw <= LoadMax
    && TempMin <= temperatureC <= TempMax
    && WindMin <= windMps <= WindMax
    && CapacityMin <= capacityMw <= CapacityMax
  }

  predicate SampleWithinBands(s: Sample) {
    WithinBands(s.loadMw, s.temperatureC, s.windMps, s.capacityMw)
  }

  /** `np.clip` on the load, temperature, wind and capacity columns. */
  function ClipSample(s: Sample): (r: Sample)
    ensures SampleWithinBands(r)
    ensures SampleWithinBands(s) ==> r == s
    ensures r.timestamp == s.timestamp && r.isHoliday == s.isHoliday
  {
    s.(loadMw := Clip(s.loadMw, LoadMin, LoadMax),
       temperatureC := Clip(s.temperatureC, TempMin, TempMax),
       windMps := Clip(s.windMps, WindMin, WindMax),
       capacityMw := Clip(s.capacityMw, CapacityMin, CapacityMax))
  }

  /** `round(1)` on the same four columns. */
  function RoundSample(s: Sample): (r: Sample)
    ensures SampleWithinBands(s) ==> SampleWithinBands(r)
    ensures r.timestamp == s.timestamp && r.isHoliday == s.isHoliday
  {
    var r := s.(loadMw := RoundTenth(s.loadMw),
                temperatureC := RoundTenth(s.temperatureC),
                windMps := RoundTenth(s.windMps),
                capacityMw := RoundTenth(s.capacityMw));
    assert SampleWithinBands(s) ==> SampleWithinBands(r) by {
      if SampleWithinBands(s) {
        RoundTenthKeepsBand(s.loadMw, 2500, 5500);
        RoundTenthKeepsBand(s.temperatureC, -15, 35);
        RoundTenthKeepsBand(s.windMps, 0, 15);
        RoundTenthKeepsBand(s.capacityMw, 5000, 7000);
      }
    }
    r
  }

  function AddYear(s: Sample, year: int): Row {
    Row(s.timestamp, s.loadMw, s.temperatureC, s.windMps, s.isHoliday, s.capacityMw, year)
  }

  /** Everything that happens to one row of the frame of `year`, in order. */
  function FinalRow(t: Timestamp, year: int, sines: Sines, d: RowDraws): (r: Row)
    ensures r.timestamp == t && r.year == year
    ensures WithinBands(r.loadMw, r.temperatureC, r.windMps, r.capacityMw)
    ensures r.isHoliday == 0 || r.isHoliday == 1
    ensures r.isHoliday == 1 <==> t.date.year == year && (t.date.month, t.date.day) in HolidayDays
  {
    AddYear(RoundSample(ClipSample(BoostPeak(Simulate(t, year, sines, d)))), year)
  }

  /**
   * How each measured column of a final row is obtained from the load before
   * the peak boost: the load is boosted in the peak hours, the capacity is
   * reserve margin and noise over the unboosted load, so the boost never
   * reaches it.
   */
  lemma FinalRowColumns(t: Timestamp, year: int, sines: Sines, d: RowDraws)
    ensures var temperature := BaseTemperature(sines, t) + d.tempNoise;
      var load := PreNoiseLoad(sines, DayOfYear(t.date), t.hour, WeekdayOf(t.date), temperature) + d.loadNoise;
      var r := FinalRow(t, year, sines, d);
      && r.temperatureC == RoundTenth(Clip(temperature, TempMin, TempMax))
      && r.loadMw == RoundTenth(Clip(if IsPeakHour(t.hour) then load * PeakBoost else load, LoadMin, LoadMax))
      && r.windMps == RoundTenth(Clip(d.wind, WindMin, WindMax))
      && r.capacityMw == RoundTenth(Clip(load + ReserveMargin + d.capacityNoise, CapacityMin, CapacityMax))
  {
  }

  /**
   * With every sinusoid in [-1, 1] the noise-free load is positive, so the
   * weekend factor makes a Saturday or Sunday value 0.85 of, and strictly
   * below, the same hour's value on a weekday.
   */
  lemma WeekendLoadBelowWeekday(sines: Sines, dayOfYear: int, hour: int, temperature: real, weekend: Weekday, weekday: Weekday)
    requires weekend >= 5 && weekday < 5
    requires -1.0 <= sines.seasonal(dayOfYear) <= 1.0 && -1.0 <= sines.dailyLoad(hour) <= 1.0
    ensures PreNoiseLoad(sines, dayOfYear, hour, weekend, temperature)
         == WeekendFactor * PreNoiseLoad(sines, dayOfYear, hour, weekday, temperature)
    ensures PreNoiseLoad(sines, dayOfYear, hour, weekend, temperature)
          < PreNoiseLoad(sines, dayOfYear, hour, weekday, temperature)
  {
    var base := 4000.0 + 800.0 * sines.dailyLoad(hour) + TempEffect(temperature);
    var season := 1.0 + 0.15 * sines.seasonal(dayOfYear);
    assert base >= 3200.0 && season >= 0.85;
    assert base * season > 0.0;
    assert LoadShape(sines, dayOfYear, hour, temperature) == base * season;
  }

  /** The first loop over the timestamps of `index`: row k from the k-th timestamp and the draws of row base + k of the run. */
  function SimulateRows(index: seq<Timestamp>, sim: (Timestamp, RowDraws) -> Sample, draws: RowSource, base: nat): (xs: seq<Sample>)
    ensures |xs| == |index|
    ensures forall k :: 0 <= k < |index| ==> xs[k] == sim(index[k], draws(base + k))
  {
    seq(|index|, k requires 0 <= k < |index| => sim(index[k], draws(base + k)))
  }

  /** The simulation of one row in the frame of `year`. */
  function Simulator(year: int, sines: Sines): (Timestamp, RowDraws) -> Sample {
    (t: Timestamp, d: RowDraws) => Simulate(t, year, sines, d)
  }

  /** The first loop of `year` over the timestamps of `index`: row k from the k-th timestamp and the draws of row base + k of the run. */
  function SimulateIndex(index: seq<Timestamp>, year: int, sines: Sines, draws: RowSource, base: nat): (xs: seq<Sample>)
    ensures |xs| == |index|
  {
    seq(|index|, k requires 0 <= k < |index| => Simulate(index[k], year, sines, draws(base + k)))
  }

  /** The abstract first pass, instantiated with the simulation of `year`, is that year's first pass. */
  lemma SimulatorRows(index: seq<Timestamp>, year: int, sines: Sines, draws: RowSource, base: nat)
    ensures SimulateRows(index, Simulator(year, sines), draws, base) == SimulateIndex(index, year, sines, draws, base)
  {
  }

  function BoostPeaks(xs: seq<Sample>): (ys: seq<Sample>)
    ensures |ys| == |xs|
  {
    seq(|xs|, i requires 0 <= i < |xs| => BoostPeak(xs[i]))
  }

  function ClipColumns(xs: seq<Sample>): (ys: seq<Sample>)
    ensures |ys| == |xs|
  {
    seq(|xs|, i requires 0 <= i < |xs| => ClipSample(xs[i]))
  }

  function RoundColumns(xs: seq<Sample>): (ys: seq<Sample>)
    ensures |ys| == |xs|
  {
    seq(|xs|, i requires 0 <= i < |xs| => RoundSample(xs[i]))
  }

  function AddYearColumn(xs: seq<Sample>, year: int): (ys: seq<Row>)
    ensures |ys| == |xs|
  {
    seq(|xs|, i requires 0 <= i < |xs| => AddYear(xs[i], year))
  }

  /** The frame of `year` over the timestamps of `index`, whose first row is row `base` of the run. */
  function Frame(index: seq<Timestamp>, year: int, sines: Sines, draws: RowSource, base: nat): (rows: seq<Row>)
    ensures |rows| == |index|
  {
    AddYearColumn(RoundColumns(ClipColumns(BoostPeaks(SimulateIndex(index, year, sines, draws, base)))), year)
  }

  /** Row k of a frame is the final row of its k-th timestamp, from the draws of row base + k of the run. */
  lemma FrameRows(index: seq<Timestamp>, year: int, sines: Sines, draws: RowSource, base: nat)
    ensures forall k :: 0 <= k < |index| ==>
      Frame(index, year, sines, draws, base)[k] == FinalRow(index[k], year, sines, draws(base + k))
  {
  }

  /** The frame of one year, whose first row is row `base` of the run. */
  function YearFrame(year: int, sines: Sines, draws: RowSource, base: nat): (rows: seq<Row>)
    ensures |rows| == |YearIndex(year)|
  {
    Frame(YearIndex(year), year, sines, draws, base)
  }

  /** The frames of years y..end, concatenated; each year's rows, and so its draws, follow the previous year's. */
  function ConcatFrames(y: int, end: int, sines: Sines, draws: RowSource, base: nat): seq<Row>
    decreases end - y, 1
  {
    if y > end then [] else FrameThenRest(y, end, sines, draws, base)
  }

  /** The frame of year y followed by the frames of the years after it, up to `end`. */
  function FrameThenRest(y: int, end: int, sines: Sines, draws: RowSource, base: nat): seq<Row>
    requires y <= end
    decreases end - y, 0
  {
    YearFrame(y, sines, draws, base) + ConcatFrames(y + 1, end, sines, draws, base + |YearIndex(y)|)
  }

  /** `pd.concat([])` on an empty year range; `np.random.seed` with a seed outside 0 .. 2^32 - 1. */
  datatype GenerateError = NoObjectsToConcatenate | SeedOutOfRange

  /** The seeds `np.random.seed` accepts as an integer: 0 to 2^32 - 1. */
  predicate ValidSeed(seed: int) {
    0 <= seed < 0x1_0000_0000
  }

  /** The generated table; an empty year range leaves nothing to concatenate, which raises. */
  function Generate(startYear: int, endYear: int, sines: Sines, s: Stream): (r: Result<seq<Row>, GenerateError>)
    ensures r.Failure? <==> startYear > endYear
  {
    if startYear > endYear then Failure(NoObjectsToConcatenate)
    else Success(ConcatFrames(startYear, endYear, sines, PerRow(s), 0))
  }

  /**
   * A run with an optional seed: a seed re-seeds the generator, so the draws
   * are `seeded(seed)`; without one the run continues from whatever state the
   * generator is in, `ambient`. Seeding comes first, so a seed the generator
   * rejects raises before any year is built.
   */
  function GenerateWithSeed(startYear: int, endYear: int, seed: Option<int>, sines: Sines,
                            seeded: int -> Stream, ambient: Stream): (r: Result<seq<Row>, GenerateError>)
    ensures seed.Some? && !ValidSeed(seed.value) ==> r == Failure(SeedOutOfRange)
    ensures r.Failure? <==> (seed.Some? && !ValidSeed(seed.value)) || startYear > endYear
    ensures seed.None? ==> r == Generate(startYear, endYear, sines, ambient)
  {
    if seed.Some? && !ValidSeed(seed.value) then Failure(SeedOutOfRange)
    else Generate(startYear, endYear, sines, if seed.Some? then seeded(seed.value) else ambient)
  }

  lemma ConcatFramesUnfold(y: int, end: int, sines: Sines, draws: RowSource, base: nat)
    requires y <= end
    ensures ConcatFrames(y, end, sines, draws, base)
         == YearFrame(y, sines, draws, base) + ConcatFrames(y + 1, end, sines, draws, base + |YearIndex(y)|)
  {
  }

  /** Rows computed by f from the timestamps of idx, row k being row base + k of the run. */
  function Tabulate<R>(idx: seq<Timestamp>, base: nat, f: (Timestamp, nat) -> R): (r: seq<R>)
    ensures |r| == |idx|
    ensures forall k :: 0 <= k < |idx| ==> r[k] == f(idx[k], base + k)
  {
    seq(|idx|, k requires 0 <= k < |idx| => f(idx[k], base + k))
  }

  /** Tabulating two blocks of timestamps, the second's rows following the first's, is tabulating both. */
  lemma TabulateAppend<R>(ia: seq<Timestamp>, ib: seq<Timestamp>, base: nat, f: (Timestamp, nat) -> R)
    ensures Tabulate(ia, base, f) + Tabulate(ib, base + |ia|, f) == Tabulate(ia + ib, base, f)
  {
    var a, b, c := Tabulate(ia, base, f), Tabulate(ib, base + |ia|, f), Tabulate(ia + ib, base, f);
    forall g | 0 <= g < |c|
      ensures (a + b)[g] == c[g]
    {
      if g >= |a| {
        assert (ia + ib)[g] == ib[g - |ia|];
      }
    }
  }

  /** The final row of timestamp t in its own year, as row p of the run. */
  function RowMaker(sines: Sines, draws: RowSource): (Timestamp, nat) -> Row {
    (t: Timestamp, p: nat) => FinalRow(t, t.date.year, sines, draws(p))
  }

  /** The column-wise passes over a year compute, row by row, the final row of each timestamp. */
  lemma FrameTabulates(index: seq<Timestamp>, year: int, sines: Sines, draws: RowSource, base: nat)
    requires forall k :: 0 <= k < |index| ==> index[k].date.year == year
    ensures Frame(index, year, sines, draws, base) == Tabulate(index, base, RowMaker(sines, draws))
  {
    FrameRows(index, year, sines, draws, base);
  }

  /** The frame of a year holds, row by row, the final row of each of the year's timestamps. */
  lemma YearFrameTabulates(y: int, sines: Sines, draws: RowSource, base: nat)
    ensures YearFrame(y, sines, draws, base) == Tabulate(YearIndex(y), base, RowMaker(sines, draws))
  {
    YearIndexHours(y);
    FrameTabulates(YearIndex(y), y, sines, draws, base);
  }

  /** The concatenated frames are the final rows of the concatenated indexes, rows numbered on across years. */
  lemma {:induction false} ConcatFramesTabulates(y: int, end: int, sines: Sines, draws: RowSource, base: nat)
    ensures ConcatFrames(y, end, sines, draws, base) == Tabulate(RangeIndex(y, end), base, RowMaker(sines, draws))
    decreases end - y
  {
    if y <= end {
      var head, tail := YearIndex(y), RangeIndex(y + 1, end);
      ConcatFramesUnfold(y, end, sines, draws, base);
      YearFrameTabulates(y, sines, draws, base);
      ConcatFramesTabulates(y + 1, end, sines, draws, base + |head|);
      TabulateAppend(head, tail, base, RowMaker(sines, draws));
      assert RangeIndex(y, end) == head + tail;
    }
  }

  /**
   * The generated table, row by row: for start <= end it holds one row per
   * timestamp of the years' hourly index, and row g is the final row of the
   * g-th timestamp in its own year, computed from draws 4g .. 4g + 3 of the run.
   */
  lemma GenerateRows(startYear: int, endYear: int, sines: Sines, s: Stream)
    requires startYear <= endYear
    ensures Generate(startYear, endYear, sines, s).Success?
    ensures var rows := Generate(startYear, endYear, sines, s).value;
      var index := RangeIndex(startYear, endYear);
      && |rows| == |index| == RowsInYears(startYear, endYear)
      && forall g :: 0 <= g < |rows| ==>
           rows[g] == FinalRow(index[g], index[g].date.year, sines, DrawsAt(s, 4 * g))
  {
    ConcatFramesTabulates(startYear, endYear, sines, PerRow(s), 0);
    RangeIndexLength(startYear, endYear);
  }

  /**
   * Table-wide invariants: every row carries its timestamp's year, inside the
   * requested range; every measured column lies in its band; the holiday flag
   * is 0 or 1, and 1 exactly on the nine holiday dates; timestamps strictly
   * increase, one hour apart inside a year.
   */
  lemma GeneratedTable(startYear: int, endYear: int, sines: Sines, s: Stream)
    requires startYear <= endYear
    ensures Generate(startYear, endYear, sines, s).Success?
    ensures var rows := Generate(startYear, endYear, sines, s).value;
      && (forall g :: 0 <= g < |rows| ==>
            && rows[g].year == rows[g].timestamp.date.year
            && startYear <= rows[g].year <= endYear
            && WithinBands(rows[g].loadMw, rows[g].temperatureC, rows[g].windMps, rows[g].capacityMw)
            && (rows[g].isHoliday == 0 || rows[g].isHoliday == 1)
            && (rows[g].isHoliday == 1 <==> (rows[g].timestamp.date.month, rows[g].timestamp.date.day) in HolidayDays))
      && (forall i, j :: 0 <= i < j < |rows| ==> HourNumber(rows[i].timestamp) < HourNumber(rows[j].timestamp))
      && (forall i :: 0 <= i < |rows| - 1 && rows[i + 1].year == rows[i].year ==>
            HourNumber(rows[i + 1].timestamp) == HourNumber(rows[i].timestamp) + 1)
  {
    GenerateRows(startYear, endYear, sines, s);
    RangeIndexBounds(startYear, endYear);
    RangeIndexIncreasing(startYear, endYear);
    RangeIndexSteps(startYear, endYear);
  }

  /** Tabulations agree when their row functions agree on every row they compute. */
  lemma TabulateAgree<R>(idx: seq<Timestamp>, base: nat, f1: (Timestamp, nat) -> R, f2: (Timestamp, nat) -> R)
    requires forall k :: 0 <= k < |idx| ==> f1(idx[k], base + k) == f2(idx[k], base + k)
    ensures Tabulate(idx, base, f1) == Tabulate(idx, base, f2)
  {
  }

  /** Two runs whose first 4n draws agree give their first n rows the same draws. */
  lemma PerRowAgree(s1: Stream, s2: Stream, n: nat)
    requires forall k: nat :: k < 4 * n ==> s1(k) == s2(k)
    ensures forall k: nat :: k < n ==> PerRow(s1)(k) == PerRow(s2)(k)
  {
    forall k: nat | k < n
      ensures PerRow(s1)(k) == PerRow(s2)(k)
    {
      assert PerRow(s1)(k) == DrawsAt(s1, 4 * k) && PerRow(s2)(k) == DrawsAt(s2, 4 * k);
    }
  }

  /** Final rows computed from row sources that agree on the rows of a block are the same. */
  lemma RowMakerAgree(idx: seq<Timestamp>, sines: Sines, d1: RowSource, d2: RowSource)
    requires forall k: nat :: k < |idx| ==> d1(k) == d2(k)
    ensures Tabulate(idx, 0, RowMaker(sines, d1)) == Tabulate(idx, 0, RowMaker(sines, d2))
  {
    var f1, f2 := RowMaker(sines, d1), RowMaker(sines, d2);
    forall k | 0 <= k < |idx|
      ensures f1(idx[k], k) == f2(idx[k], k)
    {
      assert d1(k) == d2(k);
    }
    TabulateAgree(idx, 0, f1, f2);
  }

  /** Only the draws the rows take matter: runs whose streams agree on the first four per row generate the same table. */
  lemma StreamPrefixDetermines(startYear: int, endYear: int, sines: Sines, s1: Stream, s2: Stream)
    requires forall k: nat :: k < 4 * RowsInYears(startYear, endYear) ==> s1(k) == s2(k)
    ensures Generate(startYear, endYear, sines, s1) == Generate(startYear, endYear, sines, s2)
  {
    if startYear <= endYear {
      var index := RangeIndex(startYear, endYear);
      RangeIndexLength(startYear, endYear);
      PerRowAgree(s1, s2, |index|);
      RowMakerAgree(index, sines, PerRow(s1), PerRow(s2));
      ConcatFramesTabulates(startYear, endYear, sines, PerRow(s1), 0);
      ConcatFramesTabulates(startYear, endYear, sines, PerRow(s2), 0);
    }
  }

  /** Extending a prefix by one element. */
  lemma PrefixGrows<T>(a: seq<T>, i: nat)
    requires i < |a|
    ensures a[..i + 1] == a[..i] + [a[i]]
  {
  }

  /**
   * The first loop of a year as the source runs it: one pass over the year's
   * timestamps in which every row takes four draws from the run's generator,
   * temperature noise, load noise, wind and capacity noise, in that order.
   * The first row of `index` is row `row` of the run; `cursor` counts the
   * draws of the run taken so far.
   */
  method SimulateLoop(index: seq<Timestamp>, sim: (Timestamp, RowDraws) -> Sample, s: Stream, row: nat)
    returns (xs: seq<Sample>, cursor: nat)
    ensures cursor == 4 * (row + |index|)
    ensures xs == SimulateRows(index, sim, PerRow(s), row)
  {
    ghost var spec := SimulateRows(index, sim, PerRow(s), row);
    xs, cursor := [], 4 * row;
    var i := 0;
    while i < |index|
      invariant 0 <= i <= |index|
      invariant cursor == 4 * (row + i)
      invariant xs == spec[..i]
    {
      var tempNoise := s(cursor);
      var loadNoise := s(cursor + 1);
      var wind := s(cursor + 2);
      var capacityNoise := s(cursor + 3);
      var sample := sim(index[i], RowDraws(tempNoise, loadNoise, wind, capacityNoise));
      assert PerRow(s)(row + i) == RowDraws(tempNoise, loadNoise, wind, capacityNoise);
      PrefixGrows(spec, i);
      xs := xs + [sample];
      cursor := cursor + 4;
      i := i + 1;
    }
  }

  /** The second loop of a year as the source runs it: row by row, the load of a peak hour is multiplied by 1.12. */
  method BoostLoop(xs: seq<Sample>) returns (ys: seq<Sample>)
    ensures ys == BoostPeaks(xs)
  {
    ys := xs;
    var i := 0;
    while i < |ys|
      invariant 0 <= i <= |ys| == |xs|
      invariant forall k :: 0 <= k < i ==> ys[k] == BoostPeak(xs[k])
      invariant forall k :: i <= k < |ys| ==> ys[k] == xs[k]
    {
      if 7 <= ys[i].timestamp.hour <= 10 || 17 <= ys[i].timestamp.hour <= 20 {
        ys := ys[i := ys[i].(loadMw := ys[i].loadMw * 1.12)];
      }
      i := i + 1;
    }
  }

  /**
   * One year of the run as the source builds it: the first loop, the peak-hour
   * loop, then the clipping, rounding and year-column passes over the frame.
   */
  method YearFrameLoop(year: int, sines: Sines, s: Stream, base: nat) returns (frame: seq<Row>, cursor: nat)
    ensures cursor == 4 * (base + |frame|)
    ensures frame == YearFrame(year, sines, PerRow(s), base)
  {
    var sim;
    sim, cursor := SimulateLoop(YearIndex(year), Simulator(year, sines), s, base);
    SimulatorRows(YearIndex(year), year, sines, PerRow(s), base);
    var boosted := BoostLoop(sim);
    frame := AddYearColumn(RoundColumns(ClipColumns(boosted)), year);
  }

  /** Appending the next year's rows to the rows of the years so far gives the rows of the years up to it. */
  lemma TabulateGrows<R>(startYear: int, year: int, f: (Timestamp, nat) -> R, all: seq<R>, frame: seq<R>)
    requires startYear <= year
    requires all == Tabulate(RangeIndex(startYear, year - 1), 0, f)
    requires frame == Tabulate(YearIndex(year), |all|, f)
    ensures all + frame == Tabulate(RangeIndex(startYear, year), 0, f)
  {
    TabulateAppend(RangeIndex(startYear, year - 1), YearIndex(year), 0, f);
    RangeIndexSnoc(startYear, year);
  }

  /** The frames of years start..year are those of start..year - 1 followed by the frame of `year`, numbered on. */
  lemma ConcatFramesSnoc(startYear: int, year: int, sines: Sines, draws: RowSource)
    requires startYear <= year
    ensures var before := ConcatFrames(startYear, year - 1, sines, draws, 0);
      ConcatFrames(startYear, year, sines, draws, 0) == before + YearFrame(year, sines, draws, |before|)
  {
    var f := RowMaker(sines, draws);
    var before := ConcatFrames(startYear, year - 1, sines, draws, 0);
    ConcatFramesTabulates(startYear, year - 1, sines, draws, 0);
    ConcatFramesTabulates(startYear, year, sines, draws, 0);
    YearFrameTabulates(year, sines, draws, |before|);
    TabulateGrows(startYear, year, f, before, YearFrame(year, sines, draws, |before|));
  }

  /** One turn of the year loop: the frame of `year` built and appended to the frames of the years before it. */
  method AppendYear(startYear: int, year: int, sines: Sines, s: Stream, all: seq<Row>) returns (all': seq<Row>, cursor: nat)
    requires startYear <= year
    requires all == ConcatFrames(startYear, year - 1, sines, PerRow(s), 0)
    ensures all' == ConcatFrames(startYear, year, sines, PerRow(s), 0)
    ensures cursor == 4 * |all'|
  {
    var frame;
    frame, cursor := YearFrameLoop(year, sines, s, |all|);
    ConcatFramesSnoc(startYear, year, sines, PerRow(s));
    all' := all + frame;
  }

  /** After the year loop: no frame means the failed concatenation, otherwise the frames of the whole range. */
  lemma GenerateOfFrames(startYear: int, endYear: int, sines: Sines, s: Stream, frames: int, all: seq<Row>)
    requires frames == 0 <==> startYear > endYear
    requires frames != 0 ==> all == ConcatFrames(startYear, endYear, sines, PerRow(s), 0)
    ensures Generate(startYear, endYear, sines, s)
         == if frames == 0 then Failure(NoObjectsToConcatenate) else Success(all)
  {
  }

  /**
   * `generate_power_load_data` as the source runs it: the years in ascending
   * order, each frame built by its loops and passes and appended to a list,
   * the draws of the run consumed in row order; an empty list of frames
   * cannot be concatenated.
   */
  method GenerateLoop(startYear: int, endYear: int, sines: Sines, s: Stream)
    returns (r: Result<seq<Row>, GenerateError>)
    ensures r == Generate(startYear, endYear, sines, s)
  {
    var all: seq<Row> := [];
    var frames := 0;
    var year := startYear;
    while year <= endYear
      invariant year == startYear || startYear < year <= endYear + 1
      invariant frames == year - startYear
      invariant all == ConcatFrames(startYear, year - 1, sines, PerRow(s), 0)
      decreases endYear - year
    {
      var cursor;
      all, cursor := AppendYear(startYear, year, sines, s, all);
      frames, year := frames + 1, year + 1;
    }
    if frames == 0 {
      r := Failure(NoObjectsToConcatenate);
    } else {
      r := Success(all);
    }
    GenerateOfFrames(startYear, endYear, sines, s, frames, all);
  }

  /** With a seed the run does not depend on the generator's earlier state: same seed and range, same table. */
  lemma SeededRunReproducible(startYear: int, endYear: int, seed: int, sines: Sines,
                              seeded: int -> Stream, ambient1: Stream, ambient2: Stream)
    ensures GenerateWithSeed(startYear, endYear, Some(seed), sines, seeded, ambient1)
         == GenerateWithSeed(startYear, endYear, Some(seed), sines, seeded, ambient2)
    ensures ValidSeed(seed) ==>
      GenerateWithSeed(startYear, endYear, Some(seed), sines, seeded, ambient1)
        == Generate(startYear, endYear, sines, seeded(seed))
  {
  }
}
