/**
 * Proleptic Gregorian calendar arithmetic behind the hourly timestamp index:
 * leap years, day of year, the ordinal day number and weekday in the
 * convention of Python's `datetime.date` (0001-01-01 is day 1, Monday is 0),
 * and the hourly range `pd.date_range(start, end, freq='H')`, whose end is
 * inclusive.
 */
module Calendar {

  type Month = m: int | 1 <= m <= 12 witness 1
  type Hour = h: int | 0 <= h <= 23 witness 0
  type Weekday = w: int | 0 <= w <= 6 witness 0

  predicate IsLeapYear(y: int) {
    y % 4 == 0 && (y % 100 != 0 || y % 400 == 0)
  }

  function DaysInYear(y: int): (n: int)
    ensures n == 365 || n == 366
    ensures n == 366 <==> IsLeapYear(y)
  {
    if IsLeapYear(y) then 366 else 365
  }

  function DaysInMonth(y: int, m: Month): (n: int)
    ensures 28 <= n <= 31
    ensures m == 2 ==> (n == 29 <==> IsLeapYear(y))
  {
    if m == 2 then (if IsLeapYear(y) then 29 else 28)
    else if m == 4 || m == 6 || m == 9 || m == 11 then 30
    else 31
  }

  /** Days in the months before month m of a common year (as Python's `_DAYS_BEFORE_MONTH`). */
  const CommonDaysBeforeMonth: seq<int> := [0, 31, 59, 90, 120, 151, 181, 212, 243, 273, 304, 334]

  /** Days of year y that lie before the first of month m. */
  function DaysBeforeMonth(y: int, m: Month): (n: int)
    ensures m == 1 ==> n == 0
  {
    CommonDaysBeforeMonth[m - 1] + (if m > 2 && IsLeapYear(y) then 1 else 0)
  }

  /** Each month starts where the one before it ends. */
  lemma MonthsTile(y: int, m: Month)
    requires m < 12
    ensures DaysBeforeMonth(y, m + 1) == DaysBeforeMonth(y, m) + DaysInMonth(y, m)
  {
  }

  /** December ends the year: the twelve months tile it. */
  lemma MonthsFillYear(y: int)
    ensures DaysBeforeMonth(y, 12) + DaysInMonth(y, 12) == DaysInYear(y)
  {
  }

  /** A later month starts no earlier than the end of an earlier one. */
  lemma {:induction false} MonthsOrdered(y: int, a: Month, b: Month)
    requires a < b
    ensures DaysBeforeMonth(y, a) + DaysInMonth(y, a) <= DaysBeforeMonth(y, b)
    decreases b - a
  {
    MonthsTile(y, b - 1);
    if a < b - 1 {
      MonthsOrdered(y, a, b - 1);
    }
  }

  datatype CivilDate = CivilDate(year: int, month: int, day: int)

  predicate ValidDate(d: CivilDate) {
    1 <= d.month <= 12 && 1 <= d.day <= DaysInMonth(d.year, d.month)
  }

  /** A calendar date that exists, as every date a datetime value can hold. */
  type Date = d: CivilDate | ValidDate(d) witness CivilDate(2024, 1, 1)

  /** A point on the hourly grid: a date and an hour of that day. */
  datatype Timestamp = Timestamp(date: Date, hour: Hour)

  /** `timetuple().tm_yday`: the 1-based position of a date in its year. */
  function DayOfYear(d: Date): (n: int)
    ensures 1 <= n <= DaysInYear(d.year)
  {
    MonthsFillYear(d.year);
    if d.month < 12 then MonthsOrdered(d.year, d.month, 12); DaysBeforeMonth(d.year, d.month) + d.day
    else DaysBeforeMonth(d.year, d.month) + d.day
  }

  lemma DayOfYearInjective(d1: Date, d2: Date)
    requires d1.year == d2.year && DayOfYear(d1) == DayOfYear(d2)
    ensures d1 == d2
  {
    if d1.month < d2.month {
      MonthsOrdered(d1.year, d1.month, d2.month);
    } else if d2.month < d1.month {
      MonthsOrdered(d1.year, d2.month, d1.month);
    }
  }

  /** The date whose day of year is DaysBeforeMonth(y, m) + rem, searched from month m on. */
  function DateFromMonth(y: int, m: Month, rem: int): (d: Date)
    requires 1 <= rem <= DaysInYear(y) - DaysBeforeMonth(y, m)
    ensures d.year == y && DayOfYear(d) == DaysBeforeMonth(y, m) + rem
    decreases 12 - m
  {
    if rem <= DaysInMonth(y, m) then
      CivilDate(y, m, rem)
    else
      MonthsFillYear(y);
      MonthsTile(y, m);
      DateFromMonth(y, m + 1, rem - DaysInMonth(y, m))
  }

  /** The n-th day (1-based) of year y. */
  function DateOfYearDay(y: int, n: int): (d: Date)
    requires 1 <= n <= DaysInYear(y)
    ensures d.year == y && DayOfYear(d) == n
  {
    DateFromMonth(y, 1, n)
  }

  lemma DayOfYearRoundTrip(d: Date)
    ensures DateOfYearDay(d.year, DayOfYear(d)) == d
  {
    DayOfYearInjective(DateOfYearDay(d.year, DayOfYear(d)), d);
  }

  /** Days in all years before year y, counted from 0001-01-01 (Python's `_days_before_year`). */
  function DaysBeforeYear(y: int): int {
    var z := y - 1;
    365 * z + z / 4 - z / 100 + z / 400
  }

  /** Each of the three leap-year counts grows by one exactly at a multiple of its period. */
  lemma LeapCountsStep(z: int)
    ensures (z + 1) / 4 == z / 4 + (if (z + 1) % 4 == 0 then 1 else 0)
    ensures (z + 1) / 100 == z / 100 + (if (z + 1) % 100 == 0 then 1 else 0)
    ensures (z + 1) / 400 == z / 400 + (if (z + 1) % 400 == 0 then 1 else 0)
  {
  }

  /** Consecutive years are adjacent on the day line: year y occupies exactly DaysInYear(y) days. */
  lemma YearStep(y: int)
    ensures DaysBeforeYear(y + 1) == DaysBeforeYear(y) + DaysInYear(y)
  {
    LeapCountsStep(y - 1);
    MultiplesNest(y);
  }

  /** A multiple of 400 is a multiple of 100, and a multiple of 100 one of 4. */
  lemma MultiplesNest(x: int)
    ensures x % 400 == 0 ==> x % 100 == 0
    ensures x % 100 == 0 ==> x % 4 == 0
  {
    if x % 400 == 0 {
      var q := x / 400;
      assert x == 100 * (4 * q);
    }
    if x % 100 == 0 {
      var q := x / 100;
      assert x == 4 * (25 * q);
    }
  }

  lemma {:induction false} DaysBeforeYearMonotone(a: int, b: int)
    requires a <= b
    ensures DaysBeforeYear(a) + 365 * (b - a) <= DaysBeforeYear(b)
    decreases b - a
  {
    if a < b {
      DaysBeforeYearMonotone(a, b - 1);
      YearStep(b - 1);
    }
  }

  /** The proleptic Gregorian ordinal of a date (`date.toordinal()`): 0001-01-01 is 1. */
  function Ordinal(d: Date): (n: int)
    ensures DaysBeforeYear(d.year) < n <= DaysBeforeYear(d.year + 1)
  {
    YearStep(d.year);
    DaysBeforeYear(d.year) + DayOfYear(d)
  }

  lemma OrdinalInjective(d1: Date, d2: Date)
    requires Ordinal(d1) == Ordinal(d2)
    ensures d1 == d2
  {
    if d1.year < d2.year {
      DaysBeforeYearMonotone(d1.year + 1, d2.year);
    } else if d2.year < d1.year {
      DaysBeforeYearMonotone(d2.year + 1, d1.year);
    } else {
      DayOfYearInjective(d1, d2);
    }
  }

  /** `date.weekday()`: Monday is 0 and Sunday is 6. */
  function WeekdayOf(d: Date): Weekday {
    (Ordinal(d) + 6) % 7
  }

  /** The calendar day after d. */
  function NextDay(d: Date): (r: Date)
    ensures Ordinal(r) == Ordinal(d) + 1
  {
    if d.day < DaysInMonth(d.year, d.month) then
      CivilDate(d.year, d.month, d.day + 1)
    else if d.month < 12 then
      MonthsTile(d.year, d.month);
      CivilDate(d.year, d.month + 1, 1)
    else
      YearStep(d.year);
      MonthsFillYear(d.year);
      CivilDate(d.year + 1, 1, 1)
  }

  /** The weekday advances by one, cyclically, from each day to the next. */
  lemma WeekdayAdvances(d: Date)
    ensures WeekdayOf(NextDay(d)) == (WeekdayOf(d) + 1) % 7
  {
    CyclicStep(Ordinal(d) + 6);
  }

  lemma CyclicStep(k: int)
    ensures (k + 1) % 7 == (k % 7 + 1) % 7
  {
  }

  /** Anchor of the ordinal: 0001-01-01 is day 1, a Monday. */
  lemma OrdinalOrigin()
    ensures Ordinal(CivilDate(1, 1, 1)) == 1
    ensures WeekdayOf(CivilDate(1, 1, 1)) == 0
  {
    var d := CivilDate(1, 1, 1);
    assert DaysBeforeYear(1) == 0;
    assert DayOfYear(d) == 1;
    assert Ordinal(d) == 1;
  }

  /** Anchors of the weekday convention: 2024-01-01 was a Monday and 2023-01-01 a Sunday. */
  lemma WeekdayAnchors()
    ensures WeekdayOf(CivilDate(2024, 1, 1)) == 0
    ensures WeekdayOf(CivilDate(2023, 1, 1)) == 6
  {
    var d1, d2 := CivilDate(2024, 1, 1), CivilDate(2023, 1, 1);
    assert DayOfYear(d1) == 1 && DayOfYear(d2) == 1;
    assert DaysBeforeYear(2024) == 738885;
    assert DaysBeforeYear(2023) == 738520;
    assert Ordinal(d1) == 738886;
    assert Ordinal(d2) == 738521;
  }

  /** Hours elapsed since 0001-01-01 00:00, shifted by one day; only differences matter. */
  function HourNumber(t: Timestamp): int {
    Ordinal(t.date) * 24 + t.hour
  }

  lemma HourNumberInjective(t1: Timestamp, t2: Timestamp)
    requires HourNumber(t1) == HourNumber(t2)
    ensures t1 == t2
  {
    var o1, o2 := Ordinal(t1.date), Ordinal(t2.date);
    assert o1 * 24 + t1.hour == o2 * 24 + t2.hour;
    assert o1 == o2;
    OrdinalInjective(t1.date, t2.date);
  }

  /** No two timestamps share an hour number. */
  lemma HourNumbersDistinct()
    ensures forall t1, t2 :: HourNumber(t1) == HourNumber(t2) ==> t1 == t2
  {
    forall t1, t2 | HourNumber(t1) == HourNumber(t2)
      ensures t1 == t2
    {
      HourNumberInjective(t1, t2);
    }
  }

  /** The timestamp one hour after t. */
  function NextHour(t: Timestamp): (r: Timestamp)
    ensures HourNumber(r) == HourNumber(t) + 1
  {
    if t.hour < 23 then Timestamp(t.date, t.hour + 1) else Timestamp(NextDay(t.date), 0)
  }

  /** n values of a walk that applies `next` after each step, starting at `start`. */
  function Walk<T>(next: T -> T, start: T, n: nat): (r: seq<T>)
    ensures |r| == n
    decreases n
  {
    if n == 0 then [] else [start] + Walk(next, next(start), n - 1)
  }

  /** If every step adds one to a numbering, step i of the walk is numbered i above its start. */
  lemma {:induction false} WalkCounts<T>(next: T -> T, num: T -> int, start: T, n: nat)
    requires forall t :: num(next(t)) == num(t) + 1
    ensures forall i :: 0 <= i < n ==> num(Walk(next, start, n)[i]) == num(start) + i
    decreases n
  {
    if n > 0 {
      WalkCounts(next, num, next(start), n - 1);
      var r := Walk(next, start, n);
      assert r == [start] + Walk(next, next(start), n - 1);
      forall i | 1 <= i < n
        ensures num(r[i]) == num(start) + i
      {
        assert r[i] == Walk(next, next(start), n - 1)[i - 1];
      }
    }
  }

  /** With an injective numbering, the walk holds exactly the values numbered within its n steps. */
  lemma WalkCovers<T(!new)>(next: T -> T, num: T -> int, start: T, n: nat)
    requires forall t :: num(next(t)) == num(t) + 1
    requires forall t1, t2 :: num(t1) == num(t2) ==> t1 == t2
    ensures forall t :: t in Walk(next, start, n) <==> num(start) <= num(t) < num(start) + n
  {
    var r := Walk(next, start, n);
    WalkCounts(next, num, start, n);
    forall t | num(start) <= num(t) < num(start) + n
      ensures t in r
    {
      var i := num(t) - num(start);
      assert num(r[i]) == num(t);
      assert r[i] == t;
    }
  }

  /**
   * `pd.date_range(start, end, freq='H')`: every hour from start to end, both
   * included, in increasing order.
   */
  function HourlyRange(start: Timestamp, end: Timestamp): (r: seq<Timestamp>)
    ensures forall i :: 0 <= i < |r| ==> HourNumber(r[i]) == HourNumber(start) + i
    ensures forall t {:trigger t in r} :: t in r <==> HourNumber(start) <= HourNumber(t) <= HourNumber(end)
  {
    var n := if HourNumber(end) < HourNumber(start) then 0 else HourNumber(end) - HourNumber(start) + 1;
    HourNumbersDistinct();
    WalkCounts(NextHour, HourNumber, start, n);
    WalkCovers(NextHour, HourNumber, start, n);
    Walk(NextHour, start, n)
  }

  /** The hourly index of one year as the generator builds it: from Jan 1 00:00 to Dec 31 00:00. */
  function YearIndex(y: int): seq<Timestamp> {
    HourlyRange(Timestamp(CivilDate(y, 1, 1), 0), Timestamp(CivilDate(y, 12, 31), 0))
  }

  /** Hour numbers of the two ends of a year's index: Jan 1 00:00 and Dec 31 00:00. */
  lemma YearEnds(y: int)
    ensures HourNumber(Timestamp(CivilDate(y, 1, 1), 0)) == (DaysBeforeYear(y) + 1) * 24
    ensures HourNumber(Timestamp(CivilDate(y, 12, 31), 0)) == (DaysBeforeYear(y) + DaysInYear(y)) * 24
  {
    MonthsFillYear(y);
    assert DayOfYear(CivilDate(y, 12, 31)) == DaysInYear(y);
  }

  /** A year's index holds (DaysInYear - 1) * 24 + 1 rows. */
  lemma YearIndexLength(y: int)
    ensures |YearIndex(y)| == (DaysInYear(y) - 1) * 24 + 1
  {
    var last := Timestamp(CivilDate(y, 12, 31), 0);
    var r := YearIndex(y);
    YearEnds(y);
    assert last in r;
    var j :| 0 <= j < |r| && r[j] == last;
  }

  /** Row k of a year's index falls on day k / 24 + 1 of the year at hour k % 24. */
  lemma YearIndexAt(y: int, k: int)
    requires 0 <= k < |YearIndex(y)|
    ensures YearIndex(y)[k] == Timestamp(DateOfYearDay(y, k / 24 + 1), k % 24)
  {
    YearIndexLength(y);
    YearEnds(y);
    var t := Timestamp(DateOfYearDay(y, k / 24 + 1), k % 24);
    assert HourNumber(t) == (DaysBeforeYear(y) + k / 24 + 1) * 24 + k % 24;
    HourNumberInjective(YearIndex(y)[k], t);
  }

  /**
   * Shape of one year's index: (DaysInYear - 1) * 24 + 1 rows; row k falls on
   * day k / 24 + 1 of the year at hour k % 24; so it opens at Jan 1 00:00 and
   * closes at Dec 31 00:00, the only hour of Dec 31 it holds.
   */
  lemma YearIndexShape(y: int)
    ensures |YearIndex(y)| == (DaysInYear(y) - 1) * 24 + 1
    ensures forall k :: 0 <= k < |YearIndex(y)| ==>
      YearIndex(y)[k] == Timestamp(DateOfYearDay(y, k / 24 + 1), k % 24)
    ensures YearIndex(y)[0] == Timestamp(CivilDate(y, 1, 1), 0)
    ensures YearIndex(y)[|YearIndex(y)| - 1] == Timestamp(CivilDate(y, 12, 31), 0)
  {
    YearIndexLength(y);
    forall k | 0 <= k < |YearIndex(y)|
      ensures YearIndex(y)[k] == Timestamp(DateOfYearDay(y, k / 24 + 1), k % 24)
    {
      YearIndexAt(y, k);
    }
    YearIndexFirst(y);
    YearIndexLast(y);
  }

  /** The first row of a year's index is Jan 1 00:00. */
  lemma YearIndexFirst(y: int)
    ensures |YearIndex(y)| > 0 && YearIndex(y)[0] == Timestamp(CivilDate(y, 1, 1), 0)
  {
    YearIndexLength(y);
    HourNumberInjective(YearIndex(y)[0], Timestamp(CivilDate(y, 1, 1), 0));
  }

  /** The last row of a year's index is Dec 31 00:00. */
  lemma YearIndexLast(y: int)
    ensures |YearIndex(y)| > 0 && YearIndex(y)[|YearIndex(y)| - 1] == Timestamp(CivilDate(y, 12, 31), 0)
  {
    var r := YearIndex(y);
    YearIndexLength(y);
    YearEnds(y);
    assert HourNumber(r[|r| - 1]) == HourNumber(Timestamp(CivilDate(y, 1, 1), 0)) + |r| - 1;
    HourNumberInjective(r[|r| - 1], Timestamp(CivilDate(y, 12, 31), 0));
  }

  /** Every timestamp of year y's index lies in year y, k hours after Jan 1 00:00. */
  lemma YearIndexHours(y: int)
    ensures forall k :: 0 <= k < |YearIndex(y)| ==>
      YearIndex(y)[k].date.year == y && HourNumber(YearIndex(y)[k]) == (DaysBeforeYear(y) + 1) * 24 + k
  {
    YearEnds(y);
    forall k | 0 <= k < |YearIndex(y)|
      ensures YearIndex(y)[k].date.year == y
    {
      YearIndexAt(y, k);
    }
  }

  /** The blocks of the keys y..end laid end to end. */
  function Blocks<T>(block: int -> seq<T>, y: int, end: int): seq<T>
    decreases end - y
  {
    if y > end then [] else block(y) + Blocks(block, y + 1, end)
  }

  /** The blocks of y..end are those of y..end-1 followed by the block of `end`. */
  lemma {:induction false} BlocksSnoc<T>(block: int -> seq<T>, y: int, end: int)
    requires y <= end
    ensures Blocks(block, y, end) == Blocks(block, y, end - 1) + block(end)
    decreases end - y
  {
    if y < end {
      BlocksSnoc(block, y + 1, end);
      assert Blocks(block, y, end - 1) == block(y) + Blocks(block, y + 1, end - 1);
    } else {
      assert Blocks(block, y + 1, end) == [] && Blocks(block, y, end - 1) == [];
    }
  }

  /** The timestamp column of the years y..end, each year's index after the previous one. */
  function RangeIndex(y: int, end: int): seq<Timestamp> {
    Blocks(YearIndex, y, end)
  }

  /** The index of years y..end is the index of years y..end-1 followed by the year `end`. */
  lemma RangeIndexSnoc(y: int, end: int)
    requires y <= end
    ensures RangeIndex(y, end) == RangeIndex(y, end - 1) + YearIndex(end)
  {
    BlocksSnoc(YearIndex, y, end);
  }

  /** Row count of the years y..end: (DaysInYear - 1) * 24 + 1 per year. */
  function RowsInYears(y: int, end: int): (n: nat)
    ensures y <= end ==> n >= 8737 * (end - y + 1)
    decreases end - y
  {
    if y > end then 0 else (DaysInYear(y) - 1) * 24 + 1 + RowsInYears(y + 1, end)
  }

  lemma {:induction false} RangeIndexLength(y: int, end: int)
    ensures |RangeIndex(y, end)| == RowsInYears(y, end)
    decreases end - y
  {
    if y <= end {
      YearIndexLength(y);
      RangeIndexLength(y + 1, end);
    }
  }

  /** Every row of the index of years y..end lies in one of those years, no earlier than Jan 1 00:00 of y. */
  lemma {:induction false} RangeIndexBounds(y: int, end: int)
    ensures forall i :: 0 <= i < |RangeIndex(y, end)| ==>
      y <= RangeIndex(y, end)[i].date.year <= end &&
      HourNumber(RangeIndex(y, end)[i]) >= (DaysBeforeYear(y) + 1) * 24
    decreases end - y
  {
    if y <= end {
      var head, tail := YearIndex(y), RangeIndex(y + 1, end);
      var r := RangeIndex(y, end);
      assert r == head + tail;
      YearIndexHours(y);
      RangeIndexBounds(y + 1, end);
      YearStep(y);
      forall i | |head| <= i < |r|
        ensures y <= r[i].date.year <= end && HourNumber(r[i]) >= (DaysBeforeYear(y) + 1) * 24
      {
        assert r[i] == tail[i - |head|];
      }
    }
  }

  /**
   * Consecutive rows of one year are one hour apart; across a year boundary
   * the index skips from Dec 31 00:00 to Jan 1 00:00, 24 hours.
   */
  lemma {:induction false} RangeIndexSteps(y: int, end: int)
    ensures forall i :: 0 <= i < |RangeIndex(y, end)| - 1 ==>
      HourNumber(RangeIndex(y, end)[i + 1]) - HourNumber(RangeIndex(y, end)[i]) ==
        (if RangeIndex(y, end)[i + 1].date.year == RangeIndex(y, end)[i].date.year then 1 else 24)
    decreases end - y
  {
    if y <= end {
      var head, tail := YearIndex(y), RangeIndex(y + 1, end);
      var r := RangeIndex(y, end);
      assert r == head + tail;
      YearIndexLength(y);
      YearIndexHours(y);
      RangeIndexSteps(y + 1, end);
      var n := |head|;
      assert HourNumber(head[n - 1]) == (DaysBeforeYear(y) + DaysInYear(y)) * 24;
      if |tail| > 0 {
        YearIndexHours(y + 1);
        YearStep(y);
        assert tail[0] == YearIndex(y + 1)[0];
      }
      forall i | 0 <= i < |r| - 1
        ensures HourNumber(r[i + 1]) - HourNumber(r[i]) ==
          (if r[i + 1].date.year == r[i].date.year then 1 else 24)
      {
        if i + 1 == n {
          assert r[i + 1] == tail[0];
        } else if n < i + 1 {
          assert r[i] == tail[i - n] && r[i + 1] == tail[i - n + 1];
        }
      }
    }
  }

  /** A sequence whose every step goes up is strictly increasing. */
  lemma {:induction false} IncreasingFromSteps(a: seq<int>)
    requires forall i :: 0 <= i < |a| - 1 ==> a[i] < a[i + 1]
    ensures forall i, j :: 0 <= i < j < |a| ==> a[i] < a[j]
  {
    if |a| > 1 {
      IncreasingFromSteps(a[1..]);
      forall i, j | 0 <= i < j < |a|
        ensures a[i] < a[j]
      {
        if 0 < i {
          assert a[i] == a[1..][i - 1] && a[j] == a[1..][j - 1];
        } else if 1 < j {
          assert a[1] == a[1..][0] && a[j] == a[1..][j - 1];
        }
      }
    }
  }

  /** The timestamp column of years y..end is strictly increasing, so no timestamp repeats. */
  lemma RangeIndexIncreasing(y: int, end: int)
    ensures forall i, j :: 0 <= i < j < |RangeIndex(y, end)| ==>
      HourNumber(RangeIndex(y, end)[i]) < HourNumber(RangeIndex(y, end)[j])
  {
    var r := RangeIndex(y, end);
    var hours := seq(|r|, i requires 0 <= i < |r| => HourNumber(r[i]));
    assert forall i :: 0 <= i < |hours| - 1 ==> hours[i] < hours[i + 1] by {
      RangeIndexSteps(y, end);
    }
    IncreasingFromSteps(hours);
    assert forall i :: 0 <= i < |r| ==> hours[i] == HourNumber(r[i]);
  }
}
