/**
 * The fixed national-holiday table and the per-row holiday flag, which
 * compares the calendar date of a timestamp (its time of day dropped) with the
 * holiday dates of the year being generated.
 */
module Holidays {
  import opened Calendar

  /** (month, day) of the nine holidays, in the order the generator lists them. */
  const HolidayDays: seq<(int, int)> :=
    [(1, 1), (1, 7), (3, 8), (5, 1), (5, 9), (6, 28), (8, 24), (10, 14), (12, 25)]

  /**
   * The holidays of `year` as midnight timestamps, as `pd.to_datetime` parses
   * the date strings. The dates are written out again, as the source writes
   * them, and the contract checks them against `HolidayDays` one by one.
   */
  function HolidayTimestamps(year: int): (r: seq<Timestamp>)
    ensures |r| == |HolidayDays| == 9
    ensures forall i :: 0 <= i < |r| ==>
      r[i].hour == 0 && r[i].date.year == year && (r[i].date.month, r[i].date.day) == HolidayDays[i]
  {
    [ Timestamp(CivilDate(year, 1, 1), 0), Timestamp(CivilDate(year, 1, 7), 0),
      Timestamp(CivilDate(year, 3, 8), 0), Timestamp(CivilDate(year, 5, 1), 0),
      Timestamp(CivilDate(year, 5, 9), 0), Timestamp(CivilDate(year, 6, 28), 0),
      Timestamp(CivilDate(year, 8, 24), 0), Timestamp(CivilDate(year, 10, 14), 0),
      Timestamp(CivilDate(year, 12, 25), 0) ]
  }

  /** `timestamp.normalize()`: the same date at midnight. */
  function Normalize(t: Timestamp): (r: Timestamp)
    ensures r.date == t.date && r.hour == 0
  {
    Timestamp(t.date, 0)
  }

  /** The `is_holiday` value of a row with timestamp t in the block of `year`. */
  function HolidayFlag(t: Timestamp, year: int): (flag: int)
    ensures flag == 0 || flag == 1
    ensures flag == 1 <==> t.date.year == year && (t.date.month, t.date.day) in HolidayDays
  {
    if Normalize(t) in HolidayTimestamps(year) then 1 else 0
  }

  /** The flag depends on the calendar date only, never on the hour. */
  lemma HolidayFlagIgnoresHour(d: Date, h1: Hour, h2: Hour, year: int)
    ensures HolidayFlag(Timestamp(d, h1), year) == HolidayFlag(Timestamp(d, h2), year)
  {
  }

  /** The nine holiday dates of a year are pairwise distinct. */
  lemma HolidaysDistinct(year: int)
    ensures forall i, j :: 0 <= i < j < 9 ==> HolidayTimestamps(year)[i] != HolidayTimestamps(year)[j]
  {
  }

  /** Every holiday falls before Dec 31, so it lies inside the year's hourly index with all 24 hours. */
  lemma HolidaysBeforeLastDay(year: int)
    ensures forall i :: 0 <= i < 9 ==>
      DayOfYear(HolidayTimestamps(year)[i].date) < DaysInYear(year)
  {
    var hs := HolidayTimestamps(year);
    forall i | 0 <= i < 9
      ensures DayOfYear(hs[i].date) < DaysInYear(year)
    {
      var d := hs[i].date;
      MonthsFillYear(year);
      if d.month < 12 {
        MonthsOrdered(year, d.month, 12);
      }
    }
  }
}
