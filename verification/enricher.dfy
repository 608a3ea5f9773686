/**
 * The enrichment pass run before analysis: calendar columns derived from each
 * row's timestamp (date, month, Ukrainian month name and its ordering number,
 * quarter, hour, Ukrainian weekday name) and a day type derived from its
 * holiday flag. The pass only adds columns; the generated ones are kept.
 */
module Enricher {
  import opened Wrappers
  import opened Calendar
  import opened Holidays
  import opened Generator

  /** Ukrainian month names, keyed by month number. */
  const MonthNamesUa: map<int, string> := map[
    1 := "Січень", 2 := "Лютий", 3 := "Березень", 4 := "Квітень",
    5 := "Травень", 6 := "Червень", 7 := "Липень", 8 := "Серпень",
    9 := "Вересень", 10 := "Жовтень", 11 := "Листопад", 12 := "Грудень"]

  /** The ordering number of each Ukrainian month name, used to sort by month. */
  const MonthOrder: map<string, int> := map[
    "Січень" := 1, "Лютий" := 2, "Березень" := 3, "Квітень" := 4,
    "Травень" := 5, "Червень" := 6, "Липень" := 7, "Серпень" := 8,
    "Вересень" := 9, "Жовтень" := 10, "Листопад" := 11, "Грудень" := 12]

  /** Ukrainian weekday names, keyed by the English names pandas' `day_name()` yields. */
  const DayNamesUa: map<string, string> := map[
    "Monday" := "Понеділок", "Tuesday" := "Вівторок", "Wednesday" := "Середа",
    "Thursday" := "Четвер", "Friday" := "П'ятниця", "Saturday" := "Субота", "Sunday" := "Неділя"]

  /** The two values of the day-type column. */
  const HolidayDay: string := "Свято"
  const WorkingDay: string := "Робочий"

  /** Every month number, and nothing else, has a Ukrainian name. */
  lemma MonthNamesCoverMonths()
    ensures forall m :: m in MonthNamesUa <==> 1 <= m <= 12
  {
  }

  /** The ordering number of a month's name gives the month back. */
  lemma MonthOrderInvertsNames()
    ensures forall m :: m in MonthNamesUa ==> MonthNamesUa[m] in MonthOrder && MonthOrder[MonthNamesUa[m]] == m
  {
  }

  /** The name of an ordering number is the name it was given for. */
  lemma MonthNamesInvertOrder()
    ensures forall n :: n in MonthOrder ==> MonthOrder[n] in MonthNamesUa && MonthNamesUa[MonthOrder[n]] == n
  {
  }

  /** `dt.day_name()`: the English name of a weekday, Monday being 0. */
  function EnglishDayName(w: Weekday): (name: string)
    ensures name in DayNamesUa
  {
    ["Monday", "Tuesday", "Wednesday", "Thursday", "Friday", "Saturday", "Sunday"][w]
  }

  /**
   * The Ukrainian weekday names from Monday to Sunday, written out a second
   * time on purpose: `UaDayName` checks the table above against this order.
   */
  const UaDayNames: seq<string> := ["Понеділок", "Вівторок", "Середа", "Четвер", "П'ятниця", "Субота", "Неділя"]

  /** The Ukrainian name of a weekday, through its English name. */
  function UaDayName(w: Weekday): (name: string)
    ensures name == UaDayNames[w]
  {
    DayNamesUa[EnglishDayName(w)]
  }

  lemma UaDayNamesDistinct()
    ensures forall i, j :: 0 <= i < j < |UaDayNames| ==> UaDayNames[i] != UaDayNames[j]
  {
  }

  /** The weekday-name column is a bijection between the seven weekdays and the seven names of the table. */
  lemma DayNamesBijective()
    ensures forall w1: Weekday, w2: Weekday :: UaDayName(w1) == UaDayName(w2) ==> w1 == w2
    ensures forall name :: name in DayNamesUa.Values <==> exists w: Weekday :: UaDayName(w) == name
  {
    UaDayNamesDistinct();
    forall name | name in DayNamesUa.Values
      ensures exists w: Weekday :: UaDayName(w) == name
    {
      var english :| english in DayNamesUa && DayNamesUa[english] == name;
      var w: Weekday :=
        if english == "Monday" then 0 else if english == "Tuesday" then 1
        else if english == "Wednesday" then 2 else if english == "Thursday" then 3
        else if english == "Friday" then 4 else if english == "Saturday" then 5 else 6;
      assert UaDayName(w) == name;
    }
    forall w: Weekday
      ensures UaDayName(w) in DayNamesUa.Values
    {
      assert EnglishDayName(w) in DayNamesUa;
    }
  }

  /** `dt.quarter`: months 1-3 are quarter 1, 4-6 quarter 2, and so on. */
  function Quarter(m: Month): (q: int)
    ensures 1 <= q <= 4
    ensures 3 * q - 2 <= m <= 3 * q
  {
    (m - 1) / 3 + 1
  }

  /** `'Свято' if is_holiday == 1 else 'Робочий'`. */
  function DayType(isHoliday: int): (s: string)
    ensures s == HolidayDay <==> isHoliday == 1
    ensures s == WorkingDay <==> isHoliday != 1
  {
    if isHoliday == 1 then HolidayDay else WorkingDay
  }

  /** The columns the pass adds to a row. */
  datatype Derived = Derived(
    date: Date, month: Month, monthName: string, monthOrder: int, quarter: int, hour: Hour,
    dayType: string, dayOfWeek: string)

  /** A row of the table being analysed: the generated columns and, once the pass has run, the added ones. */
  datatype Record = Record(row: Row, derived: Option<Derived>)

  /** The added columns of one row. */
  function Derive(r: Row): (d: Derived)
    ensures d.date == r.timestamp.date && d.month == r.timestamp.date.month && d.hour == r.timestamp.hour
    ensures MonthNamesUa[d.month] == d.monthName && d.monthOrder == d.month
    ensures 3 * d.quarter - 2 <= d.month <= 3 * d.quarter
    ensures d.dayType == HolidayDay <==> r.isHoliday == 1
    ensures r.isHoliday != 1 ==> d.dayType == WorkingDay
    ensures d.dayOfWeek == UaDayNames[WeekdayOf(r.timestamp.date)]
  {
    MonthNamesCoverMonths();
    MonthOrderInvertsNames();
    var t := r.timestamp;
    var name := MonthNamesUa[t.date.month];
    Derived(t.date, t.date.month, name, MonthOrder[name], Quarter(t.date.month), t.hour,
            DayType(r.isHoliday), UaDayName(WeekdayOf(t.date)))
  }

  /** `prepare_data`: every record gets (or gets again) the columns derived from its row. */
  function Prepare(table: seq<Record>): (r: seq<Record>)
    ensures |r| == |table|
    ensures forall i :: 0 <= i < |r| ==> r[i].row == table[i].row && r[i].derived == Some(Derive(table[i].row))
  {
    seq(|table|, i requires 0 <= i < |table| => Record(table[i].row, Some(Derive(table[i].row))))
  }

  /** A generated table before enrichment. */
  function Raw(rows: seq<Row>): (table: seq<Record>)
    ensures |table| == |rows|
    ensures forall i :: 0 <= i < |rows| ==> table[i].row == rows[i] && table[i].derived.None?
  {
    seq(|rows|, i requires 0 <= i < |rows| => Record(rows[i], None))
  }

  /** Running the pass twice gives what running it once gives. */
  lemma PrepareIdempotent(table: seq<Record>)
    ensures Prepare(Prepare(table)) == Prepare(table)
  {
  }

  /** The pass depends on the generated columns only: whatever was derived before is recomputed. */
  lemma PrepareIgnoresOldColumns(t1: seq<Record>, t2: seq<Record>)
    requires |t1| == |t2|
    requires forall i :: 0 <= i < |t1| ==> t1[i].row == t2[i].row
    ensures Prepare(t1) == Prepare(t2)
  {
  }

  /**
   * On a generated table the day type reads the calendar: a row is a holiday
   * exactly when its date is one of the nine holidays, and its quarter and
   * month ordering agree with its timestamp.
   */
  lemma EnrichedGeneratedTable(startYear: int, endYear: int, sines: Sines, s: Stream)
    requires startYear <= endYear
    ensures var rows := Generate(startYear, endYear, sines, s).value;
      var table := Prepare(Raw(rows));
      forall i :: 0 <= i < |table| ==>
        var d := table[i].derived.value;
        && (d.dayType == HolidayDay <==> (d.date.month, d.date.day) in HolidayDays)
        && d.monthOrder == d.month
        && startYear <= d.date.year <= endYear
  {
    GeneratedTable(startYear, endYear, sines, s);
  }
}
