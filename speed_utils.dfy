/** speed/utils.py: ISO week numbers, the dates of an ISO week, and the first and
    last day of a month, on `YYYY-MM-DD` text.

    The Python functions default their argument to the date the module was
    imported; here the argument is always passed. */
module SpeedUtils {
  import opened Wrappers
  import opened Exceptions
  import opened Calendar

  /** `get_week_number`: the ISO week of the date, counted from the Monday of
      week 1 of its ISO year. */
  function GetWeekNumber(dateString: string): (r: Result<int, Exc>)
    ensures r.Ok? <==> Parse(dateString).Ok?
    ensures r.Err? ==> r == Err(Parse(dateString).error)
    ensures r.Ok? ==> 1 <= r.value <= 53 && r.value == IsoCalendar(Parse(dateString).value).week
    ensures r.Ok? ==> var d := Parse(dateString).value;
      Ordinal(d) - Weekday(d) == IsoWeek1Monday(IsoCalendar(d).year) + 7 * (r.value - 1)
  {
    match Parse(dateString)
    case Err(e) => Err(e)
    case Ok(d) =>
      IsoWeekStart(d);
      Ok(IsoCalendar(d).week)
  }

  /** The Monday and Sunday of week `weekNumber` counted from the week holding
      4 January of `year`; week 0 and negative weeks count back, weeks past the
      year's last count on. */
  function WeekRange(year: int, weekNumber: int): (r: Result<(Date, Date), Exc>)
    ensures r.Ok? ==> Valid(r.value.0) && Valid(r.value.1)
    ensures r.Ok? ==> Weekday(r.value.0) == 0 && Ordinal(r.value.1) == Ordinal(r.value.0) + 6
    ensures r.Ok? ==> Ordinal(r.value.0) == IsoWeek1Monday(year) + 7 * (weekNumber - 1)
    ensures r.Ok? <==> (1 <= year <= MaxYear && -MaxDeltaDays <= 7 * (weekNumber - 1) <= MaxDeltaDays
                        && 1 <= IsoWeek1Monday(year) + 7 * (weekNumber - 1)
                        && IsoWeek1Monday(year) + 7 * (weekNumber - 1) + 6 <= MaxOrdinal)
  {
    var january4 := MakeDate(year, 1, 4);
    if january4.Err? then Err(january4.error)
    else
      Week1Start(year);
      var week1 := AddDays(january4.value, -Weekday(january4.value)).value;
      var start := AddDays(week1, 7 * (weekNumber - 1));
      if start.Err? then Err(start.error)
      else
        assert Weekday(start.value) == 0 by {
          MondayPlusWeeks(IsoWeek1Monday(year), weekNumber - 1);
          WeekdayOfOrdinal(start.value);
        }
        var end := AddDays(start.value, 6);
        if end.Err? then Err(end.error) else Ok((start.value, end.value))
  }

  lemma WeekdayOfOrdinal(d: Date)
    requires 1 <= d.month <= 12
    ensures Weekday(d) == (Ordinal(d) + 6) % 7
  {
  }

  /** For a valid year, 4 January minus its weekday is the week-1 Monday, a valid date. */
  lemma Week1Start(year: int)
    requires 1 <= year <= MaxYear
    ensures var january4 := Date(year, 1, 4);
      && Valid(january4)
      && Ordinal(january4) - Weekday(january4) == IsoWeek1Monday(year)
      && 1 <= IsoWeek1Monday(year) <= MaxOrdinal
      && (IsoWeek1Monday(year) + 6) % 7 == 0
  {
    var january4 := Date(year, 1, 4);
    Week1HoldsJanuary4(year);
    OrdinalRange(january4);
    if year > 1 {
      DaysBeforeYearMonotone(1, year);
    }
  }

  /** A whole number of weeks after a Monday is a Monday. */
  lemma MondayPlusWeeks(monday: int, weeks: int)
    requires (monday + 6) % 7 == 0
    ensures (monday + 7 * weeks + 6) % 7 == 0
  {
    assert monday + 7 * weeks + 6 == 7 * ((monday + 6) / 7 + weeks);
  }

  /** `get_week_number()` with its default argument, the text of the day the
      module was imported: that day's ISO week. */
  function DefaultWeekNumber(imported: Date): (n: int)
    requires Valid(imported)
    ensures n == IsoCalendar(imported).week
  {
    ParseFormat(imported);
    GetWeekNumber(Format(imported)).value
  }

  /** `get_start_end_of_week`: the week's Monday and Sunday as text. */
  function GetStartEndOfWeek(year: int, weekNumber: int): (r: Result<(string, string), Exc>)
    ensures r.Ok? <==> WeekRange(year, weekNumber).Ok?
    ensures r.Ok? ==> |r.value.0| == 10 && |r.value.1| == 10
    ensures r.Ok? ==> (Parse(r.value.0) == Ok(WeekRange(year, weekNumber).value.0)
                       && Parse(r.value.1) == Ok(WeekRange(year, weekNumber).value.1))
    ensures r.Ok? ==> r.value == (Format(WeekRange(year, weekNumber).value.0), Format(WeekRange(year, weekNumber).value.1))
    ensures r.Err? ==> r == Err(WeekRange(year, weekNumber).error)
  {
    match WeekRange(year, weekNumber)
    case Err(e) => Err(e)
    case Ok((start, end)) =>
      ParseFormat(start);
      ParseFormat(end);
      Ok((Format(start), Format(end)))
  }

  /** The week `GetStartEndOfWeek` gives for a date's own ISO year and week holds
      the date, from its Monday to its Sunday. */
  lemma WeekOfIsoCalendar(d: Date)
    requires Valid(d)
    requires 1 <= IsoCalendar(d).year <= MaxYear
    requires 7 <= Ordinal(d) <= MaxOrdinal - 7
    ensures WeekRange(IsoCalendar(d).year, IsoCalendar(d).week).Ok?
    ensures var (start, end) := WeekRange(IsoCalendar(d).year, IsoCalendar(d).week).value;
      Ordinal(start) <= Ordinal(d) <= Ordinal(end) && Ordinal(d) - Ordinal(start) == Weekday(d)
  {
    IsoWeekStart(d);
  }

  /** `get_first_day_of_month`: the same year and month, day 1. */
  function GetFirstDayOfMonth(dateString: string): (r: Result<string, Exc>)
    ensures r.Ok? <==> Parse(dateString).Ok?
    ensures r.Err? ==> r == Err(Parse(dateString).error)
    ensures r.Ok? ==> var d := Parse(dateString).value;
      |r.value| == 10 && Parse(r.value) == Ok(Date(d.year, d.month, 1))
    ensures r.Ok? ==> r.value == Format(Date(Parse(dateString).value.year, Parse(dateString).value.month, 1))
  {
    match Parse(dateString)
    case Err(e) => Err(e)
    case Ok(d) =>
      var first := AddDays(d, -(d.day - 1)).value;
      OrdinalInjective(first, Date(d.year, d.month, 1));
      ParseFormat(first);
      Ok(Format(first))
  }

  /** The month after year `y`, month `m`, as (year, month). */
  function MonthAfter(y: int, m: int): (int, int)
  {
    if m == 12 then (y + 1, 1) else (y, m + 1)
  }

  /** What `get_last_day_of_month` computes: the month's last day, or
      `OverflowError` in January of year 1 (whose day before the first does not
      exist) and December of 9999 (whose day after the last does not). */
  function LastDayOfMonth(dateString: string): (r: Result<string, Exc>)
    ensures r.Ok? ==> Parse(dateString).Ok?
    ensures r.Ok? ==> var d := Parse(dateString).value;
      && |r.value| == 10
      && Parse(r.value).Ok?
      && var last := Parse(r.value).value;
      && last.year == d.year && last.month == d.month && 28 <= last.day <= 31
      && Ordinal(last) < MaxOrdinal
      && (NextDay(last).year, NextDay(last).month) == MonthAfter(d.year, d.month)
    ensures r.Ok? ==> var d := Parse(dateString).value;
      Parse(r.value) == Ok(Date(d.year, d.month, DaysInMonth(d.year, d.month)))
    ensures r.Err? <==> Parse(dateString).Err? || (var d := Parse(dateString).value;
      (d.year == 1 && d.month == 1) || (d.year == MaxYear && d.month == 12))
  {
    match Parse(dateString)
    case Err(e) => Err(e)
    case Ok(d) => LastDayOf(d)
  }

  /** `LastDayOfMonth` once the text is parsed. */
  function LastDayOf(d: Date): (r: Result<string, Exc>)
    requires Valid(d)
    ensures r.Err? <==> (d.year == 1 && d.month == 1) || (d.year == MaxYear && d.month == 12)
    ensures r.Err? ==> r == Err(OverflowError(OutOfRange))
    ensures r.Ok? ==>
      && |r.value| == 10
      && Parse(r.value).Ok?
      && var last := Parse(r.value).value;
      && last.year == d.year && last.month == d.month && 28 <= last.day <= 31
      && Ordinal(last) < MaxOrdinal
      && (NextDay(last).year, NextDay(last).month) == MonthAfter(d.year, d.month)
    ensures r.Ok? ==> Parse(r.value) == Ok(Date(d.year, d.month, DaysInMonth(d.year, d.month)))
  {
    if (d.year == 1 && d.month == 1) || (d.year == MaxYear && d.month == 12) then
      Err(OverflowError(OutOfRange))
    else
      var last := Date(d.year, d.month, DaysInMonth(d.year, d.month));
      ParseFormat(last);
      LastOfMonthNotMax(last);
      Ok(Format(last))
  }

  /** Outside December 9999 a month's last day has a next day, and it is in the
      following month. */
  lemma LastOfMonthNotMax(last: Date)
    requires Valid(last) && last.day == DaysInMonth(last.year, last.month)
    requires !(last.year == MaxYear && last.month == 12)
    ensures Ordinal(last) < MaxOrdinal
    ensures (NextDay(last).year, NextDay(last).month) == MonthAfter(last.year, last.month)
  {
    OrdinalRange(last);
    if Ordinal(last) == MaxOrdinal {
      OrdinalInjective(last, Date(MaxYear, 12, 31));
    }
  }

  /** `date + timedelta(days=1)` is the next calendar day. */
  lemma AddOneDay(d: Date)
    requires Valid(d) && Ordinal(d) < MaxOrdinal
    ensures AddDays(d, 1) == Ok(NextDay(d))
  {
    OrdinalInjective(AddDays(d, 1).value, NextDay(d));
  }

  /** `get_last_day_of_month`: start 4 weeks after the day before the first of the
      month, step one day while still in the month, then step back one day. The
      loop starts on day 28 and runs at most 4 times. */
  method GetLastDayOfMonth(dateString: string) returns (r: Result<string, Exc>, ghost steps: nat)
    ensures r == LastDayOfMonth(dateString)
    ensures steps <= 4
  {
    var parsed := Parse(dateString);
    if parsed.Err? {
      return Err(parsed.error), 0;
    }
    r, steps := LastDayOfDate(parsed.value);
  }

  /** The steps of `get_last_day_of_month` after `strptime`. */
  method LastDayOfDate(date: Date) returns (r: Result<string, Exc>, ghost steps: nat)
    requires Valid(date)
    ensures r == LastDayOf(date)
    ensures steps <= 4
  {
    steps := 0;
    ghost var y, m := date.year, date.month;
    FirstOfMonth(date);
    var firstDay := AddDays(date, -(date.day - 1)).value;
    var dayBefore := AddDays(firstDay, -1);
    if dayBefore.Err? {
      assert y == 1 && m == 1 && dayBefore == Err(OverflowError(OutOfRange)) by {
        DayBeforeFirst(y, m);
      }
      LastDayOfValue(date);
      return Err(dayBefore.error), steps;
    }
    assert !(y == 1 && m == 1) by {
      DayBeforeFirst(y, m);
    }
    Day28(y, m);
    var lastDay := AddDays(dayBefore.value, 28).value;
    var after;
    after, steps := StepOutOfMonth(lastDay, firstDay.month);
    if after.Err? {
      LastDayOfValue(date);
      return Err(after.error), steps;
    }
    var result := AddDays(after.value, -1).value;
    LastDayOfValue(date);
    return Ok(Format(result)), steps;
  }

  /** The loop of `get_last_day_of_month`: from day 28 of month `month`, step one
      day while the day is still in that month. It ends on the first of the next
      month, whose day before is the month's last day, or fails in December 9999. */
  method StepOutOfMonth(start: Date, month: int) returns (r: Result<Date, Exc>, ghost steps: nat)
    requires Valid(start) && start.day == 28 && start.month == month
    ensures var lastOfMonth := Date(start.year, month, DaysInMonth(start.year, month));
      && (r.Err? <==> start.year == MaxYear && month == 12)
      && (r.Err? ==> r == Err(OverflowError(OutOfRange)))
      && (r.Ok? ==> Valid(r.value) && AddDays(r.value, -1) == Ok(lastOfMonth))
    ensures steps <= 4
  {
    ghost var y, m := start.year, start.month;
    ghost var lastOfMonth := Date(y, m, DaysInMonth(y, m));
    steps := 0;
    var lastDay := start;
    while lastDay.month == month
      invariant Valid(lastDay)
      invariant lastDay.month == m ==> InMonthTail(lastDay, y, m)
      invariant lastDay.month != m ==> Ordinal(lastOfMonth) < MaxOrdinal && lastDay == NextDay(lastOfMonth)
      invariant steps == Ordinal(lastDay) - Ordinal(start)
      decreases MaxOrdinal - Ordinal(lastDay)
    {
      var next := AddDays(lastDay, 1);
      if next.Err? {
        LastDayOfYear9999(lastDay);
        return next, steps;
      }
      TailStep(lastDay, y, m);
      lastDay := next.value;
      steps := steps + 1;
    }
    LoopExit(lastDay, y, m);
    return Ok(lastDay), steps;
  }

  /** The two values `LastDayOf` can take. */
  lemma LastDayOfValue(d: Date)
    requires Valid(d)
    ensures LastDayOf(d) == if (d.year == 1 && d.month == 1) || (d.year == MaxYear && d.month == 12)
      then Err(OverflowError(OutOfRange)) else Ok(Format(Date(d.year, d.month, DaysInMonth(d.year, d.month))))
  {
  }

  /** `date - timedelta(days=date.day - 1)` is the first of the month. */
  lemma FirstOfMonth(date: Date)
    requires Valid(date)
    ensures AddDays(date, -(date.day - 1)) == Ok(Date(date.year, date.month, 1))
  {
    OrdinalInjective(AddDays(date, -(date.day - 1)).value, Date(date.year, date.month, 1));
  }

  /** The day before the first of a month exists except in January of year 1. */
  lemma DayBeforeFirst(y: int, m: int)
    requires Valid(Date(y, m, 1))
    ensures AddDays(Date(y, m, 1), -1).Err? <==> y == 1 && m == 1
    ensures AddDays(Date(y, m, 1), -1).Err? ==> AddDays(Date(y, m, 1), -1) == Err(OverflowError(OutOfRange))
  {
    var first := Date(y, m, 1);
    if AddDays(first, -1).Err? {
      FirstDayOfYearOne(first);
    } else {
      assert Ordinal(Date(1, 1, 1)) == 1;
    }
  }

  /** 28 days after the day before the first of a month is day 28 of the month. */
  lemma Day28(y: int, m: int)
    requires Valid(Date(y, m, 1)) && AddDays(Date(y, m, 1), -1).Ok?
    ensures AddDays(AddDays(Date(y, m, 1), -1).value, 28) == Ok(Date(y, m, 28))
  {
    var before := AddDays(Date(y, m, 1), -1).value;
    assert Ordinal(before) + 28 == Ordinal(Date(y, m, 28));
    OrdinalRange(Date(y, m, 28));
    OrdinalInjective(AddDays(before, 28).value, Date(y, m, 28));
  }

  /** Leaving the loop, the day reached is the one after the month's last day,
      at most four days after day 28. */
  lemma LoopExit(d: Date, y: int, m: int)
    requires 1 <= m <= 12 && Valid(Date(y, m, DaysInMonth(y, m)))
    requires var lastOfMonth := Date(y, m, DaysInMonth(y, m));
      Ordinal(lastOfMonth) < MaxOrdinal && d == NextDay(lastOfMonth)
    ensures !(y == MaxYear && m == 12)
    ensures Valid(d) && AddDays(d, -1) == Ok(Date(y, m, DaysInMonth(y, m)))
    ensures Ordinal(d) - Ordinal(Date(y, m, 28)) <= 4
  {
    var lastOfMonth := Date(y, m, DaysInMonth(y, m));
    OrdinalInjective(AddDays(d, -1).value, lastOfMonth);
    assert Ordinal(Date(MaxYear, 12, 31)) == MaxOrdinal;
  }

  /** Day 28 or later of year `y`, month `m`. */
  ghost predicate InMonthTail(d: Date, y: int, m: int)
  {
    d.year == y && d.month == m && 1 <= m <= 12 && 28 <= d.day <= DaysInMonth(y, m)
  }

  /** The first of a month with no day before it is 0001-01-01. */
  lemma FirstDayOfYearOne(first: Date)
    requires Valid(first) && AddDays(first, -1).Err?
    ensures first == Date(1, 1, 1)
    ensures AddDays(first, -1) == Err(OverflowError(OutOfRange))
  {
    assert Ordinal(first) == 1 by {
      OrdinalRange(first);
    }
    OrdinalOne(first);
  }

  /** A date with no day after it is 9999-12-31. */
  lemma LastDayOfYear9999(d: Date)
    requires Valid(d) && AddDays(d, 1).Err?
    ensures d == Date(MaxYear, 12, 31)
    ensures AddDays(d, 1) == Err(OverflowError(OutOfRange))
  {
    OrdinalRange(d);
    OrdinalInjective(d, Date(MaxYear, 12, 31));
  }

  /** One step of the loop: the day after a tail day is the next tail day, or,
      when it leaves the month, the first day of the following month. */
  lemma TailStep(d: Date, y: int, m: int)
    requires Valid(d) && InMonthTail(d, y, m) && AddDays(d, 1).Ok?
    ensures var next, lastOfMonth := AddDays(d, 1).value, Date(y, m, DaysInMonth(y, m));
      && (next.month == m ==> InMonthTail(next, y, m))
      && (next.month != m ==> Ordinal(lastOfMonth) < MaxOrdinal && next == NextDay(lastOfMonth))
  {
    AddOneDay(d);
  }

  /** What `get_first_and_last_day_of_month` computes. */
  function FirstAndLastDayOfMonth(dateString: string): (r: Result<(string, string), Exc>)
    ensures r.Ok? ==> Parse(dateString).Ok?
    ensures r.Ok? ==> var d := Parse(dateString).value;
      && |r.value.0| == 10 && |r.value.1| == 10
      && Parse(r.value.0) == Ok(Date(d.year, d.month, 1))
      && Parse(r.value.1).Ok?
      && var last := Parse(r.value.1).value;
      && last.year == d.year && last.month == d.month && 1 < last.day
    ensures r.Ok? ==> var d := Parse(dateString).value;
      Parse(r.value.1) == Ok(Date(d.year, d.month, DaysInMonth(d.year, d.month)))
    ensures r.Err? <==> Parse(dateString).Err? || (var d := Parse(dateString).value;
      (d.year == 1 && d.month == 1) || (d.year == MaxYear && d.month == 12))
    ensures r.Err? ==> r.error == (if Parse(dateString).Err? then Parse(dateString).error else OverflowError(OutOfRange))
  {
    match GetFirstDayOfMonth(dateString)
    case Err(e) => Err(e)
    case Ok(first) =>
      match LastDayOfMonth(dateString)
      case Err(e) => Err(e)
      case Ok(last) => Ok((first, last))
  }

  /** `get_first_and_last_day_of_month`: the first day, then the last day, of the
      same month. */
  method GetFirstAndLastDayOfMonth(dateString: string) returns (r: Result<(string, string), Exc>)
    ensures r == FirstAndLastDayOfMonth(dateString)
  {
    var first := GetFirstDayOfMonth(dateString);
    if first.Err? {
      return Err(first.error);
    }
    var last;
    ghost var steps;
    last, steps := GetLastDayOfMonth(dateString);
    if last.Err? {
      return Err(last.error);
    }
    return Ok((first.value, last.value));
  }
}
