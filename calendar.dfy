/** The part of Python's `datetime` the report windows use: proleptic Gregorian
    dates of years 1 to 9999, day ordinals (`toordinal`), adding a number of days
    (`date + timedelta(days=n)`), `weekday`, `isocalendar`, the `YYYY-MM-DD` text
    of `isoformat()[:10]` and `strftime("%Y-%m-%d")`, and `strptime(s, "%Y-%m-%d")`. */
module Calendar {
  import opened Wrappers
  import Strings
  import opened Exceptions

  datatype Date = Date(year: int, month: int, day: int)

  const MaxYear := 9999
  /** `date.max.toordinal()`, the ordinal of 9999-12-31. */
  const MaxOrdinal := 3652059
  /** The largest day count a `timedelta` accepts. */
  const MaxDeltaDays := 999999999

  const OutOfRange := "date value out of range"

  predicate IsLeap(y: int)
  {
    y % 4 == 0 && (y % 100 != 0 || y % 400 == 0)
  }

  function DaysInMonth(y: int, m: int): (n: int)
    requires 1 <= m <= 12
    ensures 28 <= n <= 31
    ensures n == 28 <==> m == 2 && !IsLeap(y)
  {
    if m == 2 then (if IsLeap(y) then 29 else 28)
    else if m == 4 || m == 6 || m == 9 || m == 11 then 30
    else 31
  }

  /** A date `datetime.date` accepts. */
  predicate Valid(d: Date)
  {
    1 <= d.year <= MaxYear && 1 <= d.month <= 12 && 1 <= d.day <= DaysInMonth(d.year, d.month)
  }

  /** Days in the years before `y`. */
  function DaysBeforeYear(y: int): int
  {
    var p := y - 1;
    365 * p + p / 4 - p / 100 + p / 400
  }

  /** Days in year `y` before the first of month `m`. */
  function DaysBeforeMonth(y: int, m: int): int
    requires 1 <= m <= 12
  {
    [0, 31, 59, 90, 120, 151, 181, 212, 243, 273, 304, 334][m - 1]
      + (if m > 2 && IsLeap(y) then 1 else 0)
  }

  /** `toordinal`: 0001-01-01 is day 1. */
  function Ordinal(d: Date): int
    requires 1 <= d.month <= 12
  {
    DaysBeforeYear(d.year) + DaysBeforeMonth(d.year, d.month) + d.day
  }

  /** `weekday`: Monday is 0 and Sunday is 6. */
  function Weekday(d: Date): (w: int)
    requires 1 <= d.month <= 12
    ensures 0 <= w < 7
  {
    (Ordinal(d) + 6) % 7
  }

  // ------------------------------------------------------------ ordinals

  lemma DivStep4(p: int)
    ensures (p + 1) / 4 - p / 4 == if (p + 1) % 4 == 0 then 1 else 0
  {
  }

  lemma DivStep100(p: int)
    ensures (p + 1) / 100 - p / 100 == if (p + 1) % 100 == 0 then 1 else 0
  {
  }

  lemma DivStep400(p: int)
    ensures (p + 1) / 400 - p / 400 == if (p + 1) % 400 == 0 then 1 else 0
  {
  }

  /** A year has 365 days, 366 when it is a leap year. */
  lemma YearLength(y: int)
    ensures DaysBeforeYear(y + 1) - DaysBeforeYear(y) == if IsLeap(y) then 366 else 365
  {
    DivStep4(y - 1);
    DivStep100(y - 1);
    DivStep400(y - 1);
    CenturyDivides(y);
    var step := (if y % 4 == 0 then 1 else 0) - (if y % 100 == 0 then 1 else 0) + (if y % 400 == 0 then 1 else 0);
    assert DaysBeforeYear(y + 1) - DaysBeforeYear(y) == 365 + step;
    assert step == if IsLeap(y) then 1 else 0;
  }

  /** A multiple of 400 is a multiple of 100, and a multiple of 100 one of 4. */
  lemma CenturyDivides(y: int)
    ensures y % 400 == 0 ==> y % 100 == 0
    ensures y % 100 == 0 ==> y % 4 == 0
  {
    Multiple400(y);
    Multiple100(y);
  }

  lemma Multiple400(y: int)
    ensures y % 400 == 0 ==> y % 100 == 0
  {
    var q := y / 400;
    assert y == 400 * q + y % 400;
    assert y == 100 * (4 * q) + y % 400;
  }

  lemma Multiple100(y: int)
    ensures y % 100 == 0 ==> y % 4 == 0
  {
    var q := y / 100;
    assert y == 100 * q + y % 100;
    assert y == 4 * (25 * q) + y % 100;
  }

  lemma MonthLength(y: int, m: int)
    requires 1 <= m < 12
    ensures DaysBeforeMonth(y, m + 1) == DaysBeforeMonth(y, m) + DaysInMonth(y, m)
  {
  }

  lemma {:induction false} DaysBeforeYearMonotone(a: int, b: int)
    requires a <= b
    ensures DaysBeforeYear(a) + 365 * (b - a) <= DaysBeforeYear(b)
    decreases b - a
  {
    if a < b {
      YearLength(a);
      DaysBeforeYearMonotone(a + 1, b);
    }
  }

  /** A valid date's ordinal lies inside its year and inside its month. */
  lemma OrdinalBounds(d: Date)
    requires Valid(d)
    ensures DaysBeforeYear(d.year) < Ordinal(d) <= DaysBeforeYear(d.year + 1)
    ensures DaysBeforeMonth(d.year, d.month) < Ordinal(d) - DaysBeforeYear(d.year)
    ensures d.month < 12 ==> Ordinal(d) - DaysBeforeYear(d.year) <= DaysBeforeMonth(d.year, d.month + 1)
  {
    YearLength(d.year);
  }

  /** 0001-01-01 is the only date numbered 1. */
  lemma OrdinalOne(d: Date)
    requires Valid(d) && Ordinal(d) == 1
    ensures d == Date(1, 1, 1)
  {
    assert Valid(Date(1, 1, 1)) && Ordinal(Date(1, 1, 1)) == 1;
    OrdinalInjective(d, Date(1, 1, 1));
  }

  /** Valid dates are numbered from 1 to `MaxOrdinal`. */
  lemma OrdinalRange(d: Date)
    requires Valid(d)
    ensures 1 <= Ordinal(d) <= MaxOrdinal
  {
    OrdinalBounds(d);
    DaysBeforeYearMonotone(d.year + 1, MaxYear + 1);
    DaysBeforeYearMonotone(1, d.year);
  }

  lemma {:induction false} DaysBeforeMonthMonotone(y: int, a: int, b: int)
    requires 1 <= a <= b <= 12
    ensures DaysBeforeMonth(y, a) + 28 * (b - a) <= DaysBeforeMonth(y, b)
    decreases b - a
  {
    if a < b {
      MonthLength(y, a);
      DaysBeforeMonthMonotone(y, a + 1, b);
    }
  }

  /** Distinct valid dates have distinct ordinals. */
  lemma OrdinalInjective(a: Date, b: Date)
    requires Valid(a) && Valid(b)
    requires Ordinal(a) == Ordinal(b)
    ensures a == b
  {
    OrdinalBounds(a);
    OrdinalBounds(b);
    if a.year < b.year {
      DaysBeforeYearMonotone(a.year + 1, b.year);
      assert false;
    } else if b.year < a.year {
      DaysBeforeYearMonotone(b.year + 1, a.year);
      assert false;
    }
    if a.month < b.month {
      DaysBeforeMonthMonotone(a.year, a.month + 1, b.month);
      assert false;
    } else if b.month < a.month {
      DaysBeforeMonthMonotone(a.year, b.month + 1, a.month);
      assert false;
    }
  }

  // ------------------------------------------------------------ adding days

  function NextDay(d: Date): (r: Date)
    requires Valid(d) && Ordinal(d) < MaxOrdinal
    ensures Valid(r) && Ordinal(r) == Ordinal(d) + 1
  {
    if d.day < DaysInMonth(d.year, d.month) then Date(d.year, d.month, d.day + 1)
    else if d.month < 12 then
      MonthLength(d.year, d.month);
      Date(d.year, d.month + 1, 1)
    else
      YearLength(d.year);
      assert Ordinal(Date(MaxYear, 12, 31)) == MaxOrdinal;
      Date(d.year + 1, 1, 1)
  }

  function PrevDay(d: Date): (r: Date)
    requires Valid(d) && 1 < Ordinal(d)
    ensures Valid(r) && Ordinal(r) == Ordinal(d) - 1
  {
    if d.day > 1 then Date(d.year, d.month, d.day - 1)
    else if d.month > 1 then
      MonthLength(d.year, d.month - 1);
      Date(d.year, d.month - 1, DaysInMonth(d.year, d.month - 1))
    else
      YearLength(d.year - 1);
      assert DaysBeforeYear(1) == 0;
      Date(d.year - 1, 12, 31)
  }

  /** The date `n` days after `d` (before it when `n` is negative), one day at a time. */
  function Walk(d: Date, n: int): (r: Date)
    requires Valid(d) && 1 <= Ordinal(d) + n <= MaxOrdinal
    ensures Valid(r) && Ordinal(r) == Ordinal(d) + n
    decreases if n < 0 then -n else n
  {
    if n == 0 then d
    else if n > 0 then Walk(NextDay(d), n - 1)
    else Walk(PrevDay(d), n + 1)
  }

  /** `d + timedelta(days=n)`: `OverflowError` when the result leaves the years
      1 to 9999, and when `n` is beyond what a `timedelta` holds. */
  function AddDays(d: Date, n: int): (r: Result<Date, Exc>)
    requires Valid(d)
    ensures r.Ok? ==> Valid(r.value) && Ordinal(r.value) == Ordinal(d) + n
    ensures r.Ok? <==> -MaxDeltaDays <= n <= MaxDeltaDays && 1 <= Ordinal(d) + n <= MaxOrdinal
  {
    if n < -MaxDeltaDays || n > MaxDeltaDays then
      Err(OverflowError("days=" + Strings.IntToString(n) + "; must have magnitude <= 999999999"))
    else if 1 <= Ordinal(d) + n <= MaxOrdinal then Ok(Walk(d, n))
    else Err(OverflowError(OutOfRange))
  }

  /** Adding `n` days and then `-n` days gives back the date. */
  lemma AddDaysInverse(d: Date, n: int)
    requires Valid(d) && AddDays(d, n).Ok?
    ensures AddDays(AddDays(d, n).value, -n) == Ok(d)
  {
    OrdinalRange(d);
    var e := AddDays(d, n).value;
    OrdinalInjective(AddDays(e, -n).value, d);
  }

  /** Adding days one after the other is adding their sum. */
  lemma AddDaysAdd(d: Date, m: int, n: int)
    requires Valid(d) && AddDays(d, m).Ok? && AddDays(AddDays(d, m).value, n).Ok?
    requires -MaxDeltaDays <= m + n <= MaxDeltaDays
    ensures AddDays(d, m + n) == AddDays(AddDays(d, m).value, n)
  {
    OrdinalInjective(AddDays(d, m + n).value, AddDays(AddDays(d, m).value, n).value);
  }

  /** `date.fromordinal(n)`: the valid date with ordinal `n`. */
  function FromOrdinal(n: int): (d: Date)
    requires 1 <= n <= MaxOrdinal
    ensures Valid(d) && Ordinal(d) == n
  {
    assert DaysBeforeYear(1) == 0;
    Walk(Date(1, 1, 1), n - 1)
  }

  // ------------------------------------------------------------ ISO weeks

  /** The Monday of ISO week 1 of a year whose 1 January has ordinal `firstDay`:
      the Monday of the week holding 1 January, or the next one when 1 January falls
      after Thursday. */
  function MondayOfWeek1(firstDay: int): int
  {
    var firstWeekday := (firstDay + 6) % 7;
    var monday := firstDay - firstWeekday;
    if firstWeekday > 3 then monday + 7 else monday
  }

  /** `_isoweek1monday(y)`, as an ordinal. */
  function IsoWeek1Monday(y: int): int
  {
    MondayOfWeek1(DaysBeforeYear(y) + 1)
  }

  datatype IsoDate = IsoDate(year: int, week: int, weekday: int)

  /** `isocalendar()`, in the order of steps of Python's implementation. */
  function IsoCalendar(d: Date): IsoDate
    requires 1 <= d.month <= 12
  {
    IsoPlace(Ordinal(d), d.year, IsoWeek1Monday(d.year - 1), IsoWeek1Monday(d.year), IsoWeek1Monday(d.year + 1))
  }

  /** The steps of `isocalendar` for the day with ordinal `today` in `year`, given the
      week-1 Mondays of the year before, the year and the year after. */
  function IsoPlace(today: int, year: int, mondayBefore: int, monday: int, mondayAfter: int): IsoDate
  {
    var week := (today - monday) / 7;
    var day := (today - monday) % 7;
    if week < 0 then
      IsoDate(year - 1, (today - mondayBefore) / 7 + 1, (today - mondayBefore) % 7 + 1)
    else if week >= 52 && today >= mondayAfter then
      IsoDate(year + 1, 1, day + 1)
    else
      IsoDate(year, week + 1, day + 1)
  }

  /** The week-1 Monday is a Monday within three days of 1 January: the Monday on
      or before 4 January. */
  lemma MondayOfWeek1Arith(f: int)
    ensures (MondayOfWeek1(f) + 6) % 7 == 0
    ensures f - 3 <= MondayOfWeek1(f) <= f + 3
    ensures MondayOfWeek1(f) == (f + 3) - (f + 3 + 6) % 7
  {
    var fw := (f + 6) % 7;
    assert f + 6 == 7 * ((f + 6) / 7) + fw;
  }

  /** Two Mondays a year of 365 or 366 days apart are 52 or 53 weeks apart. */
  lemma MondaysApart(f: int, len: int)
    requires len == 365 || len == 366
    ensures MondayOfWeek1(f + len) - MondayOfWeek1(f) == 364
         || MondayOfWeek1(f + len) - MondayOfWeek1(f) == 371
  {
    MondayOfWeek1Arith(f);
    MondayOfWeek1Arith(f + len);
    var a := MondayOfWeek1(f);
    var b := MondayOfWeek1(f + len);
    assert a + 6 == 7 * ((a + 6) / 7);
    assert b + 6 == 7 * ((b + 6) / 7);
  }

  /** Counting days from a Monday gives the weekday: `(t - monday) % 7` is
      `(t + 6) % 7`. */
  lemma FromMonday(t: int, monday: int)
    requires (monday + 6) % 7 == 0
    ensures (t - monday) % 7 == (t + 6) % 7
    ensures t - monday == 7 * ((t - monday) / 7) + (t + 6) % 7
  {
    var k := (monday + 6) / 7;
    assert monday + 6 == 7 * k;
    assert t - monday == 7 * ((t + 6) / 7 - k) + (t + 6) % 7;
  }

  /** ISO week 1 starts on the Monday on or before 4 January: the week holding
      4 January. */
  lemma Week1HoldsJanuary4(y: int)
    ensures IsoWeek1Monday(y) == Ordinal(Date(y, 1, 4)) - Weekday(Date(y, 1, 4))
    ensures (IsoWeek1Monday(y) + 6) % 7 == 0
  {
    MondayOfWeek1Arith(DaysBeforeYear(y) + 1);
  }

  /** ISO years are 52 or 53 whole weeks long. */
  lemma IsoYearLength(y: int)
    ensures IsoWeek1Monday(y + 1) - IsoWeek1Monday(y) == 364
         || IsoWeek1Monday(y + 1) - IsoWeek1Monday(y) == 371
  {
    YearLength(y);
    MondaysApart(DaysBeforeYear(y) + 1, DaysBeforeYear(y + 1) - DaysBeforeYear(y));
  }

  /** The steps of `isocalendar` on plain numbers: a day of a year of `len` days
      starting on ordinal `f`, whose week-1 Mondays are within three days of each
      1 January and 52 or 53 weeks apart. */
  lemma IsoPlaceSound(t: int, year: int, len: int, f: int, mp: int, m0: int, m1: int)
    requires len == 365 || len == 366
    requires f <= t < f + len
    requires (mp + 6) % 7 == 0 && (m0 + 6) % 7 == 0 && (m1 + 6) % 7 == 0
    requires f - 3 <= m0 <= f + 3 && f + len - 3 <= m1 <= f + len + 3
    requires m0 - mp == 364 || m0 - mp == 371
    ensures var iso := IsoPlace(t, year, mp, m0, m1);
      && year - 1 <= iso.year <= year + 1
      && 1 <= iso.week <= 53
      && iso.weekday == (t + 6) % 7 + 1
      && t == (if iso.year == year - 1 then mp else if iso.year == year then m0 else m1)
              + 7 * (iso.week - 1) + (iso.weekday - 1)
  {
    FromMonday(t, m0);
    if (t - m0) / 7 < 0 {
      FromMonday(t, mp);
    } else if (t - m0) / 7 >= 52 && t >= m1 {
      FromMonday(t, m1);
    }
  }

  /** `isocalendar` places a date in week 1 to 53 of a neighbouring year: the day
      of the week is `weekday() + 1`, and the date is that many days into the week
      that starts `7 * (week - 1)` days after the year's week-1 Monday. */
  lemma IsoCalendarSound(d: Date)
    requires Valid(d)
    ensures var iso := IsoCalendar(d);
      && d.year - 1 <= iso.year <= d.year + 1
      && 1 <= iso.week <= 53
      && iso.weekday == (Ordinal(d) + 6) % 7 + 1
      && Ordinal(d) == IsoWeek1Monday(iso.year) + 7 * (iso.week - 1) + (iso.weekday - 1)
  {
    OrdinalBounds(d);
    IsoOfDate(d);
  }

  lemma IsoOfDate(d: Date)
    requires 1 <= d.month <= 12
    requires DaysBeforeYear(d.year) < Ordinal(d) <= DaysBeforeYear(d.year + 1)
    ensures var iso := IsoCalendar(d);
      && d.year - 1 <= iso.year <= d.year + 1
      && 1 <= iso.week <= 53
      && iso.weekday == (Ordinal(d) + 6) % 7 + 1
      && Ordinal(d) == IsoWeek1Monday(iso.year) + 7 * (iso.week - 1) + (iso.weekday - 1)
  {
    IsoOfOrdinal(d.year, Ordinal(d));
    IsoCalendarSteps(d);
  }

  lemma IsoCalendarSteps(d: Date)
    requires 1 <= d.month <= 12
    ensures IsoCalendar(d) == IsoPlace(Ordinal(d), d.year, IsoWeek1Monday(d.year - 1), IsoWeek1Monday(d.year), IsoWeek1Monday(d.year + 1))
  {
  }

  /** The ISO day of the week is `weekday() + 1`. */
  lemma IsoWeekday(d: Date)
    requires Valid(d)
    ensures IsoCalendar(d).weekday == Weekday(d) + 1
  {
    IsoCalendarSound(d);
    WeekdayFromOrdinal(d, IsoCalendar(d));
  }

  /** The same, for the day with ordinal `t` in year `y`. */
  lemma IsoOfOrdinal(y: int, t: int)
    requires DaysBeforeYear(y) < t <= DaysBeforeYear(y + 1)
    ensures var iso := IsoPlace(t, y, IsoWeek1Monday(y - 1), IsoWeek1Monday(y), IsoWeek1Monday(y + 1));
      && y - 1 <= iso.year <= y + 1
      && 1 <= iso.week <= 53
      && iso.weekday == (t + 6) % 7 + 1
      && t == IsoWeek1Monday(iso.year) + 7 * (iso.week - 1) + (iso.weekday - 1)
  {
    var f := DaysBeforeYear(y) + 1;
    var len := DaysBeforeYear(y + 1) - DaysBeforeYear(y);
    IsoYearFacts(y);
    IsoPlaceSound(t, y, len, f, IsoWeek1Monday(y - 1), IsoWeek1Monday(y), IsoWeek1Monday(y + 1));
  }

  /** The facts `IsoPlaceSound` needs about the week-1 Mondays around year `y`. */
  lemma IsoYearFacts(y: int)
    ensures var f, len := DaysBeforeYear(y) + 1, DaysBeforeYear(y + 1) - DaysBeforeYear(y);
      var mp, m0, m1 := IsoWeek1Monday(y - 1), IsoWeek1Monday(y), IsoWeek1Monday(y + 1);
      && (len == 365 || len == 366)
      && (mp + 6) % 7 == 0 && (m0 + 6) % 7 == 0 && (m1 + 6) % 7 == 0
      && f - 3 <= m0 <= f + 3 && f + len - 3 <= m1 <= f + len + 3
      && (m0 - mp == 364 || m0 - mp == 371)
  {
    YearLength(y);
    MondayOfWeek1Arith(DaysBeforeYear(y) + 1);
    MondayOfWeek1Arith(DaysBeforeYear(y + 1) + 1);
    MondayOfWeek1Arith(DaysBeforeYear(y - 1) + 1);
    IsoYearLength(y - 1);
  }

  /** The Monday of the week a date falls in is `7 * (week - 1)` days after the
      week-1 Monday of its ISO year. */
  lemma IsoWeekStart(d: Date)
    requires Valid(d)
    ensures 1 <= IsoCalendar(d).week <= 53 && d.year - 1 <= IsoCalendar(d).year <= d.year + 1
    ensures Ordinal(d) - Weekday(d) == IsoWeek1Monday(IsoCalendar(d).year) + 7 * (IsoCalendar(d).week - 1)
  {
    IsoCalendarSound(d);
    WeekdayFromOrdinal(d, IsoCalendar(d));
  }

  /** Restates the day-of-week facts `IsoCalendarSound` gives about `iso` with
      `weekday()`. */
  lemma WeekdayFromOrdinal(d: Date, iso: IsoDate)
    requires 1 <= d.month <= 12
    requires iso.weekday == (Ordinal(d) + 6) % 7 + 1
    requires Ordinal(d) == IsoWeek1Monday(iso.year) + 7 * (iso.week - 1) + (iso.weekday - 1)
    ensures iso.weekday == Weekday(d) + 1
    ensures Ordinal(d) - Weekday(d) == IsoWeek1Monday(iso.year) + 7 * (iso.week - 1)
  {
  }

  // ------------------------------------------------------------ text

  /** `n` as exactly `w` decimal digits, zero-padded on the left (`%0wd`). */
  function Pad(n: nat, w: nat): (s: string)
    ensures |s| == w
    ensures forall i :: 0 <= i < |s| ==> '0' <= s[i] <= '9'
  {
    if w == 0 then "" else Pad(n / 10, w - 1) + [Strings.Digit(n % 10)]
  }

  function Pow10(w: nat): (p: nat)
    ensures p >= 1
  {
    if w == 0 then 1 else 10 * Pow10(w - 1)
  }

  /** Reading back the digits of `Pad(n, w)` gives `n` when it fits in `w` digits. */
  lemma {:induction false} PadValue(n: nat, w: nat)
    requires n < Pow10(w)
    ensures Strings.DigitsValue(Pad(n, w)) == n
  {
    if w > 0 {
      PadValue(n / 10, w - 1);
      var s := Pad(n, w);
      assert s[..|s| - 1] == Pad(n / 10, w - 1);
    }
  }

  /** `isoformat()[:10]`, and `strftime("%Y-%m-%d")` for years with four digits. */
  function Format(d: Date): (s: string)
    requires Valid(d)
    ensures |s| == 10 && s[4] == '-' && s[7] == '-'
  {
    Pad(d.year, 4) + "-" + Pad(d.month, 2) + "-" + Pad(d.day, 2)
  }

  predicate IsDigit(c: char)
  {
    '0' <= c <= '9'
  }

  function DigitValue(c: char): int
  {
    c as int - '0' as int
  }

  /** The `%m` group `1[0-2]|0[1-9]|[1-9]` and the `-` that must follow it, after
      backtracking: the month and the length of its digits. */
  function MonthField(t: string): (r: Option<(int, int)>)
    ensures r.Some? ==> 1 <= r.value.0 <= 12 && 1 <= r.value.1 && r.value.1 + 1 <= |t|
  {
    if |t| >= 3 && t[0] == '1' && '0' <= t[1] <= '2' && t[2] == '-' then Some((10 + DigitValue(t[1]), 2))
    else if |t| >= 3 && t[0] == '0' && '1' <= t[1] <= '9' && t[2] == '-' then Some((DigitValue(t[1]), 2))
    else if |t| >= 2 && '1' <= t[0] <= '9' && t[1] == '-' then Some((DigitValue(t[0]), 1))
    else None
  }

  /** The `%d` group `3[01]|[12]\d|0[1-9]|[1-9]| [1-9]`, which ends the pattern, so
      its first matching alternative wins: the day and the length of its text. */
  function DayField(t: string): (r: Option<(int, int)>)
    ensures r.Some? ==> 1 <= r.value.0 <= 31 && 1 <= r.value.1 <= |t|
  {
    if |t| >= 2 && t[0] == '3' && '0' <= t[1] <= '1' then Some((30 + DigitValue(t[1]), 2))
    else if |t| >= 2 && '1' <= t[0] <= '2' && IsDigit(t[1]) then Some((10 * DigitValue(t[0]) + DigitValue(t[1]), 2))
    else if |t| >= 2 && t[0] == '0' && '1' <= t[1] <= '9' then Some((DigitValue(t[1]), 2))
    else if |t| >= 1 && '1' <= t[0] <= '9' then Some((DigitValue(t[0]), 1))
    else if |t| >= 2 && t[0] == ' ' && '1' <= t[1] <= '9' then Some((DigitValue(t[1]), 2))
    else None
  }

  /** `datetime(y, m, d)` for a month already in 1 to 12. */
  function MakeDate(y: int, m: int, d: int): (r: Result<Date, Exc>)
    requires 1 <= m <= 12
    ensures r.Ok? <==> Valid(Date(y, m, d))
    ensures r.Ok? ==> r.value == Date(y, m, d)
  {
    if y < 1 || y > MaxYear then Err(ValueError("year " + Strings.IntToString(y) + " is out of range"))
    else if d < 1 || d > DaysInMonth(y, m) then Err(ValueError("day is out of range for month"))
    else Ok(Date(y, m, d))
  }

  /** The `ValueError` `strptime` raises for text that does not match the format. */
  function Mismatch(s: string): Exc
  {
    ValueError("time data " + PyRepr(s) + " does not match format '%Y-%m-%d'")
  }

  /** `datetime.strptime(s, "%Y-%m-%d")` for ASCII digits. */
  function Parse(s: string): (r: Result<Date, Exc>)
    ensures r.Ok? ==> Valid(r.value)
  {
    var mismatch := Err(Mismatch(s));
    if |s| < 5 || !(IsDigit(s[0]) && IsDigit(s[1]) && IsDigit(s[2]) && IsDigit(s[3])) || s[4] != '-' then
      mismatch
    else
      match MonthField(s[5..])
      case None => mismatch
      case Some((m, k)) =>
        var p := 5 + k + 1;
        match DayField(s[p..])
        case None => mismatch
        case Some((d, l)) =>
          if p + l < |s| then Err(ValueError("unconverted data remains: " + s[p + l..]))
          else
            MakeDate(Strings.DigitsValue(s[..4]), m, d)
  }

  /** The mismatch message quotes the text as `repr` does: in double quotes when
      it holds a single quote. */
  lemma ParseQuotesAsRepr()
    ensures Parse("it's") == Err(ValueError("time data " + "\"it's\"" + " does not match format '%Y-%m-%d'"))
  {
    ShortMismatch("it's");
    PyReprQuotes();
  }

  lemma ShortMismatch(s: string)
    requires |s| < 5
    ensures Parse(s) == Err(Mismatch(s))
  {
  }

  lemma DigitValueOf(n: int)
    requires 0 <= n < 10
    ensures DigitValue(Strings.Digit(n)) == n
  {
  }

  /** Two-digit padding is the tens digit followed by the units digit. */
  lemma Pad2(n: nat)
    requires n < 100
    ensures Pad(n, 2) == [Strings.Digit(n / 10), Strings.Digit(n % 10)]
  {
    assert n / 10 / 10 == 0 && n / 10 % 10 == n / 10;
    assert Pad(n / 10, 1) == Pad(0, 0) + [Strings.Digit(n / 10)];
  }

  lemma MonthFieldOfPad(m: int, rest: string)
    requires 1 <= m <= 12
    ensures MonthField(Pad(m, 2) + "-" + rest) == Some((m, 2))
  {
    Pad2(m);
    DigitValueOf(m / 10);
    DigitValueOf(m % 10);
  }

  lemma DayFieldOfPad(d: int)
    requires 1 <= d <= 31
    ensures DayField(Pad(d, 2)) == Some((d, 2))
  {
    Pad2(d);
    DigitValueOf(d / 10);
    DigitValueOf(d % 10);
  }

  /** `strptime` reads back what `Format` writes. */
  lemma ParseFormat(d: Date)
    requires Valid(d)
    ensures Parse(Format(d)) == Ok(d)
  {
    var s := Format(d);
    var y := Pad(d.year, 4);
    var mm := Pad(d.month, 2);
    var dd := Pad(d.day, 2);
    assert s == y + "-" + mm + "-" + dd;
    assert s[..4] == y;
    assert s[5..] == mm + "-" + dd;
    assert s[8..] == dd;
    assert Strings.DigitsValue(y) == d.year by {
      assert Pow10(4) == 10000;
      PadValue(d.year, 4);
    }
    MonthFieldOfPad(d.month, dd);
    DayFieldOfPad(d.day);
  }

  /** Distinct valid dates are written differently. */
  lemma FormatInjective(a: Date, b: Date)
    requires Valid(a) && Valid(b) && Format(a) == Format(b)
    ensures a == b
  {
    ParseFormat(a);
    ParseFormat(b);
  }
}
