/** speed/accessor.py: `SpeedReport`, the client of the speed-analysis service.
    It builds the request URL, fetches the report for a window of dates and names
    the file; the windows are rolling (the last 7 or 30 days), the current day,
    the current or previous ISO week and the current or previous month.

    The HTTP request is replaced by `requestError`, the error it raises for a
    URL, if any; the bytes are not modelled, so a fetched report is the URL it
    came from and the name set on it. The clock is a parameter: `today` is
    `datetime.now()` at the call. Where the code reads the date the module was
    imported instead, the code as written is kept beside the intended window
    (see the `AsWritten` members). */
module SpeedAccessor {
  import opened Wrappers
  import opened Exceptions
  import opened Calendar
  import Strings
  import SpeedUtils

  datatype ServiceSettings = ServiceSettings(baseUrl: string, analysisReportUrl: string)

  datatype SpeedReport = SpeedReport(settings: ServiceSettings, requestError: string -> Option<Exc>)

  /** The `BytesIO` `get_report` returns: where it was fetched from, and its `name`. */
  datatype ReportFile = ReportFile(url: string, name: string)

  // ------------------------------------------------------------ URLs

  /** `f"{k}={v}"`. */
  function Parameter(p: (string, string)): string
  {
    p.0 + "=" + p.1
  }

  function Parameters(ps: seq<(string, string)>): (r: seq<string>)
    ensures |r| == |ps|
    ensures forall i :: 0 <= i < |ps| ==> r[i] == Parameter(ps[i])
  {
    if ps == [] then [] else [Parameter(ps[0])] + Parameters(ps[1..])
  }

  function UrlPrefix(settings: ServiceSettings, relativeUrl: string): string
  {
    settings.baseUrl + relativeUrl + "?"
  }

  /** `create_request_url`: the base URL, the relative URL, `?`, then the
      parameters as `k=v` joined by `&`, in argument order and without escaping. */
  function CreateRequestUrl(settings: ServiceSettings, relativeUrl: string, parameters: seq<(string, string)>): (url: string)
    ensures UrlPrefix(settings, relativeUrl) <= url
    ensures url == UrlPrefix(settings, relativeUrl) <==> parameters == []
  {
    var query := Strings.Join("&", Parameters(parameters));
    assert parameters != [] ==> query != [] by {
      if parameters != [] {
        JoinNonEmpty(Parameters(parameters));
      }
    }
    UrlPrefix(settings, relativeUrl) + query
  }

  lemma JoinNonEmpty(parts: seq<string>)
    requires |parts| >= 1 && forall i :: 0 <= i < |parts| ==> parts[i] != []
    ensures Strings.Join("&", parts) != []
  {
    if |parts| > 1 {
      assert Strings.Join("&", parts) == parts[0] + "&" + Strings.Join("&", parts[1..]);
    }
  }

  /** Reading a query string back: `k=v` items separated by `&`, each split at its
      first `=`. */
  function ParseQuery(query: string): seq<(string, string)>
  {
    if query == [] then [] else ParseItems(Strings.Split(query, '&'))
  }

  function ParseItems(items: seq<string>): (r: seq<(string, string)>)
    ensures |r| == |items|
    ensures forall i :: 0 <= i < |items| ==> r[i] == ParseItem(items[i])
  {
    if items == [] then [] else [ParseItem(items[0])] + ParseItems(items[1..])
  }

  function ParseItem(item: string): (string, string)
  {
    var i := Strings.FirstIndex(item, '=');
    (item[..i], if i < |item| then item[i + 1..] else "")
  }

  /** The query of a URL `CreateRequestUrl` built reads back as its parameters,
      whenever no key holds `=` or `&` and no value holds `&`. */
  lemma CreateRequestUrlQuery(settings: ServiceSettings, relativeUrl: string, parameters: seq<(string, string)>)
    requires forall i :: 0 <= i < |parameters| ==>
      '=' !in parameters[i].0 && '&' !in parameters[i].0 && '&' !in parameters[i].1
    ensures var url := CreateRequestUrl(settings, relativeUrl, parameters);
      ParseQuery(url[|UrlPrefix(settings, relativeUrl)|..]) == parameters
  {
    var url := CreateRequestUrl(settings, relativeUrl, parameters);
    var query := Strings.Join("&", Parameters(parameters));
    assert url[|UrlPrefix(settings, relativeUrl)|..] == query;
    if parameters != [] {
      var items := Parameters(parameters);
      JoinNonEmpty(items);
      forall i | 0 <= i < |items| ensures '&' !in items[i] {
        assert items[i] == parameters[i].0 + "=" + parameters[i].1;
      }
      Strings.SplitJoin(items, '&');
      assert Strings.Split(query, '&') == items;
      forall i | 0 <= i < |items| ensures ParseItem(items[i]) == parameters[i] {
        ParameterReadsBack(parameters[i].0, parameters[i].1);
      }
    }
  }

  lemma ParameterReadsBack(k: string, v: string)
    requires '=' !in k
    ensures ParseItem(Parameter((k, v))) == (k, v)
  {
    var item := Parameter((k, v));
    var i := Strings.FirstIndex(item, '=');
    assert item[|k|] == '=';
    assert forall j :: 0 <= j < |k| ==> item[j] == k[j];
    assert i == |k|;
    assert item[..i] == k;
    assert item[i + 1..] == v;
  }

  // ------------------------------------------------------------ fetching and naming

  /** The URL `get_report_by_date` requests. */
  function ReportUrl(settings: ServiceSettings, startDate: string, endDate: string): string
  {
    CreateRequestUrl(settings, settings.analysisReportUrl, [("start_date", startDate), ("end_date", endDate)])
  }

  /** `get_report_by_date`: the report is requested from the analysis report URL
      with `start_date` then `end_date` as the query; the request's error, if any,
      is raised. */
  function GetReportByDate(s: SpeedReport, startDate: string, endDate: string): (r: Result<string, Exc>)
    ensures r.Ok? <==> s.requestError(ReportUrl(s.settings, startDate, endDate)).None?
    ensures r.Err? ==> Some(r.error) == s.requestError(ReportUrl(s.settings, startDate, endDate))
    ensures r.Ok? ==> UrlPrefix(s.settings, s.settings.analysisReportUrl) <= r.value
    ensures r.Ok? && '&' !in startDate && '&' !in endDate ==>
      ParseQuery(r.value[|UrlPrefix(s.settings, s.settings.analysisReportUrl)|..])
        == [("start_date", startDate), ("end_date", endDate)]
  {
    var url := ReportUrl(s.settings, startDate, endDate);
    assert '&' !in startDate && '&' !in endDate ==>
      ParseQuery(url[|UrlPrefix(s.settings, s.settings.analysisReportUrl)|..]) == [("start_date", startDate), ("end_date", endDate)]
    by {
      if '&' !in startDate && '&' !in endDate {
        CreateRequestUrlQuery(s.settings, s.settings.analysisReportUrl, [("start_date", startDate), ("end_date", endDate)]);
      }
    }
    match s.requestError(url)
    case Some(e) => Err(e)
    case None => Ok(url)
  }

  /** The name a report gets when none is given. */
  function DefaultName(startDate: string, endDate: string): string
  {
    "report_from " + startDate + "_to_" + endDate + ".xlsx"
  }

  /** The default name reads back: with two ten-character dates, the start is at
      characters 12 to 21 and the end at 26 to 35, between fixed words. */
  lemma DefaultNameFields(startDate: string, endDate: string)
    requires |startDate| == 10 && |endDate| == 10
    ensures var name := DefaultName(startDate, endDate);
      && |name| == 41
      && name[..12] == "report_from " && name[22..26] == "_to_" && name[36..] == ".xlsx"
      && name[12..22] == startDate && name[26..36] == endDate
  {
  }

  /** `get_report`: the fetched report, named `name` when that is truthy (given and
      not empty), and by `DefaultName` otherwise. */
  function GetReport(s: SpeedReport, startDate: string, endDate: string, name: Option<string>): (r: Result<ReportFile, Exc>)
    ensures r.Ok? <==> GetReportByDate(s, startDate, endDate).Ok?
    ensures r.Err? ==> r.error == GetReportByDate(s, startDate, endDate).error
    ensures r.Ok? ==> r.value.url == ReportUrl(s.settings, startDate, endDate)
    ensures r.Ok? && name.Some? && name.value != "" ==> r.value.name == name.value
    ensures r.Ok? && (name.None? || name.value == "") ==> r.value.name == DefaultName(startDate, endDate)
  {
    match GetReportByDate(s, startDate, endDate)
    case Err(e) => Err(e)
    case Ok(url) =>
      Ok(ReportFile(url, if name.Some? && name.value != "" then name.value else DefaultName(startDate, endDate)))
  }

  /** The report for a window: fetched for its two dates and named as `get_report`
      would name it by default. Every window report passes that name explicitly. */
  function WindowReport(s: SpeedReport, window: Result<(string, string), Exc>): (r: Result<ReportFile, Exc>)
    ensures window.Err? ==> r == Err(window.error)
    ensures window.Ok? ==> (r.Ok? <==> s.requestError(ReportUrl(s.settings, window.value.0, window.value.1)).None?)
    ensures r.Ok? ==> window.Ok? && r.value == ReportFile(ReportUrl(s.settings, window.value.0, window.value.1),
                                                         DefaultName(window.value.0, window.value.1))
    ensures r.Ok? ==> r == GetReport(s, window.value.0, window.value.1, None)
  {
    match window
    case Err(e) => Err(e)
    case Ok((start, end)) => GetReport(s, start, end, Some(DefaultName(start, end)))
  }

  // ------------------------------------------------------------ rolling windows

  /** The dates of `get_report_week`: six days before today, and today. */
  function WeekWindow(today: Date): (r: Result<(string, string), Exc>)
    requires Valid(today)
    ensures r.Ok? <==> Ordinal(today) > 6
    ensures r.Err? ==> r == Err(OverflowError(OutOfRange))
    ensures r.Ok? ==> (Parse(r.value.1) == Ok(today) && Parse(r.value.0).Ok?
      && Ordinal(Parse(r.value.0).value) == Ordinal(today) - 6)
  {
    RollingWindow(today, 6)
  }

  /** The dates of `get_report_month`: 29 days before today, and today. */
  function MonthWindow(today: Date): (r: Result<(string, string), Exc>)
    requires Valid(today)
    ensures r.Ok? <==> Ordinal(today) > 29
    ensures r.Err? ==> r == Err(OverflowError(OutOfRange))
    ensures r.Ok? ==> (Parse(r.value.1) == Ok(today) && Parse(r.value.0).Ok?
      && Ordinal(Parse(r.value.0).value) == Ordinal(today) - 29)
  {
    RollingWindow(today, 29)
  }

  /** `(today - timedelta(days))` and `today`, as text. */
  function RollingWindow(today: Date, days: nat): (r: Result<(string, string), Exc>)
    requires Valid(today) && days <= 29
    ensures r.Ok? <==> Ordinal(today) > days
    ensures r.Err? ==> r == Err(OverflowError(OutOfRange))
    ensures r.Ok? ==> (Parse(r.value.1) == Ok(today) && Parse(r.value.0).Ok?
      && Ordinal(Parse(r.value.0).value) == Ordinal(today) - days)
  {
    OrdinalRange(today);
    var start := AddDays(today, -(days as int));
    if start.Err? then Err(start.error)
    else
      ParseFormat(start.value);
      ParseFormat(today);
      Ok((Format(start.value), Format(today)))
  }

  /** `get_report_current_day`: today to today, named "report_from {today}.xlsx". */
  function GetReportCurrentDay(s: SpeedReport, today: Date): (r: Result<ReportFile, Exc>)
    requires Valid(today)
    ensures r.Ok? <==> s.requestError(ReportUrl(s.settings, Format(today), Format(today))).None?
    ensures r.Ok? ==> r.value.url == ReportUrl(s.settings, Format(today), Format(today))
    ensures r.Ok? ==> r.value.name == "report_from " + Format(today) + ".xlsx"
    ensures Parse(Format(today)) == Ok(today)
  {
    ParseFormat(today);
    var start := Format(today);
    GetReport(s, start, start, Some("report_from " + start + ".xlsx"))
  }

  // ------------------------------------------------------------ weeks

  /** The Monday to Sunday of the ISO week holding `today`, from its ISO year and
      week number. */
  function CurrentWeekWindow(today: Date): (r: Result<(string, string), Exc>)
    requires Valid(today)
    ensures r.Ok? ==> Parse(r.value.0).Ok? && Parse(r.value.1).Ok?
    ensures r.Ok? ==> var (start, end) := (Parse(r.value.0).value, Parse(r.value.1).value);
      && Weekday(start) == 0 && Ordinal(end) == Ordinal(start) + 6
      && Ordinal(start) == Ordinal(today) - Weekday(today)
    ensures 1 <= IsoCalendar(today).year <= MaxYear && 7 <= Ordinal(today) <= MaxOrdinal - 7 ==> r.Ok?
  {
    var iso := IsoCalendar(today);
    IsoWeekStart(today);
    assert 1 <= iso.year <= MaxYear && 7 <= Ordinal(today) <= MaxOrdinal - 7 ==> SpeedUtils.WeekRange(iso.year, iso.week).Ok? by {
      if 1 <= iso.year <= MaxYear && 7 <= Ordinal(today) <= MaxOrdinal - 7 {
        SpeedUtils.WeekOfIsoCalendar(today);
      }
    }
    SpeedUtils.GetStartEndOfWeek(iso.year, iso.week)
  }

  /** The Monday to Sunday of the week before the one holding `today`: week
      number minus one of its ISO year, where week 0 is the last week of the year
      before. */
  function LastWeekWindow(today: Date): (r: Result<(string, string), Exc>)
    requires Valid(today)
    ensures r.Ok? ==> Parse(r.value.0).Ok? && Parse(r.value.1).Ok?
    ensures r.Ok? ==> var (start, end) := (Parse(r.value.0).value, Parse(r.value.1).value);
      && Weekday(start) == 0 && Ordinal(end) == Ordinal(start) + 6
      && Ordinal(start) == Ordinal(today) - Weekday(today) - 7
    ensures 1 <= IsoCalendar(today).year <= MaxYear && 14 <= Ordinal(today) <= MaxOrdinal ==> r.Ok?
  {
    var iso := IsoCalendar(today);
    IsoWeekStart(today);
    IsoCalendarSound(today);
    assert 1 <= iso.year <= MaxYear && 14 <= Ordinal(today) <= MaxOrdinal ==> SpeedUtils.WeekRange(iso.year, iso.week - 1).Ok? by {
      if 1 <= iso.year <= MaxYear && 14 <= Ordinal(today) <= MaxOrdinal {
        SpeedUtils.Week1Start(iso.year);
      }
    }
    SpeedUtils.GetStartEndOfWeek(iso.year, iso.week - 1)
  }

  /** `get_report_current_week` as written: the calendar year of `now` with the
      week number of the date the module was imported. */
  function CurrentWeekWindowAsWritten(now: Date, imported: Date): (r: Result<(string, string), Exc>)
    requires Valid(now) && Valid(imported)
    ensures r.Ok? ==> Parse(r.value.0).Ok? && Parse(r.value.1).Ok?
    ensures r.Ok? ==> var (start, end) := (Parse(r.value.0).value, Parse(r.value.1).value);
      && Weekday(start) == 0 && Ordinal(end) == Ordinal(start) + 6
      && Ordinal(start) == IsoWeek1Monday(now.year) + 7 * (IsoCalendar(imported).week - 1)
  {
    var weekNumber := SpeedUtils.DefaultWeekNumber(imported);
    SpeedUtils.GetStartEndOfWeek(now.year, weekNumber)
  }

  /** `get_report_last_week` as written: the calendar year of `now` with the
      import date's week number minus one. */
  function LastWeekWindowAsWritten(now: Date, imported: Date): (r: Result<(string, string), Exc>)
    requires Valid(now) && Valid(imported)
    ensures r.Ok? ==> Parse(r.value.0).Ok? && Parse(r.value.1).Ok?
    ensures r.Ok? ==> var (start, end) := (Parse(r.value.0).value, Parse(r.value.1).value);
      && Weekday(start) == 0 && Ordinal(end) == Ordinal(start) + 6
      && Ordinal(start) == IsoWeek1Monday(now.year) + 7 * (IsoCalendar(imported).week - 2)
  {
    var weekNumber := SpeedUtils.DefaultWeekNumber(imported) - 1;
    SpeedUtils.GetStartEndOfWeek(now.year, weekNumber)
  }

  // ------------------------------------------------------------ months

  /** The month before year `y`, month `m`, as (year, month). */
  function MonthBefore(y: int, m: int): (int, int)
  {
    if m == 1 then (y - 1, 12) else (y, m - 1)
  }

  /** The day before the first of a month is the last day of the month before. */
  lemma DayBeforeFirstOfMonth(y: int, m: int)
    requires Valid(Date(y, m, 1)) && !(y == 1 && m == 1)
    ensures var (py, pm) := MonthBefore(y, m);
      && 1 <= pm <= 12 && Valid(Date(py, pm, DaysInMonth(py, pm)))
      && AddDays(Date(y, m, 1), -1) == Ok(Date(py, pm, DaysInMonth(py, pm)))
  {
    var (py, pm) := MonthBefore(y, m);
    var last := Date(py, pm, DaysInMonth(py, pm));
    SpeedUtils.DayBeforeFirst(y, m);
    if m == 1 {
      YearLength(y - 1);
    } else {
      MonthLength(y, m - 1);
    }
    assert Ordinal(last) + 1 == Ordinal(Date(y, m, 1));
    OrdinalInjective(AddDays(Date(y, m, 1), -1).value, last);
  }

  /** The first and last day of the month of `reference`. */
  function CurrentMonthWindow(reference: Date): (r: Result<(string, string), Exc>)
    requires Valid(reference)
    ensures r.Ok? <==> !(reference.year == 1 && reference.month == 1) && !(reference.year == MaxYear && reference.month == 12)
    ensures r.Err? ==> r == Err(OverflowError(OutOfRange))
    ensures r.Ok? ==> var (y, m) := (reference.year, reference.month);
      Parse(r.value.0) == Ok(Date(y, m, 1)) && Parse(r.value.1) == Ok(Date(y, m, DaysInMonth(y, m)))
  {
    ParseFormat(reference);
    var r := SpeedUtils.FirstAndLastDayOfMonth(Format(reference));
    assert SpeedUtils.LastDayOfMonth(Format(reference)) == SpeedUtils.LastDayOf(reference);
    if r.Ok? then
      var last := Parse(r.value.1).value;
      assert last == Date(reference.year, reference.month, DaysInMonth(reference.year, reference.month)) by {
        CurrentMonthLast(last, reference.year, reference.month);
      }
      r
    else r
  }

  /** The day of a month whose next day is in the following month is its last day. */
  lemma CurrentMonthLast(last: Date, y: int, m: int)
    requires Valid(last) && last.year == y && last.month == m && Ordinal(last) < MaxOrdinal
    requires (NextDay(last).year, NextDay(last).month) == SpeedUtils.MonthAfter(y, m)
    ensures last == Date(y, m, DaysInMonth(y, m))
  {
  }

  /** The dates of `get_report_last_month` for the month before that of
      `reference`: the day before the first of the month, and the first day of
      that day's month. */
  function LastMonthWindow(reference: Date): (r: Result<(string, string), Exc>)
    requires Valid(reference)
    ensures r.Ok? <==> !(reference.year == 1 && reference.month == 1)
    ensures r.Err? ==> r == Err(OverflowError(OutOfRange))
    ensures r.Ok? ==> var (y, m) := MonthBefore(reference.year, reference.month);
      1 <= m <= 12 && Parse(r.value.0) == Ok(Date(y, m, 1)) && Parse(r.value.1) == Ok(Date(y, m, DaysInMonth(y, m)))
    ensures r.Ok? ==> var (y, m) := MonthBefore(reference.year, reference.month);
      r.value == (Format(Date(y, m, 1)), Format(Date(y, m, DaysInMonth(y, m))))
  {
    ParseFormat(reference);
    var firstDay := SpeedUtils.GetFirstDayOfMonth(Format(reference)).value;
    var first := Parse(firstDay).value;
    SpeedUtils.DayBeforeFirst(reference.year, reference.month);
    var end := AddDays(first, -1);
    if end.Err? then Err(end.error)
    else
      DayBeforeFirstOfMonth(reference.year, reference.month);
      ParseFormat(end.value);
      var endText := Format(end.value);
      var start := SpeedUtils.GetFirstDayOfMonth(endText).value;
      Ok((start, endText))
  }

  /** `get_report_current_month` as written: the month of the import date, whatever
      `now` is. */
  function CurrentMonthWindowAsWritten(now: Date, imported: Date): (r: Result<(string, string), Exc>)
    requires Valid(now) && Valid(imported)
    ensures r.Ok? ==> Parse(r.value.0) == Ok(Date(imported.year, imported.month, 1))
  {
    CurrentMonthWindow(imported)
  }

  /** `get_report_last_month` as written: the month before that of the import
      date, whatever `now` is. */
  function LastMonthWindowAsWritten(now: Date, imported: Date): (r: Result<(string, string), Exc>)
    requires Valid(now) && Valid(imported)
    ensures r.Ok? ==> (Parse(r.value.1).Ok? && Parse(r.value.1).value.year == MonthBefore(imported.year, imported.month).0
      && Parse(r.value.1).value.month == MonthBefore(imported.year, imported.month).1)
  {
    LastMonthWindow(imported)
  }

  // ------------------------------------------------------------ the code as written against the intent

  /** Whenever the module was imported in another month than the current one, the
      current-month report as written covers the import month, not the current one. */
  lemma StaleCurrentMonth(now: Date, imported: Date)
    requires Valid(now) && Valid(imported)
    requires (imported.year, imported.month) != (now.year, now.month)
    requires CurrentMonthWindowAsWritten(now, imported).Ok? && CurrentMonthWindow(now).Ok?
    ensures Parse(CurrentMonthWindowAsWritten(now, imported).value.0) != Parse(CurrentMonthWindow(now).value.0)
  {
  }

  /** Likewise, the last-month report as written covers the month before the import
      month, not the month before the current one. */
  lemma StaleLastMonth(now: Date, imported: Date)
    requires Valid(now) && Valid(imported)
    requires (imported.year, imported.month) != (now.year, now.month)
    requires LastMonthWindowAsWritten(now, imported).Ok? && LastMonthWindow(now).Ok?
    ensures Parse(LastMonthWindowAsWritten(now, imported).value.1) != Parse(LastMonthWindow(now).value.1)
  {
    var asWritten := LastMonthWindow(imported).value.1;
    var intended := LastMonthWindow(now).value.1;
    var (y, m) := MonthBefore(imported.year, imported.month);
    var (ny, nm) := MonthBefore(now.year, now.month);
    assert Parse(asWritten) == Ok(Date(y, m, DaysInMonth(y, m)));
    assert Parse(intended) == Ok(Date(ny, nm, DaysInMonth(ny, nm)));
    MonthBeforeInjective(imported.year, imported.month, now.year, now.month);
  }

  lemma MonthBeforeInjective(y1: int, m1: int, y2: int, m2: int)
    requires 1 <= m1 <= 12 && 1 <= m2 <= 12 && (y1, m1) != (y2, m2)
    ensures MonthBefore(y1, m1) != MonthBefore(y2, m2)
  {
  }

  /** Within one year, once the ISO week has changed since the import, the
      current-week report as written is not the week holding today. */
  lemma StaleCurrentWeek(now: Date, imported: Date)
    requires Valid(now) && Valid(imported)
    requires IsoCalendar(now).year == now.year
    requires IsoCalendar(imported).week != IsoCalendar(now).week
    requires CurrentWeekWindowAsWritten(now, imported).Ok?
    ensures Ordinal(Parse(CurrentWeekWindowAsWritten(now, imported).value.0).value) != Ordinal(now) - Weekday(now)
  {
    IsoWeekStart(now);
  }

  /** Likewise for the last-week report as written: it is not the week before the
      one holding today. */
  lemma StaleLastWeek(now: Date, imported: Date)
    requires Valid(now) && Valid(imported)
    requires IsoCalendar(now).year == now.year
    requires IsoCalendar(imported).week != IsoCalendar(now).week
    requires LastWeekWindowAsWritten(now, imported).Ok?
    ensures Ordinal(Parse(LastWeekWindowAsWritten(now, imported).value.0).value) != Ordinal(now) - Weekday(now) - 7
  {
    IsoWeekStart(now);
  }

  /** When today's ISO year is not its calendar year (the first days of January
      that belong to the last week of the year before, or the last days of
      December that belong to week 1 of the next year), the current-week report as
      written is not the week holding today, even with a fresh import date. */
  lemma IsoYearMismatch(today: Date)
    requires Valid(today)
    requires IsoCalendar(today).year != today.year
    requires CurrentWeekWindowAsWritten(today, today).Ok?
    ensures Ordinal(Parse(CurrentWeekWindowAsWritten(today, today).value.0).value) != Ordinal(today) - Weekday(today)
  {
    IsoWeekStart(today);
    IsoCalendarSound(today);
    IsoYearLength(today.year - 1);
    IsoYearLength(today.year);
  }

  /** 2021-01-01 is such a day: it is in week 53 of ISO year 2020, and the week
      the report as written covers starts on 2022-01-03, 367 days after it. */
  lemma IsoYearMismatchExample()
    ensures IsoCalendar(Date(2021, 1, 1)) == IsoDate(2020, 53, 5)
    ensures CurrentWeekWindowAsWritten(Date(2021, 1, 1), Date(2021, 1, 1)).Ok?
    ensures Ordinal(Parse(CurrentWeekWindowAsWritten(Date(2021, 1, 1), Date(2021, 1, 1)).value.0).value)
      == Ordinal(Date(2021, 1, 1)) + 367
  {
    var today := Date(2021, 1, 1);
    ParseFormat(today);
    assert Ordinal(today) == 737791;
    assert IsoWeek1Monday(2020) == 737423 by {
      assert DaysBeforeYear(2020) == 737424;
    }
    assert IsoWeek1Monday(2021) == 737794 by {
      assert DaysBeforeYear(2021) == 737790;
    }
    assert IsoWeek1Monday(2022) == 738158 by {
      assert DaysBeforeYear(2022) == 738155;
    }
    assert IsoPlace(737791, 2021, 737423, 737794, 738158) == IsoDate(2020, 53, 5);
  }
}
