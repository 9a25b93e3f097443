/** speed/execute_rpc_action.py: the `Result` envelope of the application's replies
    and `execute_report`, the closed table from report type to report method. */
module ExecuteRpcAction {
  import opened Wrappers
  import opened Exceptions
  import Calendar
  import Json
  import Dc
  import SpeedAccessor
  import SpeedUtils

  /** A value from the decoded request, as the action receives it: a string,
      `None` (an argument left out, or JSON `null`), or any other JSON value,
      kept as the text `str()` gives for it. */
  datatype PyValue = PyStr(s: string) | PyNone | PyOther(text: string)

  /** `str(v)`, which is what an f-string writes. */
  function Str(v: PyValue): string
  {
    match v
    case PyStr(s) => s
    case PyNone => "None"
    case PyOther(text) => text
  }

  /** The names `REPORT_TYPE` lists. "week" is one of them, but `execute_report`
      has no branch for it. */
  const ReportTypes: seq<string> := ["date_range", "week", "last_week", "month", "last_month", "day"]

  /** "Неизвестный тип отчёта" ("Unknown report type"). */
  const UnknownReportType := "\U{041D}\U{0435}\U{0438}\U{0437}\U{0432}\U{0435}\U{0441}\U{0442}\U{043D}\U{044B}\U{0439} \U{0442}\U{0438}\U{043F} \U{043E}\U{0442}\U{0447}\U{0451}\U{0442}\U{0430}"

  const ErrorCourse := "course_type"

  /** The `Result` dataclass. */
  datatype RpcResult = RpcResult(status: string, course: string, result: seq<string>, message: string)

  /** `Result()`, and `Result(course="")`, which is the same value. */
  function DefaultResult(): (r: RpcResult)
    ensures r.status == Dc.OkStatus && r.course == "" && r.result == [] && r.message == Dc.DefaultMessage
  {
    RpcResult(Dc.OkStatus, "", [], Dc.DefaultMessage)
  }

  /** `Result.to_dict` (`asdict`): the fields in declaration order. */
  function ToDict(r: RpcResult): (ms: seq<Json.Member>)
    ensures |ms| == 4
    ensures ms[0].0 == "status" && ms[1].0 == "course" && ms[2].0 == "result" && ms[3].0 == "message"
  {
    [("status", Json.Str(r.status)), ("course", Json.Str(r.course)),
     ("result", Json.StrList(r.result)), ("message", Json.Str(r.message))]
  }

  /** A `Result` read back from its dict. */
  function FromDict(ms: seq<Json.Member>): Option<RpcResult>
  {
    if |ms| == 4 && ms[0].0 == "status" && ms[1].0 == "course" && ms[2].0 == "result" && ms[3].0 == "message"
       && ms[0].1.Str? && ms[1].1.Str? && ms[2].1.StrList? && ms[3].1.Str?
    then Some(RpcResult(ms[0].1.s, ms[1].1.s, ms[2].1.items, ms[3].1.s))
    else None
  }

  /** The JSON text of a `Result` reads back to the same four fields, whatever
      their contents. */
  lemma ResultJsonRoundTrip(r: RpcResult)
    ensures Json.Loads(Json.Dumps(ToDict(r))).Some?
    ensures FromDict(Json.Loads(Json.Dumps(ToDict(r))).value) == Some(r)
  {
    Json.DumpsRoundTrip(ToDict(r));
  }

  /** The report method `execute_report` calls. */
  datatype ReportCall =
    | GetReport(startDate: string, endDate: string)
    | GetReportLastWeek
    | GetReportMonth
    | GetReportLastMonth
    | GetReportCurrentDay

  /** The `if`/`elif` chain of `execute_report`: at most one report method, chosen
      by comparing the report type with five of the six names; the dates are used
      only by "date_range". */
  function Route(reportType: PyValue, startDate: PyValue, endDate: PyValue): (r: Option<ReportCall>)
    ensures r.Some? <==> reportType.PyStr? && reportType.s in ReportTypes && reportType.s != "week"
    ensures reportType == PyStr("date_range") ==> r == Some(GetReport(Str(startDate), Str(endDate)))
    ensures reportType == PyStr("last_week") ==> r == Some(GetReportLastWeek)
    ensures reportType == PyStr("month") ==> r == Some(GetReportMonth)
    ensures reportType == PyStr("last_month") ==> r == Some(GetReportLastMonth)
    ensures reportType == PyStr("day") ==> r == Some(GetReportCurrentDay)
  {
    if reportType == PyStr("date_range") then Some(GetReport(Str(startDate), Str(endDate)))
    else if reportType == PyStr("last_week") then Some(GetReportLastWeek)
    else if reportType == PyStr("month") then Some(GetReportMonth)
    else if reportType == PyStr("last_month") then Some(GetReportLastMonth)
    else if reportType == PyStr("day") then Some(GetReportCurrentDay)
    else None
  }

  /** Running one report method on the report service, on day `today`. The
      last-week and last-month methods take their default date from `imported`,
      the day `speed/utils.py` was imported; the others read the clock. */
  function Call(s: SpeedAccessor.SpeedReport, call: ReportCall, today: Calendar.Date, imported: Calendar.Date)
    : (r: Result<SpeedAccessor.ReportFile, Exc>)
    requires Calendar.Valid(today) && Calendar.Valid(imported)
    ensures call.GetReport? ==> r == SpeedAccessor.GetReport(s, call.startDate, call.endDate, None)
    ensures call.GetReportCurrentDay? ==> r == SpeedAccessor.GetReportCurrentDay(s, today)
    ensures call.GetReportLastWeek? ==> r == SpeedAccessor.WindowReport(s, SpeedAccessor.LastWeekWindowAsWritten(today, imported))
    ensures call.GetReportMonth? ==> r == SpeedAccessor.WindowReport(s, SpeedAccessor.MonthWindow(today))
    ensures call.GetReportLastMonth? ==> r == SpeedAccessor.WindowReport(s, SpeedAccessor.LastMonthWindowAsWritten(today, imported))
  {
    match call
    case GetReport(startDate, endDate) => SpeedAccessor.GetReport(s, startDate, endDate, None)
    case GetReportLastWeek => SpeedAccessor.WindowReport(s, SpeedAccessor.LastWeekWindowAsWritten(today, imported))
    case GetReportMonth => SpeedAccessor.WindowReport(s, SpeedAccessor.MonthWindow(today))
    case GetReportLastMonth => SpeedAccessor.WindowReport(s, SpeedAccessor.LastMonthWindowAsWritten(today, imported))
    case GetReportCurrentDay => SpeedAccessor.GetReportCurrentDay(s, today)
  }

  /** The exception `execute_report` raises for any other report type. */
  function UnknownType(): Exc
  {
    Builtin("Exception", [UnknownReportType])
  }

  /** `execute_report`: the chosen method's report, or the unknown-type exception. */
  function ExecuteReport(s: SpeedAccessor.SpeedReport, reportType: PyValue, startDate: PyValue, endDate: PyValue,
                         today: Calendar.Date, imported: Calendar.Date): (r: Result<SpeedAccessor.ReportFile, Exc>)
    requires Calendar.Valid(today) && Calendar.Valid(imported)
    ensures Route(reportType, startDate, endDate).None? ==> r == Err(UnknownType())
    ensures Route(reportType, startDate, endDate).Some? ==>
      r == Call(s, Route(reportType, startDate, endDate).value, today, imported)
  {
    match Route(reportType, startDate, endDate)
    case None => Err(UnknownType())
    case Some(call) => Call(s, call, today, imported)
  }

  /** "week", although listed in `REPORT_TYPE`, fails like an unknown type. */
  lemma WeekIsUnknown(s: SpeedAccessor.SpeedReport, startDate: PyValue, endDate: PyValue, today: Calendar.Date,
                      imported: Calendar.Date)
    requires Calendar.Valid(today) && Calendar.Valid(imported)
    ensures "week" in ReportTypes
    ensures ExecuteReport(s, PyStr("week"), startDate, endDate, today, imported) == Err(UnknownType())
  {
  }

  /** Only "date_range" reads the dates: for every other type the report does not
      depend on them. */
  lemma DatesIgnored(s: SpeedAccessor.SpeedReport, reportType: PyValue, startDate: PyValue, endDate: PyValue,
                     otherStart: PyValue, otherEnd: PyValue, today: Calendar.Date, imported: Calendar.Date)
    requires Calendar.Valid(today) && Calendar.Valid(imported)
    requires reportType != PyStr("date_range")
    ensures ExecuteReport(s, reportType, startDate, endDate, today, imported)
      == ExecuteReport(s, reportType, otherStart, otherEnd, today, imported)
  {
  }

  /** "date_range" fetches exactly the given dates, as `str()` writes them, under
      the default name. */
  lemma DateRangeForwards(s: SpeedAccessor.SpeedReport, startDate: PyValue, endDate: PyValue, today: Calendar.Date,
                          imported: Calendar.Date)
    requires Calendar.Valid(today) && Calendar.Valid(imported)
    ensures var r := ExecuteReport(s, PyStr("date_range"), startDate, endDate, today, imported);
      r.Ok? ==> r.value == SpeedAccessor.ReportFile(SpeedAccessor.ReportUrl(s.settings, Str(startDate), Str(endDate)),
                                                    SpeedAccessor.DefaultName(Str(startDate), Str(endDate)))
  {
  }
  /** "day" fetches today to today, named after today alone. */
  lemma DayReportDates(s: SpeedAccessor.SpeedReport, startDate: PyValue, endDate: PyValue, today: Calendar.Date,
                       imported: Calendar.Date)
    requires Calendar.Valid(today) && Calendar.Valid(imported)
    ensures ExecuteReport(s, PyStr("day"), startDate, endDate, today, imported)
      == SpeedAccessor.GetReport(s, Calendar.Format(today), Calendar.Format(today),
                                 Some("report_from " + Calendar.Format(today) + ".xlsx"))
  {
  }

  /** "month" fetches from 29 days before today through today, under the
      default name; before the 30th day of the calendar it overflows. */
  lemma MonthReportDates(s: SpeedAccessor.SpeedReport, startDate: PyValue, endDate: PyValue, today: Calendar.Date,
                         imported: Calendar.Date)
    requires Calendar.Valid(today) && Calendar.Valid(imported)
    ensures Calendar.Ordinal(today) > 29 ==>
      && Calendar.AddDays(today, -29).Ok?
      && ExecuteReport(s, PyStr("month"), startDate, endDate, today, imported)
         == SpeedAccessor.GetReport(s, Calendar.Format(Calendar.AddDays(today, -29).value), Calendar.Format(today), None)
    ensures Calendar.Ordinal(today) <= 29 ==>
      ExecuteReport(s, PyStr("month"), startDate, endDate, today, imported) == Err(OverflowError(Calendar.OutOfRange))
  {
  }

  /** "last_month" fetches the first to the last day of the month before the
      month `speed/utils.py` was imported in, whatever today is. */
  lemma LastMonthReportDates(s: SpeedAccessor.SpeedReport, startDate: PyValue, endDate: PyValue, today: Calendar.Date,
                             imported: Calendar.Date)
    requires Calendar.Valid(today) && Calendar.Valid(imported)
    ensures var (y, m) := SpeedAccessor.MonthBefore(imported.year, imported.month);
      ExecuteReport(s, PyStr("last_month"), startDate, endDate, today, imported)
      == if imported.year == 1 && imported.month == 1 then Err(OverflowError(Calendar.OutOfRange))
         else SpeedAccessor.GetReport(s, Calendar.Format(Calendar.Date(y, m, 1)),
                                      Calendar.Format(Calendar.Date(y, m, Calendar.DaysInMonth(y, m))), None)
  {
  }

  /** "last_week" fetches the Monday to Sunday of the week numbered one less than
      `get_week_number()` with its default argument, the import date's ISO week,
      counted in today's calendar year. */
  lemma LastWeekReportDates(s: SpeedAccessor.SpeedReport, startDate: PyValue, endDate: PyValue, today: Calendar.Date,
                            imported: Calendar.Date)
    requires Calendar.Valid(today) && Calendar.Valid(imported)
    ensures var week := SpeedUtils.WeekRange(today.year, SpeedUtils.DefaultWeekNumber(imported) - 1);
      ExecuteReport(s, PyStr("last_week"), startDate, endDate, today, imported)
      == if week.Err? then Err(week.error)
         else SpeedAccessor.GetReport(s, Calendar.Format(week.value.0), Calendar.Format(week.value.1), None)
  {
  }
}
