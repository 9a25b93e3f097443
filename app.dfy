/** app/__init__.py: `MainApp`, which owns the disk accessor and the report
    service and gives the RPC server its action, `execute_rpc_action`: fetch the
    report, upload it, and answer with one `Result` JSON document, OK with the
    link or ERROR with the failure's first argument. */
module App {
  import opened Wrappers
  import opened Exceptions
  import Calendar
  import Json
  import Dc
  import Action = ExecuteRpcAction
  import SpeedAccessor
  import YaDisk

  type PyValue = Action.PyValue

  /** A reply text read back as a `Result`. */
  function ReadReply(text: string): Option<Action.RpcResult>
  {
    match Json.Loads(text)
    case None => None
    case Some(ms) => Action.FromDict(ms)
  }

  /** `Result(status="ERROR", course="course_type", result=[], message=m)`. */
  function ErrorResult(message: string): Action.RpcResult
  {
    Action.RpcResult(Dc.ErrorStatus, Action.ErrorCourse, [], message)
  }

  /** `Result(course="")` once the link is appended to its `result` list. */
  function SuccessResult(link: string): Action.RpcResult
  {
    var result := Action.DefaultResult();
    result.(result := result.result + [link])
  }

  /** The `except` branch: the ERROR document carrying `str(ex.args[0])`, or the
      `IndexError` that escapes the handler when `args` is empty. */
  function ErrorReply(e: Exc): (r: Result<string, Exc>)
    ensures r.Err? <==> |e.args| == 0
    ensures r.Err? ==> r.error == IndexError()
    ensures r.Ok? ==> ReadReply(r.value) == Some(ErrorResult(e.args[0]))
  {
    match FirstArg(e)
    case Err(indexError) => Err(indexError)
    case Ok(message) =>
      Action.ResultJsonRoundTrip(ErrorResult(message));
      Ok(Json.Dumps(Action.ToDict(ErrorResult(message))))
  }

  /** What `execute_rpc_action` returns for the outcome of the report and the
      upload: exactly one document, OK with the link as the only result when the
      outcome is a link, ERROR with empty result and course "course_type" when it
      is a failure. */
  function Reply(outcome: Result<string, Exc>): (r: Result<string, Exc>)
    ensures outcome.Ok? ==> (r.Ok? && ReadReply(r.value)
      == Some(Action.RpcResult(Dc.OkStatus, "", [outcome.value], Dc.DefaultMessage)))
    ensures outcome.Err? ==> r == ErrorReply(outcome.error)
    ensures r.Ok? ==> (ReadReply(r.value).Some?
      && (ReadReply(r.value).value.status == Dc.OkStatus <==> outcome.Ok?))
  {
    match outcome
    case Ok(link) =>
      assert SuccessResult(link) == Action.RpcResult(Dc.OkStatus, "", [link], Dc.DefaultMessage) by {
        assert [] + [link] == [link];
      }
      Action.ResultJsonRoundTrip(SuccessResult(link));
      Ok(Json.Dumps(Action.ToDict(SuccessResult(link))))
    case Err(e) => ErrorReply(e)
  }

  class MainApp {
    const yaDisk: YaDisk.YaDiskAccessor
    const speedReport: SpeedAccessor.SpeedReport
    /** The day the process imported `speed/utils.py`, whose functions take it as
        their default date. */
    const imported: Calendar.Date

    constructor (yaDisk: YaDisk.YaDiskAccessor, speedReport: SpeedAccessor.SpeedReport, imported: Calendar.Date)
      ensures this.yaDisk == yaDisk && this.speedReport == speedReport && this.imported == imported
    {
      this.yaDisk := yaDisk;
      this.speedReport := speedReport;
      this.imported := imported;
    }

    /** The report, then its upload under the name the report service gave it,
        on a disk holding `files`: the public link or the first failure. */
    function Outcome(files: set<string>, reportType: PyValue, startDate: PyValue, endDate: PyValue,
                     today: Calendar.Date): (r: Result<string, Exc>)
      requires Calendar.Valid(today) && Calendar.Valid(imported)
      ensures var file := Action.ExecuteReport(speedReport, reportType, startDate, endDate, today, imported);
        && (file.Err? ==> r == Err(file.error))
        && (file.Ok? ==> r == yaDisk.LinkResult(files, file.value.name))
    {
      match Action.ExecuteReport(speedReport, reportType, startDate, endDate, today, imported)
      case Err(e) => Err(e)
      case Ok(file) => yaDisk.LinkResult(files, file.name)
    }

    /** The disk after the action: unchanged unless a report was fetched, and
        then as the upload leaves it, whether or not publishing succeeds. */
    function FilesAfter(files: set<string>, reportType: PyValue, startDate: PyValue, endDate: PyValue,
                        today: Calendar.Date): (r: set<string>)
      requires Calendar.Valid(today) && Calendar.Valid(imported)
      ensures files <= r && |r - files| <= 1
      ensures Action.ExecuteReport(speedReport, reportType, startDate, endDate, today, imported).Err? ==> r == files
    {
      match Action.ExecuteReport(speedReport, reportType, startDate, endDate, today, imported)
      case Err(_) => files
      case Ok(file) => yaDisk.UploadedFiles(files, file.name)
    }

    /** `execute_rpc_action`. */
    method ExecuteRpcAction(reportType: PyValue, startDate: PyValue, endDate: PyValue, today: Calendar.Date)
      returns (r: Result<string, Exc>)
      requires Calendar.Valid(today) && Calendar.Valid(imported)
      modifies yaDisk`files
      ensures r == Reply(Outcome(old(yaDisk.files), reportType, startDate, endDate, today))
      ensures yaDisk.files == FilesAfter(old(yaDisk.files), reportType, startDate, endDate, today)
    {
      var result := Action.DefaultResult();
      var file := Action.ExecuteReport(speedReport, reportType, startDate, endDate, today, imported);
      if file.Err? {
        return ErrorReply(file.error);
      }
      var link := yaDisk.UploadAndGetPublicDownloadLink(file.value.name);
      if link.Err? {
        return ErrorReply(link.error);
      }
      result := result.(result := result.result + [link.value]);
      return Ok(Json.Dumps(Action.ToDict(result)));
    }

    /** An unknown report type (including "week") is answered with the ERROR
        document carrying the unknown-type message, and the disk is not touched. */
    lemma UnknownTypeReply(files: set<string>, reportType: PyValue, startDate: PyValue, endDate: PyValue,
                           today: Calendar.Date)
      requires Calendar.Valid(today) && Calendar.Valid(imported)
      requires Action.Route(reportType, startDate, endDate).None?
      ensures var r := Reply(Outcome(files, reportType, startDate, endDate, today));
        r.Ok? && ReadReply(r.value) == Some(ErrorResult(Action.UnknownReportType))
      ensures FilesAfter(files, reportType, startDate, endDate, today) == files
    {
    }

    /** With a token that fails the check, every fetched report is answered with
        the ERROR document carrying the token message, and nothing is uploaded. */
    lemma TokenInvalidReply(files: set<string>, reportType: PyValue, startDate: PyValue, endDate: PyValue,
                            today: Calendar.Date)
      requires Calendar.Valid(today) && Calendar.Valid(imported) && !yaDisk.tokenValid
      requires Action.ExecuteReport(speedReport, reportType, startDate, endDate, today, imported).Ok?
      ensures var r := Reply(Outcome(files, reportType, startDate, endDate, today));
        r.Ok? && ReadReply(r.value) == Some(ErrorResult(TokenFailed))
      ensures FilesAfter(files, reportType, startDate, endDate, today) == files
    {
      var file := Action.ExecuteReport(speedReport, reportType, startDate, endDate, today, imported).value;
      assert yaDisk.LinkResult(files, file.name) == Err(YaDisk.TokenError());
    }

    /** An OK reply means the report was fetched and uploaded under the name the
        report service assigned, and the reply's only result is the link. */
    lemma OkReplyUploadedReport(files: set<string>, reportType: PyValue, startDate: PyValue, endDate: PyValue,
                                today: Calendar.Date)
      requires Calendar.Valid(today) && Calendar.Valid(imported)
      requires var r := Reply(Outcome(files, reportType, startDate, endDate, today));
        r.Ok? && ReadReply(r.value).Some? && ReadReply(r.value).value.status == Dc.OkStatus
      ensures var file := Action.ExecuteReport(speedReport, reportType, startDate, endDate, today, imported);
        && file.Ok?
        && var upload := yaDisk.UploadResult(files, file.value.name);
        && upload.Ok?
        && FilesAfter(files, reportType, startDate, endDate, today) == files + {upload.value}
        && ReadReply(Reply(Outcome(files, reportType, startDate, endDate, today)).value).value.result
           == [yaDisk.LinkResult(files, file.value.name).value]
    {
    }

    /** A failure whose `args` is empty, such as a bare `ExceptionBase()`, is not
        answered: the handler itself raises `IndexError`. */
    lemma EmptyArgsEscape(cause: Option<Exc>)
      ensures Reply(Err(New(ExceptionBase, [], cause))) == Err(IndexError())
    {
    }
  }
}
