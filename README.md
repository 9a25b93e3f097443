# rpc_speed in Dafny

This project models `rpc_speed`, a RabbitMQ RPC worker. The worker takes a
report request from a queue and picks a window of dates. It then fetches the
speed-analysis report for that window, uploads it to Yandex Disk, and publishes
one JSON reply to the caller's `reply_to` queue under the request's
`correlation_id`.

The model follows the source file by file:

| module | source file | form |
|---|---|---|
| `Dc` | `rpc/dc.py` | the `Response` envelope as a datatype, `to_bytes` as a function |
| `Exceptions` | `ya_disk/exception.py` | the `ExceptionBase` family as a datatype, `__init__`/`__str__` as functions |
| `SpeedUtils` | `speed/utils.py` | week and month arithmetic as functions; `get_last_day_of_month`'s loop as a method |
| `SpeedAccessor` | `speed/accessor.py` | URL building, naming and the report windows as functions |
| `ExecuteRpcAction` | `speed/execute_rpc_action.py` | the `Result` envelope and the `execute_report` table |
| `YaDisk` | `ya_disk/accessor.py` | class `YaDiskAccessor` whose `files` (the paths on the disk) `upload` and `remove` change |
| `App` | `app/__init__.py` | class `MainApp` and its `execute_rpc_action` |
| `RpcServer` | `rpc/rpc_server.py` | class `RPCServer`: the consume loop over a sequence of broker events, appending to the publication and settlement traces |

Five support modules hold the Python library behaviour the core relies on:

- `Calendar` models `datetime`: proleptic Gregorian dates, `timedelta` arithmetic, `isocalendar`, `strptime("%Y-%m-%d")` and `isoformat()[:10]`.
- `Json` models `json.dumps` with its default `ensure_ascii` escaping (RFC 8259 sections 4 and 7), plus a reader for that layout.
- `Utf8` models `str.encode("utf-8")`.
- `Strings` models `split`/`join` and `str(int)`.
- `Wrappers` holds `Option` and `Result`.

The clock is a parameter: `today` is the day `datetime.now()` would read. The
report HTTP request, the Yandex Disk client and the broker's exchange are
oracles fixed per object: the error they raise for an input, if any.

On its failure paths the code does the following:

- A message without `reply_to` fails the `assert` inside the `try`. It takes the error branch, so an ERROR reply is attempted with routing key `None` (`RpcServer.RPCServer.MissingReplyTo`).
- An exception raised while publishing a reply leaves `message.process`, so the message is rejected (not requeued). The loop then ends and the connection is closed (`RpcServer.RejectEndsLoop`).
- `str(e)` of an `ExceptionBase` with empty `args` raises `IndexError`. In the server's error branch that rejects the message without any reply. In `MainApp.execute_rpc_action` it escapes the handler (`App.MainApp.EmptyArgsEscape`).

The last-week and last-month reports take their reference date from a default argument of `speed/utils.py`, fixed when the module is imported. The request path (`ExecuteRpcAction.ExecuteReport`, `App.MainApp`, `RpcServer.RPCServer`) uses that import date, as the code does. The windows the report names promise are defined beside it, and "## Findings" compares the two.

## Model

| member | source | states |
|---|---|---|
| Dc.Default | rpc_speed/rpc/dc.py:6-10 | `Response()` has status "OK", message "Успешно" and an empty result list |
| Dc.ToDict | rpc_speed/rpc/dc.py:12-13 | `to_dict` has exactly the keys status, message, result, in that order |
| Dc.ToBytesAscii | rpc_speed/rpc/dc.py:15-16 | `to_bytes` is ASCII: one byte below 0x80 per character of the JSON text |
| Dc.ToBytesRoundTrip | rpc_speed/rpc/dc.py:15-16 | reading `to_bytes` back as JSON gives the same status, message and result, for every response |
| Dc.EscapeBmp | rpc_speed/rpc/dc.py:16 | each character from U+007F to U+FFFF is written as one six-character `\uXXXX` escape, in order |
| Dc.DefaultMessageEscaped | rpc_speed/rpc/dc.py:9 | "Успешно" is written as seven `\u` escapes, 42 ASCII characters |
| Json.DumpsRoundTrip | rpc_speed/rpc/dc.py:16 | every flat object `json.dumps` writes reads back to the same members |
| Json.DumpsAscii | rpc_speed/rpc/dc.py:16 | `json.dumps` with `ensure_ascii` writes only ASCII |
| Exceptions.New | rpc_speed/ya_disk/exception.py:14-25 | given arguments replace the class-level default; the cause is stored exactly when one is passed |
| Exceptions.StrIsFirstArg | rpc_speed/ya_disk/exception.py:27-34 | `str(e)` is `e.args[0]`, and it fails exactly when `args` is empty |
| Exceptions.DefaultMessages | rpc_speed/ya_disk/exception.py:37-46 | each class without arguments reads its class message; bare `ExceptionBase` has none and raises `IndexError` |
| Exceptions.Hierarchy | rpc_speed/ya_disk/exception.py:37-46 | the token error is a `YandexDiskException`; `YaFileNotFound` is not; all are `ExceptionBase` |
| Exceptions.QuoteForDouble | rpc_speed/speed/utils.py:6 | `repr` of a text, as `strptime`'s error writes it, uses double quotes exactly when the text holds `'` and no `"` |
| Exceptions.EscapeAllPlain | rpc_speed/speed/utils.py:6 | `repr` writes a text unchanged between its quotes exactly when no character is a backslash, the quote, a control character or DEL |
| Exceptions.PyReprPlain | rpc_speed/speed/utils.py:6 | a text with no quote, backslash or control character is only wrapped in single quotes |
| Exceptions.PyReprQuotes | rpc_speed/speed/utils.py:6 | `repr("it's")` is `"it's"`, in double quotes and unescaped |
| Exceptions.PyReprBackslash | rpc_speed/speed/utils.py:6 | `repr` doubles a backslash: `a\b` is written `'a\\b'` |
| Calendar.IsoCalendarSound | rpc_speed/speed/utils.py:7 | `isocalendar` puts a date in week 1 to 53 of a neighbouring year, `weekday()+1` days into that week |
| Calendar.IsoWeekStart | rpc_speed/speed/utils.py:7 | the Monday of a date's week is `7*(week-1)` days after the week-1 Monday of its ISO year |
| Calendar.IsoWeekday | rpc_speed/speed/utils.py:7 | the ISO day of the week is `weekday() + 1` |
| Calendar.ParseFormat | rpc_speed/speed/utils.py:43 | `strptime` of `isoformat()[:10]` gives the date back |
| Calendar.ParseQuotesAsRepr | rpc_speed/speed/utils.py:6 | `strptime("it's", "%Y-%m-%d")` raises `ValueError` with `time data "it's" does not match format '%Y-%m-%d'`, the text quoted as `repr` does |
| Calendar.FormatInjective | rpc_speed/speed/utils.py:26 | distinct dates print differently |
| Calendar.AddDays | rpc_speed/speed/utils.py:23-25 | `d + timedelta(days=n)` moves the ordinal by `n`; `OverflowError` exactly outside years 1 to 9999 or the `timedelta` range |
| Calendar.AddDaysInverse | rpc_speed/speed/utils.py:61-64 | adding `n` days, then `-n` days, gives the date back |
| SpeedUtils.GetWeekNumber | rpc_speed/speed/utils.py:5-7 | the ISO week, 1 to 53, of the parsed date; the parse error otherwise |
| SpeedUtils.DefaultWeekNumber | rpc_speed/speed/utils.py:5-7 | `get_week_number()` with its default argument, the text of the day the module was imported, is that day's ISO week |
| SpeedUtils.WeekRange | rpc_speed/speed/utils.py:21-25 | start is a Monday `7*(week-1)` days after the week-1 Monday, end is 6 days later; fails exactly when out of range |
| SpeedUtils.GetStartEndOfWeek | rpc_speed/speed/utils.py:10-26 | the two 10-character texts parse back to that Monday and Sunday |
| SpeedUtils.WeekOfIsoCalendar | rpc_speed/speed/utils.py:5-26 | the week for a date's own ISO year and week holds the date, `weekday()` days after its Monday |
| SpeedUtils.GetFirstDayOfMonth | rpc_speed/speed/utils.py:29-44 | the text of day 1 of the same year and month; the parse error otherwise |
| SpeedUtils.FirstOfMonth | rpc_speed/speed/utils.py:42 | `date - timedelta(date.day - 1)` is the first of the month |
| SpeedUtils.LastDayOfMonth | rpc_speed/speed/utils.py:47-66 | the month's last day: same year and month, day `DaysInMonth`, and the next day is in the following month; fails exactly on a parse error or in January of year 1 and December 9999 |
| SpeedUtils.LastDayOf | rpc_speed/speed/utils.py:59-66 | as above; `OverflowError` exactly for January of year 1 and December 9999 |
| SpeedUtils.GetLastDayOfMonth | rpc_speed/speed/utils.py:47-66 | the method's result is `LastDayOfMonth` and its loop runs at most 4 times |
| SpeedUtils.LastDayOfDate | rpc_speed/speed/utils.py:60-66 | after parsing, the steps compute `LastDayOf` in at most 4 loop iterations |
| SpeedUtils.StepOutOfMonth | rpc_speed/speed/utils.py:62-63 | from day 28 the loop ends on the day after the month's last day, or fails only in December 9999; at most 4 steps |
| SpeedUtils.DayBeforeFirst | rpc_speed/speed/utils.py:61 | the day before the first of a month exists except in January of year 1 |
| SpeedUtils.Day28 | rpc_speed/speed/utils.py:61 | 28 days after the day before the first is day 28 of the month |
| SpeedUtils.FirstAndLastDayOfMonth | rpc_speed/speed/utils.py:69-83 | day 1 and the last day of the parsed date's month, both 10 characters; fails exactly on a parse error (raised unchanged) or, with `OverflowError`, in January of year 1 and December 9999 |
| SpeedUtils.GetFirstAndLastDayOfMonth | rpc_speed/speed/utils.py:69-83 | the method computes `FirstAndLastDayOfMonth` |
| SpeedAccessor.CreateRequestUrl | rpc_speed/speed/accessor.py:25-31 | base URL + relative URL + "?" starts the URL, and is all of it exactly when there are no parameters |
| SpeedAccessor.CreateRequestUrlQuery | rpc_speed/speed/accessor.py:25-31 | the query reads back as the parameters, in argument order, when keys hold no `=`/`&` and values no `&` |
| SpeedAccessor.GetReportByDate | rpc_speed/speed/accessor.py:38-53 | the report URL's query is `start_date` then `end_date`; the request error is raised |
| SpeedAccessor.DefaultNameFields | rpc_speed/speed/accessor.py:71 | with 10-character dates the default name is 41 characters, with the dates at fixed positions |
| SpeedAccessor.GetReport | rpc_speed/speed/accessor.py:55-72 | the report is named `name` when it is truthy, else "report_from {start}_to_{end}.xlsx" |
| SpeedAccessor.WindowReport | rpc_speed/speed/accessor.py:83-86 | a window's report is fetched for its two dates under the default name |
| SpeedAccessor.WeekWindow | rpc_speed/speed/accessor.py:82-84 | today-6 through today; `OverflowError` exactly when today-6 is before year 1 |
| SpeedAccessor.MonthWindow | rpc_speed/speed/accessor.py:96-98 | today-29 through today; `OverflowError` exactly when today-29 is before year 1 |
| SpeedAccessor.GetReportCurrentDay | rpc_speed/speed/accessor.py:102-111 | start = end = today, named "report_from {today}.xlsx" |
| SpeedAccessor.CurrentWeekWindow | rpc_speed/speed/accessor.py:113-125 | corrected: Monday to Sunday of the week holding today; defined away from the ends of the calendar |
| SpeedAccessor.LastWeekWindow | rpc_speed/speed/accessor.py:138-150 | corrected: Monday to Sunday of the week before the one holding today |
| SpeedAccessor.CurrentMonthWindow | rpc_speed/speed/accessor.py:127-136 | corrected: first and last day of the month of today |
| SpeedAccessor.LastMonthWindow | rpc_speed/speed/accessor.py:152-165 | corrected: the texts of the first and last day of the month before today's; fails only in January of year 1 |
| SpeedAccessor.CurrentWeekWindowAsWritten | rpc_speed/speed/accessor.py:121-123 | as written: the week-1 Monday of today's calendar year plus the import date's ISO week number |
| SpeedAccessor.LastWeekWindowAsWritten | rpc_speed/speed/accessor.py:146-148 | as written: the same with the week number minus one |
| SpeedAccessor.CurrentMonthWindowAsWritten | rpc_speed/speed/accessor.py:135 | as written: starts on the first of the import date's month |
| SpeedAccessor.LastMonthWindowAsWritten | rpc_speed/speed/accessor.py:161-163 | as written: ends in the month before the import date's month |
| SpeedAccessor.StaleCurrentMonth | rpc_speed/speed/accessor.py:135 | imported in another month, the current-month report does not start on the first of today's month |
| SpeedAccessor.StaleLastMonth | rpc_speed/speed/accessor.py:161-163 | imported in another month, the last-month report does not end where the intended one does |
| SpeedAccessor.StaleCurrentWeek | rpc_speed/speed/accessor.py:121-123 | once the ISO week changed since import, the current-week report does not start on today's Monday |
| SpeedAccessor.StaleLastWeek | rpc_speed/speed/accessor.py:146-148 | likewise, the last-week report does not start on the Monday a week before today's |
| SpeedAccessor.IsoYearMismatch | rpc_speed/speed/accessor.py:121-123 | when today's ISO year is not its calendar year, the current-week report misses today's week even with a fresh import |
| SpeedAccessor.IsoYearMismatchExample | rpc_speed/speed/accessor.py:121-123 | 2021-01-01 is day 5 of ISO week 53 of 2020, and the report as written starts 367 days later |
| ExecuteRpcAction.DefaultResult | rpc_speed/speed/execute_rpc_action.py:21-26 | `Result()` has status "OK", course "", result [] and message "Успешно" |
| ExecuteRpcAction.ToDict | rpc_speed/speed/execute_rpc_action.py:28-29 | `to_dict` lists status, course, result, message in that order |
| ExecuteRpcAction.ResultJsonRoundTrip | rpc_speed/speed/execute_rpc_action.py:21-29 | the JSON text of a `Result` reads back to the same four fields |
| ExecuteRpcAction.Route | rpc_speed/speed/execute_rpc_action.py:36-47 | exactly the five handled names choose a method, each its own one; every other value (including "week") none |
| ExecuteRpcAction.WeekIsUnknown | rpc_speed/speed/execute_rpc_action.py:11-47 | "week" is listed in `REPORT_TYPE` but fails as unknown |
| ExecuteRpcAction.DatesIgnored | rpc_speed/speed/execute_rpc_action.py:38-47 | for every type but "date_range" the dates do not affect the outcome |
| ExecuteRpcAction.DateRangeForwards | rpc_speed/speed/execute_rpc_action.py:36-37 | "date_range" fetches exactly `str(start_date)`, `str(end_date)` under the default name |
| ExecuteRpcAction.DayReportDates | rpc_speed/speed/accessor.py:102-111 | "day" fetches today to today, named "report_from {today}.xlsx" |
| ExecuteRpcAction.MonthReportDates | rpc_speed/speed/accessor.py:88-100 | "month" fetches from 29 days before today through today under the default name; `OverflowError` in the first 29 days of the calendar |
| ExecuteRpcAction.LastMonthReportDates | rpc_speed/speed/accessor.py:152-165 | "last_month" fetches the first to the last day of the month before the import date's month, whatever today is; `OverflowError` when imported in January of year 1 |
| ExecuteRpcAction.LastWeekReportDates | rpc_speed/speed/accessor.py:138-150 | "last_week" fetches the Monday to Sunday of week `get_week_number() - 1` (the import date's ISO week minus one) counted from week 1 of today's calendar year, or the overflow that range raises |
| YaDisk.MakeFilePath | rpc_speed/ya_disk/accessor.py:100-113 | the path starts with base dir + "/" |
| YaDisk.MakeFilePathPlain | rpc_speed/ya_disk/accessor.py:110-113 | with no number the path is base dir + "/" + the name unchanged |
| YaDisk.MakeFilePathNumbered | rpc_speed/ya_disk/accessor.py:110-112 | with number k, "(k)" goes right before the first dot, or at the end |
| YaDisk.TokenError | rpc_speed/ya_disk/accessor.py:48-50 | the gate raises `YaTokenNotValidException`, which reads the token message and is a `YandexDiskException` |
| YaDisk.NotFound | rpc_speed/ya_disk/accessor.py:135 | `YaFileNotFound("File not : ...")` reads that text |
| YaDisk.YaDiskAccessor.constructor | rpc_speed/ya_disk/accessor.py:18-24 | the accessor keeps its settings and starts from the given disk |
| YaDisk.YaDiskAccessor.UploadFrom | rpc_speed/ya_disk/accessor.py:173-185 | an uploaded path was free and lies under the base dir |
| YaDisk.YaDiskAccessor.UploadOutcome | rpc_speed/ya_disk/accessor.py:173-185 | all attempts collide ⇒ `ValueError`; otherwise the first free attempt decides the outcome |
| YaDisk.YaDiskAccessor.NoAttempts | rpc_speed/ya_disk/accessor.py:173-185 | an attempt count ≤ 0 raises `ValueError` at once |
| YaDisk.YaDiskAccessor.UploadResult | rpc_speed/ya_disk/accessor.py:156-185 | a failed token check raises before any attempt |
| YaDisk.YaDiskAccessor.UploadedFiles | rpc_speed/ya_disk/accessor.py:179 | the disk gains the uploaded path exactly when the upload succeeded |
| YaDisk.YaDiskAccessor.Upload | rpc_speed/ya_disk/accessor.py:156-185 | the loop computes `UploadResult` and `UploadedFiles` with at most `ya_attempt_count` attempts |
| YaDisk.YaDiskAccessor.DownloadResult | rpc_speed/ya_disk/accessor.py:115-137 | token gate; found exactly when the unsuffixed path exists, else `YaFileNotFound` naming the file |
| YaDisk.YaDiskAccessor.Remove | rpc_speed/ya_disk/accessor.py:139-154 | token gate; removes the unsuffixed path, or `YaFileNotFound` naming the path; nothing else changes |
| YaDisk.YaDiskAccessor.UploadThenDownload | rpc_speed/ya_disk/accessor.py:115-185 | a file uploaded under its own name downloads by that name |
| YaDisk.YaDiskAccessor.LinkResult | rpc_speed/ya_disk/accessor.py:187-199 | upload, then publish, then the link: the upload's error, else the publish error, else what the link request gives |
| YaDisk.YaDiskAccessor.UploadAndGetPublicDownloadLink | rpc_speed/ya_disk/accessor.py:187-199 | the method computes `LinkResult`, and the disk keeps the upload even when publishing fails |
| App.ErrorReply | rpc_speed/app/__init__.py:49-57 | the ERROR document with course "course_type", result [] and `args[0]`; `IndexError` exactly when `args` is empty |
| App.Reply | rpc_speed/app/__init__.py:40-58 | a link becomes OK with result [link]; a failure becomes the ERROR document; a reply is OK exactly when the outcome was |
| App.MainApp.constructor | rpc_speed/app/__init__.py:13-23 | the app keeps its disk accessor, its report service and the date `speed/utils.py` was imported |
| App.MainApp.FilesAfter | rpc_speed/app/__init__.py:42-47 | the disk gains at most one path, and none when the report fails |
| App.MainApp.ExecuteRpcAction | rpc_speed/app/__init__.py:37-58 | the method answers `Reply(Outcome(...))` and leaves the disk as `FilesAfter` |
| App.MainApp.UnknownTypeReply | rpc_speed/app/__init__.py:42-44 | an unknown type is answered with ERROR "Неизвестный тип отчёта" and nothing is uploaded |
| App.MainApp.TokenInvalidReply | rpc_speed/app/__init__.py:45-57 | with a failing token every fetched report is answered with the token message |
| App.MainApp.OkReplyUploadedReport | rpc_speed/app/__init__.py:40-58 | an OK reply means the report was uploaded under its own name and the link is the only result |
| App.MainApp.EmptyArgsEscape | rpc_speed/app/__init__.py:55 | an exception with empty `args` escapes as `IndexError` |
| RpcServer.Lookup | rpc_speed/rpc/rpc_server.py:79 | a key's value is the last one given for it, and it is absent exactly when no item has the key |
| RpcServer.FirstRejected | rpc_speed/rpc/rpc_server.py:80 | the first key, in order, that names no free parameter of the bound method (`self` included) |
| RpcServer.Bind | rpc_speed/rpc/rpc_server.py:80 | `action(**data)` binds exactly when every key is a parameter and `report_type` is given; otherwise the first rejected key decides the `TypeError` ("multiple values" for `self`, "unexpected keyword" for any other), then a missing `report_type` |
| RpcServer.SelfKeyword | rpc_speed/rpc/rpc_server.py:80 | `{"self": …, "report_type": …}` raises "got multiple values for argument 'self'"; an unexpected key before `self` is reported instead |
| RpcServer.ReplyTo | rpc_speed/rpc/rpc_server.py:59-68 | the reply copies `correlation_id` and is routed to `reply_to` |
| RpcServer.ErrorBody | rpc_speed/rpc/rpc_server.py:48-49 | the error body reads back as `Response(status="ERROR", message=str(e), result=[])` |
| RpcServer.Run | rpc_speed/rpc/rpc_server.py:34-57 | the loop settles at most one message per event |
| RpcServer.RejectEndsLoop | rpc_speed/rpc/rpc_server.py:40-56 | every taken message is settled; only the last can be rejected, and a rejection ends the loop |
| RpcServer.OneReplyPerAck | rpc_speed/rpc/rpc_server.py:40-51 | one reply per acknowledged message, the n-th answering the n-th message, in delivery order |
| RpcServer.RPCServer.constructor | rpc_speed/app/__init__.py:21 | the server's action is `MainApp.execute_rpc_action`, and the traces start empty with the connection open |
| RpcServer.RPCServer.Send | rpc_speed/rpc/rpc_server.py:42-51 | a reply is acknowledged exactly when the exchange accepts it |
| RpcServer.RPCServer.BadMessage | rpc_speed/rpc/rpc_server.py:44 | the assert's message is "Bad message {message}" |
| RpcServer.RPCServer.Answer | rpc_speed/rpc/rpc_server.py:46-51 | the ERROR `Response` for a printable exception, the action's text as UTF-8 otherwise; rejected exactly when something escapes |
| RpcServer.RPCServer.Handle | rpc_speed/rpc/rpc_server.py:42-51 | one attempt per message, correlated and routed to `reply_to`; rejected exactly on failure |
| RpcServer.RPCServer.HandlingReplies | rpc_speed/rpc/rpc_server.py:42-51 | the loop body answers every message it acknowledges |
| RpcServer.RPCServer.MissingReplyTo | rpc_speed/rpc/rpc_server.py:44-50 | a message without `reply_to` still gets an ERROR reply attempt, routed to `None` |
| RpcServer.RPCServer.BadArguments | rpc_speed/rpc/rpc_server.py:45-50 | a body that does not bind is answered with the `TypeError` text; the action does not run |
| RpcServer.RPCServer.AppReplyPublished | rpc_speed/rpc/rpc_server.py:45-51 | a bound request is answered with the application's JSON text, or "tuple index out of range" |
| RpcServer.RPCServer.Start | rpc_speed/rpc/rpc_server.py:34-57 | the loop's traces, disk and exit are those of `Run`; the connection is closed on every exit |
| RpcServer.RPCServer.Serve | rpc_speed/rpc/rpc_server.py:40-51 | one pass over the first event gives the front of `Run`'s trace |
| RpcServer.RPCServer.Process | rpc_speed/rpc/rpc_server.py:42-51 | one message settles and publishes as `Handle` says |
| RpcServer.RPCServer.Respond | rpc_speed/rpc/rpc_server.py:46-51 | the reply and settlement for an outcome are those of `Answer` |
| RpcServer.RPCServer.ExecuteAction | rpc_speed/rpc/rpc_server.py:78-80 | the method computes `ActionResult` and leaves the disk as `ActionFiles` |
| RpcServer.RPCServer.Publish | rpc_speed/rpc/rpc_server.py:62-68 | a publication is recorded exactly when the exchange accepts it |

## Left out

- The broker connection (`__init__` driving the event loop, `_connect`) and `MainApp.start`/`stop`: these are aio_pika I/O and lifecycle sequencing. The connection is one flag that `start` closes.
- Logging, and `await` as a suspension point: calls run in sequence.
- Cancellation while a message is being handled: `CancelledError` is modelled only between messages.
- `assert` stripped under `python -O` is not modelled.
- `RpcServer.RPCServer.constructor` models the wiring `rpc_server(self.execute_rpc_action, ...)`, not the queue name and settings. `ExecuteAction` calls the server's `action` value, and `Wired()` ties that value to `MainApp.execute_rpc_action`. The method itself is not re-entered from the server.
- `json.loads(params.decode("utf-8"))` is an oracle (`decode`), as is the f-string text of a message (`describe`). `Lookup` takes the last value for a repeated key, as a dict built from JSON does.
- Python's `TypeError` texts for binding are modelled for the unexpected-keyword, repeated-`self` and missing-`report_type` cases, with the bound method named `MainApp.execute_rpc_action()`. A JSON body that is not an object is left to the `decode` oracle.
- RpcServer.Bind: the `TypeError` texts are those of CPython 3.10 to 3.12. The code needs 3.10 or later, for the `BytesIO | bytes` annotation. From 3.13 on, CPython appends `. Did you mean '...'?` to the unexpected-keyword text when the key is close to a parameter name, and that text reaches the ERROR reply. The suffix is not modelled.
- `SpeedReport.make_request` (aiohttp) and the report bytes: a report is the URL it came from and its name. The request's error is an oracle.
- `core/settings.py` (pydantic environment loading): the settings are parameters.
- The yadisk client (`connect`, `disconnect`, `__setup`, `list_dir`, and the bodies of the client calls): the disk is a set of paths, and the token check, upload error, publish error and download link are oracles. `asyncio.sleep(1)` is left out.
- The module-level `execute_rpc_action` in `speed/execute_rpc_action.py`: `MainApp.execute_rpc_action` supersedes it, and its success path cannot be serialised by `json.dumps`.
- Exceptions.PyRepr: characters outside ASCII are written as they are. Python's `repr` escapes the non-printable ones, as the Unicode database classes them, with `\x`, `\u` or `\U`.
- Calendar.Parse: the fields are modelled on ASCII digits: exactly four for `%Y`, and the alternatives of `%m` and `%d`, including `%d`'s space-padded day. `strptime` also accepts non-ASCII Unicode decimal digits where its pattern has `\d` (the year, and the second digit of days 10 to 29), which the model rejects.
- The `datetime.now()` clock: `today` is a parameter. The defaults evaluated at import time are a second date, `imported`, held by `App.MainApp` and passed to the `AsWritten` windows.
- `action` for a date outside years 1 to 9999 answers with a `ValueError`. No real clock gives such a date.
- Calendar.Format: it writes the year with four digits, as `isoformat()` does. `strftime("%Y-%m-%d")`, which the rolling windows and the current-day report use (`speed/accessor.py` lines 83-84, 97-98 and 110), writes years below 1000 without leading zeros on most platforms, so the model's texts differ there. No real clock gives such a date.
- `SpeedAccessor.CurrentWeekWindow` and `SpeedAccessor.LastWeekWindow`: their success is proved only away from the first and last weeks of the calendar (years 1 and 9999). There the results are still right whenever defined.

## Findings

| source | as written | input that shows it | evidently intended | confidence | as-written member | corrected member |
|---|---|---|---|---|---|---|
| rpc_speed/speed/accessor.py:135 | `get_first_and_last_day_of_month()` uses its default argument, the date when `utils.py` was imported (utils.py:70) | a worker started on 2024-01-31 and asked for the current month on 2024-02-01 reports 2024-01-01 to 2024-01-31 | the month holding today | not executed | SpeedAccessor.CurrentMonthWindowAsWritten, SpeedAccessor.StaleCurrentMonth | SpeedAccessor.CurrentMonthWindow |
| rpc_speed/speed/accessor.py:161-163 | `get_first_day_of_month()` uses the import date (utils.py:30) | started 2024-01-31, asked on 2024-02-01, it reports December 2023 | the month before today's | not executed | SpeedAccessor.LastMonthWindowAsWritten, SpeedAccessor.StaleLastMonth | SpeedAccessor.LastMonthWindow |
| rpc_speed/speed/accessor.py:121-123 | `get_week_number()` uses the import date (utils.py:5) | started in ISO week 10, asked in week 11 of the same year, it reports week 10 | the ISO week holding today | not executed | SpeedAccessor.CurrentWeekWindowAsWritten, SpeedAccessor.StaleCurrentWeek | SpeedAccessor.CurrentWeekWindow |
| rpc_speed/speed/accessor.py:146-148 | `get_week_number() - 1` uses the import date | started in ISO week 10, asked in week 11, it reports week 9 | the week before the one holding today | not executed | SpeedAccessor.LastWeekWindowAsWritten, SpeedAccessor.StaleLastWeek | SpeedAccessor.LastWeekWindow |
| rpc_speed/speed/accessor.py:121-123 | the calendar year `datetime.now().year` is combined with an ISO week number | 2021-01-01 is in ISO week 53 of 2020; the code reports week 53 counted from 2021's week 1, starting 2022-01-03 | the ISO year together with its week | not executed | SpeedAccessor.CurrentWeekWindowAsWritten, SpeedAccessor.IsoYearMismatch, SpeedAccessor.IsoYearMismatchExample | SpeedAccessor.CurrentWeekWindow |
