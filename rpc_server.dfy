/** rpc/rpc_server.py: `RPCServer`, the consume loop. Each delivered message is
    handled inside `message.process(requeue=False)`: the body is decoded and
    bound to the action's keyword arguments, the action runs, and one reply is
    published to the message's `reply_to` with its `correlation_id`, carrying
    the action's text or, on any exception, an ERROR `Response`. The message is
    acknowledged when the block ends normally and rejected (never requeued) when
    an exception leaves it; such an exception also ends the loop, and the
    connection is closed on every way out.

    The broker is a sequence of events: a delivery (with the day the action sees
    as today) or the cancellation of the consuming task. What the exchange does
    with a publication is an oracle: it accepts it or raises. */
module RpcServer {
  import opened Wrappers
  import opened Exceptions
  import Calendar
  import Utf8
  import Dc
  import Action = ExecuteRpcAction
  import App

  type PyValue = Action.PyValue

  /** An incoming message: its body and the two properties the server reads. */
  datatype Message = Message(body: seq<Utf8.byte>, correlationId: Option<string>, replyTo: Option<string>)

  /** `exchange.publish(Message(body, correlation_id=...), routing_key=...)`. */
  datatype Publication = Publication(body: seq<Utf8.byte>, correlationId: Option<string>, routingKey: Option<string>)

  /** How `message.process(requeue=False)` settles a message. */
  datatype Settlement = Ack | Reject

  datatype Event = Deliver(message: Message, today: Calendar.Date) | Cancel

  /** Why `start` returned: cancelled, ended by an exception (re-raised after the
      connection is closed), or still waiting for the next message. */
  datatype Exit = Cancelled | Crashed(error: Exc) | Waiting

  /** What handling one message does: the publish it attempts (if it gets that
      far), how the message is settled, the disk afterwards, and the exception
      that leaves the `process` block, if any. */
  datatype Step = Step(attempt: Option<Publication>, settlement: Settlement, files: set<string>, failure: Option<Exc>)

  /** What `start` does with a sequence of events. */
  datatype Trace = Trace(published: seq<Publication>, settled: seq<Settlement>, files: set<string>, exit: Exit)

  /** How Python names the bound method in its `TypeError` messages. */
  const ActionName := "MainApp.execute_rpc_action()"
  const UnexpectedKeyword := " got an unexpected keyword argument "
  const MultipleValues := " got multiple values for argument "
  const MissingReportType := " missing 1 required positional argument: 'report_type'"
  const BadMessagePrefix := "Bad message "

  /** What the action does with its arguments on a disk holding the given files:
      the text it returns or the exception it raises, and the disk afterwards. */
  type ActionFn = (set<string>, PyValue, PyValue, PyValue, Calendar.Date) -> (Result<string, Exc>, set<string>)

  /** The keyword arguments the action accepts. `self` is a parameter of the
      method too, but the bound method has already filled it. */
  predicate IsParameter(key: string)
  {
    key == "report_type" || key == "start_date" || key == "end_date"
  }

  /** The receiver's parameter name, which a keyword argument cannot fill again. */
  const SelfParameter := "self"

  /** The value a decoded dict holds for `key`: the last one given. */
  function Lookup(data: seq<(string, PyValue)>, key: string): (r: Option<PyValue>)
    ensures r.None? <==> forall i :: 0 <= i < |data| ==> data[i].0 != key
    ensures r.Some? ==> exists i :: 0 <= i < |data| && data[i] == (key, r.value)
                                    && forall j :: i < j < |data| ==> data[j].0 != key
  {
    if data == [] then None
    else if data[|data| - 1].0 == key then
      assert data[|data| - 1] == (key, data[|data| - 1].1);
      Some(data[|data| - 1].1)
    else
      var rest := data[..|data| - 1];
      var r := Lookup(rest, key);
      assert forall i :: 0 <= i < |rest| ==> rest[i] == data[i];
      assert r.Some? ==> exists i :: 0 <= i < |data| && data[i] == (key, r.value)
                                     && forall j :: i < j < |data| ==> data[j].0 != key by {
        if r.Some? {
          var i :| 0 <= i < |rest| && rest[i] == (key, r.value) && forall j :: i < j < |rest| ==> rest[j].0 != key;
          assert data[i] == (key, r.value);
        }
      }
      r
  }

  /** The first key, in order, that the call rejects: one that names no free
      parameter, `self` included. */
  function FirstRejected(data: seq<(string, PyValue)>): (r: Option<string>)
    ensures r.None? <==> forall i :: 0 <= i < |data| ==> IsParameter(data[i].0)
    ensures r.Some? ==> !IsParameter(r.value)
    ensures r.Some? ==> exists i :: (0 <= i < |data| && data[i].0 == r.value
                                     && (forall j :: 0 <= j < i ==> IsParameter(data[j].0)))
  {
    if data == [] then None
    else if !IsParameter(data[0].0) then Some(data[0].0)
    else
      var r := FirstRejected(data[1..]);
      if r.None? then
        assert forall i :: 0 <= i < |data| ==> IsParameter(data[i].0) by {
          forall i | 0 <= i < |data| ensures IsParameter(data[i].0) {
            if i > 0 {
              assert data[i] == data[1..][i - 1];
            }
          }
        }
        r
      else
        var k :| 0 <= k < |data[1..]| && data[1..][k].0 == r.value
          && forall j :: 0 <= j < k ==> IsParameter(data[1..][j].0);
        assert data[k + 1].0 == r.value;
        assert forall j :: 0 <= j < k + 1 ==> IsParameter(data[j].0) by {
          forall j | 0 <= j < k + 1 ensures IsParameter(data[j].0) {
            if j > 0 {
              assert data[j] == data[1..][j - 1];
            }
          }
        }
        r
  }

  /** A `None` for an argument left out. */
  function OrNone(v: Option<PyValue>): PyValue
  {
    match v
    case None => Action.PyNone
    case Some(x) => x
  }

  /** `self.action(**data)`: bind the dict to `report_type`, `start_date=None`,
      `end_date=None`, or raise the `TypeError` Python raises. Keys are checked
      in order and the first rejected one decides: `self` is given twice, any
      other is unexpected. Only then is a missing `report_type` reported. */
  function Bind(data: seq<(string, PyValue)>): (r: Result<(PyValue, PyValue, PyValue), Exc>)
    ensures r.Ok? <==> (forall i :: 0 <= i < |data| ==> IsParameter(data[i].0)) && Lookup(data, "report_type").Some?
    ensures r.Ok? ==> r.value == (Lookup(data, "report_type").value, OrNone(Lookup(data, "start_date")),
                                 OrNone(Lookup(data, "end_date")))
    ensures FirstRejected(data) == Some(SelfParameter) ==>
      r == Err(TypeError(ActionName + MultipleValues + Quoted(SelfParameter)))
    ensures FirstRejected(data).Some? && FirstRejected(data).value != SelfParameter ==>
      r == Err(TypeError(ActionName + UnexpectedKeyword + Quoted(FirstRejected(data).value)))
    ensures r.Err? && FirstRejected(data).None? ==>
      r == Err(TypeError(ActionName + MissingReportType))
  {
    match FirstRejected(data)
    case Some(key) =>
      if key == SelfParameter then Err(TypeError(ActionName + MultipleValues + Quoted(key)))
      else Err(TypeError(ActionName + UnexpectedKeyword + Quoted(key)))
    case None =>
      match Lookup(data, "report_type")
      case None => Err(TypeError(ActionName + MissingReportType))
      case Some(reportType) => Ok((reportType, OrNone(Lookup(data, "start_date")), OrNone(Lookup(data, "end_date"))))
  }

  /** A `self` key is refused as given twice, unless an unexpected key comes
      before it in the dict. */
  lemma SelfKeyword(value: PyValue, reportType: PyValue)
    ensures Bind([(SelfParameter, value), ("report_type", reportType)])
      == Err(TypeError(ActionName + MultipleValues + Quoted(SelfParameter)))
    ensures Bind([("x", value), (SelfParameter, value), ("report_type", reportType)])
      == Err(TypeError(ActionName + UnexpectedKeyword + Quoted("x")))
  {
    assert FirstRejected([(SelfParameter, value), ("report_type", reportType)]) == Some(SelfParameter);
    assert FirstRejected([("x", value), (SelfParameter, value), ("report_type", reportType)]) == Some("x");
  }

  /** `_reply_to`: the reply goes to the message's `reply_to` with its `correlation_id`. */
  function ReplyTo(message: Message, body: seq<Utf8.byte>): (p: Publication)
    ensures p.body == body && p.correlationId == message.correlationId && p.routingKey == message.replyTo
  {
    Publication(body, message.correlationId, message.replyTo)
  }

  /** The body of the ERROR reply for an exception printed as `text`. */
  function ErrorBody(text: string): (b: seq<Utf8.byte>)
    ensures Dc.FromBytes(b) == Some(Dc.Response(Dc.ErrorStatus, text, []))
  {
    Dc.ToBytesRoundTrip(Dc.Response(Dc.ErrorStatus, text, []));
    Dc.ToBytes(Dc.Response(Dc.ErrorStatus, text, []))
  }

  class RPCServer {
    /** The application whose `execute_rpc_action` is the server's action. */
    const app: App.MainApp
    /** `self.action`, as what it answers and the disk it leaves. */
    const action: ActionFn
    /** `json.loads(params.decode("utf-8"))` as keyword arguments, or what it raises
        (including the `TypeError` for a decoded value that is not a dict). */
    const decode: seq<Utf8.byte> -> Result<seq<(string, PyValue)>, Exc>
    /** What an f-string writes for the message. */
    const describe: Message -> string
    /** What `exchange.publish` raises, if anything. */
    const publishError: Publication -> Option<Exc>
    /** The publications the exchange accepted, in order. */
    var published: seq<Publication>
    /** The settlements of the messages taken from the queue, in order. */
    var settled: seq<Settlement>
    var connectionOpen: bool

    /** `rpc_server(self.execute_rpc_action, logger)`: the action is the
        application's. */
    constructor (app: App.MainApp, decode: seq<Utf8.byte> -> Result<seq<(string, PyValue)>, Exc>,
                 describe: Message -> string, publishError: Publication -> Option<Exc>)
      ensures this.app == app && this.decode == decode && this.describe == describe
      ensures this.publishError == publishError
      ensures published == [] && settled == [] && connectionOpen
      ensures Wired()
    {
      this.app := app;
      this.action := (files: set<string>, reportType: PyValue, startDate: PyValue, endDate: PyValue, today: Calendar.Date) =>
        if Calendar.Valid(today) && Calendar.Valid(app.imported) then
          (App.Reply(app.Outcome(files, reportType, startDate, endDate, today)),
           app.FilesAfter(files, reportType, startDate, endDate, today))
        else (Err(ValueError(Calendar.OutOfRange)), files);
      this.decode := decode;
      this.describe := describe;
      this.publishError := publishError;
      published := [];
      settled := [];
      connectionOpen := true;
    }

    /** `action` answers as `MainApp.execute_rpc_action` does, for one call. */
    ghost predicate ActsAsApp(files: set<string>, reportType: PyValue, startDate: PyValue, endDate: PyValue,
                              today: Calendar.Date)
    {
      Calendar.Valid(today) && Calendar.Valid(app.imported) ==>
        action(files, reportType, startDate, endDate, today)
          == (App.Reply(app.Outcome(files, reportType, startDate, endDate, today)),
              app.FilesAfter(files, reportType, startDate, endDate, today))
    }

    /** The server's action is the application's, for every call. */
    ghost predicate Wired()
    {
      forall files, reportType, startDate, endDate, today {:trigger ActsAsApp(files, reportType, startDate, endDate, today)} ::
        ActsAsApp(files, reportType, startDate, endDate, today)
    }

    /** `_execute_action` on a disk holding `files`: decode, bind, run the action. */
    function ActionResult(files: set<string>, body: seq<Utf8.byte>, today: Calendar.Date): (r: Result<string, Exc>)
      ensures decode(body).Err? ==> r == Err(decode(body).error)
      ensures decode(body).Ok? && Bind(decode(body).value).Err? ==> r == Err(Bind(decode(body).value).error)
      ensures decode(body).Ok? && Bind(decode(body).value).Ok? ==>
        var (reportType, startDate, endDate) := Bind(decode(body).value).value;
        r == action(files, reportType, startDate, endDate, today).0
    {
      match decode(body)
      case Err(e) => Err(e)
      case Ok(data) =>
        match Bind(data)
        case Err(e) => Err(e)
        case Ok((reportType, startDate, endDate)) => action(files, reportType, startDate, endDate, today).0
    }

    /** The disk after `_execute_action`: only a bound call runs the action. */
    function ActionFiles(files: set<string>, body: seq<Utf8.byte>, today: Calendar.Date): (r: set<string>)
      ensures decode(body).Err? || Bind(decode(body).value).Err? ==> r == files
      ensures decode(body).Ok? && Bind(decode(body).value).Ok? ==>
        var (reportType, startDate, endDate) := Bind(decode(body).value).value;
        r == action(files, reportType, startDate, endDate, today).1
    {
      match decode(body)
      case Err(_) => files
      case Ok(data) =>
        match Bind(data)
        case Err(_) => files
        case Ok((reportType, startDate, endDate)) => action(files, reportType, startDate, endDate, today).1
    }

    /** Sending `body` as the reply to `message`: acknowledged when the exchange
        accepts it, rejected with the publish error otherwise. */
    function Send(message: Message, body: seq<Utf8.byte>, files: set<string>): (s: Step)
      ensures s.attempt == Some(ReplyTo(message, body)) && s.files == files
      ensures s.settlement == Ack <==> publishError(ReplyTo(message, body)).None?
      ensures s.failure == publishError(ReplyTo(message, body))
    {
      var p := ReplyTo(message, body);
      match publishError(p)
      case Some(e) => Step(Some(p), Reject, files, Some(e))
      case None => Step(Some(p), Ack, files, None)
    }

    /** The exception the `assert` on `reply_to` raises. */
    function BadMessage(message: Message): (e: Exc)
      ensures Str(e) == Ok(BadMessagePrefix + describe(message))
    {
      Builtin("AssertionError", [BadMessagePrefix + describe(message)])
    }

    /** The `try` block: the action's text, or the exception raised in it. */
    function Response(files: set<string>, message: Message, today: Calendar.Date): (r: Result<string, Exc>)
      ensures message.replyTo.None? ==> r == Err(BadMessage(message))
      ensures message.replyTo.Some? ==> r == ActionResult(files, message.body, today)
    {
      if message.replyTo.None? then Err(BadMessage(message)) else ActionResult(files, message.body, today)
    }

    /** The disk after the `try` block. */
    function ResponseFiles(files: set<string>, message: Message, today: Calendar.Date): (r: set<string>)
      ensures message.replyTo.None? ==> r == files
    {
      if message.replyTo.None? then files else ActionFiles(files, message.body, today)
    }

    /** The reply for the `try` block's outcome: the ERROR `Response` for an
        exception that prints, nothing (and a rejection) for one that does not,
        the action's text otherwise. */
    function Answer(message: Message, response: Result<string, Exc>, files: set<string>): (s: Step)
      ensures s.settlement == Reject <==> s.failure.Some?
      ensures s.attempt.Some? ==> s.attempt.value.correlationId == message.correlationId
                                  && s.attempt.value.routingKey == message.replyTo
      ensures s.attempt.None? ==> s.settlement == Reject
      ensures s.files == files
      ensures response.Err? && Str(response.error).Ok? ==>
        s.attempt.Some? && Dc.FromBytes(s.attempt.value.body) == Some(Dc.Response(Dc.ErrorStatus, Str(response.error).value, []))
      ensures response.Ok? ==> s.attempt == Some(ReplyTo(message, Utf8.Encode(response.value)))
    {
      match response
      case Err(e) =>
        (match Str(e)
         case Err(strError) => Step(None, Reject, files, Some(strError))
         case Ok(text) => Send(message, ErrorBody(text), files))
      case Ok(text) => Send(message, Utf8.Encode(text), files)
    }

    /** One pass of the loop body on a disk holding `files`. */
    function Handle(files: set<string>, message: Message, today: Calendar.Date): (s: Step)
      ensures s.settlement == Reject <==> s.failure.Some?
      ensures s.attempt.Some? ==> s.attempt.value.correlationId == message.correlationId
                                  && s.attempt.value.routingKey == message.replyTo
      ensures s.attempt.None? ==> s.settlement == Reject
    {
      Answer(message, Response(files, message, today), ResponseFiles(files, message, today))
    }

    /** The loop body as a value, for `Run`. */
    ghost function Handling(): Handler
    {
      (files: set<string>, message: Message, today: Calendar.Date) => Handle(files, message, today)
    }

    /** The server's loop body answers each message it acknowledges with one
        reply to that message. */
    lemma HandlingReplies()
      ensures RepliesToEach(Handling())
    {
      forall files: set<string>, message: Message, today: Calendar.Date
        ensures Answers(Handling()(files, message, today), message)
      {
        var s := Handle(files, message, today);
      }
    }

    /** The error reply for a message without `reply_to` is attempted with no
        routing key, and reads back as an ERROR `Response` naming the message. */
    lemma MissingReplyTo(files: set<string>, message: Message, today: Calendar.Date)
      requires message.replyTo.None?
      ensures var s := Handle(files, message, today);
        && s.attempt.Some? && s.attempt.value.routingKey.None?
        && Dc.FromBytes(s.attempt.value.body)
           == Some(Dc.Response(Dc.ErrorStatus, BadMessagePrefix + describe(message), []))
        && s.files == files
    {
    }

    /** A body that does not bind to the action's parameters is answered with an
        ERROR `Response` carrying the `TypeError` message; the action does not run. */
    lemma BadArguments(files: set<string>, message: Message, today: Calendar.Date)
      requires message.replyTo.Some?
      requires decode(message.body).Ok? && Bind(decode(message.body).value).Err?
      ensures var s := Handle(files, message, today);
        && s.attempt.Some?
        && Dc.FromBytes(s.attempt.value.body)
           == Some(Dc.Response(Dc.ErrorStatus, Bind(decode(message.body).value).error.args[0], []))
        && s.files == files
    {
      var e := Bind(decode(message.body).value).error;
      assert Str(e) == Ok(e.args[0]);
    }

    /** A request that decodes and binds is answered with the application's reply:
        its JSON text as UTF-8, or, when the application's own handler raised
        `IndexError`, an ERROR `Response` saying "tuple index out of range". The
        disk is left as the application leaves it. */
    lemma AppReplyPublished(files: set<string>, message: Message, today: Calendar.Date)
      requires Wired() && Calendar.Valid(today) && Calendar.Valid(app.imported) && message.replyTo.Some?
      requires decode(message.body).Ok? && Bind(decode(message.body).value).Ok?
      ensures var (reportType, startDate, endDate) := Bind(decode(message.body).value).value;
        var reply := App.Reply(app.Outcome(files, reportType, startDate, endDate, today));
        var s := Handle(files, message, today);
        && (reply.Ok? ==> s.attempt == Some(ReplyTo(message, Utf8.Encode(reply.value))))
        && (reply.Err? ==> (s.attempt.Some?
              && Dc.FromBytes(s.attempt.value.body) == Some(Dc.Response(Dc.ErrorStatus, TupleIndexOutOfRange, []))))
        && s.files == app.FilesAfter(files, reportType, startDate, endDate, today)
    {
      var (reportType, startDate, endDate) := Bind(decode(message.body).value).value;
      assert ActsAsApp(files, reportType, startDate, endDate, today);
    }

    /** `start`. */
    method Start(events: seq<Event>) returns (exit: Exit)
      modifies this, app.yaDisk`files
      ensures var t := Run(Handling(), old(app.yaDisk.files), events);
        && published == old(published) + t.published
        && settled == old(settled) + t.settled
        && app.yaDisk.files == t.files
        && exit == t.exit
      ensures connectionOpen == (old(connectionOpen) && exit.Waiting?)
    {
      ghost var files0 := app.yaDisk.files;
      ghost var pubs: seq<Publication> := [];
      ghost var sets: seq<Settlement> := [];
      var rest := events;
      exit := Waiting;
      while rest != []
        invariant published == old(published) + pubs && settled == old(settled) + sets
        invariant connectionOpen == old(connectionOpen) && exit == Waiting
        invariant Run(Handling(), files0, events) == Prepend(pubs, sets, Run(Handling(), app.yaDisk.files, rest))
        decreases |rest|
      {
        var next, p, s := Serve(rest);
        Assoc(old(published), pubs, p);
        Assoc(old(settled), sets, s);
        if !next.Waiting? {
          exit := next;
          pubs, sets := pubs + p, sets + s;
          break;
        }
        PrependAssoc(pubs, sets, p, s, Run(Handling(), app.yaDisk.files, rest[1..]));
        pubs, sets := pubs + p, sets + s;
        rest := rest[1..];
      }
      if exit == Waiting {
        PrependNothing(pubs, sets, app.yaDisk.files, exit);
      }
      if exit != Waiting {
        connectionOpen := false;
      }
    }

    /** One pass of the loop in `start`, on the first of the remaining events:
        what it publishes and settles is the front of the trace of those events,
        and the rest of that trace is the trace of the events after it, unless
        the pass ends the loop. */
    method Serve(events: seq<Event>) returns (exit: Exit, ghost pubs: seq<Publication>, ghost sets: seq<Settlement>)
      requires events != []
      modifies this`published, this`settled, app.yaDisk`files
      ensures published == old(published) + pubs && settled == old(settled) + sets
      ensures exit.Waiting? ==> Run(Handling(), old(app.yaDisk.files), events) == Prepend(pubs, sets, Run(Handling(), app.yaDisk.files, events[1..]))
      ensures !exit.Waiting? ==> Run(Handling(), old(app.yaDisk.files), events) == Trace(pubs, sets, app.yaDisk.files, exit)
    {
      match events[0] {
        case Cancel =>
          exit, pubs, sets := Cancelled, [], [];
        case Deliver(message, today) =>
          ghost var s := Handle(app.yaDisk.files, message, today);
          RunDeliver(app.yaDisk.files, events);
          var failure := Process(message, today);
          pubs, sets := Sent(s), [s.settlement];
          exit := if failure.Some? then Crashed(failure.value) else Waiting;
      }
    }

    /** Unfolding `Run` once, on a delivery. */
    lemma RunDeliver(files: set<string>, events: seq<Event>)
      requires events != [] && events[0].Deliver?
      ensures var s := Handle(files, events[0].message, events[0].today);
        && (s.failure.Some? ==> Run(Handling(), files, events) == Trace([], [Reject], s.files, Crashed(s.failure.value)))
        && (s.failure.None? ==> Run(Handling(), files, events) == Prepend(Sent(s), [Ack], Run(Handling(), s.files, events[1..])))
    {
    }

    /** The loop body for one message: `process(requeue=False)` around the
        `try`/`except` that answers it. */
    method Process(message: Message, today: Calendar.Date) returns (failure: Option<Exc>)
      modifies this`published, this`settled, app.yaDisk`files
      ensures var s := Handle(old(app.yaDisk.files), message, today);
        && failure == s.failure
        && settled == old(settled) + [s.settlement]
        && published == old(published) + Sent(s)
        && app.yaDisk.files == s.files
    {
      var response: Result<string, Exc>;
      if message.replyTo.None? {
        response := Err(BadMessage(message));
      } else {
        response := ExecuteAction(message.body, today);
      }
      failure := Respond(message, response);
    }

    /** The `except` branch and the publish after the `try` block: the reply for
        the outcome, then the settlement `process` gives the message. */
    method Respond(message: Message, response: Result<string, Exc>) returns (failure: Option<Exc>)
      modifies this`published, this`settled
      ensures var s := Answer(message, response, app.yaDisk.files);
        && failure == s.failure
        && settled == old(settled) + [s.settlement]
        && published == old(published) + Sent(s)
    {
      var body: seq<Utf8.byte>;
      if response.Err? {
        var text := Str(response.error);
        if text.Err? {
          settled := settled + [Reject];
          return Some(text.error);
        }
        body := Dc.ToBytes(Dc.Response(Dc.ErrorStatus, text.value, []));
      } else {
        body := Utf8.Encode(response.value);
      }
      failure := Publish(ReplyTo(message, body));
      settled := settled + [if failure.None? then Ack else Reject];
    }

    /** `_execute_action`: decode, bind, and call `self.action(**data)`. The
        server knows the action only as the callable it was given; the call's
        effect on the disk is the disk the action leaves. */
    method ExecuteAction(params: seq<Utf8.byte>, today: Calendar.Date) returns (r: Result<string, Exc>)
      modifies app.yaDisk`files
      ensures r == ActionResult(old(app.yaDisk.files), params, today)
      ensures app.yaDisk.files == ActionFiles(old(app.yaDisk.files), params, today)
    {
      var data := decode(params);
      if data.Err? {
        return Err(data.error);
      }
      var arguments := Bind(data.value);
      if arguments.Err? {
        return Err(arguments.error);
      }
      var (reportType, startDate, endDate) := arguments.value;
      var (reply, files) := action(app.yaDisk.files, reportType, startDate, endDate, today);
      app.yaDisk.files := files;
      r := reply;
    }

    /** `exchange.publish`: the publication is recorded when the exchange accepts it. */
    method Publish(p: Publication) returns (failure: Option<Exc>)
      modifies this`published
      ensures failure == publishError(p)
      ensures published == old(published) + (if failure.None? then [p] else [])
    {
      failure := publishError(p);
      if failure.None? {
        published := published + [p];
      }
    }
  }

  /** What one pass of the loop body does with a message, on a disk holding the
      given files. */
  type Handler = (set<string>, Message, Calendar.Date) -> Step

  /** A step that does not fail acknowledges the message and has published its
      reply to the message's `reply_to` under its `correlation_id`. */
  predicate Answers(s: Step, message: Message)
  {
    s.failure.None? ==>
      && s.settlement == Ack && s.attempt.Some?
      && s.attempt.value.correlationId == message.correlationId
      && s.attempt.value.routingKey == message.replyTo
  }

  ghost predicate RepliesToEach(handle: Handler)
  {
    forall files, message, today :: Answers(handle(files, message, today), message)
  }

  /** `start` over a sequence of events, with `handle` as the loop body. */
  function Run(handle: Handler, files: set<string>, events: seq<Event>): (t: Trace)
    ensures |t.settled| <= |events|
    decreases |events|
  {
    if events == [] then Trace([], [], files, Waiting)
    else
      match events[0]
      case Cancel => Trace([], [], files, Cancelled)
      case Deliver(message, today) =>
        var s := handle(files, message, today);
        if s.failure.Some? then Trace([], [Reject], s.files, Crashed(s.failure.value))
        else
          var rest := Run(handle, s.files, events[1..]);
          Trace(Sent(s) + rest.published, [Ack] + rest.settled, rest.files, rest.exit)
  }

  /** Every message taken from the queue is settled, none is requeued, and only
      the last can be rejected: a rejection ends the loop with its exception. */
  lemma {:induction false} RejectEndsLoop(handle: Handler, files: set<string>, events: seq<Event>)
    ensures var t := Run(handle, files, events);
      && (forall i :: 0 <= i < |t.settled| - 1 ==> t.settled[i] == Ack)
      && (t.exit.Crashed? <==> |t.settled| > 0 && t.settled[|t.settled| - 1] == Reject)
    decreases |events|
  {
    if events != [] && events[0].Deliver? {
      var s := handle(files, events[0].message, events[0].today);
      if s.failure.None? {
        RejectEndsLoop(handle, s.files, events[1..]);
        var rest := Run(handle, s.files, events[1..]);
        var t := Run(handle, files, events);
        assert t.settled == [Ack] + rest.settled;
        forall i | 0 <= i < |t.settled| - 1 ensures t.settled[i] == Ack {
          if i > 0 {
            assert t.settled[i] == rest.settled[i - 1];
          }
        }
      }
    }
  }

  /** One reply per acknowledged message: the accepted publications are exactly
      as many as the acknowledgements, and the `n`-th reply answers the `n`-th
      message. */
  lemma {:induction false} OneReplyPerAck(handle: Handler, files: set<string>, events: seq<Event>)
    requires RepliesToEach(handle)
    ensures var t := Run(handle, files, events);
      && |t.published| == Acks(t.settled)
      && (forall i :: 0 <= i < |t.published| ==> (events[i].Deliver?
            && t.published[i].correlationId == events[i].message.correlationId
            && t.published[i].routingKey == events[i].message.replyTo))
    decreases |events|
  {
    if events != [] && events[0].Deliver? {
      var s := handle(files, events[0].message, events[0].today);
      if s.failure.None? {
        assert Answers(s, events[0].message);
        OneReplyPerAck(handle, s.files, events[1..]);
        var rest := Run(handle, s.files, events[1..]);
        var t := Run(handle, files, events);
        assert t.settled == [Ack] + rest.settled;
        assert t.published == [s.attempt.value] + rest.published;
        forall i | 0 <= i < |t.published|
          ensures events[i].Deliver?
            && t.published[i].correlationId == events[i].message.correlationId
            && t.published[i].routingKey == events[i].message.replyTo
        {
          if i > 0 {
            assert t.published[i] == rest.published[i - 1];
            assert events[i] == events[1..][i - 1];
          }
        }
      }
    }
  }

  /** The number of acknowledgements. */
  function Acks(settled: seq<Settlement>): (n: nat)
    ensures n <= |settled|
  {
    if settled == [] then 0 else (if settled[0] == Ack then 1 else 0) + Acks(settled[1..])
  }

  /** The publication a handled message leaves on the exchange: its reply when
      it was acknowledged. */
  function Sent(s: Step): seq<Publication>
  {
    if s.settlement == Ack && s.attempt.Some? then [s.attempt.value] else []
  }

  lemma PrependNothing(pubs: seq<Publication>, sets: seq<Settlement>, files: set<string>, exit: Exit)
    ensures Prepend(pubs, sets, Trace([], [], files, exit)) == Trace(pubs, sets, files, exit)
  {
    NoEmpty(pubs);
    NoEmpty(sets);
  }

  lemma Assoc<T>(a: seq<T>, b: seq<T>, c: seq<T>)
    ensures a + b + c == a + (b + c)
  {
  }

  lemma NoEmpty<T>(a: seq<T>)
    ensures a + [] == a
  {
  }

  lemma PrependAssoc(a: seq<Publication>, b: seq<Settlement>, c: seq<Publication>, d: seq<Settlement>, t: Trace)
    ensures Prepend(a, b, Prepend(c, d, t)) == Prepend(a + c, b + d, t)
  {
  }

  /** A trace with publications and settlements put before it. */
  function Prepend(pubs: seq<Publication>, sets: seq<Settlement>, t: Trace): Trace
  {
    Trace(pubs + t.published, sets + t.settled, t.files, t.exit)
  }
}
