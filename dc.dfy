/** rpc/dc.py: the reply envelope the RPC server publishes when an action fails.
    A `Response` is a flat record of status, message and result list; `to_dict`
    lists the three fields in declaration order and `to_bytes` is the UTF-8
    encoding of `json.dumps` of that dict. */
module Dc {
  import opened Wrappers
  import Json
  import Utf8

  const OkStatus := "OK"
  const ErrorStatus := "ERROR"
  /** "Успешно" ("Successful"), the default message. */
  const DefaultMessage := "\U{0423}\U{0441}\U{043F}\U{0435}\U{0448}\U{043D}\U{043E}"

  /** Python dataclasses are values here: every `Response` owns its own result
      list, so the default list can never be shared between two instances. */
  datatype Response = Response(status: string, message: string, result: seq<string>)

  /** `Response()`. */
  function Default(): (r: Response)
    ensures r.status == OkStatus && r.message == DefaultMessage && r.result == []
  {
    Response(OkStatus, DefaultMessage, [])
  }

  /** `dataclasses.asdict`: the fields as (key, value) items in declaration order. */
  function ToDict(r: Response): (ms: seq<Json.Member>)
    ensures |ms| == 3 && ms[0].0 == "status" && ms[1].0 == "message" && ms[2].0 == "result"
  {
    [("status", Json.Str(r.status)), ("message", Json.Str(r.message)),
     ("result", Json.StrList(r.result))]
  }

  function ToBytes(r: Response): seq<Utf8.byte>
  {
    Utf8.Encode(Json.Dumps(ToDict(r)))
  }

  /** What a caller reading the reply gets: the dict back as a `Response`. */
  function FromDict(ms: seq<Json.Member>): Option<Response>
  {
    if |ms| == 3 && ms[0].0 == "status" && ms[1].0 == "message" && ms[2].0 == "result"
       && ms[0].1.Str? && ms[1].1.Str? && ms[2].1.StrList?
    then Some(Response(ms[0].1.s, ms[1].1.s, ms[2].1.items))
    else None
  }

  /** A reply body decoded as ASCII and read as JSON. */
  function FromBytes(b: seq<Utf8.byte>): Option<Response>
  {
    match Utf8.DecodeAscii(b)
    case None => None
    case Some(text) =>
      match Json.Loads(text)
      case None => None
      case Some(ms) => FromDict(ms)
  }

  /** `to_bytes` is pure ASCII: one byte per character of the JSON text, every byte below 0x80. */
  lemma ToBytesAscii(r: Response)
    ensures |ToBytes(r)| == |Json.Dumps(ToDict(r))|
    ensures forall i :: 0 <= i < |ToBytes(r)| ==> ToBytes(r)[i] < 128
  {
    Json.DumpsAscii(ToDict(r));
    Utf8.AsciiEncode(Json.Dumps(ToDict(r)));
  }

  /** Reading `to_bytes` back gives the same status, message and result, in every case
      (including an empty result and messages outside ASCII). */
  lemma ToBytesRoundTrip(r: Response)
    ensures FromBytes(ToBytes(r)) == Some(r)
  {
    var text := Json.Dumps(ToDict(r));
    Json.DumpsAscii(ToDict(r));
    Utf8.AsciiRoundTrip(text);
    Json.DumpsRoundTrip(ToDict(r));
  }

  /** A string of characters from U+007F to U+FFFF is written as one six-character
      `\uXXXX` escape per character, in order. */
  lemma {:induction false} EscapeBmp(s: string)
    requires forall i :: 0 <= i < |s| ==> 0x7F <= s[i] as int < 0x10000
    ensures |Json.Escape(s)| == 6 * |s|
    ensures forall i :: 0 <= i < |s| ==> Json.Escape(s)[6 * i .. 6 * i + 6] == Json.UEscape(s[i] as int)
  {
    if s != [] {
      EscapeBmp(s[1..]);
      var e := Json.Escape(s);
      var head := Json.UEscape(s[0] as int);
      assert e == head + Json.Escape(s[1..]);
      forall i | 0 <= i < |s| ensures e[6 * i .. 6 * i + 6] == Json.UEscape(s[i] as int) {
        if i > 0 {
          assert e[6 * i .. 6 * i + 6] == Json.Escape(s[1..])[6 * (i - 1) .. 6 * (i - 1) + 6];
          assert s[1..][i - 1] == s[i];
        }
      }
    }
  }

  /** The default message "Успешно" is written as seven `\u` escapes, one per letter,
      from `\u0423` to `\u043e`. */
  lemma DefaultMessageEscaped()
    ensures |Json.Escape(DefaultMessage)| == 42
    ensures Utf8.IsAscii(Json.Escape(DefaultMessage))
    ensures forall i :: 0 <= i < 7 ==> Json.Escape(DefaultMessage)[6 * i .. 6 * i + 6] == Json.UEscape(DefaultMessage[i] as int)
  {
    EscapeBmp(DefaultMessage);
    Json.EscapeAscii(DefaultMessage);
  }
}
