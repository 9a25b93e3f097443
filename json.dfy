/** The part of Python's `json.dumps` the worker relies on: a flat JSON object
    (RFC 8259 section 4) whose values are strings or lists of strings, written with
    the default separators `", "` and `": "` and the default `ensure_ascii=True`
    string escaping (RFC 8259 section 7): `"` and `\` and the five named controls
    get two-character escapes, every other character outside printable ASCII
    becomes `\u` plus four lower-case hex digits, and characters above U+FFFF
    become a UTF-16 surrogate pair of such escapes.

    `Loads` is a JSON reader for exactly that layout; the round-trip lemmas show
    that every document `Dumps` writes reads back to the same members. */
module Json {
  import opened Wrappers
  import Utf8

  datatype Value = Str(s: string) | StrList(items: seq<string>)

  type Member = (string, Value)

  // ---------------------------------------------------------------- writing

  function HexDigit(n: int): (c: char)
    requires 0 <= n < 16
  {
    if n < 10 then ('0' as int + n) as char else ('a' as int + n - 10) as char
  }

  /** Four lower-case hex digits, as `'{0:04x}'.format(n)`. */
  function Hex4(n: int): (h: string)
    requires 0 <= n < 0x10000
  {
    [HexDigit(n / 16 / 16 / 16), HexDigit(n / 16 / 16 % 16), HexDigit(n / 16 % 16), HexDigit(n % 16)]
  }

  function UEscape(n: int): string
    requires 0 <= n < 0x10000
  {
    "\\u" + Hex4(n)
  }

  /** How `json.dumps` writes one character inside a string literal. */
  function EscapeChar(c: char): (e: string)
    ensures |e| >= 1 && e[0] != '"'
  {
    var n := c as int;
    if c == '"' then "\\\""
    else if c == '\\' then "\\\\"
    else if c == '\n' then "\\n"
    else if c == '\r' then "\\r"
    else if c == '\t' then "\\t"
    else if n == 8 then "\\b"
    else if n == 12 then "\\f"
    else if ' ' <= c <= '~' then [c]
    else if n < 0x10000 then UEscape(n)
    else
      var v := n - 0x10000;
      UEscape(0xD800 + v / 0x400) + UEscape(0xDC00 + v % 0x400)
  }

  function Escape(s: string): string
  {
    if s == [] then "" else EscapeChar(s[0]) + Escape(s[1..])
  }

  /** A JSON string literal. */
  function EncodeString(s: string): string
  {
    "\"" + Escape(s) + "\""
  }

  /** The elements of a list of strings, separated by `", "`. */
  function EncodeStrings(xs: seq<string>): string
  {
    if |xs| == 0 then ""
    else if |xs| == 1 then EncodeString(xs[0])
    else EncodeString(xs[0]) + ", " + EncodeStrings(xs[1..])
  }

  function EncodeValue(v: Value): string
  {
    match v
    case Str(s) => EncodeString(s)
    case StrList(xs) => "[" + EncodeStrings(xs) + "]"
  }

  function EncodeMembers(ms: seq<Member>): string
  {
    if |ms| == 0 then ""
    else
      var m := EncodeString(ms[0].0) + ": " + EncodeValue(ms[0].1);
      if |ms| == 1 then m else m + ", " + EncodeMembers(ms[1..])
  }

  /** `json.dumps(d)` for a dict whose items, in insertion order, are `ms`. */
  function Dumps(ms: seq<Member>): string
  {
    "{" + EncodeMembers(ms) + "}"
  }

  // ---------------------------------------------------------------- reading

  function HexValue(c: char): Option<int>
  {
    if '0' <= c <= '9' then Some(c as int - '0' as int)
    else if 'a' <= c <= 'f' then Some(c as int - 'a' as int + 10)
    else if 'A' <= c <= 'F' then Some(c as int - 'A' as int + 10)
    else None
  }

  function ParseHex4(t: string): (r: Option<int>)
    ensures r.Some? ==> |t| >= 4 && 0 <= r.value < 0x10000
  {
    if |t| < 4 then None
    else match (HexValue(t[0]), HexValue(t[1]), HexValue(t[2]), HexValue(t[3]))
      case (Some(a), Some(b), Some(c), Some(d)) =>
        if 0 <= a < 16 && 0 <= b < 16 && 0 <= c < 16 && 0 <= d < 16
        then Some(((a * 16 + b) * 16 + c) * 16 + d) else None
      case _ => None
  }

  /** The character written by a `\u` escape whose hex digits start `t`; a high
      surrogate must be followed by a `\u` escape of a low surrogate. */
  function ParseUnicode(t: string): (r: Option<(char, string)>)
    ensures r.Some? ==> |r.value.1| < |t|
  {
    match ParseHex4(t)
    case None => None
    case Some(n) =>
      if 0xD800 <= n < 0xDC00 then
        if |t| >= 6 && t[4] == '\\' && t[5] == 'u' then
          match ParseHex4(t[6..])
          case Some(m) =>
            if 0xDC00 <= m < 0xE000
            then Some(((0x10000 + (n - 0xD800) * 0x400 + (m - 0xDC00)) as char, t[10..]))
            else None
          case None => None
        else None
      else if 0xDC00 <= n < 0xE000 then None
      else Some((n as char, t[4..]))
  }

  /** One character of a string literal's body (not its closing quote). */
  function ParseChar(t: string): (r: Option<(char, string)>)
    ensures r.Some? ==> |r.value.1| < |t|
  {
    if |t| == 0 then None
    else if t[0] == '\\' then
      if |t| < 2 then None
      else if t[1] == '"' then Some(('"', t[2..]))
      else if t[1] == '\\' then Some(('\\', t[2..]))
      else if t[1] == '/' then Some(('/', t[2..]))
      else if t[1] == 'b' then Some((8 as char, t[2..]))
      else if t[1] == 'f' then Some((12 as char, t[2..]))
      else if t[1] == 'n' then Some(('\n', t[2..]))
      else if t[1] == 'r' then Some(('\r', t[2..]))
      else if t[1] == 't' then Some(('\t', t[2..]))
      else if t[1] == 'u' then ParseUnicode(t[2..])
      else None
    else if t[0] as int < 0x20 then None
    else Some((t[0], t[1..]))
  }

  /** The body of a string literal up to and including its closing quote. */
  function ParseBody(t: string): (r: Option<(string, string)>)
    ensures r.Some? ==> |r.value.1| < |t|
    decreases |t|
  {
    if |t| == 0 then None
    else if t[0] == '"' then Some(("", t[1..]))
    else
      match ParseChar(t)
      case None => None
      case Some((c, rest)) =>
        match ParseBody(rest)
        case None => None
        case Some((s, rest')) => Some(([c] + s, rest'))
  }

  function ParseString(t: string): (r: Option<(string, string)>)
    ensures r.Some? ==> |r.value.1| < |t|
  {
    if |t| > 0 && t[0] == '"' then ParseBody(t[1..]) else None
  }

  /** The elements of a non-empty list and its closing bracket. */
  function ParseStrings(t: string): (r: Option<(seq<string>, string)>)
    ensures r.Some? ==> |r.value.1| < |t|
    decreases |t|
  {
    match ParseString(t)
    case None => None
    case Some((s, rest)) =>
      if |rest| >= 1 && rest[0] == ']' then Some(([s], rest[1..]))
      else if |rest| >= 2 && rest[0] == ',' && rest[1] == ' ' then
        match ParseStrings(rest[2..])
        case None => None
        case Some((xs, rest')) => Some(([s] + xs, rest'))
      else None
  }

  function ParseValue(t: string): (r: Option<(Value, string)>)
    ensures r.Some? ==> |r.value.1| < |t|
  {
    if |t| == 0 then None
    else if t[0] == '"' then
      match ParseString(t)
      case None => None
      case Some((s, rest)) => Some((Str(s), rest))
    else if t[0] == '[' then
      if |t| >= 2 && t[1] == ']' then Some((StrList([]), t[2..]))
      else
        match ParseStrings(t[1..])
        case None => None
        case Some((xs, rest)) => Some((StrList(xs), rest))
    else None
  }

  /** The members of a non-empty object and its closing brace. */
  function ParseMembers(t: string): (r: Option<(seq<Member>, string)>)
    decreases |t|
  {
    match ParseString(t)
    case None => None
    case Some((k, rest)) =>
      if |rest| >= 2 && rest[0] == ':' && rest[1] == ' ' then
        match ParseValue(rest[2..])
        case None => None
        case Some((v, rest')) =>
          if |rest'| >= 1 && rest'[0] == '}' then Some(([(k, v)], rest'[1..]))
          else if |rest'| >= 2 && rest'[0] == ',' && rest'[1] == ' ' then
            match ParseMembers(rest'[2..])
            case None => None
            case Some((ms, rest'')) => Some(([(k, v)] + ms, rest''))
          else None
      else None
  }

  /** `json.loads` for a whole document laid out as `Dumps` lays it out. */
  function Loads(text: string): Option<seq<Member>>
  {
    if |text| >= 2 && text[0] == '{' && text[1] == '}' then
      if |text| == 2 then Some([]) else None
    else if |text| >= 1 && text[0] == '{' then
      match ParseMembers(text[1..])
      case Some((ms, rest)) => if rest == [] then Some(ms) else None
      case None => None
    else None
  }

  // ---------------------------------------------------------------- round trip

  lemma HexDigitValue(n: int)
    requires 0 <= n < 16
    ensures HexValue(HexDigit(n)) == Some(n)
  {
  }

  lemma Hex4RoundTrip(n: int, rest: string)
    requires 0 <= n < 0x10000
    ensures ParseHex4(Hex4(n) + rest) == Some(n)
  {
    var t := Hex4(n) + rest;
    var n1 := n / 16;
    var n2 := n1 / 16;
    assert n == n1 * 16 + n % 16;
    assert n1 == n2 * 16 + n1 % 16;
    assert n2 == n2 / 16 * 16 + n2 % 16;
    HexDigitValue(n2 / 16);
    HexDigitValue(n2 % 16);
    HexDigitValue(n1 % 16);
    HexDigitValue(n % 16);
    assert t[0] == HexDigit(n2 / 16) && t[1] == HexDigit(n2 % 16);
    assert t[2] == HexDigit(n1 % 16) && t[3] == HexDigit(n % 16);
  }

  lemma BmpEscapeRoundTrip(c: char, rest: string)
    requires c as int < 0x10000
    ensures ParseChar(UEscape(c as int) + rest) == Some((c, rest))
  {
    var n := c as int;
    var t := UEscape(n) + rest;
    assert t[2..] == Hex4(n) + rest;
    Hex4RoundTrip(n, rest);
    assert t[2..][4..] == rest;
  }

  lemma PairRoundTrip(hi: int, lo: int, rest: string)
    requires 0xD800 <= hi < 0xDC00 && 0xDC00 <= lo < 0xE000
    ensures ParseUnicode(Hex4(hi) + ("\\u" + Hex4(lo) + rest))
         == Some(((0x10000 + (hi - 0xD800) * 0x400 + (lo - 0xDC00)) as char, rest))
  {
    var u := Hex4(hi) + ("\\u" + Hex4(lo) + rest);
    Hex4RoundTrip(hi, "\\u" + Hex4(lo) + rest);
    assert u[4] == '\\' && u[5] == 'u';
    assert u[6..] == Hex4(lo) + rest;
    Hex4RoundTrip(lo, rest);
    assert u[10..] == rest;
  }

  lemma SurrogateSplit(n: int)
    requires 0x10000 <= n < 0x110000
    ensures var v := n - 0x10000;
      && 0xD800 <= 0xD800 + v / 0x400 < 0xDC00
      && 0xDC00 <= 0xDC00 + v % 0x400 < 0xE000
      && 0x10000 + (v / 0x400) * 0x400 + v % 0x400 == n
  {
  }

  lemma AstralEscapeRoundTrip(c: char, rest: string)
    requires c as int >= 0x10000
    ensures ParseChar(EscapeChar(c) + rest) == Some((c, rest))
  {
    var v := c as int - 0x10000;
    var hi, lo := 0xD800 + v / 0x400, 0xDC00 + v % 0x400;
    SurrogateSplit(c as int);
    assert EscapeChar(c) + rest == "\\u" + (Hex4(hi) + ("\\u" + Hex4(lo) + rest)) by {
      AstralEscape(c);
      PairShape(hi, lo, rest);
    }
    UnicodeEscape(Hex4(hi) + ("\\u" + Hex4(lo) + rest));
    PairRoundTrip(hi, lo, rest);
  }

  /** A character outside the Basic Multilingual Plane is written as its
      surrogate pair. */
  lemma AstralEscape(c: char)
    requires c as int >= 0x10000
    ensures var v := c as int - 0x10000;
      0 <= v / 0x400 < 0x400
      && EscapeChar(c) == UEscape(0xD800 + v / 0x400) + UEscape(0xDC00 + v % 0x400)
  {
  }

  lemma PairShape(hi: int, lo: int, rest: string)
    requires 0 <= hi < 0x10000 && 0 <= lo < 0x10000
    ensures UEscape(hi) + UEscape(lo) + rest == "\\u" + (Hex4(hi) + ("\\u" + Hex4(lo) + rest))
  {
    Assoc5("\\u", Hex4(hi), "\\u", Hex4(lo), rest);
  }

  lemma UnicodeEscape(u: string)
    ensures ParseChar("\\u" + u) == ParseUnicode(u)
  {
    assert ("\\u" + u)[2..] == u;
  }

  /** Reading back the escape of one character gives the character and leaves the rest. */
  lemma EscapeCharRoundTrip(c: char, rest: string)
    ensures ParseChar(EscapeChar(c) + rest) == Some((c, rest))
  {
    var n := c as int;
    var t := EscapeChar(c) + rest;
    if c == '"' || c == '\\' || c == '\n' || c == '\r' || c == '\t' || n == 8 || n == 12 {
      assert t[2..] == rest;
    } else if ' ' <= c <= '~' {
      assert t[1..] == rest;
    } else if n < 0x10000 {
      BmpEscapeRoundTrip(c, rest);
    } else {
      AstralEscapeRoundTrip(c, rest);
    }
  }

  lemma {:induction false} BodyRoundTrip(s: string, rest: string)
    ensures ParseBody(Escape(s) + "\"" + rest) == Some((s, rest))
  {
    if s == [] {
      assert Escape(s) + "\"" + rest == "\"" + rest;
      assert ("\"" + rest)[1..] == rest;
    } else {
      var tail := Escape(s[1..]) + "\"" + rest;
      assert Escape(s) + "\"" + rest == EscapeChar(s[0]) + tail;
      assert ParseBody(tail) == Some((s[1..], rest)) by {
        BodyRoundTrip(s[1..], rest);
      }
      BodyStep(s[0], tail);
      assert [s[0]] + s[1..] == s;
    }
  }

  /** One escaped character, then whatever the remaining body parses to. */
  lemma BodyStep(c: char, tail: string)
    ensures var r := ParseBody(tail);
      r.Some? ==> ParseBody(EscapeChar(c) + tail) == Some(([c] + r.value.0, r.value.1))
  {
    EscapeCharRoundTrip(c, tail);
  }

  /** A string literal reads back to its string, whatever follows it. */
  lemma StringRoundTrip(s: string, rest: string)
    ensures ParseString(EncodeString(s) + rest) == Some((s, rest))
  {
    var t := EncodeString(s) + rest;
    assert t[1..] == Escape(s) + "\"" + rest;
    BodyRoundTrip(s, rest);
  }

  lemma {:induction false} StringsRoundTrip(xs: seq<string>, rest: string)
    requires |xs| >= 1
    ensures ParseStrings(EncodeStrings(xs) + "]" + rest) == Some((xs, rest))
  {
    StringsCons(xs);
    if |xs| == 1 {
      assert EncodeStrings(xs) + "]" + rest == EncodeString(xs[0]) + ("]" + rest) by {
        LastStringShape(xs, rest);
      }
      LastStringStep(xs[0], rest);
    } else {
      var tail := EncodeStrings(xs[1..]) + "]" + rest;
      assert EncodeStrings(xs) + "]" + rest == EncodeString(xs[0]) + (", " + tail) by {
        StringShape(xs, rest);
      }
      assert ParseStrings(tail) == Some((xs[1..], rest)) by {
        StringsRoundTrip(xs[1..], rest);
      }
      StringStep(xs[0], tail);
    }
  }

  lemma StringsCons(xs: seq<string>)
    requires |xs| >= 1
    ensures [xs[0]] + xs[1..] == xs
    ensures |xs| == 1 ==> [xs[0]] == xs
  {
  }

  lemma LastStringShape(xs: seq<string>, rest: string)
    requires |xs| == 1
    ensures EncodeStrings(xs) + "]" + rest == EncodeString(xs[0]) + ("]" + rest)
  {
  }

  lemma StringShape(xs: seq<string>, rest: string)
    requires |xs| > 1
    ensures EncodeStrings(xs) + "]" + rest == EncodeString(xs[0]) + (", " + (EncodeStrings(xs[1..]) + "]" + rest))
  {
    Assoc5(EncodeString(xs[0]), ", ", EncodeStrings(xs[1..]), "]", rest);
  }

  /** The last element, then the closing bracket. */
  lemma LastStringStep(s: string, rest: string)
    ensures ParseStrings(EncodeString(s) + ("]" + rest)) == Some(([s], rest))
  {
    StringRoundTrip(s, "]" + rest);
    assert ("]" + rest)[1..] == rest;
  }

  /** An element followed by a comma, then whatever the remaining text parses to. */
  lemma StringStep(s: string, tail: string)
    ensures var r := ParseStrings(tail);
      r.Some? ==> ParseStrings(EncodeString(s) + (", " + tail)) == Some(([s] + r.value.0, r.value.1))
  {
    StringRoundTrip(s, ", " + tail);
    assert (", " + tail)[2..] == tail;
  }

  lemma ValueRoundTrip(v: Value, rest: string)
    ensures ParseValue(EncodeValue(v) + rest) == Some((v, rest))
  {
    match v
    case Str(s) =>
      StringRoundTrip(s, rest);
    case StrList(xs) =>
      var t := EncodeValue(v) + rest;
      if xs == [] {
        assert t == "[]" + rest;
        assert t[2..] == rest;
      } else {
        assert t[1..] == EncodeStrings(xs) + "]" + rest;
        assert EncodeStrings(xs)[0] == '"';
        StringsRoundTrip(xs, rest);
      }
  }

  lemma {:induction false} MembersRoundTrip(ms: seq<Member>, rest: string)
    requires |ms| >= 1
    ensures ParseMembers(EncodeMembers(ms) + "}" + rest) == Some((ms, rest))
  {
    var k, v := ms[0].0, ms[0].1;
    Cons(ms);
    if |ms| == 1 {
      assert EncodeMembers(ms) + "}" + rest == EncodeString(k) + (": " + (EncodeValue(v) + ("}" + rest))) by {
        LastMemberShape(ms, rest);
      }
      LastMemberStep(k, v, rest);
    } else {
      var next := EncodeMembers(ms[1..]) + "}" + rest;
      assert EncodeMembers(ms) + "}" + rest == EncodeString(k) + (": " + (EncodeValue(v) + (", " + next))) by {
        MemberShape(ms, rest);
      }
      assert ParseMembers(next) == Some((ms[1..], rest)) by {
        MembersRoundTrip(ms[1..], rest);
      }
      MemberStep(k, v, next);
    }
  }

  lemma Cons(ms: seq<Member>)
    requires |ms| >= 1
    ensures [(ms[0].0, ms[0].1)] + ms[1..] == ms
    ensures |ms| == 1 ==> [(ms[0].0, ms[0].1)] == ms
  {
  }

  /** The last pair, then the closing brace. */
  lemma LastMemberStep(k: string, v: Value, rest: string)
    ensures ParseMembers(EncodeString(k) + (": " + (EncodeValue(v) + ("}" + rest)))) == Some(([(k, v)], rest))
  {
    MemberRoundTrip(k, v, "}" + rest);
    assert ("}" + rest)[1..] == rest;
  }

  /** A pair followed by a comma, then whatever the remaining text parses to. */
  lemma MemberStep(k: string, v: Value, next: string)
    ensures var r := ParseMembers(next);
      r.Some? ==> ParseMembers(EncodeString(k) + (": " + (EncodeValue(v) + (", " + next))))
                  == Some(([(k, v)] + r.value.0, r.value.1))
  {
    MemberRoundTrip(k, v, ", " + next);
    assert (", " + next)[2..] == next;
  }

  /** One `"key": value` pair reads back, whatever follows it. */
  lemma MemberRoundTrip(k: string, v: Value, after: string)
    ensures ParseString(EncodeString(k) + (": " + (EncodeValue(v) + after))) == Some((k, ": " + (EncodeValue(v) + after)))
    ensures (": " + (EncodeValue(v) + after))[2..] == EncodeValue(v) + after
    ensures ParseValue(EncodeValue(v) + after) == Some((v, after))
  {
    StringRoundTrip(k, ": " + (EncodeValue(v) + after));
    ValueRoundTrip(v, after);
  }

  lemma LastMemberShape(ms: seq<Member>, rest: string)
    requires |ms| == 1
    ensures EncodeMembers(ms) + "}" + rest == EncodeString(ms[0].0) + (": " + (EncodeValue(ms[0].1) + ("}" + rest)))
  {
    Assoc5(EncodeString(ms[0].0), ": ", EncodeValue(ms[0].1), "}", rest);
  }

  lemma MemberShape(ms: seq<Member>, rest: string)
    requires |ms| > 1
    ensures EncodeMembers(ms) + "}" + rest
         == EncodeString(ms[0].0) + (": " + (EncodeValue(ms[0].1) + (", " + (EncodeMembers(ms[1..]) + "}" + rest))))
  {
    MembersUnfold(ms);
    PairsShape(EncodeString(ms[0].0), EncodeValue(ms[0].1), EncodeMembers(ms[1..]), rest);
  }

  lemma MembersUnfold(ms: seq<Member>)
    requires |ms| > 1
    ensures EncodeMembers(ms) == EncodeString(ms[0].0) + ": " + EncodeValue(ms[0].1) + ", " + EncodeMembers(ms[1..])
  {
  }

  lemma PairsShape(k: string, v: string, more: string, rest: string)
    ensures k + ": " + v + ", " + more + "}" + rest == k + (": " + (v + (", " + (more + "}" + rest))))
  {
    Assoc5(k, ": ", v, ", " + more, "}" + rest);
    Assoc5(", ", more, "}", rest, []);
  }

  lemma Assoc5<T>(a: seq<T>, b: seq<T>, c: seq<T>, d: seq<T>, e: seq<T>)
    ensures a + b + c + d + e == a + (b + (c + (d + e)))
  {
  }

  /** Every document `Dumps` writes is read back by `Loads` to the same members, in order. */
  lemma DumpsRoundTrip(ms: seq<Member>)
    ensures Loads(Dumps(ms)) == Some(ms)
  {
    var t := Dumps(ms);
    if ms == [] {
      assert t == "{}";
    } else {
      var body := EncodeMembers(ms);
      assert body[0] == EncodeString(ms[0].0)[0] == '"';
      assert t == "{" + (body + "}" + "");
      assert t[1..] == body + "}" + "";
      assert t[1] == '"';
      MembersRoundTrip(ms, "");
    }
  }

  // ---------------------------------------------------------------- ASCII output

  lemma AsciiConcat(a: string, b: string)
    requires Utf8.IsAscii(a) && Utf8.IsAscii(b)
    ensures Utf8.IsAscii(a + b)
  {
    forall i | 0 <= i < |a + b| ensures (a + b)[i] as int < 128 {
      if i >= |a| { assert (a + b)[i] == b[i - |a|]; }
    }
  }

  lemma EscapeCharAscii(c: char)
    ensures Utf8.IsAscii(EscapeChar(c))
  {
  }

  lemma {:induction false} EscapeAscii(s: string)
    ensures Utf8.IsAscii(Escape(s))
  {
    if s != [] {
      EscapeCharAscii(s[0]);
      EscapeAscii(s[1..]);
      AsciiConcat(EscapeChar(s[0]), Escape(s[1..]));
    }
  }

  lemma EncodeStringAscii(s: string)
    ensures Utf8.IsAscii(EncodeString(s))
  {
    EscapeAscii(s);
    AsciiConcat("\"", Escape(s));
    AsciiConcat("\"" + Escape(s), "\"");
  }

  lemma {:induction false} EncodeStringsAscii(xs: seq<string>)
    ensures Utf8.IsAscii(EncodeStrings(xs))
  {
    if |xs| >= 1 {
      EncodeStringAscii(xs[0]);
      if |xs| > 1 {
        EncodeStringsAscii(xs[1..]);
        AsciiConcat(EncodeString(xs[0]), ", ");
        AsciiConcat(EncodeString(xs[0]) + ", ", EncodeStrings(xs[1..]));
      }
    }
  }

  lemma EncodeValueAscii(v: Value)
    ensures Utf8.IsAscii(EncodeValue(v))
  {
    match v
    case Str(s) => EncodeStringAscii(s);
    case StrList(xs) =>
      EncodeStringsAscii(xs);
      AsciiConcat("[", EncodeStrings(xs));
      AsciiConcat("[" + EncodeStrings(xs), "]");
  }

  lemma {:induction false} EncodeMembersAscii(ms: seq<Member>)
    ensures Utf8.IsAscii(EncodeMembers(ms))
  {
    if |ms| >= 1 {
      var k := EncodeString(ms[0].0);
      EncodeStringAscii(ms[0].0);
      EncodeValueAscii(ms[0].1);
      AsciiConcat(k, ": ");
      AsciiConcat(k + ": ", EncodeValue(ms[0].1));
      if |ms| > 1 {
        var m := k + ": " + EncodeValue(ms[0].1);
        EncodeMembersAscii(ms[1..]);
        AsciiConcat(m, ", ");
        AsciiConcat(m + ", ", EncodeMembers(ms[1..]));
      }
    }
  }

  /** With the default `ensure_ascii=True`, a dumped document is pure ASCII. */
  lemma DumpsAscii(ms: seq<Member>)
    ensures Utf8.IsAscii(Dumps(ms))
  {
    EncodeMembersAscii(ms);
    AsciiConcat("{", EncodeMembers(ms));
    AsciiConcat("{" + EncodeMembers(ms), "}");
  }
}
