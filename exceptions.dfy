/** ya_disk/exception.py: the `ExceptionBase` family, and the plain Python exceptions
    the rest of the model raises.

    In Python every class of the family except `ExceptionBase` itself defines `args`
    as a class attribute, and `__init__` shadows it with an instance attribute only
    when positional arguments are given. `__str__` reads `self.args[0]`, so an
    instance whose `args` is empty cannot be printed: it raises `IndexError`. */
module Exceptions {
  import opened Wrappers
  import Strings
  import Json

  datatype DiskClass = ExceptionBase | YandexDiskException | YaTokenNotValidException | YaFileNotFound

  /** A raised exception: a member of the family with its `args` tuple and the
      `exception` attribute (`None` when it was never set), or any other exception
      by class name and `args`. */
  datatype Exc =
    | Disk(cls: DiskClass, args: seq<string>, cause: Option<Exc>)
    | Builtin(name: string, args: seq<string>)

  const UnknownError := "Unknown error"
  const TokenFailed := "The Yandex disk token failed verification, update token."
  const FileNotFound := "File not found"
  const TupleIndexOutOfRange := "tuple index out of range"

  /** The class-level `args` each class defines; `ExceptionBase` defines none, so it
      keeps the empty tuple `BaseException` stores. */
  function ClassArgs(c: DiskClass): seq<string>
  {
    match c
    case ExceptionBase => []
    case YandexDiskException => [UnknownError]
    case YaTokenNotValidException => [TokenFailed]
    case YaFileNotFound => [FileNotFound]
  }

  /** `isinstance(e, c)` for the family: the token error is a `YandexDiskException`,
      every member is an `ExceptionBase`, and `YaFileNotFound` is not a
      `YandexDiskException`. */
  predicate IsInstance(e: Exc, c: DiskClass)
  {
    e.Disk? &&
    match c
    case ExceptionBase => true
    case YandexDiskException => e.cls == YandexDiskException || e.cls == YaTokenNotValidException
    case YaTokenNotValidException => e.cls == YaTokenNotValidException
    case YaFileNotFound => e.cls == YaFileNotFound
  }

  function ValueError(message: string): Exc
  {
    Builtin("ValueError", [message])
  }

  function OverflowError(message: string): Exc
  {
    Builtin("OverflowError", [message])
  }

  function TypeError(message: string): Exc
  {
    Builtin("TypeError", [message])
  }

  function IndexError(): Exc
  {
    Builtin("IndexError", [TupleIndexOutOfRange])
  }

  /** The text between single quotes, unescaped, as CPython's own `'%S'`
      formats write a keyword name into a `TypeError`. */
  function Quoted(s: string): string
  {
    "'" + s + "'"
  }

  /** The quote `repr` puts around a string: double when the text holds a single
      quote and no double quote, single otherwise. */
  function QuoteFor(s: string): char
  {
    if Contains(s, '\'') && !Contains(s, '"') then '"' else '\''
  }

  /** Whether `c` occurs in `s`, one character at a time. */
  function Contains(s: string, c: char): bool
  {
    s != [] && (s[0] == c || Contains(s[1..], c))
  }

  /** `Contains` is membership. */
  lemma {:induction false} ContainsIn(s: string, c: char)
    ensures Contains(s, c) <==> c in s
  {
    if s != [] {
      ContainsIn(s[1..], c);
      assert s == [s[0]] + s[1..];
    }
  }

  /** `repr` switches to double quotes exactly when the text holds a single quote
      and no double quote. */
  lemma QuoteForDouble(s: string)
    ensures QuoteFor(s) == '"' <==> '\'' in s && '"' !in s
  {
    ContainsIn(s, '\'');
    ContainsIn(s, '"');
  }

  /** A character `repr` writes as itself inside quotes `q`: not a backslash, not
      the quote, not an ASCII control character. */
  predicate Plain(c: char, q: char)
  {
    c != '\\' && c != q && ' ' <= c && c != '\U{7F}'
  }

  /** How `repr` writes one character inside quotes `q`. */
  function EscapeChar(c: char, q: char): (r: string)
    ensures Plain(c, q) <==> r == [c]
    ensures !Plain(c, q) ==> |r| >= 2 && r[0] == '\\'
  {
    if c == '\\' then "\\\\"
    else if c == q then ['\\', q]
    else if c == '\n' then "\\n"
    else if c == '\r' then "\\r"
    else if c == '\t' then "\\t"
    else if c < ' ' || c == '\U{7F}' then "\\x" + [Json.HexDigit(c as int / 16), Json.HexDigit(c as int % 16)]
    else [c]
  }

  /** The characters of a string as `repr` writes them inside quotes `q`. */
  function Escape(s: string, q: char): (r: string)
    ensures |r| >= |s|
  {
    if s == [] then [] else EscapeChar(s[0], q) + Escape(s[1..], q)
  }

  /** `repr` leaves a text unchanged inside its quotes exactly when every
      character is plain. */
  lemma {:induction false} EscapeAllPlain(s: string, q: char)
    ensures (forall i :: 0 <= i < |s| ==> Plain(s[i], q)) <==> Escape(s, q) == s
  {
    if s != [] {
      EscapeAllPlain(s[1..], q);
      assert (forall i :: 0 <= i < |s| ==> Plain(s[i], q))
        <==> Plain(s[0], q) && (forall i :: 0 <= i < |s[1..]| ==> Plain(s[1..][i], q)) by {
        forall i | 0 < i < |s| ensures s[i] == s[1..][i - 1] { }
      }
      if Plain(s[0], q) {
        assert s == [s[0]] + s[1..];
      } else {
        assert |Escape(s, q)| > |s|;
      }
    }
  }

  /** `repr` of a string: the quote `QuoteFor` picks, the escaped text, the
      quote again. */
  function PyRepr(s: string): (r: string)
    ensures |r| >= |s| + 2
    ensures r[0] == QuoteFor(s) && r[|r| - 1] == QuoteFor(s)
  {
    var q := QuoteFor(s);
    [q] + Escape(s, q) + [q]
  }

  /** Text with no quote, backslash or control character is only wrapped in
      single quotes. */
  lemma PyReprPlain(s: string)
    requires forall i :: 0 <= i < |s| ==> Plain(s[i], '\'')
    ensures PyRepr(s) == Quoted(s)
  {
    QuoteForDouble(s);
    EscapeAllPlain(s, '\'');
  }

  /** A single quote in the text switches `repr` to double quotes. */
  lemma PyReprQuotes()
    ensures PyRepr("it's") == "\"it's\""
  {
    var s := "it's";
    assert QuoteFor(s) == '"' by {
      assert s[2] == '\'';
      assert forall i :: 0 <= i < |s| ==> s[i] != '"';
      QuoteForDouble(s);
    }
    assert forall i :: 0 <= i < |s| ==> Plain(s[i], '"');
    EscapeAllPlain(s, '"');
    assert PyRepr(s) == ['"'] + s + ['"'];
  }

  /** A backslash is doubled. */
  lemma PyReprBackslash()
    ensures PyRepr("a\\b") == "'a\\\\b'"
  {
    assert QuoteFor("a\\b") == '\'';
    assert Escape("b", '\'') == "b";
    assert Escape("\\b", '\'') == "\\\\" + "b";
    assert Escape("a\\b", '\'') == "a" + Escape("\\b", '\'');
  }

  function Reprs(xs: seq<string>): (r: seq<string>)
    ensures |r| == |xs|
  {
    if xs == [] then [] else [PyRepr(xs[0])] + Reprs(xs[1..])
  }

  /** `BaseException.__str__`: empty for no arguments, the argument itself for one,
      and the tuple's `repr` for more. */
  function BaseStr(args: seq<string>): string
  {
    if |args| == 0 then ""
    else if |args| == 1 then args[0]
    else "(" + Strings.Join(", ", Reprs(args)) + ")"
  }

  /** `ExceptionBase.__init__(*args, exception=...)` on a fresh instance of class `c`:
      given arguments replace the class-level default, and the cause is recorded
      exactly when one is passed. */
  function New(c: DiskClass, args: seq<string>, exception: Option<Exc>): (e: Exc)
    ensures IsInstance(e, c) && e.cls == c
    ensures |args| > 0 ==> e.args == args
    ensures |args| == 0 ==> e.args == ClassArgs(c)
    ensures e.cause.Some? <==> exception.Some?
    ensures exception.Some? ==> e.cause == exception
  {
    Disk(c, if |args| > 0 then args else ClassArgs(c), exception)
  }

  /** `str(e)`; the error is the `IndexError` that `self.args[0]` raises. */
  function Str(e: Exc): Result<string, Exc>
  {
    match e
    case Disk(_, args, _) => if |args| == 0 then Err(IndexError()) else Ok(args[0])
    case Builtin(_, args) => Ok(BaseStr(args))
  }

  /** `str(e.args[0])`, the message the application puts in its error replies. */
  function FirstArg(e: Exc): Result<string, Exc>
  {
    if |e.args| == 0 then Err(IndexError()) else Ok(e.args[0])
  }

  /** `str(e)` of a family member is its first argument, and fails exactly when
      `args` is empty; a one-argument built-in exception prints that argument. */
  lemma StrIsFirstArg(e: Exc)
    ensures e.Disk? ==> Str(e) == FirstArg(e)
    ensures e.Disk? ==> (Str(e).Err? <==> |e.args| == 0)
    ensures e.Builtin? && |e.args| == 1 ==> Str(e) == FirstArg(e)
    ensures e.Builtin? && |e.args| == 0 ==> Str(e) == Ok("") && FirstArg(e).Err?
  {
  }

  /** What each class prints when raised without arguments: the class-level
      message, except for `ExceptionBase`, which has none and raises `IndexError`;
      with arguments, every class prints the first one. */
  lemma DefaultMessages(args: seq<string>, cause: Option<Exc>)
    ensures Str(New(YandexDiskException, [], cause)) == Ok(UnknownError)
    ensures Str(New(YaTokenNotValidException, [], cause)) == Ok(TokenFailed)
    ensures Str(New(YaFileNotFound, [], cause)) == Ok(FileNotFound)
    ensures Str(New(ExceptionBase, [], cause)) == Err(IndexError())
    ensures forall c :: |args| > 0 ==> Str(New(c, args, cause)) == Ok(args[0])
  {
    forall c | |args| > 0 ensures Str(New(c, args, cause)) == Ok(args[0]) {
      var e := New(c, args, cause);
      assert e.args == args;
    }
  }

  /** The token error is a `YandexDiskException`; the not-found error is not. */
  lemma Hierarchy(args: seq<string>, cause: Option<Exc>)
    ensures IsInstance(New(YaTokenNotValidException, args, cause), YandexDiskException)
    ensures !IsInstance(New(YaFileNotFound, args, cause), YandexDiskException)
    ensures forall c :: IsInstance(New(c, args, cause), ExceptionBase)
  {
  }
}
