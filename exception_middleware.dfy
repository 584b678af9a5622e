/** The server's exception middleware: a request whose handler throws gets a JSON error body
    and a status chosen by the exception's type (section 15.5.5 of RFC 9110 for 404 Not Found,
    section 15.5.2 for 401 Unauthorized, section 15.6.1 for 500 Internal Server Error), and
    the exception is logged once. The exception types the server throws are declared here. */
module ExceptionMiddleware {
  import opened Wrappers

  datatype ExceptionKind =
    | NotFoundException
    | UnauthorizedException
    | UserAlreadyExistsException
    | InvalidOperationException
    | GeneralException

  /** A thrown exception: its type and `Message`. */
  datatype Exception = Exception(kind: ExceptionKind, message: string)

  const StatusNotFound: int := 404
  const StatusUnauthorized: int := 401
  const StatusInternalServerError: int := 500

  /** The status for an exception: 404 and 401 for the two dedicated types, 500 for any other. */
  function StatusFor(e: Exception): (code: int)
    ensures code == StatusNotFound <==> e.kind == NotFoundException
    ensures code == StatusUnauthorized <==> e.kind == UnauthorizedException
    ensures code == StatusInternalServerError <==> e.kind != NotFoundException && e.kind != UnauthorizedException
  {
    match e.kind
    case NotFoundException => StatusNotFound
    case UnauthorizedException => StatusUnauthorized
    case _ => StatusInternalServerError
  }

  /** A lower-case hexadecimal digit. */
  function HexDigit(d: nat): char
    requires d < 16
  {
    if d < 10 then ('0' as int + d) as char else ('a' as int + d - 10) as char
  }

  /** The value of a hexadecimal digit of either case. */
  function HexValue(c: char): Option<nat> {
    if '0' <= c <= '9' then Some(c as int - '0' as int)
    else if 'a' <= c <= 'f' then Some(c as int - 'a' as int + 10)
    else if 'A' <= c <= 'F' then Some(c as int - 'A' as int + 10)
    else None
  }

  /** Four hexadecimal digits of `n`. */
  function Hex4(n: nat): (r: string)
    requires n < 0x1_0000
    ensures |r| == 4
  {
    var q1 := n / 16;
    var q2 := q1 / 16;
    [HexDigit(q2 / 16), HexDigit(q2 % 16), HexDigit(q1 % 16), HexDigit(n % 16)]
  }

  /** The value of four hexadecimal digits. */
  function Hex4Value(t: string): Option<nat>
    requires |t| == 4
  {
    var a, b, c, d := HexValue(t[0]), HexValue(t[1]), HexValue(t[2]), HexValue(t[3]);
    if a.Some? && b.Some? && c.Some? && d.Some? then Some(((a.value * 16 + b.value) * 16 + c.value) * 16 + d.value)
    else None
  }

  lemma Hex4RoundTrip(n: nat)
    requires n < 0x1_0000
    ensures Hex4Value(Hex4(n)) == Some(n)
  {
    var q1 := n / 16;
    var q2 := q1 / 16;
    HexDigitValue(q2 / 16);
    HexDigitValue(q2 % 16);
    HexDigitValue(q1 % 16);
    HexDigitValue(n % 16);
    Recombine(n, q1, q2, q2 / 16, q2 % 16, q1 % 16, n % 16);
  }

  lemma HexDigitValue(d: nat)
    requires d < 16
    ensures HexValue(HexDigit(d)) == Some(d)
  {
  }

  lemma Recombine(n: nat, q1: nat, q2: nat, a: nat, b: nat, c: nat, d: nat)
    requires n == q1 * 16 + d && q1 == q2 * 16 + c && q2 == a * 16 + b
    ensures ((a * 16 + b) * 16 + c) * 16 + d == n
  {
  }

  /** Characters the JSON writer spells as `\u` and four hex digits: the control characters
      without a short escape, U+0085, and the line and paragraph separators. */
  predicate UnicodeEscaped(c: char) {
    (c < 32 as char && c != 8 as char && c != '\t' && c != '\n' && c != 12 as char && c != '\r') ||
    c == 0x85 as char || c == 0x2028 as char || c == 0x2029 as char
  }

  /** How the JSON writer spells one character inside a string. */
  function Escape(c: char): (r: string)
    ensures |r| >= 1
  {
    if c == '"' then "\\\""
    else if c == '\\' then "\\\\"
    else if c == 8 as char then "\\b"
    else if c == '\t' then "\\t"
    else if c == '\n' then "\\n"
    else if c == 12 as char then "\\f"
    else if c == '\r' then "\\r"
    else if UnicodeEscaped(c) then "\\u" + Hex4(c as int)
    else [c]
  }

  /** The characters of a JSON string literal, without the quotes. */
  function EscapeAll(s: string): string {
    if |s| == 0 then "" else Escape(s[0]) + EscapeAll(s[1..])
  }

  /** What an unescaped character may be inside a JSON string. */
  predicate PlainChar(c: char) {
    c != '"' && c != '\\' && c >= 32 as char
  }

  /** The character a `\u` escape stands for, when it is a scalar value. */
  function CodeUnit(v: nat): Option<char> {
    if v < 0xD800 || 0xE000 <= v < 0x11_0000 then Some(v as char) else None
  }

  /** Reading the characters of a JSON string back (a reference reader: `None` for a malformed
      or an unterminated escape, a raw quote, a raw control character or a lone surrogate). */
  function Unescape(t: string): (r: Option<string>)
    decreases |t|
  {
    if |t| == 0 then Some("")
    else if t[0] != '\\' then
      (if PlainChar(t[0]) then Prepend(t[0], Unescape(t[1..])) else None)
    else if |t| < 2 then None
    else if t[1] == 'u' then
      if |t| < 6 then None
      else
        var v := Hex4Value(t[2..6]);
        if v.None? || CodeUnit(v.value).None? then None else Prepend(CodeUnit(v.value).value, Unescape(t[6..]))
    else
      var c := ShortUnescape(t[1]);
      if c.None? then None else Prepend(c.value, Unescape(t[2..]))
  }

  function Prepend(c: char, r: Option<string>): Option<string> {
    if r.Some? then Some([c] + r.value) else None
  }

  /** The character after a backslash, for the two-character escapes. */
  function ShortUnescape(e: char): Option<char> {
    if e == '"' then Some('"')
    else if e == '\\' then Some('\\')
    else if e == '/' then Some('/')
    else if e == 'b' then Some(8 as char)
    else if e == 't' then Some('\t')
    else if e == 'n' then Some('\n')
    else if e == 'f' then Some(12 as char)
    else if e == 'r' then Some('\r')
    else None
  }

  /** Reading back one escaped character, followed by anything. */
  lemma UnescapeOne(c: char, rest: string)
    ensures Unescape(Escape(c) + rest) == Prepend(c, Unescape(rest))
  {
    var t := Escape(c) + rest;
    if UnicodeEscaped(c) && c != '"' && c != '\\' {
      Hex4RoundTrip(c as int);
      assert t[2..6] == Hex4(c as int);
      assert t[6..] == rest;
    } else if |Escape(c)| == 2 {
      assert t[2..] == rest;
    } else {
      assert t[1..] == rest;
    }
  }

  /** The error body's string survives the writer: reading the escaped message gives it back. */
  lemma {:induction false} EscapeRoundTrip(s: string)
    ensures Unescape(EscapeAll(s)) == Some(s)
  {
    if |s| > 0 {
      EscapeRoundTrip(s[1..]);
      UnescapeOne(s[0], EscapeAll(s[1..]));
      assert [s[0]] + s[1..] == s;
    }
  }

  /** `JsonConvert.SerializeObject(new { error = message })`. */
  function ErrorBody(message: string): string {
    "{\"error\":\"" + EscapeAll(message) + "\"}"
  }

  const JsonContentType: string := "application/json"

  /** The part of `HttpContext.Response` the middleware writes. */
  class Response {
    var statusCode: int
    var contentType: string
    var body: string

    constructor()
      ensures statusCode == 200 && contentType == "" && body == ""
    {
      statusCode := 200;
      contentType := "";
      body := "";
    }
  }

  class ExceptionMiddleware {
    /** What `LogError` has received, in order. */
    var log: seq<Exception>

    constructor()
      ensures log == []
    {
      log := [];
    }

    /** `InvokeAsync` once the next handler has run on `response`: `thrown` is what it threw.
        Nothing is touched when it threw nothing; otherwise the exception is logged once and
        the JSON error is written with its status. */
    method InvokeAsync(response: Response, thrown: Option<Exception>)
      modifies this`log, response
      ensures thrown.None? ==> log == old(log) && unchanged(response)
      ensures thrown.Some? ==> log == old(log) + [thrown.value]
      ensures thrown.Some? ==> (response.statusCode == StatusFor(thrown.value) &&
        response.contentType == JsonContentType &&
        response.body == old(response.body) + ErrorBody(thrown.value.message))
    {
      if thrown.Some? {
        log := log + [thrown.value];
        HandleException(response, thrown.value);
      }
    }

    /** `HandleExceptionAsync`: content type, status by type, and the body written. */
    method HandleException(response: Response, e: Exception)
      modifies response
      ensures response.contentType == JsonContentType && response.statusCode == StatusFor(e)
      ensures response.body == old(response.body) + ErrorBody(e.message)
    {
      response.contentType := JsonContentType;
      var status;
      match e.kind {
        case NotFoundException => status := StatusNotFound;
        case UnauthorizedException => status := StatusUnauthorized;
        case _ => status := StatusInternalServerError;
      }
      response.statusCode := status;
      response.body := response.body + ErrorBody(e.message);
    }
  }
}
