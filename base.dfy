/** Values shared by every part of the probe: optional values, Go's time
    units (a time.Duration is a count of nanoseconds) and Go error values
    with the text their Error() method gives. */
module Base {

  datatype Option<+T> = None | Some(value: T)

  /** time.Second and time.Hour, in nanoseconds. */
  const NanosPerSecond: int := 1_000_000_000
  const NanosPerHour: int := 3_600 * NanosPerSecond

  /** Go's integer division truncates toward zero; Dafny's `/` on int is
      Euclidean, so a negative dividend is handled explicitly. */
  function TruncDiv(a: int, b: int): (q: int)
    requires b > 0
    ensures a >= 0 ==> 0 <= q && q * b <= a < (q + 1) * b
    ensures a < 0 ==> q <= 0 && (q - 1) * b < a <= q * b
  {
    var m := if a >= 0 then a else -a;
    var k := m / b;
    DivisionBounds(m, b);
    if a >= 0 then k
    else
      assert (-k) * b == -(k * b) && (-k - 1) * b == -((k + 1) * b);
      -k
  }

  lemma DivisionBounds(m: nat, b: int)
    requires b > 0
    ensures 0 <= m / b && (m / b) * b <= m < (m / b + 1) * b
  {
    var k, r := m / b, m % b;
    assert m == k * b + r && 0 <= r < b;
    assert (k + 1) * b == k * b + b;
  }

  /** The two failure kinds of the strconv package. */
  datatype NumErrorKind = ErrSyntax | ErrRange

  /** The error values that reach the probe's results:
      - Plain: an error built by fmt.Errorf without a wrapped cause, and the
        opaque errors of the TLS dialer (only their text matters here);
      - Wrapped: fmt.Errorf("<context>: %w", cause);
      - NumError: a *strconv.NumError (function name, input, kind). */
  datatype Error =
    | Plain(msg: string)
    | Wrapped(context: string, cause: Error)
    | NumError(func: string, num: string, kind: NumErrorKind)

  function KindText(k: NumErrorKind): string {
    match k
    case ErrSyntax => "invalid syntax"
    case ErrRange => "value out of range"
  }

  /** The string err.Error() returns. */
  function Text(e: Error): (t: string)
    ensures e.Plain? ==> t == e.msg
    ensures e.Wrapped? ==> t == e.context + ": " + Text(e.cause)
  {
    match e
    case Plain(m) => m
    case Wrapped(c, cause) => c + ": " + Text(cause)
    case NumError(f, n, k) => "strconv." + f + ": parsing " + Quote(n) + ": " + KindText(k)
  }

  // ---------------------------------------------------------------------
  // strconv.Quote, as used by NumError.Error(), and its inverse

  const LowerHex: string := "0123456789abcdef"

  /** ASCII control characters (and DEL) are escaped; every other character
      is printed as it is, except the quote and the backslash. */
  function EscapeRune(c: char): (e: string)
    ensures |e| >= 1
    ensures ' ' <= c <= '~' && c != '"' && c != '\\' ==> e == [c]
  {
    var n := c as int;
    if c == '"' || c == '\\' then ['\\', c]
    else if 0x20 <= n < 0x7f || n > 0x7f then [c]
    else if n == 0x07 then "\\a"
    else if n == 0x08 then "\\b"
    else if n == 0x0c then "\\f"
    else if n == 0x0a then "\\n"
    else if n == 0x0d then "\\r"
    else if n == 0x09 then "\\t"
    else if n == 0x0b then "\\v"
    else ['\\', 'x', LowerHex[n / 16], LowerHex[n % 16]]
  }

  function EscapeAll(s: string): string {
    if s == [] then [] else EscapeRune(s[0]) + EscapeAll(s[1..])
  }

  /** strconv.Quote: the string in double quotes, with escapes. */
  function Quote(s: string): (q: string)
    ensures |q| >= 2 && q[0] == '"' && q[|q| - 1] == '"'
  {
    "\"" + EscapeAll(s) + "\""
  }

  predicate IsHex(c: char) {
    '0' <= c <= '9' || 'a' <= c <= 'f'
  }

  function HexValue(c: char): (v: nat)
    requires IsHex(c)
    ensures v < 16 && LowerHex[v] == c
  {
    if c <= '9' then (c as int) - ('0' as int) else (c as int) - ('a' as int) + 10
  }

  function Prepend(c: char, rest: Option<string>): Option<string> {
    if rest.Some? then Some([c] + rest.value) else None
  }

  /** The escapes EscapeRune produces, decoded; None on a malformed body. */
  function UnescapeAll(t: string): Option<string>
    decreases |t|
  {
    if t == [] then Some([])
    else if t[0] == '"' then None
    else if t[0] != '\\' then Prepend(t[0], UnescapeAll(t[1..]))
    else if |t| < 2 then None
    else
      var e := t[1];
      if e == '"' || e == '\\' then Prepend(e, UnescapeAll(t[2..]))
      else if e == 'a' then Prepend(0x07 as char, UnescapeAll(t[2..]))
      else if e == 'b' then Prepend(0x08 as char, UnescapeAll(t[2..]))
      else if e == 'f' then Prepend(0x0c as char, UnescapeAll(t[2..]))
      else if e == 'n' then Prepend(0x0a as char, UnescapeAll(t[2..]))
      else if e == 'r' then Prepend(0x0d as char, UnescapeAll(t[2..]))
      else if e == 't' then Prepend(0x09 as char, UnescapeAll(t[2..]))
      else if e == 'v' then Prepend(0x0b as char, UnescapeAll(t[2..]))
      else if e == 'x' && |t| >= 4 && IsHex(t[2]) && IsHex(t[3]) then
        Prepend((HexValue(t[2]) * 16 + HexValue(t[3])) as char, UnescapeAll(t[4..]))
      else None
  }

  /** strconv.Unquote restricted to double-quoted strings. */
  function Unquote(q: string): Option<string> {
    if |q| >= 2 && q[0] == '"' && q[|q| - 1] == '"' then UnescapeAll(q[1..|q| - 1]) else None
  }

  lemma UnescapeRune(c: char, rest: string)
    ensures UnescapeAll(EscapeRune(c) + rest) == Prepend(c, UnescapeAll(rest))
  {
    var n := c as int;
    if c == '"' || c == '\\' || 0x20 <= n < 0x7f || n > 0x7f {
      var e := EscapeRune(c);
      assert (e + rest)[|e|..] == rest;
    } else if n in {0x07, 0x08, 0x0c, 0x0a, 0x0d, 0x09, 0x0b} {
      UnescapeControl(c, rest);
    } else {
      UnescapeHex(c, rest);
    }
  }

  lemma UnescapeControl(c: char, rest: string)
    requires c as int in {0x07, 0x08, 0x0c, 0x0a, 0x0d, 0x09, 0x0b}
    ensures UnescapeAll(EscapeRune(c) + rest) == Prepend(c, UnescapeAll(rest))
  {
    var e := EscapeRune(c);
    assert |e| == 2 && e[0] == '\\';
    assert (e + rest)[2..] == rest;
  }

  lemma UnescapeHex(c: char, rest: string)
    requires c as int < 0x20 || c as int == 0x7f
    requires c as int !in {0x07, 0x08, 0x0c, 0x0a, 0x0d, 0x09, 0x0b}
    ensures UnescapeAll(EscapeRune(c) + rest) == Prepend(c, UnescapeAll(rest))
  {
    var n := c as int;
    var e := EscapeRune(c);
    assert e == ['\\', 'x', LowerHex[n / 16], LowerHex[n % 16]];
    assert (e + rest)[4..] == rest;
    assert HexValue(LowerHex[n / 16]) == n / 16;
    assert HexValue(LowerHex[n % 16]) == n % 16;
  }

  /** Unquote inverts Quote: the quoted input is recovered exactly. */
  lemma {:induction false} QuoteRoundTrip(s: string)
    ensures Unquote(Quote(s)) == Some(s)
  {
    var q := Quote(s);
    assert q[1..|q| - 1] == EscapeAll(s);
    EscapeRoundTrip(s);
  }

  lemma {:induction false} EscapeRoundTrip(s: string)
    ensures UnescapeAll(EscapeAll(s)) == Some(s)
  {
    if s != [] {
      EscapeRoundTrip(s[1..]);
      UnescapeRune(s[0], EscapeAll(s[1..]));
      assert [s[0]] + s[1..] == s;
    }
  }
}
