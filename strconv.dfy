/** The two parsers of Go's strconv package that the probe relies on:
    ParseUint(s, 10, 64) and ParseBool. Both return a value together with
    an error, as Go does; the value returned beside an error is the one
    the Go library gives (0 or false, and the maximum on overflow), because
    one caller ignores the error and keeps the value. */
module Strconv {
  import opened Base

  const MaxUint64: nat := 0xFFFF_FFFF_FFFF_FFFF

  /** Go's (value, error) result pair. */
  datatype Parsed<T> = Parsed(value: T, err: Option<Error>)

  predicate IsDigit(c: char) {
    '0' <= c <= '9'
  }

  function DigitValue(c: char): (v: nat)
    requires IsDigit(c)
    ensures v < 10
  {
    (c as int) - ('0' as int)
  }

  predicate AllDigits(s: string) {
    forall i :: 0 <= i < |s| ==> IsDigit(s[i])
  }

  /** The number a string of decimal digits denotes (leading zeros allowed). */
  function DecimalValue(s: string): nat
    requires AllDigits(s)
  {
    if s == [] then 0 else DecimalValue(s[..|s| - 1]) * 10 + DigitValue(s[|s| - 1])
  }

  /** The length of the longest prefix made of decimal digits. */
  function DigitRun(s: string): (k: nat)
    ensures k <= |s| && AllDigits(s[..k])
    ensures k < |s| ==> !IsDigit(s[k])
  {
    if s == [] || !IsDigit(s[0]) then 0
    else
      var k := 1 + DigitRun(s[1..]);
      assert s[..k] == [s[0]] + s[1..][..k - 1];
      k
  }

  /** Accepted by ParseUint(s, 10, 64): a non-empty run of decimal digits
      denoting a number below 2^64. No sign, no underscore, no prefix. */
  predicate IsUint64Decimal(s: string) {
    s != [] && AllDigits(s) && DecimalValue(s) <= MaxUint64
  }

  /** The digits in front of the first non-digit already exceed 2^64 - 1:
      ParseUint reports a range error before it reaches the bad character. */
  predicate RunOverflows(s: string) {
    DecimalValue(s[..DigitRun(s)]) > MaxUint64
  }

  /** The prefix of a digit string never denotes more than the whole. */
  lemma {:induction false} PrefixValueAtMost(t: string, j: nat)
    requires AllDigits(t) && j <= |t|
    ensures DecimalValue(t[..j]) <= DecimalValue(t)
    decreases |t|
  {
    if j < |t| {
      var u := t[..|t| - 1];
      PrefixValueAtMost(u, j);
      assert u[..j] == t[..j];
    } else {
      assert t[..j] == t;
    }
  }

  /** Once a run of leading digits exceeds 2^64 - 1, so does the whole digit
      run, and the string is not a 64-bit decimal. */
  lemma PrefixOverflow(s: string, j: nat)
    requires j <= |s| && AllDigits(s[..j]) && DecimalValue(s[..j]) > MaxUint64
    ensures RunOverflows(s) && !IsUint64Decimal(s)
  {
    var k := DigitRun(s);
    assert s[..k][..j] == s[..j];
    PrefixValueAtMost(s[..k], j);
    if AllDigits(s) {
      PrefixValueAtMost(s, j);
    }
  }

  /** A string whose leading digits overflow is rejected. */
  lemma OverflowIsNotDecimal(s: string)
    ensures RunOverflows(s) ==> !IsUint64Decimal(s)
  {
    if RunOverflows(s) {
      PrefixOverflow(s, DigitRun(s));
    }
  }

  /** strconv.ParseUint(s, 10, 64). */
  function ParseUint64(s: string): (r: Parsed<nat>)
    ensures r.err.None? <==> IsUint64Decimal(s)
    ensures r.err.None? ==> r.value == DecimalValue(s)
    ensures r.err.Some? ==>
      r.err.value == NumError("ParseUint", s, if RunOverflows(s) then ErrRange else ErrSyntax)
    ensures r.err.Some? ==> r.value == if RunOverflows(s) then MaxUint64 else 0
    ensures r.value <= MaxUint64
  {
    if s == [] then Parsed(0, Some(NumError("ParseUint", s, ErrSyntax)))
    else ScanDecimal(s, 0, 0)
  }

  /** The digit loop of ParseUint: `acc` is the value of s[..i]. Go's loop
      guards the multiplication with a cutoff of MaxUint64 / 10 + 1 and the
      addition with an overflow test; over unbounded integers both come to
      "the new value exceeds MaxUint64". */
  function ScanDecimal(s: string, i: nat, acc: nat): (r: Parsed<nat>)
    requires s != [] && i <= |s|
    requires AllDigits(s[..i]) && acc == DecimalValue(s[..i]) && acc <= MaxUint64
    ensures r.err.None? <==> IsUint64Decimal(s)
    ensures r.err.None? ==> r.value == DecimalValue(s)
    ensures r.err.Some? ==>
      r.err.value == NumError("ParseUint", s, if RunOverflows(s) then ErrRange else ErrSyntax)
    ensures r.err.Some? ==> r.value == if RunOverflows(s) then MaxUint64 else 0
    ensures r.value <= MaxUint64
    decreases |s| - i
  {
    if i == |s| then
      assert s[..i] == s;
      Parsed(acc, None)
    else if !IsDigit(s[i]) then
      assert DigitRun(s) == i;
      Parsed(0, Some(NumError("ParseUint", s, ErrSyntax)))
    else
      var n := acc * 10 + DigitValue(s[i]);
      assert s[..i + 1][..i] == s[..i];
      assert AllDigits(s[..i + 1]) && DecimalValue(s[..i + 1]) == n;
      if n > MaxUint64 then
        PrefixOverflow(s, i + 1);
        Parsed(MaxUint64, Some(NumError("ParseUint", s, ErrRange)))
      else
        ScanDecimal(s, i + 1, n)
  }

  // ---------------------------------------------------------------------
  // strconv.FormatUint(n, 10), the inverse of ParseUint

  function DigitChar(d: nat): (c: char)
    requires d < 10
    ensures IsDigit(c) && DigitValue(c) == d
  {
    ('0' as int + d) as char
  }

  function FormatDecimal(n: nat): string {
    if n < 10 then [DigitChar(n)] else FormatDecimal(n / 10) + [DigitChar(n % 10)]
  }

  lemma {:induction false} FormatDecimalDenotes(n: nat)
    ensures FormatDecimal(n) != [] && AllDigits(FormatDecimal(n))
    ensures DecimalValue(FormatDecimal(n)) == n
  {
    var s := FormatDecimal(n);
    if n < 10 {
      assert s[..0] == [];
    } else {
      FormatDecimalDenotes(n / 10);
      assert s[..|s| - 1] == FormatDecimal(n / 10);
    }
  }

  /** Every number below 2^64, written in decimal, parses back to itself. */
  lemma ParseFormatRoundTrip(n: nat)
    requires n <= MaxUint64
    ensures ParseUint64(FormatDecimal(n)) == Parsed(n, None)
  {
    FormatDecimalDenotes(n);
  }

  // ---------------------------------------------------------------------
  // strconv.ParseBool

  const TrueSpellings: set<string> := {"1", "t", "T", "TRUE", "true", "True"}
  const FalseSpellings: set<string> := {"0", "f", "F", "FALSE", "false", "False"}

  /** strconv.ParseBool: exactly twelve spellings are accepted; anything else
      is a syntax error and the value false. */
  function ParseBool(s: string): (r: Parsed<bool>)
    ensures r.err.None? <==> s in TrueSpellings + FalseSpellings
    ensures r.err.None? ==> (r.value <==> s in TrueSpellings)
    ensures r.err.Some? ==> !r.value && r.err.value == NumError("ParseBool", s, ErrSyntax)
  {
    match s
    case "1" => Parsed(true, None)
    case "t" => Parsed(true, None)
    case "T" => Parsed(true, None)
    case "TRUE" => Parsed(true, None)
    case "true" => Parsed(true, None)
    case "True" => Parsed(true, None)
    case "0" => Parsed(false, None)
    case "f" => Parsed(false, None)
    case "F" => Parsed(false, None)
    case "FALSE" => Parsed(false, None)
    case "false" => Parsed(false, None)
    case "False" => Parsed(false, None)
    case _ => Parsed(false, Some(NumError("ParseBool", s, ErrSyntax)))
  }
}
