/**
 * Go's `strconv.Atoi` for a 64-bit `int`, the only integer parser the core
 * uses (tenant ids from URLs and sessions, site ids, the `max_uses` form field).
 */
module Strconv {

  const MaxUint64: int := 0xFFFF_FFFF_FFFF_FFFF
  const MaxInt64: int := 0x7FFF_FFFF_FFFF_FFFF
  const MinInt64: int := -0x8000_0000_0000_0000

  /** The three outcomes of strconv.Atoi: a value, ErrSyntax (value 0), or ErrRange (value clamped). */
  datatype IntParse = Parsed(value: int) | SyntaxError | RangeError(clamped: int)

  predicate IsDigit(c: char) { '0' <= c <= '9' }

  function DigitValue(c: char): (d: nat)
    requires IsDigit(c)
    ensures d < 10
  {
    c as int - '0' as int
  }

  predicate AllDigits(s: string) {
    forall i :: 0 <= i < |s| ==> IsDigit(s[i])
  }

  /** The length of the longest all-digit prefix. */
  function LeadingDigits(s: string): (k: nat)
    ensures k <= |s|
    ensures AllDigits(s[..k])
    ensures k < |s| ==> !IsDigit(s[k])
  {
    if s == [] || !IsDigit(s[0]) then 0
    else
      var k := 1 + LeadingDigits(s[1..]);
      assert s[..k] == [s[0]] + s[1..][..k - 1];
      k
  }

  /** The number a string of decimal digits denotes, read most significant digit first. */
  function DigitsValue(s: string): nat
    requires AllDigits(s)
  {
    if s == [] then 0 else DigitsValue(s[..|s| - 1]) * 10 + DigitValue(s[|s| - 1])
  }

  /**
   * strconv.ParseUint(s, 10, 64). Go scans left to right and stops at the first
   * problem: a non-digit is ErrSyntax, an accumulated value above 2^64-1 is
   * ErrRange. Because a prefix never denotes more than the digits after it add,
   * the overflow is reached before the first non-digit exactly when the
   * all-digit prefix already exceeds 2^64-1.
   */
  function ParseUint(s: string): IntParse {
    if s == [] then SyntaxError
    else
      var k := LeadingDigits(s);
      if DigitsValue(s[..k]) > MaxUint64 then RangeError(MaxUint64)
      else if k < |s| then SyntaxError
      else Parsed(DigitsValue(s))
  }

  /** strconv.Atoi = ParseInt(s, 10, 0): an optional sign, then ParseUint, then the int64 range check. */
  function Atoi(s: string): (r: IntParse)
    ensures r.Parsed? ==> MinInt64 <= r.value <= MaxInt64
    ensures r.RangeError? ==> r.clamped == MinInt64 || r.clamped == MaxInt64
    ensures s == [] ==> r == SyntaxError
  {
    if s == [] then SyntaxError
    else
      var neg := s[0] == '-';
      var digits := if s[0] == '+' || s[0] == '-' then s[1..] else s;
      match ParseUint(digits)
      case SyntaxError => SyntaxError
      case RangeError(_) => if neg then RangeError(MinInt64) else RangeError(MaxInt64)
      case Parsed(u) =>
        if !neg && u > MaxInt64 then RangeError(MaxInt64)
        else if neg && u > -MinInt64 then RangeError(MinInt64)
        else Parsed(if neg then -u else u)
  }

  /** The int Go's Atoi returns next to its error: 0 on ErrSyntax, the clamped bound on ErrRange. */
  function ReturnedValue(r: IntParse): int {
    match r
    case Parsed(v) => v
    case SyntaxError => 0
    case RangeError(c) => c
  }

  /** A decimal numeral in the syntax Atoi accepts: an optional sign and at least one digit. */
  predicate IsNumeral(s: string) {
    var digits := if |s| > 0 && (s[0] == '+' || s[0] == '-') then s[1..] else s;
    |digits| > 0 && AllDigits(digits)
  }

  /** The value a numeral denotes, unbounded. */
  function NumeralValue(s: string): int
    requires IsNumeral(s)
  {
    if s[0] == '-' then -(DigitsValue(s[1..]) as int)
    else if s[0] == '+' then DigitsValue(s[1..])
    else DigitsValue(s)
  }

  /** strconv.Itoa for non-negative values. */
  function NatToDecimal(n: nat): (s: string)
    ensures |s| > 0 && AllDigits(s)
  {
    if n < 10 then [('0' as int + n) as char]
    else NatToDecimal(n / 10) + [('0' as int + n % 10) as char]
  }

  /** strconv.Itoa */
  function Itoa(n: int): string {
    if n < 0 then "-" + NatToDecimal(-n) else NatToDecimal(n)
  }

  lemma {:induction false} NatToDecimalValue(n: nat)
    ensures DigitsValue(NatToDecimal(n)) == n
  {
    var s := NatToDecimal(n);
    if n >= 10 {
      assert s[..|s| - 1] == NatToDecimal(n / 10);
      NatToDecimalValue(n / 10);
    }
  }

  lemma {:induction false} DigitsValueMonotone(s: string, k: nat)
    requires AllDigits(s) && k <= |s|
    ensures DigitsValue(s[..k]) <= DigitsValue(s)
  {
    if k < |s| {
      assert s[..|s| - 1][..k] == s[..k];
      DigitsValueMonotone(s[..|s| - 1], k);
    } else {
      assert s[..k] == s;
    }
  }

  lemma LeadingDigitsAll(s: string)
    requires AllDigits(s)
    ensures LeadingDigits(s) == |s|
  {
  }

  /** Atoi accepts exactly the numerals whose value fits in 64 bits, and returns that value. */
  lemma AtoiAcceptsNumerals(s: string)
    ensures Atoi(s).Parsed? <==> IsNumeral(s) && MinInt64 <= NumeralValue(s) <= MaxInt64
    ensures Atoi(s).Parsed? ==> Atoi(s).value == NumeralValue(s)
  {
    if s != [] {
      var digits := if s[0] == '+' || s[0] == '-' then s[1..] else s;
      if digits != [] && AllDigits(digits) {
        LeadingDigitsAll(digits);
        assert digits[..|digits|] == digits;
      }
      if Atoi(s).Parsed? {
        var k := LeadingDigits(digits);
        assert k == |digits|;
      }
    }
  }

  /** Itoa and Atoi are inverse on every 64-bit integer. */
  lemma AtoiItoa(n: int)
    requires MinInt64 <= n <= MaxInt64
    ensures Atoi(Itoa(n)) == Parsed(n)
  {
    var s := Itoa(n);
    if n < 0 {
      assert s[1..] == NatToDecimal(-n);
      NatToDecimalValue(-n);
    } else {
      NatToDecimalValue(n);
    }
    AtoiAcceptsNumerals(s);
  }
}
