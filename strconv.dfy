/**
 * Decimal formatting and parsing with the semantics of Go's `strconv`
 * (Itoa, ParseUint in base 10, Atoi), including its error results: a
 * syntax error yields 0 and a range error yields the saturated bound.
 */
module Strconv {
  import opened GoStrings

  const MaxUint16: nat := 65535
  const MaxUint64: nat := 18446744073709551615
  const MinInt64: int := -9223372036854775808
  const MaxInt64: int := 9223372036854775807
  const MaxUint32: nat := 4294967295
  const MaxInt32: int := 2147483647
  const MinInt32: int := -2147483648

  predicate IsDigit(c: char) { '0' <= c <= '9' }

  function DigitValue(c: char): nat
    requires IsDigit(c)
  {
    c as int - '0' as int
  }

  function DigitChar(d: nat): (c: char)
    requires d < 10
    ensures IsDigit(c) && DigitValue(c) == d
  {
    ('0' as int + d) as char
  }

  predicate AllDigits(s: string)
  {
    forall k :: 0 <= k < |s| ==> IsDigit(s[k])
  }

  /** strconv.Itoa on a non-negative value: shortest decimal, no sign. */
  function FormatNat(n: nat): (r: string)
    ensures |r| >= 1
    decreases n
  {
    if n < 10 then [DigitChar(n)] else FormatNat(n / 10) + [DigitChar(n % 10)]
  }

  /** The decimal form holds digits only. */
  lemma {:induction false} FormatNatDigits(n: nat)
    ensures AllDigits(FormatNat(n))
    decreases n
  {
    if n >= 10 {
      FormatNatDigits(n / 10);
    }
  }

  /** strconv.Itoa / fmt's %d: a leading '-' for negative values. */
  function FormatInt(i: int): (r: string)
    ensures |r| >= 1
  {
    if i < 0 then "-" + FormatNat(-i) else FormatNat(i)
  }

  /** A formatted integer has no ':', so it cannot split a host:port pair. */
  lemma FormatIntNoColon(i: int)
    ensures ':' !in FormatInt(i)
  {
    FormatNatDigits(if i < 0 then -i else i);
  }

  datatype Scan = Digits(n: nat) | SyntaxError | RangeError

  /**
   * The digit loop of strconv.ParseUint in base 10.  It reads left to right
   * and returns at the first non-digit (syntax error) or at the first digit
   * that takes the value past `max` (range error), whatever follows.
   */
  function ScanDigits(s: string, acc: nat, max: nat): (r: Scan)
    requires acc <= max
    ensures r.Digits? ==> r.n <= max
    decreases |s|
  {
    if |s| == 0 then Digits(acc)
    else if !IsDigit(s[0]) then SyntaxError
    else
      var v := acc * 10 + DigitValue(s[0]);
      if v > max then RangeError else ScanDigits(s[1..], v, max)
  }

  /** strconv.ParseUint(s, 10, bits) with the error discarded, `max` = 2^bits - 1. */
  function ParseUint(s: string, max: nat): (r: nat)
    ensures r <= max
  {
    if s == "" then 0
    else match ScanDigits(s, 0, max)
      case Digits(n) => n
      case SyntaxError => 0
      case RangeError => max
  }

  /**
   * strconv.ParseInt(s, 10, bits) with the error discarded, for the signed
   * range [-cutoff, cutoff - 1] and unsigned scan bound `umax`
   * (cutoff = 2^(bits-1), umax = 2^bits - 1): optional sign, saturation on
   * overflow, 0 on a syntax error.
   */
  function ParseInt(s: string, umax: nat, cutoff: nat): (r: int)
    requires 0 < cutoff <= umax
    ensures -(cutoff as int) <= r < cutoff
  {
    if s == "" then 0
    else
      var neg := s[0] == '-';
      var body := if s[0] == '-' || s[0] == '+' then s[1..] else s;
      if body == "" then 0
      else match ScanDigits(body, 0, umax)
        case SyntaxError => 0
        case RangeError => if neg then -(cutoff as int) else cutoff - 1
        case Digits(n) =>
          if !neg && n >= cutoff then cutoff - 1
          else if neg && n > cutoff then -(cutoff as int)
          else if neg then -(n as int) else n
  }

  /**
   * Whether strconv.ParseInt(s, 10, bits) returns a nil error: an optional
   * sign, at least one digit, only digits, and a value inside the signed range.
   */
  predicate ParseIntOk(s: string, umax: nat, cutoff: nat)
  {
    s != "" &&
    var neg := s[0] == '-';
    var body := if s[0] == '-' || s[0] == '+' then s[1..] else s;
    body != "" &&
    match ScanDigits(body, 0, umax)
    case Digits(n) => if neg then n <= cutoff else n < cutoff
    case _ => false
  }

  /** The decimal form of a value in the signed range parses without error. */
  lemma ParseIntOkFormat(i: int, umax: nat, cutoff: nat)
    requires 0 < cutoff <= umax && -(cutoff as int) <= i < cutoff
    ensures ParseIntOk(FormatInt(i), umax, cutoff)
  {
    if i < 0 {
      ScanFormat(-i, umax);
      assert ("-" + FormatNat(-i))[1..] == FormatNat(-i);
    } else {
      ScanFormat(i, umax);
    }
  }

  /** strconv.Atoi on a 64-bit platform. */
  function Atoi(s: string): (r: int)
    ensures MinInt64 <= r <= MaxInt64
  {
    ParseInt(s, MaxUint64, MaxInt64 + 1)
  }

  lemma {:induction false} ScanAppend(s: string, t: string, acc: nat, max: nat)
    requires acc <= max
    ensures ScanDigits(s + t, acc, max) ==
      match ScanDigits(s, acc, max)
      case Digits(m) => ScanDigits(t, m, max)
      case other => other
    decreases |s|
  {
    if |s| > 0 {
      assert (s + t)[0] == s[0];
      assert (s + t)[1..] == s[1..] + t;
      if IsDigit(s[0]) && acc * 10 + DigitValue(s[0]) <= max {
        ScanAppend(s[1..], t, acc * 10 + DigitValue(s[0]), max);
      }
    } else {
      assert s + t == t;
    }
  }

  /** Parsing the decimal form of a value that fits gives the value back. */
  lemma {:induction false} ScanFormat(n: nat, max: nat)
    requires n <= max
    ensures ScanDigits(FormatNat(n), 0, max) == Digits(n)
    decreases n
  {
    var d := DigitChar(n % 10);
    if n >= 10 {
      ScanFormat(n / 10, max);
      ScanAppend(FormatNat(n / 10), [d], 0, max);
      assert ScanDigits([d], n / 10, max) == ScanDigits([d][1..], n, max);
    }
  }

  lemma ParseUintFormat(n: nat, max: nat)
    requires n <= max
    ensures ParseUint(FormatNat(n), max) == n
  {
    ScanFormat(n, max);
  }

  /** ParseInt inverts FormatInt on its signed range. */
  lemma ParseIntFormat(i: int, umax: nat, cutoff: nat)
    requires 0 < cutoff <= umax && -(cutoff as int) <= i < cutoff
    ensures ParseInt(FormatInt(i), umax, cutoff) == i
  {
    if i < 0 {
      ScanFormat(-i, umax);
      assert ("-" + FormatNat(-i))[1..] == FormatNat(-i);
    } else {
      ScanFormat(i, umax);
    }
  }

  lemma AtoiFormat(i: int)
    requires MinInt64 <= i <= MaxInt64
    ensures Atoi(FormatInt(i)) == i
  {
    ParseIntFormat(i, MaxUint64, MaxInt64 + 1);
  }

  /** Values past 16 bits saturate: ParseUint(s, 10, 16) never wraps. */
  lemma ParseUint16Saturates(n: nat)
    requires n > MaxUint16
    ensures ParseUint(FormatNat(n), MaxUint16) == MaxUint16
  {
    ScanFormat(n, n);
    ScanBelow(FormatNat(n), 0, MaxUint16, n, n);
  }

  /** A scan that ends above `max` under a larger bound stops with a range error under `max`. */
  lemma {:induction false} ScanBelow(s: string, acc: nat, max: nat, bound: nat, n: nat)
    requires acc <= max <= bound
    requires ScanDigits(s, acc, bound) == Digits(n) && n > max
    ensures ScanDigits(s, acc, max) == RangeError
    decreases |s|
  {
    if |s| > 0 {
      var v := acc * 10 + DigitValue(s[0]);
      if v <= max {
        ScanBelow(s[1..], v, max, bound, n);
      }
    }
  }
}
