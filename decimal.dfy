/** Decimal text of integers as JavaScript writes it (`String(n)`, template
    literals, `cnt + ''`) and reads it back (`parseInt(s, 10)`). */
module Decimal {

  /** A JavaScript number restricted to what `parseInt` can produce here:
      an integer, or NaN. */
  datatype Num = Int(i: int) | NaN

  predicate IsDigit(c: char) { '0' <= c <= '9' }

  predicate AllDigits(s: string) { forall i :: 0 <= i < |s| ==> IsDigit(s[i]) }

  function DigitValue(c: char): (d: nat)
    requires IsDigit(c)
    ensures d < 10
  {
    c as int - '0' as int
  }

  function DigitChar(d: nat): (c: char)
    requires d < 10
    ensures IsDigit(c) && DigitValue(c) == d
  {
    ('0' as int + d) as char
  }

  /** `String(n)` for a non-negative integer: its decimal digits, with no leading zero. */
  function NatToString(n: nat): (s: string)
    ensures |s| > 0 && AllDigits(s)
    ensures s[0] == '0' ==> n == 0
  {
    if n < 10 then [DigitChar(n)] else NatToString(n / 10) + [DigitChar(n % 10)]
  }

  /** `String(n)` for any integer. */
  function IntToString(n: int): (s: string)
    ensures |s| > 0
    ensures n >= 0 ==> s == NatToString(n)
    ensures n < 0 ==> s == "-" + NatToString(-n)
  {
    if n < 0 then "-" + NatToString(-n) else NatToString(n)
  }

  /** The value of a string of decimal digits, read most significant digit first. */
  function DigitsValue(s: string): nat
    requires AllDigits(s)
  {
    if |s| == 0 then 0 else DigitsValue(s[..|s| - 1]) * 10 + DigitValue(s[|s| - 1])
  }

  /** The characters `parseInt` skips before a number: the ECMAScript
      WhiteSpace and LineTerminator code points. */
  predicate IsJsWhitespace(c: char) {
    || c == '\t' || c == '\n' || c == '\U{B}' || c == '\U{C}' || c == '\r'
    || c == ' ' || c == '\U{A0}' || c == '\U{1680}'
    || ('\U{2000}' <= c <= '\U{200A}')
    || c == '\U{2028}' || c == '\U{2029}' || c == '\U{202F}' || c == '\U{205F}'
    || c == '\U{3000}' || c == '\U{FEFF}'
  }

  function TrimStart(s: string): (t: string)
    ensures |t| <= |s|
    ensures |t| > 0 ==> !IsJsWhitespace(t[0])
  {
    if |s| > 0 && IsJsWhitespace(s[0]) then TrimStart(s[1..]) else s
  }

  /** The length of the run of decimal digits at the start of `s`. */
  function DigitRun(s: string): (k: nat)
    ensures k <= |s| && AllDigits(s[..k])
    ensures k < |s| ==> !IsDigit(s[k])
  {
    if |s| > 0 && IsDigit(s[0]) then
      var k := 1 + DigitRun(s[1..]);
      assert s[..k] == [s[0]] + s[1..][..k - 1];
      k
    else 0
  }

  /** `parseInt(s, 10)`: skip leading white space, take an optional sign, then
      the longest run of decimal digits; NaN when that run is empty. */
  function ParseInt(s: string): Num
  {
    ParseSigned(TrimStart(s))
  }

  /** `parseInt` after the white space: an optional sign, then the digits. */
  function ParseSigned(t: string): Num
  {
    if |t| > 0 && t[0] == '-' then Negate(ParseDigits(t[1..]))
    else if |t| > 0 && t[0] == '+' then ParseDigits(t[1..])
    else ParseDigits(t)
  }

  /** The value of the leading run of digits of `u`; NaN when there is none. */
  function ParseDigits(u: string): Num
  {
    var k := DigitRun(u);
    if k == 0 then NaN else Int(DigitsValue(u[..k]))
  }

  function Negate(x: Num): Num {
    match x
    case NaN => NaN
    case Int(i) => Int(-i)
  }

  lemma {:induction false} DigitsValueOfNatToString(n: nat)
    ensures DigitsValue(NatToString(n)) == n
  {
    if n >= 10 {
      var s := NatToString(n);
      assert s[..|s| - 1] == NatToString(n / 10);
      DigitsValueOfNatToString(n / 10);
    }
  }

  lemma {:induction false} DigitRunOfDigits(s: string, rest: string)
    requires AllDigits(s)
    requires rest == [] || !IsDigit(rest[0])
    ensures DigitRun(s + rest) == |s|
  {
    if |s| > 0 {
      assert (s + rest)[1..] == s[1..] + rest;
      DigitRunOfDigits(s[1..], rest);
    }
  }

  lemma TrimStartNoOp(s: string)
    requires |s| > 0 && !IsJsWhitespace(s[0])
    ensures TrimStart(s) == s
  {
  }

  /** The leading run of digits of `d + rest` is `d`. */
  lemma ParseDigitsOfPrefix(d: string, rest: string)
    requires |d| > 0 && AllDigits(d)
    requires rest == [] || !IsDigit(rest[0])
    ensures ParseDigits(d + rest) == Int(DigitsValue(d))
  {
    DigitRunOfDigits(d, rest);
    assert (d + rest)[..|d|] == d;
  }

  lemma {:induction false} ParseIntOfNatPrefix(m: nat, rest: string)
    requires rest == [] || !IsDigit(rest[0])
    ensures ParseInt(NatToString(m) + rest) == Int(m)
  {
    var t := NatToString(m) + rest;
    DigitsValueOfNatToString(m);
    ParseDigitsOfPrefix(NatToString(m), rest);
    TrimStartNoOp(t);
  }

  lemma {:induction false} ParseIntOfNegatedNatPrefix(m: nat, rest: string)
    requires rest == [] || !IsDigit(rest[0])
    ensures ParseInt("-" + (NatToString(m) + rest)) == Int(-(m as int))
  {
    var t := NatToString(m) + rest;
    DigitsValueOfNatToString(m);
    ParseDigitsOfPrefix(NatToString(m), rest);
    TrimStartNoOp("-" + t);
    assert ("-" + t)[1..] == t;
  }

  lemma NegativeText(n: int, rest: string)
    requires n < 0
    ensures IntToString(n) + rest == "-" + (NatToString(-n) + rest)
  {
    assert IntToString(n) == "-" + NatToString(-n);
  }

  lemma ParseIntOfNegativePrefix(n: int, rest: string)
    requires n < 0
    requires rest == [] || !IsDigit(rest[0])
    ensures ParseInt(IntToString(n) + rest) == Int(n)
  {
    ParseIntOfNegatedNatPrefix(-n, rest);
    NegativeText(n, rest);
  }

  /** Reading the decimal text of `n` back with `parseInt` gives `n`, also when
      anything other than a digit follows it. */
  lemma {:induction false} ParseIntOfDecimalPrefix(n: int, rest: string)
    requires rest == [] || !IsDigit(rest[0])
    ensures ParseInt(IntToString(n) + rest) == Int(n)
  {
    if n < 0 {
      ParseIntOfNegativePrefix(n, rest);
    } else {
      ParseIntOfNatPrefix(n, rest);
    }
  }

  /** `parseInt(String(n), 10) == n`: the decimal text and the parser are inverse. */
  lemma ParseIntOfDecimal(n: int)
    ensures ParseInt(IntToString(n)) == Int(n)
  {
    ParseIntOfDecimalPrefix(n, []);
    assert IntToString(n) + [] == IntToString(n);
  }
}
