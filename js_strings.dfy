/** String operations of the engine with JavaScript's meaning: the `<` and `>`
    comparison of two strings, `isNaN` of a string, and `split('-')[0]`. */
module JsStrings {
  import opened Decimal

  // ---------------------------------------------------------------------
  // String comparison
  // ---------------------------------------------------------------------

  /** `a < b` on two JavaScript strings: the first differing character decides,
      and a proper prefix sorts before the longer string. */
  predicate StrLess(a: string, b: string)
    decreases |a|
  {
    |b| > 0 && (|a| == 0 || (if a[0] == b[0] then StrLess(a[1..], b[1..]) else a[0] < b[0]))
  }

  function Pow10(k: nat): (p: nat)
    ensures p >= 1
  {
    if k == 0 then 1 else 10 * Pow10(k - 1)
  }

  lemma {:induction false} DigitsValueBound(s: string)
    requires AllDigits(s)
    ensures DigitsValue(s) < Pow10(|s|)
  {
    if |s| > 0 {
      DigitsValueBound(s[..|s| - 1]);
    }
  }

  /** The value of a digit string, read from its most significant digit. */
  lemma {:induction false} DigitsValueFront(s: string)
    requires |s| > 0 && AllDigits(s)
    ensures DigitsValue(s) == DigitValue(s[0]) * Pow10(|s| - 1) + DigitsValue(s[1..])
  {
    var n := |s|;
    if n > 1 {
      var init := s[..n - 1];
      DigitsValueFront(init);
      assert init[1..] == s[1..][..n - 2];
      var d0 := DigitValue(s[0]);
      assert d0 * Pow10(n - 2) * 10 == d0 * Pow10(n - 1);
    }
  }

  lemma {:induction false} MulMonotone(m: nat, n: nat, p: nat)
    requires m <= n
    ensures m * p <= n * p
  {
    if m < n {
      MulMonotone(m, n - 1, p);
      assert n * p == (n - 1) * p + p;
    }
  }

  /** `a·p + x < b·p + y` when `a < b` and `x < p`: a leading place outweighs the rest. */
  lemma LeadingPlaceOutweighs(a: nat, b: nat, p: nat, x: nat, y: nat)
    requires a < b && x < p
    ensures a * p + x < b * p + y
  {
    MulMonotone(a + 1, b, p);
    assert (a + 1) * p == a * p + p;
  }

  /** Between digit strings of one length, a smaller first digit means a smaller value. */
  lemma FirstDigitDecides(s: string, t: string)
    requires AllDigits(s) && AllDigits(t) && |s| == |t| > 0
    requires s[0] < t[0]
    ensures DigitsValue(s) < DigitsValue(t)
  {
    DigitsValueFront(s);
    DigitsValueFront(t);
    DigitsValueBound(s[1..]);
    LeadingPlaceOutweighs(DigitValue(s[0]), DigitValue(t[0]), Pow10(|s| - 1),
                          DigitsValue(s[1..]), DigitsValue(t[1..]));
  }

  /** Between digit strings of one length, equal first digits leave the rest to decide. */
  lemma SameFirstDigit(s: string, t: string)
    requires AllDigits(s) && AllDigits(t) && |s| == |t| > 0
    requires s[0] == t[0]
    ensures DigitsValue(s) < DigitsValue(t) <==> DigitsValue(s[1..]) < DigitsValue(t[1..])
  {
    DigitsValueFront(s);
    DigitsValueFront(t);
  }

  /** For two digit strings of the same length, comparing them as strings
      agrees with comparing their values. */
  lemma {:induction false} EqualLengthDigitsOrder(s: string, t: string)
    requires AllDigits(s) && AllDigits(t) && |s| == |t|
    ensures StrLess(s, t) <==> DigitsValue(s) < DigitsValue(t)
  {
    if |s| > 0 {
      if s[0] == t[0] {
        SameFirstDigit(s, t);
        EqualLengthDigitsOrder(s[1..], t[1..]);
      } else if s[0] < t[0] {
        FirstDigitDecides(s, t);
      } else {
        FirstDigitDecides(t, s);
      }
    }
  }

  /** Badge texts of the same number of digits compare as their numbers do. */
  lemma DecimalOrder(a: nat, b: nat)
    requires |NatToString(a)| == |NatToString(b)|
    ensures StrLess(NatToString(a), NatToString(b)) <==> a < b
  {
    EqualLengthDigitsOrder(NatToString(a), NatToString(b));
    DigitsValueOfNatToString(a);
    DigitsValueOfNatToString(b);
  }

  // ---------------------------------------------------------------------
  // isNaN of a string: whether Number(s) is NaN
  // ---------------------------------------------------------------------

  predicate IsHexDigit(c: char) { IsDigit(c) || 'a' <= c <= 'f' || 'A' <= c <= 'F' }

  predicate AllHex(s: string) { forall i :: 0 <= i < |s| ==> IsHexDigit(s[i]) }

  predicate AllIn(s: string, alphabet: string) { forall i :: 0 <= i < |s| ==> s[i] in alphabet }

  function TrimEnd(s: string): (t: string)
    ensures |t| <= |s| && t == s[..|t|]
    ensures |t| > 0 ==> !IsJsWhitespace(t[|t| - 1])
  {
    if |s| > 0 && IsJsWhitespace(s[|s| - 1]) then TrimEnd(s[..|s| - 1]) else s
  }

  /** `String.prototype.trim`. */
  function Trim(s: string): string {
    TrimEnd(TrimStart(s))
  }

  /** The first position of `c1` or `c2` in `s`, or `|s|` when neither occurs. */
  function FindEither(s: string, c1: char, c2: char): (k: nat)
    ensures k <= |s|
    ensures k < |s| ==> s[k] == c1 || s[k] == c2
    ensures forall i :: 0 <= i < k ==> s[i] != c1 && s[i] != c2
  {
    if |s| == 0 then 0
    else if s[0] == c1 || s[0] == c2 then 0
    else 1 + FindEither(s[1..], c1, c2)
  }

  lemma {:induction false} FindEitherAbsent(s: string, c1: char, c2: char)
    requires forall i :: 0 <= i < |s| ==> s[i] != c1 && s[i] != c2
    ensures FindEither(s, c1, c2) == |s|
  {
    if |s| > 0 {
      FindEitherAbsent(s[1..], c1, c2);
    }
  }

  /** `0x1F`, `0o17`, `0b101`: the NonDecimalIntegerLiteral forms. */
  predicate IsNonDecimalIntegerLiteral(t: string) {
    && |t| > 2 && t[0] == '0'
    && (|| ((t[1] == 'x' || t[1] == 'X') && AllHex(t[2..]))
        || ((t[1] == 'o' || t[1] == 'O') && AllIn(t[2..], "01234567"))
        || ((t[1] == 'b' || t[1] == 'B') && AllIn(t[2..], "01")))
  }

  /** `12`, `1.`, `.5`, `1.5`: digits with at most one decimal point. */
  predicate IsMantissa(m: string) {
    var d := FindEither(m, '.', '.');
    if d == |m| then |m| > 0 && AllDigits(m)
    else AllDigits(m[..d]) && AllDigits(m[d + 1..]) && |m| > 1
  }

  /** The digits after `e`, with an optional sign. */
  predicate IsExponent(x: string) {
    var y := if |x| > 0 && (x[0] == '+' || x[0] == '-') then x[1..] else x;
    |y| > 0 && AllDigits(y)
  }

  /** StrUnsignedDecimalLiteral: `Infinity`, or a mantissa with an optional exponent. */
  predicate IsUnsignedDecimalLiteral(t: string) {
    || t == "Infinity"
    || (var e := FindEither(t, 'e', 'E');
        IsMantissa(t[..e]) && (e == |t| || IsExponent(t[e + 1..])))
  }

  /** Whether `Number(s)` is a number: the trimmed text is empty or a
      StringNumericLiteral. */
  predicate IsNumericString(s: string) {
    var t := Trim(s);
    || |t| == 0
    || IsNonDecimalIntegerLiteral(t)
    || (if t[0] == '+' || t[0] == '-' then IsUnsignedDecimalLiteral(t[1..]) else IsUnsignedDecimalLiteral(t))
  }

  /** A text that starts with neither a digit, a point nor a sign, and is not
      `Infinity`, is no decimal literal. */
  lemma NonDigitStartNotUnsigned(t: string)
    requires |t| > 0 && !IsDigit(t[0]) && t[0] != '.' && t != "Infinity"
    ensures !IsUnsignedDecimalLiteral(t)
  {
    var e := FindEither(t, 'e', 'E');
    var m := t[..e];
    if e > 0 {
      assert m[0] == t[0];
      var d := FindEither(m, '.', '.');
      assert d > 0;
      assert !AllDigits(m[..d]) by { assert m[..d][0] == m[0]; }
    }
  }

  /** `isNaN(s)` for a string `s`. */
  predicate IsNaNString(s: string) {
    !IsNumericString(s)
  }

  /** A text that starts with a character no numeric literal can start with
      is not numeric. */
  lemma BadStartIsNaN(t: string)
    requires |t| > 0 && !IsJsWhitespace(t[0]) && !IsJsWhitespace(t[|t| - 1])
    requires !IsDigit(t[0]) && t[0] != '.' && t[0] != '+' && t[0] != '-' && t[0] != 'I'
    ensures IsNaNString(t)
  {
    TrimNoOp(t);
    NonDigitStartNotUnsigned(t);
  }

  lemma TrimNoOp(s: string)
    requires |s| > 0 && !IsJsWhitespace(s[0]) && !IsJsWhitespace(s[|s| - 1])
    ensures Trim(s) == s
  {
    TrimStartNoOp(s);
  }

  lemma DigitsAreUnsignedDecimal(d: string)
    requires |d| > 0 && AllDigits(d)
    ensures IsUnsignedDecimalLiteral(d)
  {
    var e := FindEither(d, 'e', 'E');
    assert e == |d|;
    assert d[..e] == d;
    assert FindEither(d, '.', '.') == |d|;
  }

  /** Every decimal text `String(n)` is numeric: `isNaN` of it is false. */
  lemma DecimalIsNumeric(n: int)
    ensures IsNumericString(IntToString(n))
  {
    var s := IntToString(n);
    var d := NatToString(if n < 0 then -n else n);
    assert IsDigit(s[|s| - 1]);
    if n < 0 {
      assert s[0] == '-';
      TrimNoOp(s);
      assert s[1..] == d;
      DigitsAreUnsignedDecimal(d);
    } else {
      assert IsDigit(s[0]);
      TrimNoOp(s);
      DigitsAreUnsignedDecimal(d);
    }
  }

  lemma NoMarkAfterDigits(d: string, suffix: char, c1: char, c2: char)
    requires AllDigits(d) && !IsDigit(c1) && !IsDigit(c2) && suffix != c1 && suffix != c2
    ensures FindEither(d + [suffix], c1, c2) == |d| + 1
  {
    var t := d + [suffix];
    assert forall i :: 0 <= i < |t| ==> t[i] != c1 && t[i] != c2 by {
      forall i | 0 <= i < |t| ensures t[i] != c1 && t[i] != c2 {
        if i < |d| { assert t[i] == d[i]; }
      }
    }
  }

  /** A digit string followed by a letter is no NonDecimalIntegerLiteral:
      only `0` may start one, and `0` followed by the letter is too short. */
  lemma SuffixedNotNonDecimal(k: nat, suffix: char)
    requires suffix == 'k' || suffix == 'm'
    ensures !IsNonDecimalIntegerLiteral(NatToString(k) + [suffix])
  {
    var d := NatToString(k);
    assert d[0] == '0' ==> d == "0";
  }

  lemma SuffixedNotUnsignedDecimal(k: nat, suffix: char)
    requires suffix == 'k' || suffix == 'm'
    ensures !IsUnsignedDecimalLiteral(NatToString(k) + [suffix])
  {
    var d := NatToString(k);
    var t := d + [suffix];
    NoMarkAfterDigits(d, suffix, 'e', 'E');
    assert t[..|t|] == t;
    NoMarkAfterDigits(d, suffix, '.', '.');
    assert !AllDigits(t) by {
      assert !IsDigit(t[|t| - 1]);
    }
    assert t != "Infinity" by {
      assert IsDigit(t[0]);
    }
  }

  /** A shortened badge text such as `12k` or `3m` is not numeric: `isNaN` of it is true. */
  lemma SuffixedIsNaN(k: nat, suffix: char)
    requires suffix == 'k' || suffix == 'm'
    ensures IsNaNString(NatToString(k) + [suffix])
  {
    var t := NatToString(k) + [suffix];
    assert IsDigit(t[0]);
    TrimNoOp(t);
    SuffixedNotNonDecimal(k, suffix);
    SuffixedNotUnsignedDecimal(k, suffix);
  }

  // ---------------------------------------------------------------------
  // split('-')[0]
  // ---------------------------------------------------------------------

  /** `s.split('-')[0]`: the text before the first `-`, or all of `s`. */
  function BeforeDash(s: string): (r: string)
    ensures |r| <= |s| && r == s[..|r|]
    ensures forall i :: 0 <= i < |r| ==> r[i] != '-'
    ensures |r| < |s| ==> s[|r|] == '-'
  {
    if |s| == 0 || s[0] == '-' then "" else [s[0]] + BeforeDash(s[1..])
  }
}
