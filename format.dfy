/** The texts the engine shows: the badge count (`shortenCount`) and the
    button titles (`plural`). */
module Format {
  import opened Decimal
  import opened JsStrings

  /** `plural(n, w)`: the count, a space, and the word, with an `s` unless
      the count is exactly one. */
  function Plural(n: int, w: string): (r: string)
    ensures ParseInt(r) == Int(n)
    ensures n == 1 ==> r == "1 " + w
    ensures n != 1 ==> |r| > |w| && r[|r| - |w| - 1..] == w + "s"
  {
    var suffix := " " + (w + if n != 1 then "s" else "");
    ParseIntOfDecimalPrefix(n, suffix);
    if n != 1 then
      TailAfter(IntToString(n) + " ", w + "s");
      IntToString(n) + suffix
    else
      IntToString(n) + suffix
  }

  lemma TailAfter(a: string, b: string)
    ensures (a + b)[|a + b| - |b|..] == b
  {}

  /** `Math.round(n / d)` for a non-negative numerator: halves round up. */
  function RoundDiv(n: nat, d: nat): (q: nat)
    requires d > 0
    ensures q * d <= n + d / 2 < q * d + d
  {
    (n + d / 2) / d
  }

  /** `shortenCount(cnt)`: counts below 10000 as they are, then rounded
      thousands with a `k`, then rounded millions with an `m`. A NaN count
      fails both comparisons and becomes `Math.round(NaN) + 'm'`. */
  function ShortenCount(c: Num): string
  {
    match c
    case NaN => "NaNm"
    case Int(n) =>
      if n < 10000 then IntToString(n)
      else if n < 1000000 then IntToString(RoundDiv(n, 1000)) + "k"
      else IntToString(RoundDiv(n, 1000000)) + "m"
  }

  /** A count below 10000 is shown in full and reads back as itself. */
  lemma ShortenSmall(n: int)
    requires n < 10000
    ensures ParseInt(ShortenCount(Int(n))) == Int(n)
    ensures !IsNaNString(ShortenCount(Int(n)))
  {
    ParseIntOfDecimal(n);
    DecimalIsNumeric(n);
  }

  /** A count from 10000 below a million is shown as the nearest number of
      thousands, `k` thousands, with `10 <= k <= 1000`. */
  lemma ShortenThousands(n: int)
    requires 10000 <= n < 1000000
    ensures var k := RoundDiv(n, 1000);
      && ShortenCount(Int(n)) == NatToString(k) + "k"
      && 1000 * k - 500 <= n < 1000 * k + 500
      && 10 <= k <= 1000
      && ParseInt(ShortenCount(Int(n))) == Int(k)
      && IsNaNString(ShortenCount(Int(n)))
  {
    var k := RoundDiv(n, 1000);
    assert 1000 * k - 500 <= n < 1000 * k + 500;
    assert 10 <= k <= 1000;
    assert ShortenCount(Int(n)) == NatToString(k) + "k";
    ParseIntOfNatPrefix(k, "k");
    SuffixedIsNaN(k, 'k');
  }

  /** A count of a million or more is shown as the nearest number of millions. */
  lemma ShortenMillions(n: int)
    requires n >= 1000000
    ensures var k := RoundDiv(n, 1000000);
      && ShortenCount(Int(n)) == NatToString(k) + "m"
      && 1000000 * k - 500000 <= n < 1000000 * k + 500000
      && k >= 1
      && ParseInt(ShortenCount(Int(n))) == Int(k)
      && IsNaNString(ShortenCount(Int(n)))
  {
    var k := RoundDiv(n, 1000000);
    assert 1000000 * k - 500000 <= n < 1000000 * k + 500000;
    assert ShortenCount(Int(n)) == NatToString(k) + "m";
    ParseIntOfNatPrefix(k, "m");
    SuffixedIsNaN(k, 'm');
  }

  lemma NaNTextIsNaN()
    ensures IsNaNString("NaNm")
  {
    var t := "NaNm";
    assert t[0] == 'N' && t[3] == 'm';
    BadStartIsNaN(t);
  }

  /** The badge text of a count is numeric for `isNaN` exactly when it is
      shown in full, that is below 10000. */
  lemma {:induction false} ShortenedIffNaN(c: Num)
    ensures IsNaNString(ShortenCount(c)) <==> (c.NaN? || c.i >= 10000)
  {
    match c
    case NaN =>
      NaNTextIsNaN();
    case Int(n) =>
      if n < 10000 {
        ShortenSmall(n);
      } else if n < 1000000 {
        ShortenThousands(n);
      } else {
        ShortenMillions(n);
      }
  }
}
