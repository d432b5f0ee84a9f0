/** Badge colours: the `#RRGGBB` codes the settings accept, their channels as
    `parseInt(pair, 16)` reads them, and the `yiq` brightness that decides
    whether the white badge number stays readable on them. */
module Color {
  import opened Decimal
  import opened JsStrings

  function HexValue(c: char): (v: nat)
    requires IsHexDigit(c)
    ensures v < 16
  {
    if IsDigit(c) then DigitValue(c)
    else if 'a' <= c <= 'f' then c as int - 'a' as int + 10
    else c as int - 'A' as int + 10
  }

  /** The lower-case hexadecimal digit of `v`. */
  function HexChar(v: nat): (c: char)
    requires v < 16
    ensures IsHexDigit(c) && HexValue(c) == v
  {
    if v < 10 then DigitChar(v) else ('a' as int + (v - 10)) as char
  }

  /** The test `/^#[a-f\d]{6}$/i`: a hash and six hexadecimal digits of either case. */
  predicate IsColorCode(s: string) {
    |s| == 7 && s[0] == '#' && AllHex(s[1..])
  }

  datatype Rgb = Rgb(r: nat, g: nat, b: nat)

  predicate IsChannel(v: nat) { v < 256 }

  /** `parseInt` in base 16 of the two digits at `s[i]` and `s[i + 1]`. */
  function HexPair(s: string, i: nat): (v: nat)
    requires i + 1 < |s| && IsHexDigit(s[i]) && IsHexDigit(s[i + 1])
    ensures IsChannel(v)
  {
    HexValue(s[i]) * 16 + HexValue(s[i + 1])
  }

  /** The channels of a colour code, read two digits at a time after the hash. */
  function Channels(s: string): (c: Rgb)
    requires IsColorCode(s)
    ensures IsChannel(c.r) && IsChannel(c.g) && IsChannel(c.b)
  {
    assert s[1] == s[1..][0] && s[2] == s[1..][1] && s[3] == s[1..][2];
    assert s[4] == s[1..][3] && s[5] == s[1..][4] && s[6] == s[1..][5];
    Rgb(HexPair(s, 1), HexPair(s, 3), HexPair(s, 5))
  }

  function HexByte(v: nat): (t: string)
    requires IsChannel(v)
    ensures |t| == 2 && IsHexDigit(t[0]) && IsHexDigit(t[1])
    ensures HexValue(t[0]) * 16 + HexValue(t[1]) == v
  {
    [HexChar(v / 16), HexChar(v % 16)]
  }

  /** The lower-case `#rrggbb` code of three channels. */
  function ColorCode(c: Rgb): (s: string)
    requires IsChannel(c.r) && IsChannel(c.g) && IsChannel(c.b)
    ensures |s| == 7 && s[0] == '#'
  {
    "#" + HexByte(c.r) + HexByte(c.g) + HexByte(c.b)
  }

  /** Writing three channels as a colour code and reading the code back
      gives the same channels: every colour has a code the settings accept. */
  lemma ColorCodeRoundTrip(c: Rgb)
    requires IsChannel(c.r) && IsChannel(c.g) && IsChannel(c.b)
    ensures IsColorCode(ColorCode(c))
    ensures Channels(ColorCode(c)) == c
  {
    var s := ColorCode(c);
    var x, y, z := HexByte(c.r), HexByte(c.g), HexByte(c.b);
    assert s[1] == x[0] && s[2] == x[1];
    assert s[3] == y[0] && s[4] == y[1];
    assert s[5] == z[0] && s[6] == z[1];
    assert forall i :: 1 <= i < 7 ==> IsHexDigit(s[i]);
    assert forall i :: 0 <= i < 6 ==> s[1..][i] == s[i + 1];
  }

  /** `yiq(r, g, b)`: the perceived brightness of a colour. */
  function Yiq(r: int, g: int, b: int): real {
    ((r * 299) + (g * 587) + (b * 114)) as real / 1000.0
  }

  /** For channels in 0..255 the brightness lies in 0..255. */
  lemma YiqRange(c: Rgb)
    requires IsChannel(c.r) && IsChannel(c.g) && IsChannel(c.b)
    ensures 0.0 <= Yiq(c.r, c.g, c.b) <= 255.0
  {
    assert (c.r * 299) + (c.g * 587) + (c.b * 114) <= 255 * 1000;
  }

  /** The test `yiq(...) > 180` decided on integers: the weighted sum exceeds 180000. */
  lemma YiqThreshold(r: int, g: int, b: int)
    ensures Yiq(r, g, b) > 180.0 <==> (r * 299) + (g * 587) + (b * 114) > 180000
  {
  }

  /** A badge colour keeps the badge number readable unless its brightness exceeds 180. */
  predicate Readable(c: Rgb) {
    Yiq(c.r, c.g, c.b) <= 180.0
  }

  /** Black is readable, white is too bright, and so is any grey from `#b5b5b5` up. */
  lemma BlackAndWhite()
    ensures Readable(Rgb(0, 0, 0))
    ensures !Readable(Rgb(255, 255, 255))
    ensures Readable(Rgb(180, 180, 180)) && !Readable(Rgb(181, 181, 181))
  {
  }
}
