/**
 * Colour utilities shared by the components: `hexToRgba`,
 * `generateIntensityColors` and `getIntensityColor`.
 */
module Common {
  import opened JsBuiltins
  import opened ChartTypes

  /** A `#RRGGBB` colour: '#' and six hexadecimal digits; anything may follow. */
  predicate IsHexColor(hex: string)
  {
    |hex| >= 7 && hex[0] == '#' && forall i :: 1 <= i < 7 ==> IsHexDigit(hex[i])
  }

  /** The byte spelled by two hexadecimal digits. */
  function HexByte(hi: char, lo: char): (v: int)
    requires IsHexDigit(hi) && IsHexDigit(lo)
    ensures 0 <= v <= 255
  {
    16 * HexDigitValue(hi) + HexDigitValue(lo)
  }

  /**
   * `hexToRgba(hex, alpha)`: channels are `parseInt` of characters 1-2, 3-4 and
   * 5-6, in base 16. The string is never validated, so a malformed one yields
   * NaN or partial channels rather than an error.
   */
  function HexToRgba(hex: string, alpha: real): (c: Color)
    ensures c.Rgba? && c.alpha == alpha
    ensures (c.r, c.g, c.b) == HexChannels(hex)
  {
    var ch := HexChannels(hex);
    Rgba(ch.0, ch.1, ch.2, alpha)
  }

  /** The red, green and blue channels `hexToRgba` reads from `hex`, whatever the alpha. */
  function HexChannels(hex: string): (ParsedInt, ParsedInt, ParsedInt)
  {
    (ParseIntHex(Substring(hex, 1, 3)), ParseIntHex(Substring(hex, 3, 5)), ParseIntHex(Substring(hex, 5, 7)))
  }

  /** For a `#RRGGBB` string each channel is the byte its two digits spell. */
  lemma HexToRgbaOfHexColor(hex: string, alpha: real)
    requires IsHexColor(hex)
    ensures HexToRgba(hex, alpha) ==
            Rgba(Int(HexByte(hex[1], hex[2])), Int(HexByte(hex[3], hex[4])),
                 Int(HexByte(hex[5], hex[6])), alpha)
  {
    assert Substring(hex, 1, 3) == [hex[1], hex[2]];
    assert Substring(hex, 3, 5) == [hex[3], hex[4]];
    assert Substring(hex, 5, 7) == [hex[5], hex[6]];
    ParseIntHexPair(hex[1], hex[2]);
    ParseIntHexPair(hex[3], hex[4]);
    ParseIntHexPair(hex[5], hex[6]);
  }

  /** Characters after index 6 never reach a channel. */
  lemma HexToRgbaIgnoresSuffix(hex: string, rest: string, alpha: real)
    requires |hex| == 7
    ensures HexToRgba(hex + rest, alpha) == HexToRgba(hex, alpha)
  {
    assert Substring(hex + rest, 1, 3) == Substring(hex, 1, 3);
    assert Substring(hex + rest, 3, 5) == Substring(hex, 3, 5);
    assert Substring(hex + rest, 5, 7) == Substring(hex, 5, 7);
  }

  /** Alpha ladders of the generated scale: four steps in light mode, five in dark mode. */
  const LIGHT_ALPHAS: seq<real> := [0.2, 0.4, 0.6, 0.8]
  const DARK_ALPHAS: seq<real> := [0.12, 0.3, 0.5, 0.7, 0.9]

  /**
   * `generateIntensityColors(primaryColor, darkMode)`: five colours from the
   * lowest to the highest bucket. Light mode ends with the primary colour
   * string itself; dark mode ends with that colour at alpha 0.9.
   */
  function GenerateIntensityColors(primaryColor: string, darkMode: bool): (r: seq<Color>)
    ensures |r| == 5
    ensures !darkMode ==> r[4] == Css(primaryColor)
    ensures darkMode ==> r[4].Rgba? && r[4].alpha == 0.9
    ensures forall i :: 0 <= i < 4 ==> r[i].Rgba? && r[i].alpha == (if darkMode then DARK_ALPHAS else LIGHT_ALPHAS)[i]
    ensures forall i :: 0 <= i < 5 && r[i].Rgba? ==> (r[i].r, r[i].g, r[i].b) == HexChannels(primaryColor)
  {
    if darkMode then
      [HexToRgba(primaryColor, 0.12), HexToRgba(primaryColor, 0.3), HexToRgba(primaryColor, 0.5),
       HexToRgba(primaryColor, 0.7), HexToRgba(primaryColor, 0.9)]
    else
      [HexToRgba(primaryColor, 0.2), HexToRgba(primaryColor, 0.4), HexToRgba(primaryColor, 0.6),
       HexToRgba(primaryColor, 0.8), Css(primaryColor)]
  }

  /** The alphas of the rgba entries of a generated scale strictly increase. */
  lemma GeneratedAlphasIncrease(primaryColor: string, darkMode: bool, i: int, j: int)
    requires 0 <= i < j < 5
    requires GenerateIntensityColors(primaryColor, darkMode)[j].Rgba?
    ensures GenerateIntensityColors(primaryColor, darkMode)[i].Rgba?
    ensures GenerateIntensityColors(primaryColor, darkMode)[i].alpha < GenerateIntensityColors(primaryColor, darkMode)[j].alpha
  {
  }

  /**
   * The bucket `getIntensityColor` picks: exactly 0 is bucket 0, then the
   * right-closed ranges (0, 0.25], (0.25, 0.5], (0.5, 0.75] and the rest.
   * A negative intensity is not 0 and is <= 0.25, so it lands in bucket 1.
   */
  function IntensityBucket(intensity: real): (b: nat)
    ensures b <= 4
    ensures b == 0 <==> intensity == 0.0
  {
    if intensity == 0.0 then 0
    else if intensity <= 0.25 then 1
    else if intensity <= 0.5 then 2
    else if intensity <= 0.75 then 3
    else 4
  }

  /** Each non-zero bucket b is the right-closed range ((b-1)/4, b/4], the last one unbounded. */
  lemma IntensityBucketRanges(x: real)
    requires x > 0.0
    ensures IntensityBucket(x) >= 1
    ensures IntensityBucket(x) < 4 ==> x <= (IntensityBucket(x) as real) * 0.25
    ensures (IntensityBucket(x) as real - 1.0) * 0.25 < x
  {
  }

  /** Below zero the bucket is 1; above 0.75 (so also above 1) it is 4. */
  lemma IntensityBucketOutOfRange(x: real)
    ensures x < 0.0 ==> IntensityBucket(x) == 1
    ensures x > 0.75 ==> IntensityBucket(x) == 4
  {
  }

  /** On [0, infinity) a larger intensity never gets a smaller bucket. */
  lemma IntensityBucketMonotonic(x: real, y: real)
    requires 0.0 <= x <= y
    ensures IntensityBucket(x) <= IntensityBucket(y)
  {
  }

  /** `getIntensityColor(intensity, intensityColors)`: the colour of the intensity's bucket. */
  function GetIntensityColor(intensity: real, intensityColors: seq<Color>): (c: Color)
    requires |intensityColors| == 5
    ensures c == intensityColors[IntensityBucket(intensity)]
  {
    if intensity == 0.0 then intensityColors[0]
    else if intensity <= 0.25 then intensityColors[1]
    else if intensity <= 0.5 then intensityColors[2]
    else if intensity <= 0.75 then intensityColors[3]
    else intensityColors[4]
  }
}
