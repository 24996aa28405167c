/**
 * `useStreakColors`: the colour of a streak square from the raw number of
 * pages read that day. Unlike the heatmap's intensity buckets, the upper
 * bounds here are exclusive and apply to counts, not to a 0-1 intensity.
 */
module StreakColors {
  import opened JsBuiltins
  import opened ChartTypes
  import opened Common

  /** The neutral colour of a day with nothing read. */
  const LIGHT_EMPTY: Color := Css("#EBEDF0")
  const DARK_EMPTY: Color := Css("rgba(60, 60, 60, 0.8)")

  /**
   * The step of the scale a count falls in: exactly 0 is step 0, then
   * below 5, below 15, below 25, and the rest. A negative count is not 0 and
   * is below 5, so it lands in step 1.
   */
  function StreakBucket(value: int): (b: nat)
    ensures b <= 4
    ensures b == 0 <==> value == 0
  {
    if value == 0 then 0
    else if value < 5 then 1
    else if value < 15 then 2
    else if value < 25 then 3
    else 4
  }

  /** The five colours of the scale, from no pages to many. */
  function StreakScale(primaryColor: string, darkMode: bool): (s: seq<Color>)
    ensures |s| == 5
    ensures s[0] == (if darkMode then DARK_EMPTY else LIGHT_EMPTY)
    ensures forall i :: 1 <= i < 4 ==> s[i] == HexToRgba(primaryColor, (if darkMode then [0.3, 0.5, 0.7] else [0.2, 0.4, 0.6])[i - 1])
    ensures s[4] == (if darkMode then HexToRgba(primaryColor, 1.0) else Css(primaryColor))
  {
    if darkMode then
      [DARK_EMPTY, HexToRgba(primaryColor, 0.3), HexToRgba(primaryColor, 0.5), HexToRgba(primaryColor, 0.7),
       HexToRgba(primaryColor, 1.0)]
    else
      [LIGHT_EMPTY, HexToRgba(primaryColor, 0.2), HexToRgba(primaryColor, 0.4), HexToRgba(primaryColor, 0.6),
       Css(primaryColor)]
  }

  /** `getColor(value)`: the scale colour of the count's step. */
  function StreakColor(primaryColor: string, darkMode: bool, value: int): (c: Color)
    ensures c == StreakScale(primaryColor, darkMode)[StreakBucket(value)]
  {
    if darkMode then
      if value == 0 then DARK_EMPTY
      else if value < 5 then HexToRgba(primaryColor, 0.3)
      else if value < 15 then HexToRgba(primaryColor, 0.5)
      else if value < 25 then HexToRgba(primaryColor, 0.7)
      else HexToRgba(primaryColor, 1.0)
    else
      if value == 0 then LIGHT_EMPTY
      else if value < 5 then HexToRgba(primaryColor, 0.2)
      else if value < 15 then HexToRgba(primaryColor, 0.4)
      else if value < 25 then HexToRgba(primaryColor, 0.6)
      else Css(primaryColor)
  }

  /** The boundaries are exclusive: 4 and 5, 14 and 15, 24 and 25 fall in consecutive steps. */
  lemma StreakBucketBoundaries()
    ensures StreakBucket(4) == 1 && StreakBucket(5) == 2
    ensures StreakBucket(14) == 2 && StreakBucket(15) == 3
    ensures StreakBucket(24) == 3 && StreakBucket(25) == 4
  {
  }

  /** Each non-zero step b covers the counts in [lower, upper) of the table [1, 5, 15, 25, infinity). */
  lemma StreakBucketRanges(v: int)
    requires v > 0
    ensures var lower := [1, 5, 15, 25][StreakBucket(v) - 1];
            lower <= v && (StreakBucket(v) < 4 ==> v < [5, 15, 25][StreakBucket(v) - 1])
  {
  }

  /** Negative counts fall in step 1; on counts >= 0 the step never decreases. */
  lemma StreakBucketMonotonic(x: int, y: int)
    ensures x < 0 ==> StreakBucket(x) == 1
    ensures 0 <= x <= y ==> StreakBucket(x) <= StreakBucket(y)
  {
  }

  /** A day with nothing read has the neutral colour whatever the primary colour. */
  lemma ZeroIsNeutral(p1: string, p2: string, darkMode: bool)
    ensures StreakColor(p1, darkMode, 0) == StreakColor(p2, darkMode, 0)
  {
  }
}
