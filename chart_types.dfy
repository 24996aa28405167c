/**
 * The library's shared records: a colour, one day of activity (`HeatmapDay`),
 * the chart theme (`ChartTheme`) with its optional-field form used for
 * overrides, and the two default themes.
 */
module ChartTypes {
  import opened JsBuiltins

  /**
   * A colour as the components pass it around: either a CSS string taken
   * verbatim (a `#RRGGBB` literal, a theme entry, 'transparent'), or the
   * `rgba(r, g, b, alpha)` that `hexToRgba` builds, kept as its parts with an
   * exact alpha. A channel is whatever `parseInt` made of two characters.
   */
  datatype Color =
    | Css(text: string)
    | Rgba(r: ParsedInt, g: ParsedInt, b: ParsedInt, alpha: real)

  /** The chart period offered by the period dropdowns. */
  datatype Period = Weekly | Monthly

  /**
   * One calendar day of activity. `date` is a day number (see Calendar); it
   * stands for both the `date` object and the `dateStr` key of the record,
   * which the library always builds from the same day. `dayOfWeek` is kept as
   * given: the layout trusts it and never recomputes it from `date`.
   */
  datatype HeatmapDay = HeatmapDay(
    date: int,
    intensity: real,
    value: int,
    dayOfWeek: int,
    isToday: bool,
    isSelected: Option<bool>)

  /** The theme every chart component reads its colours from. */
  datatype ChartTheme = ChartTheme(
    primaryColor: string,
    secondaryColor: string,
    accentColor: string,
    backgroundColor: string,
    cardBackgroundColor: string,
    textColor: string,
    secondaryTextColor: string,
    labelColor: string,
    borderColor: string,
    shadowColor: string,
    intensityColors: seq<Color>,
    darkMode: bool,
    glassBlurIntensity: Option<real>,
    glassOpacity: Option<real>)

  /** `Partial<ChartTheme>`: every field may be absent (None). */
  datatype PartialTheme = PartialTheme(
    primaryColor: Option<string>,
    secondaryColor: Option<string>,
    accentColor: Option<string>,
    backgroundColor: Option<string>,
    cardBackgroundColor: Option<string>,
    textColor: Option<string>,
    secondaryTextColor: Option<string>,
    labelColor: Option<string>,
    borderColor: Option<string>,
    shadowColor: Option<string>,
    intensityColors: Option<seq<Color>>,
    darkMode: Option<bool>,
    glassBlurIntensity: Option<real>,
    glassOpacity: Option<real>)

  /** A theme override that overrides nothing (also what an absent `theme` prop amounts to). */
  const NO_OVERRIDES := PartialTheme(None, None, None, None, None, None, None, None, None, None,
                                     None, None, None, None)

  /** The intensity scale of a theme is a 5-tuple. */
  predicate HasFiveIntensityColors(t: ChartTheme)
  {
    |t.intensityColors| == 5
  }

  const DEFAULT_LIGHT_THEME := ChartTheme(
    "#8B5CF6", "#A78BFA", "#7C3AED", "#FFFFFF", "#FFFFFF",
    "#1A1A1A", "#666666", "#888888", "rgba(139, 92, 246, 0.15)", "#8B5CF6",
    [Css("#E9D5FF"), Css("#C4B5FD"), Css("#A78BFA"), Css("#8B5CF6"), Css("#7C3AED")],
    false, Some(10.0), Some(0.9))

  const DEFAULT_DARK_THEME := ChartTheme(
    "#8B5CF6", "#A78BFA", "#7C3AED", "#0A0A0A", "#1A1A1A",
    "#FFFFFF", "#AAAAAA", "#888888", "rgba(139, 92, 246, 0.3)", "#8B5CF6",
    [Css("rgba(139, 92, 246, 0.12)"), Css("#C4B5FD"), Css("#A78BFA"), Css("#8B5CF6"), Css("#7C3AED")],
    true, Some(10.0), Some(0.9))

  /** `{ ...base, ...custom }`: each field present in `custom` replaces the base field. */
  function MergeTheme(base: ChartTheme, custom: PartialTheme): (t: ChartTheme)
    ensures custom == NO_OVERRIDES ==> t == base
  {
    ChartTheme(
      Pick(custom.primaryColor, base.primaryColor),
      Pick(custom.secondaryColor, base.secondaryColor),
      Pick(custom.accentColor, base.accentColor),
      Pick(custom.backgroundColor, base.backgroundColor),
      Pick(custom.cardBackgroundColor, base.cardBackgroundColor),
      Pick(custom.textColor, base.textColor),
      Pick(custom.secondaryTextColor, base.secondaryTextColor),
      Pick(custom.labelColor, base.labelColor),
      Pick(custom.borderColor, base.borderColor),
      Pick(custom.shadowColor, base.shadowColor),
      Pick(custom.intensityColors, base.intensityColors),
      Pick(custom.darkMode, base.darkMode),
      if custom.glassBlurIntensity.Some? then custom.glassBlurIntensity else base.glassBlurIntensity,
      if custom.glassOpacity.Some? then custom.glassOpacity else base.glassOpacity)
  }

  /** The override when present, the base value otherwise. */
  function Pick<T>(o: Option<T>, base: T): T
  {
    if o.Some? then o.value else base
  }

  /** Every field of `t` given as an override. */
  function AsOverrides(t: ChartTheme): PartialTheme
  {
    PartialTheme(Some(t.primaryColor), Some(t.secondaryColor), Some(t.accentColor),
                 Some(t.backgroundColor), Some(t.cardBackgroundColor), Some(t.textColor),
                 Some(t.secondaryTextColor), Some(t.labelColor), Some(t.borderColor),
                 Some(t.shadowColor), Some(t.intensityColors), Some(t.darkMode),
                 t.glassBlurIntensity, t.glassOpacity)
  }

  /** `{ ...a, ...b }` on two partial themes: b's present fields win. */
  function CombineOverrides(a: PartialTheme, b: PartialTheme): PartialTheme
  {
    PartialTheme(
      if b.primaryColor.Some? then b.primaryColor else a.primaryColor,
      if b.secondaryColor.Some? then b.secondaryColor else a.secondaryColor,
      if b.accentColor.Some? then b.accentColor else a.accentColor,
      if b.backgroundColor.Some? then b.backgroundColor else a.backgroundColor,
      if b.cardBackgroundColor.Some? then b.cardBackgroundColor else a.cardBackgroundColor,
      if b.textColor.Some? then b.textColor else a.textColor,
      if b.secondaryTextColor.Some? then b.secondaryTextColor else a.secondaryTextColor,
      if b.labelColor.Some? then b.labelColor else a.labelColor,
      if b.borderColor.Some? then b.borderColor else a.borderColor,
      if b.shadowColor.Some? then b.shadowColor else a.shadowColor,
      if b.intensityColors.Some? then b.intensityColors else a.intensityColors,
      if b.darkMode.Some? then b.darkMode else a.darkMode,
      if b.glassBlurIntensity.Some? then b.glassBlurIntensity else a.glassBlurIntensity,
      if b.glassOpacity.Some? then b.glassOpacity else a.glassOpacity)
  }

  /**
   * Field by field: a field present in the overrides is taken from them, an
   * absent one is kept from the base (the glass fields are optional in both).
   */
  lemma MergeFieldwise(base: ChartTheme, custom: PartialTheme)
    ensures var t := MergeTheme(base, custom);
            (custom.primaryColor.Some? ==> t.primaryColor == custom.primaryColor.value)
            && (custom.primaryColor.None? ==> t.primaryColor == base.primaryColor)
            && (custom.secondaryColor.Some? ==> t.secondaryColor == custom.secondaryColor.value)
            && (custom.secondaryColor.None? ==> t.secondaryColor == base.secondaryColor)
            && (custom.accentColor.Some? ==> t.accentColor == custom.accentColor.value)
            && (custom.accentColor.None? ==> t.accentColor == base.accentColor)
            && (custom.backgroundColor.Some? ==> t.backgroundColor == custom.backgroundColor.value)
            && (custom.backgroundColor.None? ==> t.backgroundColor == base.backgroundColor)
            && (custom.cardBackgroundColor.Some? ==> t.cardBackgroundColor == custom.cardBackgroundColor.value)
            && (custom.cardBackgroundColor.None? ==> t.cardBackgroundColor == base.cardBackgroundColor)
            && (custom.textColor.Some? ==> t.textColor == custom.textColor.value)
            && (custom.textColor.None? ==> t.textColor == base.textColor)
            && (custom.secondaryTextColor.Some? ==> t.secondaryTextColor == custom.secondaryTextColor.value)
            && (custom.secondaryTextColor.None? ==> t.secondaryTextColor == base.secondaryTextColor)
            && (custom.labelColor.Some? ==> t.labelColor == custom.labelColor.value)
            && (custom.labelColor.None? ==> t.labelColor == base.labelColor)
            && (custom.borderColor.Some? ==> t.borderColor == custom.borderColor.value)
            && (custom.borderColor.None? ==> t.borderColor == base.borderColor)
            && (custom.shadowColor.Some? ==> t.shadowColor == custom.shadowColor.value)
            && (custom.shadowColor.None? ==> t.shadowColor == base.shadowColor)
            && (custom.intensityColors.Some? ==> t.intensityColors == custom.intensityColors.value)
            && (custom.intensityColors.None? ==> t.intensityColors == base.intensityColors)
            && (custom.darkMode.Some? ==> t.darkMode == custom.darkMode.value)
            && (custom.darkMode.None? ==> t.darkMode == base.darkMode)
            && (custom.glassBlurIntensity.Some? ==> t.glassBlurIntensity == custom.glassBlurIntensity)
            && (custom.glassBlurIntensity.None? ==> t.glassBlurIntensity == base.glassBlurIntensity)
            && (custom.glassOpacity.Some? ==> t.glassOpacity == custom.glassOpacity)
            && (custom.glassOpacity.None? ==> t.glassOpacity == base.glassOpacity)
  {
  }

  /** Overriding every field of the base yields the override itself. */
  lemma MergeAllFields(base: ChartTheme, t: ChartTheme)
    requires t.glassBlurIntensity.Some? && t.glassOpacity.Some?
    ensures MergeTheme(base, AsOverrides(t)) == t
  {
  }

  /** Merging the same overrides twice is merging them once. */
  lemma MergeIdempotent(base: ChartTheme, a: PartialTheme)
    ensures MergeTheme(MergeTheme(base, a), a) == MergeTheme(base, a)
  {
  }

  /** Two merges in a row are one merge with the combined overrides, the later ones winning. */
  lemma MergeComposes(base: ChartTheme, a: PartialTheme, b: PartialTheme)
    ensures MergeTheme(MergeTheme(base, a), b) == MergeTheme(base, CombineOverrides(a, b))
  {
  }

  /** The theme a component starts from: `darkMode ? DEFAULT_DARK_THEME : DEFAULT_LIGHT_THEME`. */
  function BaseTheme(darkMode: bool): (t: ChartTheme)
    ensures t.darkMode == darkMode
    ensures HasFiveIntensityColors(t)
  {
    if darkMode then DEFAULT_DARK_THEME else DEFAULT_LIGHT_THEME
  }
}
