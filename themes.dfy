/**
 * The preset themes and `createCustomTheme`.
 */
module Themes {
  import opened JsBuiltins
  import opened ChartTypes

  const PURPLE_THEME_LIGHT := ChartTheme(
    "#8B5CF6", "#A78BFA", "#7C3AED", "#FFFFFF", "#FFFFFF",
    "#1A1A1A", "#666666", "#888888", "rgba(139, 92, 246, 0.15)", "#8B5CF6",
    [Css("#E9D5FF"), Css("#C4B5FD"), Css("#A78BFA"), Css("#8B5CF6"), Css("#7C3AED")],
    false, Some(10.0), Some(0.9))

  const PURPLE_THEME_DARK := ChartTheme(
    "#8B5CF6", "#A78BFA", "#7C3AED", "#0A0A0A", "#1A1A1A",
    "#FFFFFF", "#AAAAAA", "#888888", "rgba(139, 92, 246, 0.3)", "#8B5CF6",
    [Css("rgba(139, 92, 246, 0.12)"), Css("#C4B5FD"), Css("#A78BFA"), Css("#8B5CF6"), Css("#7C3AED")],
    true, Some(10.0), Some(0.9))

  const BLUE_THEME_LIGHT := ChartTheme(
    "#3B82F6", "#60A5FA", "#2563EB", "#FFFFFF", "#FFFFFF",
    "#1A1A1A", "#666666", "#888888", "rgba(59, 130, 246, 0.15)", "#3B82F6",
    [Css("#DBEAFE"), Css("#BFDBFE"), Css("#93C5FD"), Css("#60A5FA"), Css("#3B82F6")],
    false, Some(10.0), Some(0.9))

  const BLUE_THEME_DARK := ChartTheme(
    "#3B82F6", "#60A5FA", "#2563EB", "#0A0A0A", "#1A1A1A",
    "#FFFFFF", "#AAAAAA", "#888888", "rgba(59, 130, 246, 0.3)", "#3B82F6",
    [Css("rgba(59, 130, 246, 0.12)"), Css("#BFDBFE"), Css("#93C5FD"), Css("#60A5FA"), Css("#3B82F6")],
    true, Some(10.0), Some(0.9))

  const GREEN_THEME_LIGHT := ChartTheme(
    "#10B981", "#34D399", "#059669", "#FFFFFF", "#FFFFFF",
    "#1A1A1A", "#666666", "#888888", "rgba(16, 185, 129, 0.15)", "#10B981",
    [Css("#D1FAE5"), Css("#A7F3D0"), Css("#6EE7B7"), Css("#34D399"), Css("#10B981")],
    false, Some(10.0), Some(0.9))

  const GREEN_THEME_DARK := ChartTheme(
    "#10B981", "#34D399", "#059669", "#0A0A0A", "#1A1A1A",
    "#FFFFFF", "#AAAAAA", "#888888", "rgba(16, 185, 129, 0.3)", "#10B981",
    [Css("rgba(16, 185, 129, 0.12)"), Css("#A7F3D0"), Css("#6EE7B7"), Css("#34D399"), Css("#10B981")],
    true, Some(10.0), Some(0.9))

  const CORAL_THEME_LIGHT := ChartTheme(
    "#EF4444", "#F87171", "#DC2626", "#FFFFFF", "#FFFFFF",
    "#1A1A1A", "#666666", "#888888", "rgba(239, 68, 68, 0.15)", "#EF4444",
    [Css("#FEE2E2"), Css("#FECACA"), Css("#FCA5A5"), Css("#F87171"), Css("#EF4444")],
    false, Some(10.0), Some(0.9))

  const CORAL_THEME_DARK := ChartTheme(
    "#EF4444", "#F87171", "#DC2626", "#0A0A0A", "#1A1A1A",
    "#FFFFFF", "#AAAAAA", "#888888", "rgba(239, 68, 68, 0.3)", "#EF4444",
    [Css("rgba(239, 68, 68, 0.12)"), Css("#FECACA"), Css("#FCA5A5"), Css("#F87171"), Css("#EF4444")],
    true, Some(10.0), Some(0.9))

  const ORANGE_THEME_LIGHT := ChartTheme(
    "#F59E0B", "#FBBF24", "#D97706", "#FFFFFF", "#FFFFFF",
    "#1A1A1A", "#666666", "#888888", "rgba(245, 158, 11, 0.15)", "#F59E0B",
    [Css("#FEF3C7"), Css("#FDE68A"), Css("#FCD34D"), Css("#FBBF24"), Css("#F59E0B")],
    false, Some(10.0), Some(0.9))

  const ORANGE_THEME_DARK := ChartTheme(
    "#F59E0B", "#FBBF24", "#D97706", "#0A0A0A", "#1A1A1A",
    "#FFFFFF", "#AAAAAA", "#888888", "rgba(245, 158, 11, 0.3)", "#F59E0B",
    [Css("rgba(245, 158, 11, 0.12)"), Css("#FDE68A"), Css("#FCD34D"), Css("#FBBF24"), Css("#F59E0B")],
    true, Some(10.0), Some(0.9))

  /** The preset map, keyed by `<colour>_<mode>`. */
  const THEMES: map<string, ChartTheme> := map[
    "purple_light" := PURPLE_THEME_LIGHT, "purple_dark" := PURPLE_THEME_DARK,
    "blue_light" := BLUE_THEME_LIGHT, "blue_dark" := BLUE_THEME_DARK,
    "green_light" := GREEN_THEME_LIGHT, "green_dark" := GREEN_THEME_DARK,
    "coral_light" := CORAL_THEME_LIGHT, "coral_dark" := CORAL_THEME_DARK,
    "orange_light" := ORANGE_THEME_LIGHT, "orange_dark" := ORANGE_THEME_DARK]

  predicate EndsWith(s: string, suffix: string)
  {
    |suffix| <= |s| && s[|s| - |suffix|..] == suffix
  }

  /** The suffixes appended to the base colour for the four lower intensity steps. */
  const ALPHA_SUFFIXES: seq<string> := ["20", "40", "60", "80"]

  /**
   * `createCustomTheme(baseColor, darkMode = false)`: the base colour as primary,
   * secondary, accent and shadow colour, a scale of the base colour with the
   * suffixes 20/40/60/80 then the base colour itself, and every other field
   * taken from the default theme of the mode (the purple border included).
   * An omitted `darkMode` (None) is the light mode.
   */
  function CreateCustomTheme(baseColor: string, darkMode: Option<bool>): (t: ChartTheme)
    ensures t.primaryColor == baseColor && t.secondaryColor == baseColor
    ensures t.accentColor == baseColor && t.shadowColor == baseColor
    ensures |t.intensityColors| == 5 && t.intensityColors[4] == Css(baseColor)
    ensures forall i :: 0 <= i < 4 ==> t.intensityColors[i] == Css(baseColor + ALPHA_SUFFIXES[i])
    ensures t.darkMode == (darkMode == Some(true))
    ensures var d := BaseTheme(t.darkMode);
            t.backgroundColor == d.backgroundColor && t.cardBackgroundColor == d.cardBackgroundColor &&
            t.textColor == d.textColor && t.secondaryTextColor == d.secondaryTextColor &&
            t.labelColor == d.labelColor && t.borderColor == d.borderColor &&
            t.glassBlurIntensity == d.glassBlurIntensity && t.glassOpacity == d.glassOpacity
  {
    var darkMode := Pick(darkMode, false);
    ChartTheme(
      baseColor, baseColor, baseColor,
      if darkMode then "#0A0A0A" else "#FFFFFF",
      if darkMode then "#1A1A1A" else "#FFFFFF",
      if darkMode then "#FFFFFF" else "#1A1A1A",
      if darkMode then "#AAAAAA" else "#666666",
      "#888888",
      if darkMode then "rgba(139, 92, 246, 0.3)" else "rgba(139, 92, 246, 0.15)",
      baseColor,
      [Css(baseColor + "20"), Css(baseColor + "40"), Css(baseColor + "60"), Css(baseColor + "80"), Css(baseColor)],
      darkMode, Some(10.0), Some(0.9))
  }

  /** Two custom themes of the same mode differ only in the fields the base colour fills. */
  lemma CustomThemesShareMode(c1: string, c2: string, darkMode: Option<bool>)
    ensures var t1 := CreateCustomTheme(c1, darkMode);
            var t2 := CreateCustomTheme(c2, darkMode);
            t1.(primaryColor := "", secondaryColor := "", accentColor := "", shadowColor := "", intensityColors := [])
            == t2.(primaryColor := "", secondaryColor := "", accentColor := "", shadowColor := "", intensityColors := [])
  {
  }

  /** The ten presets: five colours, each in a light and a dark variant. */
  lemma PresetKeys()
    ensures THEMES.Keys == {"purple_light", "purple_dark", "blue_light", "blue_dark", "green_light",
                            "green_dark", "coral_light", "coral_dark", "orange_light", "orange_dark"}
  {
  }

  /** Every preset's mode matches its key: `_dark` presets are dark, `_light` presets are light. */
  lemma PresetModesMatchNames()
    ensures forall name :: name in THEMES && EndsWith(name, "_dark") ==> THEMES[name].darkMode
    ensures forall name :: name in THEMES && EndsWith(name, "_light") ==> !THEMES[name].darkMode
  {
    forall name | name in THEMES
      ensures EndsWith(name, "_dark") ==> THEMES[name].darkMode
      ensures EndsWith(name, "_light") ==> !THEMES[name].darkMode
    {
      var n := |name|;
      if THEMES[name].darkMode {
        assert name[n - 5..] == "_dark";
      } else {
        assert name[n - 6..] == "_light";
      }
    }
  }

  /** Every preset has a five-step intensity scale. */
  lemma PresetScales()
    ensures forall name :: name in THEMES ==> HasFiveIntensityColors(THEMES[name])
  {
  }

  /** The purple presets are the library's default themes. */
  lemma PurpleIsDefault()
    ensures PURPLE_THEME_LIGHT == DEFAULT_LIGHT_THEME && PURPLE_THEME_DARK == DEFAULT_DARK_THEME
  {
  }
}
