/**
 * `useHeatmapTheme`: the heatmap's theme is the default theme for the mode,
 * overridden field by field by the caller's partial theme; a custom primary
 * colour different from the default one also replaces the intensity scale by
 * one generated from it.
 */
module HeatmapTheme {
  import opened JsBuiltins
  import opened ChartTypes
  import opened Common

  /**
   * `customTheme?.primaryColor && customTheme.primaryColor !== baseTheme.primaryColor`:
   * a present, non-empty (truthy) primary colour that differs, as a string, from the base one.
   */
  predicate RegeneratesScale(custom: PartialTheme, darkMode: bool)
  {
    custom.primaryColor.Some? && custom.primaryColor.value != "" &&
    custom.primaryColor.value != BaseTheme(darkMode).primaryColor
  }

  /**
   * The hook's theme. An absent `customTheme` is `NO_OVERRIDES`. The scale is
   * generated for the hook's own `darkMode`, even when the overrides also set
   * a `darkMode` field.
   */
  function UseHeatmapTheme(custom: PartialTheme, darkMode: bool): (t: ChartTheme)
    ensures t.(intensityColors := []) == MergeTheme(BaseTheme(darkMode), custom).(intensityColors := [])
    ensures RegeneratesScale(custom, darkMode) ==>
              t.intensityColors == GenerateIntensityColors(custom.primaryColor.value, darkMode)
    ensures !RegeneratesScale(custom, darkMode) ==>
              t.intensityColors == (if custom.intensityColors.Some? then custom.intensityColors.value
                                    else BaseTheme(darkMode).intensityColors)
  {
    var baseTheme := BaseTheme(darkMode);
    var mergedTheme := MergeTheme(baseTheme, custom);
    if RegeneratesScale(custom, darkMode) then
      mergedTheme.(intensityColors := GenerateIntensityColors(custom.primaryColor.value, darkMode))
    else
      mergedTheme
  }

  /** Without overrides the hook returns the default theme of the mode. */
  lemma NoOverridesGiveDefault(darkMode: bool)
    ensures UseHeatmapTheme(NO_OVERRIDES, darkMode) == (if darkMode then DEFAULT_DARK_THEME else DEFAULT_LIGHT_THEME)
  {
  }

  /**
   * A generated scale wins over a scale the caller passed too; a primary colour
   * equal to the default one (or empty) keeps the caller's or the default scale.
   */
  lemma ScaleSource(custom: PartialTheme, darkMode: bool)
    requires custom.intensityColors.Some?
    ensures custom.primaryColor.Some? && custom.primaryColor.value != "" &&
            custom.primaryColor.value != BaseTheme(darkMode).primaryColor ==>
              UseHeatmapTheme(custom, darkMode).intensityColors != custom.intensityColors.value ||
              custom.intensityColors.value == GenerateIntensityColors(custom.primaryColor.value, darkMode)
    ensures custom.primaryColor == Some(BaseTheme(darkMode).primaryColor) ==>
              UseHeatmapTheme(custom, darkMode).intensityColors == custom.intensityColors.value
  {
  }

  /**
   * The comparison is exact: the default purple spelled in lower case counts
   * as a different colour, so the scale is regenerated.
   */
  lemma LowerCaseDefaultRegenerates(darkMode: bool)
    ensures var custom := NO_OVERRIDES.(primaryColor := Some("#8b5cf6"));
            UseHeatmapTheme(custom, darkMode).intensityColors == GenerateIntensityColors("#8b5cf6", darkMode)
  {
    assert "#8b5cf6" != "#8B5CF6" by {
      assert "#8b5cf6"[2] != "#8B5CF6"[2];
    }
  }

  /** Unless the caller passes a scale of another length, the theme's scale has five colours. */
  lemma ThemeHasFiveColors(custom: PartialTheme, darkMode: bool)
    requires custom.intensityColors.Some? ==> |custom.intensityColors.value| == 5
    ensures HasFiveIntensityColors(UseHeatmapTheme(custom, darkMode))
  {
  }
}
