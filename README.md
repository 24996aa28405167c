# Productivity charts: the logic under the charts

This project is a Dafny model of the deterministic logic inside a React Native
chart library. The library draws an activity heatmap, a reading-streak grid,
monthly, hourly and focus-time bar charts, and the theme those charts share.
The rendering is left out. Each module below covers one source file and proves
what that code promises.

| module | file | models |
|---|---|---|
| `JsBuiltins` | `js_builtins.dfy` | The JavaScript built-ins the code relies on: `slice(-k)`, clamped `slice(from, to)`, `Math.max(...xs, floor)`, the truncating `%`, integer `toString()` and `parseInt(s, 16)`. |
| `Calendar` | `calendar.dfy` | The proleptic Gregorian calendar used in place of `Date`. A day is an integer day number; round trips link it to (year, month, day). |
| `ChartTypes` | `chart_types.dfy` | `HeatmapDay`, `ChartTheme`, `Partial<ChartTheme>` and the two default themes. Also the `{ ...base, ...custom }` merge. |
| `Common` | `common.dfy` | `hexToRgba`, `generateIntensityColors` and `getIntensityColor`. |
| `HeatmapTheme` | `heatmap_theme.dfy` | `useHeatmapTheme`: the theme merge and the conditional regeneration of the intensity scale. |
| `HeatmapLayout` | `heatmap_layout.dfy` | `useHeatmapLayout`. A stable sort on a copy. Then an imperative fill of a flat `array` of cells, cut into weeks of seven. Both are proved equal to a declarative layout. |
| `HeatmapGrid` | `heatmap_grid.dfy` | `HeatmapGrid`: the mapping from display row to week slot, the row labels, and each cell's colour, border and press rules. |
| `HeatmapChart` | `heatmap_chart.dfy` | `HeatmapChart`: the period and dropdown state, kept as a class. Also the weekly/monthly filter and the layout it feeds. |
| `StreakColors` | `streak_colors.dfy` | `useStreakColors`: the raw-count colour classifier. |
| `StreakLegend` | `streak_legend.dfy` | The `LEGEND_VALUES` samples of `StreakLegend` and their colours. |
| `ReadingStreakGraph` | `streak_graph.dfy` | `ReadingStreakGraph`: the grid size, the default square size and the window of history shown. |
| `StreakGrid` | `streak_grid.dfy` | `StreakGrid`: the row-major index and what each square shows and reports. |
| `Themes` | `themes.dfy` | The `THEMES` presets and `createCustomTheme`. |
| `ChartHelpers` | `chart_helpers.dfy` | The helpers in `chartHelpers.ts`: heatmap data generation, month labels, productivity statistics, daily/weekly/monthly chart data, ISO week numbers, `formatDuration`, `calculateIntensity` and `groupByPeriod`. |
| `MonthlyChart` | `monthly_chart.dfy` | `MonthlyChart`: per-month sums and the displayed total. |
| `HourlyActivity` | `hourly_activity.dfy` | `HourlyActivityChart`: `formatHour`, hour buckets, interval sampling and the bars. |
| `FocusTimeSummary` | `focus_time.dfy` | `FocusTimeSummary`: `formatTime`, the bars, and the period and dropdown state, kept as a class. |

**How the model is built**
- Code that updates state step by step is modelled as methods with loops, proved against specification functions:
  - `generateHeatmapData`, `generateMonthLabels`, `calculateProductivityStats`;
  - the `Map` folds of the weekly, monthly and per-month aggregations;
  - the hour buckets;
  - the layout's array fill and week slicing.
- The component state (`period`, `showDropdown` and the callbacks reported) lives in classes whose methods modify it.
- Everything else is pure functions and lemmas.

**Representation choices**
- Dates are integer day numbers. "Today", the day a session ended and its local hour are parameters.
- Intensities and alphas are exact `real`s. Values and counts are integers.
- A colour is `Css(text)` or `Rgba(r, g, b, alpha)`. Each channel is what `parseInt` returns: an integer or NaN.
- A default parameter (`darkMode = false`, `daysToShow = 150`, `threshold = 8`, `showPeriodToggle = true`, `weeksToShow = 12`) is an `Option`. `None` stands for an omitted or `undefined` argument and takes the default.

**Notes on the source**
- The streak window pads a short history with zeros at the end, because `displayHistory[i] || 0` is applied after the slice. So with fewer days than squares, the newest squares are the empty ones. `ReadingStreakGraph.SelectWindow` models exactly this.

## Model

| member | source | states |
|---|---|---|
| JsBuiltins.SliceFromEnd | src/components/HeatmapChart/index.tsx:48 | `s.slice(-k)` is a suffix of `s` of length `min(k, n)` for k > 0. It is the whole of `s` for k = 0 (`-0` is `0`). For k < 0 it drops the first `-k` elements. |
| JsBuiltins.Substring | src/utils/common.ts:13-15 | `slice(from, to)` clamps both bounds to the length. Each character is the source's character at `from + i`. |
| JsBuiltins.MaxWithFloor | src/components/HourlyActivityChart/index.tsx:76 | `Math.max(...xs, floor)` is at least `floor` and at least every element. It equals `floor` or one of the elements. |
| JsBuiltins.JsRem | src/components/FocusTimeSummary/index.tsx:38 | JavaScript `%` with a positive divisor: the ordinary remainder for a non-negative dividend, and a value in (-b, 0] for a negative one. |
| JsBuiltins.NatToString | src/utils/chartHelpers.ts:142 | `toString()` of a natural number is non-empty, all digits, with no leading zero. |
| JsBuiltins.IntToString | src/utils/chartHelpers.ts:142 | `toString()` of an integer starts with '-' exactly when it is negative. |
| JsBuiltins.NatToStringRoundTrip | src/utils/chartHelpers.ts:142 | The digits of a natural number evaluate back to it. |
| JsBuiltins.IntToStringRoundTrip | src/utils/chartHelpers.ts:142 | Reading back `toString()` of any integer gives the integer, so distinct numbers get distinct labels. |
| JsBuiltins.ParseIntHex | src/utils/common.ts:13-15 | `parseInt(s, 16)` gives a number only when `s` holds a hexadecimal digit. When `s` starts with a digit and no "0x" prefix, the value is that of the leading digit run. |
| JsBuiltins.ParseIntHexSkipsSpace | src/utils/common.ts:13-15 | One leading white-space character is skipped, including any Unicode space separator such as U+3000. A single digit after it parses to its value. |
| JsBuiltins.ParseIntHexPair | src/utils/common.ts:13-15 | `parseInt` of two hexadecimal digits in base 16 is the byte they spell, in 0..255. |
| Calendar.DaysInMonth | src/utils/chartHelpers.ts:51 | A month has 28 to 31 days. |
| Calendar.DaysBeforeMonthStep | src/utils/chartHelpers.ts:51 | Month lengths add up month by month to the length of the year. |
| Calendar.YearStep | src/utils/chartHelpers.ts:51 | Consecutive years start one year-length apart, leap years included. |
| Calendar.CycleStart | src/utils/chartHelpers.ts:177 | 400 Gregorian years are exactly 146097 days. |
| Calendar.DaysBeforeYearMonotonic | src/utils/chartHelpers.ts:177 | Later years start later. |
| Calendar.FindYear | src/utils/chartHelpers.ts:177 | The search returns the year whose days contain `n`. |
| Calendar.YearOf | src/utils/chartHelpers.ts:177 | `getFullYear()`: day `n` lies between the start of its year and the start of the next. |
| Calendar.YearOfUnique | src/utils/chartHelpers.ts:177 | The year of a day is unique. |
| Calendar.FindMonth | src/utils/chartHelpers.ts:177 | The search returns the month whose days contain the day of the year. |
| Calendar.FromDayNumber | src/utils/chartHelpers.ts:177 | The civil date of a day number is a valid date and has that day number. |
| Calendar.DayNumberRoundTrip | src/utils/chartHelpers.ts:177 | Every valid (year, month, day) survives the trip through its day number. |
| Calendar.Weekday | src/utils/chartHelpers.ts:47 | `getDay()` lies in 0..6. |
| Calendar.WeekdayStep | src/utils/chartHelpers.ts:47 | The next day has the next weekday, wrapping from Saturday to Sunday. |
| Calendar.EpochIsThursday | src/utils/chartHelpers.ts:47 | 1970-01-01 is day 719528 and a Thursday, so the weekday numbering agrees with `getDay()`. |
| Calendar.FirstOfMonthStep | src/utils/chartHelpers.ts:78 | `setMonth(getMonth() + 1)` from the first of a month moves by that month's length, rolling into the next year after December. |
| Calendar.FirstOfMonthMonotonic | src/utils/chartHelpers.ts:78 | Later months start later. |
| Calendar.MonthBracket | src/utils/chartHelpers.ts:66 | `setDate(1)` lands on the first of the day's own month; the day lies before the next month's first. |
| Calendar.MonthHasBegun | src/utils/chartHelpers.ts:68 | If day `n` lies in month `j`, month `k` has begun by day `n` exactly when `k <= j`. |
| Calendar.FirstOfMonthAtMost | src/utils/chartHelpers.ts:68 | Month `k` has begun by day `n` exactly when `k` is not after `n`'s month. This is the loop condition of `generateMonthLabels`. |
| ChartTypes.MergeTheme | src/components/HeatmapChart/useHeatmapTheme.ts:19 | `{ ...base, ...custom }` with no overrides is the base. |
| ChartTypes.MergeAllFields | src/components/HeatmapChart/useHeatmapTheme.ts:19 | Overriding every field yields the override. |
| ChartTypes.MergeFieldwise | src/components/HeatmapChart/useHeatmapTheme.ts:19 | For each of the 14 theme fields, a field present in the overrides is taken from them and an absent one is kept from the base. |
| ChartTypes.MergeIdempotent | src/components/HeatmapChart/useHeatmapTheme.ts:19 | Merging the same overrides twice equals merging them once. |
| ChartTypes.MergeComposes | src/components/HeatmapChart/useHeatmapTheme.ts:19 | Two merges equal one merge with the combined overrides; later ones win. |
| ChartTypes.BaseTheme | src/components/HeatmapChart/useHeatmapTheme.ts:18 | The base theme's `darkMode` field equals the flag, and it has five intensity colours. |
| Common.HexToRgba | src/utils/common.ts:12-16 | An rgba with the given alpha, whose channels are `parseInt` of characters 1-2, 3-4 and 5-6. |
| Common.HexToRgbaOfHexColor | src/utils/common.ts:12-16 | For `#RRGGBB` each channel is the byte its two hex digits spell. |
| Common.HexToRgbaIgnoresSuffix | src/utils/common.ts:12-16 | Characters after index 6 never affect the colour. |
| Common.GenerateIntensityColors | src/utils/common.ts:25-45 | Exactly five colours. Light mode: alphas 0.2/0.4/0.6/0.8, then the primary string itself. Dark mode: 0.12/0.3/0.5/0.7/0.9. Every rgba entry has the parsed r, g, b. |
| Common.GeneratedAlphasIncrease | src/utils/common.ts:29-44 | The alphas of the rgba entries strictly increase along the scale. |
| Common.IntensityBucket | src/utils/common.ts:57-61 | The bucket lies in 0..4 and is 0 exactly for intensity 0. |
| Common.IntensityBucketRanges | src/utils/common.ts:57-61 | A positive intensity in bucket b lies in ((b-1)/4, b/4]; upper bounds are inclusive and the top bucket has no upper bound. |
| Common.IntensityBucketOutOfRange | src/utils/common.ts:57-61 | A negative intensity gets bucket 1; anything above 0.75 (so above 1) gets bucket 4. |
| Common.IntensityBucketMonotonic | src/utils/common.ts:57-61 | On [0, infinity) a larger intensity never gets a smaller bucket. |
| Common.GetIntensityColor | src/utils/common.ts:53-62 | The colour is the scale's entry at the intensity's bucket. |
| HeatmapTheme.UseHeatmapTheme | src/components/HeatmapChart/useHeatmapTheme.ts:16-28 | Every field except the scale is the merge of the base with the overrides. The scale is regenerated from a custom primary that is non-empty and differs from the base primary. Otherwise the scale is the custom scale if given, else the base scale. |
| HeatmapTheme.NoOverridesGiveDefault | src/components/HeatmapChart/useHeatmapTheme.ts:18-19 | No overrides give exactly the dark or light default theme. |
| HeatmapTheme.ScaleSource | src/components/HeatmapChart/useHeatmapTheme.ts:19-24 | A differing custom primary wins over custom intensity colours. A custom primary equal to the base primary keeps the custom intensity colours. |
| HeatmapTheme.LowerCaseDefaultRegenerates | src/components/HeatmapChart/useHeatmapTheme.ts:22-23 | The comparison is exact string equality, so "#8b5cf6" regenerates the scale although it names the default purple. |
| HeatmapTheme.ThemeHasFiveColors | src/components/HeatmapChart/useHeatmapTheme.ts:19-24 | The theme has a five-colour scale whenever custom intensity colours, if given, have five. |
| HeatmapLayout.InsertByDate | src/components/HeatmapChart/useHeatmapLayout.ts:27-29 | Insertion adds exactly the one record. |
| HeatmapLayout.SortByDate | src/components/HeatmapChart/useHeatmapLayout.ts:27-29 | The sorted copy has the input's length. |
| HeatmapLayout.InsertByDateSorted | src/components/HeatmapChart/useHeatmapLayout.ts:27-29 | Insertion into a sorted sequence keeps it sorted. |
| HeatmapLayout.SortByDateSorted | src/components/HeatmapChart/useHeatmapLayout.ts:27-29 | The copy is sorted ascending by date. |
| HeatmapLayout.SortByDatePermutation | src/components/HeatmapChart/useHeatmapLayout.ts:27-29 | The copy is a permutation of the input; the input itself is a value and is not changed. |
| HeatmapLayout.InsertByDateStable | src/components/HeatmapChart/useHeatmapLayout.ts:27-29 | Insertion keeps a new record before the existing records of its date. |
| HeatmapLayout.SortByDateStable | src/components/HeatmapChart/useHeatmapLayout.ts:27-29 | Stability: the records of each date keep their input order. |
| HeatmapLayout.SortedStableUnique | src/components/HeatmapChart/useHeatmapLayout.ts:27-29 | Two sorted sequences with the same records per date in the same order are equal. |
| HeatmapLayout.SortByDateCharacterized | src/components/HeatmapChart/useHeatmapLayout.ts:27-29 | Any sorted, stable rearrangement of the input is the sort's result, as with a stable `Array.prototype.sort`. |
| HeatmapLayout.SortByDateIdempotent | src/components/HeatmapChart/useHeatmapLayout.ts:27-29 | Sorting an already sorted sequence changes nothing. |
| HeatmapLayout.SortedLastIsLatest | src/components/HeatmapChart/useHeatmapLayout.ts:33 | `lastDay` is one of the records and has the latest date. |
| HeatmapLayout.FillFlatGrid | src/components/HeatmapChart/useHeatmapLayout.ts:42-49 | The fresh array holds record i at `startPadding + i` when that lies on the grid, and `null` elsewhere. |
| HeatmapLayout.CutIntoWeeks | src/components/HeatmapChart/useHeatmapLayout.ts:51-59 | The nested loops produce the flat array cut into weeks of seven. |
| HeatmapLayout.ComputeLayout | src/components/HeatmapChart/useHeatmapLayout.ts:21-63 | The hook's result equals the declarative layout, including the RangeError for an invalid array length. |
| HeatmapLayout.LayoutOfNoDays | src/components/HeatmapChart/useHeatmapLayout.ts:31 | No records give no weeks and `totalWeeks = 0`. |
| HeatmapLayout.LayoutShape | src/components/HeatmapChart/useHeatmapLayout.ts:35-59 | `totalWeeks` is 1 in weekly mode and `weeksToShow` otherwise. The result has exactly `totalWeeks` weeks of seven cells. It fails exactly when `7 * totalWeeks` is not a valid array length. |
| HeatmapLayout.LayoutUnfold | src/components/HeatmapChart/useHeatmapLayout.ts:33-59 | A successful layout is the flat grid of the sorted copy, cut into weeks. |
| HeatmapLayout.ChunkAt | src/components/HeatmapChart/useHeatmapLayout.ts:51-59 | Cell (week w, day d) of the cut is flat position `7w + d`. |
| HeatmapLayout.FlattenChunk | src/components/HeatmapChart/useHeatmapLayout.ts:51-59 | Cutting into weeks loses and adds nothing: flattening gives the flat grid back. |
| HeatmapLayout.LayoutFlattens | src/components/HeatmapChart/useHeatmapLayout.ts:42-59 | The weeks, flattened, are the flat grid. |
| HeatmapLayout.LayoutCell | src/components/HeatmapChart/useHeatmapLayout.ts:38-56 | Cell (w, d) holds sorted record `7w + d - startPadding` when that index exists, and is empty otherwise. |
| HeatmapLayout.LayoutAnchor | src/components/HeatmapChart/useHeatmapLayout.ts:33-48 | With at least one week and a valid `dayOfWeek`, the latest record sits at week `totalWeeks - 1`, slot `dayOfWeek`. |
| HeatmapLayout.LayoutContiguous | src/components/HeatmapChart/useHeatmapLayout.ts:41-49 | Filled cells are exactly the contiguous run ending at the anchor. They hold the records in sorted order, and every cell after the anchor is empty. |
| HeatmapLayout.CountRun | src/components/HeatmapChart/useHeatmapLayout.ts:44-48 | A grid filled exactly on [lo, hi) has `min(hi, len) - min(lo, len)` filled cells. |
| HeatmapLayout.FlatGridCount | src/components/HeatmapChart/useHeatmapLayout.ts:44-48 | With the anchor on the grid, the flat grid has `min(n, anchor + 1)` filled cells. |
| HeatmapLayout.LayoutFilledCount | src/components/HeatmapChart/useHeatmapLayout.ts:44-48 | The layout shows `min(n, anchor + 1)` records. Surplus earliest records are dropped, never wrapped. |
| HeatmapLayout.ConsecutiveWeekdaysBack | src/components/HeatmapChart/useHeatmapLayout.ts:38-46 | In a run of consecutive weekdays, record i's weekday is the last one's minus the distance, mod 7. |
| HeatmapLayout.PlacedOnOwnWeekday | src/components/HeatmapChart/useHeatmapLayout.ts:38-46 | For consecutive weekdays, the record placed in slot d has `dayOfWeek = d`. |
| HeatmapLayout.LayoutSlotIsWeekday | src/components/HeatmapChart/useHeatmapLayout.ts:38-46 | When the sorted records have consecutive weekdays, every filled cell sits in its own weekday's slot. |
| HeatmapGrid.RowSlot | src/components/HeatmapChart/HeatmapGrid.tsx:50-51 | Row r reads slot `(r + 1) % 7`, a slot in 0..6 from which the row is recovered as `(slot + 6) % 7`. |
| HeatmapGrid.SlotRow | src/components/HeatmapChart/HeatmapGrid.tsx:50-51 | The inverse mapping yields a row in 0..6. |
| HeatmapGrid.RowSlotBijective | src/components/HeatmapChart/HeatmapGrid.tsx:50-51 | Row to slot is a bijection on 0..6: injective, with `SlotRow` as its inverse. |
| HeatmapGrid.LabelsMatchSlots | src/components/HeatmapChart/HeatmapGrid.tsx:22 | The label of row r names Sunday-based weekday `(r + 1) % 7`. |
| HeatmapGrid.SlotCell | src/components/HeatmapChart/HeatmapGrid.tsx:56 | `week[actualDayIndex]` is a day only when the slot exists in the week. |
| HeatmapGrid.RenderCell | src/components/HeatmapChart/HeatmapGrid.tsx:58-73 | Background is the bucket colour, or `intensityColors[0]` when empty. Border is 2 in the primary colour exactly for today, else 0 and transparent. Disabled exactly when empty or without `onDayPress`; otherwise a press reports the day. |
| HeatmapGrid.EmptyLooksLikeZero | src/components/HeatmapChart/HeatmapGrid.tsx:69-71 | An empty cell has the colour of a day with intensity 0. |
| HeatmapGrid.GridRows | src/components/HeatmapChart/HeatmapGrid.tsx:50-56 | Seven rows, each with one cell per week. |
| HeatmapGrid.EveryCellShownOnce | src/components/HeatmapChart/HeatmapGrid.tsx:50-56 | Slot s of week w is rendered in row `SlotRow(s)`, column w, and no other row reads slot s. |
| HeatmapChart.FilterDays | src/components/HeatmapChart/index.tsx:47-49 | Weekly mode passes the last `min(7, n)` days; monthly mode passes `days` unchanged. |
| HeatmapChart.HeatmapChartState.constructor | src/components/HeatmapChart/index.tsx:27-36 | Starts in monthly mode with the dropdown closed and nothing reported. `weeksToShow` defaults to 12. |
| HeatmapChart.HeatmapChartState.ToggleDropdown | src/components/HeatmapChart/index.tsx:71 | Flips `showDropdown`; period and notifications are unchanged. |
| HeatmapChart.HeatmapChartState.HandlePeriodChange | src/components/HeatmapChart/index.tsx:40-44 | Sets the period, closes the dropdown, and reports the period to `onPeriodChange` when one was given. |
| HeatmapChart.HeatmapChartState.GridLayout | src/components/HeatmapChart/index.tsx:47-51 | The grid is the layout of the filtered days with the current period and `weeksToShow`. |
| HeatmapChart.WeeklyGrid | src/components/HeatmapChart/index.tsx:47-51 | Weekly mode lays out one week holding `min(7, n, dayOfWeek + 1)` records. |
| StreakColors.StreakBucket | src/components/ReadingStreakGraph/useStreakColors.ts:17-30 | The bucket lies in 0..4 and is 0 exactly for the value 0. |
| StreakColors.StreakScale | src/components/ReadingStreakGraph/useStreakColors.ts:18-29 | A fixed neutral colour (`#EBEDF0` light, `rgba(60, 60, 60, 0.8)` dark). Then alphas 0.2/0.4/0.6 and the primary string (light), or 0.3/0.5/0.7 and alpha 1 (dark). |
| StreakColors.StreakColor | src/components/ReadingStreakGraph/useStreakColors.ts:17-31 | `getColor(value)` is the scale's entry at the value's bucket. |
| StreakColors.StreakBucketBoundaries | src/components/ReadingStreakGraph/useStreakColors.ts:20-28 | Upper bounds are exclusive: 4 and 5, 14 and 15, 24 and 25 fall in different buckets. |
| StreakColors.StreakBucketRanges | src/components/ReadingStreakGraph/useStreakColors.ts:20-28 | A positive value in bucket b lies in [1,5), [5,15), [15,25) or [25, infinity). |
| StreakColors.StreakBucketMonotonic | src/components/ReadingStreakGraph/useStreakColors.ts:19-29 | Negative values get bucket 1; for values >= 0 the bucket never decreases. |
| StreakColors.ZeroIsNeutral | src/components/ReadingStreakGraph/useStreakColors.ts:19-25 | The colour of 0 does not depend on the primary colour. |
| StreakLegend.LegendColors | src/components/ReadingStreakGraph/StreakLegend.tsx:21-33 | One square per sample, in sample order, each coloured by `getColor(sample)`. |
| StreakLegend.LegendSamplesIncrease | src/components/ReadingStreakGraph/StreakLegend.tsx:15 | The samples strictly increase. |
| StreakLegend.LegendHitsEachStep | src/components/ReadingStreakGraph/StreakLegend.tsx:15-27 | Sample i falls in bucket i, in both modes. |
| StreakLegend.LegendIsTheScale | src/components/ReadingStreakGraph/StreakLegend.tsx:15-33 | The legend shows the whole five-step scale, in order, in both modes. |
| ReadingStreakGraph.SquareSize | src/components/ReadingStreakGraph/index.tsx:35 | The size is 12 exactly when the prop is missing, 0 or 12; otherwise it is the prop. |
| ReadingStreakGraph.SelectWindow | src/components/ReadingStreakGraph/index.tsx:41-42 | Exactly `totalDays` squares. A long enough history gives its last `totalDays` entries in order. A shorter one gives the whole history followed by zeros. |
| ReadingStreakGraph.ShortHistoryEndsWithZeros | src/components/ReadingStreakGraph/index.tsx:41-42 | With a short history, the newest entry is not at the final index; the final square is 0. |
| ReadingStreakGraph.SquaresComeFromHistory | src/components/ReadingStreakGraph/index.tsx:41-42 | Every square is 0 or an entry of the history. |
| ReadingStreakGraph.DefaultGridSize | src/components/ReadingStreakGraph/index.tsx:16-34 | The default 4 x 20 grid shows 80 squares. |
| StreakGrid.GridIndexBijective | src/components/ReadingStreakGraph/StreakGrid.tsx:40 | `row * numCols + col` lies in [0, rows * cols), and row and column are recovered from it by division and remainder. |
| StreakGrid.VisitOrderIsRange | src/components/ReadingStreakGraph/StreakGrid.tsx:37-40 | The nested maps visit every index of [0, rows * cols) exactly once, in increasing order. |
| StreakGrid.RenderSquare | src/components/ReadingStreakGraph/StreakGrid.tsx:41-52 | Colour is `getColor(squares[index])`. Disabled exactly without `onSquarePress`; a press reports `(squares[index], index)`. |
| StreakGrid.GridView | src/components/ReadingStreakGraph/StreakGrid.tsx:37-57 | `numRows` rows of `numCols` squares. |
| StreakGrid.GridSquare | src/components/ReadingStreakGraph/StreakGrid.tsx:37-52 | The square at (r, c) shows `squares[r * numCols + c]` in its colour and reports that value and index. |
| Themes.CreateCustomTheme | src/constants/themes.ts:241-270 | Primary, secondary, accent and shadow are `baseColor`. The scale is `baseColor` + "20"/"40"/"60"/"80", then `baseColor`. Backgrounds, texts and the fixed purple border come from the mode alone. `darkMode` is the argument, and an omitted one means light mode (default false). |
| Themes.CustomThemesShareMode | src/constants/themes.ts:250-257 | Two custom themes of one mode differ only in the fields built from the base colour. |
| Themes.PresetKeys | src/constants/themes.ts:275-286 | `THEMES` has exactly the ten preset names. |
| Themes.PresetModesMatchNames | src/constants/themes.ts:275-286 | Every `*_dark` preset has `darkMode` true and every `*_light` preset false. |
| Themes.PresetScales | src/constants/themes.ts:275-286 | Every preset has five intensity colours. |
| Themes.PurpleIsDefault | src/constants/themes.ts:11-50 | The purple presets are the library's default light and dark themes. |
| ChartHelpers.CalculateIntensity | src/utils/chartHelpers.ts:199-201 | `min(value / threshold, 1)` is at most 1. For a positive threshold it is 1 exactly from the threshold on, 0 exactly at 0, and negative exactly for negative values. An omitted threshold is 8: the value 8 and above give 1, and values 1 to 7 give a fraction. |
| ChartHelpers.CalculateIntensityMonotonic | src/utils/chartHelpers.ts:199-201 | For a positive or omitted threshold, more value never gives less intensity. |
| ChartHelpers.GenerateHeatmapData | src/utils/chartHelpers.ts:16-55 | The session map plus the `while` loop produce the declarative list of days. Omitted arguments take the defaults `daysToShow = 150` and `intensityThreshold = 8`, so by default there are 151 days, from today - 150 through today. |
| ChartHelpers.HeatmapDataShape | src/utils/chartHelpers.ts:22-52 | `daysToShow + 1` consecutive days ending today, only the last marked today. Each carries the sum of that day's sessions and its weekday. |
| ChartHelpers.HeatmapDataAt | src/utils/chartHelpers.ts:36-52 | Day i is the record of day `today - daysToShow + i`. |
| ChartHelpers.HeatmapDataNegative | src/utils/chartHelpers.ts:22-37 | A negative `daysToShow` starts after today and yields no days. |
| ChartHelpers.HeatmapDataFitsLayout | src/utils/chartHelpers.ts:36-52 | The generated days are already in sort order and have consecutive weekdays, so each lands in its own weekday slot. |
| ChartHelpers.HeatmapDataSorted | src/utils/chartHelpers.ts:36-52 | The generated days are sorted by date. |
| ChartHelpers.HeatmapDataWeekdays | src/utils/chartHelpers.ts:47-51 | Consecutive generated days have consecutive weekdays. |
| ChartHelpers.MonthLabel | src/utils/chartHelpers.ts:72-76 | The label of month index k carries k's year and 0-based month and that month's name. |
| ChartHelpers.MonthRangeElements | src/utils/chartHelpers.ts:65-79 | The labels from lo to hi are `max(hi - lo, 0)` consecutive month labels. |
| ChartHelpers.GenerateMonthLabels | src/utils/chartHelpers.ts:60-82 | The loop yields one label per month from the start date's month through the end date's month. |
| ChartHelpers.LabelMonthsThrough | src/utils/chartHelpers.ts:68-79 | Stepping month by month while the first of the month is on or before the end date, adding unseen keys, gives the months up to the end date's month. |
| ChartHelpers.MonthLabelsCover | src/utils/chartHelpers.ts:60-82 | The labels run month by month from the start month to the end month with no month twice. A start after the end month gives none. |
| ChartHelpers.CalculateProductivityStats | src/utils/chartHelpers.ts:87-130 | Sessions total; time is 25 per session; active days count values > 0. Longest streak is the longest run of active days; current streak as the code computes it. Exact averages, 0 for no days; period "all-time". |
| ChartHelpers.LeadingRunMaximal | src/utils/chartHelpers.ts:102-108 | The leading run is active throughout and at least as long as any active prefix. |
| ChartHelpers.LongestRunIsMaximal | src/utils/chartHelpers.ts:102-108 | No run of active days is longer than the longest streak. |
| ChartHelpers.LongestRunAttained | src/utils/chartHelpers.ts:102-108 | The longest streak is the length of an actual run of active days. |
| ChartHelpers.RunAtMostActive | src/utils/chartHelpers.ts:102-108 | A run of active days is no longer than the number of active days. |
| ChartHelpers.CountActiveAtMostLength | src/utils/chartHelpers.ts:102-103 | Active days are at most the number of days. |
| ChartHelpers.StatsOrdered | src/utils/chartHelpers.ts:102-108 | longestStreak <= activeDays <= n. |
| ChartHelpers.StatsOfNoDays | src/utils/chartHelpers.ts:117-118 | No days give zero for every figure. |
| ChartHelpers.CurrentStreak | src/utils/chartHelpers.ts:95-96 | The run of active days ending at the most recent day: all active, preceded by an inactive day or the start. |
| ChartHelpers.CurrentStreakWithinLongest | src/utils/chartHelpers.ts:95-108 | The current streak never exceeds the longest streak. |
| ChartHelpers.ReportedCurrentStreakStopsAtOne | src/utils/chartHelpers.ts:105-112 | The code reports 1 for three active days, where the run ending today is 3 (see Findings). |
| ChartHelpers.IsoWeekday | src/utils/chartHelpers.ts:178 | `getUTCDay() \|\| 7` lies in 1..7. |
| ChartHelpers.IsoWeekdayPeriodic | src/utils/chartHelpers.ts:178 | The ISO weekday repeats every seven days. |
| ChartHelpers.GetWeekNumber | src/utils/chartHelpers.ts:176-182 | The week number lies in 1..53. |
| ChartHelpers.WeekSharesNumber | src/utils/chartHelpers.ts:176-182 | All seven days of a Monday-to-Sunday week share one number. |
| ChartHelpers.WeekOneHoldsJanuaryFourth | src/utils/chartHelpers.ts:176-182 | January 4th is in week 1 every year, as ISO 8601 requires. |
| ChartHelpers.NextWeekNextNumber | src/utils/chartHelpers.ts:176-182 | Within one week-year, the next week gets the next number. |
| ChartHelpers.GetDailyChartData | src/utils/chartHelpers.ts:135-147 | The points are the last entries of `slice(-lastNDays)`, in order, copying value and date. |
| ChartHelpers.DailyPoints | src/utils/chartHelpers.ts:141-146 | One point per day, in order, with its value and date. |
| ChartHelpers.DailyPointLabel | src/utils/chartHelpers.ts:142 | Each point's label is the day of the month of its date. |
| ChartHelpers.DailyChartLabels | src/utils/chartHelpers.ts:139-142 | A label reads back as the day of the month (1..31) of its point. A window of 0 or of at least n keeps every day. |
| ChartHelpers.CollectGroups | src/utils/chartHelpers.ts:155-162 | The `Map` fold yields the keys in insertion order, each with its value sum and kept date. |
| ChartHelpers.GroupStep | src/utils/chartHelpers.ts:155-162 | One more day adds its value to its own group, possibly moves that group's date, and leaves every other group alone. |
| ChartHelpers.GroupKeysDistinct | src/utils/chartHelpers.ts:164 | The keys are distinct, every day's key is among them, and only those. |
| ChartHelpers.GroupSumOfAbsentKey | src/utils/chartHelpers.ts:157 | A key no day has has an empty sum. |
| ChartHelpers.GroupDateChosen | src/utils/chartHelpers.ts:160 | A group's date belongs to one of its own days: the earliest (weekly) or the first seen (monthly). |
| ChartHelpers.SumOfGroupsStep | src/utils/chartHelpers.ts:159 | One more day adds its value to the total of the groups exactly when its key is listed. |
| ChartHelpers.GroupsConserveTotal | src/utils/chartHelpers.ts:155-162 | The group sums add up to the total value of the days. |
| ChartHelpers.GetWeeklyChartData | src/utils/chartHelpers.ts:152-171 | The weekly bars, cut to the last 12. |
| ChartHelpers.OneKeyOneGroup | src/utils/chartHelpers.ts:155-162 | Two days with one key make one group with their sum and the earlier date. |
| ChartHelpers.SameWeekNumberOneBar | src/utils/chartHelpers.ts:155-170 | Weeks are keyed by number alone, so two days with equal week numbers make one bar even across years. |
| ChartHelpers.GetMonthlyChartData | src/utils/chartHelpers.ts:225-246 | One bar per `year-month` key, in order of first appearance. |
| ChartHelpers.MonthlyLabelsMatchKeys | src/utils/chartHelpers.ts:229-241 | Each monthly bar is dated in its own month and labelled with that month's name. |
| ChartHelpers.MonthIndexParts | src/utils/chartHelpers.ts:229 | The month index determines year and month. |
| ChartHelpers.FormatDuration | src/utils/chartHelpers.ts:187-194 | The label ends in 'h' exactly for whole hours of at least 60 minutes, and in 'm' otherwise. |
| ChartHelpers.ParseNumberOfInt | src/utils/chartHelpers.ts:189 | The duration reader reads any printed integer back. |
| ChartHelpers.NoHourMarkInNumber | src/utils/chartHelpers.ts:193 | A printed integer contains no 'h', so the hour mark is unambiguous. |
| ChartHelpers.FormatDurationRoundTrip | src/utils/chartHelpers.ts:187-194 | Every duration label reads back as the minutes it was made from. |
| ChartHelpers.MinutesRoundTrip | src/utils/chartHelpers.ts:188-189 | "{m}m" (below an hour, negatives included) reads back as m. |
| ChartHelpers.HoursRoundTrip | src/utils/chartHelpers.ts:191-193 | "{h}h" reads back as whole hours. |
| ChartHelpers.HoursAndMinutesRoundTrip | src/utils/chartHelpers.ts:191-193 | "{h}h {m}m" reads back as the minutes. |
| ChartHelpers.ParseHoursAndMinutes | src/utils/chartHelpers.ts:193 | Any "{h}h {m}m" reads as 60h + m. |
| ChartHelpers.SplitAtHourMark | src/utils/chartHelpers.ts:193 | In "{h}h {m}" the first 'h' follows the hours, then a space and the minutes. |
| ChartHelpers.FormatDurationOfHours | src/utils/chartHelpers.ts:191-193 | From 60 minutes on: "{m div 60}h" when `m mod 60 = 0`, else "{m div 60}h {m mod 60}m". |
| ChartHelpers.GroupByPeriod | src/utils/chartHelpers.ts:206-220 | 'daily' gives the last 7 days, 'weekly' the weekly bars, 'monthly' the monthly bars. |
| MonthlyChart.MonthlyData | src/components/MonthlyChart/index.tsx:32-62 | The map-seeding and summing loops give one bar per listed month, in order, with that month's sum. |
| MonthlyChart.AddValues | src/components/MonthlyChart/index.tsx:42-47 | After the loop each key holds the sum of its days' values; seeded keys stay. |
| MonthlyChart.UnseenKeyHasNoTotal | src/components/MonthlyChart/index.tsx:52 | A month no day falls in totals 0. |
| MonthlyChart.UnlistedDayIgnored | src/components/MonthlyChart/index.tsx:42-52 | A day in an unlisted month changes no bar. |
| MonthlyChart.ListedDayCounted | src/components/MonthlyChart/index.tsx:42-52 | A day in a listed month adds its value to that month's bar. |
| MonthlyChart.DuplicateMonthCountedTwice | src/components/MonthlyChart/index.tsx:144 | A month listed twice is counted twice in the displayed total. |
| MonthlyChart.DisplayedTotalOverKeys | src/components/MonthlyChart/index.tsx:144 | The displayed total is the sum of the listed months' totals. |
| MonthlyChart.TotalOverKeysStep | src/components/MonthlyChart/index.tsx:144 | One more day adds its value to that sum exactly when its month is listed. |
| MonthlyChart.CoveredTotal | src/components/MonthlyChart/index.tsx:144 | When the listed months are distinct and cover every day, their totals sum to the total value. |
| MonthlyChart.DisplayedTotal | src/components/MonthlyChart/index.tsx:144 | No bars give 0. With no negative value, the total is not negative and no bar exceeds it. |
| MonthlyChart.DisplayedTotalIsDaysTotal | src/components/MonthlyChart/index.tsx:144 | With distinct listed months covering every day, the displayed total is the sum of all day values. |
| HourlyActivity.FormatHour | src/components/HourlyActivityChart/index.tsx:31-35 | A label ends in "AM" exactly for hours before 12, and in "PM" exactly from 12 on. |
| HourlyActivity.FormatHourRoundTrip | src/components/HourlyActivityChart/index.tsx:31-35 | 12 gives "12PM", h < 12 "{h}AM", h > 12 "{h-12}PM". Each label up to 23 reads back as its hour, so labels are distinct. |
| HourlyActivity.MidnightLabel | src/components/HourlyActivityChart/index.tsx:33 | Hour 0 is labelled "0AM". |
| HourlyActivity.FindHourIndex | src/components/HourlyActivityChart/index.tsx:64 | `findIndex`: -1 exactly when no bucket has the hour; otherwise the first bucket that does. |
| HourlyActivity.GenerateHourlyActivity | src/components/HourlyActivityChart/index.tsx:38-73 | The two loops produce one bucket per hour from start to end, holding the count of that hour's qualifying sessions. |
| HourlyActivity.CountingStep | src/components/HourlyActivityChart/index.tsx:58-68 | For a qualifying session, `findIndex` finds its hour's bucket, and incrementing that bucket gives the buckets of one more session. Any other session leaves the buckets unchanged. |
| HourlyActivity.BucketsStep | src/components/HourlyActivityChart/index.tsx:55-69 | A session increments exactly its hour's bucket when it ended today, is 'work' and is in range; any other session changes nothing. |
| HourlyActivity.SumAfterIncrement | src/components/HourlyActivityChart/index.tsx:66 | Incrementing one bucket raises the sum by one. |
| HourlyActivity.EmptyBucketsSumToZero | src/components/HourlyActivityChart/index.tsx:42-48 | Fresh buckets all start at 0. |
| HourlyActivity.EmptyBucketsExtend | src/components/HourlyActivityChart/index.tsx:42-48 | The initialising loop appends the next hour's bucket, ascending. |
| HourlyActivity.BucketsCountQualifying | src/components/HourlyActivityChart/index.tsx:55-70 | The buckets sum to the number of qualifying sessions. |
| HourlyActivity.SampleUpToClosedForm | src/components/HourlyActivityChart/index.tsx:81 | The first n entries filtered by `index % k === 0` are entries 0, \|k\|, 2\|k\|, ...: `ceil(n / \|k\|)` of them. |
| HourlyActivity.SampleKeptStep | src/components/HourlyActivityChart/index.tsx:81 | A kept index appends the next multiple of the stride. |
| HourlyActivity.Sample | src/components/HourlyActivityChart/index.tsx:81 | The sample is never longer than the buckets. With an interval other than 0 it starts with the first bucket. |
| HourlyActivity.SampleClosedForm | src/components/HourlyActivityChart/index.tsx:81 | The sample keeps the buckets at indices 0, k, 2k, ...: `ceil(n/k)` of them. k = 0 keeps none. |
| HourlyActivity.NothingKept | src/components/HourlyActivityChart/index.tsx:81 | `index % 0` is NaN, so nothing is kept. |
| HourlyActivity.MaxSessions | src/components/HourlyActivityChart/index.tsx:76 | `maxSessions` is at least 1 and at least every count, and is 1 or an actual count. |
| HourlyActivity.ChartData | src/components/HourlyActivityChart/index.tsx:83-98 | No more bars than buckets. With interval 0 there are none. Otherwise there are `ceil(n / \|k\|)` bars, and bar j shows bucket `j * \|k\|`: its count, label, and a press reporting (hour, count). |
| HourlyActivity.DefaultChart | src/components/HourlyActivityChart/index.tsx:15-17 | With the default props (hours 6 to 23, interval 3) there are 18 buckets and 6 bars. Bar j is labelled for hour 6 + 3j and holds that hour's count. |
| HourlyActivity.EveryThirdOfEighteen | src/components/HourlyActivityChart/index.tsx:81 | Sampling 18 buckets with interval 3 keeps six: buckets 0, 3, ..., 15. |
| HourlyActivity.DefaultHourLabels | src/components/HourlyActivityChart/index.tsx:31-35 | The hours the default chart shows are labelled 6AM, 9AM, 12PM, 3PM, 6PM and 9PM. |
| HourlyActivity.ChartBars | src/components/HourlyActivityChart/index.tsx:81-98 | Bar j shows hour `start + j*k` (within range): its count, its label, and a press reporting (hour, count). |
| FocusTimeSummary.FormatTime | src/components/FocusTimeSummary/index.tsx:36-43 | The label ends in " hr" exactly when the time is at least 60 minutes; below that it ends in " min". |
| FocusTimeSummary.TenthsOfHour | src/components/FocusTimeSummary/index.tsx:40 | Hours and tenths read from the remainder equal those read from the number of 6-minute steps. |
| FocusTimeSummary.FormatTimeInHours | src/components/FocusTimeSummary/index.tsx:36-41 | From 60 minutes on the label is "{h}.{t} hr", with h >= 1, tenth digit t in 0..9, and `60h + 6t <= m < 60h + 6t + 6`. |
| FocusTimeSummary.FormatTimeInMinutes | src/components/FocusTimeSummary/index.tsx:42 | Below an hour the label is "{m} min" and reads back as m. |
| FocusTimeSummary.FormatTimeSameLabel | src/components/FocusTimeSummary/index.tsx:36-41 | From 60 minutes on, two durations get one label exactly when they have the same number of whole 6-minute steps. |
| FocusTimeSummary.MaxSessions | src/components/FocusTimeSummary/index.tsx:56 | At least 1, at least every entry's sessions, and 1 or an actual count. |
| FocusTimeSummary.FocusBars | src/components/FocusTimeSummary/index.tsx:58-64 | One bar per entry, in order. Its value is the entry's sessions, and its label starts with '-' exactly for a negative day. |
| FocusTimeSummary.FocusBarsShowData | src/components/FocusTimeSummary/index.tsx:64 | Each bar's label reads back as its entry's day. |
| FocusTimeSummary.FocusTimeSummaryState.constructor | src/components/FocusTimeSummary/index.tsx:16-28 | Starts weekly with the dropdown closed, nothing reported and weekly data shown. `showPeriodToggle` defaults to true. |
| FocusTimeSummary.FocusTimeSummaryState.RawData | src/components/FocusTimeSummary/index.tsx:52 | The shown data is `monthlyData` when the period is monthly and it was passed. Otherwise, weekly or without monthly data, it is `weeklyData`. |
| FocusTimeSummary.FocusTimeSummaryState.ChartData | src/components/FocusTimeSummary/index.tsx:55-75 | One bar per entry of the shown data, each with that entry's sessions. In the weekly period there is one bar per weekly entry. |
| FocusTimeSummary.FocusTimeSummaryState.ToggleDropdown | src/components/FocusTimeSummary/index.tsx:92-93 | Flips the dropdown and its visibility; period and notifications are unchanged. |
| FocusTimeSummary.FocusTimeSummaryState.HandlePeriodChange | src/components/FocusTimeSummary/index.tsx:45-52 | Sets the period, closes the dropdown, and reports it when a callback exists. Data is `monthlyData` only when monthly and provided, otherwise `weeklyData`. |

## Left out

- Rendering is not modelled: JSX trees, styles, scroll views, icons, card and summary components, headers, legends' text, time labels, `ActivityBarChart`, `ProgressCard`, `StatsCard`. The third-party `BarChart` is not part of this model.
- Floating point is not modelled. Alphas and intensities are exact reals, so the decimal text of an alpha inside `rgba(...)` is left out.
- The bar opacity formulas of `FocusTimeSummary` and `HourlyActivityChart` are left out because they are floating-point styling.
- `Math.ceil(max * 1.2)` in `MonthlyChart` and `ActivityBarChart` is left out because it is floating-point scaling.
- The wall clock is not modelled. `new Date()` becomes a `today` parameter in `generateHeatmapData` and `HourlyActivityChart`. A session's completion day and local hour are given directly.
- The UTC/local mismatch between `toISOString` and `getDay`/`getHours` is left out: one day number stands for both.
- Date-string parsing (`new Date(dateStr)`) is not modelled. The sort key is the integer day number, and `dateStr` and `date` are assumed to name the same day. An invalid date string, which gives a NaN comparator, is not modelled.
- `session.date` in `generateHeatmapData` is taken as a day number. The string-key round trip through `toISOString().split('T')[0]` is the identity on days.
- The month key `` `${year}-${index}` `` of `MonthlyChart` is modelled as the pair (year, index). This assumes distinct pairs give distinct strings, which holds for integer years and 0..11 months.
- React hook memoisation (`useMemo`, `useState`) is not modelled. Hooks are functions; component state is class fields updated by the handlers.
- `src/hooks/useProductivityData.ts` and `src/hooks/useChartTheme.ts` are thin wrappers and are not part of this model. Neither are `src/index.ts`, `rollup.config.js` and `example-app/App.js`.
- The prop types of `FocusTimeSummary` and `HourlyActivityChart` are not among the type definitions. `FocusDataPoint.day` is modelled as a number, so its label is its decimal string.
- `ChartHelpers.CalculateIntensity` and `ChartHelpers.GenerateHeatmapData` require that the threshold, when given, is not 0. Dividing by 0 gives Infinity or NaN in JavaScript, which the real-number model cannot represent.
- `JsBuiltins.JsRem`: for a negative dividend the contract gives only the range (-b, 0], not the exact value. The body computes the exact truncating remainder.
- `ChartHelpers.GroupByPeriod`: the `default` branch of the switch cannot be reached with the three-valued period type, so it is not modelled.
- `calculateProductivityStats` averages are exact quotients rather than floating-point division.
- `HeatmapDay.metadata` is not modelled: it is copied and never inspected.
- `HourlyActivity.FormatHourRoundTrip` covers hours up to 23 only. From 24 on, "{h-12}PM" labels repeat earlier ones (24 reads like 12).
- `Common.HexToRgba`: strings are sequences of Unicode code points, not UTF-16 code units. After a character outside the Basic Multilingual Plane (an emoji, say), the positions `slice` reads differ from JavaScript's, so such a string gives other channels.
- `ChartHelpers.GenerateMonthLabels`: dates are whole days. The source compares timestamps that keep the start date's clock time. When the end date falls on the first of a month at an earlier time of day than the start date, the source leaves out that month and the model includes it.
- `ChartHelpers.GetWeekNumber`: `Date.UTC` reads years 0 to 99 as 1900 to 1999. The model keeps the year as given, so for such years its week numbers differ from the source's.
- `JsBuiltins.IntToString`: numbers are unbounded integers, not doubles. The model writes every integer in plain decimal. JavaScript switches to exponent form from 1e21 and loses exactness above 2^53. The same applies to `ChartHelpers.FormatDuration` and `FocusTimeSummary.FormatTime`, which build their labels with it.
- `FocusTimeSummary.FocusTimeSummaryState.ToggleDropdown` requires `showPeriodToggle`, because the toggle button is only rendered then.

## Findings

| source | as written | input that shows it | evidently intended | confidence | as-written member | corrected member |
|---|---|---|---|---|---|---|
| src/utils/chartHelpers.ts:105-107 | `currentStreak` is set only when `index === 0`, so it is `tempStreak` after the single most recent day: 1 or 0 | three days, all with value > 0: `currentStreak` is 1 | the length of the run of active days ending at the most recent day (3 here), as "calculate streak from most recent" says | not executed | ChartHelpers.ReportedCurrentStreakStopsAtOne | ChartHelpers.CurrentStreak |

`ChartHelpers.CalculateProductivityStats` keeps the figure the code reports.
`ChartHelpers.CurrentStreak` is the run of active days ending at the most recent day. `ChartHelpers.CurrentStreakWithinLongest` proves it never exceeds the longest streak.
