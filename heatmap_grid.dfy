/**
 * `HeatmapGrid`: seven display rows, Monday first, each showing one cell per
 * week. Display row r reads week slot `(r + 1) % 7` of the Sunday-based week.
 */
module HeatmapGrid {
  import opened JsBuiltins
  import opened ChartTypes
  import opened Common
  import opened HeatmapLayout

  /** The row labels, Monday first. */
  const DAY_LABELS: seq<string> := ["Mon", "Tue", "Wed", "Thu", "Fri", "Sat", "Sun"]

  /** The chart's default `dayNames`, Sunday first as `getDay()` counts. */
  const DEFAULT_DAY_NAMES: seq<string> := ["Sun", "Mon", "Tue", "Wed", "Thu", "Fri", "Sat"]

  /** The week slot display row `row` shows: `(rowIndex + 1) % 7`. */
  function RowSlot(row: int): (slot: int)
    requires 0 <= row < 7
    ensures 0 <= slot < 7
    ensures row == (slot + 6) % 7
  {
    (row + 1) % 7
  }

  /** The display row that shows week slot `slot`. */
  function SlotRow(slot: int): (row: int)
    requires 0 <= slot < 7
    ensures 0 <= row < 7
  {
    (slot + 6) % 7
  }

  /** The rotation is a bijection on 0..6 with inverse `SlotRow`: every slot is shown by exactly one row. */
  lemma RowSlotBijective()
    ensures forall r1, r2 :: 0 <= r1 < 7 && 0 <= r2 < 7 && RowSlot(r1) == RowSlot(r2) ==> r1 == r2
    ensures forall s :: 0 <= s < 7 ==> RowSlot(SlotRow(s)) == s
  {
  }

  /** Row r's label names the weekday of its slot, Saturday after Friday and Sunday last. */
  lemma LabelsMatchSlots()
    ensures forall r :: 0 <= r < 7 ==> DAY_LABELS[r] == DEFAULT_DAY_NAMES[RowSlot(r)]
  {
  }

  /** What one cell shows and does. `onPress` is the day reported to `onDayPress` when pressed. */
  datatype CellView = CellView(
    background: Color,
    borderWidth: int,
    borderColor: string,
    disabled: bool,
    onPress: Option<HeatmapDay>)

  /** `week[actualDayIndex]`: a slot past the end of a short week reads as no day. */
  function SlotCell(week: seq<Cell>, slot: int): (c: Cell)
    ensures c.Filled? ==> 0 <= slot < |week| && c == week[slot]
  {
    if 0 <= slot < |week| then week[slot] else Empty
  }

  /**
   * One cell: an empty cell has the lowest colour of the scale, which is the
   * colour of a day of intensity 0; the border is 2 wide in the primary colour
   * exactly for today; the cell is disabled exactly when it is empty or there
   * is no `onDayPress`.
   */
  function RenderCell(theme: ChartTheme, cell: Cell, hasDayPress: bool): (v: CellView)
    requires HasFiveIntensityColors(theme)
    ensures v.background == theme.intensityColors[if cell.Filled? then IntensityBucket(cell.day.intensity) else 0]
    ensures v.borderWidth == 2 <==> cell.Filled? && cell.day.isToday
    ensures v.borderWidth != 2 ==> v.borderWidth == 0 && v.borderColor == "transparent"
    ensures v.borderWidth == 2 ==> v.borderColor == theme.primaryColor
    ensures v.disabled <==> cell.Empty? || !hasDayPress
    ensures v.onPress.Some? <==> !v.disabled
    ensures v.onPress.Some? ==> v.onPress.value == cell.day
  {
    var isToday := cell.Filled? && cell.day.isToday;
    CellView(
      if cell.Filled? then GetIntensityColor(cell.day.intensity, theme.intensityColors) else theme.intensityColors[0],
      if isToday then 2 else 0,
      if isToday then theme.primaryColor else "transparent",
      cell.Empty? || !hasDayPress,
      if cell.Filled? && hasDayPress then Some(cell.day) else None)
  }

  /** An empty cell is drawn like a day whose intensity is exactly 0. */
  lemma EmptyLooksLikeZero(theme: ChartTheme, day: HeatmapDay, hasDayPress: bool)
    requires HasFiveIntensityColors(theme)
    requires day.intensity == 0.0
    ensures RenderCell(theme, Empty, hasDayPress).background == RenderCell(theme, Filled(day), hasDayPress).background
  {
  }

  /** The grid: seven rows, each with one rendered cell per week, in week order. */
  function GridRows(theme: ChartTheme, weeks: seq<seq<Cell>>, hasDayPress: bool): (rows: seq<seq<CellView>>)
    requires HasFiveIntensityColors(theme)
    ensures |rows| == 7
    ensures forall r :: 0 <= r < 7 ==> |rows[r]| == |weeks|
  {
    seq(7, r requires 0 <= r < 7 =>
      seq(|weeks|, w requires 0 <= w < |weeks| => RenderCell(theme, SlotCell(weeks[w], RowSlot(r)), hasDayPress)))
  }

  /**
   * Every cell of a layout of full weeks is shown exactly once: slot s of week w
   * appears in row `SlotRow(s)`, column w, and in no other row of that column.
   */
  lemma EveryCellShownOnce(theme: ChartTheme, weeks: seq<seq<Cell>>, hasDayPress: bool, w: int, s: int)
    requires HasFiveIntensityColors(theme)
    requires forall i :: 0 <= i < |weeks| ==> |weeks[i]| == 7
    requires 0 <= w < |weeks| && 0 <= s < 7
    ensures GridRows(theme, weeks, hasDayPress)[SlotRow(s)][w] == RenderCell(theme, weeks[w][s], hasDayPress)
    ensures forall r :: 0 <= r < 7 && r != SlotRow(s) ==> RowSlot(r) != s
  {
    assert RowSlot(SlotRow(s)) == s;
  }
}
