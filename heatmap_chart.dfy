/**
 * `HeatmapChart`: the period dropdown state, the weekly/monthly filter and
 * the layout the grid is drawn from.
 */
module HeatmapChart {
  import opened JsBuiltins
  import opened ChartTypes
  import opened HeatmapLayout

  /** `weeksToShow` when the prop is absent. */
  const DEFAULT_WEEKS_TO_SHOW: int := 12

  /** The days handed to the layout: `days.slice(-7)` in weekly mode, `days` in monthly mode. */
  function FilterDays(days: seq<HeatmapDay>, period: Period): (r: seq<HeatmapDay>)
    ensures period == Monthly ==> r == days
    ensures period == Weekly ==> |r| == Min(7, |days|) && r == days[|days| - |r|..]
  {
    if period == Weekly then SliceFromEnd(days, 7) else days
  }

  /** The chart component with its two pieces of state. */
  class HeatmapChartState {
    const days: seq<HeatmapDay>
    const weeksToShow: int
    /** Whether an `onPeriodChange` callback was passed. */
    const hasPeriodCallback: bool
    var period: Period
    var showDropdown: bool
    /** The periods reported to `onPeriodChange`, oldest first. */
    var notified: seq<Period>

    /** Mounting: monthly period, dropdown closed, nothing reported. */
    constructor(days: seq<HeatmapDay>, weeksToShow: Option<int>, hasPeriodCallback: bool)
      ensures this.days == days && this.hasPeriodCallback == hasPeriodCallback
      ensures this.weeksToShow == (if weeksToShow.Some? then weeksToShow.value else DEFAULT_WEEKS_TO_SHOW)
      ensures period == Monthly && !showDropdown && notified == []
    {
      this.days := days;
      this.weeksToShow := if weeksToShow.Some? then weeksToShow.value else DEFAULT_WEEKS_TO_SHOW;
      this.hasPeriodCallback := hasPeriodCallback;
      period := Monthly;
      showDropdown := false;
      notified := [];
    }

    /** The header's toggle: flips the dropdown, leaves the period alone. */
    method ToggleDropdown()
      modifies this
      ensures showDropdown == !old(showDropdown)
      ensures period == old(period) && notified == old(notified)
    {
      showDropdown := !showDropdown;
    }

    /** `handlePeriodChange`: set the period, close the dropdown, report the new period if asked to. */
    method HandlePeriodChange(newPeriod: Period)
      modifies this
      ensures period == newPeriod && !showDropdown
      ensures notified == old(notified) + (if hasPeriodCallback then [newPeriod] else [])
    {
      period := newPeriod;
      showDropdown := false;
      if hasPeriodCallback {
        notified := notified + [newPeriod];
      }
    }

    /** The grid layout for the current state. */
    method GridLayout() returns (r: LayoutResult)
      ensures r == LayoutSpec(FilterDays(days, period), period, weeksToShow)
    {
      r := ComputeLayout(FilterDays(days, period), period, weeksToShow);
    }
  }

  /** In weekly mode the grid has one week whose filled cells are the last `min(7, n, dayOfWeek + 1)` days. */
  lemma WeeklyGrid(days: seq<HeatmapDay>)
    requires days != []
    requires 0 <= SortByDate(FilterDays(days, Weekly))[|FilterDays(days, Weekly)| - 1].dayOfWeek < 7
    ensures var f := FilterDays(days, Weekly);
            var r := LayoutSpec(f, Weekly, DEFAULT_WEEKS_TO_SHOW);
            var dow := SortByDate(f)[|f| - 1].dayOfWeek;
            r.Ok? && |r.layout.weeks| == 1 &&
            CountFilled(Flatten(r.layout.weeks)) == Min(Min(7, |days|), dow + 1)
  {
    var f := FilterDays(days, Weekly);
    LayoutShape(f, Weekly, DEFAULT_WEEKS_TO_SHOW);
    LayoutFilledCount(f, Weekly, DEFAULT_WEEKS_TO_SHOW);
  }
}
