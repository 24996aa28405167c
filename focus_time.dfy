/**
 * `FocusTimeSummary`: the time labels of the summary row, the period
 * dropdown and its state, and the bars of the weekly or monthly data.
 */
module FocusTimeSummary {
  import opened JsBuiltins
  import opened ChartTypes

  /** One entry of `weeklyData` / `monthlyData`: a day label and that day's sessions. */
  datatype FocusDataPoint = FocusDataPoint(day: int, sessions: int)

  // ---------------------------------------------------------------------------
  // formatTime
  // ---------------------------------------------------------------------------

  /**
   * `formatTime(minutes)`: from one hour up, hours with one decimal that
   * counts whole 6-minute tenths ("1.5 hr"); below, "{mins} min". `Math.floor`
   * is Dafny's `/` by a positive divisor; `%` truncates, so a negative time
   * keeps only its (negative) minutes past the hour.
   */
  function FormatTime(minutes: int): (r: string)
    ensures minutes >= 60 <==> |r| >= 3 && r[|r| - 3..] == " hr"
    ensures minutes < 60 ==> |r| >= 4 && r[|r| - 4..] == " min"
  {
    var hours := minutes / 60;
    var mins := JsRem(minutes, 60);
    if hours > 0 then IntToString(hours) + "." + IntToString(mins / 6) + " hr"
    else
      var text := IntToString(mins) + " min";
      assert text[|text| - 3] == 'm';
      text
  }

  /** Whole tenths of an hour: m / 6 splits into hours and the tenth digit. */
  lemma TenthsOfHour(m: int)
    requires m >= 0
    ensures m / 60 == (m / 6) / 10
    ensures (m % 60) / 6 == (m / 6) % 10
  {
    var h, r := m / 60, m % 60;
    var t, u := r / 6, r % 6;
    assert m == 6 * (10 * h + t) + u;
  }

  /**
   * From one hour up the label is the hours, a dot, one digit t and " hr",
   * where 60h + 6t is the time rounded down to a tenth of an hour.
   */
  lemma FormatTimeInHours(m: int)
    requires m >= 60
    ensures var h := m / 60;
            var t := (m % 60) / 6;
            h >= 1 && t < 10 &&
            60 * h + 6 * t <= m < 60 * h + 6 * t + 6 &&
            FormatTime(m) == IntToString(h) + "." + [DigitChar(t)] + " hr"
  {
    NatToStringSingleDigit((m % 60) / 6);
  }

  /** Under an hour the label is the minutes themselves, which it reads back as. */
  lemma FormatTimeInMinutes(m: int)
    requires 0 <= m < 60
    ensures FormatTime(m) == IntToString(m) + " min"
    ensures ParseDecimal(FormatTime(m)[..|FormatTime(m)| - 4]) == Int(m)
  {
    assert FormatTime(m)[..|FormatTime(m)| - 4] == IntToString(m);
    IntToStringRoundTrip(m);
  }

  /** From one hour up, two times share a label exactly when they agree in whole 6-minute units. */
  lemma FormatTimeSameLabel(m1: int, m2: int)
    requires m1 >= 60 && m2 >= 60
    ensures FormatTime(m1) == FormatTime(m2) <==> m1 / 6 == m2 / 6
  {
    FormatTimeInHours(m1);
    FormatTimeInHours(m2);
    TenthsOfHour(m1);
    TenthsOfHour(m2);
    var a1, a2 := IntToString(m1 / 60), IntToString(m2 / 60);
    var t1, t2 := (m1 % 60) / 6, (m2 % 60) / 6;
    if FormatTime(m1) == FormatTime(m2) {
      var l := FormatTime(m1);
      assert |a1| == |a2|;
      assert a1 == l[..|a1|] == a2;
      IntToStringRoundTrip(m1 / 60);
      IntToStringRoundTrip(m2 / 60);
      assert DigitChar(t1) == l[|a1| + 1] == DigitChar(t2);
    }
  }

  // ---------------------------------------------------------------------------
  // Bars
  // ---------------------------------------------------------------------------

  /** A bar: its height and the day's label. */
  datatype FocusBar = FocusBar(value: int, caption: string)

  /**
   * `Math.max(...rawData.map(d => d.sessions), 1)`; the hourly chart computes
   * the same scale over its buckets (`HourlyActivity.MaxSessions`), and both
   * are `MaxWithFloor` over the session counts.
   */
  function MaxSessions(data: seq<FocusDataPoint>): (m: int)
    ensures m >= 1
    ensures forall i :: 0 <= i < |data| ==> data[i].sessions <= m
    ensures m == 1 || exists i :: 0 <= i < |data| && data[i].sessions == m
  {
    var counts := seq(|data|, i requires 0 <= i < |data| => data[i].sessions);
    assert forall i :: 0 <= i < |data| ==> counts[i] == data[i].sessions;
    MaxWithFloor(counts, 1)
  }

  /** `chartData`: one bar per entry, labelled `day.toString()`. */
  function FocusBars(data: seq<FocusDataPoint>): (r: seq<FocusBar>)
    ensures |r| == |data|
    ensures forall i :: 0 <= i < |data| ==> r[i].value == data[i].sessions
    ensures forall i :: 0 <= i < |data| ==> |r[i].caption| >= 1 && (r[i].caption[0] == '-' <==> data[i].day < 0)
  {
    seq(|data|, i requires 0 <= i < |data| => FocusBar(data[i].sessions, IntToString(data[i].day)))
  }

  /** Each bar's label reads back as its entry's day. */
  lemma FocusBarsShowData(data: seq<FocusDataPoint>)
    ensures forall i :: 0 <= i < |data| ==> ParseDecimal(FocusBars(data)[i].caption) == Int(data[i].day)
  {
    forall i | 0 <= i < |data|
      ensures ParseDecimal(FocusBars(data)[i].caption) == Int(data[i].day)
    {
      IntToStringRoundTrip(data[i].day);
    }
  }

  // ---------------------------------------------------------------------------
  // Component state
  // ---------------------------------------------------------------------------

  /** The component's props that the logic reads, and its two pieces of state. */
  class FocusTimeSummaryState {
    const weeklyData: seq<FocusDataPoint>
    /** `monthlyData` when passed (an empty array is passed too: it is truthy). */
    const monthlyData: Option<seq<FocusDataPoint>>
    const showPeriodToggle: bool
    /** Whether an `onPeriodChange` callback was passed. */
    const hasPeriodCallback: bool
    var period: Period
    var showDropdown: bool
    /** The periods reported to `onPeriodChange`, oldest first. */
    var notified: seq<Period>

    /** Mounting: weekly period, dropdown closed, nothing reported; the toggle shows unless turned off. */
    constructor(weeklyData: seq<FocusDataPoint>, monthlyData: Option<seq<FocusDataPoint>>,
                showPeriodToggle: Option<bool>, hasPeriodCallback: bool)
      ensures this.weeklyData == weeklyData && this.monthlyData == monthlyData
      ensures this.showPeriodToggle == (if showPeriodToggle.Some? then showPeriodToggle.value else true)
      ensures this.hasPeriodCallback == hasPeriodCallback
      ensures period == Weekly && !showDropdown && notified == []
      ensures RawData() == weeklyData
    {
      this.weeklyData := weeklyData;
      this.monthlyData := monthlyData;
      this.showPeriodToggle := if showPeriodToggle.Some? then showPeriodToggle.value else true;
      this.hasPeriodCallback := hasPeriodCallback;
      period := Weekly;
      showDropdown := false;
      notified := [];
    }

    /** `period === 'monthly' && monthlyData ? monthlyData : weeklyData`. */
    function RawData(): (r: seq<FocusDataPoint>)
      reads this
      ensures period == Monthly && monthlyData.Some? ==> r == monthlyData.value
      ensures period == Weekly || monthlyData.None? ==> r == weeklyData
    {
      if period == Monthly && monthlyData.Some? then monthlyData.value else weeklyData
    }

    /** The menu is drawn only while open and while the toggle is shown. */
    predicate DropdownVisible()
      reads this
    {
      showDropdown && showPeriodToggle
    }

    /** The bars for the current state. */
    function ChartData(): (r: seq<FocusBar>)
      reads this
      ensures |r| == |RawData()|
      ensures forall i :: 0 <= i < |r| ==> r[i].value == RawData()[i].sessions
      ensures period == Weekly ==> |r| == |weeklyData|
    {
      FocusBars(RawData())
    }

    /** The header button (present only with the toggle): flips the dropdown, leaves the period alone. */
    method ToggleDropdown()
      requires showPeriodToggle
      modifies this
      ensures showDropdown == !old(showDropdown)
      ensures DropdownVisible() == !old(DropdownVisible())
      ensures period == old(period) && notified == old(notified)
    {
      showDropdown := !showDropdown;
    }

    /**
     * `handlePeriodChange`: set the period, close the dropdown, report the new
     * period if asked to. Choosing monthly without monthly data keeps showing
     * the weekly data.
     */
    method HandlePeriodChange(newPeriod: Period)
      modifies this
      ensures period == newPeriod && !showDropdown && !DropdownVisible()
      ensures notified == old(notified) + (if hasPeriodCallback then [newPeriod] else [])
      ensures RawData() == (if newPeriod == Monthly && monthlyData.Some? then monthlyData.value else weeklyData)
      ensures newPeriod == Weekly || monthlyData.None? ==> RawData() == weeklyData
    {
      period := newPeriod;
      showDropdown := false;
      if hasPeriodCallback {
        notified := notified + [newPeriod];
      }
    }
  }
}
