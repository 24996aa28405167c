/**
 * The data helpers of the library: turning raw sessions into heatmap days,
 * month labels, statistics, chart points grouped by day, ISO week or month,
 * ISO week numbers and duration labels.
 *
 * Dates are day numbers (see Calendar); "today" is a parameter.
 */
module ChartHelpers {
  import opened JsBuiltins
  import opened ChartTypes
  import opened Calendar
  import opened HeatmapLayout

  // ---------------------------------------------------------------------------
  // generateHeatmapData and calculateIntensity
  // ---------------------------------------------------------------------------

  /** A raw session: the day it belongs to and its value (sessions, minutes, ...). */
  datatype Session = Session(date: int, value: int)

  /** The total value of the sessions on day `day`. */
  function SumOn(sessions: seq<Session>, day: int): int
  {
    if sessions == [] then 0
    else SumOn(sessions[..|sessions| - 1], day) +
         (if sessions[|sessions| - 1].date == day then sessions[|sessions| - 1].value else 0)
  }

  /** `map.get(k) || 0` on a map of integers. */
  function Lookup(m: map<int, int>, k: int): int
  {
    if k in m then m[k] else 0
  }

  /** The default of `generateHeatmapData`'s `daysToShow`. */
  const DEFAULT_DAYS_TO_SHOW: int := 150
  /** The default of `intensityThreshold` and of `calculateIntensity`'s `threshold`. */
  const DEFAULT_INTENSITY_THRESHOLD: real := 8.0

  /**
   * `calculateIntensity(value, threshold = 8)`: `Math.min(value / threshold, 1)`.
   * For a positive threshold it reaches 1 exactly at the threshold and is 0
   * exactly for a value of 0; an omitted threshold (None) is 8.
   */
  function CalculateIntensity(value: int, threshold: Option<real>): (r: real)
    requires threshold != Some(0.0)
    ensures r <= 1.0
    ensures var th := Pick(threshold, DEFAULT_INTENSITY_THRESHOLD); th > 0.0 ==> (r == 1.0 <==> value as real >= th)
    ensures var th := Pick(threshold, DEFAULT_INTENSITY_THRESHOLD); th > 0.0 ==> (r == 0.0 <==> value == 0)
    ensures var th := Pick(threshold, DEFAULT_INTENSITY_THRESHOLD); th > 0.0 ==> (r < 0.0 <==> value < 0)
    ensures threshold.None? ==> (r == 1.0 <==> value >= 8) && (0.0 < r < 1.0 <==> 0 < value < 8)
  {
    var threshold := Pick(threshold, DEFAULT_INTENSITY_THRESHOLD);
    var q := value as real / threshold;
    QuotientAgainstOne(value as real, threshold);
    if q <= 1.0 then q else 1.0
  }

  /** Dividing by a positive number gives less than 1, or exactly 1, just when the dividend does. */
  lemma QuotientAgainstOne(v: real, d: real)
    requires d != 0.0
    ensures d > 0.0 ==> (v / d < 1.0 <==> v < d) && (v / d == 1.0 <==> v == d)
  {
    if d > 0.0 {
      var q := v / d;
      assert q * d == v;
      if q < 1.0 {
        assert q * d < 1.0 * d;
      }
      if v < d {
        assert q * d < 1.0 * d;
      }
    }
  }

  /** For a positive (or omitted) threshold, more value never means less intensity. */
  lemma CalculateIntensityMonotonic(v1: int, v2: int, threshold: Option<real>)
    requires threshold.None? || threshold.value > 0.0
    requires v1 <= v2
    ensures CalculateIntensity(v1, threshold) <= CalculateIntensity(v2, threshold)
  {
    var th := Pick(threshold, DEFAULT_INTENSITY_THRESHOLD);
    assert v1 as real / th <= v2 as real / th;
  }

  /** The record `generateHeatmapData` emits for day `d`. */
  function HeatmapDayFor(sessions: seq<Session>, d: int, threshold: real, today: int): HeatmapDay
    requires threshold != 0.0
  {
    var value := SumOn(sessions, d);
    HeatmapDay(d, CalculateIntensity(value, Some(threshold)), value, Weekday(d), d == today, None)
  }

  /** What `generateHeatmapData` returns: one record per day from `today - daysToShow` to `today`. */
  function HeatmapData(sessions: seq<Session>, daysToShow: int, threshold: real, today: int): seq<HeatmapDay>
    requires threshold != 0.0
  {
    seq(Max(daysToShow + 1, 0), i => HeatmapDayFor(sessions, today - daysToShow + i, threshold, today))
  }

  /**
   * `generateHeatmapData(sessions, daysToShow = 150, intensityThreshold = 8)`
   * with today given: sum the sessions per day in a map, then walk the days up
   * to today. An omitted argument (None) takes its default, so by default the
   * days are the 151 ending today.
   */
  method GenerateHeatmapData(sessions: seq<Session>, daysToShow: Option<int>, intensityThreshold: Option<real>,
                             today: int)
    returns (days: seq<HeatmapDay>)
    requires intensityThreshold != Some(0.0)
    ensures days == HeatmapData(sessions, Pick(daysToShow, DEFAULT_DAYS_TO_SHOW),
                                Pick(intensityThreshold, DEFAULT_INTENSITY_THRESHOLD), today)
    ensures daysToShow.None? ==>
              |days| == DEFAULT_DAYS_TO_SHOW + 1 && days[0].date == today - DEFAULT_DAYS_TO_SHOW &&
              days[|days| - 1].date == today
  {
    var daysToShow := Pick(daysToShow, DEFAULT_DAYS_TO_SHOW);
    var intensityThreshold := Pick(intensityThreshold, DEFAULT_INTENSITY_THRESHOLD);
    var sessionsByDate: map<int, int> := map[];
    var i := 0;
    while i < |sessions|
      invariant 0 <= i <= |sessions|
      invariant forall d :: Lookup(sessionsByDate, d) == SumOn(sessions[..i], d)
    {
      var session := sessions[i];
      sessionsByDate := sessionsByDate[session.date := Lookup(sessionsByDate, session.date) + session.value];
      assert sessions[..i + 1][..i] == sessions[..i];
      i := i + 1;
    }
    assert sessions[..i] == sessions;

    days := [];
    var startDate := today - daysToShow;
    var currentDate := startDate;
    while currentDate <= today
      invariant startDate <= currentDate <= Max(today + 1, startDate)
      invariant |days| == currentDate - startDate
      invariant forall j :: 0 <= j < |days| ==> days[j] == HeatmapDayFor(sessions, startDate + j, intensityThreshold, today)
      decreases today - currentDate
    {
      var value := Lookup(sessionsByDate, currentDate);
      var intensity := CalculateIntensity(value, Some(intensityThreshold));
      days := days + [HeatmapDay(currentDate, intensity, value, Weekday(currentDate), currentDate == today, None)];
      currentDate := currentDate + 1;
    }
  }

  /**
   * The generated days are consecutive, end today, and only the last is
   * today; each carries the sum of that day's sessions and its weekday.
   */
  lemma HeatmapDataShape(sessions: seq<Session>, daysToShow: int, threshold: real, today: int)
    requires threshold != 0.0
    requires daysToShow >= 0
    ensures var days := HeatmapData(sessions, daysToShow, threshold, today);
            |days| == daysToShow + 1 &&
            days[|days| - 1].date == today &&
            (forall i :: 0 <= i < |days| - 1 ==> days[i + 1].date == days[i].date + 1) &&
            (forall i :: 0 <= i < |days| ==> (days[i].isToday <==> i == |days| - 1)) &&
            (forall i :: 0 <= i < |days| ==> days[i].value == SumOn(sessions, days[i].date) &&
                                              days[i].dayOfWeek == Weekday(days[i].date))
  {
    HeatmapDataAt(sessions, daysToShow, threshold, today);
  }

  lemma HeatmapDataAt(sessions: seq<Session>, daysToShow: int, threshold: real, today: int)
    requires threshold != 0.0
    ensures var days := HeatmapData(sessions, daysToShow, threshold, today);
            |days| == Max(daysToShow + 1, 0) &&
            forall i :: 0 <= i < |days| ==> days[i] == HeatmapDayFor(sessions, today - daysToShow + i, threshold, today)
  {
  }

  /** A negative `daysToShow` puts the start after today: no days at all. */
  lemma HeatmapDataNegative(sessions: seq<Session>, daysToShow: int, threshold: real, today: int)
    requires threshold != 0.0
    requires daysToShow < 0
    ensures HeatmapData(sessions, daysToShow, threshold, today) == []
  {
  }

  /**
   * The generated days are already in date order and their weekdays advance
   * by one, so in the heatmap layout each lands in its own weekday's slot.
   */
  lemma HeatmapDataFitsLayout(sessions: seq<Session>, daysToShow: int, threshold: real, today: int)
    requires threshold != 0.0
    ensures SortByDate(HeatmapData(sessions, daysToShow, threshold, today)) == HeatmapData(sessions, daysToShow, threshold, today)
    ensures ConsecutiveWeekdays(HeatmapData(sessions, daysToShow, threshold, today))
  {
    var days := HeatmapData(sessions, daysToShow, threshold, today);
    HeatmapDataSorted(sessions, daysToShow, threshold, today);
    SortByDateIdempotent(days);
    HeatmapDataWeekdays(sessions, daysToShow, threshold, today);
  }

  lemma HeatmapDataSorted(sessions: seq<Session>, daysToShow: int, threshold: real, today: int)
    requires threshold != 0.0
    ensures SortedByDate(HeatmapData(sessions, daysToShow, threshold, today))
  {
    HeatmapDataAt(sessions, daysToShow, threshold, today);
  }

  lemma HeatmapDataWeekdays(sessions: seq<Session>, daysToShow: int, threshold: real, today: int)
    requires threshold != 0.0
    ensures ConsecutiveWeekdays(HeatmapData(sessions, daysToShow, threshold, today))
  {
    var days := HeatmapData(sessions, daysToShow, threshold, today);
    HeatmapDataAt(sessions, daysToShow, threshold, today);
    forall i | 0 <= i < |days| - 1 ensures days[i + 1].dayOfWeek == (days[i].dayOfWeek + 1) % 7 {
      WeekdayStep(days[i].date);
    }
  }

  // ---------------------------------------------------------------------------
  // generateMonthLabels
  // ---------------------------------------------------------------------------

  const MONTH_NAMES: seq<string> := ["Jan", "Feb", "Mar", "Apr", "May", "Jun", "Jul", "Aug", "Sep", "Oct", "Nov", "Dec"]

  /** A month label: its short name, its year and its 0-based month. */
  datatype HeatmapMonth = HeatmapMonth(name: string, year: int, index: int)

  /** The label of month index `k` (12 * year + month), named from the 12-entry table `names`. */
  function MonthLabel(names: seq<string>, k: int): (m: HeatmapMonth)
    requires |names| == 12
    ensures MonthIndex(m.year, m.index) == k && 0 <= m.index < 12 && m.name == names[m.index]
  {
    HeatmapMonth(names[k % 12], k / 12, k % 12)
  }

  /** The labels of the month indices lo, lo + 1, ..., hi - 1. */
  function MonthRange(names: seq<string>, lo: int, hi: int): seq<HeatmapMonth>
    requires |names| == 12
    decreases hi - lo
  {
    if hi <= lo then [] else MonthRange(names, lo, hi - 1) + [MonthLabel(names, hi - 1)]
  }

  lemma {:induction false} MonthRangeElements(names: seq<string>, lo: int, hi: int)
    requires |names| == 12
    ensures |MonthRange(names, lo, hi)| == Max(hi - lo, 0)
    ensures forall i :: 0 <= i < |MonthRange(names, lo, hi)| ==> MonthRange(names, lo, hi)[i] == MonthLabel(names, lo + i)
    decreases hi - lo
  {
    if hi > lo {
      MonthRangeElements(names, lo, hi - 1);
    }
  }

  /**
   * `generateMonthLabels(startDate, endDate)`: from the first of the start
   * month, step a month at a time while on or before the end date, adding each
   * month's label the first time its `year-month` key is seen.
   */
  method GenerateMonthLabels(startDate: int, endDate: int) returns (months: seq<HeatmapMonth>)
    ensures months == MonthRange(MONTH_NAMES, MonthIndexOf(startDate), MonthIndexOf(endDate) + 1)
  {
    MonthBracket(endDate);
    months := LabelMonthsThrough(MONTH_NAMES, MonthIndexOf(startDate), endDate, MonthIndexOf(endDate));
  }

  /**
   * The loop of `generateMonthLabels`, from month index `first` while its
   * first day is on or before `endDate`, which lies in month `last`.
   */
  method LabelMonthsThrough(names: seq<string>, first: int, endDate: int, ghost last: int)
    returns (months: seq<HeatmapMonth>)
    requires |names| == 12
    requires FirstOfMonth(last) <= endDate < FirstOfMonth(last + 1)
    ensures months == MonthRange(names, first, last + 1)
  {
    months := [];
    var monthsSet: set<(int, int)> := {};
    var k := first;
    var currentDate := FirstOfMonth(k);
    MonthHasBegun(k, endDate, last);
    while currentDate <= endDate
      invariant first <= k <= Max(last + 1, first)
      invariant currentDate <= endDate <==> k <= last
      invariant months == MonthRange(names, first, k)
      invariant forall key :: key in monthsSet ==> MonthIndex(key.0, key.1) < k
      decreases last - k
    {
      var monthKey := (k / 12, k % 12);
      if monthKey !in monthsSet {
        monthsSet := monthsSet + {monthKey};
        months := months + [MonthLabel(names, k)];
      } else {
        assert false;
      }
      k := k + 1;
      currentDate := FirstOfMonth(k);
      MonthHasBegun(k, endDate, last);
    }
  }

  /**
   * The labels run month by month from the start date's month to the end
   * date's month, with no month twice; a start after the end month gives none.
   */
  lemma MonthLabelsCover(startDate: int, endDate: int)
    ensures var ms := MonthRange(MONTH_NAMES, MonthIndexOf(startDate), MonthIndexOf(endDate) + 1);
            |ms| == Max(MonthIndexOf(endDate) - MonthIndexOf(startDate) + 1, 0) &&
            (ms != [] ==> MonthIndex(ms[0].year, ms[0].index) == MonthIndexOf(startDate) &&
                          MonthIndex(ms[|ms| - 1].year, ms[|ms| - 1].index) == MonthIndexOf(endDate)) &&
            (forall i :: 0 <= i < |ms| - 1 ==>
               MonthIndex(ms[i + 1].year, ms[i + 1].index) == MonthIndex(ms[i].year, ms[i].index) + 1) &&
            (forall i, j :: 0 <= i < j < |ms| ==> (ms[i].year, ms[i].index) != (ms[j].year, ms[j].index))
  {
    MonthRangeElements(MONTH_NAMES, MonthIndexOf(startDate), MonthIndexOf(endDate) + 1);
  }

  // ---------------------------------------------------------------------------
  // calculateProductivityStats
  // ---------------------------------------------------------------------------

  /** Minutes booked per session by the statistics. */
  const MINUTES_PER_SESSION := 25

  /** The averages are kept as exact quotients. */
  datatype ProductivityStats = ProductivityStats(
    totalSessions: int,
    totalTime: int,
    avgSessionsPerDay: real,
    avgTimePerDay: real,
    activeDays: int,
    currentStreak: int,
    longestStreak: int,
    period: string)

  function SumValues(s: seq<HeatmapDay>): int
  {
    if s == [] then 0 else s[0].value + SumValues(s[1..])
  }

  /** The number of active days (value > 0). */
  function CountActive(s: seq<HeatmapDay>): nat
  {
    if s == [] then 0 else (if s[0].value > 0 then 1 else 0) + CountActive(s[1..])
  }

  /** Every day in s[lo..hi] is active. */
  predicate AllActive(s: seq<HeatmapDay>, lo: int, hi: int)
    requires 0 <= lo <= hi <= |s|
  {
    forall i :: lo <= i < hi ==> s[i].value > 0
  }

  /** The length of the run of active days at the front of `s`. */
  function LeadingRun(s: seq<HeatmapDay>): nat
  {
    if s == [] || s[0].value <= 0 then 0 else 1 + LeadingRun(s[1..])
  }

  /** The length of the longest run of consecutive active days in `s`. */
  function LongestRun(s: seq<HeatmapDay>): nat
  {
    if s == [] then 0 else Max(LongestRun(s[1..]), LeadingRun(s))
  }

  /** The `currentStreak` the statistics report: 1 when the last day is active, 0 otherwise. */
  function ReportedCurrentStreak(s: seq<HeatmapDay>): int
  {
    if s != [] && s[|s| - 1].value > 0 then 1 else 0
  }

  /**
   * `calculateProductivityStats(days)`: one pass over the days from the most
   * recent back, accumulating sums, active days and the length of the current
   * run of active days.
   */
  method CalculateProductivityStats(days: seq<HeatmapDay>) returns (stats: ProductivityStats)
    ensures stats.totalSessions == SumValues(days)
    ensures stats.totalTime == MINUTES_PER_SESSION * SumValues(days)
    ensures stats.activeDays == CountActive(days)
    ensures stats.longestStreak == LongestRun(days)
    ensures stats.currentStreak == ReportedCurrentStreak(days)
    ensures stats.avgSessionsPerDay == (if |days| > 0 then SumValues(days) as real / |days| as real else 0.0)
    ensures stats.avgTimePerDay == (if |days| > 0 then (MINUTES_PER_SESSION * SumValues(days)) as real / |days| as real else 0.0)
    ensures stats.period == "all-time"
  {
    var totalSessions := 0;
    var totalTime := 0;
    var activeDays := 0;
    var currentStreak := 0;
    var longestStreak := 0;
    var tempStreak := 0;
    var n := |days|;
    var reversedDays := seq(n, i requires 0 <= i < n => days[n - 1 - i]);
    var index := 0;
    while index < n
      invariant 0 <= index <= n
      invariant totalSessions == SumValues(days[n - index..])
      invariant totalTime == MINUTES_PER_SESSION * SumValues(days[n - index..])
      invariant activeDays == CountActive(days[n - index..])
      invariant tempStreak == LeadingRun(days[n - index..])
      invariant longestStreak == LongestRun(days[n - index..])
      invariant currentStreak == (if index == 0 then 0 else ReportedCurrentStreak(days))
    {
      var day := reversedDays[index];
      assert day == days[n - index - 1];
      assert days[n - index - 1..][1..] == days[n - index..];
      totalSessions := totalSessions + day.value;
      totalTime := totalTime + day.value * MINUTES_PER_SESSION;
      if day.value > 0 {
        activeDays := activeDays + 1;
        tempStreak := tempStreak + 1;
        if index == 0 {
          currentStreak := tempStreak;
        }
        longestStreak := Max(longestStreak, tempStreak);
      } else {
        if index == 0 {
          currentStreak := 0;
        }
        tempStreak := 0;
      }
      index := index + 1;
    }
    assert days[n - index..] == days;
    var avgSessionsPerDay := if n > 0 then totalSessions as real / n as real else 0.0;
    var avgTimePerDay := if n > 0 then totalTime as real / n as real else 0.0;
    stats := ProductivityStats(totalSessions, totalTime, avgSessionsPerDay, avgTimePerDay,
                               activeDays, currentStreak, longestStreak, "all-time");
  }

  /** The run at the front is active throughout and as long as any active prefix. */
  lemma {:induction false} LeadingRunMaximal(s: seq<HeatmapDay>, hi: int)
    requires 0 <= hi <= |s|
    ensures LeadingRun(s) <= |s| && AllActive(s, 0, LeadingRun(s))
    ensures AllActive(s, 0, hi) ==> hi <= LeadingRun(s)
  {
    if s != [] {
      LeadingRunMaximal(s[1..], if hi > 0 then hi - 1 else 0);
    }
  }

  /** No run of active days is longer than `LongestRun`. */
  lemma {:induction false} LongestRunIsMaximal(s: seq<HeatmapDay>, lo: int, hi: int)
    requires 0 <= lo <= hi <= |s| && AllActive(s, lo, hi)
    ensures hi - lo <= LongestRun(s)
  {
    if lo == 0 {
      LeadingRunMaximal(s, hi);
    } else {
      LongestRunIsMaximal(s[1..], lo - 1, hi - 1);
    }
  }

  /** `LongestRun` is the length of an actual run of active days, starting at `lo`. */
  lemma {:induction false} LongestRunAttained(s: seq<HeatmapDay>) returns (lo: nat)
    ensures lo + LongestRun(s) <= |s| && AllActive(s, lo, lo + LongestRun(s))
  {
    if s == [] {
      lo := 0;
    } else if LongestRun(s) == LeadingRun(s) {
      LeadingRunMaximal(s, 0);
      lo := 0;
    } else {
      var rest := LongestRunAttained(s[1..]);
      lo := rest + 1;
    }
  }

  /** A run of active days is at most as long as the number of active days. */
  lemma {:induction false} RunAtMostActive(s: seq<HeatmapDay>, lo: int, hi: int)
    requires 0 <= lo <= hi <= |s| && AllActive(s, lo, hi)
    ensures hi - lo <= CountActive(s)
  {
    if lo > 0 {
      RunAtMostActive(s[1..], lo - 1, hi - 1);
    } else if hi > 0 {
      RunAtMostActive(s[1..], 0, hi - 1);
    }
  }

  lemma {:induction false} CountActiveAtMostLength(s: seq<HeatmapDay>)
    ensures CountActive(s) <= |s|
  {
    if s != [] {
      CountActiveAtMostLength(s[1..]);
    }
  }

  /** The reported figures are ordered: longest streak <= active days <= number of days. */
  lemma StatsOrdered(days: seq<HeatmapDay>)
    ensures LongestRun(days) <= CountActive(days) <= |days|
  {
    var lo := LongestRunAttained(days);
    RunAtMostActive(days, lo, lo + LongestRun(days));
    CountActiveAtMostLength(days);
  }

  /** No days: every figure is zero, the averages included. */
  lemma StatsOfNoDays()
    ensures SumValues([]) == 0 && CountActive([]) == 0 && LongestRun([]) == 0 && ReportedCurrentStreak([]) == 0
  {
  }

  /**
   * The length of the run of active days that ends with the most recent day:
   * what a current streak counted "from the most recent" day amounts to.
   */
  function CurrentStreak(s: seq<HeatmapDay>): (r: nat)
    ensures r <= |s| && AllActive(s, |s| - r, |s|)
    ensures r < |s| ==> s[|s| - 1 - r].value <= 0
  {
    if s == [] || s[|s| - 1].value <= 0 then 0
    else
      var rest := CurrentStreak(s[..|s| - 1]);
      assert forall i :: |s| - 1 - rest <= i < |s| - 1 ==> s[..|s| - 1][i] == s[i];
      1 + rest
  }

  /** The current streak is a run of active days, so never longer than the longest one. */
  lemma CurrentStreakWithinLongest(s: seq<HeatmapDay>)
    ensures CurrentStreak(s) <= LongestRun(s)
  {
    LongestRunIsMaximal(s, |s| - CurrentStreak(s), |s|);
  }

  /**
   * The reported current streak stops at 1: three active days in a row
   * report 1 where the run ending today has length 3.
   */
  lemma ReportedCurrentStreakStopsAtOne(d: HeatmapDay)
    requires d.value > 0
    ensures ReportedCurrentStreak([d, d, d]) == 1
    ensures CurrentStreak([d, d, d]) == 3
  {
    assert [d, d, d][..2] == [d, d];
    assert [d, d][..1] == [d];
    assert [d][..0] == [];
  }

  // ---------------------------------------------------------------------------
  // getWeekNumber
  // ---------------------------------------------------------------------------

  /** `getUTCDay() || 7`: the ISO weekday, 1 = Monday ... 7 = Sunday. */
  function IsoWeekday(n: int): (w: int)
    ensures 1 <= w <= 7
  {
    if Weekday(n) == 0 then 7 else Weekday(n)
  }

  /** The Thursday of the Monday-to-Sunday week containing day `n`. */
  function WeekThursday(n: int): int
  {
    n + 4 - IsoWeekday(n)
  }

  /**
   * `getWeekNumber(date)`: move to the Thursday of the date's week, then count
   * weeks from January 1st of that Thursday's year, `ceil((dayOfYear + 1) / 7)`.
   */
  function GetWeekNumber(n: int): (w: int)
    ensures 1 <= w <= 53
  {
    var t := WeekThursday(n);
    var y := YearOf(t);
    YearStep(y);
    (t - DaysBeforeYear(y) + 1 + 6) / 7
  }

  /** The seven days of a week starting on a Monday all get the same number. */
  lemma WeekSharesNumber(monday: int, k: int)
    requires IsoWeekday(monday) == 1 && 0 <= k < 7
    ensures GetWeekNumber(monday + k) == GetWeekNumber(monday)
  {
    assert IsoWeekday(monday + k) == 1 + k;
  }

  /** Week 1 is the week that contains January 4th (equivalently, the year's first Thursday). */
  lemma WeekOneHoldsJanuaryFourth(y: int)
    ensures GetWeekNumber(DayNumber(Date(y, 0, 4))) == 1
  {
    var n := DayNumber(Date(y, 0, 4));
    assert n == DaysBeforeYear(y) + 3;
    YearStep(y);
    YearOfUnique(WeekThursday(n), y);
  }

  /** Within one year, the next week gets the next number. */
  lemma IsoWeekdayPeriodic(n: int)
    ensures IsoWeekday(n + 7) == IsoWeekday(n)
  {
    assert (n + 7 + 6) % 7 == (n + 6) % 7;
  }

  lemma NextWeekNextNumber(n: int)
    requires YearOf(WeekThursday(n + 7)) == YearOf(WeekThursday(n))
    ensures GetWeekNumber(n + 7) == GetWeekNumber(n) + 1
  {
    IsoWeekdayPeriodic(n);
    var t := WeekThursday(n);
    assert WeekThursday(n + 7) == t + 7;
    var x := t - DaysBeforeYear(YearOf(t)) + 7;
    assert GetWeekNumber(n) == x / 7;
    assert GetWeekNumber(n + 7) == (x + 7) / 7;
  }

  // ---------------------------------------------------------------------------
  // Chart points: getDailyChartData, getWeeklyChartData, getMonthlyChartData
  // ---------------------------------------------------------------------------

  /** A bar of a chart: its label (`caption`, as `label` is a Dafny keyword), its value and its date. */
  datatype ChartDataPoint = ChartDataPoint(caption: string, value: int, date: int)

  /** `date.getDate().toString()`: the day of the month, in decimal. */
  function DayLabel(date: int): string
  {
    IntToString(FromDayNumber(date).day)
  }

  /** `monthNames[date.getMonth()]`. */
  function MonthName(date: int): string
  {
    MONTH_NAMES[FromDayNumber(date).month]
  }

  /** `getDailyChartData(days, lastNDays)`: the last entries, labelled by day of the month. */
  function GetDailyChartData(days: seq<HeatmapDay>, lastNDays: int): (r: seq<ChartDataPoint>)
    ensures |r| == |SliceFromEnd(days, lastNDays)|
    ensures forall i :: 0 <= i < |r| ==>
              r[i].value == days[|days| - |r| + i].value && r[i].date == days[|days| - |r| + i].date
  {
    DailyPoints(SliceFromEnd(days, lastNDays))
  }

  /** `recentDays.map(...)`: a point per day, labelled by its day of the month. */
  function DailyPoints(recentDays: seq<HeatmapDay>): (r: seq<ChartDataPoint>)
    ensures |r| == |recentDays|
    ensures forall i :: 0 <= i < |r| ==> r[i].value == recentDays[i].value && r[i].date == recentDays[i].date
  {
    if recentDays == [] then []
    else
      var last := recentDays[|recentDays| - 1];
      DailyPoints(recentDays[..|recentDays| - 1]) + [ChartDataPoint(DayLabel(last.date), last.value, last.date)]
  }

  lemma {:induction false} DailyPointLabel(recentDays: seq<HeatmapDay>, i: int)
    requires 0 <= i < |recentDays|
    ensures DailyPoints(recentDays)[i].caption == DayLabel(recentDays[i].date)
  {
    if i < |recentDays| - 1 {
      DailyPointLabel(recentDays[..|recentDays| - 1], i);
    }
  }

  /**
   * A daily label reads back as the day of the month of its point's date; a
   * window of 0 (`slice(-0)`) or of at least the whole input keeps every day.
   */
  lemma DailyChartLabels(days: seq<HeatmapDay>, lastNDays: int, i: int)
    requires 0 <= i < |GetDailyChartData(days, lastNDays)|
    ensures var p := GetDailyChartData(days, lastNDays)[i];
            ParseDecimal(p.caption) == Int(FromDayNumber(p.date).day) &&
            1 <= FromDayNumber(p.date).day <= 31
    ensures lastNDays == 0 || lastNDays >= |days| ==> |GetDailyChartData(days, lastNDays)| == |days|
  {
    DailyPointLabel(SliceFromEnd(days, lastNDays), i);
    IntToStringRoundTrip(FromDayNumber(GetDailyChartData(days, lastNDays)[i].date).day);
  }

  /** How days are grouped: by ISO week number alone, or by (year, month). */
  datatype GroupKey = ByWeek | ByMonth

  /** The group key of a date: its week number, or its month index standing for the `year-month` string. */
  function KeyOf(key: GroupKey, date: int): int
  {
    match key
    case ByWeek => GetWeekNumber(date)
    case ByMonth => MonthIndexOf(date)
  }

  /** A day as the aggregation sees it: its group key, its value and its date. */
  datatype Entry = Entry(key: int, value: int, date: int)

  function Entries(days: seq<HeatmapDay>, key: GroupKey): seq<Entry>
  {
    seq(|days|, i requires 0 <= i < |days| => Entry(KeyOf(key, days[i].date), days[i].value, days[i].date))
  }

  /** The distinct keys, in order of first appearance (a `Map`'s insertion order). */
  function GroupKeys(s: seq<Entry>): seq<int>
  {
    if s == [] then []
    else
      var p := GroupKeys(s[..|s| - 1]);
      if s[|s| - 1].key in p then p else p + [s[|s| - 1].key]
  }

  /** The total value of the entries with key `k`. */
  function GroupSum(s: seq<Entry>, k: int): int
  {
    if s == [] then 0
    else GroupSum(s[..|s| - 1], k) + (if s[|s| - 1].key == k then s[|s| - 1].value else 0)
  }

  /** Which date a group keeps: the earliest (weekly) or the first seen (monthly). */
  datatype DateRule = Earliest | FirstSeen

  /** The date group `k` keeps under `rule`. */
  function GroupDate(s: seq<Entry>, rule: DateRule, k: int): int
  {
    if s == [] then 0
    else
      var p := s[..|s| - 1];
      var x := s[|s| - 1];
      if x.key != k then GroupDate(p, rule, k)
      else if k !in GroupKeys(p) then x.date
      else if rule == Earliest then Min(GroupDate(p, rule, k), x.date)
      else GroupDate(p, rule, k)
  }

  /**
   * The `Map` both aggregations build: for each day (as an entry carrying its
   * key), look up the key and store the running sum and the kept date. Keys
   * are returned in insertion order, with each key's value and date.
   */
  method CollectGroups(entries: seq<Entry>, rule: DateRule)
    returns (order: seq<int>, groups: map<int, (int, int)>)
    ensures order == GroupKeys(entries)
    ensures forall k :: k in groups <==> k in order
    ensures forall k :: k in groups ==> groups[k] == (GroupSum(entries, k), GroupDate(entries, rule, k))
  {
    order := [];
    groups := map[];
    var i := 0;
    while i < |entries|
      invariant 0 <= i <= |entries|
      invariant order == GroupKeys(entries[..i])
      invariant forall k :: k in groups <==> k in order
      invariant forall k :: k in groups ==> groups[k] == (GroupSum(entries[..i], k), GroupDate(entries[..i], rule, k))
    {
      var entry := entries[i];
      var k := entry.key;
      assert entries[..i + 1][..i] == entries[..i];
      GroupStep(entries[..i + 1], rule);
      var existing := if k in groups then groups[k] else (0, entry.date);
      var date := if rule == Earliest then (if existing.1 < entry.date then existing.1 else entry.date) else existing.1;
      if k !in groups {
        GroupSumOfAbsentKey(entries[..i], k);
        order := order + [k];
      }
      groups := groups[k := (existing.0 + entry.value, date)];
      i := i + 1;
    }
    assert entries[..i] == entries;
  }

  /** What appending one entry does to each group. */
  lemma GroupStep(s: seq<Entry>, rule: DateRule)
    requires s != []
    ensures var p := s[..|s| - 1];
            var x := s[|s| - 1];
            (GroupKeys(s) == if x.key in GroupKeys(p) then GroupKeys(p) else GroupKeys(p) + [x.key]) &&
            (forall k :: k != x.key ==> GroupSum(s, k) == GroupSum(p, k) && GroupDate(s, rule, k) == GroupDate(p, rule, k)) &&
            GroupSum(s, x.key) == GroupSum(p, x.key) + x.value &&
            GroupDate(s, rule, x.key) ==
              (if x.key !in GroupKeys(p) then x.date
               else if rule == Earliest then Min(GroupDate(p, rule, x.key), x.date)
               else GroupDate(p, rule, x.key))
  {
  }

  /** Every key appears once among the group keys, and only keys of the entries do. */
  lemma {:induction false} GroupKeysDistinct(s: seq<Entry>)
    ensures forall i, j :: 0 <= i < j < |GroupKeys(s)| ==> GroupKeys(s)[i] != GroupKeys(s)[j]
    ensures forall i :: 0 <= i < |s| ==> s[i].key in GroupKeys(s)
    ensures forall k :: k in GroupKeys(s) ==> exists i :: 0 <= i < |s| && s[i].key == k
  {
    if s != [] {
      var p := s[..|s| - 1];
      GroupKeysDistinct(p);
      forall k | k in GroupKeys(s) ensures exists i :: 0 <= i < |s| && s[i].key == k {
        if k in GroupKeys(p) {
          var i :| 0 <= i < |p| && p[i].key == k;
          assert s[i] == p[i];
        } else {
          assert s[|s| - 1].key == k;
        }
      }
      forall i | 0 <= i < |s| ensures s[i].key in GroupKeys(s) {
        if i < |p| {
          assert s[i] == p[i];
        }
      }
    }
  }

  /** A key that appears nowhere has an empty group. */
  lemma {:induction false} GroupSumOfAbsentKey(s: seq<Entry>, k: int)
    requires k !in GroupKeys(s)
    ensures GroupSum(s, k) == 0
  {
    if s != [] {
      GroupSumOfAbsentKey(s[..|s| - 1], k);
    }
  }

  /**
   * Under `Earliest` a group keeps the minimum date of its entries; under
   * `FirstSeen`, the date of its first entry. Either way the date is that of
   * one of the group's own entries, at index `w`.
   */
  lemma {:induction false} GroupDateChosen(s: seq<Entry>, rule: DateRule, k: int) returns (w: nat)
    requires k in GroupKeys(s)
    ensures w < |s| && s[w].key == k && s[w].date == GroupDate(s, rule, k)
    ensures rule == Earliest ==> forall i :: 0 <= i < |s| && s[i].key == k ==> GroupDate(s, rule, k) <= s[i].date
    ensures rule == FirstSeen ==> forall i :: 0 <= i < w ==> s[i].key != k
  {
    var p := s[..|s| - 1];
    var x := s[|s| - 1];
    GroupKeysDistinct(p);
    if k in GroupKeys(p) {
      var v := GroupDateChosen(p, rule, k);
      if x.key == k && rule == Earliest && x.date < GroupDate(p, rule, k) {
        w := |s| - 1;
      } else {
        w := v;
      }
      forall i | 0 <= i < |s| - 1 ensures s[i] == p[i] { }
    } else {
      w := |s| - 1;
      forall i | 0 <= i < |s| - 1 ensures s[i].key != k {
        assert s[i] == p[i];
      }
    }
  }

  /** The total value of a sequence of entries. */
  function EntriesTotal(s: seq<Entry>): int
  {
    if s == [] then 0 else EntriesTotal(s[..|s| - 1]) + s[|s| - 1].value
  }

  /** The sum of the group totals of the listed keys. */
  function SumOfGroups(s: seq<Entry>, keys: seq<int>): int
  {
    if keys == [] then 0 else SumOfGroups(s, keys[..|keys| - 1]) + GroupSum(s, keys[|keys| - 1])
  }

  lemma {:induction false} SumOfGroupsStep(s: seq<Entry>, keys: seq<int>)
    requires s != []
    requires forall i, j :: 0 <= i < j < |keys| ==> keys[i] != keys[j]
    ensures SumOfGroups(s, keys) ==
            SumOfGroups(s[..|s| - 1], keys) + (if s[|s| - 1].key in keys then s[|s| - 1].value else 0)
  {
    if keys != [] {
      var front := keys[..|keys| - 1];
      SumOfGroupsStep(s, front);
      assert s[|s| - 1].key in keys <==> s[|s| - 1].key in front || s[|s| - 1].key == keys[|keys| - 1];
    }
  }

  /** Every entry's value lands in exactly one group: the groups add up to the total. */
  lemma {:induction false} GroupsConserveTotal(s: seq<Entry>)
    ensures SumOfGroups(s, GroupKeys(s)) == EntriesTotal(s)
  {
    if s != [] {
      var p := s[..|s| - 1];
      var x := s[|s| - 1];
      GroupsConserveTotal(p);
      GroupKeysDistinct(p);
      GroupKeysDistinct(s);
      SumOfGroupsStep(s, GroupKeys(p));
      if x.key !in GroupKeys(p) {
        GroupSumOfAbsentKey(p, x.key);
        assert GroupKeys(s)[..|GroupKeys(s)| - 1] == GroupKeys(p);
      }
    }
  }

  /** The weekly bars before the cut to the last 12. */
  function WeeklyPoints(days: seq<HeatmapDay>): seq<ChartDataPoint>
  {
    var e := Entries(days, ByWeek);
    var keys := GroupKeys(e);
    seq(|keys|, i requires 0 <= i < |keys| =>
      ChartDataPoint("W" + IntToString(keys[i]), GroupSum(e, keys[i]), GroupDate(e, Earliest, keys[i])))
  }

  /** `getWeeklyChartData(days)`: one bar per week number, then the last 12 of them. */
  method GetWeeklyChartData(days: seq<HeatmapDay>) returns (points: seq<ChartDataPoint>)
    ensures points == SliceFromEnd(WeeklyPoints(days), 12)
    ensures |points| <= 12
  {
    var order, weeks := CollectGroups(Entries(days, ByWeek), Earliest);
    var all: seq<ChartDataPoint> := [];
    var i := 0;
    while i < |order|
      invariant 0 <= i <= |order|
      invariant all == WeeklyPoints(days)[..i]
    {
      var weekNum := order[i];
      var data := weeks[weekNum];
      all := all + [ChartDataPoint("W" + IntToString(weekNum), data.0, data.1)];
      i := i + 1;
    }
    points := SliceFromEnd(all, 12);
  }

  /** Two entries with one key make one group: their sum, and the earlier date. */
  lemma OneKeyOneGroup(x: Entry, y: Entry)
    requires x.key == y.key
    ensures GroupKeys([x, y]) == [x.key]
    ensures GroupSum([x, y], x.key) == x.value + y.value
    ensures GroupDate([x, y], Earliest, x.key) == Min(x.date, y.date)
  {
    assert [x, y][..1] == [x];
    assert [x][..0] == [];
    assert GroupKeys([x]) == [x.key];
    assert GroupSum([x], x.key) == x.value;
    assert GroupDate([x], Earliest, x.key) == x.date;
  }

  /**
   * Weeks are keyed by number alone: two days with the same week number make
   * one weekly bar even when they lie in different years (January 4th is in
   * week 1 every year, see `WeekOneHoldsJanuaryFourth`).
   */
  lemma SameWeekNumberOneBar(a: HeatmapDay, b: HeatmapDay)
    requires GetWeekNumber(a.date) == GetWeekNumber(b.date)
    ensures WeeklyPoints([a, b]) ==
            [ChartDataPoint("W" + IntToString(GetWeekNumber(a.date)), a.value + b.value, Min(a.date, b.date))]
  {
    var e := Entries([a, b], ByWeek);
    assert e == [Entry(GetWeekNumber(a.date), a.value, a.date), Entry(GetWeekNumber(b.date), b.value, b.date)];
    OneKeyOneGroup(e[0], e[1]);
  }

  /** The monthly bars: one per (year, month), labelled with the month of the first date seen. */
  function MonthlyPoints(days: seq<HeatmapDay>): seq<ChartDataPoint>
  {
    var e := Entries(days, ByMonth);
    var keys := GroupKeys(e);
    seq(|keys|, i requires 0 <= i < |keys| =>
      var date := GroupDate(e, FirstSeen, keys[i]);
      ChartDataPoint(MonthName(date), GroupSum(e, keys[i]), date))
  }

  /** `getMonthlyChartData(days)`: one bar per `year-month` key, in order of first appearance. */
  method GetMonthlyChartData(days: seq<HeatmapDay>) returns (points: seq<ChartDataPoint>)
    ensures points == MonthlyPoints(days)
  {
    var order, months := CollectGroups(Entries(days, ByMonth), FirstSeen);
    points := [];
    var i := 0;
    while i < |order|
      invariant 0 <= i <= |order|
      invariant points == MonthlyPoints(days)[..i]
    {
      var data := months[order[i]];
      var date := data.1;
      points := points + [ChartDataPoint(MonthName(date), data.0, date)];
      i := i + 1;
    }
  }

  /** Each monthly bar is dated in its own month and labelled with that month's name. */
  lemma MonthlyLabelsMatchKeys(days: seq<HeatmapDay>, i: int)
    requires 0 <= i < |MonthlyPoints(days)|
    ensures var k := GroupKeys(Entries(days, ByMonth))[i];
            MonthIndexOf(MonthlyPoints(days)[i].date) == k &&
            MonthlyPoints(days)[i].caption == MONTH_NAMES[k % 12]
  {
    var e := Entries(days, ByMonth);
    var k := GroupKeys(e)[i];
    var w := GroupDateChosen(e, FirstSeen, k);
    var date := MonthlyPoints(days)[i].date;
    assert e[w].key == MonthIndexOf(days[w].date) && e[w].date == days[w].date;
    var d := FromDayNumber(date);
    MonthIndexParts(d.year, d.month);
  }

  lemma MonthIndexParts(y: int, m: int)
    requires 0 <= m < 12
    ensures MonthIndex(y, m) % 12 == m && MonthIndex(y, m) / 12 == y
  {
  }

  // ---------------------------------------------------------------------------
  // formatDuration
  // ---------------------------------------------------------------------------

  /**
   * `formatDuration(minutes)` on whole minutes: "{m}m" below an hour
   * (negative values included), otherwise "{h}h {m}m", dropping a zero
   * minutes part. `Math.round` leaves whole minutes unchanged.
   */
  function FormatDuration(minutes: int): (r: string)
    ensures |r| >= 2
    ensures r[|r| - 1] == 'h' <==> minutes >= 60 && minutes % 60 == 0
    ensures r[|r| - 1] == 'm' <==> !(minutes >= 60 && minutes % 60 == 0)
  {
    if minutes < 60 then IntToString(minutes) + "m"
    else
      var hours := minutes / 60;
      var mins := JsRem(minutes, 60);
      if mins > 0 then IntToString(hours) + "h " + IntToString(mins) + "m"
      else IntToString(hours) + "h"
  }

  /** The first position of `c` in `s`, if any. */
  function IndexOf(s: string, c: char): (r: Option<nat>)
    ensures r.None? <==> c !in s
    ensures r.Some? ==> r.value < |s| && s[r.value] == c && c !in s[..r.value]
  {
    if s == [] then None
    else if s[0] == c then Some(0)
    else
      match IndexOf(s[1..], c)
      case None => None
      case Some(j) => assert s[..j + 1] == [s[0]] + s[1..][..j]; Some(j + 1)
  }

  /** Reads a duration label back into minutes: "{m}m", "{h}h" or "{h}h {m}m". */
  function ParseDuration(s: string): Option<int>
  {
    if |s| >= 2 && s[|s| - 1] == 'h' then
      match ParseNumber(s[..|s| - 1])
      case Some(h) => Some(60 * h)
      case None => None
    else if |s| >= 2 && s[|s| - 1] == 'm' then ParseMinutesPart(s[..|s| - 1])
    else None
  }

  /** A decimal integer, or nothing. */
  function ParseNumber(s: string): Option<int>
  {
    match ParseDecimal(s)
    case Int(v) => Some(v)
    case NaN => None
  }

  /** What precedes the final 'm': minutes alone, or "{h}h {m}". */
  function ParseMinutesPart(body: string): Option<int>
  {
    match IndexOf(body, 'h')
    case None => ParseNumber(body)
    case Some(j) =>
      if j + 1 < |body| && body[j + 1] == ' ' then
        match (ParseNumber(body[..j]), ParseNumber(body[j + 2..]))
        case (Some(h), Some(m)) => Some(60 * h + m)
        case _ => None
      else None
  }

  lemma ParseNumberOfInt(i: int)
    ensures ParseNumber(IntToString(i)) == Some(i)
  {
    IntToStringRoundTrip(i);
  }

  /** A printed integer is a sign and digits: never an 'h'. */
  lemma NoHourMarkInNumber(x: int)
    ensures 'h' !in IntToString(x)
  {
    var t := IntToString(x);
    if x < 0 {
      assert forall i :: 1 <= i < |t| ==> t[i] == NatToString(-x)[i - 1];
    }
  }

  /** The first 'h' of a + "h" + b is right after a when a has none. */
  lemma IndexAfterPrefix(a: string, b: string)
    requires 'h' !in a
    ensures IndexOf(a + "h" + b, 'h') == Some(|a|)
  {
    var s := a + "h" + b;
    assert s[|a|] == 'h';
  }

  /** Every duration label reads back as the minutes it was made from. */
  lemma FormatDurationRoundTrip(minutes: int)
    ensures ParseDuration(FormatDuration(minutes)) == Some(minutes)
  {
    if minutes < 60 {
      MinutesRoundTrip(minutes);
    } else if minutes % 60 == 0 {
      HoursRoundTrip(minutes);
    } else {
      HoursAndMinutesRoundTrip(minutes);
    }
  }

  lemma MinutesRoundTrip(minutes: int)
    requires minutes < 60
    ensures ParseDuration(FormatDuration(minutes)) == Some(minutes)
  {
    var r := FormatDuration(minutes);
    var a := IntToString(minutes);
    assert r[|r| - 1] == 'm' && r[..|r| - 1] == a;
    NoHourMarkInNumber(minutes);
    ParseNumberOfInt(minutes);
  }

  lemma HoursRoundTrip(minutes: int)
    requires minutes >= 60 && minutes % 60 == 0
    ensures ParseDuration(FormatDuration(minutes)) == Some(minutes)
  {
    var r := FormatDuration(minutes);
    var a := IntToString(minutes / 60);
    assert r == a + "h";
    assert r[..|r| - 1] == a;
    ParseNumberOfInt(minutes / 60);
  }

  lemma HoursAndMinutesRoundTrip(minutes: int)
    requires minutes >= 60 && minutes % 60 != 0
    ensures ParseDuration(FormatDuration(minutes)) == Some(minutes)
  {
    assert FormatDuration(minutes) == IntToString(minutes / 60) + "h " + IntToString(minutes % 60) + "m";
    ParseHoursAndMinutes(minutes / 60, minutes % 60);
  }

  /** "{h}h {m}m" reads back as 60h + m. */
  lemma ParseHoursAndMinutes(h: int, m: int)
    ensures ParseDuration(IntToString(h) + "h " + IntToString(m) + "m") == Some(60 * h + m)
  {
    var a := IntToString(h);
    var b := IntToString(m);
    var body := a + "h " + b;
    var r := body + "m";
    assert r == a + "h " + b + "m";
    assert r[|r| - 1] == 'm' && r[..|r| - 1] == body;
    NoHourMarkInNumber(h);
    SplitAtHourMark(a, b);
    ParseNumberOfInt(h);
    ParseNumberOfInt(m);
  }

  /** In a + "h " + b, with no 'h' in a, the first 'h' is right after a, followed by a space and b. */
  lemma SplitAtHourMark(a: string, b: string)
    requires 'h' !in a
    ensures var body := a + "h " + b;
            IndexOf(body, 'h') == Some(|a|) && |a| + 1 < |body| && body[|a| + 1] == ' ' &&
            body[..|a|] == a && body[|a| + 2..] == b
  {
    var body := a + "h " + b;
    assert body == a + "h" + (" " + b);
    IndexAfterPrefix(a, " " + b);
  }

  /** The two readings of a label of an hour or more: whole hours and leftover minutes. */
  lemma FormatDurationOfHours(minutes: int)
    requires minutes >= 60
    ensures minutes % 60 == 0 ==> FormatDuration(minutes) == IntToString(minutes / 60) + "h"
    ensures minutes % 60 != 0 ==>
              FormatDuration(minutes) == IntToString(minutes / 60) + "h " + IntToString(minutes % 60) + "m"
  {
  }

  // ---------------------------------------------------------------------------
  // groupByPeriod
  // ---------------------------------------------------------------------------

  datatype GroupingPeriod = Daily | WeeklyGroups | MonthlyGroups

  /** `groupByPeriod(days, period)`: the last 7 days, the weekly bars or the monthly bars. */
  method GroupByPeriod(days: seq<HeatmapDay>, period: GroupingPeriod) returns (points: seq<ChartDataPoint>)
    ensures period == Daily ==> points == GetDailyChartData(days, 7)
    ensures period == WeeklyGroups ==> points == SliceFromEnd(WeeklyPoints(days), 12)
    ensures period == MonthlyGroups ==> points == MonthlyPoints(days)
  {
    match period
    case Daily => points := GetDailyChartData(days, 7);
    case WeeklyGroups => points := GetWeeklyChartData(days);
    case MonthlyGroups => points := GetMonthlyChartData(days);
  }
}
