/**
 * `HourlyActivityChart`: today's work sessions counted per completion hour,
 * the hour labels, the sampling of every k-th hour and the bar scale.
 *
 * "Today" and each session's UTC day and local completion hour are
 * parameters: the model has no clock and no time zone.
 */
module HourlyActivity {
  import opened JsBuiltins

  const DEFAULT_START_HOUR: int := 6
  const DEFAULT_END_HOUR: int := 23
  const DEFAULT_SAMPLE_INTERVAL: int := 3

  // ---------------------------------------------------------------------------
  // formatHour
  // ---------------------------------------------------------------------------

  /** `formatHour(hour)`: 12 is "12PM", earlier hours "{h}AM" (so midnight is "0AM"), later "{h-12}PM". */
  function FormatHour(hour: int): (r: string)
    ensures |r| >= 3
    ensures r[|r| - 2..] == "AM" <==> hour < 12
    ensures r[|r| - 2..] == "PM" <==> hour >= 12
  {
    if hour == 12 then "12PM"
    else if hour < 12 then IntToString(hour) + "AM"
    else IntToString(hour - 12) + "PM"
  }

  /** Reads an hour label back: "{n}AM" is n, "12PM" is 12, and "{n}PM" is n + 12 otherwise. */
  function ParseHour(s: string): Option<int>
  {
    if |s| >= 3 && s[|s| - 2..] == "AM" then
      match ParseDecimal(s[..|s| - 2])
      case Int(n) => Some(n)
      case NaN => None
    else if |s| >= 3 && s[|s| - 2..] == "PM" then
      match ParseDecimal(s[..|s| - 2])
      case Int(n) => Some(if n == 12 then 12 else n + 12)
      case NaN => None
    else None
  }

  /** Every hour of the clock (0 to 23) has its own label, which reads back as that hour. */
  lemma FormatHourRoundTrip(hour: int)
    requires hour <= 23
    ensures ParseHour(FormatHour(hour)) == Some(hour)
  {
    var s := FormatHour(hour);
    if hour == 12 {
      assert DigitChar(1) == '1' && DigitChar(2) == '2';
      assert NatToString(12) == NatToString(1) + [DigitChar(2)] == "12";
      assert s[..|s| - 2] == IntToString(12);
      IntToStringRoundTrip(12);
    } else if hour < 12 {
      assert s[..|s| - 2] == IntToString(hour) && s[|s| - 2..] == "AM";
      IntToStringRoundTrip(hour);
    } else {
      assert s[..|s| - 2] == IntToString(hour - 12) && s[|s| - 2..] == "PM";
      IntToStringRoundTrip(hour - 12);
    }
  }

  /** Midnight reads "0AM", not "12AM". */
  lemma MidnightLabel()
    ensures FormatHour(0) == "0AM"
  {
    NatToStringSingleDigit(0);
  }

  // ---------------------------------------------------------------------------
  // generateHourlyActivity
  // ---------------------------------------------------------------------------

  /** A completed session: the UTC day of its end, the local hour of its end, and its phase. */
  datatype Session = Session(endDay: int, endHour: int, phase: string)

  /** One bar's data: an hour, the sessions completed in it, and its label. */
  datatype HourBucket = HourBucket(hour: int, sessions: int, displayTime: string)

  /** A session counts towards hour `hour` when it is a work session that ended today in that hour. */
  predicate CountsAt(s: Session, today: int, hour: int)
  {
    s.endDay == today && s.phase == "work" && s.endHour == hour
  }

  /** The number of sessions counted towards `hour`. */
  function CountAt(sessions: seq<Session>, today: int, hour: int): nat
  {
    if sessions == [] then 0
    else CountAt(sessions[..|sessions| - 1], today, hour) + (if CountsAt(sessions[|sessions| - 1], today, hour) then 1 else 0)
  }

  /** A session is counted at all when it is a work session that ended today within the shown hours. */
  predicate Qualifies(s: Session, today: int, startHour: int, endHour: int)
  {
    s.endDay == today && s.phase == "work" && startHour <= s.endHour <= endHour
  }

  function CountQualifying(sessions: seq<Session>, today: int, startHour: int, endHour: int): nat
  {
    if sessions == [] then 0
    else CountQualifying(sessions[..|sessions| - 1], today, startHour, endHour) +
         (if Qualifies(sessions[|sessions| - 1], today, startHour, endHour) then 1 else 0)
  }

  /** The buckets: one per hour from `startHour` to `endHour`, ascending, each with its count. */
  function HourlyBuckets(sessions: seq<Session>, today: int, startHour: int, endHour: int): seq<HourBucket>
  {
    seq(Max(endHour - startHour + 1, 0), i =>
      HourBucket(startHour + i, CountAt(sessions, today, startHour + i), FormatHour(startHour + i)))
  }

  /** `hours.findIndex(h => h.hour === hour)`: the first bucket of that hour, or -1. */
  function FindHourIndex(hours: seq<HourBucket>, hour: int): (r: int)
    ensures -1 <= r < |hours|
    ensures r == -1 <==> forall j :: 0 <= j < |hours| ==> hours[j].hour != hour
    ensures r >= 0 ==> hours[r].hour == hour && forall j :: 0 <= j < r ==> hours[j].hour != hour
  {
    if hours == [] then -1
    else if hours[0].hour == hour then 0
    else
      var r := FindHourIndex(hours[1..], hour);
      if r == -1 then -1 else r + 1
  }

  /**
   * `generateHourlyActivity`: push an empty bucket per hour, then for each
   * of today's work sessions that ended within the shown hours, find the
   * bucket of its hour and increment it in place.
   */
  method GenerateHourlyActivity(sessions: seq<Session>, startHour: int, endHour: int, today: int)
    returns (hours: seq<HourBucket>)
    ensures hours == HourlyBuckets(sessions, today, startHour, endHour)
  {
    hours := [];
    var hour := startHour;
    while hour <= endHour
      invariant startHour <= hour <= Max(endHour + 1, startHour)
      invariant hours == HourlyBuckets([], today, startHour, hour - 1)
      decreases endHour - hour
    {
      EmptyBucketsExtend(today, startHour, hour);
      hours := hours + [HourBucket(hour, 0, FormatHour(hour))];
      hour := hour + 1;
    }

    var i := 0;
    while i < |sessions|
      invariant 0 <= i <= |sessions|
      invariant hours == HourlyBuckets(sessions[..i], today, startHour, endHour)
    {
      var session := sessions[i];
      CountingStep(sessions, today, startHour, endHour, i);
      if session.endDay == today && session.phase == "work" {
        var completionHour := session.endHour;
        if completionHour >= startHour && completionHour <= endHour {
          var hourIndex := FindHourIndex(hours, completionHour);
          if hourIndex != -1 {
            hours := hours[hourIndex := hours[hourIndex].(sessions := hours[hourIndex].sessions + 1)];
          }
        }
      }
      i := i + 1;
    }
    assert sessions[..i] == sessions;
  }

  /**
   * The counting loop's step for session i: a qualifying session's bucket is
   * found, and incrementing it gives the buckets of the first i + 1 sessions;
   * any other session leaves them as they are.
   */
  lemma CountingStep(sessions: seq<Session>, today: int, startHour: int, endHour: int, i: nat)
    requires i < |sessions|
    ensures var hours := HourlyBuckets(sessions[..i], today, startHour, endHour);
            var s := sessions[i];
            var k := FindHourIndex(hours, s.endHour);
            if Qualifies(s, today, startHour, endHour) then
              k != -1 &&
              HourlyBuckets(sessions[..i + 1], today, startHour, endHour) ==
                hours[k := hours[k].(sessions := hours[k].sessions + 1)]
            else HourlyBuckets(sessions[..i + 1], today, startHour, endHour) == hours
  {
    BucketsStep(sessions[..i + 1], today, startHour, endHour);
    assert sessions[..i + 1][..i] == sessions[..i];
    var s := sessions[i];
    if Qualifies(s, today, startHour, endHour) {
      var hours := HourlyBuckets(sessions[..i], today, startHour, endHour);
      assert hours[s.endHour - startHour].hour == s.endHour;
    }
  }

  /**
   * One more session increments exactly the bucket of its completion hour
   * when it qualifies, and changes nothing otherwise.
   */
  lemma BucketsStep(sessions: seq<Session>, today: int, startHour: int, endHour: int)
    requires sessions != []
    ensures var before := HourlyBuckets(sessions[..|sessions| - 1], today, startHour, endHour);
            var s := sessions[|sessions| - 1];
            HourlyBuckets(sessions, today, startHour, endHour) ==
              if Qualifies(s, today, startHour, endHour) then
                before[s.endHour - startHour := before[s.endHour - startHour].(sessions := before[s.endHour - startHour].sessions + 1)]
              else before
  {
    var front := sessions[..|sessions| - 1];
    var s := sessions[|sessions| - 1];
    var before := HourlyBuckets(front, today, startHour, endHour);
    var after := HourlyBuckets(sessions, today, startHour, endHour);
    var expected := if Qualifies(s, today, startHour, endHour) then
                      before[s.endHour - startHour := before[s.endHour - startHour].(sessions := before[s.endHour - startHour].sessions + 1)]
                    else before;
    assert |after| == |expected|;
    forall i | 0 <= i < |after|
      ensures after[i] == expected[i]
    {
      assert CountAt(sessions, today, startHour + i) ==
             CountAt(front, today, startHour + i) + (if CountsAt(s, today, startHour + i) then 1 else 0);
    }
  }

  /** The total of the bucket counts. */
  function SumSessions(hours: seq<HourBucket>): int
  {
    if hours == [] then 0 else SumSessions(hours[..|hours| - 1]) + hours[|hours| - 1].sessions
  }

  lemma {:induction false} SumAfterIncrement(hours: seq<HourBucket>, k: int)
    requires 0 <= k < |hours|
    ensures SumSessions(hours[k := hours[k].(sessions := hours[k].sessions + 1)]) == SumSessions(hours) + 1
  {
    var after := hours[k := hours[k].(sessions := hours[k].sessions + 1)];
    if k < |hours| - 1 {
      SumAfterIncrement(hours[..|hours| - 1], k);
      assert after[..|after| - 1] == hours[..|hours| - 1][k := hours[k].(sessions := hours[k].sessions + 1)];
    } else {
      assert after[..|after| - 1] == hours[..|hours| - 1];
    }
  }

  lemma {:induction false} EmptyBucketsSumToZero(today: int, startHour: int, endHour: int)
    ensures SumSessions(HourlyBuckets([], today, startHour, endHour)) == 0
    decreases endHour - startHour
  {
    var b := HourlyBuckets([], today, startHour, endHour);
    if b != [] {
      EmptyBucketsSumToZero(today, startHour, endHour - 1);
      EmptyBucketsExtend(today, startHour, endHour);
      assert b[..|b| - 1] == HourlyBuckets([], today, startHour, endHour - 1);
    }
  }

  /** Without sessions, one more hour adds one empty bucket at the end. */
  lemma EmptyBucketsExtend(today: int, startHour: int, hour: int)
    requires startHour <= hour
    ensures HourlyBuckets([], today, startHour, hour) ==
            HourlyBuckets([], today, startHour, hour - 1) + [HourBucket(hour, 0, FormatHour(hour))]
  {
    var longer := HourlyBuckets([], today, startHour, hour);
    var shorter := HourlyBuckets([], today, startHour, hour - 1);
    assert |longer| == |shorter| + 1;
    forall i | 0 <= i < |longer|
      ensures longer[i] == (shorter + [HourBucket(hour, 0, FormatHour(hour))])[i]
    {
      if i < |shorter| {
        assert longer[i] == HourBucket(startHour + i, 0, FormatHour(startHour + i)) == shorter[i];
      } else {
        assert startHour + i == hour;
      }
    }
  }

  /** Every qualifying session is counted exactly once: the buckets add up to their number. */
  lemma {:induction false} BucketsCountQualifying(sessions: seq<Session>, today: int, startHour: int, endHour: int)
    ensures SumSessions(HourlyBuckets(sessions, today, startHour, endHour)) ==
            CountQualifying(sessions, today, startHour, endHour)
  {
    if sessions == [] {
      EmptyBucketsSumToZero(today, startHour, endHour);
    } else {
      var front := sessions[..|sessions| - 1];
      var s := sessions[|sessions| - 1];
      BucketsCountQualifying(front, today, startHour, endHour);
      BucketsStep(sessions, today, startHour, endHour);
      if Qualifies(s, today, startHour, endHour) {
        SumAfterIncrement(HourlyBuckets(front, today, startHour, endHour), s.endHour - startHour);
      }
    }
  }

  // ---------------------------------------------------------------------------
  // Sampling, scale and bars
  // ---------------------------------------------------------------------------

  /**
   * `index % sampleInterval === 0` for an index >= 0: JavaScript's `%`
   * takes the sign of the dividend, so a negative interval acts like its
   * absolute value, and `% 0` is NaN, which keeps nothing.
   */
  predicate IndexKept(index: nat, interval: int)
  {
    interval != 0 && index % Stride(interval) == 0
  }

  /** `xs.filter((_, index) => index % interval === 0)` restricted to the first n elements. */
  function SampleUpTo<T>(xs: seq<T>, interval: int, n: nat): (r: seq<T>)
    requires n <= |xs|
    ensures |r| <= n
    ensures interval != 0 && n > 0 ==> |r| >= 1 && r[0] == xs[0]
  {
    if n == 0 then []
    else SampleUpTo(xs, interval, n - 1) + (if IndexKept(n - 1, interval) then [xs[n - 1]] else [])
  }

  /** The sampled buckets: never more than there are, and the first one unless the interval is 0. */
  function Sample<T>(xs: seq<T>, interval: int): (r: seq<T>)
    ensures |r| <= |xs|
    ensures interval != 0 && xs != [] ==> |r| >= 1 && r[0] == xs[0]
  {
    SampleUpTo(xs, interval, |xs|)
  }

  lemma MulMonotonic(a: int, b: int, m: int)
    requires m > 0 && a <= b
    ensures a * m <= b * m
  {
    assert b * m == a * m + (b - a) * m;
  }

  /** The quotient is the q whose multiple of m brackets x. */
  lemma DivUnique(x: int, m: int, q: int)
    requires m > 0 && q * m <= x < q * m + m
    ensures x / m == q
  {
    var d := x / m;
    assert d * m <= x < d * m + m;
    if d < q {
      MulMonotonic(d + 1, q, m);
    } else if d > q {
      MulMonotonic(q + 1, d, m);
    }
  }

  /** ceil(n / m) grows by one exactly when n is a multiple of m. */
  lemma CeilStep(n: nat, m: int)
    requires m > 0
    ensures (n + 1 + m - 1) / m == (n + m - 1) / m + (if n % m == 0 then 1 else 0)
    ensures n % m == 0 ==> (n + m - 1) / m == n / m
  {
    var q, r := n / m, n % m;
    assert n == q * m + r;
    assert (q + 1) * m == q * m + m;
    DivUnique(n + m, m, q + 1);
    if r == 0 {
      DivUnique(n + m - 1, m, q);
    } else {
      DivUnique(n + m - 1, m, q + 1);
    }
  }

  /** The distance between kept indices: the interval's absolute value. */
  function Stride(interval: int): nat
  {
    if interval < 0 then -interval else interval
  }

  lemma {:induction false} SampleUpToClosedForm<T>(xs: seq<T>, interval: int, n: nat)
    requires interval != 0 && n <= |xs|
    ensures |SampleUpTo(xs, interval, n)| == (n + Stride(interval) - 1) / Stride(interval)
    ensures forall j :: 0 <= j < |SampleUpTo(xs, interval, n)| ==>
              j * Stride(interval) < n && SampleUpTo(xs, interval, n)[j] == xs[j * Stride(interval)]
  {
    if n > 0 {
      SampleUpToClosedForm(xs, interval, n - 1);
      CeilStep(n - 1, Stride(interval));
      if IndexKept(n - 1, interval) {
        SampleKeptStep(xs, interval, n);
      } else {
        assert SampleUpTo(xs, interval, n) == SampleUpTo(xs, interval, n - 1);
      }
    }
  }

  /** When index n - 1 is kept, it is the multiple of the stride that comes next. */
  lemma SampleKeptStep<T>(xs: seq<T>, interval: int, n: nat)
    requires interval != 0 && 0 < n <= |xs| && IndexKept(n - 1, interval)
    requires |SampleUpTo(xs, interval, n - 1)| == (n - 1) / Stride(interval)
    requires forall j :: 0 <= j < |SampleUpTo(xs, interval, n - 1)| ==>
               j * Stride(interval) < n - 1 && SampleUpTo(xs, interval, n - 1)[j] == xs[j * Stride(interval)]
    ensures forall j :: 0 <= j < |SampleUpTo(xs, interval, n)| ==>
              j * Stride(interval) < n && SampleUpTo(xs, interval, n)[j] == xs[j * Stride(interval)]
  {
    var m := Stride(interval);
    var prev := SampleUpTo(xs, interval, n - 1);
    var r := SampleUpTo(xs, interval, n);
    assert r == prev + [xs[n - 1]];
    var q := (n - 1) / m;
    assert q * m == n - 1;
    forall j | 0 <= j < |r|
      ensures j * m < n && r[j] == xs[j * m]
    {
      if j == |prev| {
        assert j == q;
      }
    }
  }

  /**
   * The sampled buckets are those at indices 0, k, 2k, ... (k the absolute
   * interval): ceil(n / k) of them; an interval of 0 keeps none.
   */
  lemma SampleClosedForm<T>(xs: seq<T>, interval: int)
    ensures interval == 0 ==> Sample(xs, interval) == []
    ensures interval != 0 ==> |Sample(xs, interval)| == (|xs| + Stride(interval) - 1) / Stride(interval)
    ensures interval != 0 ==>
              forall j :: 0 <= j < |Sample(xs, interval)| ==>
                j * Stride(interval) < |xs| && Sample(xs, interval)[j] == xs[j * Stride(interval)]
  {
    if interval == 0 {
      NothingKept(xs, |xs|);
    } else {
      SampleUpToClosedForm(xs, interval, |xs|);
    }
  }

  lemma {:induction false} NothingKept<T>(xs: seq<T>, n: nat)
    requires n <= |xs|
    ensures SampleUpTo(xs, 0, n) == []
  {
    if n > 0 {
      NothingKept(xs, n - 1);
    }
  }

  /** `Math.max(...hourlyData.map(h => h.sessions), 1)`: the bar scale, at least 1. */
  function MaxSessions(hours: seq<HourBucket>): (m: int)
    ensures m >= 1
    ensures forall i :: 0 <= i < |hours| ==> hours[i].sessions <= m
    ensures m == 1 || exists i :: 0 <= i < |hours| && hours[i].sessions == m
  {
    var counts := seq(|hours|, i requires 0 <= i < |hours| => hours[i].sessions);
    assert forall i :: 0 <= i < |hours| ==> counts[i] == hours[i].sessions;
    MaxWithFloor(counts, 1)
  }

  /** A bar: its height, its label and what a press reports, `(hour, sessions)`. */
  datatype HourBar = HourBar(value: int, caption: string, press: (int, int))

  /** The bar drawn for a bucket. */
  function BarOf(bucket: HourBucket): HourBar
  {
    HourBar(bucket.sessions, bucket.displayTime, (bucket.hour, bucket.sessions))
  }

  /**
   * `chartData`: one bar per sampled bucket. With an interval k other than 0
   * there are ceil(n / |k|) bars for n buckets and bar j shows bucket j * |k|;
   * with 0 there are none.
   */
  function ChartData(hours: seq<HourBucket>, sampleInterval: int): (r: seq<HourBar>)
    ensures |r| <= |hours|
    ensures sampleInterval == 0 ==> r == []
    ensures sampleInterval != 0 ==> |r| == (|hours| + Stride(sampleInterval) - 1) / Stride(sampleInterval)
    ensures sampleInterval != 0 ==>
              forall j :: 0 <= j < |r| ==>
                j * Stride(sampleInterval) < |hours| && r[j] == BarOf(hours[j * Stride(sampleInterval)])
  {
    SampleClosedForm(hours, sampleInterval);
    var sampled := Sample(hours, sampleInterval);
    seq(|sampled|, j requires 0 <= j < |sampled| => BarOf(sampled[j]))
  }

  /**
   * The chart with its default props (hours 6 to 23, every third one shown):
   * 18 buckets and six bars, for the hours 6, 9, ..., 21, each with its label
   * (see DefaultHourLabels) and the count of its hour.
   */
  lemma DefaultChart(sessions: seq<Session>, today: int)
    ensures |HourlyBuckets(sessions, today, DEFAULT_START_HOUR, DEFAULT_END_HOUR)| == 18
    ensures var bars := ChartData(HourlyBuckets(sessions, today, DEFAULT_START_HOUR, DEFAULT_END_HOUR),
                                  DEFAULT_SAMPLE_INTERVAL);
            |bars| == 6 &&
            forall j :: 0 <= j < 6 ==>
              bars[j].caption == FormatHour(6 + 3 * j) && bars[j].value == CountAt(sessions, today, 6 + 3 * j)
  {
    var hours := HourlyBuckets(sessions, today, DEFAULT_START_HOUR, DEFAULT_END_HOUR);
    assert |hours| == 18;
    EveryThirdOfEighteen(hours);
    var bars := ChartData(hours, DEFAULT_SAMPLE_INTERVAL);
    forall j | 0 <= j < 6
      ensures bars[j].caption == FormatHour(6 + 3 * j) && bars[j].value == CountAt(sessions, today, 6 + 3 * j)
    {
      assert bars[j] == BarOf(hours[3 * j]);
    }
  }

  /** Sampling 18 buckets with interval 3 keeps buckets 0, 3, ..., 15. */
  lemma EveryThirdOfEighteen(hours: seq<HourBucket>)
    requires |hours| == 18
    ensures |ChartData(hours, DEFAULT_SAMPLE_INTERVAL)| == 6
    ensures forall j :: 0 <= j < 6 ==> ChartData(hours, DEFAULT_SAMPLE_INTERVAL)[j] == BarOf(hours[3 * j])
  {
    assert Stride(DEFAULT_SAMPLE_INTERVAL) == 3;
  }

  /** The labels of the default chart: 6AM, 9AM, 12PM, 3PM, 6PM and 9PM. */
  lemma DefaultHourLabels()
    ensures FormatHour(6) == "6AM" && FormatHour(9) == "9AM" && FormatHour(12) == "12PM"
    ensures FormatHour(15) == "3PM" && FormatHour(18) == "6PM" && FormatHour(21) == "9PM"
  {
    NatToStringSingleDigit(6);
    NatToStringSingleDigit(9);
    NatToStringSingleDigit(3);
  }

  /**
   * With a positive interval k, bar j shows hour `startHour + j*k`: its label
   * and its count of today's work sessions, which a press reports too.
   */
  lemma ChartBars(sessions: seq<Session>, today: int, startHour: int, endHour: int, k: int, j: int)
    requires k > 0
    requires 0 <= j < |ChartData(HourlyBuckets(sessions, today, startHour, endHour), k)|
    ensures var hour := startHour + j * k;
            var count := CountAt(sessions, today, hour);
            hour <= endHour &&
            ChartData(HourlyBuckets(sessions, today, startHour, endHour), k)[j] ==
              HourBar(count, FormatHour(hour), (hour, count))
  {
    SampleClosedForm(HourlyBuckets(sessions, today, startHour, endHour), k);
  }
}
