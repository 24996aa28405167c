/**
 * `MonthlyChart`: the per-month aggregation behind its bars and the total
 * shown under them.
 */
module MonthlyChart {
  import opened ChartTypes
  import opened Calendar
  import opened ChartHelpers

  /**
   * The `year-month` key of the chart's map, kept as the pair it is printed
   * from (the printed form `${year}-${index}` is injective on such pairs).
   */
  type MonthKey = (int, int)

  function KeyOfMonth(month: HeatmapMonth): MonthKey
  {
    (month.year, month.index)
  }

  /** The key of a day: the year and 0-based month of its date. */
  function KeyOfDay(day: HeatmapDay): MonthKey
  {
    var d := FromDayNumber(day.date);
    (d.year, d.month)
  }

  /** A day as the aggregation sees it: its key and its value. */
  datatype KeyedValue = KeyedValue(key: MonthKey, value: int)

  function Keyed(days: seq<HeatmapDay>): seq<KeyedValue>
  {
    seq(|days|, i requires 0 <= i < |days| => KeyedValue(KeyOfDay(days[i]), days[i].value))
  }

  /** The total value under `key`. */
  function MonthTotal(kv: seq<KeyedValue>, key: MonthKey): int
  {
    if kv == [] then 0
    else MonthTotal(kv[..|kv| - 1], key) + (if kv[|kv| - 1].key == key then kv[|kv| - 1].value else 0)
  }

  /** A bar: its value, its label (the month's name) and the month it reports when pressed. */
  datatype MonthBar = MonthBar(value: int, caption: string, month: HeatmapMonth)

  /** The bars: one per listed month, in the listed order, each with the total of that month's days. */
  function MonthlyBars(months: seq<HeatmapMonth>, days: seq<HeatmapDay>): seq<MonthBar>
  {
    var kv := Keyed(days);
    seq(|months|, i requires 0 <= i < |months| =>
      MonthBar(MonthTotal(kv, KeyOfMonth(months[i])), months[i].name, months[i]))
  }

  /**
   * `monthlyData`: seed every listed month with 0, add each day's value under
   * its own key (creating keys for unlisted months too), then read the listed
   * months back in order. Each day's key is taken from its date up front.
   */
  method MonthlyData(months: seq<HeatmapMonth>, days: seq<HeatmapDay>) returns (bars: seq<MonthBar>)
    ensures bars == MonthlyBars(months, days)
  {
    var monthsMap: map<MonthKey, int> := map[];
    var i := 0;
    while i < |months|
      invariant 0 <= i <= |months|
      invariant forall j :: 0 <= j < i ==> KeyOfMonth(months[j]) in monthsMap
      invariant forall key :: key in monthsMap ==> monthsMap[key] == 0
    {
      monthsMap := monthsMap[KeyOfMonth(months[i]) := 0];
      i := i + 1;
    }

    var kv := Keyed(days);
    monthsMap := AddValues(monthsMap, kv);

    bars := [];
    i := 0;
    while i < |months|
      invariant 0 <= i <= |months|
      invariant bars == MonthlyBars(months, days)[..i]
    {
      var key := KeyOfMonth(months[i]);
      var value := if key in monthsMap then monthsMap[key] else 0;
      bars := bars + [MonthBar(value, months[i].name, months[i])];
      i := i + 1;
    }
  }

  /** The `days.forEach` pass: add every value to the entry of its key, `get(key) || 0` for a new key. */
  method AddValues(seeded: map<MonthKey, int>, kv: seq<KeyedValue>) returns (monthsMap: map<MonthKey, int>)
    requires forall key :: key in seeded ==> seeded[key] == 0
    ensures seeded.Keys <= monthsMap.Keys
    ensures forall key :: key in monthsMap ==> monthsMap[key] == MonthTotal(kv, key)
  {
    monthsMap := seeded;
    var i := 0;
    while i < |kv|
      invariant 0 <= i <= |kv|
      invariant seeded.Keys <= monthsMap.Keys
      invariant forall j :: 0 <= j < i ==> kv[j].key in monthsMap
      invariant forall key :: key in monthsMap ==> monthsMap[key] == MonthTotal(kv[..i], key)
    {
      var key := kv[i].key;
      var current := if key in monthsMap then monthsMap[key] else 0;
      assert kv[..i + 1][..i] == kv[..i];
      if key !in monthsMap {
        UnseenKeyHasNoTotal(kv[..i], key);
      }
      monthsMap := monthsMap[key := current + kv[i].value];
      i := i + 1;
    }
    assert kv[..i] == kv;
  }

  /** A key no entry carries has a total of 0. */
  lemma {:induction false} UnseenKeyHasNoTotal(kv: seq<KeyedValue>, key: MonthKey)
    requires forall j :: 0 <= j < |kv| ==> kv[j].key != key
    ensures MonthTotal(kv, key) == 0
  {
    if kv != [] {
      UnseenKeyHasNoTotal(kv[..|kv| - 1], key);
    }
  }

  /**
   * The total displayed under the chart: the sum of the bar values. With no
   * negative value, no bar exceeds it and it is not negative.
   */
  function DisplayedTotal(bars: seq<MonthBar>): (total: int)
    ensures bars == [] ==> total == 0
    ensures (forall i :: 0 <= i < |bars| ==> bars[i].value >= 0) ==>
              total >= 0 && forall i :: 0 <= i < |bars| ==> bars[i].value <= total
  {
    if bars == [] then 0 else DisplayedTotal(bars[..|bars| - 1]) + bars[|bars| - 1].value
  }

  /** A day of a month that is not listed changes no bar. */
  lemma UnlistedDayIgnored(months: seq<HeatmapMonth>, days: seq<HeatmapDay>, day: HeatmapDay)
    requires forall j :: 0 <= j < |months| ==> KeyOfMonth(months[j]) != KeyOfDay(day)
    ensures MonthlyBars(months, days + [day]) == MonthlyBars(months, days)
  {
    var kv := Keyed(days + [day]);
    assert kv[..|days|] == Keyed(days);
  }

  /** A day of a listed month adds its value to that month's bar, and to every copy of it. */
  lemma ListedDayCounted(months: seq<HeatmapMonth>, days: seq<HeatmapDay>, day: HeatmapDay, i: int)
    requires 0 <= i < |months| && KeyOfMonth(months[i]) == KeyOfDay(day)
    ensures MonthlyBars(months, days + [day])[i].value == MonthlyBars(months, days)[i].value + day.value
  {
    var kv := Keyed(days + [day]);
    assert kv[..|days|] == Keyed(days);
  }

  /** The displayed total is the sum over the listed months, so a month listed twice counts twice. */
  lemma DuplicateMonthCountedTwice(month: HeatmapMonth, days: seq<HeatmapDay>)
    ensures DisplayedTotal(MonthlyBars([month, month], days)) == 2 * MonthTotal(Keyed(days), KeyOfMonth(month))
  {
    var bars := MonthlyBars([month, month], days);
    assert bars[..1][..0] == [];
    assert DisplayedTotal(bars[..1]) == bars[0].value;
    assert DisplayedTotal(bars) == DisplayedTotal(bars[..1]) + bars[1].value;
  }

  /** The sum of the totals of the listed keys. */
  function TotalOverKeys(kv: seq<KeyedValue>, keys: seq<MonthKey>): int
  {
    if keys == [] then 0 else TotalOverKeys(kv, keys[..|keys| - 1]) + MonthTotal(kv, keys[|keys| - 1])
  }

  function MonthKeys(months: seq<HeatmapMonth>): seq<MonthKey>
  {
    seq(|months|, i requires 0 <= i < |months| => KeyOfMonth(months[i]))
  }

  lemma {:induction false} DisplayedTotalOverKeys(months: seq<HeatmapMonth>, days: seq<HeatmapDay>)
    ensures DisplayedTotal(MonthlyBars(months, days)) == TotalOverKeys(Keyed(days), MonthKeys(months))
  {
    if months != [] {
      var front := months[..|months| - 1];
      DisplayedTotalOverKeys(front, days);
      assert MonthlyBars(months, days)[..|months| - 1] == MonthlyBars(front, days);
      assert MonthKeys(months)[..|months| - 1] == MonthKeys(front);
    }
  }

  function KeyedTotal(kv: seq<KeyedValue>): int
  {
    if kv == [] then 0 else KeyedTotal(kv[..|kv| - 1]) + kv[|kv| - 1].value
  }

  lemma {:induction false} TotalOverKeysStep(kv: seq<KeyedValue>, keys: seq<MonthKey>)
    requires kv != []
    requires forall i, j :: 0 <= i < j < |keys| ==> keys[i] != keys[j]
    ensures TotalOverKeys(kv, keys) ==
            TotalOverKeys(kv[..|kv| - 1], keys) + (if kv[|kv| - 1].key in keys then kv[|kv| - 1].value else 0)
  {
    if keys != [] {
      var front := keys[..|keys| - 1];
      TotalOverKeysStep(kv, front);
      assert kv[|kv| - 1].key in keys <==> kv[|kv| - 1].key in front || kv[|kv| - 1].key == keys[|keys| - 1];
    }
  }

  lemma {:induction false} CoveredTotal(kv: seq<KeyedValue>, keys: seq<MonthKey>)
    requires forall i, j :: 0 <= i < j < |keys| ==> keys[i] != keys[j]
    requires forall j :: 0 <= j < |kv| ==> kv[j].key in keys
    ensures TotalOverKeys(kv, keys) == KeyedTotal(kv)
  {
    if kv != [] {
      var front := kv[..|kv| - 1];
      forall j | 0 <= j < |front| ensures front[j].key in keys {
        assert front[j] == kv[j];
      }
      CoveredTotal(front, keys);
      TotalOverKeysStep(kv, keys);
      assert kv[|kv| - 1].key in keys;
    } else {
      NoEntriesNoTotal(keys);
    }
  }

  lemma {:induction false} NoEntriesNoTotal(keys: seq<MonthKey>)
    ensures TotalOverKeys([], keys) == 0
  {
    if keys != [] {
      NoEntriesNoTotal(keys[..|keys| - 1]);
    }
  }

  /**
   * When the listed months are distinct and every day falls in one of them,
   * the displayed total is the sum of all the days' values.
   */
  lemma DisplayedTotalIsDaysTotal(months: seq<HeatmapMonth>, days: seq<HeatmapDay>)
    requires forall i, j :: 0 <= i < j < |months| ==> KeyOfMonth(months[i]) != KeyOfMonth(months[j])
    requires forall j :: 0 <= j < |days| ==> KeyOfDay(days[j]) in MonthKeys(months)
    ensures DisplayedTotal(MonthlyBars(months, days)) == KeyedTotal(Keyed(days))
  {
    DisplayedTotalOverKeys(months, days);
    var kv := Keyed(days);
    var keys := MonthKeys(months);
    forall j | 0 <= j < |kv| ensures kv[j].key in keys {
      assert kv[j].key == KeyOfDay(days[j]);
    }
    CoveredTotal(kv, keys);
  }
}
