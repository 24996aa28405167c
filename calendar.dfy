/**
 * Proleptic Gregorian calendar arithmetic standing in for JavaScript's `Date`.
 *
 * A day is an integer day number: the number of days since 0000-01-01.
 * `Date` is the civil (year, month, day) triple with a 0-based month, as
 * `getFullYear()`, `getMonth()` and `getDate()` report it. `FromDayNumber`
 * and `DayNumber` are mutually inverse.
 */
module Calendar {

  /** A civil date; `month` is 0-based (0 = January) and `day` is 1-based. */
  datatype Date = Date(year: int, month: int, day: int)

  predicate IsLeapYear(y: int)
  {
    y % 4 == 0 && (y % 100 != 0 || y % 400 == 0)
  }

  function DaysInYear(y: int): int
  {
    if IsLeapYear(y) then 366 else 365
  }

  function DaysInMonth(y: int, m: int): (r: int)
    requires 0 <= m < 12
    ensures 28 <= r <= 31
  {
    if m == 1 then (if IsLeapYear(y) then 29 else 28)
    else if m == 3 || m == 5 || m == 8 || m == 10 then 30
    else 31
  }

  /** Days of year `y` that precede month `m`; month 12 stands for the end of the year. */
  function DaysBeforeMonth(y: int, m: int): int
    requires 0 <= m <= 12
  {
    [0, 31, 59, 90, 120, 151, 181, 212, 243, 273, 304, 334, 365][m]
    + (if m >= 2 && IsLeapYear(y) then 1 else 0)
  }

  lemma DaysBeforeMonthStep(y: int, m: int)
    requires 0 <= m < 12
    ensures DaysBeforeMonth(y, m + 1) == DaysBeforeMonth(y, m) + DaysInMonth(y, m)
    ensures DaysBeforeMonth(y, 0) == 0 && DaysBeforeMonth(y, 12) == DaysInYear(y)
  {
  }

  /** Days from 0000-01-01 to the first day of year `y` (negative before year 0). */
  function DaysBeforeYear(y: int): int
  {
    365 * y + (y + 3) / 4 - (y + 99) / 100 + (y + 399) / 400
  }

  lemma YearStep(y: int)
    ensures DaysBeforeYear(y + 1) == DaysBeforeYear(y) + DaysInYear(y)
  {
    LeapCountStep4(y);
    LeapCountStep100(y);
    LeapCountStep400(y);
  }

  lemma LeapCountStep4(y: int)
    ensures (y + 4) / 4 == (y + 3) / 4 + (if y % 4 == 0 then 1 else 0)
  {
  }

  lemma LeapCountStep100(y: int)
    ensures (y + 100) / 100 == (y + 99) / 100 + (if y % 100 == 0 then 1 else 0)
  {
  }

  lemma LeapCountStep400(y: int)
    ensures (y + 400) / 400 == (y + 399) / 400 + (if y % 400 == 0 then 1 else 0)
  {
  }

  /** Four hundred Gregorian years are exactly 146097 days. */
  lemma CycleStart(q: int)
    ensures DaysBeforeYear(400 * q) == 146097 * q
  {
    assert (400 * q + 3) / 4 == 100 * q;
    assert (400 * q + 99) / 100 == 4 * q;
    assert (400 * q + 399) / 400 == q;
  }

  lemma {:induction false} DaysBeforeYearMonotonic(y1: int, y2: int)
    requires y1 <= y2
    ensures DaysBeforeYear(y1) <= DaysBeforeYear(y2)
    decreases y2 - y1
  {
    if y1 < y2 {
      YearStep(y1);
      DaysBeforeYearMonotonic(y1 + 1, y2);
    }
  }

  /** Search upwards from `y` for the year containing day `n`. */
  function FindYear(n: int, y: int, hi: int): (r: int)
    requires y < hi
    requires DaysBeforeYear(y) <= n < DaysBeforeYear(hi)
    ensures y <= r < hi
    ensures DaysBeforeYear(r) <= n < DaysBeforeYear(r + 1)
    decreases hi - y
  {
    if n < DaysBeforeYear(y + 1) then y else FindYear(n, y + 1, hi)
  }

  /** The year that contains day number `n`. */
  function YearOf(n: int): (y: int)
    ensures DaysBeforeYear(y) <= n < DaysBeforeYear(y + 1)
  {
    var q := n / 146097;
    CycleStart(q);
    CycleStart(q + 1);
    FindYear(n, 400 * q, 400 * q + 400)
  }

  /** A year is determined by any of its days. */
  lemma YearOfUnique(n: int, y: int)
    requires DaysBeforeYear(y) <= n < DaysBeforeYear(y + 1)
    ensures YearOf(n) == y
  {
    var z := YearOf(n);
    if z < y {
      DaysBeforeYearMonotonic(z + 1, y);
    } else if z > y {
      DaysBeforeYearMonotonic(y + 1, z);
    }
  }

  /** Search upwards from `m` for the month of year `y` containing day-of-year `doy`. */
  function FindMonth(y: int, doy: int, m: int): (r: int)
    requires 0 <= m < 12
    requires DaysBeforeMonth(y, m) <= doy < DaysBeforeMonth(y, 12)
    ensures m <= r < 12
    ensures DaysBeforeMonth(y, r) <= doy < DaysBeforeMonth(y, r + 1)
    decreases 12 - m
  {
    if doy < DaysBeforeMonth(y, m + 1) then m else FindMonth(y, doy, m + 1)
  }

  predicate ValidDate(d: Date)
  {
    0 <= d.month < 12 && 1 <= d.day <= DaysInMonth(d.year, d.month)
  }

  /** The day number of a civil date (what `Date.UTC(y, m, d)` counts, in days). */
  function DayNumber(d: Date): int
    requires 0 <= d.month < 12
  {
    DaysBeforeYear(d.year) + DaysBeforeMonth(d.year, d.month) + d.day - 1
  }

  /** The civil date of a day number. */
  function FromDayNumber(n: int): (d: Date)
    ensures ValidDate(d)
    ensures DayNumber(d) == n
  {
    var y := YearOf(n);
    var doy := n - DaysBeforeYear(y);
    YearStep(y);
    DaysBeforeMonthStep(y, 0);
    var m := FindMonth(y, doy, 0);
    DaysBeforeMonthStep(y, m);
    Date(y, m, doy - DaysBeforeMonth(y, m) + 1)
  }

  lemma {:induction false} DaysBeforeMonthMonotonic(y: int, m1: int, m2: int)
    requires 0 <= m1 <= m2 <= 12
    ensures DaysBeforeMonth(y, m1) <= DaysBeforeMonth(y, m2)
  {
  }

  /** Every valid civil date survives the trip through its day number. */
  lemma {:induction false} DayNumberRoundTrip(d: Date)
    requires ValidDate(d)
    ensures FromDayNumber(DayNumber(d)) == d
  {
    var n := DayNumber(d);
    DaysBeforeMonthStep(d.year, d.month);
    DaysBeforeMonthMonotonic(d.year, d.month + 1, 12);
    DaysBeforeMonthStep(d.year, 0);
    YearStep(d.year);
    YearOfUnique(n, d.year);
    var e := FromDayNumber(n);
    assert e.year == d.year;
    var doy := n - DaysBeforeYear(d.year);
    DaysBeforeMonthStep(d.year, e.month);
    if e.month < d.month {
      DaysBeforeMonthMonotonic(d.year, e.month + 1, d.month);
    } else if e.month > d.month {
      DaysBeforeMonthMonotonic(d.year, d.month + 1, e.month);
    }
  }

  /** Day of the week, Sunday-based as `getDay()`: 0 = Sunday ... 6 = Saturday. */
  function Weekday(n: int): (w: int)
    ensures 0 <= w < 7
  {
    (n + 6) % 7
  }

  /** Consecutive days have consecutive weekdays, wrapping from Saturday to Sunday. */
  lemma WeekdayStep(n: int)
    ensures Weekday(n + 1) == (Weekday(n) + 1) % 7
  {
  }

  /** January 1st, 1970 (the Unix epoch) falls on a Thursday. */
  lemma EpochIsThursday()
    ensures DayNumber(Date(1970, 0, 1)) == 719528
    ensures Weekday(719528) == 4
  {
  }

  /** A month index counting months since January of year 0: 12 * year + month. */
  function MonthIndex(y: int, m: int): int
  {
    12 * y + m
  }

  /** The day number of the first day of month index `k`. */
  function FirstOfMonth(k: int): int
  {
    DayNumber(Date(k / 12, k % 12, 1))
  }

  lemma FirstOfMonthStep(k: int)
    ensures FirstOfMonth(k + 1) == FirstOfMonth(k) + DaysInMonth(k / 12, k % 12)
    ensures FirstOfMonth(k) < FirstOfMonth(k + 1)
  {
    var y, m := k / 12, k % 12;
    DaysBeforeMonthStep(y, m);
    if m == 11 {
      assert (k + 1) / 12 == y + 1 && (k + 1) % 12 == 0;
      YearStep(y);
    } else {
      assert (k + 1) / 12 == y && (k + 1) % 12 == m + 1;
    }
  }

  /** A function that grows at every step grows over any distance. */
  lemma {:induction false} StepwiseIncreasing(f: int -> int, k1: int, k2: int)
    requires forall k :: f(k) < f(k + 1)
    requires k1 < k2
    ensures f(k1) < f(k2)
    decreases k2 - k1
  {
    if k1 + 1 < k2 {
      StepwiseIncreasing(f, k1 + 1, k2);
    }
  }

  lemma FirstOfMonthMonotonic(k1: int, k2: int)
    requires k1 < k2
    ensures FirstOfMonth(k1) < FirstOfMonth(k2)
  {
    forall k ensures FirstOfMonth(k) < FirstOfMonth(k + 1) {
      FirstOfMonthStep(k);
    }
    StepwiseIncreasing(FirstOfMonth, k1, k2);
  }

  /** The month index of the month that contains day number `n`. */
  function MonthIndexOf(n: int): int
  {
    var d := FromDayNumber(n);
    MonthIndex(d.year, d.month)
  }

  /** Day `n` lies in the month `MonthIndexOf(n)`: on or after its first day, before the next month's. */
  lemma MonthBracket(n: int)
    ensures FirstOfMonth(MonthIndexOf(n)) <= n < FirstOfMonth(MonthIndexOf(n) + 1)
  {
    var d := FromDayNumber(n);
    var j := MonthIndexOf(n);
    assert j / 12 == d.year && j % 12 == d.month;
    FirstOfMonthStep(j);
    assert FirstOfMonth(j) == n - d.day + 1;
  }

  /** For an increasing `f`, the `k` with f(k) <= n are exactly those up to the bracket of `n`. */
  lemma BracketedAtMost(f: int -> int, k: int, j: int, n: int)
    requires forall i :: f(i) < f(i + 1)
    requires f(j) <= n < f(j + 1)
    ensures f(k) <= n <==> k <= j
  {
    if k < j {
      StepwiseIncreasing(f, k, j);
    } else if k > j + 1 {
      StepwiseIncreasing(f, j + 1, k);
    }
  }

  /** If day `n` lies in month `j`, month `k` has begun by day `n` exactly when `k` is not later than `j`. */
  lemma MonthHasBegun(k: int, n: int, j: int)
    requires FirstOfMonth(j) <= n < FirstOfMonth(j + 1)
    ensures FirstOfMonth(k) <= n <==> k <= j
  {
    forall i ensures FirstOfMonth(i) < FirstOfMonth(i + 1) {
      FirstOfMonthStep(i);
    }
    BracketedAtMost(FirstOfMonth, k, j, n);
  }

  /** Month `k` has begun by day `n` exactly when `k` is not later than the month of `n`. */
  lemma FirstOfMonthAtMost(k: int, n: int)
    ensures FirstOfMonth(k) <= n <==> k <= MonthIndexOf(n)
  {
    MonthBracket(n);
    MonthHasBegun(k, n, MonthIndexOf(n));
  }
}
