/**
 * `useHeatmapLayout`: the calendar grid of the heatmap.
 *
 * The day records are copied and sorted by date; the most recent one is
 * anchored at flat position `(totalWeeks - 1) * 7 + dayOfWeek` of a grid of
 * `totalWeeks * 7` cells, the others fill the positions just before it, and
 * whatever would fall before position 0 is dropped. The flat grid is then cut
 * into weeks of seven cells.
 */
module HeatmapLayout {
  import opened JsBuiltins
  import opened ChartTypes

  /** A grid cell: `null` or the day record placed there. */
  datatype Cell = Empty | Filled(day: HeatmapDay)

  /** The hook's result: the grid as weeks of seven cells, and their number. */
  datatype WeekLayout = WeekLayout(weeks: seq<seq<Cell>>, totalWeeks: int)

  /** `new Array(totalCells)` throws a RangeError for a length that is not a valid array length. */
  datatype LayoutError = InvalidArrayLength

  datatype LayoutResult = Ok(layout: WeekLayout) | Err(error: LayoutError)

  /** The largest length `new Array(n)` accepts: 2^32 - 1. */
  const MAX_ARRAY_LENGTH: int := 0xFFFF_FFFF

  // ---------------------------------------------------------------------------
  // The sort: `[...filteredDays].sort((a, b) => time(a) - time(b))`
  // ---------------------------------------------------------------------------

  predicate SortedByDate(s: seq<HeatmapDay>)
  {
    forall i, j :: 0 <= i < j < |s| ==> s[i].date <= s[j].date
  }

  /** The records of `s` dated `d`, in their order in `s`. */
  function OnDate(s: seq<HeatmapDay>, d: int): seq<HeatmapDay>
  {
    if s == [] then [] else (if s[0].date == d then [s[0]] else []) + OnDate(s[1..], d)
  }

  /** Put `x` in front of the first record of `t` not dated before it. */
  function InsertByDate(x: HeatmapDay, t: seq<HeatmapDay>): (r: seq<HeatmapDay>)
    ensures |r| == |t| + 1
    ensures multiset(r) == multiset(t) + multiset{x}
  {
    if t == [] || x.date <= t[0].date then [x] + t
    else
      assert t == [t[0]] + t[1..];
      [t[0]] + InsertByDate(x, t[1..])
  }

  /**
   * A stable sort by date (`Array.prototype.sort` is stable since ES2019): the
   * records are inserted from the last to the first, each one in front of the
   * records with the same date that followed it.
   */
  function SortByDate(s: seq<HeatmapDay>): (r: seq<HeatmapDay>)
    ensures |r| == |s|
  {
    if s == [] then [] else InsertByDate(s[0], SortByDate(s[1..]))
  }

  lemma {:induction false} InsertByDateSorted(x: HeatmapDay, t: seq<HeatmapDay>)
    requires SortedByDate(t)
    ensures SortedByDate(InsertByDate(x, t))
  {
    if t != [] && x.date > t[0].date {
      InsertByDateSorted(x, t[1..]);
      var r := InsertByDate(x, t[1..]);
      assert r[0] == x || r[0] == t[1];
    }
  }

  /** The result of the sort is in ascending date order. */
  lemma {:induction false} SortByDateSorted(s: seq<HeatmapDay>)
    ensures SortedByDate(SortByDate(s))
  {
    if s != [] {
      SortByDateSorted(s[1..]);
      InsertByDateSorted(s[0], SortByDate(s[1..]));
    }
  }

  /** The sort only rearranges: the result holds the same records, as often as the input. */
  lemma {:induction false} SortByDatePermutation(s: seq<HeatmapDay>)
    ensures multiset(SortByDate(s)) == multiset(s)
  {
    if s != [] {
      SortByDatePermutation(s[1..]);
      assert s == [s[0]] + s[1..];
    }
  }

  /** Insertion only moves `x` past records dated strictly earlier, so never past one of its own date. */
  lemma {:induction false} InsertByDateStable(x: HeatmapDay, t: seq<HeatmapDay>, d: int)
    ensures OnDate(InsertByDate(x, t), d) == OnDate([x] + t, d)
  {
    if t != [] && x.date > t[0].date {
      InsertByDateStable(x, t[1..], d);
      assert ([x] + t)[1..] == t;
      assert ([x] + t[1..])[1..] == t[1..];
      assert ([t[0]] + InsertByDate(x, t[1..]))[1..] == InsertByDate(x, t[1..]);
    }
  }

  /** Stability: the records of each date keep their input order. */
  lemma {:induction false} SortByDateStable(s: seq<HeatmapDay>, d: int)
    ensures OnDate(SortByDate(s), d) == OnDate(s, d)
  {
    if s != [] {
      SortByDateStable(s[1..], d);
      InsertByDateStable(s[0], SortByDate(s[1..]), d);
      assert ([s[0]] + SortByDate(s[1..]))[1..] == SortByDate(s[1..]);
    }
  }

  lemma OnDateMember(s: seq<HeatmapDay>, x: HeatmapDay)
    requires x in s
    ensures OnDate(s, x.date) != []
  {
    if s[0] != x {
      OnDateMember(s[1..], x);
    }
  }

  lemma OnDateContents(s: seq<HeatmapDay>, d: int)
    ensures forall y :: y in OnDate(s, d) ==> y in s && y.date == d
  {
    if s != [] {
      OnDateContents(s[1..], d);
    }
  }

  /**
   * Sorted by date with every date's records in the same order pins a
   * sequence down: two such rearrangements are equal.
   */
  lemma {:induction false} SortedStableUnique(a: seq<HeatmapDay>, b: seq<HeatmapDay>)
    requires SortedByDate(a) && SortedByDate(b)
    requires forall d :: OnDate(a, d) == OnDate(b, d)
    ensures a == b
    decreases |a|
  {
    if a == [] || b == [] {
      if a != [] {
        OnDateMember(a, a[0]);
      } else if b != [] {
        OnDateMember(b, b[0]);
      }
    } else {
      OnDateMember(a, a[0]);
      OnDateContents(b, a[0].date);
      OnDateMember(b, b[0]);
      OnDateContents(a, b[0].date);
      var m := a[0].date;
      assert b[0].date == m by {
        var y :| y in OnDate(b, m);
        var z :| z in OnDate(a, b[0].date);
        assert y in b && z in a;
      }
      assert OnDate(a, m)[0] == a[0] && OnDate(b, m)[0] == b[0];
      assert a[0] == b[0];
      forall d ensures OnDate(a[1..], d) == OnDate(b[1..], d) {
        if d == m {
          assert OnDate(a[1..], d) == OnDate(a, d)[1..];
          assert OnDate(b[1..], d) == OnDate(b, d)[1..];
        } else {
          assert OnDate(a[1..], d) == OnDate(a, d);
          assert OnDate(b[1..], d) == OnDate(b, d);
        }
      }
      SortedStableUnique(a[1..], b[1..]);
      assert a == [a[0]] + a[1..] && b == [b[0]] + b[1..];
    }
  }

  /**
   * The sort is the one stable date order: any sequence that is sorted by date
   * and keeps each date's records in input order is `SortByDate(s)`.
   */
  lemma SortByDateCharacterized(s: seq<HeatmapDay>, t: seq<HeatmapDay>)
    requires SortedByDate(t)
    requires forall d :: OnDate(t, d) == OnDate(s, d)
    ensures t == SortByDate(s)
  {
    SortByDateSorted(s);
    forall d ensures OnDate(SortByDate(s), d) == OnDate(t, d) {
      SortByDateStable(s, d);
    }
    SortedStableUnique(SortByDate(s), t);
  }

  /** Sorting a sorted sequence changes nothing. */
  lemma SortByDateIdempotent(s: seq<HeatmapDay>)
    requires SortedByDate(s)
    ensures SortByDate(s) == s
  {
    SortByDateCharacterized(s, s);
  }

  /** The last record of the sorted copy is a most recent record of the input. */
  lemma SortedLastIsLatest(s: seq<HeatmapDay>)
    requires s != []
    ensures SortByDate(s)[|s| - 1] in s
    ensures forall x :: x in s ==> x.date <= SortByDate(s)[|s| - 1].date
  {
    var r := SortByDate(s);
    SortByDateSorted(s);
    SortByDatePermutation(s);
    assert r[|s| - 1] in multiset(r);
    forall x | x in s ensures x.date <= r[|s| - 1].date {
      assert x in multiset(s);
      var i :| 0 <= i < |r| && r[i] == x;
    }
  }

  // ---------------------------------------------------------------------------
  // The layout, as a specification
  // ---------------------------------------------------------------------------

  /** `period === 'weekly' ? 1 : weeksToShow`. */
  function TotalWeeks(period: Period, weeksToShow: int): int
  {
    if period == Weekly then 1 else weeksToShow
  }

  /** Where the most recent record goes: `(totalWeeks - 1) * 7 + lastDay.dayOfWeek`. */
  function AnchorPosition(sorted: seq<HeatmapDay>, totalWeeks: int): int
    requires sorted != []
  {
    (totalWeeks - 1) * 7 + sorted[|sorted| - 1].dayOfWeek
  }

  /** The flat position of the first sorted record; record i goes to `StartPadding + i`. */
  function StartPadding(sorted: seq<HeatmapDay>, totalWeeks: int): int
    requires sorted != []
  {
    AnchorPosition(sorted, totalWeeks) - (|sorted| - 1)
  }

  /** The cell at flat position p: the record whose position it is, if any. */
  function CellAt(sorted: seq<HeatmapDay>, padding: int, p: int): Cell
  {
    if 0 <= p - padding < |sorted| then Filled(sorted[p - padding]) else Empty
  }

  /** The whole flat grid. */
  function FlatGrid(sorted: seq<HeatmapDay>, padding: int, totalCells: nat): seq<Cell>
  {
    seq(totalCells, p => CellAt(sorted, padding, p))
  }

  /** The flat grid cut into `totalWeeks` weeks of seven cells. */
  function Chunk(flat: seq<Cell>, totalWeeks: nat): seq<seq<Cell>>
    requires |flat| == 7 * totalWeeks
  {
    seq(totalWeeks, w requires 0 <= w < totalWeeks => flat[7 * w..7 * w + 7])
  }

  /** What `useHeatmapLayout` returns for these arguments. */
  function LayoutSpec(days: seq<HeatmapDay>, period: Period, weeksToShow: int): LayoutResult
  {
    var sorted := SortByDate(days);
    if sorted == [] then Ok(WeekLayout([], 0))
    else
      var totalWeeks := TotalWeeks(period, weeksToShow);
      if !(0 <= totalWeeks * 7 <= MAX_ARRAY_LENGTH) then Err(InvalidArrayLength)
      else
        var flat := FlatGrid(sorted, StartPadding(sorted, totalWeeks), totalWeeks * 7);
        Ok(WeekLayout(Chunk(flat, totalWeeks), totalWeeks))
  }

  // ---------------------------------------------------------------------------
  // The layout, as the hook computes it
  // ---------------------------------------------------------------------------

  /** `new Array(totalCells).fill(null)`, then record i written at `startPadding + i` when on the grid. */
  method FillFlatGrid(sortedDays: seq<HeatmapDay>, startPadding: int, totalCells: nat) returns (flatGrid: array<Cell>)
    ensures fresh(flatGrid)
    ensures flatGrid[..] == FlatGrid(sortedDays, startPadding, totalCells)
  {
    flatGrid := new Cell[totalCells](_ => Empty);
    var index := 0;
    while index < |sortedDays|
      invariant 0 <= index <= |sortedDays|
      invariant forall p :: 0 <= p < totalCells ==>
        flatGrid[p] == (if 0 <= p - startPadding < index then Filled(sortedDays[p - startPadding]) else Empty)
    {
      var position := startPadding + index;
      if position >= 0 && position < totalCells {
        flatGrid[position] := Filled(sortedDays[index]);
      }
      index := index + 1;
    }
  }

  /** The nested loops that push `flatGrid[weekIndex * 7 + dayIndex]` into weeks of seven. */
  method CutIntoWeeks(flatGrid: array<Cell>, totalWeeks: nat) returns (weeks: seq<seq<Cell>>)
    requires flatGrid.Length == 7 * totalWeeks
    ensures weeks == Chunk(flatGrid[..], totalWeeks)
  {
    weeks := [];
    var weekIndex := 0;
    while weekIndex < totalWeeks
      invariant 0 <= weekIndex <= totalWeeks
      invariant |weeks| == weekIndex
      invariant forall w :: 0 <= w < weekIndex ==> weeks[w] == flatGrid[7 * w..7 * w + 7]
    {
      var week: seq<Cell> := [];
      var dayIndex := 0;
      while dayIndex < 7
        invariant 0 <= dayIndex <= 7
        invariant week == flatGrid[7 * weekIndex..7 * weekIndex + dayIndex]
      {
        var position := weekIndex * 7 + dayIndex;
        week := week + [flatGrid[position]];
        dayIndex := dayIndex + 1;
      }
      weeks := weeks + [week];
      weekIndex := weekIndex + 1;
    }
  }

  /** The hook body: sort a copy, fill a flat array in place, then cut it into weeks. */
  method ComputeLayout(filteredDays: seq<HeatmapDay>, period: Period, weeksToShow: int) returns (r: LayoutResult)
    ensures r == LayoutSpec(filteredDays, period, weeksToShow)
  {
    var sortedDays := SortByDate(filteredDays);
    if |sortedDays| == 0 {
      return Ok(WeekLayout([], 0));
    }
    var lastDay := sortedDays[|sortedDays| - 1];
    var totalWeeks := TotalWeeks(period, weeksToShow);
    var totalCells := totalWeeks * 7;
    if !(0 <= totalCells <= MAX_ARRAY_LENGTH) {
      return Err(InvalidArrayLength);
    }
    var lastDayPosition := |sortedDays| - 1;
    var desiredLastPosition := (totalWeeks - 1) * 7 + lastDay.dayOfWeek;
    var startPadding := desiredLastPosition - lastDayPosition;
    var flatGrid := FillFlatGrid(sortedDays, startPadding, totalCells);
    var weeks := CutIntoWeeks(flatGrid, totalWeeks);
    return Ok(WeekLayout(weeks, totalWeeks));
  }

  // ---------------------------------------------------------------------------
  // Properties of the layout
  // ---------------------------------------------------------------------------

  /** The weeks laid end to end. */
  function Flatten(weeks: seq<seq<Cell>>): seq<Cell>
  {
    if weeks == [] then [] else Flatten(weeks[..|weeks| - 1]) + weeks[|weeks| - 1]
  }

  /** The number of non-empty cells. */
  function CountFilled(cells: seq<Cell>): nat
  {
    if cells == [] then 0 else CountFilled(cells[..|cells| - 1]) + (if cells[|cells| - 1].Filled? then 1 else 0)
  }

  /** No records, no weeks. */
  lemma LayoutOfNoDays(period: Period, weeksToShow: int)
    ensures LayoutSpec([], period, weeksToShow) == Ok(WeekLayout([], 0))
  {
  }

  /**
   * With at least one record the hook fails exactly when `totalWeeks * 7` is no
   * valid array length; otherwise it returns `totalWeeks` weeks of seven cells,
   * `totalWeeks` being 1 in weekly mode and `weeksToShow` in monthly mode.
   */
  lemma LayoutShape(days: seq<HeatmapDay>, period: Period, weeksToShow: int)
    requires days != []
    ensures var tw := if period == Weekly then 1 else weeksToShow;
            var r := LayoutSpec(days, period, weeksToShow);
            (r.Err? <==> !(0 <= 7 * tw <= MAX_ARRAY_LENGTH)) &&
            (r.Ok? ==> r.layout.totalWeeks == tw && |r.layout.weeks| == tw &&
                       forall w :: 0 <= w < tw ==> |r.layout.weeks[w]| == 7)
  {
  }

  /** The successful layout of a non-empty input, spelled out. */
  lemma LayoutUnfold(days: seq<HeatmapDay>, period: Period, weeksToShow: int)
    requires days != []
    requires LayoutSpec(days, period, weeksToShow).Ok?
    ensures var sorted := SortByDate(days);
            var tw := TotalWeeks(period, weeksToShow);
            0 <= tw && sorted != [] &&
            LayoutSpec(days, period, weeksToShow).layout.weeks == Chunk(FlatGrid(sorted, StartPadding(sorted, tw), 7 * tw), tw)
  {
  }

  lemma ChunkAt(flat: seq<Cell>, k: nat, w: int, d: int)
    requires |flat| == 7 * k
    requires 0 <= w < k && 0 <= d < 7
    ensures |Chunk(flat, k)| == k && |Chunk(flat, k)[w]| == 7
    ensures Chunk(flat, k)[w][d] == flat[7 * w + d]
  {
  }

  lemma {:induction false} FlattenChunk(flat: seq<Cell>, k: nat)
    requires |flat| == 7 * k
    ensures Flatten(Chunk(flat, k)) == flat
  {
    if k > 0 {
      var c := Chunk(flat, k);
      var front := flat[..7 * (k - 1)];
      forall w | 0 <= w < k - 1 ensures c[w] == Chunk(front, k - 1)[w] {
        assert front[7 * w..7 * w + 7] == flat[7 * w..7 * w + 7];
      }
      assert c[..k - 1] == Chunk(front, k - 1);
      FlattenChunk(front, k - 1);
      assert flat == front + c[k - 1];
    }
  }

  /** Reading the weeks in order, cell by cell, gives back the flat grid. */
  lemma LayoutFlattens(days: seq<HeatmapDay>, period: Period, weeksToShow: int)
    requires days != []
    requires LayoutSpec(days, period, weeksToShow).Ok?
    ensures var sorted := SortByDate(days);
            var tw := TotalWeeks(period, weeksToShow);
            tw >= 0 &&
            Flatten(LayoutSpec(days, period, weeksToShow).layout.weeks)
              == FlatGrid(sorted, StartPadding(sorted, tw), 7 * tw)
  {
    LayoutUnfold(days, period, weeksToShow);
    var sorted := SortByDate(days);
    var tw := TotalWeeks(period, weeksToShow);
    FlattenChunk(FlatGrid(sorted, StartPadding(sorted, tw), 7 * tw), tw);
  }

  /**
   * Cell (w, d) of the layout holds the i-th sorted record for
   * i = 7w + d - StartPadding when that is an index of the records, and is empty
   * otherwise: each record has its one position, and distinct records distinct positions.
   */
  lemma LayoutCell(days: seq<HeatmapDay>, period: Period, weeksToShow: int, w: int, d: int)
    requires days != []
    requires LayoutSpec(days, period, weeksToShow).Ok?
    requires 0 <= w < TotalWeeks(period, weeksToShow) && 0 <= d < 7
    ensures var sorted := SortByDate(days);
            var weeks := LayoutSpec(days, period, weeksToShow).layout.weeks;
            var i := 7 * w + d - StartPadding(sorted, TotalWeeks(period, weeksToShow));
            |weeks| == TotalWeeks(period, weeksToShow) && |weeks[w]| == 7 &&
            weeks[w][d] == if 0 <= i < |sorted| then Filled(sorted[i]) else Empty
  {
    LayoutUnfold(days, period, weeksToShow);
    var sorted := SortByDate(days);
    var tw := TotalWeeks(period, weeksToShow);
    ChunkAt(FlatGrid(sorted, StartPadding(sorted, tw), 7 * tw), tw, w, d);
  }

  /**
   * With at least one week and a last record whose `dayOfWeek` is in 0..6, the
   * most recent record sits in the last week at slot `dayOfWeek`.
   */
  lemma LayoutAnchor(days: seq<HeatmapDay>, period: Period, weeksToShow: int)
    requires days != []
    requires LayoutSpec(days, period, weeksToShow).Ok?
    requires TotalWeeks(period, weeksToShow) >= 1
    requires 0 <= SortByDate(days)[|days| - 1].dayOfWeek < 7
    ensures var tw := TotalWeeks(period, weeksToShow);
            var last := SortByDate(days)[|days| - 1];
            var weeks := LayoutSpec(days, period, weeksToShow).layout.weeks;
            |weeks| == tw && |weeks[tw - 1]| == 7 &&
            weeks[tw - 1][last.dayOfWeek] == Filled(last)
  {
    LayoutCell(days, period, weeksToShow, TotalWeeks(period, weeksToShow) - 1, SortByDate(days)[|days| - 1].dayOfWeek);
  }

  /**
   * The filled flat positions are exactly one contiguous run ending at the
   * anchor (cut at position 0), holding the sorted records in order; every
   * position after the anchor is empty.
   */
  lemma LayoutContiguous(days: seq<HeatmapDay>, period: Period, weeksToShow: int, p: int)
    requires days != []
    requires LayoutSpec(days, period, weeksToShow).Ok?
    requires 0 <= p < 7 * TotalWeeks(period, weeksToShow)
    ensures var sorted := SortByDate(days);
            var anchor := AnchorPosition(sorted, TotalWeeks(period, weeksToShow));
            var flat := Flatten(LayoutSpec(days, period, weeksToShow).layout.weeks);
            |flat| == 7 * TotalWeeks(period, weeksToShow) &&
            (flat[p].Filled? <==> anchor - |days| < p <= anchor) &&
            (flat[p].Filled? ==> flat[p].day == sorted[|days| - 1 - (anchor - p)])
  {
    LayoutFlattens(days, period, weeksToShow);
  }

  lemma {:induction false} CountRun(g: seq<Cell>, lo: int, hi: int)
    requires 0 <= lo <= hi
    requires forall p :: 0 <= p < |g| ==> (g[p].Filled? <==> lo <= p < hi)
    ensures CountFilled(g) == Min(hi, |g|) - Min(lo, |g|)
  {
    if g != [] {
      var g' := g[..|g| - 1];
      assert forall p :: 0 <= p < |g'| ==> g'[p] == g[p];
      CountRun(g', lo, hi);
    }
  }

  lemma FlatGridCount(sorted: seq<HeatmapDay>, tw: nat)
    requires sorted != []
    requires 0 <= AnchorPosition(sorted, tw) < 7 * tw
    ensures CountFilled(FlatGrid(sorted, StartPadding(sorted, tw), 7 * tw)) == Min(|sorted|, AnchorPosition(sorted, tw) + 1)
  {
    var pad := StartPadding(sorted, tw);
    CountRun(FlatGrid(sorted, pad, 7 * tw), Max(pad, 0), AnchorPosition(sorted, tw) + 1);
  }

  /**
   * When the anchor is on the grid, `min(n, anchor + 1)` cells are filled: the
   * records that do not fit are the earliest ones, and they are dropped rather
   * than wrapped round.
   */
  lemma LayoutFilledCount(days: seq<HeatmapDay>, period: Period, weeksToShow: int)
    requires days != []
    requires LayoutSpec(days, period, weeksToShow).Ok?
    requires 0 <= AnchorPosition(SortByDate(days), TotalWeeks(period, weeksToShow)) < 7 * TotalWeeks(period, weeksToShow)
    ensures var anchor := AnchorPosition(SortByDate(days), TotalWeeks(period, weeksToShow));
            CountFilled(Flatten(LayoutSpec(days, period, weeksToShow).layout.weeks)) == Min(|days|, anchor + 1)
  {
    var sorted := SortByDate(days);
    var tw := TotalWeeks(period, weeksToShow);
    LayoutFlattens(days, period, weeksToShow);
    FlatGridCount(sorted, tw);
    assert |sorted| == |days|;
  }

  /** Records of consecutive days: each `dayOfWeek` is the previous one plus one, mod 7. */
  predicate ConsecutiveWeekdays(s: seq<HeatmapDay>)
  {
    (forall i :: 0 <= i < |s| ==> 0 <= s[i].dayOfWeek < 7) &&
    (forall i :: 0 <= i < |s| - 1 ==> s[i + 1].dayOfWeek == (s[i].dayOfWeek + 1) % 7)
  }

  lemma {:induction false} ConsecutiveWeekdaysBack(s: seq<HeatmapDay>, i: int)
    requires ConsecutiveWeekdays(s)
    requires 0 <= i < |s|
    ensures s[i].dayOfWeek == (s[|s| - 1].dayOfWeek - (|s| - 1 - i)) % 7
    decreases |s| - i
  {
    if i < |s| - 1 {
      ConsecutiveWeekdaysBack(s, i + 1);
    }
  }

  lemma ShiftByWeeks(k: int, d: int)
    requires 0 <= d < 7
    ensures (7 * k + d) % 7 == d
  {
  }

  lemma PlacedOnOwnWeekday(sorted: seq<HeatmapDay>, tw: int, w: int, d: int)
    requires sorted != [] && ConsecutiveWeekdays(sorted)
    requires 0 <= d < 7
    requires 0 <= 7 * w + d - StartPadding(sorted, tw) < |sorted|
    ensures sorted[7 * w + d - StartPadding(sorted, tw)].dayOfWeek == d
  {
    var i := 7 * w + d - StartPadding(sorted, tw);
    ConsecutiveWeekdaysBack(sorted, i);
    var last := sorted[|sorted| - 1].dayOfWeek;
    assert last - (|sorted| - 1 - i) == 7 * (w - tw + 1) + d;
    ShiftByWeeks(w - tw + 1, d);
  }

  /**
   * If the sorted records are consecutive days, each one that is placed lands
   * in the week slot equal to its own `dayOfWeek`.
   */
  lemma LayoutSlotIsWeekday(days: seq<HeatmapDay>, period: Period, weeksToShow: int, w: int, d: int)
    requires days != []
    requires LayoutSpec(days, period, weeksToShow).Ok?
    requires ConsecutiveWeekdays(SortByDate(days))
    requires 0 <= w < TotalWeeks(period, weeksToShow) && 0 <= d < 7
    ensures var weeks := LayoutSpec(days, period, weeksToShow).layout.weeks;
            |weeks| == TotalWeeks(period, weeksToShow) && |weeks[w]| == 7 &&
            (weeks[w][d].Filled? ==> weeks[w][d].day.dayOfWeek == d)
  {
    LayoutCell(days, period, weeksToShow, w, d);
    var sorted := SortByDate(days);
    var tw := TotalWeeks(period, weeksToShow);
    if 0 <= 7 * w + d - StartPadding(sorted, tw) < |sorted| {
      PlacedOnOwnWeekday(sorted, tw, w, d);
    }
  }
}
