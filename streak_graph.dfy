/**
 * `ReadingStreakGraph`: which history entries the grid shows, and its sizes.
 */
module ReadingStreakGraph {
  import opened JsBuiltins

  const DEFAULT_NUM_ROWS: int := 4
  const DEFAULT_NUM_COLS: int := 20
  const DEFAULT_SQUARE_SIZE: int := 12

  /** A prop with a default parameter value. */
  function WithDefault(o: Option<int>, default: int): int
  {
    if o.Some? then o.value else default
  }

  /** `numRows * numCols`, the number of squares asked for. */
  function TotalDays(numRows: Option<int>, numCols: Option<int>): int
  {
    WithDefault(numRows, DEFAULT_NUM_ROWS) * WithDefault(numCols, DEFAULT_NUM_COLS)
  }

  /** `squareSize || 12`: an absent or zero size gives 12. */
  function SquareSize(squareSize: Option<int>): (s: int)
    ensures s == 12 <==> squareSize.None? || squareSize.value == 0 || squareSize.value == 12
    ensures s != 12 ==> squareSize == Some(s)
  {
    if squareSize.Some? && squareSize.value != 0 then squareSize.value else DEFAULT_SQUARE_SIZE
  }

  /**
   * `Array.from({ length: totalDays }, (_, i) => history.slice(-totalDays)[i] || 0)`.
   * Zero squares for a length below 1; a history at least as long gives its
   * last `totalDays` entries in order; a shorter one comes first, whole, and
   * zeros fill the squares after it.
   */
  function SelectWindow(history: seq<int>, totalDays: int): (squares: seq<int>)
    ensures |squares| == Max(totalDays, 0)
    ensures |history| >= totalDays >= 1 ==> squares == history[|history| - totalDays..]
    ensures |history| < totalDays ==>
              squares[..|history|] == history &&
              forall i :: |history| <= i < totalDays ==> squares[i] == 0
  {
    var displayHistory := SliceFromEnd(history, totalDays);
    var squares := seq(Max(totalDays, 0), i requires 0 <= i < Max(totalDays, 0) =>
      if i < |displayHistory| then displayHistory[i] else 0);
    assert |history| >= totalDays >= 1 ==> |displayHistory| == totalDays && squares == displayHistory;
    assert |history| < totalDays ==> displayHistory == history && squares[..|history|] == history;
    squares
  }

  /** With a short, non-empty history the newest entry is not in the last square: a zero is. */
  lemma ShortHistoryEndsWithZeros(history: seq<int>, totalDays: int)
    requires 1 <= |history| < totalDays
    ensures SelectWindow(history, totalDays)[|history| - 1] == history[|history| - 1]
    ensures SelectWindow(history, totalDays)[totalDays - 1] == 0
  {
    assert SelectWindow(history, totalDays)[..|history|][|history| - 1] == history[|history| - 1];
  }

  /** Every square shows a history entry or 0, and each positive square is a history entry. */
  lemma SquaresComeFromHistory(history: seq<int>, totalDays: int, i: int)
    requires 0 <= i < |SelectWindow(history, totalDays)|
    ensures var v := SelectWindow(history, totalDays)[i];
            v == 0 || v in history
  {
    var d := SliceFromEnd(history, totalDays);
    if i < |d| {
      assert d[i] == history[|history| - |d| + i];
    }
  }

  /** With the default 4 x 20 grid there are 80 squares. */
  lemma DefaultGridSize(history: seq<int>)
    ensures TotalDays(None, None) == 80
    ensures |SelectWindow(history, TotalDays(None, None))| == 80
  {
  }
}
