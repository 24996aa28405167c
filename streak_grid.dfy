/**
 * `StreakGrid`: rows of squares read from `squares` in row-major order.
 */
module StreakGrid {
  import opened JsBuiltins
  import opened ChartTypes
  import opened StreakColors

  /** `rowIndex * numCols + colIndex`. */
  function GridIndex(row: int, col: int, numCols: int): int
  {
    row * numCols + col
  }

  lemma MulAtLeast(a: int, c: int)
    requires a >= 1 && c >= 0
    ensures a * c >= c
  {
    assert a * c == c + (a - 1) * c;
  }

  /**
   * On an R x C grid the index is a bijection onto [0, R*C): it stays in range,
   * and row and column come back as its quotient and remainder by C.
   */
  lemma GridIndexBijective(row: int, col: int, numRows: int, numCols: int)
    requires 0 <= row < numRows && 0 <= col < numCols
    ensures 0 <= GridIndex(row, col, numCols) < numRows * numCols
    ensures GridIndex(row, col, numCols) / numCols == row
    ensures GridIndex(row, col, numCols) % numCols == col
  {
    var idx := GridIndex(row, col, numCols);
    if row < numRows - 1 {
      MulAtLeast(numRows - 1 - row, numCols);
    }
    assert numRows * numCols == (numRows - 1 - row) * numCols + row * numCols + numCols;
    var q, m := idx / numCols, idx % numCols;
    assert idx == q * numCols + m;
    assert (row - q) * numCols == m - col;
    if row > q {
      MulAtLeast(row - q, numCols);
    } else if row < q {
      MulAtLeast(q - row, numCols);
    }
  }

  /** The indices in the order the rows and columns are visited. */
  function VisitOrder(numRows: nat, numCols: nat): seq<int>
  {
    if numRows == 0 then []
    else VisitOrder(numRows - 1, numCols) + seq(numCols, col => GridIndex(numRows - 1, col, numCols))
  }

  /** The visit order is 0, 1, ..., R*C - 1: every index once, increasing. */
  lemma {:induction false} VisitOrderIsRange(numRows: nat, numCols: nat)
    ensures VisitOrder(numRows, numCols) == seq(numRows * numCols, i => i)
  {
    if numRows > 0 {
      VisitOrderIsRange(numRows - 1, numCols);
      assert (numRows - 1) * numCols + numCols == numRows * numCols;
    }
  }

  /** What one square shows and does: `press` is what `onSquarePress` receives. */
  datatype SquareView = SquareView(value: int, color: Color, disabled: bool, press: Option<(int, int)>)

  /** The square at index `index` of `squares`. */
  function RenderSquare(squares: seq<int>, index: nat, primaryColor: string, darkMode: bool, hasSquarePress: bool): (v: SquareView)
    requires index < |squares|
    ensures v.color == StreakScale(primaryColor, darkMode)[StreakBucket(squares[index])]
    ensures v.disabled <==> !hasSquarePress
    ensures v.press.Some? <==> hasSquarePress
    ensures v.press.Some? ==> v.press.value == (squares[index], index)
  {
    SquareView(squares[index], StreakColor(primaryColor, darkMode, squares[index]), !hasSquarePress,
               if hasSquarePress then Some((squares[index], index)) else None)
  }

  /** The grid: `numRows` rows of `numCols` squares, square (r, c) showing `squares[r * numCols + c]`. */
  function GridView(squares: seq<int>, numRows: nat, numCols: nat, primaryColor: string, darkMode: bool,
                    hasSquarePress: bool): (g: seq<seq<SquareView>>)
    requires |squares| == numRows * numCols
    ensures |g| == numRows
    ensures forall r :: 0 <= r < numRows ==> |g[r]| == numCols
  {
    seq(numRows, r requires 0 <= r < numRows =>
      seq(numCols, c requires 0 <= c < numCols =>
        GridIndexBijective(r, c, numRows, numCols);
        RenderSquare(squares, GridIndex(r, c, numCols), primaryColor, darkMode, hasSquarePress)))
  }

  /** Square (r, c) shows entry `r * numCols + c`, coloured by its step, and reports that value and index. */
  lemma GridSquare(squares: seq<int>, numRows: nat, numCols: nat, primaryColor: string, darkMode: bool,
                   hasSquarePress: bool, r: int, c: int)
    requires |squares| == numRows * numCols
    requires 0 <= r < numRows && 0 <= c < numCols
    ensures GridIndex(r, c, numCols) < |squares|
    ensures var v := GridView(squares, numRows, numCols, primaryColor, darkMode, hasSquarePress)[r][c];
            v.value == squares[GridIndex(r, c, numCols)] &&
            v.color == StreakColor(primaryColor, darkMode, v.value) &&
            (v.press.Some? ==> v.press.value == (v.value, GridIndex(r, c, numCols)))
  {
    GridIndexBijective(r, c, numRows, numCols);
  }
}
