/**
 * The Four-in-a-Row board: a 6 x 7 matrix of `' '` (blank) cells, pieces
 * dropped into columns, four in a line wins.
 */
module ConnectFour {
  import opened Grids

  const Rows: int := 6
  const Columns: int := 7
  const Blank: char := ' '

  predicate IsBoard(g: Grid<char>) {
    IsGrid(g, 6, 7)
  }

  /** Scan of column `col` from row `row` upwards for the first blank cell. */
  function LowestFrom(g: Grid<char>, col: int, row: int): (r: int)
    requires IsBoard(g) && 0 <= col < 7 && -1 <= row < 6
    ensures -1 <= r <= row
    ensures r == -1 ==> forall k :: 0 <= k <= row ==> g[k][col] != Blank
    ensures r >= 0 ==> g[r][col] == Blank && forall k :: r < k <= row ==> g[k][col] != Blank
    decreases row + 1
  {
    if row < 0 then -1
    else if g[row][col] == Blank then row
    else LowestFrom(g, col, row - 1)
  }

  /**
   * The row a piece dropped into `col` lands in: the greatest blank row of
   * the column, or -1 when the column has no blank cell.
   */
  function LowestRow(g: Grid<char>, col: int): (row: int)
    requires IsBoard(g) && 0 <= col < 7
    ensures -1 <= row < 6
    ensures row == -1 <==> forall k :: 0 <= k < 6 ==> g[k][col] != Blank
    ensures row >= 0 ==> g[row][col] == Blank && forall k :: row < k < 6 ==> g[k][col] != Blank
  {
    LowestFrom(g, col, 5)
  }

  // ---------------------------------------------------------------- line checks

  /** The four cells check_horizontal compares at (row, col). */
  predicate HorizontalAt(g: Grid<char>, row: int, col: int, s: char)
    requires IsBoard(g) && 0 <= row < 6 && 0 <= col <= 3
  {
    g[row][col] == s && g[row][col + 1] == s && g[row][col + 2] == s && g[row][col + 3] == s
  }

  /** The four cells check_vertical compares at (row, col). */
  predicate VerticalAt(g: Grid<char>, row: int, col: int, s: char)
    requires IsBoard(g) && 0 <= row <= 2 && 0 <= col < 7
  {
    g[row][col] == s && g[row + 1][col] == s && g[row + 2][col] == s && g[row + 3][col] == s
  }

  /** The four cells of check_diagonal's bottom-left to top-right test at (row, col). */
  predicate RisingAt(g: Grid<char>, row: int, col: int, s: char)
    requires IsBoard(g) && 3 <= row < 6 && 0 <= col <= 3
  {
    g[row][col] == s && g[row - 1][col + 1] == s && g[row - 2][col + 2] == s && g[row - 3][col + 3] == s
  }

  /** The four cells of check_diagonal's top-left to bottom-right test at (row, col). */
  predicate FallingAt(g: Grid<char>, row: int, col: int, s: char)
    requires IsBoard(g) && 0 <= row <= 2 && 0 <= col <= 3
  {
    g[row][col] == s && g[row + 1][col + 1] == s && g[row + 2][col + 2] == s && g[row + 3][col + 3] == s
  }

  predicate CheckHorizontal(g: Grid<char>, s: char)
    requires IsBoard(g)
  {
    exists row, col :: 0 <= row < 6 && 0 <= col <= 3 && HorizontalAt(g, row, col, s)
  }

  predicate CheckVertical(g: Grid<char>, s: char)
    requires IsBoard(g)
  {
    exists col, row :: 0 <= col < 7 && 0 <= row <= 2 && VerticalAt(g, row, col, s)
  }

  predicate CheckDiagonal(g: Grid<char>, s: char)
    requires IsBoard(g)
  {
    (exists row, col :: 3 <= row < 6 && 0 <= col <= 3 && RisingAt(g, row, col, s))
    || (exists row, col :: 0 <= row <= 2 && 0 <= col <= 3 && FallingAt(g, row, col, s))
  }

  predicate CheckFourInRow(g: Grid<char>, s: char)
    requires IsBoard(g)
  {
    CheckHorizontal(g, s) || CheckVertical(g, s) || CheckDiagonal(g, s)
  }

  /** The board's three scans find exactly the straight lines of four `s`. */
  lemma CheckFourInRowIsRun(g: Grid<char>, s: char)
    requires IsBoard(g)
    ensures CheckFourInRow(g, s) <==> HasRun(g, 4, s)
  {
    if CheckHorizontal(g, s) {
      var row, col :| 0 <= row < 6 && 0 <= col <= 3 && HorizontalAt(g, row, col, s);
      Run4(g, row, col, East, s);
    } else if CheckVertical(g, s) {
      var col, row :| 0 <= col < 7 && 0 <= row <= 2 && VerticalAt(g, row, col, s);
      Run4(g, row, col, South, s);
    } else if row, col :| 3 <= row < 6 && 0 <= col <= 3 && RisingAt(g, row, col, s) {
      Run4(g, row, col, NorthEast, s);
    } else if row, col :| 0 <= row <= 2 && 0 <= col <= 3 && FallingAt(g, row, col, s) {
      Run4(g, row, col, SouthEast, s);
    }
    if HasRun(g, 4, s) {
      var r, c, d :| Run(g, r, c, d, 4, s);
      assert CellIs(g, r, c, d, 0, s) && CellIs(g, r, c, d, 1, s);
      assert CellIs(g, r, c, d, 2, s) && CellIs(g, r, c, d, 3, s);
      match d
      case East => assert HorizontalAt(g, r, c, s);
      case South => assert VerticalAt(g, r, c, s);
      case NorthEast => assert RisingAt(g, r, c, s);
      case SouthEast => assert FallingAt(g, r, c, s);
    }
  }

  // ---------------------------------------------------------------- game status

  predicate IsWin(g: Grid<char>, sym: char)
    requires IsBoard(g)
  {
    CheckFourInRow(g, sym)
  }

  /** A player never loses by their own move on this board. */
  predicate IsLose(g: Grid<char>, sym: char) {
    false
  }

  predicate IsDraw(g: Grid<char>, nMoves: int)
    requires IsBoard(g)
  {
    nMoves >= Rows * Columns && !CheckFourInRow(g, 'X') && !CheckFourInRow(g, 'O')
  }

  predicate GameIsOver(g: Grid<char>, nMoves: int)
    requires IsBoard(g)
  {
    CheckFourInRow(g, 'X') || CheckFourInRow(g, 'O') || nMoves >= Rows * Columns
  }

  // ---------------------------------------------------------------- invariant

  /** The cell below a taken cell (r, c) is taken too. */
  predicate Supported(g: Grid<char>, r: int, c: int)
    requires IsBoard(g) && 0 <= r < 5 && 0 <= c < 7
  {
    g[r][c] != Blank ==> g[r + 1][c] != Blank
  }

  /** Gravity: every piece rests on a piece or on the bottom row. */
  predicate Stacked(g: Grid<char>)
    requires IsBoard(g)
  {
    forall r, c :: 0 <= r < 5 && 0 <= c < 7 ==> Supported(g, r, c)
  }

  /** The state reachable by dropping non-blank pieces: stacked, one move per filled cell. */
  predicate Consistent(g: Grid<char>, nMoves: int) {
    IsBoard(g) && Stacked(g) && nMoves + Count(g, Blank) == 42
  }

  /** Dropping a non-blank piece into a column with room keeps the board consistent. */
  lemma DropPreservesConsistent(g: Grid<char>, nMoves: int, col: int, mark: char)
    requires Consistent(g, nMoves) && 0 <= col < 7 && LowestRow(g, col) != -1 && mark != Blank
    ensures Consistent(Put(g, LowestRow(g, col), col, mark), nMoves + 1)
  {
    var row := LowestRow(g, col);
    var h := Put(g, row, col, mark);
    CountPut(g, row, col, mark, Blank);
    forall r, c | 0 <= r < 5 && 0 <= c < 7
      ensures Supported(h, r, c)
    {
      assert Supported(g, r, c);
    }
  }

  /** On a stacked board a column is full exactly when its top cell is taken. */
  lemma FullColumnIffTopTaken(g: Grid<char>, col: int)
    requires IsBoard(g) && Stacked(g) && 0 <= col < 7
    ensures LowestRow(g, col) == -1 <==> g[0][col] != Blank
  {
    if g[0][col] != Blank {
      var k := 0;
      while k < 5
        invariant 0 <= k <= 5
        invariant forall j :: 0 <= j <= k ==> g[j][col] != Blank
      {
        assert Supported(g, k, col);
        k := k + 1;
      }
    }
  }

  /**
   * On a consistent board the game is over exactly when a player has four
   * in a row or no column has room for another piece.
   */
  lemma GameOverIffWinOrFull(g: Grid<char>, nMoves: int)
    requires Consistent(g, nMoves)
    ensures GameIsOver(g, nMoves) <==>
      CheckFourInRow(g, 'X') || CheckFourInRow(g, 'O') || forall col :: 0 <= col < 7 ==> LowestRow(g, col) == -1
  {
    CountZero(g, Blank);
    if forall col :: 0 <= col < 7 ==> LowestRow(g, col) == -1 {
      assert forall i, j :: 0 <= i < 6 && 0 <= j < 7 ==> g[i][j] != Blank by {
        forall i, j | 0 <= i < 6 && 0 <= j < 7 ensures g[i][j] != Blank {
          assert LowestRow(g, j) == -1;
        }
      }
    } else {
      var col :| 0 <= col < 7 && LowestRow(g, col) != -1;
      assert g[LowestRow(g, col)][col] == Blank;
    }
  }

  /** A drawn game is an over game that neither player won. */
  lemma DrawIffOverWithoutWinner(g: Grid<char>, nMoves: int)
    requires IsBoard(g)
    ensures IsDraw(g, nMoves) <==> GameIsOver(g, nMoves) && !IsWin(g, 'X') && !IsWin(g, 'O')
  {
  }

  /** FourInARow_Board: the board matrix and the number of accepted moves. */
  class Board {
    var board: Grid<char>
    var nMoves: int

    ghost predicate Valid()
      reads this
    {
      IsBoard(board)
    }

    constructor ()
      ensures Valid() && board == Uniform(6, 7, Blank) && nMoves == 0
      ensures Consistent(board, nMoves)
    {
      board := Uniform(6, 7, Blank);
      nMoves := 0;
      new;
      UniformConsistent();
    }

    /**
     * update_board: drop `mark` into column `col`; refused (and nothing
     * changes) when the column is out of range or full.
     */
    method UpdateBoard(col: int, mark: char) returns (ok: bool)
      requires Valid()
      modifies this
      ensures Valid()
      ensures ok <==> 0 <= col < 7 && LowestRow(old(board), col) != -1
      ensures ok ==> board == Put(old(board), LowestRow(old(board), col), col, mark)
                     && nMoves == old(nMoves) + 1
      ensures !ok ==> board == old(board) && nMoves == old(nMoves)
      ensures ok && mark != Blank && old(Consistent(board, nMoves)) ==> Consistent(board, nMoves)
    {
      if col < 0 || col >= Columns {
        return false;
      }
      var row := LowestRow(board, col);
      if row == -1 {
        return false;
      }
      if mark != Blank && Consistent(board, nMoves) {
        DropPreservesConsistent(board, nMoves, col, mark);
      }
      board := Put(board, row, col, mark);
      nMoves := nMoves + 1;
      ok := true;
    }
  }

  /** The empty board is consistent with zero moves. */
  lemma UniformConsistent()
    ensures Consistent(Uniform(6, 7, Blank), 0)
  {
    CountAll(Uniform(6, 7, Blank), Blank, 6, 7);
  }
}
