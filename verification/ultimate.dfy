/**
 * Ultimate tic-tac-toe with a forced board.  The main 3 x 3 board records
 * which sub-boards were won; a move names a sub-board and a cell inside it,
 * packed as `board * 3 + cell` in each coordinate, and the cell of a move
 * chooses the sub-board the next move must go to while that one is open.
 *
 * The sub-boards are `X_O_Board` objects, which are not part of this
 * model: what a sub-board answers (whether it takes the move, whether X or
 * O has won it, whether its game is over) is passed in by the caller.
 */
module Ultimate {
  import opened Grids
  import opened Encoding

  const Blank: char := '.'
  const Tie: char := 'T'

  predicate OnBoard(r: int, c: int) {
    0 <= r < 3 && 0 <= c < 3
  }

  /** The forced board: none, as (-1, -1), or a sub-board of the main board. */
  predicate ForcedValid(lastRow: int, lastCol: int) {
    (lastRow == -1 && lastCol == -1) || OnBoard(lastRow, lastCol)
  }

  /**
   * check_sub_board_win: X if X has won the sub-board, else O if O has,
   * else the tie symbol if its game is over, else blank.
   */
  function SubBoardWinner(xWins: bool, oWins: bool, finished: bool): (w: char)
    ensures w == 'X' <==> xWins
    ensures w == 'O' <==> !xWins && oWins
    ensures w == Tie <==> !xWins && !oWins && finished
    ensures w == Blank <==> !xWins && !oWins && !finished
  {
    if xWins then 'X' else if oWins then 'O' else if finished then Tie else Blank
  }

  /**
   * The sub-board checks of update_board: (br, bc) is on the main board and
   * not yet won, and no forced board is pending elsewhere (a forced board
   * that is itself won no longer binds).
   */
  predicate BoardOpen(main: Grid<char>, lastRow: int, lastCol: int, br: int, bc: int)
    requires IsGrid(main, 3, 3) && ForcedValid(lastRow, lastCol)
  {
    OnBoard(br, bc) && main[br][bc] == Blank &&
    !(lastRow != -1 && lastCol != -1 && (lastRow != br || lastCol != bc) && main[lastRow][lastCol] == Blank)
  }

  /** Every check update_board makes on the packed coordinates before asking the sub-board. */
  predicate Admits(main: Grid<char>, lastRow: int, lastCol: int, x: int, y: int)
    requires IsGrid(main, 3, 3) && ForcedValid(lastRow, lastCol)
  {
    var (br, cr) := Decode(x, 3);
    var (bc, cc) := Decode(y, 3);
    Digit(br) && Digit(cr) && Digit(bc) && Digit(cc) && BoardOpen(main, lastRow, lastCol, br, bc)
  }

  /**
   * An admitted move has coordinates 0..8 in both directions, and while a
   * forced board is set and still open the move goes to that board.
   */
  lemma AdmitsForced(main: Grid<char>, lastRow: int, lastCol: int, x: int, y: int)
    requires IsGrid(main, 3, 3) && ForcedValid(lastRow, lastCol)
    requires Admits(main, lastRow, lastCol, x, y)
    ensures 0 <= x < 9 && 0 <= y < 9
    ensures lastRow != -1 && main[lastRow][lastCol] == Blank ==> Decode(x, 3).0 == lastRow && Decode(y, 3).0 == lastCol
  {
    DecodeDigits(x, 3);
    DecodeDigits(y, 3);
  }

  /** How update_board records the sub-board's verdict: only an X or O win closes the main cell. */
  function Record(main: Grid<char>, br: int, bc: int, w: char): (h: Grid<char>)
    requires IsGrid(main, 3, 3) && OnBoard(br, bc)
    ensures IsGrid(h, 3, 3)
  {
    if w != Blank && w != Tie then Put(main, br, bc, w) else main
  }

  /** The main board holds only blanks, the marks of won sub-boards and ties. */
  predicate MainMarks(main: Grid<char>)
    requires IsGrid(main, 3, 3)
  {
    forall i, j :: 0 <= i < 3 && 0 <= j < 3 ==>
      main[i][j] == Blank || main[i][j] == 'X' || main[i][j] == 'O' || main[i][j] == Tie
  }

  // ---------------------------------------------------------------- available boards

  /** The blank main cells among the first `k` in row-major order, in that order. */
  function OpenPrefix(main: Grid<char>, k: nat): seq<(int, int)>
    requires IsGrid(main, 3, 3) && k <= 9
  {
    if k == 0 then []
    else
      var r, c := (k - 1) / 3, (k - 1) % 3;
      OpenPrefix(main, k - 1) + (if main[r][c] == Blank then [(r, c)] else [])
  }

  lemma {:induction false} OpenPrefixSpec(main: Grid<char>, k: nat)
    requires IsGrid(main, 3, 3) && k <= 9
    ensures forall p :: p in OpenPrefix(main, k) <==> OnBoard(p.0, p.1) && 3 * p.0 + p.1 < k && main[p.0][p.1] == Blank
  {
    if k > 0 {
      OpenPrefixSpec(main, k - 1);
      var r, c := (k - 1) / 3, (k - 1) % 3;
      forall p: (int, int) | OnBoard(p.0, p.1)
        ensures 3 * p.0 + p.1 == k - 1 <==> p == (r, c)
      {
        if 3 * p.0 + p.1 == k - 1 {
          LemmaDivModUnique(k - 1, 3, p.0, p.1);
        }
      }
    }
  }

  /**
   * get_available_boards: with no forced board, or a forced board that is
   * already won, every open sub-board in row-major order; otherwise the
   * forced board alone.
   */
  function AvailableBoards(main: Grid<char>, lastRow: int, lastCol: int): seq<(int, int)>
    requires IsGrid(main, 3, 3) && ForcedValid(lastRow, lastCol)
  {
    if lastRow == -1 || lastCol == -1 then OpenPrefix(main, 9)
    else if main[lastRow][lastCol] == Blank then [(lastRow, lastCol)]
    else OpenPrefix(main, 9)
  }

  /** The boards offered are exactly the boards update_board lets a move go to. */
  lemma AvailableIsOpen(main: Grid<char>, lastRow: int, lastCol: int)
    requires IsGrid(main, 3, 3) && ForcedValid(lastRow, lastCol)
    ensures forall p :: p in AvailableBoards(main, lastRow, lastCol) <==> BoardOpen(main, lastRow, lastCol, p.0, p.1)
  {
    OpenPrefixSpec(main, 9);
  }

  /**
   * A move to an offered board and any cell in it passes update_board's
   * checks, and every move that passes them goes to an offered board.
   */
  lemma AvailableAdmits(main: Grid<char>, lastRow: int, lastCol: int, x: int, y: int)
    requires IsGrid(main, 3, 3) && ForcedValid(lastRow, lastCol)
    ensures Admits(main, lastRow, lastCol, x, y) <==>
              (Decode(x, 3).0, Decode(y, 3).0) in AvailableBoards(main, lastRow, lastCol) &&
              Digit(Decode(x, 3).1) && Digit(Decode(y, 3).1)
  {
    AvailableIsOpen(main, lastRow, lastCol);
    var p := (Decode(x, 3).0, Decode(y, 3).0);
    if p in AvailableBoards(main, lastRow, lastCol) {
      assert BoardOpen(main, lastRow, lastCol, p.0, p.1);
    }
  }

  // ---------------------------------------------------------------- win and draw

  /** is_win: a row, a column or a diagonal of the main board holds `sym`. */
  predicate IsWin(main: Grid<char>, sym: char)
    requires IsGrid(main, 3, 3)
  {
    ThreeInRow(main, sym)
  }

  /** is_draw: no main cell is blank and the player has not won. */
  predicate IsDraw(main: Grid<char>, sym: char)
    requires IsGrid(main, 3, 3)
  {
    (forall i, j :: 0 <= i < 3 && 0 <= j < 3 ==> main[i][j] != Blank) && !IsWin(main, sym)
  }

  predicate GameIsOver(main: Grid<char>, sym: char)
    requires IsGrid(main, 3, 3)
  {
    IsWin(main, sym) || IsDraw(main, sym)
  }

  /** A win is three won sub-boards in a straight line, and a draw and a win exclude each other. */
  lemma WinIsRun(main: Grid<char>, sym: char)
    requires IsGrid(main, 3, 3)
    ensures IsWin(main, sym) <==> HasRun(main, 3, sym)
    ensures !(IsWin(main, sym) && IsDraw(main, sym))
  {
    ThreeInRowIsRun(main, sym);
  }

  // ---------------------------------------------------------------- the tie finding

  /**
   * As written, a sub-board whose game ends without a winner keeps its
   * blank main cell: the board is still offered, and the main board can
   * then never be full, so no draw is ever declared.
   */
  lemma TieKeepsBoardOpen(main: Grid<char>, br: int, bc: int, sym: char)
    requires IsGrid(main, 3, 3) && OnBoard(br, bc) && main[br][bc] == Blank
    ensures Record(main, br, bc, SubBoardWinner(false, false, true))[br][bc] == Blank
    ensures !IsDraw(Record(main, br, bc, SubBoardWinner(false, false, true)), sym)
    ensures (br, bc) in AvailableBoards(Record(main, br, bc, SubBoardWinner(false, false, true)), -1, -1)
  {
    var h := Record(main, br, bc, SubBoardWinner(false, false, true));
    AvailableIsOpen(h, -1, -1);
    assert BoardOpen(h, -1, -1, br, bc);
  }

  /** The evidently intended recording: every finished sub-board, tied ones included, closes its main cell. */
  function RecordClosing(main: Grid<char>, br: int, bc: int, w: char): (h: Grid<char>)
    requires IsGrid(main, 3, 3) && OnBoard(br, bc)
    ensures IsGrid(h, 3, 3)
  {
    if w != Blank then Put(main, br, bc, w) else main
  }

  /**
   * With the intended recording, a finished sub-board, tied or won, is no
   * longer offered under any forced board, so a main board whose sub-boards
   * are all finished is full and is_draw can hold.
   */
  lemma FinishedBoardCloses(main: Grid<char>, br: int, bc: int, xWins: bool, oWins: bool, finished: bool, lastRow: int, lastCol: int)
    requires IsGrid(main, 3, 3) && OnBoard(br, bc) && ForcedValid(lastRow, lastCol)
    requires xWins || oWins || finished
    ensures var h := RecordClosing(main, br, bc, SubBoardWinner(xWins, oWins, finished));
            h[br][bc] != Blank && (br, bc) !in AvailableBoards(h, lastRow, lastCol)
  {
    var h := RecordClosing(main, br, bc, SubBoardWinner(xWins, oWins, finished));
    AvailableIsOpen(h, lastRow, lastCol);
  }

  // ---------------------------------------------------------------- the board

  /** Ultimate_XO_Board: the main board, the forced board and the move counter. */
  class UltimateBoard {
    var mainBoard: Grid<char>
    var lastRow: int
    var lastCol: int
    var nMoves: int

    ghost predicate Valid()
      reads this
    {
      IsGrid(mainBoard, 3, 3) && ForcedValid(lastRow, lastCol)
    }

    /** An all-blank main board and no forced board. */
    constructor ()
      ensures Valid() && mainBoard == Uniform(3, 3, Blank) && lastRow == -1 && lastCol == -1 && nMoves == 0
      ensures MainMarks(mainBoard)
    {
      mainBoard := Uniform(3, 3, Blank);
      lastRow, lastCol := -1, -1;
      nMoves := 0;
    }

    /**
     * update_board: the coordinates are unpacked with base 3 and checked;
     * then the sub-board decides (`subAccepts`).  A taken move makes its
     * cell the next forced board, records the sub-board's verdict after
     * the move (`xWins`, `oWins`, `finished`) and counts the move; a
     * refused one changes nothing.  Only an X or O win is written to the
     * main board (`Record`): a tied sub-board keeps its blank main cell.
     */
    method UpdateBoard(x: int, y: int, subAccepts: bool, xWins: bool, oWins: bool, finished: bool) returns (ok: bool)
      requires Valid()
      modifies this
      ensures Valid()
      ensures ok <==> old(Admits(mainBoard, lastRow, lastCol, x, y)) && subAccepts
      ensures !ok ==> mainBoard == old(mainBoard) && lastRow == old(lastRow) && lastCol == old(lastCol) && nMoves == old(nMoves)
      ensures ok ==> var (br, cr) := Decode(x, 3);
                     var (bc, cc) := Decode(y, 3);
                     lastRow == cr && lastCol == cc && nMoves == old(nMoves) + 1 &&
                     mainBoard == Record(old(mainBoard), br, bc, SubBoardWinner(xWins, oWins, finished))
      ensures old(MainMarks(mainBoard)) ==> MainMarks(mainBoard)
      ensures forall i, j :: 0 <= i < 3 && 0 <= j < 3 && old(mainBoard)[i][j] != Blank ==> mainBoard[i][j] == old(mainBoard)[i][j]
    {
      var (boardRow, cellRow) := Decode(x, 3);
      var (boardCol, cellCol) := Decode(y, 3);
      if boardRow < 0 || boardRow >= 3 || boardCol < 0 || boardCol >= 3 ||
         cellRow < 0 || cellRow >= 3 || cellCol < 0 || cellCol >= 3 {
        return false;
      }
      if mainBoard[boardRow][boardCol] != Blank {
        return false;
      }
      if lastRow != -1 && lastCol != -1 {
        if lastRow != boardRow || lastCol != boardCol {
          if mainBoard[lastRow][lastCol] == Blank {
            return false;
          }
        }
      }
      if subAccepts {
        lastRow, lastCol := cellRow, cellCol;
        var winner := SubBoardWinner(xWins, oWins, finished);
        if winner != Blank && winner != Tie {
          mainBoard := Put(mainBoard, boardRow, boardCol, winner);
        }
        nMoves := nMoves + 1;
        return true;
      }
      return false;
    }

    /**
     * The update with the intended recording: the same checks, forced
     * board and move count as `UpdateBoard`, and then a tied sub-board is
     * marked T as well, so every finished sub-board closes
     * (`RecordClosing`, see `FinishedBoardCloses`).
     */
    method UpdateBoardClosing(x: int, y: int, subAccepts: bool, xWins: bool, oWins: bool, finished: bool) returns (ok: bool)
      requires Valid()
      modifies this
      ensures Valid()
      ensures ok <==> old(Admits(mainBoard, lastRow, lastCol, x, y)) && subAccepts
      ensures !ok ==> mainBoard == old(mainBoard) && lastRow == old(lastRow) && lastCol == old(lastCol) && nMoves == old(nMoves)
      ensures ok ==> var (br, cr) := Decode(x, 3);
                     var (bc, cc) := Decode(y, 3);
                     lastRow == cr && lastCol == cc && nMoves == old(nMoves) + 1 &&
                     mainBoard == RecordClosing(old(mainBoard), br, bc, SubBoardWinner(xWins, oWins, finished))
      ensures old(MainMarks(mainBoard)) ==> MainMarks(mainBoard)
      ensures forall i, j :: 0 <= i < 3 && 0 <= j < 3 && old(mainBoard)[i][j] != Blank ==> mainBoard[i][j] == old(mainBoard)[i][j]
    {
      ghost var before := mainBoard;
      ok := UpdateBoard(x, y, subAccepts, xWins, oWins, finished);
      if ok && SubBoardWinner(xWins, oWins, finished) == Tie {
        var boardRow := Decode(x, 3).0;
        var boardCol := Decode(y, 3).0;
        assert mainBoard == before;
        mainBoard := Put(mainBoard, boardRow, boardCol, Tie);
      }
    }

    /** The blank main cells in row-major order, by the nested scan of get_available_boards. */
    method OpenBoards() returns (available: seq<(int, int)>)
      requires Valid()
      ensures available == OpenPrefix(mainBoard, 9)
    {
      available := [];
      var i := 0;
      while i < 3
        invariant 0 <= i <= 3
        invariant available == OpenPrefix(mainBoard, 3 * i)
      {
        var j := 0;
        while j < 3
          invariant 0 <= j <= 3
          invariant available == OpenPrefix(mainBoard, 3 * i + j)
        {
          LemmaDivModUnique(3 * i + j, 3, i, j);
          if mainBoard[i][j] == Blank {
            available := available + [(i, j)];
          }
          j := j + 1;
        }
        i := i + 1;
      }
    }

    /** get_available_boards: the sub-boards the next move may go to. */
    method GetAvailableBoards() returns (available: seq<(int, int)>)
      requires Valid()
      ensures available == AvailableBoards(mainBoard, lastRow, lastCol)
      ensures forall p :: p in available <==> BoardOpen(mainBoard, lastRow, lastCol, p.0, p.1)
    {
      AvailableIsOpen(mainBoard, lastRow, lastCol);
      if lastRow == -1 || lastCol == -1 {
        available := OpenBoards();
      } else if mainBoard[lastRow][lastCol] == Blank {
        available := [(lastRow, lastCol)];
      } else {
        available := OpenBoards();
      }
    }
  }
}
