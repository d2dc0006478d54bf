/**
 * The second ultimate tic-tac-toe board: any open sub-board may be played,
 * a move packs the sub-board and the cell as `board * 10 + cell` in each
 * coordinate, and the main board records a win as X or O and a finished
 * sub-board without a winner as the tie mark T.
 *
 * The sub-boards are `X_O_Board` objects, which are not part of this
 * model: what a sub-board answers (whether it takes the move, whether X or
 * O has won it, whether it is drawn) is passed in by the caller.
 */
module UltimateDecimal {
  import opened Grids
  import opened Encoding

  const Blank: char := ' '
  const Tie: char := 'T'

  datatype Option<T> = None | Some(value: T)

  predicate OnBoard(r: int, c: int) {
    0 <= r < 3 && 0 <= c < 3
  }

  /**
   * check_sub_board_winner: X if X has won the sub-board, else O if O has,
   * else T if it is drawn, else blank while it is still being played.
   */
  function SubBoardWinner(xWins: bool, oWins: bool, drawn: bool): (w: char)
    ensures w == 'X' <==> xWins
    ensures w == 'O' <==> !xWins && oWins
    ensures w == Tie <==> !xWins && !oWins && drawn
    ensures w == Blank <==> !xWins && !oWins && !drawn
  {
    if xWins then 'X' else if oWins then 'O' else if drawn then Tie else Blank
  }

  /** is_board_available: the sub-board is on the main board and its main cell is blank. */
  predicate IsBoardAvailable(main: Grid<char>, r: int, c: int)
    requires IsGrid(main, 3, 3)
  {
    if r < 0 || r > 2 || c < 0 || c > 2 then false else main[r][c] == Blank
  }

  /**
   * get_sub_board: the row-major index of the sub-board among the nine, or
   * nothing (a null pointer) off the main board.
   */
  function GetSubBoard(r: int, c: int): (o: Option<nat>)
    ensures o.Some? <==> OnBoard(r, c)
    ensures o.Some? ==> o.value < 9 && o.value / 3 == r && o.value % 3 == c
  {
    if r >= 0 && r < 3 && c >= 0 && c < 3 then
      LemmaDivModUnique(3 * r + c, 3, r, c);
      Some(3 * r + c)
    else None
  }

  /** Every check update_board makes on the packed coordinates before asking the sub-board. */
  predicate Admits(main: Grid<char>, x: int, y: int)
    requires IsGrid(main, 3, 3)
  {
    var (br, cr) := Decode(x, 10);
    var (bc, cc) := Decode(y, 10);
    Digit(br) && Digit(cr) && Digit(bc) && Digit(cc) && main[br][bc] == Blank
  }

  /**
   * update_board admits exactly the moves packed from an available
   * sub-board and a cell 0..2 in each direction; every admitted coordinate
   * is one of 0, 1, 2, 10, 11, 12, 20, 21, 22.
   */
  lemma AdmitsAvailable(main: Grid<char>, x: int, y: int)
    requires IsGrid(main, 3, 3)
    ensures Admits(main, x, y) <==>
              IsBoardAvailable(main, Decode(x, 10).0, Decode(y, 10).0) && Digit(Decode(x, 10).1) && Digit(Decode(y, 10).1)
    ensures Admits(main, x, y) ==> 0 <= x && x / 10 <= 2 && x % 10 <= 2 && 0 <= y && y / 10 <= 2 && y % 10 <= 2
  {
    DecodeDigits(x, 10);
    DecodeDigits(y, 10);
  }

  /** A packed move from an available sub-board and a cell 0..2 is admitted. */
  lemma EncodedMoveAdmitted(main: Grid<char>, br: int, bc: int, cr: int, cc: int)
    requires IsGrid(main, 3, 3) && IsBoardAvailable(main, br, bc) && Digit(cr) && Digit(cc)
    ensures Admits(main, Encode(br, cr, 10), Encode(bc, cc, 10))
  {
    DecodeEncode(br, cr, 10);
    DecodeEncode(bc, cc, 10);
  }

  /** How update_board records the sub-board's verdict: anything but blank closes the main cell. */
  function Record(main: Grid<char>, br: int, bc: int, w: char): (h: Grid<char>)
    requires IsGrid(main, 3, 3) && OnBoard(br, bc)
    ensures IsGrid(h, 3, 3)
  {
    if w != Blank then Put(main, br, bc, w) else main
  }

  /** A sub-board that is won or drawn is closed on the main board and no longer available. */
  lemma FinishedBoardCloses(main: Grid<char>, br: int, bc: int, xWins: bool, oWins: bool, drawn: bool)
    requires IsGrid(main, 3, 3) && OnBoard(br, bc)
    ensures var h := Record(main, br, bc, SubBoardWinner(xWins, oWins, drawn));
            IsBoardAvailable(h, br, bc) <==> main[br][bc] == Blank && !xWins && !oWins && !drawn
  {
  }

  /** The main board holds only blanks, the marks of won sub-boards and ties. */
  predicate MainMarks(main: Grid<char>)
    requires IsGrid(main, 3, 3)
  {
    forall i, j :: 0 <= i < 3 && 0 <= j < 3 ==>
      main[i][j] == Blank || main[i][j] == 'X' || main[i][j] == 'O' || main[i][j] == Tie
  }

  // ---------------------------------------------------------------- win and draw

  /** is_win: a row, a column or a diagonal of the main board holds `sym`. */
  predicate IsWin(main: Grid<char>, sym: char)
    requires IsGrid(main, 3, 3)
  {
    ThreeInRow(main, sym)
  }

  /** is_draw: no sub-board is still open and neither X nor O has won. */
  predicate IsDraw(main: Grid<char>)
    requires IsGrid(main, 3, 3)
  {
    (forall i, j :: 0 <= i < 3 && 0 <= j < 3 ==> main[i][j] != Blank) && !IsWin(main, 'X') && !IsWin(main, 'O')
  }

  predicate GameIsOver(main: Grid<char>, sym: char)
    requires IsGrid(main, 3, 3)
  {
    IsWin(main, sym) || IsDraw(main)
  }

  /**
   * A win is three closed sub-boards of the symbol in a straight line, a
   * draw excludes a win by X or O, and a draw means no sub-board is
   * available.
   */
  lemma WinAndDraw(main: Grid<char>, sym: char)
    requires IsGrid(main, 3, 3)
    ensures IsWin(main, sym) <==> HasRun(main, 3, sym)
    ensures (sym == 'X' || sym == 'O') && IsDraw(main) ==> !IsWin(main, sym)
    ensures IsDraw(main) ==> forall r, c :: !IsBoardAvailable(main, r, c)
  {
    ThreeInRowIsRun(main, sym);
  }

  // ---------------------------------------------------------------- the board

  /** Ultimate_XO_Board: the main board and the move counter. */
  class UltimateBoard {
    var mainBoard: Grid<char>
    var nMoves: int

    ghost predicate Valid()
      reads this
    {
      IsGrid(mainBoard, 3, 3)
    }

    constructor ()
      ensures Valid() && mainBoard == Uniform(3, 3, Blank) && nMoves == 0
      ensures MainMarks(mainBoard)
      ensures forall r, c :: OnBoard(r, c) ==> IsBoardAvailable(mainBoard, r, c)
    {
      mainBoard := Uniform(3, 3, Blank);
      nMoves := 0;
    }

    /**
     * update_board: the coordinates are unpacked with base 10 and checked,
     * the main cell must be open, and the sub-board decides (`subAccepts`).
     * A taken move is counted and the sub-board's verdict after it
     * (`xWins`, `oWins`, `drawn`) is recorded; a refused one changes nothing.
     */
    method UpdateBoard(x: int, y: int, subAccepts: bool, xWins: bool, oWins: bool, drawn: bool) returns (ok: bool)
      requires Valid()
      modifies this
      ensures Valid()
      ensures ok <==> old(Admits(mainBoard, x, y)) && subAccepts
      ensures !ok ==> mainBoard == old(mainBoard) && nMoves == old(nMoves)
      ensures ok ==> nMoves == old(nMoves) + 1 &&
                     mainBoard == Record(old(mainBoard), Decode(x, 10).0, Decode(y, 10).0, SubBoardWinner(xWins, oWins, drawn))
      ensures old(MainMarks(mainBoard)) ==> MainMarks(mainBoard)
      ensures forall i, j :: 0 <= i < 3 && 0 <= j < 3 && old(mainBoard)[i][j] != Blank ==> mainBoard[i][j] == old(mainBoard)[i][j]
    {
      var (boardRow, cellRow) := Decode(x, 10);
      var (boardCol, cellCol) := Decode(y, 10);
      if boardRow < 0 || boardRow > 2 || boardCol < 0 || boardCol > 2 ||
         cellRow < 0 || cellRow > 2 || cellCol < 0 || cellCol > 2 {
        return false;
      }
      if mainBoard[boardRow][boardCol] != Blank {
        return false;
      }
      if !subAccepts {
        return false;
      }
      nMoves := nMoves + 1;
      var winner := SubBoardWinner(xWins, oWins, drawn);
      if winner != Blank {
        mainBoard := Put(mainBoard, boardRow, boardCol, winner);
      }
      return true;
    }
  }
}
