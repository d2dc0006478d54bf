/**
 * Misère tic-tac-toe: three in a row loses.  A player wins when the
 * opponent has three in a row and loses with three of their own.
 */
module Misere {
  import opened Grids

  const Blank: char := ' '

  predicate OnBoard(x: int, y: int) {
    0 <= x < 3 && 0 <= y < 3
  }

  /** has_three_in_row: a row, a column or a diagonal holds the symbol three times. */
  predicate HasThreeInRow(g: Grid<char>, symbol: char)
    requires IsGrid(g, 3, 3)
  {
    ThreeInRow(g, symbol)
  }

  /** is_win: the opponent (`'O'` for `'X'`, otherwise `'X'`) has three in a row. */
  predicate IsWin(g: Grid<char>, sym: char)
    requires IsGrid(g, 3, 3)
  {
    HasThreeInRow(g, Opponent(sym))
  }

  /** is_lose: the player has three in a row. */
  predicate IsLose(g: Grid<char>, sym: char)
    requires IsGrid(g, 3, 3)
  {
    HasThreeInRow(g, sym)
  }

  /** is_draw: nine moves and neither X nor O has three in a row. */
  predicate IsDraw(g: Grid<char>, nMoves: int)
    requires IsGrid(g, 3, 3)
  {
    nMoves >= 9 && !HasThreeInRow(g, 'X') && !HasThreeInRow(g, 'O')
  }

  /** game_is_over: X or O has three in a row, or nine moves were made. */
  predicate GameIsOver(g: Grid<char>, nMoves: int)
    requires IsGrid(g, 3, 3)
  {
    HasThreeInRow(g, 'X') || HasThreeInRow(g, 'O') || nMoves >= 9
  }

  /**
   * For X and O, one player's win is the other's loss, and the game is over
   * exactly when the player has won, lost or drawn.
   */
  lemma WinIsOpponentLoss(g: Grid<char>, nMoves: int, p: char)
    requires IsGrid(g, 3, 3) && (p == 'X' || p == 'O')
    ensures IsWin(g, p) == IsLose(g, Opponent(p))
    ensures IsLose(g, p) <==> HasRun(g, 3, p)
    ensures GameIsOver(g, nMoves) <==> IsWin(g, p) || IsLose(g, p) || IsDraw(g, nMoves)
    ensures IsDraw(g, nMoves) ==> !IsWin(g, p) && !IsLose(g, p)
  {
    ThreeInRowIsRun(g, p);
  }

  /** Every move filled one blank cell (`Grids.MovesFillBoard` then says nine moves means a full board). */
  predicate Consistent(g: Grid<char>, nMoves: int) {
    IsGrid(g, 3, 3) && nMoves + Count(g, Blank) == 9
  }

  /** Misere_Board: the matrix and the move counter. */
  class MisereBoard {
    var board: Grid<char>
    var nMoves: int

    ghost predicate Valid()
      reads this
    {
      IsGrid(board, 3, 3)
    }

    constructor ()
      ensures Valid() && board == Uniform(3, 3, Blank) && nMoves == 0
      ensures Consistent(board, nMoves)
    {
      board := Uniform(3, 3, Blank);
      nMoves := 0;
      new;
      CountAll(board, Blank, 3, 3);
    }

    /**
     * update_board: refuses an off-board or taken cell with no change;
     * otherwise writes the mark as given and counts the move.
     */
    method UpdateBoard(x: int, y: int, mark: char) returns (ok: bool)
      requires Valid()
      modifies this
      ensures Valid()
      ensures ok <==> OnBoard(x, y) && old(board)[x][y] == Blank
      ensures !ok ==> board == old(board) && nMoves == old(nMoves)
      ensures ok ==> board == Put(old(board), x, y, mark) && nMoves == old(nMoves) + 1
      ensures mark != Blank && old(Consistent(board, nMoves)) ==> Consistent(board, nMoves)
    {
      if x < 0 || x >= 3 || y < 0 || y >= 3 {
        return false;
      }
      if board[x][y] != Blank {
        return false;
      }
      CountPut(board, x, y, mark, Blank);
      board := Put(board, x, y, mark);
      nMoves := nMoves + 1;
      return true;
    }
  }
}
