/**
 * The misère 3 x 3 board of the sliding variant: a move either writes a
 * mark (overwriting whatever is there) or, with the mark `'.'`, clears a
 * cell.  The board's blank symbol is declared in a header that is not
 * part of this model, so it is a parameter of the board.
 */
module SlidingMisere {
  import opened Grids
  import Adjacency

  /** The mark that asks for a cell to be cleared. */
  const Clear: char := '.'

  predicate OnBoard(x: int, y: int) {
    0 <= x < 3 && 0 <= y < 3
  }

  /** is_win: some row, column or diagonal holds the symbol three times. */
  predicate IsWin(g: Grid<char>, sym: char)
    requires IsGrid(g, 3, 3)
  {
    ThreeInRow(g, sym)
  }

  /** is_draw: nine moves without a line of the symbol. */
  predicate IsDraw(g: Grid<char>, nMoves: int, sym: char)
    requires IsGrid(g, 3, 3)
  {
    nMoves >= 9 && !IsWin(g, sym)
  }

  predicate GameIsOver(g: Grid<char>, nMoves: int, sym: char)
    requires IsGrid(g, 3, 3)
  {
    IsWin(g, sym) || IsDraw(g, nMoves, sym)
  }

  /** The win test is "three of the symbol in a straight line", and win and draw exclude each other. */
  lemma WinIsRun(g: Grid<char>, nMoves: int, sym: char)
    requires IsGrid(g, 3, 3)
    ensures IsWin(g, sym) <==> HasRun(g, 3, sym)
    ensures !(IsWin(g, sym) && IsDraw(g, nMoves, sym))
    ensures GameIsOver(g, nMoves, sym) <==> IsWin(g, sym) || nMoves >= 9
  {
    ThreeInRowIsRun(g, sym);
  }

  /** MisereTicTacToe_board: the matrix, the move counter and the blank symbol. */
  class MisereBoard {
    var board: Grid<char>
    var nMoves: int
    const blank: char

    ghost predicate Valid()
      reads this
    {
      IsGrid(board, 3, 3)
    }

    constructor (blankSymbol: char)
      ensures Valid() && board == Uniform(3, 3, blankSymbol) && nMoves == 0 && blank == blankSymbol
    {
      blank := blankSymbol;
      board := Uniform(3, 3, blankSymbol);
      nMoves := 0;
    }

    /**
     * update_board: off the board nothing changes and the move fails; the
     * mark `'.'` blanks the cell, leaves the counter and still reports
     * failure; any other mark overwrites the cell with its upper case,
     * taken or not, and counts the move.
     */
    method UpdateBoard(x: int, y: int, mark: char) returns (ok: bool)
      requires Valid()
      modifies this
      ensures Valid()
      ensures ok <==> OnBoard(x, y) && mark != Clear
      ensures !OnBoard(x, y) ==> board == old(board) && nMoves == old(nMoves)
      ensures OnBoard(x, y) && mark == Clear ==> board == Put(old(board), x, y, blank) && nMoves == old(nMoves)
      ensures ok ==> board == Put(old(board), x, y, ToUpper(mark)) && nMoves == old(nMoves) + 1
    {
      if x < 0 || x >= 3 || y < 0 || y >= 3 {
        return false;
      }
      if mark == Clear {
        board := Put(board, x, y, blank);
      } else {
        board := Put(board, x, y, ToUpper(mark));
        nMoves := nMoves + 1;
        return true;
      }
      return false;
    }

    /** is_valid_adjacent_move on this board. */
    predicate IsValidAdjacentMove(fromX: int, fromY: int, toX: int, toY: int)
      requires Valid()
      reads this
    {
      Adjacency.IsValidAdjacentMove(board, 3, blank, fromX, fromY, toX, toY)
    }

    /** get_possible_moves: the sliding moves of the player's marks, in the order generated. */
    method GetPossibleMoves(symbol: char) returns (moves: seq<Adjacency.Move>)
      requires Valid()
      ensures moves == Adjacency.PossibleMoves(board, 3, blank, symbol, 3)
      ensures symbol != blank ==>
                forall m :: m in moves ==> m.symbol == symbol && OnBoard(m.x, m.y) && board[m.x][m.y] == blank
    {
      moves := Adjacency.GetPossibleMoves(board, 3, blank, symbol);
      if symbol != blank {
        forall m | m in moves
          ensures m.symbol == symbol && OnBoard(m.x, m.y) && board[m.x][m.y] == blank
        {
          Adjacency.PossibleMovesAreAdjacent(board, 3, blank, symbol, m);
        }
      }
    }
  }
}
