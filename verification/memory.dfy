/**
 * Memory tic-tac-toe: the actual board holds the marks, and a fake board
 * shown to the players displays `'?'` on every cell that was played.
 */
module Memory {
  import opened Grids

  const Blank: char := ' '
  /** What the fake board shows on a played cell. */
  const Hidden: char := '?'

  predicate OnBoard(x: int, y: int) {
    0 <= x < 3 && 0 <= y < 3
  }

  /** has_three_in_row: a row, a column or a diagonal holds the symbol three times. */
  predicate HasThreeInRow(g: Grid<char>, symbol: char)
    requires IsGrid(g, 3, 3)
  {
    ThreeInRow(g, symbol)
  }

  /** is_win: the player's own symbol has three in a row. */
  predicate IsWin(g: Grid<char>, sym: char)
    requires IsGrid(g, 3, 3)
  {
    HasThreeInRow(g, sym)
  }

  /** is_lose: the opponent (`'O'` for `'X'`, otherwise `'X'`) has three in a row. */
  predicate IsLose(g: Grid<char>, sym: char)
    requires IsGrid(g, 3, 3)
  {
    HasThreeInRow(g, Opponent(sym))
  }

  /** is_draw: nine moves and neither X nor O has three in a row. */
  predicate IsDraw(g: Grid<char>, nMoves: int)
    requires IsGrid(g, 3, 3)
  {
    nMoves >= 9 && !HasThreeInRow(g, 'X') && !HasThreeInRow(g, 'O')
  }

  /** game_is_over: X or O has three in a row, or nine moves were made. */
  predicate GameIsOver(g: Grid<char>, nMoves: int)
    requires IsGrid(g, 3, 3)
  {
    HasThreeInRow(g, 'X') || HasThreeInRow(g, 'O') || nMoves >= 9
  }

  /**
   * For X and O, one player's loss is the other's win, a win is three in a
   * straight line, and the game is over exactly when the player has won,
   * lost or drawn.
   */
  lemma LoseIsOpponentWin(g: Grid<char>, nMoves: int, p: char)
    requires IsGrid(g, 3, 3) && (p == 'X' || p == 'O')
    ensures IsLose(g, p) == IsWin(g, Opponent(p))
    ensures IsWin(g, p) <==> HasRun(g, 3, p)
    ensures GameIsOver(g, nMoves) <==> IsWin(g, p) || IsLose(g, p) || IsDraw(g, nMoves)
    ensures IsDraw(g, nMoves) ==> !IsWin(g, p) && !IsLose(g, p)
  {
    ThreeInRowIsRun(g, p);
  }

  /** Every move filled one blank cell (`Grids.MovesFillBoard` then says nine moves means a full board). */
  predicate Consistent(g: Grid<char>, nMoves: int) {
    IsGrid(g, 3, 3) && nMoves + Count(g, Blank) == 9
  }

  /** The fake board shows `'?'` exactly on the played cells of the actual board and `' '` elsewhere. */
  predicate Shadows(actual: Grid<char>, fake: Grid<char>)
    requires IsGrid(actual, 3, 3) && IsGrid(fake, 3, 3)
  {
    forall i, j :: 0 <= i < 3 && 0 <= j < 3 ==> fake[i][j] == (if actual[i][j] == Blank then Blank else Hidden)
  }

  /**
   * A move the actual board accepts, replayed on the fake board, keeps the
   * fake board showing exactly the played cells.
   */
  lemma ShadowsPreserved(actual: Grid<char>, fake: Grid<char>, x: int, y: int, mark: char)
    requires IsGrid(actual, 3, 3) && IsGrid(fake, 3, 3) && Shadows(actual, fake)
    requires OnBoard(x, y) && actual[x][y] == Blank && mark != Blank
    ensures Shadows(Put(actual, x, y, mark), Put(fake, x, y, Hidden))
  {
  }

  /** Memory_Board: the actual matrix and the move counter. */
  class MemoryBoard {
    var board: Grid<char>
    var nMoves: int

    ghost predicate Valid()
      reads this
    {
      IsGrid(board, 3, 3)
    }

    constructor ()
      ensures Valid() && board == Uniform(3, 3, Blank) && nMoves == 0
      ensures Consistent(board, nMoves)
    {
      board := Uniform(3, 3, Blank);
      nMoves := 0;
      new;
      CountAll(board, Blank, 3, 3);
    }

    /**
     * update_board: refuses an off-board or taken cell with no change;
     * otherwise writes the mark as given and counts the move.
     */
    method UpdateBoard(x: int, y: int, mark: char) returns (ok: bool)
      requires Valid()
      modifies this
      ensures Valid()
      ensures ok <==> OnBoard(x, y) && old(board)[x][y] == Blank
      ensures !ok ==> board == old(board) && nMoves == old(nMoves)
      ensures ok ==> board == Put(old(board), x, y, mark) && nMoves == old(nMoves) + 1
      ensures mark != Blank && old(Consistent(board, nMoves)) ==> Consistent(board, nMoves)
    {
      if x < 0 || x >= 3 || y < 0 || y >= 3 {
        return false;
      }
      if board[x][y] != Blank {
        return false;
      }
      CountPut(board, x, y, mark, Blank);
      board := Put(board, x, y, mark);
      nMoves := nMoves + 1;
      return true;
    }
  }

  /** Fake_Board: the displayed matrix; it never decides the game. */
  class FakeBoard {
    var board: Grid<char>
    var nMoves: int

    ghost predicate Valid()
      reads this
    {
      IsGrid(board, 3, 3)
    }

    constructor ()
      ensures Valid() && board == Uniform(3, 3, Blank) && nMoves == 0
    {
      board := Uniform(3, 3, Blank);
      nMoves := 0;
    }

    /** update_board: any in-range cell, taken or not, shows `'?'` and the move is counted. */
    method UpdateBoard(x: int, y: int) returns (ok: bool)
      requires Valid()
      modifies this
      ensures Valid()
      ensures ok <==> OnBoard(x, y)
      ensures !ok ==> board == old(board) && nMoves == old(nMoves)
      ensures ok ==> board == Put(old(board), x, y, Hidden) && nMoves == old(nMoves) + 1
    {
      if x >= 0 && x < 3 && y >= 0 && y < 3 {
        board := Put(board, x, y, Hidden);
        nMoves := nMoves + 1;
        return true;
      }
      return false;
    }

    /** is_win, is_lose, is_draw and game_is_over of the fake board: always false. */
    predicate IsWin(sym: char) { false }
    predicate IsLose(sym: char) { false }
    predicate IsDraw(sym: char) { false }
    predicate GameIsOver(sym: char) { false }
  }

  /**
   * The two boards driven by the same accepted moves: the actual board
   * accepts a move, the fake board replays it, and afterwards the fake
   * board still shows exactly the played cells and counts the same moves.
   */
  method PlayBoth(actual: MemoryBoard, fake: FakeBoard, x: int, y: int, mark: char) returns (ok: bool)
    requires actual.Valid() && fake.Valid()
    requires Shadows(actual.board, fake.board) && actual.nMoves == fake.nMoves && mark != Blank
    modifies actual, fake
    ensures actual.Valid() && fake.Valid()
    ensures Shadows(actual.board, fake.board) && actual.nMoves == fake.nMoves
    ensures ok <==> OnBoard(x, y) && old(actual.board)[x][y] == Blank
  {
    ghost var r0, f0 := actual.board, fake.board;
    ok := actual.UpdateBoard(x, y, mark);
    if ok {
      var shown := fake.UpdateBoard(x, y);
      ShadowsPreserved(r0, f0, x, y, mark);
    }
  }
}
