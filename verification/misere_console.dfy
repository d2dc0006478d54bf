/**
 * The stand-alone console misère game: a `char[3][3]` board, the player to
 * move, and a turn that writes the mover's mark, ends the game when the
 * mover has three in a row (the mover loses) or the board is full (draw),
 * and otherwise passes the turn.
 */
module MisereConsole {
  import opened Grids

  const Blank: char := ' '

  predicate OnBoard(x: int, y: int) {
    0 <= x < 3 && 0 <= y < 3
  }

  /** No cell is blank. */
  predicate Full(g: Grid<char>)
    requires IsGrid(g, 3, 3)
  {
    forall i, j :: 0 <= i < 3 && 0 <= j < 3 ==> g[i][j] != Blank
  }

  /** How a turn ends. */
  datatype Outcome = Continue | MoverLoses | Draw

  /** The board, the player to move and the outcome after `cur` plays on (r, c). */
  datatype Turn = Turn(board: Grid<char>, current: char, outcome: Outcome)

  /**
   * The turn of `play`: the mark is written; three in a row for the mover
   * ends the game with the mover losing, checked before a full board,
   * which ends it drawn; otherwise the other player moves next.
   */
  function Step(g: Grid<char>, r: int, c: int, cur: char): (t: Turn)
    requires IsGrid(g, 3, 3) && OnBoard(r, c)
    ensures IsGrid(t.board, 3, 3)
  {
    var h := Put(g, r, c, cur);
    if ThreeInRow(h, cur) then Turn(h, cur, MoverLoses)
    else if Full(h) then Turn(h, cur, Draw)
    else Turn(h, if cur == 'X' then 'O' else 'X', Continue)
  }

  /**
   * The state of a game in progress: only blanks, X and O on the board,
   * nobody has three in a row, a blank cell is left, and X, who starts,
   * has one more mark than O exactly when O is to move.
   */
  predicate Playing(g: Grid<char>, cur: char) {
    IsGrid(g, 3, 3) && (cur == 'X' || cur == 'O') &&
    (forall i, j :: 0 <= i < 3 && 0 <= j < 3 ==> g[i][j] == Blank || g[i][j] == 'X' || g[i][j] == 'O') &&
    !ThreeInRow(g, 'X') && !ThreeInRow(g, 'O') && !Full(g) &&
    Count(g, 'X') == Count(g, 'O') + (if cur == 'X' then 0 else 1)
  }

  lemma StartIsPlaying()
    ensures Playing(Uniform(3, 3, Blank), 'X')
  {
    var g := Uniform(3, 3, Blank);
    CountZero(g, 'X');
    CountZero(g, 'O');
    assert g[0][0] == Blank;
  }

  /**
   * A turn on a blank cell of a game in progress either ends the game or
   * leads to a game in progress with the other player to move; a drawn game
   * always ends with X's fifth mark.
   */
  lemma StepPreserves(g: Grid<char>, r: int, c: int, cur: char)
    requires Playing(g, cur) && OnBoard(r, c) && g[r][c] == Blank
    ensures var t := Step(g, r, c, cur);
            (t.outcome == Continue ==> Playing(t.board, t.current) && t.current != cur) &&
            (t.outcome == Draw ==> cur == 'X' && Count(t.board, 'X') == 5 && Count(t.board, 'O') == 4)
  {
    var h := Put(g, r, c, cur);
    CountPut(g, r, c, cur, 'X');
    CountPut(g, r, c, cur, 'O');
    CountPut(g, r, c, cur, Blank);
    var other := if cur == 'X' then 'O' else 'X';
    assert !ThreeInRow(h, other) by {
      forall i, j | OnBoard(i, j) && h[i][j] == other
        ensures g[i][j] == other
      {
      }
    }
    if Full(h) {
      CountZero(h, Blank);
      CountThree(h, Blank, 'X', 'O', 3, 3);
    }
  }

  /** MisereTicTacToe: the board array and the player to move (names and player types are console state). */
  class MisereGame {
    const board: array2<char>
    var currentPlayer: char

    ghost predicate Valid()
      reads this
    {
      board.Length0 == 3 && board.Length1 == 3
    }

    /** The game starts on an empty board with X to move. */
    constructor ()
      ensures Valid() && fresh(board)
      ensures Snapshot(board) == Uniform(3, 3, Blank) && currentPlayer == 'X'
      ensures Playing(Snapshot(board), currentPlayer)
    {
      board := new char[3, 3];
      currentPlayer := 'X';
      new;
      ResetBoard();
      StartIsPlaying();
    }

    /** resetBoard: every cell becomes `' '`. */
    method ResetBoard()
      requires Valid()
      modifies board
      ensures Snapshot(board) == Uniform(3, 3, Blank)
    {
      var i := 0;
      while i < 3
        invariant 0 <= i <= 3
        invariant forall k, l :: 0 <= k < i && 0 <= l < 3 ==> board[k, l] == Blank
      {
        var j := 0;
        while j < 3
          invariant 0 <= j <= 3
          invariant forall k, l :: 0 <= k < i && 0 <= l < 3 ==> board[k, l] == Blank
          invariant forall l :: 0 <= l < j ==> board[i, l] == Blank
        {
          board[i, j] := Blank;
          j := j + 1;
        }
        i := i + 1;
      }
      GridEq(Snapshot(board), Uniform(3, 3, Blank), 3, 3);
    }

    /** threeInRow: a row, a column or a diagonal of the array holds `p`. */
    predicate ThreeInARow(p: char)
      requires Valid()
      reads this, board
    {
      ThreeInRow(Snapshot(board), p)
    }

    /** fullBoard: the scan stops at the first `' '` and reports whether none was found. */
    method FullBoard() returns (full: bool)
      requires Valid()
      ensures full == Full(Snapshot(board))
    {
      var i := 0;
      while i < 3
        invariant 0 <= i <= 3
        invariant forall k, l :: 0 <= k < i && 0 <= l < 3 ==> board[k, l] != Blank
      {
        var j := 0;
        while j < 3
          invariant 0 <= j <= 3
          invariant forall l :: 0 <= l < j ==> board[i, l] != Blank
        {
          if board[i, j] == Blank {
            assert Snapshot(board)[i][j] == Blank;
            return false;
          }
          j := j + 1;
        }
        i := i + 1;
      }
      return true;
    }

    /** makeMove: writes the player to move at (row, col) and nothing else. */
    method MakeMove(row: int, col: int)
      requires Valid() && OnBoard(row, col)
      modifies board
      ensures Snapshot(board) == Put(old(Snapshot(board)), row, col, currentPlayer)
    {
      ghost var before := Snapshot(board);
      board[row, col] := currentPlayer;
      GridEq(Snapshot(board), Put(before, row, col, currentPlayer), 3, 3);
    }

    /**
     * One iteration of the game loop after the move is read: the input loop
     * and the computer's retry loop deliver a blank cell in range.
     */
    method PlayTurn(row: int, col: int) returns (outcome: Outcome)
      requires Valid() && OnBoard(row, col) && board[row, col] == Blank
      modifies this, board
      ensures Valid()
      ensures Turn(Snapshot(board), currentPlayer, outcome) == Step(old(Snapshot(board)), row, col, old(currentPlayer))
      ensures old(Playing(Snapshot(board), currentPlayer)) && outcome == Continue ==> Playing(Snapshot(board), currentPlayer)
    {
      ghost var g0, p0 := Snapshot(board), currentPlayer;
      MakeMove(row, col);
      if ThreeInARow(currentPlayer) {
        outcome := MoverLoses;
      } else {
        var full := FullBoard();
        if full {
          outcome := Draw;
        } else {
          currentPlayer := if currentPlayer == 'X' then 'O' else 'X';
          outcome := Continue;
        }
      }
      if Playing(g0, p0) {
        assert g0[row][col] == Blank;
        StepPreserves(g0, row, col, p0);
      }
    }
  }
}
