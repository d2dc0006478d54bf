/**
 * The SUS game on a 3 x 3 board of `'.'` cells: players place `S` or `U`,
 * and every S-U-S line (row, column or diagonal) a move completes scores a
 * point for the player whose letter was placed.  `sus.cpp` and
 * `Games/sus.cpp` hold the same board logic; both are this module.
 */
module Sus {
  import opened Grids

  const Blank: char := '.'

  predicate IsSusBoard(g: Grid<char>) {
    IsGrid(g, 3, 3)
  }

  /** Three cells read S, U, S. */
  predicate Sus3(a: char, b: char, c: char) {
    a == 'S' && b == 'U' && c == 'S'
  }

  function Ind(b: bool): nat {
    if b then 1 else 0
  }

  predicate RowSus(g: Grid<char>, i: int)
    requires IsSusBoard(g) && 0 <= i < 3
  {
    Sus3(g[i][0], g[i][1], g[i][2])
  }

  predicate ColumnSus(g: Grid<char>, j: int)
    requires IsSusBoard(g) && 0 <= j < 3
  {
    Sus3(g[0][j], g[1][j], g[2][j])
  }

  predicate MainSus(g: Grid<char>)
    requires IsSusBoard(g)
  {
    Sus3(g[0][0], g[1][1], g[2][2])
  }

  predicate AntiSus(g: Grid<char>)
    requires IsSusBoard(g)
  {
    Sus3(g[0][2], g[1][1], g[2][0])
  }

  /** S-U-S rows among the first `n` rows. */
  function RowsSus(g: Grid<char>, n: int): (k: nat)
    requires IsSusBoard(g) && 0 <= n <= 3
    ensures k <= n
  {
    if n == 0 then 0 else RowsSus(g, n - 1) + Ind(RowSus(g, n - 1))
  }

  /** S-U-S columns among the first `n` columns. */
  function ColumnsSus(g: Grid<char>, n: int): (k: nat)
    requires IsSusBoard(g) && 0 <= n <= 3
    ensures k <= n
  {
    if n == 0 then 0 else ColumnsSus(g, n - 1) + Ind(ColumnSus(g, n - 1))
  }

  /** count_sus_sequences: the S-U-S lines of the board, at most the eight lines of a 3 x 3 board. */
  function CountSus(g: Grid<char>): (k: nat)
    requires IsSusBoard(g)
    ensures k <= 8
  {
    RowsSus(g, 3) + ColumnsSus(g, 3) + Ind(MainSus(g)) + Ind(AntiSus(g))
  }

  /** The S-U-S lines through (x, y): its row, its column, and each diagonal it lies on. */
  function LinesThrough(g: Grid<char>, x: int, y: int): (k: nat)
    requires IsSusBoard(g) && 0 <= x < 3 && 0 <= y < 3
    ensures k <= 4
  {
    Ind(RowSus(g, x)) + Ind(ColumnSus(g, y)) + Ind(x == y && MainSus(g)) + Ind(x + y == 2 && AntiSus(g))
  }

  lemma {:induction false} RowsSusPut(g: Grid<char>, x: int, y: int, m: char, n: int)
    requires IsSusBoard(g) && 0 <= x < 3 && 0 <= y < 3 && g[x][y] == Blank && 0 <= n <= 3
    ensures RowsSus(Put(g, x, y, m), n) == RowsSus(g, n) + Ind(x < n && RowSus(Put(g, x, y, m), x))
  {
    if n > 0 {
      RowsSusPut(g, x, y, m, n - 1);
    }
  }

  lemma {:induction false} ColumnsSusPut(g: Grid<char>, x: int, y: int, m: char, n: int)
    requires IsSusBoard(g) && 0 <= x < 3 && 0 <= y < 3 && g[x][y] == Blank && 0 <= n <= 3
    ensures ColumnsSus(Put(g, x, y, m), n) == ColumnsSus(g, n) + Ind(y < n && ColumnSus(Put(g, x, y, m), y))
  {
    if n > 0 {
      ColumnsSusPut(g, x, y, m, n - 1);
    }
  }

  /**
   * Filling a blank cell breaks no S-U-S line (a line through a blank cell
   * is not one), so the count grows by exactly the lines now through the cell.
   */
  lemma CountSusPut(g: Grid<char>, x: int, y: int, m: char)
    requires IsSusBoard(g) && 0 <= x < 3 && 0 <= y < 3 && g[x][y] == Blank
    ensures CountSus(Put(g, x, y, m)) == CountSus(g) + LinesThrough(Put(g, x, y, m), x, y)
  {
    RowsSusPut(g, x, y, m, 3);
    ColumnsSusPut(g, x, y, m, 3);
  }

  /** A fresh board has no S-U-S line. */
  lemma CountSusBlank()
    ensures CountSus(Uniform(3, 3, Blank)) == 0
  {
    var g := Uniform(3, 3, Blank);
    assert RowsSus(g, 1) == 0 && RowsSus(g, 2) == 0 && RowsSus(g, 3) == 0;
    assert ColumnsSus(g, 1) == 0 && ColumnsSus(g, 2) == 0 && ColumnsSus(g, 3) == 0;
  }

  // ---------------------------------------------------------------- status

  /** is_win: nothing before the ninth move; then the S player wins with the higher score, anyone else with the lower. */
  predicate IsWin(nMoves: int, p1: int, p2: int, sym: char) {
    nMoves >= 9 && (if sym == 'S' then p1 > p2 else p2 > p1)
  }

  predicate IsDraw(nMoves: int, p1: int, p2: int) {
    nMoves >= 9 && p1 == p2
  }

  predicate GameIsOver(nMoves: int) {
    nMoves == 9
  }

  /** From the ninth move on exactly one of: S wins, U wins, draw. */
  lemma ExactlyOneOutcome(nMoves: int, p1: int, p2: int)
    requires nMoves >= 9
    ensures IsWin(nMoves, p1, p2, 'S') || IsWin(nMoves, p1, p2, 'U') || IsDraw(nMoves, p1, p2)
    ensures !(IsWin(nMoves, p1, p2, 'S') && IsWin(nMoves, p1, p2, 'U'))
    ensures !(IsDraw(nMoves, p1, p2) && (IsWin(nMoves, p1, p2, 'S') || IsWin(nMoves, p1, p2, 'U')))
  {
  }

  /** SUS_UI::get_move: the computer's own score is the first score exactly when it plays S. */
  function AiScores(sym: char, p1: int, p2: int): (r: (int, int))
    ensures sym == 'S' ==> r == (p1, p2)
    ensures sym != 'S' ==> r == (p2, p1)
  {
    if sym == 'S' then (p1, p2) else (p2, p1)
  }

  // ---------------------------------------------------------------- invariant

  /**
   * The state reachable from the empty board: one move per filled cell,
   * and the two scores together are the S-U-S lines on the board.
   */
  predicate Consistent(g: Grid<char>, nMoves: int, p1: int, p2: int) {
    IsSusBoard(g) && nMoves + Count(g, Blank) == 9 && 0 <= p1 && 0 <= p2 && p1 + p2 == CountSus(g)
  }

  /** On a consistent board the game is over exactly when no cell is blank. */
  lemma GameOverIffFull(g: Grid<char>, nMoves: int, p1: int, p2: int)
    requires Consistent(g, nMoves, p1, p2)
    ensures GameIsOver(nMoves) <==> forall i, j :: 0 <= i < 3 && 0 <= j < 3 ==> g[i][j] != Blank
  {
    CountZero(g, Blank);
  }

  /** SUS_Board: the board, the move counter, and the scores of the S player and the U player. */
  class SusBoard {
    var board: Grid<char>
    var nMoves: int
    var player1Score: int
    var player2Score: int

    ghost predicate Valid()
      reads this
    {
      IsSusBoard(board)
    }

    constructor ()
      ensures Valid() && board == Uniform(3, 3, Blank) && nMoves == 0 && player1Score == 0 && player2Score == 0
      ensures Consistent(board, nMoves, player1Score, player2Score)
    {
      board := Uniform(3, 3, Blank);
      nMoves := 0;
      player1Score := 0;
      player2Score := 0;
      new;
      CountAll(board, Blank, 3, 3);
      CountSusBlank();
    }

    /** count_sus_sequences: the row scans, the column scans, then both diagonals. */
    method CountSusSequences() returns (count: int)
      requires Valid()
      ensures count == CountSus(board)
    {
      count := 0;
      var i := 0;
      while i < 3
        invariant 0 <= i <= 3
        invariant count == RowsSus(board, i)
      {
        var j := 0;
        while j <= 0
          invariant 0 <= j <= 1
          invariant count == RowsSus(board, i) + (if j == 1 then Ind(RowSus(board, i)) else 0)
        {
          if board[i][j] == 'S' && board[i][j + 1] == 'U' && board[i][j + 2] == 'S' {
            count := count + 1;
          }
          j := j + 1;
        }
        i := i + 1;
      }
      var jj := 0;
      while jj < 3
        invariant 0 <= jj <= 3
        invariant count == RowsSus(board, 3) + ColumnsSus(board, jj)
      {
        var ii := 0;
        while ii <= 0
          invariant 0 <= ii <= 1
          invariant count == RowsSus(board, 3) + ColumnsSus(board, jj) + (if ii == 1 then Ind(ColumnSus(board, jj)) else 0)
        {
          if board[ii][jj] == 'S' && board[ii + 1][jj] == 'U' && board[ii + 2][jj] == 'S' {
            count := count + 1;
          }
          ii := ii + 1;
        }
        jj := jj + 1;
      }
      if board[0][0] == 'S' && board[1][1] == 'U' && board[2][2] == 'S' {
        count := count + 1;
      }
      if board[0][2] == 'S' && board[1][1] == 'U' && board[2][0] == 'S' {
        count := count + 1;
      }
    }

    /**
     * update_board: accepts an in-range blank cell and the letter S or U;
     * the letter is written, the move counted, and the new S-U-S lines go
     * to the S player or the U player by the letter placed.
     */
    method UpdateBoard(x: int, y: int, mark: char) returns (ok: bool)
      requires Valid()
      modifies this
      ensures Valid()
      ensures ok <==> 0 <= x < 3 && 0 <= y < 3 && old(board)[x][y] == Blank && (mark == 'S' || mark == 'U')
      ensures !ok ==> board == old(board) && nMoves == old(nMoves)
                      && player1Score == old(player1Score) && player2Score == old(player2Score)
      ensures ok ==> board == Put(old(board), x, y, ToUpper(mark)) && nMoves == old(nMoves) + 1
      ensures ok ==> var gained := LinesThrough(board, x, y);
                     gained == CountSus(board) - CountSus(old(board)) &&
                     player1Score == old(player1Score) + (if mark == 'S' then gained else 0) &&
                     player2Score == old(player2Score) + (if mark == 'S' then 0 else gained)
      ensures player1Score >= old(player1Score) && player2Score >= old(player2Score)
      ensures old(Consistent(board, nMoves, player1Score, player2Score)) ==> Consistent(board, nMoves, player1Score, player2Score)
    {
      if !(x < 0 || x >= 3 || y < 0 || y >= 3) && board[x][y] == Blank && (mark == 'S' || mark == 'U') {
        var before := CountSusSequences();
        CountSusPut(board, x, y, ToUpper(mark));
        CountPut(board, x, y, ToUpper(mark), Blank);
        nMoves := nMoves + 1;
        board := Put(board, x, y, ToUpper(mark));
        var after := CountSusSequences();
        var newSequences := after - before;
        if newSequences > 0 {
          if mark == 'S' {
            player1Score := player1Score + newSequences;
          } else {
            player2Score := player2Score + newSequences;
          }
        }
        return true;
      }
      return false;
    }
  }
}
