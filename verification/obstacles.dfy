/**
 * 6 x 6 tic-tac-toe with obstacles: four in a row wins, and after every
 * second move two random blank cells become obstacles `'#'`.  The random
 * choice is modelled as a nondeterministic choice of two distinct blank
 * cells.
 */
module Obstacles {
  import opened Grids

  const Blank: char := ' '
  const Obstacle: char := '#'
  const N: int := 6

  predicate OnBoard(x: int, y: int) {
    0 <= x < N && 0 <= y < N
  }

  // ---------------------------------------------------------------- four in a row

  /** The scan in direction `d` at loop indices (i, j) sees `sym` four times (the anti-diagonal scan reads down-left from (i, j)). */
  predicate Win4(g: Grid<char>, sym: char, d: Dir, i: int, j: int) {
    var r, c := if d == NorthEast then i + 3 else i, if d == NorthEast then j - 3 else j;
    CellIs(g, r, c, d, 0, sym) && CellIs(g, r, c, d, 1, sym) && CellIs(g, r, c, d, 2, sym) && CellIs(g, r, c, d, 3, sym)
  }

  /**
   * check_four_in_row: a horizontal window in rows 0..5 from columns 0..2,
   * a vertical one from rows 0..2, a down-right one from rows and columns
   * 0..2, or a down-left one from rows 0..2 and columns 3..5.
   */
  predicate CheckFourInRow(g: Grid<char>, sym: char) {
    (exists i, j :: 0 <= i < N && 0 <= j <= N - 4 && Win4(g, sym, East, i, j))
    || (exists i, j :: 0 <= i <= N - 4 && 0 <= j < N && Win4(g, sym, South, i, j))
    || (exists i, j :: 0 <= i <= N - 4 && 0 <= j <= N - 4 && Win4(g, sym, SouthEast, i, j))
    || (exists i, j :: 0 <= i <= N - 4 && 3 <= j < N && Win4(g, sym, NorthEast, i, j))
  }

  lemma Win4IsRun(g: Grid<char>, sym: char, d: Dir, i: int, j: int)
    requires Win4(g, sym, d, i, j)
    ensures HasRun(g, 4, sym)
  {
    var r, c := if d == NorthEast then i + 3 else i, if d == NorthEast then j - 3 else j;
    Run4(g, r, c, d, sym);
  }

  /** On a 6 x 6 board the four scans find exactly the straight lines of four cells holding `sym`. */
  lemma CheckFourInRowIsRun(g: Grid<char>, sym: char)
    requires IsGrid(g, N, N)
    ensures CheckFourInRow(g, sym) <==> HasRun(g, 4, sym)
  {
    if CheckFourInRow(g, sym) {
      var d, i, j :| Win4(g, sym, d, i, j);
      Win4IsRun(g, sym, d, i, j);
    }
    if HasRun(g, 4, sym) {
      var r, c, d :| Run(g, r, c, d, 4, sym);
      assert CellIs(g, r, c, d, 0, sym) && CellIs(g, r, c, d, 1, sym);
      assert CellIs(g, r, c, d, 2, sym) && CellIs(g, r, c, d, 3, sym);
      if d == NorthEast {
        assert Win4(g, sym, d, r - 3, c + 3);
      } else {
        assert Win4(g, sym, d, r, c);
      }
    }
  }

  /** Obstacles and blanks never make four in a row for a player's mark. */
  lemma ObstacleNeverWins(g: Grid<char>)
    requires IsGrid(g, N, N) && forall i, j :: OnBoard(i, j) ==> g[i][j] == Blank || g[i][j] == Obstacle
    ensures !CheckFourInRow(g, 'X') && !CheckFourInRow(g, 'O')
  {
    forall r, c, d, sym | sym == 'X' || sym == 'O'
      ensures !Run(g, r, c, d, 4, sym)
    {
      assert !CellIs(g, r, c, d, 0, sym);
    }
    CheckFourInRowIsRun(g, 'X');
    CheckFourInRowIsRun(g, 'O');
  }

  // ---------------------------------------------------------------- status

  predicate IsWin(g: Grid<char>, sym: char) {
    CheckFourInRow(g, sym)
  }

  /** is_draw: the move count has reached the cells not taken by obstacles, and no win. */
  predicate IsDraw(g: Grid<char>, nMoves: int, obstaclesCount: int, sym: char) {
    nMoves == 36 - obstaclesCount && !IsWin(g, sym)
  }

  predicate IsLose(g: Grid<char>, sym: char) {
    false
  }

  predicate GameIsOver(g: Grid<char>, nMoves: int, obstaclesCount: int, sym: char) {
    IsWin(g, sym) || IsDraw(g, nMoves, obstaclesCount, sym)
  }

  /**
   * The state reachable from the empty board with player marks: the
   * counter matches the `'#'` cells, two obstacles were added for every
   * second move, and moves, obstacles and blanks together fill the 36 cells.
   */
  predicate Consistent(g: Grid<char>, nMoves: int, obstaclesCount: int) {
    IsGrid(g, N, N) && 0 <= nMoves &&
    obstaclesCount == Count(g, Obstacle) && obstaclesCount == 2 * (nMoves / 2) &&
    nMoves + obstaclesCount + Count(g, Blank) == 36
  }

  /** On a reachable board the draw condition is "no blank cell left and no win", as documented. */
  lemma DrawIffFull(g: Grid<char>, nMoves: int, obstaclesCount: int, sym: char)
    requires Consistent(g, nMoves, obstaclesCount)
    ensures IsDraw(g, nMoves, obstaclesCount, sym) <==>
              (forall i, j :: OnBoard(i, j) ==> g[i][j] != Blank) && !IsWin(g, sym)
  {
    CountZero(g, Blank);
  }

  /** A board with at least two blank cells has two distinct ones. */
  lemma TwoBlanks(g: Grid<char>)
    requires IsGrid(g, N, N) && Count(g, Blank) >= 2
    ensures exists x1, y1, x2, y2 :: OnBoard(x1, y1) && OnBoard(x2, y2) && (x1 != x2 || y1 != y2) &&
              g[x1][y1] == Blank && g[x2][y2] == Blank
  {
    CountZero(g, Blank);
    var x1, y1 :| 0 <= x1 < |g| && 0 <= y1 < |g[x1]| && g[x1][y1] == Blank;
    var h := Put(g, x1, y1, Obstacle);
    CountPut(g, x1, y1, Obstacle, Blank);
    CountZero(h, Blank);
    var x2, y2 :| 0 <= x2 < |h| && 0 <= y2 < |h[x2]| && h[x2][y2] == Blank;
    assert g[x2][y2] == Blank;
  }

  /** `after` is `before` with two distinct blank cells turned into obstacles. */
  ghost predicate TwoObstaclesAdded(before: Grid<char>, after: Grid<char>)
    requires IsGrid(before, N, N)
  {
    exists x1, y1, x2, y2 :: OnBoard(x1, y1) && OnBoard(x2, y2) && (x1 != x2 || y1 != y2) &&
      before[x1][y1] == Blank && before[x2][y2] == Blank &&
      after == Put(Put(before, x1, y1, Obstacle), x2, y2, Obstacle)
  }

  /** Adding two obstacles turns two blanks into `'#'` and keeps every earlier obstacle. */
  lemma ObstaclesAddedCounts(before: Grid<char>, after: Grid<char>)
    requires IsGrid(before, N, N) && TwoObstaclesAdded(before, after)
    ensures IsGrid(after, N, N)
    ensures Count(after, Obstacle) == Count(before, Obstacle) + 2
    ensures Count(after, Blank) == Count(before, Blank) - 2
    ensures forall i, j :: OnBoard(i, j) && before[i][j] == Obstacle ==> after[i][j] == Obstacle
  {
    var x1, y1, x2, y2 :| OnBoard(x1, y1) && OnBoard(x2, y2) && (x1 != x2 || y1 != y2) &&
      before[x1][y1] == Blank && before[x2][y2] == Blank &&
      after == Put(Put(before, x1, y1, Obstacle), x2, y2, Obstacle);
    TwoPutsCounts(before, x1, y1, x2, y2);
  }

  lemma TwoPutsCounts(before: Grid<char>, x1: int, y1: int, x2: int, y2: int)
    requires IsGrid(before, N, N) && OnBoard(x1, y1) && OnBoard(x2, y2) && (x1 != x2 || y1 != y2)
    requires before[x1][y1] == Blank && before[x2][y2] == Blank
    ensures var after := Put(Put(before, x1, y1, Obstacle), x2, y2, Obstacle);
            IsGrid(after, N, N) &&
            Count(after, Obstacle) == Count(before, Obstacle) + 2 &&
            Count(after, Blank) == Count(before, Blank) - 2 &&
            forall i, j :: OnBoard(i, j) && before[i][j] == Obstacle ==> after[i][j] == Obstacle
  {
    var mid := Put(before, x1, y1, Obstacle);
    assert mid[x2][y2] == Blank;
    CountPut(before, x1, y1, Obstacle, Obstacle);
    CountPut(before, x1, y1, Obstacle, Blank);
    CountPut(mid, x2, y2, Obstacle, Obstacle);
    CountPut(mid, x2, y2, Obstacle, Blank);
  }

  /**
   * Writing a mark on a blank cell of a reachable board: the blank count
   * drops by one, the obstacle count is unchanged for a mark other than
   * `'#'`, and when the move count becomes even at least two blank cells
   * remain for the obstacles.
   */
  lemma PlaceCounts(g: Grid<char>, n: int, obs: int, x: int, y: int, symbol: char)
    requires Consistent(g, n, obs) && OnBoard(x, y) && g[x][y] == Blank
    ensures var h := Put(g, x, y, symbol);
            Count(h, Blank) == Count(g, Blank) - (if symbol == Blank then 0 else 1) &&
            Count(h, Obstacle) == Count(g, Obstacle) + (if symbol == Obstacle then 1 else 0) &&
            ((n + 1) % 2 == 0 ==> Count(h, Blank) >= 2)
  {
    CountPut(g, x, y, symbol, Blank);
    CountPut(g, x, y, symbol, Obstacle);
    CountZero(g, Blank);
  }

  /**
   * A mark on a blank cell of a reachable board, followed on every second
   * move by two new obstacles, leads to a reachable board.
   */
  lemma MoveConsistent(g: Grid<char>, n: int, obs: int, x: int, y: int, symbol: char, after: Grid<char>, obs': int)
    requires Consistent(g, n, obs) && OnBoard(x, y) && g[x][y] == Blank && symbol != Blank && symbol != Obstacle
    requires IsGrid(after, N, N)
    requires (n + 1) % 2 != 0 ==> after == Put(g, x, y, symbol) && obs' == obs
    requires (n + 1) % 2 == 0 ==>
               Count(after, Obstacle) == Count(Put(g, x, y, symbol), Obstacle) + 2 &&
               Count(after, Blank) == Count(Put(g, x, y, symbol), Blank) - 2 && obs' == obs + 2
    ensures Consistent(after, n + 1, obs')
  {
    PlaceCounts(g, n, obs, x, y, symbol);
    HalfStep(n);
  }

  lemma HalfStep(n: int)
    requires 0 <= n
    ensures (n + 1) % 2 != 0 ==> (n + 1) / 2 == n / 2
    ensures (n + 1) % 2 == 0 ==> (n + 1) / 2 == n / 2 + 1 && n + 1 >= 2
  {
  }

  /** XO_6x6_Board: the matrix, the move counter and the obstacle counter. */
  class Board6x6 {
    var board: Grid<char>
    var nMoves: int
    var obstaclesCount: int

    ghost predicate Valid()
      reads this
    {
      IsGrid(board, N, N)
    }

    /** A blank 6 x 6 board without obstacles. */
    constructor ()
      ensures Valid() && board == Uniform(N, N, Blank) && nMoves == 0 && obstaclesCount == 0
      ensures Consistent(board, nMoves, obstaclesCount)
    {
      board := Uniform(N, N, Blank);
      nMoves := 0;
      obstaclesCount := 0;
      new;
      CountAll(board, Blank, N, N);
      CountZero(board, Obstacle);
    }

    /**
     * add_random_obstacles: two distinct blank cells become `'#'` and the
     * counter grows by two.  With fewer than two blank cells the retry loop
     * of the original never ends, so two are required.
     */
    method AddRandomObstacles()
      requires Valid() && Count(board, Blank) >= 2
      modifies this
      ensures Valid() && nMoves == old(nMoves)
      ensures TwoObstaclesAdded(old(board), board)
      ensures obstaclesCount == old(obstaclesCount) + 2
    {
      TwoBlanks(board);
      var x1, y1, x2, y2 :| OnBoard(x1, y1) && OnBoard(x2, y2) && (x1 != x2 || y1 != y2) &&
        board[x1][y1] == Blank && board[x2][y2] == Blank;
      ghost var before := board;
      board := Put(board, x1, y1, Obstacle);
      obstaclesCount := obstaclesCount + 1;
      board := Put(board, x2, y2, Obstacle);
      obstaclesCount := obstaclesCount + 1;
      assert before[x1][y1] == Blank && before[x2][y2] == Blank;
    }

    /**
     * update_board: refuses an off-board or non-blank cell (obstacles
     * included); otherwise writes the symbol, counts the move, and after
     * every second move adds two obstacles.  The reachable-state invariant
     * is required because it guarantees the two blank cells the obstacle
     * step needs.
     */
    method UpdateBoard(x: int, y: int, symbol: char) returns (ok: bool)
      requires Valid() && Consistent(board, nMoves, obstaclesCount)
      modifies this
      ensures Valid()
      ensures ok <==> OnBoard(x, y) && old(board)[x][y] == Blank
      ensures !ok ==> board == old(board) && nMoves == old(nMoves) && obstaclesCount == old(obstaclesCount)
      ensures ok ==> nMoves == old(nMoves) + 1
      ensures ok && nMoves % 2 != 0 ==> board == Put(old(board), x, y, symbol) && obstaclesCount == old(obstaclesCount)
      ensures ok && nMoves % 2 == 0 ==>
                TwoObstaclesAdded(Put(old(board), x, y, symbol), board) && obstaclesCount == old(obstaclesCount) + 2
      ensures forall i, j :: OnBoard(i, j) && old(board)[i][j] == Obstacle ==> board[i][j] == Obstacle
      ensures symbol != Blank && symbol != Obstacle ==> Consistent(board, nMoves, obstaclesCount)
    {
      if x < 0 || x >= N || y < 0 || y >= N {
        return false;
      }
      if board[x][y] != Blank {
        return false;
      }
      ghost var g0, n0, o0 := board, nMoves, obstaclesCount;
      board := Put(board, x, y, symbol);
      nMoves := nMoves + 1;
      PlaceCounts(g0, n0, o0, x, y, symbol);
      if nMoves >= 2 && nMoves % 2 == 0 {
        ghost var g1 := board;
        AddRandomObstacles();
        ObstaclesAddedCounts(g1, board);
      }
      HalfStep(n0);
      if symbol != Blank && symbol != Obstacle {
        MoveConsistent(g0, n0, o0, x, y, symbol, board, obstaclesCount);
      }
      return true;
    }
  }
}
