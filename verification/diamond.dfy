/**
 * Diamond tic-tac-toe: a 7 x 7 matrix of which only a diamond of 25 cells
 * is played.  A player wins with a line of three and a line of four of
 * their symbol in two different directions.
 */
module Diamond {
  import opened Grids

  const Blank: char := ' '
  const Size: int := 7

  /** is_playable_cell: the diamond row by row, 1, 3, 5, 7, 5, 3, 1 cells centred on column 3. */
  predicate IsPlayable(row: int, col: int) {
    if row == 0 then col == 3
    else if row == 1 then 2 <= col <= 4
    else if row == 2 then 1 <= col <= 5
    else if row == 3 then 0 <= col <= 6
    else if row == 4 then 1 <= col <= 5
    else if row == 5 then 2 <= col <= 4
    else if row == 6 then col == 3
    else false
  }

  function Abs(n: int): nat {
    if n < 0 then -n else n
  }

  /** The diamond is the ball of radius 3 around the centre in the Manhattan distance. */
  lemma PlayableIffDistance(row: int, col: int)
    requires 0 <= row < Size
    ensures IsPlayable(row, col) <==> Abs(row - 3) + Abs(col - 3) <= 3
  {
  }

  /** The diamond is symmetric top to bottom and left to right, and lies inside the matrix. */
  lemma PlayableSymmetric(row: int, col: int)
    ensures IsPlayable(row, col) <==> IsPlayable(6 - row, col)
    ensures IsPlayable(row, col) <==> IsPlayable(row, 6 - col)
    ensures IsPlayable(row, col) ==> 0 <= row < Size && 0 <= col < Size
  {
  }

  // ---------------------------------------------------------------- counting diamond cells

  /** Playable cells of row `r` among columns 0..c-1 that hold `v`. */
  function RowCells(g: Grid<char>, v: char, r: int, c: nat): (n: nat)
    requires IsGrid(g, Size, Size) && 0 <= r < Size && c <= Size
    ensures n <= c
  {
    if c == 0 then 0
    else RowCells(g, v, r, c - 1) + (if IsPlayable(r, c - 1) && g[r][c - 1] == v then 1 else 0)
  }

  /** Playable cells of rows 0..r-1 that hold `v`. */
  function Cells(g: Grid<char>, v: char, r: nat): nat
    requires IsGrid(g, Size, Size) && r <= Size
  {
    if r == 0 then 0 else Cells(g, v, r - 1) + RowCells(g, v, r - 1, Size)
  }

  /** Playable cells of row `r` among columns 0..c-1. */
  function RowMask(r: int, c: nat): nat {
    if c == 0 then 0 else RowMask(r, c - 1) + (if IsPlayable(r, c - 1) then 1 else 0)
  }

  /** Playable cells of rows 0..r-1. */
  function Mask(r: nat): nat {
    if r == 0 then 0 else Mask(r - 1) + RowMask(r - 1, Size)
  }

  /** 1 + 3 + 5 + 7 + 5 + 3 + 1: the diamond has 25 cells. */
  lemma TwentyFiveCells()
    ensures Mask(Size) == 25
  {
    assert RowMask(0, Size) == 1 && RowMask(6, Size) == 1;
    assert RowMask(1, Size) == 3 && RowMask(5, Size) == 3;
    assert RowMask(2, Size) == 5 && RowMask(4, Size) == 5;
    assert RowMask(3, Size) == 7;
  }

  lemma {:induction false} RowCellsAll(g: Grid<char>, v: char, r: int, c: nat)
    requires IsGrid(g, Size, Size) && 0 <= r < Size && c <= Size
    requires forall j :: 0 <= j < c && IsPlayable(r, j) ==> g[r][j] == v
    ensures RowCells(g, v, r, c) == RowMask(r, c)
  {
    if c > 0 {
      RowCellsAll(g, v, r, c - 1);
    }
  }

  /** When every diamond cell holds `v`, all 25 count. */
  lemma {:induction false} CellsAll(g: Grid<char>, v: char, r: nat)
    requires IsGrid(g, Size, Size) && r <= Size
    requires forall i, j :: 0 <= i < r && 0 <= j < Size && IsPlayable(i, j) ==> g[i][j] == v
    ensures Cells(g, v, r) == Mask(r)
  {
    if r > 0 {
      CellsAll(g, v, r - 1);
      RowCellsAll(g, v, r - 1, Size);
    }
  }

  lemma {:induction false} RowCellsZero(g: Grid<char>, v: char, r: int, c: nat)
    requires IsGrid(g, Size, Size) && 0 <= r < Size && c <= Size
    ensures RowCells(g, v, r, c) == 0 <==> forall j :: 0 <= j < c && IsPlayable(r, j) ==> g[r][j] != v
  {
    if c > 0 {
      RowCellsZero(g, v, r, c - 1);
    }
  }

  /** No diamond cell holds `v` exactly when the count is zero. */
  lemma {:induction false} CellsZero(g: Grid<char>, v: char, r: nat)
    requires IsGrid(g, Size, Size) && r <= Size
    ensures Cells(g, v, r) == 0 <==>
              forall i, j :: 0 <= i < r && 0 <= j < Size && IsPlayable(i, j) ==> g[i][j] != v
  {
    if r > 0 {
      CellsZero(g, v, r - 1);
      RowCellsZero(g, v, r - 1, Size);
    }
  }

  lemma {:induction false} RowCellsPut(g: Grid<char>, v: char, r: int, c: nat, x: int, y: int, s: char)
    requires IsGrid(g, Size, Size) && 0 <= r < Size && c <= Size && 0 <= x < Size && 0 <= y < Size
    ensures RowCells(Put(g, x, y, s), v, r, c) ==
              RowCells(g, v, r, c) +
              (if r == x && y < c && IsPlayable(x, y) then
                 (if s == v then 1 else 0) - (if g[x][y] == v then 1 else 0)
               else 0)
  {
    if c > 0 {
      RowCellsPut(g, v, r, c - 1, x, y, s);
    }
  }

  /** Writing one diamond cell moves the count of `v` by at most one; writing off the diamond leaves it. */
  lemma {:induction false} CellsPut(g: Grid<char>, v: char, r: nat, x: int, y: int, s: char)
    requires IsGrid(g, Size, Size) && r <= Size && 0 <= x < Size && 0 <= y < Size
    ensures Cells(Put(g, x, y, s), v, r) ==
              Cells(g, v, r) +
              (if x < r && IsPlayable(x, y) then
                 (if s == v then 1 else 0) - (if g[x][y] == v then 1 else 0)
               else 0)
  {
    if r > 0 {
      CellsPut(g, v, r - 1, x, y, s);
      RowCellsPut(g, v, r - 1, Size, x, y, s);
    }
  }

  // ---------------------------------------------------------------- lines

  /**
   * The `k`-th cell of the line from (x, y) in direction `d` of the
   * direction tables: 0 is (0, 1), 1 is (1, 0), 2 is (1, 1), 3 is (1, -1).
   */
  function At(x: int, y: int, d: int, k: int): (int, int) {
    if d == 0 then (x, y + k)
    else if d == 1 then (x + k, y)
    else if d == 2 then (x + k, y + k)
    else (x + k, y - k)
  }

  predicate OnDiamond(p: (int, int)) {
    0 <= p.0 < Size && 0 <= p.1 < Size && IsPlayable(p.0, p.1)
  }

  /** `len` cells from (x, y) in direction `d`, all inside the matrix, on the diamond and holding `s`. */
  predicate Line(g: Grid<char>, s: char, x: int, y: int, d: int, len: nat)
    requires IsGrid(g, Size, Size)
  {
    forall k :: 0 <= k < len ==> OnDiamond(At(x, y, d, k)) && g[At(x, y, d, k).0][At(x, y, d, k).1] == s
  }

  /** How many of the first `m` cells of the line from (x, y) in direction `d` are `p`. */
  function Hits(p: (int, int), x: int, y: int, d: int, m: nat): nat {
    if m == 0 then 0 else Hits(p, x, y, d, m - 1) + (if At(x, y, d, m - 1) == p then 1 else 0)
  }

  /**
   * The shared-cell counter of the win test: pairs of a cell among the
   * first `n` of one line and a cell among the first `m` of another that
   * are the same cell.
   */
  function Common(x1: int, y1: int, d1: int, n: nat, x2: int, y2: int, d2: int, m: nat): nat {
    if n == 0 then 0
    else Common(x1, y1, d1, n - 1, x2, y2, d2, m) + Hits(At(x1, y1, d1, n - 1), x2, y2, d2, m)
  }

  /**
   * count_three_in_row: some recorded line of three and some recorded line
   * of four, in different directions, share at most one cell.
   */
  predicate CountThreeInRow(g: Grid<char>, s: char)
    requires IsGrid(g, Size, Size)
  {
    exists x1, y1, d1, x2, y2, d2 ::
      0 <= x1 < Size && 0 <= y1 < Size && 0 <= x2 < Size && 0 <= y2 < Size &&
      0 <= d1 < 4 && 0 <= d2 < 4 && d1 != d2 &&
      Line(g, s, x1, y1, d1, 3) && Line(g, s, x2, y2, d2, 4) &&
      Common(x1, y1, d1, 3, x2, y2, d2, 4) <= 1
  }

  /** count_four_in_row: always false; the four-line is part of count_three_in_row. */
  predicate CountFourInRow(g: Grid<char>, s: char) {
    false
  }

  /** Two cells of the same line are the same cell only at the same step. */
  lemma LineInjective(x: int, y: int, d: int, k: int, l: int)
    requires At(x, y, d, k) == At(x, y, d, l)
    ensures k == l
  {
  }

  /** Lines in two different directions meet in at most one cell, at one step of each. */
  lemma Crossing(x1: int, y1: int, d1: int, a: int, a': int, x2: int, y2: int, d2: int, b: int, b': int)
    requires 0 <= d1 < 4 && 0 <= d2 < 4 && d1 != d2
    requires At(x1, y1, d1, a) == At(x2, y2, d2, b) && At(x1, y1, d1, a') == At(x2, y2, d2, b')
    ensures a == a' && b == b'
  {
  }

  /** A cell lies at most once on a line, and it is counted exactly when it lies on it. */
  lemma {:induction false} HitsAtMostOne(p: (int, int), x: int, y: int, d: int, m: nat)
    ensures Hits(p, x, y, d, m) <= 1
    ensures Hits(p, x, y, d, m) == 1 <==> exists k :: 0 <= k < m && At(x, y, d, k) == p
  {
    if m > 0 {
      HitsAtMostOne(p, x, y, d, m - 1);
      if At(x, y, d, m - 1) == p {
        forall k | 0 <= k < m - 1
          ensures At(x, y, d, k) != p
        {
          if At(x, y, d, k) == p {
            LineInjective(x, y, d, k, m - 1);
          }
        }
      } else {
        if k :| 0 <= k < m && At(x, y, d, k) == p {
          assert k < m - 1;
        }
      }
    }
  }

  /** Two lines in different directions share at most one cell, and share one exactly when they cross. */
  lemma {:induction false} CommonAtMostOne(x1: int, y1: int, d1: int, n: nat, x2: int, y2: int, d2: int, m: nat)
    requires 0 <= d1 < 4 && 0 <= d2 < 4 && d1 != d2
    ensures Common(x1, y1, d1, n, x2, y2, d2, m) <= 1
    ensures Common(x1, y1, d1, n, x2, y2, d2, m) == 1 <==>
              exists a, b :: 0 <= a < n && 0 <= b < m && At(x1, y1, d1, a) == At(x2, y2, d2, b)
  {
    if n > 0 {
      CommonAtMostOne(x1, y1, d1, n - 1, x2, y2, d2, m);
      var p := At(x1, y1, d1, n - 1);
      HitsAtMostOne(p, x2, y2, d2, m);
      if Hits(p, x2, y2, d2, m) == 1 {
        var b :| 0 <= b < m && At(x2, y2, d2, b) == p;
        if Common(x1, y1, d1, n - 1, x2, y2, d2, m) == 1 {
          var a', b' :| 0 <= a' < n - 1 && 0 <= b' < m && At(x1, y1, d1, a') == At(x2, y2, d2, b');
          Crossing(x1, y1, d1, n - 1, a', x2, y2, d2, b, b');
        }
      } else {
        assert forall b :: 0 <= b < m ==> At(x2, y2, d2, b) != p;
      }
    }
  }

  /**
   * The shared-cell test never rejects a pair: count_three_in_row holds
   * exactly when the symbol has a line of three and a line of four on the
   * diamond in different directions.
   */
  lemma CountThreeInRowIff(g: Grid<char>, s: char)
    requires IsGrid(g, Size, Size)
    ensures CountThreeInRow(g, s) <==>
              exists x1, y1, d1, x2, y2, d2 ::
                0 <= d1 < 4 && 0 <= d2 < 4 && d1 != d2 &&
                Line(g, s, x1, y1, d1, 3) && Line(g, s, x2, y2, d2, 4)
  {
    if x1, y1, d1, x2, y2, d2 :| 0 <= d1 < 4 && 0 <= d2 < 4 && d1 != d2 &&
                                 Line(g, s, x1, y1, d1, 3) && Line(g, s, x2, y2, d2, 4) {
      CommonAtMostOne(x1, y1, d1, 3, x2, y2, d2, 4);
      assert OnDiamond(At(x1, y1, d1, 0)) && OnDiamond(At(x2, y2, d2, 0));
    }
  }

  /** A blank diamond never wins: only real marks form lines. */
  lemma BlankNeverWins(g: Grid<char>)
    requires IsGrid(g, Size, Size) && forall i, j :: 0 <= i < Size && 0 <= j < Size ==> g[i][j] == Blank
    ensures forall s :: s != Blank ==> !CountThreeInRow(g, s)
  {
    forall s | s != Blank
      ensures !CountThreeInRow(g, s)
    {
      forall x1, y1, d1 | 0 <= d1 < 4
        ensures !Line(g, s, x1, y1, d1, 3)
      {
        if OnDiamond(At(x1, y1, d1, 0)) {
          assert g[At(x1, y1, d1, 0).0][At(x1, y1, d1, 0).1] != s;
        }
      }
    }
  }

  // ---------------------------------------------------------------- outcome

  /** is_win: the player's own symbol satisfies the rule. */
  predicate IsWin(g: Grid<char>, sym: char)
    requires IsGrid(g, Size, Size)
  {
    CountThreeInRow(g, sym)
  }

  /** is_lose: the opponent's symbol (`'O'` for `'X'`, otherwise `'X'`) satisfies the rule. */
  predicate IsLose(g: Grid<char>, sym: char)
    requires IsGrid(g, Size, Size)
  {
    CountThreeInRow(g, Opponent(sym))
  }

  /** is_draw: 25 moves made and neither X nor O satisfies the rule. */
  predicate IsDraw(g: Grid<char>, nMoves: int)
    requires IsGrid(g, Size, Size)
  {
    nMoves >= 25 && !CountThreeInRow(g, 'X') && !CountThreeInRow(g, 'O')
  }

  predicate GameIsOver(g: Grid<char>, nMoves: int, sym: char)
    requires IsGrid(g, Size, Size)
  {
    IsWin(g, sym) || IsLose(g, sym) || IsDraw(g, nMoves)
  }

  /** For X and O, losing is the other player winning, and the game is over exactly when X wins, O wins or it is drawn. */
  lemma LoseIsOpponentWin(g: Grid<char>, nMoves: int)
    requires IsGrid(g, Size, Size)
    ensures IsLose(g, 'X') == IsWin(g, 'O') && IsLose(g, 'O') == IsWin(g, 'X')
    ensures GameIsOver(g, nMoves, 'X') <==> IsWin(g, 'X') || IsWin(g, 'O') || IsDraw(g, nMoves)
    ensures GameIsOver(g, nMoves, 'X') == GameIsOver(g, nMoves, 'O')
    ensures IsDraw(g, nMoves) ==> !IsWin(g, 'X') && !IsWin(g, 'O')
  {
  }

  /**
   * The state reachable from the empty matrix: cells off the diamond stay
   * blank and every move filled one diamond cell.
   */
  predicate Consistent(g: Grid<char>, nMoves: int) {
    IsGrid(g, Size, Size) &&
    (forall i, j :: 0 <= i < Size && 0 <= j < Size && !IsPlayable(i, j) ==> g[i][j] == Blank) &&
    nMoves + Cells(g, Blank, Size) == 25
  }

  /** On a reachable board the 25-move test of is_draw means every diamond cell is taken. */
  lemma DrawMeansFull(g: Grid<char>, nMoves: int)
    requires Consistent(g, nMoves)
    ensures nMoves >= 25 <==> forall i, j :: 0 <= i < Size && 0 <= j < Size && IsPlayable(i, j) ==> g[i][j] != Blank
    ensures nMoves <= 25
  {
    CellsZero(g, Blank, Size);
  }

  /** Diamond_board: the 7 x 7 matrix and the move counter. */
  class DiamondBoard {
    var board: Grid<char>
    var nMoves: int

    ghost predicate Valid()
      reads this
    {
      IsGrid(board, Size, Size)
    }

    constructor ()
      ensures Valid() && board == Uniform(Size, Size, Blank) && nMoves == 0
      ensures Consistent(board, nMoves)
    {
      board := Uniform(Size, Size, Blank);
      nMoves := 0;
      new;
      CellsAll(board, Blank, Size);
      TwentyFiveCells();
    }

    /**
     * update_board: refuses a cell outside the matrix, off the diamond or
     * taken, with no change; otherwise writes the symbol and counts the move.
     */
    method UpdateBoard(x: int, y: int, symbol: char) returns (ok: bool)
      requires Valid()
      modifies this
      ensures Valid()
      ensures ok <==> 0 <= x < Size && 0 <= y < Size && IsPlayable(x, y) && old(board)[x][y] == Blank
      ensures !ok ==> board == old(board) && nMoves == old(nMoves)
      ensures ok ==> board == Put(old(board), x, y, symbol) && nMoves == old(nMoves) + 1
      ensures symbol != Blank && old(Consistent(board, nMoves)) ==> Consistent(board, nMoves)
    {
      if x < 0 || x >= Size || y < 0 || y >= Size {
        return false;
      }
      if !IsPlayable(x, y) {
        return false;
      }
      if board[x][y] != Blank {
        return false;
      }
      CellsPut(board, Blank, Size, x, y, symbol);
      board := Put(board, x, y, symbol);
      nMoves := nMoves + 1;
      return true;
    }
  }
}
