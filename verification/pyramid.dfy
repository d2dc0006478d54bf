/**
 * Pyramid tic-tac-toe: a 3 x 5 matrix of which only a pyramid of nine
 * cells is played, one on top, three in the middle row and five at the
 * bottom.  The win test checks a fixed list of fifteen triples of cells.
 */
module Pyramid {
  import opened Grids

  const Blank: char := '.'
  /** The filler of the matrix cells outside the pyramid. */
  const Outside: char := ' '

  /** is_valid_cell: (0, 2), (1, 1..3) and (2, 0..4). */
  predicate IsValidCell(x: int, y: int) {
    0 <= x < 3 && 0 <= y < 5 &&
    ((x == 0 && y == 2) || (x == 1 && 1 <= y <= 3) || (x == 2 && 0 <= y <= 4))
  }

  /** The matrix the constructor builds: `'.'` on the pyramid, `' '` elsewhere. */
  function Initial(): (g: Grid<char>)
    ensures IsGrid(g, 3, 5)
    ensures forall i, j :: 0 <= i < 3 && 0 <= j < 5 ==> (g[i][j] == Blank <==> IsValidCell(i, j))
    ensures forall i, j :: 0 <= i < 3 && 0 <= j < 5 ==> (g[i][j] == Outside <==> !IsValidCell(i, j))
  {
    seq(3, i => seq(5, j => if IsValidCell(i, j) then Blank else Outside))
  }

  /** Cells outside the pyramid hold `' '`. */
  predicate Shaped(g: Grid<char>) {
    IsGrid(g, 3, 5) && forall i, j :: 0 <= i < 3 && 0 <= j < 5 && !IsValidCell(i, j) ==> g[i][j] == Outside
  }

  /** The fifteen triples is_win checks, in its order. */
  const Triples: seq<((int, int), (int, int), (int, int))> :=
    [((1, 1), (1, 2), (1, 3)),
     ((2, 0), (2, 1), (2, 2)), ((2, 1), (2, 2), (2, 3)), ((2, 2), (2, 3), (2, 4)),
     ((0, 2), (1, 2), (2, 2)),
     ((1, 1), (2, 1), (0, 2)), ((1, 3), (2, 3), (0, 2)),
     ((0, 2), (1, 1), (2, 0)), ((0, 2), (1, 3), (2, 4)),
     ((1, 1), (2, 2), (0, 2)), ((1, 3), (2, 2), (0, 2)),
     ((2, 0), (2, 2), (2, 4)), ((2, 0), (1, 2), (2, 4)),
     ((1, 2), (2, 1), (2, 3)), ((0, 2), (2, 1), (2, 3))]

  /** The three cells of triple `n` hold `s`. */
  predicate TripleIs(g: Grid<char>, n: int, s: char)
    requires IsGrid(g, 3, 5) && 0 <= n < |Triples|
  {
    var t := Triples[n];
    g[t.0.0][t.0.1] == s && g[t.1.0][t.1.1] == s && g[t.2.0][t.2.1] == s
  }

  /** is_win: the upper-case symbol fills one of the triples, tested cell by cell as listed. */
  predicate IsWin(g: Grid<char>, sym: char)
    requires IsGrid(g, 3, 5)
  {
    var s := ToUpper(sym);
    (g[1][1] == s && g[1][2] == s && g[1][3] == s) ||
    (g[2][0] == s && g[2][1] == s && g[2][2] == s) ||
    (g[2][1] == s && g[2][2] == s && g[2][3] == s) ||
    (g[2][2] == s && g[2][3] == s && g[2][4] == s) ||
    (g[0][2] == s && g[1][2] == s && g[2][2] == s) ||
    (g[1][1] == s && g[2][1] == s && g[0][2] == s) ||
    (g[1][3] == s && g[2][3] == s && g[0][2] == s) ||
    (g[0][2] == s && g[1][1] == s && g[2][0] == s) ||
    (g[0][2] == s && g[1][3] == s && g[2][4] == s) ||
    (g[1][1] == s && g[2][2] == s && g[0][2] == s) ||
    (g[1][3] == s && g[2][2] == s && g[0][2] == s) ||
    (g[2][0] == s && g[2][2] == s && g[2][4] == s) ||
    (g[2][0] == s && g[1][2] == s && g[2][4] == s) ||
    (g[1][2] == s && g[2][1] == s && g[2][3] == s) ||
    (g[0][2] == s && g[2][1] == s && g[2][3] == s)
  }

  /**
   * is_win holds exactly when one of the listed triples is filled with the
   * upper-case symbol.  The table only restates the fifteen tests as data;
   * what they accept is said by `RunIsWin` (every straight three wins) and
   * `BentTripleWins` (some triples that are not straight lines win too).
   */
  lemma IsWinIffTriple(g: Grid<char>, sym: char)
    requires IsGrid(g, 3, 5)
    ensures IsWin(g, sym) <==> exists n :: 0 <= n < |Triples| && TripleIs(g, n, ToUpper(sym))
  {
    var s := ToUpper(sym);
    if IsWin(g, sym) {
      if g[1][1] == s && g[1][2] == s && g[1][3] == s { assert TripleIs(g, 0, s); }
      else if g[2][0] == s && g[2][1] == s && g[2][2] == s { assert TripleIs(g, 1, s); }
      else if g[2][1] == s && g[2][2] == s && g[2][3] == s { assert TripleIs(g, 2, s); }
      else if g[2][2] == s && g[2][3] == s && g[2][4] == s { assert TripleIs(g, 3, s); }
      else if g[0][2] == s && g[1][2] == s && g[2][2] == s { assert TripleIs(g, 4, s); }
      else if g[1][1] == s && g[2][1] == s && g[0][2] == s { assert TripleIs(g, 5, s); }
      else if g[1][3] == s && g[2][3] == s && g[0][2] == s { assert TripleIs(g, 6, s); }
      else if g[0][2] == s && g[1][1] == s && g[2][0] == s { assert TripleIs(g, 7, s); }
      else if g[0][2] == s && g[1][3] == s && g[2][4] == s { assert TripleIs(g, 8, s); }
      else if g[1][1] == s && g[2][2] == s && g[0][2] == s { assert TripleIs(g, 9, s); }
      else if g[1][3] == s && g[2][2] == s && g[0][2] == s { assert TripleIs(g, 10, s); }
      else if g[2][0] == s && g[2][2] == s && g[2][4] == s { assert TripleIs(g, 11, s); }
      else if g[2][0] == s && g[1][2] == s && g[2][4] == s { assert TripleIs(g, 12, s); }
      else if g[1][2] == s && g[2][1] == s && g[2][3] == s { assert TripleIs(g, 13, s); }
      else { assert TripleIs(g, 14, s); }
    }
  }

  /**
   * Every straight line of three in the matrix that a real mark fills lies
   * on the pyramid and is one of the triples, so it wins.
   */
  lemma RunIsWin(g: Grid<char>, sym: char)
    requires Shaped(g) && ToUpper(sym) != Outside && HasRun(g, 3, ToUpper(sym))
    ensures IsWin(g, sym)
  {
    var s := ToUpper(sym);
    var r, c, d :| Run(g, r, c, d, 3, s);
    assert CellIs(g, r, c, d, 0, s) && CellIs(g, r, c, d, 1, s) && CellIs(g, r, c, d, 2, s);
    assert IsValidCell(RowAt(r, d, 0), ColAt(c, d, 0));
    assert IsValidCell(RowAt(r, d, 1), ColAt(c, d, 1));
    assert IsValidCell(RowAt(r, d, 2), ColAt(c, d, 2));
  }

  /** Some winning triples are not straight: a bent triple wins without any straight line of three. */
  lemma BentTripleWins()
    ensures var g := [[' ', ' ', 'X', ' ', ' '], [' ', 'X', '.', '.', ' '], ['.', 'X', '.', '.', '.']];
            IsWin(g, 'x') && !HasRun(g, 3, 'X')
  {
    var g := [[' ', ' ', 'X', ' ', ' '], [' ', 'X', '.', '.', ' '], ['.', 'X', '.', '.', '.']];
    assert IsWin(g, 'x') by {
      assert g[1][1] == 'X' && g[2][1] == 'X' && g[0][2] == 'X';
    }
    forall r, c, d
      ensures !Run(g, r, c, d, 3, 'X')
    {
      if CellIs(g, r, c, d, 0, 'X') && CellIs(g, r, c, d, 1, 'X') {
        assert !CellIs(g, r, c, d, 2, 'X');
      }
    }
  }

  /** is_draw: the ninth move was made and the player has no winning triple. */
  predicate IsDraw(g: Grid<char>, nMoves: int, sym: char)
    requires IsGrid(g, 3, 5)
  {
    nMoves == 9 && !IsWin(g, sym)
  }

  predicate GameIsOver(g: Grid<char>, nMoves: int, sym: char)
    requires IsGrid(g, 3, 5)
  {
    IsWin(g, sym) || IsDraw(g, nMoves, sym)
  }

  /** Which of the nine pyramid cells hold `'.'`, summed. */
  function BlankCells(g: Grid<char>): (n: nat)
    requires IsGrid(g, 3, 5)
    ensures n <= 9
  {
    (if g[0][2] == Blank then 1 else 0) +
    (if g[1][1] == Blank then 1 else 0) + (if g[1][2] == Blank then 1 else 0) + (if g[1][3] == Blank then 1 else 0) +
    (if g[2][0] == Blank then 1 else 0) + (if g[2][1] == Blank then 1 else 0) + (if g[2][2] == Blank then 1 else 0) +
    (if g[2][3] == Blank then 1 else 0) + (if g[2][4] == Blank then 1 else 0)
  }

  /** The state reachable from the constructor: the shape is kept and every move filled one pyramid cell. */
  predicate Consistent(g: Grid<char>, nMoves: int) {
    Shaped(g) && nMoves + BlankCells(g) == 9
  }

  /** On a reachable board the ninth move leaves no pyramid cell blank, and there is no tenth. */
  lemma NinthMoveFillsPyramid(g: Grid<char>, nMoves: int)
    requires Consistent(g, nMoves)
    ensures nMoves == 9 <==> forall i, j :: IsValidCell(i, j) ==> g[i][j] != Blank
    ensures nMoves <= 9
  {
    if nMoves != 9 {
      assert BlankCells(g) > 0;
    }
  }

  /** Writing a mark other than `'.'` on a blank pyramid cell fills one pyramid cell and keeps the shape. */
  lemma PlacePreserves(g: Grid<char>, nMoves: int, x: int, y: int, s: char)
    requires Consistent(g, nMoves) && IsValidCell(x, y) && g[x][y] == Blank && s != Blank
    ensures Consistent(Put(g, x, y, s), nMoves + 1)
  {
    PlaceBlankCells(g, x, y, s);
  }

  lemma PlaceBlankCells(g: Grid<char>, x: int, y: int, s: char)
    requires IsGrid(g, 3, 5) && IsValidCell(x, y) && g[x][y] == Blank && s != Blank
    ensures BlankCells(Put(g, x, y, s)) == BlankCells(g) - 1
  {
    var h := Put(g, x, y, s);
    assert h[0][2] == if x == 0 && y == 2 then s else g[0][2];
    assert h[1][1] == if x == 1 && y == 1 then s else g[1][1];
    assert h[1][2] == if x == 1 && y == 2 then s else g[1][2];
    assert h[1][3] == if x == 1 && y == 3 then s else g[1][3];
    assert h[2][0] == if x == 2 && y == 0 then s else g[2][0];
    assert h[2][1] == if x == 2 && y == 1 then s else g[2][1];
    assert h[2][2] == if x == 2 && y == 2 then s else g[2][2];
    assert h[2][3] == if x == 2 && y == 3 then s else g[2][3];
    assert h[2][4] == if x == 2 && y == 4 then s else g[2][4];
  }

  /** Pyramid_Board: the 3 x 5 matrix and the move counter. */
  class PyramidBoard {
    var board: Grid<char>
    var nMoves: int

    ghost predicate Valid()
      reads this
    {
      IsGrid(board, 3, 5)
    }

    constructor ()
      ensures Valid() && board == Initial() && nMoves == 0
      ensures Consistent(board, nMoves)
    {
      board := Initial();
      nMoves := 0;
      new;
    }

    /**
     * update_board: accepts exactly a pyramid cell holding `'.'`; writes the
     * upper-case mark there and counts the move, otherwise changes nothing.
     */
    method UpdateBoard(x: int, y: int, mark: char) returns (ok: bool)
      requires Valid()
      modifies this
      ensures Valid()
      ensures ok <==> IsValidCell(x, y) && old(board)[x][y] == Blank
      ensures !ok ==> board == old(board) && nMoves == old(nMoves)
      ensures ok ==> board == Put(old(board), x, y, ToUpper(mark)) && nMoves == old(nMoves) + 1
      ensures old(Shaped(board)) ==> Shaped(board)
      ensures mark != Blank && old(Consistent(board, nMoves)) ==> Consistent(board, nMoves)
    {
      if IsValidCell(x, y) && board[x][y] == Blank {
        if Consistent(board, nMoves) && mark != Blank {
          ToUpperFacts(mark);
          PlacePreserves(board, nMoves, x, y, ToUpper(mark));
        }
        board := Put(board, x, y, ToUpper(mark));
        nMoves := nMoves + 1;
        return true;
      }
      return false;
    }
  }
}
