/**
 * 4 x 4 tic-tac-toe: the board starts with four X and four O marks on the
 * top and bottom rows, eight cells are blank, and three in a row wins.
 * Sliding moves are generated with the `Adjacency` helpers.
 */
module FourByFour {
  import opened Grids
  import Adjacency

  const Blank: char := '.'
  const N: int := 4

  predicate OnBoard(x: int, y: int) {
    0 <= x < N && 0 <= y < N
  }

  /** The starting position: X at (0,0), (0,2), (3,1), (3,3) and O at (0,1), (0,3), (3,0), (3,2). */
  function Initial(): (g: Grid<char>)
    ensures IsGrid(g, N, N)
  {
    var g := Uniform(N, N, Blank);
    var g := Put(Put(Put(Put(g, 0, 0, 'X'), 0, 2, 'X'), 3, 1, 'X'), 3, 3, 'X');
    Put(Put(Put(Put(g, 0, 1, 'O'), 0, 3, 'O'), 3, 0, 'O'), 3, 2, 'O')
  }

  /** The starting position has its eight marks on the outer rows and exactly eight blank cells, in the middle rows. */
  lemma InitialLayout()
    ensures forall j :: 0 <= j < N ==> Initial()[0][j] == (if j % 2 == 0 then 'X' else 'O')
    ensures forall j :: 0 <= j < N ==> Initial()[3][j] == (if j % 2 == 0 then 'O' else 'X')
    ensures forall i, j :: 1 <= i < 3 && 0 <= j < N ==> Initial()[i][j] == Blank
    ensures Count(Initial(), Blank) == 8
  {
    var g4 := XMarks();
    InitialBlanks(g4);
    var g := Initial();
    assert g == Put(Put(Put(Put(g4, 0, 1, 'O'), 0, 3, 'O'), 3, 0, 'O'), 3, 2, 'O');
  }

  /** The board after the four X marks of the constructor. */
  function XMarks(): (g: Grid<char>)
    ensures IsGrid(g, N, N)
  {
    Put(Put(Put(Put(Uniform(N, N, Blank), 0, 0, 'X'), 0, 2, 'X'), 3, 1, 'X'), 3, 3, 'X')
  }

  lemma XMarksCount()
    ensures Count(XMarks(), Blank) == 12
    ensures forall i, j :: 0 <= i < N && 0 <= j < N ==>
              XMarks()[i][j] == (if (i == 0 && j % 2 == 0) || (i == 3 && j % 2 == 1) then 'X' else Blank)
  {
    var g0 := Uniform(N, N, Blank);
    CountAll(g0, Blank, N, N);
    var g1 := Put(g0, 0, 0, 'X');
    CountPut(g0, 0, 0, 'X', Blank);
    var g2 := Put(g1, 0, 2, 'X');
    CountPut(g1, 0, 2, 'X', Blank);
    var g3 := Put(g2, 3, 1, 'X');
    CountPut(g2, 3, 1, 'X', Blank);
    CountPut(g3, 3, 3, 'X', Blank);
  }

  lemma InitialBlanks(g4: Grid<char>)
    requires g4 == XMarks()
    ensures var g := Put(Put(Put(Put(g4, 0, 1, 'O'), 0, 3, 'O'), 3, 0, 'O'), 3, 2, 'O');
            Count(g, Blank) == 8 &&
            forall i, j :: 0 <= i < N && 0 <= j < N ==>
              g[i][j] == (if i == 0 then (if j % 2 == 0 then 'X' else 'O')
                          else if i == 3 then (if j % 2 == 0 then 'O' else 'X')
                          else Blank)
  {
    XMarksCount();
    var g5 := Put(g4, 0, 1, 'O');
    CountPut(g4, 0, 1, 'O', Blank);
    var g6 := Put(g5, 0, 3, 'O');
    CountPut(g5, 0, 3, 'O', Blank);
    var g7 := Put(g6, 3, 0, 'O');
    CountPut(g6, 3, 0, 'O', Blank);
    CountPut(g7, 3, 2, 'O', Blank);
  }

  // ---------------------------------------------------------------- three in a row

  /** The scan in direction `d` at loop indices (i, j) sees `sym` three times (the anti-diagonal scan reads down-left from (i, j)). */
  predicate Win3(g: Grid<char>, sym: char, d: Dir, i: int, j: int) {
    var r, c := if d == NorthEast then i + 2 else i, if d == NorthEast then j - 2 else j;
    CellIs(g, r, c, d, 0, sym) && CellIs(g, r, c, d, 1, sym) && CellIs(g, r, c, d, 2, sym)
  }

  /**
   * is_win: a horizontal window from columns 0..1, a vertical one from rows
   * 0..1, a down-right one from rows and columns 0..1, or a down-left one
   * from rows 0..1 and columns 2..3, all holding `sym`.
   */
  predicate IsWin(g: Grid<char>, sym: char) {
    (exists i, j :: 0 <= i < N && 0 <= j < N - 2 && Win3(g, sym, East, i, j))
    || (exists i, j :: 0 <= i < N - 2 && 0 <= j < N && Win3(g, sym, South, i, j))
    || (exists i, j :: 0 <= i < N - 2 && 0 <= j < N - 2 && Win3(g, sym, SouthEast, i, j))
    || (exists i, j :: 0 <= i < N - 2 && 2 <= j < N && Win3(g, sym, NorthEast, i, j))
  }

  lemma Win3IsRun(g: Grid<char>, sym: char, d: Dir, i: int, j: int)
    requires Win3(g, sym, d, i, j)
    ensures HasRun(g, 3, sym)
  {
    var r, c := if d == NorthEast then i + 2 else i, if d == NorthEast then j - 2 else j;
    Run3(g, r, c, d, sym);
  }

  /** On a 4 x 4 board the four scans find exactly the straight lines of three cells holding `sym`. */
  lemma IsWinIsRun(g: Grid<char>, sym: char)
    requires IsGrid(g, N, N)
    ensures IsWin(g, sym) <==> HasRun(g, 3, sym)
  {
    if IsWin(g, sym) {
      var d, i, j :| Win3(g, sym, d, i, j);
      Win3IsRun(g, sym, d, i, j);
    }
    if HasRun(g, 3, sym) {
      var r, c, d :| Run(g, r, c, d, 3, sym);
      assert CellIs(g, r, c, d, 0, sym) && CellIs(g, r, c, d, 1, sym) && CellIs(g, r, c, d, 2, sym);
      if d == NorthEast {
        assert Win3(g, sym, d, r - 2, c + 2);
      } else {
        assert Win3(g, sym, d, r, c);
      }
    }
  }

  /** is_draw: sixteen moves without a win. */
  predicate IsDraw(g: Grid<char>, nMoves: int, sym: char) {
    nMoves >= 16 && !IsWin(g, sym)
  }

  predicate GameIsOver(g: Grid<char>, nMoves: int, sym: char) {
    IsWin(g, sym) || IsDraw(g, nMoves, sym)
  }

  /** The state reachable from the start: every move filled one of the eight blank cells. */
  predicate Consistent(g: Grid<char>, nMoves: int) {
    IsGrid(g, N, N) && 0 <= nMoves && nMoves + Count(g, Blank) == 8
  }

  /** At most eight moves can be made, so the sixteen-move draw never happens. */
  lemma NeverDraw(g: Grid<char>, nMoves: int, sym: char)
    requires Consistent(g, nMoves)
    ensures nMoves <= 8
    ensures !IsDraw(g, nMoves, sym)
    ensures GameIsOver(g, nMoves, sym) <==> IsWin(g, sym)
  {
  }

  // ---------------------------------------------------------------- the copying finding

  /**
   * As written, a sliding move reaches update_board as its destination
   * only: the destination gets the mark and the origin keeps it, so the
   * piece is copied, the mover has one mark more and one blank cell fewer.
   */
  lemma SlideCopiesPiece(g: Grid<char>, fromX: int, fromY: int, toX: int, toY: int, sym: char)
    requires IsGrid(g, N, N) && (sym == 'X' || sym == 'O')
    requires Adjacency.IsValidAdjacentMove(g, N, Blank, fromX, fromY, toX, toY) && g[fromX][fromY] == sym
    ensures var h := Put(g, toX, toY, ToUpper(sym));
            h[fromX][fromY] == sym && h[toX][toY] == sym &&
            Count(h, sym) == Count(g, sym) + 1 && Count(h, Blank) == Count(g, Blank) - 1
  {
    CountPut(g, toX, toY, sym, sym);
    CountPut(g, toX, toY, sym, Blank);
  }

  /** The evidently intended sliding move: the origin is blanked and the destination gets the upper-case mark. */
  function Slide(g: Grid<char>, fromX: int, fromY: int, toX: int, toY: int, mark: char): (h: Grid<char>)
    requires IsGrid(g, N, N) && OnBoard(fromX, fromY) && OnBoard(toX, toY)
    ensures IsGrid(h, N, N)
  {
    Put(Put(g, fromX, fromY, Blank), toX, toY, ToUpper(mark))
  }

  /**
   * A slide moves the piece: the origin becomes blank, the destination
   * holds the mark, every other cell is unchanged, and the number of the
   * mover's marks and of blank cells stay as they were.
   */
  lemma SlideMovesPiece(g: Grid<char>, fromX: int, fromY: int, toX: int, toY: int, sym: char)
    requires IsGrid(g, N, N) && (sym == 'X' || sym == 'O')
    requires Adjacency.IsValidAdjacentMove(g, N, Blank, fromX, fromY, toX, toY) && g[fromX][fromY] == sym
    ensures var h := Slide(g, fromX, fromY, toX, toY, sym);
            h[fromX][fromY] == Blank && h[toX][toY] == sym &&
            (forall i, j :: OnBoard(i, j) && (i, j) != (fromX, fromY) && (i, j) != (toX, toY) ==> h[i][j] == g[i][j]) &&
            Count(h, sym) == Count(g, sym) && Count(h, Blank) == Count(g, Blank)
  {
    var g1 := Put(g, fromX, fromY, Blank);
    CountPut(g, fromX, fromY, Blank, sym);
    CountPut(g, fromX, fromY, Blank, Blank);
    CountPut(g1, toX, toY, sym, sym);
    CountPut(g1, toX, toY, sym, Blank);
  }

  /** XO_4x4_Board: the matrix and the move counter. */
  class Board4x4 {
    var board: Grid<char>
    var nMoves: int

    ghost predicate Valid()
      reads this
    {
      IsGrid(board, N, N)
    }

    /** Fills the board with `'.'` and then writes the eight starting marks. */
    constructor ()
      ensures Valid() && board == Initial() && nMoves == 0
      ensures Consistent(board, nMoves)
    {
      board := Uniform(N, N, Blank);
      nMoves := 0;
      new;
      board := Put(board, 0, 0, 'X');
      board := Put(board, 0, 2, 'X');
      board := Put(board, 3, 1, 'X');
      board := Put(board, 3, 3, 'X');
      board := Put(board, 0, 1, 'O');
      board := Put(board, 0, 3, 'O');
      board := Put(board, 3, 0, 'O');
      board := Put(board, 3, 2, 'O');
      InitialLayout();
    }

    /**
     * update_board: refuses an off-board or taken cell with no change;
     * otherwise writes the upper-case mark and counts the move.
     */
    method UpdateBoard(x: int, y: int, mark: char) returns (ok: bool)
      requires Valid()
      modifies this
      ensures Valid()
      ensures ok <==> OnBoard(x, y) && old(board)[x][y] == Blank
      ensures !ok ==> board == old(board) && nMoves == old(nMoves)
      ensures ok ==> board == Put(old(board), x, y, ToUpper(mark)) && nMoves == old(nMoves) + 1
      ensures mark != Blank && old(Consistent(board, nMoves)) ==> Consistent(board, nMoves)
    {
      if x < 0 || x >= N || y < 0 || y >= N {
        return false;
      }
      if board[x][y] == Blank {
        CountPut(board, x, y, ToUpper(mark), Blank);
        ToUpperFacts(mark);
        board := Put(board, x, y, ToUpper(mark));
        nMoves := nMoves + 1;
        return true;
      }
      return false;
    }

    /**
     * The intended sliding move: the source must hold the mover's mark and
     * the move must be a valid adjacent one, as the move prompt checks;
     * then the piece slides (`Slide`) and the move is counted.  The eight
     * blank cells stay eight, so pieces are never copied.
     */
    method SlideMove(fromX: int, fromY: int, toX: int, toY: int, mark: char) returns (ok: bool)
      requires Valid()
      modifies this
      ensures Valid()
      ensures ok <==> old(IsValidAdjacentMove(fromX, fromY, toX, toY)) && old(board)[fromX][fromY] == mark
      ensures !ok ==> board == old(board) && nMoves == old(nMoves)
      ensures ok ==> board == Slide(old(board), fromX, fromY, toX, toY, mark) && nMoves == old(nMoves) + 1
      ensures Count(board, Blank) == old(Count(board, Blank))
    {
      if !Adjacency.IsValidAdjacentMove(board, N, Blank, fromX, fromY, toX, toY) || board[fromX][fromY] != mark {
        return false;
      }
      ToUpperFacts(mark);
      var g1 := Put(board, fromX, fromY, Blank);
      CountPut(board, fromX, fromY, Blank, Blank);
      CountPut(g1, toX, toY, ToUpper(mark), Blank);
      board := Slide(board, fromX, fromY, toX, toY, mark);
      nMoves := nMoves + 1;
      return true;
    }

    /** is_valid_adjacent_move on this board. */
    predicate IsValidAdjacentMove(fromX: int, fromY: int, toX: int, toY: int)
      requires Valid()
      reads this
    {
      Adjacency.IsValidAdjacentMove(board, N, Blank, fromX, fromY, toX, toY)
    }

    /** get_possible_moves: the sliding moves of the player's marks, in the order generated. */
    method GetPossibleMoves(symbol: char) returns (moves: seq<Adjacency.Move>)
      requires Valid()
      ensures moves == Adjacency.PossibleMoves(board, N, Blank, symbol, N)
      ensures symbol != Blank ==>
                forall m :: m in moves ==> m.symbol == symbol && OnBoard(m.x, m.y) && board[m.x][m.y] == Blank
    {
      moves := Adjacency.GetPossibleMoves(board, N, Blank, symbol);
      if symbol != Blank {
        forall m | m in moves
          ensures m.symbol == symbol && OnBoard(m.x, m.y) && board[m.x][m.y] == Blank
        {
          Adjacency.PossibleMovesAreAdjacent(board, N, Blank, symbol, m);
        }
      }
    }
  }
}
