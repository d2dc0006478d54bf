/**
 * Infinity tic-tac-toe: a 3 x 3 board of `'.'` cells where, after every
 * third move, the oldest mark on the board disappears.  The board keeps the
 * placed positions in a first-in first-out queue.
 */
module Infinity {
  import opened Grids

  const Blank: char := '.'

  type Pos = (int, int)

  predicate OnBoard(p: Pos) {
    0 <= p.0 < 3 && 0 <= p.1 < 3
  }

  /** is_win: some row, column or diagonal holds `sym` three times, and `sym` is not the blank. */
  predicate IsWin(g: Grid<char>, sym: char)
    requires IsGrid(g, 3, 3)
  {
    sym != Blank && ThreeInRow(g, sym)
  }

  /** is_draw: fifty moves without a win. */
  predicate IsDraw(g: Grid<char>, nMoves: int, sym: char)
    requires IsGrid(g, 3, 3)
  {
    nMoves >= 50 && !IsWin(g, sym)
  }

  predicate GameIsOver(g: Grid<char>, nMoves: int, sym: char)
    requires IsGrid(g, 3, 3)
  {
    IsWin(g, sym) || IsDraw(g, nMoves, sym)
  }

  /** A win is three of the symbol in a straight line. */
  lemma WinIsRun(g: Grid<char>, sym: char)
    requires IsGrid(g, 3, 3)
    ensures IsWin(g, sym) <==> sym != Blank && HasRun(g, 3, sym)
  {
    ThreeInRowIsRun(g, sym);
  }

  /**
   * The state reachable from the empty board: the queue holds distinct
   * on-board positions, the marked cells are exactly the queued ones, each
   * queued position stands for one mark that has not yet vanished
   * (one of every three moves has removed a mark), and queued and blank
   * cells together are the nine cells.
   */
  predicate Consistent(g: Grid<char>, q: seq<Pos>, nMoves: int) {
    IsGrid(g, 3, 3) && 0 <= nMoves &&
    (forall k :: 0 <= k < |q| ==> OnBoard(q[k]) && g[q[k].0][q[k].1] != Blank) &&
    (forall k, l :: 0 <= k < l < |q| ==> q[k] != q[l]) &&
    (forall i, j :: 0 <= i < 3 && 0 <= j < 3 && g[i][j] != Blank ==> (i, j) in q) &&
    |q| == nMoves - nMoves / 3 &&
    |q| + Count(g, Blank) == 9
  }

  /** On any reachable board at most 13 moves have been made, so the fifty-move draw never happens. */
  lemma MovesBounded(g: Grid<char>, q: seq<Pos>, nMoves: int, sym: char)
    requires Consistent(g, q, nMoves)
    ensures nMoves <= 13
    ensures !IsDraw(g, nMoves, sym)
  {
  }

  /** infinity_Board: the matrix, the move queue and the move counter. */
  class InfinityBoard {
    var board: Grid<char>
    var moveHistory: seq<Pos>
    var nMoves: int

    ghost predicate Valid()
      reads this
    {
      IsGrid(board, 3, 3) && forall k :: 0 <= k < |moveHistory| ==> OnBoard(moveHistory[k])
    }

    constructor ()
      ensures Valid() && board == Uniform(3, 3, Blank) && moveHistory == [] && nMoves == 0
      ensures Consistent(board, moveHistory, nMoves)
    {
      board := Uniform(3, 3, Blank);
      moveHistory := [];
      nMoves := 0;
      new;
      CountAll(board, Blank, 3, 3);
    }

    /** remove_oldest_move: pops the front of the queue and blanks its cell; an empty queue is left alone. */
    method RemoveOldestMove()
      requires Valid()
      modifies this
      ensures Valid() && nMoves == old(nMoves)
      ensures old(moveHistory) == [] ==> board == old(board) && moveHistory == []
      ensures old(moveHistory) != [] ==>
                moveHistory == old(moveHistory)[1..] &&
                board == Put(old(board), old(moveHistory)[0].0, old(moveHistory)[0].1, Blank)
    {
      if moveHistory != [] {
        var oldest := moveHistory[0];
        moveHistory := moveHistory[1..];
        var x := oldest.0;
        var y := oldest.1;
        board := Put(board, x, y, Blank);
      }
    }

    /**
     * update_board: refuses an off-board or taken cell; otherwise moves to
     * the state `Placed` describes.
     */
    method UpdateBoard(x: int, y: int, mark: char) returns (ok: bool)
      requires Valid()
      modifies this
      ensures Valid()
      ensures ok <==> OnBoard((x, y)) && old(board)[x][y] == Blank
      ensures !ok ==> board == old(board) && moveHistory == old(moveHistory) && nMoves == old(nMoves)
      ensures ok ==> State(board, moveHistory, nMoves) == Placed(old(board), old(moveHistory), old(nMoves), x, y, mark)
      ensures mark != Blank && old(Consistent(board, moveHistory, nMoves)) ==> Consistent(board, moveHistory, nMoves)
    {
      if x < 0 || x >= 3 || y < 0 || y >= 3 {
        return false;
      }
      if board[x][y] != Blank {
        return false;
      }
      ghost var g0, q0, n0 := board, moveHistory, nMoves;
      ghost var s := Placed(g0, q0, n0, x, y, mark);
      board := Put(board, x, y, ToUpper(mark));
      moveHistory := moveHistory + [(x, y)];
      nMoves := nMoves + 1;
      if nMoves % 3 == 0 {
        assert moveHistory[0] == if q0 == [] then (x, y) else q0[0];
        RemoveOldestMove();
      }
      assert board == s.board && moveHistory == s.history && nMoves == s.nMoves;
      if mark != Blank && Consistent(g0, q0, n0) {
        PlacedConsistent(g0, q0, n0, x, y, mark);
      }
      return true;
    }
  }

  /** The three fields of the board. */
  datatype State = State(board: Grid<char>, history: seq<Pos>, nMoves: int)

  /**
   * The state after a move on (x, y): the upper-case mark written, the
   * position queued at the back, the move counted, and when the count
   * reaches a multiple of three the front position popped and blanked.
   */
  function Placed(g: Grid<char>, q: seq<Pos>, n: int, x: int, y: int, mark: char): (s: State)
    requires IsGrid(g, 3, 3) && OnBoard((x, y))
    requires forall k :: 0 <= k < |q| ==> OnBoard(q[k])
  {
    var g1 := Put(g, x, y, ToUpper(mark));
    var q1 := q + [(x, y)];
    var oldest := if q == [] then (x, y) else q[0];
    assert OnBoard(oldest) && |g1[oldest.0]| == 3;
    if (n + 1) % 3 == 0 then State(Put(g1, oldest.0, oldest.1, Blank), q1[1..], n + 1)
    else State(g1, q1, n + 1)
  }

  /**
   * A move with a real mark onto a blank cell of a reachable board leads to
   * a reachable board; in particular the queue never holds a position
   * twice and each vanished mark is the oldest one left.
   */
  lemma PlacedConsistent(g: Grid<char>, q: seq<Pos>, n: int, x: int, y: int, mark: char)
    requires Consistent(g, q, n) && OnBoard((x, y)) && g[x][y] == Blank && mark != Blank
    ensures var s := Placed(g, q, n, x, y, mark); Consistent(s.board, s.history, s.nMoves)
  {
    var g1 := Put(g, x, y, ToUpper(mark));
    var q1 := q + [(x, y)];
    var s := Placed(g, q, n, x, y, mark);
    PlacePreserves(g, q, n, x, y, mark);
    if (n + 1) % 3 == 0 {
      assert q1[0] == if q == [] then (x, y) else q[0];
      assert s == State(Put(g1, q1[0].0, q1[0].1, Blank), q1[1..], n + 1);
      RemovePreserves(g1, q1, n + 1);
    } else {
      assert s == State(g1, q1, n + 1);
      assert |q1| == (n + 1) - (n + 1) / 3;
    }
  }

  /**
   * Placing a mark on a blank cell of a reachable board: the queue grows by
   * the position, the blank count drops by one, and the invariant holds
   * again up to the queue length, which is one ahead when the move count
   * reaches a multiple of three.
   */
  lemma PlacePreserves(g: Grid<char>, q: seq<Pos>, n: int, x: int, y: int, mark: char)
    requires OnBoard((x, y)) && IsGrid(g, 3, 3) && g[x][y] == Blank && mark != Blank
    ensures var g' := Put(g, x, y, ToUpper(mark));
            var q' := q + [(x, y)];
            Consistent(g, q, n) ==>
              (forall k :: 0 <= k < |q'| ==> OnBoard(q'[k]) && g'[q'[k].0][q'[k].1] != Blank) &&
              (forall k, l :: 0 <= k < l < |q'| ==> q'[k] != q'[l]) &&
              (forall i, j :: 0 <= i < 3 && 0 <= j < 3 && g'[i][j] != Blank ==> (i, j) in q') &&
              |q'| + Count(g', Blank) == 9 &&
              |q'| == (n + 1) - (n + 1) / 3 + (if (n + 1) % 3 == 0 then 1 else 0)
  {
    var g' := Put(g, x, y, ToUpper(mark));
    var q' := q + [(x, y)];
    CountPut(g, x, y, ToUpper(mark), Blank);
    if Consistent(g, q, n) {
      forall i, j | 0 <= i < 3 && 0 <= j < 3 && g'[i][j] != Blank
        ensures (i, j) in q'
      {
        if (i, j) != (x, y) {
          assert (i, j) in q;
        } else {
          assert q'[|q|] == (i, j);
        }
      }
    }
  }

  /** Removing the oldest mark after a third move restores the invariant. */
  lemma RemovePreserves(g: Grid<char>, q: seq<Pos>, n: int)
    requires IsGrid(g, 3, 3) && 0 < n && n % 3 == 0 && q != [] && OnBoard(q[0])
    requires forall k :: 0 <= k < |q| ==> OnBoard(q[k]) && g[q[k].0][q[k].1] != Blank
    requires forall k, l :: 0 <= k < l < |q| ==> q[k] != q[l]
    requires forall i, j :: 0 <= i < 3 && 0 <= j < 3 && g[i][j] != Blank ==> (i, j) in q
    requires |q| + Count(g, Blank) == 9 && |q| == n - n / 3 + 1
    ensures Consistent(Put(g, q[0].0, q[0].1, Blank), q[1..], n)
  {
    var g' := Put(g, q[0].0, q[0].1, Blank);
    var q' := q[1..];
    CountPut(g, q[0].0, q[0].1, Blank, Blank);
    forall k | 0 <= k < |q'|
      ensures OnBoard(q'[k]) && g'[q'[k].0][q'[k].1] != Blank
    {
      assert q'[k] == q[k + 1] != q[0];
    }
    forall i, j | 0 <= i < 3 && 0 <= j < 3 && g'[i][j] != Blank
      ensures (i, j) in q'
    {
      assert (i, j) != q[0];
      var k :| 0 <= k < |q| && q[k] == (i, j);
      assert q'[k - 1] == (i, j);
    }
  }
}
