/**
 * The sliding-move helpers shared by the 4 x 4 board and the misère 3 x 3
 * board: a move slides one of the player's marks to an orthogonally
 * adjacent blank cell.  Both boards are square, `n` x `n`, with their own
 * blank symbol.
 */
module Adjacency {
  import opened Grids

  /** A candidate move: the target cell and the mover's symbol. */
  datatype Move = Move(x: int, y: int, symbol: char)

  function Abs(v: int): nat {
    if v < 0 then -v else v
  }

  predicate InSquare(n: int, x: int, y: int) {
    0 <= x < n && 0 <= y < n
  }

  /**
   * is_valid_adjacent_move: both cells on the board, the source taken, the
   * target blank, and the two cells one step apart horizontally or vertically.
   */
  predicate IsValidAdjacentMove(g: Grid<char>, n: nat, blank: char, fromX: int, fromY: int, toX: int, toY: int)
    requires IsGrid(g, n, n)
  {
    if !InSquare(n, fromX, fromY) || !InSquare(n, toX, toY) then false
    else if g[fromX][fromY] == blank || g[toX][toY] != blank then false
    else
      var dx := Abs(fromX - toX);
      var dy := Abs(fromY - toY);
      (dx == 1 && dy == 0) || (dx == 0 && dy == 1)
  }

  /** The four neighbours in the order get_possible_moves tries them: right, down, left, up. */
  const Steps: seq<(int, int)> := [(0, 1), (1, 0), (0, -1), (-1, 0)]

  /** The moves to blank neighbours of (i, j) among the first `k` steps. */
  function Targets(g: Grid<char>, n: nat, blank: char, sym: char, i: int, j: int, k: nat): seq<Move>
    requires IsGrid(g, n, n) && k <= |Steps|
  {
    if k == 0 then []
    else
      var ni := i + Steps[k - 1].0;
      var nj := j + Steps[k - 1].1;
      Targets(g, n, blank, sym, i, j, k - 1) +
      (if InSquare(n, ni, nj) && g[ni][nj] == blank then [Move(ni, nj, sym)] else [])
  }

  /** The moves of the cells (i, 0) .. (i, j-1) that hold the symbol. */
  function RowMoves(g: Grid<char>, n: nat, blank: char, sym: char, i: int, j: nat): seq<Move>
    requires IsGrid(g, n, n) && 0 <= i < n && j <= n
  {
    if j == 0 then []
    else RowMoves(g, n, blank, sym, i, j - 1) +
         (if g[i][j - 1] == sym then Targets(g, n, blank, sym, i, j - 1, |Steps|) else [])
  }

  /** The parts joined in order. */
  function Flatten(parts: seq<seq<Move>>): seq<Move> {
    if parts == [] then [] else Flatten(parts[..|parts| - 1]) + parts[|parts| - 1]
  }

  lemma {:induction false} FlattenSpec(parts: seq<seq<Move>>, m: Move)
    ensures m in Flatten(parts) <==> exists r :: 0 <= r < |parts| && m in parts[r]
  {
    if parts != [] {
      var init := parts[..|parts| - 1];
      FlattenSpec(init, m);
      if exists r :: 0 <= r < |parts| && m in parts[r] {
        var r :| 0 <= r < |parts| && m in parts[r];
        if r < |parts| - 1 {
          assert m in init[r];
        }
      }
    }
  }

  /** The moves of each of the rows 0 .. i-1. */
  function Rows(g: Grid<char>, n: nat, blank: char, sym: char, i: nat): (rows: seq<seq<Move>>)
    requires IsGrid(g, n, n) && i <= n
    ensures |rows| == i && forall r :: 0 <= r < i ==> rows[r] == RowMoves(g, n, blank, sym, r, n)
  {
    seq(i, r requires 0 <= r < i => RowMoves(g, n, blank, sym, r, n))
  }

  /** The moves of rows 0 .. i-1, in row-major order. */
  function PossibleMoves(g: Grid<char>, n: nat, blank: char, sym: char, i: nat): seq<Move>
    requires IsGrid(g, n, n) && i <= n
  {
    Flatten(Rows(g, n, blank, sym, i))
  }

  /** One more row appends that row's moves. */
  lemma PossibleMovesNext(g: Grid<char>, n: nat, blank: char, sym: char, i: nat)
    requires IsGrid(g, n, n) && i < n
    ensures PossibleMoves(g, n, blank, sym, i + 1) == PossibleMoves(g, n, blank, sym, i) + RowMoves(g, n, blank, sym, i, n)
  {
    var rows := Rows(g, n, blank, sym, i + 1);
    assert rows[..i] == Rows(g, n, blank, sym, i);
  }

  /** `t` is one step right, down, left or up from `(i, j)`. */
  predicate Neighbour(i: int, j: int, x: int, y: int) {
    (x == i && (y == j + 1 || y == j - 1)) || (y == j && (x == i + 1 || x == i - 1))
  }

  /** A target of (i, j) is exactly a blank in-range neighbour among the steps tried. */
  lemma {:induction false} TargetsSpec(g: Grid<char>, n: nat, blank: char, sym: char, i: int, j: int, k: nat, m: Move)
    requires IsGrid(g, n, n) && k <= |Steps|
    ensures m in Targets(g, n, blank, sym, i, j, k) <==>
              m.symbol == sym && InSquare(n, m.x, m.y) && g[m.x][m.y] == blank &&
              exists s :: 0 <= s < k && m.x == i + Steps[s].0 && m.y == j + Steps[s].1
  {
    if k > 0 {
      TargetsSpec(g, n, blank, sym, i, j, k - 1, m);
      if m.symbol == sym && InSquare(n, m.x, m.y) && g[m.x][m.y] == blank &&
         m.x == i + Steps[k - 1].0 && m.y == j + Steps[k - 1].1 {
        assert m in Targets(g, n, blank, sym, i, j, k);
      }
    }
  }

  /** The cells (i, j') with j' < j that hold `sym` and have `m` as a target. */
  lemma {:induction false} RowMovesSpec(g: Grid<char>, n: nat, blank: char, sym: char, i: int, j: nat, m: Move)
    requires IsGrid(g, n, n) && 0 <= i < n && j <= n
    ensures m in RowMoves(g, n, blank, sym, i, j) <==>
              exists c :: 0 <= c < j && g[i][c] == sym && m in Targets(g, n, blank, sym, i, c, |Steps|)
  {
    if j > 0 {
      RowMovesSpec(g, n, blank, sym, i, j - 1, m);
    }
  }

  /** The rows r < i whose moves include `m`. */
  lemma PossibleMovesSpec(g: Grid<char>, n: nat, blank: char, sym: char, i: nat, m: Move)
    requires IsGrid(g, n, n) && i <= n
    ensures m in PossibleMoves(g, n, blank, sym, i) <==> exists r :: 0 <= r < i && m in RowMoves(g, n, blank, sym, r, n)
  {
    var rows := Rows(g, n, blank, sym, i);
    FlattenSpec(rows, m);
    if m in PossibleMoves(g, n, blank, sym, i) {
      var r :| 0 <= r < |rows| && m in rows[r];
      assert m in RowMoves(g, n, blank, sym, r, n);
    }
    if exists r :: 0 <= r < i && m in RowMoves(g, n, blank, sym, r, n) {
      var r :| 0 <= r < i && m in RowMoves(g, n, blank, sym, r, n);
      assert m in rows[r];
    }
  }

  /** The four steps are exactly the orthogonal neighbours. */
  lemma StepsAreNeighbours(i: int, j: int, x: int, y: int)
    ensures Neighbour(i, j, x, y) <==> exists s :: 0 <= s < |Steps| && x == i + Steps[s].0 && y == j + Steps[s].1
  {
    if Neighbour(i, j, x, y) {
      if x == i && y == j + 1 { assert x == i + Steps[0].0 && y == j + Steps[0].1; }
      else if x == i + 1 && y == j { assert x == i + Steps[1].0 && y == j + Steps[1].1; }
      else if x == i && y == j - 1 { assert x == i + Steps[2].0 && y == j + Steps[2].1; }
      else { assert x == i + Steps[3].0 && y == j + Steps[3].1; }
    }
  }

  /** The adjacency test is the blank in-range neighbour test from a taken cell. */
  lemma AdjacentIffNeighbour(g: Grid<char>, n: nat, blank: char, fromX: int, fromY: int, toX: int, toY: int)
    requires IsGrid(g, n, n)
    ensures IsValidAdjacentMove(g, n, blank, fromX, fromY, toX, toY) <==>
              InSquare(n, fromX, fromY) && InSquare(n, toX, toY) &&
              g[fromX][fromY] != blank && g[toX][toY] == blank && Neighbour(fromX, fromY, toX, toY)
  {
  }

  /**
   * The generated moves are exactly the valid adjacent moves of the
   * player's marks: a move is listed iff its target is a blank neighbour of
   * some cell holding the player's (non-blank) symbol.
   */
  lemma PossibleMovesAreAdjacent(g: Grid<char>, n: nat, blank: char, sym: char, m: Move)
    requires IsGrid(g, n, n) && sym != blank
    ensures m in PossibleMoves(g, n, blank, sym, n) <==>
              m.symbol == sym &&
              exists r, c :: 0 <= r < n && 0 <= c < n && g[r][c] == sym &&
                             IsValidAdjacentMove(g, n, blank, r, c, m.x, m.y)
  {
    PossibleMovesSpec(g, n, blank, sym, n, m);
    if m in PossibleMoves(g, n, blank, sym, n) {
      var r :| 0 <= r < n && m in RowMoves(g, n, blank, sym, r, n);
      RowMovesSpec(g, n, blank, sym, r, n, m);
      var c :| 0 <= c < n && g[r][c] == sym && m in Targets(g, n, blank, sym, r, c, |Steps|);
      TargetsSpec(g, n, blank, sym, r, c, |Steps|, m);
      StepsAreNeighbours(r, c, m.x, m.y);
      AdjacentIffNeighbour(g, n, blank, r, c, m.x, m.y);
    }
    if m.symbol == sym && exists r, c :: 0 <= r < n && 0 <= c < n && g[r][c] == sym &&
                                         IsValidAdjacentMove(g, n, blank, r, c, m.x, m.y) {
      var r, c :| 0 <= r < n && 0 <= c < n && g[r][c] == sym && IsValidAdjacentMove(g, n, blank, r, c, m.x, m.y);
      AdjacentIffNeighbour(g, n, blank, r, c, m.x, m.y);
      StepsAreNeighbours(r, c, m.x, m.y);
      TargetsSpec(g, n, blank, sym, r, c, |Steps|, m);
      RowMovesSpec(g, n, blank, sym, r, n, m);
    }
  }

  /**
   * get_possible_moves: for every cell holding the symbol, in row-major
   * order, lists the blank in-range neighbours right, down, left and up
   * (a target reachable from two marks is listed twice).
   */
  method GetPossibleMoves(g: Grid<char>, n: nat, blank: char, symbol: char) returns (moves: seq<Move>)
    requires IsGrid(g, n, n)
    ensures moves == PossibleMoves(g, n, blank, symbol, n)
  {
    moves := [];
    var i := 0;
    while i < n
      invariant 0 <= i <= n
      invariant moves == PossibleMoves(g, n, blank, symbol, i)
    {
      var row := [];
      var j := 0;
      while j < n
        invariant 0 <= j <= n
        invariant row == RowMoves(g, n, blank, symbol, i, j)
      {
        if g[i][j] == symbol {
          var found := NeighbourTargets(g, n, blank, symbol, i, j);
          row := row + found;
        }
        j := j + 1;
      }
      PossibleMovesNext(g, n, blank, symbol, i);
      moves := moves + row;
      i := i + 1;
    }
  }

  /** The inner loop over the four steps from one cell holding the symbol. */
  method NeighbourTargets(g: Grid<char>, n: nat, blank: char, symbol: char, i: int, j: int) returns (found: seq<Move>)
    requires IsGrid(g, n, n)
    ensures found == Targets(g, n, blank, symbol, i, j, |Steps|)
  {
    found := [];
    var k := 0;
    while k < |Steps|
      invariant 0 <= k <= |Steps|
      invariant found == Targets(g, n, blank, symbol, i, j, k)
    {
      var ni := i + Steps[k].0;
      var nj := j + Steps[k].1;
      if ni >= 0 && ni < n && nj >= 0 && nj < n && g[ni][nj] == blank {
        found := found + [Move(ni, nj, symbol)];
      }
      k := k + 1;
    }
  }
}
