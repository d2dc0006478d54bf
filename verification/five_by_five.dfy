/**
 * 5 x 5 tic-tac-toe: the game stops after 24 moves and the player with
 * more three-in-a-row windows (overlapping windows count separately) wins.
 */
module FiveByFive {
  import opened Grids

  const Blank: char := ' '
  const Size: int := 5

  /** Row and column of the first cell of the window the scan in direction `d` visits at loop indices (i, j). */
  function StartRow(d: Dir, i: int): int {
    if d == NorthEast then i + 2 else i
  }

  function StartCol(d: Dir, j: int): int {
    if d == NorthEast then j - 2 else j
  }

  /**
   * The window visited at loop indices (i, j) holds `s` three times.  The
   * anti-diagonal scan reads (i, j), (i+1, j-1), (i+2, j-2), which is the
   * north-east line from (i+2, j-2).
   */
  predicate Win(g: Grid<char>, s: char, d: Dir, i: int, j: int) {
    var r, c := StartRow(d, i), StartCol(d, j);
    CellIs(g, r, c, d, 0, s) && CellIs(g, r, c, d, 1, s) && CellIs(g, r, c, d, 2, s)
  }

  /** Windows found in row `i` of a scan, for loop columns jLo..j-1. */
  function RowHits(g: Grid<char>, s: char, d: Dir, i: int, jLo: int, j: int): (n: nat)
    decreases j - jLo
    ensures n <= if j < jLo then 0 else j - jLo
  {
    if j <= jLo then 0 else RowHits(g, s, d, i, jLo, j - 1) + (if Win(g, s, d, i, j - 1) then 1 else 0)
  }

  /** Windows found in loop rows 0..i-1 of a scan over loop columns jLo..jHi-1. */
  function BlockHits(g: Grid<char>, s: char, d: Dir, i: int, jLo: int, jHi: int): (n: nat)
    requires jLo <= jHi
    decreases i
  {
    if i <= 0 then 0 else BlockHits(g, s, d, i - 1, jLo, jHi) + RowHits(g, s, d, i - 1, jLo, jHi)
  }

  /** The four scans of count_three_in_row: rows 0..4 x columns 0..2, rows 0..2 x columns 0..4, 0..2 x 0..2, and 0..2 x 2..4. */
  function ThreeCount(g: Grid<char>, s: char): nat {
    BlockHits(g, s, East, 5, 0, 3) + BlockHits(g, s, South, 3, 0, 5)
    + BlockHits(g, s, SouthEast, 3, 0, 3) + BlockHits(g, s, NorthEast, 3, 2, 5)
  }

  lemma {:induction false} BlockHitsBound(g: Grid<char>, s: char, d: Dir, i: nat, jLo: int, jHi: int)
    requires jLo <= jHi
    ensures BlockHits(g, s, d, i, jLo, jHi) <= i * (jHi - jLo)
  {
    if i > 0 {
      var w: nat := jHi - jLo;
      BlockHitsBound(g, s, d, i - 1, jLo, jHi);
      assert BlockHits(g, s, d, i, jLo, jHi) == BlockHits(g, s, d, i - 1, jLo, jHi) + RowHits(g, s, d, i - 1, jLo, jHi);
      assert RowHits(g, s, d, i - 1, jLo, jHi) <= w;
      MulSucc(i - 1, w);
    }
  }

  /** There are 48 windows, so the count lies in 0..48. */
  lemma ThreeCountRange(g: Grid<char>, s: char)
    ensures 0 <= ThreeCount(g, s) <= 48
  {
    BlockHitsBound(g, s, East, 5, 0, 3);
    BlockHitsBound(g, s, South, 3, 0, 5);
    BlockHitsBound(g, s, SouthEast, 3, 0, 3);
    BlockHitsBound(g, s, NorthEast, 3, 2, 5);
  }

  // ---------------------------------------------------------------- count versus lines

  lemma {:induction false} RowHitsPositive(g: Grid<char>, s: char, d: Dir, i: int, jLo: int, j: int)
    ensures RowHits(g, s, d, i, jLo, j) > 0 <==> exists k :: jLo <= k < j && Win(g, s, d, i, k)
    decreases j - jLo
  {
    if j > jLo {
      RowHitsPositive(g, s, d, i, jLo, j - 1);
    }
  }

  lemma {:induction false} BlockHitsPositive(g: Grid<char>, s: char, d: Dir, i: int, jLo: int, jHi: int)
    requires jLo <= jHi
    ensures BlockHits(g, s, d, i, jLo, jHi) > 0 <==> exists r, k :: 0 <= r < i && jLo <= k < jHi && Win(g, s, d, r, k)
    decreases i
  {
    if i > 0 {
      BlockHitsPositive(g, s, d, i - 1, jLo, jHi);
      RowHitsPositive(g, s, d, i - 1, jLo, jHi);
    }
  }

  /** A window found by a scan is a straight line of three. */
  lemma WinIsRun(g: Grid<char>, s: char, d: Dir, i: int, j: int)
    requires Win(g, s, d, i, j)
    ensures Run(g, StartRow(d, i), StartCol(d, j), d, 3, s)
  {
    Run3(g, StartRow(d, i), StartCol(d, j), d, s);
  }

  /** Every line of three on a 5 x 5 board is visited by the scan of its direction. */
  lemma RunIsScanned(g: Grid<char>, s: char, r: int, c: int, d: Dir)
    requires IsGrid(g, Size, Size) && Run(g, r, c, d, 3, s)
    ensures ThreeCount(g, s) > 0
  {
    assert CellIs(g, r, c, d, 0, s) && CellIs(g, r, c, d, 1, s) && CellIs(g, r, c, d, 2, s);
    match d
    case East =>
      assert Win(g, s, East, r, c);
      BlockHitsPositive(g, s, East, 5, 0, 3);
    case South =>
      assert Win(g, s, South, r, c);
      BlockHitsPositive(g, s, South, 3, 0, 5);
    case SouthEast =>
      assert Win(g, s, SouthEast, r, c);
      BlockHitsPositive(g, s, SouthEast, 3, 0, 3);
    case NorthEast =>
      assert Win(g, s, NorthEast, r - 2, c + 2);
      BlockHitsPositive(g, s, NorthEast, 3, 2, 5);
  }

  /** The count is positive exactly when the board holds three of `s` in a straight line. */
  lemma ThreeCountPositiveIffRun(g: Grid<char>, s: char)
    requires IsGrid(g, Size, Size)
    ensures ThreeCount(g, s) > 0 <==> HasRun(g, 3, s)
  {
    if ThreeCount(g, s) > 0 {
      if BlockHits(g, s, East, 5, 0, 3) > 0 {
        BlockHitsPositive(g, s, East, 5, 0, 3);
        var r, k :| 0 <= r < 5 && 0 <= k < 3 && Win(g, s, East, r, k);
        WinIsRun(g, s, East, r, k);
      } else if BlockHits(g, s, South, 3, 0, 5) > 0 {
        BlockHitsPositive(g, s, South, 3, 0, 5);
        var r, k :| 0 <= r < 3 && 0 <= k < 5 && Win(g, s, South, r, k);
        WinIsRun(g, s, South, r, k);
      } else if BlockHits(g, s, SouthEast, 3, 0, 3) > 0 {
        BlockHitsPositive(g, s, SouthEast, 3, 0, 3);
        var r, k :| 0 <= r < 3 && 0 <= k < 3 && Win(g, s, SouthEast, r, k);
        WinIsRun(g, s, SouthEast, r, k);
      } else {
        BlockHitsPositive(g, s, NorthEast, 3, 2, 5);
        var r, k :| 0 <= r < 3 && 2 <= k < 5 && Win(g, s, NorthEast, r, k);
        WinIsRun(g, s, NorthEast, r, k);
      }
    }
    if HasRun(g, 3, s) {
      var r, c, d :| Run(g, r, c, d, 3, s);
      RunIsScanned(g, s, r, c, d);
    }
  }

  // ---------------------------------------------------------------- status

  /** is_win: from move 24 on, more windows than the opponent (X against O, anything else against X). */
  predicate IsWin(g: Grid<char>, nMoves: int, sym: char) {
    nMoves >= 24 && ThreeCount(g, sym) > ThreeCount(g, Opponent(sym))
  }

  /** is_draw: from move 24 on, as many windows as the opponent. */
  predicate IsDraw(g: Grid<char>, nMoves: int, sym: char) {
    nMoves >= 24 && ThreeCount(g, sym) == ThreeCount(g, Opponent(sym))
  }

  predicate GameIsOver(nMoves: int) {
    nMoves >= 24
  }

  /** Once the game is over exactly one of: X wins, O wins, draw (the same from either side); before, none. */
  lemma ExactlyOneOutcome(g: Grid<char>, nMoves: int)
    ensures GameIsOver(nMoves) ==> IsWin(g, nMoves, 'X') || IsWin(g, nMoves, 'O') || IsDraw(g, nMoves, 'X')
    ensures !(IsWin(g, nMoves, 'X') && IsWin(g, nMoves, 'O'))
    ensures !(IsDraw(g, nMoves, 'X') && (IsWin(g, nMoves, 'X') || IsWin(g, nMoves, 'O')))
    ensures IsDraw(g, nMoves, 'X') == IsDraw(g, nMoves, 'O')
    ensures !GameIsOver(nMoves) ==> !IsWin(g, nMoves, 'X') && !IsWin(g, nMoves, 'O') && !IsDraw(g, nMoves, 'X')
  {
  }

  /** One move per filled cell. */
  predicate Consistent(g: Grid<char>, nMoves: int) {
    IsGrid(g, Size, Size) && nMoves + Count(g, Blank) == 25
  }

  /** On a consistent board the game ends with exactly one blank cell left. */
  lemma OverLeavesOneBlank(g: Grid<char>, nMoves: int)
    requires Consistent(g, nMoves) && nMoves <= 24
    ensures GameIsOver(nMoves) <==> Count(g, Blank) == 1
  {
  }

  /** XO_5x5_Board: the matrix and the move counter. */
  class Board5x5 {
    var board: Grid<char>
    var nMoves: int

    ghost predicate Valid()
      reads this
    {
      IsGrid(board, Size, Size)
    }

    constructor ()
      ensures Valid() && board == Uniform(Size, Size, Blank) && nMoves == 0
      ensures Consistent(board, nMoves)
    {
      board := Uniform(Size, Size, Blank);
      nMoves := 0;
      new;
      CountAll(board, Blank, Size, Size);
    }

    /** update_board: refuses an off-board or taken cell; otherwise writes the symbol and counts the move. */
    method UpdateBoard(x: int, y: int, symbol: char) returns (ok: bool)
      requires Valid()
      modifies this
      ensures Valid()
      ensures ok <==> 0 <= x < Size && 0 <= y < Size && old(board)[x][y] == Blank
      ensures !ok ==> board == old(board) && nMoves == old(nMoves)
      ensures ok ==> board == Put(old(board), x, y, symbol) && nMoves == old(nMoves) + 1
      ensures symbol != Blank && old(Consistent(board, nMoves)) ==> Consistent(board, nMoves)
    {
      if x < 0 || x >= Size || y < 0 || y >= Size {
        return false;
      }
      if board[x][y] != Blank {
        return false;
      }
      CountPut(board, x, y, symbol, Blank);
      board := Put(board, x, y, symbol);
      nMoves := nMoves + 1;
      return true;
    }

    /** The test of one window, as each scan of count_three_in_row writes it. */
    method WindowAt(symbol: char, d: Dir, i: int, j: int) returns (hit: bool)
      requires Valid()
      requires d == East ==> 0 <= i < 5 && 0 <= j < 3
      requires d == South ==> 0 <= i < 3 && 0 <= j < 5
      requires d == SouthEast ==> 0 <= i < 3 && 0 <= j < 3
      requires d == NorthEast ==> 0 <= i < 3 && 2 <= j < 5
      ensures hit == Win(board, symbol, d, i, j)
    {
      match d
      case East =>
        hit := board[i][j] == symbol && board[i][j + 1] == symbol && board[i][j + 2] == symbol;
      case South =>
        hit := board[i][j] == symbol && board[i + 1][j] == symbol && board[i + 2][j] == symbol;
      case SouthEast =>
        hit := board[i][j] == symbol && board[i + 1][j + 1] == symbol && board[i + 2][j + 2] == symbol;
      case NorthEast =>
        hit := board[i][j] == symbol && board[i + 1][j - 1] == symbol && board[i + 2][j - 2] == symbol;
    }

    /** One scan of count_three_in_row: loop rows 0..iMax-1, loop columns jLo..jHi-1, counting hits. */
    method CountBlock(symbol: char, d: Dir, iMax: int, jLo: int, jHi: int) returns (count: int)
      requires Valid()
      requires d == East ==> iMax == 5 && jLo == 0 && jHi == 3
      requires d == South ==> iMax == 3 && jLo == 0 && jHi == 5
      requires d == SouthEast ==> iMax == 3 && jLo == 0 && jHi == 3
      requires d == NorthEast ==> iMax == 3 && jLo == 2 && jHi == 5
      ensures count == BlockHits(board, symbol, d, iMax, jLo, jHi)
    {
      count := 0;
      var i := 0;
      while i < iMax
        invariant 0 <= i <= iMax
        invariant count == BlockHits(board, symbol, d, i, jLo, jHi)
      {
        var j := jLo;
        while j < jHi
          invariant jLo <= j <= jHi
          invariant count == BlockHits(board, symbol, d, i, jLo, jHi) + RowHits(board, symbol, d, i, jLo, j)
        {
          var hit := WindowAt(symbol, d, i, j);
          if hit {
            count := count + 1;
          }
          j := j + 1;
        }
        i := i + 1;
      }
    }

    /** count_three_in_row: the windows of three `symbol` cells in all four scans. */
    method CountThreeInRow(symbol: char) returns (count: int)
      requires Valid()
      ensures count == ThreeCount(board, symbol)
      ensures 0 <= count <= 48
    {
      var horizontal := CountBlock(symbol, East, 5, 0, 3);
      var vertical := CountBlock(symbol, South, 3, 0, 5);
      var diagonal := CountBlock(symbol, SouthEast, 3, 0, 3);
      var anti := CountBlock(symbol, NorthEast, 3, 2, 5);
      count := horizontal + vertical + diagonal + anti;
      ThreeCountRange(board, symbol);
    }
  }
}
