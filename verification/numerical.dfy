/**
 * Numerical tic-tac-toe: players write numbers on a 3 x 3 board of zeros,
 * each number at most once, and a full line summing to 15 wins.  Player 1
 * owns the odd numbers 1..9, the other player the even ones.
 */
module Numerical {
  import opened Grids

  const Blank: int := 0

  predicate OnBoard(x: int, y: int) {
    0 <= x < 3 && 0 <= y < 3
  }

  /** The three cells of one line are all filled and add up to 15. */
  predicate Fifteen(a: int, b: int, c: int) {
    a != Blank && b != Blank && c != Blank && a + b + c == 15
  }

  /** is_win: some row, column or diagonal is full and sums to 15; whose turn it is plays no part. */
  predicate IsWin(g: Grid<int>)
    requires IsGrid(g, 3, 3)
  {
    (exists i :: 0 <= i < 3 && Fifteen(g[i][0], g[i][1], g[i][2]))
    || (exists j :: 0 <= j < 3 && Fifteen(g[0][j], g[1][j], g[2][j]))
    || Fifteen(g[0][0], g[1][1], g[2][2])
    || Fifteen(g[0][2], g[1][1], g[2][0])
  }

  /** is_draw: the ninth move has been made without a winning line. */
  predicate IsDraw(g: Grid<int>, nMoves: int)
    requires IsGrid(g, 3, 3)
  {
    nMoves == 9 && !IsWin(g)
  }

  predicate GameIsOver(g: Grid<int>, nMoves: int)
    requires IsGrid(g, 3, 3)
  {
    IsWin(g) || IsDraw(g, nMoves)
  }

  /** The eight lines of the board, each as its three cells. */
  const Lines: seq<((int, int), (int, int), (int, int))> :=
    [((0, 0), (0, 1), (0, 2)), ((1, 0), (1, 1), (1, 2)), ((2, 0), (2, 1), (2, 2)),
     ((0, 0), (1, 0), (2, 0)), ((0, 1), (1, 1), (2, 1)), ((0, 2), (1, 2), (2, 2)),
     ((0, 0), (1, 1), (2, 2)), ((0, 2), (1, 1), (2, 0))]

  /** The value at `p`, blank off the board. */
  function Cell(g: Grid<int>, p: (int, int)): int
    requires IsGrid(g, 3, 3)
  {
    if OnBoard(p.0, p.1) then g[p.0][p.1] else Blank
  }

  /** Line `n` of the board is full and sums to 15. */
  predicate LineWins(g: Grid<int>, n: int)
    requires IsGrid(g, 3, 3) && 0 <= n < |Lines|
  {
    Fifteen(Cell(g, Lines[n].0), Cell(g, Lines[n].1), Cell(g, Lines[n].2))
  }

  /** Every winning scan of is_win is one of the eight lines. */
  lemma WinHasLine(g: Grid<int>)
    requires IsGrid(g, 3, 3) && IsWin(g)
    ensures exists n :: 0 <= n < |Lines| && LineWins(g, n)
  {
    if i :| 0 <= i < 3 && Fifteen(g[i][0], g[i][1], g[i][2]) {
      assert LineWins(g, i);
    } else if j :| 0 <= j < 3 && Fifteen(g[0][j], g[1][j], g[2][j]) {
      assert LineWins(g, 3 + j);
    } else if Fifteen(g[0][0], g[1][1], g[2][2]) {
      assert LineWins(g, 6);
    } else {
      assert LineWins(g, 7);
    }
  }

  /** Each of the eight lines is found by one of the scans of is_win. */
  lemma LineIsWin(g: Grid<int>, n: int)
    requires IsGrid(g, 3, 3) && 0 <= n < |Lines| && LineWins(g, n)
    ensures IsWin(g)
  {
    if n < 3 {
      assert Fifteen(g[n][0], g[n][1], g[n][2]);
    } else if n < 6 {
      assert Fifteen(g[0][n - 3], g[1][n - 3], g[2][n - 3]);
    }
  }

  /** The scans of is_win test exactly the eight straight lines of the board. */
  lemma IsWinIffSomeLine(g: Grid<int>)
    requires IsGrid(g, 3, 3)
    ensures IsWin(g) <==> (exists n :: 0 <= n < |Lines| && LineWins(g, n))
  {
    if IsWin(g) {
      WinHasLine(g);
    }
    if n :| 0 <= n < |Lines| && LineWins(g, n) {
      LineIsWin(g, n);
    }
  }

  /** The numbers written on the board. */
  function OnBoardNumbers(g: Grid<int>): (s: set<int>)
    requires IsGrid(g, 3, 3)
    ensures Blank !in s
    ensures forall i, j :: OnBoard(i, j) && g[i][j] != Blank ==> g[i][j] in s
  {
    set i, j | 0 <= i < 3 && 0 <= j < 3 && g[i][j] != Blank :: g[i][j]
  }

  /**
   * The state reachable from the empty board with non-zero numbers: the
   * used set is exactly the numbers on the board, no number is written
   * twice, and every move filled one cell.
   */
  predicate Consistent(g: Grid<int>, used: set<int>, nMoves: int) {
    IsGrid(g, 3, 3) &&
    used == OnBoardNumbers(g) &&
    (forall i, j, k, l ::
       0 <= i < 3 && 0 <= j < 3 && 0 <= k < 3 && 0 <= l < 3 && g[i][j] != Blank && g[i][j] == g[k][l]
       ==> i == k && j == l) &&
    nMoves + Count(g, Blank) == 9
  }

  /** On a reachable board the ninth move leaves no cell blank. */
  lemma NinthMoveFillsBoard(g: Grid<int>, used: set<int>, nMoves: int)
    requires Consistent(g, used, nMoves)
    ensures nMoves == 9 <==> forall i, j :: OnBoard(i, j) ==> g[i][j] != Blank
  {
    CountZero(g, Blank);
  }

  /** Writing an unused non-zero number into a blank cell keeps the board reachable. */
  lemma PlacePreserves(g: Grid<int>, used: set<int>, nMoves: int, x: int, y: int, number: int)
    requires Consistent(g, used, nMoves) && OnBoard(x, y) && g[x][y] == Blank
    requires number !in used && number != Blank
    ensures Consistent(Put(g, x, y, number), used + {number}, nMoves + 1)
  {
    var h := Put(g, x, y, number);
    CountPut(g, x, y, number, Blank);
    assert h[x][y] == number;
    forall v
      ensures v in OnBoardNumbers(h) <==> v in used + {number}
    {
      if v in used {
        var i, j :| OnBoard(i, j) && g[i][j] != Blank && g[i][j] == v;
        assert h[i][j] == v;
      }
    }
  }

  /** Numerical_Board: the matrix, the used numbers and the move counter. */
  class NumericalBoard {
    var board: Grid<int>
    var usedNumbers: set<int>
    var nMoves: int

    ghost predicate Valid()
      reads this
    {
      IsGrid(board, 3, 3)
    }

    constructor ()
      ensures Valid() && board == Uniform(3, 3, Blank) && usedNumbers == {} && nMoves == 0
      ensures Consistent(board, usedNumbers, nMoves)
    {
      board := Uniform(3, 3, Blank);
      usedNumbers := {};
      nMoves := 0;
      new;
      CountAll(board, Blank, 3, 3);
    }

    /**
     * update_board: refuses an off-board cell, a taken cell or a used
     * number; otherwise writes the number, records it as used and counts
     * the move.
     */
    method UpdateBoard(x: int, y: int, number: int) returns (ok: bool)
      requires Valid()
      modifies this
      ensures Valid()
      ensures ok <==> OnBoard(x, y) && old(board)[x][y] == Blank && number !in old(usedNumbers)
      ensures !ok ==> board == old(board) && usedNumbers == old(usedNumbers) && nMoves == old(nMoves)
      ensures ok ==> board == Put(old(board), x, y, number) && usedNumbers == old(usedNumbers) + {number}
                     && nMoves == old(nMoves) + 1
      ensures number != Blank && old(Consistent(board, usedNumbers, nMoves)) ==> Consistent(board, usedNumbers, nMoves)
    {
      if x < 0 || x >= 3 || y < 0 || y >= 3 {
        return false;
      }
      if board[x][y] != Blank {
        return false;
      }
      if number in usedNumbers {
        return false;
      }
      if number != Blank && Consistent(board, usedNumbers, nMoves) {
        PlacePreserves(board, usedNumbers, nMoves, x, y, number);
      }
      board := Put(board, x, y, number);
      usedNumbers := usedNumbers + {number};
      nMoves := nMoves + 1;
      return true;
    }
  }

  /** The numbers a player starts with: the odd ones for player 1, the even ones for anyone else. */
  function StartingNumbers(playerNumber: int): (s: set<int>)
    ensures forall n :: n in s ==> 1 <= n <= 9
    ensures playerNumber == 1 ==> forall n :: n in s <==> 1 <= n <= 9 && n % 2 == 1
    ensures playerNumber != 1 ==> forall n :: n in s <==> 1 <= n <= 9 && n % 2 == 0
  {
    if playerNumber == 1 then {1, 3, 5, 7, 9} else {2, 4, 6, 8}
  }

  /** The two players' numbers never overlap and together are 1..9. */
  lemma NumbersPartition(other: int)
    requires other != 1
    ensures StartingNumbers(1) * StartingNumbers(other) == {}
    ensures forall n :: 1 <= n <= 9 <==> n in StartingNumbers(1) + StartingNumbers(other)
  {
  }

  /** Numerical_Player: the numbers still available to one player. */
  class NumericalPlayer {
    var availableNumbers: set<int>

    constructor (playerNumber: int)
      ensures availableNumbers == StartingNumbers(playerNumber)
    {
      if playerNumber == 1 {
        availableNumbers := {1, 3, 5, 7, 9};
      } else {
        availableNumbers := {2, 4, 6, 8};
      }
    }

    /** use_number: removes exactly that number, if present. */
    method UseNumber(number: int)
      modifies this
      ensures availableNumbers == old(availableNumbers) - {number}
    {
      availableNumbers := availableNumbers - {number};
    }
  }
}
