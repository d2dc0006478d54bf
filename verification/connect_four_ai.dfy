/**
 * The computer player of Four-in-a-Row: a windowed static evaluator, a
 * depth-limited minimax search with alpha-beta pruning that works on a
 * scratch copy of the board (placing a piece, recursing, and taking it back),
 * and the top-level column chooser.
 *
 * The player's own check_four_in_row scans the board exactly as the board
 * does, so it is `ConnectFour.CheckFourInRow` here.  `GameTree` is the tree
 * the search unfolds from a position; the `Minimax` method computes
 * `AlphaBeta` of that tree, and `BestColumn` is proved to pick the first
 * column of greatest plain minimax `Value`.
 */
module ConnectFourAI {
  import opened Grids
  import opened ConnectFour
  import opened GameSearch

  /** Search depth limit of the player. */
  const MaxDepth: int := 6

  // ---------------------------------------------------------------- windows

  /** A window of four cells: a start cell and a direction. */
  datatype Window = Window(row: int, col: int, dir: Dir)

  /** Both ends, hence all four cells, of `w` lie on the 6 x 7 board. */
  predicate OnBoard(w: Window) {
    0 <= w.row < 6 && 0 <= w.col < 7 && 0 <= RowAt(w.row, w.dir, 3) < 6 && 0 <= ColAt(w.col, w.dir, 3) < 7
  }

  /**
   * The scratch matrix `a` holds the board `g`: the search and the chooser
   * state what they compute in terms of `g` and keep `a` in step with it.
   */
  ghost predicate Mirrors(a: array2<char>, g: Grid<char>)
    reads a
  {
    a.Length0 == 6 && a.Length1 == 7 && IsBoard(g) &&
    forall i, j :: 0 <= i < 6 && 0 <= j < 7 ==> a[i, j] == g[i][j]
  }

  /** The four cells of `w`, in the order the evaluator visits them. */
  function Cells(g: Grid<char>, w: Window): (s: seq<char>)
    requires IsBoard(g) && OnBoard(w)
    ensures |s| == 4
  {
    [g[RowAt(w.row, w.dir, 0)][ColAt(w.col, w.dir, 0)], g[RowAt(w.row, w.dir, 1)][ColAt(w.col, w.dir, 1)],
     g[RowAt(w.row, w.dir, 2)][ColAt(w.col, w.dir, 2)], g[RowAt(w.row, w.dir, 3)][ColAt(w.col, w.dir, 3)]]
  }

  predicate Filled(g: Grid<char>, w: Window, s: char) {
    Run(g, w.row, w.col, w.dir, 4, s)
  }

  // ---------------------------------------------------------------- evaluation

  /** Per-window counters: cells holding the AI mark, the opponent mark, anything else. */
  datatype Counts = Counts(ai: nat, opp: nat, empty: nat)

  /** The counters of the cells `s`, each classified as the evaluator does. */
  function TallyOf(s: seq<char>, ai: char, opp: char): (t: Counts)
    ensures t.ai + t.opp + t.empty == |s|
  {
    if s == [] then Counts(0, 0, 0)
    else
      var t := TallyOf(s[..|s| - 1], ai, opp);
      var x := s[|s| - 1];
      if x == ai then t.(ai := t.ai + 1)
      else if x == opp then t.(opp := t.opp + 1)
      else t.(empty := t.empty + 1)
  }

  /** evaluate_window: the score of one window's counters, first matching rule wins. */
  function WindowScore(aiCount: int, oppCount: int, empty: int): (r: int)
    ensures -10000 <= r <= 10000
    ensures r == 10000 <==> aiCount == 4
    ensures r == -10000 <==> aiCount != 4 && oppCount == 4
  {
    if aiCount == 4 then 10000
    else if oppCount == 4 then -10000
    else if aiCount == 3 && empty == 1 then 500
    else if aiCount == 2 && empty == 2 then 50
    else if oppCount == 3 && empty == 1 then -400
    else if oppCount == 2 && empty == 2 then -40
    else 0
  }

  /**
   * For the counters of a real window, a window scores for a side exactly
   * when that side holds at least two of its cells and the other side none.
   */
  lemma WindowScoreSign(a: nat, o: nat, e: nat)
    requires a + o + e == 4
    ensures WindowScore(a, o, e) > 0 <==> a >= 2 && o == 0
    ensures WindowScore(a, o, e) < 0 <==> o >= 2 && a == 0
  {
  }

  function WindowValue(g: Grid<char>, w: Window, ai: char, opp: char): int
    requires IsBoard(g) && OnBoard(w)
  {
    var t := TallyOf(Cells(g, w), ai, opp);
    WindowScore(t.ai, t.opp, t.empty)
  }

  /** First row, and number of rows, in which the evaluator starts windows of direction `d`. */
  function FirstRow(d: Dir): int {
    if d == NorthEast then 3 else 0
  }

  function RowCount(d: Dir): int {
    match d
    case East => 6
    case South => 0
    case NorthEast => 3
    case SouthEast => 3
  }

  /** Scores of the windows of direction `d` starting at (row, 0) .. (row, n - 1). */
  function RowSum(g: Grid<char>, row: int, d: Dir, n: int, ai: char, opp: char): int
    requires IsBoard(g) && FirstRow(d) <= row < FirstRow(d) + RowCount(d) && 0 <= n <= 4
  {
    if n == 0 then 0 else RowSum(g, row, d, n - 1, ai, opp) + WindowValue(g, Window(row, n - 1, d), ai, opp)
  }

  /** Scores of the first `n` rows of windows of direction `d`, four windows per row. */
  function BandSum(g: Grid<char>, d: Dir, n: int, ai: char, opp: char): int
    requires IsBoard(g) && 0 <= n <= RowCount(d)
  {
    if n == 0 then 0 else BandSum(g, d, n - 1, ai, opp) + RowSum(g, FirstRow(d) + n - 1, d, 4, ai, opp)
  }

  /** Scores of the vertical windows of column `col` starting in rows 0 .. n - 1. */
  function ColumnSum(g: Grid<char>, col: int, n: int, ai: char, opp: char): int
    requires IsBoard(g) && 0 <= col < 7 && 0 <= n <= 3
  {
    if n == 0 then 0 else ColumnSum(g, col, n - 1, ai, opp) + WindowValue(g, Window(n - 1, col, South), ai, opp)
  }

  /** Scores of the vertical windows of the first `n` columns. */
  function VerticalSum(g: Grid<char>, n: int, ai: char, opp: char): int
    requires IsBoard(g) && 0 <= n <= 7
  {
    if n == 0 then 0 else VerticalSum(g, n - 1, ai, opp) + ColumnSum(g, n - 1, 3, ai, opp)
  }

  /** Number of the first `n` rows whose centre-column cell holds `ai`. */
  function CentreCount(g: Grid<char>, n: int, ai: char): int
    requires IsBoard(g) && 0 <= n <= 6
  {
    if n == 0 then 0 else CentreCount(g, n - 1, ai) + (if g[n - 1][3] == ai then 1 else 0)
  }

  /** The static evaluation computed by evaluate_position. */
  function Evaluation(g: Grid<char>, ai: char, opp: char): int
    requires IsBoard(g)
  {
    if CheckFourInRow(g, ai) then 100000
    else if CheckFourInRow(g, opp) then -100000
    else BandSum(g, East, 6, ai, opp) + VerticalSum(g, 7, ai, opp) + BandSum(g, NorthEast, 3, ai, opp)
         + BandSum(g, SouthEast, 3, ai, opp) + 5 * CentreCount(g, 6, ai)
  }

  /** A side counted in every cell holds every cell. */
  lemma {:induction false} TallyAll(s: seq<char>, ai: char, opp: char)
    ensures TallyOf(s, ai, opp).ai == |s| ==> forall i :: 0 <= i < |s| ==> s[i] == ai
    ensures TallyOf(s, ai, opp).opp == |s| ==> forall i :: 0 <= i < |s| ==> s[i] == opp
  {
    if s != [] {
      TallyAll(s[..|s| - 1], ai, opp);
    }
  }

  /** A window of four equal counters is a filled window. */
  lemma FilledFromTally(g: Grid<char>, w: Window, ai: char, opp: char)
    requires IsBoard(g) && OnBoard(w)
    ensures TallyOf(Cells(g, w), ai, opp).ai == 4 ==> Filled(g, w, ai)
    ensures TallyOf(Cells(g, w), ai, opp).opp == 4 ==> Filled(g, w, opp)
  {
    var s := Cells(g, w);
    TallyAll(s, ai, opp);
    var t := TallyOf(s, ai, opp);
    if t.ai == 4 {
      forall i | 0 <= i < 4 ensures CellIs(g, w.row, w.col, w.dir, i, ai) {
        assert s[i] == ai;
      }
    }
    if t.opp == 4 {
      forall i | 0 <= i < 4 ensures CellIs(g, w.row, w.col, w.dir, i, opp) {
        assert s[i] == opp;
      }
    }
  }

  /** Without four in a row on the board no window reaches the +-10000 rules. */
  lemma NonTerminalWindow(g: Grid<char>, w: Window, ai: char, opp: char)
    requires IsBoard(g) && OnBoard(w) && !CheckFourInRow(g, ai) && !CheckFourInRow(g, opp)
    ensures -400 <= WindowValue(g, w, ai, opp) <= 500
  {
    FilledFromTally(g, w, ai, opp);
    CheckFourInRowIsRun(g, ai);
    CheckFourInRowIsRun(g, opp);
    var t := TallyOf(Cells(g, w), ai, opp);
    assert t.ai == 4 ==> Filled(g, w, ai);
    assert t.opp == 4 ==> Filled(g, w, opp);
  }

  lemma {:induction false} RowSumRange(g: Grid<char>, row: int, d: Dir, n: int, ai: char, opp: char)
    requires IsBoard(g) && FirstRow(d) <= row < FirstRow(d) + RowCount(d) && 0 <= n <= 4
    requires !CheckFourInRow(g, ai) && !CheckFourInRow(g, opp)
    ensures -400 * n <= RowSum(g, row, d, n, ai, opp) <= 500 * n
  {
    if n > 0 {
      RowSumRange(g, row, d, n - 1, ai, opp);
      NonTerminalWindow(g, Window(row, n - 1, d), ai, opp);
    }
  }

  lemma {:induction false} BandSumRange(g: Grid<char>, d: Dir, n: int, ai: char, opp: char)
    requires IsBoard(g) && 0 <= n <= RowCount(d) && !CheckFourInRow(g, ai) && !CheckFourInRow(g, opp)
    ensures -1600 * n <= BandSum(g, d, n, ai, opp) <= 2000 * n
  {
    if n > 0 {
      BandSumRange(g, d, n - 1, ai, opp);
      RowSumRange(g, FirstRow(d) + n - 1, d, 4, ai, opp);
    }
  }

  lemma {:induction false} ColumnSumRange(g: Grid<char>, col: int, n: int, ai: char, opp: char)
    requires IsBoard(g) && 0 <= col < 7 && 0 <= n <= 3 && !CheckFourInRow(g, ai) && !CheckFourInRow(g, opp)
    ensures -400 * n <= ColumnSum(g, col, n, ai, opp) <= 500 * n
  {
    if n > 0 {
      ColumnSumRange(g, col, n - 1, ai, opp);
      NonTerminalWindow(g, Window(n - 1, col, South), ai, opp);
    }
  }

  lemma {:induction false} VerticalSumRange(g: Grid<char>, n: int, ai: char, opp: char)
    requires IsBoard(g) && 0 <= n <= 7 && !CheckFourInRow(g, ai) && !CheckFourInRow(g, opp)
    ensures -1200 * n <= VerticalSum(g, n, ai, opp) <= 1500 * n
  {
    if n > 0 {
      VerticalSumRange(g, n - 1, ai, opp);
      ColumnSumRange(g, n - 1, 3, ai, opp);
    }
  }

  lemma {:induction false} CentreCountRange(g: Grid<char>, n: int, ai: char)
    requires IsBoard(g) && 0 <= n <= 6
    ensures 0 <= CentreCount(g, n, ai) <= n
  {
    if n > 0 {
      CentreCountRange(g, n - 1, ai);
    }
  }

  /**
   * The +-10000 window rules are unreachable from evaluate_position, so a
   * position without four in a row evaluates well inside (-100000, 100000):
   * a won or lost position always dominates.
   */
  lemma EvaluationRange(g: Grid<char>, ai: char, opp: char)
    requires IsBoard(g)
    ensures !CheckFourInRow(g, ai) && !CheckFourInRow(g, opp) ==> -27600 <= Evaluation(g, ai, opp) <= 34530
    ensures -100000 <= Evaluation(g, ai, opp) <= 100000
  {
    CentreCountRange(g, 6, ai);
    if !CheckFourInRow(g, ai) && !CheckFourInRow(g, opp) {
      BandSumRange(g, East, 6, ai, opp);
      VerticalSumRange(g, 7, ai, opp);
      BandSumRange(g, NorthEast, 3, ai, opp);
      BandSumRange(g, SouthEast, 3, ai, opp);
    }
  }

  /** The scratch matrix read as a value is the board it mirrors. */
  lemma MirrorsSnapshot(a: array2<char>, g: Grid<char>)
    requires Mirrors(a, g)
    ensures Snapshot(a) == g
  {
    GridEq(Snapshot(a), g, 6, 7);
  }

  /** The inner counting loop of evaluate_position for one window. */
  method TallyWindow(a: array2<char>, ghost g: Grid<char>, w: Window, ai: char, opp: char) returns (t: Counts)
    requires Mirrors(a, g) && OnBoard(w)
    ensures t == TallyOf(Cells(g, w), ai, opp)
  {
    ghost var s := Cells(g, w);
    t := Counts(0, 0, 0);
    var i := 0;
    while i < 4
      invariant 0 <= i <= 4
      invariant t == TallyOf(s[..i], ai, opp)
    {
      var x := a[RowAt(w.row, w.dir, i), ColAt(w.col, w.dir, i)];
      assert s[..i + 1][..i] == s[..i];
      assert x == s[i] by {
        assert s[i] == g[RowAt(w.row, w.dir, i)][ColAt(w.col, w.dir, i)];
      }
      if x == ai {
        t := t.(ai := t.ai + 1);
      } else if x == opp {
        t := t.(opp := t.opp + 1);
      } else {
        t := t.(empty := t.empty + 1);
      }
      i := i + 1;
    }
    assert s[..4] == s;
  }

  /** The inner loop of a row-major block: start columns 0..3 of `row`. */
  method RowWindows(a: array2<char>, ghost g: Grid<char>, row: int, d: Dir, ai: char, opp: char, score0: int)
    returns (score: int)
    requires Mirrors(a, g) && FirstRow(d) <= row < FirstRow(d) + RowCount(d)
    ensures score == score0 + RowSum(g, row, d, 4, ai, opp)
  {
    score := score0;
    var col := 0;
    while col <= 3
      invariant 0 <= col <= 4
      invariant score == score0 + RowSum(g, row, d, col, ai, opp)
    {
      var t := TallyWindow(a, g, Window(row, col, d), ai, opp);
      score := score + WindowScore(t.ai, t.opp, t.empty);
      col := col + 1;
    }
  }

  /**
   * One row-major block of evaluate_position (horizontal, rising or falling
   * diagonals): rows FirstRow(d) onwards, adding each window's score to `score0`.
   */
  method BandWindows(a: array2<char>, ghost g: Grid<char>, d: Dir, ai: char, opp: char, score0: int)
    returns (score: int)
    requires Mirrors(a, g)
    ensures score == score0 + BandSum(g, d, RowCount(d), ai, opp)
  {
    score := score0;
    var row := FirstRow(d);
    while row < FirstRow(d) + RowCount(d)
      invariant FirstRow(d) <= row <= FirstRow(d) + RowCount(d)
      invariant score == score0 + BandSum(g, d, row - FirstRow(d), ai, opp)
    {
      score := RowWindows(a, g, row, d, ai, opp, score);
      row := row + 1;
    }
  }

  /** The inner loop of the vertical block: start rows 0..2 of column `col`. */
  method ColumnWindows(a: array2<char>, ghost g: Grid<char>, col: int, ai: char, opp: char, score0: int)
    returns (score: int)
    requires Mirrors(a, g) && 0 <= col < 7
    ensures score == score0 + ColumnSum(g, col, 3, ai, opp)
  {
    score := score0;
    var row := 0;
    while row <= 2
      invariant 0 <= row <= 3
      invariant score == score0 + ColumnSum(g, col, row, ai, opp)
    {
      var t := TallyWindow(a, g, Window(row, col, South), ai, opp);
      score := score + WindowScore(t.ai, t.opp, t.empty);
      row := row + 1;
    }
  }

  /** The vertical block of evaluate_position, column by column. */
  method VerticalWindows(a: array2<char>, ghost g: Grid<char>, ai: char, opp: char, score0: int) returns (score: int)
    requires Mirrors(a, g)
    ensures score == score0 + VerticalSum(g, 7, ai, opp)
  {
    score := score0;
    var col := 0;
    while col < 7
      invariant 0 <= col <= 7
      invariant score == score0 + VerticalSum(g, col, ai, opp)
    {
      score := ColumnWindows(a, g, col, ai, opp, score);
      col := col + 1;
    }
  }

  /** The centre-column bonus loop of evaluate_position: 5 per AI mark in column 3. */
  method CentreBonus(a: array2<char>, ghost g: Grid<char>, ai: char, score0: int) returns (score: int)
    requires Mirrors(a, g)
    ensures score == score0 + 5 * CentreCount(g, 6, ai)
  {
    score := score0;
    var row := 0;
    while row < 6
      invariant 0 <= row <= 6
      invariant score == score0 + 5 * CentreCount(g, row, ai)
    {
      if a[row, 3] == ai {
        score := score + 5;
      }
      row := row + 1;
    }
  }

  /** evaluate_position: terminal checks, the four window blocks, then the centre bonus. */
  method EvaluatePosition(a: array2<char>, ghost g: Grid<char>, ai: char, opp: char) returns (score: int)
    requires Mirrors(a, g)
    ensures score == Evaluation(g, ai, opp)
  {
    MirrorsSnapshot(a, g);
    if CheckFourInRow(Snapshot(a), ai) {
      return 100000;
    }
    if CheckFourInRow(Snapshot(a), opp) {
      return -100000;
    }
    score := BandWindows(a, g, East, ai, opp, 0);
    score := VerticalWindows(a, g, ai, opp, score);
    score := BandWindows(a, g, NorthEast, ai, opp, score);
    score := BandWindows(a, g, SouthEast, ai, opp, score);
    score := CentreBonus(a, g, ai, score);
  }

  // ---------------------------------------------------------------- columns

  /** Every entry of `cols` is a column of the board. */
  predicate InRange(cols: seq<int>) {
    forall k :: 0 <= k < |cols| ==> 0 <= cols[k] < 7
  }

  /** Every entry of `cols` is a column of `g` with a landing row. */
  predicate Playable(g: Grid<char>, cols: seq<int>)
    requires IsBoard(g)
  {
    forall k :: 0 <= k < |cols| ==> 0 <= cols[k] < 7 && LowestRow(g, cols[k]) != -1
  }

  /** The columns c, c + 1, .., 6 whose top cell is blank, in increasing order. */
  function ValidFrom(g: Grid<char>, c: int): (cols: seq<int>)
    requires IsBoard(g) && 0 <= c <= 7
    ensures forall i :: 0 <= i < |cols| ==> c <= cols[i] < 7
    decreases 7 - c
  {
    if c == 7 then []
    else if g[0][c] == Blank then [c] + ValidFrom(g, c + 1)
    else ValidFrom(g, c + 1)
  }

  /** get_valid_columns: the columns whose top cell is blank, left to right. */
  function ValidColumns(g: Grid<char>): (cols: seq<int>)
    requires IsBoard(g)
    ensures InRange(cols)
  {
    ValidFrom(g, 0)
  }

  lemma {:induction false} ValidFromBlank(g: Grid<char>, c: int)
    requires IsBoard(g) && 0 <= c <= 7
    ensures forall i :: 0 <= i < |ValidFrom(g, c)| ==> g[0][ValidFrom(g, c)[i]] == Blank
    decreases 7 - c
  {
    if c < 7 {
      ValidFromBlank(g, c + 1);
    }
  }

  lemma {:induction false} ValidFromComplete(g: Grid<char>, c: int, x: int)
    requires IsBoard(g) && 0 <= c <= x < 7 && g[0][x] == Blank
    ensures x in ValidFrom(g, c)
    decreases 7 - c
  {
    if x > c {
      ValidFromComplete(g, c + 1, x);
    }
  }

  lemma {:induction false} ValidFromIncreasing(g: Grid<char>, c: int)
    requires IsBoard(g) && 0 <= c <= 7
    ensures forall i, j :: 0 <= i < j < |ValidFrom(g, c)| ==> ValidFrom(g, c)[i] < ValidFrom(g, c)[j]
    decreases 7 - c
  {
    if c < 7 {
      ValidFromIncreasing(g, c + 1);
    }
  }

  /**
   * The valid columns are strictly increasing and are exactly the columns
   * whose top cell is blank; each of them has a landing row.
   */
  lemma ValidColumnsSpec(g: Grid<char>)
    requires IsBoard(g)
    ensures forall i :: 0 <= i < |ValidColumns(g)| ==> g[0][ValidColumns(g)[i]] == Blank
    ensures forall x :: 0 <= x < 7 && g[0][x] == Blank ==> x in ValidColumns(g)
    ensures forall i, j :: 0 <= i < j < |ValidColumns(g)| ==> ValidColumns(g)[i] < ValidColumns(g)[j]
    ensures Playable(g, ValidColumns(g))
  {
    ValidFromBlank(g, 0);
    forall x | 0 <= x < 7 && g[0][x] == Blank
      ensures x in ValidColumns(g)
    {
      ValidFromComplete(g, 0, x);
    }
    ValidFromIncreasing(g, 0);
  }

  /** The board after dropping `s` into `col` (unchanged when the column is full). */
  function Drop(g: Grid<char>, col: int, s: char): (h: Grid<char>)
    requires IsBoard(g) && 0 <= col < 7
    ensures IsBoard(h)
  {
    var row := LowestRow(g, col);
    if row == -1 then g else Put(g, row, col, s)
  }

  // ---------------------------------------------------------------- search

  /** The mark placed at a level: the AI's when maximizing, the opponent's otherwise. */
  function Mover(isMax: bool, ai: char, opp: char): char {
    if isMax then ai else opp
  }

  /**
   * The tree minimax unfolds from `g` with `depth` plies left: terminal
   * tests in the order the search makes them (AI four, opponent four, no
   * valid column, depth exhausted), otherwise one child per valid column.
   */
  function GameTree(g: Grid<char>, depth: int, isMax: bool, ai: char, opp: char): Tree
    requires IsBoard(g) && 0 <= depth
    decreases depth, 1
  {
    if CheckFourInRow(g, ai) then Leaf(100000 - depth)
    else if CheckFourInRow(g, opp) then Leaf(-100000 + depth)
    else if ValidColumns(g) == [] then Leaf(0)
    else if depth == 0 then Leaf(Evaluation(g, ai, opp))
    else Node(ChildList(g, ValidColumns(g), depth, isMax, ai, opp))
  }

  /** One subtree per column of `cols`, left to right, with the mover's piece dropped into it. */
  function ChildList(g: Grid<char>, cols: seq<int>, depth: int, isMax: bool, ai: char, opp: char): (kids: seq<Tree>)
    requires IsBoard(g) && 1 <= depth && InRange(cols)
    ensures |kids| == |cols|
    decreases depth, 0, |cols|
  {
    if cols == [] then []
    else [GameTree(Drop(g, cols[0], Mover(isMax, ai, opp)), depth - 1, !isMax, ai, opp)]
         + ChildList(g, cols[1..], depth, isMax, ai, opp)
  }

  /** The children of the columns after the first are the children after the first. */
  lemma ChildListTail(g: Grid<char>, cols: seq<int>, depth: int, isMax: bool, ai: char, opp: char)
    requires IsBoard(g) && 1 <= depth && InRange(cols) && cols != []
    ensures ChildList(g, cols, depth, isMax, ai, opp)[1..] == ChildList(g, cols[1..], depth, isMax, ai, opp)
  {
  }

  /**
   * Within the search depth every leaf scores in [-100000, 100000] and
   * every inner position has a move.
   */
  lemma {:induction false} GameTreeBounded(g: Grid<char>, depth: int, isMax: bool, ai: char, opp: char)
    requires IsBoard(g) && 0 <= depth <= MaxDepth
    ensures Bounded(GameTree(g, depth, isMax, ai, opp), -100000, 100000)
    decreases depth, 1
  {
    if !CheckFourInRow(g, ai) && !CheckFourInRow(g, opp) && ValidColumns(g) != [] {
      if depth == 0 {
        EvaluationRange(g, ai, opp);
      } else {
        ChildListBounded(g, ValidColumns(g), depth, isMax, ai, opp);
      }
    }
  }

  lemma {:induction false} ChildListBounded(g: Grid<char>, cols: seq<int>, depth: int, isMax: bool, ai: char, opp: char)
    requires IsBoard(g) && 1 <= depth <= MaxDepth && InRange(cols)
    ensures forall k :: 0 <= k < |cols| ==> Bounded(ChildList(g, cols, depth, isMax, ai, opp)[k], -100000, 100000)
    decreases depth, 0, |cols|
  {
    if cols != [] {
      GameTreeBounded(Drop(g, cols[0], Mover(isMax, ai, opp)), depth - 1, !isMax, ai, opp);
      ChildListBounded(g, cols[1..], depth, isMax, ai, opp);
    }
  }

  /** With the full window the pruned search of a position is its exact minimax value. */
  lemma SearchIsExact(g: Grid<char>, depth: int, isMax: bool, ai: char, opp: char)
    requires IsBoard(g) && 0 <= depth <= MaxDepth
    ensures AlphaBeta(GameTree(g, depth, isMax, ai, opp), isMax, IntMin, IntMax)
            == Value(GameTree(g, depth, isMax, ai, opp), isMax)
  {
    GameTreeBounded(g, depth, isMax, ai, opp);
    AlphaBetaExact(GameTree(g, depth, isMax, ai, opp), isMax, -100000, 100000);
  }

  /**
   * A won position scores 100000 - depth with `depth` the plies still to
   * search, so of two wins the one found deeper in the tree (later in the
   * game) scores higher.
   */
  lemma LaterWinScoresHigher(g: Grid<char>, h: Grid<char>, d1: int, d2: int, isMax: bool, ai: char, opp: char)
    requires IsBoard(g) && IsBoard(h) && CheckFourInRow(g, ai) && CheckFourInRow(h, ai) && 0 <= d1 < d2
    ensures Value(GameTree(g, d1, isMax, ai, opp), isMax) > Value(GameTree(h, d2, isMax, ai, opp), isMax)
  {
  }

  /** Writing the mover's mark at the landing row of `col` makes the scratch matrix hold the dropped board. */
  lemma MirrorsDrop(a: array2<char>, g: Grid<char>, col: int, row: int, s: char)
    requires a.Length0 == 6 && a.Length1 == 7 && IsBoard(g) && 0 <= col < 7 && row == LowestRow(g, col) && row != -1
    requires forall i, j :: 0 <= i < 6 && 0 <= j < 7 && (i != row || j != col) ==> a[i, j] == g[i][j]
    requires a[row, col] == s
    ensures Mirrors(a, Drop(g, col, s))
  {
  }

  /** Resetting the landing cell to blank restores the board the search started from. */
  lemma MirrorsUndo(a: array2<char>, g: Grid<char>, col: int, row: int)
    requires a.Length0 == 6 && a.Length1 == 7 && IsBoard(g) && 0 <= col < 7 && row == LowestRow(g, col) && row != -1
    requires forall i, j :: 0 <= i < 6 && 0 <= j < 7 && (i != row || j != col) ==> a[i, j] == g[i][j]
    requires a[row, col] == Blank
    ensures Mirrors(a, g)
  {
  }

  /**
   * minimax on the shared scratch matrix: the terminal tests, then the
   * maximizing or minimizing column loop; returns with the matrix as it
   * found it.
   */
  method Minimax(a: array2<char>, ghost g: Grid<char>, depth: int, isMax: bool, alpha: int, beta: int,
                 ai: char, opp: char) returns (v: int)
    requires Mirrors(a, g) && 0 <= depth
    modifies a
    ensures Mirrors(a, g)
    ensures v == AlphaBeta(GameTree(g, depth, isMax, ai, opp), isMax, alpha, beta)
    decreases depth, 1
  {
    MirrorsSnapshot(a, g);
    var validCols := ValidColumns(Snapshot(a));
    if CheckFourInRow(Snapshot(a), ai) {
      return 100000 - depth;
    }
    if CheckFourInRow(Snapshot(a), opp) {
      return -100000 + depth;
    }
    if |validCols| == 0 {
      return 0;
    }
    if depth == 0 {
      v := EvaluatePosition(a, g, ai, opp);
      return;
    }
    ValidColumnsSpec(g);
    if isMax {
      v := MaxColumns(a, g, validCols, depth, alpha, beta, ai, opp);
    } else {
      v := MinColumns(a, g, validCols, depth, alpha, beta, ai, opp);
    }
  }

  /** find_lowest_row on the scratch matrix. */
  method LandingRow(a: array2<char>, ghost g: Grid<char>, col: int) returns (row: int)
    requires Mirrors(a, g) && 0 <= col < 7
    ensures row == LowestRow(g, col)
  {
    MirrorsSnapshot(a, g);
    row := LowestRow(Snapshot(a), col);
  }

  /**
   * The body of a column loop for the first column of `cols`: put the
   * mover's mark at its landing cell `row`, search the position below, and
   * blank the cell again.
   */
  method Probe(a: array2<char>, ghost g: Grid<char>, cols: seq<int>, row: int, depth: int, isMax: bool,
               alpha: int, beta: int, ai: char, opp: char) returns (eval: int)
    requires Mirrors(a, g) && 1 <= depth && InRange(cols) && cols != []
    requires row == LowestRow(g, cols[0]) && row != -1
    modifies a
    ensures Mirrors(a, g)
    ensures eval == AlphaBeta(ChildList(g, cols, depth, isMax, ai, opp)[0], !isMax, alpha, beta)
    decreases depth, 0, 0
  {
    var col := cols[0];
    var s := if isMax then ai else opp;
    a[row, col] := s;
    MirrorsDrop(a, g, col, row, s);
    eval := Minimax(a, Drop(g, col, s), depth - 1, !isMax, alpha, beta, ai, opp);
    a[row, col] := Blank;
    MirrorsUndo(a, g, col, row);
  }

  /** The maximizing column loop of minimax: the AI's mark in each valid column in turn. */
  method MaxColumns(a: array2<char>, ghost g: Grid<char>, validCols: seq<int>, depth: int, alpha: int, beta: int,
                    ai: char, opp: char) returns (v: int)
    requires Mirrors(a, g) && 1 <= depth && Playable(g, validCols)
    modifies a
    ensures Mirrors(a, g)
    ensures v == MaxLoop(ChildList(g, validCols, depth, true, ai, opp), IntMin, alpha, beta)
    decreases depth, 0, 1
  {
    var maxEval := IntMin;
    var al := alpha;
    var i := 0;
    while i < |validCols|
      invariant 0 <= i <= |validCols|
      invariant Mirrors(a, g)
      invariant MaxLoop(ChildList(g, validCols[i..], depth, true, ai, opp), maxEval, al, beta)
                == MaxLoop(ChildList(g, validCols, depth, true, ai, opp), IntMin, alpha, beta)
    {
      var col := validCols[i];
      var row := LandingRow(a, g, col);
      if row != -1 {
        var eval := Probe(a, g, validCols[i..], row, depth, true, al, beta, ai, opp);
        MaxLoopStep(ChildList(g, validCols[i..], depth, true, ai, opp), maxEval, al, beta, eval);
        ChildListTail(g, validCols[i..], depth, true, ai, opp);
        assert validCols[i..][1..] == validCols[i + 1..];
        maxEval := Max(maxEval, eval);
        al := Max(al, eval);
        if beta <= al {
          break;
        }
      }
      i := i + 1;
    }
    v := maxEval;
  }

  /** The minimizing column loop of minimax: the opponent's mark in each valid column in turn. */
  method MinColumns(a: array2<char>, ghost g: Grid<char>, validCols: seq<int>, depth: int, alpha: int, beta: int,
                    ai: char, opp: char) returns (v: int)
    requires Mirrors(a, g) && 1 <= depth && Playable(g, validCols)
    modifies a
    ensures Mirrors(a, g)
    ensures v == MinLoop(ChildList(g, validCols, depth, false, ai, opp), IntMax, alpha, beta)
    decreases depth, 0, 1
  {
    var minEval := IntMax;
    var be := beta;
    var i := 0;
    while i < |validCols|
      invariant 0 <= i <= |validCols|
      invariant Mirrors(a, g)
      invariant MinLoop(ChildList(g, validCols[i..], depth, false, ai, opp), minEval, alpha, be)
                == MinLoop(ChildList(g, validCols, depth, false, ai, opp), IntMax, alpha, beta)
    {
      var col := validCols[i];
      var row := LandingRow(a, g, col);
      if row != -1 {
        var eval := Probe(a, g, validCols[i..], row, depth, false, alpha, be, ai, opp);
        MinLoopStep(ChildList(g, validCols[i..], depth, false, ai, opp), minEval, alpha, be, eval);
        ChildListTail(g, validCols[i..], depth, false, ai, opp);
        assert validCols[i..][1..] == validCols[i + 1..];
        minEval := Min(minEval, eval);
        be := Min(be, eval);
        if be <= alpha {
          break;
        }
      }
      i := i + 1;
    }
    v := minEval;
  }

  // ---------------------------------------------------------------- move choice

  /** Dropping `ai` into `c` wins, or dropping the opponent's mark there would win for them. */
  predicate Tactical(g: Grid<char>, c: int, ai: char)
    requires IsBoard(g) && 0 <= c < 7
  {
    CheckFourInRow(Drop(g, c, ai), ai) || CheckFourInRow(Drop(g, c, Opponent(ai)), Opponent(ai))
  }

  /** The minimax value of dropping `ai` into `c`, searched to the chooser's depth. */
  function RootValue(g: Grid<char>, c: int, ai: char): int
    requires IsBoard(g) && 0 <= c < 7
  {
    Value(GameTree(Drop(g, c, ai), MaxDepth - 1, false, ai, Opponent(ai)), false)
  }

  /** `cols[k]` is the first tactical column of `cols`. */
  predicate FirstTactical(g: Grid<char>, cols: seq<int>, ai: char, k: int)
    requires IsBoard(g) && InRange(cols)
  {
    0 <= k < |cols| && Tactical(g, cols[k], ai) && forall j :: 0 <= j < k ==> !Tactical(g, cols[j], ai)
  }

  /**
   * `cols[k]` is the first column of `cols` of greatest value, the columns
   * valued as the root's children: the AI's mark dropped there, searched
   * to the chooser's depth.
   */
  predicate FirstBest(g: Grid<char>, cols: seq<int>, ai: char, k: int)
    requires IsBoard(g) && InRange(cols)
  {
    var kids := ChildList(g, cols, MaxDepth, true, ai, Opponent(ai));
    0 <= k < |cols| &&
    (forall j :: 0 <= j < |cols| ==> Value(kids[j], false) <= Value(kids[k], false)) &&
    (forall j :: 0 <= j < k ==> Value(kids[j], false) < Value(kids[k], false))
  }

  /**
   * The chooser's rule over the valid columns `cols`: the first tactical
   * column if there is one, otherwise the first column of greatest value.
   */
  predicate Chosen(g: Grid<char>, cols: seq<int>, ai: char, col: int)
    requires IsBoard(g) && InRange(cols)
  {
    exists k :: 0 <= k < |cols| && col == cols[k] &&
      if forall j :: 0 <= j < |cols| ==> !Tactical(g, cols[j], ai) then FirstBest(g, cols, ai, k)
      else FirstTactical(g, cols, ai, k)
  }

  /** The child the search builds for the k-th column is the tree of dropping the mover there. */
  lemma {:induction false} ChildListAt(g: Grid<char>, cols: seq<int>, depth: int, isMax: bool, ai: char, opp: char, k: int)
    requires IsBoard(g) && 1 <= depth && InRange(cols) && 0 <= k < |cols|
    ensures ChildList(g, cols, depth, isMax, ai, opp)[k]
            == GameTree(Drop(g, cols[k], Mover(isMax, ai, opp)), depth - 1, !isMax, ai, opp)
    ensures ChildList(g, cols[k..], depth, isMax, ai, opp)[0] == ChildList(g, cols, depth, isMax, ai, opp)[k]
    decreases k
  {
    if k > 0 {
      ChildListAt(g, cols[1..], depth, isMax, ai, opp, k - 1);
      assert cols[1..][k - 1..] == cols[k..];
    }
  }

  /** The value the chooser compares for a column is the root value of that column. */
  lemma RootChildValue(g: Grid<char>, cols: seq<int>, ai: char, k: int)
    requires IsBoard(g) && InRange(cols) && 0 <= k < |cols|
    ensures Value(ChildList(g, cols, MaxDepth, true, ai, Opponent(ai))[k], false) == RootValue(g, cols[k], ai)
  {
    ChildListAt(g, cols, MaxDepth, true, ai, Opponent(ai), k);
  }

  /** What the chooser learns from one root search with window (alpha, IntMax). */
  lemma RootScore(t: Tree, alpha: int, score: int)
    requires Bounded(t, -100000, 100000) && IntMin <= alpha < IntMax
    requires score == AlphaBeta(t, false, alpha, IntMax)
    ensures score > alpha ==> score == Value(t, false)
    ensures score <= alpha ==> Value(t, false) <= score
    ensures -100000 <= Value(t, false) <= 100000
  {
    AlphaBetaFailSoft(t, false, alpha, IntMax);
    ValueBounded(t, false, -100000, 100000);
  }

  /**
   * get_best_column, run on a copy of the board matrix `g` for the player
   * with mark `symbol`: column 3 when no column has room, otherwise the
   * column the chooser's rule picks among the valid columns.
   */
  method BestColumn(g: Grid<char>, symbol: char) returns (col: int)
    requires IsBoard(g)
    ensures ValidColumns(g) == [] ==> col == 3
    ensures ValidColumns(g) != [] ==> Chosen(g, ValidColumns(g), symbol, col)
  {
    var a := new char[6, 7]((i, j) requires 0 <= i < 6 && 0 <= j < 7 => g[i][j]);
    assert Mirrors(a, g);
    MirrorsSnapshot(a, g);
    var validCols := ValidColumns(Snapshot(a));
    if |validCols| == 0 {
      return 3;
    }
    ValidColumnsSpec(g);
    var ai := symbol;
    var opp := if symbol == 'X' then 'O' else 'X';
    col := TacticalColumn(a, g, validCols, ai, opp);
    if col != -1 {
      return;
    }
    col := SearchColumn(a, g, validCols, ai, opp);
  }

  /** Both halves of the win-or-block test for one column, each undone before the next. */
  method TacticalAt(a: array2<char>, ghost g: Grid<char>, row: int, c: int, ai: char, opp: char) returns (hit: bool)
    requires Mirrors(a, g) && 0 <= c < 7 && row == LowestRow(g, c) && row != -1 && opp == Opponent(ai)
    modifies a
    ensures Mirrors(a, g)
    ensures hit == Tactical(g, c, ai)
  {
    a[row, c] := ai;
    MirrorsDrop(a, g, c, row, ai);
    MirrorsSnapshot(a, Drop(g, c, ai));
    if CheckFourInRow(Snapshot(a), ai) {
      a[row, c] := Blank;
      MirrorsUndo(a, g, c, row);
      return true;
    }
    a[row, c] := Blank;
    a[row, c] := opp;
    MirrorsDrop(a, g, c, row, opp);
    MirrorsSnapshot(a, Drop(g, c, opp));
    hit := CheckFourInRow(Snapshot(a), opp);
    a[row, c] := Blank;
    MirrorsUndo(a, g, c, row);
  }

  /** The win-or-block loop of get_best_column: the first tactical column, or -1. */
  method TacticalColumn(a: array2<char>, ghost g: Grid<char>, validCols: seq<int>, ai: char, opp: char) returns (col: int)
    requires Mirrors(a, g) && Playable(g, validCols) && opp == Opponent(ai)
    modifies a
    ensures Mirrors(a, g)
    ensures col == -1 ==> forall k :: 0 <= k < |validCols| ==> !Tactical(g, validCols[k], ai)
    ensures col != -1 ==> exists k :: 0 <= k < |validCols| && col == validCols[k] && FirstTactical(g, validCols, ai, k)
  {
    var i := 0;
    while i < |validCols|
      invariant 0 <= i <= |validCols|
      invariant Mirrors(a, g)
      invariant forall k :: 0 <= k < i ==> !Tactical(g, validCols[k], ai)
    {
      var c := validCols[i];
      var row := LandingRow(a, g, c);
      if row != -1 {
        var hit := TacticalAt(a, g, row, c, ai, opp);
        if hit {
          assert FirstTactical(g, validCols, ai, i);
          return c;
        }
      }
      i := i + 1;
    }
    col := -1;
  }

  /**
   * One root search of get_best_column: the AI's mark in column
   * `cols[i]`, searched with window (alpha, IntMax); the score is the
   * child's value when it beats alpha and an upper bound of it otherwise.
   */
  method ScoreColumn(a: array2<char>, ghost g: Grid<char>, cols: seq<int>, i: int, row: int, alpha: int,
                     ai: char, opp: char) returns (score: int)
    requires Mirrors(a, g) && InRange(cols) && 0 <= i < |cols| && row == LowestRow(g, cols[i]) && row != -1
    requires IntMin <= alpha < IntMax && opp == Opponent(ai)
    modifies a
    ensures Mirrors(a, g)
    ensures var v := Value(ChildList(g, cols, MaxDepth, true, ai, opp)[i], false);
            (score > alpha ==> score == v) && (score <= alpha ==> v <= score) && -100000 <= v <= 100000
  {
    ChildListAt(g, cols, MaxDepth, true, ai, opp, i);
    score := Probe(a, g, cols[i..], row, MaxDepth, true, alpha, IntMax, ai, opp);
    ChildListBounded(g, cols, MaxDepth, true, ai, opp);
    RootScore(ChildList(g, cols, MaxDepth, true, ai, opp)[i], alpha, score);
  }

  /** The search loop of get_best_column: the first column of greatest root score. */
  method SearchColumn(a: array2<char>, ghost g: Grid<char>, validCols: seq<int>, ai: char, opp: char) returns (col: int)
    requires Mirrors(a, g) && Playable(g, validCols) && validCols != [] && opp == Opponent(ai)
    modifies a
    ensures Mirrors(a, g)
    ensures exists k :: 0 <= k < |validCols| && col == validCols[k] && FirstBest(g, validCols, ai, k)
  {
    ghost var kids := ChildList(g, validCols, MaxDepth, true, ai, opp);
    var bestCol := validCols[0];
    var bestScore := IntMin;
    var alpha := IntMin;
    var beta := IntMax;
    ghost var bestIdx := 0;
    var i := 0;
    while i < |validCols|
      invariant 0 <= i <= |validCols|
      invariant Mirrors(a, g)
      invariant alpha == bestScore && IntMin <= alpha <= 100000 && beta == IntMax
      invariant 0 <= bestIdx < |validCols| && bestCol == validCols[bestIdx]
      invariant i == 0 ==> bestScore == IntMin && bestIdx == 0
      invariant i > 0 ==> bestIdx < i && bestScore == Value(kids[bestIdx], false)
      invariant forall k :: 0 <= k < i ==> Value(kids[k], false) <= bestScore
      invariant forall k :: 0 <= k < bestIdx ==> Value(kids[k], false) < bestScore
    {
      var c := validCols[i];
      var row := LandingRow(a, g, c);
      if row != -1 {
        var score := ScoreColumn(a, g, validCols, i, row, alpha, ai, opp);
        if score > bestScore {
          bestScore := score;
          bestCol := c;
          bestIdx := i;
        }
        alpha := Max(alpha, score);
      }
      i := i + 1;
    }
    col := bestCol;
    assert FirstBest(g, validCols, ai, bestIdx);
  }
}
