/**
 * Shared vocabulary for every board of the collection: a board matrix is a
 * row-major `seq<seq<T>>` (`g[row][col]`), written with `Put`, counted with
 * `Count`, and searched for straight lines with `Run`/`HasRun`.
 */
module Grids {

  /** A board matrix, `g[row][col]`. */
  type Grid<T> = seq<seq<T>>

  predicate IsGrid<T>(g: Grid<T>, rows: nat, cols: nat) {
    |g| == rows && forall i :: 0 <= i < rows ==> |g[i]| == cols
  }

  predicate InGrid<T>(g: Grid<T>, r: int, c: int) {
    0 <= r < |g| && 0 <= c < |g[r]|
  }

  /** A `rows` x `cols` matrix filled with `v` (the constructors' blank fill). */
  function Uniform<T>(rows: nat, cols: nat, v: T): (g: Grid<T>)
    ensures IsGrid(g, rows, cols)
    ensures forall i, j :: 0 <= i < rows && 0 <= j < cols ==> g[i][j] == v
  {
    seq(rows, _ => seq(cols, _ => v))
  }

  /** `board[r][c] = v` on a value. */
  function Put<T>(g: Grid<T>, r: int, c: int, v: T): (h: Grid<T>)
    requires InGrid(g, r, c)
    ensures |h| == |g| && forall i :: 0 <= i < |g| ==> |h[i]| == |g[i]|
    ensures h[r][c] == v
    ensures forall i, j :: 0 <= i < |g| && 0 <= j < |g[i]| && (i != r || j != c) ==> h[i][j] == g[i][j]
  {
    g[r := g[r][c := v]]
  }

  /** Two matrices of the same shape with the same cells are equal. */
  lemma GridEq<T>(g: Grid<T>, h: Grid<T>, rows: nat, cols: nat)
    requires IsGrid(g, rows, cols) && IsGrid(h, rows, cols)
    requires forall i, j :: 0 <= i < rows && 0 <= j < cols ==> g[i][j] == h[i][j]
    ensures g == h
  {
    forall i | 0 <= i < rows
      ensures g[i] == h[i]
    {
      assert |g[i]| == cols == |h[i]|;
    }
  }

  /** The value of an in-place `array2` board. */
  function Snapshot<T>(a: array2<T>): (g: Grid<T>)
    reads a
    ensures IsGrid(g, a.Length0, a.Length1)
    ensures forall i, j :: 0 <= i < a.Length0 && 0 <= j < a.Length1 ==> g[i][j] == a[i, j]
  {
    seq(a.Length0, i requires 0 <= i < a.Length0 reads a =>
      seq(a.Length1, j requires 0 <= j < a.Length1 reads a => a[i, j]))
  }

  // ---------------------------------------------------------------- counting

  function CountRow<T(==)>(row: seq<T>, v: T): (n: nat)
    ensures n <= |row|
  {
    if row == [] then 0
    else CountRow(row[..|row| - 1], v) + (if row[|row| - 1] == v then 1 else 0)
  }

  /** Number of cells of `g` equal to `v`. */
  function Count<T(==)>(g: Grid<T>, v: T): nat {
    if g == [] then 0 else Count(g[..|g| - 1], v) + CountRow(g[|g| - 1], v)
  }

  lemma {:induction false} CountRowUpdate<T>(row: seq<T>, c: int, x: T, v: T)
    requires 0 <= c < |row|
    ensures CountRow(row[c := x], v)
         == CountRow(row, v) - (if row[c] == v then 1 else 0) + (if x == v then 1 else 0)
  {
    var n := |row| - 1;
    if c < n {
      assert row[c := x][..n] == row[..n][c := x];
      CountRowUpdate(row[..n], c, x, v);
    } else {
      assert row[c := x][..n] == row[..n];
    }
  }

  /** Writing one cell moves the count of `v` by at most one, as expected. */
  lemma {:induction false} CountPut<T>(g: Grid<T>, r: int, c: int, x: T, v: T)
    requires InGrid(g, r, c)
    ensures Count(Put(g, r, c, x), v)
         == Count(g, v) - (if g[r][c] == v then 1 else 0) + (if x == v then 1 else 0)
  {
    var n := |g| - 1;
    var h := Put(g, r, c, x);
    if r < n {
      assert h[..n] == Put(g[..n], r, c, x);
      assert h[n] == g[n];
      CountPut(g[..n], r, c, x, v);
    } else {
      assert h[..n] == g[..n];
      CountRowUpdate(g[n], c, x, v);
    }
  }

  lemma {:induction false} CountRowZero<T>(row: seq<T>, v: T)
    ensures CountRow(row, v) == 0 <==> forall j :: 0 <= j < |row| ==> row[j] != v
  {
    if row != [] {
      var n := |row| - 1;
      CountRowZero(row[..n], v);
      assert forall j :: 0 <= j < n ==> row[..n][j] == row[j];
    }
  }

  /** The count of `v` is zero exactly when no cell holds `v`. */
  lemma {:induction false} CountZero<T>(g: Grid<T>, v: T)
    ensures Count(g, v) == 0 <==> forall i, j :: 0 <= i < |g| && 0 <= j < |g[i]| ==> g[i][j] != v
  {
    if g != [] {
      var n := |g| - 1;
      CountZero(g[..n], v);
      CountRowZero(g[n], v);
      assert forall i :: 0 <= i < n ==> g[..n][i] == g[i];
    }
  }

  /** No more matching cells than cells. */
  lemma {:induction false} CountBound<T>(g: Grid<T>, v: T, rows: nat, cols: nat)
    requires IsGrid(g, rows, cols)
    ensures Count(g, v) <= rows * cols
  {
    if rows > 0 {
      CountBound(g[..rows - 1], v, rows - 1, cols);
      assert (rows - 1) * cols + cols == rows * cols;
    }
  }

  /**
   * A board whose move counter plus its blank count is its number of cells
   * (every move filled one blank cell): the counter never exceeds the
   * number of cells and reaches it exactly when no cell is blank.
   */
  lemma MovesFillBoard<T>(g: Grid<T>, rows: nat, cols: nat, blank: T, nMoves: int)
    requires IsGrid(g, rows, cols) && nMoves + Count(g, blank) == rows * cols
    ensures nMoves <= rows * cols
    ensures nMoves >= rows * cols <==> forall i, j :: 0 <= i < rows && 0 <= j < cols ==> g[i][j] != blank
  {
    CountZero(g, blank);
  }

  lemma {:induction false} CountRowAll<T>(row: seq<T>, v: T)
    requires forall j :: 0 <= j < |row| ==> row[j] == v
    ensures CountRow(row, v) == |row|
  {
    if row != [] {
      CountRowAll(row[..|row| - 1], v);
    }
  }

  /** A matrix whose every cell holds `v` counts `v` in every cell. */
  lemma {:induction false} CountAll<T>(g: Grid<T>, v: T, rows: nat, cols: nat)
    requires IsGrid(g, rows, cols) && forall i, j :: 0 <= i < rows && 0 <= j < cols ==> g[i][j] == v
    ensures Count(g, v) == rows * cols
  {
    if rows > 0 {
      CountAll(g[..rows - 1], v, rows - 1, cols);
      CountRowAll(g[rows - 1], v);
      assert (rows - 1) * cols + cols == rows * cols;
    }
  }

  lemma {:induction false} CountRowThree<T>(row: seq<T>, a: T, b: T, c: T)
    requires a != b && b != c && a != c
    requires forall j :: 0 <= j < |row| ==> row[j] == a || row[j] == b || row[j] == c
    ensures CountRow(row, a) + CountRow(row, b) + CountRow(row, c) == |row|
  {
    if row != [] {
      var n := |row| - 1;
      assert forall j :: 0 <= j < n ==> row[..n][j] == row[j];
      CountRowThree(row[..n], a, b, c);
    }
  }

  /** When every cell holds one of three distinct values, their counts add up to the number of cells. */
  lemma {:induction false} CountThree<T>(g: Grid<T>, a: T, b: T, c: T, rows: nat, cols: nat)
    requires IsGrid(g, rows, cols) && a != b && b != c && a != c
    requires forall i, j :: 0 <= i < rows && 0 <= j < cols ==> g[i][j] == a || g[i][j] == b || g[i][j] == c
    ensures Count(g, a) + Count(g, b) + Count(g, c) == rows * cols
  {
    if rows > 0 {
      var n := rows - 1;
      var h := g[..n];
      forall i, j | 0 <= i < n && 0 <= j < cols
        ensures h[i][j] == a || h[i][j] == b || h[i][j] == c
      {
        assert h[i] == g[i];
      }
      CountThree(h, a, b, c, n, cols);
      CountRowThree(g[n], a, b, c);
      assert Count(g, a) == Count(h, a) + CountRow(g[n], a);
      assert Count(g, b) == Count(h, b) + CountRow(g[n], b);
      assert Count(g, c) == Count(h, c) + CountRow(g[n], c);
      MulSucc(n, cols);
    }
  }

  lemma MulSucc(n: nat, cols: nat)
    ensures n * cols + cols == (n + 1) * cols
  {
  }

  // ---------------------------------------------------------------- lines

  /** The four line directions; `NorthEast` is the "bottom-left to top-right" diagonal. */
  datatype Dir = East | South | SouthEast | NorthEast

  /** Row of the `k`-th cell of a line starting in row `r`. */
  function RowAt(r: int, d: Dir, k: int): int {
    match d
    case East => r
    case South => r + k
    case SouthEast => r + k
    case NorthEast => r - k
  }

  /** Column of the `k`-th cell of a line starting in column `c`. */
  function ColAt(c: int, d: Dir, k: int): int {
    match d
    case East => c + k
    case South => c
    case SouthEast => c + k
    case NorthEast => c + k
  }

  /** The `k`-th cell of the line from (r, c) in direction `d` is on the board and holds `v`. */
  predicate CellIs<T(==)>(g: Grid<T>, r: int, c: int, d: Dir, k: int, v: T) {
    InGrid(g, RowAt(r, d, k), ColAt(c, d, k)) && g[RowAt(r, d, k)][ColAt(c, d, k)] == v
  }

  /** `len` consecutive cells from (r, c) in direction `d` all hold `v`. */
  predicate Run<T(==)>(g: Grid<T>, r: int, c: int, d: Dir, len: nat, v: T) {
    forall k :: 0 <= k < len ==> CellIs(g, r, c, d, k, v)
  }

  /**
   * Reference definition of "`len` in a row": some straight horizontal,
   * vertical or diagonal line of `len` cells lies on the board and holds `v`.
   */
  ghost predicate HasRun<T>(g: Grid<T>, len: nat, v: T) {
    exists r, c, d :: Run(g, r, c, d, len, v)
  }

  lemma Run3<T>(g: Grid<T>, r: int, c: int, d: Dir, v: T)
    requires CellIs(g, r, c, d, 0, v) && CellIs(g, r, c, d, 1, v) && CellIs(g, r, c, d, 2, v)
    ensures Run(g, r, c, d, 3, v)
  {
    forall k | 0 <= k < 3
      ensures CellIs(g, r, c, d, k, v)
    {
      assert k == 0 || k == 1 || k == 2;
    }
  }

  lemma Run4<T>(g: Grid<T>, r: int, c: int, d: Dir, v: T)
    requires CellIs(g, r, c, d, 0, v) && CellIs(g, r, c, d, 1, v)
    requires CellIs(g, r, c, d, 2, v) && CellIs(g, r, c, d, 3, v)
    ensures Run(g, r, c, d, 4, v)
  {
    forall k | 0 <= k < 4
      ensures CellIs(g, r, c, d, k, v)
    {
      assert k == 0 || k == 1 || k == 2 || k == 3;
    }
  }

  // ---------------------------------------------------------------- 3 x 3 boards

  /**
   * The classic 3x3 test used by several boards: some row, some column or
   * one of the two diagonals holds `s` three times.
   */
  predicate ThreeInRow(g: Grid<char>, s: char)
    requires IsGrid(g, 3, 3)
  {
    (exists i :: 0 <= i < 3 && g[i][0] == s && g[i][1] == s && g[i][2] == s)
    || (exists j :: 0 <= j < 3 && g[0][j] == s && g[1][j] == s && g[2][j] == s)
    || (g[0][0] == s && g[1][1] == s && g[2][2] == s)
    || (g[0][2] == s && g[1][1] == s && g[2][0] == s)
  }

  /** On a 3x3 board the row/column/diagonal test is exactly "three in a line". */
  lemma ThreeInRowIsRun(g: Grid<char>, s: char)
    requires IsGrid(g, 3, 3)
    ensures ThreeInRow(g, s) <==> HasRun(g, 3, s)
  {
    if ThreeInRow(g, s) {
      if i :| 0 <= i < 3 && g[i][0] == s && g[i][1] == s && g[i][2] == s {
        Run3(g, i, 0, East, s);
      } else if j :| 0 <= j < 3 && g[0][j] == s && g[1][j] == s && g[2][j] == s {
        Run3(g, 0, j, South, s);
      } else if g[0][0] == s && g[1][1] == s && g[2][2] == s {
        Run3(g, 0, 0, SouthEast, s);
      } else {
        Run3(g, 2, 0, NorthEast, s);
      }
    }
    if HasRun(g, 3, s) {
      var r, c, d :| Run(g, r, c, d, 3, s);
      assert CellIs(g, r, c, d, 0, s) && CellIs(g, r, c, d, 1, s) && CellIs(g, r, c, d, 2, s);
      match d
      case East => assert g[r][0] == s && g[r][1] == s && g[r][2] == s;
      case South => assert g[0][c] == s && g[1][c] == s && g[2][c] == s;
      case SouthEast =>
      case NorthEast =>
    }
  }

  // ---------------------------------------------------------------- characters

  predicate IsLower(c: char) { 'a' <= c <= 'z' }

  predicate IsUpper(c: char) { 'A' <= c <= 'Z' }

  /** `isalpha` in the C locale. */
  predicate IsAlpha(c: char) { IsLower(c) || IsUpper(c) }

  /** `toupper` in the C locale: lower-case ASCII letters map to upper case, the rest is unchanged. */
  function ToUpper(c: char): (u: char)
    ensures IsLower(c) ==> IsUpper(u) && u as int == c as int - 32
    ensures !IsLower(c) ==> u == c
  {
    if IsLower(c) then (c as int - 32) as char else c
  }

  /** `toupper` is idempotent and maps letters to upper-case letters. */
  lemma ToUpperFacts(c: char)
    ensures ToUpper(ToUpper(c)) == ToUpper(c)
    ensures IsAlpha(c) ==> IsUpper(ToUpper(c))
    ensures ToUpper(c) == '.' <==> c == '.'
    ensures ToUpper(c) == ' ' <==> c == ' '
  {
  }

  /** The other player's mark as several boards compute it: `'X'` maps to `'O'`, anything else to `'X'`. */
  function Opponent(s: char): (o: char)
    ensures o != s && (o == 'X' || o == 'O')
    ensures s == 'O' ==> o == 'X'
    ensures s == 'X' ==> o == 'O'
  {
    if s == 'X' then 'O' else 'X'
  }
}
