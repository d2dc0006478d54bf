/**
 * The SUS computer player: it ranks the blank cells of a copy of the board
 * by completed patterns, position and potential, writing a letter into a
 * cell to look at it and restoring the cell afterwards.
 */
module SusAI {
  import opened Grids
  import opened Sus

  /** The scratch matrix `a` holds the 3 x 3 board `g`. */
  ghost predicate Mirrors(a: array2<char>, g: Grid<char>)
    reads a
  {
    a.Length0 == 3 && a.Length1 == 3 && IsSusBoard(g) &&
    forall i, j :: 0 <= i < 3 && 0 <= j < 3 ==> a[i, j] == g[i][j]
  }

  /** Writing `v` into (r, c) of a mirrored matrix mirrors the board with `v` there. */
  lemma MirrorsPut(a: array2<char>, g: Grid<char>, r: int, c: int, v: char)
    requires a.Length0 == 3 && a.Length1 == 3 && IsSusBoard(g) && 0 <= r < 3 && 0 <= c < 3
    requires forall i, j :: 0 <= i < 3 && 0 <= j < 3 && (i != r || j != c) ==> a[i, j] == g[i][j]
    requires a[r, c] == v
    ensures Mirrors(a, Put(g, r, c, v))
  {
  }

  // ---------------------------------------------------------------- patterns

  /** With `sym` at (r, c), the row, the column, or a diagonal through (r, c) reads S, U, S. */
  predicate CreatesSus(g: Grid<char>, r: int, c: int, sym: char)
    requires IsSusBoard(g) && 0 <= r < 3 && 0 <= c < 3
  {
    var h := Put(g, r, c, sym);
    RowSus(h, r) || ColumnSus(h, c) || (r == c && MainSus(h)) || (r + c == 2 && AntiSus(h))
  }

  /**
   * On a blank cell the player's pattern test agrees with the board's
   * scoring: it holds exactly when placing `sym` there would score.
   */
  lemma CreatesSusIffScores(g: Grid<char>, r: int, c: int, sym: char)
    requires IsSusBoard(g) && 0 <= r < 3 && 0 <= c < 3 && g[r][c] == Blank
    ensures CreatesSus(g, r, c, sym) <==> CountSus(Put(g, r, c, sym)) > CountSus(g)
  {
    CountSusPut(g, r, c, sym);
  }

  /** creates_sus_pattern: write `sym`, test the lines through the cell, restore the cell. */
  method CreatesSusPattern(a: array2<char>, ghost g: Grid<char>, r: int, c: int, sym: char) returns (found: bool)
    requires Mirrors(a, g) && 0 <= r < 3 && 0 <= c < 3
    modifies a
    ensures Mirrors(a, g)
    ensures found == CreatesSus(g, r, c, sym)
  {
    var original := a[r, c];
    a[r, c] := sym;
    MirrorsPut(a, g, r, c, sym);
    found := false;
    if a[r, 0] == 'S' && a[r, 1] == 'U' && a[r, 2] == 'S' {
      found := true;
    }
    if a[0, c] == 'S' && a[1, c] == 'U' && a[2, c] == 'S' {
      found := true;
    }
    if r == c && a[0, 0] == 'S' && a[1, 1] == 'U' && a[2, 2] == 'S' {
      found := true;
    }
    if r + c == 2 && a[0, 2] == 'S' && a[1, 1] == 'U' && a[2, 0] == 'S' {
      found := true;
    }
    a[r, c] := original;
  }

  /** calculate_position_value: 15 for the centre, 8 for a corner, 5 for an edge cell. */
  function PositionValue(r: int, c: int): (v: int)
    ensures 0 <= r < 3 && 0 <= c < 3 ==> v == 5 || v == 8 || v == 15
    ensures r == 1 && c == 1 ==> v == 15
    ensures (r == 0 || r == 2) && (c == 0 || c == 2) ==> v == 8
    ensures 0 <= r < 3 && 0 <= c < 3 && (r == 1) != (c == 1) ==> v == 5
  {
    (if r == 1 && c == 1 then 15 else 0)
    + (if (r == 0 && c == 0) || (r == 2 && c == 2) || (r == 0 && c == 2) || (r == 2 && c == 0) then 8 else 0)
    + (if (r == 1 && c != 1) || (c == 1 && r != 1) then 5 else 0)
  }

  // ---------------------------------------------------------------- potential

  /** Counters of a line: S cells, U cells, anything else. */
  datatype Tally = Tally(s: nat, u: nat, other: nat)

  function TallyOf(cells: seq<char>): (t: Tally)
    ensures t.s + t.u + t.other == |cells|
  {
    if cells == [] then Tally(0, 0, 0)
    else
      var t := TallyOf(cells[..|cells| - 1]);
      var x := cells[|cells| - 1];
      if x == 'S' then t.(s := t.s + 1)
      else if x == 'U' then t.(u := t.u + 1)
      else t.(other := t.other + 1)
  }

  /** A line of the board: three cells from (r0, c0) in steps of (dr, dc). */
  predicate LineOnBoard(r0: int, c0: int, dr: int, dc: int) {
    0 <= r0 < 3 && 0 <= c0 < 3 && 0 <= r0 + 2 * dr < 3 && 0 <= c0 + 2 * dc < 3
  }

  function LineCells(h: Grid<char>, r0: int, c0: int, dr: int, dc: int): (cells: seq<char>)
    requires IsSusBoard(h) && LineOnBoard(r0, c0, dr, dc)
    ensures |cells| == 3
  {
    [h[r0][c0], h[r0 + dr][c0 + dc], h[r0 + 2 * dr][c0 + 2 * dc]]
  }

  /** A full line with two S and a U is worth 3; one S, one U and one open cell is worth 2. */
  function LinePotential(t: Tally): (p: int)
    ensures p == 0 || p == 2 || p == 3
  {
    if t.s >= 2 && t.u >= 1 && t.other == 0 then 3
    else if t.s >= 1 && t.u >= 1 && t.other == 1 then 2
    else 0
  }

  function LineValue(h: Grid<char>, r0: int, c0: int, dr: int, dc: int): (p: int)
    requires IsSusBoard(h) && LineOnBoard(r0, c0, dr, dc)
  {
    LinePotential(TallyOf(LineCells(h, r0, c0, dr, dc)))
  }

  /**
   * count_potential_patterns: with `sym` at (r, c), the potential of its
   * row and column, and of each diagonal only when (r, c) lies on it.
   */
  function Potential(g: Grid<char>, r: int, c: int, sym: char): (p: int)
    requires IsSusBoard(g) && 0 <= r < 3 && 0 <= c < 3
  {
    var h := Put(g, r, c, sym);
    LineValue(h, r, 0, 0, 1) + LineValue(h, 0, c, 1, 0)
    + (if r == c then LineValue(h, 0, 0, 1, 1) else 0)
    + (if r + c == 2 then LineValue(h, 0, 2, 1, -1) else 0)
  }

  /** The potential of a cell lies in 0..12, and off the diagonals in 0..6. */
  lemma PotentialRange(g: Grid<char>, r: int, c: int, sym: char)
    requires IsSusBoard(g) && 0 <= r < 3 && 0 <= c < 3
    ensures 0 <= Potential(g, r, c, sym) <= 12
    ensures r != c && r + c != 2 ==> Potential(g, r, c, sym) <= 6
  {
    var h := Put(g, r, c, sym);
    assert 0 <= LineValue(h, r, 0, 0, 1) <= 3;
    assert 0 <= LineValue(h, 0, c, 1, 0) <= 3;
    assert 0 <= LineValue(h, 0, 0, 1, 1) <= 3;
    assert 0 <= LineValue(h, 0, 2, 1, -1) <= 3;
  }

  /** One counting loop of count_potential_patterns over the three cells of a line. */
  method TallyLine(a: array2<char>, ghost h: Grid<char>, r0: int, c0: int, dr: int, dc: int) returns (t: Tally)
    requires Mirrors(a, h) && LineOnBoard(r0, c0, dr, dc)
    ensures t == TallyOf(LineCells(h, r0, c0, dr, dc))
  {
    ghost var cells := LineCells(h, r0, c0, dr, dc);
    t := Tally(0, 0, 0);
    var i := 0;
    while i < 3
      invariant 0 <= i <= 3
      invariant t == TallyOf(cells[..i])
    {
      var x := a[r0 + i * dr, c0 + i * dc];
      assert cells[..i + 1][..i] == cells[..i];
      assert x == cells[i] by {
        assert i == 0 || i == 1 || i == 2;
      }
      if x == 'S' {
        t := t.(s := t.s + 1);
      } else if x == 'U' {
        t := t.(u := t.u + 1);
      } else {
        t := t.(other := t.other + 1);
      }
      i := i + 1;
    }
    assert cells[..3] == cells;
  }

  /** count_potential_patterns on the scratch matrix: the cell is written, scanned, and restored. */
  method CountPotentialPatterns(a: array2<char>, ghost g: Grid<char>, r: int, c: int, sym: char)
    returns (potential: int)
    requires Mirrors(a, g) && 0 <= r < 3 && 0 <= c < 3
    modifies a
    ensures Mirrors(a, g)
    ensures potential == Potential(g, r, c, sym)
  {
    ghost var h := Put(g, r, c, sym);
    potential := 0;
    var temp := a[r, c];
    a[r, c] := sym;
    MirrorsPut(a, g, r, c, sym);
    var t := TallyLine(a, h, r, 0, 0, 1);
    potential := potential + LinePotential(t);
    t := TallyLine(a, h, 0, c, 1, 0);
    potential := potential + LinePotential(t);
    if r == c {
      t := TallyLine(a, h, 0, 0, 1, 1);
      potential := potential + LinePotential(t);
    }
    if r + c == 2 {
      t := TallyLine(a, h, 0, 2, 1, -1);
      potential := potential + LinePotential(t);
    }
    a[r, c] := temp;
  }

  // ---------------------------------------------------------------- ranking

  /**
   * evaluate_move_quality: 100 for completing the player's own pattern,
   * 80 for a cell where the opponent would complete one, the position
   * value, the player's potential and half (rounded down) the opponent's.
   */
  function MoveQuality(g: Grid<char>, r: int, c: int, ai: char, opp: char): int
    requires IsSusBoard(g) && 0 <= r < 3 && 0 <= c < 3
  {
    (if CreatesSus(g, r, c, ai) then 100 else 0) + (if CreatesSus(g, r, c, opp) then 80 else 0)
    + PositionValue(r, c) + Potential(g, r, c, ai) + Potential(g, r, c, opp) / 2
  }

  /**
   * The score get_best_move gives a cell: its quality, plus 50 when the
   * player is behind and completes its own pattern there, or ahead and
   * blocks the opponent's.
   */
  function MoveScore(g: Grid<char>, r: int, c: int, ai: char, opp: char, aiScore: int, oppScore: int): int
    requires IsSusBoard(g) && 0 <= r < 3 && 0 <= c < 3
  {
    MoveQuality(g, r, c, ai, opp)
    + (if aiScore < oppScore && CreatesSus(g, r, c, ai) then 50
       else if aiScore > oppScore && CreatesSus(g, r, c, opp) then 50
       else 0)
  }

  /** Every cell scores at least its position value, 5, and at most 269. */
  lemma MoveScoreRange(g: Grid<char>, r: int, c: int, ai: char, opp: char, aiScore: int, oppScore: int)
    requires IsSusBoard(g) && 0 <= r < 3 && 0 <= c < 3
    ensures 5 <= MoveScore(g, r, c, ai, opp, aiScore, oppScore) <= 269
  {
    PotentialRange(g, r, c, ai);
    PotentialRange(g, r, c, opp);
  }

  method EvaluateMoveQuality(a: array2<char>, ghost g: Grid<char>, r: int, c: int, ai: char, opp: char)
    returns (total: int)
    requires Mirrors(a, g) && 0 <= r < 3 && 0 <= c < 3
    modifies a
    ensures Mirrors(a, g)
    ensures total == MoveQuality(g, r, c, ai, opp)
  {
    total := 0;
    var own := CreatesSusPattern(a, g, r, c, ai);
    if own {
      total := total + 100;
    }
    var block := CreatesSusPattern(a, g, r, c, opp);
    if block {
      total := total + 80;
    }
    total := total + PositionValue(r, c);
    var mine := CountPotentialPatterns(a, g, r, c, ai);
    total := total + mine;
    var theirs := CountPotentialPatterns(a, g, r, c, opp);
    total := total + theirs / 2;
  }

  /** The body of get_best_move for one blank cell: its quality and the score-difference bonus. */
  method ScoreCell(a: array2<char>, ghost g: Grid<char>, r: int, c: int, ai: char, opp: char, aiScore: int, oppScore: int)
    returns (moveScore: int)
    requires Mirrors(a, g) && 0 <= r < 3 && 0 <= c < 3
    modifies a
    ensures Mirrors(a, g)
    ensures moveScore == MoveScore(g, r, c, ai, opp, aiScore, oppScore)
  {
    moveScore := EvaluateMoveQuality(a, g, r, c, ai, opp);
    if aiScore < oppScore {
      var own := CreatesSusPattern(a, g, r, c, ai);
      if own {
        moveScore := moveScore + 50;
      }
    } else if aiScore > oppScore {
      var block := CreatesSusPattern(a, g, r, c, opp);
      if block {
        moveScore := moveScore + 50;
      }
    }
  }

  /** A move and its score; (-1, -1, -1000) means no move. */
  datatype ScoredMove = ScoredMove(x: int, y: int, score: int)

  const NoMove := ScoredMove(-1, -1, -1000)

  /** Cell (i, j) comes before (x, y) in row-major order. */
  predicate Before(i: int, j: int, x: int, y: int) {
    i < x || (i == x && j < y)
  }

  /** The score of every cell of the board, as get_best_move computes it for a blank one. */
  function CellScores(g: Grid<char>, ai: char, opp: char, aiScore: int, oppScore: int): (int, int) -> int
    requires IsSusBoard(g)
  {
    (i, j) => if 0 <= i < 3 && 0 <= j < 3 then MoveScore(g, i, j, ai, opp, aiScore, oppScore) else 0
  }

  /**
   * `m` is the choice of get_best_move among the cells before (x, y): no
   * move when none of them is blank, otherwise the first blank cell of
   * greatest score.
   */
  predicate BestAmong(g: Grid<char>, score: (int, int) -> int, m: ScoredMove, x: int, y: int)
    requires IsSusBoard(g)
  {
    if forall i, j :: 0 <= i < 3 && 0 <= j < 3 && Before(i, j, x, y) ==> g[i][j] != Blank then m == NoMove
    else
      0 <= m.x < 3 && 0 <= m.y < 3 && Before(m.x, m.y, x, y) && g[m.x][m.y] == Blank &&
      m.score == score(m.x, m.y) &&
      (forall i, j :: 0 <= i < 3 && 0 <= j < 3 && Before(i, j, x, y) && g[i][j] == Blank ==> score(i, j) <= m.score) &&
      (forall i, j :: 0 <= i < 3 && 0 <= j < 3 && Before(i, j, m.x, m.y) && g[i][j] == Blank ==> score(i, j) < m.score)
  }

  /** The loop step of get_best_move at a blank cell (i, j): keep the first strictly greater score. */
  lemma BestStep(g: Grid<char>, score: (int, int) -> int, m: ScoredMove, i: int, j: int)
    requires IsSusBoard(g) && 0 <= i < 3 && 0 <= j < 3 && g[i][j] == Blank
    requires BestAmong(g, score, m, i, j) && score(i, j) > NoMove.score
    ensures BestAmong(g, score, if score(i, j) > m.score then ScoredMove(i, j, score(i, j)) else m, i, j + 1)
  {
    if forall i', j' :: 0 <= i' < 3 && 0 <= j' < 3 && Before(i', j', i, j) ==> g[i'][j'] != Blank {
      forall i', j' | 0 <= i' < 3 && 0 <= j' < 3 && Before(i', j', i, j + 1) && g[i'][j'] == Blank
        ensures i' == i && j' == j
      {
        assert !Before(i', j', i, j);
      }
    }
  }

  /** A taken cell does not change the choice. */
  lemma SkipStep(g: Grid<char>, score: (int, int) -> int, m: ScoredMove, i: int, j: int)
    requires IsSusBoard(g) && 0 <= i < 3 && 0 <= j < 3 && g[i][j] != Blank
    requires BestAmong(g, score, m, i, j)
    ensures BestAmong(g, score, m, i, j + 1)
  {
  }

  /** Having passed the whole row `i` is having reached the start of row `i + 1`. */
  lemma RowStep(g: Grid<char>, score: (int, int) -> int, m: ScoredMove, i: int)
    requires IsSusBoard(g) && 0 <= i < 3
    requires BestAmong(g, score, m, i, 3)
    ensures BestAmong(g, score, m, i + 1, 0)
  {
  }

  /** One iteration of get_best_move: a blank cell whose score beats the best so far replaces it. */
  method ConsiderCell(a: array2<char>, ghost g: Grid<char>, m: ScoredMove, i: int, j: int,
                      ai: char, opp: char, aiScore: int, oppScore: int) returns (m': ScoredMove)
    requires Mirrors(a, g) && 0 <= i < 3 && 0 <= j < 3
    requires BestAmong(g, CellScores(g, ai, opp, aiScore, oppScore), m, i, j)
    modifies a
    ensures Mirrors(a, g)
    ensures BestAmong(g, CellScores(g, ai, opp, aiScore, oppScore), m', i, j + 1)
  {
    ghost var score := CellScores(g, ai, opp, aiScore, oppScore);
    m' := m;
    if a[i, j] == Blank {
      var moveScore := ScoreCell(a, g, i, j, ai, opp, aiScore, oppScore);
      MoveScoreRange(g, i, j, ai, opp, aiScore, oppScore);
      BestStep(g, score, m, i, j);
      if moveScore > m.score {
        m' := ScoredMove(i, j, moveScore);
      }
    } else {
      SkipStep(g, score, m, i, j);
    }
  }

  /**
   * get_best_move on a copy of the board: the first blank cell, in
   * row-major order, of greatest score, or (-1, -1, -1000) when no cell is
   * blank.
   */
  method GetBestMove(g: Grid<char>, ai: char, opp: char, aiScore: int, oppScore: int) returns (m: ScoredMove)
    requires IsSusBoard(g)
    ensures BestAmong(g, CellScores(g, ai, opp, aiScore, oppScore), m, 3, 0)
  {
    ghost var score := CellScores(g, ai, opp, aiScore, oppScore);
    var a := new char[3, 3]((i, j) requires 0 <= i < 3 && 0 <= j < 3 => g[i][j]);
    m := NoMove;
    var i := 0;
    while i < 3
      invariant 0 <= i <= 3
      invariant Mirrors(a, g)
      invariant BestAmong(g, score, m, i, 0)
    {
      var j := 0;
      while j < 3
        invariant 0 <= j <= 3
        invariant Mirrors(a, g)
        invariant BestAmong(g, score, m, i, j)
      {
        m := ConsiderCell(a, g, m, i, j, ai, opp, aiScore, oppScore);
        j := j + 1;
      }
      RowStep(g, score, m, i);
      i := i + 1;
    }
  }

  /**
   * The chosen move names a blank cell exactly when the board has one; its
   * score is that cell's MoveScore and at least 5.
   */
  lemma BestMoveIsBlank(g: Grid<char>, m: ScoredMove, ai: char, opp: char, aiScore: int, oppScore: int)
    requires IsSusBoard(g) && BestAmong(g, CellScores(g, ai, opp, aiScore, oppScore), m, 3, 0)
    ensures m == NoMove <==> forall i, j :: 0 <= i < 3 && 0 <= j < 3 ==> g[i][j] != Blank
    ensures m != NoMove ==> 0 <= m.x < 3 && 0 <= m.y < 3 && g[m.x][m.y] == Blank && m.score >= 5
    ensures m != NoMove ==> m.score == MoveScore(g, m.x, m.y, ai, opp, aiScore, oppScore)
  {
    if m != NoMove {
      MoveScoreRange(g, m.x, m.y, ai, opp, aiScore, oppScore);
    }
  }
}
