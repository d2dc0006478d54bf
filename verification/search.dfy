/**
 * Depth-limited minimax with alpha-beta pruning, over the game tree a
 * search unfolds: a `Leaf` is a position the search scores without
 * expanding, a `Node` lists the positions reachable in one move, in the
 * order the search tries them.  Levels alternate between the maximizing
 * and the minimizing player.
 *
 * `AlphaBeta` follows the pruned loops as written (running best starting
 * at the `int` sentinel, window narrowed after every child, cut-off as soon
 * as `beta <= alpha`); `Value` is plain minimax.  `AlphaBetaFailSoft`
 * relates them.
 */
module GameSearch {

  /** `numeric_limits<int>::min()` and `max()`, the loops' starting values. */
  const IntMin: int := -2147483648
  const IntMax: int := 2147483647

  function Max(x: int, y: int): (m: int)
    ensures m >= x && m >= y && (m == x || m == y)
  {
    if x < y then y else x
  }

  function Min(x: int, y: int): (m: int)
    ensures m <= x && m <= y && (m == x || m == y)
  {
    if x < y then x else y
  }

  datatype Tree = Leaf(score: int) | Node(kids: seq<Tree>)

  // ---------------------------------------------------------------- plain minimax

  /** The minimax value of `t` with the player to move maximizing when `isMax`. */
  function Value(t: Tree, isMax: bool): int
    decreases t, 1
  {
    match t
    case Leaf(s) => s
    case Node(kids) => if isMax then MaxOf(kids, IntMin) else MinOf(kids, IntMax)
  }

  /** Greatest of `best` and the (minimizing) values of `kids`. */
  function MaxOf(kids: seq<Tree>, best: int): int
    decreases kids, 0
  {
    if kids == [] then best else MaxOf(kids[1..], Max(best, Value(kids[0], false)))
  }

  /** Least of `best` and the (maximizing) values of `kids`. */
  function MinOf(kids: seq<Tree>, best: int): int
    decreases kids, 0
  {
    if kids == [] then best else MinOf(kids[1..], Min(best, Value(kids[0], true)))
  }

  // ---------------------------------------------------------------- alpha-beta

  /** The pruned search of `t` with window (`alpha`, `beta`). */
  function AlphaBeta(t: Tree, isMax: bool, alpha: int, beta: int): int
    decreases t, 1
  {
    match t
    case Leaf(s) => s
    case Node(kids) =>
      if isMax then MaxLoop(kids, IntMin, alpha, beta) else MinLoop(kids, IntMax, alpha, beta)
  }

  /** The remaining iterations of the maximizing loop. */
  function MaxLoop(kids: seq<Tree>, best: int, alpha: int, beta: int): int
    decreases kids, 0
  {
    if kids == [] then best
    else
      var eval := AlphaBeta(kids[0], false, alpha, beta);
      if beta <= Max(alpha, eval) then Max(best, eval)
      else MaxLoop(kids[1..], Max(best, eval), Max(alpha, eval), beta)
  }

  /** The remaining iterations of the minimizing loop. */
  function MinLoop(kids: seq<Tree>, best: int, alpha: int, beta: int): int
    decreases kids, 0
  {
    if kids == [] then best
    else
      var eval := AlphaBeta(kids[0], true, alpha, beta);
      if Min(beta, eval) <= alpha then Min(best, eval)
      else MinLoop(kids[1..], Min(best, eval), alpha, Min(beta, eval))
  }

  /** One iteration of the maximizing loop, given the child's search result `eval`. */
  lemma MaxLoopStep(kids: seq<Tree>, best: int, alpha: int, beta: int, eval: int)
    requires kids != [] && eval == AlphaBeta(kids[0], false, alpha, beta)
    ensures MaxLoop(kids, best, alpha, beta)
            == if beta <= Max(alpha, eval) then Max(best, eval) else MaxLoop(kids[1..], Max(best, eval), Max(alpha, eval), beta)
  {
  }

  /** One iteration of the minimizing loop, given the child's search result `eval`. */
  lemma MinLoopStep(kids: seq<Tree>, best: int, alpha: int, beta: int, eval: int)
    requires kids != [] && eval == AlphaBeta(kids[0], true, alpha, beta)
    ensures MinLoop(kids, best, alpha, beta)
            == if Min(beta, eval) <= alpha then Min(best, eval) else MinLoop(kids[1..], Min(best, eval), alpha, Min(beta, eval))
  {
  }

  // ---------------------------------------------------------------- fail-soft

  /**
   * The fail-soft guarantee: a result at or below alpha bounds the true
   * value from above, a result at or above beta bounds it from below, and a
   * result strictly inside the window is the true value.
   */
  predicate FailSoft(r: int, v: int, alpha: int, beta: int) {
    (r <= alpha ==> v <= r) && (alpha < r < beta ==> v == r) && (beta <= r ==> r <= v)
  }

  /** The pruned search is a fail-soft approximation of plain minimax. */
  lemma {:induction false} AlphaBetaFailSoft(t: Tree, isMax: bool, alpha: int, beta: int)
    requires IntMin <= alpha < beta <= IntMax
    ensures FailSoft(AlphaBeta(t, isMax, alpha, beta), Value(t, isMax), alpha, beta)
    decreases t, 1
  {
    match t
    case Leaf(_) =>
    case Node(kids) =>
      if isMax {
        MaxLoopFailSoft(kids, IntMin, alpha, beta);
      } else {
        MinLoopFailSoft(kids, IntMax, alpha, beta);
      }
  }

  lemma {:induction false} MaxLoopFailSoft(kids: seq<Tree>, best: int, alpha: int, beta: int)
    requires IntMin <= best <= alpha < beta <= IntMax
    ensures best <= MaxLoop(kids, best, alpha, beta)
    ensures beta <= MaxLoop(kids, best, alpha, beta) ==> MaxLoop(kids, best, alpha, beta) <= MaxOf(kids, best)
    ensures MaxLoop(kids, best, alpha, beta) < beta ==> MaxOf(kids, best) <= MaxLoop(kids, best, alpha, beta)
    ensures alpha < MaxLoop(kids, best, alpha, beta) < beta ==> MaxLoop(kids, best, alpha, beta) <= MaxOf(kids, best)
    decreases kids, 0
  {
    if kids != [] {
      AlphaBetaFailSoft(kids[0], false, alpha, beta);
      var eval := AlphaBeta(kids[0], false, alpha, beta);
      var v := Value(kids[0], false);
      MaxOfAtLeast(kids[1..], Max(best, v));
      if Max(alpha, eval) < beta {
        MaxLoopFailSoft(kids[1..], Max(best, eval), Max(alpha, eval), beta);
        if eval <= alpha {
          MaxOfShift(kids[1..], eval, best);
          MaxOfShift(kids[1..], v, best);
          assert Max(best, eval) == Max(eval, best) && Max(best, v) == Max(v, best);
        }
      }
    }
  }

  lemma {:induction false} MinLoopFailSoft(kids: seq<Tree>, best: int, alpha: int, beta: int)
    requires IntMin <= alpha < beta <= best <= IntMax
    ensures MinLoop(kids, best, alpha, beta) <= best
    ensures MinLoop(kids, best, alpha, beta) <= alpha ==> MinOf(kids, best) <= MinLoop(kids, best, alpha, beta)
    ensures alpha < MinLoop(kids, best, alpha, beta) ==> MinLoop(kids, best, alpha, beta) <= MinOf(kids, best)
    ensures alpha < MinLoop(kids, best, alpha, beta) < beta ==> MinOf(kids, best) <= MinLoop(kids, best, alpha, beta)
    decreases kids, 0
  {
    if kids != [] {
      AlphaBetaFailSoft(kids[0], true, alpha, beta);
      var eval := AlphaBeta(kids[0], true, alpha, beta);
      var v := Value(kids[0], true);
      MinOfAtMost(kids[1..], Min(best, v));
      if alpha < Min(beta, eval) {
        MinLoopFailSoft(kids[1..], Min(best, eval), alpha, Min(beta, eval));
        if beta <= eval {
          MinOfShift(kids[1..], eval, best);
          MinOfShift(kids[1..], v, best);
          assert Min(best, eval) == Min(eval, best) && Min(best, v) == Min(v, best);
        }
      }
    }
  }

  lemma {:induction false} MaxOfAtLeast(kids: seq<Tree>, best: int)
    ensures best <= MaxOf(kids, best)
    decreases kids
  {
    if kids != [] {
      MaxOfAtLeast(kids[1..], Max(best, Value(kids[0], false)));
    }
  }

  lemma {:induction false} MinOfAtMost(kids: seq<Tree>, best: int)
    ensures MinOf(kids, best) <= best
    decreases kids
  {
    if kids != [] {
      MinOfAtMost(kids[1..], Min(best, Value(kids[0], true)));
    }
  }

  /** A starting value can be taken out of the maximum. */
  lemma {:induction false} MaxOfShift(kids: seq<Tree>, x: int, y: int)
    ensures MaxOf(kids, Max(x, y)) == Max(x, MaxOf(kids, y))
    decreases kids
  {
    if kids != [] {
      var v := Value(kids[0], false);
      assert Max(Max(x, y), v) == Max(x, Max(y, v));
      MaxOfShift(kids[1..], x, Max(y, v));
    }
  }

  /** A starting value can be taken out of the minimum. */
  lemma {:induction false} MinOfShift(kids: seq<Tree>, x: int, y: int)
    ensures MinOf(kids, Min(x, y)) == Min(x, MinOf(kids, y))
    decreases kids
  {
    if kids != [] {
      var v := Value(kids[0], true);
      assert Min(Min(x, y), v) == Min(x, Min(y, v));
      MinOfShift(kids[1..], x, Min(y, v));
    }
  }

  // ---------------------------------------------------------------- exact value

  /** Every leaf score lies in [lo, hi] and every node has at least one child. */
  predicate Bounded(t: Tree, lo: int, hi: int)
    decreases t
  {
    match t
    case Leaf(s) => lo <= s <= hi
    case Node(kids) => kids != [] && forall i :: 0 <= i < |kids| ==> Bounded(kids[i], lo, hi)
  }

  /** The minimax value of a bounded tree lies within the leaf bounds. */
  lemma {:induction false} ValueBounded(t: Tree, isMax: bool, lo: int, hi: int)
    requires IntMin <= lo && hi <= IntMax && Bounded(t, lo, hi)
    ensures lo <= Value(t, isMax) <= hi
    decreases t, 1
  {
    match t
    case Leaf(_) =>
    case Node(kids) =>
      if isMax {
        ValueBounded(kids[0], false, lo, hi);
        MaxOfBounded(kids[1..], Value(kids[0], false), lo, hi);
      } else {
        ValueBounded(kids[0], true, lo, hi);
        MinOfBounded(kids[1..], Value(kids[0], true), lo, hi);
      }
  }

  lemma {:induction false} MaxOfBounded(kids: seq<Tree>, best: int, lo: int, hi: int)
    requires IntMin <= lo && hi <= IntMax && lo <= best <= hi && forall i :: 0 <= i < |kids| ==> Bounded(kids[i], lo, hi)
    ensures lo <= MaxOf(kids, best) <= hi
    decreases kids, 0
  {
    if kids != [] {
      assert Bounded(kids[0], lo, hi);
      ValueBounded(kids[0], false, lo, hi);
      MaxOfBounded(kids[1..], Max(best, Value(kids[0], false)), lo, hi);
    }
  }

  lemma {:induction false} MinOfBounded(kids: seq<Tree>, best: int, lo: int, hi: int)
    requires IntMin <= lo && hi <= IntMax && lo <= best <= hi && forall i :: 0 <= i < |kids| ==> Bounded(kids[i], lo, hi)
    ensures lo <= MinOf(kids, best) <= hi
    decreases kids, 0
  {
    if kids != [] {
      assert Bounded(kids[0], lo, hi);
      ValueBounded(kids[0], true, lo, hi);
      MinOfBounded(kids[1..], Min(best, Value(kids[0], true)), lo, hi);
    }
  }

  /**
   * When every leaf score lies strictly between the sentinels, the search
   * opened with the full window returns the exact minimax value.
   */
  lemma AlphaBetaExact(t: Tree, isMax: bool, lo: int, hi: int)
    requires IntMin < lo <= hi < IntMax && Bounded(t, lo, hi)
    ensures AlphaBeta(t, isMax, IntMin, IntMax) == Value(t, isMax)
  {
    AlphaBetaFailSoft(t, isMax, IntMin, IntMax);
    ValueBounded(t, isMax, lo, hi);
  }
}
