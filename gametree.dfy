/**
 * Alpha-beta search against plain minimax on an explicit game tree: the
 * window theorem of fail-soft alpha-beta. A result strictly inside the
 * window (alpha, beta) is the minimax value; a result at or below alpha is an
 * upper bound of it and one at or above beta a lower bound. The search's
 * loop has the shape of miniMaxAlphaBeta's (Computer.java): the best value
 * so far starts at the lost value of the side to move, a move's value
 * replaces it only when strictly better, it narrows the window, and the loop
 * stops once alpha reaches beta.
 */
module GameTree {
  import opened Search

  /** A position of the search: a static value, or the side to move (max) and the positions after each of its moves, in order. */
  datatype Tree = Leaf(value: real) | Inner(max: bool, kids: seq<Tree>)

  /** The value a node's loop starts from: the lost value of the side to move. */
  function Worst(max: bool): real { if max then MIN_POS_VAL else MAX_POS_VAL }

  /** The plain minimax value: the best of the kids' values for the side to move, or its lost value when it has no move. */
  function MinimaxValue(t: Tree): real
    decreases t
  {
    match t
    case Leaf(v) => v
    case Inner(max, kids) => BestOf(kids, max, Worst(max))
  }

  /** The best of pv and the minimax values of kids, for the side max. */
  function BestOf(kids: seq<Tree>, max: bool, pv: real): real
    decreases kids
  {
    if kids == [] then pv
    else
      var v := MinimaxValue(kids[0]);
      BestOf(kids[1..], max, if Improves(v, pv, max) then v else pv)
  }

  /** Alpha-beta search of t in the window (alpha, beta). */
  function AlphaBeta(t: Tree, alpha: real, beta: real): real
    decreases t
  {
    match t
    case Leaf(v) => v
    case Inner(max, kids) => AlphaBetaLoop(kids, max, alpha, beta, Worst(max))
  }

  /** The loop of the alpha-beta search over kids, with the best value pv so far. */
  function AlphaBetaLoop(kids: seq<Tree>, max: bool, alpha: real, beta: real, pv: real): real
    decreases kids
  {
    if kids == [] then pv
    else
      var v := AlphaBeta(kids[0], alpha, beta);
      var pv1 := if Improves(v, pv, max) then v else pv;
      var alpha1 := if max && pv1 > alpha then pv1 else alpha;
      var beta1 := if !max && pv1 < beta then pv1 else beta;
      if alpha1 >= beta1 then pv1
      else AlphaBetaLoop(kids[1..], max, alpha1, beta1, pv1)
  }

  /** The alpha-beta loop over a first kid k and the rest: k is searched in the window, then the rest in the narrowed one unless it closed. */
  lemma LoopCons(k: Tree, rest: seq<Tree>, max: bool, alpha: real, beta: real, pv: real, v: real)
    requires v == AlphaBeta(k, alpha, beta)
    ensures var pv1 := if Improves(v, pv, max) then v else pv;
      var alpha1 := if max && pv1 > alpha then pv1 else alpha;
      var beta1 := if !max && pv1 < beta then pv1 else beta;
      AlphaBetaLoop([k] + rest, max, alpha, beta, pv) == if alpha1 >= beta1 then pv1 else AlphaBetaLoop(rest, max, alpha1, beta1, pv1)
  {
    assert ([k] + rest)[0] == k && ([k] + rest)[1..] == rest;
  }

  /** What fail-soft alpha-beta promises of a result v in the window (alpha, beta) about the minimax value m. */
  predicate FailSoft(v: real, m: real, alpha: real, beta: real) {
    (v <= alpha ==> m <= v) && (alpha < v < beta ==> m == v) && (v >= beta ==> m >= v)
  }

  /** The better of two values for the side max. */
  function Pick(max: bool, x: real, y: real): real { if Improves(x, y, max) then x else y }

  /** Starting the fold from a better value x than y gives the better of x and the fold from y. */
  lemma {:induction false} BestOfFrom(kids: seq<Tree>, max: bool, x: real, y: real)
    requires x == Pick(max, x, y)
    ensures BestOf(kids, max, x) == Pick(max, x, BestOf(kids, max, y))
    decreases kids
  {
    if kids != [] {
      var v := MinimaxValue(kids[0]);
      BestOfFrom(kids[1..], max, Pick(max, v, x), Pick(max, v, y));
    }
  }

  /** The fold never ends worse than where it starts. */
  lemma {:induction false} BestOfAtLeast(kids: seq<Tree>, max: bool, pv: real)
    ensures BestOf(kids, max, pv) == Pick(max, BestOf(kids, max, pv), pv)
    decreases kids
  {
    if kids != [] {
      var v := MinimaxValue(kids[0]);
      BestOfAtLeast(kids[1..], max, Pick(max, v, pv));
    }
  }

  /** The window theorem: a result strictly inside (alpha, beta) is the minimax value, one outside a bound on the same side. */
  lemma {:induction false} AlphaBetaWindow(t: Tree, alpha: real, beta: real)
    requires alpha < beta
    ensures FailSoft(AlphaBeta(t, alpha, beta), MinimaxValue(t), alpha, beta)
    decreases t, 1
  {
    match t
    case Leaf(v) =>
    case Inner(max, kids) => LoopWindow(kids, max, alpha, beta, Worst(max));
  }

  /** The window theorem for the loop: its result against the fold of the kids' minimax values from the same start. */
  lemma {:induction false} LoopWindow(kids: seq<Tree>, max: bool, alpha: real, beta: real, pv: real)
    requires alpha < beta
    ensures var r := AlphaBetaLoop(kids, max, alpha, beta, pv);
      FailSoft(r, BestOf(kids, max, pv), alpha, beta) && r == Pick(max, r, pv)
    decreases kids, 0
  {
    if kids != [] {
      var k, rest := kids[0], kids[1..];
      var v, m := AlphaBeta(k, alpha, beta), MinimaxValue(k);
      AlphaBetaWindow(k, alpha, beta);
      var pv1 := if Improves(v, pv, max) then v else pv;
      var alpha1 := if max && pv1 > alpha then pv1 else alpha;
      var beta1 := if !max && pv1 < beta then pv1 else beta;
      var y := if max then (if Pick(max, m, pv) < pv1 then Pick(max, m, pv) else pv1)
               else (if Pick(max, m, pv) > pv1 then Pick(max, m, pv) else pv1);
      BestOfFrom(rest, max, Pick(max, m, pv), y);
      BestOfFrom(rest, max, pv1, y);
      BestOfAtLeast(rest, max, y);
      if alpha1 < beta1 {
        LoopWindow(rest, max, alpha1, beta1, pv1);
      }
    }
  }
}
