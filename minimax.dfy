/**
 * The computer's search (Computer.java) as functions of the position:
 * miniMaxAlphaBeta's value together with the position it leaves the board
 * in, the loop over a node's moves, and findBestMove's choice at the root.
 * Each move is made, searched below and taken back; the make and undo lemmas
 * show that between siblings the board holds the same position the node
 * started from, which is what lets the next sibling be made at all.
 * computer.dfy runs these in place.
 */
module Minimax {
  import opened Tiles
  import opened Grids
  import opened Rules
  import opened Engine
  import opened Search
  import opened Generation
  import opened Takeback
  import opened Making
  import opened Undoing
  import opened GameTree

  /** The live pieces of both sides; a move that goes on with a streak took one of them. */
  function Alive(s: State): int { s.whiteLeft + s.blackLeft }

  /** A value between that of a lost and that of a won position. */
  predicate InRange(v: real) { MIN_POS_VAL <= v <= MAX_POS_VAL }

  /** Math.signum of a difference of values. */
  function Signum(x: real): int { if x > 0.0 then 1 else if x < 0.0 then -1 else 0 }

  // ---------------------------------------------------------------------------
  // miniMaxAlphaBeta

  /**
   * miniMaxAlphaBeta at `depth` for the side that maximises (max) or
   * minimises: a draw by quiet king moves is worth 0, the depth limit gives
   * the static value, and otherwise the node's moves are tried in turn in the
   * window (alpha, beta). The result is the value and the board afterwards.
   */
  ghost function Node(s: State, stack: seq<Move>, depth: int, depthMax: int, max: bool, alpha: real, beta: real): (res: (real, State))
    requires NodeOk(s, stack) && 0 <= depth <= depthMax
    ensures SamePlace(res.1, s) && SiblingOk(res.1, stack) && InRange(res.0)
    ensures s.mwp != MOVES_FOR_DRAW && depth < depthMax && Generate(s).moves == [] ==>
              res.0 == (if max then MIN_POS_VAL else MAX_POS_VAL)
    decreases depthMax - depth, Alive(s), 1, 0
  {
    if s.mwp == MOVES_FOR_DRAW then (0.0, s)
    else if depth == depthMax then
      EvalRange(s);
      (Eval(s), s)
    else
      GenerateOk(s, stack);
      Loop(Generated(s), s, stack, Generate(s).moves, 0, depth, depthMax, max, alpha, beta,
           if max then MIN_POS_VAL else MAX_POS_VAL)
  }

  /**
   * The loop of miniMaxAlphaBeta over the moves of the node s0 from the i-th
   * on, on the board t, with the best value pv so far: a move's value replaces
   * pv when it is better for the side to move, pv narrows the window, and the
   * loop stops once alpha reaches beta.
   */
  ghost function Loop(t: State, s0: State, stack: seq<Move>, moves: seq<Move>, i: int,
                      depth: int, depthMax: int, max: bool, alpha: real, beta: real, pv: real): (res: (real, State))
    requires SiblingOk(t, stack) && SamePlace(t, s0) && ChosenOk(s0) && 0 <= i <= |moves|
    requires forall m :: m in moves ==> Fits(s0, m) && DestClear(m, stack)
    requires 0 <= depth < depthMax && InRange(pv)
    ensures SamePlace(res.1, t) && SiblingOk(res.1, stack) && InRange(res.0)
    ensures i == |moves| ==> res.0 == pv
    ensures if max then res.0 >= pv else res.0 <= pv
    decreases depthMax - depth, Alive(s0), 0, |moves| - i
  {
    if i == |moves| then (pv, t)
    else
      assert moves[i] in moves;
      var (v, u) := Step(t, s0, stack, moves[i], depth, depthMax, max, alpha, beta);
      var pv1 := if Improves(v, pv, max) then v else pv;
      var alpha1 := if max && pv1 > alpha then pv1 else alpha;
      var beta1 := if !max && pv1 < beta then pv1 else beta;
      if alpha1 >= beta1 then (pv1, u)
      else
        SamePlaceTrans(u, t, s0);
        var res := Loop(u, s0, stack, moves, i + 1, depth, depthMax, max, alpha1, beta1, pv1);
        SamePlaceTrans(res.1, u, t);
        res
  }

  /**
   * One move of the loop: pushed and made on t, searched below (at the same
   * depth and for the same side while a streak goes on, one level deeper for
   * the other side otherwise), popped and taken back. The result is the
   * move's value and the board afterwards.
   */
  ghost function Step(t: State, s0: State, stack: seq<Move>, m: Move,
                      depth: int, depthMax: int, max: bool, alpha: real, beta: real): (res: (real, State))
    requires SiblingOk(t, stack) && SamePlace(t, s0) && ChosenOk(s0) && Fits(s0, m) && DestClear(m, stack)
    requires 0 <= depth < depthMax
    ensures SamePlace(res.1, t) && SiblingOk(res.1, stack) && InRange(res.0)
    decreases depthMax - depth, Alive(s0), 0, 0
  {
    FitsTransfer(s0, t, m);
    MakeOk(t, stack, m);
    var r := Record(m, MakeTrace(t, m));
    var q := Make(t, m);
    var below := if q.isOnStreak then Node(q, stack + [r], depth, depthMax, max, alpha, beta)
                 else Node(q, stack + [r], depth + 1, depthMax, !max, alpha, beta);
    LandingSame(t, r, q, below.1);
    UndoOk(t, stack, m, r, below.1);
    (below.0, Undo(below.1, stack, r))
  }

  // ---------------------------------------------------------------------------
  // The tree miniMaxAlphaBeta searches

  /**
   * The game tree Node searches from s: a draw is a leaf worth 0, the depth
   * limit a leaf worth the static value, and otherwise one kid per generated
   * move, in order. A move the loop reached is the tree below the position it
   * was made into on the board the loop held then; a move after the cutoff
   * is the full tree below it, made on the board the loop stopped with.
   */
  ghost function NodeTree(s: State, stack: seq<Move>, depth: int, depthMax: int, max: bool, alpha: real, beta: real): (tr: Tree)
    requires NodeOk(s, stack) && 0 <= depth <= depthMax
    ensures s.mwp != MOVES_FOR_DRAW && depth < depthMax ==> tr.Inner? && tr.max == max && |tr.kids| == |Generate(s).moves|
    decreases depthMax - depth, Alive(s), 1, 0
  {
    if s.mwp == MOVES_FOR_DRAW then Leaf(0.0)
    else if depth == depthMax then Leaf(Eval(s))
    else
      GenerateOk(s, stack);
      Inner(max, LoopTree(Generated(s), s, stack, Generate(s).moves, 0, depth, depthMax, max, alpha, beta,
                          if max then MIN_POS_VAL else MAX_POS_VAL))
  }

  /** The kids Loop searches from the i-th move on, followed by the full trees of the moves it cut off. */
  ghost function LoopTree(t: State, s0: State, stack: seq<Move>, moves: seq<Move>, i: int,
                          depth: int, depthMax: int, max: bool, alpha: real, beta: real, pv: real): (kids: seq<Tree>)
    requires SiblingOk(t, stack) && SamePlace(t, s0) && ChosenOk(s0) && 0 <= i <= |moves|
    requires forall m :: m in moves ==> Fits(s0, m) && DestClear(m, stack)
    requires 0 <= depth < depthMax && InRange(pv)
    ensures |kids| == |moves| - i
    decreases depthMax - depth, Alive(s0), 0, |moves| - i
  {
    if i == |moves| then []
    else
      assert moves[i] in moves;
      var (v, u) := Step(t, s0, stack, moves[i], depth, depthMax, max, alpha, beta);
      var kid := StepTree(t, s0, stack, moves[i], depth, depthMax, max, alpha, beta);
      var pv1 := if Improves(v, pv, max) then v else pv;
      var alpha1 := if max && pv1 > alpha then pv1 else alpha;
      var beta1 := if !max && pv1 < beta then pv1 else beta;
      SamePlaceTrans(u, t, s0);
      if alpha1 >= beta1 then [kid] + PlainLoop(u, s0, stack, moves, i + 1, depth, depthMax, max)
      else [kid] + LoopTree(u, s0, stack, moves, i + 1, depth, depthMax, max, alpha1, beta1, pv1)
  }

  /** The tree Step searches: the one below the position m makes on t, at the depth and for the side Step searches it. */
  ghost function StepTree(t: State, s0: State, stack: seq<Move>, m: Move,
                          depth: int, depthMax: int, max: bool, alpha: real, beta: real): Tree
    requires SiblingOk(t, stack) && SamePlace(t, s0) && ChosenOk(s0) && Fits(s0, m) && DestClear(m, stack)
    requires 0 <= depth < depthMax
    decreases depthMax - depth, Alive(s0), 0, 0
  {
    FitsTransfer(s0, t, m);
    MakeOk(t, stack, m);
    var r := Record(m, MakeTrace(t, m));
    var q := Make(t, m);
    if q.isOnStreak then NodeTree(q, stack + [r], depth, depthMax, max, alpha, beta)
    else NodeTree(q, stack + [r], depth + 1, depthMax, !max, alpha, beta)
  }

  /**
   * The full game tree below s, without a window: as NodeTree, but every
   * move of a node is made on the board generateMoves leaves at that node.
   */
  ghost function PlainTree(s: State, stack: seq<Move>, depth: int, depthMax: int, max: bool): (tr: Tree)
    requires NodeOk(s, stack) && 0 <= depth <= depthMax
    ensures s.mwp != MOVES_FOR_DRAW && depth < depthMax ==> tr.Inner? && tr.max == max && |tr.kids| == |Generate(s).moves|
    decreases depthMax - depth, Alive(s), 1, 0
  {
    if s.mwp == MOVES_FOR_DRAW then Leaf(0.0)
    else if depth == depthMax then Leaf(Eval(s))
    else
      GenerateOk(s, stack);
      Inner(max, PlainLoop(Generated(s), s, stack, Generate(s).moves, 0, depth, depthMax, max))
  }

  /** The full trees of the moves from the i-th on, each made on the board t. */
  ghost function PlainLoop(t: State, s0: State, stack: seq<Move>, moves: seq<Move>, i: int,
                           depth: int, depthMax: int, max: bool): (kids: seq<Tree>)
    requires SiblingOk(t, stack) && SamePlace(t, s0) && ChosenOk(s0) && 0 <= i <= |moves|
    requires forall m :: m in moves ==> Fits(s0, m) && DestClear(m, stack)
    requires 0 <= depth < depthMax
    ensures |kids| == |moves| - i
    decreases depthMax - depth, Alive(s0), 0, |moves| - i
  {
    if i == |moves| then []
    else
      assert moves[i] in moves;
      [PlainStep(t, s0, stack, moves[i], depth, depthMax, max)] + PlainLoop(t, s0, stack, moves, i + 1, depth, depthMax, max)
  }

  /** The full tree below the position m makes on t. */
  ghost function PlainStep(t: State, s0: State, stack: seq<Move>, m: Move, depth: int, depthMax: int, max: bool): Tree
    requires SiblingOk(t, stack) && SamePlace(t, s0) && ChosenOk(s0) && Fits(s0, m) && DestClear(m, stack)
    requires 0 <= depth < depthMax
    decreases depthMax - depth, Alive(s0), 0, 0
  {
    FitsTransfer(s0, t, m);
    MakeOk(t, stack, m);
    var r := Record(m, MakeTrace(t, m));
    var q := Make(t, m);
    if q.isOnStreak then PlainTree(q, stack + [r], depth, depthMax, max)
    else PlainTree(q, stack + [r], depth + 1, depthMax, !max)
  }

  /** Node's value is the alpha-beta search of the tree it searches, in the same window. */
  lemma {:induction false} NodeSearches(s: State, stack: seq<Move>, depth: int, depthMax: int, max: bool, alpha: real, beta: real)
    requires NodeOk(s, stack) && 0 <= depth <= depthMax
    ensures Node(s, stack, depth, depthMax, max, alpha, beta).0 == AlphaBeta(NodeTree(s, stack, depth, depthMax, max, alpha, beta), alpha, beta)
    decreases depthMax - depth, Alive(s), 1, 0
  {
    if s.mwp != MOVES_FOR_DRAW && depth < depthMax {
      GenerateOk(s, stack);
      LoopSearches(Generated(s), s, stack, Generate(s).moves, 0, depth, depthMax, max, alpha, beta,
                   if max then MIN_POS_VAL else MAX_POS_VAL);
    }
  }

  /** Loop's value is the alpha-beta loop over the kids LoopTree lists. */
  lemma {:induction false} LoopSearches(t: State, s0: State, stack: seq<Move>, moves: seq<Move>, i: int,
                                        depth: int, depthMax: int, max: bool, alpha: real, beta: real, pv: real)
    requires SiblingOk(t, stack) && SamePlace(t, s0) && ChosenOk(s0) && 0 <= i <= |moves|
    requires forall m :: m in moves ==> Fits(s0, m) && DestClear(m, stack)
    requires 0 <= depth < depthMax && InRange(pv)
    ensures Loop(t, s0, stack, moves, i, depth, depthMax, max, alpha, beta, pv).0 ==
            AlphaBetaLoop(LoopTree(t, s0, stack, moves, i, depth, depthMax, max, alpha, beta, pv), max, alpha, beta, pv)
    decreases depthMax - depth, Alive(s0), 0, |moves| - i, 1
  {
    if i < |moves| {
      LoopSearchesOn(t, s0, stack, moves, i, depth, depthMax, max, alpha, beta, pv);
    }
  }

  /** LoopSearches for a loop with a move left: the move's search, then the rest of the loop or the cutoff. */
  lemma {:induction false} LoopSearchesOn(t: State, s0: State, stack: seq<Move>, moves: seq<Move>, i: int,
                                          depth: int, depthMax: int, max: bool, alpha: real, beta: real, pv: real)
    requires SiblingOk(t, stack) && SamePlace(t, s0) && ChosenOk(s0) && 0 <= i < |moves|
    requires forall m :: m in moves ==> Fits(s0, m) && DestClear(m, stack)
    requires 0 <= depth < depthMax && InRange(pv)
    ensures Loop(t, s0, stack, moves, i, depth, depthMax, max, alpha, beta, pv).0 ==
            AlphaBetaLoop(LoopTree(t, s0, stack, moves, i, depth, depthMax, max, alpha, beta, pv), max, alpha, beta, pv)
    decreases depthMax - depth, Alive(s0), 0, |moves| - i, 0
  {
    assert moves[i] in moves;
    var res := Step(t, s0, stack, moves[i], depth, depthMax, max, alpha, beta);
    var v, u := res.0, res.1;
    var pv1 := if Improves(v, pv, max) then v else pv;
    var alpha1 := if max && pv1 > alpha then pv1 else alpha;
    var beta1 := if !max && pv1 < beta then pv1 else beta;
    LoopUnfold(t, s0, stack, moves, i, depth, depthMax, max, alpha, beta, pv, v, u, pv1, alpha1, beta1);
    LoopTreeEquation(t, s0, stack, moves, i, depth, depthMax, max, alpha, beta, pv, v, u, pv1, alpha1, beta1);
    StepSearches(t, s0, stack, moves[i], depth, depthMax, max, alpha, beta);
    var rest := if alpha1 >= beta1 then PlainLoop(u, s0, stack, moves, i + 1, depth, depthMax, max)
                else LoopTree(u, s0, stack, moves, i + 1, depth, depthMax, max, alpha1, beta1, pv1);
    LoopCons(StepTree(t, s0, stack, moves[i], depth, depthMax, max, alpha, beta), rest, max, alpha, beta, pv, v);
    if alpha1 < beta1 {
      LoopSearches(u, s0, stack, moves, i + 1, depth, depthMax, max, alpha1, beta1, pv1);
    }
  }

  /** The loop from the i-th move: the pass, then a cut-off or the loop from the next move. */
  lemma LoopUnfold(t: State, s: State, stack: seq<Move>, moves: seq<Move>, i: int, depth: int, depthMax: int,
                   max: bool, a: real, b: real, pv: real, v: real, u: State, pv1: real, a1: real, b1: real)
    requires SiblingOk(t, stack) && SamePlace(t, s) && ChosenOk(s) && 0 <= i < |moves|
    requires forall m :: m in moves ==> Fits(s, m) && DestClear(m, stack)
    requires 0 <= depth < depthMax && InRange(pv)
    requires (v, u) == Step(t, s, stack, moves[i], depth, depthMax, max, a, b)
    requires pv1 == (if Improves(v, pv, max) then v else pv)
    requires a1 == (if max && pv1 > a then pv1 else a) && b1 == (if !max && pv1 < b then pv1 else b)
    ensures SiblingOk(u, stack) && SamePlace(u, s) && InRange(pv1)
    ensures Loop(t, s, stack, moves, i, depth, depthMax, max, a, b, pv) ==
            if a1 >= b1 then (pv1, u) else Loop(u, s, stack, moves, i + 1, depth, depthMax, max, a1, b1, pv1)
  {
    assert moves[i] in moves;
    SamePlaceTrans(u, t, s);
    LoopEquation(t, s, stack, moves, i, depth, depthMax, max, a, b, pv, v, u, pv1, a1, b1);
  }

  /** LoopUnfold's equation, once the board after the pass is known to hold the node's position. */
  lemma LoopEquation(t: State, s: State, stack: seq<Move>, moves: seq<Move>, i: int, depth: int, depthMax: int,
                     max: bool, a: real, b: real, pv: real, v: real, u: State, pv1: real, a1: real, b1: real)
    requires SiblingOk(t, stack) && SamePlace(t, s) && ChosenOk(s) && 0 <= i < |moves|
    requires forall m :: m in moves ==> Fits(s, m) && DestClear(m, stack)
    requires 0 <= depth < depthMax && InRange(pv) && moves[i] in moves
    requires (v, u) == Step(t, s, stack, moves[i], depth, depthMax, max, a, b)
    requires SiblingOk(u, stack) && SamePlace(u, s) && InRange(pv1)
    requires pv1 == (if Improves(v, pv, max) then v else pv)
    requires a1 == (if max && pv1 > a then pv1 else a) && b1 == (if !max && pv1 < b then pv1 else b)
    ensures Loop(t, s, stack, moves, i, depth, depthMax, max, a, b, pv) ==
            if a1 >= b1 then (pv1, u) else Loop(u, s, stack, moves, i + 1, depth, depthMax, max, a1, b1, pv1)
  {
  }

  /** LoopTree from the i-th move: the tree of that move, then the trees after a cut-off or the loop's from the next move. */
  lemma LoopTreeEquation(t: State, s: State, stack: seq<Move>, moves: seq<Move>, i: int, depth: int, depthMax: int,
                         max: bool, a: real, b: real, pv: real, v: real, u: State, pv1: real, a1: real, b1: real)
    requires SiblingOk(t, stack) && SamePlace(t, s) && ChosenOk(s) && 0 <= i < |moves|
    requires forall m :: m in moves ==> Fits(s, m) && DestClear(m, stack)
    requires 0 <= depth < depthMax && InRange(pv) && moves[i] in moves
    requires (v, u) == Step(t, s, stack, moves[i], depth, depthMax, max, a, b)
    requires SiblingOk(u, stack) && SamePlace(u, s) && InRange(pv1)
    requires pv1 == (if Improves(v, pv, max) then v else pv)
    requires a1 == (if max && pv1 > a then pv1 else a) && b1 == (if !max && pv1 < b then pv1 else b)
    ensures LoopTree(t, s, stack, moves, i, depth, depthMax, max, a, b, pv) ==
            [StepTree(t, s, stack, moves[i], depth, depthMax, max, a, b)] +
            if a1 >= b1 then PlainLoop(u, s, stack, moves, i + 1, depth, depthMax, max)
            else LoopTree(u, s, stack, moves, i + 1, depth, depthMax, max, a1, b1, pv1)
  {
  }

  /** Step's value is the alpha-beta search of the tree StepTree gives. */
  lemma {:induction false} StepSearches(t: State, s0: State, stack: seq<Move>, m: Move,
                                        depth: int, depthMax: int, max: bool, alpha: real, beta: real)
    requires SiblingOk(t, stack) && SamePlace(t, s0) && ChosenOk(s0) && Fits(s0, m) && DestClear(m, stack)
    requires 0 <= depth < depthMax
    ensures Step(t, s0, stack, m, depth, depthMax, max, alpha, beta).0 == AlphaBeta(StepTree(t, s0, stack, m, depth, depthMax, max, alpha, beta), alpha, beta)
    decreases depthMax - depth, Alive(s0), 0, 0
  {
    var r, q := StepBelow(t, s0, stack, m, depth, depthMax, max, alpha, beta);
    if q.isOnStreak {
      NodeSearches(q, r, depth, depthMax, max, alpha, beta);
    } else {
      NodeSearches(q, r, depth + 1, depthMax, !max, alpha, beta);
    }
  }

  /**
   * Step and StepTree both go below the position q that m makes on t, with
   * the stack `below` it is made with: at the same depth and for the same
   * side while a streak goes on (when a piece was taken), one level deeper
   * for the other side otherwise.
   */
  lemma StepBelow(t: State, s0: State, stack: seq<Move>, m: Move,
                  depth: int, depthMax: int, max: bool, alpha: real, beta: real) returns (below: seq<Move>, q: State)
    requires SiblingOk(t, stack) && SamePlace(t, s0) && ChosenOk(s0) && Fits(s0, m) && DestClear(m, stack)
    requires 0 <= depth < depthMax
    ensures NodeOk(q, below) && (q.isOnStreak ==> Alive(q) < Alive(s0))
    ensures if q.isOnStreak then
        Step(t, s0, stack, m, depth, depthMax, max, alpha, beta).0 == Node(q, below, depth, depthMax, max, alpha, beta).0 &&
        StepTree(t, s0, stack, m, depth, depthMax, max, alpha, beta) == NodeTree(q, below, depth, depthMax, max, alpha, beta)
      else
        Step(t, s0, stack, m, depth, depthMax, max, alpha, beta).0 == Node(q, below, depth + 1, depthMax, !max, alpha, beta).0 &&
        StepTree(t, s0, stack, m, depth, depthMax, max, alpha, beta) == NodeTree(q, below, depth + 1, depthMax, !max, alpha, beta)
  {
    FitsTransfer(s0, t, m);
    MakeOk(t, stack, m);
    below := stack + [Record(m, MakeTrace(t, m))];
    q := Make(t, m);
  }

  /**
   * miniMaxAlphaBeta against plain minimax: in a window (alpha, beta), a
   * value strictly inside is the minimax value of the tree the search went
   * through, a value at or below alpha is an upper bound of it and one at or
   * above beta a lower bound.
   */
  lemma NodeIsMinimax(s: State, stack: seq<Move>, depth: int, depthMax: int, max: bool, alpha: real, beta: real)
    requires NodeOk(s, stack) && 0 <= depth <= depthMax && alpha < beta
    ensures FailSoft(Node(s, stack, depth, depthMax, max, alpha, beta).0,
                     MinimaxValue(NodeTree(s, stack, depth, depthMax, max, alpha, beta)), alpha, beta)
  {
    NodeSearches(s, stack, depth, depthMax, max, alpha, beta);
    AlphaBetaWindow(NodeTree(s, stack, depth, depthMax, max, alpha, beta), alpha, beta);
  }

  // ---------------------------------------------------------------------------
  // findBestMove

  /**
   * findBestMove: no move when there is none, the only move without a
   * search, and otherwise the first move whose value beats every earlier
   * one, searched one level down for the side the move leaves to play.
   */
  ghost function Root(s: State, stack: seq<Move>, depthMax: int): (res: (Option<Move>, State))
    requires NodeOk(s, stack) && 1 <= depthMax
    ensures SamePlace(res.1, s) && SiblingOk(res.1, stack)
    ensures res.0.None? <==> Generate(s).moves == []
    ensures |Generate(s).moves| == 1 ==> res.0 == Some(Generate(s).moves[0])
    ensures res.0.Some? ==> res.0.value in Generate(s).moves
  {
    GenerateOk(s, stack);
    var moves := Generate(s).moves;
    if moves == [] then (None, Generated(s))
    else if |moves| == 1 then (Some(moves[0]), Generated(s))
    else
      var (best, u) := BestLoop(Generated(s), s, stack, moves, 0, depthMax, moves[0], MIN_POS_VAL);
      SamePlaceTrans(u, Generated(s), s);
      (Some(best), u)
  }

  /**
   * findBestMove's loop from the i-th move on, on the board t, with the best
   * move and value so far; a value equal to MAX_POS_VAL is a win and ends the
   * loop.
   */
  ghost function BestLoop(t: State, s0: State, stack: seq<Move>, moves: seq<Move>, i: int, depthMax: int,
                          best: Move, bestValue: real): (res: (Move, State))
    requires SiblingOk(t, stack) && SamePlace(t, s0) && ChosenOk(s0) && 0 <= i <= |moves| && 1 <= depthMax
    requires forall m :: m in moves ==> Fits(s0, m) && DestClear(m, stack)
    requires best in moves
    ensures SamePlace(res.1, t) && SiblingOk(res.1, stack) && res.0 in moves
    decreases |moves| - i
  {
    if i == |moves| then (best, t)
    else
      assert moves[i] in moves;
      var (v, u) := RootStep(t, s0, stack, moves[i], depthMax, bestValue);
      var res := if v > bestValue && v == MAX_POS_VAL then (moves[i], u)
                 else if v > bestValue then BestLoop(u, s0, stack, moves, i + 1, depthMax, moves[i], v)
                 else BestLoop(u, s0, stack, moves, i + 1, depthMax, best, bestValue);
      SamePlaceTrans(res.1, u, t);
      res
  }

  /** One move of findBestMove: made, searched from depth 1 in the window (bestValue, MAX_POS_VAL), taken back. */
  ghost function RootStep(t: State, s0: State, stack: seq<Move>, m: Move, depthMax: int, bestValue: real): (res: (real, State))
    requires SiblingOk(t, stack) && SamePlace(t, s0) && ChosenOk(s0) && Fits(s0, m) && DestClear(m, stack)
    requires 1 <= depthMax
    ensures SamePlace(res.1, t) && SiblingOk(res.1, stack) && InRange(res.0)
  {
    FitsTransfer(s0, t, m);
    MakeOk(t, stack, m);
    var r := Record(m, MakeTrace(t, m));
    var q := Make(t, m);
    var below := Node(q, stack + [r], 1, depthMax, q.isOnStreak, bestValue, MAX_POS_VAL);
    LandingSame(t, r, q, below.1);
    UndoOk(t, stack, m, r, below.1);
    (below.0, Undo(below.1, stack, r))
  }

  /** The tree RootStep searches below the move m: the node after m, in the window (bestValue, MAX_POS_VAL). */
  ghost function RootStepTree(t: State, s0: State, stack: seq<Move>, m: Move, depthMax: int, bestValue: real): Tree
    requires SiblingOk(t, stack) && SamePlace(t, s0) && ChosenOk(s0) && Fits(s0, m) && DestClear(m, stack)
    requires 1 <= depthMax
  {
    FitsTransfer(s0, t, m);
    MakeOk(t, stack, m);
    var r := Record(m, MakeTrace(t, m));
    var q := Make(t, m);
    NodeTree(q, stack + [r], 1, depthMax, q.isOnStreak, bestValue, MAX_POS_VAL)
  }

  /** A root candidate's value against the plain minimax value of the tree searched below it. */
  lemma StepWindow(t: State, s0: State, stack: seq<Move>, m: Move, depthMax: int, bestValue: real)
    requires SiblingOk(t, stack) && SamePlace(t, s0) && ChosenOk(s0) && Fits(s0, m) && DestClear(m, stack)
    requires 1 <= depthMax && bestValue < MAX_POS_VAL
    ensures FailSoft(RootStep(t, s0, stack, m, depthMax, bestValue).0,
                     MinimaxValue(RootStepTree(t, s0, stack, m, depthMax, bestValue)), bestValue, MAX_POS_VAL)
  {
    FitsTransfer(s0, t, m);
    MakeOk(t, stack, m);
    var r := Record(m, MakeTrace(t, m));
    var q := Make(t, m);
    NodeIsMinimax(q, stack + [r], 1, depthMax, q.isOnStreak, bestValue, MAX_POS_VAL);
  }

  /**
   * The values findBestMove's loop gets for the moves it searches from the
   * i-th on, in order; the last is MAX_POS_VAL when the loop stopped early.
   */
  ghost function RootScores(t: State, s0: State, stack: seq<Move>, moves: seq<Move>, i: int, depthMax: int,
                            bestValue: real): seq<real>
    requires SiblingOk(t, stack) && SamePlace(t, s0) && ChosenOk(s0) && 0 <= i <= |moves| && 1 <= depthMax
    requires forall m :: m in moves ==> Fits(s0, m) && DestClear(m, stack)
    decreases |moves| - i
  {
    if i == |moves| then []
    else
      assert moves[i] in moves;
      var (v, u) := RootStep(t, s0, stack, moves[i], depthMax, bestValue);
      if v > bestValue && v == MAX_POS_VAL then [v]
      else [v] + RootScores(u, s0, stack, moves, i + 1, depthMax, if v > bestValue then v else bestValue)
  }

  /** The trees searched below those moves, in the same order. */
  ghost function RootTrees(t: State, s0: State, stack: seq<Move>, moves: seq<Move>, i: int, depthMax: int,
                           bestValue: real): seq<Tree>
    requires SiblingOk(t, stack) && SamePlace(t, s0) && ChosenOk(s0) && 0 <= i <= |moves| && 1 <= depthMax
    requires forall m :: m in moves ==> Fits(s0, m) && DestClear(m, stack)
    decreases |moves| - i
  {
    if i == |moves| then []
    else
      assert moves[i] in moves;
      var (v, u) := RootStep(t, s0, stack, moves[i], depthMax, bestValue);
      var tr := RootStepTree(t, s0, stack, moves[i], depthMax, bestValue);
      if v > bestValue && v == MAX_POS_VAL then [tr]
      else [tr] + RootTrees(u, s0, stack, moves, i + 1, depthMax, if v > bestValue then v else bestValue)
  }

  /**
   * k is the candidate findBestMove keeps among the values vs (trees ts)
   * searched after bestValue: its value beats bestValue and every earlier
   * value, no later value beats it, and the minimax value of its tree is at
   * least its value and at least that of every tree searched.
   */
  ghost predicate FirstBest(vs: seq<real>, ts: seq<Tree>, k: int, bestValue: real) {
    0 <= k < |vs| == |ts| && bestValue < vs[k] <= MinimaxValue(ts[k]) &&
    (forall j :: 0 <= j < k ==> vs[j] < vs[k]) &&
    (forall j :: k < j < |vs| ==> vs[j] <= vs[k]) &&
    (forall j :: 0 <= j < |ts| ==> MinimaxValue(ts[j]) <= MinimaxValue(ts[k]))
  }

  /**
   * findBestMove's loop from the i-th move on, started with best and
   * bestValue, got the values vs (trees ts) and kept c: it searched no move
   * after a MAX_POS_VAL value; when no value beat bestValue it kept best (and
   * every tree's minimax value is at most bestValue); otherwise it kept the
   * first best candidate.
   */
  ghost predicate KeepsBest(vs: seq<real>, ts: seq<Tree>, moves: seq<Move>, i: int, c: Move, best: Move, bestValue: real)
    requires 0 <= i
  {
    |ts| == |vs| <= |moves| - i &&
    (|vs| < |moves| - i ==> |vs| > 0 && vs[|vs| - 1] == MAX_POS_VAL) &&
    (forall j :: 0 <= j < |vs| - 1 ==> vs[j] < MAX_POS_VAL) &&
    ((forall j :: 0 <= j < |vs| ==> vs[j] <= bestValue) ==>
       c == best && forall j :: 0 <= j < |ts| ==> MinimaxValue(ts[j]) <= bestValue) &&
    ((exists j :: 0 <= j < |vs| && vs[j] > bestValue) ==>
       exists k :: FirstBest(vs, ts, k, bestValue) && c == moves[i + k])
  }

  /** A win found by the i-th move ends the loop with that move. */
  lemma StopChoice(v: real, tr: Tree, moves: seq<Move>, i: int, best: Move, bestValue: real)
    requires 0 <= i < |moves| && bestValue < v == MAX_POS_VAL
    requires FailSoft(v, MinimaxValue(tr), bestValue, MAX_POS_VAL)
    ensures KeepsBest([v], [tr], moves, i, moves[i], best, bestValue)
  {
    assert FirstBest([v], [tr], 0, bestValue);
  }

  /** A move searched without a win, in front of the rest of the loop: the case where it beats bestValue. */
  lemma ShiftBetter(v: real, tr: Tree, vs1: seq<real>, ts1: seq<Tree>, moves: seq<Move>, i: int, c: Move,
                    best: Move, bestValue: real)
    requires 0 <= i < |moves| && bestValue < v < MAX_POS_VAL && MinimaxValue(tr) == v
    requires KeepsBest(vs1, ts1, moves, i + 1, c, moves[i], v)
    ensures KeepsBest([v] + vs1, [tr] + ts1, moves, i, c, best, bestValue)
  {
    var vs, ts := [v] + vs1, [tr] + ts1;
    assert forall j :: 1 <= j < |vs| ==> vs[j] == vs1[j - 1];
    assert forall j :: 1 <= j < |ts| ==> ts[j] == ts1[j - 1];
    if exists j :: 0 <= j < |vs1| && vs1[j] > v {
      var k :| FirstBest(vs1, ts1, k, v) && c == moves[i + 1 + k];
      assert FirstBest(vs, ts, k + 1, bestValue);
    } else {
      assert FirstBest(vs, ts, 0, bestValue);
    }
  }

  /** The same, where the move does not beat bestValue. */
  lemma ShiftWorse(v: real, tr: Tree, vs1: seq<real>, ts1: seq<Tree>, moves: seq<Move>, i: int, c: Move,
                   best: Move, bestValue: real)
    requires 0 <= i < |moves| && v <= bestValue < MAX_POS_VAL && MinimaxValue(tr) <= v
    requires KeepsBest(vs1, ts1, moves, i + 1, c, best, bestValue)
    ensures KeepsBest([v] + vs1, [tr] + ts1, moves, i, c, best, bestValue)
  {
    var vs, ts := [v] + vs1, [tr] + ts1;
    assert forall j :: 1 <= j < |vs| ==> vs[j] == vs1[j - 1];
    assert forall j :: 1 <= j < |ts| ==> ts[j] == ts1[j - 1];
    if exists j :: 0 <= j < |vs1| && vs1[j] > bestValue {
      var k :| FirstBest(vs1, ts1, k, bestValue) && c == moves[i + 1 + k];
      assert FirstBest(vs, ts, k + 1, bestValue);
    }
  }

  /**
   * One turn of findBestMove's loop at the i-th move: its value v against
   * the tree tr below it, the board u it leaves, and how the values, the
   * trees and the move kept continue from there.
   */
  lemma RootTurn(t: State, s0: State, stack: seq<Move>, moves: seq<Move>, i: int, depthMax: int,
                 best: Move, bestValue: real) returns (v: real, u: State, tr: Tree)
    requires SiblingOk(t, stack) && SamePlace(t, s0) && ChosenOk(s0) && 0 <= i < |moves| && 1 <= depthMax
    requires forall m :: m in moves ==> Fits(s0, m) && DestClear(m, stack)
    requires best in moves && bestValue < MAX_POS_VAL
    ensures SiblingOk(u, stack) && SamePlace(u, s0) && InRange(v)
    ensures FailSoft(v, MinimaxValue(tr), bestValue, MAX_POS_VAL)
    ensures v > bestValue && v == MAX_POS_VAL ==>
      RootScores(t, s0, stack, moves, i, depthMax, bestValue) == [v] &&
      RootTrees(t, s0, stack, moves, i, depthMax, bestValue) == [tr] &&
      BestLoop(t, s0, stack, moves, i, depthMax, best, bestValue).0 == moves[i]
    ensures !(v > bestValue && v == MAX_POS_VAL) ==>
      var b1 := if v > bestValue then v else bestValue;
      var best1 := if v > bestValue then moves[i] else best;
      RootScores(t, s0, stack, moves, i, depthMax, bestValue) == [v] + RootScores(u, s0, stack, moves, i + 1, depthMax, b1) &&
      RootTrees(t, s0, stack, moves, i, depthMax, bestValue) == [tr] + RootTrees(u, s0, stack, moves, i + 1, depthMax, b1) &&
      BestLoop(t, s0, stack, moves, i, depthMax, best, bestValue).0 == BestLoop(u, s0, stack, moves, i + 1, depthMax, best1, b1).0
  {
    assert moves[i] in moves;
    var res := RootStep(t, s0, stack, moves[i], depthMax, bestValue);
    v, u := res.0, res.1;
    tr := RootStepTree(t, s0, stack, moves[i], depthMax, bestValue);
    StepWindow(t, s0, stack, moves[i], depthMax, bestValue);
    SamePlaceTrans(u, t, s0);
  }

  /**
   * Which move findBestMove's loop keeps from the i-th move on, with best
   * and bestValue so far, in terms of the values it gets and the trees it
   * searches (KeepsBest).
   */
  lemma {:induction false} BestLoopChoice(t: State, s0: State, stack: seq<Move>, moves: seq<Move>, i: int, depthMax: int,
                                          best: Move, bestValue: real)
    requires SiblingOk(t, stack) && SamePlace(t, s0) && ChosenOk(s0) && 0 <= i <= |moves| && 1 <= depthMax
    requires forall m :: m in moves ==> Fits(s0, m) && DestClear(m, stack)
    requires best in moves && bestValue < MAX_POS_VAL
    ensures KeepsBest(RootScores(t, s0, stack, moves, i, depthMax, bestValue),
                      RootTrees(t, s0, stack, moves, i, depthMax, bestValue), moves, i,
                      BestLoop(t, s0, stack, moves, i, depthMax, best, bestValue).0, best, bestValue) == true
    decreases |moves| - i
  {
    if i < |moves| {
      var v, u, tr := RootTurn(t, s0, stack, moves, i, depthMax, best, bestValue);
      if v > bestValue && v == MAX_POS_VAL {
        StopChoice(v, tr, moves, i, best, bestValue);
      } else {
        var b1 := if v > bestValue then v else bestValue;
        var best1 := if v > bestValue then moves[i] else best;
        assert moves[i] in moves;
        BestLoopChoice(u, s0, stack, moves, i + 1, depthMax, best1, b1);
        var vs1 := RootScores(u, s0, stack, moves, i + 1, depthMax, b1);
        var ts1 := RootTrees(u, s0, stack, moves, i + 1, depthMax, b1);
        var c := BestLoop(u, s0, stack, moves, i + 1, depthMax, best1, b1).0;
        if v > bestValue {
          ShiftBetter(v, tr, vs1, ts1, moves, i, c, best, bestValue);
        } else {
          ShiftWorse(v, tr, vs1, ts1, moves, i, c, best, bestValue);
        }
      }
    }
  }

  /**
   * findBestMove with two moves or more: moves[0] is the default, the moves
   * after a MAX_POS_VAL value are not searched, and the move chosen is the
   * first whose value beats MIN_POS_VAL and every earlier value and is not
   * beaten later; the plain minimax value of the tree searched below it is
   * at least that of the tree below every other searched move.
   */
  lemma RootBest(s: State, stack: seq<Move>, depthMax: int)
    requires NodeOk(s, stack) && 1 <= depthMax && |Generate(s).moves| >= 2
    ensures KeepsBest(RootSearched(s, stack, depthMax).0, RootSearched(s, stack, depthMax).1, Generate(s).moves, 0,
                      Root(s, stack, depthMax).0.value, Generate(s).moves[0], MIN_POS_VAL)
  {
    GenerateOk(s, stack);
    var moves := Generate(s).moves;
    assert moves[0] in moves;
    BestLoopChoice(Generated(s), s, stack, moves, 0, depthMax, moves[0], MIN_POS_VAL);
    assert Root(s, stack, depthMax).0 == Some(BestLoop(Generated(s), s, stack, moves, 0, depthMax, moves[0], MIN_POS_VAL).0);
  }

  /** The values findBestMove gets for the moves it searches, and the trees below them. */
  ghost function RootSearched(s: State, stack: seq<Move>, depthMax: int): (seq<real>, seq<Tree>)
    requires NodeOk(s, stack) && 1 <= depthMax
  {
    GenerateOk(s, stack);
    var moves := Generate(s).moves;
    (RootScores(Generated(s), s, stack, moves, 0, depthMax, MIN_POS_VAL),
     RootTrees(Generated(s), s, stack, moves, 0, depthMax, MIN_POS_VAL))
  }

  // ---------------------------------------------------------------------------
  // play

  /**
   * play: findBestMove searches with the computer playing, the flag is
   * cleared, and the move found is made; with no move the user has won.
   * The result is the move found and the board afterwards.
   */
  ghost function Played(s: State, stack: seq<Move>, depthMax: int): (res: (Option<Move>, State))
    requires NodeOk(s.(isComputerPlaying := true), stack) && 1 <= depthMax
    ensures var p := s.(isComputerPlaying := true);
      (res.0.None? <==> Generate(p).moves == []) &&
      (res.0.None? ==> res.1.outcome == UserWins && SameBoard(res.1.g, s.g) && res.1.turn == s.turn) &&
      (res.0.Some? ==> res.0.value in Generate(p).moves) &&
      (|Generate(p).moves| == 1 ==> res.0 == Some(Generate(p).moves[0]))
  {
    var p := s.(isComputerPlaying := true);
    var (best, u) := Root(p, stack, depthMax);
    var w := u.(isComputerPlaying := false);
    if best.None? then (best, w.(outcome := UserWins))
    else
      GenerateOk(p, stack);
      FitsTransfer(p, u, best.value);
      MakeOk(u, stack, best.value);
      DefinedOff(u, best.value);
      (best, Make(w, best.value))
  }

  /** The move play makes, with two moves or more, is the one findBestMove keeps (RootBest). */
  lemma PlayedBest(s: State, stack: seq<Move>, depthMax: int)
    requires NodeOk(s.(isComputerPlaying := true), stack) && 1 <= depthMax
    requires |Generate(s.(isComputerPlaying := true)).moves| >= 2
    ensures var p := s.(isComputerPlaying := true);
      KeepsBest(RootSearched(p, stack, depthMax).0, RootSearched(p, stack, depthMax).1, Generate(p).moves, 0,
                Played(s, stack, depthMax).0.value, Generate(p).moves[0], MIN_POS_VAL)
  {
    var p := s.(isComputerPlaying := true);
    RootBest(p, stack, depthMax);
    assert Played(s, stack, depthMax).0 == Root(p, stack, depthMax).0;
  }

  /** The move the search finds can be made once isComputerPlaying is cleared. */
  lemma PlayReady(s: State, stack: seq<Move>, depthMax: int)
    requires NodeOk(s.(isComputerPlaying := true), stack) && 1 <= depthMax
    ensures var res := Root(s.(isComputerPlaying := true), stack, depthMax);
      var w := res.1.(isComputerPlaying := false);
      (res.0.Some? ==> MakeDefined(w, res.0.value) && MakeReady(w, res.0.value)) &&
      Played(s, stack, depthMax) == if res.0.None? then (res.0, w.(outcome := UserWins)) else (res.0, Make(w, res.0.value))
  {
    var p := s.(isComputerPlaying := true);
    var (best, u) := Root(p, stack, depthMax);
    if best.Some? {
      GenerateOk(p, stack);
      FitsTransfer(p, u, best.value);
      MakeOk(u, stack, best.value);
      DefinedOff(u, best.value);
      ReadyOff(u, best.value);
    }
  }

  /** Whether makeMove's move is legal does not depend on isComputerPlaying. */
  lemma ReadyOff(u: State, m: Move)
    requires MakeReady(u, m)
    ensures MakeReady(u.(isComputerPlaying := false), m)
  {
    var c := Choose(u, m);
    var d := c.(isComputerPlaying := false);
    assert Choose(u.(isComputerPlaying := false), m) == d;
    WellFormedOff(c, d);
    if m.isCapture && !LegalManCapture(c, m.toRow, m.toCol) {
      KingCaptureOff(c, d, m.toRow, m.toCol);
    }
  }

  /** Being well formed does not depend on isComputerPlaying. */
  lemma WellFormedOff(c: State, d: State)
    requires WellFormed(c) && d == c.(isComputerPlaying := false)
    ensures WellFormed(d)
  {
    assert CountersMatch(d) == CountersMatch(c);
  }

  /** Nor does the legality of a king's capture. */
  lemma KingCaptureOff(c: State, d: State, tr: int, tc: int)
    requires LegalKingCapture(c, tr, tc) && d == c.(isComputerPlaying := false)
    ensures LegalKingCapture(d, tr, tc)
  {
    assert CapturePrep(d) == CapturePrep(c).(isComputerPlaying := false);
    assert KingLanded(CapturePrep(d), tr, tc) == KingLanded(CapturePrep(c), tr, tc);
  }

  /** Whether makeMove is defined does not depend on isComputerPlaying. */
  lemma DefinedOff(u: State, m: Move)
    requires MakeDefined(u, m)
    ensures MakeDefined(u.(isComputerPlaying := false), m)
  {
    var w := u.(isComputerPlaying := false);
    if m.isCapture {
      assert Choose(w, m) == Choose(u, m).(isComputerPlaying := false);
      assert CapturePrep(Choose(w, m)) == CapturePrep(Choose(u, m)).(isComputerPlaying := false);
    }
  }

  // ---------------------------------------------------------------------------
  // The range of the static value

  /** The static value of a well-formed position lies between MIN_POS_VAL and MAX_POS_VAL. */
  lemma EvalRange(s: State)
    requires WellFormed(s)
    ensures InRange(Eval(s))
  {
    HeuristicWithin(s);
  }

  // ---------------------------------------------------------------------------
  // What undoMove needs

  /**
   * What undoMove needs of the board s and of the popped move m: the move's
   * squares on the board, a move on a streak was a capture of a piece other
   * than the mover and left the mover on its destination, and when m ended a
   * streak the victims of the run under it are on the board, off the
   * destination.
   */
  ghost predicate UndoReady(s: State, stack: seq<Move>, m: Move) {
    In(s.n, m.fromRow, m.fromCol) && In(s.n, m.toRow, m.toCol) &&
    (m.isCapture ==> In(s.n, m.capturedRow, m.capturedCol)) &&
    (m.wasOnStreak ==> m.isCapture && (m.capturedRow != m.fromRow || m.capturedCol != m.fromCol) &&
                       IsPiece(At(s.g, m.toRow, m.toCol), m.turn)) &&
    (!s.isOnStreak && m.wasOnStreak ==>
       forall v :: v in TopRun(stack) ==>
         In(s.n, v.capturedRow, v.capturedCol) && (v.capturedRow != m.toRow || v.capturedCol != m.toCol))
  }

  /** In the search, the record popped after the search below it is one undoMove can take back. */
  lemma UndoReadyOk(p: State, stack: seq<Move>, m: Move, r: Move, q: State)
    requires SiblingOk(p, stack) && Fits(p, m) && DestClear(m, stack) && RecordOk(p, m, r)
    requires Landing(p, r, q)
    ensures UndoReady(q, stack, r)
  {
    RecordUndoable(p, stack, m, r);
    assert Occupy(At(q.g, r.toRow, r.toCol)) == AfterOcc(p, r, r.toRow, r.toCol);
    if r.wasOnStreak && !r.turn && |stack| > 0 {
      TopRunEmpty(stack);
    }
    if r.wasOnStreak && r.turn {
      forall v | v in TopRun(stack)
        ensures In(q.n, v.capturedRow, v.capturedCol)
      {
        assert At(p.g, v.capturedRow, v.capturedCol) == DeadWhite;
      }
    }
  }
}
