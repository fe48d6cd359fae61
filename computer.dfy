/**
 * The computer player (Computer.java) on the board object: generateMoves,
 * makeMove, undoMove, evaluatePosition, miniMaxAlphaBeta, findBestMove and
 * play, each proved to compute the function of search.dfy and minimax.dfy
 * that states what it does.
 */
module Player {
  import opened Tiles
  import opened Grids
  import opened Rules
  import opened Marks
  import opened Engine
  import opened Search
  import opened Generation
  import opened Takeback
  import opened Making
  import opened Undoing
  import opened Minimax
  import opened Board

  /** One square of the read-back: a Red square adds its move to those found so far. */
  lemma MovesToStep(g: Grid, n: int, k: int, l: int, pre: seq<Move>, fr: int, fc: int, mwp: int, cap: bool, streak: bool, turn: bool)
    requires 0 <= k < n && 0 <= l < n
    ensures pre + MovesTo(RedsFrom(g, n, k, l), fr, fc, mwp, cap, streak, turn) ==
            (if At(g, k, l) == Red then pre + [NewMove(fr, fc, k, l, mwp, cap, streak, turn)] else pre) +
            MovesTo(RedsFrom(g, n, k, l + 2), fr, fc, mwp, cap, streak, turn)
  {
    var rest := RedsFrom(g, n, k, l + 2);
    if At(g, k, l) == Red {
      assert RedsFrom(g, n, k, l) == [(k, l)] + rest;
      assert ([(k, l)] + rest)[1..] == rest;
    } else {
      assert RedsFrom(g, n, k, l) == [] + rest;
      assert [] + rest == rest;
    }
  }

  /** The end of a row of the read-back: the next row follows. */
  lemma RedsFromRow(g: Grid, n: int, k: int, l: int)
    requires k < n && l >= n
    ensures RedsFrom(g, n, k, l) == RedsFrom(g, n, k + 1, 1 - (k + 1) % 2)
  {
  }

  /** The end of a row of generateMoves's scan: the next row follows. */
  lemma ScanFromRow(s: State, acc: Scan, i: int, j: int)
    requires i < s.n && j >= s.n
    ensures ScanFrom(s, acc, i, j) == ScanFrom(s, acc, i + 1, 1 - (i + 1) % 2)
  {
  }

  /** One square of generateMoves's scan: a piece of the side to move is scanned. */
  lemma ScanFromStep(s: State, acc: Scan, i: int, j: int)
    requires i < s.n && j < s.n
    ensures var t := At(acc.g, i, j);
      ScanFrom(s, acc, i, j) == ScanFrom(s, if t == Pawn(s.turn) || t == Queen(s.turn) then PieceScan(s, acc, i, j) else acc, i, j + 2)
  {
  }

  /** PieceScan, with the marked tiles named. */
  lemma PieceScanIs(s: State, acc: Scan, i: int, j: int, h: Grid)
    requires h == PieceMarks(acc.g, s.n, i, j, s.isForced, s.turn)
    ensures PieceScan(s, acc, i, j) == Scan(acc.moves + MovesTo(Reds(h, s.n), i, j, s.mwp, s.isForced, false, s.turn), MarksOff(h), i, j)
  {
  }

  /** The moves read so far, then the moves to the squares still to read, are all the moves. */
  predicate Owed(done: seq<Move>, rest: seq<(int, int)>, i: int, j: int, mwp: int, cap: bool, streak: bool, turn: bool, all: seq<Move>) {
    done + MovesTo(rest, i, j, mwp, cap, streak, turn) == all
  }

  /** The Red squares of g before (k, l) in reading order have turned Black in c, and nothing else changed. */
  ghost predicate MarkedOffBefore(c: Grid, g: Grid, n: int, k: int, l: int) {
    IsSquare(c, n) && IsSquare(g, n) &&
    forall a, b :: 0 <= a < n && 0 <= b < n ==>
      c[a][b] == (if Before(a, b, k, l) && Playable(a, b) && g[a][b] == Red then Black else g[a][b])
  }

  /**
   * The read-back has done rows 0 to k - 1 of h: their marks are off, and the
   * moves found, followed by the moves to the Red squares still to read, are all of them.
   */
  predicate Scanned(c: Grid, done: seq<Move>, h: Grid, n: int, k: int, i: int, j: int, mwp: int, cap: bool, turn: bool, all: seq<Move>) {
    0 <= k <= n && IsSquare(h, n) && c == MarksOff(h[..k]) + h[k..] &&
    Owed(done, RedsFrom(h, n, k, 1 - k % 2), i, j, mwp, cap, false, turn, all)
  }

  /** Before the read-back: nothing read, and every move still owed. */
  lemma ScanStart(h: Grid, n: int, moves: seq<Move>, i: int, j: int, mwp: int, cap: bool, turn: bool)
    requires IsSquare(h, n)
    ensures Scanned(h, moves, h, n, 0, i, j, mwp, cap, turn, moves + MovesTo(Reds(h, n), i, j, mwp, cap, false, turn))
  {
    assert h[..0] == [] && h[0..] == h;
  }

  /** After the read-back: every mark is off and every move is found. */
  lemma ScanDone(c: Grid, done: seq<Move>, h: Grid, n: int, i: int, j: int, mwp: int, cap: bool, turn: bool, all: seq<Move>)
    requires Scanned(c, done, h, n, n, i, j, mwp, cap, turn, all)
    ensures c == MarksOff(h) && done == all
  {
    assert h[..n] == h && h[n..] == [];
    assert RedsFrom(h, n, n, 1 - n % 2) == [];
    assert done + [] == done;
  }

  /** The rows before k read: the marks on them are off, and the rest is as it was. */
  lemma RowsMarked(c: Grid, h: Grid, n: int, k: int)
    requires IsSquare(h, n) && 0 <= k < n && c == MarksOff(h[..k]) + h[k..]
    ensures MarkedOffBefore(c, h, n, k, 1 - k % 2)
  {
    forall a, b | 0 <= a < n && 0 <= b < n
      ensures c[a][b] == (if Before(a, b, k, 1 - k % 2) && Playable(a, b) && h[a][b] == Red then Black else h[a][b])
    {
      if a < k {
        assert c[a] == MarksOff(h[..k])[a];
        assert h[..k][a] == h[a];
      } else {
        assert c[a] == h[k..][a - k] == h[a];
      }
    }
  }

  /** ... and back: a scan that has reached row k leaves the rows before it marked off. */
  lemma MarkedRows(c: Grid, h: Grid, n: int, k: int)
    requires MarkedOffBefore(c, h, n, k, 1 - k % 2) && 0 < k <= n
    ensures c == MarksOff(h[..k]) + h[k..]
  {
    var d := MarksOff(h[..k]) + h[k..];
    forall a | 0 <= a < n
      ensures c[a] == d[a]
    {
      if a < k {
        assert h[..k][a] == h[a];
        assert d[a] == MarksOff(h[..k])[a];
      } else {
        assert d[a] == h[k..][a - k] == h[a];
      }
      forall b | 0 <= b < n
        ensures c[a][b] == d[a][b]
      {
      }
    }
  }

  /** Reading one square: a Red one turns Black. */
  lemma MarkedOffStep(c: Grid, g: Grid, n: int, k: int, l: int)
    requires MarkedOffBefore(c, g, n, k, l) && 0 <= k < n && 0 <= l < n && (k + l) % 2 == 1
    ensures c[k][l] == g[k][l]
    ensures MarkedOffBefore(if c[k][l] == Red then Set(c, k, l, Black) else c, g, n, k, l + 2)
  {
    var c' := if c[k][l] == Red then Set(c, k, l, Black) else c;
    forall a, b | 0 <= a < n && 0 <= b < n
      ensures c'[a][b] == (if Before(a, b, k, l + 2) && Playable(a, b) && g[a][b] == Red then Black else g[a][b])
    {
      assert At(c', a, b) == c'[a][b];
      if a == k && b == l + 1 {
        assert !Playable(a, b);
      }
    }
  }

  /** The squares a row scan visits are the dark ones. */
  lemma RowParity(k: int, m: int)
    requires 0 <= k
    ensures (k + (1 - k % 2 + 2 * m)) % 2 == 1
  {
  }

  /** The end of a row: the next row starts at its first column. */
  lemma MarkedOffRow(c: Grid, g: Grid, n: int, k: int, l: int)
    requires MarkedOffBefore(c, g, n, k, l) && 0 <= k && l >= n
    ensures MarkedOffBefore(c, g, n, k + 1, 1 - (k + 1) % 2)
  {
    forall a, b | 0 <= a < n && 0 <= b < n
      ensures Before(a, b, k, l) && Playable(a, b) <==> Before(a, b, k + 1, 1 - (k + 1) % 2) && Playable(a, b)
    {
    }
  }

  /** What evaluatePosition adds for row i from column j on: w for each tile t on every second square. */
  function Every2Sum(g: Grid, n: int, i: int, j: int, t: Tile, w: real): real
    decreases n - j
  {
    if j >= n then 0.0 else (if At(g, i, j) == t then w else 0.0) + Every2Sum(g, n, i, j + 2, t, w)
  }

  /** w added k times. */
  function Times(w: real, k: nat): real {
    if k == 0 then 0.0 else w + Times(w, k - 1)
  }

  /** Adding w k times is w * k. */
  lemma {:induction false} TimesIs(w: real, k: nat)
    ensures Times(w, k) == w * k as real
  {
    if k > 0 {
      TimesIs(w, k - 1);
      assert w * k as real == w + w * (k - 1) as real;
    }
  }

  /** Adding w once per tile t is adding it as many times as there are such tiles. */
  lemma {:induction false} Every2SumTimes(g: Grid, n: int, i: int, j: int, t: Tile, w: real)
    ensures Every2Sum(g, n, i, j, t, w) == Times(w, CountEvery2(g, n, i, j, t))
    decreases n - j
  {
    if j < n {
      Every2SumTimes(g, n, i, j + 2, t, w);
    }
  }

  /** What evaluatePosition adds for rows lo to hi - 1, over their playable squares. */
  function RowsSum(g: Grid, n: int, lo: int, hi: int, t: Tile, w: real): real
    decreases hi - lo
  {
    if lo >= hi then 0.0 else Every2Sum(g, n, lo, 1 - lo % 2, t, w) + RowsSum(g, n, lo + 1, hi, t, w)
  }

  /** Two rows of evaluatePosition's men count: the sum of the rows. */
  lemma TwoRows(g: Grid, n: int, lo: int, hi: int, t: Tile, w: real)
    requires hi == lo + 2
    ensures RowsSum(g, n, lo, hi, t, w) == Every2Sum(g, n, lo, 1 - lo % 2, t, w) + Every2Sum(g, n, lo + 1, 1 - (lo + 1) % 2, t, w)
  {
    assert RowsSum(g, n, lo + 1, hi, t, w) == Every2Sum(g, n, lo + 1, 1 - (lo + 1) % 2, t, w) + RowsSum(g, n, hi, hi, t, w);
  }

  /** Two rows of the men count, each as its tiles t times the weight w. */
  lemma RowsTimes(g: Grid, n: int, lo: int, hi: int, t: Tile, w: real)
    requires hi == lo + 2
    ensures RowsSum(g, n, lo, hi, t, w) ==
            Times(w, CountEvery2(g, n, lo, 1 - lo % 2, t)) + Times(w, CountEvery2(g, n, lo + 1, 1 - (lo + 1) % 2, t))
  {
    TwoRows(g, n, lo, hi, t, w);
    Every2SumTimes(g, n, lo, 1 - lo % 2, t, w);
    Every2SumTimes(g, n, lo + 1, 1 - (lo + 1) % 2, t, w);
  }

  /**
   * evaluatePosition's men count, row by row with the weight wb of an
   * advanced black man and ww of an advanced white one, then the back rows in
   * the opening, adds up to Advancement.
   */
  lemma AdvancementIs(s: State, wb: real, ww: real, v: real, v1: real, v2: real)
    requires wb == (if StartGame(s) then -0.15 else 0.25) && ww == (if StartGame(s) then 0.15 else -0.25)
    requires v1 == v + RowsSum(s.g, s.n, s.n - 3, s.n - 1, BlackPawn, wb) + RowsSum(s.g, s.n, 1, 3, WhitePawn, ww)
    requires v2 == if StartGame(s) then v1 + Every2Sum(s.g, s.n, 0, 1, BlackPawn, 0.2) + Every2Sum(s.g, s.n, s.n - 1, s.n % 2, WhitePawn, -0.2)
                   else v1
    ensures v2 == v + Advancement(s)
  {
    if StartGame(s) {
      OpeningIs(s, v, v1, v2);
    } else {
      LateIs(s, v, v1, v2);
    }
  }

  /** AdvancementIs in the opening. */
  lemma OpeningIs(s: State, v: real, v1: real, v2: real)
    requires StartGame(s)
    requires v1 == v + RowsSum(s.g, s.n, s.n - 3, s.n - 1, BlackPawn, -0.15) + RowsSum(s.g, s.n, 1, 3, WhitePawn, 0.15)
    requires v2 == v1 + Every2Sum(s.g, s.n, 0, 1, BlackPawn, 0.2) + Every2Sum(s.g, s.n, s.n - 1, s.n % 2, WhitePawn, -0.2)
    ensures v2 == v + Advancement(s)
  {
    RowsTimes(s.g, s.n, s.n - 3, s.n - 1, BlackPawn, -0.15);
    RowsTimes(s.g, s.n, 1, 3, WhitePawn, 0.15);
    Every2SumTimes(s.g, s.n, 0, 1, BlackPawn, 0.2);
    Every2SumTimes(s.g, s.n, s.n - 1, s.n % 2, WhitePawn, -0.2);
    AdvancementOpening(s, BlackMenOnRow(s.g, s.n, s.n - 3), BlackMenOnRow(s.g, s.n, s.n - 2),
                       WhiteMenOnRow(s.g, s.n, 1), WhiteMenOnRow(s.g, s.n, 2),
                       CountEvery2(s.g, s.n, 0, 1, BlackPawn), CountEvery2(s.g, s.n, s.n - 1, s.n % 2, WhitePawn));
  }

  /** AdvancementIs after the opening. */
  lemma LateIs(s: State, v: real, v1: real, v2: real)
    requires !StartGame(s)
    requires v1 == v + RowsSum(s.g, s.n, s.n - 3, s.n - 1, BlackPawn, 0.25) + RowsSum(s.g, s.n, 1, 3, WhitePawn, -0.25)
    requires v2 == v1
    ensures v2 == v + Advancement(s)
  {
    RowsTimes(s.g, s.n, s.n - 3, s.n - 1, BlackPawn, 0.25);
    RowsTimes(s.g, s.n, 1, 3, WhitePawn, -0.25);
    AdvancementLate(s, BlackMenOnRow(s.g, s.n, s.n - 3), BlackMenOnRow(s.g, s.n, s.n - 2),
                    WhiteMenOnRow(s.g, s.n, 1), WhiteMenOnRow(s.g, s.n, 2));
  }

  /** Advancement in the opening, from the men counts of its rows. */
  lemma AdvancementOpening(s: State, b1: nat, b2: nat, w1: nat, w2: nat, k: nat, l: nat)
    requires StartGame(s)
    requires b1 == BlackMenOnRow(s.g, s.n, s.n - 3) && b2 == BlackMenOnRow(s.g, s.n, s.n - 2)
    requires w1 == WhiteMenOnRow(s.g, s.n, 1) && w2 == WhiteMenOnRow(s.g, s.n, 2)
    requires k == CountEvery2(s.g, s.n, 0, 1, BlackPawn) && l == CountEvery2(s.g, s.n, s.n - 1, s.n % 2, WhitePawn)
    ensures Advancement(s) == Times(-0.15, b1) + Times(-0.15, b2) + Times(0.15, w1) + Times(0.15, w2) + Times(0.2, k) + Times(-0.2, l)
  {
    assert Advancement(s) == -0.15 * (b1 + b2) as real - -0.15 * (w1 + w2) as real + (0.2 * k as real - 0.2 * l as real);
    OpeningSum(b1, b2, w1, w2, k, l);
  }

  /** The opening's weights, as repeated additions. */
  lemma OpeningSum(b1: nat, b2: nat, w1: nat, w2: nat, k: nat, l: nat)
    ensures -0.15 * (b1 + b2) as real - -0.15 * (w1 + w2) as real + (0.2 * k as real - 0.2 * l as real) ==
            Times(-0.15, b1) + Times(-0.15, b2) + Times(0.15, w1) + Times(0.15, w2) + Times(0.2, k) + Times(-0.2, l)
  {
    MenSum(-0.15, b1, b2);
    MenSum(0.15, w1, w2);
    TimesIs(0.2, k);
    TimesIs(-0.2, l);
    OpeningTerms((b1 + b2) as real, (w1 + w2) as real, k as real, l as real,
                 Times(-0.15, b1), Times(-0.15, b2), Times(0.15, w1), Times(0.15, w2), Times(0.2, k), Times(-0.2, l));
  }

  /** The opening's sum, term by term. */
  lemma OpeningTerms(B: real, W: real, K: real, L: real, x1: real, x2: real, y1: real, y2: real, p: real, q: real)
    requires -0.15 * B == x1 + x2 && 0.15 * W == y1 + y2 && p == 0.2 * K && q == -0.2 * L
    ensures -0.15 * B - -0.15 * W + (0.2 * K - 0.2 * L) == x1 + x2 + y1 + y2 + p + q
  {
  }

  /** Two rows' men at weight w, as repeated additions. */
  lemma MenSum(w: real, a: nat, b: nat)
    ensures w * (a + b) as real == Times(w, a) + Times(w, b)
  {
    TimesIs(w, a);
    TimesIs(w, b);
    TimesIs(w, a + b);
    TimesAdd(w, a, b);
  }

  /** Adding w a times and then b times is adding it a + b times. */
  lemma {:induction false} TimesAdd(w: real, a: nat, b: nat)
    ensures Times(w, a + b) == Times(w, a) + Times(w, b)
  {
    if b > 0 {
      TimesAdd(w, a, b - 1);
    }
  }

  /** Advancement after the opening, from the men counts of its rows. */
  lemma AdvancementLate(s: State, b1: nat, b2: nat, w1: nat, w2: nat)
    requires !StartGame(s)
    requires b1 == BlackMenOnRow(s.g, s.n, s.n - 3) && b2 == BlackMenOnRow(s.g, s.n, s.n - 2)
    requires w1 == WhiteMenOnRow(s.g, s.n, 1) && w2 == WhiteMenOnRow(s.g, s.n, 2)
    ensures Advancement(s) == Times(0.25, b1) + Times(0.25, b2) + Times(-0.25, w1) + Times(-0.25, w2)
  {
    assert Advancement(s) == 0.25 * (b1 + b2) as real - 0.25 * (w1 + w2) as real + 0.0;
    MenSum(0.25, b1, b2);
    MenSum(-0.25, w1, w2);
  }

  /** Undoing the run one capture at a time: the top capture's victim first. */
  lemma ReDeadPush(g: Grid, run: seq<Move>, v: Move, t: Tile)
    ensures ReDead(g, run + [v], t) == ReDead(Set(g, v.capturedRow, v.capturedCol, t), run, t)
  {
    assert (run + [v])[..|run|] == run;
  }

  /** Writing a square twice leaves the second tile. */
  lemma SetTwice(g: Grid, r: int, c: int, t: Tile, u: Tile)
    requires 0 <= r < |g| && 0 <= c < |g[r]|
    ensures Set(Set(g, r, c, t), r, c, u) == Set(g, r, c, u)
  {
    assert Set(g, r, c, t)[r][c := u] == g[r][c := u];
  }

  /**
   * What miniMaxAlphaBeta's loop knows before its i-th pass: the board t holds
   * the node's position s, pv is the best value so far in the window (a, b),
   * and the rest of the loop gives the node's result.
   */
  ghost predicate Searching(t: State, s: State, stack: seq<Move>, moves: seq<Move>, i: int, depth: int, depthMax: int,
                            max: bool, a: real, b: real, pv: real, node: (real, State)) {
    SiblingOk(t, stack) && SamePlace(t, s) && ChosenOk(s) && 0 <= i <= |moves| &&
    (forall m :: m in moves ==> Fits(s, m) && DestClear(m, stack)) && 0 <= depth < depthMax && InRange(pv) &&
    Loop(t, s, stack, moves, i, depth, depthMax, max, a, b, pv) == node
  }

  /** Once every move has been tried, the best so far and the current position are the node's result. */
  lemma SearchDone(t: State, s: State, stack: seq<Move>, moves: seq<Move>, depth: int, depthMax: int,
                   max: bool, a: real, b: real, pv: real, node: (real, State))
    requires Searching(t, s, stack, moves, |moves|, depth, depthMax, max, a, b, pv, node)
    ensures (pv, t) == node
  {
  }

  /** The first pass of miniMaxAlphaBeta's loop starts with the node's own result ahead of it. */
  lemma SearchStart(s: State, stack: seq<Move>, depth: int, depthMax: int, max: bool, alpha: real, beta: real)
    requires NodeOk(s, stack) && 0 <= depth < depthMax && s.mwp != MOVES_FOR_DRAW
    ensures Searching(Generated(s), s, stack, Generate(s).moves, 0, depth, depthMax, max, alpha, beta,
                      if max then MIN_POS_VAL else MAX_POS_VAL, Node(s, stack, depth, depthMax, max, alpha, beta))
  {
    GenerateOk(s, stack);
  }

  /**
   * One pass of miniMaxAlphaBeta's loop: the move's value v, compared by
   * Math.signum with the best so far, narrows the window; the pass either
   * cuts off with the node's result or leaves the next pass to run.
   */
  lemma LoopPass(t: State, s: State, stack: seq<Move>, moves: seq<Move>, i: int, depth: int, depthMax: int,
                 max: bool, a: real, b: real, pv: real, node: (real, State), v: real, u: State, pv1: real, a1: real, b1: real)
    requires Searching(t, s, stack, moves, i, depth, depthMax, max, a, b, pv, node) && i < |moves|
    requires (v, u) == Minimax.Step(t, s, stack, moves[i], depth, depthMax, max, a, b)
    requires pv1 == if Signum(v - pv) == (if max then 1 else -1) then v else pv
    requires a1 == (if max && pv1 > a then pv1 else a) && b1 == (if !max && pv1 < b then pv1 else b)
    ensures a1 >= b1 ==> (pv1, u) == node
    ensures a1 < b1 ==> Searching(u, s, stack, moves, i + 1, depth, depthMax, max, a1, b1, pv1, node)
  {
    assert pv1 == if Improves(v, pv, max) then v else pv;
    LoopUnfold(t, s, stack, moves, i, depth, depthMax, max, a, b, pv, v, u, pv1, a1, b1);
  }

  /**
   * What findBestMove's loop knows before its i-th pass: the board t holds the
   * root position s, best is the move to play so far and bestValue its value,
   * and the rest of the loop gives the move chosen and the board after.
   */
  ghost predicate Choosing(t: State, s: State, stack: seq<Move>, moves: seq<Move>, i: int, depthMax: int,
                           best: Move, bestValue: real, root: (Move, State)) {
    SiblingOk(t, stack) && SamePlace(t, s) && ChosenOk(s) && 0 <= i <= |moves| && 1 <= depthMax &&
    (forall m :: m in moves ==> Fits(s, m) && DestClear(m, stack)) && best in moves &&
    BestLoop(t, s, stack, moves, i, depthMax, best, bestValue) == root
  }

  /** With two moves or more, findBestMove's loop starts on the first with the worst value, and gives findBestMove's result. */
  lemma ChooseStart(t: State, s: State, stack: seq<Move>, moves: seq<Move>, depthMax: int)
    requires NodeOk(s, stack) && 1 <= depthMax && t == Generated(s) && moves == Generate(s).moves && |moves| >= 2
    ensures Root(s, stack, depthMax).0.Some?
    ensures var res := Root(s, stack, depthMax);
      Choosing(t, s, stack, moves, 0, depthMax, moves[0], MIN_POS_VAL, (res.0.value, res.1))
  {
    GenerateOk(s, stack);
    assert moves[0] in moves;
  }

  /** After the last move, findBestMove's loop has its result. */
  lemma ChooseDone(t: State, s: State, stack: seq<Move>, moves: seq<Move>, i: int, depthMax: int,
                   best: Move, bestValue: real, root: (Move, State))
    requires Choosing(t, s, stack, moves, i, depthMax, best, bestValue, root) && i >= |moves|
    ensures (best, t) == root
  {
  }

  /**
   * One pass of findBestMove's loop: a value above the best so far makes the
   * move the one to play, and the value of a won position ends the loop.
   */
  lemma ChoosePass(t: State, s: State, stack: seq<Move>, moves: seq<Move>, i: int, depthMax: int,
                   best: Move, bestValue: real, root: (Move, State), v: real, u: State,
                   best1: Move, bestValue1: real, isOver: bool)
    requires Choosing(t, s, stack, moves, i, depthMax, best, bestValue, root) && i < |moves|
    requires (v, u) == RootStep(t, s, stack, moves[i], depthMax, bestValue)
    requires best1 == (if v > bestValue then moves[i] else best) && bestValue1 == (if v > bestValue then v else bestValue)
    requires isOver == (v > bestValue && bestValue1 == MAX_POS_VAL)
    ensures isOver ==> (best1, u) == root
    ensures !isOver ==> Choosing(u, s, stack, moves, i + 1, depthMax, best1, bestValue1, root)
  {
    assert moves[i] in moves;
    SamePlaceTrans(u, t, s);
    ChooseEquation(t, s, stack, moves, i, depthMax, best, bestValue, v, u);
  }

  /** findBestMove's loop from the i-th move: the pass, then the end on a win or the loop from the next move. */
  lemma ChooseEquation(t: State, s: State, stack: seq<Move>, moves: seq<Move>, i: int, depthMax: int,
                       best: Move, bestValue: real, v: real, u: State)
    requires SiblingOk(t, stack) && SamePlace(t, s) && ChosenOk(s) && 0 <= i < |moves| && 1 <= depthMax
    requires forall m :: m in moves ==> Fits(s, m) && DestClear(m, stack)
    requires best in moves && moves[i] in moves
    requires (v, u) == RootStep(t, s, stack, moves[i], depthMax, bestValue)
    requires SiblingOk(u, stack) && SamePlace(u, s)
    ensures BestLoop(t, s, stack, moves, i, depthMax, best, bestValue) ==
            if v > bestValue && v == MAX_POS_VAL then (moves[i], u)
            else if v > bestValue then BestLoop(u, s, stack, moves, i + 1, depthMax, moves[i], v)
            else BestLoop(u, s, stack, moves, i + 1, depthMax, best, bestValue)
  {
  }

  /**
   * What a pass of the search knows between making the move m on t, which the
   * board recorded as r and which left the position q, and taking it back.
   */
  ghost predicate Pushed(t: State, stack: seq<Move>, m: Move, r: Move, q: State) {
    SiblingOk(t, stack) && Fits(t, m) && DestClear(m, stack) && RecordOk(t, m, r) && Landing(t, r, q)
  }

  /**
   * undoMove's ordinal arithmetic on the destination's colour: minus two for a
   * chosen piece after a move off a streak, plus two for a plain piece after a
   * move on one; the tile it names is BackColour.
   */
  method BackOrdinal(d: int, onStreak: bool) returns (c: int)
    requires 0 <= d < 13
    ensures 0 <= c < 13 && FromOrdinal(c) == BackColour(FromOrdinal(d), onStreak)
  {
    c := d;
    if !onStreak && (c == Ordinal(WhitePawnChosen) || c == Ordinal(BlackPawnChosen) ||
                     c == Ordinal(WhiteQueenChosen) || c == Ordinal(BlackQueenChosen)) {
      c := c - 2;
    }
    if onStreak && (c == Ordinal(WhitePawn) || c == Ordinal(BlackPawn) ||
                    c == Ordinal(WhiteQueen) || c == Ordinal(BlackQueen)) {
      c := c + 2;
    }
  }

  /** The ordinal names its tile. */
  lemma OrdinalBack(t: Tile)
    ensures FromOrdinal(Ordinal(t)) == t
  {
  }

  /** putting the piece back, then demoting it when the move crowned it, gives Returning. */
  lemma PutBackStages(a: State, m: Move, dest: Tile, b: State, d: State)
    requires IsSquare(a.g, a.n) && In(a.n, m.fromRow, m.fromCol)
    requires b == a.(isOnStreak := m.wasOnStreak, isForced := m.isCapture, turn := m.turn,
                     g := Set(a.g, m.fromRow, m.fromCol, BackColour(dest, m.wasOnStreak)))
    requires d == if m.wasPremotion then Demoted(b, m.fromRow, m.fromCol) else b
    ensures var wd := DemotesWhite(dest, m);
      d == a.(isOnStreak := m.wasOnStreak, isForced := m.isCapture, turn := m.turn,
              g := Set(a.g, m.fromRow, m.fromCol, Returning(dest, m)),
              whiteQueens := a.whiteQueens - (if wd then 1 else 0),
              blackQueens := a.blackQueens - (if m.wasPremotion && !wd then 1 else 0))
  {
    var back := BackColour(dest, m.wasOnStreak);
    if m.wasPremotion {
      assert At(b.g, m.fromRow, m.fromCol) == back;
      SetTwice(a.g, m.fromRow, m.fromCol, back, Returning(dest, m));
    }
  }

  /** The king on (r, c) a man again, its side with one king fewer; anything but a white king counts as black's. */
  function Demoted(s: State, r: int, c: int): State {
    var o := At(s.g, r, c);
    if o == WhiteQueen || o == WhiteQueenChosen then s.(g := Set(s.g, r, c, WhitePawn), whiteQueens := s.whiteQueens - 1)
    else s.(g := Set(s.g, r, c, BlackPawn), blackQueens := s.blackQueens - 1)
  }

  /** Demoted, by the tile on (r, c). */
  lemma DemotedIs(s: State, r: int, c: int)
    ensures var o := At(s.g, r, c);
      (o == WhiteQueen || o == WhiteQueenChosen ==>
         Demoted(s, r, c) == s.(whiteQueens := s.whiteQueens - 1).(g := Set(s.g, r, c, WhitePawn))) &&
      (!(o == WhiteQueen || o == WhiteQueenChosen) ==>
         Demoted(s, r, c) == s.(blackQueens := s.blackQueens - 1).(g := Set(s.g, r, c, BlackPawn)))
  {
  }

  /** The victim of a capture back on its square, with the piece counters of its side. */
  function Revived(s: State, m: Move): State {
    if !m.isCapture then s
    else if m.turn then
      s.(g := Set(s.g, m.capturedRow, m.capturedCol, m.capturedColor), whiteLeft := s.whiteLeft + 1,
         whiteQueens := s.whiteQueens + (if m.capturedColor == WhiteQueen then 1 else 0))
    else
      s.(g := Set(s.g, m.capturedRow, m.capturedCol, m.capturedColor), blackLeft := s.blackLeft + 1,
         blackQueens := s.blackQueens + (if m.capturedColor == BlackQueen then 1 else 0))
  }

  /** undoMove's middle stages give the restored board and counters. */
  lemma RestoredStages(a: State, m: Move, remark: bool, destColor: int, b: State, c: State, d: State)
    requires 0 <= destColor < 13 && FromOrdinal(destColor) == At(a.g, m.toRow, m.toCol)
    requires b == a.(g := Set(a.g, m.toRow, m.toCol, if remark then Red else Black))
    requires var wd := DemotesWhite(FromOrdinal(destColor), m);
      c == b.(isOnStreak := m.wasOnStreak, isForced := m.isCapture, turn := m.turn,
              g := Set(b.g, m.fromRow, m.fromCol, Returning(FromOrdinal(destColor), m)),
              whiteQueens := b.whiteQueens - (if wd then 1 else 0),
              blackQueens := b.blackQueens - (if m.wasPremotion && !wd then 1 else 0))
    requires d == Revived(c, m)
    ensures var wd := DemotesWhite(At(a.g, m.toRow, m.toCol), m);
      d == a.(g := Restored(a.g, m, remark), isOnStreak := m.wasOnStreak, isForced := m.isCapture, turn := m.turn,
        whiteLeft := a.whiteLeft + (if m.isCapture && m.turn then 1 else 0),
        blackLeft := a.blackLeft + (if m.isCapture && !m.turn then 1 else 0),
        whiteQueens := a.whiteQueens - (if wd then 1 else 0) + (if m.isCapture && m.turn && m.capturedColor == WhiteQueen then 1 else 0),
        blackQueens := a.blackQueens - (if m.wasPremotion && !wd then 1 else 0) + (if m.isCapture && !m.turn && m.capturedColor == BlackQueen then 1 else 0))
  {
  }

  /** undoMove's stages, one after the other, give Undo. */
  lemma UndoStages(q: State, stack: seq<Move>, m: Move, a1: State, a2: State, a3: State, a4: State)
    requires a1 == q.(mwp := m.mwp)
    requires a2 == a1.(g := Cleared(a1.g, stack, m, !q.isOnStreak && m.wasOnStreak))
    requires var wd := DemotesWhite(At(a2.g, m.toRow, m.toCol), m);
      a3 == a2.(g := Restored(a2.g, m, !q.isOnStreak && m.wasOnStreak), isOnStreak := m.wasOnStreak, isForced := m.isCapture, turn := m.turn,
        whiteLeft := a2.whiteLeft + (if m.isCapture && m.turn then 1 else 0),
        blackLeft := a2.blackLeft + (if m.isCapture && !m.turn then 1 else 0),
        whiteQueens := a2.whiteQueens - (if wd then 1 else 0) + (if m.isCapture && m.turn && m.capturedColor == WhiteQueen then 1 else 0),
        blackQueens := a2.blackQueens - (if m.wasPremotion && !wd then 1 else 0) + (if m.isCapture && !m.turn && m.capturedColor == BlackQueen then 1 else 0))
    requires a4 == if m.wasOnStreak then a3.(isPawnChosen := true, chosenRow := m.fromRow, chosenCol := m.fromCol, g := Remarked(a3.g, a3.n, m))
                   else a3.(isPawnChosen := false)
    ensures a4 == Undo(q, stack, m)
  {
  }

  /** A piece returning to the origin is never a mark. */
  lemma ReturningPiece(dest: Tile, m: Move)
    requires IsPiece(dest, m.turn)
    ensures Returning(dest, m) != Red
  {
    ChosenIsOrdinalPlusTwo(dest);
  }

  /** The destination still holds the moved piece once the marks are cleared and the run is dead again. */
  lemma UndoDestPiece(q: State, stack: seq<Move>, m: Move, remark: bool)
    requires UndoReady(q, stack, m) && m.wasOnStreak && remark == !q.isOnStreak
    ensures IsPiece(At(Cleared(q.g, stack, m, remark), m.toRow, m.toCol), m.turn)
  {
    MarksOffAt(q.g, m.toRow, m.toCol);
    if remark {
      ReDeadOff(MarksOff(q.g), TopRun(stack), Dead(!m.turn), m.toRow, m.toCol);
    }
  }

  /**
   * The position evaluate searches from: a pawn chosen off a streak is first
   * put back (turnPawnOff) and the search runs with isComputerPlaying set.
   */
  ghost function EvalStart(s: State): State {
    (if !s.isOnStreak && s.isPawnChosen then PawnOff(s) else s).(isComputerPlaying := true)
  }

  /**
   * The message evaluate shows for a value from White's side: 0 about equal,
   * 1 White is better, 2 Black is better, 3 White is winning, 4 Black is winning.
   */
  function EvalBand(v: real): (k: int)
    ensures 0 <= k <= 4
    ensures (k == 1 || k == 3) <==> v > 0.6
    ensures (k == 2 || k == 4) <==> v <= -0.6
    ensures k == 3 <==> v > 1.5
    ensures k == 4 <==> v <= -1.5
  {
    if v > 1.5 then 3
    else if v > 0.6 then 1
    else if v > -0.6 then 0
    else if v > -1.5 then 2
    else 4
  }

  class Computer {
    /** The board the computer plays on. */
    const board: Damka
    /** DEPTH_MAX: the depth at which the search evaluates statically. */
    const depthMax: int
    /** The moves made during the search and not yet taken back, the latest last. */
    var movesStack: seq<Move>
    /** The move findBestMove chose (null in the program when there is none). */
    var moveToPlay: Option<Move>

    constructor(b: Damka, depth: int)
      ensures board == b && depthMax == depth && movesStack == [] && moveToPlay == None
    {
      board := b;
      depthMax := depth;
      movesStack := [];
      moveToPlay := None;
    }

    // -------------------------------------------------------------------------
    // generateMoves

    /**
     * generateMoves: on a streak, a capture from the chosen square to every
     * Red square; otherwise, for every piece of the side to move, its marks
     * made and read back as moves. The board keeps its tiles; off a streak the
     * chosen square is left on the last piece scanned.
     */
    method GenerateMoves() returns (moves: seq<Move>)
      requires board.Valid() && GridOk(board.cells, board.n) && In(board.n, board.chosenRow, board.chosenCol)
      requires !board.isOnStreak ==> NoTile(board.cells, Red)
      modifies board`cells, board.tiles, board`chosenRow, board`chosenCol
      ensures board.Valid()
      ensures moves == Generate(old(board.Abs())).moves && board.Abs() == Generated(old(board.Abs()))
    {
      ghost var s := board.Abs();
      moves := [];
      var isCapture := board.isForced;
      if board.isOnStreak {
        moves := StreakCaptures();
        return;
      }
      var i := 0;
      while i < board.n
        invariant 0 <= i && board.Valid() && board.cells == s.g && In(board.n, board.chosenRow, board.chosenCol)
        invariant ScanFrom(s, Scan(moves, board.cells, board.chosenRow, board.chosenCol), i, 1 - i % 2) == Generate(s)
        decreases board.n - i
      {
        moves := ScanRow(i, moves, isCapture, s);
        i := i + 1;
      }
      ghost var out := Generate(s);
      assert board.cells == out.g && board.chosenRow == out.chosenRow && board.chosenCol == out.chosenCol;
    }

    /** Row i of generateMoves's scan off a streak: each piece of the side to move gives its moves. */
    method ScanRow(i: int, moves: seq<Move>, isCapture: bool, ghost s: State) returns (moves': seq<Move>)
      requires board.Valid() && board.cells == s.g && GridOk(s.g, s.n) && NoTile(s.g, Red)
      requires board.n == s.n && board.turn == s.turn && board.isForced == s.isForced && board.mwp == s.mwp
      requires isCapture == s.isForced && 0 <= i < s.n && In(s.n, board.chosenRow, board.chosenCol)
      modifies board`cells, board.tiles, board`chosenRow, board`chosenCol
      ensures board.Valid() && board.cells == s.g && In(s.n, board.chosenRow, board.chosenCol)
      ensures ScanFrom(s, Scan(moves', board.cells, board.chosenRow, board.chosenCol), i + 1, 1 - (i + 1) % 2) ==
              ScanFrom(s, Scan(moves, old(board.cells), old(board.chosenRow), old(board.chosenCol)), i, 1 - i % 2)
    {
      ghost var start := Scan(moves, board.cells, board.chosenRow, board.chosenCol);
      moves' := moves;
      var j := 1 - i % 2;
      while j < board.n
        invariant 0 <= j && board.Valid() && board.cells == s.g && In(s.n, board.chosenRow, board.chosenCol)
        invariant ScanFrom(s, Scan(moves', board.cells, board.chosenRow, board.chosenCol), i, j) == ScanFrom(s, start, i, 1 - i % 2)
        decreases board.n - j
      {
        moves' := ScanSquare(i, j, moves', isCapture, s);
        j := j + 2;
      }
      ScanFromRow(s, Scan(moves', board.cells, board.chosenRow, board.chosenCol), i, j);
    }

    /** One square of generateMoves's scan off a streak: a piece of the side to move gives its moves. */
    method ScanSquare(i: int, j: int, moves: seq<Move>, isCapture: bool, ghost s: State) returns (moves': seq<Move>)
      requires board.Valid() && board.cells == s.g && GridOk(s.g, s.n) && NoTile(s.g, Red)
      requires board.n == s.n && board.turn == s.turn && board.isForced == s.isForced && board.mwp == s.mwp
      requires isCapture == s.isForced && 0 <= i < s.n && 0 <= j < s.n && In(s.n, board.chosenRow, board.chosenCol)
      modifies board`cells, board.tiles, board`chosenRow, board`chosenCol
      ensures board.Valid() && board.cells == s.g && In(s.n, board.chosenRow, board.chosenCol)
      ensures ScanFrom(s, Scan(moves', board.cells, board.chosenRow, board.chosenCol), i, j + 2) ==
              ScanFrom(s, Scan(moves, old(board.cells), old(board.chosenRow), old(board.chosenCol)), i, j)
    {
      ScanFromStep(s, Scan(moves, board.cells, board.chosenRow, board.chosenCol), i, j);
      moves' := moves;
      if board.tiles[i, j] == Pawn(board.turn) || board.tiles[i, j] == Queen(board.turn) {
        moves' := PieceMoves(i, j, moves, isCapture, s);
      }
    }

    /** generateMoves on a streak: a capture from the chosen square to each Red square, row by row. */
    method StreakCaptures() returns (moves: seq<Move>)
      requires board.Valid()
      ensures moves == StreakMoves(board.Abs())
    {
      ghost var s := board.Abs();
      moves := [];
      var i := 0;
      assert [] + StreakMoves(s) == StreakMoves(s);
      while i < board.n
        invariant 0 <= i && Owed(moves, RedsFrom(s.g, s.n, i, 1 - i % 2), s.chosenRow, s.chosenCol, 0, true, true, s.turn, StreakMoves(s))
        decreases board.n - i
      {
        moves := StreakRow(i, moves, s);
        i := i + 1;
      }
      assert moves + [] == moves;
    }

    /** Row i of generateMoves's scan on a streak. */
    method StreakRow(i: int, moves: seq<Move>, ghost s: State) returns (moves': seq<Move>)
      requires board.Valid() && board.Abs() == s && 0 <= i < s.n
      requires Owed(moves, RedsFrom(s.g, s.n, i, 1 - i % 2), s.chosenRow, s.chosenCol, 0, true, true, s.turn, StreakMoves(s))
      ensures Owed(moves', RedsFrom(s.g, s.n, i + 1, 1 - (i + 1) % 2), s.chosenRow, s.chosenCol, 0, true, true, s.turn, StreakMoves(s))
    {
      moves' := moves;
      var j := 1 - i % 2;
      while j < board.n
        invariant 0 <= j && Owed(moves', RedsFrom(s.g, s.n, i, j), s.chosenRow, s.chosenCol, 0, true, true, s.turn, StreakMoves(s))
        decreases board.n - j
      {
        MovesToStep(s.g, s.n, i, j, moves', s.chosenRow, s.chosenCol, 0, true, true, s.turn);
        if board.tiles[i, j] == Red {
          moves' := moves' + [NewMove(board.chosenRow, board.chosenCol, i, j, 0, true, true, board.turn)];
        }
        j := j + 2;
      }
      RedsFromRow(s.g, s.n, i, j);
    }

    /**
     * The body of generateMoves's scan for a piece of the side to move on
     * (i, j): it is chosen, made the chosen variant, its destinations are
     * marked, it is made plain again, and the marks are read back as moves.
     */
    method PieceMoves(i: int, j: int, moves: seq<Move>, isCapture: bool, ghost s: State) returns (moves': seq<Move>)
      requires board.Valid() && board.cells == s.g && GridOk(s.g, s.n) && NoTile(s.g, Red)
      requires board.n == s.n && board.turn == s.turn && board.isForced == s.isForced && board.mwp == s.mwp
      requires isCapture == s.isForced && In(s.n, i, j) && (s.g[i][j] == Pawn(s.turn) || s.g[i][j] == Queen(s.turn))
      modifies board`cells, board.tiles, board`chosenRow, board`chosenCol
      ensures board.Valid() && board.cells == s.g
      ensures Scan(moves', board.cells, board.chosenRow, board.chosenCol) ==
              PieceScan(s, Scan(moves, s.g, old(board.chosenRow), old(board.chosenCol)), i, j)
    {
      MarkPiece(i, j, s);
      ghost var h := board.cells;
      moves' := TakeReds(i, j, moves, isCapture);
      PieceMarksSpec(s.g, s.n, i, j, s.isForced, s.turn);
      PieceScanIs(s, Scan(moves, s.g, old(board.chosenRow), old(board.chosenCol)), i, j, h);
    }

    /** Choosing the piece at (i, j) and marking its squares, as generateMoves does before reading them. */
    method MarkPiece(i: int, j: int, ghost s: State)
      requires board.Valid() && board.cells == s.g && GridOk(s.g, s.n) && NoTile(s.g, Red)
      requires board.n == s.n && board.turn == s.turn && board.isForced == s.isForced
      requires In(s.n, i, j) && (s.g[i][j] == Pawn(s.turn) || s.g[i][j] == Queen(s.turn))
      modifies board`cells, board.tiles, board`chosenRow, board`chosenCol
      ensures board.Valid() && board.chosenRow == i && board.chosenCol == j
      ensures board.cells == PieceMarks(s.g, s.n, i, j, s.isForced, s.turn)
    {
      board.chosenRow, board.chosenCol := i, j;
      if board.tiles[i, j] == Pawn(board.turn) {
        ForwardStaysOnBoard(s.g, s.n, i, j, s.turn);
        board.SetColor(i, j, PawnChosen(board.turn));
        board.TurnRedPawnSquaresOn();
        board.SetColor(i, j, Pawn(board.turn));
      } else {
        board.SetColor(i, j, QueenChosen(board.turn));
        board.TurnRedQueenSquaresOn();
        board.SetColor(i, j, Queen(board.turn));
      }
    }

    /** The inner loops of generateMoves's scan: each Red square, row by row, turns Black and gives a move from (i, j). */
    method TakeReds(i: int, j: int, moves: seq<Move>, isCapture: bool) returns (moves': seq<Move>)
      requires board.Valid()
      modifies board`cells, board.tiles
      ensures board.Valid() && board.cells == MarksOff(old(board.cells))
      ensures moves' == moves + MovesTo(Reds(old(board.cells), board.n), i, j, board.mwp, isCapture, false, board.turn)
    {
      ghost var h, mwp, turn := board.cells, board.mwp, board.turn;
      ghost var all := moves + MovesTo(Reds(h, board.n), i, j, mwp, isCapture, false, turn);
      ScanStart(h, board.n, moves, i, j, mwp, isCapture, turn);
      moves' := moves;
      var k := 0;
      while k < board.n
        invariant board.Valid() && Scanned(board.cells, moves', h, board.n, k, i, j, mwp, isCapture, turn, all)
        decreases board.n - k
      {
        moves' := TakeRow(k, i, j, moves', isCapture, h, all, mwp, turn);
        k := k + 1;
      }
      ScanDone(board.cells, moves', h, board.n, i, j, mwp, isCapture, turn, all);
    }

    /** Row k of the read-back of the marks. */
    method TakeRow(k: int, i: int, j: int, moves: seq<Move>, isCapture: bool, ghost h: Grid, ghost all: seq<Move>,
                   ghost mwp: int, ghost turn: bool)
      returns (moves': seq<Move>)
      requires board.Valid() && k < board.n && Scanned(board.cells, moves, h, board.n, k, i, j, mwp, isCapture, turn, all)
      requires board.mwp == mwp && board.turn == turn
      modifies board`cells, board.tiles
      ensures board.Valid() && Scanned(board.cells, moves', h, board.n, k + 1, i, j, mwp, isCapture, turn, all)
    {
      ghost var n := board.n;
      RowsMarked(board.cells, h, n, k);
      moves' := moves;
      var l := 1 - k % 2;
      ghost var m := 0;
      while l < board.n
        invariant 0 <= l == 1 - k % 2 + 2 * m && board.Valid() && MarkedOffBefore(board.cells, h, n, k, l)
        invariant Owed(moves', RedsFrom(h, n, k, l), i, j, mwp, isCapture, false, turn, all)
        decreases board.n - l
      {
        RowParity(k, m);
        m := m + 1;
        moves' := TakeSquare(k, l, i, j, moves', isCapture, h, all, mwp, turn);
        l := l + 2;
      }
      MarkedOffRow(board.cells, h, n, k, l);
      MarkedRows(board.cells, h, n, k + 1);
      RedsFromRow(h, n, k, l);
    }

    /** One square of the read-back: a Red one turns Black and gives a move from (i, j) to it. */
    method TakeSquare(k: int, l: int, i: int, j: int, moves: seq<Move>, isCapture: bool, ghost h: Grid, ghost all: seq<Move>,
                      ghost mwp: int, ghost turn: bool)
      returns (moves': seq<Move>)
      requires board.Valid() && 0 <= k < board.n && 0 <= l < board.n && (k + l) % 2 == 1
      requires MarkedOffBefore(board.cells, h, board.n, k, l)
      requires board.mwp == mwp && board.turn == turn
      requires Owed(moves, RedsFrom(h, board.n, k, l), i, j, mwp, isCapture, false, turn, all)
      modifies board`cells, board.tiles
      ensures board.Valid() && MarkedOffBefore(board.cells, h, board.n, k, l + 2)
      ensures Owed(moves', RedsFrom(h, board.n, k, l + 2), i, j, mwp, isCapture, false, turn, all)
    {
      MovesToStep(h, board.n, k, l, moves, i, j, mwp, isCapture, false, turn);
      MarkedOffStep(board.cells, h, board.n, k, l);
      moves' := moves;
      if board.tiles[k, l] == Red {
        board.SetColor(k, l, Black);
        moves' := moves' + [NewMove(i, j, k, l, board.mwp, isCapture, false, board.turn)];
      }
    }

    // -------------------------------------------------------------------------
    // makeMove

    /**
     * makeMove: the origin's piece is chosen, then the board makes the quiet
     * move (by movePawn or moveQueen) or the capture; while the computer
     * searches, the board writes what it took and whether it crowned into the
     * move on top of the stack.
     */
    method MakeMove(m: Move)
      requires board.Valid() && MakeReady(board.Abs(), m) && MakeDefined(board.Abs(), m)
      modifies board, board.tiles, this`movesStack
      ensures board.Valid() && board.Abs() == Make(old(board.Abs()), m)
      ensures movesStack == Recorded(old(movesStack), MakeTrace(old(board.Abs()), m), old(board.isComputerPlaying))
    {
      ghost var s := board.Abs();
      var searching := board.isComputerPlaying;
      ChoosePiece(m);
      var trace := MoveChosen(m, s);
      if searching && |movesStack| > 0 {
        movesStack := movesStack[..|movesStack| - 1] + [Record(movesStack[|movesStack| - 1], trace)];
      }
    }

    /** makeMove's first step: the origin becomes the chosen square and its plain piece turns chosen. */
    method ChoosePiece(m: Move)
      requires board.Valid() && In(board.n, m.fromRow, m.fromCol)
      modifies board`cells, board.tiles, board`chosenRow, board`chosenCol
      ensures board.Valid() && board.Abs() == Choose(old(board.Abs()), m)
    {
      board.chosenRow, board.chosenCol := m.fromRow, m.fromCol;
      var origin := board.tiles[m.fromRow, m.fromCol];
      if origin == WhitePawn || origin == BlackPawn || origin == WhiteQueen || origin == BlackQueen {
        board.SetColor(m.fromRow, m.fromCol, ToChosen(origin));
      } else {
        SetSame(board.cells, m.fromRow, m.fromCol);
      }
    }

    /** makeMove's second step: the board moves the chosen piece, by a quiet move or a capture. */
    method MoveChosen(m: Move, ghost s: State) returns (trace: Trace)
      requires board.Valid() && MakeReady(s, m) && MakeDefined(s, m) && board.Abs() == Choose(s, m)
      modifies board, board.tiles
      ensures board.Valid() && board.Abs() == Make(s, m) && trace == MakeTrace(s, m)
    {
      if !m.isCapture {
        var chosen := board.tiles[m.fromRow, m.fromCol];
        if chosen == WhitePawnChosen || chosen == BlackPawnChosen {
          trace := board.MovePawn(m.toRow, m.toCol);
        } else {
          board.MoveQueen(m.toRow, m.toCol);
          trace := Trace(None, None);
        }
      } else {
        trace := board.Capture(m.toRow, m.toCol);
      }
    }

    // -------------------------------------------------------------------------
    // undoMove

    /**
     * undoMove: the counter of moves without progress comes back and the
     * marks are cleared; when m ended a streak, the victims of the run of black
     * captures under it turn Dead again and the destination Red, otherwise the
     * destination turns Black; the flags come back, the destination's piece
     * returns to the origin (demoted if m crowned it), the victim returns with
     * the counters, and after a move on a streak the origin is chosen and
     * marked again. The stack is walked but left as it was.
     */
    method UndoMove(m: Move)
      requires board.Valid() && UndoReady(board.Abs(), movesStack, m)
      modifies board, board.tiles
      ensures board.Valid() && board.Abs() == Undo(old(board.Abs()), movesStack, m)
    {
      ghost var q := board.Abs();
      var remark := !board.isOnStreak && m.wasOnStreak;
      board.mwp := m.mwp;
      ghost var a1 := board.Abs();
      ClearMarks(m, remark, a1);
      ghost var a2 := board.Abs();
      var destColor := VacateDest(m, remark, a2);
      ghost var b := board.Abs();
      PutBack(m, destColor, b);
      ghost var c := board.Abs();
      Revive(m, c);
      ghost var a3 := board.Abs();
      RestoredStages(a2, m, remark, destColor, b, c, a3);
      if m.wasOnStreak {
        UndoDestPiece(q, movesStack, m, remark);
        ReturningPiece(At(a2.g, m.toRow, m.toCol), m);
        assert board.cells[m.fromRow][m.fromCol] == At(board.cells, m.fromRow, m.fromCol);
      }
      ReChoose(m, a3);
      UndoStages(q, movesStack, m, a1, a2, a3, board.Abs());
    }

    /** undoMove's middle step: the destination's tile read, then the destination Red or Black. */
    method VacateDest(m: Move, remark: bool, ghost a: State) returns (destColor: int)
      requires board.Valid() && board.Abs() == a && In(board.n, m.toRow, m.toCol)
      modifies board`cells, board.tiles
      ensures board.Valid() && 0 <= destColor < 13 && FromOrdinal(destColor) == At(a.g, m.toRow, m.toCol)
      ensures board.Abs() == a.(g := Set(a.g, m.toRow, m.toCol, if remark then Red else Black))
    {
      destColor := Ordinal(board.tiles[m.toRow, m.toCol]);
      OrdinalBack(a.g[m.toRow][m.toCol]);
      board.SetColor(m.toRow, m.toCol, if remark then Red else Black);
    }

    /** undoMove's first step: the marks off and, when m ended a streak, the run's victims dead again. */
    method ClearMarks(m: Move, remark: bool, ghost a: State)
      requires board.Valid() && board.Abs() == a
      requires remark ==> forall v :: v in TopRun(movesStack) ==> In(board.n, v.capturedRow, v.capturedCol)
      modifies board`cells, board.tiles
      ensures board.Valid() && board.Abs() == a.(g := Cleared(a.g, movesStack, m, remark))
    {
      board.TurnRedSquaresOff();
      if remark {
        ReMarkDead(if m.turn then DeadWhite else DeadBlack);
      }
    }

    /** The walk down the run of black captures on top of the stack, each victim's square turning `dead`. */
    method ReMarkDead(dead: Tile)
      requires board.Valid() && forall v :: v in TopRun(movesStack) ==> In(board.n, v.capturedRow, v.capturedCol)
      modifies board`cells, board.tiles
      ensures board.Valid() && board.cells == ReDead(old(board.cells), TopRun(movesStack), dead)
    {
      ghost var target := ReDead(board.cells, TopRun(movesStack), dead);
      var k := |movesStack|;
      assert movesStack[..k] == movesStack;
      while k > 0 && movesStack[k - 1].isCapture && movesStack[k - 1].turn
        invariant 0 <= k <= |movesStack| && board.Valid()
        invariant forall v :: v in TopRun(movesStack[..k]) ==> In(board.n, v.capturedRow, v.capturedCol)
        invariant ReDead(board.cells, TopRun(movesStack[..k]), dead) == target
        decreases k
      {
        ReMarkOne(k, dead, target);
        k := k - 1;
      }
      TopRunEmpty(movesStack[..k]);
    }

    /** One step of that walk: the victim of the k-th move turns `dead`, and the run left below it still leads to the target. */
    method ReMarkOne(k: int, dead: Tile, ghost target: Grid)
      requires board.Valid() && 0 < k <= |movesStack| && movesStack[k - 1].isCapture && movesStack[k - 1].turn
      requires forall v :: v in TopRun(movesStack[..k]) ==> In(board.n, v.capturedRow, v.capturedCol)
      requires ReDead(board.cells, TopRun(movesStack[..k]), dead) == target
      modifies board`cells, board.tiles
      ensures board.Valid()
      ensures forall v :: v in TopRun(movesStack[..k - 1]) ==> In(board.n, v.capturedRow, v.capturedCol)
      ensures ReDead(board.cells, TopRun(movesStack[..k - 1]), dead) == target
    {
      var prev := movesStack[k - 1];
      assert movesStack[..k] == movesStack[..k - 1] + [prev];
      TopRunPush(movesStack[..k - 1], prev);
      ReDeadPush(board.cells, TopRun(movesStack[..k - 1]), prev, dead);
      board.SetColor(prev.capturedRow, prev.capturedCol, dead);
    }

    /**
     * The flags back, and the destination's piece back on the origin: a
     * chosen piece turns plain after a move off a streak and a plain one
     * chosen after a move on one (two apart in the ordinals), and a piece the
     * move crowned is a man again.
     */
    method PutBack(m: Move, destColor: int, ghost a: State)
      requires board.Valid() && board.Abs() == a && In(board.n, m.fromRow, m.fromCol) && 0 <= destColor < 13
      modifies board`cells, board.tiles, board`isOnStreak, board`isForced, board`turn, board`whiteQueens, board`blackQueens
      ensures board.Valid()
      ensures var wd := DemotesWhite(FromOrdinal(destColor), m);
        board.Abs() == a.(isOnStreak := m.wasOnStreak, isForced := m.isCapture, turn := m.turn,
                          g := Set(a.g, m.fromRow, m.fromCol, Returning(FromOrdinal(destColor), m)),
                          whiteQueens := a.whiteQueens - (if wd then 1 else 0),
                          blackQueens := a.blackQueens - (if m.wasPremotion && !wd then 1 else 0))
    {
      var c := BackOrdinal(destColor, m.wasOnStreak);
      ReturnPiece(m, FromOrdinal(c), a);
      ghost var b := board.Abs();
      if m.wasPremotion {
        Demote(m.fromRow, m.fromCol, b);
      }
      PutBackStages(a, m, FromOrdinal(destColor), b, board.Abs());
    }

    /** The flags of the position before the move, and the piece back on its origin as the tile t. */
    method ReturnPiece(m: Move, t: Tile, ghost a: State)
      requires board.Valid() && board.Abs() == a && In(board.n, m.fromRow, m.fromCol)
      modifies board`cells, board.tiles, board`isOnStreak, board`isForced, board`turn
      ensures board.Valid()
      ensures board.Abs() == a.(isOnStreak := m.wasOnStreak, isForced := m.isCapture, turn := m.turn,
                                g := Set(a.g, m.fromRow, m.fromCol, t))
    {
      board.isOnStreak, board.isForced, board.turn := m.wasOnStreak, m.isCapture, m.turn;
      board.SetColor(m.fromRow, m.fromCol, t);
    }

    /** A king the move crowned is a man again, and its side has one king fewer. */
    method Demote(r: int, c: int, ghost a: State)
      requires board.Valid() && board.Abs() == a && In(board.n, r, c)
      modifies board`cells, board.tiles, board`whiteQueens, board`blackQueens
      ensures board.Valid() && board.Abs() == Demoted(a, r, c)
    {
      var origin := board.tiles[r, c];
      DemotedIs(a, r, c);
      if origin == WhiteQueen || origin == WhiteQueenChosen {
        DemoteWhite(r, c, a);
      } else {
        DemoteBlack(r, c, a);
      }
    }

    /** A white king on (r, c) back to a man. */
    method DemoteWhite(r: int, c: int, ghost a: State)
      requires board.Valid() && board.Abs() == a && In(board.n, r, c)
      modifies board`cells, board.tiles, board`whiteQueens
      ensures board.Valid() && board.Abs() == a.(whiteQueens := a.whiteQueens - 1).(g := Set(a.g, r, c, WhitePawn))
    {
      board.whiteQueens := board.whiteQueens - 1;
      board.SetColor(r, c, WhitePawn);
    }

    /** Any other king on (r, c) back to a black man. */
    method DemoteBlack(r: int, c: int, ghost a: State)
      requires board.Valid() && board.Abs() == a && In(board.n, r, c)
      modifies board`cells, board.tiles, board`blackQueens
      ensures board.Valid() && board.Abs() == a.(blackQueens := a.blackQueens - 1).(g := Set(a.g, r, c, BlackPawn))
    {
      board.blackQueens := board.blackQueens - 1;
      board.SetColor(r, c, BlackPawn);
    }

    /** The victim back on its square, with the piece counters. */
    method Revive(m: Move, ghost a: State)
      requires board.Valid() && board.Abs() == a && (m.isCapture ==> In(board.n, m.capturedRow, m.capturedCol))
      modifies board`cells, board.tiles, board`whiteLeft, board`blackLeft, board`whiteQueens, board`blackQueens
      ensures board.Valid()
      ensures board.Abs() == Revived(a, m)
    {
      if m.isCapture {
        board.SetColor(m.capturedRow, m.capturedCol, m.capturedColor);
        ghost var b := a.(g := Set(a.g, m.capturedRow, m.capturedCol, m.capturedColor));
        if m.turn {
          WhiteBack(m.capturedColor == WhiteQueen, b);
        } else {
          BlackBack(m.capturedColor == BlackQueen, b);
        }
      }
    }

    /** A white piece back on the board, a king when `king`. */
    method WhiteBack(king: bool, ghost b: State)
      requires board.Valid() && board.Abs() == b
      modifies board`whiteLeft, board`whiteQueens
      ensures board.Valid() && board.Abs() == b.(whiteLeft := b.whiteLeft + 1, whiteQueens := b.whiteQueens + (if king then 1 else 0))
    {
      board.whiteLeft, board.whiteQueens := board.whiteLeft + 1, board.whiteQueens + (if king then 1 else 0);
    }

    /** A black piece back on the board, a king when `king`. */
    method BlackBack(king: bool, ghost b: State)
      requires board.Valid() && board.Abs() == b
      modifies board`blackLeft, board`blackQueens
      ensures board.Valid() && board.Abs() == b.(blackLeft := b.blackLeft + 1, blackQueens := b.blackQueens + (if king then 1 else 0))
    {
      board.blackLeft, board.blackQueens := board.blackLeft + 1, board.blackQueens + (if king then 1 else 0);
    }

    /** After a move on a streak the origin is chosen again and its squares marked; otherwise nothing is chosen. */
    method ReChoose(m: Move, ghost a: State)
      requires board.Valid() && board.Abs() == a && In(board.n, m.fromRow, m.fromCol)
      requires m.wasOnStreak ==> board.isForced && board.turn == m.turn && m.isCapture &&
                                 board.cells[m.fromRow][m.fromCol] != Red
      modifies board`cells, board.tiles, board`isPawnChosen, board`chosenRow, board`chosenCol
      ensures board.Valid()
      ensures board.Abs() == if m.wasOnStreak then a.(isPawnChosen := true, chosenRow := m.fromRow, chosenCol := m.fromCol, g := Remarked(a.g, a.n, m))
                             else a.(isPawnChosen := false)
    {
      if m.wasOnStreak {
        board.isPawnChosen := true;
        board.chosenRow, board.chosenCol := m.fromRow, m.fromCol;
        var origin := board.tiles[m.fromRow, m.fromCol];
        if origin == BlackPawn || origin == WhitePawn {
          board.TurnRedPawnSquaresOn();
        } else {
          board.TurnRedQueenSquaresOn();
        }
      } else {
        board.isPawnChosen := false;
      }
    }

    // -------------------------------------------------------------------------
    // evaluatePosition

    /**
     * evaluatePosition: the static value of the board from black's side, built
     * up as the program does: material, the tempo of the side to move, the
     * blocked-position test, then the men on the rows it counts, row by row.
     */
    method EvaluatePosition() returns (v: real)
      requires board.Valid() && WellFormed(board.Abs())
      ensures v == Eval(board.Abs())
    {
      var isStartGame := board.whiteLeft + board.blackLeft > board.pawnRows * board.n / 3;
      if board.whiteLeft == 0 {
        return MAX_POS_VAL;
      }
      if board.blackLeft == 0 {
        return MIN_POS_VAL;
      }
      v := (board.blackLeft - board.whiteLeft) as real;
      v := v + 1.1 * board.blackQueens as real;
      v := v - 1.1 * board.whiteQueens as real;
      if isStartGame {
        v := v + 0.5 * board.blackQueens as real;
        v := v - 0.5 * board.whiteQueens as real;
      }
      if board.turn {
        v := v + 0.25;
        if board.isForced {
          v := v + 0.35;
        } else if board.whiteLeft <= MAX_PAWNS_IN_STALEMATE {
          var can := board.CanPlay();
          if !can {
            return MIN_POS_VAL;
          }
        }
      } else {
        v := v - 0.25;
        if board.isForced {
          v := v - 0.35;
        } else if board.whiteLeft <= MAX_PAWNS_IN_STALEMATE {
          var can := board.CanPlay();
          if !can {
            return MAX_POS_VAL;
          }
        }
      }
      v := AddAdvancement(isStartGame, v);
    }

    /**
     * The men-counting part of evaluatePosition: black men on rows LENGTH-3
     * and LENGTH-2 and white men on rows 1 and 2, then in the opening the men
     * still on their back rows.
     */
    method AddAdvancement(isStartGame: bool, v: real) returns (v': real)
      requires board.Valid() && WellFormed(board.Abs()) && isStartGame == StartGame(board.Abs())
      ensures v' == v + Advancement(board.Abs())
    {
      var advanced, retreated := if isStartGame then -0.15 else 0.25, if isStartGame then 0.15 else -0.25;
      v' := AddRows(board.n - 3, board.n - 1, BlackPawn, advanced, v);
      v' := AddRows(1, 3, WhitePawn, retreated, v');
      ghost var v1 := v';
      if isStartGame {
        v' := AddEvery2(0, 1, BlackPawn, 0.2, v');
        v' := AddEvery2(board.n - 1, board.n % 2, WhitePawn, -0.2, v');
      }
      AdvancementIs(board.Abs(), advanced, retreated, v, v1, v');
    }

    /** Rows lo to hi - 1 of evaluatePosition's men count: w for each tile t on their playable squares. */
    method AddRows(lo: int, hi: int, t: Tile, w: real, v: real) returns (v': real)
      requires board.Valid() && 0 <= lo <= hi <= board.n
      ensures v' == v + RowsSum(board.cells, board.n, lo, hi, t, w)
    {
      v' := v;
      var i := lo;
      while i < hi
        invariant lo <= i <= hi
        invariant v' + RowsSum(board.cells, board.n, i, hi, t, w) == v + RowsSum(board.cells, board.n, lo, hi, t, w)
        decreases hi - i
      {
        v' := AddEvery2(i, 1 - i % 2, t, w, v');
        i := i + 1;
      }
    }

    /** One of evaluatePosition's row scans: w for each tile t on row i at columns j0, j0 + 2, ... */
    method AddEvery2(i: int, j0: int, t: Tile, w: real, v: real) returns (v': real)
      requires board.Valid() && 0 <= i < board.n && 0 <= j0
      ensures v' == v + Every2Sum(board.cells, board.n, i, j0, t, w)
    {
      v' := v;
      var j := j0;
      while j < board.n
        invariant j0 <= j
        invariant v' + Every2Sum(board.cells, board.n, i, j, t, w) == v + Every2Sum(board.cells, board.n, i, j0, t, w)
        decreases board.n - j
      {
        if board.tiles[i, j] == t {
          v' := v' + w;
        }
        j := j + 2;
      }
    }

    // -------------------------------------------------------------------------
    // miniMaxAlphaBeta

    /**
     * miniMaxAlphaBeta: 0 on a draw by quiet king moves, the static value at
     * the depth limit, and otherwise every move pushed, made, searched below,
     * popped and taken back, until alpha reaches beta.
     */
    method MiniMaxAlphaBeta(depth: int, max: bool, alpha: real, beta: real) returns (v: real)
      requires board.Valid() && NodeOk(board.Abs(), movesStack) && 0 <= depth <= depthMax
      modifies board, board.tiles, this`movesStack
      ensures board.Valid() && movesStack == old(movesStack)
      ensures (v, board.Abs()) == Node(old(board.Abs()), old(movesStack), depth, depthMax, max, alpha, beta)
      decreases depthMax - depth, Alive(board.Abs()), 1, 0
    {
      ghost var s := board.Abs();
      if board.mwp == MOVES_FOR_DRAW {
        return 0.0;
      }
      if depth == depthMax {
        v := EvaluatePosition();
        return;
      }
      var possibilities := GenerateMoves();
      v := SearchMoves(possibilities, s, depth, max, alpha, beta);
    }

    /**
     * miniMaxAlphaBeta after generateMoves: the best value so far starts at the
     * worst for the side to move, and the moves are tried in turn until alpha
     * reaches beta.
     */
    method SearchMoves(possibilities: seq<Move>, ghost s: State, depth: int, max: bool, alpha: real, beta: real) returns (v: real)
      requires board.Valid() && NodeOk(s, movesStack) && 0 <= depth < depthMax && s.mwp != MOVES_FOR_DRAW
      requires board.Abs() == Generated(s) && possibilities == Generate(s).moves
      modifies board, board.tiles, this`movesStack
      ensures board.Valid() && movesStack == old(movesStack)
      ensures (v, board.Abs()) == Node(s, old(movesStack), depth, depthMax, max, alpha, beta)
      decreases depthMax - depth, Alive(s), 0, 2
    {
      var positionValue := if max then MIN_POS_VAL else MAX_POS_VAL;
      var sign := if max then 1 else -1;
      var a, b := alpha, beta;
      ghost var node := Node(s, movesStack, depth, depthMax, max, alpha, beta);
      SearchStart(s, movesStack, depth, depthMax, max, alpha, beta);
      var i := 0;
      while i < |possibilities|
        invariant board.Valid() && movesStack == old(movesStack)
        invariant Searching(board.Abs(), s, movesStack, possibilities, i, depth, depthMax, max, a, b, positionValue, node)
        decreases |possibilities| - i
      {
        positionValue, a, b := Pass(possibilities, i, s, depth, max, sign, a, b, positionValue, node);
        if a >= b {
          return positionValue;
        }
        i := i + 1;
      }
      SearchDone(board.Abs(), s, movesStack, possibilities, depth, depthMax, max, a, b, positionValue, node);
      v := positionValue;
    }

    /**
     * The body of miniMaxAlphaBeta's loop: the i-th move's value, compared by
     * Math.signum with the best so far, may replace it, and the best so far
     * raises alpha for Max or lowers beta for Min.
     */
    method Pass(moves: seq<Move>, i: int, ghost s: State, depth: int, max: bool, sign: int,
                a: real, b: real, pv: real, ghost node: (real, State)) returns (pv': real, a': real, b': real)
      requires board.Valid() && i < |moves| && sign == (if max then 1 else -1)
      requires Searching(board.Abs(), s, movesStack, moves, i, depth, depthMax, max, a, b, pv, node)
      modifies board, board.tiles, this`movesStack
      ensures board.Valid() && movesStack == old(movesStack)
      ensures a' >= b' ==> (pv', board.Abs()) == node
      ensures a' < b' ==> Searching(board.Abs(), s, movesStack, moves, i + 1, depth, depthMax, max, a', b', pv', node)
      decreases depthMax - depth, Alive(s), 0, 1
    {
      ghost var t := board.Abs();
      assert moves[i] in moves;
      var moveValue := TryMove(moves[i], s, depth, max, a, b);
      pv', a', b' := pv, a, b;
      if Signum(moveValue - pv) == sign {
        pv' := moveValue;
      }
      if max && pv' > a {
        a' := pv';
      } else if !max && pv' < b {
        b' := pv';
      }
      LoopPass(t, s, movesStack, moves, i, depth, depthMax, max, a, b, pv, node, moveValue, board.Abs(), pv', a', b');
    }

    /**
     * One pass of miniMaxAlphaBeta's loop: the move is pushed and made, the
     * position is searched at the same depth for the same side while the
     * streak goes on and one level deeper for the other side otherwise, and the
     * move, as the board recorded it, is popped and taken back.
     */
    method TryMove(m: Move, ghost s0: State, depth: int, max: bool, alpha: real, beta: real) returns (v: real)
      requires board.Valid() && SiblingOk(board.Abs(), movesStack) && SamePlace(board.Abs(), s0) && ChosenOk(s0)
      requires Fits(s0, m) && DestClear(m, movesStack) && 0 <= depth < depthMax
      modifies board, board.tiles, this`movesStack
      ensures board.Valid() && movesStack == old(movesStack)
      ensures (v, board.Abs()) == Minimax.Step(old(board.Abs()), s0, old(movesStack), m, depth, depthMax, max, alpha, beta)
      decreases depthMax - depth, Alive(s0), 0, 0
    {
      ghost var t := board.Abs();
      ghost var stack := movesStack;
      FitsTransfer(s0, t, m);
      PushMake(m, t);
      ghost var r := Record(m, MakeTrace(t, m));
      ghost var q := board.Abs();
      v := SearchBelow(depth, max, alpha, beta);
      PopUndo(t, stack, m, r, q);
    }

    /** The middle of a pass: the same depth and side while the streak goes on, one level deeper for the other side otherwise. */
    method SearchBelow(depth: int, max: bool, alpha: real, beta: real) returns (v: real)
      requires board.Valid() && NodeOk(board.Abs(), movesStack) && 0 <= depth < depthMax
      modifies board, board.tiles, this`movesStack
      ensures board.Valid() && movesStack == old(movesStack)
      ensures (v, board.Abs()) == if old(board.isOnStreak) then Node(old(board.Abs()), old(movesStack), depth, depthMax, max, alpha, beta)
                                  else Node(old(board.Abs()), old(movesStack), depth + 1, depthMax, !max, alpha, beta)
      decreases if board.isOnStreak then depthMax - depth else depthMax - depth - 1, Alive(board.Abs()), 2, 0
    {
      if board.isOnStreak {
        v := MiniMaxAlphaBeta(depth, max, alpha, beta);
      } else {
        v := MiniMaxAlphaBeta(depth + 1, !max, alpha, beta);
      }
    }

    /** The first half of a pass: the move is pushed, then made, and the board records into it what it took. */
    method PushMake(m: Move, ghost t: State)
      requires board.Valid() && board.Abs() == t && SiblingOk(t, movesStack) && Fits(t, m) && DestClear(m, movesStack)
      modifies board, board.tiles, this`movesStack
      ensures board.Valid() && MakeDefined(t, m) && board.Abs() == Make(t, m)
      ensures var r := Record(m, MakeTrace(t, m));
        movesStack == old(movesStack) + [r] && Pushed(t, old(movesStack), m, r, board.Abs()) &&
        NodeOk(board.Abs(), movesStack)
    {
      ghost var stack := movesStack;
      MakeOk(t, stack, m);
      movesStack := movesStack + [m];
      MakeMove(m);
      assert (stack + [m])[..|stack|] == stack;
    }

    /** The second half of a pass: the move, as the board recorded it, is popped and taken back. */
    method PopUndo(ghost t: State, ghost stack: seq<Move>, ghost m: Move, ghost r: Move, ghost q: State)
      requires board.Valid() && movesStack == stack + [r] && Pushed(t, stack, m, r, q) && SamePlace(board.Abs(), q)
      modifies board, board.tiles, this`movesStack
      ensures board.Valid() && movesStack == stack && board.Abs() == Undo(old(board.Abs()), stack, r)
    {
      var top := movesStack[|movesStack| - 1];
      movesStack := movesStack[..|movesStack| - 1];
      assert movesStack == stack;
      LandingSame(t, r, q, board.Abs());
      UndoReadyOk(t, stack, m, r, board.Abs());
      UndoMove(top);
    }

    // -------------------------------------------------------------------------
    // findBestMove

    /**
     * findBestMove: nothing to play without a move, the first move by default
     * and the only one without a search; otherwise each move is made and
     * searched from depth 1 in the window (bestValue, MAX_POS_VAL), the first
     * with a better value becomes the move to play, and a won position ends the
     * loop.
     */
    method FindBestMove()
      requires board.Valid() && NodeOk(board.Abs(), movesStack) && 1 <= depthMax
      modifies board, board.tiles, this`movesStack, this`moveToPlay
      ensures board.Valid() && movesStack == old(movesStack)
      ensures var res := Root(old(board.Abs()), old(movesStack), depthMax);
        board.Abs() == res.1 && moveToPlay == if res.0.Some? then res.0 else old(moveToPlay)
    {
      ghost var s := board.Abs();
      var possibilities := GenerateMoves();
      if |possibilities| == 0 {
        return;
      }
      moveToPlay := Some(possibilities[0]);
      if |possibilities| == 1 {
        return;
      }
      ChooseStart(board.Abs(), s, movesStack, possibilities, depthMax);
      ghost var res := Root(s, movesStack, depthMax);
      ChooseBest(possibilities, s, (res.0.value, res.1));
    }

    /** findBestMove's loop over two moves or more, with the first as the move to play so far. */
    method ChooseBest(possibilities: seq<Move>, ghost s: State, ghost root: (Move, State))
      requires board.Valid() && |possibilities| >= 2 && moveToPlay == Some(possibilities[0])
      requires Choosing(board.Abs(), s, movesStack, possibilities, 0, depthMax, possibilities[0], MIN_POS_VAL, root)
      modifies board, board.tiles, this`movesStack, this`moveToPlay
      ensures board.Valid() && movesStack == old(movesStack)
      ensures moveToPlay.Some? && (moveToPlay.value, board.Abs()) == root
    {
      var bestValue := MIN_POS_VAL;
      var isOver := false;
      var i := 0;
      // the loop stops after the last move, or breaks off once a won position is found
      while i < |possibilities| && !isOver
        invariant board.Valid() && movesStack == old(movesStack) && moveToPlay.Some?
        invariant isOver ==> (moveToPlay.value, board.Abs()) == root
        invariant !isOver ==> Choosing(board.Abs(), s, movesStack, possibilities, i, depthMax, moveToPlay.value, bestValue, root)
        decreases |possibilities| - i, if isOver then 0 else 1
      {
        bestValue, isOver := RootPass(possibilities, i, s, bestValue, root);
        if !isOver {
          i := i + 1;
        }
      }
      if !isOver {
        ChooseDone(board.Abs(), s, movesStack, possibilities, i, depthMax, moveToPlay.value, bestValue, root);
      }
    }

    /** The body of findBestMove's loop. */
    method RootPass(moves: seq<Move>, i: int, ghost s: State, bestValue: real, ghost root: (Move, State))
      returns (bestValue': real, isOver: bool)
      requires board.Valid() && moveToPlay.Some? && i < |moves|
      requires Choosing(board.Abs(), s, movesStack, moves, i, depthMax, moveToPlay.value, bestValue, root)
      modifies board, board.tiles, this`movesStack, this`moveToPlay
      ensures board.Valid() && movesStack == old(movesStack) && moveToPlay.Some?
      ensures isOver ==> (moveToPlay.value, board.Abs()) == root
      ensures !isOver ==> Choosing(board.Abs(), s, movesStack, moves, i + 1, depthMax, moveToPlay.value, bestValue', root)
    {
      var moveValue := RootScore(moves, i, s, moveToPlay.value, bestValue, root);
      bestValue', isOver := bestValue, false;
      if moveValue > bestValue {
        bestValue' := moveValue;
        moveToPlay := Some(moves[i]);
        if bestValue' == MAX_POS_VAL {
          isOver := true;
        }
      }
    }

    /** The i-th move's value in findBestMove's loop, and what the loop knows once it is compared with the best so far. */
    method RootScore(moves: seq<Move>, i: int, ghost s: State, ghost best: Move, bestValue: real, ghost root: (Move, State))
      returns (moveValue: real)
      requires board.Valid() && i < |moves|
      requires Choosing(board.Abs(), s, movesStack, moves, i, depthMax, best, bestValue, root)
      modifies board, board.tiles, this`movesStack
      ensures board.Valid() && movesStack == old(movesStack)
      ensures var best1 := if moveValue > bestValue then moves[i] else best;
              var bestValue1 := if moveValue > bestValue then moveValue else bestValue;
              var isOver := moveValue > bestValue && moveValue == MAX_POS_VAL;
              (isOver ==> (best1, board.Abs()) == root) &&
              (!isOver ==> Choosing(board.Abs(), s, movesStack, moves, i + 1, depthMax, best1, bestValue1, root))
    {
      ghost var t, stack := board.Abs(), movesStack;
      assert moves[i] in moves;
      moveValue := RootTry(moves[i], s, bestValue);
      ChoosePass(t, s, stack, moves, i, depthMax, best, bestValue, root, moveValue, board.Abs(),
                 if moveValue > bestValue then moves[i] else best, if moveValue > bestValue then moveValue else bestValue,
                 moveValue > bestValue && moveValue == MAX_POS_VAL);
    }

    /** One move of findBestMove: pushed and made, searched from depth 1 for the side the move leaves to play, popped and taken back. */
    method RootTry(m: Move, ghost s0: State, bestValue: real) returns (v: real)
      requires board.Valid() && SiblingOk(board.Abs(), movesStack) && SamePlace(board.Abs(), s0) && ChosenOk(s0)
      requires Fits(s0, m) && DestClear(m, movesStack) && 1 <= depthMax
      modifies board, board.tiles, this`movesStack
      ensures board.Valid() && movesStack == old(movesStack)
      ensures (v, board.Abs()) == RootStep(old(board.Abs()), s0, old(movesStack), m, depthMax, bestValue)
    {
      ghost var t := board.Abs();
      ghost var stack := movesStack;
      FitsTransfer(s0, t, m);
      PushMake(m, t);
      ghost var r := Record(m, MakeTrace(t, m));
      ghost var q := board.Abs();
      v := MiniMaxAlphaBeta(1, board.isOnStreak, bestValue, MAX_POS_VAL);
      PopUndo(t, stack, m, r, q);
    }

    // -------------------------------------------------------------------------
    // evaluate (on the board's side)

    /**
     * evaluate: a pawn chosen off a streak is put back, the search runs from
     * depth 0 with the side to move maximizing, and its value, negated, is the
     * value for White; the moves-without-progress counter is saved around the
     * search and isComputerPlaying is cleared after it. The position is the one
     * searched from.
     */
    method Evaluate() returns (posValForWhite: real, msgIndex: int)
      requires board.Valid() && In(board.n, board.chosenRow, board.chosenCol)
      requires NodeOk(EvalStart(board.Abs()), movesStack) && 0 <= depthMax
      modifies board, board.tiles, this`movesStack
      ensures board.Valid() && movesStack == old(movesStack)
      ensures var res := Node(EvalStart(old(board.Abs())), old(movesStack), 0, depthMax, old(board.turn), MIN_POS_VAL, MAX_POS_VAL);
        posValForWhite == -res.0 && board.Abs() == res.1.(isComputerPlaying := false, mwp := old(board.mwp))
      ensures SamePlace(board.Abs(), EvalStart(old(board.Abs())).(isComputerPlaying := false))
      ensures board.mwp == old(board.mwp) && !board.isComputerPlaying && InRange(posValForWhite)
      ensures msgIndex == EvalBand(posValForWhite)
    {
      if !board.isOnStreak && board.isPawnChosen {
        board.TurnPawnOff();
      }
      var temp := board.mwp;
      var v := EvaluationSearch();
      posValForWhite := -v;
      msgIndex := EvalBand(posValForWhite);
      board.mwp := temp;
    }

    /**
     * evaluate's search: from depth 0 with the side to move maximizing, with
     * isComputerPlaying set for its duration.
     */
    method EvaluationSearch() returns (v: real)
      requires board.Valid() && NodeOk(board.Abs().(isComputerPlaying := true), movesStack) && 0 <= depthMax
      modifies board, board.tiles, this`movesStack
      ensures board.Valid() && movesStack == old(movesStack)
      ensures var res := Node(old(board.Abs()).(isComputerPlaying := true), old(movesStack), 0, depthMax, old(board.turn), MIN_POS_VAL, MAX_POS_VAL);
        v == res.0 && board.Abs() == res.1.(isComputerPlaying := false)
    {
      board.isComputerPlaying := true;
      v := MiniMaxAlphaBeta(0, board.turn, MIN_POS_VAL, MAX_POS_VAL);
      board.isComputerPlaying := false;
    }

    // -------------------------------------------------------------------------
    // play

    /** play's search: findBestMove from no move, with isComputerPlaying set for its duration. */
    method SearchAsComputer()
      requires board.Valid() && NodeOk(board.Abs().(isComputerPlaying := true), movesStack) && 1 <= depthMax
      modifies board, board.tiles, this`movesStack, this`moveToPlay
      ensures board.Valid() && movesStack == old(movesStack)
      ensures var res := Root(old(board.Abs()).(isComputerPlaying := true), old(movesStack), depthMax);
        moveToPlay == res.0 && board.Abs() == res.1.(isComputerPlaying := false)
    {
      moveToPlay := None;
      board.isComputerPlaying := true;
      FindBestMove();
      board.isComputerPlaying := false;
    }

    /**
     * play: the search runs with isComputerPlaying set and the flag is cleared
     * after it; the move found is made, and without one the user has won.
     */
    method Play()
      requires board.Valid() && NodeOk(board.Abs().(isComputerPlaying := true), movesStack) && 1 <= depthMax
      modifies board, board.tiles, this`movesStack, this`moveToPlay
      ensures board.Valid()
      ensures (moveToPlay, board.Abs()) == Played(old(board.Abs()), old(movesStack), depthMax)
    {
      ghost var s := board.Abs();
      ghost var stack := movesStack;
      SearchAsComputer();
      PlayReady(s, stack, depthMax);
      if moveToPlay.Some? {
        MakeMove(moveToPlay.value);
      } else {
        board.EndGame(UserWins);
      }
    }
  }
}
