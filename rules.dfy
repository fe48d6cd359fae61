/**
 * The read-only rule tests of the engine: can a man or a king capture from a
 * square, does the side to move have a capture anywhere, and can it move at
 * all. Each test is written the way the program evaluates it, and a lemma
 * ties it to a plain statement of the rule.
 */
module Rules {
  import opened Tiles
  import opened Grids

  // ---------------------------------------------------------------------------
  // Diagonal geometry

  /** Row step of diagonal direction i, in the order of QUEEN_DIRS. */
  function DirRow(i: int): int { if i < 2 then 1 else -1 }

  /** Column step of diagonal direction i, in the order of QUEEN_DIRS. */
  function DirCol(i: int): int { if i % 2 == 0 then 1 else -1 }

  predicate Unit(d: int) { d == 1 || d == -1 }

  /** Coordinate k steps from x in direction d (d is +1 or -1); linear in k. */
  function Step(x: int, d: int, k: int): int { if d > 0 then x + k else x - k }

  /** What a king's look-ahead passes over: an empty square, marked or not. */
  predicate Passable(t: Tile) { t == Black || t == Red }

  // ---------------------------------------------------------------------------
  // canPawnCapture

  /**
   * A man on (r, c) can capture: one of the four jumps, tried in the program's
   * order, stays on the board, has a plain piece of the other side on its
   * midpoint and an empty (Black) landing square. Men capture backwards too.
   */
  predicate CanPawnCapture(g: Grid, n: int, r: int, c: int, mover: bool) {
    (c >= 2 && r >= 2 && At(g, r - 2, c - 2) == Black && Prey(At(g, r - 1, c - 1), mover)) ||
    (c >= 2 && r <= n - 3 && At(g, r + 2, c - 2) == Black && Prey(At(g, r + 1, c - 1), mover)) ||
    (c <= n - 3 && r >= 2 && At(g, r - 2, c + 2) == Black && Prey(At(g, r - 1, c + 1), mover)) ||
    (c <= n - 3 && r <= n - 3 && At(g, r + 2, c + 2) == Black && Prey(At(g, r + 1, c + 1), mover))
  }

  /** (tr, tc) is where a man on (r, c) lands when it jumps a piece of the side `mover` attacks. */
  predicate ManLanding(g: Grid, n: int, r: int, c: int, tr: int, tc: int, mover: bool) {
    In(n, tr, tc) && (tr == r + 2 || tr == r - 2) && (tc == c + 2 || tc == c - 2) &&
    At(g, tr, tc) == Black && Prey(At(g, (r + tr) / 2, (c + tc) / 2), mover)
  }

  lemma CanPawnCaptureIff(g: Grid, n: int, r: int, c: int, mover: bool)
    requires IsSquare(g, n) && In(n, r, c)
    ensures CanPawnCapture(g, n, r, c, mover) <==>
            exists tr, tc :: ManLanding(g, n, r, c, tr, tc, mover)
  {
    if CanPawnCapture(g, n, r, c, mover) {
      if c >= 2 && r >= 2 && At(g, r - 2, c - 2) == Black && Prey(At(g, r - 1, c - 1), mover) {
        assert ManLanding(g, n, r, c, r - 2, c - 2, mover);
      } else if c >= 2 && r <= n - 3 && At(g, r + 2, c - 2) == Black && Prey(At(g, r + 1, c - 1), mover) {
        assert ManLanding(g, n, r, c, r + 2, c - 2, mover);
      } else if c <= n - 3 && r >= 2 && At(g, r - 2, c + 2) == Black && Prey(At(g, r - 1, c + 1), mover) {
        assert ManLanding(g, n, r, c, r - 2, c + 2, mover);
      } else {
        assert ManLanding(g, n, r, c, r + 2, c + 2, mover);
      }
    }
  }

  // ---------------------------------------------------------------------------
  // canQueenCapture

  /**
   * The king's look along one diagonal from (r, c), at the square k steps away
   * (already known to be on the board): passable squares are skipped; the first
   * other square must be prey with an empty Black square right behind it on the
   * board. Running off the board fails.
   */
  predicate RayCapture(g: Grid, n: int, r: int, c: int, dr: int, dc: int, k: int, mover: bool)
    requires 0 <= r < n && k >= 1
    decreases n - k
  {
    var t := At(g, Step(r, dr, k), Step(c, dc, k));
    if Passable(t) then
      In(n, Step(r, dr, k + 1), Step(c, dc, k + 1)) && RayCapture(g, n, r, c, dr, dc, k + 1, mover)
    else
      Prey(t, mover) && In(n, Step(r, dr, k + 1), Step(c, dc, k + 1)) &&
      At(g, Step(r, dr, k + 1), Step(c, dc, k + 1)) == Black
  }

  /** The king's look along direction i of QUEEN_DIRS. */
  predicate QueenDir(g: Grid, n: int, r: int, c: int, i: int, mover: bool)
    requires 0 <= r < n
  {
    In(n, r + DirRow(i), c + DirCol(i)) && RayCapture(g, n, r, c, DirRow(i), DirCol(i), 1, mover)
  }

  /** The direction loop of canQueenCapture from index i of QUEEN_DIRS on. */
  predicate QueenDirsFrom(g: Grid, n: int, r: int, c: int, i: int, mover: bool)
    requires 0 <= r < n
    decreases 4 - i
  {
    0 <= i < 4 && (QueenDir(g, n, r, c, i, mover) || QueenDirsFrom(g, n, r, c, i + 1, mover))
  }

  /** canQueenCapture: some direction allows a capture. */
  predicate CanQueenCapture(g: Grid, n: int, r: int, c: int, mover: bool)
    requires 0 <= r < n
  {
    QueenDirsFrom(g, n, r, c, 0, mover)
  }

  /** The loop from index i finds a capture iff one of the directions i..3 has one. */
  lemma {:induction false} QueenDirsFromIff(g: Grid, n: int, r: int, c: int, i: int, mover: bool)
    requires 0 <= r < n && 0 <= i
    ensures QueenDirsFrom(g, n, r, c, i, mover) <==> exists q :: i <= q < 4 && QueenDir(g, n, r, c, q, mover)
    decreases 4 - i
  {
    if i < 4 {
      QueenDirsFromIff(g, n, r, c, i + 1, mover);
    }
  }

  /** The squares at distances from..to-1 along the diagonal are passable. */
  ghost predicate PassableRun(g: Grid, r: int, c: int, dr: int, dc: int, from: int, to: int) {
    forall j :: from <= j < to ==> Passable(At(g, Step(r, dr, j), Step(c, dc, j)))
  }

  /**
   * The rule stated directly: a (possibly empty) run of passable squares from
   * distance `from` up to distance m, prey at distance m, and an empty Black
   * square on the board at distance m + 1.
   */
  ghost predicate CaptureAtDistance(g: Grid, n: int, r: int, c: int, dr: int, dc: int,
                                    from: int, m: int, mover: bool) {
    from <= m && PassableRun(g, r, c, dr, dc, from, m) &&
    Prey(At(g, Step(r, dr, m), Step(c, dc, m)), mover) &&
    In(n, Step(r, dr, m + 1), Step(c, dc, m + 1)) &&
    At(g, Step(r, dr, m + 1), Step(c, dc, m + 1)) == Black
  }

  /** A square between two on-board squares of one diagonal is on the board. */
  lemma StepBetween(n: int, r: int, c: int, dr: int, dc: int, a: int, j: int, b: int)
    requires Unit(dr) && Unit(dc) && a <= j <= b
    requires In(n, Step(r, dr, a), Step(c, dc, a)) && In(n, Step(r, dr, b), Step(c, dc, b))
    ensures In(n, Step(r, dr, j), Step(c, dc, j))
  {
  }

  lemma {:induction false} RayCaptureSound(g: Grid, n: int, r: int, c: int, dr: int, dc: int, k: int, mover: bool)
    requires 0 <= r < n && k >= 1
    requires RayCapture(g, n, r, c, dr, dc, k, mover)
    ensures exists m :: CaptureAtDistance(g, n, r, c, dr, dc, k, m, mover)
    decreases n - k
  {
    var t := At(g, Step(r, dr, k), Step(c, dc, k));
    if Passable(t) {
      RayCaptureSound(g, n, r, c, dr, dc, k + 1, mover);
      var m :| CaptureAtDistance(g, n, r, c, dr, dc, k + 1, m, mover);
      assert CaptureAtDistance(g, n, r, c, dr, dc, k, m, mover);
    } else {
      assert CaptureAtDistance(g, n, r, c, dr, dc, k, k, mover);
    }
  }

  lemma {:induction false} RayCaptureComplete(g: Grid, n: int, r: int, c: int, dr: int, dc: int,
                                              k: int, m: int, mover: bool)
    requires 0 <= r < n && k >= 1 && Unit(dr) && Unit(dc)
    requires In(n, Step(r, dr, k), Step(c, dc, k))
    requires CaptureAtDistance(g, n, r, c, dr, dc, k, m, mover)
    ensures RayCapture(g, n, r, c, dr, dc, k, mover)
    decreases m - k
  {
    if m > k {
      assert Passable(At(g, Step(r, dr, k), Step(c, dc, k)));
      StepBetween(n, r, c, dr, dc, k, k + 1, m + 1);
      assert CaptureAtDistance(g, n, r, c, dr, dc, k + 1, m, mover);
      RayCaptureComplete(g, n, r, c, dr, dc, k + 1, m, mover);
    }
  }

  /**
   * canQueenCapture holds iff along some diagonal a possibly empty run of
   * Black/Red squares ends at prey followed by an empty Black square on the
   * board; Dead squares and pieces that are not prey block the look.
   */
  lemma CanQueenCaptureIff(g: Grid, n: int, r: int, c: int, mover: bool)
    requires IsSquare(g, n) && In(n, r, c)
    ensures CanQueenCapture(g, n, r, c, mover) <==>
            exists i, m :: 0 <= i < 4 && CaptureAtDistance(g, n, r, c, DirRow(i), DirCol(i), 1, m, mover)
  {
    QueenDirsFromIff(g, n, r, c, 0, mover);
    forall i | 0 <= i < 4
      ensures QueenDir(g, n, r, c, i, mover) <==>
              exists m :: CaptureAtDistance(g, n, r, c, DirRow(i), DirCol(i), 1, m, mover)
    {
      if exists m :: CaptureAtDistance(g, n, r, c, DirRow(i), DirCol(i), 1, m, mover) {
        var m :| CaptureAtDistance(g, n, r, c, DirRow(i), DirCol(i), 1, m, mover);
        StepBetween(n, r, c, DirRow(i), DirCol(i), 0, 1, m + 1);
        RayCaptureComplete(g, n, r, c, DirRow(i), DirCol(i), 1, m, mover);
      }
      if QueenDir(g, n, r, c, i, mover) {
        RayCaptureSound(g, n, r, c, DirRow(i), DirCol(i), 1, mover);
      }
    }
    if CanQueenCapture(g, n, r, c, mover) {
      var i :| 0 <= i < 4 && QueenDir(g, n, r, c, i, mover);
      var m :| CaptureAtDistance(g, n, r, c, DirRow(i), DirCol(i), 1, m, mover);
    }
  }

  // ---------------------------------------------------------------------------
  // DoesCaptureExist

  /** The plain piece of side `turn` on (i, j) passes its capture test. */
  predicate PieceCaptures(g: Grid, n: int, i: int, j: int, turn: bool)
    requires 0 <= i < n
  {
    if At(g, i, j) == Pawn(turn) then CanPawnCapture(g, n, i, j, turn)
    else At(g, i, j) == Queen(turn) && CanQueenCapture(g, n, i, j, turn)
  }

  /** DoesCaptureExist: some plain piece of the side to move can capture. */
  ghost predicate CaptureExists(g: Grid, n: int, turn: bool) {
    exists i, j :: 0 <= i < n && 0 <= j < n && Playable(i, j) && PieceCaptures(g, n, i, j, turn)
  }

  /**
   * The side to move is forced iff one of its plain men has a jump landing or
   * one of its plain kings sees prey with an empty square behind it. Chosen
   * pieces are not scanned.
   */
  lemma CaptureExistsIff(g: Grid, n: int, turn: bool)
    requires IsSquare(g, n) && WellColoured(g, n)
    ensures CaptureExists(g, n, turn) <==>
            exists i, j :: In(n, i, j) &&
              ((g[i][j] == Pawn(turn) && exists tr, tc :: ManLanding(g, n, i, j, tr, tc, turn)) ||
               (g[i][j] == Queen(turn) &&
                exists q, m :: 0 <= q < 4 && CaptureAtDistance(g, n, i, j, DirRow(q), DirCol(q), 1, m, turn)))
  {
    forall i, j | In(n, i, j)
      ensures (Playable(i, j) && PieceCaptures(g, n, i, j, turn)) <==>
              ((g[i][j] == Pawn(turn) && exists tr, tc :: ManLanding(g, n, i, j, tr, tc, turn)) ||
               (g[i][j] == Queen(turn) &&
                exists q, m :: 0 <= q < 4 && CaptureAtDistance(g, n, i, j, DirRow(q), DirCol(q), 1, m, turn)))
    {
      CanPawnCaptureIff(g, n, i, j, turn);
      CanQueenCaptureIff(g, n, i, j, turn);
    }
  }

  /** The scan of DoesCaptureExist has passed every playable square before row i, column j without a capture. */
  ghost predicate NoCaptureBefore(g: Grid, n: int, i: int, j: int, turn: bool) {
    forall a, c :: 0 <= a < n && 0 <= c < n && Playable(a, c) && (a < i || (a == i && c < j)) ==>
      !PieceCaptures(g, n, a, c, turn)
  }

  lemma NoCaptureStep(g: Grid, n: int, i: int, j: int, turn: bool)
    requires 0 <= i < n && (i + j) % 2 == 1 && NoCaptureBefore(g, n, i, j, turn)
    requires 0 <= j < n ==> !PieceCaptures(g, n, i, j, turn)
    ensures NoCaptureBefore(g, n, i, j + 2, turn)
  {
  }

  lemma NoCaptureRow(g: Grid, n: int, i: int, j: int, turn: bool)
    requires NoCaptureBefore(g, n, i, j, turn) && (j >= n || j == 1 - i % 2) && 0 <= i
    ensures j >= n ==> NoCaptureBefore(g, n, i + 1, 0, turn)
    ensures j == 1 - i % 2 ==> NoCaptureBefore(g, n, i, 0, turn) == NoCaptureBefore(g, n, i, j, turn)
  {
  }

  lemma NoCaptureAll(g: Grid, n: int, turn: bool)
    requires NoCaptureBefore(g, n, n, 0, turn)
    ensures !CaptureExists(g, n, turn)
  {
  }

  // ---------------------------------------------------------------------------
  // canPlay

  /** A neighbour of (i, j) in direction q that is on the board and empty. */
  predicate FreeNeighbour(g: Grid, n: int, i: int, j: int, q: int) {
    In(n, i + DirRow(q), j + DirCol(q)) && At(g, i + DirRow(q), j + DirCol(q)) == Black
  }

  /**
   * The plain piece of side `turn` on (i, j) has a quiet move: a man an empty
   * forward diagonal neighbour, a king an empty diagonal neighbour.
   */
  predicate PieceCanMove(g: Grid, n: int, i: int, j: int, turn: bool) {
    if At(g, i, j) == Pawn(turn) then
      (j > 0 && At(g, i + Forward(turn), j - 1) == Black) ||
      (j < n - 1 && At(g, i + Forward(turn), j + 1) == Black)
    else
      At(g, i, j) == Queen(turn) &&
      (FreeNeighbour(g, n, i, j, 0) || FreeNeighbour(g, n, i, j, 1) ||
       FreeNeighbour(g, n, i, j, 2) || FreeNeighbour(g, n, i, j, 3))
  }

  /** canPlay for the side to move. */
  ghost predicate CanPlay(g: Grid, n: int, turn: bool) {
    exists i, j :: 0 <= i < n && 0 <= j < n && Playable(i, j) && PieceCanMove(g, n, i, j, turn)
  }

  /** The scan of canPlay has passed every playable square before row i, column j without a move. */
  ghost predicate NoMoveBefore(g: Grid, n: int, i: int, j: int, turn: bool) {
    forall a, c :: 0 <= a < n && 0 <= c < n && Playable(a, c) && (a < i || (a == i && c < j)) ==>
      !PieceCanMove(g, n, a, c, turn)
  }

  lemma NoMoveStep(g: Grid, n: int, i: int, j: int, turn: bool)
    requires 0 <= i < n && (i + j) % 2 == 1 && NoMoveBefore(g, n, i, j, turn)
    requires 0 <= j < n ==> !PieceCanMove(g, n, i, j, turn)
    ensures NoMoveBefore(g, n, i, j + 2, turn)
  {
  }

  lemma NoMoveRow(g: Grid, n: int, i: int, j: int, turn: bool)
    requires NoMoveBefore(g, n, i, j, turn) && (j >= n || j == 1 - i % 2) && 0 <= i
    ensures j >= n ==> NoMoveBefore(g, n, i + 1, 0, turn)
    ensures j == 1 - i % 2 ==> NoMoveBefore(g, n, i, 0, turn) == NoMoveBefore(g, n, i, j, turn)
  {
  }

  lemma NoMoveAll(g: Grid, n: int, turn: bool)
    requires NoMoveBefore(g, n, n, 0, turn)
    ensures !CanPlay(g, n, turn)
  {
  }

  // ---------------------------------------------------------------------------
  // The victim of a king's capture

  /**
   * Distance of the first prey along the diagonal from (r, c), looking from
   * distance k on; -1 when the look leaves the board first (where the program
   * would index outside the grid).
   */
  function PreyDistance(g: Grid, n: int, r: int, c: int, dr: int, dc: int, k: int, mover: bool): (d: int)
    requires 0 <= r < n && k >= 1
    ensures d == -1 || (k <= d && In(n, Step(r, dr, d), Step(c, dc, d)) &&
                        Prey(At(g, Step(r, dr, d), Step(c, dc, d)), mover))
    decreases n - k
  {
    if !In(n, Step(r, dr, k), Step(c, dc, k)) then -1
    else if Prey(At(g, Step(r, dr, k), Step(c, dc, k)), mover) then k
    else PreyDistance(g, n, r, c, dr, dc, k + 1, mover)
  }

  /** Some prey lies ahead of (r, c) on the diagonal before the board edge. */
  predicate PreyAhead(g: Grid, n: int, r: int, c: int, dr: int, dc: int, mover: bool)
    requires 0 <= r < n
  {
    PreyDistance(g, n, r, c, dr, dc, 1, mover) != -1
  }

  /** Prey on the board at distance j is found by the look started at any k <= j. */
  lemma {:induction false} PreyDistanceFinds(g: Grid, n: int, r: int, c: int, dr: int, dc: int,
                                             k: int, j: int, mover: bool)
    requires In(n, r, c) && Unit(dr) && Unit(dc) && 1 <= k <= j
    requires In(n, Step(r, dr, j), Step(c, dc, j)) && Prey(At(g, Step(r, dr, j), Step(c, dc, j)), mover)
    ensures k <= PreyDistance(g, n, r, c, dr, dc, k, mover) <= j
    decreases j - k
  {
    StepBetween(n, r, c, dr, dc, 0, k, j);
    if !Prey(At(g, Step(r, dr, k), Step(c, dc, k)), mover) {
      PreyDistanceFinds(g, n, r, c, dr, dc, k + 1, j, mover);
    }
  }

  function Abs(x: int): nat { if x < 0 then -x else x }

  /** Math.signum on integers. */
  function Sign(x: int): int { if x > 0 then 1 else if x < 0 then -1 else 0 }

  /** (tr, tc) lies on a diagonal through (r, c), other than (r, c) itself. */
  predicate Diagonal(r: int, c: int, tr: int, tc: int) {
    tr != r && Abs(tr - r) == Abs(tc - c)
  }
}
