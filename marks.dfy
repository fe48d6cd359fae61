/**
 * Marking legal destinations: turnRedPawnSquaresOn and turnRedQueenSquaresOn
 * paint the squares a chosen piece may move to Red. Both are written the way
 * the program walks the board, step by step, and lemmas state what the marks
 * mean.
 */
module Marks {
  import opened Tiles
  import opened Grids
  import opened Rules

  // ---------------------------------------------------------------------------
  // What a marking may change

  /** h differs from g only by empty squares switching between Black and Red. */
  ghost predicate Recolours(g: Grid, h: Grid) {
    |g| == |h| && (forall i :: 0 <= i < |g| ==> |g[i]| == |h[i]|) &&
    forall i, j :: At(h, i, j) == At(g, i, j) || (Passable(At(g, i, j)) && Passable(At(h, i, j)))
  }

  /** A square that is Red in h but was not Red in g. */
  ghost predicate NewRed(g: Grid, h: Grid, i: int, j: int) {
    At(h, i, j) == Red && At(g, i, j) != Red
  }

  lemma RecoloursTrans(g: Grid, h: Grid, k: Grid)
    requires Recolours(g, h) && Recolours(h, k)
    ensures Recolours(g, k)
    ensures forall i, j :: NewRed(g, k, i, j) ==> NewRed(g, h, i, j) || NewRed(h, k, i, j)
  {
  }

  /** A recolouring keeps every piece, every Dead square and every unplayable square. */
  lemma RecoloursKeepsPieces(g: Grid, h: Grid)
    requires Recolours(g, h)
    ensures SameOccupants(g, h)
    ensures forall i, j :: !Passable(At(g, i, j)) ==> At(h, i, j) == At(g, i, j)
  {
    forall i | 0 <= i < |g|
      ensures forall j :: 0 <= j < |g[i]| ==> Occupy(g[i][j]) == Occupy(h[i][j])
    {
      forall j | 0 <= j < |g[i]|
        ensures Occupy(g[i][j]) == Occupy(h[i][j])
      {
        assert At(g, i, j) == g[i][j] && At(h, i, j) == h[i][j];
      }
    }
  }

  // ---------------------------------------------------------------------------
  // turnRedPawnSquaresOn

  /** The source's bound test for a jump whose row step is d: `row >= 2` or `row <= LENGTH - 3`. */
  predicate JumpFits(n: int, x: int, d: int) { if d < 0 then x >= 2 else x <= n - 3 }

  /** The jump from (r, c) in direction (dr, dc) passes the program's check. */
  predicate JumpLands(g: Grid, n: int, r: int, c: int, dr: int, dc: int, mover: bool) {
    JumpFits(n, c, dc) && JumpFits(n, r, dr) &&
    At(g, r + 2 * dr, c + 2 * dc) == Black && Prey(At(g, r + dr, c + dc), mover)
  }

  /** One of the four jump checks: mark the landing Red when it is Black and the midpoint is prey. */
  function MarkJump(g: Grid, n: int, r: int, c: int, dr: int, dc: int, mover: bool): Grid {
    if JumpLands(g, n, r, c, dr, dc, mover) then Set(g, r + 2 * dr, c + 2 * dc, Red) else g
  }

  lemma MarkJumpSpec(g: Grid, n: int, r: int, c: int, dr: int, dc: int, mover: bool)
    requires IsSquare(g, n) && In(n, r, c) && Unit(dr) && Unit(dc)
    ensures var h := MarkJump(g, n, r, c, dr, dc, mover);
      IsSquare(h, n) &&
      (JumpLands(g, n, r, c, dr, dc, mover) <==> ManLanding(g, n, r, c, r + 2 * dr, c + 2 * dc, mover)) &&
      forall i, j :: At(h, i, j) ==
        (if i == r + 2 * dr && j == c + 2 * dc && JumpLands(g, n, r, c, dr, dc, mover) then Red else At(g, i, j))
  {
    assert (r + (r + 2 * dr)) / 2 == r + dr && (c + (c + 2 * dc)) / 2 == c + dc;
  }

  /**
   * turnRedPawnSquaresOn for the chosen man on (r, c). Not forced, the two
   * forward diagonal neighbours that are Black become Red. Forced, the four
   * jumps are checked in the program's order; the prey is white when the
   * chosen square holds a chosen black man and black otherwise.
   */
  function PawnMarks(g: Grid, n: int, r: int, c: int, forced: bool, turn: bool): Grid {
    if !forced then
      var d := Forward(turn);
      var g1 := if c != 0 && At(g, r + d, c - 1) == Black then Set(g, r + d, c - 1, Red) else g;
      if c != n - 1 && At(g1, r + d, c + 1) == Black then Set(g1, r + d, c + 1, Red) else g1
    else
      var mover := At(g, r, c) == BlackPawnChosen;
      var g1 := MarkJump(g, n, r, c, -1, -1, mover);
      var g2 := MarkJump(g1, n, r, c, 1, -1, mover);
      var g3 := MarkJump(g2, n, r, c, -1, 1, mover);
      MarkJump(g3, n, r, c, 1, 1, mover)
  }

  /** The side whose pieces the forced man marking treats as prey's attacker. */
  function PawnMarkMover(g: Grid, r: int, c: int): bool { At(g, r, c) == BlackPawnChosen }

  lemma PawnMarksQuiet(g: Grid, n: int, r: int, c: int, turn: bool)
    requires IsSquare(g, n) && In(n, r, c)
    ensures var h := PawnMarks(g, n, r, c, false, turn);
      IsSquare(h, n) &&
      forall i, j :: At(h, i, j) ==
        (if i == r + Forward(turn) && (j == c - 1 || j == c + 1) && In(n, i, j) && At(g, i, j) == Black
         then Red else At(g, i, j))
  {
  }

  lemma PawnMarksForced(g: Grid, n: int, r: int, c: int, turn: bool)
    requires IsSquare(g, n) && In(n, r, c)
    ensures var h := PawnMarks(g, n, r, c, true, turn);
      IsSquare(h, n) &&
      forall i, j :: At(h, i, j) ==
        (if ManLanding(g, n, r, c, i, j, PawnMarkMover(g, r, c)) then Red else At(g, i, j))
  {
    var mover := PawnMarkMover(g, r, c);
    var g1 := MarkJump(g, n, r, c, -1, -1, mover);
    MarkJumpSpec(g, n, r, c, -1, -1, mover);
    var g2 := MarkJump(g1, n, r, c, 1, -1, mover);
    MarkJumpSpec(g1, n, r, c, 1, -1, mover);
    assert JumpLands(g1, n, r, c, 1, -1, mover) == JumpLands(g, n, r, c, 1, -1, mover);
    var g3 := MarkJump(g2, n, r, c, -1, 1, mover);
    MarkJumpSpec(g2, n, r, c, -1, 1, mover);
    assert JumpLands(g2, n, r, c, -1, 1, mover) == JumpLands(g, n, r, c, -1, 1, mover);
    var h := MarkJump(g3, n, r, c, 1, 1, mover);
    MarkJumpSpec(g3, n, r, c, 1, 1, mover);
    assert JumpLands(g3, n, r, c, 1, 1, mover) == JumpLands(g, n, r, c, 1, 1, mover);
    assert h == PawnMarks(g, n, r, c, true, turn);
    forall i, j
      ensures At(h, i, j) == (if ManLanding(g, n, r, c, i, j, mover) then Red else At(g, i, j))
    {
      ManLandingIsJump(g, n, r, c, i, j, mover);
    }
  }

  /** The landing squares of a man are exactly the four jumps that pass the program's checks. */
  lemma ManLandingIsJump(g: Grid, n: int, r: int, c: int, i: int, j: int, mover: bool)
    requires IsSquare(g, n) && In(n, r, c)
    ensures ManLanding(g, n, r, c, i, j, mover) <==>
      ((i == r - 2 && j == c - 2 && JumpLands(g, n, r, c, -1, -1, mover)) ||
       (i == r + 2 && j == c - 2 && JumpLands(g, n, r, c, 1, -1, mover)) ||
       (i == r - 2 && j == c + 2 && JumpLands(g, n, r, c, -1, 1, mover)) ||
       (i == r + 2 && j == c + 2 && JumpLands(g, n, r, c, 1, 1, mover)))
  {
    if i == r - 2 && j == c - 2 {
      assert (r + i) / 2 == r - 1 && (c + j) / 2 == c - 1;
    } else if i == r + 2 && j == c - 2 {
      assert (r + i) / 2 == r + 1 && (c + j) / 2 == c - 1;
    } else if i == r - 2 && j == c + 2 {
      assert (r + i) / 2 == r - 1 && (c + j) / 2 == c + 1;
    } else if i == r + 2 && j == c + 2 {
      assert (r + i) / 2 == r + 1 && (c + j) / 2 == c + 1;
    }
  }

  /**
   * Only Black squares turn Red. Not forced, a square becomes Red iff it is an
   * empty forward diagonal neighbour; forced, iff it is a jump landing.
   */
  lemma PawnMarksSpec(g: Grid, n: int, r: int, c: int, forced: bool, turn: bool)
    requires IsSquare(g, n) && In(n, r, c)
    ensures var h := PawnMarks(g, n, r, c, forced, turn);
      IsSquare(h, n) && Recolours(g, h) &&
      (forall i, j :: At(h, i, j) == At(g, i, j) || (At(g, i, j) == Black && At(h, i, j) == Red)) &&
      (!forced ==> forall i, j :: NewRed(g, h, i, j) <==>
         (i == r + Forward(turn) && (j == c - 1 || j == c + 1) && In(n, i, j) && At(g, i, j) == Black)) &&
      (forced ==> forall i, j :: NewRed(g, h, i, j) <==>
         ManLanding(g, n, r, c, i, j, PawnMarkMover(g, r, c)))
  {
    if forced {
      PawnMarksForced(g, n, r, c, turn);
    } else {
      PawnMarksQuiet(g, n, r, c, turn);
    }
  }

  // ---------------------------------------------------------------------------
  // turnRedQueenSquaresOn

  /** Signed distance of x from x0 along a diagonal whose step is d. */
  function Dist(x0: int, d: int, x: int): int { if d > 0 then x - x0 else x0 - x }

  /** (i, j) lies on the diagonal ray from (r0, c0) with step (dr, dc), past (r0, c0). */
  predicate OnRay(r0: int, c0: int, dr: int, dc: int, i: int, j: int) {
    Dist(r0, dr, i) == Dist(c0, dc, j) >= 1
  }

  /**
   * The local variables of the walk along one direction: the grid, the current
   * square, whether an enemy was found and where, and whether a further
   * capture ("double") was found beyond it.
   */
  datatype Walker = Walker(g: Grid, r: int, c: int, enemyFound: bool, er: int, ec: int, doubleFound: bool)

  /**
   * The `while (true)` loop of turnRedQueenSquaresOn, entered with the current
   * square on the board. Not forced, it marks Black squares until the first
   * other square. Forced, it walks on (past any square) until it meets prey,
   * then marks the Black squares behind the prey until the first other square,
   * checking on each of them, with the prey lifted, whether the king could
   * capture again. It returns the variables as the loop leaves them.
   */
  function Walk(w: Walker, n: int, dr: int, dc: int, forced: bool, mover: bool): Walker
    requires In(n, w.r, w.c) && Unit(dr)
    decreases if dr > 0 then n - w.r else w.r + 1
  {
    if Stops(w, forced) then w
    else
      var a := Advance(MarkHere(w, n, forced, mover), n, dr, dc, forced, mover);
      if !In(n, a.r, a.c) then a else Walk(a, n, dr, dc, forced, mover)
  }

  /** The two `break`s at the head of the loop. */
  predicate Stops(w: Walker, forced: bool) {
    var t := At(w.g, w.r, w.c);
    (!forced && t != Black) || (forced && t != Black && w.enemyFound)
  }

  /**
   * The marking step: a Black square is marked when the king is forced and has
   * passed the enemy, or is not forced and has not; forced, the first such
   * square from which the king, with the enemy lifted, could capture again
   * records a double.
   */
  function MarkHere(w: Walker, n: int, forced: bool, mover: bool): Walker
    requires 0 <= w.r < n
  {
    var t := At(w.g, w.r, w.c);
    var mark := forced == w.enemyFound && t == Black;
    var df := w.doubleFound ||
              (mark && forced && CanQueenCapture(Set(w.g, w.er, w.ec, Black), n, w.r, w.c, mover));
    w.(g := if mark then Set(w.g, w.r, w.c, Red) else w.g, doubleFound := df)
  }

  /**
   * The step to the next square; forced, a first prey met there is recorded as
   * the enemy and stepped over.
   */
  function Advance(w: Walker, n: int, dr: int, dc: int, forced: bool, mover: bool): Walker {
    var r1 := w.r + dr;
    var c1 := w.c + dc;
    if In(n, r1, c1) && Prey(At(w.g, r1, c1), mover) && !w.enemyFound && forced then
      w.(r := r1 + dr, c := c1 + dc, enemyFound := true, er := r1, ec := c1)
    else
      w.(r := r1, c := c1)
  }

  /**
   * The inner pruning loop: walking back from (r, c) over Red squares, a Red
   * square from which the king could not capture again turns Black.
   */
  function PruneBack(g: Grid, n: int, r: int, c: int, dr: int, dc: int, mover: bool): Grid
    requires Unit(dr)
    decreases if dr > 0 then r + 1 else n - r
  {
    if !In(n, r, c) || At(g, r, c) != Red then g
    else
      var g1 := if !CanQueenCapture(g, n, r, c, mover) then Set(g, r, c, Black) else g;
      PruneBack(g1, n, r - dr, c - dc, dr, dc, mover)
  }

  /** One step of the pruning loop, from a Red square on the board whose capture test gave b. */
  lemma PruneBackStep(g: Grid, h: Grid, n: int, r: int, c: int, r1: int, c1: int, dr: int, dc: int, mover: bool, b: bool)
    requires Unit(dr) && In(n, r, c) && At(g, r, c) == Red && b == CanQueenCapture(g, n, r, c, mover)
    requires h == (if b then g else Set(g, r, c, Black)) && r1 == r - dr && c1 == c - dc
    ensures PruneBack(h, n, r1, c1, dr, dc, mover) == PruneBack(g, n, r, c, dr, dc, mover)
  {
  }

  /**
   * The pruning after a double was found: the enemy is lifted, the walk steps
   * back onto the last Red square when it stopped off the board or on a square
   * that is not Red, un-marks backwards, and the enemy is put back.
   */
  function Prune(g: Grid, n: int, r: int, c: int, dr: int, dc: int, er: int, ec: int, mover: bool): Grid
    requires Unit(dr)
  {
    var g1 := Set(g, er, ec, Black);
    var back := !In(n, r, c) || At(g1, r, c) != Red;
    var h := PruneBack(g1, n, if back then r - dr else r, if back then c - dc else c, dr, dc, mover);
    Set(h, er, ec, At(g, er, ec))
  }

  /** Prune in its three parts: lifting the enemy, the pruning loop from (r, c), putting the enemy back. */
  lemma PruneParts(g: Grid, g1: Grid, h: Grid, f: Grid, n: int, r0: int, c0: int, r: int, c: int,
                   dr: int, dc: int, er: int, ec: int, t: Tile, mover: bool)
    requires Unit(dr) && g1 == Set(g, er, ec, Black) && t == At(g, er, ec)
    requires var back := !In(n, r0, c0) || At(g1, r0, c0) != Red;
             r == (if back then r0 - dr else r0) && c == (if back then c0 - dc else c0)
    requires h == PruneBack(g1, n, r, c, dr, dc, mover) && f == Set(h, er, ec, t)
    ensures f == Prune(g, n, r0, c0, dr, dc, er, ec, mover)
  {
  }

  /** One iteration of the direction loop of turnRedQueenSquaresOn, for direction i of QUEEN_DIRS. */
  function DirMarks(g: Grid, n: int, r: int, c: int, i: int, forced: bool, mover: bool): Grid {
    var dr := DirRow(i);
    var dc := DirCol(i);
    if !In(n, r + dr, c + dc) then g
    else
      var w := StartWalker(g, r, c, dr, dc, forced, mover);
      if !In(n, w.r, w.c) then g
      else
        var e := Walk(w, n, dr, dc, forced, mover);
        if e.doubleFound then Prune(e.g, n, e.r, e.c, dr, dc, e.er, e.ec, mover) else e.g
  }

  /**
   * turnRedQueenSquaresOn for the chosen king on (r, c): the four directions
   * in order, each seeing the marks of the ones before. The prey is the side
   * not to move (`mover` is the side to move).
   */
  function QueenMarks(g: Grid, n: int, r: int, c: int, forced: bool, mover: bool): Grid {
    var g1 := DirMarks(g, n, r, c, 0, forced, mover);
    var g2 := DirMarks(g1, n, r, c, 1, forced, mover);
    var g3 := DirMarks(g2, n, r, c, 2, forced, mover);
    DirMarks(g3, n, r, c, 3, forced, mover)
  }

  // ---------------------------------------------------------------------------
  // What the king's marks mean

  /** The grid h only adds Red marks to g on the ray, and only behind prey when forced. */
  ghost predicate MarksOnRay(g0: Grid, h: Grid, n: int, r0: int, c0: int, dr: int, dc: int,
                             forced: bool, mover: bool)
    requires 0 <= r0 < n
  {
    IsSquare(h, n) &&
    forall i, j :: At(h, i, j) == At(g0, i, j) ||
      (At(g0, i, j) == Black && At(h, i, j) == Red && OnRay(r0, c0, dr, dc, i, j) &&
       (forced ==> PreyAhead(g0, n, r0, c0, dr, dc, mover)))
  }

  /** What holds of the walk's variables at the head of each iteration. */
  ghost predicate WalkInv(w: Walker, g0: Grid, n: int, r0: int, c0: int, dr: int, dc: int,
                          forced: bool, mover: bool)
  {
    In(n, r0, c0) && IsSquare(g0, n) && Unit(dr) && Unit(dc) &&
    MarksOnRay(g0, w.g, n, r0, c0, dr, dc, forced, mover) &&
    (forced && !w.enemyFound ==> w.g == g0) &&
    (w.enemyFound ==> forced && OnRay(r0, c0, dr, dc, w.er, w.ec) && In(n, w.er, w.ec) &&
                      Prey(At(g0, w.er, w.ec), mover) && Dist(r0, dr, w.er) < Dist(r0, dr, w.r)) &&
    (w.doubleFound ==> w.enemyFound) &&
    Dist(r0, dr, w.r) == Dist(c0, dc, w.c) >= 1
  }

  /** An enemy on the ray means the victim search of a capture in that direction finds prey. */
  lemma EnemyGivesPreyAhead(g0: Grid, n: int, r0: int, c0: int, dr: int, dc: int, er: int, ec: int, mover: bool)
    requires In(n, r0, c0) && Unit(dr) && Unit(dc) && In(n, er, ec)
    requires OnRay(r0, c0, dr, dc, er, ec) && Prey(At(g0, er, ec), mover)
    ensures PreyAhead(g0, n, r0, c0, dr, dc, mover)
  {
    var j := Dist(r0, dr, er);
    assert Step(r0, dr, j) == er && Step(c0, dc, j) == ec;
    PreyDistanceFinds(g0, n, r0, c0, dr, dc, 1, j, mover);
  }

  lemma MarkHereOk(w: Walker, g0: Grid, n: int, r0: int, c0: int, dr: int, dc: int, forced: bool, mover: bool)
    requires In(n, w.r, w.c) && WalkInv(w, g0, n, r0, c0, dr, dc, forced, mover) && !Stops(w, forced)
    ensures WalkInv(MarkHere(w, n, forced, mover), g0, n, r0, c0, dr, dc, forced, mover)
  {
    var t := At(w.g, w.r, w.c);
    if forced == w.enemyFound && t == Black {
      assert At(g0, w.r, w.c) == Black;
      if forced {
        EnemyGivesPreyAhead(g0, n, r0, c0, dr, dc, w.er, w.ec, mover);
      }
    }
  }

  lemma AdvanceOk(w: Walker, g0: Grid, n: int, r0: int, c0: int, dr: int, dc: int, forced: bool, mover: bool)
    requires WalkInv(w, g0, n, r0, c0, dr, dc, forced, mover)
    ensures WalkInv(Advance(w, n, dr, dc, forced, mover), g0, n, r0, c0, dr, dc, forced, mover)
  {
    var r1 := w.r + dr;
    var c1 := w.c + dc;
    var a := Advance(w, n, dr, dc, forced, mover);
    assert a.g == w.g && a.doubleFound == w.doubleFound;
    assert Dist(r0, dr, r1) == Dist(r0, dr, w.r) + 1 && Dist(c0, dc, c1) == Dist(c0, dc, w.c) + 1;
    if In(n, r1, c1) && Prey(At(w.g, r1, c1), mover) && !w.enemyFound && forced {
      assert At(w.g, r1, c1) == At(g0, r1, c1);
      assert OnRay(r0, c0, dr, dc, r1, c1);
      assert a == w.(r := r1 + dr, c := c1 + dc, enemyFound := true, er := r1, ec := c1);
    } else {
      assert a == w.(r := r1, c := c1);
    }
  }

  lemma {:induction false} WalkSound(w: Walker, g0: Grid, n: int, r0: int, c0: int, dr: int, dc: int,
                                     forced: bool, mover: bool)
    requires In(n, w.r, w.c) && WalkInv(w, g0, n, r0, c0, dr, dc, forced, mover)
    ensures WalkInv(Walk(w, n, dr, dc, forced, mover), g0, n, r0, c0, dr, dc, forced, mover)
    decreases if dr > 0 then n - w.r else w.r + 1
  {
    if !Stops(w, forced) {
      var m := MarkHere(w, n, forced, mover);
      MarkHereOk(w, g0, n, r0, c0, dr, dc, forced, mover);
      var a := Advance(m, n, dr, dc, forced, mover);
      AdvanceOk(m, g0, n, r0, c0, dr, dc, forced, mover);
      if In(n, a.r, a.c) {
        WalkSound(a, g0, n, r0, c0, dr, dc, forced, mover);
      }
    }
  }

  /** Square (i, j) of h is that of g, or a Red mark of g taken off. */
  predicate UnmarkedAt(g: Grid, h: Grid, i: int, j: int) {
    At(h, i, j) == At(g, i, j) || (At(g, i, j) == Red && At(h, i, j) == Black)
  }

  /** h only takes Red marks off g. */
  ghost predicate Unmarks(g: Grid, h: Grid) {
    |g| == |h| && (forall i :: 0 <= i < |g| ==> |g[i]| == |h[i]|) &&
    forall i, j :: UnmarkedAt(g, h, i, j)
  }

  lemma {:induction false} PruneBackUnmarks(g: Grid, n: int, r: int, c: int, dr: int, dc: int, mover: bool)
    requires Unit(dr)
    ensures Unmarks(g, PruneBack(g, n, r, c, dr, dc, mover))
    decreases if dr > 0 then r + 1 else n - r
  {
    if In(n, r, c) && At(g, r, c) == Red {
      var g1 := if !CanQueenCapture(g, n, r, c, mover) then Set(g, r, c, Black) else g;
      assert Unmarks(g, g1) by {
        forall i, j
          ensures UnmarkedAt(g, g1, i, j)
        {
          assert At(g1, i, j) == At(g, i, j) || (i == r && j == c);
        }
      }
      PruneBackUnmarks(g1, n, r - dr, c - dc, dr, dc, mover);
      UnmarksTrans(g, g1, PruneBack(g1, n, r - dr, c - dc, dr, dc, mover));
    } else {
      assert forall i, j :: UnmarkedAt(g, g, i, j);
    }
  }

  lemma UnmarksTrans(g: Grid, g1: Grid, h: Grid)
    requires Unmarks(g, g1) && Unmarks(g1, h)
    ensures Unmarks(g, h)
  {
    forall i, j
      ensures UnmarkedAt(g, h, i, j)
    {
      assert UnmarkedAt(g, g1, i, j) && UnmarkedAt(g1, h, i, j);
    }
  }

  /** Pruning only takes marks off; the lifted enemy is put back as it was. */
  lemma PruneUnmarks(g: Grid, n: int, r: int, c: int, dr: int, dc: int, er: int, ec: int, mover: bool)
    requires Unit(dr)
    ensures Unmarks(g, Prune(g, n, r, c, dr, dc, er, ec, mover))
  {
    var g1 := Set(g, er, ec, Black);
    var back := !In(n, r, c) || At(g1, r, c) != Red;
    var h := PruneBack(g1, n, if back then r - dr else r, if back then c - dc else c, dr, dc, mover);
    PruneBackUnmarks(g1, n, if back then r - dr else r, if back then c - dc else c, dr, dc, mover);
    var p := Set(h, er, ec, At(g, er, ec));
    forall i, j
      ensures UnmarkedAt(g, p, i, j)
    {
      assert UnmarkedAt(g1, h, i, j);
    }
  }

  /**
   * What one direction of the king's marking may do to g0: recolour empty
   * squares only, and every new Red square was Black, lies on the ray and,
   * when forced, has prey ahead of the king in that direction.
   */
  ghost predicate DirOk(g0: Grid, h: Grid, n: int, r0: int, c0: int, dr: int, dc: int, forced: bool, mover: bool)
    requires 0 <= r0 < n
  {
    IsSquare(h, n) && Recolours(g0, h) &&
    forall i, j :: NewRed(g0, h, i, j) ==>
      At(g0, i, j) == Black && OnRay(r0, c0, dr, dc, i, j) &&
      (forced ==> PreyAhead(g0, n, r0, c0, dr, dc, mover))
  }

  lemma MarksOnRayDirOk(g0: Grid, h: Grid, n: int, r0: int, c0: int, dr: int, dc: int, forced: bool, mover: bool)
    requires 0 <= r0 < n && IsSquare(g0, n) && MarksOnRay(g0, h, n, r0, c0, dr, dc, forced, mover)
    ensures DirOk(g0, h, n, r0, c0, dr, dc, forced, mover)
  {
  }

  lemma DirOkUnmarks(g0: Grid, g: Grid, h: Grid, n: int, r0: int, c0: int, dr: int, dc: int, forced: bool, mover: bool)
    requires 0 <= r0 < n && DirOk(g0, g, n, r0, c0, dr, dc, forced, mover) && Unmarks(g, h)
    ensures DirOk(g0, h, n, r0, c0, dr, dc, forced, mover)
  {
    forall i, j
      ensures At(h, i, j) == At(g0, i, j) || (Passable(At(g0, i, j)) && Passable(At(h, i, j)))
      ensures NewRed(g0, h, i, j) ==> NewRed(g0, g, i, j)
    {
      assert UnmarkedAt(g, h, i, j);
    }
  }

  /** The walker DirMarks starts with, when its square is on the board. */
  function StartWalker(g: Grid, r: int, c: int, dr: int, dc: int, forced: bool, mover: bool): Walker {
    if Prey(At(g, r + dr, c + dc), mover) && forced then
      Walker(g, r + 2 * dr, c + 2 * dc, true, r + dr, c + dc, false)
    else
      Walker(g, r + dr, c + dc, false, 0, 0, false)
  }

  lemma StartWalkerOk(g: Grid, n: int, r: int, c: int, dr: int, dc: int, forced: bool, mover: bool)
    requires IsSquare(g, n) && In(n, r, c) && Unit(dr) && Unit(dc) && In(n, r + dr, c + dc)
    ensures WalkInv(StartWalker(g, r, c, dr, dc, forced, mover), g, n, r, c, dr, dc, forced, mover)
  {
    assert MarksOnRay(g, g, n, r, c, dr, dc, forced, mover);
    if Prey(At(g, r + dr, c + dc), mover) && forced {
      assert OnRay(r, c, dr, dc, r + dr, c + dc) && Dist(r, dr, r + dr) < Dist(r, dr, r + 2 * dr);
    }
  }

  /** What the walk leaves, pruned or not, is a marking of that direction. */
  lemma WalkEndOk(g: Grid, e: Walker, n: int, r: int, c: int, dr: int, dc: int, forced: bool, mover: bool)
    requires WalkInv(e, g, n, r, c, dr, dc, forced, mover)
    ensures DirOk(g, if e.doubleFound then Prune(e.g, n, e.r, e.c, dr, dc, e.er, e.ec, mover) else e.g,
                  n, r, c, dr, dc, forced, mover)
  {
    MarksOnRayDirOk(g, e.g, n, r, c, dr, dc, forced, mover);
    if e.doubleFound {
      PruneUnmarks(e.g, n, e.r, e.c, dr, dc, e.er, e.ec, mover);
      DirOkUnmarks(g, e.g, Prune(e.g, n, e.r, e.c, dr, dc, e.er, e.ec, mover), n, r, c, dr, dc, forced, mover);
    }
  }

  lemma DirMarksSound(g: Grid, n: int, r: int, c: int, k: int, forced: bool, mover: bool)
    requires IsSquare(g, n) && In(n, r, c) && 0 <= k < 4
    ensures DirOk(g, DirMarks(g, n, r, c, k, forced, mover), n, r, c, DirRow(k), DirCol(k), forced, mover)
  {
    var dr := DirRow(k);
    var dc := DirCol(k);
    if In(n, r + dr, c + dc) {
      var w := StartWalker(g, r, c, dr, dc, forced, mover);
      if In(n, w.r, w.c) {
        StartWalkerOk(g, n, r, c, dr, dc, forced, mover);
        WalkSound(w, g, n, r, c, dr, dc, forced, mover);
        WalkEndOk(g, Walk(w, n, dr, dc, forced, mover), n, r, c, dr, dc, forced, mover);
      }
    }
  }

  /** Recolouring empty squares does not move the first prey on a ray. */
  lemma {:induction false} PreyDistanceRecolours(g: Grid, h: Grid, n: int, r: int, c: int, dr: int, dc: int,
                                                 k: int, mover: bool)
    requires Recolours(g, h) && 0 <= r < n && k >= 1
    ensures PreyDistance(g, n, r, c, dr, dc, k, mover) == PreyDistance(h, n, r, c, dr, dc, k, mover)
    decreases n - k
  {
    if In(n, Step(r, dr, k), Step(c, dc, k)) {
      var i, j := Step(r, dr, k), Step(c, dc, k);
      assert Prey(At(g, i, j), mover) == Prey(At(h, i, j), mover);
      if !Prey(At(g, i, j), mover) {
        PreyDistanceRecolours(g, h, n, r, c, dr, dc, k + 1, mover);
      }
    }
  }

  /**
   * The meaning of the king's marks: only empty squares change, and every new
   * Red square was Black, lies on a diagonal through the king and, when the king
   * is forced, some prey lies ahead of the king in that direction. The exact
   * squares, behind the first prey, are given by KingCaptureMarks.QueenMarksForced.
   */
  ghost predicate KingMarksOk(g: Grid, h: Grid, n: int, r: int, c: int, forced: bool, mover: bool)
    requires 0 <= r < n
  {
    IsSquare(h, n) && Recolours(g, h) &&
    forall i, j :: NewRed(g, h, i, j) ==>
      At(g, i, j) == Black && Diagonal(r, c, i, j) &&
      (forced ==> PreyAhead(g, n, r, c, Sign(i - r), Sign(j - c), mover))
  }

  lemma KingMarksStep(g: Grid, g1: Grid, n: int, r: int, c: int, k: int, forced: bool, mover: bool)
    requires IsSquare(g, n) && In(n, r, c) && 0 <= k < 4 && KingMarksOk(g, g1, n, r, c, forced, mover)
    ensures KingMarksOk(g, DirMarks(g1, n, r, c, k, forced, mover), n, r, c, forced, mover)
  {
    var dr, dc := DirRow(k), DirCol(k);
    var g2 := DirMarks(g1, n, r, c, k, forced, mover);
    DirMarksSound(g1, n, r, c, k, forced, mover);
    RecoloursTrans(g, g1, g2);
    if forced {
      PreyDistanceRecolours(g, g1, n, r, c, dr, dc, 1, mover);
    }
    forall i, j | NewRed(g, g2, i, j) && !NewRed(g, g1, i, j)
      ensures At(g, i, j) == Black && Diagonal(r, c, i, j) &&
              (forced ==> PreyAhead(g, n, r, c, Sign(i - r), Sign(j - c), mover))
    {
      assert NewRed(g1, g2, i, j);
      assert Sign(i - r) == dr && Sign(j - c) == dc;
    }
  }

  lemma QueenMarksSound(g: Grid, n: int, r: int, c: int, forced: bool, mover: bool)
    requires IsSquare(g, n) && In(n, r, c)
    ensures KingMarksOk(g, QueenMarks(g, n, r, c, forced, mover), n, r, c, forced, mover)
  {
    var g1 := DirMarks(g, n, r, c, 0, forced, mover);
    var g2 := DirMarks(g1, n, r, c, 1, forced, mover);
    var g3 := DirMarks(g2, n, r, c, 2, forced, mover);
    assert KingMarksOk(g, g, n, r, c, forced, mover);
    KingMarksStep(g, g, n, r, c, 0, forced, mover);
    KingMarksStep(g, g1, n, r, c, 1, forced, mover);
    KingMarksStep(g, g2, n, r, c, 2, forced, mover);
    KingMarksStep(g, g3, n, r, c, 3, forced, mover);
  }
}
