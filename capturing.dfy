/**
 * What makeMove does with a capture (Damka.Capture, CaptureWithPawn and
 * CaptureWithQueen during a search): the capturer lands, its victim turns
 * Dead, and either the streak goes on from the landing, with the landings of
 * the next captures marked, or the dead are lifted and the turn passes.
 * Either way the record on the stack says what was taken and crowned, and
 * the position reached is a node of the search.
 */
module Capturing {
  import opened Tiles
  import opened Grids
  import opened Rules
  import opened Marks
  import opened Engine
  import opened Search
  import opened Generation
  import opened Takeback
  import opened Making

  // ---------------------------------------------------------------------------
  // The landed position, before the streak goes on or ends

  /**
   * L is p with the capture r made up to the decision whether the streak
   * goes on: the pieces as r moves them, the victim Dead, the counters
   * updated, nothing chosen or marked, the same side to move, still forced,
   * and the dead of black's run still dead.
   */
  ghost predicate Jumped(p: State, r: Move, l: State, stack: seq<Move>) {
    r.isCapture && l.n == p.n && l.pawnRows == p.pawnRows && WellFormed(l) &&
    Lands(p, r, l.g) && NoChosen(l.g) && NoRed(l.g) &&
    In(l.n, r.toRow, r.toCol) && In(l.n, r.capturedRow, r.capturedCol) &&
    At(l.g, r.capturedRow, r.capturedCol) == Dead(!r.turn) &&
    l.whiteLeft == p.whiteLeft - Took(r, false) && l.blackLeft == p.blackLeft - Took(r, true) &&
    l.whiteQueens == p.whiteQueens + Crowned(r, false) - TookKing(r, false) &&
    l.blackQueens == p.blackQueens + Crowned(r, true) - TookKing(r, true) &&
    l.turn == r.turn && l.isForced && l.mwp == 0 &&
    l.isComputer == p.isComputer && l.isComputerPlaying && p.isComputerPlaying && l.outcome == p.outcome &&
    (r.turn ==> RunDead(l.g, stack))
  }

  /** The tile a landed piece of side `turn` stands as: a king or a man. */
  function Landed(king: bool, turn: bool): Tile { if king then Queen(turn) else Pawn(turn) }

  /** Without marks, clearing the marks changes nothing. */
  lemma MarksOffNoRed(g: Grid)
    requires NoRed(g)
    ensures MarksOff(g) == g
  {
    forall i | 0 <= i < |g|
      ensures MarksOff(g)[i] == g[i]
    {
      forall j | 0 <= j < |g[i]|
        ensures MarksOff(g)[i][j] == g[i][j]
      {
        assert At(g, i, j) == g[i][j];
      }
    }
  }

  /** Lifting the dead changes only Dead squares, to Black. */
  lemma RemoveDeadAt(g: Grid, a: int, b: int)
    ensures At(RemoveDead(g), a, b) == (if Playable(a, b) && IsDead(At(g, a, b)) then Black else At(g, a, b))
  {
  }

  // ---------------------------------------------------------------------------
  // The streak goes on

  /** The marks of the landed piece: a recolouring, whose Red squares the piece reaches by capturing. */
  lemma StreakMarks(l: State, tr: int, tc: int, king: bool)
    requires IsSquare(l.g, l.n) && In(l.n, tr, tc) && At(l.g, tr, tc) == Landed(king, l.turn) && NoRed(l.g)
    ensures var c := ContinueStreak(l, l.g, tr, tc, king);
      Recolours(Set(l.g, tr, tc, ToChosen(Landed(king, l.turn))), c.g) &&
      forall a, b :: At(c.g, a, b) == Red && (a, b) != (tr, tc) ==> Reaches(l.g, l.n, tr, tc, a, b, l.isForced, l.turn)
  {
    NoRedNoTile(l.g);
    if king {
      KingMarksReach(l.g, l.n, tr, tc, l.isForced, l.turn);
    } else {
      ManMarksReach(l.g, l.n, tr, tc, l.isForced, l.turn);
    }
  }

  /**
   * The grid of a streak that goes on: the same pieces, a chosen piece only
   * on the landing, the dead of the run still dead, and every mark a capture
   * the landed piece can make.
   */
  lemma ContinueGrid(p: State, r: Move, l: State, stack: seq<Move>, king: bool)
    requires Jumped(p, r, l, stack) && At(l.g, r.toRow, r.toCol) == Landed(king, r.turn)
    ensures var c := ContinueStreak(l, l.g, r.toRow, r.toCol, king);
      Lands(p, r, c.g) && ChosenOk(c) && (r.turn ==> RunDead(c.g, stack + [r])) && RedsLegal(c)
  {
    var tr, tc := r.toRow, r.toCol;
    var t := Landed(king, l.turn);
    var c := ContinueStreak(l, l.g, tr, tc, king);
    var g1 := Set(l.g, tr, tc, ToChosen(t));
    StreakMarks(l, tr, tc, king);
    ContinueLands(p, r, l.g, g1, c.g, t);
    if r.turn {
      ContinueRunDead(l.g, g1, c.g, stack, r);
    }
    ContinueReds(l, c, g1, tr, tc);
  }

  /** The marks keep the pieces, and the only chosen piece is the landed one. */
  lemma ContinueLands(p: State, r: Move, g: Grid, g1: Grid, h: Grid, t: Tile)
    requires Lands(p, r, g) && NoChosen(g) && IsPlain(t) && In(|g|, r.toRow, r.toCol) && |g[r.toRow]| == |g|
    requires g1 == Set(g, r.toRow, r.toCol, ToChosen(t)) && At(g, r.toRow, r.toCol) == t && Recolours(g1, h)
    ensures Lands(p, r, h)
    ensures forall a, b :: IsChosen(At(h, a, b)) ==> (a, b) == (r.toRow, r.toCol) && At(h, a, b) == ToChosen(t)
  {
    ChosenIsOrdinalPlusTwo(t);
    forall a, b
      ensures Occupy(At(h, a, b)) == AfterOcc(p, r, a, b)
      ensures IsChosen(At(h, a, b)) ==> (a, b) == (r.toRow, r.toCol) && At(h, a, b) == ToChosen(t)
    {
      assert Occupy(At(g1, a, b)) == Occupy(At(g, a, b));
    }
  }

  /** The dead of black's run, and the new victim, stay dead under the marks. */
  lemma ContinueRunDead(g: Grid, g1: Grid, h: Grid, stack: seq<Move>, r: Move)
    requires r.isCapture && r.turn && RunDead(g, stack) && At(g, r.capturedRow, r.capturedCol) == DeadWhite
    requires !IsVacant(At(g, r.toRow, r.toCol)) && Recolours(g1, h)
    requires forall a, b :: (a, b) != (r.toRow, r.toCol) ==> At(g1, a, b) == At(g, a, b)
    ensures RunDead(h, stack + [r])
  {
    TopRunPush(stack, r);
    forall v | v in TopRun(stack + [r])
      ensures At(h, v.capturedRow, v.capturedCol) == DeadWhite
    {
      assert At(g, v.capturedRow, v.capturedCol) == DeadWhite;
    }
  }

  /** Every mark of a streak that goes on is a capture the landed piece can make. */
  lemma ContinueReds(l: State, c: State, g1: Grid, tr: int, tc: int)
    requires c.n == l.n && c.turn == l.turn && c.isOnStreak && c.isForced && l.isForced && c.mwp == 0
    requires c.chosenRow == tr && c.chosenCol == tc
    requires Recolours(g1, c.g) && forall a, b :: (a, b) != (tr, tc) ==> At(g1, a, b) == At(l.g, a, b)
    requires IsChosen(At(g1, tr, tc)) && Occupy(At(g1, tr, tc)) == Occupy(At(l.g, tr, tc))
    requires forall a, b :: At(c.g, a, b) == Red && (a, b) != (tr, tc) ==> Reaches(l.g, l.n, tr, tc, a, b, l.isForced, l.turn)
    ensures RedsLegal(c)
  {
    RecolourPrey(l.g, g1, c.g, tr, tc, l.turn);
    assert At(c.g, tr, tc) == At(g1, tr, tc);
    forall a, b | In(c.n, a, b) && At(c.g, a, b) == Red
      ensures Fits(c, NewMove(c.chosenRow, c.chosenCol, a, b, 0, true, true, c.turn))
    {
      ReachesSame(l.g, c.g, l.n, tr, tc, a, b, true, l.turn);
    }
  }

  /** A streak that goes on lands as the record says, on the same side's turn, at a node of the search. */
  lemma ContinueOk(p: State, r: Move, l: State, stack: seq<Move>, king: bool)
    requires Jumped(p, r, l, stack) && At(l.g, r.toRow, r.toCol) == Landed(king, r.turn)
    ensures var c := ContinueStreak(l, l.g, r.toRow, r.toCol, king);
      Landing(p, r, c) && NodeOk(c, stack + [r])
  {
    var c := ContinueStreak(l, l.g, r.toRow, r.toCol, king);
    assert WellFormed(c) by {
      assert l.(g := l.g) == l;
      ContinueWellFormed(l, l.g, r.toRow, r.toCol, king);
    }
    ContinueGrid(p, r, l, stack, king);
    ContinueFields(p, r, l, stack, c);
  }

  /** ... its counters and flags. */
  lemma ContinueFields(p: State, r: Move, l: State, stack: seq<Move>, c: State)
    requires Jumped(p, r, l, stack) && Lands(p, r, c.g) && (r.turn ==> RunDead(c.g, stack + [r]))
    requires c == l.(isOnStreak := true, isPawnChosen := true, chosenRow := r.toRow, chosenCol := r.toCol, g := c.g)
    ensures Landing(p, r, c) && c.isComputerPlaying && StreakOk(c, stack + [r])
  {
  }

  // ---------------------------------------------------------------------------
  // The streak ends

  /** Lifting the dead keeps the pieces and brings back no chosen piece or mark. */
  lemma EndLands(p: State, r: Move, g: Grid)
    requires Lands(p, r, g) && NoChosen(g) && NoRed(g)
    ensures Lands(p, r, RemoveDead(g)) && NoChosen(RemoveDead(g)) && NoRed(RemoveDead(g))
  {
    forall a, b
      ensures Occupy(At(RemoveDead(g), a, b)) == AfterOcc(p, r, a, b)
      ensures !IsChosen(At(RemoveDead(g), a, b)) && At(RemoveDead(g), a, b) != Red
    {
      RemoveDeadAt(g, a, b);
    }
  }

  /** A streak that ends lands as the record says, passes the turn and reaches a node of the search. */
  lemma EndOk(p: State, r: Move, l: State, stack: seq<Move>)
    requires Jumped(p, r, l, stack)
    ensures var c := EndStreak(l, l.g);
      Landing(p, r, c) && NodeOk(c, stack + [r])
  {
    var b := l.(g := RemoveDead(l.g), isOnStreak := false, isForced := false, isPawnChosen := false);
    EndLands(p, r, l.g);
    TurnPassed(b);
    EndWellFormed(l, l.g);
    NodeAfterTurn(EndStreak(l, l.g), stack, r);
  }

  // ---------------------------------------------------------------------------
  // The capture's grid

  /** The tiles of a capture's grid, square by square. */
  lemma CaptureGridAt(g: Grid, n: int, fr: int, fc: int, vr: int, vc: int, tr: int, tc: int, t: Tile, turn: bool, a: int, b: int)
    requires IsSquare(g, n) && In(n, fr, fc) && In(n, vr, vc) && In(n, tr, tc)
    ensures At(CaptureGrid(g, fr, fc, vr, vc, tr, tc, t, turn), a, b) ==
      if (a, b) == (tr, tc) then t
      else if (a, b) == (vr, vc) then Dead(!turn)
      else if (a, b) == (fr, fc) then Black
      else if Playable(a, b) && At(g, a, b) == Red then Black else At(g, a, b)
  {
    MarksOffAt(Set(g, fr, fc, Black), a, b);
  }

  /**
   * A capture's grid, built on the grid g0 that differs from p's only on the
   * capturer's square, holds the pieces of p with r made, its victim Dead,
   * and no chosen piece or mark.
   */
  lemma CaptureGridLands(p: State, r: Move, g0: Grid, t: Tile)
    requires IsSquare(p.g, p.n) && IsSquare(g0, p.n)
    requires In(p.n, r.fromRow, r.fromCol) && In(p.n, r.capturedRow, r.capturedCol) && In(p.n, r.toRow, r.toCol)
    requires (r.fromRow, r.fromCol) != (r.toRow, r.toCol) && (r.fromRow, r.fromCol) != (r.capturedRow, r.capturedCol)
    requires (r.capturedRow, r.capturedCol) != (r.toRow, r.toCol)
    requires r.isCapture && Occupy(t) == LandedOcc(p, r) && IsPlain(t)
    requires forall a, b :: (a, b) != (r.fromRow, r.fromCol) ==> At(g0, a, b) == At(p.g, a, b)
    requires forall a, b :: (a, b) != (r.fromRow, r.fromCol) ==> !IsChosen(At(p.g, a, b))
    requires forall a, b :: At(p.g, a, b) == Red ==> Playable(a, b)
    ensures var h := CaptureGrid(g0, r.fromRow, r.fromCol, r.capturedRow, r.capturedCol, r.toRow, r.toCol, t, r.turn);
      Lands(p, r, h) && NoChosen(h) && NoRed(h) &&
      At(h, r.capturedRow, r.capturedCol) == Dead(!r.turn) && At(h, r.toRow, r.toCol) == t
  {
    var h := CaptureGrid(g0, r.fromRow, r.fromCol, r.capturedRow, r.capturedCol, r.toRow, r.toCol, t, r.turn);
    forall a, b
      ensures Occupy(At(h, a, b)) == AfterOcc(p, r, a, b) && !IsChosen(At(h, a, b)) && At(h, a, b) != Red
    {
      CaptureGridAt(g0, p.n, r.fromRow, r.fromCol, r.capturedRow, r.capturedCol, r.toRow, r.toCol, t, r.turn, a, b);
    }
    CaptureGridAt(g0, p.n, r.fromRow, r.fromCol, r.capturedRow, r.capturedCol, r.toRow, r.toCol, t, r.turn, r.capturedRow, r.capturedCol);
    CaptureGridAt(g0, p.n, r.fromRow, r.fromCol, r.capturedRow, r.capturedCol, r.toRow, r.toCol, t, r.turn, r.toRow, r.toCol);
  }

  /** When black moves, the victims of its run on top of the stack are dead. */
  lemma RunDeadBefore(p: State, stack: seq<Move>)
    requires StreakOk(p, stack) && p.turn
    ensures RunDead(p.g, stack)
  {
    if !p.isOnStreak && |stack| > 0 {
      TopRunEmpty(stack);
    }
  }

  /** A capture that lands off the dead of black's run keeps them dead. */
  lemma CaptureRunDead(p: State, stack: seq<Move>, r: Move, g0: Grid, t: Tile)
    requires IsSquare(g0, p.n) && In(p.n, r.fromRow, r.fromCol) && In(p.n, r.capturedRow, r.capturedCol) && In(p.n, r.toRow, r.toCol)
    requires RunDead(p.g, stack) && DestClear(r, stack) && r.turn
    requires IsPiece(At(p.g, r.fromRow, r.fromCol), r.turn) && Prey(At(p.g, r.capturedRow, r.capturedCol), r.turn)
    requires forall a, b :: (a, b) != (r.fromRow, r.fromCol) ==> At(g0, a, b) == At(p.g, a, b)
    ensures RunDead(CaptureGrid(g0, r.fromRow, r.fromCol, r.capturedRow, r.capturedCol, r.toRow, r.toCol, t, r.turn), stack)
  {
    forall v | v in TopRun(stack)
      ensures At(CaptureGrid(g0, r.fromRow, r.fromCol, r.capturedRow, r.capturedCol, r.toRow, r.toCol, t, r.turn),
                 v.capturedRow, v.capturedCol) == DeadWhite
    {
      assert At(p.g, v.capturedRow, v.capturedCol) == DeadWhite;
      CaptureGridAt(g0, p.n, r.fromRow, r.fromCol, r.capturedRow, r.capturedCol, r.toRow, r.toCol, t, r.turn,
                    v.capturedRow, v.capturedCol);
    }
  }

  // ---------------------------------------------------------------------------
  // A man's capture

  /** The record of a man's capture: the jumped square and what stood on it, and whether the man was crowned. */
  function ManRecord(p: State, m: Move): Move {
    var vr, vc := Midpoint(m.toRow, m.fromRow), Midpoint(m.toCol, m.fromCol);
    m.(capturedRow := vr, capturedCol := vc, capturedColor := At(p.g, vr, vc), wasPremotion := Promotes(p, m.toRow))
  }

  /** makeMove of a man's capture is CaptureWithPawn ... */
  lemma MakeManCapture(p: State, m: Move)
    requires m.isCapture && IsMan(At(p.g, m.fromRow, m.fromCol), p.turn) && 0 <= m.toRow < p.n
    ensures MakeDefined(p, m)
    ensures var s1 := Choose(p, m);
      Make(p, m) == ManAfterJump(ManLanded(CapturePrep(s1), m.toRow, m.toCol), m.toRow, m.toCol, Promotes(s1, m.toRow))
  {
    assert ToChosen(At(p.g, m.fromRow, m.fromCol)) == PawnChosen(p.turn);
  }

  /** ... and the board records the jumped piece and the crowning. */
  lemma ManCaptureRecord(p: State, m: Move)
    requires Fits(p, m) && m.isCapture && IsMan(At(p.g, m.fromRow, m.fromCol), p.turn)
    ensures MakeDefined(p, m) && Record(m, MakeTrace(p, m)) == ManRecord(p, m) && RecordOk(p, m, ManRecord(p, m))
  {
    var s1 := Choose(p, m);
    var vr, vc := Midpoint(m.toRow, m.fromRow), Midpoint(m.toCol, m.fromCol);
    assert ToChosen(At(p.g, m.fromRow, m.fromCol)) == PawnChosen(p.turn);
    assert (vr, vc) != (m.fromRow, m.fromCol);
    assert At(CapturePrep(s1).g, vr, vc) == At(p.g, vr, vc) by {
      MarksOffAt(Set(s1.g, m.fromRow, m.fromCol, Black), vr, vc);
    }
  }

  /** The landed position of a man's capture. */
  lemma ManJumped(p: State, stack: seq<Move>, m: Move, l: State)
    requires SiblingOk(p, stack) && Fits(p, m) && m.isCapture && IsMan(At(p.g, m.fromRow, m.fromCol), p.turn)
    requires DestClear(m, stack) && MakeReady(p, m)
    requires l == ManLanded(CapturePrep(Choose(p, m)), m.toRow, m.toCol)
    ensures Jumped(p, ManRecord(p, m), l, stack) && At(l.g, m.toRow, m.toCol) == Landed(Promotes(p, m.toRow), p.turn)
  {
    assert WellFormed(l) by {
      ManLandedWellFormed(Choose(p, m), m.toRow, m.toCol);
    }
    ManJumpedCounters(p, m, l, true);
    ManJumpedCounters(p, m, l, false);
    ChosenOnlyAtOrigin(p, stack, m);
    RedPlayable(p.g, p.n);
    ManJumpedGrid(p, stack, m, l);
  }

  /** ... its grid. */
  lemma ManJumpedGrid(p: State, stack: seq<Move>, m: Move, l: State)
    requires IsSquare(p.g, p.n) && Fits(p, m) && m.isCapture && IsMan(At(p.g, m.fromRow, m.fromCol), p.turn)
    requires DestClear(m, stack) && StreakOk(p, stack)
    requires forall a, b :: (a, b) != (m.fromRow, m.fromCol) ==> !IsChosen(At(p.g, a, b))
    requires forall a, b :: At(p.g, a, b) == Red ==> Playable(a, b)
    requires l == ManLanded(CapturePrep(Choose(p, m)), m.toRow, m.toCol)
    ensures var r := ManRecord(p, m);
      Lands(p, r, l.g) && NoChosen(l.g) && NoRed(l.g) && At(l.g, r.capturedRow, r.capturedCol) == Dead(!r.turn) &&
      At(l.g, r.toRow, r.toCol) == Landed(Promotes(p, m.toRow), p.turn) && (r.turn ==> RunDead(l.g, stack)) &&
      In(p.n, r.capturedRow, r.capturedCol)
  {
    var s1 := Choose(p, m);
    var r := ManRecord(p, m);
    var t := Landed(Promotes(p, m.toRow), p.turn);
    assert l.g == CaptureGrid(s1.g, r.fromRow, r.fromCol, r.capturedRow, r.capturedCol, r.toRow, r.toCol, t, r.turn) by {
      assert ToChosen(At(p.g, m.fromRow, m.fromCol)) == PawnChosen(p.turn);
      assert At(s1.g, r.capturedRow, r.capturedCol) == At(p.g, r.capturedRow, r.capturedCol);
      assert At(s1.g, m.toRow, m.toCol) == At(p.g, m.toRow, m.toCol);
      assert CaptureTiles(s1.g, s1.chosenRow, s1.chosenCol, r.capturedRow, r.capturedCol, m.toRow, m.toCol, s1.turn);
      ManLandedShape(s1, m.toRow, m.toCol, true);
      assert Arrived(s1, m.toRow, m.toCol, Promotes(s1, m.toRow)) == t;
    }
    JumpedGrid(p, stack, r, s1.g, t, l.g);
  }

  /** ... its counters for side b. */
  lemma ManJumpedCounters(p: State, m: Move, l: State, b: bool)
    requires IsSquare(p.g, p.n) && Fits(p, m) && m.isCapture && IsMan(At(p.g, m.fromRow, m.fromCol), p.turn)
    requires l == ManLanded(CapturePrep(Choose(p, m)), m.toRow, m.toCol)
    ensures var r := ManRecord(p, m);
      PiecesLeft(l, b) == PiecesLeft(p, b) - Took(r, b) && KingsLeft(l, b) == KingsLeft(p, b) + Crowned(r, b) - TookKing(r, b)
  {
    var s1 := Choose(p, m);
    var vr, vc := Midpoint(m.toRow, m.fromRow), Midpoint(m.toCol, m.fromCol);
    assert ToChosen(At(p.g, m.fromRow, m.fromCol)) == PawnChosen(p.turn);
    assert At(s1.g, vr, vc) == At(p.g, vr, vc) && At(s1.g, m.toRow, m.toCol) == At(p.g, m.toRow, m.toCol);
    assert CaptureTiles(s1.g, s1.chosenRow, s1.chosenCol, vr, vc, m.toRow, m.toCol, s1.turn);
    ManLandedShape(s1, m.toRow, m.toCol, b);
  }

  /** The grid of a capture's landed position, for the record r with its victim square and crowning filled in. */
  lemma JumpedGrid(p: State, stack: seq<Move>, r: Move, g0: Grid, t: Tile, h: Grid)
    requires IsSquare(p.g, p.n) && IsSquare(g0, p.n) && r.isCapture && r.turn == p.turn
    requires In(p.n, r.fromRow, r.fromCol) && In(p.n, r.toRow, r.toCol) && In(p.n, r.capturedRow, r.capturedCol)
    requires IsPiece(At(p.g, r.fromRow, r.fromCol), p.turn) && IsVacant(At(p.g, r.toRow, r.toCol))
    requires Prey(At(p.g, r.capturedRow, r.capturedCol), p.turn)
    requires DestClear(r, stack) && StreakOk(p, stack)
    requires forall a, b :: (a, b) != (r.fromRow, r.fromCol) ==> At(g0, a, b) == At(p.g, a, b)
    requires forall a, b :: (a, b) != (r.fromRow, r.fromCol) ==> !IsChosen(At(p.g, a, b))
    requires forall a, b :: At(p.g, a, b) == Red ==> Playable(a, b)
    requires Occupy(t) == LandedOcc(p, r) && IsPlain(t)
    requires h == CaptureGrid(g0, r.fromRow, r.fromCol, r.capturedRow, r.capturedCol, r.toRow, r.toCol, t, r.turn)
    ensures Lands(p, r, h) && NoChosen(h) && NoRed(h) && At(h, r.capturedRow, r.capturedCol) == Dead(!r.turn) &&
      At(h, r.toRow, r.toCol) == t && (r.turn ==> RunDead(h, stack))
  {
    CaptureGridLands(p, r, g0, t);
    if p.turn {
      RunDeadBefore(p, stack);
      CaptureRunDead(p, stack, r, g0, t);
    }
  }

  /** Whether a man's streak goes on or ends, the capture lands as recorded at a node of the search. */
  lemma ManAfterJumpOk(p: State, r: Move, l: State, stack: seq<Move>, crowned: bool)
    requires Jumped(p, r, l, stack) && At(l.g, r.toRow, r.toCol) == Landed(crowned, r.turn)
    ensures var c := ManAfterJump(l, r.toRow, r.toCol, crowned);
      Landing(p, r, c) && NodeOk(c, stack + [r])
  {
    if !crowned && CanPawnCapture(l.g, l.n, r.toRow, r.toCol, l.turn) {
      ContinueOk(p, r, l, stack, false);
    } else if crowned && CanQueenCapture(l.g, l.n, r.toRow, r.toCol, l.turn) {
      ContinueOk(p, r, l, stack, true);
    } else {
      EndOk(p, r, l, stack);
    }
  }

  /** A man's capture that fits a position between moves lands as its record says and reaches a node. */
  lemma ManCaptureOk(p: State, stack: seq<Move>, m: Move)
    requires SiblingOk(p, stack) && Fits(p, m) && m.isCapture && IsMan(At(p.g, m.fromRow, m.fromCol), p.turn)
    requires DestClear(m, stack)
    ensures MakeDefined(p, m) && MakeReady(p, m)
    ensures var r := Record(m, MakeTrace(p, m));
      RecordOk(p, m, r) && Landing(p, r, Make(p, m)) && NodeOk(Make(p, m), stack + [r])
  {
    var s1 := Choose(p, m);
    var l := ManLanded(CapturePrep(s1), m.toRow, m.toCol);
    FitsReady(p, stack, m);
    ManCaptureRecord(p, m);
    MakeManCapture(p, m);
    ManJumped(p, stack, m, l);
    ManAfterJumpOk(p, ManRecord(p, m), l, stack, Promotes(s1, m.toRow));
  }

  // ---------------------------------------------------------------------------
  // A king's capture

  /** The record of a king's capture: the square of the first prey on its way and what stood there. */
  function KingRecord(p: State, m: Move): Move
    requires KingVictimExists(CapturePrep(Choose(p, m)), m.toRow, m.toCol)
  {
    var v := KingVictim(CapturePrep(Choose(p, m)), m.toRow, m.toCol);
    m.(capturedRow := v.0, capturedCol := v.1, capturedColor := At(p.g, v.0, v.1))
  }

  /** The victim of a legal king's capture is prey of the position before it, away from the king. */
  lemma KingVictimBefore(p: State, m: Move)
    requires Fits(p, m) && !IsMan(At(p.g, m.fromRow, m.fromCol), p.turn)
    requires WellFormed(Choose(p, m)) && LegalKingCapture(Choose(p, m), m.toRow, m.toCol)
    ensures var v := KingVictim(CapturePrep(Choose(p, m)), m.toRow, m.toCol);
      In(p.n, v.0, v.1) && v != (m.fromRow, m.fromCol) && Choose(p, m).g[v.0][v.1] == At(p.g, v.0, v.1) &&
      At(KingLanded(CapturePrep(Choose(p, m)), m.toRow, m.toCol), v.0, v.1) == At(p.g, v.0, v.1) &&
      Prey(At(p.g, v.0, v.1), p.turn)
  {
    var s1 := Choose(p, m);
    var v := KingVictim(CapturePrep(s1), m.toRow, m.toCol);
    KingCaptureSquares(s1, m.toRow, m.toCol);
    assert At(s1.g, v.0, v.1) == s1.g[v.0][v.1];
  }

  /** makeMove of a king's capture is CaptureWithQueen ... */
  lemma MakeKingCapture(p: State, m: Move)
    requires m.isCapture && !IsMan(At(p.g, m.fromRow, m.fromCol), p.turn) && IsPiece(At(p.g, m.fromRow, m.fromCol), p.turn)
    requires MakeDefined(p, m)
    ensures KingVictimExists(CapturePrep(Choose(p, m)), m.toRow, m.toCol)
    ensures Make(p, m) == KingAfterJump(KingLandedState(CapturePrep(Choose(p, m)), m.toRow, m.toCol), m.toRow, m.toCol)
  {
    assert ToChosen(At(p.g, m.fromRow, m.fromCol)) == QueenChosen(p.turn);
  }

  /** ... and the board records the king's victim. */
  lemma KingCaptureRecord(p: State, m: Move)
    requires Fits(p, m) && m.isCapture && !IsMan(At(p.g, m.fromRow, m.fromCol), p.turn) && MakeReady(p, m)
    ensures KingVictimExists(CapturePrep(Choose(p, m)), m.toRow, m.toCol)
    ensures MakeDefined(p, m) && Record(m, MakeTrace(p, m)) == KingRecord(p, m) && RecordOk(p, m, KingRecord(p, m))
  {
    var s1 := Choose(p, m);
    assert ToChosen(At(p.g, m.fromRow, m.fromCol)) == QueenChosen(p.turn);
    assert LegalKingCapture(s1, m.toRow, m.toCol);
    KingVictimBefore(p, m);
  }

  /** The landed position of a king's capture. */
  lemma KingJumped(p: State, stack: seq<Move>, m: Move, l: State)
    requires SiblingOk(p, stack) && Fits(p, m) && m.isCapture && !IsMan(At(p.g, m.fromRow, m.fromCol), p.turn)
    requires DestClear(m, stack) && MakeReady(p, m) && KingVictimExists(CapturePrep(Choose(p, m)), m.toRow, m.toCol)
    requires l == KingLandedState(CapturePrep(Choose(p, m)), m.toRow, m.toCol)
    ensures Jumped(p, KingRecord(p, m), l, stack) && At(l.g, m.toRow, m.toCol) == Queen(p.turn)
  {
    var s1 := Choose(p, m);
    var r := KingRecord(p, m);
    assert ToChosen(At(p.g, m.fromRow, m.fromCol)) == QueenChosen(p.turn);
    assert LegalKingCapture(s1, m.toRow, m.toCol);
    assert WellFormed(l) && At(l.g, m.toRow, m.toCol) == Queen(p.turn) by {
      KingLandedWellFormed(s1, m.toRow, m.toCol);
    }
    KingVictimBefore(p, m);
    KingLandedShape(s1, m.toRow, m.toCol, true);
    KingJumpedCounters(p, m, l, true);
    KingJumpedCounters(p, m, l, false);
    ChosenOnlyAtOrigin(p, stack, m);
    RedPlayable(p.g, p.n);
    JumpedGrid(p, stack, r, Choose(p, m).g, Queen(p.turn), l.g);
  }

  /** ... its counters for side b. */
  lemma KingJumpedCounters(p: State, m: Move, l: State, b: bool)
    requires Fits(p, m) && m.isCapture && !IsMan(At(p.g, m.fromRow, m.fromCol), p.turn)
    requires WellFormed(Choose(p, m)) && LegalKingCapture(Choose(p, m), m.toRow, m.toCol)
    requires l == KingLandedState(CapturePrep(Choose(p, m)), m.toRow, m.toCol)
    ensures var r := KingRecord(p, m);
      PiecesLeft(l, b) == PiecesLeft(p, b) - Took(r, b) && KingsLeft(l, b) == KingsLeft(p, b) + Crowned(r, b) - TookKing(r, b)
  {
    KingVictimBefore(p, m);
    KingLandedShape(Choose(p, m), m.toRow, m.toCol, b);
  }

  /** Whether a king's streak goes on or ends, the capture lands as recorded at a node of the search. */
  lemma KingAfterJumpOk(p: State, r: Move, l: State, stack: seq<Move>)
    requires Jumped(p, r, l, stack) && At(l.g, r.toRow, r.toCol) == Queen(r.turn)
    ensures var c := KingAfterJump(l, r.toRow, r.toCol);
      Landing(p, r, c) && NodeOk(c, stack + [r])
  {
    MarksOffNoRed(l.g);
    if CanQueenCapture(l.g, l.n, r.toRow, r.toCol, l.turn) {
      ContinueOk(p, r, l, stack, true);
    } else {
      EndOk(p, r, l, stack);
    }
  }

  /** A king's capture that fits a position between moves lands as its record says and reaches a node. */
  lemma KingCaptureOk(p: State, stack: seq<Move>, m: Move)
    requires SiblingOk(p, stack) && Fits(p, m) && m.isCapture && !IsMan(At(p.g, m.fromRow, m.fromCol), p.turn)
    requires DestClear(m, stack)
    ensures MakeDefined(p, m) && MakeReady(p, m)
    ensures var r := Record(m, MakeTrace(p, m));
      RecordOk(p, m, r) && Landing(p, r, Make(p, m)) && NodeOk(Make(p, m), stack + [r])
  {
    FitsReady(p, stack, m);
    KingCaptureRecord(p, m);
    MakeKingCapture(p, m);
    var l := KingLandedState(CapturePrep(Choose(p, m)), m.toRow, m.toCol);
    KingJumped(p, stack, m, l);
    KingAfterJumpOk(p, KingRecord(p, m), l, stack);
  }

  /** Recolouring a grid changed only on (tr, tc) keeps the prey off that square. */
  lemma RecolourPrey(g: Grid, g1: Grid, h: Grid, tr: int, tc: int, turn: bool)
    requires Recolours(g1, h) && forall a, b :: (a, b) != (tr, tc) ==> At(g1, a, b) == At(g, a, b)
    ensures forall a, b :: (a, b) != (tr, tc) ==> Prey(At(g, a, b), turn) == Prey(At(h, a, b), turn)
  {
  }
}
