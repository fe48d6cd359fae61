/**
 * Making a move and taking it back (Computer.makeMove and undoMove) around
 * the search below it: whatever the move, makeMove reaches a node of the
 * search, and undoMove, called once the search under the move is done,
 * returns to the position the move was made from, up to marks, selection and
 * the shade of empty squares, again between moves.
 */
module Undoing {
  import opened Tiles
  import opened Grids
  import opened Rules
  import opened Marks
  import opened Engine
  import opened Search
  import opened Generation
  import opened Takeback
  import opened Making
  import opened Capturing

  // ---------------------------------------------------------------------------
  // makeMove

  /**
   * A move generated at a position between moves can be made: the board
   * method it calls is defined, the record written into the stack top says
   * what the move did, and the position reached is a node of the search with
   * the record pushed.
   */
  lemma MakeOk(p: State, stack: seq<Move>, m: Move)
    requires SiblingOk(p, stack) && Fits(p, m) && DestClear(m, stack)
    ensures MakeDefined(p, m) && MakeReady(p, m)
    ensures var r := Record(m, MakeTrace(p, m));
      RecordOk(p, m, r) && Landing(p, r, Make(p, m)) && NodeOk(Make(p, m), stack + [r])
  {
    var man := IsMan(At(p.g, m.fromRow, m.fromCol), p.turn);
    if !m.isCapture && man {
      QuietManOk(p, stack, m);
    } else if !m.isCapture {
      QuietKingOk(p, stack, m);
    } else if man {
      ManCaptureOk(p, stack, m);
    } else {
      KingCaptureOk(p, stack, m);
    }
  }

  /** What a move did is a matter of occupants, counters and flags: it holds of any same position. */
  lemma LandingSame(p: State, r: Move, q0: State, q: State)
    requires Landing(p, r, q0) && SamePlace(q, q0)
    ensures Landing(p, r, q)
  {
    forall a, b
      ensures Occupy(At(q.g, a, b)) == AfterOcc(p, r, a, b)
    {
      assert Occupy(At(q.g, a, b)) == Occupy(At(q0.g, a, b));
    }
  }

  // ---------------------------------------------------------------------------
  // The run's victims dead again

  lemma {:induction false} ReDeadShape(g: Grid, run: seq<Move>, t: Tile)
    ensures var h := ReDead(g, run, t);
      |h| == |g| && forall i :: 0 <= i < |g| ==> |h[i]| == |g[i]|
    decreases |run|
  {
    if run != [] {
      var m := run[|run| - 1];
      ReDeadShape(Set(g, m.capturedRow, m.capturedCol, t), run[..|run| - 1], t);
    }
  }

  /** A square that is no victim of the run keeps its tile. */
  lemma {:induction false} ReDeadOff(g: Grid, run: seq<Move>, t: Tile, a: int, b: int)
    requires forall v :: v in run ==> v.capturedRow != a || v.capturedCol != b
    ensures At(ReDead(g, run, t), a, b) == At(g, a, b)
    decreases |run|
  {
    if run != [] {
      var m := run[|run| - 1];
      var rest := run[..|run| - 1];
      assert forall v :: v in rest ==> v in run;
      ReDeadOff(Set(g, m.capturedRow, m.capturedCol, t), rest, t, a, b);
    }
  }

  /** The square of every victim of the run on the board becomes t. */
  lemma {:induction false} ReDeadOn(g: Grid, run: seq<Move>, t: Tile, v: Move)
    requires v in run && 0 <= v.capturedRow < |g| && 0 <= v.capturedCol < |g[v.capturedRow]|
    ensures At(ReDead(g, run, t), v.capturedRow, v.capturedCol) == t
    decreases |run|
  {
    var m := run[|run| - 1];
    var rest := run[..|run| - 1];
    var g1 := Set(g, m.capturedRow, m.capturedCol, t);
    assert run == rest + [m];
    if w :| w in rest && w.capturedRow == v.capturedRow && w.capturedCol == v.capturedCol {
      ReDeadOn(g1, rest, t, w);
    } else {
      assert v == m;
      ReDeadOff(g1, rest, t, v.capturedRow, v.capturedCol);
    }
  }

  // ---------------------------------------------------------------------------
  // The piece that returns

  /**
   * The piece undoMove puts back on the origin is the one that moved: a man
   * when the move crowned it, otherwise the destination's piece, chosen
   * exactly when the move was made on a streak; and the demotion takes a
   * white king exactly when white was crowned.
   */
  lemma ReturningOk(dest: Tile, r: Move)
    requires IsPiece(dest, r.turn) && (r.wasPremotion ==> IsKing(dest, r.turn))
    ensures var t := Returning(dest, r);
      Occupy(t) == (if r.wasPremotion then Man(r.turn) else Occupy(dest)) &&
      (IsChosen(t) <==> r.wasOnStreak && !r.wasPremotion) &&
      (DemotesWhite(dest, r) <==> r.wasPremotion && !r.turn)
  {
    ChosenIsOrdinalPlusTwo(dest);
  }

  // ---------------------------------------------------------------------------
  // The board undoMove rebuilds

  /**
   * What undoMove relies on of the position p a record r was made from: the
   * origin and destination on the board, the moving piece on the origin and
   * the destination empty, a crowning only of a man, the victim on its square.
   */
  ghost predicate Undoable(p: State, r: Move) {
    In(p.n, r.fromRow, r.fromCol) && In(p.n, r.toRow, r.toCol) &&
    IsPiece(At(p.g, r.fromRow, r.fromCol), r.turn) && IsVacant(At(p.g, r.toRow, r.toCol)) &&
    (r.wasPremotion ==> IsMan(At(p.g, r.fromRow, r.fromCol), r.turn)) &&
    (r.isCapture ==> In(p.n, r.capturedRow, r.capturedCol) && r.capturedColor == At(p.g, r.capturedRow, r.capturedCol) &&
                     Prey(r.capturedColor, r.turn))
  }

  /** The squares a move touches: its origin, its destination and its victim's square. */
  predicate Touched(r: Move, a: int, b: int) {
    (a == r.fromRow && b == r.fromCol) || (a == r.toRow && b == r.toCol) ||
    (r.isCapture && a == r.capturedRow && b == r.capturedCol)
  }

  /** The record of a fitting move is one undoMove can take back, and agrees with the position it was made from. */
  lemma RecordUndoable(p: State, stack: seq<Move>, m: Move, r: Move)
    requires Fits(p, m) && RecordOk(p, m, r) && DestClear(m, stack)
    ensures Undoable(p, r) && DestClear(r, stack)
    ensures r.turn == p.turn && r.wasOnStreak == p.isOnStreak && r.isCapture == p.isForced && r.mwp == p.mwp
    ensures r.fromRow == m.fromRow && r.fromCol == m.fromCol && r.toRow == m.toRow && r.toCol == m.toCol
    ensures p.isOnStreak ==> r.fromRow == p.chosenRow && r.fromCol == p.chosenCol
  {
    assert r.fromRow == m.fromRow && r.toRow == m.toRow && r.fromCol == m.fromCol && r.toCol == m.toCol;
  }

  /**
   * The board once the marks are cleared and a finished run's victims are
   * dead again: off the touched squares every square holds what it held
   * before the move, and nothing there is chosen.
   */
  lemma ClearedAt(p: State, stack: seq<Move>, r: Move, qg: Grid, remark: bool, a: int, b: int)
    requires IsSquare(p.g, p.n) && IsSquare(qg, p.n) && Lands(p, r, qg) && !Touched(r, a, b)
    requires forall i, j :: IsChosen(At(qg, i, j)) ==> i == r.toRow && j == r.toCol
    requires remark && r.turn ==> RunDead(p.g, stack)
    requires remark && !r.turn ==> TopRun(stack) == []
    ensures var g2 := Cleared(qg, stack, r, remark);
      Occupy(At(g2, a, b)) == Occupy(At(p.g, a, b)) && !IsChosen(At(g2, a, b))
  {
    var g1 := MarksOff(qg);
    MarksOffAt(qg, a, b);
    assert Occupy(At(qg, a, b)) == AfterOcc(p, r, a, b);
    if remark {
      if v :| v in TopRun(stack) && v.capturedRow == a && v.capturedCol == b {
        assert At(p.g, a, b) == DeadWhite;
        ReDeadOn(g1, TopRun(stack), Dead(!r.turn), v);
      } else {
        ReDeadOff(g1, TopRun(stack), Dead(!r.turn), a, b);
      }
    }
  }

  /** ... the destination keeps the landed piece. */
  lemma ClearedDest(p: State, stack: seq<Move>, r: Move, qg: Grid, remark: bool)
    requires Lands(p, r, qg) && DestClear(r, stack)
    requires remark && !r.turn ==> TopRun(stack) == []
    ensures At(Cleared(qg, stack, r, remark), r.toRow, r.toCol) == At(qg, r.toRow, r.toCol)
  {
    assert Occupy(At(qg, r.toRow, r.toCol)) == AfterOcc(p, r, r.toRow, r.toCol);
    MarksOffAt(qg, r.toRow, r.toCol);
    if remark {
      ReDeadOff(MarksOff(qg), TopRun(stack), Dead(!r.turn), r.toRow, r.toCol);
    }
  }

  /** ... and during a black streak the run's victims are dead, whether they stayed so or were made so again. */
  lemma ClearedRunDead(p: State, stack: seq<Move>, r: Move, qg: Grid, remark: bool)
    requires IsSquare(p.g, p.n) && IsSquare(qg, p.n) && r.turn && RunDead(p.g, stack)
    requires !remark ==> RunDead(qg, stack)
    ensures RunDead(Cleared(qg, stack, r, remark), stack)
  {
    var g1 := MarksOff(qg);
    forall v | v in TopRun(stack)
      ensures At(Cleared(qg, stack, r, remark), v.capturedRow, v.capturedCol) == DeadWhite
    {
      MarksOffAt(qg, v.capturedRow, v.capturedCol);
      if remark {
        assert At(p.g, v.capturedRow, v.capturedCol) == DeadWhite;
        ReDeadOn(g1, TopRun(stack), Dead(!r.turn), v);
      }
    }
  }

  lemma ClearedShape(qg: Grid, n: int, stack: seq<Move>, r: Move, remark: bool)
    requires IsSquare(qg, n)
    ensures IsSquare(Cleared(qg, stack, r, remark), n)
  {
    ReDeadShape(MarksOff(qg), TopRun(stack), Dead(!r.turn));
  }

  /**
   * The board once the destination is emptied, the piece is back on the
   * origin and the victim on its square: every square holds what it held
   * before the move, and only the origin of a move made on a streak holds a
   * chosen piece, of the side that moved.
   */
  lemma RestoredAt(p: State, r: Move, g2: Grid, remark: bool, a: int, b: int)
    requires IsSquare(p.g, p.n) && IsSquare(g2, p.n) && Undoable(p, r)
    requires Occupy(At(g2, r.toRow, r.toCol)) == LandedOcc(p, r)
    requires !Touched(r, a, b) ==> Occupy(At(g2, a, b)) == Occupy(At(p.g, a, b)) && !IsChosen(At(g2, a, b))
    ensures var g4 := Restored(g2, r, remark);
      Occupy(At(g4, a, b)) == Occupy(At(p.g, a, b)) &&
      (IsChosen(At(g4, a, b)) ==> r.wasOnStreak && a == r.fromRow && b == r.fromCol && IsPiece(At(g4, a, b), r.turn))
  {
    var dest := At(g2, r.toRow, r.toCol);
    ReturningOk(dest, r);
  }

  /** ... and the victims of black's run stay dead. */
  lemma RestoredRunDead(p: State, stack: seq<Move>, r: Move, g2: Grid, remark: bool)
    requires IsSquare(p.g, p.n) && IsSquare(g2, p.n) && Undoable(p, r) && DestClear(r, stack) && r.turn
    requires RunDead(g2, stack) && RunDead(p.g, stack)
    ensures RunDead(Restored(g2, r, remark), stack)
  {
    forall v | v in TopRun(stack)
      ensures At(Restored(g2, r, remark), v.capturedRow, v.capturedCol) == DeadWhite
    {
      assert At(p.g, v.capturedRow, v.capturedCol) == DeadWhite;
    }
  }

  /** The board undoMove rebuilds before marking holds the pieces of p, chosen only on a streak's origin. */
  lemma RestoredOk(p: State, stack: seq<Move>, r: Move, qg: Grid, remark: bool)
    requires IsSquare(p.g, p.n) && IsSquare(qg, p.n) && Undoable(p, r) && Lands(p, r, qg) && DestClear(r, stack)
    requires forall i, j :: IsChosen(At(qg, i, j)) ==> i == r.toRow && j == r.toCol
    requires remark ==> r.wasOnStreak
    requires r.wasOnStreak && r.turn ==> RunDead(p.g, stack)
    requires r.wasOnStreak && !r.turn ==> TopRun(stack) == []
    requires r.wasOnStreak && r.turn && !remark ==> RunDead(qg, stack)
    ensures var g2 := Cleared(qg, stack, r, remark);
      var g4 := Restored(g2, r, remark);
      IsSquare(g4, p.n) && SameBoard(g4, p.g) &&
      (forall a, b :: IsChosen(At(g4, a, b)) ==>
         r.wasOnStreak && a == r.fromRow && b == r.fromCol && IsPiece(At(g4, a, b), r.turn)) &&
      (r.wasOnStreak && r.turn ==> RunDead(g4, stack)) &&
      (DemotesWhite(At(g2, r.toRow, r.toCol), r) <==> r.wasPremotion && !r.turn)
  {
    var g2 := Cleared(qg, stack, r, remark);
    var g4 := Restored(g2, r, remark);
    ClearedShape(qg, p.n, stack, r, remark);
    ClearedDest(p, stack, r, qg, remark);
    assert Occupy(At(qg, r.toRow, r.toCol)) == AfterOcc(p, r, r.toRow, r.toCol);
    ReturningOk(At(g2, r.toRow, r.toCol), r);
    forall a, b
      ensures Occupy(At(g4, a, b)) == Occupy(At(p.g, a, b)) &&
              (IsChosen(At(g4, a, b)) ==> r.wasOnStreak && a == r.fromRow && b == r.fromCol && IsPiece(At(g4, a, b), r.turn))
    {
      if !Touched(r, a, b) {
        ClearedAt(p, stack, r, qg, remark, a, b);
      }
      RestoredAt(p, r, g2, remark, a, b);
    }
    if r.wasOnStreak && r.turn {
      ClearedRunDead(p, stack, r, qg, remark);
      RestoredRunDead(p, stack, r, g2, remark);
    }
  }

  /** The marks undoMove paints on a streak's origin only recolour empty squares. */
  lemma RemarkedOk(g: Grid, n: int, r: Move)
    requires IsSquare(g, n) && In(n, r.fromRow, r.fromCol)
    ensures IsSquare(Remarked(g, n, r), n) && Recolours(g, Remarked(g, n, r))
  {
    var o := At(g, r.fromRow, r.fromCol);
    if o == BlackPawn || o == WhitePawn {
      PawnMarksSpec(g, n, r.fromRow, r.fromCol, r.isCapture, r.turn);
    } else {
      QueenMarksSound(g, n, r.fromRow, r.fromCol, r.isCapture, r.turn);
    }
  }

  /** When the search below a black capture is still on black's streak, the victims under the capture are still dead. */
  lemma RunDeadBelow(q: State, stack: seq<Move>, r: Move)
    requires StreakOk(q, stack + [r]) && q.isOnStreak && q.turn && r.isCapture && r.turn
    ensures RunDead(q.g, stack)
  {
    TopRunPush(stack, r);
    assert RunDead(q.g, stack + [r]);
  }

  /** undoMove's position, field by field. */
  lemma UndoUnfold(q: State, stack: seq<Move>, r: Move)
    ensures var u := Undo(q, stack, r);
      var remark := !q.isOnStreak && r.wasOnStreak;
      var g2 := Cleared(q.g, stack, r, remark);
      var g4 := Restored(g2, r, remark);
      var wd := DemotesWhite(At(g2, r.toRow, r.toCol), r);
      u.n == q.n && u.pawnRows == q.pawnRows &&
      u.g == (if r.wasOnStreak then Remarked(g4, q.n, r) else g4) &&
      u.mwp == r.mwp && u.isOnStreak == r.wasOnStreak && u.isForced == r.isCapture && u.turn == r.turn &&
      u.whiteLeft == q.whiteLeft + (if r.isCapture && r.turn then 1 else 0) &&
      u.blackLeft == q.blackLeft + (if r.isCapture && !r.turn then 1 else 0) &&
      u.whiteQueens == q.whiteQueens - (if wd then 1 else 0) + (if r.isCapture && r.turn && r.capturedColor == WhiteQueen then 1 else 0) &&
      u.blackQueens == q.blackQueens - (if r.wasPremotion && !wd then 1 else 0) + (if r.isCapture && !r.turn && r.capturedColor == BlackQueen then 1 else 0) &&
      (r.wasOnStreak ==> u.chosenRow == r.fromRow && u.chosenCol == r.fromCol) &&
      (!r.wasOnStreak ==> u.chosenRow == q.chosenRow && u.chosenCol == q.chosenCol) &&
      u.isComputer == q.isComputer && u.isComputerPlaying == q.isComputerPlaying && u.outcome == q.outcome
  {
  }

  /** Marking a streak's origin keeps what the rebuilt board holds: its pieces, its chosen piece and its dead squares. */
  lemma MarkedBoard(pg: Grid, g4: Grid, g: Grid, n: int, stack: seq<Move>, r: Move)
    requires IsSquare(g4, n) && In(n, r.fromRow, r.fromCol) && SameBoard(g4, pg)
    requires forall a, b :: IsChosen(At(g4, a, b)) ==>
               r.wasOnStreak && a == r.fromRow && b == r.fromCol && IsPiece(At(g4, a, b), r.turn)
    requires r.wasOnStreak && r.turn ==> RunDead(g4, stack)
    requires g == (if r.wasOnStreak then Remarked(g4, n, r) else g4)
    ensures IsSquare(g, n) && SameBoard(g, pg)
    ensures forall a, b :: IsChosen(At(g, a, b)) ==>
              r.wasOnStreak && a == r.fromRow && b == r.fromCol && IsPiece(At(g, a, b), r.turn)
    ensures r.wasOnStreak && r.turn ==> RunDead(g, stack)
  {
    if r.wasOnStreak {
      RemarkedOk(g4, n, r);
      forall a, b
        ensures Occupy(At(g, a, b)) == Occupy(At(pg, a, b)) && (IsChosen(At(g, a, b)) ==> At(g, a, b) == At(g4, a, b))
      {
        assert Occupy(At(g4, a, b)) == Occupy(At(pg, a, b));
      }
    }
  }

  /** A position with the pieces, counters and flags of one between moves, chosen only on its chosen square, is one too. */
  lemma SiblingAgain(p: State, stack: seq<Move>, u: State)
    requires SiblingOk(p, stack) && SamePlace(u, p) && In(u.n, u.chosenRow, u.chosenCol)
    requires forall a, b :: IsChosen(At(u.g, a, b)) ==>
               u.isOnStreak && a == u.chosenRow && b == u.chosenCol && IsPiece(At(u.g, a, b), u.turn)
    requires u.isOnStreak && u.turn ==> RunDead(u.g, stack)
    ensures SiblingOk(u, stack)
  {
    SamePlaceWellFormed(p, u);
  }

  /** The board undoMove leaves after the search below r: the pieces of p, chosen only on a streak's origin, black's victims dead during its streak. */
  lemma UndoneBoard(p: State, stack: seq<Move>, r: Move, q: State)
    requires SiblingOk(p, stack) && Undoable(p, r) && DestClear(r, stack) && Landing(p, r, q) && SiblingOk(q, stack + [r])
    requires r.turn == p.turn && r.wasOnStreak == p.isOnStreak
    ensures var g := Undo(q, stack, r).g;
      SameBoard(g, p.g) &&
      (forall a, b :: IsChosen(At(g, a, b)) ==>
         r.wasOnStreak && a == r.fromRow && b == r.fromCol && IsPiece(At(g, a, b), r.turn)) &&
      (r.wasOnStreak && r.turn ==> RunDead(g, stack))
    ensures DemotesWhite(At(Cleared(q.g, stack, r, !q.isOnStreak && r.wasOnStreak), r.toRow, r.toCol), r) <==>
            r.wasPremotion && !r.turn
  {
    if r.wasOnStreak && !r.turn && |stack| > 0 {
      TopRunEmpty(stack);
    }
    if r.wasOnStreak && r.turn && q.isOnStreak {
      RunDeadBelow(q, stack, r);
    }
    var remark := !q.isOnStreak && r.wasOnStreak;
    var g4 := Restored(Cleared(q.g, stack, r, remark), r, remark);
    RestoredOk(p, stack, r, q.g, remark);
    UndoUnfold(q, stack, r);
    MarkedBoard(p.g, g4, Undo(q, stack, r).g, p.n, stack, r);
  }

  /**
   * undoMove, called on the popped record r once the search below it is
   * done, returns to the position the move was made from, between moves:
   * the same pieces, counters and flags, the origin chosen again after a
   * move on a streak, and black's victims still dead during its streak.
   */
  lemma UndoOk(p: State, stack: seq<Move>, m: Move, r: Move, q: State)
    requires SiblingOk(p, stack) && Fits(p, m) && DestClear(m, stack) && RecordOk(p, m, r)
    requires Landing(p, r, q) && SiblingOk(q, stack + [r])
    ensures SamePlace(Undo(q, stack, r), p) && SiblingOk(Undo(q, stack, r), stack)
  {
    RecordUndoable(p, stack, m, r);
    UndoneBoard(p, stack, r, q);
    var u := Undo(q, stack, r);
    UndoUnfold(q, stack, r);
    assert SamePlace(u, p);
    SiblingAgain(p, stack, u);
  }

  /** A board of pieces and empty squares only: no marks, no dead pieces, nothing chosen. */
  ghost predicate Bare(g: Grid) {
    forall a, b :: At(g, a, b) != Red && !IsDead(At(g, a, b)) && !IsChosen(At(g, a, b))
  }

  /** Tiles that are neither marks, dead nor chosen are told apart by their occupants. */
  lemma BareTilesSame(t: Tile, u: Tile)
    requires Occupy(t) == Occupy(u)
    requires t != Red && !IsDead(t) && !IsChosen(t) && u != Red && !IsDead(u) && !IsChosen(u)
    ensures t == u
  {
  }

  /**
   * Off a streak, a square undoMove rebuilds other than the origin and the
   * victim's square holds no mark, and no dead piece unless the landed board
   * had one there.
   */
  lemma UndoneSquare(q: State, stack: seq<Move>, r: Move, a: int, b: int)
    requires IsSquare(q.g, q.n) && WellColoured(q.g, q.n) && 0 <= a < q.n && 0 <= b < q.n
    requires !r.wasOnStreak && !IsDead(At(q.g, a, b))
    requires (a, b) != (r.fromRow, r.fromCol) && !(r.isCapture && (a, b) == (r.capturedRow, r.capturedCol))
    ensures var t := At(Undo(q, stack, r).g, a, b); t != Red && !IsDead(t)
  {
    var g2 := MarksOff(q.g);
    assert Cleared(q.g, stack, r, false) == g2;
    var g4 := Restored(g2, r, false);
    assert Undo(q, stack, r).g == g4;
    MarksOffAt(q.g, a, b);
    assert At(g4, a, b) == if (a, b) == (r.toRow, r.toCol) then Black else At(g2, a, b);
  }

  /**
   * Off a streak, undoMove of a move made from a board of pieces and empty
   * squares gives back that board exactly, once the landed board holds a dead
   * piece only on the move's victim: the same tiles, counters and flags; only
   * the chosen square stays where the search left it, and no pawn is chosen.
   */
  lemma UndoExact(p: State, stack: seq<Move>, m: Move, r: Move, q: State)
    requires SiblingOk(p, stack) && Fits(p, m) && DestClear(m, stack) && RecordOk(p, m, r)
    requires Landing(p, r, q) && SiblingOk(q, stack + [r])
    requires !p.isOnStreak && Bare(p.g)
    requires forall a, b :: IsDead(At(q.g, a, b)) ==> r.isCapture && a == r.capturedRow && b == r.capturedCol
    ensures Undo(q, stack, r) == p.(chosenRow := q.chosenRow, chosenCol := q.chosenCol, isPawnChosen := false)
  {
    UndoOk(p, stack, m, r, q);
    RecordUndoable(p, stack, m, r);
    UndoneBoard(p, stack, r, q);
    var u := Undo(q, stack, r);
    forall i, j | 0 <= i < p.n && 0 <= j < p.n
      ensures u.g[i][j] == p.g[i][j]
    {
      assert Occupy(At(u.g, i, j)) == Occupy(At(p.g, i, j));
      if (i, j) != (r.fromRow, r.fromCol) && !(r.isCapture && (i, j) == (r.capturedRow, r.capturedCol)) {
        UndoneSquare(q, stack, r, i, j);
      }
      BareTilesSame(At(u.g, i, j), At(p.g, i, j));
    }
    SameGrid(u.g, p.g, p.n);
    UndoUnfold(q, stack, r);
  }
}
