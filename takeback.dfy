/**
 * What the search keeps true of the board while it makes and takes back
 * moves (Computer.makeMove and undoMove): the position is the same up to
 * marks, selection and the colour of captured squares, so every move
 * generated at a node stays playable at each of its siblings.
 */
module Takeback {
  import opened Tiles
  import opened Grids
  import opened Rules
  import opened Marks
  import opened Engine
  import opened Search
  import opened Generation

  // ---------------------------------------------------------------------------
  // The same position

  /** Two grids of one shape with the same occupant on every square. */
  ghost predicate SameBoard(g: Grid, h: Grid) {
    |g| == |h| && (forall i :: 0 <= i < |g| ==> |g[i]| == |h[i]|) &&
    forall i, j :: Occupy(At(g, i, j)) == Occupy(At(h, i, j))
  }

  /**
   * The same position for the search: the same pieces on the same squares,
   * the same counters and flags, and on a streak the same chosen square.
   */
  ghost predicate SamePlace(p: State, q: State) {
    p.n == q.n && p.pawnRows == q.pawnRows && SameBoard(p.g, q.g) &&
    p.whiteLeft == q.whiteLeft && p.blackLeft == q.blackLeft &&
    p.whiteQueens == q.whiteQueens && p.blackQueens == q.blackQueens &&
    p.mwp == q.mwp && p.isForced == q.isForced && p.isOnStreak == q.isOnStreak && p.turn == q.turn &&
    (p.isOnStreak ==> p.chosenRow == q.chosenRow && p.chosenCol == q.chosenCol) &&
    p.isComputer == q.isComputer && p.isComputerPlaying == q.isComputerPlaying && p.outcome == q.outcome
  }

  lemma SameBoardOccupants(g: Grid, h: Grid)
    requires SameBoard(g, h)
    ensures SameOccupants(g, h)
  {
    forall i | 0 <= i < |g|
      ensures forall j :: 0 <= j < |g[i]| ==> Occupy(g[i][j]) == Occupy(h[i][j])
    {
      forall j | 0 <= j < |g[i]|
        ensures Occupy(g[i][j]) == Occupy(h[i][j])
      {
        assert Occupy(At(g, i, j)) == Occupy(At(h, i, j));
      }
    }
  }

  /** A position the same as a well formed one, with its chosen square on the board, is well formed. */
  lemma SamePlaceWellFormed(p: State, q: State)
    requires WellFormed(p) && SamePlace(p, q) && In(q.n, q.chosenRow, q.chosenCol)
    ensures WellFormed(q)
  {
    SameBoardOccupants(p.g, q.g);
    SameOccupantsKeeps(p.g, q.g, p.n);
  }

  lemma SamePlaceTrans(p: State, q: State, r: State)
    requires SamePlace(p, q) && SamePlace(q, r)
    ensures SamePlace(p, r)
  {
  }

  // ---------------------------------------------------------------------------
  // Selection and prey

  /** Chosen tiles stand only on the chosen square, during a streak, and belong to the side to move. */
  ghost predicate ChosenOk(s: State) {
    forall i, j :: IsChosen(At(s.g, i, j)) ==>
      s.isOnStreak && i == s.chosenRow && j == s.chosenCol && IsPiece(At(s.g, i, j), s.turn)
  }

  /** No piece of the side that does not move is chosen. */
  ghost predicate NoChosenFoe(g: Grid, turn: bool) {
    forall i, j :: At(g, i, j) != PawnChosen(!turn) && At(g, i, j) != QueenChosen(!turn)
  }

  lemma ChosenOkNoFoe(s: State)
    requires ChosenOk(s)
    ensures NoChosenFoe(s.g, s.turn)
  {
    forall i, j
      ensures At(s.g, i, j) != PawnChosen(!s.turn) && At(s.g, i, j) != QueenChosen(!s.turn)
    {
      if IsChosen(At(s.g, i, j)) {
        assert IsPiece(At(s.g, i, j), s.turn);
      }
    }
  }

  /** Without chosen pieces of the side that does not move, prey is a matter of occupants. */
  lemma SamePrey(g: Grid, h: Grid, turn: bool)
    requires SameBoard(g, h) && NoChosenFoe(g, turn) && NoChosenFoe(h, turn)
    ensures forall a, b :: Prey(At(g, a, b), turn) == Prey(At(h, a, b), turn)
  {
    forall a, b
      ensures Prey(At(g, a, b), turn) == Prey(At(h, a, b), turn)
    {
      assert Occupy(At(g, a, b)) == Occupy(At(h, a, b));
      assert At(g, a, b) != PawnChosen(!turn) && At(g, a, b) != QueenChosen(!turn);
      assert At(h, a, b) != PawnChosen(!turn) && At(h, a, b) != QueenChosen(!turn);
    }
  }

  /** Whether a piece reaches a square depends only on the two squares' occupants and on where the prey is. */
  lemma ReachesSame(g: Grid, h: Grid, n: int, r: int, c: int, tr: int, tc: int, cap: bool, turn: bool)
    requires Occupy(At(g, r, c)) == Occupy(At(h, r, c)) && Occupy(At(g, tr, tc)) == Occupy(At(h, tr, tc))
    requires forall a, b :: (a, b) != (r, c) ==> Prey(At(g, a, b), turn) == Prey(At(h, a, b), turn)
    ensures Reaches(g, n, r, c, tr, tc, cap, turn) == Reaches(h, n, r, c, tr, tc, cap, turn)
  {
    if In(n, r, c) && Abs(tr - r) == 2 {
      assert (Midpoint(tr, r), Midpoint(tc, c)) != (r, c);
    }
    if In(n, r, c) && tr != r {
      PreyAheadSamePrey(g, h, n, r, c, Sign(tr - r), Sign(tc - c), turn);
    }
  }

  /** A move fits two positions that are the same, selection respected, alike. */
  lemma FitsTransfer(p: State, q: State, m: Move)
    requires SamePlace(p, q) && ChosenOk(p) && ChosenOk(q)
    ensures Fits(p, m) == Fits(q, m)
  {
    ChosenOkNoFoe(p);
    ChosenOkNoFoe(q);
    SamePrey(p.g, q.g, p.turn);
    assert Occupy(At(p.g, m.fromRow, m.fromCol)) == Occupy(At(q.g, m.fromRow, m.fromCol));
    assert Occupy(At(p.g, m.toRow, m.toCol)) == Occupy(At(q.g, m.toRow, m.toCol));
    ReachesSame(p.g, q.g, p.n, m.fromRow, m.fromCol, m.toRow, m.toCol, m.isCapture, p.turn);
  }

  // ---------------------------------------------------------------------------
  // The stack

  function Top(stack: seq<Move>): Move
    requires |stack| > 0
  {
    stack[|stack| - 1]
  }

  /** The victims of the run of black captures on top of the stack are dead white pieces. */
  ghost predicate RunDead(g: Grid, stack: seq<Move>) {
    forall v :: v in TopRun(stack) ==> At(g, v.capturedRow, v.capturedCol) == DeadWhite
  }

  /**
   * What the stack says of the position: during a streak a capture is forced
   * and nothing counts towards a draw; the move on top was made by the side to
   * move exactly when a streak is on; and during a black streak the victims
   * of black's run are still dead.
   */
  ghost predicate StreakOk(s: State, stack: seq<Move>) {
    (s.isOnStreak ==> s.isForced && s.mwp == 0) &&
    (|stack| > 0 ==> (Top(stack).turn == s.turn <==> s.isOnStreak)) &&
    (s.isOnStreak && s.turn ==> RunDead(s.g, stack))
  }

  /** A black move does not land on a victim of black's run on top of the stack. */
  ghost predicate DestClear(m: Move, stack: seq<Move>) {
    m.turn ==> forall v :: v in TopRun(stack) ==> v.capturedRow != m.toRow || v.capturedCol != m.toCol
  }

  /** Every move of the run is a black capture. */
  lemma TopRunBlack(stack: seq<Move>)
    ensures forall v :: v in TopRun(stack) ==> v.isCapture && v.turn
    decreases |stack|
  {
    if |stack| > 0 && Top(stack).isCapture && Top(stack).turn {
      TopRunBlack(stack[..|stack| - 1]);
    }
  }

  /** A run exists only under a black capture on top. */
  lemma TopRunEmpty(stack: seq<Move>)
    requires |stack| == 0 || !Top(stack).turn || !Top(stack).isCapture
    ensures TopRun(stack) == []
  {
  }

  /** Pushing a black capture extends the run. */
  lemma TopRunPush(stack: seq<Move>, r: Move)
    requires r.isCapture && r.turn
    ensures TopRun(stack + [r]) == TopRun(stack) + [r]
  {
    assert (stack + [r])[..|stack|] == stack;
  }

  /** A state between moves of a search: well formed, searching, selection and stack in order. */
  ghost predicate SiblingOk(s: State, stack: seq<Move>) {
    WellFormed(s) && s.isComputerPlaying && ChosenOk(s) && StreakOk(s, stack)
  }

  /**
   * A node of the search: as between moves, and marked as generateMoves
   * expects: no marks off a streak, the chosen piece's captures on one.
   */
  ghost predicate NodeOk(s: State, stack: seq<Move>) {
    SiblingOk(s, stack) && (!s.isOnStreak ==> NoTile(s.g, Red)) && (s.isOnStreak ==> RedsLegal(s))
  }

  // ---------------------------------------------------------------------------
  // generateMoves at a node

  /** generateMoves's position afterwards: the tiles as before, its chosen square possibly moved. */
  function Generated(s: State): State {
    var out := Generate(s);
    s.(g := out.g, chosenRow := out.chosenRow, chosenCol := out.chosenCol)
  }

  /**
   * At a node, generateMoves leaves the same position, still between moves,
   * and every move it lists fits the position and does not land on a victim
   * of black's run.
   */
  lemma GenerateOk(s: State, stack: seq<Move>)
    requires NodeOk(s, stack)
    ensures SamePlace(Generated(s), s) && SiblingOk(Generated(s), stack)
    ensures forall m :: m in Generate(s).moves ==> Fits(s, m) && DestClear(m, stack)
  {
    GenerateSound(s);
    ScanLeaves(s, stack, Generate(s));
    GenerateClear(s, stack);
  }

  /** No generated move lands on a victim of black's run. */
  lemma GenerateClear(s: State, stack: seq<Move>)
    requires StreakOk(s, stack)
    requires forall m :: m in Generate(s).moves ==> m.turn == s.turn
    ensures forall m :: m in Generate(s).moves ==> DestClear(m, stack)
  {
    var ms := Generate(s).moves;
    if s.isOnStreak {
      StreakMovesExact(s);
    }
    forall m | m in ms
      ensures DestClear(m, stack)
    {
      if s.isOnStreak {
        var k :| 0 <= k < |ms| && ms[k] == m;
      }
      FitsClear(s, stack, m);
    }
  }

  /** The position a scan leaves, with the tiles untouched and the chosen square on the board. */
  lemma ScanLeaves(s: State, stack: seq<Move>, out: Scan)
    requires SiblingOk(s, stack) && out.g == s.g && In(s.n, out.chosenRow, out.chosenCol)
    requires s.isOnStreak ==> out.chosenRow == s.chosenRow && out.chosenCol == s.chosenCol
    ensures var t := s.(g := out.g, chosenRow := out.chosenRow, chosenCol := out.chosenCol);
      SamePlace(t, s) && SiblingOk(t, stack)
  {
    var t := s.(g := out.g, chosenRow := out.chosenRow, chosenCol := out.chosenCol);
    assert SamePlace(s, t);
    SamePlaceWellFormed(s, t);
  }

  /** A move to a Red square, or a move off a streak, does not land on a victim of black's run. */
  lemma FitsClear(s: State, stack: seq<Move>, m: Move)
    requires StreakOk(s, stack) && m.turn == s.turn
    requires s.isOnStreak ==> At(s.g, m.toRow, m.toCol) == Red
    ensures DestClear(m, stack)
  {
    if m.turn && !s.isOnStreak && |stack| > 0 {
      TopRunEmpty(stack);
    }
  }

  // ---------------------------------------------------------------------------
  // What makeMove needs

  /** The board methods' preconditions once makeMove has chosen the origin. */
  ghost predicate MakeReady(s: State, m: Move) {
    var s1 := Choose(s, m);
    WellFormed(s1) &&
    if !m.isCapture then
      In(s.n, m.toRow, m.toCol) && IsVacant(At(s1.g, m.toRow, m.toCol)) && IsPiece(At(s1.g, m.fromRow, m.fromCol), s.turn)
    else
      LegalManCapture(s1, m.toRow, m.toCol) || LegalKingCapture(s1, m.toRow, m.toCol)
  }

  /** Putting a square's own tile back changes nothing. */
  lemma SetSame(g: Grid, r: int, c: int)
    requires 0 <= r < |g| && 0 <= c < |g[r]|
    ensures Set(g, r, c, g[r][c]) == g
  {
    assert g[r][c := g[r][c]] == g[r];
  }

  /** A new grid with the same census, and a new chosen square, keep a position well formed. */
  lemma WellFormedRegrid(s: State, g: Grid, r: int, c: int)
    requires WellFormed(s) && GridOk(g, s.n) && In(s.n, r, c)
    requires forall k :: Count(g, k) == Count(s.g, k)
    ensures WellFormed(s.(g := g, chosenRow := r, chosenCol := c))
  {
    assert Count(g, Pieces(true)) == Count(s.g, Pieces(true)) && Count(g, Pieces(false)) == Count(s.g, Pieces(false));
    assert Count(g, Kings(true)) == Count(s.g, Kings(true)) && Count(g, Kings(false)) == Count(s.g, Kings(false));
  }

  /** Choosing the origin of a fitting move keeps the position well formed. */
  lemma ChooseWellFormed(s: State, m: Move)
    requires WellFormed(s) && Fits(s, m)
    ensures WellFormed(Choose(s, m)) && SameBoard(s.g, Choose(s, m).g)
    ensures At(Choose(s, m).g, m.fromRow, m.fromCol) == ToChosen(At(s.g, m.fromRow, m.fromCol))
  {
    var t := At(s.g, m.fromRow, m.fromCol);
    var g1 := Set(s.g, m.fromRow, m.fromCol, ToChosen(t));
    ChosenIsOrdinalPlusTwo(t);
    if IsPlain(t) {
      ChooseKeeps(s.g, s.n, m.fromRow, m.fromCol);
    } else {
      SetSame(s.g, m.fromRow, m.fromCol);
    }
    WellFormedRegrid(s, g1, m.fromRow, m.fromCol);
    ChooseSameBoard(s.g, m.fromRow, m.fromCol);
  }

  /** Choosing a piece changes no occupant. */
  lemma ChooseSameBoard(g: Grid, r: int, c: int)
    ensures SameBoard(g, Set(g, r, c, ToChosen(At(g, r, c))))
  {
    ChosenIsOrdinalPlusTwo(At(g, r, c));
  }
  /** Choosing the origin changes no prey: the chosen piece belongs to the side to move. */
  lemma ChoosePrey(s: State, m: Move)
    requires WellFormed(s) && Fits(s, m)
    ensures forall a, b :: Prey(At(Choose(s, m).g, a, b), s.turn) == Prey(At(s.g, a, b), s.turn)
  {
  }

  /** A move that fits a position between moves can be made: the board methods' preconditions hold. */
  lemma FitsReady(s: State, stack: seq<Move>, m: Move)
    requires SiblingOk(s, stack) && Fits(s, m)
    ensures MakeReady(s, m) && MakeDefined(s, m)
  {
    var s1 := Choose(s, m);
    ChooseWellFormed(s, m);
    ChoosePrey(s, m);
    if m.isCapture && !IsMan(At(s.g, m.fromRow, m.fromCol), s.turn) {
      assert Reaches(s.g, s.n, m.fromRow, m.fromCol, m.toRow, m.toCol, true, s.turn);
      KingCaptureReady(s, m);
    }
  }

  /** ... for a capture by a king: its victim search succeeds on the prepared board. */
  lemma KingCaptureReady(s: State, m: Move)
    requires Reaches(s.g, s.n, m.fromRow, m.fromCol, m.toRow, m.toCol, true, s.turn)
    requires !IsMan(At(s.g, m.fromRow, m.fromCol), s.turn)
    ensures LegalKingCapture(Choose(s, m), m.toRow, m.toCol)
  {
    var t := At(s.g, m.fromRow, m.fromCol);
    var s1 := Choose(s, m);
    assert ToChosen(t) == QueenChosen(s.turn);
    assert At(s1.g, m.toRow, m.toCol) == At(s.g, m.toRow, m.toCol);
    KingVictimReady(s, m);
  }

  lemma KingVictimReady(s: State, m: Move)
    requires In(s.n, m.fromRow, m.fromCol) && Diagonal(m.fromRow, m.fromCol, m.toRow, m.toCol)
    requires !Prey(At(s.g, m.toRow, m.toCol), s.turn)
    requires PreyAhead(s.g, s.n, m.fromRow, m.fromCol, Sign(m.toRow - m.fromRow), Sign(m.toCol - m.fromCol), s.turn)
    ensures KingVictimExists(CapturePrep(Choose(s, m)), m.toRow, m.toCol)
  {
    var s1 := Choose(s, m);
    var p := CapturePrep(s1);
    var k := KingLanded(p, m.toRow, m.toCol);
    PrepPrey(s.g, s1.g, m.fromRow, m.fromCol, m.toRow, m.toCol, s.turn);
    PreyAheadSamePrey(s.g, k, s.n, m.fromRow, m.fromCol, Sign(m.toRow - m.fromRow), Sign(m.toCol - m.fromCol), s.turn);
  }

  /**
   * The board of a king's capture, with the king lifted, the marks cleared
   * and the king set down on an empty square, has its prey where it was.
   */
  lemma PrepPrey(g: Grid, g0: Grid, r: int, c: int, tr: int, tc: int, turn: bool)
    requires !Prey(At(g, tr, tc), turn)
    requires forall a, b :: (a, b) != (r, c) ==> At(g0, a, b) == At(g, a, b)
    ensures var k := Set(MarksOff(Set(g0, r, c, Black)), tr, tc, Queen(turn));
      forall a, b :: (a, b) != (r, c) ==> Prey(At(g, a, b), turn) == Prey(At(k, a, b), turn)
  {
    var g1 := Set(g0, r, c, Black);
    forall a, b | (a, b) != (r, c)
      ensures Prey(At(g, a, b), turn) == Prey(At(Set(MarksOff(g1), tr, tc, Queen(turn)), a, b), turn)
    {
      MarksOffAt(g1, a, b);
    }
  }
}
