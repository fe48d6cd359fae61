/**
 * What makeMove does to a position of the search, square by square: the
 * moving piece leaves its origin for the destination (crowned when it was a
 * man reaching its crown row), the victim of a capture is gone, and the
 * counters follow. The record that the board writes into the stack top says
 * exactly this, and the position reached is again a node of the search.
 */
module Making {
  import opened Tiles
  import opened Grids
  import opened Rules
  import opened Marks
  import opened Engine
  import opened Search
  import opened Generation
  import opened Takeback

  // ---------------------------------------------------------------------------
  // A move, seen square by square

  /** The piece on the destination once r is made from p: a king when it was one or was crowned. */
  ghost function LandedOcc(p: State, r: Move): Occupant {
    if r.wasPremotion || IsKing(At(p.g, r.fromRow, r.fromCol), r.turn) then King(r.turn) else Man(r.turn)
  }

  /** What stands on (a, b) once r is made from p. */
  ghost function AfterOcc(p: State, r: Move, a: int, b: int): Occupant {
    if a == r.toRow && b == r.toCol then LandedOcc(p, r)
    else if (a == r.fromRow && b == r.fromCol) || (r.isCapture && a == r.capturedRow && b == r.capturedCol) then Empty
    else Occupy(At(p.g, a, b))
  }

  /** The grid g holds the pieces of p with r made. */
  ghost predicate Lands(p: State, r: Move, g: Grid) {
    forall a, b :: Occupy(At(g, a, b)) == AfterOcc(p, r, a, b)
  }

  /** The pieces of side `black` that r took: its victim, when it was one of theirs. */
  function Took(r: Move, black: bool): int {
    if r.isCapture && r.turn != black then 1 else 0
  }

  /** ... and the kings. */
  function TookKing(r: Move, black: bool): int {
    if r.isCapture && r.turn != black && r.capturedColor == Queen(black) then 1 else 0
  }

  /** The kings side `black` gained by r: its crowning. */
  function Crowned(r: Move, black: bool): int {
    if r.wasPremotion && r.turn == black then 1 else 0
  }

  /**
   * q is p with r made: the pieces as r moves them, the counters as r changes
   * them; a streak goes on only after a capture, with the same side to move
   * and the capturer chosen, and otherwise the turn passes.
   */
  ghost predicate Landing(p: State, r: Move, q: State) {
    q.n == p.n && q.pawnRows == p.pawnRows && Lands(p, r, q.g) &&
    q.whiteLeft == p.whiteLeft - Took(r, false) && q.blackLeft == p.blackLeft - Took(r, true) &&
    q.whiteQueens == p.whiteQueens + Crowned(r, false) - TookKing(r, false) &&
    q.blackQueens == p.blackQueens + Crowned(r, true) - TookKing(r, true) &&
    (q.isOnStreak ==> r.isCapture && q.turn == r.turn && q.chosenRow == r.toRow && q.chosenCol == r.toCol) &&
    (!q.isOnStreak ==> q.turn == !r.turn) &&
    q.isComputer == p.isComputer && q.isComputerPlaying == p.isComputerPlaying && q.outcome == p.outcome
  }

  /**
   * The record r of m made from p: m with the victim and the crowning filled
   * in, a crowning only of a man reaching its crown row, a victim only of
   * prey standing on the board.
   */
  ghost predicate RecordOk(p: State, m: Move, r: Move) {
    r.(capturedColor := m.capturedColor, capturedRow := m.capturedRow, capturedCol := m.capturedCol,
       wasPremotion := m.wasPremotion) == m &&
    (r.wasPremotion ==> IsMan(At(p.g, r.fromRow, r.fromCol), r.turn) && r.toRow == CrownRow(p.n, r.turn)) &&
    (r.isCapture ==> In(p.n, r.capturedRow, r.capturedCol) && r.capturedColor == At(p.g, r.capturedRow, r.capturedCol) &&
                     Prey(r.capturedColor, r.turn))
  }

  /** No square holds a chosen piece, a mark or ... */
  ghost predicate NoChosen(g: Grid) {
    forall a, b :: !IsChosen(At(g, a, b))
  }

  ghost predicate NoRed(g: Grid) {
    forall a, b :: At(g, a, b) != Red
  }

  lemma NoRedNoTile(g: Grid)
    requires NoRed(g)
    ensures NoTile(g, Red)
  {
    forall i, j | 0 <= i < |g| && 0 <= j < |g[i]|
      ensures g[i][j] != Red
    {
      assert At(g, i, j) == g[i][j];
    }
  }

  /** Off a streak a sibling holds no chosen piece; on one, only its origin. */
  lemma ChosenOnlyAtOrigin(p: State, stack: seq<Move>, m: Move)
    requires ChosenOk(p) && Fits(p, m)
    ensures forall a, b :: (a, b) != (m.fromRow, m.fromCol) ==> !IsChosen(At(p.g, a, b))
  {
  }

  // ---------------------------------------------------------------------------
  // Quiet moves

  /** The grid of a quiet move: the origin chosen, the piece set down as t, the origin emptied, the marks cleared. */
  function QuietGrid(g: Grid, fr: int, fc: int, tr: int, tc: int, c: Tile, t: Tile): Grid {
    MarksOff(Set(Set(Set(g, fr, fc, c), tr, tc, t), fr, fc, Black))
  }

  lemma QuietGridAt(g: Grid, fr: int, fc: int, tr: int, tc: int, c: Tile, t: Tile, a: int, b: int)
    requires In(|g|, fr, fc) && In(|g|, tr, tc) && (fr, fc) != (tr, tc) && IsSquare(g, |g|)
    ensures var h := QuietGrid(g, fr, fc, tr, tc, c, t);
      At(h, a, b) == (if (a, b) == (tr, tc) then (if Playable(a, b) && t == Red then Black else t)
                      else if (a, b) == (fr, fc) then Black
                      else if Playable(a, b) && At(g, a, b) == Red then Black else At(g, a, b))
  {
    MarksOffAt(Set(Set(Set(g, fr, fc, c), tr, tc, t), fr, fc, Black), a, b);
  }

  /** Off the light squares a well coloured grid holds no mark. */
  lemma RedPlayable(g: Grid, n: int)
    requires IsSquare(g, n) && WellColoured(g, n)
    ensures forall a, b :: At(g, a, b) == Red ==> Playable(a, b)
  {
  }

  /** A quiet move lands the moving piece, as t, and leaves no chosen piece or mark behind. */
  lemma QuietGridOk(p: State, r: Move, c: Tile, t: Tile)
    requires IsSquare(p.g, p.n) && In(p.n, r.fromRow, r.fromCol) && In(p.n, r.toRow, r.toCol)
    requires (r.fromRow, r.fromCol) != (r.toRow, r.toCol) && !r.isCapture
    requires Occupy(t) == LandedOcc(p, r) && IsPlain(t)
    requires forall a, b :: (a, b) != (r.fromRow, r.fromCol) ==> !IsChosen(At(p.g, a, b))
    requires forall a, b :: At(p.g, a, b) == Red ==> Playable(a, b)
    ensures var h := QuietGrid(p.g, r.fromRow, r.fromCol, r.toRow, r.toCol, c, t);
      Lands(p, r, h) && NoChosen(h) && NoRed(h)
  {
    var h := QuietGrid(p.g, r.fromRow, r.fromCol, r.toRow, r.toCol, c, t);
    forall a, b
      ensures Occupy(At(h, a, b)) == AfterOcc(p, r, a, b) && !IsChosen(At(h, a, b)) && At(h, a, b) != Red
    {
      QuietGridAt(p.g, r.fromRow, r.fromCol, r.toRow, r.toCol, c, t, a, b);
    }
  }

  /** changeTurn during a search touches nothing but the turn and isForced. */
  lemma TurnPassed(b: State)
    requires b.isComputerPlaying
    ensures var c := ChangeTurn(b);
      c.n == b.n && c.pawnRows == b.pawnRows && c.g == b.g &&
      c.whiteLeft == b.whiteLeft && c.blackLeft == b.blackLeft &&
      c.whiteQueens == b.whiteQueens && c.blackQueens == b.blackQueens &&
      c.chosenRow == b.chosenRow && c.chosenCol == b.chosenCol && c.mwp == b.mwp &&
      c.isOnStreak == b.isOnStreak && c.turn == !b.turn &&
      c.isComputer == b.isComputer && c.isComputerPlaying && c.outcome == b.outcome
  {
  }

  /** A well formed position after the turn passed, with no chosen piece and no mark, is a node. */
  lemma NodeAfterTurn(c: State, stack: seq<Move>, r: Move)
    requires WellFormed(c) && c.isComputerPlaying && !c.isOnStreak && NoChosen(c.g) && NoRed(c.g) && r.turn != c.turn
    ensures NodeOk(c, stack + [r])
  {
    NoRedNoTile(c.g);
  }

  /** makeMove of a quiet man's move is movePawn. */
  lemma MakeQuietMan(p: State, m: Move)
    requires !m.isCapture && ManChosen(Choose(p, m))
    ensures MakeDefined(p, m) && Make(p, m) == ChangeTurn(MovePawnBody(Choose(p, m), m.toRow, m.toCol))
    ensures MakeTrace(p, m) == MovePawnTrace(Choose(p, m), m.toRow)
  {
  }

  /** makeMove of a quiet king's move is moveQueen. */
  lemma MakeQuietKing(p: State, m: Move)
    requires !m.isCapture && !ManChosen(Choose(p, m))
    ensures MakeDefined(p, m) && Make(p, m) == ChangeTurn(MoveQueenBody(Choose(p, m), m.toRow, m.toCol))
    ensures MakeTrace(p, m) == Trace(None, None)
  {
  }

  /** A quiet man's move, made by movePawn, lands as its record says and reaches a node. */
  lemma QuietManOk(p: State, stack: seq<Move>, m: Move)
    requires SiblingOk(p, stack) && Fits(p, m) && !m.isCapture && IsMan(At(p.g, m.fromRow, m.fromCol), p.turn)
    ensures MakeDefined(p, m) && MakeReady(p, m)
    ensures var r := Record(m, MakeTrace(p, m));
      RecordOk(p, m, r) && Landing(p, r, Make(p, m)) && NodeOk(Make(p, m), stack + [r])
  {
    FitsReady(p, stack, m);
    QuietManRecord(p, m);
    ChosenOnlyAtOrigin(p, stack, m);
    RedPlayable(p.g, p.n);
    QuietManMade(p, stack, m);
  }

  lemma QuietManRecord(p: State, m: Move)
    requires Fits(p, m) && !m.isCapture && IsMan(At(p.g, m.fromRow, m.fromCol), p.turn)
    ensures MakeDefined(p, m) && RecordOk(p, m, Record(m, MakeTrace(p, m)))
    ensures Record(m, MakeTrace(p, m)) == m.(wasPremotion := Promotes(Choose(p, m), m.toRow))
  {
    var t := At(p.g, m.fromRow, m.fromCol);
    assert ToChosen(t) == PawnChosen(p.turn);
    MakeQuietMan(p, m);
  }

  /** The facts about a quiet move from p that its making needs, one by one. */
  ghost predicate QuietReady(p: State, m: Move) {
    IsSquare(p.g, p.n) && In(p.n, m.fromRow, m.fromCol) && In(p.n, m.toRow, m.toCol) &&
    (m.fromRow, m.fromCol) != (m.toRow, m.toCol) && !m.isCapture && !m.wasOnStreak &&
    m.turn == p.turn && !p.isOnStreak && p.isComputerPlaying &&
    (forall a, b :: (a, b) != (m.fromRow, m.fromCol) ==> !IsChosen(At(p.g, a, b))) &&
    (forall a, b :: At(p.g, a, b) == Red ==> Playable(a, b))
  }

  lemma QuietManMade(p: State, stack: seq<Move>, m: Move)
    requires QuietReady(p, m) && IsMan(At(p.g, m.fromRow, m.fromCol), p.turn)
    requires WellFormed(Choose(p, m)) && IsVacant(At(Choose(p, m).g, m.toRow, m.toCol))
    requires Record(m, MakeTrace(p, m)) == m.(wasPremotion := Promotes(Choose(p, m), m.toRow))
    ensures MakeDefined(p, m)
    ensures var r := Record(m, MakeTrace(p, m));
      Landing(p, r, Make(p, m)) && NodeOk(Make(p, m), stack + [r])
  {
    var s1 := Choose(p, m);
    assert ToChosen(At(p.g, m.fromRow, m.fromCol)) == PawnChosen(p.turn);
    MakeQuietMan(p, m);
    var r := m.(wasPremotion := Promotes(s1, m.toRow));
    var b := MovePawnBody(s1, m.toRow, m.toCol);
    var c := ChangeTurn(b);
    QuietManLanding(p, m, r, c);
    MovePawnWellFormed(s1, m.toRow, m.toCol);
    NodeAfterTurn(c, stack, r);
  }

  /** movePawn followed by changeTurn lands as the record says. */
  lemma QuietManLanding(p: State, m: Move, r: Move, c: State)
    requires QuietReady(p, m) && IsMan(At(p.g, m.fromRow, m.fromCol), p.turn)
    requires r == m.(wasPremotion := Promotes(Choose(p, m), m.toRow))
    requires c == ChangeTurn(MovePawnBody(Choose(p, m), m.toRow, m.toCol))
    ensures Landing(p, r, c) && c.isComputerPlaying && !c.isOnStreak && NoChosen(c.g) && NoRed(c.g) && r.turn != c.turn
  {
    var b := MovePawnBody(Choose(p, m), m.toRow, m.toCol);
    QuietManBody(p, m);
    TurnPassed(b);
  }

  /** movePawn up to the turn change, seen square by square. */
  lemma QuietManBody(p: State, m: Move)
    requires QuietReady(p, m) && IsMan(At(p.g, m.fromRow, m.fromCol), p.turn)
    ensures var r := m.(wasPremotion := Promotes(Choose(p, m), m.toRow));
      var b := MovePawnBody(Choose(p, m), m.toRow, m.toCol);
      Lands(p, r, b.g) && NoChosen(b.g) && NoRed(b.g) &&
      b.n == p.n && b.pawnRows == p.pawnRows && b.whiteLeft == p.whiteLeft && b.blackLeft == p.blackLeft &&
      b.whiteQueens == p.whiteQueens + Crowned(r, false) && b.blackQueens == p.blackQueens + Crowned(r, true) &&
      !b.isOnStreak && b.turn == m.turn && b.isComputer == p.isComputer && b.isComputerPlaying && b.outcome == p.outcome
  {
    var s1 := Choose(p, m);
    var t := At(p.g, m.fromRow, m.fromCol);
    assert ToChosen(t) == PawnChosen(p.turn);
    var r := m.(wasPremotion := Promotes(s1, m.toRow));
    var land := if Promotes(s1, m.toRow) then Queen(p.turn) else Pawn(p.turn);
    QuietGridOk(p, r, ToChosen(t), land);
    var b := MovePawnBody(s1, m.toRow, m.toCol);
    assert b.g == QuietGrid(p.g, m.fromRow, m.fromCol, m.toRow, m.toCol, ToChosen(t), land);
  }

  /** A quiet king's move, made by moveQueen, lands as its record says and reaches a node. */
  lemma QuietKingOk(p: State, stack: seq<Move>, m: Move)
    requires SiblingOk(p, stack) && Fits(p, m) && !m.isCapture && !IsMan(At(p.g, m.fromRow, m.fromCol), p.turn)
    ensures MakeDefined(p, m) && MakeReady(p, m)
    ensures var r := Record(m, MakeTrace(p, m));
      RecordOk(p, m, r) && Landing(p, r, Make(p, m)) && NodeOk(Make(p, m), stack + [r])
  {
    FitsReady(p, stack, m);
    QuietKingRecord(p, m);
    ChosenOnlyAtOrigin(p, stack, m);
    RedPlayable(p.g, p.n);
    QuietKingMade(p, stack, m);
  }

  lemma QuietKingRecord(p: State, m: Move)
    requires Fits(p, m) && !m.isCapture && !IsMan(At(p.g, m.fromRow, m.fromCol), p.turn)
    ensures MakeDefined(p, m) && Record(m, MakeTrace(p, m)) == m && RecordOk(p, m, m)
  {
    var t := At(p.g, m.fromRow, m.fromCol);
    assert ToChosen(t) == QueenChosen(p.turn);
    MakeQuietKing(p, m);
  }

  lemma QuietKingMade(p: State, stack: seq<Move>, m: Move)
    requires QuietReady(p, m) && IsKing(At(p.g, m.fromRow, m.fromCol), p.turn) && !m.wasPremotion
    requires WellFormed(Choose(p, m)) && IsVacant(At(Choose(p, m).g, m.toRow, m.toCol))
    ensures MakeDefined(p, m) && Landing(p, m, Make(p, m)) && NodeOk(Make(p, m), stack + [m])
  {
    var s1 := Choose(p, m);
    assert ToChosen(At(p.g, m.fromRow, m.fromCol)) == QueenChosen(p.turn);
    MakeQuietKing(p, m);
    var c := ChangeTurn(MoveQueenBody(s1, m.toRow, m.toCol));
    QuietKingLanding(p, m, c);
    MoveQueenWellFormed(s1, m.toRow, m.toCol);
    NodeAfterTurn(c, stack, m);
  }

  /** moveQueen followed by changeTurn lands as the move says. */
  lemma QuietKingLanding(p: State, m: Move, c: State)
    requires QuietReady(p, m) && IsKing(At(p.g, m.fromRow, m.fromCol), p.turn) && !m.wasPremotion
    requires c == ChangeTurn(MoveQueenBody(Choose(p, m), m.toRow, m.toCol))
    ensures Landing(p, m, c) && c.isComputerPlaying && !c.isOnStreak && NoChosen(c.g) && NoRed(c.g) && m.turn != c.turn
  {
    var b := MoveQueenBody(Choose(p, m), m.toRow, m.toCol);
    QuietKingBody(p, m);
    TurnPassed(b);
  }

  /** moveQueen up to the turn change, seen square by square. */
  lemma QuietKingBody(p: State, m: Move)
    requires QuietReady(p, m) && IsKing(At(p.g, m.fromRow, m.fromCol), p.turn) && !m.wasPremotion
    ensures var b := MoveQueenBody(Choose(p, m), m.toRow, m.toCol);
      Lands(p, m, b.g) && NoChosen(b.g) && NoRed(b.g) &&
      b.n == p.n && b.pawnRows == p.pawnRows && b.whiteLeft == p.whiteLeft && b.blackLeft == p.blackLeft &&
      b.whiteQueens == p.whiteQueens && b.blackQueens == p.blackQueens &&
      !b.isOnStreak && b.turn == m.turn && b.isComputer == p.isComputer && b.isComputerPlaying && b.outcome == p.outcome
  {
    var s1 := Choose(p, m);
    var t := At(p.g, m.fromRow, m.fromCol);
    assert ToChosen(t) == QueenChosen(p.turn);
    QuietGridOk(p, m, ToChosen(t), Queen(p.turn));
    var b := MoveQueenBody(s1, m.toRow, m.toCol);
    assert b.g == QuietGrid(p.g, m.fromRow, m.fromCol, m.toRow, m.toCol, ToChosen(t), Queen(p.turn));
  }
}
