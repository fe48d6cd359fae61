/**
 * The search engine's view of the game (Computer.java): the move record the
 * search pushes on its stack, the moves it generates from the Red marks, what
 * makeMove and undoMove make of a position, and the static evaluation, all as
 * functions of the Engine's game state. computer.dfy runs them in place.
 */
module Search {
  import opened Tiles
  import opened Grids
  import opened Rules
  import opened Marks
  import opened Engine

  /** The values of a lost and of a won position for black, the maximising side of the computer. */
  const MIN_POS_VAL: real := -10000.0
  const MAX_POS_VAL: real := 10000.0

  /**
   * Computer.Move. The board fills in the captured square and colour and the
   * crowning while the move is on top of the stack during a search; until
   * then the colour is White (the int-coded copy's zero) and the square (0, 0).
   */
  datatype Move = Move(fromRow: int, fromCol: int, toRow: int, toCol: int, mwp: int,
                       isCapture: bool, capturedColor: Tile, capturedRow: int, capturedCol: int,
                       wasOnStreak: bool, wasPremotion: bool, turn: bool)

  /** The Move constructor: nothing captured or crowned yet. */
  function NewMove(fr: int, fc: int, tr: int, tc: int, mwp: int, isCapture: bool, wasOnStreak: bool, turn: bool): Move {
    Move(fr, fc, tr, tc, mwp, isCapture, White, 0, 0, wasOnStreak, false, turn)
  }

  /** A move with a board method's trace written into it. */
  function Record(m: Move, t: Trace): Move {
    var m1 := if t.victim.Some? then
                m.(capturedRow := t.victim.value.0, capturedCol := t.victim.value.1, capturedColor := t.victim.value.2)
              else m;
    if t.premotion.Some? then m1.(wasPremotion := t.premotion.value) else m1
  }

  /** The stack after a board method wrote its trace: into the top move, while the computer searches and the stack is not empty. */
  function Recorded(stack: seq<Move>, t: Trace, searching: bool): seq<Move> {
    if searching && |stack| > 0 then stack[..|stack| - 1] + [Record(stack[|stack| - 1], t)] else stack
  }

  // ---------------------------------------------------------------------------
  // generateMoves

  /**
   * The Red squares from (i, j) on, in the order generateMoves reads them:
   * row by row, and in a row every second column from the first playable one.
   */
  function RedsFrom(g: Grid, n: int, i: int, j: int): seq<(int, int)>
    decreases n - i, n - j
  {
    if i >= n then []
    else if j >= n then RedsFrom(g, n, i + 1, 1 - (i + 1) % 2)
    else (if At(g, i, j) == Red then [(i, j)] else []) + RedsFrom(g, n, i, j + 2)
  }

  function Reds(g: Grid, n: int): seq<(int, int)> { RedsFrom(g, n, 0, 1) }

  /** One new move from (fr, fc) to each square of sqs, in order. */
  function MovesTo(sqs: seq<(int, int)>, fr: int, fc: int, mwp: int, isCapture: bool, onStreak: bool, turn: bool): seq<Move>
  {
    if sqs == [] then []
    else [NewMove(fr, fc, sqs[0].0, sqs[0].1, mwp, isCapture, onStreak, turn)] + MovesTo(sqs[1..], fr, fc, mwp, isCapture, onStreak, turn)
  }

  /** On a streak: a capture from the chosen square to every Red square. */
  function StreakMoves(s: State): seq<Move> {
    MovesTo(Reds(s.g, s.n), s.chosenRow, s.chosenCol, 0, true, true, s.turn)
  }

  /**
   * The marks of the plain piece on (i, j) of side `turn`: it is made the
   * chosen variant, its destinations are marked, and it is made plain again.
   */
  function PieceMarks(g: Grid, n: int, i: int, j: int, forced: bool, turn: bool): Grid {
    if At(g, i, j) == Pawn(turn) then
      Set(PawnMarks(Set(g, i, j, PawnChosen(turn)), n, i, j, forced, turn), i, j, Pawn(turn))
    else
      Set(QueenMarks(Set(g, i, j, QueenChosen(turn)), n, i, j, forced, turn), i, j, Queen(turn))
  }

  /** The variables of generateMoves's scan off a streak: the moves so far, the tiles and the chosen square. */
  datatype Scan = Scan(moves: seq<Move>, g: Grid, chosenRow: int, chosenCol: int)

  /**
   * The scan from (i, j) on. Each plain piece of the side to move is chosen,
   * its marks are made, and every Red square, read row by row, turns Black and
   * gives a move.
   */
  function ScanFrom(s: State, acc: Scan, i: int, j: int): Scan
    decreases s.n - i, s.n - j
  {
    if i >= s.n then acc
    else if j >= s.n then ScanFrom(s, acc, i + 1, 1 - (i + 1) % 2)
    else
      var t := At(acc.g, i, j);
      ScanFrom(s, if t == Pawn(s.turn) || t == Queen(s.turn) then PieceScan(s, acc, i, j) else acc, i, j + 2)
  }

  /** The scan's work for the piece on (i, j). */
  function PieceScan(s: State, acc: Scan, i: int, j: int): Scan {
    var h := PieceMarks(acc.g, s.n, i, j, s.isForced, s.turn);
    Scan(acc.moves + MovesTo(Reds(h, s.n), i, j, s.mwp, s.isForced, false, s.turn), MarksOff(h), i, j)
  }

  /** generateMoves: the moves, and the tiles and chosen square it leaves behind. */
  function Generate(s: State): Scan {
    if s.isOnStreak then Scan(StreakMoves(s), s.g, s.chosenRow, s.chosenCol)
    else ScanFrom(s, Scan([], s.g, s.chosenRow, s.chosenCol), 0, 1)
  }

  // ---------------------------------------------------------------------------
  // makeMove

  /** makeMove's first steps: the origin becomes the chosen square and its piece the chosen variant. */
  function Choose(s: State, m: Move): State {
    s.(chosenRow := m.fromRow, chosenCol := m.fromCol,
       g := Set(s.g, m.fromRow, m.fromCol, ToChosen(At(s.g, m.fromRow, m.fromCol))))
  }

  /** What makeMove needs of a move for the board's Capture to be defined. */
  predicate MakeDefined(s: State, m: Move) {
    m.isCapture ==> CaptureDefined(Choose(s, m), m.toRow, m.toCol)
  }

  /** makeMove: a quiet move by movePawn or moveQueen, a capture by Capture. */
  ghost function Make(s: State, m: Move): State
    requires MakeDefined(s, m)
  {
    var s1 := Choose(s, m);
    if !m.isCapture then
      if ManChosen(s1) then Engine.MovePawn(s1, m.toRow, m.toCol) else Engine.MoveQueen(s1, m.toRow, m.toCol)
    else Engine.Capture(s1, m.toRow, m.toCol)
  }

  /** What the board method called by makeMove writes back to the stack top. */
  function MakeTrace(s: State, m: Move): Trace
    requires MakeDefined(s, m)
  {
    var s1 := Choose(s, m);
    if !m.isCapture then (if ManChosen(s1) then MovePawnTrace(s1, m.toRow) else Trace(None, None))
    else CaptureTrace(s1, m.toRow, m.toCol)
  }

  // ---------------------------------------------------------------------------
  // undoMove

  /** The run of captures by black on top of the stack: the moves undoMove walks through. */
  function TopRun(stack: seq<Move>): seq<Move> {
    if |stack| > 0 && stack[|stack| - 1].isCapture && stack[|stack| - 1].turn then
      TopRun(stack[..|stack| - 1]) + [stack[|stack| - 1]]
    else []
  }

  /** The captured squares of a run recoloured t, from the top of the run down. */
  function ReDead(g: Grid, run: seq<Move>, t: Tile): Grid
    decreases |run|
  {
    if run == [] then g
    else
      var m := run[|run| - 1];
      ReDead(Set(g, m.capturedRow, m.capturedCol, t), run[..|run| - 1], t)
  }

  /** undoMove's ordinal arithmetic: a chosen piece becomes plain after a move off a streak, a plain one chosen after a move on one. */
  function BackColour(t: Tile, onStreak: bool): Tile {
    if onStreak then ToChosen(t) else ToPlain(t)
  }

  /** The piece undoMove puts back on the origin: the destination's piece, demoted when the move crowned it. */
  function Returning(dest: Tile, m: Move): Tile {
    var back := BackColour(dest, m.wasOnStreak);
    if !m.wasPremotion then back
    else if back == WhiteQueen || back == WhiteQueenChosen then WhitePawn
    else BlackPawn
  }

  /** The demotion takes a white king when the returning piece was one. */
  predicate DemotesWhite(dest: Tile, m: Move) {
    var back := BackColour(dest, m.wasOnStreak);
    m.wasPremotion && (back == WhiteQueen || back == WhiteQueenChosen)
  }

  /** undoMove's first steps: the marks cleared and, when m ended a streak, the run's victims dead again. */
  function Cleared(g: Grid, stack: seq<Move>, m: Move, remark: bool): Grid {
    var g1 := MarksOff(g);
    if remark then ReDead(g1, TopRun(stack), Dead(!m.turn)) else g1
  }

  /** The destination Red (a streak to re-mark) or Black, its piece back on the origin, the victim back. */
  function Restored(g: Grid, m: Move, remark: bool): Grid {
    var dest := At(g, m.toRow, m.toCol);
    var g1 := Set(Set(g, m.toRow, m.toCol, if remark then Red else Black), m.fromRow, m.fromCol, Returning(dest, m));
    if m.isCapture then Set(g1, m.capturedRow, m.capturedCol, m.capturedColor) else g1
  }

  /** The marks of the origin after a move on a streak: by the man's marking only when it holds a plain man. */
  function Remarked(g: Grid, n: int, m: Move): Grid {
    var o := At(g, m.fromRow, m.fromCol);
    if o == BlackPawn || o == WhitePawn then PawnMarks(g, n, m.fromRow, m.fromCol, m.isCapture, m.turn)
    else QueenMarks(g, n, m.fromRow, m.fromCol, m.isCapture, m.turn)
  }

  /**
   * undoMove of m, popped from the stack `stack`. The marks are cleared; when
   * m ended a streak, the captured squares of the run of black captures under
   * it turn Dead again and the destination Red; otherwise the destination turns
   * Black. The destination's piece returns to the origin, the victim returns,
   * the counters and flags return to what m recorded, and after a move on a
   * streak the origin is chosen again and marked (by the king's marking unless
   * the origin holds a plain man).
   */
  function Undo(s: State, stack: seq<Move>, m: Move): State {
    var remark := !s.isOnStreak && m.wasOnStreak;
    var g2 := Cleared(s.g, stack, m, remark);
    var whiteDemoted := DemotesWhite(At(g2, m.toRow, m.toCol), m);
    var g4 := Restored(g2, m, remark);
    var s1 := s.(mwp := m.mwp, g := g4, isOnStreak := m.wasOnStreak, isForced := m.isCapture, turn := m.turn,
                 whiteLeft := s.whiteLeft + (if m.isCapture && m.turn then 1 else 0),
                 blackLeft := s.blackLeft + (if m.isCapture && !m.turn then 1 else 0),
                 whiteQueens := s.whiteQueens - (if whiteDemoted then 1 else 0)
                                + (if m.isCapture && m.turn && m.capturedColor == WhiteQueen then 1 else 0),
                 blackQueens := s.blackQueens - (if m.wasPremotion && !whiteDemoted then 1 else 0)
                                + (if m.isCapture && !m.turn && m.capturedColor == BlackQueen then 1 else 0));
    if m.wasOnStreak then
      s1.(isPawnChosen := true, chosenRow := m.fromRow, chosenCol := m.fromCol, g := Remarked(g4, s.n, m))
    else s1.(isPawnChosen := false)
  }

  // ---------------------------------------------------------------------------
  // evaluatePosition

  /** The number of tiles t on row i at columns j, j + 2, ... below n. */
  function CountEvery2(g: Grid, n: int, i: int, j: int, t: Tile): nat
    decreases n - j
  {
    if j >= n then 0 else (if At(g, i, j) == t then 1 else 0) + CountEvery2(g, n, i, j + 2, t)
  }

  /** Plain black men on row i, over its playable squares. */
  function BlackMenOnRow(g: Grid, n: int, i: int): nat { CountEvery2(g, n, i, 1 - i % 2, BlackPawn) }

  /** Plain white men on row i, over its playable squares. */
  function WhiteMenOnRow(g: Grid, n: int, i: int): nat { CountEvery2(g, n, i, 1 - i % 2, WhitePawn) }

  /** More pieces are left than PAWN_ROWS * LENGTH / 3 (integer division): the game is still in its opening. */
  predicate StartGame(s: State) {
    s.whiteLeft + s.blackLeft > s.pawnRows * s.n / 3
  }

  /** Material: a piece is worth 1, a king 1.1 more, and 0.5 more again in the opening. */
  function Material(s: State): real {
    var kings := (s.blackQueens - s.whiteQueens) as real;
    (s.blackLeft - s.whiteLeft) as real + 1.1 * kings + (if StartGame(s) then 0.5 * kings else 0.0)
  }

  /**
   * The men that have advanced: a black man on rows LENGTH-3 and LENGTH-2 and
   * a white man on rows 1 and 2 cost their side 0.15 in the opening and gain
   * it 0.25 later; in the opening a black man still on row 0 (odd columns)
   * and a white man still on row LENGTH-1 (from column LENGTH % 2) gain 0.2.
   */
  function Advancement(s: State): real {
    var start := StartGame(s);
    var blackAdvanced := (BlackMenOnRow(s.g, s.n, s.n - 3) + BlackMenOnRow(s.g, s.n, s.n - 2)) as real;
    var whiteAdvanced := (WhiteMenOnRow(s.g, s.n, 1) + WhiteMenOnRow(s.g, s.n, 2)) as real;
    var back := if start then
                  0.2 * CountEvery2(s.g, s.n, 0, 1, BlackPawn) as real - 0.2 * CountEvery2(s.g, s.n, s.n - 1, s.n % 2, WhitePawn) as real
                else 0.0;
    (if start then -0.15 else 0.25) * blackAdvanced - (if start then -0.15 else 0.25) * whiteAdvanced + back
  }

  /** The blocked-position test of evaluatePosition; it reads white's piece counter whichever side moves. */
  ghost predicate EvalBlocked(s: State) {
    !s.isForced && s.whiteLeft <= MAX_PAWNS_IN_STALEMATE && !CanPlay(s.g, s.n, s.turn)
  }

  /**
   * evaluatePosition, from black's point of view: a side without pieces has
   * lost; the side to move gains 0.25, and 0.35 more when it must capture; a
   * blocked side to move has lost; otherwise material and advancement.
   */
  ghost function Eval(s: State): (v: real)
    ensures s.whiteLeft == 0 ==> v == MAX_POS_VAL
    ensures s.whiteLeft != 0 && s.blackLeft == 0 ==> v == MIN_POS_VAL
    ensures s.whiteLeft != 0 && s.blackLeft != 0 && EvalBlocked(s) ==> v == (if s.turn then MIN_POS_VAL else MAX_POS_VAL)
  {
    if s.whiteLeft == 0 then MAX_POS_VAL
    else if s.blackLeft == 0 then MIN_POS_VAL
    else if EvalBlocked(s) then (if s.turn then MIN_POS_VAL else MAX_POS_VAL)
    else Heuristic(s)
  }

  /** The value of an undecided position: material, the tempo of the side to move (more when it must capture), advancement. */
  function Heuristic(s: State): real {
    var tempo := 0.25 + (if s.isForced then 0.35 else 0.0);
    Material(s) + (if s.turn then tempo else -tempo) + Advancement(s)
  }

  // ---------------------------------------------------------------------------
  // What the static value can be

  /** A row holds no more kings of a side than pieces of it. */
  lemma {:induction false} KingsRowWithin(row: seq<Tile>, black: bool, m: int)
    requires 0 <= m <= |row|
    ensures CountRowTo(row, Kings(black), m) <= CountRowTo(row, Pieces(black), m)
  {
    if m > 0 {
      KingsRowWithin(row, black, m - 1);
    }
  }

  /** A grid holds no more kings of a side than pieces of it, and at most 12 pieces a row when rows are at most 12 long. */
  lemma {:induction false} KingsWithinTo(g: Grid, n: int, black: bool, m: int)
    requires IsSquare(g, n) && n <= 12 && 0 <= m <= n
    ensures CountTo(g, Kings(black), m) <= CountTo(g, Pieces(black), m) <= 12 * m
  {
    if m > 0 {
      KingsWithinTo(g, n, black, m - 1);
      KingsRowWithin(g[m - 1], black, n);
      assert CountRow(g[m - 1], Pieces(black)) <= n;
    }
  }

  /** The counters of a well-formed position: at most 144 pieces a side (a 12 by 12 board), and no more kings than pieces. */
  lemma CountersWithin(s: State)
    requires WellFormed(s)
    ensures 0 <= s.whiteQueens <= s.whiteLeft <= 144 && 0 <= s.blackQueens <= s.blackLeft <= 144
  {
    KingsWithinTo(s.g, s.n, false, s.n);
    KingsWithinTo(s.g, s.n, true, s.n);
  }

  /** Every other square of a row from column j: at most half the columns left, rounded up. */
  lemma {:induction false} CountEvery2Within(g: Grid, n: int, i: int, j: int, t: Tile)
    requires 0 <= j <= n + 1
    ensures 2 * CountEvery2(g, n, i, j, t) <= n - j + 1
    decreases n - j
  {
    if j < n {
      CountEvery2Within(g, n, i, j + 2, t);
    }
  }

  /** The material term moves by at most 2.6 a piece: 1 for the piece and 1.6 more for a king. */
  lemma MaterialWithin(s: State)
    requires WellFormed(s)
    ensures var bound := 2.6 * (s.whiteLeft + s.blackLeft) as real;
      -bound <= Material(s) <= bound
  {
    CountersWithin(s);
  }

  /** On a board of at most 12 columns, every other square of a row counts at most 6 tiles. */
  lemma CountEvery2Six(g: Grid, n: int, i: int, j: int, t: Tile)
    requires 0 <= n <= 12 && 0 <= j <= 1
    ensures CountEvery2(g, n, i, j, t) <= 6
  {
    CountEvery2Within(g, n, i, j, t);
  }

  /** The advancement term: at most 6 men a row are counted, on two rows a side, and 6 on each back row. */
  lemma AdvancementWithin(s: State)
    requires 4 <= s.n <= 12
    ensures -3.0 <= Advancement(s) <= 3.0
  {
    var g, n := s.g, s.n;
    var j3, j2, jw := 1 - (n - 3) % 2, 1 - (n - 2) % 2, n % 2;
    CountEvery2Six(g, n, n - 3, j3, BlackPawn);
    CountEvery2Six(g, n, n - 2, j2, BlackPawn);
    CountEvery2Six(g, n, 1, 0, WhitePawn);
    CountEvery2Six(g, n, 2, 1, WhitePawn);
    CountEvery2Six(g, n, 0, 1, BlackPawn);
    CountEvery2Six(g, n, n - 1, jw, WhitePawn);
    var a := (CountEvery2(g, n, n - 3, j3, BlackPawn) + CountEvery2(g, n, n - 2, j2, BlackPawn)) as real;
    var b := (CountEvery2(g, n, 1, 0, WhitePawn) + CountEvery2(g, n, 2, 1, WhitePawn)) as real;
    var c := CountEvery2(g, n, 0, 1, BlackPawn) as real;
    var d := CountEvery2(g, n, n - 1, jw, WhitePawn) as real;
    if StartGame(s) {
      assert Advancement(s) == -0.15 * a + 0.15 * b + (0.2 * c - 0.2 * d);
    } else {
      assert Advancement(s) == 0.25 * a - 0.25 * b + 0.0;
    }
  }

  /** The heuristic value lies within 2.6 a piece of material, 0.6 of tempo and 3 of advancement, far from a won or lost value. */
  lemma HeuristicWithin(s: State)
    requires WellFormed(s)
    ensures var bound := 2.6 * (s.whiteLeft + s.blackLeft) as real + 3.6;
      -bound <= Heuristic(s) <= bound && bound < MAX_POS_VAL
  {
    CountersWithin(s);
    MaterialWithin(s);
    AdvancementWithin(s);
  }

  /**
   * evaluatePosition gives the won and lost values exactly for the decided
   * positions: MAX_POS_VAL when white has no piece left or white is to move
   * and blocked, MIN_POS_VAL when black has no piece left or black is to
   * move and blocked; every other position gets its heuristic value.
   */
  lemma EvalDecided(s: State)
    requires WellFormed(s)
    ensures Eval(s) == MAX_POS_VAL <==> s.whiteLeft == 0 || (s.blackLeft != 0 && EvalBlocked(s) && !s.turn)
    ensures Eval(s) == MIN_POS_VAL <==> s.whiteLeft != 0 && (s.blackLeft == 0 || (EvalBlocked(s) && s.turn))
  {
    HeuristicWithin(s);
  }

  /** The better of a move's value and the best so far, for the side maximising (Max) or minimising: a strict improvement only. */
  predicate Improves(v: real, best: real, max: bool) {
    if max then v > best else v < best
  }
}
