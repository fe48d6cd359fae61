/**
 * The rules engine as functions on a game state: the state of the Damka
 * frame (grid, counters, flags), and what movePawn, moveQueen, Capture and
 * changeTurn make of it. The class in damka.dfy runs the same operations in
 * place and proves that it computes these functions.
 */
module Engine {
  import opened Tiles
  import opened Grids
  import opened Rules
  import opened Marks

  /** Number of moves without captures or man moves that makes a draw. */
  const MOVES_FOR_DRAW := 15
  /** The most pieces a side may have for a blocked position to lose the game. */
  const MAX_PAWNS_IN_STALEMATE := 5

  datatype Option<T> = None | Some(value: T)

  /** The message of the last endGame dialog, or Playing when none was shown. */
  datatype Outcome = Playing | Draw | WhiteWins | BlackWins | UserWins

  /** The fields of the Damka frame that the rules read and write. */
  datatype State = State(
    n: int, pawnRows: int, g: Grid,
    whiteLeft: int, blackLeft: int, whiteQueens: int, blackQueens: int,
    chosenRow: int, chosenCol: int, mwp: int,
    isPawnChosen: bool, isForced: bool, isOnStreak: bool, turn: bool,
    isComputer: bool, isComputerPlaying: bool, outcome: Outcome)

  /**
   * What a move writes back into the move on top of the search's stack while
   * the computer is searching: the captured square and its colour, and
   * whether the moving man was crowned (None where the program writes nothing).
   */
  datatype Trace = Trace(victim: Option<(int, int, Tile)>, premotion: Option<bool>)

  /** The piece counter of side `black`. */
  function PiecesLeft(s: State, black: bool): int { if black then s.blackLeft else s.whiteLeft }

  /** The king counter of side `black`. */
  function KingsLeft(s: State, black: bool): int { if black then s.blackQueens else s.whiteQueens }

  /** The two counters of side `black` count that side's pieces and kings. */
  ghost predicate SideMatches(s: State, black: bool) {
    PiecesLeft(s, black) == Count(s.g, Pieces(black)) && KingsLeft(s, black) == Count(s.g, Kings(black))
  }

  // ---------------------------------------------------------------------------
  // Invariants of every position of a game

  /** The counters count the live pieces and kings of each side on the grid. */
  ghost predicate CountersMatch(s: State) {
    s.whiteLeft == Count(s.g, Pieces(false)) && s.blackLeft == Count(s.g, Pieces(true)) &&
    s.whiteQueens == Count(s.g, Kings(false)) && s.blackQueens == Count(s.g, Kings(true))
  }

  /**
   * The board settings the game accepts (LENGTH 4..12, PAWN_ROWS at least one
   * and leaving a row between the armies), a square, well coloured grid with
   * no man on the row where it would have been crowned, and a chosen square on
   * the board.
   */
  ghost predicate WellFormed(s: State) {
    4 <= s.n <= 12 && 1 <= s.pawnRows <= (s.n + 1) / 2 - 1 &&
    GridOk(s.g, s.n) && In(s.n, s.chosenRow, s.chosenCol) && CountersMatch(s)
  }

  /** A square, well coloured grid with no man on its crown row. */
  ghost predicate GridOk(g: Grid, n: int) {
    IsSquare(g, n) && WellColoured(g, n) && NoManOnCrownRow(g, n)
  }

  /** The counters match exactly when they match side by side. */
  lemma SidesMatch(s: State)
    ensures CountersMatch(s) <==> SideMatches(s, true) && SideMatches(s, false)
  {
  }

  // ---------------------------------------------------------------------------
  // start and the constructor

  /** The grid start() lays out: black men on the first pawnRows rows, white men on the last. */
  function StartGrid(n: int, pawnRows: int): (g: Grid)
    requires n >= 0
    ensures IsSquare(g, n)
  {
    seq(n, i requires 0 <= i < n =>
      seq(n, j requires 0 <= j < n =>
        if !Playable(i, j) then White
        else if i < pawnRows then BlackPawn
        else if i >= n - pawnRows then WhitePawn
        else Black))
  }

  /** The grid the constructor allocates: every tile WHITE, the colour a new tile starts with. */
  function Blank(n: int): (g: Grid)
    requires n >= 0
    ensures IsSquare(g, n)
  {
    seq(n, i requires 0 <= i < n => seq(n, j requires 0 <= j < n => White))
  }

  /**
   * One of start()'s loops: tile t on every square of rows lo..hi-1 whose
   * playability is `playable`; every other square keeps its tile.
   */
  function Paint(g: Grid, lo: int, hi: int, playable: bool, t: Tile): (h: Grid)
    ensures |h| == |g| && forall i :: 0 <= i < |g| ==> |h[i]| == |g[i]|
  {
    seq(|g|, i requires 0 <= i < |g| =>
      seq(|g[i]|, j requires 0 <= j < |g[i]| =>
        if lo <= i < hi && Playable(i, j) == playable then t else g[i][j]))
  }

  /** Painting no rows changes nothing. */
  lemma PaintNone(g: Grid, lo: int, hi: int, playable: bool, t: Tile)
    requires hi <= lo
    ensures Paint(g, lo, hi, playable, t) == g
  {
    var h := Paint(g, lo, hi, playable, t);
    forall i | 0 <= i < |g|
      ensures h[i] == g[i]
    {
    }
  }

  /** Painting rows lo..i-1 and then row i paints rows lo..i. */
  lemma PaintRowStep(g: Grid, lo: int, i: int, playable: bool, t: Tile, n: int)
    requires IsSquare(g, n) && lo <= i < n
    ensures Paint(Paint(g, lo, i, playable, t), i, i + 1, playable, t) == Paint(g, lo, i + 1, playable, t)
  {
    SameGrid(Paint(Paint(g, lo, i, playable, t), i, i + 1, playable, t), Paint(g, lo, i + 1, playable, t), n);
  }

  /**
   * start()'s four loops (light squares, white men, black men, the empty rows
   * between) lay out StartGrid whatever the grid held before.
   */
  lemma StartPainted(g: Grid, n: int, pawnRows: int)
    requires IsSquare(g, n)
    ensures var g1 := Paint(g, 0, n, false, White);
            var g2 := Paint(g1, n - pawnRows, n, true, WhitePawn);
            var g3 := Paint(g2, 0, pawnRows, true, BlackPawn);
            Paint(g3, pawnRows, n - pawnRows, true, Black) == StartGrid(n, pawnRows)
  {
    var g1 := Paint(g, 0, n, false, White);
    var g2 := Paint(g1, n - pawnRows, n, true, WhitePawn);
    var g3 := Paint(g2, 0, pawnRows, true, BlackPawn);
    var g4 := Paint(g3, pawnRows, n - pawnRows, true, Black);
    SameGrid(g4, StartGrid(n, pawnRows), n);
  }

  /** The state after the constructor and start(): white to move, both counters at LENGTH*PAWN_ROWS/2. */
  function Initial(n: int, pawnRows: int, isComputer: bool): (s: State)
    requires n >= 0
  {
    State(n, pawnRows, StartGrid(n, pawnRows),
          n * pawnRows / 2, n * pawnRows / 2, 0, 0,
          0, 0, 0,
          false, false, false, false,
          isComputer, false, Playing)
  }

  /** The playable squares of row i of an n-wide board. */
  function RowSquares(n: int, i: int): int {
    if i % 2 == 0 then n / 2 else (n + 1) / 2
  }

  /** How many of columns 0..m-1 of row i are playable. */
  lemma {:induction false} PlayablePrefix(row: seq<Tile>, i: int, m: int, k: Census, t: Tile)
    requires 0 <= m <= |row| && 0 <= i
    requires forall j :: 0 <= j < |row| ==> row[j] == (if Playable(i, j) then t else White)
    ensures CountRowTo(row, k, m) == if Counts(t, k) then (if i % 2 == 0 then m / 2 else (m + 1) / 2) else 0
  {
    if m > 0 {
      PlayablePrefix(row, i, m - 1, k, t);
      assert row[m - 1] == (if Playable(i, m - 1) then t else White);
    }
  }

  /** A row of the start grid: its playable squares all hold one tile. */
  lemma StartRow(n: int, pawnRows: int, i: int, k: Census)
    requires 0 <= i < n
    ensures CountRow(StartGrid(n, pawnRows)[i], k) ==
            if Counts(StartTile(n, pawnRows, i), k) then RowSquares(n, i) else 0
  {
    PlayablePrefix(StartGrid(n, pawnRows)[i], i, n, k, StartTile(n, pawnRows, i));
  }

  /** The tile start() puts on the playable squares of row i. */
  function StartTile(n: int, pawnRows: int, i: int): Tile {
    if i < pawnRows then BlackPawn else if i >= n - pawnRows then WhitePawn else Black
  }

  /** The playable squares of rows lo..hi-1. */
  function RowsSquares(n: int, lo: int, hi: int): int
    decreases hi - lo
  {
    if hi <= lo then 0 else RowsSquares(n, lo, hi - 1) + RowSquares(n, hi - 1)
  }

  /** Twice the playable squares of rows lo..hi-1, in closed form. */
  lemma {:induction false} RowsSquaresTwice(n: int, lo: int, hi: int)
    requires 0 <= n && 0 <= lo <= hi
    ensures 2 * RowsSquares(n, lo, hi) ==
            n * (hi - lo) + (if n % 2 == 1 then 2 * (hi / 2 - lo / 2) - (hi - lo) else 0)
    decreases hi - lo
  {
    if hi > lo {
      RowsSquaresTwice(n, lo, hi - 1);
      assert n * (hi - lo) == n * (hi - 1 - lo) + n;
    }
  }

  /** The start grid's census over its first m rows. */
  lemma {:induction false} StartRows(n: int, pawnRows: int, m: int, k: Census)
    requires 0 <= m <= n && 0 <= pawnRows && 2 * pawnRows < n
    ensures CountTo(StartGrid(n, pawnRows), k, m) == StartCensus(n, pawnRows, m, k)
  {
    var g := StartGrid(n, pawnRows);
    forall i | 0 <= i < n
      ensures CountRow(g[i], k) == RowCensus(n, pawnRows, i, k)
    {
      StartRow(n, pawnRows, i, k);
      RowCensusValue(n, pawnRows, i, k);
    }
    CensusUpTo(g, n, pawnRows, m, k);
  }

  /** The census of row i of the start grid. */
  function RowCensus(n: int, pawnRows: int, i: int, k: Census): int {
    match k
    case Pieces(true) => if i < pawnRows then RowSquares(n, i) else 0
    case Pieces(false) => if i >= n - pawnRows then RowSquares(n, i) else 0
    case Kings(_) => 0
  }

  lemma RowCensusValue(n: int, pawnRows: int, i: int, k: Census)
    requires 2 * pawnRows < n
    ensures RowCensus(n, pawnRows, i, k) == if Counts(StartTile(n, pawnRows, i), k) then RowSquares(n, i) else 0
  {
  }

  /** Summing the rows' census over the first m rows. */
  lemma {:induction false} CensusUpTo(g: Grid, n: int, pawnRows: int, m: int, k: Census)
    requires 0 <= m <= n == |g| && 0 <= pawnRows && 2 * pawnRows < n
    requires forall i :: 0 <= i < n ==> CountRow(g[i], k) == RowCensus(n, pawnRows, i, k)
    ensures CountTo(g, k, m) == StartCensus(n, pawnRows, m, k)
  {
    if m > 0 {
      CensusUpTo(g, n, pawnRows, m - 1, k);
      match k
      case Pieces(true) =>
        if m <= pawnRows {
          assert RowsSquares(n, 0, m) == RowsSquares(n, 0, m - 1) + RowSquares(n, m - 1);
        }
      case Pieces(false) =>
        if m > n - pawnRows {
          assert RowsSquares(n, n - pawnRows, m) == RowsSquares(n, n - pawnRows, m - 1) + RowSquares(n, m - 1);
        }
      case Kings(_) =>
    }
  }

  /** What the census of the start grid's first m rows comes to. */
  function StartCensus(n: int, pawnRows: int, m: int, k: Census): int {
    match k
    case Pieces(true) => RowsSquares(n, 0, if m < pawnRows then m else pawnRows)
    case Pieces(false) => RowsSquares(n, n - pawnRows, if m < n - pawnRows then n - pawnRows else m)
    case Kings(_) => 0
  }

  /**
   * start() puts LENGTH*PAWN_ROWS/2 men on each side, what the constructor
   * set the counters to, and no king: the state a game opens in is well
   * formed for every size Main offers, odd boards included.
   */
  lemma InitialWellFormed(n: int, pawnRows: int, isComputer: bool)
    requires 4 <= n <= 12 && 1 <= pawnRows <= (n + 1) / 2 - 1
    ensures WellFormed(Initial(n, pawnRows, isComputer))
  {
    StartGridOk(n, pawnRows);
    StartRows(n, pawnRows, n, Pieces(true));
    StartRows(n, pawnRows, n, Pieces(false));
    StartRows(n, pawnRows, n, Kings(true));
    StartRows(n, pawnRows, n, Kings(false));
    ArmySize(n, pawnRows);
  }

  /** Laying out the start grid over the constructor's state, whatever grid it held, gives a well formed state. */
  lemma StartedWellFormed(s: State)
    ensures (4 <= s.n <= 12 && 1 <= s.pawnRows < (s.n + 1) / 2 &&
             s == Initial(s.n, s.pawnRows, s.isComputer).(g := s.g)) ==> WellFormed(s.(g := StartGrid(s.n, s.pawnRows)))
  {
    if 4 <= s.n <= 12 && 1 <= s.pawnRows < (s.n + 1) / 2 {
      InitialWellFormed(s.n, s.pawnRows, s.isComputer);
    }
  }

  /** The start grid is square, well coloured and has no man on its crown row. */
  lemma StartGridOk(n: int, pawnRows: int)
    requires 1 <= n && 0 <= pawnRows && 2 * pawnRows < n
    ensures GridOk(StartGrid(n, pawnRows), n)
  {
    var g := StartGrid(n, pawnRows);
    assert !IsMan(StartTile(n, pawnRows, 0), false) && !IsMan(StartTile(n, pawnRows, n - 1), true);
    forall j | 0 <= j < n
      ensures !IsMan(g[0][j], false) && !IsMan(g[n - 1][j], true)
    {
      assert g[0][j] == if Playable(0, j) then StartTile(n, pawnRows, 0) else White;
      assert g[n - 1][j] == if Playable(n - 1, j) then StartTile(n, pawnRows, n - 1) else White;
    }
    assert NoManOnCrownRow(g, n);
    assert WellColoured(g, n);
  }

  /** Each army fills half the squares of its pawnRows rows, rounded down. */
  lemma ArmySize(n: int, pawnRows: int)
    requires 0 <= n && 0 <= pawnRows && 2 * pawnRows < n
    ensures RowsSquares(n, 0, pawnRows) == n * pawnRows / 2
    ensures RowsSquares(n, n - pawnRows, n) == n * pawnRows / 2
  {
    RowsSquaresTwice(n, 0, pawnRows);
    RowsSquaresTwice(n, n - pawnRows, n);
    var e := if n % 2 == 1 && pawnRows % 2 == 1 then 1 else 0;
    assert 2 * RowsSquares(n, 0, pawnRows) == n * pawnRows - e;
    assert 2 * RowsSquares(n, n - pawnRows, n) == n * pawnRows - e;
  }

  // ---------------------------------------------------------------------------
  // turnPawnOff

  /**
   * turnPawnOff (with turnQueenOff for a chosen king): the chosen square gets
   * a plain piece of the side to move, a king when a king was chosen and a
   * man otherwise; the marks are cleared and no piece is chosen any more.
   */
  function PawnOff(s: State): State {
    var c := At(s.g, s.chosenRow, s.chosenCol);
    var t := if c == BlackQueenChosen || c == WhiteQueenChosen then Queen(s.turn) else Pawn(s.turn);
    s.(g := MarksOff(Set(s.g, s.chosenRow, s.chosenCol, t)), isPawnChosen := false)
  }

  /**
   * When only the chosen square holds a chosen piece of the side to move,
   * turnPawnOff leaves no chosen piece and no mark, puts that piece down with
   * its rank, and keeps every other square that was not Red.
   */
  lemma PawnOffUnchooses(s: State)
    requires IsSquare(s.g, s.n) && WellColoured(s.g, s.n) && In(s.n, s.chosenRow, s.chosenCol)
    requires forall i, j :: IsChosen(At(s.g, i, j)) ==> i == s.chosenRow && j == s.chosenCol
    requires IsChosen(At(s.g, s.chosenRow, s.chosenCol)) ==>
               At(s.g, s.chosenRow, s.chosenCol) in {PawnChosen(s.turn), QueenChosen(s.turn)}
    ensures var h := PawnOff(s).g;
      NoTile(h, Red) && (forall i, j :: !IsChosen(At(h, i, j))) && !PawnOff(s).isPawnChosen &&
      (At(s.g, s.chosenRow, s.chosenCol) == PawnChosen(s.turn) ==> At(h, s.chosenRow, s.chosenCol) == Pawn(s.turn)) &&
      (At(s.g, s.chosenRow, s.chosenCol) == QueenChosen(s.turn) ==> At(h, s.chosenRow, s.chosenCol) == Queen(s.turn)) &&
      forall i, j :: (i != s.chosenRow || j != s.chosenCol) && At(s.g, i, j) != Red ==> At(h, i, j) == At(s.g, i, j)
  {
    var c := At(s.g, s.chosenRow, s.chosenCol);
    var t := if c == BlackQueenChosen || c == WhiteQueenChosen then Queen(s.turn) else Pawn(s.turn);
    var g1 := Set(s.g, s.chosenRow, s.chosenCol, t);
    forall i, j
      ensures !IsChosen(At(MarksOff(g1), i, j)) && At(MarksOff(g1), i, j) != Red
      ensures At(g1, i, j) != Red ==> At(MarksOff(g1), i, j) == At(g1, i, j)
    {
      MarksOffAt(g1, i, j);
      if In(s.n, i, j) {
        assert s.g[i][j] == At(s.g, i, j);
      }
    }
    forall i, j | 0 <= i < |MarksOff(g1)| && 0 <= j < |MarksOff(g1)[i]|
      ensures MarksOff(g1)[i][j] != Red
    {
      assert At(MarksOff(g1), i, j) != Red;
    }
  }

  // ---------------------------------------------------------------------------
  // changeTurn

  /** The winner announced when side `loser` is blocked. */
  function WinnerOver(loser: bool): Outcome { if loser then WhiteWins else BlackWins }

  /**
   * changeTurn: the other side moves and isForced is recomputed for it. When
   * the human has just moved against the computer, the program starts the
   * computer's reply here; that reply is not part of this function. Outside a
   * search, a side to move that is not forced, has at most
   * MAX_PAWNS_IN_STALEMATE pieces and no quiet move loses the game. When the
   * game goes on and the evaluation box is ticked, changeTurn then calls
   * evaluate(); that call is Computer.Evaluate, not part of this function.
   */
  ghost function ChangeTurn(s: State): (t: State)
    ensures t.turn == !s.turn
    ensures t.isForced <==> CaptureExists(s.g, s.n, t.turn)
    ensures t.(turn := s.turn, isForced := s.isForced, outcome := s.outcome) == s
    ensures t.outcome != s.outcome ==>
              t.outcome == WinnerOver(t.turn) && !s.isComputerPlaying && !t.isForced &&
              PiecesLeft(s, t.turn) <= MAX_PAWNS_IN_STALEMATE && !CanPlay(s.g, s.n, t.turn)
    ensures !s.isComputerPlaying && !(s.isComputer && t.turn) && !t.isForced &&
            PiecesLeft(s, t.turn) <= MAX_PAWNS_IN_STALEMATE && !CanPlay(s.g, s.n, t.turn) ==>
              t.outcome == WinnerOver(t.turn)
  {
    var turn := !s.turn;
    var s1 := s.(turn := turn, isForced := CaptureExists(s.g, s.n, turn));
    if s.isComputer && !s.isComputerPlaying && turn then s1
    else if s.isComputerPlaying then s1
    else if turn && !s1.isForced && s.blackLeft <= MAX_PAWNS_IN_STALEMATE && !CanPlay(s.g, s.n, turn) then
      s1.(outcome := WhiteWins)
    else if !turn && !s1.isForced && s.whiteLeft <= MAX_PAWNS_IN_STALEMATE && !CanPlay(s.g, s.n, turn) then
      s1.(outcome := BlackWins)
    else s1
  }

  // ---------------------------------------------------------------------------
  // movePawn and moveQueen

  /** The man of the side to move reaching row tr is crowned. */
  predicate Promotes(s: State, tr: int) { tr == CrownRow(s.n, s.turn) }

  /** movePawn up to the turn change: the man leaves the chosen square for (tr, tc). */
  function MovePawnBody(s: State, tr: int, tc: int): State {
    var promote := Promotes(s, tr);
    var g1 := Set(s.g, tr, tc, if promote then Queen(s.turn) else Pawn(s.turn));
    var g2 := Set(g1, s.chosenRow, s.chosenCol, Black);
    s.(mwp := 0, g := MarksOff(g2), isPawnChosen := false,
       whiteQueens := if promote && !s.turn then s.whiteQueens + 1 else s.whiteQueens,
       blackQueens := if promote && s.turn then s.blackQueens + 1 else s.blackQueens)
  }

  /** MovePawnBody, assembled from its grid and its two king counters. */
  lemma MovePawnParts(s: State, tr: int, tc: int, g: Grid, wq: int, bq: int)
    requires var promote := Promotes(s, tr);
             g == MarksOff(Set(Set(s.g, tr, tc, if promote then Queen(s.turn) else Pawn(s.turn)), s.chosenRow, s.chosenCol, Black)) &&
             wq == (if promote && !s.turn then s.whiteQueens + 1 else s.whiteQueens) &&
             bq == (if promote && s.turn then s.blackQueens + 1 else s.blackQueens)
    ensures s.(mwp := 0, g := g, isPawnChosen := false, whiteQueens := wq, blackQueens := bq) == MovePawnBody(s, tr, tc)
  {
  }

  ghost function MovePawn(s: State, tr: int, tc: int): State {
    ChangeTurn(MovePawnBody(s, tr, tc))
  }

  /** What movePawn writes back to the stack top: a crowning, and nothing otherwise. */
  function MovePawnTrace(s: State, tr: int): Trace {
    Trace(None, if Promotes(s, tr) then Some(true) else None)
  }

  /** moveQueen up to the turn change; the fifteenth quiet king move outside a search is a draw. */
  function MoveQueenBody(s: State, tr: int, tc: int): State {
    var mwp := s.mwp + 1;
    var g1 := Set(s.g, tr, tc, Queen(s.turn));
    var g2 := Set(g1, s.chosenRow, s.chosenCol, Black);
    s.(mwp := mwp, outcome := if mwp == MOVES_FOR_DRAW && !s.isComputerPlaying then Draw else s.outcome,
       g := MarksOff(g2), isPawnChosen := false)
  }

  ghost function MoveQueen(s: State, tr: int, tc: int): State {
    ChangeTurn(MoveQueenBody(s, tr, tc))
  }

  // ---------------------------------------------------------------------------
  // Capture, CaptureWithPawn, CaptureWithQueen

  /** The chosen square holds a chosen man: Capture hands over to CaptureWithPawn. */
  predicate ManChosen(s: State) {
    At(s.g, s.chosenRow, s.chosenCol) == WhitePawnChosen || At(s.g, s.chosenRow, s.chosenCol) == BlackPawnChosen
  }

  /**
   * Capture up to the hand-over: the progress counter is reset, the opponent's
   * piece counter drops, the chosen square is emptied and the marks are cleared.
   */
  function CapturePrep(s: State): State {
    s.(mwp := 0,
       whiteLeft := if s.turn then s.whiteLeft - 1 else s.whiteLeft,
       blackLeft := if s.turn then s.blackLeft else s.blackLeft - 1,
       g := MarksOff(Set(s.g, s.chosenRow, s.chosenCol, Black)))
  }

  /** The square the man jumps over: the midpoint of the jump. */
  function Midpoint(a: int, b: int): int { (a + b) / 2 }

  /** The tile of a piece that has arrived on (tr, tc) and may continue its streak. */
  function Arrived(s: State, tr: int, tc: int, crowned: bool): Tile {
    if crowned then Queen(s.turn) else Pawn(s.turn)
  }

  /** The king counter after the victim tile `victim` is taken and, when `crowned`, the capturer is crowned. */
  function KingsAfter(s: State, black: bool, victim: Tile, crowned: bool): int {
    KingsLeft(s, black)
    - (if black != s.turn && victim == Queen(black) then 1 else 0)
    + (if black == s.turn && crowned then 1 else 0)
  }

  /** The streak goes on from (tr, tc): the piece is chosen again and its landings are marked. */
  function ContinueStreak(s: State, g: Grid, tr: int, tc: int, king: bool): State
    requires 0 <= tr < s.n
  {
    var g1 := Set(g, tr, tc, if king then QueenChosen(s.turn) else PawnChosen(s.turn));
    s.(isOnStreak := true, isPawnChosen := true, chosenRow := tr, chosenCol := tc,
       g := if king then QueenMarks(g1, s.n, tr, tc, s.isForced, s.turn)
            else PawnMarks(g1, s.n, tr, tc, s.isForced, s.turn))
  }

  /** ContinueStreak, assembled from the grid its marks leave. */
  lemma ContinueParts(s: State, tr: int, tc: int, king: bool, g0: Grid, r: int, c: int, forced: bool, mover: bool, h: Grid)
    requires 0 <= tr < s.n && g0 == s.g && r == tr && c == tc && forced == s.isForced && mover == s.turn
    requires var g1 := Set(g0, r, c, if king then QueenChosen(mover) else PawnChosen(mover));
      h == if king then QueenMarks(g1, s.n, r, c, forced, mover) else PawnMarks(g1, s.n, r, c, forced, mover)
    ensures s.(isOnStreak := true, isPawnChosen := true, chosenRow := tr, chosenCol := tc, g := h) == ContinueStreak(s, s.g, tr, tc, king)
  {
  }

  /** The streak is over: the captured pieces are lifted and the turn passes. */
  ghost function EndStreak(s: State, g: Grid): State {
    ChangeTurn(s.(g := RemoveDead(g), isOnStreak := false, isForced := false, isPawnChosen := false))
  }

  /** CaptureWithPawn's landing: the victim on the midpoint turns Dead and the man arrives, crowned on its crown row. */
  function ManLanded(s: State, tr: int, tc: int): State {
    var vr, vc := Midpoint(tr, s.chosenRow), Midpoint(tc, s.chosenCol);
    var victim := At(s.g, vr, vc);
    var crowned := Promotes(s, tr);
    var g1 := Set(s.g, vr, vc, Dead(!s.turn));
    s.(g := Set(g1, tr, tc, Arrived(s, tr, tc, crowned)),
       whiteQueens := KingsAfter(s, false, victim, crowned),
       blackQueens := KingsAfter(s, true, victim, crowned))
  }

  /** ManLanded, assembled from its grid and its two king counters. */
  lemma ManLandedParts(s: State, tr: int, tc: int, g: Grid, wq: int, bq: int)
    requires var vr, vc := Midpoint(tr, s.chosenRow), Midpoint(tc, s.chosenCol);
             var crowned := Promotes(s, tr);
             g == Set(Set(s.g, vr, vc, Dead(!s.turn)), tr, tc, Arrived(s, tr, tc, crowned)) &&
             wq == KingsAfter(s, false, At(s.g, vr, vc), crowned) && bq == KingsAfter(s, true, At(s.g, vr, vc), crowned)
    ensures s.(g := g, whiteQueens := wq, blackQueens := bq) == ManLanded(s, tr, tc)
  {
  }

  /**
   * What CaptureWithPawn does once the man has landed on (tr, tc): an
   * uncrowned man that can jump again, or a crowned one that can capture as a
   * king, continues the streak; otherwise the streak ends.
   */
  ghost function ManAfterJump(s1: State, tr: int, tc: int, crowned: bool): State
    requires 0 <= tr < s1.n
  {
    if !crowned && CanPawnCapture(s1.g, s1.n, tr, tc, s1.turn) then ContinueStreak(s1, s1.g, tr, tc, false)
    else if crowned && CanQueenCapture(s1.g, s1.n, tr, tc, s1.turn) then ContinueStreak(s1, s1.g, tr, tc, true)
    else EndStreak(s1, s1.g)
  }

  /** CaptureWithPawn, entered with the chosen square already emptied. */
  ghost function CaptureWithPawn(s: State, tr: int, tc: int): State
    requires 0 <= tr < s.n
  {
    ManAfterJump(ManLanded(s, tr, tc), tr, tc, Promotes(s, tr))
  }

  /** The direction of a king's move from the chosen square to (tr, tc). */
  function DirTo(s: State, tr: int, tc: int): (int, int) {
    (Sign(tr - s.chosenRow), Sign(tc - s.chosenCol))
  }

  /** The grid in which CaptureWithQueen looks for its victim: the king already stands on (tr, tc). */
  function KingLanded(s: State, tr: int, tc: int): Grid {
    Set(s.g, tr, tc, Queen(s.turn))
  }

  /**
   * The victim search of CaptureWithQueen finds prey before leaving the board
   * (the program would index outside the grid otherwise), on a move that
   * changes both row and column.
   */
  predicate KingVictimExists(s: State, tr: int, tc: int) {
    In(s.n, s.chosenRow, s.chosenCol) && tr != s.chosenRow && tc != s.chosenCol &&
    PreyAhead(KingLanded(s, tr, tc), s.n, s.chosenRow, s.chosenCol, DirTo(s, tr, tc).0, DirTo(s, tr, tc).1, s.turn)
  }

  /** The square of the king's victim: the first prey from the chosen square towards (tr, tc). */
  function KingVictim(s: State, tr: int, tc: int): (v: (int, int))
    requires KingVictimExists(s, tr, tc)
    ensures In(s.n, v.0, v.1) && Prey(At(KingLanded(s, tr, tc), v.0, v.1), s.turn)
  {
    var (dr, dc) := DirTo(s, tr, tc);
    var d := PreyDistance(KingLanded(s, tr, tc), s.n, s.chosenRow, s.chosenCol, dr, dc, 1, s.turn);
    (Step(s.chosenRow, dr, d), Step(s.chosenCol, dc, d))
  }

  /** CaptureWithQueen's landing: the king stands on (tr, tc) and its victim turns Dead. */
  function KingLandedState(s: State, tr: int, tc: int): State
    requires KingVictimExists(s, tr, tc)
  {
    var g1 := KingLanded(s, tr, tc);
    var (vr, vc) := KingVictim(s, tr, tc);
    var victim := At(g1, vr, vc);
    s.(g := Set(g1, vr, vc, Dead(!s.turn)),
       whiteQueens := KingsAfter(s, false, victim, false),
       blackQueens := KingsAfter(s, true, victim, false))
  }

  /** KingLandedState, assembled from its grid and its two king counters. */
  lemma KingLandedParts(s: State, tr: int, tc: int, vr: int, vc: int, g: Grid, wq: int, bq: int)
    requires KingVictimExists(s, tr, tc) && (vr, vc) == KingVictim(s, tr, tc)
    requires var victim := At(KingLanded(s, tr, tc), vr, vc);
             g == Set(KingLanded(s, tr, tc), vr, vc, Dead(!s.turn)) &&
             wq == KingsAfter(s, false, victim, false) && bq == KingsAfter(s, true, victim, false)
    ensures s.(g := g, whiteQueens := wq, blackQueens := bq) == KingLandedState(s, tr, tc)
  {
  }

  /**
   * CaptureWithQueen, entered with the chosen square already emptied: the
   * streak continues while the king can capture again.
   */
  ghost function CaptureWithQueen(s: State, tr: int, tc: int): State
    requires 0 <= tr < s.n && KingVictimExists(s, tr, tc)
  {
    KingAfterJump(KingLandedState(s, tr, tc), tr, tc)
  }

  /** What CaptureWithQueen does once the king has landed on (tr, tc) and its victim is dead. */
  ghost function KingAfterJump(s1: State, tr: int, tc: int): State
    requires 0 <= tr < s1.n
  {
    if CanQueenCapture(s1.g, s1.n, tr, tc, s1.turn) then ContinueStreak(s1, MarksOff(s1.g), tr, tc, true)
    else EndStreak(s1, s1.g)
  }

  /** What Capture needs of its caller: a king's capture must find its victim. */
  predicate CaptureDefined(s: State, tr: int, tc: int) {
    0 <= tr < s.n && (!ManChosen(s) ==> KingVictimExists(CapturePrep(s), tr, tc))
  }

  /** Capture: the chosen piece captures by moving to (tr, tc). */
  ghost function Capture(s: State, tr: int, tc: int): State
    requires CaptureDefined(s, tr, tc)
  {
    if ManChosen(s) then CaptureWithPawn(CapturePrep(s), tr, tc)
    else CaptureWithQueen(CapturePrep(s), tr, tc)
  }

  /** What Capture writes back to the stack top: the victim, and for a man whether it was crowned. */
  function CaptureTrace(s: State, tr: int, tc: int): Trace
    requires CaptureDefined(s, tr, tc)
  {
    var p := CapturePrep(s);
    if ManChosen(s) then
      var vr, vc := Midpoint(tr, s.chosenRow), Midpoint(tc, s.chosenCol);
      Trace(Some((vr, vc, At(p.g, vr, vc))), Some(Promotes(s, tr)))
    else
      var (vr, vc) := KingVictim(p, tr, tc);
      Trace(Some((vr, vc, At(KingLanded(p, tr, tc), vr, vc))), None)
  }

  // ---------------------------------------------------------------------------
  // The invariants are kept by every legal move

  /** Putting a non-White tile on a playable square keeps the grid well formed, unless it puts a man on its crown row. */
  lemma SetKeepsGrid(g: Grid, n: int, r: int, c: int, t: Tile)
    requires GridOk(g, n) && In(n, r, c) && g[r][c] != White && t != White
    requires !(r == 0 && IsMan(t, false)) && !(r == n - 1 && IsMan(t, true))
    ensures GridOk(Set(g, r, c, t), n)
  {
    SetKeepsColours(g, n, r, c, t);
    SetKeepsCrownRows(g, n, r, c, t);
  }

  lemma SetKeepsColours(g: Grid, n: int, r: int, c: int, t: Tile)
    requires IsSquare(g, n) && WellColoured(g, n) && In(n, r, c) && g[r][c] != White && t != White
    ensures IsSquare(Set(g, r, c, t), n) && WellColoured(Set(g, r, c, t), n)
  {
    var h := Set(g, r, c, t);
    forall i, j | 0 <= i < n && 0 <= j < n
      ensures h[i][j] == White <==> !Playable(i, j)
    {
      assert At(h, i, j) == h[i][j] && At(g, i, j) == g[i][j];
    }
  }

  lemma SetKeepsCrownRows(g: Grid, n: int, r: int, c: int, t: Tile)
    requires IsSquare(g, n) && NoManOnCrownRow(g, n) && In(n, r, c)
    requires !(r == 0 && IsMan(t, false)) && !(r == n - 1 && IsMan(t, true))
    ensures IsSquare(Set(g, r, c, t), n) && NoManOnCrownRow(Set(g, r, c, t), n)
  {
    var h := Set(g, r, c, t);
    forall j | 0 <= j < n
      ensures !IsMan(h[0][j], false) && !IsMan(h[n - 1][j], true)
    {
      assert At(h, 0, j) == h[0][j] && At(g, 0, j) == g[0][j];
      assert At(h, n - 1, j) == h[n - 1][j] && At(g, n - 1, j) == g[n - 1][j];
    }
  }

  /** A recolouring of empty squares keeps the grid well formed and every census. */
  lemma RecolourKeepsGrid(g: Grid, h: Grid, n: int)
    requires GridOk(g, n) && IsSquare(h, n) && (Recolours(g, h) || SameOccupants(g, h))
    ensures GridOk(h, n) && forall k :: Count(h, k) == Count(g, k)
  {
    if Recolours(g, h) {
      RecoloursKeepsPieces(g, h);
    }
    SameOccupantsKeeps(g, h, n);
  }

  /** Choosing the piece on (tr, tc) again and marking its landings keeps the grid and the census. */
  lemma ContinueStreakKeeps(s: State, g: Grid, tr: int, tc: int, king: bool)
    requires GridOk(g, s.n) && In(s.n, tr, tc) && g[tr][tc] == (if king then Queen(s.turn) else Pawn(s.turn))
    ensures var t := ContinueStreak(s, g, tr, tc, king);
      GridOk(t.g, s.n) && forall k :: Count(t.g, k) == Count(g, k)
  {
    var c := if king then QueenChosen(s.turn) else PawnChosen(s.turn);
    var g1 := Set(g, tr, tc, c);
    ChooseKeeps(g, s.n, tr, tc);
    if king {
      QueenMarksSound(g1, s.n, tr, tc, s.isForced, s.turn);
      RecolourKeepsGrid(g1, QueenMarks(g1, s.n, tr, tc, s.isForced, s.turn), s.n);
    } else {
      PawnMarksSpec(g1, s.n, tr, tc, s.isForced, s.turn);
      RecolourKeepsGrid(g1, PawnMarks(g1, s.n, tr, tc, s.isForced, s.turn), s.n);
    }
  }

  /** Choosing a plain piece keeps the grid and every census. */
  lemma ChooseKeeps(g: Grid, n: int, r: int, c: int)
    requires GridOk(g, n) && In(n, r, c) && IsPlain(g[r][c])
    ensures GridOk(Set(g, r, c, ToChosen(g[r][c])), n)
    ensures forall k :: Count(Set(g, r, c, ToChosen(g[r][c])), k) == Count(g, k)
  {
    var h := Set(g, r, c, ToChosen(g[r][c]));
    ChosenIsOrdinalPlusTwo(g[r][c]);
    forall i | 0 <= i < n
      ensures |h[i]| == |g[i]| && forall j :: 0 <= j < n ==> Occupy(g[i][j]) == Occupy(h[i][j])
    {
      forall j | 0 <= j < n
        ensures Occupy(g[i][j]) == Occupy(h[i][j])
      {
        assert At(h, i, j) == h[i][j] && At(g, i, j) == g[i][j];
      }
    }
    assert SameOccupants(g, h);
    SameOccupantsKeeps(g, h, n);
  }

  /** Ending the streak keeps the grid and the census. */
  lemma EndStreakKeeps(s: State, g: Grid)
    requires GridOk(g, s.n)
    ensures GridOk(EndStreak(s, g).g, s.n) && forall k :: Count(EndStreak(s, g).g, k) == Count(g, k)
  {
    RemoveDeadClears(g, s.n);
    RecolourKeepsGrid(g, RemoveDead(g), s.n);
  }

  /** The turn change leaves the grid, the counters and the chosen square alone. */
  lemma ChangeTurnKeeps(s: State)
    requires WellFormed(s)
    ensures WellFormed(ChangeTurn(s))
  {
    var t := ChangeTurn(s);
    assert t.(turn := s.turn, isForced := s.isForced, outcome := s.outcome) == s;
  }

  /** The four counters of a census, read off a grid. */
  ghost function Tally(g: Grid): (int, int, int, int) {
    (Count(g, Pieces(false)), Count(g, Pieces(true)), Count(g, Kings(false)), Count(g, Kings(true)))
  }

  /** A piece of side `turn` arrives as tile t on an empty square: the side's piece count grows by one. */
  lemma ArrivePieces(g: Grid, r: int, c: int, t: Tile, turn: bool)
    requires 0 <= r < |g| && 0 <= c < |g[r]| && IsVacant(g[r][c]) && IsPiece(t, turn)
    ensures Count(Set(g, r, c, t), Pieces(turn)) == Count(g, Pieces(turn)) + 1
    ensures Count(Set(g, r, c, t), Pieces(!turn)) == Count(g, Pieces(!turn))
  {
    assert !Counts(g[r][c], Pieces(turn)) && Counts(t, Pieces(turn));
    assert !Counts(g[r][c], Pieces(!turn)) && !Counts(t, Pieces(!turn));
    CountSet(g, r, c, t, Pieces(turn));
    CountSet(g, r, c, t, Pieces(!turn));
  }

  /** ... and its king count grows by one when t is a king. */
  lemma ArriveKings(g: Grid, r: int, c: int, t: Tile, turn: bool)
    requires 0 <= r < |g| && 0 <= c < |g[r]| && IsVacant(g[r][c]) && IsPiece(t, turn)
    ensures Count(Set(g, r, c, t), Kings(turn)) == Count(g, Kings(turn)) + (if IsKing(t, turn) then 1 else 0)
    ensures Count(Set(g, r, c, t), Kings(!turn)) == Count(g, Kings(!turn))
  {
    assert !Counts(g[r][c], Kings(turn)) && Counts(t, Kings(turn)) == IsKing(t, turn);
    assert !Counts(g[r][c], Kings(!turn)) && !Counts(t, Kings(!turn));
    CountSet(g, r, c, t, Kings(turn));
    CountSet(g, r, c, t, Kings(!turn));
  }

  /** A piece of side `turn` leaves its square, which becomes empty. */
  lemma LeavePieces(g: Grid, r: int, c: int, turn: bool)
    requires 0 <= r < |g| && 0 <= c < |g[r]| && IsPiece(g[r][c], turn)
    ensures Count(Set(g, r, c, Black), Pieces(turn)) == Count(g, Pieces(turn)) - 1
    ensures Count(Set(g, r, c, Black), Pieces(!turn)) == Count(g, Pieces(!turn))
  {
    assert Counts(g[r][c], Pieces(turn)) && !Counts(Black, Pieces(turn));
    assert !Counts(g[r][c], Pieces(!turn)) && !Counts(Black, Pieces(!turn));
    CountSet(g, r, c, Black, Pieces(turn));
    CountSet(g, r, c, Black, Pieces(!turn));
  }

  lemma LeaveKings(g: Grid, r: int, c: int, turn: bool)
    requires 0 <= r < |g| && 0 <= c < |g[r]| && IsPiece(g[r][c], turn)
    ensures Count(Set(g, r, c, Black), Kings(turn)) == Count(g, Kings(turn)) - (if IsKing(g[r][c], turn) then 1 else 0)
    ensures Count(Set(g, r, c, Black), Kings(!turn)) == Count(g, Kings(!turn))
  {
    assert Counts(g[r][c], Kings(turn)) == IsKing(g[r][c], turn) && !Counts(Black, Kings(turn));
    assert !Counts(g[r][c], Kings(!turn)) && !Counts(Black, Kings(!turn));
    CountSet(g, r, c, Black, Kings(turn));
    CountSet(g, r, c, Black, Kings(!turn));
  }

  /** Clearing the marks keeps the grid and the census. */
  lemma MarksOffCounts(g: Grid, n: int)
    requires GridOk(g, n)
    ensures GridOk(MarksOff(g), n) && Tally(MarksOff(g)) == Tally(g)
  {
    MarksOffClears(g, n);
    RecolourKeepsGrid(g, MarksOff(g), n);
  }

  /** Whatever the grid, clearing the marks or lifting the dead keeps every census. */
  lemma RecolourTally(g: Grid)
    ensures Tally(MarksOff(g)) == Tally(g) && Tally(RemoveDead(g)) == Tally(g)
  {
    MarksOffSameOccupants(g);
    RemoveDeadSameOccupants(g);
    forall k
      ensures Count(MarksOff(g), k) == Count(g, k) && Count(RemoveDead(g), k) == Count(g, k)
    {
      CountSameOccupants(g, MarksOff(g), k);
      CountSameOccupants(g, RemoveDead(g), k);
    }
  }

  /** A piece of side `turn` moves from a to an empty square b, arriving as tile t: the grid stays well formed. */
  lemma MovePieceGrid(g: Grid, n: int, ar: int, ac: int, br: int, bc: int, t: Tile, turn: bool)
    requires GridOk(g, n) && In(n, ar, ac) && In(n, br, bc) && IsVacant(g[br][bc]) && IsPiece(g[ar][ac], turn)
    requires IsPiece(t, turn) && !(br == 0 && IsMan(t, false)) && !(br == n - 1 && IsMan(t, true))
    ensures GridOk(MarksOff(Set(Set(g, br, bc, t), ar, ac, Black)), n)
  {
    var g1 := Set(g, br, bc, t);
    SetKeepsGrid(g, n, br, bc, t);
    assert g1[ar][ac] == g[ar][ac] by { assert At(g1, ar, ac) == At(g, ar, ac); }
    SetKeepsGrid(g1, n, ar, ac, Black);
    MarksOffCounts(Set(g1, ar, ac, Black), n);
  }

  /** The four counters of one side and the other, as a move leaves them before the marks are cleared. */
  lemma MovePieceSetTally(g: Grid, ar: int, ac: int, br: int, bc: int, t: Tile, turn: bool)
    requires 0 <= ar < |g| && 0 <= ac < |g[ar]| && 0 <= br < |g| && 0 <= bc < |g[br]|
    requires IsVacant(g[br][bc]) && IsPiece(g[ar][ac], turn) && IsPiece(t, turn)
    ensures var h := Set(Set(g, br, bc, t), ar, ac, Black);
      Count(h, Pieces(turn)) == Count(g, Pieces(turn)) &&
      Count(h, Pieces(!turn)) == Count(g, Pieces(!turn)) &&
      Count(h, Kings(!turn)) == Count(g, Kings(!turn)) &&
      Count(h, Kings(turn)) == Count(g, Kings(turn)) - (if IsKing(g[ar][ac], turn) then 1 else 0)
                                                     + (if IsKing(t, turn) then 1 else 0)
  {
    var g1 := Set(g, br, bc, t);
    ArrivePieces(g, br, bc, t, turn);
    ArriveKings(g, br, bc, t, turn);
    assert g1[ar][ac] == g[ar][ac] by { assert At(g1, ar, ac) == At(g, ar, ac); }
    LeavePieces(g1, ar, ac, turn);
    LeaveKings(g1, ar, ac, turn);
  }

  /** Clearing the marks keeps the four counters, named by side. */
  lemma MarksOffTally(g: Grid, turn: bool)
    ensures var h := MarksOff(g);
      Count(h, Pieces(turn)) == Count(g, Pieces(turn)) &&
      Count(h, Pieces(!turn)) == Count(g, Pieces(!turn)) &&
      Count(h, Kings(!turn)) == Count(g, Kings(!turn)) &&
      Count(h, Kings(turn)) == Count(g, Kings(turn))
  {
    RecolourTally(g);
  }

  /** ... and every census except the mover's kings is unchanged. */
  lemma MovePieceTally(g: Grid, ar: int, ac: int, br: int, bc: int, t: Tile, turn: bool)
    requires 0 <= ar < |g| && 0 <= ac < |g[ar]| && 0 <= br < |g| && 0 <= bc < |g[br]|
    requires IsVacant(g[br][bc]) && IsPiece(g[ar][ac], turn) && IsPiece(t, turn)
    ensures var h := MarksOff(Set(Set(g, br, bc, t), ar, ac, Black));
      Count(h, Pieces(turn)) == Count(g, Pieces(turn)) &&
      Count(h, Pieces(!turn)) == Count(g, Pieces(!turn)) &&
      Count(h, Kings(!turn)) == Count(g, Kings(!turn)) &&
      Count(h, Kings(turn)) == Count(g, Kings(turn)) - (if IsKing(g[ar][ac], turn) then 1 else 0)
                                                     + (if IsKing(t, turn) then 1 else 0)
  {
    MovePieceSetTally(g, ar, ac, br, bc, t, turn);
    MarksOffTally(Set(Set(g, br, bc, t), ar, ac, Black), turn);
  }

  /** A victim of side !turn becomes Dead: that side loses one piece, and one king when the victim was a king. */
  lemma KillPieces(g: Grid, r: int, c: int, turn: bool)
    requires 0 <= r < |g| && 0 <= c < |g[r]| && Prey(g[r][c], turn)
    ensures Count(Set(g, r, c, Dead(!turn)), Pieces(!turn)) == Count(g, Pieces(!turn)) - 1
    ensures Count(Set(g, r, c, Dead(!turn)), Pieces(turn)) == Count(g, Pieces(turn))
  {
    assert !Counts(g[r][c], Pieces(turn)) && !Counts(Dead(!turn), Pieces(turn));
    assert Counts(g[r][c], Pieces(!turn)) && !Counts(Dead(!turn), Pieces(!turn));
    CountSet(g, r, c, Dead(!turn), Pieces(turn));
    CountSet(g, r, c, Dead(!turn), Pieces(!turn));
  }

  lemma KillKings(g: Grid, r: int, c: int, turn: bool)
    requires 0 <= r < |g| && 0 <= c < |g[r]| && Prey(g[r][c], turn)
    ensures Count(Set(g, r, c, Dead(!turn)), Kings(!turn)) ==
            Count(g, Kings(!turn)) - (if g[r][c] == Queen(!turn) then 1 else 0)
    ensures Count(Set(g, r, c, Dead(!turn)), Kings(turn)) == Count(g, Kings(turn))
  {
    assert !Counts(g[r][c], Kings(turn)) && !Counts(Dead(!turn), Kings(turn));
    assert Counts(g[r][c], Kings(!turn)) == (g[r][c] == Queen(!turn)) && !Counts(Dead(!turn), Kings(!turn));
    CountSet(g, r, c, Dead(!turn), Kings(turn));
    CountSet(g, r, c, Dead(!turn), Kings(!turn));
  }

  /** movePawn's counters: a crowning adds one king to the mover's side and nothing else changes. */
  lemma MovePawnCounters(s: State, tr: int, tc: int)
    requires CountersMatch(s) && IsSquare(s.g, s.n) && In(s.n, tr, tc) && In(s.n, s.chosenRow, s.chosenCol)
    requires IsVacant(At(s.g, tr, tc)) && IsMan(At(s.g, s.chosenRow, s.chosenCol), s.turn)
    ensures CountersMatch(MovePawnBody(s, tr, tc))
  {
    var t := if Promotes(s, tr) then Queen(s.turn) else Pawn(s.turn);
    MovePieceTally(s.g, s.chosenRow, s.chosenCol, tr, tc, t, s.turn);
  }

  /** movePawn keeps the invariants when the chosen man moves to an empty square. */
  lemma MovePawnBodyWellFormed(s: State, tr: int, tc: int)
    requires WellFormed(s) && In(s.n, tr, tc) && IsVacant(At(s.g, tr, tc))
    requires IsMan(At(s.g, s.chosenRow, s.chosenCol), s.turn)
    ensures WellFormed(MovePawnBody(s, tr, tc))
  {
    var t := if Promotes(s, tr) then Queen(s.turn) else Pawn(s.turn);
    MovePieceGrid(s.g, s.n, s.chosenRow, s.chosenCol, tr, tc, t, s.turn);
    MovePawnCounters(s, tr, tc);
  }

  lemma MovePawnWellFormed(s: State, tr: int, tc: int)
    requires WellFormed(s) && In(s.n, tr, tc) && IsVacant(At(s.g, tr, tc))
    requires IsMan(At(s.g, s.chosenRow, s.chosenCol), s.turn)
    ensures WellFormed(MovePawn(s, tr, tc))
  {
    MovePawnBodyWellFormed(s, tr, tc);
    ChangeTurnKeeps(MovePawnBody(s, tr, tc));
  }

  /** moveQueen's counters: the king changes squares and no counter moves. */
  lemma MoveQueenCounters(s: State, tr: int, tc: int)
    requires CountersMatch(s) && IsSquare(s.g, s.n) && In(s.n, tr, tc) && In(s.n, s.chosenRow, s.chosenCol)
    requires IsVacant(At(s.g, tr, tc)) && IsKing(At(s.g, s.chosenRow, s.chosenCol), s.turn)
    ensures CountersMatch(MoveQueenBody(s, tr, tc))
  {
    MovePieceTally(s.g, s.chosenRow, s.chosenCol, tr, tc, Queen(s.turn), s.turn);
  }

  /** moveQueen keeps the invariants when the chosen king moves to an empty square. */
  lemma MoveQueenWellFormed(s: State, tr: int, tc: int)
    requires WellFormed(s) && In(s.n, tr, tc) && IsVacant(At(s.g, tr, tc))
    requires IsKing(At(s.g, s.chosenRow, s.chosenCol), s.turn)
    ensures WellFormed(MoveQueen(s, tr, tc))
  {
    MovePieceGrid(s.g, s.n, s.chosenRow, s.chosenCol, tr, tc, Queen(s.turn), s.turn);
    MoveQueenCounters(s, tr, tc);
    assert WellFormed(MoveQueenBody(s, tr, tc));
    ChangeTurnKeeps(MoveQueenBody(s, tr, tc));
  }

  // ---------------------------------------------------------------------------
  // Captures keep the invariants

  /** A legal capture by the chosen man: a jump of two squares over prey to an empty square. */
  predicate LegalManCapture(s: State, tr: int, tc: int) {
    In(s.n, s.chosenRow, s.chosenCol) && At(s.g, s.chosenRow, s.chosenCol) == PawnChosen(s.turn) &&
    In(s.n, tr, tc) && Abs(tr - s.chosenRow) == 2 && Abs(tc - s.chosenCol) == 2 &&
    IsVacant(At(s.g, tr, tc)) &&
    Prey(At(s.g, Midpoint(tr, s.chosenRow), Midpoint(tc, s.chosenCol)), s.turn)
  }

  /** A legal capture by the chosen king: an empty square (tr, tc) with prey ahead of the king on the diagonal towards (tr, tc). */
  predicate LegalKingCapture(s: State, tr: int, tc: int) {
    In(s.n, s.chosenRow, s.chosenCol) && At(s.g, s.chosenRow, s.chosenCol) == QueenChosen(s.turn) &&
    In(s.n, tr, tc) && IsVacant(At(s.g, tr, tc)) && KingVictimExists(CapturePrep(s), tr, tc)
  }

  /** Capture's preparation lifts the capturer and clears the marks; every other square keeps its piece. */
  lemma PrepGrid(g: Grid, n: int, cr: int, cc: int, turn: bool)
    requires GridOk(g, n) && In(n, cr, cc) && IsPiece(g[cr][cc], turn)
    ensures GridOk(MarksOff(Set(g, cr, cc, Black)), n)
    ensures forall i, j :: In(n, i, j) && (i != cr || j != cc) ==>
              (IsVacant(g[i][j]) ==> IsVacant(MarksOff(Set(g, cr, cc, Black))[i][j])) &&
              (g[i][j] != Red ==> MarksOff(Set(g, cr, cc, Black))[i][j] == g[i][j])
  {
    var g1 := Set(g, cr, cc, Black);
    SetKeepsGrid(g, n, cr, cc, Black);
    MarksOffCounts(g1, n);
    forall i, j | In(n, i, j) && (i != cr || j != cc)
      ensures g1[i][j] == g[i][j]
    {
      assert At(g1, i, j) == At(g, i, j);
    }
  }

  /** ... and its counters: the capturer's side is one piece short until it lands. */
  lemma PrepTally(g: Grid, cr: int, cc: int, turn: bool)
    requires 0 <= cr < |g| && 0 <= cc < |g[cr]| && IsPiece(g[cr][cc], turn)
    ensures var h := MarksOff(Set(g, cr, cc, Black));
      Count(h, Pieces(turn)) == Count(g, Pieces(turn)) - 1 &&
      Count(h, Pieces(!turn)) == Count(g, Pieces(!turn)) &&
      Count(h, Kings(turn)) == Count(g, Kings(turn)) - (if IsKing(g[cr][cc], turn) then 1 else 0) &&
      Count(h, Kings(!turn)) == Count(g, Kings(!turn))
  {
    LeavePieces(g, cr, cc, turn);
    LeaveKings(g, cr, cc, turn);
    MarksOffTally(Set(g, cr, cc, Black), turn);
  }

  /** The victim on v turns Dead and the capturer arrives on d as tile t: the grid stays well formed. */
  lemma LandGrid(p: Grid, n: int, vr: int, vc: int, tr: int, tc: int, t: Tile, turn: bool)
    requires GridOk(p, n) && In(n, vr, vc) && In(n, tr, tc) && Prey(p[vr][vc], turn) && IsVacant(p[tr][tc])
    requires IsPiece(t, turn) && !(tr == 0 && IsMan(t, false)) && !(tr == n - 1 && IsMan(t, true))
    ensures GridOk(Set(Set(p, vr, vc, Dead(!turn)), tr, tc, t), n)
  {
    var g1 := Set(p, vr, vc, Dead(!turn));
    SetKeepsGrid(p, n, vr, vc, Dead(!turn));
    assert g1[tr][tc] == p[tr][tc] by { assert At(g1, tr, tc) == At(p, tr, tc); }
    SetKeepsGrid(g1, n, tr, tc, t);
  }

  /** ... and the counters: the victim's side loses the victim, the capturer's side gets its piece back. */
  lemma LandTally(p: Grid, vr: int, vc: int, tr: int, tc: int, t: Tile, turn: bool)
    requires 0 <= vr < |p| && 0 <= vc < |p[vr]| && 0 <= tr < |p| && 0 <= tc < |p[tr]|
    requires Prey(p[vr][vc], turn) && IsVacant(p[tr][tc]) && IsPiece(t, turn)
    ensures var h := Set(Set(p, vr, vc, Dead(!turn)), tr, tc, t);
      Count(h, Pieces(turn)) == Count(p, Pieces(turn)) + 1 &&
      Count(h, Pieces(!turn)) == Count(p, Pieces(!turn)) - 1 &&
      Count(h, Kings(turn)) == Count(p, Kings(turn)) + (if IsKing(t, turn) then 1 else 0) &&
      Count(h, Kings(!turn)) == Count(p, Kings(!turn)) - (if p[vr][vc] == Queen(!turn) then 1 else 0)
  {
    var g1 := Set(p, vr, vc, Dead(!turn));
    KillPieces(p, vr, vc, turn);
    KillKings(p, vr, vc, turn);
    assert g1[tr][tc] == p[tr][tc] by { assert At(g1, tr, tc) == At(p, tr, tc); }
    ArrivePieces(g1, tr, tc, t, turn);
    ArriveKings(g1, tr, tc, t, turn);
  }

  /** Continuing the streak from (tr, tc) keeps the invariants. */
  lemma ContinueWellFormed(s: State, g: Grid, tr: int, tc: int, king: bool)
    requires WellFormed(s.(g := g)) && In(s.n, tr, tc) && g[tr][tc] == (if king then Queen(s.turn) else Pawn(s.turn))
    ensures WellFormed(ContinueStreak(s, g, tr, tc, king))
  {
    ContinueStreakKeeps(s, g, tr, tc, king);
  }

  /** Ending the streak keeps the invariants. */
  lemma EndWellFormed(s: State, g: Grid)
    requires WellFormed(s.(g := g))
    ensures WellFormed(EndStreak(s, g))
  {
    EndStreakKeeps(s, g);
    ChangeTurnKeeps(s.(g := RemoveDead(g), isOnStreak := false, isForced := false, isPawnChosen := false));
  }

  /**
   * The tiles of a capture: the capturer of side `turn` on c, prey on v and
   * an empty square d. Their tiles alone make the three squares distinct.
   */
  predicate CaptureTiles(g: Grid, cr: int, cc: int, vr: int, vc: int, tr: int, tc: int, turn: bool) {
    0 <= cr < |g| && 0 <= cc < |g[cr]| && 0 <= vr < |g| && 0 <= vc < |g[vr]| && 0 <= tr < |g| && 0 <= tc < |g[tr]| &&
    IsPiece(g[cr][cc], turn) && Prey(g[vr][vc], turn) && IsVacant(g[tr][tc])
  }

  /** ... on the board of a well formed grid. */
  ghost predicate CaptureSquaresOk(g: Grid, n: int, cr: int, cc: int, vr: int, vc: int, tr: int, tc: int, turn: bool) {
    GridOk(g, n) && In(n, cr, cc) && In(n, vr, vc) && In(n, tr, tc) && CaptureTiles(g, cr, cc, vr, vc, tr, tc, turn)
  }

  /** The jumped square of a legal man capture is on the board and holds prey. */
  lemma ManCaptureSquares(s: State, tr: int, tc: int)
    requires WellFormed(s) && LegalManCapture(s, tr, tc)
    ensures CaptureSquaresOk(s.g, s.n, s.chosenRow, s.chosenCol,
                             Midpoint(tr, s.chosenRow), Midpoint(tc, s.chosenCol), tr, tc, s.turn)
  {
  }

  /** The whole grid change of a capture: lift the capturer, clear the marks, kill the victim, land as t. */
  function CaptureGrid(g: Grid, cr: int, cc: int, vr: int, vc: int, tr: int, tc: int, t: Tile, turn: bool): Grid {
    Set(Set(MarksOff(Set(g, cr, cc, Black)), vr, vc, Dead(!turn)), tr, tc, t)
  }

  /** The victim keeps its tile, and the landing stays empty, while the capturer is lifted and the marks are cleared. */
  lemma PrepKeepsVictim(g: Grid, cr: int, cc: int, vr: int, vc: int, tr: int, tc: int, turn: bool)
    requires CaptureTiles(g, cr, cc, vr, vc, tr, tc, turn)
    ensures MarksOff(Set(g, cr, cc, Black))[vr][vc] == g[vr][vc]
    ensures IsVacant(MarksOff(Set(g, cr, cc, Black))[tr][tc])
  {
    var g1 := Set(g, cr, cc, Black);
    assert g1[vr][vc] == g[vr][vc] by { assert At(g1, vr, vc) == At(g, vr, vc); }
    assert IsVacant(g1[tr][tc]) by { assert At(g1, tr, tc) == At(g, tr, tc); }
  }

  /** A capture over prey to an empty square keeps the grid well formed. */
  lemma CaptureGridOk(g: Grid, n: int, cr: int, cc: int, vr: int, vc: int, tr: int, tc: int, t: Tile, turn: bool)
    requires CaptureSquaresOk(g, n, cr, cc, vr, vc, tr, tc, turn)
    requires IsPiece(t, turn) && !(tr == 0 && IsMan(t, false)) && !(tr == n - 1 && IsMan(t, true))
    ensures GridOk(CaptureGrid(g, cr, cc, vr, vc, tr, tc, t, turn), n)
    ensures CaptureGrid(g, cr, cc, vr, vc, tr, tc, t, turn)[tr][tc] == t
  {
    var p := MarksOff(Set(g, cr, cc, Black));
    PrepGrid(g, n, cr, cc, turn);
    PrepKeepsVictim(g, cr, cc, vr, vc, tr, tc, turn);
    LandGrid(p, n, vr, vc, tr, tc, t, turn);
    assert At(CaptureGrid(g, cr, cc, vr, vc, tr, tc, t, turn), tr, tc) == t;
  }

  /** A capture takes one piece from the victim's side and none from the capturer's. */
  lemma CaptureGridPieces(g: Grid, cr: int, cc: int, vr: int, vc: int, tr: int, tc: int, t: Tile, turn: bool, b: bool)
    requires CaptureTiles(g, cr, cc, vr, vc, tr, tc, turn) && IsPiece(t, turn)
    ensures Count(CaptureGrid(g, cr, cc, vr, vc, tr, tc, t, turn), Pieces(b)) ==
            Count(g, Pieces(b)) - (if b != turn then 1 else 0)
  {
    var p := MarksOff(Set(g, cr, cc, Black));
    PrepTally(g, cr, cc, turn);
    PrepKeepsVictim(g, cr, cc, vr, vc, tr, tc, turn);
    LandTally(p, vr, vc, tr, tc, t, turn);
  }

  /**
   * ... and one king from the victim's side when the victim was a king; the
   * capturer's side changes its king count only by what the capturer was and
   * what it lands as.
   */
  lemma CaptureGridKings(g: Grid, cr: int, cc: int, vr: int, vc: int, tr: int, tc: int, t: Tile, turn: bool, b: bool)
    requires CaptureTiles(g, cr, cc, vr, vc, tr, tc, turn) && IsPiece(t, turn)
    ensures Count(CaptureGrid(g, cr, cc, vr, vc, tr, tc, t, turn), Kings(b)) ==
            Count(g, Kings(b)) - (if b != turn && g[vr][vc] == Queen(b) then 1 else 0)
            + (if b == turn && IsKing(t, turn) then 1 else 0) - (if b == turn && IsKing(g[cr][cc], turn) then 1 else 0)
  {
    var p := MarksOff(Set(g, cr, cc, Black));
    PrepTally(g, cr, cc, turn);
    PrepKeepsVictim(g, cr, cc, vr, vc, tr, tc, turn);
    LandTally(p, vr, vc, tr, tc, t, turn);
  }

  /** CaptureWithPawn's landing, seen as a grid change of the position before Capture. */
  lemma ManLandedShape(s: State, tr: int, tc: int, b: bool)
    requires CaptureTiles(s.g, s.chosenRow, s.chosenCol, Midpoint(tr, s.chosenRow), Midpoint(tc, s.chosenCol), tr, tc, s.turn)
    ensures var vr, vc := Midpoint(tr, s.chosenRow), Midpoint(tc, s.chosenCol);
      var s1 := ManLanded(CapturePrep(s), tr, tc);
      s1.g == CaptureGrid(s.g, s.chosenRow, s.chosenCol, vr, vc, tr, tc, Arrived(s, tr, tc, Promotes(s, tr)), s.turn) &&
      KingsLeft(s1, b) == KingsAfter(s, b, s.g[vr][vc], Promotes(s, tr)) &&
      PiecesLeft(s1, b) == PiecesLeft(s, b) - (if b != s.turn then 1 else 0)
  {
    var vr, vc := Midpoint(tr, s.chosenRow), Midpoint(tc, s.chosenCol);
    PrepKeepsVictim(s.g, s.chosenRow, s.chosenCol, vr, vc, tr, tc, s.turn);
  }

  /** CaptureWithPawn's landing keeps the grid well formed and puts the man, crowned or not, on (tr, tc). */
  lemma ManLandedGrid(s: State, tr: int, tc: int)
    requires WellFormed(s) && LegalManCapture(s, tr, tc)
    ensures var s1 := ManLanded(CapturePrep(s), tr, tc);
      GridOk(s1.g, s.n) && s1.g[tr][tc] == Arrived(s, tr, tc, Promotes(s, tr))
  {
    var vr, vc := Midpoint(tr, s.chosenRow), Midpoint(tc, s.chosenCol);
    var t := Arrived(s, tr, tc, Promotes(s, tr));
    assert IsPiece(t, s.turn) && !(tr == 0 && IsMan(t, false)) && !(tr == s.n - 1 && IsMan(t, true));
    ManCaptureSquares(s, tr, tc);
    CaptureGridOk(s.g, s.n, s.chosenRow, s.chosenCol, vr, vc, tr, tc, t, s.turn);
    ManLandedShape(s, tr, tc, s.turn);
  }

  /** ... and the piece counter of side b still counts its pieces ... */
  lemma ManLandedPieces(s: State, tr: int, tc: int, b: bool)
    requires CaptureTiles(s.g, s.chosenRow, s.chosenCol, Midpoint(tr, s.chosenRow), Midpoint(tc, s.chosenCol), tr, tc, s.turn)
    requires PiecesLeft(s, b) == Count(s.g, Pieces(b))
    ensures PiecesLeft(ManLanded(CapturePrep(s), tr, tc), b) == Count(ManLanded(CapturePrep(s), tr, tc).g, Pieces(b))
  {
    var vr, vc := Midpoint(tr, s.chosenRow), Midpoint(tc, s.chosenCol);
    var t := Arrived(s, tr, tc, Promotes(s, tr));
    assert IsPiece(t, s.turn);
    CaptureGridPieces(s.g, s.chosenRow, s.chosenCol, vr, vc, tr, tc, t, s.turn, b);
    ManLandedShape(s, tr, tc, b);
  }

  /** ... and so does its king counter. */
  lemma ManLandedKings(s: State, tr: int, tc: int, b: bool)
    requires CaptureTiles(s.g, s.chosenRow, s.chosenCol, Midpoint(tr, s.chosenRow), Midpoint(tc, s.chosenCol), tr, tc, s.turn)
    requires KingsLeft(s, b) == Count(s.g, Kings(b)) && s.g[s.chosenRow][s.chosenCol] == PawnChosen(s.turn)
    ensures KingsLeft(ManLanded(CapturePrep(s), tr, tc), b) == Count(ManLanded(CapturePrep(s), tr, tc).g, Kings(b))
  {
    var vr, vc := Midpoint(tr, s.chosenRow), Midpoint(tc, s.chosenCol);
    var t := Arrived(s, tr, tc, Promotes(s, tr));
    assert IsPiece(t, s.turn) && IsKing(t, s.turn) == Promotes(s, tr) && !IsKing(s.g[s.chosenRow][s.chosenCol], s.turn);
    ManLandedShape(s, tr, tc, b);
    CaptureGridKings(s.g, s.chosenRow, s.chosenCol, vr, vc, tr, tc, t, s.turn, b);
  }

  /** CaptureWithPawn's landing keeps the invariants. */
  lemma ManLandedWellFormed(s: State, tr: int, tc: int)
    requires WellFormed(s) && LegalManCapture(s, tr, tc)
    ensures WellFormed(ManLanded(CapturePrep(s), tr, tc))
  {
    ManLandedGrid(s, tr, tc);
    ManCaptureSquares(s, tr, tc);
    ManLandedPieces(s, tr, tc, true);
    ManLandedPieces(s, tr, tc, false);
    ManLandedKings(s, tr, tc, true);
    ManLandedKings(s, tr, tc, false);
  }

  /** Whether the streak goes on or ends, a landed man leaves the invariants intact. */
  lemma ManAfterJumpWellFormed(s1: State, tr: int, tc: int, crowned: bool)
    requires WellFormed(s1) && In(s1.n, tr, tc) && s1.g[tr][tc] == (if crowned then Queen(s1.turn) else Pawn(s1.turn))
    ensures WellFormed(ManAfterJump(s1, tr, tc, crowned))
  {
    assert s1.(g := s1.g) == s1;
    if !crowned && CanPawnCapture(s1.g, s1.n, tr, tc, s1.turn) {
      ContinueWellFormed(s1, s1.g, tr, tc, false);
    } else if crowned && CanQueenCapture(s1.g, s1.n, tr, tc, s1.turn) {
      ContinueWellFormed(s1, s1.g, tr, tc, true);
    } else {
      EndWellFormed(s1, s1.g);
    }
  }

  /** A legal man capture keeps the invariants, whether the streak goes on or ends. */
  lemma CaptureWithPawnWellFormed(s: State, tr: int, tc: int)
    requires WellFormed(s) && LegalManCapture(s, tr, tc)
    ensures CaptureDefined(s, tr, tc) && WellFormed(Capture(s, tr, tc))
  {
    assert ManChosen(s);
    var s1 := ManLanded(CapturePrep(s), tr, tc);
    ManLandedWellFormed(s, tr, tc);
    ManLandedGrid(s, tr, tc);
    ManAfterJumpWellFormed(s1, tr, tc, Promotes(s, tr));
    assert Capture(s, tr, tc) == ManAfterJump(s1, tr, tc, Promotes(s, tr));
  }

  /** A piece seen through Capture's preparation was already there before it. */
  lemma PrepRevealsPrey(g: Grid, cr: int, cc: int, vr: int, vc: int, turn: bool)
    requires 0 <= cr < |g| && 0 <= cc < |g[cr]| && 0 <= vr < |g| && 0 <= vc < |g[vr]|
    requires Prey(MarksOff(Set(g, cr, cc, Black))[vr][vc], turn)
    ensures g[vr][vc] == MarksOff(Set(g, cr, cc, Black))[vr][vc] && (vr != cr || vc != cc)
  {
    var g1 := Set(g, cr, cc, Black);
    assert At(g1, vr, vc) == g1[vr][vc];
  }

  /** The squares of a legal king capture: the king, its victim and the empty landing. */
  lemma KingCaptureSquares(s: State, tr: int, tc: int)
    requires WellFormed(s) && LegalKingCapture(s, tr, tc)
    ensures var v := KingVictim(CapturePrep(s), tr, tc);
      CaptureSquaresOk(s.g, s.n, s.chosenRow, s.chosenCol, v.0, v.1, tr, tc, s.turn) &&
      At(KingLanded(CapturePrep(s), tr, tc), v.0, v.1) == s.g[v.0][v.1]
  {
    var p := CapturePrep(s);
    var v := KingVictim(p, tr, tc);
    var g1 := KingLanded(p, tr, tc);
    assert At(g1, v.0, v.1) == p.g[v.0][v.1] by {
      assert At(g1, tr, tc) == Queen(s.turn);
    }
    PrepRevealsPrey(s.g, s.chosenRow, s.chosenCol, v.0, v.1, s.turn);
  }

  /** CaptureWithQueen's landing, seen as a grid change of the position before Capture. */
  lemma KingLandedShape(s: State, tr: int, tc: int, b: bool)
    requires WellFormed(s) == true && LegalKingCapture(s, tr, tc)
    ensures var v := KingVictim(CapturePrep(s), tr, tc);
      var s1 := KingLandedState(CapturePrep(s), tr, tc);
      s1.g == CaptureGrid(s.g, s.chosenRow, s.chosenCol, v.0, v.1, tr, tc, Queen(s.turn), s.turn) &&
      KingsLeft(s1, b) == KingsAfter(s, b, s.g[v.0][v.1], false) &&
      PiecesLeft(s1, b) == PiecesLeft(s, b) - (if b != s.turn then 1 else 0)
  {
    var p := CapturePrep(s);
    var v := KingVictim(p, tr, tc);
    KingCaptureSquares(s, tr, tc);
    KingLandedGridIs(s, tr, tc, v.0, v.1);
    KingLandedCounter(p, tr, tc, b, s.g[v.0][v.1]);
    assert KingsAfter(p, b, s.g[v.0][v.1], false) == KingsAfter(s, b, s.g[v.0][v.1], false);
  }

  /** CaptureWithQueen's landing grid is the capture grid of its victim (vr, vc). */
  lemma KingLandedGridIs(s: State, tr: int, tc: int, vr: int, vc: int)
    requires KingVictimExists(CapturePrep(s), tr, tc) && (vr, vc) == KingVictim(CapturePrep(s), tr, tc)
    requires CaptureSquaresOk(s.g, s.n, s.chosenRow, s.chosenCol, vr, vc, tr, tc, s.turn)
    ensures KingLandedState(CapturePrep(s), tr, tc).g == CaptureGrid(s.g, s.chosenRow, s.chosenCol, vr, vc, tr, tc, Queen(s.turn), s.turn)
  {
    var pg := MarksOff(Set(s.g, s.chosenRow, s.chosenCol, Black));
    PrepGrid(s.g, s.n, s.chosenRow, s.chosenCol, s.turn);
    SetCommutes(pg, tr, tc, Queen(s.turn), vr, vc, Dead(!s.turn));
  }

  /** The king counter after CaptureWithQueen's landing, given the victim's tile x. */
  lemma KingLandedCounter(p: State, tr: int, tc: int, b: bool, x: Tile)
    requires KingVictimExists(p, tr, tc)
    requires At(KingLanded(p, tr, tc), KingVictim(p, tr, tc).0, KingVictim(p, tr, tc).1) == x
    ensures KingsLeft(KingLandedState(p, tr, tc), b) == KingsAfter(p, b, x, false)
  {
  }

  /** CaptureWithQueen's landing keeps the grid well formed and puts the king on (tr, tc). */
  lemma KingLandedGrid(s: State, tr: int, tc: int)
    requires WellFormed(s) && LegalKingCapture(s, tr, tc)
    ensures var s1 := KingLandedState(CapturePrep(s), tr, tc);
      GridOk(s1.g, s.n) && s1.g[tr][tc] == Queen(s.turn)
  {
    var v := KingVictim(CapturePrep(s), tr, tc);
    assert IsPiece(Queen(s.turn), s.turn) && !IsMan(Queen(s.turn), false) && !IsMan(Queen(s.turn), true);
    KingCaptureSquares(s, tr, tc);
    CaptureGridOk(s.g, s.n, s.chosenRow, s.chosenCol, v.0, v.1, tr, tc, Queen(s.turn), s.turn);
    KingLandedShape(s, tr, tc, s.turn);
  }

  /** ... and keeps the invariants. */
  lemma KingLandedWellFormed(s: State, tr: int, tc: int)
    requires WellFormed(s) && LegalKingCapture(s, tr, tc)
    ensures var s1 := KingLandedState(CapturePrep(s), tr, tc);
      WellFormed(s1) && s1.g[tr][tc] == Queen(s.turn)
  {
    var s1 := KingLandedState(CapturePrep(s), tr, tc);
    KingLandedGrid(s, tr, tc);
    KingLandedCounters(s, tr, tc, true);
    KingLandedCounters(s, tr, tc, false);
    SidesMatch(s1);
  }

  /** ... with the counters of side b still counting that side. */
  lemma KingLandedCounters(s: State, tr: int, tc: int, b: bool)
    requires WellFormed(s) && LegalKingCapture(s, tr, tc)
    ensures SideMatches(KingLandedState(CapturePrep(s), tr, tc), b)
  {
    var v := KingVictim(CapturePrep(s), tr, tc);
    var s1 := KingLandedState(CapturePrep(s), tr, tc);
    KingCaptureSquares(s, tr, tc);
    assert IsKing(s.g[s.chosenRow][s.chosenCol], s.turn) && IsPiece(Queen(s.turn), s.turn);
    var dv := if b != s.turn && s.g[v.0][v.1] == Queen(b) then 1 else 0;
    KingLandedShape(s, tr, tc, b);
    assert KingsLeft(s1, b) == KingsLeft(s, b) - dv;
    CaptureGridPieces(s.g, s.chosenRow, s.chosenCol, v.0, v.1, tr, tc, Queen(s.turn), s.turn, b);
    CaptureGridKings(s.g, s.chosenRow, s.chosenCol, v.0, v.1, tr, tc, Queen(s.turn), s.turn, b);
    assert Count(s1.g, Kings(b)) == Count(s.g, Kings(b)) - dv;
  }

  /** Whether the streak goes on or ends, a landed king leaves the invariants intact. */
  lemma KingAfterJumpWellFormed(s1: State, tr: int, tc: int)
    requires WellFormed(s1) && In(s1.n, tr, tc) && s1.g[tr][tc] == Queen(s1.turn)
    ensures WellFormed(KingAfterJump(s1, tr, tc))
  {
    if CanQueenCapture(s1.g, s1.n, tr, tc, s1.turn) {
      MarksOffCounts(s1.g, s1.n);
      MarksOffClears(s1.g, s1.n);
      ContinueWellFormed(s1, MarksOff(s1.g), tr, tc, true);
    } else {
      assert s1.(g := s1.g) == s1;
      EndWellFormed(s1, s1.g);
    }
  }

  /** A legal king capture keeps the invariants, whether the streak goes on or ends. */
  lemma CaptureWithQueenWellFormed(s: State, tr: int, tc: int)
    requires WellFormed(s) && LegalKingCapture(s, tr, tc)
    ensures CaptureDefined(s, tr, tc) && WellFormed(Capture(s, tr, tc))
  {
    assert !ManChosen(s);
    var s1 := KingLandedState(CapturePrep(s), tr, tc);
    KingLandedWellFormed(s, tr, tc);
    KingAfterJumpWellFormed(s1, tr, tc);
    assert Capture(s, tr, tc) == KingAfterJump(s1, tr, tc);
  }
}
