/**
 * The Damka frame's rules engine, run in place: the board is an array of
 * tiles that the methods recolour square by square, and the counters and
 * flags are fields. A ghost copy of the board as a value is kept in step with
 * the array, and every method is proved to compute the function of the
 * Engine module that specifies it.
 */
module Board {
  import opened Tiles
  import opened Grids
  import opened Rules
  import opened Marks
  import opened Engine

  class Damka {
    /** LENGTH and PAWN_ROWS. */
    const n: int
    const pawnRows: int
    /** The tiles of the board, indexed [row, col]. */
    const tiles: array2<Tile>
    /** The board as a value. */
    ghost var cells: Grid

    var whiteLeft: int
    var blackLeft: int
    var whiteQueens: int
    var blackQueens: int
    var chosenRow: int
    var chosenCol: int
    var mwp: int
    var isPawnChosen: bool
    var isForced: bool
    var isOnStreak: bool
    var turn: bool
    var isComputer: bool
    var isComputerPlaying: bool
    var outcome: Outcome

    /** The array is n by n and holds the tiles of `cells`. */
    ghost predicate Valid()
      reads this`cells, tiles
    {
      tiles.Length0 == n && tiles.Length1 == n && IsSquare(cells, n) &&
      forall i, j :: 0 <= i < n && 0 <= j < n ==> tiles[i, j] == cells[i][j]
    }

    /** The fields as a value of the Engine module. */
    ghost function Abs(): State
      reads this
    {
      State(n, pawnRows, cells, whiteLeft, blackLeft, whiteQueens, blackQueens,
            chosenRow, chosenCol, mwp, isPawnChosen, isForced, isOnStreak, turn,
            isComputer, isComputerPlaying, outcome)
    }

    /**
     * The constructor: a LENGTH by LENGTH board of new (WHITE) tiles, both
     * piece counters at LENGTH*PAWN_ROWS/2 and white to move. Main chooses
     * LENGTH in 4..12 and PAWN_ROWS below (LENGTH+1)/2, and says whether the
     * computer plays.
     */
    constructor(length: int, rows: int, computer: bool)
      requires 4 <= length <= 12 && 1 <= rows < (length + 1) / 2
      ensures Valid() && Abs() == Initial(length, rows, computer).(g := Blank(length))
    {
      n := length;
      pawnRows := rows;
      tiles := new Tile[length, length]((i, j) => White);
      cells := Blank(length);
      whiteLeft := length * rows / 2;
      blackLeft := length * rows / 2;
      whiteQueens, blackQueens := 0, 0;
      chosenRow, chosenCol := 0, 0;
      mwp := 0;
      isPawnChosen, isForced, isOnStreak, turn := false, false, false, false;
      isComputer, isComputerPlaying := computer, false;
      outcome := Playing;
    }

    /**
     * start: lays out the men; over the state the constructor leaves, the
     * game opens in a well formed position.
     */
    method Start()
      requires Valid() && 0 <= pawnRows <= n
      modifies this`cells, tiles
      ensures Valid() && cells == StartGrid(n, pawnRows)
      ensures (4 <= n <= 12 && 1 <= pawnRows < (n + 1) / 2 &&
               old(Abs()) == Initial(n, pawnRows, isComputer).(g := old(cells))) ==> WellFormed(Abs())
    {
      ghost var a := Abs();
      LayOut();
      StartedWellFormed(a);
      assert Abs() == a.(g := cells);
    }

    /** start's four loops: the light squares, then the white men, the black men and the empty rows between them. */
    method LayOut()
      requires Valid() && 0 <= pawnRows <= n
      modifies this`cells, tiles
      ensures Valid() && cells == StartGrid(n, pawnRows)
    {
      ghost var g := cells;
      FillRows(0, n, false, White);
      FillRows(n - pawnRows, n, true, WhitePawn);
      FillRows(0, pawnRows, true, BlackPawn);
      FillRows(pawnRows, n - pawnRows, true, Black);
      StartPainted(g, n, pawnRows);
    }

    /** One of start's loops: tile t on the squares of rows lo..hi-1 whose playability is `playable`. */
    method FillRows(lo: int, hi: int, playable: bool, t: Tile)
      requires Valid() && 0 <= lo && hi <= n
      modifies this`cells, tiles
      ensures Valid() && cells == Paint(old(cells), lo, hi, playable, t)
    {
      PaintNone(cells, lo, lo, playable, t);
      var i := lo;
      while i < hi
        invariant Valid() && lo <= i && (i <= hi || i == lo)
        invariant cells == Paint(old(cells), lo, i, playable, t)
      {
        FillRow(i, playable, t);
        PaintRowStep(old(cells), lo, i, playable, t, n);
        i := i + 1;
      }
      if hi < lo {
        PaintNone(old(cells), lo, hi, playable, t);
      }
    }

    /** The inner loop of start's loops: every second square of row i, from the first of the right playability. */
    method FillRow(i: int, playable: bool, t: Tile)
      requires Valid() && 0 <= i < n
      modifies this`cells, tiles
      ensures Valid() && cells == Paint(old(cells), i, i + 1, playable, t)
    {
      var j := if playable then 1 - i % 2 else i % 2;
      while j < n
        invariant Valid() && 0 <= j && Playable(i, j) == playable
        invariant forall r, c :: 0 <= r < n && 0 <= c < n ==>
                    cells[r][c] == if r == i && c < j && Playable(r, c) == playable then t else old(cells)[r][c]
        decreases n - j
      {
        ghost var g := cells;
        SetColor(i, j, t);
        forall r, c | 0 <= r < n && 0 <= c < n
          ensures cells[r][c] == if r == i && c < j + 2 && Playable(r, c) == playable then t else old(cells)[r][c]
        {
          assert At(cells, r, c) == cells[r][c] && At(g, r, c) == g[r][c];
        }
        j := j + 2;
      }
      SameGrid(cells, Paint(old(cells), i, i + 1, playable, t), n);
    }

    /** DamkaPawn.setColor: one square changes colour. */
    method SetColor(r: int, c: int, t: Tile)
      requires Valid() && In(n, r, c)
      modifies this`cells, tiles
      ensures Valid() && cells == Set(old(cells), r, c, t)
      ensures Abs() == old(Abs()).(g := cells)
    {
      tiles[r, c] := t;
      cells := Set(cells, r, c, t);
    }

    // -------------------------------------------------------------------------
    // The capture tests

    /** canPawnCapture, with the prey of side !mover. */
    method CanPawnCapture(row: int, col: int, mover: bool) returns (b: bool)
      requires Valid() && In(n, row, col)
      ensures b == Rules.CanPawnCapture(cells, n, row, col, mover)
    {
      if col >= 2 && row >= 2 && tiles[row - 2, col - 2] == Black && Prey(tiles[row - 1, col - 1], mover) {
        return true;
      }
      if col >= 2 && row <= n - 3 && tiles[row + 2, col - 2] == Black && Prey(tiles[row + 1, col - 1], mover) {
        return true;
      }
      if col <= n - 3 && row >= 2 && tiles[row - 2, col + 2] == Black && Prey(tiles[row - 1, col + 1], mover) {
        return true;
      }
      if col <= n - 3 && row <= n - 3 {
        return tiles[row + 2, col + 2] == Black && Prey(tiles[row + 1, col + 1], mover);
      }
      return false;
    }

    /** canQueenCapture: the four diagonals in the order of QUEEN_DIRS. */
    method CanQueenCapture(row: int, col: int, mover: bool) returns (b: bool)
      requires Valid() && In(n, row, col)
      ensures b == Rules.CanQueenCapture(cells, n, row, col, mover)
    {
      b := false;
      var i := 0;
      while i < 4
        invariant 0 <= i <= 4
        invariant Rules.CanQueenCapture(cells, n, row, col, mover) == QueenDirsFrom(cells, n, row, col, i, mover)
      {
        b := LookAlong(row, col, i, mover);
        if b {
          return;
        }
        i := i + 1;
      }
    }

    /** One pass of canQueenCapture's direction loop: skip empty squares, then test prey and landing. */
    method LookAlong(row: int, col: int, i: int, mover: bool) returns (b: bool)
      requires Valid() && In(n, row, col)
      ensures b == QueenDir(cells, n, row, col, i, mover)
    {
      var dr, dc := DirRow(i), DirCol(i);
      var r, c := row + dr, col + dc;
      if r == -1 || r == n || c == -1 || c == n {
        return false;
      }
      var t := tiles[r, c];
      ghost var k := 1;
      while t == Black || t == Red
        invariant 1 <= k < n && r == Step(row, dr, k) && c == Step(col, dc, k) && In(n, r, c)
        invariant t == cells[r][c]
        invariant QueenDir(cells, n, row, col, i, mover) == RayCapture(cells, n, row, col, dr, dc, k, mover)
        decreases n - k
      {
        r, c, k := r + dr, c + dc, k + 1;
        if r == -1 || r == n || c == -1 || c == n {
          return false;
        }
        t := tiles[r, c];
      }
      if !Prey(t, mover) {
        return false;
      }
      r, c := r + dr, c + dc;
      b := r != -1 && r != n && c != -1 && c != n && tiles[r, c] == Black;
    }

    /** DoesCaptureExist: some plain piece of the side to move passes its capture test. */
    method DoesCaptureExist() returns (b: bool)
      requires Valid()
      ensures b == CaptureExists(cells, n, turn)
    {
      var i := 0;
      while i < n
        invariant 0 <= i <= n && NoCaptureBefore(cells, n, i, 0, turn)
      {
        var j := 1 - i % 2;
        NoCaptureRow(cells, n, i, j, turn);
        while j < n
          invariant 0 <= j <= n + 1 && (i + j) % 2 == 1 && NoCaptureBefore(cells, n, i, j, turn)
        {
          if tiles[i, j] == Pawn(turn) {
            b := CanPawnCapture(i, j, turn);
            if b {
              assert Playable(i, j) && PieceCaptures(cells, n, i, j, turn);
              return;
            }
          } else if tiles[i, j] == Queen(turn) {
            b := CanQueenCapture(i, j, turn);
            if b {
              assert Playable(i, j) && PieceCaptures(cells, n, i, j, turn);
              return;
            }
          }
          NoCaptureStep(cells, n, i, j, turn);
          j := j + 2;
        }
        NoCaptureRow(cells, n, i, j, turn);
        i := i + 1;
      }
      NoCaptureAll(cells, n, turn);
      return false;
    }

    /** canPlay for the side to move: some man has an empty forward neighbour or some king an empty neighbour. */
    method CanPlay() returns (b: bool)
      requires Valid() && NoManOnCrownRow(cells, n)
      ensures b == Rules.CanPlay(cells, n, turn)
    {
      var i := 0;
      while i < n
        invariant 0 <= i <= n && NoMoveBefore(cells, n, i, 0, turn)
      {
        var j := 1 - i % 2;
        NoMoveRow(cells, n, i, j, turn);
        while j < n
          invariant 0 <= j <= n + 1 && (i + j) % 2 == 1 && NoMoveBefore(cells, n, i, j, turn)
        {
          b := SquareCanMove(i, j);
          if b {
            assert Playable(i, j) && PieceCanMove(cells, n, i, j, turn);
            return;
          }
          NoMoveStep(cells, n, i, j, turn);
          j := j + 2;
        }
        NoMoveRow(cells, n, i, j, turn);
        i := i + 1;
      }
      NoMoveAll(cells, n, turn);
      return false;
    }

    /** The body of canPlay's scan for one square: a man looks forward, a king all around. */
    method SquareCanMove(i: int, j: int) returns (b: bool)
      requires Valid() && NoManOnCrownRow(cells, n) && In(n, i, j)
      ensures b == PieceCanMove(cells, n, i, j, turn)
    {
      var direction := if turn then 1 else -1;
      if tiles[i, j] == Pawn(turn) {
        ForwardStaysOnBoard(cells, n, i, j, turn);
        return (j > 0 && tiles[i + direction, j - 1] == Black) ||
               (j < n - 1 && tiles[i + direction, j + 1] == Black);
      } else if tiles[i, j] == Queen(turn) {
        var q := 0;
        while q < 4
          invariant 0 <= q <= 4
          invariant forall p :: 0 <= p < q ==> !FreeNeighbour(cells, n, i, j, p)
        {
          var r, c := i + DirRow(q), j + DirCol(q);
          if 0 <= r <= n - 1 && 0 <= c <= n - 1 && tiles[r, c] == Black {
            assert FreeNeighbour(cells, n, i, j, q);
            return true;
          }
          q := q + 1;
        }
      }
      return false;
    }

    // -------------------------------------------------------------------------
    // Whole-board recolourings

    /** turnRedSquaresOff: every Red square becomes Black. */
    method TurnRedSquaresOff()
      requires Valid()
      modifies this`cells, tiles
      ensures Valid() && cells == MarksOff(old(cells))
    {
      var i := 0;
      while i < n
        modifies tiles
        invariant 0 <= i <= n
        invariant forall a, b :: 0 <= a < n && 0 <= b < n ==>
          tiles[a, b] == (if a < i && Playable(a, b) && cells[a][b] == Red then Black else cells[a][b])
      {
        var j := 1 - i % 2;
        while j < n
          modifies tiles
          invariant 0 <= j <= n + 1 && (i + j) % 2 == 1
          invariant forall a, b :: 0 <= a < n && 0 <= b < n ==>
            tiles[a, b] == (if (a < i || (a == i && b < j)) && Playable(a, b) && cells[a][b] == Red then Black else cells[a][b])
        {
          if tiles[i, j] == Red {
            tiles[i, j] := Black;
          }
          j := j + 2;
        }
        i := i + 1;
      }
      cells := MarksOff(cells);
    }

    /**
     * turnPawnOff, and turnQueenOff when the chosen square holds a chosen
     * king: the piece is put down unchosen for the side to move, the marks
     * are cleared and no piece is chosen.
     */
    method TurnPawnOff()
      requires Valid() && In(n, chosenRow, chosenCol)
      modifies this`cells, tiles, this`isPawnChosen
      ensures Valid() && Abs() == PawnOff(old(Abs()))
    {
      var c := tiles[chosenRow, chosenCol];
      assert c == At(cells, chosenRow, chosenCol);
      if c == BlackQueenChosen || c == WhiteQueenChosen {
        SetColor(chosenRow, chosenCol, Queen(turn));
      } else {
        SetColor(chosenRow, chosenCol, Pawn(turn));
      }
      TurnRedSquaresOff();
      isPawnChosen := false;
    }

    /** removeDeadTiles: every Dead square becomes Black. */
    method RemoveDeadTiles()
      requires Valid()
      modifies this`cells, tiles
      ensures Valid() && cells == RemoveDead(old(cells))
    {
      ghost var g := cells;
      var i := 0;
      while i < n
        modifies tiles
        invariant 0 <= i <= n && tiles.Length0 == n && tiles.Length1 == n && IsSquare(g, n)
        invariant ClearedTo(g, i, 0)
      {
        ClearDeadRow(i, g);
        i := i + 1;
      }
      cells := RemoveDead(cells);
    }

    /** The squares before (i, j) in the scan of removeDeadTiles are cleared of Dead tiles, the rest are as in g. */
    ghost predicate ClearedTo(g: Grid, i: int, j: int)
      requires tiles.Length0 == n && tiles.Length1 == n && IsSquare(g, n)
      reads tiles
    {
      forall a, b :: 0 <= a < n && 0 <= b < n ==> tiles[a, b] == ClearedTile(g, i, j, a, b)
    }

    /** One row of removeDeadTiles's scan. */
    method ClearDeadRow(i: int, ghost g: Grid)
      requires tiles.Length0 == n && tiles.Length1 == n && IsSquare(g, n) && 0 <= i < n
      requires ClearedTo(g, i, 0)
      modifies tiles
      ensures ClearedTo(g, i + 1, 0)
    {
      var j := 1 - i % 2;
      while j < n
        modifies tiles
        invariant 0 <= j <= n + 1 && (i + j) % 2 == 1
        invariant ClearedTo(g, i, j)
      {
        if tiles[i, j] == DeadWhite || tiles[i, j] == DeadBlack {
          tiles[i, j] := Black;
        }
        j := j + 2;
      }
    }

    // -------------------------------------------------------------------------
    // turnRedPawnSquaresOn

    /**
     * turnRedPawnSquaresOn for the chosen man. The quiet marks look one row
     * forward, which the program can only do from a row that has one.
     */
    method TurnRedPawnSquaresOn()
      requires Valid() && In(n, chosenRow, chosenCol)
      requires !isForced ==> 0 <= chosenRow + Forward(turn) < n
      modifies this`cells, tiles
      ensures Valid() && cells == PawnMarks(old(cells), n, chosenRow, chosenCol, isForced, turn)
    {
      if !isForced {
        MarkQuietAt(-1);
        MarkQuietAt(1);
      } else {
        ghost var g := cells;
        var mover := tiles[chosenRow, chosenCol] == BlackPawnChosen;
        assert mover == PawnMarkMover(g, chosenRow, chosenCol);
        MarkJumpAt(-1, -1, mover);
        MarkJumpAt(1, -1, mover);
        MarkJumpAt(-1, 1, mover);
        MarkJumpAt(1, 1, mover);
      }
    }

    /**
     * One of the two quiet checks of turnRedPawnSquaresOn: the forward
     * neighbour on side dc, when the man is not on that edge, turns Red if it
     * is empty.
     */
    method MarkQuietAt(dc: int)
      requires Valid() && In(n, chosenRow, chosenCol) && 0 <= chosenRow + Forward(turn) < n && Unit(dc)
      modifies this`cells, tiles
      ensures Valid()
      ensures cells == (
        var r, c := chosenRow + Forward(turn), chosenCol + dc;
        if chosenCol != (if dc < 0 then 0 else n - 1) && At(old(cells), r, c) == Black
        then Set(old(cells), r, c, Red) else old(cells))
    {
      var r := chosenRow + (if turn then 1 else -1);
      var c := chosenCol + dc;
      var edge := if dc < 0 then 0 else n - 1;
      ghost var g := cells;
      if chosenCol != edge && tiles[r, c] == Black {
        assert At(g, r, c) == Black;
        SetColor(r, c, Red);
      } else {
        assert !(chosenCol != edge && At(g, r, c) == Black);
      }
    }

    /** One of the four jump checks of a forced man. */
    method MarkJumpAt(dr: int, dc: int, mover: bool)
      requires Valid() && In(n, chosenRow, chosenCol) && Unit(dr) && Unit(dc)
      modifies this`cells, tiles
      ensures Valid() && cells == MarkJump(old(cells), n, chosenRow, chosenCol, dr, dc, mover)
    {
      var r, c := chosenRow, chosenCol;
      ghost var g := cells;
      ghost var h := MarkJump(g, n, r, c, dr, dc, mover);
      var lands := JumpFits(n, c, dc) && JumpFits(n, r, dr) &&
         tiles[r + 2 * dr, c + 2 * dc] == Black && Prey(tiles[r + dr, c + dc], mover);
      assert lands == JumpLands(g, n, r, c, dr, dc, mover);
      if lands {
        assert h == Set(g, r + 2 * dr, c + 2 * dc, Red);
        SetColor(r + 2 * dr, c + 2 * dc, Red);
        assert cells == h;
      } else {
        assert h == g;
      }
    }

    // -------------------------------------------------------------------------
    // turnRedQueenSquaresOn

    /**
     * turnRedQueenSquaresOn for the chosen king, direction by direction in the
     * order of QUEEN_DIRS. The program's backward pruning stops at the first
     * square that is not Red; the chosen square not being Red is what keeps
     * it on the board.
     */
    method TurnRedQueenSquaresOn()
      requires Valid() && In(n, chosenRow, chosenCol) && cells[chosenRow][chosenCol] != Red
      modifies this`cells, tiles
      ensures Valid() && cells == QueenMarks(old(cells), n, chosenRow, chosenCol, isForced, turn)
    {
      var row, col, forced, mover := chosenRow, chosenCol, isForced, turn;
      ghost var g0 := cells;
      ghost var g1 := DirMarks(g0, n, row, col, 0, forced, mover);
      ghost var g2 := DirMarks(g1, n, row, col, 1, forced, mover);
      ghost var g3 := DirMarks(g2, n, row, col, 2, forced, mover);
      ghost var gs := [g0, g1, g2, g3, DirMarks(g3, n, row, col, 3, forced, mover)];
      var i := 0;
      while i < 4
        invariant 0 <= i <= 4 && Valid() && cells == gs[i] && cells[row][col] == g0[row][col]
      {
        MarkDirection(row, col, i, forced, mover);
        i := i + 1;
      }
    }

    /** One iteration of the direction loop of turnRedQueenSquaresOn, for the king on (row, col). */
    method MarkDirection(row: int, col: int, i: int, forced: bool, mover: bool)
      requires Valid() && In(n, row, col) && cells[row][col] != Red
      modifies this`cells, tiles
      ensures Valid() && cells == DirMarks(old(cells), n, row, col, i, forced, mover)
      ensures cells[row][col] == old(cells[row][col])
    {
      var dr, dc := DirRow(i), DirCol(i);
      var r, c := row + dr, col + dc;
      if r == -1 || r == n || c == -1 || c == n {
        return;
      }
      ghost var g := cells;
      var t := tiles[r, c];
      var enemyFound, er, ec, enemyColor := false, 0, 0, Black;
      ghost var k := 1;
      assert r == Step(row, dr, 1) && c == Step(col, dc, 1);
      if Prey(t, mover) && forced {
        enemyFound, er, ec, enemyColor := true, r, c, t;
        r, c := r + dr, c + dc;
        k := 2;
        if r == -1 || r == n || c == -1 || c == n {
          return;
        }
      }
      ghost var w := StartWalker(g, row, col, dr, dc, forced, mover);
      assert Walker(g, r, c, enemyFound, er, ec, false) == w;
      ghost var e := Walk(w, n, dr, dc, forced, mover);
      var doubleFound;
      r, c, enemyFound, er, ec, enemyColor, doubleFound, k :=
        WalkRay(row, col, forced, mover, dr, dc, r, c, enemyFound, er, ec, enemyColor, k);
      assert Walker(cells, r, c, enemyFound, er, ec, doubleFound) == e;
      if doubleFound {
        PruneRay(row, col, mover, dr, dc, r, c, er, ec, enemyColor, k);
      }
    }

    /**
     * The `while (true)` loop of turnRedQueenSquaresOn along (dr, dc), entered
     * k squares from the king on (row, col), with the enemy already met, if any.
     */
    method WalkRay(row: int, col: int, forced: bool, mover: bool, dr: int, dc: int,
                   r0: int, c0: int, ef0: bool, er0: int, ec0: int, color0: Tile, ghost k0: int)
      returns (r: int, c: int, ef: bool, er: int, ec: int, enemyColor: Tile, df: bool, ghost k: int)
      requires Valid() && In(n, row, col) && Unit(dr) && Unit(dc)
      requires k0 >= 1 && r0 == Step(row, dr, k0) && c0 == Step(col, dc, k0) && In(n, r0, c0)
      requires ef0 ==> In(n, er0, ec0) && er0 != row && cells[er0][ec0] == color0 && Prey(color0, mover)
      modifies this`cells, tiles
      ensures Valid()
      ensures Walker(cells, r, c, ef, er, ec, df) ==
              Walk(Walker(old(cells), r0, c0, ef0, er0, ec0, false), n, dr, dc, forced, mover)
      ensures k >= 1 && r == Step(row, dr, k) && c == Step(col, dc, k)
      ensures In(n, r, c) || In(n, r - dr, c - dc)
      ensures df ==> ef && In(n, er, ec) && er != row && cells[er][ec] == enemyColor
      ensures cells[row][col] == old(cells[row][col])
    {
      r, c, ef, er, ec, enemyColor, df := r0, c0, ef0, er0, ec0, color0, false;
      k := k0;
      ghost var e := Walk(Walker(cells, r, c, ef, er, ec, df), n, dr, dc, forced, mover);
      while true
        invariant Valid()
        invariant k >= 1 && r == Step(row, dr, k) && c == Step(col, dc, k) && In(n, r, c)
        invariant Walk(Walker(cells, r, c, ef, er, ec, df), n, dr, dc, forced, mover) == e
        invariant ef ==> In(n, er, ec) && er != row && cells[er][ec] == enemyColor && Prey(enemyColor, mover)
        invariant df ==> ef
        invariant cells[row][col] == old(cells[row][col])
        decreases if dr > 0 then n - r else r + 1
      {
        var stop;
        stop, r, c, ef, er, ec, enemyColor, df, k := WalkOnce(row, col, forced, mover, dr, dc, r, c, ef, er, ec, enemyColor, df, k);
        if stop {
          return;
        }
      }
    }

    /**
     * One pass of the walk loop from (r, c): the two breaks at its head, the
     * marking step and the advance. `stop` says the walk has ended, and then
     * (r1, c1) is where it ended.
     */
    method WalkOnce(row: int, col: int, forced: bool, mover: bool, dr: int, dc: int,
                    r: int, c: int, ef: bool, er: int, ec: int, enemyColor: Tile, df: bool, ghost k: int)
      returns (stop: bool, r1: int, c1: int, ef1: bool, er1: int, ec1: int, color1: Tile, df1: bool, ghost k1: int)
      requires Valid() && In(n, row, col) && Unit(dr) && Unit(dc)
      requires k >= 1 && r == Step(row, dr, k) && c == Step(col, dc, k) && In(n, r, c)
      requires ef ==> In(n, er, ec) && er != row && cells[er][ec] == enemyColor && Prey(enemyColor, mover)
      requires df ==> ef
      modifies this`cells, tiles
      ensures Valid()
      ensures k1 >= 1 && r1 == Step(row, dr, k1) && c1 == Step(col, dc, k1)
      ensures stop ==> (In(n, r1, c1) || In(n, r1 - dr, c1 - dc)) &&
                       Walker(cells, r1, c1, ef1, er1, ec1, df1) ==
                       Walk(Walker(old(cells), r, c, ef, er, ec, df), n, dr, dc, forced, mover)
      ensures !stop ==> In(n, r1, c1) && (if dr > 0 then r < r1 else r1 < r) &&
                        Walk(Walker(cells, r1, c1, ef1, er1, ec1, df1), n, dr, dc, forced, mover) ==
                        Walk(Walker(old(cells), r, c, ef, er, ec, df), n, dr, dc, forced, mover)
      ensures ef1 ==> In(n, er1, ec1) && er1 != row && cells[er1][ec1] == color1 && Prey(color1, mover)
      ensures df1 ==> ef1
      ensures cells[row][col] == old(cells[row][col])
    {
      ghost var w := Walker(cells, r, c, ef, er, ec, df);
      var t := tiles[r, c];
      if (!forced && t != Black) || (forced && t != Black && ef) {
        assert Stops(w, forced);
        return true, r, c, ef, er, ec, enemyColor, df, k;
      }
      var on;
      r1, c1, ef1, er1, ec1, color1, df1, on, k1 := MarkAndAdvance(row, col, forced, mover, dr, dc, r, c, t, ef, er, ec, enemyColor, df, k);
      assert Walk(w, n, dr, dc, forced, mover) ==
             (var a := Walker(cells, r1, c1, ef1, er1, ec1, df1); if !on then a else Walk(a, n, dr, dc, forced, mover));
      stop := !on;
    }

    /** The marking step on (r, c) followed by the advance to the next square. */
    method MarkAndAdvance(row: int, col: int, forced: bool, mover: bool, dr: int, dc: int,
                          r: int, c: int, t: Tile, ef: bool, er: int, ec: int, enemyColor: Tile, df: bool, ghost k: int)
      returns (r1: int, c1: int, ef1: bool, er1: int, ec1: int, color1: Tile, df1: bool, on: bool, ghost k1: int)
      requires Valid() && In(n, row, col) && Unit(dr) && Unit(dc)
      requires k >= 1 && r == Step(row, dr, k) && c == Step(col, dc, k) && In(n, r, c) && t == cells[r][c]
      requires ef ==> In(n, er, ec) && er != row && cells[er][ec] == enemyColor && Prey(enemyColor, mover)
      requires df ==> ef
      modifies this`cells, tiles
      ensures Valid()
      ensures Walker(cells, r1, c1, ef1, er1, ec1, df1) ==
              Advance(MarkHere(Walker(old(cells), r, c, ef, er, ec, df), n, forced, mover), n, dr, dc, forced, mover)
      ensures on == In(n, r1, c1) && (on || In(n, r1 - dr, c1 - dc)) && (if dr > 0 then r < r1 else r1 < r)
      ensures k1 >= 1 && r1 == Step(row, dr, k1) && c1 == Step(col, dc, k1)
      ensures ef1 ==> In(n, er1, ec1) && er1 != row && cells[er1][ec1] == color1 && Prey(color1, mover)
      ensures df1 ==> ef1
      ensures cells[row][col] == old(cells[row][col])
    {
      df1 := MarkSquare(row, col, forced, mover, r, c, t, ef, er, ec, enemyColor, df);
      r1, c1, ef1, er1, ec1, color1, on, k1 := AdvanceFrom(row, col, forced, mover, dr, dc, r, c, ef, er, ec, enemyColor, df1, k);
    }

    /**
     * The step of the walk to the next square along (dr, dc); forced, a first
     * prey met there is recorded as the enemy and stepped over. `on` says
     * whether the walk is still on the board.
     */
    method AdvanceFrom(row: int, col: int, forced: bool, mover: bool, dr: int, dc: int,
                       r: int, c: int, ef: bool, er: int, ec: int, enemyColor: Tile, ghost df: bool, ghost k: int)
      returns (r1: int, c1: int, ef1: bool, er1: int, ec1: int, color1: Tile, on: bool, ghost k1: int)
      requires Valid() && Unit(dr) && Unit(dc) && In(n, r, c)
      requires k >= 1 && r == Step(row, dr, k) && c == Step(col, dc, k)
      requires ef ==> In(n, er, ec) && er != row && cells[er][ec] == enemyColor && Prey(enemyColor, mover)
      ensures Walker(cells, r1, c1, ef1, er1, ec1, df) == Advance(Walker(cells, r, c, ef, er, ec, df), n, dr, dc, forced, mover)
      ensures on == In(n, r1, c1) && (on || In(n, r1 - dr, c1 - dc))
      ensures if dr > 0 then r < r1 else r1 < r
      ensures k1 >= 1 && r1 == Step(row, dr, k1) && c1 == Step(col, dc, k1)
      ensures ef1 ==> In(n, er1, ec1) && er1 != row && cells[er1][ec1] == color1 && Prey(color1, mover)
    {
      r1, c1, ef1, er1, ec1, color1 := r + dr, c + dc, ef, er, ec, enemyColor;
      k1 := k + 1;
      on := !(r1 == -1 || r1 == n || c1 == -1 || c1 == n);
      if on {
        var t := tiles[r1, c1];
        assert t == At(cells, r1, c1);
        if Prey(t, mover) && !ef && forced {
          ef1, er1, ec1, color1 := true, r1, c1, t;
          r1, c1 := r1 + dr, c1 + dc;
          k1 := k1 + 1;
          on := !(r1 == -1 || r1 == n || c1 == -1 || c1 == n);
        }
      }
    }

    /**
     * The marking step of the walk on (r, c): a Black square is marked when the
     * king is forced and has passed the enemy, or is not forced and has not;
     * forced, the capture test runs first with the enemy lifted.
     */
    method MarkSquare(row: int, col: int, forced: bool, mover: bool,
                      r: int, c: int, t: Tile, ef: bool, er: int, ec: int, enemyColor: Tile, df0: bool)
      returns (df: bool)
      requires Valid() && In(n, r, c) && In(n, row, col) && t == cells[r][c] && r != row
      requires ef ==> In(n, er, ec) && er != row && cells[er][ec] == enemyColor && Prey(enemyColor, mover)
      modifies this`cells, tiles
      ensures Valid()
      ensures Walker(cells, r, c, ef, er, ec, df) == MarkHere(Walker(old(cells), r, c, ef, er, ec, df0), n, forced, mover)
      ensures ef ==> cells[er][ec] == enemyColor
      ensures cells[row][col] == old(cells[row][col])
    {
      df := df0;
      if forced == ef && t == Black {
        if forced && !df {
          ghost var g := cells;
          SetColor(er, ec, Black);
          var b := CanQueenCapture(r, c, mover);
          SetColor(er, ec, enemyColor);
          SetBack(g, er, ec, Black);
          df := b;
        }
        SetColor(r, c, Red);
      }
    }

    /**
     * The pruning after a double was found along (dr, dc): with the enemy
     * lifted, the Red squares back from where the walk stopped that do not
     * lead to a further capture turn Black again; then the enemy is put back.
     */
    method PruneRay(row: int, col: int, mover: bool, dr: int, dc: int,
                    r0: int, c0: int, er: int, ec: int, enemyColor: Tile, ghost k0: int)
      requires Valid() && In(n, row, col) && Unit(dr) && Unit(dc) && cells[row][col] != Red
      requires k0 >= 1 && r0 == Step(row, dr, k0) && c0 == Step(col, dc, k0)
      requires In(n, r0, c0) || In(n, r0 - dr, c0 - dc)
      requires In(n, er, ec) && er != row && cells[er][ec] == enemyColor
      modifies this`cells, tiles
      ensures Valid() && cells == Prune(old(cells), n, r0, c0, dr, dc, er, ec, mover)
      ensures cells[row][col] == old(cells[row][col])
    {
      ghost var g0 := cells;
      SetColor(er, ec, Black);
      ghost var g1 := cells;
      ghost var back := !In(n, r0, c0) || At(g1, r0, c0) != Red;
      var r, c := r0, c0;
      ghost var k := k0;
      if r == -1 || r == n || c == -1 || c == n {
        r, c := r - dr, c - dc;
        k := k - 1;
      } else if tiles[r, c] != Red {
        StepBetween(n, row, col, dr, dc, 0, k - 1, k);
        r, c := r - dr, c - dc;
        k := k - 1;
      }
      assert r == (if back then r0 - dr else r0) && c == (if back then c0 - dc else c0);
      PruneLoop(row, col, mover, dr, dc, r, c, k);
      ghost var h := cells;
      SetColor(er, ec, enemyColor);
      PruneParts(g0, g1, h, cells, n, r0, c0, r, c, dr, dc, er, ec, enemyColor, mover);
    }

    /** The inner pruning loop, walking back from (r0, c0), k0 squares from the king on (row, col). */
    method PruneLoop(row: int, col: int, mover: bool, dr: int, dc: int, r0: int, c0: int, ghost k0: int)
      requires Valid() && In(n, row, col) && Unit(dr) && Unit(dc) && cells[row][col] != Red
      requires In(n, r0, c0) && 0 <= k0 && r0 == Step(row, dr, k0) && c0 == Step(col, dc, k0)
      modifies this`cells, tiles
      ensures Valid() && cells == PruneBack(old(cells), n, r0, c0, dr, dc, mover)
      ensures cells[row][col] == old(cells[row][col])
    {
      var r, c := r0, c0;
      ghost var k := k0;
      ghost var h := PruneBack(cells, n, r, c, dr, dc, mover);
      var t := tiles[r, c];
      while t == Red
        invariant Valid() && In(n, r, c) && 0 <= k && r == Step(row, dr, k) && c == Step(col, dc, k)
        invariant t == cells[r][c] && PruneBack(cells, n, r, c, dr, dc, mover) == h
        invariant cells[row][col] == old(cells[row][col])
        decreases k
      {
        ghost var g, rp, cp := cells, r, c;
        assert At(g, rp, cp) == Red;
        var b;
        b, r, c, t, k := PruneOnce(row, col, mover, dr, dc, r, c, k);
        PruneBackStep(g, cells, n, rp, cp, r, c, dr, dc, mover, b);
      }
    }

    /** One pass of the pruning loop from the Red square (r, c), ending one square further back. */
    method PruneOnce(row: int, col: int, mover: bool, dr: int, dc: int, r: int, c: int, ghost k: int)
      returns (b: bool, r1: int, c1: int, t1: Tile, ghost k1: int)
      requires Valid() && In(n, row, col) && Unit(dr) && Unit(dc) && cells[row][col] != Red
      requires In(n, r, c) && 0 <= k && r == Step(row, dr, k) && c == Step(col, dc, k) && cells[r][c] == Red
      modifies this`cells, tiles
      ensures Valid() && In(n, r1, c1) && 0 <= k1 < k && r1 == Step(row, dr, k1) && c1 == Step(col, dc, k1)
      ensures r1 == r - dr && c1 == c - dc && t1 == cells[r1][c1]
      ensures b == Rules.CanQueenCapture(old(cells), n, r, c, mover)
      ensures cells == if b then old(cells) else Set(old(cells), r, c, Black)
      ensures cells[row][col] == old(cells[row][col])
    {
      assert cells[r][c] != cells[row][col];
      assert k != 0;
      b := PruneSquare(r, c, mover);
      StepBetween(n, row, col, dr, dc, 0, k - 1, k);
      r1, c1, k1 := r - dr, c - dc, k - 1;
      t1 := tiles[r1, c1];
    }

    /** The body of the pruning loop: the Red square (r, c) turns Black unless the king could capture from it. */
    method PruneSquare(r: int, c: int, mover: bool) returns (b: bool)
      requires Valid() && In(n, r, c)
      modifies this`cells, tiles
      ensures Valid() && b == Rules.CanQueenCapture(old(cells), n, r, c, mover)
      ensures cells == if b then old(cells) else Set(old(cells), r, c, Black)
    {
      b := CanQueenCapture(r, c, mover);
      if !b {
        SetColor(r, c, Black);
      }
    }

    // -------------------------------------------------------------------------
    // The turn change and the moves

    /** endGame: the announced result is recorded; the dialog and the disabled frame are not modelled. */
    method EndGame(message: Outcome)
      modifies this`outcome
      ensures outcome == message
    {
      outcome := message;
    }

    /**
     * changeTurn: the other side moves and isForced is recomputed; outside a
     * search, a blocked side with few pieces loses. The computer's reply that
     * the program starts here, and the evaluate() call made afterwards when
     * the evaluation box is ticked, are not part of this method.
     */
    method ChangeTurn()
      requires Valid() && NoManOnCrownRow(cells, n)
      modifies this`turn, this`isForced, this`outcome
      ensures Valid() && Abs() == Engine.ChangeTurn(old(Abs()))
    {
      turn := !turn;
      isForced := DoesCaptureExist();
      if !(isComputer && !isComputerPlaying && turn) && !isComputerPlaying {
        if turn && !isForced && blackLeft <= MAX_PAWNS_IN_STALEMATE {
          var can := CanPlay();
          if !can {
            EndGame(WhiteWins);
          }
        } else if !turn && !isForced && whiteLeft <= MAX_PAWNS_IN_STALEMATE {
          var can := CanPlay();
          if !can {
            EndGame(BlackWins);
          }
        }
      }
    }

    /** movePawn: the chosen man moves to the empty square (tr, tc), crowned on its crown row. */
    method MovePawn(tr: int, tc: int) returns (trace: Trace)
      requires Valid() && WellFormed(Abs()) && In(n, tr, tc) && IsVacant(cells[tr][tc])
      requires IsMan(cells[chosenRow][chosenCol], turn)
      modifies this, tiles
      ensures Valid() && Abs() == Engine.MovePawn(old(Abs()), tr, tc) && trace == MovePawnTrace(old(Abs()), tr)
    {
      ghost var s := Abs();
      trace := PlacePawn(tr, tc);
      MovePawnBodyWellFormed(s, tr, tc);
      ChangeTurn();
    }

    /** movePawn up to the turn change. */
    method PlacePawn(tr: int, tc: int) returns (trace: Trace)
      requires Valid() && In(n, tr, tc) && In(n, chosenRow, chosenCol)
      modifies this, tiles
      ensures Valid() && Abs() == MovePawnBody(old(Abs()), tr, tc) && trace == MovePawnTrace(old(Abs()), tr)
    {
      mwp := 0;
      var t, promote := WhitePawn, false;
      if turn {
        if tr != n - 1 {
          t := BlackPawn;
        } else {
          t, promote := BlackQueen, true;
          blackQueens := blackQueens + 1;
        }
      } else {
        if tr != 0 {
          t := WhitePawn;
        } else {
          t, promote := WhiteQueen, true;
          whiteQueens := whiteQueens + 1;
        }
      }
      trace := Trace(None, if promote then Some(true) else None);
      MoveTile(tr, tc, t);
      isPawnChosen := false;
    }

    /** The tile t is put on (tr, tc), the chosen square is emptied and the marks are cleared. */
    method MoveTile(tr: int, tc: int, t: Tile)
      requires Valid() && In(n, tr, tc) && In(n, chosenRow, chosenCol)
      modifies this`cells, tiles
      ensures Valid() && cells == MarksOff(Set(Set(old(cells), tr, tc, t), chosenRow, chosenCol, Black))
    {
      SetColor(tr, tc, t);
      SetColor(chosenRow, chosenCol, Black);
      TurnRedSquaresOff();
    }

    /** moveQueen: the chosen king moves to the empty square (tr, tc); the fifteenth such move in a row is a draw. */
    method MoveQueen(tr: int, tc: int)
      requires Valid() && WellFormed(Abs()) && In(n, tr, tc) && IsVacant(cells[tr][tc])
      requires IsKing(cells[chosenRow][chosenCol], turn)
      modifies this, tiles
      ensures Valid() && Abs() == Engine.MoveQueen(old(Abs()), tr, tc)
    {
      ghost var s := Abs();
      PlaceQueen(tr, tc);
      MovePieceGrid(s.g, s.n, s.chosenRow, s.chosenCol, tr, tc, Queen(s.turn), s.turn);
      ChangeTurn();
    }

    /** moveQueen up to the turn change. */
    method PlaceQueen(tr: int, tc: int)
      requires Valid() && In(n, tr, tc) && In(n, chosenRow, chosenCol)
      modifies this, tiles
      ensures Valid() && Abs() == MoveQueenBody(old(Abs()), tr, tc)
    {
      mwp := mwp + 1;
      if mwp == MOVES_FOR_DRAW && !isComputerPlaying {
        EndGame(Draw);
      }
      if turn {
        MoveTile(tr, tc, BlackQueen);
      } else {
        MoveTile(tr, tc, WhiteQueen);
      }
      isPawnChosen := false;
    }

    /**
     * Capture: the chosen piece captures by moving to (tr, tc). The opponent
     * loses a piece, the chosen square is emptied and the marks cleared, and
     * the man or king capture takes over.
     */
    method Capture(tr: int, tc: int) returns (trace: Trace)
      requires Valid() && WellFormed(Abs()) && (LegalManCapture(Abs(), tr, tc) || LegalKingCapture(Abs(), tr, tc))
      modifies this, tiles
      ensures Valid() && Abs() == Engine.Capture(old(Abs()), tr, tc) && trace == CaptureTrace(old(Abs()), tr, tc)
    {
      ghost var s := Abs();
      var eating := PrepareCapture();
      if eating == WhitePawnChosen || eating == BlackPawnChosen {
        trace := CaptureWithPawn(tr, tc, s);
      } else {
        trace := CaptureWithQueen(tr, tc, s);
      }
    }

    /** Capture up to the hand-over; `eating` is the tile of the chosen square. */
    method PrepareCapture() returns (eating: Tile)
      requires Valid() && In(n, chosenRow, chosenCol)
      modifies this, tiles
      ensures Valid() && Abs() == CapturePrep(old(Abs())) && eating == old(cells)[chosenRow][chosenCol]
    {
      mwp := 0;
      if turn {
        whiteLeft := whiteLeft - 1;
      } else {
        blackLeft := blackLeft - 1;
      }
      eating := tiles[chosenRow, chosenCol];
      SetColor(chosenRow, chosenCol, Black);
      TurnRedSquaresOff();
    }

    /** CaptureWithPawn: the man jumps to (tr, tc) over the victim on the midpoint, which turns Dead. */
    method CaptureWithPawn(tr: int, tc: int, ghost s0: State) returns (trace: Trace)
      requires Valid() && WellFormed(s0) && LegalManCapture(s0, tr, tc) && Abs() == CapturePrep(s0)
      modifies this, tiles
      ensures Valid() && Abs() == Engine.CaptureWithPawn(old(Abs()), tr, tc) && trace == CaptureTrace(s0, tr, tc)
    {
      var wasPremoted;
      trace, wasPremoted := LandMan(tr, tc);
      ManLandedGrid(s0, tr, tc);
      AfterManJump(tr, tc, wasPremoted);
    }

    /** The end of CaptureWithPawn: the streak goes on while the man, or the king it became, can capture again. */
    method AfterManJump(tr: int, tc: int, wasPremoted: bool)
      requires Valid() && GridOk(cells, n) && In(n, tr, tc)
      requires cells[tr][tc] == (if wasPremoted then Queen(turn) else Pawn(turn))
      modifies this, tiles
      ensures Valid() && Abs() == ManAfterJump(old(Abs()), tr, tc, wasPremoted)
    {
      var again := false;
      if !wasPremoted {
        again := CanPawnCapture(tr, tc, turn);
      }
      if again {
        ContinueStreak(tr, tc, false);
      } else {
        if wasPremoted {
          again := CanQueenCapture(tr, tc, turn);
        }
        if again {
          ContinueStreak(tr, tc, true);
        } else {
          EndStreak();
        }
      }
    }

    /** CaptureWithPawn's landing: the victim turns Dead and the man arrives, crowned on its crown row. */
    method LandMan(tr: int, tc: int) returns (trace: Trace, wasPremoted: bool)
      requires Valid() && In(n, tr, tc) && In(n, chosenRow, chosenCol)
      modifies this, tiles
      ensures Valid() && Abs() == ManLanded(old(Abs()), tr, tc) && wasPremoted == Promotes(old(Abs()), tr)
      ensures var vr, vc := Midpoint(tr, old(chosenRow)), Midpoint(tc, old(chosenCol));
              trace == Trace(Some((vr, vc, old(cells)[vr][vc])), Some(wasPremoted))
    {
      ghost var s := Abs();
      var vr, vc := (tr + chosenRow) / 2, (tc + chosenCol) / 2;
      var victim := tiles[vr, vc];
      var t;
      t, wasPremoted := ManArrives(tr, victim);
      Jump(vr, vc, Dead(!turn), tr, tc, t);
      ManLandedParts(s, tr, tc, cells, whiteQueens, blackQueens);
      trace := Trace(Some((vr, vc, victim)), Some(wasPremoted));
    }

    /**
     * The counters of CaptureWithPawn: a king taken leaves the opponent's king
     * counter, and the man reaching row tr is crowned on its crown row.
     */
    method ManArrives(tr: int, victim: Tile) returns (t: Tile, wasPremoted: bool)
      modifies this`whiteQueens, this`blackQueens
      ensures wasPremoted == Promotes(old(Abs()), tr) && t == Arrived(old(Abs()), tr, 0, wasPremoted)
      ensures whiteQueens == KingsAfter(old(Abs()), false, victim, wasPremoted)
      ensures blackQueens == KingsAfter(old(Abs()), true, victim, wasPremoted)
    {
      KingTakes(victim);
      t, wasPremoted := Crown(tr);
    }

    /**
     * The tile a man of the side to move arrives as on row tr: a king on its
     * crown row, which adds to the side's king counter, and a man elsewhere.
     */
    method Crown(tr: int) returns (t: Tile, crowned: bool)
      modifies this`whiteQueens, this`blackQueens
      ensures crowned == (tr == CrownRow(n, turn)) && t == (if crowned then Queen(turn) else Pawn(turn))
      ensures whiteQueens == old(whiteQueens) + (if crowned && !turn then 1 else 0)
      ensures blackQueens == old(blackQueens) + (if crowned && turn then 1 else 0)
    {
      crowned := false;
      if turn {
        if tr != n - 1 {
          t := BlackPawn;
        } else {
          t := BlackQueen;
          crowned := true;
          blackQueens := blackQueens + 1;
        }
      } else {
        if tr != 0 {
          t := WhitePawn;
        } else {
          t := WhiteQueen;
          crowned := true;
          whiteQueens := whiteQueens + 1;
        }
      }
    }

    /** The victim's square turns `dead` and the capturer arrives on (tr, tc) as tile t. */
    method Jump(vr: int, vc: int, dead: Tile, tr: int, tc: int, t: Tile)
      requires Valid() && In(n, vr, vc) && In(n, tr, tc)
      modifies this`cells, tiles
      ensures Valid() && cells == Set(Set(old(cells), vr, vc, dead), tr, tc, t)
    {
      SetColor(vr, vc, dead);
      SetColor(tr, tc, t);

    }

    /**
     * CaptureWithQueen: the king lands on (tr, tc) and the first prey from the
     * chosen square towards it turns Dead.
     */
    method CaptureWithQueen(tr: int, tc: int, ghost s0: State) returns (trace: Trace)
      requires Valid() && WellFormed(s0) && LegalKingCapture(s0, tr, tc) && Abs() == CapturePrep(s0)
      modifies this, tiles
      ensures Valid() && Abs() == Engine.CaptureWithQueen(old(Abs()), tr, tc) && trace == CaptureTrace(s0, tr, tc)
    {
      trace := LandKing(tr, tc);
      KingLandedGrid(s0, tr, tc);
      AfterKingJump(tr, tc);
    }

    /** The end of CaptureWithQueen: the streak goes on while the king can capture again. */
    method AfterKingJump(tr: int, tc: int)
      requires Valid() && GridOk(cells, n) && In(n, tr, tc) && cells[tr][tc] == Queen(turn)
      modifies this, tiles
      ensures Valid() && Abs() == KingAfterJump(old(Abs()), tr, tc)
    {
      var again := CanQueenCapture(tr, tc, turn);
      if again {
        ghost var g := cells;
        TurnRedSquaresOff();
        MarksOffCounts(g, n);
        ContinueStreak(tr, tc, true);
      } else {
        EndStreak();
      }
    }

    /** CaptureWithQueen's landing: the king stands on (tr, tc) and its victim turns Dead. */
    method LandKing(tr: int, tc: int) returns (trace: Trace)
      requires Valid() && KingVictimExists(Abs(), tr, tc) && In(n, tr, tc)
      modifies this, tiles
      ensures Valid() && Abs() == KingLandedState(old(Abs()), tr, tc)
      ensures var (vr, vc) := KingVictim(old(Abs()), tr, tc);
              trace == Trace(Some((vr, vc, KingLanded(old(Abs()), tr, tc)[vr][vc])), None)
    {
      ghost var s := Abs();
      PlaceKing(tr, tc);
      var vr, vc := KingVictimSquare(tr, tc, s);
      var victim := tiles[vr, vc];
      trace := Trace(Some((vr, vc, victim)), None);
      KillVictim(vr, vc, victim, tr, tc, s);
    }

    /** The victim search of CaptureWithQueen, along the direction from the chosen square to (tr, tc). */
    method KingVictimSquare(tr: int, tc: int, ghost s: State) returns (vr: int, vc: int)
      requires Valid() && KingVictimExists(s, tr, tc) && Abs() == s.(g := KingLanded(s, tr, tc))
      ensures (vr, vc) == KingVictim(s, tr, tc)
    {
      var dr, dc := Sign(tr - chosenRow), Sign(tc - chosenCol);
      vr, vc := FindVictim(chosenRow, chosenCol, dr, dc, turn);
    }

    /** The victim of CaptureWithQueen turns Dead and leaves its side's king counter if it was a king. */
    method KillVictim(vr: int, vc: int, victim: Tile, ghost tr: int, ghost tc: int, ghost s: State)
      requires Valid() && KingVictimExists(s, tr, tc) && (vr, vc) == KingVictim(s, tr, tc)
      requires Abs() == s.(g := KingLanded(s, tr, tc)) && victim == cells[vr][vc]
      modifies this, tiles
      ensures Valid() && Abs() == KingLandedState(s, tr, tc)
    {
      KingTakes(victim);
      SetColor(vr, vc, Dead(!turn));
      KingLandedParts(s, tr, tc, vr, vc, cells, whiteQueens, blackQueens);
    }

    /** The king of the side to move arrives on (tr, tc). */
    method PlaceKing(tr: int, tc: int)
      requires Valid() && In(n, tr, tc)
      modifies this`cells, tiles
      ensures Valid() && cells == Set(old(cells), tr, tc, Queen(turn))
    {
      if turn {
        SetColor(tr, tc, BlackQueen);
      } else {
        SetColor(tr, tc, WhiteQueen);
      }
    }

    /** The counters of CaptureWithQueen: a king taken leaves the opponent's king counter. */
    method KingTakes(victim: Tile)
      modifies this`whiteQueens, this`blackQueens
      ensures whiteQueens == KingsAfter(old(Abs()), false, victim, false)
      ensures blackQueens == KingsAfter(old(Abs()), true, victim, false)
    {
      if turn {
        if victim == WhiteQueen {
          whiteQueens := whiteQueens - 1;
        }
      } else {
        if victim == BlackQueen {
          blackQueens := blackQueens - 1;
        }
      }
    }

    /** The victim search of CaptureWithQueen: the first prey from (row, col) along (dr, dc). */
    method FindVictim(row: int, col: int, dr: int, dc: int, mover: bool) returns (vr: int, vc: int)
      requires Valid() && In(n, row, col) && Unit(dr) && Unit(dc) && PreyAhead(cells, n, row, col, dr, dc, mover)
      ensures var d := PreyDistance(cells, n, row, col, dr, dc, 1, mover);
              vr == Step(row, dr, d) && vc == Step(col, dc, d)
    {
      ghost var d := PreyDistance(cells, n, row, col, dr, dc, 1, mover);
      StepBetween(n, row, col, dr, dc, 0, 1, d);
      vr, vc := row + dr, col + dc;
      ghost var k := 1;
      var t := tiles[vr, vc];
      while !Prey(t, mover)
        invariant 1 <= k <= d && vr == Step(row, dr, k) && vc == Step(col, dc, k) && In(n, vr, vc)
        invariant t == cells[vr][vc] && PreyDistance(cells, n, row, col, dr, dc, k, mover) == d
        decreases d - k
      {
        StepBetween(n, row, col, dr, dc, 0, k + 1, d);
        vr, vc, k := vr + dr, vc + dc, k + 1;
        t := tiles[vr, vc];
      }
    }

    /** The streak goes on from (tr, tc): the piece there is chosen again and its landings are marked. */
    method ContinueStreak(tr: int, tc: int, king: bool)
      requires Valid() && NoManOnCrownRow(cells, n) && In(n, tr, tc)
      requires cells[tr][tc] == (if king then Queen(turn) else Pawn(turn))
      modifies this, tiles
      ensures Valid() && Abs() == Engine.ContinueStreak(old(Abs()), old(cells), tr, tc, king)
    {
      ghost var s := Abs();
      if !king {
        ForwardStaysOnBoard(cells, n, tr, tc, turn);
      }
      isOnStreak := true;
      isPawnChosen := true;
      chosenRow, chosenCol := tr, tc;
      ChooseAndMark(king, s);
    }

    /** The piece landed on the chosen square is chosen again and its landings are marked. */
    method ChooseAndMark(king: bool, ghost s: State)
      requires Valid() && In(s.n, chosenRow, chosenCol)
      requires Abs() == s.(isOnStreak := true, isPawnChosen := true, chosenRow := chosenRow, chosenCol := chosenCol)
      requires At(cells, chosenRow, chosenCol) == (if king then Queen(turn) else Pawn(turn))
      requires !king ==> 0 <= chosenRow + Forward(turn) < n
      modifies this`cells, tiles
      ensures Valid() && Abs() == Engine.ContinueStreak(s, s.g, chosenRow, chosenCol, king)
    {
      ghost var g0 := cells;
      if king {
        SetColor(chosenRow, chosenCol, QueenChosen(turn));
        TurnRedQueenSquaresOn();
      } else {
        SetColor(chosenRow, chosenCol, PawnChosen(turn));
        TurnRedPawnSquaresOn();
      }
      ContinueParts(s, chosenRow, chosenCol, king, g0, chosenRow, chosenCol, isForced, turn, cells);
    }

    /** The streak is over: the Dead squares are cleared, the flags dropped and the turn passes. */
    method EndStreak()
      requires Valid() && GridOk(cells, n)
      modifies this, tiles
      ensures Valid() && Abs() == Engine.EndStreak(old(Abs()), old(cells))
    {
      ghost var s := Abs();
      RemoveDeadTiles();
      isOnStreak := false;
      isForced := false;
      isPawnChosen := false;
      EndStreakKeeps(s, s.g);
      ChangeTurn();
    }
  }
}
