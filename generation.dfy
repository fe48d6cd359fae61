/**
 * What generateMoves produces: one move per Red square, in row-major order,
 * and every move it generates is a move the rules allow the side to move.
 */
module Generation {
  import opened Tiles
  import opened Grids
  import opened Rules
  import opened Marks
  import opened Engine
  import opened Search

  /**
   * A move of the piece of side `turn` on (r, c) to (tr, tc) in g: the target
   * is empty; a man steps one square forward, or jumps two squares over a
   * plain enemy piece; a king moves along a diagonal, and when capturing sees
   * a plain enemy piece ahead in that direction.
   */
  predicate Reaches(g: Grid, n: int, r: int, c: int, tr: int, tc: int, capture: bool, turn: bool) {
    In(n, r, c) && In(n, tr, tc) && IsVacant(At(g, tr, tc)) && IsPiece(At(g, r, c), turn) &&
    if IsMan(At(g, r, c), turn) then
      if capture then Abs(tr - r) == 2 && Abs(tc - c) == 2 && Prey(At(g, Midpoint(tr, r), Midpoint(tc, c)), turn)
      else tr == r + Forward(turn) && Abs(tc - c) == 1
    else Diagonal(r, c, tr, tc) && (capture ==> PreyAhead(g, n, r, c, Sign(tr - r), Sign(tc - c), turn))
  }

  /**
   * A move fits the position s: it is a move of the side to move, made from
   * the chosen square during a streak, a capture exactly when the position is
   * forced, recorded with the position's progress counter, and nothing has
   * been written back into it yet.
   */
  predicate Fits(s: State, m: Move) {
    m.turn == s.turn && m.wasOnStreak == s.isOnStreak && m.isCapture == s.isForced && m.mwp == s.mwp &&
    !m.wasPremotion && (s.isOnStreak ==> m.fromRow == s.chosenRow && m.fromCol == s.chosenCol) &&
    Reaches(s.g, s.n, m.fromRow, m.fromCol, m.toRow, m.toCol, m.isCapture, s.turn)
  }

  /** During a streak, every Red square is the landing of a capture by the chosen piece. */
  ghost predicate RedsLegal(s: State) {
    forall i, j :: In(s.n, i, j) && At(s.g, i, j) == Red ==>
      Fits(s, NewMove(s.chosenRow, s.chosenCol, i, j, 0, true, true, s.turn))
  }

  // ---------------------------------------------------------------------------
  // The Red squares, row by row

  /** (a, b) comes strictly before (c, d) in row-major order. */
  predicate Before(a: int, b: int, c: int, d: int) { a < c || (a == c && b < d) }

  /**
   * rs lists exactly the Red playable squares at or after (i, j) in row-major
   * order, each once and in increasing order.
   */
  ghost predicate ListsRedsFrom(g: Grid, n: int, i: int, j: int, rs: seq<(int, int)>) {
    (forall r, c :: (r, c) in rs <==> In(n, r, c) && Playable(r, c) && At(g, r, c) == Red && !Before(r, c, i, j)) &&
    (forall a, b :: 0 <= a < b < |rs| ==> Before(rs[a].0, rs[a].1, rs[b].0, rs[b].1))
  }

  /** The scan from (i, j) lists the Red playable squares from (i, j) on. */
  lemma {:induction false} RedsFromExact(g: Grid, n: int, i: int, j: int)
    requires 0 <= i && 0 <= j && Playable(i, j)
    ensures ListsRedsFrom(g, n, i, j, RedsFrom(g, n, i, j))
    decreases n - i, n - j, 1
  {
    if i >= n {
    } else if j >= n {
      RedsRowEnd(g, n, i, j);
    } else {
      RedsSquare(g, n, i, j);
    }
  }

  /** ... past the end of a row, the scan goes on with the next row. */
  lemma {:induction false} RedsRowEnd(g: Grid, n: int, i: int, j: int)
    requires 0 <= i < n <= j && Playable(i, j)
    ensures ListsRedsFrom(g, n, i, j, RedsFrom(g, n, i, j))
    decreases n - i, n - j, 0
  {
    var j1 := 1 - (i + 1) % 2;
    RedsFromExact(g, n, i + 1, j1);
    assert RedsFrom(g, n, i, j) == RedsFrom(g, n, i + 1, j1);
    forall r, c | In(n, r, c) && Playable(r, c)
      ensures !Before(r, c, i, j) <==> !Before(r, c, i + 1, j1)
    {
      RowEndSame(n, i, j, r, c);
    }
  }

  /** Past the end of row i, the squares still to come are those from the first playable square of row i + 1 on. */
  lemma RowEndSame(n: int, i: int, j: int, r: int, c: int)
    requires 0 <= i < n <= j && In(n, r, c) && Playable(r, c)
    ensures !Before(r, c, i, j) <==> !Before(r, c, i + 1, 1 - (i + 1) % 2)
  {
    if r == i + 1 && (i + 1) % 2 == 0 {
      assert c != 0;
    }
  }

  /** ... on a square of the row, the scan lists it when it is Red, then goes on two columns further. */
  lemma {:induction false} RedsSquare(g: Grid, n: int, i: int, j: int)
    requires 0 <= i < n && 0 <= j < n && Playable(i, j)
    ensures ListsRedsFrom(g, n, i, j, RedsFrom(g, n, i, j))
    decreases n - i, n - j, 0
  {
    RedsFromExact(g, n, i, j + 2);
    var rest := RedsFrom(g, n, i, j + 2);
    var rs := (if At(g, i, j) == Red then [(i, j)] else []) + rest;
    assert RedsFrom(g, n, i, j) == rs;
    RedsConsMembers(g, n, i, j, rest);
    RedsConsOrdered(g, n, i, j, rest);
  }

  /** Listing (i, j) when it is Red in front of the Red squares from (i, j + 2) on lists those from (i, j) on ... */
  lemma RedsConsMembers(g: Grid, n: int, i: int, j: int, rest: seq<(int, int)>)
    requires 0 <= i < n && 0 <= j < n && Playable(i, j) && ListsRedsFrom(g, n, i, j + 2, rest)
    ensures var rs := (if At(g, i, j) == Red then [(i, j)] else []) + rest;
      forall r, c :: (r, c) in rs <==> In(n, r, c) && Playable(r, c) && At(g, r, c) == Red && !Before(r, c, i, j)
  {
    forall r, c | Playable(r, c) && !Before(r, c, i, j) && (r, c) != (i, j)
      ensures !Before(r, c, i, j + 2)
    {
      if r == i {
        assert c != j + 1;
      }
    }
  }

  /** ... in increasing order. */
  lemma RedsConsOrdered(g: Grid, n: int, i: int, j: int, rest: seq<(int, int)>)
    requires 0 <= i < n && 0 <= j < n && Playable(i, j) && ListsRedsFrom(g, n, i, j + 2, rest)
    ensures var rs := (if At(g, i, j) == Red then [(i, j)] else []) + rest;
      forall a, b :: 0 <= a < b < |rs| ==> Before(rs[a].0, rs[a].1, rs[b].0, rs[b].1)
  {
    var rs := (if At(g, i, j) == Red then [(i, j)] else []) + rest;
    forall a, b | 0 <= a < b < |rs|
      ensures Before(rs[a].0, rs[a].1, rs[b].0, rs[b].1)
    {
      if At(g, i, j) == Red && a == 0 {
        assert rs[b] == rest[b - 1] && rest[b - 1] in rest;
      }
    }
  }

  /** The squares of the whole board's scan: every Red playable square, once, in row-major order. */
  lemma RedsExact(g: Grid, n: int)
    ensures var rs := Reds(g, n);
      (forall r, c :: (r, c) in rs <==> In(n, r, c) && Playable(r, c) && At(g, r, c) == Red) &&
      (forall a, b :: 0 <= a < b < |rs| ==> Before(rs[a].0, rs[a].1, rs[b].0, rs[b].1))
  {
    RedsFromExact(g, n, 0, 1);
    forall r, c | In(n, r, c) && Playable(r, c)
      ensures !Before(r, c, 0, 1)
    {
    }
  }

  /** The moves to a list of squares, one for each square in order. */
  lemma {:induction false} MovesToSpec(sqs: seq<(int, int)>, fr: int, fc: int, mwp: int, cap: bool, streak: bool, turn: bool)
    ensures var ms := MovesTo(sqs, fr, fc, mwp, cap, streak, turn);
      |ms| == |sqs| && forall k :: 0 <= k < |sqs| ==> ms[k] == NewMove(fr, fc, sqs[k].0, sqs[k].1, mwp, cap, streak, turn)
  {
    if sqs != [] {
      MovesToSpec(sqs[1..], fr, fc, mwp, cap, streak, turn);
    }
  }

  // ---------------------------------------------------------------------------
  // Moves of one piece

  /**
   * The marks of a plain piece, made on a grid without marks, add Red only to
   * empty squares that the piece reaches, and clearing them gives the grid back.
   */
  lemma PieceMarksSpec(g: Grid, n: int, i: int, j: int, forced: bool, turn: bool)
    requires GridOk(g, n) && NoTile(g, Red) && In(n, i, j)
    requires At(g, i, j) == Pawn(turn) || At(g, i, j) == Queen(turn)
    ensures var h := PieceMarks(g, n, i, j, forced, turn);
      IsSquare(h, n) && MarksOff(h) == g &&
      forall r, c :: At(h, r, c) == Red ==> Reaches(g, n, i, j, r, c, forced, turn)
  {
    if At(g, i, j) == Pawn(turn) {
      var g1 := Set(g, i, j, PawnChosen(turn));
      var mk := PawnMarks(g1, n, i, j, forced, turn);
      ManMarksReach(g, n, i, j, forced, turn);
      MarksBack(g, PawnChosen(turn), mk, n, i, j);
    } else {
      var g1 := Set(g, i, j, QueenChosen(turn));
      var mk := QueenMarks(g1, n, i, j, forced, turn);
      KingMarksReach(g, n, i, j, forced, turn);
      MarksBack(g, QueenChosen(turn), mk, n, i, j);
    }
  }

  /** The Red squares of a plain man's marks are squares the man reaches. */
  lemma ManMarksReach(g: Grid, n: int, i: int, j: int, forced: bool, turn: bool)
    requires IsSquare(g, n) && In(n, i, j) && At(g, i, j) == Pawn(turn) && NoTile(g, Red)
    ensures var g1 := Set(g, i, j, PawnChosen(turn));
      var mk := PawnMarks(g1, n, i, j, forced, turn);
      IsSquare(mk, n) && Recolours(g1, mk) &&
      forall r, c :: At(mk, r, c) == Red && (r, c) != (i, j) ==> Reaches(g, n, i, j, r, c, forced, turn)
  {
    var g1 := Set(g, i, j, PawnChosen(turn));
    var mk := PawnMarks(g1, n, i, j, forced, turn);
    PawnMarksSpec(g1, n, i, j, forced, turn);
    assert PawnMarkMover(g1, i, j) == turn;
    forall r, c | At(mk, r, c) == Red && (r, c) != (i, j)
      ensures Reaches(g, n, i, j, r, c, forced, turn)
    {
      assert At(g1, r, c) == At(g, r, c);
      assert NewRed(g1, mk, r, c);
      if forced {
        assert ManLanding(g1, n, i, j, r, c, turn);
        assert At(g1, Midpoint(r, i), Midpoint(c, j)) == At(g, Midpoint(r, i), Midpoint(c, j));
      }
    }
  }

  /** The Red squares of a plain king's marks are squares the king reaches. */
  lemma KingMarksReach(g: Grid, n: int, i: int, j: int, forced: bool, turn: bool)
    requires IsSquare(g, n) && In(n, i, j) && At(g, i, j) == Queen(turn) && NoTile(g, Red)
    ensures var g1 := Set(g, i, j, QueenChosen(turn));
      var mk := QueenMarks(g1, n, i, j, forced, turn);
      IsSquare(mk, n) && Recolours(g1, mk) &&
      forall r, c :: At(mk, r, c) == Red && (r, c) != (i, j) ==> Reaches(g, n, i, j, r, c, forced, turn)
  {
    var g1 := Set(g, i, j, QueenChosen(turn));
    var mk := QueenMarks(g1, n, i, j, forced, turn);
    QueenMarksSound(g1, n, i, j, forced, turn);
    forall r, c | At(mk, r, c) == Red && (r, c) != (i, j)
      ensures Reaches(g, n, i, j, r, c, forced, turn)
    {
      assert At(g1, r, c) == At(g, r, c);
      assert NewRed(g1, mk, r, c);
      if forced {
        PreyAheadSamePrey(g1, g, n, i, j, Sign(r - i), Sign(c - j), turn);
      }
    }
  }

  /** Marks made around a piece lifted for the purpose, cleared after the piece is put back, leave nothing behind. */
  lemma MarksBack(g: Grid, t: Tile, mk: Grid, n: int, i: int, j: int)
    requires GridOk(g, n) && NoTile(g, Red) && In(n, i, j) && IsSquare(mk, n)
    requires !Passable(t) && Recolours(Set(g, i, j, t), mk)
    ensures var h := Set(mk, i, j, At(g, i, j));
      IsSquare(h, n) && MarksOff(h) == g && (forall r, c :: At(h, r, c) == Red ==> At(mk, r, c) == Red && (r, c) != (i, j))
  {
    var h := Set(mk, i, j, At(g, i, j));
    forall a, b | 0 <= a < n && 0 <= b < n
      ensures MarksOff(h)[a][b] == g[a][b]
    {
      assert At(h, a, b) == h[a][b] && At(g, a, b) == g[a][b];
      if (a, b) != (i, j) {
        var g1 := Set(g, i, j, t);
        assert At(g1, a, b) == g[a][b];
        assert At(mk, a, b) == At(g1, a, b) || (Passable(At(g1, a, b)) && Passable(At(mk, a, b)));
      }
    }
    SameGrid(MarksOff(h), g, n);
  }

  // ---------------------------------------------------------------------------
  // The whole scan

  /** b extends a by moves that fit the position s. */
  ghost predicate Grows(s: State, a: seq<Move>, b: seq<Move>) {
    |a| <= |b| && b[..|a|] == a && forall k :: |a| <= k < |b| ==> Fits(s, b[k])
  }

  lemma GrowsTrans(s: State, a: seq<Move>, b: seq<Move>, c: seq<Move>)
    requires Grows(s, a, b) && Grows(s, b, c)
    ensures Grows(s, a, c)
  {
    assert c[..|a|] == c[..|b|][..|a|];
  }

  /**
   * The scan off a streak from (i, j) on, started on the position's own
   * tiles without marks, leaves the tiles as they were, keeps the moves
   * found so far, and every move it adds fits the position.
   */
  lemma {:induction false} ScanSound(s: State, acc: Scan, i: int, j: int)
    requires GridOk(s.g, s.n) && NoTile(s.g, Red) && !s.isOnStreak
    requires acc.g == s.g && 0 <= i && 0 <= j && In(s.n, acc.chosenRow, acc.chosenCol)
    ensures var out := ScanFrom(s, acc, i, j);
      out.g == s.g && In(s.n, out.chosenRow, out.chosenCol) && Grows(s, acc.moves, out.moves)
    decreases s.n - i, s.n - j, 1
  {
    if i >= s.n {
      assert acc.moves[..|acc.moves|] == acc.moves;
    } else if j >= s.n {
      ScanSound(s, acc, i + 1, 1 - (i + 1) % 2);
    } else {
      var t := At(acc.g, i, j);
      if t == Pawn(s.turn) || t == Queen(s.turn) {
        ScanPiece(s, acc, i, j);
      } else {
        ScanSound(s, acc, i, j + 2);
      }
    }
  }

  /** The scan past a plain piece of the side to move. */
  lemma {:induction false} ScanPiece(s: State, acc: Scan, i: int, j: int)
    requires GridOk(s.g, s.n) && NoTile(s.g, Red) && !s.isOnStreak
    requires acc.g == s.g && In(s.n, i, j) && In(s.n, acc.chosenRow, acc.chosenCol)
    requires At(s.g, i, j) == Pawn(s.turn) || At(s.g, i, j) == Queen(s.turn)
    ensures var out := ScanFrom(s, acc, i, j);
      out.g == s.g && In(s.n, out.chosenRow, out.chosenCol) && Grows(s, acc.moves, out.moves)
    decreases s.n - i, s.n - j, 0
  {
    var next := PieceScan(s, acc, i, j);
    PieceScanSound(s, acc, i, j);
    ScanSound(s, next, i, j + 2);
    GrowsTrans(s, acc.moves, next.moves, ScanFrom(s, next, i, j + 2).moves);
  }

  /** The scan's work for one plain piece of the side to move adds moves that fit the position. */
  lemma PieceScanSound(s: State, acc: Scan, i: int, j: int)
    requires GridOk(s.g, s.n) && NoTile(s.g, Red) && !s.isOnStreak && acc.g == s.g && In(s.n, i, j)
    requires At(s.g, i, j) == Pawn(s.turn) || At(s.g, i, j) == Queen(s.turn)
    ensures var next := PieceScan(s, acc, i, j);
      next.g == s.g && next.chosenRow == i && next.chosenCol == j && Grows(s, acc.moves, next.moves)
  {
    var h := PieceMarks(s.g, s.n, i, j, s.isForced, s.turn);
    PieceMarksSpec(s.g, s.n, i, j, s.isForced, s.turn);
    var ms := MovesTo(Reds(h, s.n), i, j, s.mwp, s.isForced, false, s.turn);
    MarkedMovesFit(s, h, i, j);
    GrowsBy(s, acc.moves, ms);
  }

  /** The moves to the Red squares of marks that only the piece on (i, j) reaches all fit the position. */
  lemma MarkedMovesFit(s: State, h: Grid, i: int, j: int)
    requires !s.isOnStreak
    requires forall r, c :: At(h, r, c) == Red ==> Reaches(s.g, s.n, i, j, r, c, s.isForced, s.turn)
    ensures forall m :: m in MovesTo(Reds(h, s.n), i, j, s.mwp, s.isForced, false, s.turn) ==> Fits(s, m)
  {
    var rs := Reds(h, s.n);
    var ms := MovesTo(rs, i, j, s.mwp, s.isForced, false, s.turn);
    RedsExact(h, s.n);
    MovesToSpec(rs, i, j, s.mwp, s.isForced, false, s.turn);
    forall m | m in ms
      ensures Fits(s, m)
    {
      var k :| 0 <= k < |ms| && ms[k] == m;
      assert rs[k] in rs;
    }
  }

  /** Appending moves that all fit the position grows the list. */
  lemma GrowsBy(s: State, a: seq<Move>, ms: seq<Move>)
    requires forall m :: m in ms ==> Fits(s, m)
    ensures Grows(s, a, a + ms)
  {
    var b := a + ms;
    assert b[..|a|] == a;
    forall k | |a| <= k < |b|
      ensures Fits(s, b[k])
    {
      assert b[k] == ms[k - |a|];
    }
  }

  /**
   * generateMoves on a position without marks off a streak, or with the
   * chosen piece's marks on one: the tiles are left as they were, the chosen
   * square stays on the board, and every move fits the position.
   */
  lemma GenerateSound(s: State)
    requires GridOk(s.g, s.n) && In(s.n, s.chosenRow, s.chosenCol)
    requires !s.isOnStreak ==> NoTile(s.g, Red)
    requires s.isOnStreak ==> RedsLegal(s)
    ensures var out := Generate(s);
      out.g == s.g && In(s.n, out.chosenRow, out.chosenCol) &&
      (s.isOnStreak ==> out.chosenRow == s.chosenRow && out.chosenCol == s.chosenCol) &&
      forall m :: m in out.moves ==> Fits(s, m)
  {
    var out := Generate(s);
    if s.isOnStreak {
      var rs := Reds(s.g, s.n);
      RedsExact(s.g, s.n);
      MovesToSpec(rs, s.chosenRow, s.chosenCol, 0, true, true, s.turn);
      forall m | m in out.moves
        ensures Fits(s, m)
      {
        var k :| 0 <= k < |out.moves| && out.moves[k] == m;
        assert rs[k] in rs;
      }
    } else {
      ScanSound(s, Scan([], s.g, s.chosenRow, s.chosenCol), 0, 1);
      assert Grows(s, [], out.moves);
      forall m | m in out.moves
        ensures Fits(s, m)
      {
        var k :| 0 <= k < |out.moves| && out.moves[k] == m;
      }
    }
  }

  /**
   * On a streak generateMoves lists one capture from the chosen square for
   * each Red square, in row-major order, and no other move.
   */
  lemma StreakMovesExact(s: State)
    requires s.isOnStreak
    ensures var ms := Generate(s).moves;
      (forall k :: 0 <= k < |ms| ==>
        ms[k].fromRow == s.chosenRow && ms[k].fromCol == s.chosenCol && ms[k].isCapture && ms[k].wasOnStreak &&
        ms[k].turn == s.turn && In(s.n, ms[k].toRow, ms[k].toCol) && At(s.g, ms[k].toRow, ms[k].toCol) == Red) &&
      (forall r, c :: In(s.n, r, c) && Playable(r, c) && At(s.g, r, c) == Red ==>
        exists k :: 0 <= k < |ms| && ms[k].toRow == r && ms[k].toCol == c) &&
      (forall a, b :: 0 <= a < b < |ms| ==> Before(ms[a].toRow, ms[a].toCol, ms[b].toRow, ms[b].toCol))
  {
    var rs := Reds(s.g, s.n);
    var ms := Generate(s).moves;
    RedsExact(s.g, s.n);
    MovesToSpec(rs, s.chosenRow, s.chosenCol, 0, true, true, s.turn);
    forall k | 0 <= k < |ms|
      ensures In(s.n, ms[k].toRow, ms[k].toCol) && At(s.g, ms[k].toRow, ms[k].toCol) == Red
    {
      assert rs[k] in rs;
    }
    forall r, c | In(s.n, r, c) && Playable(r, c) && At(s.g, r, c) == Red
      ensures exists k :: 0 <= k < |ms| && ms[k].toRow == r && ms[k].toCol == c
    {
      assert (r, c) in rs;
      var k :| 0 <= k < |rs| && rs[k] == (r, c);
      assert ms[k].toRow == r && ms[k].toCol == c;
    }
  }

  /** The prey search along a ray only sees which squares hold prey. */
  lemma {:induction false} PreyDistanceSamePrey(g: Grid, h: Grid, n: int, r: int, c: int, dr: int, dc: int, k: int, mover: bool)
    requires 0 <= r < n && k >= 1
    requires forall a, b :: (a, b) != (r, c) ==> Prey(At(g, a, b), mover) == Prey(At(h, a, b), mover)
    requires Unit(dr)
    ensures PreyDistance(g, n, r, c, dr, dc, k, mover) == PreyDistance(h, n, r, c, dr, dc, k, mover)
    decreases n - k
  {
    if In(n, Step(r, dr, k), Step(c, dc, k)) {
      assert Step(r, dr, k) != r;
      PreyDistanceSamePrey(g, h, n, r, c, dr, dc, k + 1, mover);
    }
  }

  lemma PreyAheadSamePrey(g: Grid, h: Grid, n: int, r: int, c: int, dr: int, dc: int, mover: bool)
    requires 0 <= r < n && Unit(dr)
    requires forall a, b :: (a, b) != (r, c) ==> Prey(At(g, a, b), mover) == Prey(At(h, a, b), mover)
    ensures PreyAhead(g, n, r, c, dr, dc, mover) == PreyAhead(h, n, r, c, dr, dc, mover)
  {
    PreyDistanceSamePrey(g, h, n, r, c, dr, dc, 1, mover);
  }
}
