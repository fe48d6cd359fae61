/**
 * What turnRedQueenSquaresOn marks, stated outright. A king that is not
 * forced marks exactly the empty squares it can slide to: along each
 * diagonal, the consecutive Black squares up to the first other square or
 * the edge.
 */
module KingMarks {
  import opened Tiles
  import opened Grids
  import opened Rules
  import opened Marks

  /** The squares at distances from..to along the ray from (r, c) with step (dr, dc) are all Black. */
  ghost predicate BlackRun(g: Grid, r: int, c: int, dr: int, dc: int, from: int, to: int) {
    forall k :: from <= k <= to ==> At(g, Step(r, dr, k), Step(c, dc, k)) == Black
  }

  /** (i, j) lies on the ray at distance `from` or beyond, and the ray is Black from `from` up to it. */
  ghost predicate Slides(g: Grid, r: int, c: int, dr: int, dc: int, from: int, i: int, j: int) {
    OnRay(r, c, dr, dc, i, j) && from <= Dist(r, dr, i) && BlackRun(g, r, c, dr, dc, from, Dist(r, dr, i))
  }

  /** A king on (r, c) can slide to (i, j): a diagonal square with only Black squares up to and including it. */
  ghost predicate KingSlides(g: Grid, r: int, c: int, i: int, j: int) {
    Diagonal(r, c, i, j) && BlackRun(g, r, c, Sign(i - r), Sign(j - c), 1, Abs(i - r))
  }

  /** The square at distance k of the ray is (i, j) exactly when (i, j) is on the ray at that distance. */
  lemma RaySquare(r: int, c: int, dr: int, dc: int, k: int, i: int, j: int)
    requires Unit(dr) && Unit(dc) && k >= 1
    ensures (i == Step(r, dr, k) && j == Step(c, dc, k)) <==> (OnRay(r, c, dr, dc, i, j) && Dist(r, dr, i) == k)
  {
  }

  /**
   * The walk of a king that is not forced, from distance k: it turns Red the
   * Black squares from distance k on up to the first other square, and
   * nothing else.
   */
  lemma {:induction false} QuietWalk(w: Walker, n: int, r0: int, c0: int, dr: int, dc: int, k: int, mover: bool)
    requires Unit(dr) && Unit(dc) && IsSquare(w.g, n) && In(n, w.r, w.c) && k >= 1
    requires w.r == Step(r0, dr, k) && w.c == Step(c0, dc, k) && !w.enemyFound && !w.doubleFound
    ensures var e := Walk(w, n, dr, dc, false, mover);
      !e.doubleFound && IsSquare(e.g, n) &&
      forall i, j :: At(e.g, i, j) == if Slides(w.g, r0, c0, dr, dc, k, i, j) then Red else At(w.g, i, j)
    decreases if dr > 0 then n - w.r else w.r + 1
  {
    var e := Walk(w, n, dr, dc, false, mover);
    if Stops(w, false) {
      forall i, j
        ensures !Slides(w.g, r0, c0, dr, dc, k, i, j)
      {
        assert At(w.g, Step(r0, dr, k), Step(c0, dc, k)) != Black;
      }
    } else {
      var g1 := Set(w.g, w.r, w.c, Red);
      var a := Advance(MarkHere(w, n, false, mover), n, dr, dc, false, mover);
      assert a == w.(g := g1, r := w.r + dr, c := w.c + dc);
      if !In(n, a.r, a.c) {
        assert e == a;
        forall i, j
          ensures Slides(w.g, r0, c0, dr, dc, k, i, j) <==> i == w.r && j == w.c
        {
          assert At(w.g, Step(r0, dr, k + 1), Step(c0, dc, k + 1)) == White;
        }
      } else {
        QuietWalk(a, n, r0, c0, dr, dc, k + 1, mover);
        assert e == Walk(a, n, dr, dc, false, mover);
        forall i, j
          ensures Slides(w.g, r0, c0, dr, dc, k, i, j) <==> (i == w.r && j == w.c) || Slides(g1, r0, c0, dr, dc, k + 1, i, j)
        {
          SlidesStep(w.g, g1, r0, c0, dr, dc, k, i, j);
        }
      }
    }
  }

  /** Marking the square at distance k leaves the run beyond it as it was. */
  lemma SlidesStep(g: Grid, g1: Grid, r0: int, c0: int, dr: int, dc: int, k: int, i: int, j: int)
    requires Unit(dr) && Unit(dc) && k >= 1 && At(g, Step(r0, dr, k), Step(c0, dc, k)) == Black
    requires g1 == Set(g, Step(r0, dr, k), Step(c0, dc, k), Red)
    ensures Slides(g, r0, c0, dr, dc, k, i, j) <==>
            (i == Step(r0, dr, k) && j == Step(c0, dc, k)) || Slides(g1, r0, c0, dr, dc, k + 1, i, j)
  {
    var d := Dist(r0, dr, i);
    if OnRay(r0, c0, dr, dc, i, j) && d >= k + 1 {
      forall q | k + 1 <= q <= d
        ensures At(g1, Step(r0, dr, q), Step(c0, dc, q)) == At(g, Step(r0, dr, q), Step(c0, dc, q))
      {
      }
      if BlackRun(g1, r0, c0, dr, dc, k + 1, d) {
        assert BlackRun(g, r0, c0, dr, dc, k, d);
      }
    }
  }

  /** One direction of a king that is not forced marks exactly the squares it can slide to. */
  lemma DirMarksQuiet(g: Grid, n: int, r: int, c: int, q: int, mover: bool)
    requires IsSquare(g, n) && In(n, r, c) && 0 <= q < 4
    ensures var h := DirMarks(g, n, r, c, q, false, mover);
      IsSquare(h, n) &&
      forall i, j :: At(h, i, j) == if Slides(g, r, c, DirRow(q), DirCol(q), 1, i, j) then Red else At(g, i, j)
  {
    var dr, dc := DirRow(q), DirCol(q);
    if !In(n, r + dr, c + dc) {
      forall i, j
        ensures !Slides(g, r, c, dr, dc, 1, i, j)
      {
        assert At(g, Step(r, dr, 1), Step(c, dc, 1)) == White;
      }
    } else {
      var w := StartWalker(g, r, c, dr, dc, false, mover);
      assert w == Walker(g, r + dr, c + dc, false, 0, 0, false);
      QuietWalk(w, n, r, c, dr, dc, 1, mover);
    }
  }

  /** Rays of different directions share no square. */
  lemma RaysApart(r: int, c: int, p: int, q: int, i: int, j: int)
    requires 0 <= p < 4 && 0 <= q < 4 && p != q
    requires OnRay(r, c, DirRow(p), DirCol(p), i, j)
    ensures !OnRay(r, c, DirRow(q), DirCol(q), i, j)
  {
  }

  /** Marks along one direction do not change what the king sees along another. */
  lemma SlidesElsewhere(g: Grid, h: Grid, r: int, c: int, p: int, q: int, i: int, j: int)
    requires 0 <= p < 4 && 0 <= q < 4 && p != q
    requires forall a, b :: At(h, a, b) == if Slides(g, r, c, DirRow(p), DirCol(p), 1, a, b) then Red else At(g, a, b)
    ensures Slides(h, r, c, DirRow(q), DirCol(q), 1, i, j) <==> Slides(g, r, c, DirRow(q), DirCol(q), 1, i, j)
  {
    var dr, dc := DirRow(q), DirCol(q);
    if OnRay(r, c, dr, dc, i, j) {
      forall k | 1 <= k <= Dist(r, dr, i)
        ensures At(h, Step(r, dr, k), Step(c, dc, k)) == At(g, Step(r, dr, k), Step(c, dc, k))
      {
        RaysApart(r, c, q, p, Step(r, dr, k), Step(c, dc, k));
      }
    }
  }

  /** Slides along direction q, for the direction that points from (r, c) to (i, j). */
  lemma SlidesDirection(g: Grid, r: int, c: int, i: int, j: int)
    ensures KingSlides(g, r, c, i, j) <==>
            exists q :: 0 <= q < 4 && Slides(g, r, c, DirRow(q), DirCol(q), 1, i, j)
  {
    if Diagonal(r, c, i, j) {
      var q := (if i > r then 0 else 2) + (if j > c then 0 else 1);
      assert DirRow(q) == Sign(i - r) && DirCol(q) == Sign(j - c);
      forall p | 0 <= p < 4 && p != q
        ensures !OnRay(r, c, DirRow(p), DirCol(p), i, j)
      {
      }
      assert KingSlides(g, r, c, i, j) <==> Slides(g, r, c, DirRow(q), DirCol(q), 1, i, j);
    } else {
      forall p | 0 <= p < 4
        ensures !OnRay(r, c, DirRow(p), DirCol(p), i, j)
      {
      }
    }
  }

  /** The four directions' marks, composed at one square. */
  lemma QuietPoint(g: Grid, g1: Grid, g2: Grid, g3: Grid, h: Grid, r: int, c: int, i: int, j: int)
    requires forall a, b :: At(g1, a, b) == if Slides(g, r, c, DirRow(0), DirCol(0), 1, a, b) then Red else At(g, a, b)
    requires forall a, b :: At(g2, a, b) == if Slides(g1, r, c, DirRow(1), DirCol(1), 1, a, b) then Red else At(g1, a, b)
    requires forall a, b :: At(g3, a, b) == if Slides(g2, r, c, DirRow(2), DirCol(2), 1, a, b) then Red else At(g2, a, b)
    requires forall a, b :: At(h, a, b) == if Slides(g3, r, c, DirRow(3), DirCol(3), 1, a, b) then Red else At(g3, a, b)
    ensures At(h, i, j) == if KingSlides(g, r, c, i, j) then Red else At(g, i, j)
  {
    SlidesDirection(g, r, c, i, j);
    SlidesElsewhere(g, g1, r, c, 0, 1, i, j);
    SlidesElsewhere(g, g1, r, c, 0, 2, i, j);
    SlidesElsewhere(g, g1, r, c, 0, 3, i, j);
    SlidesElsewhere(g1, g2, r, c, 1, 2, i, j);
    SlidesElsewhere(g1, g2, r, c, 1, 3, i, j);
    SlidesElsewhere(g2, g3, r, c, 2, 3, i, j);
  }

  /**
   * turnRedQueenSquaresOn for a king that is not forced: a square turns Red
   * exactly when the king can slide to it, that is when it lies on a diagonal
   * through the king and every square from the king up to and including it is
   * Black; every other square keeps its tile.
   */
  lemma QueenMarksQuiet(g: Grid, n: int, r: int, c: int, mover: bool)
    requires IsSquare(g, n) && In(n, r, c)
    ensures var h := QueenMarks(g, n, r, c, false, mover);
      IsSquare(h, n) &&
      (forall i, j :: At(h, i, j) == if KingSlides(g, r, c, i, j) then Red else At(g, i, j)) &&
      (forall i, j :: NewRed(g, h, i, j) <==> KingSlides(g, r, c, i, j))
  {
    var g1 := DirMarks(g, n, r, c, 0, false, mover);
    var g2 := DirMarks(g1, n, r, c, 1, false, mover);
    var g3 := DirMarks(g2, n, r, c, 2, false, mover);
    var h := DirMarks(g3, n, r, c, 3, false, mover);
    DirMarksQuiet(g, n, r, c, 0, mover);
    DirMarksQuiet(g1, n, r, c, 1, mover);
    DirMarksQuiet(g2, n, r, c, 2, mover);
    DirMarksQuiet(g3, n, r, c, 3, mover);
    QuietAll(g, g1, g2, g3, h, r, c);
  }

  /** The four directions' marks, composed at every square. */
  lemma QuietAll(g: Grid, g1: Grid, g2: Grid, g3: Grid, h: Grid, r: int, c: int)
    requires forall a, b :: At(g1, a, b) == if Slides(g, r, c, DirRow(0), DirCol(0), 1, a, b) then Red else At(g, a, b)
    requires forall a, b :: At(g2, a, b) == if Slides(g1, r, c, DirRow(1), DirCol(1), 1, a, b) then Red else At(g1, a, b)
    requires forall a, b :: At(g3, a, b) == if Slides(g2, r, c, DirRow(2), DirCol(2), 1, a, b) then Red else At(g2, a, b)
    requires forall a, b :: At(h, a, b) == if Slides(g3, r, c, DirRow(3), DirCol(3), 1, a, b) then Red else At(g3, a, b)
    ensures forall i, j :: At(h, i, j) == if KingSlides(g, r, c, i, j) then Red else At(g, i, j)
    ensures forall i, j :: NewRed(g, h, i, j) <==> KingSlides(g, r, c, i, j)
  {
    forall i, j
      ensures At(h, i, j) == if KingSlides(g, r, c, i, j) then Red else At(g, i, j)
    {
      QuietPoint(g, g1, g2, g3, h, r, c, i, j);
    }
    forall i, j | KingSlides(g, r, c, i, j)
      ensures At(g, i, j) == Black
    {
      KingSlidesBlack(g, r, c, i, j);
    }
  }

  /** A square the king can slide to is Black. */
  lemma KingSlidesBlack(g: Grid, r: int, c: int, i: int, j: int)
    requires KingSlides(g, r, c, i, j)
    ensures At(g, i, j) == Black
  {
    assert At(g, Step(r, Sign(i - r), Abs(i - r)), Step(c, Sign(j - c), Abs(i - r))) == Black;
  }

  /** A tile a king's look cannot pass and cannot take. */
  predicate Blocks(t: Tile, mover: bool) { !Passable(t) && !Prey(t, mover) }

  /** From the square t steps along a ray, with the enemy lifted, the king could capture again. */
  ghost predicate DoubleAt(G: Grid, n: int, r: int, c: int, dr: int, dc: int, t: int, mover: bool) {
    In(n, Step(r, dr, t), Step(c, dc, t)) && CanQueenCapture(G, n, Step(r, dr, t), Step(c, dc, t), mover)
  }

  /** Some square strictly between distances lo and hi allows a further capture. */
  ghost predicate AnyDouble(G: Grid, n: int, r: int, c: int, dr: int, dc: int, lo: int, hi: int, mover: bool)
    decreases hi - lo
  {
    hi > lo + 1 && (AnyDouble(G, n, r, c, dr, dc, lo, hi - 1, mover) || DoubleAt(G, n, r, c, dr, dc, hi - 1, mover))
  }

  /** g with the squares of the ray at distances strictly between lo and hi turned Red. */
  ghost predicate RedBetween(h: Grid, g: Grid, r: int, c: int, dr: int, dc: int, lo: int, hi: int) {
    forall i, j :: At(h, i, j) == if OnRay(r, c, dr, dc, i, j) && lo < Dist(r, dr, i) < hi then Red else At(g, i, j)
  }

  /** g with the enemy de steps along the ray lifted off the board. */
  ghost function Lifted(g: Grid, r: int, c: int, dr: int, dc: int, de: int): Grid {
    Set(g, Step(r, dr, de), Step(c, dc, de), Black)
  }

  /** What is known on entry to the part of the walk past the enemy, standing k steps out. */
  ghost predicate PastEnemy(w: Walker, g: Grid, G: Grid, n: int, r: int, c: int, dr: int, dc: int, de: int, k: int, mover: bool) {
    Unit(dr) && Unit(dc) && IsSquare(g, n) && IsSquare(w.g, n) && In(n, r, c) && Blocks(At(g, r, c), mover) &&
    1 <= de < k && w.r == Step(r, dr, k) && w.c == Step(c, dc, k) &&
    w.enemyFound && w.er == Step(r, dr, de) && w.ec == Step(c, dc, de) && In(n, w.er, w.ec) &&
    (forall d :: 1 <= d < de ==> !Prey(At(g, Step(r, dr, d), Step(c, dc, d)), mover)) &&
    BlackRun(g, r, c, dr, dc, de + 1, k - 1) &&
    RedBetween(w.g, g, r, c, dr, dc, de, k) &&
    w.doubleFound == AnyDouble(G, n, r, c, dr, dc, de, k, mover)
  }
}

module KingCaptureMarks {
  import opened Tiles
  import opened Grids
  import opened Rules
  import opened Marks
  import opened KingMarks

  // ---------------------------------------------------------------------------
  // What canQueenCapture reads


  /** A look that meets no prey before a blocking square finds no capture. */
  lemma {:induction false} RayBlocked(g: Grid, n: int, x: int, y: int, dr: int, dc: int, k: int, b: int, mover: bool)
    requires 0 <= x < n && 1 <= k <= b
    requires forall j :: k <= j < b ==> !Prey(At(g, Step(x, dr, j), Step(y, dc, j)), mover)
    requires Blocks(At(g, Step(x, dr, b), Step(y, dc, b)), mover)
    ensures !RayCapture(g, n, x, y, dr, dc, k, mover)
    decreases b - k
  {
    if k < b && Passable(At(g, Step(x, dr, k), Step(y, dc, k))) && In(n, Step(x, dr, k + 1), Step(y, dc, k + 1)) {
      RayBlocked(g, n, x, y, dr, dc, k + 1, b, mover);
    }
  }

  /**
   * Two grids that agree along a look, except on a leading stretch of squares
   * that are empty in both, give the look the same result.
   */
  lemma {:induction false} RayAgrees(g: Grid, h: Grid, n: int, x: int, y: int, dr: int, dc: int, k: int, b: int, mover: bool)
    requires 0 <= x < n && k >= 1
    requires forall j :: k <= j < b ==>
      Passable(At(g, Step(x, dr, j), Step(y, dc, j))) && Passable(At(h, Step(x, dr, j), Step(y, dc, j)))
    requires forall j :: k <= j && b <= j ==> At(g, Step(x, dr, j), Step(y, dc, j)) == At(h, Step(x, dr, j), Step(y, dc, j))
    ensures RayCapture(g, n, x, y, dr, dc, k, mover) == RayCapture(h, n, x, y, dr, dc, k, mover)
    decreases n - k
  {
    var t := At(g, Step(x, dr, k), Step(y, dc, k));
    if Passable(t) && In(n, Step(x, dr, k + 1), Step(y, dc, k + 1)) {
      RayAgrees(g, h, n, x, y, dr, dc, k + 1, b, mover);
    }
  }

  /** canQueenCapture gives the same answer on two grids whose four looks do. */
  lemma CaptureFromRays(g: Grid, h: Grid, n: int, x: int, y: int, mover: bool)
    requires 0 <= x < n
    requires forall p :: 0 <= p < 4 ==> QueenDir(g, n, x, y, p, mover) == QueenDir(h, n, x, y, p, mover)
    ensures CanQueenCapture(g, n, x, y, mover) == CanQueenCapture(h, n, x, y, mover)
  {
    assert QueenDirsFrom(g, n, x, y, 4, mover) == QueenDirsFrom(h, n, x, y, 4, mover);
    assert QueenDirsFrom(g, n, x, y, 3, mover) == QueenDirsFrom(h, n, x, y, 3, mover);
    assert QueenDirsFrom(g, n, x, y, 2, mover) == QueenDirsFrom(h, n, x, y, 2, mover);
    assert QueenDirsFrom(g, n, x, y, 1, mover) == QueenDirsFrom(h, n, x, y, 1, mover);
  }

  /** The square j steps on from the square t steps along a ray is t + j steps along it. */
  lemma StepOn(x: int, d: int, t: int, j: int)
    requires Unit(d)
    ensures Step(Step(x, d, t), d, j) == Step(x, d, t + j)
    ensures Step(Step(x, d, t), -d, j) == Step(x, d, t - j)
  {
  }

  /** A look across a ray of the king, from a square on it, never meets a diagonal through the king. */
  lemma AcrossOffLines(r: int, c: int, dr: int, dc: int, t: int, pr: int, pc: int, j: int)
    requires Unit(dr) && Unit(dc) && Unit(pr) && Unit(pc) && t >= 1 && j >= 1
    requires !(pr == dr && pc == dc) && !(pr == -dr && pc == -dc)
    ensures Abs(Step(Step(r, dr, t), pr, j) - r) != Abs(Step(Step(c, dc, t), pc, j) - c)
  {
  }

  /**
   * canQueenCapture from the square t steps along a ray of the king reads the
   * grid along that diagonal and across it only: two grids that agree off the
   * king's diagonals, whose squares between the king and the square hold no
   * prey, whose squares beyond it differ only on a leading stretch empty in
   * both, and whose king's square blocks the look back, give the same answer.
   */
  lemma CaptureAtRunSquare(g: Grid, h: Grid, n: int, r: int, c: int, dr: int, dc: int, t: int, b: int, mover: bool)
    requires Unit(dr) && Unit(dc) && In(n, r, c) && t >= 1 && b >= t + 1
    requires In(n, Step(r, dr, t), Step(c, dc, t))
    requires Blocks(At(g, r, c), mover) && At(h, r, c) == At(g, r, c)
    requires forall d :: 1 <= d < t ==>
      !Prey(At(g, Step(r, dr, d), Step(c, dc, d)), mover) && !Prey(At(h, Step(r, dr, d), Step(c, dc, d)), mover)
    requires forall d :: t < d < b ==>
      Passable(At(g, Step(r, dr, d), Step(c, dc, d))) && Passable(At(h, Step(r, dr, d), Step(c, dc, d)))
    requires forall d :: d >= b ==> At(g, Step(r, dr, d), Step(c, dc, d)) == At(h, Step(r, dr, d), Step(c, dc, d))
    requires forall i, j :: Abs(i - r) != Abs(j - c) ==> At(g, i, j) == At(h, i, j)
    ensures CanQueenCapture(g, n, Step(r, dr, t), Step(c, dc, t), mover) ==
            CanQueenCapture(h, n, Step(r, dr, t), Step(c, dc, t), mover)
  {
    var x, y := Step(r, dr, t), Step(c, dc, t);
    forall p | 0 <= p < 4
      ensures QueenDir(g, n, x, y, p, mover) == QueenDir(h, n, x, y, p, mover)
    {
      var pr, pc := DirRow(p), DirCol(p);
      if pr == dr && pc == dc {
        forall j | 1 <= j < b - t
          ensures Passable(At(g, Step(x, pr, j), Step(y, pc, j))) && Passable(At(h, Step(x, pr, j), Step(y, pc, j)))
        {
          StepOn(r, dr, t, j);
          StepOn(c, dc, t, j);
        }
        forall j | 1 <= j && b - t <= j
          ensures At(g, Step(x, pr, j), Step(y, pc, j)) == At(h, Step(x, pr, j), Step(y, pc, j))
        {
          StepOn(r, dr, t, j);
          StepOn(c, dc, t, j);
        }
        RayAgrees(g, h, n, x, y, pr, pc, 1, b - t, mover);
      } else if pr == -dr && pc == -dc {
        forall j | 1 <= j < t
          ensures !Prey(At(g, Step(x, pr, j), Step(y, pc, j)), mover) && !Prey(At(h, Step(x, pr, j), Step(y, pc, j)), mover)
        {
          StepOn(r, dr, t, j);
          StepOn(c, dc, t, j);
        }
        StepOn(r, dr, t, t);
        StepOn(c, dc, t, t);
        RayBlocked(g, n, x, y, pr, pc, 1, t, mover);
        RayBlocked(h, n, x, y, pr, pc, 1, t, mover);
      } else {
        forall j | 1 <= j
          ensures At(g, Step(x, pr, j), Step(y, pc, j)) == At(h, Step(x, pr, j), Step(y, pc, j))
        {
          AcrossOffLines(r, c, dr, dc, t, pr, pc, j);
        }
        RayAgrees(g, h, n, x, y, pr, pc, 1, 1, mover);
      }
    }
    CaptureFromRays(g, h, n, x, y, mover);
  }

  // ---------------------------------------------------------------------------
  // The walk of a forced king

  /** No square before the first prey on a ray is prey. */
  lemma {:induction false} PreyDistanceFirst(g: Grid, n: int, r: int, c: int, dr: int, dc: int, k: int, mover: bool)
    requires 0 <= r < n && k >= 1 && PreyDistance(g, n, r, c, dr, dc, k, mover) != -1
    ensures forall d :: k <= d < PreyDistance(g, n, r, c, dr, dc, k, mover) ==>
      !Prey(At(g, Step(r, dr, d), Step(c, dc, d)), mover)
    decreases n - k
  {
    if !Prey(At(g, Step(r, dr, k), Step(c, dc, k)), mover) {
      PreyDistanceFirst(g, n, r, c, dr, dc, k + 1, mover);
    }
  }

  /** The first distance from k on whose square is not Black (off the board counts). */
  function RunEnd(g: Grid, n: int, r: int, c: int, dr: int, dc: int, k: int): (s: int)
    requires 0 <= r < n
    ensures s >= k
    decreases n - k
  {
    if !In(n, Step(r, dr, k), Step(c, dc, k)) || At(g, Step(r, dr, k), Step(c, dc, k)) != Black then k
    else RunEnd(g, n, r, c, dr, dc, k + 1)
  }

  /** The double test the walk makes k steps out sees what it would see with the run still Black. */
  lemma DoubleTest(w: Walker, g: Grid, G: Grid, n: int, r: int, c: int, dr: int, dc: int, de: int, k: int, mover: bool)
    requires PastEnemy(w, g, G, n, r, c, dr, dc, de, k, mover) == true && In(n, w.r, w.c) && G == Lifted(g, r, c, dr, dc, de)
    requires At(g, w.r, w.c) == Black
    ensures CanQueenCapture(Set(w.g, w.er, w.ec, Black), n, w.r, w.c, mover) == DoubleAt(G, n, r, c, dr, dc, k, mover)
  {
    var h := Set(w.g, w.er, w.ec, Black);
    LiftAgree(w.g, g, n, r, c, dr, dc, de, k);
    RunNoPrey(w.g, g, n, r, c, dr, dc, de, k, mover);
    forall d | d >= k + 1
      ensures At(G, Step(r, dr, d), Step(c, dc, d)) == At(h, Step(r, dr, d), Step(c, dc, d))
    {
      RaySquare(r, c, dr, dc, d, Step(r, dr, d), Step(c, dc, d));
    }
    CaptureAtRunSquare(G, h, n, r, c, dr, dc, k, k + 1, mover);
  }

  /**
   * With the enemy lifted from both, the grid of the walk and the grid it
   * started from differ only on the Red stretch.
   */
  lemma LiftAgree(h: Grid, g: Grid, n: int, r: int, c: int, dr: int, dc: int, de: int, k: int)
    requires Unit(dr) && Unit(dc) && IsSquare(g, n) && IsSquare(h, n) && 1 <= de
    requires In(n, Step(r, dr, de), Step(c, dc, de)) && RedBetween(h, g, r, c, dr, dc, de, k)
    ensures forall i, j :: !(OnRay(r, c, dr, dc, i, j) && de < Dist(r, dr, i) < k) ==>
      At(Set(h, Step(r, dr, de), Step(c, dc, de), Black), i, j) == At(Lifted(g, r, c, dr, dc, de), i, j)
    ensures forall i, j :: Abs(i - r) != Abs(j - c) ==>
      At(Set(h, Step(r, dr, de), Step(c, dc, de), Black), i, j) == At(Lifted(g, r, c, dr, dc, de), i, j)
  {
  }

  /** Before the square k steps out, neither grid holds prey on the ray: the enemy is lifted and the stretch is Black or Red. */
  lemma RunNoPrey(h: Grid, g: Grid, n: int, r: int, c: int, dr: int, dc: int, de: int, k: int, mover: bool)
    requires Unit(dr) && Unit(dc) && IsSquare(g, n) && IsSquare(h, n) && 1 <= de < k
    requires In(n, Step(r, dr, de), Step(c, dc, de)) && RedBetween(h, g, r, c, dr, dc, de, k)
    requires forall d :: 1 <= d < de ==> !Prey(At(g, Step(r, dr, d), Step(c, dc, d)), mover)
    requires BlackRun(g, r, c, dr, dc, de + 1, k - 1)
    ensures forall d :: 1 <= d < k ==>
      !Prey(At(Lifted(g, r, c, dr, dc, de), Step(r, dr, d), Step(c, dc, d)), mover) &&
      !Prey(At(Set(h, Step(r, dr, de), Step(c, dc, de), Black), Step(r, dr, d), Step(c, dc, d)), mover)
  {
    forall d | 1 <= d < k
      ensures !Prey(At(Lifted(g, r, c, dr, dc, de), Step(r, dr, d), Step(c, dc, d)), mover)
      ensures !Prey(At(Set(h, Step(r, dr, de), Step(c, dc, de), Black), Step(r, dr, d), Step(c, dc, d)), mover)
    {
      RaySquare(r, c, dr, dc, d, Step(r, dr, d), Step(c, dc, d));
      RaySquare(r, c, dr, dc, de, Step(r, dr, d), Step(c, dc, d));
    }
  }

  /** One step of the walk past the enemy over a Black square keeps PastEnemy, one square further out. */
  lemma PastEnemyStep(w: Walker, g: Grid, G: Grid, n: int, r: int, c: int, dr: int, dc: int, de: int, k: int, mover: bool)
    requires PastEnemy(w, g, G, n, r, c, dr, dc, de, k, mover) && In(n, w.r, w.c) && G == Lifted(g, r, c, dr, dc, de) && !Stops(w, true)
    ensures At(g, w.r, w.c) == Black
    ensures PastEnemy(Advance(MarkHere(w, n, true, mover), n, dr, dc, true, mover), g, G, n, r, c, dr, dc, de, k + 1, mover)
  {
    RaySquare(r, c, dr, dc, k, w.r, w.c);
    assert At(w.g, w.r, w.c) == At(g, w.r, w.c);
    DoubleTest(w, g, G, n, r, c, dr, dc, de, k, mover);
    var a := Advance(MarkHere(w, n, true, mover), n, dr, dc, true, mover);
    assert a == w.(g := Set(w.g, w.r, w.c, Red), r := Step(r, dr, k + 1), c := Step(c, dc, k + 1),
                   doubleFound := w.doubleFound || DoubleAt(G, n, r, c, dr, dc, k, mover));
    RedBetweenStep(w.g, g, n, r, c, dr, dc, de, k);
    AnyDoubleStep(G, n, r, c, dr, dc, de, k, mover);
    BlackRunStep(g, r, c, dr, dc, de + 1, k);
  }

  /** Marking the square k steps out extends the Red stretch by one. */
  lemma RedBetweenStep(h: Grid, g: Grid, n: int, r: int, c: int, dr: int, dc: int, lo: int, k: int)
    requires Unit(dr) && Unit(dc) && 1 <= k && lo < k && IsSquare(h, n) && In(n, Step(r, dr, k), Step(c, dc, k))
    requires RedBetween(h, g, r, c, dr, dc, lo, k)
    ensures RedBetween(Set(h, Step(r, dr, k), Step(c, dc, k), Red), g, r, c, dr, dc, lo, k + 1)
  {
    forall i, j
      ensures At(Set(h, Step(r, dr, k), Step(c, dc, k), Red), i, j) ==
              if OnRay(r, c, dr, dc, i, j) && lo < Dist(r, dr, i) < k + 1 then Red else At(g, i, j)
    {
      RaySquare(r, c, dr, dc, k, i, j);
    }
  }

  /** The stretch searched for a double grows by one square. */
  lemma AnyDoubleStep(G: Grid, n: int, r: int, c: int, dr: int, dc: int, lo: int, k: int, mover: bool)
    requires lo < k
    ensures AnyDouble(G, n, r, c, dr, dc, lo, k + 1, mover) <==>
            AnyDouble(G, n, r, c, dr, dc, lo, k, mover) || DoubleAt(G, n, r, c, dr, dc, k, mover)
  {
  }

  /** A Black run grows by one Black square. */
  lemma BlackRunStep(g: Grid, r: int, c: int, dr: int, dc: int, lo: int, k: int)
    requires BlackRun(g, r, c, dr, dc, lo, k - 1) && At(g, Step(r, dr, k), Step(c, dc, k)) == Black
    ensures BlackRun(g, r, c, dr, dc, lo, k)
  {
  }

  /**
   * The walk past the enemy: it turns Red the Black squares up to the first
   * other square or the edge, stops there, and has found a double exactly when
   * one of those squares allows a further capture.
   */
  lemma {:induction false} ForcedRun(w: Walker, g: Grid, G: Grid, n: int, r: int, c: int, dr: int, dc: int,
                                     de: int, k: int, mover: bool)
    requires PastEnemy(w, g, G, n, r, c, dr, dc, de, k, mover) == true && In(n, w.r, w.c) && G == Lifted(g, r, c, dr, dc, de)
    ensures PastEnemy(Walk(w, n, dr, dc, true, mover), g, G, n, r, c, dr, dc, de, RunEnd(g, n, r, c, dr, dc, k), mover) == true
    decreases n - k, 1
  {
    if Stops(w, true) {
      ForcedStops(w, g, G, n, r, c, dr, dc, de, k, mover);
    } else {
      ForcedRunOn(w, g, G, n, r, c, dr, dc, de, k, mover);
    }
  }

  /** The walk past the enemy where it goes on: the rest of the walk, then one step back. */
  lemma {:induction false} ForcedRunOn(w: Walker, g: Grid, G: Grid, n: int, r: int, c: int, dr: int, dc: int,
                                       de: int, k: int, mover: bool)
    requires PastEnemy(w, g, G, n, r, c, dr, dc, de, k, mover) == true && In(n, w.r, w.c) && G == Lifted(g, r, c, dr, dc, de)
    requires !Stops(w, true)
    ensures PastEnemy(Walk(w, n, dr, dc, true, mover), g, G, n, r, c, dr, dc, de, RunEnd(g, n, r, c, dr, dc, k), mover) == true
    decreases n - k, 0
  {
    forall a | PastEnemy(a, g, G, n, r, c, dr, dc, de, k + 1, mover) && In(n, a.r, a.c)
      ensures PastEnemy(Walk(a, n, dr, dc, true, mover), g, G, n, r, c, dr, dc, de, RunEnd(g, n, r, c, dr, dc, k + 1), mover) == true
    {
      ForcedRun(a, g, G, n, r, c, dr, dc, de, k + 1, mover);
    }
    ForcedOn(w, g, G, n, r, c, dr, dc, de, k, mover);
  }

  /** Where the walk past the enemy stops, the run of Black squares ends. */
  lemma ForcedStops(w: Walker, g: Grid, G: Grid, n: int, r: int, c: int, dr: int, dc: int, de: int, k: int, mover: bool)
    requires PastEnemy(w, g, G, n, r, c, dr, dc, de, k, mover) == true && In(n, w.r, w.c) && Stops(w, true)
    ensures Walk(w, n, dr, dc, true, mover) == w && RunEnd(g, n, r, c, dr, dc, k) == k
    ensures PastEnemy(Walk(w, n, dr, dc, true, mover), g, G, n, r, c, dr, dc, de, RunEnd(g, n, r, c, dr, dc, k), mover)
  {
    RaySquare(r, c, dr, dc, k, w.r, w.c);
    assert At(w.g, w.r, w.c) == At(g, w.r, w.c);
  }

  /** Where the walk past the enemy goes on, PastEnemy of the walk from the next square carries back one step. */
  lemma ForcedOn(w: Walker, g: Grid, G: Grid, n: int, r: int, c: int, dr: int, dc: int, de: int, k: int, mover: bool)
    requires PastEnemy(w, g, G, n, r, c, dr, dc, de, k, mover) == true && In(n, w.r, w.c) && G == Lifted(g, r, c, dr, dc, de)
    requires !Stops(w, true)
    requires forall a :: PastEnemy(a, g, G, n, r, c, dr, dc, de, k + 1, mover) && In(n, a.r, a.c) ==>
      PastEnemy(Walk(a, n, dr, dc, true, mover), g, G, n, r, c, dr, dc, de, RunEnd(g, n, r, c, dr, dc, k + 1), mover) == true
    ensures PastEnemy(Walk(w, n, dr, dc, true, mover), g, G, n, r, c, dr, dc, de, RunEnd(g, n, r, c, dr, dc, k), mover) == true
  {
    var a := ForcedMoves(w, g, G, n, r, c, dr, dc, de, k, mover);
    if In(n, a.r, a.c) {
      ForcedJoin(w, a, g, G, n, r, c, dr, dc, de, k, mover);
    }
  }

  /** One step of the walk past the enemy, with where it leaves the walk and the run. */
  lemma ForcedMoves(w: Walker, g: Grid, G: Grid, n: int, r: int, c: int, dr: int, dc: int, de: int, k: int, mover: bool)
    returns (a: Walker)
    requires PastEnemy(w, g, G, n, r, c, dr, dc, de, k, mover) && In(n, w.r, w.c) && G == Lifted(g, r, c, dr, dc, de)
    requires !Stops(w, true)
    ensures PastEnemy(a, g, G, n, r, c, dr, dc, de, k + 1, mover)
    ensures In(n, a.r, a.c) ==>
      (Walk(w, n, dr, dc, true, mover) == Walk(a, n, dr, dc, true, mover) &&
       RunEnd(g, n, r, c, dr, dc, k) == RunEnd(g, n, r, c, dr, dc, k + 1))
    ensures !In(n, a.r, a.c) ==>
      PastEnemy(Walk(w, n, dr, dc, true, mover), g, G, n, r, c, dr, dc, de, RunEnd(g, n, r, c, dr, dc, k), mover)
  {
    a := Advance(MarkHere(w, n, true, mover), n, dr, dc, true, mover);
    PastEnemyStep(w, g, G, n, r, c, dr, dc, de, k, mover);
    if !In(n, a.r, a.c) {
      assert Walk(w, n, dr, dc, true, mover) == a && RunEnd(g, n, r, c, dr, dc, k) == k + 1;
    }
  }

  /** Equal walks and equal run ends carry PastEnemy over. */
  lemma ForcedJoin(w: Walker, a: Walker, g: Grid, G: Grid, n: int, r: int, c: int, dr: int, dc: int, de: int, k: int, mover: bool)
    requires Unit(dr) && In(n, w.r, w.c) && In(n, a.r, a.c) && 0 <= r < n
    requires Walk(w, n, dr, dc, true, mover) == Walk(a, n, dr, dc, true, mover)
    requires RunEnd(g, n, r, c, dr, dc, k) == RunEnd(g, n, r, c, dr, dc, k + 1)
    requires PastEnemy(Walk(a, n, dr, dc, true, mover), g, G, n, r, c, dr, dc, de, RunEnd(g, n, r, c, dr, dc, k + 1), mover)
    ensures PastEnemy(Walk(w, n, dr, dc, true, mover), g, G, n, r, c, dr, dc, de, RunEnd(g, n, r, c, dr, dc, k), mover)
  {
  }

  // ---------------------------------------------------------------------------
  // The walk of a forced king before the enemy

  /** What is known at the head of the forced walk before any prey was met, standing k steps out. */
  ghost predicate Seeking(w: Walker, g: Grid, n: int, r: int, c: int, dr: int, dc: int, k: int, mover: bool) {
    Unit(dr) && Unit(dc) && IsSquare(g, n) && In(n, r, c) && Blocks(At(g, r, c), mover) && k >= 1 &&
    w.g == g && w.r == Step(r, dr, k) && w.c == Step(c, dc, k) && !w.enemyFound && !w.doubleFound &&
    In(n, w.r, w.c) && !Prey(At(g, w.r, w.c), mover) &&
    PreyDistance(g, n, r, c, dr, dc, 1, mover) == PreyDistance(g, n, r, c, dr, dc, k, mover)
  }

  /**
   * Where the forced walk ends up: with no prey on the ray, nothing marked and
   * no double; otherwise past the first prey, at the end of the Black run
   * behind it.
   */
  ghost predicate Sought(e: Walker, g: Grid, n: int, r: int, c: int, dr: int, dc: int, mover: bool)
    requires 0 <= r < n
  {
    var de := PreyDistance(g, n, r, c, dr, dc, 1, mover);
    if de == -1 then e.g == g && !e.doubleFound
    else PastEnemy(e, g, Lifted(g, r, c, dr, dc, de), n, r, c, dr, dc, de, RunEnd(g, n, r, c, dr, dc, de + 1), mover)
  }

  /** The forced walk from k steps out, before any prey, ends as Sought says. */
  lemma {:induction false} ForcedSeek(w: Walker, g: Grid, n: int, r: int, c: int, dr: int, dc: int, k: int, mover: bool)
    requires Seeking(w, g, n, r, c, dr, dc, k, mover) == true
    ensures Sought(Walk(w, n, dr, dc, true, mover), g, n, r, c, dr, dc, mover) == true
    decreases n - k
  {
    if !In(n, Step(r, dr, k + 1), Step(c, dc, k + 1)) {
      SeekEdge(w, g, n, r, c, dr, dc, k, mover);
    } else if Prey(At(g, Step(r, dr, k + 1), Step(c, dc, k + 1)), mover) {
      SeekFound(w, g, n, r, c, dr, dc, k, mover);
    } else {
      forall a | Seeking(a, g, n, r, c, dr, dc, k + 1, mover)
        ensures Sought(Walk(a, n, dr, dc, true, mover), g, n, r, c, dr, dc, mover) == true
      {
        ForcedSeek(a, g, n, r, c, dr, dc, k + 1, mover);
      }
      SeekOn(w, g, n, r, c, dr, dc, k, mover);
    }
  }

  /** The walk reaches the edge before any prey: nothing is marked. */
  lemma SeekEdge(w: Walker, g: Grid, n: int, r: int, c: int, dr: int, dc: int, k: int, mover: bool)
    requires Seeking(w, g, n, r, c, dr, dc, k, mover) == true
    requires !In(n, Step(r, dr, k + 1), Step(c, dc, k + 1))
    ensures Sought(Walk(w, n, dr, dc, true, mover), g, n, r, c, dr, dc, mover)
  {
    assert Walk(w, n, dr, dc, true, mover) == w.(r := w.r + dr, c := w.c + dc);
  }

  /** The walk steps over a square that is not prey. */
  lemma SeekOn(w: Walker, g: Grid, n: int, r: int, c: int, dr: int, dc: int, k: int, mover: bool)
    requires Seeking(w, g, n, r, c, dr, dc, k, mover) == true
    requires In(n, Step(r, dr, k + 1), Step(c, dc, k + 1)) && !Prey(At(g, Step(r, dr, k + 1), Step(c, dc, k + 1)), mover)
    requires forall a :: Seeking(a, g, n, r, c, dr, dc, k + 1, mover) ==>
      Sought(Walk(a, n, dr, dc, true, mover), g, n, r, c, dr, dc, mover)
    ensures Sought(Walk(w, n, dr, dc, true, mover), g, n, r, c, dr, dc, mover)
  {
    var a := w.(r := w.r + dr, c := w.c + dc);
    assert PreyDistance(g, n, r, c, dr, dc, k, mover) == PreyDistance(g, n, r, c, dr, dc, k + 1, mover);
    assert Seeking(a, g, n, r, c, dr, dc, k + 1, mover);
    assert MarkHere(w, n, true, mover) == w;
    assert Advance(w, n, dr, dc, true, mover) == a;
    assert Walk(w, n, dr, dc, true, mover) == Walk(a, n, dr, dc, true, mover);
  }

  /** The walk meets the first prey k + 1 steps out and goes on past it. */
  lemma SeekFound(w: Walker, g: Grid, n: int, r: int, c: int, dr: int, dc: int, k: int, mover: bool)
    requires Seeking(w, g, n, r, c, dr, dc, k, mover) == true
    requires In(n, Step(r, dr, k + 1), Step(c, dc, k + 1)) && Prey(At(g, Step(r, dr, k + 1), Step(c, dc, k + 1)), mover)
    ensures Sought(Walk(w, n, dr, dc, true, mover), g, n, r, c, dr, dc, mover)
  {
    var G := Lifted(g, r, c, dr, dc, k + 1);
    var a := SeekEnemy(w, g, n, r, c, dr, dc, k, mover);
    if In(n, a.r, a.c) {
      ForcedRun(a, g, G, n, r, c, dr, dc, k + 1, k + 2, mover);
    }
  }

  /** Stepping over the first prey: the part of the walk past the enemy starts. */
  lemma SeekEnemy(w: Walker, g: Grid, n: int, r: int, c: int, dr: int, dc: int, k: int, mover: bool)
    returns (a: Walker)
    requires Seeking(w, g, n, r, c, dr, dc, k, mover) == true
    requires In(n, Step(r, dr, k + 1), Step(c, dc, k + 1)) && Prey(At(g, Step(r, dr, k + 1), Step(c, dc, k + 1)), mover)
    ensures PreyDistance(g, n, r, c, dr, dc, 1, mover) == k + 1
    ensures PastEnemy(a, g, Lifted(g, r, c, dr, dc, k + 1), n, r, c, dr, dc, k + 1, k + 2, mover) == true
    ensures In(n, a.r, a.c) ==> Walk(w, n, dr, dc, true, mover) == Walk(a, n, dr, dc, true, mover)
    ensures !In(n, a.r, a.c) ==> Walk(w, n, dr, dc, true, mover) == a && RunEnd(g, n, r, c, dr, dc, k + 2) == k + 2
  {
    assert MarkHere(w, n, true, mover) == w;
    a := Advance(w, n, dr, dc, true, mover);
    assert PreyDistance(g, n, r, c, dr, dc, k + 1, mover) == k + 1;
    assert PreyDistance(g, n, r, c, dr, dc, k, mover) == k + 1;
    assert a == w.(r := Step(r, dr, k + 2), c := Step(c, dc, k + 2), enemyFound := true,
                   er := Step(r, dr, k + 1), ec := Step(c, dc, k + 1));
    PreyDistanceFirst(g, n, r, c, dr, dc, 1, mover);
    assert PastEnemy(a, g, Lifted(g, r, c, dr, dc, k + 1), n, r, c, dr, dc, k + 1, k + 2, mover);
  }

  // ---------------------------------------------------------------------------
  // The pruning after a double

  /**
   * The tile the pruning loop leaves at (i, j) once it has walked back to d
   * steps out: the stretch from the enemy up to d is still Red, the stretch
   * beyond d is Red exactly where the king could capture again, and the rest
   * is the grid with the enemy lifted.
   */
  ghost function PrunedTile(G: Grid, n: int, r: int, c: int, dr: int, dc: int, de: int, d: int, s: int,
                            mover: bool, i: int, j: int): Tile
  {
    if OnRay(r, c, dr, dc, i, j) && de < Dist(r, dr, i) <= d then Red
    else if OnRay(r, c, dr, dc, i, j) && d < Dist(r, dr, i) < s then
      (if DoubleAt(G, n, r, c, dr, dc, Dist(r, dr, i), mover) then Red else Black)
    else At(G, i, j)
  }

  /** What the pruning loop may rely on about the lifted grid G. */
  ghost predicate PruneFrame(G: Grid, n: int, r: int, c: int, dr: int, dc: int, de: int, s: int, mover: bool) {
    Unit(dr) && Unit(dc) && IsSquare(G, n) && In(n, r, c) && Blocks(At(G, r, c), mover) && 1 <= de < s &&
    At(G, Step(r, dr, de), Step(c, dc, de)) == Black && BlackRun(G, r, c, dr, dc, de + 1, s - 1) &&
    (forall d :: 1 <= d < de ==> !Prey(At(G, Step(r, dr, d), Step(c, dc, d)), mover))
  }

  /** The grid h is what the pruning loop has left once it has walked back to d steps out. */
  ghost predicate PrunedTo(h: Grid, G: Grid, n: int, r: int, c: int, dr: int, dc: int, de: int, d: int, s: int, mover: bool) {
    IsSquare(h, n) && forall i, j :: At(h, i, j) == PrunedTile(G, n, r, c, dr, dc, de, d, s, mover, i, j)
  }

  /** The ray of a grid the pruning loop has walked back to d: what canQueenCapture at d needs. */
  lemma PrunedRay(h: Grid, G: Grid, n: int, r: int, c: int, dr: int, dc: int, de: int, d: int, s: int, mover: bool)
    requires PruneFrame(G, n, r, c, dr, dc, de, s, mover) && de < d < s
    requires forall i, j :: At(h, i, j) == PrunedTile(G, n, r, c, dr, dc, de, d, s, mover, i, j)
    ensures At(h, r, c) == At(G, r, c) && At(h, Step(r, dr, d), Step(c, dc, d)) == Red
    ensures forall e :: 1 <= e < d ==>
      !Prey(At(G, Step(r, dr, e), Step(c, dc, e)), mover) && !Prey(At(h, Step(r, dr, e), Step(c, dc, e)), mover)
    ensures forall e :: d < e < s ==>
      Passable(At(G, Step(r, dr, e), Step(c, dc, e))) && Passable(At(h, Step(r, dr, e), Step(c, dc, e)))
    ensures forall e :: e >= s ==> At(G, Step(r, dr, e), Step(c, dc, e)) == At(h, Step(r, dr, e), Step(c, dc, e))
    ensures forall i, j :: Abs(i - r) != Abs(j - c) ==> At(G, i, j) == At(h, i, j)
  {
    RaySquare(r, c, dr, dc, d, Step(r, dr, d), Step(c, dc, d));
    forall e | 1 <= e
      ensures OnRay(r, c, dr, dc, Step(r, dr, e), Step(c, dc, e)) && Dist(r, dr, Step(r, dr, e)) == e
    {
      RaySquare(r, c, dr, dc, e, Step(r, dr, e), Step(c, dc, e));
    }
  }

  /**
   * The pruning loop from the square d steps out back to the enemy: each Red
   * square from which the king, with the enemy lifted, could not capture again
   * turns Black.
   */
  lemma {:induction false} PruneRun(h: Grid, G: Grid, n: int, r: int, c: int, dr: int, dc: int,
                                    de: int, d: int, s: int, mover: bool)
    requires PruneFrame(G, n, r, c, dr, dc, de, s, mover) == true && de <= d < s
    requires PrunedTo(h, G, n, r, c, dr, dc, de, d, s, mover) == true
    ensures PrunedTo(PruneBack(h, n, Step(r, dr, d), Step(c, dc, d), dr, dc, mover), G, n, r, c, dr, dc, de, de, s, mover) == true
    decreases d, 1
  {
    if d > de {
      PruneRunOn(h, G, n, r, c, dr, dc, de, d, s, mover);
    } else {
      PruneAtEnemy(h, G, n, r, c, dr, dc, de, d, s, mover);
    }
  }

  /** The pruning loop on a square past the enemy: one step, then the rest of the way back. */
  lemma {:induction false} PruneRunOn(h: Grid, G: Grid, n: int, r: int, c: int, dr: int, dc: int,
                                      de: int, d: int, s: int, mover: bool)
    requires PruneFrame(G, n, r, c, dr, dc, de, s, mover) == true && de < d < s
    requires PrunedTo(h, G, n, r, c, dr, dc, de, d, s, mover) == true
    ensures PrunedTo(PruneBack(h, n, Step(r, dr, d), Step(c, dc, d), dr, dc, mover), G, n, r, c, dr, dc, de, de, s, mover) == true
    decreases d, 0
  {
    var h1 := PruneOne(h, G, n, r, c, dr, dc, de, d, s, mover);
    PruneRun(h1, G, n, r, c, dr, dc, de, d - 1, s, mover);
  }

  /** The pruning loop stops on the lifted enemy's square, which is Black. */
  lemma PruneAtEnemy(h: Grid, G: Grid, n: int, r: int, c: int, dr: int, dc: int, de: int, d: int, s: int, mover: bool)
    requires PruneFrame(G, n, r, c, dr, dc, de, s, mover) == true && d == de
    requires PrunedTo(h, G, n, r, c, dr, dc, de, de, s, mover) == true
    ensures PruneBack(h, n, Step(r, dr, d), Step(c, dc, d), dr, dc, mover) == h
    ensures PrunedTo(PruneBack(h, n, Step(r, dr, d), Step(c, dc, d), dr, dc, mover), G, n, r, c, dr, dc, de, de, s, mover) == true
  {
    RaySquare(r, c, dr, dc, de, Step(r, dr, de), Step(c, dc, de));
    assert At(h, Step(r, dr, de), Step(c, dc, de)) == Black;
  }

  /** The pruning loop at the square d steps out, past the enemy: it keeps the square Red exactly on a double. */
  lemma PruneOne(h: Grid, G: Grid, n: int, r: int, c: int, dr: int, dc: int,
                 de: int, d: int, s: int, mover: bool) returns (h1: Grid)
    requires PruneFrame(G, n, r, c, dr, dc, de, s, mover) == true && de < d < s
    requires PrunedTo(h, G, n, r, c, dr, dc, de, d, s, mover) == true
    ensures PrunedTo(h1, G, n, r, c, dr, dc, de, d - 1, s, mover) == true
    ensures PruneBack(h1, n, Step(r, dr, d - 1), Step(c, dc, d - 1), dr, dc, mover) ==
            PruneBack(h, n, Step(r, dr, d), Step(c, dc, d), dr, dc, mover)
  {
    var x, y := Step(r, dr, d), Step(c, dc, d);
    assert At(G, x, y) == Black;
    assert In(n, x, y);
    PrunedRay(h, G, n, r, c, dr, dc, de, d, s, mover);
    CaptureAtRunSquare(G, h, n, r, c, dr, dc, d, s, mover);
    var b := CanQueenCapture(h, n, x, y, mover);
    h1 := if b then h else Set(h, x, y, Black);
    PruneStep(h, h1, G, n, r, c, dr, dc, de, d, s, mover);
    PruneBackStep(h, h1, n, x, y, Step(r, dr, d - 1), Step(c, dc, d - 1), dr, dc, mover, b);
  }

  /** One square of the pruning loop moves the boundary of PrunedTile back by one. */
  lemma PruneStep(h: Grid, h1: Grid, G: Grid, n: int, r: int, c: int, dr: int, dc: int,
                  de: int, d: int, s: int, mover: bool)
    requires PruneFrame(G, n, r, c, dr, dc, de, s, mover) && de < d < s && IsSquare(h, n)
    requires In(n, Step(r, dr, d), Step(c, dc, d))
    requires forall i, j :: At(h, i, j) == PrunedTile(G, n, r, c, dr, dc, de, d, s, mover, i, j)
    requires var b := DoubleAt(G, n, r, c, dr, dc, d, mover);
             h1 == if b then h else Set(h, Step(r, dr, d), Step(c, dc, d), Black)
    ensures IsSquare(h1, n)
    ensures forall i, j :: At(h1, i, j) == PrunedTile(G, n, r, c, dr, dc, de, d - 1, s, mover, i, j)
  {
    forall i, j
      ensures At(h1, i, j) == PrunedTile(G, n, r, c, dr, dc, de, d - 1, s, mover, i, j)
    {
      RaySquare(r, c, dr, dc, d, i, j);
    }
  }

  // ---------------------------------------------------------------------------
  // What one forced direction marks

  /** No Red square on the ray from (r, c) in direction (dr, dc). */
  ghost predicate NoRedRay(g: Grid, r: int, c: int, dr: int, dc: int) {
    forall d :: 1 <= d ==> At(g, Step(r, dr, d), Step(c, dc, d)) != Red
  }

  /**
   * The square (i, j) is a landing square of the forced king in direction
   * (dr, dc): it lies beyond the first prey on the ray, on the empty stretch
   * right behind it, and when a further capture can be made from some square
   * of that stretch (with the prey lifted), it is one of those squares.
   */
  ghost predicate ForcedMark(g: Grid, n: int, r: int, c: int, dr: int, dc: int, mover: bool, i: int, j: int)
    requires 0 <= r < n
  {
    var de := PreyDistance(g, n, r, c, dr, dc, 1, mover);
    var s := RunEnd(g, n, r, c, dr, dc, de + 1);
    var G := Lifted(g, r, c, dr, dc, de);
    de != -1 && OnRay(r, c, dr, dc, i, j) && de < Dist(r, dr, i) < s &&
    (AnyDouble(G, n, r, c, dr, dc, de, s, mover) ==> DoubleAt(G, n, r, c, dr, dc, Dist(r, dr, i), mover))
  }

  /** The grid a direction of the forced walk leaves behind: pruned when a double was found. */
  function Settled(e: Walker, n: int, dr: int, dc: int, mover: bool): Grid
    requires Unit(dr)
  {
    if e.doubleFound then Prune(e.g, n, e.r, e.c, dr, dc, e.er, e.ec, mover) else e.g
  }

  /** A forced walk that ended as Sought says leaves exactly the ForcedMark squares Red. */
  lemma ForcedEnd(e: Walker, g: Grid, n: int, r: int, c: int, dr: int, dc: int, mover: bool)
    requires Unit(dr) && Unit(dc) && IsSquare(g, n) && In(n, r, c) && Blocks(At(g, r, c), mover)
    requires NoRedRay(g, r, c, dr, dc) && Sought(e, g, n, r, c, dr, dc, mover) == true
    ensures IsSquare(Settled(e, n, dr, dc, mover), n)
    ensures forall i, j :: At(Settled(e, n, dr, dc, mover), i, j) ==
                           if ForcedMark(g, n, r, c, dr, dc, mover, i, j) then Red else At(g, i, j)
  {
    var de := PreyDistance(g, n, r, c, dr, dc, 1, mover);
    if de == -1 {
    } else if !e.doubleFound {
      ForcedSingle(e, g, n, r, c, dr, dc, de, mover);
    } else {
      ForcedDouble(e, g, n, r, c, dr, dc, de, mover);
    }
  }

  /** Without a double the whole stretch behind the prey stays Red. */
  lemma ForcedSingle(e: Walker, g: Grid, n: int, r: int, c: int, dr: int, dc: int, de: int, mover: bool)
    requires 0 <= r < n && de == PreyDistance(g, n, r, c, dr, dc, 1, mover) && de != -1 && !e.doubleFound
    requires PastEnemy(e, g, Lifted(g, r, c, dr, dc, de), n, r, c, dr, dc, de, RunEnd(g, n, r, c, dr, dc, de + 1), mover) == true
    ensures forall i, j :: At(e.g, i, j) == if ForcedMark(g, n, r, c, dr, dc, mover, i, j) then Red else At(g, i, j)
  {
  }

  /** What is known when the forced walk ended past the prey at distance de with a double found. */
  ghost predicate DoubleCase(e: Walker, g: Grid, n: int, r: int, c: int, dr: int, dc: int, de: int, mover: bool) {
    Unit(dr) && Unit(dc) && IsSquare(g, n) && In(n, r, c) && Blocks(At(g, r, c), mover) && NoRedRay(g, r, c, dr, dc) &&
    de == PreyDistance(g, n, r, c, dr, dc, 1, mover) && de != -1 && e.doubleFound &&
    PastEnemy(e, g, Lifted(g, r, c, dr, dc, de), n, r, c, dr, dc, de, RunEnd(g, n, r, c, dr, dc, de + 1), mover)
  }

  /** With a double the pruning keeps Red only the squares of the stretch that allow a further capture. */
  lemma ForcedDouble(e: Walker, g: Grid, n: int, r: int, c: int, dr: int, dc: int, de: int, mover: bool)
    requires DoubleCase(e, g, n, r, c, dr, dc, de, mover) == true
    ensures IsSquare(Prune(e.g, n, e.r, e.c, dr, dc, e.er, e.ec, mover), n)
    ensures forall i, j :: At(Prune(e.g, n, e.r, e.c, dr, dc, e.er, e.ec, mover), i, j) ==
                           if ForcedMark(g, n, r, c, dr, dc, mover, i, j) then Red else At(g, i, j)
  {
    var s := RunEnd(g, n, r, c, dr, dc, de + 1);
    var G := Lifted(g, r, c, dr, dc, de);
    var g1 := Set(e.g, e.er, e.ec, Black);
    LiftedFrame(e, g, n, r, c, dr, dc, de, mover);
    PruneRun(g1, G, n, r, c, dr, dc, de, s - 1, s, mover);
    var h := PruneBack(g1, n, Step(r, dr, s - 1), Step(c, dc, s - 1), dr, dc, mover);
    PruneAfterRun(e, g1, h, n, r, c, dr, dc, s, mover);
    PrunedRestored(e, g, h, n, r, c, dr, dc, de, mover);
  }

  /** Prune, for a walk that stopped one square past the last Red square s - 1 steps out. */
  lemma PruneAfterRun(e: Walker, g1: Grid, h: Grid, n: int, r: int, c: int, dr: int, dc: int, s: int, mover: bool)
    requires Unit(dr) && g1 == Set(e.g, e.er, e.ec, Black) && (!In(n, e.r, e.c) || At(g1, e.r, e.c) != Red)
    requires e.r - dr == Step(r, dr, s - 1) && e.c - dc == Step(c, dc, s - 1)
    requires h == PruneBack(g1, n, Step(r, dr, s - 1), Step(c, dc, s - 1), dr, dc, mover)
    ensures Prune(e.g, n, e.r, e.c, dr, dc, e.er, e.ec, mover) == Set(h, e.er, e.ec, At(e.g, e.er, e.ec))
  {
    PruneParts(e.g, g1, h, Set(h, e.er, e.ec, At(e.g, e.er, e.ec)), n, e.r, e.c,
               Step(r, dr, s - 1), Step(c, dc, s - 1), dr, dc, e.er, e.ec, At(e.g, e.er, e.ec), mover);
  }

  /** The grid the pruning starts from: the stretch Red, the enemy lifted, and the walk stopped off the Red stretch. */
  lemma LiftedFrame(e: Walker, g: Grid, n: int, r: int, c: int, dr: int, dc: int, de: int, mover: bool)
    requires DoubleCase(e, g, n, r, c, dr, dc, de, mover) == true
    ensures var s := RunEnd(g, n, r, c, dr, dc, de + 1);
            var G := Lifted(g, r, c, dr, dc, de);
            PruneFrame(G, n, r, c, dr, dc, de, s, mover) == true && de <= s - 1 &&
            PrunedTo(Set(e.g, e.er, e.ec, Black), G, n, r, c, dr, dc, de, s - 1, s, mover) == true &&
            (!In(n, e.r, e.c) || At(Set(e.g, e.er, e.ec, Black), e.r, e.c) != Red) &&
            e.r - dr == Step(r, dr, s - 1) && e.c - dc == Step(c, dc, s - 1)
  {
    var s := RunEnd(g, n, r, c, dr, dc, de + 1);
    var G := Lifted(g, r, c, dr, dc, de);
    LiftedRun(g, n, r, c, dr, dc, de, s, mover);
    LiftedStart(e.g, g, n, r, c, dr, dc, de, s, mover);
    assert At(g, e.r, e.c) != Red;
    RaySquare(r, c, dr, dc, s, e.r, e.c);
  }

  /** The marked grid with the prey lifted is where the pruning loop starts, one square before the walk's end. */
  lemma LiftedStart(h: Grid, g: Grid, n: int, r: int, c: int, dr: int, dc: int, de: int, s: int, mover: bool)
    requires Unit(dr) && Unit(dc) && 1 <= de < s && IsSquare(h, n) && IsSquare(g, n) && In(n, Step(r, dr, de), Step(c, dc, de))
    requires RedBetween(h, g, r, c, dr, dc, de, s)
    ensures PrunedTo(Set(h, Step(r, dr, de), Step(c, dc, de), Black), Lifted(g, r, c, dr, dc, de),
                     n, r, c, dr, dc, de, s - 1, s, mover)
  {
    forall i, j
      ensures At(Set(h, Step(r, dr, de), Step(c, dc, de), Black), i, j) ==
              PrunedTile(Lifted(g, r, c, dr, dc, de), n, r, c, dr, dc, de, s - 1, s, mover, i, j)
    {
      RaySquare(r, c, dr, dc, de, i, j);
    }
  }

  /** Lifting the prey de steps out leaves the ray as the pruning loop needs it. */
  lemma LiftedRun(g: Grid, n: int, r: int, c: int, dr: int, dc: int, de: int, s: int, mover: bool)
    requires Unit(dr) && Unit(dc) && IsSquare(g, n) && In(n, r, c) && Blocks(At(g, r, c), mover) && 1 <= de < s
    requires In(n, Step(r, dr, de), Step(c, dc, de)) && BlackRun(g, r, c, dr, dc, de + 1, s - 1)
    requires forall d :: 1 <= d < de ==> !Prey(At(g, Step(r, dr, d), Step(c, dc, d)), mover)
    ensures PruneFrame(Lifted(g, r, c, dr, dc, de), n, r, c, dr, dc, de, s, mover)
  {
  }

  /** Putting the enemy back after the pruning gives the ForcedMark picture. */
  lemma PrunedRestored(e: Walker, g: Grid, h: Grid, n: int, r: int, c: int, dr: int, dc: int, de: int, mover: bool)
    requires DoubleCase(e, g, n, r, c, dr, dc, de, mover) == true
    requires PrunedTo(h, Lifted(g, r, c, dr, dc, de), n, r, c, dr, dc, de, de, RunEnd(g, n, r, c, dr, dc, de + 1), mover) == true
    ensures IsSquare(Set(h, e.er, e.ec, At(e.g, e.er, e.ec)), n)
    ensures forall i, j :: At(Set(h, e.er, e.ec, At(e.g, e.er, e.ec)), i, j) ==
                           if ForcedMark(g, n, r, c, dr, dc, mover, i, j) then Red else At(g, i, j)
  {
    var s := RunEnd(g, n, r, c, dr, dc, de + 1);
    var G := Lifted(g, r, c, dr, dc, de);
    assert AnyDouble(G, n, r, c, dr, dc, de, s, mover) && BlackRun(g, r, c, dr, dc, de + 1, s - 1);
    assert e.er == Step(r, dr, de) && e.ec == Step(c, dc, de) && In(n, e.er, e.ec);
    RaySquare(r, c, dr, dc, de, e.er, e.ec);
    assert At(e.g, e.er, e.ec) == At(g, e.er, e.ec);
    assert IsSquare(h, n) && forall i, j :: At(h, i, j) == PrunedTile(G, n, r, c, dr, dc, de, de, s, mover, i, j);
    forall i, j
      ensures At(Set(h, e.er, e.ec, At(e.g, e.er, e.ec)), i, j) ==
              if ForcedMark(g, n, r, c, dr, dc, mover, i, j) then Red else At(g, i, j)
    {
      RestoredPoint(g, h, G, n, r, c, dr, dc, de, s, mover, i, j);
    }
  }

  /** PrunedRestored at one square. */
  lemma RestoredPoint(g: Grid, h: Grid, G: Grid, n: int, r: int, c: int, dr: int, dc: int, de: int, s: int, mover: bool, i: int, j: int)
    requires 0 <= r < n && Unit(dr) && Unit(dc) && de >= 1
    requires de == PreyDistance(g, n, r, c, dr, dc, 1, mover) && s == RunEnd(g, n, r, c, dr, dc, de + 1)
    requires G == Lifted(g, r, c, dr, dc, de)
    requires AnyDouble(G, n, r, c, dr, dc, de, s, mover) == true && BlackRun(g, r, c, dr, dc, de + 1, s - 1) == true
    requires IsSquare(h, n) && In(n, Step(r, dr, de), Step(c, dc, de))
    requires At(h, i, j) == PrunedTile(G, n, r, c, dr, dc, de, de, s, mover, i, j)
    ensures At(Set(h, Step(r, dr, de), Step(c, dc, de), At(g, Step(r, dr, de), Step(c, dc, de))), i, j) ==
            if ForcedMark(g, n, r, c, dr, dc, mover, i, j) then Red else At(g, i, j)
  {
    RaySquare(r, c, dr, dc, de, i, j);
    if OnRay(r, c, dr, dc, i, j) {
      RaySquare(r, c, dr, dc, Dist(r, dr, i), i, j);
      if de < Dist(r, dr, i) < s {
        assert BlackRun(g, r, c, dr, dc, de + 1, s - 1);
        assert At(g, i, j) == Black;
      }
    }
  }

  /**
   * One direction of turnRedQueenSquaresOn for a king that must capture: it
   * turns Red exactly the ForcedMark squares of that direction.
   */
  lemma DirMarksForced(g: Grid, n: int, r: int, c: int, q: int, mover: bool)
    requires IsSquare(g, n) && In(n, r, c) && 0 <= q < 4 && Blocks(At(g, r, c), mover)
    requires NoRedRay(g, r, c, DirRow(q), DirCol(q))
    ensures var h := DirMarks(g, n, r, c, q, true, mover);
      IsSquare(h, n) &&
      forall i, j :: At(h, i, j) == if ForcedMark(g, n, r, c, DirRow(q), DirCol(q), mover, i, j) then Red else At(g, i, j)
  {
    var dr, dc := DirRow(q), DirCol(q);
    if !In(n, r + dr, c + dc) {
      assert PreyDistance(g, n, r, c, dr, dc, 1, mover) == -1;
    } else if Prey(At(g, r + dr, c + dc), mover) {
      ForcedFromPrey(g, n, r, c, dr, dc, mover);
    } else {
      var w := StartWalker(g, r, c, dr, dc, true, mover);
      assert Seeking(w, g, n, r, c, dr, dc, 1, mover);
      ForcedSeek(w, g, n, r, c, dr, dc, 1, mover);
      ForcedEnd(Walk(w, n, dr, dc, true, mover), g, n, r, c, dr, dc, mover);
    }
  }

  /** A forced direction whose first square holds prey: the walk starts right behind it. */
  lemma ForcedFromPrey(g: Grid, n: int, r: int, c: int, dr: int, dc: int, mover: bool)
    requires Unit(dr) && Unit(dc) && IsSquare(g, n) && In(n, r, c) && Blocks(At(g, r, c), mover)
    requires NoRedRay(g, r, c, dr, dc) && In(n, r + dr, c + dc) && Prey(At(g, r + dr, c + dc), mover)
    ensures var w := StartWalker(g, r, c, dr, dc, true, mover);
      var h := if !In(n, w.r, w.c) then g else Settled(Walk(w, n, dr, dc, true, mover), n, dr, dc, mover);
      IsSquare(h, n) &&
      forall i, j :: At(h, i, j) == if ForcedMark(g, n, r, c, dr, dc, mover, i, j) then Red else At(g, i, j)
  {
    if !In(n, r + 2 * dr, c + 2 * dc) {
      ForcedPreyEdge(g, n, r, c, dr, dc, mover);
    } else {
      ForcedPreyOn(g, n, r, c, dr, dc, mover);
    }
  }

  /** ... where the square behind the prey is off the board: nothing is marked. */
  lemma ForcedPreyEdge(g: Grid, n: int, r: int, c: int, dr: int, dc: int, mover: bool)
    requires Unit(dr) && Unit(dc) && In(n, r, c) && In(n, r + dr, c + dc) && Prey(At(g, r + dr, c + dc), mover)
    requires !In(n, r + 2 * dr, c + 2 * dc)
    ensures forall i, j :: !ForcedMark(g, n, r, c, dr, dc, mover, i, j)
  {
    assert PreyDistance(g, n, r, c, dr, dc, 1, mover) == 1;
    assert RunEnd(g, n, r, c, dr, dc, 2) == 2;
  }

  /** ... where the square behind the prey is on the board: the walk goes on from there. */
  lemma ForcedPreyOn(g: Grid, n: int, r: int, c: int, dr: int, dc: int, mover: bool)
    requires Unit(dr) && Unit(dc) && IsSquare(g, n) && In(n, r, c) && Blocks(At(g, r, c), mover)
    requires NoRedRay(g, r, c, dr, dc) && In(n, r + dr, c + dc) && Prey(At(g, r + dr, c + dc), mover)
    requires In(n, r + 2 * dr, c + 2 * dc)
    ensures var h := Settled(Walk(StartWalker(g, r, c, dr, dc, true, mover), n, dr, dc, true, mover), n, dr, dc, mover);
      IsSquare(h, n) &&
      forall i, j :: At(h, i, j) == if ForcedMark(g, n, r, c, dr, dc, mover, i, j) then Red else At(g, i, j)
  {
    var w := StartWalker(g, r, c, dr, dc, true, mover);
    assert w == Walker(g, r + 2 * dr, c + 2 * dc, true, r + dr, c + dc, false);
    assert Step(r, dr, 1) == r + dr && Step(c, dc, 1) == c + dc && Step(r, dr, 2) == r + 2 * dr && Step(c, dc, 2) == c + 2 * dc;
    assert PreyDistance(g, n, r, c, dr, dc, 1, mover) == 1;
    var G := Lifted(g, r, c, dr, dc, 1);
    assert RedBetween(w.g, g, r, c, dr, dc, 1, 2) && !AnyDouble(G, n, r, c, dr, dc, 1, 2, mover);
    assert PastEnemy(w, g, G, n, r, c, dr, dc, 1, 2, mover);
    ForcedRun(w, g, G, n, r, c, dr, dc, 1, 2, mover);
    ForcedEnd(Walk(w, n, dr, dc, true, mover), g, n, r, c, dr, dc, mover);
  }

  // ---------------------------------------------------------------------------
  // The four forced directions together

  /** g and h agree along the ray in direction (dr, dc), at the king, and off the king's diagonals. */
  ghost predicate AgreeForRay(g: Grid, h: Grid, r: int, c: int, dr: int, dc: int) {
    At(g, r, c) == At(h, r, c) &&
    (forall d :: 1 <= d ==> At(g, Step(r, dr, d), Step(c, dc, d)) == At(h, Step(r, dr, d), Step(c, dc, d))) &&
    (forall i, j :: Abs(i - r) != Abs(j - c) ==> At(g, i, j) == At(h, i, j))
  }

  /** The look for prey reads only the ray. */
  lemma {:induction false} PreyDistanceSame(g: Grid, h: Grid, n: int, r: int, c: int, dr: int, dc: int, k: int, mover: bool)
    requires 0 <= r < n && k >= 1
    requires forall d :: k <= d ==> At(g, Step(r, dr, d), Step(c, dc, d)) == At(h, Step(r, dr, d), Step(c, dc, d))
    ensures PreyDistance(g, n, r, c, dr, dc, k, mover) == PreyDistance(h, n, r, c, dr, dc, k, mover)
    decreases n - k
  {
    if In(n, Step(r, dr, k), Step(c, dc, k)) && !Prey(At(g, Step(r, dr, k), Step(c, dc, k)), mover) {
      PreyDistanceSame(g, h, n, r, c, dr, dc, k + 1, mover);
    }
  }

  /** The end of the Black run reads only the ray. */
  lemma {:induction false} RunEndSame(g: Grid, h: Grid, n: int, r: int, c: int, dr: int, dc: int, k: int)
    requires 0 <= r < n
    requires forall d :: k <= d ==> At(g, Step(r, dr, d), Step(c, dc, d)) == At(h, Step(r, dr, d), Step(c, dc, d))
    ensures RunEnd(g, n, r, c, dr, dc, k) == RunEnd(h, n, r, c, dr, dc, k)
    decreases n - k
  {
    if In(n, Step(r, dr, k), Step(c, dc, k)) && At(g, Step(r, dr, k), Step(c, dc, k)) == Black {
      RunEndSame(g, h, n, r, c, dr, dc, k + 1);
    }
  }

  /** Every square from k up to the end of the run is Black. */
  lemma {:induction false} RunEndBlack(g: Grid, n: int, r: int, c: int, dr: int, dc: int, k: int)
    requires 0 <= r < n
    ensures BlackRun(g, r, c, dr, dc, k, RunEnd(g, n, r, c, dr, dc, k) - 1)
    decreases n - k
  {
    if In(n, Step(r, dr, k), Step(c, dc, k)) && At(g, Step(r, dr, k), Step(c, dc, k)) == Black {
      RunEndBlack(g, n, r, c, dr, dc, k + 1);
    }
  }

  /** Whether any square of the stretch allows a double depends on the squares one by one. */
  lemma {:induction false} AnyDoubleSame(G: Grid, H: Grid, n: int, r: int, c: int, dr: int, dc: int, lo: int, hi: int, mover: bool)
    requires forall t :: lo < t < hi ==> DoubleAt(G, n, r, c, dr, dc, t, mover) == DoubleAt(H, n, r, c, dr, dc, t, mover)
    ensures AnyDouble(G, n, r, c, dr, dc, lo, hi, mover) == AnyDouble(H, n, r, c, dr, dc, lo, hi, mover)
    decreases hi - lo
  {
    if hi > lo + 1 {
      AnyDoubleSame(G, H, n, r, c, dr, dc, lo, hi - 1, mover);
    }
  }

  /** The double test on the stretch reads only the ray and the squares off the king's diagonals. */
  lemma DoubleSame(g: Grid, h: Grid, n: int, r: int, c: int, dr: int, dc: int, de: int, t: int, mover: bool)
    requires Unit(dr) && Unit(dc) && IsSquare(g, n) && IsSquare(h, n) && In(n, r, c) && Blocks(At(g, r, c), mover)
    requires AgreeForRay(g, h, r, c, dr, dc)
    requires de == PreyDistance(g, n, r, c, dr, dc, 1, mover) && de != -1 && de < t < RunEnd(g, n, r, c, dr, dc, de + 1)
    ensures DoubleAt(Lifted(g, r, c, dr, dc, de), n, r, c, dr, dc, t, mover) ==
            DoubleAt(Lifted(h, r, c, dr, dc, de), n, r, c, dr, dc, t, mover)
  {
    if In(n, Step(r, dr, t), Step(c, dc, t)) {
      PreyDistanceFirst(g, n, r, c, dr, dc, 1, mover);
      RunEndBlack(g, n, r, c, dr, dc, de + 1);
      LiftedAgree(g, h, n, r, c, dr, dc, de, t, mover);
      CaptureAtRunSquare(Lifted(g, r, c, dr, dc, de), Lifted(h, r, c, dr, dc, de), n, r, c, dr, dc, t, t + 1, mover);
    }
  }

  /** With the prey lifted from both, two grids that agree for the ray look the same from the stretch. */
  lemma LiftedAgree(g: Grid, h: Grid, n: int, r: int, c: int, dr: int, dc: int, de: int, t: int, mover: bool)
    requires Unit(dr) && Unit(dc) && IsSquare(g, n) && IsSquare(h, n) && In(n, r, c) && 1 <= de < t
    requires AgreeForRay(g, h, r, c, dr, dc) && In(n, Step(r, dr, de), Step(c, dc, de))
    requires forall d :: 1 <= d < de ==> !Prey(At(g, Step(r, dr, d), Step(c, dc, d)), mover)
    requires BlackRun(g, r, c, dr, dc, de + 1, t - 1)
    ensures var G, H := Lifted(g, r, c, dr, dc, de), Lifted(h, r, c, dr, dc, de);
      At(G, r, c) == At(g, r, c) && At(H, r, c) == At(G, r, c) &&
      (forall d :: 1 <= d < t ==>
        !Prey(At(G, Step(r, dr, d), Step(c, dc, d)), mover) && !Prey(At(H, Step(r, dr, d), Step(c, dc, d)), mover)) &&
      (forall d :: d >= t + 1 ==> At(G, Step(r, dr, d), Step(c, dc, d)) == At(H, Step(r, dr, d), Step(c, dc, d))) &&
      (forall i, j :: Abs(i - r) != Abs(j - c) ==> At(G, i, j) == At(H, i, j))
  {
  }

  /** The forced marks of one direction read only that ray and the squares off the king's diagonals. */
  lemma ForcedSame(g: Grid, h: Grid, n: int, r: int, c: int, dr: int, dc: int, mover: bool)
    requires Unit(dr) && Unit(dc) && IsSquare(g, n) && IsSquare(h, n) && In(n, r, c) && Blocks(At(g, r, c), mover)
    requires AgreeForRay(g, h, r, c, dr, dc)
    ensures forall i, j :: ForcedMark(g, n, r, c, dr, dc, mover, i, j) == ForcedMark(h, n, r, c, dr, dc, mover, i, j)
  {
    PreyDistanceSame(g, h, n, r, c, dr, dc, 1, mover);
    var de := PreyDistance(g, n, r, c, dr, dc, 1, mover);
    if de != -1 {
      RunEndSame(g, h, n, r, c, dr, dc, de + 1);
      var s := RunEnd(g, n, r, c, dr, dc, de + 1);
      forall t | de < t < s
        ensures DoubleAt(Lifted(g, r, c, dr, dc, de), n, r, c, dr, dc, t, mover) ==
                DoubleAt(Lifted(h, r, c, dr, dc, de), n, r, c, dr, dc, t, mover)
      {
        DoubleSame(g, h, n, r, c, dr, dc, de, t, mover);
      }
      AnyDoubleSame(Lifted(g, r, c, dr, dc, de), Lifted(h, r, c, dr, dc, de), n, r, c, dr, dc, de, s, mover);
    }
  }

  /** No Red square on the king's diagonals. */
  ghost predicate NoRedDiagonals(g: Grid, r: int, c: int) {
    forall i, j :: Diagonal(r, c, i, j) ==> At(g, i, j) != Red
  }

  /** h is gp with the forced marks of direction q, as the marks on g define them, turned Red. */
  ghost predicate MarksFrom(h: Grid, gp: Grid, g: Grid, n: int, r: int, c: int, q: int, mover: bool) {
    0 <= r < n && IsSquare(h, n) &&
    forall i, j :: At(h, i, j) == if ForcedMark(g, n, r, c, DirRow(q), DirCol(q), mover, i, j) then Red else At(gp, i, j)
  }

  /**
   * The square (i, j) is Red after turnRedQueenSquaresOn for a king on
   * (r, c) that must capture: it is a forced landing square in the direction
   * that leads from the king to it.
   */
  ghost predicate KingCaptureMark(g: Grid, n: int, r: int, c: int, mover: bool, i: int, j: int)
    requires 0 <= r < n
  {
    Diagonal(r, c, i, j) && ForcedMark(g, n, r, c, Sign(i - r), Sign(j - c), mover, i, j)
  }

  /** Direction q of the forced marks, run on a grid gp that agrees with g along that ray. */
  lemma ForcedNext(g: Grid, gp: Grid, n: int, r: int, c: int, q: int, mover: bool)
    requires IsSquare(g, n) && IsSquare(gp, n) && In(n, r, c) && 0 <= q < 4 && Blocks(At(g, r, c), mover)
    requires NoRedDiagonals(g, r, c) && AgreeForRay(g, gp, r, c, DirRow(q), DirCol(q))
    ensures MarksFrom(DirMarks(gp, n, r, c, q, true, mover), gp, g, n, r, c, q, mover)
  {
    var dr, dc := DirRow(q), DirCol(q);
    forall d | 1 <= d
      ensures At(gp, Step(r, dr, d), Step(c, dc, d)) != Red
    {
      assert Diagonal(r, c, Step(r, dr, d), Step(c, dc, d));
    }
    DirMarksForced(gp, n, r, c, q, mover);
    ForcedSame(g, gp, n, r, c, dr, dc, mover);
  }

  /** The forced marks of direction p leave every other ray, the king and the squares off its diagonals alone. */
  lemma ForcedApart(h: Grid, gp: Grid, g: Grid, n: int, r: int, c: int, p: int, mover: bool)
    requires 0 <= p < 4 && MarksFrom(h, gp, g, n, r, c, p, mover)
    ensures forall q | 0 <= q < 4 && q != p :: AgreeForRay(gp, h, r, c, DirRow(q), DirCol(q))
  {
    forall q | 0 <= q < 4 && q != p
      ensures AgreeForRay(gp, h, r, c, DirRow(q), DirCol(q))
    {
      forall d | 1 <= d
        ensures !OnRay(r, c, DirRow(p), DirCol(p), Step(r, DirRow(q), d), Step(c, DirCol(q), d))
      {
        RaysApart(r, c, q, p, Step(r, DirRow(q), d), Step(c, DirCol(q), d));
      }
    }
  }

  /** Agreeing along a ray is transitive. */
  lemma AgreeTrans(g: Grid, g1: Grid, g2: Grid, r: int, c: int, dr: int, dc: int)
    requires AgreeForRay(g, g1, r, c, dr, dc) && AgreeForRay(g1, g2, r, c, dr, dc)
    ensures AgreeForRay(g, g2, r, c, dr, dc)
  {
  }

  /**
   * turnRedQueenSquaresOn for a king that must capture: a square turns Red
   * exactly when it is a forced landing square of the king (KingCaptureMark);
   * every other square keeps its tile.
   */
  lemma QueenMarksForced(g: Grid, n: int, r: int, c: int, mover: bool)
    requires IsSquare(g, n) && In(n, r, c) && Blocks(At(g, r, c), mover) && NoRedDiagonals(g, r, c)
    ensures var h := QueenMarks(g, n, r, c, true, mover);
      IsSquare(h, n) &&
      (forall i, j :: At(h, i, j) == if KingCaptureMark(g, n, r, c, mover, i, j) then Red else At(g, i, j)) &&
      (forall i, j :: NewRed(g, h, i, j) <==> KingCaptureMark(g, n, r, c, mover, i, j))
  {
    var g1 := DirMarks(g, n, r, c, 0, true, mover);
    var g2 := DirMarks(g1, n, r, c, 1, true, mover);
    var g3 := DirMarks(g2, n, r, c, 2, true, mover);
    var h := DirMarks(g3, n, r, c, 3, true, mover);
    ForcedNext(g, g, n, r, c, 0, mover);
    ForcedApart(g1, g, g, n, r, c, 0, mover);
    ForcedNext(g, g1, n, r, c, 1, mover);
    ForcedApart(g2, g1, g, n, r, c, 1, mover);
    AgreeTrans(g, g1, g2, r, c, DirRow(2), DirCol(2));
    AgreeTrans(g, g1, g2, r, c, DirRow(3), DirCol(3));
    ForcedNext(g, g2, n, r, c, 2, mover);
    ForcedApart(g3, g2, g, n, r, c, 2, mover);
    AgreeTrans(g, g2, g3, r, c, DirRow(3), DirCol(3));
    ForcedNext(g, g3, n, r, c, 3, mover);
    ForcedAll(g, g1, g2, g3, h, n, r, c, mover);
  }

  /** The four directions' forced marks, composed at every square. */
  lemma ForcedAll(g: Grid, g1: Grid, g2: Grid, g3: Grid, h: Grid, n: int, r: int, c: int, mover: bool)
    requires MarksFrom(g1, g, g, n, r, c, 0, mover) && MarksFrom(g2, g1, g, n, r, c, 1, mover)
    requires MarksFrom(g3, g2, g, n, r, c, 2, mover) && MarksFrom(h, g3, g, n, r, c, 3, mover)
    requires NoRedDiagonals(g, r, c)
    ensures forall i, j :: At(h, i, j) == if KingCaptureMark(g, n, r, c, mover, i, j) then Red else At(g, i, j)
    ensures forall i, j :: NewRed(g, h, i, j) <==> KingCaptureMark(g, n, r, c, mover, i, j)
  {
    forall i, j
      ensures At(h, i, j) == if KingCaptureMark(g, n, r, c, mover, i, j) then Red else At(g, i, j)
    {
      ForcedPoint(g, g1, g2, g3, h, n, r, c, mover, i, j);
    }
  }

  /** The four directions' forced marks, composed at one square. */
  lemma ForcedPoint(g: Grid, g1: Grid, g2: Grid, g3: Grid, h: Grid, n: int, r: int, c: int, mover: bool, i: int, j: int)
    requires MarksFrom(g1, g, g, n, r, c, 0, mover) && MarksFrom(g2, g1, g, n, r, c, 1, mover)
    requires MarksFrom(g3, g2, g, n, r, c, 2, mover) && MarksFrom(h, g3, g, n, r, c, 3, mover)
    ensures At(h, i, j) == if KingCaptureMark(g, n, r, c, mover, i, j) then Red else At(g, i, j)
  {
    if Diagonal(r, c, i, j) {
      var q := (if i > r then 0 else 2) + (if j > c then 0 else 1);
      assert DirRow(q) == Sign(i - r) && DirCol(q) == Sign(j - c);
      assert OnRay(r, c, DirRow(q), DirCol(q), i, j);
      forall p | 0 <= p < 4 && p != q
        ensures !ForcedMark(g, n, r, c, DirRow(p), DirCol(p), mover, i, j)
      {
        RaysApart(r, c, q, p, i, j);
        ForcedMarkOnRay(g, n, r, c, DirRow(p), DirCol(p), mover, i, j);
      }
    } else {
      forall p | 0 <= p < 4
        ensures !ForcedMark(g, n, r, c, DirRow(p), DirCol(p), mover, i, j)
      {
        ForcedMarkOnRay(g, n, r, c, DirRow(p), DirCol(p), mover, i, j);
      }
    }
  }

  /** A forced mark lies on its ray. */
  lemma ForcedMarkOnRay(g: Grid, n: int, r: int, c: int, dr: int, dc: int, mover: bool, i: int, j: int)
    requires 0 <= r < n
    ensures ForcedMark(g, n, r, c, dr, dc, mover, i, j) ==> OnRay(r, c, dr, dc, i, j)
  {
  }

  // ---------------------------------------------------------------------------
  // The victim of a capture onto a marked square

  /** The look for prey agrees on two grids that agree up to a distance D at which it has already stopped. */
  lemma {:induction false} PreyDistanceBefore(g: Grid, h: Grid, n: int, r: int, c: int, dr: int, dc: int,
                                              k: int, D: int, mover: bool)
    requires 0 <= r < n && 1 <= k
    requires forall d :: k <= d <= D ==> At(g, Step(r, dr, d), Step(c, dc, d)) == At(h, Step(r, dr, d), Step(c, dc, d))
    requires PreyDistance(g, n, r, c, dr, dc, k, mover) != -1 && PreyDistance(g, n, r, c, dr, dc, k, mover) <= D
    ensures PreyDistance(h, n, r, c, dr, dc, k, mover) == PreyDistance(g, n, r, c, dr, dc, k, mover)
    decreases n - k
  {
    if !Prey(At(g, Step(r, dr, k), Step(c, dc, k)), mover) {
      PreyDistanceBefore(g, h, n, r, c, dr, dc, k + 1, D, mover);
    }
  }

  /**
   * A capture by the king onto a square (tr, tc) its forced marks turned Red
   * has its victim strictly between the king and (tr, tc): the search from
   * the king towards (tr, tc), which CaptureWithQueen makes once the king
   * stands on (tr, tc), stops at prey before (tr, tc), and every other square
   * strictly between holds no prey.
   */
  lemma CaptureMarkVictim(g: Grid, n: int, r: int, c: int, mover: bool, tr: int, tc: int, t: Tile)
    requires IsSquare(g, n) && In(n, r, c) && KingCaptureMark(g, n, r, c, mover, tr, tc)
    ensures var dr, dc := Sign(tr - r), Sign(tc - c);
      var d := PreyDistance(Set(g, tr, tc, t), n, r, c, dr, dc, 1, mover);
      1 <= d < Abs(tr - r) && d == PreyDistance(g, n, r, c, dr, dc, 1, mover) &&
      In(n, Step(r, dr, d), Step(c, dc, d)) && Prey(At(g, Step(r, dr, d), Step(c, dc, d)), mover) &&
      forall k :: 1 <= k < Abs(tr - r) && k != d ==> !Prey(At(g, Step(r, dr, k), Step(c, dc, k)), mover)
  {
    var dr, dc := Sign(tr - r), Sign(tc - c);
    var de := PreyDistance(g, n, r, c, dr, dc, 1, mover);
    RaySquare(r, c, dr, dc, Abs(tr - r), tr, tc);
    PreyDistanceFirst(g, n, r, c, dr, dc, 1, mover);
    RunEndBlack(g, n, r, c, dr, dc, de + 1);
    forall d | 1 <= d <= de
      ensures At(g, Step(r, dr, d), Step(c, dc, d)) == At(Set(g, tr, tc, t), Step(r, dr, d), Step(c, dc, d))
    {
      RaySquare(r, c, dr, dc, d, tr, tc);
    }
    PreyDistanceBefore(g, Set(g, tr, tc, t), n, r, c, dr, dc, 1, de, mover);
  }
}
