/**
 * The board as a value: an n-by-n grid of tiles, indexed [row][col].
 * Row 0 is black's home row, row n-1 white's; squares with row+col even are
 * the unplayable light squares.
 */
module Grids {
  import opened Tiles

  type Grid = seq<seq<Tile>>

  predicate IsSquare(g: Grid, n: int) {
    |g| == n && forall i :: 0 <= i < n ==> |g[i]| == n
  }

  predicate In(n: int, r: int, c: int) {
    0 <= r < n && 0 <= c < n
  }

  predicate Playable(r: int, c: int) { (r + c) % 2 == 1 }

  /** The tile at (r, c); off the board this reads as an unplayable square. */
  function At(g: Grid, r: int, c: int): Tile {
    if 0 <= r < |g| && 0 <= c < |g[r]| then g[r][c] else White
  }

  /** The grid with (r, c) recoloured; off the board nothing changes. */
  function Set(g: Grid, r: int, c: int, t: Tile): (h: Grid)
    ensures |h| == |g| && forall i :: 0 <= i < |g| ==> |h[i]| == |g[i]|
    ensures forall i, j :: At(h, i, j) ==
                           (if i == r && j == c && 0 <= r < |g| && 0 <= c < |g[r]| then t else At(g, i, j))
  {
    if 0 <= r < |g| && 0 <= c < |g[r]| then g[r := g[r][c := t]] else g
  }

  /** Recolouring two different squares in either order gives the same grid. */
  lemma SetCommutes(g: Grid, r1: int, c1: int, t1: Tile, r2: int, c2: int, t2: Tile)
    requires 0 <= r1 < |g| && 0 <= c1 < |g[r1]| && 0 <= r2 < |g| && 0 <= c2 < |g[r2]|
    requires r1 != r2 || c1 != c2
    ensures Set(Set(g, r1, c1, t1), r2, c2, t2) == Set(Set(g, r2, c2, t2), r1, c1, t1)
  {
    if r1 == r2 {
      assert g[r1][c1 := t1][c2 := t2] == g[r1][c2 := t2][c1 := t1];
    }
  }

  /** Putting a square's own tile back undoes a recolouring of it. */
  lemma SetBack(g: Grid, r: int, c: int, t: Tile)
    requires 0 <= r < |g| && 0 <= c < |g[r]|
    ensures Set(Set(g, r, c, t), r, c, g[r][c]) == g
  {
    assert g[r][c := t][c := g[r][c]] == g[r];
  }

  /** Two square grids that agree on every square are equal. */
  lemma SameGrid(g: Grid, h: Grid, n: int)
    requires IsSquare(g, n) && IsSquare(h, n)
    requires forall i, j :: 0 <= i < n && 0 <= j < n ==> g[i][j] == h[i][j]
    ensures g == h
  {
    forall i | 0 <= i < n
      ensures g[i] == h[i]
    {
      assert forall j :: 0 <= j < n ==> g[i][j] == h[i][j];
    }
  }

  // ---------------------------------------------------------------------------
  // Structural invariants of every reachable board

  /** Light squares are exactly the squares holding White. */
  predicate WellColoured(g: Grid, n: int)
    requires IsSquare(g, n)
  {
    forall i, j :: 0 <= i < n && 0 <= j < n ==> (g[i][j] == White <==> !Playable(i, j))
  }

  /**
   * No man stands on the row where it would have been crowned: white men are
   * crowned on row 0, black men on row n-1.
   */
  predicate NoManOnCrownRow(g: Grid, n: int)
    requires IsSquare(g, n)
  {
    n > 0 &&
    forall j :: 0 <= j < n ==> !IsMan(g[0][j], false) && !IsMan(g[n - 1][j], true)
  }

  /** The row on which a man of side `black` is crowned. */
  function CrownRow(n: int, black: bool): int { if black then n - 1 else 0 }

  /** The row step of a man's forward move. */
  function Forward(black: bool): int { if black then 1 else -1 }

  lemma ForwardStaysOnBoard(g: Grid, n: int, r: int, c: int, black: bool)
    requires IsSquare(g, n) && NoManOnCrownRow(g, n) && In(n, r, c) && IsMan(g[r][c], black)
    ensures 0 <= r + Forward(black) < n
  {
    assert !IsMan(g[0][c], false) && !IsMan(g[n - 1][c], true);
  }

  /** Two grids that hold the same pieces on the same squares. */
  predicate SameOccupants(g: Grid, h: Grid) {
    |g| == |h| &&
    forall i :: 0 <= i < |g| ==>
      (|g[i]| == |h[i]| && forall j :: 0 <= j < |g[i]| ==> Occupy(g[i][j]) == Occupy(h[i][j]))
  }

  predicate NoTile(g: Grid, t: Tile) {
    forall i, j :: 0 <= i < |g| && 0 <= j < |g[i]| ==> g[i][j] != t
  }

  predicate NoDead(g: Grid) { NoTile(g, DeadWhite) && NoTile(g, DeadBlack) }

  // ---------------------------------------------------------------------------
  // Whole-board recolourings

  /** Every Red playable square becomes Black (turnRedSquaresOff). */
  function MarksOff(g: Grid): (h: Grid)
    ensures |h| == |g| && forall i :: 0 <= i < |g| ==> |h[i]| == |g[i]|
  {
    seq(|g|, i requires 0 <= i < |g| =>
      seq(|g[i]|, j requires 0 <= j < |g[i]| =>
        if Playable(i, j) && g[i][j] == Red then Black else g[i][j]))
  }

  /** Every Dead playable square becomes Black (removeDeadTiles). */
  function RemoveDead(g: Grid): (h: Grid)
    ensures |h| == |g| && forall i :: 0 <= i < |g| ==> |h[i]| == |g[i]|
  {
    seq(|g|, i requires 0 <= i < |g| =>
      seq(|g[i]|, j requires 0 <= j < |g[i]| =>
        if Playable(i, j) && IsDead(g[i][j]) then Black else g[i][j]))
  }

  /** The tile at (a, b) once removeDeadTiles's scan has reached (i, j). */
  function ClearedTile(g: Grid, i: int, j: int, a: int, b: int): Tile
    requires 0 <= a < |g| && 0 <= b < |g[a]|
  {
    if (a < i || (a == i && b < j)) && Playable(a, b) && IsDead(g[a][b]) then Black else g[a][b]
  }

  lemma MarksOffClears(g: Grid, n: int)
    requires IsSquare(g, n) && WellColoured(g, n)
    ensures IsSquare(MarksOff(g), n) && WellColoured(MarksOff(g), n)
    ensures NoTile(MarksOff(g), Red) && SameOccupants(g, MarksOff(g))
    ensures forall i, j :: In(n, i, j) && g[i][j] != Red ==> MarksOff(g)[i][j] == g[i][j]
  {
  }

  /** MarksOff square by square: a playable Red square turns Black, every other square keeps its tile. */
  lemma MarksOffAt(g: Grid, i: int, j: int)
    ensures At(MarksOff(g), i, j) == if Playable(i, j) && At(g, i, j) == Red then Black else At(g, i, j)
  {
  }

  /** Clearing the marks never changes what stands where. */
  lemma MarksOffSameOccupants(g: Grid)
    ensures SameOccupants(g, MarksOff(g))
  {
  }

  /** Lifting the dead never changes what stands where. */
  lemma RemoveDeadSameOccupants(g: Grid)
    ensures SameOccupants(g, RemoveDead(g))
  {
  }

  lemma RemoveDeadClears(g: Grid, n: int)
    requires IsSquare(g, n) && WellColoured(g, n)
    ensures IsSquare(RemoveDead(g), n) && WellColoured(RemoveDead(g), n)
    ensures NoDead(RemoveDead(g)) && SameOccupants(g, RemoveDead(g))
    ensures forall i, j :: In(n, i, j) && !IsDead(g[i][j]) ==> RemoveDead(g)[i][j] == g[i][j]
  {
  }

  // ---------------------------------------------------------------------------
  // Census: what the piece and king counters count

  datatype Census = Pieces(black: bool) | Kings(black: bool)

  predicate Counts(t: Tile, k: Census) {
    match k
    case Pieces(b) => IsPiece(t, b)
    case Kings(b) => IsKing(t, b)
  }

  /** How many of the first m tiles of a row the census counts. */
  function CountRowTo(row: seq<Tile>, k: Census, m: int): (r: nat)
    requires 0 <= m <= |row|
    ensures r <= m
  {
    if m == 0 then 0 else CountRowTo(row, k, m - 1) + (if Counts(row[m - 1], k) then 1 else 0)
  }

  function CountRow(row: seq<Tile>, k: Census): nat {
    CountRowTo(row, k, |row|)
  }

  /** How many tiles of the first m rows the census counts. */
  function CountTo(g: Grid, k: Census, m: int): nat
    requires 0 <= m <= |g|
  {
    if m == 0 then 0 else CountTo(g, k, m - 1) + CountRow(g[m - 1], k)
  }

  function Count(g: Grid, k: Census): nat {
    CountTo(g, k, |g|)
  }

  lemma {:induction false} CountRowToSet(row: seq<Tile>, j: int, t: Tile, k: Census, m: int)
    requires 0 <= j < |row| && 0 <= m <= |row|
    ensures CountRowTo(row[j := t], k, m) + (if j < m && Counts(row[j], k) then 1 else 0)
         == CountRowTo(row, k, m) + (if j < m && Counts(t, k) then 1 else 0)
  {
    if m > 0 {
      CountRowToSet(row, j, t, k, m - 1);
    }
  }

  lemma {:induction false} CountToSet(g: Grid, r: int, c: int, t: Tile, k: Census, m: int)
    requires 0 <= r < |g| && 0 <= c < |g[r]| && 0 <= m <= |g|
    ensures CountTo(g[r := g[r][c := t]], k, m) + (if r < m && Counts(g[r][c], k) then 1 else 0)
         == CountTo(g, k, m) + (if r < m && Counts(t, k) then 1 else 0)
  {
    if m > 0 {
      CountToSet(g, r, c, t, k, m - 1);
      if m - 1 == r {
        CountRowToSet(g[r], c, t, k, |g[r]|);
      }
    }
  }

  /** Recolouring one square moves the count by the difference of the two colours. */
  lemma CountSet(g: Grid, r: int, c: int, t: Tile, k: Census)
    requires 0 <= r < |g| && 0 <= c < |g[r]|
    ensures Count(Set(g, r, c, t), k) + (if Counts(g[r][c], k) then 1 else 0)
         == Count(g, k) + (if Counts(t, k) then 1 else 0)
  {
    CountToSet(g, r, c, t, k, |g|);
  }

  lemma {:induction false} CountRowToSameOccupants(a: seq<Tile>, b: seq<Tile>, k: Census, m: int)
    requires |a| == |b| && 0 <= m <= |a| && forall j :: 0 <= j < |a| ==> Occupy(a[j]) == Occupy(b[j])
    ensures CountRowTo(a, k, m) == CountRowTo(b, k, m)
  {
    if m > 0 {
      CountRowToSameOccupants(a, b, k, m - 1);
      assert Occupy(a[m - 1]) == Occupy(b[m - 1]);
    }
  }

  lemma {:induction false} CountToSameOccupants(g: Grid, h: Grid, k: Census, m: int)
    requires SameOccupants(g, h) && 0 <= m <= |g|
    ensures CountTo(g, k, m) == CountTo(h, k, m)
  {
    if m > 0 {
      CountToSameOccupants(g, h, k, m - 1);
      CountRowToSameOccupants(g[m - 1], h[m - 1], k, |g[m - 1]|);
    }
  }

  /** The census only sees occupants: marks, selection and dead tiles do not count. */
  lemma CountSameOccupants(g: Grid, h: Grid, k: Census)
    requires SameOccupants(g, h)
    ensures Count(g, k) == Count(h, k)
  {
    CountToSameOccupants(g, h, k, |g|);
  }

  /** Recolouring one square, for every kind of census at once. */
  lemma CountSetAll(g: Grid, r: int, c: int, t: Tile)
    requires 0 <= r < |g| && 0 <= c < |g[r]|
    ensures forall k :: Count(Set(g, r, c, t), k) ==
                        Count(g, k) - (if Counts(g[r][c], k) then 1 else 0) + (if Counts(t, k) then 1 else 0)
  {
    forall k
      ensures Count(Set(g, r, c, t), k) ==
              Count(g, k) - (if Counts(g[r][c], k) then 1 else 0) + (if Counts(t, k) then 1 else 0)
    {
      CountSet(g, r, c, t, k);
    }
  }

  /** Grids with the same occupants agree on shape, colouring, crown rows and every census. */
  lemma SameOccupantsKeeps(g: Grid, h: Grid, n: int)
    requires IsSquare(g, n) && SameOccupants(g, h)
    ensures IsSquare(h, n)
    ensures WellColoured(g, n) ==> WellColoured(h, n)
    ensures NoManOnCrownRow(g, n) ==> NoManOnCrownRow(h, n)
    ensures forall k :: Count(g, k) == Count(h, k)
  {
    forall k
      ensures Count(g, k) == Count(h, k)
    {
      CountSameOccupants(g, h, k);
    }
    if NoManOnCrownRow(g, n) {
      forall j | 0 <= j < n
        ensures !IsMan(h[0][j], false) && !IsMan(h[n - 1][j], true)
      {
        assert Occupy(g[0][j]) == Occupy(h[0][j]) && Occupy(g[n - 1][j]) == Occupy(h[n - 1][j]);
      }
    }
    if WellColoured(g, n) {
      forall i, j | 0 <= i < n && 0 <= j < n
        ensures h[i][j] == White <==> !Playable(i, j)
      {
        assert Occupy(g[i][j]) == Occupy(h[i][j]);
      }
    }
  }
}
