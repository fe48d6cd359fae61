/**
 * Tile colours of the shashki board.
 *
 * The program folds square colour, piece identity, selection ("chosen"),
 * legal-destination marking (Red) and "captured during the current streak"
 * (Dead) into one enumeration. The constructors below keep the enumeration's
 * declaration order, because undoing a move converts between a plain piece and
 * its chosen variant by adding or subtracting 2 from the ordinal.
 *
 * White is the unplayable light square, Black the empty playable square.
 * The side to move is a boolean `turn` throughout: false is white, true is black.
 */
module Tiles {

  datatype Tile =
    | White
    | Black
    | WhitePawn
    | BlackPawn
    | WhitePawnChosen
    | BlackPawnChosen
    | Red
    | WhiteQueen
    | BlackQueen
    | WhiteQueenChosen
    | BlackQueenChosen
    | DeadWhite
    | DeadBlack

  /** Position of a tile in the enumeration's declaration order. */
  function Ordinal(t: Tile): (k: nat)
    ensures k < 13
  {
    match t
    case White => 0
    case Black => 1
    case WhitePawn => 2
    case BlackPawn => 3
    case WhitePawnChosen => 4
    case BlackPawnChosen => 5
    case Red => 6
    case WhiteQueen => 7
    case BlackQueen => 8
    case WhiteQueenChosen => 9
    case BlackQueenChosen => 10
    case DeadWhite => 11
    case DeadBlack => 12
  }

  /** The tile with a given ordinal. */
  function FromOrdinal(k: nat): (t: Tile)
    requires k < 13
    ensures Ordinal(t) == k
  {
    [White, Black, WhitePawn, BlackPawn, WhitePawnChosen, BlackPawnChosen, Red,
     WhiteQueen, BlackQueen, WhiteQueenChosen, BlackQueenChosen, DeadWhite, DeadBlack][k]
  }

  // Tiles of one side; `black` selects the side.
  function Pawn(black: bool): Tile { if black then BlackPawn else WhitePawn }
  function Queen(black: bool): Tile { if black then BlackQueen else WhiteQueen }
  function PawnChosen(black: bool): Tile { if black then BlackPawnChosen else WhitePawnChosen }
  function QueenChosen(black: bool): Tile { if black then BlackQueenChosen else WhiteQueenChosen }
  function Dead(black: bool): Tile { if black then DeadBlack else DeadWhite }

  /** A plain (not chosen) piece of the side that `mover` attacks: what a capture may take. */
  predicate Prey(t: Tile, mover: bool) {
    t == Pawn(!mover) || t == Queen(!mover)
  }

  predicate IsPlain(t: Tile) {
    t == WhitePawn || t == BlackPawn || t == WhiteQueen || t == BlackQueen
  }

  predicate IsChosen(t: Tile) {
    t == WhitePawnChosen || t == BlackPawnChosen || t == WhiteQueenChosen || t == BlackQueenChosen
  }

  predicate IsDead(t: Tile) { t == DeadWhite || t == DeadBlack }

  /** A man of side `black`, plain or chosen. */
  predicate IsMan(t: Tile, black: bool) { t == Pawn(black) || t == PawnChosen(black) }

  /** A king of side `black`, plain or chosen. */
  predicate IsKing(t: Tile, black: bool) { t == Queen(black) || t == QueenChosen(black) }

  /** A live piece of side `black`: what the piece counters count. */
  predicate IsPiece(t: Tile, black: bool) { IsMan(t, black) || IsKing(t, black) }

  /** An empty playable square in any of its three shades. */
  predicate IsVacant(t: Tile) { t == Black || t == Red || IsDead(t) }

  /** The chosen variant of a plain piece; every other tile is unchanged. */
  function ToChosen(t: Tile): (c: Tile)
    ensures IsPlain(t) ==> IsChosen(c)
    ensures !IsPlain(t) ==> c == t
  {
    match t
    case WhitePawn => WhitePawnChosen
    case BlackPawn => BlackPawnChosen
    case WhiteQueen => WhiteQueenChosen
    case BlackQueen => BlackQueenChosen
    case _ => t
  }

  /** The plain variant of a chosen piece; every other tile is unchanged. */
  function ToPlain(t: Tile): (p: Tile)
    ensures IsChosen(t) ==> IsPlain(p)
    ensures !IsChosen(t) ==> p == t
  {
    match t
    case WhitePawnChosen => WhitePawn
    case BlackPawnChosen => BlackPawn
    case WhiteQueenChosen => WhiteQueen
    case BlackQueenChosen => BlackQueen
    case _ => t
  }

  /**
   * The explicit mapping agrees with the ordinal arithmetic of the program:
   * a chosen piece is the plain piece's ordinal plus two, and the two maps
   * undo each other.
   */
  lemma ChosenIsOrdinalPlusTwo(t: Tile)
    ensures IsPlain(t) ==> Ordinal(ToChosen(t)) == Ordinal(t) + 2
    ensures IsChosen(t) ==> Ordinal(ToPlain(t)) == Ordinal(t) - 2
    ensures IsPlain(t) ==> ToPlain(ToChosen(t)) == t
    ensures IsChosen(t) ==> ToChosen(ToPlain(t)) == t
    ensures Occupy(ToChosen(t)) == Occupy(t) && Occupy(ToPlain(t)) == Occupy(t)
  {
    match t
    case White =>
    case Black =>
    case WhitePawn =>
    case BlackPawn =>
    case WhitePawnChosen =>
    case BlackPawnChosen =>
    case Red =>
    case WhiteQueen =>
    case BlackQueen =>
    case WhiteQueenChosen =>
    case BlackQueenChosen =>
    case DeadWhite =>
    case DeadBlack =>
  }

  /**
   * What a square holds once colours that only matter to the presentation
   * (chosen, Red) or to the current streak (Dead) are forgotten.
   */
  datatype Occupant = Unplayable | Empty | Man(black: bool) | King(black: bool)

  function Occupy(t: Tile): (o: Occupant)
    ensures o == Unplayable <==> t == White
    ensures o == Empty <==> IsVacant(t)
    ensures forall b :: o == Man(b) <==> IsMan(t, b)
    ensures forall b :: o == King(b) <==> IsKing(t, b)
  {
    match t
    case White => Unplayable
    case Black => Empty
    case Red => Empty
    case DeadWhite => Empty
    case DeadBlack => Empty
    case WhitePawn => Man(false)
    case WhitePawnChosen => Man(false)
    case BlackPawn => Man(true)
    case BlackPawnChosen => Man(true)
    case WhiteQueen => King(false)
    case WhiteQueenChosen => King(false)
    case BlackQueen => King(true)
    case BlackQueenChosen => King(true)
  }
}
