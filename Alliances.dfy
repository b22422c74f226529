/** The two sides. Every attribute is a fixed function of the value. */
module Alliances {
  import opened BoardUtils

  datatype Alliance = WHITE | BLACK

  /** getdirection: the sign of a pawn's advance in square numbers. */
  function Direction(a: Alliance): int
  {
    match a
    case WHITE => -1
    case BLACK => 1
  }

  function OppositeDirection(a: Alliance): (d: int)
    ensures d == -Direction(a)
  {
    match a
    case WHITE => 1
    case BLACK => -1
  }

  predicate IsWhite(a: Alliance)
  {
    match a
    case WHITE => true
    case BLACK => false
  }

  predicate IsBlack(a: Alliance)
  {
    match a
    case WHITE => false
    case BLACK => true
  }

  /** White promotes on the eighth rank (squares 0..7), Black on the first (56..63). */
  predicate IsPawnPromotionSquare(a: Alliance, position: int)
    requires IsValidTileCoord(position)
  {
    match a
    case WHITE => EighthRank(position)
    case BLACK => FirstRank(position)
  }

  /** choosePlayer: the white argument for WHITE, the black one for BLACK. */
  function ChoosePlayer<P>(a: Alliance, whitePlayer: P, blackPlayer: P): (p: P)
    ensures IsWhite(a) ==> p == whitePlayer
    ensures IsBlack(a) ==> p == blackPlayer
  {
    match a
    case WHITE => whitePlayer
    case BLACK => blackPlayer
  }

  /** The other side: the alliance of a player's getOpponent(). */
  function Opponent(a: Alliance): (o: Alliance)
    ensures o != a
  {
    match a
    case WHITE => BLACK
    case BLACK => WHITE
  }

  lemma DirectionTable(a: Alliance)
    ensures IsWhite(a) ==> Direction(a) == -1 && OppositeDirection(a) == 1
    ensures IsBlack(a) ==> Direction(a) == 1 && OppositeDirection(a) == -1
    ensures IsWhite(a) != IsBlack(a)
  {
  }

  lemma PromotionSquares(a: Alliance, position: int)
    requires IsValidTileCoord(position)
    ensures IsWhite(a) ==> (IsPawnPromotionSquare(a, position) <==> 0 <= position <= 7)
    ensures IsBlack(a) ==> (IsPawnPromotionSquare(a, position) <==> 56 <= position <= 63)
  {
  }
}
