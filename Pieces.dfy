/** Pieces are immutable (type, square, side, first-move flag) tuples. */
module Pieces {
  import opened Alliances

  datatype PieceType = PAWN | KNIGHT | BISHOP | ROOK | QUEEN | KING
  {
    /** Material value of the type. */
    function PieceValue(): int
    {
      match this
      case PAWN => 100
      case KNIGHT => 300
      case BISHOP => 300
      case ROOK => 500
      case QUEEN => 900
      case KING => 10000
    }

    /** The one-letter name the type prints as. */
    function Name(): string
    {
      match this
      case PAWN => "P"
      case KNIGHT => "N"
      case BISHOP => "B"
      case ROOK => "R"
      case QUEEN => "Q"
      case KING => "K"
    }

    predicate IsKing()
    {
      match this
      case KING => true
      case _ => false
    }

    predicate IsRook()
    {
      match this
      case ROOK => true
      case _ => false
    }
  }

  datatype Piece = Piece(pieceType: PieceType, piecePosition: int, pieceAlliance: Alliance, isFirstMove: bool)

  /** The two-argument constructors of every piece class: a piece not yet moved. */
  function NewPiece(pieceType: PieceType, pieceAlliance: Alliance, piecePosition: int): (p: Piece)
    ensures p.pieceType == pieceType && p.pieceAlliance == pieceAlliance
    ensures p.piecePosition == piecePosition && p.isFirstMove
  {
    Piece(pieceType, piecePosition, pieceAlliance, true)
  }

  /** Piece.equals: structural over all four fields. */
  predicate PieceEquals(p: Piece, other: Piece)
    ensures PieceEquals(p, other) <==> p == other
  {
    p.pieceAlliance == other.pieceAlliance && p.pieceType == other.pieceType &&
    p.piecePosition == other.piecePosition && p.isFirstMove == other.isFirstMove
  }

  function GetPieceValue(p: Piece): int
  {
    p.pieceType.PieceValue()
  }

  /** Each piece class prints as its type letter. */
  function PieceToString(p: Piece): string
  {
    p.pieceType.Name()
  }

  /** Pawn.getPromotionPiece: a Queen of the same side on the pawn's square,
      built with the three-argument constructor (first-move flag false). */
  function GetPromotionPiece(pawn: Piece): (q: Piece)
    ensures q.pieceType == QUEEN && q.pieceAlliance == pawn.pieceAlliance
    ensures q.piecePosition == pawn.piecePosition
  {
    Piece(QUEEN, pawn.piecePosition, pawn.pieceAlliance, false)
  }

  lemma PieceTypeTable(t: PieceType)
    ensures t.IsKing() <==> t == KING
    ensures t.IsRook() <==> t == ROOK
    ensures |t.Name()| == 1
    ensures t.PieceValue() == (if t == PAWN then 100 else if t == KNIGHT || t == BISHOP then 300
                              else if t == ROOK then 500 else if t == QUEEN then 900 else 10000)
  {
  }

  /** Distinct types have distinct letters. */
  lemma NamesDistinct(t: PieceType, u: PieceType)
    ensures t.Name() == u.Name() <==> t == u
  {
  }

  lemma PieceEqualsIsEquivalence(p: Piece, q: Piece, r: Piece)
    ensures PieceEquals(p, p)
    ensures PieceEquals(p, q) ==> PieceEquals(q, p)
    ensures PieceEquals(p, q) && PieceEquals(q, r) ==> PieceEquals(p, r)
  {
  }
}
