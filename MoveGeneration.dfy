/** The moves of a side: each active piece's calculateLegalMoves, concatenated
    in the order of the side's piece list (Board.calculateLegalMoves). */
module MoveGeneration {
  import opened BoardUtils
  import opened Alliances
  import opened Pieces
  import opened Boards
  import opened Moves
  import PawnMoves
  import KnightMoves
  import SlidingMoves
  import KingMoves

  /** Dynamic dispatch of Piece.calculateLegalMoves on the piece's type. */
  function PieceLegalMoves(b: Board, piece: Piece): seq<Move>
    requires WellFormed(b) && IsValidTileCoord(piece.piecePosition)
  {
    match piece.pieceType
    case PAWN => PawnMoves.PawnLegalMoves(b, piece)
    case KNIGHT => KnightMoves.KnightLegalMoves(b, piece)
    case BISHOP => SlidingMoves.SlidingLegalMoves(b, piece)
    case ROOK => SlidingMoves.SlidingLegalMoves(b, piece)
    case QUEEN => SlidingMoves.SlidingLegalMoves(b, piece)
    case KING => KingMoves.KingLegalMoves(b, piece)
  }

  method CalculatePieceMoves(b: Board, piece: Piece) returns (moves: seq<Move>)
    requires WellFormed(b) && IsValidTileCoord(piece.piecePosition)
    ensures moves == PieceLegalMoves(b, piece)
  {
    match piece.pieceType
    case PAWN => moves := PawnMoves.CalculatePawnMoves(b, piece);
    case KNIGHT => moves := KnightMoves.CalculateKnightMoves(b, piece);
    case BISHOP => moves := SlidingMoves.CalculateSlidingMoves(b, piece);
    case ROOK => moves := SlidingMoves.CalculateSlidingMoves(b, piece);
    case QUEEN => moves := SlidingMoves.CalculateSlidingMoves(b, piece);
    case KING => moves := KingMoves.CalculateKingMoves(b, piece);
  }

  predicate OnBoard(pieces: seq<Piece>)
  {
    forall i :: 0 <= i < |pieces| ==> IsValidTileCoord(pieces[i].piecePosition)
  }

  /** The moves of the pieces, piece after piece. */
  function MovesOfPieces(b: Board, pieces: seq<Piece>): seq<Move>
    requires WellFormed(b) && OnBoard(pieces)
    decreases |pieces|
  {
    if |pieces| == 0 then []
    else MovesOfPieces(b, pieces[..|pieces| - 1]) + PieceLegalMoves(b, pieces[|pieces| - 1])
  }

  /** whiteStandardLegalMoves / blackStandardLegalMoves: the side's moves
      before castling is added. */
  function StandardMoves(b: Board, a: Alliance): seq<Move>
    requires WellFormed(b)
  {
    ActivePiecesOnBoard(b, a);
    MovesOfPieces(b, ActivePieces(b, a))
  }

  lemma ActivePiecesOnBoard(b: Board, a: Alliance)
    requires WellFormed(b)
    ensures OnBoard(ActivePieces(b, a))
  {
    ActivePiecesExact(b, a);
  }

  method CalculateLegalMoves(b: Board, pieces: seq<Piece>) returns (legalMoves: seq<Move>)
    requires WellFormed(b) && OnBoard(pieces)
    ensures legalMoves == MovesOfPieces(b, pieces)
  {
    legalMoves := [];
    var i := 0;
    while i < |pieces|
      invariant 0 <= i <= |pieces|
      invariant legalMoves == MovesOfPieces(b, pieces[..i])
    {
      var pieceMoves := CalculatePieceMoves(b, pieces[i]);
      assert pieces[..i + 1][..i] == pieces[..i];
      legalMoves := legalMoves + pieceMoves;
      i := i + 1;
    }
    assert pieces[..|pieces|] == pieces;
  }

  /** What every generated move of a piece satisfies: a real move of that
      piece on this board, from its square to a different square on the board
      that does not hold a piece of its own side. */
  predicate MoveOf(b: Board, piece: Piece, m: Move)
    requires WellFormed(b)
  {
    !m.NullMove? && m.board == b && m.movedPiece == piece && !IsCastleVariant(m) &&
    IsValidTileCoord(m.destinationCoord) && m.destinationCoord != piece.piecePosition &&
    !IsOwnOn(b, m.destinationCoord, piece.pieceAlliance)
  }

  lemma PieceMovesSound(b: Board, piece: Piece)
    requires WellFormed(b) && IsValidTileCoord(piece.piecePosition)
    ensures forall m :: m in PieceLegalMoves(b, piece) ==> MoveOf(b, piece, m)
  {
    var ms := PieceLegalMoves(b, piece);
    match piece.pieceType
    case PAWN =>
      PawnMoves.PawnMovesExact(b, piece);
      forall m | m in ms ensures MoveOf(b, piece, m) {
        assert DestinationCoord(m) in Destinations(ms);
      }
    case KNIGHT => KnightMoves.KnightMovesExact(b, piece);
    case KING => KingMoves.KingMovesExact(b, piece);
    case _ =>
      SlidingMoves.SlidingMovesExact(b, piece);
      forall m | m in ms ensures MoveOf(b, piece, m) {
        assert DestinationCoord(m) in Destinations(ms);
        SlidingMoves.SlidingLines(b, piece, m.destinationCoord);
      }
  }

  lemma {:induction false} MovesOfPiecesSound(b: Board, pieces: seq<Piece>)
    requires WellFormed(b) && OnBoard(pieces)
    ensures forall m :: m in MovesOfPieces(b, pieces) ==>
      exists i :: 0 <= i < |pieces| && MoveOf(b, pieces[i], m)
    decreases |pieces|
  {
    if |pieces| > 0 {
      var n := |pieces|;
      var front := pieces[..n - 1];
      MovesOfPiecesSound(b, front);
      PieceMovesSound(b, pieces[n - 1]);
      assert MovesOfPieces(b, pieces) == MovesOfPieces(b, front) + PieceLegalMoves(b, pieces[n - 1]);
      forall m | m in MovesOfPieces(b, pieces)
        ensures exists i :: 0 <= i < n && MoveOf(b, pieces[i], m)
      {
        if m in MovesOfPieces(b, front) {
          var i :| 0 <= i < n - 1 && MoveOf(b, front[i], m);
          assert front[i] == pieces[i];
        } else {
          assert MoveOf(b, pieces[n - 1], m);
        }
      }
    }
  }

  /** A side's standard moves are moves of its own pieces, on this board, to
      squares not held by its own side; none is a castle or the null move. */
  lemma StandardMovesSound(b: Board, a: Alliance)
    requires WellFormed(b)
    ensures forall m :: m in StandardMoves(b, a) ==>
      !m.NullMove? && m.movedPiece in ActivePieces(b, a) && MoveOf(b, m.movedPiece, m) &&
      m.movedPiece.pieceAlliance == a
  {
    var pieces := ActivePieces(b, a);
    ActivePiecesOnBoard(b, a);
    ActivePiecesExact(b, a);
    MovesOfPiecesSound(b, pieces);
  }

  /** Every move a piece generates appears in its side's standard moves. */
  lemma {:induction false} MovesOfPiecesComplete(b: Board, pieces: seq<Piece>, i: int)
    requires WellFormed(b) && OnBoard(pieces) && 0 <= i < |pieces|
    ensures forall m :: m in PieceLegalMoves(b, pieces[i]) ==> m in MovesOfPieces(b, pieces)
    decreases |pieces|
  {
    var n := |pieces|;
    var front := pieces[..n - 1];
    if i < n - 1 {
      MovesOfPiecesComplete(b, front, i);
      assert front[i] == pieces[i];
    }
    assert MovesOfPieces(b, pieces) == MovesOfPieces(b, front) + PieceLegalMoves(b, pieces[n - 1]);
  }
}
