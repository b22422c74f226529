/** The two players of a board: their king, their legal moves (standard moves
    plus castles), and the check tests. Everything here reads the board only.

    Two facts of the Java code shape this module:
    - calculateAttacksOnTile loops over the list it is building, which starts
      empty, so it never finds an attack; isInCheck is therefore always false.
    - The Player constructor computes the castles before it assigns isInCheck,
      so the castle methods read the field's default, false, in any case. */
module Players {
  import opened Wrappers
  import opened BoardUtils
  import opened Alliances
  import opened Pieces
  import opened Boards
  import opened Moves
  import opened MoveGeneration

  // ---------------------------------------------------------------------------
  // calculateAttacksOnTile

  /** The opponent moves that end on piecePosition, as the method computes
      them: its for loop iterates over its own result list, which is empty
      when the loop starts, and never over opponentMoves, so the loop body
      never runs. */
  function AttacksOnTile(piecePosition: int, opponentMoves: seq<Move>): (attackMoves: seq<Move>)
    ensures forall m :: m in attackMoves ==> m in opponentMoves && DestinationCoord(m) == piecePosition
  {
    []
  }

  /** The scan misses every attack: even when an opponent move ends on the
      square, the result is empty. */
  lemma AttacksOnTileAsWritten(piecePosition: int, opponentMoves: seq<Move>, m: Move)
    requires m in opponentMoves && DestinationCoord(m) == piecePosition
    ensures m !in AttacksOnTile(piecePosition, opponentMoves)
  {
  }

  // ---------------------------------------------------------------------------
  // Castles

  /** The value of the isInCheck field while the castles are computed: the
      field has not been assigned yet. */
  const IN_CHECK_DURING_CONSTRUCTION: bool := false

  /** WhitePlayer.calculateKingCastles: king side (f1, g1 empty, an unmoved piece
      on h1 that is a Rook) first, then queen side (b1, c1, d1 empty, an unmoved
      Rook on a1). */
  function WhiteCastles(b: Board, opponentLegals: seq<Move>): seq<Move>
    requires WellFormed(b) && HasKing(b, WHITE)
  {
    var king := PlayerKing(b, WHITE);
    if king.isFirstMove && !IN_CHECK_DURING_CONSTRUCTION then
      var kingSide :=
        if !IsOccupied(b, 61) && !IsOccupied(b, 62) && IsOccupied(b, 63) && PieceOn(b, 63).isFirstMove &&
           AttacksOnTile(61, opponentLegals) == [] && AttacksOnTile(62, opponentLegals) == [] &&
           PieceOn(b, 63).pieceType.IsRook()
        then [KingSideCastleMove(b, king, 62, PieceOn(b, 63), 63, 61)]
        else [];
      var queenSide :=
        if !IsOccupied(b, 59) && !IsOccupied(b, 58) && !IsOccupied(b, 57) && IsOccupied(b, 56) &&
           PieceOn(b, 56).isFirstMove &&
           AttacksOnTile(58, opponentLegals) == [] && AttacksOnTile(59, opponentLegals) == [] &&
           PieceOn(b, 56).pieceType.IsRook()
        then [QueenSideCastleMove(b, king, 58, PieceOn(b, 56), 56, 59)]
        else [];
      kingSide + queenSide
    else []
  }

  /** BlackPlayer.calculateKingCastles. The king side does not ask whether the
      unmoved piece on h8 is a Rook before casting it to Rook: when it is not,
      the cast fails. */
  function BlackCastles(b: Board, opponentLegals: seq<Move>): Result<seq<Move>, Failure>
    requires WellFormed(b) && HasKing(b, BLACK)
  {
    var king := PlayerKing(b, BLACK);
    if king.isFirstMove && !IN_CHECK_DURING_CONSTRUCTION then
      var kingSide :=
        if !IsOccupied(b, 5) && !IsOccupied(b, 6) && IsOccupied(b, 7) && PieceOn(b, 7).isFirstMove &&
           AttacksOnTile(5, opponentLegals) == [] && AttacksOnTile(6, opponentLegals) == []
        then
          if PieceOn(b, 7).pieceType.IsRook() then Ok([KingSideCastleMove(b, king, 6, PieceOn(b, 7), 7, 5)])
          else Err(CastleRookNotARook)
        else Ok([]);
      var queenSide :=
        if !IsOccupied(b, 1) && !IsOccupied(b, 2) && !IsOccupied(b, 3) && IsOccupied(b, 0) &&
           PieceOn(b, 0).isFirstMove &&
           AttacksOnTile(2, opponentLegals) == [] && AttacksOnTile(3, opponentLegals) == [] &&
           PieceOn(b, 0).pieceType.IsRook()
        then [QueenSideCastleMove(b, king, 2, PieceOn(b, 0), 0, 3)]
        else [];
      if kingSide.Err? then Err(kingSide.error) else Ok(kingSide.value + queenSide)
    else Ok([])
  }

  /** A board the Board constructor finishes building players for: both sides
      have a King and Black's castle computation does not fail. */
  predicate Valid(b: Board)
  {
    WellFormed(b) && HasKing(b, WHITE) && HasKing(b, BLACK) &&
    BlackCastles(b, StandardMoves(b, WHITE)).Ok?
  }

  /** calculateKingCastles of the player for side a, given the opponent's
      standard moves. */
  function Castles(b: Board, a: Alliance): seq<Move>
    requires Valid(b)
  {
    if a == WHITE then WhiteCastles(b, StandardMoves(b, BLACK))
    else BlackCastles(b, StandardMoves(b, WHITE)).value
  }

  /** Player.legalMoves: the side's standard moves followed by its castles. */
  function LegalMoves(b: Board, a: Alliance): seq<Move>
    requires Valid(b)
  {
    StandardMoves(b, a) + Castles(b, a)
  }

  /** currentPlayer(): the player of the side to move. */
  function CurrentLegalMoves(b: Board): seq<Move>
    requires Valid(b)
  {
    LegalMoves(b, b.nextMoveMaker)
  }

  /** Player.isInCheck: some opponent move attacks the king's square. */
  predicate IsInCheck(b: Board, a: Alliance)
    requires Valid(b)
  {
    assert HasKing(b, a) by { assert a == WHITE || a == BLACK; }
    AttacksOnTile(PlayerKing(b, a).piecePosition, StandardMoves(b, Opponent(a))) != []
  }

  /** isCastled is false for every player. */
  predicate IsCastled(b: Board, a: Alliance)
  {
    false
  }

  // ---------------------------------------------------------------------------
  // What the castle computations promise

  /** The conditions under which the tables produce White's king-side castle. */
  predicate WhiteKingSideAllowed(b: Board)
    requires WellFormed(b) && HasKing(b, WHITE)
  {
    PlayerKing(b, WHITE).isFirstMove && !IsOccupied(b, 61) && !IsOccupied(b, 62) &&
    IsOccupied(b, 63) && PieceOn(b, 63).isFirstMove && PieceOn(b, 63).pieceType == ROOK
  }

  predicate WhiteQueenSideAllowed(b: Board)
    requires WellFormed(b) && HasKing(b, WHITE)
  {
    PlayerKing(b, WHITE).isFirstMove && !IsOccupied(b, 57) && !IsOccupied(b, 58) && !IsOccupied(b, 59) &&
    IsOccupied(b, 56) && PieceOn(b, 56).isFirstMove && PieceOn(b, 56).pieceType == ROOK
  }

  predicate BlackKingSideAllowed(b: Board)
    requires WellFormed(b) && HasKing(b, BLACK)
  {
    PlayerKing(b, BLACK).isFirstMove && !IsOccupied(b, 5) && !IsOccupied(b, 6) &&
    IsOccupied(b, 7) && PieceOn(b, 7).isFirstMove
  }

  predicate BlackQueenSideAllowed(b: Board)
    requires WellFormed(b) && HasKing(b, BLACK)
  {
    PlayerKing(b, BLACK).isFirstMove && !IsOccupied(b, 1) && !IsOccupied(b, 2) && !IsOccupied(b, 3) &&
    IsOccupied(b, 0) && PieceOn(b, 0).isFirstMove && PieceOn(b, 0).pieceType == ROOK
  }

  /** White's castles: the king-side castle exactly when its squares are free
      and an unmoved Rook stands on h1, then the queen-side castle exactly when
      b1-d1 are free and an unmoved Rook stands on a1. Neither the rook's side
      nor any attack on the squares the king crosses is looked at. */
  lemma WhiteCastlesExact(b: Board, opponentLegals: seq<Move>)
    requires WellFormed(b) && HasKing(b, WHITE)
    ensures var king := PlayerKing(b, WHITE);
      WhiteCastles(b, opponentLegals) ==
        (if WhiteKingSideAllowed(b) then [KingSideCastleMove(b, king, 62, PieceOn(b, 63), 63, 61)] else []) +
        (if WhiteQueenSideAllowed(b) then [QueenSideCastleMove(b, king, 58, PieceOn(b, 56), 56, 59)] else [])
  {
  }

  /** Black's castles fail exactly when the king-side squares are free and the
      unmoved piece on h8 is not a Rook; otherwise they mirror White's. */
  lemma BlackCastlesExact(b: Board, opponentLegals: seq<Move>)
    requires WellFormed(b) && HasKing(b, BLACK)
    ensures BlackCastles(b, opponentLegals).Err? <==>
      BlackKingSideAllowed(b) && PieceOn(b, 7).pieceType != ROOK
    ensures BlackCastles(b, opponentLegals).Err? ==> BlackCastles(b, opponentLegals).error == CastleRookNotARook
    ensures var king := PlayerKing(b, BLACK);
      BlackCastles(b, opponentLegals).Ok? ==>
      BlackCastles(b, opponentLegals).value ==
        (if BlackKingSideAllowed(b) then [KingSideCastleMove(b, king, 6, PieceOn(b, 7), 7, 5)] else []) +
        (if BlackQueenSideAllowed(b) then [QueenSideCastleMove(b, king, 2, PieceOn(b, 0), 0, 3)] else [])
  {
  }

  /** A castle of side a's unmoved king on this board: the rook is the unmoved
      Rook on its start square, the king lands on its home rank two files over, and
      the rook lands on the square the king crosses. */
  predicate CastleShaped(b: Board, a: Alliance, m: Move)
    requires WellFormed(b) && HasKing(b, a)
  {
    IsCastleVariant(m) && m.board == b && m.movedPiece == PlayerKing(b, a) &&
    m.movedPiece.isFirstMove &&
    IsValidTileCoord(m.castleRookStart) && IsOccupied(b, m.castleRookStart) &&
    m.castleRook == PieceOn(b, m.castleRookStart) && m.castleRook.pieceType == ROOK &&
    m.castleRook.isFirstMove &&
    m.destinationCoord == (if a == WHITE then 60 else 4) + (if m.KingSideCastleMove? then 2 else -2) &&
    (m.KingSideCastleMove? ==> m.castleRookDestination == m.destinationCoord - 1 &&
                               m.castleRookStart == m.destinationCoord + 1) &&
    (m.QueenSideCastleMove? ==> m.castleRookDestination == m.destinationCoord + 1 &&
                                m.castleRookStart == m.destinationCoord - 2)
  }

  /** A player's legal moves end with at most two castles of its own king. */
  lemma CastlesShape(b: Board, a: Alliance)
    requires Valid(b)
    ensures |Castles(b, a)| <= 2
    ensures forall m :: m in Castles(b, a) ==> CastleShaped(b, a, m)
  {
    if a == WHITE {
      WhiteCastlesShape(b, StandardMoves(b, BLACK));
    } else {
      BlackCastlesShape(b, StandardMoves(b, WHITE));
    }
  }

  lemma WhiteCastlesShape(b: Board, opponentLegals: seq<Move>)
    requires WellFormed(b) && HasKing(b, WHITE)
    ensures |WhiteCastles(b, opponentLegals)| <= 2
    ensures forall m :: m in WhiteCastles(b, opponentLegals) ==> CastleShaped(b, WHITE, m)
  {
    WhiteCastlesExact(b, opponentLegals);
  }

  lemma BlackCastlesShape(b: Board, opponentLegals: seq<Move>)
    requires WellFormed(b) && HasKing(b, BLACK) && BlackCastles(b, opponentLegals).Ok?
    ensures |BlackCastles(b, opponentLegals).value| <= 2
    ensures forall m :: m in BlackCastles(b, opponentLegals).value ==> CastleShaped(b, BLACK, m)
  {
    BlackCastlesExact(b, opponentLegals);
  }

  /** As written no player is ever in check, whatever the opponent threatens. */
  lemma NeverInCheck(b: Board, a: Alliance)
    requires Valid(b)
    ensures !IsInCheck(b, a)
  {
  }

  /** Player.getOpponent is the other side's player, and the two players'
      pieces are the board's two piece lists. */
  lemma PlayersArePartition(b: Board, s: int)
    requires Valid(b) && IsValidTileCoord(s) && IsOccupied(b, s)
    ensures PieceOn(b, s) in ActivePieces(b, PieceOn(b, s).pieceAlliance)
    ensures PieceOn(b, s) !in ActivePieces(b, Opponent(PieceOn(b, s).pieceAlliance))
  {
    ActivePiecesExact(b, WHITE);
    ActivePiecesExact(b, BLACK);
  }
}
