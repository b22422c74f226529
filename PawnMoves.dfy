/** Pawn move generation. Four offsets scaled by the side's direction: 8 is the
    single push, 16 the double push from the start rank, 7 and 9 the diagonal
    captures (including en passant). Pushes and captures onto the last rank are
    wrapped in a promotion. */
module PawnMoves {
  import opened Wrappers
  import opened BoardUtils
  import opened Alliances
  import opened Pieces
  import opened Boards
  import opened Moves

  const CANDIDATE_MOVE_VECTOR_COORDINATES: seq<int> := [7, 8, 9, 16]

  /** The guard of the offset-7 branch: no capture across the h-file for
      White or across the a-file for Black. */
  predicate SevenAllowed(pos: int, a: Alliance)
    requires IsValidTileCoord(pos)
  {
    !((EighthColumn(pos) && IsWhite(a)) || (FirstColumn(pos) && IsBlack(a)))
  }

  /** The guard of the offset-9 branch, mirrored. */
  predicate NineAllowed(pos: int, a: Alliance)
    requires IsValidTileCoord(pos)
  {
    !((FirstColumn(pos) && IsWhite(a)) || (EighthColumn(pos) && IsBlack(a)))
  }

  /** The pawn's start rank: the second rank for White, the seventh for Black. */
  predicate OnStartRank(pos: int, a: Alliance)
  {
    (SeventhRank(pos) && IsBlack(a)) || (SecondRank(pos) && IsWhite(a))
  }

  /** A diagonal capture onto dest: an occupied square with an enemy piece gives
      an attack (promoted on the last rank); an empty square gives en passant
      when the board's en-passant pawn is an enemy on epSquare. */
  function CaptureCandidate(b: Board, pawn: Piece, dest: int, epSquare: int): seq<Move>
    requires WellFormed(b) && IsValidTileCoord(dest)
  {
    if IsOccupied(b, dest) then
      var pieceOnCandidate := PieceOn(b, dest);
      if pawn.pieceAlliance != pieceOnCandidate.pieceAlliance then
        if IsPawnPromotionSquare(pawn.pieceAlliance, dest) then
          [Promote(PawnAttackMove(b, pawn, dest, pieceOnCandidate))]
        else [PawnAttackMove(b, pawn, dest, pieceOnCandidate)]
      else []
    else if b.enPassantPawn.Some? && b.enPassantPawn.value.piecePosition == epSquare then
      if pawn.pieceAlliance != b.enPassantPawn.value.pieceAlliance then
        [PawnEnPassantAttackMove(b, pawn, dest, b.enPassantPawn.value)]
      else []
    else []
  }

  /** What one pass of the loop adds for one offset, branch for branch. */
  function PawnCandidate(b: Board, pawn: Piece, currentCandidateOffset: int): seq<Move>
    requires WellFormed(b) && IsValidTileCoord(pawn.piecePosition)
  {
    var pos := pawn.piecePosition;
    var a := pawn.pieceAlliance;
    var dest := pos + currentCandidateOffset * Direction(a);
    if !IsValidTileCoord(dest) then []
    else if currentCandidateOffset == 8 && !IsOccupied(b, dest) then
      if IsPawnPromotionSquare(a, dest) then [Promote(PawnMove(b, pawn, dest))]
      else [PawnMove(b, pawn, dest)]
    else if currentCandidateOffset == 16 && pawn.isFirstMove && OnStartRank(pos, a) then
      var skippedCoord := pos + Direction(a) * 8;
      if !IsOccupied(b, skippedCoord) && !IsOccupied(b, dest) then [PawnJump(b, pawn, dest)] else []
    else if currentCandidateOffset == 7 && SevenAllowed(pos, a) then
      CaptureCandidate(b, pawn, dest, pos + OppositeDirection(a))
    else if currentCandidateOffset == 9 && NineAllowed(pos, a) then
      CaptureCandidate(b, pawn, dest, pos - OppositeDirection(a))
    else []
  }

  function PawnMovesUpTo(b: Board, pawn: Piece, n: int): seq<Move>
    requires WellFormed(b) && IsValidTileCoord(pawn.piecePosition)
    requires 0 <= n <= |CANDIDATE_MOVE_VECTOR_COORDINATES|
  {
    if n == 0 then []
    else PawnMovesUpTo(b, pawn, n - 1) + PawnCandidate(b, pawn, CANDIDATE_MOVE_VECTOR_COORDINATES[n - 1])
  }

  function PawnLegalMoves(b: Board, pawn: Piece): seq<Move>
    requires WellFormed(b) && IsValidTileCoord(pawn.piecePosition)
  {
    PawnMovesUpTo(b, pawn, |CANDIDATE_MOVE_VECTOR_COORDINATES|)
  }

  method CalculatePawnMoves(b: Board, pawn: Piece) returns (legalMoves: seq<Move>)
    requires WellFormed(b) && IsValidTileCoord(pawn.piecePosition)
    ensures legalMoves == PawnLegalMoves(b, pawn)
  {
    legalMoves := [];
    var pos := pawn.piecePosition;
    var a := pawn.pieceAlliance;
    var i := 0;
    while i < |CANDIDATE_MOVE_VECTOR_COORDINATES|
      invariant 0 <= i <= |CANDIDATE_MOVE_VECTOR_COORDINATES|
      invariant legalMoves == PawnMovesUpTo(b, pawn, i)
    {
      var currentCandidateOffset := CANDIDATE_MOVE_VECTOR_COORDINATES[i];
      var candidateDestinationCoord := pos + currentCandidateOffset * Direction(a);
      ghost var added := PawnCandidate(b, pawn, currentCandidateOffset);
      assert PawnMovesUpTo(b, pawn, i + 1) == legalMoves + added;
      if !IsValidTileCoord(candidateDestinationCoord) {
        i := i + 1;
        continue;
      }
      if currentCandidateOffset == 8 && !GetTile(b, candidateDestinationCoord).IsTileOccupied() {
        if IsPawnPromotionSquare(a, candidateDestinationCoord) {
          legalMoves := legalMoves + [Promote(PawnMove(b, pawn, candidateDestinationCoord))];
        } else {
          legalMoves := legalMoves + [PawnMove(b, pawn, candidateDestinationCoord)];
        }
      } else if currentCandidateOffset == 16 && pawn.isFirstMove && OnStartRank(pos, a) {
        var skippedCoord := pos + Direction(a) * 8;
        if !GetTile(b, skippedCoord).IsTileOccupied() && !GetTile(b, candidateDestinationCoord).IsTileOccupied() {
          legalMoves := legalMoves + [PawnJump(b, pawn, candidateDestinationCoord)];
        }
      } else if currentCandidateOffset == 7 && SevenAllowed(pos, a) {
        legalMoves := legalMoves + CaptureCandidate(b, pawn, candidateDestinationCoord, pos + OppositeDirection(a));
      } else if currentCandidateOffset == 9 && NineAllowed(pos, a) {
        legalMoves := legalMoves + CaptureCandidate(b, pawn, candidateDestinationCoord, pos - OppositeDirection(a));
      }
      i := i + 1;
    }
  }

  // ---------------------------------------------------------------------------
  // What the generated moves mean

  /** The single push: the square one row ahead, empty. */
  predicate Push(b: Board, pawn: Piece, dest: int)
    requires WellFormed(b)
  {
    dest == pawn.piecePosition + 8 * Direction(pawn.pieceAlliance) && IsValidTileCoord(dest) &&
    !IsOccupied(b, dest)
  }

  /** The double push: an unmoved pawn on its start rank, both squares ahead empty. */
  predicate Jump(b: Board, pawn: Piece, dest: int)
    requires WellFormed(b)
  {
    var dir := Direction(pawn.pieceAlliance);
    dest == pawn.piecePosition + 16 * dir && IsValidTileCoord(dest) &&
    IsValidTileCoord(pawn.piecePosition + 8 * dir) &&
    pawn.isFirstMove && OnStartRank(pawn.piecePosition, pawn.pieceAlliance) &&
    !IsOccupied(b, pawn.piecePosition + 8 * dir) && !IsOccupied(b, dest)
  }

  /** A diagonal step forward: one file sideways and one row ahead, with no wrap. */
  predicate Diagonal(pos: int, dest: int, a: Alliance)
  {
    IsValidTileCoord(pos) && IsValidTileCoord(dest) &&
    FileDistance(pos, dest) == 1 && RowOf(dest) == RowOf(pos) + Direction(a)
  }

  predicate Capture(b: Board, pawn: Piece, dest: int)
    requires WellFormed(b)
  {
    Diagonal(pawn.piecePosition, dest, pawn.pieceAlliance) && IsEnemyOn(b, dest, pawn.pieceAlliance)
  }

  /** En passant: the diagonal square is empty and the board's en-passant pawn
      is an enemy standing beside the pawn, on the destination's file. */
  predicate EnPassant(b: Board, pawn: Piece, dest: int)
    requires WellFormed(b)
  {
    Diagonal(pawn.piecePosition, dest, pawn.pieceAlliance) && !IsOccupied(b, dest) &&
    b.enPassantPawn.Some? &&
    b.enPassantPawn.value.piecePosition == dest - 8 * Direction(pawn.pieceAlliance) &&
    b.enPassantPawn.value.pieceAlliance != pawn.pieceAlliance
  }

  predicate PawnReaches(b: Board, pawn: Piece, dest: int)
    requires WellFormed(b)
  {
    Push(b, pawn, dest) || Jump(b, pawn, dest) || Capture(b, pawn, dest) || EnPassant(b, pawn, dest)
  }

  /** Each kind of move arises from its own rule, and a push or capture is
      promoted exactly when it lands on the side's promotion rank. */
  predicate WellShaped(b: Board, pawn: Piece, m: Move)
    requires WellFormed(b)
  {
    !m.NullMove? && m.board == b && m.movedPiece == pawn && IsValidTileCoord(m.destinationCoord) &&
    var dest := m.destinationCoord;
    match m
    case PawnMove(_, _, _) => Push(b, pawn, dest) && !IsPawnPromotionSquare(pawn.pieceAlliance, dest)
    case PawnJump(_, _, _) => Jump(b, pawn, dest)
    case PawnAttackMove(_, _, _, attacked) =>
      Capture(b, pawn, dest) && attacked == PieceOn(b, dest) && !IsPawnPromotionSquare(pawn.pieceAlliance, dest)
    case PawnEnPassantAttackMove(_, _, _, attacked) =>
      EnPassant(b, pawn, dest) && attacked == b.enPassantPawn.value
    case PawnPromotion(_, _, _, inner) =>
      IsPawnPromotionSquare(pawn.pieceAlliance, dest) &&
      ((inner == PawnMove(b, pawn, dest) && Push(b, pawn, dest)) ||
       (Capture(b, pawn, dest) && inner == PawnAttackMove(b, pawn, dest, PieceOn(b, dest))))
    case _ => false
  }

  lemma PushCandidateSound(b: Board, pawn: Piece)
    requires WellFormed(b) && IsValidTileCoord(pawn.piecePosition)
    ensures |PawnCandidate(b, pawn, 8)| <= 1
    ensures forall m :: m in PawnCandidate(b, pawn, 8) ==> WellShaped(b, pawn, m)
    ensures forall d :: Push(b, pawn, d) ==> d in Destinations(PawnCandidate(b, pawn, 8))
  {
    var cand := PawnCandidate(b, pawn, 8);
    if |cand| == 1 {
      assert DestinationCoord(cand[0]) in Destinations(cand);
    }
  }

  lemma JumpCandidateSound(b: Board, pawn: Piece)
    requires WellFormed(b) && IsValidTileCoord(pawn.piecePosition)
    ensures |PawnCandidate(b, pawn, 16)| <= 1
    ensures forall m :: m in PawnCandidate(b, pawn, 16) ==> WellShaped(b, pawn, m)
    ensures forall d :: Jump(b, pawn, d) ==> d in Destinations(PawnCandidate(b, pawn, 16))
  {
    var cand := PawnCandidate(b, pawn, 16);
    if |cand| == 1 {
      assert DestinationCoord(cand[0]) in Destinations(cand);
    }
  }

  /** Offsets 7 and 9 scaled by the direction, with their guards, are exactly
      the forward diagonals that do not wrap. */
  lemma DiagonalOffsets(pos: int, a: Alliance, off: int)
    requires IsValidTileCoord(pos) && (off == 7 || off == 9)
    requires IsValidTileCoord(pos + off * Direction(a))
    ensures (if off == 7 then SevenAllowed(pos, a) else NineAllowed(pos, a)) <==>
      Diagonal(pos, pos + off * Direction(a), a)
  {
    var dir := Direction(a);
    if off == 7 {
      assert off * dir == 8 * dir - dir;
      OffsetGeometry(pos, dir, -dir);
    } else {
      assert off * dir == 8 * dir + dir;
      OffsetGeometry(pos, dir, dir);
    }
  }

  lemma DiagonalIsCandidate(pos: int, dest: int, a: Alliance)
    requires Diagonal(pos, dest, a)
    ensures dest == pos + 7 * Direction(a) || dest == pos + 9 * Direction(a)
  {
    assert dest - pos == 8 * (RowOf(dest) - RowOf(pos)) + (FileOf(dest) - FileOf(pos));
  }

  lemma CaptureCandidateSound(b: Board, pawn: Piece, off: int)
    requires WellFormed(b) && IsValidTileCoord(pawn.piecePosition) && (off == 7 || off == 9)
    ensures |PawnCandidate(b, pawn, off)| <= 1
    ensures forall m :: m in PawnCandidate(b, pawn, off) ==> WellShaped(b, pawn, m)
    ensures forall d :: (d == pawn.piecePosition + off * Direction(pawn.pieceAlliance) &&
                         (Capture(b, pawn, d) || EnPassant(b, pawn, d))) ==>
      d in Destinations(PawnCandidate(b, pawn, off))
  {
    var pos := pawn.piecePosition;
    var a := pawn.pieceAlliance;
    var dest := pos + off * Direction(a);
    var cand := PawnCandidate(b, pawn, off);
    if IsValidTileCoord(dest) {
      DiagonalOffsets(pos, a, off);
      assert off == 7 ==> pos + OppositeDirection(a) == dest - 8 * Direction(a);
      assert off == 9 ==> pos - OppositeDirection(a) == dest - 8 * Direction(a);
      if |cand| == 1 {
        assert DestinationCoord(cand[0]) in Destinations(cand);
      }
    }
  }

  lemma {:induction false} PawnMovesUpToSound(b: Board, pawn: Piece, n: int)
    requires WellFormed(b) && IsValidTileCoord(pawn.piecePosition)
    requires 0 <= n <= |CANDIDATE_MOVE_VECTOR_COORDINATES|
    ensures |PawnMovesUpTo(b, pawn, n)| <= n
    ensures forall m :: m in PawnMovesUpTo(b, pawn, n) ==> WellShaped(b, pawn, m)
    ensures forall k :: 0 <= k < n ==>
      Destinations(PawnCandidate(b, pawn, CANDIDATE_MOVE_VECTOR_COORDINATES[k])) <= Destinations(PawnMovesUpTo(b, pawn, n))
  {
    if n > 0 {
      PawnMovesUpToSound(b, pawn, n - 1);
      var prev := PawnMovesUpTo(b, pawn, n - 1);
      var off := CANDIDATE_MOVE_VECTOR_COORDINATES[n - 1];
      var cand := PawnCandidate(b, pawn, off);
      assert PawnMovesUpTo(b, pawn, n) == prev + cand;
      DestinationsConcat(prev, cand);
      if off == 8 {
        PushCandidateSound(b, pawn);
      } else if off == 16 {
        JumpCandidateSound(b, pawn);
      } else {
        CaptureCandidateSound(b, pawn, off);
      }
      forall m | m in prev + cand
        ensures WellShaped(b, pawn, m)
      {
        if m in prev {
        } else {
          assert m in cand;
        }
      }
    }
  }

  /** The pawn's moves are exactly its pushes, double pushes, captures and en
      passant captures, at most four, each of the kind its rule gives; in
      particular none lands on a square held by its own side. */
  lemma PawnMovesExact(b: Board, pawn: Piece)
    requires WellFormed(b) && IsValidTileCoord(pawn.piecePosition)
    ensures |PawnLegalMoves(b, pawn)| <= 4
    ensures forall m :: m in PawnLegalMoves(b, pawn) ==> WellShaped(b, pawn, m)
    ensures forall d :: d in Destinations(PawnLegalMoves(b, pawn)) <==> PawnReaches(b, pawn, d)
    ensures forall d :: d in Destinations(PawnLegalMoves(b, pawn)) ==>
      IsValidTileCoord(d) && !IsOwnOn(b, d, pawn.pieceAlliance)
  {
    PawnMovesUpToSound(b, pawn, 4);
    assert CANDIDATE_MOVE_VECTOR_COORDINATES[0] == 7 && CANDIDATE_MOVE_VECTOR_COORDINATES[1] == 8;
    assert CANDIDATE_MOVE_VECTOR_COORDINATES[2] == 9 && CANDIDATE_MOVE_VECTOR_COORDINATES[3] == 16;
    forall d | PawnReaches(b, pawn, d)
      ensures d in Destinations(PawnLegalMoves(b, pawn))
    {
      if Push(b, pawn, d) {
        PushCandidateSound(b, pawn);
      } else if Jump(b, pawn, d) {
        JumpCandidateSound(b, pawn);
      } else {
        DiagonalIsCandidate(pawn.piecePosition, d, pawn.pieceAlliance);
        if d == pawn.piecePosition + 7 * Direction(pawn.pieceAlliance) {
          CaptureCandidateSound(b, pawn, 7);
        } else {
          CaptureCandidateSound(b, pawn, 9);
        }
      }
    }
  }

  /** Pawn.movePiece: a Pawn of the same side on the destination, first-move
      flag set again by the two-argument constructor. */
  lemma PawnMovePiece(pawn: Piece, m: Move)
    requires pawn.pieceType == PAWN && !m.NullMove? && m.movedPiece == pawn
    ensures MovePiece(pawn, m) == Piece(PAWN, m.destinationCoord, pawn.pieceAlliance, true)
  {
  }

  /** Pawn.getPromotionPiece: a Queen of the pawn's side on the pawn's square. */
  lemma PromotionPieceIsQueen(pawn: Piece)
    ensures GetPromotionPiece(pawn) == Piece(QUEEN, pawn.piecePosition, pawn.pieceAlliance, false)
  {
  }
}
