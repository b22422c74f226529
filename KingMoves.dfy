/** King move generation: eight unit offsets filtered by two file-edge
    exclusion tables. The second table, meant for the h-file, tests the b-file,
    so from the h-file the three eastward offsets wrap onto the a-file and from
    the b-file they are never generated. */
module KingMoves {
  import opened BoardUtils
  import opened Alliances
  import opened Pieces
  import opened Boards
  import opened Moves

  const CANDIDATE_MOVE_VECTOR_COORDINATES: seq<int> := [-9, -8, -7, -1, 1, 7, 8, 9]

  predicate IsFirstColumnExclusion(currentPosition: int, candidateOffset: int)
    requires IsValidTileCoord(currentPosition)
  {
    FirstColumn(currentPosition) && (candidateOffset == -9 || candidateOffset == -1 || candidateOffset == 7)
  }

  /** As written: the table consulted is the second column, not the eighth. */
  predicate IsEighthColumnExclusion(currentPosition: int, candidateOffset: int)
    requires IsValidTileCoord(currentPosition)
  {
    SecondColumn(currentPosition) && (candidateOffset == -7 || candidateOffset == 1 || candidateOffset == 9)
  }

  predicate IsExcluded(currentPosition: int, candidateOffset: int)
    requires IsValidTileCoord(currentPosition)
  {
    IsFirstColumnExclusion(currentPosition, candidateOffset) || IsEighthColumnExclusion(currentPosition, candidateOffset)
  }

  /** What one pass of the loop adds: nothing, a MajorMove or a plain AttackMove. */
  function KingCandidate(b: Board, king: Piece, candidateOffset: int): seq<Move>
    requires WellFormed(b) && IsValidTileCoord(king.piecePosition)
  {
    var dest := king.piecePosition + candidateOffset;
    if IsExcluded(king.piecePosition, candidateOffset) || !IsValidTileCoord(dest) then []
    else if !IsOccupied(b, dest) then [MajorMove(b, king, dest)]
    else if PieceOn(b, dest).pieceAlliance != king.pieceAlliance then
      [AttackMove(b, king, dest, PieceOn(b, dest))]
    else []
  }

  function KingMovesUpTo(b: Board, king: Piece, n: int): seq<Move>
    requires WellFormed(b) && IsValidTileCoord(king.piecePosition)
    requires 0 <= n <= |CANDIDATE_MOVE_VECTOR_COORDINATES|
  {
    if n == 0 then []
    else KingMovesUpTo(b, king, n - 1) + KingCandidate(b, king, CANDIDATE_MOVE_VECTOR_COORDINATES[n - 1])
  }

  function KingLegalMoves(b: Board, king: Piece): seq<Move>
    requires WellFormed(b) && IsValidTileCoord(king.piecePosition)
  {
    KingMovesUpTo(b, king, |CANDIDATE_MOVE_VECTOR_COORDINATES|)
  }

  method CalculateKingMoves(b: Board, king: Piece) returns (legalMoves: seq<Move>)
    requires WellFormed(b) && IsValidTileCoord(king.piecePosition)
    ensures legalMoves == KingLegalMoves(b, king)
  {
    legalMoves := [];
    var i := 0;
    while i < |CANDIDATE_MOVE_VECTOR_COORDINATES|
      invariant 0 <= i <= |CANDIDATE_MOVE_VECTOR_COORDINATES|
      invariant legalMoves == KingMovesUpTo(b, king, i)
    {
      var currentCandidateOffset := CANDIDATE_MOVE_VECTOR_COORDINATES[i];
      var candidateDestinationCoord := king.piecePosition + currentCandidateOffset;
      if !IsExcluded(king.piecePosition, currentCandidateOffset) && IsValidTileCoord(candidateDestinationCoord) {
        var candidateDestinationTile := GetTile(b, candidateDestinationCoord);
        if !candidateDestinationTile.IsTileOccupied() {
          legalMoves := legalMoves + [MajorMove(b, king, candidateDestinationCoord)];
        } else {
          var pieceAtDestination := candidateDestinationTile.pieceOnTile;
          if king.pieceAlliance != pieceAtDestination.pieceAlliance {
            legalMoves := legalMoves + [AttackMove(b, king, candidateDestinationCoord, pieceAtDestination)];
          }
        }
      }
      i := i + 1;
    }
  }

  /** A king's step: to one of the (up to) eight neighbouring squares. */
  predicate KingStep(from: int, to: int)
  {
    IsValidTileCoord(from) && IsValidTileCoord(to) && from != to &&
    FileDistance(from, to) <= 1 && RowDistance(from, to) <= 1
  }

  /** The squares the tables let through: every step except a b-file king's
      steps onto the c-file, plus an h-file king's three wrapped offsets. */
  predicate KingStepAsWritten(from: int, to: int)
  {
    IsValidTileCoord(from) && IsValidTileCoord(to) &&
    ((KingStep(from, to) && !(FileOf(from) == 1 && FileOf(to) == 2)) ||
     (FileOf(from) == 7 && (to - from == -7 || to - from == 1 || to - from == 9)))
  }

  lemma ExclusionsAsWritten(pos: int, k: int)
    requires IsValidTileCoord(pos) && 0 <= k < |CANDIDATE_MOVE_VECTOR_COORDINATES|
    requires IsValidTileCoord(pos + CANDIDATE_MOVE_VECTOR_COORDINATES[k])
    ensures !IsExcluded(pos, CANDIDATE_MOVE_VECTOR_COORDINATES[k]) <==>
      KingStepAsWritten(pos, pos + CANDIDATE_MOVE_VECTOR_COORDINATES[k])
  {
    ColumnMarkIsFile(0, pos);
    ColumnMarkIsFile(1, pos);
    var dr, df;
    if k == 0 { dr, df := -1, -1; }
    else if k == 1 { dr, df := -1, 0; }
    else if k == 2 { dr, df := -1, 1; }
    else if k == 3 { dr, df := 0, -1; }
    else if k == 4 { dr, df := 0, 1; }
    else if k == 5 { dr, df := 1, -1; }
    else if k == 6 { dr, df := 1, 0; }
    else { dr, df := 1, 1; }
    assert CANDIDATE_MOVE_VECTOR_COORDINATES[k] == 8 * dr + df;
    OffsetGeometry(pos, dr, df);
  }

  lemma StepIsCandidate(from: int, to: int) returns (k: int)
    requires KingStepAsWritten(from, to)
    ensures 0 <= k < |CANDIDATE_MOVE_VECTOR_COORDINATES| && to == from + CANDIDATE_MOVE_VECTOR_COORDINATES[k]
  {
    var delta := to - from;
    if KingStep(from, to) && !(FileOf(from) == 1 && FileOf(to) == 2) {
      var df := FileOf(to) - FileOf(from);
      var dr := RowOf(to) - RowOf(from);
      assert delta == 8 * dr + df;
    }
    if delta == -9 { k := 0; }
    else if delta == -8 { k := 1; }
    else if delta == -7 { k := 2; }
    else if delta == -1 { k := 3; }
    else if delta == 1 { k := 4; }
    else if delta == 7 { k := 5; }
    else if delta == 8 { k := 6; }
    else { k := 7; }
  }

  predicate KingReachesAsWritten(b: Board, king: Piece, dest: int)
    requires WellFormed(b)
  {
    KingStepAsWritten(king.piecePosition, dest) && !IsOwnOn(b, dest, king.pieceAlliance)
  }

  predicate WellShaped(b: Board, king: Piece, m: Move)
    requires WellFormed(b)
  {
    (m.MajorMove? || m.AttackMove?) && m.board == b && m.movedPiece == king &&
    KingReachesAsWritten(b, king, m.destinationCoord) &&
    (m.MajorMove? <==> !IsOccupied(b, m.destinationCoord)) &&
    (m.AttackMove? ==> IsEnemyOn(b, m.destinationCoord, king.pieceAlliance) &&
                        m.attackedPiece == PieceOn(b, m.destinationCoord))
  }

  lemma KingCandidateSound(b: Board, king: Piece, k: int)
    requires WellFormed(b) && IsValidTileCoord(king.piecePosition)
    requires 0 <= k < |CANDIDATE_MOVE_VECTOR_COORDINATES|
    ensures |KingCandidate(b, king, CANDIDATE_MOVE_VECTOR_COORDINATES[k])| <= 1
    ensures forall m :: m in KingCandidate(b, king, CANDIDATE_MOVE_VECTOR_COORDINATES[k]) ==> WellShaped(b, king, m)
    ensures KingReachesAsWritten(b, king, king.piecePosition + CANDIDATE_MOVE_VECTOR_COORDINATES[k]) ==>
      king.piecePosition + CANDIDATE_MOVE_VECTOR_COORDINATES[k] in
        Destinations(KingCandidate(b, king, CANDIDATE_MOVE_VECTOR_COORDINATES[k]))
  {
    var dest := king.piecePosition + CANDIDATE_MOVE_VECTOR_COORDINATES[k];
    var cand := KingCandidate(b, king, CANDIDATE_MOVE_VECTOR_COORDINATES[k]);
    if IsValidTileCoord(dest) {
      ExclusionsAsWritten(king.piecePosition, k);
      if |cand| == 1 {
        assert DestinationCoord(cand[0]) in Destinations(cand);
      }
    }
  }

  lemma {:induction false} KingMovesUpToLength(b: Board, king: Piece, n: int)
    requires WellFormed(b) && IsValidTileCoord(king.piecePosition)
    requires 0 <= n <= |CANDIDATE_MOVE_VECTOR_COORDINATES|
    ensures |KingMovesUpTo(b, king, n)| <= n
  {
    if n > 0 {
      KingMovesUpToLength(b, king, n - 1);
      KingCandidateSound(b, king, n - 1);
    }
  }

  lemma {:induction false} KingMovesUpToShaped(b: Board, king: Piece, n: int)
    requires WellFormed(b) && IsValidTileCoord(king.piecePosition)
    requires 0 <= n <= |CANDIDATE_MOVE_VECTOR_COORDINATES|
    ensures forall m :: m in KingMovesUpTo(b, king, n) ==> WellShaped(b, king, m)
  {
    if n > 0 {
      KingMovesUpToShaped(b, king, n - 1);
      KingCandidateSound(b, king, n - 1);
      var prev := KingMovesUpTo(b, king, n - 1);
      var cand := KingCandidate(b, king, CANDIDATE_MOVE_VECTOR_COORDINATES[n - 1]);
      assert KingMovesUpTo(b, king, n) == prev + cand;
      forall m | m in prev + cand
        ensures WellShaped(b, king, m)
      {
        if m !in prev {
          assert m in cand;
        }
      }
    }
  }

  lemma {:induction false} KingMovesUpToCovers(b: Board, king: Piece, n: int)
    requires WellFormed(b) && IsValidTileCoord(king.piecePosition)
    requires 0 <= n <= |CANDIDATE_MOVE_VECTOR_COORDINATES|
    ensures forall k :: 0 <= k < n ==>
      Destinations(KingCandidate(b, king, CANDIDATE_MOVE_VECTOR_COORDINATES[k])) <= Destinations(KingMovesUpTo(b, king, n))
  {
    if n > 0 {
      KingMovesUpToCovers(b, king, n - 1);
      var prev := KingMovesUpTo(b, king, n - 1);
      var cand := KingCandidate(b, king, CANDIDATE_MOVE_VECTOR_COORDINATES[n - 1]);
      assert KingMovesUpTo(b, king, n) == prev + cand;
      DestinationsConcat(prev, cand);
    }
  }

  lemma KingMovesUpToSound(b: Board, king: Piece, n: int)
    requires WellFormed(b) && IsValidTileCoord(king.piecePosition)
    requires 0 <= n <= |CANDIDATE_MOVE_VECTOR_COORDINATES|
    ensures |KingMovesUpTo(b, king, n)| <= n
    ensures forall m :: m in KingMovesUpTo(b, king, n) ==> WellShaped(b, king, m)
    ensures forall k :: 0 <= k < n ==>
      Destinations(KingCandidate(b, king, CANDIDATE_MOVE_VECTOR_COORDINATES[k])) <= Destinations(KingMovesUpTo(b, king, n))
  {
    KingMovesUpToLength(b, king, n);
    KingMovesUpToShaped(b, king, n);
    KingMovesUpToCovers(b, king, n);
  }

  /** The king's moves are exactly the squares the tables let through that do
      not hold a piece of its own side, at most eight, each of the right kind. */
  lemma KingMovesExact(b: Board, king: Piece)
    requires WellFormed(b) && IsValidTileCoord(king.piecePosition)
    ensures |KingLegalMoves(b, king)| <= 8
    ensures forall m :: m in KingLegalMoves(b, king) ==> WellShaped(b, king, m)
    ensures forall d :: d in Destinations(KingLegalMoves(b, king)) <==> KingReachesAsWritten(b, king, d)
  {
    KingMovesUpToSound(b, king, 8);
    forall d | KingReachesAsWritten(b, king, d)
      ensures d in Destinations(KingLegalMoves(b, king))
    {
      var k := StepIsCandidate(king.piecePosition, d);
      KingCandidateSound(b, king, k);
    }
  }

  /** Away from the b- and h-files the tables are right: from files a and c..g
      the king reaches exactly its neighbouring squares not held by its side. */
  lemma KingMovesCorrectOffEdgeFiles(b: Board, king: Piece, d: int)
    requires WellFormed(b) && IsValidTileCoord(king.piecePosition)
    requires FileOf(king.piecePosition) != 1 && FileOf(king.piecePosition) != 7
    ensures d in Destinations(KingLegalMoves(b, king)) <==>
      KingStep(king.piecePosition, d) && !IsOwnOn(b, d, king.pieceAlliance)
  {
    KingMovesExact(b, king);
  }

  /** As written, an h-file king steps "east" onto the a-file of the next row
      (a wrap across the board edge), and a b-file king never steps east. */
  lemma KingEdgeDefects(b: Board, king: Piece)
    requires WellFormed(b) && IsValidTileCoord(king.piecePosition)
    ensures FileOf(king.piecePosition) == 7 && IsValidTileCoord(king.piecePosition + 1) &&
            !IsOwnOn(b, king.piecePosition + 1, king.pieceAlliance) ==>
      king.piecePosition + 1 in Destinations(KingLegalMoves(b, king)) &&
      !KingStep(king.piecePosition, king.piecePosition + 1)
    ensures FileOf(king.piecePosition) == 1 ==>
      king.piecePosition + 1 !in Destinations(KingLegalMoves(b, king)) &&
      KingStep(king.piecePosition, king.piecePosition + 1)
  {
    KingMovesExact(b, king);
    if IsValidTileCoord(king.piecePosition + 1) {
      OffsetGeometry(king.piecePosition, 0, 1);
    }
  }
}
