/** Knight move generation: eight fixed offsets, four file-edge exclusion
    tables, and one move per offset that lands on an empty or enemy square. */
module KnightMoves {
  import opened BoardUtils
  import opened Alliances
  import opened Pieces
  import opened Boards
  import opened Moves

  const CANDIDATE_MOVE_COORDINATES: seq<int> := [-17, -15, -10, -6, 6, 10, 15, 17]

  predicate IsFirstColumnExclusion(currentPosition: int, candidateOffset: int)
    requires IsValidTileCoord(currentPosition)
  {
    FirstColumn(currentPosition) &&
    (candidateOffset == -17 || candidateOffset == -10 || candidateOffset == 6 || candidateOffset == 15)
  }

  predicate IsSecondColumnExclusion(currentPosition: int, candidateOffset: int)
    requires IsValidTileCoord(currentPosition)
  {
    SecondColumn(currentPosition) && (candidateOffset == -10 || candidateOffset == 6)
  }

  predicate IsSeventhColumnExclusion(currentPosition: int, candidateOffset: int)
    requires IsValidTileCoord(currentPosition)
  {
    SeventhColumn(currentPosition) && (candidateOffset == -6 || candidateOffset == 10)
  }

  predicate IsEighthColumnExclusion(currentPosition: int, candidateOffset: int)
    requires IsValidTileCoord(currentPosition)
  {
    EighthColumn(currentPosition) &&
    (candidateOffset == -15 || candidateOffset == -6 || candidateOffset == 10 || candidateOffset == 17)
  }

  predicate IsExcluded(currentPosition: int, candidateOffset: int)
    requires IsValidTileCoord(currentPosition)
  {
    IsFirstColumnExclusion(currentPosition, candidateOffset) ||
    IsSecondColumnExclusion(currentPosition, candidateOffset) ||
    IsSeventhColumnExclusion(currentPosition, candidateOffset) ||
    IsEighthColumnExclusion(currentPosition, candidateOffset)
  }

  /** What one pass of the loop adds for one offset: nothing, a MajorMove or a
      MajorAttackMove. */
  function KnightCandidate(b: Board, knight: Piece, candidateOffset: int): seq<Move>
    requires WellFormed(b) && IsValidTileCoord(knight.piecePosition)
  {
    var dest := knight.piecePosition + candidateOffset;
    if !IsValidTileCoord(dest) || IsExcluded(knight.piecePosition, candidateOffset) then []
    else if !IsOccupied(b, dest) then [MajorMove(b, knight, dest)]
    else if PieceOn(b, dest).pieceAlliance != knight.pieceAlliance then
      [MajorAttackMove(b, knight, dest, PieceOn(b, dest))]
    else []
  }

  /** The list after the first n offsets. */
  function KnightMovesUpTo(b: Board, knight: Piece, n: int): seq<Move>
    requires WellFormed(b) && IsValidTileCoord(knight.piecePosition)
    requires 0 <= n <= |CANDIDATE_MOVE_COORDINATES|
  {
    if n == 0 then []
    else KnightMovesUpTo(b, knight, n - 1) + KnightCandidate(b, knight, CANDIDATE_MOVE_COORDINATES[n - 1])
  }

  function KnightLegalMoves(b: Board, knight: Piece): seq<Move>
    requires WellFormed(b) && IsValidTileCoord(knight.piecePosition)
  {
    KnightMovesUpTo(b, knight, |CANDIDATE_MOVE_COORDINATES|)
  }

  method CalculateKnightMoves(b: Board, knight: Piece) returns (legalMoves: seq<Move>)
    requires WellFormed(b) && IsValidTileCoord(knight.piecePosition)
    ensures legalMoves == KnightLegalMoves(b, knight)
  {
    legalMoves := [];
    var i := 0;
    while i < |CANDIDATE_MOVE_COORDINATES|
      invariant 0 <= i <= |CANDIDATE_MOVE_COORDINATES|
      invariant legalMoves == KnightMovesUpTo(b, knight, i)
    {
      var candidateOffset := CANDIDATE_MOVE_COORDINATES[i];
      var candidateDestinationCoord := knight.piecePosition + candidateOffset;
      if IsValidTileCoord(candidateDestinationCoord) {
        if !IsExcluded(knight.piecePosition, candidateOffset) {
          var candidateDestinationTile := GetTile(b, candidateDestinationCoord);
          if !candidateDestinationTile.IsTileOccupied() {
            legalMoves := legalMoves + [MajorMove(b, knight, candidateDestinationCoord)];
          } else {
            var pieceAtDestination := candidateDestinationTile.pieceOnTile;
            if knight.pieceAlliance != pieceAtDestination.pieceAlliance {
              legalMoves := legalMoves + [MajorAttackMove(b, knight, candidateDestinationCoord, pieceAtDestination)];
            }
          }
        }
      }
      i := i + 1;
    }
  }

  /** A knight's jump: one file and two rows, or two files and one row. */
  predicate KnightJump(from: int, to: int)
  {
    IsValidTileCoord(from) && IsValidTileCoord(to) &&
    ((FileDistance(from, to) == 1 && RowDistance(from, to) == 2) ||
     (FileDistance(from, to) == 2 && RowDistance(from, to) == 1))
  }

  /** The four exclusion tables rule out exactly the offsets that would wrap
      around the a- or h-file. */
  lemma ExclusionsPreventWrap(pos: int, k: int)
    requires IsValidTileCoord(pos) && 0 <= k < |CANDIDATE_MOVE_COORDINATES|
    requires IsValidTileCoord(pos + CANDIDATE_MOVE_COORDINATES[k])
    ensures !IsExcluded(pos, CANDIDATE_MOVE_COORDINATES[k]) <==> KnightJump(pos, pos + CANDIDATE_MOVE_COORDINATES[k])
  {
    ColumnMarkIsFile(0, pos);
    ColumnMarkIsFile(1, pos);
    ColumnMarkIsFile(6, pos);
    ColumnMarkIsFile(7, pos);
    var dr, df;
    if k == 0 { dr, df := -2, -1; }
    else if k == 1 { dr, df := -2, 1; }
    else if k == 2 { dr, df := -1, -2; }
    else if k == 3 { dr, df := -1, 2; }
    else if k == 4 { dr, df := 1, -2; }
    else if k == 5 { dr, df := 1, 2; }
    else if k == 6 { dr, df := 2, -1; }
    else { dr, df := 2, 1; }
    assert CANDIDATE_MOVE_COORDINATES[k] == 8 * dr + df;
    OffsetGeometry(pos, dr, df);
  }

  /** Every knight jump is one of the eight offsets. */
  lemma JumpIsCandidate(from: int, to: int) returns (k: int)
    requires KnightJump(from, to)
    ensures 0 <= k < |CANDIDATE_MOVE_COORDINATES| && to == from + CANDIDATE_MOVE_COORDINATES[k]
  {
    var df := FileOf(to) - FileOf(from);
    var dr := RowOf(to) - RowOf(from);
    assert to - from == 8 * dr + df;
    if dr == -2 && df == -1 { k := 0; }
    else if dr == -2 { k := 1; }
    else if dr == -1 && df == -2 { k := 2; }
    else if dr == -1 { k := 3; }
    else if dr == 1 && df == -2 { k := 4; }
    else if dr == 1 { k := 5; }
    else if df == -1 { k := 6; }
    else { k := 7; }
  }

  /** What a knight can reach: a jump square that does not hold a piece of its own side. */
  predicate KnightReaches(b: Board, knight: Piece, dest: int)
    requires WellFormed(b)
  {
    KnightJump(knight.piecePosition, dest) && !IsOwnOn(b, dest, knight.pieceAlliance)
  }

  /** A generated move is a MajorMove to an empty square or a MajorAttackMove
      carrying the enemy piece on its square. */
  predicate WellShaped(b: Board, knight: Piece, m: Move)
    requires WellFormed(b)
  {
    (m.MajorMove? || m.MajorAttackMove?) && m.board == b && m.movedPiece == knight &&
    KnightReaches(b, knight, m.destinationCoord) &&
    (m.MajorMove? <==> !IsOccupied(b, m.destinationCoord)) &&
    (m.MajorAttackMove? ==> IsEnemyOn(b, m.destinationCoord, knight.pieceAlliance) &&
                             m.attackedPiece == PieceOn(b, m.destinationCoord))
  }

  /** One offset's contribution: at most one well-shaped move, and the move
      exactly when the offset's square is reachable. */
  lemma KnightCandidateSound(b: Board, knight: Piece, k: int)
    requires WellFormed(b) && IsValidTileCoord(knight.piecePosition)
    requires 0 <= k < |CANDIDATE_MOVE_COORDINATES|
    ensures |KnightCandidate(b, knight, CANDIDATE_MOVE_COORDINATES[k])| <= 1
    ensures forall m :: m in KnightCandidate(b, knight, CANDIDATE_MOVE_COORDINATES[k]) ==> WellShaped(b, knight, m)
    ensures KnightReaches(b, knight, knight.piecePosition + CANDIDATE_MOVE_COORDINATES[k]) ==>
      knight.piecePosition + CANDIDATE_MOVE_COORDINATES[k] in
        Destinations(KnightCandidate(b, knight, CANDIDATE_MOVE_COORDINATES[k]))
  {
    var dest := knight.piecePosition + CANDIDATE_MOVE_COORDINATES[k];
    var cand := KnightCandidate(b, knight, CANDIDATE_MOVE_COORDINATES[k]);
    if IsValidTileCoord(dest) {
      ExclusionsPreventWrap(knight.piecePosition, k);
      if |cand| == 1 {
        assert DestinationCoord(cand[0]) in Destinations(cand);
      }
    }
  }

  lemma {:induction false} KnightMovesUpToLength(b: Board, knight: Piece, n: int)
    requires WellFormed(b) && IsValidTileCoord(knight.piecePosition)
    requires 0 <= n <= |CANDIDATE_MOVE_COORDINATES|
    ensures |KnightMovesUpTo(b, knight, n)| <= n
  {
    if n > 0 {
      KnightMovesUpToLength(b, knight, n - 1);
      KnightCandidateSound(b, knight, n - 1);
    }
  }

  lemma {:induction false} KnightMovesUpToShaped(b: Board, knight: Piece, n: int)
    requires WellFormed(b) && IsValidTileCoord(knight.piecePosition)
    requires 0 <= n <= |CANDIDATE_MOVE_COORDINATES|
    ensures forall m :: m in KnightMovesUpTo(b, knight, n) ==> WellShaped(b, knight, m)
  {
    if n > 0 {
      KnightMovesUpToShaped(b, knight, n - 1);
      KnightCandidateSound(b, knight, n - 1);
      var prev := KnightMovesUpTo(b, knight, n - 1);
      var cand := KnightCandidate(b, knight, CANDIDATE_MOVE_COORDINATES[n - 1]);
      assert KnightMovesUpTo(b, knight, n) == prev + cand;
      forall m | m in prev + cand
        ensures WellShaped(b, knight, m)
      {
        if m !in prev {
          assert m in cand;
        }
      }
    }
  }

  lemma {:induction false} KnightMovesUpToCovers(b: Board, knight: Piece, n: int)
    requires WellFormed(b) && IsValidTileCoord(knight.piecePosition)
    requires 0 <= n <= |CANDIDATE_MOVE_COORDINATES|
    ensures forall k :: 0 <= k < n ==>
      Destinations(KnightCandidate(b, knight, CANDIDATE_MOVE_COORDINATES[k])) <= Destinations(KnightMovesUpTo(b, knight, n))
  {
    if n > 0 {
      KnightMovesUpToCovers(b, knight, n - 1);
      var prev := KnightMovesUpTo(b, knight, n - 1);
      var cand := KnightCandidate(b, knight, CANDIDATE_MOVE_COORDINATES[n - 1]);
      assert KnightMovesUpTo(b, knight, n) == prev + cand;
      DestinationsConcat(prev, cand);
    }
  }

  lemma KnightMovesUpToSound(b: Board, knight: Piece, n: int)
    requires WellFormed(b) && IsValidTileCoord(knight.piecePosition)
    requires 0 <= n <= |CANDIDATE_MOVE_COORDINATES|
    ensures |KnightMovesUpTo(b, knight, n)| <= n
    ensures forall m :: m in KnightMovesUpTo(b, knight, n) ==> WellShaped(b, knight, m)
    ensures forall k :: 0 <= k < n ==>
      Destinations(KnightCandidate(b, knight, CANDIDATE_MOVE_COORDINATES[k])) <= Destinations(KnightMovesUpTo(b, knight, n))
  {
    KnightMovesUpToLength(b, knight, n);
    KnightMovesUpToShaped(b, knight, n);
    KnightMovesUpToCovers(b, knight, n);
  }

  /** The knight's moves are exactly its jumps to squares not held by its own
      side, at most eight of them, each of the right kind. */
  lemma KnightMovesExact(b: Board, knight: Piece)
    requires WellFormed(b) && IsValidTileCoord(knight.piecePosition)
    ensures |KnightLegalMoves(b, knight)| <= 8
    ensures forall m :: m in KnightLegalMoves(b, knight) ==> WellShaped(b, knight, m)
    ensures forall d :: d in Destinations(KnightLegalMoves(b, knight)) <==> KnightReaches(b, knight, d)
  {
    KnightMovesUpToSound(b, knight, 8);
    forall d | KnightReaches(b, knight, d)
      ensures d in Destinations(KnightLegalMoves(b, knight))
    {
      var k := JumpIsCandidate(knight.piecePosition, d);
      KnightCandidateSound(b, knight, k);
    }
  }
}
