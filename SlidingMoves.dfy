/** Move generation for the sliding pieces. Bishop, Rook and Queen run the same
    loop over their own offset tables and file-edge exclusion tables: from the
    piece's square, step along each offset, emit a MajorMove for every empty
    square, and stop at the board's edge, at an excluded step, or at the first
    occupied square (emitting a MajorAttackMove when it holds an enemy). */
module SlidingMoves {
  import opened BoardUtils
  import opened Alliances
  import opened Pieces
  import opened Boards
  import opened Moves

  predicate IsSlider(t: PieceType)
  {
    t == BISHOP || t == ROOK || t == QUEEN
  }

  /** CANDIDATE_MOVE_VECTOR_COORDINATES of each sliding piece. */
  function Offsets(t: PieceType): (offsets: seq<int>)
    requires IsSlider(t)
    ensures forall i :: 0 <= i < |offsets| ==> offsets[i] in {-9, -8, -7, -1, 1, 7, 8, 9}
  {
    match t
    case BISHOP => [-9, -7, 7, 9]
    case ROOK => [-8, -1, 1, 8]
    case QUEEN => [-9, -8, -7, -1, 1, 7, 8, 9]
  }

  /** isFirstColumnExclusion of each piece class. */
  predicate IsFirstColumnExclusion(t: PieceType, currentPosition: int, candidateOffset: int)
    requires IsSlider(t) && IsValidTileCoord(currentPosition)
  {
    FirstColumn(currentPosition) &&
    match t
    case BISHOP => candidateOffset == -9 || candidateOffset == 7
    case ROOK => candidateOffset == -1
    case QUEEN => candidateOffset == -1 || candidateOffset == -9 || candidateOffset == 7
  }

  /** isEighthColumnExclusion of each piece class. */
  predicate IsEighthColumnExclusion(t: PieceType, currentPosition: int, candidateOffset: int)
    requires IsSlider(t) && IsValidTileCoord(currentPosition)
  {
    EighthColumn(currentPosition) &&
    match t
    case BISHOP => candidateOffset == 9 || candidateOffset == -7
    case ROOK => candidateOffset == 1
    case QUEEN => candidateOffset == 1 || candidateOffset == 9 || candidateOffset == -7
  }

  predicate IsExcluded(t: PieceType, currentPosition: int, candidateOffset: int)
    requires IsSlider(t) && IsValidTileCoord(currentPosition)
  {
    IsFirstColumnExclusion(t, currentPosition, candidateOffset) ||
    IsEighthColumnExclusion(t, currentPosition, candidateOffset)
  }

  /** The termination measure of a walk along an offset: squares left before
      the walk leaves 0..63. */
  function Remaining(offset: int, cur: int): int
  {
    if offset > 0 then 64 - cur else cur + 1
  }

  /** The moves the inner while loop adds when it is entered at cur. */
  function Ray(b: Board, piece: Piece, offset: int, cur: int): seq<Move>
    requires WellFormed(b) && IsSlider(piece.pieceType) && offset in Offsets(piece.pieceType)
    decreases Remaining(offset, cur)
  {
    if !IsValidTileCoord(cur) || IsExcluded(piece.pieceType, cur, offset) then []
    else
      var next := cur + offset;
      if !IsValidTileCoord(next) then []
      else if !IsOccupied(b, next) then [MajorMove(b, piece, next)] + Ray(b, piece, offset, next)
      else if piece.pieceAlliance != PieceOn(b, next).pieceAlliance then
        [MajorAttackMove(b, piece, next, PieceOn(b, next))]
      else []
  }

  /** The list after the first n offsets. */
  function SlidingMovesUpTo(b: Board, piece: Piece, n: int): seq<Move>
    requires WellFormed(b) && IsSlider(piece.pieceType)
    requires 0 <= n <= |Offsets(piece.pieceType)|
  {
    if n == 0 then []
    else SlidingMovesUpTo(b, piece, n - 1) + Ray(b, piece, Offsets(piece.pieceType)[n - 1], piece.piecePosition)
  }

  function SlidingLegalMoves(b: Board, piece: Piece): seq<Move>
    requires WellFormed(b) && IsSlider(piece.pieceType)
  {
    SlidingMovesUpTo(b, piece, |Offsets(piece.pieceType)|)
  }

  /** calculateLegalMoves of Bishop, Rook and Queen. */
  method CalculateSlidingMoves(b: Board, piece: Piece) returns (legalMoves: seq<Move>)
    requires WellFormed(b) && IsSlider(piece.pieceType)
    ensures legalMoves == SlidingLegalMoves(b, piece)
  {
    legalMoves := [];
    var offsets := Offsets(piece.pieceType);
    var i := 0;
    while i < |offsets|
      invariant 0 <= i <= |offsets|
      invariant legalMoves == SlidingMovesUpTo(b, piece, i)
    {
      var candidateCoordinateOffset := offsets[i];
      var candidateDestinationCoord := piece.piecePosition;
      while IsValidTileCoord(candidateDestinationCoord)
        invariant legalMoves + Ray(b, piece, candidateCoordinateOffset, candidateDestinationCoord) ==
          SlidingMovesUpTo(b, piece, i + 1)
        decreases Remaining(candidateCoordinateOffset, candidateDestinationCoord)
      {
        if IsExcluded(piece.pieceType, candidateDestinationCoord, candidateCoordinateOffset) {
          break;
        }
        candidateDestinationCoord := candidateDestinationCoord + candidateCoordinateOffset;
        if IsValidTileCoord(candidateDestinationCoord) {
          var candidateDestinationTile := GetTile(b, candidateDestinationCoord);
          if !candidateDestinationTile.IsTileOccupied() {
            legalMoves := legalMoves + [MajorMove(b, piece, candidateDestinationCoord)];
          } else {
            var pieceAtDestination := candidateDestinationTile.pieceOnTile;
            if piece.pieceAlliance != pieceAtDestination.pieceAlliance {
              legalMoves := legalMoves + [MajorAttackMove(b, piece, candidateDestinationCoord, pieceAtDestination)];
            }
            break;
          }
        }
      }
      i := i + 1;
    }
  }

  // ---------------------------------------------------------------------------
  // The geometric reference: a ray of squares in one of eight directions

  /** Files and rows one step along an offset moves. */
  function FileStep(offset: int): int
  {
    if offset == -9 || offset == -1 || offset == 7 then -1
    else if offset == -7 || offset == 1 || offset == 9 then 1
    else 0
  }

  function RowStep(offset: int): int
  {
    if offset <= -7 then -1 else if offset >= 7 then 1 else 0
  }

  /** The square one step from cur in the offset's direction exists on the board. */
  predicate HasNeighbour(cur: int, offset: int)
    requires IsValidTileCoord(cur)
  {
    0 <= FileOf(cur) + FileStep(offset) < 8 && 0 <= RowOf(cur) + RowStep(offset) < 8
  }

  /** That square, built from its file and row. */
  function Neighbour(cur: int, offset: int): (next: int)
    requires IsValidTileCoord(cur) && HasNeighbour(cur, offset)
    ensures IsValidTileCoord(next)
  {
    8 * (RowOf(cur) + RowStep(offset)) + (FileOf(cur) + FileStep(offset))
  }

  /** The neighbour is one file step and one row step away. */
  lemma NeighbourCoords(cur: int, offset: int)
    requires IsValidTileCoord(cur) && HasNeighbour(cur, offset)
    ensures FileOf(Neighbour(cur, offset)) == FileOf(cur) + FileStep(offset)
    ensures RowOf(Neighbour(cur, offset)) == RowOf(cur) + RowStep(offset)
  {
    var f, r := FileOf(cur) + FileStep(offset), RowOf(cur) + RowStep(offset);
    assert Neighbour(cur, offset) == 8 * r + f && 0 <= f < 8;
  }

  /** The exclusion tables with the board's bounds are exactly "the square one
      step on exists", and adding the offset reaches that square. */
  lemma ExclusionsPreventWrap(t: PieceType, cur: int, offset: int)
    requires IsSlider(t) && IsValidTileCoord(cur) && offset in Offsets(t)
    ensures (!IsExcluded(t, cur, offset) && IsValidTileCoord(cur + offset)) <==> HasNeighbour(cur, offset)
    ensures HasNeighbour(cur, offset) ==> Neighbour(cur, offset) == cur + offset
  {
    var f := cur % 8;
    var r := cur / 8;
    assert cur == 8 * r + f;
    assert offset == 8 * RowStep(offset) + FileStep(offset);
    if IsValidTileCoord(cur + offset) {
      OffsetGeometry(cur, RowStep(offset), FileStep(offset));
    }
  }

  /** The squares a slider of side a standing on cur reaches along the offset:
      each next square that exists, as long as the squares before it are
      empty, except one held by its own side. */
  predicate Reaches(b: Board, a: Alliance, offset: int, cur: int, dest: int)
    requires WellFormed(b) && IsValidTileCoord(cur) && offset in {-9, -8, -7, -1, 1, 7, 8, 9}
    decreases Remaining(offset, cur)
  {
    HasNeighbour(cur, offset) &&
    var next := Neighbour(cur, offset);
    assert next == cur + offset by {
      assert cur == 8 * RowOf(cur) + FileOf(cur);
    }
    (dest == next && !IsOwnOn(b, next, a)) ||
    (!IsOccupied(b, next) && Reaches(b, a, offset, next, dest))
  }

  /** A well-formed sliding move: a MajorMove onto an empty square, or a
      MajorAttackMove carrying the enemy piece on its square. */
  predicate WellShaped(b: Board, piece: Piece, m: Move)
    requires WellFormed(b)
  {
    (m.MajorMove? || m.MajorAttackMove?) && m.board == b && m.movedPiece == piece &&
    IsValidTileCoord(m.destinationCoord) &&
    (m.MajorMove? <==> !IsOccupied(b, m.destinationCoord)) &&
    (m.MajorAttackMove? ==> IsEnemyOn(b, m.destinationCoord, piece.pieceAlliance) &&
                             m.attackedPiece == PieceOn(b, m.destinationCoord))
  }

  /** The inner loop, entered on a square, emits exactly the squares the ray
      reaches, each move well-shaped, every one but the last a quiet move. */
  lemma {:induction false} RayExact(b: Board, piece: Piece, offset: int, cur: int)
    requires WellFormed(b) && IsSlider(piece.pieceType) && offset in Offsets(piece.pieceType)
    requires IsValidTileCoord(cur)
    ensures forall m :: m in Ray(b, piece, offset, cur) ==> WellShaped(b, piece, m)
    ensures forall i :: 0 <= i < |Ray(b, piece, offset, cur)| - 1 ==> Ray(b, piece, offset, cur)[i].MajorMove?
    ensures forall d :: d in Destinations(Ray(b, piece, offset, cur)) <==> Reaches(b, piece.pieceAlliance, offset, cur, d)
    decreases Remaining(offset, cur)
  {
    var ray := Ray(b, piece, offset, cur);
    ExclusionsPreventWrap(piece.pieceType, cur, offset);
    if HasNeighbour(cur, offset) {
      var next := cur + offset;
      if !IsOccupied(b, next) {
        RayExact(b, piece, offset, next);
        var rest := Ray(b, piece, offset, next);
        assert ray == [MajorMove(b, piece, next)] + rest;
        DestinationsConcat([MajorMove(b, piece, next)], rest);
        DestinationsSingleton(MajorMove(b, piece, next));
      } else if |ray| == 1 {
        assert DestinationCoord(ray[0]) in Destinations(ray);
      }
    }
  }

  /** A slider reaches a square along one of its own offsets. */
  predicate SlidesTo(b: Board, piece: Piece, dest: int)
    requires WellFormed(b) && IsSlider(piece.pieceType) && IsValidTileCoord(piece.piecePosition)
  {
    exists offset :: offset in Offsets(piece.pieceType) && Reaches(b, piece.pieceAlliance, offset, piece.piecePosition, dest)
  }

  lemma {:induction false} SlidingMovesUpToShaped(b: Board, piece: Piece, n: int)
    requires WellFormed(b) && IsSlider(piece.pieceType) && IsValidTileCoord(piece.piecePosition)
    requires 0 <= n <= |Offsets(piece.pieceType)|
    ensures forall m :: m in SlidingMovesUpTo(b, piece, n) ==> WellShaped(b, piece, m)
  {
    if n > 0 {
      SlidingMovesUpToShaped(b, piece, n - 1);
      var prev := SlidingMovesUpTo(b, piece, n - 1);
      var ray := Ray(b, piece, Offsets(piece.pieceType)[n - 1], piece.piecePosition);
      RayExact(b, piece, Offsets(piece.pieceType)[n - 1], piece.piecePosition);
      assert SlidingMovesUpTo(b, piece, n) == prev + ray;
      forall m | m in prev + ray
        ensures WellShaped(b, piece, m)
      {
        if m !in prev {
          assert m in ray;
        }
      }
    }
  }

  lemma {:induction false} SlidingMovesUpToReaches(b: Board, piece: Piece, n: int)
    requires WellFormed(b) && IsSlider(piece.pieceType) && IsValidTileCoord(piece.piecePosition)
    requires 0 <= n <= |Offsets(piece.pieceType)|
    ensures forall d :: d in Destinations(SlidingMovesUpTo(b, piece, n)) <==>
      exists k :: 0 <= k < n && Reaches(b, piece.pieceAlliance, Offsets(piece.pieceType)[k], piece.piecePosition, d)
  {
    if n > 0 {
      SlidingMovesUpToReaches(b, piece, n - 1);
      var offsets := Offsets(piece.pieceType);
      var prev := SlidingMovesUpTo(b, piece, n - 1);
      var ray := Ray(b, piece, offsets[n - 1], piece.piecePosition);
      RayExact(b, piece, offsets[n - 1], piece.piecePosition);
      assert SlidingMovesUpTo(b, piece, n) == prev + ray;
      DestinationsConcat(prev, ray);
      forall d
        ensures d in Destinations(prev + ray) <==>
          exists k :: 0 <= k < n && Reaches(b, piece.pieceAlliance, offsets[k], piece.piecePosition, d)
      {
        if d in Destinations(ray) {
          assert Reaches(b, piece.pieceAlliance, offsets[n - 1], piece.piecePosition, d);
        }
        if exists k :: 0 <= k < n && Reaches(b, piece.pieceAlliance, offsets[k], piece.piecePosition, d) {
          var k :| 0 <= k < n && Reaches(b, piece.pieceAlliance, offsets[k], piece.piecePosition, d);
          if k == n - 1 {
            assert d in Destinations(ray);
          }
        }
      }
    }
  }

  /** Bishop, Rook and Queen moves are exactly the squares their rays reach,
      each a MajorMove onto an empty square or a MajorAttackMove onto an enemy. */
  lemma SlidingMovesExact(b: Board, piece: Piece)
    requires WellFormed(b) && IsSlider(piece.pieceType) && IsValidTileCoord(piece.piecePosition)
    ensures forall m :: m in SlidingLegalMoves(b, piece) ==> WellShaped(b, piece, m)
    ensures forall d :: d in Destinations(SlidingLegalMoves(b, piece)) <==> SlidesTo(b, piece, d)
  {
    var offsets := Offsets(piece.pieceType);
    SlidingMovesUpToShaped(b, piece, |offsets|);
    SlidingMovesUpToReaches(b, piece, |offsets|);
    forall d
      ensures d in Destinations(SlidingLegalMoves(b, piece)) <==> SlidesTo(b, piece, d)
    {
      if SlidesTo(b, piece, d) {
        var offset :| offset in offsets && Reaches(b, piece.pieceAlliance, offset, piece.piecePosition, d);
        var k :| 0 <= k < |offsets| && offsets[k] == offset;
        assert Reaches(b, piece.pieceAlliance, offsets[k], piece.piecePosition, d);
      }
    }
  }

  /** Every reached square lies on the offset's line, k >= 1 steps away, and
      every square strictly between is empty. */
  lemma {:induction false} ReachesAlongLine(b: Board, a: Alliance, offset: int, cur: int, dest: int) returns (k: nat)
    requires WellFormed(b) && IsValidTileCoord(cur) && offset in {-9, -8, -7, -1, 1, 7, 8, 9}
    requires Reaches(b, a, offset, cur, dest)
    ensures k >= 1 && IsValidTileCoord(dest) && !IsOwnOn(b, dest, a)
    ensures FileOf(dest) == FileOf(cur) + k * FileStep(offset)
    ensures RowOf(dest) == RowOf(cur) + k * RowStep(offset)
    decreases Remaining(offset, cur)
  {
    var next := Neighbour(cur, offset);
    assert next == cur + offset by {
      assert cur == 8 * RowOf(cur) + FileOf(cur);
    }
    NeighbourCoords(cur, offset);
    if dest == next && !IsOwnOn(b, next, a) {
      k := 1;
    } else {
      var j := ReachesAlongLine(b, a, offset, next, dest);
      k := j + 1;
      assert k * FileStep(offset) == j * FileStep(offset) + FileStep(offset);
      assert k * RowStep(offset) == j * RowStep(offset) + RowStep(offset);
    }
  }

  /** k >= 1 steps along a rook offset change exactly one of file and row; along
      a bishop offset they change both by k. */
  lemma StepsShape(t: PieceType, offset: int, k: int)
    requires IsSlider(t) && offset in Offsets(t) && k >= 1
    ensures t == ROOK ==> (k * FileStep(offset) == 0) != (k * RowStep(offset) == 0)
    ensures t == BISHOP ==> Abs(k * FileStep(offset)) == Abs(k * RowStep(offset)) == k
    ensures t == QUEEN ==>
      (k * FileStep(offset) == 0) != (k * RowStep(offset) == 0) ||
      Abs(k * FileStep(offset)) == Abs(k * RowStep(offset)) == k
  {
    var fs, rs := FileStep(offset), RowStep(offset);
    assert (fs == 0 && (rs == 1 || rs == -1)) || (rs == 0 && (fs == 1 || fs == -1)) ||
      ((fs == 1 || fs == -1) && (rs == 1 || rs == -1));
    assert t == ROOK ==> fs == 0 || rs == 0;
    assert t == BISHOP ==> fs != 0 && rs != 0;
  }

  /** No slider stays put or lands on its own side; a rook stays on its rank
      or file, a bishop on a diagonal, and a queen on one or the other. */
  lemma SlidingLines(b: Board, piece: Piece, dest: int)
    requires WellFormed(b) && IsSlider(piece.pieceType) && IsValidTileCoord(piece.piecePosition)
    requires dest in Destinations(SlidingLegalMoves(b, piece))
    ensures IsValidTileCoord(dest) && dest != piece.piecePosition && !IsOwnOn(b, dest, piece.pieceAlliance)
    ensures piece.pieceType == ROOK ==>
      (FileOf(dest) == FileOf(piece.piecePosition)) != (RowOf(dest) == RowOf(piece.piecePosition))
    ensures piece.pieceType == BISHOP ==>
      FileDistance(piece.piecePosition, dest) == RowDistance(piece.piecePosition, dest) > 0
    ensures piece.pieceType == QUEEN ==>
      (FileOf(dest) == FileOf(piece.piecePosition)) != (RowOf(dest) == RowOf(piece.piecePosition)) ||
      FileDistance(piece.piecePosition, dest) == RowDistance(piece.piecePosition, dest) > 0
  {
    SlidingMovesExact(b, piece);
    var offset :| offset in Offsets(piece.pieceType) && Reaches(b, piece.pieceAlliance, offset, piece.piecePosition, dest);
    var k := ReachesAlongLine(b, piece.pieceAlliance, offset, piece.piecePosition, dest);
    StepsShape(piece.pieceType, offset, k);
  }

  /** The queen's offsets are the rook's and the bishop's together, so a queen
      reaches exactly what a rook and a bishop of its side on its square reach. */
  lemma QueenIsRookPlusBishop(b: Board, queen: Piece, dest: int)
    requires WellFormed(b) && queen.pieceType == QUEEN && IsValidTileCoord(queen.piecePosition)
    ensures dest in Destinations(SlidingLegalMoves(b, queen)) <==>
      dest in Destinations(SlidingLegalMoves(b, queen.(pieceType := ROOK))) ||
      dest in Destinations(SlidingLegalMoves(b, queen.(pieceType := BISHOP)))
  {
    var rook := queen.(pieceType := ROOK);
    var bishop := queen.(pieceType := BISHOP);
    SlidingMovesExact(b, queen);
    SlidingMovesExact(b, rook);
    SlidingMovesExact(b, bishop);
    assert forall offset :: offset in Offsets(QUEEN) <==> offset in Offsets(ROOK) || offset in Offsets(BISHOP);
  }
}
