/** The moves of the starting position that createStandardBoard builds. Every
    pawn can push one square or jump two, each knight has its two forward
    jumps, and every other piece is boxed in by its own pieces: twenty moves a
    side, and no castle. */
module Opening {
  import opened Wrappers
  import opened BoardUtils
  import opened Alliances
  import opened Pieces
  import opened Tiles
  import opened Boards
  import opened Moves
  import opened MoveGeneration
  import opened Players
  import opened Builders
  import PawnMoves
  import KnightMoves
  import KingMoves
  import SlidingMoves

  /** A board whose tiles hold the starting pieces, with no en-passant pawn. */
  predicate StartingLayout(b: Board)
  {
    WellFormed(b) && b.enPassantPawn.None? &&
    forall sq :: 0 <= sq < NUM_TILES ==> b.gameBoard[sq].GetPiece() == StandardPiece(sq)
  }

  /** The squares between the home rows are empty. */
  lemma EmptyMiddle(b: Board, sq: int)
    requires StartingLayout(b) && 16 <= sq < 48
    ensures !IsOccupied(b, sq)
  {
    assert b.gameBoard[sq].GetPiece() == StandardPiece(sq);
  }

  /** A home square holds its starting piece. */
  lemma HomeSquare(b: Board, sq: int)
    requires StartingLayout(b) && StandardPiece(sq).Some?
    ensures IsValidTileCoord(sq) && IsOccupied(b, sq) && PieceOn(b, sq) == StandardPiece(sq).value
  {
    assert b.gameBoard[sq].GetPiece() == StandardPiece(sq);
  }

  // ---------------------------------------------------------------------------
  // The moves of each starting piece

  predicate IsPawnSquare(sq: int)
  {
    8 <= sq < 16 || 48 <= sq < 56
  }

  predicate IsKnightSquare(sq: int)
  {
    sq == 1 || sq == 6 || sq == 57 || sq == 62
  }

  /** The moves the piece on starting square sq has: a pawn its push and its
      jump, a knight its two forward jumps, any other piece none. */
  function OpeningMovesOf(b: Board, sq: int): seq<Move>
    requires StandardPiece(sq).Some?
  {
    var p := StandardPiece(sq).value;
    var d := Direction(p.pieceAlliance);
    if IsPawnSquare(sq) then [PawnMove(b, p, sq + 8 * d), PawnJump(b, p, sq + 16 * d)]
    else if IsKnightSquare(sq) then
      if sq < 8 then [MajorMove(b, p, sq + 15), MajorMove(b, p, sq + 17)]
      else [MajorMove(b, p, sq - 17), MajorMove(b, p, sq - 15)]
    else []
  }

  /** A starting pawn cannot capture: both forward diagonals are empty or
      outside the branch's file guard. */
  lemma PawnNoCapture(b: Board, sq: int, offset: int)
    requires StartingLayout(b) && IsPawnSquare(sq) && (offset == 7 || offset == 9)
    ensures PawnMoves.PawnCandidate(b, StandardPiece(sq).value, offset) == []
  {
    var p := StandardPiece(sq).value;
    var dest := sq + offset * Direction(p.pieceAlliance);
    if 16 <= dest < 48 {
      EmptyMiddle(b, dest);
    }
  }

  lemma PawnPush(b: Board, sq: int)
    requires StartingLayout(b) && IsPawnSquare(sq)
    ensures var p := StandardPiece(sq).value;
      PawnMoves.PawnCandidate(b, p, 8) == [PawnMove(b, p, sq + 8 * Direction(p.pieceAlliance))]
  {
    var p := StandardPiece(sq).value;
    EmptyMiddle(b, sq + 8 * Direction(p.pieceAlliance));
  }

  lemma PawnJumpAhead(b: Board, sq: int)
    requires StartingLayout(b) && IsPawnSquare(sq)
    ensures var p := StandardPiece(sq).value;
      PawnMoves.PawnCandidate(b, p, 16) == [PawnJump(b, p, sq + 16 * Direction(p.pieceAlliance))]
  {
    var p := StandardPiece(sq).value;
    EmptyMiddle(b, sq + 8 * Direction(p.pieceAlliance));
    EmptyMiddle(b, sq + 16 * Direction(p.pieceAlliance));
  }

  lemma PawnOpening(b: Board, sq: int)
    requires StartingLayout(b) && IsPawnSquare(sq)
    ensures PieceLegalMoves(b, StandardPiece(sq).value) == OpeningMovesOf(b, sq)
  {
    var p := StandardPiece(sq).value;
    var push := PawnMove(b, p, sq + 8 * Direction(p.pieceAlliance));
    var jump := PawnJump(b, p, sq + 16 * Direction(p.pieceAlliance));
    PawnNoCapture(b, sq, 7);
    PawnPush(b, sq);
    PawnNoCapture(b, sq, 9);
    PawnJumpAhead(b, sq);
    assert PawnMoves.PawnMovesUpTo(b, p, 1) == [];
    assert PawnMoves.PawnMovesUpTo(b, p, 2) == [push];
    assert PawnMoves.PawnMovesUpTo(b, p, 3) == [push];
    assert PawnMoves.PawnMovesUpTo(b, p, 4) == [push, jump];
  }

  /** The jump targets of a starting knight: forward to the third rank. */
  predicate KnightTarget(sq: int, offset: int)
  {
    if sq < 8 then offset == 15 || offset == 17 else offset == -17 || offset == -15
  }

  /** Each offset of a starting knight gives its forward jump or nothing: the
      other squares are off the board, excluded, or held by its own side. */
  lemma KnightJumpFrom(b: Board, sq: int, offset: int)
    requires StartingLayout(b) && IsKnightSquare(sq) && offset in KnightMoves.CANDIDATE_MOVE_COORDINATES
    ensures var p := StandardPiece(sq).value;
      KnightMoves.KnightCandidate(b, p, offset) == if KnightTarget(sq, offset) then [MajorMove(b, p, sq + offset)] else []
  {
    var dest := sq + offset;
    if 16 <= dest < 48 {
      EmptyMiddle(b, dest);
    } else if IsValidTileCoord(dest) {
      HomeSquare(b, dest);
    }
  }

  /** A knight's moves are its eight candidates' moves, in offset order. */
  lemma KnightFold(b: Board, knight: Piece, c: seq<seq<Move>>)
    requires WellFormed(b) && IsValidTileCoord(knight.piecePosition) && |c| == 8
    requires forall k :: 0 <= k < 8 ==>
      KnightMoves.KnightCandidate(b, knight, KnightMoves.CANDIDATE_MOVE_COORDINATES[k]) == c[k]
    ensures KnightMoves.KnightLegalMoves(b, knight) == c[0] + c[1] + c[2] + c[3] + c[4] + c[5] + c[6] + c[7]
  {
    assert KnightMoves.KnightMovesUpTo(b, knight, 1) == c[0];
    assert KnightMoves.KnightMovesUpTo(b, knight, 2) == c[0] + c[1];
    assert KnightMoves.KnightMovesUpTo(b, knight, 3) == c[0] + c[1] + c[2];
    assert KnightMoves.KnightMovesUpTo(b, knight, 4) == c[0] + c[1] + c[2] + c[3];
    assert KnightMoves.KnightMovesUpTo(b, knight, 5) == c[0] + c[1] + c[2] + c[3] + c[4];
    assert KnightMoves.KnightMovesUpTo(b, knight, 6) == c[0] + c[1] + c[2] + c[3] + c[4] + c[5];
    assert KnightMoves.KnightMovesUpTo(b, knight, 7) == c[0] + c[1] + c[2] + c[3] + c[4] + c[5] + c[6];
  }

  /** The candidates of a starting knight, offset by offset. */
  function KnightTargets(b: Board, sq: int): (c: seq<seq<Move>>)
    requires IsKnightSquare(sq)
    ensures |c| == 8
  {
    var p := StandardPiece(sq).value;
    seq(8, k requires 0 <= k < 8 =>
      var offset := KnightMoves.CANDIDATE_MOVE_COORDINATES[k];
      if KnightTarget(sq, offset) then [MajorMove(b, p, sq + offset)] else [])
  }

  /** The candidates add up to the two forward jumps. */
  lemma KnightTargetsSum(b: Board, sq: int)
    requires IsKnightSquare(sq)
    ensures var c := KnightTargets(b, sq);
      c[0] + c[1] + c[2] + c[3] + c[4] + c[5] + c[6] + c[7] == OpeningMovesOf(b, sq)
  {
    var c := KnightTargets(b, sq);
    if sq < 8 {
      assert c[0] == c[1] == c[2] == c[3] == c[4] == c[5] == [];
    } else {
      assert c[2] == c[3] == c[4] == c[5] == c[6] == c[7] == [];
    }
  }

  /** Each knight jumps forward twice: Black's to the sixth rank, White's to
      the third. */
  lemma KnightOpening(b: Board, sq: int)
    requires StartingLayout(b) && IsKnightSquare(sq)
    ensures PieceLegalMoves(b, StandardPiece(sq).value) == OpeningMovesOf(b, sq)
  {
    var p := StandardPiece(sq).value;
    var c := KnightTargets(b, sq);
    forall k | 0 <= k < 8
      ensures KnightMoves.KnightCandidate(b, p, KnightMoves.CANDIDATE_MOVE_COORDINATES[k]) == c[k]
    {
      KnightJumpFrom(b, sq, KnightMoves.CANDIDATE_MOVE_COORDINATES[k]);
    }
    KnightFold(b, p, c);
    KnightTargetsSum(b, sq);
  }

  /** A sliding piece none of whose rays leaves its square has no move. */
  lemma {:induction false} NoRayNoMove(b: Board, piece: Piece, n: int)
    requires WellFormed(b) && SlidingMoves.IsSlider(piece.pieceType)
    requires 0 <= n <= |SlidingMoves.Offsets(piece.pieceType)|
    requires forall i :: 0 <= i < n ==>
      SlidingMoves.Ray(b, piece, SlidingMoves.Offsets(piece.pieceType)[i], piece.piecePosition) == []
    ensures SlidingMoves.SlidingMovesUpTo(b, piece, n) == []
  {
    if n > 0 {
      NoRayNoMove(b, piece, n - 1);
    }
  }

  /** A king with no admissible step has no move. */
  lemma {:induction false} NoStepNoMove(b: Board, king: Piece, n: int)
    requires WellFormed(b) && IsValidTileCoord(king.piecePosition)
    requires 0 <= n <= |KingMoves.CANDIDATE_MOVE_VECTOR_COORDINATES|
    requires forall i :: 0 <= i < n ==>
      KingMoves.KingCandidate(b, king, KingMoves.CANDIDATE_MOVE_VECTOR_COORDINATES[i]) == []
    ensures KingMoves.KingMovesUpTo(b, king, n) == []
  {
    if n > 0 {
      NoStepNoMove(b, king, n - 1);
    }
  }

  /** Every square one step from a back-rank square lies on that side's two
      home rows, save the steps from a8 and h1 that wrap round to the rank
      beyond. */
  lemma NeighbourIsHome(sq: int, offset: int)
    requires (0 <= sq < 8 || 56 <= sq < 64) && -9 <= offset <= 9
    requires IsValidTileCoord(sq + offset) && (sq == 7 ==> offset != 9) && (sq == 56 ==> offset != -9)
    ensures StandardPiece(sq + offset).Some?
    ensures StandardPiece(sq + offset).value.pieceAlliance == StandardPiece(sq).value.pieceAlliance
  {
    if sq < 8 {
      assert 0 <= sq + offset < 16;
    } else {
      assert 48 <= sq + offset < 64;
    }
  }

  lemma BackRankBlocked(b: Board, sq: int)
    requires StartingLayout(b) && StandardPiece(sq).Some? && !IsPawnSquare(sq) && !IsKnightSquare(sq)
    ensures PieceLegalMoves(b, StandardPiece(sq).value) == OpeningMovesOf(b, sq)
  {
    var p := StandardPiece(sq).value;
    if p.pieceType == KING {
      forall i | 0 <= i < |KingMoves.CANDIDATE_MOVE_VECTOR_COORDINATES|
        ensures KingMoves.KingCandidate(b, p, KingMoves.CANDIDATE_MOVE_VECTOR_COORDINATES[i]) == []
      {
        var offset := KingMoves.CANDIDATE_MOVE_VECTOR_COORDINATES[i];
        if IsValidTileCoord(sq + offset) {
          NeighbourIsHome(sq, offset);
          HomeSquare(b, sq + offset);
        }
      }
      NoStepNoMove(b, p, |KingMoves.CANDIDATE_MOVE_VECTOR_COORDINATES|);
    } else {
      var offsets := SlidingMoves.Offsets(p.pieceType);
      forall i | 0 <= i < |offsets|
        ensures SlidingMoves.Ray(b, p, offsets[i], sq) == []
      {
        if IsValidTileCoord(sq + offsets[i]) {
          NeighbourIsHome(sq, offsets[i]);
          HomeSquare(b, sq + offsets[i]);
        }
      }
      NoRayNoMove(b, p, |offsets|);
    }
  }

  /** The moves of every starting piece are exactly OpeningMovesOf. */
  lemma PieceOpening(b: Board, sq: int)
    requires StartingLayout(b) && StandardPiece(sq).Some?
    ensures IsValidTileCoord(StandardPiece(sq).value.piecePosition)
    ensures PieceLegalMoves(b, StandardPiece(sq).value) == OpeningMovesOf(b, sq)
  {
    if IsPawnSquare(sq) {
      PawnOpening(b, sq);
    } else if IsKnightSquare(sq) {
      KnightOpening(b, sq);
    } else {
      BackRankBlocked(b, sq);
    }
  }

  // ---------------------------------------------------------------------------
  // The moves of a side

  /** The side's first square: a8 for Black, a2 for White. */
  function FirstSquare(a: Alliance): int
  {
    if a == WHITE then 48 else 0
  }

  /** The side's sixteen starting pieces, in square order. */
  function StartingPieces(a: Alliance): (pieces: seq<Piece>)
    ensures |pieces| == 16
    ensures forall k :: 0 <= k < 16 ==> pieces[k].piecePosition == FirstSquare(a) + k
  {
    var first := FirstSquare(a);
    var pieces := seq(16, k requires 0 <= k < 16 => StandardPiece(first + k).value);
    assert forall k :: 0 <= k < 16 ==> pieces[k] == StandardPiece(first + k).value;
    pieces
  }

  /** The moves of the pieces on squares first .. first + n - 1, in square order. */
  function OpeningMovesUpTo(b: Board, first: int, n: int): seq<Move>
    requires (first == 0 || first == 48) && 0 <= n <= 16
  {
    if n == 0 then [] else OpeningMovesUpTo(b, first, n - 1) + OpeningMovesOf(b, first + n - 1)
  }

  /** How many moves the piece on starting square sq has. */
  function OpeningCount(sq: int): nat
  {
    if IsPawnSquare(sq) || IsKnightSquare(sq) then 2 else 0
  }

  function OpeningCountUpTo(first: int, n: int): nat
    requires 0 <= n
  {
    if n == 0 then 0 else OpeningCountUpTo(first, n - 1) + OpeningCount(first + n - 1)
  }

  lemma {:induction false} OpeningMovesUpToLength(b: Board, first: int, n: int)
    requires (first == 0 || first == 48) && 0 <= n <= 16
    ensures |OpeningMovesUpTo(b, first, n)| == OpeningCountUpTo(first, n)
  {
    if n > 0 {
      OpeningMovesUpToLength(b, first, n - 1);
    }
  }

  /** A run of squares with c moves each adds c moves per square. */
  lemma {:induction false} OpeningCountRun(first: int, m: int, n: int, c: nat)
    requires 0 <= m <= n
    requires forall sq :: first + m <= sq < first + n ==> OpeningCount(sq) == c
    ensures OpeningCountUpTo(first, n) == OpeningCountUpTo(first, m) + c * (n - m)
    decreases n
  {
    if n > m {
      OpeningCountRun(first, m, n - 1, c);
      assert OpeningCount(first + n - 1) == c;
    }
  }

  /** Each side's sixteen starting pieces have twenty moves between them. */
  lemma OpeningCountTwenty(a: Alliance)
    ensures OpeningCountUpTo(FirstSquare(a), 16) == 20
  {
    if a == WHITE {
      OpeningCountRun(48, 0, 8, 2);
      assert OpeningCountUpTo(48, 9) == 16;
      assert OpeningCountUpTo(48, 10) == 18;
      OpeningCountRun(48, 10, 14, 0);
      assert OpeningCountUpTo(48, 15) == 20;
      assert OpeningCountUpTo(48, 16) == 20;
    } else {
      assert OpeningCountUpTo(0, 1) == 0;
      assert OpeningCountUpTo(0, 2) == 2;
      OpeningCountRun(0, 2, 6, 0);
      assert OpeningCountUpTo(0, 7) == 4;
      assert OpeningCountUpTo(0, 8) == 4;
      OpeningCountRun(0, 8, 16, 2);
    }
  }

  /** The side's active pieces are its sixteen starting pieces. */
  lemma StartingActivePieces(b: Board, a: Alliance)
    requires StartingLayout(b)
    ensures ActivePieces(b, a) == StartingPieces(a)
  {
    var g := b.gameBoard;
    var first := FirstSquare(a);
    forall i | 0 <= i < NUM_TILES
      ensures g[i].GetPiece() == StandardPiece(i)
    {
    }
    if a == WHITE {
      ActiveSkip(g, a, 0, 48);
      ActiveTake(g, a, 48, 64);
    } else {
      ActiveTake(g, a, 0, 16);
      ActiveSkip(g, a, 16, 64);
    }
    assert ActivePieces(b, a) == ActivePiecesUpTo(g, a, 64);
  }

  /** Tiles without a piece of side a add nothing to the active pieces. */
  lemma {:induction false} ActiveSkip(g: seq<Tile>, a: Alliance, m: int, n: int)
    requires 0 <= m <= n <= |g|
    requires forall i :: m <= i < n ==> !(g[i].IsTileOccupied() && g[i].pieceOnTile.pieceAlliance == a)
    ensures ActivePiecesUpTo(g, a, n) == ActivePiecesUpTo(g, a, m)
    decreases n
  {
    if n > m {
      ActiveSkip(g, a, m, n - 1);
    }
  }

  /** Tiles that all hold a piece of side a add those pieces, in tile order. */
  lemma {:induction false} ActiveTake(g: seq<Tile>, a: Alliance, m: int, n: int)
    requires 0 <= m <= n <= |g|
    requires forall i :: m <= i < n ==> g[i].IsTileOccupied() && g[i].pieceOnTile.pieceAlliance == a
    ensures ActivePiecesUpTo(g, a, n) ==
      ActivePiecesUpTo(g, a, m) + seq(n - m, k requires 0 <= k < n - m && g[m + k].IsTileOccupied() => g[m + k].pieceOnTile)
    decreases n
  {
    if n > m {
      ActiveTake(g, a, m, n - 1);
      assert seq(n - m, k requires 0 <= k < n - m && g[m + k].IsTileOccupied() => g[m + k].pieceOnTile) ==
        seq(n - 1 - m, k requires 0 <= k < n - 1 - m && g[m + k].IsTileOccupied() => g[m + k].pieceOnTile) +
        [g[n - 1].pieceOnTile];
    }
  }

  /** The moves of the first n starting pieces of a side. */
  lemma {:induction false} StartingMovesUpTo(b: Board, a: Alliance, n: int)
    requires StartingLayout(b) && 0 <= n <= 16
    ensures OnBoard(StartingPieces(a)[..n])
    ensures MovesOfPieces(b, StartingPieces(a)[..n]) == OpeningMovesUpTo(b, FirstSquare(a), n)
  {
    var pieces := StartingPieces(a);
    if n > 0 {
      StartingMovesUpTo(b, a, n - 1);
      assert pieces[..n][..n - 1] == pieces[..n - 1];
      PieceOpening(b, FirstSquare(a) + n - 1);
    }
  }

  /** Each side's standard moves in the starting position, in the order the
      Board constructor collects them: Black's two knights then its eight
      pawns, White's eight pawns then its two knights. Each pawn pushes one
      square or jumps two, each knight jumps two ranks forward; twenty moves in
      all. */
  lemma StartingMoves(b: Board, a: Alliance)
    requires StartingLayout(b)
    ensures StandardMoves(b, a) == OpeningMovesUpTo(b, FirstSquare(a), 16)
    ensures |StandardMoves(b, a)| == 20
  {
    StartingActivePieces(b, a);
    StartingMovesUpTo(b, a, 16);
    assert StartingPieces(a)[..16] == StartingPieces(a);
    OpeningMovesUpToLength(b, FirstSquare(a), 16);
    OpeningCountTwenty(a);
  }

  /** createStandardBoard's board is Valid and holds the starting pieces. */
  lemma StandardBoardStarting()
    ensures Valid(StandardBoard()) && StartingLayout(StandardBoard())
  {
    StandardBoardBuilds();
  }

  /** A King whose f1 and b1 are occupied has no castle. */
  lemma WhiteCastlesBlocked(b: Board, opponentLegals: seq<Move>)
    requires WellFormed(b) && HasKing(b, WHITE) && IsOccupied(b, 57) && IsOccupied(b, 61)
    ensures WhiteCastles(b, opponentLegals) == []
  {
    WhiteCastlesExact(b, opponentLegals);
  }

  /** A King whose f8 and b8 are occupied has no castle, and no failure. */
  lemma BlackCastlesBlocked(b: Board, opponentLegals: seq<Move>)
    requires WellFormed(b) && HasKing(b, BLACK) && IsOccupied(b, 1) && IsOccupied(b, 5)
    ensures BlackCastles(b, opponentLegals) == Ok([])
  {
    BlackCastlesExact(b, opponentLegals);
  }

  /** Neither side can castle at the start: f1 and b1 (f8 and b8) are occupied. */
  lemma StandardBoardCastles(a: Alliance)
    ensures Valid(StandardBoard()) && Castles(StandardBoard(), a) == []
  {
    StandardBoardStarting();
    var b := StandardBoard();
    if a == WHITE {
      HomeSquare(b, 57);
      HomeSquare(b, 61);
      WhiteCastlesBlocked(b, StandardMoves(b, BLACK));
    } else {
      HomeSquare(b, 1);
      HomeSquare(b, 5);
      BlackCastlesBlocked(b, StandardMoves(b, WHITE));
    }
  }

  /** createStandardBoard's board: each side has twenty standard moves, no
      castle, and so twenty legal moves. */
  lemma StandardBoardMoves(a: Alliance)
    ensures Valid(StandardBoard())
    ensures |StandardMoves(StandardBoard(), a)| == 20
    ensures Castles(StandardBoard(), a) == []
    ensures |LegalMoves(StandardBoard(), a)| == 20
  {
    StandardBoardStarting();
    StartingMoves(StandardBoard(), a);
    StandardBoardCastles(a);
  }
}
