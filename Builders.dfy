/** Board.Builder and the Board constructor it calls. The builder collects
    pieces keyed by square, the side to move and the en-passant pawn; build()
    lays the pieces on 64 tiles and constructs both players, which is where the
    engine's exceptions arise: a side without a King, Black's king-side castle
    casting a non-Rook, and a missing side to move. */
module Builders {
  import opened Wrappers
  import opened BoardUtils
  import opened Alliances
  import opened Pieces
  import opened Tiles
  import opened Boards
  import opened MoveGeneration
  import opened Players

  /** What new Board(builder) yields for the builder's three fields, failing
      in the order the constructor runs: the white player (its king), the black
      player (its king, then its castles), then choosePlayer on the side to move. */
  function BuildSpec(config: map<int, Piece>, nextMoveMaker: Option<Alliance>, enPassantPawn: Option<Piece>): (r: Result<Board, Failure>)
    requires KeyedBySquare(config)
    ensures r.Ok? ==> (Valid(r.value) && r.value.gameBoard == GameBoardFor(config) &&
                       nextMoveMaker == Some(r.value.nextMoveMaker) && r.value.enPassantPawn == enPassantPawn)
  {
    var mover := if nextMoveMaker.Some? then nextMoveMaker.value else WHITE;
    var b := Board(GameBoardFor(config), enPassantPawn, mover);
    GameBoardWellFormed(config, enPassantPawn, mover);
    if !HasKing(b, WHITE) then Err(MissingKing(WHITE))
    else if !HasKing(b, BLACK) then Err(MissingKing(BLACK))
    else if BlackCastles(b, StandardMoves(b, WHITE)).Err? then Err(CastleRookNotARook)
    else if nextMoveMaker.None? then Err(MissingMoveMaker)
    else Ok(b)
  }

  /** The build fails exactly when a side has no King, Black's castle cast
      fails, or no side to move was set; and it never fails for any other reason. */
  lemma BuildFailures(config: map<int, Piece>, nextMoveMaker: Option<Alliance>, enPassantPawn: Option<Piece>)
    requires KeyedBySquare(config)
    ensures var b := Board(GameBoardFor(config), enPassantPawn, WHITE);
      WellFormed(b) &&
      (BuildSpec(config, nextMoveMaker, enPassantPawn).Ok? <==>
        HasKing(b, WHITE) && HasKing(b, BLACK) && !(BlackKingSideAllowed(b) && PieceOn(b, 7).pieceType != ROOK) &&
        nextMoveMaker.Some?)
    ensures BuildSpec(config, nextMoveMaker, enPassantPawn).Err? ==>
      BuildSpec(config, nextMoveMaker, enPassantPawn).error != NullMoveExecuted
    ensures BuildSpec(config, nextMoveMaker, enPassantPawn).Ok? ==>
      forall i :: 0 <= i < NUM_TILES ==>
        BuildSpec(config, nextMoveMaker, enPassantPawn).value.gameBoard[i].GetPiece() == Lookup(config, i)
  {
    var mover := if nextMoveMaker.Some? then nextMoveMaker.value else WHITE;
    var b := Board(GameBoardFor(config), enPassantPawn, mover);
    var w := Board(GameBoardFor(config), enPassantPawn, WHITE);
    GameBoardWellFormed(config, enPassantPawn, mover);
    GameBoardWellFormed(config, enPassantPawn, WHITE);
    assert ActivePieces(b, WHITE) == ActivePieces(w, WHITE);
    assert ActivePieces(b, BLACK) == ActivePieces(w, BLACK);
    if HasKing(b, BLACK) {
      BlackCastlesExact(b, StandardMoves(b, WHITE));
    }
  }

  class Builder {
    var boardConfig: map<int, Piece>
    var nextMoveMaker: Option<Alliance>
    var enPassantPawn: Option<Piece>

    /** setPiece keys every piece by its own square. */
    ghost predicate Keyed()
      reads this
    {
      KeyedBySquare(boardConfig)
    }

    constructor()
      ensures Keyed()
      ensures boardConfig == map[] && nextMoveMaker == None && enPassantPawn == None
    {
      boardConfig := map[];
      nextMoveMaker := None;
      enPassantPawn := None;
    }

    /** setPiece: the piece replaces whatever the map held for its square. */
    method SetPiece(piece: Piece)
      requires Keyed()
      modifies this
      ensures Keyed()
      ensures boardConfig == old(boardConfig)[piece.piecePosition := piece]
      ensures nextMoveMaker == old(nextMoveMaker) && enPassantPawn == old(enPassantPawn)
    {
      boardConfig := boardConfig[piece.piecePosition := piece];
    }

    method SetMoveMaker(moveMaker: Alliance)
      modifies this
      ensures nextMoveMaker == Some(moveMaker)
      ensures boardConfig == old(boardConfig) && enPassantPawn == old(enPassantPawn)
    {
      nextMoveMaker := Some(moveMaker);
    }

    /** setEnPassantPawn takes a Pawn. */
    method SetEnPassantPawn(pawn: Piece)
      requires pawn.pieceType == PAWN
      modifies this
      ensures enPassantPawn == Some(pawn)
      ensures boardConfig == old(boardConfig) && nextMoveMaker == old(nextMoveMaker)
    {
      enPassantPawn := Some(pawn);
    }

    /** build(): the Board constructor's steps in order. The move lists the
        constructor also computes are not stored: they are the functions
        StandardMoves and LegalMoves of the resulting board. */
    method Build() returns (r: Result<Board, Failure>)
      requires Keyed()
      ensures r == BuildSpec(boardConfig, nextMoveMaker, enPassantPawn)
    {
      var gameBoard := CreateGameBoard(boardConfig);
      var whitePieces := CalculateActivePieces(gameBoard, WHITE);
      var blackPieces := CalculateActivePieces(gameBoard, BLACK);
      var mover := if nextMoveMaker.Some? then nextMoveMaker.value else WHITE;
      var b := Board(gameBoard, enPassantPawn, mover);
      GameBoardWellFormed(boardConfig, enPassantPawn, mover);
      var whiteKing := EstablishKing(whitePieces);
      if whiteKing.None? {
        return Err(MissingKing(WHITE));
      }
      var blackKing := EstablishKing(blackPieces);
      if blackKing.None? {
        return Err(MissingKing(BLACK));
      }
      var blackCastles := BlackCastles(b, StandardMoves(b, WHITE));
      if blackCastles.Err? {
        return Err(CastleRookNotARook);
      }
      if nextMoveMaker.None? {
        return Err(MissingMoveMaker);
      }
      return Ok(b);
    }
  }

  // ---------------------------------------------------------------------------
  // createStandardBoard

  /** The back rank from the a-file to the h-file. */
  function BackRank(file: int): PieceType
    requires 0 <= file < 8
  {
    [ROOK, KNIGHT, BISHOP, QUEEN, KING, BISHOP, KNIGHT, ROOK][file]
  }

  /** The starting position: Black on rows 0 and 1, White on rows 6 and 7,
      every piece not yet moved. */
  function StandardPiece(sq: int): (r: Option<Piece>)
    ensures r.Some? <==> 0 <= sq < 16 || 48 <= sq < 64
    ensures r.Some? ==> r.value.piecePosition == sq && r.value.isFirstMove
    ensures r.Some? ==> r.value.pieceAlliance == if sq < 16 then BLACK else WHITE
  {
    if 0 <= sq < 8 then Some(NewPiece(BackRank(sq), BLACK, sq))
    else if 8 <= sq < 16 then Some(NewPiece(PAWN, BLACK, sq))
    else if 48 <= sq < 56 then Some(NewPiece(PAWN, WHITE, sq))
    else if 56 <= sq < 64 then Some(NewPiece(BackRank(sq - 56), WHITE, sq))
    else None
  }

  /** The builder's map after createStandardBoard's 32 setPiece calls. */
  function StandardConfig(): map<int, Piece>
  {
    map[
      0 := NewPiece(ROOK, BLACK, 0), 1 := NewPiece(KNIGHT, BLACK, 1), 2 := NewPiece(BISHOP, BLACK, 2), 3 := NewPiece(QUEEN, BLACK, 3),
      4 := NewPiece(KING, BLACK, 4), 5 := NewPiece(BISHOP, BLACK, 5), 6 := NewPiece(KNIGHT, BLACK, 6), 7 := NewPiece(ROOK, BLACK, 7),
      8 := NewPiece(PAWN, BLACK, 8), 9 := NewPiece(PAWN, BLACK, 9), 10 := NewPiece(PAWN, BLACK, 10), 11 := NewPiece(PAWN, BLACK, 11),
      12 := NewPiece(PAWN, BLACK, 12), 13 := NewPiece(PAWN, BLACK, 13), 14 := NewPiece(PAWN, BLACK, 14), 15 := NewPiece(PAWN, BLACK, 15),
      48 := NewPiece(PAWN, WHITE, 48), 49 := NewPiece(PAWN, WHITE, 49), 50 := NewPiece(PAWN, WHITE, 50), 51 := NewPiece(PAWN, WHITE, 51),
      52 := NewPiece(PAWN, WHITE, 52), 53 := NewPiece(PAWN, WHITE, 53), 54 := NewPiece(PAWN, WHITE, 54), 55 := NewPiece(PAWN, WHITE, 55),
      56 := NewPiece(ROOK, WHITE, 56), 57 := NewPiece(KNIGHT, WHITE, 57), 58 := NewPiece(BISHOP, WHITE, 58), 59 := NewPiece(QUEEN, WHITE, 59),
      60 := NewPiece(KING, WHITE, 60), 61 := NewPiece(BISHOP, WHITE, 61), 62 := NewPiece(KNIGHT, WHITE, 62), 63 := NewPiece(ROOK, WHITE, 63)
    ]
  }

  /** That map holds exactly the starting position, keyed by square. */
  lemma StandardConfigLayout()
    ensures KeyedBySquare(StandardConfig())
    ensures forall sq :: Lookup(StandardConfig(), sq) == StandardPiece(sq)
  {
    var config := StandardConfig();
    forall sq
      ensures Lookup(config, sq) == StandardPiece(sq)
    {
      if sq in config {
        if sq < 8 {
          assert config[sq] == NewPiece(BackRank(sq), BLACK, sq);
        } else if sq < 16 {
          assert config[sq] == NewPiece(PAWN, BLACK, sq);
        } else if sq < 56 {
          assert config[sq] == NewPiece(PAWN, WHITE, sq);
        } else {
          assert config[sq] == NewPiece(BackRank(sq - 56), WHITE, sq);
        }
      }
    }
  }

  function StandardBoard(): Board
  {
    Board(GameBoardFor(StandardConfig()), None, WHITE)
  }

  /** A board with a King of each side is Valid when f8 is occupied: Black's
      king-side castle then needs f8 empty and so never reaches the cast of
      the piece on h8 to Rook, which is the one way the constructor's player
      checks can fail once both Kings are found. */
  lemma ValidWhenF8Blocked(b: Board, whiteKing: int, blackKing: int)
    requires WellFormed(b) && IsValidTileCoord(whiteKing) && IsValidTileCoord(blackKing)
    requires IsOccupied(b, whiteKing) && PieceOn(b, whiteKing).pieceType == KING && PieceOn(b, whiteKing).pieceAlliance == WHITE
    requires IsOccupied(b, blackKing) && PieceOn(b, blackKing).pieceType == KING && PieceOn(b, blackKing).pieceAlliance == BLACK
    requires IsOccupied(b, 5)
    ensures Valid(b)
  {
    ActivePiecesExact(b, WHITE);
    ActivePiecesExact(b, BLACK);
    assert PieceOn(b, whiteKing) in ActivePieces(b, WHITE);
    assert PieceOn(b, blackKing) in ActivePieces(b, BLACK);
    BlackCastlesExact(b, StandardMoves(b, WHITE));
  }

  /** The starting position builds, with the starting pieces on its tiles. */
  lemma StandardBoardBuilds()
    ensures BuildSpec(StandardConfig(), Some(WHITE), None) == Ok(StandardBoard())
    ensures forall sq :: 0 <= sq < NUM_TILES ==> StandardBoard().gameBoard[sq].GetPiece() == StandardPiece(sq)
    ensures Valid(StandardBoard())
  {
    StandardConfigLayout();
    GameBoardWellFormed(StandardConfig(), None, WHITE);
    ValidWhenF8Blocked(StandardBoard(), 60, 4);
  }

  /** createStandardBoard: 32 setPiece calls, White to move. */
  method CreateStandardBoard() returns (r: Result<Board, Failure>)
    ensures r == Ok(StandardBoard())
  {
    var builder := new Builder();
    builder.SetPiece(NewPiece(ROOK, BLACK, 0));
    builder.SetPiece(NewPiece(KNIGHT, BLACK, 1));
    builder.SetPiece(NewPiece(BISHOP, BLACK, 2));
    builder.SetPiece(NewPiece(QUEEN, BLACK, 3));
    builder.SetPiece(NewPiece(KING, BLACK, 4));
    builder.SetPiece(NewPiece(BISHOP, BLACK, 5));
    builder.SetPiece(NewPiece(KNIGHT, BLACK, 6));
    builder.SetPiece(NewPiece(ROOK, BLACK, 7));

    builder.SetPiece(NewPiece(PAWN, BLACK, 8));
    builder.SetPiece(NewPiece(PAWN, BLACK, 9));
    builder.SetPiece(NewPiece(PAWN, BLACK, 10));
    builder.SetPiece(NewPiece(PAWN, BLACK, 11));
    builder.SetPiece(NewPiece(PAWN, BLACK, 12));
    builder.SetPiece(NewPiece(PAWN, BLACK, 13));
    builder.SetPiece(NewPiece(PAWN, BLACK, 14));
    builder.SetPiece(NewPiece(PAWN, BLACK, 15));

    builder.SetPiece(NewPiece(PAWN, WHITE, 48));
    builder.SetPiece(NewPiece(PAWN, WHITE, 49));
    builder.SetPiece(NewPiece(PAWN, WHITE, 50));
    builder.SetPiece(NewPiece(PAWN, WHITE, 51));
    builder.SetPiece(NewPiece(PAWN, WHITE, 52));
    builder.SetPiece(NewPiece(PAWN, WHITE, 53));
    builder.SetPiece(NewPiece(PAWN, WHITE, 54));
    builder.SetPiece(NewPiece(PAWN, WHITE, 55));

    builder.SetPiece(NewPiece(ROOK, WHITE, 56));
    builder.SetPiece(NewPiece(KNIGHT, WHITE, 57));
    builder.SetPiece(NewPiece(BISHOP, WHITE, 58));
    builder.SetPiece(NewPiece(QUEEN, WHITE, 59));
    builder.SetPiece(NewPiece(KING, WHITE, 60));
    builder.SetPiece(NewPiece(BISHOP, WHITE, 61));
    builder.SetPiece(NewPiece(KNIGHT, WHITE, 62));
    builder.SetPiece(NewPiece(ROOK, WHITE, 63));

    builder.SetMoveMaker(WHITE);
    StandardConfigLayout();
    r := builder.Build();
    StandardBoardBuilds();
  }
}
