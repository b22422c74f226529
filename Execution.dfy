/** Move.execute and its overrides. Every execute fills a fresh Builder: a
    loop over the moving side's pieces (setting those a filter keeps), a loop
    over the other side's pieces, then the moved piece on its destination, and
    finally the side to move; build() may then fail as any build may.
    The filters are the source's own:
    - the base execute and PawnJump drop the moved piece;
    - en passant also drops the captured pawn from the other side;
    - the castle keeps only pieces that equal the king and differ from the
      rook, so of the castling side only the king's old copy survives;
    - the promotion runs the decorated move first and rebuilds from that board. */
module Execution {
  import opened Wrappers
  import opened BoardUtils
  import opened Alliances
  import opened Pieces
  import opened Tiles
  import opened Boards
  import opened Moves
  import opened Players
  import opened Builders

  /** Which of a side's pieces a loop of execute() passes to setPiece. */
  datatype PieceFilter = KeepAll | KeepAllBut(excluded: Piece) | KeepOnlyIfBut(kept: Piece, dropped: Piece)

  predicate Keeps(f: PieceFilter, p: Piece)
  {
    match f
    case KeepAll => true
    case KeepAllBut(excluded) => !PieceEquals(excluded, p)
    case KeepOnlyIfBut(kept, dropped) => PieceEquals(kept, p) && !PieceEquals(dropped, p)
  }

  /** The builder's map after setPiece on each kept piece, in list order. */
  function SetAll(config: map<int, Piece>, pieces: seq<Piece>, f: PieceFilter): (r: map<int, Piece>)
    ensures KeyedBySquare(config) ==> KeyedBySquare(r)
    decreases |pieces|
  {
    if |pieces| == 0 then config
    else
      var last := pieces[|pieces| - 1];
      var c := SetAll(config, pieces[..|pieces| - 1], f);
      if Keeps(f, last) then c[last.piecePosition := last] else c
  }

  /** The last kept piece of the list standing on square s. */
  function LastKept(pieces: seq<Piece>, f: PieceFilter, s: int): Option<Piece>
    decreases |pieces|
  {
    if |pieces| == 0 then None
    else
      var last := pieces[|pieces| - 1];
      if last.piecePosition == s && Keeps(f, last) then Some(last)
      else LastKept(pieces[..|pieces| - 1], f, s)
  }

  lemma {:induction false} SetAllLookup(config: map<int, Piece>, pieces: seq<Piece>, f: PieceFilter, s: int)
    ensures Lookup(SetAll(config, pieces, f), s) ==
      if LastKept(pieces, f, s).Some? then LastKept(pieces, f, s) else Lookup(config, s)
    decreases |pieces|
  {
    if |pieces| > 0 {
      SetAllLookup(config, pieces[..|pieces| - 1], f, s);
    }
  }

  /** On a well-formed board, the last kept piece of a side on a square is
      the piece standing there, if it is of that side and kept. */
  lemma {:induction false} ActiveLastKept(b: Board, a: Alliance, f: PieceFilter, s: int, n: int)
    requires WellFormed(b) && IsValidTileCoord(s) && 0 <= n <= NUM_TILES
    ensures LastKept(ActivePiecesUpTo(b.gameBoard, a, n), f, s) ==
      if s < n && IsOccupied(b, s) && PieceOn(b, s).pieceAlliance == a && Keeps(f, PieceOn(b, s))
      then Some(PieceOn(b, s)) else None
  {
    if n > 0 {
      ActiveLastKept(b, a, f, s, n - 1);
      var prev := ActivePiecesUpTo(b.gameBoard, a, n - 1);
      var t := b.gameBoard[n - 1];
      if t.IsTileOccupied() && t.pieceOnTile.pieceAlliance == a {
        assert ActivePiecesUpTo(b.gameBoard, a, n) == prev + [t.pieceOnTile];
        assert (prev + [t.pieceOnTile])[..|prev|] == prev;
      } else {
        assert ActivePiecesUpTo(b.gameBoard, a, n) == prev;
      }
    }
  }

  /** The map the two loops of an execute leave: the side to move's pieces
      its filter keeps, then the other side's pieces its filter keeps. */
  function ConfigAfterLoops(b: Board, ownFilter: PieceFilter, otherFilter: PieceFilter): (r: map<int, Piece>)
    ensures KeyedBySquare(r)
  {
    SetAll(SetAll(map[], ActivePieces(b, b.nextMoveMaker), ownFilter),
           ActivePieces(b, Opponent(b.nextMoveMaker)), otherFilter)
  }

  /** Square by square: the piece standing there, if its side's filter keeps it. */
  lemma ConfigAfterLoopsLookup(b: Board, ownFilter: PieceFilter, otherFilter: PieceFilter, s: int)
    requires WellFormed(b) && IsValidTileCoord(s)
    ensures Lookup(ConfigAfterLoops(b, ownFilter, otherFilter), s) ==
      if IsOccupied(b, s) &&
         Keeps(if PieceOn(b, s).pieceAlliance == b.nextMoveMaker then ownFilter else otherFilter, PieceOn(b, s))
      then Some(PieceOn(b, s)) else None
  {
    var own := ActivePieces(b, b.nextMoveMaker);
    var other := ActivePieces(b, Opponent(b.nextMoveMaker));
    SetAllLookup(map[], own, ownFilter, s);
    SetAllLookup(SetAll(map[], own, ownFilter), other, otherFilter, s);
    ActiveLastKept(b, b.nextMoveMaker, ownFilter, s, NUM_TILES);
    ActiveLastKept(b, Opponent(b.nextMoveMaker), otherFilter, s, NUM_TILES);
  }

  // ---------------------------------------------------------------------------
  // execute

  /** What the source's types guarantee of a move before it is executed: a
      pawn jump moves a Pawn (execute casts it), and a promotion wraps a pawn's
      push or capture on the same board (the constructor casts the pawn). */
  predicate Executable(m: Move)
  {
    (m.PawnJump? ==> m.movedPiece.pieceType == PAWN) &&
    (m.PawnPromotion? ==>
       !m.decoratedMove.NullMove? && !m.decoratedMove.PawnPromotion? && !m.decoratedMove.PawnJump? &&
       m == Promote(m.decoratedMove) && m.movedPiece.pieceType == PAWN)
  }

  /** The filter the first loop applies to the side to move. */
  function OwnFilter(m: Move): PieceFilter
    requires !m.NullMove?
  {
    if IsCastleVariant(m) then KeepOnlyIf(m.movedPiece, m.castleRook) else KeepAllBut(m.movedPiece)
  }

  function KeepOnlyIf(kept: Piece, dropped: Piece): PieceFilter
  {
    KeepOnlyIfBut(kept, dropped)
  }

  /** The filter the second loop applies to the other side. */
  function OtherFilter(m: Move): PieceFilter
    requires !m.NullMove?
  {
    if m.PawnEnPassantAttackMove? then KeepAllBut(m.attackedPiece) else KeepAll
  }

  /** The Rook the castle sets on its destination: new Rook(alliance, square). */
  function CastledRook(m: Move): Piece
    requires IsCastleVariant(m)
  {
    NewPiece(ROOK, m.castleRook.pieceAlliance, m.castleRookDestination)
  }

  /** The builder's map after the non-promotion executes' setPiece calls. */
  function ExecutedConfig(m: Move): (r: map<int, Piece>)
    requires !m.NullMove? && !m.PawnPromotion?
    ensures KeyedBySquare(r)
  {
    var moved := MovePiece(m.movedPiece, m);
    var config := ConfigAfterLoops(m.board, OwnFilter(m), OtherFilter(m))[moved.piecePosition := moved];
    if IsCastleVariant(m) then config[CastledRook(m).piecePosition := CastledRook(m)] else config
  }

  /** The promotion's setPiece calls on the board the decorated move produced:
      every piece of the side now to move except the promoted pawn, every piece
      of the promoting side, then a Queen on the destination. */
  function PromotedConfig(m: Move, pawnMovedBoard: Board): (r: map<int, Piece>)
    requires m.PawnPromotion?
    ensures KeyedBySquare(r)
  {
    var queen := MovePiece(GetPromotionPiece(m.movedPiece), m);
    ConfigAfterLoops(pawnMovedBoard, KeepAllBut(m.movedPiece), KeepAll)[queen.piecePosition := queen]
  }

  /** move.execute(): the board after the move, or the exception it raises. */
  function ExecuteSpec(m: Move): (r: Result<Board, Failure>)
    requires Executable(m)
    ensures m.NullMove? ==> r == Err(NullMoveExecuted)
    ensures r.Ok? ==> Valid(r.value) && r.value.nextMoveMaker == Opponent(m.board.nextMoveMaker)
    decreases m
  {
    if m.NullMove? then Err(NullMoveExecuted)
    else if m.PawnPromotion? then
      var pawnMoved := ExecuteSpec(m.decoratedMove);
      if pawnMoved.Err? then pawnMoved
      else BuildSpec(PromotedConfig(m, pawnMoved.value), Some(pawnMoved.value.nextMoveMaker), None)
    else
      var enPassant := if m.PawnJump? then Some(MovePiece(m.movedPiece, m)) else None;
      BuildSpec(ExecutedConfig(m), Some(Opponent(m.board.nextMoveMaker)), enPassant)
  }

  /** One loop of an execute: setPiece on every piece the filter keeps. */
  method SetPieces(builder: Builder, pieces: seq<Piece>, f: PieceFilter)
    requires builder.Keyed()
    modifies builder
    ensures builder.Keyed()
    ensures builder.boardConfig == SetAll(old(builder.boardConfig), pieces, f)
    ensures builder.nextMoveMaker == old(builder.nextMoveMaker) && builder.enPassantPawn == old(builder.enPassantPawn)
  {
    var i := 0;
    while i < |pieces|
      invariant 0 <= i <= |pieces|
      invariant builder.Keyed()
      invariant builder.boardConfig == SetAll(old(builder.boardConfig), pieces[..i], f)
      invariant builder.nextMoveMaker == old(builder.nextMoveMaker) && builder.enPassantPawn == old(builder.enPassantPawn)
    {
      var piece := pieces[i];
      if Keeps(f, piece) {
        builder.SetPiece(piece);
      }
      assert pieces[..i + 1][..i] == pieces[..i];
      i := i + 1;
    }
    assert pieces[..|pieces|] == pieces;
  }

  method Execute(m: Move) returns (r: Result<Board, Failure>)
    requires Executable(m)
    ensures r == ExecuteSpec(m)
    decreases m
  {
    if m.NullMove? {
      return Err(NullMoveExecuted);
    }
    var builder := new Builder();
    if m.PawnPromotion? {
      var pawnMoved := Execute(m.decoratedMove);
      if pawnMoved.Err? {
        return pawnMoved;
      }
      var pawnMovedBoard := pawnMoved.value;
      var mover := pawnMovedBoard.nextMoveMaker;
      SetPieces(builder, ActivePieces(pawnMovedBoard, mover), KeepAllBut(m.movedPiece));
      SetPieces(builder, ActivePieces(pawnMovedBoard, Opponent(mover)), KeepAll);
      builder.SetPiece(MovePiece(GetPromotionPiece(m.movedPiece), m));
      builder.SetMoveMaker(mover);
      r := builder.Build();
      return;
    }
    var b := m.board;
    SetPieces(builder, ActivePieces(b, b.nextMoveMaker), OwnFilter(m));
    SetPieces(builder, ActivePieces(b, Opponent(b.nextMoveMaker)), OtherFilter(m));
    var moved := MovePiece(m.movedPiece, m);
    builder.SetPiece(moved);
    if IsCastleVariant(m) {
      builder.SetPiece(CastledRook(m));
    }
    if m.PawnJump? {
      builder.SetEnPassantPawn(moved);
    }
    builder.SetMoveMaker(Opponent(b.nextMoveMaker));
    r := builder.Build();
  }

  // ---------------------------------------------------------------------------
  // What executing a move does to the position

  /** The piece on square s, if any. */
  function PieceAt(b: Board, s: int): Option<Piece>
    requires WellFormed(b) && IsValidTileCoord(s)
  {
    GetTile(b, s).GetPiece()
  }

  /** The move's piece is the side to move's piece standing on its square. */
  predicate MovesOwnPiece(m: Move)
  {
    !m.NullMove? && WellFormed(m.board) && IsValidTileCoord(m.movedPiece.piecePosition) &&
    IsValidTileCoord(m.destinationCoord) &&
    IsOccupied(m.board, m.movedPiece.piecePosition) && PieceOn(m.board, m.movedPiece.piecePosition) == m.movedPiece &&
    m.movedPiece.pieceAlliance == m.board.nextMoveMaker
  }

  predicate IsPlainMove(m: Move)
  {
    m.MajorMove? || m.AttackMove? || m.MajorAttackMove? || m.PawnMove? || m.PawnAttackMove? || m.PawnJump?
  }

  /** After a non-promotion execute, each square holds what the builder's
      map holds for it. */
  lemma ExecutedLookup(m: Move, s: int)
    requires !m.NullMove? && !m.PawnPromotion? && Executable(m) && IsValidTileCoord(s)
    requires ExecuteSpec(m).Ok?
    ensures WellFormed(ExecuteSpec(m).value)
    ensures PieceAt(ExecuteSpec(m).value, s) == Lookup(ExecutedConfig(m), s)
  {
    var ep := if m.PawnJump? then Some(MovePiece(m.movedPiece, m)) else None;
    assert ExecuteSpec(m) == BuildSpec(ExecutedConfig(m), Some(Opponent(m.board.nextMoveMaker)), ep);
  }

  /** One square of the builder's map after a plain move or capture. */
  lemma PlainConfigSquare(m: Move, s: int)
    requires IsPlainMove(m) && MovesOwnPiece(m) && IsValidTileCoord(s)
    ensures Lookup(ExecutedConfig(m), s) ==
      if s == m.destinationCoord then Some(MovePiece(m.movedPiece, m))
      else if s == m.movedPiece.piecePosition then None
      else PieceAt(m.board, s)
  {
    var b := m.board;
    ConfigAfterLoopsLookup(b, KeepAllBut(m.movedPiece), KeepAll, s);
    var moved := MovePiece(m.movedPiece, m);
    assert ExecutedConfig(m) == ConfigAfterLoops(b, KeepAllBut(m.movedPiece), KeepAll)[moved.piecePosition := moved];
    if s != m.movedPiece.piecePosition && IsOccupied(b, s) {
      assert PieceOn(b, s).piecePosition == s;
    }
  }

  /** One square of the builder's map after an en-passant capture. */
  lemma EnPassantConfigSquare(m: Move, s: int)
    requires m.PawnEnPassantAttackMove? && MovesOwnPiece(m) && IsValidTileCoord(s)
    requires IsValidTileCoord(m.attackedPiece.piecePosition)
    requires IsEnemyOn(m.board, m.attackedPiece.piecePosition, m.board.nextMoveMaker)
    requires PieceOn(m.board, m.attackedPiece.piecePosition) == m.attackedPiece
    ensures Lookup(ExecutedConfig(m), s) ==
      if s == m.destinationCoord then Some(MovePiece(m.movedPiece, m))
      else if s == m.movedPiece.piecePosition || s == m.attackedPiece.piecePosition then None
      else PieceAt(m.board, s)
  {
    var b := m.board;
    ConfigAfterLoopsLookup(b, KeepAllBut(m.movedPiece), KeepAllBut(m.attackedPiece), s);
    var moved := MovePiece(m.movedPiece, m);
    assert ExecutedConfig(m) ==
      ConfigAfterLoops(b, KeepAllBut(m.movedPiece), KeepAllBut(m.attackedPiece))[moved.piecePosition := moved];
    if s != m.movedPiece.piecePosition && IsOccupied(b, s) {
      assert PieceOn(b, s).piecePosition == s;
    }
  }

  /** A plain move or capture: the piece leaves its square, a fresh copy of
      it (first-move flag set) stands on the destination, whatever stood there
      is gone, every other square is as it was, the other side is to move, and
      only a pawn jump leaves an en-passant pawn. */
  lemma ExecutePlainMove(m: Move)
    requires IsPlainMove(m) && Executable(m) && MovesOwnPiece(m)
    requires ExecuteSpec(m).Ok?
    ensures var b := m.board;
      var nb := ExecuteSpec(m).value;
      WellFormed(nb) &&
      nb.nextMoveMaker == Opponent(b.nextMoveMaker) &&
      PieceAt(nb, m.destinationCoord) == Some(MovePiece(m.movedPiece, m)) &&
      (m.movedPiece.piecePosition != m.destinationCoord ==> PieceAt(nb, m.movedPiece.piecePosition) == None) &&
      (forall s :: IsValidTileCoord(s) && s != m.movedPiece.piecePosition && s != m.destinationCoord ==>
         PieceAt(nb, s) == PieceAt(b, s)) &&
      nb.enPassantPawn == (if m.PawnJump? then Some(MovePiece(m.movedPiece, m)) else None)
  {
    var b := m.board;
    var nb := ExecuteSpec(m).value;
    var ep := if m.PawnJump? then Some(MovePiece(m.movedPiece, m)) else None;
    assert ExecuteSpec(m) == BuildSpec(ExecutedConfig(m), Some(Opponent(b.nextMoveMaker)), ep);
    forall s | IsValidTileCoord(s)
      ensures PieceAt(nb, s) ==
        if s == m.destinationCoord then Some(MovePiece(m.movedPiece, m))
        else if s == m.movedPiece.piecePosition then None
        else PieceAt(b, s)
    {
      ExecutedLookup(m, s);
      PlainConfigSquare(m, s);
    }
  }

  /** En passant: as a plain move, and the captured pawn's square is emptied. */
  lemma ExecuteEnPassant(m: Move)
    requires m.PawnEnPassantAttackMove? && MovesOwnPiece(m)
    requires IsValidTileCoord(m.attackedPiece.piecePosition)
    requires IsEnemyOn(m.board, m.attackedPiece.piecePosition, m.board.nextMoveMaker)
    requires PieceOn(m.board, m.attackedPiece.piecePosition) == m.attackedPiece
    requires ExecuteSpec(m).Ok?
    ensures var b := m.board;
      var nb := ExecuteSpec(m).value;
      var captured := m.attackedPiece.piecePosition;
      WellFormed(nb) &&
      nb.nextMoveMaker == Opponent(b.nextMoveMaker) && nb.enPassantPawn == None &&
      PieceAt(nb, m.destinationCoord) == Some(MovePiece(m.movedPiece, m)) &&
      (m.movedPiece.piecePosition != m.destinationCoord ==> PieceAt(nb, m.movedPiece.piecePosition) == None) &&
      (captured != m.destinationCoord ==> PieceAt(nb, captured) == None) &&
      (forall s :: IsValidTileCoord(s) && s != m.movedPiece.piecePosition && s != m.destinationCoord && s != captured ==>
         PieceAt(nb, s) == PieceAt(b, s))
  {
    var b := m.board;
    var nb := ExecuteSpec(m).value;
    assert ExecuteSpec(m) == BuildSpec(ExecutedConfig(m), Some(Opponent(b.nextMoveMaker)), None);
    forall s | IsValidTileCoord(s)
      ensures PieceAt(nb, s) ==
        if s == m.destinationCoord then Some(MovePiece(m.movedPiece, m))
        else if s == m.movedPiece.piecePosition || s == m.attackedPiece.piecePosition then None
        else PieceAt(b, s)
    {
      ExecutedLookup(m, s);
      EnPassantConfigSquare(m, s);
    }
  }

  /** One square of the builder's map after castling, as written. */
  lemma CastleConfigSquare(m: Move, s: int)
    requires IsCastleVariant(m) && MovesOwnPiece(m) && IsValidTileCoord(s)
    requires m.castleRook != m.movedPiece
    ensures Lookup(ExecutedConfig(m), s) ==
      if s == m.castleRookDestination then Some(CastledRook(m))
      else if s == m.destinationCoord then Some(MovePiece(m.movedPiece, m))
      else if s == m.movedPiece.piecePosition then Some(m.movedPiece)
      else if IsEnemyOn(m.board, s, m.board.nextMoveMaker) then PieceAt(m.board, s)
      else None
  {
    var b := m.board;
    ConfigAfterLoopsLookup(b, KeepOnlyIfBut(m.movedPiece, m.castleRook), KeepAll, s);
    var loops := ConfigAfterLoops(b, KeepOnlyIfBut(m.movedPiece, m.castleRook), KeepAll);
    var moved := MovePiece(m.movedPiece, m);
    assert ExecutedConfig(m) == loops[moved.piecePosition := moved][CastledRook(m).piecePosition := CastledRook(m)];
    if s != m.castleRookDestination && s != m.destinationCoord && s != m.movedPiece.piecePosition && IsOccupied(b, s) {
      assert PieceOn(b, s).piecePosition == s;
    }
  }

  /** One square after castling, as written. */
  lemma CastleSquare(m: Move, s: int)
    requires IsCastleVariant(m) && MovesOwnPiece(m) && IsValidTileCoord(s)
    requires m.castleRook != m.movedPiece
    requires ExecuteSpec(m).Ok?
    ensures WellFormed(ExecuteSpec(m).value)
    ensures PieceAt(ExecuteSpec(m).value, s) ==
      if s == m.castleRookDestination then Some(CastledRook(m))
      else if s == m.destinationCoord then Some(MovePiece(m.movedPiece, m))
      else if s == m.movedPiece.piecePosition then Some(m.movedPiece)
      else if IsEnemyOn(m.board, s, m.board.nextMoveMaker) then PieceAt(m.board, s)
      else None
  {
    ExecutedLookup(m, s);
    CastleConfigSquare(m, s);
  }

  /** Castling as written: the castling side keeps only its king's old copy on
      its old square; a fresh king stands on the destination and a fresh Rook
      of the castle rook's side on the rook's destination; every other piece of
      the castling side, its castle rook included, is gone, and the other
      side's pieces stay. */
  lemma ExecuteCastleAsWritten(m: Move)
    requires IsCastleVariant(m) && MovesOwnPiece(m)
    requires IsValidTileCoord(m.castleRookDestination) && m.castleRookDestination != m.destinationCoord
    requires m.castleRook != m.movedPiece
    requires ExecuteSpec(m).Ok?
    ensures var b := m.board;
      var nb := ExecuteSpec(m).value;
      var from := m.movedPiece.piecePosition;
      WellFormed(nb) &&
      nb.nextMoveMaker == Opponent(b.nextMoveMaker) && nb.enPassantPawn == None &&
      PieceAt(nb, m.destinationCoord) == Some(MovePiece(m.movedPiece, m)) &&
      PieceAt(nb, m.castleRookDestination) == Some(CastledRook(m)) &&
      (from != m.destinationCoord && from != m.castleRookDestination ==> PieceAt(nb, from) == Some(m.movedPiece)) &&
      (forall s :: IsValidTileCoord(s) && s != from && s != m.destinationCoord && s != m.castleRookDestination ==>
         PieceAt(nb, s) == if IsEnemyOn(b, s, b.nextMoveMaker) then PieceAt(b, s) else None)
  {
    CastleSquare(m, m.destinationCoord);
    CastleSquare(m, m.castleRookDestination);
    CastleSquare(m, m.movedPiece.piecePosition);
    BuildFailures(ExecutedConfig(m), Some(Opponent(m.board.nextMoveMaker)), None);
    forall s | IsValidTileCoord(s) && s != m.movedPiece.piecePosition && s != m.destinationCoord && s != m.castleRookDestination
      ensures PieceAt(ExecuteSpec(m).value, s) ==
        if IsEnemyOn(m.board, s, m.board.nextMoveMaker) then PieceAt(m.board, s) else None
    {
      CastleSquare(m, s);
    }
  }

  /** Promotion: the board the decorated pawn move produced, with a Queen of
      the pawn's side (first-move flag set) in place of the pawn on the
      destination, the same side to move, and no en-passant pawn. */
  lemma ExecutePromotion(m: Move)
    requires m.PawnPromotion? && Executable(m) && MovesOwnPiece(m)
    requires ExecuteSpec(m).Ok?
    ensures ExecuteSpec(m.decoratedMove).Ok?
    ensures var pmb := ExecuteSpec(m.decoratedMove).value;
      var nb := ExecuteSpec(m).value;
      WellFormed(pmb) && WellFormed(nb) &&
      nb.nextMoveMaker == pmb.nextMoveMaker && nb.nextMoveMaker == Opponent(m.board.nextMoveMaker) &&
      nb.enPassantPawn == None &&
      PieceAt(nb, m.destinationCoord) == Some(NewPiece(QUEEN, m.movedPiece.pieceAlliance, m.destinationCoord)) &&
      forall s :: IsValidTileCoord(s) && s != m.destinationCoord ==> PieceAt(nb, s) == PieceAt(pmb, s)
  {
    var inner := m.decoratedMove;
    var pmb := ExecuteSpec(inner).value;
    var nb := ExecuteSpec(m).value;
    assert ExecuteSpec(m) == BuildSpec(PromotedConfig(m, pmb), Some(pmb.nextMoveMaker), None);
    forall s | IsValidTileCoord(s) && s != m.destinationCoord
      ensures PieceAt(nb, s) == PieceAt(pmb, s)
    {
      ConfigAfterLoopsLookup(pmb, KeepAllBut(m.movedPiece), KeepAll, s);
    }
  }

  /** The null move cannot be executed. */
  lemma ExecuteNullMove()
    ensures ExecuteSpec(NullMove) == Err(NullMoveExecuted)
  {
  }
}
