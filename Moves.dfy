/** The Move family. Every real move carries the board it was generated on, the
    piece that moves and its destination; attack variants also carry the piece
    they take, castles the rook and its two squares, and a promotion the move it
    decorates. NullMove is the one move with no board and no piece. */
module Moves {
  import opened Wrappers
  import opened BoardUtils
  import opened Alliances
  import opened Pieces
  import opened Boards

  datatype Move =
    | MajorMove(board: Board, movedPiece: Piece, destinationCoord: int)
    | AttackMove(board: Board, movedPiece: Piece, destinationCoord: int, attackedPiece: Piece)
    | MajorAttackMove(board: Board, movedPiece: Piece, destinationCoord: int, attackedPiece: Piece)
    | PawnMove(board: Board, movedPiece: Piece, destinationCoord: int)
    | PawnAttackMove(board: Board, movedPiece: Piece, destinationCoord: int, attackedPiece: Piece)
    | PawnEnPassantAttackMove(board: Board, movedPiece: Piece, destinationCoord: int, attackedPiece: Piece)
    | PawnPromotion(board: Board, movedPiece: Piece, destinationCoord: int, decoratedMove: Move)
    | PawnJump(board: Board, movedPiece: Piece, destinationCoord: int)
    | KingSideCastleMove(board: Board, movedPiece: Piece, destinationCoord: int,
                         castleRook: Piece, castleRookStart: int, castleRookDestination: int)
    | QueenSideCastleMove(board: Board, movedPiece: Piece, destinationCoord: int,
                          castleRook: Piece, castleRookStart: int, castleRookDestination: int)
    | NullMove

  /** The PawnPromotion constructor: board, piece and destination are the decorated move's. */
  function Promote(decorated: Move): (m: Move)
    requires !decorated.NullMove?
    ensures m.PawnPromotion? && m.decoratedMove == decorated
    ensures m.board == decorated.board && m.movedPiece == decorated.movedPiece
    ensures m.destinationCoord == decorated.destinationCoord
  {
    PawnPromotion(decorated.board, decorated.movedPiece, decorated.destinationCoord, decorated)
  }

  /** getCurrentCoord: the moved piece's square; -1 for the null move. */
  function CurrentCoord(m: Move): int
  {
    if m.NullMove? then -1 else m.movedPiece.piecePosition
  }

  /** getDestinationCoord: 65 for the null move. */
  function DestinationCoord(m: Move): int
  {
    if m.NullMove? then 65 else m.destinationCoord
  }

  predicate IsAttackVariant(m: Move)
  {
    m.AttackMove? || m.MajorAttackMove? || m.PawnAttackMove? || m.PawnEnPassantAttackMove?
  }

  predicate IsCastleVariant(m: Move)
  {
    m.KingSideCastleMove? || m.QueenSideCastleMove?
  }

  /** isAttack: the attack variants, and a promotion whose decorated move is one. */
  predicate IsAttack(m: Move)
  {
    if m.PawnPromotion? then IsAttack(m.decoratedMove) else IsAttackVariant(m)
  }

  predicate IsCastlingMove(m: Move)
  {
    IsCastleVariant(m)
  }

  /** getAttackedPiece: None where the Java method returns null. */
  function GetAttackedPiece(m: Move): (p: Option<Piece>)
    ensures p.Some? <==> IsAttack(m)
  {
    if m.PawnPromotion? then GetAttackedPiece(m.decoratedMove)
    else if IsAttackVariant(m) then Some(m.attackedPiece)
    else None
  }

  /** The destinations of a list of moves. */
  function Destinations(ms: seq<Move>): set<int>
  {
    set m | m in ms :: DestinationCoord(m)
  }

  lemma DestinationsConcat(xs: seq<Move>, ys: seq<Move>)
    ensures Destinations(xs + ys) == Destinations(xs) + Destinations(ys)
  {
    assert forall m :: m in xs + ys <==> m in xs || m in ys;
  }

  lemma DestinationsSingleton(m: Move)
    ensures Destinations([m]) == {DestinationCoord(m)}
  {
    assert m in [m];
  }

  // ---------------------------------------------------------------------------
  // equals

  /** Move.equals between two non-identical moves: same current square, same
      destination and equal moved pieces. Piece.equals(null) is false, so a
      real move never equals the null move. */
  predicate BaseEquals(m: Move, other: Move)
    requires !m.NullMove?
  {
    !other.NullMove? &&
    CurrentCoord(m) == CurrentCoord(other) &&
    DestinationCoord(m) == DestinationCoord(other) &&
    PieceEquals(m.movedPiece, other.movedPiece)
  }

  /** AttackMove.equals: the base test and equal attacked pieces; `other` must
      be an instance of AttackMove or one of its subclasses. */
  predicate AttackEquals(m: Move, other: Move)
    requires IsAttackVariant(m)
  {
    IsAttackVariant(other) && BaseEquals(m, other) && PieceEquals(m.attackedPiece, other.attackedPiece)
  }

  predicate CastleEquals(m: Move, other: Move)
    requires IsCastleVariant(m)
  {
    IsCastleVariant(other) && BaseEquals(m, other) && PieceEquals(m.castleRook, other.castleRook)
  }

  /** m.equals(other), dispatching on m's class as Java does. Each class's
      instanceof test accepts its subclasses; PawnJump inherits Move.equals;
      PawnPromotion.equals compares its own fields with themselves. */
  predicate MoveEquals(m: Move, other: Move)
  {
    match m
    case NullMove => other.NullMove?
    case MajorMove(_, _, _) => other.MajorMove? && BaseEquals(m, other)
    case AttackMove(_, _, _, _) => AttackEquals(m, other)
    case MajorAttackMove(_, _, _, _) => other.MajorAttackMove? && AttackEquals(m, other)
    case PawnMove(_, _, _) => (other.PawnMove? || other.PawnPromotion?) && BaseEquals(m, other)
    case PawnAttackMove(_, _, _, _) =>
      (other.PawnAttackMove? || other.PawnEnPassantAttackMove?) && AttackEquals(m, other)
    case PawnEnPassantAttackMove(_, _, _, _) => other.PawnEnPassantAttackMove? && AttackEquals(m, other)
    case PawnPromotion(_, _, _, _) => true
    case PawnJump(_, _, _) => BaseEquals(m, other)
    case KingSideCastleMove(_, _, _, _, _, _) => other.KingSideCastleMove? && CastleEquals(m, other)
    case QueenSideCastleMove(_, _, _, _, _, _) => other.QueenSideCastleMove? && CastleEquals(m, other)
  }

  /** The same data a move's equals compares. */
  predicate SameKey(m: Move, other: Move)
  {
    CurrentCoord(m) == CurrentCoord(other) && DestinationCoord(m) == DestinationCoord(other) &&
    (m.NullMove? || other.NullMove? || m.movedPiece == other.movedPiece)
  }

  /** equals is reflexive for every variant. */
  lemma MoveEqualsReflexive(m: Move)
    ensures MoveEquals(m, m)
  {
  }

  /** The class of a move, as a number. */
  function Variant(m: Move): nat
  {
    match m
    case MajorMove(_, _, _) => 0
    case AttackMove(_, _, _, _) => 1
    case MajorAttackMove(_, _, _, _) => 2
    case PawnMove(_, _, _) => 3
    case PawnAttackMove(_, _, _, _) => 4
    case PawnEnPassantAttackMove(_, _, _, _) => 5
    case PawnPromotion(_, _, _, _) => 6
    case PawnJump(_, _, _) => 7
    case KingSideCastleMove(_, _, _, _, _, _) => 8
    case QueenSideCastleMove(_, _, _, _, _, _) => 9
    case NullMove => 10
  }

  /** For every variant except the promotion, equality implies the same squares
      and moved piece; a class with no subclass only equals its own class, and
      attacks and castles also agree on the attacked piece or the rook. */
  lemma MoveEqualsMeaning(m: Move, other: Move)
    requires !m.PawnPromotion? && MoveEquals(m, other)
    ensures SameKey(m, other)
    ensures m.NullMove? <==> other.NullMove?
    ensures m.MajorMove? || m.MajorAttackMove? || m.PawnEnPassantAttackMove? || IsCastleVariant(m) ==>
      Variant(other) == Variant(m)
    ensures m.PawnMove? ==> other.PawnMove? || other.PawnPromotion?
    ensures m.PawnAttackMove? ==> other.PawnAttackMove? || other.PawnEnPassantAttackMove?
    ensures IsAttackVariant(m) ==> IsAttackVariant(other) && m.attackedPiece == other.attackedPiece
    ensures IsCastleVariant(m) ==> m.castleRook == other.castleRook
  {
  }

  /** Two moves of the same variant (other than the promotion) are equal exactly
      when their moved piece, destination and attacked piece or rook agree. */
  lemma SameVariantEquality(m: Move, other: Move)
    requires !m.PawnPromotion? && !m.NullMove? && Variant(m) == Variant(other)
    ensures MoveEquals(m, other) <==>
      m.movedPiece == other.movedPiece && m.destinationCoord == other.destinationCoord &&
      (IsAttackVariant(m) ==> m.attackedPiece == other.attackedPiece) &&
      (IsCastleVariant(m) ==> m.castleRook == other.castleRook)
  {
  }

  /** As written, a promotion equals every move, and a pawn jump equals any real
      move with its squares and piece, while that move need not equal it back. */
  lemma EqualsAsWritten(pm: Move, other: Move, b: Board, pawn: Piece, dest: int)
    requires pm.PawnPromotion?
    ensures MoveEquals(pm, other)
    ensures MoveEquals(PawnJump(b, pawn, dest), MajorMove(b, pawn, dest))
    ensures !MoveEquals(MajorMove(b, pawn, dest), PawnJump(b, pawn, dest))
  {
  }

  // ---------------------------------------------------------------------------
  // movePiece

  /** piece.movePiece(move): a fresh piece of piece's class, with the moved
      piece's side, on the move's destination; the two-argument constructor
      always sets the first-move flag. */
  function MovePiece(piece: Piece, m: Move): (moved: Piece)
    requires !m.NullMove?
    ensures moved.pieceType == piece.pieceType
    ensures moved.pieceAlliance == m.movedPiece.pieceAlliance
    ensures moved.piecePosition == m.destinationCoord
    ensures moved.isFirstMove
  {
    NewPiece(piece.pieceType, m.movedPiece.pieceAlliance, m.destinationCoord)
  }

  // ---------------------------------------------------------------------------
  // toString

  /** The squares the renderings name lie on the board. */
  predicate Printable(m: Move)
  {
    !m.NullMove? && IsValidTileCoord(m.destinationCoord) && IsValidTileCoord(m.movedPiece.piecePosition)
  }

  /** toString of each variant; None where the class keeps Object.toString
      (the plain AttackMove and the null move). */
  function MoveToString(m: Move): (s: Option<string>)
    requires Printable(m)
    ensures s.None? <==> m.AttackMove?
  {
    match m
    case MajorMove(_, piece, dest) => Some(piece.pieceType.Name() + GetPositionAtCoordinate(dest))
    case MajorAttackMove(_, piece, dest, _) => Some(piece.pieceType.Name() + GetPositionAtCoordinate(dest))
    case PawnMove(_, _, dest) => Some(GetPositionAtCoordinate(dest))
    case PawnAttackMove(_, piece, dest, _) =>
      Some(GetPositionAtCoordinate(piece.piecePosition)[0..1] + "x" + GetPositionAtCoordinate(dest))
    case PawnEnPassantAttackMove(_, piece, dest, _) =>
      Some(GetPositionAtCoordinate(piece.piecePosition)[0..1] + "x" + GetPositionAtCoordinate(dest))
    case PawnPromotion(_, _, dest, _) => Some(GetPositionAtCoordinate(dest) + "=Q")
    case PawnJump(_, _, dest) => Some(GetPositionAtCoordinate(dest))
    case KingSideCastleMove(_, _, _, _, _, _) => Some("O-O")
    case QueenSideCastleMove(_, _, _, _, _, _) => Some("O-O-O")
    case AttackMove(_, _, _, _) => None
  }

  /** The rendering names the destination: every non-castle rendering contains
      the destination's square name, from which getCoordinateAtPosition recovers
      the destination; captures also name the source file. */
  lemma {:induction false} MoveToStringNamesDestination(m: Move)
    requires Printable(m) && !m.AttackMove? && !IsCastleVariant(m)
    ensures var s := MoveToString(m).value;
      var name := if m.PawnPromotion? then s[0..2] else s[|s| - 2..];
      |s| >= 2 && GetCoordinateAtPosition(name) == Some(m.destinationCoord)
    ensures m.MajorMove? || m.MajorAttackMove? ==>
      MoveToString(m).value[0..1] == m.movedPiece.pieceType.Name()
    ensures m.PawnAttackMove? || m.PawnEnPassantAttackMove? ==>
      MoveToString(m).value[1] == 'x' &&
      MoveToString(m).value[0] == (('a' as int) + FileOf(m.movedPiece.piecePosition)) as char
    ensures m.PawnPromotion? ==> MoveToString(m).value[2..] == "=Q"
  {
    var dest := m.destinationCoord;
    var sq := GetPositionAtCoordinate(dest);
    CoordinateRoundTrip(dest);
    var s := MoveToString(m).value;
    if m.PawnPromotion? {
      assert s[0..2] == sq;
    } else {
      assert s[|s| - 2..] == sq;
    }
    PieceTypeTable(m.movedPiece.pieceType);
  }

  lemma CastleStrings(m: Move)
    requires Printable(m) && IsCastleVariant(m)
    ensures MoveToString(m) == Some(if m.KingSideCastleMove? then "O-O" else "O-O-O")
  {
  }
}
