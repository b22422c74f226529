/** StandardBoardEvaluator: a position's score is White's player score minus
    Black's, each the sum of material, mobility, a check bonus, a depth-scaled
    checkmate bonus and a castle bonus. */
module Evaluation {
  import opened Wrappers
  import opened Alliances
  import opened Pieces
  import opened Boards
  import opened Players
  import opened Transitions

  const CHECK_BONUS: int := 50
  const CASTLE_BONUS: int := 60
  const CHECKMATE_BONUS: int := 10000

  /** The running sum of pieceValue's loop over the pieces. */
  function MaterialSum(pieces: seq<Piece>): int
    decreases |pieces|
  {
    if |pieces| == 0 then 0
    else MaterialSum(pieces[..|pieces| - 1]) + GetPieceValue(pieces[|pieces| - 1])
  }

  method PieceValue(activePieces: seq<Piece>) returns (pieceValueScore: int)
    ensures pieceValueScore == MaterialSum(activePieces)
  {
    pieceValueScore := 0;
    var i := 0;
    while i < |activePieces|
      invariant 0 <= i <= |activePieces|
      invariant pieceValueScore == MaterialSum(activePieces[..i])
    {
      assert activePieces[..i + 1][..i] == activePieces[..i];
      pieceValueScore := pieceValueScore + GetPieceValue(activePieces[i]);
      i := i + 1;
    }
    assert activePieces[..|activePieces|] == activePieces;
  }

  /** Every piece is worth between a pawn and a king; a list holding a king is
      worth at least the king plus a pawn for each other piece. */
  lemma {:induction false} MaterialBounds(pieces: seq<Piece>)
    ensures 100 * |pieces| <= MaterialSum(pieces) <= 10000 * |pieces|
    ensures (exists p :: p in pieces && p.pieceType == KING) ==>
      MaterialSum(pieces) >= 10000 + 100 * (|pieces| - 1)
    decreases |pieces|
  {
    if |pieces| > 0 {
      var prefix := pieces[..|pieces| - 1];
      var last := pieces[|pieces| - 1];
      MaterialBounds(prefix);
      PieceTypeTable(last.pieceType);
      if exists p :: p in pieces && p.pieceType == KING {
        var p :| p in pieces && p.pieceType == KING;
        if p != last {
          assert p in prefix by {
            assert pieces == prefix + [last];
          }
        }
      }
    }
  }

  /** A side on a valid board has its king, so its material is at least the
      king's value. */
  lemma MaterialOfValidBoard(b: Board, a: Alliance)
    requires Valid(b)
    ensures MaterialSum(ActivePieces(b, a)) >= CHECKMATE_BONUS
  {
    assert HasKing(b, a) by { assert a == WHITE || a == BLACK; }
    PieceTypeTable(PlayerKing(b, a).pieceType);
    MaterialBounds(ActivePieces(b, a));
  }

  /** depthBonus: 1 at depth 0, otherwise 100 per level. */
  function DepthBonus(depth: int): (bonus: int)
    ensures depth >= 0 ==> bonus > 0
    ensures depth > 0 ==> bonus == 100 * depth
  {
    if depth == 0 then 1 else 100 * depth
  }

  /** mobility: the length of the player's legal-move list. */
  function Mobility(b: Board, a: Alliance): int
    requires Valid(b)
  {
    |LegalMoves(b, a)|
  }

  function Check(b: Board, a: Alliance): int
    requires Valid(b)
  {
    if IsInCheck(b, Opponent(a)) then CHECK_BONUS else 0
  }

  function CheckMate(b: Board, a: Alliance, depth: int): Result<int, Failure>
    requires Valid(b)
  {
    var mate := IsInCheckmate(b, Opponent(a));
    if mate.Err? then Err(mate.error)
    else if mate.value then Ok(CHECKMATE_BONUS * DepthBonus(depth))
    else Ok(0)
  }

  function Castled(b: Board, a: Alliance): int
    requires Valid(b)
  {
    if IsCastled(b, a) then CASTLE_BONUS else 0
  }

  /** scorePlayer for the player of side a. */
  function ScorePlayer(b: Board, a: Alliance, depth: int): Result<int, Failure>
    requires Valid(b)
  {
    var mate := CheckMate(b, a, depth);
    if mate.Err? then Err(mate.error)
    else Ok(MaterialSum(ActivePieces(b, a)) + Mobility(b, a) + Check(b, a) + mate.value + Castled(b, a))
  }

  function Evaluate(b: Board, depth: int): Result<int, Failure>
    requires Valid(b)
  {
    var white := ScorePlayer(b, WHITE, depth);
    if white.Err? then Err(white.error)
    else
      var black := ScorePlayer(b, BLACK, depth);
      if black.Err? then Err(black.error)
      else Ok(white.value - black.value)
  }

  /** As written the check and checkmate terms are always 0: no player is
      ever in check. */
  lemma CheckTermsVanish(b: Board, a: Alliance, depth: int)
    requires Valid(b)
    ensures Check(b, a) == 0 && CheckMate(b, a, depth) == Ok(0)
  {
    NeverInCheck(b, Opponent(a));
    NeverCheckmated(b, Opponent(a));
  }

  /** A player's score without its bonuses: material plus mobility. */
  function BaseScore(b: Board, a: Alliance): int
    requires Valid(b)
  {
    MaterialSum(ActivePieces(b, a)) + Mobility(b, a)
  }

  /** Hence a player's score is its material plus its number of legal moves,
      and evaluate never raises. */
  lemma ScorePlayerAsWritten(b: Board, a: Alliance, depth: int)
    requires Valid(b)
    ensures ScorePlayer(b, a, depth) == Ok(BaseScore(b, a))
  {
    CheckTermsVanish(b, a, depth);
    ScoreWithoutBonuses(b, a, depth);
  }

  lemma ScoreWithoutBonuses(b: Board, a: Alliance, depth: int)
    requires Valid(b)
    requires CheckMate(b, a, depth) == Ok(0) && Check(b, a) == 0
    ensures ScorePlayer(b, a, depth) == Ok(BaseScore(b, a))
  {
    var score := ScorePlayer(b, a, depth);
    assert score.value == BaseScore(b, a);
  }

  /** evaluate is White's score minus Black's: whenever both players' scores
      are computed, the position's score is their difference. */
  lemma EvaluateIsScoreDifference(b: Board, depth: int, white: int, black: int)
    requires Valid(b)
    requires ScorePlayer(b, WHITE, depth) == Ok(white) && ScorePlayer(b, BLACK, depth) == Ok(black)
    ensures Evaluate(b, depth) == Ok(white - black)
  {
    var e := Evaluate(b, depth);
    assert e.Ok? && e.value == white - black;
  }
}
