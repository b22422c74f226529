/** Player.makeMove and what is built on it: isMoveLegal, hasEscapeMoves,
    isInCheckmate, isInStalemate, and MoveFactory.createMove, which looks a
    move up among the current player's legal moves. MoveTransition and
    MoveStatus are modelled from their use in Player.java: a (board, move,
    status) record and a three-valued status of which only DONE is "done". */
module Transitions {
  import opened Wrappers
  import opened BoardUtils
  import opened Alliances
  import opened Pieces
  import opened Boards
  import opened Moves
  import opened MoveGeneration
  import PawnMoves
  import KnightMoves
  import SlidingMoves
  import KingMoves
  import opened Players
  import opened Execution

  datatype MoveStatus = DONE | ILLEGAL_MOVE | LEAVES_PLAYER_IN_CHECK

  datatype MoveTransition = MoveTransition(transitionBoard: Board, move: Move, moveStatus: MoveStatus)

  predicate IsDone(s: MoveStatus)
  {
    s == DONE
  }

  // ---------------------------------------------------------------------------
  // Every generated move can be executed

  lemma PieceMovesExecutable(b: Board, piece: Piece)
    requires WellFormed(b) && IsValidTileCoord(piece.piecePosition)
    ensures forall m :: m in PieceLegalMoves(b, piece) ==> Executable(m)
  {
    match piece.pieceType
    case PAWN => PawnMoves.PawnMovesExact(b, piece);
    case KNIGHT => KnightMoves.KnightMovesExact(b, piece);
    case KING => KingMoves.KingMovesExact(b, piece);
    case _ => SlidingMoves.SlidingMovesExact(b, piece);
  }

  lemma {:induction false} MovesOfPiecesExecutable(b: Board, pieces: seq<Piece>)
    requires WellFormed(b) && OnBoard(pieces)
    ensures forall m :: m in MovesOfPieces(b, pieces) ==> Executable(m)
    decreases |pieces|
  {
    if |pieces| > 0 {
      MovesOfPiecesExecutable(b, pieces[..|pieces| - 1]);
      PieceMovesExecutable(b, pieces[|pieces| - 1]);
    }
  }

  /** A player's legal moves are all executable: pawn jumps move pawns and
      promotions wrap a pawn's push or capture. */
  lemma LegalMovesExecutable(b: Board, a: Alliance)
    requires Valid(b)
    ensures forall m :: m in LegalMoves(b, a) ==> Executable(m)
  {
    ActivePiecesOnBoard(b, a);
    MovesOfPiecesExecutable(b, ActivePieces(b, a));
    CastlesShape(b, a);
  }

  // ---------------------------------------------------------------------------
  // isMoveLegal and makeMove

  /** legalMoves.contains(move): the argument's equals accepts some legal move. */
  predicate IsMoveLegal(b: Board, a: Alliance, m: Move)
    requires Valid(b)
  {
    exists i :: 0 <= i < |LegalMoves(b, a)| && MoveEquals(m, LegalMoves(b, a)[i])
  }

  /** makeMove of the player for side a on board b; an exception execute()
      raises is the error. */
  function MakeMove(b: Board, a: Alliance, m: Move): (r: Result<MoveTransition, Failure>)
    requires Valid(b) && Executable(m)
    ensures r.Ok? ==> r.value.move == m
    ensures r.Ok? && IsDone(r.value.moveStatus) ==>
      !m.NullMove? && Valid(r.value.transitionBoard) && r.value.transitionBoard.nextMoveMaker == Opponent(m.board.nextMoveMaker)
    ensures r.Ok? && !IsDone(r.value.moveStatus) ==> r.value.transitionBoard == b
  {
    if !IsMoveLegal(b, a, m) then Ok(MoveTransition(b, m, ILLEGAL_MOVE))
    else
      var executed := ExecuteSpec(m);
      if executed.Err? then Err(executed.error)
      else
        var transitionBoard := executed.value;
        var kingAttacks := KingAttacks(transitionBoard);
        if kingAttacks != [] then Ok(MoveTransition(b, m, LEAVES_PLAYER_IN_CHECK))
        else Ok(MoveTransition(transitionBoard, m, DONE))
  }

  /** The attacks makeMove looks for after the move: the new side to move's
      moves that land on the king of the side that just moved. */
  function KingAttacks(transitionBoard: Board): seq<Move>
    requires Valid(transitionBoard)
  {
    AttacksOnTile(PlayerKingOf(transitionBoard, Opponent(transitionBoard.nextMoveMaker)).piecePosition,
                  CurrentLegalMoves(transitionBoard))
  }

  /** The king of side a on a valid board. */
  function PlayerKingOf(b: Board, a: Alliance): Piece
    requires Valid(b)
  {
    assert HasKing(b, a) by { assert a == WHITE || a == BLACK; }
    PlayerKing(b, a)
  }

  /** A move no legal move equals is refused and the board is kept. */
  lemma MakeIllegalMove(b: Board, a: Alliance, m: Move)
    requires Valid(b) && Executable(m) && !IsMoveLegal(b, a, m)
    ensures MakeMove(b, a, m) == Ok(MoveTransition(b, m, ILLEGAL_MOVE))
  {
  }

  /** As written, a legal move is DONE whenever it can be executed, with the
      executed board: no transition ever leaves the player in check. */
  lemma MakeLegalMove(b: Board, a: Alliance, m: Move)
    requires Valid(b) && Executable(m) && IsMoveLegal(b, a, m)
    ensures ExecuteSpec(m).Ok? ==> MakeMove(b, a, m) == Ok(MoveTransition(ExecuteSpec(m).value, m, DONE))
    ensures ExecuteSpec(m).Err? ==> MakeMove(b, a, m) == Err(ExecuteSpec(m).error)
  {
    if ExecuteSpec(m).Ok? {
      var nb := ExecuteSpec(m).value;
      assert KingAttacks(nb) == [];
    }
  }

  /** Every legal move is legal, and, as written, so is every promotion as
      soon as the player has any legal move. */
  lemma LegalMovesAreLegal(b: Board, a: Alliance, i: int, pm: Move)
    requires Valid(b) && 0 <= i < |LegalMoves(b, a)| && pm.PawnPromotion?
    ensures IsMoveLegal(b, a, LegalMoves(b, a)[i])
    ensures IsMoveLegal(b, a, pm)
  {
    MoveEqualsReflexive(LegalMoves(b, a)[i]);
  }

  /** No legal move is the null move. */
  lemma LegalMovesNotNull(b: Board, a: Alliance)
    requires Valid(b)
    ensures forall m :: m in LegalMoves(b, a) ==> !m.NullMove?
  {
    StandardMovesSound(b, a);
    CastlesShape(b, a);
    forall m | m in LegalMoves(b, a) ensures !m.NullMove? {
      assert m in StandardMoves(b, a) || m in Castles(b, a);
    }
  }

  /** The null move equals no move of a list without the null move. */
  lemma NullMoveEqualsNone(moves: seq<Move>)
    requires forall m :: m in moves ==> !m.NullMove?
    ensures forall i :: 0 <= i < |moves| ==> !MoveEquals(NullMove, moves[i])
  {
    forall i | 0 <= i < |moves| ensures !MoveEquals(NullMove, moves[i]) {
      assert moves[i] in moves;
    }
  }

  /** The null move is never legal. */
  lemma NullMoveIllegal(b: Board, a: Alliance)
    requires Valid(b)
    ensures !IsMoveLegal(b, a, NullMove)
  {
    LegalMovesNotNull(b, a);
    NullMoveEqualsNone(LegalMoves(b, a));
  }

  // ---------------------------------------------------------------------------
  // hasEscapeMoves, isInCheckmate, isInStalemate

  /** makeMove of each of the player's legal moves, in order. */
  function LegalTransitions(b: Board, a: Alliance): (r: seq<Result<MoveTransition, Failure>>)
    requires Valid(b)
    ensures |r| == |LegalMoves(b, a)|
    ensures DoneBoardsValid(r)
  {
    LegalMovesExecutable(b, a);
    var moves := LegalMoves(b, a);
    seq(|moves|, j requires 0 <= j < |moves| => MakeMove(b, a, moves[j]))
  }

  /** Every DONE transition leads to a valid board. */
  predicate DoneBoardsValid(transitions: seq<Result<MoveTransition, Failure>>)
  {
    forall j :: 0 <= j < |transitions| && transitions[j].Ok? && IsDone(transitions[j].value.moveStatus) ==>
      Valid(transitions[j].value.transitionBoard)
  }

  /** The loop of hasEscapeMoves from the i-th transition on: true at the
      first DONE transition, false past the end, and makeMove's exception out. */
  function EscapeFrom(transitions: seq<Result<MoveTransition, Failure>>, i: nat): Result<bool, Failure>
    requires i <= |transitions|
    decreases |transitions| - i
  {
    if i == |transitions| then Ok(false)
    else if transitions[i].Err? then Err(transitions[i].error)
    else if IsDone(transitions[i].value.moveStatus) then Ok(true)
    else EscapeFrom(transitions, i + 1)
  }

  function HasEscapeMoves(b: Board, a: Alliance): Result<bool, Failure>
    requires Valid(b)
  {
    EscapeFrom(LegalTransitions(b, a), 0)
  }

  method CalculateEscapeMoves(b: Board, a: Alliance) returns (r: Result<bool, Failure>)
    requires Valid(b)
    ensures r == HasEscapeMoves(b, a)
  {
    var legalMoves := LegalMoves(b, a);
    ghost var transitions := LegalTransitions(b, a);
    LegalMovesExecutable(b, a);
    var i := 0;
    while i < |legalMoves|
      invariant 0 <= i <= |legalMoves|
      invariant EscapeFrom(transitions, i) == EscapeFrom(transitions, 0)
    {
      var transition := MakeMove(b, a, legalMoves[i]);
      assert transition == transitions[i];
      if transition.Err? {
        return Err(transition.error);
      }
      if IsDone(transition.value.moveStatus) {
        return Ok(true);
      }
      i := i + 1;
    }
    return Ok(false);
  }

  /** The loop answers false exactly when every transition is made without an
      exception and none is DONE, and true only when some transition is DONE. */
  lemma {:induction false} EscapeFromMeaning(transitions: seq<Result<MoveTransition, Failure>>, i: nat)
    requires i <= |transitions|
    ensures EscapeFrom(transitions, i) == Ok(false) <==>
      forall j :: i <= j < |transitions| ==> transitions[j].Ok? && !IsDone(transitions[j].value.moveStatus)
    ensures EscapeFrom(transitions, i) == Ok(true) ==>
      exists j :: i <= j < |transitions| && transitions[j].Ok? && IsDone(transitions[j].value.moveStatus)
    decreases |transitions| - i
  {
    if i < |transitions| {
      EscapeFromMeaning(transitions, i + 1);
    }
  }

  /** isInCheckmate for a player whose isInCheck field holds inCheck: in check
      and no escape; && does not ask for escapes when not in check. */
  function CheckmateGiven(b: Board, a: Alliance, inCheck: bool): Result<bool, Failure>
    requires Valid(b)
  {
    if !inCheck then Ok(false)
    else
      var escape := HasEscapeMoves(b, a);
      if escape.Err? then Err(escape.error) else Ok(!escape.value)
  }

  /** isInStalemate for a player whose isInCheck field holds inCheck: not in
      check and no escape. */
  function StalemateGiven(b: Board, a: Alliance, inCheck: bool): Result<bool, Failure>
    requires Valid(b)
  {
    if inCheck then Ok(false)
    else
      var escape := HasEscapeMoves(b, a);
      if escape.Err? then Err(escape.error) else Ok(!escape.value)
  }

  function IsInCheckmate(b: Board, a: Alliance): Result<bool, Failure>
    requires Valid(b)
  {
    CheckmateGiven(b, a, IsInCheck(b, a))
  }

  function IsInStalemate(b: Board, a: Alliance): Result<bool, Failure>
    requires Valid(b)
  {
    StalemateGiven(b, a, IsInCheck(b, a))
  }

  /** Whatever the check flag, a player is never both checkmated and
      stalemated, and either answer true means no legal move's transition is
      DONE. */
  lemma MateExcludesStalemate(b: Board, a: Alliance, inCheck: bool)
    requires Valid(b)
    ensures !(CheckmateGiven(b, a, inCheck) == Ok(true) && StalemateGiven(b, a, inCheck) == Ok(true))
    ensures CheckmateGiven(b, a, inCheck) == Ok(true) || StalemateGiven(b, a, inCheck) == Ok(true) ==>
      forall j :: 0 <= j < |LegalTransitions(b, a)| ==>
        LegalTransitions(b, a)[j].Ok? && !IsDone(LegalTransitions(b, a)[j].value.moveStatus)
  {
    EscapeFromMeaning(LegalTransitions(b, a), 0);
  }

  /** No player is both checkmated and stalemated; as written, since check is
      never detected, no player is checkmated, and stalemate is the absence of
      escapes. */
  lemma MateAndStalemate(b: Board, a: Alliance)
    requires Valid(b)
    ensures !(IsInCheckmate(b, a) == Ok(true) && IsInStalemate(b, a) == Ok(true))
    ensures IsInStalemate(b, a) == Ok(true) <==> HasEscapeMoves(b, a) == Ok(false)
  {
    NeverInCheck(b, a);
  }

  lemma NeverCheckmated(b: Board, a: Alliance)
    requires Valid(b)
    ensures IsInCheckmate(b, a) == Ok(false)
  {
    NeverInCheck(b, a);
  }

  // ---------------------------------------------------------------------------
  // MoveFactory.createMove

  /** The first move at index i or later with the given squares, or NULL_MOVE. */
  function FirstMatch(moves: seq<Move>, currentCoord: int, destinationCoord: int, i: nat): Move
    requires i <= |moves|
    decreases |moves| - i
  {
    if i == |moves| then NullMove
    else if CurrentCoord(moves[i]) == currentCoord && DestinationCoord(moves[i]) == destinationCoord then moves[i]
    else FirstMatch(moves, currentCoord, destinationCoord, i + 1)
  }

  function CreateMoveSpec(b: Board, currentCoord: int, destinationCoord: int): Move
    requires Valid(b)
  {
    FirstMatch(CurrentLegalMoves(b), currentCoord, destinationCoord, 0)
  }

  method CreateMove(b: Board, currentCoord: int, destinationCoord: int) returns (m: Move)
    requires Valid(b)
    ensures m == CreateMoveSpec(b, currentCoord, destinationCoord)
  {
    var legalMoves := CurrentLegalMoves(b);
    var i := 0;
    while i < |legalMoves|
      invariant 0 <= i <= |legalMoves|
      invariant FirstMatch(legalMoves, currentCoord, destinationCoord, i) == CreateMoveSpec(b, currentCoord, destinationCoord)
    {
      var move := legalMoves[i];
      if CurrentCoord(move) == currentCoord && DestinationCoord(move) == destinationCoord {
        return move;
      }
      i := i + 1;
    }
    return NullMove;
  }

  /** The first matching move wins; NULL_MOVE exactly when nothing matches. */
  lemma {:induction false} FirstMatchMeaning(moves: seq<Move>, currentCoord: int, destinationCoord: int, i: nat)
    requires i <= |moves|
    requires forall j :: 0 <= j < |moves| ==> !moves[j].NullMove?
    ensures var m := FirstMatch(moves, currentCoord, destinationCoord, i);
      (m.NullMove? <==>
         forall j :: i <= j < |moves| ==> !(CurrentCoord(moves[j]) == currentCoord && DestinationCoord(moves[j]) == destinationCoord)) &&
      (!m.NullMove? ==>
         exists j :: i <= j < |moves| && m == moves[j] &&
           CurrentCoord(m) == currentCoord && DestinationCoord(m) == destinationCoord &&
           forall k :: i <= k < j ==> !(CurrentCoord(moves[k]) == currentCoord && DestinationCoord(moves[k]) == destinationCoord))
    decreases |moves| - i
  {
    if i < |moves| {
      FirstMatchMeaning(moves, currentCoord, destinationCoord, i + 1);
    }
  }

  /** createMove returns the first of the current player's legal moves from
      currentCoord to destinationCoord, and NULL_MOVE when there is none. */
  lemma CreateMoveMeaning(b: Board, currentCoord: int, destinationCoord: int)
    requires Valid(b)
    ensures var m := CreateMoveSpec(b, currentCoord, destinationCoord);
      var moves := CurrentLegalMoves(b);
      (m.NullMove? <==>
         forall j :: 0 <= j < |moves| ==> !(CurrentCoord(moves[j]) == currentCoord && DestinationCoord(moves[j]) == destinationCoord)) &&
      (!m.NullMove? ==>
         exists j :: 0 <= j < |moves| && m == moves[j] &&
           CurrentCoord(m) == currentCoord && DestinationCoord(m) == destinationCoord &&
           forall k :: 0 <= k < j ==> !(CurrentCoord(moves[k]) == currentCoord && DestinationCoord(moves[k]) == destinationCoord))
  {
    var moves := CurrentLegalMoves(b);
    LegalMovesNotNull(b, b.nextMoveMaker);
    forall j | 0 <= j < |moves| ensures !moves[j].NullMove? {
      assert moves[j] in moves;
    }
    FirstMatchMeaning(moves, currentCoord, destinationCoord, 0);
  }
}
