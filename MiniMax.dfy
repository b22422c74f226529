/** The MiniMax move strategy. min and max call each other one level
    shallower, each looping over the current player's legal moves and
    recursing on the boards of DONE transitions; execute runs the same loop at
    the root, tracking the best move, and then returns null. The loops are
    stated over the calls they make (Search.Rules); Standard() supplies the
    player and StandardBoardEvaluator models that MiniMax's constructor
    wires in. */
module MiniMax {
  import opened Wrappers
  import opened Alliances
  import opened Boards
  import opened Moves
  import opened Players
  import opened Transitions
  import opened Execution
  import opened Evaluation
  import opened Search

  /** min(board, depth). */
  method Min<B(!new), M>(rules: Rules<B, M>, b: B, depth: nat) returns (r: Result<int, Failure>)
    requires Playable(rules) && rules.valid(b)
    ensures r == MinSpec(rules, b, depth)
    decreases depth
  {
    if depth == 0 {
      return rules.evaluate(b, depth);
    }
    var end := IsEndGameScenario(rules, b);
    if end.Err? {
      return Err(end.error);
    }
    if end.value {
      return rules.evaluate(b, depth);
    }
    var legalMoves := rules.legalMoves(b);
    ghost var ts := Search.Transitions(rules, b);
    ghost var steps := MinSteps(rules, ts, depth - 1);
    var lowestSeenValue := MAX_VALUE;
    var i := 0;
    while i < |legalMoves|
      invariant 0 <= i <= |legalMoves| == |steps|
      invariant LowestFold(steps, i, lowestSeenValue) == LowestFold(steps, 0, MAX_VALUE)
    {
      var moveTransition := rules.makeMove(b, legalMoves[i]);
      assert steps[i] == MinStep(rules, moveTransition, depth - 1);
      if moveTransition.Err? {
        return Err(moveTransition.error);
      }
      if moveTransition.value.done {
        var currentValue := Max(rules, moveTransition.value.board, depth - 1);
        if currentValue.Err? {
          return Err(currentValue.error);
        }
        if currentValue.value <= lowestSeenValue {
          lowestSeenValue := currentValue.value;
        }
      }
      i := i + 1;
    }
    return Ok(lowestSeenValue);
  }

  /** max(board, depth). */
  method Max<B(!new), M>(rules: Rules<B, M>, b: B, depth: nat) returns (r: Result<int, Failure>)
    requires Playable(rules) && rules.valid(b)
    ensures r == MaxSpec(rules, b, depth)
    decreases depth
  {
    if depth == 0 {
      return rules.evaluate(b, depth);
    }
    var end := IsEndGameScenario(rules, b);
    if end.Err? {
      return Err(end.error);
    }
    if end.value {
      return rules.evaluate(b, depth);
    }
    var legalMoves := rules.legalMoves(b);
    ghost var ts := Search.Transitions(rules, b);
    ghost var steps := MaxSteps(rules, ts, depth - 1);
    var highestSeenValue := MIN_VALUE;
    var i := 0;
    while i < |legalMoves|
      invariant 0 <= i <= |legalMoves| == |steps|
      invariant HighestFold(steps, i, highestSeenValue) == HighestFold(steps, 0, MIN_VALUE)
    {
      var moveTransition := rules.makeMove(b, legalMoves[i]);
      assert steps[i] == MaxStep(rules, moveTransition, depth - 1);
      if moveTransition.Err? {
        return Err(moveTransition.error);
      }
      if moveTransition.value.done {
        var currentValue := Min(rules, moveTransition.value.board, depth - 1);
        if currentValue.Err? {
          return Err(currentValue.error);
        }
        if currentValue.value >= highestSeenValue {
          highestSeenValue := currentValue.value;
        }
      }
      i := i + 1;
    }
    return Ok(highestSeenValue);
  }

  /** execute(board): the loop tracks the best move as BestMoveSpec says, and
      then, as written, the method returns null (None) unless an exception
      escaped the loop. */
  method Execute<B(!new), M>(rules: Rules<B, M>, b: B, searchDepth: nat) returns (r: Result<Option<M>, Failure>)
    requires Playable(rules) && rules.valid(b) && searchDepth >= 1
    ensures BestMoveSpec(rules, b, searchDepth).Err? ==> r == Err(BestMoveSpec(rules, b, searchDepth).error)
    ensures BestMoveSpec(rules, b, searchDepth).Ok? ==> r == Ok(None)
  {
    var bestMove: Option<M> := None;
    var highestSeenValue := MIN_VALUE;
    var lowestSeenValue := MAX_VALUE;
    var legalMoves := rules.legalMoves(b);
    ghost var ts := Search.Transitions(rules, b);
    ghost var steps := RootSteps(rules, b, searchDepth);
    ghost var white := rules.isWhite(b);
    var i := 0;
    while i < |legalMoves|
      invariant 0 <= i <= |legalMoves| == |steps|
      invariant BestFold(legalMoves, steps, white, i, Tracked(highestSeenValue, lowestSeenValue, bestMove)) ==
                BestMoveSpec(rules, b, searchDepth)
    {
      var moveTransition := rules.makeMove(b, legalMoves[i]);
      assert moveTransition == ts[i];
      assert steps[i] == if white then MaxStep(rules, ts[i], searchDepth - 1) else MinStep(rules, ts[i], searchDepth - 1);
      if moveTransition.Err? {
        return Err(moveTransition.error);
      }
      if moveTransition.value.done {
        var currentValue;
        if rules.isWhite(b) {
          currentValue := Min(rules, moveTransition.value.board, searchDepth - 1);
        } else {
          currentValue := Max(rules, moveTransition.value.board, searchDepth - 1);
        }
        if currentValue.Err? {
          return Err(currentValue.error);
        }
        if rules.isWhite(b) && currentValue.value >= highestSeenValue {
          highestSeenValue := currentValue.value;
          bestMove := Some(legalMoves[i]);
        } else if !rules.isWhite(b) && currentValue.value <= lowestSeenValue {
          lowestSeenValue := currentValue.value;
          bestMove := Some(legalMoves[i]);
        }
      }
      i := i + 1;
    }
    return Ok(None);
  }

  // ---------------------------------------------------------------------------
  // The instance MiniMax runs on

  /** makeMove's MoveTransition as the search reads it. */
  function OutcomeOf(t: Result<MoveTransition, Failure>): (o: Result<Outcome<Board>, Failure>)
    ensures o.Ok? <==> t.Ok?
    ensures o.Ok? ==> o.value.board == t.value.transitionBoard && (o.value.done <==> IsDone(t.value.moveStatus))
  {
    if t.Err? then Err(t.error)
    else Ok(Outcome(t.value.transitionBoard, IsDone(t.value.moveStatus)))
  }

  /** The calls as MiniMax makes them: through board.currentPlayer() (the
      player of the side to move) and the StandardBoardEvaluator its
      constructor creates. */
  function Standard(): Rules<Board, Move>
  {
    Rules(
      b => Valid(b),
      b requires Valid(b) => LegalMoves(b, b.nextMoveMaker),
      (b, m) requires Valid(b) && Executable(m) => OutcomeOf(MakeMove(b, b.nextMoveMaker, m)),
      b requires Valid(b) => IsInCheckmate(b, b.nextMoveMaker),
      b requires Valid(b) => IsInStalemate(b, b.nextMoveMaker),
      (b: Board) => IsWhite(b.nextMoveMaker),
      (b, d) requires Valid(b) => Evaluate(b, d))
  }

  /** Every call MiniMax makes on a valid board is defined, and a DONE
      transition of a legal move leads to a valid board again. */
  lemma StandardIsPlayable()
    ensures Playable(Standard())
  {
    var rules := Standard();
    forall b | rules.valid(b)
      ensures ReadyAt(rules, b)
    {
      LegalMovesExecutable(b, b.nextMoveMaker);
    }
  }

  /** As written no player is ever checkmated, so the end of the game is
      reached only by stalemate. */
  lemma StandardEndGameIsStalemate(b: Board)
    requires Valid(b)
    ensures Playable(Standard()) && IsEndGameScenario(Standard(), b) == IsInStalemate(b, b.nextMoveMaker)
  {
    StandardIsPlayable();
    NeverCheckmated(b, b.nextMoveMaker);
  }
}
