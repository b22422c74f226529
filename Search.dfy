/** What min, max and execute compute. MiniMax reaches the position only
    through a handful of calls -- the current player's legal moves and
    makeMove, isInCheckmate and isInStalemate, the alliance's isWhite and the
    board evaluator -- so the search is stated over those calls (Rules) and
    instantiated with the player and evaluator models in module MiniMax. */
module Search {
  import opened Wrappers
  import opened Boards

  /** Integer.MIN_VALUE and Integer.MAX_VALUE, the starting extrema. */
  const MIN_VALUE: int := -0x8000_0000
  const MAX_VALUE: int := 0x7fff_ffff

  /** What the search reads of a MoveTransition: the transition board and
      whether its status is DONE. */
  datatype Outcome<B> = Outcome(board: B, done: bool)

  /** The calls MiniMax makes on a board B, its current player and the board
      evaluator, for moves M. */
  datatype Rules<!B, !M> = Rules(
    valid: B -> bool,
    legalMoves: B --> seq<M>,
    makeMove: (B, M) --> Result<Outcome<B>, Failure>,
    isInCheckmate: B --> Result<bool, Failure>,
    isInStalemate: B --> Result<bool, Failure>,
    isWhite: B --> bool,
    evaluate: (B, int) --> Result<int, Failure>)

  /** A DONE transition leads to a valid board. */
  ghost predicate DoneValid<B(!new), M>(rules: Rules<B, M>, t: Result<Outcome<B>, Failure>)
  {
    t.Ok? && t.value.done ==> rules.valid(t.value.board)
  }

  /** On board b every call can be made, and every legal move's transition,
      when DONE, leads to a valid board. */
  ghost predicate ReadyAt<B(!new), M>(rules: Rules<B, M>, b: B)
  {
    rules.legalMoves.requires(b) && rules.isInCheckmate.requires(b) &&
    rules.isInStalemate.requires(b) && rules.isWhite.requires(b) &&
    (forall d :: rules.evaluate.requires(b, d)) &&
    forall m :: m in rules.legalMoves(b) ==>
      rules.makeMove.requires(b, m) && DoneValid(rules, rules.makeMove(b, m))
  }

  /** Every valid board is ready for the search. */
  ghost predicate Playable<B(!new), M>(rules: Rules<B, M>)
  {
    forall b :: rules.valid(b) ==> ReadyAt(rules, b)
  }

  ghost predicate AllDoneValid<B(!new), M>(rules: Rules<B, M>, ts: seq<Result<Outcome<B>, Failure>>)
  {
    forall j :: 0 <= j < |ts| ==> DoneValid(rules, ts[j])
  }

  /** isEndGameScenario: the side to move is checkmated or stalemated; ||
      does not ask for stalemate once checkmate holds. */
  function IsEndGameScenario<B(!new), M>(rules: Rules<B, M>, b: B): Result<bool, Failure>
    requires Playable(rules) && rules.valid(b)
  {
    var mate := rules.isInCheckmate(b);
    if mate.Err? then Err(mate.error)
    else if mate.value then Ok(true)
    else rules.isInStalemate(b)
  }

  /** makeMove of each of the current player's legal moves, in order: what
      the loops of min, max and execute see. */
  function Transitions<B(!new), M>(rules: Rules<B, M>, b: B): (ts: seq<Result<Outcome<B>, Failure>>)
    requires Playable(rules) && rules.valid(b)
    ensures |ts| == |rules.legalMoves(b)|
    ensures AllDoneValid(rules, ts)
  {
    var moves := rules.legalMoves(b);
    seq(|moves|, j requires 0 <= j < |moves| => rules.makeMove(b, moves[j]))
  }

  /** What one pass of a loop body does with a transition: an exception, a
      skipped transition that is not DONE, or the value of the recursive call
      on a DONE transition's board. */
  datatype Step = Failed(error: Failure) | Skipped | Scored(value: int)

  function ResultStep(r: Result<int, Failure>): Step
  {
    if r.Err? then Failed(r.error) else Scored(r.value)
  }

  /** min(board, depth). */
  function MinSpec<B(!new), M>(rules: Rules<B, M>, b: B, depth: nat): Result<int, Failure>
    requires Playable(rules) && rules.valid(b)
    decreases depth, 2
  {
    if depth == 0 then rules.evaluate(b, depth)
    else
      var end := IsEndGameScenario(rules, b);
      if end.Err? then Err(end.error)
      else if end.value then rules.evaluate(b, depth)
      else LowestFold(MinSteps(rules, Transitions(rules, b), depth - 1), 0, MAX_VALUE)
  }

  /** max(board, depth). */
  function MaxSpec<B(!new), M>(rules: Rules<B, M>, b: B, depth: nat): Result<int, Failure>
    requires Playable(rules) && rules.valid(b)
    decreases depth, 2
  {
    if depth == 0 then rules.evaluate(b, depth)
    else
      var end := IsEndGameScenario(rules, b);
      if end.Err? then Err(end.error)
      else if end.value then rules.evaluate(b, depth)
      else HighestFold(MaxSteps(rules, Transitions(rules, b), depth - 1), 0, MIN_VALUE)
  }

  /** min's loop body on one transition: max at depth d on a DONE board. */
  function MinStep<B(!new), M>(rules: Rules<B, M>, t: Result<Outcome<B>, Failure>, d: nat): Step
    requires Playable(rules) && DoneValid(rules, t)
    decreases d + 1, 0
  {
    if t.Err? then Failed(t.error)
    else if !t.value.done then Skipped
    else ResultStep(MaxSpec(rules, t.value.board, d))
  }

  function MinSteps<B(!new), M>(rules: Rules<B, M>, ts: seq<Result<Outcome<B>, Failure>>, d: nat): (steps: seq<Step>)
    requires Playable(rules) && AllDoneValid(rules, ts)
    ensures |steps| == |ts|
    decreases d + 1, 1
  {
    seq(|ts|, j requires 0 <= j < |ts| => MinStep(rules, ts[j], d))
  }

  /** max's loop body on one transition: min at depth d on a DONE board. */
  function MaxStep<B(!new), M>(rules: Rules<B, M>, t: Result<Outcome<B>, Failure>, d: nat): Step
    requires Playable(rules) && DoneValid(rules, t)
    decreases d + 1, 0
  {
    if t.Err? then Failed(t.error)
    else if !t.value.done then Skipped
    else ResultStep(MinSpec(rules, t.value.board, d))
  }

  function MaxSteps<B(!new), M>(rules: Rules<B, M>, ts: seq<Result<Outcome<B>, Failure>>, d: nat): (steps: seq<Step>)
    requires Playable(rules) && AllDoneValid(rules, ts)
    ensures |steps| == |ts|
    decreases d + 1, 1
  {
    seq(|ts|, j requires 0 <= j < |ts| => MaxStep(rules, ts[j], d))
  }

  /** min's loop from step i on, with lowestSeenValue so far: the first
      exception ends it, a value replaces the running one when <= it. */
  function LowestFold(steps: seq<Step>, i: nat, lowestSeenValue: int): Result<int, Failure>
    requires i <= |steps|
    decreases |steps| - i
  {
    if i == |steps| then Ok(lowestSeenValue)
    else
      match steps[i]
      case Failed(e) => Err(e)
      case Skipped => LowestFold(steps, i + 1, lowestSeenValue)
      case Scored(v) => LowestFold(steps, i + 1, if v <= lowestSeenValue then v else lowestSeenValue)
  }

  /** max's loop: a value replaces the running one when >= it. */
  function HighestFold(steps: seq<Step>, i: nat, highestSeenValue: int): Result<int, Failure>
    requires i <= |steps|
    decreases |steps| - i
  {
    if i == |steps| then Ok(highestSeenValue)
    else
      match steps[i]
      case Failed(e) => Err(e)
      case Skipped => HighestFold(steps, i + 1, highestSeenValue)
      case Scored(v) => HighestFold(steps, i + 1, if v >= highestSeenValue then v else highestSeenValue)
  }

  // ---------------------------------------------------------------------------
  // execute

  /** The running variables of execute's loop. */
  datatype Tracked<M> = Tracked(highestSeenValue: int, lowestSeenValue: int, bestMove: Option<M>)

  /** The values execute's loop sees: min one level down for White, max for
      Black. */
  function RootSteps<B(!new), M>(rules: Rules<B, M>, b: B, searchDepth: nat): (steps: seq<Step>)
    requires Playable(rules) && rules.valid(b) && searchDepth >= 1
    ensures |steps| == |rules.legalMoves(b)|
  {
    if rules.isWhite(b) then MaxSteps(rules, Transitions(rules, b), searchDepth - 1)
    else MinSteps(rules, Transitions(rules, b), searchDepth - 1)
  }

  /** execute's loop from move i on. White keeps a value >= the highest seen
      and Black one <= the lowest seen, each with its move, so a later move
      with an equal value replaces an earlier one. */
  function BestFold<M>(moves: seq<M>, steps: seq<Step>, white: bool, i: nat, tracked: Tracked<M>): Result<Tracked<M>, Failure>
    requires |steps| == |moves| && i <= |moves|
    decreases |moves| - i
  {
    if i == |moves| then Ok(tracked)
    else
      match steps[i]
      case Failed(e) => Err(e)
      case Skipped => BestFold(moves, steps, white, i + 1, tracked)
      case Scored(v) =>
        var next :=
          if white && v >= tracked.highestSeenValue then tracked.(highestSeenValue := v, bestMove := Some(moves[i]))
          else if !white && v <= tracked.lowestSeenValue then tracked.(lowestSeenValue := v, bestMove := Some(moves[i]))
          else tracked;
        BestFold(moves, steps, white, i + 1, next)
  }

  /** The running variables when execute's loop ends. */
  function BestMoveSpec<B(!new), M>(rules: Rules<B, M>, b: B, searchDepth: nat): Result<Tracked<M>, Failure>
    requires Playable(rules) && rules.valid(b) && searchDepth >= 1
  {
    BestFold(rules.legalMoves(b), RootSteps(rules, b, searchDepth), rules.isWhite(b), 0,
      Tracked(MIN_VALUE, MAX_VALUE, None))
  }

  // ---------------------------------------------------------------------------
  // What min, max and execute compute

  /** min's loop fails exactly when some step fails; otherwise it returns
      the smallest of the starting value and the values seen. */
  lemma {:induction false} LowestFoldMeaning(steps: seq<Step>, i: nat, lowestSeenValue: int)
    requires i <= |steps|
    ensures LowestFold(steps, i, lowestSeenValue).Err? <==> exists j :: i <= j < |steps| && steps[j].Failed?
    ensures var r := LowestFold(steps, i, lowestSeenValue);
      r.Ok? ==>
        r.value <= lowestSeenValue &&
        (forall j :: i <= j < |steps| && steps[j].Scored? ==> r.value <= steps[j].value) &&
        (r.value == lowestSeenValue || exists j :: i <= j < |steps| && steps[j] == Scored(r.value))
    decreases |steps| - i
  {
    if i < |steps| {
      match steps[i]
      case Failed(_) =>
      case Skipped => LowestFoldMeaning(steps, i + 1, lowestSeenValue);
      case Scored(v) => LowestFoldMeaning(steps, i + 1, if v <= lowestSeenValue then v else lowestSeenValue);
    }
  }

  /** max's loop, symmetrically: the largest of the starting value and the
      values seen. */
  lemma {:induction false} HighestFoldMeaning(steps: seq<Step>, i: nat, highestSeenValue: int)
    requires i <= |steps|
    ensures HighestFold(steps, i, highestSeenValue).Err? <==> exists j :: i <= j < |steps| && steps[j].Failed?
    ensures var r := HighestFold(steps, i, highestSeenValue);
      r.Ok? ==>
        r.value >= highestSeenValue &&
        (forall j :: i <= j < |steps| && steps[j].Scored? ==> r.value >= steps[j].value) &&
        (r.value == highestSeenValue || exists j :: i <= j < |steps| && steps[j] == Scored(r.value))
    decreases |steps| - i
  {
    if i < |steps| {
      match steps[i]
      case Failed(_) =>
      case Skipped => HighestFoldMeaning(steps, i + 1, highestSeenValue);
      case Scored(v) => HighestFoldMeaning(steps, i + 1, if v >= highestSeenValue then v else highestSeenValue);
    }
  }

  /** The j-th transition is DONE. */
  predicate DoneAt<B>(ts: seq<Result<Outcome<B>, Failure>>, j: int)
  {
    0 <= j < |ts| && ts[j].Ok? && ts[j].value.done
  }

  /** At depth 0 or at the end of the game, min and max are the board
      evaluator's score of the board. */
  lemma LeafIsEvaluated<B(!new), M>(rules: Rules<B, M>, b: B, depth: nat)
    requires Playable(rules) && rules.valid(b)
    requires depth == 0 || IsEndGameScenario(rules, b) == Ok(true)
    ensures MinSpec(rules, b, depth) == rules.evaluate(b, depth)
    ensures MaxSpec(rules, b, depth) == rules.evaluate(b, depth)
  {
  }

  /** Away from depth 0 and the end of the game, max is the best child value
      for the side to move: no DONE transition's min one level down exceeds
      it, and it is one of them, or Integer.MIN_VALUE when no transition is
      DONE. Transitions that are not DONE take no part. */
  lemma MaxIsBestChild<B(!new), M>(rules: Rules<B, M>, b: B, depth: nat)
    requires Playable(rules) && rules.valid(b) && depth >= 1
    requires IsEndGameScenario(rules, b) == Ok(false)
    requires MaxSpec(rules, b, depth).Ok?
    ensures var v := MaxSpec(rules, b, depth).value;
      var ts := Transitions(rules, b);
      (forall j :: DoneAt(ts, j) ==>
         MinSpec(rules, ts[j].value.board, depth - 1).Ok? &&
         MinSpec(rules, ts[j].value.board, depth - 1).value <= v) &&
      (v == MIN_VALUE || exists j :: DoneAt(ts, j) && MinSpec(rules, ts[j].value.board, depth - 1) == Ok(v))
  {
    var ts := Transitions(rules, b);
    var steps := MaxSteps(rules, ts, depth - 1);
    HighestFoldMeaning(steps, 0, MIN_VALUE);
    var v := MaxSpec(rules, b, depth).value;
    forall j | DoneAt(ts, j)
      ensures MinSpec(rules, ts[j].value.board, depth - 1).Ok? &&
              MinSpec(rules, ts[j].value.board, depth - 1).value <= v
    {
      assert steps[j] == MaxStep(rules, ts[j], depth - 1);
    }
    if v != MIN_VALUE {
      var j :| 0 <= j < |steps| && steps[j] == Scored(v);
      assert steps[j] == MaxStep(rules, ts[j], depth - 1);
      assert DoneAt(ts, j);
    }
  }

  /** And min is the worst child value for the side to move, or
      Integer.MAX_VALUE when no transition is DONE. */
  lemma MinIsWorstChild<B(!new), M>(rules: Rules<B, M>, b: B, depth: nat)
    requires Playable(rules) && rules.valid(b) && depth >= 1
    requires IsEndGameScenario(rules, b) == Ok(false)
    requires MinSpec(rules, b, depth).Ok?
    ensures var v := MinSpec(rules, b, depth).value;
      var ts := Transitions(rules, b);
      (forall j :: DoneAt(ts, j) ==>
         MaxSpec(rules, ts[j].value.board, depth - 1).Ok? &&
         MaxSpec(rules, ts[j].value.board, depth - 1).value >= v) &&
      (v == MAX_VALUE || exists j :: DoneAt(ts, j) && MaxSpec(rules, ts[j].value.board, depth - 1) == Ok(v))
  {
    var ts := Transitions(rules, b);
    var steps := MinSteps(rules, ts, depth - 1);
    LowestFoldMeaning(steps, 0, MAX_VALUE);
    var v := MinSpec(rules, b, depth).value;
    forall j | DoneAt(ts, j)
      ensures MaxSpec(rules, ts[j].value.board, depth - 1).Ok? &&
              MaxSpec(rules, ts[j].value.board, depth - 1).value >= v
    {
      assert steps[j] == MinStep(rules, ts[j], depth - 1);
    }
    if v != MAX_VALUE {
      var j :| 0 <= j < |steps| && steps[j] == Scored(v);
      assert steps[j] == MinStep(rules, ts[j], depth - 1);
      assert DoneAt(ts, j);
    }
  }

  /** White's side of execute's loop: it fails exactly when some step fails;
      otherwise the highest value is max's fold, the lowest is untouched, and
      the best move is either the one it started with (no later value reached
      the starting highest) or the LAST move whose value equals the highest. */
  lemma {:induction false} WhiteBestFold<M>(moves: seq<M>, steps: seq<Step>, i: nat, tracked: Tracked<M>)
    requires |steps| == |moves| && i <= |moves|
    ensures BestFold(moves, steps, true, i, tracked).Err? <==> exists j :: i <= j < |steps| && steps[j].Failed?
    ensures var r := BestFold(moves, steps, true, i, tracked);
      r.Ok? ==>
        Ok(r.value.highestSeenValue) == HighestFold(steps, i, tracked.highestSeenValue) &&
        r.value.lowestSeenValue == tracked.lowestSeenValue &&
        ((r.value.bestMove == tracked.bestMove && r.value.highestSeenValue == tracked.highestSeenValue &&
          forall k :: i <= k < |steps| && steps[k].Scored? ==> steps[k].value < tracked.highestSeenValue) ||
         (exists j :: i <= j < |steps| && steps[j] == Scored(r.value.highestSeenValue) &&
            r.value.bestMove == Some(moves[j]) &&
            forall k :: j < k < |steps| && steps[k].Scored? ==> steps[k].value < r.value.highestSeenValue))
    decreases |moves| - i
  {
    if i < |moves| {
      match steps[i]
      case Failed(_) =>
      case Skipped => WhiteBestFold(moves, steps, i + 1, tracked);
      case Scored(v) =>
        if v >= tracked.highestSeenValue {
          WhiteBestFold(moves, steps, i + 1, tracked.(highestSeenValue := v, bestMove := Some(moves[i])));
        } else {
          WhiteBestFold(moves, steps, i + 1, tracked);
        }
    }
  }

  /** Black's side: the lowest value is min's fold and the best move the last
      one whose value equals it. */
  lemma {:induction false} BlackBestFold<M>(moves: seq<M>, steps: seq<Step>, i: nat, tracked: Tracked<M>)
    requires |steps| == |moves| && i <= |moves|
    ensures BestFold(moves, steps, false, i, tracked).Err? <==> exists j :: i <= j < |steps| && steps[j].Failed?
    ensures var r := BestFold(moves, steps, false, i, tracked);
      r.Ok? ==>
        Ok(r.value.lowestSeenValue) == LowestFold(steps, i, tracked.lowestSeenValue) &&
        r.value.highestSeenValue == tracked.highestSeenValue &&
        ((r.value.bestMove == tracked.bestMove && r.value.lowestSeenValue == tracked.lowestSeenValue &&
          forall k :: i <= k < |steps| && steps[k].Scored? ==> steps[k].value > tracked.lowestSeenValue) ||
         (exists j :: i <= j < |steps| && steps[j] == Scored(r.value.lowestSeenValue) &&
            r.value.bestMove == Some(moves[j]) &&
            forall k :: j < k < |steps| && steps[k].Scored? ==> steps[k].value > r.value.lowestSeenValue))
    decreases |moves| - i
  {
    if i < |moves| {
      match steps[i]
      case Failed(_) =>
      case Skipped => BlackBestFold(moves, steps, i + 1, tracked);
      case Scored(v) =>
        if v <= tracked.lowestSeenValue {
          BlackBestFold(moves, steps, i + 1, tracked.(lowestSeenValue := v, bestMove := Some(moves[i])));
        } else {
          BlackBestFold(moves, steps, i + 1, tracked);
        }
    }
  }
}
