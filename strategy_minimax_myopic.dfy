/**
 * Depth-bounded minimax (strategy_minimax_myopic.py): like full minimax,
 * but a state that is not over and is reached with no depth left is scored
 * by the `rough_outcome` heuristic instead of being searched.
 */
module StrategyMinimaxMyopic {
  import opened Wrappers
  import opened TippyMove
  import opened TippyGameState
  import opened Best
  import Full = StrategyMinimax

  /** The default depth of `find_score`, the one `suggest_move` uses. */
  const DefaultDepth := 3

  /**
   * `find_score(state, depth)`: a finished game scores its outcome whatever
   * the depth; otherwise depth 0 scores `rough_outcome`; otherwise the best
   * negated score of the children, searched one level shallower. Only
   * `depth == 0` stops the search, so a negative depth never does.
   */
  function MyopicScore(outcome: OutcomeFn, s: State, depth: int): Score
    requires WellFormed(s)
    decreases EmptyCount(s.board), 1
  {
    if Over(s) then outcome(s)
    else if depth == 0 then
      NotOverHasMove(s);
      RoughCharacterized(s);
      Rough(s).value
    else
      NotOverHasMove(s);
      MaxOf(MyopicScores(outcome, s, PossibleMoves(s), depth - 1))
  }

  /** The list `[find_score(apply_move(m), depth) * (-1) for m in ms]`. */
  function MyopicScores(outcome: OutcomeFn, s: State, ms: seq<Move>, depth: int): (xs: seq<int>)
    requires WellFormed(s) && Full.AllLegal(s, ms)
    ensures |xs| == |ms|
    ensures forall i :: 0 <= i < |ms| ==> xs[i] == -MyopicScore(outcome, Successor(s, ms[i]), depth)
    decreases EmptyCount(s.board), 0
  {
    seq(|ms|, i requires 0 <= i < |ms| => -MyopicScore(outcome, Successor(s, ms[i]), depth))
  }

  /**
   * A depth that is negative, or at least the number of empty tiles, never
   * reaches the heuristic: every game ends before the depth runs out, so the
   * score is the full minimax score.
   */
  lemma {:induction false} MyopicIsFull(outcome: OutcomeFn, s: State, depth: int)
    requires WellFormed(s) && (depth < 0 || EmptyCount(s.board) <= depth)
    ensures MyopicScore(outcome, s, depth) == Full.FindScore(outcome, s)
    decreases EmptyCount(s.board), 1
  {
    if !Over(s) {
      NotOverHasMove(s);
      var ms := PossibleMoves(s);
      MyopicScoresAreFull(outcome, s, ms, depth - 1);
      assert MyopicScore(outcome, s, depth) == MaxOf(MyopicScores(outcome, s, ms, depth - 1));
      assert Full.FindScore(outcome, s) == MaxOf(Full.Scores(outcome, s, ms));
    }
  }

  /** Children searched with a depth that is negative or covers their empty tiles score as in full minimax. */
  lemma {:induction false} MyopicScoresAreFull(outcome: OutcomeFn, s: State, ms: seq<Move>, depth: int)
    requires WellFormed(s) && Full.AllLegal(s, ms) && (depth < 0 || EmptyCount(s.board) <= depth + 1)
    ensures MyopicScores(outcome, s, ms, depth) == Full.Scores(outcome, s, ms)
    decreases EmptyCount(s.board), 0
  {
    forall i | 0 <= i < |ms|
      ensures MyopicScores(outcome, s, ms, depth)[i] == Full.Scores(outcome, s, ms)[i]
    {
      MyopicIsFull(outcome, Successor(s, ms[i]), depth);
    }
  }

  /**
   * With at most four empty tiles, the children `suggest_move` scores at the
   * default depth are scored exactly as full minimax scores them.
   */
  lemma SuggestScoresAreFull(outcome: OutcomeFn, s: State)
    requires WellFormed(s) && EmptyCount(s.board) <= DefaultDepth + 1
    ensures MyopicScores(outcome, s, PossibleMoves(s), DefaultDepth) == Full.Scores(outcome, s, PossibleMoves(s))
  {
    MyopicScoresAreFull(outcome, s, PossibleMoves(s), DefaultDepth);
  }

  /**
   * `suggest_move`: score every legal move at the default depth, then take
   * the first move with the largest score; with no legal move, `max` fails
   * on the empty list.
   */
  method SuggestMove(outcome: OutcomeFn, s: State) returns (r: Result<Move, SuggestError>)
    requires WellFormed(s)
    ensures r.Failure? <==> PossibleMoves(s) == []
    ensures r.Failure? ==> r.error == EmptyMax
    ensures r.Success? ==>
      exists k :: IsFirstMax(MyopicScores(outcome, s, PossibleMoves(s), DefaultDepth), k) && r.value == PossibleMoves(s)[k]
  {
    var moves := PossibleNextMoves(s);
    var scoreMoves: seq<(int, Move)> := [];
    ghost var xs := MyopicScores(outcome, s, moves, DefaultDepth);
    for i := 0 to |moves|
      invariant |scoreMoves| == i
      invariant forall j :: 0 <= j < i ==> scoreMoves[j].0 == xs[j] && scoreMoves[j].1 == moves[j]
    {
      var child := ApplyMove(s, moves[i]);
      var score := (-1) * MyopicScore(outcome, child, DefaultDepth);
      PairsSnoc(scoreMoves, xs, moves, i, (score, moves[i]));
      scoreMoves := scoreMoves + [(score, moves[i])];
    }
    KeysOfPairs(scoreMoves, xs, moves);
    var best := MaxByKey(scoreMoves);
    match best
    case Failure(e) => r := Failure(e);
    case Success(pair) => r := Success(pair.1);
  }
}
