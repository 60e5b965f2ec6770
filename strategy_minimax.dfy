/**
 * Full minimax (strategy_minimax.py), the reference semantics for the other
 * strategies. Scores are from the point of view of the player to move.
 */
module StrategyMinimax {
  import opened Wrappers
  import opened TippyMove
  import opened TippyGameState
  import opened Best

  predicate AllLegal(s: State, ms: seq<Move>)
  {
    forall i :: 0 <= i < |ms| ==> Legal(s, ms[i])
  }

  /** Every slice of a list of legal moves is a list of legal moves. */
  lemma AllLegalSlice(s: State, ms: seq<Move>, i: int, j: int)
    requires AllLegal(s, ms) && 0 <= i <= j <= |ms|
    ensures AllLegal(s, ms[i..j])
  {
    forall k | 0 <= k < j - i ensures Legal(s, ms[i..j][k]) {
      assert ms[i..j][k] == ms[i + k];
    }
  }

  /**
   * `find_score`: the outcome of a finished game, otherwise the best
   * negated score of the states the legal moves lead to.
   */
  function FindScore(outcome: OutcomeFn, s: State): Score
    requires WellFormed(s)
    decreases EmptyCount(s.board), 2
  {
    if Over(s) then outcome(s)
    else
      NotOverHasMove(s);
      MaxOf(Scores(outcome, s, PossibleMoves(s)))
  }

  /** The score the mover gets by playing `m`: minus the opponent's score afterwards. */
  function ChildScore(outcome: OutcomeFn, s: State, m: Move): Score
    requires WellFormed(s) && Legal(s, m)
    decreases EmptyCount(s.board), 0
  {
    -FindScore(outcome, Successor(s, m))
  }

  /** The list `[-find_score(apply_move(m)) for m in ms]`. */
  function Scores(outcome: OutcomeFn, s: State, ms: seq<Move>): (xs: seq<int>)
    requires WellFormed(s) && AllLegal(s, ms)
    ensures |xs| == |ms|
    ensures forall i :: 0 <= i < |ms| ==> xs[i] == ChildScore(outcome, s, ms[i])
    ensures forall i :: 0 <= i < |ms| ==> -1 <= xs[i] <= 1
    decreases EmptyCount(s.board), 1
  {
    seq(|ms|, i requires 0 <= i < |ms| => ChildScore(outcome, s, ms[i]))
  }

  /** The score of a state that is not over is achieved by some legal move. */
  lemma FindScoreAchieved(outcome: OutcomeFn, s: State)
    requires WellFormed(s) && !Over(s)
    ensures exists k ::
      0 <= k < |PossibleMoves(s)| && FindScore(outcome, s) == ChildScore(outcome, s, PossibleMoves(s)[k])
  {
    var xs := Scores(outcome, s, PossibleMoves(s));
    assert FindScore(outcome, s) == MaxOf(xs);
    var k :| 0 <= k < |xs| && xs[k] == MaxOf(xs);
    assert FindScore(outcome, s) == ChildScore(outcome, s, PossibleMoves(s)[k]);
  }

  /** No legal move from a state that is not over scores more than the state. */
  lemma FindScoreDominates(outcome: OutcomeFn, s: State, k: int)
    requires WellFormed(s) && !Over(s) && 0 <= k < |PossibleMoves(s)|
    ensures ChildScore(outcome, s, PossibleMoves(s)[k]) <= FindScore(outcome, s)
  {
    var xs := Scores(outcome, s, PossibleMoves(s));
    assert FindScore(outcome, s) == MaxOf(xs);
    assert xs[k] <= MaxOf(xs);
  }

  /**
   * The move `suggest_move` picks from a state that is not over scores
   * exactly `find_score` of that state.
   */
  lemma SuggestedScoreIsFindScore(outcome: OutcomeFn, s: State, k: int)
    requires WellFormed(s) && !Over(s)
    requires IsFirstMax(Scores(outcome, s, PossibleMoves(s)), k)
    ensures ChildScore(outcome, s, PossibleMoves(s)[k]) == FindScore(outcome, s)
  {
    var xs := Scores(outcome, s, PossibleMoves(s));
    assert MaxOf(xs) in xs;
  }

  /**
   * `suggest_move`: score every legal move, then take the first one with
   * the largest score; with no legal move, `max` fails on the empty list.
   */
  method SuggestMove(outcome: OutcomeFn, s: State) returns (r: Result<Move, SuggestError>)
    requires WellFormed(s)
    ensures r.Failure? <==> PossibleMoves(s) == []
    ensures r.Failure? ==> r.error == EmptyMax
    ensures r.Success? ==>
      exists k :: IsFirstMax(Scores(outcome, s, PossibleMoves(s)), k) && r.value == PossibleMoves(s)[k]
  {
    var moves := PossibleNextMoves(s);
    var scoreMoves: seq<(int, Move)> := [];
    ghost var xs := Scores(outcome, s, moves);
    for i := 0 to |moves|
      invariant |scoreMoves| == i
      invariant forall j :: 0 <= j < i ==> scoreMoves[j].0 == xs[j] && scoreMoves[j].1 == moves[j]
    {
      var child := ApplyMove(s, moves[i]);
      var score := (-1) * FindScore(outcome, child);
      PairsSnoc(scoreMoves, xs, moves, i, (score, moves[i]));
      scoreMoves := scoreMoves + [(score, moves[i])];
    }
    KeysOfPairs(scoreMoves, xs, moves);
    var best := MaxByKey(scoreMoves);
    match best
    case Failure(e) => r := Failure(e);
    case Success(pair) => r := Success(pair.1);
  }
}
