/**
 * Minimax with a table of scores (strategy_minimax_memoize.py): the
 * strategy object owns the table `ms_dict`, keyed by a state's text, and
 * `find_score` consults and fills it in place.
 */
module StrategyMinimaxMemoize {
  import opened Wrappers
  import opened TippyMove
  import opened TippyGameState
  import opened Best
  import opened MemoTable
  import Full = StrategyMinimax

  class StrategyMinimaxMemoize {
    /** `ms_dict`: a state's text mapped to the score computed for it. */
    var msDict: Cache

    /** `__init__`: a strategy starts with an empty table. */
    constructor ()
      ensures msDict == map[]
    {
      msDict := map[];
    }

    /** `__eq__`: two memoising strategies are equal when their tables are. */
    predicate Equals(other: StrategyMinimaxMemoize)
      reads this, other
    {
      msDict == other.msDict
    }

    /**
     * `find_score`: a finished game scores its outcome; otherwise the state's
     * text is looked up, and on a miss the best negated child score is
     * computed, child by child, and stored under that text.
     */
    method FindScore(outcome: OutcomeFn, s: State) returns (r: int)
      requires WellFormed(s)
      modifies this
      ensures r == MemoScore(outcome, s, old(msDict)).0
      ensures msDict == MemoScore(outcome, s, old(msDict)).1
      decreases EmptyCount(s.board), 1
    {
      ghost var start := msDict;
      if Over(s) {
        r := outcome(s);
      } else {
        var key := Render(s);
        if key !in msDict {
          var moves := PossibleNextMoves(s);
          var scores := ChildScores(outcome, s, moves);
          MemoScoreMiss(outcome, s, start);
          var score := MaxOf(scores);
          msDict := msDict[key := score];
        }
        r := msDict[key];
      }
    }

    /**
     * The generator inside `find_score`'s `max`: each child's score, negated,
     * in move order, every child scored with the table the previous one
     * left behind.
     */
    method ChildScores(outcome: OutcomeFn, s: State, moves: seq<Move>) returns (scores: seq<int>)
      requires WellFormed(s) && Full.AllLegal(s, moves)
      modifies this
      ensures scores == MemoScan(outcome, s, moves, old(msDict)).0
      ensures msDict == MemoScan(outcome, s, moves, old(msDict)).1
      decreases EmptyCount(s.board), 0
    {
      ghost var start := msDict;
      scores := [];
      for i := 0 to |moves|
        invariant Full.AllLegal(s, moves[..i])
        invariant scores == MemoScan(outcome, s, moves[..i], start).0
        invariant msDict == MemoScan(outcome, s, moves[..i], start).1
      {
        MemoScanStep(outcome, s, moves, start, i);
        var child := ApplyMove(s, moves[i]);
        var v := FindScore(outcome, child);
        scores := scores + [v * (-1)];
      }
      assert moves[..|moves|] == moves;
    }

    /**
     * `suggest_move`: score every legal move with `find_score`, which fills
     * the table, then take the first move with the largest score; with no
     * legal move, `max` fails on the empty list.
     */
    method SuggestMove(outcome: OutcomeFn, s: State) returns (r: Result<Move, SuggestError>)
      requires WellFormed(s)
      modifies this
      ensures msDict == MemoScan(outcome, s, PossibleMoves(s), old(msDict)).1
      ensures r.Failure? <==> PossibleMoves(s) == []
      ensures r.Failure? ==> r.error == EmptyMax
      ensures r.Success? ==> exists k ::
        IsFirstMax(MemoScan(outcome, s, PossibleMoves(s), old(msDict)).0, k) && r.value == PossibleMoves(s)[k]
    {
      ghost var start := msDict;
      var moves := PossibleNextMoves(s);
      var scoreMoves: seq<(int, Move)> := [];
      for i := 0 to |moves|
        invariant Full.AllLegal(s, moves[..i])
        invariant KeysOf(scoreMoves) == MemoScan(outcome, s, moves[..i], start).0
        invariant msDict == MemoScan(outcome, s, moves[..i], start).1
        invariant |scoreMoves| == i
        invariant forall j :: 0 <= j < i ==> scoreMoves[j].1 == moves[j]
      {
        MemoScanStep(outcome, s, moves, start, i);
        var child := ApplyMove(s, moves[i]);
        var v := FindScore(outcome, child);
        var score := v * (-1);
        KeysOfSnoc(scoreMoves, (score, moves[i]));
        MovesSnoc(scoreMoves, moves, i, (score, moves[i]));
        scoreMoves := scoreMoves + [(score, moves[i])];
      }
      assert moves[..|moves|] == moves;
      var best := MaxByKey(scoreMoves);
      match best
      case Failure(e) => r := Failure(e);
      case Success(pair) => r := Success(pair.1);
    }
  }

  /**
   * The doctest of `__eq__`: two fresh strategies asked for a move in the
   * same state suggest the same move and end with equal tables, so they
   * compare equal.
   */
  method FreshStrategiesAgree(outcome: OutcomeFn, s: State) returns (sameMove: bool, equal: bool)
    requires WellFormed(s)
    ensures sameMove && equal
  {
    var S := new StrategyMinimaxMemoize();
    var T := new StrategyMinimaxMemoize();
    var m1 := S.SuggestMove(outcome, s);
    var m2 := T.SuggestMove(outcome, s);
    if m1.Success? && m2.Success? {
      ghost var xs := MemoScan(outcome, s, PossibleMoves(s), map[]).0;
      ghost var k1 :| IsFirstMax(xs, k1) && m1.value == PossibleMoves(s)[k1];
      ghost var k2 :| IsFirstMax(xs, k2) && m2.value == PossibleMoves(s)[k2];
      FirstMaxUnique(xs, k1, k2);
    }
    sameMove := m1 == m2;
    equal := S.Equals(T);
  }
}
