/**
 * Minimax with a table passed in explicitly (memoization.py): `find_score`
 * takes the dictionary `dct` as an argument and fills it in place, and the
 * strategy object keeps the dictionary it was built with in `ms_dict`.
 */
module Memoization {
  import opened Wrappers
  import opened TippyMove
  import opened TippyGameState
  import opened Best
  import opened MemoTable
  import Full = StrategyMinimax

  /** A Python dictionary from a state's text to a score, shared by reference. */
  class ScoreDict {
    var entries: Cache

    constructor ()
      ensures entries == map[]
    {
      entries := map[];
    }
  }

  class StrategyMemoization {
    /** `ms_dict`: the very dictionary object handed to the constructor. */
    var msDict: ScoreDict

    /**
     * `__init__`: the strategy keeps the given dictionary itself, not a
     * copy; the source's default argument is one dictionary object shared
     * by every strategy built without one.
     */
    constructor (movesScoreDict: ScoreDict)
      ensures msDict == movesScoreDict
    {
      msDict := movesScoreDict;
    }

    /**
     * `find_score(state, dct)`: a finished game scores its outcome and
     * leaves `dct` alone; otherwise, when the state's text is missing, the
     * best negated child score, computed child by child with the same
     * `dct`, is stored under it; the stored value is returned.
     */
    method FindScore(outcome: OutcomeFn, s: State, dct: ScoreDict) returns (r: int)
      requires WellFormed(s)
      modifies dct
      ensures r == MemoScore(outcome, s, old(dct.entries)).0
      ensures dct.entries == MemoScore(outcome, s, old(dct.entries)).1
      decreases EmptyCount(s.board), 1
    {
      ghost var start := dct.entries;
      if Over(s) {
        r := outcome(s);
      } else {
        var key := Render(s);
        if key !in dct.entries {
          var moves := PossibleNextMoves(s);
          var scores := ChildScores(outcome, s, moves, dct);
          MemoScoreMiss(outcome, s, start);
          dct.entries := dct.entries[key := MaxOf(scores)];
        }
        r := dct.entries[key];
      }
    }

    /**
     * The generator inside `find_score`'s `max`: each child's score, negated,
     * in move order, every child scored with the table the previous one
     * left behind.
     */
    method ChildScores(outcome: OutcomeFn, s: State, moves: seq<Move>, dct: ScoreDict) returns (scores: seq<int>)
      requires WellFormed(s) && Full.AllLegal(s, moves)
      modifies dct
      ensures scores == MemoScan(outcome, s, moves, old(dct.entries)).0
      ensures dct.entries == MemoScan(outcome, s, moves, old(dct.entries)).1
      decreases EmptyCount(s.board), 0
    {
      ghost var start := dct.entries;
      scores := [];
      for i := 0 to |moves|
        invariant Full.AllLegal(s, moves[..i])
        invariant scores == MemoScan(outcome, s, moves[..i], start).0
        invariant dct.entries == MemoScan(outcome, s, moves[..i], start).1
      {
        MemoScanStep(outcome, s, moves, start, i);
        var child := ApplyMove(s, moves[i]);
        var v := FindScore(outcome, child, dct);
        scores := scores + [v * (-1)];
      }
      assert moves[..|moves|] == moves;
    }

    /**
     * `suggest_move`: the loop builds the first child and then calls
     * `find_score` without its dictionary argument, which raises before
     * `find_score` runs; with no legal move, `max` fails on the empty list.
     * It never returns a move.
     */
    method SuggestMove(s: State) returns (r: Result<Move, SuggestError>)
      requires WellFormed(s)
      ensures r.Failure?
      ensures r.error == MissingArgument <==> PossibleMoves(s) != []
      ensures r.error == EmptyMax <==> PossibleMoves(s) == []
    {
      var moves := PossibleNextMoves(s);
      for i := 0 to |moves|
        invariant i == 0
      {
        var child := ApplyMove(s, moves[i]);
        return Failure(MissingArgument);
      }
      return Failure(EmptyMax);
    }
  }
}
