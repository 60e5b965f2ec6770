/**
 * "Pruned" minimax (strategy_minimax_prune.py). `minimax` works with
 * absolute scores, higher being better for p1, and carries a window
 * (p1, p2): a maximising node starts from p1 and stops as soon as its best
 * reaches p2, a minimising node starts from p2 and stops as soon as its best
 * reaches p1. Every child is searched with the same, unchanged window.
 */
module StrategyMinimaxPrune {
  import opened Wrappers
  import opened TippyMove
  import opened TippyGameState
  import opened Best
  import Full = StrategyMinimax

  /** A score for player `p` turned into p1's point of view. */
  function Absolute(p: Player, v: int): int
  {
    if p == P1 then v else -v
  }

  /** The value `minimax(s, p1, p2)` returns. */
  function MinimaxValue(outcome: OutcomeFn, s: State, p1: int, p2: int): int
    requires WellFormed(s)
    decreases EmptyCount(s.board), 1
  {
    if Over(s) then Absolute(s.nextPlayer, outcome(s))
    else
      var vs := ChildValues(outcome, s, PossibleMoves(s), p1, p2);
      CutFold(s.nextPlayer, vs, p1, p2, if s.nextPlayer == P1 then p1 else p2)
  }

  /** The values `minimax` returns for the states the moves `ms` lead to. */
  function ChildValues(outcome: OutcomeFn, s: State, ms: seq<Move>, p1: int, p2: int): (vs: seq<int>)
    requires WellFormed(s) && Full.AllLegal(s, ms)
    ensures |vs| == |ms|
    ensures forall i :: 0 <= i < |ms| ==> vs[i] == MinimaxValue(outcome, Successor(s, ms[i]), p1, p2)
    decreases EmptyCount(s.board), 0
  {
    seq(|ms|, i requires 0 <= i < |ms| => MinimaxValue(outcome, Successor(s, ms[i]), p1, p2))
  }

  /**
   * The loop of `minimax` for mover `p` over the children's values `vs`
   * still to be examined, with `best` the value found so far: it returns
   * early once `best` reaches the edge of the window on the mover's side.
   */
  function CutFold(p: Player, vs: seq<int>, p1: int, p2: int, best: int): int
  {
    if vs == [] then best
    else
      var b := if p == P1 then Max(best, vs[0]) else Min(best, vs[0]);
      if (p == P1 && b >= p2) || (p == P2 && b <= p1) then b
      else CutFold(p, vs[1..], p1, p2, b)
  }

  /** One step of the loop: the value at `i` updates `best`, then the loop exits or goes on. */
  lemma CutFoldStep(p: Player, vs: seq<int>, i: int, p1: int, p2: int, best: int)
    requires 0 <= i < |vs|
    ensures var b := if p == P1 then Max(best, vs[i]) else Min(best, vs[i]);
      CutFold(p, vs[i..], p1, p2, best) ==
        if (p == P1 && b >= p2) || (p == P2 && b <= p1) then b else CutFold(p, vs[i + 1..], p1, p2, b)
  {
    assert vs[i..][0] == vs[i] && vs[i..][1..] == vs[i + 1..];
  }

  /**
   * With scores in [-1, 1] and a window at least that wide, an early exit
   * only happens once the best possible value is reached: the loop yields
   * the best of `best` and all the values, their maximum for p1 and their
   * minimum for p2.
   */
  lemma {:induction false} CutFoldIsBest(p: Player, vs: seq<int>, p1: int, p2: int, best: int)
    requires |vs| > 0 && p1 <= -1 && 1 <= p2
    requires forall i :: 0 <= i < |vs| ==> -1 <= vs[i] <= 1
    requires p == P1 ==> best <= 1
    requires p == P2 ==> -1 <= best
    ensures p == P1 ==> CutFold(p, vs, p1, p2, best) == Max(best, MaxOf(vs))
    ensures p == P2 ==> CutFold(p, vs, p1, p2, best) == Min(best, MinOf(vs))
  {
    var b := if p == P1 then Max(best, vs[0]) else Min(best, vs[0]);
    if |vs| == 1 {
      assert vs[1..] == [];
    } else {
      if !((p == P1 && b >= p2) || (p == P2 && b <= p1)) {
        assert forall i :: 0 <= i < |vs[1..]| ==> vs[1..][i] == vs[i + 1];
        CutFoldIsBest(p, vs[1..], p1, p2, b);
      }
    }
  }

  /**
   * With a window at least as wide as (-1, 1), `minimax` returns the full
   * minimax score in p1's terms: the early exits never change the value.
   */
  lemma {:induction false} MinimaxIsAbsoluteFull(outcome: OutcomeFn, s: State, p1: int, p2: int)
    requires WellFormed(s) && p1 <= -1 && 1 <= p2
    ensures MinimaxValue(outcome, s, p1, p2) == Absolute(s.nextPlayer, Full.FindScore(outcome, s))
    decreases EmptyCount(s.board), 2
  {
    if Over(s) {
      assert MinimaxValue(outcome, s, p1, p2) == Absolute(s.nextPlayer, outcome(s));
    } else {
      NotOverHasMove(s);
      var ms := PossibleMoves(s);
      var start := if s.nextPlayer == P1 then p1 else p2;
      assert MinimaxValue(outcome, s, p1, p2) == CutFold(s.nextPlayer, ChildValues(outcome, s, ms, p1, p2), p1, p2, start);
      assert Full.FindScore(outcome, s) == MaxOf(Full.Scores(outcome, s, ms));
      WideFoldIsMax(outcome, s, ms, p1, p2);
    }
  }

  /** Over the moves `ms`, the loop with a wide window yields the best child score, in p1's terms. */
  lemma {:induction false} WideFoldIsMax(outcome: OutcomeFn, s: State, ms: seq<Move>, p1: int, p2: int)
    requires WellFormed(s) && Full.AllLegal(s, ms) && |ms| > 0 && p1 <= -1 && 1 <= p2
    ensures CutFold(s.nextPlayer, ChildValues(outcome, s, ms, p1, p2), p1, p2, if s.nextPlayer == P1 then p1 else p2)
      == Absolute(s.nextPlayer, MaxOf(Full.Scores(outcome, s, ms)))
    decreases EmptyCount(s.board), 1
  {
    ChildValuesAreAbsolute(outcome, s, ms, p1, p2);
    AbsoluteFoldIsMax(s.nextPlayer, ChildValues(outcome, s, ms, p1, p2), Full.Scores(outcome, s, ms), p1, p2);
  }

  /** The loop over the absolute values `vs` of the mover's scores `xs` yields their best, in p1's terms. */
  lemma AbsoluteFoldIsMax(p: Player, vs: seq<int>, xs: seq<int>, p1: int, p2: int)
    requires |xs| > 0 && |vs| == |xs| && p1 <= -1 && 1 <= p2
    requires forall i :: 0 <= i < |xs| ==> -1 <= xs[i] <= 1 && vs[i] == Absolute(p, xs[i])
    ensures CutFold(p, vs, p1, p2, if p == P1 then p1 else p2) == Absolute(p, MaxOf(xs))
  {
    CutFoldIsBest(p, vs, p1, p2, if p == P1 then p1 else p2);
    if p == P1 {
      assert vs == xs;
    } else {
      MinOfNegated(xs, vs);
    }
  }

  /** Each child's `minimax` value is the mover's score for that move, in p1's terms. */
  lemma {:induction false} ChildValuesAreAbsolute(outcome: OutcomeFn, s: State, ms: seq<Move>, p1: int, p2: int)
    requires WellFormed(s) && Full.AllLegal(s, ms) && p1 <= -1 && 1 <= p2
    ensures forall i :: 0 <= i < |ms| ==>
      ChildValues(outcome, s, ms, p1, p2)[i] == Absolute(s.nextPlayer, Full.Scores(outcome, s, ms)[i])
    decreases EmptyCount(s.board), 0
  {
    forall i | 0 <= i < |ms|
      ensures ChildValues(outcome, s, ms, p1, p2)[i] == Absolute(s.nextPlayer, Full.Scores(outcome, s, ms)[i])
    {
      MinimaxIsAbsoluteFull(outcome, Successor(s, ms[i]), p1, p2);
    }
  }

  /** `minimax`: the loop over the moves, with its two early returns. */
  method Minimax(outcome: OutcomeFn, s: State, p1: int, p2: int) returns (v: int)
    requires WellFormed(s)
    ensures v == MinimaxValue(outcome, s, p1, p2)
    ensures p1 <= -1 && 1 <= p2 ==> v == Absolute(s.nextPlayer, Full.FindScore(outcome, s))
    decreases EmptyCount(s.board)
  {
    if p1 <= -1 && 1 <= p2 {
      MinimaxIsAbsoluteFull(outcome, s, p1, p2);
    }
    var bestScore := if s.nextPlayer == P1 then p1 else p2;
    if Over(s) {
      return if s.nextPlayer == P1 then outcome(s) else -outcome(s);
    }
    var moves := PossibleNextMoves(s);
    ghost var vs := ChildValues(outcome, s, moves, p1, p2);
    assert vs[0..] == vs;
    assert CutFold(s.nextPlayer, vs, p1, p2, bestScore) == MinimaxValue(outcome, s, p1, p2);
    var i := 0;
    while i < |moves|
      invariant 0 <= i <= |moves|
      invariant CutFold(s.nextPlayer, vs[i..], p1, p2, bestScore) == MinimaxValue(outcome, s, p1, p2)
    {
      var child := ApplyMove(s, moves[i]);
      var x := Minimax(outcome, child, p1, p2);
      assert x == vs[i];
      CutFoldStep(s.nextPlayer, vs, i, p1, p2, bestScore);
      bestScore := if s.nextPlayer == P1 then Max(bestScore, x) else Min(bestScore, x);
      if s.nextPlayer == P1 && bestScore >= p2 {
        return bestScore;
      } else if s.nextPlayer == P2 && bestScore <= p1 {
        return bestScore;
      }
      i := i + 1;
    }
    assert vs[i..] == [];
    return bestScore;
  }

  /**
   * `find_score`: `minimax` with the window (-1, 1), turned back to the
   * mover's point of view; it agrees with full minimax on every state.
   */
  method FindScore(outcome: OutcomeFn, s: State) returns (r: int)
    requires WellFormed(s)
    ensures r == Full.FindScore(outcome, s)
  {
    var v := Minimax(outcome, s, -1, 1);
    if s.nextPlayer == P1 {
      r := v;
    } else {
      r := -v;
    }
  }

  /**
   * `suggest_move`: the same tie-break as full minimax over the same
   * scores, so it picks exactly the move full minimax picks.
   */
  method SuggestMove(outcome: OutcomeFn, s: State) returns (r: Result<Move, SuggestError>)
    requires WellFormed(s)
    ensures r.Failure? <==> PossibleMoves(s) == []
    ensures r.Failure? ==> r.error == EmptyMax
    ensures r.Success? ==>
      exists k :: IsFirstMax(Full.Scores(outcome, s, PossibleMoves(s)), k) && r.value == PossibleMoves(s)[k]
  {
    var moves := PossibleNextMoves(s);
    var scoreMoves: seq<(int, Move)> := [];
    ghost var xs := Full.Scores(outcome, s, moves);
    for i := 0 to |moves|
      invariant |scoreMoves| == i
      invariant forall j :: 0 <= j < i ==> scoreMoves[j].0 == xs[j] && scoreMoves[j].1 == moves[j]
    {
      var child := ApplyMove(s, moves[i]);
      var childScore := FindScore(outcome, child);
      var score := (-1) * childScore;
      PairsSnoc(scoreMoves, xs, moves, i, (score, moves[i]));
      scoreMoves := scoreMoves + [(score, moves[i])];
    }
    KeysOfPairs(scoreMoves, xs, moves);
    var best := MaxByKey(scoreMoves);
    match best
    case Failure(e) => r := Failure(e);
    case Success(pair) => r := Success(pair.1);
  }
}
