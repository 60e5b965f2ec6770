/**
 * The score table the memoising strategies keep: a dictionary from a
 * state's text (`str(state)`) to the score `find_score` computed for it.
 * `MemoScore` and `MemoScan` are the specification of `find_score` with
 * the table threaded through: the table a call starts from goes in, the
 * score and the table it leaves behind come out.
 */
module MemoTable {
  import opened TippyMove
  import opened TippyGameState
  import opened Best
  import Full = StrategyMinimax

  type Cache = map<string, int>

  /** Every score stored under a state's text is that state's full minimax score. */
  ghost predicate Sound(outcome: OutcomeFn, cache: Cache)
  {
    forall t :: WellFormed(t) && Render(t) in cache ==> cache[Render(t)] == Full.FindScore(outcome, t)
  }

  /** `later` keeps every entry of `earlier` unchanged. */
  ghost predicate Extends(earlier: Cache, later: Cache)
  {
    forall k :: k in earlier ==> k in later && later[k] == earlier[k]
  }

  /**
   * `find_score(state)` with the table `cache`: a finished game scores its
   * outcome and is never stored; a stored state scores its entry; any
   * other state scores the best negated score of its children, computed
   * in move order with the table passed from one child to the next, and
   * that score is then stored under the state's text.
   */
  function MemoScore(outcome: OutcomeFn, s: State, cache: Cache): (res: (int, Cache))
    requires WellFormed(s)
    decreases EmptyCount(s.board), 1, 0
  {
    if Over(s) then (outcome(s), cache)
    else if Render(s) in cache then (cache[Render(s)], cache)
    else
      NotOverHasMove(s);
      var scan := MemoScan(outcome, s, PossibleMoves(s), cache);
      var best := MaxOf(scan.0);
      (best, scan.1[Render(s) := best])
  }

  /**
   * The negated scores of the children the moves `ms` lead to, each child
   * scored with the table the previous one left behind.
   */
  function MemoScan(outcome: OutcomeFn, s: State, ms: seq<Move>, cache: Cache): (scan: (seq<int>, Cache))
    requires WellFormed(s) && Full.AllLegal(s, ms)
    ensures |scan.0| == |ms|
    decreases EmptyCount(s.board), 0, |ms|
  {
    if ms == [] then ([], cache)
    else
      var front := ms[..|ms| - 1];
      assert Full.AllLegal(s, front) by {
        forall i | 0 <= i < |front| ensures Legal(s, front[i]) { assert front[i] == ms[i]; }
      }
      var prefix := MemoScan(outcome, s, front, cache);
      var last := MemoScore(outcome, Successor(s, ms[|ms| - 1]), prefix.1);
      (prefix.0 + [last.0 * (-1)], last.1)
  }

  /** On a table miss, a state that is not over scores the best of its scan, stored under its text. */
  lemma MemoScoreMiss(outcome: OutcomeFn, s: State, cache: Cache)
    requires WellFormed(s) && !Over(s) && Render(s) !in cache
    ensures |PossibleMoves(s)| > 0 && |MemoScan(outcome, s, PossibleMoves(s), cache).0| > 0
    ensures MemoScore(outcome, s, cache).0 == MaxOf(MemoScan(outcome, s, PossibleMoves(s), cache).0)
    ensures MemoScore(outcome, s, cache).1 ==
      MemoScan(outcome, s, PossibleMoves(s), cache).1[Render(s) := MaxOf(MemoScan(outcome, s, PossibleMoves(s), cache).0)]
  {
    NotOverHasMove(s);
  }

  /** Scanning one more move scores that child with the table the shorter scan left behind. */
  lemma MemoScanStep(outcome: OutcomeFn, s: State, ms: seq<Move>, cache: Cache, i: int)
    requires WellFormed(s) && Full.AllLegal(s, ms) && 0 <= i < |ms|
    ensures Full.AllLegal(s, ms[..i]) && Full.AllLegal(s, ms[..i + 1])
    ensures MemoScan(outcome, s, ms[..i + 1], cache).0 ==
      MemoScan(outcome, s, ms[..i], cache).0 + [MemoScore(outcome, Successor(s, ms[i]), MemoScan(outcome, s, ms[..i], cache).1).0 * (-1)]
    ensures MemoScan(outcome, s, ms[..i + 1], cache).1 ==
      MemoScore(outcome, Successor(s, ms[i]), MemoScan(outcome, s, ms[..i], cache).1).1
  {
    Full.AllLegalSlice(s, ms, 0, i);
    Full.AllLegalSlice(s, ms, 0, i + 1);
    assert ms[..i] == ms[0..i] && ms[..i + 1] == ms[0..i + 1];
    assert ms[..i + 1][..i] == ms[..i];
  }

  /** The empty table every strategy starts from is sound. */
  lemma EmptySound(outcome: OutcomeFn)
    ensures Sound(outcome, map[])
  {
  }

  /**
   * From a sound table, the memoised score is the full minimax score, and
   * the table left behind is sound.
   */
  lemma {:induction false} MemoScoreCorrect(outcome: OutcomeFn, s: State, cache: Cache)
    requires WellFormed(s) && Sound(outcome, cache)
    ensures MemoScore(outcome, s, cache).0 == Full.FindScore(outcome, s)
    ensures Sound(outcome, MemoScore(outcome, s, cache).1)
    decreases EmptyCount(s.board), 2, 0, 0
  {
    if Over(s) {
      assert MemoScore(outcome, s, cache) == (outcome(s), cache);
    } else if Render(s) in cache {
      assert MemoScore(outcome, s, cache) == (cache[Render(s)], cache);
    } else {
      MemoMissCorrect(outcome, s, cache);
    }
  }

  /** A table miss on a state that is not over: the scan's best is the full score and is stored. */
  lemma {:induction false} MemoMissCorrect(outcome: OutcomeFn, s: State, cache: Cache)
    requires WellFormed(s) && Sound(outcome, cache) && !Over(s) && Render(s) !in cache
    ensures MemoScore(outcome, s, cache).0 == Full.FindScore(outcome, s)
    ensures Sound(outcome, MemoScore(outcome, s, cache).1)
    decreases EmptyCount(s.board), 1, 0, 0
  {
    NotOverHasMove(s);
    var ms := PossibleMoves(s);
    var scan := MemoScan(outcome, s, ms, cache);
    MemoScanCorrect(outcome, s, ms, cache);
    var best := MaxOf(scan.0);
    assert MemoScore(outcome, s, cache) == (best, scan.1[Render(s) := best]);
    assert best == Full.FindScore(outcome, s);
    StoreSound(outcome, scan.1, s, best);
  }

  /** Storing the full score of `s` under its text keeps a sound table sound. */
  lemma StoreSound(outcome: OutcomeFn, cache: Cache, s: State, v: int)
    requires WellFormed(s) && Sound(outcome, cache) && v == Full.FindScore(outcome, s)
    ensures Sound(outcome, cache[Render(s) := v])
  {
    forall t | WellFormed(t) && Render(t) in cache[Render(s) := v]
      ensures cache[Render(s) := v][Render(t)] == Full.FindScore(outcome, t)
    {
      RenderInjective(s, t);
    }
  }

  /**
   * From a sound table, the scan yields exactly the full scores of the
   * moves, and leaves a sound table.
   */
  lemma {:induction false} MemoScanCorrect(outcome: OutcomeFn, s: State, ms: seq<Move>, cache: Cache)
    requires WellFormed(s) && Full.AllLegal(s, ms) && Sound(outcome, cache)
    ensures MemoScan(outcome, s, ms, cache).0 == Full.Scores(outcome, s, ms)
    ensures Sound(outcome, MemoScan(outcome, s, ms, cache).1)
    decreases EmptyCount(s.board), 0, |ms|, 1
  {
    if ms != [] {
      MemoScanLastCorrect(outcome, s, ms, cache);
    } else {
      assert |Full.Scores(outcome, s, ms)| == 0;
      assert MemoScan(outcome, s, ms, cache).0 == Full.Scores(outcome, s, ms);
    }
  }

  /** The step of `MemoScanCorrect` for a non-empty list: the front, then the last move's child. */
  lemma {:induction false} MemoScanLastCorrect(outcome: OutcomeFn, s: State, ms: seq<Move>, cache: Cache)
    requires WellFormed(s) && Full.AllLegal(s, ms) && Sound(outcome, cache) && ms != []
    ensures MemoScan(outcome, s, ms, cache).0 == Full.Scores(outcome, s, ms)
    ensures Sound(outcome, MemoScan(outcome, s, ms, cache).1)
    decreases EmptyCount(s.board), 0, |ms|, 0
  {
    var front := ms[..|ms| - 1];
    Full.AllLegalSlice(s, ms, 0, |ms| - 1);
    assert front == ms[0..|ms| - 1];
    var prefix := MemoScan(outcome, s, front, cache);
    MemoScanCorrect(outcome, s, front, cache);
    var child := Successor(s, ms[|ms| - 1]);
    MemoScoreCorrect(outcome, child, prefix.1);
    var last := MemoScore(outcome, child, prefix.1);
    assert MemoScan(outcome, s, ms, cache) == (prefix.0 + [last.0 * (-1)], last.1);
    assert last.0 * (-1) == Full.ChildScore(outcome, s, ms[|ms| - 1]);
    ScoresSnoc(outcome, s, ms);
    SnocCongruence(MemoScan(outcome, s, ms, cache).0, Full.Scores(outcome, s, ms),
      prefix.0, Full.Scores(outcome, s, front), last.0 * (-1), Full.ChildScore(outcome, s, ms[|ms| - 1]));
  }

  /** The scores of a non-empty list are the scores of its front followed by the last one's. */
  lemma ScoresSnoc(outcome: OutcomeFn, s: State, ms: seq<Move>)
    requires WellFormed(s) && Full.AllLegal(s, ms) && |ms| > 0
    ensures Full.AllLegal(s, ms[..|ms| - 1])
    ensures Full.Scores(outcome, s, ms) ==
      Full.Scores(outcome, s, ms[..|ms| - 1]) + [Full.ChildScore(outcome, s, ms[|ms| - 1])]
  {
    var front := ms[..|ms| - 1];
    Full.AllLegalSlice(s, ms, 0, |ms| - 1);
    assert front == ms[0..|ms| - 1];
    var xs, ys := Full.Scores(outcome, s, ms), Full.Scores(outcome, s, front);
    forall i | 0 <= i < |ys| ensures xs[i] == ys[i] {
      assert front[i] == ms[i];
    }
    Snoc(xs, ys, Full.ChildScore(outcome, s, ms[|ms| - 1]));
  }

  /** Equal lists extended by equal elements are equal. */
  lemma SnocCongruence(a: seq<int>, b: seq<int>, ys: seq<int>, zs: seq<int>, x: int, y: int)
    requires a == ys + [x] && b == zs + [y] && ys == zs && x == y
    ensures a == b
  {
  }

  /** A list that agrees with `ys` and then ends in `z` is `ys + [z]`. */
  lemma Snoc(xs: seq<int>, ys: seq<int>, z: int)
    requires |xs| == |ys| + 1 && xs[|ys|] == z
    requires forall i :: 0 <= i < |ys| ==> xs[i] == ys[i]
    ensures xs == ys + [z]
  {
  }

  // ---------------------------------------------------------------------
  // How the table grows.

  /**
   * No state that is over, or that has more than `n` empty tiles, gets a
   * key in `later` that `earlier` did not have.
   */
  ghost predicate KeepsOut(earlier: Cache, later: Cache, n: int)
  {
    forall t :: WellFormed(t) && (Over(t) || n < EmptyCount(t.board)) && Render(t) !in earlier ==> Render(t) !in later
  }

  /**
   * `find_score` never overwrites an entry, never stores a finished game,
   * and stores only the state itself and states below it.
   */
  lemma {:induction false} MemoScoreGrows(outcome: OutcomeFn, s: State, cache: Cache)
    requires WellFormed(s)
    ensures Extends(cache, MemoScore(outcome, s, cache).1)
    ensures KeepsOut(cache, MemoScore(outcome, s, cache).1, EmptyCount(s.board))
    decreases EmptyCount(s.board), 2, 0
  {
    if Over(s) {
      assert MemoScore(outcome, s, cache) == (outcome(s), cache);
    } else if Render(s) in cache {
      assert MemoScore(outcome, s, cache) == (cache[Render(s)], cache);
    } else {
      MemoMissGrows(outcome, s, cache);
    }
  }

  /** A table miss on a state that is not over adds the state's own key to what the scan added. */
  lemma {:induction false} MemoMissGrows(outcome: OutcomeFn, s: State, cache: Cache)
    requires WellFormed(s) && !Over(s) && Render(s) !in cache
    ensures Extends(cache, MemoScore(outcome, s, cache).1)
    ensures KeepsOut(cache, MemoScore(outcome, s, cache).1, EmptyCount(s.board))
    decreases EmptyCount(s.board), 1, 0
  {
    NotOverHasMove(s);
    var ms := PossibleMoves(s);
    var scan := MemoScan(outcome, s, ms, cache);
    MemoScanGrows(outcome, s, ms, cache);
    var best := MaxOf(scan.0);
    assert MemoScore(outcome, s, cache) == (best, scan.1[Render(s) := best]);
    StoreExtends(cache, scan.1, Render(s), best);
    StoreKeepsOut(s, cache, scan.1, best);
  }

  /** The scan over the moves keeps every entry and adds keys only for states below `s`. */
  lemma {:induction false} MemoScanGrows(outcome: OutcomeFn, s: State, ms: seq<Move>, cache: Cache)
    requires WellFormed(s) && Full.AllLegal(s, ms)
    ensures Extends(cache, MemoScan(outcome, s, ms, cache).1)
    ensures KeepsOut(cache, MemoScan(outcome, s, ms, cache).1, EmptyCount(s.board) - 1)
    decreases EmptyCount(s.board), 0, |ms|
  {
    if ms != [] {
      var front := ms[..|ms| - 1];
      Full.AllLegalSlice(s, ms, 0, |ms| - 1);
      assert front == ms[0..|ms| - 1];
      var prefix := MemoScan(outcome, s, front, cache);
      MemoScanGrows(outcome, s, front, cache);
      var child := Successor(s, ms[|ms| - 1]);
      MemoScoreGrows(outcome, child, prefix.1);
      var last := MemoScore(outcome, child, prefix.1);
      assert MemoScan(outcome, s, ms, cache).1 == last.1;
      ExtendsTrans(cache, prefix.1, last.1);
      KeepsOutTrans(cache, prefix.1, last.1, EmptyCount(s.board) - 1);
    }
  }

  /** Storing under a key the earlier table lacks keeps every earlier entry. */
  lemma StoreExtends(earlier: Cache, later: Cache, key: string, v: int)
    requires Extends(earlier, later) && key !in earlier
    ensures Extends(earlier, later[key := v])
  {
  }

  /** Storing the key of a live state `s` adds nothing finished and nothing above `s`. */
  lemma StoreKeepsOut(s: State, earlier: Cache, later: Cache, v: int)
    requires WellFormed(s) && !Over(s) && KeepsOut(earlier, later, EmptyCount(s.board) - 1)
    ensures KeepsOut(earlier, later[Render(s) := v], EmptyCount(s.board))
  {
    forall t | WellFormed(t) && (Over(t) || EmptyCount(s.board) < EmptyCount(t.board)) && Render(t) !in earlier
      ensures Render(t) !in later[Render(s) := v]
    {
      RenderInjective(s, t);
    }
  }

  lemma ExtendsTrans(a: Cache, b: Cache, c: Cache)
    requires Extends(a, b) && Extends(b, c)
    ensures Extends(a, c)
  {
  }

  lemma KeepsOutTrans(a: Cache, b: Cache, c: Cache, n: int)
    requires KeepsOut(a, b, n) && KeepsOut(b, c, n)
    ensures KeepsOut(a, c, n)
  {
  }

  /**
   * `find_score` on a live state leaves its key in the table and returns
   * the value stored there; on a hit it returns the stored value and leaves
   * the table as it was.
   */
  lemma MemoScoreStores(outcome: OutcomeFn, s: State, cache: Cache)
    requires WellFormed(s) && !Over(s)
    ensures Render(s) in MemoScore(outcome, s, cache).1
    ensures MemoScore(outcome, s, cache).0 == MemoScore(outcome, s, cache).1[Render(s)]
    ensures Render(s) in cache ==> MemoScore(outcome, s, cache) == (cache[Render(s)], cache)
  {
    if Render(s) !in cache {
      MemoScoreMiss(outcome, s, cache);
    }
  }

  /** The scan `suggest_move` runs stores states below the root, but never the root itself. */
  lemma SuggestLeavesRootOut(outcome: OutcomeFn, s: State, cache: Cache)
    requires WellFormed(s) && Render(s) !in cache
    ensures Full.AllLegal(s, PossibleMoves(s))
    ensures Render(s) !in MemoScan(outcome, s, PossibleMoves(s), cache).1
  {
    MemoScanGrows(outcome, s, PossibleMoves(s), cache);
  }

  /**
   * From a sound table the move `suggest_move` picks is the one full
   * minimax picks, so a second call, which starts from the (still sound)
   * table the first left behind, picks the same move.
   */
  lemma MemoSuggestIsFull(outcome: OutcomeFn, s: State, cache: Cache, k: int)
    requires WellFormed(s) && Sound(outcome, cache)
    requires Full.AllLegal(s, PossibleMoves(s))
    requires IsFirstMax(MemoScan(outcome, s, PossibleMoves(s), cache).0, k)
    ensures IsFirstMax(Full.Scores(outcome, s, PossibleMoves(s)), k)
    ensures Sound(outcome, MemoScan(outcome, s, PossibleMoves(s), cache).1)
  {
    MemoScanCorrect(outcome, s, PossibleMoves(s), cache);
  }

  /** Two calls of `suggest_move` from sound tables pick the same move. */
  lemma SuggestRepeatable(outcome: OutcomeFn, s: State, c1: Cache, c2: Cache, k1: int, k2: int)
    requires WellFormed(s) && Sound(outcome, c1) && Sound(outcome, c2)
    requires Full.AllLegal(s, PossibleMoves(s))
    requires IsFirstMax(MemoScan(outcome, s, PossibleMoves(s), c1).0, k1)
    requires IsFirstMax(MemoScan(outcome, s, PossibleMoves(s), c2).0, k2)
    ensures k1 == k2
  {
    MemoSuggestIsFull(outcome, s, c1, k1);
    MemoSuggestIsFull(outcome, s, c2, k2);
    FirstMaxUnique(Full.Scores(outcome, s, PossibleMoves(s)), k1, k2);
  }
}
