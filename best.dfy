/**
 * Python's `max` as the strategies use it: the largest of a non-empty list
 * of scores, and `max(score_moves, key=produce_max)`, which returns the
 * FIRST pair whose score is largest and raises on an empty list.
 */
module Best {
  import opened Wrappers
  import opened TippyMove

  /** Why a `suggest_move` call cannot return a move. */
  datatype SuggestError =
    | EmptyMax          // `max` applied to an empty list (no legal move)
    | MissingArgument   // `find_score` called without its dictionary argument

  function Max(a: int, b: int): int { if a < b then b else a }

  function Min(a: int, b: int): int { if a < b then a else b }

  /** The largest element of a non-empty list, scanned from the left. */
  function MaxOf(xs: seq<int>): (r: int)
    requires |xs| > 0
    ensures r in xs
    ensures forall i :: 0 <= i < |xs| ==> xs[i] <= r
  {
    if |xs| == 1 then xs[0] else Max(xs[0], MaxOf(xs[1..]))
  }

  /** The smallest element of a non-empty list, scanned from the left. */
  function MinOf(xs: seq<int>): (r: int)
    requires |xs| > 0
    ensures r in xs
    ensures forall i :: 0 <= i < |xs| ==> r <= xs[i]
  {
    if |xs| == 1 then xs[0] else Min(xs[0], MinOf(xs[1..]))
  }

  /** Negating every element turns the maximum into the negated minimum. */
  lemma MinOfNegated(xs: seq<int>, ys: seq<int>)
    requires |xs| > 0 && |ys| == |xs|
    requires forall i :: 0 <= i < |xs| ==> ys[i] == -xs[i]
    ensures MinOf(ys) == -MaxOf(xs)
  {
    var m := MaxOf(xs);
    var k :| 0 <= k < |xs| && xs[k] == m;
    assert ys[k] == -m;
    var n := MinOf(ys);
    var j :| 0 <= j < |ys| && ys[j] == n;
    assert xs[j] <= m;
  }

  /** Index `k` holds the largest value and no earlier index holds it. */
  predicate IsFirstMax(xs: seq<int>, k: int)
  {
    0 <= k < |xs| &&
    (forall j :: 0 <= j < |xs| ==> xs[j] <= xs[k]) &&
    (forall j :: 0 <= j < k ==> xs[j] < xs[k])
  }

  /** The first maximal index is unique and holds `MaxOf(xs)`. */
  lemma FirstMaxUnique(xs: seq<int>, k: int, k': int)
    requires IsFirstMax(xs, k) && IsFirstMax(xs, k')
    ensures k == k' && xs[k] == MaxOf(xs)
  {
  }

  /** `produce_max`: the key of a `(score, move)` pair is its first component. */
  function ProduceMax(pair: (int, Move)): int
  {
    pair.0
  }

  function KeysOf(pairs: seq<(int, Move)>): (ks: seq<int>)
    ensures |ks| == |pairs|
    ensures forall i :: 0 <= i < |pairs| ==> ks[i] == ProduceMax(pairs[i])
  {
    seq(|pairs|, i requires 0 <= i < |pairs| => ProduceMax(pairs[i]))
  }

  /** Appending a pair appends its key. */
  lemma KeysOfSnoc(pairs: seq<(int, Move)>, pair: (int, Move))
    ensures KeysOf(pairs + [pair]) == KeysOf(pairs) + [pair.0]
  {
  }

  /** Appending the pair for `ms[i]` to the pairs for `ms[..i]` gives the pairs for `ms[..i + 1]`. */
  lemma MovesSnoc(pairs: seq<(int, Move)>, ms: seq<Move>, i: int, pair: (int, Move))
    requires 0 <= i < |ms| && |pairs| == i && pair.1 == ms[i]
    requires forall j :: 0 <= j < i ==> pairs[j].1 == ms[j]
    ensures forall j :: 0 <= j < i + 1 ==> (pairs + [pair])[j].1 == ms[j]
  {
  }

  /** Appending `(ks[i], ms[i])` to the pairs of `ks[..i]` and `ms[..i]` gives the pairs up to `i + 1`. */
  lemma PairsSnoc(pairs: seq<(int, Move)>, ks: seq<int>, ms: seq<Move>, i: int, pair: (int, Move))
    requires 0 <= i < |ms| && |ks| == |ms| && |pairs| == i && pair.0 == ks[i] && pair.1 == ms[i]
    requires forall j :: 0 <= j < i ==> pairs[j].0 == ks[j] && pairs[j].1 == ms[j]
    ensures forall j :: 0 <= j < i + 1 ==> (pairs + [pair])[j].0 == ks[j] && (pairs + [pair])[j].1 == ms[j]
  {
  }

  /** Pairing each key of `ks` with a move gives a list whose keys are `ks`. */
  lemma KeysOfPairs(pairs: seq<(int, Move)>, ks: seq<int>, ms: seq<Move>)
    requires |pairs| == |ks| == |ms|
    requires forall j :: 0 <= j < |ms| ==> pairs[j].0 == ks[j] && pairs[j].1 == ms[j]
    ensures KeysOf(pairs) == ks
  {
  }

  /**
   * `max(pairs, key=produce_max)`: a left-to-right scan that replaces the
   * candidate only on a strictly larger key, so the first maximal pair wins;
   * an empty list is an error.
   */
  method MaxByKey(pairs: seq<(int, Move)>) returns (r: Result<(int, Move), SuggestError>)
    ensures r.Failure? <==> pairs == []
    ensures r.Failure? ==> r.error == EmptyMax
    ensures r.Success? ==> exists k :: IsFirstMax(KeysOf(pairs), k) && r.value == pairs[k]
  {
    if pairs == [] {
      return Failure(EmptyMax);
    }
    var k := 0;
    for i := 1 to |pairs|
      invariant 0 <= k < i
      invariant forall j :: 0 <= j < i ==> ProduceMax(pairs[j]) <= ProduceMax(pairs[k])
      invariant forall j :: 0 <= j < k ==> ProduceMax(pairs[j]) < ProduceMax(pairs[k])
    {
      if ProduceMax(pairs[i]) > ProduceMax(pairs[k]) {
        k := i;
      }
    }
    assert IsFirstMax(KeysOf(pairs), k);
    return Success(pairs[k]);
  }
}
