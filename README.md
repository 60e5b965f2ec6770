# Tippy and its minimax strategies, in Dafny

This project models the game of Tippy and the minimax strategies that choose
moves for it, and proves properties of the model.

In Tippy, two players take turns placing tiles on a square board of side
`dimension` (at least 3). Player `p1` places `o` and player `p2` places `x`.
A player wins by forming a *tippy*: one of four S/Z-shaped patterns of four
tiles. The game ends when someone has won or the board is full.

The model covers the following:

- `TippyMove` (`tippy_move.dfy`): a move, which is the coordinate of the tile
  to occupy. Also its `__repr__`, `__str__` and `__eq__`.
- `TippyGameState` (`tippy_game_state.dfy`): the game state's rules, scans and
  renderings.
  - construction, including the `over` flag;
  - `apply_move` and `possible_next_moves`;
  - the four tippy scans and `is_tippy`;
  - `winner` and `rough_outcome`;
  - `__eq__`, `__repr__`, and `__str__`, whose text is the key under which
    the memoising strategies cache a state.
- `TippyDoctests` (`tippy_doctests.dfy`): the doctests of the game state,
  each proved about the model with the answer the source documents. They
  cover `__str__`, `apply_move`, `possible_next_moves`, `is_tippy` and the
  single-pattern scans, `winner`, and the three `rough_outcome` examples.
- `Best` (`best.dfy`): the meaning of Python's `max` as the strategies use
  it.
  - `max` of a generator of scores;
  - `max(score_moves, key=produce_max)`, which returns the FIRST pair with
    the largest score, and raises on an empty list (`Failure(EmptyMax)` here).
- `StrategyMinimax` (`strategy_minimax.dfy`): full minimax. Scores are seen
  from the player to move: `find_score` of a child is negated. Its
  `FindScore` is the reference semantics for every other strategy.
- `StrategyMinimaxPrune` (`strategy_minimax_prune.dfy`): `minimax`.
  - It works on absolute scores, higher being better for `p1`.
  - It searches every child with the same window `(p1, p2)` and has two
    early returns.
  - It is proved to return the full minimax score whenever the window is at
    least `(-1, 1)`, which is the window `find_score` uses. So `find_score`
    and `suggest_move` agree with full minimax.
- `MemoTable` (`memo_table.dfy`): the table-threading semantics shared by the
  two memoising strategies.
  - `MemoScore` and `MemoScan` give the score and the resulting table.
  - A table is *sound* when every stored score is the stored state's full
    minimax score. Soundness is preserved, the scores equal full minimax,
    and the table only grows.
  - Memo keys are faithful: `__str__` is proved injective on well-formed
    states (`RenderInjective`).
- `StrategyMinimaxMemoize` (`strategy_minimax_memoize.dfy`): a class whose
  field `msDict` is the strategy's own dictionary, updated in place by
  `find_score`.
- `Memoization` (`memoization.dfy`): the variant that receives its
  dictionary.
  - `find_score` fills a dictionary object passed as an argument.
  - The dictionary is a class `ScoreDict`, so sharing one dictionary between
    strategies is aliasing of one object.
  - Its `suggest_move` calls `find_score` without the dictionary argument. It
    therefore never returns a move (`Failure(MissingArgument)`), except that
    it fails with `EmptyMax` when there is no legal move.
- `StrategyMinimaxMyopic` (`strategy_minimax_myopic.dfy`): minimax cut off at
  depth 0.
  - A state that has no depth left and is not over is scored by
    `rough_outcome`.
  - Depth is counted down from 3.
  - It is proved equal to full minimax whenever the depth covers the empty
    tiles, or is negative: only `depth == 0` stops the search.

`outcome()` comes from the game-state base class, which is not part of this
model. Every strategy therefore takes it as a parameter
`outcome: State -> Score`, where `Score` is the integers -1, 0 and 1. The
strategies rely only on that range, and consult `outcome` only on states that
are over. `over` is recomputed from the state (`Over`) instead of being
stored. The source computes it once at construction and never changes a
state afterwards. `Init` shows that the flag it computes equals `Over`.

Three behaviours of the code are worth stating plainly:

- **`rough_outcome` (`tippy_game_state.py:131-148`).** It looks only at the
  first legal move. That move gives WIN if it forms a tippy for the mover.
  Otherwise `rough_outcome` gives LOSE whenever the opponent has any reply at
  all, because the code checks only whether its list comprehension is empty.
  Otherwise it gives DRAW. `Rough` and `RoughCharacterized` state exactly
  this.
- **The myopic `suggest_move`.** It scores each child with `find_score` at
  the default depth 3.
- **`memoization.py`'s constructor (`memoization.py:7-9`).** Its default
  dictionary is one object, shared by every instance built without one. The
  model's constructor stores the very object it is given, so strategies
  given one `ScoreDict` share it.

## Model

| member | source | states |
|---|---|---|
| TippyMove.Equals | tippy_move.py:44-58 | defines `__eq__`: two moves are equal when their coordinates are |
| TippyMove.Repr | tippy_move.py:21-29 | defines `__repr__`, the text `TippyMove((a, b))` |
| TippyMove.Str | tippy_move.py:31-42 | defines `__str__`, the text `Occupy tile (a, b)` |
| TippyMove.EqualsIsIdentity | tippy_move.py:44-58 | two moves are equal under `__eq__` exactly when they are the same move (same coordinates) |
| TippyMove.ReprInjective | tippy_move.py:21-29 | `repr` of two moves is the same text exactly when the moves are equal under `__eq__` |
| TippyMove.StrInjective | tippy_move.py:31-42 | `str` of two moves is the same text exactly when the moves are equal under `__eq__` |
| TippyMove.RenderExamples | tippy_move.py:21-42 | the doctests: `TippyMove((0, 0))` and `Occupy tile (0, 0)` |
| TippyGameState.Opponent | tippy_game_state.py:92-107 | the player to move after `p` is the other one: p1 and p2 swap |
| TippyGameState.Init | tippy_game_state.py:14-36 | the state holds the given player, dimension and board, or an all-empty board of that side; the computed `over` flag equals `Over` (no move left, or either letter forms a tippy) |
| TippyGameState.Render | tippy_game_state.py:54-69 | defines `__str__`: `Next player: `, the player, `Current board:`, then each row's letters joined by spaces, rows joined by newlines |
| TippyGameState.Equals | tippy_game_state.py:71-83 | defines `__eq__`: same board and same player to move; the dimension is not compared |
| TippyGameState.StateRepr | tippy_game_state.py:41-52 | defines `__repr__`: the text `TippyGameState('<player>', False, <dimension>)`, with `False` written as the source writes it |
| TippyGameState.StateReprDetermines | tippy_game_state.py:41-52 | `repr` of two states is the same text exactly when they have the same player to move and dimension |
| TippyGameState.StateReprExample | tippy_game_state.py:41-52 | the doctest: `TippyGameState('p1', False, 4)` |
| TippyGameState.RenderInjective | tippy_game_state.py:54-83 | for well-formed states, `__str__` texts are equal exactly when the states are equal, and `__eq__` (board and player) holds exactly then too |
| TippyGameState.Successor | tippy_game_state.py:101-108 | the new state is well formed, has the opponent to move and the same dimension, has the mover's letter at the move's tile, has every other tile unchanged, and has one empty tile fewer |
| TippyGameState.ApplyMove | tippy_game_state.py:85-108 | `apply_move` returns exactly `Successor(s, m)` |
| TippyGameState.PossibleMoves | tippy_game_state.py:200-205 | as many moves as empty tiles, each of them legal (an empty tile on the board) |
| TippyGameState.PossibleMovesExact | tippy_game_state.py:181-205 | the list is in row-major order, no move occurs in it twice, and a move is in it exactly when it is legal |
| TippyGameState.NoMovesIffFull | tippy_game_state.py:181-205 | the list is empty exactly when no tile of the board is empty |
| TippyGameState.PossibleNextMoves | tippy_game_state.py:200-205 | the nested row/column loop builds exactly `PossibleMoves(s)` |
| TippyGameState.IsTippyShape | tippy_game_state.py:245-329 | each of `is_tippy1` to `is_tippy4` returns true exactly when its four-tile pattern of `letter` occurs at some in-range position |
| TippyGameState.IsTippy | tippy_game_state.py:207-223 | defines `is_tippy`: one of the four patterns is formed by the letter |
| TippyGameState.MatchFound | tippy_game_state.py:259-265 | four equal tiles holding `letter` at a scanned position are a match of the pattern |
| TippyGameState.NoMatchNoShape | tippy_game_state.py:259-265 | a scan that finds nothing at any position means the pattern does not occur |
| TippyGameState.CheckTippy | tippy_game_state.py:207-223 | `is_tippy` is true exactly when one of the four patterns of `letter` occurs |
| TippyGameState.Over | tippy_game_state.py:35-36 | defines the `over` flag: no legal move is left, or `x` or `o` has a tippy |
| TippyGameState.Winner | tippy_game_state.py:160-179 | defines `winner`: the player's letter forms a tippy |
| TippyGameState.OverCharacterized | tippy_game_state.py:35-36 | the game is over exactly when the board is full or `winner` holds for `p1` or `p2` |
| TippyGameState.NotOverHasMove | tippy_game_state.py:35-36 | a state that is not over has an empty tile and a legal first move |
| TippyGameState.Rough | tippy_game_state.py:110-148 | defines the value of `rough_outcome`: `None` with no legal move; else, after the first legal move, WIN if it forms the mover's tippy, LOSE if the opponent has any reply, DRAW otherwise |
| TippyGameState.RoughCharacterized | tippy_game_state.py:131-148 | a value exactly when a tile is empty; WIN exactly when the first move forms a tippy for the mover; otherwise LOSE with two or more empty tiles and DRAW with one |
| TippyGameState.RoughOutcome | tippy_game_state.py:131-148 | the loop that returns on its first pass computes `Rough(s)`, and `None` when there is no move |
| TippyDoctests.StrExample | tippy_game_state.py:54-69 | a fresh 3 x 3 state for `p1` prints as `Next player: p1`, `Current board:` and three rows `- - -` |
| TippyDoctests.ApplyMoveExample | tippy_game_state.py:85-108 | `(0, 0)` is legal on a fresh board, and the state after it prints with `p2` to move and `o - -` in the first row |
| TippyDoctests.IsTippyExample | tippy_game_state.py:207-223 | on the example board `o` forms a tippy and `x` does not |
| TippyDoctests.WinnerExample | tippy_game_state.py:160-179 | `winner('p1')` holds on the example board |
| TippyDoctests.ShapeExamples | tippy_game_state.py:245-329 | the examples of `is_tippy1`, `is_tippy2` and `is_tippy4` find their patterns |
| TippyDoctests.PossibleMovesExample | tippy_game_state.py:181-205 | a full board has no moves; the example board has exactly `(0, 1)`, `(1, 1)`, `(2, 0)`, in that order |
| TippyDoctests.RoughLoseExample | tippy_game_state.py:119-121 | the first example of `rough_outcome` is LOSE |
| TippyDoctests.RoughWinExample | tippy_game_state.py:122-124 | the second example of `rough_outcome` is WIN |
| TippyDoctests.RoughDrawExample | tippy_game_state.py:125-129 | the 4 x 4 example of `rough_outcome` is DRAW |
| Best.MaxOf | strategy_minimax.py:88-89 | the `max` of a non-empty list of scores is one of them and no element exceeds it |
| Best.FirstMaxUnique | strategy_minimax.py:58 | there is only one first maximal index, and it holds the maximum |
| Best.ProduceMax | strategy_minimax.py:92-101 | defines `produce_max`, the key of a `(score, move)` pair: its first component |
| Best.MaxByKey | strategy_minimax.py:58 | `max(score_moves, key=produce_max)` fails exactly on the empty list; otherwise it returns the pair at the first index with the largest score |
| StrategyMinimax.FindScore | strategy_minimax.py:61-89 | defines `find_score`, the reference score: a finished game scores `outcome()`, any other state the largest negated score of the states its legal moves lead to |
| StrategyMinimax.FindScoreAchieved | strategy_minimax.py:84-89 | a state that is not over scores exactly what some legal move gives the mover (minus the opponent's score afterwards) |
| StrategyMinimax.FindScoreDominates | strategy_minimax.py:84-89 | no legal move gives the mover more than the state's score |
| StrategyMinimax.SuggestedScoreIsFindScore | strategy_minimax.py:54-58 | the move picked by the first maximum scores exactly `find_score` of the state |
| StrategyMinimax.SuggestMove | strategy_minimax.py:40-58 | fails (`max` on an empty list) exactly when there is no legal move; otherwise returns the first legal move whose score is the largest |
| StrategyMinimaxPrune.MinimaxValue | strategy_minimax_prune.py:90-133 | defines the value `minimax(state, p1, p2)` returns: a finished game's outcome in p1's terms, otherwise the cut-off fold over the children's values |
| StrategyMinimaxPrune.CutFold | strategy_minimax_prune.py:123-133 | defines the loop of `minimax`: take the max (p1) or min (p2) with each child's value, and return as soon as it reaches `p2` (p1) or `p1` (p2) |
| StrategyMinimaxPrune.CutFoldIsBest | strategy_minimax_prune.py:124-132 | with scores in [-1, 1] and a window at least (-1, 1), the loop with its early returns yields the maximum for `p1` and the minimum for `p2` |
| StrategyMinimaxPrune.AbsoluteFoldIsMax | strategy_minimax_prune.py:117-132 | over the absolute values of the mover's scores, the loop yields the mover's best score in `p1`'s terms |
| StrategyMinimaxPrune.MinimaxIsAbsoluteFull | strategy_minimax_prune.py:90-132 | with a window at least (-1, 1), `minimax` returns the full minimax score in `p1`'s terms (negated for `p2`) |
| StrategyMinimaxPrune.Minimax | strategy_minimax_prune.py:117-132 | the loop with its two early returns computes `MinimaxValue`, which is the full score in `p1`'s terms whenever the window is wide |
| StrategyMinimaxPrune.FindScore | strategy_minimax_prune.py:62-87 | `find_score` equals the full minimax score of the state for either player |
| StrategyMinimaxPrune.SuggestMove | strategy_minimax_prune.py:41-59 | fails exactly when there is no legal move; otherwise returns the first move whose full minimax score is the largest, the same move full minimax picks |
| MemoTable.MemoScore | strategy_minimax_memoize.py:91-122 | defines `find_score` with its table: a finished game scores `outcome()` and is not stored; a stored text scores its entry; otherwise the best of the children's scan, stored under the state's text |
| MemoTable.MemoScan | strategy_minimax_memoize.py:119-120 | defines the generator over the moves: each child's negated score, computed with the table the previous child left |
| MemoTable.EmptySound | strategy_minimax_memoize.py:13-20 | the empty table a strategy starts with is sound |
| MemoTable.StoreSound | strategy_minimax_memoize.py:121 | storing a state's full score under its text keeps a sound table sound |
| MemoTable.MemoScoreCorrect | strategy_minimax_memoize.py:114-122 | from a sound table, the memoised score is the full minimax score and the resulting table is sound |
| MemoTable.MemoMissCorrect | strategy_minimax_memoize.py:118-121 | on a miss for a state that is not over, the stored best of the scan is the full score and the table stays sound |
| MemoTable.MemoScanCorrect | strategy_minimax_memoize.py:119-120 | from a sound table, the scores of the children, each computed with the table left by the previous one, are the full minimax scores, and the table stays sound |
| MemoTable.MemoScoreMiss | strategy_minimax_memoize.py:118-121 | on a miss, the result is the best of the children's scores, and the table is the scan's table plus that value under the state's text |
| MemoTable.MemoScoreStores | strategy_minimax_memoize.py:118-122 | after scoring a state that is not over, its text is in the table and the returned score is the stored one; a hit returns the stored score and leaves the table unchanged |
| MemoTable.MemoScoreGrows | strategy_minimax_memoize.py:114-122 | the table only grows (no entry is changed), and no state that is over, or that has more empty tiles than the scored one, gets a new key |
| MemoTable.MemoMissGrows | strategy_minimax_memoize.py:118-121 | a miss keeps every entry, and no state that is over, or that has more empty tiles than the state itself, gets a new key |
| MemoTable.MemoScanGrows | strategy_minimax_memoize.py:119-120 | scoring the children keeps every entry, and no state that is over, or that has as many empty tiles as the parent or more, gets a new key |
| MemoTable.SuggestLeavesRootOut | strategy_minimax_memoize.py:84-88 | the scan `suggest_move` runs never stores the root state itself |
| MemoTable.MemoSuggestIsFull | strategy_minimax_memoize.py:84-88 | from a sound table, the first maximum of the memoised scores is the first maximum of the full scores, and the table stays sound |
| MemoTable.SuggestRepeatable | strategy_minimax_memoize.py:84-88 | from any two sound tables, `suggest_move` picks the same move |
| StrategyMinimaxMemoize.StrategyMinimaxMemoize.constructor | strategy_minimax_memoize.py:13-20 | a new strategy has an empty table |
| StrategyMinimaxMemoize.StrategyMinimaxMemoize.FindScore | strategy_minimax_memoize.py:91-122 | returns the memoised score and leaves `msDict` as the table `MemoScore` produces |
| StrategyMinimaxMemoize.StrategyMinimaxMemoize.ChildScores | strategy_minimax_memoize.py:119-120 | the generator over the moves yields `MemoScan`'s scores and table |
| StrategyMinimaxMemoize.StrategyMinimaxMemoize.SuggestMove | strategy_minimax_memoize.py:70-88 | fails exactly when there is no legal move; otherwise returns the first move with the largest memoised score; `msDict` becomes the scan's table |
| StrategyMinimaxMemoize.StrategyMinimaxMemoize.Equals | strategy_minimax_memoize.py:48-68 | defines `__eq__`: two strategies are equal when their tables are |
| StrategyMinimaxMemoize.FreshStrategiesAgree | strategy_minimax_memoize.py:48-68 | two fresh strategies asked for a move in the same state suggest the same move and end with equal tables, so `__eq__` holds |
| Memoization.ScoreDict.constructor | memoization.py:7 | a new dictionary is empty |
| Memoization.StrategyMemoization.constructor | memoization.py:7-9 | the strategy keeps the given dictionary object itself, not a copy |
| Memoization.StrategyMemoization.FindScore | memoization.py:55-84 | returns the memoised score and leaves `dct` as the table `MemoScore` produces; nothing but `dct` changes |
| Memoization.StrategyMemoization.ChildScores | memoization.py:83 | the generator over the moves yields `MemoScan`'s scores and fills `dct` accordingly |
| Memoization.StrategyMemoization.SuggestMove | memoization.py:34-52 | never returns a move: the call without `dct` fails whenever there is a move, and `max` on the empty list fails when there is none |
| StrategyMinimaxMyopic.MyopicScore | strategy_minimax_myopic.py:65-89 | defines `find_score(state, depth)`: a finished game scores `outcome()`; depth 0 scores `rough_outcome`; otherwise the largest negated child score at one less depth |
| StrategyMinimaxMyopic.MyopicIsFull | strategy_minimax_myopic.py:65-89 | with a negative depth, or one at least the number of empty tiles, the depth-bounded score is the full minimax score |
| StrategyMinimaxMyopic.MyopicScoresAreFull | strategy_minimax_myopic.py:88-89 | children searched with such a depth score as in full minimax |
| StrategyMinimaxMyopic.SuggestScoresAreFull | strategy_minimax_myopic.py:58-62 | with at most four empty tiles, `suggest_move` scores every move exactly as full minimax does |
| StrategyMinimaxMyopic.SuggestMove | strategy_minimax_myopic.py:40-62 | fails exactly when there is no legal move; otherwise returns the first move with the largest depth-3 score |

## Left out

- `get_move` and the `interactive` prompts: keyboard input and `eval` of the typed text are I/O.
- `outcome()` is defined in a base class that is not part of this model. It is a parameter of every strategy, constrained only to the scores -1, 0 and 1.
- The `__repr__`/`__str__` of the strategies and `instructions`: constant strings with nothing to prove.
- The subtraction game and the doctests that use it: the subtraction game is not part of this model. The `__eq__` doctest of the memoising strategy is stated for Tippy states instead (`FreshStrategiesAgree`).
- The strategies' doctests on Tippy boards (`find_score` values, the suggested move `(1, 1)`): their values depend on `outcome()`, which is not part of this model. What is proved instead is that the pruned and memoising strategies agree with full minimax, and the myopic one does whenever its depth covers the empty tiles.
- Floating-point scores: the source's `1.0`, `0.0` and `-1.0` are the integers 1, 0 and -1. The source's `-0.0`, which compares equal to `0.0`, is not distinguished.
- `deepcopy` of the board: boards are values here, so no copy is shared.
- `isinstance` checks in the `__eq__` methods: every comparison here is between values of the same type.
- TippyGameState.Init: requires a board of the given side, which the source assumes without checking.
- TippyGameState.Legal: the tile is on the board and empty, which the source assumes of every move it is given.
- TippyGameState.Rough: the list of booleans built in `rough_outcome` is modelled only by whether it is empty, because that is all the code tests.
- StrategyMinimaxMemoize.StrategyMinimaxMemoize.FindScore: states the new table as `MemoScore`. That the table stays sound and the score is the full minimax score is proved about `MemoScore` (`MemoTable.MemoScoreCorrect`), not repeated in the method's contract.
- Memoization.StrategyMemoization.FindScore: the same as for the memoising strategy's `FindScore`.
- Memoization.StrategyMemoization.constructor: has no default argument. The implicit sharing of `memoization.py:7`'s default dictionary among all instances built without one is not modelled; only explicit sharing of one `ScoreDict` is.
- Running time and node counts: how much work memoisation and pruning save is not modelled; only the values they compute are.
