/**
 * The rules of Tippy (tippy_game_state.py): a square board of empty, `o`
 * and `x` tiles and the player to move; `p1` places `o`, `p2` places `x`.
 * A player wins by forming a "tippy", one of four S/Z-shaped patterns of
 * four tiles.
 */
module TippyGameState {
  import opened Wrappers
  import opened Text
  import opened TippyMove

  datatype Player = P1 | P2

  /** A tile: `'-'`, `'o'` or `'x'`. */
  datatype Cell = Empty | O | X

  type Board = seq<seq<Cell>>

  /** The three outcome constants of the game-state base class: LOSE, DRAW, WIN. */
  type Score = x: int | -1 <= x <= 1

  const WIN: Score := 1
  const DRAW: Score := 0
  const LOSE: Score := -1

  /**
   * `outcome()` is inherited from a base class that is not part of this
   * model; every strategy receives it as a parameter and relies only on its
   * range. It is consulted only on states that are over.
   */
  type OutcomeFn = State -> Score

  /**
   * A game state. The source also stores `over`, computed once at
   * construction; states are never changed afterwards, so here `Over(s)`
   * is a function of the state.
   */
  datatype State = State(nextPlayer: Player, dimension: int, board: Board)

  /** What the source assumes of every state: a board of side `dimension` >= 3. */
  predicate WellFormed(s: State)
  {
    3 <= s.dimension && |s.board| == s.dimension &&
    forall r :: 0 <= r < |s.board| ==> |s.board[r]| == s.dimension
  }

  function Opponent(p: Player): (q: Player)
    ensures q != p
  {
    if p == P1 then P2 else P1
  }

  /** The letter a player places. */
  function Mark(p: Player): (c: Cell)
    ensures c != Empty
  {
    if p == P1 then O else X
  }

  // ---------------------------------------------------------------------
  // Counting empty tiles: the termination measure of every search.

  function CountEmpty(row: seq<Cell>): nat
  {
    if row == [] then 0
    else CountEmpty(row[..|row| - 1]) + (if row[|row| - 1] == Empty then 1 else 0)
  }

  function EmptyCount(b: Board): nat
  {
    if b == [] then 0 else EmptyCount(b[..|b| - 1]) + CountEmpty(b[|b| - 1])
  }

  /** Filling one empty tile of a row with a letter removes exactly one empty tile. */
  lemma {:induction false} CountEmptyFill(row: seq<Cell>, c: int, v: Cell)
    requires 0 <= c < |row| && row[c] == Empty && v != Empty
    ensures CountEmpty(row[c := v]) == CountEmpty(row) - 1
  {
    var n := |row|;
    if c == n - 1 {
      assert row[c := v][..n - 1] == row[..n - 1];
    } else {
      assert row[c := v][..n - 1] == row[..n - 1][c := v];
      CountEmptyFill(row[..n - 1], c, v);
    }
  }

  /** Replacing one row changes the count by the difference of the two rows' counts. */
  lemma {:induction false} EmptyCountReplaceRow(b: Board, r: int, row: seq<Cell>)
    requires 0 <= r < |b|
    ensures EmptyCount(b[r := row]) == EmptyCount(b) - CountEmpty(b[r]) + CountEmpty(row)
  {
    var n := |b|;
    if r == n - 1 {
      assert b[r := row][..n - 1] == b[..n - 1];
    } else {
      assert b[r := row][..n - 1] == b[..n - 1][r := row];
      EmptyCountReplaceRow(b[..n - 1], r, row);
    }
  }

  lemma {:induction false} CountEmptyPositive(row: seq<Cell>, c: int)
    requires 0 <= c < |row| && row[c] == Empty
    ensures CountEmpty(row) > 0
  {
    if c < |row| - 1 {
      CountEmptyPositive(row[..|row| - 1], c);
    }
  }

  lemma {:induction false} CountEmptyZero(row: seq<Cell>, c: int)
    requires 0 <= c < |row| && CountEmpty(row) == 0
    ensures row[c] != Empty
  {
    if row[c] == Empty {
      CountEmptyPositive(row, c);
    }
  }

  // ---------------------------------------------------------------------
  // Legal moves (possible_next_moves), in row-major order.

  /** The move names a tile of the board that is still empty. */
  predicate Legal(s: State, m: Move)
  {
    0 <= m.coord.0 < |s.board| && 0 <= m.coord.1 < |s.board[m.coord.0]| &&
    s.board[m.coord.0][m.coord.1] == Empty
  }

  /** Moves for the empty tiles among the first `c` tiles of row `r`. */
  function RowMoves(s: State, r: int, c: int): seq<Move>
    requires WellFormed(s) && 0 <= r < s.dimension && 0 <= c <= s.dimension
  {
    if c == 0 then []
    else RowMoves(s, r, c - 1) + (if s.board[r][c - 1] == Empty then [Move((r, c - 1))] else [])
  }

  /** Moves for the empty tiles of the first `r` rows. */
  function MovesUpTo(s: State, r: int): seq<Move>
    requires WellFormed(s) && 0 <= r <= s.dimension
  {
    if r == 0 then [] else MovesUpTo(s, r - 1) + RowMoves(s, r - 1, s.dimension)
  }

  /**
   * The specification of `possible_next_moves`: exactly the empty tiles,
   * each once, in row-major order, so there are as many moves as empty tiles.
   */
  function PossibleMoves(s: State): (ms: seq<Move>)
    requires WellFormed(s)
    ensures |ms| == EmptyCount(s.board)
    ensures forall i :: 0 <= i < |ms| ==> Legal(s, ms[i])
  {
    MovesUpToFacts(s, s.dimension);
    assert s.board[..s.dimension] == s.board;
    MovesUpTo(s, s.dimension)
  }

  /** The legal moves are listed in row-major order, and every legal move is listed. */
  lemma PossibleMovesExact(s: State)
    requires WellFormed(s)
    ensures RowMajor(PossibleMoves(s))
    ensures forall i, j :: 0 <= i < j < |PossibleMoves(s)| ==> PossibleMoves(s)[i] != PossibleMoves(s)[j]
    ensures forall m :: m in PossibleMoves(s) <==> Legal(s, m)
  {
    MovesUpToFacts(s, s.dimension);
    assert s.board[..s.dimension] == s.board;
    RowMajorDistinct(PossibleMoves(s));
  }

  /** `p` comes strictly before `q` in row-major order. */
  predicate Before(p: (int, int), q: (int, int))
  {
    p.0 < q.0 || (p.0 == q.0 && p.1 < q.1)
  }

  predicate RowMajor(ms: seq<Move>)
  {
    forall i, j :: 0 <= i < j < |ms| ==> Before(ms[i].coord, ms[j].coord)
  }

  lemma {:induction false} RowMovesFacts(s: State, r: int, c: int)
    requires WellFormed(s) && 0 <= r < s.dimension && 0 <= c <= s.dimension
    ensures var ms := RowMoves(s, r, c);
      && RowMajor(ms)
      && |ms| == CountEmpty(s.board[r][..c])
      && (forall i :: 0 <= i < |ms| ==> ms[i].coord.0 == r && 0 <= ms[i].coord.1 < c && Legal(s, ms[i]))
      && (forall k :: 0 <= k < c && s.board[r][k] == Empty ==> Move((r, k)) in ms)
  {
    if c > 0 {
      RowMovesFacts(s, r, c - 1);
      assert s.board[r][..c][..c - 1] == s.board[r][..c - 1];
    }
  }

  lemma {:induction false} MovesUpToFacts(s: State, r: int)
    requires WellFormed(s) && 0 <= r <= s.dimension
    ensures RowMajor(MovesUpTo(s, r))
    ensures |MovesUpTo(s, r)| == EmptyCount(s.board[..r])
    ensures forall i :: 0 <= i < |MovesUpTo(s, r)| ==> 0 <= MovesUpTo(s, r)[i].coord.0 < r && Legal(s, MovesUpTo(s, r)[i])
    ensures forall i, k :: 0 <= i < r && 0 <= k < s.dimension && s.board[i][k] == Empty ==> Move((i, k)) in MovesUpTo(s, r)
  {
    if r > 0 {
      MovesUpToFacts(s, r - 1);
      RowMovesFacts(s, r - 1, s.dimension);
      var a, b := MovesUpTo(s, r - 1), RowMoves(s, r - 1, s.dimension);
      assert s.board[..r][..r - 1] == s.board[..r - 1];
      assert s.board[r - 1][..s.dimension] == s.board[r - 1];
      RowMajorConcat(a, b, r - 1);
      LegalConcat(s, a, b, r - 1);
    }
  }

  /** Legal moves of the rows above `r` followed by legal moves of row `r` are legal moves above `r + 1`. */
  lemma LegalConcat(s: State, a: seq<Move>, b: seq<Move>, r: int)
    requires forall i :: 0 <= i < |a| ==> 0 <= a[i].coord.0 < r && Legal(s, a[i])
    requires forall i :: 0 <= i < |b| ==> b[i].coord.0 == r && Legal(s, b[i])
    ensures forall i :: 0 <= i < |a + b| ==> 0 <= (a + b)[i].coord.0 < r + 1 && Legal(s, (a + b)[i])
  {
    forall i | 0 <= i < |a + b| ensures 0 <= (a + b)[i].coord.0 < r + 1 && Legal(s, (a + b)[i]) {
      if i < |a| {
        assert (a + b)[i] == a[i];
      } else {
        assert (a + b)[i] == b[i - |a|];
      }
    }
  }

  /** Moves of earlier rows followed by row-major moves of row `r` are in row-major order. */
  lemma RowMajorConcat(a: seq<Move>, b: seq<Move>, r: int)
    requires RowMajor(a) && RowMajor(b)
    requires forall i :: 0 <= i < |a| ==> a[i].coord.0 < r
    requires forall i :: 0 <= i < |b| ==> b[i].coord.0 == r
    ensures RowMajor(a + b)
  {
    forall i, j | 0 <= i < j < |a + b| ensures Before((a + b)[i].coord, (a + b)[j].coord) {
      if j < |a| {
        assert (a + b)[i] == a[i] && (a + b)[j] == a[j];
      } else if i >= |a| {
        assert (a + b)[i] == b[i - |a|] && (a + b)[j] == b[j - |a|];
      } else {
        assert (a + b)[i] == a[i] && (a + b)[j] == b[j - |a|];
      }
    }
  }

  /** Row-major order lists no move twice. */
  lemma RowMajorDistinct(ms: seq<Move>)
    requires RowMajor(ms)
    ensures forall i, j :: 0 <= i < j < |ms| ==> ms[i] != ms[j]
  {
  }

  lemma {:induction false} EmptyCountZero(b: Board, r: int, c: int)
    requires 0 <= r < |b| && 0 <= c < |b[r]| && EmptyCount(b) == 0
    ensures b[r][c] != Empty
  {
    if r == |b| - 1 {
      CountEmptyZero(b[r], c);
    } else {
      EmptyCountZero(b[..|b| - 1], r, c);
    }
  }

  /** A full board has no legal moves, and a board with an empty tile has one. */
  lemma NoMovesIffFull(s: State)
    requires WellFormed(s)
    ensures PossibleMoves(s) == [] <==>
      forall r, c :: 0 <= r < s.dimension && 0 <= c < s.dimension ==> s.board[r][c] != Empty
  {
    if PossibleMoves(s) != [] {
      assert Legal(s, PossibleMoves(s)[0]);
    } else {
      forall r, c | 0 <= r < s.dimension && 0 <= c < s.dimension
        ensures s.board[r][c] != Empty
      {
        EmptyCountZero(s.board, r, c);
      }
    }
  }

  method PossibleNextMoves(s: State) returns (lst: seq<Move>)
    requires WellFormed(s)
    ensures lst == PossibleMoves(s)
  {
    lst := [];
    var row := 0;
    while row < s.dimension
      invariant 0 <= row <= s.dimension
      invariant lst == MovesUpTo(s, row)
    {
      var column := 0;
      while column < s.dimension
        invariant 0 <= column <= s.dimension
        invariant lst == MovesUpTo(s, row) + RowMoves(s, row, column)
      {
        if s.board[row][column] == Empty {
          lst := lst + [Move((row, column))];
        }
        column := column + 1;
      }
      row := row + 1;
    }
  }

  // ---------------------------------------------------------------------
  // Applying a move.

  /**
   * The state `apply_move` returns: the mover's letter at `m.coord`, every
   * other tile as before, and the other player to move.
   */
  function Successor(s: State, m: Move): (t: State)
    requires WellFormed(s) && Legal(s, m)
    ensures WellFormed(t)
    ensures t.nextPlayer == Opponent(s.nextPlayer) && t.dimension == s.dimension
    ensures forall r, c :: 0 <= r < s.dimension && 0 <= c < s.dimension ==>
      t.board[r][c] == if (r, c) == m.coord then Mark(s.nextPlayer) else s.board[r][c]
    ensures EmptyCount(t.board) == EmptyCount(s.board) - 1
  {
    var (r, c) := m.coord;
    var row := s.board[r][c := Mark(s.nextPlayer)];
    CountEmptyFill(s.board[r], c, Mark(s.nextPlayer));
    EmptyCountReplaceRow(s.board, r, row);
    State(Opponent(s.nextPlayer), s.dimension, s.board[r := row])
  }

  /** `apply_move`: copy the board, write one tile, build the new state. */
  method ApplyMove(s: State, m: Move) returns (t: State)
    requires WellFormed(s) && Legal(s, m)
    ensures t == Successor(s, m)
  {
    var newBoard := s.board;
    var (r, c) := m.coord;
    if s.nextPlayer == P1 {
      newBoard := newBoard[r := newBoard[r][c := O]];
    } else {
      newBoard := newBoard[r := newBoard[r][c := X]];
    }
    var over;
    t, over := Init(Opponent(s.nextPlayer), s.dimension, Some(newBoard));
  }

  // ---------------------------------------------------------------------
  // Tippies.

  /** The four patterns of the source's legend, `is_tippy1` .. `is_tippy4`. */
  datatype Shape = Tippy1 | Tippy2 | Tippy3 | Tippy4

  /** Rows spanned by a pattern: 3 for the upright ones, 2 for the flat ones. */
  function Height(shape: Shape): int
  {
    if shape == Tippy1 || shape == Tippy2 then 3 else 2
  }

  function Width(shape: Shape): int
  {
    if shape == Tippy1 || shape == Tippy2 then 2 else 3
  }

  /** The four tiles of a pattern placed with its top-left corner at (r, c). */
  function Tiles(shape: Shape, r: int, c: int): (ts: seq<(int, int)>)
    ensures |ts| == 4
    ensures forall k :: 0 <= k < 4 ==>
      r <= ts[k].0 < r + Height(shape) && c <= ts[k].1 < c + Width(shape)
  {
    match shape
    case Tippy1 => [(r, c), (r + 1, c), (r + 1, c + 1), (r + 2, c + 1)]
    case Tippy2 => [(r + 2, c), (r + 1, c), (r + 1, c + 1), (r, c + 1)]
    case Tippy3 => [(r, c), (r, c + 1), (r + 1, c + 1), (r + 1, c + 2)]
    case Tippy4 => [(r + 1, c), (r, c + 1), (r + 1, c + 1), (r, c + 2)]
  }

  /** The offsets a scan visits: every placement that fits on the board. */
  predicate InRange(s: State, shape: Shape, r: int, c: int)
  {
    0 <= r < s.dimension - Height(shape) + 1 && 0 <= c < s.dimension - Width(shape) + 1
  }

  /** All four tiles of the placed pattern hold `letter`. */
  predicate MatchAt(s: State, shape: Shape, letter: Cell, r: int, c: int)
    requires WellFormed(s) && InRange(s, shape, r, c)
  {
    var ts := Tiles(shape, r, c);
    forall k :: 0 <= k < 4 ==> s.board[ts[k].0][ts[k].1] == letter
  }

  predicate HasShape(s: State, shape: Shape, letter: Cell)
    requires WellFormed(s)
  {
    // The bounds on `r` and `c` only let the quantifier be computed; `InRange` is tighter.
    exists r, c :: 0 <= r < s.dimension && 0 <= c < s.dimension && InRange(s, shape, r, c) && MatchAt(s, shape, letter, r, c)
  }

  /** `is_tippy(letter)`: one of the four patterns is formed by `letter`. */
  predicate IsTippy(s: State, letter: Cell)
    requires WellFormed(s)
  {
    HasShape(s, Tippy1, letter) || HasShape(s, Tippy2, letter) ||
    HasShape(s, Tippy3, letter) || HasShape(s, Tippy4, letter)
  }

  /** `is_tippy1` .. `is_tippy4`: scan every offset, stop at the first match. */
  method IsTippyShape(s: State, shape: Shape, letter: Cell) returns (found: bool)
    requires WellFormed(s) && letter != Empty
    ensures found <==> HasShape(s, shape, letter)
  {
    for r := 0 to s.dimension - Height(shape) + 1
      invariant forall r', c' :: 0 <= r' < r && InRange(s, shape, r', c') ==> !MatchAt(s, shape, letter, r', c')
    {
      for c := 0 to s.dimension - Width(shape) + 1
        invariant forall r', c' :: 0 <= r' < r && InRange(s, shape, r', c') ==> !MatchAt(s, shape, letter, r', c')
        invariant forall c' :: 0 <= c' < c ==> !MatchAt(s, shape, letter, r, c')
      {
        var ts := Tiles(shape, r, c);
        if s.board[ts[0].0][ts[0].1] == s.board[ts[1].0][ts[1].1] ==
           s.board[ts[2].0][ts[2].1] == s.board[ts[3].0][ts[3].1] == letter {
          MatchFound(s, shape, letter, r, c);
          return true;
        }
      }
    }
    NoMatchNoShape(s, shape, letter);
    return false;
  }

  /** Four tiles of a placed pattern that hold `letter` are a match, so the pattern is there. */
  lemma MatchFound(s: State, shape: Shape, letter: Cell, r: int, c: int)
    requires WellFormed(s) && InRange(s, shape, r, c)
    requires var ts := Tiles(shape, r, c);
      s.board[ts[0].0][ts[0].1] == s.board[ts[1].0][ts[1].1] ==
      s.board[ts[2].0][ts[2].1] == s.board[ts[3].0][ts[3].1] == letter
    ensures MatchAt(s, shape, letter, r, c) && HasShape(s, shape, letter)
  {
  }

  /** A scan that found no placement of the pattern proves there is none. */
  lemma NoMatchNoShape(s: State, shape: Shape, letter: Cell)
    requires WellFormed(s)
    requires forall r', c' :: InRange(s, shape, r', c') ==> !MatchAt(s, shape, letter, r', c')
    ensures !HasShape(s, shape, letter)
  {
  }

  /** `is_tippy`: the four scans, in order, until one succeeds. */
  method CheckTippy(s: State, letter: Cell) returns (found: bool)
    requires WellFormed(s) && letter != Empty
    ensures found <==> IsTippy(s, letter)
  {
    found := IsTippyShape(s, Tippy1, letter);
    if !found { found := IsTippyShape(s, Tippy2, letter); }
    if !found { found := IsTippyShape(s, Tippy3, letter); }
    if !found { found := IsTippyShape(s, Tippy4, letter); }
  }

  // ---------------------------------------------------------------------
  // End of game.

  /** `over`: no legal move is left, or `x` or `o` has a tippy. */
  predicate Over(s: State)
    requires WellFormed(s)
  {
    PossibleMoves(s) == [] || IsTippy(s, X) || IsTippy(s, O)
  }

  /** `winner(player)`: the player's letter forms a tippy. */
  predicate Winner(s: State, p: Player)
    requires WellFormed(s)
  {
    IsTippy(s, Mark(p))
  }

  /** A state that is not over has an empty tile, hence a legal move. */
  lemma NotOverHasMove(s: State)
    requires WellFormed(s) && !Over(s)
    ensures |PossibleMoves(s)| > 0 && EmptyCount(s.board) > 0
    ensures Legal(s, PossibleMoves(s)[0])
  {
  }

  /** A winner ends the game, and `over` holds exactly when the board is full or someone won. */
  lemma OverCharacterized(s: State)
    requires WellFormed(s)
    ensures Over(s) <==> EmptyCount(s.board) == 0 || Winner(s, P1) || Winner(s, P2)
  {
  }

  // ---------------------------------------------------------------------
  // Construction.

  /** `__init__`: the given board, or a fresh empty one, and the `over` flag. */
  method Init(p: Player, dimension: int, board: Option<Board>) returns (s: State, over: bool)
    requires 3 <= dimension
    requires board.Some? ==> (|board.value| == dimension &&
      forall r :: 0 <= r < dimension ==> |board.value[r]| == dimension)
    ensures WellFormed(s) && s.nextPlayer == p && s.dimension == dimension
    ensures board.Some? ==> s.board == board.value
    ensures board.None? ==> forall r, c :: 0 <= r < dimension && 0 <= c < dimension ==> s.board[r][c] == Empty
    ensures over == Over(s)
  {
    var b: Board;
    if board.None? {
      var createBoard: Board := [];
      for n := 0 to dimension
        invariant |createBoard| == n
        invariant forall r :: 0 <= r < n ==> createBoard[r] == seq(dimension, i => Empty)
      {
        createBoard := createBoard + [seq(dimension, i => Empty)];
      }
      b := createBoard;
    } else {
      b := board.value;
    }
    s := State(p, dimension, b);
    var moves := PossibleNextMoves(s);
    over := moves == [];
    if !over { over := CheckTippy(s, X); }
    if !over { over := CheckTippy(s, O); }
  }

  // ---------------------------------------------------------------------
  // Heuristic.

  /**
   * The specification of `rough_outcome`. Only the first legal move is
   * looked at: WIN if it forms a tippy for the mover, otherwise LOSE if the
   * opponent then has any move at all, otherwise DRAW; without a legal move
   * the source returns `None`.
   */
  function Rough(s: State): Option<Score>
    requires WellFormed(s)
  {
    var ms := PossibleMoves(s);
    if ms == [] then None
    else
      var t := Successor(s, ms[0]);
      if IsTippy(t, Mark(s.nextPlayer)) then Some(WIN)
      else if PossibleMoves(t) != [] then Some(LOSE)
      else Some(DRAW)
  }

  /**
   * What `rough_outcome` decides on: it returns a value exactly when a move
   * is left; WIN exactly when the first move forms a tippy for the mover;
   * otherwise LOSE whenever two or more tiles are empty, DRAW when one is.
   */
  lemma RoughCharacterized(s: State)
    requires WellFormed(s)
    ensures Rough(s).Some? <==> EmptyCount(s.board) > 0
    ensures EmptyCount(s.board) > 0 ==>
      var t := Successor(s, PossibleMoves(s)[0]);
      && (Rough(s) == Some(WIN) <==> IsTippy(t, Mark(s.nextPlayer)))
      && (!IsTippy(t, Mark(s.nextPlayer)) && EmptyCount(s.board) >= 2 ==> Rough(s) == Some(LOSE))
      && (!IsTippy(t, Mark(s.nextPlayer)) && EmptyCount(s.board) == 1 ==> Rough(s) == Some(DRAW))
  {
  }

  /** `rough_outcome`: a loop over the legal moves that returns on its first pass. */
  method RoughOutcome(s: State) returns (r: Option<Score>)
    requires WellFormed(s)
    ensures r == Rough(s)
  {
    var letter := Mark(s.nextPlayer);
    var moves := PossibleNextMoves(s);
    for i := 0 to |moves|
      invariant i == 0
    {
      var newState := ApplyMove(s, moves[i]);
      var formed := CheckTippy(newState, letter);
      if formed {
        return Some(WIN);
      }
      var replies := PossibleNextMoves(newState);
      if replies != [] {
        return Some(LOSE);
      } else {
        return Some(DRAW);
      }
    }
    return None;
  }

  // ---------------------------------------------------------------------
  // Equality and the text form used as the memo key.

  /** `__eq__`: same board and same player to move; `dimension` is not compared. */
  predicate Equals(s: State, other: State)
  {
    s.board == other.board && s.nextPlayer == other.nextPlayer
  }

  function CellChar(c: Cell): char
  {
    match c
    case Empty => '-'
    case O => 'o'
    case X => 'x'
  }

  function PlayerName(p: Player): string
  {
    if p == P1 then "p1" else "p2"
  }

  function CellTexts(row: seq<Cell>): seq<string>
  {
    seq(|row|, i requires 0 <= i < |row| => [CellChar(row[i])])
  }

  /** `' '.join(row)`. */
  function RowText(row: seq<Cell>): string
  {
    Join(' ', CellTexts(row))
  }

  function RowTexts(b: Board): seq<string>
  {
    seq(|b|, i requires 0 <= i < |b| => RowText(b[i]))
  }

  /** `__str__`, the key under which the memoising strategies cache a state. */
  function Render(s: State): string
  {
    "Next player: " + PlayerName(s.nextPlayer) + "\nCurrent board:\n" + Join('\n', RowTexts(s.board))
  }

  /** `__repr__`, such as `TippyGameState('p1', False, 4)`. */
  function StateRepr(s: State): string
  {
    "TippyGameState('" + PlayerName(s.nextPlayer) + "', False, " + IntToString(s.dimension) + ")"
  }

  /**
   * `__repr__` shows the player to move and the dimension and nothing else:
   * two states have the same `repr` exactly when those two agree.
   */
  lemma StateReprDetermines(s: State, t: State)
    ensures StateRepr(s) == StateRepr(t) <==> s.nextPlayer == t.nextPlayer && s.dimension == t.dimension
  {
    if StateRepr(s) == StateRepr(t) {
      var a, b := StateRepr(s), StateRepr(t);
      assert a[16..18] == PlayerName(s.nextPlayer);
      assert b[16..18] == PlayerName(t.nextPlayer);
      assert a[28..|a| - 1] == IntToString(s.dimension);
      assert b[28..|b| - 1] == IntToString(t.dimension);
      IntToStringInjective(s.dimension, t.dimension);
    }
  }

  /** The doctest of `__repr__`. */
  lemma StateReprExample(b: Board)
    ensures StateRepr(State(P1, 4, b)) == "TippyGameState('p1', False, 4)"
  {
  }

  lemma RowTextInjective(row: seq<Cell>, other: seq<Cell>)
    requires |row| > 0 && |other| > 0
    requires RowText(row) == RowText(other)
    ensures row == other
  {
    JoinInjective(' ', CellTexts(row), CellTexts(other));
    assert |row| == |CellTexts(row)|;
    forall i | 0 <= i < |row|
      ensures row[i] == other[i]
    {
      assert CellTexts(row)[i] == CellTexts(other)[i];
    }
  }

  lemma RowTextNoNewline(row: seq<Cell>)
    ensures '\n' !in RowText(row)
  {
    JoinAvoids('\n', ' ', CellTexts(row));
  }

  /**
   * For well-formed states the memo key is faithful: two states have the
   * same `__str__` exactly when they are equal, which is also exactly when
   * `__eq__` holds.
   */
  lemma RenderInjective(s: State, t: State)
    requires WellFormed(s) && WellFormed(t)
    ensures Render(s) == Render(t) <==> s == t
    ensures Equals(s, t) <==> s == t
  {
    if Render(s) == Render(t) {
      var a, b := Render(s), Render(t);
      assert a[13..15] == PlayerName(s.nextPlayer);
      assert b[13..15] == PlayerName(t.nextPlayer);
      assert a[31..] == Join('\n', RowTexts(s.board));
      assert b[31..] == Join('\n', RowTexts(t.board));
      forall i | 0 <= i < |s.board| { RowTextNoNewline(s.board[i]); }
      forall i | 0 <= i < |t.board| { RowTextNoNewline(t.board[i]); }
      JoinInjective('\n', RowTexts(s.board), RowTexts(t.board));
      forall i | 0 <= i < |s.board|
        ensures s.board[i] == t.board[i]
      {
        assert RowTexts(s.board)[i] == RowTexts(t.board)[i];
        RowTextInjective(s.board[i], t.board[i]);
      }
    }
  }
}
