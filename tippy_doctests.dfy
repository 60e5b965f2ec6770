/**
 * The doctests of tippy_game_state.py, stated about the model: each lemma
 * is one `>>>` example with the answer the source documents.
 */
module TippyDoctests {
  import opened Wrappers
  import opened TippyMove
  import opened TippyGameState

  /** A fresh 3 x 3 board, as `TippyGameState('p1')` builds it. */
  const EmptyBoard: Board := [[Empty, Empty, Empty], [Empty, Empty, Empty], [Empty, Empty, Empty]]

  /** The board of the `winner` and `is_tippy` doctests. */
  const WonBoard: Board := [[O, O, O], [X, O, O], [X, X, X]]

  /** No placement of any pattern holds `letter` on all four tiles. */
  ghost predicate NoPlacement(s: State, letter: Cell)
    requires WellFormed(s)
  {
    forall shape, r, c :: InRange(s, shape, r, c) ==> !MatchAt(s, shape, letter, r, c)
  }

  lemma NoPlacementNoTippy(s: State, letter: Cell)
    requires WellFormed(s) && NoPlacement(s, letter)
    ensures !IsTippy(s, letter)
  {
    forall shape | true ensures !HasShape(s, shape, letter) {
      NoMatchNoShape(s, shape, letter);
    }
  }

  /** `print(TippyGameState('p1'))`. */
  lemma StrExample()
    ensures Render(State(P1, 3, EmptyBoard)) == "Next player: p1\nCurrent board:\n- - -\n- - -\n- - -"
  {
  }

  /** `print(TippyGameState('p1', dimension=3).apply_move(TippyMove((0, 0))))`. */
  lemma ApplyMoveExample()
    ensures Legal(State(P1, 3, EmptyBoard), Move((0, 0)))
    ensures Render(Successor(State(P1, 3, EmptyBoard), Move((0, 0)))) ==
      "Next player: p2\nCurrent board:\no - -\n- - -\n- - -"
  {
    SuccessorIs(State(P1, 3, EmptyBoard), Move((0, 0)), [[O, Empty, Empty], [Empty, Empty, Empty], [Empty, Empty, Empty]]);
    RenderFirstMove();
  }

  lemma RenderFirstMove()
    ensures Render(State(P2, 3, [[O, Empty, Empty], [Empty, Empty, Empty], [Empty, Empty, Empty]])) ==
      "Next player: p2\nCurrent board:\no - -\n- - -\n- - -"
  {
    RowTextsFirstMove();
  }

  lemma RowTextsFirstMove()
    ensures RowTexts([[O, Empty, Empty], [Empty, Empty, Empty], [Empty, Empty, Empty]]) == ["o - -", "- - -", "- - -"]
  {
    assert RowText([O, Empty, Empty]) == "o - -";
    assert RowText([Empty, Empty, Empty]) == "- - -";
  }

  /** `TippyGameState('p2', board=b).is_tippy('o')` and `.is_tippy('x')`. */
  lemma IsTippyExample()
    ensures IsTippy(State(P2, 3, WonBoard), O)
    ensures !IsTippy(State(P2, 3, WonBoard), X)
  {
    var s := State(P2, 3, WonBoard);
    assert MatchAt(s, Tippy3, O, 0, 0);
    forall shape, r, c | InRange(s, shape, r, c) ensures !MatchAt(s, shape, X, r, c) {
      // Every placement covers an `o`: the first row, or the centre tile.
      var ts := Tiles(shape, r, c);
      var k := if shape == Tippy1 then 0 else if shape == Tippy2 then 3 else 1;
      assert s.board[ts[k].0][ts[k].1] == O;
    }
    NoPlacementNoTippy(s, X);
  }

  /** `TippyGameState('p1', board=b).winner('p1')`. */
  lemma WinnerExample()
    ensures Winner(State(P1, 3, WonBoard), P1)
  {
    assert MatchAt(State(P1, 3, WonBoard), Tippy3, O, 0, 0);
  }

  /** The doctests of the single-pattern scans `is_tippy1`, `is_tippy2` and `is_tippy4`. */
  lemma ShapeExamples()
    ensures HasShape(State(P2, 3, [[O, X, X], [O, O, Empty], [X, O, Empty]]), Tippy1, O)
    ensures HasShape(State(P1, 3, [[O, X, O], [X, X, Empty], [X, O, Empty]]), Tippy2, X)
    ensures HasShape(State(P1, 3, [[X, O, O], [O, O, Empty], [Empty, X, X]]), Tippy4, O)
  {
    assert MatchAt(State(P2, 3, [[O, X, X], [O, O, Empty], [X, O, Empty]]), Tippy1, O, 0, 0);
    assert MatchAt(State(P1, 3, [[O, X, O], [X, X, Empty], [X, O, Empty]]), Tippy2, X, 0, 0);
    assert MatchAt(State(P1, 3, [[X, O, O], [O, O, Empty], [Empty, X, X]]), Tippy4, O, 0, 0);
  }

  /** The two doctests of `possible_next_moves`. */
  lemma PossibleMovesExample()
    ensures PossibleMoves(State(P1, 3, [[O, O, O], [X, O, X], [X, X, X]])) == []
    ensures PossibleMoves(State(P1, 3, [[O, Empty, O], [X, Empty, X], [Empty, O, X]])) ==
      [Move((0, 1)), Move((1, 1)), Move((2, 0))]
  {
  }

  /** `Successor` of a move is the state with the board `b`, when `b` is that board tile by tile. */
  lemma SuccessorIs(s: State, m: Move, b: Board)
    requires WellFormed(s) && Legal(s, m) && |b| == s.dimension
    requires forall r :: 0 <= r < s.dimension ==> |b[r]| == s.dimension
    requires forall r, c :: 0 <= r < s.dimension && 0 <= c < s.dimension ==>
      b[r][c] == if (r, c) == m.coord then Mark(s.nextPlayer) else s.board[r][c]
    ensures Successor(s, m) == State(Opponent(s.nextPlayer), s.dimension, b)
  {
    var t := Successor(s, m);
    forall r | 0 <= r < s.dimension ensures t.board[r] == b[r] {
      assert forall c :: 0 <= c < s.dimension ==> t.board[r][c] == b[r][c];
    }
  }

  /** The boards of the three `rough_outcome` doctests, and each board after its first legal move. */
  const LoseBoard: Board := [[O, O, O], [Empty, O, Empty], [X, X, X]]
  const LoseBoardNext: Board := [[O, O, O], [X, O, Empty], [X, X, X]]
  const WinBoard: Board := [[O, O, O], [Empty, O, X], [X, X, X]]
  const WinBoardNext: Board := [[O, O, O], [O, O, X], [X, X, X]]
  const DrawBoard: Board := [[X, X, X, X], [O, O, O, O], [X, X, X, X], [O, O, O, Empty]]
  const DrawBoardNext: Board := [[X, X, X, X], [O, O, O, O], [X, X, X, X], [O, O, O, O]]

  /** `TippyGameState('p2', board=b).rough_outcome()` is `-1.0`: the reply `(1, 2)` remains. */
  lemma RoughLoseExample()
    ensures Rough(State(P2, 3, LoseBoard)) == Some(LOSE)
  {
    var s := State(P2, 3, LoseBoard);
    assert PossibleMoves(s) == [Move((1, 0)), Move((1, 2))];
    SuccessorIs(s, Move((1, 0)), LoseBoardNext);
    LoseBoardNextFacts();
  }

  lemma LoseBoardNextFacts()
    ensures !IsTippy(State(P1, 3, LoseBoardNext), X)
    ensures PossibleMoves(State(P1, 3, LoseBoardNext)) == [Move((1, 2))]
  {
    var t := State(P1, 3, LoseBoardNext);
    forall shape, r, c | InRange(t, shape, r, c) ensures !MatchAt(t, shape, X, r, c) {
      // Every placement covers an `o`: the first row, or the centre tile.
      var ts := Tiles(shape, r, c);
      var k := if shape == Tippy1 then 0 else if shape == Tippy2 then 3 else 1;
      assert t.board[ts[k].0][ts[k].1] == O;
    }
    NoPlacementNoTippy(t, X);
  }

  /** `TippyGameState('p1', board=b).rough_outcome()` is `1.0`: `(1, 0)` completes a tippy. */
  lemma RoughWinExample()
    ensures Rough(State(P1, 3, WinBoard)) == Some(WIN)
  {
    var s := State(P1, 3, WinBoard);
    assert PossibleMoves(s) == [Move((1, 0))];
    SuccessorIs(s, Move((1, 0)), WinBoardNext);
    assert MatchAt(State(P2, 3, WinBoardNext), Tippy4, O, 0, 0);
  }

  /** `TippyGameState('p1', dimension=4, board=b).rough_outcome()` is `0.0`: the last tile forms nothing. */
  lemma RoughDrawExample()
    ensures Rough(State(P1, 4, DrawBoard)) == Some(DRAW)
  {
    var s := State(P1, 4, DrawBoard);
    assert PossibleMoves(s) == [Move((3, 3))];
    SuccessorIs(s, Move((3, 3)), DrawBoardNext);
    DrawBoardNextFacts();
  }

  lemma DrawBoardNextFacts()
    ensures !IsTippy(State(P2, 4, DrawBoardNext), O)
    ensures PossibleMoves(State(P2, 4, DrawBoardNext)) == []
  {
    var t := State(P2, 4, DrawBoardNext);
    forall shape, r, c | InRange(t, shape, r, c) ensures !MatchAt(t, shape, O, r, c) {
      // Every placement spans two neighbouring rows, and one of them is all `x`.
      var xr := if r % 2 == 0 then r else r + 1;
      assert t.board[xr] == [X, X, X, X];
      var ts := Tiles(shape, r, c);
      var k := if xr == r then (if shape == Tippy1 || shape == Tippy3 then 0 else if shape == Tippy2 then 3 else 1)
               else (if shape == Tippy4 then 0 else if shape == Tippy3 then 2 else 1);
      assert ts[k].0 == xr;
      assert t.board[ts[k].0][ts[k].1] == X;
    }
    NoPlacementNoTippy(t, O);
  }
}
