/** A move of the game of Tippy: the coordinates of the tile to occupy (tippy_move.py). */
module TippyMove {
  import opened Text

  /**
   * `coord` is (row, column). The source assumes it names a valid, empty
   * tile; that assumption is the precondition of applying the move.
   */
  datatype Move = Move(coord: (int, int))

  /** `__eq__`: two moves are equal exactly when their coordinates are. */
  predicate Equals(m: Move, other: Move)
  {
    m.coord == other.coord
  }

  /** Python's `str` of a coordinate pair, such as `(0, 0)`: the two numbers, `, ` between them. */
  function CoordText(p: (int, int)): string
  {
    "(" + (IntToString(p.0) + [','] + (" " + IntToString(p.1))) + ")"
  }

  /** `__repr__`, such as `TippyMove((0, 0))`. */
  function Repr(m: Move): string
  {
    "TippyMove(" + CoordText(m.coord) + ")"
  }

  /** `__str__`, such as `Occupy tile (0, 0)`. */
  function Str(m: Move): string
  {
    "Occupy tile " + CoordText(m.coord)
  }

  lemma {:induction false} EqualsIsIdentity(m: Move, other: Move)
    ensures Equals(m, other) <==> m == other
  {
  }

  /** The rendering of a coordinate pair determines the pair. */
  lemma CoordTextInjective(p: (int, int), q: (int, int))
    requires CoordText(p) == CoordText(q)
    ensures p == q
  {
    var a, b := IntToString(p.0), IntToString(p.1);
    var a', b' := IntToString(q.0), IntToString(q.1);
    var inner, inner' := a + [','] + (" " + b), a' + [','] + (" " + b');
    Middle("(", inner, ")");
    Middle("(", inner', ")");
    assert |inner| == |inner'|;
    assert ',' !in a && ',' !in a';
    SplitAtFirst(',', a, " " + b, a', " " + b');
    Middle(" ", b, []);
    Middle(" ", b', []);
    IntToStringInjective(p.0, q.0);
    IntToStringInjective(p.1, q.1);
  }

  /** `repr` tells moves apart exactly as `__eq__` does. */
  lemma ReprInjective(m: Move, other: Move)
    ensures Repr(m) == Repr(other) <==> Equals(m, other)
  {
    if Repr(m) == Repr(other) {
      Middle("TippyMove(", CoordText(m.coord), ")");
      Middle("TippyMove(", CoordText(other.coord), ")");
      assert |CoordText(m.coord)| == |CoordText(other.coord)|;
      CoordTextInjective(m.coord, other.coord);
    }
  }

  /** `str` tells moves apart exactly as `__eq__` does. */
  lemma StrInjective(m: Move, other: Move)
    ensures Str(m) == Str(other) <==> Equals(m, other)
  {
    if Str(m) == Str(other) {
      Middle("Occupy tile ", CoordText(m.coord), []);
      Middle("Occupy tile ", CoordText(other.coord), []);
      CoordTextInjective(m.coord, other.coord);
    }
  }

  /** The doctests of `__repr__` and `__str__`. */
  lemma RenderExamples()
    ensures Repr(Move((0, 0))) == "TippyMove((0, 0))"
    ensures Str(Move((0, 0))) == "Occupy tile (0, 0)"
  {
  }
}
