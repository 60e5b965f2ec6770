/**
 * String building used by the `__str__` / `__repr__` methods of the game:
 * Python's `sep.join(parts)` and the decimal rendering of an `int`,
 * together with the facts that make these renderings unambiguous.
 */
module Text {

  /** `Join(sep, parts)` is Python's `sep.join(parts)` for a one-character separator. */
  function Join<T>(sep: T, parts: seq<seq<T>>): seq<T>
  {
    if |parts| == 0 then []
    else if |parts| == 1 then parts[0]
    else parts[0] + [sep] + Join(sep, parts[1..])
  }

  /** No part contains `x`. */
  ghost predicate NoneContain<T>(x: T, parts: seq<seq<T>>)
  {
    forall i :: 0 <= i < |parts| ==> x !in parts[i]
  }

  /** A symbol that is neither the separator nor in any part is not in the joined text. */
  lemma {:induction false} JoinAvoids<T>(x: T, sep: T, parts: seq<seq<T>>)
    requires x != sep && NoneContain(x, parts)
    ensures x !in Join(sep, parts)
  {
    if |parts| > 1 {
      JoinAvoids(x, sep, parts[1..]);
    }
  }

  /** Splitting at the first occurrence of a separator is unambiguous. */
  lemma SplitAtFirst<T>(sep: T, a: seq<T>, b: seq<T>, c: seq<T>, d: seq<T>)
    requires sep !in a && sep !in c
    requires a + [sep] + b == c + [sep] + d
    ensures a == c && b == d
  {
    var w := a + [sep] + b;
    assert |a| == |c| by {
      assert w[|a|] == sep && (c + [sep] + d)[|c|] == sep;
    }
    assert a == w[..|a|];
    assert c == (c + [sep] + d)[..|c|];
    assert b == w[|a| + 1..];
    assert d == (c + [sep] + d)[|c| + 1..];
  }

  /** The middle of `pre + x + post` is `x`. */
  lemma Middle<T>(pre: seq<T>, x: seq<T>, post: seq<T>)
    ensures (pre + x + post)[|pre|..|pre| + |x|] == x
  {
    var w := pre + x + post;
    assert forall i :: 0 <= i < |x| ==> w[|pre| + i] == x[i];
  }

  /** The separator occurs in the joined text of two or more parts. */
  lemma JoinHasSep<T>(sep: T, parts: seq<seq<T>>)
    requires |parts| > 1
    ensures sep in Join(sep, parts)
  {
    assert Join(sep, parts)[|parts[0]|] == sep;
  }

  /**
   * Joining is injective on non-empty lists of parts that do not contain the
   * separator: the joined text determines the parts.
   */
  lemma {:induction false} JoinInjective<T>(sep: T, p: seq<seq<T>>, q: seq<seq<T>>)
    requires |p| > 0 && |q| > 0
    requires NoneContain(sep, p) && NoneContain(sep, q)
    requires Join(sep, p) == Join(sep, q)
    ensures p == q
  {
    if |p| == 1 && |q| == 1 {
    } else if |p| == 1 {
      JoinHasSep(sep, q);
    } else if |q| == 1 {
      JoinHasSep(sep, p);
    } else {
      SplitAtFirst(sep, p[0], Join(sep, p[1..]), q[0], Join(sep, q[1..]));
      JoinInjective(sep, p[1..], q[1..]);
      assert p == [p[0]] + p[1..];
      assert q == [q[0]] + q[1..];
    }
  }

  function DigitChar(d: int): (ch: char)
    requires 0 <= d < 10
    ensures '0' <= ch <= '9'
  {
    "0123456789"[d]
  }

  function DigitValue(ch: char): (d: int)
    ensures 0 <= d < 10
  {
    if '0' <= ch <= '9' then ch as int - '0' as int else 0
  }

  /** Decimal digits of `n`, most significant first, without leading zeros. */
  function NatToString(n: nat): (s: string)
    ensures |s| > 0 && forall i :: 0 <= i < |s| ==> '0' <= s[i] <= '9'
  {
    if n < 10 then [DigitChar(n)] else NatToString(n / 10) + [DigitChar(n % 10)]
  }

  /** Python's `str(i)` for an integer. */
  function IntToString(i: int): (s: string)
    ensures |s| > 0
    ensures forall k :: 0 <= k < |s| ==> s[k] == '-' || '0' <= s[k] <= '9'
  {
    if i < 0 then "-" + NatToString(-i) else NatToString(i)
  }

  /** Reads a string of decimal digits back as a number. */
  function ParseNat(s: string): nat
  {
    if |s| == 0 then 0 else ParseNat(s[..|s| - 1]) * 10 + DigitValue(s[|s| - 1])
  }

  function ParseInt(s: string): int
  {
    if |s| > 0 && s[0] == '-' then -(ParseNat(s[1..]) as int) else ParseNat(s)
  }

  lemma {:induction false} ParseNatToString(n: nat)
    ensures ParseNat(NatToString(n)) == n
  {
    var s := NatToString(n);
    if n >= 10 {
      ParseNatToString(n / 10);
      assert s[..|s| - 1] == NatToString(n / 10);
      assert DigitValue(s[|s| - 1]) == n % 10;
    } else {
      assert DigitValue(s[0]) == n;
      assert s[..0] == [];
    }
  }

  /** Reading back the decimal rendering gives the original integer. */
  lemma ParseIntToString(i: int)
    ensures ParseInt(IntToString(i)) == i
  {
    if i < 0 {
      ParseNatToString(-i);
      assert IntToString(i)[1..] == NatToString(-i);
    } else {
      ParseNatToString(i);
    }
  }

  /** Distinct integers have distinct decimal renderings. */
  lemma IntToStringInjective(i: int, j: int)
    ensures IntToString(i) == IntToString(j) <==> i == j
  {
    if IntToString(i) == IntToString(j) {
      ParseIntToString(i);
      ParseIntToString(j);
    }
  }
}
