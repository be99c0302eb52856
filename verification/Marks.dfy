/** Texts joined by a mark, and when they can be taken apart again. */
module Marks {
  predicate Without(s: string, mark: char) {
    forall i :: 0 <= i < |s| ==> s[i] != mark
  }

  /** What stands before the first mark, and what after it. */
  lemma SplitAtFirst(p: string, q: string, x: string, y: string, mark: char)
    requires p + [mark] + x == q + [mark] + y && Without(p, mark) && Without(q, mark)
    ensures p == q && x == y
  {
    var s, t := p + [mark] + x, q + [mark] + y;
    assert s[|p|] == mark && t[|q|] == mark;
    assert p == s[..|p|] && q == t[..|q|];
    assert x == s[|p| + 1..] && y == t[|q| + 1..];
  }

  lemma LastMarkPosition(a: string, x: string, i: nat, mark: char)
    requires Without(x, mark) && i < |a| + 1 + |x| && (a + [mark] + x)[i] == mark
    ensures i <= |a|
  {
  }

  /** What stands before the last mark, and what after it. */
  lemma SplitAtLast(a: string, b: string, x: string, y: string, mark: char)
    requires a + [mark] + x == b + [mark] + y && Without(x, mark) && Without(y, mark)
    ensures a == b && x == y
  {
    var s, t := a + [mark] + x, b + [mark] + y;
    assert s[|a|] == mark && t[|b|] == mark;
    LastMarkPosition(a, x, |b|, mark);
    LastMarkPosition(b, y, |a|, mark);
    assert a == s[..|a|] && b == t[..|b|];
    assert x == s[|a| + 1..] && y == t[|b| + 1..];
  }
}
