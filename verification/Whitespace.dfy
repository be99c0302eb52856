/** Trimming of text, as Python's str.strip() does it. */
module Whitespace {
  /** The characters Python's str.strip() removes. */
  predicate IsSpace(c: char) {
    var n := c as int;
    9 <= n <= 13 || 28 <= n <= 32 || n in {133, 160, 5760, 8232, 8233, 8239, 8287, 12288} || 8192 <= n <= 8202
  }

  function StripLeft(s: string): (r: string)
    ensures r == [] || !IsSpace(r[0])
  {
    if s != [] && IsSpace(s[0]) then StripLeft(s[1..]) else s
  }

  function StripRight(s: string): (r: string)
    ensures r == [] || !IsSpace(r[|r| - 1])
    ensures r <= s
  {
    if s != [] && IsSpace(s[|s| - 1]) then StripRight(s[..|s| - 1]) else s
  }

  function Strip(s: string): string {
    StripRight(StripLeft(s))
  }

  lemma StripIsIdempotent(s: string)
    ensures Strip(Strip(s)) == Strip(s)
  {
    var l := StripLeft(s);
    var n := StripRight(l);
    if n != [] {
      assert n[0] == l[0] && StripLeft(n) == n && StripRight(n) == n;
    }
  }

  predicate AllSpace(s: string) {
    forall i :: 0 <= i < |s| ==> IsSpace(s[i])
  }

  /** Of the characters in everyday use only the blank and the controls are space. */
  lemma VisibleIsNoSpace(c: char)
    ensures '!' <= c <= '~' ==> !IsSpace(c)
    ensures IsSpace(' ') && IsSpace('\t') && IsSpace('\n') && IsSpace('\r')
  {
  }

  lemma {:induction false} LeftTaken(s: string) returns (a: string)
    ensures s == a + StripLeft(s) && AllSpace(a)
  {
    a := [];
    if s != [] && IsSpace(s[0]) {
      a := LeftTaken(s[1..]);
      a := [s[0]] + a;
    }
  }

  lemma {:induction false} RightTaken(s: string) returns (b: string)
    ensures s == StripRight(s) + b && AllSpace(b)
  {
    b := [];
    if s != [] && IsSpace(s[|s| - 1]) {
      b := RightTaken(s[..|s| - 1]);
      b := b + [s[|s| - 1]];
    }
  }

  /** Trimming takes away all space at both ends and nothing else. */
  lemma StripTakesTheEnds(s: string) returns (a: string, b: string)
    ensures s == a + Strip(s) + b && AllSpace(a) && AllSpace(b)
    ensures Strip(s) == [] || (!IsSpace(Strip(s)[0]) && !IsSpace(Strip(s)[|Strip(s)| - 1]))
  {
    a := LeftTaken(s);
    b := RightTaken(StripLeft(s));
  }

  lemma BlankIff(s: string)
    ensures Strip(s) == "" <==> AllSpace(s)
  {
    var a, b := StripTakesTheEnds(s);
    assert Strip(s) != "" ==> s[|a|] == Strip(s)[0];
  }

  /** So text without space at its ends stays as it is. */
  lemma TrimmedStays(s: string)
    requires s == [] || (!IsSpace(s[0]) && !IsSpace(s[|s| - 1]))
    ensures Strip(s) == s
  {
  }
}
