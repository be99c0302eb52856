/** The byte order that the key-value store uses for string keys and string
    comparisons, and the zero-padded decimals that the service sorts by. */
module ByteOrder {
  predicate Less(a: string, b: string) {
    b != [] && (a == [] || a[0] < b[0] || (a[0] == b[0] && Less(a[1..], b[1..])))
  }

  lemma {:induction false} LessTotal(a: string, b: string)
    ensures a == b || Less(a, b) || Less(b, a)
  {
    if a != [] && b != [] && a[0] == b[0] {
      LessTotal(a[1..], b[1..]);
      assert a == [a[0]] + a[1..] && b == [b[0]] + b[1..];
    }
  }

  lemma {:induction false} LessAsymmetric(a: string, b: string)
    requires Less(a, b)
    ensures !Less(b, a) && a != b
  {
    if a != [] && a[0] == b[0] {
      LessAsymmetric(a[1..], b[1..]);
    }
  }

  lemma {:induction false} LessTransitive(a: string, b: string, c: string)
    requires Less(a, b) && Less(b, c)
    ensures Less(a, c)
  {
    if a != [] && a[0] == b[0] == c[0] {
      LessTransitive(a[1..], b[1..], c[1..]);
    }
  }

  /** A common prefix does not affect the order. */
  lemma {:induction false} LessCommonPrefix(p: string, a: string, b: string)
    ensures Less(p + a, p + b) <==> Less(a, b)
  {
    if p == [] {
      assert p + a == a && p + b == b;
    } else {
      LessCommonPrefix(p[1..], a, b);
      assert (p + a)[1..] == p[1..] + a && (p + b)[1..] == p[1..] + b;
    }
  }

  /** Different heads of one length decide the order, whatever follows. */
  lemma {:induction false} LessByHead(a: string, b: string, x: string, y: string)
    requires |a| == |b| && a != b
    ensures Less(a + x, b + y) <==> Less(a, b)
  {
    assert (a + x)[0] == a[0] && (b + y)[0] == b[0];
    if a[0] == b[0] {
      assert a == [a[0]] + a[1..] && b == [b[0]] + b[1..];
      LessByHead(a[1..], b[1..], x, y);
      assert (a + x)[1..] == a[1..] + x && (b + y)[1..] == b[1..] + y;
    }
  }

  /** Heads that differ decide the order, whatever follows. */
  lemma {:induction false} LessDiverging(a: string, b: string, x: string, y: string)
    requires !(a <= b) && !(b <= a)
    ensures Less(a + x, b + y) <==> Less(a, b)
  {
    assert (a + x)[0] == a[0] && (b + y)[0] == b[0];
    if a[0] == b[0] {
      assert a == [a[0]] + a[1..] && b == [b[0]] + b[1..];
      LessDiverging(a[1..], b[1..], x, y);
      assert (a + x)[1..] == a[1..] + x && (b + y)[1..] == b[1..] + y;
    }
  }

  function Pow10(w: nat): (r: nat)
    ensures r > w
  {
    if w == 0 then 1 else 10 * Pow10(w - 1)
  }

  predicate IsDigit(c: char) {
    '0' <= c <= '9'
  }

  function Digit(d: nat): (c: char)
    requires d < 10
    ensures IsDigit(c) && c as int == '0' as int + d
  {
    '0' + d as char
  }

  /** The last w decimal digits of n, most significant first. */
  function Fixed(n: nat, w: nat): (s: string)
    ensures |s| == w
    ensures forall i :: 0 <= i < w ==> IsDigit(s[i])
  {
    if w == 0 then [] else Fixed(n / 10, w - 1) + [Digit(n % 10)]
  }

  /** Python's format `{n:0wd}`: padded to width w, and wider when n needs it. */
  function Padded(n: nat, w: nat): (s: string)
    ensures |s| >= w
    ensures forall i :: 0 <= i < |s| ==> IsDigit(s[i])
    decreases n - w
  {
    if n < Pow10(w) then Fixed(n, w) else Padded(n, w + 1)
  }

  /** Fixed-width decimals sort as numbers. */
  lemma {:induction false} FixedOrder(n: nat, m: nat, w: nat)
    requires n < Pow10(w) && m < Pow10(w)
    ensures Less(Fixed(n, w), Fixed(m, w)) <==> n < m
    ensures Fixed(n, w) == Fixed(m, w) <==> n == m
  {
    if w > 0 {
      FixedOrder(n / 10, m / 10, w - 1);
      var a, b := Fixed(n / 10, w - 1), Fixed(m / 10, w - 1);
      var x, y := [Digit(n % 10)], [Digit(m % 10)];
      assert Fixed(n, w)[..w - 1] == a && Fixed(m, w)[..w - 1] == b;
      assert Fixed(n, w)[w - 1] == x[0] && Fixed(m, w)[w - 1] == y[0];
      if a == b {
        LessCommonPrefix(a, x, y);
        assert Less(x, y) <==> x[0] < y[0];
      } else {
        LessByHead(a, b, x, y);
      }
    }
  }

  /** How wide a number gets when it is padded to at least w digits. */
  function Width(n: nat, w: nat): (d: nat)
    ensures d >= w && n < Pow10(d) && (d > w ==> Pow10(d - 1) <= n)
    decreases n - w
  {
    if n < Pow10(w) then w else Width(n, w + 1)
  }

  lemma {:induction false} PaddedIsFixed(n: nat, w: nat)
    ensures Padded(n, w) == Fixed(n, Width(n, w))
    decreases n - w
  {
    if n >= Pow10(w) {
      PaddedIsFixed(n, w + 1);
    }
  }

  lemma {:induction false} Pow10Grows(e: nat, d: nat)
    requires e <= d
    ensures Pow10(e) <= Pow10(d)
  {
    if e < d {
      Pow10Grows(e, d - 1);
    }
  }

  lemma WidthIs(n: nat, w: nat, d: nat)
    requires d >= w && n < Pow10(d) && (d > w ==> Pow10(d - 1) <= n)
    ensures Width(n, w) == d
  {
    var e := Width(n, w);
    if e < d {
      Pow10Grows(e, d - 1);
    } else if d < e {
      Pow10Grows(d, e - 1);
    }
  }

  /** Zero-padded numbers sort as numbers while they fit the padding. */
  lemma PaddedOrder(n: nat, m: nat, w: nat)
    requires n < Pow10(w) && m < Pow10(w)
    ensures Less(Padded(n, w), Padded(m, w)) <==> n < m
    ensures Padded(n, w) == Padded(m, w) <==> n == m
  {
    FixedOrder(n, m, w);
  }

  /** A fixed-width number first: it decides, and a tie leaves it to the rest. */
  lemma LessFixedFirst(n: nat, m: nat, w: nat, x: string, y: string)
    requires n < Pow10(w) && m < Pow10(w)
    ensures Less(Fixed(n, w) + x, Fixed(m, w) + y) <==> n < m || (n == m && Less(x, y))
  {
    FixedOrder(n, m, w);
    if n == m {
      LessCommonPrefix(Fixed(n, w), x, y);
    } else {
      LessByHead(Fixed(n, w), Fixed(m, w), x, y);
    }
  }

  /** The number a string of digits stands for. */
  function ValueOf(s: string): int {
    if s == [] then 0 else 10 * ValueOf(s[..|s| - 1]) + (s[|s| - 1] as int - '0' as int)
  }

  lemma {:induction false} FixedValue(n: nat, w: nat)
    requires n < Pow10(w)
    ensures ValueOf(Fixed(n, w)) == n
  {
    if w > 0 {
      FixedValue(n / 10, w - 1);
      assert Fixed(n, w)[..w - 1] == Fixed(n / 10, w - 1);
    }
  }

  /** Padding loses nothing, whether or not the number fits it. */
  lemma {:induction false} PaddedValue(n: nat, w: nat)
    ensures ValueOf(Padded(n, w)) == n
    decreases n - w
  {
    if n < Pow10(w) {
      FixedValue(n, w);
    } else {
      PaddedValue(n, w + 1);
    }
  }
}
