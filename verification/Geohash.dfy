/** Geohash encoding by interval halving, against its closed form: interleaved
    bits of the clamped cell indices of the two coordinates. */
module Geohash {
  const BASE32 := "0123456789bcdefghjkmnpqrstuvwxyz"

  /** Character d of the alphabet, spelled out by its five runs. */
  function Symbol(d: nat): (c: char)
    requires d < 32
  {
    if d < 10 then '0' + d as char
    else if d < 17 then 'b' + (d - 10) as char
    else if d < 19 then 'j' + (d - 17) as char
    else if d < 21 then 'm' + (d - 19) as char
    else 'p' + (d - 21) as char
  }

  lemma SymbolsSpellBase32(d: nat)
    requires d < 32
    ensures |BASE32| == 32 && BASE32[d] == Symbol(d)
  {
  }

  function Pow2(n: nat): (r: nat)
    ensures r > 0
  {
    if n == 0 then 1 else 2 * Pow2(n - 1)
  }

  /** A coordinate axis and its two ends. */
  datatype Axis = Axis(lo: real, hi: real)

  const LONGITUDE := Axis(-180.0, 180.0)
  const LATITUDE := Axis(-90.0, 90.0)

  predicate AxisOk(a: Axis) {
    a.lo < a.hi
  }

  /** The width of the cells after n halvings. */
  function Width(a: Axis, n: nat): (w: real)
    requires AxisOk(a)
    ensures w > 0.0
  {
    (a.hi - a.lo) / Pow2(n) as real
  }

  /** The number of the cell x falls in, clamped to the axis. */
  function Index(a: Axis, x: real, n: nat): (i: nat)
    requires AxisOk(a)
    ensures i < Pow2(n)
  {
    var i := ((x - a.lo) / Width(a, n)).Floor;
    if i < 0 then 0 else if i >= Pow2(n) then Pow2(n) - 1 else i
  }

  function Low(a: Axis, x: real, n: nat): real
    requires AxisOk(a)
  {
    a.lo + Index(a, x, n) as real * Width(a, n)
  }

  function High(a: Axis, x: real, n: nat): real
    requires AxisOk(a)
  {
    Low(a, x, n) + Width(a, n)
  }

  lemma WidthHalves(a: Axis, n: nat)
    requires AxisOk(a)
    ensures Width(a, n + 1) * 2.0 == Width(a, n)
  {
    var p := Pow2(n) as real;
    assert Pow2(n + 1) as real == 2.0 * p;
    assert (a.hi - a.lo) / (2.0 * p) * 2.0 == (a.hi - a.lo) / p;
  }

  lemma Scale(q: real, b: real, w: real)
    requires w > 0.0
    ensures q * w >= b * w <==> q >= b
  {
    if q >= b {
      assert (q - b) * w >= 0.0;
    } else {
      assert (b - q) * w > 0.0;
    }
  }

  /** Comparing with an edge is comparing the scaled position with its number. */
  lemma EdgeTest(a: Axis, x: real, n: nat, b: real)
    requires AxisOk(a)
    ensures x >= a.lo + b * Width(a, n) <==> (x - a.lo) / Width(a, n) >= b
  {
    var w := Width(a, n);
    var q := (x - a.lo) / w;
    assert q * w == x - a.lo;
    Scale(q, b, w);
  }

  lemma ScaledDoubles(a: Axis, x: real, n: nat)
    requires AxisOk(a)
    ensures (x - a.lo) / Width(a, n + 1) == 2.0 * ((x - a.lo) / Width(a, n))
  {
    WidthHalves(a, n);
    var w, d := Width(a, n + 1), x - a.lo;
    assert d / (w * 2.0) * 2.0 == d / w;
  }

  /** The next index bit: which half of its cell x lies in. */
  lemma NextIndex(a: Axis, x: real, n: nat)
    requires AxisOk(a)
    ensures var upper := x >= a.lo + (Index(a, x, n) as real + 0.5) * Width(a, n);
            Index(a, x, n + 1) == 2 * Index(a, x, n) + if upper then 1 else 0
  {
    var i := Index(a, x, n);
    EdgeTest(a, x, n, i as real + 0.5);
    ScaledDoubles(a, x, n);
    var q, q' := (x - a.lo) / Width(a, n), (x - a.lo) / Width(a, n + 1);
    assert q' == 2.0 * q && Pow2(n + 1) == 2 * Pow2(n);
  }

  lemma IndexFromHalf(a: Axis, x: real, n: nat)
    requires AxisOk(a)
    ensures Index(a, x, n + 1) == 2 * Index(a, x, n) + Index(a, x, n + 1) % 2
  {
    NextIndex(a, x, n);
  }

  lemma EdgeArithmetic(i: real, w: real)
    ensures (i + 0.5) * (w * 2.0) == i * (w * 2.0) + w
    ensures (2.0 * i) * w == i * (w * 2.0) && (2.0 * i + 1.0) * w == i * (w * 2.0) + w
  {
  }

  /** One halving step: comparing x with the middle of its cell yields the next
      index bit and the next cell. */
  lemma Halving(a: Axis, x: real, n: nat)
    requires AxisOk(a)
    ensures var mid := (Low(a, x, n) + High(a, x, n)) / 2.0;
            var i, i' := Index(a, x, n), Index(a, x, n + 1);
            if x >= mid then i' == 2 * i + 1 && Low(a, x, n + 1) == mid && High(a, x, n + 1) == High(a, x, n)
            else i' == 2 * i && Low(a, x, n + 1) == Low(a, x, n) && High(a, x, n + 1) == mid
  {
    NextIndex(a, x, n);
    WidthHalves(a, n);
    EdgeArithmetic(Index(a, x, n) as real, Width(a, n + 1));
  }

  // ----- from bits to characters

  type Bits = nat -> bool

  function Num(b: bool): nat {
    if b then 1 else 0
  }

  /** The first m bits of character j, as a number. */
  function Head(bits: Bits, j: nat, m: nat): (h: nat)
    ensures h < Pow2(m)
  {
    if m == 0 then 0 else 2 * Head(bits, j, m - 1) + Num(bits(5 * j + m - 1))
  }

  function CharAt(bits: Bits, j: nat): char {
    assert Pow2(5) == 32;
    Symbol(Head(bits, j, 5))
  }

  function Text(bits: Bits, precision: nat): (s: string)
    ensures |s| == precision
    ensures forall j :: 0 <= j < precision ==> s[j] == CharAt(bits, j)
  {
    if precision == 0 then "" else Text(bits, precision - 1) + [CharAt(bits, precision - 1)]
  }

  lemma {:induction false} SameBitsSameHead(b1: Bits, b2: Bits, j: nat, m: nat)
    ensures Head(b1, j, m) == Head(b2, j, m) <==> forall i :: 5 * j <= i < 5 * j + m ==> b1(i) == b2(i)
  {
    if m > 0 {
      SameBitsSameHead(b1, b2, j, m - 1);
    }
  }

  lemma SymbolsDistinct(i: nat, j: nat)
    requires i < 32 && j < 32
    ensures Symbol(i) == Symbol(j) <==> i == j
  {
  }

  lemma SameTextSameBits(b1: Bits, b2: Bits, precision: nat, i: nat)
    requires Text(b1, precision) == Text(b2, precision) && i < 5 * precision
    ensures b1(i) == b2(i)
  {
    var j := i / 5;
    assert CharAt(b1, j) == Text(b1, precision)[j] == Text(b2, precision)[j] == CharAt(b2, j) && Pow2(5) == 32;
    SymbolsDistinct(Head(b1, j, 5), Head(b2, j, 5));
    SameBitsSameHead(b1, b2, j, 5);
  }

  lemma SameBitsSameText(b1: Bits, b2: Bits, precision: nat)
    requires forall i :: 0 <= i < 5 * precision ==> b1(i) == b2(i)
    ensures Text(b1, precision) == Text(b2, precision)
  {
    forall j | 0 <= j < precision ensures Text(b1, precision)[j] == Text(b2, precision)[j] {
      SameBitsSameHead(b1, b2, j, 5);
    }
  }

  // ----- the closed form and the loop

  /** Bit i of the interleaving, longitude first: a bit of a cell number. */
  function IndexBits(lat: real, lon: real): Bits {
    (i: nat) => if i % 2 == 0 then Index(LONGITUDE, lon, i / 2 + 1) % 2 == 1
                else Index(LATITUDE, lat, i / 2 + 1) % 2 == 1
  }

  function Encode(lat: real, lon: real, precision: nat): string {
    Text(IndexBits(lat, lon), precision)
  }

  datatype Interval = Interval(lo: real, hi: real)

  function Mid(c: Interval): real {
    (c.lo + c.hi) / 2.0
  }

  function Halve(c: Interval, x: real): Interval {
    if x >= Mid(c) then Interval(Mid(c), c.hi) else Interval(c.lo, Mid(c))
  }

  function Halved(a: Axis, x: real, n: nat): Interval {
    if n == 0 then Interval(a.lo, a.hi) else Halve(Halved(a, x, n - 1), x)
  }

  function HalvingBits(lat: real, lon: real): Bits {
    (i: nat) => if i % 2 == 0 then lon >= Mid(Halved(LONGITUDE, lon, i / 2))
                else lat >= Mid(Halved(LATITUDE, lat, i / 2))
  }

  /** Repeated halving ends in the cell that the index names. */
  lemma {:induction false} HalvedIsCell(a: Axis, x: real, n: nat)
    requires AxisOk(a)
    ensures Halved(a, x, n) == Interval(Low(a, x, n), High(a, x, n))
  {
    if n == 0 {
      assert Pow2(0) == 1 && Index(a, x, 0) == 0;
    } else {
      HalvedIsCell(a, x, n - 1);
      Halving(a, x, n - 1);
    }
  }

  lemma HalvingGivesIndexBit(a: Axis, x: real, n: nat)
    requires AxisOk(a)
    ensures x >= Mid(Halved(a, x, n)) <==> Index(a, x, n + 1) % 2 == 1
  {
    HalvedIsCell(a, x, n);
    Halving(a, x, n);
  }

  lemma HalvingEncodes(lat: real, lon: real, precision: nat)
    ensures Text(HalvingBits(lat, lon), precision) == Encode(lat, lon, precision)
  {
    forall i: nat | i < 5 * precision ensures HalvingBits(lat, lon)(i) == IndexBits(lat, lon)(i) {
      if i % 2 == 0 {
        HalvingGivesIndexBit(LONGITUDE, lon, i / 2);
      } else {
        HalvingGivesIndexBit(LATITUDE, lat, i / 2);
      }
    }
    SameBitsSameText(HalvingBits(lat, lon), IndexBits(lat, lon), precision);
  }

  /** 1 << (4 - bit) */
  function Weight(bit: nat): nat
    requires bit < 5
  {
    match bit
    case 0 => 16
    case 1 => 8
    case 2 => 4
    case 3 => 2
    case 4 => 1
  }

  /** The value of `ch` after m bits: setting a bit that is still clear adds it. */
  function Partial(bits: Bits, j: nat, m: nat): nat
    requires m <= 5
  {
    if m == 0 then 0 else Partial(bits, j, m - 1) + if bits(5 * j + m - 1) then Weight(m - 1) else 0
  }

  lemma PartialIsHead(bits: Bits, j: nat)
    ensures Partial(bits, j, 5) == Head(bits, j, 5)
  {
    var h1, h2, h3, h4 := Head(bits, j, 1), Head(bits, j, 2), Head(bits, j, 3), Head(bits, j, 4);
    assert Partial(bits, j, 1) == 16 * h1;
    assert Partial(bits, j, 2) == 8 * h2;
    assert Partial(bits, j, 3) == 4 * h3;
    assert Partial(bits, j, 4) == 2 * h4;
  }

  lemma NextCharacter(bits: Bits, text: string, ch: nat)
    requires text == Text(bits, |text|) && ch == Partial(bits, |text|, 5)
    ensures ch < 32 && text + [Symbol(ch)] == Text(bits, |text| + 1)
  {
    PartialIsHead(bits, |text|);
    assert Pow2(5) == 32;
  }

  lemma NextBit(bits: Bits, j: nat, bit: nat, ch: nat, upper: bool)
    requires bit < 5 && ch == Partial(bits, j, bit) && upper == bits(5 * j + bit)
    ensures (if upper then ch + Weight(bit) else ch) == Partial(bits, j, bit + 1)
  {
  }

  type Intervals = nat -> Interval

  /** The n-th comparison of each coordinate with the middle of its interval, and
      the interval that follows. */
  ghost predicate Splits(bits: Bits, lons: Intervals, lats: Intervals, lat: real, lon: real, n: nat) {
    && (bits(2 * n) <==> lon >= Mid(lons(n))) && lons(n + 1) == Halve(lons(n), lon)
    && (bits(2 * n + 1) <==> lat >= Mid(lats(n))) && lats(n + 1) == Halve(lats(n), lat)
  }

  /** The part of the loop body that both coordinates share. */
  method HalveAt(c: Interval, x: real) returns (upper: bool, half: Interval)
    ensures upper <==> x >= Mid(c)
    ensures half == Halve(c, x)
  {
    var mid := (c.lo + c.hi) / 2.0;
    upper := x >= mid;
    half := if upper then c.(lo := mid) else c.(hi := mid);
  }

  /** What the bits taken so far have come to. */
  ghost predicate Emitted(bits: Bits, geohash: string, bit: nat, ch: nat) {
    bit < 5 && geohash == Text(bits, |geohash|) && ch == Partial(bits, |geohash|, bit)
  }

  /** The rest of the loop body: another bit, and after five of them a character. */
  method TakeBit(geohash: string, bit: nat, ch: nat, upper: bool, ghost bits: Bits, ghost i: nat)
    returns (geohash': string, bit': nat, ch': nat)
    requires Emitted(bits, geohash, bit, ch)
    requires i == 5 * |geohash| + bit && upper == bits(i)
    ensures Emitted(bits, geohash', bit', ch')
    ensures |geohash'| == (if bit == 4 then |geohash| + 1 else |geohash|) && bit' == if bit == 4 then 0 else bit + 1
  {
    NextBit(bits, |geohash|, bit, ch, upper);
    geohash', bit', ch' := geohash, bit + 1, ch;
    if upper {
      ch' := ch' + Weight(bit);
    }
    if bit' == 5 {
      NextCharacter(bits, geohash, ch');
      geohash' := geohash' + [Symbol(ch')];
      bit', ch' := 0, 0;
    }
  }

  /** The ranges after n comparisons of each coordinate, and one more of the
      longitude when it is the latitude's turn. */
  ghost predicate RangesAt(lonRange: Interval, latRange: Interval, lons: Intervals, lats: Intervals, even: bool, n: nat)
  {
    lonRange == lons(if even then n else n + 1) && latRange == lats(n)
  }

  /** The comparison whose turn it is. */
  method HalveNext(even: bool, lonRange: Interval, latRange: Interval, latitude: real, longitude: real,
                   ghost bits: Bits, ghost lons: Intervals, ghost lats: Intervals, ghost n: nat)
    returns (upper: bool, lonRange': Interval, latRange': Interval)
    requires RangesAt(lonRange, latRange, lons, lats, even, n)
    requires Splits(bits, lons, lats, latitude, longitude, n)
    ensures upper == bits(if even then 2 * n else 2 * n + 1)
    ensures RangesAt(lonRange', latRange', lons, lats, !even, if even then n else n + 1)
  {
    lonRange', latRange' := lonRange, latRange;
    if even {
      upper, lonRange' := HalveAt(lonRange, longitude);
    } else {
      upper, latRange' := HalveAt(latRange, latitude);
    }
  }

  method EncodeLoop(latitude: real, longitude: real, precision: nat, ghost bits: Bits, ghost lons: Intervals,
                    ghost lats: Intervals)
    returns (geohash: string)
    requires forall n: nat :: Splits(bits, lons, lats, latitude, longitude, n)
    requires lons(0) == Interval(-180.0, 180.0) && lats(0) == Interval(-90.0, 90.0)
    ensures geohash == Text(bits, precision)
  {
    var latRange, lonRange := Interval(-90.0, 90.0), Interval(-180.0, 180.0);
    geohash := "";
    var bit, ch, even, upper := 0, 0, true, false;
    ghost var n, i := 0, 0;
    while |geohash| < precision
      invariant |geohash| <= precision && (|geohash| == precision ==> bit == 0)
      invariant i == 5 * |geohash| + bit == if even then 2 * n else 2 * n + 1
      invariant Emitted(bits, geohash, bit, ch)
      invariant RangesAt(lonRange, latRange, lons, lats, even, n)
      decreases precision - |geohash|, 5 - bit
    {
      upper, lonRange, latRange := HalveNext(even, lonRange, latRange, latitude, longitude, bits, lons, lats, n);
      n := if even then n else n + 1;
      even := !even;
      geohash, bit, ch := TakeBit(geohash, bit, ch, upper, bits, i);
      i := i + 1;
    }
  }

  /** The loop of the service computes the interleaved cell indices. */
  method EncodeGeohash(latitude: real, longitude: real, precision: nat) returns (geohash: string)
    ensures geohash == Encode(latitude, longitude, precision)
  {
    ghost var bits := HalvingBits(latitude, longitude);
    ghost var lons: Intervals := (n: nat) => Halved(LONGITUDE, longitude, n);
    ghost var lats: Intervals := (n: nat) => Halved(LATITUDE, latitude, n);
    forall n: nat ensures Splits(bits, lons, lats, latitude, longitude, n) {
      assert lons(n + 1) == Halve(lons(n), longitude) && lats(n + 1) == Halve(lats(n), latitude);
    }
    geohash := EncodeLoop(latitude, longitude, precision, bits, lons, lats);
    HalvingEncodes(latitude, longitude, precision);
  }

  /** One cell by its ends: Thailand lies in w. */
  lemma CellOfW(lat: real, lon: real)
    requires 0.0 <= lat < 45.0 && 90.0 <= lon < 135.0
    ensures Encode(lat, lon, 1) == "w"
  {
    var b := HalvingBits(lat, lon);
    assert Halved(LONGITUDE, lon, 1) == Interval(0.0, 180.0) && Halved(LATITUDE, lat, 1) == Interval(0.0, 90.0);
    assert Halved(LONGITUDE, lon, 2) == Interval(90.0, 180.0);
    assert b(0) && b(1) && b(2) && !b(3) && !b(4);
    var h2, h4 := Head(b, 0, 2), Head(b, 0, 4);
    assert h2 == 2 * Head(b, 0, 1) + 1 && Head(b, 0, 1) == 2 * Head(b, 0, 0) + 1;
    assert h4 == 2 * Head(b, 0, 3) && Head(b, 0, 3) == 2 * h2 + 1;
    assert Head(b, 0, 5) == 2 * h4 == 28;
    assert CharAt(b, 0) == 'w';
    HalvingEncodes(lat, lon, 1);
  }

  // ----- what the code means

  /** A lower precision gives a prefix of a higher one. */
  lemma {:induction false} Prefix(lat: real, lon: real, p: nat, q: nat)
    requires p <= q
    ensures Encode(lat, lon, p) <= Encode(lat, lon, q)
  {
  }

  /** The cell contains the point; only the upper end of the axis sits on its edge. */
  lemma CellContainsPoint(a: Axis, x: real, n: nat)
    requires AxisOk(a) && a.lo <= x <= a.hi
    ensures Low(a, x, n) <= x <= High(a, x, n)
    ensures x < a.hi ==> x < High(a, x, n)
  {
    var i, w := Index(a, x, n), Width(a, n);
    EdgeTest(a, x, n, i as real);
    EdgeTest(a, x, n, i as real + 1.0);
    EdgeTest(a, x, n, Pow2(n) as real);
    EdgeTest(a, x, n, 0.0);
    assert (i as real + 1.0) * w == i as real * w + w;
    assert Pow2(n) as real * w == a.hi - a.lo;
  }

  /** The lower corner of a cell lies in that cell. */
  lemma CornerIndex(a: Axis, x: real, n: nat)
    requires AxisOk(a)
    ensures Index(a, Low(a, x, n), n) == Index(a, x, n)
  {
    var i, w := Index(a, x, n), Width(a, n);
    assert (Low(a, x, n) - a.lo) / w == i as real * w / w == i as real;
  }

  /** Equal indices at n halvings are equal at every coarser level. */
  lemma {:induction false} IndexCoarsens(a: Axis, x: real, y: real, n: nat, k: nat)
    requires AxisOk(a) && k <= n && Index(a, x, n) == Index(a, y, n)
    ensures Index(a, x, k) == Index(a, y, k)
  {
    if k < n {
      IndexFromHalf(a, x, n - 1);
      IndexFromHalf(a, y, n - 1);
      IndexCoarsens(a, x, y, n - 1, k);
    }
  }

  /** Halvings made on each axis for a given number of characters. */
  function LonBits(precision: nat): nat {
    (5 * precision + 1) / 2
  }

  function LatBits(precision: nat): nat {
    5 * precision / 2
  }

  predicate SameCell(lat1: real, lon1: real, lat2: real, lon2: real, precision: nat) {
    && Index(LONGITUDE, lon1, LonBits(precision)) == Index(LONGITUDE, lon2, LonBits(precision))
    && Index(LATITUDE, lat1, LatBits(precision)) == Index(LATITUDE, lat2, LatBits(precision))
  }

  lemma SameCellSameText(lat1: real, lon1: real, lat2: real, lon2: real, precision: nat)
    requires SameCell(lat1, lon1, lat2, lon2, precision)
    ensures Encode(lat1, lon1, precision) == Encode(lat2, lon2, precision)
  {
    forall i: nat | i < 5 * precision ensures IndexBits(lat1, lon1)(i) == IndexBits(lat2, lon2)(i) {
      if i % 2 == 0 {
        IndexCoarsens(LONGITUDE, lon1, lon2, LonBits(precision), i / 2 + 1);
      } else {
        IndexCoarsens(LATITUDE, lat1, lat2, LatBits(precision), i / 2 + 1);
      }
    }
    SameBitsSameText(IndexBits(lat1, lon1), IndexBits(lat2, lon2), precision);
  }

  lemma {:induction false} IndexFromBits(a: Axis, x: real, y: real, n: nat)
    requires AxisOk(a) && forall k :: 1 <= k <= n ==> Index(a, x, k) % 2 == Index(a, y, k) % 2
    ensures Index(a, x, n) == Index(a, y, n)
  {
    if n > 0 {
      IndexFromBits(a, x, y, n - 1);
      IndexFromHalf(a, x, n - 1);
      IndexFromHalf(a, y, n - 1);
    } else {
      assert Pow2(0) == 1;
    }
  }

  lemma SameLongitudeBits(lat1: real, lon1: real, lat2: real, lon2: real, precision: nat)
    requires forall i: nat :: i < 5 * precision ==> IndexBits(lat1, lon1)(i) == IndexBits(lat2, lon2)(i)
    ensures forall k :: 1 <= k <= LonBits(precision) ==> Index(LONGITUDE, lon1, k) % 2 == Index(LONGITUDE, lon2, k) % 2
  {
    forall k | 1 <= k <= LonBits(precision) ensures Index(LONGITUDE, lon1, k) % 2 == Index(LONGITUDE, lon2, k) % 2 {
      var i := 2 * (k - 1);
      assert i % 2 == 0 && i / 2 + 1 == k && IndexBits(lat1, lon1)(i) == IndexBits(lat2, lon2)(i);
    }
  }

  lemma SameLatitudeBits(lat1: real, lon1: real, lat2: real, lon2: real, precision: nat)
    requires forall i: nat :: i < 5 * precision ==> IndexBits(lat1, lon1)(i) == IndexBits(lat2, lon2)(i)
    ensures forall k :: 1 <= k <= LatBits(precision) ==> Index(LATITUDE, lat1, k) % 2 == Index(LATITUDE, lat2, k) % 2
  {
    forall k | 1 <= k <= LatBits(precision) ensures Index(LATITUDE, lat1, k) % 2 == Index(LATITUDE, lat2, k) % 2 {
      var i := 2 * k - 1;
      assert i % 2 == 1 && i / 2 + 1 == k && IndexBits(lat1, lon1)(i) == IndexBits(lat2, lon2)(i);
    }
  }

  lemma SameTextSameCell(lat1: real, lon1: real, lat2: real, lon2: real, precision: nat)
    requires Encode(lat1, lon1, precision) == Encode(lat2, lon2, precision)
    ensures SameCell(lat1, lon1, lat2, lon2, precision)
  {
    var b1, b2 := IndexBits(lat1, lon1), IndexBits(lat2, lon2);
    forall i: nat | i < 5 * precision ensures b1(i) == b2(i) {
      SameTextSameBits(b1, b2, precision, i);
    }
    SameLongitudeBits(lat1, lon1, lat2, lon2, precision);
    SameLatitudeBits(lat1, lon1, lat2, lon2, precision);
    IndexFromBits(LONGITUDE, lon1, lon2, LonBits(precision));
    IndexFromBits(LATITUDE, lat1, lat2, LatBits(precision));
  }

  /** Two points get one code exactly when they lie in one cell. */
  lemma SameCodeIffSameCell(lat1: real, lon1: real, lat2: real, lon2: real, precision: nat)
    ensures Encode(lat1, lon1, precision) == Encode(lat2, lon2, precision)
            <==> SameCell(lat1, lon1, lat2, lon2, precision)
  {
    if SameCell(lat1, lon1, lat2, lon2, precision) {
      SameCellSameText(lat1, lon1, lat2, lon2, precision);
    }
    if Encode(lat1, lon1, precision) == Encode(lat2, lon2, precision) {
      SameTextSameCell(lat1, lon1, lat2, lon2, precision);
    }
  }

  /** Encoding the lower corner of a point's cell returns the point's code. */
  lemma CornerRoundTrip(lat: real, lon: real, precision: nat)
    ensures Encode(Low(LATITUDE, lat, LatBits(precision)), Low(LONGITUDE, lon, LonBits(precision)), precision)
            == Encode(lat, lon, precision)
  {
    CornerIndex(LATITUDE, lat, LatBits(precision));
    CornerIndex(LONGITUDE, lon, LonBits(precision));
    SameCellSameText(Low(LATITUDE, lat, LatBits(precision)), Low(LONGITUDE, lon, LonBits(precision)), lat, lon,
                     precision);
  }

  function Distance(x: real, y: real): real {
    if x < y then y - x else x - y
  }

  lemma SameIndexClose(a: Axis, x: real, y: real, n: nat)
    requires AxisOk(a) && a.lo <= x <= a.hi && a.lo <= y <= a.hi && Index(a, x, n) == Index(a, y, n)
    ensures Distance(x, y) <= Width(a, n)
  {
    CellContainsPoint(a, x, n);
    CellContainsPoint(a, y, n);
    assert Low(a, x, n) == Low(a, y, n);
  }
}
