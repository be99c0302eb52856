/** UTC timestamps as Python's isoformat() writes them: the lock protocol stores
    and compares these strings, and the comparison is the chronological one. */
module IsoTime {
  import opened ByteOrder

  datatype Timestamp = Timestamp(year: nat, month: nat, day: nat, hour: nat, minute: nat, second: nat, micro: nat)

  predicate IsLeap(year: nat) {
    year % 4 == 0 && (year % 100 != 0 || year % 400 == 0)
  }

  function DaysInMonth(year: nat, month: nat): nat {
    if month == 2 then if IsLeap(year) then 29 else 28
    else if month in {4, 6, 9, 11} then 30
    else 31
  }

  predicate Valid(t: Timestamp) {
    && 1 <= t.year <= 9999 && 1 <= t.month <= 12 && 1 <= t.day <= DaysInMonth(t.year, t.month)
    && t.hour < 24 && t.minute < 60 && t.second < 60 && t.micro < 1_000_000
  }

  /** Days of the proleptic Gregorian calendar before a year and within one. */
  function DaysBeforeYear(year: nat): nat
    requires year >= 1
  {
    var y := year - 1;
    365 * y + y / 4 - y / 100 + y / 400
  }

  function DaysBeforeMonth(year: nat, month: nat): nat
    requires 1 <= month <= 13
  {
    if month == 1 then 0 else DaysBeforeMonth(year, month - 1) + DaysInMonth(year, month - 1)
  }

  const MICROS_PER_DAY: nat := 86_400_000_000

  function TimeOfDay(t: Timestamp): nat {
    ((t.hour * 60 + t.minute) * 60 + t.second) * 1_000_000 + t.micro
  }

  function DayNumber(t: Timestamp): int
    requires Valid(t)
  {
    DaysBeforeYear(t.year) + DaysBeforeMonth(t.year, t.month) + t.day - 1
  }

  /** Microseconds since the beginning of year 1. */
  function Instant(t: Timestamp): int
    requires Valid(t)
  {
    DayNumber(t) * MICROS_PER_DAY + TimeOfDay(t)
  }

  function Fraction(micro: nat): string {
    if micro == 0 then "" else "." + Fixed(micro, 6)
  }

  function Clock(t: Timestamp): string {
    Fixed(t.hour, 2) + (":" + (Fixed(t.minute, 2) + (":" + (Fixed(t.second, 2) + (Fraction(t.micro) + "+00:00")))))
  }

  /** datetime.isoformat() of an aware UTC timestamp; a zero fraction is omitted. */
  function Iso(t: Timestamp): string {
    Fixed(t.year, 4) + ("-" + (Fixed(t.month, 2) + ("-" + (Fixed(t.day, 2) + ("T" + Clock(t))))))
  }

  lemma ClockShape(t: Timestamp)
    ensures |Clock(t)| == 8 + (if t.micro == 0 then 6 else 13)
    ensures Clock(t)[2] == ':' && Clock(t)[5] == ':' && Clock(t)[8] == if t.micro == 0 then '+' else '.'
  {
    var zone := Fraction(t.micro) + "+00:00";
    assert Clock(t)[8..] == zone;
  }

  /** Dates and times in the extended format, the zone after the seconds or after
      six digits of a fraction. */
  lemma IsoShape(t: Timestamp)
    ensures |Iso(t)| == if t.micro == 0 then 25 else 32
    ensures Iso(t)[4] == '-' && Iso(t)[7] == '-' && Iso(t)[10] == 'T' && Iso(t)[13] == ':' && Iso(t)[16] == ':'
    ensures Iso(t)[19] == if t.micro == 0 then '+' else '.'
  {
    ClockShape(t);
    assert Iso(t)[11..] == Clock(t);
    assert forall i :: 0 <= i < |Clock(t)| ==> Iso(t)[11 + i] == Clock(t)[i];
  }

  /** No timestamp is the beginning of another. */
  lemma IsoNoPrefix(a: Timestamp, b: Timestamp)
    requires Iso(a) <= Iso(b)
    ensures Iso(a) == Iso(b)
  {
    IsoShape(a);
    IsoShape(b);
  }

  // ----- the calendar is monotone

  lemma {:induction false} MonthsGrow(year: nat, m1: nat, m2: nat)
    requires 1 <= m1 < m2 <= 13
    ensures DaysBeforeMonth(year, m1) + DaysInMonth(year, m1) <= DaysBeforeMonth(year, m2)
  {
    if m1 + 1 < m2 {
      MonthsGrow(year, m1, m2 - 1);
    }
  }

  lemma FourHundreds(y: nat, q: nat)
    requires y == 400 * q
    ensures y % 100 == 0
  {
    assert y == 100 * (4 * q);
  }

  lemma Hundreds(y: nat, q: nat)
    requires y == 100 * q
    ensures y % 4 == 0
  {
    assert y == 4 * (25 * q);
  }

  lemma Multiples(y: nat)
    ensures y % 400 == 0 ==> y % 100 == 0
    ensures y % 100 == 0 ==> y % 4 == 0
  {
    if y == 400 * (y / 400) {
      FourHundreds(y, y / 400);
    }
    if y == 100 * (y / 100) {
      Hundreds(y, y / 100);
    }
  }

  lemma LeapQuotients(y: nat)
    requires y >= 1
    ensures y / 4 == (y - 1) / 4 + if y % 4 == 0 then 1 else 0
    ensures y / 100 == (y - 1) / 100 + if y % 100 == 0 then 1 else 0
    ensures y / 400 == (y - 1) / 400 + if y % 400 == 0 then 1 else 0
  {
  }

  lemma LeapDays(year: nat)
    requires year >= 1
    ensures var y := year - 1;
            year / 4 - year / 100 + year / 400 == y / 4 - y / 100 + y / 400 + if IsLeap(year) then 1 else 0
  {
    LeapQuotients(year);
    Multiples(year);
  }

  lemma MonthsTotal(year: nat)
    ensures DaysBeforeMonth(year, 13) == DaysInMonth(year, 2) + 337
  {
    var feb := DaysInMonth(year, 2);
    assert DaysBeforeMonth(year, 2) == 31;
    assert DaysBeforeMonth(year, 4) == feb + 62;
    assert DaysBeforeMonth(year, 6) == feb + 123;
    assert DaysBeforeMonth(year, 8) == feb + 184;
    assert DaysBeforeMonth(year, 10) == feb + 245;
    assert DaysBeforeMonth(year, 12) == feb + 306;
  }

  lemma YearLength(year: nat)
    requires year >= 1
    ensures DaysBeforeYear(year + 1) == DaysBeforeYear(year) + DaysBeforeMonth(year, 13)
  {
    MonthsTotal(year);
    LeapDays(year);
  }

  lemma {:induction false} YearsGrow(y1: nat, y2: nat)
    requires 1 <= y1 < y2
    ensures DaysBeforeYear(y1) + DaysBeforeMonth(y1, 13) <= DaysBeforeYear(y2)
  {
    YearLength(y2 - 1);
    if y1 + 1 < y2 {
      YearsGrow(y1, y2 - 1);
    }
  }

  predicate DateBefore(a: Timestamp, b: Timestamp) {
    a.year < b.year || (a.year == b.year && (a.month < b.month || (a.month == b.month && a.day < b.day)))
  }

  lemma EarlierDateEarlierDay(a: Timestamp, b: Timestamp)
    requires Valid(a) && Valid(b) && DateBefore(a, b)
    ensures DayNumber(a) < DayNumber(b)
  {
    if a.year < b.year {
      YearsGrow(a.year, b.year);
      MonthsGrow(a.year, a.month, 13);
    } else if a.month < b.month {
      MonthsGrow(a.year, a.month, b.month);
    }
  }

  lemma DayDominates(a: Timestamp, b: Timestamp)
    requires Valid(a) && Valid(b)
    ensures TimeOfDay(a) < MICROS_PER_DAY
    ensures DayNumber(a) < DayNumber(b) ==> Instant(a) < Instant(b)
  {
  }

  // ----- strings compare as instants

  lemma SeparatorKeepsOrder(c: char, x: string, y: string)
    ensures Less([c] + x, [c] + y) <==> Less(x, y)
  {
  }

  /** The zone that follows an omitted fraction sorts before any fraction. */
  lemma FractionOrder(m: nat, n: nat)
    requires m < 1_000_000 && n < 1_000_000
    ensures Less(Fraction(m) + "+00:00", Fraction(n) + "+00:00") <==> m < n
  {
    var z := "+00:00";
    assert Pow10(6) == 1_000_000;
    if m == n {
      if Less(Fraction(m) + z, Fraction(m) + z) { LessAsymmetric(Fraction(m) + z, Fraction(m) + z); }
    } else if m > 0 && n > 0 {
      assert Fraction(m) + z == ['.'] + (Fixed(m, 6) + z) && Fraction(n) + z == ['.'] + (Fixed(n, 6) + z);
      SeparatorKeepsOrder('.', Fixed(m, 6) + z, Fixed(n, 6) + z);
      LessFixedFirst(m, n, 6, z, z);
    } else {
      assert (Fraction(m) + z)[0] == if m == 0 then '+' else '.';
      assert (Fraction(n) + z)[0] == if n == 0 then '+' else '.';
    }
  }

  lemma ClockOrder(a: Timestamp, b: Timestamp)
    requires Valid(a) && Valid(b)
    ensures Less(Clock(a), Clock(b)) <==> TimeOfDay(a) < TimeOfDay(b)
  {
    var xa, xb := Fraction(a.micro) + "+00:00", Fraction(b.micro) + "+00:00";
    assert Pow10(2) == 100;
    FractionOrder(a.micro, b.micro);
    LessFixedFirst(a.second, b.second, 2, xa, xb);
    var sa, sb := Fixed(a.second, 2) + xa, Fixed(b.second, 2) + xb;
    SeparatorKeepsOrder(':', sa, sb);
    LessFixedFirst(a.minute, b.minute, 2, ":" + sa, ":" + sb);
    var ma, mb := Fixed(a.minute, 2) + (":" + sa), Fixed(b.minute, 2) + (":" + sb);
    SeparatorKeepsOrder(':', ma, mb);
    LessFixedFirst(a.hour, b.hour, 2, ":" + ma, ":" + mb);
  }

  lemma IsoOrderByFields(a: Timestamp, b: Timestamp)
    requires Valid(a) && Valid(b)
    ensures Less(Iso(a), Iso(b))
            <==> DateBefore(a, b)
                 || (a.year == b.year && a.month == b.month && a.day == b.day && Less(Clock(a), Clock(b)))
  {
    assert Pow10(2) == 100 && Pow10(4) == 10_000;
    var ca, cb := Clock(a), Clock(b);
    SeparatorKeepsOrder('T', ca, cb);
    LessFixedFirst(a.day, b.day, 2, "T" + ca, "T" + cb);
    var da, db := Fixed(a.day, 2) + ("T" + ca), Fixed(b.day, 2) + ("T" + cb);
    SeparatorKeepsOrder('-', da, db);
    LessFixedFirst(a.month, b.month, 2, "-" + da, "-" + db);
    var ma, mb := Fixed(a.month, 2) + ("-" + da), Fixed(b.month, 2) + ("-" + db);
    SeparatorKeepsOrder('-', ma, mb);
    LessFixedFirst(a.year, b.year, 4, "-" + ma, "-" + mb);
  }

  /** Byte order on the stored strings is chronological order, also when a zero
      microsecond part was left out. */
  lemma IsoOrder(a: Timestamp, b: Timestamp)
    requires Valid(a) && Valid(b)
    ensures Less(Iso(a), Iso(b)) <==> Instant(a) < Instant(b)
  {
    IsoOrderByFields(a, b);
    ClockOrder(a, b);
    DayDominates(a, b);
    DayDominates(b, a);
    if DateBefore(a, b) {
      EarlierDateEarlierDay(a, b);
    } else if DateBefore(b, a) {
      EarlierDateEarlierDay(b, a);
    }
  }

  /** Texts that begin with a timestamp sort by time, then by the rest. */
  lemma IsoFirst(a: Timestamp, b: Timestamp, x: string, y: string)
    requires Valid(a) && Valid(b)
    ensures Less(Iso(a) + x, Iso(b) + y) <==> Instant(a) < Instant(b) || (Instant(a) == Instant(b) && Less(x, y))
  {
    IsoOrder(a, b);
    IsoOrder(b, a);
    LessTotal(Iso(a), Iso(b));
    if Iso(a) == Iso(b) {
      LessCommonPrefix(Iso(a), x, y);
      if Less(Iso(a), Iso(b)) { LessAsymmetric(Iso(a), Iso(b)); }
    } else {
      if Iso(a) <= Iso(b) { IsoNoPrefix(a, b); }
      if Iso(b) <= Iso(a) { IsoNoPrefix(b, a); }
      LessDiverging(Iso(a), Iso(b), x, y);
    }
  }

  /** The store's condition `lockExpiresAt <= :now` on strings decides exactly
      what the service's check on parsed timestamps decides. */
  lemma StoredExpiryCheckAgrees(lockExpiresAt: Timestamp, now: Timestamp)
    requires Valid(lockExpiresAt) && Valid(now)
    ensures Less(Iso(lockExpiresAt), Iso(now)) || Iso(lockExpiresAt) == Iso(now)
            <==> Instant(lockExpiresAt) <= Instant(now)
  {
    IsoOrder(lockExpiresAt, now);
    IsoOrder(now, lockExpiresAt);
    LessTotal(Iso(lockExpiresAt), Iso(now));
    if Iso(lockExpiresAt) == Iso(now) && Less(Iso(now), Iso(lockExpiresAt)) {
      LessAsymmetric(Iso(now), Iso(lockExpiresAt));
    }
  }
}
