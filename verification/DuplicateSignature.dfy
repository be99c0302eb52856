/** The string that is hashed into a duplicate signature, and what two
    submissions with one signature have in common. */
module DuplicateSignature {
  import opened ByteOrder
  import opened Marks
  import IsoTime
  import Geo = Geohash

  // ----- phone numbers

  /** What `\d` matches; nothing below depends on it beyond '|' and '+'. */
  type DigitClass = char -> bool

  predicate DigitClassOk(digit: DigitClass) {
    !digit('|') && !digit('+') && digit('0')
  }

  function Keep(keep: char -> bool, s: string): (r: string)
    ensures forall i :: 0 <= i < |r| ==> keep(r[i])
  {
    if s == [] then [] else (if keep(s[0]) then [s[0]] else []) + Keep(keep, s[1..])
  }

  function DigitOrPlus(digit: DigitClass): DigitClass {
    c => digit(c) || c == '+'
  }

  function NormalizePhone(digit: DigitClass, phone: string): (r: string)
    ensures forall i :: 0 <= i < |r| ==> digit(r[i])
  {
    var digits := Keep(DigitOrPlus(digit), phone);
    var national :=
      if "+66" <= digits then "0" + digits[3..]
      else if "66" <= digits && |digits| > 9 then "0" + digits[2..]
      else digits;
    Keep(digit, national)
  }

  predicate AllDigits(digit: DigitClass, s: string) {
    forall i :: 0 <= i < |s| ==> digit(s[i])
  }

  lemma {:induction false} KeepAppend(keep: char -> bool, a: string, b: string)
    ensures Keep(keep, a + b) == Keep(keep, a) + Keep(keep, b)
  {
    if a == [] {
      assert a + b == b;
    } else {
      assert (a + b)[1..] == a[1..] + b;
      KeepAppend(keep, a[1..], b);
    }
  }

  lemma {:induction false} KeepAll(keep: char -> bool, s: string)
    requires forall i :: 0 <= i < |s| ==> keep(s[i])
    ensures Keep(keep, s) == s
  {
    if s != [] {
      KeepAll(keep, s[1..]);
    }
  }

  /** Blanks, dashes and brackets do not matter. */
  lemma SeparatorsDoNotMatter(digit: DigitClass, a: string, c: char, b: string)
    requires !digit(c) && c != '+'
    ensures NormalizePhone(digit, a + [c] + b) == NormalizePhone(digit, a + b)
  {
    var keep := DigitOrPlus(digit);
    KeepAppend(keep, a + [c], b);
    KeepAppend(keep, a, [c]);
    KeepAppend(keep, a, b);
    assert !keep([c][0]) && [c][1..] == [];
    assert Keep(keep, [c]) == [] + Keep(keep, [c][1..]) == [];
    assert Keep(keep, a + [c] + b) == Keep(keep, a + b);
  }

  lemma DigitsAreKept(digit: DigitClass, before: string, d: string)
    requires AllDigits(digit, d) && forall i :: 0 <= i < |before| ==> digit(before[i]) || before[i] == '+'
    ensures Keep(DigitOrPlus(digit), before + d) == before + d && Keep(digit, d) == d
    ensures AllDigits(digit, before) ==> Keep(digit, before + d) == before + d
  {
    KeepAll(DigitOrPlus(digit), before + d);
    KeepAll(digit, d);
    if AllDigits(digit, before) {
      KeepAll(digit, before + d);
    }
  }

  /** A number with the country code is the national one. */
  lemma InternationalPhone(digit: DigitClass, d: string)
    requires DigitClassOk(digit) && digit('6') && AllDigits(digit, d)
    ensures NormalizePhone(digit, "+66" + d) == "0" + d
  {
    DigitsAreKept(digit, "+66", d);
    DigitsAreKept(digit, "0", d);
    assert ("+66" + d)[3..] == d;
  }

  /** Without the plus that takes more than nine digits. */
  lemma BareCountryCode(digit: DigitClass, d: string)
    requires DigitClassOk(digit) && digit('6') && AllDigits(digit, d)
    ensures NormalizePhone(digit, "66" + d) == if |d| > 7 then "0" + d else "66" + d
  {
    var phone := "66" + d;
    DigitsAreKept(digit, "66", d);
    DigitsAreKept(digit, "0", d);
    assert phone[2..] == d && phone[0] != '+' && "66" <= phone;
  }

  /** Any other string of digits stays as it is. */
  lemma NationalPhone(digit: DigitClass, d: string)
    requires DigitClassOk(digit) && AllDigits(digit, d) && !("66" <= d && |d| > 9)
    ensures NormalizePhone(digit, d) == d
  {
    DigitsAreKept(digit, "", d);
    assert "" + d == d;
    assert forall i :: 0 <= i < |d| ==> d[i] != '+';
  }

  // ----- time buckets

  const BUCKET_MINUTES := 5

  function MinuteOfDay(t: IsoTime.Timestamp): nat {
    t.hour * 60 + t.minute
  }

  function Bucket(t: IsoTime.Timestamp): nat {
    MinuteOfDay(t) / BUCKET_MINUTES * BUCKET_MINUTES
  }

  /** The buckets of a day are its five-minute steps. */
  lemma BucketsAreFiveMinutes(a: IsoTime.Timestamp, b: IsoTime.Timestamp)
    ensures Bucket(a) == Bucket(b) <==> (60 * a.hour + a.minute) / 5 == (60 * b.hour + b.minute) / 5
    ensures Bucket(a) % 5 == 0 && Bucket(a) <= 60 * a.hour + a.minute < Bucket(a) + 5
  {
  }

  function DateText(t: IsoTime.Timestamp): string {
    Padded(t.year, 1) + "-" + Fixed(t.month, 2) + "-" + Fixed(t.day, 2)
  }

  function TimeBucket(t: IsoTime.Timestamp): string {
    DateText(t) + "T" + Fixed(Bucket(t) / 60, 2) + ":" + Fixed(Bucket(t) % 60, 2)
  }

  predicate SameBucket(a: IsoTime.Timestamp, b: IsoTime.Timestamp) {
    a.year == b.year && a.month == b.month && a.day == b.day && Bucket(a) == Bucket(b)
  }

  /** Equal tails of equal length leave equal heads. */
  lemma CutTail(a: string, b: string, x: string, y: string)
    requires a + x == b + y && |x| == |y|
    ensures a == b && x == y
  {
    assert (a + x)[..|a|] == a && (b + y)[..|b|] == b;
    assert (a + x)[|a|..] == x && (b + y)[|b|..] == y;
  }

  lemma DateTextDecides(a: IsoTime.Timestamp, b: IsoTime.Timestamp)
    requires IsoTime.Valid(a) && IsoTime.Valid(b) && DateText(a) == DateText(b)
    ensures a.year == b.year && a.month == b.month && a.day == b.day
  {
    assert Pow10(2) == 100;
    var ya, yb := Padded(a.year, 1), Padded(b.year, 1);
    CutTail(ya + "-" + Fixed(a.month, 2) + "-", yb + "-" + Fixed(b.month, 2) + "-", Fixed(a.day, 2), Fixed(b.day, 2));
    CutTail(ya + "-" + Fixed(a.month, 2), yb + "-" + Fixed(b.month, 2), "-", "-");
    CutTail(ya + "-", yb + "-", Fixed(a.month, 2), Fixed(b.month, 2));
    CutTail(ya, yb, "-", "-");
    FixedOrder(a.day, b.day, 2);
    FixedOrder(a.month, b.month, 2);
    PaddedValue(a.year, 1);
    PaddedValue(b.year, 1);
  }

  lemma TimeBucketDecides(a: IsoTime.Timestamp, b: IsoTime.Timestamp)
    requires IsoTime.Valid(a) && IsoTime.Valid(b)
    ensures TimeBucket(a) == TimeBucket(b) <==> SameBucket(a, b)
  {
    assert Pow10(2) == 100;
    if TimeBucket(a) == TimeBucket(b) {
      CutTail(DateText(a) + "T" + Fixed(Bucket(a) / 60, 2) + ":", DateText(b) + "T" + Fixed(Bucket(b) / 60, 2) + ":",
              Fixed(Bucket(a) % 60, 2), Fixed(Bucket(b) % 60, 2));
      CutTail(DateText(a) + "T" + Fixed(Bucket(a) / 60, 2), DateText(b) + "T" + Fixed(Bucket(b) / 60, 2), ":", ":");
      CutTail(DateText(a) + "T", DateText(b) + "T", Fixed(Bucket(a) / 60, 2), Fixed(Bucket(b) / 60, 2));
      CutTail(DateText(a), DateText(b), "T", "T");
      FixedOrder(Bucket(a) % 60, Bucket(b) % 60, 2);
      FixedOrder(Bucket(a) / 60, Bucket(b) / 60, 2);
      DateTextDecides(a, b);
    }
  }

  // ----- the signature

  datatype RequestType = MEDICAL | EVACUATION | SUPPLY

  function TypeText(t: RequestType): string {
    match t
    case MEDICAL => "MEDICAL"
    case EVACUATION => "EVACUATION"
    case SUPPLY => "SUPPLY"
  }

  datatype Submission = Submission(
    incidentId: string, phone: string, requestType: RequestType, lat: real, lon: real, at: IsoTime.Timestamp)

  const PRECISION := 7

  function Raw(digit: DigitClass, s: Submission): string {
    s.incidentId + "|" + NormalizePhone(digit, s.phone) + "|" + TypeText(s.requestType) + "|"
    + Geo.Encode(s.lat, s.lon, PRECISION) + "|" + TimeBucket(s.at)
  }

  predicate NoBar(s: string) {
    Without(s, '|')
  }

  /** The last bar splits a string in one way only. */
  lemma LastBar(a: string, b: string, x: string, y: string)
    requires a + "|" + x == b + "|" + y && NoBar(x) && NoBar(y)
    ensures a == b && x == y
  {
    assert "|" == ['|'];
    SplitAtLast(a, b, x, y, '|');
  }

  lemma NoBarInBucket(t: IsoTime.Timestamp)
    ensures NoBar(TimeBucket(t))
  {
  }

  lemma NoBarInPhone(digit: DigitClass, phone: string)
    requires DigitClassOk(digit)
    ensures NoBar(NormalizePhone(digit, phone))
  {
  }

  lemma NoBarInType(t: RequestType)
    ensures NoBar(TypeText(t))
  {
  }

  lemma NoBarInGeohash(lat: real, lon: real, precision: nat)
    ensures NoBar(Geo.Encode(lat, lon, precision))
  {
  }

  lemma TypeTextDecides(a: RequestType, b: RequestType)
    ensures TypeText(a) == TypeText(b) <==> a == b
  {
  }

  predicate SubmissionOk(s: Submission) {
    IsoTime.Valid(s.at) && -90.0 <= s.lat <= 90.0 && -180.0 <= s.lon <= 180.0
  }

  /** The hashed string determines all five components, whatever bars the
      incident id contains: it is the same for two submissions exactly when they
      agree on incident, phone, type, geohash cell and time bucket. */
  lemma RawDecides(digit: DigitClass, a: Submission, b: Submission)
    requires DigitClassOk(digit) && SubmissionOk(a) && SubmissionOk(b)
    ensures Raw(digit, a) == Raw(digit, b)
            <==> && a.incidentId == b.incidentId
                 && NormalizePhone(digit, a.phone) == NormalizePhone(digit, b.phone)
                 && a.requestType == b.requestType
                 && Geo.SameCell(a.lat, a.lon, b.lat, b.lon, PRECISION)
                 && SameBucket(a.at, b.at)
  {
    var pa, pb := NormalizePhone(digit, a.phone), NormalizePhone(digit, b.phone);
    var ga, gb := Geo.Encode(a.lat, a.lon, PRECISION), Geo.Encode(b.lat, b.lon, PRECISION);
    Geo.SameCodeIffSameCell(a.lat, a.lon, b.lat, b.lon, PRECISION);
    TimeBucketDecides(a.at, b.at);
    TypeTextDecides(a.requestType, b.requestType);
    if Raw(digit, a) == Raw(digit, b) {
      NoBarInPhone(digit, a.phone);
      NoBarInPhone(digit, b.phone);
      NoBarInType(a.requestType);
      NoBarInType(b.requestType);
      NoBarInGeohash(a.lat, a.lon, PRECISION);
      NoBarInGeohash(b.lat, b.lon, PRECISION);
      NoBarInBucket(a.at);
      NoBarInBucket(b.at);
      var ta, tb := TypeText(a.requestType), TypeText(b.requestType);
      LastBar(a.incidentId + "|" + pa + "|" + ta + "|" + ga, b.incidentId + "|" + pb + "|" + tb + "|" + gb,
              TimeBucket(a.at), TimeBucket(b.at));
      LastBar(a.incidentId + "|" + pa + "|" + ta, b.incidentId + "|" + pb + "|" + tb, ga, gb);
      LastBar(a.incidentId + "|" + pa, b.incidentId + "|" + pb, ta, tb);
      LastBar(a.incidentId, b.incidentId, pa, pb);
    }
  }

  lemma CellSizes()
    ensures Geo.Width(Geo.LATITUDE, Geo.LatBits(PRECISION)) == 180.0 / 131072.0
    ensures Geo.Width(Geo.LONGITUDE, Geo.LonBits(PRECISION)) == 360.0 / 262144.0
  {
    assert Geo.Pow2(5) == 32 && Geo.Pow2(10) == 1024 by { assert Geo.Pow2(7) == 128; }
    assert Geo.Pow2(13) == 8192 && Geo.Pow2(16) == 65536;
    assert Geo.Pow2(17) == 131072 && Geo.Pow2(18) == 262144;
  }

  /** So duplicates are close: within one cell and within five minutes. */
  lemma DuplicatesAreClose(digit: DigitClass, a: Submission, b: Submission)
    requires DigitClassOk(digit) && SubmissionOk(a) && SubmissionOk(b) && Raw(digit, a) == Raw(digit, b)
    ensures Geo.Distance(a.lat, b.lat) <= 180.0 / 131072.0
    ensures Geo.Distance(a.lon, b.lon) <= 360.0 / 262144.0
    ensures -5 * 60 * 1_000_000 < IsoTime.Instant(a.at) - IsoTime.Instant(b.at) < 5 * 60 * 1_000_000
  {
    RawDecides(digit, a, b);
    Geo.SameIndexClose(Geo.LATITUDE, a.lat, b.lat, Geo.LatBits(PRECISION));
    Geo.SameIndexClose(Geo.LONGITUDE, a.lon, b.lon, Geo.LonBits(PRECISION));
    CellSizes();
  }
}
