/** ISO 8601 timestamps: their text, the format check, and their order. */
module Timestamps {
  import opened Calendar

  // ---- numbers as text ----

  function Digit(n: nat): char
    requires n < 10
  {
    '0' + n as char
  }

  function Decimal(n: nat): (s: string)
    ensures |s| > 0
  {
    if n < 10 then [Digit(n)] else Decimal(n / 10) + [Digit(n % 10)]
  }

  function Zeros(k: nat): (s: string)
    ensures |s| == k
  {
    seq(k, _ => '0')
  }

  /** `{n:0w}`: at least `w` characters wide. */
  function Pad(n: nat, w: nat): string {
    var d := Decimal(n);
    if |d| < w then Zeros(w - |d|) + d else d
  }

  function Pow10(w: nat): nat { if w == 0 then 1 else 10 * Pow10(w - 1) }

  /** Exactly `w` digits. */
  function Digits(n: nat, w: nat): (s: string)
    ensures |s| == w
    ensures forall i | 0 <= i < w :: '0' <= s[i] <= '9'
  {
    if w == 0 then [] else Digits(n / 10, w - 1) + [Digit(n % 10)]
  }

  lemma {:induction false} DecimalFits(n: nat, w: nat)
    requires w > 0 && n < Pow10(w)
    ensures |Decimal(n)| <= w
  {
    if n >= 10 { DecimalFits(n / 10, w - 1); }
  }

  lemma PadZero(w: nat)
    requires w > 0
    ensures Pad(0, w) == Zeros(w)
  {
    assert Decimal(0) == ['0'];
  }

  lemma PadOneDigit(n: nat, w: nat)
    requires n < 10 && w > 1
    ensures Pad(n, w) == Pad(n / 10, w - 1) + [Digit(n % 10)]
  {
    PadZero(w - 1);
    assert Decimal(n) == [Digit(n)];
  }

  lemma PadMoreDigits(n: nat, w: nat)
    requires n >= 10 && w > 1 && |Decimal(n / 10)| <= w - 1
    ensures Pad(n, w) == Pad(n / 10, w - 1) + [Digit(n % 10)]
  {
    var d := Decimal(n / 10);
    assert Zeros(w - 1 - |d|) + (d + [Digit(n % 10)]) == (Zeros(w - 1 - |d|) + d) + [Digit(n % 10)];
  }

  lemma OneDigit(n: nat)
    requires n < 10
    ensures Pad(n, 1) == Digits(n, 1)
  {
    assert Digits(n / 10, 0) == [];
  }

  /** Padding a number that fits gives exactly `w` digits. */
  lemma {:induction false} PadIsDigits(n: nat, w: nat)
    requires w > 0 && n < Pow10(w)
    ensures Pad(n, w) == Digits(n, w)
  {
    if w == 1 {
      OneDigit(n);
    } else {
      PadIsDigits(n / 10, w - 1);
      if n < 10 {
        PadOneDigit(n, w);
      } else {
        DecimalFits(n / 10, w - 1);
        PadMoreDigits(n, w);
      }
    }
  }

  // ---- the timestamp ----

  function IsoOf(secs: nat): string {
    var days, rem := secs / 86400, secs % 86400;
    AfterEpoch(days);
    var t := CivilFromDays(days);
    Pad(t.y, 4) + "-" + Pad(t.m, 2) + "-" + Pad(t.d, 2) + "T"
    + Pad(rem / 3600, 2) + ":" + Pad((rem % 3600) / 60, 2) + ":" + Pad(rem % 60, 2) + "Z"
  }

  predicate DigitAt(b: string, i: nat) { i < |b| && '0' <= b[i] <= '9' }

  predicate IsIso8601(b: string) {
    && |b| >= 20
    && DigitAt(b, 0) && DigitAt(b, 1) && DigitAt(b, 2) && DigitAt(b, 3)
    && b[4] == '-' && DigitAt(b, 5) && DigitAt(b, 6)
    && b[7] == '-' && DigitAt(b, 8) && DigitAt(b, 9)
    && b[10] == 'T' && DigitAt(b, 11) && DigitAt(b, 12)
    && b[13] == ':' && DigitAt(b, 14) && DigitAt(b, 15)
    && b[16] == ':' && DigitAt(b, 17) && DigitAt(b, 18)
    && (b[19] == 'Z' || b[19] == '+' || b[19] == '-')
  }

  /** The first second of the year 10000. */
  const YEAR_10000 := 253402300800

  /** The check looks at the first twenty characters: this pattern with digits for zeros, and then 'Z' or a sign. */
  lemma IsoCheckMeans(b: string)
    ensures IsIso8601(b) <==>
            && |b| >= 20 && b[19] in "Z+-"
            && forall i | 0 <= i < 19 :: if PATTERN[i] == '0' then '0' <= b[i] <= '9' else b[i] == PATTERN[i]
  {
  }

  const PATTERN := "0000-00-00T00:00:00"

  /** A field of fixed width, a separator, and what follows. */
  function Field(n: nat, w: nat, sep: char, rest: string): string { Digits(n, w) + [sep] + rest }

  function Fields(t: Date, rem: nat): string
    requires t.y >= 0 && t.m >= 0 && t.d >= 0
  {
    Field(t.y, 4, '-', Field(t.m, 2, '-', Field(t.d, 2, 'T',
      Field(rem / 3600, 2, ':', Field((rem % 3600) / 60, 2, ':', Field(rem % 60, 2, 'Z', []))))))
  }

  lemma DateInRange(secs: nat)
    requires secs < YEAR_10000
    ensures var t := CivilFromDays(secs / 86400); 1970 <= t.y <= 9999 && 1 <= t.m <= 12 && 1 <= t.d <= 31
  {
    AfterEpoch(secs / 86400);
    BeforeYear10000(secs / 86400);
  }

  lemma IsoIsFields(secs: nat)
    requires secs < YEAR_10000
    ensures var t := CivilFromDays(secs / 86400);
            t.y >= 0 && t.m >= 0 && t.d >= 0 && IsoOf(secs) == Fields(t, secs % 86400)
  {
    DateInRange(secs);
    var t, rem := CivilFromDays(secs / 86400), secs % 86400;
    assert Pow10(2) == 100 by { assert Pow10(1) == 10; }
    assert Pow10(4) == 10000 by { assert Pow10(3) == 1000; }
    PadIsDigits(t.y, 4);
    PadIsDigits(t.m, 2);
    PadIsDigits(t.d, 2);
    PadIsDigits(rem / 3600, 2);
    PadIsDigits((rem % 3600) / 60, 2);
    PadIsDigits(rem % 60, 2);
    Regroup(Digits(t.y, 4), Digits(t.m, 2), Digits(t.d, 2),
            Digits(rem / 3600, 2), Digits((rem % 3600) / 60, 2), Digits(rem % 60, 2));
  }

  lemma Regroup(y: string, mo: string, d: string, h: string, m: string, s: string)
    ensures y + "-" + mo + "-" + d + "T" + h + ":" + m + ":" + s + "Z"
            == y + ['-'] + (mo + ['-'] + (d + ['T'] + (h + [':'] + (m + [':'] + (s + ['Z'] + [])))))
  {
  }

  predicate AllDigits(s: string, w: nat) { |s| == w && forall i | 0 <= i < w :: '0' <= s[i] <= '9' }

  lemma DateShape(y: string, mo: string, d: string, time: string)
    requires AllDigits(y, 4) && AllDigits(mo, 2) && AllDigits(d, 2)
    ensures var b := y + ['-'] + (mo + ['-'] + (d + ['T'] + time));
            && |b| == 11 + |time| && b[11..] == time && b[4] == '-' && b[7] == '-' && b[10] == 'T'
            && DigitAt(b, 0) && DigitAt(b, 1) && DigitAt(b, 2) && DigitAt(b, 3)
            && DigitAt(b, 5) && DigitAt(b, 6) && DigitAt(b, 8) && DigitAt(b, 9)
  {
    var b := y + ['-'] + (mo + ['-'] + (d + ['T'] + time));
    assert b[..4] == y && b[5..7] == mo && b[8..10] == d;
  }

  lemma TimeShape(h: string, m: string, s: string)
    requires AllDigits(h, 2) && AllDigits(m, 2) && AllDigits(s, 2)
    ensures var b := h + [':'] + (m + [':'] + (s + ['Z'] + []));
            && |b| == 9 && b[2] == ':' && b[5] == ':' && b[8] == 'Z'
            && DigitAt(b, 0) && DigitAt(b, 1) && DigitAt(b, 3) && DigitAt(b, 4) && DigitAt(b, 6) && DigitAt(b, 7)
  {
    var b := h + [':'] + (m + [':'] + (s + ['Z'] + []));
    assert b[..2] == h && b[3..5] == m && b[6..8] == s;
  }

  lemma IsoShape(b: string)
    requires |b| == 20 && b[4] == '-' && b[7] == '-' && b[10] == 'T'
    requires DigitAt(b, 0) && DigitAt(b, 1) && DigitAt(b, 2) && DigitAt(b, 3)
    requires DigitAt(b, 5) && DigitAt(b, 6) && DigitAt(b, 8) && DigitAt(b, 9)
    requires var c := b[11..];
             && c[2] == ':' && c[5] == ':' && c[8] == 'Z'
             && DigitAt(c, 0) && DigitAt(c, 1) && DigitAt(c, 3) && DigitAt(c, 4) && DigitAt(c, 6) && DigitAt(c, 7)
    ensures IsIso8601(b)
  {
    assert forall i | 0 <= i < 9 :: b[11..][i] == b[i + 11];
  }

  /** Up to the year 9999 a timestamp has 20 characters and passes the format check. */
  lemma IsoWellFormed(secs: nat)
    requires secs < YEAR_10000
    ensures |IsoOf(secs)| == 20 && IsIso8601(IsoOf(secs))
  {
    IsoIsFields(secs);
    var t, rem := CivilFromDays(secs / 86400), secs % 86400;
    var h, m, s := Digits(rem / 3600, 2), Digits((rem % 3600) / 60, 2), Digits(rem % 60, 2);
    TimeShape(h, m, s);
    DateShape(Digits(t.y, 4), Digits(t.m, 2), Digits(t.d, 2), h + [':'] + (m + [':'] + (s + ['Z'] + [])));
    IsoShape(IsoOf(secs));
  }

  // ---- order ----

  predicate Less(a: string, b: string) {
    b != [] && (a == [] || a[0] < b[0] || (a[0] == b[0] && Less(a[1..], b[1..])))
  }

  lemma {:induction false} LessHead(a: string, b: string, x: string, y: string)
    requires |a| == |b| && Less(a, b)
    ensures Less(a + x, b + y)
  {
    assert (a + x)[0] == a[0] && (b + y)[0] == b[0];
    if a[0] == b[0] {
      LessHead(a[1..], b[1..], x, y);
      assert (a + x)[1..] == a[1..] + x && (b + y)[1..] == b[1..] + y;
    }
  }

  lemma {:induction false} LessTail(a: string, x: string, y: string)
    requires Less(x, y)
    ensures Less(a + x, a + y)
  {
    if a == [] {
      assert a + x == x && a + y == y;
    } else {
      LessTail(a[1..], x, y);
      assert (a + x)[1..] == a[1..] + x && (a + y)[1..] == a[1..] + y;
    }
  }

  lemma {:induction false} DigitsOrdered(n: nat, m: nat, w: nat)
    requires n < m < Pow10(w)
    ensures Less(Digits(n, w), Digits(m, w))
  {
    if n / 10 < m / 10 {
      DigitsOrdered(n / 10, m / 10, w - 1);
      LessHead(Digits(n / 10, w - 1), Digits(m / 10, w - 1), [Digit(n % 10)], [Digit(m % 10)]);
    } else {
      LessTail(Digits(n / 10, w - 1), [Digit(n % 10)], [Digit(m % 10)]);
    }
  }

  lemma FieldOrdered(n: nat, m: nat, w: nat, sep: char, x: string, y: string)
    requires n < Pow10(w) && m < Pow10(w)
    requires n < m || (n == m && Less(x, y))
    ensures Less(Field(n, w, sep, x), Field(m, w, sep, y))
  {
    assert Field(n, w, sep, x) == Digits(n, w) + ([sep] + x);
    assert Field(m, w, sep, y) == Digits(m, w) + ([sep] + y);
    if n < m {
      DigitsOrdered(n, m, w);
      LessHead(Digits(n, w), Digits(m, w), [sep] + x, [sep] + y);
    } else {
      LessTail([sep], x, y);
      LessTail(Digits(n, w), [sep] + x, [sep] + y);
    }
  }

  function TimeFields(rem: nat): string {
    Field(rem / 3600, 2, ':', Field((rem % 3600) / 60, 2, ':', Field(rem % 60, 2, 'Z', [])))
  }

  /** Hours, then minutes, then seconds. */
  lemma TimeParts(a: nat, b: nat)
    requires a < b < 86400
    ensures a / 3600 <= b / 3600 < 100 && (a % 3600) / 60 < 100 && (b % 3600) / 60 < 100
    ensures a / 3600 == b / 3600 ==> (a % 3600) / 60 <= (b % 3600) / 60
    ensures a / 3600 == b / 3600 && (a % 3600) / 60 == (b % 3600) / 60 ==> a % 60 < b % 60
  {
    assert a % 3600 == 60 * ((a % 3600) / 60) + a % 60;
    assert b % 3600 == 60 * ((b % 3600) / 60) + b % 60;
  }

  lemma TimeOrdered(a: nat, b: nat)
    requires a < b < 86400
    ensures Less(TimeFields(a), TimeFields(b))
  {
    TimeParts(a, b);
    HmsOrdered(a / 3600, (a % 3600) / 60, a % 60, b / 3600, (b % 3600) / 60, b % 60);
  }

  lemma HmsOrdered(h: nat, m: nat, s: nat, k: nat, n: nat, u: nat)
    requires h <= k < 100 && m < 100 && n < 100 && s < 60 && u < 60
    requires h == k ==> m <= n
    requires h == k && m == n ==> s < u
    ensures Less(Field(h, 2, ':', Field(m, 2, ':', Field(s, 2, 'Z', []))),
                 Field(k, 2, ':', Field(n, 2, ':', Field(u, 2, 'Z', []))))
  {
    assert Pow10(2) == 100 by { assert Pow10(1) == 10; }
    if h == k {
      if m == n { FieldOrdered(s, u, 2, 'Z', [], []); }
      FieldOrdered(m, n, 2, ':', Field(s, 2, 'Z', []), Field(u, 2, 'Z', []));
    }
    FieldOrdered(h, k, 2, ':', Field(m, 2, ':', Field(s, 2, 'Z', [])), Field(n, 2, ':', Field(u, 2, 'Z', [])));
  }

  predicate SmallDate(t: Date) { 0 <= t.y < 10000 && 0 <= t.m < 100 && 0 <= t.d < 100 }

  lemma FieldsOrdered(s: Date, t: Date, a: nat, b: nat)
    requires SmallDate(s) && SmallDate(t) && (Before(s, t) || (s == t && Less(TimeFields(a), TimeFields(b))))
    ensures Less(Fields(s, a), Fields(t, b))
  {
    assert Pow10(2) == 100 by { assert Pow10(1) == 10; }
    assert Pow10(4) == 10000 by { assert Pow10(3) == 1000; }
    var ds, dt := Field(s.d, 2, 'T', TimeFields(a)), Field(t.d, 2, 'T', TimeFields(b));
    if s.y == t.y {
      if s.m == t.m { FieldOrdered(s.d, t.d, 2, 'T', TimeFields(a), TimeFields(b)); }
      FieldOrdered(s.m, t.m, 2, '-', ds, dt);
    }
    FieldOrdered(s.y, t.y, 4, '-', Field(s.m, 2, '-', ds), Field(t.m, 2, '-', dt));
  }

  lemma InstantsOrdered(a: nat, b: nat)
    requires a < b < YEAR_10000
    ensures var s, t := CivilFromDays(a / 86400), CivilFromDays(b / 86400);
            Before(s, t) || (s == t && Less(TimeFields(a % 86400), TimeFields(b % 86400)))
  {
    if a / 86400 < b / 86400 {
      CivilMonotone(a / 86400, b / 86400);
    } else {
      assert a / 86400 == b / 86400;
      TimeOrdered(a % 86400, b % 86400);
    }
  }

  lemma SmallInRange(secs: nat)
    requires secs < YEAR_10000
    ensures SmallDate(CivilFromDays(secs / 86400))
  {
    DateInRange(secs);
  }

  /** Up to the year 9999 timestamps compare as text exactly as the instants do. */
  lemma IsoOrdered(a: nat, b: nat)
    requires a < b < YEAR_10000
    ensures Less(IsoOf(a), IsoOf(b))
  {
    IsoIsFields(a);
    IsoIsFields(b);
    SmallInRange(a);
    SmallInRange(b);
    InstantsOrdered(a, b);
    FieldsOrdered(CivilFromDays(a / 86400), CivilFromDays(b / 86400), a % 86400, b % 86400);
  }

  lemma DecimalLead(n: nat)
    requires n >= 10
    ensures Decimal(n)[0] == Decimal(n / 10)[0]
  {
  }

  lemma DigitsLead(n: nat, w: nat)
    requires w > 1
    ensures Digits(n, w)[0] == Digits(n / 10, w - 1)[0]
  {
  }

  lemma LeadingDigits()
    ensures Decimal(10000)[0] == '1' && Digits(9999, 4)[0] == '9'
  {
    DecimalLead(10000);
    DecimalLead(1000);
    DecimalLead(100);
    DecimalLead(10);
    DigitsLead(9999, 4);
    DigitsLead(999, 3);
    DigitsLead(99, 2);
    OneDigit(9);
  }

  lemma LastDay()
    ensures CivilFromDays(2932896).y == 9999 && CivilFromDays(2932897).y == 10000
  {
    DayOfYear10000();
    CivilSuccessor(2932896);
  }

  lemma IsoLead(secs: nat)
    ensures var y := CivilFromDays(secs / 86400).y; y >= 1000 && IsoOf(secs)[0] == Pad(y, 4)[0]
  {
    AfterEpoch(secs / 86400);
  }

  lemma PadLead()
    ensures Pad(10000, 4)[0] == '1' && Pad(9999, 4)[0] == '9'
  {
    LeadingDigits();
    DecimalWide(10000);
    assert Pow10(4) == 10000 by { assert Pow10(3) == 1000 by { assert Pow10(2) == 100 by { assert Pow10(1) == 10; } } }
    PadIsDigits(9999, 4);
  }

  lemma DecimalWide(n: nat)
    requires n >= 1000
    ensures |Decimal(n)| >= 4
  {
    assert |Decimal(n)| == |Decimal(n / 10)| + 1;
    assert |Decimal(n / 10)| == |Decimal(n / 10 / 10)| + 1;
    assert |Decimal(n / 10 / 10)| == |Decimal(n / 10 / 10 / 10)| + 1;
  }

  lemma SmallerFirst(a: string, b: string)
    requires a != [] && b != [] && a[0] < b[0]
    ensures Less(a, b)
  {
  }

  /** There the order ends: the first timestamp of the year 10000 comes before the last of the year 9999. */
  lemma OrderEnds()
    ensures Less(IsoOf(YEAR_10000), IsoOf(YEAR_10000 - 1))
  {
    LastDay();
    PadLead();
    var first, last := YEAR_10000, YEAR_10000 - 1;
    assert first / 86400 == 2932897 && last / 86400 == 2932896;
    IsoLead(first);
    IsoLead(last);
    SmallerFirst(IsoOf(first), IsoOf(last));
  }

  // ---- reading a timestamp back ----

  function Number(s: string): nat
    requires AllDigits(s, |s|)
  {
    if s == [] then 0 else 10 * Number(s[..|s| - 1]) + (s[|s| - 1] - '0') as int
  }

  lemma {:induction false} NumberOfDigits(n: nat, w: nat)
    requires n < Pow10(w)
    ensures Number(Digits(n, w)) == n
    decreases w
  {
    if w != 0 {
      var d := Digits(n, w);
      NumberOfDigits(n / 10, w - 1);
      assert d[..w - 1] == Digits(n / 10, w - 1) && d[w - 1] == Digit(n % 10);
    }
  }

  predicate NumbersAt(b: string) {
    && |b| >= 19 && AllDigits(b[..4], 4) && AllDigits(b[5..7], 2) && AllDigits(b[8..10], 2)
    && AllDigits(b[11..13], 2) && AllDigits(b[14..16], 2) && AllDigits(b[17..19], 2)
  }

  function DateOf(b: string): Date
    requires NumbersAt(b)
  {
    Date(Number(b[..4]), Number(b[5..7]), Number(b[8..10]))
  }

  function TimeOf(b: string): nat
    requires NumbersAt(b)
  {
    3600 * Number(b[11..13]) + 60 * Number(b[14..16]) + Number(b[17..19])
  }

  lemma FieldsAt(y: string, mo: string, d: string, h: string, m: string, s: string)
    requires |y| == 4 && |mo| == |d| == |h| == |m| == |s| == 2
    ensures var b := y + ['-'] + (mo + ['-'] + (d + ['T'] + (h + [':'] + (m + [':'] + (s + ['Z'] + [])))));
            b[..4] == y && b[5..7] == mo && b[8..10] == d && b[11..13] == h && b[14..16] == m && b[17..19] == s
  {
  }

  lemma FieldsReadBack(t: Date, rem: nat)
    requires SmallDate(t) && rem < 86400
    ensures NumbersAt(Fields(t, rem)) && DateOf(Fields(t, rem)) == t && TimeOf(Fields(t, rem)) == rem
  {
    assert Pow10(2) == 100 by { assert Pow10(1) == 10; }
    assert Pow10(4) == 10000 by { assert Pow10(3) == 1000; }
    FieldsAt(Digits(t.y, 4), Digits(t.m, 2), Digits(t.d, 2),
             Digits(rem / 3600, 2), Digits((rem % 3600) / 60, 2), Digits(rem % 60, 2));
    NumberOfDigits(t.y, 4);
    NumberOfDigits(t.m, 2);
    NumberOfDigits(t.d, 2);
    NumberOfDigits(rem / 3600, 2);
    NumberOfDigits((rem % 3600) / 60, 2);
    NumberOfDigits(rem % 60, 2);
    HourMinuteSecond(rem);
  }

  lemma HourMinuteSecond(rem: nat)
    ensures 3600 * (rem / 3600) + 60 * ((rem % 3600) / 60) + rem % 60 == rem
  {
    var h, r := rem / 3600, rem % 3600;
    var m, s := r / 60, r % 60;
    assert rem == 3600 * h + r && r == 60 * m + s;
    RemainderIs(rem, 60 * h + m, s);
  }

  lemma RemainderIs(n: nat, q: nat, r: nat)
    requires n == 60 * q + r && r < 60
    ensures n % 60 == r
  {
  }

  /**
   * Up to the year 9999 a timestamp stands for the very second it was made from: the days counted up to its date
   * and the time of day give that second back.
   */
  lemma IsoReadsBack(secs: nat)
    requires secs < YEAR_10000
    ensures var b := IsoOf(secs);
            NumbersAt(b) && ValidDate(DateOf(b)) && 86400 * DayNumber(DateOf(b)) + TimeOf(b) == secs
  {
    IsoIsFields(secs);
    SmallInRange(secs);
    FieldsReadBack(CivilFromDays(secs / 86400), secs % 86400);
    CountOfCivil(secs / 86400);
  }
}
