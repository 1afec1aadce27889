/** Day numbers and civil dates. */
module Calendar {

  datatype Date = Date(y: int, m: int, d: int)

  /** Rust's `/` on signed integers truncates toward zero. */
  function TDiv(a: int, b: int): int
    requires b > 0
  {
    if a >= 0 then a / b else -((-a) / b)
  }

  function CivilFromDays(days: int): Date {
    var z := days + 719468;
    var era := TDiv(if z >= 0 then z else z - 146096, 146097);
    CivilOfEra(era, z - era * 146097)
  }

  function CivilOfEra(era: int, doe: int): Date {
    var yoe := TDiv(doe - TDiv(doe, 1460) + TDiv(doe, 36524) - TDiv(doe, 146096), 365);
    var doy := doe - (365 * yoe + TDiv(yoe, 4) - TDiv(yoe, 100));
    CivilOfYear(yoe + era * 400, doy)
  }

  function CivilOfYear(y: int, doy: int): Date {
    var mp := TDiv(5 * doy + 2, 153);
    var d := doy - TDiv(153 * mp + 2, 5) + 1;
    var m := if mp < 10 then mp + 3 else mp - 9;
    Date(if m <= 2 then y + 1 else y, m, d)
  }

  // ---- the Gregorian calendar, stated plainly ----

  predicate Leap(y: int) { y % 4 == 0 && (y % 100 != 0 || y % 400 == 0) }

  function MonthLength(y: int, m: int): int { MonthDays(Leap(y), m) }

  function MonthDays(leap: bool, m: int): int {
    if m == 2 then (if leap then 29 else 28)
    else if m == 4 || m == 6 || m == 9 || m == 11 then 30
    else 31
  }

  predicate ValidDate(t: Date) { 1 <= t.m <= 12 && 1 <= t.d <= MonthLength(t.y, t.m) }

  function NextDay(t: Date): Date {
    if t.d < MonthLength(t.y, t.m) then t.(d := t.d + 1)
    else if t.m < 12 then Date(t.y, t.m + 1, 1)
    else Date(t.y + 1, 1, 1)
  }

  // ---- the era, split into year and day of year (years start in March) ----

  /** Days before year `yoe` of a 400-year era, and before the year after it. */
  function YearStart(yoe: int): int { 365 * yoe + yoe / 4 - yoe / 100 }

  function YearEnd(yoe: int): int { if yoe == 399 then 146097 else YearStart(yoe + 1) }

  function YearOfEra(doe: int): int { (doe - doe / 1460 + doe / 36524 - doe / 146096) / 365 }

  /** Within century `c`, four-year cycle `q` and year `k`, the corrections cancel the leap days. */
  lemma YearFromParts(c: int, q: int, s: int)
    requires 0 <= c < 4 && 0 <= q < 25 && 0 <= s < 1461 && 1461 * q + s < 36524
    ensures var k := if s == 1460 then 3 else s / 365;
            && YearOfEra(36524 * c + 1461 * q + s) == 100 * c + 4 * q + k
            && YearStart(100 * c + 4 * q + k) == 36524 * c + 1461 * q + 365 * k
  {
    var doe := 36524 * c + 1461 * q + s;
    var k := if s == 1460 then 3 else s / 365;
    var t := (24 * c + q + s) / 1460;
    assert doe / 36524 == c && doe / 146096 == 0;
    assert doe == 1460 * (25 * c + q) + (24 * c + q + s);
    assert doe / 1460 == 25 * c + q + t;
    assert doe - doe / 1460 + c == 365 * (100 * c + 4 * q) + (s - t);
    assert 365 * k <= s - t < 365 * k + 365;
    assert (100 * c + 4 * q + k) / 4 == 25 * c + q;
    assert 4 * q + k < 100;
    assert (100 * c + 4 * q + k) / 100 == c;
  }

  /** The year before the last February of a four-year cycle has a leap day, unless it ends a century. */
  lemma LeapEndsCycle(c: int, q: int)
    requires 0 <= c < 4 && 0 < q < 25
    ensures Leap(100 * c + 4 * q)
  {
    assert (100 * c + 4 * q) % 4 == 0;
    assert (100 * c + 4 * q) % 100 == 4 * q;
  }

  lemma PartsWithinYear(c: int, q: int, s: int)
    requires 0 <= c < 4 && 0 <= q < 25 && 0 <= s < 1461 && 1461 * q + s < 36524
    ensures var doe := 36524 * c + 1461 * q + s; var yoe := YearOfEra(doe);
            0 <= yoe < 400 && YearStart(yoe) <= doe < YearEnd(yoe)
  {
    YearFromParts(c, q, s);
    if s == 1460 {
      LeapEndsCycle(c, q + 1);
      YearLengths(100 * c + 4 * q + 3);
    } else {
      YearLengths(100 * c + 4 * q + s / 365);
    }
  }

  lemma YearOfEraBounds(doe: int)
    requires 0 <= doe < 146097
    ensures var yoe := YearOfEra(doe); 0 <= yoe < 400 && YearStart(yoe) <= doe < YearEnd(yoe)
  {
    if doe < 146096 {
      var c, r := doe / 36524, doe % 36524;
      PartsWithinYear(c, r / 1461, r % 1461);
    }
  }

  /** A March-based year has a 366th day exactly when the February that ends it is a leap one. */
  lemma YearLengths(yoe: int)
    requires 0 <= yoe < 400
    ensures YearEnd(yoe) == YearStart(yoe) + if Leap(yoe + 1) then 366 else 365
  {
    var c, r := yoe / 100, yoe % 100;
    var q, k := r / 4, r % 4;
    assert yoe == 100 * c + 4 * q + k;
    assert yoe / 4 == 25 * c + q && (yoe + 1) / 4 == 25 * c + q + (if k == 3 then 1 else 0);
    assert (yoe + 1) / 100 == c + (if r == 99 then 1 else 0);
    assert (yoe + 1) % 4 == (k + 1) % 4;
    assert (yoe + 1) % 100 == (r + 1) % 100;
    assert (yoe + 1) % 400 == 0 <==> yoe == 399;
  }

  lemma {:induction false} YearStartGrows(a: int, b: int)
    requires 0 <= a <= b < 400
    ensures a < b ==> YearEnd(a) <= YearStart(b)
    decreases b - a
  {
    if a < b - 1 {
      YearStartGrows(a, b - 1);
      YearLengths(b - 1);
    }
  }

  lemma YearOfEraUnique(doe: int, yoe: int)
    requires 0 <= yoe < 400 && YearStart(yoe) <= doe < YearEnd(yoe)
    ensures 0 <= doe < 146097 && YearOfEra(doe) == yoe
  {
    YearStartGrows(0, yoe);
    YearStartGrows(yoe, 399);
    YearLengths(399);
    YearOfEraBounds(doe);
    if YearOfEra(doe) < yoe { YearStartGrows(YearOfEra(doe), yoe); }
    if yoe < YearOfEra(doe) { YearStartGrows(yoe, YearOfEra(doe)); }
  }

  // ---- month and day from the day of a March-based year ----

  function MonthIndex(doy: int): int { (5 * doy + 2) / 153 }

  function MonthStart(mp: int): int { (153 * mp + 2) / 5 }

  lemma MonthFits(doy: int)
    requires 0 <= doy < 366
    ensures var mp := MonthIndex(doy);
            0 <= mp < 12 && MonthStart(mp) <= doy < MonthStart(mp + 1)
  {
  }

  lemma MonthUnique(doy: int, mp: int)
    requires 0 <= mp < 12 && MonthStart(mp) <= doy < MonthStart(mp + 1)
    ensures MonthIndex(doy) == mp
  {
  }

  lemma MonthStarts()
    ensures MonthStart(0) == 0 && MonthStart(1) == 31 && MonthStart(2) == 61 && MonthStart(3) == 92
    ensures MonthStart(4) == 122 && MonthStart(5) == 153 && MonthStart(6) == 184 && MonthStart(7) == 214
    ensures MonthStart(8) == 245 && MonthStart(9) == 275 && MonthStart(10) == 306 && MonthStart(11) == 337
    ensures MonthStart(12) == 367
  {
  }

  /** Calendar month and the calendar year it falls in, for month `mp` of the year that starts in March of `y`. */
  function DateIn(y: int, mp: int, d: int): Date {
    if mp < 10 then Date(y, mp + 3, d) else Date(y + 1, mp - 9, d)
  }

  lemma CivilInMonth(y: int, doy: int, mp: int)
    requires 0 <= mp < 12 && MonthStart(mp) <= doy < MonthStart(mp + 1)
    ensures CivilOfYear(y, doy) == DateIn(y, mp, doy - MonthStart(mp) + 1)
  {
    MonthUnique(doy, mp);
  }

  predicate InYear(y: int, doy: int) { DayFits(Leap(y + 1), doy) }

  predicate DayFits(leap: bool, doy: int) { 0 <= doy < if leap then 366 else 365 }

  /** Month `mp` is as long as its calendar month, except that February ends the year. */
  lemma MonthSpan(mp: int, leap: bool)
    requires 0 <= mp < 12
    ensures mp < 11 ==> MonthStart(mp + 1) - MonthStart(mp) == MonthDays(leap, if mp < 10 then mp + 3 else mp - 9)
    ensures mp == 11 ==> (if leap then 366 else 365) - MonthStart(mp) == MonthDays(leap, 2)
  {
    MonthStarts();
  }

  lemma CivilOfYearValid(y: int, doy: int)
    requires InYear(y, doy)
    ensures ValidDate(CivilOfYear(y, doy))
  {
    var mp := MonthIndex(doy);
    MonthFits(doy);
    CivilInMonth(y, doy, mp);
    MonthSpan(mp, Leap(y));
    MonthSpan(mp, Leap(y + 1));
  }

  lemma NotLastMonth(doy: int, mp: int)
    requires 0 <= mp < 12 && doy + 1 == MonthStart(mp + 1) && doy + 1 < 366
    ensures mp < 11 && MonthStart(mp + 1) <= doy + 1 < MonthStart(mp + 2)
  {
    MonthStarts();
  }

  lemma NextInMonth(y: int, mp: int, d: int)
    requires 0 <= mp < 12 && 1 <= d < MonthStart(mp + 1) - MonthStart(mp) && InYear(y, MonthStart(mp) + d)
    ensures NextDay(DateIn(y, mp, d)) == DateIn(y, mp, d + 1)
  {
    MonthSpan(mp, Leap(y));
    MonthSpan(mp, Leap(y + 1));
  }

  lemma NextMonth(y: int, mp: int)
    requires 0 <= mp < 11
    ensures NextDay(DateIn(y, mp, MonthStart(mp + 1) - MonthStart(mp))) == DateIn(y, mp + 1, 1)
  {
    MonthSpan(mp, Leap(y));
    MonthSpan(mp, Leap(y + 1));
  }

  lemma StepInMonth(y: int, doy: int, mp: int)
    requires InYear(y, doy + 1) && 0 <= mp < 12 && MonthStart(mp) <= doy && doy + 1 < MonthStart(mp + 1)
    ensures NextDay(CivilOfYear(y, doy)) == CivilOfYear(y, doy + 1)
  {
    CivilInMonth(y, doy, mp);
    CivilInMonth(y, doy + 1, mp);
    NextInMonth(y, mp, doy - MonthStart(mp) + 1);
  }

  lemma StepToMonth(y: int, doy: int, mp: int)
    requires InYear(y, doy + 1) && 0 <= mp < 12 && MonthStart(mp) <= doy && doy + 1 == MonthStart(mp + 1)
    ensures NextDay(CivilOfYear(y, doy)) == CivilOfYear(y, doy + 1)
  {
    NotLastMonth(doy, mp);
    CivilInMonth(y, doy, mp);
    CivilInMonth(y, doy + 1, mp + 1);
    NextMonth(y, mp);
  }

  lemma StepInYear(y: int, doy: int)
    requires InYear(y, doy) && InYear(y, doy + 1)
    ensures NextDay(CivilOfYear(y, doy)) == CivilOfYear(y, doy + 1)
  {
    var mp := MonthIndex(doy);
    MonthFits(doy);
    if doy + 1 < MonthStart(mp + 1) { StepInMonth(y, doy, mp); } else { StepToMonth(y, doy, mp); }
  }

  lemma StepAcrossYears(y: int, doy: int)
    requires InYear(y, doy) && !InYear(y, doy + 1)
    ensures NextDay(CivilOfYear(y, doy)) == CivilOfYear(y + 1, 0)
  {
    MonthStarts();
    CivilInMonth(y, doy, 11);
    CivilInMonth(y + 1, 0, 0);
  }

  lemma CivilOfYearSteps(y: int, doy: int)
    requires InYear(y, doy)
    ensures ValidDate(CivilOfYear(y, doy))
    ensures NextDay(CivilOfYear(y, doy)) ==
            if InYear(y, doy + 1) then CivilOfYear(y, doy + 1) else CivilOfYear(y + 1, 0)
  {
    CivilOfYearValid(y, doy);
    if InYear(y, doy + 1) { StepInYear(y, doy); } else { StepAcrossYears(y, doy); }
  }

  // ---- the algorithm is the calendar ----

  /** Day number `days` is day `doy` of the March-based year `yoe` of era `era`. */
  ghost predicate At(days: int, era: int, yoe: int, doy: int) {
    && days + 719468 == era * 146097 + YearStart(yoe) + doy
    && 0 <= yoe < 400 && 0 <= doy && YearStart(yoe) + doy < YearEnd(yoe)
  }

  lemma Locate(days: int) returns (era: int, yoe: int, doy: int)
    ensures At(days, era, yoe, doy)
  {
    var z := days + 719468;
    era := z / 146097;
    var doe := z % 146097;
    assert z == era * 146097 + doe;
    YearOfEraBounds(doe);
    yoe := YearOfEra(doe);
    doy := doe - YearStart(yoe);
  }

  /** The truncating division with its correction is a floor, on negative day numbers too. */
  lemma EraIsFloor(z: int, era: int, doe: int)
    requires z == era * 146097 + doe && 0 <= doe < 146097
    ensures TDiv(if z >= 0 then z else z - 146096, 146097) == era
  {
  }

  lemma EraUnfolds(days: int, era: int, doe: int)
    requires days + 719468 == era * 146097 + doe && 0 <= doe < 146097
    ensures CivilFromDays(days) == CivilOfEra(era, doe)
  {
    EraIsFloor(days + 719468, era, doe);
  }

  lemma YearByTDiv(doe: int)
    requires 0 <= doe < 146097
    ensures TDiv(doe - TDiv(doe, 1460) + TDiv(doe, 36524) - TDiv(doe, 146096), 365) == YearOfEra(doe)
  {
    assert doe - doe / 1460 >= 0 && doe / 36524 - doe / 146096 >= 0;
  }

  lemma YearUnfolds(era: int, yoe: int, doy: int)
    requires 0 <= yoe < 400 && 0 <= doy && YearStart(yoe) + doy < YearEnd(yoe)
    ensures CivilOfEra(era, YearStart(yoe) + doy) == CivilOfYear(era * 400 + yoe, doy)
  {
    YearOfEraUnique(YearStart(yoe) + doy, yoe);
    YearByTDiv(YearStart(yoe) + doy);
    assert TDiv(yoe, 4) == yoe / 4 && TDiv(yoe, 100) == yoe / 100;
  }

  lemma CivilAt(days: int, era: int, yoe: int, doy: int)
    requires At(days, era, yoe, doy)
    ensures CivilFromDays(days) == CivilOfYear(era * 400 + yoe, doy)
  {
    YearOfEraUnique(YearStart(yoe) + doy, yoe);
    EraUnfolds(days, era, YearStart(yoe) + doy);
    YearUnfolds(era, yoe, doy);
  }

  /** A place in an era is within its year exactly when the calendar's leap rule says so. */
  lemma WithinYearIff(era: int, yoe: int, doy: int)
    requires 0 <= yoe < 400 && 0 <= doy
    ensures InYear(era * 400 + yoe, doy) <==> YearStart(yoe) + doy < YearEnd(yoe)
  {
    YearLengths(yoe);
    LeapByEra(era, yoe + 1);
  }

  lemma LeapByEra(era: int, yoe: int)
    ensures Leap(era * 400 + yoe) <==> Leap(yoe)
  {
    ShiftBy4(era * 100, yoe);
    ShiftBy100(era * 4, yoe);
    ShiftBy400(era, yoe);
  }

  lemma ShiftBy4(k: int, n: int)
    ensures (4 * k + n) % 4 == n % 4
  {
  }

  lemma ShiftBy100(k: int, n: int)
    ensures (100 * k + n) % 100 == n % 100
  {
  }

  lemma ShiftBy400(k: int, n: int)
    ensures (400 * k + n) % 400 == n % 400
  {
  }

  lemma YearSteps(era: int, yoe: int, doy: int)
    requires 0 <= yoe < 400 && 0 <= doy && YearStart(yoe) + doy < YearEnd(yoe)
    ensures var y := era * 400 + yoe;
            && ValidDate(CivilOfYear(y, doy))
            && NextDay(CivilOfYear(y, doy)) ==
               if YearStart(yoe) + doy + 1 < YearEnd(yoe) then CivilOfYear(y, doy + 1) else CivilOfYear(y + 1, 0)
  {
    WithinYearIff(era, yoe, doy);
    WithinYearIff(era, yoe, doy + 1);
    CivilOfYearSteps(era * 400 + yoe, doy);
  }

  lemma NextInYear(days: int, era: int, yoe: int, doy: int)
    requires At(days, era, yoe, doy) && YearStart(yoe) + doy + 1 < YearEnd(yoe)
    ensures CivilFromDays(days + 1) == CivilOfYear(era * 400 + yoe, doy + 1)
  {
    assert At(days + 1, era, yoe, doy + 1);
    CivilAt(days + 1, era, yoe, doy + 1);
  }

  lemma YearEndIsStart(yoe: int)
    requires 0 <= yoe < 399
    ensures YearEnd(yoe) == YearStart(yoe + 1) < YearEnd(yoe + 1)
  {
    YearLengths(yoe + 1);
  }

  lemma NextYearAt(days: int, era: int, yoe: int, doy: int)
    requires At(days, era, yoe, doy) && YearStart(yoe) + doy + 1 == YearEnd(yoe) && yoe < 399
    ensures At(days + 1, era, yoe + 1, 0)
  {
    YearEndIsStart(yoe);
  }

  lemma NextYearStarts(days: int, era: int, yoe: int, doy: int)
    requires At(days, era, yoe, doy) && YearStart(yoe) + doy + 1 == YearEnd(yoe) && yoe < 399
    ensures CivilFromDays(days + 1) == CivilOfYear(era * 400 + yoe + 1, 0)
  {
    NextYearAt(days, era, yoe, doy);
    CivilAt(days + 1, era, yoe + 1, 0);
    assert era * 400 + (yoe + 1) == era * 400 + yoe + 1;
  }

  lemma NextEraStarts(days: int, era: int, doy: int)
    requires At(days, era, 399, doy) && YearStart(399) + doy + 1 == YearEnd(399)
    ensures CivilFromDays(days + 1) == CivilOfYear(era * 400 + 400, 0)
  {
    assert At(days + 1, era + 1, 0, 0);
    CivilAt(days + 1, era + 1, 0, 0);
  }

  /** The next day: in the same year while it lasts, then the first of the next year, or of the next era. */
  lemma NextPlace(days: int, era: int, yoe: int, doy: int)
    requires At(days, era, yoe, doy)
    ensures CivilFromDays(days + 1) ==
            if YearStart(yoe) + doy + 1 < YearEnd(yoe) then CivilOfYear(era * 400 + yoe, doy + 1)
            else CivilOfYear(era * 400 + yoe + 1, 0)
  {
    if YearStart(yoe) + doy + 1 < YearEnd(yoe) {
      NextInYear(days, era, yoe, doy);
    } else if yoe < 399 {
      NextYearStarts(days, era, yoe, doy);
    } else {
      NextEraStarts(days, era, doy);
    }
  }

  lemma NextCivil(days: int, era: int, yoe: int, doy: int)
    requires At(days, era, yoe, doy)
    ensures CivilFromDays(days + 1) == NextDay(CivilOfYear(era * 400 + yoe, doy))
  {
    YearSteps(era, yoe, doy);
    NextPlace(days, era, yoe, doy);
  }

  /** The day after day `days` is the calendar's next day, negative day numbers included. */
  lemma CivilSuccessor(days: int)
    ensures ValidDate(CivilFromDays(days))
    ensures CivilFromDays(days + 1) == NextDay(CivilFromDays(days))
  {
    var era, yoe, doy := Locate(days);
    CivilAt(days, era, yoe, doy);
    YearSteps(era, yoe, doy);
    NextCivil(days, era, yoe, doy);
  }

  // ---- a plain count of days ----

  function YearLength(y: int): int { if Leap(y) then 366 else 365 }

  /** Days from 1 January 1970 to 1 January of year `y`, adding or taking away one year at a time. */
  function DaysBeforeYear(y: int): int
    decreases if y >= 1970 then y - 1970 else 1970 - y
  {
    if y == 1970 then 0
    else if y > 1970 then DaysBeforeYear(y - 1) + YearLength(y - 1)
    else DaysBeforeYear(y + 1) - YearLength(y)
  }

  function DaysBeforeMonth(y: int, m: int): int
    requires 1 <= m <= 12
  {
    if m == 1 then 0 else DaysBeforeMonth(y, m - 1) + MonthLength(y, m - 1)
  }

  function DayNumber(t: Date): int
    requires 1 <= t.m <= 12
  {
    DaysBeforeYear(t.y) + DaysBeforeMonth(t.y, t.m) + t.d - 1
  }

  lemma MonthsMakeYear(y: int)
    ensures DaysBeforeMonth(y, 12) + MonthLength(y, 12) == YearLength(y)
  {
    var leap := if Leap(y) then 1 else 0;
    assert DaysBeforeMonth(y, 2) == 31;
    assert DaysBeforeMonth(y, 3) == 59 + leap;
    assert DaysBeforeMonth(y, 4) == 90 + leap;
    assert DaysBeforeMonth(y, 5) == 120 + leap;
    assert DaysBeforeMonth(y, 6) == 151 + leap;
    assert DaysBeforeMonth(y, 7) == 181 + leap;
    assert DaysBeforeMonth(y, 8) == 212 + leap;
    assert DaysBeforeMonth(y, 9) == 243 + leap;
    assert DaysBeforeMonth(y, 10) == 273 + leap;
    assert DaysBeforeMonth(y, 11) == 304 + leap;
  }

  lemma NextDayCounts(t: Date)
    requires ValidDate(t)
    ensures ValidDate(NextDay(t)) && DayNumber(NextDay(t)) == DayNumber(t) + 1
  {
    MonthsMakeYear(t.y);
    assert DaysBeforeYear(t.y + 1) == DaysBeforeYear(t.y) + YearLength(t.y);
  }

  ghost predicate Steps(f: int -> Date, days: int) {
    ValidDate(f(days)) && f(days + 1) == NextDay(f(days))
  }

  /** Any numbering of days that starts at the epoch and steps through the calendar is the plain count. */
  lemma {:induction false} CountOfSteps(f: int -> Date, days: int)
    requires f(0) == Date(1970, 1, 1) && forall d :: Steps(f, d)
    ensures ValidDate(f(days)) && DayNumber(f(days)) == days
    decreases if days >= 0 then days else -days
  {
    if days > 0 {
      CountOfSteps(f, days - 1);
      assert Steps(f, days - 1);
      NextDayCounts(f(days - 1));
    } else if days < 0 {
      CountOfSteps(f, days + 1);
      assert Steps(f, days);
      NextDayCounts(f(days));
    }
  }

  /** Day 0 is 1 January 1970, and counting the days to the date of any day number gives the number back. */
  lemma CountOfCivil(days: int)
    ensures CivilFromDays(0) == Date(1970, 1, 1)
    ensures ValidDate(CivilFromDays(days)) && DayNumber(CivilFromDays(days)) == days
  {
    assert CivilFromDays(0) == Date(1970, 1, 1);
    forall d ensures Steps(CivilFromDays, d) { CivilSuccessor(d); }
    CountOfSteps(CivilFromDays, days);
  }

  predicate Before(s: Date, t: Date) {
    s.y < t.y || (s.y == t.y && (s.m < t.m || (s.m == t.m && s.d < t.d)))
  }

  lemma {:induction false} YearsGrow(a: int, b: int)
    requires a < b
    ensures DaysBeforeYear(a) + YearLength(a) <= DaysBeforeYear(b)
    decreases b - a
  {
    assert DaysBeforeYear(b) == DaysBeforeYear(b - 1) + YearLength(b - 1);
    if a < b - 1 { YearsGrow(a, b - 1); }
  }

  lemma {:induction false} MonthsGrow(y: int, a: int, b: int)
    requires 1 <= a < b <= 12
    ensures 0 <= DaysBeforeMonth(y, a) && DaysBeforeMonth(y, a) + MonthLength(y, a) <= DaysBeforeMonth(y, b)
    decreases b
  {
    if a < b - 1 {
      MonthsGrow(y, a, b - 1);
    } else if a > 1 {
      MonthsGrow(y, 1, a);
    }
  }

  lemma DayWithinYear(t: Date)
    requires ValidDate(t)
    ensures DaysBeforeYear(t.y) <= DayNumber(t) < DaysBeforeYear(t.y) + YearLength(t.y)
  {
    MonthsMakeYear(t.y);
    if t.m > 1 { MonthsGrow(t.y, 1, t.m); }
    if t.m < 12 { MonthsGrow(t.y, t.m, 12); }
  }

  /** Day numbers order dates. */
  lemma DayNumberOrders(s: Date, t: Date)
    requires ValidDate(s) && ValidDate(t)
    ensures Before(s, t) ==> DayNumber(s) < DayNumber(t)
  {
    DayWithinYear(s);
    DayWithinYear(t);
    if s.y < t.y { YearsGrow(s.y, t.y); }
    if s.y == t.y && s.m < t.m { MonthsGrow(s.y, s.m, t.m); }
  }

  /** Every calendar date is the date of exactly its own day number. */
  lemma CivilOfCount(t: Date)
    requires ValidDate(t)
    ensures CivilFromDays(DayNumber(t)) == t
  {
    var s := CivilFromDays(DayNumber(t));
    CountOfCivil(DayNumber(t));
    DayNumberOrders(s, t);
    DayNumberOrders(t, s);
  }

  /** Later days have later dates. */
  lemma CivilMonotone(a: int, b: int)
    requires a < b
    ensures Before(CivilFromDays(a), CivilFromDays(b))
  {
    CountOfCivil(a);
    CountOfCivil(b);
    DayNumberOrders(CivilFromDays(b), CivilFromDays(a));
  }

  lemma AfterEpoch(days: nat)
    ensures var t := CivilFromDays(days); t.y >= 1970 && 1 <= t.m <= 12 && 1 <= t.d <= 31
  {
    CountOfCivil(days);
    if days > 0 { CivilMonotone(0, days); }
  }

  lemma DayOfYear10000()
    ensures CivilFromDays(2932897) == Date(10000, 1, 1)
  {
    assert At(2932897, 24, 399, 306);
    CivilAt(2932897, 24, 399, 306);
    MonthStarts();
    CivilInMonth(9999, 306, 10);
  }

  lemma BeforeYear10000(days: int)
    requires days < 2932897
    ensures CivilFromDays(days).y <= 9999
  {
    DayOfYear10000();
    CountOfCivil(days);
    CivilMonotone(days, 2932897);
  }
}
