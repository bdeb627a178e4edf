/**
 Days since 1970-01-01 to a Gregorian date, as the agent computes it in closed
 form, against a calendar that only counts days month by month and year by year.
 */
module Calendar {

  datatype Date = Date(year: int, month: int, day: int)

  // ---- the reference calendar ------------------------------------------------------

  /** The leap-year rule of Appendix C of RFC 3339. */
  predicate IsLeap(y: int) {
    y % 4 == 0 && (y % 100 != 0 || y % 400 == 0)
  }

  function DaysInMonth(y: int, m: int): int
    requires 1 <= m <= 12
  {
    if m == 2 then (if IsLeap(y) then 29 else 28)
    else if m == 4 || m == 6 || m == 9 || m == 11 then 30
    else 31
  }

  function DaysInYear(y: int): int {
    if IsLeap(y) then 366 else 365
  }

  predicate ValidDate(d: Date) {
    1 <= d.month <= 12 && 1 <= d.day <= DaysInMonth(d.year, d.month)
  }

  function NextDay(d: Date): Date
    requires ValidDate(d)
  {
    if d.day < DaysInMonth(d.year, d.month) then d.(day := d.day + 1)
    else if d.month < 12 then Date(d.year, d.month + 1, 1)
    else Date(d.year + 1, 1, 1)
  }

  /** Days from 1970-01-01 to the first day of year `y`, one year at a time. */
  function DaysBeforeYear(y: int): int
    decreases if y >= 1970 then y - 1970 else 1970 - y
  {
    if y == 1970 then 0
    else if y > 1970 then DaysBeforeYear(y - 1) + DaysInYear(y - 1)
    else DaysBeforeYear(y + 1) - DaysInYear(y)
  }

  /** Days of year `y` before month `m`, one month at a time. */
  function DaysBeforeMonth(y: int, m: int): int
    requires 1 <= m <= 12
    decreases m
  {
    if m == 1 then 0 else DaysBeforeMonth(y, m - 1) + DaysInMonth(y, m - 1)
  }

  /** The day number of a date, by counting. */
  function DayNumber(d: Date): int
    requires ValidDate(d)
  {
    DaysBeforeYear(d.year) + DaysBeforeMonth(d.year, d.month) + d.day - 1
  }

  // ---- the closed form ---------------------------------------------------------------

  /** Division that truncates toward zero, as the source language's does. */
  function TruncDiv(a: int, b: int): int
    requires b > 0
  {
    if a >= 0 then a / b else -((-a) / b)
  }

  const I64_MIN: int := -0x8000_0000_0000_0000
  const I64_MAX: int := 0x7FFF_FFFF_FFFF_FFFF

  type I64 = x: int | -0x8000_0000_0000_0000 <= x <= 0x7FFF_FFFF_FFFF_FFFF

  /** Day numbers for which no intermediate value leaves 64 bits. */
  predicate InRange(days: int) {
    I64_MIN + 146_096 <= days + 719_468 <= I64_MAX
  }

  /** The same formula with floor division throughout. */
  function Civil(days: int): Date {
    CivilInEra((days + 719_468) / 146_097, (days + 719_468) % 146_097)
  }

  /** The date of day `doe` of a 400-year era. */
  function CivilInEra(era: int, doe: int): Date {
    var yoe := YearOfEra(doe);
    MarchBased(yoe + era * 400, doe - YearStart(yoe))
  }

  /** Month and day of the `doy`-th day after 1 March of year `y`. */
  function MarchBased(y: int, doy: int): Date {
    var mp := (5 * doy + 2) / 153;
    var month := if mp < 10 then mp + 3 else mp - 9;
    Date(y + (if month <= 2 then 1 else 0), month, doy - (153 * mp + 2) / 5 + 1)
  }

  /** Days of the era once its leap days are taken out. */
  function LeaplessDays(doe: int): int {
    doe - doe / 1_460 + doe / 36_524 - doe / 146_096
  }

  function YearOfEra(doe: int): int {
    LeaplessDays(doe) / 365
  }

  lemma FloorEra(z: int)
    ensures TruncDiv(if z >= 0 then z else z - 146_096, 146_097) == z / 146_097
    ensures z - (z / 146_097) * 146_097 == z % 146_097
  {
  }

  /** The year of a 64-bit day count fits 64 bits with room to spare. */
  lemma YearFits(z: I64, yoe: int)
    requires 0 <= yoe < 400
    ensures -0x4000_0000_0000_0000 <= yoe + z / 146_097 * 400 <= 0x4000_0000_0000_0000
  {
    assert z == z / 146_097 * 146_097 + z % 146_097;
  }

  /** First day, within the era, of the March-based year `y`. */
  function YearStart(y: int): int {
    365 * y + y / 4 - y / 100
  }

  lemma DivisionIs(a: int, b: int, quotient: int, rest: int)
    requires b > 0 && a == b * quotient + rest && 0 <= rest < b
    ensures a / b == quotient && a % b == rest
  {
    var k := a / b - quotient;
    assert b * k == b * (a / b) - b * quotient;
    assert k >= 1 ==> b * k >= b;
    assert k <= -1 ==> b * k <= -b;
  }

  /** Day `t` of year `s` of quadrennium `q` of century `c` of the era. */
  predicate Placed(doe: int, c: int, q: int, s: int, t: int) {
    && 0 <= c < 4 && 0 <= q < 25 && 0 <= s < 4
    && doe == 36_524 * c + 1_461 * q + 365 * s + t
    && 0 <= t < (if s == 3 && (q < 24 || c == 3) then 366 else 365)
  }

  lemma YearOfPlaced(doe: int, c: int, q: int, s: int, t: int)
    requires Placed(doe, c, q, s, t)
    ensures YearOfEra(doe) == 100 * c + 4 * q + s && LeaplessDays(doe) >= 0
    ensures YearStart(100 * c + 4 * q + s) == doe - t
  {
    var m := 24 * c + q + 365 * s + t;
    var late := if m >= 1_460 then 1 else 0;
    DivisionIs(doe, 1_460, 25 * c + q + late, m - 1_460 * late);
    var last := if doe == 146_096 then 1 else 0;
    DivisionIs(doe, 36_524, c + last, doe - 36_524 * (c + last));
    DivisionIs(doe, 146_096, last, doe - 146_096 * last);
    DivisionIs(LeaplessDays(doe), 365, 100 * c + 4 * q + s, t - late);
    DivisionIs(100 * c + 4 * q + s, 4, 25 * c + q, s);
    DivisionIs(100 * c + 4 * q + s, 100, c, 4 * q + s);
  }

  /** Every day of the era has a place. */
  lemma Place(doe: int) returns (c: int, q: int, s: int, t: int)
    requires 0 <= doe < 146_097
    ensures Placed(doe, c, q, s, t)
  {
    c := if doe == 146_096 then 3 else doe / 36_524;
    var r := doe - 36_524 * c;
    q := if r == 36_524 then 24 else r / 1_461;
    var r' := r - 1_461 * q;
    s := if r' == 1_460 then 3 else r' / 365;
    t := r' - 365 * s;
  }

  lemma EraDay(doe: int) returns (yoe: int, doy: int)
    requires 0 <= doe < 146_097
    ensures yoe == YearOfEra(doe) && LeaplessDays(doe) >= 0 && 0 <= yoe < 400
    ensures 0 <= doy <= 365 && doe == YearStart(yoe) + doy
  {
    var c, q, s, t := Place(doe);
    YearOfPlaced(doe, c, q, s, t);
    yoe, doy := 100 * c + 4 * q + s, t;
  }

  lemma CivilOfEra(days: int, era: int, doe: int)
    requires days + 719_468 == 146_097 * era + doe && 0 <= doe < 146_097
    ensures Civil(days) == CivilInEra(era, doe)
  {
    DivisionIs(days + 719_468, 146_097, era, doe);
  }

  /** The closed form in terms of the values the source computes on the way. */
  lemma CivilParts(days: int, era: int, doe: int) returns (yoe: int, doy: int)
    requires days + 719_468 == 146_097 * era + doe && 0 <= doe < 146_097
    ensures LeaplessDays(doe) >= 0 && yoe == LeaplessDays(doe) / 365 && 0 <= yoe < 400
    ensures doy == doe - YearStart(yoe) && 0 <= doy <= 365
    ensures Civil(days) == MarchBased(yoe + era * 400, doy)
  {
    yoe, doy := EraDay(doe);
    CivilOfEra(days, era, doe);
  }

  /** First half of the source's arithmetic: the year counted from March, and the day of that year. */
  method YearAndDay(daysSinceEpoch: I64) returns (year: I64, dayOfYear: int)
    requires InRange(daysSinceEpoch)
    ensures Civil(daysSinceEpoch) == MarchBased(year, dayOfYear)
    ensures -0x4000_0000_0000_0000 <= year <= 0x4000_0000_0000_0000 && 0 <= dayOfYear <= 365
  {
    var z: I64 := daysSinceEpoch + 719_468;
    var floored: I64 := if z >= 0 then z else z - 146_096;
    var era := TruncDiv(floored, 146_097);
    FloorEra(z);
    var eraStart: I64 := era * 146_097;
    var dayOfEra: I64 := z - eraStart;
    ghost var yoe, doy := CivilParts(daysSinceEpoch, era, dayOfEra);
    var leapless := dayOfEra - TruncDiv(dayOfEra, 1_460) + TruncDiv(dayOfEra, 36_524) - TruncDiv(dayOfEra, 146_096);
    assert leapless == LeaplessDays(dayOfEra);
    var yearOfEra := TruncDiv(leapless, 365);
    assert yearOfEra == yoe;
    YearFits(z, yearOfEra);
    year := yearOfEra + era * 400;
    dayOfYear := dayOfEra - (365 * yearOfEra + TruncDiv(yearOfEra, 4) - TruncDiv(yearOfEra, 100));
    assert dayOfYear == doy;
  }

  /** The source's arithmetic, step by step, with truncating division; no value leaves 64 bits. */
  method CivilFromDays(daysSinceEpoch: I64) returns (date: Date)
    requires InRange(daysSinceEpoch)
    ensures date == Civil(daysSinceEpoch)
  {
    var year: I64, dayOfYear := YearAndDay(daysSinceEpoch);
    var monthPrime := TruncDiv(5 * dayOfYear + 2, 153);
    var day := dayOfYear - TruncDiv(153 * monthPrime + 2, 5) + 1;
    var month := monthPrime + if monthPrime < 10 then 3 else -9;
    if month <= 2 {
      year := year + 1;
    }
    date := Date(year, month, day);
  }

  // ---- the closed form counts days -----------------------------------------------------

  /** Day number of 1 March of year `y`. */
  function MarchFirst(y: int): int {
    365 * y + y / 4 - y / 100 + y / 400 - 719_468
  }

  lemma QuotientStep(y: int, m: int)
    requires m > 0
    ensures y / m - (y - 1) / m == if y % m == 0 then 1 else 0
  {
    var k := y / m;
    if y % m == 0 {
      assert m * (k - 1) == m * k - m;
      DivisionIs(y - 1, m, k - 1, m - 1);
    } else {
      DivisionIs(y - 1, m, k, y % m - 1);
    }
  }

  /** 365 days a year and one for every leap year before `y`. */
  function LeapsBefore(y: int): int {
    (y - 1) / 4 - (y - 1) / 100 + (y - 1) / 400
  }

  lemma LeapsStep(y: int)
    ensures LeapsBefore(y + 1) - LeapsBefore(y) == if IsLeap(y) then 1 else 0
  {
    QuotientStep(y, 4);
    QuotientStep(y, 100);
    QuotientStep(y, 400);
    assert y % 400 == 0 ==> y % 100 == 0;
    assert y % 100 == 0 ==> y % 4 == 0;
  }

  lemma {:induction false} YearsInClosedForm(y: int)
    ensures DaysBeforeYear(y) == 365 * y + LeapsBefore(y) - 719_527
    decreases if y >= 1970 then y - 1970 else 1970 - y
  {
    if y > 1970 {
      YearsInClosedForm(y - 1);
      LeapsStep(y - 1);
    } else if y < 1970 {
      YearsInClosedForm(y + 1);
      LeapsStep(y);
    } else {
      assert LeapsBefore(1970) == 477;
    }
  }

  lemma MarchFirstCounts(y: int)
    ensures MarchFirst(y) == DaysBeforeYear(y) + DaysBeforeMonth(y, 3)
    ensures MarchFirst(y) + 306 == DaysBeforeYear(y + 1)
  {
    YearsInClosedForm(y);
    YearsInClosedForm(y + 1);
    LeapsStep(y);
    assert DaysBeforeMonth(y, 3) == DaysBeforeMonth(y, 2) + DaysInMonth(y, 2) == 31 + DaysInMonth(y, 2);
  }

  lemma MonthStarts(y: int)
    ensures var march := DaysBeforeMonth(y, 3);
            && DaysBeforeMonth(y, 4) == march + 31 && DaysBeforeMonth(y, 5) == march + 61
            && DaysBeforeMonth(y, 6) == march + 92 && DaysBeforeMonth(y, 7) == march + 122
            && DaysBeforeMonth(y, 8) == march + 153 && DaysBeforeMonth(y, 9) == march + 184
            && DaysBeforeMonth(y, 10) == march + 214 && DaysBeforeMonth(y, 11) == march + 245
            && DaysBeforeMonth(y, 12) == march + 275
            && DaysBeforeMonth(y, 1) == 0 && DaysBeforeMonth(y, 2) == 31
  {
    assert DaysBeforeMonth(y, 5) == DaysBeforeMonth(y, 4) + 30;
    assert DaysBeforeMonth(y, 6) == DaysBeforeMonth(y, 5) + 31;
    assert DaysBeforeMonth(y, 7) == DaysBeforeMonth(y, 6) + 30;
    assert DaysBeforeMonth(y, 8) == DaysBeforeMonth(y, 7) + 31;
    assert DaysBeforeMonth(y, 9) == DaysBeforeMonth(y, 8) + 31;
    assert DaysBeforeMonth(y, 10) == DaysBeforeMonth(y, 9) + 30;
    assert DaysBeforeMonth(y, 11) == DaysBeforeMonth(y, 10) + 31;
    assert DaysBeforeMonth(y, 12) == DaysBeforeMonth(y, 11) + 30;
  }

  /** Days from 1 March to the start of the `mp`-th month after it. */
  function MonthOffset(mp: int): int {
    [0, 31, 61, 92, 122, 153, 184, 214, 245, 275, 306, 337, 367][if 0 <= mp <= 12 then mp else 12]
  }

  lemma MonthFormula(doy: int) returns (mp: int)
    requires 0 <= doy < 366
    ensures 0 <= mp <= 11 && MonthOffset(mp) <= doy < MonthOffset(mp + 1)
    ensures (5 * doy + 2) / 153 == mp && (153 * mp + 2) / 5 == MonthOffset(mp)
  {
    mp := 0;
    while doy >= MonthOffset(mp + 1)
      invariant 0 <= mp <= 11 && MonthOffset(mp) <= doy
      decreases 12 - mp
    {
      mp := mp + 1;
    }
    DivisionIs(5 * doy + 2, 153, mp, 5 * doy + 2 - 153 * mp);
  }

  lemma MarchBasedCounts(y: int, doy: int)
    requires 0 <= doy < (if IsLeap(y + 1) then 366 else 365)
    ensures ValidDate(MarchBased(y, doy)) && DayNumber(MarchBased(y, doy)) == MarchFirst(y) + doy
  {
    MarchFirstCounts(y);
    MonthStarts(y);
    MonthStarts(y + 1);
    var mp := MonthFormula(doy);
  }

  lemma LeapPlace(era: int, c: int, q: int, s: int)
    requires 0 <= c < 4 && 0 <= q < 25 && 0 <= s < 4
    ensures IsLeap(400 * era + 100 * c + 4 * q + s + 1) <==> s == 3 && (q < 24 || c == 3)
  {
    var y := 400 * era + 100 * c + 4 * q + s;
    DivisionIs(y, 4, 100 * era + 25 * c + q, s);
    DivisionIs(y, 100, 4 * era + c, 4 * q + s);
    DivisionIs(y, 400, era, 100 * c + 4 * q + s);
    QuotientStep(y + 1, 4);
    QuotientStep(y + 1, 100);
    QuotientStep(y + 1, 400);
  }

  lemma MarchFirstOfEra(era: int, yoe: int)
    requires 0 <= yoe < 400
    ensures MarchFirst(400 * era + yoe) == 146_097 * era + YearStart(yoe) - 719_468
  {
    var y := 400 * era + yoe;
    DivisionIs(y, 4, 100 * era + yoe / 4, yoe % 4);
    DivisionIs(y, 100, 4 * era + yoe / 100, yoe % 100);
    DivisionIs(y, 400, era, yoe);
  }

  lemma PlacedDate(days: int, era: int, doe: int, c: int, q: int, s: int, t: int)
    requires days + 719_468 == 146_097 * era + doe && Placed(doe, c, q, s, t) && 0 <= doe < 146_097
    ensures Civil(days) == MarchBased(400 * era + 100 * c + 4 * q + s, t)
  {
    CivilOfEra(days, era, doe);
    YearOfPlaced(doe, c, q, s, t);
  }

  lemma PlacedCount(days: int, era: int, doe: int, c: int, q: int, s: int, t: int)
    requires days + 719_468 == 146_097 * era + doe && Placed(doe, c, q, s, t)
    ensures days == MarchFirst(400 * era + 100 * c + 4 * q + s) + t
  {
    YearOfPlaced(doe, c, q, s, t);
    var yoe := 100 * c + 4 * q + s;
    MarchFirstOfEra(era, yoe);
    assert 400 * era + 100 * c + 4 * q + s == 400 * era + yoe;
  }

  /** A day number as a March-based year and a day in it. */
  lemma CivilIsMarchBased(days: int) returns (y: int, doy: int)
    ensures Civil(days) == MarchBased(y, doy) && days == MarchFirst(y) + doy
    ensures 0 <= doy < (if IsLeap(y + 1) then 366 else 365)
  {
    var era, doe := (days + 719_468) / 146_097, (days + 719_468) % 146_097;
    var c, q, s, t := Place(doe);
    PlacedDate(days, era, doe, c, q, s, t);
    PlacedCount(days, era, doe, c, q, s, t);
    LeapPlace(era, c, q, s);
    y, doy := 400 * era + 100 * c + 4 * q + s, t;
  }

  /** Counting the days of the computed date gives back the day number, and the date exists. */
  lemma CivilCounts(days: int)
    ensures ValidDate(Civil(days)) && DayNumber(Civil(days)) == days
  {
    var y, doy := CivilIsMarchBased(days);
    MarchBasedCounts(y, doy);
  }

  /** Day 0 is the epoch and each next day is the calendar's next day. */
  lemma CivilSteps(days: int)
    ensures Civil(0) == Date(1970, 1, 1)
    ensures ValidDate(Civil(days)) && Civil(days + 1) == NextDay(Civil(days))
  {
    CivilOfEpoch();
    CivilCounts(days);
    CivilCounts(days + 1);
    NextDayCounts(Civil(days));
    DayNumberInjective(Civil(days + 1), NextDay(Civil(days)));
  }

  lemma CivilOfEpoch()
    ensures Civil(0) == Date(1970, 1, 1)
  {
    CivilCounts(0);
    EpochCounts();
    DayNumberInjective(Civil(0), Date(1970, 1, 1));
  }

  lemma EpochCounts()
    ensures ValidDate(Date(1970, 1, 1)) && DayNumber(Date(1970, 1, 1)) == 0
  {
  }

  /** The other direction: the formula recovers every real date from its count. */
  lemma CivilInverts(d: Date)
    requires ValidDate(d)
    ensures Civil(DayNumber(d)) == d
  {
    CivilCounts(DayNumber(d));
    DayNumberInjective(Civil(DayNumber(d)), d);
  }

  /** Calendar order of dates. */
  predicate Earlier(a: Date, b: Date) {
    a.year < b.year || (a.year == b.year && (a.month < b.month || (a.month == b.month && a.day < b.day)))
  }

  lemma {:induction false} YearsGrow(a: int, b: int)
    requires a <= b
    ensures DaysBeforeYear(a) + 365 * (b - a) <= DaysBeforeYear(b)
    ensures a < b ==> DaysBeforeYear(a) + DaysInYear(a) <= DaysBeforeYear(b)
    decreases b - a
  {
    if a < b {
      YearStep(a);
      YearsGrow(a + 1, b);
    }
  }

  lemma {:induction false} MonthsGrow(y: int, a: int, b: int)
    requires 1 <= a <= b <= 12
    ensures a < b ==> DaysBeforeMonth(y, a) + DaysInMonth(y, a) <= DaysBeforeMonth(y, b)
    decreases b
  {
    if a < b - 1 {
      MonthsGrow(y, a, b - 1);
    }
  }

  lemma DayOfYearBound(d: Date)
    requires ValidDate(d)
    ensures 0 <= DaysBeforeMonth(d.year, d.month) + d.day - 1 < DaysInYear(d.year)
  {
    MonthStarts(d.year);
    assert DaysBeforeMonth(d.year, 3) == DaysBeforeMonth(d.year, 2) + DaysInMonth(d.year, 2);
    MonthsGrow(d.year, d.month, 12);
    MonthsGrow(d.year, 1, d.month);
  }

  /** Counting respects calendar order. */
  lemma DayNumberMonotone(a: Date, b: Date)
    requires ValidDate(a) && ValidDate(b) && Earlier(a, b)
    ensures DayNumber(a) < DayNumber(b)
  {
    DayOfYearBound(a);
    DayOfYearBound(b);
    if a.year < b.year {
      YearsGrow(a.year, b.year);
    } else if a.month < b.month {
      MonthsGrow(a.year, a.month, b.month);
    }
  }

  lemma DayNumberInjective(a: Date, b: Date)
    requires ValidDate(a) && ValidDate(b) && DayNumber(a) == DayNumber(b)
    ensures a == b
  {
    if Earlier(a, b) {
      DayNumberMonotone(a, b);
    } else if Earlier(b, a) {
      DayNumberMonotone(b, a);
    }
  }

  lemma NextDayCounts(d: Date)
    requires ValidDate(d)
    ensures ValidDate(NextDay(d)) && DayNumber(NextDay(d)) == DayNumber(d) + 1
  {
    if d.day == DaysInMonth(d.year, d.month) && d.month == 12 {
      MonthStarts(d.year);
      assert DaysBeforeMonth(d.year, 3) == DaysBeforeMonth(d.year, 2) + DaysInMonth(d.year, 2);
      YearStep(d.year);
    }
  }

  lemma YearStep(y: int)
    ensures DaysBeforeYear(y + 1) == DaysBeforeYear(y) + DaysInYear(y)
  {
    YearsInClosedForm(y);
    YearsInClosedForm(y + 1);
    LeapsStep(y);
  }
}
