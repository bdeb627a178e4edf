/**
 The UTC time stamp printed for heartbeats: a reader of the RFC 3339 form gets
 back the same second, and text order is time order.
 */
module Timestamp {
  import opened Prelude
  import opened Calendar
  import opened Decimal

  const STAMP_COLUMNS := [Column(4, "-"), Column(2, "-"), Column(2, "T"), Column(2, ":"), Column(2, ":"), Column(2, "Z")]

  function DateOf(t: int): Date {
    Civil(t / 86_400)
  }

  /** Times from 0000-01-01 up to, not including, 10000-01-01: those whose year prints in four digits. */
  predicate FourDigitYear(t: int) {
    -719_528 * 86_400 <= t < 2_932_897 * 86_400
  }

  lemma DateIsValid(t: int)
    ensures ValidDate(DateOf(t)) && DayNumber(DateOf(t)) == t / 86_400
  {
    CivilCounts(t / 86_400);
  }

  /** A date lies in or after year `y` exactly when its day number reaches that year. */
  lemma YearReached(d: Date, y: int)
    requires ValidDate(d)
    ensures d.year >= y <==> DayNumber(d) >= DaysBeforeYear(y)
  {
    DayOfYearBound(d);
    if d.year >= y {
      YearsGrow(y, d.year);
    } else {
      YearsGrow(d.year, y);
    }
  }

  /** The same in closed form, with the leap years before `y` counted. */
  lemma YearReachedFrom(d: Date, y: int, leaps: int)
    requires ValidDate(d) && LeapsBefore(y) == leaps
    ensures d.year >= y <==> DayNumber(d) >= 365 * y + leaps - 719_527
  {
    YearReached(d, y);
    YearsInClosedForm(y);
  }

  lemma FourDigitDate(d: Date)
    requires ValidDate(d)
    ensures -719_528 <= DayNumber(d) < 2_932_897 <==> 0 <= d.year <= 9999
  {
    YearReachedFrom(d, 0, -1);
    YearReachedFrom(d, 10_000, 2_424);
  }

  lemma FourDigitYearIs(t: int)
    ensures FourDigitYear(t) <==> 0 <= DateOf(t).year <= 9999
  {
    var day := t / 86_400;
    assert FourDigitYear(t) <==> -719_528 <= day < 2_932_897;
    CivilCounts(day);
    FourDigitDate(Civil(day));
  }

  /** Hour, minute and second of the day. */
  function ClockOf(t: int): (c: (nat, nat, nat))
    ensures c.0 < 24 && c.1 < 60 && c.2 < 60
    ensures t == (t / 86_400) * 86_400 + c.0 * 3_600 + c.1 * 60 + c.2
  {
    var sod := t % 86_400;
    (sod / 3_600, (sod % 3_600) / 60, sod % 60)
  }

  function DateValues(d: Date): seq<nat>
    requires ValidDate(d) && d.year >= 0
  {
    [d.year, d.month, d.day]
  }

  function StampValues(t: int): seq<nat>
    requires DateOf(t).year >= 0
  {
    DateIsValid(t);
    var c := ClockOf(t);
    DateValues(DateOf(t)) + [c.0, c.1, c.2]
  }

  /** `rfc3339_utc`: an error before the epoch, otherwise the padded fields. */
  function Rfc3339(t: int): Result<string, string> {
    if t < 0 then Err("system time is before Unix epoch")
    else
      AfterEpoch(t);
      Ok(Render(StampValues(t), STAMP_COLUMNS))
  }

  /** `rfc3339_utc` on a second count, absent when the clock stands before the epoch, by the calendar arithmetic. */
  method Rfc3339Utc(seconds: Option<U64>) returns (r: Result<string, string>)
    ensures r == Rfc3339(if seconds.Some? then seconds.value else -1)
  {
    if seconds.None? {
      return Err("system time is before Unix epoch");
    }
    var t := seconds.value;
    var days, sod := t / 86_400, t % 86_400;
    var date := CivilFromDays(days);
    AfterEpoch(t);
    DateIsValid(t);
    r := Ok(Render(DateValues(date) + [sod / 3_600, (sod % 3_600) / 60, sod % 60], STAMP_COLUMNS));
  }

  lemma AfterEpoch(t: int)
    requires t >= 0
    ensures DateOf(t).year >= 1970
  {
    DateIsValid(t);
    var d := DateOf(t);
    assert DayNumber(Date(1970, 1, 1)) == 0;
    if d.year < 1970 {
      DayNumberMonotone(d, Date(1970, 1, 1));
    }
  }

  // ---- reading -------------------------------------------------------------------------

  /** The date-time form of section 5.6 of RFC 3339, UTC, whole seconds, no leap second. */
  function ParseStamp(s: string): Option<int> {
    var fields := Scan(s, STAMP_COLUMNS);
    if fields.None? || |fields.value| != 6 then None
    else
      var f := fields.value;
      var d := Date(f[0], f[1], f[2]);
      if ValidDate(d) && f[3] < 24 && f[4] < 60 && f[5] < 60
      then Some(DayNumber(d) * 86_400 + f[3] * 3_600 + f[4] * 60 + f[5])
      else None
  }

  lemma PowersOfTen()
    ensures Pow10(2) == 100 && Pow10(4) == 10_000
  {
    assert Pow10(2) == 10 * Pow10(1) == 100;
    assert Pow10(4) == 10 * Pow10(3) == 100 * Pow10(2);
  }

  lemma StampFits(t: int)
    requires FourDigitYear(t)
    ensures DateOf(t).year >= 0 && FitsColumns(StampValues(t), STAMP_COLUMNS)
  {
    FourDigitYearIs(t);
    DateIsValid(t);
    PowersOfTen();
  }

  /** Reading a printed stamp gives back the very second that was printed. */
  lemma StampRoundTrip(t: int)
    requires t >= 0 && FourDigitYear(t)
    ensures Rfc3339(t).Ok? && ParseStamp(Rfc3339(t).value) == Some(t)
  {
    FourDigitYearIs(t);
    DateIsValid(t);
    FieldsRoundTrip(DateOf(t), ClockOf(t));
  }

  lemma FieldsRoundTrip(d: Date, c: (nat, nat, nat))
    requires ValidDate(d) && 0 <= d.year <= 9999 && c.0 < 24 && c.1 < 60 && c.2 < 60
    ensures ParseStamp(Render(DateValues(d) + [c.0, c.1, c.2], STAMP_COLUMNS)) ==
            Some(DayNumber(d) * 86_400 + c.0 * 3_600 + c.1 * 60 + c.2)
  {
    var values := DateValues(d) + [c.0, c.1, c.2];
    PowersOfTen();
    ScanRender(values, STAMP_COLUMNS);
    ParseFields(Render(values, STAMP_COLUMNS), d, c);
  }

  lemma ParseFields(s: string, d: Date, c: (nat, nat, nat))
    requires ValidDate(d) && d.year >= 0 && c.0 < 24 && c.1 < 60 && c.2 < 60
    requires Scan(s, STAMP_COLUMNS) == Some(DateValues(d) + [c.0, c.1, c.2])
    ensures ParseStamp(s) == Some(DayNumber(d) * 86_400 + c.0 * 3_600 + c.1 * 60 + c.2)
  {
    var f := DateValues(d) + [c.0, c.1, c.2];
    assert |f| == 6 && f[3] == c.0 && f[4] == c.1 && f[5] == c.2;
    assert Date(f[0], f[1], f[2]) == d;
  }

  // ---- the form, position by position --------------------------------------------------------------

  /** `number` stands in the `w` digits from `at` on, followed by `after`. */
  predicate Shows(s: string, at: nat, w: nat, number: int, after: char) {
    at + w < |s| && AllDigits(s[at..at + w]) && NumberOf(s[at..at + w]) == number && s[at + w] == after
  }

  /** One column: its number, the one character after it, and the rest. */
  lemma NumberShows(s: string, at: nat, number: nat, w: nat, after: string, rest: string)
    requires w >= 1 && number < Pow10(w) && |after| == 1 && at <= |s| && s[at..] == Pad(number, w) + after + rest
    ensures Shows(s, at, w, number, after[0]) && at + w + 1 <= |s| && s[at + w + 1..] == rest
  {
    var t, digits := s[at..], Pad(number, w);
    PadWidth(number, w);
    NumberOfPad(number, w);
    assert t[..w] == digits == s[at..at + w] && t[w] == s[at + w] == after[0];
    assert t[w + 1..] == rest == s[at + w + 1..];
  }

  /** Where the `n`-th column begins, each column being followed by one character. */
  function Start(cols: seq<Column>, n: nat): nat
    requires n <= |cols|
  {
    if n == 0 then 0 else Start(cols, n - 1) + cols[n - 1].width + 1
  }

  lemma RenderStep(v: seq<nat>, cols: seq<Column>, n: nat)
    requires |v| == |cols| && n < |cols|
    ensures Render(v[n..], cols[n..]) == Pad(v[n], cols[n].width) + cols[n].after + Render(v[n + 1..], cols[n + 1..])
  {
    assert v[n..][1..] == v[n + 1..] && cols[n..][1..] == cols[n + 1..];
  }

  lemma ColumnShows(s: string, v: seq<nat>, cols: seq<Column>, n: nat)
    requires FitsColumns(v, cols) && n < |cols| && |cols[n].after| == 1
    requires Start(cols, n) <= |s| && s[Start(cols, n)..] == Render(v[n..], cols[n..])
    ensures Shows(s, Start(cols, n), cols[n].width, v[n], cols[n].after[0])
    ensures Start(cols, n + 1) <= |s| && s[Start(cols, n + 1)..] == Render(v[n + 1..], cols[n + 1..])
  {
    RenderStep(v, cols, n);
    NumberShows(s, Start(cols, n), v[n], cols[n].width, cols[n].after, Render(v[n + 1..], cols[n + 1..]));
  }

  /** Every column shows its number at its place, and nothing follows the last. */
  lemma {:induction false} ColumnsShow(s: string, v: seq<nat>, cols: seq<Column>, n: nat)
    requires FitsColumns(v, cols) && n <= |cols| && (forall i :: 0 <= i < |cols| ==> |cols[i].after| == 1)
    requires s == Render(v, cols)
    ensures Start(cols, n) <= |s| && s[Start(cols, n)..] == Render(v[n..], cols[n..])
    ensures forall i :: 0 <= i < n ==> Shows(s, Start(cols, i), cols[i].width, v[i], cols[i].after[0])
  {
    if n == 0 {
      assert s[0..] == s && v[0..] == v && cols[0..] == cols;
    } else {
      ColumnsShow(s, v, cols, n - 1);
      ColumnShows(s, v, cols, n - 1);
    }
  }

  lemma SixStarts(cols: seq<Column>)
    requires |cols| == 6 && cols[0].width == 4 && forall i :: 1 <= i < 6 ==> cols[i].width == 2
    ensures Start(cols, 0) == 0 && Start(cols, 1) == 5 && Start(cols, 2) == 8 && Start(cols, 3) == 11
    ensures Start(cols, 4) == 14 && Start(cols, 5) == 17 && Start(cols, 6) == 20
  {
    assert Start(cols, 1) == 5;
    assert Start(cols, 3) == Start(cols, 2) + 3;
    assert Start(cols, 5) == Start(cols, 4) + 3;
  }

  lemma FieldsShow(v: seq<nat>)
    requires FitsColumns(v, STAMP_COLUMNS)
    ensures var s := Render(v, STAMP_COLUMNS);
            && |s| == 20 && Shows(s, 0, 4, v[0], '-') && Shows(s, 5, 2, v[1], '-') && Shows(s, 8, 2, v[2], 'T')
            && Shows(s, 11, 2, v[3], ':') && Shows(s, 14, 2, v[4], ':') && Shows(s, 17, 2, v[5], 'Z')
  {
    SixShow(Render(v, STAMP_COLUMNS), v, STAMP_COLUMNS);
  }

  lemma SixShow(s: string, v: seq<nat>, cols: seq<Column>)
    requires FitsColumns(v, cols) && |cols| == 6 && s == Render(v, cols)
    requires cols[0] == Column(4, "-") && cols[1] == Column(2, "-") && cols[2] == Column(2, "T")
    requires cols[3] == Column(2, ":") && cols[4] == Column(2, ":") && cols[5] == Column(2, "Z")
    ensures |s| == 20 && Shows(s, 0, 4, v[0], '-') && Shows(s, 5, 2, v[1], '-') && Shows(s, 8, 2, v[2], 'T')
    ensures Shows(s, 11, 2, v[3], ':') && Shows(s, 14, 2, v[4], ':') && Shows(s, 17, 2, v[5], 'Z')
  {
    ColumnsShow(s, v, cols, 6);
    SixStarts(cols);
    assert Render(v[6..], cols[6..]) == "";
    assert |s[20..]| == 0;
  }

  /** The printed stamp is `YYYY-MM-DDThh:mm:ssZ`: the calendar date of the day, then the time of day. */
  lemma StampForm(t: int)
    requires t >= 0 && FourDigitYear(t)
    ensures Rfc3339(t).Ok?
    ensures var s, d := Rfc3339(t).value, DateOf(t);
            && |s| == 20 && Shows(s, 0, 4, d.year, '-') && Shows(s, 5, 2, d.month, '-') && Shows(s, 8, 2, d.day, 'T')
            && Shows(s, 11, 2, t / 3_600 % 24, ':') && Shows(s, 14, 2, t / 60 % 60, ':') && Shows(s, 17, 2, t % 60, 'Z')
  {
    StampFits(t);
    FieldsShow(StampValues(t));
    ClockIs(t);
  }

  lemma ClockIs(t: int)
    ensures ClockOf(t).0 == t / 3_600 % 24 && ClockOf(t).1 == t / 60 % 60 && ClockOf(t).2 == t % 60
  {
    var c, day := ClockOf(t), t / 86_400;
    DivisionIs(t, 3_600, 24 * day + c.0, c.1 * 60 + c.2);
    DivisionIs(24 * day + c.0, 24, day, c.0);
    DivisionIs(t, 60, 1_440 * day + 60 * c.0 + c.1, c.2);
    DivisionIs(1_440 * day + 60 * c.0 + c.1, 60, 24 * day + c.0, c.1);
  }

  // ---- order -----------------------------------------------------------------------------

  lemma ValuesLessStep(x: nat, y: nat, a: seq<nat>, b: seq<nat>)
    requires |a| == |b|
    ensures ValuesLess([x] + a, [y] + b) <==> x < y || (x == y && ValuesLess(a, b))
  {
    assert ([x] + a)[1..] == a && ([y] + b)[1..] == b;
  }

  /** Dates first, whatever follows: the calendar order of dates decides, then the rest. */
  lemma DatesDecide(a: Date, b: Date, ra: seq<nat>, rb: seq<nat>)
    requires ValidDate(a) && ValidDate(b) && a.year >= 0 && b.year >= 0 && |ra| == |rb|
    ensures ValuesLess(DateValues(a) + ra, DateValues(b) + rb) <==>
            DayNumber(a) < DayNumber(b) || (a == b && ValuesLess(ra, rb))
  {
    assert DateValues(a) + ra == [a.year] + ([a.month] + ([a.day] + ra));
    assert DateValues(b) + rb == [b.year] + ([b.month] + ([b.day] + rb));
    ValuesLessStep(a.year, b.year, [a.month] + ([a.day] + ra), [b.month] + ([b.day] + rb));
    ValuesLessStep(a.month, b.month, [a.day] + ra, [b.day] + rb);
    ValuesLessStep(a.day, b.day, ra, rb);
    if Earlier(a, b) {
      DayNumberMonotone(a, b);
    } else if Earlier(b, a) {
      DayNumberMonotone(b, a);
    }
  }

  lemma ClockDecides(a: (nat, nat, nat), b: (nat, nat, nat))
    requires a.0 < 24 && a.1 < 60 && a.2 < 60 && b.0 < 24 && b.1 < 60 && b.2 < 60
    ensures ValuesLess([a.0, a.1, a.2], [b.0, b.1, b.2]) <==>
            a.0 * 3_600 + a.1 * 60 + a.2 < b.0 * 3_600 + b.1 * 60 + b.2
  {
    assert [a.0, a.1, a.2] == [a.0] + ([a.1] + ([a.2] + [])) && [b.0, b.1, b.2] == [b.0] + ([b.1] + ([b.2] + []));
    ValuesLessStep(a.0, b.0, [a.1] + ([a.2] + []), [b.1] + ([b.2] + []));
    ValuesLessStep(a.1, b.1, [a.2] + [], [b.2] + []);
    ValuesLessStep(a.2, b.2, [], []);
  }

  /** Section 5.1 of RFC 3339: stamps sort as strings exactly as they sort in time. */
  lemma StampsSort(a: int, b: int)
    requires 0 <= a && 0 <= b && FourDigitYear(a) && FourDigitYear(b)
    ensures Rfc3339(a).Ok? && Rfc3339(b).Ok?
    ensures Less(Rfc3339(a).value, Rfc3339(b).value) <==> a < b
  {
    StampFits(a);
    StampFits(b);
    RenderOrder(StampValues(a), StampValues(b), STAMP_COLUMNS);
    DateIsValid(a);
    DateIsValid(b);
    var ca, cb := ClockOf(a), ClockOf(b);
    DatesDecide(DateOf(a), DateOf(b), [ca.0, ca.1, ca.2], [cb.0, cb.1, cb.2]);
    ClockDecides(ca, cb);
    if a / 86_400 == b / 86_400 {
      DayNumberInjective(DateOf(a), DateOf(b));
    }
  }
}
