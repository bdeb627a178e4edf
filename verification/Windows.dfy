/** Hour and minute window labels: fixed-width local-time text whose string order is time order. */
module Windows {
  import opened Calendar
  import opened Decimal
  import opened Timestamp

  const HOUR_COLUMNS := [Column(4, "-"), Column(2, "-"), Column(2, "-"), Column(2, "")]
  const MINUTE_COLUMNS := [Column(4, "-"), Column(2, "-"), Column(2, "-"), Column(2, "-"), Column(2, "")]

  function HourValues(t: int): seq<nat>
    requires FourDigitYear(t)
  {
    DateIsValid(t);
    FourDigitYearIs(t);
    DateValues(DateOf(t)) + [ClockOf(t).0]
  }

  function MinuteValues(t: int): seq<nat>
    requires FourDigitYear(t)
  {
    DateIsValid(t);
    FourDigitYearIs(t);
    DateValues(DateOf(t)) + [ClockOf(t).0, ClockOf(t).1]
  }

  /** `Format("2006-01-02-15")` of the second `t` of local time. */
  function HourLabel(t: int): string
    requires FourDigitYear(t)
  {
    Render(HourValues(t), HOUR_COLUMNS)
  }

  /** `Format("2006-01-02-15-04")` */
  function MinuteLabel(t: int): string
    requires FourDigitYear(t)
  {
    Render(MinuteValues(t), MINUTE_COLUMNS)
  }

  lemma HourOf(t: int)
    ensures t / 3_600 == 24 * (t / 86_400) + ClockOf(t).0
  {
    var c := ClockOf(t);
    DivisionIs(t, 3_600, 24 * (t / 86_400) + c.0, c.1 * 60 + c.2);
  }

  lemma MinuteOf(t: int)
    ensures t / 60 == 1_440 * (t / 86_400) + 60 * ClockOf(t).0 + ClockOf(t).1
  {
    var c := ClockOf(t);
    DivisionIs(t, 60, 1_440 * (t / 86_400) + 60 * c.0 + c.1, c.2);
  }

  lemma ValuesFit(t: int)
    requires FourDigitYear(t)
    ensures FitsColumns(HourValues(t), HOUR_COLUMNS) && FitsColumns(MinuteValues(t), MINUTE_COLUMNS)
  {
    FourDigitYearIs(t);
    DateIsValid(t);
    PowersOfTen();
  }

  /** On two times of four-digit years, day numbers decide, and equal day numbers are equal dates. */
  lemma DaysDecide(a: int, b: int, ra: seq<nat>, rb: seq<nat>)
    requires FourDigitYear(a) && FourDigitYear(b) && |ra| == |rb|
    ensures ValidDate(DateOf(a)) && ValidDate(DateOf(b)) && DateOf(a).year >= 0 && DateOf(b).year >= 0
    ensures ValuesLess(DateValues(DateOf(a)) + ra, DateValues(DateOf(b)) + rb) <==>
            a / 86_400 < b / 86_400 || (a / 86_400 == b / 86_400 && ValuesLess(ra, rb))
  {
    DateIsValid(a);
    DateIsValid(b);
    FourDigitYearIs(a);
    FourDigitYearIs(b);
    DatesDecide(DateOf(a), DateOf(b), ra, rb);
    if a / 86_400 == b / 86_400 {
      DayNumberInjective(DateOf(a), DateOf(b));
    }
  }

  /** Hour labels compare as strings exactly as hours do in time. */
  lemma HourLabelsSort(a: int, b: int)
    requires FourDigitYear(a) && FourDigitYear(b)
    ensures Less(HourLabel(a), HourLabel(b)) <==> a / 3_600 < b / 3_600
  {
    ValuesFit(a);
    ValuesFit(b);
    RenderOrder(HourValues(a), HourValues(b), HOUR_COLUMNS);
    var ha, hb := ClockOf(a).0, ClockOf(b).0;
    DaysDecide(a, b, [ha], [hb]);
    ValuesLessStep(ha, hb, [], []);
    assert [ha] == [ha] + [] && [hb] == [hb] + [];
    HourOf(a);
    HourOf(b);
  }

  /** Minute labels compare as strings exactly as minutes do in time. */
  lemma MinuteLabelsSort(a: int, b: int)
    requires FourDigitYear(a) && FourDigitYear(b)
    ensures Less(MinuteLabel(a), MinuteLabel(b)) <==> a / 60 < b / 60
  {
    ValuesFit(a);
    ValuesFit(b);
    RenderOrder(MinuteValues(a), MinuteValues(b), MINUTE_COLUMNS);
    var ca, cb := ClockOf(a), ClockOf(b);
    DaysDecide(a, b, [ca.0, ca.1], [cb.0, cb.1]);
    assert [ca.0, ca.1] == [ca.0] + ([ca.1] + []) && [cb.0, cb.1] == [cb.0] + ([cb.1] + []);
    ValuesLessStep(ca.0, cb.0, [ca.1] + [], [cb.1] + []);
    ValuesLessStep(ca.1, cb.1, [], []);
    MinuteOf(a);
    MinuteOf(b);
  }
}
