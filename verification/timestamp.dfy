/**
 * The `%Y%m%dT%H%M%S` rendering of an instant, as `strftime` produces it for a
 * timezone-naive datetime in the proleptic Gregorian calendar, and the proof
 * that distinct instants render differently.
 */
module Timestamp {
  import opened Series

  datatype Civil = Civil(year: int, month: int, day: int)

  datatype DateTime = DateTime(date: Civil, hour: int, minute: int, second: int)

  /**
   * The calendar date `z` days after 1970-01-01. Days are counted from
   * 0000-03-01 so that a leap day always ends a year: a 400-year era has 146097
   * days, a century 36524 (the last of an era one more), a four-year group
   * 1461 and a year 365 (the last of a group one more).
   */
  function CivilFromDays(z: int): (c: Civil)
    ensures 1 <= c.month <= 12 && 1 <= c.day <= 31
  {
    var shifted := z + 719468;
    CivilInEra(shifted / 146097, shifted % 146097)
  }

  /** The calendar date on day `doe` of era `era`, the era starting on 0000-03-01 plus 400 `era` years. */
  function CivilInEra(era: int, doe: int): (c: Civil)
    requires 0 <= doe < 146097
    ensures 1 <= c.month <= 12 && 1 <= c.day <= 31
  {
    var d := DateInEra(doe);
    Civil(400 * era + d.year + (if d.month <= 2 then 1 else 0), d.month, d.day)
  }

  /**
   * The date on day `doe` of an era, its year counted within the era from
   * March, so that January and February belong to the year before.
   */
  function DateInEra(doe: int): (c: Civil)
    requires 0 <= doe < 146097
    ensures 0 <= c.year < 400 && 1 <= c.month <= 12 && 1 <= c.day <= 31
  {
    var yd := YearAndDayInEra(doe);
    var md := MonthAndDay(yd.1);
    Civil(yd.0, md.0, md.1)
  }

  /** The year within the era of day `doe`, and the day within that year. */
  function YearAndDayInEra(doe: int): (yd: (int, int))
    requires 0 <= doe < 146097
    ensures 0 <= yd.0 < 400 && 0 <= yd.1 <= 365
  {
    var century := if doe / 36524 == 4 then 3 else doe / 36524;
    var doc := doe - 36524 * century;
    var quad := doc / 1461;
    var doq := doc % 1461;
    var yq := if doq / 365 == 4 then 3 else doq / 365;
    (100 * century + 4 * quad + yq, doq - 365 * yq)
  }

  /** The month, counted from January, and the day of the month of day `doy` of a March-based year. */
  function MonthAndDay(doy: int): (md: (int, int))
    requires 0 <= doy <= 365
    ensures 1 <= md.0 <= 12 && 1 <= md.1 <= 31
  {
    var mp := (5 * doy + 2) / 153;
    (if mp < 10 then mp + 3 else mp - 9, doy - (153 * mp + 2) / 5 + 1)
  }

  /** Days from March 1 to the first of a month, months counted from March. */
  function DaysBeforeMonth(month: int): int
  {
    var mp := if month > 2 then month - 3 else month + 9;
    (153 * mp + 2) / 5
  }

  /** Days from 1970-01-01 to a calendar date: the Gregorian day count, by formula. */
  function DaysFromCivil(c: Civil): int
  {
    var y := if c.month <= 2 then c.year - 1 else c.year;
    var era := y / 400;
    var yoe := y % 400;
    var doe := 365 * yoe + yoe / 4 - yoe / 100 + DaysBeforeMonth(c.month) + c.day - 1;
    146097 * era + doe - 719468
  }

  /** The calendar date and clock time of an instant. */
  function ToDateTime(t: Instant): (dt: DateTime)
    ensures 0 <= dt.hour < 24 && 0 <= dt.minute < 60 && 0 <= dt.second < 60
  {
    var sod := t % 86400;
    DateTime(CivilFromDays(t / 86400), sod / 3600, sod % 3600 / 60, sod % 60)
  }

  function FromDateTime(dt: DateTime): Instant
  {
    DaysFromCivil(dt.date) * 86400 + dt.hour * 3600 + dt.minute * 60 + dt.second
  }

  // ---------------------------------------------------------------------------
  // Decimal digits.

  predicate IsDigit(ch: char) { '0' <= ch <= '9' }

  function DigitChar(d: nat): (ch: char)
    requires d < 10
    ensures IsDigit(ch)
  {
    ('0' as int + d) as char
  }

  /** `n` in decimal, left-padded with zeros to at least `width` digits. */
  function ZeroPad(n: nat, width: nat): (s: string)
    ensures |s| >= 1 && |s| >= width && forall i :: 0 <= i < |s| ==> IsDigit(s[i])
    decreases n + width
  {
    if n < 10 && width <= 1 then [DigitChar(n)]
    else ZeroPad(n / 10, if width == 0 then 0 else width - 1) + [DigitChar(n % 10)]
  }

  /** The number a string of decimal digits denotes. */
  function DecimalValue(s: string): nat
    requires forall i :: 0 <= i < |s| ==> IsDigit(s[i])
  {
    if s == [] then 0
    else
      assert IsDigit(s[|s| - 1]);
      10 * DecimalValue(s[..|s| - 1]) + (s[|s| - 1] as int - '0' as int)
  }

  /** A field of `%m`, `%d`, `%H`, `%M` or `%S`: exactly two digits. */
  function TwoDigits(n: nat): (s: string)
    requires n < 100
    ensures |s| == 2
  {
    [DigitChar(n / 10), DigitChar(n % 10)]
  }

  /** `%Y`: four digits for the years a datetime holds, a sign before years that it cannot. */
  function YearText(y: int): string
  {
    if y >= 0 then ZeroPad(y, 4) else "-" + ZeroPad(-y, 4)
  }

  /** `%m%dT%H%M%S`: the fixed-width part of the stamp. */
  function DayAndClock(dt: DateTime): (s: string)
    requires 1 <= dt.date.month <= 12 && 1 <= dt.date.day <= 31
    requires 0 <= dt.hour < 24 && 0 <= dt.minute < 60 && 0 <= dt.second < 60
    ensures |s| == 11
  {
    TwoDigits(dt.date.month) + TwoDigits(dt.date.day) + "T"
      + TwoDigits(dt.hour) + TwoDigits(dt.minute) + TwoDigits(dt.second)
  }

  /** `strftime("%Y%m%dT%H%M%S")` of an instant. */
  function Stamp(t: Instant): (s: string)
    ensures |s| >= 15 && s[|s| - 7] == 'T'
  {
    var dt := ToDateTime(t);
    YearText(dt.date.year) + DayAndClock(dt)
  }

  // ---------------------------------------------------------------------------
  // The rendering can be read back, so it never maps two instants to one text.

  /** The day count inverts the calendar conversion. */
  lemma CivilRoundTrip(z: int)
    ensures DaysFromCivil(CivilFromDays(z)) == z
  {
    var shifted := z + 719468;
    var era, doe := shifted / 146097, shifted % 146097;
    assert 0 <= doe < 146097 && shifted == 146097 * era + doe;
    CivilInEraRoundTrip(era, doe);
    assert CivilFromDays(z) == CivilInEra(era, doe);
  }

  /** The day count of a date given by era and day of era. */
  lemma CivilInEraRoundTrip(era: int, doe: int)
    requires 0 <= doe < 146097
    ensures DaysFromCivil(CivilInEra(era, doe)) == 146097 * era + doe - 719468
  {
    DaysFromEraDate(era, DateInEra(doe));
    DateInEraCount(doe);
  }

  /** The day count of the date on a day of an era: the era's days, then the count within the era. */
  lemma DaysFromEraDate(era: int, d: Civil)
    requires 0 <= d.year < 400 && 1 <= d.month <= 12
    ensures DaysFromCivil(Civil(400 * era + d.year + (if d.month <= 2 then 1 else 0), d.month, d.day))
      == 146097 * era + 365 * d.year + d.year / 4 - d.year / 100 + DaysBeforeMonth(d.month) + d.day - 1 - 719468
  {
    EraOfYear(era, d.year);
  }

  /** A year splits uniquely into its era and its year within the era. */
  lemma EraOfYear(era: int, yoe: int)
    requires 0 <= yoe < 400
    ensures (400 * era + yoe) / 400 == era && (400 * era + yoe) % 400 == yoe
  {
  }

  /** The date within an era counts back to its day: whole years, their leap days, then months and days. */
  lemma DateInEraCount(doe: int)
    requires 0 <= doe < 146097
    ensures var d := DateInEra(doe);
      365 * d.year + d.year / 4 - d.year / 100 + DaysBeforeMonth(d.month) + d.day - 1 == doe
  {
    YearAndDayCount(doe);
    MonthAndDayCount(YearAndDayInEra(doe).1);
  }

  /** The whole years of an era before day `doe`, with their leap days, and the day of the year add up to `doe`. */
  lemma YearAndDayCount(doe: int)
    requires 0 <= doe < 146097
    ensures var yd := YearAndDayInEra(doe);
      365 * yd.0 + yd.0 / 4 - yd.0 / 100 + yd.1 == doe
  {
    var century := if doe / 36524 == 4 then 3 else doe / 36524;
    var doc := doe - 36524 * century;
    CenturySplit(doe);
    var quad := doc / 1461;
    var yq := if doc % 1461 / 365 == 4 then 3 else doc % 1461 / 365;
    var doy := doc % 1461 - 365 * yq;
    YearSplit(doc);
    LeapDays(century, quad, yq);
    assert YearAndDayInEra(doe) == (100 * century + 4 * quad + yq, doy);
    assert doe == 36524 * century + 1461 * quad + 365 * yq + doy;
  }

  /** The days of the months before, and the day of the month, add up to the day of the year. */
  lemma MonthAndDayCount(doy: int)
    requires 0 <= doy <= 365
    ensures var md := MonthAndDay(doy);
      DaysBeforeMonth(md.0) + md.1 - 1 == doy
  {
    MonthSplit(doy);
  }

  /** An era splits into three centuries of 36524 days and a last one of 36525. */
  lemma CenturySplit(doe: int)
    requires 0 <= doe < 146097
    ensures var century := if doe / 36524 == 4 then 3 else doe / 36524;
      0 <= century <= 3 && 0 <= doe - 36524 * century <= 36524
  {
  }

  /** A century splits into four-year groups of 1461 days, and a group into years of 365 days and a last one of 366. */
  lemma YearSplit(doc: int)
    requires 0 <= doc <= 36524
    ensures var doq := doc % 1461;
      var yq := if doq / 365 == 4 then 3 else doq / 365;
      && 0 <= doc / 1461 <= 24 && 0 <= yq <= 3 && 0 <= doq - 365 * yq <= 365
      && doc == 1461 * (doc / 1461) + 365 * yq + (doq - 365 * yq)
  {
  }

  /** A day of a March-based year falls in one of its twelve months, which starts no later than that day. */
  lemma MonthSplit(doy: int)
    requires 0 <= doy <= 365
    ensures var mp := (5 * doy + 2) / 153;
      && 0 <= mp <= 11
      && DaysBeforeMonth(if mp < 10 then mp + 3 else mp - 9) == (153 * mp + 2) / 5
  {
  }

  /** The leap days before a year of an era: one per four years, less one per century. */
  lemma LeapDays(century: int, quad: int, yq: int)
    requires 0 <= century <= 3 && 0 <= quad <= 24 && 0 <= yq <= 3
    ensures var yoe := 100 * century + 4 * quad + yq;
      yoe / 4 == 25 * century + quad && yoe / 100 == century
  {
  }

  lemma DateTimeRoundTrip(t: Instant)
    ensures FromDateTime(ToDateTime(t)) == t
  {
    var sod := t % 86400;
    assert t == 86400 * (t / 86400) + sod;
    ClockSplit(sod);
    CivilRoundTrip(t / 86400);
  }

  /** A second of the day splits into hours, minutes and seconds. */
  lemma ClockSplit(sod: int)
    requires 0 <= sod < 86400
    ensures sod == 3600 * (sod / 3600) + 60 * (sod % 3600 / 60) + sod % 60
  {
  }

  lemma {:induction false} ZeroPadValue(n: nat, width: nat)
    ensures DecimalValue(ZeroPad(n, width)) == n
    decreases n + width
  {
    var s := ZeroPad(n, width);
    if n < 10 && width <= 1 {
      assert s[..0] == [];
    } else {
      var w := if width == 0 then 0 else width - 1;
      ZeroPadValue(n / 10, w);
      assert s[..|s| - 1] == ZeroPad(n / 10, w);
    }
  }

  lemma TwoDigitsInjective(a: nat, b: nat)
    requires a < 100 && b < 100 && TwoDigits(a) == TwoDigits(b)
    ensures a == b
  {
    assert TwoDigits(a)[0] == TwoDigits(b)[0] && TwoDigits(a)[1] == TwoDigits(b)[1];
  }

  /** The year field starts with a sign exactly for negative years. */
  lemma YearTextSign(y: int)
    ensures (YearText(y)[0] == '-') <==> y < 0
  {
    if y >= 0 {
      assert IsDigit(ZeroPad(y, 4)[0]);
    }
  }

  lemma YearTextInjective(y1: int, y2: int)
    requires YearText(y1) == YearText(y2)
    ensures y1 == y2
  {
    YearTextSign(y1);
    YearTextSign(y2);
    if y1 >= 0 {
      ZeroPadValue(y1, 4);
      ZeroPadValue(y2, 4);
    } else {
      var s := YearText(y1);
      assert s[1..] == ZeroPad(-y1, 4) && s[1..] == ZeroPad(-y2, 4);
      ZeroPadValue(-y1, 4);
      ZeroPadValue(-y2, 4);
    }
  }

  lemma DayAndClockInjective(d1: DateTime, d2: DateTime)
    requires 1 <= d1.date.month <= 12 && 1 <= d1.date.day <= 31
    requires 0 <= d1.hour < 24 && 0 <= d1.minute < 60 && 0 <= d1.second < 60
    requires 1 <= d2.date.month <= 12 && 1 <= d2.date.day <= 31
    requires 0 <= d2.hour < 24 && 0 <= d2.minute < 60 && 0 <= d2.second < 60
    requires DayAndClock(d1) == DayAndClock(d2)
    ensures d1.date.month == d2.date.month && d1.date.day == d2.date.day
    ensures d1.hour == d2.hour && d1.minute == d2.minute && d1.second == d2.second
  {
    var s1, s2 := DayAndClock(d1), DayAndClock(d2);
    assert s1[0..2] == TwoDigits(d1.date.month) && s2[0..2] == TwoDigits(d2.date.month);
    assert s1[2..4] == TwoDigits(d1.date.day) && s2[2..4] == TwoDigits(d2.date.day);
    assert s1[5..7] == TwoDigits(d1.hour) && s2[5..7] == TwoDigits(d2.hour);
    assert s1[7..9] == TwoDigits(d1.minute) && s2[7..9] == TwoDigits(d2.minute);
    assert s1[9..11] == TwoDigits(d1.second) && s2[9..11] == TwoDigits(d2.second);
    TwoDigitsInjective(d1.date.month, d2.date.month);
    TwoDigitsInjective(d1.date.day, d2.date.day);
    TwoDigitsInjective(d1.hour, d2.hour);
    TwoDigitsInjective(d1.minute, d2.minute);
    TwoDigitsInjective(d1.second, d2.second);
  }

  /** Distinct instants have distinct stamps: the stamp is collision-free at one-second resolution. */
  lemma StampInjective(t1: Instant, t2: Instant)
    requires Stamp(t1) == Stamp(t2)
    ensures t1 == t2
  {
    var d1, d2 := ToDateTime(t1), ToDateTime(t2);
    var y1, y2 := YearText(d1.date.year), YearText(d2.date.year);
    var s := Stamp(t1);
    assert |y1| == |y2|;
    assert y1 == s[..|y1|] && y2 == s[..|y2|];
    assert DayAndClock(d1) == s[|y1|..] && DayAndClock(d2) == s[|y2|..];
    YearTextInjective(d1.date.year, d2.date.year);
    DayAndClockInjective(d1, d2);
    assert d1 == d2;
    DateTimeRoundTrip(t1);
    DateTimeRoundTrip(t2);
  }

  /** The stamp holds only digits, the `T` between date and time, and a sign before a negative year. */
  lemma StampCharacters(t: Instant)
    ensures forall i :: 0 <= i < |Stamp(t)| ==> IsDigit(Stamp(t)[i]) || Stamp(t)[i] == '-' || Stamp(t)[i] == 'T'
  {
    var dt := ToDateTime(t);
    var y := YearText(dt.date.year);
    assert forall i :: 0 <= i < |y| ==> IsDigit(y[i]) || y[i] == '-';
    var m, d := TwoDigits(dt.date.month), TwoDigits(dt.date.day);
    var hh, mm, ss := TwoDigits(dt.hour), TwoDigits(dt.minute), TwoDigits(dt.second);
    assert DayAndClock(dt) == m + d + "T" + hh + mm + ss;
    assert forall i :: 0 <= i < 11 ==> IsDigit(DayAndClock(dt)[i]) || DayAndClock(dt)[i] == 'T';
  }

  /** A worked instant: 2024-01-01T00:30:00 is 1704069000 seconds after the epoch. */
  lemma StampExample()
    ensures Stamp(1704069000) == "20240101T003000"
  {
    var dt := DateTime(Civil(2024, 1, 1), 0, 30, 0);
    HalfPastMidnight2024();
    Year2024Text();
    HalfPastMidnightText();
    assert Stamp(1704069000) == YearText(2024) + DayAndClock(dt);
  }

  lemma HalfPastMidnightText()
    ensures DayAndClock(DateTime(Civil(2024, 1, 1), 0, 30, 0)) == "0101T003000"
  {
    assert TwoDigits(1) == "01" && TwoDigits(0) == "00" && TwoDigits(30) == "30";
  }

  lemma HalfPastMidnight2024()
    ensures ToDateTime(1704069000) == DateTime(Civil(2024, 1, 1), 0, 30, 0)
  {
    assert 1704069000 / 86400 == 19723 && 1704069000 % 86400 == 1800;
    NewYear2024();
  }

  lemma Year2024Text()
    ensures YearText(2024) == "2024"
  {
    assert ZeroPad(2, 1) == "2";
    assert ZeroPad(20, 2) == "20";
    assert ZeroPad(202, 3) == "202";
  }

  /** Day 19723 after the epoch is 2024-01-01: 5 eras, then 5 four-year groups and 3 years, then 306 days from 1 March. */
  lemma NewYear2024()
    ensures CivilFromDays(19723) == Civil(2024, 1, 1)
  {
    assert (19723 + 719468) / 146097 == 5 && (19723 + 719468) % 146097 == 8706;
    NewYearInEra();
  }

  lemma NewYearInEra()
    ensures DateInEra(8706) == Civil(23, 1, 1)
  {
    assert 8706 / 36524 == 0 && 8706 / 1461 == 5 && 8706 % 1461 == 1401;
    assert 1401 / 365 == 3 && (5 * 306 + 2) / 153 == 10 && (153 * 10 + 2) / 5 == 306;
  }
}
