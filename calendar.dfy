/**
 * Calendar dates as whole day numbers, the weekend hop used by auto-scheduling
 * and quick rescheduling, the ISO "YYYY-MM-DD" text of a date, and the
 * human-readable distance between two dates shown in the photo comparison.
 */
module Calendar {
  import Text

  /** A calendar date: the number of days since 1970-01-01, which was a Thursday. */
  type Day = int

  /** `Date.prototype.getDay`: 0 is Sunday, 6 is Saturday. */
  function DayOfWeek(d: Day): (w: int)
    ensures 0 <= w < 7
  {
    (d + 4) % 7
  }

  /** Euclidean division by seven has one quotient and one remainder. */
  lemma WeekRemainder(a: int, q: int, r: int)
    requires a == 7 * q + r && 0 <= r < 7
    ensures a % 7 == r
  {
  }

  /** The day after a Saturday is a Sunday; otherwise the weekday number goes up by one. */
  lemma DayOfWeekNext(d: Day)
    ensures DayOfWeek(d + 1) == if DayOfWeek(d) == 6 then 0 else DayOfWeek(d) + 1
  {
    var q, w := (d + 4) / 7, (d + 4) % 7;
    if w == 6 {
      WeekRemainder(d + 5, q + 1, 0);
    } else {
      WeekRemainder(d + 5, q, w + 1);
    }
  }

  /** A week later is the same weekday. */
  lemma DayOfWeekWeekLater(d: Day)
    ensures DayOfWeek(d + 7) == DayOfWeek(d)
  {
    WeekRemainder(d + 11, (d + 4) / 7 + 1, (d + 4) % 7);
  }

  predicate IsWeekend(d: Day) {
    DayOfWeek(d) == 6 || DayOfWeek(d) == 0
  }

  /**
   * The single weekend hop of the scheduler: a Saturday moves two days on, a
   * Sunday one day on, any other day stays. The result is the first weekday
   * on or after `d`.
   */
  function SkipWeekend(d: Day): (r: Day)
    ensures d <= r <= d + 2
    ensures !IsWeekend(r)
    ensures forall e :: d <= e < r ==> IsWeekend(e)
  {
    DayOfWeekNext(d);
    DayOfWeekNext(d + 1);
    if DayOfWeek(d) == 6 then d + 2
    else if DayOfWeek(d) == 0 then d + 1
    else d
  }

  /** The auto-scheduler's follow-up date: two weeks on, then the weekend hop. */
  function TwoWeeksLater(d: Day): (r: Day)
    ensures d + 14 <= r <= d + 16
    ensures !IsWeekend(r)
    ensures !IsWeekend(d) ==> r == d + 14
    ensures DayOfWeek(d) == 6 ==> r == d + 16
    ensures DayOfWeek(d) == 0 ==> r == d + 15
  {
    DayOfWeekWeekLater(d);
    DayOfWeekWeekLater(d + 7);
    SkipWeekend(d + 14)
  }

  /** The quick-reschedule date: the next day, then the weekend hop; the first weekday after `d`. */
  function NextWorkingDay(d: Day): (r: Day)
    ensures d < r <= d + 3
    ensures !IsWeekend(r)
    ensures forall e :: d < e < r ==> IsWeekend(e)
  {
    SkipWeekend(d + 1)
  }

  /** Gregorian leap years: every fourth year, except centuries not divisible by 400. */
  predicate IsLeapYear(y: int) {
    y % 4 == 0 && (y % 100 != 0 || y % 400 == 0)
  }

  function DaysInYear(y: int): nat {
    if IsLeapYear(y) then 366 else 365
  }

  function DaysInMonth(m: int, y: int): (n: nat)
    ensures 28 <= n <= 31
  {
    if m == 2 then (if IsLeapYear(y) then 29 else 28)
    else if m == 4 || m == 6 || m == 9 || m == 11 then 30
    else 31
  }

  /** Calendar date: year, month 1-12 and day of month. */
  datatype CivilDate = CivilDate(year: int, month: int, day: int)

  /** The date `offset` days after January 1st of `year`, counting forwards or backwards a year at a time. */
  function CivilFrom(offset: int, year: int): CivilDate
    decreases if offset < 0 then 1 else 0, if offset < 0 then -offset else offset
  {
    if offset < 0 then CivilFrom(offset + DaysInYear(year - 1), year - 1)
    else if offset >= DaysInYear(year) then CivilFrom(offset - DaysInYear(year), year + 1)
    else MonthDay(offset, 1, year)
  }

  /** Month and day of the `offset`-th day counted from the first of month `m`. */
  function MonthDay(offset: nat, m: int, year: int): CivilDate
    requires 1 <= m <= 12
    decreases 12 - m
  {
    if m == 12 || offset < DaysInMonth(m, year) then CivilDate(year, m, offset + 1)
    else MonthDay(offset - DaysInMonth(m, year), m + 1, year)
  }

  /** The proleptic Gregorian date of a day number (day 0 is 1970-01-01). */
  function CivilFromDays(d: Day): CivilDate {
    CivilFrom(d, 1970)
  }

  function Abs(x: int): nat { if x < 0 then -x else x }

  /** The days from the first of month `m` to the end of the year. */
  function DaysLeft(m: int, year: int): nat
    requires 1 <= m <= 12
    decreases 12 - m
  {
    DaysInMonth(m, year) + (if m == 12 then 0 else DaysLeft(m + 1, year))
  }

  /** The days of the year before the first of month `m`. */
  function MonthStart(m: int, year: int): nat
    requires 1 <= m <= 12
    decreases m
  {
    if m == 1 then 0 else MonthStart(m - 1, year) + DaysInMonth(m - 1, year)
  }

  /** The day number of January 1st of `year`, counted from 1970 year by year. */
  function YearStart(year: int): int
    decreases Abs(year - 1970)
  {
    if year == 1970 then 0
    else if year > 1970 then YearStart(year - 1) + DaysInYear(year - 1)
    else YearStart(year + 1) - DaysInYear(year)
  }

  /** A date names a real day: month 1 to 12, day within that month. */
  predicate ValidDate(c: CivilDate) {
    1 <= c.month <= 12 && 1 <= c.day <= DaysInMonth(c.month, c.year)
  }

  /** The day number of a valid date, counted independently of `CivilFromDays`. */
  function DayNumber(c: CivilDate): int
    requires ValidDate(c)
  {
    YearStart(c.year) + MonthStart(c.month, c.year) + c.day - 1
  }

  lemma YearStartStep(year: int)
    ensures YearStart(year + 1) == YearStart(year) + DaysInYear(year)
  {
  }

  /** The twelve months fill the year. */
  lemma MonthsFillYear(year: int)
    ensures DaysLeft(1, year) == DaysInYear(year)
  {
    assert DaysLeft(12, year) == 31;
    assert DaysLeft(11, year) == 61;
    assert DaysLeft(10, year) == 92;
    assert DaysLeft(9, year) == 122;
    assert DaysLeft(8, year) == 153;
    assert DaysLeft(7, year) == 184;
    assert DaysLeft(6, year) == 214;
    assert DaysLeft(5, year) == 245;
    assert DaysLeft(4, year) == 275;
    assert DaysLeft(3, year) == 306;
  }

  /** Walking the months from `m` lands on a valid day of a later month, the same number of days on. */
  lemma {:induction false} MonthDayValid(offset: nat, m: int, year: int)
    requires 1 <= m <= 12 && offset < DaysLeft(m, year)
    ensures var c := MonthDay(offset, m, year);
      && c.year == year && m <= c.month && ValidDate(c)
      && MonthStart(c.month, year) + c.day - 1 == MonthStart(m, year) + offset
    decreases 12 - m
  {
    if !(m == 12 || offset < DaysInMonth(m, year)) {
      MonthDayValid(offset - DaysInMonth(m, year), m + 1, year);
    }
  }

  /** Walking the years from `year` lands on a valid date `offset` days after January 1st of `year`. */
  lemma {:induction false} CivilFromValid(offset: int, year: int)
    ensures ValidDate(CivilFrom(offset, year))
    ensures DayNumber(CivilFrom(offset, year)) == YearStart(year) + offset
    decreases if offset < 0 then 1 else 0, if offset < 0 then -offset else offset
  {
    if offset < 0 {
      CivilFromValid(offset + DaysInYear(year - 1), year - 1);
      YearStartStep(year - 1);
    } else if offset >= DaysInYear(year) {
      CivilFromValid(offset - DaysInYear(year), year + 1);
      YearStartStep(year);
    } else {
      MonthsFillYear(year);
      MonthDayValid(offset, 1, year);
    }
  }

  /** Every day number names a valid date, and counting that date's days gives the number back. */
  lemma CivilFromDaysRoundTrip(d: Day)
    ensures ValidDate(CivilFromDays(d))
    ensures DayNumber(CivilFromDays(d)) == d
  {
    CivilFromValid(d, 1970);
  }

  /** The date part of `Date.prototype.toISOString`: four-digit years, or a sign and six digits outside 0..9999. */
  function IsoDate(d: Day): (r: string)
    ensures |r| >= 10
  {
    IsoText(CivilFromDays(d))
  }

  /** `YYYY-MM-DD` for a calendar date. */
  function IsoText(c: CivilDate): (r: string)
    ensures |r| >= 10
  {
    var year := if 0 <= c.year <= 9999 then Text.PadZero(Text.Decimal(c.year), 4)
                else (if c.year < 0 then "-" else "+") + Text.PadZero(Text.Decimal(Abs(c.year)), 6);
    year + "-" + Text.PadZero(Text.Decimal(Abs(c.month)), 2) + "-" + Text.PadZero(Text.Decimal(Abs(c.day)), 2)
  }

  datatype TimeUnit = Days | Weeks | Months | Years

  /** The length in days the source divides by for each unit. */
  function UnitLength(u: TimeUnit): nat {
    match u
    case Days => 1
    case Weeks => 7
    case Months => 30
    case Years => 365
  }

  function UnitWord(u: TimeUnit): string {
    match u
    case Days => "day"
    case Weeks => "week"
    case Months => "month"
    case Years => "year"
  }

  /** A distance between two dates as the comparison view reports it. */
  datatype Elapsed = SameDay | Span(count: nat, unit: TimeUnit)

  /**
   * The distance between two dates: days under a week, whole weeks under 30
   * days, whole 30-day months under 365 days, whole 365-day years beyond.
   */
  function ElapsedBetween(d1: Day, d2: Day): (e: Elapsed)
    ensures e == SameDay <==> d1 == d2
    ensures e.Span? ==>
      1 <= e.count && e.count * UnitLength(e.unit) <= Abs(d2 - d1) < (e.count + 1) * UnitLength(e.unit)
    ensures e.Span? ==>
      && (e.unit == Days <==> Abs(d2 - d1) < 7)
      && (e.unit == Weeks <==> 7 <= Abs(d2 - d1) < 30)
      && (e.unit == Months <==> 30 <= Abs(d2 - d1) < 365)
      && (e.unit == Years <==> 365 <= Abs(d2 - d1))
  {
    var days := Abs(d2 - d1);
    if days == 0 then SameDay
    else if days < 7 then Span(days, Days)
    else if days < 30 then Span(days / 7, Weeks)
    else if days < 365 then Span(days / 30, Months)
    else Span(days / 365, Years)
  }

  /** The text of an elapsed time: "Same day", or a count and a unit, plural above one. */
  function Describe(e: Elapsed): (s: string)
    ensures s == "Same day" <==> e == SameDay
    ensures e.Span? ==> var k := |Text.Decimal(e.count)|;
      && 0 < k < |s| && (forall i :: 0 <= i < k ==> Text.IsDigit(s[i]))
      && Text.DecimalValue(s[..k]) == e.count
      && s[k..] == " " + UnitWord(e.unit) + (if e.count > 1 then "s" else "")
  {
    match e
    case SameDay => "Same day"
    case Span(n, u) =>
      var digits := Text.Decimal(n);
      var text := digits + " " + UnitWord(u) + (if n > 1 then "s" else "");
      assert text[0] == digits[0] && Text.IsDigit(text[0]);
      assert text[..|digits|] == digits;
      Text.DecimalRoundTrip(n);
      text
  }

  /** `calculateTimeDifference` over whole days. */
  function TimeDifference(d1: Day, d2: Day): (s: string)
    ensures s == "Same day" <==> d1 == d2
    ensures var e := ElapsedBetween(d1, d2);
      e.Span? ==> var k := |Text.Decimal(e.count)|;
      && 0 < k < |s| && (forall i :: 0 <= i < k ==> Text.IsDigit(s[i]))
      && Text.DecimalValue(s[..k]) == e.count
      && s[k..] == " " + UnitWord(e.unit) + (if e.count > 1 then "s" else "")
  {
    Describe(ElapsedBetween(d1, d2))
  }

  /** The reported distance does not depend on which photo comes first. */
  lemma TimeDifferenceSymmetric(d1: Day, d2: Day)
    ensures TimeDifference(d1, d2) == TimeDifference(d2, d1)
  {
    assert Abs(d2 - d1) == Abs(d1 - d2);
  }

  /** A number below 10^width, zero-padded to `width`, is `width` digits that read back as the number. */
  lemma PaddedNumber(n: nat, width: nat)
    requires 1 <= width && n < Text.Pow10(width)
    ensures var r := Text.PadZero(Text.Decimal(n), width);
      |r| == width && (forall i :: 0 <= i < width ==> Text.IsDigit(r[i])) && Text.DecimalValue(r) == n
  {
    Text.DecimalShort(n, width);
    Text.PadZeroValue(Text.Decimal(n), width);
    Text.DecimalRoundTrip(n);
  }

  /** Digit pieces of 4, 2 and 2 characters joined by dashes: each piece sits at a fixed position. */
  lemma DashedPieces(y: string, m: string, dd: string, year: nat, month: nat, day: nat)
    requires |y| == 4 && |m| == 2 && |dd| == 2
    requires forall i :: 0 <= i < 4 ==> Text.IsDigit(y[i])
    requires forall i :: 0 <= i < 2 ==> Text.IsDigit(m[i]) && Text.IsDigit(dd[i])
    requires Text.DecimalValue(y) == year && Text.DecimalValue(m) == month && Text.DecimalValue(dd) == day
    ensures var r := y + "-" + m + "-" + dd;
      && |r| == 10 && r[4] == '-' && r[7] == '-'
      && (forall i :: 0 <= i < 4 ==> Text.IsDigit(r[..4][i]))
      && (forall i :: 0 <= i < 2 ==> Text.IsDigit(r[5..7][i]))
      && (forall i :: 0 <= i < 2 ==> Text.IsDigit(r[8..][i]))
      && Text.DecimalValue(r[..4]) == year
      && Text.DecimalValue(r[5..7]) == month
      && Text.DecimalValue(r[8..]) == day
  {
    var r := y + "-" + m + "-" + dd;
    assert r[..4] == y && r[5..7] == m && r[8..] == dd;
  }

  /** A valid date in years 0 to 9999 is written as four, two and two digits that read back as its fields. */
  lemma IsoTextFields(c: CivilDate)
    requires ValidDate(c) && 0 <= c.year <= 9999
    ensures var r := IsoText(c);
      && |r| == 10 && r[4] == '-' && r[7] == '-'
      && (forall i :: 0 <= i < 4 ==> Text.IsDigit(r[..4][i]))
      && (forall i :: 0 <= i < 2 ==> Text.IsDigit(r[5..7][i]))
      && (forall i :: 0 <= i < 2 ==> Text.IsDigit(r[8..][i]))
      && Text.DecimalValue(r[..4]) == c.year
      && Text.DecimalValue(r[5..7]) == c.month
      && Text.DecimalValue(r[8..]) == c.day
  {
    var y := Text.PadZero(Text.Decimal(c.year), 4);
    var m := Text.PadZero(Text.Decimal(Abs(c.month)), 2);
    var dd := Text.PadZero(Text.Decimal(Abs(c.day)), 2);
    assert |y| == 4 && (forall i :: 0 <= i < 4 ==> Text.IsDigit(y[i])) && Text.DecimalValue(y) == c.year by {
      assert Text.Pow10(4) == 10000;
      PaddedNumber(c.year, 4);
    }
    assert |m| == 2 && (forall i :: 0 <= i < 2 ==> Text.IsDigit(m[i])) && Text.DecimalValue(m) == c.month by {
      assert Text.Pow10(2) == 100;
      PaddedNumber(c.month, 2);
    }
    assert |dd| == 2 && (forall i :: 0 <= i < 2 ==> Text.IsDigit(dd[i])) && Text.DecimalValue(dd) == c.day by {
      assert Text.Pow10(2) == 100;
      PaddedNumber(c.day, 2);
    }
    assert IsoText(c) == y + "-" + m + "-" + dd;
    DashedPieces(y, m, dd, c.year, c.month, c.day);
  }

  /**
   * For years 0 to 9999 the date text is `YYYY-MM-DD`: ten characters,
   * dashes at positions 4 and 7, digits elsewhere that read back as the
   * year, month and day of the date the day number names.
   */
  lemma IsoDateFields(d: Day)
    requires 0 <= CivilFromDays(d).year <= 9999
    ensures var c, r := CivilFromDays(d), IsoDate(d);
      && |r| == 10 && r[4] == '-' && r[7] == '-'
      && (forall i :: 0 <= i < 4 ==> Text.IsDigit(r[..4][i]))
      && (forall i :: 0 <= i < 2 ==> Text.IsDigit(r[5..7][i]))
      && (forall i :: 0 <= i < 2 ==> Text.IsDigit(r[8..][i]))
      && Text.DecimalValue(r[..4]) == c.year
      && Text.DecimalValue(r[5..7]) == c.month
      && Text.DecimalValue(r[8..]) == c.day
  {
    CivilFromDaysRoundTrip(d);
    IsoTextFields(CivilFromDays(d));
  }
}
