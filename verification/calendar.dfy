/**
 * Calendar arithmetic of the parser: the Gregorian leap-year rule, Swift's
 * truncating integer division, and the projection of an ISO week date onto a
 * day of the year. The projection uses the legacy weekday formula of the
 * source; it is proved equal to a day count in the proleptic Gregorian calendar.
 */
module IsoCalendar {
  import opened IsoTypes

  /** Swift's `/` on `Int`: the quotient truncated toward zero. */
  function Quot(a: int, b: int): int
    requires b > 0
  {
    if a >= 0 then a / b else -((-a) / b)
  }

  /** Swift's `%` on `Int`: the remainder takes the sign of the dividend. */
  function Rem(a: int, b: int): (r: int)
    requires b > 0
    ensures a == b * Quot(a, b) + r
    ensures -b < r < b
    ensures a >= 0 ==> r == a % b
    ensures a <= 0 ==> r <= 0
  {
    if a >= 0 then a % b else -((-a) % b)
  }

  /** `Int.isLeapYear`: divisible by 4, and not by 100 unless by 400. */
  predicate IsLeapYear(year: int)
  {
    // A remainder is zero under truncating and Euclidean division alike.
    year % 4 == 0 && (year % 100 != 0 || year % 400 == 0)
  }

  /** The number of days in `year`: the bound of the strict ordinal-day checks. */
  function DaysInYear(year: int): int
  {
    365 + (if IsLeapYear(year) then 1 else 0)
  }

  /**
   * Days from 0001-01-01 (a Monday in the proleptic Gregorian calendar) to
   * 1 January of `year`, negative before year 1: Dafny's division rounds
   * down, so the count stays Gregorian there (year 0 is a leap year).
   */
  function DaysBeforeYear(year: int): int
  {
    var p := year - 1;
    365 * p + p / 4 - p / 100 + p / 400
  }

  /** The leap-year rule agrees with the Gregorian day count: a year has as many days as separate its first day from the next year's. */
  lemma {:induction false} DaysInYearIsGregorian(year: int)
    requires year >= 1
    ensures DaysBeforeYear(year + 1) - DaysBeforeYear(year) == DaysInYear(year)
  {
    var p := year - 1;
    assert DaysBeforeYear(year + 1) - DaysBeforeYear(year) == 365 + (year / 4 - p / 4) - (year / 100 - p / 100) + (year / 400 - p / 400);
    QuotientStep4(year);
    QuotientStep100(year);
    QuotientStep400(year);
    CenturyDivisibility(year);
  }

  lemma QuotientStep4(n: int)
    ensures n / 4 - (n - 1) / 4 == if n % 4 == 0 then 1 else 0
  {
  }

  lemma QuotientStep100(n: int)
    ensures n / 100 - (n - 1) / 100 == if n % 100 == 0 then 1 else 0
  {
  }

  lemma QuotientStep400(n: int)
    ensures n / 400 - (n - 1) / 400 == if n % 400 == 0 then 1 else 0
  {
  }

  /** A multiple of 400 is a multiple of 100, and a multiple of 100 one of 4. */
  lemma CenturyDivisibility(n: int)
    ensures n % 400 == 0 ==> n % 100 == 0
    ensures n % 100 == 0 ==> n % 4 == 0
  {
    if n % 400 == 0 {
      var k := n / 400;
      assert n == 100 * (4 * k);
      MultipleOfHundred(4 * k);
    }
    if n % 100 == 0 {
      var k := n / 100;
      assert n == 4 * (25 * k);
      MultipleOfFour(25 * k);
    }
  }

  lemma MultipleOfHundred(k: int)
    ensures (100 * k) % 100 == 0
  {
  }

  lemma MultipleOfFour(k: int)
    ensures (4 * k) % 4 == 0
  {
  }

  /**
   * Weekday of 1 January of `year`, 0 for Monday to 6 for Sunday, computed as
   * the source does from the previous year's two last digits `YY`, its century
   * `prevC` and the legacy leap term `((prevC / 100) % 4) * 5`.
   */
  function Jan1Weekday(year: int): int
  {
    var prevYear := year - 1;
    var yy := Rem(prevYear, 100);
    var prevC := prevYear - yy;
    var prevG := yy + Quot(yy, 4);
    var leapTerm := Rem(Quot(prevC, 100), 4) * 5;
    Rem(leapTerm + prevG, 7)
  }

  /** `Weekday.thursday.rawValue`: if 1 January falls after Thursday, it belongs to the previous year's last week. */
  const Thursday := 3

  /**
   * The week-date branch of `parse()`: week `week` and day offset `day` (plus
   * `weekday` when one was parsed) of `year`, turned into a day of the year
   * (1 is 1 January; the result may fall outside the year).
   */
  function WeekToOrdinal(year: int, week: int, day: int, weekday: Option<int>): int
  {
    var jan1 := Jan1Weekday(year);
    var first := (8 - jan1) + 7 * (if jan1 > Thursday then 1 else 0);
    var ordinal := first + (day - 1) + 7 * (week - 2);
    match weekday
    case Some(w) => ordinal + w
    case None => ordinal
  }

  /**
   * Reference definition of ISO 8601 week dates: week 1 is the week, Monday
   * to Sunday, that holds 4 January. The result is the day of the year of
   * weekday `weekday` (1 = Monday) of week `week`.
   */
  function IsoWeekDateOrdinal(year: int, week: int, weekday: int): int
  {
    var jan4 := DaysBeforeYear(year) + 3;
    var monday := jan4 - jan4 % 7;
    monday + 7 * (week - 1) + (weekday - 1) - DaysBeforeYear(year) + 1
  }

  /** The reference is the ISO rule: week 1 runs from a Monday and holds 4 January. */
  lemma IsoWeekOneHoldsJanuaryFourth(year: int)
    requires year >= 1
    ensures IsoWeekDateOrdinal(year, 1, 1) <= 4 <= IsoWeekDateOrdinal(year, 1, 7)
    ensures (DaysBeforeYear(year) + IsoWeekDateOrdinal(year, 1, 1) - 1) % 7 == 0
  {
    var jan4 := DaysBeforeYear(year) + 3;
    assert DaysBeforeYear(year) + IsoWeekDateOrdinal(year, 1, 1) - 1 == 7 * (jan4 / 7);
    ModOfMultiplePlus(jan4 / 7, 0);
  }

  /** On non-negative operands Swift's division and Dafny's agree. */
  lemma QuotRemOfNonNegative(a: int, b: int)
    requires a >= 0 && b > 0
    ensures Quot(a, b) == a / b && Rem(a, b) == a % b
  {
  }

  lemma ModOfMultiplePlus(k: int, x: int)
    ensures (7 * k + x) % 7 == x % 7
  {
  }

  /** The legacy leap term `((prevC / 100) % 4) * 5` gives the Gregorian weekday of 1 January for every year from 1 on. */
  lemma {:induction false} LegacyJan1WeekdayIsGregorian(year: int)
    requires year >= 1
    ensures Jan1Weekday(year) == DaysBeforeYear(year) % 7
  {
    var p := year - 1;
    var yy := p % 100;
    var c := p / 100;
    var q := c / 4;
    var r := c % 4;
    QuotRemOfNonNegative(p, 100);
    QuotRemOfNonNegative(100 * c, 100);
    QuotRemOfNonNegative(yy, 4);
    QuotRemOfNonNegative(c, 4);
    var x := 5 * r + yy + yy / 4;
    QuotRemOfNonNegative(x, 7);
    assert Jan1Weekday(year) == x % 7;
    assert p == 100 * c + yy && c == 4 * q + r;
    assert p / 4 == 25 * c + yy / 4;
    assert p / 400 == q;
    assert DaysBeforeYear(year) == 36524 * c + 365 * yy + yy / 4 + q;
    assert DaysBeforeYear(year) == 7 * (20871 * q + 5217 * r + 52 * yy) + x;
    ModOfMultiplePlus(20871 * q + 5217 * r + 52 * yy, x);
  }

  /**
   * The source's week projection is the ISO week date: for any year from 1 on,
   * week `week` with day offset `day` and optional `weekday` lands on the day
   * the ISO rule gives for weekday `day + weekday` of that week.
   */
  lemma {:induction false} WeekProjectionIsIsoWeekDate(year: int, week: int, day: int, weekday: Option<int>)
    requires year >= 1
    ensures WeekToOrdinal(year, week, day, weekday)
         == IsoWeekDateOrdinal(year, week, day + (if weekday.Some? then weekday.value else 0))
  {
    var n := DaysBeforeYear(year);
    LegacyJan1WeekdayIsGregorian(year);
    var d := day + (if weekday.Some? then weekday.value else 0);
    FirstMondayOffset(n, week, d);
  }

  /**
   * Year 0 is outside `WeekProjectionIsIsoWeekDate`. The Gregorian count
   * (year 0 is a leap year) puts 1 January 0000 on a Saturday, so the ISO
   * Monday of week 1 is 3 January; the legacy weekday, computed with
   * truncating remainders of the previous year -1, is -1 instead of 5, and
   * the projection puts that Monday on 2 January.
   */
  lemma YearZeroWeekOneStartsADayEarly()
    ensures DaysBeforeYear(0) == -DaysInYear(0) && DaysBeforeYear(0) % 7 == 5 && Jan1Weekday(0) == -1
    ensures IsoWeekDateOrdinal(0, 1, 1) == 3
    ensures WeekToOrdinal(0, 1, 0, Some(1)) == IsoWeekDateOrdinal(0, 1, 1) - 1
  {
  }

  /** Day `d` of week `week` counted from the weekday `n % 7` of 1 January, against the Monday of the week holding 4 January. */
  lemma FirstMondayOffset(n: int, week: int, d: int)
    ensures var j := n % 7;
      (8 - j) + 7 * (if j > Thursday then 1 else 0) + (d - 1) + 7 * (week - 2)
      == (n + 3) - (n + 3) % 7 + 7 * (week - 1) + (d - 1) - n + 1
  {
    var j := n % 7;
    assert n == 7 * (n / 7) + j;
    assert (n + 3) % 7 == if j > Thursday then j - 4 else j + 3;
  }
}
