/**
  * The month starts against an independent count: days by the Gregorian leap-year rule and the table
  * of days before each month of a year.
  */
module GregorianDays {
  import opened Calendar

  /** Leap years among 0, 1, .., `year - 1`; the difference of two values counts those between. */
  function LeapYearsBefore(year: int): int { (year + 3) / 4 - (year + 99) / 100 + (year + 399) / 400 }

  /** From 1970-01-01 to January 1 of `year`. */
  function DaysBeforeYear(year: int): int { 365 * (year - 1970) + LeapYearsBefore(year) - LeapYearsBefore(1970) }

  /** From January 1 to the first of the month, in a year that is not a leap year. */
  const DAYS_BEFORE_MONTH: seq<int> := [0, 31, 59, 90, 120, 151, 181, 212, 243, 273, 304, 334]

  function DaysBeforeMonth(year: int, month: int): int
    requires 1 <= month <= 12
  {
    DAYS_BEFORE_MONTH[month - 1]
    + (if month > 2 && Leap(year) then 1 else 0)
  }

  lemma {:induction false} OneMonth(year: int, month: int)
    requires 1 <= month <= 12
    ensures var i := Civil(year, month).Index();
            FirstDay(i + 1) - FirstDay(i)
            == if month < 12 then DaysBeforeMonth(year, month + 1) - DaysBeforeMonth(year, month) else 31
  {
    MonthLength(Civil(year, month).Index());
    assert FromIndex(Civil(year, month).Index()) == Civil(year, month);
  }

  lemma {:induction false} WithinYear(year: int, month: int)
    requires 1 <= month <= 12
    ensures FirstDay(Civil(year, month).Index()) == FirstDay(Civil(year, 1).Index()) + DaysBeforeMonth(year, month)
    decreases month
  {
    if month > 1 {
      WithinYear(year, month - 1);
      OneMonth(year, month - 1);
    }
  }

  predicate Leap(year: int) { year % 4 == 0 && (year % 100 != 0 || year % 400 == 0) }

  lemma {:induction false} YearLength(year: int)
    ensures FirstDay(Civil(year + 1, 1).Index()) == FirstDay(Civil(year, 1).Index()) + (if Leap(year) then 366 else 365)
  {
    WithinYear(year, 12);
    OneMonth(year, 12);
    assert Civil(year, 12).Index() + 1 == Civil(year + 1, 1).Index();
  }

  lemma {:induction false} LeapStep(year: int)
    ensures LeapYearsBefore(year + 1) - LeapYearsBefore(year)
         == if Leap(year) then 1 else 0
  {
    Fourth(year);
    Hundredth(year);
    FourHundredth(year);
    Multiples(year);
  }

  lemma {:induction false} Fourth(year: int)
    ensures (year + 4) / 4 - (year + 3) / 4 == if year % 4 == 0 then 1 else 0
  {
  }

  lemma {:induction false} Hundredth(year: int)
    ensures (year + 100) / 100 - (year + 99) / 100 == if year % 100 == 0 then 1 else 0
  {
  }

  lemma {:induction false} FourHundredth(year: int)
    ensures (year + 400) / 400 - (year + 399) / 400 == if year % 400 == 0 then 1 else 0
  {
  }

  lemma {:induction false} Multiples(year: int)
    ensures year % 400 == 0 ==> year % 100 == 0
    ensures year % 100 == 0 ==> year % 4 == 0
  {
  }

  lemma {:induction false} YearStart(year: int)
    ensures FirstDay(Civil(year, 1).Index()) == DaysBeforeYear(year)
    decreases if year < 1970 then 1970 - year else year - 1970
  {
    if year < 1970 {
      YearStart(year + 1);
      YearLength(year);
      LeapStep(year);
    } else if year > 1970 {
      YearStart(year - 1);
      YearLength(year - 1);
      LeapStep(year - 1);
    }
  }

  /** Every month starts, at midnight UTC, on the day the Gregorian calendar says. */
  lemma {:induction false} MonthStartsOnItsDay(year: int, month: int)
    requires 1 <= month <= 12
    ensures MonthStart(Civil(year, month).Index())
         == (DaysBeforeYear(year) + DaysBeforeMonth(year, month)) * 24 * 60 * 60 * 1_000_000_000
  {
    YearStart(year);
    WithinYear(year, month);
  }
}
