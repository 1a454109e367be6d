/**
 * Calendar dates as whole day numbers: `new Date("YYYY-MM-DD")` read as the
 * number of days since 1970-01-01. Only the `YYYY-MM-DD` form is read; every
 * other string gives `None`, which lies in no window of days.
 */
module Dates {
  import opened Options
  import opened Text

  predicate IsLeapYear(y: int)
  {
    y % 4 == 0 && (y % 100 != 0 || y % 400 == 0)
  }

  function DaysInMonth(y: int, m: int): (n: nat)
    requires 1 <= m <= 12
    ensures 28 <= n <= 31
  {
    if m == 2 then (if IsLeapYear(y) then 29 else 28)
    else if m == 4 || m == 6 || m == 9 || m == 11 then 30
    else 31
  }

  /**
   * The days from 1 March of year 0 to 1 March of year `y` (negative before):
   * 365 a year, plus one for every year divisible by 4, less one for every
   * year divisible by 100, plus one for every year divisible by 400, counting
   * the leap days of the Februaries that end years 1 to `y`.
   */
  function MarchYearBase(y: int): int
  {
    365 * y + y / 4 - y / 100 + y / 400
  }

  /** The days from 1 March to the 1st of month `m`, in the year that runs from March to February. */
  function DaysBeforeMonth(m: int): int
    requires 1 <= m <= 12
  {
    match m
    case 3 => 0 case 4 => 31 case 5 => 61 case 6 => 92 case 7 => 122 case 8 => 153
    case 9 => 184 case 10 => 214 case 11 => 245 case 12 => 275 case 1 => 306 case _ => 337
  }

  /**
   * Days from 1970-01-01 to the proleptic Gregorian date y-m-d. A day past the
   * end of its month counts on into the next month, as JavaScript's MakeDay does.
   */
  function DaysFromCivil(y: int, m: int, d: int): int
    requires 1 <= m <= 12
  {
    var y' := if m <= 2 then y - 1 else y;
    MarchYearBase(y') + DaysBeforeMonth(m) + d - 1 - 719468
  }

  /** Adding one to `x` adds one to `x / k` exactly when `x + 1` is a multiple of `k`, for `k` 4, 100 and 400. */
  lemma DivideStep(x: int)
    ensures (x + 1) / 4 == x / 4 + (if (x + 1) % 4 == 0 then 1 else 0)
    ensures (x + 1) / 100 == x / 100 + (if (x + 1) % 100 == 0 then 1 else 0)
    ensures (x + 1) / 400 == x / 400 + (if (x + 1) % 400 == 0 then 1 else 0)
  {
  }

  /** A March-based year is 366 days long when the February it ends with has a 29th, else 365. */
  lemma YearLength(y: int)
    ensures MarchYearBase(y + 1) == MarchYearBase(y) + (if IsLeapYear(y + 1) then 366 else 365)
  {
    DivideStep(y);
    DivisorChain(y + 1);
    if (y + 1) % 400 == 0 {
      assert IsLeapYear(y + 1);
    } else if (y + 1) % 100 == 0 {
      assert !IsLeapYear(y + 1);
    }
  }

  /** A multiple of 400 is one of 100, and a multiple of 100 is one of 4. */
  lemma DivisorChain(x: int)
    ensures x % 400 == 0 ==> x % 100 == 0
    ensures x % 100 == 0 ==> x % 4 == 0
  {
    if x % 400 == 0 {
      MultipleOfMultiple(x, 100, 4);
    }
    if x % 100 == 0 {
      MultipleOfMultiple(x, 4, 25);
    }
  }

  lemma MultipleOfMultiple(x: int, k: int, j: int)
    requires 0 < k && 0 < j && x % (k * j) == 0
    ensures x % k == 0
  {
    var q := x / (k * j);
    assert x == (k * j) * q;
    assert x == k * (j * q);
    assert x / k == j * q;
  }

  /** Within one March-based year the next month starts when this one has run its length. */
  lemma NextMonthOffset(y: int, m: int)
    requires 1 <= m < 12 && m != 2
    ensures DaysBeforeMonth(m + 1) == DaysBeforeMonth(m) + DaysInMonth(y, m)
  {
  }

  /** The day after the last of a month, January to November, is the 1st of the next month. */
  lemma {:induction false} NextMonthStartsNextDay(y: int, m: int)
    requires 1 <= m < 12
    ensures DaysFromCivil(y, m + 1, 1) == DaysFromCivil(y, m, DaysInMonth(y, m)) + 1
  {
    if m == 2 {
      YearLength(y - 1);
    } else {
      NextMonthOffset(y, m);
    }
  }

  /** The day after 31 December is 1 January of the next year. */
  lemma NextYearStartsNextDay(y: int)
    ensures DaysFromCivil(y + 1, 1, 1) == DaysFromCivil(y, 12, 31) + 1
  {
  }

  /** The next calendar day, within a month or across the end of a month or a year. */
  function NextDay(y: int, m: int, d: int): (r: (int, int, int))
    requires 1 <= m <= 12 && 1 <= d <= DaysInMonth(y, m)
    ensures 1 <= r.1 <= 12 && 1 <= r.2 <= DaysInMonth(r.0, r.1)
  {
    if d < DaysInMonth(y, m) then (y, m, d + 1)
    else if m < 12 then (y, m + 1, 1)
    else (y + 1, 1, 1)
  }

  /** Consecutive calendar days have consecutive day numbers. */
  lemma NextDayIsNextNumber(y: int, m: int, d: int)
    requires 1 <= m <= 12 && 1 <= d <= DaysInMonth(y, m)
    ensures var (y', m', d') := NextDay(y, m, d); DaysFromCivil(y', m', d') == DaysFromCivil(y, m, d) + 1
  {
    if d == DaysInMonth(y, m) {
      if m < 12 {
        NextMonthStartsNextDay(y, m);
      } else {
        NextYearStartsNextDay(y);
      }
    }
  }

  /** A day past the end of its month (up to 31) is that many days into the next month. */
  lemma DayPastMonthEndRollsOver(y: int, m: int, d: int)
    requires 1 <= m < 12 && DaysInMonth(y, m) < d <= 31
    ensures DaysFromCivil(y, m, d) == DaysFromCivil(y, m + 1, d - DaysInMonth(y, m))
  {
    NextMonthStartsNextDay(y, m);
  }

  /** The text has the form `YYYY-MM-DD` with digits in the three fields. */
  predicate IsoShaped(s: string)
  {
    |s| == 10 && s[4] == '-' && s[7] == '-'
    && AllDigits(s[..4]) && AllDigits(s[5..7]) && AllDigits(s[8..])
  }

  function YearOf(s: string): nat
    requires IsoShaped(s)
  {
    DigitsValue(s[..4])
  }

  function MonthOf(s: string): nat
    requires IsoShaped(s)
  {
    DigitsValue(s[5..7])
  }

  function DayOf(s: string): nat
    requires IsoShaped(s)
  {
    DigitsValue(s[8..])
  }

  /**
   * The day number of an ISO 8601 calendar date `YYYY-MM-DD`, read as
   * JavaScript's date-only format: the month from 01 to 12 and the day from
   * 01 to 31, a day past the end of its month counting on into the next one.
   * Other strings, including the other forms JavaScript reads as dates, give
   * `None`.
   */
  function ParseIsoDate(s: string): (r: Option<int>)
    ensures r.Some? <==> IsoShaped(s) && 1 <= MonthOf(s) <= 12 && 1 <= DayOf(s) <= 31
    ensures r.Some? ==> r.value == DaysFromCivil(YearOf(s), MonthOf(s), DayOf(s))
  {
    if IsoShaped(s) && 1 <= MonthOf(s) <= 12 && 1 <= DayOf(s) <= 31
    then Some(DaysFromCivil(YearOf(s), MonthOf(s), DayOf(s)))
    else None
  }

  /** The value of a two-digit field. */
  lemma TwoDigits(s: string)
    requires |s| == 2 && AllDigits(s)
    ensures DigitsValue(s) == 10 * DigitValue(s[0]) + DigitValue(s[1])
  {
    assert DigitsValue(s) == DigitsValue(s[..1]) * 10 + DigitValue(s[1]);
    assert s[..1][..0] == [];
    assert DigitsValue(s[..1]) == DigitValue(s[0]);
  }

  /** The value of a four-digit field. */
  lemma FourDigits(s: string)
    requires |s| == 4 && AllDigits(s)
    ensures DigitsValue(s) == 1000 * DigitValue(s[0]) + 100 * DigitValue(s[1]) + 10 * DigitValue(s[2]) + DigitValue(s[3])
  {
    assert DigitsValue(s) == DigitsValue(s[..3]) * 10 + DigitValue(s[3]);
    assert s[..3][..2] == s[..2];
    assert DigitsValue(s[..3]) == DigitsValue(s[..2]) * 10 + DigitValue(s[2]);
    TwoDigits(s[..2]);
  }

  /** The fields of a date string whose digits are given. */
  lemma {:induction false} DateFields(s: string)
    requires IsoShaped(s)
    ensures YearOf(s) == 1000 * DigitValue(s[0]) + 100 * DigitValue(s[1]) + 10 * DigitValue(s[2]) + DigitValue(s[3])
    ensures MonthOf(s) == 10 * DigitValue(s[5]) + DigitValue(s[6])
    ensures DayOf(s) == 10 * DigitValue(s[8]) + DigitValue(s[9])
  {
    FourDigits(s[..4]);
    TwoDigits(s[5..7]);
    TwoDigits(s[8..]);
  }

  /** The epoch is day 0. */
  lemma EpochIsDayZero()
    ensures ParseIsoDate("1970-01-01") == Some(0)
  {
    DateFields("1970-01-01");
  }

  /** The day number of the date of the mock records. */
  lemma MockDateDayNumber()
    ensures ParseIsoDate("2025-01-20") == Some(20108)
  {
    DateFields("2025-01-20");
  }

  /** "2025-02-29" is read, as JavaScript reads it, as 1 March 2025. */
  lemma February29In2025RollsOver()
    ensures ParseIsoDate("2025-02-29") == ParseIsoDate("2025-03-01")
  {
    February29In2025();
    March1In2025();
    assert DaysInMonth(2025, 2) == 28;
    DayPastMonthEndRollsOver(2025, 2, 29);
  }

  lemma February29In2025()
    ensures ParseIsoDate("2025-02-29") == Some(DaysFromCivil(2025, 2, 29))
  {
    DateFields("2025-02-29");
  }

  lemma March1In2025()
    ensures ParseIsoDate("2025-03-01") == Some(DaysFromCivil(2025, 3, 1))
  {
    DateFields("2025-03-01");
  }
}
