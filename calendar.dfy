/**
 * Calendar arithmetic for the month filter: the first instant of a year-month
 * (UTC, proleptic Gregorian calendar, in milliseconds since the epoch) and the
 * month that follows it.
 */
module Calendar {

  type Month = m: int | 1 <= m <= 12 witness 1

  datatype YearMonth = YearMonth(year: int, month: Month)

  /** The position of a month on the line of all months. */
  function MonthIndex(ym: YearMonth): int
  {
    ym.year * 12 + ym.month - 1
  }

  /** The next calendar month: December rolls over to January of the next year. */
  function Succ(ym: YearMonth): (r: YearMonth)
    ensures MonthIndex(r) == MonthIndex(ym) + 1
    ensures ym.month == 12 ==> r == YearMonth(ym.year + 1, 1)
  {
    if ym.month == 12 then YearMonth(ym.year + 1, 1) else YearMonth(ym.year, ym.month + 1)
  }

  lemma MonthIndexInjective(a: YearMonth, b: YearMonth)
    requires MonthIndex(a) == MonthIndex(b)
    ensures a == b
  {
  }

  predicate IsLeap(y: int)
  {
    y % 4 == 0 && (y % 100 != 0 || y % 400 == 0)
  }

  function YearDays(y: int): nat
  {
    if IsLeap(y) then 366 else 365
  }

  function DaysInMonth(ym: YearMonth): (d: nat)
    ensures 28 <= d <= 31
  {
    if ym.month == 2 then (if IsLeap(ym.year) then 29 else 28)
    else if ym.month == 4 || ym.month == 6 || ym.month == 9 || ym.month == 11 then 30
    else 31
  }

  /** Days from January 1 to the first day of the month, in year `y`. */
  function DaysBeforeMonth(y: int, m: Month): nat
  {
    [0, 31, 59, 90, 120, 151, 181, 212, 243, 273, 304, 334][m - 1]
      + (if m > 2 && IsLeap(y) then 1 else 0)
  }

  /** Days from 1970-01-01 to January 1 of year `y` (negative before 1970). */
  function DaysFromEpoch(y: int): int
    decreases if y >= 1970 then y - 1970 else 1970 - y
  {
    if y == 1970 then 0
    else if y > 1970 then DaysFromEpoch(y - 1) + YearDays(y - 1)
    else DaysFromEpoch(y + 1) - YearDays(y)
  }

  const MsPerDay: int := 86400000

  /** The first instant (UTC) of a year-month, in milliseconds since the epoch. */
  function MonthStart(ym: YearMonth): (t: int)
    ensures t % MsPerDay == 0
    ensures ym.month == 1 ==> t == DaysFromEpoch(ym.year) * MsPerDay
  {
    (DaysFromEpoch(ym.year) + DaysBeforeMonth(ym.year, ym.month)) * MsPerDay
  }

  lemma YearStep(y: int)
    ensures DaysFromEpoch(y + 1) == DaysFromEpoch(y) + YearDays(y)
  {
  }

  /** A calendar month, not a fixed window: the next month starts exactly
      `DaysInMonth` days after this one. */
  lemma MonthStartSucc(ym: YearMonth)
    ensures MonthStart(Succ(ym)) == MonthStart(ym) + DaysInMonth(ym) * MsPerDay
  {
    if ym.month == 12 {
      YearStep(ym.year);
    }
  }

  lemma {:induction false} MonthStartMonotone(a: YearMonth, b: YearMonth)
    requires MonthIndex(a) < MonthIndex(b)
    ensures MonthStart(a) < MonthStart(b)
    decreases MonthIndex(b) - MonthIndex(a)
  {
    MonthStartSucc(a);
    if MonthIndex(Succ(a)) == MonthIndex(b) {
      MonthIndexInjective(Succ(a), b);
    } else {
      MonthStartMonotone(Succ(a), b);
    }
  }

  /** The half-open window of the month: from its first instant, inclusive,
      to the first instant of the next month, exclusive, which is exactly the
      month's `DaysInMonth` days. */
  predicate InMonth(ym: YearMonth, t: int)
    ensures InMonth(ym, t) <==> MonthStart(ym) <= t < MonthStart(ym) + DaysInMonth(ym) * MsPerDay
  {
    MonthStartSucc(ym);
    MonthStart(ym) <= t < MonthStart(Succ(ym))
  }

  /** The first instant of a month is in it; the first instant of the next month is not. */
  lemma MonthBoundaries(ym: YearMonth)
    ensures InMonth(ym, MonthStart(ym))
    ensures !InMonth(ym, MonthStart(Succ(ym)))
    ensures InMonth(Succ(ym), MonthStart(Succ(ym)))
  {
    MonthStartSucc(ym);
    MonthStartSucc(Succ(ym));
  }

  /** Windows of different months never overlap, so an instant belongs to at most one month. */
  lemma MonthsDisjoint(a: YearMonth, b: YearMonth, t: int)
    requires a != b && InMonth(a, t)
    ensures !InMonth(b, t)
  {
    if MonthIndex(a) == MonthIndex(b) {
      MonthIndexInjective(a, b);
    } else if MonthIndex(a) < MonthIndex(b) {
      if MonthIndex(Succ(a)) < MonthIndex(b) {
        MonthStartMonotone(Succ(a), b);
      } else {
        MonthIndexInjective(Succ(a), b);
      }
    } else {
      if MonthIndex(Succ(b)) < MonthIndex(a) {
        MonthStartMonotone(Succ(b), a);
      } else {
        MonthIndexInjective(Succ(b), a);
      }
    }
  }

  lemma EpochMonths()
    ensures MonthStart(YearMonth(1970, 1)) == 0
    ensures MonthStart(YearMonth(1970, 2)) == 31 * MsPerDay
    ensures MonthStart(Succ(YearMonth(1969, 12))) == 0
    ensures MonthStart(YearMonth(1969, 12)) == -31 * MsPerDay
  {
  }
}
