/** UTC calendar months since January 1970, as whole seconds since the epoch. */
module Calendar {

  const DAY := 86400

  predicate Leap(year: nat) {
    year % 4 == 0 && (year % 100 != 0 || year % 400 == 0)
  }

  /** Days in the month numbered `month` from January 1970 (month 0). */
  function DaysIn(month: nat): (days: nat)
    ensures 28 <= days <= 31
  {
    var year, of := 1970 + month / 12, month % 12 + 1;
    if of == 2 then (if Leap(year) then 29 else 28)
    else if of == 4 || of == 6 || of == 9 || of == 11 then 30
    else 31
  }

  /** Whole days from the epoch to the first of a month. */
  function DaysBefore(month: nat): nat {
    if month == 0 then 0 else DaysBefore(month - 1) + DaysIn(month - 1)
  }

  lemma OneMonth(k: nat)
    ensures DaysBefore(k + 1) == DaysBefore(k) + DaysIn(k)
  {
  }

  /** The first second of a month. */
  function MonthStart(month: nat): nat {
    DAY * DaysBefore(month)
  }

  lemma {:induction false} DaysAscend(a: nat, b: nat)
    requires a <= b
    ensures DaysBefore(a) + 28 * (b - a) <= DaysBefore(b)
  {
    if a < b {
      DaysAscend(a, b - 1);
    }
  }

  lemma MonthsAscend(a: nat, b: nat)
    requires a <= b
    ensures MonthStart(a) + 28 * DAY * (b - a) <= MonthStart(b)
  {
    DaysAscend(a, b);
  }

  /** The number of a calendar month, `month` counted from 1. */
  function Numbered(year: nat, month: nat): nat
    requires 1970 <= year && 1 <= month <= 12
  {
    12 * (year - 1970) + month - 1
  }

  /** `_next_month` on the year and the month of a date. */
  function NextMonth(year: nat, month: nat): (next: (nat, nat))
    requires 1 <= month <= 12
    ensures next.0 >= year && 1 <= next.1 <= 12
  {
    if month == 12 then (year + 1, 1) else (year, month + 1)
  }

  /** The next month is the next in the count, and starts as many days later as the month
      has, 29 in February of a leap year. */
  lemma NextMonthFollows(year: nat, month: nat)
    requires 1970 <= year && 1 <= month <= 12
    ensures var (y, m) := NextMonth(year, month);
      && Numbered(y, m) == Numbered(year, month) + 1
      && MonthStart(Numbered(y, m)) == MonthStart(Numbered(year, month)) + DAY * DaysIn(Numbered(year, month))
    ensures month == 2 ==> DaysIn(Numbered(year, month)) == if Leap(year) then 29 else 28
  {
    var k := Numbered(year, month);
    OneMonth(k);
    QuotientIs(k, 12, year - 1970, month - 1);
  }

  /** Leap days from year 1 up to and including the year. */
  function LeapDays(year: nat): int {
    year / 4 - year / 100 + year / 400
  }

  lemma QuotientIs(n: int, d: int, q: int, r: int)
    requires 0 < d && n == d * q + r && 0 <= r < d
    ensures n / d == q && n % d == r
  {
    var off := q - n / d;
    assert d * off == n % d - r;
    assert off > 0 ==> d * off >= d;
    assert off < 0 ==> d * off <= -d;
  }

  /** A quotient steps up at the multiples. */
  lemma QuotientSteps(n: int, d: int)
    requires 0 < d
    ensures n / d - (n - 1) / d == if n % d == 0 then 1 else 0
  {
    var q, r := n / d, n % d;
    if r == 0 {
      QuotientIs(n - 1, d, q - 1, d - 1);
    } else {
      QuotientIs(n - 1, d, q, r - 1);
    }
  }

  lemma MultipleOfMultiple(n: int, d: int, e: int)
    requires 0 < d && 0 < e && n % (d * e) == 0
    ensures n % d == 0
  {
    var q := n / (d * e);
    assert n == d * (e * q) + 0;
    QuotientIs(n, d, e * q, 0);
  }

  lemma LeapDaysCount(year: nat)
    requires 0 < year
    ensures LeapDays(year) - LeapDays(year - 1) == if Leap(year) then 1 else 0
  {
    QuotientSteps(year, 4);
    QuotientSteps(year, 100);
    QuotientSteps(year, 400);
    if year % 100 == 0 {
      MultipleOfMultiple(year, 4, 25);
    }
    if year % 400 == 0 {
      MultipleOfMultiple(year, 100, 4);
    }
  }

  /** Five months from March on make 153 days. */
  function Marched(m: nat): nat {
    (153 * m + 2) / 5
  }

  lemma MarchedDays(k: nat, m: nat)
    requires m < 11 && k % 12 == if m == 10 then 0 else m + 2
    ensures Marched(m) + DaysIn(k) == Marched(m + 1)
  {
  }

  lemma MonthAfterMarch(march: nat, m: nat)
    requires march % 12 == 2 && m < 11
    ensures (march + m) % 12 == if m == 10 then 0 else m + 2
  {
  }

  lemma MarchStep(march: nat, m: nat)
    requires march % 12 == 2 && m < 11
    ensures DaysBefore(march + (m + 1)) - DaysBefore(march + m) == Marched(m + 1) - Marched(m)
  {
    OneMonth(march + m);
    MonthAfterMarch(march, m);
    MarchedDays(march + m, m);
  }

  /** The months from March to February start where the pattern puts them. */
  lemma {:induction false} MonthsFromMarch(march: nat, m: nat)
    requires march % 12 == 2 && m <= 11
    ensures DaysBefore(march + m) - DaysBefore(march) == Marched(m)
  {
    if m > 0 {
      MonthsFromMarch(march, m - 1);
      MarchStep(march, m - 1);
    }
  }

  /** January and February, the latter with the leap day. */
  lemma YearBegins(january: nat)
    requires january % 12 == 0
    ensures DaysBefore(january + 2) == DaysBefore(january) + 59 + if Leap(1970 + january / 12) then 1 else 0
    ensures DaysBefore(january + 1) == DaysBefore(january) + 31
  {
    OneMonth(january);
    OneMonth(january + 1);
    QuotientIs(january + 1, 12, january / 12, 1);
  }

  lemma YearPasses(passed: nat, january: nat)
    requires january == 12 * passed
    ensures DaysBefore(january + 12) == DaysBefore(january) + 365 + if Leap(1970 + passed) then 1 else 0
  {
    QuotientIs(january, 12, passed, 0);
    YearBegins(january);
    MonthsFromMarch(january + 2, 10);
  }

  /** The first of January after so many years: 365 days for each, and the leap days. */
  function YearStart(passed: nat): int {
    365 * passed + LeapDays(1969 + passed) - LeapDays(1969)
  }

  lemma NextYearStart(passed: nat)
    ensures YearStart(passed + 1) == YearStart(passed) + 365 + if Leap(1970 + passed) then 1 else 0
  {
    LeapDaysCount(1970 + passed);
  }

  lemma YearStep(passed: nat)
    ensures DaysBefore(12 * (passed + 1)) - DaysBefore(12 * passed) == YearStart(passed + 1) - YearStart(passed)
  {
    YearPasses(passed, 12 * passed);
    NextYearStart(passed);
  }

  /** A year starts 365 days after the epoch for every year passed, and the leap days. */
  lemma {:induction false} YearStarts(passed: nat)
    ensures DaysBefore(12 * passed) == YearStart(passed)
  {
    if passed > 0 {
      YearStarts(passed - 1);
      YearStep(passed - 1);
    }
  }

  /** The month a time falls in, searched upwards from `month`. */
  function MonthFrom(time: nat, month: nat): (found: nat)
    requires MonthStart(month) <= time
    ensures month <= found && MonthStart(found) <= time < MonthStart(found + 1)
    decreases time - MonthStart(month)
  {
    if time < MonthStart(month + 1) then month else MonthFrom(time, month + 1)
  }

  /** `replace(day=1, ...)` keeps this month. */
  function MonthOf(time: nat): (month: nat)
    ensures MonthStart(month) <= time < MonthStart(month + 1)
  {
    MonthFrom(time, 0)
  }

  lemma MonthIsUnique(time: nat, month: nat)
    requires MonthStart(month) <= time < MonthStart(month + 1)
    ensures MonthOf(time) == month
  {
    var found := MonthOf(time);
    if found < month {
      MonthsAscend(found + 1, month);
    } else if month < found {
      MonthsAscend(month + 1, found);
    }
  }

  lemma MonthsFollowTime(a: nat, b: nat)
    requires a <= b
    ensures MonthOf(a) <= MonthOf(b)
  {
    if MonthOf(b) < MonthOf(a) {
      MonthsAscend(MonthOf(b) + 1, MonthOf(a));
    }
  }

  /** Midnight of the day a time falls in. */
  function FloorDay(time: nat): (day: nat)
    ensures day % DAY == 0 && day <= time < day + DAY
  {
    time - time % DAY
  }
}
