/**
Calendar dates as the services use them: a proleptic Gregorian (year, month, day) triple
(section 3.2.1 of ISO 8601:2004) together with a day number.  The services mix day
arithmetic with month arithmetic, so both views are needed, and the lemmas of this module
tie them to each other.  Years have no upper bound here.
*/
module Calendar {

  datatype RawDate = RawDate(year: int, month: int, day: int)

  type Date = d: RawDate | IsDate(d) witness RawDate(1, 1, 1)

  predicate IsDate(d: RawDate) {
    1 <= d.year && 1 <= d.month <= 12 && 1 <= d.day <= DaysInMonth(d.year, d.month)
  }

  predicate IsLeap(year: int) {
    year % 4 == 0 && (year % 100 != 0 || year % 400 == 0)
  }

  function DaysInMonth(year: int, month: int): (n: int)
    requires 1 <= month <= 12
    ensures 28 <= n <= 31
  {
    if month == 2 then (if IsLeap(year) then 29 else 28)
    else if month == 4 || month == 6 || month == 9 || month == 11 then 30
    else 31
  }

  /** The lengths of the twelve months, in a common year and in a leap year. */
  lemma MonthLengthsInPlainTerms(year: int, month: int)
    requires 1 <= month <= 12
    ensures var isLeap := year % 400 == 0 || (year % 4 == 0 && year % 100 != 0);
            DaysInMonth(year, month) == [31, if isLeap then 29 else 28, 31, 30, 31, 30, 31, 31, 30, 31, 30, 31][month - 1]
  {
    HundredsAreFours(year);
  }

  lemma HundredsAreFours(year: int)
    ensures year % 400 == 0 ==> year % 4 == 0
  {
    if year % 400 == 0 {
      assert year == 4 * (100 * (year / 400));
    }
  }

  // ----- Months counted from January of year 0 -----

  function MonthIndex(d: Date): (i: nat)
    ensures 12 <= i
  {
    12 * d.year + d.month - 1
  }

  function MonthLength(i: nat): (n: int)
    ensures 28 <= n <= 31
  {
    DaysInMonth(i / 12, i % 12 + 1)
  }

  lemma MonthLengthOf(year: int, month: int)
    requires 1 <= year && 1 <= month <= 12
    ensures MonthLength(12 * year + month - 1) == DaysInMonth(year, month)
  {
    var i := 12 * year + month - 1;
    assert i / 12 == year && i % 12 == month - 1;
  }

  /** The number of days before month `i`, counted from 1 January of year 1. */
  function MonthStart(i: nat): (n: nat) {
    if i <= 12 then 0 else MonthStart(i - 1) + MonthLength(i - 1)
  }

  lemma {:induction false} MonthStartBounds(i: nat, j: nat)
    requires 12 <= i <= j
    ensures MonthStart(i) + 28 * (j - i) <= MonthStart(j) <= MonthStart(i) + 31 * (j - i)
    decreases j
  {
    if i < j {
      MonthStartBounds(i, j - 1);
    }
  }

  // ----- Day numbers -----

  /** The day number of a date: 1 for 0001-01-01, as `date.toordinal` counts. */
  function Ordinal(d: Date): (n: Day)
  {
    MonthStart(MonthIndex(d)) + d.day
  }

  /** A day number stands for the one date that has it. */
  type Day = n: int | 1 <= n witness 1

  function DateFrom(i: nat, n: nat): (d: Date)
    requires 12 <= i && MonthStart(i) < n
    ensures Ordinal(d) == n
    decreases n - MonthStart(i)
  {
    if n <= MonthStart(i) + MonthLength(i) then
      RawDate(i / 12, i % 12 + 1, n - MonthStart(i))
    else
      DateFrom(i + 1, n)
  }

  function FromOrdinal(n: Day): (d: Date)
    ensures Ordinal(d) == n
  {
    DateFrom(12, n)
  }

  /** Python's order on dates compares year, month and day in that order. */
  predicate Lt(a: Date, b: Date)
    ensures Lt(a, b) <==> Ordinal(a) < Ordinal(b)
  {
    OrdinalMonotone(a, b);
    OrdinalMonotone(b, a);
    a.year < b.year || (a.year == b.year && (a.month < b.month || (a.month == b.month && a.day < b.day)))
  }

  lemma EarlierMonth(a: Date, b: Date)
    requires MonthIndex(a) < MonthIndex(b)
    ensures Ordinal(a) + 28 * (MonthIndex(b) - MonthIndex(a) - 1) < Ordinal(b)
  {
    MonthLengthOf(a.year, a.month);
    MonthStartBounds(MonthIndex(a) + 1, MonthIndex(b));
  }

  lemma OrdinalMonotone(a: Date, b: Date)
    ensures (a.year < b.year || (a.year == b.year && (a.month < b.month || (a.month == b.month && a.day < b.day))))
            ==> Ordinal(a) < Ordinal(b)
  {
    if MonthIndex(a) < MonthIndex(b) {
      EarlierMonth(a, b);
    }
  }

  lemma OrdinalInjective(a: Date, b: Date)
    requires Ordinal(a) == Ordinal(b)
    ensures a == b
  {
    assert !Lt(a, b) && !Lt(b, a);
  }

  /** Together with `FromOrdinal`'s contract: dates and day numbers correspond one to one. */
  lemma OrdinalRoundTrip(d: Date)
    ensures FromOrdinal(Ordinal(d)) == d
  {
    OrdinalInjective(FromOrdinal(Ordinal(d)), d);
  }

  /** The day number agrees with the closed formula for the days before a Gregorian year. */
  lemma {:induction false} YearStartFormula(y: int)
    requires 1 <= y
    ensures MonthStart(12 * y) == 365 * (y - 1) + (y - 1) / 4 - (y - 1) / 100 + (y - 1) / 400
  {
    if y > 1 {
      YearStartFormula(y - 1);
      YearLength(y - 1);
      LeapCount(y - 1);
    }
  }

  lemma NextMonthStart(y: int, m: int)
    requires 1 <= y && 1 <= m <= 12
    ensures MonthStart(12 * y + m) == MonthStart(12 * y + m - 1) + DaysInMonth(y, m)
  {
    MonthLengthOf(y, m);
  }

  /** The number of days in the first `m` months of year `y`. */
  function DaysThroughMonth(y: int, m: int): int
    requires 1 <= y && 0 <= m <= 12
  {
    if m == 0 then 0 else DaysThroughMonth(y, m - 1) + DaysInMonth(y, m)
  }

  lemma {:induction false} MonthsOfYear(y: int, m: int)
    requires 1 <= y && 0 <= m <= 12
    ensures MonthStart(12 * y + m) == MonthStart(12 * y) + DaysThroughMonth(y, m)
  {
    if m > 0 {
      MonthsOfYear(y, m - 1);
      NextMonthStart(y, m);
    }
  }

  lemma YearLength(y: int)
    requires 1 <= y
    ensures MonthStart(12 * y + 12) == MonthStart(12 * y) + (if IsLeap(y) then 366 else 365)
  {
    MonthsOfYear(y, 12);
    assert DaysThroughMonth(y, 1) == 31;
    assert DaysThroughMonth(y, 2) == if IsLeap(y) then 60 else 59;
    assert DaysThroughMonth(y, 4) == DaysThroughMonth(y, 2) + 61;
    assert DaysThroughMonth(y, 6) == DaysThroughMonth(y, 4) + 61;
    assert DaysThroughMonth(y, 8) == DaysThroughMonth(y, 6) + 62;
    assert DaysThroughMonth(y, 10) == DaysThroughMonth(y, 8) + 61;
  }

  lemma MultiplesUpTo(y: int, n: int)
    requires 1 <= y && (n == 4 || n == 100 || n == 400)
    ensures y / n == (y - 1) / n + (if y % n == 0 then 1 else 0)
  {
  }

  lemma MultipleOf4(y: int, q: int)
    requires y == 4 * q
    ensures y % 4 == 0
  {
  }

  lemma MultipleOf100(y: int, q: int)
    requires y == 100 * q
    ensures y % 100 == 0
  {
  }

  lemma MultiplesOf400And100(y: int)
    ensures y % 100 == 0 ==> y % 4 == 0
    ensures y % 400 == 0 ==> y % 100 == 0
  {
    if y % 100 == 0 {
      MultipleOf4(y, 25 * (y / 100));
    }
    if y % 400 == 0 {
      MultipleOf100(y, 4 * (y / 400));
    }
  }

  lemma LeapCount(y: int)
    requires 1 <= y
    ensures y / 4 - y / 100 + y / 400 ==
            (y - 1) / 4 - (y - 1) / 100 + (y - 1) / 400 + (if IsLeap(y) then 1 else 0)
  {
    MultiplesUpTo(y, 4);
    MultiplesUpTo(y, 100);
    MultiplesUpTo(y, 400);
    MultiplesOf400And100(y);
  }

  // ----- Day and month arithmetic -----

  /** ISO weekday number, Monday = 1 to Sunday = 7 (section 3.2.2 of ISO 8601:2004). */
  function Weekday(n: Day): (w: int)
    ensures 1 <= w <= 7 && (n - w) % 7 == 0
  {
    if n % 7 == 0 then 7 else n % 7
  }

  /** `_add_months`: the same day of a later month, clamped to that month's last day. */
  function AddMonths(d: Date, months: nat): (r: Date)
    ensures MonthIndex(r) == MonthIndex(d) + months
    ensures r.day == if d.day <= MonthLength(MonthIndex(r)) then d.day else MonthLength(MonthIndex(r))
  {
    var month := d.month - 1 + months;
    var year := d.year + month / 12;
    var last := DaysInMonth(year, month % 12 + 1);
    assert (12 * d.year + month) / 12 == year && (12 * d.year + month) % 12 == month % 12;
    RawDate(year, month % 12 + 1, if d.day <= last then d.day else last)
  }

  /** `date.replace(day=n)` for a day that every month has. */
  function ReplaceDay(d: Date, n: int): (r: Date)
    requires 1 <= n <= 28
    ensures MonthIndex(r) == MonthIndex(d) && r.day == n
  {
    RawDate(d.year, d.month, n)
  }

  function LastOfMonth(d: Date): (r: Date)
    ensures MonthIndex(r) == MonthIndex(d) && r.day == MonthLength(MonthIndex(d))
  {
    MonthLengthOf(d.year, d.month);
    RawDate(d.year, d.month, DaysInMonth(d.year, d.month))
  }

  /** Back from a date of a later month it is at least as many days as its day of the month. */
  lemma ReachesBack(a: Date, b: Date)
    requires MonthIndex(a) < MonthIndex(b)
    ensures Ordinal(a) + b.day <= Ordinal(b)
  {
    MonthLengthOf(a.year, a.month);
    MonthStartBounds(MonthIndex(a) + 1, MonthIndex(b));
  }

  lemma IntoNextMonth(a: Date, b: Date)
    requires MonthIndex(b) == MonthIndex(a) + 1
    ensures Ordinal(a) <= Ordinal(LastOfMonth(a)) && Ordinal(LastOfMonth(a)) + b.day == Ordinal(b)
  {
    MonthLengthOf(a.year, a.month);
  }

  /** Clamping never makes a month step shorter than 28 or longer than 31 days a month. */
  lemma AddMonthsGap(d: Date, k: nat)
    requires 1 <= k
    ensures Ordinal(d) + 28 * k <= Ordinal(AddMonths(d, k)) <= Ordinal(d) + 31 * k
  {
    var i := MonthIndex(d);
    MonthLengthOf(d.year, d.month);
    ClampedGap(i, k, d.day, AddMonths(d, k).day);
  }

  /** The same, on month indexes: day `from` of month `i` to day `to` of month `i + k`. */
  lemma ClampedGap(i: nat, k: nat, from: int, to: int)
    requires 12 <= i && 1 <= k
    requires 1 <= from <= MonthLength(i)
    requires to == if from <= MonthLength(i + k) then from else MonthLength(i + k)
    ensures MonthStart(i) + from + 28 * k <= MonthStart(i + k) + to <= MonthStart(i) + from + 31 * k
  {
    var start, target := MonthStart(i), MonthStart(i + k);
    MonthStartBounds(i + 1, i + k);
    MonthStartBounds(i, i + k);
    assert start + MonthLength(i) + 28 * (k - 1) <= target by {
      assert MonthStart(i + 1) == start + MonthLength(i);
    }
    ClampedDays(start, MonthLength(i), target, MonthLength(i + k), k, from);
  }

  lemma ClampedDays(start: int, first: int, target: int, last: int, k: nat, from: int)
    requires start + first + 28 * (k - 1) <= target && start + 28 * k <= target <= start + 31 * k
    requires 28 <= last && from <= first
    ensures var to := if from <= last then from else last;
            start + from + 28 * k <= target + to <= start + from + 31 * k
  {
  }
}
