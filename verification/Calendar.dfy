// Day arithmetic of the proleptic Gregorian calendar, as section 21.4.1 of ECMA-262 defines it.
// Days are counted from 1970-01-01.
module Calendar {
  datatype Date = Date(year: int, month: int, day: int)

  predicate Leap(y: int) {
    y % 4 == 0 && (y % 100 != 0 || y % 400 == 0)
  }

  function DaysInYear(y: int): int {
    if Leap(y) then 366 else 365
  }

  function DayFromYear(y: int): int {
    365 * (y - 1970) + (y - 1969) / 4 - (y - 1901) / 100 + (y - 1601) / 400
  }

  lemma Fourths(y: int)
    ensures (y + 1 - 1969) / 4 == (y - 1969) / 4 + if y % 4 == 0 then 1 else 0
  {
  }

  lemma Centuries(y: int)
    ensures (y + 1 - 1901) / 100 == (y - 1901) / 100 + if y % 100 == 0 then 1 else 0
  {
  }

  lemma FourCenturies(y: int)
    ensures (y + 1 - 1601) / 400 == (y - 1601) / 400 + if y % 400 == 0 then 1 else 0
  {
  }

  lemma Multiples(y: int)
    ensures y % 400 == 0 ==> y % 100 == 0
    ensures y % 100 == 0 ==> y % 4 == 0
  {
  }

  lemma YearLength(y: int)
    ensures DayFromYear(y + 1) == DayFromYear(y) + DaysInYear(y)
  {
    Fourths(y);
    Centuries(y);
    FourCenturies(y);
    Multiples(y);
  }

  lemma {:induction false} YearsInOrder(y: int, z: int)
    requires y <= z
    ensures DayFromYear(y) + 365 * (z - y) <= DayFromYear(z)
    decreases z - y
  {
    if y < z {
      YearLength(y);
      YearsInOrder(y + 1, z);
    }
  }

  function MonthLength(m: int, leap: bool): (n: int)
    ensures 28 <= n <= 31
  {
    if m == 2 then (if leap then 29 else 28)
    else if m == 4 || m == 6 || m == 9 || m == 11 then 30
    else 31
  }

  /** Days of the year before the first of month `m + 1`. */
  function MonthStart(m: int, leap: bool): (n: int)
    requires 0 <= m <= 12
    ensures n >= 0
  {
    if m == 0 then 0 else MonthStart(m - 1, leap) + MonthLength(m, leap)
  }

  lemma WholeYear(leap: bool)
    ensures MonthStart(12, leap) == if leap then 366 else 365
  {
    assert MonthStart(1, leap) == 31;
    assert MonthStart(2, leap) == if leap then 60 else 59;
    assert MonthStart(4, leap) == if leap then 121 else 120;
    assert MonthStart(6, leap) == if leap then 182 else 181;
    assert MonthStart(8, leap) == if leap then 244 else 243;
    assert MonthStart(10, leap) == if leap then 305 else 304;
  }

  predicate Valid(d: Date) {
    1 <= d.month <= 12 && 1 <= d.day <= MonthLength(d.month, Leap(d.year))
  }

  /** Day number within its year, from 0. */
  function DayInYear(month: int, day: int, leap: bool): int
    requires 1 <= month <= 12
  {
    MonthStart(month - 1, leap) + day - 1
  }

  /** MakeDay: months and days outside their ranges roll over. */
  function MakeDay(year: int, month: int, day: int): int {
    var y := year + (month - 1) / 12;
    DayFromYear(y) + DayInYear((month - 1) % 12 + 1, day, Leap(y))
  }

  function DayOf(d: Date): int
    requires Valid(d)
  {
    DayFromYear(d.year) + DayInYear(d.month, d.day, Leap(d.year))
  }

  lemma MakeDayOfValid(d: Date)
    requires Valid(d)
    ensures MakeDay(d.year, d.month, d.day) == DayOf(d)
  {
  }

  // ---------------------------------------------------------------- from days to dates

  /** The year `t` lies in, searched upwards from `y`. */
  function YearFrom(t: int, y: int): (r: int)
    requires DayFromYear(y) <= t
    ensures DayFromYear(r) <= t < DayFromYear(r + 1)
    decreases t - DayFromYear(y)
  {
    YearLength(y);
    if t < DayFromYear(y + 1) then y else YearFrom(t, y + 1)
  }

  lemma EarlyYear(t: int)
    ensures t >= 0 ==> DayFromYear(1970 + t / 366) <= t
    ensures t < 0 ==> DayFromYear(1970 + t / 365) <= t
  {
    if t >= 0 {
      LeapDays(t / 366);
    } else {
      LeapDays(t / 365);
    }
  }

  lemma LeapDays(k: int)
    ensures k >= 0 ==> DayFromYear(1970 + k) <= 366 * k
    ensures k < 0 ==> DayFromYear(1970 + k) <= 365 * k
  {
  }

  /** YearFromTime: the one year with DayFromYear(y) <= t < DayFromYear(y + 1). */
  function YearOf(t: int): (y: int)
    ensures DayFromYear(y) <= t < DayFromYear(y + 1)
  {
    EarlyYear(t);
    YearFrom(t, 1970 + if t >= 0 then t / 366 else t / 365)
  }

  /** The month day number `n` of the year lies in, from 1. */
  function MonthAt(n: int, leap: bool, m: int): (r: int)
    requires 1 <= m <= 12
    ensures m <= r <= 12
    decreases 12 - m
  {
    if m == 12 || n < MonthStart(m, leap) then m else MonthAt(n, leap, m + 1)
  }

  lemma {:induction false} MonthAtIs(n: int, leap: bool, m: int)
    requires 1 <= m <= 12 && MonthStart(m - 1, leap) <= n < if leap then 366 else 365
    ensures MonthStart(MonthAt(n, leap, m) - 1, leap) <= n < MonthStart(MonthAt(n, leap, m), leap)
    decreases 12 - m
  {
    hide MonthStart;
    WholeYear(leap);
    if m < 12 && n >= MonthStart(m, leap) {
      MonthAtIs(n, leap, m + 1);
    }
  }

  function DateInYear(y: int, n: int): (d: Date)
    requires 0 <= n < DaysInYear(y)
    ensures Valid(d) && d.year == y && DayInYear(d.month, d.day, Leap(y)) == n
  {
    MonthAtIs(n, Leap(y), 1);
    var m := MonthAt(n, Leap(y), 1);
    Date(y, m, n - MonthStart(m - 1, Leap(y)) + 1)
  }

  function DateOf(t: int): (d: Date)
    ensures Valid(d) && DayOf(d) == t
  {
    var y := YearOf(t);
    YearLength(y);
    DateInYear(y, t - DayFromYear(y))
  }

  // ---------------------------------------------------------------- another count of days

  /** Days from the first of March to the first of a month, with March as month 0. */
  function FromMarch(m: int): int {
    (153 * m + 2) / 5
  }

  lemma MonthsFromMarch(m: int, leap: bool)
    requires 1 <= m <= 12
    ensures MonthStart(m - 1, leap) ==
      if m <= 2 then FromMarch(m + 9) - 306 else FromMarch(m - 3) + if leap then 60 else 59
  {
    assert MonthStart(0, leap) == 0;
    assert MonthStart(1, leap) == 31;
    assert MonthStart(2, leap) == if leap then 60 else 59;
    assert MonthStart(3, leap) == MonthStart(2, leap) + 31;
    assert MonthStart(4, leap) == MonthStart(2, leap) + 61;
    assert MonthStart(5, leap) == MonthStart(2, leap) + 92;
    assert MonthStart(6, leap) == MonthStart(2, leap) + 122;
    assert MonthStart(7, leap) == MonthStart(2, leap) + 153;
    assert MonthStart(8, leap) == MonthStart(2, leap) + 184;
    assert MonthStart(9, leap) == MonthStart(2, leap) + 214;
    assert MonthStart(10, leap) == MonthStart(2, leap) + 245;
    assert MonthStart(11, leap) == MonthStart(2, leap) + 275;
  }

  lemma SameFourths(y: int)
    ensures (y - 1969) / 4 == (y - 1) / 4 - 492
  {
  }

  lemma SameCenturies(y: int)
    ensures (y - 1901) / 100 == (y - 1) / 100 - 19
  {
  }

  lemma SameFourCenturies(y: int)
    ensures (y - 1601) / 400 == (y - 1) / 400 - 4
  {
  }

  /** Days before the first of March of year `y + 1`, counted from the first of March of year 0. */
  function MarchYears(y: int): int {
    365 * y + y / 4 - y / 100 + y / 400
  }

  lemma YearFromMarch(y: int)
    ensures DayFromYear(y) == MarchYears(y - 1) - 719162
  {
    SameFourths(y);
    SameCenturies(y);
    SameFourCenturies(y);
  }

  /** The number of a day by years that begin in March, without a table of months: leap days come last. */
  lemma DaysByMarch(d: Date)
    requires Valid(d)
    ensures DayOf(d) ==
      d.day - 719469
      + if d.month <= 2 then MarchYears(d.year - 1) + FromMarch(d.month + 9) else MarchYears(d.year) + FromMarch(d.month - 3)
  {
    hide MonthStart, DayFromYear, MarchYears, FromMarch, Leap;
    MonthsFromMarch(d.month, Leap(d.year));
    YearFromMarch(d.year);
    YearFromMarch(d.year + 1);
    YearLength(d.year);
  }

  /** A day too many is the next day, and a month too many is one of the next year. */
  lemma RollsOver(y: int, m: int, d: int)
    ensures MakeDay(y, m, d + 1) == MakeDay(y, m, d) + 1
    ensures MakeDay(y, m + 12, d) == MakeDay(y + 1, m, d)
  {
    hide MonthStart, DayFromYear, Leap;
    assert (m + 12 - 1) / 12 == (m - 1) / 12 + 1 && (m + 12 - 1) % 12 == (m - 1) % 12;
  }

  // ---------------------------------------------------------------- properties

  predicate Before(a: Date, b: Date) {
    || a.year < b.year
    || (a.year == b.year && (a.month < b.month || (a.month == b.month && a.day < b.day)))
  }

  lemma {:induction false} MonthsInOrder(m: int, n: int, leap: bool)
    requires 0 <= m <= n <= 12
    ensures MonthStart(m, leap) <= MonthStart(n, leap)
  {
    if m < n {
      MonthsInOrder(m, n - 1, leap);
    }
  }

  lemma WithinYear(d: Date)
    requires Valid(d)
    ensures DayFromYear(d.year) <= DayOf(d) < DayFromYear(d.year + 1)
  {
    YearLength(d.year);
    WholeYear(Leap(d.year));
    MonthsInOrder(d.month, 12, Leap(d.year));
  }

  lemma EarlierInYear(m: int, d: int, n: int, e: int, leap: bool)
    requires 1 <= m <= n <= 12 && 1 <= e
    requires d <= MonthLength(m, leap)
    requires m == n ==> d < e
    ensures DayInYear(m, d, leap) < DayInYear(n, e, leap)
  {
    if m < n {
      MonthsInOrder(m, n - 1, leap);
    }
  }

  lemma EarlierDay(a: Date, b: Date)
    requires Valid(a) && Valid(b) && Before(a, b)
    ensures DayOf(a) < DayOf(b)
  {
    if a.year < b.year {
      WithinYear(a);
      WithinYear(b);
      YearsInOrder(a.year + 1, b.year);
    } else {
      EarlierInYear(a.month, a.day, b.month, b.day, Leap(a.year));
    }
  }

  /** Day numbers keep the calendar's order. */
  lemma DaysKeepOrder(a: Date, b: Date)
    requires Valid(a) && Valid(b)
    ensures DayOf(a) < DayOf(b) <==> Before(a, b)
  {
    if Before(a, b) {
      EarlierDay(a, b);
    } else if Before(b, a) {
      EarlierDay(b, a);
    }
  }

  /** The date of a valid date's day is that date. */
  lemma DateOfDay(d: Date)
    requires Valid(d)
    ensures DateOf(DayOf(d)) == d
  {
    var e := DateOf(DayOf(d));
    DaysKeepOrder(d, e);
    DaysKeepOrder(e, d);
  }

  /** The day after, by the calendar. */
  function Tomorrow(d: Date): Date
    requires Valid(d)
  {
    if d.day < MonthLength(d.month, Leap(d.year)) then d.(day := d.day + 1)
    else if d.month < 12 then Date(d.year, d.month + 1, 1)
    else Date(d.year + 1, 1, 1)
  }

  /** Consecutive dates have consecutive day numbers. */
  lemma TomorrowIsNextDay(d: Date)
    requires Valid(d)
    ensures Valid(Tomorrow(d)) && DayOf(Tomorrow(d)) == DayOf(d) + 1
  {
    if d.month == 12 {
      YearLength(d.year);
      WholeYear(Leap(d.year));
    }
  }
}
