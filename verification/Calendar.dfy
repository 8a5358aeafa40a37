/** A fixed-offset civil calendar: local seconds since 1970, day numbers, and Gregorian dates. */
module Calendar {

  const DAY: nat := 86400
  const EPOCH: nat := 1970

  predicate Leap(y: nat) { y % 4 == 0 && (y % 100 != 0 || y % 400 == 0) }

  function YearLength(y: nat): nat { if Leap(y) then 366 else 365 }

  /** Length of month m of year y, January being 1. */
  function MonthLength(y: nat, m: nat): nat
    requires 1 <= m <= 12
  {
    if m == 2 then (if Leap(y) then 29 else 28)
    else if m == 4 || m == 6 || m == 9 || m == 11 then 30
    else 31
  }

  /** Day number of 1 January. */
  function YearStart(y: nat): nat
    requires y >= EPOCH
  {
    if y == EPOCH then 0 else YearStart(y - 1) + YearLength(y - 1)
  }

  /** Days of year y before month m. */
  function MonthStart(y: nat, m: nat): nat
    requires 1 <= m <= 13
  {
    if m == 1 then 0 else MonthStart(y, m - 1) + MonthLength(y, m - 1)
  }

  datatype Date = Date(year: nat, month: nat, dom: nat)
  {
    predicate Valid() { year >= EPOCH && 1 <= month <= 12 && 1 <= dom <= MonthLength(year, month) }
  }

  /** Day number of day `dom` of a month, counting on past the end of the month or year as JavaScript's Date does. */
  function DayNumber(year: nat, month: nat, dom: nat): nat
    requires year >= EPOCH && month >= 1 && dom >= 1
  {
    var y, m := year + (month - 1) / 12, (month - 1) % 12 + 1;
    YearStart(y) + MonthStart(y, m) + dom - 1
  }

  /** The year of a day not before 1 January of year y. */
  function YearFrom(day: nat, y: nat): (r: nat)
    requires y >= EPOCH && YearStart(y) <= day
    ensures r >= y && YearStart(r) <= day < YearStart(r) + YearLength(r)
    decreases day - YearStart(y)
  {
    if day < YearStart(y) + YearLength(y) then y else YearFrom(day, y + 1)
  }

  function YearOf(day: nat): nat { YearFrom(day, EPOCH) }

  /** The month of the n-th day of year y, searching from month m. */
  function MonthFrom(y: nat, n: nat, m: nat): (r: nat)
    requires 1 <= m <= 12 && MonthStart(y, m) <= n < YearLength(y)
    ensures m <= r <= 12 && MonthStart(y, r) <= n < MonthStart(y, r) + MonthLength(y, r)
    decreases 12 - m
  {
    MonthsFillYear(y);
    if n < MonthStart(y, m) + MonthLength(y, m) || m == 12 then m else MonthFrom(y, n, m + 1)
  }

  lemma MonthsFillYear(y: nat)
    ensures MonthStart(y, 12) + MonthLength(y, 12) == YearLength(y)
  {
    assert MonthStart(y, 4) == MonthStart(y, 3) + 31 == MonthStart(y, 2) + MonthLength(y, 2) + 31;
    assert MonthStart(y, 7) == MonthStart(y, 6) + 30 == MonthStart(y, 5) + 61 == MonthStart(y, 4) + 91;
    assert MonthStart(y, 10) == MonthStart(y, 9) + 30 == MonthStart(y, 8) + 61 == MonthStart(y, 7) + 92;
    assert MonthStart(y, 12) == MonthStart(y, 11) + 30 == MonthStart(y, 10) + 61;
  }

  /** localtime: the date of a day number. */
  function DateOf(day: nat): (d: Date)
    ensures d.Valid()
  {
    var y := YearOf(day);
    var n := day - YearStart(y);
    var m := MonthFrom(y, n, 1);
    Date(y, m, n - MonthStart(y, m) + 1)
  }

  lemma {:induction false} YearStartGrows(y: nat, z: nat)
    requires EPOCH <= y <= z
    ensures YearStart(y) + 365 * (z - y) <= YearStart(z)
    decreases z - y
  {
    if y < z { YearStartGrows(y, z - 1); }
  }

  lemma {:induction false} MonthStartGrows(y: nat, m: nat, k: nat)
    requires 1 <= m <= k <= 13
    ensures MonthStart(y, m) + 28 * (k - m) <= MonthStart(y, k)
    decreases k - m
  {
    if m < k { MonthStartGrows(y, m, k - 1); }
  }

  lemma {:induction false} YearUnique(day: nat, y: nat, r: nat)
    requires y >= EPOCH && YearStart(y) <= day < YearStart(y) + YearLength(y)
    requires r >= EPOCH && YearStart(r) <= day < YearStart(r) + YearLength(r)
    ensures y == r
  {
    if r < y { YearStartGrows(r + 1, y); }
    if y < r { YearStartGrows(y + 1, r); }
  }

  lemma {:induction false} MonthUnique(y: nat, n: nat, m: nat, k: nat)
    requires 1 <= m <= 12 && MonthStart(y, m) <= n < MonthStart(y, m) + MonthLength(y, m)
    requires 1 <= k <= 12 && MonthStart(y, k) <= n < MonthStart(y, k) + MonthLength(y, k)
    ensures m == k
  {
    if m < k { MonthStartGrows(y, m + 1, k); }
    if k < m { MonthStartGrows(y, k + 1, m); }
  }

  /** A valid date lies within its year. */
  lemma WithinYear(d: Date)
    requires d.Valid()
    ensures MonthStart(d.year, d.month) + d.dom - 1 < YearLength(d.year)
  {
    MonthStartGrows(d.year, d.month + 1, 13);
    MonthsFillYear(d.year);
  }

  lemma ValidDayNumber(d: Date)
    requires d.Valid()
    ensures DayNumber(d.year, d.month, d.dom) == YearStart(d.year) + MonthStart(d.year, d.month) + d.dom - 1
  {
  }

  /** Calendar date and day number determine each other. */
  lemma DateRoundTrip(day: nat, d: Date)
    requires d.Valid()
    ensures DateOf(day) == d <==> DayNumber(d.year, d.month, d.dom) == day
  {
    var e := DateOf(day);
    ValidDayNumber(d);
    ValidDayNumber(e);
    WithinYear(d);
    WithinYear(e);
    if DayNumber(d.year, d.month, d.dom) == day {
      YearUnique(day, d.year, e.year);
      MonthUnique(d.year, day - YearStart(d.year), d.month, e.month);
    }
  }

  function DayOf(t: nat): nat { t / DAY }

  /** 0 is Sunday; 1 January 1970 was a Thursday. */
  function Weekday(day: nat): (w: nat)
    ensures w < 7
  {
    (day + 4) % 7
  }

  /** The first of each month as the day of the year, in a common year; from March on a leap year is one day later. */
  lemma MonthTable(y: nat, m: nat)
    requires 1 <= m <= 12
    ensures MonthStart(y, m) == [0, 31, 59, 90, 120, 151, 181, 212, 243, 273, 304, 334][m - 1] + if Leap(y) && m > 2 then 1 else 0
  {
    assert MonthStart(y, 2) == 31 && MonthStart(y, 3) == 59 + if Leap(y) then 1 else 0;
    assert MonthStart(y, 5) == MonthStart(y, 4) + 30 == MonthStart(y, 3) + 61;
    assert MonthStart(y, 7) == MonthStart(y, 6) + 30 == MonthStart(y, 5) + 61;
    assert MonthStart(y, 9) == MonthStart(y, 8) + 31 == MonthStart(y, 7) + 62;
    assert MonthStart(y, 11) == MonthStart(y, 10) + 31 == MonthStart(y, 9) + 61;
    assert MonthStart(y, 12) == MonthStart(y, 11) + 30;
  }

  /** Some days everyone knows, and that weekdays follow each other. */
  lemma Anchors(day: nat)
    ensures Weekday(0) == 4 && Weekday(day + 1) == (Weekday(day) + 1) % 7
    ensures YearLength(2000) == 366 && YearLength(2100) == 365 && YearLength(2023) == 365 && YearLength(2024) == 366
  {
  }
}
