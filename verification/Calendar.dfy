/** mktimegm: seconds since 1970-01-01 00:00:00 of a Gregorian date and time. */
module Calendar {

  const DAY: int := 86400

  predicate Leap(y: int) { y % 4 == 0 && (y % 100 != 0 || y % 400 == 0) }

  function YearDays(y: int): nat { if Leap(y) then 366 else 365 }

  function MonthDays(y: int, m: nat): nat
    requires 1 <= m <= 12
  {
    if m == 2 then (if Leap(y) then 29 else 28)
    else if m == 4 || m == 6 || m == 9 || m == 11 then 30
    else 31
  }

  // A date of year 1 or later, with months from 1 to 12.
  datatype Date = Date(y: int, m: nat, d: nat)

  predicate ValidDate(t: Date) { 1 <= t.y && 1 <= t.m <= 12 && 1 <= t.d <= MonthDays(t.y, t.m) }

  // Days from 0001-01-01 to the first of January of year y, year by year.
  function DaysToYear(y: nat): nat
    requires y >= 1
  {
    if y == 1 then 0 else DaysToYear(y - 1) + YearDays(y - 1)
  }

  // Days from the first of January to the first of month m, month by month.
  function DaysToMonth(y: int, m: nat): nat
    requires 1 <= m <= 12
  {
    if m == 1 then 0 else DaysToMonth(y, m - 1) + MonthDays(y, m - 1)
  }

  function Days(t: Date): int
    requires ValidDate(t)
  {
    DaysToYear(t.y) + DaysToMonth(t.y, t.m) + t.d - 1
  }

  const EPOCH := Date(1970, 1, 1)

  // C division
  function Quotient(x: int, n: nat): int
    requires n > 0
  {
    if x >= 0 then x / n else -(-x / n)
  }

  // The number mktimegm multiplies by 86400, after the adjustment of month and year.
  function DayNumber(y: int, m: int, d: int): int {
    d + Quotient(153 * m - 457, 5) + 365 * y + Quotient(y, 4) - Quotient(y, 100) + Quotient(y, 400) - 719469
  }

  // mktimegm, with the fields of struct tm.
  function Mktimegm(tmYear: int, tmMon: int, tmMday: int, hour: int, min: int, sec: int): int {
    var y, m := tmYear + 1900, tmMon + 1;
    var n := if m < 3 then DayNumber(y - 1, m + 12, tmMday) else DayNumber(y, m, tmMday);
    DAY * n + 3600 * hour + 60 * min + sec
  }

  function Time(t: Date, hour: int, min: int, sec: int): int { Mktimegm(t.y - 1900, t.m - 1, t.d, hour, min, sec) }

  lemma {:induction false} YearsClosed(y: nat)
    requires y >= 1
    ensures DaysToYear(y) == 365 * (y - 1) + (y - 1) / 4 - (y - 1) / 100 + (y - 1) / 400
  {
    if y > 1 {
      YearsClosed(y - 1);
      Multiples(y - 1);
    }
  }

  // How a count of multiples grows.
  lemma Multiples(y: nat)
    requires y >= 1
    ensures y / 4 - (y - 1) / 4 == if y % 4 == 0 then 1 else 0
    ensures y / 100 - (y - 1) / 100 == if y % 100 == 0 then 1 else 0
    ensures y / 400 - (y - 1) / 400 == if y % 400 == 0 then 1 else 0
    ensures y % 100 == 0 ==> y % 4 == 0
    ensures y % 400 == 0 ==> y % 100 == 0
  {
  }

  // The formula for the months, from March on and for January and February after.
  lemma MonthsClosed(y: int, m: nat)
    requires 1 <= m <= 12
    ensures m >= 3 ==> DaysToMonth(y, m) == (153 * m - 457) / 5 + (if Leap(y) then 60 else 59)
    ensures m < 3 ==> DaysToMonth(y, m) + 306 == (153 * (m + 12) - 457) / 5
  {
    assert DaysToMonth(y, 2) == 31;
    assert DaysToMonth(y, 3) == 31 + MonthDays(y, 2);
    assert DaysToMonth(y, 4) == 62 + MonthDays(y, 2);
    assert DaysToMonth(y, 5) == 92 + MonthDays(y, 2);
    assert DaysToMonth(y, 6) == 123 + MonthDays(y, 2);
    assert DaysToMonth(y, 7) == 153 + MonthDays(y, 2);
    assert DaysToMonth(y, 8) == 184 + MonthDays(y, 2);
    assert DaysToMonth(y, 9) == 215 + MonthDays(y, 2);
    assert DaysToMonth(y, 10) == 245 + MonthDays(y, 2);
    assert DaysToMonth(y, 11) == 276 + MonthDays(y, 2);
  }

  lemma EpochDays()
    ensures Days(EPOCH) == 719162
  {
    YearsClosed(1970);
  }

  lemma DayNumberLate(t: Date)
    requires ValidDate(t) && t.m >= 3
    ensures DayNumber(t.y, t.m, t.d) == Days(t) - 719162
  {
    YearsClosed(t.y);
    Multiples(t.y);
    MonthsClosed(t.y, t.m);
  }

  lemma DayNumberEarly(t: Date)
    requires ValidDate(t) && t.m < 3
    ensures DayNumber(t.y - 1, t.m + 12, t.d) == Days(t) - 719162
  {
    YearsClosed(t.y);
    MonthsClosed(t.y, t.m);
  }

  // The closed form counts the days since the epoch.
  lemma MktimegmCounts(t: Date, hour: int, min: int, sec: int)
    requires ValidDate(t)
    ensures Time(t, hour, min, sec) == DAY * (Days(t) - Days(EPOCH)) + 3600 * hour + 60 * min + sec
  {
    EpochDays();
    if t.m < 3 {
      DayNumberEarly(t);
    } else {
      DayNumberLate(t);
    }
  }

  // The day after.
  function Next(t: Date): Date
    requires ValidDate(t)
  {
    if t.d < MonthDays(t.y, t.m) then t.(d := t.d + 1)
    else if t.m < 12 then Date(t.y, t.m + 1, 1)
    else Date(t.y + 1, 1, 1)
  }

  lemma YearIsMonths(y: int)
    ensures DaysToMonth(y, 12) + 31 == YearDays(y)
  {
    MonthsClosed(y, 12);
  }

  lemma DaysNext(t: Date)
    requires ValidDate(t)
    ensures ValidDate(Next(t)) && Days(Next(t)) == Days(t) + 1
  {
    YearIsMonths(t.y);
  }

  // Consecutive days are 86400 seconds apart.
  lemma NextDay(t: Date)
    requires ValidDate(t)
    ensures ValidDate(Next(t)) && Time(Next(t), 0, 0, 0) == Time(t, 0, 0, 0) + DAY
  {
    DaysNext(t);
    MktimegmCounts(t, 0, 0, 0);
    MktimegmCounts(Next(t), 0, 0, 0);
  }

  predicate Before(s: Date, t: Date) { s.y < t.y || (s.y == t.y && (s.m < t.m || (s.m == t.m && s.d < t.d))) }

  lemma {:induction false} MonthsGrow(y: int, m: nat, n: nat)
    requires 1 <= m < n <= 12
    ensures DaysToMonth(y, m) + MonthDays(y, m) <= DaysToMonth(y, n)
  {
    if m < n - 1 {
      MonthsGrow(y, m, n - 1);
    }
  }

  lemma {:induction false} YearsGrow(y: nat, z: nat)
    requires 1 <= y < z
    ensures DaysToYear(y) + YearDays(y) <= DaysToYear(z)
  {
    if y < z - 1 {
      YearsGrow(y, z - 1);
    }
  }

  lemma InYear(t: Date)
    requires ValidDate(t)
    ensures DaysToMonth(t.y, t.m) + t.d <= YearDays(t.y)
  {
    YearIsMonths(t.y);
    if t.m < 12 {
      MonthsGrow(t.y, t.m, 12);
    }
  }

  // A later date or time of day is a later time, whatever the times of day within the dates.
  lemma StrictlyIncreasing(s: Date, t: Date, a: int, b: int)
    requires ValidDate(s) && ValidDate(t) && 0 <= a < DAY && 0 <= b < DAY
    requires Before(s, t) || (s == t && a < b)
    ensures Time(s, 0, 0, a) < Time(t, 0, 0, b)
  {
    MktimegmCounts(s, 0, 0, a);
    MktimegmCounts(t, 0, 0, b);
    if s.y < t.y {
      YearsGrow(s.y, t.y);
      InYear(s);
    } else if s.m < t.m {
      MonthsGrow(s.y, s.m, t.m);
    }
  }
}
