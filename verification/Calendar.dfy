/**
 The proleptic Gregorian calendar from year 0 on: days counted from January 1st of year 0.
 Printing a time goes from day numbers to dates, so what matters is that dates keep their order.
 */
module Calendar {
  import opened Arithmetic

  datatype Date = Date(year: nat, month: nat, day: nat)

  predicate IsLeap(year: nat) {
    year % 4 == 0 && (year % 100 != 0 || year % 400 == 0)
  }

  function MonthLength(year: nat, month: nat): nat {
    if month == 2 then (if IsLeap(year) then 29 else 28)
    else if month == 4 || month == 6 || month == 9 || month == 11 then 30
    else 31
  }

  function YearLength(year: nat): nat {
    if IsLeap(year) then 366 else 365
  }

  function DaysBeforeMonth(year: nat, month: nat): nat
    requires 1 <= month <= 13
  {
    if month == 1 then 0 else DaysBeforeMonth(year, month - 1) + MonthLength(year, month - 1)
  }

  function DaysBeforeYear(year: nat): nat {
    if year == 0 then 0 else DaysBeforeYear(year - 1) + YearLength(year - 1)
  }

  predicate IsDate(d: Date) {
    1 <= d.month <= 12 && 1 <= d.day <= MonthLength(d.year, d.month)
  }

  function DayNumber(d: Date): nat
    requires IsDate(d)
  {
    DaysBeforeYear(d.year) + DaysBeforeMonth(d.year, d.month) + d.day - 1
  }

  function FindYear(n: nat, from: nat): (year: nat)
    requires DaysBeforeYear(from) <= n
    ensures DaysBeforeYear(year) <= n < DaysBeforeYear(year + 1)
    decreases n - DaysBeforeYear(from)
  {
    if n < DaysBeforeYear(from + 1) then from else FindYear(n, from + 1)
  }

  function FindMonth(year: nat, n: nat, from: nat): (month: nat)
    requires 1 <= from <= 12 && DaysBeforeMonth(year, from) <= n < DaysBeforeMonth(year, 13)
    ensures 1 <= month <= 12 && DaysBeforeMonth(year, month) <= n < DaysBeforeMonth(year, month + 1)
    decreases 12 - from
  {
    if n < DaysBeforeMonth(year, from + 1) then from else FindMonth(year, n, from + 1)
  }

  /** The months make up the year. */
  lemma MonthsFillTheYear(year: nat)
    ensures DaysBeforeMonth(year, 13) == YearLength(year)
  {
    assert DaysBeforeMonth(year, 1) == 0;
    assert DaysBeforeMonth(year, 3) == 31 + MonthLength(year, 2);
    assert DaysBeforeMonth(year, 5) == DaysBeforeMonth(year, 3) + 61;
    assert DaysBeforeMonth(year, 7) == DaysBeforeMonth(year, 5) + 61;
    assert DaysBeforeMonth(year, 9) == DaysBeforeMonth(year, 7) + 62;
    assert DaysBeforeMonth(year, 11) == DaysBeforeMonth(year, 9) + 61;
    assert DaysBeforeMonth(year, 13) == DaysBeforeMonth(year, 11) + 61;
  }

  /** Days before each month of a common year; from March on a leap year has one more. */
  lemma MonthTable(year: nat, month: nat)
    requires 1 <= month <= 13
    ensures DaysBeforeMonth(year, month) ==
            [0, 31, 59, 90, 120, 151, 181, 212, 243, 273, 304, 334, 365][month - 1] +
            (if month > 2 && IsLeap(year) then 1 else 0)
  {
    assert DaysBeforeMonth(year, 1) == 0 && DaysBeforeMonth(year, 2) == 31;
    if month > 2 {
      MonthTable(year, month - 1);
    }
  }

  /** The date of a day number: a search for the year, then for the month. */
  function DateOf(n: nat): (d: Date)
    ensures IsDate(d) && DayNumber(d) == n
  {
    var year := FindYear(n, 0);
    var rest := n - DaysBeforeYear(year);
    MonthsFillTheYear(year);
    var month := FindMonth(year, rest, 1);
    Date(year, month, 1 + rest - DaysBeforeMonth(year, month))
  }

  predicate Earlier(a: Date, b: Date) {
    || a.year < b.year
    || (a.year == b.year && (a.month < b.month || (a.month == b.month && a.day < b.day)))
  }

  lemma {:induction false} YearsInOrder(a: nat, b: nat)
    requires a <= b
    ensures DaysBeforeYear(a) <= DaysBeforeYear(b)
  {
    if a < b {
      YearsInOrder(a, b - 1);
    }
  }

  lemma {:induction false} MonthsInOrder(year: nat, a: nat, b: nat)
    requires 1 <= a <= b <= 13
    ensures DaysBeforeMonth(year, a) <= DaysBeforeMonth(year, b)
  {
    if a < b {
      MonthsInOrder(year, a, b - 1);
    }
  }

  lemma EarlierMeansSmaller(a: Date, b: Date)
    requires IsDate(a) && IsDate(b) && Earlier(a, b)
    ensures DayNumber(a) < DayNumber(b)
  {
    if a.year < b.year {
      MonthsInOrder(a.year, a.month + 1, 13);
      MonthsFillTheYear(a.year);
      YearsInOrder(a.year + 1, b.year);
    } else if a.month < b.month {
      MonthsInOrder(a.year, a.month + 1, b.month);
    }
  }

  /** Later days have later dates and the other way round; so no two days share a date. */
  lemma DatesKeepOrder(m: nat, n: nat)
    ensures Earlier(DateOf(m), DateOf(n)) <==> m < n
    ensures DateOf(m) == DateOf(n) <==> m == n
  {
    var a, b := DateOf(m), DateOf(n);
    if Earlier(a, b) {
      EarlierMeansSmaller(a, b);
    } else if Earlier(b, a) {
      EarlierMeansSmaller(b, a);
    }
  }

  /** A date's number is its alone, so the date of that number is the date. */
  lemma DateRoundTrip(d: Date)
    requires IsDate(d)
    ensures DateOf(DayNumber(d)) == d
  {
    var found := DateOf(DayNumber(d));
    if Earlier(found, d) {
      EarlierMeansSmaller(found, d);
    } else if Earlier(d, found) {
      EarlierMeansSmaller(d, found);
    }
  }

  // Leap years over 400 years: the length of the whole range that four digits can print.

  function LeapsBefore(year: nat): nat {
    (year + 3) / 4 - (year + 99) / 100 + (year + 399) / 400
  }

  lemma LeapStep(year: nat)
    ensures LeapsBefore(year + 1) == LeapsBefore(year) + if IsLeap(year) then 1 else 0
  {
    QuotientStep(year, 4);
    QuotientStep(year, 100);
    QuotientStep(year, 400);
    MultiplesOfMultiples(year, 4, 25);
    MultiplesOfMultiples(year, 100, 4);
  }

  lemma {:induction false} DaysBeforeYearClosed(year: nat)
    ensures DaysBeforeYear(year) == 365 * year + (year + 3) / 4 - (year + 99) / 100 + (year + 399) / 400
  {
    if year > 0 {
      DaysBeforeYearClosed(year - 1);
      LeapStep(year - 1);
    }
  }

  lemma YearsBelow(n: nat, year: nat)
    ensures DateOf(n).year < year <==> n < DaysBeforeYear(year)
  {
    var d := DateOf(n);
    MonthsInOrder(d.year, d.month + 1, 13);
    MonthsFillTheYear(d.year);
    if d.year < year {
      YearsInOrder(d.year + 1, year);
    } else {
      YearsInOrder(year, d.year);
    }
  }

  const DAYS: nat := 3652425

  /** The years 0 to 9999, the ones that four digits print, are the first 3652425 days. */
  lemma FourDigitYears(n: nat)
    ensures DateOf(n).year <= 9999 <==> n < DAYS
  {
    var year :| year == 10000;
    YearsBelow(n, year);
    assert DaysBeforeYear(year) == DAYS by {
      DaysBeforeYearClosed(year);
    }
  }
}
