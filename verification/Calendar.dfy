/** The proleptic Gregorian calendar in UTC, as days counted from 1 January of year 1 (day 0, a Monday). */
module Calendar {

  datatype Date = Date(year: int, month: int, day: int)

  predicate Leap(y: int) {
    y % 4 == 0 && (y % 100 != 0 || y % 400 == 0)
  }

  /** Days before 1 January of year `y`. */
  function BeforeYear(y: int): int {
    365 * (y - 1) + (y - 1) / 4 - (y - 1) / 100 + (y - 1) / 400
  }

  lemma YearLength(y: int)
    ensures BeforeYear(y + 1) == BeforeYear(y) + (if Leap(y) then 366 else 365)
  {
    DivStep4(y);
    DivStep100(y);
    DivStep400(y);
  }

  lemma DivStep4(x: int)
    ensures x / 4 == (x - 1) / 4 + (if x % 4 == 0 then 1 else 0)
  {
  }

  lemma DivStep100(x: int)
    ensures x / 100 == (x - 1) / 100 + (if x % 100 == 0 then 1 else 0)
    ensures x % 100 == 0 ==> x % 4 == 0
  {
    if x % 100 == 0 {
      Quotient100(x - 1, x / 100 - 1, 99);
      Quotient4(x, 25 * (x / 100), 0);
    } else {
      Quotient100(x - 1, x / 100, x % 100 - 1);
    }
  }

  lemma DivStep400(x: int)
    ensures x / 400 == (x - 1) / 400 + (if x % 400 == 0 then 1 else 0)
    ensures x % 400 == 0 ==> x % 100 == 0
  {
    if x % 400 == 0 {
      Quotient400(x - 1, x / 400 - 1, 399);
      Quotient100(x, 4 * (x / 400), 0);
    } else {
      Quotient400(x - 1, x / 400, x % 400 - 1);
    }
  }

  /** Days before the first of month `m`; month 13 stands for the end of the year. */
  function BeforeMonth(y: int, m: int): int
    requires 1 <= m <= 13
  {
    [0, 31, 59, 90, 120, 151, 181, 212, 243, 273, 304, 334, 365][m - 1] + (if m > 2 && Leap(y) then 1 else 0)
  }

  predicate ValidDate(d: Date) {
    1 <= d.month <= 12 && 1 <= d.day <= BeforeMonth(d.year, d.month + 1) - BeforeMonth(d.year, d.month)
  }

  function DayNumber(d: Date): int
    requires ValidDate(d)
  {
    BeforeYear(d.year) + BeforeMonth(d.year, d.month) + d.day - 1
  }

  function Min(a: int, b: int): int {
    if a < b then a else b
  }

  /** The year of day `n`, by 400-, 100-, 4- and 1-year cycles. */
  function YearOf(n: int): int {
    var in400 := n % 146097;
    var c100 := Min(in400 / 36524, 3);
    var in100 := in400 - 36524 * c100;
    var c4 := in100 / 1461;
    var in4 := in100 - 1461 * c4;
    400 * (n / 146097) + 100 * c100 + 4 * c4 + Min(in4 / 365, 3) + 1
  }

  function MonthFrom(y: int, yday: int, m: int): (r: int)
    requires 1 <= m <= 12 && BeforeMonth(y, m) <= yday < BeforeMonth(y, 13)
    ensures m <= r <= 12 && BeforeMonth(y, r) <= yday < BeforeMonth(y, r + 1)
    decreases 12 - m
  {
    if m == 12 || yday < BeforeMonth(y, m + 1) then m else MonthFrom(y, yday, m + 1)
  }

  function DateOf(n: int): (d: Date)
    ensures ValidDate(d) && DayNumber(d) == n
  {
    var y := YearOf(n);
    YearOfBrackets(n);
    YearLength(y);
    var yday := n - BeforeYear(y);
    var m := MonthFrom(y, yday, 1);
    Date(y, m, yday - BeforeMonth(y, m) + 1)
  }

  /** Sunday is 0. */
  function Weekday(n: int): int {
    (n + 1) % 7
  }

  lemma YearOfBrackets(n: int)
    ensures BeforeYear(YearOf(n)) <= n < BeforeYear(YearOf(n) + 1)
  {
    hide BeforeYear, Leap;
    var in400 := n % 146097;
    var c100 := Min(in400 / 36524, 3);
    var in100 := in400 - 36524 * c100;
    var c4 := in100 / 1461;
    var in4 := in100 - 1461 * c4;
    var c1 := Min(in4 / 365, 3);
    CycleParts(in400);
    YearSpan(n / 146097, c100, c4, c1);
  }

  /** The first day of a year and of the next, from the year's place in the cycles. */
  lemma YearSpan(c400: int, c100: int, c4: int, c1: int)
    requires 0 <= c100 <= 3 && 0 <= c4 <= 24 && 0 <= c1 <= 3
    ensures var y := 400 * c400 + 100 * c100 + 4 * c4 + c1 + 1;
            var start := 146097 * c400 + 36524 * c100 + 1461 * c4 + 365 * c1;
            && BeforeYear(y) == start
            && BeforeYear(y + 1) == start + (if c1 == 3 && (c4 != 24 || c100 == 3) then 366 else 365)
  {
    YearStart(c400, c100, c4, c1);
    YearLeaps(c400, c100, c4, c1);
    YearLength(400 * c400 + 100 * c100 + 4 * c4 + c1 + 1);
  }

  /** Where a day falls inside its 400-year cycle. */
  lemma CycleParts(in400: int)
    requires 0 <= in400 < 146097
    ensures var c100 := Min(in400 / 36524, 3);
            var in100 := in400 - 36524 * c100;
            var c4 := in100 / 1461;
            var in4 := in100 - 1461 * c4;
            && 0 <= c100 <= 3 && 0 <= c4 <= 24 && 0 <= in4
            && in4 < (if c4 == 24 && c100 != 3 then 1460 else 1461)
  {
  }

  lemma YearStart(c400: int, c100: int, c4: int, c1: int)
    requires 0 <= c100 <= 3 && 0 <= c4 <= 24 && 0 <= c1 <= 3
    ensures BeforeYear(400 * c400 + 100 * c100 + 4 * c4 + c1 + 1)
         == 146097 * c400 + 36524 * c100 + 1461 * c4 + 365 * c1
  {
    var z := 400 * c400 + 100 * c100 + 4 * c4 + c1;
    Quotient4(z, 100 * c400 + 25 * c100 + c4, c1);
    Quotient100(z, 4 * c400 + c100, 4 * c4 + c1);
    Quotient400(z, c400, 100 * c100 + 4 * c4 + c1);
  }

  lemma YearLeaps(c400: int, c100: int, c4: int, c1: int)
    requires 0 <= c100 <= 3 && 0 <= c4 <= 24 && 0 <= c1 <= 3
    ensures Leap(400 * c400 + 100 * c100 + 4 * c4 + c1 + 1) <==> c1 == 3 && (c4 != 24 || c100 == 3)
  {
    var y := 400 * c400 + 100 * c100 + 4 * c4 + c1 + 1;
    if c1 < 3 {
      Quotient4(y, 100 * c400 + 25 * c100 + c4, c1 + 1);
    } else {
      Quotient4(y, 100 * c400 + 25 * c100 + c4 + 1, 0);
      if c4 < 24 {
        Quotient100(y, 4 * c400 + c100, 4 * c4 + 4);
      } else {
        Quotient100(y, 4 * c400 + c100 + 1, 0);
        if c100 < 3 {
          Quotient400(y, c400, 100 * c100 + 100);
        } else {
          Quotient400(y, c400 + 1, 0);
        }
      }
    }
  }

  lemma Quotient4(z: int, q: int, r: int)
    requires z == 4 * q + r && 0 <= r < 4
    ensures z / 4 == q && z % 4 == r
  {
  }

  lemma Quotient100(z: int, q: int, r: int)
    requires z == 100 * q + r && 0 <= r < 100
    ensures z / 100 == q && z % 100 == r
  {
  }

  lemma Quotient400(z: int, q: int, r: int)
    requires z == 400 * q + r && 0 <= r < 400
    ensures z / 400 == q && z % 400 == r
  {
  }

  lemma {:induction false} YearsOrdered(y: int, z: int)
    requires y <= z
    ensures 365 * (z - y) <= BeforeYear(z) - BeforeYear(y) <= 366 * (z - y)
    decreases z - y
  {
    if y < z {
      YearsOrdered(y + 1, z);
      YearLength(y);
    }
  }

  lemma MonthsOrdered(y: int, m: int, k: int)
    requires 1 <= m <= k <= 13
    ensures BeforeMonth(y, m) <= BeforeMonth(y, k)
    ensures m < k ==> BeforeMonth(y, m) + 28 <= BeforeMonth(y, k)
  {
  }

  /** Every valid date is the date of exactly one day. */
  lemma DateRoundTrip(d: Date)
    requires ValidDate(d)
    ensures DateOf(DayNumber(d)) == d
  {
    SameDayNumber(d, DateOf(DayNumber(d)));
  }

  lemma SameDayNumber(d: Date, e: Date)
    requires ValidDate(d) && ValidDate(e) && DayNumber(d) == DayNumber(e)
    ensures d == e
  {
    if d.year < e.year { EarlierYear(d, e); }
    if e.year < d.year { EarlierYear(e, d); }
    if d.year == e.year {
      if d.month < e.month { WithinMonth(d, e); }
      if e.month < d.month { WithinMonth(e, d); }
    }
  }

  lemma EarlierYear(d: Date, e: Date)
    requires ValidDate(d) && ValidDate(e) && d.year < e.year
    ensures DayNumber(d) < DayNumber(e)
  {
    WithinYear(d);
    WithinYear(e);
    YearsOrdered(d.year + 1, e.year);
  }

  lemma WithinMonth(d: Date, e: Date)
    requires ValidDate(d) && ValidDate(e) && d.year == e.year && d.month < e.month
    ensures DayNumber(d) < DayNumber(e)
  {
  }

  lemma WithinYear(d: Date)
    requires ValidDate(d)
    ensures BeforeYear(d.year) <= DayNumber(d) < BeforeYear(d.year + 1)
  {
    YearLength(d.year);
    MonthsOrdered(d.year, d.month + 1, 13);
    MonthsOrdered(d.year, 1, d.month);
  }

  /** Next to a fourth year that is no leap year, the fourth years on both sides are. */
  lemma AroundCentury(z: int)
    requires z % 4 == 0 && !Leap(z)
    ensures Leap(z + 4) && Leap(z - 4)
  {
    Quotient4(z + 4, z / 4 + 1, 0);
    Quotient4(z - 4, z / 4 - 1, 0);
    Quotient100(z + 4, z / 100, 4);
    Quotient100(z - 4, z / 100 - 1, 96);
  }

  lemma FourthYears(y: int)
    ensures (y + 4 - y % 4) % 4 == 0 && (y - y % 4) % 4 == 0
  {
    Quotient4(y + 4 - y % 4, y / 4 + 1, 0);
    Quotient4(y - y % 4, y / 4, 0);
  }

  /** Leap years are at most eight years apart, the turn of a non-leap century included. */
  function LeapAfter(y: int): (z: int)
    ensures y < z <= y + 8 && Leap(z)
  {
    FourthYears(y);
    var next := y + 4 - y % 4;
    if Leap(next) then next else AroundCentury(next); next + 4
  }

  function LeapBefore(y: int): (z: int)
    ensures y - 8 <= z < y && Leap(z)
  {
    FourthYears(y - 1);
    var previous := (y - 1) - (y - 1) % 4;
    if Leap(previous) then previous else AroundCentury(previous); previous - 4
  }

  /** The day after a date, by the rules of the calendar alone. */
  function DayAfter(d: Date): Date
    requires ValidDate(d)
  {
    if d.day < MonthLength(d.year, d.month) then Date(d.year, d.month, d.day + 1)
    else if d.month < 12 then Date(d.year, d.month + 1, 1)
    else Date(d.year + 1, 1, 1)
  }

  /** Thirty days have September, April, June and November. */
  function MonthLength(y: int, m: int): int {
    if m == 2 then (if Leap(y) then 29 else 28) else if m in {4, 6, 9, 11} then 30 else 31
  }

  lemma MonthLengthIs(y: int, m: int)
    requires 1 <= m <= 12
    ensures BeforeMonth(y, m + 1) - BeforeMonth(y, m) == MonthLength(y, m)
  {
  }

  lemma DayAfterNumber(d: Date)
    requires ValidDate(d)
    ensures ValidDate(DayAfter(d)) && DayNumber(DayAfter(d)) == DayNumber(d) + 1
  {
    hide BeforeYear, MonthLength, Leap;
    MonthLengthIs(d.year, d.month);
    FirstOfMonths(d.year);
    FirstOfMonths(d.year + 1);
    YearLength(d.year);
    if d.month < 12 {
      MonthsOrdered(d.year, d.month + 1, d.month + 2);
    }
  }

  lemma FirstOfMonths(y: int)
    ensures BeforeMonth(y, 1) == 0 && BeforeMonth(y, 2) == 31 && BeforeMonth(y, 13) == if Leap(y) then 366 else 365
  {
  }

  /** Counting on by one day moves the date and the weekday on by one. Together with one known day, a Friday,
      this fixes the whole calendar. */
  lemma CalendarSteps(n: int)
    ensures DateOf(n + 1) == DayAfter(DateOf(n)) && Weekday(n + 1) == (Weekday(n) + 1) % 7
    ensures ValidDate(Date(2026, 3, 13)) && Weekday(DayNumber(Date(2026, 3, 13))) == 5
  {
    hide DateOf, DayNumber, DayAfter, ValidDate;
    DayAfterNumber(DateOf(n));
    DateRoundTrip(DayAfter(DateOf(n)));
    KnownDay();
    WeekdaySteps(n);
  }

  lemma KnownDay()
    ensures ValidDate(Date(2026, 3, 13)) && Weekday(DayNumber(Date(2026, 3, 13))) == 5
  {
  }

  lemma WeekdaySteps(n: int)
    ensures Weekday(n + 1) == (Weekday(n) + 1) % 7
  {
  }
}
