/** Cron expressions over UTC time: which minutes match, and the minute-by-minute scan for the next
    and the previous match.

    An instant is an int number of nanoseconds, a minute an int number of minutes, both counted from
    the start of year 1. */
module CronScan {
  import opened Strings
  import opened Calendar

  datatype Field = Field(values: seq<bool>, any: bool, min: int, max: int)

  datatype Expression = Expression(minute: Field, hour: Field, dom: Field, month: Field, dow: Field)

  /** A field over `min..max` that marks at least one value and knows whether it marks all. */
  ghost predicate FieldOver(f: Field, min: int, max: int) {
    && f.min == min && f.max == max && |f.values| == max - min + 1
    && (f.any <==> forall v :: 0 <= v < |f.values| ==> f.values[v])
    && true in f.values
  }

  /** What parsing yields. */
  ghost predicate Parsed(e: Expression) {
    FieldOver(e.minute, 0, 59) && FieldOver(e.hour, 0, 23) && FieldOver(e.dom, 1, 31)
    && FieldOver(e.month, 1, 12) && FieldOver(e.dow, 0, 6)
  }

  predicate Contains(f: Field, v: int)
    requires |f.values| == f.max - f.min + 1
  {
    f.min <= v <= f.max && f.values[v - f.min]
  }

  /** The crontab day rule: a restricted day-of-month and a restricted day-of-week are alternatives. */
  predicate DayRule(domAny: bool, dowAny: bool, domMatch: bool, dowMatch: bool) {
    if domAny && dowAny then true
    else if domAny then dowMatch
    else if dowAny then domMatch
    else domMatch || dowMatch
  }

  predicate DayMatches(e: Expression, n: int)
    requires Parsed(e)
  {
    var date := DateOf(n);
    && Contains(e.month, date.month)
    && DayRule(e.dom.any, e.dow.any, Contains(e.dom, date.day), Contains(e.dow, Weekday(n)))
  }

  predicate Matches(e: Expression, m: int)
    requires Parsed(e)
  {
    DayMatches(e, m / 1440) && Contains(e.hour, m % 1440 / 60) && Contains(e.minute, m % 60)
  }

  // ---------------------------------------------------------------- what a match means

  /** The minute of a date and time of day. */
  function MinuteOf(d: Date, h: int, m: int): int
    requires ValidDate(d)
  {
    1440 * DayNumber(d) + 60 * h + m
  }

  /** The crontab rule, field by field: month, hour and minute are marked, and so is the day; where both day
      fields leave something out one of them is enough, otherwise both must mark it. */
  lemma MatchesMeans(e: Expression, d: Date, h: int, m: int)
    requires Parsed(e) && ValidDate(d) && 0 <= h < 24 && 0 <= m < 60
    ensures 1 <= d.day <= 31 && 0 <= Weekday(DayNumber(d)) <= 6
    ensures var dom, dow := e.dom.values[d.day - 1], e.dow.values[Weekday(DayNumber(d))];
            Matches(e, MinuteOf(d, h, m))
            <==> && e.month.values[d.month - 1] && e.hour.values[h] && e.minute.values[m]
                 && (if false in e.dom.values && false in e.dow.values then dom || dow else dom && dow)
  {
    hide DateOf, DayNumber, BeforeYear;
    DateRoundTrip(d);
    TimeOfDay(DayNumber(d), h, m);
    DayInMonth(d);
    SomeLeftOut(e.dom, 1, 31);
    SomeLeftOut(e.dow, 0, 6);
  }

  lemma DayInMonth(d: Date)
    requires ValidDate(d)
    ensures 1 <= d.month <= 12 && 1 <= d.day <= 31
  {
  }

  lemma SomeLeftOut(f: Field, min: int, max: int)
    requires FieldOver(f, min, max)
    ensures f.any <==> false !in f.values
    ensures f.any ==> forall i :: 0 <= i < |f.values| ==> f.values[i]
  {
  }

  /** The field with every value marked. */
  function Opened(f: Field): Field {
    f.(values := seq(|f.values|, i => true), any := true)
  }

  /** So an expression that restricts both day fields matches whenever it does with one of them opened. */
  lemma EitherDayField(e: Expression, d: Date, h: int, m: int)
    requires Parsed(e) && ValidDate(d) && 0 <= h < 24 && 0 <= m < 60 && false in e.dom.values && false in e.dow.values
    ensures Parsed(e.(dow := Opened(e.dow))) && Parsed(e.(dom := Opened(e.dom)))
    ensures Matches(e, MinuteOf(d, h, m))
       <==> Matches(e.(dow := Opened(e.dow)), MinuteOf(d, h, m)) || Matches(e.(dom := Opened(e.dom)), MinuteOf(d, h, m))
  {
    hide Matches, DayNumber, ValidDate, Weekday, MinuteOf;
    OpenedOver(e.dom, 1, 31);
    OpenedOver(e.dow, 0, 6);
    MatchesMeans(e, d, h, m);
    MatchesMeans(e.(dow := Opened(e.dow)), d, h, m);
    MatchesMeans(e.(dom := Opened(e.dom)), d, h, m);
  }

  lemma OpenedOver(f: Field, min: int, max: int)
    requires FieldOver(f, min, max)
    ensures FieldOver(Opened(f), min, max) && false !in Opened(f).values && |Opened(f).values| == |f.values|
    ensures forall i :: 0 <= i < |f.values| ==> Opened(f).values[i]
  {
    assert Opened(f).values[0];
  }

  // ---------------------------------------------------------------- the scan bound suffices

  const SCAN_DAYS := 3660
  const MAX_STEPS := SCAN_DAYS * 24 * 60

  lemma ValidInLeapYear(d: Date, y: int)
    requires ValidDate(d) && Leap(y)
    ensures ValidDate(Date(y, d.month, d.day))
  {
  }

  lemma DayMatchesOn(e: Expression, d: Date)
    requires Parsed(e) && ValidDate(d) && Contains(e.month, d.month)
    requires DayRule(e.dom.any, e.dow.any, Contains(e.dom, d.day), Contains(e.dow, Weekday(DayNumber(d))))
    ensures DayMatches(e, DayNumber(d))
  {
    hide DateOf, DayNumber, ValidDate;
    DateRoundTrip(d);
  }

  /** An expression that matches one day matches a day in every leap year. */
  lemma DayInLeapYear(e: Expression, n: int, y: int) returns (k: int)
    requires Parsed(e) && DayMatches(e, n) && Leap(y)
    ensures BeforeYear(y) <= k < BeforeYear(y + 1) && DayMatches(e, k)
  {
    hide DateOf, BeforeYear, BeforeMonth, Weekday, Leap;
    var d := DateOf(n);
    ValidInLeapYear(d, y);
    var chosen := Date(y, d.month, d.day);
    if !DayRule(e.dom.any, e.dow.any, Contains(e.dom, d.day), false) {
      var first := Date(y, d.month, 1);
      FirstWeek(y, d.month, 1);
      var offset := (Weekday(n) - Weekday(DayNumber(first))) % 7;
      FirstWeek(y, d.month, 1 + offset);
      chosen := Date(y, d.month, 1 + offset);
      WeekdayShift(DayNumber(first), n);
    }
    DayMatchesOn(e, chosen);
    WithinYear(chosen);
    k := DayNumber(chosen);
  }

  lemma FirstWeek(y: int, m: int, d: int)
    requires 1 <= m <= 12 && 1 <= d <= 7
    ensures ValidDate(Date(y, m, d)) && ValidDate(Date(y, m, 1))
    ensures DayNumber(Date(y, m, d)) == DayNumber(Date(y, m, 1)) + d - 1
  {
  }

  lemma WeekdayShift(first: int, n: int)
    ensures Weekday(first + (Weekday(n) - Weekday(first)) % 7) == Weekday(n)
  {
  }

  lemma DayAfter(e: Expression, n: int, start: int) returns (k: int)
    requires Parsed(e) && DayMatches(e, n)
    ensures start < k < start + SCAN_DAYS && DayMatches(e, k)
  {
    hide DayMatches, DateOf, BeforeMonth;
    var y := DateOf(start).year;
    WithinYear(DateOf(start));
    k := DayInLeapYear(e, n, LeapAfter(y));
    YearsOrdered(y + 1, LeapAfter(y));
    YearsOrdered(y, LeapAfter(y) + 1);
  }

  lemma DayBefore(e: Expression, n: int, start: int) returns (k: int)
    requires Parsed(e) && DayMatches(e, n)
    ensures start - SCAN_DAYS < k < start && DayMatches(e, k)
  {
    hide DayMatches, DateOf, BeforeMonth;
    var y := DateOf(start).year;
    WithinYear(DateOf(start));
    k := DayInLeapYear(e, n, LeapBefore(y));
    YearsOrdered(LeapBefore(y) + 1, y);
    YearsOrdered(LeapBefore(y), y + 1);
  }

  lemma MinuteParts(k: int, m: int)
    ensures var x := 1440 * k + m % 1440; x / 1440 == k && x % 1440 == m % 1440 && x % 60 == m % 60
  {
  }

  lemma OnDay(e: Expression, m: int, k: int)
    requires Parsed(e) && Matches(e, m) && DayMatches(e, k)
    ensures Matches(e, 1440 * k + m % 1440)
  {
    hide DayMatches;
    MinuteParts(k, m);
  }

  /** If any minute at all matches, then one matches within the scan bound of any start, forwards and
      backwards: 29 February recurs within eight years even across a century that skips it. */
  lemma BoundSuffices(e: Expression, m: int, start: int)
    requires Parsed(e) && Matches(e, m)
    ensures exists x :: start <= x < start + MAX_STEPS && Matches(e, x)
    ensures exists x :: start - MAX_STEPS < x <= start && Matches(e, x)
  {
    hide DayMatches;
    var after := DayAfter(e, m / 1440, start / 1440);
    OnDay(e, m, after);
    var before := DayBefore(e, m / 1440, start / 1440);
    OnDay(e, m, before);
    assert Matches(e, 1440 * after + m % 1440) && Matches(e, 1440 * before + m % 1440);
  }

  // ---------------------------------------------------------------- Next and Prev

  const MINUTE := 60_000_000_000

  ghost predicate Never(e: Expression)
    requires Parsed(e)
  {
    forall m :: !Matches(e, m)
  }

  /** `r` is the least matching minute strictly after the instant, or there is no match anywhere. */
  ghost predicate IsNext(e: Expression, after: int, r: Option<int>)
    requires Parsed(e)
  {
    match r
    case None => Never(e)
    case Some(m) => after < m * 60_000_000_000 && Matches(e, m) && forall x :: after < x * 60_000_000_000 && x < m ==> !Matches(e, x)
  }

  /** `r` is the greatest matching minute at or before the instant, or there is no match anywhere. */
  ghost predicate IsPrev(e: Expression, at: int, r: Option<int>)
    requires Parsed(e)
  {
    match r
    case None => Never(e)
    case Some(m) => m * 60_000_000_000 <= at && Matches(e, m) && forall x :: x * 60_000_000_000 <= at && m < x ==> !Matches(e, x)
  }

  method Scan(e: Expression, start: int, maxSteps: nat, forwards: bool) returns (r: Option<int>)
    requires Parsed(e)
    ensures r.Some? ==> Matches(e, r.value)
    ensures r.Some? && forwards ==> start <= r.value < start + maxSteps && forall x :: start <= x < r.value ==> !Matches(e, x)
    ensures r.Some? && !forwards ==> start - maxSteps < r.value <= start && forall x :: r.value < x <= start ==> !Matches(e, x)
    ensures r.None? && forwards ==> forall x :: start <= x < start + maxSteps ==> !Matches(e, x)
    ensures r.None? && !forwards ==> forall x :: start - maxSteps < x <= start ==> !Matches(e, x)
  {
    hide Matches;
    var current := start;
    var step := if forwards then 1 else -1;
    for i := 0 to maxSteps
      invariant current == if forwards then start + i else start - i
      invariant forwards ==> forall x :: start <= x < current ==> !Matches(e, x)
      invariant !forwards ==> forall x :: current < x <= start ==> !Matches(e, x)
    {
      if Matches(e, current) {
        return Some(current);
      }
      current := current + step;
    }
    return None;
  }

  method Next(e: Expression, after: int) returns (r: Option<int>)
    requires Parsed(e)
    ensures IsNext(e, after, r)
  {
    var start := after / MINUTE + 1;
    r := Scan(e, start, MAX_STEPS, true);
    if r.None? {
      forall m ensures !Matches(e, m) {
        if Matches(e, m) { BoundSuffices(e, m, start); }
      }
    }
  }

  method Prev(e: Expression, atOrBefore: int) returns (r: Option<int>)
    requires Parsed(e)
    ensures IsPrev(e, atOrBefore, r)
  {
    var start := atOrBefore / MINUTE;
    r := Scan(e, start, MAX_STEPS, false);
    if r.None? {
      forall m ensures !Matches(e, m) {
        if Matches(e, m) { BoundSuffices(e, m, start); }
      }
    }
  }

  /** Some date has a marked month and a marked day of month; year 4 is a leap year. */
  ghost predicate SomeDate(e: Expression)
    requires Parsed(e)
  {
    exists m, d :: Contains(e.month, m) && Contains(e.dom, d) && ValidDate(Date(4, m, d))
  }

  /** Exactly which expressions never match: those that are restricted to days of the month alone,
      all of them days that the marked months do not have. */
  lemma NeverIff(e: Expression)
    requires Parsed(e)
    ensures Never(e) <==> e.dow.any && !e.dom.any && !SomeDate(e)
  {
    hide DayMatches, DayNumber, ValidDate, Weekday;
    if e.dow.any && !e.dom.any && !SomeDate(e) {
      forall m ensures !Matches(e, m) {
        NoSuchDay(e, m / 1440);
      }
    } else {
      var d := ChosenDate(e);
      DayMatchesOn(e, d);
      var h := Marked(e.hour);
      var min := Marked(e.minute);
      TimeOfDay(DayNumber(d), h, min);
      assert Matches(e, 1440 * DayNumber(d) + 60 * h + min);
    }
  }

  lemma NoSuchDay(e: Expression, n: int)
    requires Parsed(e) && e.dow.any && !e.dom.any && !SomeDate(e)
    ensures !DayMatches(e, n)
  {
    hide DateOf;
    ValidInLeapYear(DateOf(n), 4);
  }

  lemma Marked(f: Field) returns (v: int)
    requires |f.values| == f.max - f.min + 1 && true in f.values
    ensures f.min <= v <= f.max && Contains(f, v)
  {
    var i :| 0 <= i < |f.values| && f.values[i];
    v := f.min + i;
  }

  lemma ChosenDate(e: Expression) returns (d: Date)
    requires Parsed(e) && (!e.dow.any || e.dom.any || SomeDate(e))
    ensures ValidDate(d) && Contains(e.month, d.month)
    ensures DayRule(e.dom.any, e.dow.any, Contains(e.dom, d.day), Contains(e.dow, Weekday(DayNumber(d))))
  {
    if e.dow.any && !e.dom.any {
      var m, day :| Contains(e.month, m) && Contains(e.dom, day) && ValidDate(Date(4, m, day));
      d := Date(4, m, day);
    } else {
      hide BeforeYear, BeforeMonth, Weekday, Leap;
      var m := Marked(e.month);
      var w := Marked(e.dow);
      FirstWeek(4, m, 1);
      var first := DayNumber(Date(4, m, 1));
      WeekdayShift(first, w + 6);
      WeekdayOf(w);
      var offset := (Weekday(w + 6) - Weekday(first)) % 7;
      FirstWeek(4, m, 1 + offset);
      d := Date(4, m, 1 + offset);
    }
  }

  lemma WeekdayOf(w: int)
    requires 0 <= w <= 6
    ensures Weekday(w + 6) == w
  {
  }

  lemma TimeOfDay(k: int, h: int, min: int)
    requires 0 <= h < 24 && 0 <= min < 60
    ensures var x := 1440 * k + 60 * h + min; x / 1440 == k && x % 1440 / 60 == h && x % 60 == min
  {
    var x := 1440 * k + 60 * h + min;
    assert x - min == 60 * (24 * k + h);
    MinuteParts(k, 60 * h + min);
  }

  /** IsNext and IsPrev leave no choice. */
  lemma ResultsUnique(e: Expression, t: int, r: Option<int>, q: Option<int>)
    requires Parsed(e)
    ensures IsNext(e, t, r) && IsNext(e, t, q) ==> r == q
    ensures IsPrev(e, t, r) && IsPrev(e, t, q) ==> r == q
  {
  }
}
