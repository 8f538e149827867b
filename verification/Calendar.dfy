/** Python's `datetime.date`: the proleptic Gregorian calendar from year 1 to year 9999. */
module Calendar {
  import opened Wrappers

  datatype Date = Date(year: int, month: int, day: int)

  predicate Leap(year: int) { year % 4 == 0 && (year % 100 != 0 || year % 400 == 0) }

  /** `calendar.monthrange(year, month)[1]`. */
  function DaysIn(year: int, month: int): (n: int)
    ensures 28 <= n <= 31
  {
    if month == 2 then if Leap(year) then 29 else 28
    else if month == 4 || month == 6 || month == 9 || month == 11 then 30
    else 31
  }

  predicate Valid(d: Date) {
    1 <= d.year <= 9999 && 1 <= d.month <= 12 && 1 <= d.day <= DaysIn(d.year, d.month)
  }

  /** Dates in order as numbers. */
  function Rank(d: Date): int { d.year * 372 + d.month * 31 + d.day }

  predicate AtMost(a: Date, b: Date) { Rank(a) <= Rank(b) }

  lemma RankInjective(a: Date, b: Date)
    requires Valid(a) && Valid(b) && Rank(a) == Rank(b)
    ensures a == b
  {
  }

  /** `d + timedelta(days=1)`, which overflows after the last day there is. */
  function NextDay(d: Date): (r: Option<Date>)
    requires Valid(d)
    ensures r.Some? ==> Valid(r.value) && Rank(d) < Rank(r.value)
    ensures r.None? <==> d == Date(9999, 12, 31)
  {
    if d.day < DaysIn(d.year, d.month) then Some(d.(day := d.day + 1))
    else if d.month < 12 then Some(Date(d.year, d.month + 1, 1))
    else if d.year < 9999 then Some(Date(d.year + 1, 1, 1))
    else None
  }

  /** The order of the numbers is the order by year, month and day. */
  lemma RankOrder(a: Date, b: Date)
    requires Valid(a) && Valid(b)
    ensures Rank(a) < Rank(b) <==>
      a.year < b.year || (a.year == b.year && (a.month < b.month || (a.month == b.month && a.day < b.day)))
  {
    if a.year < b.year { assert 372 * (a.year + 1) <= 372 * b.year; }
    if b.year < a.year { assert 372 * (b.year + 1) <= 372 * a.year; }
  }

  /** No day lies between a day and the next. */
  lemma NextIsNext(d: Date, e: Date)
    requires Valid(d) && Valid(e) && Rank(d) < Rank(e)
    ensures NextDay(d).Some? && Rank(NextDay(d).value) <= Rank(e)
  {
    hide Rank;
    RankOrder(d, e);
    var next := NextDay(d);
    assert next.Some?;
    RankOrder(e, next.value);
  }

  // ------------------------------------------------------------------------ day numbers

  /** The days before each month of a common year. */
  const CUMULATIVE: seq<int> := [0, 31, 59, 90, 120, 151, 181, 212, 243, 273, 304, 334]

  /** The leap days of the years up to `year`. */
  function LeapDays(year: int): int { year / 4 - year / 100 + year / 400 }

  /** The days counted from 1 January of year 1. */
  function DayNumber(d: Date): int
    requires 1 <= d.month <= 12
  {
    365 * (d.year - 1) + LeapDays(d.year - 1) + CUMULATIVE[d.month - 1] + d.day
    + if d.month > 2 then LeapDays(d.year) - LeapDays(d.year - 1) else 0
  }

  lemma OneMoreQuarter(n: int)
    ensures n / 4 - (n - 1) / 4 == if n % 4 == 0 then 1 else 0
  {
  }

  lemma OneMoreCentury(n: int)
    ensures n / 100 - (n - 1) / 100 == if n % 100 == 0 then 1 else 0
  {
  }

  lemma OneMoreCycle(n: int)
    ensures n / 400 - (n - 1) / 400 == if n % 400 == 0 then 1 else 0
  {
  }

  lemma Multiples(n: int)
    ensures n % 100 == 0 ==> n % 4 == 0
    ensures n % 400 == 0 ==> n % 100 == 0
  {
    if n % 100 == 0 { TimesFour(25 * (n / 100)); }
    if n % 400 == 0 { TimesHundred(4 * (n / 400)); }
  }

  lemma TimesFour(q: int)
    ensures (4 * q) % 4 == 0
  {
  }

  lemma TimesHundred(q: int)
    ensures (100 * q) % 100 == 0
  {
  }

  lemma LeapDayAdded(year: int)
    ensures LeapDays(year) - LeapDays(year - 1) == if Leap(year) then 1 else 0
  {
    OneMoreQuarter(year);
    OneMoreCentury(year);
    OneMoreCycle(year);
    Multiples(year);
  }

  /** The first day of the month after. */
  function NextMonth(year: int, month: int): Date {
    if month == 12 then Date(year + 1, 1, 1) else Date(year, month + 1, 1)
  }

  /** The last day of a month: the one before the first of the next. */
  lemma MonthEnds(year: int, month: int)
    requires 1 <= month <= 12
    ensures DayNumber(Date(year, month, DaysIn(year, month))) + 1 == DayNumber(NextMonth(year, month))
  {
    hide LeapDays, Leap;
    LeapDayAdded(year);
  }

  /** The next day is numbered next: this fixes the length of every month of every year. */
  lemma NextDayAddsOne(d: Date)
    requires Valid(d) && NextDay(d).Some?
    ensures DayNumber(NextDay(d).value) == DayNumber(d) + 1
  {
    if d.day == DaysIn(d.year, d.month) { MonthEnds(d.year, d.month); }
  }

  /** A year has 365 days, and 366 every fourth year but for three centuries of four. */
  lemma YearLength(year: int)
    ensures DayNumber(Date(year + 1, 1, 1)) - DayNumber(Date(year, 1, 1))
            == if year % 400 == 0 || (year % 4 == 0 && year % 100 != 0) then 366 else 365
    ensures DayNumber(Date(1, 1, 1)) == 1
  {
    hide LeapDays;
    LeapDayAdded(year);
    Multiples(year);
    BeforeAll();
  }

  lemma BeforeAll()
    ensures LeapDays(0) == 0
  {
  }

  /** Later days have larger numbers, so dates are ordered as days are counted. */
  lemma NumbersInOrder(a: Date, b: Date)
    requires Valid(a) && Valid(b)
    ensures AtMost(a, b) <==> DayNumber(a) <= DayNumber(b)
    ensures a == b <==> DayNumber(a) == DayNumber(b)
  {
    if Rank(a) < Rank(b) {
      LaterNumber(a, b);
    } else if Rank(b) < Rank(a) {
      LaterNumber(b, a);
    } else {
      RankInjective(a, b);
    }
  }

  lemma {:induction false} LaterNumber(a: Date, b: Date)
    requires Valid(a) && Valid(b) && Rank(a) < Rank(b)
    ensures DayNumber(a) < DayNumber(b)
    decreases Rank(b) - Rank(a)
  {
    hide DayNumber;
    NextIsNext(a, b);
    NextDayAddsOne(a);
    var next := NextDay(a).value;
    if Rank(next) < Rank(b) { LaterNumber(next, b); } else { RankInjective(next, b); }
  }

  /** The numbers of the first and of the last day, `date.min.toordinal()` and `date.max.toordinal()`. */
  const FIRST := 1
  const LAST := 3652059

  /** The days are numbered without a gap, and there are no others. */
  lemma {:induction false} DayNumbered(n: int) returns (d: Date)
    requires FIRST <= n <= LAST
    ensures Valid(d) && DayNumber(d) == n
    decreases n
  {
    if n == FIRST {
      d := Date(1, 1, 1);
    } else {
      var before := DayNumbered(n - 1);
      NextDayAddsOne(before);
      d := NextDay(before).value;
    }
  }

  lemma NumbersInRange(d: Date)
    requires Valid(d)
    ensures FIRST <= DayNumber(d) <= LAST
  {
    NumbersInOrder(Date(1, 1, 1), d);
    NumbersInOrder(d, Date(9999, 12, 31));
  }
}
