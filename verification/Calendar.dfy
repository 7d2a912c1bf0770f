/** The proleptic Gregorian calendar and the ISO week, as the period keys of the retention
    policy use them. Instants are nanoseconds since Go's zero time, 0001-01-01T00:00:00Z, which
    was a Monday; days, weeks and months before it are negative. */
module Calendar {
  import opened Decimal

  const NANOS_PER_DAY: int := 86_400_000_000_000

  function Day(t: int): int { t / NANOS_PER_DAY }

  /** The instant at which day d begins. */
  function Midnight(d: int): int { d * 24 * 60 * 60 * 1_000_000_000 }

  lemma BeforeMidnight(t: int, d: int)
    ensures t < Midnight(d) <==> Day(t) < d
  {
  }

  /** One of the periods that begin at f(i) begins after t and no later than u. */
  ghost predicate BeginsBetween(f: int -> int, t: int, u: int) { exists i :: t < f(i) <= u }

  // ------------------------------------------------------------------ years

  predicate Leap(y: int) { y % 4 == 0 && (y % 100 != 0 || y % 400 == 0) }

  function YearLength(y: int): int { if Leap(y) then 366 else 365 }

  /** Days from the start of year 1 to the start of year y. */
  function YearStart(y: int): int {
    var n := y - 1;
    365 * n + n / 4 - n / 100 + n / 400
  }

  lemma MultiplesStep(y: int, k: int)
    requires k == 4 || k == 100 || k == 400
    ensures y / k - (y - 1) / k == if y % k == 0 then 1 else 0
  {
  }

  lemma YearStartStep(y: int)
    ensures YearStart(y + 1) == YearStart(y) + YearLength(y)
  {
    MultiplesStep(y, 4);
    MultiplesStep(y, 100);
    MultiplesStep(y, 400);
    FourCenturiesAreCenturies(y);
    CenturiesAreDivisible(y);
    var n := y - 1;
    assert YearStart(y) == 365 * n + n / 4 - n / 100 + n / 400;
    assert YearStart(y + 1) == 365 * y + y / 4 - y / 100 + y / 400;
  }

  lemma FourCenturiesAreCenturies(y: int)
    ensures y % 400 == 0 ==> y % 100 == 0
  {
    var p := 4 * (y / 400);
    assert y % 400 == 0 ==> y == 100 * p;
  }

  lemma CenturiesAreDivisible(y: int)
    ensures y % 100 == 0 ==> y % 4 == 0
  {
    var p := 25 * (y / 100);
    assert y % 100 == 0 ==> y == 4 * p;
  }

  lemma {:induction false} YearStartMonotone(y: int, z: int)
    requires y <= z
    ensures YearStart(y) + 365 * (z - y) <= YearStart(z)
    decreases z - y
  {
    if y < z {
      YearStartStep(z - 1);
      YearStartMonotone(y, z - 1);
    }
  }

  /** The year a day falls in: 400 years are 146097 days, and the estimate is off by at most one. */
  function YearOf(d: int): (y: int)
    ensures YearStart(y) <= d < YearStart(y + 1)
  {
    var guess := 400 * d / 146097 + 1;
    if d < YearStart(guess) then guess - 1
    else if YearStart(guess + 1) <= d then guess + 1
    else guess
  }

  /** The year of a day is the only one whose days include it. */
  lemma YearIsTheOnlyOne(d: int, y: int)
    ensures YearStart(y) <= d < YearStart(y + 1) <==> y == YearOf(d)
  {
    var z := YearOf(d);
    if y < z { YearStartMonotone(y + 1, z); }
    if z < y { YearStartMonotone(z + 1, y); }
  }

  // ----------------------------------------------------------------- months

  /** Days before month m (1 to 12, and 13 for the whole year). */
  function MonthStart(m: int, leap: bool): int
    requires 1 <= m <= 13
  {
    var extra := if leap && m > 2 then 1 else 0;
    extra + [0, 31, 59, 90, 120, 151, 181, 212, 243, 273, 304, 334, 365][m - 1]
  }

  function MonthFrom(m: int, n: int, leap: bool): (r: int)
    requires 1 <= m <= 12 && MonthStart(m, leap) <= n < MonthStart(13, leap)
    ensures m <= r <= 12 && MonthStart(r, leap) <= n < MonthStart(r + 1, leap)
    decreases 12 - m
  {
    if n < MonthStart(m + 1, leap) then m else MonthFrom(m + 1, n, leap)
  }

  function DayOfYear(d: int): (n: int)
    ensures 0 <= n < YearLength(YearOf(d))
  {
    YearStartStep(YearOf(d));
    d - YearStart(YearOf(d))
  }

  function MonthOf(d: int): (m: int)
    ensures 1 <= m <= 12
    ensures MonthStart(m, Leap(YearOf(d))) <= DayOfYear(d) < MonthStart(m + 1, Leap(YearOf(d)))
  {
    MonthFrom(1, DayOfYear(d), Leap(YearOf(d)))
  }

  function DayOfMonth(d: int): (k: int)
    ensures 1 <= k <= 31
  {
    DayOfYear(d) - MonthStart(MonthOf(d), Leap(YearOf(d))) + 1
  }

  /** Months counted from a fixed origin, so that periods have an order. */
  function MonthIndex(t: int): int { 12 * YearOf(Day(t)) + MonthOf(Day(t)) - 1 }

  lemma MonthMonotone(d: int, e: int)
    requires d <= e
    ensures YearOf(d) <= YearOf(e)
    ensures YearOf(d) == YearOf(e) ==> MonthOf(d) <= MonthOf(e)
  {
    var y, z := YearOf(d), YearOf(e);
    if z < y { YearStartMonotone(z + 1, y); }
    if y == z && MonthOf(e) < MonthOf(d) {
    }
  }

  // ------------------------------------------------- months, counted from their lengths

  /** The days of a month, as the Gregorian calendar has them: February has 29 in a year divisible by 4
      that is not a century, or is one divisible by 400. */
  function DaysIn(year: int, month: int): (n: int)
    ensures 28 <= n <= 31
  {
    if month == 2 then (if (year % 4 == 0 && year % 100 != 0) || year % 400 == 0 then 29 else 28)
    else if month in {4, 6, 9, 11} then 30
    else 31
  }

  /** The first instant of month i. */
  function MonthStarts(i: int): int { Midnight(MonthBegins(i)) }

  /** The first day of month i, the months being counted from January of year 0 and their days one month
      after the other from day 0, which begins January of year 1. */
  function MonthBegins(i: int): int
    decreases if i >= 12 then i - 12 else 12 - i
  {
    if i == 12 then 0
    else if i > 12 then MonthBegins(i - 1) + DaysIn((i - 1) / 12, (i - 1) % 12 + 1)
    else MonthBegins(i + 1) - DaysIn(i / 12, i % 12 + 1)
  }

  lemma MonthLengths(y: int, m: int)
    requires 1 <= m <= 12
    ensures MonthStart(m + 1, Leap(y)) == MonthStart(m, Leap(y)) + DaysIn(y, m)
    ensures MonthStart(1, Leap(y)) == 0 && MonthStart(13, Leap(y)) == YearLength(y)
  {
  }

  /** The same by the code's tables of years and months. */
  function TabledMonth(i: int): int { YearStart(i / 12) + MonthStart(i % 12 + 1, Leap(i / 12)) }

  lemma TabledMonthsFollow(i: int)
    ensures TabledMonth(12) == 0
    ensures TabledMonth(i + 1) == TabledMonth(i) + DaysIn(i / 12, i % 12 + 1)
  {
    var y, m := i / 12, i % 12 + 1;
    MonthLengths(y, m);
    if m == 12 {
      YearStartStep(y);
      assert (i + 1) / 12 == y + 1 && (i + 1) % 12 == 0;
    } else {
      assert (i + 1) / 12 == y && (i + 1) % 12 == m;
    }
  }

  lemma {:induction false} SameSteps(f: int -> int, g: int -> int, i: int)
    requires f(12) == g(12) && forall k :: f(k + 1) - f(k) == g(k + 1) - g(k)
    ensures f(i) == g(i)
    decreases if i >= 12 then i - 12 else 12 - i
  {
    if i > 12 {
      SameSteps(f, g, i - 1);
      assert f((i - 1) + 1) - f(i - 1) == g((i - 1) + 1) - g(i - 1);
    } else if i < 12 {
      SameSteps(f, g, i + 1);
    }
  }

  lemma NextMonth(i: int)
    ensures MonthBegins(i + 1) == MonthBegins(i) + DaysIn(i / 12, i % 12 + 1)
  {
  }

  /** The tables agree with the count. */
  lemma MonthBeginsAt(i: int)
    ensures MonthBegins(i) == TabledMonth(i)
  {
    forall k ensures MonthBegins(k + 1) - MonthBegins(k) == TabledMonth(k + 1) - TabledMonth(k) {
      NextMonth(k);
      TabledMonthsFollow(k);
    }
    TabledMonthsFollow(12);
    SameSteps(MonthBegins, TabledMonth, i);
  }

  ghost predicate StepsUp(f: int -> int) { forall j, k :: k == j + 1 ==> f(j) < f(k) }

  lemma MonthsStepUp()
    ensures StepsUp(MonthBegins)
  {
    forall j, k | k == j + 1 ensures MonthBegins(j) < MonthBegins(k) { NextMonth(j); }
  }

  lemma {:induction false} Ascends(f: int -> int, i: int, j: int)
    requires i <= j && StepsUp(f)
    ensures f(i) <= f(j)
    decreases j - i
  {
    if i < j {
      Ascends(f, i, j - 1);
      assert f(j - 1) < f(j);
    }
  }

  lemma MonthSpans(y: int, m: int)
    requires 1 <= m <= 12
    ensures MonthBegins(12 * y + m - 1) == YearStart(y) + MonthStart(m, Leap(y))
    ensures MonthBegins(12 * y + m) == YearStart(y) + MonthStart(m + 1, Leap(y))
  {
    var i := 12 * y + m - 1;
    assert i / 12 == y && i % 12 + 1 == m;
    MonthBeginsAt(i);
    MonthBeginsAt(i + 1);
    TabledMonthsFollow(i);
    MonthLengths(y, m);
  }

  /** An instant is in the month whose days, so counted, include its day. */
  lemma MonthHasDay(t: int)
    ensures MonthBegins(MonthIndex(t)) <= Day(t) < MonthBegins(MonthIndex(t) + 1)
  {
    var d := Day(t);
    MonthSpans(YearOf(d), MonthOf(d));
    assert d == YearStart(YearOf(d)) + DayOfYear(d);
  }

  /** Two instants are in one month just when no month begins between them. */
  lemma SameMonthIff(t: int, u: int)
    requires t <= u
    ensures MonthIndex(t) == MonthIndex(u) <==> !BeginsBetween(MonthStarts, t, u)
  {
    MonthHasDay(t);
    MonthHasDay(u);
    MonthsStepUp();
    NoneBegins(MonthBegins, MonthIndex(t), MonthIndex(u), Day(t), Day(u));
    DaysAndInstants(MonthBegins, MonthStarts, t, u);
  }

  lemma DaysAndInstants(days: int -> int, instants: int -> int, t: int, u: int)
    requires forall i :: instants(i) == Midnight(days(i))
    ensures BeginsBetween(days, Day(t), Day(u)) <==> BeginsBetween(instants, t, u)
  {
    forall i ensures t < instants(i) <= u <==> Day(t) < days(i) <= Day(u) {
      BeforeMidnight(t, days(i));
      BeforeMidnight(u, days(i));
    }
    if i :| Day(t) < days(i) <= Day(u) { assert t < instants(i) <= u; }
    if i :| t < instants(i) <= u { assert Day(t) < days(i) <= Day(u); }
  }

  lemma NoneBegins(f: int -> int, a: int, b: int, d: int, e: int)
    requires StepsUp(f)
    requires f(a) <= d < f(a + 1) && f(b) <= e < f(b + 1) && d <= e
    ensures a == b <==> !BeginsBetween(f, d, e)
  {
    if b < a { Ascends(f, b + 1, a); }
    if a < b { Ascends(f, a + 1, b); }
    forall i ensures a == b ==> !(d < f(i) <= e) {
      if i <= a { Ascends(f, i, a); } else { Ascends(f, a + 1, i); }
    }
  }

  // -------------------------------------------------------------- ISO weeks

  /** Weeks run Monday to Sunday; day 0 is a Monday. */
  function WeekIndex(t: int): int { Day(t) / 7 }

  /** The Thursday of the week of day d, whose year is the week's year (section 4.1.4 of ISO 8601:2004). */
  function Thursday(d: int): int { d - d % 7 + 3 }

  function IsoYear(d: int): int { YearOf(Thursday(d)) }

  function IsoWeek(d: int): (w: int)
    ensures 1 <= w <= 53
  {
    DayOfYear(Thursday(d)) / 7 + 1
  }

  /** ISO year and week number name a Monday-to-Sunday week and nothing else. */
  lemma SameIsoWeek(d: int, e: int)
    ensures IsoYear(d) == IsoYear(e) && IsoWeek(d) == IsoWeek(e) <==> d / 7 == e / 7
  {
    assert Thursday(d) == 7 * (d / 7) + 3 && Thursday(e) == 7 * (e / 7) + 3;
    if IsoYear(d) == IsoYear(e) && IsoWeek(d) == IsoWeek(e) {
      assert -7 < Thursday(d) - Thursday(e) < 7;
    }
  }

  /** The first instant of the k-th Monday; 1 January of year 1 was the first. */
  function MondayStarts(k: int): int { Midnight(7 * k) }

  lemma SameWeekIff(t: int, u: int)
    requires t <= u
    ensures WeekIndex(t) == WeekIndex(u) <==> !BeginsBetween(MondayStarts, t, u)
  {
    var f := (k: int) => 7 * k;
    NoneBegins(f, WeekIndex(t), WeekIndex(u), Day(t), Day(u));
    DaysAndInstants(f, MondayStarts, t, u);
  }

  lemma SameDayIff(t: int, u: int)
    requires t <= u
    ensures Day(t) == Day(u) <==> !BeginsBetween(Midnight, t, u)
  {
    var f := (d: int) => d;
    NoneBegins(f, Day(t), Day(u), Day(t), Day(u));
    DaysAndInstants(f, Midnight, t, u);
  }

  // --------------------------------------------------------------- the keys

  function FormatYear(y: int): string { Padded(y, 4) }

  function TwoDigits(n: nat): (s: string)
    requires n < 100
    ensures |s| == 2
  {
    if n < 10 then "0" + [DigitChar(n)] else [DigitChar(n / 10)] + [DigitChar(n % 10)]
  }

  lemma TwoDigitsInjective(m: nat, n: nat)
    requires m < 100 && n < 100
    ensures TwoDigits(m) == TwoDigits(n) ==> m == n
  {
    var a, b := TwoDigits(m), TwoDigits(n);
    assert a[0] == DigitChar(m / 10) && a[1] == DigitChar(m % 10);
    assert b[0] == DigitChar(n / 10) && b[1] == DigitChar(n % 10);
  }

  function DayKey(t: int): string {
    var d := Day(t);
    FormatYear(YearOf(d)) + "-" + TwoDigits(MonthOf(d)) + "-" + TwoDigits(DayOfMonth(d))
  }

  function WeekKey(t: int): string {
    FormatYear(IsoYear(Day(t))) + "-W" + TwoDigits(IsoWeek(Day(t)))
  }

  function MonthKey(t: int): string {
    FormatYear(YearOf(Day(t))) + "-" + TwoDigits(MonthOf(Day(t)))
  }

  /** Equal texts with separators and tails of equal length split into equal parts. */
  lemma SplitTail(a: string, b: string, x: string, y: string)
    requires a + x == b + y && |x| == |y|
    ensures a == b && x == y
  {
    assert |a| == |b|;
    assert a == (a + x)[..|a|] && b == (b + y)[..|b|];
    assert x == (a + x)[|a|..] && y == (b + y)[|b|..];
  }

  lemma SplitTwoDigits(y: int, z: int, sep: string, m: nat, n: nat)
    requires m < 100 && n < 100
    requires FormatYear(y) + sep + TwoDigits(m) == FormatYear(z) + sep + TwoDigits(n)
    ensures y == z && m == n
  {
    SplitTail(FormatYear(y) + sep, FormatYear(z) + sep, TwoDigits(m), TwoDigits(n));
    SplitTail(FormatYear(y), FormatYear(z), sep, sep);
    PaddedInjective(y, z, 4);
    TwoDigitsInjective(m, n);
  }

  lemma TwelveMonths(y: int, m: int, z: int, n: int)
    requires 1 <= m <= 12 && 1 <= n <= 12
    ensures 12 * y + m == 12 * z + n <==> y == z && m == n
  {
  }

  /** Two instants share a month key iff they lie in the same month of the same year, that is iff no
      month, counted from the lengths of the months, begins between them. */
  lemma MonthKeyNamesMonth(t: int, u: int)
    ensures MonthKey(t) == MonthKey(u) <==> MonthIndex(t) == MonthIndex(u)
    ensures t <= u ==> (MonthKey(t) == MonthKey(u) <==> !BeginsBetween(MonthStarts, t, u))
  {
    if t <= u { SameMonthIff(t, u); }
    TwelveMonths(YearOf(Day(t)), MonthOf(Day(t)), YearOf(Day(u)), MonthOf(Day(u)));
    if MonthKey(t) == MonthKey(u) {
      SplitTwoDigits(YearOf(Day(t)), YearOf(Day(u)), "-", MonthOf(Day(t)), MonthOf(Day(u)));
    }
  }

  /** Two instants share a day key iff they lie on the same day, that is iff no midnight lies between them. */
  lemma DayKeyNamesDay(t: int, u: int)
    ensures DayKey(t) == DayKey(u) <==> Day(t) == Day(u)
    ensures t <= u ==> (DayKey(t) == DayKey(u) <==> !BeginsBetween(Midnight, t, u))
  {
    if t <= u { SameDayIff(t, u); }
    if DayKey(t) == DayKey(u) {
      SplitTail(MonthKey(t) + "-", MonthKey(u) + "-", TwoDigits(DayOfMonth(Day(t))), TwoDigits(DayOfMonth(Day(u))));
      SplitTail(MonthKey(t), MonthKey(u), "-", "-");
      TwoDigitsInjective(DayOfMonth(Day(t)), DayOfMonth(Day(u)));
      SplitTwoDigits(YearOf(Day(t)), YearOf(Day(u)), "-", MonthOf(Day(t)), MonthOf(Day(u)));
    }
  }

  /** Two instants share a week key iff they lie in the same ISO week, that is iff no Monday begins
      between them. */
  lemma WeekKeyNamesIsoWeek(t: int, u: int)
    ensures WeekKey(t) == WeekKey(u) <==> WeekIndex(t) == WeekIndex(u)
    ensures t <= u ==> (WeekKey(t) == WeekKey(u) <==> !BeginsBetween(MondayStarts, t, u))
  {
    if t <= u { SameWeekIff(t, u); }
    SameIsoWeek(Day(t), Day(u));
    if WeekKey(t) == WeekKey(u) {
      SplitTwoDigits(IsoYear(Day(t)), IsoYear(Day(u)), "-W", IsoWeek(Day(t)), IsoWeek(Day(u)));
    }
  }
}
