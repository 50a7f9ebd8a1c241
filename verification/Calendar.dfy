/** UTC calendar arithmetic as JavaScript's Date does it (section 21.4.1 of ECMA-262), and the
    billing periods built on it (billing/trajectory.ts, periodBounds and priorPeriodBounds;
    billing/budget-alerts.ts, periodBoundsUTC). Times are milliseconds since 1970. */
module Calendar {

  /** msPerDay */
  const DAY := 86400000

  // ---------------------------------------------------------------- years

  predicate Leap(y: int) { y % 4 == 0 && (y % 100 != 0 || y % 400 == 0) }

  /** Day number of the first day of a year (DayFromYear). */
  function YearStart(y: int): int {
    365 * (y - 1970) + (y - 1969) / 4 - (y - 1901) / 100 + (y - 1601) / 400
  }

  function YearLength(y: int): int { if Leap(y) then 366 else 365 }

  lemma Fourth(y: int)
    ensures (y - 1968) / 4 == (y - 1969) / 4 + if y % 4 == 0 then 1 else 0
  {
  }

  lemma Hundredth(y: int)
    ensures (y - 1900) / 100 == (y - 1901) / 100 + if y % 100 == 0 then 1 else 0
  {
  }

  lemma FourHundredth(y: int)
    ensures (y - 1600) / 400 == (y - 1601) / 400 + if y % 400 == 0 then 1 else 0
  {
  }

  lemma Divisible(y: int)
    ensures (y % 100 == 0 ==> y % 4 == 0) && (y % 400 == 0 ==> y % 100 == 0)
  {
  }

  lemma NextYear(y: int)
    ensures YearStart(y + 1) == YearStart(y) + YearLength(y)
  {
    Fourth(y);
    Hundredth(y);
    FourHundredth(y);
    Divisible(y);
  }

  function YearUp(day: int, y: int): (r: int)
    requires YearStart(y) <= day
    ensures YearStart(r) <= day < YearStart(r + 1)
    decreases day - YearStart(y)
  {
    NextYear(y);
    if day < YearStart(y + 1) then y else YearUp(day, y + 1)
  }

  function YearDown(day: int, y: int): (r: int)
    requires day < YearStart(y + 1)
    ensures YearStart(r) <= day < YearStart(r + 1)
    decreases YearStart(y + 1) - day
  {
    NextYear(y - 1);
    NextYear(y);
    if YearStart(y) <= day then y else YearDown(day, y - 1)
  }

  /** YearFromTime, on day numbers: the year a day lies in. */
  function YearOf(day: int): (y: int)
    ensures YearStart(y) <= day < YearStart(y + 1)
  {
    if day >= YearStart(1970) then YearUp(day, 1970) else YearDown(day, 1969)
  }

  lemma {:induction false} YearsInOrder(a: int, b: int)
    requires a <= b
    ensures YearStart(a) <= YearStart(b)
    decreases b - a
  {
    if a < b {
      NextYear(a);
      YearsInOrder(a + 1, b);
    }
  }

  lemma YearIsUnique(day: int, y: int)
    requires YearStart(y) <= day < YearStart(y + 1)
    ensures YearOf(day) == y
  {
    if YearOf(day) < y { YearsInOrder(YearOf(day) + 1, y); }
    if y < YearOf(day) { YearsInOrder(y + 1, YearOf(day)); }
  }

  // ---------------------------------------------------------------- months

  /** Days of a year before its m-th month; the twelfth is the next year. */
  function DaysBefore(m: int, leap: bool): int
    requires 0 <= m <= 12
  {
    var extra := if leap && m >= 2 then 1 else 0;
    [0, 31, 59, 90, 120, 151, 181, 212, 243, 273, 304, 334, 365][m] + extra
  }

  /** Day number of the first of a month. */
  function MonthStart(y: int, m: int): int
    requires 0 <= m <= 12
  {
    YearStart(y) + DaysBefore(m, Leap(y))
  }

  lemma MonthLength(y: int, m: int)
    requires 0 <= m < 12
    ensures 28 <= MonthStart(y, m + 1) - MonthStart(y, m) <= 31
  {
  }

  lemma TwelfthIsNextYear(y: int)
    ensures MonthStart(y, 12) == MonthStart(y + 1, 0) == YearStart(y + 1)
  {
    NextYear(y);
  }

  function MonthUp(day: int, y: int, m: int): (r: int)
    requires 0 <= m < 12 && MonthStart(y, m) <= day < MonthStart(y, 12)
    ensures 0 <= r < 12 && MonthStart(y, r) <= day < MonthStart(y, r + 1)
    decreases 12 - m
  {
    if day < MonthStart(y, m + 1) then m else MonthUp(day, y, m + 1)
  }

  /** MonthFromTime, on day numbers. */
  function MonthOf(day: int): (m: int)
    ensures 0 <= m < 12 && MonthStart(YearOf(day), m) <= day < MonthStart(YearOf(day), m + 1)
  {
    TwelfthIsNextYear(YearOf(day));
    MonthUp(day, YearOf(day), 0)
  }

  lemma {:induction false} MonthsInOrder(y: int, a: int, b: int)
    requires 0 <= a <= b <= 12
    ensures MonthStart(y, a) <= MonthStart(y, b)
    decreases b - a
  {
    if a < b {
      MonthLength(y, a);
      MonthsInOrder(y, a + 1, b);
    }
  }

  lemma MonthIsUnique(day: int, y: int, m: int)
    requires 0 <= m < 12 && MonthStart(y, m) <= day < MonthStart(y, m + 1)
    ensures YearOf(day) == y && MonthOf(day) == m
  {
    hide MonthStart;
    YearSpan(y);
    MonthsInOrder(y, 0, m);
    MonthsInOrder(y, m + 1, 12);
    YearIsUnique(day, y);
    var r := MonthOf(day);
    if r < m { MonthsInOrder(y, r + 1, m); }
    if m < r { MonthsInOrder(y, m + 1, r); }
  }

  lemma YearSpan(y: int)
    ensures MonthStart(y, 0) == YearStart(y) && MonthStart(y, 12) == YearStart(y + 1)
  {
    TwelfthIsNextYear(y);
  }

  // ---------------------------------------------------------------- Date.UTC

  /** MakeDay for the first of a month: months outside 0..11 carry into the year. */
  function FirstOf(y: int, m: int): int { MonthStart(y + m / 12, m % 12) }

  /** Date.UTC reads the years 0 to 99 as 1900 to 1999. */
  function FullYear(y: int): int { if 0 <= y <= 99 then 1900 + y else y }

  /** Date.UTC(y, m, 1) */
  function Utc(y: int, m: int): int { FirstOf(FullYear(y), m) * DAY }

  function DayOf(t: int): int { t / DAY }

  // ---------------------------------------------------------------- periods

  datatype Period = Month | Quarter

  datatype Bounds = Bounds(start: int, end: int)

  function Months(period: Period): int { if period == Month then 1 else 3 }

  /** The month a period begins with. */
  function FirstMonth(period: Period, m: int): int { if period == Month then m else m / 3 * 3 }

  function PeriodBounds(t: int, period: Period): Bounds {
    var y, m := YearOf(DayOf(t)), MonthOf(DayOf(t));
    if period == Month then Bounds(Utc(y, m), Utc(y, m + 1))
    else
      var q := m / 3;
      Bounds(Utc(y, q * 3), Utc(y, q * 3 + 3))
  }

  function PriorPeriodBounds(period: Period, current: Bounds): Bounds {
    var y, m := YearOf(DayOf(current.start)), MonthOf(DayOf(current.start));
    if period == Month then Bounds(Utc(y, m - 1), current.start)
    else Bounds(Utc(y, m - 3), current.start)
  }

  /** A two-digit year, which Date.UTC misreads. */
  predicate TwoDigit(t: int) { 0 <= YearOf(DayOf(t)) <= 99 }

  lemma FirstOfStarts(y: int, m: int)
    requires 0 <= m <= 12
    ensures FirstOf(y, m) == MonthStart(y, m)
  {
    TwelfthIsNextYear(y);
  }

  lemma FirstMonthFacts(period: Period, m: int)
    requires 0 <= m < 12
    ensures var first := FirstMonth(period, m);
            0 <= first && first + Months(period) <= 12 && first <= m < first + Months(period)
            && FirstMonth(period, first) == first
  {
  }

  /** The calendar written out: day 0 is the first of 1970, a year has 365 days, or 366 by the
      Gregorian rule, and its months have their usual lengths. */
  lemma MonthsHaveTheirLengths(y: int, m: int)
    requires 0 <= m < 12
    ensures MonthStart(1970, 0) == 0 && MonthStart(y, 12) == MonthStart(y + 1, 0)
    ensures var february := if (y % 4 == 0 && y % 100 != 0) || y % 400 == 0 then 29 else 28;
            MonthStart(y, m + 1) - MonthStart(y, m) == [31, february, 31, 30, 31, 30, 31, 31, 30, 31, 30, 31][m]
  {
    Divisible(y);
    TwelfthIsNextYear(y);
  }

  /** A time's month is the one its day lies in, and a period runs from its first month, or its
      quarter's, to the month after its last; outside the years 0 to 99. */
  lemma PeriodInMonths(t: int, period: Period)
    requires !TwoDigit(t)
    ensures var y, m, b := YearOf(DayOf(t)), MonthOf(DayOf(t)), PeriodBounds(t, period);
            MonthStart(y, m) * 86400000 <= t < MonthStart(y, m + 1) * 86400000
            && if period == Month then
                 b.start == MonthStart(y, m) * 86400000 && b.end == MonthStart(y, m + 1) * 86400000
               else
                 var first := if m < 3 then 0 else if m < 6 then 3 else if m < 9 then 6 else 9;
                 b.start == MonthStart(y, first) * 86400000 && b.end == MonthStart(y, first + 3) * 86400000
  {
    hide MonthStart, YearOf, MonthOf, PeriodBounds;
    BoundsAre(t, period);
  }

  /** Both kinds of period at once: from the period's first month to that month plus its length. */
  lemma BoundsAre(t: int, period: Period)
    ensures var y, m := YearOf(DayOf(t)), FirstMonth(period, MonthOf(DayOf(t)));
            0 <= m && m + Months(period) <= 12 && m <= MonthOf(DayOf(t)) < m + Months(period)
            && FirstMonth(period, m) == m
            && PeriodBounds(t, period)
               == Bounds(MonthStart(FullYear(y), m) * DAY, MonthStart(FullYear(y), m + Months(period)) * DAY)
  {
    hide MonthStart, FirstOf, DayOf;
    var y, m := YearOf(DayOf(t)), FirstMonth(period, MonthOf(DayOf(t)));
    FirstMonthFacts(period, MonthOf(DayOf(t)));
    FirstOfStarts(FullYear(y), m);
    FirstOfStarts(FullYear(y), m + Months(period));
  }

  lemma InDays(t: int, a: int, b: int)
    ensures a * DAY <= t < b * DAY <==> a <= DayOf(t) < b
  {
  }

  /** Within a four-digit (or negative) year, a time belongs to a period exactly by its months. */
  lemma PeriodOf(t: int, y: int, m: int, period: Period)
    requires 0 <= m && m + Months(period) <= 12 && FirstMonth(period, m) == m
    requires MonthStart(y, m) * DAY <= t < MonthStart(y, m + Months(period)) * DAY
    ensures YearOf(DayOf(t)) == y && FirstMonth(period, MonthOf(DayOf(t))) == m
  {
    hide MonthStart, DayOf;
    InDays(t, MonthStart(y, m), MonthStart(y, m + Months(period)));
    MonthWithin(DayOf(t), y, m, m + Months(period));
    SameFirst(m, MonthOf(DayOf(t)), period);
  }

  lemma SameFirst(m: int, n: int, period: Period)
    requires 0 <= m <= n < m + Months(period) && FirstMonth(period, m) == m
    ensures FirstMonth(period, n) == m
  {
  }

  lemma {:induction false} MonthWithin(day: int, y: int, m: int, end: int)
    requires 0 <= m < end <= 12 && MonthStart(y, m) <= day < MonthStart(y, end)
    ensures YearOf(day) == y && m <= MonthOf(day) < end
    decreases end - m
  {
    hide MonthStart;
    if day < MonthStart(y, m + 1) {
      MonthIsUnique(day, y, m);
    } else {
      MonthWithin(day, y, m + 1, end);
    }
  }

  // ---------------------------------------------------------------- main results

  /** A time lies in its own period exactly when its year is not one of 0 to 99. */
  lemma InOwnPeriodIff(t: int, period: Period)
    ensures var b := PeriodBounds(t, period);
            b.start <= t < b.end <==> !TwoDigit(t)
  {
    hide MonthStart, YearStart;
    var day := DayOf(t);
    var y, m := YearOf(day), FirstMonth(period, MonthOf(day));
    BoundsAre(t, period);
    if TwoDigit(t) {
      YearsInOrder(y + 1, 1900 + y);
      YearSpan(1900 + y);
      MonthsInOrder(1900 + y, 0, m);
      InDays(t, MonthStart(1900 + y, m), MonthStart(1900 + y, m + Months(period)));
    } else {
      MonthsInOrder(y, m, MonthOf(day));
      MonthsInOrder(y, MonthOf(day) + 1, m + Months(period));
      InDays(t, MonthStart(y, m), MonthStart(y, m + Months(period)));
    }
  }

  /** Periods tile time: every other time in a period has that same period. */
  lemma PeriodsTile(t: int, u: int, period: Period)
    requires var b := PeriodBounds(t, period); b.start <= u < b.end
    ensures PeriodBounds(u, period) == PeriodBounds(t, period)
  {
    hide MonthStart, DayOf, FirstMonth, PeriodBounds;
    var y, m := FullYear(YearOf(DayOf(t))), FirstMonth(period, MonthOf(DayOf(t)));
    BoundsAre(t, period);
    PeriodOf(u, y, m, period);
    BoundsAre(u, period);
  }

  /** The months just before a period: the prior period's year and first month. */
  function BeforeYear(y: int, m: int): int { if m == 0 then y - 1 else y }
  function BeforeMonth(m: int, k: int): int { if m == 0 then 12 - k else m - k }

  lemma PriorStarts(y: int, m: int, k: int)
    requires 0 < k <= 12 && 0 <= m < 12 && (m == 0 || k <= m)
    ensures var p := BeforeMonth(m, k);
            0 <= p && p + k <= 12 && FirstOf(y, m - k) == MonthStart(BeforeYear(y, m), p)
            && MonthStart(BeforeYear(y, m), p + k) == MonthStart(y, m)
  {
    hide MonthStart;
    TwelfthIsNextYear(y - 1);
  }

  /** What the prior period comes to, given where the current one starts. */
  lemma PriorIs(y: int, m: int, period: Period, end: int)
    requires 0 <= m && m + Months(period) <= 12 && FirstMonth(period, m) == m && FullYear(y) == y
    ensures 0 <= BeforeMonth(m, Months(period)) && BeforeMonth(m, Months(period)) + Months(period) <= 12
    ensures PriorPeriodBounds(period, Bounds(MonthStart(y, m) * DAY, end))
            == Bounds(MonthStart(BeforeYear(y, m), BeforeMonth(m, Months(period))) * DAY, MonthStart(y, m) * DAY)
  {
    hide MonthStart, FirstOf, DayOf;
    StartMonth(y, m, Months(period));
    PriorStarts(y, m, Months(period));
  }

  lemma SameFirstBefore(m: int, period: Period)
    requires 0 <= m && m + Months(period) <= 12 && FirstMonth(period, m) == m
    ensures FirstMonth(period, BeforeMonth(m, Months(period))) == BeforeMonth(m, Months(period))
    ensures m == 0 || Months(period) <= m
  {
  }

  /** The period of the instant before one starts. */
  lemma PeriodBefore(y: int, m: int, period: Period)
    requires 0 <= m && m + Months(period) <= 12 && FirstMonth(period, m) == m
    ensures var py, pm := BeforeYear(y, m), BeforeMonth(m, Months(period));
            var before := MonthStart(y, m) * DAY - 1;
            0 <= pm && pm + Months(period) <= 12 && YearOf(DayOf(before)) == py
            && PeriodBounds(before, period)
               == Bounds(MonthStart(FullYear(py), pm) * DAY, MonthStart(FullYear(py), pm + Months(period)) * DAY)
  {
    hide MonthStart, DayOf, PeriodBounds, FirstMonth, FirstOf, YearOf, MonthOf, FullYear, BeforeYear, BeforeMonth;
    SameFirstBefore(m, period);
    var py, pm := BeforeYear(y, m), BeforeMonth(m, Months(period));
    PriorStarts(y, m, Months(period));
    MonthsGrow(py, pm, pm + Months(period));
    PeriodOf(MonthStart(y, m) * DAY - 1, py, pm, period);
    BoundsAre(MonthStart(y, m) * DAY - 1, period);
  }

  /** The prior period is the period of the instant just before this one starts, across year ends
      too: exactly when that instant's year is not one of 0 to 99. */
  lemma PriorIsPeriodBefore(t: int, period: Period)
    ensures var b := PeriodBounds(t, period);
            PriorPeriodBounds(period, b) == PeriodBounds(b.start - 1, period) <==> !TwoDigit(b.start - 1)
  {
    hide MonthStart, DayOf, PeriodBounds, PriorPeriodBounds, FirstMonth, FirstOf, YearOf, MonthOf;
    var y, m := FullYear(YearOf(DayOf(t))), FirstMonth(period, MonthOf(DayOf(t)));
    BoundsAre(t, period);
    PriorIs(y, m, period, PeriodBounds(t, period).end);
    PeriodBefore(y, m, period);
    SameFirstBefore(m, period);
    var py, pm := BeforeYear(y, m), BeforeMonth(m, Months(period));
    PriorStarts(y, m, Months(period));
    hide BeforeYear, BeforeMonth, YearOf, MonthOf, Leap;
    TwoDigitApart(py, pm, pm + Months(period));
  }

  lemma MonthsGrow(y: int, a: int, b: int)
    requires 0 <= a < b <= 12
    ensures MonthStart(y, a) < MonthStart(y, b) && MonthStart(y, a) * DAY <= MonthStart(y, b) * DAY - DAY
  {
    hide MonthStart;
    MonthLength(y, a);
    MonthsInOrder(y, a + 1, b);
  }

  lemma StartMonth(y: int, m: int, k: int)
    requires 0 <= m < m + k <= 12
    ensures YearOf(DayOf(MonthStart(y, m) * DAY)) == y && MonthOf(DayOf(MonthStart(y, m) * DAY)) == m
  {
    hide MonthStart;
    MonthLength(y, m);
    MonthIsUnique(MonthStart(y, m), y, m);
  }

  lemma TwoDigitApart(y: int, a: int, b: int)
    requires 0 <= a < b <= 12
    ensures MonthStart(y, b) * DAY == MonthStart(FullYear(y), b) * DAY <==> !(0 <= y <= 99)
  {
    if 0 <= y <= 99 {
      hide MonthStart, YearStart;
      YearSpan(y);
      YearSpan(1900 + y);
      MonthsInOrder(y, b, 12);
      MonthsInOrder(1900 + y, 0, a);
      MonthsGrow(1900 + y, a, b);
      YearsInOrder(y + 1, 1900 + y);
    }
  }

  /** A quarter is exactly its three months, one after the other. */
  lemma QuarterIsThreeMonths(t: int)
    requires !TwoDigit(t)
    ensures var q := PeriodBounds(t, Quarter);
            var a := PeriodBounds(q.start, Month);
            var b := PeriodBounds(a.end, Month);
            var c := PeriodBounds(b.end, Month);
            q.start == a.start && a.end == b.start && b.end == c.start && q.end == c.end
  {
    hide MonthStart, DayOf, PeriodBounds, FirstMonth;
    var y, m := YearOf(DayOf(t)), FirstMonth(Quarter, MonthOf(DayOf(t)));
    BoundsAre(t, Quarter);
    MonthAt(y, m);
    MonthAt(y, m + 1);
    MonthAt(y, m + 2);
  }

  lemma MonthAt(y: int, m: int)
    requires 0 <= m < 12 && FullYear(y) == y
    ensures PeriodBounds(MonthStart(y, m) * DAY, Month) == Bounds(MonthStart(y, m) * DAY, MonthStart(y, m + 1) * DAY)
  {
    hide MonthStart, DayOf, PeriodBounds;
    StartMonth(y, m, 1);
    BoundsAre(MonthStart(y, m) * DAY, Month);
  }

  /** A period's end is always ahead of the clock, even in the years Date.UTC misreads. */
  lemma EndIsAhead(t: int, period: Period)
    ensures PeriodBounds(t, period).end > t
  {
    hide MonthStart, YearStart;
    InOwnPeriodIff(t, period);
    if TwoDigit(t) {
      var y, m := YearOf(DayOf(t)), FirstMonth(period, MonthOf(DayOf(t)));
      BoundsAre(t, period);
      YearsInOrder(y + 1, 1900 + y);
      YearSpan(1900 + y);
      MonthsInOrder(1900 + y, 0, m + Months(period));
      InDays(t, DayOf(t), MonthStart(1900 + y, m + Months(period)));
    }
  }

  /** Period starts never go back while the clock does not. */
  lemma StartsInOrder(t: int, u: int, period: Period)
    requires t <= u && !TwoDigit(t) && !TwoDigit(u)
    ensures PeriodBounds(t, period).start <= PeriodBounds(u, period).start
  {
    hide PeriodBounds;
    InOwnPeriodIff(t, period);
    InOwnPeriodIff(u, period);
    if PeriodBounds(u, period).start <= t { PeriodsTile(u, t, period); }
  }
}
