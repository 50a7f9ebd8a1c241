/** Spend trajectory (billing/trajectory.ts, sumInRange and computeTrajectory): month-to-date,
    run-rate projection, prior period and the week-over-month anomaly. */
module Trajectory {
  import opened Calendar
  import opened Spend

  const RECENT_DAYS := 7
  const BASELINE_DAYS := 28

  // ---------------------------------------------------------------- sums

  method SumInRange(daily: seq<DailyCost>, start: int, end: int) returns (total: real)
    ensures total == SumIn(daily, start, end)
  {
    total := 0.0;
    for i := 0 to |daily|
      invariant total == SumIn(daily[..i], start, end)
    {
      assert daily[..i + 1][..i] == daily[..i];
      var t := daily[i].date;
      if t >= start && t < end { total := total + daily[i].cost; }
    }
    assert daily[..|daily|] == daily;
  }

  // ---------------------------------------------------------------- days

  /** Math.round(ms / DAY_MS) */
  function RoundDays(ms: int): int { (2 * ms + DAY) / (2 * DAY) }

  /** startOfDayUTC: Date.UTC of the time's year, month and day of the month. */
  function StartOfDay(t: int): int {
    var day := DayOf(t);
    (FirstOf(FullYear(YearOf(day)), MonthOf(day)) + (day - MonthStart(YearOf(day), MonthOf(day)))) * DAY
  }

  function TotalDays(b: Bounds): int { RoundDays(b.end - b.start) }

  function ElapsedDays(b: Bounds, now: int): int {
    var d := RoundDays(StartOfDay(now) - b.start) + 1;
    if d > 1 then d else 1
  }

  // ---------------------------------------------------------------- the result

  datatype Result = Result(bounds: Bounds, mtd: real, projected: real, prior: real, flagged: bool)

  function Projected(mtd: real, elapsed: int, total: int): real
    requires elapsed >= 1
  {
    if total > 0 then mtd / elapsed as real * total as real else mtd
  }

  function Flagged(recent: real, baseline: real): bool {
    var recentAvg, baselineAvg := recent / RECENT_DAYS as real, baseline / BASELINE_DAYS as real;
    baselineAvg > 0.0 && recentAvg > 2.0 * baselineAvg
  }

  function Computed(daily: seq<DailyCost>, now: int, period: Period): Result {
    var b := PeriodBounds(now, period);
    var prior := PriorPeriodBounds(period, b);
    var mtd := SumIn(daily, b.start, now);
    var today := StartOfDay(now);
    var weekAgo := today - RECENT_DAYS * DAY;
    Result(b, mtd, Projected(mtd, ElapsedDays(b, now), TotalDays(b)), SumIn(daily, prior.start, prior.end),
           Flagged(SumIn(daily, weekAgo, today), SumIn(daily, weekAgo - BASELINE_DAYS * DAY, weekAgo)))
  }

  method ComputeTrajectory(daily: seq<DailyCost>, now: int, period: Period) returns (r: Result)
    ensures r == Computed(daily, now, period)
  {
    hide SumIn, PeriodBounds, PriorPeriodBounds, ElapsedDays, TotalDays, StartOfDay, Flagged, Projected;
    var b := PeriodBounds(now, period);
    var prior := PriorPeriodBounds(period, b);
    var mtd := SumInRange(daily, b.start, now);
    var totalDays, elapsedDays := TotalDays(b), ElapsedDays(b, now);
    AtLeastOneDay(b, now);
    var projected := Projected(mtd, elapsedDays, totalDays);
    var priorTotal := SumInRange(daily, prior.start, prior.end);
    var recentEnd := StartOfDay(now);
    var recentStart := recentEnd - RECENT_DAYS * DAY;
    var recent := SumInRange(daily, recentStart, recentEnd);
    var baseline := SumInRange(daily, recentStart - BASELINE_DAYS * DAY, recentStart);
    r := Result(b, mtd, projected, priorTotal, Flagged(recent, baseline));
  }

  lemma AtLeastOneDay(b: Bounds, now: int)
    ensures ElapsedDays(b, now) >= 1
  {
  }

  // ---------------------------------------------------------------- days elapsed

  lemma RoundExact(k: int)
    ensures RoundDays(k * DAY) == k
  {
  }

  lemma StartOfDayIs(t: int)
    requires !TwoDigit(t)
    ensures StartOfDay(t) == DayOf(t) * DAY
  {
    hide MonthStart, DayOf;
    FirstOfStarts(YearOf(DayOf(t)), MonthOf(DayOf(t)));
  }

  lemma PeriodLength(y: int, m: int, period: Period)
    requires 0 <= m && m + Months(period) <= 12 && FirstMonth(period, m) == m
    ensures var days := MonthStart(y, m + Months(period)) - MonthStart(y, m);
            if period == Month then 28 <= days <= 31 else 90 <= days <= 92
  {
    if period == Quarter { assert m == 0 || m == 3 || m == 6 || m == 9; }
  }

  /** Outside the years 0 to 99: a month has 28 to 31 days and a quarter 90 to 92, at least one and
      at most all of them have begun, and all of them exactly on the last day. */
  lemma ElapsedWithinTotal(now: int, period: Period)
    requires !TwoDigit(now)
    ensures var b := PeriodBounds(now, period);
            var total, elapsed := TotalDays(b), ElapsedDays(b, now);
            1 <= elapsed <= total
            && (if period == Month then 28 <= total <= 31 else 90 <= total <= 92)
            && (elapsed == total <==> now >= b.end - DAY)
            && b.end - b.start == total * DAY
  {
    hide MonthStart, PeriodBounds, YearOf, MonthOf, FirstMonth, RoundDays, StartOfDay;
    var y, m := YearOf(DayOf(now)), FirstMonth(period, MonthOf(DayOf(now)));
    BoundsAre(now, period);
    InOwnPeriodIff(now, period);
    PeriodLength(y, m, period);
    StartOfDayIs(now);
    var first, last := MonthStart(y, m), MonthStart(y, m + Months(period));
    RoundExact(last - first);
    RoundExact(DayOf(now) - first);
  }

  /** The days begun, the present one among them. */
  lemma ElapsedCountsDays(now: int, period: Period)
    requires !TwoDigit(now)
    ensures var start, elapsed := PeriodBounds(now, period).start, ElapsedDays(PeriodBounds(now, period), now);
            start + (elapsed - 1) * 86400000 <= now < start + elapsed * 86400000
    ensures StartOfDay(now) <= now < StartOfDay(now) + 86400000 && StartOfDay(now) % 86400000 == 0
  {
    hide MonthStart, PeriodBounds, YearOf, MonthOf, FirstMonth, RoundDays, StartOfDay, DayOf;
    BoundsAre(now, period);
    InOwnPeriodIff(now, period);
    StartOfDayIs(now);
    Midnight(now);
    DaysBegun(MonthStart(YearOf(DayOf(now)), FirstMonth(period, MonthOf(DayOf(now)))), DayOf(now), now);
  }

  lemma Midnight(t: int)
    ensures DayOf(t) * 86400000 <= t < DayOf(t) * 86400000 + 86400000 && DayOf(t) * 86400000 % 86400000 == 0
  {
  }

  lemma DaysBegun(first: int, day: int, now: int)
    requires first * 86400000 <= now && day * 86400000 <= now < day * 86400000 + 86400000
    ensures RoundDays(day * 86400000 - first * 86400000) == day - first && day >= first
  {
    RoundExact(day - first);
  }

  // ---------------------------------------------------------------- money

  lemma Scale(mtd: real, elapsed: real, total: real)
    requires mtd >= 0.0 && 1.0 <= elapsed <= total
    ensures mtd / elapsed * total >= mtd
    ensures mtd / elapsed * total == mtd <==> mtd == 0.0 || elapsed == total
  {
    var rate := mtd / elapsed;
    Divide(mtd, elapsed, rate);
    SplitTotal(rate, elapsed, total - elapsed, total);
    var more := rate * (total - elapsed);
    ProductSign(rate, total - elapsed, more);
    assert rate * total == mtd + more;
    assert mtd == 0.0 <==> rate == 0.0;
  }

  lemma ProjectedFacts(mtd: real, elapsed: int, total: int)
    requires mtd >= 0.0 && 1 <= elapsed <= total
    ensures Projected(mtd, elapsed, total) >= mtd
    ensures Projected(mtd, elapsed, total) == mtd <==> mtd == 0.0 || elapsed == total
  {
    Scale(mtd, elapsed as real, total as real);
  }

  lemma Divide(a: real, b: real, q: real)
    requires b >= 1.0 && a >= 0.0 && q == a / b
    ensures q * b == a && q >= 0.0 && (q == 0.0 <==> a == 0.0)
  {
  }

  lemma SplitTotal(rate: real, a: real, b: real, c: real)
    requires c == a + b
    ensures rate * c == rate * a + rate * b
  {
  }

  lemma ProductSign(x: real, y: real, p: real)
    requires x >= 0.0 && y >= 0.0 && p == x * y
    ensures p >= 0.0 && (p == 0.0 <==> x == 0.0 || y == 0.0)
  {
  }

  /** With non-negative costs the projection never falls below what is already spent, and equals it
      exactly when nothing is spent or the period is on its last day. */
  lemma ProjectionAtLeastSpent(daily: seq<DailyCost>, now: int, period: Period)
    requires !TwoDigit(now) && forall d :: d in daily ==> d.cost >= 0.0
    ensures var r := Computed(daily, now, period);
            r.projected >= r.mtd >= 0.0
            && (r.projected == r.mtd <==> r.mtd == 0.0 || now >= r.bounds.end - DAY)
  {
    hide SumIn, PeriodBounds, PriorPeriodBounds, ElapsedDays, TotalDays, StartOfDay, Flagged, Projected;
    var b := PeriodBounds(now, period);
    ElapsedWithinTotal(now, period);
    SumNonNegative(daily, b.start, now);
    ProjectedFacts(SumIn(daily, b.start, now), ElapsedDays(b, now), TotalDays(b));
  }

  /** What is reported: the spend up to now, the rest of the period's left out; that spend at its rate
      so far, over all the period's days; and the whole spend of the period before, which ends where
      this one starts. */
  lemma ReportedFigures(daily: seq<DailyCost>, now: int, period: Period)
    requires !TwoDigit(now)
    ensures var r := Computed(daily, now, period);
            var b, before := r.bounds, PeriodBounds(r.bounds.start - 1, period);
            b == PeriodBounds(now, period) && b.start <= now < b.end
            && r.mtd + SumIn(daily, now, b.end) == SumIn(daily, b.start, b.end)
            && r.projected * ElapsedDays(b, now) as real == r.mtd * TotalDays(b) as real
            && (!TwoDigit(b.start - 1) ==> before.end == b.start && r.prior == SumIn(daily, before.start, before.end))
  {
    hide SumIn, PeriodBounds, PriorPeriodBounds, ElapsedDays, TotalDays, StartOfDay, Flagged, Projected, TwoDigit;
    var b := PeriodBounds(now, period);
    InOwnPeriodIff(now, period);
    SumSplits(daily, b.start, now, b.end);
    ElapsedWithinTotal(now, period);
    Rate(SumIn(daily, b.start, now), ElapsedDays(b, now), TotalDays(b));
    PriorIsPeriodBefore(now, period);
    PriorEnds(period, b);
  }

  lemma PriorEnds(period: Period, b: Bounds)
    ensures PriorPeriodBounds(period, b).end == b.start
  {
  }

  lemma Rate(mtd: real, elapsed: int, total: int)
    requires 1 <= elapsed && 1 <= total
    ensures Projected(mtd, elapsed, total) * elapsed as real == mtd * total as real
  {
    RateOf(mtd, elapsed as real, total as real, mtd / elapsed as real);
  }

  lemma RateOf(mtd: real, elapsed: real, total: real, rate: real)
    requires elapsed >= 1.0 && rate == mtd / elapsed
    ensures rate * total * elapsed == mtd * total
  {
    assert rate * elapsed == mtd;
  }

  /** A quarter's total is the sum of its three months' totals. */
  lemma QuarterIsSumOfMonths(daily: seq<DailyCost>, t: int)
    requires !TwoDigit(t)
    ensures var q := PeriodBounds(t, Quarter);
            var a := PeriodBounds(q.start, Month);
            var b := PeriodBounds(a.end, Month);
            var c := PeriodBounds(b.end, Month);
            SumIn(daily, q.start, q.end)
            == SumIn(daily, a.start, a.end) + SumIn(daily, b.start, b.end) + SumIn(daily, c.start, c.end)
  {
    hide SumIn, PeriodBounds, MonthStart, YearOf, MonthOf, DayOf, FirstMonth;
    var q := PeriodBounds(t, Quarter);
    var y, m := YearOf(DayOf(t)), FirstMonth(Quarter, MonthOf(DayOf(t)));
    BoundsAre(t, Quarter);
    MonthAt(y, m);
    MonthAt(y, m + 1);
    MonthAt(y, m + 2);
    MonthsGrow(y, m, m + 1);
    MonthsGrow(y, m + 1, m + 2);
    MonthsGrow(y, m + 2, m + 3);
    SumSplits(daily, q.start, MonthStart(y, m + 1) * DAY, q.end);
    SumSplits(daily, MonthStart(y, m + 1) * DAY, MonthStart(y, m + 2) * DAY, q.end);
  }

  /** The anomaly is flagged exactly when something was spent in the four weeks before the last one
      and the last week's spend is more than half of that. */
  lemma FlaggedIff(daily: seq<DailyCost>, now: int, period: Period)
    ensures var today := StartOfDay(now);
            var recent := SumIn(daily, today - 7 * DAY, today);
            var baseline := SumIn(daily, today - 35 * DAY, today - 7 * DAY);
            Computed(daily, now, period).flagged <==> baseline > 0.0 && 2.0 * recent > baseline
  {
    hide SumIn, PeriodBounds, PriorPeriodBounds, Projected, ElapsedDays, TotalDays, StartOfDay;
  }
}
