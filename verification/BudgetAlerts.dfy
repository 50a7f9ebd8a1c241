/** Spend-budget alerts (billing/budget-alerts.ts, runBudgetAlertsCycle, crossedThresholds,
    checkBudgetHardStop). */
module BudgetAlerts {
  import opened Options
  import opened Arithmetic
  import opened Sequences
  import opened Calendar

  // ---------------------------------------------------------------- data

  datatype Cost = Cost(tenantId: string, createdAt: int, cost: real)

  /** One row per tenant: tenantId is the table's primary key. */
  datatype Budget = Budget(
    tenantId: string, period: Period, capUsd: real, alertThresholds: seq<real>, alertEmails: seq<string>,
    hardStop: bool, alertedThresholds: seq<real>, periodStartedAt: int)

  datatype Email = Email(tenantId: string, threshold: real, recipient: string)

  datatype Stats = Stats(budgetsChecked: nat, alertsFired: nat, periodsReset: nat)

  function SumSpend(costs: seq<Cost>, tenantId: string, start: int, end: int): real {
    if costs == [] then 0.0
    else
      var c := costs[|costs| - 1];
      SumSpend(costs[..|costs| - 1], tenantId, start, end)
      + if c.tenantId == tenantId && start <= c.createdAt < end then c.cost else 0.0
  }

  // ---------------------------------------------------------------- thresholds

  function Insert(t: real, sorted: seq<real>): seq<real> {
    if sorted == [] || t <= sorted[0] then [t] + sorted else [sorted[0]] + Insert(t, sorted[1..])
  }

  /** crossedThresholds: filtered, then sorted ascending. */
  function Crossed(pct: real, thresholds: seq<real>, already: seq<real>): seq<real> {
    if thresholds == [] then []
    else
      var rest := Crossed(pct, thresholds[1..], already);
      if pct >= thresholds[0] && thresholds[0] !in already then Insert(thresholds[0], rest) else rest
  }

  predicate Ascending(s: seq<real>) { forall i, j :: 0 <= i < j < |s| ==> s[i] < s[j] }

  lemma {:induction false} InsertFacts(t: real, sorted: seq<real>)
    requires Ascending(sorted) && t !in sorted
    ensures Ascending(Insert(t, sorted)) && forall x :: x in Insert(t, sorted) <==> x == t || x in sorted
  {
    if sorted != [] && sorted[0] < t {
      var rest := Insert(t, sorted[1..]);
      InsertFacts(t, sorted[1..]);
      forall k | 0 <= k < |rest| ensures sorted[0] < rest[k] {
        assert rest[k] in rest;
        assert rest[k] == t || rest[k] in sorted[1..];
      }
    }
  }

  /** Exactly the thresholds at or below the percentage and not alerted yet, in ascending order. */
  lemma {:induction false} CrossedFacts(pct: real, thresholds: seq<real>, already: seq<real>)
    requires Distinct(thresholds)
    ensures var r := Crossed(pct, thresholds, already);
            Ascending(r) && forall x :: x in r <==> x in thresholds && pct >= x && x !in already
  {
    if thresholds != [] {
      CrossedFacts(pct, thresholds[1..], already);
      assert thresholds[0] !in thresholds[1..];
      if pct >= thresholds[0] && thresholds[0] !in already {
        InsertFacts(thresholds[0], Crossed(pct, thresholds[1..], already));
      }
    }
  }

  // ---------------------------------------------------------------- one budget, one cycle

  /** Spend is summed up to now; the source's `end < now` alternative never arises. */
  function SpendAt(b: Budget, now: int, costs: seq<Cost>): real {
    var bounds := PeriodBounds(now, b.period);
    SumSpend(costs, b.tenantId, bounds.start, if bounds.end < now then bounds.end else now)
  }

  function PctAt(b: Budget, now: int, costs: seq<Cost>): real {
    if b.capUsd > 0.0 then SpendAt(b, now, costs) / b.capUsd * 100.0 else 0.0
  }

  predicate Resets(b: Budget, now: int) { b.periodStartedAt < PeriodBounds(now, b.period).start }

  function Alerted(b: Budget, now: int): seq<real> { if Resets(b, now) then [] else b.alertedThresholds }

  function Fired(b: Budget, now: int, costs: seq<Cost>): seq<real> {
    Crossed(PctAt(b, now, costs), b.alertThresholds, Alerted(b, now))
  }

  function AfterCycle(b: Budget, now: int, costs: seq<Cost>): Budget {
    b.(alertedThresholds := Alerted(b, now) + Fired(b, now, costs),
       periodStartedAt := if Resets(b, now) then PeriodBounds(now, b.period).start else b.periodStartedAt)
  }

  /** The row is only written when something fired or the period rolled over. */
  predicate UpdateDue(b: Budget, now: int, costs: seq<Cost>) { Fired(b, now, costs) != [] || Resets(b, now) }

  function To(tenantId: string, threshold: real, recipients: seq<string>): seq<Email> {
    if recipients == [] then []
    else To(tenantId, threshold, recipients[..|recipients| - 1]) + [Email(tenantId, threshold, recipients[|recipients| - 1])]
  }

  /** Every recipient for every threshold, thresholds first. */
  function Emails(b: Budget, thresholds: seq<real>): seq<Email> {
    if thresholds == [] then []
    else Emails(b, thresholds[..|thresholds| - 1]) + To(b.tenantId, thresholds[|thresholds| - 1], b.alertEmails)
  }

  function Delivered(emails: seq<Email>, delivers: Email -> bool): nat {
    if emails == [] then 0
    else Delivered(emails[..|emails| - 1], delivers) + if delivers(emails[|emails| - 1]) then 1 else 0
  }

  lemma {:induction false} DeliveredSum(a: seq<Email>, b: seq<Email>, delivers: Email -> bool)
    ensures Delivered(a + b, delivers) == Delivered(a, delivers) + Delivered(b, delivers)
  {
    if b == [] {
      assert a + b == a;
    } else {
      var n := |b| - 1;
      assert (a + b)[..|a| + n] == a + b[..n];
      DeliveredSum(a, b[..n], delivers);
    }
  }

  // ---------------------------------------------------------------- all budgets

  function AllAfter(budgets: seq<Budget>, now: int, costs: seq<Cost>): (r: seq<Budget>)
    ensures |r| == |budgets|
  {
    seq(|budgets|, i requires 0 <= i < |budgets| => AfterCycle(budgets[i], now, costs))
  }

  /** The rows when the first n have been visited. */
  function PartlyAfter(budgets: seq<Budget>, n: nat, now: int, costs: seq<Cost>): seq<Budget>
    requires n <= |budgets|
  {
    AllAfter(budgets[..n], now, costs) + budgets[n..]
  }

  function AllEmails(budgets: seq<Budget>, now: int, costs: seq<Cost>): seq<Email> {
    if budgets == [] then []
    else
      var b := budgets[|budgets| - 1];
      AllEmails(budgets[..|budgets| - 1], now, costs) + Emails(b, Fired(b, now, costs))
  }

  function AllResets(budgets: seq<Budget>, now: int): nat {
    if budgets == [] then 0
    else AllResets(budgets[..|budgets| - 1], now) + if Resets(budgets[|budgets| - 1], now) then 1 else 0
  }

  /** Where a cycle ends early: at the failing row, if its update is due. */
  function DiesAt(budgets: seq<Budget>, now: int, costs: seq<Cost>, failing: Option<nat>): (d: Option<nat>)
    ensures d.Some? ==> d.value < |budgets|
  {
    if failing.Some? && failing.value < |budgets| && UpdateDue(budgets[failing.value], now, costs) then failing else None
  }

  predicate OnePerTenant(budgets: seq<Budget>) {
    forall i, j :: 0 <= i < j < |budgets| ==> budgets[i].tenantId != budgets[j].tenantId
  }

  class BudgetAlerts {
    var budgets: seq<Budget>
    /** Every send attempted, in order. */
    var outbox: seq<Email>

    method SendTo(b: Budget, threshold: real, delivers: Email -> bool) returns (delivered: nat)
      modifies this`outbox
      ensures var sent := To(b.tenantId, threshold, b.alertEmails);
              outbox == old(outbox) + sent && delivered == Delivered(sent, delivers)
    {
      hide To, Delivered;
      delivered := 0;
      NothingSent(b.tenantId, threshold, b.alertEmails, delivers);
      for r := 0 to |b.alertEmails|
        invariant var sent := To(b.tenantId, threshold, b.alertEmails[..r]);
                  outbox == old(outbox) + sent && delivered == Delivered(sent, delivers)
      {
        var email := Email(b.tenantId, threshold, b.alertEmails[r]);
        OneMoreSent(b.tenantId, threshold, b.alertEmails, r, delivers);
        outbox := outbox + [email];
        if delivers(email) { delivered := delivered + 1; }
      }
      assert b.alertEmails[..|b.alertEmails|] == b.alertEmails;
    }

    method SendAlerts(b: Budget, thresholds: seq<real>, delivers: Email -> bool) returns (delivered: nat)
      modifies this`outbox
      ensures outbox == old(outbox) + Emails(b, thresholds) && delivered == Delivered(Emails(b, thresholds), delivers)
    {
      hide To;
      delivered := 0;
      for k := 0 to |thresholds|
        invariant outbox == old(outbox) + Emails(b, thresholds[..k])
        invariant delivered == Delivered(Emails(b, thresholds[..k]), delivers)
      {
        assert thresholds[..k + 1][..k] == thresholds[..k];
        var now := SendTo(b, thresholds[k], delivers);
        DeliveredSum(Emails(b, thresholds[..k]), To(b.tenantId, thresholds[k], b.alertEmails), delivers);
        delivered := delivered + now;
      }
      assert thresholds[..|thresholds|] == thresholds;
    }

    /** UPDATE ... WHERE tenant_id = ?: the one row with that key. */
    method UpdateRow(at: nat, alerted: seq<real>, periodStartedAt: int)
      requires at < |budgets|
      modifies this`budgets
      ensures budgets == old(budgets)[at := old(budgets[at]).(alertedThresholds := alerted, periodStartedAt := periodStartedAt)]
    {
      budgets := budgets[at := budgets[at].(alertedThresholds := alerted, periodStartedAt := periodStartedAt)];
    }

    /** The body of the cycle's loop, for the row at `at`. Emails go out before the row is updated;
        `updateFails` says that the update, if one is due, throws, and `threw` that it did. */
    method VisitBudget(at: nat, now: int, costs: seq<Cost>, delivers: Email -> bool, updateFails: bool)
        returns (delivered: nat, reset: bool, threw: bool)
      requires at < |budgets|
      modifies this
      ensures var b := old(budgets[at]);
              threw == (updateFails && UpdateDue(b, now, costs))
              && budgets == (if threw then old(budgets) else old(budgets)[at := AfterCycle(b, now, costs)])
              && outbox == old(outbox) + Emails(b, Fired(b, now, costs))
              && delivered == Delivered(Emails(b, Fired(b, now, costs)), delivers) && reset == Resets(b, now)
    {
      hide Crossed, SumSpend, PeriodBounds, Emails, Delivered;
      var budget := budgets[at];
      var bounds := PeriodBounds(now, budget.period);
      var alerted, periodStartedAt := budget.alertedThresholds, budget.periodStartedAt;
      reset := periodStartedAt < bounds.start;
      if reset { alerted, periodStartedAt := [], bounds.start; }
      var effectiveEnd := if bounds.end < now then bounds.end else now;
      var spend := SumSpend(costs, budget.tenantId, bounds.start, effectiveEnd);
      var pct := if budget.capUsd > 0.0 then spend / budget.capUsd * 100.0 else 0.0;
      var newlyCrossed := Crossed(pct, budget.alertThresholds, alerted);
      assert newlyCrossed == Fired(budget, now, costs);
      delivered, threw := 0, false;
      if |newlyCrossed| > 0 {
        delivered := SendAlerts(budget, newlyCrossed, delivers);
        alerted := alerted + newlyCrossed;
      } else {
        NoEmails(budget, delivers);
        assert alerted + newlyCrossed == alerted;
      }
      if |newlyCrossed| > 0 || reset {
        threw := updateFails;
        if !threw { UpdateRow(at, alerted, periodStartedAt); }
      }
    }

    /** One cycle. `failing` is the row whose update throws, if it comes to be updated: the cycle
        ends there, the emails of that row already sent, and no statistics are returned. */
    method RunBudgetAlertsCycle(now: int, costs: seq<Cost>, delivers: Email -> bool, failing: Option<nat>)
        returns (stats: Option<Stats>)
      modifies this
      ensures var rows := old(budgets);
              match DiesAt(rows, now, costs, failing)
              case None =>
                budgets == AllAfter(rows, now, costs) && outbox == old(outbox) + AllEmails(rows, now, costs)
                && stats == Some(Stats(|rows|, Delivered(AllEmails(rows, now, costs), delivers), AllResets(rows, now)))
              case Some(d) =>
                budgets == PartlyAfter(rows, d, now, costs)
                && outbox == old(outbox) + AllEmails(rows[..d + 1], now, costs) && stats.None?
    {
      hide AllAfter, PartlyAfter, AfterCycle, AllEmails, Emails, Fired, AllResets, Resets, Delivered, UpdateDue, DiesAt;
      ghost var rows := budgets;
      ghost var dies := DiesAt(rows, now, costs, failing);
      NoneVisited(rows, now, costs, delivers);
      var alertsFired, periodsReset := 0, 0;
      for i := 0 to |budgets|
        invariant |budgets| == |rows| && budgets == PartlyAfter(rows, i, now, costs)
        invariant outbox == old(outbox) + AllEmails(rows[..i], now, costs)
        invariant alertsFired == Delivered(AllEmails(rows[..i], now, costs), delivers)
        invariant periodsReset == AllResets(rows[..i], now)
        invariant dies.None? || dies.value >= i
      {
        OneMoreVisited(rows, i, now, costs, delivers);
        DiesHereIff(rows, i, now, costs, failing);
        var delivered, reset, threw := VisitBudget(i, now, costs, delivers, failing == Some(i));
        if threw {
          return None;
        }
        alertsFired := alertsFired + delivered;
        if reset { periodsReset := periodsReset + 1; }
      }
      AllVisited(rows, now, costs);
      stats := Some(Stats(|budgets|, alertsFired, periodsReset));
    }

    /** The hot-path gate: the spend reported, and whether it has reached the cap. */
    method CheckBudgetHardStop(tenantId: string, now: int, costs: seq<Cost>) returns (blocked: bool, spend: Option<real>)
      requires OnePerTenant(budgets)
      ensures (exists k :: 0 <= k < |budgets| && budgets[k].tenantId == tenantId && budgets[k].hardStop) <==> spend.Some?
      ensures forall k :: 0 <= k < |budgets| && budgets[k].tenantId == tenantId ==>
                (blocked <==> budgets[k].hardStop && SpendAt(budgets[k], now, costs) >= budgets[k].capUsd)
                && (budgets[k].hardStop ==> spend == Some(SpendAt(budgets[k], now, costs)))
      ensures spend.None? ==> !blocked
    {
      hide SpendAt;
      blocked, spend := false, None;
      for i := 0 to |budgets|
        invariant !blocked && spend.None? && forall k :: 0 <= k < i ==> budgets[k].tenantId != tenantId
      {
        if budgets[i].tenantId == tenantId {
          if budgets[i].hardStop {
            var total := SpendAt(budgets[i], now, costs);
            blocked, spend := !(total < budgets[i].capUsd), Some(total);
          }
          return;
        }
      }
    }
  }

  lemma NothingSent(tenantId: string, threshold: real, recipients: seq<string>, delivers: Email -> bool)
    ensures To(tenantId, threshold, recipients[..0]) == [] && Delivered([], delivers) == 0
  {
  }

  lemma OneMoreSent(tenantId: string, threshold: real, recipients: seq<string>, r: nat, delivers: Email -> bool)
    requires r < |recipients|
    ensures var sent, email := To(tenantId, threshold, recipients[..r]), Email(tenantId, threshold, recipients[r]);
            To(tenantId, threshold, recipients[..r + 1]) == sent + [email]
            && Delivered(sent + [email], delivers) == Delivered(sent, delivers) + if delivers(email) then 1 else 0
  {
    var sent, email := To(tenantId, threshold, recipients[..r]), Email(tenantId, threshold, recipients[r]);
    assert recipients[..r + 1][..r] == recipients[..r];
    assert (sent + [email])[..|sent|] == sent;
  }

  lemma DiesHereIff(rows: seq<Budget>, i: nat, now: int, costs: seq<Cost>, failing: Option<nat>)
    requires i < |rows|
    ensures DiesAt(rows, now, costs, failing) == Some(i) <==> failing == Some(i) && UpdateDue(rows[i], now, costs)
  {
    hide UpdateDue;
  }

  lemma NoneVisited(rows: seq<Budget>, now: int, costs: seq<Cost>, delivers: Email -> bool)
    ensures PartlyAfter(rows, 0, now, costs) == rows
    ensures AllEmails(rows[..0], now, costs) == [] && Delivered([], delivers) == 0 && AllResets(rows[..0], now) == 0
  {
  }

  lemma AllVisited(rows: seq<Budget>, now: int, costs: seq<Cost>)
    ensures PartlyAfter(rows, |rows|, now, costs) == AllAfter(rows, now, costs) && rows[..|rows|] == rows
  {
    hide AfterCycle;
    assert rows[..|rows|] == rows;
  }

  lemma OneMoreVisited(rows: seq<Budget>, i: nat, now: int, costs: seq<Cost>, delivers: Email -> bool)
    requires i < |rows|
    ensures var part := PartlyAfter(rows, i, now, costs);
            |part| == |rows| && part[i] == rows[i]
            && PartlyAfter(rows, i + 1, now, costs) == part[i := AfterCycle(rows[i], now, costs)]
    ensures var before, sent := AllEmails(rows[..i], now, costs), Emails(rows[i], Fired(rows[i], now, costs));
            AllEmails(rows[..i + 1], now, costs) == before + sent
            && Delivered(before + sent, delivers) == Delivered(before, delivers) + Delivered(sent, delivers)
    ensures AllResets(rows[..i + 1], now) == AllResets(rows[..i], now) + if Resets(rows[i], now) then 1 else 0
  {
    hide AfterCycle, Emails, Fired, Resets, Delivered;
    assert rows[..i + 1][..i] == rows[..i];
    DeliveredSum(AllEmails(rows[..i], now, costs), Emails(rows[i], Fired(rows[i], now, costs)), delivers);
  }

  lemma NoEmails(b: Budget, delivers: Email -> bool)
    ensures Emails(b, []) == [] && Delivered([], delivers) == 0
  {
  }

  // ---------------------------------------------------------------- runs of one budget

  /** A scheduler cycle: when it ran, what the cost log held, and whether the row's update went
      through; a cycle can die after alerting and before it. */
  datatype Cycle = Cycle(now: int, costs: seq<Cost>, completes: bool)

  function After(b: Budget, cycles: seq<Cycle>): Budget {
    if cycles == [] then b
    else
      var before, last := After(b, cycles[..|cycles| - 1]), cycles[|cycles| - 1];
      if last.completes then AfterCycle(before, last.now, last.costs) else before
  }

  /** What the k-th cycle of a run alerts. */
  function FiredAt(b: Budget, cycles: seq<Cycle>, k: nat): seq<real>
    requires k < |cycles|
  {
    Fired(After(b, cycles[..k]), cycles[k].now, cycles[k].costs)
  }

  /** A non-decreasing clock, outside the years Date.UTC misreads. */
  ghost predicate Clock(cycles: seq<Cycle>) {
    (forall i :: 0 <= i < |cycles| ==> !TwoDigit(cycles[i].now))
    && forall i, j :: 0 <= i < j < |cycles| ==> cycles[i].now <= cycles[j].now
  }

  /** A row whose stored period is not ahead of the clock, as both the insert and the update write it. */
  ghost predicate NotAhead(b: Budget, cycles: seq<Cycle>) {
    forall i :: 0 <= i < |cycles| ==> b.periodStartedAt <= PeriodBounds(cycles[i].now, b.period).start
  }

  lemma {:induction false} FixedParts(b: Budget, cycles: seq<Cycle>)
    ensures var r := After(b, cycles);
            r == b.(alertedThresholds := r.alertedThresholds, periodStartedAt := r.periodStartedAt)
  {
    hide Fired, Alerted, Resets;
    if cycles != [] { FixedParts(b, cycles[..|cycles| - 1]); }
  }

  lemma Shorter(b: Budget, cycles: seq<Cycle>)
    requires Clock(cycles) && NotAhead(b, cycles) && cycles != []
    ensures var n := |cycles| - 1;
            Clock(cycles[..n]) && NotAhead(b, cycles[..n]) && !TwoDigit(cycles[n].now)
            && b.periodStartedAt <= PeriodBounds(cycles[n].now, b.period).start
            && (n > 0 ==> cycles[n - 1].now <= cycles[n].now && !TwoDigit(cycles[n - 1].now))
  {
    hide PeriodBounds, TwoDigit;
  }

  /** The stored period is never ahead of the last cycle's, and is that period once it completes. */
  lemma {:induction false} StoredPeriod(b: Budget, cycles: seq<Cycle>)
    requires Clock(cycles) && NotAhead(b, cycles) && cycles != []
    ensures var last := cycles[|cycles| - 1];
            var stored := After(b, cycles).periodStartedAt;
            stored <= PeriodBounds(last.now, b.period).start
            && (last.completes ==> stored == PeriodBounds(last.now, b.period).start)
  {
    hide Fired, PeriodBounds, TwoDigit, Alerted, Clock, NotAhead;
    var n := |cycles| - 1;
    FixedParts(b, cycles[..n]);
    Shorter(b, cycles);
    if n > 0 {
      StoredPeriod(b, cycles[..n]);
      StartsInOrder(cycles[n - 1].now, cycles[n].now, b.period);
    }
  }

  /** Within a period nothing a completed cycle alerted is forgotten. */
  lemma {:induction false} AlertedStays(b: Budget, cycles: seq<Cycle>, j: nat, k: nat, t: real)
    requires Clock(cycles) && NotAhead(b, cycles) && j < k < |cycles| && cycles[j].completes
    requires PeriodBounds(cycles[j].now, b.period) == PeriodBounds(cycles[k].now, b.period)
    requires t in FiredAt(b, cycles, j)
    ensures var row := After(b, cycles[..k]);
            t in row.alertedThresholds && row.periodStartedAt == PeriodBounds(cycles[k].now, b.period).start
            && !Resets(row, cycles[k].now)
    decreases k
  {
    hide Fired, PeriodBounds, TwoDigit;
    var p := k - 1;
    assert cycles[..k][..p] == cycles[..p];
    FixedParts(b, cycles[..k]);
    if j == p {
      StoredPeriod(b, cycles[..k]);
    } else {
      SamePeriod(cycles[j].now, cycles[p].now, cycles[k].now, b.period);
      AlertedStays(b, cycles, j, p, t);
    }
  }

  lemma SamePeriod(t: int, u: int, v: int, period: Period)
    requires t <= u <= v && !TwoDigit(t) && !TwoDigit(v) && PeriodBounds(t, period) == PeriodBounds(v, period)
    ensures PeriodBounds(u, period) == PeriodBounds(t, period)
  {
    hide PeriodBounds, TwoDigit;
    InOwnPeriodIff(t, period);
    InOwnPeriodIff(v, period);
    PeriodsTile(t, u, period);
  }

  /** Once a cycle completes, a threshold it fired does not fire again in the period; within a cycle
      thresholds fire in ascending order. */
  lemma FiresAtMostOncePerPeriod(b: Budget, cycles: seq<Cycle>, j: nat, k: nat, t: real)
    requires Distinct(b.alertThresholds) && Clock(cycles) && NotAhead(b, cycles) && j < k < |cycles|
    requires PeriodBounds(cycles[j].now, b.period) == PeriodBounds(cycles[k].now, b.period)
    ensures cycles[j].completes && t in FiredAt(b, cycles, j) ==> t !in FiredAt(b, cycles, k)
    ensures Ascending(FiredAt(b, cycles, k))
  {
    hide PeriodBounds, Crossed;
    FixedParts(b, cycles[..k]);
    var row := After(b, cycles[..k]);
    CrossedFacts(PctAt(row, cycles[k].now, cycles[k].costs), row.alertThresholds, Alerted(row, cycles[k].now));
    if cycles[j].completes && t in FiredAt(b, cycles, j) { AlertedStays(b, cycles, j, k, t); }
  }

  // ---------------------------------------------------------------- what is alerted

  /** Costs are only ever added, and never negative. */
  ghost predicate AppendOnly(cycles: seq<Cycle>) {
    (forall i :: 0 <= i < |cycles| ==> forall c :: c in cycles[i].costs ==> c.cost >= 0.0)
    && forall i :: 0 < i < |cycles| ==> cycles[i - 1].costs <= cycles[i].costs
  }

  lemma {:induction false} SpendGrows(a: seq<Cost>, b: seq<Cost>, tenantId: string, start: int, end: int, end': int)
    requires a <= b && end <= end' && forall c :: c in b ==> c.cost >= 0.0
    ensures SumSpend(a, tenantId, start, end) <= SumSpend(b, tenantId, start, end')
    decreases |b|
  {
    if b != [] {
      var n := |b| - 1;
      assert b[n] in b;
      if |a| == |b| { SpendGrows(a[..n], b[..n], tenantId, start, end, end'); }
      else { SpendGrows(a, b[..n], tenantId, start, end, end'); }
    }
  }

  lemma RatioGrows(x: real, y: real, cap: real)
    requires x <= y && cap > 0.0
    ensures x / cap * 100.0 <= y / cap * 100.0
  {
    var p, q := x / cap, y / cap;
    assert p * cap == x && q * cap == y;
    CancelFactor(p, q, cap);
  }

  /** Within a period the percentage never falls. */
  lemma PctGrows(b: Budget, a: Cycle, c: Cycle)
    requires a.now <= c.now && a.costs <= c.costs && forall x :: x in c.costs ==> x.cost >= 0.0
    requires PeriodBounds(a.now, b.period) == PeriodBounds(c.now, b.period)
    ensures PctAt(b, a.now, a.costs) <= PctAt(b, c.now, c.costs)
  {
    hide PeriodBounds, SumSpend;
    EndIsAhead(a.now, b.period);
    EndIsAhead(c.now, b.period);
    SpendGrows(a.costs, c.costs, b.tenantId, PeriodBounds(a.now, b.period).start, a.now, c.now);
    if b.capUsd > 0.0 { RatioGrows(SpendAt(b, a.now, a.costs), SpendAt(b, c.now, c.costs), b.capUsd); }
  }

  ghost predicate UpToDate(b: Budget, row: Budget, c: Cycle) {
    forall t :: t in row.alertedThresholds <==> t in b.alertThresholds && PctAt(b, c.now, c.costs) >= t
  }

  /** Nothing alerted in the current period is above the current percentage. */
  ghost predicate Reached(b: Budget, row: Budget, c: Cycle) {
    row.periodStartedAt <= PeriodBounds(c.now, b.period).start
    && (row.periodStartedAt == PeriodBounds(c.now, b.period).start ==>
          forall t :: t in row.alertedThresholds ==> t in b.alertThresholds && PctAt(b, c.now, c.costs) >= t)
  }

  lemma ReachedLater(b: Budget, row: Budget, prev: Cycle, last: Cycle)
    requires Reached(b, row, prev) && !TwoDigit(prev.now) && !TwoDigit(last.now) && prev.now <= last.now
    requires prev.costs <= last.costs && forall x :: x in last.costs ==> x.cost >= 0.0
    ensures Reached(b, row, last)
  {
    hide PeriodBounds, PctAt, TwoDigit;
    StartsInOrder(prev.now, last.now, b.period);
    if PeriodBounds(prev.now, b.period).start == PeriodBounds(last.now, b.period).start {
      SameStart(prev.now, last.now, b.period);
      PctGrows(b, prev, last);
    }
  }

  /** A completed cycle leaves exactly the thresholds at or below its percentage alerted. */
  lemma CompletedCycle(b: Budget, row: Budget, c: Cycle)
    requires Distinct(b.alertThresholds) && Reached(b, row, c)
    requires row == b.(alertedThresholds := row.alertedThresholds, periodStartedAt := row.periodStartedAt)
    ensures UpToDate(b, AfterCycle(row, c.now, c.costs), c) && Reached(b, AfterCycle(row, c.now, c.costs), c)
  {
    hide PeriodBounds, Crossed, SpendAt;
    CrossedFacts(PctAt(b, c.now, c.costs), b.alertThresholds, Alerted(row, c.now));
    SamePct(b, row, c);
  }

  lemma {:induction false} RunReached(b: Budget, cycles: seq<Cycle>)
    requires Distinct(b.alertThresholds) && b.alertedThresholds == []
    requires Clock(cycles) && NotAhead(b, cycles) && AppendOnly(cycles) && cycles != []
    ensures var last := cycles[|cycles| - 1];
            Reached(b, After(b, cycles), last) && (last.completes ==> UpToDate(b, After(b, cycles), last))
  {
    hide PeriodBounds, Reached, UpToDate, AfterCycle, TwoDigit;
    var n := |cycles| - 1;
    var last := cycles[n];
    var row := After(b, cycles[..n]);
    FixedParts(b, cycles[..n]);
    if n > 0 {
      RunReached(b, cycles[..n]);
      ReachedLater(b, row, cycles[n - 1], last);
    } else {
      StartReached(b, cycles);
    }
    if last.completes { CompletedCycle(b, row, last); }
  }

  lemma StartReached(b: Budget, cycles: seq<Cycle>)
    requires b.alertedThresholds == [] && NotAhead(b, cycles) && cycles != []
    ensures Reached(b, b, cycles[0])
  {
  }

  /** After every completed cycle the alerted thresholds are exactly those at or below the current
      percentage, for a budget that starts with none, whatever cycles died before. */
  lemma AlertedIsExact(b: Budget, cycles: seq<Cycle>)
    requires Distinct(b.alertThresholds) && b.alertedThresholds == []
    requires Clock(cycles) && NotAhead(b, cycles) && AppendOnly(cycles)
    requires cycles != [] && cycles[|cycles| - 1].completes
    ensures UpToDate(b, After(b, cycles), cycles[|cycles| - 1])
  {
    RunReached(b, cycles);
  }

  /** As long as no cycle completes, a threshold that fired fires again. */
  lemma {:induction false} KeepsFiring(b: Budget, cycles: seq<Cycle>, j: nat, k: nat, t: real)
    requires Distinct(b.alertThresholds) && Clock(cycles) && NotAhead(b, cycles) && AppendOnly(cycles)
    requires j < k < |cycles| && PeriodBounds(cycles[j].now, b.period) == PeriodBounds(cycles[k].now, b.period)
    requires t in FiredAt(b, cycles, j) && forall m :: j <= m < k ==> !cycles[m].completes
    ensures t in FiredAt(b, cycles, k)
    decreases k
  {
    hide PeriodBounds, Crossed, TwoDigit, PctAt, AfterCycle;
    var p := k - 1;
    if j < p {
      SamePeriod(cycles[j].now, cycles[p].now, cycles[k].now, b.period);
      KeepsFiring(b, cycles, j, p, t);
    }
    var row, now, next := After(b, cycles[..p]), cycles[p], cycles[k];
    assert cycles[..k][..p] == cycles[..p];
    FixedParts(b, cycles[..p]);
    CrossedFacts(PctAt(row, now.now, now.costs), row.alertThresholds, Alerted(row, now.now));
    CrossedFacts(PctAt(row, next.now, next.costs), row.alertThresholds, Alerted(row, next.now));
    PctGrows(row, now, next);
  }

  /** A threshold fires again in a later cycle of the period exactly when every cycle from the one
      that fired it up to then died before its row update. */
  lemma FiresAgainIff(b: Budget, cycles: seq<Cycle>, j: nat, k: nat, t: real)
    requires Distinct(b.alertThresholds) && Clock(cycles) && NotAhead(b, cycles) && AppendOnly(cycles)
    requires j < k < |cycles| && PeriodBounds(cycles[j].now, b.period) == PeriodBounds(cycles[k].now, b.period)
    requires t in FiredAt(b, cycles, j)
    ensures t in FiredAt(b, cycles, k) <==> forall m :: j <= m < k ==> !cycles[m].completes
  {
    hide PeriodBounds, FiredAt, TwoDigit;
    if forall m :: j <= m < k ==> !cycles[m].completes {
      KeepsFiring(b, cycles, j, k, t);
    } else {
      var m := FirstCompleted(cycles, j, k);
      SamePeriod(cycles[j].now, cycles[m].now, cycles[k].now, b.period);
      if j < m { KeepsFiring(b, cycles, j, m, t); }
      FiresAtMostOncePerPeriod(b, cycles, m, k, t);
    }
  }

  lemma {:induction false} FirstCompleted(cycles: seq<Cycle>, j: nat, k: nat) returns (first: nat)
    requires j < k <= |cycles| && exists m :: j <= m < k && cycles[m].completes
    ensures j <= first < k && cycles[first].completes && forall m :: j <= m < first ==> !cycles[m].completes
    decreases k - j
  {
    if cycles[j].completes { first := j; } else { first := FirstCompleted(cycles, j + 1, k); }
  }

  lemma SamePct(b: Budget, row: Budget, c: Cycle)
    requires row == b.(alertedThresholds := row.alertedThresholds, periodStartedAt := row.periodStartedAt)
    ensures PctAt(row, c.now, c.costs) == PctAt(b, c.now, c.costs)
  {
  }

  /** Periods with the same start are the same period. */
  lemma SameStart(t: int, u: int, period: Period)
    requires t <= u && !TwoDigit(t) && !TwoDigit(u)
    requires PeriodBounds(t, period).start == PeriodBounds(u, period).start
    ensures PeriodBounds(t, period) == PeriodBounds(u, period)
  {
    hide PeriodBounds, TwoDigit;
    InOwnPeriodIff(t, period);
    InOwnPeriodIff(u, period);
    PeriodsTile(u, t, period);
  }
}
