/** Whose spend a budget is held to, what fires on it and who is told (billing/budget-alerts.ts). */
module BudgetSpend {
  import opened Arithmetic
  import opened Sequences
  import opened Calendar
  import opened BudgetAlerts
  import opened Spend

  // ---------------------------------------------------------------- whose spend

  /** One more row in the log, wherever it stands, adds its cost exactly when it is the tenant's own
      and dated in the range. */
  lemma {:induction false} OneMoreRow(costs: seq<Cost>, at: nat, c: Cost, tenantId: string, start: int, end: int)
    requires at <= |costs|
    ensures SumSpend(costs[..at] + [c] + costs[at..], tenantId, start, end)
            == SumSpend(costs, tenantId, start, end)
               + if c.tenantId == tenantId && start <= c.createdAt < end then c.cost else 0.0
  {
    var more := costs[..at] + [c] + costs[at..];
    var n := |costs|;
    if at == n {
      assert more[..n] == costs;
    } else {
      var front := costs[..n - 1];
      assert more[..n] == front[..at] + [c] + front[at..];
      OneMoreRow(front, at, c, tenantId, start, end);
    }
  }

  /** The tenant's rows of the log, as dated amounts. */
  function OwnRows(costs: seq<Cost>, tenantId: string): seq<DailyCost> {
    if costs == [] then []
    else
      var c := costs[0];
      (if c.tenantId == tenantId then [DailyCost(c.createdAt, c.cost)] else []) + OwnRows(costs[1..], tenantId)
  }

  lemma {:induction false} OwnRowsSnoc(costs: seq<Cost>, c: Cost, tenantId: string)
    ensures OwnRows(costs + [c], tenantId)
            == OwnRows(costs, tenantId) + if c.tenantId == tenantId then [DailyCost(c.createdAt, c.cost)] else []
  {
    if costs == [] {
      assert costs + [c] == [c] && [c][1..] == [];
    } else {
      assert (costs + [c])[1..] == costs[1..] + [c] && (costs + [c])[0] == costs[0];
      OwnRowsSnoc(costs[1..], c, tenantId);
    }
  }

  lemma {:induction false} SpendIsOwn(costs: seq<Cost>, tenantId: string, start: int, end: int)
    ensures SumSpend(costs, tenantId, start, end) == SumIn(OwnRows(costs, tenantId), start, end)
  {
    if costs == [] {
      assert OwnRows(costs, tenantId) == [] && SumIn([], start, end) == 0.0;
    } else {
      hide SumIn, OwnRows;
      var front, last := costs[..|costs| - 1], costs[|costs| - 1];
      assert costs == front + [last];
      SpendIsOwn(front, tenantId, start, end);
      OwnRowsSnoc(front, last, tenantId);
      var own := OwnRows(front, tenantId);
      SumSnoc(own, DailyCost(last.createdAt, last.cost), start, end);
      assert own + [] == own;
    }
  }

  /** A budget is held to its own tenant's rows from the start of the period up to now. */
  lemma SpendAtIsOwn(b: Budget, now: int, costs: seq<Cost>)
    ensures SpendAt(b, now, costs) == SumIn(OwnRows(costs, b.tenantId), PeriodBounds(now, b.period).start, now)
  {
    hide PeriodBounds, SumSpend;
    EndIsAhead(now, b.period);
    SpendIsOwn(costs, b.tenantId, PeriodBounds(now, b.period).start, now);
  }

  /** A row of another tenant, or dated outside the period so far, changes neither the hard-stop
      verdict nor what fires; one of the tenant's own inside raises the spend by its cost. */
  lemma OnlyOwnRowsCount(b: Budget, now: int, costs: seq<Cost>, at: nat, c: Cost)
    requires at <= |costs|
    ensures var more := costs[..at] + [c] + costs[at..];
            if c.tenantId == b.tenantId && PeriodBounds(now, b.period).start <= c.createdAt < now then
              SpendAt(b, now, more) == SpendAt(b, now, costs) + c.cost
            else
              SpendAt(b, now, more) == SpendAt(b, now, costs)
              && (SpendAt(b, now, more) >= b.capUsd <==> SpendAt(b, now, costs) >= b.capUsd)
              && Fired(b, now, more) == Fired(b, now, costs)
  {
    hide PeriodBounds, SumSpend, Crossed;
    EndIsAhead(now, b.period);
    OneMoreRow(costs, at, c, b.tenantId, PeriodBounds(now, b.period).start, now);
  }

  // ---------------------------------------------------------------- what fires

  lemma PercentIff(spend: real, cap: real, t: real)
    requires cap > 0.0
    ensures spend / cap * 100.0 >= t <==> spend * 100.0 >= t * cap
  {
    var ratio := spend / cap;
    assert ratio * cap == spend;
    assert ratio * 100.0 * cap == spend * 100.0;
    if ratio * 100.0 >= t {
      assert ratio * 100.0 * cap >= t * cap;
    } else {
      CancelLess(ratio * 100.0, t, cap);
    }
  }

  lemma CancelLess(x: real, y: real, c: real)
    requires c > 0.0 && x < y
    ensures x * c < y * c
  {
  }

  /** A cycle fires exactly the budget's thresholds that the tenant's spend has reached, in percent of
      a positive cap, and that were not yet alerted this period. */
  lemma FiredIff(b: Budget, now: int, costs: seq<Cost>, t: real)
    requires Distinct(b.alertThresholds)
    ensures var start := PeriodBounds(now, b.period).start;
            var spend := SumIn(OwnRows(costs, b.tenantId), start, now);
            t in Fired(b, now, costs)
            <==> t in b.alertThresholds && (b.periodStartedAt < start || t !in b.alertedThresholds)
                 && (if b.capUsd > 0.0 then spend * 100.0 >= t * b.capUsd else t <= 0.0)
  {
    SpendAtIsOwn(b, now, costs);
    hide PeriodBounds, SpendAt, Crossed;
    CrossedFacts(PctAt(b, now, costs), b.alertThresholds, Alerted(b, now));
    if b.capUsd > 0.0 { PercentIff(SpendAt(b, now, costs), b.capUsd, t); }
  }

  // ---------------------------------------------------------------- who is told

  lemma {:induction false} ToEach(tenantId: string, threshold: real, recipients: seq<string>)
    ensures var sent := To(tenantId, threshold, recipients);
            |sent| == |recipients| && forall j :: 0 <= j < |recipients| ==> sent[j] == Email(tenantId, threshold, recipients[j])
  {
    if recipients != [] { ToEach(tenantId, threshold, recipients[..|recipients| - 1]); }
  }

  /** Every recipient hears of every threshold, under the budget's own tenant and in that order. */
  lemma {:induction false} EveryoneIsTold(b: Budget, thresholds: seq<real>, i: nat, j: nat)
    requires i < |thresholds| && j < |b.alertEmails|
    ensures var n := |b.alertEmails|;
            |Emails(b, thresholds)| == |thresholds| * n && i * n + j < |thresholds| * n
            && Emails(b, thresholds)[i * n + j] == Email(b.tenantId, thresholds[i], b.alertEmails[j])
  {
    hide To;
    var n, m := |b.alertEmails|, |thresholds| - 1;
    EmailCount(b, thresholds);
    EmailCount(b, thresholds[..m]);
    RowBefore(i, j, n, m);
    ToEach(b.tenantId, thresholds[m], b.alertEmails);
    if i < m { EveryoneIsTold(b, thresholds[..m], i, j); }
  }

  lemma RowBefore(i: nat, j: nat, n: nat, m: nat)
    requires i <= m && j < n
    ensures i < m ==> i * n + j < m * n
    ensures i * n + j < (m + 1) * n
  {
    MulNext(i, n);
    MulNext(m, n);
    MulGrows(i, m, n);
    if i < m { MulGrows(i + 1, m, n); }
  }

  lemma MulNext(a: nat, n: nat)
    ensures (a + 1) * n == a * n + n
  {
  }

  lemma MulGrows(a: nat, b: nat, n: nat)
    requires a <= b
    ensures a * n <= b * n
    decreases b - a
  {
    if a < b {
      MulGrows(a + 1, b, n);
      MulNext(a, n);
    }
  }

  lemma {:induction false} EmailCount(b: Budget, thresholds: seq<real>)
    ensures |Emails(b, thresholds)| == |thresholds| * |b.alertEmails|
  {
    if thresholds != [] {
      var m := |thresholds| - 1;
      hide To;
      EmailCount(b, thresholds[..m]);
      ToEach(b.tenantId, thresholds[m], b.alertEmails);
      MulNext(m, |b.alertEmails|);
    }
  }

  /** Counting deliveries: all of the emails exactly when none failed. */
  lemma {:induction false} AllDeliveredIff(emails: seq<Email>, delivers: Email -> bool)
    ensures Delivered(emails, delivers) <= |emails|
    ensures Delivered(emails, delivers) == |emails| <==> forall k :: 0 <= k < |emails| ==> delivers(emails[k])
  {
    if emails != [] { AllDeliveredIff(emails[..|emails| - 1], delivers); }
  }
}
