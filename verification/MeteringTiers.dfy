/** Whom a reporting cycle bills, for how much, and what it sends (billing/usage.ts, TIER_QUOTAS,
    calculateOverage, runUsageReportCycle), in plain numbers. */
module MeteringTiers {
  import opened Options
  import opened Metering
  import opened MeteringCycle
  import Protocol = MeteringProtocol
  import Exactness = MeteringExactness

  // ---------------------------------------------------------------- counting by position

  /** The log positions of the tenant's requests at or after `start`. */
  function Since(log: seq<Request>, tenant: string, start: int): set<nat> {
    set i: nat | i < |log| && log[i].tenant == tenant && start <= log[i].at
  }

  /** Those before `end` as well. */
  function Within(log: seq<Request>, tenant: string, start: int, end: int): set<nat> {
    set i: nat | i < |log| && log[i].tenant == tenant && start <= log[i].at && log[i].at < end
  }

  lemma SinceSnoc(log: seq<Request>, tenant: string, start: int)
    requires log != []
    ensures var n, last := |log| - 1, log[|log| - 1];
            |Since(log, tenant, start)|
            == |Since(log[..n], tenant, start)| + if last.tenant == tenant && start <= last.at then 1 else 0
  {
    var n: nat := |log| - 1;
    var before, after := Since(log[..n], tenant, start), Since(log, tenant, start);
    assert n !in before;
    forall i: nat ensures i in before <==> i in after && i != n {
      assert i < n ==> log[..n][i] == log[i];
    }
    if n in after { assert after == before + {n}; } else { assert after == before; }
  }

  lemma WithinSnoc(log: seq<Request>, tenant: string, start: int, end: int)
    requires log != []
    ensures var n, last := |log| - 1, log[|log| - 1];
            |Within(log, tenant, start, end)|
            == |Within(log[..n], tenant, start, end)| + if last.tenant == tenant && start <= last.at < end then 1 else 0
  {
    var n: nat := |log| - 1;
    var before, after := Within(log[..n], tenant, start, end), Within(log, tenant, start, end);
    assert n !in before;
    if log[n].tenant == tenant && start <= log[n].at < end {
      assert after == before + {n};
    } else {
      assert after == before;
    }
  }

  lemma {:induction false} CountsAreSizes(log: seq<Request>, tenant: string, start: int, end: int)
    ensures CountSince(log, tenant, start) == |Since(log, tenant, start)|
    ensures CountWithin(log, tenant, start, end) == |Within(log, tenant, start, end)|
  {
    if log == [] {
      assert Since(log, tenant, start) == {} && Within(log, tenant, start, end) == {};
    } else {
      hide Since, Within;
      CountsAreSizes(log[..|log| - 1], tenant, start, end);
      SinceSnoc(log, tenant, start);
      WithinSnoc(log, tenant, start, end);
    }
  }

  // ---------------------------------------------------------------- what a visit comes to

  function Larger(a: int, b: int): int { if a >= b then a else b }

  /** One fault-free visit, in terms of the tenant's log positions and a quota given as a number. The
      current row ends at the larger of its old mark and the overage; what Stripe accepts anew is at
      most a flush of the newest stale row, dated one second before that period's end, and then one
      undated event for the rise of the current row, both under the subscription's customer. */
  ghost predicate BilledOver(quota: nat, w: World, w': World, sub: Subscription) {
    var key := Key(sub.id, sub.start);
    var old_, new_ := Exactness.MarkOf(w.reports, key), Exactness.MarkOf(w'.reports, key);
    new_ == Larger(old_, |Since(w.log, sub.tenant, sub.start)| - quota) && w'.log == w.log
    && key in w'.reports && w.meter <= w'.meter
    && (forall i :: |w.meter| <= i < |w'.meter| ==>
          if w'.meter[i].ident.final then FlushEvent(quota, w, sub, w'.meter[i])
          else w'.meter[i] == MeterEvent(Ident(key, new_, false), sub.customer, new_ - old_, None))
    && (new_ > old_ ==> Accepted(w'.meter, Ident(key, new_, false)))
  }

  ghost predicate FlushEvent(quota: nat, w: World, sub: Subscription, e: MeterEvent) {
    var k := e.ident.key;
    k in w.reports && k.sub == sub.id && k.start != sub.start && !w.reports[k].finalized
    && e.customer == sub.customer && e.at == Some(w.reports[k].end - 1)
    && e.ident.target == |Within(w.log, sub.tenant, k.start, w.reports[k].end)| - quota
    && e.value == e.ident.target - w.reports[k].mark
  }

  /** The rollover pass of a fault-free visit leaves the current row and the log alone. */
  lemma FlushFirst(quota: nat, w: World, sub: Subscription, s: Stats)
    requires Keyed(w.reports) && Quota(sub.tier) == quota
    ensures var w1 := RolloverPass(w, sub, Completes, s).world;
            RolloverPass(w, sub, Completes, s).go && Keyed(w1.reports) && w1.log == w.log
            && w1.reports.Keys == w.reports.Keys && w.meter <= w1.meter
            && (forall k :: k in w.reports ==> w1.reports[k].tenant == w.reports[k].tenant)
            && Exactness.MarkOf(w1.reports, Key(sub.id, sub.start)) == Exactness.MarkOf(w.reports, Key(sub.id, sub.start))
            && forall i :: |w.meter| <= i < |w1.meter| ==>
                 w1.meter[i].ident.final && FlushEvent(quota, w, sub, w1.meter[i])
  {
    hide CountWithin;
    var found := FindStale(w.reports, sub);
    if found.Some? {
      var row := w.reports[found.value];
      CountsAreSizes(w.log, sub.tenant, row.key.start, row.end);
    }
  }

  lemma ReportNext(quota: nat, w: World, sub: Subscription, s: Stats)
    requires Keyed(w.reports) && Quota(sub.tier) == quota
    requires Key(sub.id, sub.start) in w.reports || !Protocol.InsertClashes(w.reports, sub)
    ensures var w', key := CurrentPass(w, sub, Completes, s).world, Key(sub.id, sub.start);
            var old_, new_ := Exactness.MarkOf(w.reports, key), Exactness.MarkOf(w'.reports, key);
            new_ == Larger(old_, |Since(w.log, sub.tenant, sub.start)| - quota) && w'.log == w.log
            && key in w'.reports && w.meter <= w'.meter
            && (forall i :: |w.meter| <= i < |w'.meter| ==>
                  w'.meter[i] == MeterEvent(Ident(key, new_, false), sub.customer, new_ - old_, None))
            && (new_ > old_ ==> Accepted(w'.meter, Ident(key, new_, false)))
  {
    hide CountSince;
    CountsAreSizes(w.log, sub.tenant, sub.start, 0);
    var key := Key(sub.id, sub.start);
    var w1 := w.(reports := WithCurrentRow(w.reports, sub));
    var row, overage := w1.reports[key], CurrentOverage(w, sub);
    if overage > row.mark {
      var e := EventFor(sub, row, overage, false);
      if !Has(w.meter, e.ident) { assert (w.meter + [e])[|w.meter|].ident == e.ident; }
    }
  }

  lemma MeteredVisitBills(quota: nat, w: World, sub: Subscription, s: Stats)
    requires Metered(sub) && Keyed(w.reports) && Quota(sub.tier) == quota
    requires Key(sub.id, sub.start) in w.reports || !Protocol.InsertClashes(w.reports, sub)
    ensures BilledOver(quota, w, SubscriptionPass(w, sub, Completes, Completes, s).world, sub)
  {
    hide RolloverPass, CurrentPass, Keyed, FlushEvent;
    var s1 := s.(evaluated := s.evaluated + 1);
    var flushed := RolloverPass(w, sub, Completes, s1);
    VisitIsOnward(w, sub, Completes, Completes, s);
    FlushFirst(quota, w, sub, s1);
    ReportNext(quota, flushed.world, sub, flushed.stats);
  }

  /** Whom a cycle bills: pro subscriptions beyond 100,000 requests of the tenant since the period
      began, team subscriptions beyond 500,000, as BilledOver says; any other tier is left entirely
      alone. */
  lemma VisitBillsByTier(w: World, sub: Subscription, s: Stats)
    requires Keyed(w.reports)
    requires Key(sub.id, sub.start) in w.reports || !Protocol.InsertClashes(w.reports, sub)
    ensures var w' := SubscriptionPass(w, sub, Completes, Completes, s).world;
            match sub.tier
            case Pro => BilledOver(100_000, w, w', sub)
            case Team => BilledOver(500_000, w, w', sub)
            case _ => w' == w
  {
    hide RolloverPass, CurrentPass, BilledOver;
    if Metered(sub) { MeteredVisitBills(Quota(sub.tier), w, sub, s); }
  }

  /** A tier outside the pipeline is untouched whatever fails. */
  lemma OtherTiersUntouched(w: World, sub: Subscription, ro: Outcome, co: Outcome, s: Stats)
    requires sub.tier != Pro && sub.tier != Team
    ensures SubscriptionPass(w, sub, ro, co, s).world == w
  {
  }

  /** A cycle only starts on subscriptions that include intelligence and are active, trialing or past due. */
  lemma LaunchSelects(st: Protocol.State, pid: nat, active: seq<Subscription>, sub: Subscription)
    requires Protocol.Step(st, Protocol.Launch(pid, active)) != st && sub in active
    ensures sub.intelligence && (sub.status == Active || sub.status == Trialing || sub.status == PastDue)
  {
    hide Protocol.Next;
  }
}
