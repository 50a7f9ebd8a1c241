/** The data of metered overage billing (billing/usage.ts): tiers and quotas, the request log,
    the usage_reports table, and Stripe's meter with its identifier dedupe. */
module Metering {
  import opened Options

  const OVERAGE_RATE_PER_1K: real := 0.5
  const MAX_SAFE_INTEGER: nat := 9007199254740991

  // ---------------------------------------------------------------- requests and quotas

  /** One row of the requests table; times are whole seconds, as the table stores them. */
  datatype Request = Request(tenant: string, at: int)

  /** Tier names; any other string is billed as free. */
  datatype Tier = Free | Pro | Team | Enterprise | SelfhostEnterprise | Operator | OtherTier(name: string)

  function Quota(tier: Tier): nat {
    match tier
    case Free => 10_000
    case Pro => 100_000
    case Team => 500_000
    case Enterprise | SelfhostEnterprise | Operator => MAX_SAFE_INTEGER
    case OtherTier(_) => 10_000
  }

  function Overage(usage: nat, tier: Tier): nat {
    if usage > Quota(tier) then usage - Quota(tier) else 0
  }

  /** Everything of the tenant since `start`: the current-period count has no upper end. */
  function CountSince(log: seq<Request>, tenant: string, start: int): nat {
    if log == [] then 0
    else
      var last := log[|log| - 1];
      CountSince(log[..|log| - 1], tenant, start)
      + if last.tenant == tenant && start <= last.at then 1 else 0
  }

  /** The tenant's requests in [start, end): the closed-period count. */
  function CountWithin(log: seq<Request>, tenant: string, start: int, end: int): nat {
    if log == [] then 0
    else
      var last := log[|log| - 1];
      CountWithin(log[..|log| - 1], tenant, start, end)
      + if last.tenant == tenant && start <= last.at < end then 1 else 0
  }

  /** While nothing has happened at or after `end`, the two counts are the same number. */
  lemma {:induction false} CountsAgreeBeforeEnd(log: seq<Request>, tenant: string, start: int, end: int)
    requires forall i :: 0 <= i < |log| && log[i].tenant == tenant ==> log[i].at < end
    ensures CountSince(log, tenant, start) == CountWithin(log, tenant, start, end)
  {
    if log != [] {
      CountsAgreeBeforeEnd(log[..|log| - 1], tenant, start, end);
    }
  }

  // ---------------------------------------------------------------- the tables

  datatype Status = Active | Trialing | PastDue | OtherStatus(name: string)

  datatype Subscription = Subscription(
    id: string, customer: string, tenant: string, tier: Tier, status: Status,
    intelligence: bool, start: int, end: int)

  /** The WHERE clause of the cycle's subscription query. */
  predicate Billable(sub: Subscription) {
    sub.intelligence && !sub.status.OtherStatus?
  }

  predicate Metered(sub: Subscription) {
    sub.tier == Pro || sub.tier == Team
  }

  /** usage_reports is unique per subscription and period start. */
  datatype Key = Key(sub: string, start: int)

  datatype Report = Report(
    key: Key, tenant: string, end: int, mark: nat, usd: real, lastEvent: Option<Ident>, finalized: bool)

  type Reports = map<Key, Report>

  /** Rows are filed under their own key. */
  ghost predicate Keyed(reports: Reports) {
    forall k :: k in reports ==> reports[k].key == k
  }

  /** usage:<subscription>:<period start>:<overage>, with ":final" on a rollover flush. */
  datatype Ident = Ident(key: Key, target: nat, final: bool)

  datatype MeterEvent = MeterEvent(ident: Ident, customer: string, value: nat, at: Option<int>)

  /** What Stripe has accepted, oldest first. */
  type Meter = seq<MeterEvent>

  ghost predicate Accepted(meter: Meter, ident: Ident) {
    exists i :: 0 <= i < |meter| && meter[i].ident == ident
  }

  predicate Has(meter: Meter, ident: Ident)
    ensures Has(meter, ident) <==> Accepted(meter, ident)
  {
    meter != [] && (meter[|meter| - 1].ident == ident || Has(meter[..|meter| - 1], ident))
  }

  /** Stripe keeps the first event under an identifier and drops later ones. */
  function Submit(meter: Meter, event: MeterEvent): Meter {
    if Has(meter, event.ident) then meter else meter + [event]
  }

  /** Total accepted for one report row. */
  function Billed(meter: Meter, key: Key): nat {
    if meter == [] then 0
    else
      var e := meter[|meter| - 1];
      Billed(meter[..|meter| - 1], key) + if e.ident.key == key then e.value else 0
  }

  /** Total accepted for one report row under targets at or below `mark`. */
  function BilledUpTo(meter: Meter, key: Key, mark: nat): nat {
    if meter == [] then 0
    else
      var e := meter[|meter| - 1];
      BilledUpTo(meter[..|meter| - 1], key, mark)
      + if e.ident.key == key && e.ident.target <= mark then e.value else 0
  }

  lemma {:induction false} BilledUpToBounds(meter: Meter, key: Key, low: nat, high: nat)
    requires low <= high
    ensures BilledUpTo(meter, key, low) <= BilledUpTo(meter, key, high) <= Billed(meter, key)
  {
    if meter != [] {
      BilledUpToBounds(meter[..|meter| - 1], key, low, high);
    }
  }

  /** One event with a target above `low` adds its whole value to the total up to `high`. */
  lemma {:induction false} EventAbove(meter: Meter, key: Key, low: nat, high: nat, i: nat)
    requires low <= high && i < |meter|
    requires meter[i].ident.key == key && low < meter[i].ident.target <= high
    ensures BilledUpTo(meter, key, high) >= BilledUpTo(meter, key, low) + meter[i].value
  {
    var front := meter[..|meter| - 1];
    if i < |front| {
      EventAbove(front, key, low, high, i);
    } else {
      BilledUpToBounds(front, key, low, high);
    }
  }

  /** Two different events above `low` add both values. */
  lemma {:induction false} TwoEventsAbove(meter: Meter, key: Key, low: nat, high: nat, i: nat, j: nat)
    requires low <= high && i < |meter| && j < |meter| && i != j
    requires meter[i].ident.key == key && low < meter[i].ident.target <= high
    requires meter[j].ident.key == key && low < meter[j].ident.target <= high
    ensures BilledUpTo(meter, key, high) >= BilledUpTo(meter, key, low) + meter[i].value + meter[j].value
  {
    var front := meter[..|meter| - 1];
    if i < |front| && j < |front| {
      TwoEventsAbove(front, key, low, high, i, j);
    } else if i < |front| {
      EventAbove(front, key, low, high, i);
    } else {
      EventAbove(front, key, low, high, j);
    }
  }

  /** Nothing above `mark` has been accepted exactly when the whole bill is at or below it. */
  lemma {:induction false} BilledWhenAllBelow(meter: Meter, key: Key, mark: nat)
    requires forall i :: 0 <= i < |meter| && meter[i].ident.key == key ==> meter[i].ident.target <= mark
    ensures Billed(meter, key) == BilledUpTo(meter, key, mark)
  {
    if meter != [] {
      BilledWhenAllBelow(meter[..|meter| - 1], key, mark);
    }
  }

  lemma BilledAppend(meter: Meter, event: MeterEvent, key: Key, mark: nat)
    ensures Billed(meter + [event], key)
         == Billed(meter, key) + if event.ident.key == key then event.value else 0
    ensures BilledUpTo(meter + [event], key, mark)
         == BilledUpTo(meter, key, mark)
            + if event.ident.key == key && event.ident.target <= mark then event.value else 0
  {
    assert (meter + [event])[..|meter|] == meter;
  }

  // ---------------------------------------------------------------- the atomic operations

  function Usd(count: nat): real {
    count as real / 1000.0 * OVERAGE_RATE_PER_1K
  }

  /** The meter event for `row` having reached overage `target`. In-period pushes carry no
      timestamp; rollover flushes are pinned one second before the period's end. */
  function EventFor(sub: Subscription, row: Report, target: nat, final: bool): MeterEvent
    requires row.mark <= target
  {
    MeterEvent(Ident(row.key, target, final), sub.customer, target - row.mark,
               if final then Some(row.end - 1) else None)
  }

  /** The row after a successful push from snapshot `row` up to `target`. */
  function Advanced(current: Report, row: Report, target: nat, final: bool): Report
    requires row.mark <= target
  {
    current.(mark := target, usd := row.usd + Usd(target - row.mark),
             lastEvent := Some(Ident(row.key, target, final)),
             finalized := final || current.finalized)
  }

  /** UPDATE ... WHERE reported_overage_count = expected: the snapshot's mark must still be there. */
  predicate CasHolds(reports: Reports, row: Report) {
    row.key in reports && reports[row.key].mark == row.mark
  }

  function CasWrite(reports: Reports, row: Report, target: nat, final: bool): Reports
    requires row.mark <= target
  {
    if CasHolds(reports, row)
    then reports[row.key := Advanced(reports[row.key], row, target, final)]
    else reports
  }

  /** The unconditional "nothing left to flush" update. */
  function MarkFinalized(reports: Reports, key: Key): Reports {
    if key in reports then reports[key := reports[key].(finalized := true)] else reports
  }

  predicate Stale(reports: Reports, sub: Subscription, key: Key) {
    key in reports && key.sub == sub.id && key.start != sub.start && !reports[key].finalized
  }

  predicate NewestStale(reports: Reports, sub: Subscription, key: Key) {
    Stale(reports, sub, key)
    && forall k :: k in reports.Keys && Stale(reports, sub, k) ==> k.start <= key.start
  }

  /** Among any stale keys there is one with the latest period start. */
  lemma {:induction false} NewestStaleExists(reports: Reports, sub: Subscription, within: set<Key>, some: Key)
      returns (newest: Key)
    requires within <= reports.Keys && some in within && Stale(reports, sub, some)
    ensures newest in within && Stale(reports, sub, newest)
    ensures forall k :: k in within && Stale(reports, sub, k) ==> k.start <= newest.start
  {
    var rest := within - {some};
    if other :| other in rest && Stale(reports, sub, other) {
      newest := NewestStaleExists(reports, sub, rest, other);
      newest := if some.start <= newest.start then newest else some;
    } else {
      newest := some;
    }
  }

  /** ORDER BY period_start DESC LIMIT 1 over the stale rows. */
  function FindStale(reports: Reports, sub: Subscription): (found: Option<Key>)
    ensures found.Some? ==> NewestStale(reports, sub, found.value)
    ensures found.None? <==> forall k :: k in reports.Keys ==> !Stale(reports, sub, k)
  {
    if k :| k in reports.Keys && Stale(reports, sub, k) then
      assert exists n :: n in reports.Keys && NewestStale(reports, sub, n) by {
        var n := NewestStaleExists(reports, sub, reports.Keys, k);
        assert NewestStale(reports, sub, n);
      }
      var newest :| newest in reports.Keys && NewestStale(reports, sub, newest);
      Some(newest)
    else None
  }
}
