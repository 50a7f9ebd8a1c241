/** Drift analysis (billing/drift.ts, weightsDifferBeyond, computeDriftEvents, providerSpendMix):
    attribution windows after each change of routing weights, and the spend inside them. */
module Drift {
  import opened Options
  import opened Arithmetic
  import opened Sequences
  import opened Ranking
  import opened Calendar
  import opened Spend

  const EPSILON := 0.01
  const LOOKBACK_DAYS := 60

  // ---------------------------------------------------------------- data

  datatype Weights = Weights(quality: real, cost: real, latency: real)

  datatype Snapshot = Snapshot(at: int, weights: Weights)

  datatype Cost = Cost(provider: string, createdAt: int, cost: real)

  /** The request: rows captured in [from - 60 days, to), events from `from`, windows of `windowMs`. */
  datatype Query = Query(from: int, to: int, windowMs: int, now: int)

  datatype MixRow = MixRow(provider: string, costUsd: real, sharePct: real)

  datatype Event = Event(
    fromWeights: Weights, toWeights: Weights, deltas: Weights, start: int, end: int, windowDays: real, mix: seq<MixRow>)

  predicate Differ(a: Weights, b: Weights) {
    Abs(a.quality - b.quality) > EPSILON || Abs(a.cost - b.cost) > EPSILON || Abs(a.latency - b.latency) > EPSILON
  }

  predicate Sorted(s: seq<Snapshot>) { forall i, j :: 0 <= i < j < |s| ==> s[i].at <= s[j].at }

  /** The rows the query selects. */
  function Selected(history: seq<Snapshot>, q: Query): seq<Snapshot> {
    if history == [] then []
    else
      var last := history[|history| - 1];
      Selected(history[..|history| - 1], q)
      + if q.from - LOOKBACK_DAYS * DAY <= last.at < q.to then [last] else []
  }

  // ---------------------------------------------------------------- windows

  /** The first snapshot after `i`, from `k` on, whose weights differ from those of `i`. */
  function NextChange(s: seq<Snapshot>, i: nat, k: nat): (r: Option<nat>)
    requires i < k <= |s|
    ensures r.Some? ==> k <= r.value < |s| && Differ(s[i].weights, s[r.value].weights)
    ensures forall m :: k <= m < (if r.Some? then r.value else |s|) ==> !Differ(s[i].weights, s[m].weights)
    decreases |s| - k
  {
    if k == |s| then None
    else if Differ(s[i].weights, s[k].weights) then Some(k)
    else NextChange(s, i, k + 1)
  }

  function WindowEnd(s: seq<Snapshot>, q: Query, i: nat): int
    requires i < |s|
  {
    var ideal := Min(s[i].at + q.windowMs, q.now);
    match NextChange(s, i, i + 1)
    case Some(k) => Min(ideal, s[k].at)
    case None => ideal
  }

  /** Whether the i-th snapshot is reported. */
  predicate IsEvent(s: seq<Snapshot>, q: Query, i: nat) {
    0 < i < |s| && Differ(s[i - 1].weights, s[i].weights) && s[i].at >= q.from && WindowEnd(s, q, i) > s[i].at
  }

  /** Each weight's change, to four places. */
  function Deltas(from: Weights, to: Weights): Weights {
    Weights(Round4(to.quality - from.quality), Round4(to.cost - from.cost), Round4(to.latency - from.latency))
  }

  function EventAt(s: seq<Snapshot>, q: Query, costs: seq<Cost>, i: nat): Event
    requires 0 < i < |s|
  {
    var from, to, end := s[i - 1].weights, s[i].weights, WindowEnd(s, q, i);
    Event(from, to, Deltas(from, to), s[i].at, end, Round4((end - s[i].at) as real / DAY as real), Mix(costs, s[i].at, end))
  }

  /** The events among the first n snapshots, in order. */
  function EventsTo(s: seq<Snapshot>, q: Query, costs: seq<Cost>, n: nat): seq<Event>
    requires n <= |s|
  {
    if n == 0 then []
    else EventsTo(s, q, costs, n - 1) + if IsEvent(s, q, n - 1) then [EventAt(s, q, costs, n - 1)] else []
  }

  method ComputeDriftEvents(history: seq<Snapshot>, q: Query, costs: seq<Cost>) returns (events: seq<Event>)
    ensures var s := Selected(history, q); events == EventsTo(s, q, costs, |s|)
  {
    hide Mix, Differ, Selected;
    var snapshots := Selected(history, q);
    events := [];
    var i: nat := 1;
    while i < |snapshots|
      invariant 1 <= i && (i <= |snapshots| || (i == 1 && snapshots == []))
      invariant events == EventsTo(snapshots, q, costs, if i <= |snapshots| then i else 0)
    {
      var prev, cur := snapshots[i - 1], snapshots[i];
      i := i + 1;
      if !Differ(prev.weights, cur.weights) { continue; }
      if cur.at < q.from { continue; }
      var windowEndIdeal := cur.at + q.windowMs;
      var nextChange := NextChange(snapshots, i - 1, i);
      var windowEnd := Min(windowEndIdeal, q.now);
      if nextChange.Some? { windowEnd := Min(windowEnd, snapshots[nextChange.value].at); }
      if windowEnd - cur.at <= 0 { continue; }
      var mix := ProviderSpendMix(costs, cur.at, windowEnd);
      var windowDays := Round4((windowEnd - cur.at) as real / DAY as real);
      events := events + [Event(prev.weights, cur.weights, Deltas(prev.weights, cur.weights), cur.at, windowEnd,
                                windowDays, mix)];
    }
  }

  // ---------------------------------------------------------------- spend mix

  function Dated(costs: seq<Cost>): (r: seq<DailyCost>)
    ensures |r| == |costs|
  {
    seq(|costs|, i requires 0 <= i < |costs| => DailyCost(costs[i].createdAt, costs[i].cost))
  }

  /** The spend in [start, end). */
  function SpendIn(costs: seq<Cost>, start: int, end: int): real { SumIn(Dated(costs), start, end) }

  lemma SpendSnoc(front: seq<Cost>, c: Cost, start: int, end: int)
    ensures SpendIn(front + [c], start, end)
            == SpendIn(front, start, end) + if start <= c.createdAt < end then c.cost else 0.0
  {
    assert Dated(front + [c]) == Dated(front) + [DailyCost(c.createdAt, c.cost)];
    assert Dated(front + [c])[..|front|] == Dated(front);
  }

  /** One provider's share of the sum. */
  function SumOf(costs: seq<Cost>, provider: string, start: int, end: int): real {
    if costs == [] then 0.0
    else
      var c := costs[|costs| - 1];
      SumOf(costs[..|costs| - 1], provider, start, end)
      + if start <= c.createdAt < end && c.provider == provider then c.cost else 0.0
  }

  /** The providers with a cost in the window, each once. */
  function Providers(costs: seq<Cost>, start: int, end: int): seq<string> {
    if costs == [] then []
    else
      var c, rest := costs[|costs| - 1], Providers(costs[..|costs| - 1], start, end);
      if start <= c.createdAt < end && c.provider !in rest then rest + [c.provider] else rest
  }

  function Amounts(costs: seq<Cost>, providers: seq<string>, start: int, end: int): (r: seq<real>)
    ensures |r| == |providers|
  {
    seq(|providers|, k requires 0 <= k < |providers| => SumOf(costs, providers[k], start, end))
  }

  function Total(amounts: seq<real>): real {
    if amounts == [] then 0.0 else Total(amounts[..|amounts| - 1]) + amounts[|amounts| - 1]
  }

  function Share(cost: real, total: real): real { if total > 0.0 then Round4(cost / total * 100.0) else 0.0 }

  function RowsFor(providers: seq<string>, amounts: seq<real>): (r: seq<MixRow>)
    requires |amounts| == |providers|
    ensures |r| == |providers|
  {
    seq(|providers|, k requires 0 <= k < |providers| => MixRow(providers[k], amounts[k], Share(amounts[k], Total(amounts))))
  }

  /** GROUP BY provider, then largest spend first. */
  function Mix(costs: seq<Cost>, start: int, end: int): seq<MixRow> {
    var providers := Providers(costs, start, end);
    var amounts := Amounts(costs, providers, start, end);
    Rearrange(RowsFor(providers, amounts), Ranked(amounts))
  }

  method ProviderSpendMix(costs: seq<Cost>, start: int, end: int) returns (mix: seq<MixRow>)
    ensures mix == Mix(costs, start, end)
  {
    hide SumOf, Providers, Share, Ranked;
    var providers := Providers(costs, start, end);
    var amounts := Amounts(costs, providers, start, end);
    var total := 0.0;
    for k := 0 to |amounts|
      invariant total == Total(amounts[..k])
    {
      assert amounts[..k + 1][..k] == amounts[..k];
      total := total + amounts[k];
    }
    assert amounts[..|amounts|] == amounts;
    var rows := [];
    for k := 0 to |providers|
      invariant |rows| == k && forall m :: 0 <= m < k ==> rows[m] == MixRow(providers[m], amounts[m], Share(amounts[m], total))
    {
      rows := rows + [MixRow(providers[k], amounts[k], Share(amounts[k], total))];
    }
    assert rows == RowsFor(providers, amounts);
    mix := Rearrange(rows, Ranked(amounts));
  }

  function MixTotal(mix: seq<MixRow>): real {
    if mix == [] then 0.0 else MixTotal(mix[..|mix| - 1]) + mix[|mix| - 1].costUsd
  }

  lemma {:induction false} ProvidersFacts(costs: seq<Cost>, start: int, end: int)
    ensures Distinct(Providers(costs, start, end))
    ensures forall c :: c in costs && start <= c.createdAt < end ==> c.provider in Providers(costs, start, end)
  {
    if costs != [] {
      var front, last := costs[..|costs| - 1], costs[|costs| - 1];
      ProvidersFacts(front, start, end);
      assert costs == front + [last];
    }
  }

  /** Adding one cost adds it to its provider's amount, if the list has it. */
  lemma {:induction false} AmountsGrow(front: seq<Cost>, c: Cost, providers: seq<string>, start: int, end: int)
    requires Distinct(providers)
    ensures Total(Amounts(front + [c], providers, start, end))
            == Total(Amounts(front, providers, start, end))
               + if start <= c.createdAt < end && c.provider in providers then c.cost else 0.0
  {
    assert (front + [c])[..|front|] == front;
    if providers != [] {
      var n := |providers| - 1;
      AmountsGrow(front, c, providers[..n], start, end);
      assert Amounts(front, providers, start, end)[..n] == Amounts(front, providers[..n], start, end);
      assert Amounts(front + [c], providers, start, end)[..n] == Amounts(front + [c], providers[..n], start, end);
      assert providers == providers[..n] + [providers[n]];
    }
  }

  lemma {:induction false} NoneOfAbsent(costs: seq<Cost>, provider: string, start: int, end: int)
    requires forall c :: c in costs && start <= c.createdAt < end ==> c.provider != provider
    ensures SumOf(costs, provider, start, end) == 0.0
  {
    if costs != [] {
      assert costs[|costs| - 1] in costs;
      NoneOfAbsent(costs[..|costs| - 1], provider, start, end);
    }
  }

  lemma TotalSnoc(amounts: seq<real>, x: real)
    ensures Total(amounts + [x]) == Total(amounts) + x
  {
    assert (amounts + [x])[..|amounts|] == amounts;
  }

  /** Grouping by provider loses nothing of the window's spend. */
  lemma {:induction false} GroupsAddUp(costs: seq<Cost>, start: int, end: int)
    ensures Total(Amounts(costs, Providers(costs, start, end), start, end)) == SpendIn(costs, start, end)
  {
    if costs != [] {
      var front, c := costs[..|costs| - 1], costs[|costs| - 1];
      assert costs == front + [c];
      var before, after := Providers(front, start, end), Providers(costs, start, end);
      hide SumOf;
      SpendSnoc(front, c, start, end);
      GroupsAddUp(front, start, end);
      ProvidersFacts(front, start, end);
      ProvidersFacts(costs, start, end);
      AmountsGrow(front, c, after, start, end);
      if after != before {
        assert after == before + [c.provider];
        NoneOfAbsent(front, c.provider, start, end);
        assert Amounts(front, after, start, end) == Amounts(front, before, start, end) + [0.0];
        TotalSnoc(Amounts(front, before, start, end), 0.0);
      }
    }
  }

  lemma {:induction false} MixTotalWithout(mix: seq<MixRow>, at: nat)
    requires at < |mix|
    ensures MixTotal(mix) == MixTotal(mix[..at] + mix[at + 1..]) + mix[at].costUsd
  {
    var n := |mix| - 1;
    var rest := mix[..at] + mix[at + 1..];
    if at < n {
      MixTotalWithout(mix[..n], at);
      assert mix[..n][..at] + mix[..n][at + 1..] == rest[..n - 1];
      assert rest[n - 1] == mix[n];
    } else {
      assert rest == mix[..n];
    }
  }

  lemma {:induction false} MixTotalRearranged(rows: seq<MixRow>, a: seq<nat>, b: seq<nat>)
    requires Indices(a, |rows|) && Indices(b, |rows|) && multiset(a) == multiset(b)
    ensures MixTotal(Rearrange(rows, a)) == MixTotal(Rearrange(rows, b))
  {
    if a == [] {
      assert |multiset(b)| == 0;
    } else {
      var n := |a| - 1;
      var at := TakeOne(a, b);
      var rest := b[..at] + b[at + 1..];
      MixTotalRearranged(rows, a[..n], rest);
      var x, y := Rearrange(rows, a), Rearrange(rows, b);
      MixTotalWithout(y, at);
      assert x[..n] == Rearrange(rows, a[..n]);
      assert y[..at] + y[at + 1..] == Rearrange(rows, rest);
    }
  }

  lemma {:induction false} MixTotalOfRows(rows: seq<MixRow>, amounts: seq<real>)
    requires |rows| == |amounts| && forall k :: 0 <= k < |rows| ==> rows[k].costUsd == amounts[k]
    ensures MixTotal(rows) == Total(amounts)
  {
    if rows != [] { MixTotalOfRows(rows[..|rows| - 1], amounts[..|rows| - 1]); }
  }

  /** A mix accounts for the whole spend of its window, largest provider first. */
  lemma MixAccountsForWindow(costs: seq<Cost>, start: int, end: int)
    ensures MixTotal(Mix(costs, start, end)) == SpendIn(costs, start, end)
    ensures forall i, j :: 0 <= i < j < |Mix(costs, start, end)| ==>
              Mix(costs, start, end)[i].costUsd >= Mix(costs, start, end)[j].costUsd
              && Mix(costs, start, end)[i].provider != Mix(costs, start, end)[j].provider
  {
    hide Ranked, SumOf, Share;
    var providers := Providers(costs, start, end);
    var amounts := Amounts(costs, providers, start, end);
    var rows := RowsFor(providers, amounts);
    var order := Ranked(amounts);
    RankedFacts(amounts);
    ProvidersFacts(costs, start, end);
    GroupsAddUp(costs, start, end);
    MixTotalRearranged(rows, order, Upto(|amounts|));
    assert Rearrange(rows, Upto(|amounts|)) == rows;
    MixTotalOfRows(rows, amounts);
    var mix := Mix(costs, start, end);
    forall i, j | 0 <= i < j < |mix| ensures mix[i].costUsd >= mix[j].costUsd && mix[i].provider != mix[j].provider {
      assert Before(amounts, order[i], order[j]);
      assert mix[i] == rows[order[i]] && mix[j] == rows[order[j]];
    }
  }

  // ---------------------------------------------------------------- windows of events

  /** An event's window starts with it and is not empty, not longer than asked, and not in the future. */
  lemma WindowBounds(s: seq<Snapshot>, q: Query, i: nat)
    requires IsEvent(s, q, i)
    ensures q.from <= s[i].at < WindowEnd(s, q, i) <= q.now && WindowEnd(s, q, i) - s[i].at <= q.windowMs
  {
  }

  /** Two events' windows overlap exactly when the later one comes within the window length of the
      earlier and no snapshot up to its time differs from the earlier event's. */
  lemma OverlapIff(s: seq<Snapshot>, q: Query, i: nat, j: nat)
    requires Sorted(s) && IsEvent(s, q, i) && IsEvent(s, q, j) && i < j
    ensures WindowEnd(s, q, i) > s[j].at <==>
              s[j].at - s[i].at < q.windowMs
              && forall k :: i < k < |s| && s[k].at <= s[j].at ==> !Differ(s[i].weights, s[k].weights)
  {
    hide Differ;
    var next := NextChange(s, i, i + 1);
    if next.Some? {
      assert forall k :: next.value <= k < |s| ==> s[next.value].at <= s[k].at;
    }
  }

  /** Weights move in steps: each snapshot either repeats the previous weights or differs noticeably. */
  ghost predicate Steps(s: seq<Snapshot>) {
    forall k :: 0 < k < |s| ==> s[k].weights == s[k - 1].weights || Differ(s[k - 1].weights, s[k].weights)
  }

  lemma {:induction false} NextByStep(s: seq<Snapshot>, i: nat, j: nat)
    requires Steps(s) && i < j < |s| && Differ(s[j - 1].weights, s[j].weights)
    ensures exists k :: i < k <= j && Differ(s[i].weights, s[k].weights)
    decreases j - i
  {
    hide Differ;
    if !Differ(s[i].weights, s[i + 1].weights) && i + 1 < j { NextByStep(s, i + 1, j); }
  }

  /** In such a history the windows of different events never overlap. */
  lemma WindowsAreDisjoint(s: seq<Snapshot>, q: Query, i: nat, j: nat)
    requires Sorted(s) && Steps(s) && IsEvent(s, q, i) && IsEvent(s, q, j) && i < j
    ensures WindowEnd(s, q, i) <= s[j].at
  {
    hide Differ;
    NextByStep(s, i, j);
    var k :| i < k <= j && Differ(s[i].weights, s[k].weights);
    assert s[k].at <= s[j].at;
    assert NextChange(s, i, i + 1).Some? && NextChange(s, i, i + 1).value <= k;
    assert s[NextChange(s, i, i + 1).value].at <= s[k].at;
  }

  /** Without steps they can: three drifts within epsilon of the first event, the last of them more
      than epsilon from the one before. */
  lemma SmallDriftsOverlap(q: Query)
    requires q.from <= 0 && q.windowMs > 2 && q.now > 4
    ensures var s := [Snapshot(0, Weights(0.4, 0.4, 0.2)), Snapshot(1, Weights(0.5, 0.3, 0.2)),
                      Snapshot(2, Weights(0.508, 0.292, 0.2)), Snapshot(3, Weights(0.4975, 0.3025, 0.2))];
            Sorted(s) && IsEvent(s, q, 1) && IsEvent(s, q, 3) && WindowEnd(s, q, 1) > s[3].at
  {
    var s := [Snapshot(0, Weights(0.4, 0.4, 0.2)), Snapshot(1, Weights(0.5, 0.3, 0.2)),
              Snapshot(2, Weights(0.508, 0.292, 0.2)), Snapshot(3, Weights(0.4975, 0.3025, 0.2))];
    assert NextChange(s, 3, 4) == None;
    assert NextChange(s, 1, 4) == None;
    assert NextChange(s, 1, 3) == None;
    assert NextChange(s, 1, 2) == None;
  }

  // ---------------------------------------------------------------- what an event says

  /** Some weight moved by more than 0.01, either way. */
  predicate Noticeable(a: Weights, b: Weights) {
    a.quality - b.quality > 0.01 || b.quality - a.quality > 0.01
    || a.cost - b.cost > 0.01 || b.cost - a.cost > 0.01
    || a.latency - b.latency > 0.01 || b.latency - a.latency > 0.01
  }

  lemma DifferIff(a: Weights, b: Weights)
    ensures Differ(a, b) <==> Noticeable(a, b)
  {
  }

  /** The snapshots read are those of the sixty days before `from` and on up to `to`. */
  lemma {:induction false} SelectedIff(history: seq<Snapshot>, q: Query, x: Snapshot)
    ensures x in Selected(history, q) <==> x in history && q.from - 60 * 86400000 <= x.at < q.to
  {
    if history != [] {
      var front, last := history[..|history| - 1], history[|history| - 1];
      assert history == front + [last];
      SelectedIff(front, q, x);
    }
  }

  /** A snapshot is reported exactly when it moved a weight noticeably, not before `from` and already
      in the past, and the next noticeable change does not come at the same instant. */
  lemma EventIff(s: seq<Snapshot>, q: Query, i: nat)
    requires Sorted(s) && 0 < i < |s|
    ensures IsEvent(s, q, i) <==>
              Noticeable(s[i - 1].weights, s[i].weights) && q.from <= s[i].at < q.now && q.windowMs > 0
              && forall k :: i < k < |s| && s[k].at == s[i].at ==> !Noticeable(s[i].weights, s[k].weights)
  {
    hide Differ, Noticeable;
    DifferIff(s[i - 1].weights, s[i].weights);
    forall k | i < k < |s| ensures Differ(s[i].weights, s[k].weights) <==> Noticeable(s[i].weights, s[k].weights) {
      DifferIff(s[i].weights, s[k].weights);
    }
    var next := NextChange(s, i, i + 1);
    if next.Some? { assert forall k :: next.value <= k < |s| ==> s[next.value].at <= s[k].at; }
  }

  /** A window closes at the earliest of three times: its full length, now, and the next noticeable
      change. */
  lemma WindowEndIsEarliest(s: seq<Snapshot>, q: Query, i: nat)
    requires Sorted(s) && i < |s|
    ensures var end := WindowEnd(s, q, i);
            end <= s[i].at + q.windowMs && end <= q.now
            && (forall k :: i < k < |s| && Noticeable(s[i].weights, s[k].weights) ==> end <= s[k].at)
            && (end == s[i].at + q.windowMs || end == q.now
                || exists k :: i < k < |s| && Noticeable(s[i].weights, s[k].weights) && end == s[k].at)
  {
    hide Differ, Noticeable;
    forall k | i < k < |s| ensures Differ(s[i].weights, s[k].weights) <==> Noticeable(s[i].weights, s[k].weights) {
      DifferIff(s[i].weights, s[k].weights);
    }
    var next := NextChange(s, i, i + 1);
    if next.Some? { assert forall k :: next.value <= k < |s| ==> s[next.value].at <= s[k].at; }
  }

  /** `x` is within rounding of `y`: four places, halves upwards. */
  predicate Rounds(x: real, y: real) { -0.00005 < x - y <= 0.00005 }

  /** An event reports the weights before and after, each one's change from the one to the other, and
      its window's days and spend. */
  lemma ReportedEvent(s: seq<Snapshot>, q: Query, costs: seq<Cost>, i: nat)
    requires 0 < i < |s|
    ensures var e, before, after := EventAt(s, q, costs, i), s[i - 1].weights, s[i].weights;
            e.fromWeights == before && e.toWeights == after && e.start == s[i].at && e.end == WindowEnd(s, q, i)
            && Rounds(e.deltas.quality, after.quality - before.quality)
            && Rounds(e.deltas.cost, after.cost - before.cost)
            && Rounds(e.deltas.latency, after.latency - before.latency)
            && Rounds(e.windowDays, (e.end - e.start) as real / 86400000.0) && e.mix == Mix(costs, e.start, e.end)
  {
    hide Mix, Round4, WindowEnd;
    var before, after := s[i - 1].weights, s[i].weights;
    Round4Near(after.quality - before.quality);
    Round4Near(after.cost - before.cost);
    Round4Near(after.latency - before.latency);
    Round4Near((WindowEnd(s, q, i) - s[i].at) as real / DAY as real);
  }

  /** Where a snapshot's event stands among those reported. */
  function EventsBefore(s: seq<Snapshot>, q: Query, i: nat): nat
    requires i <= |s|
  {
    if i == 0 then 0 else EventsBefore(s, q, i - 1) + if IsEvent(s, q, i - 1) then 1 else 0
  }

  /** Every reported snapshot has its event, after those of earlier ones, and there are no others. */
  lemma {:induction false} EachEventInPlace(s: seq<Snapshot>, q: Query, costs: seq<Cost>, n: nat)
    requires n <= |s|
    ensures |EventsTo(s, q, costs, n)| == EventsBefore(s, q, n)
    ensures forall i: nat :: i < n && IsEvent(s, q, i) ==>
              EventsBefore(s, q, i) < EventsBefore(s, q, n)
              && EventsTo(s, q, costs, n)[EventsBefore(s, q, i)] == EventAt(s, q, costs, i)
  {
    hide IsEvent, EventAt;
    if n > 0 {
      EachEventInPlace(s, q, costs, n - 1);
    }
  }

  /** One provider's rows, as dated amounts. */
  function RowsOfProvider(costs: seq<Cost>, provider: string): seq<DailyCost> {
    if costs == [] then []
    else
      var c := costs[|costs| - 1];
      RowsOfProvider(costs[..|costs| - 1], provider)
      + if c.provider == provider then [DailyCost(c.createdAt, c.cost)] else []
  }

  lemma {:induction false} SumOfIsOwn(costs: seq<Cost>, provider: string, start: int, end: int)
    ensures SumOf(costs, provider, start, end) == SumIn(RowsOfProvider(costs, provider), start, end)
  {
    if costs != [] {
      var front, c := costs[..|costs| - 1], costs[|costs| - 1];
      SumOfIsOwn(front, provider, start, end);
      var rows := RowsOfProvider(front, provider);
      hide SumIn;
      SumSnoc(rows, DailyCost(c.createdAt, c.cost), start, end);
      assert rows + [] == rows;
    }
  }

  lemma ShareIs(cost: real, total: real)
    ensures if total > 0.0 then (Share(cost, total) - 0.00005) * total <= cost * 100.0 <= (Share(cost, total) + 0.00005) * total
            else Share(cost, total) == 0.0
  {
    hide Round4;
    if total > 0.0 {
      var pct := cost / total * 100.0;
      Round4Near(pct);
      TimesTotal(cost, total, cost / total, pct);
      ScaleBetween(Share(cost, total) - 0.00005, pct, Share(cost, total) + 0.00005, total, cost * 100.0);
    }
  }

  lemma TimesTotal(cost: real, total: real, ratio: real, pct: real)
    requires total > 0.0 && ratio == cost / total && pct == ratio * 100.0
    ensures pct * total == cost * 100.0
  {
    assert ratio * total == cost;
  }

  /** Each row of a mix carries its own provider's spend of the window, and that spend's percentage of
      the whole to four places; nothing is spent where the whole is not positive. */
  lemma MixRowsAreOwn(costs: seq<Cost>, start: int, end: int, k: nat)
    requires k < |Mix(costs, start, end)|
    ensures var row, total := Mix(costs, start, end)[k], SpendIn(costs, start, end);
            row.costUsd == SumIn(RowsOfProvider(costs, row.provider), start, end)
            && if total > 0.0 then (row.sharePct - 0.00005) * total <= row.costUsd * 100.0 <= (row.sharePct + 0.00005) * total
               else row.sharePct == 0.0
  {
    hide Ranked, SumOf, Share, SumIn, Providers, Total, RowsOfProvider;
    var providers := Providers(costs, start, end);
    var amounts := Amounts(costs, providers, start, end);
    var order := Ranked(amounts);
    RankedFacts(amounts);
    GroupsAddUp(costs, start, end);
    SumOfIsOwn(costs, providers[order[k]], start, end);
    ShareIs(amounts[order[k]], Total(amounts));
  }

  // ---------------------------------------------------------------- spend is not counted twice

  function MixTotals(events: seq<Event>): real {
    if events == [] then 0.0 else MixTotals(events[..|events| - 1]) + MixTotal(events[|events| - 1].mix)
  }

  /** Consecutive windows, each with the mix of its own spend, in a range. */
  ghost predicate Chain(events: seq<Event>, costs: seq<Cost>, lo: int, hi: int) {
    (forall k :: 0 <= k < |events| ==>
       lo <= events[k].start < events[k].end <= hi && events[k].mix == Mix(costs, events[k].start, events[k].end))
    && forall j, k :: 0 <= j < k < |events| ==> events[j].end <= events[k].start
  }

  lemma {:induction false} ChainTotal(events: seq<Event>, costs: seq<Cost>, lo: int, hi: int)
    requires lo <= hi && Chain(events, costs, lo, hi) && forall c :: c in costs ==> c.cost >= 0.0
    ensures MixTotals(events) <= SpendIn(costs, lo, hi)
  {
    hide Mix, MixTotal, SumIn;
    if events == [] {
      SumNonNegative(Dated(costs), lo, hi);
    } else {
      var n := |events| - 1;
      var e := events[n];
      ChainTotal(events[..n], costs, lo, e.start);
      MixAccountsForWindow(costs, e.start, e.end);
      SumSplits(Dated(costs), lo, e.start, hi);
      SumSplits(Dated(costs), e.start, e.end, hi);
      SumNonNegative(Dated(costs), e.end, hi);
    }
  }

  lemma {:induction false} EventSource(s: seq<Snapshot>, q: Query, costs: seq<Cost>, n: nat, k: nat) returns (i: nat)
    requires n <= |s| && k < |EventsTo(s, q, costs, n)|
    ensures i < n && IsEvent(s, q, i) && EventsTo(s, q, costs, n)[k] == EventAt(s, q, costs, i)
  {
    hide Mix, Differ, WindowEnd, IsEvent;
    if k < |EventsTo(s, q, costs, n - 1)| { i := EventSource(s, q, costs, n - 1, k); } else { i := n - 1; }
  }

  lemma {:induction false} EventsFormChain(s: seq<Snapshot>, q: Query, costs: seq<Cost>, n: nat)
    requires Sorted(s) && Steps(s) && n <= |s|
    ensures Chain(EventsTo(s, q, costs, n), costs, q.from, q.now)
  {
    if n > 0 {
      var m: nat := n - 1;
      EventsFormChain(s, q, costs, m);
      hide Mix, Differ, WindowEnd, IsEvent, Steps, Sorted;
      var before := EventsTo(s, q, costs, m);
      if IsEvent(s, q, m) {
        EventInside(s, q, costs, m);
        forall k: nat | k < |before| ensures before[k].end <= s[m].at {
          var i := EventSource(s, q, costs, m, k);
          EventInside(s, q, costs, i);
          WindowsAreDisjoint(s, q, i, m);
        }
      }
    }
  }

  lemma EventInside(s: seq<Snapshot>, q: Query, costs: seq<Cost>, i: nat)
    requires IsEvent(s, q, i)
    ensures 0 < i < |s|
    ensures var e := EventAt(s, q, costs, i);
            q.from <= e.start < e.end <= q.now && e.mix == Mix(costs, e.start, e.end)
            && e.start == s[i].at && e.end == WindowEnd(s, q, i)
  {
    hide Mix, NextChange;
    WindowBounds(s, q, i);
  }

  lemma {:induction false} SelectedSorted(history: seq<Snapshot>, q: Query)
    requires Sorted(history)
    ensures Sorted(Selected(history, q))
    ensures forall x :: x in Selected(history, q) ==> x in history
  {
    if history != [] {
      var front, last := history[..|history| - 1], history[|history| - 1];
      SelectedSorted(front, q);
      var rest := Selected(front, q);
      forall k | 0 <= k < |rest| ensures rest[k].at <= last.at {
        assert rest[k] in front;
      }
      assert history == front + [last];
    }
  }

  /** The events' spend mixes together never exceed the spend between `from` and `now`: with
      non-negative costs and weights that move in steps, nothing is counted twice. */
  lemma SpendNeverCountedTwice(history: seq<Snapshot>, q: Query, costs: seq<Cost>)
    requires Sorted(history) && Steps(Selected(history, q)) && q.from <= q.now
    requires forall c :: c in costs ==> c.cost >= 0.0
    ensures MixTotals(EventsTo(Selected(history, q), q, costs, |Selected(history, q)|)) <= SpendIn(costs, q.from, q.now)
  {
    var s := Selected(history, q);
    SelectedSorted(history, q);
    hide Mix, MixTotals, SumIn, Steps, Sorted, Selected;
    EventsFormChain(s, q, costs, |s|);
    ChainTotal(EventsTo(s, q, costs, |s|), costs, q.from, q.now);
  }
}
