/** When serialised reporting cycles bill exactly the high-water mark, when they overbill, and how
    closed periods get finalized (billing/usage.ts). */
module MeteringExactness {
  import opened Options
  import opened Metering
  import opened MeteringCycle
  import Protocol = MeteringProtocol

  const ZERO := Stats(0, 0, 0, 0)

  // ---------------------------------------------------------------- what happened to one row

  /** One try at moving a row to `overage`; `final` for a rollover flush. */
  datatype Attempt = Attempt(overage: nat, final: bool, outcome: Outcome)

  function AttemptIn(w: World, job: Job, key: Key): Option<Attempt> {
    match job
    case Serve(_) => None
    case Visit(sub, rollover, current) =>
      if !Metered(sub) then None
      else if FindStale(w.reports, sub) == Some(key) then
        Some(Attempt(ClosedOverage(w, sub, w.reports[key]), true, rollover))
      else CurrentAttempt(RolloverPass(w, sub, rollover, ZERO), sub, current, key)
  }

  function CurrentAttempt(flushed: Pass, sub: Subscription, current: Outcome, key: Key): Option<Attempt> {
    if flushed.go && key == Key(sub.id, sub.start) && key in WithCurrentRow(flushed.world.reports, sub) then
      Some(Attempt(CurrentOverage(flushed.world, sub), false, current))
    else None
  }

  /** The attempts a history of jobs makes on the row `key`, in order. */
  function Attempts(jobs: seq<Job>, key: Key): seq<Attempt> {
    if jobs == [] then []
    else
      var front := jobs[..|jobs| - 1];
      Attempts(front, key)
      + match AttemptIn(After(front), jobs[|jobs| - 1], key) case None => [] case Some(a) => [a]
  }

  /** The overage last written to the row, what was pushed since then without its row write
      landing, and whether every earlier row write settled all the lost writes before it. */
  datatype Track = Track(mark: nat, lost: set<(nat, bool)>, clean: bool)

  function TrackStep(t: Track, a: Attempt): Track {
    if a.overage <= t.mark || a.outcome == PushFails then t
    else if a.outcome == WriteFails then t.(lost := t.lost + {(a.overage, a.final)})
    else Track(a.overage, {}, t.clean && t.lost <= {(a.overage, a.final)})
  }

  function TrackOf(attempts: seq<Attempt>): Track {
    if attempts == [] then Track(0, {}, true)
    else TrackStep(TrackOf(attempts[..|attempts| - 1]), attempts[|attempts| - 1])
  }

  /** Every push whose row write was lost is repeated, under the very same identifier (same
      overage, same in-period/final kind), by the next attempt that does write the row. */
  predicate LostWritesRetried(attempts: seq<Attempt>) {
    TrackOf(attempts).clean && TrackOf(attempts).lost == {}
  }

  // ---------------------------------------------------------------- the link to Stripe

  ghost predicate Overshoots(e: MeterEvent, key: Key, mark: nat) {
    e.ident.key == key && e.ident.target - e.value < mark < e.ident.target
  }

  /** Each event was measured from a mark the row once had, and the mark itself is paid for. */
  ghost predicate Paid(meter: Meter, key: Key, mark: nat) {
    BilledUpTo(meter, key, mark) >= mark
    && (forall i :: 0 <= i < |meter| && meter[i].ident.key == key ==>
          0 < meter[i].value <= meter[i].ident.target && meter[i].ident.target - meter[i].value <= mark)
    && (forall i, j :: 0 <= i < j < |meter| ==> meter[i].ident != meter[j].ident)
  }

  ghost predicate LostAccepted(meter: Meter, key: Key, t: Track) {
    forall p :: p in t.lost ==> p.0 > t.mark && Accepted(meter, Ident(key, p.0, p.1))
  }

  /** Exactly the mark is billed below it, and above it only the lost pushes, measured from it. */
  ghost predicate PaidOnce(meter: Meter, key: Key, t: Track) {
    BilledUpTo(meter, key, t.mark) == t.mark
    && forall i :: 0 <= i < |meter| && meter[i].ident.key == key && meter[i].ident.target > t.mark ==>
         (meter[i].ident.target, meter[i].ident.final) in t.lost
         && meter[i].value == meter[i].ident.target - t.mark
  }

  ghost predicate Overpaid(meter: Meter, key: Key, mark: nat) {
    BilledUpTo(meter, key, mark) > mark || exists i :: 0 <= i < |meter| && Overshoots(meter[i], key, mark)
  }

  ghost predicate Linked(meter: Meter, key: Key, t: Track) {
    Paid(meter, key, t.mark) && LostAccepted(meter, key, t)
    && if t.clean then PaidOnce(meter, key, t) else Overpaid(meter, key, t.mark)
  }

  lemma LinkedElsewhere(meter: Meter, e: MeterEvent, key: Key, t: Track)
    requires Linked(meter, key, t) && e.ident.key != key
    ensures Linked(Submit(meter, e), key, t)
  {
    hide BilledUpTo, Billed;
    var meter' := Submit(meter, e);
    if !Has(meter, e.ident) {
      BilledAppend(meter, e, key, t.mark);
      forall p | p in t.lost ensures Accepted(meter', Ident(key, p.0, p.1)) {
        var i :| 0 <= i < |meter| && meter[i].ident == Ident(key, p.0, p.1);
        assert meter'[i].ident == Ident(key, p.0, p.1);
      }
      if !t.clean && BilledUpTo(meter, key, t.mark) <= t.mark {
        var i :| 0 <= i < |meter| && Overshoots(meter[i], key, t.mark);
        assert Overshoots(meter'[i], key, t.mark);
      }
    }
  }

  /** A push above the mark, its row write not yet in. */
  lemma LinkedPush(meter: Meter, e: MeterEvent, key: Key, t: Track)
    requires Linked(meter, key, t)
    requires e.ident.key == key && e.ident.target > t.mark && e.value == e.ident.target - t.mark
    ensures Linked(Submit(meter, e), key, t.(lost := t.lost + {(e.ident.target, e.ident.final)}))
  {
    hide BilledUpTo, Billed;
    var meter' := Submit(meter, e);
    var t' := t.(lost := t.lost + {(e.ident.target, e.ident.final)});
    if !Has(meter, e.ident) {
      BilledAppend(meter, e, key, t.mark);
      assert meter'[|meter|] == e;
      forall p | p in t'.lost ensures p.0 > t.mark && Accepted(meter', Ident(key, p.0, p.1)) {
        if p in t.lost {
          var i :| 0 <= i < |meter| && meter[i].ident == Ident(key, p.0, p.1);
          assert meter'[i].ident == Ident(key, p.0, p.1);
        } else {
          assert meter'[|meter|].ident == Ident(key, p.0, p.1);
        }
      }
      if !t.clean && BilledUpTo(meter, key, t.mark) <= t.mark {
        var i :| 0 <= i < |meter| && Overshoots(meter[i], key, t.mark);
        assert Overshoots(meter'[i], key, t.mark);
      }
    }
  }

  lemma {:induction false} OnlyEventAbove(meter: Meter, key: Key, low: nat, high: nat, i: nat)
    requires low <= high && i < |meter| && meter[i].ident.key == key && low < meter[i].ident.target <= high
    requires forall j :: 0 <= j < |meter| && j != i && meter[j].ident.key == key ==> meter[j].ident.target <= low
    ensures BilledUpTo(meter, key, high) == BilledUpTo(meter, key, low) + meter[i].value
  {
    var front := meter[..|meter| - 1];
    if i < |front| {
      OnlyEventAbove(front, key, low, high, i);
    } else {
      BilledWhenAllBelow(front, key, low);
      BilledWhenAllBelow(front, key, high);
    }
  }

  lemma CleanWrite(meter: Meter, key: Key, t: Track, target: nat, final: bool, i: nat)
    requires Linked(meter, key, t) && t.clean && t.lost == {(target, final)}
    requires i < |meter| && meter[i].ident == Ident(key, target, final)
    ensures Linked(meter, key, Track(target, {}, true))
  {
    hide BilledUpTo;
    forall j | 0 <= j < |meter| && j != i && meter[j].ident.key == key ensures meter[j].ident.target <= t.mark {
      assert meter[j].ident != meter[i].ident;
    }
    OnlyEventAbove(meter, key, t.mark, target, i);
  }

  /** Once two accepted events have billed the same unit, some event overshoots or the total does. */
  lemma DoubledWrite(meter: Meter, key: Key, mark: nat, target: nat, i: nat, j: nat)
    requires mark < target && BilledUpTo(meter, key, mark) >= mark
    requires i < |meter| && j < |meter| && i != j && meter[i].ident.key == key == meter[j].ident.key
    requires meter[i].ident.target == target && meter[i].ident.target - meter[i].value <= mark
    requires meter[j].ident.target > mark && meter[j].ident.target - meter[j].value <= mark
    ensures BilledUpTo(meter, key, target) > target || Overshoots(meter[j], key, target)
  {
    if meter[j].ident.target <= target {
      TwoEventsAbove(meter, key, mark, target, i, j);
    }
  }

  lemma SecondLostPush(meter: Meter, key: Key, t: Track, target: nat, final: bool, i: nat)
    requires Paid(meter, key, t.mark) && LostAccepted(meter, key, t)
    requires (target, final) in t.lost && t.lost != {(target, final)}
    requires i < |meter| && meter[i].ident == Ident(key, target, final)
    ensures Overpaid(meter, key, target)
  {
    hide BilledUpTo;
    var p :| p in t.lost && p != (target, final);
    assert Accepted(meter, Ident(key, p.0, p.1));
    var j :| 0 <= j < |meter| && meter[j].ident == Ident(key, p.0, p.1);
    DoubledWrite(meter, key, t.mark, target, i, j);
  }

  lemma StillOverpaid(meter: Meter, key: Key, mark: nat, target: nat, i: nat)
    requires Paid(meter, key, mark) && Overpaid(meter, key, mark) && mark < target
    requires i < |meter| && meter[i].ident.key == key && meter[i].ident.target == target
    ensures Overpaid(meter, key, target)
  {
    hide BilledUpTo;
    EventAbove(meter, key, mark, target, i);
    if BilledUpTo(meter, key, mark) <= mark {
      var j :| 0 <= j < |meter| && Overshoots(meter[j], key, mark);
      if j != i { DoubledWrite(meter, key, mark, target, i, j); }
    }
  }

  /** A row write settles a single matching lost push, and makes any other one an overcharge. */
  lemma LinkedWrite(meter: Meter, key: Key, t: Track, target: nat, final: bool)
    requires Linked(meter, key, t) && (target, final) in t.lost
    ensures Linked(meter, key, Track(target, {}, t.clean && t.lost == {(target, final)}))
  {
    hide BilledUpTo, Overpaid;
    var i :| 0 <= i < |meter| && meter[i].ident == Ident(key, target, final);
    EventAbove(meter, key, t.mark, target, i);
    assert Paid(meter, key, target);
    if t.clean && t.lost == {(target, final)} {
      CleanWrite(meter, key, t, target, final, i);
    } else {
      hide Paid;
      if t.clean {
        SecondLostPush(meter, key, t, target, final, i);
      } else {
        StillOverpaid(meter, key, t.mark, target, i);
      }
    }
  }

  /** Billed equals the mark exactly for a clean track with nothing outstanding. */
  lemma LinkedDecides(meter: Meter, key: Key, t: Track)
    requires Linked(meter, key, t)
    ensures Billed(meter, key) == t.mark <==> t.clean && t.lost == {}
  {
    BilledUpToBounds(meter, key, t.mark, t.mark);
    if t.clean && t.lost == {} {
      BilledWhenAllBelow(meter, key, t.mark);
    } else if t.lost != {} {
      var p :| p in t.lost;
      var i :| 0 <= i < |meter| && meter[i].ident == Ident(key, p.0, p.1);
      BillsAbove(meter, key, t.mark, i);
    } else if BilledUpTo(meter, key, t.mark) <= t.mark {
      var i :| 0 <= i < |meter| && Overshoots(meter[i], key, t.mark);
      BillsAbove(meter, key, t.mark, i);
    }
  }

  lemma BillsAbove(meter: Meter, key: Key, mark: nat, i: nat)
    requires i < |meter| && meter[i].ident.key == key && meter[i].ident.target > mark
    ensures Billed(meter, key) >= BilledUpTo(meter, key, mark) + meter[i].value
  {
    EventAbove(meter, key, mark, meter[i].ident.target, i);
    BilledUpToBounds(meter, key, mark, meter[i].ident.target);
  }

  // ---------------------------------------------------------------- linking a whole history

  function MarkOf(reports: Reports, key: Key): nat {
    if key in reports then reports[key].mark else 0
  }

  ghost predicate RowLinked(w: World, key: Key, t: Track) {
    Keyed(w.reports) && Linked(w.meter, key, t) && MarkOf(w.reports, key) == t.mark
    && (key !in w.reports ==> t == Track(0, {}, true))
  }

  lemma PushAndWriteElsewhere(w: World, sub: Subscription, row: Report, target: nat, final: bool, o: Outcome, s: Stats,
                              key: Key, t: Track)
    requires RowLinked(w, key, t) && row.key != key
    requires row.mark < target && row.key in w.reports && row == w.reports[row.key]
    ensures RowLinked(PushAndWrite(w, sub, row, target, final, o, s).world, key, t)
  {
    LinkedElsewhere(w.meter, EventFor(sub, row, target, final), key, t);
  }

  lemma LinkedAttempt(meter: Meter, e: MeterEvent, key: Key, t: Track, o: Outcome)
    requires Linked(meter, key, t)
    requires e.ident.key == key && e.ident.target > t.mark && e.value == e.ident.target - t.mark
    ensures Linked(if o == PushFails then meter else Submit(meter, e), key,
                   TrackStep(t, Attempt(e.ident.target, e.ident.final, o)))
  {
    hide Linked;
    if o != PushFails {
      LinkedPush(meter, e, key, t);
      if o == Completes {
        var id := (e.ident.target, e.ident.final);
        var t1 := t.(lost := t.lost + {id});
        LinkedWrite(Submit(meter, e), key, t1, id.0, id.1);
        assert t1.lost == {id} <==> t.lost <= {id};
      }
    }
  }

  lemma PushAndWriteLinks(w: World, sub: Subscription, row: Report, target: nat, final: bool, o: Outcome, s: Stats,
                          key: Key, t: Track)
    requires RowLinked(w, key, t) && row.key == key
    requires row.mark < target && key in w.reports && row == w.reports[key]
    ensures RowLinked(PushAndWrite(w, sub, row, target, final, o, s).world, key,
                      TrackStep(t, Attempt(target, final, o)))
  {
    LinkedAttempt(w.meter, EventFor(sub, row, target, final), key, t, o);
  }

  function Follow(t: Track, a: Option<Attempt>): Track {
    match a case None => t case Some(a) => TrackStep(t, a)
  }

  lemma RolloverLinks(w: World, sub: Subscription, o: Outcome, s: Stats, key: Key, t: Track)
    requires RowLinked(w, key, t)
    ensures RowLinked(RolloverPass(w, sub, o, s).world, key,
                      if FindStale(w.reports, sub) == Some(key)
                      then TrackStep(t, Attempt(ClosedOverage(w, sub, w.reports[key]), true, o)) else t)
  {
    var found := FindStale(w.reports, sub);
    if found.Some? {
      var row := w.reports[found.value];
      var overage := ClosedOverage(w, sub, row);
      if overage > row.mark {
        if row.key == key {
          PushAndWriteLinks(w, sub, row, overage, true, o, s, key, t);
        } else {
          PushAndWriteElsewhere(w, sub, row, overage, true, o, s, key, t);
        }
      }
    }
  }

  lemma CurrentLinks(w: World, sub: Subscription, o: Outcome, s: Stats, key: Key, t: Track)
    requires RowLinked(w, key, t)
    ensures RowLinked(CurrentPass(w, sub, o, s).world, key,
                      if key == Key(sub.id, sub.start) && key in WithCurrentRow(w.reports, sub)
                      then TrackStep(t, Attempt(CurrentOverage(w, sub), false, o)) else t)
  {
    var k := Key(sub.id, sub.start);
    var w1 := w.(reports := WithCurrentRow(w.reports, sub));
    if k in w1.reports {
      var row := w1.reports[k];
      var overage := CurrentOverage(w, sub);
      if overage > row.mark {
        if row.key == key {
          PushAndWriteLinks(w1, sub, row, overage, false, o, s, key, t);
        } else {
          PushAndWriteElsewhere(w1, sub, row, overage, false, o, s, key, t);
        }
      }
    }
  }

  /** The statistics never influence what a pass does. */
  lemma StatsDoNotMatter(w: World, sub: Subscription, o: Outcome, s: Stats, s': Stats)
    ensures RolloverPass(w, sub, o, s).world == RolloverPass(w, sub, o, s').world
    ensures RolloverPass(w, sub, o, s).go == RolloverPass(w, sub, o, s').go
    ensures CurrentPass(w, sub, o, s).world == CurrentPass(w, sub, o, s').world
  {
  }

  lemma JobLinks(w: World, job: Job, s: Stats, key: Key, t: Track)
    requires RowLinked(w, key, t)
    ensures RowLinked(Do(w, job, s).world, key, Follow(t, AttemptIn(w, job, key)))
  {
    if job.Visit? && Metered(job.sub) {
      VisitLinks(w, job.sub, job.rollover, job.current, s, key, t);
    }
  }

  lemma OnwardLinks(flushed: Pass, sub: Subscription, co: Outcome, key: Key, t: Track)
    requires RowLinked(flushed.world, key, t)
    ensures RowLinked(Onward(flushed, sub, co).world, key, Follow(t, CurrentAttempt(flushed, sub, co, key)))
  {
    if flushed.go {
      CurrentLinks(flushed.world, sub, co, flushed.stats, key, t);
    }
  }

  lemma CurrentAttemptIgnoresStats(w: World, sub: Subscription, ro: Outcome, co: Outcome, s: Stats, key: Key)
    ensures CurrentAttempt(RolloverPass(w, sub, ro, s), sub, co, key)
         == CurrentAttempt(RolloverPass(w, sub, ro, ZERO), sub, co, key)
  {
    StatsDoNotMatter(w, sub, ro, s, ZERO);
  }

  lemma VisitFollow(w: World, sub: Subscription, ro: Outcome, co: Outcome, s: Stats, key: Key, t: Track)
    requires Metered(sub)
    ensures Follow(t, AttemptIn(w, Visit(sub, ro, co), key))
         == Follow(if FindStale(w.reports, sub) == Some(key)
                   then TrackStep(t, Attempt(ClosedOverage(w, sub, w.reports[key]), true, ro)) else t,
                   CurrentAttempt(RolloverPass(w, sub, ro, s), sub, co, key))
  {
    CurrentAttemptIgnoresStats(w, sub, ro, co, s, key);
  }

  lemma VisitLinks(w: World, sub: Subscription, ro: Outcome, co: Outcome, s: Stats, key: Key, t: Track)
    requires RowLinked(w, key, t) && Metered(sub)
    ensures RowLinked(SubscriptionPass(w, sub, ro, co, s).world, key, Follow(t, AttemptIn(w, Visit(sub, ro, co), key)))
  {
    var s1 := s.(evaluated := s.evaluated + 1);
    var flushed := RolloverPass(w, sub, ro, s1);
    var t1 := if FindStale(w.reports, sub) == Some(key)
              then TrackStep(t, Attempt(ClosedOverage(w, sub, w.reports[key]), true, ro)) else t;
    RolloverLinks(w, sub, ro, s1, key, t);
    OnwardLinks(flushed, sub, co, key, t1);
    VisitIsOnward(w, sub, ro, co, s);
    VisitFollow(w, sub, ro, co, s1, key, t);
  }

  lemma {:induction false} HistoryLinks(jobs: seq<Job>, key: Key)
    ensures RowLinked(After(jobs), key, TrackOf(Attempts(jobs, key)))
  {
    if jobs != [] {
      var front, last := jobs[..|jobs| - 1], jobs[|jobs| - 1];
      HistoryLinks(front, key);
      var before := RunJobs(EmptyWorld, front, ZERO);
      JobLinks(before.world, last, before.stats, key, TrackOf(Attempts(front, key)));
      var a := AttemptIn(After(front), last, key);
      if a.Some? {
        assert Attempts(jobs, key)[..|Attempts(jobs, key)| - 1] == Attempts(front, key);
      } else {
        assert Attempts(jobs, key) == Attempts(front, key);
      }
    }
  }

  // ---------------------------------------------------------------- main results

  /** For any history of serialised cycles, whatever fails, tiers and periods changing at will:
      Stripe has billed exactly the row's mark if and only if every push whose row write was lost
      was retried under the same identifier by the next successful row write. */
  lemma ExactExactlyWhenRetried(jobs: seq<Job>, key: Key)
    ensures Billed(After(jobs).meter, key) == MarkOf(After(jobs).reports, key)
       <==> LostWritesRetried(Attempts(jobs, key))
  {
    HistoryLinks(jobs, key);
    LinkedDecides(After(jobs).meter, key, TrackOf(Attempts(jobs, key)));
  }

  // ---------------------------------------------------------------- the finalized bill

  /** A subscription's billing identity: what has to stay put for its closed bill to be exact. */
  datatype Account = Account(key: Key, tenant: string, tier: Tier, end: int)

  function FinalOverage(w: World, acct: Account): nat {
    Overage(CountWithin(w.log, acct.tenant, acct.key.start, acct.end), acct.tier)
  }

  /** The tier is fixed, the period is reported on as current only before it ends, and nothing is
      added to a period once its row is finalized. */
  predicate InOrder(w: World, job: Job, acct: Account) {
    match job
    case Serve(r) =>
      acct.key in w.reports && w.reports[acct.key].finalized ==>
        !(r.tenant == acct.tenant && acct.key.start <= r.at < acct.end)
    case Visit(sub, _, _) =>
      sub.id == acct.key.sub ==>
        sub.tenant == acct.tenant && sub.tier == acct.tier
        && (sub.start == acct.key.start ==>
              sub.end == acct.end
              && forall i :: 0 <= i < |w.log| && w.log[i].tenant == acct.tenant ==> w.log[i].at < acct.end)
  }

  predicate AllInOrder(jobs: seq<Job>, acct: Account) {
    jobs == []
    || (AllInOrder(jobs[..|jobs| - 1], acct) && InOrder(After(jobs[..|jobs| - 1]), jobs[|jobs| - 1], acct))
  }

  ghost predicate BillOk(w: World, acct: Account) {
    Keyed(w.reports)
    && (acct.key in w.reports ==>
          var row := w.reports[acct.key];
          row.tenant == acct.tenant && row.end == acct.end
          && row.mark <= FinalOverage(w, acct)
          && (row.finalized ==> row.mark == FinalOverage(w, acct)))
  }

  lemma RolloverKeepsBill(w: World, sub: Subscription, o: Outcome, s: Stats, acct: Account)
    requires BillOk(w, acct)
    requires sub.id == acct.key.sub ==> sub.tenant == acct.tenant && sub.tier == acct.tier
    ensures BillOk(RolloverPass(w, sub, o, s).world, acct) && RolloverPass(w, sub, o, s).world.log == w.log
  {
    hide CountWithin, Submit, EventFor;
    var found := FindStale(w.reports, sub);
    if found == Some(acct.key) {
      assert ClosedOverage(w, sub, w.reports[acct.key]) == FinalOverage(w, acct);
    }
  }

  /** What the current-period pass does to the rows: it may open the period's row, and may raise its
      mark to the overage of the moment. */
  lemma CurrentPassRows(w: World, sub: Subscription, o: Outcome, s: Stats)
    requires Keyed(w.reports)
    ensures var w', key := CurrentPass(w, sub, o, s).world, Key(sub.id, sub.start);
            var begun := WithCurrentRow(w.reports, sub);
            w'.log == w.log && Keyed(w'.reports) && Keyed(begun)
            && (w'.reports == begun
                || (key in begun && begun[key].mark < CurrentOverage(w, sub)
                    && w'.reports == begun[key := Advanced(begun[key], begun[key], CurrentOverage(w, sub), false)]))
  {
    hide CurrentOverage, Submit, EventFor;
  }

  lemma CurrentKeepsBill(w: World, sub: Subscription, o: Outcome, s: Stats, acct: Account)
    requires BillOk(w, acct) && InOrder(w, Visit(sub, o, o), acct)
    ensures BillOk(CurrentPass(w, sub, o, s).world, acct)
  {
    hide CountWithin, CountSince, Overage, CurrentPass;
    CurrentPassRows(w, sub, o, s);
    if acct.key == Key(sub.id, sub.start) {
      CountsAgreeBeforeEnd(w.log, sub.tenant, sub.start, sub.end);
      assert CurrentOverage(w, sub) == FinalOverage(w, acct);
    }
  }

  lemma JobKeepsBill(w: World, job: Job, s: Stats, acct: Account)
    requires BillOk(w, acct) && InOrder(w, job, acct)
    ensures BillOk(Do(w, job, s).world, acct)
  {
    hide RolloverPass, CurrentPass;
    match job {
      case Serve(r) => assert (w.log + [r])[..|w.log|] == w.log;
      case Visit(sub, ro, co) =>
        if Metered(sub) {
          var s1 := s.(evaluated := s.evaluated + 1);
          RolloverKeepsBill(w, sub, ro, s1, acct);
          VisitIsOnward(w, sub, ro, co, s);
          var flushed := RolloverPass(w, sub, ro, s1);
          CurrentKeepsBill(flushed.world, sub, co, flushed.stats, acct);
        }
    }
  }

  lemma {:induction false} HistoryKeepsBill(jobs: seq<Job>, acct: Account)
    requires AllInOrder(jobs, acct)
    ensures BillOk(After(jobs), acct)
  {
    if jobs != [] {
      var front := jobs[..|jobs| - 1];
      HistoryKeepsBill(front, acct);
      var before := RunJobs(EmptyWorld, front, ZERO);
      JobKeepsBill(before.world, jobs[|jobs| - 1], before.stats, acct);
    }
  }

  /** A finalized row carries exactly max(0, requests in [start, end) - quota), and Stripe was
      charged exactly that if and only if every lost row write was retried like for like. */
  lemma FinalizedBillIsExact(jobs: seq<Job>, acct: Account)
    requires AllInOrder(jobs, acct)
    requires acct.key in After(jobs).reports && After(jobs).reports[acct.key].finalized
    ensures After(jobs).reports[acct.key].mark == FinalOverage(After(jobs), acct)
    ensures Billed(After(jobs).meter, acct.key) == FinalOverage(After(jobs), acct)
       <==> LostWritesRetried(Attempts(jobs, acct.key))
  {
    HistoryKeepsBill(jobs, acct);
    ExactExactlyWhenRetried(jobs, acct.key);
  }

  /** Closing a row without any assumption on tiers or on when the period was reported: a visit, whatever
      fails, that finalizes the stale row it finds leaves its mark at the greater of what it was and
      the closed overage at the tier of the moment. So the row is closed at that overage if and only
      if it had not been reported beyond it before. */
  lemma ClosedAtOverageIff(w: World, sub: Subscription, ro: Outcome, co: Outcome, s: Stats, key: Key)
    requires Metered(sub) && Keyed(w.reports) && FindStale(w.reports, sub) == Some(key)
    ensures var after := SubscriptionPass(w, sub, ro, co, s).world.reports;
            var closed := ClosedOverage(w, sub, w.reports[key]);
            key in after
            && (after[key].finalized ==>
                  (after[key].mark == closed <==> w.reports[key].mark <= closed)
                  && after[key].mark == if w.reports[key].mark <= closed then closed else w.reports[key].mark)
            && (after[key].finalized <==> ro == Completes || (ro == PushFails && w.reports[key].mark >= closed))
  {
    hide ClosedOverage, CurrentPass, Submit, EventFor;
    var s1 := s.(evaluated := s.evaluated + 1);
    var flushed := RolloverPass(w, sub, ro, s1);
    VisitIsOnward(w, sub, ro, co, s);
    assert flushed.go ==> Keyed(flushed.world.reports);
    if flushed.go { CurrentKeepsRow(flushed.world, sub, co, flushed.stats, key); }
  }

  lemma CurrentKeepsRow(w: World, sub: Subscription, o: Outcome, s: Stats, key: Key)
    requires Keyed(w.reports) && key in w.reports && key != Key(sub.id, sub.start)
    ensures var after := CurrentPass(w, sub, o, s).world.reports;
            key in after && after[key] == w.reports[key]
  {
    hide CurrentOverage, Submit, EventFor;
  }

  // ---------------------------------------------------------------- closing old periods

  function StaleKeys(reports: Reports, sub: Subscription): set<Key> {
    set k | k in reports.Keys && Stale(reports, sub, k)
  }

  /** A visit in which nothing fails finalizes the newest stale row and no other. */
  lemma VisitFinalizesNewest(w: World, sub: Subscription, s: Stats)
    requires Metered(sub) && Keyed(w.reports)
    ensures var after := SubscriptionPass(w, sub, Completes, Completes, s).world;
            Keyed(after.reports)
            && StaleKeys(after.reports, sub)
            == match FindStale(w.reports, sub)
               case None => {}
               case Some(newest) => StaleKeys(w.reports, sub) - {newest}
  {
    var s1 := s.(evaluated := s.evaluated + 1);
    var flushed := RolloverPass(w, sub, Completes, s1);
    VisitIsOnward(w, sub, Completes, Completes, s);
    RolloverFinalizesNewest(w, sub, s1);
    CurrentKeepsStale(flushed.world, sub, flushed.stats);
  }

  lemma RolloverFinalizesNewest(w: World, sub: Subscription, s: Stats)
    requires Keyed(w.reports)
    ensures var flushed := RolloverPass(w, sub, Completes, s);
            flushed.go && Keyed(flushed.world.reports)
            && StaleKeys(flushed.world.reports, sub)
            == match FindStale(w.reports, sub)
               case None => {}
               case Some(newest) => StaleKeys(w.reports, sub) - {newest}
  {
    var after := RolloverPass(w, sub, Completes, s).world;
    var found := FindStale(w.reports, sub);
    if found.Some? {
      forall k ensures k in StaleKeys(after.reports, sub) <==> k in StaleKeys(w.reports, sub) && k != found.value {
      }
    }
  }

  lemma CurrentKeepsStale(w: World, sub: Subscription, s: Stats)
    requires Keyed(w.reports)
    ensures var after := CurrentPass(w, sub, Completes, s).world;
            Keyed(after.reports) && StaleKeys(after.reports, sub) == StaleKeys(w.reports, sub)
  {
    var after := CurrentPass(w, sub, Completes, s).world;
    forall k ensures k in StaleKeys(after.reports, sub) <==> k in StaleKeys(w.reports, sub) {
    }
  }

  /** How often a history visits a subscription. */
  function VisitCount(jobs: seq<Job>, id: string): nat {
    if jobs == [] then 0
    else
      var last := jobs[|jobs| - 1];
      VisitCount(jobs[..|jobs| - 1], id) + if last.Visit? && last.sub.id == id then 1 else 0
  }

  /** Visiting another subscription, whatever fails, touches no stale row of this one. */
  lemma RolloverElsewhere(w: World, other: Subscription, o: Outcome, s: Stats, sub: Subscription)
    requires Keyed(w.reports) && other.id != sub.id
    ensures var after := RolloverPass(w, other, o, s).world;
            Keyed(after.reports) && StaleKeys(after.reports, sub) == StaleKeys(w.reports, sub)
  {
    hide ClosedOverage, Submit, EventFor;
    var after := RolloverPass(w, other, o, s).world;
    forall k ensures k in StaleKeys(after.reports, sub) <==> k in StaleKeys(w.reports, sub) {
    }
  }

  lemma CurrentElsewhere(w: World, other: Subscription, o: Outcome, s: Stats, sub: Subscription)
    requires Keyed(w.reports) && other.id != sub.id
    ensures var after := CurrentPass(w, other, o, s).world;
            Keyed(after.reports) && StaleKeys(after.reports, sub) == StaleKeys(w.reports, sub)
  {
    hide CurrentOverage, Submit, EventFor;
    var after := CurrentPass(w, other, o, s).world;
    forall k ensures k in StaleKeys(after.reports, sub) <==> k in StaleKeys(w.reports, sub) {
    }
  }

  lemma VisitElsewhere(w: World, other: Subscription, ro: Outcome, co: Outcome, s: Stats, sub: Subscription)
    requires Keyed(w.reports) && other.id != sub.id
    ensures var after := SubscriptionPass(w, other, ro, co, s).world;
            Keyed(after.reports) && StaleKeys(after.reports, sub) == StaleKeys(w.reports, sub)
  {
    hide RolloverPass, CurrentPass, StaleKeys, Keyed;
    if Metered(other) {
      var s1 := s.(evaluated := s.evaluated + 1);
      var flushed := RolloverPass(w, other, ro, s1);
      VisitIsOnward(w, other, ro, co, s);
      RolloverElsewhere(w, other, ro, s1, sub);
      CurrentElsewhere(flushed.world, other, co, flushed.stats, sub);
    }
  }

  /** Progress: each fault-free visit finalizes exactly one stale row of its subscription while any
      remain, so that many visits leave none, whatever requests and visits of other subscriptions,
      failing or not, come in between. */
  lemma {:induction false} VisitsCloseEverything(w: World, sub: Subscription, jobs: seq<Job>, s: Stats)
    requires Metered(sub) && Keyed(w.reports)
    requires forall j :: 0 <= j < |jobs| && jobs[j].Visit? ==>
               jobs[j].sub.id != sub.id || jobs[j] == Visit(sub, Completes, Completes)
    ensures var w' := RunJobs(w, jobs, s).world;
            var visits := VisitCount(jobs, sub.id);
            Keyed(w'.reports)
            && |StaleKeys(w'.reports, sub)|
               == if visits <= |StaleKeys(w.reports, sub)| then |StaleKeys(w.reports, sub)| - visits else 0
  {
    if jobs != [] {
      var front, last := jobs[..|jobs| - 1], jobs[|jobs| - 1];
      VisitsCloseEverything(w, sub, front, s);
      var before := RunJobs(w, front, s);
      if last.Visit? && last.sub.id == sub.id {
        VisitFinalizesNewest(before.world, sub, before.stats);
        var found := FindStale(before.world.reports, sub);
        if found.None? {
          assert StaleKeys(before.world.reports, sub) == {};
        }
      } else if last.Visit? {
        VisitElsewhere(before.world, last.sub, last.rollover, last.current, before.stats, sub);
      }
    }
  }

  // ---------------------------------------------------------------- exactly-once is conditional

  const EXAMPLE_SUB := Subscription("sub_1", "cus_1", "t", Pro, Active, true, 0, 10)

  function Served(n: nat): seq<Job> { seq(n, _ => Serve(Request("t", 5))) }

  lemma {:induction false} ServedWorld(n: nat)
    ensures var w := After(Served(n));
            w.reports == map[] && w.meter == []
            && CountSince(w.log, "t", 0) == n && CountWithin(w.log, "t", 0, 10) == n
            && CountSince(w.log, "t", 10) == 0
  {
    if n > 0 {
      ServedWorld(n - 1);
      assert Served(n)[..n - 1] == Served(n - 1);
      var w := After(Served(n - 1));
      assert (w.log + [Request("t", 5)])[..|w.log|] == w.log;
    }
  }

  lemma AfterSnoc(jobs: seq<Job>, job: Job)
    ensures After(jobs + [job]) == Do(After(jobs), job, RunJobs(EmptyWorld, jobs, ZERO).stats).world
  {
    assert (jobs + [job])[..|jobs|] == jobs;
  }

  /** Just over quota by one request, and the first cycle's row write is lost. */
  lemma AfterLostWrite() returns (jobs: seq<Job>)
    ensures jobs == Served(100_001) + [Visit(EXAMPLE_SUB, Completes, WriteFails)]
    ensures var w := After(jobs); var row := Protocol.FreshReport(EXAMPLE_SUB);
            w.meter == [EventFor(EXAMPLE_SUB, row, 1, false)] && w.reports == map[row.key := row]
            && CountSince(w.log, "t", 0) == 100_001 && CountWithin(w.log, "t", 0, 10) == 100_001
            && CountSince(w.log, "t", 10) == 0
  {
    hide CountWithin, CountSince, Served;
    var visit := Visit(EXAMPLE_SUB, Completes, WriteFails);
    ServedWorld(100_001);
    AfterSnoc(Served(100_001), visit);
    jobs := Served(100_001) + [visit];
  }

  lemma OneList(served: seq<Job>, a: Job, b: Job, c: Job)
    ensures served + [a] + [b] + [c] == served + [a, b, c]
  {
  }

  /** The row write is lost at overage 1, a request arrives, the next cycle pushes 2 under a new
      identifier from the old baseline: Stripe has 3 where the mark says 2. */
  lemma LostWriteThenGrowthOverbills() returns (jobs: seq<Job>)
    ensures jobs == Served(100_001) + [Visit(EXAMPLE_SUB, Completes, WriteFails), Serve(Request("t", 5)),
                                       Visit(EXAMPLE_SUB, Completes, Completes)]
    ensures var key := Key("sub_1", 0);
            Billed(After(jobs).meter, key) == 3 && MarkOf(After(jobs).reports, key) == 2
  {
    hide Served, After, CountWithin, CountSince;
    var sub, row := EXAMPLE_SUB, Protocol.FreshReport(EXAMPLE_SUB);
    var b := AfterLostWrite();
    var c := b + [Serve(Request("t", 5))];
    jobs := c + [Visit(sub, Completes, Completes)];
    OneList(Served(100_001), Visit(sub, Completes, WriteFails), Serve(Request("t", 5)), Visit(sub, Completes, Completes));
    AfterSnoc(b, Serve(Request("t", 5)));
    AfterSnoc(c, Visit(sub, Completes, Completes));
    OneMoreCounted(After(b).log, Request("t", 5));
    GrowthPush(After(c), row, RunJobs(EmptyWorld, c, ZERO).stats);
    BilledAppend([], EventFor(sub, row, 1, false), row.key, 0);
    BilledAppend([EventFor(sub, row, 1, false)], EventFor(sub, row, 2, false), row.key, 0);
  }

  lemma OneMoreCounted(log: seq<Request>, r: Request)
    requires r.tenant == "t" && r.at == 5
    ensures CountSince(log + [r], "t", 0) == CountSince(log, "t", 0) + 1
  {
    assert (log + [r])[..|log|] == log;
  }

  lemma GrowthPush(w: World, row: Report, s: Stats)
    requires row == Protocol.FreshReport(EXAMPLE_SUB)
    requires w.meter == [EventFor(EXAMPLE_SUB, row, 1, false)] && w.reports == map[row.key := row]
    requires CountSince(w.log, "t", 0) == 100_002
    ensures var w' := SubscriptionPass(w, EXAMPLE_SUB, Completes, Completes, s).world;
            w'.meter == [EventFor(EXAMPLE_SUB, row, 1, false)] + [EventFor(EXAMPLE_SUB, row, 2, false)]
            && MarkOf(w'.reports, row.key) == 2
  {
    hide CountSince, CountWithin;
    assert CurrentOverage(w, EXAMPLE_SUB) == 2;
    VisitIsOnward(w, EXAMPLE_SUB, Completes, Completes, s);
  }

  /** The row write is lost just before renewal: the rollover flush repeats the same overage under
      the ":final" identifier, which Stripe does not recognise, and the unit is billed twice. */
  lemma LostWriteThenRenewalOverbills() returns (jobs: seq<Job>)
    ensures jobs == Served(100_001) + [Visit(EXAMPLE_SUB, Completes, WriteFails),
                                       Visit(EXAMPLE_SUB.(start := 10, end := 20), Completes, Completes)]
    ensures var key := Key("sub_1", 0);
            Billed(After(jobs).meter, key) == 2 && MarkOf(After(jobs).reports, key) == 1
  {
    hide CountSince, CountWithin, After;
    var sub, row := EXAMPLE_SUB, Protocol.FreshReport(EXAMPLE_SUB);
    var renewed := sub.(start := 10, end := 20);
    var b := AfterLostWrite();
    jobs := b + [Visit(renewed, Completes, Completes)];
    AfterSnoc(b, Visit(renewed, Completes, Completes));
    assert Stale(After(b).reports, renewed, row.key);
    RenewalFlush(After(b), renewed, row, RunJobs(EmptyWorld, b, ZERO).stats);
    BilledAppend([], EventFor(sub, row, 1, false), row.key, 0);
    BilledAppend([EventFor(sub, row, 1, false)], EventFor(renewed, row, 1, true), row.key, 0);
  }

  lemma RenewalFlush(w: World, renewed: Subscription, row: Report, s: Stats)
    requires row == Protocol.FreshReport(EXAMPLE_SUB) && renewed == EXAMPLE_SUB.(start := 10, end := 20)
    requires w.meter == [EventFor(EXAMPLE_SUB, row, 1, false)] && w.reports == map[row.key := row]
    requires CountWithin(w.log, "t", 0, 10) == 100_001 && CountSince(w.log, "t", 10) == 0
    ensures var w' := SubscriptionPass(w, renewed, Completes, Completes, s).world;
            w'.meter == [EventFor(EXAMPLE_SUB, row, 1, false)] + [EventFor(renewed, row, 1, true)]
            && MarkOf(w'.reports, row.key) == 1
  {
    hide CountSince, CountWithin;
    assert Stale(w.reports, renewed, row.key);
    assert FindStale(w.reports, renewed) == Some(row.key);
    var flushed := RolloverPass(w, renewed, Completes, s.(evaluated := s.evaluated + 1));
    assert flushed.world.meter == [EventFor(EXAMPLE_SUB, row, 1, false)] + [EventFor(renewed, row, 1, true)];
    assert CurrentOverage(flushed.world, renewed) == 0;
    VisitIsOnward(w, renewed, Completes, Completes, s);
  }
}
