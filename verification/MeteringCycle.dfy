/** The reporting cycle run to completion, one cycle at a time, with each Stripe push or row write
    allowed to fail (billing/usage.ts, runUsageReportCycle): the cycle itself as a class over the
    tables, and what a history of such cycles bills. */
module MeteringCycle {
  import opened Options
  import opened Metering
  import Protocol = MeteringProtocol

  // ---------------------------------------------------------------- specification of one pass

  datatype World = World(log: seq<Request>, reports: Reports, meter: Meter)

  const EmptyWorld := World([], map[], [])

  /** How a push-then-write attempt ends: done, push rejected, or pushed but row write lost. */
  datatype Outcome = Completes | PushFails | WriteFails

  datatype Stats = Stats(evaluated: nat, written: nat, delta: nat, errors: nat)

  /** `go` says whether the loop body carries on after this part. */
  datatype Pass = Pass(world: World, go: bool, stats: Stats)

  function Stopped(w: World, s: Stats): Pass { Pass(w, false, s.(errors := s.errors + 1)) }

  function PushAndWrite(w: World, sub: Subscription, row: Report, target: nat, final: bool, o: Outcome, s: Stats): Pass
    requires row.mark < target
  {
    var pushed := w.(meter := Submit(w.meter, EventFor(sub, row, target, final)));
    match o
    case PushFails => Stopped(w, s)
    case WriteFails => Stopped(pushed, s)
    case Completes =>
      if CasHolds(w.reports, row) then
        Pass(pushed.(reports := CasWrite(w.reports, row, target, final)), true,
             s.(written := s.written + 1, delta := s.delta + (target - row.mark)))
      else Pass(pushed, false, s)
  }

  function ClosedOverage(w: World, sub: Subscription, row: Report): nat {
    Overage(CountWithin(w.log, sub.tenant, row.key.start, row.end), sub.tier)
  }

  function CurrentOverage(w: World, sub: Subscription): nat {
    Overage(CountSince(w.log, sub.tenant, sub.start), sub.tier)
  }

  function RolloverPass(w: World, sub: Subscription, o: Outcome, s: Stats): Pass {
    match FindStale(w.reports, sub)
    case None => Pass(w, true, s)
    case Some(key) =>
      var row := w.reports[key];
      var overage := ClosedOverage(w, sub, row);
      if overage > row.mark then PushAndWrite(w, sub, row, overage, true, o, s)
      else if o == WriteFails then Stopped(w, s)
      else Pass(w.(reports := MarkFinalized(w.reports, key)), true, s)
  }

  function WithCurrentRow(reports: Reports, sub: Subscription): Reports {
    var key := Key(sub.id, sub.start);
    if key in reports || Protocol.InsertClashes(reports, sub) then reports
    else reports[key := Protocol.FreshReport(sub)]
  }

  function CurrentPass(w: World, sub: Subscription, o: Outcome, s: Stats): Pass {
    var key := Key(sub.id, sub.start);
    var w1 := w.(reports := WithCurrentRow(w.reports, sub));
    if key !in w1.reports then Stopped(w, s)
    else
      var row := w1.reports[key];
      var overage := CurrentOverage(w, sub);
      if overage <= row.mark then Pass(w1, false, s)
      else PushAndWrite(w1, sub, row, overage, false, o, s)
  }

  function SubscriptionPass(w: World, sub: Subscription, rollover: Outcome, current: Outcome, s: Stats): Pass {
    var s1 := s.(evaluated := s.evaluated + 1);
    if !Metered(sub) then Pass(w, false, s1)
    else Onward(RolloverPass(w, sub, rollover, s1), sub, current)
  }

  function Onward(flushed: Pass, sub: Subscription, current: Outcome): Pass {
    if flushed.go then CurrentPass(flushed.world, sub, current, flushed.stats) else flushed
  }

  /** A metered visit is the rollover pass, then, unless that ended it, the current pass. */
  lemma VisitIsOnward(w: World, sub: Subscription, ro: Outcome, co: Outcome, s: Stats)
    requires Metered(sub)
    ensures SubscriptionPass(w, sub, ro, co, s)
         == Onward(RolloverPass(w, sub, ro, s.(evaluated := s.evaluated + 1)), sub, co)
  {
    hide RolloverPass, Onward;
  }

  datatype Job =
    | Serve(request: Request)
    | Visit(sub: Subscription, rollover: Outcome, current: Outcome)

  function Do(w: World, job: Job, s: Stats): Pass {
    match job
    case Serve(request) => Pass(w.(log := w.log + [request]), true, s)
    case Visit(sub, rollover, current) => SubscriptionPass(w, sub, rollover, current, s)
  }

  function RunJobs(w: World, jobs: seq<Job>, s: Stats): Pass {
    if jobs == [] then Pass(w, true, s)
    else
      var before := RunJobs(w, jobs[..|jobs| - 1], s);
      Do(before.world, jobs[|jobs| - 1], before.stats)
  }

  function After(jobs: seq<Job>): World { RunJobs(EmptyWorld, jobs, Stats(0, 0, 0, 0)).world }

  // ---------------------------------------------------------------- the cycle as written

  /** What fails while one subscription is processed. */
  datatype Faults = Faults(rollover: Outcome, current: Outcome)

  function Visits(active: seq<Subscription>, faults: seq<Faults>): seq<Job>
    requires |active| == |faults|
  {
    seq(|active|, i requires 0 <= i < |active| => Visit(active[i], faults[i].rollover, faults[i].current))
  }

  class UsageReporter {
    var log: seq<Request>
    var reports: Reports
    var meter: Meter

    function State(): World
      reads this
    {
      World(log, reports, meter)
    }

    method PushMeterEvent(event: MeterEvent)
      modifies this`meter
      ensures meter == Submit(old(meter), event)
    {
      if !Has(meter, event.ident) {
        meter := meter + [event];
      }
    }

    method UpdateReportOptimistically(row: Report, target: nat, final: bool) returns (updated: bool)
      requires row.mark <= target
      modifies this`reports
      ensures updated == CasHolds(old(reports), row)
      ensures reports == CasWrite(old(reports), row, target, final)
    {
      updated := row.key in reports && reports[row.key].mark == row.mark;
      if updated {
        reports := reports[row.key := Advanced(reports[row.key], row, target, final)];
      }
    }

    method GetOrCreateReportRow(sub: Subscription) returns (row: Option<Report>)
      modifies this`reports
      ensures reports == WithCurrentRow(old(reports), sub)
      ensures row == if Key(sub.id, sub.start) in reports then Some(reports[Key(sub.id, sub.start)]) else None
    {
      var key := Key(sub.id, sub.start);
      if key in reports {
        return Some(reports[key]);
      }
      if Protocol.InsertClashes(reports, sub) {
        return None;
      }
      reports := reports[key := Protocol.FreshReport(sub)];
      row := Some(reports[key]);
    }

    /** One push and its row write; `threw` when either fails, `updated` when the row moved. */
    method PushThenWrite(sub: Subscription, row: Report, target: nat, final: bool, o: Outcome)
        returns (threw: bool, updated: bool)
      requires row.mark < target
      modifies this`reports, this`meter
      ensures var p := PushAndWrite(old(State()), sub, row, target, final, o, Stats(0, 0, 0, 0));
              State() == p.world && threw == (p.stats.errors == 1) && updated == p.go
              && (updated ==> p.stats == Stats(0, 1, target - row.mark, 0))
              && (!threw && !updated ==> p.stats == Stats(0, 0, 0, 0))
    {
      threw, updated := false, false;
      if o == PushFails {
        threw := true;
        return;
      }
      PushMeterEvent(EventFor(sub, row, target, final));
      if o == WriteFails {
        threw := true;
        return;
      }
      updated := UpdateReportOptimistically(row, target, final);
    }

    /** One nightly cycle over the active subscriptions. */
    method RunUsageReportCycle(active: seq<Subscription>, faults: seq<Faults>) returns (stats: Stats)
      requires |active| == |faults|
      modifies this`reports, this`meter
      ensures var p := RunJobs(old(State()), Visits(active, faults), Stats(0, 0, 0, 0));
              State() == p.world && stats == p.stats
    {
      stats := Stats(0, 0, 0, 0);
      ghost var w0 := State();
      ghost var jobs := Visits(active, faults);
      var i := 0;
      while i < |active|
        invariant 0 <= i <= |active|
        invariant RunJobs(w0, jobs[..i], Stats(0, 0, 0, 0)).world == State()
        invariant RunJobs(w0, jobs[..i], Stats(0, 0, 0, 0)).stats == stats
      {
        ghost var before, w := stats, State();
        assert jobs[..i + 1][..i] == jobs[..i];
        assert jobs[..i + 1][i] == Visit(active[i], faults[i].rollover, faults[i].current);
        stats := VisitSubscription(active[i], faults[i], stats);
        assert RunJobs(w0, jobs[..i + 1], Stats(0, 0, 0, 0)) == Do(w, jobs[i], before);
        i := i + 1;
      }
      assert jobs[..i] == jobs;
    }

    /** Flushes the newest stale row, if any; `go` is false where the loop body ends early. */
    method FlushStale(sub: Subscription, o: Outcome, stats0: Stats) returns (go: bool, stats: Stats)
      modifies this`reports, this`meter
      ensures var p := RolloverPass(old(State()), sub, o, stats0);
              State() == p.world && stats == p.stats && go == p.go
    {
      stats := stats0;
      var stale := FindStale(reports, sub);
      if stale == None {
        return true, stats;
      }
      var row := reports[stale.value];
      var overage := Overage(CountWithin(log, sub.tenant, row.key.start, row.end), sub.tier);
      if overage > row.mark {
        var threw, updated := PushThenWrite(sub, row, overage, true, o);
        if threw {
          return false, stats.(errors := stats.errors + 1);
        }
        if !updated {
          return false, stats;
        }
        return true, stats.(written := stats.written + 1, delta := stats.delta + (overage - row.mark));
      }
      if o == WriteFails {
        return false, stats.(errors := stats.errors + 1);
      }
      reports := reports[stale.value := reports[stale.value].(finalized := true)];
      go := true;
    }

    method ReportCurrent(sub: Subscription, o: Outcome, stats0: Stats) returns (stats: Stats)
      modifies this`reports, this`meter
      ensures var p := CurrentPass(old(State()), sub, o, stats0);
              State() == p.world && stats == p.stats
    {
      stats := stats0;
      var overage := Overage(CountSince(log, sub.tenant, sub.start), sub.tier);
      var report := GetOrCreateReportRow(sub);
      if report == None {
        return stats.(errors := stats.errors + 1);
      }
      var row := report.value;
      if overage <= row.mark {
        return;
      }
      var threw, updated := PushThenWrite(sub, row, overage, false, o);
      if threw {
        stats := stats.(errors := stats.errors + 1);
      } else if updated {
        stats := stats.(written := stats.written + 1, delta := stats.delta + (overage - row.mark));
      }
    }

    /** The loop body: rollover self-heal pass, then current-period pass. */
    method VisitSubscription(sub: Subscription, fault: Faults, stats0: Stats) returns (stats: Stats)
      modifies this`reports, this`meter
      ensures var p := SubscriptionPass(old(State()), sub, fault.rollover, fault.current, stats0);
              State() == p.world && stats == p.stats
    {
      hide RolloverPass, CurrentPass;
      stats := stats0.(evaluated := stats0.evaluated + 1);
      if sub.tier != Pro && sub.tier != Team {
        return;
      }
      var go;
      go, stats := FlushStale(sub, fault.rollover, stats);
      if go {
        stats := ReportCurrent(sub, fault.current, stats);
      }
    }
  }
}
