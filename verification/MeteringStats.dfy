/** What a cycle reports of itself (billing/usage.ts, UsageCycleStats): its statistics against what
    happened to the rows. */
module MeteringStats {
  import opened Options
  import opened Metering
  import opened MeteringCycle
  import Protocol = MeteringProtocol
  import Exactness = MeteringExactness

  // ---------------------------------------------------------------- the sum of all marks

  ghost function TotalMarks(reports: Reports): nat
    decreases |reports|
  {
    if reports == map[] then 0
    else
      var k :| k in reports;
      reports[k].mark + TotalMarks(reports - {k})
  }

  lemma {:induction false} TotalWithout(reports: Reports, key: Key)
    requires key in reports
    ensures TotalMarks(reports) == reports[key].mark + TotalMarks(reports - {key})
    decreases |reports|
  {
    var k :| k in reports && TotalMarks(reports) == reports[k].mark + TotalMarks(reports - {k});
    if k != key {
      TotalWithout(reports - {k}, key);
      TotalWithout(reports - {key}, k);
      assert reports - {k} - {key} == reports - {key} - {k};
    }
  }

  lemma TotalUpdate(reports: Reports, key: Key, row: Report)
    ensures TotalMarks(reports[key := row]) + Exactness.MarkOf(reports, key) == TotalMarks(reports) + row.mark
  {
    var updated := reports[key := row];
    TotalWithout(updated, key);
    if key in reports {
      TotalWithout(reports, key);
      assert updated - {key} == reports - {key};
    } else {
      assert updated - {key} == reports;
    }
  }

  /** One row's mark rises, by `rise`; all others stay. */
  ghost predicate Rises(before: Reports, after: Reports, key: Key, rise: nat) {
    TotalMarks(after) == TotalMarks(before) + rise
    && forall k :: Exactness.MarkOf(after, k) == Exactness.MarkOf(before, k) + if k == key then rise else 0
  }

  lemma UpdateRises(reports: Reports, key: Key, row: Report)
    requires row.mark >= Exactness.MarkOf(reports, key)
    ensures Rises(reports, reports[key := row], key, row.mark - Exactness.MarkOf(reports, key))
  {
    TotalUpdate(reports, key, row);
  }

  // ---------------------------------------------------------------- one part of a visit

  /** What one push-then-write adds to the statistics: a row and its rise, an error, or nothing. */
  ghost predicate Told(s: Stats, s': Stats, rise: nat, failed: bool) {
    s' == Stats(s.evaluated, s.written + (if rise > 0 then 1 else 0), s.delta + rise, s.errors + (if failed then 1 else 0))
  }

  lemma PushTold(w: World, sub: Subscription, row: Report, target: nat, final: bool, o: Outcome, s: Stats) returns (rise: nat)
    requires row.mark < target && row.key in w.reports && w.reports[row.key] == row
    ensures var p := PushAndWrite(w, sub, row, target, final, o, s);
            rise == (if o == Completes then target - row.mark else 0)
            && Rises(w.reports, p.world.reports, row.key, rise) && Told(s, p.stats, rise, o != Completes)
  {
    rise := if o == Completes then target - row.mark else 0;
    UpdateRises(w.reports, row.key, Advanced(row, row, target, final));
  }

  lemma FlushTold(w: World, sub: Subscription, o: Outcome, s: Stats) returns (key: Key, rise: nat)
    requires Keyed(w.reports)
    ensures var p := RolloverPass(w, sub, o, s);
            key != Key(sub.id, sub.start) && Rises(w.reports, p.world.reports, key, rise)
            && Told(s, p.stats, rise, p.stats.errors > s.errors) && (o == Completes ==> p.stats.errors == s.errors)
            && (p.stats.errors > s.errors ==> !p.go) && Keyed(p.world.reports)
            && p.world.reports.Keys == w.reports.Keys
            && forall k :: k in w.reports ==> p.world.reports[k].tenant == w.reports[k].tenant
  {
    hide ClosedOverage, TotalMarks;
    key, rise := Key(sub.id, sub.start + 1), 0;
    match FindStale(w.reports, sub)
    case None =>
    case Some(k) =>
      key := k;
      var row := w.reports[k];
      if ClosedOverage(w, sub, row) > row.mark {
        rise := PushTold(w, sub, row, ClosedOverage(w, sub, row), true, o, s);
      } else {
        UpdateRises(w.reports, k, row.(finalized := true));
      }
  }

  lemma ReportTold(w: World, sub: Subscription, o: Outcome, s: Stats) returns (rise: nat)
    requires Keyed(w.reports)
    ensures var p := CurrentPass(w, sub, o, s);
            Rises(w.reports, p.world.reports, Key(sub.id, sub.start), rise)
            && Told(s, p.stats, rise, p.stats.errors > s.errors)
            && (o == Completes && (Key(sub.id, sub.start) in w.reports || !Protocol.InsertClashes(w.reports, sub)) ==>
                  p.stats.errors == s.errors)
            && Keyed(p.world.reports)
  {
    hide CurrentOverage, TotalMarks, Protocol.InsertClashes;
    var key := Key(sub.id, sub.start);
    var w1 := w.(reports := WithCurrentRow(w.reports, sub));
    rise := 0;
    if key !in w.reports { UpdateRises(w.reports, key, Protocol.FreshReport(sub)); }
    if key in w1.reports && CurrentOverage(w, sub) > w1.reports[key].mark {
      rise := PushTold(w1, sub, w1.reports[key], CurrentOverage(w, sub), false, o, s);
    }
  }

  // ---------------------------------------------------------------- visits and cycles

  /** A visit evaluates one subscription; it counts as written the rows whose mark rose, and as reported
      the requests by which they rose; it fails at most once, and not when nothing goes wrong. */
  lemma VisitTold(w: World, sub: Subscription, ro: Outcome, co: Outcome, s: Stats)
    requires Keyed(w.reports)
    ensures var p := SubscriptionPass(w, sub, ro, co, s);
            p.stats.evaluated == s.evaluated + 1
            && p.stats.delta - s.delta == TotalMarks(p.world.reports) - TotalMarks(w.reports)
            && p.stats.written - s.written
               == |set k | k in p.world.reports && p.world.reports[k].mark > Exactness.MarkOf(w.reports, k)|
            && s.errors <= p.stats.errors <= s.errors + 1
            && (ro == Completes && co == Completes
                && (Key(sub.id, sub.start) in w.reports || !Protocol.InsertClashes(w.reports, sub)) ==>
                  p.stats.errors == s.errors)
            && Keyed(p.world.reports)
  {
    hide RolloverPass, CurrentPass, Keyed, TotalMarks;
    var p := SubscriptionPass(w, sub, ro, co, s);
    var raised := set k | k in p.world.reports && p.world.reports[k].mark > Exactness.MarkOf(w.reports, k);
    if Metered(sub) {
      VisitIsOnward(w, sub, ro, co, s);
      var s1 := s.(evaluated := s.evaluated + 1);
      var flushed := RolloverPass(w, sub, ro, s1);
      var key, rise := FlushTold(w, sub, ro, s1);
      var own := Key(sub.id, sub.start);
      if flushed.go {
        var more := ReportTold(flushed.world, sub, co, flushed.stats);
        Raised(w.reports, flushed.world.reports, p.world.reports, key, rise, own, more);
      } else {
        RaisedOne(w.reports, p.world.reports, key, rise);
      }
    } else {
      assert raised == {};
    }
  }

  lemma RaisedOne(before: Reports, after: Reports, key: Key, rise: nat)
    requires Rises(before, after, key, rise)
    ensures |set k | k in after && after[k].mark > Exactness.MarkOf(before, k)| == if rise > 0 then 1 else 0
  {
    hide TotalMarks;
    var raised := set k | k in after && after[k].mark > Exactness.MarkOf(before, k);
    assert Exactness.MarkOf(after, key) == Exactness.MarkOf(before, key) + rise;
    forall k | k in raised ensures k == key {
      assert Exactness.MarkOf(after, k) == Exactness.MarkOf(before, k) + if k == key then rise else 0;
    }
    assert raised == if rise > 0 then {key} else {};
  }

  lemma Raised(before: Reports, mid: Reports, after: Reports, key: Key, rise: nat, own: Key, more: nat)
    requires key != own && Rises(before, mid, key, rise) && Rises(mid, after, own, more)
    ensures |set k | k in after && after[k].mark > Exactness.MarkOf(before, k)|
            == (if rise > 0 then 1 else 0) + if more > 0 then 1 else 0
  {
    hide TotalMarks;
    var raised := set k | k in after && after[k].mark > Exactness.MarkOf(before, k);
    forall k ensures Exactness.MarkOf(after, k)
                     == Exactness.MarkOf(before, k) + (if k == key then rise else 0) + if k == own then more else 0
    {
      assert Exactness.MarkOf(mid, k) == Exactness.MarkOf(before, k) + if k == key then rise else 0;
    }
    assert raised == (if rise > 0 then {key} else {}) + if more > 0 then {own} else {};
  }

  function VisitCount(jobs: seq<Job>): nat {
    if jobs == [] then 0 else VisitCount(jobs[..|jobs| - 1]) + if jobs[|jobs| - 1].Visit? then 1 else 0
  }

  /** The requests a cycle says it reported are exactly those by which the marks of all rows rose,
      whatever failed; and every visit is counted. */
  lemma {:induction false} ReportedIsRisen(w: World, jobs: seq<Job>, s: Stats)
    requires Keyed(w.reports)
    ensures var p := RunJobs(w, jobs, s);
            p.stats.delta - s.delta == TotalMarks(p.world.reports) - TotalMarks(w.reports)
            && p.stats.evaluated == s.evaluated + VisitCount(jobs)
            && s.errors <= p.stats.errors <= s.errors + VisitCount(jobs)
            && Keyed(p.world.reports)
  {
    if jobs != [] {
      hide SubscriptionPass, Keyed, TotalMarks;
      var front, last := jobs[..|jobs| - 1], jobs[|jobs| - 1];
      ReportedIsRisen(w, front, s);
      var before := RunJobs(w, front, s);
      if last.Visit? { VisitTold(before.world, last.sub, last.rollover, last.current, before.stats); }
    }
  }
}
