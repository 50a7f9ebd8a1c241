/** A cycle run on its own is one of the interleavings of the racing machine, so everything proved
    of all interleavings holds of it too (billing/usage.ts, runUsageReportCycle). */
module MeteringRefinement {
  import opened Options
  import opened Metering
  import opened MeteringCycle
  import opened MeteringProtocol

  function WorldOf(st: State): World { World(st.log, st.reports, st.meter) }

  /** The state once process `pid` has reached `pc` with the tables of `w`. */
  function Moved(st: State, pid: nat, pc: Pc, w: World): State
    requires pid in st.procs
  {
    st.(reports := w.reports, meter := w.meter, procs := st.procs[pid := st.procs[pid].(pc := pc)])
  }

  lemma RunSnoc(st: State, actions: seq<Action>, action: Action)
    ensures Run(st, actions + [action]) == Step(Run(st, actions), action)
  {
    assert (actions + [action])[..|actions|] == actions;
  }

  lemma {:induction false} RunConcat(st: State, first: seq<Action>, second: seq<Action>)
    ensures Run(st, first + second) == Run(Run(st, first), second)
  {
    if second == [] {
      assert first + second == first;
    } else {
      var front, last := second[..|second| - 1], second[|second| - 1];
      RunConcat(st, first, front);
      assert first + second == (first + front) + [last];
      RunSnoc(st, first + front, last);
    }
  }

  /** After `actions` the process is at `pc` with the tables of `w`, everything else as in `st`. */
  ghost predicate Gets(st: State, pid: nat, actions: seq<Action>, pc: Pc, w: World) {
    pid in st.procs && w.log == st.log && Run(st, actions) == Moved(st, pid, pc, w)
  }

  lemma Extend(st: State, pid: nat, actions: seq<Action>, pc: Pc, w: World, action: Action, pc': Pc, w': World)
    requires Gets(st, pid, actions, pc, w) && w'.log == w.log
    requires Step(Moved(st, pid, pc, w), action) == Moved(Moved(st, pid, pc, w), pid, pc', w')
    ensures Gets(st, pid, actions + [action], pc', w')
  {
    RunSnoc(st, actions, action);
    assert Moved(Moved(st, pid, pc, w), pid, pc', w') == Moved(st, pid, pc', w');
  }

  /** The next call succeeds. */
  lemma Forward(st: State, pid: nat, actions: seq<Action>, pc: Pc, w: World, pc': Pc, w': World)
    requires Gets(st, pid, actions, pc, w) && !pc.Between? && w'.log == w.log
    requires var move := Next(Moved(st, pid, pc, w), st.procs[pid].(pc := pc));
             move.proc == st.procs[pid].(pc := pc') && move.reports == w'.reports && move.meter == w'.meter
    ensures Gets(st, pid, actions + [Advance(pid)], pc', w')
  {
    hide Next;
    Extend(st, pid, actions, pc, w, Advance(pid), pc', w');
  }

  /** The next call throws. */
  lemma Throws(st: State, pid: nat, actions: seq<Action>, pc: Pc, w: World)
    requires Gets(st, pid, actions, pc, w)
    ensures Gets(st, pid, actions + [Fail(pid)], Between, w)
  {
    hide Next;
    Extend(st, pid, actions, pc, w, Fail(pid), Between, w);
  }

  lemma PushLandsThenThrows(st: State, pid: nat, actions: seq<Action>, w: World, sub: Subscription, row: Report,
                            target: nat, final: bool)
    requires row.mark < target && Gets(st, pid, actions, AtPush(sub, row, target, final), w)
    ensures Gets(st, pid, actions + [PushThenFail(pid)], Between,
                 w.(meter := Submit(w.meter, EventFor(sub, row, target, final))))
  {
    hide Submit, EventFor;
    Extend(st, pid, actions, AtPush(sub, row, target, final), w, PushThenFail(pid), Between,
           w.(meter := Submit(w.meter, EventFor(sub, row, target, final))));
  }

  /** The push-and-write tail, however it ends, from the point where the push is due. */
  lemma PushSteps(st: State, pid: nat, actions: seq<Action>, w: World, sub: Subscription, row: Report,
                  target: nat, final: bool, o: Outcome, s: Stats) returns (all: seq<Action>)
    requires row.mark < target && row.key in w.reports && w.reports[row.key] == row
    requires Gets(st, pid, actions, AtPush(sub, row, target, final), w)
    ensures var p := PushAndWrite(w, sub, row, target, final, o, s);
            Gets(st, pid, all, if p.go && final then AtCount(sub) else Between, p.world)
  {
    hide Step, Run, Moved, Submit, EventFor, CasWrite;
    match o {
      case PushFails =>
        all := actions + [Fail(pid)];
        Throws(st, pid, actions, AtPush(sub, row, target, final), w);
      case WriteFails =>
        all := actions + [PushThenFail(pid)];
        PushLandsThenThrows(st, pid, actions, w, sub, row, target, final);
      case Completes =>
        all := PushCompletes(st, pid, actions, w, sub, row, target, final);
    }
  }

  lemma PushCompletes(st: State, pid: nat, actions: seq<Action>, w: World, sub: Subscription, row: Report,
                      target: nat, final: bool) returns (all: seq<Action>)
    requires row.mark < target && CasHolds(w.reports, row)
    requires Gets(st, pid, actions, AtPush(sub, row, target, final), w)
    ensures Gets(st, pid, all, if final then AtCount(sub) else Between,
                 World(w.log, CasWrite(w.reports, row, target, final), Submit(w.meter, EventFor(sub, row, target, final))))
  {
    hide Step, Run, Submit, EventFor, CasWrite;
    var pushed := w.(meter := Submit(w.meter, EventFor(sub, row, target, final)));
    var atWrite := AtWrite(sub, row, target, final);
    Forward(st, pid, actions, AtPush(sub, row, target, final), w, atWrite, pushed);
    Forward(st, pid, actions + [Advance(pid)], atWrite, pushed, if final then AtCount(sub) else Between,
            pushed.(reports := CasWrite(w.reports, row, target, final)));
    all := actions + [Advance(pid)] + [Advance(pid)];
  }

  lemma RolloverSteps(st: State, pid: nat, sub: Subscription, o: Outcome, s: Stats) returns (all: seq<Action>)
    requires pid in st.procs && st.procs[pid].pc == AtStale(sub) && Keyed(st.reports)
    ensures var p := RolloverPass(WorldOf(st), sub, o, s);
            Gets(st, pid, all, if p.go then AtCount(sub) else Between, p.world)
  {
    hide Step, Submit, EventFor, CasWrite, PushAndWrite, CountWithin;
    var w := WorldOf(st);
    assert Gets(st, pid, [], AtStale(sub), w);
    var found := FindStale(st.reports, sub);
    if found == None {
      Forward(st, pid, [], AtStale(sub), w, AtCount(sub), w);
      all := [] + [Advance(pid)];
    } else {
      all := StaleSteps(st, pid, sub, found.value, o, s);
    }
  }

  lemma StaleSteps(st: State, pid: nat, sub: Subscription, key: Key, o: Outcome, s: Stats) returns (all: seq<Action>)
    requires pid in st.procs && st.procs[pid].pc == AtStale(sub) && Keyed(st.reports)
    requires FindStale(st.reports, sub) == Some(key)
    ensures var p := RolloverPass(WorldOf(st), sub, o, s);
            Gets(st, pid, all, if p.go then AtCount(sub) else Between, p.world)
  {
    hide Step, Submit, EventFor, CasWrite, PushAndWrite, CountWithin;
    var w, row := WorldOf(st), st.reports[key];
    var overage := ClosedOverage(w, sub, row);
    var go := Advance(pid);
    assert Gets(st, pid, [], AtStale(sub), w);
    Forward(st, pid, [], AtStale(sub), w, AtCountStale(sub, row), w);
    var acts := [] + [go] + [go];
    if overage > row.mark {
      Forward(st, pid, [] + [go], AtCountStale(sub, row), w, AtPush(sub, row, overage, true), w);
      all := PushSteps(st, pid, acts, w, sub, row, overage, true, o, s);
    } else {
      Forward(st, pid, [] + [go], AtCountStale(sub, row), w, AtFinalize(sub, row), w);
      if o == WriteFails {
        Throws(st, pid, acts, AtFinalize(sub, row), w);
        all := acts + [Fail(pid)];
      } else {
        Forward(st, pid, acts, AtFinalize(sub, row), w, AtCount(sub), w.(reports := MarkFinalized(w.reports, key)));
        all := acts + [go];
      }
    }
  }

  /** From the count to the comparison with the row, creating the row where there is none. */
  lemma CompareSteps(st: State, pid: nat, sub: Subscription) returns (all: seq<Action>)
    requires pid in st.procs && st.procs[pid].pc == AtCount(sub)
    ensures var w := WorldOf(st); var key := Key(sub.id, sub.start);
            var w1 := w.(reports := WithCurrentRow(w.reports, sub));
            Gets(st, pid, all,
                 if key in w1.reports then CompareWithReport(sub, w1.reports[key], CurrentOverage(w, sub)) else Between,
                 w1)
  {
    hide Step, CountSince;
    var w, key, go := WorldOf(st), Key(sub.id, sub.start), Advance(pid);
    var overage := CurrentOverage(w, sub);
    var w1 := w.(reports := WithCurrentRow(w.reports, sub));
    assert Gets(st, pid, [], AtCount(sub), w);
    Forward(st, pid, [], AtCount(sub), w, AtFind(sub, overage), w);
    var acts := [] + [go] + [go];
    if key in w.reports {
      Forward(st, pid, [] + [go], AtFind(sub, overage), w, CompareWithReport(sub, w.reports[key], overage), w);
      all := acts;
    } else {
      Forward(st, pid, [] + [go], AtFind(sub, overage), w, AtInsert(sub, overage), w);
      if InsertClashes(w.reports, sub) {
        Forward(st, pid, acts, AtInsert(sub, overage), w, Between, w);
        all := acts + [go];
      } else {
        Forward(st, pid, acts, AtInsert(sub, overage), w, AtReread(sub, overage), w1);
        Forward(st, pid, acts + [go], AtReread(sub, overage), w1, CompareWithReport(sub, w1.reports[key], overage), w1);
        all := acts + [go] + [go];
      }
    }
  }

  lemma CurrentSteps(st: State, pid: nat, sub: Subscription, o: Outcome, s: Stats) returns (all: seq<Action>)
    requires pid in st.procs && st.procs[pid].pc == AtCount(sub) && Keyed(st.reports)
    ensures Gets(st, pid, all, Between, CurrentPass(WorldOf(st), sub, o, s).world)
  {
    hide Gets, InsertClashes, PushAndWrite;
    all := CompareSteps(st, pid, sub);
    var w, key := WorldOf(st), Key(sub.id, sub.start);
    var w1 := w.(reports := WithCurrentRow(w.reports, sub));
    if key in w1.reports && CurrentOverage(w, sub) > w1.reports[key].mark {
      all := PushSteps(st, pid, all, w1, sub, w1.reports[key], CurrentOverage(w, sub), false, o, s);
    }
  }

  lemma RolloverKeepsKeyed(w: World, sub: Subscription, o: Outcome, s: Stats)
    requires Keyed(w.reports)
    ensures Keyed(RolloverPass(w, sub, o, s).world.reports) && RolloverPass(w, sub, o, s).world.log == w.log
  {
  }

  /** Rollover pass, then current pass unless the first ended the visit. */
  lemma MeteredSteps(st: State, pid: nat, sub: Subscription, ro: Outcome, co: Outcome, s: Stats)
      returns (all: seq<Action>)
    requires pid in st.procs && st.procs[pid].pc == AtStale(sub) && Keyed(st.reports)
    ensures Run(st, all) == Moved(st, pid, Between, Onward(RolloverPass(WorldOf(st), sub, ro, s), sub, co).world)
  {
    hide RolloverPass, CurrentPass, Step, Keyed;
    var flushed := RolloverPass(WorldOf(st), sub, ro, s);
    all := RolloverSteps(st, pid, sub, ro, s);
    if flushed.go {
      var mid := Moved(st, pid, AtCount(sub), flushed.world);
      RolloverKeepsKeyed(WorldOf(st), sub, ro, s);
      assert WorldOf(mid) == flushed.world;
      var report := CurrentSteps(mid, pid, sub, co, flushed.stats);
      RunConcat(st, all, report);
      all := all + report;
      var after := CurrentPass(flushed.world, sub, co, flushed.stats).world;
      assert Moved(mid, pid, Between, after) == Moved(st, pid, Between, after);
    }
  }

  function Taken(st: State, pid: nat): State
    requires pid in st.procs && st.procs[pid].todo != []
  {
    var todo := st.procs[pid].todo;
    st.(procs := st.procs[pid := Proc(todo[1..], if Metered(todo[0]) then AtStale(todo[0]) else Between)])
  }

  lemma TakeNext(st: State, pid: nat)
    requires pid in st.procs && st.procs[pid].pc == Between && st.procs[pid].todo != []
    ensures Run(st, [Advance(pid)]) == Taken(st, pid)
  {
    RunSnoc(st, [], Advance(pid));
    assert [] + [Advance(pid)] == [Advance(pid)];
  }

  /** A process with `sub` next in its list can carry out the whole visit, with the outcomes
      given, in uninterrupted steps, and is then ready for the rest of its list. */
  lemma VisitIsARun(st: State, pid: nat, sub: Subscription, ro: Outcome, co: Outcome, s: Stats)
      returns (all: seq<Action>)
    requires pid in st.procs && st.procs[pid].pc == Between && Keyed(st.reports)
    requires st.procs[pid].todo != [] && st.procs[pid].todo[0] == sub
    ensures Run(st, all) == Moved(Taken(st, pid), pid, Between, SubscriptionPass(WorldOf(st), sub, ro, co, s).world)
  {
    hide RolloverPass, CurrentPass, Onward, Run, Step, Keyed;
    TakeNext(st, pid);
    all := [Advance(pid)];
    if Metered(sub) {
      var rest := MeteredSteps(Taken(st, pid), pid, sub, ro, co, s.(evaluated := s.evaluated + 1));
      RunConcat(st, all, rest);
      all := all + rest;
      VisitIsOnward(WorldOf(st), sub, ro, co, s);
    } else {
      assert Moved(Taken(st, pid), pid, Between, WorldOf(st)) == Taken(st, pid);
    }
  }

  // ---------------------------------------------------------------- whole histories

  lemma VisitKeepsLog(w: World, sub: Subscription, ro: Outcome, co: Outcome, s: Stats)
    ensures SubscriptionPass(w, sub, ro, co, s).world.log == w.log
  {
    hide FindStale, WithCurrentRow, Submit, EventFor, CasWrite, MarkFinalized, ClosedOverage, CurrentOverage;
  }

  /** The renewed subscription and a new cycle over it alone. */
  function Ready(st: State, pid: nat, sub: Subscription): State {
    st.(subs := st.subs[sub.id := sub], procs := st.procs[pid := Proc([sub], Between)])
  }

  lemma LaunchOne(st: State, pid: nat, sub: Subscription)
    requires Billable(sub) && (pid in st.procs ==> st.procs[pid] == Proc([], Between))
    ensures Run(st, [SetSubscription(sub), Launch(pid, [sub])]) == Ready(st, pid, sub)
  {
    RunSnoc(st, [], SetSubscription(sub));
    RunSnoc(st, [SetSubscription(sub)], Launch(pid, [sub]));
    assert [] + [SetSubscription(sub)] == [SetSubscription(sub)];
    assert [SetSubscription(sub)] + [Launch(pid, [sub])] == [SetSubscription(sub), Launch(pid, [sub])];
    var subs := st.subs[sub.id := sub];
    assert sub.id in subs && subs[sub.id] == sub;
    assert sub in subs.Values;
  }

  /** One visit of a history, from any state whose process `pid` is idle, in the same state again. */
  lemma VisitFromIdle(st: State, pid: nat, sub: Subscription, ro: Outcome, co: Outcome, s: Stats)
      returns (all: seq<Action>)
    requires Billable(sub) && (pid in st.procs ==> st.procs[pid] == Proc([], Between)) && Keyed(st.reports)
    ensures var st' := Run(st, all);
            WorldOf(st') == SubscriptionPass(WorldOf(st), sub, ro, co, s).world
            && pid in st'.procs && st'.procs[pid] == Proc([], Between)
  {
    hide Run, SubscriptionPass, Keyed;
    var ready := Ready(st, pid, sub);
    LaunchOne(st, pid, sub);
    var visit := VisitIsARun(ready, pid, sub, ro, co, s);
    VisitKeepsLog(WorldOf(st), sub, ro, co, s);
    RunConcat(st, [SetSubscription(sub), Launch(pid, [sub])], visit);
    all := [SetSubscription(sub), Launch(pid, [sub])] + visit;
    assert WorldOf(ready) == WorldOf(st);
  }

  /** The visits of a history are of subscriptions the cycle selects. */
  predicate AllBillable(jobs: seq<Job>) {
    forall i :: 0 <= i < |jobs| && jobs[i].Visit? ==> Billable(jobs[i].sub)
  }

  /** Every serial history of requests and visits, whatever fails, is a run of the racing machine. */
  lemma {:induction false} HistoryIsARun(jobs: seq<Job>) returns (all: seq<Action>)
    requires AllBillable(jobs)
    ensures var st := Run(Initial, all);
            WorldOf(st) == After(jobs) && (0 in st.procs ==> st.procs[0] == Proc([], Between))
  {
    if jobs == [] {
      all := [];
    } else {
      var front, last := jobs[..|jobs| - 1], jobs[|jobs| - 1];
      all := HistoryIsARun(front);
      var st := Run(Initial, all);
      var before := RunJobs(EmptyWorld, front, Stats(0, 0, 0, 0));
      assert After(jobs) == Do(before.world, last, before.stats).world;
      hide Run, RunJobs, SubscriptionPass;
      match last {
        case Serve(request) =>
          RunSnoc(Initial, all, Arrive(request));
          all := all + [Arrive(request)];
        case Visit(sub, ro, co) =>
          KeyedRun(all);
          var visit := VisitFromIdle(st, 0, sub, ro, co, before.stats);
          RunConcat(Initial, all, visit);
          all := all + visit;
      }
    }
  }

  lemma KeyedRun(actions: seq<Action>)
    ensures Keyed(Run(Initial, actions).reports)
  {
    RunKeepsInv(Initial, actions);
    var st := Run(Initial, actions);
    hide Run;
    forall k | k in st.reports ensures st.reports[k].key == k {
      assert ReportOk(st.reports, st.meter, k);
    }
  }

  /** At-least-once billing of serial histories, from that of all interleavings. */
  lemma HistoryBilledAtLeastOnce(jobs: seq<Job>, key: Key)
    requires AllBillable(jobs) && key in After(jobs).reports
    ensures var w := After(jobs); var row := w.reports[key];
            Billed(w.meter, key) >= row.mark
            && (forall unit: nat :: unit < row.mark ==> UnitBilled(w.meter, key, unit))
            && row.usd == row.mark as real * 0.5 / 1000.0
  {
    var all := HistoryIsARun(jobs);
    BilledAtLeastOnce(all, key);
  }
}
