/** When racing reporting cycles bill exactly the high-water mark (billing/usage.ts,
    runUsageReportCycle), over every interleaving, failure and crash; and two cycles that overbill
    although nothing fails. */
module MeteringRaces {
  import opened Options
  import opened Metering
  import opened MeteringProtocol
  import Exactness = MeteringExactness
  import Refinement = MeteringRefinement

  type Track = Exactness.Track

  const Untouched := Exactness.Track(0, {}, true)

  // ---------------------------------------------------------------- what happens to one row

  /** The push a process is about to submit for the row, if this action makes it. */
  predicate Pushes(st: State, action: Action, key: Key) {
    match action
    case Advance(pid) => pid in st.procs && PushDue(st.procs[pid].pc, key)
    case PushThenFail(pid) => pid in st.procs && PushDue(st.procs[pid].pc, key)
    case _ => false
  }

  predicate PushDue(pc: Pc, key: Key) { pc.AtPush? && pc.row.key == key && pc.row.mark < pc.target }

  /** The row write a process is about to make, if this action makes it and the snapshot still holds. */
  predicate Writes(st: State, action: Action, key: Key) {
    action.Advance? && action.pid in st.procs && WriteDue(st.reports, st.procs[action.pid].pc, key)
  }

  predicate WriteDue(reports: Reports, pc: Pc, key: Key) {
    pc.AtWrite? && pc.row.key == key && pc.row.mark < pc.target && CasHolds(reports, pc.row)
  }

  /** A push from the current mark is outstanding until a row write settles it; an accepted push from
      an outdated mark spoils the track, and so does a row write that finds any other push outstanding. */
  function PushStep(t: Track, meter: Meter, row: Report, target: nat, final: bool): Track {
    if row.mark == t.mark then t.(lost := t.lost + {(target, final)})
    else if Has(meter, Ident(row.key, target, final)) then t
    else t.(clean := false)
  }

  function WriteStep(t: Track, target: nat, final: bool): Track {
    Exactness.Track(target, {}, t.clean && t.lost == {(target, final)})
  }

  function ActionStep(st: State, action: Action, key: Key, t: Track): Track {
    if Pushes(st, action, key) then
      var pc := st.procs[action.pid].pc;
      PushStep(t, st.meter, pc.row, pc.target, pc.final)
    else if Writes(st, action, key) then
      var pc := st.procs[action.pid].pc;
      WriteStep(t, pc.target, pc.final)
    else t
  }

  /** The track of a row over a run from the empty state. */
  function TrackOf(actions: seq<Action>, key: Key): Track {
    if actions == [] then Untouched
    else
      var front := actions[..|actions| - 1];
      ActionStep(Run(Initial, front), actions[|actions| - 1], key, TrackOf(front, key))
  }

  /** No accepted push was measured from an outdated mark, each row write found its own push and no
      other outstanding, and none is outstanding now. */
  predicate EachPushSettled(actions: seq<Action>, key: Key) {
    TrackOf(actions, key).clean && TrackOf(actions, key).lost == {}
  }

  // ---------------------------------------------------------------- the link to Stripe

  ghost predicate RowLinked(reports: Reports, meter: Meter, key: Key, t: Track) {
    Exactness.Linked(meter, key, t) && Exactness.MarkOf(reports, key) == t.mark
    && (key !in reports ==> t == Untouched)
  }

  /** A push measured from a mark the row has left behind: accepted, it bills something twice. */
  lemma OutdatedPush(meter: Meter, e: MeterEvent, key: Key, t: Track)
    requires Exactness.Linked(meter, key, t) && !Has(meter, e.ident)
    requires e.ident.key == key && 0 < e.value <= e.ident.target && e.ident.target - e.value < t.mark
    ensures Exactness.Linked(meter + [e], key, t.(clean := false))
  {
    hide BilledUpTo, Billed;
    var meter' := meter + [e];
    BilledAppend(meter, e, key, t.mark);
    assert meter'[|meter|] == e;
    forall p | p in t.lost ensures p.0 > t.mark && Accepted(meter', Ident(key, p.0, p.1)) {
      var i :| 0 <= i < |meter| && meter[i].ident == Ident(key, p.0, p.1);
      assert meter'[i].ident == Ident(key, p.0, p.1);
    }
    if e.ident.target > t.mark { assert Exactness.Overshoots(meter'[|meter|], key, t.mark); }
  }

  lemma PushLinks(meter: Meter, sub: Subscription, row: Report, target: nat, final: bool, key: Key, t: Track)
    requires Exactness.Linked(meter, key, t) && row.key == key && row.mark < target && row.mark <= t.mark
    ensures Exactness.Linked(Submit(meter, EventFor(sub, row, target, final)), key, PushStep(t, meter, row, target, final))
  {
    hide Exactness.Linked;
    var e := EventFor(sub, row, target, final);
    if row.mark == t.mark {
      Exactness.LinkedPush(meter, e, key, t);
    } else if !Has(meter, e.ident) {
      OutdatedPush(meter, e, key, t);
    }
  }

  lemma WriteLinks(meter: Meter, key: Key, t: Track, target: nat, final: bool)
    requires Exactness.Linked(meter, key, t) && t.mark < target && Accepted(meter, Ident(key, target, final))
    ensures Exactness.Linked(meter, key, WriteStep(t, target, final))
  {
    hide BilledUpTo;
    if (target, final) in t.lost {
      Exactness.LinkedWrite(meter, key, t, target, final);
    } else {
      var i :| 0 <= i < |meter| && meter[i].ident == Ident(key, target, final);
      EventAbove(meter, key, t.mark, target, i);
      Exactness.StillOverpaid(meter, key, t.mark, target, i);
    }
  }

  lemma MoveLinks(st: State, pid: nat, key: Key, t: Track)
    requires Inv(st) && pid in st.procs && RowLinked(st.reports, st.meter, key, t)
    ensures var move := Next(st, st.procs[pid]);
            RowLinked(move.reports, move.meter, key, ActionStep(st, Advance(pid), key, t))
  {
    hide Exactness.Linked, TablesOk, InsertClashes, PushStep, WriteStep;
    var pc := st.procs[pid].pc;
    assert PcOk(st.reports, st.meter, pc);
    match pc {
      case AtPush(sub, row, target, final) =>
        if row.key == key {
          PushLinks(st.meter, sub, row, target, final, key, t);
          PushKeepsMark(t, st.meter, row, target, final);
        } else {
          Exactness.LinkedElsewhere(st.meter, EventFor(sub, row, target, final), key, t);
        }
      case AtWrite(sub, row, target, final) =>
        if row.key == key && CasHolds(st.reports, row) {
          WriteLinks(st.meter, key, t, target, final);
          WriteMark(t, target, final);
        }
      case AtInsert(sub, overage) =>
        if !InsertClashes(st.reports, sub) { OpeningIsNew(st.reports, sub); }
      case _ =>
    }
  }

  /** A row that can be opened was not there before. */
  lemma OpeningIsNew(reports: Reports, sub: Subscription)
    requires !InsertClashes(reports, sub)
    ensures Key(sub.id, sub.start) !in reports
  {
  }

  lemma PushKeepsMark(t: Track, meter: Meter, row: Report, target: nat, final: bool)
    ensures PushStep(t, meter, row, target, final).mark == t.mark
  {
  }

  lemma WriteMark(t: Track, target: nat, final: bool)
    ensures WriteStep(t, target, final).mark == target
  {
  }

  lemma ActionLinks(st: State, action: Action, key: Key, t: Track)
    requires Inv(st) && RowLinked(st.reports, st.meter, key, t)
    ensures RowLinked(Step(st, action).reports, Step(st, action).meter, key, ActionStep(st, action, key, t))
  {
    hide Inv, Next, RowLinked, PushStep, WriteStep;
    match action {
      case Advance(pid) => if pid in st.procs { MoveLinks(st, pid, key, t); }
      case PushThenFail(pid) => if pid in st.procs { MoveLinks(st, pid, key, t); }
      case _ =>
    }
  }

  lemma {:induction false} RunLinks(actions: seq<Action>, key: Key)
    ensures RowLinked(Run(Initial, actions).reports, Run(Initial, actions).meter, key, TrackOf(actions, key))
  {
    if actions != [] {
      var front := actions[..|actions| - 1];
      hide Inv, Step, RowLinked, ActionStep;
      RunLinks(front, key);
      assert Inv(Initial) by { InitialInv(); }
      RunKeepsInv(Initial, front);
      ActionLinks(Run(Initial, front), actions[|actions| - 1], key, TrackOf(front, key));
    }
  }

  lemma InitialInv()
    ensures Inv(Initial)
  {
  }

  // ---------------------------------------------------------------- main results

  /** For any number of racing cycles, with failures and crashes anywhere: Stripe has billed exactly
      the row's mark if and only if no accepted push was measured from an outdated mark and every
      push was settled by the row write that followed, its own. Otherwise it has billed more. */
  lemma ExactExactlyWhenSettled(actions: seq<Action>, key: Key)
    ensures var st := Run(Initial, actions);
            Billed(st.meter, key) >= Exactness.MarkOf(st.reports, key)
            && (Billed(st.meter, key) == Exactness.MarkOf(st.reports, key) <==> EachPushSettled(actions, key))
  {
    RunLinks(actions, key);
    var st := Run(Initial, actions);
    Exactness.LinkedDecides(st.meter, key, TrackOf(actions, key));
    BilledUpToBounds(st.meter, key, Exactness.MarkOf(st.reports, key), Exactness.MarkOf(st.reports, key));
  }

  // ---------------------------------------------------------------- a race in which nothing fails

  /** Two cycles holding the same fresh row, one at overage 1, the other, counting later, at 2. */
  ghost predicate Racing(st: State, sub: Subscription, row: Report) {
    row == FreshReport(sub) && row.key in st.reports && st.reports[row.key] == row && st.meter == []
    && 1 in st.procs && st.procs[1].pc == AtPush(sub, row, 1, false)
    && 2 in st.procs && st.procs[2].pc == AtPush(sub, row, 2, false)
  }

  const RACE: seq<Action> := [Advance(1), Advance(2), Advance(2), Advance(1)]

  /** First pushes, second pushes, second writes, first finds its snapshot gone: no call fails, no
      write is lost, and Stripe has 3 where the mark says 2. */
  lemma RaceFrom(st: State, sub: Subscription, row: Report)
    requires Racing(st, sub, row)
    ensures var st' := Run(st, RACE);
            Billed(st'.meter, row.key) == 3 && Exactness.MarkOf(st'.reports, row.key) == 2
  {
    var one, two := EventFor(sub, row, 1, false), EventFor(sub, row, 2, false);
    var a := Step(st, Advance(1));
    assert a.meter == [one];
    var b := Step(a, Advance(2));
    assert b.meter == [one] + [two];
    var c := Step(b, Advance(2));
    var d := Step(c, Advance(1));
    assert d.reports[row.key].mark == 2 && d.meter == [one] + [two];
    RunFour(st, Advance(1), Advance(2), Advance(2), Advance(1));
    BilledAppend([], one, row.key, 0);
    BilledAppend([one], two, row.key, 0);
  }

  lemma RunFour(st: State, a: Action, b: Action, c: Action, d: Action)
    ensures Run(st, [a, b, c, d]) == Step(Step(Step(Step(st, a), b), c), d)
  {
    hide Step;
    var all := [a, b, c, d];
    assert all[..3] == [a, b, c] && [a, b, c][..2] == [a, b] && [a, b][..1] == [a] && [a][..0] == [];
    assert Run(st, [a]) == Step(st, a);
    assert Run(st, [a, b]) == Step(Run(st, [a]), b);
    assert Run(st, [a, b, c]) == Step(Run(st, [a, b]), c);
  }

  // ---------------------------------------------------------------- the race, from the empty state

  const SUB := Subscription("sub_1", "cus_1", "t", Pro, Active, true, 0, 10)

  function Arrivals(n: nat): seq<Action> { seq(n, _ => Arrive(Request("t", 5))) }

  /** The first cycle, up to its push: it counts 100,001 requests and opens the row. */
  const CYCLE_ONE: seq<Action> :=
    [SetSubscription(SUB), Launch(1, [SUB]), Advance(1), Advance(1), Advance(1), Advance(1), Advance(1), Advance(1)]

  /** One more request, and a second cycle up to its push. */
  const CYCLE_TWO: seq<Action> :=
    [Arrive(Request("t", 5)), Launch(2, [SUB]), Advance(2), Advance(2), Advance(2), Advance(2)]

  lemma {:induction false} Arrived(n: nat)
    ensures var st := Run(Initial, Arrivals(n));
            st == Initial.(log := st.log) && CountSince(st.log, "t", 0) == n
  {
    if n > 0 {
      Arrived(n - 1);
      assert Arrivals(n) == Arrivals(n - 1) + [Arrive(Request("t", 5))];
      Refinement.RunSnoc(Initial, Arrivals(n - 1), Arrive(Request("t", 5)));
      OneMoreCounted(Run(Initial, Arrivals(n - 1)).log);
    }
  }

  lemma OneMoreCounted(log: seq<Request>)
    ensures CountSince(log + [Request("t", 5)], "t", 0) == CountSince(log, "t", 0) + 1
  {
    assert (log + [Request("t", 5)])[..|log|] == log;
  }

  /** The state with process `pid` at `pc`. */
  function At(st: State, pid: nat, pc: Pc): State { st.(procs := st.procs[pid := Proc([], pc)]) }

  /** A launched process takes its subscription, finds nothing stale and counts. */
  lemma CountsFirst(st: State, pid: nat, n: nat)
    requires SUB.id in st.subs && st.subs[SUB.id] == SUB && pid !in st.procs
    requires CountSince(st.log, "t", 0) == 100_000 + n
    requires forall k :: k in st.reports ==> k == Key("sub_1", 0)
    ensures Run(st, [Launch(pid, [SUB]), Advance(pid), Advance(pid), Advance(pid)]) == At(st, pid, AtFind(SUB, n))
  {
    LaunchTakes(st, pid);
    NothingStale(At(st, pid, AtStale(SUB)), pid);
    Counts(At(st, pid, AtCount(SUB)), pid, n);
    hide Step;
    assert At(At(st, pid, AtStale(SUB)), pid, AtCount(SUB)) == At(st, pid, AtCount(SUB));
    assert At(At(st, pid, AtCount(SUB)), pid, AtFind(SUB, n)) == At(st, pid, AtFind(SUB, n));
    RunFour(st, Launch(pid, [SUB]), Advance(pid), Advance(pid), Advance(pid));
  }

  lemma LaunchTakes(st: State, pid: nat)
    requires SUB.id in st.subs && st.subs[SUB.id] == SUB && pid !in st.procs
    ensures Step(Step(st, Launch(pid, [SUB])), Advance(pid)) == At(st, pid, AtStale(SUB))
  {
    assert SUB in st.subs.Values;
    assert [SUB][1..] == [];
  }

  lemma NothingStale(st: State, pid: nat)
    requires pid in st.procs && st.procs[pid] == Proc([], AtStale(SUB))
    requires forall k :: k in st.reports ==> k == Key("sub_1", 0)
    ensures Step(st, Advance(pid)) == At(st, pid, AtCount(SUB))
  {
    assert FindStale(st.reports, SUB).None?;
  }

  lemma Counts(st: State, pid: nat, n: nat)
    requires pid in st.procs && st.procs[pid] == Proc([], AtCount(SUB)) && CountSince(st.log, "t", 0) == 100_000 + n
    ensures Step(st, Advance(pid)) == At(st, pid, AtFind(SUB, n))
  {
    hide CountSince;
  }

  /** The first cycle finds no row and opens it. */
  lemma Opens(st: State, pid: nat)
    requires pid in st.procs && st.procs[pid] == Proc([], AtFind(SUB, 1)) && st.reports == map[]
    ensures var row := FreshReport(SUB);
            Run(st, [Advance(pid), Advance(pid), Advance(pid)])
            == At(st.(reports := map[row.key := row]), pid, AtPush(SUB, row, 1, false))
  {
    var row := FreshReport(SUB);
    var a := Step(st, Advance(pid));
    assert a == At(st, pid, AtInsert(SUB, 1));
    var b := Step(a, Advance(pid));
    assert b == At(st.(reports := map[row.key := row]), pid, AtReread(SUB, 1));
    assert Step(b, Advance(pid)) == At(st.(reports := map[row.key := row]), pid, AtPush(SUB, row, 1, false));
    RunThree(st, Advance(pid), Advance(pid), Advance(pid));
  }

  /** The second finds it. */
  lemma Finds(st: State, pid: nat, row: Report)
    requires pid in st.procs && st.procs[pid] == Proc([], AtFind(SUB, 2))
    requires row == FreshReport(SUB) && row.key in st.reports && st.reports[row.key] == row
    ensures Step(st, Advance(pid)) == At(st, pid, AtPush(SUB, row, 2, false))
  {
  }

  lemma RunThree(st: State, a: Action, b: Action, c: Action)
    ensures Run(st, [a, b, c]) == Step(Step(Step(st, a), b), c)
  {
    hide Step;
    assert [a, b, c][..2] == [a, b] && [a, b][..1] == [a] && [a][..0] == [];
    assert Run(st, [a]) == Step(st, a);
    assert Run(st, [a, b]) == Step(Run(st, [a]), b);
  }

  lemma FirstReaches(st: State, row: Report)
    requires st == Initial.(log := st.log) && CountSince(st.log, "t", 0) == 100_001 && row == FreshReport(SUB)
    ensures Run(st, CYCLE_ONE)
            == At(st.(subs := map[SUB.id := SUB], reports := map[row.key := row]), 1, AtPush(SUB, row, 1, false))
  {
    hide Run, Step, CountSince;
    var ready := st.(subs := map[SUB.id := SUB]);
    var counting := [Launch(1, [SUB]), Advance(1), Advance(1), Advance(1)];
    var opening := [Advance(1), Advance(1), Advance(1)];
    Subscribes(st);
    CountsFirst(ready, 1, 1);
    Opens(At(ready, 1, AtFind(SUB, 1)), 1);
    Refinement.RunConcat(st, [SetSubscription(SUB)], counting);
    Refinement.RunConcat(st, [SetSubscription(SUB)] + counting, opening);
    assert CYCLE_ONE == [SetSubscription(SUB)] + counting + opening;
  }

  /** Up to the two pushes: the first cycle has opened the row, the second has found it. */
  lemma ReachesRace()
    ensures var st := Run(Initial, Arrivals(100_001) + CYCLE_ONE + CYCLE_TWO);
            Racing(st, SUB, FreshReport(SUB))
  {
    var row := FreshReport(SUB);
    var st := Run(Initial, Arrivals(100_001));
    Arrived(100_001);
    hide Run, Step, Arrivals, CountSince, Racing;
    FirstReaches(st, row);
    SecondReaches(Run(st, CYCLE_ONE), row);
    Refinement.RunConcat(Initial, Arrivals(100_001), CYCLE_ONE);
    Refinement.RunConcat(Initial, Arrivals(100_001) + CYCLE_ONE, CYCLE_TWO);
  }

  lemma Subscribes(st: State)
    requires st.subs == map[]
    ensures Run(st, [SetSubscription(SUB)]) == st.(subs := map[SUB.id := SUB])
  {
    Refinement.RunSnoc(st, [], SetSubscription(SUB));
    assert [] + [SetSubscription(SUB)] == [SetSubscription(SUB)];
  }

  lemma SecondReaches(st: State, row: Report)
    requires row == FreshReport(SUB) && st.reports == map[row.key := row] && st.meter == []
    requires st.subs == map[SUB.id := SUB] && CountSince(st.log, "t", 0) == 100_001
    requires st.procs == map[1 := Proc([], AtPush(SUB, row, 1, false))]
    ensures Racing(Run(st, CYCLE_TWO), SUB, row)
  {
    var more := st.(log := st.log + [Request("t", 5)]);
    OneMoreCounted(st.log);
    Refinement.RunSnoc(st, [], Arrive(Request("t", 5)));
    assert [] + [Arrive(Request("t", 5))] == [Arrive(Request("t", 5))];
    assert Run(st, [Arrive(Request("t", 5))]) == more;
    hide Run, Step, CountSince;
    CountsFirst(more, 2, 2);
    Finds(At(more, 2, AtFind(SUB, 2)), 2, row);
    Refinement.RunConcat(st, [Arrive(Request("t", 5))], [Launch(2, [SUB]), Advance(2), Advance(2), Advance(2)]);
    var before := [Arrive(Request("t", 5))] + [Launch(2, [SUB]), Advance(2), Advance(2), Advance(2)];
    Refinement.RunSnoc(st, before, Advance(2));
    assert CYCLE_TWO == before + [Advance(2)];
  }

  /** Two racing cycles in which no call fails and no write is lost overbill: the events accepted for
      the row sum to 3 while its mark is 2. */
  lemma RaceOverbills()
    ensures var st := Run(Initial, Arrivals(100_001) + CYCLE_ONE + CYCLE_TWO + RACE);
            var key := Key("sub_1", 0);
            Billed(st.meter, key) == 3 && Exactness.MarkOf(st.reports, key) == 2
  {
    hide Run, Step, Arrivals, Racing;
    var before := Arrivals(100_001) + CYCLE_ONE + CYCLE_TWO;
    ReachesRace();
    RaceFrom(Run(Initial, before), SUB, FreshReport(SUB));
    Refinement.RunConcat(Initial, before, RACE);
  }
}
