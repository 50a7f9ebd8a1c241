/** Any number of reporting cycles racing each other, each database or Stripe call one atomic
    step, with failures and crashes anywhere (billing/usage.ts, runUsageReportCycle). */
module MeteringProtocol {
  import opened Options
  import opened Metering

  // ---------------------------------------------------------------- the machine

  /** Where a cycle stands within its current subscription. Snapshots read from the database are
      carried along and may be out of date by the time they are used. */
  datatype Pc =
    | Between
    | AtStale(sub: Subscription)
    | AtCountStale(sub: Subscription, row: Report)
    | AtFinalize(sub: Subscription, row: Report)
    | AtCount(sub: Subscription)
    | AtFind(sub: Subscription, overage: nat)
    | AtInsert(sub: Subscription, overage: nat)
    | AtReread(sub: Subscription, overage: nat)
    | AtPush(sub: Subscription, row: Report, target: nat, final: bool)
    | AtWrite(sub: Subscription, row: Report, target: nat, final: bool)

  datatype Proc = Proc(todo: seq<Subscription>, pc: Pc)

  datatype State = State(
    log: seq<Request>, subs: map<string, Subscription>, reports: Reports, meter: Meter, procs: map<nat, Proc>)

  const Initial := State([], map[], map[], [], map[])

  datatype Action =
    | Arrive(request: Request)                       // a request is served
    | SetSubscription(sub: Subscription)             // webhook: tier change, renewal, cancellation
    | Launch(pid: nat, active: seq<Subscription>)    // a cycle reads the active subscriptions
    | Advance(pid: nat)                              // a cycle's next database or Stripe call
    | Fail(pid: nat)                                 // that call throws; the loop's catch moves on
    | PushThenFail(pid: nat)                         // Stripe accepts, the caller sees a failure
    | Crash(pid: nat)                                // the process dies

  function CompareWithReport(sub: Subscription, row: Report, overage: nat): Pc {
    if overage <= row.mark then Between else AtPush(sub, row, overage, false)
  }

  /** INSERT fails on either unique index: (subscription, period) or (tenant, period). */
  predicate InsertClashes(reports: Reports, sub: Subscription) {
    exists k :: k in reports.Keys && k.start == sub.start && (k.sub == sub.id || reports[k].tenant == sub.tenant)
  }

  function FreshReport(sub: Subscription): Report {
    Report(Key(sub.id, sub.start), sub.tenant, sub.end, 0, 0.0, None, false)
  }

  /** The two tables a cycle writes, and the cycle itself. */
  datatype Move = Move(proc: Proc, reports: Reports, meter: Meter)

  function Next(st: State, proc: Proc): Move {
    var stay := Move(proc, st.reports, st.meter);
    match proc.pc
    case Between =>
      if proc.todo == [] then stay
      else stay.(proc := Proc(proc.todo[1..], if Metered(proc.todo[0]) then AtStale(proc.todo[0]) else Between))
    case AtStale(sub) =>
      (match FindStale(st.reports, sub)
       case None => stay.(proc := proc.(pc := AtCount(sub)))
       case Some(key) => stay.(proc := proc.(pc := AtCountStale(sub, st.reports[key]))))
    case AtCountStale(sub, row) =>
      var overage := Overage(CountWithin(st.log, sub.tenant, row.key.start, row.end), sub.tier);
      stay.(proc := proc.(pc := if overage > row.mark then AtPush(sub, row, overage, true) else AtFinalize(sub, row)))
    case AtFinalize(sub, row) =>
      stay.(proc := proc.(pc := AtCount(sub)), reports := MarkFinalized(st.reports, row.key))
    case AtCount(sub) =>
      stay.(proc := proc.(pc := AtFind(sub, Overage(CountSince(st.log, sub.tenant, sub.start), sub.tier))))
    case AtFind(sub, overage) =>
      var key := Key(sub.id, sub.start);
      stay.(proc := proc.(pc := if key in st.reports then CompareWithReport(sub, st.reports[key], overage)
                                else AtInsert(sub, overage)))
    case AtInsert(sub, overage) =>
      if InsertClashes(st.reports, sub) then stay.(proc := proc.(pc := Between))
      else stay.(proc := proc.(pc := AtReread(sub, overage)),
                 reports := st.reports[Key(sub.id, sub.start) := FreshReport(sub)])
    case AtReread(sub, overage) =>
      var key := Key(sub.id, sub.start);
      stay.(proc := proc.(pc := if key in st.reports then CompareWithReport(sub, st.reports[key], overage) else Between))
    case AtPush(sub, row, target, final) =>
      if row.mark < target then
        stay.(proc := proc.(pc := AtWrite(sub, row, target, final)),
              meter := Submit(st.meter, EventFor(sub, row, target, final)))
      else stay
    case AtWrite(sub, row, target, final) =>
      if row.mark < target then
        stay.(proc := proc.(pc := if final && CasHolds(st.reports, row) then AtCount(sub) else Between),
              reports := CasWrite(st.reports, row, target, final))
      else stay
  }

  function Apply(st: State, pid: nat, move: Move): State {
    st.(procs := st.procs[pid := move.proc], reports := move.reports, meter := move.meter)
  }

  function Step(st: State, action: Action): State {
    match action
    case Arrive(request) => st.(log := st.log + [request])
    case SetSubscription(sub) => st.(subs := st.subs[sub.id := sub])
    case Launch(pid, active) =>
      if (forall s :: s in active ==> s in st.subs.Values && Billable(s))
         && (pid in st.procs ==> st.procs[pid] == Proc([], Between))
      then st.(procs := st.procs[pid := Proc(active, Between)])
      else st
    case Advance(pid) => if pid in st.procs then Apply(st, pid, Next(st, st.procs[pid])) else st
    case Fail(pid) => if pid in st.procs then st.(procs := st.procs[pid := st.procs[pid].(pc := Between)]) else st
    case PushThenFail(pid) =>
      if pid in st.procs && st.procs[pid].pc.AtPush? then
        var move := Next(st, st.procs[pid]);
        Apply(st, pid, move.(proc := move.proc.(pc := Between)))
      else st
    case Crash(pid) => st.(procs := st.procs - {pid})
  }

  function Run(st: State, actions: seq<Action>): State {
    if actions == [] then st
    else Step(Run(st, actions[..|actions| - 1]), actions[|actions| - 1])
  }

  // ---------------------------------------------------------------- the invariant

  /** Some accepted event bills the unit between `unit` and `unit + 1` of overage. */
  ghost predicate UnitBilled(meter: Meter, key: Key, unit: nat) {
    exists i :: 0 <= i < |meter| && meter[i].ident.key == key
             && meter[i].ident.target - meter[i].value <= unit < meter[i].ident.target
  }

  ghost predicate ReportOk(reports: Reports, meter: Meter, key: Key)
    requires key in reports
  {
    var row := reports[key];
    row.key == key
    && row.usd == Usd(row.mark)
    && BilledUpTo(meter, key, row.mark) >= row.mark
    && forall unit: nat :: unit < row.mark ==> UnitBilled(meter, key, unit)
  }

  /** The baseline an accepted event was measured from was once the row's mark. */
  ghost predicate EventOk(reports: Reports, e: MeterEvent) {
    e.ident.key in reports && 0 < e.value <= e.ident.target
    && e.ident.target - e.value <= reports[e.ident.key].mark
  }

  ghost predicate SnapshotOk(reports: Reports, row: Report) {
    row.key in reports && row.mark <= reports[row.key].mark && row.usd == Usd(row.mark)
  }

  ghost predicate PcOk(reports: Reports, meter: Meter, pc: Pc) {
    match pc
    case AtCountStale(_, row) => SnapshotOk(reports, row)
    case AtFinalize(_, row) => SnapshotOk(reports, row)
    case AtPush(_, row, target, _) => SnapshotOk(reports, row) && row.mark < target
    case AtWrite(_, row, target, final) =>
      SnapshotOk(reports, row) && row.mark < target && Accepted(meter, Ident(row.key, target, final))
    case _ => true
  }

  ghost predicate TablesOk(reports: Reports, meter: Meter) {
    (forall k :: k in reports ==> ReportOk(reports, meter, k))
    && (forall i :: 0 <= i < |meter| ==> EventOk(reports, meter[i]))
    && (forall i, j :: 0 <= i < j < |meter| ==> meter[i].ident != meter[j].ident)
  }

  ghost predicate Inv(st: State) {
    TablesOk(st.reports, st.meter)
    && forall pid :: pid in st.procs ==> PcOk(st.reports, st.meter, st.procs[pid].pc)
  }

  /** Marks only rise, rows and accepted events only accumulate, finalized rows stay finalized. */
  ghost predicate Grows(reports: Reports, meter: Meter, reports': Reports, meter': Meter) {
    (forall k :: k in reports ==> k in reports' && reports[k].mark <= reports'[k].mark
                                  && (reports[k].finalized ==> reports'[k].finalized))
    && meter <= meter'
  }

  lemma PcOkGrows(reports: Reports, meter: Meter, reports': Reports, meter': Meter, pc: Pc)
    requires Grows(reports, meter, reports', meter') && PcOk(reports, meter, pc)
    ensures PcOk(reports', meter', pc)
  {
    if pc.AtWrite? {
      var i :| 0 <= i < |meter| && meter[i].ident == Ident(pc.row.key, pc.target, pc.final);
      assert meter'[i] == meter[i];
    }
  }

  lemma {:induction false} PushKeepsTables(reports: Reports, meter: Meter, sub: Subscription, row: Report, target: nat, final: bool)
    requires TablesOk(reports, meter) && SnapshotOk(reports, row) && row.mark < target
    ensures var meter' := Submit(meter, EventFor(sub, row, target, final));
            TablesOk(reports, meter') && meter <= meter' && Accepted(meter', Ident(row.key, target, final))
  {
    hide BilledUpTo;
    var e := EventFor(sub, row, target, final);
    var meter' := Submit(meter, e);
    if !Has(meter, e.ident) {
      assert meter'[|meter|] == e;
      forall k | k in reports ensures ReportOk(reports, meter', k) {
        assert ReportOk(reports, meter, k);
        BilledAppend(meter, e, k, reports[k].mark);
        forall unit: nat | unit < reports[k].mark ensures UnitBilled(meter', k, unit) {
          assert UnitBilled(meter, k, unit);
          var i :| 0 <= i < |meter| && meter[i].ident.key == k
                && meter[i].ident.target - meter[i].value <= unit < meter[i].ident.target;
          assert meter'[i] == meter[i];
        }
      }
    }
  }

  /** The compare-and-set lets the mark rise from m to c only with m as the snapshot, so the event
      accepted under c, whoever sent it, was measured from m or less and pays for all of m..c. */
  lemma {:induction false} WriteKeepsTables(reports: Reports, meter: Meter, row: Report, target: nat, final: bool)
    requires TablesOk(reports, meter) && SnapshotOk(reports, row) && row.mark < target
    requires Accepted(meter, Ident(row.key, target, final))
    ensures var reports' := CasWrite(reports, row, target, final);
            TablesOk(reports', meter) && Grows(reports, meter, reports', meter)
  {
    hide BilledUpTo;
    var reports' := CasWrite(reports, row, target, final);
    if CasHolds(reports, row) {
      var key := row.key;
      var i :| 0 <= i < |meter| && meter[i].ident == Ident(key, target, final);
      assert EventOk(reports, meter[i]) && ReportOk(reports, meter, key);
      EventAbove(meter, key, row.mark, target, i);
      forall unit: nat | unit < target ensures UnitBilled(meter, key, unit) {
        if unit >= row.mark {
          assert meter[i].ident.target - meter[i].value <= unit < meter[i].ident.target;
        }
      }
      assert ReportOk(reports', meter, key);
      forall k | k in reports' ensures ReportOk(reports', meter, k) {
        assert ReportOk(reports, meter, k);
      }
    }
  }

  lemma FinalizeKeepsTables(reports: Reports, meter: Meter, key: Key)
    requires TablesOk(reports, meter)
    ensures TablesOk(MarkFinalized(reports, key), meter)
    ensures Grows(reports, meter, MarkFinalized(reports, key), meter)
  {
    var reports' := MarkFinalized(reports, key);
    forall k | k in reports' ensures ReportOk(reports', meter, k) {
      assert ReportOk(reports, meter, k);
    }
  }

  lemma InsertKeepsTables(reports: Reports, meter: Meter, sub: Subscription)
    requires TablesOk(reports, meter) && !InsertClashes(reports, sub)
    ensures var reports' := reports[Key(sub.id, sub.start) := FreshReport(sub)];
            TablesOk(reports', meter) && Grows(reports, meter, reports', meter)
  {
    var key := Key(sub.id, sub.start);
    assert key !in reports;
    var reports' := reports[key := FreshReport(sub)];
    forall k | k in reports' ensures ReportOk(reports', meter, k) {
      if k in reports { assert ReportOk(reports, meter, k); }
    }
  }

  lemma NextKeepsTables(st: State, proc: Proc)
    requires TablesOk(st.reports, st.meter) && PcOk(st.reports, st.meter, proc.pc)
    ensures var move := Next(st, proc);
            TablesOk(move.reports, move.meter) && Grows(st.reports, st.meter, move.reports, move.meter)
  {
    hide ReportOk, EventOk, Submit, CasWrite;
    match proc.pc {
      case AtFinalize(sub, row) => FinalizeKeepsTables(st.reports, st.meter, row.key);
      case AtInsert(sub, overage) =>
        if !InsertClashes(st.reports, sub) { InsertKeepsTables(st.reports, st.meter, sub); }
      case AtPush(sub, row, target, final) => PushKeepsTables(st.reports, st.meter, sub, row, target, final);
      case AtWrite(sub, row, target, final) => WriteKeepsTables(st.reports, st.meter, row, target, final);
      case _ =>
    }
  }

  lemma NextKeepsPc(st: State, proc: Proc)
    requires TablesOk(st.reports, st.meter) && PcOk(st.reports, st.meter, proc.pc)
    ensures var move := Next(st, proc); PcOk(move.reports, move.meter, move.proc.pc)
  {
    match proc.pc {
      case AtStale(sub) =>
        var found := FindStale(st.reports, sub);
        if found.Some? { assert ReportOk(st.reports, st.meter, found.value); }
      case AtFind(sub, overage) =>
        var key := Key(sub.id, sub.start);
        if key in st.reports { assert ReportOk(st.reports, st.meter, key); }
      case AtReread(sub, overage) =>
        var key := Key(sub.id, sub.start);
        if key in st.reports { assert ReportOk(st.reports, st.meter, key); }
      case AtPush(sub, row, target, final) => PushKeepsTables(st.reports, st.meter, sub, row, target, final);
      case _ =>
    }
  }

  lemma ApplyKeepsInv(st: State, pid: nat, move: Move)
    requires Inv(st) && pid in st.procs
    requires TablesOk(move.reports, move.meter) && Grows(st.reports, st.meter, move.reports, move.meter)
    requires PcOk(move.reports, move.meter, move.proc.pc)
    ensures Inv(Apply(st, pid, move))
  {
    var st' := Apply(st, pid, move);
    forall p | p in st'.procs ensures PcOk(st'.reports, st'.meter, st'.procs[p].pc) {
      if p != pid {
        PcOkGrows(st.reports, st.meter, st'.reports, st'.meter, st.procs[p].pc);
      }
    }
  }

  /** Every step of every interleaving keeps the invariant, and nothing recorded is ever undone. */
  lemma {:induction false} StepKeepsInv(st: State, action: Action)
    requires Inv(st)
    ensures var st' := Step(st, action);
            Inv(st') && Grows(st.reports, st.meter, st'.reports, st'.meter)
  {
    match action {
      case Advance(pid) =>
        if pid in st.procs {
          NextKeepsTables(st, st.procs[pid]);
          NextKeepsPc(st, st.procs[pid]);
          ApplyKeepsInv(st, pid, Next(st, st.procs[pid]));
        }
      case PushThenFail(pid) =>
        if pid in st.procs && st.procs[pid].pc.AtPush? {
          var move := Next(st, st.procs[pid]);
          NextKeepsTables(st, st.procs[pid]);
          ApplyKeepsInv(st, pid, move.(proc := move.proc.(pc := Between)));
        }
      case _ =>
    }
  }

  lemma {:induction false} RunKeepsInv(st: State, actions: seq<Action>)
    requires Inv(st)
    ensures Inv(Run(st, actions))
  {
    if actions != [] {
      var front := actions[..|actions| - 1];
      RunKeepsInv(st, front);
      StepKeepsInv(Run(st, front), actions[|actions| - 1]);
    }
  }

  // ---------------------------------------------------------------- main results

  /** At-least-once billing: whatever the interleaving, failures and crashes, what Stripe has
      accepted for a report row adds up to at least the row's high-water mark, every single unit
      below the mark is inside some accepted event, and the audit dollars match the mark. */
  lemma {:induction false} BilledAtLeastOnce(actions: seq<Action>, key: Key)
    requires key in Run(Initial, actions).reports
    ensures var st := Run(Initial, actions); var row := st.reports[key];
            Billed(st.meter, key) >= row.mark
            && (forall unit: nat :: unit < row.mark ==> UnitBilled(st.meter, key, unit))
            && row.usd == row.mark as real * 0.5 / 1000.0
  {
    RunKeepsInv(Initial, actions);
    var st := Run(Initial, actions);
    assert ReportOk(st.reports, st.meter, key);
    BilledUpToBounds(st.meter, key, st.reports[key].mark, st.reports[key].mark);
  }

  /** The high-water mark never falls, whatever happens later: not on a tier upgrade that lowers
      the overage, not on a stale cycle's late write. Finalized rows stay finalized. */
  lemma {:induction false} MarkNeverFalls(actions: seq<Action>, later: seq<Action>, key: Key)
    requires key in Run(Initial, actions).reports
    ensures key in Run(Initial, actions + later).reports
    ensures Run(Initial, actions).reports[key].mark <= Run(Initial, actions + later).reports[key].mark
    ensures Run(Initial, actions).reports[key].finalized ==> Run(Initial, actions + later).reports[key].finalized
  {
    if later == [] {
      assert actions + later == actions;
    } else {
      var front := later[..|later| - 1];
      MarkNeverFalls(actions, front, key);
      assert (actions + later)[..|actions + later| - 1] == actions + front;
      var mid := Run(Initial, actions + front);
      assert Run(Initial, actions + later) == Step(mid, later[|later| - 1]);
      RunKeepsInv(Initial, actions + front);
      StepKeepsInv(mid, later[|later| - 1]);
    }
  }
}
