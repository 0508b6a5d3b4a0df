/** Reminders never exit silently: runs of the scheduler's ticks, with the owner's commands
between any two suspension points and crashes anywhere. */
module ReminderRuns {
  import opened Common
  import opened Reminders

  /** A delivery come to its turn, and whether its row was still pending then. */
  datatype Turn = Turn(id: nat, pending: bool)

  /** A tick under way: what is still to send, what is being sent, what will be reported. The
  last three are histories: what it set out to send, whose turn came, what was sent. */
  datatype Tick =
    | NoTick
    | Ticking(instant: real, deliveries: seq<nat>, report: seq<nat>, sending: Option<nat>, reporting: bool,
              planned: seq<nat>, turns: seq<Turn>, returned: seq<nat>)

  /** `sent` and `named` are histories: delivered, and named in an attempted summary. `gaveUp`
  holds the rows whose reporting ended at the crash limit. */
  datatype System = System(rows: Rows, tick: Tick, now: real, sent: set<nat>, named: set<nat>, gaveUp: set<nat>, crashed: bool)

  const START_SYSTEM := System([], NoTick, 0.0, {}, {}, {}, false)

  datatype Step =
    | Elapse(to: real)
    | Schedule(due: real)
    | Cancel(i: nat)
    | Reinstate(i: nat)
    | StartTick
    | Dispatch
    | SendReturned(outcome: SendOutcome)
    | StartReport
    | ReportReturned(outcome: SendOutcome)
    | EndTick
    | Crash

  predicate Enabled(s: System, step: Step) {
    match step
    case Elapse(to) => s.now <= to
    case Schedule(_) => true
    case Cancel(i) => i < |s.rows| && s.rows[i].status == Pending
    case Reinstate(i) => i < |s.rows| && s.rows[i].status == Cancelled
    case StartTick => s.tick.NoTick?
    case Dispatch => s.tick.Ticking? && s.tick.sending.None? && s.tick.deliveries != [] && s.tick.deliveries[0] < |s.rows|
    case SendReturned(_) => s.tick.Ticking? && s.tick.sending.Some? && s.tick.sending.value < |s.rows|
    case StartReport =>
      s.tick.Ticking? && s.tick.sending.None? && s.tick.deliveries == [] && s.tick.report != [] && !s.tick.reporting
    case ReportReturned(_) => s.tick.Ticking? && s.tick.reporting
    case EndTick => s.tick.Ticking? && s.tick.sending.None? && s.tick.deliveries == [] && s.tick.report == []
    case Crash => true
  }

  function Apply(s: System, step: Step, cfg: Settings): System
    requires Enabled(s, step)
  {
    match step
    case Elapse(to) => s.(now := to)
    case Schedule(due) => s.(rows := s.rows + [Reminder(due, Pending, due, 0, false)])
    case Cancel(i) => s.(rows := s.rows[i := s.rows[i].(status := Cancelled)])
    case Reinstate(i) => s.(rows := s.rows[i := s.rows[i].(status := Pending, nextAttempt := s.rows[i].due)])
    case StartTick =>
      var w := PreWork(s.rows, cfg, s.now);
      s.(rows := w.rows, tick := Ticking(s.now, w.deliveries, w.report, None, false, w.deliveries, [], []),
          gaveUp := s.gaveUp + w.gaveUp)
    case Dispatch =>
      var i := s.tick.deliveries[0];
      s.(tick := s.tick.(deliveries := s.tick.deliveries[1..],
                         sending := if s.rows[i].status == Pending then Some(i) else None,
                         turns := s.tick.turns + [Turn(i, s.rows[i].status == Pending)]))
    case SendReturned(outcome) =>
      var i := s.tick.sending.value;
      s.(rows := AfterSend(s.rows, i, outcome, cfg, s.tick.instant), tick := s.tick.(sending := None, returned := s.tick.returned + [i]),
         sent := if outcome == SendFailed then s.sent else s.sent + {i})
    case StartReport => s.(tick := s.tick.(reporting := true), named := s.named + IdSet(s.tick.report))
    case ReportReturned(outcome) =>
      s.(rows := AfterReport(s.rows, s.tick.report, outcome, cfg, s.tick.instant), tick := NoTick)
    case EndTick => s.(tick := NoTick)
    case Crash => s.(tick := NoTick, crashed := true)
  }

  // --- What pre-work does ----------------------------------------------------------------------

  predicate Exited(r: Reminder) { (r.status == Missed || r.status == Abandoned) && r.reported }

  /** A row's counter before the charge: clear, unless the row is still to be delivered. */
  predicate CleanCounter(r: Reminder) { Unreported(r) ==> r.attempts == 0 }

  /** When a row will be looked at again, at the latest. */
  predicate Soon(r: Reminder, now: real, cfg: Settings) {
    && (r.status == Pending ==> r.nextAttempt <= r.due || r.nextAttempt <= now + cfg.retryFloor)
    && (Unreported(r) ==> r.nextAttempt <= now + cfg.retryFloor)
  }

  /** What pre-work has established so far. */
  ghost predicate WorkWF(before: Rows, w: Work, now: real, cfg: Settings) {
    && |w.rows| == |before|
    && (forall i :: 0 <= i < |w.rows| ==> RowWorked(before[i], w.rows[i], now))
    && (forall i :: 0 <= i < |w.rows| && Exited(w.rows[i]) ==> Exited(before[i]) || i in w.gaveUp)
    && AllBelow(w.deliveries, |w.rows|) && AllBelow(w.report, |w.rows|)
    && (forall k :: 0 <= k < |w.deliveries| ==> w.rows[w.deliveries[k]].status == Pending)
    && (forall k :: 0 <= k < |w.report| ==> Unreported(w.rows[w.report[k]]))
  }

  /** A row keeps its due time and comes no later; only a pending one changes status. */
  predicate RowWorked(a: Reminder, b: Reminder, now: real) {
    && b.due == a.due && (b.nextAttempt == a.nextAttempt || b.nextAttempt == now)
    && (b.status == a.status || (a.status == Pending && (b.status == Missed || b.status == Abandoned) && b.nextAttempt == now))
    && (b.status == Pending ==> b.nextAttempt == a.nextAttempt) && (Exited(a) ==> b == a)
  }

  lemma GraceWF(rows: Rows, now: real, cfg: Settings)
    ensures WorkWF(rows, Work(AfterGrace(rows, now, cfg.grace), [], [], {}), now, cfg)
  {
  }

  lemma ChargeDueWF(before: Rows, w: Work, i: nat, cfg: Settings, now: real)
    requires WorkWF(before, w, now, cfg) && i < |w.rows| && w.rows[i].status == Pending && i !in w.deliveries && i !in w.report
    ensures WorkWF(before, ChargeDue(w, i, cfg, now), now, cfg)
  {
    assert RowWorked(before[i], w.rows[i], now);
  }

  lemma ChargeReportWF(before: Rows, w: Work, i: nat, cfg: Settings, now: real)
    requires WorkWF(before, w, now, cfg) && i < |w.rows| && Unreported(w.rows[i]) && i !in w.report
    ensures WorkWF(before, ChargeReport(w, i, cfg), now, cfg)
  {
    assert RowWorked(before[i], w.rows[i], now);
  }

  ghost predicate Untouched(w: Work, r: Work, ids: seq<nat>) {
    |r.rows| == |w.rows| && forall i :: 0 <= i < |w.rows| && i !in ids ==> r.rows[i] == w.rows[i]
  }

  lemma {:induction false} ChargeAllDueWF(before: Rows, w: Work, ids: seq<nat>, cfg: Settings, now: real)
    requires WorkWF(before, w, now, cfg) && w.deliveries == [] && w.report == [] && AllBelow(ids, |w.rows|) && Distinct(ids)
    requires forall k :: 0 <= k < |ids| ==> w.rows[ids[k]].status == Pending
    ensures var r := ChargeAllDue(w, ids, cfg, now);
      && WorkWF(before, r, now, cfg) && Untouched(w, r, ids) && r.gaveUp == w.gaveUp
      && (forall i :: i in r.deliveries || i in r.report ==> i in ids)
      && (forall i :: i in ids && Unreported(r.rows[i]) ==> i in r.report && r.rows[i].attempts == 0)
  {
    if ids != [] {
      var front, i := ids[..|ids| - 1], ids[|ids| - 1];
      assert ids == front + [i];
      ChargeAllDueWF(before, w, front, cfg, now);
      var m := ChargeAllDue(w, front, cfg, now);
      assert i !in front && m.rows[i] == w.rows[i];
      ChargeDueWF(before, m, i, cfg, now);
      var r := ChargeDue(m, i, cfg, now);
      assert forall j :: j in m.report ==> j in r.report;
    }
  }

  lemma {:induction false} ChargeAllReportsWF(before: Rows, w: Work, ids: seq<nat>, cfg: Settings, now: real)
    requires WorkWF(before, w, now, cfg) && AllBelow(ids, |w.rows|) && Distinct(ids)
    requires forall k :: 0 <= k < |ids| ==> Unreported(w.rows[ids[k]]) && ids[k] !in w.report
    ensures var r := ChargeAllReports(w, ids, cfg);
      && WorkWF(before, r, now, cfg) && Untouched(w, r, ids) && r.deliveries == w.deliveries
      && (forall i :: i in w.report ==> i in r.report)
      && (forall i :: i in r.report ==> i in w.report || i in ids)
      && (forall i :: i in ids ==> i in r.report || i in r.gaveUp)
      && w.gaveUp <= r.gaveUp
  {
    if ids != [] {
      var front, i := ids[..|ids| - 1], ids[|ids| - 1];
      assert ids == front + [i];
      ChargeAllReportsWF(before, w, front, cfg, now);
      var m := ChargeAllReports(w, front, cfg);
      assert i !in front && m.rows[i] == w.rows[i];
      ChargeReportWF(before, m, i, cfg, now);
      var r := ChargeReport(m, i, cfg);
      assert forall j :: j in m.report ==> j in r.report;
    }
  }

  /** With clear counters and a limit of two or more, charging gives no report up. */
  lemma {:induction false} ChargesAreClear(w: Work, ids: seq<nat>, cfg: Settings)
    requires AllBelow(ids, |w.rows|) && Distinct(ids) && cfg.crashLimit >= 2
    requires forall k :: 0 <= k < |ids| ==> w.rows[ids[k]].attempts == 0
    ensures var r := ChargeAllReports(w, ids, cfg);
      && r.gaveUp == w.gaveUp && Untouched(w, r, ids)
      && (forall i :: i in ids ==> i in r.report && r.rows[i].attempts == 1)
      && (forall i :: i in w.report ==> i in r.report)
  {
    if ids != [] {
      var front, i := ids[..|ids| - 1], ids[|ids| - 1];
      assert ids == front + [i];
      ChargesAreClear(w, front, cfg);
      var m := ChargeAllReports(w, front, cfg);
      assert i !in front && m.rows[i] == w.rows[i];
      var r := ChargeReport(m, i, cfg);
      assert forall j :: j in m.report ==> j in r.report;
    }
  }

  /** The state of the work once deliveries are charged. */
  function AfterDueCharges(rows: Rows, cfg: Settings, now: real): (w: Work)
    ensures |w.rows| == |rows|
  {
    var grace := AfterGrace(rows, now, cfg.grace);
    SelectDueIs(grace, now, cfg.deliveryLimit);
    ChargeAllDue(Work(grace, [], [], {}), SelectDue(grace, now, cfg.deliveryLimit), cfg, now)
  }

  lemma DueChargesWF(rows: Rows, cfg: Settings, now: real)
    ensures var grace, w := AfterGrace(rows, now, cfg.grace), AfterDueCharges(rows, cfg, now);
      && WorkWF(rows, w, now, cfg) && w.gaveUp == {}
      && (forall i :: 0 <= i < |rows| && Unreported(grace[i]) ==> w.rows[i] == grace[i] && i !in w.report)
      && (forall i :: 0 <= i < |rows| && Unreported(w.rows[i]) ==>
            (w.rows[i] == grace[i]) || (i in w.report && w.rows[i].attempts == 0))
  {
    var grace := AfterGrace(rows, now, cfg.grace);
    var ids := SelectDue(grace, now, cfg.deliveryLimit);
    SelectDueIs(grace, now, cfg.deliveryLimit);
    GraceWF(rows, now, cfg);
    forall k | 0 <= k < |ids| ensures grace[ids[k]].status == Pending { assert ids[k] in ids; }
    ChargeAllDueWF(rows, Work(grace, [], [], {}), ids, cfg, now);
    var w := AfterDueCharges(rows, cfg, now);
    forall i | 0 <= i < |rows| && Unreported(grace[i]) ensures w.rows[i] == grace[i] && i !in w.report {
      assert i !in ids;
    }
  }

  /** Pre-work keeps every row accounted for: it exits only where reporting was given up, and
  every reportable row is in this tick's report or given up. */
  lemma PreWorkWF(rows: Rows, cfg: Settings, now: real)
    ensures var w := PreWork(rows, cfg, now);
      && WorkWF(rows, w, now, cfg)
      && (forall i :: 0 <= i < |rows| && IsReportable(AfterGrace(rows, now, cfg.grace)[i], now) ==>
            i in w.report || i in w.gaveUp)
  {
    var grace, w := AfterGrace(rows, now, cfg.grace), AfterDueCharges(rows, cfg, now);
    var ids := SelectReportable(grace, now);
    SelectReportableIs(grace, now);
    DueChargesWF(rows, cfg, now);
    forall k | 0 <= k < |ids| ensures Unreported(w.rows[ids[k]]) && ids[k] !in w.report { assert ids[k] in ids; }
    ChargeAllReportsWF(rows, w, ids, cfg, now);
  }

  /** And with clear counters nothing is given up, and only reported rows hold a charge. */
  lemma PreWorkIsClear(rows: Rows, cfg: Settings, now: real)
    requires cfg.crashLimit >= 2 && forall i :: 0 <= i < |rows| ==> CleanCounter(rows[i])
    ensures var w := PreWork(rows, cfg, now);
      && w.gaveUp == {}
      && (forall i :: 0 <= i < |rows| && Unreported(w.rows[i]) ==> w.rows[i].attempts == 0 || i in w.report)
  {
    var grace, w := AfterGrace(rows, now, cfg.grace), AfterDueCharges(rows, cfg, now);
    var ids := SelectReportable(grace, now);
    SelectReportableIs(grace, now);
    DueChargesWF(rows, cfg, now);
    forall k | 0 <= k < |ids| ensures w.rows[ids[k]].attempts == 0 { assert ids[k] in ids; }
    ChargesAreClear(w, ids, cfg);
  }

  // --- The invariant -----------------------------------------------------------------------------

  ghost predicate TickWF(s: System) {
    s.tick.Ticking? ==>
      && s.tick.instant <= s.now && AllBelow(s.tick.deliveries, |s.rows|) && AllBelow(s.tick.report, |s.rows|)
      && (forall k :: 0 <= k < |s.tick.report| ==> Unreported(s.rows[s.tick.report[k]]))
      && (s.tick.sending.Some? ==>
            s.tick.sending.value < |s.rows| && s.rows[s.tick.sending.value].status in {Pending, Cancelled})
      && (s.tick.reporting ==> IdSet(s.tick.report) <= s.named && s.tick.sending.None? && s.tick.deliveries == [])
  }

  predicate RowAccounted(s: System, i: nat)
    requires i < |s.rows|
  {
    && (Exited(s.rows[i]) ==> i in s.named || i in s.gaveUp)
    && (s.rows[i].status == Delivered || s.rows[i].status == DeliveredLate ==> i in s.sent)
  }

  ghost predicate RowsAccounted(s: System) { forall i :: 0 <= i < |s.rows| ==> RowAccounted(s, i) }

  ghost predicate RowsSoon(s: System, cfg: Settings) { forall i :: 0 <= i < |s.rows| ==> Soon(s.rows[i], s.now, cfg) }

  /** A counter is clear unless the row is in the report of the tick under way. */
  predicate CounterClear(s: System, i: nat)
    requires i < |s.rows|
  {
    Unreported(s.rows[i]) ==> s.rows[i].attempts == 0 || (s.tick.Ticking? && i in s.tick.report)
  }

  ghost predicate CountersClear(s: System, cfg: Settings) {
    !s.crashed && cfg.crashLimit >= 2 ==> s.gaveUp == {} && forall i :: 0 <= i < |s.rows| ==> CounterClear(s, i)
  }

  ghost predicate Inv(s: System, cfg: Settings) {
    TickWF(s) && RowsAccounted(s) && RowsSoon(s, cfg) && CountersClear(s, cfg)
  }

  lemma StartKeepsInv(s: System, cfg: Settings)
    requires Inv(s, cfg) && s.tick.NoTick? && cfg.retryFloor >= 0.0
    ensures Inv(Apply(s, StartTick, cfg), cfg)
  {
    var t, w := Apply(s, StartTick, cfg), PreWork(s.rows, cfg, s.now);
    PreWorkWF(s.rows, cfg, s.now);
    if !s.crashed && cfg.crashLimit >= 2 {
      forall i | 0 <= i < |s.rows| ensures CleanCounter(s.rows[i]) { assert CounterClear(s, i); }
      PreWorkIsClear(s.rows, cfg, s.now);
    }
    forall i | 0 <= i < |t.rows| ensures RowAccounted(t, i) && Soon(t.rows[i], t.now, cfg) {
      assert RowWorked(s.rows[i], w.rows[i], s.now) && RowAccounted(s, i) && Soon(s.rows[i], s.now, cfg);
    }
  }

  lemma SendKeepsInv(s: System, outcome: SendOutcome, cfg: Settings)
    requires Inv(s, cfg) && Enabled(s, SendReturned(outcome)) && cfg.retryFloor >= 0.0
    ensures Inv(Apply(s, SendReturned(outcome), cfg), cfg)
  {
    var t, i := Apply(s, SendReturned(outcome), cfg), s.tick.sending.value;
    forall j | 0 <= j < |t.rows|
      ensures RowAccounted(t, j) && Soon(t.rows[j], t.now, cfg) && CounterClear(t, j) == CounterClear(s, j)
    {
      assert RowAccounted(s, j) && Soon(s.rows[j], s.now, cfg);
    }
  }

  lemma ReportKeepsInv(s: System, outcome: SendOutcome, cfg: Settings)
    requires Inv(s, cfg) && Enabled(s, ReportReturned(outcome)) && cfg.retryFloor >= 0.0
    ensures Inv(Apply(s, ReportReturned(outcome), cfg), cfg)
  {
    var t := Apply(s, ReportReturned(outcome), cfg);
    forall j | 0 <= j < |t.rows|
      ensures RowAccounted(t, j) && Soon(t.rows[j], t.now, cfg) && (CounterClear(s, j) ==> CounterClear(t, j))
    {
      assert RowAccounted(s, j) && Soon(s.rows[j], s.now, cfg);
      if j in s.tick.report { assert j in IdSet(s.tick.report); }
    }
  }

  lemma OwnerKeepsInv(s: System, step: Step, cfg: Settings)
    requires Inv(s, cfg) && Enabled(s, step) && (step.Schedule? || step.Cancel? || step.Reinstate?)
    ensures Inv(Apply(s, step, cfg), cfg)
  {
    var t := Apply(s, step, cfg);
    forall j | 0 <= j < |t.rows|
      ensures RowAccounted(t, j) && Soon(t.rows[j], t.now, cfg)
      ensures j < |s.rows| && CounterClear(s, j) ==> CounterClear(t, j)
    {
      if j < |s.rows| { assert RowAccounted(s, j) && Soon(s.rows[j], s.now, cfg); }
    }
  }

  lemma StepKeepsInv(s: System, step: Step, cfg: Settings)
    requires Inv(s, cfg) && Enabled(s, step) && cfg.retryFloor >= 0.0
    ensures Inv(Apply(s, step, cfg), cfg)
  {
    match step
    case StartTick => StartKeepsInv(s, cfg);
    case SendReturned(outcome) => SendKeepsInv(s, outcome, cfg);
    case ReportReturned(outcome) => ReportKeepsInv(s, outcome, cfg);
    case Schedule(_) => OwnerKeepsInv(s, step, cfg);
    case Cancel(_) => OwnerKeepsInv(s, step, cfg);
    case Reinstate(_) => OwnerKeepsInv(s, step, cfg);
    case _ => QuietKeepsInv(s, step, cfg);
  }

  lemma QuietKeepsInv(s: System, step: Step, cfg: Settings)
    requires Inv(s, cfg) && Enabled(s, step)
    requires step.Elapse? || step.Dispatch? || step.StartReport? || step.EndTick? || step.Crash?
    ensures Inv(Apply(s, step, cfg), cfg)
  {
    var t := Apply(s, step, cfg);
    forall j | 0 <= j < |t.rows| ensures RowAccounted(t, j) && Soon(t.rows[j], t.now, cfg) {
      assert RowAccounted(s, j) && Soon(s.rows[j], s.now, cfg);
    }
    forall j | 0 <= j < |t.rows| && CounterClear(s, j) && !t.crashed ensures CounterClear(t, j) { }
  }

  // --- Runs ----------------------------------------------------------------------------------------

  ghost predicate Legal(s: System, steps: seq<Step>, cfg: Settings)
    decreases |steps|
  {
    steps == [] || (Enabled(s, steps[0]) && Legal(Apply(s, steps[0], cfg), steps[1..], cfg))
  }

  ghost function Run(s: System, steps: seq<Step>, cfg: Settings): System
    requires Legal(s, steps, cfg)
    decreases |steps|
  {
    if steps == [] then s else Run(Apply(s, steps[0], cfg), steps[1..], cfg)
  }

  lemma {:induction false} RunKeepsInv(s: System, steps: seq<Step>, cfg: Settings)
    requires Inv(s, cfg) && Legal(s, steps, cfg) && cfg.retryFloor >= 0.0
    ensures Inv(Run(s, steps, cfg), cfg)
    ensures Run(s, steps, cfg).crashed <==> s.crashed || Crash in steps
    decreases |steps|
  {
    if steps != [] {
      StepKeepsInv(s, steps[0], cfg);
      RunKeepsInv(Apply(s, steps[0], cfg), steps[1..], cfg);
    }
  }

  /** Crashes included: a reminder stops being reported only after a summary named it, or at
  the counted crash limit; a delivery is recorded only for a send that was not refused; and
  every other reminder will be looked at again, one retry floor from now at the latest. */
  lemma RemindersAreAccountedFor(steps: seq<Step>, cfg: Settings, i: nat)
    requires Legal(START_SYSTEM, steps, cfg) && cfg.retryFloor >= 0.0 && i < |Run(START_SYSTEM, steps, cfg).rows|
    ensures var s := Run(START_SYSTEM, steps, cfg);
      && (Exited(s.rows[i]) ==> i in s.named || i in s.gaveUp)
      && (s.rows[i].status == Delivered || s.rows[i].status == DeliveredLate ==> i in s.sent)
      && Soon(s.rows[i], s.now, cfg)
  {
    RunKeepsInv(START_SYSTEM, steps, cfg);
    assert RowAccounted(Run(START_SYSTEM, steps, cfg), i);
  }

  /** Without crashes, and with a crash limit of at least two, no reminder exits silently
  whatever the channel reports: one that is no longer reported was named in a summary. */
  lemma NoReminderExitsSilently(steps: seq<Step>, cfg: Settings, i: nat)
    requires Legal(START_SYSTEM, steps, cfg) && cfg.retryFloor >= 0.0 && i < |Run(START_SYSTEM, steps, cfg).rows|
    requires Crash !in steps && cfg.crashLimit >= 2
    ensures Exited(Run(START_SYSTEM, steps, cfg).rows[i]) ==> i in Run(START_SYSTEM, steps, cfg).named
  {
    RunKeepsInv(START_SYSTEM, steps, cfg);
    assert RowAccounted(Run(START_SYSTEM, steps, cfg), i);
  }

  /** A reminder still to be reported is in the report of the next tick that finds it eligible,
  or given up at the crash limit there. */
  lemma UnreportedIsTakenUp(s: System, cfg: Settings, i: nat)
    requires s.tick.NoTick? && i < |s.rows|
    requires IsReportable(AfterGrace(s.rows, s.now, cfg.grace)[i], s.now)
    ensures var t := Apply(s, StartTick, cfg); i in t.tick.report || i in t.gaveUp
  {
    PreWorkWF(s.rows, cfg, s.now);
  }

  /** The limit of two is needed, crash or no crash: with a limit of one, which configuration
  allows, the first charge already gives up, and a reminder past its grace is marked
  reported without any summary naming it. */
  lemma LimitOfOneExitsSilently(cfg: Settings, to: real)
    requires cfg.crashLimit == 1 && to > cfg.grace && to >= 0.0
    ensures var steps := [Schedule(0.0), Elapse(to), StartTick];
      && Legal(START_SYSTEM, steps, cfg)
      && var s := Run(START_SYSTEM, steps, cfg); |s.rows| == 1 && Exited(s.rows[0]) && s.named == {} && s.sent == {}
  {
    var s1 := Apply(START_SYSTEM, Schedule(0.0), cfg);
    var s2 := Apply(s1, Elapse(to), cfg);
    assert s2.rows == [Reminder(0.0, Pending, 0.0, 0, false)];
    OneRowGivenUp(s2.rows, cfg, to);
    ThreeSteps(START_SYSTEM, Schedule(0.0), Elapse(to), StartTick, cfg);
  }

  lemma ThreeSteps(s: System, a: Step, b: Step, c: Step, cfg: Settings)
    requires Enabled(s, a) && Enabled(Apply(s, a, cfg), b) && Enabled(Apply(Apply(s, a, cfg), b, cfg), c)
    ensures Legal(s, [a, b, c], cfg)
    ensures Run(s, [a, b, c], cfg) == Apply(Apply(Apply(s, a, cfg), b, cfg), c, cfg)
  {
    assert [a, b, c][1..] == [b, c] && [b, c][1..] == [c] && [c][1..] == [];
    var u := Apply(Apply(s, a, cfg), b, cfg);
    assert Legal(Apply(u, c, cfg), [], cfg);
    assert Legal(u, [c], cfg) && Run(u, [c], cfg) == Apply(u, c, cfg);
    assert Legal(Apply(s, a, cfg), [b, c], cfg);
  }

  lemma OneRowGivenUp(rows: Rows, cfg: Settings, now: real)
    requires |rows| == 1 && PastGrace(rows[0], now, cfg.grace) && cfg.crashLimit == 1
    ensures Exited(PreWork(rows, cfg, now).rows[0])
  {
    var grace, w := AfterGrace(rows, now, cfg.grace), AfterDueCharges(rows, cfg, now);
    var ids := SelectReportable(grace, now);
    SelectReportableIs(grace, now);
    DueChargesWF(rows, cfg, now);
    assert 0 in ids && IsReportable(grace[0], now);
    forall k | 0 <= k < |ids| ensures ids[k] == 0 { assert ids[k] in ids; }
    AllZeroIsOne(ids);
    assert ids[..0] == [];
    assert ChargeAllReports(w, ids[..0], cfg) == w;
  }

  lemma AllZeroIsOne(ids: seq<nat>)
    requires Distinct(ids) && ids != [] && forall k :: 0 <= k < |ids| ==> ids[k] == 0
    ensures ids == [0]
  {
    if |ids| >= 2 { FirstTwoDiffer(ids); }
  }

  lemma FirstTwoDiffer(ids: seq<nat>)
    requires Distinct(ids) && |ids| >= 2
    ensures ids[0] != ids[1]
  {
  }
}
