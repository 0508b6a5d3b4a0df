/** What the event protocol promises, over every run with crashes and restarts anywhere. */
module ProtocolTheorems {
  import opened Common
  import opened Cadence
  import opened Holds
  import opened Protocol
  import opened ProtocolInvariant
  import opened ProtocolCore
  import opened ProtocolEnvironment
  import opened ProtocolDispatch
  import opened ProtocolExtend
  import opened ProtocolRelease

  /** The steps of the core: each works on the head of the queue. */
  predicate CoreStep(s: Step) { s.WriteRecord? || s.MarkWindow? || s.AdvanceCursor? || s.ShutdownFlush? }

  lemma CoreStepKeepsInv(cfg: Config, w: World, s: Step)
    requires Inv(cfg, w) && Enabled(w, s) && CoreStep(s)
    ensures Inv(cfg, Apply(cfg, w, s))
  {
    match s
    case WriteRecord(ok, handoff) => if ok { WriteKeepsInv(cfg, w, handoff); } else { FailKeepsInv(cfg, w, handoff); }
    case MarkWindow(markFails, receiptWritten) => FinishKeepsInv(cfg, w, markFails, receiptWritten);
    case AdvanceCursor(ok) => AdvanceKeepsInv(cfg, w, ok);
    case ShutdownFlush(handoff) => ShutdownKeepsInv(cfg, w, handoff);
  }

  /** The steps of the outside world. */
  predicate OutsideStep(s: Step) { s.Publish? || s.Elapse? || s.Deliver? }

  lemma OutsideStepKeepsInv(cfg: Config, w: World, s: Step)
    requires Inv(cfg, w) && Enabled(w, s) && OutsideStep(s)
    ensures Inv(cfg, Apply(cfg, w, s))
  {
    match s
    case Publish(m) => PublishKeepsInv(cfg, w, m);
    case Elapse(to) => ElapseKeepsInv(cfg, w, to);
    case Deliver => DeliverKeepsInv(cfg, w);
  }

  lemma ProcessStepKeepsInv(cfg: Config, w: World, s: Step)
    requires Inv(cfg, w) && Enabled(w, s) && (s.Crash? || s.Restart?)
    ensures Inv(cfg, Apply(cfg, w, s))
  {
    match s
    case Crash => CrashKeepsInv(cfg, w);
    case Restart => RestartKeepsInv(cfg, w);
  }

  lemma StepKeepsInv(cfg: Config, w: World, s: Step)
    requires Inv(cfg, w) && ConfigWF(cfg) && Enabled(w, s)
    ensures Inv(cfg, Apply(cfg, w, s))
  {
    if CoreStep(s) {
      CoreStepKeepsInv(cfg, w, s);
    } else if OutsideStep(s) {
      OutsideStepKeepsInv(cfg, w, s);
    } else if s.Crash? || s.Restart? {
      ProcessStepKeepsInv(cfg, w, s);
    } else {
      match s
      case HoldRow(i, e, active, storeFails) => HoldKeepsInv(cfg, w, i, e, active, storeFails);
      case Dispatch(batch, keep, written, idsRead) => DispatchKeepsInv(cfg, w, batch, keep, written, idsRead);
      case ExtendWindow(win, end) => ExtendKeepsInv(cfg, w, win, end);
      case ReleaseTick(r, markFails, receiptWritten) => ReleaseKeepsInv(cfg, w, r, markFails, receiptWritten);
    }
  }

  lemma {:induction false} RunKeepsInv(cfg: Config, w: World, steps: seq<Step>)
    requires ConfigWF(cfg) && Inv(cfg, w) && Legal(cfg, w, steps)
    ensures Inv(cfg, Run(cfg, w, steps))
    decreases |steps|
  {
    if steps != [] {
      StepKeepsInv(cfg, w, steps[0]);
      RunKeepsInv(cfg, Apply(cfg, w, steps[0]), steps[1..]);
    }
  }

  /** No alert is lost. After any run, every topic message at or before the durable cursor
  has its row held, or a durable triage record of its identity that is not older than one
  cooldown before the message was published. */
  lemma NoAlertIsLost(cfg: Config, steps: seq<Step>, i: nat)
    requires ConfigWF(cfg) && Legal(cfg, START, steps)
    requires i < Run(cfg, START, steps).cursor
    ensures i < |Run(cfg, START, steps).topic| && Covered(cfg, Run(cfg, START, steps), i)
  {
    StartInv(cfg);
    RunKeepsInv(cfg, START, steps);
  }

  /** Each window gets at most one hold-release record over all runs, and its counts are
  those of the rows the window holds: held is recovered plus forwarded. */
  lemma OneReceiptPerWindow(cfg: Config, steps: seq<Step>, m: nat, n: nat)
    requires ConfigWF(cfg) && Legal(cfg, START, steps)
    requires m < |Run(cfg, START, steps).ledger.receipts| && n < |Run(cfg, START, steps).ledger.receipts|
    ensures var led := Run(cfg, START, steps).ledger;
      var g := Groups(HeldEvents(led.store, led.receipts[n].windowId));
      && (led.receipts[m].windowId == led.receipts[n].windowId ==> m == n)
      && IsReleased(led.store, led.receipts[n].windowId)
      && led.receipts[n].held == g.held && led.receipts[n].recovered == g.recovered
      && led.receipts[n].forwarded == |g.forwarded|
      && led.receipts[n].held == led.receipts[n].recovered + led.receipts[n].forwarded
  {
    StartInv(cfg);
    RunKeepsInv(cfg, START, steps);
    var led := Run(cfg, START, steps).ledger;
    GroupsBalance(HeldEvents(led.store, led.receipts[n].windowId));
    assert led.receipts[n] == ReceiptOf(led.store, led.receipts[n].windowId);
  }

  /** The hold-release record whose counts are the ones the turn carried. */
  function TurnReceipt(it: Item): ReleaseReceipt
    requires it.Release? && it.turn.heldRelease.Some?
  {
    var r := it.turn.heldRelease.value;
    ReleaseReceipt(it.window, r.held, r.recovered, r.held - r.recovered)
  }

  lemma MarkWritesTurnCounts(led: Ledger, it: Item, at: real)
    requires it.Release? && ReleaseItemWF(led, it) && Unreleased(led.store, it.window)
    ensures it.turn.heldRelease.Some?
    ensures MarkReleased(led, it.window, at, false, true).receipts == led.receipts + [TurnReceipt(it)]
  {
  }

  /** For a release with a turn, the record's counts are the ones the turn carried: between
  the decision and the mark the window takes no rows. */
  lemma ReceiptMatchesTurn(cfg: Config, steps: seq<Step>)
    requires ConfigWF(cfg) && Legal(cfg, START, steps)
    requires Enabled(Run(cfg, START, steps), MarkWindow(false, true))
    ensures var w := Run(cfg, START, steps);
      && w.queue[0].turn.heldRelease.Some?
      && Apply(cfg, w, MarkWindow(false, true)).ledger.receipts == w.ledger.receipts + [TurnReceipt(w.queue[0])]
  {
    StartInv(cfg);
    RunKeepsInv(cfg, START, steps);
    var w := Run(cfg, START, steps);
    assert ReleasesWF(w.queue, w.ledger);
    assert ReleaseItemWF(w.ledger, w.queue[0]);
    MarkWritesTurnCounts(w.ledger, w.queue[0], w.now);
  }

  /** A recent triage record of `k`, with the cooldown still running at `now`. */
  predicate CoolingRecord(cfg: Config, t: Triage, k: string, now: real) {
    k in KeysOf(t.record) && now - AtOf(t.record) < CooldownFor(cfg, k)
  }

  lemma RecordArms(cfg: Config, w: World, k: string, n: nat)
    requires LogWF(w.log, w.now) && n < |w.log| && CoolingRecord(cfg, w.log[n], k, w.now)
    ensures InCooldown(cfg, RestartedWorld(cfg, w).cadence.last, k, w.now)
  {
    var records := Records(w.log);
    var r := records[n];
    CooldownWithinWidest(cfg, k);
    RehydrateArmsNewest(cfg, records, w.now);
    assert r in Eligible(cfg, records, w.now);
    NewestSuppresses(cfg, RestartedWorld(cfg, w).cadence.last, Eligible(cfg, records, w.now), r, k, w.now);
  }

  lemma ArmsFromRecord(cfg: Config, w: World, k: string) returns (n: nat)
    requires InCooldown(cfg, RestartedWorld(cfg, w).cadence.last, k, w.now)
    ensures n < |w.log| && CoolingRecord(cfg, w.log[n], k, w.now)
  {
    RehydratedIsInLog(cfg, w, k);
    var t := RestartedWorld(cfg, w).cadence.last[k];
    n :| 0 <= n < |w.log| && k in KeysOf(w.log[n].record) && t <= AtOf(w.log[n].record);
  }

  /** Right after any restart, an identity is in cooldown exactly when a durable triage record
  says so: nothing the log records is forgotten, and nothing else is invented. */
  lemma RestartCooldownIsRecorded(cfg: Config, steps: seq<Step>, k: string)
    requires ConfigWF(cfg) && Legal(cfg, START, steps) && !Run(cfg, START, steps).up
    ensures var w := Run(cfg, START, steps);
      InCooldown(cfg, Apply(cfg, w, Restart).cadence.last, k, w.now) <==>
        exists n :: 0 <= n < |w.log| && CoolingRecord(cfg, w.log[n], k, w.now)
  {
    StartInv(cfg);
    RunKeepsInv(cfg, START, steps);
    var w := Run(cfg, START, steps);
    assert Apply(cfg, w, Restart) == RestartedWorld(cfg, w);
    if InCooldown(cfg, RestartedWorld(cfg, w).cadence.last, k, w.now) {
      var n := ArmsFromRecord(cfg, w, k);
    }
    if n :| 0 <= n < |w.log| && CoolingRecord(cfg, w.log[n], k, w.now) { RecordArms(cfg, w, k, n); }
  }
}
