/** What becomes of a held alert: at the moment its window is marked released, and for good.

The promises need the duplicate check to have done its work: no dispatch passed on an event
that was already held (`noneRepassed`). They hold over every run, crashes and restarts
included.
*/
module ProtocolFates {
  import opened Common
  import opened Cadence
  import opened Holds
  import opened Protocol
  import opened ProtocolInvariant
  import opened ProtocolDispatch
  import opened ProtocolRelease
  import opened ProtocolTheorems

  // --- The duplicate check ---------------------------------------------------------------------

  /** When every duplicate check was read, no held event was ever passed on. */
  lemma {:induction false} ReadChecksRepassNothing(cfg: Config, w: World, steps: seq<Step>)
    requires Legal(cfg, w, steps) && w.noneRepassed
    requires forall s :: s in steps && s.Dispatch? ==> s.idsRead
    ensures Run(cfg, w, steps).noneRepassed
    decreases |steps|
  {
    if steps != [] {
      assert steps[0] in steps;
      ReadCheckRepassesNothing(cfg, w, steps[0]);
      ReadChecksRepassNothing(cfg, Apply(cfg, w, steps[0]), steps[1..]);
    }
  }

  lemma ReadCheckRepassesNothing(cfg: Config, w: World, s: Step)
    requires Enabled(w, s) && w.noneRepassed && (s.Dispatch? ==> s.idsRead)
    ensures Apply(cfg, w, s).noneRepassed
  {
  }

  // --- At the mark -------------------------------------------------------------------------------

  /** Message `i` carries `k`, is after the cursor, and is not held: a restart dispatches it. */
  predicate AwaitsReplay(cfg: Config, w: World, k: string, i: nat) {
    w.cursor <= i < |w.topic| && MessageKey(cfg, w.topic[i]) == k && !IdHeld(w.ledger.store, w.topic[i].id)
  }

  /** The row's identity is triaged, or will be after a restart. */
  ghost predicate Answered(cfg: Config, w: World, row: HeldRow) {
    Recorded(cfg, w.log, row.key, row.heldAt) || exists i: nat :: AwaitsReplay(cfg, w, row.key, i)
  }

  lemma NowIsAnswered(cfg: Config, w: World, row: HeldRow)
    requires SettledNow(cfg, w, row)
    ensures Answered(cfg, w, row)
  {
    if i: nat :| OutstandingAt(cfg, w, row, i) { assert AwaitsReplay(cfg, w, row.key, i); }
  }

  /** What is answered stays so while log, topic, cursor and rows stay. */
  lemma AnsweredFrame(cfg: Config, w: World, w': World, row: HeldRow)
    requires w'.log == w.log && w'.topic == w.topic && w'.cursor == w.cursor
    requires w'.ledger.store.rows == w.ledger.store.rows && Answered(cfg, w, row)
    ensures Answered(cfg, w', row)
  {
    if i: nat :| AwaitsReplay(cfg, w, row.key, i) { assert AwaitsReplay(cfg, w', row.key, i); }
  }

  /** `s` marks `win` released: after a durable record, or for want of a turn. */
  predicate Marks(cfg: Config, w: World, s: Step, win: string) {
    || (s.MarkWindow? && !s.markFails && Finishing(w) && w.queue[0].window == win)
    || (s.ReleaseTick? && !s.markFails && s.release.windowId == win && ReleaseItems(cfg, w, win) == [])
  }

  lemma HoldMarksNothing(cfg: Config, w: World, i: nat, e: Event, active: seq<CalendarWindow>, fails: bool, win: string)
    requires Holding(w, i, e) && !IsReleased(w.ledger.store, win)
    ensures !IsReleased(HoldEvent(cfg, w.ledger, e, PublishTime(e), active, w.now, fails).next.store, win)
  {
    HoldStores(cfg, w, i, e, active, fails);
  }

  lemma TickMarks(cfg: Config, w: World, r: HeldRelease, markFails: bool, written: bool, win: string)
    requires Enabled(w, ReleaseTick(r, markFails, written)) && !IsReleased(w.ledger.store, win)
    requires IsReleased(Released(cfg, w, r, markFails, written).ledger.store, win)
    ensures !markFails && r.windowId == win && ReleaseItems(cfg, w, win) == []
  {
    EvaluateEffect(cfg, w.cadence, Rebuilt(Groups(HeldEvents(w.ledger.store, r.windowId)).forwarded), w.now, Some(r));
  }

  lemma OnlyMarksRelease(cfg: Config, w: World, s: Step, win: string)
    requires Enabled(w, s) && !IsReleased(w.ledger.store, win) && IsReleased(Apply(cfg, w, s).ledger.store, win)
    ensures Marks(cfg, w, s, win)
  {
    match s
    case HoldRow(i, e, active, fails) => HoldMarksNothing(cfg, w, i, e, active, fails, win);
    case ReleaseTick(r, markFails, written) => TickMarks(cfg, w, r, markFails, written, win);
    case _ =>
  }

  lemma TickAnswers(cfg: Config, w: World, r: HeldRelease, written: bool, row: HeldRow)
    requires Inv(cfg, w) && w.noneRepassed && Enabled(w, ReleaseTick(r, false, written))
    requires ReleaseItems(cfg, w, r.windowId) == [] && Owed(w.ledger.store, r.windowId, row)
    ensures Answered(cfg, Released(cfg, w, r, false, written), row)
  {
    ForwardedIsTriagedOrSettled(cfg, w, r.windowId, row);
    NoItemsNoKeys([]);
    NowIsAnswered(cfg, w, row);
    EvaluateEffect(cfg, w.cadence, Rebuilt(Groups(HeldEvents(w.ledger.store, r.windowId)).forwarded), w.now, Some(r));
    AnsweredFrame(cfg, w, Released(cfg, w, r, false, written), row);
  }

  lemma MarkAnswers(cfg: Config, w: World, written: bool, row: HeldRow)
    requires Inv(cfg, w) && w.noneRepassed && Finishing(w) && Owed(w.ledger.store, w.queue[0].window, row)
    ensures Answered(cfg, Apply(cfg, w, MarkWindow(false, written)), row)
  {
    FinishedIsSettled(cfg, w, row);
    NowIsAnswered(cfg, w, row);
    AnsweredFrame(cfg, w, Apply(cfg, w, MarkWindow(false, written)), row);
  }

  /** The step that marks a window released leaves every identity it forwards either with a
  durable triage record, recent for each of its rows, or with an unheld message after the
  cursor, which a restart dispatches. There is no third case. */
  lemma MarkingDropsNoAlert(cfg: Config, steps: seq<Step>, s: Step, win: string, row: HeldRow)
    requires ConfigWF(cfg) && Legal(cfg, START, steps) && Enabled(Run(cfg, START, steps), s)
    requires Run(cfg, START, steps).noneRepassed && !IsReleased(Run(cfg, START, steps).ledger.store, win)
    requires IsReleased(Apply(cfg, Run(cfg, START, steps), s).ledger.store, win)
    requires Owed(Apply(cfg, Run(cfg, START, steps), s).ledger.store, win, row)
    ensures Answered(cfg, Apply(cfg, Run(cfg, START, steps), s), row)
  {
    var w := Run(cfg, START, steps);
    StartInv(cfg);
    RunKeepsInv(cfg, START, steps);
    OnlyMarksRelease(cfg, w, s, win);
    MarksKeepsOwed(cfg, w, s, win, row);
    if s.MarkWindow? { MarkAnswers(cfg, w, s.receiptWritten, row); }
    else { TickAnswers(cfg, w, s.release, s.receiptWritten, row); }
  }

  lemma MarksKeepsOwed(cfg: Config, w: World, s: Step, win: string, row: HeldRow)
    requires Enabled(w, s) && Marks(cfg, w, s, win) && Owed(Apply(cfg, w, s).ledger.store, win, row)
    ensures Owed(w.ledger.store, win, row)
  {
    assert Apply(cfg, w, s).ledger.store.rows == w.ledger.store.rows;
    assert HeldEvents(Apply(cfg, w, s).ledger.store, win) == HeldEvents(w.ledger.store, win);
  }

  // --- For good ----------------------------------------------------------------------------------

  /** The identity recovered in the window: its latest row there is resolved. */
  ghost predicate RecoveredIn(st: Store, win: string, k: string) {
    exists i: nat :: Recovers(HeldEvents(st, win), k, i)
  }

  predicate Recovers(rows: seq<HeldRow>, k: string, i: nat) {
    i < |rows| && rows[i].key == k && IsLatest(rows, i) && rows[i].state == Resolved
  }

  /** Row `m` waits in a window not yet released, or its identity recovered there. */
  ghost predicate Rests(st: Store, m: nat) {
    m < |st.rows| && (!IsReleased(st, st.rows[m].windowId) || RecoveredIn(st, st.rows[m].windowId, st.rows[m].key))
  }

  /** Where identity `k`, held at `t`, can end: recorded recently, about to be replayed, or at
  rest in a row from `from` on. */
  ghost predicate Ends(cfg: Config, w: World, k: string, t: real, from: nat) {
    || Recorded(cfg, w.log, k, t)
    || (exists i: nat :: AwaitsReplay(cfg, w, k, i))
    || (exists m: nat :: RestsAt(w.ledger.store, k, from, m))
  }

  ghost predicate RestsAt(st: Store, k: string, from: nat, m: nat) {
    from <= m && Rests(st, m) && st.rows[m].key == k
  }

  /** In a window an identity recovered, or is forwarded. */
  lemma RecoveredOrForwarded(st: Store, win: string, row: HeldRow)
    requires row in st.rows && row.windowId == win
    ensures RecoveredIn(st, win, row.key) || Owed(st, win, row)
  {
    var rows := HeldEvents(st, win);
    HeldEventsMembers(st, win, row);
    var i :| 0 <= i < |rows| && rows[i] == row;
    var j := LatestOfKey(rows, |rows|, i);
    if rows[j].state == Resolved {
      assert Recovers(rows, row.key, j);
    } else {
      assert Holds.Forwards(rows, j);
      ForwardedIffLatestUnresolved(rows, |rows|, rows[j]);
      var f := Groups(rows).forwarded;
      var n :| 0 <= n < |f| && f[n] == rows[j];
      assert f[n].key == row.key;
    }
  }

  lemma RecordedEarlier(cfg: Config, log: seq<Triage>, k: string, t: real, earlier: real)
    requires Recorded(cfg, log, k, t) && earlier <= t
    ensures Recorded(cfg, log, k, earlier)
  {
    var n :| 0 <= n < |log| && k in KeysOf(log[n].record) && RecentFor(cfg, k, AtOf(log[n].record), t);
    assert RecentFor(cfg, k, AtOf(log[n].record), earlier);
  }

  /** A settled row is recorded, about to be replayed, or followed by a row after its window. */
  lemma SettledCases(cfg: Config, w: World, row: HeldRow)
    requires RowsWF(cfg, w.topic, w.now, w.ledger.store) && TopicWF(w.topic, w.now) && Settled(cfg, w, row)
    ensures Recorded(cfg, w.log, row.key, row.heldAt) || (exists i: nat :: AwaitsReplay(cfg, w, row.key, i))
         || HeldLater(w.ledger.store.rows, row)
  {
    if i: nat :| ReplaysAt(cfg, w, row, i) {
      if IdHeld(w.ledger.store, w.topic[i].id) { DroppedIsHeldLater(cfg, w, row, i); }
      else { assert AwaitsReplay(cfg, w, row.key, i); }
    }
  }

  lemma EndsLater(cfg: Config, w: World, k: string, t: real, from: nat, earlier: real, to: nat)
    requires Ends(cfg, w, k, t, from) && earlier <= t && to <= from
    ensures Ends(cfg, w, k, earlier, to)
  {
    if Recorded(cfg, w.log, k, t) {
      RecordedEarlier(cfg, w.log, k, t, earlier);
    } else if m: nat :| RestsAt(w.ledger.store, k, from, m) {
      assert RestsAt(w.ledger.store, k, to, m);
    }
  }

  /** Every held row ends well, there or in a later row: the later row is held after the
  whole of the window it follows, so the chain is finite. */
  lemma {:induction false} EveryRowEnds(cfg: Config, w: World, j: nat)
    requires Inv(cfg, w) && w.noneRepassed && j < |w.ledger.store.rows|
    ensures Ends(cfg, w, w.ledger.store.rows[j].key, w.ledger.store.rows[j].heldAt, j)
    decreases |w.ledger.store.rows| - j
  {
    var st := w.ledger.store;
    var row := st.rows[j];
    RecoveredOrForwarded(st, row.windowId, row);
    if Rests(st, j) {
      assert RestsAt(st, row.key, j, j);
    } else {
      SettledCases(cfg, w, row);
      if m: nat :| AfterWindow(st.rows, row.windowId, m) && st.rows[m].key == row.key {
        EveryRowEnds(cfg, w, m);
        EndsLater(cfg, w, row.key, st.rows[m].heldAt, m, row.heldAt, j);
      }
    }
  }

  /** Where an identity forwarded by a released window can end. */
  ghost predicate ReleasedEnds(cfg: Config, w: World, win: string, row: HeldRow) {
    || Recorded(cfg, w.log, row.key, row.heldAt)
    || (exists i: nat :: AwaitsReplay(cfg, w, row.key, i))
    || (exists m: nat :: RestsAfter(w.ledger.store, win, row.key, m))
  }

  ghost predicate RestsAfter(st: Store, win: string, k: string, m: nat) {
    AfterWindow(st.rows, win, m) && Rests(st, m) && st.rows[m].key == k
  }

  lemma ReleasedRowEnds(cfg: Config, w: World, win: string, row: HeldRow)
    requires Inv(cfg, w) && w.noneRepassed && IsReleased(w.ledger.store, win) && Owed(w.ledger.store, win, row)
    ensures ReleasedEnds(cfg, w, win, row)
  {
    var st := w.ledger.store;
    SettledCases(cfg, w, row);
    if m: nat :| AfterWindow(st.rows, win, m) && st.rows[m].key == row.key {
      EveryRowEnds(cfg, w, m);
      var n :| 0 <= n < |st.rows| && st.rows[n] == row;
      EndsLater(cfg, w, row.key, st.rows[m].heldAt, m, row.heldAt, m);
      if e: nat :| RestsAt(st, row.key, m, e) { assert RestsAfter(st, win, row.key, e); }
    }
  }

  /** Releasing never drops an alert. Over every run, each identity a released window forwarded
  has a durable triage record not older than one cooldown before the row was held, or an
  unheld message after the cursor, or was held again, after every row of the window, where
  it waits in a window still to be released or recovered. */
  lemma ReleasingDropsNoAlert(cfg: Config, steps: seq<Step>, win: string, row: HeldRow)
    requires ConfigWF(cfg) && Legal(cfg, START, steps) && Run(cfg, START, steps).noneRepassed
    requires IsReleased(Run(cfg, START, steps).ledger.store, win) && Owed(Run(cfg, START, steps).ledger.store, win, row)
    ensures ReleasedEnds(cfg, Run(cfg, START, steps), win, row)
  {
    StartInv(cfg);
    RunKeepsInv(cfg, START, steps);
    ReleasedRowEnds(cfg, Run(cfg, START, steps), win, row);
  }

  /** Row `j` was held for the message. */
  predicate HeldAs(w: World, m: Message, j: nat) { j < |w.ledger.store.rows| && w.ledger.store.rows[j].eventId == m.id }

  /** From publication to outcome. After any run that passed on no held event, a message at or
  before the cursor has a recent durable triage record, or was held as a row whose identity
  is recorded recently, about to be replayed, or at rest in that row or a later one: waiting
  in a window still to be released, or recovered. */
  lemma EveryAlertHasAFate(cfg: Config, steps: seq<Step>, i: nat)
    requires ConfigWF(cfg) && Legal(cfg, START, steps) && Run(cfg, START, steps).noneRepassed
    requires i < Run(cfg, START, steps).cursor
    ensures var w := Run(cfg, START, steps);
      && i < |w.topic|
      && var k := MessageKey(cfg, w.topic[i]);
         || Recorded(cfg, w.log, k, w.topic[i].published)
         || exists j: nat :: HeldAs(w, w.topic[i], j) && Ends(cfg, w, k, w.ledger.store.rows[j].heldAt, j)
  {
    StartInv(cfg);
    RunKeepsInv(cfg, START, steps);
    var w := Run(cfg, START, steps);
    assert Covered(cfg, w, i);
    if IdHeld(w.ledger.store, w.topic[i].id) {
      var j: nat :| j < |w.ledger.store.rows| && w.ledger.store.rows[j].eventId == w.topic[i].id;
      HeldRowKey(cfg, w, j, i);
      EveryRowEnds(cfg, w, j);
      assert HeldAs(w, w.topic[i], j);
    }
  }
}
