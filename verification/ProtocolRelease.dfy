/** The release's steps keep the invariant: submitting a window's release turn, marking a
window that produced none, and marking one once its triage record is durable. */
module ProtocolRelease {
  import opened Common
  import opened Cadence
  import opened Holds
  import opened Protocol
  import opened ProtocolInvariant
  import opened ProtocolCore
  import opened ProtocolDispatch

  // --- Marking, as seen by everything else -----------------------------------------------------

  /** `led'` is `led` with the unreleased window `win` marked, or a failed attempt at it. */
  ghost predicate Marked(led: Ledger, led': Ledger, win: string, at: real) {
    && Unreleased(led.store, win)
    && led'.store == MarkRow(led.store, win, at) && led'.inFlight == led.inFlight - {win}
    && (led'.receipts == led.receipts || led'.receipts == led.receipts + [ReceiptOf(led.store, win)])
  }

  lemma MarkedKeepsRows(led: Ledger, led': Ledger, win: string, at: real)
    requires Marked(led, led', win, at)
    ensures led'.store.rows == led.store.rows && led'.store.windows.Keys == led.store.windows.Keys
    ensures forall other :: IsReleased(led'.store, other) <==> IsReleased(led.store, other) || other == win
    ensures forall other :: HeldEvents(led'.store, other) == HeldEvents(led.store, other)
  {
  }

  lemma MarkedKeepsReceipts(led: Ledger, led': Ledger, win: string, at: real)
    requires Marked(led, led', win, at) && ReceiptsWF(led)
    ensures ReceiptsWF(led')
  {
    MarkedKeepsRows(led, led', win, at);
    assert forall n :: 0 <= n < |led.receipts| ==> led.receipts[n].windowId != win;
    forall n | 0 <= n < |led'.receipts|
      ensures IsReleased(led'.store, led'.receipts[n].windowId)
           && led'.receipts[n] == ReceiptOf(led'.store, led'.receipts[n].windowId)
    {
      if n < |led.receipts| { assert led'.receipts[n] == led.receipts[n]; }
    }
  }

  lemma MarkedKeepsReleases(queue: seq<Item>, led: Ledger, led': Ledger, win: string, at: real)
    requires Marked(led, led', win, at) && ReleasesWF(queue, led) && NoReleaseOf(queue, win)
    ensures ReleasesWF(queue, led')
  {
    MarkedKeepsRows(led, led', win, at);
    forall p | 0 <= p < |queue| ensures ReleaseItemWF(led', queue[p]) {
      assert ReleaseItemWF(led, queue[p]);
    }
  }

  lemma MarkedKeepsRowsWF(cfg: Config, topic: seq<Message>, now: real, led: Ledger, led': Ledger, win: string, at: real)
    requires Marked(led, led', win, at) && RowsWF(cfg, topic, now, led.store)
    ensures RowsWF(cfg, topic, now, led'.store)
  {
    MarkedKeepsRows(led, led', win, at);
  }

  // --- The release of a window, decided ----------------------------------------------------------

  /** Why a suppressed identity may still close its window: its cooldown is a durable record
  or a live turn whose message a restart would replay, never another release in flight. */
  lemma SuppressedIsSettled(cfg: Config, w: World, win: string, row: HeldRow)
    requires CooldownsBacked(cfg, w) && LiveWF(cfg, w) && OffsetsWF(w.queue, w.cursor, w.dispatched)
    requires ReleasesWF(w.queue, w.ledger) && BoundsWF(w) && w.noneRepassed
    requires Releasable(w, win) && row in HeldEvents(w.ledger.store, win) && row.heldAt <= w.now
    requires InCooldown(cfg, w.cadence.last, row.key, w.now)
    ensures SettledNow(cfg, w, row)
  {
    var k, armed := row.key, w.cadence.last[row.key];
    assert Backed(cfg, w, k, armed);
    NotInFlight(w, win, row);
    if InLog(w.log, k, armed) {
      InLogIsRecorded(cfg, w.log, k, armed, w.now, row.heldAt);
    } else if InQueue(w.queue, w.stage, k, armed) {
      var p: nat :| WillRecord(w.queue, w.stage, p, k) && armed <= w.queue[p].decidedAt;
      assert ReleaseItemWF(w.ledger, w.queue[p]);
      QueuedLiveReplays(cfg, w, row, p);
    } else if FailedLive(cfg, w, k) {
      var i: nat :| w.cursor <= i < w.dispatched && Unheld(cfg, w, k, i);
      UnheldIsOutstanding(cfg, w, row, i);
    }
  }

  lemma NotInFlight(w: World, win: string, row: HeldRow)
    requires Releasable(w, win) && row in HeldEvents(w.ledger.store, win)
    ensures forall other :: other in w.ledger.inFlight ==> row.key !in w.ledger.inFlight[other]
  {
    var rows := HeldEvents(w.ledger.store, win);
    var n :| 0 <= n < |rows| && rows[n] == row;
    assert row.key in RowKeys(rows);
    var flying := InFlightIdentities(w.ledger.inFlight);
    assert forall other, k :: other in w.ledger.inFlight && k in w.ledger.inFlight[other] ==> k in flying;
  }

  lemma UnheldIsOutstanding(cfg: Config, w: World, row: HeldRow, i: nat)
    requires w.noneRepassed && w.cursor <= i < w.dispatched && Unheld(cfg, w, row.key, i)
    requires w.latch || Queued(cfg, w.queue, w.stage, row.key, i, row.heldAt)
    ensures SettledNow(cfg, w, row)
  {
    assert OutstandingAt(cfg, w, row, i);
  }

  lemma QueuedLiveReplays(cfg: Config, w: World, row: HeldRow, p: nat)
    requires LiveWF(cfg, w) && OffsetsWF(w.queue, w.cursor, w.dispatched) && w.noneRepassed
    requires WillRecord(w.queue, w.stage, p, row.key) && w.queue[p].Live?
    requires InCooldown(cfg, w.cadence.last, row.key, w.now) && row.heldAt <= w.now
    requires w.cadence.last[row.key] <= w.queue[p].decidedAt
    ensures SettledNow(cfg, w, row)
  {
    var i: nat :| w.queue[p].lo <= i < w.queue[p].hi && Unheld(cfg, w, row.key, i);
    assert RecentFor(cfg, row.key, w.queue[p].decidedAt, row.heldAt) && Behind(w.queue, p, i);
    UnheldIsOutstanding(cfg, w, row, i);
  }

  /** A forwarded identity is one the release evaluates. */
  lemma ForwardedIsEvaluated(cfg: Config, w: World, win: string, k: string)
    requires RowsWF(cfg, w.topic, w.now, w.ledger.store) && ForwardsKey(w.ledger.store, win, k)
    ensures k in BatchKeys(cfg, Rebuilt(Groups(HeldEvents(w.ledger.store, win)).forwarded))
  {
    var forwarded := Groups(HeldEvents(w.ledger.store, win)).forwarded;
    var n :| 0 <= n < |forwarded| && forwarded[n].key == k;
    ForwardedIsRow(w.ledger.store, win, forwarded[n]);
    assert RowWF(cfg, w.topic, w.now, forwarded[n]);
    var events := Rebuilt(forwarded);
    assert KeyOf(cfg, events[n]) == k;
  }

  /** Each forwarded identity is triaged by the release's turn, or settled without it. */
  lemma ForwardedIsTriagedOrSettled(cfg: Config, w: World, win: string, row: HeldRow)
    requires Inv(cfg, w) && Releasable(w, win) && w.noneRepassed && Owed(w.ledger.store, win, row)
    ensures row.key in ItemKeys(ReleaseItems(cfg, w, win)) || SettledNow(cfg, w, row)
  {
    OwedIsOld(cfg, w, win, row);
    HeldEventsMembers(w.ledger.store, win, row);
    ForwardedIsEvaluated(cfg, w, win, row.key);
    ScreenPartitions(cfg, w.cadence, Rebuilt(Groups(HeldEvents(w.ledger.store, win)).forwarded), w.now);
    if InCooldown(cfg, w.cadence.last, row.key, w.now) { SuppressedIsSettled(cfg, w, win, row); }
  }

  function ReleaseItems(cfg: Config, w: World, win: string): seq<TurnItem> {
    Screen(cfg, w.cadence, Rebuilt(Groups(HeldEvents(w.ledger.store, win)).forwarded), w.now).items
  }

  // --- A release without a turn --------------------------------------------------------------------

  /** `w'` is `w` with the window's mark attempted: done, or failed and nothing changed. */
  ghost predicate ClosedWithoutTurn(w: World, w': World, win: string) {
    && w' == w.(ledger := w'.ledger)
    && (w'.ledger == w.ledger || Marked(w.ledger, w'.ledger, win, w.now))
  }

  lemma SettledSameRows(cfg: Config, w: World, w': World, row: HeldRow)
    requires w' == w.(ledger := w'.ledger) && w'.ledger.store.rows == w.ledger.store.rows
    ensures Settled(cfg, w, row) ==> Settled(cfg, w', row)
    ensures SettledNow(cfg, w, row) ==> SettledNow(cfg, w', row)
  {
    if i: nat :| ReplaysAt(cfg, w, row, i) { assert ReplaysAt(cfg, w', row, i); }
    if i: nat :| OutstandingAt(cfg, w, row, i) { assert OutstandingAt(cfg, w', row, i); }
  }

  lemma CloseKeepsBacked(cfg: Config, w: World, w': World, win: string)
    requires w' == w.(ledger := w'.ledger) && Marked(w.ledger, w'.ledger, win, w.now)
    requires win !in w.ledger.inFlight && CooldownsBacked(cfg, w)
    ensures CooldownsBacked(cfg, w')
  {
    forall k | k in w'.cadence.last ensures Backed(cfg, w', k, w'.cadence.last[k]) {
      assert Backed(cfg, w, k, w.cadence.last[k]);
      if FailedLive(cfg, w, k) {
        var i :| w.cursor <= i < w.dispatched && Unheld(cfg, w, k, i);
        assert Unheld(cfg, w', k, i);
      } else if FailedRelease(w, k) {
        var other :| other in w.ledger.inFlight && k in w.ledger.inFlight[other] && NoReleaseOf(w.queue, other);
        assert other in w'.ledger.inFlight && k in w'.ledger.inFlight[other];
      }
    }
  }

  lemma SameRowsAccounted(cfg: Config, w: World, w': World)
    requires w' == w.(ledger := w'.ledger) && w'.ledger.store.rows == w.ledger.store.rows
    requires CursorCovered(cfg, w) && DispatchAccounted(cfg, w)
    ensures CursorCovered(cfg, w') && DispatchAccounted(cfg, w')
  {
    forall i: nat | i < |w.topic| && Covered(cfg, w, i) ensures Covered(cfg, w', i) {
    }
    forall i | 0 <= i < w'.dispatched && i < |w'.topic| ensures Accounted(cfg, w', i) {
      assert Accounted(cfg, w, i);
    }
  }

  lemma CloseKeepsWF(cfg: Config, w: World, w': World, win: string)
    requires WF(cfg, w) && w.up && w' == w.(ledger := w'.ledger) && Marked(w.ledger, w'.ledger, win, w.now)
    requires NoReleaseOf(w.queue, win)
    ensures WF(cfg, w')
  {
    MarkedKeepsRows(w.ledger, w'.ledger, win, w.now);
    MarkedKeepsReceipts(w.ledger, w'.ledger, win, w.now);
    MarkedKeepsReleases(w.queue, w.ledger, w'.ledger, win, w.now);
    MarkedKeepsRowsWF(cfg, w.topic, w.now, w.ledger, w'.ledger, win, w.now);
    LiveWFFrame(cfg, w, w');
  }

  lemma MarkedOwes(led: Ledger, led': Ledger, win: string, at: real, other: string, row: HeldRow)
    requires Marked(led, led', win, at)
    ensures Owed(led'.store, other, row) <==> Owed(led.store, other, row)
  {
    MarkedKeepsRows(led, led', win, at);
  }

  /** Marking a window whose forwarded identities are all settled keeps every release so. */
  lemma CloseKeepsSettling(cfg: Config, w: World, w': World, win: string)
    requires w' == w.(ledger := w'.ledger) && Marked(w.ledger, w'.ledger, win, w.now)
    requires ReleasesSettled(cfg, w) && PendingSettled(cfg, w)
    requires forall row: HeldRow :: Owed(w.ledger.store, win, row) ==> Settled(cfg, w, row)
    ensures ReleasesSettled(cfg, w') && PendingSettled(cfg, w')
  {
    MarkedKeepsRows(w.ledger, w'.ledger, win, w.now);
    forall row: HeldRow | IsReleased(w'.ledger.store, row.windowId) && Owed(w'.ledger.store, row.windowId, row)
      ensures Settled(cfg, w', row)
    {
      MarkedOwes(w.ledger, w'.ledger, win, w.now, row.windowId, row);
      SettledSameRows(cfg, w, w', row);
    }
    forall p | 0 <= p < |w'.queue| && w'.queue[p].Release? ensures ItemSettled(cfg, w', w'.queue[p]) {
      assert ItemSettled(cfg, w, w.queue[p]);
      forall row: HeldRow | Owed(w'.ledger.store, w.queue[p].window, row) && row.key !in TurnKeys(w.queue[p])
        ensures SettledNow(cfg, w', row)
      {
        MarkedOwes(w.ledger, w'.ledger, win, w.now, w.queue[p].window, row);
        SettledSameRows(cfg, w, w', row);
      }
    }
  }

  lemma CloseKeepsInv(cfg: Config, w: World, r: HeldRelease, w': World)
    requires Inv(cfg, w) && Releasable(w, r.windowId) && ReleaseItems(cfg, w, r.windowId) == []
    requires ClosedWithoutTurn(w, w', r.windowId)
    ensures Inv(cfg, w')
  {
    var win := r.windowId;
    if w'.ledger == w.ledger {
      assert w' == w;
    } else {
      assert NoReleaseOf(w.queue, win) by {
        forall p | 0 <= p < |w.queue| && w.queue[p].Release? ensures w.queue[p].window != win {
          assert ReleaseItemWF(w.ledger, w.queue[p]);
        }
      }
      CloseKeepsWF(cfg, w, w', win);
      CloseKeepsBacked(cfg, w, w', win);
      MarkedKeepsRows(w.ledger, w'.ledger, win, w.now);
      SameRowsAccounted(cfg, w, w');
      if w.noneRepassed {
        forall row: HeldRow | Owed(w.ledger.store, win, row) ensures Settled(cfg, w, row) {
          ForwardedIsTriagedOrSettled(cfg, w, win, row);
          NowIsSettled(cfg, w, row);
        }
        CloseKeepsSettling(cfg, w, w', win);
      }
    }
  }

  // --- A release with a turn -----------------------------------------------------------------------

  /** `w'` is `w` with the release turn submitted. */
  ghost predicate Submitted(cfg: Config, w: World, r: HeldRelease, w': World, turn: EventTurn) {
    var it := Release(turn, r.windowId, w.now);
    && Releasable(w, r.windowId)
    && r.held == Groups(HeldEvents(w.ledger.store, r.windowId)).held
    && r.recovered == Groups(HeldEvents(w.ledger.store, r.windowId)).recovered
    && turn.items == ReleaseItems(cfg, w, r.windowId) && turn.heldRelease == Some(r)
    && "" !in ItemKeys(turn.items)
    && w' == w.(cadence := w'.cadence, ledger := w'.ledger, queue := w.queue + [it])
    && w'.cadence.last == Arm(w.cadence.last, ItemKeys(turn.items), w.now)
    && w'.ledger == w.ledger.(inFlight := w.ledger.inFlight[r.windowId := ItemKeys(turn.items)])
  }

  /** Another window's turn is untouched by one more window in flight, and is not its own. */
  lemma QueuedReleaseStays(led: Ledger, it: Item, win: string, keys: set<string>)
    requires ReleaseItemWF(led, it) && win !in led.inFlight
    ensures ReleaseItemWF(led.(inFlight := led.inFlight[win := keys]), it)
    ensures it.Release? ==> it.window != win
  {
  }

  lemma SubmittedReleaseWF(cfg: Config, w: World, r: HeldRelease, w': World, turn: EventTurn)
    requires Submitted(cfg, w, r, w', turn) && RowsWF(cfg, w.topic, w.now, w.ledger.store)
    ensures ReleaseItemWF(w'.ledger, Release(turn, r.windowId, w.now))
  {
    forall row | row in w.ledger.store.rows ensures row.heldAt <= w.now {
      assert RowWF(cfg, w.topic, w.now, row);
    }
  }

  lemma AppendReleaseWF(queue: seq<Item>, it: Item, led: Ledger, keys: set<string>)
    requires it.Release? && it.window !in led.inFlight && Unreleased(led.store, it.window)
    requires ReleasesWF(queue, led) && ReleaseItemWF(led.(inFlight := led.inFlight[it.window := keys]), it)
    ensures ReleasesWF(queue + [it], led.(inFlight := led.inFlight[it.window := keys]))
  {
    var led' := led.(inFlight := led.inFlight[it.window := keys]);
    forall p | 0 <= p < |queue|
      ensures ReleaseItemWF(led', queue[p]) && (queue[p].Release? ==> queue[p].window != it.window)
    {
      QueuedReleaseStays(led, queue[p], it.window, keys);
    }
  }

  lemma SubmitKeepsReleasesWF(cfg: Config, w: World, r: HeldRelease, w': World, turn: EventTurn)
    requires Submitted(cfg, w, r, w', turn) && ReleasesWF(w.queue, w.ledger) && RowsWF(cfg, w.topic, w.now, w.ledger.store)
    ensures ReleasesWF(w'.queue, w'.ledger)
  {
    SubmittedReleaseWF(cfg, w, r, w', turn);
    AppendReleaseWF(w.queue, Release(turn, r.windowId, w.now), w.ledger, ItemKeys(turn.items));
  }

  lemma SubmitKeepsLive(cfg: Config, w: World, r: HeldRelease, w': World, turn: EventTurn)
    requires LiveWF(cfg, w) && Submitted(cfg, w, r, w', turn)
    ensures LiveWF(cfg, w')
  {
    forall p, k | 0 <= p < |w'.queue| && w'.queue[p].Live? && k in TurnKeys(w'.queue[p])
      ensures exists j :: w'.queue[p].lo <= j < w'.queue[p].hi && Unheld(cfg, w', k, j)
    {
      assert w'.queue[p] == w.queue[p];
      var j :| w.queue[p].lo <= j < w.queue[p].hi && Unheld(cfg, w, k, j);
      assert Unheld(cfg, w', k, j);
    }
  }

  /** The stores and everything not about the queue or the ledger are as they were. */
  lemma SubmitKeepsStores(cfg: Config, w: World, r: HeldRelease, w': World, turn: EventTurn)
    requires Submitted(cfg, w, r, w', turn) && WF(cfg, w)
    ensures TopicWF(w'.topic, w'.now) && BoundsWF(w') && LogWF(w'.log, w'.now) && RowsWF(cfg, w'.topic, w'.now, w'.ledger.store)
    ensures StageWF(w') && DownWF(w') && ReceiptsWF(w'.ledger) && HeldInOrder(w'.ledger.store.rows)
  {
  }

  lemma SubmitKeepsWF(cfg: Config, w: World, r: HeldRelease, w': World, turn: EventTurn)
    requires WF(cfg, w) && Submitted(cfg, w, r, w', turn)
    ensures WF(cfg, w')
  {
    var it := Release(turn, r.windowId, w.now);
    SubmitKeepsStores(cfg, w, r, w', turn);
    SubmitKeepsReleasesWF(cfg, w, r, w', turn);
    SubmitKeepsLive(cfg, w, r, w', turn);
    AppendKeepsOffsets(w.queue, it, w.cursor, w.dispatched, w.dispatched);
    AppendKeepsTurns(w.queue, it, w.now);
  }

  lemma SubmitKeepsBacked(cfg: Config, w: World, r: HeldRelease, w': World, turn: EventTurn)
    requires CooldownsBacked(cfg, w) && StageWF(w) && Submitted(cfg, w, r, w', turn)
    ensures CooldownsBacked(cfg, w')
  {
    var it := Release(turn, r.windowId, w.now);
    forall k | k in w'.cadence.last ensures Backed(cfg, w', k, w'.cadence.last[k]) {
      if k in ItemKeys(turn.items) {
        assert WillRecord(w'.queue, w'.stage, |w.queue|, k);
      } else {
        BackedSurvivesAppend(cfg, w, w', [it], k, w.cadence.last[k]);
      }
    }
  }

  lemma SubmitKeepsSettled(cfg: Config, w: World, w': World, more: seq<Item>, row: HeldRow)
    requires Extends(w, w', more) && w'.dispatched == w.dispatched && Settled(cfg, w, row)
    ensures Settled(cfg, w', row)
  {
    if !Recorded(cfg, w.log, row.key, row.heldAt) && !HeldLater(w.ledger.store.rows, row) {
      var i: nat :| ReplaysAt(cfg, w, row, i);
      OldReplayExtends(cfg, w, w', more, row, i);
    }
  }

  lemma SubmittedItemSettled(cfg: Config, w: World, r: HeldRelease, w': World, turn: EventTurn, it: Item)
    requires Inv(cfg, w) && w.noneRepassed && Submitted(cfg, w, r, w', turn) && it == Release(turn, r.windowId, w.now)
    requires Extends(w, w', [it])
    ensures ItemSettled(cfg, w', it)
  {
    forall row: HeldRow | Owed(w'.ledger.store, it.window, row) && row.key !in TurnKeys(it) ensures SettledNow(cfg, w', row) {
      ForwardedIsTriagedOrSettled(cfg, w, r.windowId, row);
      SettledNowExtends(cfg, w, w', [it], row);
    }
  }

  lemma SubmitKeepsSettling(cfg: Config, w: World, r: HeldRelease, w': World, turn: EventTurn)
    requires Inv(cfg, w) && w.noneRepassed && Submitted(cfg, w, r, w', turn)
    ensures ReleasesSettled(cfg, w') && PendingSettled(cfg, w')
  {
    var it := Release(turn, r.windowId, w.now);
    assert Extends(w, w', [it]);
    forall row: HeldRow | IsReleased(w'.ledger.store, row.windowId) && Owed(w'.ledger.store, row.windowId, row)
      ensures Settled(cfg, w', row)
    {
      SubmitKeepsSettled(cfg, w, w', [it], row);
    }
    forall p | 0 <= p < |w'.queue| && w'.queue[p].Release? ensures ItemSettled(cfg, w', w'.queue[p]) {
      if p < |w.queue| { PendingExtends(cfg, w, w', [it], p); }
      else { SubmittedItemSettled(cfg, w, r, w', turn, it); }
    }
  }

  lemma SubmitKeepsInv(cfg: Config, w: World, r: HeldRelease, w': World, turn: EventTurn)
    requires Inv(cfg, w) && Submitted(cfg, w, r, w', turn)
    ensures Inv(cfg, w')
  {
    SubmitKeepsWF(cfg, w, r, w', turn);
    SubmitKeepsBacked(cfg, w, r, w', turn);
    var more := [Release(turn, r.windowId, w.now)];
    CoveredExtends(cfg, w, w', more);
    forall i | 0 <= i < w'.dispatched && i < |w'.topic| ensures Accounted(cfg, w', i) {
      AccountedExtends(cfg, w, w', more, i);
    }
    if w.noneRepassed { SubmitKeepsSettling(cfg, w, r, w', turn); }
  }

  lemma ReleaseKeepsInv(cfg: Config, w: World, r: HeldRelease, markFails: bool, receiptWritten: bool)
    requires Inv(cfg, w) && ConfigWF(cfg) && Enabled(w, ReleaseTick(r, markFails, receiptWritten))
    ensures Inv(cfg, Released(cfg, w, r, markFails, receiptWritten))
  {
    var w' := Released(cfg, w, r, markFails, receiptWritten);
    var events := Rebuilt(Groups(HeldEvents(w.ledger.store, r.windowId)).forwarded);
    EvaluateEffect(cfg, w.cadence, events, w.now, Some(r));
    EvaluatedKeys(cfg, w.cadence, events, w.now, Some(r));
    var d := ReleaseDecision(cfg, w, r).decision;
    if d.turn.None? {
      ReleaseMarks(w, r.windowId, markFails, receiptWritten);
      CloseKeepsInv(cfg, w, r, w');
    } else {
      SubmitKeepsInv(cfg, w, r, w', d.turn.value);
    }
  }

  lemma ReleaseMarks(w: World, win: string, markFails: bool, receiptWritten: bool)
    requires Unreleased(w.ledger.store, win)
    ensures var led' := MarkReleased(w.ledger, win, w.now, markFails, receiptWritten);
      if markFails then led' == w.ledger else Marked(w.ledger, led', win, w.now)
  {
  }

  // --- The mark after a durable record ----------------------------------------------------------------

  predicate Finishing(w: World) { w.up && w.queue != [] && w.queue[0].Release? && w.stage == Written }

  function PoppedWorld(w: World): World
    requires w.queue != []
  {
    w.(queue := w.queue[1..], stage := Ready)
  }

  lemma PopKeepsWF(cfg: Config, w: World)
    requires WF(cfg, w) && Finishing(w)
    ensures WF(cfg, PoppedWorld(w)) && NoReleaseOf(PoppedWorld(w).queue, w.queue[0].window)
  {
    PopKeepsQueueWF(cfg, w, PoppedWorld(w));
    assert forall p :: 0 <= p < |w.queue[1..]| ==> w.queue[1..][p] == w.queue[p + 1];
  }

  /** Popping drops no backing: the head's keys are in the log already. What only a failed
  release backs is not the head's. */
  lemma PopKeepsBacked(cfg: Config, w: World)
    requires WF(cfg, w) && Finishing(w) && CooldownsBacked(cfg, w)
    ensures CooldownsBacked(cfg, PoppedWorld(w))
    ensures forall k :: k in w.cadence.last && FailedRelease(w, k) ==>
              exists win :: win in w.ledger.inFlight && k in w.ledger.inFlight[win] && win != w.queue[0].window
                         && NoReleaseOf(PoppedWorld(w).queue, win)
  {
    var w' := PoppedWorld(w);
    forall k | k in w'.cadence.last ensures Backed(cfg, w', k, w'.cadence.last[k]) {
      var t := w.cadence.last[k];
      assert Backed(cfg, w, k, t);
      if InQueue(w.queue, w.stage, k, t) {
        PopKeepsInQueue(w.queue, w.stage, k, t);
      } else if FailedLive(cfg, w, k) {
        var i :| w.cursor <= i < w.dispatched && Unheld(cfg, w, k, i);
        assert Unheld(cfg, w', k, i);
      } else if FailedRelease(w, k) {
        var win :| win in w.ledger.inFlight && k in w.ledger.inFlight[win] && NoReleaseOf(w.queue, win);
        assert NoReleaseOf(w'.queue, win);
      }
    }
    forall k | k in w.cadence.last && FailedRelease(w, k)
      ensures exists win :: win in w.ledger.inFlight && k in w.ledger.inFlight[win] && win != w.queue[0].window
                         && NoReleaseOf(w'.queue, win)
    {
      var win :| win in w.ledger.inFlight && k in w.ledger.inFlight[win] && NoReleaseOf(w.queue, win);
      assert NoReleaseOf(w'.queue, win) && win != w.queue[0].window;
    }
  }

  /** The same, with the head's window marked and out of flight. */
  lemma FinishKeepsBacked(cfg: Config, w: World, w': World)
    requires WF(cfg, w) && Finishing(w) && CooldownsBacked(cfg, w)
    requires w' == PoppedWorld(w).(ledger := w'.ledger) && Marked(w.ledger, w'.ledger, w.queue[0].window, w.now)
    ensures CooldownsBacked(cfg, w')
  {
    PopKeepsBacked(cfg, w);
    var popped := PoppedWorld(w);
    forall k | k in w'.cadence.last ensures Backed(cfg, w', k, w'.cadence.last[k]) {
      assert Backed(cfg, w, k, w.cadence.last[k]);
      assert Backed(cfg, popped, k, w.cadence.last[k]);
      if FailedRelease(w, k) {
        var win :| win in w.ledger.inFlight && k in w.ledger.inFlight[win] && win != w.queue[0].window
                   && NoReleaseOf(popped.queue, win);
        assert win in w'.ledger.inFlight && k in w'.ledger.inFlight[win];
      } else if FailedLive(cfg, w, k) {
        var i :| w.cursor <= i < w.dispatched && Unheld(cfg, w, k, i);
        assert Unheld(cfg, w', k, i);
      } else if InQueue(w.queue, w.stage, k, w.cadence.last[k]) {
        PopKeepsInQueue(w.queue, w.stage, k, w.cadence.last[k]);
      }
    }
  }

  lemma PopKeepsSettled(cfg: Config, w: World, row: HeldRow)
    requires Finishing(w) && Settled(cfg, w, row)
    ensures Settled(cfg, PoppedWorld(w), row)
  {
    if !Recorded(cfg, w.log, row.key, row.heldAt) && !HeldLater(w.ledger.store.rows, row) {
      var i: nat :| ReplaysAt(cfg, w, row, i);
      if i < w.dispatched && !w.latch { PopKeepsQueued(cfg, w.queue, w.stage, row.key, i, row.heldAt); }
      assert ReplaysAt(cfg, PoppedWorld(w), row, i);
    }
  }

  lemma PopKeepsSettledNow(cfg: Config, w: World, row: HeldRow)
    requires Finishing(w) && SettledNow(cfg, w, row)
    ensures SettledNow(cfg, PoppedWorld(w), row)
  {
    if !Recorded(cfg, w.log, row.key, row.heldAt) {
      var i: nat :| OutstandingAt(cfg, w, row, i);
      if !w.latch { PopKeepsQueued(cfg, w.queue, w.stage, row.key, i, row.heldAt); }
      assert OutstandingAt(cfg, PoppedWorld(w), row, i);
    }
  }

  lemma PopKeepsAccounted(cfg: Config, w: World)
    requires Finishing(w) && CursorCovered(cfg, w) && DispatchAccounted(cfg, w)
    ensures CursorCovered(cfg, PoppedWorld(w)) && DispatchAccounted(cfg, PoppedWorld(w))
  {
    var w' := PoppedWorld(w);
    AccountedFrame(cfg, w, w');
    forall i | 0 <= i < w'.dispatched && i < |w'.topic| ensures Accounted(cfg, w', i) {
      assert Accounted(cfg, w, i);
      if !Covered(cfg, w, i) && !w.latch {
        PopKeepsQueued(cfg, w.queue, w.stage, MessageKey(cfg, w.topic[i]), i, w.topic[i].published);
      }
    }
  }

  lemma PopKeepsSettling(cfg: Config, w: World)
    requires Finishing(w) && ReleasesSettled(cfg, w) && PendingSettled(cfg, w)
    ensures ReleasesSettled(cfg, PoppedWorld(w)) && PendingSettled(cfg, PoppedWorld(w))
  {
    var w' := PoppedWorld(w);
    forall row: HeldRow | Settled(cfg, w, row) ensures Settled(cfg, w', row) { PopKeepsSettled(cfg, w, row); }
    forall row: HeldRow | SettledNow(cfg, w, row) ensures SettledNow(cfg, w', row) { PopKeepsSettledNow(cfg, w, row); }
    SettledFrame(cfg, w, w');
  }

  /** The finished release's own identities: in the record just written, or settled. */
  lemma FinishedIsSettled(cfg: Config, w: World, row: HeldRow)
    requires StageWF(w) && ReleasesWF(w.queue, w.ledger) && Finishing(w) && PendingSettled(cfg, w)
    requires Owed(w.ledger.store, w.queue[0].window, row)
    ensures SettledNow(cfg, w, row)
  {
    assert ItemSettled(cfg, w, w.queue[0]) && ReleaseItemWF(w.ledger, w.queue[0]);
    if row.key in TurnKeys(w.queue[0]) {
      var n := |w.log| - 1;
      assert row.key in KeysOf(w.log[n].record) && RecentFor(cfg, row.key, AtOf(w.log[n].record), row.heldAt);
    }
  }

  lemma FinishKeepsInv(cfg: Config, w: World, markFails: bool, receiptWritten: bool)
    requires Inv(cfg, w) && Finishing(w)
    ensures Inv(cfg, PoppedWorld(w).(ledger := MarkReleased(w.ledger, w.queue[0].window, w.now, markFails, receiptWritten)))
  {
    var win := w.queue[0].window;
    assert ReleaseItemWF(w.ledger, w.queue[0]);
    var popped := PoppedWorld(w);
    var w' := popped.(ledger := MarkReleased(w.ledger, win, w.now, markFails, receiptWritten));
    ReleaseMarks(w, win, markFails, receiptWritten);
    PopKeepsWF(cfg, w);
    PopKeepsAccounted(cfg, w);
    if w.noneRepassed { PopKeepsSettling(cfg, w); }
    if markFails {
      PopKeepsBacked(cfg, w);
      assert w' == popped;
    } else {
      FinishKeepsBacked(cfg, w, w');
      CloseKeepsWF(cfg, popped, w', win);
      MarkedKeepsRows(w.ledger, w'.ledger, win, w.now);
      SameRowsAccounted(cfg, popped, w');
      if w.noneRepassed {
        forall row: HeldRow | Owed(w.ledger.store, win, row) ensures Settled(cfg, popped, row) {
          FinishedIsSettled(cfg, w, row);
          PopKeepsSettledNow(cfg, w, row);
          NowIsSettled(cfg, popped, row);
        }
        CloseKeepsSettling(cfg, popped, w', win);
      }
    }
  }
}
