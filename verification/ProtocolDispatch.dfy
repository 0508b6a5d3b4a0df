/** The coordinator's steps keep the invariant: storing a held row and dispatching a batch. */
module ProtocolDispatch {
  import opened Common
  import opened Cadence
  import opened Holds
  import opened Protocol
  import opened ProtocolInvariant

  // --- Storing one held row ------------------------------------------------------------------

  predicate Holding(w: World, i: nat, e: Event) {
    w.up && w.dispatched <= i < w.received <= |w.topic| && Delivers(w.topic[i], e)
  }

  /** `w'` is `w` after message `i` was stored as `row` in window `win`, open until then. */
  predicate Stored(cfg: Config, w: World, w': World, i: nat, row: HeldRow) {
    && w' == w.(ledger := w'.ledger)
    && OpenWindow(w.ledger, row.windowId)
    && w'.ledger.inFlight == w.ledger.inFlight && w'.ledger.receipts == w.ledger.receipts
    && w'.ledger.store.rows == w.ledger.store.rows + [row]
    && w.ledger.store.windows.Keys <= w'.ledger.store.windows.Keys
    && (forall win :: win in w.ledger.store.windows ==> w'.ledger.store.windows[win] == w.ledger.store.windows[win])
    && (row.windowId in w'.ledger.store.windows && w'.ledger.store.windows[row.windowId].released.None?)
    && (forall win :: win in w'.ledger.store.windows && win !in w.ledger.store.windows ==> win == row.windowId)
    && row.heldAt == w.now && RowFrom(cfg, w.topic, row, i) && row.key == cfg.derive(row.title, row.message).key
    && !IdHeld(w.ledger.store, row.eventId) && w.dispatched <= i < w.received
  }

  lemma HoldStores(cfg: Config, w: World, i: nat, e: Event, active: seq<CalendarWindow>, fails: bool)
    requires Holding(w, i, e)
    ensures var led' := HoldEvent(cfg, w.ledger, e, PublishTime(e), active, w.now, fails).next;
      led' == w.ledger || exists row :: Stored(cfg, w, w.(ledger := led'), i, row)
  {
    var h := HoldEvent(cfg, w.ledger, e, PublishTime(e), active, w.now, fails);
    if h.result == WasHeld {
      var target := LatestOpen(w.ledger, active).value;
      var row := RowOf(cfg, e, target.id, PublishTime(e), w.now);
      assert Insert(w.ledger.store, target, row).status == Held;
      assert Stored(cfg, w, w.(ledger := h.next), i, row);
    }
  }

  lemma StoredIsHeld(cfg: Config, w: World, w': World, i: nat, row: HeldRow, id: string)
    requires Stored(cfg, w, w', i, row)
    ensures IdHeld(w'.ledger.store, id) <==> IdHeld(w.ledger.store, id) || id == row.eventId
  {
    var rows' := w'.ledger.store.rows;
    assert rows'[|w.ledger.store.rows|] == row;
    if IdHeld(w.ledger.store, id) {
      var j :| 0 <= j < |w.ledger.store.rows| && w.ledger.store.rows[j].eventId == id;
      assert rows'[j].eventId == id;
    }
  }

  lemma StoredKeepsRows(cfg: Config, w: World, w': World, i: nat, row: HeldRow)
    requires Stored(cfg, w, w', i, row) && RowsWF(cfg, w.topic, w.now, w.ledger.store)
    ensures RowsWF(cfg, w'.topic, w'.now, w'.ledger.store)
  {
    forall r | r in w'.ledger.store.rows ensures RowWF(cfg, w.topic, w.now, r) {
      if r == row { assert RowFrom(cfg, w.topic, r, i); }
    }
    assert forall j :: 0 <= j < |w.ledger.store.rows| ==> w.ledger.store.rows[j].eventId != row.eventId;
  }

  /** Another window's rows are what they were. */
  lemma StoredElsewhere(cfg: Config, w: World, w': World, i: nat, row: HeldRow, win: string)
    requires Stored(cfg, w, w', i, row) && win != row.windowId
    ensures HeldEvents(w'.ledger.store, win) == HeldEvents(w.ledger.store, win)
  {
    RowsOfWindowAppend(w.ledger.store.rows, row, win);
  }

  lemma StoredKeepsReleases(cfg: Config, w: World, w': World, i: nat, row: HeldRow)
    requires Stored(cfg, w, w', i, row) && ReleasesWF(w.queue, w.ledger) && ReceiptsWF(w.ledger)
    ensures ReleasesWF(w'.queue, w'.ledger) && ReceiptsWF(w'.ledger)
  {
    forall p | 0 <= p < |w.queue| ensures ReleaseItemWF(w'.ledger, w.queue[p]) {
      assert ReleaseItemWF(w.ledger, w.queue[p]);
      if w.queue[p].Release? { StoredElsewhere(cfg, w, w', i, row, w.queue[p].window); }
    }
    forall n | 0 <= n < |w.ledger.receipts|
      ensures IsReleased(w'.ledger.store, w.ledger.receipts[n].windowId)
           && w.ledger.receipts[n] == ReceiptOf(w'.ledger.store, w.ledger.receipts[n].windowId)
    {
      StoredElsewhere(cfg, w, w', i, row, w.ledger.receipts[n].windowId);
    }
  }

  /** Only a message not yet dispatched was stored: the earlier ones are as held as before. */
  lemma StoredUnheld(cfg: Config, w: World, w': World, i: nat, row: HeldRow, k: string, j: nat)
    requires Stored(cfg, w, w', i, row) && TopicWF(w.topic, w.now) && j < w.dispatched && Unheld(cfg, w, k, j)
    ensures Unheld(cfg, w', k, j)
  {
    StoredIsHeld(cfg, w, w', i, row, w.topic[j].id);
    assert w.topic[j].id != w.topic[i].id;
  }

  lemma StoredKeepsLive(cfg: Config, w: World, w': World, i: nat, row: HeldRow)
    requires Stored(cfg, w, w', i, row) && TopicWF(w.topic, w.now) && LiveWF(cfg, w)
    requires OffsetsWF(w.queue, w.cursor, w.dispatched)
    ensures LiveWF(cfg, w')
  {
    forall p, k | 0 <= p < |w'.queue| && w'.queue[p].Live? && k in TurnKeys(w'.queue[p])
      ensures exists j :: w'.queue[p].lo <= j < w'.queue[p].hi && Unheld(cfg, w', k, j)
    {
      var j :| w.queue[p].lo <= j < w.queue[p].hi && Unheld(cfg, w, k, j);
      StoredUnheld(cfg, w, w', i, row, k, j);
    }
  }

  lemma StoredKeepsBacked(cfg: Config, w: World, w': World, i: nat, row: HeldRow)
    requires Stored(cfg, w, w', i, row) && TopicWF(w.topic, w.now) && CooldownsBacked(cfg, w)
    ensures CooldownsBacked(cfg, w')
  {
    forall k | k in w'.cadence.last ensures Backed(cfg, w', k, w'.cadence.last[k]) {
      assert Backed(cfg, w, k, w.cadence.last[k]);
      if FailedLive(cfg, w, k) {
        var j :| w.cursor <= j < w.dispatched && Unheld(cfg, w, k, j);
        StoredUnheld(cfg, w, w', i, row, k, j);
      }
    }
  }

  lemma StoredKeepsOrder(cfg: Config, w: World, w': World, i: nat, row: HeldRow)
    requires Stored(cfg, w, w', i, row) && RowsWF(cfg, w.topic, w.now, w.ledger.store) && HeldInOrder(w.ledger.store.rows)
    ensures HeldInOrder(w'.ledger.store.rows)
  {
    forall n | 0 <= n < |w.ledger.store.rows| ensures w.ledger.store.rows[n].heldAt <= w.now {
      assert RowWF(cfg, w.topic, w.now, w.ledger.store.rows[n]);
    }
  }

  /** The new row comes after every row of every other window. */
  lemma StoredIsAfter(cfg: Config, w: World, w': World, i: nat, row: HeldRow, win: string, m: nat)
    requires Stored(cfg, w, w', i, row) && win != row.windowId && m < |w'.ledger.store.rows|
    ensures AfterWindow(w'.ledger.store.rows, win, m) <==>
              m == |w.ledger.store.rows| || AfterWindow(w.ledger.store.rows, win, m)
  {
    var rows, rows' := w.ledger.store.rows, w'.ledger.store.rows;
    assert rows'[|rows|] == row && forall n :: 0 <= n < |rows| ==> rows'[n] == rows[n];
  }

  lemma StoredHeldOnlyAfter(cfg: Config, w: World, w': World, i: nat, row: HeldRow, win: string, id: string)
    requires Stored(cfg, w, w', i, row) && win != row.windowId && HeldOnlyAfter(w.ledger.store.rows, win, id)
    ensures HeldOnlyAfter(w'.ledger.store.rows, win, id)
  {
    var rows' := w'.ledger.store.rows;
    forall m: nat | m < |rows'| && rows'[m].eventId == id ensures AfterWindow(rows', win, m) {
      StoredIsAfter(cfg, w, w', i, row, win, m);
    }
  }

  lemma StoredKeepsSettled(cfg: Config, w: World, w': World, i: nat, row: HeldRow, earlier: HeldRow)
    requires Stored(cfg, w, w', i, row) && Settled(cfg, w, earlier) && earlier.windowId != row.windowId
    ensures Settled(cfg, w', earlier)
  {
    if HeldLater(w.ledger.store.rows, earlier) {
      var m: nat :| AfterWindow(w.ledger.store.rows, earlier.windowId, m) && w.ledger.store.rows[m].key == earlier.key;
      StoredIsAfter(cfg, w, w', i, row, earlier.windowId, m);
      assert w'.ledger.store.rows[m] == w.ledger.store.rows[m];
    } else if Replayable(cfg, w, earlier) {
      var j: nat :| ReplaysAt(cfg, w, earlier, j);
      StoredHeldOnlyAfter(cfg, w, w', i, row, earlier.windowId, w.topic[j].id);
      assert ReplaysAt(cfg, w', earlier, j);
    }
  }

  lemma StoredKeepsSettledNow(cfg: Config, w: World, w': World, i: nat, row: HeldRow, earlier: HeldRow)
    requires Stored(cfg, w, w', i, row) && TopicWF(w.topic, w.now) && SettledNow(cfg, w, earlier)
    ensures SettledNow(cfg, w', earlier)
  {
    if !Recorded(cfg, w.log, earlier.key, earlier.heldAt) {
      var j: nat :| OutstandingAt(cfg, w, earlier, j);
      StoredIsHeld(cfg, w, w', i, row, w.topic[j].id);
      assert w.topic[j].id != w.topic[i].id;
      assert OutstandingAt(cfg, w', earlier, j);
    }
  }

  /** A closed window owes what it owed. */
  lemma StoredOwes(cfg: Config, w: World, w': World, i: nat, row: HeldRow, win: string, o: HeldRow)
    requires Stored(cfg, w, w', i, row) && win != row.windowId
    ensures Owed(w'.ledger.store, win, o) <==> Owed(w.ledger.store, win, o)
  {
    StoredElsewhere(cfg, w, w', i, row, win);
  }

  lemma StoredKeepsSettling(cfg: Config, w: World, w': World, i: nat, row: HeldRow)
    requires Stored(cfg, w, w', i, row) && TopicWF(w.topic, w.now) && ReleasesWF(w.queue, w.ledger)
    requires ReleasesSettled(cfg, w) && PendingSettled(cfg, w)
    ensures ReleasesSettled(cfg, w') && PendingSettled(cfg, w')
  {
    forall o: HeldRow | IsReleased(w'.ledger.store, o.windowId) && Owed(w'.ledger.store, o.windowId, o)
      ensures Settled(cfg, w', o)
    {
      StoredOwes(cfg, w, w', i, row, o.windowId, o);
      StoredKeepsSettled(cfg, w, w', i, row, o);
    }
    forall p | 0 <= p < |w'.queue| && w'.queue[p].Release? ensures ItemSettled(cfg, w', w'.queue[p]) {
      var it := w.queue[p];
      assert ItemSettled(cfg, w, it) && ReleaseItemWF(w.ledger, it);
      forall o: HeldRow | Owed(w'.ledger.store, it.window, o) && o.key !in TurnKeys(it) ensures SettledNow(cfg, w', o) {
        StoredOwes(cfg, w, w', i, row, it.window, o);
        StoredKeepsSettledNow(cfg, w, w', i, row, o);
      }
    }
  }

  /** A forwarded row is one of the window's rows. */
  lemma ForwardedIsRow(st: Store, win: string, row: HeldRow)
    requires row in Groups(HeldEvents(st, win)).forwarded
    ensures row in st.rows && row.windowId == win
  {
    var rows := HeldEvents(st, win);
    ForwardedIffLatestUnresolved(rows, |rows|, row);
    HeldEventsMembers(st, win, row);
  }

  lemma OwedIsOld(cfg: Config, w: World, win: string, row: HeldRow)
    requires RowsWF(cfg, w.topic, w.now, w.ledger.store) && Owed(w.ledger.store, win, row)
    ensures row.heldAt <= w.now
  {
    assert RowWF(cfg, w.topic, w.now, row);
  }

  lemma HoldKeepsInv(cfg: Config, w: World, i: nat, e: Event, active: seq<CalendarWindow>, fails: bool)
    requires Inv(cfg, w) && Holding(w, i, e)
    ensures Inv(cfg, w.(ledger := HoldEvent(cfg, w.ledger, e, PublishTime(e), active, w.now, fails).next))
  {
    var w' := w.(ledger := HoldEvent(cfg, w.ledger, e, PublishTime(e), active, w.now, fails).next);
    HoldStores(cfg, w, i, e, active, fails);
    if w'.ledger == w.ledger {
      assert w' == w;
    } else {
      var row :| Stored(cfg, w, w', i, row);
      StoredKeepsInv(cfg, w, w', i, row);
    }
  }

  lemma StoredKeepsInv(cfg: Config, w: World, w': World, i: nat, row: HeldRow)
    requires Inv(cfg, w) && w.up && Stored(cfg, w, w', i, row)
    ensures Inv(cfg, w')
  {
    StoredKeepsRows(cfg, w, w', i, row);
    StoredKeepsOrder(cfg, w, w', i, row);
    StoredKeepsReleases(cfg, w, w', i, row);
    StoredKeepsLive(cfg, w, w', i, row);
    StoredKeepsBacked(cfg, w, w', i, row);
    forall j: nat | j < |w.topic| && Covered(cfg, w, j) ensures Covered(cfg, w', j) {
      StoredIsHeld(cfg, w, w', i, row, w.topic[j].id);
    }
    forall j | 0 <= j < w'.dispatched && j < |w'.topic| ensures Accounted(cfg, w', j) {
      assert Accounted(cfg, w, j);
    }
    if w.noneRepassed { StoredKeepsSettling(cfg, w, w', i, row); }
  }

  // --- Dispatching a batch ---------------------------------------------------------------------

  lemma {:induction false} SurvivorsMembers(batch: seq<Event>, keep: seq<bool>)
    requires |keep| == |batch|
    ensures forall j :: 0 <= j < |batch| && keep[j] ==> batch[j] in Survivors(batch, keep)
    ensures forall e :: e in Survivors(batch, keep) ==> exists j :: 0 <= j < |batch| && keep[j] && batch[j] == e
  {
    if batch != [] {
      var n := |batch| - 1;
      SurvivorsMembers(batch[..n], keep[..n]);
      forall e | e in Survivors(batch, keep) ensures exists j :: 0 <= j < |batch| && keep[j] && batch[j] == e {
        if e in Survivors(batch[..n], keep[..n]) {
          var j :| 0 <= j < n && keep[..n][j] && batch[..n][j] == e;
          assert keep[j] && batch[j] == e;
        } else {
          assert keep[n] && batch[n] == e;
        }
      }
    }
  }

  /** A decision in full: what is triaged, what is armed. */
  lemma EvaluateEffect(cfg: Config, c: Cadence, batch: seq<Event>, now: real, release: Option<HeldRelease>)
    ensures var ev := Evaluate(cfg, c, batch, now, release);
      var items := Screen(cfg, c, batch, now).items;
      && (ev.decision.turn.None? <==> items == [])
      && (ev.decision.turn.None? ==> ev.next == c)
      && (ev.decision.turn.Some? ==>
            (ev.decision.turn.value.items == items && ev.decision.turn.value.heldRelease == release
             && ev.next.last == Arm(c.last, ItemKeys(items), now)))
  {
  }

  lemma NoItemsNoKeys(items: seq<TurnItem>)
    ensures items == [] <==> ItemKeys(items) == {}
  {
    if items != [] { assert items[0].identity.key in ItemKeys(items); }
  }

  ghost predicate Dispatching(cfg: Config, w: World, w': World, batch: seq<Event>, keep: seq<bool>,
                              written: bool, idsRead: bool) {
    DispatchEnabled(w, batch, keep, idsRead) && w' == Dispatched(cfg, w, batch, keep, written)
  }

  /** Message `lo + j` of the batch goes on to the pipeline under its own key. */
  lemma KeptKey(cfg: Config, w: World, batch: seq<Event>, keep: seq<bool>, idsRead: bool, j: nat)
    requires DispatchEnabled(w, batch, keep, idsRead) && j < |batch| && keep[j]
    ensures MessageKey(cfg, w.topic[w.dispatched + j]) in BatchKeys(cfg, Survivors(batch, keep))
  {
    SurvivorsMembers(batch, keep);
    var s := Survivors(batch, keep);
    var n :| 0 <= n < |s| && s[n] == batch[j];
    assert KeyOf(cfg, s[n]) == MessageKey(cfg, w.topic[w.dispatched + j]);
  }

  /** A triaged identity comes from a message of the batch that went on to the pipeline. */
  lemma TriagedFromBatch(cfg: Config, w: World, w': World, batch: seq<Event>, keep: seq<bool>, written: bool,
                         idsRead: bool, k: string)
    returns (j: nat)
    requires Dispatching(cfg, w, w', batch, keep, written, idsRead)
    requires k in ItemKeys(Screen(cfg, w.cadence, Survivors(batch, keep), w.now).items)
    ensures w.dispatched <= j < w'.dispatched && Unheld(cfg, w', k, j)
  {
    var s := Survivors(batch, keep);
    ScreenPartitions(cfg, w.cadence, s, w.now);
    var n :| 0 <= n < |s| && KeyOf(cfg, s[n]) == k;
    SurvivorsMembers(batch, keep);
    assert s[n] in s;
    var m :| 0 <= m < |batch| && keep[m] && batch[m] == s[n];
    j := w.dispatched + m;
  }

  /** Each message that goes on is secured: recorded, kept behind the latch, or in a queued
  turn that records it before the cursor passes it. */
  lemma DispatchSecures(cfg: Config, w: World, w': World, batch: seq<Event>, keep: seq<bool>, written: bool,
                        idsRead: bool, j: nat, t: real)
    requires CooldownsBacked(cfg, w) && OffsetsWF(w.queue, w.cursor, w.dispatched) && StageWF(w)
    requires Dispatching(cfg, w, w', batch, keep, written, idsRead)
    requires j < |batch| && keep[j] && t <= w.now
    ensures var k := MessageKey(cfg, w.topic[w.dispatched + j]);
      Recorded(cfg, w'.log, k, t) || w'.latch || Queued(cfg, w'.queue, w'.stage, k, w.dispatched + j, t)
  {
    var s := Survivors(batch, keep);
    var k, i := MessageKey(cfg, w.topic[w.dispatched + j]), w.dispatched + j;
    KeptKey(cfg, w, batch, keep, idsRead, j);
    ScreenPartitions(cfg, w.cadence, s, w.now);
    EvaluateEffect(cfg, w.cadence, s, w.now, None);
    if InCooldown(cfg, w.cadence.last, k, w.now) {
      CooldownSecures(cfg, w, k, i, t);
      if Queued(cfg, w.queue, w.stage, k, i, t) {
        AppendKeepsQueued(cfg, w.queue, w'.queue[|w.queue|..], w.stage, k, i, t);
        assert w'.queue == w.queue + w'.queue[|w.queue|..];
      }
    } else {
      NoItemsNoKeys(Screen(cfg, w.cadence, s, w.now).items);
      AppendedRecords(cfg, w.queue, w'.queue[|w.queue|], w.stage, k, i, t, w.cursor, w.dispatched);
    }
  }

  /** A live cooldown secures any message not dispatched before it. */
  lemma CooldownSecures(cfg: Config, w: World, k: string, i: nat, t: real)
    requires CooldownsBacked(cfg, w) && OffsetsWF(w.queue, w.cursor, w.dispatched)
    requires InCooldown(cfg, w.cadence.last, k, w.now) && w.dispatched <= i && t <= w.now
    ensures Recorded(cfg, w.log, k, t) || w.latch || Queued(cfg, w.queue, w.stage, k, i, t)
  {
    var armed := w.cadence.last[k];
    assert Backed(cfg, w, k, armed);
    if InLog(w.log, k, armed) {
      InLogIsRecorded(cfg, w.log, k, armed, w.now, t);
    } else if InQueue(w.queue, w.stage, k, armed) {
      InQueueIsQueued(cfg, w.queue, w.stage, k, i, armed, w.now, t, w.cursor, w.dispatched);
    }
  }

  /** `it` is the batch's turn or its marker, with the batch's own offsets. */
  predicate BatchItem(w: World, w': World, it: Item) {
    && HasOffset(it) && it.lo == w.dispatched && it.hi == w'.dispatched
    && (it.Live? ==> "" !in TurnKeys(it) && it.decidedAt == w.now)
  }

  /** A dispatch puts at most one item on the queue. */
  lemma DispatchAppends(cfg: Config, w: World, w': World, batch: seq<Event>, keep: seq<bool>,
                        written: bool, idsRead: bool)
    requires ConfigWF(cfg) && Dispatching(cfg, w, w', batch, keep, written, idsRead)
    ensures w'.queue == w.queue || exists it :: w'.queue == w.queue + [it] && BatchItem(w, w', it)
  {
    EvaluatedKeys(cfg, w.cadence, Survivors(batch, keep), w.now, None);
    if w'.queue != w.queue {
      var it := w'.queue[|w.queue|];
      assert w'.queue == w.queue + [it] && BatchItem(w, w', it);
    }
  }

  lemma AppendKeepsReleases(queue: seq<Item>, it: Item, led: Ledger)
    requires ReleasesWF(queue, led) && !it.Release?
    ensures ReleasesWF(queue + [it], led)
  {
    forall p | 0 <= p < |queue + [it]| ensures ReleaseItemWF(led, (queue + [it])[p]) {
      if p < |queue| { assert ReleaseItemWF(led, queue[p]); }
    }
  }

  lemma DispatchKeepsQueueWF(cfg: Config, w: World, w': World, batch: seq<Event>, keep: seq<bool>,
                             written: bool, idsRead: bool)
    requires BoundsWF(w) && OffsetsWF(w.queue, w.cursor, w.dispatched) && TurnsWF(w.queue, w.now)
    requires ReleasesWF(w.queue, w.ledger)
    requires ConfigWF(cfg) && Dispatching(cfg, w, w', batch, keep, written, idsRead)
    ensures OffsetsWF(w'.queue, w'.cursor, w'.dispatched) && TurnsWF(w'.queue, w'.now)
    ensures ReleasesWF(w'.queue, w'.ledger)
  {
    DispatchAppends(cfg, w, w', batch, keep, written, idsRead);
    if w'.queue != w.queue {
      var it :| w'.queue == w.queue + [it] && BatchItem(w, w', it);
      AppendKeepsOffsets(w.queue, it, w.cursor, w.dispatched, w'.dispatched);
      AppendKeepsTurns(w.queue, it, w.now);
      AppendKeepsReleases(w.queue, it, w.ledger);
    }
  }

  lemma DispatchKeepsLive(cfg: Config, w: World, w': World, batch: seq<Event>, keep: seq<bool>, written: bool, idsRead: bool)
    requires LiveWF(cfg, w) && Dispatching(cfg, w, w', batch, keep, written, idsRead)
    ensures LiveWF(cfg, w')
  {
    EvaluateEffect(cfg, w.cadence, Survivors(batch, keep), w.now, None);
    forall p, k | 0 <= p < |w'.queue| && w'.queue[p].Live? && k in TurnKeys(w'.queue[p])
      ensures exists j :: w'.queue[p].lo <= j < w'.queue[p].hi && Unheld(cfg, w', k, j)
    {
      if p < |w.queue| {
        assert w'.queue[p] == w.queue[p];
        var j :| w.queue[p].lo <= j < w.queue[p].hi && Unheld(cfg, w, k, j);
        assert Unheld(cfg, w', k, j);
      } else {
        var j := TriagedFromBatch(cfg, w, w', batch, keep, written, idsRead, k);
      }
    }
  }

  lemma DispatchKeepsBacked(cfg: Config, w: World, w': World, batch: seq<Event>, keep: seq<bool>,
                            written: bool, idsRead: bool)
    requires StageWF(w) && CooldownsBacked(cfg, w) && Dispatching(cfg, w, w', batch, keep, written, idsRead)
    ensures CooldownsBacked(cfg, w')
  {
    var s := Survivors(batch, keep);
    EvaluateEffect(cfg, w.cadence, s, w.now, None);
    var items := Screen(cfg, w.cadence, s, w.now).items;
    var more := w'.queue[|w.queue|..];
    assert w'.queue == w.queue + more;
    forall k | k in w'.cadence.last ensures Backed(cfg, w', k, w'.cadence.last[k]) {
      if items != [] && k in ItemKeys(items) {
        assert WillRecord(w'.queue, w'.stage, |w.queue|, k);
      } else {
        BackedSurvivesAppend(cfg, w, w', more, k, w.cadence.last[k]);
      }
    }
  }

  /** Appending to the queue and moving the dispatch point on keeps what was backed. */
  lemma BackedSurvivesAppend(cfg: Config, w: World, w': World, more: seq<Item>, k: string, t: real)
    requires Backed(cfg, w, k, t) && w'.queue == w.queue + more && w'.stage == w.stage
    requires w'.topic == w.topic && w'.log == w.log && w'.latch == w.latch && w'.cursor == w.cursor
    requires w.dispatched <= w'.dispatched && (w'.noneRepassed ==> w.noneRepassed)
    requires w'.ledger.store == w.ledger.store
    requires forall win :: win in w.ledger.inFlight ==>
               win in w'.ledger.inFlight && w'.ledger.inFlight[win] == w.ledger.inFlight[win]
    requires forall win :: win in w.ledger.inFlight ==> NoReleaseOf(more, win)
    ensures Backed(cfg, w', k, t)
  {
    if InQueue(w.queue, w.stage, k, t) {
      AppendKeepsInQueue(w.queue, more, w.stage, k, t);
    } else if FailedLive(cfg, w, k) {
      var i :| w.cursor <= i < w.dispatched && Unheld(cfg, w, k, i);
      assert Unheld(cfg, w', k, i);
    } else if FailedRelease(w, k) {
      var win :| win in w.ledger.inFlight && k in w.ledger.inFlight[win] && NoReleaseOf(w.queue, win);
      assert NoReleaseOf(w'.queue, win);
    }
  }

  /** What a dispatch leaves alone, and what it only extends. */
  ghost predicate Extends(w: World, w': World, more: seq<Item>) {
    && w'.topic == w.topic && w'.log == w.log && w'.ledger.store == w.ledger.store && w'.cursor == w.cursor
    && w'.latch == w.latch && w'.stage == w.stage && w'.now == w.now
    && w.dispatched <= w'.dispatched && w'.queue == w.queue + more
  }

  lemma DispatchExtends(cfg: Config, w: World, w': World, batch: seq<Event>, keep: seq<bool>, written: bool, idsRead: bool)
    requires Dispatching(cfg, w, w', batch, keep, written, idsRead)
    ensures Extends(w, w', w'.queue[|w.queue|..])
  {
  }

  lemma DispatchKeepsAccounted(cfg: Config, w: World, w': World, batch: seq<Event>, keep: seq<bool>,
                               written: bool, idsRead: bool)
    requires CooldownsBacked(cfg, w) && OffsetsWF(w.queue, w.cursor, w.dispatched) && StageWF(w) && TopicWF(w.topic, w.now)
    requires DispatchAccounted(cfg, w) && Dispatching(cfg, w, w', batch, keep, written, idsRead)
    ensures DispatchAccounted(cfg, w')
  {
    DispatchExtends(cfg, w, w', batch, keep, written, idsRead);
    forall i | 0 <= i < w'.dispatched && i < |w'.topic| ensures Accounted(cfg, w', i) {
      if i >= w.dispatched {
        BatchAccounted(cfg, w, w', batch, keep, written, idsRead, i - w.dispatched);
      } else {
        AccountedExtends(cfg, w, w', w'.queue[|w.queue|..], i);
      }
    }
  }

  lemma AccountedExtends(cfg: Config, w: World, w': World, more: seq<Item>, i: nat)
    requires Extends(w, w', more) && i < |w.topic| && Accounted(cfg, w, i)
    ensures Accounted(cfg, w', i)
  {
    if !Covered(cfg, w, i) && !w.latch {
      AppendKeepsQueued(cfg, w.queue, more, w.stage, MessageKey(cfg, w.topic[i]), i, w.topic[i].published);
    }
  }

  lemma CoveredExtends(cfg: Config, w: World, w': World, more: seq<Item>)
    requires Extends(w, w', more)
    ensures forall i: nat :: i < |w.topic| && Covered(cfg, w, i) ==> Covered(cfg, w', i)
  {
  }

  lemma BatchAccounted(cfg: Config, w: World, w': World, batch: seq<Event>, keep: seq<bool>, written: bool,
                       idsRead: bool, j: nat)
    requires CooldownsBacked(cfg, w) && OffsetsWF(w.queue, w.cursor, w.dispatched) && StageWF(w) && TopicWF(w.topic, w.now)
    requires Dispatching(cfg, w, w', batch, keep, written, idsRead) && j < |batch|
    ensures w.dispatched + j < |w'.topic| && Accounted(cfg, w', w.dispatched + j)
  {
    DispatchExtends(cfg, w, w', batch, keep, written, idsRead);
    if keep[j] {
      DispatchSecures(cfg, w, w', batch, keep, written, idsRead, j, w.topic[w.dispatched + j].published);
    } else {
      DroppedIsHeld(w, batch, keep, idsRead, j);
    }
  }

  lemma DispatchKeepsSettled(cfg: Config, w: World, w': World, batch: seq<Event>, keep: seq<bool>,
                             written: bool, idsRead: bool, row: HeldRow)
    requires CooldownsBacked(cfg, w) && OffsetsWF(w.queue, w.cursor, w.dispatched) && StageWF(w) && TopicWF(w.topic, w.now)
    requires RowsWF(cfg, w.topic, w.now, w.ledger.store) && Dispatching(cfg, w, w', batch, keep, written, idsRead)
    requires Settled(cfg, w, row) && row.heldAt <= w.now
    ensures Settled(cfg, w', row)
  {
    DispatchExtends(cfg, w, w', batch, keep, written, idsRead);
    if !Recorded(cfg, w.log, row.key, row.heldAt) && !HeldLater(w.ledger.store.rows, row) {
      var i: nat :| ReplaysAt(cfg, w, row, i);
      if w.dispatched <= i < w'.dispatched {
        BatchSettles(cfg, w, w', batch, keep, written, idsRead, row, i);
      } else {
        OldReplayExtends(cfg, w, w', w'.queue[|w.queue|..], row, i);
      }
    }
  }

  lemma OldReplayExtends(cfg: Config, w: World, w': World, more: seq<Item>, row: HeldRow, i: nat)
    requires Extends(w, w', more) && ReplaysAt(cfg, w, row, i) && !(w.dispatched <= i < w'.dispatched)
    ensures Settled(cfg, w', row)
  {
    if i < w.dispatched && !w.latch { AppendKeepsQueued(cfg, w.queue, more, w.stage, row.key, i, row.heldAt); }
    ReplaysExtends(cfg, w, w', more, row, i);
  }

  lemma SettledNowExtends(cfg: Config, w: World, w': World, more: seq<Item>, row: HeldRow)
    requires Extends(w, w', more) && SettledNow(cfg, w, row)
    ensures SettledNow(cfg, w', row)
  {
    if !Recorded(cfg, w.log, row.key, row.heldAt) {
      var i: nat :| OutstandingAt(cfg, w, row, i);
      if !w.latch { AppendKeepsQueued(cfg, w.queue, more, w.stage, row.key, i, row.heldAt); }
      assert OutstandingAt(cfg, w', row, i);
    }
  }

  lemma KeptSettles(cfg: Config, w: World, w': World, batch: seq<Event>, keep: seq<bool>, written: bool,
                    idsRead: bool, row: HeldRow, i: nat)
    requires CooldownsBacked(cfg, w) && OffsetsWF(w.queue, w.cursor, w.dispatched) && StageWF(w)
    requires Dispatching(cfg, w, w', batch, keep, written, idsRead)
    requires w.dispatched <= i < w'.dispatched && keep[i - w.dispatched]
    requires ReplaysAt(cfg, w, row, i) && row.heldAt <= w.now
    ensures Settled(cfg, w', row)
  {
    DispatchExtends(cfg, w, w', batch, keep, written, idsRead);
    DispatchSecures(cfg, w, w', batch, keep, written, idsRead, i - w.dispatched, row.heldAt);
    if !Recorded(cfg, w'.log, row.key, row.heldAt) {
      ReplaysExtends(cfg, w, w', w'.queue[|w.queue|..], row, i);
    }
  }

  /** The replayed message itself is in this batch: secured, or dropped as held again. */
  lemma BatchSettles(cfg: Config, w: World, w': World, batch: seq<Event>, keep: seq<bool>, written: bool,
                     idsRead: bool, row: HeldRow, i: nat)
    requires CooldownsBacked(cfg, w) && OffsetsWF(w.queue, w.cursor, w.dispatched) && StageWF(w) && TopicWF(w.topic, w.now)
    requires RowsWF(cfg, w.topic, w.now, w.ledger.store) && Dispatching(cfg, w, w', batch, keep, written, idsRead)
    requires w.dispatched <= i < w'.dispatched && ReplaysAt(cfg, w, row, i) && row.heldAt <= w.now
    ensures Settled(cfg, w', row)
  {
    if keep[i - w.dispatched] {
      KeptSettles(cfg, w, w', batch, keep, written, idsRead, row, i);
    } else {
      DroppedIsHeld(w, batch, keep, idsRead, i - w.dispatched);
      DispatchExtends(cfg, w, w', batch, keep, written, idsRead);
      DroppedIsHeldLater(cfg, w, row, i);
    }
  }

  lemma DroppedIsHeld(w: World, batch: seq<Event>, keep: seq<bool>, idsRead: bool, j: nat)
    requires DispatchEnabled(w, batch, keep, idsRead) && j < |batch| && !keep[j]
    ensures IdHeld(w.ledger.store, w.topic[w.dispatched + j].id)
  {
    assert Delivers(w.topic[w.dispatched + j], batch[j]) && IdHeld(w.ledger.store, batch[j].id);
  }

  lemma ReplaysExtends(cfg: Config, w: World, w': World, more: seq<Item>, row: HeldRow, i: nat)
    requires Extends(w, w', more) && ReplaysAt(cfg, w, row, i)
    requires i < w'.dispatched ==> w'.latch || Queued(cfg, w'.queue, w'.stage, row.key, i, row.heldAt)
    ensures Settled(cfg, w', row)
  {
    assert ReplaysAt(cfg, w', row, i);
  }

  /** A replayed message dropped as a duplicate was held again, after its window closed. */
  lemma DroppedIsHeldLater(cfg: Config, w: World, row: HeldRow, i: nat)
    requires RowsWF(cfg, w.topic, w.now, w.ledger.store) && TopicWF(w.topic, w.now)
    requires ReplaysAt(cfg, w, row, i) && IdHeld(w.ledger.store, w.topic[i].id)
    ensures HeldLater(w.ledger.store.rows, row)
  {
    var n: nat :| n < |w.ledger.store.rows| && w.ledger.store.rows[n].eventId == w.topic[i].id;
    HeldRowKey(cfg, w, n, i);
    assert AfterWindow(w.ledger.store.rows, row.windowId, n);
  }

  /** A row held for message `i` carries its key. */
  lemma HeldRowKey(cfg: Config, w: World, n: nat, i: nat)
    requires RowsWF(cfg, w.topic, w.now, w.ledger.store) && TopicWF(w.topic, w.now)
    requires n < |w.ledger.store.rows| && i < |w.topic| && w.ledger.store.rows[n].eventId == w.topic[i].id
    ensures w.ledger.store.rows[n].key == MessageKey(cfg, w.topic[i])
  {
    var r := w.ledger.store.rows[n];
    assert RowWF(cfg, w.topic, w.now, r);
    var m: nat :| RowFrom(cfg, w.topic, r, m);
    assert m == i;
  }

  lemma DispatchKeepsSettling(cfg: Config, w: World, w': World, batch: seq<Event>, keep: seq<bool>,
                              written: bool, idsRead: bool)
    requires WF(cfg, w) && CooldownsBacked(cfg, w) && Dispatching(cfg, w, w', batch, keep, written, idsRead)
    requires ReleasesSettled(cfg, w) && PendingSettled(cfg, w)
    ensures ReleasesSettled(cfg, w') && PendingSettled(cfg, w')
  {
    DispatchExtends(cfg, w, w', batch, keep, written, idsRead);
    forall row: HeldRow | IsReleased(w'.ledger.store, row.windowId) && Owed(w'.ledger.store, row.windowId, row)
      ensures Settled(cfg, w', row)
    {
      OwedIsOld(cfg, w, row.windowId, row);
      DispatchKeepsSettled(cfg, w, w', batch, keep, written, idsRead, row);
    }
    forall p | 0 <= p < |w'.queue| && w'.queue[p].Release? ensures ItemSettled(cfg, w', w'.queue[p]) {
      DispatchAddsNoRelease(cfg, w, w', batch, keep, written, idsRead, p);
      PendingExtends(cfg, w, w', w'.queue[|w.queue|..], p);
    }
  }

  lemma DispatchAddsNoRelease(cfg: Config, w: World, w': World, batch: seq<Event>, keep: seq<bool>,
                              written: bool, idsRead: bool, p: nat)
    requires Dispatching(cfg, w, w', batch, keep, written, idsRead) && p < |w'.queue| && w'.queue[p].Release?
    ensures p < |w.queue|
  {
  }

  lemma PendingExtends(cfg: Config, w: World, w': World, more: seq<Item>, p: nat)
    requires Extends(w, w', more) && PendingSettled(cfg, w) && p < |w.queue| && w.queue[p].Release?
    ensures w'.queue[p] == w.queue[p] && ItemSettled(cfg, w', w.queue[p])
  {
    assert ItemSettled(cfg, w, w.queue[p]);
    forall row: HeldRow | Owed(w'.ledger.store, w.queue[p].window, row) && row.key !in TurnKeys(w.queue[p])
      ensures SettledNow(cfg, w', row)
    {
      SettledNowExtends(cfg, w, w', more, row);
    }
  }

  lemma DispatchKeepsInv(cfg: Config, w: World, batch: seq<Event>, keep: seq<bool>, written: bool, idsRead: bool)
    requires Inv(cfg, w) && ConfigWF(cfg) && DispatchEnabled(w, batch, keep, idsRead)
    ensures Inv(cfg, Dispatched(cfg, w, batch, keep, written))
  {
    var w' := Dispatched(cfg, w, batch, keep, written);
    DispatchKeepsQueueWF(cfg, w, w', batch, keep, written, idsRead);
    DispatchKeepsLive(cfg, w, w', batch, keep, written, idsRead);
    DispatchKeepsBacked(cfg, w, w', batch, keep, written, idsRead);
    DispatchKeepsAccounted(cfg, w, w', batch, keep, written, idsRead);
    DispatchExtends(cfg, w, w', batch, keep, written, idsRead);
    CoveredExtends(cfg, w, w', w'.queue[|w.queue|..]);
    if w'.noneRepassed { DispatchKeepsSettling(cfg, w, w', batch, keep, written, idsRead); }
  }
}
