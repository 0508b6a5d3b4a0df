/** The inductive invariant of the event protocol, and its first half: well-formedness.

`Inv` says what backs every cooldown held in memory (a durable record, a queued turn the
cursor has not passed, the latch, or an in-flight window), and what stands behind every
message already dispatched.
*/
module ProtocolInvariant {
  import opened Common
  import opened Cadence
  import opened Holds
  import opened Protocol

  // --- Well-formedness ---------------------------------------------------------------

  ghost predicate TopicWF(topic: seq<Message>, now: real) {
    && (forall i :: 0 <= i < |topic| ==> topic[i].id != "" && topic[i].published <= now)
    && (forall i, j :: 0 <= i < j < |topic| ==> topic[i].id != topic[j].id)
  }

  ghost predicate BoundsWF(w: World) {
    w.cursor <= w.dispatched <= w.received <= |w.topic|
  }

  ghost predicate LogWF(log: seq<Triage>, now: real) {
    forall n :: 0 <= n < |log| ==>
      && log[n].record.recordType == "session" && log[n].record.trigger == "event"
      && log[n].record.at.Some? && log[n].decidedAt <= log[n].record.at.value <= now
  }

  /** Row `r` was stored for message `i`. */
  predicate RowFrom(cfg: Config, topic: seq<Message>, r: HeldRow, i: nat) {
    i < |topic| && topic[i].id == r.eventId && r.key == MessageKey(cfg, topic[i])
  }

  ghost predicate RowWF(cfg: Config, topic: seq<Message>, now: real, r: HeldRow) {
    && r.heldAt <= now && r.key == cfg.derive(r.title, r.message).key
    && exists i: nat :: RowFrom(cfg, topic, r, i)
  }

  ghost predicate RowsWF(cfg: Config, topic: seq<Message>, now: real, st: Store) {
    StoreWF(st) && forall r :: r in st.rows ==> RowWF(cfg, topic, now, r)
  }

  /** Rows were held one after another. */
  ghost predicate HeldInOrder(rows: seq<HeldRow>) {
    forall m, n :: 0 <= m <= n < |rows| ==> rows[m].heldAt <= rows[n].heldAt
  }

  /** Offsets ride the queue in topic order, between the cursor and the dispatch point. */
  ghost predicate OffsetsWF(queue: seq<Item>, cursor: nat, dispatched: nat) {
    && (forall p :: 0 <= p < |queue| && HasOffset(queue[p]) ==> cursor <= queue[p].lo <= queue[p].hi <= dispatched)
    && (forall p, q :: 0 <= q < p < |queue| && HasOffset(queue[q]) && HasOffset(queue[p]) ==> queue[q].hi <= queue[p].lo)
  }

  ghost predicate TurnsWF(queue: seq<Item>, now: real) {
    forall p :: 0 <= p < |queue| && !queue[p].Marker? ==> "" !in TurnKeys(queue[p]) && queue[p].decidedAt <= now
  }

  /** A written head turn is the newest record of the log. */
  ghost predicate StageWF(w: World) {
    w.stage == Written ==>
      && w.queue != [] && !w.queue[0].Marker? && w.log != []
      && KeysOf(w.log[|w.log| - 1].record) == TurnKeys(w.queue[0])
      && w.queue[0].decidedAt <= AtOf(w.log[|w.log| - 1].record)
  }

  /** Message `i` carries `k`, and (unless a held event was passed on again) is not held. */
  predicate Unheld(cfg: Config, w: World, k: string, i: nat) {
    && i < |w.topic| && MessageKey(cfg, w.topic[i]) == k
    && (w.noneRepassed ==> !IdHeld(w.ledger.store, w.topic[i].id))
  }

  /** Every identity of a queued live turn comes from an unheld message of its batch. */
  ghost predicate LiveWF(cfg: Config, w: World) {
    forall p, k :: 0 <= p < |w.queue| && w.queue[p].Live? && k in TurnKeys(w.queue[p]) ==>
      exists i :: w.queue[p].lo <= i < w.queue[p].hi && Unheld(cfg, w, k, i)
  }

  /** A queued release turn: its window is in flight with exactly the turn's identities, its
  rows were all held before the decision, and the turn carries their counts. */
  ghost predicate ReleaseItemWF(led: Ledger, it: Item) {
    it.Release? ==>
      && it.window in led.inFlight && led.inFlight[it.window] == TurnKeys(it)
      && (forall r :: r in led.store.rows && r.windowId == it.window ==> r.heldAt <= it.decidedAt)
      && it.turn.heldRelease.Some?
      && it.turn.heldRelease.value.held == Groups(HeldEvents(led.store, it.window)).held
      && it.turn.heldRelease.value.recovered == Groups(HeldEvents(led.store, it.window)).recovered
  }

  ghost predicate ReleasesWF(queue: seq<Item>, led: Ledger) {
    && (forall p :: 0 <= p < |queue| ==> ReleaseItemWF(led, queue[p]))
    && (forall p, q :: 0 <= q < p < |queue| && queue[q].Release? && queue[p].Release? ==>
          queue[q].window != queue[p].window)
    && (forall win :: win in led.inFlight ==> Unreleased(led.store, win))
  }

  ghost predicate DownWF(w: World) {
    !w.up ==> w.queue == [] && w.cadence.last == map[] && w.dispatched == w.received == w.cursor
              && w.ledger.inFlight == map[] && !w.latch && w.stage == Ready
  }

  // --- What stands behind memory -------------------------------------------------------

  /** The turn at `p` names `k` and its record is still to be written. */
  predicate WillRecord(queue: seq<Item>, stage: Stage, p: nat, k: string) {
    p < |queue| && !queue[p].Marker? && k in TurnKeys(queue[p]) && (p == 0 ==> stage == Ready)
  }

  /** No item ahead of `p` would move the cursor past message `i`. */
  predicate Behind(queue: seq<Item>, p: nat, i: nat) {
    p <= |queue| && forall q :: 0 <= q < p && HasOffset(queue[q]) ==> queue[q].hi <= i
  }

  /** A queued turn will record `k`, recently enough for `t`, before the cursor passes `i`. */
  ghost predicate Queued(cfg: Config, queue: seq<Item>, stage: Stage, k: string, i: nat, t: real) {
    exists p: nat :: WillRecord(queue, stage, p, k) && RecentFor(cfg, k, queue[p].decidedAt, t) && Behind(queue, p, i)
  }

  ghost predicate InLog(log: seq<Triage>, k: string, t: real) {
    exists n :: 0 <= n < |log| && k in KeysOf(log[n].record) && t <= AtOf(log[n].record)
  }

  ghost predicate InQueue(queue: seq<Item>, stage: Stage, k: string, t: real) {
    exists p: nat :: WillRecord(queue, stage, p, k) && t <= queue[p].decidedAt
  }

  /** A live turn of `k` failed to record: its message is still after the frozen cursor. */
  ghost predicate FailedLive(cfg: Config, w: World, k: string) {
    w.latch && exists i :: w.cursor <= i < w.dispatched && Unheld(cfg, w, k, i)
  }

  /** A release turn of `k` failed to record: its window stays in flight, with no turn left. */
  ghost predicate FailedRelease(w: World, k: string) {
    w.latch && exists win :: win in w.ledger.inFlight && k in w.ledger.inFlight[win] && NoReleaseOf(w.queue, win)
  }

  predicate NoReleaseOf(queue: seq<Item>, win: string) {
    forall p :: 0 <= p < |queue| && queue[p].Release? ==> queue[p].window != win
  }

  ghost predicate Backed(cfg: Config, w: World, k: string, t: real) {
    InLog(w.log, k, t) || InQueue(w.queue, w.stage, k, t) || FailedLive(cfg, w, k) || FailedRelease(w, k)
  }

  ghost predicate CooldownsBacked(cfg: Config, w: World) {
    forall k :: k in w.cadence.last ==> Backed(cfg, w, k, w.cadence.last[k])
  }

  /** Every message at or before the cursor has a durable outcome. */
  ghost predicate CursorCovered(cfg: Config, w: World) {
    forall i :: 0 <= i < w.cursor && i < |w.topic| ==> Covered(cfg, w, i)
  }

  /** Message `i` has one, or a queued turn supplies it before the cursor gets there, or the
  latch keeps the cursor away. */
  ghost predicate Accounted(cfg: Config, w: World, i: nat)
    requires i < |w.topic|
  {
    Covered(cfg, w, i) || w.latch
    || Queued(cfg, w.queue, w.stage, MessageKey(cfg, w.topic[i]), i, w.topic[i].published)
  }

  ghost predicate DispatchAccounted(cfg: Config, w: World) {
    forall i :: 0 <= i < w.dispatched && i < |w.topic| ==> Accounted(cfg, w, i)
  }

  // --- What stands behind a release ------------------------------------------------------

  /** The window forwards the identity: its latest row there is not resolved. */
  predicate ForwardsKey(st: Store, win: string, k: string) { k in RowKeys(Groups(HeldEvents(st, win)).forwarded) }

  /** One of the window's rows, whose identity the window forwards. */
  predicate Owed(st: Store, win: string, row: HeldRow) {
    row in st.rows && row.windowId == win && ForwardsKey(st, win, row.key)
  }

  /** Row `m` was held after every row of the window. */
  predicate AfterWindow(rows: seq<HeldRow>, win: string, m: nat) {
    m < |rows| && forall n :: 0 <= n < |rows| && rows[n].windowId == win ==> n < m
  }

  /** Any row of this id was held after every row of the window. */
  predicate HeldOnlyAfter(rows: seq<HeldRow>, win: string, id: string) {
    forall m: nat :: m < |rows| && rows[m].eventId == id ==> AfterWindow(rows, win, m)
  }

  /** Message `i` carries the row's identity and is after the cursor: a restart replays it. If
  it is held again, it is held after the window closed. */
  ghost predicate ReplaysAt(cfg: Config, w: World, row: HeldRow, i: nat) {
    && w.cursor <= i < |w.topic| && MessageKey(cfg, w.topic[i]) == row.key
    && HeldOnlyAfter(w.ledger.store.rows, row.windowId, w.topic[i].id)
    && (i < w.dispatched ==> w.latch || Queued(cfg, w.queue, w.stage, row.key, i, row.heldAt))
  }

  ghost predicate Replayable(cfg: Config, w: World, row: HeldRow) {
    exists i: nat :: ReplaysAt(cfg, w, row, i)
  }

  /** The identity was held again after every row of the window. */
  ghost predicate HeldLater(rows: seq<HeldRow>, row: HeldRow) {
    exists m: nat :: AfterWindow(rows, row.windowId, m) && rows[m].key == row.key
  }

  ghost predicate Settled(cfg: Config, w: World, row: HeldRow) {
    || Recorded(cfg, w.log, row.key, row.heldAt)
    || Replayable(cfg, w, row)
    || HeldLater(w.ledger.store.rows, row)
  }

  predicate IsReleased(st: Store, win: string) { win in st.windows && st.windows[win].released.Some? }

  /** Two stores with the same rows and the same windows released. */
  ghost predicate SameHolds(st: Store, st': Store) {
    st'.rows == st.rows && forall win :: IsReleased(st', win) <==> IsReleased(st, win)
  }

  ghost predicate ReleasesSettled(cfg: Config, w: World) {
    forall row: HeldRow :: IsReleased(w.ledger.store, row.windowId) && Owed(w.ledger.store, row.windowId, row) ==> Settled(cfg, w, row)
  }

  /** Dispatched already, in this process, and never held. */
  ghost predicate OutstandingAt(cfg: Config, w: World, row: HeldRow, i: nat) {
    && w.cursor <= i < w.dispatched && i < |w.topic| && MessageKey(cfg, w.topic[i]) == row.key
    && !IdHeld(w.ledger.store, w.topic[i].id)
    && (w.latch || Queued(cfg, w.queue, w.stage, row.key, i, row.heldAt))
  }

  /** What a decision to release rests on: settled, and not by a later row. */
  ghost predicate SettledNow(cfg: Config, w: World, row: HeldRow) {
    Recorded(cfg, w.log, row.key, row.heldAt) || exists i: nat :: OutstandingAt(cfg, w, row, i)
  }

  /** A release still in the queue: each forwarded identity is in its turn or settled now. */
  ghost predicate PendingSettled(cfg: Config, w: World) {
    forall p :: 0 <= p < |w.queue| && w.queue[p].Release? ==> ItemSettled(cfg, w, w.queue[p])
  }

  ghost predicate ItemSettled(cfg: Config, w: World, it: Item)
    requires it.Release?
  {
    forall row :: Owed(w.ledger.store, it.window, row) ==> row.key in TurnKeys(it) || SettledNow(cfg, w, row)
  }

  /** Releases stay settled when the holds stay, no release joins the queue, and settling is
  only ever kept. */
  lemma SettledFrame(cfg: Config, w: World, w': World)
    requires ReleasesSettled(cfg, w) && PendingSettled(cfg, w) && SameHolds(w.ledger.store, w'.ledger.store)
    requires forall it :: it in w'.queue && it.Release? ==> it in w.queue
    requires forall row: HeldRow :: Settled(cfg, w, row) ==> Settled(cfg, w', row)
    requires w'.queue == [] || forall row: HeldRow :: SettledNow(cfg, w, row) ==> SettledNow(cfg, w', row)
    ensures ReleasesSettled(cfg, w') && PendingSettled(cfg, w')
  {
    forall row: HeldRow, win ensures Owed(w'.ledger.store, win, row) <==> Owed(w.ledger.store, win, row) {
      assert HeldEvents(w'.ledger.store, win) == HeldEvents(w.ledger.store, win);
    }
    forall p | 0 <= p < |w'.queue| && w'.queue[p].Release? ensures ItemSettled(cfg, w', w'.queue[p]) {
      var it := w'.queue[p];
      assert it in w'.queue;
      var q :| 0 <= q < |w.queue| && w.queue[q] == it;
      assert ItemSettled(cfg, w, w.queue[q]);
    }
  }

  lemma NowIsSettled(cfg: Config, w: World, row: HeldRow)
    requires SettledNow(cfg, w, row)
    ensures Settled(cfg, w, row)
  {
    if !Recorded(cfg, w.log, row.key, row.heldAt) {
      var i: nat :| OutstandingAt(cfg, w, row, i);
      assert ReplaysAt(cfg, w, row, i);
    }
  }

  // --- Receipts --------------------------------------------------------------------------

  /** At most one hold-release record per window, only for released windows, with the counts
  of the rows the window holds for good. */
  ghost predicate ReceiptsWF(led: Ledger) {
    && (forall n :: 0 <= n < |led.receipts| ==>
          IsReleased(led.store, led.receipts[n].windowId) && led.receipts[n] == ReceiptOf(led.store, led.receipts[n].windowId))
    && (forall m, n :: 0 <= m < n < |led.receipts| ==> led.receipts[m].windowId != led.receipts[n].windowId)
  }

  ghost predicate WF(cfg: Config, w: World) {
    && TopicWF(w.topic, w.now) && BoundsWF(w) && LogWF(w.log, w.now)
    && RowsWF(cfg, w.topic, w.now, w.ledger.store)
    && OffsetsWF(w.queue, w.cursor, w.dispatched) && TurnsWF(w.queue, w.now)
    && StageWF(w) && LiveWF(cfg, w) && ReleasesWF(w.queue, w.ledger) && DownWF(w)
    && ReceiptsWF(w.ledger) && HeldInOrder(w.ledger.store.rows)
  }

  ghost predicate Inv(cfg: Config, w: World) {
    && WF(cfg, w)
    && CooldownsBacked(cfg, w)
    && CursorCovered(cfg, w) && DispatchAccounted(cfg, w)
    && (w.noneRepassed ==> ReleasesSettled(cfg, w) && PendingSettled(cfg, w))
  }

  lemma StartInv(cfg: Config)
    ensures Inv(cfg, START)
  {
  }

  // --- Queue arithmetic ----------------------------------------------------------------

  /** The head records nothing more: a marker, or a turn already written. */
  predicate HeadDone(queue: seq<Item>, stage: Stage) {
    queue != [] && (queue[0].Marker? || stage == Written)
  }

  lemma PopKeepsQueued(cfg: Config, queue: seq<Item>, stage: Stage, k: string, i: nat, t: real)
    requires HeadDone(queue, stage) && Queued(cfg, queue, stage, k, i, t)
    ensures Queued(cfg, queue[1..], Ready, k, i, t)
    ensures HasOffset(queue[0]) ==> queue[0].hi <= i
  {
    var p: nat :| WillRecord(queue, stage, p, k) && RecentFor(cfg, k, queue[p].decidedAt, t) && Behind(queue, p, i);
    assert p > 0;
    var rest := queue[1..];
    assert forall q :: 0 <= q < p - 1 ==> rest[q] == queue[q + 1];
    assert WillRecord(rest, Ready, p - 1, k) && rest[p - 1] == queue[p] && Behind(rest, p - 1, i);
  }

  lemma PopKeepsInQueue(queue: seq<Item>, stage: Stage, k: string, t: real)
    requires HeadDone(queue, stage) && InQueue(queue, stage, k, t)
    ensures InQueue(queue[1..], Ready, k, t)
  {
    var p: nat :| WillRecord(queue, stage, p, k) && t <= queue[p].decidedAt;
    assert p > 0 && queue[1..][p - 1] == queue[p];
    assert WillRecord(queue[1..], Ready, p - 1, k);
  }

  /** Unless the head is the one that records `k`, popping it keeps what is behind it. */
  lemma FailKeepsInQueue(queue: seq<Item>, k: string, t: real)
    requires queue != [] && InQueue(queue, Ready, k, t) && k !in TurnKeys(queue[0])
    ensures InQueue(queue[1..], Ready, k, t)
  {
    var p: nat :| WillRecord(queue, Ready, p, k) && t <= queue[p].decidedAt;
    assert p > 0 && queue[1..][p - 1] == queue[p];
    assert WillRecord(queue[1..], Ready, p - 1, k);
  }

  lemma AppendKeepsQueued(cfg: Config, queue: seq<Item>, more: seq<Item>, stage: Stage, k: string, i: nat, t: real)
    requires Queued(cfg, queue, stage, k, i, t)
    ensures Queued(cfg, queue + more, stage, k, i, t)
  {
    var p: nat :| WillRecord(queue, stage, p, k) && RecentFor(cfg, k, queue[p].decidedAt, t) && Behind(queue, p, i);
    var all := queue + more;
    assert forall q :: 0 <= q <= p ==> all[q] == queue[q];
    assert WillRecord(all, stage, p, k) && Behind(all, p, i);
  }

  lemma AppendKeepsInQueue(queue: seq<Item>, more: seq<Item>, stage: Stage, k: string, t: real)
    requires InQueue(queue, stage, k, t)
    ensures InQueue(queue + more, stage, k, t)
  {
    var p: nat :| WillRecord(queue, stage, p, k) && t <= queue[p].decidedAt;
    assert (queue + more)[p] == queue[p];
    assert WillRecord(queue + more, stage, p, k);
  }

  /** An item appended behind everything dispatched before it keeps the offsets in order. */
  lemma AppendKeepsOffsets(queue: seq<Item>, it: Item, cursor: nat, before: nat, after: nat)
    requires OffsetsWF(queue, cursor, before) && cursor <= before <= after
    requires HasOffset(it) ==> it.lo == before && it.hi == after
    ensures OffsetsWF(queue + [it], cursor, after)
  {
  }

  lemma AppendKeepsTurns(queue: seq<Item>, it: Item, now: real)
    requires TurnsWF(queue, now) && (!it.Marker? ==> "" !in TurnKeys(it) && it.decidedAt <= now)
    ensures TurnsWF(queue + [it], now)
  {
  }

  /** A turn appended at the end records its keys before the cursor passes any message not
  dispatched before it. */
  lemma AppendedRecords(cfg: Config, queue: seq<Item>, it: Item, stage: Stage, k: string, i: nat, t: real,
                        cursor: nat, dispatched: nat)
    requires OffsetsWF(queue, cursor, dispatched) && dispatched <= i
    requires !it.Marker? && k in TurnKeys(it) && t <= it.decidedAt && (queue == [] ==> stage == Ready)
    ensures Queued(cfg, queue + [it], stage, k, i, t)
  {
    var all := queue + [it];
    assert forall q :: 0 <= q < |queue| ==> all[q] == queue[q];
    assert WillRecord(all, stage, |queue|, k) && Behind(all, |queue|, i);
  }

  /** A queued turn no older than a live cooldown is recent for everything up to now. */
  lemma InQueueIsQueued(cfg: Config, queue: seq<Item>, stage: Stage, k: string, i: nat, armed: real, now: real, t: real,
                        cursor: nat, dispatched: nat)
    requires InQueue(queue, stage, k, armed) && now - armed < CooldownFor(cfg, k) && t <= now
    requires OffsetsWF(queue, cursor, dispatched) && dispatched <= i
    ensures Queued(cfg, queue, stage, k, i, t)
  {
    var p: nat :| WillRecord(queue, stage, p, k) && armed <= queue[p].decidedAt;
    assert RecentFor(cfg, k, queue[p].decidedAt, t) && Behind(queue, p, i);
  }

  lemma InLogIsRecorded(cfg: Config, log: seq<Triage>, k: string, armed: real, now: real, t: real)
    requires InLog(log, k, armed) && now - armed < CooldownFor(cfg, k) && t <= now
    ensures Recorded(cfg, log, k, t)
  {
    var n :| 0 <= n < |log| && k in KeysOf(log[n].record) && armed <= AtOf(log[n].record);
    assert RecentFor(cfg, k, AtOf(log[n].record), t);
  }

  /** What is covered or accounted for stays so while log, rows and queue stay. */
  lemma AccountedFrame(cfg: Config, w: World, w': World)
    requires w.topic <= w'.topic && w'.log == w.log && w'.ledger.store.rows == w.ledger.store.rows
    ensures forall i: nat :: i < |w.topic| && Covered(cfg, w, i) ==> Covered(cfg, w', i)
    ensures (w'.latch || (w'.queue == w.queue && w'.stage == w.stage && !w.latch)) ==>
              forall i: nat :: i < |w.topic| && Accounted(cfg, w, i) ==> Accounted(cfg, w', i)
  {
    assert forall i: nat :: i < |w.topic| ==> w'.topic[i] == w.topic[i];
    forall i: nat | i < |w.topic| && Covered(cfg, w, i) ensures Covered(cfg, w', i) {
    }
  }

  /** Batches keep their unheld messages while rows stay and the topic only grows. */
  lemma LiveWFFrame(cfg: Config, w: World, w': World)
    requires LiveWF(cfg, w) && w'.queue == w.queue && w.topic <= w'.topic
    requires w'.ledger.store.rows == w.ledger.store.rows && w'.noneRepassed == w.noneRepassed
    ensures LiveWF(cfg, w')
  {
    forall p, k | 0 <= p < |w'.queue| && w'.queue[p].Live? && k in TurnKeys(w'.queue[p])
      ensures exists i :: w'.queue[p].lo <= i < w'.queue[p].hi && Unheld(cfg, w', k, i)
    {
      var i :| w.queue[p].lo <= i < w.queue[p].hi && Unheld(cfg, w, k, i);
      assert Unheld(cfg, w', k, i);
    }
  }

  // --- Log arithmetic ------------------------------------------------------------------

  lemma LogGrowsRecorded(cfg: Config, log: seq<Triage>, more: seq<Triage>, k: string, t: real)
    requires Recorded(cfg, log, k, t)
    ensures Recorded(cfg, log + more, k, t)
  {
    var n :| 0 <= n < |log| && k in KeysOf(log[n].record) && RecentFor(cfg, k, AtOf(log[n].record), t);
    assert (log + more)[n] == log[n];
  }

  lemma LogGrowsInLog(log: seq<Triage>, more: seq<Triage>, k: string, t: real)
    requires InLog(log, k, t)
    ensures InLog(log + more, k, t)
  {
    var n :| 0 <= n < |log| && k in KeysOf(log[n].record) && t <= AtOf(log[n].record);
    assert (log + more)[n] == log[n];
  }

  lemma RecordKeys(it: Item, at: real, handoff: string)
    requires !it.Marker? && "" !in TurnKeys(it)
    ensures KeysOf(RecordOf(it, at, handoff)) == TurnKeys(it)
  {
    var r := RecordOf(it, at, handoff);
    assert forall i :: 0 <= i < |it.turn.items| ==> r.keys[i] == it.turn.items[i].identity.key;
    forall k | k in TurnKeys(it) ensures k in KeysOf(r) {
      var i :| 0 <= i < |it.turn.items| && it.turn.items[i].identity.key == k;
      assert r.keys[i] == k;
    }
  }

  /** Keys are nonempty because derivation never yields an empty one. */
  lemma EvaluatedKeys(cfg: Config, c: Cadence, batch: seq<Event>, now: real, release: Option<HeldRelease>)
    requires ConfigWF(cfg)
    ensures var d := Evaluate(cfg, c, batch, now, release).decision;
      d.turn.Some? ==> "" !in ItemKeys(d.turn.value.items)
  {
    ScreenPartitions(cfg, c, batch, now);
    assert "" !in BatchKeys(cfg, batch);
  }
}
