/** Why the duplicate check must do its work: a held event that is passed on again can be lost.

`ProtocolFates` proves that a run which passes on no held event loses none. Here is the
converse, at the step that passes one on: whenever the held row is all that still covers
the alert, some continuation of the run ends with nothing covering it.
*/
module ProtocolRepass {
  import opened Common
  import opened Cadence
  import opened Holds
  import opened Protocol
  import opened ProtocolInvariant
  import opened ProtocolDispatch
  import opened ProtocolRelease
  import opened ProtocolRuns
  import opened ProtocolFates

  /** From `w` to `v` no record of `k` was written, and topic and rows stayed. */
  ghost predicate Quiet(w: World, v: World, k: string) {
    && v.topic == w.topic && v.ledger.store.rows == w.ledger.store.rows && w.log <= v.log
    && forall n: nat :: |w.log| <= n < |v.log| ==> k !in KeysOf(v.log[n].record)
  }

  lemma QuietOn(w: World, v: World, u: World, k: string)
    requires Quiet(w, v, k) && Quiet(v, u, k)
    ensures Quiet(w, u, k)
  {
    forall n: nat | |w.log| <= n < |u.log| ensures k !in KeysOf(u.log[n].record) {
      if n < |v.log| { assert u.log[n] == v.log[n]; }
    }
  }

  lemma RecordedBefore(cfg: Config, w: World, v: World, k: string, t: real)
    requires Quiet(w, v, k) && Recorded(cfg, v.log, k, t)
    ensures Recorded(cfg, w.log, k, t)
  {
    var n: nat :| n < |v.log| && k in KeysOf(v.log[n].record) && RecentFor(cfg, k, AtOf(v.log[n].record), t);
    assert v.log[n] == w.log[n];
  }

  // --- The cooldown it arms ----------------------------------------------------------------------

  /** Passing the event on leaves its identity in cooldown, however it is decided. */
  lemma PassedOnIsCooling(cfg: Config, w: World, batch: seq<Event>, keep: seq<bool>, j: nat)
    requires DispatchEnabled(w, batch, keep, false) && j < |batch| && keep[j]
    requires CooldownFor(cfg, MessageKey(cfg, w.topic[w.dispatched + j])) > 0.0
    ensures InCooldown(cfg, Dispatched(cfg, w, batch, keep, true).cadence.last, MessageKey(cfg, w.topic[w.dispatched + j]), w.now)
  {
    var s := Survivors(batch, keep);
    KeptKey(cfg, w, batch, keep, false, j);
    ScreenPartitions(cfg, w.cadence, s, w.now);
    EvaluateEffect(cfg, w.cadence, s, w.now, None);
    NoItemsNoKeys(Screen(cfg, w.cadence, s, w.now).items);
  }

  // --- The release that trusts it ----------------------------------------------------------------

  /** The release of `win` as decided now; its times do not matter. */
  function ReleaseNow(w: World, win: string): HeldRelease {
    var g := Groups(HeldEvents(w.ledger.store, win));
    HeldRelease(win, g.held, g.recovered, 0.0, 0.0, 0.0)
  }

  lemma CoolingIsNotReleased(cfg: Config, w: World, win: string, k: string)
    requires InCooldown(cfg, w.cadence.last, k, w.now)
    ensures k !in ItemKeys(ReleaseItems(cfg, w, win))
  {
    ScreenPartitions(cfg, w.cadence, Rebuilt(Groups(HeldEvents(w.ledger.store, win)).forwarded), w.now);
  }

  /** One item leaves the queue and nothing durable changes. */
  lemma DrainOne(cfg: Config, w: World) returns (s: Step, v: World)
    requires w.up && w.queue != [] && (w.queue[0].Marker? ==> w.stage == Ready)
    ensures Reaches(cfg, w, [s], v) && v == w.(queue := w.queue[1..], stage := Ready, latch := v.latch)
  {
    var head := w.queue[0];
    s := if head.Marker? || (head.Live? && w.stage == Written) then AdvanceCursor(false)
         else if w.stage == Ready then WriteRecord(false, "")
         else MarkWindow(true, false);
    v := Apply(cfg, w, s);
    ReachesOne(cfg, w, s);
  }

  lemma {:induction false} Drain(cfg: Config, w: World, n: nat) returns (steps: seq<Step>, v: World)
    requires w.up && n <= |w.queue| && (w.queue != [] && w.queue[0].Marker? ==> w.stage == Ready)
    ensures Reaches(cfg, w, steps, v)
    ensures v == w.(queue := w.queue[n..], stage := if n == 0 then w.stage else Ready, latch := v.latch)
    decreases n
  {
    if n == 0 {
      steps, v := [], w;
      ReachesNow(cfg, w);
      assert w.queue[0..] == w.queue;
    } else {
      var s, w1 := DrainOne(cfg, w);
      steps, v := Drain(cfg, w1, n - 1);
      ReachesOn(cfg, w, [s], w1, steps, v);
      steps := [s] + steps;
      assert w.queue[1..][n - 1..] == w.queue[n..];
    }
  }

  /** A lone release turn is recorded and its window marked. */
  lemma FinishRelease(cfg: Config, w: World, k: string) returns (steps: seq<Step>, v: World)
    requires w.up && |w.queue| == 1 && w.queue[0].Release? && w.stage == Ready && TurnsWF(w.queue, w.now)
    requires k !in TurnKeys(w.queue[0]) && Unreleased(w.ledger.store, w.queue[0].window)
    ensures Reaches(cfg, w, steps, v) && Quiet(w, v, k) && v.up && v.cursor == w.cursor
    ensures IsReleased(v.ledger.store, w.queue[0].window)
  {
    var it := w.queue[0];
    var first, second := WriteRecord(true, ""), MarkWindow(false, true);
    var w1 := Apply(cfg, w, first);
    RecordKeys(it, w.now, "");
    ReachesOne(cfg, w, first);
    v := Apply(cfg, w1, second);
    ReachesOne(cfg, w1, second);
    steps := [first] + [second];
    ReachesOn(cfg, w, [first], w1, [second], v);
    assert w1.log == w.log + [Triage(RecordOf(it, w.now, ""), it.decidedAt)];
  }

  /** While its identity is cooling, the window can be released without it. */
  lemma ReleasedWithoutIt(cfg: Config, w: World, win: string, k: string) returns (steps: seq<Step>, v: World)
    requires ConfigWF(cfg) && StageWF(w) && Releasable(w, win) && InCooldown(cfg, w.cadence.last, k, w.now)
    ensures Reaches(cfg, w, steps, v) && Quiet(w, v, k) && v.up && v.cursor == w.cursor && IsReleased(v.ledger.store, win)
  {
    var r := ReleaseNow(w, win);
    var tick := ReleaseTick(r, false, true);
    var w1 := Apply(cfg, w, tick);
    var events := Rebuilt(Groups(HeldEvents(w.ledger.store, win)).forwarded);
    ReachesOne(cfg, w, tick);
    EvaluateEffect(cfg, w.cadence, events, w.now, Some(r));
    if ReleaseItems(cfg, w, win) == [] {
      steps, v := [tick], w1;
    } else {
      EvaluatedKeys(cfg, w.cadence, events, w.now, Some(r));
      CoolingIsNotReleased(cfg, w, win, k);
      var drained, w2 := Drain(cfg, w1, |w.queue|);
      ReachesOn(cfg, w, [tick], w1, drained, w2);
      assert w2.queue == [w1.queue[|w.queue|]];
      var finish;
      finish, v := FinishRelease(cfg, w2, k);
      ReachesOn(cfg, w, [tick] + drained, w2, finish, v);
      steps := [tick] + drained + finish;
    }
  }

  // --- The replay that drops it ------------------------------------------------------------------

  lemma {:induction false} DeliverAll(cfg: Config, w: World) returns (steps: seq<Step>)
    requires w.up && w.received <= |w.topic|
    ensures Reaches(cfg, w, steps, w.(received := |w.topic|))
    decreases |w.topic| - w.received
  {
    if w.received == |w.topic| {
      steps := [];
      ReachesNow(cfg, w);
    } else {
      var w1 := Apply(cfg, w, Deliver);
      ReachesOne(cfg, w, Deliver);
      var more := DeliverAll(cfg, w1);
      ReachesOn(cfg, w, [Deliver], w1, more, w.(received := |w.topic|));
      steps := [Deliver] + more;
    }
  }

  function EventOf(m: Message): Event { Event(m.id, m.title, m.message, 0.0, m.time) }

  /** Everything after the cursor as one batch, and what a read duplicate check keeps of it. */
  function RestBatch(w: World): seq<Event>
    requires w.cursor <= |w.topic|
  {
    seq(|w.topic| - w.cursor, j requires 0 <= j < |w.topic| - w.cursor => EventOf(w.topic[w.cursor + j]))
  }

  function RestKeep(w: World): seq<bool>
    requires w.cursor <= |w.topic|
  {
    seq(|w.topic| - w.cursor, j requires 0 <= j < |w.topic| - w.cursor => !IdHeld(w.ledger.store, w.topic[w.cursor + j].id))
  }

  /** Every message of the identity still to come is held. */
  ghost predicate AllHeld(cfg: Config, w: World, k: string) {
    forall i :: w.cursor <= i < |w.topic| && MessageKey(cfg, w.topic[i]) == k ==> IdHeld(w.ledger.store, w.topic[i].id)
  }

  lemma RestIsEnabled(w: World)
    requires w.up && w.cursor == w.dispatched < |w.topic| == w.received
    ensures DispatchEnabled(w, RestBatch(w), RestKeep(w), true)
  {
    var batch := RestBatch(w);
    forall j | 0 <= j < |batch| ensures Delivers(w.topic[w.dispatched + j], batch[j]) {
      assert batch[j] == EventOf(w.topic[w.cursor + j]);
    }
  }

  lemma RestSurvivorLacks(cfg: Config, w: World, k: string, e: Event)
    requires w.cursor <= |w.topic| && AllHeld(cfg, w, k) && e in Survivors(RestBatch(w), RestKeep(w))
    ensures KeyOf(cfg, e) != k
  {
    var batch, keep := RestBatch(w), RestKeep(w);
    SurvivorsMembers(batch, keep);
    var j :| 0 <= j < |batch| && keep[j] && batch[j] == e;
    var m := w.topic[w.cursor + j];
    assert e == EventOf(m) && KeyOf(cfg, e) == MessageKey(cfg, m) && !IdHeld(w.ledger.store, m.id);
  }

  lemma RestLacks(cfg: Config, w: World, k: string)
    requires w.cursor <= |w.topic| && AllHeld(cfg, w, k)
    ensures k !in ItemKeys(Screen(cfg, w.cadence, Survivors(RestBatch(w), RestKeep(w)), w.now).items)
  {
    var s := Survivors(RestBatch(w), RestKeep(w));
    ScreenPartitions(cfg, w.cadence, s, w.now);
    forall n | 0 <= n < |s| ensures KeyOf(cfg, s[n]) != k {
      assert s[n] in s;
      RestSurvivorLacks(cfg, w, k, s[n]);
    }
    assert k !in BatchKeys(cfg, s);
  }

  /** The head of a queue of one is finished and the cursor moved past it. */
  lemma FinishLast(cfg: Config, w: World, k: string) returns (steps: seq<Step>, v: World)
    requires w.up && |w.queue| == 1 && HasOffset(w.queue[0]) && w.stage == Ready && !w.latch && TurnsWF(w.queue, w.now)
    requires k !in TurnKeys(w.queue[0])
    ensures Reaches(cfg, w, steps, v) && Quiet(w, v, k) && v.cursor == w.queue[0].hi && v.ledger == w.ledger
  {
    var it := w.queue[0];
    if it.Marker? {
      steps, v := [AdvanceCursor(true)], Apply(cfg, w, AdvanceCursor(true));
      ReachesOne(cfg, w, AdvanceCursor(true));
    } else {
      var first := WriteRecord(true, "");
      var w1 := Apply(cfg, w, first);
      RecordKeys(it, w.now, "");
      ReachesOne(cfg, w, first);
      v := Apply(cfg, w1, AdvanceCursor(true));
      ReachesOne(cfg, w1, AdvanceCursor(true));
      steps := [first] + [AdvanceCursor(true)];
      ReachesOn(cfg, w, [first], w1, [AdvanceCursor(true)], v);
      assert w1.log == w.log + [Triage(RecordOf(it, w.now, ""), it.decidedAt)];
    }
  }

  /** The rest of the topic dispatched as one batch: one item, not about `k`. */
  lemma RestIsOneItem(cfg: Config, w: World, k: string)
    requires ConfigWF(cfg) && w.up && w.cursor == w.dispatched < |w.topic| == w.received && w.queue == [] && AllHeld(cfg, w, k)
    ensures var v := Dispatched(cfg, w, RestBatch(w), RestKeep(w), true);
      && |v.queue| == 1 && HasOffset(v.queue[0]) && v.queue[0].hi == |w.topic| && TurnsWF(v.queue, v.now)
      && k !in TurnKeys(v.queue[0]) && Quiet(w, v, k)
  {
    var s := Survivors(RestBatch(w), RestKeep(w));
    RestLacks(cfg, w, k);
    EvaluateEffect(cfg, w.cadence, s, w.now, None);
    EvaluatedKeys(cfg, w.cadence, s, w.now, None);
  }

  /** After a crash and a restart the cursor can pass everything left without a record of `k`. */
  lemma CursorPassesAll(cfg: Config, w: World, k: string) returns (steps: seq<Step>, v: World)
    requires ConfigWF(cfg) && w.up && w.cursor < |w.topic| && AllHeld(cfg, w, k)
    ensures Reaches(cfg, w, steps, v) && Quiet(w, v, k) && v.cursor == |w.topic|
    ensures v.ledger.store == w.ledger.store
  {
    var w1 := Apply(cfg, w, Crash);
    var w2 := Apply(cfg, w1, Restart);
    ReachesOne(cfg, w, Crash);
    ReachesOne(cfg, w1, Restart);
    ReachesOn(cfg, w, [Crash], w1, [Restart], w2);
    var deliveries := DeliverAll(cfg, w2);
    var w3 := w2.(received := |w.topic|);
    ReachesOn(cfg, w, [Crash] + [Restart], w2, deliveries, w3);
    var dispatch := Dispatch(RestBatch(w3), RestKeep(w3), true, true);
    RestIsEnabled(w3);
    ReachesOne(cfg, w3, dispatch);
    var w4 := Apply(cfg, w3, dispatch);
    ReachesOn(cfg, w, [Crash] + [Restart] + deliveries, w3, [dispatch], w4);
    RestIsOneItem(cfg, w3, k);
    var last;
    last, v := FinishLast(cfg, w4, k);
    steps := [Crash] + [Restart] + deliveries + [dispatch];
    ReachesOn(cfg, w, steps, w4, last, v);
    steps := steps + last;
    QuietOn(w, w4, v, k);
  }

  // --- The alert is lost ---------------------------------------------------------------------------

  /** Row `n` is all that covers its identity: nothing recorded is recent for it, every message
  still to come is held, and every row from it on is in its window. */
  ghost predicate OnlyCover(cfg: Config, w: World, n: nat)
    requires n < |w.ledger.store.rows|
  {
    var rows := w.ledger.store.rows;
    && !Recorded(cfg, w.log, rows[n].key, rows[n].heldAt) && AllHeld(cfg, w, rows[n].key)
    && forall m :: n <= m < |rows| && rows[m].key == rows[n].key ==> rows[m].windowId == rows[n].windowId
  }

  lemma LatestIsUnique(rows: seq<HeldRow>, i: nat, j: nat)
    requires i < |rows| && j < |rows| && rows[i].key == rows[j].key && IsLatest(rows, i) && IsLatest(rows, j)
    ensures i == j
  {
  }

  lemma ForwardedNotRecovered(st: Store, win: string, k: string)
    requires ForwardsKey(st, win, k)
    ensures !RecoveredIn(st, win, k)
  {
    var rows := HeldEvents(st, win);
    var f := Groups(rows).forwarded;
    var n :| 0 <= n < |f| && f[n].key == k;
    ForwardedIffLatestUnresolved(rows, |rows|, f[n]);
    var i: nat :| i < |rows| && Holds.Forwards(rows, i) && rows[i] == f[n];
    forall j: nat | j < |rows| && rows[j].key == k && IsLatest(rows, j) ensures j == i { LatestIsUnique(rows, i, j); }
  }

  /** Whenever a dispatch passes on an event held as row `n`, and that row is all that covers the
  alert, in a window that could be released now and forwards it, then the run can go on so
  that the window is released and the alert ends nowhere. */
  lemma RepassedAlertCanBeLost(cfg: Config, w: World, batch: seq<Event>, keep: seq<bool>, j: nat, n: nat)
    returns (steps: seq<Step>)
    requires ConfigWF(cfg) && Inv(cfg, w) && DispatchEnabled(w, batch, keep, false) && j < |batch| && keep[j]
    requires n < |w.ledger.store.rows| && w.ledger.store.rows[n].eventId == batch[j].id && OnlyCover(cfg, w, n)
    requires Releasable(w, w.ledger.store.rows[n].windowId) && CooldownFor(cfg, w.ledger.store.rows[n].key) > 0.0
    requires ForwardsKey(w.ledger.store, w.ledger.store.rows[n].windowId, w.ledger.store.rows[n].key)
    ensures Legal(cfg, w, [Dispatch(batch, keep, true, false)] + steps)
    ensures var v, row := Run(cfg, w, [Dispatch(batch, keep, true, false)] + steps), w.ledger.store.rows[n];
      && v.ledger.store.rows == w.ledger.store.rows && IsReleased(v.ledger.store, row.windowId)
      && !Ends(cfg, v, row.key, row.heldAt, n)
  {
    var row := w.ledger.store.rows[n];
    HeldRowKey(cfg, w, n, w.dispatched + j);
    var v;
    steps, v := PassedOnIsLost(cfg, w, batch, keep, j, row.windowId, row.key);
    ReachesIsRun(cfg, w, [Dispatch(batch, keep, true, false)] + steps, v);
    LostForGood(cfg, w, v, n);
  }

  lemma PassedOnIsLost(cfg: Config, w: World, batch: seq<Event>, keep: seq<bool>, j: nat, win: string, k: string)
    returns (steps: seq<Step>, v: World)
    requires ConfigWF(cfg) && StageWF(w) && w.cursor <= w.dispatched && DispatchEnabled(w, batch, keep, false)
    requires j < |batch| && keep[j] && MessageKey(cfg, w.topic[w.dispatched + j]) == k && CooldownFor(cfg, k) > 0.0
    requires Releasable(w, win) && AllHeld(cfg, w, k)
    ensures Reaches(cfg, w, [Dispatch(batch, keep, true, false)] + steps, v)
    ensures Quiet(w, v, k) && v.cursor == |v.topic| && IsReleased(v.ledger.store, win)
  {
    var dispatch := Dispatch(batch, keep, true, false);
    var w1 := Apply(cfg, w, dispatch);
    ReachesOne(cfg, w, dispatch);
    PassedOnIsCooling(cfg, w, batch, keep, j);
    PassedOnKeeps(cfg, w, batch, keep, win);
    assert AllHeld(cfg, w1, k);
    steps, v := CoolingIsLost(cfg, w1, win, k);
    ReachesOn(cfg, w, [dispatch], w1, steps, v);
    QuietFrom(w, w1, v, k);
  }

  lemma QuietFrom(w: World, w1: World, v: World, k: string)
    requires Quiet(w1, v, k) && w1.topic == w.topic && w1.log == w.log && w1.ledger == w.ledger
    ensures Quiet(w, v, k)
  {
  }

  lemma PassedOnKeeps(cfg: Config, w: World, batch: seq<Event>, keep: seq<bool>, win: string)
    requires DispatchEnabled(w, batch, keep, false) && StageWF(w) && Releasable(w, win) && w.cursor <= w.dispatched
    ensures var v := Dispatched(cfg, w, batch, keep, true);
      && StageWF(v) && Releasable(v, win) && v.topic == w.topic && v.log == w.log && v.ledger == w.ledger
      && v.cursor == w.cursor < |w.topic| && v.now == w.now
  {
  }

  /** Released while it cools, then never replayed. */
  lemma CoolingIsLost(cfg: Config, w: World, win: string, k: string) returns (steps: seq<Step>, v: World)
    requires ConfigWF(cfg) && StageWF(w) && Releasable(w, win) && InCooldown(cfg, w.cadence.last, k, w.now)
    requires w.cursor < |w.topic| && AllHeld(cfg, w, k)
    ensures Reaches(cfg, w, steps, v) && Quiet(w, v, k) && v.cursor == |v.topic| && IsReleased(v.ledger.store, win)
  {
    var release, w1 := ReleasedWithoutIt(cfg, w, win, k);
    HeldStaysHeld(cfg, w, w1, k);
    var pass;
    pass, v := CursorPassesAll(cfg, w1, k);
    steps := release + pass;
    ReachesOn(cfg, w, release, w1, pass, v);
    QuietOn(w, w1, v, k);
  }

  lemma HeldStaysHeld(cfg: Config, w: World, v: World, k: string)
    requires AllHeld(cfg, w, k) && Quiet(w, v, k) && v.cursor == w.cursor
    ensures AllHeld(cfg, v, k)
  {
    assert forall id :: IdHeld(w.ledger.store, id) ==> IdHeld(v.ledger.store, id);
  }

  lemma LostForGood(cfg: Config, w: World, v: World, n: nat)
    requires n < |w.ledger.store.rows| && OnlyCover(cfg, w, n) && Quiet(w, v, w.ledger.store.rows[n].key)
    requires v.cursor == |v.topic| && IsReleased(v.ledger.store, w.ledger.store.rows[n].windowId)
    requires ForwardsKey(w.ledger.store, w.ledger.store.rows[n].windowId, w.ledger.store.rows[n].key)
    ensures !Ends(cfg, v, w.ledger.store.rows[n].key, w.ledger.store.rows[n].heldAt, n)
  {
    var row := w.ledger.store.rows[n];
    if Recorded(cfg, v.log, row.key, row.heldAt) { RecordedBefore(cfg, w, v, row.key, row.heldAt); }
    assert HeldEvents(v.ledger.store, row.windowId) == HeldEvents(w.ledger.store, row.windowId);
    ForwardedNotRecovered(v.ledger.store, row.windowId, row.key);
  }
}
