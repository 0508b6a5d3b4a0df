/** The event protocol as a transition system: intake, coordinator, hold ledger, release
task and core over three durable stores (audit log, hold rows, cursor), with a crash
possible between any two durable writes.

The topic keeps every message and ids are distinct, so a position in it stands for a
message id and `cursor` counts the messages at or before the durable cursor. Everything
from `evaluate` to the queue put is one step, because the core queue is unbounded and the
put never suspends. Interleavings the event loop does not produce are allowed too.
*/
module Protocol {
  import opened Common
  import opened Cadence
  import opened Holds

  // --- State -------------------------------------------------------------------------

  /** A retained topic message; `published` is the wall-clock instant it was published. */
  datatype Message = Message(id: string, title: string, message: string, time: Option<real>, published: real)

  predicate Delivers(m: Message, e: Event) {
    e.id == m.id && e.title == m.title && e.message == m.message && e.publishedAt == m.time
  }

  function MessageKey(cfg: Config, m: Message): string { cfg.derive(m.title, m.message).key }

  /** A durable triage record, with the instant its turn was decided. */
  datatype Triage = Triage(record: AuditRecord, decidedAt: real)

  /** What rides the core queue. `hi` is the offset; `lo` is where its batch began. */
  datatype Item =
    | Marker(lo: nat, hi: nat)
    | Live(turn: EventTurn, lo: nat, hi: nat, decidedAt: real)
    | Release(turn: EventTurn, window: string, decidedAt: real)

  /** Whether the head turn's record is already durable. */
  datatype Stage = Ready | Written

  /** `noneRepassed` is history: no dispatch has yet passed on an event already held. */
  datatype World = World(
    topic: seq<Message>, log: seq<Triage>, ledger: Ledger, cursor: nat, now: real,
    up: bool, received: nat, dispatched: nat, cadence: Cadence,
    queue: seq<Item>, stage: Stage, latch: bool, noneRepassed: bool)

  const START := World([], [], Ledger(Store(map[], []), map[], []), 0, 0.0,
                       false, 0, 0, EMPTY, [], Ready, false, true)

  function TurnKeys(it: Item): set<string> { if it.Marker? then {} else ItemKeys(it.turn.items) }

  predicate HasOffset(it: Item) { !it.Release? }

  // --- Steps -------------------------------------------------------------------------

  datatype Step =
    | Publish(m: Message)
    | Elapse(to: real)
    | Deliver
    | HoldRow(i: nat, e: Event, active: seq<CalendarWindow>, storeFails: bool)
    | Dispatch(batch: seq<Event>, keep: seq<bool>, suppressionsWritten: bool, idsRead: bool)
    | ExtendWindow(window: string, end: real)
    | ReleaseTick(release: HeldRelease, markFails: bool, receiptWritten: bool)
    | WriteRecord(ok: bool, handoff: string)
    | MarkWindow(markFails: bool, receiptWritten: bool)
    | AdvanceCursor(ok: bool)
    | ShutdownFlush(handoff: string)
    | Crash
    | Restart

  function Survivors(batch: seq<Event>, keep: seq<bool>): seq<Event>
    requires |keep| == |batch|
  {
    if batch == [] then []
    else
      var n := |batch| - 1;
      Survivors(batch[..n], keep[..n]) + if keep[n] then [batch[n]] else []
  }

  function Rebuilt(rows: seq<HeldRow>): seq<Event> {
    seq(|rows|, i requires 0 <= i < |rows| => RebuildEvent(rows[i]))
  }

  function KeySeq(items: seq<TurnItem>): seq<string> {
    seq(|items|, i requires 0 <= i < |items| => items[i].identity.key)
  }

  function RecordOf(it: Item, at: real, handoff: string): AuditRecord
    requires !it.Marker?
  {
    AuditRecord("session", "event", Some(at), KeySeq(it.turn.items), handoff, Some(it.turn.announceable))
  }

  function Records(log: seq<Triage>): seq<AuditRecord> {
    seq(|log|, i requires 0 <= i < |log| => log[i].record)
  }

  predicate Writable(w: World) {
    w.up && w.queue != [] && !w.queue[0].Marker? && w.stage == Ready
  }

  predicate Releasable(w: World, window: string) {
    && w.up && window !in w.ledger.inFlight && Unreleased(w.ledger.store, window)
    && HeldEvents(w.ledger.store, window) != []
    && InFlightIdentities(w.ledger.inFlight) !! RowKeys(HeldEvents(w.ledger.store, window))
  }

  predicate DispatchEnabled(w: World, batch: seq<Event>, keep: seq<bool>, idsRead: bool) {
    && w.up && batch != [] && |keep| == |batch| && w.dispatched + |batch| <= w.received <= |w.topic|
    && (forall j :: 0 <= j < |batch| ==> Delivers(w.topic[w.dispatched + j], batch[j]))
    && (forall j :: 0 <= j < |batch| && !keep[j] ==> IdHeld(w.ledger.store, batch[j].id))
    && (idsRead ==> PassesUnheld(w.ledger.store, batch, keep))
  }

  predicate Enabled(w: World, s: Step) {
    match s
    case Publish(m) => m.id != "" && m.published == w.now && forall i :: 0 <= i < |w.topic| ==> w.topic[i].id != m.id
    case Elapse(to) => w.now <= to
    case Deliver => w.up && w.received < |w.topic|
    case HoldRow(i, e, _, _) => w.up && w.dispatched <= i < w.received <= |w.topic| && Delivers(w.topic[i], e)
    case Dispatch(batch, keep, _, idsRead) => DispatchEnabled(w, batch, keep, idsRead)
    case ExtendWindow(_, _) => w.up
    case ReleaseTick(r, _, _) =>
      && Releasable(w, r.windowId)
      && r.held == Groups(HeldEvents(w.ledger.store, r.windowId)).held
      && r.recovered == Groups(HeldEvents(w.ledger.store, r.windowId)).recovered
    case WriteRecord(_, _) => Writable(w)
    case MarkWindow(_, _) => w.up && w.queue != [] && w.queue[0].Release? && w.stage == Written
    case AdvanceCursor(_) =>
      w.up && w.queue != [] && (w.queue[0].Marker? || (w.queue[0].Live? && w.stage == Written))
    case ShutdownFlush(_) => Writable(w)
    case Crash => w.up
    case Restart => !w.up
  }

  /** The duplicate check did its work: no event the batch passes on is already held. */
  predicate PassesUnheld(st: Store, batch: seq<Event>, keep: seq<bool>)
    requires |keep| == |batch|
  {
    forall j :: 0 <= j < |batch| && keep[j] ==> !IdHeld(st, batch[j].id)
  }

  /** Everything in memory is gone; the stores and the clock remain. */
  function Down(w: World): World {
    World(w.topic, w.log, w.ledger.(inFlight := map[]), w.cursor, w.now,
          false, w.cursor, w.cursor, EMPTY, [], Ready, false, w.noneRepassed)
  }

  function Dispatched(cfg: Config, w: World, batch: seq<Event>, keep: seq<bool>, suppressionsWritten: bool): World
    requires |keep| == |batch|
  {
    var ev := Evaluate(cfg, w.cadence, Survivors(batch, keep), w.now, None);
    var hi := w.dispatched + |batch|;
    var submitted :=
      if ev.decision.turn.Some? then [Live(ev.decision.turn.value, w.dispatched, hi, w.now)]
      else if suppressionsWritten then [Marker(w.dispatched, hi)]
      else [];
    w.(dispatched := hi, cadence := ev.next, queue := w.queue + submitted,
       noneRepassed := w.noneRepassed && PassesUnheld(w.ledger.store, batch, keep))
  }

  function ReleaseDecision(cfg: Config, w: World, r: HeldRelease): Evaluated {
    Evaluate(cfg, w.cadence, Rebuilt(Groups(HeldEvents(w.ledger.store, r.windowId)).forwarded), w.now, Some(r))
  }

  function Released(cfg: Config, w: World, r: HeldRelease, markFails: bool, receiptWritten: bool): World {
    var ev := ReleaseDecision(cfg, w, r);
    if ev.decision.turn.None? then
      w.(cadence := ev.next, ledger := MarkReleased(w.ledger, r.windowId, w.now, markFails, receiptWritten))
    else
      var turn := ev.decision.turn.value;
      w.(cadence := ev.next,
         ledger := w.ledger.(inFlight := w.ledger.inFlight[r.windowId := ItemKeys(turn.items)]),
         queue := w.queue + [Release(turn, r.windowId, w.now)])
  }

  function Apply(cfg: Config, w: World, s: Step): World
    requires Enabled(w, s)
  {
    match s
    case Publish(m) => w.(topic := w.topic + [m])
    case Elapse(to) => w.(now := to)
    case Deliver => w.(received := w.received + 1)
    case HoldRow(_, e, active, storeFails) =>
      w.(ledger := HoldEvent(cfg, w.ledger, e, PublishTime(e), active, w.now, storeFails).next)
    case Dispatch(batch, keep, suppressionsWritten, _) => Dispatched(cfg, w, batch, keep, suppressionsWritten)
    case ExtendWindow(window, end) => w.(ledger := w.ledger.(store := Extend(w.ledger.store, window, end)))
    case ReleaseTick(r, markFails, receiptWritten) => Released(cfg, w, r, markFails, receiptWritten)
    case WriteRecord(ok, handoff) =>
      var noted := Noted(w.cadence, w.queue[0].turn.items, handoff);
      if ok then
        w.(log := w.log + [Triage(RecordOf(w.queue[0], w.now, handoff), w.queue[0].decidedAt)], stage := Written,
           cadence := noted)
      else w.(latch := true, queue := w.queue[1..], cadence := noted)
    case MarkWindow(markFails, receiptWritten) =>
      w.(ledger := MarkReleased(w.ledger, w.queue[0].window, w.now, markFails, receiptWritten),
         queue := w.queue[1..], stage := Ready)
    case AdvanceCursor(ok) =>
      w.(cursor := if ok && !w.latch then w.queue[0].hi else w.cursor, queue := w.queue[1..], stage := Ready)
    case ShutdownFlush(handoff) =>
      Down(w.(log := w.log + [Triage(RecordOf(w.queue[0], w.now, handoff), w.queue[0].decidedAt)]))
    case Crash => Down(w)
    case Restart => w.(up := true, cadence := Rehydrate(cfg, EMPTY, Records(w.log), w.now))
  }

  // --- Runs --------------------------------------------------------------------------

  ghost predicate Legal(cfg: Config, w: World, steps: seq<Step>)
    decreases |steps|
  {
    steps == [] || (Enabled(w, steps[0]) && Legal(cfg, Apply(cfg, w, steps[0]), steps[1..]))
  }

  ghost function Run(cfg: Config, w: World, steps: seq<Step>): World
    requires Legal(cfg, w, steps)
    decreases |steps|
  {
    if steps == [] then w else Run(cfg, Apply(cfg, w, steps[0]), steps[1..])
  }

  /** A run may be extended by any step enabled at its end. */
  lemma {:induction false} Then(cfg: Config, w: World, steps: seq<Step>, s: Step)
    requires Legal(cfg, w, steps) && Enabled(Run(cfg, w, steps), s)
    ensures Legal(cfg, w, steps + [s]) && Run(cfg, w, steps + [s]) == Apply(cfg, Run(cfg, w, steps), s)
    decreases |steps|
  {
    if steps == [] {
      assert ([] + [s])[1..] == [];
    } else {
      var next := Apply(cfg, w, steps[0]);
      Then(cfg, next, steps[1..], s);
      assert (steps + [s])[1..] == steps[1..] + [s];
    }
  }

  /** Identity derivation never yields an empty key. */
  ghost predicate ConfigWF(cfg: Config) {
    forall title, message :: cfg.derive(title, message).key != ""
  }

  // --- What is promised --------------------------------------------------------------

  /** A triage at `at` is recent enough to stand for an event of `k` at `t`: not before it,
  or less than one cooldown before it. */
  predicate RecentFor(cfg: Config, k: string, at: real, t: real) {
    at >= t || t - at < CooldownFor(cfg, k)
  }

  /** A durable triage record names `k` and is recent for `t`. */
  ghost predicate Recorded(cfg: Config, log: seq<Triage>, k: string, t: real) {
    exists n :: 0 <= n < |log| && k in KeysOf(log[n].record) && RecentFor(cfg, k, AtOf(log[n].record), t)
  }

  /** A message's outcome is durable: its row is held, or its identity has a recent triage. */
  ghost predicate Covered(cfg: Config, w: World, i: nat)
    requires i < |w.topic|
  {
    || IdHeld(w.ledger.store, w.topic[i].id)
    || Recorded(cfg, w.log, MessageKey(cfg, w.topic[i]), w.topic[i].published)
  }
}
