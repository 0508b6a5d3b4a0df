/** The hold partition and dispatch of one batch (`henk/events/coordinator.py`), as functions,
and the proof that they are runs of the event protocol. */
module Partition {
  import opened Common
  import opened Cadence
  import opened Holds
  import opened Protocol
  import opened ProtocolInvariant

  /** What the window source and the store answer while one event is classified; windows
  that could not be read are no windows. */
  datatype Reply = Reply(active: seq<CalendarWindow>, storeFails: bool)

  datatype Parted = Parted(ledger: Ledger, keep: seq<bool>)

  /** The ids of the batch that are already held; none when the check could not be read. */
  function KnownIn(st: Store, batch: seq<Event>, idsRead: bool): set<string> {
    if idsRead then set i | 0 <= i < |batch| && IdHeld(st, batch[i].id) :: batch[i].id else {}
  }

  predicate Asks(known: set<string>, windowsOn: bool, e: Event) {
    windowsOn && !(e.id != "" && e.id in known)
  }

  function PartOne(cfg: Config, p: Parted, known: set<string>, windowsOn: bool, e: Event, reply: Reply, now: real): Parted {
    if !Asks(known, windowsOn, e) then Parted(p.ledger, p.keep + [!(e.id != "" && e.id in known)])
    else
      var h := HoldEvent(cfg, p.ledger, e, PublishTime(e), reply.active, now, reply.storeFails);
      Parted(h.next, p.keep + [h.result == NotHeld])
  }

  function Part(cfg: Config, led: Ledger, known: set<string>, windowsOn: bool, batch: seq<Event>,
                reply: Event -> Reply, now: real): (p: Parted)
    ensures |p.keep| == |batch|
  {
    if batch == [] then Parted(led, [])
    else
      var e := batch[|batch| - 1];
      PartOne(cfg, Part(cfg, led, known, windowsOn, batch[..|batch| - 1], reply, now), known, windowsOn, e, reply(e), now)
  }

  /** One more event partitioned, and what that adds to the survivors. */
  lemma PartNext(cfg: Config, led: Ledger, known: set<string>, windowsOn: bool, batch: seq<Event>, i: nat,
                 reply: Event -> Reply, now: real)
    requires i < |batch|
    ensures var p := Part(cfg, led, known, windowsOn, batch[..i], reply, now);
      var q := PartOne(cfg, p, known, windowsOn, batch[i], reply(batch[i]), now);
      && Part(cfg, led, known, windowsOn, batch[..i + 1], reply, now) == q
      && Survivors(batch[..i + 1], q.keep) == Survivors(batch[..i], p.keep) + if q.keep[i] then [batch[i]] else []
  {
    assert batch[..i + 1][..i] == batch[..i];
    var p := Part(cfg, led, known, windowsOn, batch[..i], reply, now);
    assert PartOne(cfg, p, known, windowsOn, batch[i], reply(batch[i]), now).keep[..i] == p.keep;
  }

  predicate HasId(batch: seq<Event>, id: string) { exists j :: 0 <= j < |batch| && batch[j].id == id }

  /** What the partition does with each event. Held ids only grow, by ids of dropped events. */
  ghost predicate PartSound(before: Store, batch: seq<Event>, p: Parted) {
    && |p.keep| == |batch|
    && (forall id :: IdHeld(before, id) ==> IdHeld(p.ledger.store, id))
    && (forall id :: IdHeld(p.ledger.store, id) ==> IdHeld(before, id) || HasId(batch, id))
    && (forall j :: 0 <= j < |batch| && !p.keep[j] ==> IdHeld(p.ledger.store, batch[j].id))
    && (forall j :: 0 <= j < |batch| && p.keep[j] && !IdHeld(before, batch[j].id) ==> !IdHeld(p.ledger.store, batch[j].id))
  }

  ghost predicate DistinctIds(batch: seq<Event>) {
    && (forall i :: 0 <= i < |batch| ==> batch[i].id != "")
    && (forall i, j :: 0 <= i < j < |batch| ==> batch[i].id != batch[j].id)
  }

  /** `hold` adds exactly the id it reports held. */
  lemma HoldAddsId(cfg: Config, led: Ledger, e: Event, reply: Reply, now: real, id: string)
    ensures var h := HoldEvent(cfg, led, e, PublishTime(e), reply.active, now, reply.storeFails);
      && (IdHeld(h.next.store, id) <==> IdHeld(led.store, id) || (h.result == WasHeld && id == e.id))
      && (h.result == WasDuplicate ==> IdHeld(led.store, e.id))
  {
    HoldEventOutcome(cfg, led, e, PublishTime(e), reply.active, now, reply.storeFails);
    var h := HoldEvent(cfg, led, e, PublishTime(e), reply.active, now, reply.storeFails);
    if h.result == WasHeld {
      var rows := h.next.store.rows;
      assert rows[..|rows| - 1] == led.store.rows && rows[|rows| - 1].eventId == e.id;
      if IdHeld(led.store, id) {
        var i :| 0 <= i < |led.store.rows| && led.store.rows[i].eventId == id;
        assert rows[i].eventId == id;
      }
    }
  }

  lemma PartOneSound(cfg: Config, before: Store, batch: seq<Event>, p: Parted, known: set<string>,
                     windowsOn: bool, e: Event, reply: Reply, now: real)
    requires PartSound(before, batch, p) && DistinctIds(batch + [e])
    requires forall id :: id in known ==> IdHeld(before, id)
    ensures PartSound(before, batch + [e], PartOne(cfg, p, known, windowsOn, e, reply, now))
  {
    var q := PartOne(cfg, p, known, windowsOn, e, reply, now);
    var all := batch + [e];
    forall id ensures IdHeld(p.ledger.store, id) ==> IdHeld(q.ledger.store, id)
              ensures IdHeld(q.ledger.store, id) ==> IdHeld(p.ledger.store, id) || (id == e.id && !q.keep[|batch|])
    {
      HoldAddsId(cfg, p.ledger, e, reply, now, id);
    }
    HoldAddsId(cfg, p.ledger, e, reply, now, e.id);
    forall id | HasId(batch, id) ensures HasId(all, id) {
      var j :| 0 <= j < |batch| && batch[j].id == id;
      assert all[j].id == id;
    }
    assert all[|batch|].id == e.id && HasId(all, e.id);
    if HasId(batch, e.id) {
      var j :| 0 <= j < |batch| && batch[j].id == e.id;
      assert all[j].id == all[|batch|].id;
    }
  }

  lemma {:induction false} PartIsSound(cfg: Config, led: Ledger, known: set<string>, windowsOn: bool, batch: seq<Event>,
                                       reply: Event -> Reply, now: real)
    requires DistinctIds(batch) && forall id :: id in known ==> IdHeld(led.store, id)
    ensures PartSound(led.store, batch, Part(cfg, led, known, windowsOn, batch, reply, now))
  {
    if batch != [] {
      var front, e := batch[..|batch| - 1], batch[|batch| - 1];
      assert batch == front + [e];
      PartIsSound(cfg, led, known, windowsOn, front, reply, now);
      PartOneSound(cfg, led.store, front, Part(cfg, led, known, windowsOn, front, reply, now),
                   known, windowsOn, e, reply(e), now);
    }
  }

  // --- What is held and what is passed on ---------------------------------------------------

  /** The store answers, and some window active for the event takes rows. */
  ghost predicate Willing(led: Ledger, reply: Reply) {
    !reply.storeFails && exists v :: v in reply.active && OpenWindow(led, v.id)
  }

  /** The row an event is held as: in an open window, no open one of which ends later. */
  ghost predicate HeldAs(cfg: Config, led: Ledger, e: Event, reply: Reply, now: real, row: HeldRow) {
    exists v :: v in reply.active && OpenWindow(led, v.id) && row == RowOf(cfg, e, v.id, PublishTime(e), now)
                && forall u :: u in reply.active && OpenWindow(led, u.id) ==> u.end <= v.end
  }

  ghost predicate SameOpen(a: Ledger, b: Ledger) { forall id :: OpenWindow(a, id) == OpenWindow(b, id) }

  lemma HoldKeepsOpen(cfg: Config, led: Ledger, e: Event, reply: Reply, now: real)
    ensures SameOpen(led, HoldEvent(cfg, led, e, PublishTime(e), reply.active, now, reply.storeFails).next)
  {
  }

  /** One event asked about: held, dropped as held before, or passed on. */
  lemma AskMeans(cfg: Config, led: Ledger, at: Ledger, e: Event, reply: Reply, now: real)
    requires SameOpen(led, at) && e.id != ""
    ensures var h := HoldEvent(cfg, at, e, PublishTime(e), reply.active, now, reply.storeFails);
      && (h.result == NotHeld <==> !Willing(led, reply)) && SameOpen(led, h.next)
      && at.store.rows <= h.next.store.rows
      && (forall row :: row in h.next.store.rows ==> row in at.store.rows || HeldAs(cfg, led, e, reply, now, row))
      && (Willing(led, reply) && !IdHeld(at.store, e.id) ==>
            exists row :: row in h.next.store.rows && HeldAs(cfg, led, e, reply, now, row))
  {
    var h := HoldEvent(cfg, at, e, PublishTime(e), reply.active, now, reply.storeFails);
    HoldEventOutcome(cfg, at, e, PublishTime(e), reply.active, now, reply.storeFails);
    HoldKeepsOpen(cfg, at, e, reply, now);
    assert forall v :: OpenWindow(at, v) == OpenWindow(led, v);
    if h.result == WasHeld {
      var v :| v in reply.active && OpenWindow(at, v.id)
               && (forall u :: u in reply.active && OpenWindow(at, u.id) ==> u.end <= v.end)
               && h.next.store.rows == at.store.rows + [RowOf(cfg, e, v.id, PublishTime(e), now)];
      var row := RowOf(cfg, e, v.id, PublishTime(e), now);
      assert HeldAs(cfg, led, e, reply, now, row) && row in h.next.store.rows;
    }
  }

  /** An event is passed on exactly when it is not known held and either no window source is
  wired or nothing would take it; each new one that something takes is held. */
  ghost predicate Apportioned(cfg: Config, led: Ledger, known: set<string>, windowsOn: bool, batch: seq<Event>,
                              reply: Event -> Reply, now: real, p: Parted)
  {
    && |p.keep| == |batch| && SameOpen(led, p.ledger)
    && (forall j :: 0 <= j < |batch| ==>
          (p.keep[j] <==> batch[j].id !in known && !(windowsOn && Willing(led, reply(batch[j])))))
    && (forall row :: row in led.store.rows ==> row in p.ledger.store.rows)
    && (forall row :: row in p.ledger.store.rows ==> row in led.store.rows || HeldFrom(cfg, led, batch, reply, now, row))
    && (forall j :: 0 <= j < |batch| && windowsOn && !IdHeld(led.store, batch[j].id) && Willing(led, reply(batch[j])) ==>
          HasRow(cfg, led, batch[j], reply(batch[j]), now, p))
  }

  ghost predicate HeldFrom(cfg: Config, led: Ledger, batch: seq<Event>, reply: Event -> Reply, now: real, row: HeldRow) {
    exists j :: 0 <= j < |batch| && HeldAs(cfg, led, batch[j], reply(batch[j]), now, row)
  }

  ghost predicate HasRow(cfg: Config, led: Ledger, e: Event, reply: Reply, now: real, p: Parted) {
    exists row :: row in p.ledger.store.rows && HeldAs(cfg, led, e, reply, now, row)
  }

  lemma HeldFromMore(cfg: Config, led: Ledger, batch: seq<Event>, e: Event, reply: Event -> Reply, now: real, row: HeldRow)
    requires HeldFrom(cfg, led, batch, reply, now, row) || HeldAs(cfg, led, e, reply(e), now, row)
    ensures HeldFrom(cfg, led, batch + [e], reply, now, row)
  {
    var all := batch + [e];
    if HeldAs(cfg, led, e, reply(e), now, row) {
      assert all[|batch|] == e;
    } else {
      var j :| 0 <= j < |batch| && HeldAs(cfg, led, batch[j], reply(batch[j]), now, row);
      assert all[j] == batch[j];
    }
  }

  lemma ApportionedNext(cfg: Config, led: Ledger, known: set<string>, windowsOn: bool, batch: seq<Event>, e: Event,
                        reply: Event -> Reply, now: real, p: Parted)
    requires Apportioned(cfg, led, known, windowsOn, batch, reply, now, p)
    requires e.id != "" && (forall id :: id in known ==> IdHeld(led.store, id))
    requires IdHeld(p.ledger.store, e.id) ==> IdHeld(led.store, e.id)
    ensures Apportioned(cfg, led, known, windowsOn, batch + [e], reply, now,
                        PartOne(cfg, p, known, windowsOn, e, reply(e), now))
  {
    var all, q := batch + [e], PartOne(cfg, p, known, windowsOn, e, reply(e), now);
    AskMeans(cfg, led, p.ledger, e, reply(e), now);
    forall row | row in q.ledger.store.rows && row !in led.store.rows ensures HeldFrom(cfg, led, all, reply, now, row) {
      HeldFromMore(cfg, led, batch, e, reply, now, row);
    }
    forall j | 0 <= j < |all| && windowsOn && !IdHeld(led.store, all[j].id) && Willing(led, reply(all[j]))
      ensures HasRow(cfg, led, all[j], reply(all[j]), now, q)
    {
      if j < |batch| {
        assert all[j] == batch[j] && HasRow(cfg, led, batch[j], reply(batch[j]), now, p);
        var row :| row in p.ledger.store.rows && HeldAs(cfg, led, batch[j], reply(batch[j]), now, row);
        assert row in q.ledger.store.rows;
      }
    }
  }

  /** The partition in full: who is passed on, what is held, and as which rows. */
  lemma {:induction false} PartApportions(cfg: Config, led: Ledger, known: set<string>, windowsOn: bool, batch: seq<Event>,
                                          reply: Event -> Reply, now: real)
    requires DistinctIds(batch) && forall id :: id in known ==> IdHeld(led.store, id)
    ensures Apportioned(cfg, led, known, windowsOn, batch, reply, now, Part(cfg, led, known, windowsOn, batch, reply, now))
  {
    if batch != [] {
      var front, e := batch[..|batch| - 1], batch[|batch| - 1];
      assert batch == front + [e];
      PartApportions(cfg, led, known, windowsOn, front, reply, now);
      PartIsSound(cfg, led, known, windowsOn, front, reply, now);
      var p := Part(cfg, led, known, windowsOn, front, reply, now);
      assert !HasId(front, e.id);
      ApportionedNext(cfg, led, known, windowsOn, front, e, reply, now, p);
    }
  }

  // --- Simulation ------------------------------------------------------------------------

  /** The batch is the next `|batch|` messages of the topic, already received. */
  ghost predicate NextBatch(w: World, batch: seq<Event>) {
    && w.up && w.dispatched + |batch| <= w.received <= |w.topic|
    && forall j :: 0 <= j < |batch| ==> Delivers(w.topic[w.dispatched + j], batch[j])
  }

  lemma NextBatchDistinct(w: World, batch: seq<Event>)
    requires NextBatch(w, batch) && TopicWF(w.topic, w.now)
    ensures DistinctIds(batch)
  {
    forall i, j | 0 <= i < j < |batch| ensures batch[i].id != batch[j].id {
      assert w.topic[w.dispatched + i].id != w.topic[w.dispatched + j].id;
    }
  }

  function HoldSteps(known: set<string>, windowsOn: bool, lo: nat, batch: seq<Event>, reply: Event -> Reply): seq<Step> {
    if batch == [] then []
    else
      var e := batch[|batch| - 1];
      HoldSteps(known, windowsOn, lo, batch[..|batch| - 1], reply)
      + if Asks(known, windowsOn, e) then [HoldRow(lo + |batch| - 1, e, reply(e).active, reply(e).storeFails)] else []
  }

  lemma {:induction false} PartRuns(cfg: Config, w: World, known: set<string>, windowsOn: bool, batch: seq<Event>,
                                    reply: Event -> Reply)
    requires NextBatch(w, batch)
    ensures var steps := HoldSteps(known, windowsOn, w.dispatched, batch, reply);
      && Legal(cfg, w, steps)
      && Run(cfg, w, steps) == w.(ledger := Part(cfg, w.ledger, known, windowsOn, batch, reply, w.now).ledger)
  {
    if batch != [] {
      var front, e := batch[..|batch| - 1], batch[|batch| - 1];
      assert NextBatch(w, front);
      PartRuns(cfg, w, known, windowsOn, front, reply);
      if Asks(known, windowsOn, e) {
        Then(cfg, w, HoldSteps(known, windowsOn, w.dispatched, front, reply),
             HoldRow(w.dispatched + |batch| - 1, e, reply(e).active, reply(e).storeFails));
      } else {
        assert HoldSteps(known, windowsOn, w.dispatched, batch, reply)
            == HoldSteps(known, windowsOn, w.dispatched, front, reply);
      }
    }
  }

  lemma {:induction false} KnownDropped(cfg: Config, led: Ledger, known: set<string>, windowsOn: bool, batch: seq<Event>,
                                        reply: Event -> Reply, now: real, j: nat)
    requires j < |batch| && batch[j].id != "" && batch[j].id in known
    ensures !Part(cfg, led, known, windowsOn, batch, reply, now).keep[j]
  {
    if j < |batch| - 1 {
      KnownDropped(cfg, led, known, windowsOn, batch[..|batch| - 1], reply, now, j);
    }
  }

  lemma SurvivorsUnheld(cfg: Config, w: World, windowsOn: bool, batch: seq<Event>, reply: Event -> Reply)
    requires DistinctIds(batch)
    ensures var known := KnownIn(w.ledger.store, batch, true);
      var p := Part(cfg, w.ledger, known, windowsOn, batch, reply, w.now);
      forall j :: 0 <= j < |batch| && p.keep[j] ==> !IdHeld(p.ledger.store, batch[j].id)
  {
    var known := KnownIn(w.ledger.store, batch, true);
    var p := Part(cfg, w.ledger, known, windowsOn, batch, reply, w.now);
    PartIsSound(cfg, w.ledger, known, windowsOn, batch, reply, w.now);
    forall j: nat | j < |batch| && p.keep[j] ensures !IdHeld(p.ledger.store, batch[j].id) {
      if IdHeld(w.ledger.store, batch[j].id) {
        KnownDropped(cfg, w.ledger, known, windowsOn, batch, reply, w.now, j);
      }
    }
  }

  /** The world after `dispatch_batch`: the partition, then one protocol dispatch. */
  function AfterDispatch(cfg: Config, w: World, windowsOn: bool, batch: seq<Event>, reply: Event -> Reply,
                         suppressionsWritten: bool, idsRead: bool): World
  {
    var p := Part(cfg, w.ledger, KnownIn(w.ledger.store, batch, idsRead), windowsOn, batch, reply, w.now);
    Dispatched(cfg, w.(ledger := p.ledger), batch, p.keep, suppressionsWritten)
  }

  function DispatchSteps(cfg: Config, w: World, windowsOn: bool, batch: seq<Event>, reply: Event -> Reply,
                         suppressionsWritten: bool, idsRead: bool): seq<Step>
  {
    var known := KnownIn(w.ledger.store, batch, idsRead);
    HoldSteps(known, windowsOn, w.dispatched, batch, reply)
    + [Dispatch(batch, Part(cfg, w.ledger, known, windowsOn, batch, reply, w.now).keep, suppressionsWritten, idsRead)]
  }

  /** `dispatch_batch` is a run of the protocol: each hold is a step, then the dispatch. Every
  dropped event is held, and with the duplicate check read no survivor is. */
  lemma DispatchIsRun(cfg: Config, w: World, windowsOn: bool, batch: seq<Event>, reply: Event -> Reply,
                      suppressionsWritten: bool, idsRead: bool)
    requires NextBatch(w, batch) && batch != [] && TopicWF(w.topic, w.now)
    ensures var steps := DispatchSteps(cfg, w, windowsOn, batch, reply, suppressionsWritten, idsRead);
      && Legal(cfg, w, steps)
      && Run(cfg, w, steps) == AfterDispatch(cfg, w, windowsOn, batch, reply, suppressionsWritten, idsRead)
  {
    var known := KnownIn(w.ledger.store, batch, idsRead);
    var p := Part(cfg, w.ledger, known, windowsOn, batch, reply, w.now);
    PartRuns(cfg, w, known, windowsOn, batch, reply);
    DispatchIsEnabled(cfg, w, windowsOn, batch, reply, idsRead);
    Then(cfg, w, HoldSteps(known, windowsOn, w.dispatched, batch, reply),
         Dispatch(batch, p.keep, suppressionsWritten, idsRead));
  }

  lemma SoundIsEnabled(w: World, batch: seq<Event>, p: Parted, idsRead: bool)
    requires NextBatch(w, batch) && batch != [] && PartSound(w.ledger.store, batch, p)
    requires idsRead ==> forall j :: 0 <= j < |batch| && p.keep[j] ==> !IdHeld(p.ledger.store, batch[j].id)
    ensures DispatchEnabled(w.(ledger := p.ledger), batch, p.keep, idsRead)
  {
  }

  lemma DispatchIsEnabled(cfg: Config, w: World, windowsOn: bool, batch: seq<Event>, reply: Event -> Reply, idsRead: bool)
    requires NextBatch(w, batch) && batch != [] && TopicWF(w.topic, w.now)
    ensures var p := Part(cfg, w.ledger, KnownIn(w.ledger.store, batch, idsRead), windowsOn, batch, reply, w.now);
      DispatchEnabled(w.(ledger := p.ledger), batch, p.keep, idsRead)
  {
    var known := KnownIn(w.ledger.store, batch, idsRead);
    NextBatchDistinct(w, batch);
    PartIsSound(cfg, w.ledger, known, windowsOn, batch, reply, w.now);
    if idsRead { SurvivorsUnheld(cfg, w, windowsOn, batch, reply); }
    SoundIsEnabled(w, batch, Part(cfg, w.ledger, known, windowsOn, batch, reply, w.now), idsRead);
  }
}
