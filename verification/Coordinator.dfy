/** The object that debounces, holds, evaluates and submits: `henk/events/coordinator.py`.

`EventCoordinator` shares one hold ledger with the core. Its loop is proved to be steps of
the catch-up system, and every dispatch a run of the event protocol. `dispatch_batch` does
not suspend, so the clock stands still inside it, and it is assumed not to raise.
*/
module Coordinator {
  import opened Common
  import opened Cadence
  import opened Holds
  import opened Protocol
  import opened ProtocolInvariant
  import opened ProtocolRuns
  import opened Partition
  import opened Debounce
  import opened Core
  import CatchUp

  predicate SameIntake(w: World, v: World) {
    v.topic == w.topic && v.received == w.received && v.now == w.now && v.up == w.up
  }

  function Submission(d: Decision, lo: nat, hi: nat, durable: bool, now: real): seq<Item> {
    if d.turn.Some? then [Live(d.turn.value, lo, hi, now)] else if durable then [Marker(lo, hi)] else []
  }

  datatype Outcome = Outcome(ledger: Ledger, next: Cadence, decision: Decision)

  function OutcomeOf(cfg: Config, led: Ledger, c: Cadence, windowsOn: bool, batch: seq<Event>, reply: Event -> Reply,
                     idsRead: bool, now: real): Outcome
  {
    var p := Part(cfg, led, KnownIn(led.store, batch, idsRead), windowsOn, batch, reply, now);
    var ev := Evaluate(cfg, c, Survivors(batch, p.keep), now, None);
    Outcome(p.ledger, ev.next, ev.decision)
  }

  /** The suppressions of a decision all reach the log. */
  predicate Persisted(d: Decision, persists: Suppression -> bool) {
    forall i :: 0 <= i < |d.suppressions| ==> persists(d.suppressions[i])
  }

  /** The world one `dispatch_batch` leaves, and the flush's: batch by batch, in order. */
  function AfterBatch(cfg: Config, w: World, windowsOn: bool, batch: seq<Event>, reply: Event -> Reply,
                      idsRead: bool, persists: Suppression -> bool): World
  {
    var out := OutcomeOf(cfg, w.ledger, w.cadence, windowsOn, batch, reply, idsRead, w.now);
    AfterDispatch(cfg, w, windowsOn, batch, reply, Persisted(out.decision, persists), idsRead)
  }

  function AfterFlush(cfg: Config, w: World, windowsOn: bool, batches: seq<seq<Event>>, reply: Event -> Reply,
                      idsRead: nat -> bool, persists: Suppression -> bool): World
  {
    if batches == [] then w
    else
      var n := |batches| - 1;
      AfterBatch(cfg, AfterFlush(cfg, w, windowsOn, batches[..n], reply, idsRead, persists), windowsOn,
                 batches[n], reply, idsRead(n), persists)
  }

  lemma AfterFlushNext(cfg: Config, w: World, windowsOn: bool, batches: seq<seq<Event>>, i: nat, reply: Event -> Reply,
                       idsRead: nat -> bool, persists: Suppression -> bool)
    requires i < |batches|
    ensures AfterFlush(cfg, w, windowsOn, batches[..i + 1], reply, idsRead, persists)
         == AfterBatch(cfg, AfterFlush(cfg, w, windowsOn, batches[..i], reply, idsRead, persists), windowsOn,
                       batches[i], reply, idsRead(i), persists)
  {
    assert batches[..i + 1][..i] == batches[..i];
  }

  /** `v` differs from `w` by the outcome of one dispatched batch of `size` events. */
  ghost predicate BatchDone(w: World, v: World, out: Outcome, size: nat, durable: bool) {
    && SameIntake(w, v) && v.dispatched == w.dispatched + size && v.log == w.log && v.cursor == w.cursor
    && v.latch == w.latch && v.stage == w.stage && v.ledger == out.ledger && v.cadence == out.next
    && v.queue == w.queue + Submission(out.decision, w.dispatched, w.dispatched + size, durable, w.now)
  }

  /** `dispatch_batch` is a run of the protocol, and this is the world it ends in. */
  lemma DispatchReaches(cfg: Config, w: World, windowsOn: bool, batch: seq<Event>, reply: Event -> Reply,
                        idsRead: bool, persists: Suppression -> bool)
    returns (steps: seq<Step>)
    requires NextBatch(w, batch) && batch != [] && TopicWF(w.topic, w.now)
    ensures var out := OutcomeOf(cfg, w.ledger, w.cadence, windowsOn, batch, reply, idsRead, w.now);
      var v := AfterBatch(cfg, w, windowsOn, batch, reply, idsRead, persists);
      && Reaches(cfg, w, steps, v)
      && BatchDone(w, v, out, |batch|, Persisted(out.decision, persists))
  {
    var out := OutcomeOf(cfg, w.ledger, w.cadence, windowsOn, batch, reply, idsRead, w.now);
    var durable := Persisted(out.decision, persists);
    steps := DispatchSteps(cfg, w, windowsOn, batch, reply, durable, idsRead);
    DispatchIsRun(cfg, w, windowsOn, batch, reply, durable, idsRead);
    ReachesIsRun(cfg, w, steps, AfterDispatch(cfg, w, windowsOn, batch, reply, durable, idsRead));
    AfterDispatchFields(cfg, w, windowsOn, batch, reply, durable, idsRead);
  }

  lemma AfterDispatchFields(cfg: Config, w: World, windowsOn: bool, batch: seq<Event>, reply: Event -> Reply,
                            durable: bool, idsRead: bool)
    ensures BatchDone(w, AfterDispatch(cfg, w, windowsOn, batch, reply, durable, idsRead),
                      OutcomeOf(cfg, w.ledger, w.cadence, windowsOn, batch, reply, idsRead, w.now), |batch|, durable)
  {
    assert w.queue + [] == w.queue;
  }

  /** After the last dispatch nothing is pending but the queue. */
  ghost function FinishedLoop(window: real, s: CatchUp.Loop): (t: CatchUp.Loop)
    requires CatchUp.LoopInv(window, s) && CatchUp.Enabled(s, CatchUp.FinishDispatch)
    ensures t == CatchUp.Apply(window, s, CatchUp.FinishDispatch) && CatchUp.LoopInv(window, t)
    ensures t.received == t.dispatched + t.queue
  {
    CatchUp.StepKeepsLoop(window, s, CatchUp.FinishDispatch);
    assert CatchUp.Pending(s.(inProgress := false)) == s.queue;
    s.(inProgress := false)
  }

  lemma KnownByIds(st: Store, batch: seq<Event>, ids: seq<string>)
    requires |ids| == |batch| && forall i :: 0 <= i < |batch| ==> ids[i] == batch[i].id
    ensures (set i | 0 <= i < |ids| && IdHeld(st, ids[i]) :: ids[i]) == KnownIn(st, batch, true)
  {
    forall id | id in KnownIn(st, batch, true) ensures exists i :: 0 <= i < |ids| && IdHeld(st, ids[i]) && ids[i] == id {
      var i :| 0 <= i < |batch| && IdHeld(st, batch[i].id) && batch[i].id == id;
      assert ids[i] == id;
    }
  }

  ghost predicate TracksLoop(loop: CatchUp.Loop, w: World, origin: nat) {
    && w.up && w.received == origin + |loop.received| <= |w.topic| && w.dispatched == origin + |loop.dispatched|
    && forall j :: 0 <= j < |loop.received| ==> Delivers(w.topic[origin + j], loop.received[j])
  }

  /** The head of a flush is the next batch of the topic. */
  lemma HeadIsNextBatch(window: real, loop: CatchUp.Loop, w: World, origin: nat)
    requires CatchUp.LoopInv(window, loop) && loop.flushing != [] && TracksLoop(loop, w, origin)
    ensures NextBatch(w, loop.flushing[0])
  {
    CatchUp.HeadBatchIsNext(window, loop);
    var batch, at := loop.flushing[0], |loop.dispatched|;
    forall j | 0 <= j < |batch| ensures Delivers(w.topic[w.dispatched + j], batch[j]) {
      assert batch[j] == loop.received[at..at + |batch|][j];
      assert Delivers(w.topic[origin + (at + j)], loop.received[at + j]);
    }
  }

  lemma AllTaken(batches: seq<seq<Event>>, i: nat)
    requires i == |batches|
    ensures batches[..i] == batches && batches[i..] == []
  {
  }

  lemma RestOf(batches: seq<seq<Event>>, i: nat)
    requires i < |batches|
    ensures batches[i..][0] == batches[i] && batches[i..][1..] == batches[i + 1..]
  {
  }

  /** Of a flush only `rest` is still to be dispatched; the loop is otherwise as it was. */
  predicate LeftToDispatch(before: CatchUp.Loop, loop: CatchUp.Loop, rest: seq<seq<Event>>) {
    loop == before.(dispatched := loop.dispatched, flushing := rest)
  }

  /** One batch dispatched moves both systems on together. */
  lemma TracksOn(window: real, loop: CatchUp.Loop, w: World, v: World, origin: nat)
    requires CatchUp.Enabled(loop, CatchUp.DispatchOne) && TracksLoop(loop, w, origin)
    requires SameIntake(w, v) && v.dispatched == w.dispatched + |loop.flushing[0]|
    ensures TracksLoop(CatchUp.Apply(window, loop, CatchUp.DispatchOne), v, origin)
  {
  }

  class EventCoordinator {
    const cfg: Config
    const pipeline: EventPipeline
    const core: AgentCore
    const holds: HoldLedger
    const window: real
    const windowsOn: bool
    /** Topic position of the next event to dispatch: stands for the offset of the last one. */
    var position: nat
    var queue: seq<Event>
    var debouncer: Debouncer?
    var ready: seq<seq<Event>>
    var dispatchInProgress: bool
    var keepaliveSinceSubscribe: bool
    var firstSubscribeAt: Option<real>
    /** History: what the server owes this subscription, and all that was received. */
    ghost var loop: CatchUp.Loop

    ghost predicate Wired()
      reads {}
    {
      core.ledger == holds && core.pipeline == pipeline && pipeline.cfg == cfg && holds.cfg == cfg
    }

    ghost function Open(): Option<Buffer>
      reads this, debouncer
    {
      if debouncer == null then None else Some(debouncer.View())
    }

    /** The fields are the catch-up system's state. */
    ghost predicate InLoop()
      reads this, debouncer
    {
      && queue == loop.queue && Open() == loop.open && ready == loop.ready
      && dispatchInProgress == loop.inProgress && keepaliveSinceSubscribe == loop.keepalive
      && firstSubscribeAt == loop.firstSubscribe
      && (debouncer != null ==> debouncer.window == window)
    }

    /** The fields are the protocol's world. */
    ghost predicate Mirrors(w: World)
      reads this`position, core, core.pipeline, core.ledger
    {
      Wired() && core.Mirrors(w) && position == w.dispatched
    }

    constructor (cfg: Config, pipeline: EventPipeline, core: AgentCore, window: real, windowsOn: bool, position: nat)
      requires pipeline.cfg == cfg && core.ledger.cfg == cfg && core.pipeline == pipeline
      ensures this.cfg == cfg && this.pipeline == pipeline && this.core == core && this.holds == core.ledger
      ensures this.window == window && this.windowsOn == windowsOn && this.position == position
      ensures Wired() && InLoop() && loop == CatchUp.IDLE_LOOP
    {
      this.cfg, this.pipeline, this.core, this.holds := cfg, pipeline, core, core.ledger;
      this.window, this.windowsOn, this.position := window, windowsOn, position;
      queue, debouncer, ready := [], null, [];
      dispatchInProgress, keepaliveSinceSubscribe, firstSubscribeAt := false, false, None;
      loop := CatchUp.IDLE_LOOP;
    }

    // --- Catch-up ------------------------------------------------------------------------

    method NoteSubscribe(at: real, ghost backlog: seq<Event>)
      requires InLoop() && CatchUp.Enabled(loop, CatchUp.Subscribe(backlog, at))
      modifies this`keepaliveSinceSubscribe, this`firstSubscribeAt, this`loop
      ensures InLoop() && loop == CatchUp.Apply(window, old(loop), CatchUp.Subscribe(backlog, at))
    {
      keepaliveSinceSubscribe := false;
      if firstSubscribeAt.None? { firstSubscribeAt := Some(at); }
      loop := CatchUp.Apply(window, loop, CatchUp.Subscribe(backlog, at));
    }

    method NoteKeepalive()
      requires InLoop() && CatchUp.Enabled(loop, CatchUp.Keepalive)
      modifies this`keepaliveSinceSubscribe, this`loop
      ensures InLoop() && loop == CatchUp.Apply(window, old(loop), CatchUp.Keepalive)
    {
      keepaliveSinceSubscribe := true;
      loop := CatchUp.Apply(window, loop, CatchUp.Keepalive);
    }

    method NoteUnsubscribe()
      requires InLoop() && CatchUp.Enabled(loop, CatchUp.Unsubscribe)
      modifies this`keepaliveSinceSubscribe, this`loop
      ensures InLoop() && loop == CatchUp.Apply(window, old(loop), CatchUp.Unsubscribe)
    {
      keepaliveSinceSubscribe := false;
      loop := CatchUp.Apply(window, loop, CatchUp.Unsubscribe);
    }

    method Receive(e: Event)
      requires InLoop() && CatchUp.Enabled(loop, CatchUp.Message(e))
      modifies this`queue, this`loop
      ensures InLoop() && loop == CatchUp.Apply(window, old(loop), CatchUp.Message(e))
    {
      queue := queue + [e];
      loop := CatchUp.Apply(window, loop, CatchUp.Message(e));
    }

    /** The backlog the server owed was dispatched whenever this answers yes. */
    method IsCaughtUp() returns (caughtUp: bool)
      requires InLoop()
      ensures caughtUp <==> CatchUp.CaughtUp(loop)
    {
      caughtUp := keepaliveSinceSubscribe && queue == [] && debouncer == null && ready == [] && !dispatchInProgress;
    }

    method FeedOne(e: Event)
      requires debouncer != null
      modifies this`ready, debouncer
      ensures debouncer.View() == Feed(debouncer.window, old(debouncer.View()), e).next
      ensures var done := Feed(debouncer.window, old(debouncer.View()), e).completed;
        ready == if done.Some? && done.value != [] then old(ready) + [done.value] else old(ready)
    {
      var completed := debouncer.Add(e);
      if completed.Some? && completed.value != [] { ready := ready + [completed.value]; }
    }

    /** The first event of a batch: a new debouncer is opened for it. */
    method TakeFirst()
      requires InLoop() && CatchUp.Enabled(loop, CatchUp.TakeFirst)
      modifies this`queue, this`debouncer, this`ready, this`loop
      ensures InLoop() && loop == CatchUp.Apply(window, old(loop), CatchUp.TakeFirst)
      ensures debouncer != null && fresh(debouncer)
    {
      var first := queue[0];
      queue := queue[1..];
      debouncer := new Debouncer(window);
      FeedOne(first);
      loop := CatchUp.Apply(window, loop, CatchUp.TakeFirst);
    }

    /** A further event before the deadline. */
    method TakeNext()
      requires InLoop() && CatchUp.Enabled(loop, CatchUp.TakeNext)
      modifies this`queue, this`ready, this`loop, debouncer
      ensures InLoop() && loop == CatchUp.Apply(window, old(loop), CatchUp.TakeNext)
    {
      var event := queue[0];
      queue := queue[1..];
      FeedOne(event);
      loop := CatchUp.Apply(window, loop, CatchUp.TakeNext);
    }

    method FlushReady() returns (batches: seq<seq<Event>>)
      modifies this`ready, this`debouncer, debouncer
      ensures ready == [] && debouncer == null
      ensures var open := old(Open());
        batches == old(ready) + if open.Some? && open.value.batch != [] then [open.value.batch] else []
    {
      batches, ready := ready, [];
      if debouncer != null {
        var last := debouncer.Flush();
        debouncer := null;
        if last.Some? && last.value != [] { batches := batches + [last.value]; }
      }
    }

    // --- Dispatch ------------------------------------------------------------------------

    /** The survivors of the hold partition, in batch order. */
    method PartitionHolds(batch: seq<Event>, reply: Event -> Reply, idsRead: bool, now: real) returns (survivors: seq<Event>)
      requires Wired()
      modifies holds`windows, holds`rows
      ensures var led := old(holds.View());
        var p := Part(cfg, led, KnownIn(led.store, batch, idsRead), windowsOn, batch, reply, now);
        holds.View() == p.ledger && survivors == Survivors(batch, p.keep)
    {
      var known: set<string> := {};
      ghost var led := holds.View();
      if idsRead {
        var ids := seq(|batch|, i requires 0 <= i < |batch| => batch[i].id);
        known := holds.KnownIds(ids);
        KnownByIds(led.store, batch, ids);
      }
      survivors := [];
      var i := 0;
      while i < |batch|
        invariant 0 <= i <= |batch|
        invariant holds.View() == Part(cfg, led, known, windowsOn, batch[..i], reply, now).ledger
        invariant survivors == Survivors(batch[..i], Part(cfg, led, known, windowsOn, batch[..i], reply, now).keep)
      {
        var event := batch[i];
        PartNext(cfg, led, known, windowsOn, batch, i, reply, now);
        if !(event.id != "" && event.id in known) {
          if !windowsOn {
            survivors := survivors + [event];
          } else {
            var result := holds.HoldOne(event, PublishTime(event), reply(event).active, now, reply(event).storeFails);
            if result == NotHeld { survivors := survivors + [event]; }
          }
        }
        i := i + 1;
      }
      assert batch[..i] == batch;
    }

    /** True when every one was persisted; each is attempted, whatever the others did. */
    method WriteSuppressions(suppressions: seq<Suppression>, persists: Suppression -> bool) returns (durable: bool)
      ensures durable <==> forall i :: 0 <= i < |suppressions| ==> persists(suppressions[i])
    {
      durable := true;
      var i := 0;
      while i < |suppressions|
        invariant 0 <= i <= |suppressions|
        invariant durable <==> forall j :: 0 <= j < i ==> persists(suppressions[j])
      {
        durable := durable && persists(suppressions[i]);
        i := i + 1;
      }
    }

    /** Evaluate the survivors, audit what is suppressed, submit a turn or a marker. */
    method EvaluateAndSubmit(survivors: seq<Event>, lo: nat, persists: Suppression -> bool, now: real)
      returns (durable: bool)
      requires Wired()
      modifies pipeline, core`queue
      ensures pipeline.View() == Evaluate(cfg, old(pipeline.View()), survivors, now, None).next
      ensures var d := Evaluate(cfg, old(pipeline.View()), survivors, now, None).decision;
        && durable == Persisted(d, persists)
        && core.queue == old(core.queue) + Submission(d, lo, position, durable, now)
    {
      var decision := pipeline.EvaluateBatch(survivors, now, None);
      durable := WriteSuppressions(decision.suppressions, persists);
      if decision.turn.Some? {
        core.Submit(Live(decision.turn.value, lo, position, now));
      } else if durable {
        core.Submit(Marker(lo, position));
      }
    }

    /** Hold, evaluate, audit, submit. */
    method HoldAndSubmit(batch: seq<Event>, reply: Event -> Reply, idsRead: bool, persists: Suppression -> bool, now: real)
      returns (durable: bool)
      requires Wired()
      modifies this`position, pipeline, holds`windows, holds`rows, core`queue
      ensures var out := OutcomeOf(cfg, old(holds.View()), old(pipeline.View()), windowsOn, batch, reply, idsRead, now);
        && holds.View() == out.ledger && pipeline.View() == out.next && durable == Persisted(out.decision, persists)
        && core.queue == old(core.queue) + Submission(out.decision, old(position), position, durable, now)
      ensures position == old(position) + |batch|
    {
      var lo := position;
      position := position + |batch|;
      var survivors := PartitionHolds(batch, reply, idsRead, now);
      durable := EvaluateAndSubmit(survivors, lo, persists, now);
    }

    /** `dispatch_batch` is a run of the protocol from the world this mirrors. */
    method DispatchBatch(batch: seq<Event>, reply: Event -> Reply, idsRead: bool, persists: Suppression -> bool,
                         now: real, ghost w: World)
      returns (ghost steps: seq<Step>, ghost v: World)
      requires Mirrors(w) && now == w.now && NextBatch(w, batch) && batch != [] && TopicWF(w.topic, w.now)
      modifies this`position, pipeline, holds`windows, holds`rows, core`queue
      ensures v == AfterBatch(cfg, w, windowsOn, batch, reply, idsRead, persists)
      ensures Reaches(cfg, w, steps, v) && Mirrors(v) && SameIntake(w, v)
      ensures position == old(position) + |batch|
    {
      var _ := HoldAndSubmit(batch, reply, idsRead, persists, now);
      steps := DispatchReaches(cfg, w, windowsOn, batch, reply, idsRead, persists);
      v := AfterBatch(cfg, w, windowsOn, batch, reply, idsRead, persists);
      MirrorsAfter(w, v,
                   OutcomeOf(cfg, w.ledger, w.cadence, windowsOn, batch, reply, idsRead, w.now), |batch|,
                   Persisted(OutcomeOf(cfg, w.ledger, w.cadence, windowsOn, batch, reply, idsRead, w.now).decision, persists));
    }

    /** An object that shows a batch's outcome mirrors the world that has it. */
    lemma MirrorsAfter(w: World, v: World, out: Outcome, size: nat, durable: bool)
      requires BatchDone(w, v, out, size, durable) && w.up && w.stage == Ready && Wired()
      requires holds.View() == out.ledger && pipeline.View() == out.next && position == w.dispatched + size
      requires core.queue == w.queue + Submission(out.decision, w.dispatched, position, durable, w.now)
      requires core.log == w.log && core.cursor == w.cursor && core.checkpointBlocked == w.latch
      ensures Mirrors(v)
    {
    }

    /** The release's forwarded events as one batch without an offset; the window is in
    flight from just before the submission. */
    method SubmitRelease(events: seq<Event>, release: HeldRelease, now: real, persists: Suppression -> bool)
      returns (submitted: bool)
      requires Wired()
      modifies pipeline, holds`inFlight, core`queue
      ensures var ev := Evaluate(cfg, old(pipeline.View()), events, now, Some(release));
        && pipeline.View() == ev.next && submitted == ev.decision.turn.Some?
        && (!submitted ==> holds.inFlight == old(holds.inFlight) && core.queue == old(core.queue))
        && (submitted ==>
              && holds.inFlight == old(holds.inFlight)[release.windowId := ItemKeys(ev.decision.turn.value.items)]
              && core.queue == old(core.queue) + [Release(ev.decision.turn.value, release.windowId, now)])
    {
      var decision := pipeline.EvaluateBatch(events, now, Some(release));
      var _ := WriteSuppressions(decision.suppressions, persists);
      if decision.turn.None? { return false; }
      var turn := decision.turn.value;
      holds.BeginRelease(release.windowId, ItemKeys(turn.items));
      core.Submit(Release(turn, release.windowId, now));
      submitted := true;
    }

    // --- Flush ---------------------------------------------------------------------------

    /** Everything received so far is the topic from `origin` on. */
    ghost predicate Tracks(w: World, origin: nat)
      reads this`loop
    {
      TracksLoop(loop, w, origin)
    }

    /** `steps` of the protocol led from `w` to `v`, where this object now stands. */
    ghost predicate Follows(w: World, steps: seq<Step>, v: World, origin: nat)
      reads this`position, this`loop, core, core.pipeline, core.ledger
    {
      Reaches(cfg, w, steps, v) && SameIntake(w, v) && Mirrors(v) && Tracks(v, origin)
    }

    /** One batch out of the flush. */
    method DispatchNext(batch: seq<Event>, reply: Event -> Reply, idsRead: bool, persists: Suppression -> bool,
                        now: real, ghost w: World, ghost origin: nat)
      returns (ghost steps: seq<Step>, ghost v: World)
      requires InLoop() && CatchUp.Enabled(loop, CatchUp.DispatchOne)
      requires batch == loop.flushing[0] && batch != [] && NextBatch(w, batch)
      requires Mirrors(w) && Tracks(w, origin) && TopicWF(w.topic, w.now) && now == w.now
      modifies this`position, this`loop, pipeline, holds`windows, holds`rows, core`queue
      ensures InLoop() && loop == CatchUp.Apply(window, old(loop), CatchUp.DispatchOne)
      ensures v == AfterBatch(cfg, w, windowsOn, batch, reply, idsRead, persists) && Follows(w, steps, v, origin)
    {
      ghost var before := loop;
      steps, v := DispatchBatch(batch, reply, idsRead, persists, now, w);
      TracksOn(window, before, w, v, origin);
      loop := CatchUp.Apply(window, loop, CatchUp.DispatchOne);
    }

    /** The same, continuing a run already under way. */
    method DispatchFurther(batch: seq<Event>, reply: Event -> Reply, idsRead: bool, persists: Suppression -> bool,
                           now: real, ghost w: World, ghost before: seq<Step>, ghost at: World, ghost origin: nat)
      returns (ghost steps: seq<Step>, ghost v: World)
      requires InLoop() && CatchUp.LoopInv(window, loop) && CatchUp.Enabled(loop, CatchUp.DispatchOne)
      requires batch == loop.flushing[0]
      requires Follows(w, before, at, origin) && TopicWF(w.topic, w.now) && now == w.now
      modifies this`position, this`loop, pipeline, holds`windows, holds`rows, core`queue
      ensures InLoop() && CatchUp.LoopInv(window, loop)
      ensures loop == CatchUp.Apply(window, old(loop), CatchUp.DispatchOne)
      ensures LeftToDispatch(old(loop), loop, old(loop.flushing[1..]))
      ensures v == AfterBatch(cfg, at, windowsOn, batch, reply, idsRead, persists) && Follows(w, steps, v, origin)
    {
      CatchUp.StepKeepsLoop(window, loop, CatchUp.DispatchOne);
      HeadIsNextBatch(window, loop, at, origin);
      ghost var more;
      more, v := DispatchNext(batch, reply, idsRead, persists, now, at, origin);
      ReachesOn(cfg, w, before, at, more, v);
      steps := before + more;
    }

    /** One batch of a flush, in its turn. */
    method DispatchInTurn(batches: seq<seq<Event>>, i: nat, reply: Event -> Reply, idsRead: bool, persists: Suppression -> bool,
                          now: real, ghost start: CatchUp.Loop, ghost w: World, ghost before: seq<Step>, ghost at: World,
                          ghost origin: nat)
      returns (ghost steps: seq<Step>, ghost v: World)
      requires InLoop() && CatchUp.LoopInv(window, loop) && start.inProgress && i < |batches|
      requires LeftToDispatch(start, loop, batches[i..])
      requires Follows(w, before, at, origin) && TopicWF(w.topic, w.now) && now == w.now
      modifies this`position, this`loop, pipeline, holds`windows, holds`rows, core`queue
      ensures InLoop() && CatchUp.LoopInv(window, loop) && LeftToDispatch(start, loop, batches[i + 1..])
      ensures v == AfterBatch(cfg, at, windowsOn, batches[i], reply, idsRead, persists) && Follows(w, steps, v, origin)
    {
      RestOf(batches, i);
      steps, v := DispatchFurther(batches[i], reply, idsRead, persists, now, w, before, at, origin);
    }

    method DispatchAll(batches: seq<seq<Event>>, reply: Event -> Reply, idsRead: nat -> bool,
                       persists: Suppression -> bool, now: real, ghost w: World, ghost origin: nat)
      returns (ghost steps: seq<Step>)
      requires InLoop() && CatchUp.LoopInv(window, loop) && dispatchInProgress && batches == loop.flushing
      requires Mirrors(w) && Tracks(w, origin) && TopicWF(w.topic, w.now) && now == w.now
      modifies this`position, this`loop, pipeline, holds`windows, holds`rows, core`queue
      ensures InLoop() && CatchUp.LoopInv(window, loop)
      ensures loop == old(loop).(dispatched := loop.dispatched, flushing := [])
      ensures Follows(w, steps, AfterFlush(cfg, w, windowsOn, batches, reply, idsRead, persists), origin)
    {
      steps := [];
      ghost var start, at := loop, w;
      ReachesNow(cfg, w);
      var i := 0;
      while i < |batches|
        invariant 0 <= i <= |batches|
        invariant InLoop() && CatchUp.LoopInv(window, loop) && LeftToDispatch(start, loop, batches[i..])
        invariant at == AfterFlush(cfg, w, windowsOn, batches[..i], reply, idsRead, persists)
        invariant Follows(w, steps, at, origin)
      {
        AfterFlushNext(cfg, w, windowsOn, batches, i, reply, idsRead, persists);
        steps, at := DispatchInTurn(batches, i, reply, idsRead(i), persists, now, start, w, steps, at, origin);
        i := i + 1;
      }
      AllTaken(batches, i);
    }

    /** The flag is set before the batches leave the instance. */
    method BeginFlush() returns (batches: seq<seq<Event>>)
      requires InLoop() && CatchUp.LoopInv(window, loop) && CatchUp.Enabled(loop, CatchUp.FlushBatches)
      modifies this`dispatchInProgress, this`ready, this`debouncer, this`loop, debouncer
      ensures InLoop() && CatchUp.LoopInv(window, loop) && dispatchInProgress && batches == loop.flushing
      ensures loop == CatchUp.Apply(window, old(loop), CatchUp.FlushBatches)
    {
      dispatchInProgress := true;
      CatchUp.StepKeepsLoop(window, loop, CatchUp.FlushBatches);
      batches := FlushReady();
      loop := CatchUp.Apply(window, loop, CatchUp.FlushBatches);
    }

    method EndFlush()
      requires InLoop() && CatchUp.LoopInv(window, loop) && CatchUp.Enabled(loop, CatchUp.FinishDispatch)
      modifies this`dispatchInProgress, this`loop
      ensures InLoop() && CatchUp.LoopInv(window, loop) && loop == CatchUp.Apply(window, old(loop), CatchUp.FinishDispatch)
      ensures loop.received == loop.dispatched + loop.queue && !dispatchInProgress
    {
      dispatchInProgress := false;
      loop := FinishedLoop(window, loop);
    }

    /** The end of a debounce window: flush, then dispatch every batch in order. All that was
    received before is dispatched, as steps of both systems. */
    method FlushAndDispatch(reply: Event -> Reply, idsRead: nat -> bool, persists: Suppression -> bool,
                            now: real, ghost w: World, ghost origin: nat)
      returns (ghost steps: seq<Step>)
      requires InLoop() && CatchUp.LoopInv(window, loop) && CatchUp.Enabled(loop, CatchUp.FlushBatches)
      requires Mirrors(w) && Tracks(w, origin) && TopicWF(w.topic, w.now) && now == w.now
      modifies this, debouncer, pipeline, holds`windows, holds`rows, core`queue
      ensures InLoop() && CatchUp.LoopInv(window, loop)
      ensures var batches := CatchUp.Apply(window, old(loop), CatchUp.FlushBatches).flushing;
        Follows(w, steps, AfterFlush(cfg, w, windowsOn, batches, reply, idsRead, persists), origin)
      ensures loop.received == old(loop.received) == loop.dispatched + loop.queue
      ensures !dispatchInProgress && debouncer == null && ready == [] && queue == old(queue)
    {
      var batches := BeginFlush();
      steps := DispatchAll(batches, reply, idsRead, persists, now, w, origin);
      EndFlush();
    }
  }
}
