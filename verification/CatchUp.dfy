/** The coordinator's loop as a transition system: pump, debounce, flush, dispatch, and the
keepalive flag `caught_up` reads (`henk/events/coordinator.py`).

A step is the code between two suspension points. The debounce deadline runs on the
monotonic clock and arrival times on the wall clock, so a flush may happen at any time
whatever the buffer holds. `received` and `dispatched` are histories, for stating what is
conserved; `mark` and `backlog` are the subscription's, of which `owed` is still to come.
*/
module CatchUp {
  import opened Common
  import opened Cadence
  import opened Debounce

  datatype Loop = Loop(
    queue: seq<Event>, open: Option<Buffer>, ready: seq<seq<Event>>,
    inProgress: bool, flushing: seq<seq<Event>>,
    subscribed: bool, keepalive: bool, firstSubscribe: Option<real>,
    received: seq<Event>, dispatched: seq<Event>,
    mark: nat, backlog: seq<Event>, owed: seq<Event>)

  const IDLE_LOOP := Loop([], None, [], false, [], false, false, None, [], [], 0, [], [])

  /** `Subscribe` names the backlog the server owes that subscription; a server sends it
  before its first keepalive. `FinishDispatch` is the return of the last dispatch. */
  datatype Step =
    | Subscribe(backlog: seq<Event>, at: real)
    | Message(e: Event)
    | Keepalive
    | Unsubscribe
    | TakeFirst
    | TakeNext
    | FlushBatches
    | DispatchOne
    | FinishDispatch

  predicate Enabled(s: Loop, step: Step) {
    match step
    case Subscribe(_, _) => !s.subscribed
    case Message(e) => s.subscribed && (s.owed != [] ==> e == s.owed[0])
    case Keepalive => s.subscribed && s.owed == []
    case Unsubscribe => s.subscribed
    case TakeFirst => !s.inProgress && s.open.None? && s.queue != []
    case TakeNext => !s.inProgress && s.open.Some? && s.queue != []
    case FlushBatches => !s.inProgress && s.open.Some?
    case DispatchOne => s.inProgress && s.flushing != []
    case FinishDispatch => s.inProgress && s.flushing == []
  }

  /** One event from the queue into the debouncer; a batch it closes joins `ready`. */
  function FeedHead(window: real, s: Loop, buffer: Buffer): Loop
    requires s.queue != []
  {
    var fed := Feed(window, buffer, s.queue[0]);
    s.(queue := s.queue[1..], open := Some(fed.next),
       ready := if fed.completed.Some? && fed.completed.value != [] then s.ready + [fed.completed.value] else s.ready)
  }

  function Apply(window: real, s: Loop, step: Step): Loop
    requires Enabled(s, step)
  {
    match step
    case Subscribe(backlog, at) =>
      s.(subscribed := true, keepalive := false, mark := |s.received|, backlog := backlog, owed := backlog,
         firstSubscribe := if s.firstSubscribe.None? then Some(at) else s.firstSubscribe)
    case Message(e) =>
      s.(queue := s.queue + [e], received := s.received + [e], owed := if s.owed == [] then [] else s.owed[1..])
    case Keepalive => s.(keepalive := true)
    case Unsubscribe => s.(subscribed := false, keepalive := false)
    case TakeFirst => FeedHead(window, s, IDLE)
    case TakeNext => FeedHead(window, s, s.open.value)
    case FlushBatches =>
      var last := s.open.value.batch;
      s.(inProgress := true, ready := [], open := None, flushing := s.ready + if last == [] then [] else [last])
    case DispatchOne => s.(dispatched := s.dispatched + s.flushing[0], flushing := s.flushing[1..])
    case FinishDispatch => s.(inProgress := false)
  }

  predicate CaughtUp(s: Loop) {
    s.keepalive && s.queue == [] && s.open.None? && s.ready == [] && !s.inProgress
  }

  function OpenBatch(s: Loop): seq<Event> { if s.open.Some? then s.open.value.batch else [] }

  /** Everything received and not yet dispatched, in order. */
  function Pending(s: Loop): seq<Event> { Flat(s.flushing) + Flat(s.ready) + OpenBatch(s) + s.queue }

  ghost predicate Conserved(s: Loop) { s.received == s.dispatched + Pending(s) }

  /** What this subscription has delivered is the start of its backlog, then newer messages. */
  ghost predicate BacklogOrder(s: Loop) {
    && s.mark <= |s.received| && |s.owed| <= |s.backlog|
    && s.owed == s.backlog[|s.backlog| - |s.owed|..]
    && s.backlog[..|s.backlog| - |s.owed|] <= s.received[s.mark..]
    && (s.owed != [] ==> |s.received| - s.mark == |s.backlog| - |s.owed|)
  }

  ghost predicate Shape(window: real, s: Loop) {
    && (s.open.Some? ==> BufferWF(window, s.open.value))
    && (s.keepalive ==> s.subscribed && s.owed == [])
    && (!s.inProgress ==> s.flushing == [])
    && (s.inProgress ==> s.ready == [] && s.open.None?)
    && (forall i :: 0 <= i < |s.ready| ==> s.ready[i] != [])
    && (forall i :: 0 <= i < |s.flushing| ==> s.flushing[i] != [])
  }

  ghost predicate LoopInv(window: real, s: Loop) { Conserved(s) && BacklogOrder(s) && Shape(window, s) }

  lemma FeedHeadConserves(window: real, s: Loop, buffer: Buffer)
    requires s.queue != [] && BufferWF(window, buffer) && OpenBatch(s) == buffer.batch
    ensures Pending(FeedHead(window, s, buffer)) == Pending(s)
    ensures BufferWF(window, FeedHead(window, s, buffer).open.value)
  {
    var fed := Feed(window, buffer, s.queue[0]);
    var f, r, b, q := Flat(s.flushing), Flat(s.ready), buffer.batch, s.queue;
    assert q == [q[0]] + q[1..];
    if fed.completed.Some? {
      FlatAppend(s.ready, b);
      Moved(f + r + b, [q[0]], q[1..]);
      Assoc(f, r, b);
    } else {
      if fed.next.batch == [q[0]] { assert b + [q[0]] == [q[0]]; }
      Regrouped(f + r, b, [q[0]], q[1..]);
    }
  }

  lemma Moved(a: seq<Event>, x: seq<Event>, rest: seq<Event>)
    ensures a + x + rest == a + (x + rest)
  {
  }

  lemma Regrouped(a: seq<Event>, b: seq<Event>, x: seq<Event>, rest: seq<Event>)
    ensures a + (b + x) + rest == a + b + (x + rest)
  {
  }

  lemma FlushConserves(window: real, s: Loop)
    requires Enabled(s, FlushBatches) && s.flushing == []
    ensures Pending(Apply(window, s, FlushBatches)) == Pending(s)
  {
    var last, none := s.open.value.batch, Flat<Event>([]);
    assert none == [];
    if last == [] { assert s.ready + [] == s.ready; } else { FlatAppend(s.ready, last); }
    Flushed(Flat(s.ready), last, s.queue);
  }

  lemma Flushed(a: seq<Event>, b: seq<Event>, c: seq<Event>)
    ensures [] + a + b + c == (a + b) + [] + [] + c
    ensures b == [] ==> a + b == a
  {
  }

  lemma DispatchConserves(window: real, s: Loop)
    requires Enabled(s, DispatchOne)
    ensures s.flushing[0] + Pending(Apply(window, s, DispatchOne)) == Pending(s)
  {
    var first, rest := s.flushing[0], s.flushing[1..];
    assert s.flushing == [first] + rest;
    FlatJoin([first], rest);
    FlatOne(first);
    Peeled(first, Flat(rest), Flat(s.ready), OpenBatch(s), s.queue);
  }

  lemma FlatOne(group: seq<Event>)
    ensures Flat([group]) == group
  {
    FlatAppend([], group);
    assert [] + [group] == [group];
  }

  lemma Peeled(a: seq<Event>, b: seq<Event>, c: seq<Event>, d: seq<Event>, e: seq<Event>)
    ensures a + (b + c + d + e) == (a + b) + c + d + e
  {
  }

  lemma MessageKeepsBacklog(window: real, s: Loop, e: Event)
    requires Enabled(s, Message(e)) && BacklogOrder(s)
    ensures BacklogOrder(Apply(window, s, Message(e)))
  {
    var t := Apply(window, s, Message(e));
    assert t.received[t.mark..] == s.received[s.mark..] + [e];
    if s.owed != [] {
      var n := |s.backlog| - |s.owed|;
      assert s.backlog[n] == e;
      assert s.backlog[..n + 1] == s.backlog[..n] + [e];
    }
  }

  lemma MessageConserves(window: real, s: Loop, e: Event)
    requires Conserved(s) && Enabled(s, Message(e))
    ensures Conserved(Apply(window, s, Message(e)))
  {
    var before := Flat(s.flushing) + Flat(s.ready) + OpenBatch(s);
    Assoc(before, s.queue, [e]);
    Assoc(s.dispatched, before + s.queue, [e]);
  }

  lemma DispatchedConserves(window: real, s: Loop)
    requires Conserved(s) && Enabled(s, DispatchOne)
    ensures Conserved(Apply(window, s, DispatchOne))
  {
    DispatchConserves(window, s);
    Assoc(s.dispatched, s.flushing[0], Pending(Apply(window, s, DispatchOne)));
  }

  lemma StepConserves(window: real, s: Loop, step: Step)
    requires Conserved(s) && Shape(window, s) && Enabled(s, step)
    ensures Conserved(Apply(window, s, step))
  {
    match step
    case Subscribe(_, _) =>
    case Message(e) => MessageConserves(window, s, e);
    case Keepalive =>
    case Unsubscribe =>
    case TakeFirst => FeedHeadConserves(window, s, IDLE);
    case TakeNext => FeedHeadConserves(window, s, s.open.value);
    case FlushBatches => FlushConserves(window, s);
    case DispatchOne => DispatchedConserves(window, s);
    case FinishDispatch =>
  }

  lemma StepKeepsShape(window: real, s: Loop, step: Step)
    requires Shape(window, s) && Enabled(s, step)
    ensures Shape(window, Apply(window, s, step))
  {
    match step
    case TakeFirst => FeedHeadConserves(window, s, IDLE);
    case TakeNext => FeedHeadConserves(window, s, s.open.value);
    case _ =>
  }

  lemma StepKeepsBacklog(window: real, s: Loop, step: Step)
    requires BacklogOrder(s) && Enabled(s, step)
    ensures BacklogOrder(Apply(window, s, step))
  {
    match step
    case Subscribe(_, _) => assert s.received[|s.received|..] == [];
    case Message(e) => MessageKeepsBacklog(window, s, e);
    case _ =>
  }

  lemma StepKeepsLoop(window: real, s: Loop, step: Step)
    requires LoopInv(window, s) && Enabled(s, step)
    ensures LoopInv(window, Apply(window, s, step))
  {
    StepConserves(window, s, step);
    StepKeepsShape(window, s, step);
    StepKeepsBacklog(window, s, step);
  }

  ghost predicate Legal(window: real, s: Loop, steps: seq<Step>)
    decreases |steps|
  {
    steps == [] || (Enabled(s, steps[0]) && Legal(window, Apply(window, s, steps[0]), steps[1..]))
  }

  ghost function Run(window: real, s: Loop, steps: seq<Step>): Loop
    requires Legal(window, s, steps)
    decreases |steps|
  {
    if steps == [] then s else Run(window, Apply(window, s, steps[0]), steps[1..])
  }

  ghost predicate Reaches(window: real, s: Loop, steps: seq<Step>, t: Loop) {
    Legal(window, s, steps) && Run(window, s, steps) == t
  }

  lemma {:induction false} Then(window: real, s: Loop, steps: seq<Step>, t: Loop, step: Step)
    requires Reaches(window, s, steps, t) && Enabled(t, step)
    ensures Reaches(window, s, steps + [step], Apply(window, t, step))
    decreases |steps|
  {
    if steps == [] {
      assert ([] + [step])[1..] == [];
    } else {
      Then(window, Apply(window, s, steps[0]), steps[1..], t, step);
      assert (steps + [step])[1..] == steps[1..] + [step];
    }
  }

  /** The batch being dispatched is the next part of what was received. */
  lemma HeadBatchIsNext(window: real, s: Loop)
    requires LoopInv(window, s) && s.flushing != []
    ensures |s.dispatched| + |s.flushing[0]| <= |s.received|
    ensures s.received[|s.dispatched|..|s.dispatched| + |s.flushing[0]|] == s.flushing[0]
  {
    DispatchConserves(window, s);
    assert s.received == s.dispatched + (s.flushing[0] + Pending(Apply(window, s, DispatchOne)));
  }

  lemma {:induction false} RunKeepsLoop(window: real, s: Loop, steps: seq<Step>)
    requires LoopInv(window, s) && Legal(window, s, steps)
    ensures LoopInv(window, Run(window, s, steps))
    decreases |steps|
  {
    if steps != [] {
      StepKeepsLoop(window, s, steps[0]);
      RunKeepsLoop(window, Apply(window, s, steps[0]), steps[1..]);
    }
  }

  lemma StartLoop(window: real)
    ensures LoopInv(window, IDLE_LOOP)
  {
    var e: seq<seq<Event>> := [];
    assert Flat(e) == [];
  }

  /** Over any run nothing received is lost, repeated or reordered: what was dispatched is
  followed by the batches being dispatched, the closed batches, the open batch, the queue. */
  lemma EventsAreConserved(window: real, steps: seq<Step>)
    requires Legal(window, IDLE_LOOP, steps)
    ensures var s := Run(window, IDLE_LOOP, steps);
      s.received == s.dispatched + Flat(s.flushing) + Flat(s.ready) + OpenBatch(s) + s.queue
  {
    StartLoop(window);
    RunKeepsLoop(window, IDLE_LOOP, steps);
    var s := Run(window, IDLE_LOOP, steps);
    assert s.dispatched + Pending(s) == s.dispatched + Flat(s.flushing) + Flat(s.ready) + OpenBatch(s) + s.queue;
  }

  /** `caught_up` is sound: when it holds, everything ever received was dispatched, and the
  current subscription's whole backlog is in what was dispatched since it began. */
  lemma CaughtUpIsSound(window: real, steps: seq<Step>)
    requires Legal(window, IDLE_LOOP, steps) && CaughtUp(Run(window, IDLE_LOOP, steps))
    ensures var s := Run(window, IDLE_LOOP, steps);
      && s.subscribed && s.received == s.dispatched
      && s.mark <= |s.dispatched| && s.backlog <= s.dispatched[s.mark..]
  {
    StartLoop(window);
    RunKeepsLoop(window, IDLE_LOOP, steps);
    var s := Run(window, IDLE_LOOP, steps);
    assert s.flushing == [] && s.ready == [];
    assert Pending(s) == [];
    assert s.backlog[..|s.backlog|] == s.backlog;
  }

  // --- When it holds ---------------------------------------------------------------------

  /** An open batch is never empty, and closed ones wait only behind an open one. */
  predicate OpenFirst(s: Loop) {
    (s.open.Some? ==> s.open.value.batch != []) && (s.open.None? ==> s.ready == [])
  }

  lemma {:induction false} RunKeepsOpenFirst(window: real, s: Loop, steps: seq<Step>)
    requires LoopInv(window, s) && OpenFirst(s) && Legal(window, s, steps)
    ensures OpenFirst(Run(window, s, steps))
    decreases |steps|
  {
    if steps != [] {
      StepKeepsLoop(window, s, steps[0]);
      RunKeepsOpenFirst(window, Apply(window, s, steps[0]), steps[1..]);
    }
  }

  /** A keepalive came, and since then no subscription began or ended. */
  ghost predicate KeptAlive(steps: seq<Step>) {
    exists k :: 0 <= k < |steps| && steps[k] == Keepalive && SameSubscription(steps, k)
  }

  ghost predicate SameSubscription(steps: seq<Step>, k: int) {
    forall j :: k < j < |steps| && 0 <= j ==> !steps[j].Subscribe? && !steps[j].Unsubscribe?
  }

  lemma {:induction false} KeepaliveIs(window: real, s: Loop, steps: seq<Step>)
    requires Legal(window, s, steps)
    ensures Run(window, s, steps).keepalive <==> KeptAlive(steps) || (s.keepalive && SameSubscription(steps, -1))
    decreases |steps|
  {
    if steps != [] {
      var first, rest := steps[0], steps[1..];
      KeepaliveIs(window, Apply(window, s, first), rest);
      if k :| 0 <= k < |steps| && steps[k] == Keepalive && SameSubscription(steps, k) {
        if k == 0 { assert SameSubscription(rest, -1); } else { assert rest[k - 1] == Keepalive && SameSubscription(rest, k - 1); }
      }
      if k :| 0 <= k < |rest| && rest[k] == Keepalive && SameSubscription(rest, k) {
        forall j | k + 1 < j < |steps| ensures !steps[j].Subscribe? && !steps[j].Unsubscribe? { assert steps[j] == rest[j - 1]; }
        assert steps[k + 1] == Keepalive && SameSubscription(steps, k + 1);
      }
      if SameSubscription(rest, -1) {
        forall j | 0 < j < |steps| ensures !steps[j].Subscribe? && !steps[j].Unsubscribe? { assert steps[j] == rest[j - 1]; }
      }
    }
  }

  lemma FlatEmpty(groups: seq<seq<Event>>)
    requires forall i :: 0 <= i < |groups| ==> groups[i] != []
    ensures Flat(groups) == [] <==> groups == []
  {
  }

  /** `caught_up` holds exactly when the current subscription has shown a keepalive, all that
  was ever received is dispatched, and the last dispatch has returned. */
  lemma CaughtUpIff(window: real, steps: seq<Step>)
    requires Legal(window, IDLE_LOOP, steps)
    ensures var s := Run(window, IDLE_LOOP, steps);
      CaughtUp(s) <==> KeptAlive(steps) && s.received == s.dispatched && !s.inProgress
  {
    StartLoop(window);
    RunKeepsLoop(window, IDLE_LOOP, steps);
    RunKeepsOpenFirst(window, IDLE_LOOP, steps);
    KeepaliveIs(window, IDLE_LOOP, steps);
    var s := Run(window, IDLE_LOOP, steps);
    if CaughtUp(s) {
      assert Pending(s) == [];
    } else if s.received == s.dispatched {
      assert |s.received| == |s.dispatched| + |Pending(s)|;
      assert Pending(s) == [];
      FlatEmpty(s.ready);
    }
  }

  /** A subscription is open exactly when the last such step was its beginning. */
  lemma {:induction false} SubscribedIs(window: real, s: Loop, steps: seq<Step>)
    requires Legal(window, s, steps)
    ensures Run(window, s, steps).subscribed <==>
              (exists k :: 0 <= k < |steps| && steps[k].Subscribe? && SameSubscription(steps, k))
              || (s.subscribed && SameSubscription(steps, -1))
    decreases |steps|
  {
    if steps != [] {
      var rest := steps[1..];
      SubscribedIs(window, Apply(window, s, steps[0]), rest);
      if k :| 0 <= k < |steps| && steps[k].Subscribe? && SameSubscription(steps, k) {
        if k == 0 { assert SameSubscription(rest, -1); } else { assert rest[k - 1].Subscribe? && SameSubscription(rest, k - 1); }
      }
      if k :| 0 <= k < |rest| && rest[k].Subscribe? && SameSubscription(rest, k) {
        forall j | k + 1 < j < |steps| ensures !steps[j].Subscribe? && !steps[j].Unsubscribe? { assert steps[j] == rest[j - 1]; }
        assert steps[k + 1].Subscribe? && SameSubscription(steps, k + 1);
      }
      if SameSubscription(rest, -1) {
        forall j | 0 < j < |steps| ensures !steps[j].Subscribe? && !steps[j].Unsubscribe? { assert steps[j] == rest[j - 1]; }
      }
    }
  }

  ghost predicate IsFirstSubscribe(steps: seq<Step>, k: nat) {
    k < |steps| && steps[k].Subscribe? && forall j :: 0 <= j < k ==> !steps[j].Subscribe?
  }

  /** The fallback is counted from the process's first subscribe attempt, whatever came after. */
  lemma {:induction false} FirstSubscribeIs(window: real, s: Loop, steps: seq<Step>)
    requires Legal(window, s, steps)
    ensures s.firstSubscribe.Some? ==> Run(window, s, steps).firstSubscribe == s.firstSubscribe
    ensures s.firstSubscribe.None? ==>
              && (forall k: nat :: IsFirstSubscribe(steps, k) ==> Run(window, s, steps).firstSubscribe == Some(steps[k].at))
              && ((forall j :: 0 <= j < |steps| ==> !steps[j].Subscribe?) ==> Run(window, s, steps).firstSubscribe.None?)
    decreases |steps|
  {
    if steps != [] {
      var next, rest := Apply(window, s, steps[0]), steps[1..];
      FirstSubscribeIs(window, next, rest);
      forall k: nat | IsFirstSubscribe(steps, k) && s.firstSubscribe.None?
        ensures Run(window, s, steps).firstSubscribe == Some(steps[k].at)
      {
        if k > 0 { assert IsFirstSubscribe(rest, k - 1); }
      }
    }
  }

  /** Neither receives nor reconnects. */
  predicate Inward(step: Step) { !step.Subscribe? && !step.Message? && !step.Unsubscribe? }

  lemma {:induction false} Settles(window: real, s: Loop) returns (more: seq<Step>)
    requires LoopInv(window, s) && OpenFirst(s) && s.subscribed && s.owed == []
    ensures Legal(window, s, more) && CaughtUp(Run(window, s, more))
    ensures forall i :: 0 <= i < |more| ==> Inward(more[i])
    decreases |s.queue|, if s.open.Some? then 1 else 0, |s.flushing|, if s.inProgress then 1 else 0
  {
    var step :=
      if s.inProgress then if s.flushing != [] then DispatchOne else FinishDispatch
      else if s.queue != [] then if s.open.None? then TakeFirst else TakeNext
      else if s.open.Some? then FlushBatches
      else Keepalive;
    StepKeepsLoop(window, s, step);
    if step == Keepalive {
      more := [Keepalive];
      assert more[1..] == [];
      assert Legal(window, Apply(window, s, Keepalive), more[1..]);
    } else {
      var rest := Settles(window, Apply(window, s, step));
      more := [step] + rest;
      assert more[1..] == rest;
    }
  }

  /** Once a subscription's backlog has come, the loop can always catch up without receiving
  or reconnecting: a keepalive is all it needs from outside. */
  lemma CanCatchUp(window: real, steps: seq<Step>) returns (more: seq<Step>)
    requires Legal(window, IDLE_LOOP, steps)
    requires Run(window, IDLE_LOOP, steps).subscribed && Run(window, IDLE_LOOP, steps).owed == []
    ensures Legal(window, Run(window, IDLE_LOOP, steps), more) && CaughtUp(Run(window, Run(window, IDLE_LOOP, steps), more))
    ensures forall i :: 0 <= i < |more| ==> Inward(more[i])
  {
    StartLoop(window);
    RunKeepsLoop(window, IDLE_LOOP, steps);
    RunKeepsOpenFirst(window, IDLE_LOOP, steps);
    more := Settles(window, Run(window, IDLE_LOOP, steps));
  }
}
