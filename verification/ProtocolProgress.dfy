/** The cursor keeps up: while the durable writes succeed, nothing dispatched stays behind it
(`dispatch_batch` of `henk/events/coordinator.py`, `_flush_event_triage` of
`henk/agent/core.py`). The other half of no alert being lost is that none is replayed forever. */
module ProtocolProgress {
  import opened Common
  import opened Cadence
  import opened Holds
  import opened Protocol
  import opened ProtocolInvariant
  import opened ProtocolTheorems

  /** Its durable writes, if any, succeed, and the process goes on. A failed mark of a window
  is no matter here. */
  predicate Healthy(s: Step) {
    match s
    case Dispatch(_, _, suppressionsWritten, _) => suppressionsWritten
    case WriteRecord(ok, _) => ok
    case AdvanceCursor(ok) => ok
    case ShutdownFlush(_) => false
    case Crash => false
    case Restart => false
    case _ => true
  }

  /** Where the cursor will stand once the queue is worked off. */
  function Reached(queue: seq<Item>, cursor: nat): nat {
    if queue == [] then cursor
    else if HasOffset(queue[|queue| - 1]) then queue[|queue| - 1].hi
    else Reached(queue[..|queue| - 1], cursor)
  }

  predicate KeepsUp(w: World) { w.up && !w.latch && Reached(w.queue, w.cursor) == w.dispatched }

  lemma {:induction false} HeadWorkedOff(queue: seq<Item>, cursor: nat)
    requires queue != []
    ensures Reached(queue, cursor) == Reached(queue[1..], if HasOffset(queue[0]) then queue[0].hi else cursor)
  {
    if |queue| > 1 && !HasOffset(queue[|queue| - 1]) {
      var front := queue[..|queue| - 1];
      HeadWorkedOff(front, cursor);
      assert queue[1..][..|queue| - 2] == front[1..];
    }
  }

  lemma StepKeepsUp(cfg: Config, w: World, s: Step)
    requires Enabled(w, s) && Healthy(s) && KeepsUp(w)
    ensures KeepsUp(Apply(cfg, w, s))
  {
    match s
    case Dispatch(batch, keep, written, _) =>
      var v := Dispatched(cfg, w, batch, keep, written);
      assert |v.queue| == |w.queue| + 1 && v.queue[|w.queue|].hi == v.dispatched && HasOffset(v.queue[|w.queue|]);
    case ReleaseTick(r, markFails, written) =>
      var v := Released(cfg, w, r, markFails, written);
      if |v.queue| > |w.queue| { assert v.queue[..|w.queue|] == w.queue; }
    case MarkWindow(_, _) => HeadWorkedOff(w.queue, w.cursor);
    case AdvanceCursor(_) => HeadWorkedOff(w.queue, w.cursor);
    case _ =>
  }

  lemma {:induction false} RunKeepsUp(cfg: Config, w: World, steps: seq<Step>)
    requires Legal(cfg, w, steps) && KeepsUp(w) && forall i :: 0 <= i < |steps| ==> Healthy(steps[i])
    ensures KeepsUp(Run(cfg, w, steps))
    decreases |steps|
  {
    if steps != [] {
      StepKeepsUp(cfg, w, steps[0]);
      RunKeepsUp(cfg, Apply(cfg, w, steps[0]), steps[1..]);
    }
  }

  /** From any restart on, while every write succeeds, the work on the queue takes the cursor to
  all that was dispatched: with the queue worked off nothing is left for a further restart
  to replay. */
  lemma HealthyCursorCatchesUp(cfg: Config, before: seq<Step>, steps: seq<Step>)
    requires ConfigWF(cfg) && Legal(cfg, START, before) && !Run(cfg, START, before).up
    requires Legal(cfg, Apply(cfg, Run(cfg, START, before), Restart), steps)
    requires forall i :: 0 <= i < |steps| ==> Healthy(steps[i])
    ensures var v := Run(cfg, Apply(cfg, Run(cfg, START, before), Restart), steps);
      && Reached(v.queue, v.cursor) == v.dispatched && (v.queue == [] ==> v.cursor == v.dispatched)
  {
    var w := Run(cfg, START, before);
    StartInv(cfg);
    RunKeepsInv(cfg, START, before);
    RunKeepsUp(cfg, Apply(cfg, w, Restart), steps);
  }

  /** And the queue can always be worked off by steps of the core alone, one item at a time. */
  lemma {:induction false} QueueWorksOff(cfg: Config, w: World) returns (steps: seq<Step>)
    requires KeepsUp(w) && (w.stage == Written ==> w.queue != [] && !w.queue[0].Marker?)
    ensures Legal(cfg, w, steps) && forall i :: 0 <= i < |steps| ==> Healthy(steps[i])
    ensures var v := Run(cfg, w, steps);
      v.queue == [] && v.cursor == v.dispatched == w.dispatched && v.topic == w.topic && |v.log| >= |w.log|
    decreases |w.queue|, if w.stage == Ready then 1 else 0
  {
    if w.queue == [] {
      steps := [];
    } else {
      var step :=
        if w.queue[0].Marker? then AdvanceCursor(true)
        else if w.stage == Ready then WriteRecord(true, "")
        else if w.queue[0].Release? then MarkWindow(false, true)
        else AdvanceCursor(true);
      StepKeepsUp(cfg, w, step);
      var rest := QueueWorksOff(cfg, Apply(cfg, w, step));
      steps := [step] + rest;
      assert steps[1..] == rest;
    }
  }
}
