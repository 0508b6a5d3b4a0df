/** The durable half of one core turn: `process`, `_flush_event_triage` and
`_advance_checkpoint` of `henk/agent/core.py`.

`AgentCore` owns the queue, the audit log, the cursor and the latch, and shares the hold
ledger and the pipeline, which hears of every handoff. Processing the head of the queue is proved to be the protocol's own steps. Owner
turns touch none of this state and are not items of the queue here.
*/
module Core {
  import opened Common
  import opened Cadence
  import opened Holds
  import opened Protocol

  /** The protocol steps one queue item takes, given how its durable writes turn out. */
  function HeadSteps(it: Item, handoff: string, auditOk: bool, cursorOk: bool, markFails: bool, receiptWritten: bool): seq<Step> {
    if it.Marker? then [AdvanceCursor(cursorOk)]
    else if !auditOk then [WriteRecord(false, handoff)]
    else [WriteRecord(true, handoff), if it.Release? then MarkWindow(markFails, receiptWritten) else AdvanceCursor(cursorOk)]
  }

  class AgentCore {
    const ledger: HoldLedger
    const pipeline: EventPipeline
    var queue: seq<Item>
    var log: seq<Triage>
    var cursor: nat
    var checkpointBlocked: bool

    /** Between two turns this core is what the protocol's world says it is. */
    ghost predicate Mirrors(w: World)
      reads this, ledger, pipeline
    {
      && queue == w.queue && log == w.log && cursor == w.cursor && checkpointBlocked == w.latch
      && ledger.View() == w.ledger && pipeline.View() == w.cadence && w.up && w.stage == Ready
    }

    constructor (ledger: HoldLedger, pipeline: EventPipeline, log: seq<Triage>, cursor: nat)
      ensures this.ledger == ledger && this.pipeline == pipeline
      ensures queue == [] && this.log == log && this.cursor == cursor && !checkpointBlocked
    {
      this.ledger, this.pipeline, this.log, this.cursor := ledger, pipeline, log, cursor;
      queue, checkpointBlocked := [], false;
    }

    method Submit(it: Item)
      modifies this`queue
      ensures queue == old(queue) + [it]
    {
      queue := queue + [it];
    }

    /** Frozen once any record failed; `writes` says whether the cursor file was replaced. */
    method AdvanceCheckpoint(hi: nat, writes: bool)
      modifies this`cursor
      ensures cursor == if writes && !checkpointBlocked then hi else old(cursor)
    {
      if checkpointBlocked || !writes { return; }
      cursor := hi;
    }

    /** Every item's identity learns which handoff its triage produced, if it produced one. */
    method NoteHandoffs(items: seq<TurnItem>, handoff: string)
      modifies pipeline
      ensures pipeline.View() == Noted(old(pipeline.View()), items, handoff)
    {
      if handoff == "" { return; }
      assert items[..0] == [];
      NoteNone(pipeline.View(), handoff);
      var i := 0;
      while i < |items|
        invariant 0 <= i <= |items| && pipeline.View() == Noted(old(pipeline.View()), items[..i], handoff)
      {
        NoteOneMore(old(pipeline.View()), items, i, handoff);
        pipeline.NoteHandoff(items[i].identity.key, handoff);
        i := i + 1;
      }
      assert items[..i] == items;
    }

    /** Write the record, note the handoff, then mark the release's window or advance the
    cursor. A failed write latches, and leaves the window in flight and the cursor where it
    is. */
    method FlushEventTriage(it: Item, at: real, handoff: string, auditOk: bool, cursorOk: bool,
                            markFails: bool, receiptWritten: bool)
      requires !it.Marker?
      modifies this`log, this`cursor, this`checkpointBlocked, ledger, pipeline
      ensures log == old(log) + if auditOk then [Triage(RecordOf(it, at, handoff), it.decidedAt)] else []
      ensures pipeline.View() == Noted(old(pipeline.View()), it.turn.items, handoff)
      ensures checkpointBlocked == (old(checkpointBlocked) || !auditOk)
      ensures cursor == if auditOk && it.Live? && cursorOk && !old(checkpointBlocked) then it.hi else old(cursor)
      ensures ledger.View() == if auditOk && it.Release? then
                                 MarkReleased(old(ledger.View()), it.window, at, markFails, receiptWritten)
                               else old(ledger.View())
    {
      if auditOk { log := log + [Triage(RecordOf(it, at, handoff), it.decidedAt)]; }
      NoteHandoffs(it.turn.items, handoff);
      if auditOk {
        if it.Release? { var _ := ledger.Mark(it.window, at, markFails, receiptWritten); }
        if it.Live? { AdvanceCheckpoint(it.hi, cursorOk); }
      } else {
        checkpointBlocked := true;
      }
    }

    /** One turn off the queue. It is the protocol's steps in the protocol's order. */
    method ProcessHead(ghost cfg: Config, ghost w: World, at: real, handoff: string, auditOk: bool, cursorOk: bool,
                       markFails: bool, receiptWritten: bool)
      requires Mirrors(w) && queue != [] && at == w.now
      modifies this, ledger, pipeline
      ensures var steps := HeadSteps(old(queue[0]), handoff, auditOk, cursorOk, markFails, receiptWritten);
        Legal(cfg, w, steps) && Mirrors(Run(cfg, w, steps))
      ensures queue == old(queue)[1..]
    {
      var head := queue[0];
      queue := queue[1..];
      if head.Marker? {
        AdvanceCheckpoint(head.hi, cursorOk);
        OneStep(cfg, w, AdvanceCursor(cursorOk));
      } else {
        FlushEventTriage(head, at, handoff, auditOk, cursorOk, markFails, receiptWritten);
        if !auditOk {
          OneStep(cfg, w, WriteRecord(false, handoff));
        } else {
          TwoSteps(cfg, w, WriteRecord(true, handoff),
                   if head.Release? then MarkWindow(markFails, receiptWritten) else AdvanceCursor(cursorOk));
        }
      }
    }
  }

  lemma OneStep(cfg: Config, w: World, s: Step)
    requires Enabled(w, s)
    ensures Legal(cfg, w, [s]) && Run(cfg, w, [s]) == Apply(cfg, w, s)
  {
    assert Legal(cfg, Apply(cfg, w, s), []);
    assert [s][1..] == [];
  }

  lemma TwoSteps(cfg: Config, w: World, s: Step, t: Step)
    requires Enabled(w, s) && Enabled(Apply(cfg, w, s), t)
    ensures Legal(cfg, w, [s, t]) && Run(cfg, w, [s, t]) == Apply(cfg, Apply(cfg, w, s), t)
  {
    OneStep(cfg, Apply(cfg, w, s), t);
    assert [s, t][1..] == [t];
  }
}
