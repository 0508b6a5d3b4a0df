/** The core's steps keep the invariant: writing a triage record, failing to write one, and
moving the cursor past a finished item. */
module ProtocolCore {
  import opened Common
  import opened Cadence
  import opened Holds
  import opened Protocol
  import opened ProtocolInvariant

  // --- The record is written -------------------------------------------------------------

  function WrittenWorld(w: World, handoff: string): World
    requires Writable(w)
  {
    w.(log := w.log + [Triage(RecordOf(w.queue[0], w.now, handoff), w.queue[0].decidedAt)], stage := Written,
       cadence := Noted(w.cadence, w.queue[0].turn.items, handoff))
  }

  lemma NewRecord(cfg: Config, w: World, handoff: string)
    requires Writable(w) && TurnsWF(w.queue, w.now)
    ensures var log' := WrittenWorld(w, handoff).log;
      && KeysOf(log'[|w.log|].record) == TurnKeys(w.queue[0]) && AtOf(log'[|w.log|].record) == w.now
      && w.queue[0].decidedAt <= w.now
  {
    RecordKeys(w.queue[0], w.now, handoff);
  }

  lemma WrittenQueued(cfg: Config, w: World, handoff: string, k: string, i: nat, t: real)
    requires Writable(w) && TurnsWF(w.queue, w.now) && Queued(cfg, w.queue, Ready, k, i, t)
    ensures Recorded(cfg, WrittenWorld(w, handoff).log, k, t) || Queued(cfg, w.queue, Written, k, i, t)
  {
    NewRecord(cfg, w, handoff);
    var p: nat :| WillRecord(w.queue, Ready, p, k) && RecentFor(cfg, k, w.queue[p].decidedAt, t) && Behind(w.queue, p, i);
    if p > 0 {
      assert WillRecord(w.queue, Written, p, k);
    } else {
      assert RecentFor(cfg, k, w.now, t);
    }
  }

  lemma WrittenInQueue(cfg: Config, w: World, handoff: string, k: string, t: real)
    requires Writable(w) && TurnsWF(w.queue, w.now) && InQueue(w.queue, Ready, k, t)
    ensures InLog(WrittenWorld(w, handoff).log, k, t) || InQueue(w.queue, Written, k, t)
  {
    NewRecord(cfg, w, handoff);
    var p: nat :| WillRecord(w.queue, Ready, p, k) && t <= w.queue[p].decidedAt;
    if p > 0 { assert WillRecord(w.queue, Written, p, k); }
  }

  lemma WriteKeepsWF(cfg: Config, w: World, handoff: string)
    requires WF(cfg, w) && Writable(w)
    ensures WF(cfg, WrittenWorld(w, handoff))
  {
    NewRecord(cfg, w, handoff);
    LiveWFFrame(cfg, w, WrittenWorld(w, handoff));
  }

  lemma WriteKeepsBacked(cfg: Config, w: World, handoff: string)
    requires Writable(w) && TurnsWF(w.queue, w.now) && CooldownsBacked(cfg, w)
    ensures CooldownsBacked(cfg, WrittenWorld(w, handoff))
  {
    var w' := WrittenWorld(w, handoff);
    forall k | k in w'.cadence.last ensures Backed(cfg, w', k, w'.cadence.last[k]) {
      var t := w.cadence.last[k];
      assert Backed(cfg, w, k, t);
      if InLog(w.log, k, t) {
        LogGrowsInLog(w.log, w'.log[|w.log|..], k, t);
        assert w'.log == w.log + w'.log[|w.log|..];
      } else if InQueue(w.queue, Ready, k, t) {
        WrittenInQueue(cfg, w, handoff, k, t);
      } else if FailedLive(cfg, w, k) {
        var i :| w.cursor <= i < w.dispatched && Unheld(cfg, w, k, i);
        assert Unheld(cfg, w', k, i);
      }
    }
  }

  lemma WriteKeepsCovered(cfg: Config, w: World, handoff: string, i: nat)
    requires Writable(w) && i < |w.topic| && Covered(cfg, w, i)
    ensures Covered(cfg, WrittenWorld(w, handoff), i)
  {
    var w' := WrittenWorld(w, handoff);
    if !IdHeld(w.ledger.store, w.topic[i].id) {
      assert w'.log == w.log + w'.log[|w.log|..];
      LogGrowsRecorded(cfg, w.log, w'.log[|w.log|..], MessageKey(cfg, w.topic[i]), w.topic[i].published);
    }
  }

  lemma WriteKeepsAccounted(cfg: Config, w: World, handoff: string)
    requires Writable(w) && TurnsWF(w.queue, w.now) && CursorCovered(cfg, w) && DispatchAccounted(cfg, w)
    ensures CursorCovered(cfg, WrittenWorld(w, handoff)) && DispatchAccounted(cfg, WrittenWorld(w, handoff))
  {
    var w' := WrittenWorld(w, handoff);
    forall i | 0 <= i < w'.cursor && i < |w'.topic| ensures Covered(cfg, w', i) {
      WriteKeepsCovered(cfg, w, handoff, i);
    }
    forall i | 0 <= i < w'.dispatched && i < |w'.topic|
      ensures Accounted(cfg, w', i)
    {
      assert Accounted(cfg, w, i);
      if Covered(cfg, w, i) {
        WriteKeepsCovered(cfg, w, handoff, i);
      } else if !w.latch {
        WrittenQueued(cfg, w, handoff, MessageKey(cfg, w.topic[i]), i, w.topic[i].published);
      }
    }
  }

  lemma WriteKeepsRecorded(cfg: Config, w: World, handoff: string, k: string, t: real)
    requires Writable(w) && Recorded(cfg, w.log, k, t)
    ensures Recorded(cfg, WrittenWorld(w, handoff).log, k, t)
  {
    var w' := WrittenWorld(w, handoff);
    assert w'.log == w.log + w'.log[|w.log|..];
    LogGrowsRecorded(cfg, w.log, w'.log[|w.log|..], k, t);
  }

  lemma WriteKeepsSettled(cfg: Config, w: World, handoff: string, row: HeldRow)
    requires Writable(w) && TurnsWF(w.queue, w.now) && Settled(cfg, w, row)
    ensures Settled(cfg, WrittenWorld(w, handoff), row)
  {
    var w' := WrittenWorld(w, handoff);
    if Recorded(cfg, w.log, row.key, row.heldAt) {
      WriteKeepsRecorded(cfg, w, handoff, row.key, row.heldAt);
    } else if Replayable(cfg, w, row) {
      var i: nat :| ReplaysAt(cfg, w, row, i);
      if i < w.dispatched && !w.latch { WrittenQueued(cfg, w, handoff, row.key, i, row.heldAt); }
      if !Recorded(cfg, w'.log, row.key, row.heldAt) { assert ReplaysAt(cfg, w', row, i); }
    }
  }

  lemma WriteKeepsSettledNow(cfg: Config, w: World, handoff: string, row: HeldRow)
    requires Writable(w) && TurnsWF(w.queue, w.now) && SettledNow(cfg, w, row)
    ensures SettledNow(cfg, WrittenWorld(w, handoff), row)
  {
    var w' := WrittenWorld(w, handoff);
    if Recorded(cfg, w.log, row.key, row.heldAt) {
      WriteKeepsRecorded(cfg, w, handoff, row.key, row.heldAt);
    } else {
      var i: nat :| OutstandingAt(cfg, w, row, i);
      if !w.latch { WrittenQueued(cfg, w, handoff, row.key, i, row.heldAt); }
      if !Recorded(cfg, w'.log, row.key, row.heldAt) { assert OutstandingAt(cfg, w', row, i); }
    }
  }

  lemma WriteKeepsReleases(cfg: Config, w: World, handoff: string)
    requires Writable(w) && TurnsWF(w.queue, w.now) && ReleasesSettled(cfg, w) && PendingSettled(cfg, w)
    ensures ReleasesSettled(cfg, WrittenWorld(w, handoff)) && PendingSettled(cfg, WrittenWorld(w, handoff))
  {
    var w' := WrittenWorld(w, handoff);
    forall row: HeldRow | Settled(cfg, w, row) ensures Settled(cfg, w', row) { WriteKeepsSettled(cfg, w, handoff, row); }
    forall row: HeldRow | SettledNow(cfg, w, row) ensures SettledNow(cfg, w', row) { WriteKeepsSettledNow(cfg, w, handoff, row); }
    SettledFrame(cfg, w, w');
  }

  lemma WriteKeepsInv(cfg: Config, w: World, handoff: string)
    requires Inv(cfg, w) && Writable(w)
    ensures Inv(cfg, WrittenWorld(w, handoff))
  {
    WriteKeepsWF(cfg, w, handoff);
    WriteKeepsBacked(cfg, w, handoff);
    WriteKeepsAccounted(cfg, w, handoff);
    if w.noneRepassed { WriteKeepsReleases(cfg, w, handoff); }
  }

  // --- The record could not be written -----------------------------------------------------

  function FailedWorld(w: World, handoff: string): World
    requires Writable(w)
  {
    w.(latch := true, queue := w.queue[1..], cadence := Noted(w.cadence, w.queue[0].turn.items, handoff))
  }

  /** Popping the head keeps everything that speaks of the items behind it. */
  lemma PopKeepsQueueWF(cfg: Config, w: World, w': World)
    requires w.queue != [] && w'.queue == w.queue[1..]
    requires OffsetsWF(w.queue, w.cursor, w.dispatched) && TurnsWF(w.queue, w.now) && LiveWF(cfg, w)
    requires w'.topic == w.topic && w'.dispatched == w.dispatched && w'.now == w.now
    requires w'.cursor == w.cursor || (HasOffset(w.queue[0]) && w'.cursor == w.queue[0].hi)
    requires w'.noneRepassed == w.noneRepassed && w'.ledger.store.rows == w.ledger.store.rows
    ensures OffsetsWF(w'.queue, w'.cursor, w'.dispatched) && TurnsWF(w'.queue, w'.now) && LiveWF(cfg, w')
  {
    assert forall p :: 0 <= p < |w'.queue| ==> w'.queue[p] == w.queue[p + 1];
    forall p, k | 0 <= p < |w'.queue| && w'.queue[p].Live? && k in TurnKeys(w'.queue[p])
      ensures exists i :: w'.queue[p].lo <= i < w'.queue[p].hi && Unheld(cfg, w', k, i)
    {
      var i :| w.queue[p + 1].lo <= i < w.queue[p + 1].hi && Unheld(cfg, w, k, i);
      assert Unheld(cfg, w', k, i);
    }
  }

  lemma FailKeepsWF(cfg: Config, w: World, handoff: string)
    requires WF(cfg, w) && Writable(w)
    ensures WF(cfg, FailedWorld(w, handoff))
  {
    PopKeepsQueueWF(cfg, w, FailedWorld(w, handoff));
    assert forall p :: 0 <= p < |w.queue[1..]| ==> w.queue[1..][p] == w.queue[p + 1];
  }

  lemma FailedHead(cfg: Config, w: World, handoff: string, k: string)
    requires WF(cfg, w) && Writable(w) && k in TurnKeys(w.queue[0])
    ensures FailedLive(cfg, FailedWorld(w, handoff), k) || FailedRelease(FailedWorld(w, handoff), k)
  {
    var w' := FailedWorld(w, handoff);
    assert forall p :: 0 <= p < |w'.queue| ==> w'.queue[p] == w.queue[p + 1];
    var head := w.queue[0];
    if head.Live? {
      var i :| head.lo <= i < head.hi && Unheld(cfg, w, k, i);
      assert Unheld(cfg, w', k, i);
    } else {
      assert ReleaseItemWF(w.ledger, head);
      assert NoReleaseOf(w'.queue, head.window);
    }
  }

  lemma FailKeepsBacked(cfg: Config, w: World, handoff: string)
    requires WF(cfg, w) && Writable(w) && CooldownsBacked(cfg, w)
    ensures CooldownsBacked(cfg, FailedWorld(w, handoff))
  {
    var w' := FailedWorld(w, handoff);
    forall k | k in w'.cadence.last ensures Backed(cfg, w', k, w'.cadence.last[k]) {
      var t := w.cadence.last[k];
      assert Backed(cfg, w, k, t);
      if k in TurnKeys(w.queue[0]) {
        FailedHead(cfg, w, handoff, k);
      } else if InQueue(w.queue, Ready, k, t) {
        FailKeepsInQueue(w.queue, k, t);
      } else if FailedLive(cfg, w, k) {
        var i :| w.cursor <= i < w.dispatched && Unheld(cfg, w, k, i);
        assert Unheld(cfg, w', k, i);
      } else if FailedRelease(w, k) {
        var win :| win in w.ledger.inFlight && k in w.ledger.inFlight[win] && NoReleaseOf(w.queue, win);
        assert NoReleaseOf(w'.queue, win);
      }
    }
  }

  lemma FailKeepsSettled(cfg: Config, w: World, handoff: string, row: HeldRow)
    requires Writable(w)
    ensures Settled(cfg, w, row) ==> Settled(cfg, FailedWorld(w, handoff), row)
    ensures SettledNow(cfg, w, row) ==> SettledNow(cfg, FailedWorld(w, handoff), row)
  {
    if i: nat :| ReplaysAt(cfg, w, row, i) { assert ReplaysAt(cfg, FailedWorld(w, handoff), row, i); }
    if i: nat :| OutstandingAt(cfg, w, row, i) { assert OutstandingAt(cfg, FailedWorld(w, handoff), row, i); }
  }

  lemma FailKeepsReleases(cfg: Config, w: World, handoff: string)
    requires Writable(w) && ReleasesSettled(cfg, w) && PendingSettled(cfg, w)
    ensures ReleasesSettled(cfg, FailedWorld(w, handoff)) && PendingSettled(cfg, FailedWorld(w, handoff))
  {
    var w' := FailedWorld(w, handoff);
    forall row: HeldRow
      ensures Settled(cfg, w, row) ==> Settled(cfg, w', row)
      ensures SettledNow(cfg, w, row) ==> SettledNow(cfg, w', row)
    {
      FailKeepsSettled(cfg, w, handoff, row);
    }
    SettledFrame(cfg, w, w');
  }

  lemma FailKeepsInv(cfg: Config, w: World, handoff: string)
    requires Inv(cfg, w) && Writable(w)
    ensures Inv(cfg, FailedWorld(w, handoff))
  {
    var w' := FailedWorld(w, handoff);
    FailKeepsWF(cfg, w, handoff);
    FailKeepsBacked(cfg, w, handoff);
    AccountedFrame(cfg, w, w');
    if w.noneRepassed { FailKeepsReleases(cfg, w, handoff); }
  }

  // --- The head is finished ------------------------------------------------------------------

  predicate Advancing(w: World) {
    w.up && w.queue != [] && (w.queue[0].Marker? || (w.queue[0].Live? && w.stage == Written))
  }

  function AdvancedWorld(w: World, ok: bool): World
    requires Advancing(w)
  {
    w.(cursor := if ok && !w.latch then w.queue[0].hi else w.cursor, queue := w.queue[1..], stage := Ready)
  }

  lemma AdvanceKeepsWF(cfg: Config, w: World, ok: bool)
    requires WF(cfg, w) && Advancing(w)
    ensures WF(cfg, AdvancedWorld(w, ok))
  {
    PopKeepsQueueWF(cfg, w, AdvancedWorld(w, ok));
    assert forall p :: 0 <= p < |w.queue[1..]| ==> w.queue[1..][p] == w.queue[p + 1];
  }

  lemma AdvanceKeepsBacked(cfg: Config, w: World, ok: bool)
    requires WF(cfg, w) && Advancing(w) && CooldownsBacked(cfg, w)
    ensures CooldownsBacked(cfg, AdvancedWorld(w, ok))
  {
    var w' := AdvancedWorld(w, ok);
    forall k | k in w'.cadence.last ensures Backed(cfg, w', k, w'.cadence.last[k]) {
      var t := w.cadence.last[k];
      assert Backed(cfg, w, k, t);
      if InQueue(w.queue, w.stage, k, t) {
        PopKeepsInQueue(w.queue, w.stage, k, t);
      } else if FailedLive(cfg, w, k) {
        var i :| w.cursor <= i < w.dispatched && Unheld(cfg, w, k, i);
        assert Unheld(cfg, w', k, i);
      } else if FailedRelease(w, k) {
        var win :| win in w.ledger.inFlight && k in w.ledger.inFlight[win] && NoReleaseOf(w.queue, win);
        assert NoReleaseOf(w'.queue, win);
      }
    }
  }

  /** The heart of it: the cursor passes only messages whose outcome is already durable. */
  lemma AdvanceKeepsAccounted(cfg: Config, w: World, ok: bool)
    requires WF(cfg, w) && Advancing(w) && CursorCovered(cfg, w) && DispatchAccounted(cfg, w)
    ensures CursorCovered(cfg, AdvancedWorld(w, ok)) && DispatchAccounted(cfg, AdvancedWorld(w, ok))
  {
    var w' := AdvancedWorld(w, ok);
    forall i | 0 <= i < w'.dispatched && i < |w'.topic|
      ensures Accounted(cfg, w', i) && (w'.cursor <= i || Covered(cfg, w', i))
    {
      assert Accounted(cfg, w, i);
      assert Covered(cfg, w, i) ==> Covered(cfg, w', i);
      if !Covered(cfg, w, i) && !w.latch {
        PopKeepsQueued(cfg, w.queue, w.stage, MessageKey(cfg, w.topic[i]), i, w.topic[i].published);
      }
    }
  }

  lemma AdvanceKeepsSettled(cfg: Config, w: World, ok: bool, row: HeldRow)
    requires WF(cfg, w) && Advancing(w) && Settled(cfg, w, row)
    ensures Settled(cfg, AdvancedWorld(w, ok), row)
  {
    if Replayable(cfg, w, row) {
      var i: nat :| ReplaysAt(cfg, w, row, i);
      if i < w.dispatched && !w.latch { PopKeepsQueued(cfg, w.queue, w.stage, row.key, i, row.heldAt); }
      assert ReplaysAt(cfg, AdvancedWorld(w, ok), row, i);
    }
  }

  lemma AdvanceKeepsSettledNow(cfg: Config, w: World, ok: bool, row: HeldRow)
    requires WF(cfg, w) && Advancing(w) && SettledNow(cfg, w, row)
    ensures SettledNow(cfg, AdvancedWorld(w, ok), row)
  {
    if !Recorded(cfg, w.log, row.key, row.heldAt) {
      var i: nat :| OutstandingAt(cfg, w, row, i);
      if !w.latch { PopKeepsQueued(cfg, w.queue, w.stage, row.key, i, row.heldAt); }
      assert OutstandingAt(cfg, AdvancedWorld(w, ok), row, i);
    }
  }

  lemma AdvanceKeepsReleases(cfg: Config, w: World, ok: bool)
    requires WF(cfg, w) && Advancing(w) && ReleasesSettled(cfg, w) && PendingSettled(cfg, w)
    ensures ReleasesSettled(cfg, AdvancedWorld(w, ok)) && PendingSettled(cfg, AdvancedWorld(w, ok))
  {
    var w' := AdvancedWorld(w, ok);
    forall row: HeldRow | Settled(cfg, w, row) ensures Settled(cfg, w', row) { AdvanceKeepsSettled(cfg, w, ok, row); }
    forall row: HeldRow | SettledNow(cfg, w, row) ensures SettledNow(cfg, w', row) { AdvanceKeepsSettledNow(cfg, w, ok, row); }
    SettledFrame(cfg, w, w');
  }

  lemma AdvanceKeepsInv(cfg: Config, w: World, ok: bool)
    requires Inv(cfg, w) && Advancing(w)
    ensures Inv(cfg, AdvancedWorld(w, ok))
  {
    AdvanceKeepsWF(cfg, w, ok);
    AdvanceKeepsBacked(cfg, w, ok);
    AdvanceKeepsAccounted(cfg, w, ok);
    if w.noneRepassed { AdvanceKeepsReleases(cfg, w, ok); }
  }
}
