/** The environment's steps keep the invariant: new messages, time, delivery, a crash at any
point, a graceful shutdown that still records its triage, and a restart. */
module ProtocolEnvironment {
  import opened Common
  import opened Cadence
  import opened Holds
  import opened Protocol
  import opened ProtocolInvariant
  import opened ProtocolCore

  // --- A new message -----------------------------------------------------------------------

  function PublishedWorld(w: World, m: Message): World { w.(topic := w.topic + [m]) }

  predicate Fresh(w: World, m: Message) {
    m.id != "" && m.published == w.now && forall i :: 0 <= i < |w.topic| ==> w.topic[i].id != m.id
  }

  lemma PublishKeepsRows(cfg: Config, w: World, m: Message)
    requires RowsWF(cfg, w.topic, w.now, w.ledger.store) && Fresh(w, m)
    ensures RowsWF(cfg, w.topic + [m], w.now, w.ledger.store)
  {
    forall r | r in w.ledger.store.rows ensures RowWF(cfg, w.topic + [m], w.now, r) {
      assert RowWF(cfg, w.topic, w.now, r);
      var i: nat :| RowFrom(cfg, w.topic, r, i);
      assert RowFrom(cfg, w.topic + [m], r, i);
    }
  }

  lemma PublishKeepsWF(cfg: Config, w: World, m: Message)
    requires WF(cfg, w) && Fresh(w, m)
    ensures WF(cfg, PublishedWorld(w, m))
  {
    PublishKeepsRows(cfg, w, m);
    LiveWFFrame(cfg, w, PublishedWorld(w, m));
  }

  lemma PublishKeepsBacked(cfg: Config, w: World, m: Message)
    requires BoundsWF(w) && CooldownsBacked(cfg, w)
    ensures CooldownsBacked(cfg, PublishedWorld(w, m))
  {
    var w' := PublishedWorld(w, m);
    forall k | k in w'.cadence.last ensures Backed(cfg, w', k, w'.cadence.last[k]) {
      assert Backed(cfg, w, k, w.cadence.last[k]);
      if FailedLive(cfg, w, k) {
        var i :| w.cursor <= i < w.dispatched && Unheld(cfg, w, k, i);
        assert Unheld(cfg, w', k, i);
      }
    }
  }

  lemma PublishKeepsSettled(cfg: Config, w: World, m: Message, row: HeldRow)
    ensures Settled(cfg, w, row) ==> Settled(cfg, PublishedWorld(w, m), row)
    ensures SettledNow(cfg, w, row) ==> SettledNow(cfg, PublishedWorld(w, m), row)
  {
    if i: nat :| ReplaysAt(cfg, w, row, i) { assert ReplaysAt(cfg, PublishedWorld(w, m), row, i); }
    if i: nat :| OutstandingAt(cfg, w, row, i) { assert OutstandingAt(cfg, PublishedWorld(w, m), row, i); }
  }

  lemma PublishKeepsInv(cfg: Config, w: World, m: Message)
    requires Inv(cfg, w) && Fresh(w, m)
    ensures Inv(cfg, PublishedWorld(w, m))
  {
    var w' := PublishedWorld(w, m);
    PublishKeepsWF(cfg, w, m);
    PublishKeepsBacked(cfg, w, m);
    AccountedFrame(cfg, w, w');
    if w.noneRepassed {
      forall row: HeldRow
        ensures Settled(cfg, w, row) ==> Settled(cfg, w', row)
        ensures SettledNow(cfg, w, row) ==> SettledNow(cfg, w', row)
      {
        PublishKeepsSettled(cfg, w, m, row);
      }
      SettledFrame(cfg, w, w');
    }
  }

  // --- Time and delivery ---------------------------------------------------------------------

  lemma ElapseKeepsInv(cfg: Config, w: World, to: real)
    requires Inv(cfg, w) && w.now <= to
    ensures Inv(cfg, w.(now := to))
  {
    var w' := w.(now := to);
    LiveWFFrame(cfg, w, w');
    assert RowsWF(cfg, w'.topic, w'.now, w'.ledger.store) by {
      forall r | r in w.ledger.store.rows ensures RowWF(cfg, w'.topic, w'.now, r) {
        assert RowWF(cfg, w.topic, w.now, r);
      }
    }
    SameBackedFrame(cfg, w, w');
    SameCoverFrame(cfg, w, w');
  }

  lemma DeliverKeepsInv(cfg: Config, w: World)
    requires Inv(cfg, w) && w.up && w.received < |w.topic|
    ensures Inv(cfg, w.(received := w.received + 1))
  {
    var w' := w.(received := w.received + 1);
    LiveWFFrame(cfg, w, w');
    SameBackedFrame(cfg, w, w');
    SameCoverFrame(cfg, w, w');
  }

  /** Two worlds that agree on everything the invariant's second half reads. */
  predicate SameMemory(w: World, w': World) {
    && w'.topic == w.topic && w'.log == w.log && w'.ledger == w.ledger && w'.cursor == w.cursor
    && w'.dispatched == w.dispatched && w'.cadence == w.cadence && w'.queue == w.queue
    && w'.stage == w.stage && w'.latch == w.latch && w'.noneRepassed == w.noneRepassed
  }

  lemma SameBackedFrame(cfg: Config, w: World, w': World)
    requires SameMemory(w, w') && CooldownsBacked(cfg, w)
    ensures CooldownsBacked(cfg, w')
  {
    forall k | k in w'.cadence.last ensures Backed(cfg, w', k, w'.cadence.last[k]) {
      assert Backed(cfg, w, k, w.cadence.last[k]);
      if FailedLive(cfg, w, k) {
        var i :| w.cursor <= i < w.dispatched && Unheld(cfg, w, k, i);
        assert Unheld(cfg, w', k, i);
      }
    }
  }

  lemma SameCoverFrame(cfg: Config, w: World, w': World)
    requires SameMemory(w, w') && CursorCovered(cfg, w) && DispatchAccounted(cfg, w)
    requires w.noneRepassed ==> ReleasesSettled(cfg, w) && PendingSettled(cfg, w)
    ensures CursorCovered(cfg, w') && DispatchAccounted(cfg, w')
    ensures w'.noneRepassed ==> ReleasesSettled(cfg, w') && PendingSettled(cfg, w')
  {
    AccountedFrame(cfg, w, w');
    if w.noneRepassed {
      forall row: HeldRow
        ensures Settled(cfg, w, row) ==> Settled(cfg, w', row)
        ensures SettledNow(cfg, w, row) ==> SettledNow(cfg, w', row)
      {
        SameMemorySettled(cfg, w, w', row);
      }
      SettledFrame(cfg, w, w');
    }
  }

  lemma SameMemorySettled(cfg: Config, w: World, w': World, row: HeldRow)
    requires SameMemory(w, w')
    ensures Settled(cfg, w, row) ==> Settled(cfg, w', row)
    ensures SettledNow(cfg, w, row) ==> SettledNow(cfg, w', row)
  {
    if i: nat :| ReplaysAt(cfg, w, row, i) { assert ReplaysAt(cfg, w', row, i); }
    if i: nat :| OutstandingAt(cfg, w, row, i) { assert OutstandingAt(cfg, w', row, i); }
  }

  // --- Going down ------------------------------------------------------------------------------

  lemma CrashKeepsSettled(cfg: Config, w: World, row: HeldRow)
    requires Settled(cfg, w, row)
    ensures Settled(cfg, Down(w), row)
  {
    if i: nat :| ReplaysAt(cfg, w, row, i) { assert ReplaysAt(cfg, Down(w), row, i); }
  }

  /** A crash loses nothing that counts: what memory stood for is after the cursor. */
  lemma CrashKeepsInv(cfg: Config, w: World)
    requires Inv(cfg, w)
    ensures Inv(cfg, Down(w))
  {
    var w' := Down(w);
    AccountedFrame(cfg, w, w');
    assert ReceiptsWF(w'.ledger);
    if w.noneRepassed {
      forall row: HeldRow | Settled(cfg, w, row) ensures Settled(cfg, w', row) { CrashKeepsSettled(cfg, w, row); }
      SettledFrame(cfg, w, w');
    }
  }

  lemma ShutdownKeepsInv(cfg: Config, w: World, handoff: string)
    requires Inv(cfg, w) && Writable(w)
    ensures Inv(cfg, Down(WrittenWorld(w, handoff)))
  {
    WriteKeepsInv(cfg, w, handoff);
    CrashKeepsInv(cfg, WrittenWorld(w, handoff));
  }

  // --- Coming up -------------------------------------------------------------------------------

  function RestartedWorld(cfg: Config, w: World): World {
    w.(up := true, cadence := Rehydrate(cfg, EMPTY, Records(w.log), w.now))
  }

  /** Every cooldown a restart arms is a durable record. */
  lemma RehydratedIsInLog(cfg: Config, w: World, k: string)
    requires k in RestartedWorld(cfg, w).cadence.last
    ensures InLog(w.log, k, RestartedWorld(cfg, w).cadence.last[k])
  {
    var records := Records(w.log);
    RehydrateArmsNewest(cfg, records, w.now);
    var last := RestartedWorld(cfg, w).cadence.last;
    assert ArmedByOne(last, Eligible(cfg, records, w.now), k);
    var r :| r in Eligible(cfg, records, w.now) && k in KeysOf(r) && AtOf(r) == last[k];
    assert r in records;
    var n :| 0 <= n < |records| && records[n] == r;
    assert w.log[n].record == r;
  }

  lemma RestartKeepsInv(cfg: Config, w: World)
    requires Inv(cfg, w) && !w.up
    ensures Inv(cfg, RestartedWorld(cfg, w))
  {
    var w' := RestartedWorld(cfg, w);
    LiveWFFrame(cfg, w, w');
    forall k | k in w'.cadence.last ensures Backed(cfg, w', k, w'.cadence.last[k]) {
      RehydratedIsInLog(cfg, w, k);
    }
    AccountedFrame(cfg, w, w');
    RestartKeepsReleases(cfg, w);
  }

  lemma RestartKeepsReleases(cfg: Config, w: World)
    requires w.noneRepassed ==> ReleasesSettled(cfg, w) && PendingSettled(cfg, w)
    requires w.queue == []
    ensures w.noneRepassed ==> ReleasesSettled(cfg, RestartedWorld(cfg, w)) && PendingSettled(cfg, RestartedWorld(cfg, w))
  {
    if w.noneRepassed {
      var w' := RestartedWorld(cfg, w);
      forall row: HeldRow | Settled(cfg, w, row) ensures Settled(cfg, w', row) {
        if i: nat :| ReplaysAt(cfg, w, row, i) { assert ReplaysAt(cfg, w', row, i); }
      }
      SettledFrame(cfg, w, w');
    }
  }
}
