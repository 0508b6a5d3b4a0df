/** Moving a held window's stored end keeps the invariant, which never reads it. */
module ProtocolExtend {
  import opened Common
  import opened Cadence
  import opened Holds
  import opened Protocol
  import opened ProtocolInvariant
  import opened ProtocolEnvironment

  function ExtendedWorld(w: World, win: string, end: real): World {
    w.(ledger := w.ledger.(store := Extend(w.ledger.store, win, end)))
  }

  lemma ExtendKeepsHolds(st: Store, win: string, end: real)
    ensures SameHolds(st, Extend(st, win, end)) && Extend(st, win, end).windows.Keys == st.windows.Keys
    ensures forall v :: Unreleased(Extend(st, win, end), v) <==> Unreleased(st, v)
    ensures forall v :: HeldEvents(Extend(st, win, end), v) == HeldEvents(st, v)
  {
  }

  lemma ExtendKeepsReceipts(led: Ledger, st: Store)
    requires ReceiptsWF(led) && SameHolds(led.store, st)
    ensures ReceiptsWF(led.(store := st))
  {
    forall n | 0 <= n < |led.receipts|
      ensures IsReleased(st, led.receipts[n].windowId) && led.receipts[n] == ReceiptOf(st, led.receipts[n].windowId)
    {
      assert HeldEvents(st, led.receipts[n].windowId) == HeldEvents(led.store, led.receipts[n].windowId);
    }
  }

  lemma ExtendKeepsReleases(queue: seq<Item>, led: Ledger, win: string, end: real)
    requires ReleasesWF(queue, led)
    ensures ReleasesWF(queue, led.(store := Extend(led.store, win, end)))
  {
    var st := Extend(led.store, win, end);
    ExtendKeepsHolds(led.store, win, end);
    forall p | 0 <= p < |queue| ensures ReleaseItemWF(led.(store := st), queue[p]) {
      assert ReleaseItemWF(led, queue[p]);
    }
  }

  lemma ExtendKeepsWF(cfg: Config, w: World, win: string, end: real)
    requires WF(cfg, w) && w.up
    ensures WF(cfg, ExtendedWorld(w, win, end))
  {
    var w' := ExtendedWorld(w, win, end);
    ExtendKeepsHolds(w.ledger.store, win, end);
    ExtendKeepsReceipts(w.ledger, w'.ledger.store);
    ExtendKeepsReleases(w.queue, w.ledger, win, end);
    LiveWFFrame(cfg, w, w');
  }

  lemma ExtendKeepsBacked(cfg: Config, w: World, win: string, end: real)
    requires CooldownsBacked(cfg, w)
    ensures CooldownsBacked(cfg, ExtendedWorld(w, win, end))
  {
    var w' := ExtendedWorld(w, win, end);
    forall k | k in w'.cadence.last ensures Backed(cfg, w', k, w'.cadence.last[k]) {
      assert Backed(cfg, w, k, w.cadence.last[k]);
      if FailedLive(cfg, w, k) {
        var i :| w.cursor <= i < w.dispatched && Unheld(cfg, w, k, i);
        assert Unheld(cfg, w', k, i);
      }
    }
  }

  lemma ExtendKeepsInv(cfg: Config, w: World, win: string, end: real)
    requires Inv(cfg, w) && w.up
    ensures Inv(cfg, ExtendedWorld(w, win, end))
  {
    var w' := ExtendedWorld(w, win, end);
    ExtendKeepsWF(cfg, w, win, end);
    ExtendKeepsBacked(cfg, w, win, end);
    AccountedFrame(cfg, w, w');
    if w.noneRepassed {
      forall row: HeldRow
        ensures Settled(cfg, w, row) ==> Settled(cfg, w', row)
        ensures SettledNow(cfg, w, row) ==> SettledNow(cfg, w', row)
      {
        if i: nat :| ReplaysAt(cfg, w, row, i) { assert ReplaysAt(cfg, w', row, i); }
        if i: nat :| OutstandingAt(cfg, w, row, i) { assert OutstandingAt(cfg, w', row, i); }
      }
      ExtendKeepsHolds(w.ledger.store, win, end);
      SettledFrame(cfg, w, w');
    }
  }
}
