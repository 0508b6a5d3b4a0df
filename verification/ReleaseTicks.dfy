/** When a whole release tick lets a window go (`henk/events/release.py`). */
module ReleaseTicks {
  import opened Common
  import opened Cadence
  import opened Holds
  import opened Calendar
  import opened Protocol
  import opened Releasing
  import opened Verdicts
  import opened Releaser
  import CatchUp

  /** The window was released, or its release was submitted. */
  predicate Gone(w: World, win: string) { win in w.ledger.inFlight || !Unreleased(w.ledger.store, win) }

  /** Whatever a tick does to other windows, this one's stored form, its rows and its flight
  are as they were. */
  ghost predicate Same(w: World, v: World, win: string) {
    && v.now == w.now && v.ledger.store.rows == w.ledger.store.rows
    && (win in v.ledger.store.windows <==> win in w.ledger.store.windows)
    && (win in w.ledger.store.windows ==> v.ledger.store.windows[win] == w.ledger.store.windows[win])
    && (win in v.ledger.inFlight <==> win in w.ledger.inFlight)
  }

  lemma MarkLeavesSame(led: Ledger, other: string, at: real, fails: bool, written: bool, win: string)
    requires other != win
    ensures var m := MarkReleased(led, other, at, fails, written);
      && m.store.rows == led.store.rows && (win in m.store.windows <==> win in led.store.windows)
      && (win in led.store.windows ==> m.store.windows[win] == led.store.windows[win])
      && (win in m.inFlight <==> win in led.inFlight)
  {
  }

  lemma ReleaseLeavesSame(cfg: Config, w: World, r: HeldRelease, markFails: bool, written: bool, win: string)
    requires r.windowId != win
    ensures Same(w, Released(cfg, w, r, markFails, written), win)
  {
    MarkLeavesSame(w.ledger, r.windowId, w.now, markFails, written, win);
  }

  lemma MoveLeavesSame(w: World, other: string, end: real, win: string)
    requires other != win
    ensures Same(w, Moved(w, other, end), win)
  {
  }

  lemma WindowLeavesSame(cfg: Config, p: Policy, w: World, other: string, o: Outlook, markFails: bool, written: bool, win: string)
    requires other != win
    ensures Same(w, AfterWindow(cfg, p, w, other, o, markFails, written), win)
  {
    if other !in w.ledger.inFlight && other in w.ledger.store.windows {
      var verdict := Consider(p, w.ledger, other, o.calendar, o.caughtUp, o.first, w.now);
      if verdict == Goes { ReleaseLeavesSame(cfg, w, ReleaseOf(p, w.ledger, other, w.now), markFails, written, win); }
      if verdict.Extended? { MoveLeavesSame(w, other, verdict.end, win); }
    }
  }

  lemma {:induction false} TickLeavesSame(cfg: Config, p: Policy, w: World, wins: seq<string>, o: Outlook,
                                          markFails: string -> bool, written: string -> bool, win: string)
    requires win !in wins
    ensures Same(w, AfterTick(cfg, p, w, wins, o, markFails, written), win)
  {
    if wins != [] {
      var front, last := wins[..|wins| - 1], wins[|wins| - 1];
      assert wins == front + [last];
      TickLeavesSame(cfg, p, w, front, o, markFails, written, win);
      WindowLeavesSame(cfg, p, AfterTick(cfg, p, w, front, o, markFails, written), last, o, markFails(last), written(last), win);
    }
  }

  lemma SameOn(w: World, v: World, u: World, win: string)
    requires Same(w, v, win) && Same(v, u, win)
    ensures Same(w, u, win)
  {
  }

  /** One more window considered leaves the windows before it as they were. */
  lemma NextLeavesSame(cfg: Config, p: Policy, w: World, wins: seq<string>, i: nat, n: nat, o: Outlook,
                       markFails: string -> bool, written: string -> bool)
    requires Distinct(wins) && i < n < |wins|
    ensures Same(AfterTick(cfg, p, w, wins[..n], o, markFails, written),
                 AfterTick(cfg, p, w, wins[..n + 1], o, markFails, written), wins[i])
  {
    AfterTickNext(cfg, p, w, wins, n, o, markFails, written);
    assert wins[n] != wins[i];
    WindowLeavesSame(cfg, p, AfterTick(cfg, p, w, wins[..n], o, markFails, written), wins[n], o,
                     markFails(wins[n]), written(wins[n]), wins[i]);
  }

  lemma SameNow(w: World, win: string)
    ensures Same(w, w, win)
  {
  }

  /** Nothing after a window's own turn touches it. */
  lemma {:induction false} AfterItsTurn(cfg: Config, p: Policy, w: World, wins: seq<string>, i: nat, n: nat, o: Outlook,
                                        markFails: string -> bool, written: string -> bool)
    requires Distinct(wins) && i < n <= |wins|
    ensures Same(AfterTick(cfg, p, w, wins[..i + 1], o, markFails, written),
                 AfterTick(cfg, p, w, wins[..n], o, markFails, written), wins[i])
  {
    var at := AfterTick(cfg, p, w, wins[..i + 1], o, markFails, written);
    if n == i + 1 {
      SameNow(at, wins[i]);
    } else {
      AfterItsTurn(cfg, p, w, wins, i, n - 1, o, markFails, written);
      NextLeavesSame(cfg, p, w, wins, i, n - 1, o, markFails, written);
      SameOn(at, AfterTick(cfg, p, w, wins[..n - 1], o, markFails, written),
             AfterTick(cfg, p, w, wins[..n], o, markFails, written), wins[i]);
    }
  }

  /** The world at a window's own turn differs in nothing that is the window's. */
  lemma AtItsTurn(cfg: Config, p: Policy, w: World, wins: seq<string>, i: nat, o: Outlook,
                  markFails: string -> bool, written: string -> bool)
    requires Distinct(wins) && i < |wins|
    ensures Same(w, AfterTick(cfg, p, w, wins[..i], o, markFails, written), wins[i])
  {
    TickLeavesSame(cfg, p, w, wins[..i], o, markFails, written, wins[i]);
  }

  /** Nothing was forwarded that was not in cooldown, and the mark failed. */
  ghost predicate MarkLost(cfg: Config, p: Policy, at: World, win: string, fails: bool)
    requires win in at.ledger.store.windows
  {
    fails && ReleaseDecision(cfg, at, ReleaseOf(p, at.ledger, win, at.now)).decision.turn.None?
  }

  lemma WindowGoesIff(cfg: Config, p: Policy, at: World, win: string, o: Outlook, fails: bool, written: bool)
    requires Unreleased(at.ledger.store, win) && win !in at.ledger.inFlight
    ensures Gone(AfterWindow(cfg, p, at, win, o, fails, written), win)
        <==> Consider(p, at.ledger, win, o.calendar, o.caughtUp, o.first, at.now) == Goes && !MarkLost(cfg, p, at, win, fails)
  {
  }

  lemma SameRipe(p: Policy, w: World, v: World, win: string, calendar: Option<seq<CalendarWindow>>)
    requires Same(w, v, win) && win in w.ledger.store.windows
    ensures Ripe(p, v.ledger.store, win, calendar, v.now) == Ripe(p, w.ledger.store, win, calendar, w.now)
  {
    forall end
      ensures ExtendedTo(p, calendar, v.ledger.store, win, v.now, end) == ExtendedTo(p, calendar, w.ledger.store, win, w.now, end)
    {
      SameExtension(p, w, v, win, calendar, end);
    }
  }

  /** A tick lets a window go exactly when its stored end and grace are past, events are held
  for it, the calendar no longer shows it, the stream was read or the fallback has passed,
  no identity of it is in flight at its turn, and its mark, if all it needs, is stored. */
  lemma TickReleasesIff(cfg: Config, p: Policy, w: World, wins: seq<string>, i: nat, o: Outlook,
                        markFails: string -> bool, written: string -> bool)
    requires AllUnreleased(w, wins) && Distinct(wins) && i < |wins| && wins[i] !in w.ledger.inFlight
    ensures var win, at := wins[i], AfterTick(cfg, p, w, wins[..i], o, markFails, written);
      && win in w.ledger.store.windows && win in at.ledger.store.windows
      && (Gone(AfterTick(cfg, p, w, wins, o, markFails, written), win) <==>
            && Ripe(p, w.ledger.store, win, o.calendar, w.now)
            && (o.caughtUp || WaitedLongEnough(p, w.ledger.store.windows[win].end, o.first, w.now))
            && !SharesIdentity(at.ledger, win) && !MarkLost(cfg, p, at, win, markFails(win)))
  {
    var win, at := wins[i], AfterTick(cfg, p, w, wins[..i], o, markFails, written);
    AtItsTurn(cfg, p, w, wins, i, o, markFails, written);
    SameRipe(p, w, at, win, o.calendar);
    VerdictMeans(p, at.ledger, win, o.calendar, o.caughtUp, o.first, at.now);
    WindowGoesIff(cfg, p, at, win, o, markFails(win), written(win));
    AfterTickNext(cfg, p, w, wins, i, o, markFails, written);
    AfterItsTurn(cfg, p, w, wins, i, |wins|, o, markFails, written);
    assert wins[..|wins|] == wins;
  }

  lemma ReleaseKeepsEnd(cfg: Config, w: World, r: HeldRelease, markFails: bool, written: bool)
    requires r.windowId in w.ledger.store.windows
    ensures var v := Released(cfg, w, r, markFails, written).ledger.store;
      r.windowId in v.windows && v.windows[r.windowId].end == w.ledger.store.windows[r.windowId].end
  {
  }

  lemma MovedEnd(w: World, win: string, end: real)
    requires Unreleased(w.ledger.store, win)
    ensures var v := Moved(w, win, end).ledger.store; win in v.windows && v.windows[win].end == end
  {
  }

  lemma WindowEnd(cfg: Config, p: Policy, at: World, win: string, o: Outlook, fails: bool, written: bool)
    requires Unreleased(at.ledger.store, win) && win !in at.ledger.inFlight
    ensures var v := AfterWindow(cfg, p, at, win, o, fails, written).ledger.store;
      var verdict := Consider(p, at.ledger, win, o.calendar, o.caughtUp, o.first, at.now);
      win in v.windows && v.windows[win].end == if verdict.Extended? then verdict.end else at.ledger.store.windows[win].end
  {
    var verdict := Consider(p, at.ledger, win, o.calendar, o.caughtUp, o.first, at.now);
    assert AfterWindow(cfg, p, at, win, o, fails, written) == AfterVerdict(cfg, p, at, win, verdict, fails, written);
    if verdict == Goes {
      ReleaseKeepsEnd(cfg, at, ReleaseOf(p, at.ledger, win, at.now), fails, written);
    } else if verdict.Extended? {
      MovedEnd(at, win, verdict.end);
    }
  }

  lemma SameExtension(p: Policy, w: World, v: World, win: string, calendar: Option<seq<CalendarWindow>>, end: real)
    requires Same(w, v, win)
    ensures ExtendedTo(p, calendar, v.ledger.store, win, v.now, end) == ExtendedTo(p, calendar, w.ledger.store, win, w.now, end)
  {
  }

  /** And it moves a window's stored end exactly when the calendar still shows it. */
  lemma TickExtendsIff(cfg: Config, p: Policy, w: World, wins: seq<string>, i: nat, o: Outlook,
                       markFails: string -> bool, written: string -> bool, end: real)
    requires AllUnreleased(w, wins) && Distinct(wins) && i < |wins| && wins[i] !in w.ledger.inFlight
    ensures var win, st := wins[i], w.ledger.store;
      var v := AfterTick(cfg, p, w, wins, o, markFails, written).ledger.store;
      && win in st.windows && win in v.windows
      && (v.windows[win].end == end <==>
            if st.windows[win].end + p.grace <= w.now && HasRows(st, win) && Extends(p, o.calendar, st, win, w.now)
            then ExtendedTo(p, o.calendar, st, win, w.now, end) else end == st.windows[win].end)
  {
    var win, at := wins[i], AfterTick(cfg, p, w, wins[..i], o, markFails, written);
    AtItsTurn(cfg, p, w, wins, i, o, markFails, written);
    SameRipe(p, w, at, win, o.calendar);
    VerdictMeans(p, at.ledger, win, o.calendar, o.caughtUp, o.first, at.now);
    WindowEnd(cfg, p, at, win, o, markFails(win), written(win));
    AfterTickNext(cfg, p, w, wins, i, o, markFails, written);
    AfterItsTurn(cfg, p, w, wins, i, |wins|, o, markFails, written);
    assert wins[..|wins|] == wins;
    var verdict := Consider(p, at.ledger, win, o.calendar, o.caughtUp, o.first, at.now);
    if verdict.Extended? {
      SameExtension(p, w, at, win, o.calendar, verdict.end);
      OnlyOneEnd(p, o.calendar, w.ledger.store, win, w.now, verdict.end, end);
    }
  }

  lemma OnlyOneEnd(p: Policy, calendar: Option<seq<CalendarWindow>>, st: Store, win: string, now: real, a: real, b: real)
    requires ExtendedTo(p, calendar, st, win, now, a)
    ensures ExtendedTo(p, calendar, st, win, now, b) <==> a == b
  {
    if ExtendedTo(p, calendar, st, win, now, b) {
      FirstShownIs(p, calendar.value, win, now);
    }
  }

  /** What one tick over the coordinator's loop lets go was past its grace and had rows; and
  the subscription's whole backlog, with everything received, had been dispatched, or the
  fallback had passed since both its grace and the first subscribe. */
  lemma ReleasesOnlyWhatWasRead(cfg: Config, p: Policy, w: World, wins: seq<string>, i: nat, o: Outlook,
                                markFails: string -> bool, written: string -> bool, window: real, loop: seq<CatchUp.Step>)
    requires AllUnreleased(w, wins) && Distinct(wins) && i < |wins| && wins[i] !in w.ledger.inFlight
    requires CatchUp.Legal(window, CatchUp.IDLE_LOOP, loop)
    requires o.caughtUp == CatchUp.CaughtUp(CatchUp.Run(window, CatchUp.IDLE_LOOP, loop))
    requires Gone(AfterTick(cfg, p, w, wins, o, markFails, written), wins[i])
    ensures var s, st, win := CatchUp.Run(window, CatchUp.IDLE_LOOP, loop), w.ledger.store, wins[i];
      && win in st.windows && st.windows[win].end + p.grace <= w.now && HasRows(st, win)
      && ((s.subscribed && s.received == s.dispatched && s.mark <= |s.dispatched| && s.backlog <= s.dispatched[s.mark..])
          || (o.first.Some? && Max(st.windows[win].end + p.grace, o.first.value) + p.fallback <= w.now))
  {
    TickReleasesIff(cfg, p, w, wins, i, o, markFails, written);
    if o.caughtUp { CatchUp.CaughtUpIsSound(window, loop); }
  }
}
