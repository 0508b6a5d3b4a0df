/** The stored end of a held window against the earliest publish time it holds.

`Releasing` bounds the end by the first row held, in holding order. The tighter bound, by the
earliest row, is kept by every extension; what breaks it is a hold of a row published more
than the longest window before the end already stored, which needs the calendar to have
moved the window earlier in between. */
module HoldBounds {
  import opened Common
  import opened Cadence
  import opened Holds
  import opened Calendar
  import opened Protocol
  import opened Releasing

  /** The end is at most the longest window after every row of the window. */
  ghost predicate EarliestBounded(p: Policy, st: Store, win: string)
    requires win in st.windows
  {
    forall r :: r in st.rows && r.windowId == win ==> st.windows[win].end <= r.publishedAt + p.maxWindow
  }

  /** It is a bound by the earliest publish time. */
  lemma EarliestBoundedIs(p: Policy, st: Store, win: string)
    requires win in st.windows && HeldEvents(st, win) != []
    ensures EarliestBounded(p, st, win) <==> st.windows[win].end <= Earliest(HeldEvents(st, win)) + p.maxWindow
  {
    var rows := HeldEvents(st, win);
    forall r ensures r in rows <==> r in st.rows && r.windowId == win { HeldEventsMembers(st, win, r); }
  }

  /** An extension never passes the bound when it is made. */
  lemma ExtensionWithinEarliest(p: Policy, led: Ledger, win: string, end: real, now: real)
    requires win in led.store.windows && MayExtend(p, led, win, end, now)
    ensures EarliestBounded(p, Extend(led.store, win, end), win) && led.store.windows[win].end < end
  {
    var rows := HeldEvents(led.store, win);
    var windows, caughtUp, first :|
      && (forall v :: v in windows ==> Admitted(p, v))
      && Consider(p, led, win, Some(windows), caughtUp, first, now) == Extended(end);
    assert Extension(p, Some(windows), win, rows, now) == Some(end);
    CurrentIsAdmitted(p, windows, win, rows, now);
    ExtensionMovesLater(p, led, win, Some(windows), caughtUp, first, now);
    forall r | r in led.store.rows && r.windowId == win ensures end <= r.publishedAt + p.maxWindow {
      HeldEventsMembers(led.store, win, r);
    }
  }

  // --- Over runs -------------------------------------------------------------------------------

  /** Where the event would be held, if it is. */
  function Target(led: Ledger, e: Event, active: seq<CalendarWindow>, fails: bool): Option<string> {
    var target := LatestOpen(led, active);
    if e.id == "" || fails || target.None? || IdHeld(led.store, e.id) then None else Some(target.value.id)
  }

  /** A hold into `win` is timely when the end already stored is within the longest window of
  the event's publish time; any other step is. */
  predicate Timely(p: Policy, w: World, s: Step, win: string) {
    s.HoldRow? && Target(w.ledger, s.e, s.active, s.storeFails) == Some(win) && win in w.ledger.store.windows ==>
      w.ledger.store.windows[win].end <= PublishTime(s.e) + p.maxWindow
  }

  ghost predicate TimelyRun(cfg: Config, p: Policy, w: World, steps: seq<Step>, win: string)
    requires Legal(cfg, w, steps)
    decreases |steps|
  {
    steps == [] || (Timely(p, w, steps[0], win) && TimelyRun(cfg, p, Apply(cfg, w, steps[0]), steps[1..], win))
  }

  /** Rows belong to stored windows. */
  ghost predicate Stocked(st: Store) { forall r :: r in st.rows ==> r.windowId in st.windows }

  /** Not yet stored, or within the bound. */
  ghost predicate Within(p: Policy, st: Store, win: string) { win in st.windows ==> EarliestBounded(p, st, win) }

  lemma HoldBoundStep(cfg: Config, p: Policy, w: World, e: Event, active: seq<CalendarWindow>, fails: bool, win: string)
    requires Stocked(w.ledger.store) && forall v :: v in active ==> Admitted(p, v) && ActiveAt(p, v, PublishTime(e))
    ensures var h := HoldEvent(cfg, w.ledger, e, PublishTime(e), active, w.now, fails);
      var late := Target(w.ledger, e, active, fails) == Some(win) && win in w.ledger.store.windows
                  && w.ledger.store.windows[win].end > PublishTime(e) + p.maxWindow;
      Stocked(h.next.store) && (Within(p, h.next.store, win) <==> Within(p, w.ledger.store, win) && !late)
  {
    var st := w.ledger.store;
    var h := HoldEvent(cfg, w.ledger, e, PublishTime(e), active, w.now, fails);
    var target := Target(w.ledger, e, active, fails);
    if target.Some? {
      var v := LatestOpen(w.ledger, active).value;
      var row := RowOf(cfg, e, v.id, PublishTime(e), w.now);
      assert Insert(st, v, row).status == Held && h.next.store.rows == st.rows + [row];
      assert Admitted(p, v) && ActiveAt(p, v, PublishTime(e));
      if win in st.windows { assert h.next.store.windows[win] == st.windows[win]; }
      RowsGrow(st.rows, row);
    }
  }

  lemma RowsGrow(rows: seq<HeldRow>, row: HeldRow)
    ensures forall r :: r in rows + [row] <==> r in rows || r == row
  {
  }

  lemma StepBound(cfg: Config, p: Policy, w: World, s: Step, win: string)
    requires Stocked(w.ledger.store) && Enabled(w, s) && Governed(p, w, s)
    ensures var st := Apply(cfg, w, s).ledger.store;
      Stocked(st) && (Within(p, st, win) <==> Within(p, w.ledger.store, win) && Timely(p, w, s, win))
  {
    match s
    case HoldRow(_, e, active, fails) => HoldBoundStep(cfg, p, w, e, active, fails, win);
    case ExtendWindow(v, end) => ExtendBoundStep(p, w, v, end, win);
    case ReleaseTick(r, fails, written) => MarkBoundStep(p, w.ledger, r.windowId, w.now, fails, written, win);
    case MarkWindow(fails, written) => MarkBoundStep(p, w.ledger, w.queue[0].window, w.now, fails, written, win);
    case _ =>
  }

  lemma ExtendBoundStep(p: Policy, w: World, v: string, end: real, win: string)
    requires Stocked(w.ledger.store) && Unreleased(w.ledger.store, v) && MayExtend(p, w.ledger, v, end, w.now)
    ensures var st := Extend(w.ledger.store, v, end);
      Stocked(st) && (Within(p, st, win) <==> Within(p, w.ledger.store, win))
  {
    ExtensionWithinEarliest(p, w.ledger, v, end, w.now);
  }

  lemma MarkBoundStep(p: Policy, led: Ledger, v: string, at: real, fails: bool, written: bool, win: string)
    requires Stocked(led.store)
    ensures var st := MarkReleased(led, v, at, fails, written).store;
      Stocked(st) && (Within(p, st, win) <==> Within(p, led.store, win))
  {
  }

  lemma {:induction false} RunBound(cfg: Config, p: Policy, w: World, steps: seq<Step>, win: string)
    requires Stocked(w.ledger.store) && Legal(cfg, w, steps) && GovernedRun(cfg, p, w, steps)
    ensures Within(p, Run(cfg, w, steps).ledger.store, win)
            <==> Within(p, w.ledger.store, win) && TimelyRun(cfg, p, w, steps, win)
    decreases |steps|
  {
    if steps != [] {
      StepBound(cfg, p, w, steps[0], win);
      RunBound(cfg, p, Apply(cfg, w, steps[0]), steps[1..], win);
    }
  }

  /** Over every run, a stored end is at most the earliest publish time of its window plus the
  longest window, if and only if every hold into it was timely. */
  lemma EarliestBoundIff(cfg: Config, p: Policy, steps: seq<Step>, win: string)
    requires Legal(cfg, START, steps) && GovernedRun(cfg, p, START, steps)
    requires win in Run(cfg, START, steps).ledger.store.windows
    ensures HeldEvents(Run(cfg, START, steps).ledger.store, win) != []
    ensures var st := Run(cfg, START, steps).ledger.store;
      st.windows[win].end <= Earliest(HeldEvents(st, win)) + p.maxWindow <==> TimelyRun(cfg, p, START, steps, win)
  {
    RunBound(cfg, p, START, steps, win);
    StoredEndIsBounded(cfg, p, steps, win);
    FirstIsHeld(Run(cfg, START, steps).ledger.store, win);
    EarliestBoundedIs(p, Run(cfg, START, steps).ledger.store, win);
  }

  // --- A run that breaks it ----------------------------------------------------------------------

  lemma GovernedThen(cfg: Config, p: Policy, w: World, steps: seq<Step>, s: Step)
    requires Legal(cfg, w, steps) && GovernedRun(cfg, p, w, steps)
    requires Enabled(Run(cfg, w, steps), s) && Governed(p, Run(cfg, w, steps), s)
    ensures Legal(cfg, w, steps + [s]) && GovernedRun(cfg, p, w, steps + [s])
    ensures Run(cfg, w, steps + [s]) == Apply(cfg, Run(cfg, w, steps), s)
  {
    Then(cfg, w, steps, s);
    GovernedMore(cfg, p, w, steps, s);
  }

  lemma {:induction false} GovernedMore(cfg: Config, p: Policy, w: World, steps: seq<Step>, s: Step)
    requires Legal(cfg, w, steps) && Legal(cfg, w, steps + [s]) && GovernedRun(cfg, p, w, steps)
    requires Governed(p, Run(cfg, w, steps), s)
    ensures GovernedRun(cfg, p, w, steps + [s])
    decreases |steps|
  {
    if steps == [] {
      assert [] + [s] == [s] && [s][1..] == [];
    } else {
      assert (steps + [s])[1..] == steps[1..] + [s] && (steps + [s])[0] == steps[0];
      GovernedMore(cfg, p, Apply(cfg, w, steps[0]), steps[1..], s);
    }
  }

  const TEN_HOURS := Policy(true, true, true, 10.0, 0.0, 100.0, 1.0)

  const EARLY := Message("early", "", "", Some(1.0), 1.0)
  const LATE := Message("late", "", "", Some(6.0), 6.0)

  function EventFor(m: Message): Event { Event(m.id, m.title, m.message, 0.0, m.time) }

  const BEFORE := CalendarWindow("w", "", 5.0, 15.0)
  const AFTER := CalendarWindow("w", "", 0.0, 8.0)

  /** Two alerts, the first published before any window is known. */
  lemma TwoPublished(cfg: Config) returns (steps: seq<Step>, w: World)
    ensures Legal(cfg, START, steps) && GovernedRun(cfg, TEN_HOURS, START, steps) && w == Run(cfg, START, steps)
    ensures w == START.(topic := [EARLY, LATE], now := 6.0)
  {
    steps := [];
    GovernedThen(cfg, TEN_HOURS, START, steps, Elapse(1.0));
    steps := steps + [Elapse(1.0)];
    GovernedThen(cfg, TEN_HOURS, START, steps, Publish(EARLY));
    steps := steps + [Publish(EARLY)];
    GovernedThen(cfg, TEN_HOURS, START, steps, Elapse(6.0));
    steps := steps + [Elapse(6.0)];
    GovernedThen(cfg, TEN_HOURS, START, steps, Publish(LATE));
    steps := steps + [Publish(LATE)];
    w := Run(cfg, START, steps);
  }

  function StoreWith(rows: seq<HeldRow>): Store { Store(map["w" := HoldWindow("", 5.0, 15.0, None)], rows) }

  lemma HoldsLate(cfg: Config)
    ensures HoldEvent(cfg, START.ledger, EventFor(LATE), 6.0, [BEFORE], 6.0, false).next
         == Ledger(StoreWith([RowOf(cfg, EventFor(LATE), "w", 6.0, 6.0)]), map[], [])
  {
    assert [BEFORE][..0] == [];
    assert LatestOpen(START.ledger, []) == None;
    assert LatestOpen(START.ledger, [BEFORE]) == Some(BEFORE);
    assert !IdHeld(START.ledger.store, "late");
  }

  lemma HoldsEarly(cfg: Config, led: Ledger)
    requires led == Ledger(StoreWith([RowOf(cfg, EventFor(LATE), "w", 6.0, 6.0)]), map[], [])
    ensures HoldEvent(cfg, led, EventFor(EARLY), 1.0, [AFTER], 6.0, false).next
         == Ledger(StoreWith(led.store.rows + [RowOf(cfg, EventFor(EARLY), "w", 1.0, 6.0)]), map[], [])
  {
    assert [AFTER][..0] == [];
    assert LatestOpen(led, []) == None;
    assert LatestOpen(led, [AFTER]) == Some(AFTER);
    assert !IdHeld(led.store, "early");
  }

  /** The first alert finds no window and goes on; the second is held; the process dies before
  the cursor passes the first. */
  lemma LateHeldThenCrashed(cfg: Config) returns (steps: seq<Step>, w: World)
    ensures Legal(cfg, START, steps) && GovernedRun(cfg, TEN_HOURS, START, steps) && w == Run(cfg, START, steps)
    ensures w.topic == [EARLY, LATE] && w.now == 6.0 && !w.up && w.received == 0 && w.dispatched == 0
    ensures w.ledger == Ledger(StoreWith([RowOf(cfg, EventFor(LATE), "w", 6.0, 6.0)]), map[], [])
  {
    var s0, w0 := TwoPublished(cfg);
    GovernedThen(cfg, TEN_HOURS, START, s0, Restart);
    var s1 := s0 + [Restart];
    GovernedThen(cfg, TEN_HOURS, START, s1, Deliver);
    var s2 := s1 + [Deliver];
    GovernedThen(cfg, TEN_HOURS, START, s2, Deliver);
    var s3 := s2 + [Deliver];
    var pass := HoldRow(0, EventFor(EARLY), [], false);
    GovernedThen(cfg, TEN_HOURS, START, s3, pass);
    var hold := HoldRow(1, EventFor(LATE), [BEFORE], false);
    HoldsLate(cfg);
    GovernedThen(cfg, TEN_HOURS, START, s3 + [pass], hold);
    var s4 := s3 + [pass] + [hold];
    GovernedThen(cfg, TEN_HOURS, START, s4, Crash);
    steps := s4 + [Crash];
    w := Run(cfg, START, steps);
  }

  lemma EarliestOfBoth(cfg: Config, st: Store)
    requires st == StoreWith([RowOf(cfg, EventFor(LATE), "w", 6.0, 6.0)] + [RowOf(cfg, EventFor(EARLY), "w", 1.0, 6.0)])
    ensures HeldEvents(st, "w") != [] && Earliest(HeldEvents(st, "w")) <= 1.0
  {
    var row := RowOf(cfg, EventFor(EARLY), "w", 1.0, 6.0);
    assert st.rows[1] == row;
    HeldEventsMembers(st, "w", row);
  }

  /** The calendar has moved the window earlier by the time the first alert is replayed: it is
  held in the window whose end was stored before, more than the longest window later. */
  lemma MovedEarlierPassesTheBound(cfg: Config) returns (steps: seq<Step>)
    ensures Legal(cfg, START, steps) && GovernedRun(cfg, TEN_HOURS, START, steps)
    ensures var st := Run(cfg, START, steps).ledger.store;
      && "w" in st.windows && HeldEvents(st, "w") != []
      && st.windows["w"].end > Earliest(HeldEvents(st, "w")) + TEN_HOURS.maxWindow
  {
    var s0, w0 := LateHeldThenCrashed(cfg);
    GovernedThen(cfg, TEN_HOURS, START, s0, Restart);
    GovernedThen(cfg, TEN_HOURS, START, s0 + [Restart], Deliver);
    var hold := HoldRow(0, EventFor(EARLY), [AFTER], false);
    HoldsEarly(cfg, w0.ledger);
    GovernedThen(cfg, TEN_HOURS, START, s0 + [Restart] + [Deliver], hold);
    steps := s0 + [Restart] + [Deliver] + [hold];
    EarliestOfBoth(cfg, Run(cfg, START, steps).ledger.store);
  }
}
