/** Runs that show the hypotheses of the protocol theorems are needed. */
module ProtocolCounterexamples {
  import opened Common
  import opened Cadence
  import opened Holds
  import opened Protocol

  // --- One alert, one window ------------------------------------------------------------------

  function OneKey(title: string, message: string): Identity { Identity("k", Firing) }

  const CFG := Config(OneKey, 100.0, 0.0, 3, 10.0, [])

  const ALERT := Event("a", "", "", 0.0, None)
  const WINDOW := CalendarWindow("w", "", 0.0, 1.0)
  const ROW := HeldRow("a", "w", "k", Firing, "", "", 0.0, 0.0, 0.0)
  const MESSAGE := Message("a", "", "", None, 0.0)
  const STORE := Store(map["w" := HoldWindow("", 0.0, 1.0, None)], [ROW])

  /** The only batch: fresh, it is triaged; in cooldown, it is suppressed. */
  lemma OneAlertEvaluates(c: Cadence, e: Event, release: Option<HeldRelease>)
    requires e.title == "" && e.message == "" && c.refs == map[]
    ensures var ev := Evaluate(CFG, c, [e], 0.0, release);
      if "k" in c.last && c.last["k"] == 0.0 then ev.decision.turn.None? && ev.next == c
      else c.last == map[] ==>
        (ev.decision.turn.Some? && ev.next.last == map["k" := 0.0] && ev.next.refs == map[]
         && ev.decision.turn.value.items == [TurnItem(e, Identity("k", Firing), false, None)])
  {
    assert [e][..0] == [];
    assert Screen(CFG, c, [], 0.0) == Screened([], []);
    assert KeyOf(CFG, e) == "k";
    assert CooldownFor(CFG, "k") == 100.0;
    var items := [TurnItem(e, Identity("k", Firing), false, None)];
    if c.last == map[] {
      assert Screen(CFG, c, [e], 0.0).items == items;
      assert ItemKeys(items) == {"k"} by { assert items[0].identity.key == "k"; }
    }
  }

  lemma OneRowEvents()
    ensures HeldEvents(STORE, "w") == [ROW] && Rebuilt([ROW]) == [Event("a", "", "", 0.0, Some(0.0))]
  {
    assert [ROW][..0] == [];
    assert RowsOfWindow([], "w") == [];
    assert RowsOfWindow([ROW], "w") == [ROW];
    assert SortBy(PublishedOf, [ROW]) == [ROW];
  }

  lemma OneRowGroups()
    ensures RowKeys([ROW]) == {"k"} && Groups([ROW]) == HeldGroups(1, 0, [ROW])
  {
    assert [ROW][0].key == "k";
    assert RowKeys([ROW]) == {"k"};
    assert ForwardedUpTo([ROW], 0) == [] && RecoveredUpTo([ROW], 0) == 0;
    assert IsLatest([ROW], 0);
  }

  /** The alert is published, received and held, and the process dies. */
  lemma HeldThenCrashed() returns (steps: seq<Step>, w: World)
    ensures Legal(CFG, START, steps) && w == Run(CFG, START, steps)
    ensures w == START.(topic := [MESSAGE], ledger := Ledger(STORE, map[], []))
  {
    steps := [];
    Then(CFG, START, steps, Publish(MESSAGE));
    steps := steps + [Publish(MESSAGE)];
    Then(CFG, START, steps, Restart);
    steps := steps + [Restart];
    NothingToRehydrate();
    assert Run(CFG, START, steps) == START.(topic := [MESSAGE], up := true);
    Then(CFG, START, steps, Deliver);
    steps := steps + [Deliver];
    var hold := HoldRow(0, ALERT, [WINDOW], false);
    Then(CFG, START, steps, hold);
    steps := steps + [hold];
    HoldsAlert();
    Then(CFG, START, steps, Crash);
    steps := steps + [Crash];
    w := Run(CFG, START, steps);
  }

  lemma NothingToRehydrate()
    ensures Records([]) == [] && Rehydrate(CFG, EMPTY, [], 0.0) == EMPTY
  {
    assert Eligible(CFG, [], 0.0) == [];
    assert Triages(CFG, [], 0.0) == [];
    assert Replay(CFG, EMPTY, [], 0.0) == EMPTY;
    assert SortBy(Itself, []) == [];
  }

  lemma HoldsAlert()
    ensures HoldEvent(CFG, START.ledger, ALERT, 0.0, [WINDOW], 0.0, false).next == Ledger(STORE, map[], [])
  {
    assert [WINDOW][..0] == [];
    assert LatestOpen(START.ledger, []) == None;
    assert LatestOpen(START.ledger, [WINDOW]) == Some(WINDOW);
    assert !IdHeld(START.ledger.store, "a");
    assert RowOf(CFG, ALERT, "w", 0.0, 0.0) == ROW;
    assert Insert(START.ledger.store, WINDOW, ROW) == Inserted(STORE, Held);
  }

  const FROZEN := HeldRelease("w", 1, 0, 0.0, 1.0, 0.0)
  const TICK := ReleaseTick(FROZEN, false, true)
  const CLOSED := Store(map["w" := HoldWindow("", 0.0, 1.0, Some(0.0))], [ROW])

  lemma IdsOfStore(st: Store, id: string)
    requires st.rows == [ROW]
    ensures IdHeld(st, id) <==> id == "a"
  {
    assert st.rows[0].eventId == "a";
  }

  const DISPATCH := Dispatch([ALERT], [true], true, false)

  /** A process that came up with the alert held, and has just received its replay. */
  predicate Replaying(w: World) {
    && w.topic == [MESSAGE] && w.ledger == Ledger(STORE, map[], []) && w.log == [] && w.now == 0.0 && w.up
    && w.cadence == EMPTY && w.cursor == 0 && w.dispatched == 0 && w.received == 1
  }

  lemma ReplayReceived(steps0: seq<Step>, w0: World) returns (steps: seq<Step>, w: World)
    requires Legal(CFG, START, steps0) && w0 == Run(CFG, START, steps0)
    requires w0 == START.(topic := [MESSAGE], ledger := Ledger(STORE, map[], []))
    ensures Legal(CFG, START, steps) && w == Run(CFG, START, steps) && Replaying(w)
  {
    NothingToRehydrate();
    Then(CFG, START, steps0, Restart);
    Then(CFG, START, steps0 + [Restart], Deliver);
    steps := steps0 + [Restart] + [Deliver];
    w := Run(CFG, START, steps);
  }

  lemma UnreadDispatches(w: World)
    requires Replaying(w)
    ensures Enabled(w, DISPATCH)
    ensures var w' := Apply(CFG, w, DISPATCH);
      && w'.topic == [MESSAGE] && w'.ledger == Ledger(STORE, map[], []) && w'.log == [] && w'.now == 0.0 && w'.up
      && w'.cadence.last == map["k" := 0.0] && w'.cadence.refs == map[] && w'.cursor == 0
  {
    assert DispatchEnabled(w, [ALERT], [true], false);
    assert [ALERT][..0] == [] && Survivors([], []) == [] && Survivors([ALERT], [true]) == [ALERT];
    OneAlertEvaluates(w.cadence, ALERT, None);
  }

  /** On the replay the duplicate check cannot be read, so the held alert goes on as new: a
  live turn is queued and the cooldown armed. */
  lemma ReplayedUnread(steps0: seq<Step>, w0: World) returns (steps: seq<Step>, w: World)
    requires Legal(CFG, START, steps0) && w0 == Run(CFG, START, steps0)
    requires w0 == START.(topic := [MESSAGE], ledger := Ledger(STORE, map[], []))
    ensures Legal(CFG, START, steps) && w == Run(CFG, START, steps)
    ensures w.topic == [MESSAGE] && w.ledger == Ledger(STORE, map[], []) && w.log == [] && w.now == 0.0 && w.up
    ensures w.cadence.last == map["k" := 0.0] && w.cadence.refs == map[] && w.cursor == 0
  {
    steps, w := ReplayReceived(steps0, w0);
    UnreadDispatches(w);
    Then(CFG, START, steps, DISPATCH);
    w := Apply(CFG, w, DISPATCH);
    steps := steps + [DISPATCH];
  }

  /** The window's release finds the identity in cooldown, so it produces no turn and the
  window is marked; then the process dies with the live turn still queued. */
  lemma ReleasedThenCrashed(steps0: seq<Step>, w0: World) returns (steps: seq<Step>, w: World)
    requires Legal(CFG, START, steps0) && w0 == Run(CFG, START, steps0)
    requires w0.topic == [MESSAGE] && w0.ledger == Ledger(STORE, map[], []) && w0.log == [] && w0.now == 0.0 && w0.up
    requires w0.cadence.last == map["k" := 0.0] && w0.cadence.refs == map[] && w0.cursor == 0
    ensures Legal(CFG, START, steps) && w == Run(CFG, START, steps)
    ensures w.topic == [MESSAGE] && w.ledger.store == CLOSED && w.ledger.inFlight == map[] && w.log == []
    ensures w.now == 0.0 && !w.up && w.cursor == 0 && w.cadence == EMPTY && w.queue == [] && !w.latch
    ensures w.dispatched == 0 && w.received == 0
  {
    ReleaseCloses(w0);
    Then(CFG, START, steps0, TICK);
    steps := steps0 + [TICK];
    Then(CFG, START, steps, Crash);
    steps := steps + [Crash];
    w := Run(CFG, START, steps);
  }

  lemma ReleaseCloses(w: World)
    requires w.ledger == Ledger(STORE, map[], []) && w.now == 0.0 && w.up
    requires w.cadence.last == map["k" := 0.0] && w.cadence.refs == map[]
    ensures Enabled(w, TICK)
    ensures var w' := Apply(CFG, w, TICK);
      w' == w.(ledger := w'.ledger) && w'.ledger.store == CLOSED && w'.ledger.inFlight == map[]
  {
    FrozenIsReleasable(w);
    OneRowGroups();
    OneRowEvents();
    OneAlertEvaluates(w.cadence, Event("a", "", "", 0.0, Some(0.0)), Some(FROZEN));
    ClosesStore(Ledger(STORE, map[], []));
  }

  lemma FrozenIsReleasable(w: World)
    requires w.ledger == Ledger(STORE, map[], []) && w.up
    ensures Enabled(w, TICK)
  {
    OneRowGroups();
    OneRowEvents();
    StoreIsReleasable(w);
  }

  lemma StoreIsReleasable(w: World)
    requires w.ledger == Ledger(STORE, map[], []) && w.up
    requires HeldEvents(STORE, "w") == [ROW]
    ensures Releasable(w, "w")
  {
    assert InFlightIdentities(map[]) == {};
  }

  lemma ClosesStore(led: Ledger)
    requires led == Ledger(STORE, map[], [])
    ensures MarkReleased(led, "w", 0.0, false, true).store == CLOSED
    ensures MarkReleased(led, "w", 0.0, false, true).inFlight == map[]
  {
    assert STORE.windows["w" := HoldWindow("", 0.0, 1.0, Some(0.0))] == CLOSED.windows;
    var none: map<string, set<string>> := map[];
    assert none - {"w"} == none;
  }

  /** After the restart the alert is a duplicate, and the cursor passes it. */
  lemma DroppedForGood(steps0: seq<Step>, w0: World) returns (steps: seq<Step>, w: World)
    requires Legal(CFG, START, steps0) && w0 == Run(CFG, START, steps0)
    requires w0.topic == [MESSAGE] && w0.ledger.store == CLOSED && w0.ledger.inFlight == map[] && w0.log == []
    requires w0.now == 0.0 && !w0.up && w0.cursor == 0 && w0.cadence == EMPTY && w0.queue == [] && !w0.latch
    requires w0.dispatched == 0 && w0.received == 0
    ensures Legal(CFG, START, steps) && w == Run(CFG, START, steps)
    ensures w.topic == [MESSAGE] && w.ledger.store == CLOSED && w.log == [] && w.cursor == 1
  {
    NothingToRehydrate();
    Then(CFG, START, steps0, Restart);
    steps := steps0 + [Restart];
    Then(CFG, START, steps, Deliver);
    steps := steps + [Deliver];
    var dispatch := Dispatch([ALERT], [false], true, true);
    IdsOfStore(CLOSED, "a");
    assert DispatchEnabled(Run(CFG, START, steps), [ALERT], [false], true);
    Then(CFG, START, steps, dispatch);
    steps := steps + [dispatch];
    assert [ALERT][..0] == [] && Survivors([], []) == [] && Survivors([ALERT], [false]) == [];
    assert Run(CFG, START, steps).queue == [Marker(0, 1)];
    Then(CFG, START, steps, AdvanceCursor(true));
    steps := steps + [AdvanceCursor(true)];
    w := Run(CFG, START, steps);
  }

  /** Why releasing needs the duplicate check: from the first start, when the held ids of a
  replayed batch cannot be read, an alert can end up in a released window with no triage
  record, no message left to replay and no other row. */
  lemma UnreadDuplicateCheckDropsAnAlert() returns (steps: seq<Step>)
    ensures Legal(CFG, START, steps)
    ensures var w := Run(CFG, START, steps);
      && "w" in w.ledger.store.windows && w.ledger.store.windows["w"].released.Some?
      && ROW in Groups(HeldEvents(w.ledger.store, "w")).forwarded
      && w.log == [] && w.cursor == |w.topic| && w.ledger.store.rows == [ROW]
  {
    var s1, w1 := HeldThenCrashed();
    var s2, w2 := ReplayedUnread(s1, w1);
    var s3, w3 := ReleasedThenCrashed(s2, w2);
    var s4, w4 := DroppedForGood(s3, w3);
    steps := s4;
    OneRowGroups();
    OneRowEvents();
    assert HeldEvents(CLOSED, "w") == HeldEvents(STORE, "w");
  }

  // --- A session that cannot be opened ---------------------------------------------------------

  /** What the core's loop does when opening the event session raises: the exception is
  logged, the turn is gone, and nothing is recorded or latched. */
  function SessionRaised(w: World): World
    requires w.queue != []
  {
    w.(queue := w.queue[1..])
  }

  const AGAIN := Event("b", "", "", 0.0, None)

  const TWO := [MESSAGE, Message("b", "", "", None, 0.0)]

  /** Both messages received, nothing decided yet. */
  const READY := START.(topic := TWO, up := true, received := 2)

  /** The first message's turn is queued and its cooldown armed. */
  lemma FirstIsTriaged() returns (w: World)
    ensures DispatchEnabled(READY, [ALERT], [true], true)
    ensures w == Apply(CFG, READY, Dispatch([ALERT], [true], true, true))
    ensures w == READY.(dispatched := 1, queue := w.queue, cadence := w.cadence) && |w.queue| == 1
    ensures w.cadence.last == map["k" := 0.0] && w.cadence.refs == map[]
  {
    assert [ALERT][..0] == [] && Survivors([], []) == [] && Survivors([ALERT], [true]) == [ALERT];
    OneAlertEvaluates(EMPTY, ALERT, None);
    w := Apply(CFG, READY, Dispatch([ALERT], [true], true, true));
  }

  lemma SecondIsEnabled(w: World)
    requires w.up && w.topic == TWO && w.received == 2 && w.dispatched == 1 && w.ledger.store.rows == []
    ensures DispatchEnabled(w, [AGAIN], [true], true)
  {
    assert Delivers(w.topic[1], AGAIN);
  }

  lemma SecondEvaluates(c: Cadence)
    requires c.last == map["k" := 0.0] && c.refs == map[]
    ensures var ev := Evaluate(CFG, c, Survivors([AGAIN], [true]), 0.0, None);
      ev.decision.turn.None? && ev.next == c
  {
    assert [AGAIN][..0] == [] && Survivors([], []) == [] && Survivors([AGAIN], [true]) == [AGAIN];
    OneAlertEvaluates(c, AGAIN, None);
  }

  /** The second is suppressed by it, and only a marker is queued. */
  lemma SecondIsSuppressed(w: World) returns (w': World)
    requires w.queue == [] && w.now == 0.0 && w.dispatched == 1 && w.noneRepassed && w.ledger.store.rows == []
    requires w.cadence.last == map["k" := 0.0] && w.cadence.refs == map[]
    ensures w' == Dispatched(CFG, w, [AGAIN], [true], true)
    ensures w' == w.(dispatched := 2, queue := [Marker(1, 2)])
  {
    SecondEvaluates(w.cadence);
    w' := Dispatched(CFG, w, [AGAIN], [true], true);
  }

  /** Two messages of one identity. The first one's turn raises when its session is opened;
  the second is suppressed by the cooldown the first one armed, and its marker takes the
  cursor past both. Neither has a held row or a triage record. */
  lemma RaisingSessionLosesAnAlert() returns (w: World)
    ensures w.topic == TWO && w.cursor == 2 && !w.latch
    ensures !Covered(CFG, w, 0) && !Covered(CFG, w, 1)
  {
    var first := FirstIsTriaged();
    var raised := SessionRaised(first);
    assert raised == READY.(dispatched := 1, cadence := raised.cadence);
    SecondIsEnabled(raised);
    var second := SecondIsSuppressed(raised);
    assert second == Apply(CFG, raised, Dispatch([AGAIN], [true], true, true));
    w := Apply(CFG, second, AdvanceCursor(true));
  }
}
