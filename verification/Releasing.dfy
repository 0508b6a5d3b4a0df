/** When a held window is released: `henk/events/release.py`, and why holding is bounded. */
module Releasing {
  import opened Common
  import opened Cadence
  import opened Holds
  import opened Calendar
  import opened Protocol

  /** What one tick decides about one unreleased window. */
  datatype Verdict = NotDue | NoRows | Extended(end: real) | AwaitsCatchUp | AwaitsShared | Goes

  function Earliest(rows: seq<HeldRow>): (t: real)
    requires rows != []
    ensures forall r :: r in rows ==> t <= r.publishedAt
    ensures exists r :: r in rows && t == r.publishedAt
  {
    var last := rows[|rows| - 1];
    assert rows == rows[..|rows| - 1] + [last];
    if |rows| == 1 then last.publishedAt
    else
      var t := Earliest(rows[..|rows| - 1]);
      if last.publishedAt < t then last.publishedAt else t
  }

  /** The extension rule: the calendar's new end, when the window is active now there and
  began no later than the earliest held event. `calendar` is None when it is switched off. */
  function Extension(p: Policy, calendar: Option<seq<CalendarWindow>>, win: string, rows: seq<HeldRow>,
                     now: real): Option<real>
    requires rows != []
  {
    if calendar.None? then None
    else
      var current := FirstWithId(ActiveOf(p, calendar.value, now), win);
      if current.None? || current.value.start > Earliest(rows) then None else Some(current.value.end)
  }

  predicate FallbackDue(p: Policy, due: real, first: Option<real>, now: real) {
    first.Some? && Max(due, first.value) + p.fallback <= now
  }

  function Consider(p: Policy, led: Ledger, win: string, calendar: Option<seq<CalendarWindow>>,
                    caughtUp: bool, first: Option<real>, now: real): Verdict
    requires win in led.store.windows
  {
    var due := led.store.windows[win].end + p.grace;
    var rows := HeldEvents(led.store, win);
    if now < due then NotDue
    else if rows == [] then NoRows
    else
      var extension := Extension(p, calendar, win, rows, now);
      if extension.Some? then Extended(extension.value)
      else if !(caughtUp || FallbackDue(p, due, first, now)) then AwaitsCatchUp
      else if !(InFlightIdentities(led.inFlight) !! RowKeys(rows)) then AwaitsShared
      else Goes
  }

  /** An extension always moves the stored end strictly later. */
  lemma ExtensionMovesLater(p: Policy, led: Ledger, win: string, calendar: Option<seq<CalendarWindow>>,
                            caughtUp: bool, first: Option<real>, now: real)
    requires win in led.store.windows && Consider(p, led, win, calendar, caughtUp, first, now).Extended?
    ensures Consider(p, led, win, calendar, caughtUp, first, now).end > led.store.windows[win].end
  {
    var current := FirstWithId(ActiveOf(p, calendar.value, now), win);
    assert ActiveAt(p, current.value, now);
  }

  // --- The bound -------------------------------------------------------------------------

  /** The publish time of the first row held for this window, in holding order. */
  function FirstPublished(rows: seq<HeldRow>, win: string): Option<real> {
    if rows == [] then None
    else
      var before := FirstPublished(rows[..|rows| - 1], win);
      if before.Some? then before
      else if rows[|rows| - 1].windowId == win then Some(rows[|rows| - 1].publishedAt) else None
  }

  lemma {:induction false} FirstPublishedIsRow(rows: seq<HeldRow>, win: string)
    ensures FirstPublished(rows, win).None? <==> forall r :: r in rows ==> r.windowId != win
    ensures FirstPublished(rows, win).Some? ==>
              exists r :: r in rows && r.windowId == win && r.publishedAt == FirstPublished(rows, win).value
  {
    if rows != [] {
      assert rows == rows[..|rows| - 1] + [rows[|rows| - 1]];
      FirstPublishedIsRow(rows[..|rows| - 1], win);
    }
  }

  lemma FirstPublishedStays(rows: seq<HeldRow>, row: HeldRow, win: string)
    ensures FirstPublished(rows, win).Some? ==> FirstPublished(rows + [row], win) == FirstPublished(rows, win)
    ensures FirstPublished(rows, win).None? ==>
              FirstPublished(rows + [row], win) == if row.windowId == win then Some(row.publishedAt) else None
  {
    assert (rows + [row])[..|rows|] == rows;
  }

  predicate EndBounded(p: Policy, st: Store, win: string)
    requires win in st.windows
  {
    var first := FirstPublished(st.rows, win);
    first.Some? && st.windows[win].end <= first.value + p.maxWindow
  }

  ghost predicate EndsBounded(p: Policy, st: Store) {
    (forall r :: r in st.rows ==> r.windowId in st.windows) && forall win :: win in st.windows ==> EndBounded(p, st, win)
  }

  /** Holds name windows the calendar admits as active at the publish time, and the end moves
  only as the extension rule says: what the coordinator and the releaser do. */
  ghost predicate Governed(p: Policy, w: World, s: Step) {
    match s
    case HoldRow(_, e, active, _) =>
      forall v :: v in active ==> Admitted(p, v) && ActiveAt(p, v, PublishTime(e))
    case ExtendWindow(win, end) => Unreleased(w.ledger.store, win) && MayExtend(p, w.ledger, win, end, w.now)
    case _ => true
  }

  ghost predicate MayExtend(p: Policy, led: Ledger, win: string, end: real, now: real)
    requires win in led.store.windows
  {
    exists windows, caughtUp, first ::
      && (forall v :: v in windows ==> Admitted(p, v))
      && Consider(p, led, win, Some(windows), caughtUp, first, now) == Extended(end)
  }

  ghost predicate GovernedRun(cfg: Config, p: Policy, w: World, steps: seq<Step>)
    requires Legal(cfg, w, steps)
    decreases |steps|
  {
    steps == [] || (Governed(p, w, steps[0]) && GovernedRun(cfg, p, Apply(cfg, w, steps[0]), steps[1..]))
  }

  lemma HoldKeepsEndsBounded(cfg: Config, p: Policy, led: Ledger, e: Event, active: seq<CalendarWindow>,
                             heldAt: real, fails: bool)
    requires EndsBounded(p, led.store)
    requires forall v :: v in active ==> Admitted(p, v) && ActiveAt(p, v, PublishTime(e))
    ensures EndsBounded(p, HoldEvent(cfg, led, e, PublishTime(e), active, heldAt, fails).next.store)
  {
    var h := HoldEvent(cfg, led, e, PublishTime(e), active, heldAt, fails);
    if h.result == WasHeld {
      var w := LatestOpen(led, active).value;
      var row := RowOf(cfg, e, w.id, PublishTime(e), heldAt);
      forall win | win in h.next.store.windows ensures EndBounded(p, h.next.store, win) {
        FirstPublishedStays(led.store.rows, row, win);
        if win in led.store.windows { assert EndBounded(p, led.store, win); }
        else { assert win == w.id; FirstPublishedIsRow(led.store.rows, win); }
      }
    }
  }

  lemma FirstIsHeld(st: Store, win: string)
    requires FirstPublished(st.rows, win).Some?
    ensures HeldEvents(st, win) != [] && Earliest(HeldEvents(st, win)) <= FirstPublished(st.rows, win).value
  {
    FirstPublishedIsRow(st.rows, win);
    var r :| r in st.rows && r.windowId == win && r.publishedAt == FirstPublished(st.rows, win).value;
    HeldEventsMembers(st, win, r);
  }

  /** The extension rule's new end is within the bound too. */
  lemma ExtensionIsBounded(p: Policy, led: Ledger, win: string, end: real, now: real)
    requires win in led.store.windows && MayExtend(p, led, win, end, now) && FirstPublished(led.store.rows, win).Some?
    ensures end <= FirstPublished(led.store.rows, win).value + p.maxWindow
  {
    FirstIsHeld(led.store, win);
    var windows, caughtUp, first :|
      && (forall v :: v in windows ==> Admitted(p, v))
      && Consider(p, led, win, Some(windows), caughtUp, first, now) == Extended(end);
    assert Extension(p, Some(windows), win, HeldEvents(led.store, win), now) == Some(end);
    CurrentIsAdmitted(p, windows, win, HeldEvents(led.store, win), now);
  }

  lemma CurrentIsAdmitted(p: Policy, windows: seq<CalendarWindow>, win: string, rows: seq<HeldRow>, now: real)
    requires rows != [] && Extension(p, Some(windows), win, rows, now).Some?
    requires forall v :: v in windows ==> Admitted(p, v)
    ensures Extension(p, Some(windows), win, rows, now).value <= Earliest(rows) + p.maxWindow
  {
    var current := FirstWithId(ActiveOf(p, windows, now), win).value;
    assert current in windows && Admitted(p, current);
  }

  lemma ExtendKeepsEndsBounded(p: Policy, led: Ledger, win: string, end: real, now: real)
    requires EndsBounded(p, led.store) && win in led.store.windows && MayExtend(p, led, win, end, now)
    ensures EndsBounded(p, Extend(led.store, win, end))
  {
    assert EndBounded(p, led.store, win);
    ExtensionIsBounded(p, led, win, end, now);
    var st := Extend(led.store, win, end);
    forall v | v in st.windows ensures EndBounded(p, st, v) { assert EndBounded(p, led.store, v); }
  }

  lemma MarkKeepsEndsBounded(p: Policy, led: Ledger, win: string, at: real, fails: bool, written: bool)
    requires EndsBounded(p, led.store)
    ensures EndsBounded(p, MarkReleased(led, win, at, fails, written).store)
  {
    var st := MarkReleased(led, win, at, fails, written).store;
    forall v | v in st.windows ensures EndBounded(p, st, v) { assert EndBounded(p, led.store, v); }
  }

  lemma StepKeepsEndsBounded(cfg: Config, p: Policy, w: World, s: Step)
    requires EndsBounded(p, w.ledger.store) && Enabled(w, s) && Governed(p, w, s)
    ensures EndsBounded(p, Apply(cfg, w, s).ledger.store)
  {
    match s
    case HoldRow(_, e, active, fails) => HoldKeepsEndsBounded(cfg, p, w.ledger, e, active, w.now, fails);
    case ExtendWindow(win, end) => ExtendKeepsEndsBounded(p, w.ledger, win, end, w.now);
    case ReleaseTick(r, fails, written) => MarkKeepsEndsBounded(p, w.ledger, r.windowId, w.now, fails, written);
    case MarkWindow(fails, written) => MarkKeepsEndsBounded(p, w.ledger, w.queue[0].window, w.now, fails, written);
    case _ =>
  }

  lemma {:induction false} RunKeepsEndsBounded(cfg: Config, p: Policy, w: World, steps: seq<Step>)
    requires EndsBounded(p, w.ledger.store) && Legal(cfg, w, steps) && GovernedRun(cfg, p, w, steps)
    ensures EndsBounded(p, Run(cfg, w, steps).ledger.store)
    decreases |steps|
  {
    if steps != [] {
      StepKeepsEndsBounded(cfg, p, w, steps[0]);
      RunKeepsEndsBounded(cfg, p, Apply(cfg, w, steps[0]), steps[1..]);
    }
  }

  /** Over every run, crashes and restarts included, a stored end is at most the publish time
  of the first event held in its window plus the longest window the calendar may hold. */
  lemma StoredEndIsBounded(cfg: Config, p: Policy, steps: seq<Step>, win: string)
    requires Legal(cfg, START, steps) && GovernedRun(cfg, p, START, steps)
    requires win in Run(cfg, START, steps).ledger.store.windows
    ensures var st := Run(cfg, START, steps).ledger.store;
      var first := FirstPublished(st.rows, win);
      first.Some? && st.windows[win].end <= first.value + p.maxWindow
  {
    RunKeepsEndsBounded(cfg, p, START, steps);
    assert EndBounded(p, Run(cfg, START, steps).ledger.store, win);
  }

  /** The tick lets the window go, unless one of its identities is in an in-flight release. */
  predicate ReleasesUnlessShared(p: Policy, led: Ledger, win: string, calendar: Option<seq<CalendarWindow>>,
                                 caughtUp: bool, first: Option<real>, now: real)
    requires win in led.store.windows
  {
    var shared := !(InFlightIdentities(led.inFlight) !! RowKeys(HeldEvents(led.store, win)));
    Consider(p, led, win, calendar, caughtUp, first, now) == if shared then AwaitsShared else Goes
  }

  lemma NoExtensionPastBound(p: Policy, windows: seq<CalendarWindow>, win: string, rows: seq<HeldRow>,
                             first: real, now: real)
    requires rows != [] && Earliest(rows) <= first && first + p.maxWindow + p.grace <= now
    requires forall v :: v in windows ==> Admitted(p, v)
    ensures Extension(p, Some(windows), win, rows, now).None?
  {
    var current := FirstWithId(ActiveOf(p, windows, now), win);
    if current.Some? { assert Admitted(p, current.value) && ActiveAt(p, current.value, now); }
  }

  /** Past that bound, the grace and the fallback (counted from this process's first
  subscribe if later), a tick releases the window whatever the calendar and the stream
  say, unless an in-flight release is triaging one of its identities. */
  lemma PastBoundCannotDefer(p: Policy, led: Ledger, win: string, calendar: Option<seq<CalendarWindow>>,
                             caughtUp: bool, first: Option<real>, start: real, now: real)
    requires win in led.store.windows && FirstPublished(led.store.rows, win) == Some(start)
    requires EndBounded(p, led.store, win) && p.fallback >= 0.0
    requires calendar.Some? ==> forall v :: v in calendar.value ==> Admitted(p, v)
    requires first.Some? && Max(start + p.maxWindow + p.grace, first.value) + p.fallback <= now
    ensures ReleasesUnlessShared(p, led, win, calendar, caughtUp, first, now)
  {
    FirstIsHeld(led.store, win);
    PastStartGoes(p, led, win, calendar, caughtUp, first, start, now);
  }

  /** The same, from the publish time of some row that bounds the end. */
  lemma PastStartGoes(p: Policy, led: Ledger, win: string, calendar: Option<seq<CalendarWindow>>, caughtUp: bool,
                      first: Option<real>, start: real, now: real)
    requires win in led.store.windows && led.store.windows[win].end <= start + p.maxWindow && p.fallback >= 0.0
    requires HeldEvents(led.store, win) != [] && Earliest(HeldEvents(led.store, win)) <= start
    requires calendar.Some? ==> forall v :: v in calendar.value ==> Admitted(p, v)
    requires first.Some? && Max(start + p.maxWindow + p.grace, first.value) + p.fallback <= now
    ensures ReleasesUnlessShared(p, led, win, calendar, caughtUp, first, now)
  {
    BoundIsPast(p, led.store.windows[win].end + p.grace, start + p.maxWindow + p.grace, first, now);
    NoExtensionAtAll(p, calendar, win, HeldEvents(led.store, win), start, now);
    DueAndReadGoes(p, led, win, calendar, caughtUp, first, now);
  }

  lemma NoExtensionAtAll(p: Policy, calendar: Option<seq<CalendarWindow>>, win: string, rows: seq<HeldRow>, start: real, now: real)
    requires rows != [] && Earliest(rows) <= start && start + p.maxWindow + p.grace <= now
    requires calendar.Some? ==> forall v :: v in calendar.value ==> Admitted(p, v)
    ensures Extension(p, calendar, win, rows, now).None?
  {
    if calendar.Some? { NoExtensionPastBound(p, calendar.value, win, rows, start, now); }
  }

  lemma DueAndReadGoes(p: Policy, led: Ledger, win: string, calendar: Option<seq<CalendarWindow>>, caughtUp: bool,
                       first: Option<real>, now: real)
    requires win in led.store.windows && led.store.windows[win].end + p.grace <= now && HeldEvents(led.store, win) != []
    requires Extension(p, calendar, win, HeldEvents(led.store, win), now).None?
    requires FallbackDue(p, led.store.windows[win].end + p.grace, first, now)
    ensures ReleasesUnlessShared(p, led, win, calendar, caughtUp, first, now)
  {
  }

  lemma BoundIsPast(p: Policy, due: real, bound: real, first: Option<real>, now: real)
    requires due <= bound && first.Some? && p.fallback >= 0.0 && Max(bound, first.value) + p.fallback <= now
    ensures due <= now && bound <= now && FallbackDue(p, due, first, now)
  {
  }
}
