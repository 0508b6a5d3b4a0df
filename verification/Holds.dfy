/** Holding events in maintenance windows: `henk/events/holds.py` over the repository
`henk/store/holds.py`.

Rows are kept in insertion order, so SQL's `ORDER BY published_at, rowid` is a stable
sort by publish time. A store failure is a boolean argument (`fails`): the transaction
rolls back, so a failing call changes nothing.
*/
module Holds {
  import opened Common
  import opened Cadence

  // --- Rows --------------------------------------------------------------------------

  datatype HoldWindow = HoldWindow(title: string, start: real, end: real, released: Option<real>)

  datatype HeldRow = HeldRow(eventId: string, windowId: string, key: string, state: EventState,
                             title: string, message: string,
                             publishedAt: real, arrival: real, heldAt: real)

  datatype Store = Store(windows: map<string, HoldWindow>, rows: seq<HeldRow>)

  /** A window as the calendar snapshot knows it. */
  datatype CalendarWindow = CalendarWindow(id: string, title: string, start: real, end: real)

  function PublishTime(e: Event): real {
    if e.publishedAt.Some? then e.publishedAt.value else e.arrival
  }

  function RowOf(cfg: Config, e: Event, windowId: string, published: real, heldAt: real): HeldRow {
    var identity := IdentityOf(cfg, e);
    HeldRow(e.id, windowId, identity.key, identity.state, e.title, e.message, published, e.arrival, heldAt)
  }

  function RebuildEvent(row: HeldRow): Event {
    Event(row.eventId, row.title, row.message, row.arrival, Some(row.publishedAt))
  }

  /** A release derives the identity again from the stored title and message, and gets the
  key the row was stored under. */
  lemma RebuildKeepsIdentity(cfg: Config, e: Event, windowId: string, heldAt: real)
    ensures var row := RowOf(cfg, e, windowId, PublishTime(e), heldAt);
      && IdentityOf(cfg, RebuildEvent(row)) == IdentityOf(cfg, e) == Identity(row.key, row.state)
      && RebuildEvent(row).id == e.id && PublishTime(RebuildEvent(row)) == PublishTime(e)
  {
    assert IdentityOf(cfg, RebuildEvent(RowOf(cfg, e, windowId, PublishTime(e), heldAt))) == IdentityOf(cfg, e);
  }

  function RowsOfWindow(rows: seq<HeldRow>, windowId: string): (r: seq<HeldRow>)
    ensures forall row :: row in r <==> row in rows && row.windowId == windowId
  {
    if rows == [] then []
    else
      var last := rows[|rows| - 1];
      assert rows == rows[..|rows| - 1] + [last];
      if last.windowId == windowId then RowsOfWindow(rows[..|rows| - 1], windowId) + [last]
      else RowsOfWindow(rows[..|rows| - 1], windowId)
  }

  lemma RowsOfWindowAppend(rows: seq<HeldRow>, row: HeldRow, windowId: string)
    ensures RowsOfWindow(rows + [row], windowId)
         == RowsOfWindow(rows, windowId) + if row.windowId == windowId then [row] else []
  {
    assert (rows + [row])[..|rows|] == rows;
  }

  function PublishedOf(row: HeldRow): real { row.publishedAt }

  /** A window's rows by publish time, ties in insertion order. */
  function HeldEvents(st: Store, windowId: string): seq<HeldRow> {
    SortBy(PublishedOf, RowsOfWindow(st.rows, windowId))
  }

  lemma HeldEventsMembers(st: Store, windowId: string, row: HeldRow)
    ensures row in HeldEvents(st, windowId) <==> row in st.rows && row.windowId == windowId
  {
    SortByMembers(PublishedOf, RowsOfWindow(st.rows, windowId), row);
  }

  // --- Grouping a window's rows --------------------------------------------------------

  predicate IsLatest(rows: seq<HeldRow>, i: nat)
    requires i < |rows|
  {
    forall j :: i < j < |rows| ==> rows[j].key != rows[i].key
  }

  function ForwardedUpTo(rows: seq<HeldRow>, n: nat): seq<HeldRow>
    requires n <= |rows|
  {
    if n == 0 then []
    else if IsLatest(rows, n - 1) && rows[n - 1].state != Resolved then
      ForwardedUpTo(rows, n - 1) + [rows[n - 1]]
    else ForwardedUpTo(rows, n - 1)
  }

  function RecoveredUpTo(rows: seq<HeldRow>, n: nat): nat
    requires n <= |rows|
  {
    if n == 0 then 0
    else RecoveredUpTo(rows, n - 1) + if IsLatest(rows, n - 1) && rows[n - 1].state == Resolved then 1 else 0
  }

  function RowKeys(rows: seq<HeldRow>): set<string> { set i | 0 <= i < |rows| :: rows[i].key }

  /** `held` and `recovered` count identities; `forwarded` is one row per identity whose
  latest held event is not resolved, that latest event, in publish order. */
  datatype HeldGroups = HeldGroups(held: nat, recovered: nat, forwarded: seq<HeldRow>)

  function Groups(rows: seq<HeldRow>): HeldGroups {
    HeldGroups(|RowKeys(rows)|, RecoveredUpTo(rows, |rows|), ForwardedUpTo(rows, |rows|))
  }

  function SettledKeys(rows: seq<HeldRow>, n: nat): set<string>
    requires n <= |rows|
  {
    set i | 0 <= i < n && IsLatest(rows, i) :: rows[i].key
  }

  lemma {:induction false} SettledCount(rows: seq<HeldRow>, n: nat)
    requires n <= |rows|
    ensures |SettledKeys(rows, n)| == RecoveredUpTo(rows, n) + |ForwardedUpTo(rows, n)|
  {
    if n == 0 {
      assert SettledKeys(rows, 0) == {};
    } else {
      SettledCount(rows, n - 1);
      SettledGrows(rows, n - 1);
    }
  }

  lemma SettledGrows(rows: seq<HeldRow>, i: nat)
    requires i < |rows|
    ensures IsLatest(rows, i) ==> rows[i].key !in SettledKeys(rows, i)
    ensures SettledKeys(rows, i + 1) == SettledKeys(rows, i) + if IsLatest(rows, i) then {rows[i].key} else {}
  {
    var grown := SettledKeys(rows, i) + if IsLatest(rows, i) then {rows[i].key} else {};
    forall k | k in SettledKeys(rows, i + 1) ensures k in grown {
      var j :| 0 <= j < i + 1 && IsLatest(rows, j) && rows[j].key == k;
      assert j < i ==> k in SettledKeys(rows, i);
    }
  }

  lemma {:induction false} LatestOfKey(rows: seq<HeldRow>, n: nat, i: nat) returns (j: nat)
    requires i < n <= |rows| && forall m :: n <= m < |rows| ==> rows[m].key != rows[i].key
    ensures i <= j < n && rows[j].key == rows[i].key && IsLatest(rows, j)
    decreases n
  {
    if rows[n - 1].key == rows[i].key { j := n - 1; } else { j := LatestOfKey(rows, n - 1, i); }
  }

  /** Held identities are the recovered ones plus the forwarded ones; the counts of a
  release line and of a hold-release record always add up. */
  lemma GroupsBalance(rows: seq<HeldRow>)
    ensures Groups(rows).held == Groups(rows).recovered + |Groups(rows).forwarded|
  {
    SettledCount(rows, |rows|);
    forall k | k in RowKeys(rows) ensures k in SettledKeys(rows, |rows|) {
      var i :| 0 <= i < |rows| && rows[i].key == k;
      var j := LatestOfKey(rows, |rows|, i);
    }
    assert RowKeys(rows) == SettledKeys(rows, |rows|);
  }

  /** Row `i` settles its identity as forwarded: the latest of its key, and not resolved. */
  predicate Forwards(rows: seq<HeldRow>, i: nat)
    requires i < |rows|
  {
    IsLatest(rows, i) && rows[i].state != Resolved
  }

  /** An identity is forwarded exactly when its latest held event is not resolved. */
  lemma {:induction false} ForwardedIffLatestUnresolved(rows: seq<HeldRow>, n: nat, row: HeldRow)
    requires n <= |rows|
    ensures row in ForwardedUpTo(rows, n) <==> exists i :: 0 <= i < n && Forwards(rows, i) && rows[i] == row
  {
    if n > 0 {
      ForwardedIffLatestUnresolved(rows, n - 1, row);
      if row in ForwardedUpTo(rows, n - 1) {
        var i :| 0 <= i < n - 1 && Forwards(rows, i) && rows[i] == row;
        assert Forwards(rows, i);
      } else if Forwards(rows, n - 1) && rows[n - 1] == row {
        assert Forwards(rows, n - 1);
      }
    }
  }

  /** `latest` maps each identity to the index of its latest row. */
  ghost predicate IndexesLatest(rows: seq<HeldRow>, latest: map<string, nat>) {
    forall i :: 0 <= i < |rows| ==> rows[i].key in latest && (latest[rows[i].key] == i <==> IsLatest(rows, i))
  }

  /** The grouping as the source computes it: a last-wins map, then a pass in row order. */
  method GroupHeld(rows: seq<HeldRow>) returns (g: HeldGroups)
    ensures g == Groups(rows)
    ensures g.held == g.recovered + |g.forwarded|
  {
    var latest := LatestPerIdentity(rows);
    var recovered, forwarded := SettleInOrder(rows, latest);
    GroupsBalance(rows);
    g := HeldGroups(|latest.Keys|, recovered, forwarded);
  }

  method SettleInOrder(rows: seq<HeldRow>, latest: map<string, nat>)
    returns (recovered: nat, forwarded: seq<HeldRow>)
    requires IndexesLatest(rows, latest)
    ensures recovered == RecoveredUpTo(rows, |rows|) && forwarded == ForwardedUpTo(rows, |rows|)
  {
    recovered, forwarded := 0, [];
    var i := 0;
    while i < |rows|
      invariant 0 <= i <= |rows|
      invariant recovered == RecoveredUpTo(rows, i) && forwarded == ForwardedUpTo(rows, i)
    {
      if latest[rows[i].key] == i {
        if rows[i].state == Resolved { recovered := recovered + 1; }
        else { forwarded := forwarded + [rows[i]]; }
      }
      i := i + 1;
    }
  }

  /** Row `at` is the last of the first `n` rows with key `k`. */
  ghost predicate LastOf(rows: seq<HeldRow>, n: nat, k: string, at: nat)
    requires n <= |rows|
  {
    at < n && rows[at].key == k && forall j :: at < j < n ==> rows[j].key != k
  }

  method LatestPerIdentity(rows: seq<HeldRow>) returns (latest: map<string, nat>)
    ensures latest.Keys == RowKeys(rows) && IndexesLatest(rows, latest)
  {
    latest := map[];
    var i := 0;
    while i < |rows|
      invariant 0 <= i <= |rows|
      invariant latest.Keys == RowKeys(rows[..i])
      invariant forall k :: k in latest ==> LastOf(rows, i, k, latest[k])
    {
      latest := latest[rows[i].key := i];
      RowKeysAppend(rows, i);
      i := i + 1;
    }
    assert rows[..i] == rows;
    LastOfIndexes(rows, latest);
  }

  lemma LastOfIndexes(rows: seq<HeldRow>, latest: map<string, nat>)
    requires latest.Keys == RowKeys(rows)
    requires forall k :: k in latest ==> LastOf(rows, |rows|, k, latest[k])
    ensures IndexesLatest(rows, latest)
  {
    forall i | 0 <= i < |rows| ensures rows[i].key in latest && (latest[rows[i].key] == i <==> IsLatest(rows, i)) {
      var k := rows[i].key;
      assert k in RowKeys(rows);
      assert LastOf(rows, |rows|, k, latest[k]);
    }
  }

  lemma RowKeysAppend(rows: seq<HeldRow>, i: nat)
    requires i < |rows|
    ensures RowKeys(rows[..i + 1]) == RowKeys(rows[..i]) + {rows[i].key}
  {
    var before, after := rows[..i], rows[..i + 1];
    forall k | k in RowKeys(before) + {rows[i].key} ensures k in RowKeys(after) {
      if k == rows[i].key { assert after[i].key == k; }
      else { var j :| 0 <= j < |before| && before[j].key == k; assert after[j].key == k; }
    }
  }

  // --- The repository --------------------------------------------------------------------

  datatype InsertStatus = Held | Duplicate | Closed

  predicate IdHeld(st: Store, id: string) { exists i :: 0 <= i < |st.rows| && st.rows[i].eventId == id }

  datatype Inserted = Inserted(next: Store, status: InsertStatus)

  /** One event against one window: the duplicate check first, the window row only if new,
  and nothing into a released window. */
  function Insert(st: Store, w: CalendarWindow, row: HeldRow): Inserted {
    if IdHeld(st, row.eventId) then Inserted(st, Duplicate)
    else
      var windows := if w.id in st.windows then st.windows
                     else st.windows[w.id := HoldWindow(w.title, w.start, w.end, None)];
      if windows[w.id].released.Some? then Inserted(st, Closed)
      else Inserted(Store(windows, st.rows + [row]), Held)
  }

  predicate Unreleased(st: Store, windowId: string) {
    windowId in st.windows && st.windows[windowId].released.None?
  }

  function Extend(st: Store, windowId: string, end: real): Store {
    if Unreleased(st, windowId) then
      st.(windows := st.windows[windowId := st.windows[windowId].(end := end)])
    else st
  }

  function MarkRow(st: Store, windowId: string, at: real): Store {
    if Unreleased(st, windowId) then
      st.(windows := st.windows[windowId := st.windows[windowId].(released := Some(at))])
    else st
  }

  /** Event ids are the rows' primary key, and every row belongs to a stored window. */
  ghost predicate StoreWF(st: Store) {
    && (forall i, j :: 0 <= i < j < |st.rows| ==> st.rows[i].eventId != st.rows[j].eventId)
    && (forall i :: 0 <= i < |st.rows| ==> st.rows[i].windowId in st.windows)
  }

  lemma InsertKeepsStoreWF(st: Store, w: CalendarWindow, row: HeldRow)
    requires StoreWF(st) && row.windowId == w.id
    ensures StoreWF(Insert(st, w, row).next)
  {
    if !IdHeld(st, row.eventId) {
      assert forall i :: 0 <= i < |st.rows| ==> st.rows[i].eventId != row.eventId;
    }
  }

  // --- The ledger ------------------------------------------------------------------------

  datatype ReleaseReceipt = ReleaseReceipt(windowId: string, held: nat, recovered: nat, forwarded: int)

  datatype Ledger = Ledger(store: Store, inFlight: map<string, set<string>>, receipts: seq<ReleaseReceipt>)

  predicate OpenWindow(led: Ledger, windowId: string) {
    && windowId !in led.inFlight
    && (windowId !in led.store.windows || led.store.windows[windowId].released.None?)
  }

  predicate TextLess(a: string, b: string) {
    if b == "" then false else if a == "" then true
    else a[0] < b[0] || (a[0] == b[0] && TextLess(a[1..], b[1..]))
  }

  /** Tuple order on (end, start, id). */
  predicate EndsBefore(a: CalendarWindow, b: CalendarWindow) {
    a.end < b.end || (a.end == b.end && (a.start < b.start || (a.start == b.start && TextLess(a.id, b.id))))
  }

  /** The open window with the latest end; the first of equals, as Python's `max`. */
  function LatestOpen(led: Ledger, active: seq<CalendarWindow>): (r: Option<CalendarWindow>)
    ensures r.None? <==> forall w :: w in active ==> !OpenWindow(led, w.id)
    ensures r.Some? ==> r.value in active && OpenWindow(led, r.value.id)
    ensures r.Some? ==> forall w :: w in active && OpenWindow(led, w.id) ==> w.end <= r.value.end
  {
    if active == [] then None
    else
      var w := active[|active| - 1];
      assert active == active[..|active| - 1] + [w];
      var best := LatestOpen(led, active[..|active| - 1]);
      if !OpenWindow(led, w.id) then best
      else if best.None? || EndsBefore(best.value, w) then Some(w) else best
  }

  datatype HoldResult = WasHeld | WasDuplicate | NotHeld

  datatype Hold = Hold(next: Ledger, result: HoldResult)

  function HoldEvent(cfg: Config, led: Ledger, e: Event, published: real,
                     active: seq<CalendarWindow>, heldAt: real, fails: bool): Hold
  {
    var target := LatestOpen(led, active);
    if e.id == "" || active == [] || fails || target.None? then Hold(led, NotHeld)
    else
      var inserted := Insert(led.store, target.value, RowOf(cfg, e, target.value.id, published, heldAt));
      match inserted.status
      case Duplicate => Hold(led, WasDuplicate)
      case Closed => Hold(led, NotHeld)
      case Held => Hold(led.(store := inserted.next), WasHeld)
  }

  /** What `hold` does to one event, in full: it is held exactly when its id is new, no
  store call fails and some active window is open; then one row is added, in the open
  window with the latest end. Otherwise nothing changes, and only a replay is dropped. */
  lemma HoldEventOutcome(cfg: Config, led: Ledger, e: Event, published: real,
                         active: seq<CalendarWindow>, heldAt: real, fails: bool)
    ensures var h := HoldEvent(cfg, led, e, published, active, heldAt, fails);
      var willing := e.id != "" && !fails && exists w :: w in active && OpenWindow(led, w.id);
      && (h.result == WasHeld <==> willing && !IdHeld(led.store, e.id))
      && (h.result == WasDuplicate <==> willing && IdHeld(led.store, e.id))
      && (h.result != WasHeld ==> h.next == led)
      && (h.result == WasHeld ==>
            exists w :: w in active && OpenWindow(led, w.id)
              && (forall v :: v in active && OpenWindow(led, v.id) ==> v.end <= w.end)
              && h.next.store.rows == led.store.rows + [RowOf(cfg, e, w.id, published, heldAt)]
              && h.next.inFlight == led.inFlight && h.next.receipts == led.receipts)
  {
    var target := LatestOpen(led, active);
    if target.Some? && e.id != "" && !fails {
      var w := target.value;
      var inserted := Insert(led.store, w, RowOf(cfg, e, w.id, published, heldAt));
      assert w in active && OpenWindow(led, w.id);
      assert IdHeld(led.store, e.id) <==> inserted.status == Duplicate;
    }
  }

  /** A window that is released, or whose release is in flight, takes no new rows. */
  lemma ClosedWindowTakesNoRows(cfg: Config, led: Ledger, e: Event, published: real,
                                active: seq<CalendarWindow>, heldAt: real, fails: bool, windowId: string)
    requires !OpenWindow(led, windowId)
    ensures HeldEvents(HoldEvent(cfg, led, e, published, active, heldAt, fails).next.store, windowId)
         == HeldEvents(led.store, windowId)
  {
    var h := HoldEvent(cfg, led, e, published, active, heldAt, fails);
    if h.result == WasHeld {
      var w := LatestOpen(led, active).value;
      RowsOfWindowAppend(led.store.rows, RowOf(cfg, e, w.id, published, heldAt), windowId);
    }
  }

  function InFlightIdentities(inFlight: map<string, set<string>>): set<string> {
    set w, k | w in inFlight && k in inFlight[w] :: k
  }

  function ReceiptOf(st: Store, windowId: string): ReleaseReceipt {
    var g := Groups(HeldEvents(st, windowId));
    ReleaseReceipt(windowId, g.held, g.recovered, g.held - g.recovered)
  }

  /** Marking is guarded on the window being unreleased, so a second call changes only the
  in-flight set; a failing call changes nothing at all. `written` says whether the
  hold-release record reached the audit log. */
  function MarkReleased(led: Ledger, windowId: string, at: real, fails: bool, written: bool): Ledger {
    if fails then led
    else
      var popped := led.inFlight - {windowId};
      if !Unreleased(led.store, windowId) then led.(inFlight := popped)
      else Ledger(MarkRow(led.store, windowId, at), popped,
                  led.receipts + if written then [ReceiptOf(led.store, windowId)] else [])
  }

  // --- Objects ---------------------------------------------------------------------------

  class HoldLedger {
    const cfg: Config
    var windows: map<string, HoldWindow>
    var rows: seq<HeldRow>
    var inFlight: map<string, set<string>>
    var receipts: seq<ReleaseReceipt>

    ghost function View(): Ledger
      reads this
    {
      Ledger(Store(windows, rows), inFlight, receipts)
    }

    /** A process start over an existing repository: nothing is in flight. */
    constructor (cfg: Config, stored: Store, written: seq<ReleaseReceipt>)
      ensures this.cfg == cfg && View() == Ledger(stored, map[], written)
    {
      this.cfg := cfg;
      windows, rows := stored.windows, stored.rows;
      inFlight, receipts := map[], written;
    }

    method KnownIds(ids: seq<string>) returns (known: set<string>)
      ensures known == set i | 0 <= i < |ids| && IdHeld(View().store, ids[i]) :: ids[i]
    {
      known := set i | 0 <= i < |ids| && (exists j :: 0 <= j < |rows| && rows[j].eventId == ids[i]) :: ids[i];
    }

    method HoldOne(e: Event, published: real, active: seq<CalendarWindow>, heldAt: real, fails: bool)
      returns (result: HoldResult)
      modifies this`windows, this`rows
      ensures var h := HoldEvent(cfg, old(View()), e, published, active, heldAt, fails);
        View() == h.next && result == h.result
    {
      if e.id == "" || active == [] || fails { return NotHeld; }
      var target: Option<CalendarWindow> := None;
      var i := 0;
      while i < |active|
        invariant 0 <= i <= |active| && View() == old(View())
        invariant target == LatestOpen(View(), active[..i])
      {
        var w := active[i];
        assert active[..i + 1][..i] == active[..i];
        if w.id !in inFlight && (w.id !in windows || windows[w.id].released.None?)
           && (target.None? || EndsBefore(target.value, w)) {
          target := Some(w);
        }
        i := i + 1;
      }
      assert active[..i] == active;
      if target.None? { return NotHeld; }
      var window := target.value;
      if exists j :: 0 <= j < |rows| && rows[j].eventId == e.id { return WasDuplicate; }
      if window.id !in windows {
        windows := windows[window.id := HoldWindow(window.title, window.start, window.end, None)];
      }
      rows := rows + [RowOf(cfg, e, window.id, published, heldAt)];
      result := WasHeld;
    }

    /** The extension: only an unreleased window's stored end moves. */
    method MoveEnd(windowId: string, end: real) returns (moved: bool)
      modifies this`windows
      ensures View() == old(View()).(store := Extend(old(View()).store, windowId, end))
      ensures moved <==> Unreleased(old(View()).store, windowId)
    {
      moved := windowId in windows && windows[windowId].released.None?;
      if moved { windows := windows[windowId := windows[windowId].(end := end)]; }
    }

    method BeginRelease(windowId: string, keys: set<string>)
      modifies this`inFlight
      ensures inFlight == old(inFlight)[windowId := keys]
    {
      inFlight := inFlight[windowId := keys];
    }

    method Mark(windowId: string, at: real, fails: bool, written: bool) returns (marked: bool)
      modifies this
      ensures View() == MarkReleased(old(View()), windowId, at, fails, written)
      ensures marked <==> !fails && Unreleased(old(View()).store, windowId)
    {
      if fails { return false; }
      inFlight := inFlight - {windowId};
      if windowId !in windows || windows[windowId].released.Some? { return false; }
      var released := HeldEvents(Store(windows, rows), windowId);
      windows := windows[windowId := windows[windowId].(released := Some(at))];
      var g := GroupHeld(released);
      if written {
        receipts := receipts + [ReleaseReceipt(windowId, g.held, g.recovered, g.held - g.recovered)];
      }
      marked := true;
    }
  }
}
