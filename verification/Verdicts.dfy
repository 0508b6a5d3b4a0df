/** What a release verdict says of the stored end, the clock, the calendar, the rows, the
stream and the identities in flight: `_consider` of `henk/events/release.py`. */
module Verdicts {
  import opened Common
  import opened Cadence
  import opened Holds
  import opened Calendar
  import opened Releasing

  ghost predicate HasRows(st: Store, win: string) {
    exists r :: r in st.rows && r.windowId == win
  }

  /** Calendar entry `n` is this window's, active now. */
  predicate Shows(p: Policy, windows: seq<CalendarWindow>, n: nat, win: string, now: real)
    requires n < |windows|
  {
    windows[n].id == win && windows[n].start <= now && now < windows[n].end + p.grace
  }

  predicate FirstShown(p: Policy, windows: seq<CalendarWindow>, n: nat, win: string, now: real) {
    n < |windows| && Shows(p, windows, n, win, now) && forall m :: 0 <= m < n ==> !Shows(p, windows, m, win, now)
  }

  /** The calendar still shows the window, ending at `end`, and it began no later than any
  event held for it was published. */
  ghost predicate ExtendedTo(p: Policy, calendar: Option<seq<CalendarWindow>>, st: Store, win: string, now: real, end: real) {
    calendar.Some? && exists n: nat ::
      && FirstShown(p, calendar.value, n, win, now) && calendar.value[n].end == end
      && forall r :: r in st.rows && r.windowId == win ==> calendar.value[n].start <= r.publishedAt
  }

  ghost predicate Extends(p: Policy, calendar: Option<seq<CalendarWindow>>, st: Store, win: string, now: real) {
    exists end :: ExtendedTo(p, calendar, st, win, now, end)
  }

  /** One fallback has passed since the grace ended and since this process first subscribed. */
  predicate WaitedLongEnough(p: Policy, end: real, first: Option<real>, now: real) {
    first.Some? && end + p.grace + p.fallback <= now && first.value + p.fallback <= now
  }

  ghost predicate SharesIdentity(led: Ledger, win: string) {
    exists v, r :: v in led.inFlight && r in led.store.rows && r.windowId == win && r.key in led.inFlight[v]
  }

  lemma HasHeld(st: Store, win: string)
    ensures HeldEvents(st, win) != [] <==> HasRows(st, win)
  {
    if HeldEvents(st, win) != [] {
      HeldEventsMembers(st, win, HeldEvents(st, win)[0]);
    }
    if r :| r in st.rows && r.windowId == win { HeldEventsMembers(st, win, r); }
  }

  lemma {:induction false} FirstOfConcat(a: seq<CalendarWindow>, w: CalendarWindow, id: string)
    ensures FirstWithId(a + [w], id)
         == if FirstWithId(a, id).Some? then FirstWithId(a, id) else if w.id == id then Some(w) else None
  {
    if a == [] {
      assert [] + [w] == [w] && [w][1..] == [];
    } else {
      assert (a + [w])[1..] == a[1..] + [w];
      FirstOfConcat(a[1..], w, id);
    }
  }

  /** The first active entry with an id, found by one scan. */
  lemma {:induction false} FirstShownIs(p: Policy, windows: seq<CalendarWindow>, win: string, now: real)
    ensures FirstWithId(ActiveOf(p, windows, now), win).None? <==> forall n :: 0 <= n < |windows| ==> !Shows(p, windows, n, win, now)
    ensures forall n: nat :: FirstShown(p, windows, n, win, now) ==> FirstWithId(ActiveOf(p, windows, now), win) == Some(windows[n])
  {
    if windows != [] {
      var front, w := windows[..|windows| - 1], windows[|windows| - 1];
      FirstShownIs(p, front, win, now);
      FirstOfConcat(ActiveOf(p, front, now), w, win);
      assert ActiveAt(p, w, now) && w.id == win <==> Shows(p, windows, |front|, win, now);
      if n :| 0 <= n < |front| && Shows(p, front, n, win, now) { assert Shows(p, windows, n, win, now); }
      forall n | 0 <= n < |front| ensures Shows(p, windows, n, win, now) ==> Shows(p, front, n, win, now) { }
      forall n: nat | FirstShown(p, windows, n, win, now)
        ensures FirstWithId(ActiveOf(p, windows, now), win) == Some(windows[n])
      {
        if n < |front| {
          forall m | 0 <= m < n ensures !Shows(p, front, m, win, now) { assert !Shows(p, windows, m, win, now); }
          assert FirstShown(p, front, n, win, now);
        } else {
          forall m | 0 <= m < |front| ensures !Shows(p, front, m, win, now) { assert !Shows(p, windows, m, win, now); }
        }
      }
    }
  }

  lemma {:induction false} SomeFirstShown(p: Policy, windows: seq<CalendarWindow>, k: nat, win: string, now: real) returns (n: nat)
    requires k < |windows| && Shows(p, windows, k, win, now)
    ensures FirstShown(p, windows, n, win, now)
  {
    if m :| 0 <= m < k && Shows(p, windows, m, win, now) { n := SomeFirstShown(p, windows, m, win, now); } else { n := k; }
  }

  lemma ExtensionIs(p: Policy, calendar: Option<seq<CalendarWindow>>, st: Store, win: string, now: real, end: real)
    requires HeldEvents(st, win) != []
    ensures Extension(p, calendar, win, HeldEvents(st, win), now) == Some(end) <==> ExtendedTo(p, calendar, st, win, now, end)
  {
    var rows := HeldEvents(st, win);
    forall r ensures r in rows <==> r in st.rows && r.windowId == win { HeldEventsMembers(st, win, r); }
    if calendar.Some? {
      FirstShownIs(p, calendar.value, win, now);
      if k :| 0 <= k < |calendar.value| && Shows(p, calendar.value, k, win, now) {
        var n := SomeFirstShown(p, calendar.value, k, win, now);
      }
    }
  }

  lemma SharesIs(led: Ledger, win: string)
    ensures InFlightIdentities(led.inFlight) !! RowKeys(HeldEvents(led.store, win)) <==> !SharesIdentity(led, win)
  {
    var rows := HeldEvents(led.store, win);
    forall r ensures r in rows <==> r in led.store.rows && r.windowId == win { HeldEventsMembers(led.store, win, r); }
    if SharesIdentity(led, win) {
      var v, r :| v in led.inFlight && r in led.store.rows && r.windowId == win && r.key in led.inFlight[v];
      var i :| 0 <= i < |rows| && rows[i] == r;
      assert r.key in RowKeys(rows) && r.key in InFlightIdentities(led.inFlight);
    }
  }

  /** Past its grace, with rows, and no longer shown by the calendar. */
  ghost predicate Ripe(p: Policy, st: Store, win: string, calendar: Option<seq<CalendarWindow>>, now: real)
    requires win in st.windows
  {
    st.windows[win].end + p.grace <= now && HasRows(st, win) && !Extends(p, calendar, st, win, now)
  }

  /** The verdict on a window, in full: what it says of each of the six answers. */
  lemma VerdictMeans(p: Policy, led: Ledger, win: string, calendar: Option<seq<CalendarWindow>>, caughtUp: bool,
                     first: Option<real>, now: real)
    requires win in led.store.windows
    ensures var v, st := Consider(p, led, win, calendar, caughtUp, first, now), led.store;
      var over, ripe := st.windows[win].end + p.grace <= now, Ripe(p, st, win, calendar, now);
      var read := caughtUp || WaitedLongEnough(p, st.windows[win].end, first, now);
      && (v == NotDue <==> !over)
      && (v == NoRows <==> over && !HasRows(st, win))
      && (forall end :: v == Extended(end) <==> over && HasRows(st, win) && ExtendedTo(p, calendar, st, win, now, end))
      && (v == AwaitsCatchUp <==> ripe && !read)
      && (v == AwaitsShared <==> ripe && read && SharesIdentity(led, win))
      && (v == Goes <==> ripe && read && !SharesIdentity(led, win))
  {
    HasHeld(led.store, win);
    SharesIs(led, win);
    if HeldEvents(led.store, win) != [] {
      forall end
        ensures Extension(p, calendar, win, HeldEvents(led.store, win), now) == Some(end)
            <==> ExtendedTo(p, calendar, led.store, win, now, end)
      {
        ExtensionIs(p, calendar, led.store, win, now, end);
      }
    }
  }
}
