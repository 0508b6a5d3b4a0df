/** Which maintenance windows hold alerts: `henk/calendar/windows.py` and the one admission
predicate of `henk/calendar/client.py`. Times are wall-clock seconds. */
module Calendar {
  import opened Common
  import opened Holds

  /** A calendar entry; an all-day one has no instants. */
  datatype CalendarEvent = CalendarEvent(id: string, title: string, start: Option<real>, end: Option<real>)

  datatype Policy = Policy(enabled: bool, holdAlerts: bool, eventsEnabled: bool,
                           maxWindow: real, grace: real, staleAfter: real, fallback: real)

  predicate HoldsEvent(p: Policy, e: CalendarEvent) {
    && p.enabled && p.holdAlerts && p.eventsEnabled && e.start.Some? && e.end.Some?
    && 0.0 <= e.end.value - e.start.value <= p.maxWindow
  }

  predicate Admitted(p: Policy, w: CalendarWindow) { 0.0 <= w.end - w.start <= p.maxWindow }

  /** Half open, and held until the grace after the end has passed. */
  predicate ActiveAt(p: Policy, w: CalendarWindow, t: real) { w.start <= t < w.end + p.grace }

  function Holding(p: Policy, events: seq<CalendarEvent>): (r: seq<CalendarWindow>)
    ensures forall w :: w in r ==> Admitted(p, w)
    ensures forall w :: w in r <==>
                exists e :: e in events && HoldsEvent(p, e) && w == CalendarWindow(e.id, e.title, e.start.value, e.end.value)
  {
    if events == [] then []
    else
      var e := events[|events| - 1];
      assert events == events[..|events| - 1] + [e];
      var rest := Holding(p, events[..|events| - 1]);
      if HoldsEvent(p, e) then rest + [CalendarWindow(e.id, e.title, e.start.value, e.end.value)] else rest
  }

  /** What holds alerts: with all three switches on, the timed entries that do not end before
  they start and are no longer than the maximum. */
  lemma HoldingIs(p: Policy, events: seq<CalendarEvent>, w: CalendarWindow)
    ensures w in Holding(p, events) <==>
              && p.enabled && p.holdAlerts && p.eventsEnabled && w.start <= w.end && w.end <= w.start + p.maxWindow
              && CalendarEvent(w.id, w.title, Some(w.start), Some(w.end)) in events
  {
    var e := CalendarEvent(w.id, w.title, Some(w.start), Some(w.end));
    if e in events && HoldsEvent(p, e) { assert w == CalendarWindow(e.id, e.title, e.start.value, e.end.value); }
    if w in Holding(p, events) {
      var d :| d in events && HoldsEvent(p, d) && w == CalendarWindow(d.id, d.title, d.start.value, d.end.value);
      assert d == e;
    }
  }

  function ActiveOf(p: Policy, windows: seq<CalendarWindow>, t: real): (r: seq<CalendarWindow>)
    ensures forall w :: w in r <==> w in windows && ActiveAt(p, w, t)
  {
    if windows == [] then []
    else
      var w := windows[|windows| - 1];
      assert windows == windows[..|windows| - 1] + [w];
      var rest := ActiveOf(p, windows[..|windows| - 1], t);
      if ActiveAt(p, w, t) then rest + [w] else rest
  }

  function FirstWithId(windows: seq<CalendarWindow>, id: string): (r: Option<CalendarWindow>)
    ensures r.None? <==> forall w :: w in windows ==> w.id != id
    ensures r.Some? ==> r.value in windows && r.value.id == id
  {
    if windows == [] then None
    else if windows[0].id == id then Some(windows[0]) else FirstWithId(windows[1..], id)
  }

  class MaintenanceWindows {
    const policy: Policy
    var fetchedAt: Option<real>
    var windows: seq<CalendarWindow>

    ghost predicate Valid()
      reads this
    {
      && (fetchedAt.None? ==> windows == [])
      && forall w :: w in windows ==> Admitted(policy, w)
    }

    /** The snapshot's windows; none when it is absent or stale. */
    function Usable(clock: real): seq<CalendarWindow>
      reads this
    {
      if fetchedAt.None? || clock - fetchedAt.value > policy.staleAfter then [] else windows
    }

    constructor (policy: Policy)
      ensures Valid() && this.policy == policy && fetchedAt.None?
    {
      this.policy := policy;
      fetchedAt, windows := None, [];
    }

    /** A successful read replaces the snapshot at once; a failed one keeps it whole. */
    method Refresh(now: real, answer: Option<seq<CalendarEvent>>)
      requires Valid()
      modifies this
      ensures Valid()
      ensures answer.None? ==> fetchedAt == old(fetchedAt) && windows == old(windows)
      ensures answer.Some? ==> fetchedAt == Some(now) && windows == Holding(policy, answer.value)
    {
      if answer.Some? {
        fetchedAt, windows := Some(now), Holding(policy, answer.value);
      }
    }

    method Active(t: real, clock: real) returns (r: seq<CalendarWindow>)
      requires Valid()
      ensures r == ActiveOf(policy, Usable(clock), t)
      ensures forall w :: w in r ==> w in windows && Admitted(policy, w) && ActiveAt(policy, w, t)
      ensures fetchedAt.Some? && clock - fetchedAt.value <= policy.staleAfter ==>
                forall w :: w in windows && ActiveAt(policy, w, t) ==> w in r
      ensures fetchedAt.None? || clock - fetchedAt.value > policy.staleAfter ==> r == []
    {
      r := ActiveOf(policy, Usable(clock), t);
    }

    /** The first active window with this id; a window moved elsewhere is not found. */
    method ActiveWindow(id: string, t: real, clock: real) returns (r: Option<CalendarWindow>)
      requires Valid()
      ensures r == FirstWithId(ActiveOf(policy, Usable(clock), t), id)
      ensures r.Some? ==> r.value.id == id && Admitted(policy, r.value) && ActiveAt(policy, r.value, t)
      ensures fetchedAt.None? || clock - fetchedAt.value > policy.staleAfter ==> r.None?
    {
      var active := Active(t, clock);
      var i := 0;
      while i < |active|
        invariant 0 <= i <= |active|
        invariant FirstWithId(active, id) == FirstWithId(active[i..], id)
      {
        if active[i].id == id { return Some(active[i]); }
        i := i + 1;
      }
      r := None;
    }
  }
}
