/** What holding, extending and marking do to the stored windows and rows, and in which order rows
come back (`henk/events/holds.py`, `henk/store/holds.py`). */
module HoldLaws {
  import opened Common
  import opened Cadence
  import opened Holds

  // --- Which window ----------------------------------------------------------------------------

  /** Text order: the first difference decides, and a proper beginning comes first. */
  lemma {:induction false} TextLessMeans(a: string, b: string)
    ensures TextLess(a, b) <==>
              exists k: nat :: k <= |a| && k < |b| && a[..k] == b[..k] && (k == |a| || a[k] < b[k])
    decreases |a|
  {
    if a != "" && b != "" {
      TextLessMeans(a[1..], b[1..]);
      if TextLess(a[1..], b[1..]) && a[0] == b[0] {
        var k: nat :| k <= |a[1..]| && k < |b[1..]| && a[1..][..k] == b[1..][..k] && (k == |a[1..]| || a[1..][k] < b[1..][k]);
        assert a[..k + 1] == [a[0]] + a[1..][..k] && b[..k + 1] == [b[0]] + b[1..][..k];
        assert k + 1 == |a| || a[k + 1] < b[k + 1];
      } else if a[0] < b[0] {
        assert a[..0] == b[..0];
      }
      if k: nat :| k <= |a| && k < |b| && a[..k] == b[..k] && (k == |a| || a[k] < b[k]) {
        if k > 0 {
          assert a[..k][0] == b[..k][0];
          assert a[1..][..k - 1] == a[..k][1..] && b[1..][..k - 1] == b[..k][1..];
          assert k - 1 == |a[1..]| || a[1..][k - 1] < b[1..][k - 1];
        }
      }
    } else if b != "" {
      assert a[..0] == b[..0];
    }
  }

  lemma {:induction false} TextAsymmetric(a: string, b: string)
    requires TextLess(a, b)
    ensures !TextLess(b, a)
    decreases |a|
  {
    if a != "" && a[0] == b[0] { TextAsymmetric(a[1..], b[1..]); }
  }

  lemma {:induction false} TextTransitive(a: string, b: string, c: string)
    requires !TextLess(b, a) && !TextLess(c, b)
    ensures !TextLess(c, a)
    decreases |c|
  {
    if a != "" && b != "" && c != "" && a[0] == b[0] == c[0] { TextTransitive(a[1..], b[1..], c[1..]); }
  }

  /** `w` does not come after `best`: by end, then start, then id. */
  predicate NotLater(w: CalendarWindow, best: CalendarWindow) {
    || w.end < best.end
    || (w.end == best.end && (w.start < best.start || (w.start == best.start && !TextLess(best.id, w.id))))
  }

  /** An event goes to the open window that comes last by end, start and id. */
  lemma {:induction false} LatestOpenIs(led: Ledger, active: seq<CalendarWindow>)
    ensures var r := LatestOpen(led, active);
      r.Some? ==> forall w :: w in active && OpenWindow(led, w.id) ==> NotLater(w, r.value)
  {
    if active != [] {
      var front, w := active[..|active| - 1], active[|active| - 1];
      assert active == front + [w];
      LatestOpenIs(led, front);
      var best := LatestOpen(led, front);
      if OpenWindow(led, w.id) {
        if best.Some? && EndsBefore(best.value, w) {
          forall v | v in front && OpenWindow(led, v.id) ensures NotLater(v, w) { LaterStill(v, best.value, w); }
        }
        SameIsNotLater(w);
      }
    }
  }

  lemma SameIsNotLater(w: CalendarWindow)
    ensures NotLater(w, w)
  {
    if TextLess(w.id, w.id) { TextAsymmetric(w.id, w.id); }
  }

  lemma LaterStill(v: CalendarWindow, best: CalendarWindow, w: CalendarWindow)
    requires NotLater(v, best) && EndsBefore(best, w)
    ensures NotLater(v, w)
  {
    if v.end == best.end == w.end && v.start == best.start == w.start {
      TextAsymmetric(best.id, w.id);
      TextTransitive(v.id, best.id, w.id);
    }
  }

  // --- What is stored ----------------------------------------------------------------------------

  /** A held event is one more row; its window is stored with the calendar's title, start and end
  when it is its first, and is otherwise left as it is stored. */
  lemma HoldStores(cfg: Config, led: Ledger, e: Event, published: real, active: seq<CalendarWindow>, heldAt: real, fails: bool)
    requires HoldEvent(cfg, led, e, published, active, heldAt, fails).result == WasHeld
    ensures var st := HoldEvent(cfg, led, e, published, active, heldAt, fails).next.store;
      LatestOpen(led, active).Some? &&
      var w := LatestOpen(led, active).value;
      && st.rows == led.store.rows + [RowOf(cfg, e, w.id, published, heldAt)]
      && st.windows.Keys == led.store.windows.Keys + {w.id}
      && (forall id :: id in led.store.windows ==> st.windows[id] == led.store.windows[id])
      && (w.id !in led.store.windows ==> st.windows[w.id] == HoldWindow(w.title, w.start, w.end, None))
  {
  }

  /** What a row keeps of its event. */
  lemma RowKeeps(cfg: Config, e: Event, windowId: string, published: real, heldAt: real)
    ensures var row := RowOf(cfg, e, windowId, published, heldAt);
      && row.eventId == e.id && row.windowId == windowId && row.key == KeyOf(cfg, e) && row.state == IdentityOf(cfg, e).state
      && row.title == e.title && row.message == e.message && row.publishedAt == published && row.arrival == e.arrival
      && row.heldAt == heldAt
      && RebuildEvent(row) == e.(publishedAt := Some(published))
  {
  }

  /** Extending moves the end of an unreleased window, and nothing else. */
  lemma ExtendMeans(st: Store, windowId: string, end: real)
    ensures var t := Extend(st, windowId, end);
      && t.rows == st.rows && t.windows.Keys == st.windows.Keys
      && (forall id :: id in st.windows && id != windowId ==> t.windows[id] == st.windows[id])
      && (windowId in st.windows && st.windows[windowId].released.None? ==>
            t.windows[windowId] == HoldWindow(st.windows[windowId].title, st.windows[windowId].start, end, None))
      && (windowId in st.windows && st.windows[windowId].released.Some? ==> t.windows[windowId] == st.windows[windowId])
  {
  }

  /** Marking releases an unreleased window at this instant, once, with one record if the log
  takes it; it always takes the window out of flight, unless the store fails, which changes
  nothing. */
  lemma MarkMeans(led: Ledger, windowId: string, at: real, fails: bool, written: bool)
    ensures var t := MarkReleased(led, windowId, at, fails, written);
      var st := led.store;
      && (fails ==> t == led)
      && t.store.rows == st.rows && t.store.windows.Keys == st.windows.Keys
      && (forall id :: id in st.windows && id != windowId ==> t.store.windows[id] == st.windows[id])
      && (!fails ==> t.inFlight.Keys == led.inFlight.Keys - {windowId} && forall id :: id in t.inFlight ==> t.inFlight[id] == led.inFlight[id])
      && (!fails && windowId in st.windows ==>
            t.store.windows[windowId] == HoldWindow(st.windows[windowId].title, st.windows[windowId].start, st.windows[windowId].end,
                                                    if st.windows[windowId].released.Some? then st.windows[windowId].released else Some(at)))
      && |t.receipts| == |led.receipts| + (if !fails && written && Unreleased(st, windowId) then 1 else 0)
      && led.receipts <= t.receipts
  {
  }

  // --- The order of a window's rows ------------------------------------------------------------

  /** The elements with one key, in order. */
  function WithKey<T>(key: T -> real, xs: seq<T>, v: real): seq<T> {
    if xs == [] then []
    else WithKey(key, xs[..|xs| - 1], v) + if key(xs[|xs| - 1]) == v then [xs[|xs| - 1]] else []
  }

  lemma WithKeyAppend<T>(key: T -> real, xs: seq<T>, x: T, v: real)
    ensures WithKey(key, xs + [x], v) == WithKey(key, xs, v) + if key(x) == v then [x] else []
  {
    assert (xs + [x])[..|xs|] == xs;
  }

  lemma {:induction false} NoneWithKey<T>(key: T -> real, xs: seq<T>, v: real)
    requires forall i :: 0 <= i < |xs| ==> key(xs[i]) != v
    ensures WithKey(key, xs, v) == []
  {
    if xs != [] { NoneWithKey(key, xs[..|xs| - 1], v); }
  }

  lemma {:induction false} InsertIsStable<T>(key: T -> real, x: T, xs: seq<T>, v: real)
    requires Ascending(key, xs)
    ensures WithKey(key, InsertBy(key, x, xs), v) == WithKey(key, xs, v) + if key(x) == v then [x] else []
  {
    if xs == [] || key(xs[|xs| - 1]) <= key(x) {
      WithKeyAppend(key, xs, x, v);
    } else {
      var front, last := xs[..|xs| - 1], xs[|xs| - 1];
      InsertIsStable(key, x, front, v);
      WithKeyAppend(key, InsertBy(key, x, front), last, v);
    }
  }

  /** The sort keeps elements of one key in the order they came in. */
  lemma {:induction false} SortIsStable<T>(key: T -> real, xs: seq<T>, v: real)
    ensures WithKey(key, SortBy(key, xs), v) == WithKey(key, xs, v)
  {
    if xs != [] {
      SortIsStable(key, xs[..|xs| - 1], v);
      SortByAscends(key, xs[..|xs| - 1]);
      InsertIsStable(key, xs[|xs| - 1], SortBy(key, xs[..|xs| - 1]), v);
    }
  }

  /** A window's rows come back by publish time, and those of one instant as they were held. */
  lemma RowsInOrder(st: Store, windowId: string, t: real)
    ensures Ascending(PublishedOf, HeldEvents(st, windowId))
    ensures WithKey(PublishedOf, HeldEvents(st, windowId), t) == WithKey(PublishedOf, RowsOfWindow(st.rows, windowId), t)
  {
    SortByAscends(PublishedOf, RowsOfWindow(st.rows, windowId));
    SortIsStable(PublishedOf, RowsOfWindow(st.rows, windowId), t);
  }
}
