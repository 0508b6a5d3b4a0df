/** Grouping arrivals into batches: the `Debouncer` of `henk/events/pipeline.py`. */
module Debounce {
  import opened Common
  import opened Cadence

  /** The open batch and the arrival time it started at. */
  datatype Buffer = Buffer(start: Option<real>, batch: seq<Event>)

  const IDLE := Buffer(None, [])

  datatype Fed = Fed(next: Buffer, completed: Option<seq<Event>>)

  function Feed(window: real, b: Buffer, e: Event): Fed {
    if b.start.None? then Fed(Buffer(Some(e.arrival), [e]), None)
    else if e.arrival - b.start.value <= window then Fed(b.(batch := b.batch + [e]), None)
    else Fed(Buffer(Some(e.arrival), [e]), Some(b.batch))
  }

  /** A batch is open exactly when it has a start, the arrival of its first event, and
  nothing in it arrived more than one window after that. */
  ghost predicate BufferWF(window: real, b: Buffer) {
    && (b.start.None? <==> b.batch == [])
    && (b.start.Some? ==> b.start.value == b.batch[0].arrival && Within(window, b.batch))
  }

  ghost predicate Within(window: real, group: seq<Event>) {
    group != [] && forall i :: 0 < i < |group| ==> group[i].arrival - group[0].arrival <= window
  }

  function Flat<T>(groups: seq<seq<T>>): seq<T> {
    if groups == [] then [] else Flat(groups[..|groups| - 1]) + groups[|groups| - 1]
  }

  lemma FlatAppend<T>(groups: seq<seq<T>>, group: seq<T>)
    ensures Flat(groups + [group]) == Flat(groups) + group
  {
    assert (groups + [group])[..|groups|] == groups;
  }

  lemma {:induction false} FlatJoin<T>(a: seq<seq<T>>, b: seq<seq<T>>)
    ensures Flat(a + b) == Flat(a) + Flat(b)
  {
    if b == [] {
      assert a + b == a;
    } else {
      var front, last := b[..|b| - 1], b[|b| - 1];
      assert a + b == (a + front) + [last];
      FlatAppend(a + front, last);
      FlatJoin(a, front);
    }
  }

  datatype Grouped = Grouped(open: Buffer, closed: seq<seq<Event>>)

  function FeedAll(window: real, events: seq<Event>): Grouped {
    if events == [] then Grouped(IDLE, [])
    else
      var before := FeedAll(window, events[..|events| - 1]);
      var fed := Feed(window, before.open, events[|events| - 1]);
      Grouped(fed.next, before.closed + if fed.completed.Some? then [fed.completed.value] else [])
  }

  /** Each batch starts more than one window after the batch before it started. */
  ghost predicate Spaced(window: real, groups: seq<seq<Event>>) {
    && (forall i :: 0 <= i < |groups| ==> Within(window, groups[i]))
    && (forall i :: 0 < i < |groups| ==> groups[i][0].arrival - groups[i - 1][0].arrival > window)
  }

  /** Feeding loses, repeats and reorders nothing. */
  lemma {:induction false} FeedAllConserves(window: real, events: seq<Event>)
    ensures Flat(FeedAll(window, events).closed) + FeedAll(window, events).open.batch == events
    ensures BufferWF(window, FeedAll(window, events).open)
    ensures FeedAll(window, events).open.batch == [] <==> events == []
  {
    if events != [] {
      var front, e := events[..|events| - 1], events[|events| - 1];
      SplitLast(events);
      FeedAllConserves(window, front);
      FeedConserves(window, FeedAll(window, front), front, e);
    }
  }

  lemma FeedConserves(window: real, before: Grouped, front: seq<Event>, e: Event)
    requires Flat(before.closed) + before.open.batch == front && BufferWF(window, before.open)
    ensures var fed := Feed(window, before.open, e);
      var closed := before.closed + if fed.completed.Some? then [fed.completed.value] else [];
      && Flat(closed) + fed.next.batch == front + [e] && BufferWF(window, fed.next) && fed.next.batch != []
  {
    var fed := Feed(window, before.open, e);
    if fed.completed.Some? {
      FlatAppend(before.closed, before.open.batch);
    } else {
      assert before.closed + [] == before.closed;
      Assoc(Flat(before.closed), before.open.batch, [e]);
    }
  }

  /** The groups a stream is cut into, the one still open last. */
  function GroupsOf(window: real, events: seq<Event>): seq<seq<Event>> {
    var g := FeedAll(window, events);
    g.closed + if events == [] then [] else [g.open.batch]
  }

  lemma SpacedAppend(window: real, groups: seq<seq<Event>>, last: seq<Event>)
    requires Spaced(window, groups) && Within(window, last)
    requires groups != [] ==> last[0].arrival - groups[|groups| - 1][0].arrival > window
    ensures Spaced(window, groups + [last])
  {
  }

  lemma SpacedGrow(window: real, groups: seq<seq<Event>>, last: seq<Event>, grown: seq<Event>)
    requires last != [] && Spaced(window, groups + [last])
    requires Within(window, grown) && grown[0] == last[0]
    ensures Spaced(window, groups + [grown])
  {
    var all := groups + [last];
    assert forall i :: 0 <= i < |groups| ==> groups[i] == all[i];
    assert all[|groups|] == last && Within(window, last);
    if groups != [] {
      assert all[|groups|][0].arrival - all[|groups| - 1][0].arrival > window;
    }
    SpacedAppend(window, groups, grown);
  }

  /** One more event: a new group after the open one, the open one grown, or the first. */
  lemma GroupsOfNext(window: real, front: seq<Event>, e: Event)
    ensures var before := FeedAll(window, front);
      var fed := Feed(window, before.open, e);
      GroupsOf(window, front + [e]) ==
        if fed.completed.Some? then before.closed + [fed.completed.value] + [[e]] else before.closed + [fed.next.batch]
  {
    assert (front + [e])[..|front|] == front;
    var before := FeedAll(window, front);
    assert before.closed + [] == before.closed;
  }

  /** The cuts fall exactly where an event arrives more than one window after the first
  event of its batch. */
  lemma {:induction false} FeedAllSpaces(window: real, events: seq<Event>)
    ensures Spaced(window, GroupsOf(window, events))
  {
    if events != [] {
      var front, e := events[..|events| - 1], events[|events| - 1];
      SplitLast(events);
      FeedAllSpaces(window, front);
      FeedAllConserves(window, front);
      GroupsOfNext(window, front, e);
      SpacedNext(window, FeedAll(window, front), front, e);
    }
  }

  lemma SpacedNext(window: real, before: Grouped, front: seq<Event>, e: Event)
    requires BufferWF(window, before.open) && (before.open.batch == [] <==> front == []) && (front == [] ==> before.closed == [])
    requires Spaced(window, before.closed + if front == [] then [] else [before.open.batch])
    ensures var fed := Feed(window, before.open, e);
      Spaced(window, if fed.completed.Some? then before.closed + [fed.completed.value] + [[e]]
                     else before.closed + [fed.next.batch])
  {
    var fed := Feed(window, before.open, e);
    if fed.completed.Some? {
      SpacedAppend(window, before.closed + [before.open.batch], [e]);
    } else if front == [] {
      assert before.closed + [fed.next.batch] == [[e]];
    } else {
      SpacedGrow(window, before.closed, before.open.batch, fed.next.batch);
    }
  }

  class Debouncer {
    const window: real
    var batch: seq<Event>
    var batchStart: Option<real>

    ghost function View(): Buffer
      reads this
    {
      Buffer(batchStart, batch)
    }

    constructor (window: real)
      ensures this.window == window && View() == IDLE
    {
      this.window := window;
      batch, batchStart := [], None;
    }

    method Add(e: Event) returns (completed: Option<seq<Event>>)
      modifies this
      ensures View() == Feed(window, old(View()), e).next
      ensures completed == Feed(window, old(View()), e).completed
    {
      if batchStart.None? {
        batchStart, batch := Some(e.arrival), [e];
        return None;
      }
      if e.arrival - batchStart.value <= window {
        batch := batch + [e];
        return None;
      }
      completed := Some(batch);
      batch, batchStart := [e], Some(e.arrival);
    }

    method Flush() returns (completed: Option<seq<Event>>)
      modifies this
      ensures completed == if old(batch) == [] then None else Some(old(batch))
      ensures View() == if old(batch) == [] then old(View()) else IDLE
    {
      if batch == [] { return None; }
      completed := Some(batch);
      batch, batchStart := [], None;
    }
  }
}
