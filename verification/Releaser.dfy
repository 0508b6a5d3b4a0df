/** The release task as an object: one tick of `henk/events/release.py` is a run of the event
protocol. Submitting a release does not suspend, so a tick is one atomic stretch. */
module Releaser {
  import opened Common
  import opened Cadence
  import opened Holds
  import opened Calendar
  import opened Protocol
  import opened ProtocolRuns
  import opened Releasing
  import opened Verdicts
  import opened Debounce
  import C = Coordinator
  import CatchUp

  /** The fields the release carries to its turn. */
  function ReleaseOf(p: Policy, led: Ledger, win: string, now: real): HeldRelease
    requires win in led.store.windows
  {
    var stored := led.store.windows[win];
    var g := Groups(HeldEvents(led.store, win));
    HeldRelease(win, g.held, g.recovered, stored.start, stored.end + p.grace, now - stored.end)
  }

  /** The protocol step a verdict stands for, if any. */
  function StepOf(p: Policy, led: Ledger, win: string, verdict: Verdict, now: real, markFails: bool,
                  written: bool): seq<Step>
    requires win in led.store.windows
  {
    match verdict
    case Extended(end) => [ExtendWindow(win, end)]
    case Goes => [ReleaseTick(ReleaseOf(p, led, win, now), markFails, written)]
    case _ => []
  }

  lemma NothingToEvaluate(cfg: Config, c: Cadence, now: real, release: Option<HeldRelease>)
    ensures Evaluate(cfg, c, [], now, release) == Evaluated(c, Decision(None, []))
  {
  }

  /** What one release does to the ledger, the cadence and the queue. */
  datatype ReleaseOutcome = ReleaseOutcome(ledger: Ledger, next: Cadence, submitted: seq<Item>)

  function Outcome(cfg: Config, led: Ledger, c: Cadence, r: HeldRelease, now: real, markFails: bool,
                   written: bool): ReleaseOutcome {
    var ev := Evaluate(cfg, c, Rebuilt(Groups(HeldEvents(led.store, r.windowId)).forwarded), now, Some(r));
    if ev.decision.turn.None? then
      ReleaseOutcome(MarkReleased(led, r.windowId, now, markFails, written), ev.next, [])
    else
      var turn := ev.decision.turn.value;
      ReleaseOutcome(led.(inFlight := led.inFlight[r.windowId := ItemKeys(turn.items)]), ev.next,
                     [Release(turn, r.windowId, now)])
  }

  lemma ReleasedFields(cfg: Config, w: World, r: HeldRelease, markFails: bool, written: bool)
    ensures var out := Outcome(cfg, w.ledger, w.cadence, r, w.now, markFails, written);
      Released(cfg, w, r, markFails, written)
        == w.(ledger := out.ledger, cadence := out.next, queue := w.queue + out.submitted)
  {
    assert w.queue + [] == w.queue;
  }

  function Moved(w: World, win: string, end: real): World {
    w.(ledger := w.ledger.(store := Extend(w.ledger.store, win, end)))
  }

  lemma OneExtend(cfg: Config, w: World, win: string, end: real)
    requires w.up
    ensures Reaches(cfg, w, [ExtendWindow(win, end)], Moved(w, win, end))
  {
    ReachesOne(cfg, w, ExtendWindow(win, end));
  }

  lemma OneRelease(cfg: Config, p: Policy, w: World, win: string, now: real, markFails: bool, written: bool)
    requires Releasable(w, win)
    ensures Reaches(cfg, w, [ReleaseTick(ReleaseOf(p, w.ledger, win, now), markFails, written)],
                      Released(cfg, w, ReleaseOf(p, w.ledger, win, now), markFails, written))
  {
    ReachesOne(cfg, w, ReleaseTick(ReleaseOf(p, w.ledger, win, now), markFails, written));
  }

  /** The clock, and every other window's release status, are left alone. */
  ghost predicate OthersStay(w: World, v: World, win: string) {
    v.now == w.now && forall other :: other != win && Unreleased(w.ledger.store, other) ==> Unreleased(v.ledger.store, other)
  }

  lemma MovedLeavesOthers(w: World, win: string, end: real)
    ensures OthersStay(w, Moved(w, win, end), win)
  {
  }

  lemma ReleasedLeavesOthers(cfg: Config, w: World, r: HeldRelease, markFails: bool, written: bool)
    ensures OthersStay(w, Released(cfg, w, r, markFails, written), r.windowId)
  {
    ReleasedFields(cfg, w, r, markFails, written);
  }

  /** What considering a window does to the world: at most the one step its verdict names. */
  function AfterVerdict(cfg: Config, p: Policy, w: World, win: string, verdict: Verdict, markFails: bool, written: bool): World
    requires win in w.ledger.store.windows
  {
    match verdict
    case Extended(end) => Moved(w, win, end)
    case Goes => Released(cfg, w, ReleaseOf(p, w.ledger, win, w.now), markFails, written)
    case _ => w
  }

  /** What the tick reads from outside: the calendar, and how far the stream has caught up. */
  datatype Outlook = Outlook(calendar: Option<seq<CalendarWindow>>, caughtUp: bool, first: Option<real>)

  /** One window considered: skipped when its release is already in flight. */
  function AfterWindow(cfg: Config, p: Policy, w: World, win: string, o: Outlook, markFails: bool, written: bool): World {
    if win in w.ledger.inFlight || win !in w.ledger.store.windows then w
    else AfterVerdict(cfg, p, w, win, Consider(p, w.ledger, win, o.calendar, o.caughtUp, o.first, w.now), markFails, written)
  }

  /** The world a tick leaves: windows in order, each judged where the last one left the
  ledger. */
  function AfterTick(cfg: Config, p: Policy, w: World, wins: seq<string>, o: Outlook,
                     markFails: string -> bool, written: string -> bool): World
  {
    if wins == [] then w
    else
      var win := wins[|wins| - 1];
      AfterWindow(cfg, p, AfterTick(cfg, p, w, wins[..|wins| - 1], o, markFails, written), win, o, markFails(win), written(win))
  }

  lemma AfterTickNext(cfg: Config, p: Policy, w: World, wins: seq<string>, i: nat, o: Outlook,
                      markFails: string -> bool, written: string -> bool)
    requires i < |wins|
    ensures AfterTick(cfg, p, w, wins[..i + 1], o, markFails, written)
         == AfterWindow(cfg, p, AfterTick(cfg, p, w, wins[..i], o, markFails, written), wins[i], o,
                        markFails(wins[i]), written(wins[i]))
  {
    assert wins[..i + 1][..i] == wins[..i];
  }

  /** A verdict to go is given only to a window the protocol may release. */
  lemma GoesIsReleasable(p: Policy, w: World, win: string, o: Outlook)
    requires w.up && Unreleased(w.ledger.store, win) && win !in w.ledger.inFlight
    requires Consider(p, w.ledger, win, o.calendar, o.caughtUp, o.first, w.now) == Goes
    ensures Releasable(w, win)
  {
  }

  class HoldReleaser {
    const ledger: HoldLedger
    const coordinator: C.EventCoordinator
    const policy: Policy
    /** None when the calendar is switched off: nothing is ever extended. */
    const windows: MaintenanceWindows?

    constructor (ledger: HoldLedger, coordinator: C.EventCoordinator, policy: Policy, windows: MaintenanceWindows?)
      requires coordinator.holds == ledger
      ensures this.ledger == ledger && this.coordinator == coordinator && this.policy == policy && this.windows == windows
    {
      this.ledger, this.coordinator, this.policy, this.windows := ledger, coordinator, policy, windows;
    }

    /** The parts are wired to one ledger, and stand where the protocol's world says. */
    ghost predicate Ready(w: World)
      reads this, windows, coordinator, coordinator.debouncer, coordinator.core, coordinator.core.ledger
      reads coordinator.core.pipeline
    {
      && coordinator.holds == ledger && coordinator.InLoop() && coordinator.Mirrors(w)
      && (windows != null ==> windows.Valid() && windows.policy == policy)
    }

    function Calendar(clock: real): Option<seq<CalendarWindow>>
      reads windows
    {
      if windows == null then None else Some(windows.Usable(clock))
    }

    method Extends(win: string, rows: seq<HeldRow>, now: real, clock: real) returns (end: Option<real>)
      requires rows != [] && (windows != null ==> windows.Valid() && windows.policy == policy)
      ensures end == Extension(policy, Calendar(clock), win, rows, now)
    {
      if windows == null { return None; }
      var current := windows.ActiveWindow(win, now, clock);
      if current.None? || current.value.start > Earliest(rows) { return None; }
      end := Some(current.value.end);
    }

    /** Due, extension, catch-up, shared identity, release: in this order. */
    method Decide(win: string, now: real, clock: real) returns (verdict: Verdict)
      requires win in ledger.windows && coordinator.InLoop()
      requires windows != null ==> windows.Valid() && windows.policy == policy
      ensures verdict == Consider(policy, ledger.View(), win, Calendar(clock), CatchUp.CaughtUp(coordinator.loop),
                                  coordinator.firstSubscribeAt, now)
    {
      var due := ledger.windows[win].end + policy.grace;
      if now < due { return NotDue; }
      var rows := HeldEvents(Store(ledger.windows, ledger.rows), win);
      if rows == [] { return NoRows; }
      var end := Extends(win, rows, now, clock);
      if end.Some? { return Extended(end.value); }
      var caughtUp := coordinator.IsCaughtUp();
      if !(caughtUp || FallbackDue(policy, due, coordinator.firstSubscribeAt, now)) { return AwaitsCatchUp; }
      if !(InFlightIdentities(ledger.inFlight) !! RowKeys(rows)) { return AwaitsShared; }
      verdict := Goes;
    }

    /** That verdict, and what it means: a ripe window waits exactly while its stream is unread. */
    method Judge(win: string, now: real, clock: real) returns (verdict: Verdict)
      requires win in ledger.windows && coordinator.InLoop()
      requires windows != null ==> windows.Valid() && windows.policy == policy
      ensures verdict == Consider(policy, ledger.View(), win, Calendar(clock), CatchUp.CaughtUp(coordinator.loop),
                                  coordinator.firstSubscribeAt, now)
      ensures var st := Store(ledger.windows, ledger.rows);
        var ripe := Ripe(policy, st, win, Calendar(clock), now);
        var read := CatchUp.CaughtUp(coordinator.loop)
                    || WaitedLongEnough(policy, ledger.windows[win].end, coordinator.firstSubscribeAt, now);
        && (verdict == AwaitsCatchUp <==> ripe && !read)
        && (verdict == AwaitsShared <==> ripe && read && SharesIdentity(ledger.View(), win))
        && (verdict == Goes <==> ripe && read && !SharesIdentity(ledger.View(), win))
    {
      verdict := Decide(win, now, clock);
      VerdictMeans(policy, ledger.View(), win, Calendar(clock), CatchUp.CaughtUp(coordinator.loop),
                   coordinator.firstSubscribeAt, now);
    }

    method SubmitForwarded(forwarded: seq<HeldRow>, release: HeldRelease, now: real, persists: Suppression -> bool)
      returns (submitted: bool)
      requires coordinator.Wired()
      modifies coordinator.pipeline, coordinator.holds`inFlight, coordinator.core`queue
      ensures var ev := Evaluate(coordinator.cfg, old(coordinator.pipeline.View()), Rebuilt(forwarded), now, Some(release));
        && coordinator.pipeline.View() == ev.next && submitted == ev.decision.turn.Some?
        && coordinator.holds.inFlight == (if submitted then
              old(coordinator.holds.inFlight)[release.windowId := ItemKeys(ev.decision.turn.value.items)]
            else old(coordinator.holds.inFlight))
        && coordinator.core.queue == old(coordinator.core.queue)
            + if submitted then [Release(ev.decision.turn.value, release.windowId, now)] else []
    {
      if forwarded == [] {
        NothingToEvaluate(coordinator.cfg, coordinator.pipeline.View(), now, Some(release));
        assert Rebuilt(forwarded) == [];
        return false;
      }
      submitted := coordinator.SubmitRelease(Rebuilt(forwarded), release, now, persists);
    }

    /** Submit what is forwarded; mark at once when no turn came of it. */
    method SubmitOrMark(release: HeldRelease, now: real, persists: Suppression -> bool, markFails: bool, written: bool)
      requires coordinator.Wired() && coordinator.holds == ledger
      modifies coordinator.pipeline, ledger, coordinator.core`queue
      ensures var out := Outcome(coordinator.cfg, old(ledger.View()), old(coordinator.pipeline.View()),
                                 release, now, markFails, written);
        && ledger.View() == out.ledger && coordinator.pipeline.View() == out.next
        && coordinator.core.queue == old(coordinator.core.queue) + out.submitted
    {
      var groups := GroupHeld(HeldEvents(Store(ledger.windows, ledger.rows), release.windowId));
      var submitted := SubmitForwarded(groups.forwarded, release, now, persists);
      if !submitted {
        var _ := ledger.Mark(release.windowId, now, markFails, written);
      }
    }

    /** The record a release carries, its counts those of the rows held. */
    method Describe(win: string, now: real) returns (release: HeldRelease)
      requires win in ledger.windows
      ensures release == ReleaseOf(policy, ledger.View(), win, now)
    {
      var stored := ledger.windows[win];
      var groups := GroupHeld(HeldEvents(Store(ledger.windows, ledger.rows), win));
      release := HeldRelease(win, groups.held, groups.recovered, stored.start, stored.end + policy.grace, now - stored.end);
    }

    /** A release that goes is the protocol's release tick. */
    method Go(win: string, now: real, persists: Suppression -> bool, markFails: bool, written: bool, ghost w: World)
      requires Ready(w) && now == w.now && Releasable(w, win)
      modifies coordinator.pipeline, ledger, coordinator.core`queue
      ensures Ready(Released(coordinator.cfg, w, ReleaseOf(policy, w.ledger, win, now), markFails, written))
    {
      var r := Describe(win, now);
      SubmitOrMark(r, now, persists, markFails, written);
      ghost var v := Released(coordinator.cfg, w, r, markFails, written);
      ReleasedFields(coordinator.cfg, w, r, markFails, written);
      assert coordinator.core.queue == v.queue;
      assert coordinator.core.Mirrors(v);
    }

    method Move(win: string, end: real, ghost w: World)
      requires Ready(w)
      modifies ledger`windows
      ensures Ready(Moved(w, win, end))
    {
      var _ := ledger.MoveEnd(win, end);
      assert coordinator.core.Mirrors(Moved(w, win, end));
    }

    /** What a verdict does, which is at most the one protocol step it names. */
    method CarryOut(win: string, verdict: Verdict, now: real, persists: Suppression -> bool,
                    markFails: bool, written: bool, ghost w: World)
      requires Ready(w) && now == w.now && win in w.ledger.store.windows && (verdict == Goes ==> Releasable(w, win))
      modifies coordinator.pipeline, ledger, coordinator.core`queue
      ensures Ready(AfterVerdict(coordinator.cfg, policy, w, win, verdict, markFails, written))
    {
      if verdict.Extended? {
        Move(win, verdict.end, w);
      } else if verdict == Goes {
        Go(win, now, persists, markFails, written, w);
      }
    }

    function View(clock: real): Outlook
      reads windows, coordinator
    {
      Outlook(Calendar(clock), coordinator.keepaliveSinceSubscribe && coordinator.queue == [] && coordinator.debouncer == null
              && coordinator.ready == [] && !coordinator.dispatchInProgress, coordinator.firstSubscribeAt)
    }

    /** One window: judged, then carried out, unless its release is in flight already. */
    method ConsiderWindow(win: string, now: real, clock: real, persists: Suppression -> bool,
                          markFails: bool, written: bool, ghost w: World)
      requires Ready(w) && now == w.now && Unreleased(w.ledger.store, win)
      modifies coordinator.pipeline, ledger, coordinator.core`queue
      ensures Ready(AfterWindow(coordinator.cfg, policy, w, win, old(View(clock)), markFails, written))
    {
      if win in ledger.inFlight { return; }
      var verdict := Judge(win, now, clock);
      if verdict == Goes { GoesIsReleasable(policy, w, win, View(clock)); }
      CarryOut(win, verdict, now, persists, markFails, written, w);
    }

    /** A whole tick, window by window, each decided where the last one left the ledger. */
    method Tick(now: real, clock: real, unreleased: seq<string>, persists: Suppression -> bool,
                markFails: string -> bool, written: string -> bool, ghost w: World)
      requires Ready(w) && now == w.now && AllUnreleased(w, unreleased) && Distinct(unreleased)
      modifies coordinator.pipeline, ledger, coordinator.core`queue
      ensures Ready(AfterTick(coordinator.cfg, policy, w, unreleased, old(View(clock)), markFails, written))
      ensures old(View(clock)).caughtUp == CatchUp.CaughtUp(old(coordinator.loop))
    {
      ghost var o := View(clock);
      var i := 0;
      while i < |unreleased|
        invariant 0 <= i <= |unreleased| && View(clock) == o
        invariant Ready(AfterTick(coordinator.cfg, policy, w, unreleased[..i], o, markFails, written))
      {
        ghost var at := AfterTick(coordinator.cfg, policy, w, unreleased[..i], o, markFails, written);
        TickKeepsRest(coordinator.cfg, policy, w, unreleased, i, o, markFails, written);
        AfterTickNext(coordinator.cfg, policy, w, unreleased, i, o, markFails, written);
        ConsiderWindow(unreleased[i], now, clock, persists, markFails(unreleased[i]), written(unreleased[i]), at);
        i := i + 1;
      }
      assert unreleased[..i] == unreleased;
    }
  }

  predicate AllUnreleased(w: World, wins: seq<string>) {
    forall i :: 0 <= i < |wins| ==> Unreleased(w.ledger.store, wins[i])
  }

  predicate Distinct(wins: seq<string>) {
    forall i, j :: 0 <= i < j < |wins| ==> wins[i] != wins[j]
  }

  lemma WindowLeavesOthers(cfg: Config, p: Policy, w: World, win: string, o: Outlook, markFails: bool, written: bool)
    ensures OthersStay(w, AfterWindow(cfg, p, w, win, o, markFails, written), win)
    ensures AfterWindow(cfg, p, w, win, o, markFails, written).up == w.up
  {
    if win !in w.ledger.inFlight && win in w.ledger.store.windows {
      VerdictLeavesOthers(cfg, p, w, win, Consider(p, w.ledger, win, o.calendar, o.caughtUp, o.first, w.now), markFails, written);
    }
  }

  lemma VerdictLeavesOthers(cfg: Config, p: Policy, w: World, win: string, verdict: Verdict, markFails: bool, written: bool)
    requires win in w.ledger.store.windows
    ensures OthersStay(w, AfterVerdict(cfg, p, w, win, verdict, markFails, written), win)
    ensures AfterVerdict(cfg, p, w, win, verdict, markFails, written).up == w.up
  {
    if verdict == Goes { ReleasedLeavesOthers(cfg, w, ReleaseOf(p, w.ledger, win, w.now), markFails, written); }
    if verdict.Extended? { MovedLeavesOthers(w, win, verdict.end); }
  }

  lemma RestStays(w: World, v: World, wins: seq<string>, i: nat)
    requires i < |wins| && Distinct(wins) && AllUnreleased(w, wins[i..]) && OthersStay(w, v, wins[i])
    ensures Unreleased(w.ledger.store, wins[i]) && AllUnreleased(v, wins[i + 1..])
  {
    var rest := wins[i + 1..];
    assert wins[i..][0] == wins[i];
    forall j | 0 <= j < |rest| ensures Unreleased(v.ledger.store, rest[j]) {
      assert wins[i..][j + 1] == rest[j] == wins[i + 1 + j];
    }
  }

  lemma WindowKeepsRest(cfg: Config, p: Policy, at: World, wins: seq<string>, i: nat, o: Outlook, markFails: bool, written: bool)
    requires i < |wins| && Distinct(wins) && AllUnreleased(at, wins[i..])
    ensures var v := AfterWindow(cfg, p, at, wins[i], o, markFails, written);
      v.up == at.up && v.now == at.now && AllUnreleased(v, wins[i + 1..])
  {
    WindowLeavesOthers(cfg, p, at, wins[i], o, markFails, written);
    RestStays(at, AfterWindow(cfg, p, at, wins[i], o, markFails, written), wins, i);
  }

  // --- A tick is a run of the protocol ---------------------------------------------------------

  lemma WindowReaches(cfg: Config, p: Policy, w: World, win: string, o: Outlook, markFails: bool, written: bool)
    returns (steps: seq<Step>)
    requires w.up && Unreleased(w.ledger.store, win)
    ensures Reaches(cfg, w, steps, AfterWindow(cfg, p, w, win, o, markFails, written))
    ensures win !in w.ledger.inFlight ==>
              steps == StepOf(p, w.ledger, win, Consider(p, w.ledger, win, o.calendar, o.caughtUp, o.first, w.now), w.now,
                              markFails, written)
  {
    if win in w.ledger.inFlight {
      ReachesNow(cfg, w);
      steps := [];
    } else {
      var verdict := Consider(p, w.ledger, win, o.calendar, o.caughtUp, o.first, w.now);
      steps := StepOf(p, w.ledger, win, verdict, w.now, markFails, written);
      if verdict.Extended? {
        OneExtend(cfg, w, win, verdict.end);
      } else if verdict == Goes {
        GoesIsReleasable(p, w, win, o);
        OneRelease(cfg, p, w, win, w.now, markFails, written);
      } else {
        ReachesNow(cfg, w);
      }
    }
  }

  /** The windows a tick has still to consider are still unreleased, and the clock stood. */
  lemma {:induction false} TickKeepsRest(cfg: Config, p: Policy, w: World, wins: seq<string>, n: nat, o: Outlook,
                                         markFails: string -> bool, written: string -> bool)
    requires AllUnreleased(w, wins) && Distinct(wins) && n <= |wins|
    ensures var v := AfterTick(cfg, p, w, wins[..n], o, markFails, written);
      v.up == w.up && v.now == w.now && AllUnreleased(v, wins[n..])
    ensures n < |wins| ==> Unreleased(AfterTick(cfg, p, w, wins[..n], o, markFails, written).ledger.store, wins[n])
  {
    if n == 0 {
      assert wins[..0] == [] && wins[0..] == wins;
    } else {
      TickKeepsRest(cfg, p, w, wins, n - 1, o, markFails, written);
      AfterTickNext(cfg, p, w, wins, n - 1, o, markFails, written);
      WindowKeepsRest(cfg, p, AfterTick(cfg, p, w, wins[..n - 1], o, markFails, written), wins, n - 1, o,
                      markFails(wins[n - 1]), written(wins[n - 1]));
    }
    if n < |wins| { assert wins[n..][0] == wins[n]; }
  }

  /** One more window carries a run on. */
  lemma RunOn(cfg: Config, p: Policy, w: World, steps: seq<Step>, at: World, win: string, o: Outlook,
              markFails: bool, written: bool)
    returns (all: seq<Step>)
    requires Reaches(cfg, w, steps, at) && at.up && Unreleased(at.ledger.store, win)
    ensures Reaches(cfg, w, all, AfterWindow(cfg, p, at, win, o, markFails, written))
  {
    var more := WindowReaches(cfg, p, at, win, o, markFails, written);
    ReachesOn(cfg, w, steps, at, more, AfterWindow(cfg, p, at, win, o, markFails, written));
    all := steps + more;
  }

  /** The world a tick leaves is reached by protocol steps alone. */
  lemma {:induction false} TickIsRun(cfg: Config, p: Policy, w: World, wins: seq<string>, n: nat, o: Outlook,
                                     markFails: string -> bool, written: string -> bool)
    returns (steps: seq<Step>)
    requires w.up && AllUnreleased(w, wins) && Distinct(wins) && n <= |wins|
    ensures Reaches(cfg, w, steps, AfterTick(cfg, p, w, wins[..n], o, markFails, written))
  {
    if n == 0 {
      ReachesNow(cfg, w);
      steps := [];
    } else {
      steps := TickIsRun(cfg, p, w, wins, n - 1, o, markFails, written);
      TickKeepsRest(cfg, p, w, wins, n - 1, o, markFails, written);
      AfterTickNext(cfg, p, w, wins, n - 1, o, markFails, written);
      var at := AfterTick(cfg, p, w, wins[..n - 1], o, markFails, written);
      steps := RunOn(cfg, p, w, steps, at, wins[n - 1], o, markFails(wins[n - 1]), written(wins[n - 1]));
    }
  }
}
