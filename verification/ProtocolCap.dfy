/** The daily cap over any number of restarts.

The durable truth is the log, whose records carry the instant their turn was decided; the
process counts in memory, from record times after a restart. `decisions` are the instants
of announceable turns that are recorded or still to be recorded.
*/
module ProtocolCap {
  import opened Common
  import opened Cadence
  import opened Holds
  import opened Protocol
  import opened ProtocolInvariant
  import opened ProtocolCore
  import opened ProtocolDispatch
  import opened ProtocolTheorems

  // --- Counting instants -----------------------------------------------------------------------

  /** How many instants lie in the window `(lo, hi]`. */
  function CountIn(ts: seq<real>, lo: real, hi: real): nat {
    if ts == [] then 0 else CountIn(ts[..|ts| - 1], lo, hi) + if lo < ts[|ts| - 1] <= hi then 1 else 0
  }

  lemma {:induction false} CountsAdd(a: seq<real>, b: seq<real>, lo: real, hi: real)
    ensures CountAfter(a + b, lo) == CountAfter(a, lo) + CountAfter(b, lo)
    ensures CountIn(a + b, lo, hi) == CountIn(a, lo, hi) + CountIn(b, lo, hi)
  {
    if b == [] {
      assert a + b == a;
    } else {
      assert (a + b)[..|a + b| - 1] == a + b[..|b| - 1];
      CountsAdd(a, b[..|b| - 1], lo, hi);
    }
  }

  lemma {:induction false} WindowWithinAfter(ts: seq<real>, lo: real, hi: real, floor: real)
    requires floor <= lo
    ensures CountIn(ts, lo, hi) <= CountAfter(ts, floor)
  {
    if ts != [] { WindowWithinAfter(ts[..|ts| - 1], lo, hi, floor); }
  }

  /** The kept times are the ones still in the window, and they are all that count there. */
  lemma {:induction false} KeptCounts(ts: seq<real>, now: real, window: real, lo: real)
    requires now - window <= lo
    ensures CountAfter(KeptTimes(ts, now, window), lo) == CountAfter(ts, lo)
    ensures |KeptTimes(ts, now, window)| == CountAfter(ts, now - window)
  {
    if ts != [] {
      KeptCounts(ts[..|ts| - 1], now, window, lo);
      var rest := KeptTimes(ts[..|ts| - 1], now, window);
      CountsAdd(rest, [ts[|ts| - 1]], lo, lo);
      assert [ts[|ts| - 1]][..0] == [];
    }
  }

  lemma CountOne(t: real, lo: real, hi: real)
    ensures CountAfter([t], lo) == (if lo < t then 1 else 0)
    ensures CountIn([t], lo, hi) == (if lo < t <= hi then 1 else 0)
  {
    assert [t][..0] == [];
  }

  // --- Sorting keeps counts ----------------------------------------------------------------------

  ghost function Count<T>(p: T -> bool, xs: seq<T>): nat {
    if xs == [] then 0 else Count(p, xs[..|xs| - 1]) + if p(xs[|xs| - 1]) then 1 else 0
  }

  lemma {:induction false} InsertCounts<T>(p: T -> bool, key: T -> real, x: T, xs: seq<T>)
    ensures Count(p, InsertBy(key, x, xs)) == Count(p, xs) + if p(x) then 1 else 0
  {
    if xs == [] || key(xs[|xs| - 1]) <= key(x) {
      assert (xs + [x])[..|xs|] == xs;
    } else {
      var front, last := xs[..|xs| - 1], xs[|xs| - 1];
      InsertCounts(p, key, x, front);
      assert |InsertBy(key, x, front)| == |multiset(InsertBy(key, x, front))|;
      assert (InsertBy(key, x, front) + [last])[..|xs|] == InsertBy(key, x, front);
    }
  }

  lemma {:induction false} SortCounts<T>(p: T -> bool, key: T -> real, xs: seq<T>)
    ensures Count(p, SortBy(key, xs)) == Count(p, xs)
  {
    if xs != [] {
      SortCounts(p, key, xs[..|xs| - 1]);
      InsertCounts(p, key, xs[|xs| - 1], SortBy(key, xs[..|xs| - 1]));
    }
  }

  lemma {:induction false} CountIsAfter(p: real -> bool, ts: seq<real>, lo: real)
    requires forall t :: p(t) <==> lo < t
    ensures Count(p, ts) == CountAfter(ts, lo)
  {
    if ts != [] { CountIsAfter(p, ts[..|ts| - 1], lo); }
  }

  // --- Announceable decisions ----------------------------------------------------------------------

  predicate Announced(r: AuditRecord) { r.announceable == Some(true) }

  function LogDecisions(log: seq<Triage>): seq<real> {
    if log == [] then []
    else
      var t := log[|log| - 1];
      LogDecisions(log[..|log| - 1]) + if Announced(t.record) then [t.decidedAt] else []
  }

  function ItemDecision(it: Item): seq<real> {
    if !it.Marker? && it.turn.announceable then [it.decidedAt] else []
  }

  function QueueDecisions(queue: seq<Item>): seq<real> {
    if queue == [] then [] else ItemDecision(queue[0]) + QueueDecisions(queue[1..])
  }

  /** The announceable turns whose records are written or still to be written. */
  function Decisions(w: World): seq<real> {
    LogDecisions(w.log)
    + if w.stage == Written && w.queue != [] then QueueDecisions(w.queue[1..]) else QueueDecisions(w.queue)
  }

  function CapOf(cfg: Config): int { if cfg.cap < 0 then 0 else cfg.cap }

  /** No window of the cap's length holds more decisions than the cap. */
  ghost predicate WithinCap(cfg: Config, ds: seq<real>) {
    forall t: real :: WindowOk(cfg, ds, t)
  }

  /** The window ending at `t`. */
  ghost predicate WindowOk(cfg: Config, ds: seq<real>, t: real) {
    CountIn(ds, t - cfg.capWindow, t) <= CapOf(cfg)
  }

  /** Memory counts at least what is decided, over every window still open. */
  ghost predicate MemoryCounts(cfg: Config, ds: seq<real>, announce: seq<real>, now: real) {
    forall lo: real :: now - cfg.capWindow <= lo ==> CountAfter(ds, lo) <= CountAfter(announce, lo)
  }

  ghost predicate CapInv(cfg: Config, w: World) {
    && WithinCap(cfg, Decisions(w))
    && (w.up ==> MemoryCounts(cfg, Decisions(w), w.cadence.announce, w.now))
  }

  lemma {:induction false} QueueDecisionsAppend(queue: seq<Item>, it: Item)
    ensures QueueDecisions(queue + [it]) == QueueDecisions(queue) + ItemDecision(it)
  {
    if queue == [] {
      assert QueueDecisions([it]) == ItemDecision(it) + QueueDecisions([it][1..]);
      assert [it][1..] == [] && [] + [it] == [it];
    } else {
      QueueDecisionsAppend(queue[1..], it);
      ConcatTail(queue, [it]);
      Assoc(ItemDecision(queue[0]), QueueDecisions(queue[1..]), ItemDecision(it));
    }
  }

  // --- One decision -----------------------------------------------------------------------------------

  /** An announceable decision is made only when the window ending now still has room, so no
  window ever overflows; memory and decisions move together. */
  lemma CapGateKeeps(cfg: Config, ds: seq<real>, c: Cadence, now: real)
    requires WithinCap(cfg, ds) && MemoryCounts(cfg, ds, c.announce, now)
    ensures var r := ApplyCap(cfg, c, now);
      var ds' := ds + if r.announceable then [now] else [];
      WithinCap(cfg, ds') && MemoryCounts(cfg, ds', r.next.announce, now)
  {
    var r := ApplyCap(cfg, c, now);
    var ds' := ds + if r.announceable then [now] else [];
    var kept := KeptTimes(c.announce, now, cfg.capWindow);
    forall t: real ensures WindowOk(cfg, ds', t) {
      assert WindowOk(cfg, ds, t);
      if r.announceable {
        CountsAdd(ds, [now], t - cfg.capWindow, t);
        CountOne(now, t - cfg.capWindow, t);
        if now <= t {
          WindowWithinAfter(ds, t - cfg.capWindow, t, now - cfg.capWindow);
          KeptCounts(c.announce, now, cfg.capWindow, now - cfg.capWindow);
        }
      } else {
        assert ds' == ds;
      }
    }
    forall lo: real | now - cfg.capWindow <= lo ensures CountAfter(ds', lo) <= CountAfter(r.next.announce, lo) {
      KeptCounts(c.announce, now, cfg.capWindow, lo);
      CountsAdd(ds, [now], lo, lo);
      CountsAdd(kept, [now], lo, lo);
      CountOne(now, lo, lo);
      if !r.announceable { assert ds' == ds; }
    }
  }

  /** The decision of one batch, live or released, seen from the cap. */
  lemma EvaluateKeepsCap(cfg: Config, ds: seq<real>, c: Cadence, batch: seq<Event>, now: real, release: Option<HeldRelease>)
    requires WithinCap(cfg, ds) && MemoryCounts(cfg, ds, c.announce, now)
    ensures var ev := Evaluate(cfg, c, batch, now, release);
      var ds' := ds + if ev.decision.turn.Some? && ev.decision.turn.value.announceable then [now] else [];
      WithinCap(cfg, ds') && MemoryCounts(cfg, ds', ev.next.announce, now)
  {
    var ev := Evaluate(cfg, c, batch, now, release);
    var items := Screen(cfg, c, batch, now).items;
    if items != [] {
      var armed := c.(last := Arm(c.last, ItemKeys(items), now));
      CapGateKeeps(cfg, ds, armed, now);
    } else {
      assert ds + [] == ds;
    }
  }

  lemma SubmitDecides(w: World, w': World, it: Item)
    requires w'.log == w.log && w'.stage == w.stage && w'.queue == w.queue + [it]
    requires w.stage == Written ==> w.queue != []
    ensures Decisions(w') == Decisions(w) + ItemDecision(it)
  {
    QueueDecisionsAppend(w.queue, it);
    if w.stage == Written {
      QueueDecisionsAppend(w.queue[1..], it);
      assert w'.queue[1..] == w.queue[1..] + [it];
    }
  }

  lemma DispatchKeepsCap(cfg: Config, w: World, batch: seq<Event>, keep: seq<bool>, written: bool, idsRead: bool)
    requires StageWF(w) && CapInv(cfg, w) && DispatchEnabled(w, batch, keep, idsRead)
    ensures CapInv(cfg, Dispatched(cfg, w, batch, keep, written))
  {
    var w' := Dispatched(cfg, w, batch, keep, written);
    EvaluateKeepsCap(cfg, Decisions(w), w.cadence, Survivors(batch, keep), w.now, None);
    assert Decisions(w) + [] == Decisions(w);
    if |w'.queue| > |w.queue| {
      SubmitDecides(w, w', w'.queue[|w.queue|]);
    } else {
      assert w'.queue == w.queue;
    }
  }

  lemma ReleaseKeepsCap(cfg: Config, w: World, r: HeldRelease, markFails: bool, receiptWritten: bool)
    requires StageWF(w) && CapInv(cfg, w) && w.up
    ensures CapInv(cfg, Released(cfg, w, r, markFails, receiptWritten))
  {
    var w' := Released(cfg, w, r, markFails, receiptWritten);
    var events := Rebuilt(Groups(HeldEvents(w.ledger.store, r.windowId)).forwarded);
    EvaluateKeepsCap(cfg, Decisions(w), w.cadence, events, w.now, Some(r));
    assert Decisions(w) + [] == Decisions(w);
    var turn := ReleaseDecision(cfg, w, r).decision.turn;
    if turn.Some? { SubmitDecides(w, w', Release(turn.value, r.windowId, w.now)); }
  }

  // --- Records, losses and restarts -----------------------------------------------------------------------

  /** Writing the head's record moves its decision from the queue to the log, in place. */
  lemma WriteMovesDecision(w: World, handoff: string)
    requires Writable(w)
    ensures Decisions(WrittenWorld(w, handoff)) == Decisions(w)
    ensures LogDecisions(WrittenWorld(w, handoff).log) == LogDecisions(w.log) + ItemDecision(w.queue[0])
  {
    var w' := WrittenWorld(w, handoff);
    assert w'.log[..|w.log|] == w.log;
    assert QueueDecisions(w.queue) == ItemDecision(w.queue[0]) + QueueDecisions(w.queue[1..]);
  }

  /** Dropping decisions from the middle only lowers every count. */
  lemma FewerStayWithin(cfg: Config, a: seq<real>, b: seq<real>, c: seq<real>)
    requires WithinCap(cfg, a + b + c)
    ensures WithinCap(cfg, a + c)
  {
    forall t: real ensures WindowOk(cfg, a + c, t) {
      CountsAdd(a + b, c, t - cfg.capWindow, t);
      CountsAdd(a, b, t - cfg.capWindow, t);
      CountsAdd(a, c, t - cfg.capWindow, t);
      assert WindowOk(cfg, a + b + c, t);
    }
  }

  lemma FewerStayCounted(cfg: Config, a: seq<real>, b: seq<real>, c: seq<real>, announce: seq<real>, now: real)
    requires MemoryCounts(cfg, a + b + c, announce, now)
    ensures MemoryCounts(cfg, a + c, announce, now)
  {
    forall lo: real | now - cfg.capWindow <= lo ensures CountAfter(a + c, lo) <= CountAfter(announce, lo) {
      CountsAdd(a + b, c, lo, lo);
      CountsAdd(a, b, lo, lo);
      CountsAdd(a, c, lo, lo);
      assert CountAfter(a + b + c, lo) <= CountAfter(announce, lo);
    }
  }

  lemma FailKeepsCap(cfg: Config, w: World, handoff: string)
    requires Writable(w) && CapInv(cfg, w)
    ensures CapInv(cfg, FailedWorld(w, handoff))
  {
    var a, b, c := LogDecisions(w.log), ItemDecision(w.queue[0]), QueueDecisions(w.queue[1..]);
    assert a + (b + c) == a + b + c;
    FewerStayWithin(cfg, a, b, c);
    FewerStayCounted(cfg, a, b, c, w.cadence.announce, w.now);
  }

  lemma PopKeepsDecisions(w: World, w': World)
    requires w.queue != [] && (w.queue[0].Marker? || w.stage == Written)
    requires w'.queue == w.queue[1..] && w'.stage == Ready && w'.log == w.log
    ensures Decisions(w') == Decisions(w)
  {
  }

  lemma CrashKeepsCap(cfg: Config, w: World)
    requires WithinCap(cfg, Decisions(w))
    ensures CapInv(cfg, Down(w))
  {
    var a := LogDecisions(w.log);
    var b := Decisions(w)[|a|..];
    assert a + b + [] == Decisions(w);
    FewerStayWithin(cfg, a, b, []);
    assert Decisions(Down(w)) == a + [];
  }

  ghost function AnnouncedAfter(lo: real): AuditRecord -> bool { r => Announced(r) && lo < AtOf(r) }

  /** A replayed record announced after `lo` is a time after `lo` in memory. */
  lemma {:induction false} ReplayCounts(cfg: Config, c: Cadence, triages: seq<AuditRecord>, now: real, lo: real)
    requires now - cfg.capWindow <= lo
    ensures CountAfter(Replay(cfg, c, triages, now).announce, lo)
         == CountAfter(c.announce, lo) + Count(AnnouncedAfter(lo), triages)
  {
    if triages != [] {
      var front, r := triages[..|triages| - 1], triages[|triages| - 1];
      ReplayCounts(cfg, c, front, now, lo);
      CountsAdd(Replay(cfg, c, front, now).announce, [AtOf(r)], lo, lo);
      CountOne(AtOf(r), lo, lo);
    }
  }

  /** The filter keeps every record that still counts. */
  lemma {:induction false} EligibleCounts(cfg: Config, log: seq<Triage>, now: real, lo: real)
    requires LogWF(log, now) && now - cfg.capWindow <= lo
    ensures CountAfter(LogDecisions(log), lo) <= Count(AnnouncedAfter(lo), Eligible(cfg, Records(log), now))
  {
    if log != [] {
      var front, t := log[..|log| - 1], log[|log| - 1];
      EligibleCounts(cfg, front, now, lo);
      assert Records(log)[..|log| - 1] == Records(front) && Records(log)[|log| - 1] == t.record;
      var rest := Eligible(cfg, Records(front), now);
      assert (rest + [t.record])[..|rest|] == rest;
      CountsAdd(LogDecisions(front), [t.decidedAt], lo, lo);
      CountOne(t.decidedAt, lo, lo);
      assert LogDecisions(front) + [] == LogDecisions(front);
      assert lo < t.decidedAt ==> EligibleRecord(cfg, t.record, now) && lo < AtOf(t.record);
    }
  }

  /** A restart counts, from the records alone, at least every recorded decision. */
  lemma RehydrateCounts(cfg: Config, log: seq<Triage>, now: real)
    requires LogWF(log, now)
    ensures MemoryCounts(cfg, LogDecisions(log), Rehydrate(cfg, EMPTY, Records(log), now).announce, now)
  {
    var es := Eligible(cfg, Records(log), now);
    var replayed := Replay(cfg, EMPTY.(capSuppressed := 0), SortBy(AtOf, es), now);
    forall lo: real | now - cfg.capWindow <= lo
      ensures CountAfter(LogDecisions(log), lo) <= CountAfter(SortBy(Itself, replayed.announce), lo)
    {
      EligibleCounts(cfg, log, now, lo);
      SortCounts(AnnouncedAfter(lo), AtOf, es);
      ReplayCounts(cfg, EMPTY.(capSuppressed := 0), SortBy(AtOf, es), now, lo);
      var after := (t: real) => lo < t;
      SortCounts(after, Itself, replayed.announce);
      CountIsAfter(after, replayed.announce, lo);
      CountIsAfter(after, SortBy(Itself, replayed.announce), lo);
    }
  }

  lemma RestartKeepsCap(cfg: Config, w: World)
    requires LogWF(w.log, w.now) && DownWF(w) && !w.up && CapInv(cfg, w)
    ensures CapInv(cfg, Apply(cfg, w, Restart))
  {
    var w' := Apply(cfg, w, Restart);
    RehydrateCounts(cfg, w.log, w.now);
    assert Decisions(w) == LogDecisions(w.log) + [];
    assert LogDecisions(w.log) + [] == LogDecisions(w.log);
    assert Decisions(w') == Decisions(w);
  }

  // --- Runs -----------------------------------------------------------------------------------------------

  lemma StepKeepsCap(cfg: Config, w: World, s: Step)
    requires Inv(cfg, w) && CapInv(cfg, w) && Enabled(w, s)
    ensures CapInv(cfg, Apply(cfg, w, s))
  {
    var w' := Apply(cfg, w, s);
    match s
    case Dispatch(batch, keep, written, idsRead) => DispatchKeepsCap(cfg, w, batch, keep, written, idsRead);
    case ReleaseTick(r, markFails, receiptWritten) => ReleaseKeepsCap(cfg, w, r, markFails, receiptWritten);
    case WriteRecord(ok, handoff) =>
      if ok { WriteMovesDecision(w, handoff); } else { FailKeepsCap(cfg, w, handoff); }
    case MarkWindow(_, _) => PopKeepsDecisions(w, w');
    case AdvanceCursor(_) => PopKeepsDecisions(w, w');
    case ShutdownFlush(handoff) =>
      WriteMovesDecision(w, handoff);
      CrashKeepsCap(cfg, WrittenWorld(w, handoff));
    case Crash => CrashKeepsCap(cfg, w);
    case Restart => RestartKeepsCap(cfg, w);
    case Publish(_) =>
    case Elapse(_) =>
    case Deliver =>
    case HoldRow(_, _, _, _) =>
    case ExtendWindow(_, _) =>
  }

  lemma {:induction false} RunKeepsCap(cfg: Config, w: World, steps: seq<Step>)
    requires ConfigWF(cfg) && Inv(cfg, w) && CapInv(cfg, w) && Legal(cfg, w, steps)
    ensures CapInv(cfg, Run(cfg, w, steps))
    decreases |steps|
  {
    if steps != [] {
      StepKeepsInv(cfg, w, steps[0]);
      StepKeepsCap(cfg, w, steps[0]);
      RunKeepsCap(cfg, Apply(cfg, w, steps[0]), steps[1..]);
    }
  }

  lemma StartCap(cfg: Config)
    ensures CapInv(cfg, START)
  {
    assert Decisions(START) == [];
  }

  lemma LoggedWithinCap(cfg: Config, w: World, t: real)
    requires WithinCap(cfg, Decisions(w))
    ensures CountIn(LogDecisions(w.log), t - cfg.capWindow, t) <= CapOf(cfg)
  {
    CrashKeepsCap(cfg, w);
    assert Decisions(Down(w)) == LogDecisions(w.log) + [];
    assert LogDecisions(w.log) + [] == LogDecisions(w.log);
    assert WindowOk(cfg, Decisions(Down(w)), t);
  }

  /** Over any run with any number of restarts, every window of the cap's length holds at
  most `cap` announceable decisions whose triage records were written. */
  lemma CapHoldsAcrossRestarts(cfg: Config, steps: seq<Step>, t: real)
    requires ConfigWF(cfg) && Legal(cfg, START, steps)
    ensures CountIn(LogDecisions(Run(cfg, START, steps).log), t - cfg.capWindow, t) <= CapOf(cfg)
  {
    StartInv(cfg);
    StartCap(cfg);
    RunKeepsCap(cfg, START, steps);
    LoggedWithinCap(cfg, Run(cfg, START, steps), t);
  }
}
