/** When a turn is silenced, over whole runs: what the process has told the owner, counted
without pruning (`_apply_cap` and `rehydrate` of `henk/events/pipeline.py`). */
module CapRuns {
  import opened Common
  import opened Cadence
  import opened Holds
  import opened Protocol
  import opened ProtocolCap

  /** One turn this process knows of: decided live, or read back from the log. */
  datatype Said = Said(at: real, announced: bool)

  function Announcements(said: seq<Said>): seq<real> {
    if said == [] then []
    else Announcements(said[..|said| - 1]) + if said[|said| - 1].announced then [said[|said| - 1].at] else []
  }

  /** The turns silenced since the last announcement. */
  function SilencedSince(said: seq<Said>): nat {
    if said == [] || said[|said| - 1].announced then 0 else SilencedSince(said[..|said| - 1]) + 1
  }

  /** What a restart reads back of one record: nothing if it is out of the cap's window or
  does not say whether it was announced. */
  function Recalled(cfg: Config, r: AuditRecord, now: real): seq<Said> {
    if now - AtOf(r) < cfg.capWindow && r.announceable.Some? then [Said(AtOf(r), r.announceable.value)] else []
  }

  function RecalledAll(cfg: Config, triages: seq<AuditRecord>, now: real): seq<Said> {
    if triages == [] then []
    else RecalledAll(cfg, triages[..|triages| - 1], now) + Recalled(cfg, triages[|triages| - 1], now)
  }

  function Decided(d: Decision, now: real): seq<Said> {
    if d.turn.Some? then [Said(now, d.turn.value.announceable)] else []
  }

  /** The decision a step takes, if it is one that takes any. */
  function DecisionOf(cfg: Config, w: World, s: Step): Option<Decision>
    requires Enabled(w, s)
  {
    match s
    case Dispatch(batch, keep, _, _) => Some(Evaluate(cfg, w.cadence, Survivors(batch, keep), w.now, None).decision)
    case ReleaseTick(r, _, _) => Some(ReleaseDecision(cfg, w, r).decision)
    case _ => None
  }

  function SaidAfter(cfg: Config, w: World, s: Step, said: seq<Said>): seq<Said>
    requires Enabled(w, s)
  {
    if s.Crash? || s.ShutdownFlush? then []
    else if s.Restart? then RecalledAll(cfg, Triages(cfg, Records(w.log), w.now), w.now)
    else if DecisionOf(cfg, w, s).Some? then said + Decided(DecisionOf(cfg, w, s).value, w.now)
    else said
  }

  /** What the process has said at the end of a run. */
  ghost function SaidIn(cfg: Config, w: World, steps: seq<Step>, said: seq<Said>): seq<Said>
    requires Legal(cfg, w, steps)
    decreases |steps|
  {
    if steps == [] then said else SaidIn(cfg, Apply(cfg, w, steps[0]), steps[1..], SaidAfter(cfg, w, steps[0], said))
  }

  /** Memory counts exactly the announcements said in any window still open, and the turns
  silenced since the last. */
  ghost predicate Remembers(cfg: Config, c: Cadence, now: real, said: seq<Said>) {
    && (forall lo: real :: now - cfg.capWindow <= lo ==> CountAfter(c.announce, lo) == CountAfter(Announcements(said), lo))
    && c.capSuppressed == SilencedSince(said)
  }

  lemma SaidOneMore(said: seq<Said>, one: Said)
    ensures Announcements(said + [one]) == Announcements(said) + if one.announced then [one.at] else []
    ensures SilencedSince(said + [one]) == if one.announced then 0 else SilencedSince(said) + 1
  {
    assert (said + [one])[..|said|] == said;
  }

  lemma CapCounts(cfg: Config, c: Cadence, now: real, said: seq<Said>, lo: real)
    requires now - cfg.capWindow <= lo && CountAfter(c.announce, lo) == CountAfter(Announcements(said), lo)
    ensures var r := ApplyCap(cfg, c, now);
      CountAfter(r.next.announce, lo) == CountAfter(Announcements(said) + if r.announceable then [now] else [], lo)
  {
    var kept := KeptTimes(c.announce, now, cfg.capWindow);
    KeptCounts(c.announce, now, cfg.capWindow, lo);
    CountsAdd(kept, [now], lo, lo);
    CountsAdd(Announcements(said), [now], lo, lo);
    assert Announcements(said) + [] == Announcements(said);
  }

  lemma CapRemembers(cfg: Config, c: Cadence, now: real, said: seq<Said>)
    requires Remembers(cfg, c, now, said)
    ensures var r := ApplyCap(cfg, c, now);
      Remembers(cfg, r.next, now, said + [Said(now, r.announceable)])
  {
    var r := ApplyCap(cfg, c, now);
    SaidOneMore(said, Said(now, r.announceable));
    forall lo: real | now - cfg.capWindow <= lo
      ensures CountAfter(r.next.announce, lo) == CountAfter(Announcements(said + [Said(now, r.announceable)]), lo)
    {
      CapCounts(cfg, c, now, said, lo);
    }
  }

  lemma EvaluateRemembers(cfg: Config, c: Cadence, batch: seq<Event>, now: real, release: Option<HeldRelease>, said: seq<Said>)
    requires Remembers(cfg, c, now, said)
    ensures var ev := Evaluate(cfg, c, batch, now, release);
      Remembers(cfg, ev.next, now, said + Decided(ev.decision, now))
  {
    var items := Screen(cfg, c, batch, now).items;
    if items == [] {
      assert said + [] == said;
    } else {
      CapRemembers(cfg, c.(last := Arm(c.last, ItemKeys(items), now)), now, said);
    }
  }

  lemma {:induction false} ReplaySays(cfg: Config, triages: seq<AuditRecord>, now: real)
    ensures var c, said := Replay(cfg, EMPTY.(capSuppressed := 0), triages, now), RecalledAll(cfg, triages, now);
      c.announce == Announcements(said) && c.capSuppressed == SilencedSince(said)
  {
    if triages != [] {
      var front, r := triages[..|triages| - 1], triages[|triages| - 1];
      ReplaySays(cfg, front, now);
      var said := RecalledAll(cfg, front, now);
      if Recalled(cfg, r, now) == [] { assert said + [] == said; }
      else { SaidOneMore(said, Said(AtOf(r), r.announceable.value)); }
    }
  }

  lemma RestartRemembers(cfg: Config, records: seq<AuditRecord>, now: real)
    ensures Remembers(cfg, Rehydrate(cfg, EMPTY, records, now), now, RecalledAll(cfg, Triages(cfg, records, now), now))
  {
    var triages := Triages(cfg, records, now);
    ReplaySays(cfg, triages, now);
    var times := Replay(cfg, EMPTY.(capSuppressed := 0), triages, now).announce;
    forall lo: real ensures CountAfter(SortBy(Itself, times), lo) == CountAfter(times, lo) {
      var after := (t: real) => lo < t;
      SortCounts(after, Itself, times);
      CountIsAfter(after, times, lo);
      CountIsAfter(after, SortBy(Itself, times), lo);
    }
  }

  /** A later instant leaves fewer windows open. */
  lemma LaterRemembers(cfg: Config, c: Cadence, d: Cadence, now: real, later: real, said: seq<Said>)
    requires Remembers(cfg, c, now, said) && now <= later && d.announce == c.announce && d.capSuppressed == c.capSuppressed
    ensures Remembers(cfg, d, later, said)
  {
  }

  /** No other step touches what the cap remembers, or the process is down after it. */
  lemma OtherStepKeeps(cfg: Config, w: World, s: Step)
    requires Enabled(w, s) && !s.Dispatch? && !s.ReleaseTick? && !s.Restart?
    ensures var v := Apply(cfg, w, s);
      v.up ==> w.up && w.now <= v.now && v.cadence.announce == w.cadence.announce
               && v.cadence.capSuppressed == w.cadence.capSuppressed && !s.Crash? && !s.ShutdownFlush?
  {
  }

  lemma DispatchRemembers(cfg: Config, w: World, batch: seq<Event>, keep: seq<bool>, written: bool, said: seq<Said>)
    requires |keep| == |batch| && Remembers(cfg, w.cadence, w.now, said)
    ensures var v := Dispatched(cfg, w, batch, keep, written);
      Remembers(cfg, v.cadence, v.now, said + Decided(Evaluate(cfg, w.cadence, Survivors(batch, keep), w.now, None).decision, w.now))
  {
    EvaluateRemembers(cfg, w.cadence, Survivors(batch, keep), w.now, None, said);
  }

  lemma ReleaseRemembers(cfg: Config, w: World, r: HeldRelease, markFails: bool, written: bool, said: seq<Said>)
    requires Remembers(cfg, w.cadence, w.now, said)
    ensures var v := Released(cfg, w, r, markFails, written);
      Remembers(cfg, v.cadence, v.now, said + Decided(ReleaseDecision(cfg, w, r).decision, w.now))
  {
    EvaluateRemembers(cfg, w.cadence, Rebuilt(Groups(HeldEvents(w.ledger.store, r.windowId)).forwarded), w.now, Some(r), said);
  }

  lemma StepRemembers(cfg: Config, w: World, s: Step, said: seq<Said>)
    requires Enabled(w, s) && (w.up ==> Remembers(cfg, w.cadence, w.now, said))
    ensures var v := Apply(cfg, w, s); v.up ==> Remembers(cfg, v.cadence, v.now, SaidAfter(cfg, w, s, said))
  {
    match s
    case Dispatch(batch, keep, written, _) => DispatchRemembers(cfg, w, batch, keep, written, said);
    case ReleaseTick(r, markFails, written) => ReleaseRemembers(cfg, w, r, markFails, written, said);
    case Restart => RestartRemembers(cfg, Records(w.log), w.now);
    case _ =>
      OtherStepKeeps(cfg, w, s);
      var v := Apply(cfg, w, s);
      if v.up { LaterRemembers(cfg, w.cadence, v.cadence, w.now, v.now, said); }
  }

  lemma {:induction false} RunRemembers(cfg: Config, w: World, steps: seq<Step>, said: seq<Said>)
    requires Legal(cfg, w, steps) && (w.up ==> Remembers(cfg, w.cadence, w.now, said))
    ensures var v := Run(cfg, w, steps); v.up ==> Remembers(cfg, v.cadence, v.now, SaidIn(cfg, w, steps, said))
    decreases |steps|
  {
    if steps != [] {
      StepRemembers(cfg, w, steps[0], said);
      RunRemembers(cfg, Apply(cfg, w, steps[0]), steps[1..], SaidAfter(cfg, w, steps[0], said));
    }
  }

  /** A turn is silenced exactly when the cap of announcements was said in the window ending now;
  an announced one tells how many turns were silenced since the one before. */
  ghost predicate RightlySilenced(cfg: Config, now: real, said: seq<Said>, turn: EventTurn) {
    && (!turn.announceable <==> CountAfter(Announcements(said), now - cfg.capWindow) >= cfg.cap)
    && turn.suppressedCount == if turn.announceable then SilencedSince(said) else 0
  }

  /** What is decided from a memory that counts what was said. */
  lemma EvaluateSilences(cfg: Config, c: Cadence, batch: seq<Event>, now: real, release: Option<HeldRelease>, said: seq<Said>)
    requires Remembers(cfg, c, now, said)
    ensures var turn := Evaluate(cfg, c, batch, now, release).decision.turn;
      turn.Some? ==> RightlySilenced(cfg, now, said, turn.value)
  {
    AnnouncedIffRoom(cfg, c, batch, now, release);
    assert CountAfter(c.announce, now - cfg.capWindow) == CountAfter(Announcements(said), now - cfg.capWindow);
  }

  lemma StepSilences(cfg: Config, w: World, s: Step, said: seq<Said>)
    requires Enabled(w, s) && (w.up ==> Remembers(cfg, w.cadence, w.now, said))
    ensures DecisionOf(cfg, w, s).Some? && DecisionOf(cfg, w, s).value.turn.Some? ==>
              RightlySilenced(cfg, w.now, said, DecisionOf(cfg, w, s).value.turn.value)
  {
    match s
    case Dispatch(batch, keep, _, _) => EvaluateSilences(cfg, w.cadence, Survivors(batch, keep), w.now, None, said);
    case ReleaseTick(r, _, _) =>
      EvaluateSilences(cfg, w.cadence, Rebuilt(Groups(HeldEvents(w.ledger.store, r.windowId)).forwarded), w.now, Some(r), said);
    case _ =>
  }

  /** So at any point of any run, crashes and restarts included. */
  lemma SilencedIffWindowFull(cfg: Config, steps: seq<Step>, s: Step)
    requires Legal(cfg, START, steps) && Enabled(Run(cfg, START, steps), s)
    ensures var w, said := Run(cfg, START, steps), SaidIn(cfg, START, steps, []);
      DecisionOf(cfg, w, s).Some? && DecisionOf(cfg, w, s).value.turn.Some? ==>
        RightlySilenced(cfg, w.now, said, DecisionOf(cfg, w, s).value.turn.value)
  {
    RunRemembers(cfg, START, steps, []);
    StepSilences(cfg, Run(cfg, START, steps), s, SaidIn(cfg, START, steps, []));
  }
}
