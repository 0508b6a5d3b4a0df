/** Cooldown, recurrence and the daily cap: the policy of `henk/events/pipeline.py`.

The policy is a set of functions over a `Cadence` value. `EventPipeline` is the
object the source updates in place; each of its methods is proved against the
function of the same name. Times are wall-clock seconds, modelled as reals.
*/
module Cadence {
  import opened Common

  // --- Events and identities ---------------------------------------------------------

  datatype EventState = Firing | Resolved | Unknown

  datatype Identity = Identity(key: string, state: EventState)

  /** One event as intake delivers it. `publishedAt` is the frame's usable time. */
  datatype Event = Event(id: string, title: string, message: string,
                         arrival: real, publishedAt: Option<real>)

  /** A cooldown override; the pattern search is given as a predicate on the key. */
  datatype Override = Override(pattern: Option<string -> bool>, seconds: real)

  /** `derive` stands for identity derivation, a pure function of title and message. */
  datatype Config = Config(derive: (string, string) -> Identity,
                           cooldown: real, recurrenceWindow: real,
                           cap: int, capWindow: real, overrides: seq<Override>)

  function IdentityOf(cfg: Config, e: Event): Identity { cfg.derive(e.title, e.message) }

  function KeyOf(cfg: Config, e: Event): string { IdentityOf(cfg, e).key }

  // --- Turns and records -------------------------------------------------------------

  datatype HeldRelease = HeldRelease(windowId: string, held: nat, recovered: nat,
                                     start: real, endWithGrace: real, holdAge: real)

  datatype TurnItem = TurnItem(event: Event, identity: Identity,
                               recurrence: bool, priorRef: Option<string>)

  datatype EventTurn = EventTurn(items: seq<TurnItem>, announceable: bool,
                                 suppressedCount: int, heldRelease: Option<HeldRelease>)

  datatype Suppression = Suppression(key: string, eventId: string, at: real)

  datatype Decision = Decision(turn: Option<EventTurn>, suppressions: seq<Suppression>)

  /** The fields of a persisted audit record that rehydration reads. */
  datatype AuditRecord = AuditRecord(recordType: string, trigger: string, at: Option<real>,
                                     keys: seq<string>, handoff: string,
                                     announceable: Option<bool>)

  /** The mutable cadence state of one process. */
  datatype Cadence = Cadence(last: map<string, real>, refs: map<string, string>,
                             announce: seq<real>, capSuppressed: int)

  const EMPTY := Cadence(map[], map[], [], 0)

  // --- Cooldowns -----------------------------------------------------------------------

  /** First override whose pattern matches, else the default. */
  function CooldownFrom(overrides: seq<Override>, fallback: real, key: string): real {
    if overrides == [] then fallback
    else if overrides[0].pattern.Some? && overrides[0].pattern.value(key) then overrides[0].seconds
    else CooldownFrom(overrides[1..], fallback, key)
  }

  function CooldownFor(cfg: Config, key: string): real {
    CooldownFrom(cfg.overrides, cfg.cooldown, key)
  }

  predicate FirstMatch(overrides: seq<Override>, key: string, i: nat) {
    && i < |overrides| && overrides[i].pattern.Some? && overrides[i].pattern.value(key)
    && forall j :: 0 <= j < i ==> overrides[j].pattern.None? || !overrides[j].pattern.value(key)
  }

  predicate NoMatch(overrides: seq<Override>, key: string) {
    forall j :: 0 <= j < |overrides| ==> overrides[j].pattern.None? || !overrides[j].pattern.value(key)
  }

  /** The first override whose pattern matches decides, and the default only without one. */
  lemma {:induction false} FirstMatchDecides(overrides: seq<Override>, fallback: real, key: string)
    ensures forall i: nat :: FirstMatch(overrides, key, i) ==> CooldownFrom(overrides, fallback, key) == overrides[i].seconds
    ensures NoMatch(overrides, key) ==> CooldownFrom(overrides, fallback, key) == fallback
  {
    if overrides != [] {
      FirstMatchDecides(overrides[1..], fallback, key);
      forall i: nat | 0 < i && FirstMatch(overrides, key, i)
        ensures CooldownFrom(overrides, fallback, key) == overrides[i].seconds
      {
        assert FirstMatch(overrides[1..], key, i - 1);
      }
    }
  }

  function Max(a: real, b: real): real { if a < b then b else a }

  function WidestOf(overrides: seq<Override>, floor: real): (w: real)
    ensures w >= floor
    ensures forall i :: 0 <= i < |overrides| ==> overrides[i].seconds <= w
  {
    if overrides == [] then floor else WidestOf(overrides[1..], Max(floor, overrides[0].seconds))
  }

  /** The window that still matters to any cooldown, the recurrence window or the cap. */
  function Widest(cfg: Config): (w: real)
    ensures cfg.capWindow <= w && cfg.recurrenceWindow <= w && cfg.cooldown <= w
  {
    WidestOf(cfg.overrides, Max(cfg.cooldown, Max(cfg.recurrenceWindow, cfg.capWindow)))
  }

  lemma {:induction false} CooldownFromBounded(overrides: seq<Override>, fallback: real, key: string, w: real)
    requires fallback <= w && forall i :: 0 <= i < |overrides| ==> overrides[i].seconds <= w
    ensures CooldownFrom(overrides, fallback, key) <= w
  {
    if overrides != [] { CooldownFromBounded(overrides[1..], fallback, key, w); }
  }

  /** No cooldown, override or default, outlives the rehydration window. */
  lemma CooldownWithinWidest(cfg: Config, key: string)
    ensures CooldownFor(cfg, key) <= Widest(cfg)
  {
    CooldownFromBounded(cfg.overrides, cfg.cooldown, key, Widest(cfg));
  }

  predicate InCooldown(cfg: Config, last: map<string, real>, key: string, now: real) {
    key in last && now - last[key] < CooldownFor(cfg, key)
  }

  // --- Screening one batch ---------------------------------------------------------------

  datatype Screened = Screened(items: seq<TurnItem>, suppressed: seq<Suppression>)

  predicate SeenIn(cfg: Config, batch: seq<Event>, key: string) {
    exists i :: 0 <= i < |batch| && KeyOf(cfg, batch[i]) == key
  }

  predicate Recurs(cfg: Config, last: map<string, real>, key: string, now: real) {
    key in last && now - last[key] < cfg.recurrenceWindow
  }

  function ItemOf(cfg: Config, c: Cadence, e: Event, now: real): TurnItem {
    var key := KeyOf(cfg, e);
    var again := Recurs(cfg, c.last, key, now);
    TurnItem(e, IdentityOf(cfg, e), again,
             if again && key in c.refs then Some(c.refs[key]) else None)
  }

  /** One event of a batch whose earlier events are `before`. */
  function ScreenOne(cfg: Config, c: Cadence, before: seq<Event>, e: Event, now: real, s: Screened): Screened {
    var key := KeyOf(cfg, e);
    if SeenIn(cfg, before, key) then s
    else if InCooldown(cfg, c.last, key, now) then
      s.(suppressed := s.suppressed + [Suppression(key, e.id, now)])
    else
      s.(items := s.items + [ItemOf(cfg, c, e, now)])
  }

  function Screen(cfg: Config, c: Cadence, batch: seq<Event>, now: real): Screened {
    if batch == [] then Screened([], [])
    else
      var before := batch[..|batch| - 1];
      ScreenOne(cfg, c, before, batch[|batch| - 1], now, Screen(cfg, c, before, now))
  }

  function ItemKeys(items: seq<TurnItem>): (ks: set<string>) {
    set i | 0 <= i < |items| :: items[i].identity.key
  }

  function SuppressedKeys(ss: seq<Suppression>): set<string> {
    set i | 0 <= i < |ss| :: ss[i].key
  }

  function BatchKeys(cfg: Config, batch: seq<Event>): set<string> {
    set i | 0 <= i < |batch| :: KeyOf(cfg, batch[i])
  }

  lemma ItemKeysAppend(items: seq<TurnItem>, item: TurnItem)
    ensures ItemKeys(items + [item]) == ItemKeys(items) + {item.identity.key}
  {
    var all := items + [item];
    forall k | k in ItemKeys(items) + {item.identity.key} ensures k in ItemKeys(all) {
      if k == item.identity.key { assert all[|items|].identity.key == k; }
      else { var i :| 0 <= i < |items| && items[i].identity.key == k; assert all[i].identity.key == k; }
    }
  }

  lemma SuppressedKeysAppend(ss: seq<Suppression>, s: Suppression)
    ensures SuppressedKeys(ss + [s]) == SuppressedKeys(ss) + {s.key}
  {
    var all := ss + [s];
    forall k | k in SuppressedKeys(ss) + {s.key} ensures k in SuppressedKeys(all) {
      if k == s.key { assert all[|ss|].key == k; }
      else { var i :| 0 <= i < |ss| && ss[i].key == k; assert all[i].key == k; }
    }
  }

  lemma BatchKeysAppend(cfg: Config, batch: seq<Event>, e: Event)
    ensures BatchKeys(cfg, batch + [e]) == BatchKeys(cfg, batch) + {KeyOf(cfg, e)}
  {
    var all := batch + [e];
    forall k | k in BatchKeys(cfg, batch) + {KeyOf(cfg, e)} ensures k in BatchKeys(cfg, all) {
      if k == KeyOf(cfg, e) { assert KeyOf(cfg, all[|batch|]) == k; }
      else { var i :| 0 <= i < |batch| && KeyOf(cfg, batch[i]) == k; assert KeyOf(cfg, all[i]) == k; }
    }
  }

  /** Every identity of a batch is triaged or suppressed, never both: suppressed exactly
  when it is in cooldown. */
  lemma {:induction false} ScreenPartitions(cfg: Config, c: Cadence, batch: seq<Event>, now: real)
    ensures forall k :: k in SuppressedKeys(Screen(cfg, c, batch, now).suppressed) <==>
                k in BatchKeys(cfg, batch) && InCooldown(cfg, c.last, k, now)
    ensures forall k :: k in ItemKeys(Screen(cfg, c, batch, now).items) <==>
                k in BatchKeys(cfg, batch) && !InCooldown(cfg, c.last, k, now)
  {
    if batch != [] {
      var before, e := batch[..|batch| - 1], batch[|batch| - 1];
      assert batch == before + [e];
      ScreenPartitions(cfg, c, before, now);
      BatchKeysAppend(cfg, before, e);
      var s := Screen(cfg, c, before, now);
      ItemKeysAppend(s.items, ItemOf(cfg, c, e, now));
      SuppressedKeysAppend(s.suppressed, Suppression(KeyOf(cfg, e), e.id, now));
      SeenIsBatchKey(cfg, before, KeyOf(cfg, e));
    }
  }

  lemma SeenIsBatchKey(cfg: Config, batch: seq<Event>, key: string)
    ensures SeenIn(cfg, batch, key) <==> key in BatchKeys(cfg, batch)
  {
  }

  /** One entry per identity: the batch's repeats of an identity add nothing. */
  lemma {:induction false} ScreenCountsIdentities(cfg: Config, c: Cadence, batch: seq<Event>, now: real)
    ensures var s := Screen(cfg, c, batch, now); |s.items| + |s.suppressed| == |BatchKeys(cfg, batch)|
  {
    if batch != [] {
      var before, e := batch[..|batch| - 1], batch[|batch| - 1];
      assert batch == before + [e];
      ScreenCountsIdentities(cfg, c, before, now);
      BatchKeysAppend(cfg, before, e);
      SeenIsBatchKey(cfg, before, KeyOf(cfg, e));
    }
  }

  /** Each item is an event of the batch, framed from the state before the batch. */
  lemma {:induction false} ScreenKeepsEvents(cfg: Config, c: Cadence, batch: seq<Event>, now: real)
    ensures forall item :: item in Screen(cfg, c, batch, now).items ==>
                item.event in batch && item == ItemOf(cfg, c, item.event, now)
  {
    if batch != [] {
      var before, e := batch[..|batch| - 1], batch[|batch| - 1];
      assert batch == before + [e];
      ScreenKeepsEvents(cfg, c, before, now);
    }
  }

  // --- The cap and the whole decision --------------------------------------------------

  function KeptTimes(ts: seq<real>, now: real, window: real): seq<real> {
    if ts == [] then []
    else
      var rest := KeptTimes(ts[..|ts| - 1], now, window);
      if now - ts[|ts| - 1] < window then rest + [ts[|ts| - 1]] else rest
  }

  /** How many instants come after `lo`. */
  function CountAfter(ts: seq<real>, lo: real): nat {
    if ts == [] then 0 else CountAfter(ts[..|ts| - 1], lo) + if lo < ts[|ts| - 1] then 1 else 0
  }

  lemma {:induction false} KeptAreRecent(ts: seq<real>, now: real, window: real)
    ensures |KeptTimes(ts, now, window)| == CountAfter(ts, now - window)
  {
    if ts != [] { KeptAreRecent(ts[..|ts| - 1], now, window); }
  }

  datatype CapResult = CapResult(next: Cadence, announceable: bool, surfaced: int)

  function ApplyCap(cfg: Config, c: Cadence, now: real): CapResult {
    var recent := KeptTimes(c.announce, now, cfg.capWindow);
    if |recent| < cfg.cap then
      CapResult(c.(announce := recent + [now], capSuppressed := 0), true, c.capSuppressed)
    else
      CapResult(c.(announce := recent, capSuppressed := c.capSuppressed + 1), false, 0)
  }

  function Arm(last: map<string, real>, keys: set<string>, at: real): map<string, real> {
    last + map k | k in keys :: at
  }

  /** What a triage's handoff leaves for later recurrences: its reference, under each item. */
  function Noted(c: Cadence, items: seq<TurnItem>, ref: string): Cadence {
    if ref == "" then c else c.(refs := c.refs + map k | k in ItemKeys(items) :: ref)
  }

  lemma NoteNone(c: Cadence, ref: string)
    ensures Noted(c, [], ref) == c
  {
    assert ItemKeys([]) == {};
    assert c.refs + (map k | k in ItemKeys([]) :: ref) == c.refs;
  }

  lemma NoteOneMore(c: Cadence, items: seq<TurnItem>, i: nat, ref: string)
    requires i < |items| && ref != ""
    ensures Noted(c, items[..i + 1], ref) == Noted(c, items[..i], ref).(refs := Noted(c, items[..i], ref).refs[items[i].identity.key := ref])
  {
    assert items[..i + 1] == items[..i] + [items[i]];
    ItemKeysAppend(items[..i], items[i]);
  }

  lemma ArmOneMore(last: map<string, real>, items: seq<TurnItem>, i: nat, at: real)
    requires i < |items|
    ensures Arm(last, ItemKeys(items[..i + 1]), at) == Arm(last, ItemKeys(items[..i]), at)[items[i].identity.key := at]
  {
    assert items[..i + 1] == items[..i] + [items[i]];
    ItemKeysAppend(items[..i], items[i]);
  }

  datatype Evaluated = Evaluated(next: Cadence, decision: Decision)

  function Evaluate(cfg: Config, c: Cadence, batch: seq<Event>, now: real,
                    release: Option<HeldRelease>): Evaluated
  {
    var s := Screen(cfg, c, batch, now);
    if s.items == [] then Evaluated(c, Decision(None, s.suppressed))
    else
      var armed := c.(last := Arm(c.last, ItemKeys(s.items), now));
      var capped := ApplyCap(cfg, armed, now);
      Evaluated(capped.next,
                Decision(Some(EventTurn(s.items, capped.announceable, capped.surfaced, release)), s.suppressed))
  }

  /** A turn may be announced exactly when fewer than the cap of announcements still count, and
  tells of the turns silenced since the last one; a silenced turn tells of none. */
  lemma AnnouncedIffRoom(cfg: Config, c: Cadence, batch: seq<Event>, now: real, release: Option<HeldRelease>)
    ensures var ev := Evaluate(cfg, c, batch, now, release);
      var room := CountAfter(c.announce, now - cfg.capWindow) < cfg.cap;
      && (ev.decision.turn.Some? <==> exists k :: k in BatchKeys(cfg, batch) && !InCooldown(cfg, c.last, k, now))
      && (ev.decision.turn.Some? ==>
            var turn := ev.decision.turn.value;
            && turn.announceable == room && turn.heldRelease == release
            && turn.suppressedCount == (if room then c.capSuppressed else 0)
            && ev.next.capSuppressed == (if room then 0 else c.capSuppressed + 1))
  {
    var items := Screen(cfg, c, batch, now).items;
    ScreenPartitions(cfg, c, batch, now);
    KeptAreRecent(c.announce, now, cfg.capWindow);
    if items != [] { assert items[0].identity.key in ItemKeys(items); }
  }

  /** Deciding on a turn starts the cooldown of exactly the identities it triages; without one,
  nothing in memory changes. */
  lemma EvaluateArms(cfg: Config, c: Cadence, batch: seq<Event>, now: real, release: Option<HeldRelease>, k: string)
    ensures var ev := Evaluate(cfg, c, batch, now, release);
      var triaged := k in BatchKeys(cfg, batch) && !InCooldown(cfg, c.last, k, now);
      && ev.next.refs == c.refs && (ev.decision.turn.None? ==> ev.next == c)
      && (triaged ==> k in ev.next.last && ev.next.last[k] == now)
      && (!triaged ==> (k in ev.next.last <==> k in c.last) && (k in c.last ==> ev.next.last[k] == c.last[k]))
  {
    ScreenPartitions(cfg, c, batch, now);
  }

  // --- What is screened, in order ----------------------------------------------------------

  /** The first event of its identity in the batch. */
  predicate IsFirst(cfg: Config, batch: seq<Event>, i: nat) {
    i < |batch| && forall j :: 0 <= j < i ==> KeyOf(cfg, batch[j]) != KeyOf(cfg, batch[i])
  }

  /** The turn item of an event: a recurrence when its identity was triaged within the window,
  and then with the reference that triage left, if any. */
  predicate FramedAs(cfg: Config, c: Cadence, e: Event, now: real, item: TurnItem) {
    var key := cfg.derive(e.title, e.message).key;
    && item.event == e && item.identity == cfg.derive(e.title, e.message)
    && (item.recurrence <==> key in c.last && now - c.last[key] < cfg.recurrenceWindow)
    && item.priorRef == (if item.recurrence && key in c.refs then Some(c.refs[key]) else None)
  }

  predicate Rising(at: seq<nat>) { forall i, j :: 0 <= i < j < |at| ==> at[i] < at[j] }

  /** The items are the batch's events at the positions `at`, the suppressions those at `off`. */
  ghost predicate ScreenedAt(cfg: Config, c: Cadence, batch: seq<Event>, now: real, s: Screened, at: seq<nat>, off: seq<nat>) {
    && Rising(at) && Rising(off) && |at| == |s.items| && |off| == |s.suppressed|
    && (forall n :: 0 <= n < |at| ==> at[n] < |batch| && FramedAs(cfg, c, batch[at[n]], now, s.items[n]))
    && (forall n :: 0 <= n < |off| ==>
          off[n] < |batch| && s.suppressed[n] == Suppression(KeyOf(cfg, batch[off[n]]), batch[off[n]].id, now))
    && (forall i: nat :: i in at <==> IsFirst(cfg, batch, i) && !InCooldown(cfg, c.last, KeyOf(cfg, batch[i]), now))
    && (forall i: nat :: i in off <==> IsFirst(cfg, batch, i) && InCooldown(cfg, c.last, KeyOf(cfg, batch[i]), now))
  }

  /** One more event that its identity's first event makes no difference to. */
  lemma ScreenSkips(cfg: Config, c: Cadence, before: seq<Event>, e: Event, now: real, s: Screened, at: seq<nat>, off: seq<nat>)
    requires ScreenedAt(cfg, c, before, now, s, at, off) && SeenIn(cfg, before, KeyOf(cfg, e))
    ensures ScreenedAt(cfg, c, before + [e], now, s, at, off)
  {
    FirstsAppend(cfg, before, e);
  }

  lemma ScreenFrames(cfg: Config, c: Cadence, before: seq<Event>, e: Event, now: real, s: Screened, at: seq<nat>, off: seq<nat>)
    requires ScreenedAt(cfg, c, before, now, s, at, off) && !SeenIn(cfg, before, KeyOf(cfg, e))
    requires !InCooldown(cfg, c.last, KeyOf(cfg, e), now)
    ensures ScreenedAt(cfg, c, before + [e], now, s.(items := s.items + [ItemOf(cfg, c, e, now)]), at + [|before|], off)
  {
    FirstsAppend(cfg, before, e);
    assert forall i :: i in at + [|before|] <==> i in at || i == |before|;
  }

  lemma ScreenSuppresses(cfg: Config, c: Cadence, before: seq<Event>, e: Event, now: real, s: Screened, at: seq<nat>, off: seq<nat>)
    requires ScreenedAt(cfg, c, before, now, s, at, off) && !SeenIn(cfg, before, KeyOf(cfg, e))
    requires InCooldown(cfg, c.last, KeyOf(cfg, e), now)
    ensures ScreenedAt(cfg, c, before + [e], now,
                       s.(suppressed := s.suppressed + [Suppression(KeyOf(cfg, e), e.id, now)]), at, off + [|before|])
  {
    FirstsAppend(cfg, before, e);
    assert forall i :: i in off + [|before|] <==> i in off || i == |before|;
  }

  /** Triaged and suppressed alike are the first events of their identities, in batch order. */
  lemma {:induction false} ScreenTakesFirsts(cfg: Config, c: Cadence, batch: seq<Event>, now: real)
    returns (at: seq<nat>, off: seq<nat>)
    ensures ScreenedAt(cfg, c, batch, now, Screen(cfg, c, batch, now), at, off)
  {
    at, off := [], [];
    if batch != [] {
      var before, e := batch[..|batch| - 1], batch[|batch| - 1];
      assert batch == before + [e];
      at, off := ScreenTakesFirsts(cfg, c, before, now);
      var s := Screen(cfg, c, before, now);
      if SeenIn(cfg, before, KeyOf(cfg, e)) {
        ScreenSkips(cfg, c, before, e, now, s, at, off);
      } else if InCooldown(cfg, c.last, KeyOf(cfg, e), now) {
        ScreenSuppresses(cfg, c, before, e, now, s, at, off);
        off := off + [|before|];
      } else {
        ScreenFrames(cfg, c, before, e, now, s, at, off);
        at := at + [|before|];
      }
    }
  }

  lemma FirstsAppend(cfg: Config, before: seq<Event>, e: Event)
    ensures forall i: nat :: i < |before| ==> IsFirst(cfg, before + [e], i) == IsFirst(cfg, before, i)
    ensures IsFirst(cfg, before + [e], |before|) <==> !SeenIn(cfg, before, KeyOf(cfg, e))
  {
    var batch := before + [e];
    forall i: nat | i < |before| ensures IsFirst(cfg, batch, i) == IsFirst(cfg, before, i) {
      assert forall j :: 0 <= j <= i ==> batch[j] == before[j];
    }
    assert forall j :: 0 <= j < |before| ==> batch[j] == before[j];
  }

  // --- Rehydration -----------------------------------------------------------------------

  predicate EligibleRecord(cfg: Config, r: AuditRecord, now: real) {
    r.recordType == "session" && r.trigger == "event" && r.at.Some? && now - r.at.value < Widest(cfg)
  }

  function Eligible(cfg: Config, records: seq<AuditRecord>, now: real): (es: seq<AuditRecord>)
    ensures forall r :: r in es <==> r in records && EligibleRecord(cfg, r, now)
  {
    if records == [] then []
    else
      var rest := Eligible(cfg, records[..|records| - 1], now);
      var r := records[|records| - 1];
      assert records == records[..|records| - 1] + [r];
      if EligibleRecord(cfg, r, now) then rest + [r] else rest
  }

  function AtOf(r: AuditRecord): real { if r.at.Some? then r.at.value else 0.0 }

  /** The identity keys a record arms: a record item without a key arms nothing. */
  function KeysOf(r: AuditRecord): set<string> { set k | k in r.keys && k != "" }

  function ReplayOne(cfg: Config, c: Cadence, r: AuditRecord, now: real): Cadence {
    var at := AtOf(r);
    var last := Arm(c.last, KeysOf(r), at);
    var refs := if now - at < cfg.recurrenceWindow && r.handoff != ""
                then c.refs + map k | k in KeysOf(r) :: r.handoff else c.refs;
    if now - at < cfg.capWindow && r.announceable == Some(true) then
      Cadence(last, refs, c.announce + [at], 0)
    else if now - at < cfg.capWindow && r.announceable == Some(false) then
      Cadence(last, refs, c.announce, c.capSuppressed + 1)
    else
      Cadence(last, refs, c.announce, c.capSuppressed)
  }

  function Replay(cfg: Config, c: Cadence, triages: seq<AuditRecord>, now: real): Cadence {
    if triages == [] then c
    else ReplayOne(cfg, Replay(cfg, c, triages[..|triages| - 1], now), triages[|triages| - 1], now)
  }

  /** The eligible triage records, oldest first. */
  function Triages(cfg: Config, records: seq<AuditRecord>, now: real): seq<AuditRecord> {
    SortBy(AtOf, Eligible(cfg, records, now))
  }

  function Itself(t: real): real { t }

  function Rehydrate(cfg: Config, c: Cadence, records: seq<AuditRecord>, now: real): Cadence {
    var replayed := Replay(cfg, c.(capSuppressed := 0), Triages(cfg, records, now), now);
    replayed.(announce := SortBy(Itself, replayed.announce))
  }

  ghost predicate ArmsAtLeast(last: map<string, real>, records: seq<AuditRecord>) {
    forall r, k :: r in records && k in KeysOf(r) ==> k in last && AtOf(r) <= last[k]
  }

  ghost predicate ArmedByOne(last: map<string, real>, records: seq<AuditRecord>, k: string) {
    exists r :: r in records && k in KeysOf(r) && k in last && AtOf(r) == last[k]
  }

  ghost predicate ArmsNewest(last: map<string, real>, records: seq<AuditRecord>) {
    && ArmsAtLeast(last, records)
    && forall k :: k in last ==> ArmedByOne(last, records, k)
  }

  lemma ArmNewer(last: map<string, real>, records: seq<AuditRecord>, r: AuditRecord)
    requires ArmsNewest(last, records)
    requires forall q :: q in records ==> AtOf(q) <= AtOf(r)
    ensures ArmsNewest(Arm(last, KeysOf(r), AtOf(r)), records + [r])
  {
    var next, all := Arm(last, KeysOf(r), AtOf(r)), records + [r];
    forall k | k in next ensures ArmedByOne(next, all, k) {
      if k in KeysOf(r) { assert r in all && AtOf(r) == next[k]; }
      else {
        assert ArmedByOne(last, records, k);
        var q :| q in records && k in KeysOf(q) && AtOf(q) == last[k];
        assert q in all && AtOf(q) == next[k];
      }
    }
  }

  lemma AscendingFront(triages: seq<AuditRecord>)
    requires triages != [] && Ascending(AtOf, triages)
    ensures Ascending(AtOf, triages[..|triages| - 1])
    ensures forall q :: q in triages[..|triages| - 1] ==> AtOf(q) <= AtOf(triages[|triages| - 1])
  {
    var front := triages[..|triages| - 1];
    forall q | q in front ensures AtOf(q) <= AtOf(triages[|triages| - 1]) {
      var i :| 0 <= i < |front| && front[i] == q;
      assert AtOf(triages[i]) <= AtOf(triages[|triages| - 1]);
    }
  }

  lemma ReplayOneArms(cfg: Config, c: Cadence, r: AuditRecord, now: real)
    ensures ReplayOne(cfg, c, r, now).last == Arm(c.last, KeysOf(r), AtOf(r))
  {
  }

  /** What a replay over ascending records leaves armed: the newest time of each key. */
  lemma {:induction false} ReplayArmsNewest(cfg: Config, c: Cadence, triages: seq<AuditRecord>, now: real)
    requires c.last == map[] && Ascending(AtOf, triages)
    ensures ArmsNewest(Replay(cfg, c, triages, now).last, triages)
  {
    if triages != [] {
      var front, r := triages[..|triages| - 1], triages[|triages| - 1];
      AscendingFront(triages);
      ReplayArmsNewest(cfg, c, front, now);
      var before := Replay(cfg, c, front, now);
      ArmNewer(before.last, front, r);
      ReplayOneArms(cfg, before, r, now);
      assert triages == front + [r];
    }
  }

  /** A rehydrated process holds, for each key, the newest eligible triage of it. */
  lemma RehydrateArmsNewest(cfg: Config, records: seq<AuditRecord>, now: real)
    ensures ArmsNewest(Rehydrate(cfg, EMPTY, records, now).last, Eligible(cfg, records, now))
  {
    var es := Eligible(cfg, records, now);
    var ts := SortBy(AtOf, es);
    SortByAscends(AtOf, es);
    ReplayArmsNewest(cfg, EMPTY.(capSuppressed := 0), ts, now);
    SameMembersArmNewest(Rehydrate(cfg, EMPTY, records, now).last, ts, es);
  }

  /** The announcements a restart reads back are in time order. */
  lemma RehydrateSorts(cfg: Config, records: seq<AuditRecord>, now: real)
    ensures Ascending(Itself, Rehydrate(cfg, EMPTY, records, now).announce)
  {
    SortByAscends(Itself, Replay(cfg, EMPTY.(capSuppressed := 0), Triages(cfg, records, now), now).announce);
  }

  lemma SameMembersArmNewest(last: map<string, real>, ts: seq<AuditRecord>, es: seq<AuditRecord>)
    requires multiset(ts) == multiset(es) && ArmsNewest(last, ts)
    ensures ArmsNewest(last, es)
  {
    assert forall r :: r in es <==> r in multiset(es);
    assert forall r :: r in ts <==> r in multiset(ts);
    forall k | k in last ensures ArmedByOne(last, es, k) {
      assert ArmedByOne(last, ts, k);
    }
  }

  /** A record whose handoff later recurrences may still refer to. */
  predicate Refers(cfg: Config, r: AuditRecord, k: string, now: real) {
    k in KeysOf(r) && r.handoff != "" && now - AtOf(r) < cfg.recurrenceWindow
  }

  ghost predicate NewestReference(cfg: Config, records: seq<AuditRecord>, k: string, now: real, ref: string) {
    exists r :: r in records && Refers(cfg, r, k, now) && r.handoff == ref
                && forall q :: q in records && Refers(cfg, q, k, now) ==> AtOf(q) <= AtOf(r)
  }

  ghost predicate RefersToNewest(cfg: Config, refs: map<string, string>, records: seq<AuditRecord>, now: real) {
    && (forall r, k :: r in records && Refers(cfg, r, k, now) ==> k in refs)
    && (forall k :: k in refs ==> NewestReference(cfg, records, k, now, refs[k]))
  }

  lemma ReplayOneRefs(cfg: Config, c: Cadence, r: AuditRecord, now: real)
    ensures var refs := ReplayOne(cfg, c, r, now).refs;
      forall k :: (k in refs <==> k in c.refs || Refers(cfg, r, k, now))
                  && (k in refs ==> refs[k] == if Refers(cfg, r, k, now) then r.handoff else c.refs[k])
  {
  }

  lemma StillNewest(cfg: Config, front: seq<AuditRecord>, r: AuditRecord, k: string, now: real, ref: string)
    requires NewestReference(cfg, front, k, now, ref) && !Refers(cfg, r, k, now)
    ensures NewestReference(cfg, front + [r], k, now, ref)
  {
    var q :| q in front && Refers(cfg, q, k, now) && q.handoff == ref
             && forall p :: p in front && Refers(cfg, p, k, now) ==> AtOf(p) <= AtOf(q);
    assert q in front + [r];
  }

  lemma NowNewest(cfg: Config, front: seq<AuditRecord>, r: AuditRecord, k: string, now: real)
    requires Refers(cfg, r, k, now) && forall q :: q in front ==> AtOf(q) <= AtOf(r)
    ensures NewestReference(cfg, front + [r], k, now, r.handoff)
  {
    assert r in front + [r];
  }

  lemma ReplayOneRefers(cfg: Config, c: Cadence, front: seq<AuditRecord>, r: AuditRecord, now: real)
    requires RefersToNewest(cfg, c.refs, front, now) && forall q :: q in front ==> AtOf(q) <= AtOf(r)
    ensures RefersToNewest(cfg, ReplayOne(cfg, c, r, now).refs, front + [r], now)
  {
    var refs := ReplayOne(cfg, c, r, now).refs;
    ReplayOneRefs(cfg, c, r, now);
    forall k | k in refs ensures NewestReference(cfg, front + [r], k, now, refs[k]) {
      if Refers(cfg, r, k, now) { NowNewest(cfg, front, r, k, now); } else { StillNewest(cfg, front, r, k, now, c.refs[k]); }
    }
  }

  lemma {:induction false} ReplayRefers(cfg: Config, c: Cadence, triages: seq<AuditRecord>, now: real)
    requires c.refs == map[] && Ascending(AtOf, triages)
    ensures RefersToNewest(cfg, Replay(cfg, c, triages, now).refs, triages, now)
  {
    if triages != [] {
      var front, r := triages[..|triages| - 1], triages[|triages| - 1];
      AscendingFront(triages);
      ReplayRefers(cfg, c, front, now);
      ReplayOneRefers(cfg, Replay(cfg, c, front, now), front, r, now);
      assert triages == front + [r];
    }
  }

  /** After a restart an identity's prior reference is the handoff of its newest triage in the
  recurrence window that left one, and only such a triage leaves a reference. */
  lemma RehydrateRefersToNewest(cfg: Config, records: seq<AuditRecord>, now: real)
    ensures RefersToNewest(cfg, Rehydrate(cfg, EMPTY, records, now).refs, Eligible(cfg, records, now), now)
  {
    var es := Eligible(cfg, records, now);
    var ts := SortBy(AtOf, es);
    SortByAscends(AtOf, es);
    ReplayRefers(cfg, EMPTY.(capSuppressed := 0), ts, now);
    forall r ensures r in es <==> r in ts { SortByMembers(AtOf, es, r); }
    var refs := Rehydrate(cfg, EMPTY, records, now).refs;
    forall k | k in refs ensures NewestReference(cfg, es, k, now, refs[k]) {
      assert NewestReference(cfg, ts, k, now, refs[k]);
    }
  }

  /** A restart simulates the live policy. If the old process holds `k` armed at `t` and a
  triage record of `k` was written no earlier than that, then at every instant from the
  restart on, whatever the override, the new process suppresses `k` whenever the old one
  would have. */
  lemma RestartSimulatesCooldown(cfg: Config, live: Cadence, records: seq<AuditRecord>, r: AuditRecord,
                                 k: string, restart: real, now: real)
    requires k in live.last && k != "" && restart <= now
    requires r in records && r.recordType == "session" && r.trigger == "event" && k in r.keys
    requires r.at.Some? && live.last[k] <= r.at.value
    requires InCooldown(cfg, live.last, k, now)
    ensures InCooldown(cfg, Rehydrate(cfg, EMPTY, records, restart).last, k, now)
  {
    CooldownWithinWidest(cfg, k);
    RehydrateArmsNewest(cfg, records, restart);
    NewestSuppresses(cfg, Rehydrate(cfg, EMPTY, records, restart).last, Eligible(cfg, records, restart), r, k, now);
  }

  lemma NewestSuppresses(cfg: Config, last: map<string, real>, es: seq<AuditRecord>, r: AuditRecord, k: string, now: real)
    requires ArmsAtLeast(last, es) && r in es && k in KeysOf(r)
    requires now - AtOf(r) < CooldownFor(cfg, k)
    ensures InCooldown(cfg, last, k, now)
  {
  }

  /** And it invents nothing: a cooldown the new process applies is a recorded triage. */
  lemma RestartInventsNoCooldown(cfg: Config, records: seq<AuditRecord>, k: string, restart: real, now: real)
    requires InCooldown(cfg, Rehydrate(cfg, EMPTY, records, restart).last, k, now)
    ensures exists r :: r in records && r.recordType == "session" && r.trigger == "event" && k in r.keys
                        && r.at.Some? && now - r.at.value < CooldownFor(cfg, k)
  {
    RehydrateArmsNewest(cfg, records, restart);
    var last := Rehydrate(cfg, EMPTY, records, restart).last;
    var es := Eligible(cfg, records, restart);
    assert ArmedByOne(last, es, k);
    var r :| r in es && k in KeysOf(r) && AtOf(r) == last[k];
    assert k in r.keys;
  }

  // --- The object the source updates ------------------------------------------------------

  class EventPipeline {
    const cfg: Config
    var lastTriaged: map<string, real>
    var lastHandoffRef: map<string, string>
    var announceTimes: seq<real>
    var capSuppressedSinceAnnounce: int

    ghost function View(): Cadence
      reads this
    {
      Cadence(lastTriaged, lastHandoffRef, announceTimes, capSuppressedSinceAnnounce)
    }

    constructor (cfg: Config)
      ensures this.cfg == cfg && View() == EMPTY
    {
      this.cfg := cfg;
      lastTriaged, lastHandoffRef := map[], map[];
      announceTimes, capSuppressedSinceAnnounce := [], 0;
    }

    method NoteHandoff(key: string, ref: string)
      modifies this
      ensures View() == if ref == "" then old(View())
                        else old(View()).(refs := old(View()).refs[key := ref])
    {
      if ref != "" { lastHandoffRef := lastHandoffRef[key := ref]; }
    }

    method CooldownSeconds(key: string) returns (seconds: real)
      ensures seconds == CooldownFor(cfg, key)
      ensures forall i: nat :: FirstMatch(cfg.overrides, key, i) ==> seconds == cfg.overrides[i].seconds
      ensures NoMatch(cfg.overrides, key) ==> seconds == cfg.cooldown
    {
      FirstMatchDecides(cfg.overrides, cfg.cooldown, key);
      var i := 0;
      while i < |cfg.overrides|
        invariant 0 <= i <= |cfg.overrides|
        invariant CooldownFor(cfg, key) == CooldownFrom(cfg.overrides[i..], cfg.cooldown, key)
      {
        var o := cfg.overrides[i];
        if o.pattern.Some? && o.pattern.value(key) { return o.seconds; }
        i := i + 1;
      }
      seconds := cfg.cooldown;
    }

    method CapGate(now: real) returns (announceable: bool, surfaced: int)
      modifies this
      ensures var r := ApplyCap(cfg, old(View()), now);
        View() == r.next && announceable == r.announceable && surfaced == r.surfaced
      ensures announceable <==> CountAfter(old(announceTimes), now - cfg.capWindow) < cfg.cap
      ensures surfaced == if announceable then old(capSuppressedSinceAnnounce) else 0
      ensures capSuppressedSinceAnnounce == if announceable then 0 else old(capSuppressedSinceAnnounce) + 1
    {
      KeptAreRecent(announceTimes, now, cfg.capWindow);
      var kept: seq<real> := [];
      var i := 0;
      while i < |announceTimes|
        invariant 0 <= i <= |announceTimes|
        invariant kept == KeptTimes(announceTimes[..i], now, cfg.capWindow)
      {
        assert announceTimes[..i + 1][..i] == announceTimes[..i];
        if now - announceTimes[i] < cfg.capWindow { kept := kept + [announceTimes[i]]; }
        i := i + 1;
      }
      assert announceTimes[..i] == announceTimes;
      announceTimes := kept;
      if |announceTimes| < cfg.cap {
        announceTimes := announceTimes + [now];
        surfaced, capSuppressedSinceAnnounce := capSuppressedSinceAnnounce, 0;
        announceable := true;
      } else {
        capSuppressedSinceAnnounce := capSuppressedSinceAnnounce + 1;
        announceable, surfaced := false, 0;
      }
    }

    method EvaluateBatch(batch: seq<Event>, now: real, release: Option<HeldRelease>) returns (d: Decision)
      modifies this
      ensures View() == Evaluate(cfg, old(View()), batch, now, release).next
      ensures d == Evaluate(cfg, old(View()), batch, now, release).decision
    {
      var suppressions: seq<Suppression>, survivors: seq<TurnItem> := [], [];
      var seen: set<string> := {};
      ghost var c := View();
      var i := 0;
      while i < |batch|
        invariant 0 <= i <= |batch| && View() == c
        invariant seen == BatchKeys(cfg, batch[..i])
        invariant Screened(survivors, suppressions) == Screen(cfg, c, batch[..i], now)
      {
        var event := batch[i];
        var ident := IdentityOf(cfg, event);
        assert batch[..i + 1] == batch[..i] + [event] && batch[..i + 1][..i] == batch[..i];
        BatchKeysAppend(cfg, batch[..i], event);
        assert SeenIn(cfg, batch[..i], ident.key) <==> ident.key in seen;
        if ident.key !in seen {
          var cooldown := CooldownSeconds(ident.key);
          if ident.key in lastTriaged && now - lastTriaged[ident.key] < cooldown {
            suppressions := suppressions + [Suppression(ident.key, event.id, now)];
          } else {
            var recurrence := ident.key in lastTriaged && now - lastTriaged[ident.key] < cfg.recurrenceWindow;
            var ref := if recurrence && ident.key in lastHandoffRef then Some(lastHandoffRef[ident.key]) else None;
            survivors := survivors + [TurnItem(event, ident, recurrence, ref)];
          }
        }
        seen := seen + {ident.key};
        i := i + 1;
      }
      assert batch[..i] == batch;
      if survivors == [] { return Decision(None, suppressions); }
      ArmAll(survivors, now);
      var announceable, count := CapGate(now);
      d := Decision(Some(EventTurn(survivors, announceable, count, release)), suppressions);
    }

    method ArmAll(items: seq<TurnItem>, now: real)
      modifies this`lastTriaged
      ensures lastTriaged == Arm(old(lastTriaged), ItemKeys(items), now)
    {
      var i := 0;
      while i < |items|
        invariant 0 <= i <= |items|
        invariant lastTriaged == Arm(old(lastTriaged), ItemKeys(items[..i]), now)
      {
        ArmOneMore(old(lastTriaged), items, i, now);
        lastTriaged := lastTriaged[items[i].identity.key := now];
        i := i + 1;
      }
      assert items[..i] == items;
    }

    method RehydrateFrom(records: seq<AuditRecord>, now: real)
      modifies this
      ensures View() == Rehydrate(cfg, old(View()), records, now)
    {
      var triages := Triages(cfg, records, now);
      // A local in the source; kept in the field here, which nothing reads meanwhile.
      capSuppressedSinceAnnounce := 0;
      ghost var start := View();
      var i := 0;
      while i < |triages|
        invariant 0 <= i <= |triages|
        invariant View() == Replay(cfg, start, triages[..i], now)
      {
        ReplayRecord(triages[i], now);
        assert triages[..i + 1][..i] == triages[..i];
        i := i + 1;
      }
      assert triages[..i] == triages;
      announceTimes := SortBy(Itself, announceTimes);
    }

    method ReplayRecord(rec: AuditRecord, now: real)
      modifies this
      ensures View() == ReplayOne(cfg, old(View()), rec, now)
    {
      var at := AtOf(rec);
      lastTriaged := Arm(lastTriaged, KeysOf(rec), at);
      if now - at < cfg.recurrenceWindow && rec.handoff != "" {
        lastHandoffRef := lastHandoffRef + map k | k in KeysOf(rec) :: rec.handoff;
      }
      if now - at < cfg.capWindow {
        if rec.announceable == Some(true) {
          announceTimes := announceTimes + [at];
          capSuppressedSinceAnnounce := 0;
        } else if rec.announceable == Some(false) {
          capSuppressedSinceAnnounce := capSuppressedSinceAnnounce + 1;
        }
      }
    }
  }
}
