/** Who may mutate what, over whole runs of the core and the gate (`henk/agent/core.py`,
`henk/gate/approval.py`).

The core opens and closes sessions between turns and frames each turn for the gate. An
authorization may outlive the turn it began in. A session remembers here, for stating
what is proved, whether it has run an event turn and whether a taint source was let
through while one of its turns was framed.
*/
module GateRuns {
  import opened Common
  import opened Gate

  datatype Session = Session(ranEvent: bool, sourced: bool)

  /** A permission that was granted, with the state of the session when its decision began. */
  datatype Grant = Grant(call: Call, outcome: Outcome, session: Option<Session>, inTurn: bool,
                         sent: bool, answers: seq<Outcome>)

  datatype System = System(gate: GateState, session: Option<Session>, tainted: bool, source: Option<string>,
                           inTurn: bool, began: map<nat, Option<Session>>, framed: map<nat, bool>, grants: seq<Grant>)

  const START_SYSTEM := System(IDLE_GATE, None, false, None, false, map[], map[], [])

  datatype Step =
    | EnsureSession(expired: bool)
    | StartEventSession
    | CloseSession
    | EnterTurn(turn: TurnType, announceable: bool)
    | ExitTurn
    | Request(tool: Tool, keys: seq<string>)
    | Sent(ref: Option<string>)
    | NotSent(tooLarge: bool)
    | Message(said: Class)
    | React(r: Reaction)
    | Answered
    | Edited(i: nat)

  predicate Enabled(s: System, step: Step) {
    match step
    case EnsureSession(_) => !s.inTurn
    case StartEventSession => !s.inTurn
    case CloseSession => !s.inTurn
    case EnterTurn(turn, _) => !s.inTurn && s.session.Some? && (turn == IncidentTurn ==> s.session.value.ranEvent)
    case ExitTurn => s.inTurn
    case Request(_, _) => true
    case Sent(_) => s.gate.pending.Some? && !s.gate.pending.value.sent
    case NotSent(_) => s.gate.pending.Some? && !s.gate.pending.value.sent
    case Message(said) => said != Ignored
    case React(_) => true
    case Answered => s.gate.pending.Some? && s.gate.pending.value.sent
    case Edited(i) => i < |s.gate.finishing|
  }

  /** The session's own memory of a taint source that got through in one of its turns. */
  function Sourced(s: System, gate: GateState, tool: Tool): System {
    if tool.raisesTaint && s.inTurn && s.session.Some? then
      s.(gate := gate, session := Some(s.session.value.(sourced := true)))
    else s.(gate := gate)
  }

  function Requested(s: System, tool: Tool, keys: seq<string>, demote: bool): System {
    var a := Authorize(s.gate, tool, keys, demote);
    var known := s.(began := s.began[s.gate.next := s.session], framed := s.framed[s.gate.next := s.inTurn]);
    if tool.kind != Mutating then Sourced(s, a.next, tool)
    else if a.verdict == Decided(Authorized) then
      Sourced(known.(grants := s.grants + [Grant(CallOf(s.gate, tool), Authorized, s.session, s.inTurn, false, [])]),
              a.next, tool)
    else known.(gate := a.next)
  }

  function Resolved(s: System): System
    requires s.gate.pending.Some? && s.gate.pending.value.sent
  {
    var p := s.gate.pending.value;
    var outcome := SettledOutcome(p);
    var n := p.call.reference;
    if !Permits(outcome) then s.(gate := Settle(s.gate))
    else
      var grant := Grant(p.call, outcome, if n in s.began then s.began[n] else None, n in s.framed && s.framed[n],
                         p.sent, p.answers);
      var granted := s.(grants := s.grants + [grant]);
      if p.promptRef.Some? then granted.(gate := Settle(s.gate)) else Sourced(granted, Settle(s.gate), p.call.tool)
  }

  function Apply(s: System, step: Step, demote: bool): System
    requires Enabled(s, step)
  {
    match step
    case EnsureSession(expired) =>
      if s.session.None? || expired then s.(session := Some(Session(false, false)), tainted := false, source := None) else s
    case StartEventSession => s.(session := Some(Session(true, false)), tainted := true, source := None)
    case CloseSession => s.(session := None, tainted := false, source := None)
    case EnterTurn(turn, announceable) =>
      s.(inTurn := true, gate := s.gate.(frame := Some(Context(turn, announceable, s.tainted, s.source))))
    case ExitTurn =>
      var c := s.gate.frame;
      var left := s.(inTurn := false, gate := s.gate.(frame := None));
      if c.Some? && c.value.tainted && !s.tainted then left.(tainted := true, source := c.value.source) else left
    case Request(tool, keys) => Requested(s, tool, keys, demote)
    case Sent(ref) => s.(gate := PromptSent(s.gate, ref))
    case NotSent(tooLarge) => s.(gate := PromptFailed(s.gate, tooLarge))
    case Message(said) => s.(gate := Deliver(s.gate, said).next)
    case React(r) => s.(gate := DeliverReaction(s.gate, r))
    case Answered => Resolved(s)
    case Edited(i) =>
      var f := s.gate.finishing[i];
      if Permits(f.outcome) then Sourced(s, FinishEdit(s.gate, i), f.call.tool) else s.(gate := FinishEdit(s.gate, i))
  }

  // --- The invariant -----------------------------------------------------------------------

  predicate Touched(session: Session) { session.ranEvent || session.sourced }

  /** A touched session is known to be tainted: by the frame inside a turn, by the core outside. */
  predicate TaintKnown(s: System) {
    && (s.inTurn ==> s.gate.frame.Some? && s.session.Some?)
    && (s.inTurn && (Touched(s.session.value) || s.tainted) ==> s.gate.frame.value.tainted)
    && (!s.inTurn && s.session.Some? && Touched(s.session.value) ==> s.tainted)
  }

  /** What every mutating call that passed the scope check began with. */
  predicate CleanStart(call: Call, session: Option<Session>, inTurn: bool) {
    IncidentTurn !in call.tool.scope ==>
      && call.context.turn == OwnerTurn && !call.context.tainted
      && (inTurn ==> call.framed && session.Some? && !Touched(session.value))
  }

  predicate GrantWF(g: Grant) {
    && CleanStart(g.call, g.session, g.inTurn)
    && (g.outcome == Authorized || (g.outcome == Approved && g.sent && g.answers != [] && g.answers[0] == Approved))
  }

  predicate PendingWF(s: System) {
    s.gate.pending.Some? ==>
      var p := s.gate.pending.value;
      var n := p.call.reference;
      && n in s.began && n in s.framed && CleanStart(p.call, s.began[n], s.framed[n])
      && 0 < n < s.gate.next
      && (p.answer.Some? <==> p.answers != []) && (p.answer.Some? ==> p.answers[0] == p.answer.value)
      && (p.answer.Some? ==> p.answer.value in {Approved, Denied, Cancelled})
  }

  predicate GrantsWF(s: System) { forall i :: 0 <= i < |s.grants| ==> GrantWF(s.grants[i]) }

  /** Receipts: one for each decision that was reached, none for the one still open. */
  ghost predicate ReceiptsWF(g: GateState) {
    && (forall i, j :: 0 <= i < j < |g.receipts| ==> g.receipts[i].reference != g.receipts[j].reference)
    && (forall i :: 0 <= i < |g.receipts| ==> 0 < g.receipts[i].reference < g.next)
    && (forall i :: 0 <= i < |g.receipts| && g.pending.Some? ==> g.receipts[i].reference != g.pending.value.call.reference)
    && (forall n :: 0 < n < g.next ==> HasReceipt(g, n) || OpenFor(g, n))
  }

  predicate HasReceipt(g: GateState, n: int) { exists i :: 0 <= i < |g.receipts| && g.receipts[i].reference == n }

  predicate OpenFor(g: GateState, n: int) { g.pending.Some? && g.pending.value.call.reference == n }

  ghost predicate SystemInv(s: System) {
    TaintKnown(s) && PendingWF(s) && GrantsWF(s) && ReceiptsWF(s.gate) && s.gate.next > 0
  }

  lemma ReceiptsStay(g: GateState, h: GateState, n: int)
    requires HasReceipt(g, n) && g.receipts <= h.receipts
    ensures HasReceipt(h, n)
  {
    var i :| 0 <= i < |g.receipts| && g.receipts[i].reference == n;
    assert h.receipts[i].reference == n;
  }

  /** A decision reached at once: its number is new, and so is its receipt. */
  lemma DecidedAtOnce(g: GateState, call: Call, outcome: Outcome, detail: Option<string>)
    requires ReceiptsWF(g) && 0 < g.next == call.reference
    requires g.pending.Some? ==> g.pending.value.call.reference < g.next
    ensures ReceiptsWF(WithReceipt(g.(next := g.next + 1), call, outcome, detail))
  {
    var h := WithReceipt(g.(next := g.next + 1), call, outcome, detail);
    assert h.receipts[|g.receipts|].reference == call.reference;
    forall n | 0 < n < h.next ensures HasReceipt(h, n) || OpenFor(h, n) {
      if n < g.next && HasReceipt(g, n) { ReceiptsStay(g, h, n); }
      else if n == g.next { assert HasReceipt(h, n); }
      else { assert OpenFor(g, n); }
    }
  }

  /** A prompt decided: the receipt replaces the open slot. */
  lemma DecidedLater(g: GateState, outcome: Outcome, detail: Option<string>)
    requires ReceiptsWF(g) && g.pending.Some? && 0 < g.pending.value.call.reference < g.next
    ensures ReceiptsWF(WithReceipt(g.(pending := None), g.pending.value.call, outcome, detail))
  {
    var h := WithReceipt(g.(pending := None), g.pending.value.call, outcome, detail);
    assert h.receipts[|g.receipts|].reference == g.pending.value.call.reference;
    forall n | 0 < n < h.next ensures HasReceipt(h, n) || OpenFor(h, n) {
      if HasReceipt(g, n) { ReceiptsStay(g, h, n); } else { assert OpenFor(g, n) && HasReceipt(h, n); }
    }
  }

  /** A prompt opened: its number is new and has no receipt. */
  lemma Opened(g: GateState, call: Call)
    requires ReceiptsWF(g) && g.pending.None? && 0 < g.next == call.reference
    ensures ReceiptsWF(g.(next := g.next + 1, pending := Some(Pending(call, None, false, None, None, []))))
  {
    var h := g.(next := g.next + 1, pending := Some(Pending(call, None, false, None, None, [])));
    forall n | 0 < n < h.next ensures HasReceipt(h, n) || OpenFor(h, n) {
      if n < g.next { assert HasReceipt(g, n); ReceiptsStay(g, h, n); }
    }
  }

  /** The receipts of a gate do not change: taint, answers and edits leave them alone. */
  lemma ReceiptsFrame(g: GateState, h: GateState)
    requires ReceiptsWF(g) && h.receipts == g.receipts && h.next == g.next
    requires h.pending.Some? == g.pending.Some?
    requires g.pending.Some? ==> h.pending.value.call.reference == g.pending.value.call.reference
    ensures ReceiptsWF(h)
  {
    forall n | 0 < n < h.next ensures HasReceipt(h, n) || OpenFor(h, n) {
      if HasReceipt(g, n) { ReceiptsStay(g, h, n); } else { assert OpenFor(g, n); }
    }
  }

  /** Every immediate outcome of `authorize` is one receipt, and taint that touches none. */
  lemma DecidedShape(g: GateState, tool: Tool, keys: seq<string>, demote: bool) returns (outcome: Outcome, detail: Option<string>)
    requires tool.kind == Mutating && Authorize(g, tool, keys, demote).verdict.Decided?
    ensures var h, k := Authorize(g, tool, keys, demote).next, WithReceipt(g.(next := g.next + 1), CallOf(g, tool), outcome, detail);
      h.receipts == k.receipts && h.next == k.next && h.pending == k.pending
  {
    var h := Authorize(g, tool, keys, demote).next;
    outcome, detail := Authorize(g, tool, keys, demote).verdict.outcome, h.receipts[|h.receipts| - 1].detail;
  }

  lemma DecidedKeepsReceipts(g: GateState, tool: Tool, keys: seq<string>, demote: bool)
    requires ReceiptsWF(g) && g.next > 0 && (g.pending.Some? ==> g.pending.value.call.reference < g.next)
    requires tool.kind == Mutating && Authorize(g, tool, keys, demote).verdict.Decided?
    ensures ReceiptsWF(Authorize(g, tool, keys, demote).next)
  {
    var outcome, detail := DecidedShape(g, tool, keys, demote);
    DecidedAtOnce(g, CallOf(g, tool), outcome, detail);
    ReceiptsFrame(WithReceipt(g.(next := g.next + 1), CallOf(g, tool), outcome, detail), Authorize(g, tool, keys, demote).next);
  }

  lemma AuthorizeKeepsReceipts(g: GateState, tool: Tool, keys: seq<string>, demote: bool)
    requires ReceiptsWF(g) && g.next > 0 && (g.pending.Some? ==> g.pending.value.call.reference < g.next)
    ensures ReceiptsWF(Authorize(g, tool, keys, demote).next)
  {
    if tool.kind != Mutating {
      ReceiptsFrame(g, Authorize(g, tool, keys, demote).next);
    } else if Authorize(g, tool, keys, demote).verdict.AwaitsPrompt? {
      Opened(g, CallOf(g, tool));
    } else {
      DecidedKeepsReceipts(g, tool, keys, demote);
    }
  }

  lemma RequestKeepsReceipts(s: System, tool: Tool, keys: seq<string>, demote: bool)
    requires ReceiptsWF(s.gate) && s.gate.next > 0
    requires s.gate.pending.Some? ==> s.gate.pending.value.call.reference < s.gate.next
    ensures ReceiptsWF(Requested(s, tool, keys, demote).gate)
  {
    AuthorizeKeepsReceipts(s.gate, tool, keys, demote);
  }

  lemma SettleKeepsReceipts(g: GateState)
    requires ReceiptsWF(g) && g.pending.Some? && 0 < g.pending.value.call.reference < g.next && g.pending.value.sent
    ensures ReceiptsWF(Settle(g))
  {
    var p := g.pending.value;
    var outcome := SettledOutcome(p);
    DecidedLater(g, outcome, DetailOf(p, outcome));
    ReceiptsFrame(WithReceipt(g.(pending := None), p.call, outcome, DetailOf(p, outcome)), Settle(g));
  }

  // --- Every step keeps the invariant --------------------------------------------------------

  /** Raising taint, and remembering it, keeps taint known. */
  lemma SourcedKeepsTaint(s: System, gate: GateState, tool: Tool, framedAtStart: bool)
    requires TaintKnown(s) && gate.frame == s.gate.frame
    ensures TaintKnown(Sourced(s, RaiseTaint(gate, tool, framedAtStart), tool))
  {
  }

  lemma RequestKeepsTaint(s: System, tool: Tool, keys: seq<string>, demote: bool)
    requires TaintKnown(s)
    ensures TaintKnown(Requested(s, tool, keys, demote))
  {
  }

  /** A mutating call that got past the scope check began clean. */
  lemma PassedScopeIsClean(s: System, tool: Tool)
    requires TaintKnown(s) && !OutOfScopeFor(tool, CallOf(s.gate, tool).context)
    ensures CleanStart(CallOf(s.gate, tool), s.session, s.inTurn)
  {
  }

  lemma RequestKeepsGrants(s: System, tool: Tool, keys: seq<string>, demote: bool)
    requires TaintKnown(s) && GrantsWF(s)
    ensures GrantsWF(Requested(s, tool, keys, demote))
  {
    var t := Requested(s, tool, keys, demote);
    if tool.kind == Mutating && Authorize(s.gate, tool, keys, demote).verdict == Decided(Authorized) {
      PassedScopeIsClean(s, tool);
      assert t.grants == s.grants + [Grant(CallOf(s.gate, tool), Authorized, s.session, s.inTurn, false, [])];
    } else {
      assert t.grants == s.grants;
    }
  }

  lemma RequestKeepsPending(s: System, tool: Tool, keys: seq<string>, demote: bool)
    requires TaintKnown(s) && PendingWF(s) && s.gate.next > 0
    ensures PendingWF(Requested(s, tool, keys, demote))
  {
    var t := Requested(s, tool, keys, demote);
    if tool.kind == Mutating && Authorize(s.gate, tool, keys, demote).verdict.AwaitsPrompt? {
      PassedScopeIsClean(s, tool);
    } else {
      assert t.gate.pending == s.gate.pending;
    }
  }

  lemma RequestKeepsInv(s: System, tool: Tool, keys: seq<string>, demote: bool)
    requires SystemInv(s)
    ensures SystemInv(Requested(s, tool, keys, demote))
  {
    RequestKeepsTaint(s, tool, keys, demote);
    RequestKeepsGrants(s, tool, keys, demote);
    RequestKeepsPending(s, tool, keys, demote);
    RequestKeepsReceipts(s, tool, keys, demote);
  }

  lemma ResolvedKeepsTaint(s: System)
    requires TaintKnown(s) && s.gate.pending.Some? && s.gate.pending.value.sent
    ensures TaintKnown(Resolved(s))
  {
  }

  lemma ResolvedKeepsGrants(s: System)
    requires PendingWF(s) && GrantsWF(s) && s.gate.pending.Some? && s.gate.pending.value.sent
    ensures GrantsWF(Resolved(s)) && PendingWF(Resolved(s))
  {
    var t := Resolved(s);
    if Permits(SettledOutcome(s.gate.pending.value)) { assert GrantWF(t.grants[|s.grants|]); }
  }

  lemma ResolvedKeepsInv(s: System)
    requires SystemInv(s) && s.gate.pending.Some? && s.gate.pending.value.sent
    ensures SystemInv(Resolved(s))
  {
    SettleKeepsReceipts(s.gate);
    ResolvedKeepsTaint(s);
    ResolvedKeepsGrants(s);
  }

  lemma EditedKeepsInv(s: System, i: nat, demote: bool)
    requires SystemInv(s) && i < |s.gate.finishing|
    ensures SystemInv(Apply(s, Edited(i), demote))
  {
    ReceiptsFrame(s.gate, FinishEdit(s.gate, i));
    EditedKeepsTaint(s, i, demote);
  }

  lemma EditedKeepsTaint(s: System, i: nat, demote: bool)
    requires TaintKnown(s) && i < |s.gate.finishing|
    ensures TaintKnown(Apply(s, Edited(i), demote))
  {
  }

  lemma AnswerKeepsInv(s: System, gate: GateState)
    requires SystemInv(s) && gate.frame == s.gate.frame && gate.receipts == s.gate.receipts && gate.next == s.gate.next
    requires gate.pending.Some? == s.gate.pending.Some?
    requires s.gate.pending.Some? ==>
               var p, q := s.gate.pending.value, gate.pending.value;
               && q.call == p.call
               && ((q.answer == p.answer && q.answers == p.answers)
                   || exists o, how :: o in {Approved, Denied, Cancelled}
                        && q.answer == Answer(p, o, how).answer && q.answers == Answer(p, o, how).answers)
    ensures SystemInv(s.(gate := gate))
  {
    ReceiptsFrame(s.gate, gate);
  }

  lemma StepKeepsSystem(s: System, step: Step, demote: bool)
    requires SystemInv(s) && Enabled(s, step)
    ensures SystemInv(Apply(s, step, demote))
  {
    match step
    case EnsureSession(_) =>
    case StartEventSession =>
    case CloseSession =>
    case EnterTurn(_, _) => ReceiptsFrame(s.gate, Apply(s, step, demote).gate);
    case ExitTurn => ReceiptsFrame(s.gate, Apply(s, step, demote).gate);
    case Request(tool, keys) => RequestKeepsInv(s, tool, keys, demote);
    case Sent(ref) => AnswerKeepsInv(s, PromptSent(s.gate, ref));
    case NotSent(tooLarge) => NotSentKeepsInv(s, tooLarge);
    case Message(said) => MessageKeepsInv(s, said);
    case React(r) => ReactKeepsInv(s, r);
    case Answered => ResolvedKeepsInv(s);
    case Edited(i) => EditedKeepsInv(s, i, demote);
  }

  lemma NotSentKeepsInv(s: System, tooLarge: bool)
    requires SystemInv(s) && s.gate.pending.Some?
    ensures SystemInv(s.(gate := PromptFailed(s.gate, tooLarge)))
  {
    DecidedLater(s.gate, Cancelled, if tooLarge then Some("prompt too large") else None);
  }

  lemma MessageKeepsInv(s: System, said: Class)
    requires SystemInv(s) && said != Ignored
    ensures SystemInv(s.(gate := Deliver(s.gate, said).next))
  {
    AnswerKeepsInv(s, Deliver(s.gate, said).next);
  }

  lemma ReactKeepsInv(s: System, r: Reaction)
    requires SystemInv(s)
    ensures SystemInv(s.(gate := DeliverReaction(s.gate, r)))
  {
    AnswerKeepsInv(s, DeliverReaction(s.gate, r));
  }

  // --- Runs ------------------------------------------------------------------------------------

  ghost predicate Legal(s: System, steps: seq<Step>, demote: bool)
    decreases |steps|
  {
    steps == [] || (Enabled(s, steps[0]) && Legal(Apply(s, steps[0], demote), steps[1..], demote))
  }

  ghost function Run(s: System, steps: seq<Step>, demote: bool): System
    requires Legal(s, steps, demote)
    decreases |steps|
  {
    if steps == [] then s else Run(Apply(s, steps[0], demote), steps[1..], demote)
  }

  lemma {:induction false} RunKeepsSystem(s: System, steps: seq<Step>, demote: bool)
    requires SystemInv(s) && Legal(s, steps, demote)
    ensures SystemInv(Run(s, steps, demote))
    decreases |steps|
  {
    if steps != [] {
      StepKeepsSystem(s, steps[0], demote);
      RunKeepsSystem(Apply(s, steps[0], demote), steps[1..], demote);
    }
  }

  /** In every run, a mutating tool not scoped for events was permitted only if, when its
  decision began, no event turn was framed and nothing tainted was known; and if a turn was
  framed it was an owner turn of a session that had run no event turn and in whose turns
  no taint source had been let through. */
  lemma MutationsBeganClean(steps: seq<Step>, demote: bool, i: nat)
    requires Legal(START_SYSTEM, steps, demote) && i < |Run(START_SYSTEM, steps, demote).grants|
    ensures var g := Run(START_SYSTEM, steps, demote).grants[i];
      IncidentTurn !in g.call.tool.scope ==>
        && g.call.context.turn == OwnerTurn && !g.call.context.tainted
        && (g.inTurn ==> g.session.Some? && !g.session.value.ranEvent && !g.session.value.sourced)
  {
    RunKeepsSystem(START_SYSTEM, steps, demote);
    assert GrantWF(Run(START_SYSTEM, steps, demote).grants[i]);
  }

  /** A permission that was asked for, rather than standing, came from a prompt that was
  delivered and whose first answer was an explicit approval. */
  lemma PromptedPermitsWereApproved(steps: seq<Step>, demote: bool, i: nat)
    requires Legal(START_SYSTEM, steps, demote) && i < |Run(START_SYSTEM, steps, demote).grants|
    requires Run(START_SYSTEM, steps, demote).grants[i].outcome == Approved
    ensures var g := Run(START_SYSTEM, steps, demote).grants[i];
      g.sent && g.answers != [] && g.answers[0] == Approved
  {
    RunKeepsSystem(START_SYSTEM, steps, demote);
    assert GrantWF(Run(START_SYSTEM, steps, demote).grants[i]);
  }

  /** Every mutating invocation has one receipt once decided, and at most the one open prompt
  is still undecided. */
  lemma OneReceiptPerDecision(steps: seq<Step>, demote: bool, n: nat)
    requires Legal(START_SYSTEM, steps, demote) && 0 < n < Run(START_SYSTEM, steps, demote).gate.next
    ensures var g := Run(START_SYSTEM, steps, demote).gate;
      && (HasReceipt(g, n) <==> !OpenFor(g, n))
      && forall i, j :: 0 <= i < j < |g.receipts| ==> g.receipts[i].reference != n || g.receipts[j].reference != n
  {
    RunKeepsSystem(START_SYSTEM, steps, demote);
  }

  ghost predicate Leads(s: System, steps: seq<Step>, t: System) {
    Legal(s, steps, false) && Run(s, steps, false) == t
  }

  lemma Last(s: System, step: Step)
    requires Enabled(s, step)
    ensures Leads(s, [step], Apply(s, step, false))
  {
    assert [step][1..] == [];
  }

  lemma Cons(s: System, step: Step, rest: seq<Step>, t: System)
    requires Enabled(s, step) && Leads(Apply(s, step, false), rest, t)
    ensures Leads(s, [step] + rest, t)
  {
    assert ([step] + rest)[1..] == rest;
  }

  /** A clean owner turn waits on the prompt for `reader`. */
  predicate WaitsOn(s: System, reader: Tool) {
    && s.inTurn && !s.tainted && s.session == Some(Session(false, false)) && s.grants == []
    && s.gate.frame == Some(Context(OwnerTurn, true, false, None)) && s.gate.pending.Some?
    && s.gate.pending.value.call.tool == reader && s.gate.pending.value.call.framed
    && s.gate.pending.value.answer.None? && s.gate.pending.value.promptRef.None?
  }

  /** The turn ends, then the approval comes: granted, and nothing is tainted. */
  predicate GrantedLate(s: System, reader: Tool) {
    && !s.inTurn && !s.tainted && s.session == Some(Session(false, false)) && s.gate.frame.None?
    && |s.grants| == 1 && s.grants[0].call.tool == reader
  }

  lemma AskFirst(reader: Tool) returns (t: System)
    requires reader.kind == Mutating && reader.tier == PerInstance && OwnerTurn in reader.scope
    ensures Leads(START_SYSTEM, [EnsureSession(false), EnterTurn(OwnerTurn, true), Request(reader, [])], t)
    ensures WaitsOn(t, reader) && !t.gate.pending.value.sent
  {
    var s1 := Apply(START_SYSTEM, EnsureSession(false), false);
    var s2 := Apply(s1, EnterTurn(OwnerTurn, true), false);
    t := Apply(s2, Request(reader, []), false);
    Last(s2, Request(reader, []));
    Cons(s1, EnterTurn(OwnerTurn, true), [Request(reader, [])], t);
    Cons(START_SYSTEM, EnsureSession(false), [EnterTurn(OwnerTurn, true)] + [Request(reader, [])], t);
    assert [EnsureSession(false)] + ([EnterTurn(OwnerTurn, true)] + [Request(reader, [])])
        == [EnsureSession(false), EnterTurn(OwnerTurn, true), Request(reader, [])];
  }

  lemma ApproveLate(s: System, reader: Tool) returns (t: System)
    requires WaitsOn(s, reader) && !s.gate.pending.value.sent
    ensures Leads(s, [Sent(None), ExitTurn, Message(Approve), Answered], t) && GrantedLate(t, reader)
  {
    var s1 := Apply(s, Sent(None), false);
    var s2 := Apply(s1, ExitTurn, false);
    var s3 := Apply(s2, Message(Approve), false);
    t := Apply(s3, Answered, false);
    Last(s3, Answered);
    Cons(s2, Message(Approve), [Answered], t);
    Cons(s1, ExitTurn, [Message(Approve)] + [Answered], t);
    Cons(s, Sent(None), [ExitTurn] + ([Message(Approve)] + [Answered]), t);
    assert [Sent(None)] + ([ExitTurn] + ([Message(Approve)] + [Answered]))
        == [Sent(None), ExitTurn, Message(Approve), Answered];
  }

  lemma WriteAfter(s: System, reader: Tool, writer: Tool) returns (t: System)
    requires GrantedLate(s, reader)
    requires writer.kind == Mutating && writer.tier == Standing && OwnerTurn in writer.scope
    ensures Leads(s, [EnterTurn(OwnerTurn, true), Request(writer, [])], t)
    ensures |t.grants| == 2 && t.grants[0].call.tool == reader && t.grants[1].call.tool == writer
  {
    var s1 := Apply(s, EnterTurn(OwnerTurn, true), false);
    t := Apply(s1, Request(writer, []), false);
    Last(s1, Request(writer, []));
    Cons(s, EnterTurn(OwnerTurn, true), [Request(writer, [])], t);
    assert [EnterTurn(OwnerTurn, true)] + [Request(writer, [])] == [EnterTurn(OwnerTurn, true), Request(writer, [])];
  }

  lemma {:induction false} LeadsOn(s: System, steps: seq<Step>, t: System, more: seq<Step>, u: System)
    requires Leads(s, steps, t) && Leads(t, more, u)
    ensures Leads(s, steps + more, u)
    decreases |steps|
  {
    if steps == [] {
      assert steps + more == more;
    } else {
      LeadsOn(Apply(s, steps[0], false), steps[1..], t, more, u);
      assert (steps + more)[1..] == steps[1..] + more;
    }
  }

  predicate BothGranted(s: System, reader: Tool, writer: Tool) {
    |s.grants| == 2 && s.grants[0].call.tool == reader && s.grants[1].call.tool == writer
  }

  /** "Let through in one of its turns" cannot be dropped from that promise. A source whose
  approval comes after its turn ended taints nothing, and the session stays clean: the
  next owner turn of the same session may still mutate. */
  lemma LateApprovalTaintsNothing(reader: Tool, writer: Tool)
    requires reader.kind == Mutating && reader.tier == PerInstance && reader.raisesTaint && OwnerTurn in reader.scope
    requires writer.kind == Mutating && writer.tier == Standing && OwnerTurn in writer.scope && IncidentTurn !in writer.scope
    ensures exists steps :: Legal(START_SYSTEM, steps, false) && EnsureSession(true) !in steps && CloseSession !in steps
              && BothGranted(Run(START_SYSTEM, steps, false), reader, writer)
  {
    var a := AskFirst(reader);
    var b := [EnsureSession(false), EnterTurn(OwnerTurn, true), Request(reader, [])];
    var c := ApproveLate(a, reader);
    var d := [Sent(None), ExitTurn, Message(Approve), Answered];
    var e := WriteAfter(c, reader, writer);
    var f := [EnterTurn(OwnerTurn, true), Request(writer, [])];
    LeadsOn(START_SYSTEM, b, a, d, c);
    LeadsOn(START_SYSTEM, b + d, c, f, e);
    assert Legal(START_SYSTEM, b + d + f, false) && Run(START_SYSTEM, b + d + f, false) == e;
  }
}
