/** What the gate's verdicts, answers and taint mean, one by one and over runs
(`henk/gate/approval.py`). */
module GateLaws {
  import opened Common
  import opened Gate
  import opened GateRuns

  // --- The verdict on one invocation ---------------------------------------------------------

  function ContextOf(g: GateState): Context { if g.frame.Some? then g.frame.value else UNFRAMED }

  /** The turn's type is out of scope, or the turn is tainted and the tool not meant for events. */
  predicate Blocked(tool: Tool, c: Context) {
    c.turn !in tool.scope || (c.tainted && IncidentTurn !in tool.scope)
  }

  predicate Silenced(c: Context) { c.turn == IncidentTurn && !c.announceable }

  ghost predicate AllDeclared(tool: Tool, keys: seq<string>) { forall k :: k in keys ==> k in tool.parameters }

  /** What is decided of a mutating invocation, in full: each of the six verdicts exactly when
  its reason holds and none of the ones checked before it. */
  lemma VerdictMeans(g: GateState, tool: Tool, keys: seq<string>, demote: bool)
    requires tool.kind == Mutating
    ensures var v, c := Authorize(g, tool, keys, demote).verdict, ContextOf(g);
      var asks := !Blocked(tool, c) && (tool.tier == PerInstance || demote);
      && (v == Decided(OutOfScope) <==> Blocked(tool, c))
      && (v == Decided(Authorized) <==> !Blocked(tool, c) && tool.tier == Standing && !demote)
      && (v == Decided(Suppressed) <==> asks && Silenced(c))
      && (v == Decided(Cancelled) <==> asks && !Silenced(c) && !AllDeclared(tool, keys))
      && (v == Decided(RejectedBusy) <==> asks && !Silenced(c) && AllDeclared(tool, keys) && g.pending.Some?)
      && (v == AwaitsPrompt <==> asks && !Silenced(c) && AllDeclared(tool, keys) && g.pending.None?)
  {
    if !AllDeclared(tool, keys) {
      var k :| k in keys && k !in tool.parameters;
      var i :| 0 <= i < |keys| && keys[i] == k;
    }
    if i :| 0 <= i < |keys| && keys[i] !in tool.parameters { assert keys[i] in keys; }
  }

  /** A verdict leaves one numbered receipt with its outcome, or opens the one prompt; a tool
  that does not mutate is let through with neither. */
  lemma VerdictLeaves(g: GateState, tool: Tool, keys: seq<string>, demote: bool)
    ensures var a := Authorize(g, tool, keys, demote);
      if tool.kind != Mutating then
        a.verdict == Decided(Approved) && a.next.receipts == g.receipts && a.next.pending == g.pending && a.next.next == g.next
      else
        && a.next.next == g.next + 1
        && (a.verdict.AwaitsPrompt? ==>
              && a.next == g.(next := g.next + 1, pending := a.next.pending) && a.next.pending.Some?
              && a.next.pending.value.call == Call(g.next, tool, ContextOf(g), g.frame.Some?)
              && !a.next.pending.value.sent && a.next.pending.value.answers == [] && a.next.pending.value.answer == None)
        && (a.verdict.Decided? ==>
              && a.next.pending == g.pending && |a.next.receipts| == |g.receipts| + 1 && g.receipts <= a.next.receipts
              && var r := a.next.receipts[|g.receipts|];
                 r.reference == g.next && r.tool == tool.name && r.outcome == a.verdict.outcome && r.turn == ContextOf(g).turn)
  {
  }

  // --- Answers -----------------------------------------------------------------------------------

  /** A typed message answers the open prompt: yes, no, or, being about something else, a
  cancellation that also goes back to the conversation. Without a prompt it only goes back. */
  lemma MessageMeans(g: GateState, said: Class)
    requires said != Ignored
    ensures var d := Deliver(g, said);
      && (d.requeue <==> g.pending.None? || said == Unrelated)
      && (g.pending.None? ==> d.next == g)
      && (g.pending.Some? ==>
            && d.next.pending.Some? && d.next == g.(pending := d.next.pending)
            && var p, q := g.pending.value, d.next.pending.value;
               && |q.answers| == |p.answers| + 1 && p.answers <= q.answers && q.call == p.call
               && (q.answers[|p.answers|] == Approved <==> said == Approve)
               && (q.answers[|p.answers|] == Denied <==> said == Deny)
               && (q.answers[|p.answers|] == Cancelled <==> said == Unrelated)
               && (p.answer.Some? ==> q.answer == p.answer && q.answeredBy == p.answeredBy)
               && (p.answer.None? ==>
                     && q.answer == Some(q.answers[|p.answers|])
                     && q.answeredBy == (if said == Unrelated then None else Some("keyword"))))
  {
  }

  /** A reaction counts when it is a yes or a no, put on and not taken off, on the very message
  of the open and unanswered prompt; otherwise it changes nothing. */
  lemma ReactionMeans(g: GateState, r: Reaction)
    ensures var h := DeliverReaction(g, r);
      var counts := g.pending.Some? && g.pending.value.answer == None && g.pending.value.promptRef.Some?
                    && r.target == g.pending.value.promptRef && !r.removed && r.means in {Approve, Deny};
      && (!counts ==> h == g)
      && (counts ==>
            && h.pending.Some? && h == g.(pending := h.pending) && h.pending.value.call == g.pending.value.call
            && h.pending.value.answers == g.pending.value.answers + [if r.means == Approve then Approved else Denied]
            && h.pending.value.answer == Some(if r.means == Approve then Approved else Denied)
            && h.pending.value.answeredBy == Some("reaction"))
  {
  }

  // --- Taint, the decision and the edit ------------------------------------------------------------

  /** A source that is let through taints the turn framed now, under its own name unless it was
  tainted before; a turn that ended since is left alone. Nothing else changes. */
  lemma TaintMeans(g: GateState, tool: Tool, framedAtStart: bool)
    ensures var h := RaiseTaint(g, tool, framedAtStart);
      && h == g.(frame := h.frame)
      && (if tool.raisesTaint && (g.frame.Some? || !framedAtStart) then
            && h.frame.Some? && h.frame.value.tainted
            && h.frame.value.turn == ContextOf(g).turn && h.frame.value.announceable == ContextOf(g).announceable
            && h.frame.value.source == if ContextOf(g).tainted then ContextOf(g).source else Some(tool.name)
          else h == g)
  {
  }

  /** The wait ends: the slot is free, and the receipt has the outcome and, for a yes or a no,
  how it was given. With a reference the outcome's edit is still to be made, and taint
  waits for it; without one a permit taints at once. */
  lemma SettleMeans(g: GateState)
    requires g.pending.Some? && g.pending.value.sent
    ensures var p, h := g.pending.value, Settle(g);
      var outcome := if p.answer.Some? then p.answer.value else TimedOut;
      && h.pending.None? && h.next == g.next
      && h.receipts == g.receipts
           + [Receipt(p.call.reference, p.call.tool.name, outcome, p.call.context.turn,
                      if outcome in {Approved, Denied} && p.answeredBy.Some? then Some("answered by " + p.answeredBy.value) else None)]
      && h.finishing == g.finishing + (if p.promptRef.Some? then [Finishing(p.call, outcome)] else [])
      && h.frame == if p.promptRef.None? && outcome in {Approved, Authorized} then RaiseTaint(g, p.call.tool, p.call.framed).frame
                    else g.frame
  {
  }

  /** The edit returned: that decision is finished, the others wait on, and a permit taints. */
  lemma EditMeans(g: GateState, i: nat)
    requires i < |g.finishing|
    ensures var f, h := g.finishing[i], FinishEdit(g, i);
      && h.receipts == g.receipts && h.pending == g.pending && h.next == g.next
      && |h.finishing| == |g.finishing| - 1
      && (forall k :: 0 <= k < i ==> h.finishing[k] == g.finishing[k])
      && (forall k :: i <= k < |h.finishing| ==> h.finishing[k] == g.finishing[k + 1])
      && h.frame == if f.outcome in {Approved, Authorized} then RaiseTaint(g, f.call.tool, f.call.framed).frame else g.frame
  {
  }

  /** So in a run: the edit is done with, and a permitted source is remembered by the session
  whose turn is framed. */
  lemma EditsFinish(s: System, i: nat, demote: bool)
    requires Enabled(s, Edited(i))
    ensures var f, t := s.gate.finishing[i], Apply(s, Edited(i), demote);
      && t.gate == FinishEdit(s.gate, i) && |t.gate.finishing| == |s.gate.finishing| - 1
      && t.grants == s.grants && t.inTurn == s.inTurn && t.session.Some? == s.session.Some?
      && (s.session.Some? ==>
            && t.session.value.ranEvent == s.session.value.ranEvent
            && (t.session.value.sourced <==>
                  s.session.value.sourced || (f.outcome in {Approved, Authorized} && f.call.tool.raisesTaint && s.inTurn)))
  {
  }

  /** A prompt the channel did not deliver is cancelled, whatever was answered meanwhile, and
  the slot is free again. */
  lemma UndeliveredIsCancelled(s: System, tooLarge: bool, demote: bool)
    requires Enabled(s, NotSent(tooLarge))
    ensures var t := Apply(s, NotSent(tooLarge), demote);
      && t.gate.pending.None? && t.grants == s.grants && t.gate.frame == s.gate.frame && t.gate.finishing == s.gate.finishing
      && |t.gate.receipts| == |s.gate.receipts| + 1
      && t.gate.receipts[|s.gate.receipts|].reference == s.gate.pending.value.call.reference
      && t.gate.receipts[|s.gate.receipts|].outcome == Cancelled
      && (t.gate.receipts[|s.gate.receipts|].detail == Some("prompt too large") <==> tooLarge)
  {
  }

  lemma ThreeSteps(s: System, a: Step, b: Step, c: Step, demote: bool)
    requires Enabled(s, a) && Enabled(Apply(s, a, demote), b) && Enabled(Apply(Apply(s, a, demote), b, demote), c)
    ensures Legal(s, [a, b, c], demote)
    ensures Run(s, [a, b, c], demote) == Apply(Apply(Apply(s, a, demote), b, demote), c, demote)
  {
    assert [a, b, c][1..] == [b, c] && [b, c][1..] == [c] && [c][1..] == [];
    var u := Apply(Apply(s, a, demote), b, demote);
    assert Legal(Apply(u, c, demote), [], demote);
    assert Legal(u, [c], demote) && Run(u, [c], demote) == Apply(u, c, demote);
    assert Legal(Apply(s, a, demote), [b, c], demote);
  }

  /** The one more permission of this call, by this receipt. */
  predicate GrantedOnce(s: System, t: System, call: Call, how: string) {
    && |t.grants| == |s.grants| + 1 && t.grants[|s.grants|].call == call && t.grants[|s.grants|].outcome == Approved
    && |t.gate.receipts| == |s.gate.receipts| + 1
    && t.gate.receipts[|s.gate.receipts|] == Receipt(call.reference, call.tool.name, Approved, call.context.turn, Some(how))
    && t.gate.pending.None?
  }

  /** Asking can succeed: a prompt delivered under a reference and answered by a yes on that very
  message, or by a typed yes, is one permission, with its receipt and its edit to come. */
  lemma AskingCanSucceed(s: System, ref: string, demote: bool)
    requires s.gate.pending.Some? && !s.gate.pending.value.sent && s.gate.pending.value.answer.None?
    ensures var call := s.gate.pending.value.call;
      var reacted := [Sent(Some(ref)), React(Reaction(Some(ref), false, Approve)), Answered];
      && Legal(s, reacted, demote) && GrantedOnce(s, Run(s, reacted, demote), call, "answered by " + "reaction")
      && Run(s, reacted, demote).gate.finishing == s.gate.finishing + [Finishing(call, Approved)]
    ensures var call := s.gate.pending.value.call;
      var typed := [Sent(Some(ref)), Message(Approve), Answered];
      && Legal(s, typed, demote) && GrantedOnce(s, Run(s, typed, demote), call, "answered by " + "keyword")
  {
    ThreeSteps(s, Sent(Some(ref)), React(Reaction(Some(ref), false, Approve)), Answered, demote);
    ThreeSteps(s, Sent(Some(ref)), Message(Approve), Answered, demote);
    AnsweredGrants(s, ref, demote, React(Reaction(Some(ref), false, Approve)), "reaction");
    AnsweredGrants(s, ref, demote, Message(Approve), "keyword");
  }

  lemma AnsweredGrants(s: System, ref: string, demote: bool, yes: Step, how: string)
    requires s.gate.pending.Some? && !s.gate.pending.value.sent && s.gate.pending.value.answer.None?
    requires (yes == Message(Approve) && how == "keyword") || (yes == React(Reaction(Some(ref), false, Approve)) && how == "reaction")
    ensures var t := Apply(Apply(s, Sent(Some(ref)), demote), yes, demote);
      && Enabled(Apply(s, Sent(Some(ref)), demote), yes) && Enabled(t, Answered)
      && GrantedOnce(s, Apply(t, Answered, demote), s.gate.pending.value.call, "answered by " + how)
      && Apply(t, Answered, demote).gate.finishing == s.gate.finishing + [Finishing(s.gate.pending.value.call, Approved)]
  {
    var s1 := Apply(s, Sent(Some(ref)), demote);
    var t := Apply(s1, yes, demote);
    assert s1.gate.pending.value.promptRef == Some(ref) && s1.gate.pending.value.sent && s1.gate.receipts == s.gate.receipts;
    if yes.Message? { MessageMeans(s1.gate, Approve); } else { ReactionMeans(s1.gate, yes.r); }
    assert t.gate.pending.value.answer == Some(Approved) && t.gate.pending.value.answeredBy == Some(how);
    SettleMeans(t.gate);
    ResolvedParts(t);
  }

  // --- The kill switch, silence and receipts over runs -------------------------------------------

  /** What a call that was prompted must have been. */
  predicate Asked(call: Call, demote: bool) {
    && call.tool.kind == Mutating && !Blocked(call.tool, call.context) && !Silenced(call.context)
    && (call.tool.tier == PerInstance || demote)
  }

  predicate GrantLawful(g: Grant, demote: bool) {
    match g.outcome
    case Authorized => g.call.tool.kind == Mutating && !Blocked(g.call.tool, g.call.context) && g.call.tool.tier == Standing && !demote
    case Approved => Asked(g.call, demote)
    case _ => false
  }

  /** The receipts that permitted, and the permissions granted. */
  function Permitted(receipts: seq<Receipt>): seq<(nat, Outcome)> {
    if receipts == [] then []
    else
      var r := receipts[|receipts| - 1];
      Permitted(receipts[..|receipts| - 1]) + if r.outcome == Authorized || r.outcome == Approved then [(r.reference, r.outcome)] else []
  }

  function Granted(grants: seq<Grant>): seq<(nat, Outcome)> {
    seq(|grants|, i requires 0 <= i < |grants| => (grants[i].call.reference, grants[i].outcome))
  }

  ghost predicate Lawful(s: System, demote: bool) {
    && (forall i :: 0 <= i < |s.grants| ==> GrantLawful(s.grants[i], demote))
    && (s.gate.pending.Some? ==> Asked(s.gate.pending.value.call, demote))
    && Permitted(s.gate.receipts) == Granted(s.grants)
  }

  lemma PermittedAppend(receipts: seq<Receipt>, r: Receipt)
    ensures Permitted(receipts + [r])
         == Permitted(receipts) + if r.outcome == Authorized || r.outcome == Approved then [(r.reference, r.outcome)] else []
  {
    assert (receipts + [r])[..|receipts|] == receipts;
  }

  lemma GrantedAppend(grants: seq<Grant>, g: Grant)
    ensures Granted(grants + [g]) == Granted(grants) + [(g.call.reference, g.outcome)]
  {
  }

  /** What a mutating request adds to the grants and the receipts. */
  lemma RequestParts(s: System, tool: Tool, keys: seq<string>, demote: bool)
    requires tool.kind == Mutating
    ensures var a, t := Authorize(s.gate, tool, keys, demote), Requested(s, tool, keys, demote);
      && t.gate.receipts == a.next.receipts && t.gate.pending == a.next.pending
      && (if a.verdict == Decided(Authorized) then
            t.grants == s.grants + [Grant(CallOf(s.gate, tool), Authorized, s.session, s.inTurn, false, [])]
          else t.grants == s.grants)
  {
  }

  lemma DecidedLawful(s: System, tool: Tool, keys: seq<string>, demote: bool)
    requires Lawful(s, demote) && tool.kind == Mutating && Authorize(s.gate, tool, keys, demote).verdict.Decided?
    ensures Lawful(Requested(s, tool, keys, demote), demote)
  {
    var a := Authorize(s.gate, tool, keys, demote);
    VerdictMeans(s.gate, tool, keys, demote);
    VerdictLeaves(s.gate, tool, keys, demote);
    RequestParts(s, tool, keys, demote);
    var r := a.next.receipts[|s.gate.receipts|];
    assert a.next.receipts == s.gate.receipts + [r];
    PermittedAppend(s.gate.receipts, r);
    if a.verdict.outcome == Authorized {
      GrantedAppend(s.grants, Grant(CallOf(s.gate, tool), Authorized, s.session, s.inTurn, false, []));
    } else {
      assert Permitted(s.gate.receipts) + [] == Permitted(s.gate.receipts);
    }
  }

  lemma AskedLawful(s: System, tool: Tool, keys: seq<string>, demote: bool)
    requires Lawful(s, demote) && tool.kind == Mutating && Authorize(s.gate, tool, keys, demote).verdict.AwaitsPrompt?
    ensures Lawful(Requested(s, tool, keys, demote), demote)
  {
    VerdictMeans(s.gate, tool, keys, demote);
    VerdictLeaves(s.gate, tool, keys, demote);
    RequestParts(s, tool, keys, demote);
  }

  lemma RequestLawful(s: System, tool: Tool, keys: seq<string>, demote: bool)
    requires Lawful(s, demote)
    ensures Lawful(Requested(s, tool, keys, demote), demote)
  {
    if tool.kind != Mutating { VerdictLeaves(s.gate, tool, keys, demote); }
    else if Authorize(s.gate, tool, keys, demote).verdict.Decided? { DecidedLawful(s, tool, keys, demote); }
    else { AskedLawful(s, tool, keys, demote); }
  }

  lemma SettleReceipt(g: GateState)
    requires g.pending.Some? && g.pending.value.sent
    ensures var p := g.pending.value;
      && Settle(g).pending.None?
      && Settle(g).receipts == g.receipts + [Receipt(p.call.reference, p.call.tool.name, SettledOutcome(p), p.call.context.turn,
                                                     DetailOf(p, SettledOutcome(p)))]
  {
  }

  lemma ResolvedParts(s: System)
    requires s.gate.pending.Some? && s.gate.pending.value.sent
    ensures var p, t := s.gate.pending.value, Resolved(s);
      && t.gate == Settle(s.gate)
      && (if Permits(SettledOutcome(p)) then
            && |t.grants| == |s.grants| + 1 && s.grants <= t.grants
            && t.grants[|s.grants|].call == p.call && t.grants[|s.grants|].outcome == SettledOutcome(p)
          else t.grants == s.grants)
  {
  }

  lemma SettledLawful(s: System, demote: bool)
    requires PendingWF(s) && Lawful(s, demote) && s.gate.pending.Some? && s.gate.pending.value.sent
    ensures Lawful(Resolved(s), demote)
  {
    var p, t := s.gate.pending.value, Resolved(s);
    var outcome := SettledOutcome(p);
    SettleReceipt(s.gate);
    ResolvedParts(s);
    PermittedAppend(s.gate.receipts, Receipt(p.call.reference, p.call.tool.name, outcome, p.call.context.turn, DetailOf(p, outcome)));
    if Permits(outcome) {
      assert t.grants == s.grants + [t.grants[|s.grants|]];
      GrantedAppend(s.grants, t.grants[|s.grants|]);
    } else {
      assert Permitted(s.gate.receipts) + [] == Permitted(s.gate.receipts);
    }
  }

  /** Grants, receipts and the call asked about stay. */
  ghost predicate SameLedger(s: System, t: System) {
    && t.grants == s.grants && t.gate.receipts == s.gate.receipts
    && (t.gate.pending.Some? ==> s.gate.pending.Some? && t.gate.pending.value.call == s.gate.pending.value.call)
  }

  lemma TurnStepsLedger(s: System, step: Step, demote: bool)
    requires Enabled(s, step)
    requires step.EnsureSession? || step.StartEventSession? || step.CloseSession? || step.EnterTurn? || step.ExitTurn?
    ensures SameLedger(s, Apply(s, step, demote))
  {
  }

  lemma AnswerStepsLedger(s: System, step: Step, demote: bool)
    requires Enabled(s, step) && (step.Sent? || step.Message? || step.React? || step.Edited?)
    ensures SameLedger(s, Apply(s, step, demote))
  {
  }

  lemma NotSentLawful(s: System, tooLarge: bool, demote: bool)
    requires Lawful(s, demote) && s.gate.pending.Some?
    ensures Lawful(s.(gate := PromptFailed(s.gate, tooLarge)), demote)
  {
    var p := s.gate.pending.value;
    var r := Receipt(p.call.reference, p.call.tool.name, Cancelled, p.call.context.turn,
                     if tooLarge then Some("prompt too large") else None);
    PermittedAppend(s.gate.receipts, r);
    assert Permitted(s.gate.receipts) + [] == Permitted(s.gate.receipts);
  }

  lemma SameLedgerLawful(s: System, t: System, demote: bool)
    requires Lawful(s, demote) && SameLedger(s, t)
    ensures Lawful(t, demote)
  {
  }

  lemma StepLawful(s: System, step: Step, demote: bool)
    requires PendingWF(s) && Lawful(s, demote) && Enabled(s, step)
    ensures Lawful(Apply(s, step, demote), demote)
  {
    if step.Request? {
      RequestLawful(s, step.tool, step.keys, demote);
    } else if step.Answered? {
      SettledLawful(s, demote);
    } else if step.NotSent? {
      NotSentLawful(s, step.tooLarge, demote);
    } else {
      if step.Sent? || step.Message? || step.React? || step.Edited? { AnswerStepsLedger(s, step, demote); }
      else { TurnStepsLedger(s, step, demote); }
      SameLedgerLawful(s, Apply(s, step, demote), demote);
    }
  }

  lemma {:induction false} RunLawful(s: System, steps: seq<Step>, demote: bool)
    requires SystemInv(s) && Lawful(s, demote) && Legal(s, steps, demote)
    ensures Lawful(Run(s, steps, demote), demote)
    decreases |steps|
  {
    if steps != [] {
      StepLawful(s, steps[0], demote);
      StepKeepsSystem(s, steps[0], demote);
      RunLawful(Apply(s, steps[0], demote), steps[1..], demote);
    }
  }

  lemma StartLawful(demote: bool)
    ensures Lawful(START_SYSTEM, demote)
  {
  }

  /** With standing authorization demoted, every mutation that any run permits was asked for:
  its prompt was delivered and first answered with an approval. */
  lemma DemotedMeansAsked(steps: seq<Step>, i: nat)
    requires Legal(START_SYSTEM, steps, true) && i < |Run(START_SYSTEM, steps, true).grants|
    ensures var g := Run(START_SYSTEM, steps, true).grants[i];
      g.outcome == Approved && g.sent && g.answers != [] && g.answers[0] == Approved
  {
    StartLawful(true);
    RunLawful(START_SYSTEM, steps, true);
    assert GrantLawful(Run(START_SYSTEM, steps, true).grants[i], true);
    PromptedPermitsWereApproved(steps, true, i);
  }

  /** Otherwise nothing runs unasked but a tool whose own tier is standing, in a turn of its
  scope; and no permission at all comes out of a silenced event turn by asking. */
  lemma UnaskedMeansStanding(steps: seq<Step>, demote: bool, i: nat)
    requires Legal(START_SYSTEM, steps, demote) && i < |Run(START_SYSTEM, steps, demote).grants|
    ensures var g := Run(START_SYSTEM, steps, demote).grants[i];
      && g.call.tool.kind == Mutating && g.call.context.turn in g.call.tool.scope
      && (g.outcome == Authorized <==> g.call.tool.tier == Standing && !demote)
      && (g.outcome == Approved <==> g.call.tool.tier == PerInstance || demote)
      && (g.outcome == Approved ==> !Silenced(g.call.context))
  {
    StartLawful(demote);
    RunLawful(START_SYSTEM, steps, demote);
    assert GrantLawful(Run(START_SYSTEM, steps, demote).grants[i], demote);
  }

  /** No prompt is ever open for a silenced event turn: the owner hears nothing. */
  lemma SilencedTurnsAskNothing(steps: seq<Step>, demote: bool)
    requires Legal(START_SYSTEM, steps, demote) && Run(START_SYSTEM, steps, demote).gate.pending.Some?
    ensures var call := Run(START_SYSTEM, steps, demote).gate.pending.value.call;
      !(call.context.turn == IncidentTurn && !call.context.announceable) && call.context.turn in call.tool.scope
  {
    StartLawful(demote);
    RunLawful(START_SYSTEM, steps, demote);
  }

  /** The receipts that say a mutation was permitted are the permissions granted, one for one
  and in order. */
  lemma ReceiptsAreThePermissions(steps: seq<Step>, demote: bool)
    requires Legal(START_SYSTEM, steps, demote)
    ensures var s := Run(START_SYSTEM, steps, demote); Permitted(s.gate.receipts) == Granted(s.grants)
  {
    StartLawful(demote);
    RunLawful(START_SYSTEM, steps, demote);
  }

  /** A prompt is decided by its first answer; with none, it timed out. */
  lemma FirstAnswerDecides(steps: seq<Step>, demote: bool)
    requires Legal(START_SYSTEM, steps, demote) && Enabled(Run(START_SYSTEM, steps, demote), Answered)
    ensures var s := Run(START_SYSTEM, steps, demote);
      var p, t := s.gate.pending.value, Apply(s, Answered, demote).gate;
      && t.pending.None? && |t.receipts| == |s.gate.receipts| + 1
      && t.receipts[|s.gate.receipts|].reference == p.call.reference
      && t.receipts[|s.gate.receipts|].outcome == if p.answers == [] then TimedOut else p.answers[0]
  {
    RunKeepsSystem(START_SYSTEM, steps, demote);
    var s := Run(START_SYSTEM, steps, demote);
    ResolvedParts(s);
    SettleMeans(s.gate);
  }

  // --- Where an approval comes from ----------------------------------------------------------------

  /** The owner says yes: in words, or by a reaction put on some message. */
  predicate Approving(step: Step) {
    || step == Message(Approve)
    || (step.React? && step.r.means == Approve && !step.r.removed && step.r.target.Some?)
  }

  predicate HoldsApproval(s: System) {
    || (s.gate.pending.Some? && Approved in s.gate.pending.value.answers)
    || (exists i :: 0 <= i < |s.grants| && s.grants[i].outcome == Approved)
  }

  lemma RequestHoldsNoApproval(s: System, tool: Tool, keys: seq<string>, demote: bool)
    requires !HoldsApproval(s)
    ensures !HoldsApproval(Requested(s, tool, keys, demote))
  {
    VerdictLeaves(s.gate, tool, keys, demote);
  }

  lemma StepBringsApproval(s: System, step: Step, demote: bool)
    requires SystemInv(s) && Enabled(s, step) && !HoldsApproval(s) && !Approving(step)
    ensures !HoldsApproval(Apply(s, step, demote))
  {
    match step
    case Request(tool, keys) => RequestHoldsNoApproval(s, tool, keys, demote);
    case Message(said) => MessageMeans(s.gate, said);
    case React(r) => ReactionMeans(s.gate, r);
    case _ =>
  }

  lemma {:induction false} RunBringsApproval(s: System, steps: seq<Step>, demote: bool)
    requires SystemInv(s) && Legal(s, steps, demote) && !HoldsApproval(s)
    requires forall k :: 0 <= k < |steps| ==> !Approving(steps[k])
    ensures !HoldsApproval(Run(s, steps, demote))
    decreases |steps|
  {
    if steps != [] {
      StepBringsApproval(s, steps[0], demote);
      StepKeepsSystem(s, steps[0], demote);
      RunBringsApproval(Apply(s, steps[0], demote), steps[1..], demote);
    }
  }

  /** Nothing is ever approved in a run in which the owner approves nothing: silence, a message
  about something else, and a reaction taken off are no approvals. */
  lemma ApprovalsAreTheOwners(steps: seq<Step>, demote: bool, i: nat)
    requires Legal(START_SYSTEM, steps, demote) && i < |Run(START_SYSTEM, steps, demote).grants|
    requires Run(START_SYSTEM, steps, demote).grants[i].outcome == Approved
    ensures exists k :: 0 <= k < |steps| && Approving(steps[k])
  {
    if forall k :: 0 <= k < |steps| ==> !Approving(steps[k]) {
      RunBringsApproval(START_SYSTEM, steps, demote);
      assert HoldsApproval(Run(START_SYSTEM, steps, demote));
    }
  }

  // --- Taint is exact ----------------------------------------------------------------------------------

  /** A turn is framed tainted, and the core knows a session tainted, only if it was touched. */
  predicate TaintEarned(s: System) {
    && (s.tainted ==> s.session.Some? && Touched(s.session.value))
    && (s.inTurn && s.session.Some? && s.gate.frame.Some? && s.gate.frame.value.tainted ==> Touched(s.session.value))
  }

  /** The name of a source is kept exactly for a session tainted by one and not by an event. */
  predicate SourceKept(s: System) {
    && (!s.tainted ==> s.source.None?)
    && (s.session.Some? && !s.inTurn ==> (s.source.Some? <==> s.session.value.sourced && !s.session.value.ranEvent))
    && (s.session.Some? && s.inTurn && s.gate.frame.Some? ==>
          && (s.gate.frame.value.source.Some? <==> s.session.value.sourced && !s.session.value.ranEvent)
          && (s.tainted ==> s.gate.frame.value.source == s.source))
  }

  lemma RequestKeepsSource(s: System, tool: Tool, keys: seq<string>, demote: bool)
    requires TaintKnown(s) && TaintEarned(s) && SourceKept(s)
    ensures SourceKept(Requested(s, tool, keys, demote))
  {
  }

  lemma TurnKeepsSource(s: System, step: Step, demote: bool)
    requires TaintKnown(s) && TaintEarned(s) && SourceKept(s) && Enabled(s, step)
    requires step.EnsureSession? || step.StartEventSession? || step.CloseSession? || step.EnterTurn? || step.ExitTurn?
    ensures SourceKept(Apply(s, step, demote))
  {
  }

  lemma SourcedKeepsSource(s: System, gate: GateState, tool: Tool, framedAtStart: bool)
    requires TaintKnown(s) && TaintEarned(s) && SourceKept(s) && gate.frame == s.gate.frame
    ensures SourceKept(Sourced(s, RaiseTaint(gate, tool, framedAtStart), tool))
  {
  }

  lemma ResolvedKeepsSource(s: System)
    requires TaintKnown(s) && TaintEarned(s) && SourceKept(s) && s.gate.pending.Some? && s.gate.pending.value.sent
    ensures SourceKept(Resolved(s))
  {
    SettleMeans(s.gate);
  }

  lemma EditedKeepsSource(s: System, i: nat, demote: bool)
    requires TaintKnown(s) && TaintEarned(s) && SourceKept(s) && i < |s.gate.finishing|
    ensures SourceKept(Apply(s, Edited(i), demote))
  {
    EditMeans(s.gate, i);
  }

  lemma OtherKeepsSource(s: System, step: Step, demote: bool)
    requires TaintKnown(s) && TaintEarned(s) && SourceKept(s) && Enabled(s, step) && !step.Request?
    ensures SourceKept(Apply(s, step, demote))
  {
    match step
    case Answered => ResolvedKeepsSource(s);
    case Edited(i) => EditedKeepsSource(s, i, demote);
    case EnsureSession(_) => TurnKeepsSource(s, step, demote);
    case StartEventSession => TurnKeepsSource(s, step, demote);
    case CloseSession => TurnKeepsSource(s, step, demote);
    case EnterTurn(_, _) => TurnKeepsSource(s, step, demote);
    case ExitTurn => TurnKeepsSource(s, step, demote);
    case _ =>
  }

  lemma RequestEarns(s: System, tool: Tool, keys: seq<string>, demote: bool)
    requires TaintKnown(s) && TaintEarned(s)
    ensures TaintEarned(Requested(s, tool, keys, demote))
  {
  }

  lemma ResolvedEarns(s: System)
    requires TaintKnown(s) && TaintEarned(s) && s.gate.pending.Some? && s.gate.pending.value.sent
    ensures TaintEarned(Resolved(s))
  {
    SettleMeans(s.gate);
  }

  lemma EditedEarns(s: System, i: nat, demote: bool)
    requires TaintKnown(s) && TaintEarned(s) && i < |s.gate.finishing|
    ensures TaintEarned(Apply(s, Edited(i), demote))
  {
    EditMeans(s.gate, i);
  }

  lemma StepEarnsTaint(s: System, step: Step, demote: bool)
    requires TaintKnown(s) && TaintEarned(s) && Enabled(s, step)
    ensures TaintEarned(Apply(s, step, demote))
  {
    match step
    case Request(tool, keys) => RequestEarns(s, tool, keys, demote);
    case Answered => ResolvedEarns(s);
    case Edited(i) => EditedEarns(s, i, demote);
    case _ =>
  }

  lemma {:induction false} RunEarnsTaint(s: System, steps: seq<Step>, demote: bool)
    requires SystemInv(s) && TaintEarned(s) && SourceKept(s) && Legal(s, steps, demote)
    ensures TaintEarned(Run(s, steps, demote)) && SourceKept(Run(s, steps, demote))
    decreases |steps|
  {
    if steps != [] {
      StepEarnsTaint(s, steps[0], demote);
      if steps[0].Request? { RequestKeepsSource(s, steps[0].tool, steps[0].keys, demote); }
      else { OtherKeepsSource(s, steps[0], demote); }
      StepKeepsSystem(s, steps[0], demote);
      RunEarnsTaint(Apply(s, steps[0], demote), steps[1..], demote);
    }
  }

  /** Taint is exact: a framed turn is tainted if and only if its session has run an event turn
  or let a taint source through in one of its turns; between turns the core knows the same.
  The source's name is known exactly when a source did it and no event turn. */
  lemma TaintIsExact(steps: seq<Step>, demote: bool)
    requires Legal(START_SYSTEM, steps, demote) && Run(START_SYSTEM, steps, demote).session.Some?
    ensures var s := Run(START_SYSTEM, steps, demote);
      var touched := s.session.value.ranEvent || s.session.value.sourced;
      var named := s.session.value.sourced && !s.session.value.ranEvent;
      if s.inTurn then
        s.gate.frame.Some? && (s.gate.frame.value.tainted <==> touched) && (s.gate.frame.value.source.Some? <==> named)
      else (s.tainted <==> touched) && (s.source.Some? <==> named)
  {
    RunKeepsSystem(START_SYSTEM, steps, demote);
    RunEarnsTaint(START_SYSTEM, steps, demote);
  }
}
