/** The approval gate: `henk/gate/approval.py`.

A decision is cut where the source suspends: until the prompt is sent, until it is answered
or times out, until the prompt is edited. `GateState` is the gate between those points and
`ApprovalGate` the object; each method is proved against the function it is named for.
*/
module Gate {
  import opened Common

  // --- Tools and turns -------------------------------------------------------------------

  datatype TurnType = OwnerTurn | IncidentTurn

  /** What the gate knows of the turn an invocation arrives in. */
  datatype Context = Context(turn: TurnType, announceable: bool, tainted: bool, source: Option<string>)

  const UNFRAMED := Context(OwnerTurn, true, false, None)

  datatype ToolClass = ReadOnly | NotifyOnly | Mutating

  datatype Tier = Standing | PerInstance

  datatype Tool = Tool(name: string, kind: ToolClass, tier: Tier, scope: set<TurnType>,
                       raisesTaint: bool, parameters: set<string>)

  datatype Outcome = Authorized | Approved | Denied | Cancelled | TimedOut | Suppressed | OutOfScope | RejectedBusy

  predicate Permits(o: Outcome) { o == Authorized || o == Approved }

  // --- Decisions ---------------------------------------------------------------------------

  /** One invocation: its tool, the context it began in, and whether a turn framed it. */
  datatype Call = Call(reference: nat, tool: Tool, context: Context, framed: bool)

  /** `answers` is every answer that reached the prompt, in order; the first one decides. */
  datatype Pending = Pending(call: Call, promptRef: Option<string>, sent: bool,
                             answer: Option<Outcome>, answeredBy: Option<string>, answers: seq<Outcome>)

  datatype Receipt = Receipt(reference: nat, tool: string, outcome: Outcome, turn: TurnType, detail: Option<string>)

  /** A decided prompt whose edit is still to be made. */
  datatype Finishing = Finishing(call: Call, outcome: Outcome)

  datatype GateState = GateState(frame: Option<Context>, next: nat, pending: Option<Pending>,
                                 finishing: seq<Finishing>, receipts: seq<Receipt>)

  const IDLE_GATE := GateState(None, 1, None, [], [])

  /** Why this turn may not run this tool: events excluded and the turn is one, or the session
  is tainted; or the turn's type is not in scope at all. */
  predicate OutOfScopeFor(tool: Tool, c: Context) {
    || (IncidentTurn !in tool.scope && (c.turn == IncidentTurn || c.tainted))
    || c.turn !in tool.scope
  }

  predicate EffectivelyStanding(tool: Tool, demote: bool) { tool.tier == Standing && !demote }

  predicate Undeclared(tool: Tool, keys: seq<string>) { exists i :: 0 <= i < |keys| && keys[i] !in tool.parameters }

  function WithReceipt(g: GateState, call: Call, outcome: Outcome, detail: Option<string>): GateState {
    g.(receipts := g.receipts + [Receipt(call.reference, call.tool.name, outcome, call.context.turn, detail)])
  }

  /** Taints the context held now, unless the turn that authorized has ended since. */
  function RaiseTaint(g: GateState, tool: Tool, framed: bool): GateState {
    if !tool.raisesTaint then g
    else if g.frame.None? && framed then g
    else
      var c := if g.frame.Some? then g.frame.value else UNFRAMED;
      if c.tainted then g else g.(frame := Some(c.(tainted := true, source := Some(tool.name))))
  }

  datatype Verdict = Decided(outcome: Outcome) | AwaitsPrompt

  datatype Authorizing = Authorizing(next: GateState, verdict: Verdict)

  function ScopeDetail(tool: Tool, c: Context): Option<string> {
    if c.turn == OwnerTurn && c.source.Some? && IncidentTurn !in tool.scope then
      Some("taint raised by " + c.source.value)
    else None
  }

  function CallOf(g: GateState, tool: Tool): Call {
    Call(g.next, tool, if g.frame.Some? then g.frame.value else UNFRAMED, g.frame.Some?)
  }

  /** `authorize` up to its first suspension, in the source's order of checks. */
  function Authorize(g: GateState, tool: Tool, keys: seq<string>, demote: bool): Authorizing {
    if tool.kind != Mutating then
      Authorizing(RaiseTaint(g, tool, g.frame.Some?), Decided(Approved))
    else
      var call := CallOf(g, tool);
      var counted := g.(next := g.next + 1);
      if OutOfScopeFor(tool, call.context) then
        Authorizing(WithReceipt(counted, call, OutOfScope, ScopeDetail(tool, call.context)), Decided(OutOfScope))
      else if EffectivelyStanding(tool, demote) then
        Authorizing(RaiseTaint(WithReceipt(counted, call, Authorized, None), tool, call.framed), Decided(Authorized))
      else if call.context.turn == IncidentTurn && !call.context.announceable then
        Authorizing(WithReceipt(counted, call, Suppressed, None), Decided(Suppressed))
      else if Undeclared(tool, keys) then
        Authorizing(WithReceipt(counted, call, Cancelled, Some("undeclared argument")), Decided(Cancelled))
      else if g.pending.Some? then
        Authorizing(WithReceipt(counted, call, RejectedBusy, None), Decided(RejectedBusy))
      else
        Authorizing(counted.(pending := Some(Pending(call, None, false, None, None, []))), AwaitsPrompt)
  }

  // --- Answers -------------------------------------------------------------------------------

  datatype Class = Approve | Deny | Unrelated | Ignored

  /** First wins: a later answer changes neither the outcome nor how it was given. */
  function Answer(p: Pending, outcome: Outcome, how: Option<string>): Pending {
    var heard := p.(answers := p.answers + [outcome]);
    if p.answer.Some? then heard else heard.(answer := Some(outcome), answeredBy := how)
  }

  datatype Delivery = Delivery(next: GateState, means: Class, requeue: bool)

  /** A typed message; anything but a keyword fails the pending action closed. */
  function Deliver(g: GateState, said: Class): Delivery
    requires said != Ignored
  {
    if g.pending.None? then Delivery(g, Unrelated, true)
    else
      var outcome := if said == Approve then Approved else if said == Deny then Denied else Cancelled;
      Delivery(g.(pending := Some(Answer(g.pending.value, outcome, if said == Unrelated then None else Some("keyword")))),
               said, said == Unrelated)
  }

  datatype Reaction = Reaction(target: Option<string>, removed: bool, means: Class)

  /** A reaction answers only the prompt pending now, on that very message. */
  predicate Answers(g: GateState, r: Reaction) {
    && g.pending.Some? && g.pending.value.promptRef.Some? && !r.removed
    && r.target == g.pending.value.promptRef && g.pending.value.answer.None?
    && (r.means == Approve || r.means == Deny)
  }

  function DeliverReaction(g: GateState, r: Reaction): GateState {
    if !Answers(g, r) then g
    else g.(pending := Some(Answer(g.pending.value, if r.means == Approve then Approved else Denied, Some("reaction"))))
  }

  // --- Settling the prompt -------------------------------------------------------------------

  function PromptSent(g: GateState, ref: Option<string>): GateState
    requires g.pending.Some?
  {
    g.(pending := Some(g.pending.value.(promptRef := ref, sent := true)))
  }

  /** Not delivered: nothing the owner saw, so cancelled whatever was answered meanwhile. */
  function PromptFailed(g: GateState, tooLarge: bool): GateState
    requires g.pending.Some?
  {
    WithReceipt(g.(pending := None), g.pending.value.call, Cancelled, if tooLarge then Some("prompt too large") else None)
  }

  function DetailOf(p: Pending, outcome: Outcome): Option<string> {
    if (outcome == Approved || outcome == Denied) && p.answeredBy.Some? then Some("answered by " + p.answeredBy.value) else None
  }

  function SettledOutcome(p: Pending): Outcome { if p.answer.Some? then p.answer.value else TimedOut }

  /** The answer, or the timeout if none came: the slot is released, then the receipt is
  written, then the edit is awaited if the prompt has a reference. */
  function Settle(g: GateState): GateState
    requires g.pending.Some? && g.pending.value.sent
  {
    var p := g.pending.value;
    var outcome := SettledOutcome(p);
    var done := WithReceipt(g.(pending := None), p.call, outcome, DetailOf(p, outcome));
    if p.promptRef.Some? then done.(finishing := done.finishing + [Finishing(p.call, outcome)])
    else if Permits(outcome) then RaiseTaint(done, p.call.tool, p.call.framed)
    else done
  }

  /** The edit returned: taint is raised, then the decision returns. */
  function FinishEdit(g: GateState, i: nat): GateState
    requires i < |g.finishing|
  {
    var f := g.finishing[i];
    var rest := g.(finishing := g.finishing[..i] + g.finishing[i + 1..]);
    if Permits(f.outcome) then RaiseTaint(rest, f.call.tool, f.call.framed) else rest
  }

  // --- The object ----------------------------------------------------------------------------

  class ApprovalGate {
    const demoteStanding: bool
    var turnContext: Option<Context>
    var refs: nat
    var pending: Option<Pending>
    var finishing: seq<Finishing>
    var receipts: seq<Receipt>

    ghost function View(): GateState
      reads this
    {
      GateState(turnContext, refs, pending, finishing, receipts)
    }

    constructor (demoteStanding: bool)
      ensures View() == IDLE_GATE && this.demoteStanding == demoteStanding
    {
      this.demoteStanding := demoteStanding;
      turnContext, refs, pending, finishing, receipts := None, 1, None, [], [];
    }

    method EnterTurn(context: Context)
      modifies this`turnContext
      ensures View() == old(View()).(frame := Some(context))
    {
      turnContext := Some(context);
    }

    method ExitTurn() returns (context: Option<Context>)
      modifies this`turnContext
      ensures context == old(turnContext) && View() == old(View()).(frame := None)
    {
      context := turnContext;
      turnContext := None;
    }

    method Resolve(call: Call, outcome: Outcome, detail: Option<string>)
      modifies this`receipts
      ensures View() == WithReceipt(old(View()), call, outcome, detail)
    {
      receipts := receipts + [Receipt(call.reference, call.tool.name, outcome, call.context.turn, detail)];
    }

    method Taint(tool: Tool, framedAtStart: bool)
      modifies this`turnContext
      ensures View() == RaiseTaint(old(View()), tool, framedAtStart)
    {
      if !tool.raisesTaint { return; }
      var context := UNFRAMED;
      if turnContext.Some? { context := turnContext.value; }
      else if framedAtStart { return; }
      if !context.tainted {
        turnContext := Some(context.(tainted := true, source := Some(tool.name)));
      }
    }

    method Begin(tool: Tool, keys: seq<string>) returns (verdict: Verdict)
      modifies this
      ensures var a := Authorize(old(View()), tool, keys, demoteStanding);
        View() == a.next && verdict == a.verdict
    {
      var framedAtStart := turnContext.Some?;
      if tool.kind != Mutating {
        Taint(tool, framedAtStart);
        return Decided(Approved);
      }
      var context := if turnContext.Some? then turnContext.value else UNFRAMED;
      var call := Call(refs, tool, context, framedAtStart);
      refs := refs + 1;
      if OutOfScopeFor(tool, context) {
        Resolve(call, OutOfScope, ScopeDetail(tool, context));
        return Decided(OutOfScope);
      }
      if EffectivelyStanding(tool, demoteStanding) {
        Resolve(call, Authorized, None);
        Taint(tool, framedAtStart);
        return Decided(Authorized);
      }
      if context.turn == IncidentTurn && !context.announceable {
        Resolve(call, Suppressed, None);
        return Decided(Suppressed);
      }
      if exists i :: 0 <= i < |keys| && keys[i] !in tool.parameters {
        Resolve(call, Cancelled, Some("undeclared argument"));
        return Decided(Cancelled);
      }
      if pending.Some? {
        Resolve(call, RejectedBusy, None);
        return Decided(RejectedBusy);
      }
      pending := Some(Pending(call, None, false, None, None, []));
      verdict := AwaitsPrompt;
    }

    method DeliverMessage(said: Class) returns (means: Class, requeue: bool)
      requires said != Ignored
      modifies this`pending
      ensures var d := Deliver(old(View()), said);
        View() == d.next && means == d.means && requeue == d.requeue
    {
      if pending.None? { return Unrelated, true; }
      if said == Approve { pending := Some(Answer(pending.value, Approved, Some("keyword"))); return said, false; }
      if said == Deny { pending := Some(Answer(pending.value, Denied, Some("keyword"))); return said, false; }
      pending := Some(Answer(pending.value, Cancelled, None));
      return said, true;
    }

    method React(r: Reaction)
      modifies this`pending
      ensures View() == DeliverReaction(old(View()), r)
    {
      if pending.None? || pending.value.promptRef.None? { return; }
      if r.removed { return; }
      if r.target != pending.value.promptRef { return; }
      if pending.value.answer.Some? { return; }
      if r.means == Approve { pending := Some(Answer(pending.value, Approved, Some("reaction"))); }
      else if r.means == Deny { pending := Some(Answer(pending.value, Denied, Some("reaction"))); }
    }

    /** The wait is over: answered, or timed out. */
    method SettlePrompt()
      requires pending.Some? && pending.value.sent
      modifies this
      ensures View() == Settle(old(View()))
    {
      var p := pending.value;
      pending := None;
      var outcome := if p.answer.Some? then p.answer.value else TimedOut;
      Resolve(p.call, outcome, DetailOf(p, outcome));
      if p.promptRef.Some? {
        finishing := finishing + [Finishing(p.call, outcome)];
      } else if Permits(outcome) {
        Taint(p.call.tool, p.call.framed);
      }
    }

    method EditReturned(i: nat)
      requires i < |finishing|
      modifies this`finishing, this`turnContext
      ensures View() == FinishEdit(old(View()), i)
    {
      var f := finishing[i];
      finishing := finishing[..i] + finishing[i + 1..];
      if Permits(f.outcome) { Taint(f.call.tool, f.call.framed); }
    }
  }
}
