/** Resuming the event stream: `henk/events/intake.py`.

The server keeps every message; ids are distinct, nonempty and not the replay sentinel. It
serves a subscription from just after the message `since` names, from the start for the
sentinel, and from the end for none. A resume point that names no message is never served.
*/
module Intake {
  import opened Common
  import opened Cadence

  const REPLAY_ALL := "all"

  /** The delays are configured positive. */
  datatype Pace = Pace(base: real, max: real)

  type Pacing = p: Pace | p.base >= 0.0 && p.max >= 0.0 witness Pace(0.0, 0.0)

  // --- Backoff ---------------------------------------------------------------------------

  /** `base * 2 ** n`. */
  function Doubled(base: real, n: nat): (r: real)
    requires base >= 0.0
    ensures r >= base
  {
    if n == 0 then base else 2.0 * Doubled(base, n - 1)
  }

  function Min(a: real, b: real): real { if b < a then b else a }

  function Delay(p: Pacing, penalty: nat): real
  {
    Min(Doubled(p.base, penalty), p.max)
  }

  /** Each failure in a row waits at least as long as the one before, and never above the
  maximum. */
  lemma {:induction false} DelayGrows(p: Pacing, penalty: nat, more: nat)
    ensures Min(p.base, p.max) <= Delay(p, penalty) <= Delay(p, penalty + more) <= p.max
  {
    if more > 0 { DelayGrows(p, penalty, more - 1); }
  }

  /** The first wait is the base, and each further failure in a row doubles it, up to the
  maximum. */
  lemma DelayDoubles(p: Pacing, penalty: nat)
    ensures Delay(p, 0) == Min(p.base, p.max) && Delay(p, penalty + 1) == Min(2.0 * Delay(p, penalty), p.max)
  {
  }

  // --- The stream ------------------------------------------------------------------------

  /** `delivered` is the history of yields, as topic positions; `pauses` of waits before a
  reconnect, None for an immediate one. */
  datatype State = State(topic: seq<string>, conn: Option<nat>, lastId: Option<string>,
                         penalty: nat, recoveries: nat, delivered: seq<nat>, pauses: seq<Option<real>>)

  datatype Step =
    | Publish(id: string)
    | Connect
    | ControlFrame(event: string, id: string)
    | MessageFrame
    | Fail(status: Option<int>)
    | End

  function PositionOf(topic: seq<string>, id: string): (r: Option<nat>)
    ensures r.Some? ==> r.value < |topic| && topic[r.value] == id
    ensures r.None? <==> id !in topic
  {
    if topic == [] then None
    else if topic[|topic| - 1] == id then Some(|topic| - 1)
    else
      assert topic == topic[..|topic| - 1] + [topic[|topic| - 1]];
      PositionOf(topic[..|topic| - 1], id)
  }

  /** Where the server starts serving; None when it cannot tell. */
  function StartOf(topic: seq<string>, since: Option<string>): Option<nat> {
    if since.None? then Some(|topic|)
    else if since.value == REPLAY_ALL then Some(0)
    else if PositionOf(topic, since.value).Some? then Some(PositionOf(topic, since.value).value + 1)
    else None
  }

  predicate IsSinceRejection(lastId: Option<string>, status: Option<int>) {
    status == Some(400) && lastId.Some? && lastId.value != REPLAY_ALL
  }

  predicate Enabled(s: State, step: Step) {
    match step
    case Publish(id) => id != "" && id != REPLAY_ALL && id !in s.topic
    case Connect => s.conn.None? && StartOf(s.topic, s.lastId).Some?
    case ControlFrame(event, _) => s.conn.Some? && event != "message"
    case MessageFrame => s.conn.Some? && s.conn.value < |s.topic|
    case Fail(_) => true
    case End => s.conn.Some?
  }

  /** What intake keeps about one frame: the resume point and the penalty. */
  datatype Seen = Seen(lastId: Option<string>, penalty: nat, delivers: bool)

  function SeeFrame(lastId: Option<string>, penalty: nat, event: string, id: string): Seen {
    Seen(if event == "message" && id != "" then Some(id) else lastId,
         if event != "open" then 0 else penalty,
         event == "message")
  }

  /** What an ended connection leaves: resume point, penalty, recoveries, the wait. */
  datatype Ended = Ended(lastId: Option<string>, penalty: nat, recoveries: nat, pause: Option<real>)

  function SeeFailure(p: Pacing, lastId: Option<string>, penalty: nat, recoveries: nat, status: Option<int>): Ended {
    if IsSinceRejection(lastId, status) && recoveries == 0 then Ended(Some(REPLAY_ALL), penalty, 1, None)
    else
      var rejected := IsSinceRejection(lastId, status);
      Ended(if rejected then Some(REPLAY_ALL) else lastId, penalty + 1,
            if rejected then recoveries + 1 else recoveries, Some(Delay(p, penalty)))
  }

  function Apply(p: Pacing, s: State, step: Step): State
    requires Enabled(s, step)
  {
    match step
    case Publish(id) => s.(topic := s.topic + [id])
    case Connect => s.(conn := StartOf(s.topic, s.lastId))
    case ControlFrame(event, id) =>
      var seen := SeeFrame(s.lastId, s.penalty, event, id);
      s.(lastId := seen.lastId, penalty := seen.penalty)
    case MessageFrame =>
      var at := s.conn.value;
      var seen := SeeFrame(s.lastId, s.penalty, "message", s.topic[at]);
      s.(lastId := seen.lastId, penalty := seen.penalty, conn := Some(at + 1), delivered := s.delivered + [at])
    case Fail(status) =>
      var e := SeeFailure(p, s.lastId, s.penalty, s.recoveries, status);
      s.(conn := None, lastId := e.lastId, penalty := e.penalty, recoveries := e.recoveries, pauses := s.pauses + [e.pause])
    case End =>
      s.(conn := None, penalty := s.penalty + 1, pauses := s.pauses + [Some(Delay(p, s.penalty))])
  }

  function Start(topic: seq<string>, offset: Option<string>): State {
    State(topic, None, offset, 0, 0, [], [])
  }

  ghost predicate Legal(p: Pacing, s: State, steps: seq<Step>)
    decreases |steps|
  {
    steps == [] || (Enabled(s, steps[0]) && Legal(p, Apply(p, s, steps[0]), steps[1..]))
  }

  ghost function Run(p: Pacing, s: State, steps: seq<Step>): State
    requires Legal(p, s, steps)
    decreases |steps|
  {
    if steps == [] then s else Run(p, Apply(p, s, steps[0]), steps[1..])
  }

  ghost predicate TopicWF(topic: seq<string>) {
    && (forall i :: 0 <= i < |topic| ==> topic[i] != "" && topic[i] != REPLAY_ALL)
    && (forall i, j :: 0 <= i < j < |topic| ==> topic[i] != topic[j])
  }

  /** A control frame never moves the resume point, whatever id it carries. */
  lemma ControlFramesKeepResumePoint(p: Pacing, s: State, event: string, id: string)
    requires Enabled(s, ControlFrame(event, id))
    ensures var t := Apply(p, s, ControlFrame(event, id));
      t.lastId == s.lastId && t.delivered == s.delivered && t.conn == s.conn && (t.penalty == 0 || event == "open")
  {
  }

  // --- Exactly once ------------------------------------------------------------------------

  /** The server refuses the resume point itself: a 400 while one it can be blamed for is held. */
  predicate Refused(lastId: Option<string>, step: Step) {
    step == Fail(Some(400)) && lastId != None && lastId != Some(REPLAY_ALL)
  }

  ghost predicate NoRejection(p: Pacing, s: State, steps: seq<Step>)
    requires Legal(p, s, steps)
    decreases |steps|
  {
    steps == [] || (!Refused(s.lastId, steps[0]) && NoRejection(p, Apply(p, s, steps[0]), steps[1..]))
  }

  lemma {:induction false} NoBadRequestNoRejection(p: Pacing, s: State, steps: seq<Step>)
    requires Legal(p, s, steps) && Fail(Some(400)) !in steps
    ensures NoRejection(p, s, steps)
    decreases |steps|
  {
    if steps != [] { NoBadRequestNoRejection(p, Apply(p, s, steps[0]), steps[1..]); }
  }

  /** The position after the newest message the resume point covers; None before any. */
  function Next(s: State, offset: Option<string>): Option<nat> {
    if s.delivered != [] then Some(s.delivered[|s.delivered| - 1] + 1)
    else if offset.None? then None
    else StartOf(s.topic, offset)
  }

  ghost predicate InOrder(s: State, offset: Option<string>) {
    && TopicWF(s.topic)
    && (forall k :: 0 <= k < |s.delivered| ==> s.delivered[k] < |s.topic| && s.delivered[k] == s.delivered[0] + k)
    && (s.delivered == [] ==> s.lastId == offset)
    && (s.delivered != [] ==> s.lastId == Some(s.topic[s.delivered[|s.delivered| - 1]]))
    && (s.conn.Some? ==> s.conn.value <= |s.topic|)
    && (s.conn.Some? && Next(s, offset).Some? ==> s.conn.value == Next(s, offset).value)
    && (s.delivered != [] && offset.Some? ==> StartOf(s.topic, offset) == Some(s.delivered[0]))
    && (s.conn.Some? && offset.Some? ==> StartOf(s.topic, offset).Some?)
  }

  lemma PositionIs(topic: seq<string>, i: nat)
    requires TopicWF(topic) && i < |topic|
    ensures PositionOf(topic, topic[i]) == Some(i)
  {
    var r := PositionOf(topic, topic[i]);
    assert topic[i] in topic;
  }

  lemma PublishKeepsPosition(topic: seq<string>, id: string, more: string)
    requires id in topic && id != more
    ensures PositionOf(topic + [more], id) == PositionOf(topic, id)
  {
    assert (topic + [more])[..|topic|] == topic;
  }

  lemma PublishKeepsStart(topic: seq<string>, since: Option<string>, more: string)
    requires since.Some? && StartOf(topic, since).Some? && more !in topic && more != REPLAY_ALL
    ensures StartOf(topic + [more], since) == StartOf(topic, since)
  {
    if since.value != REPLAY_ALL { PublishKeepsPosition(topic, since.value, more); }
  }

  lemma ConnectKeepsOrder(p: Pacing, s: State, offset: Option<string>)
    requires InOrder(s, offset) && Enabled(s, Connect)
    ensures InOrder(Apply(p, s, Connect), offset)
  {
    if s.delivered != [] { PositionIs(s.topic, s.delivered[|s.delivered| - 1]); }
  }

  lemma MessageKeepsOrder(p: Pacing, s: State, offset: Option<string>)
    requires InOrder(s, offset) && Enabled(s, MessageFrame)
    ensures InOrder(Apply(p, s, MessageFrame), offset)
  {
  }

  lemma PublishKeepsOrder(p: Pacing, s: State, offset: Option<string>, id: string)
    requires InOrder(s, offset) && Enabled(s, Publish(id))
    ensures InOrder(Apply(p, s, Publish(id)), offset)
  {
    if offset.Some? && StartOf(s.topic, offset).Some? { PublishKeepsStart(s.topic, offset, id); }
  }

  lemma {:induction false} RunKeepsOrder(p: Pacing, s: State, steps: seq<Step>, offset: Option<string>)
    requires InOrder(s, offset) && Legal(p, s, steps) && NoRejection(p, s, steps)
    ensures InOrder(Run(p, s, steps), offset)
    decreases |steps|
  {
    if steps != [] {
      match steps[0] {
        case Connect => ConnectKeepsOrder(p, s, offset);
        case MessageFrame => MessageKeepsOrder(p, s, offset);
        case Publish(id) => PublishKeepsOrder(p, s, offset, id);
        case _ =>
      }
      RunKeepsOrder(p, Apply(p, s, steps[0]), steps[1..], offset);
    }
  }

  /** Delivered once each, in order, from where the offset says; read to the end, all of it. */
  ghost predicate DeliveredFrom(s: State, offset: Option<string>) {
    && (forall k :: 0 <= k < |s.delivered| ==> s.delivered[k] == s.delivered[0] + k < |s.topic|)
    && (offset.Some? && s.delivered != [] ==> StartOf(s.topic, offset) == Some(s.delivered[0]))
    && (offset.Some? && s.conn == Some(|s.topic|) ==>
          StartOf(s.topic, offset).Some? && |s.delivered| == |s.topic| - StartOf(s.topic, offset).value)
  }

  /** Over any run in which no resume point is refused, messages are delivered exactly once
  and in order; from a known offset nothing after it is missed, so a subscription read to
  its end has delivered everything. */
  lemma UnrefusedDeliversInOrder(p: Pacing, topic: seq<string>, offset: Option<string>, steps: seq<Step>)
    requires TopicWF(topic) && Legal(p, Start(topic, offset), steps) && NoRejection(p, Start(topic, offset), steps)
    ensures DeliveredFrom(Run(p, Start(topic, offset), steps), offset)
  {
    RunKeepsOrder(p, Start(topic, offset), steps, offset);
    var s := Run(p, Start(topic, offset), steps);
    if s.delivered != [] { assert s.delivered[|s.delivered| - 1] == s.delivered[0] + (|s.delivered| - 1); }
  }

  /** So do all runs whose failures are dropped connections, liveness trips, clean ends and
  refusals other than a 400, in any number and order. */
  lemma DeliversExactlyOnceInOrder(p: Pacing, topic: seq<string>, offset: Option<string>, steps: seq<Step>)
    requires TopicWF(topic) && Legal(p, Start(topic, offset), steps) && Fail(Some(400)) !in steps
    ensures DeliveredFrom(Run(p, Start(topic, offset), steps), offset)
  {
    NoBadRequestNoRejection(p, Start(topic, offset), steps);
    UnrefusedDeliversInOrder(p, topic, offset, steps);
  }

  /** Without an offset that promise starts at the first delivery only: a first subscription
  lost before it delivered anything is followed by another that starts later. */
  lemma ColdStartMissesAnOutage(p: Pacing)
    ensures var steps := [Connect, Fail(None), Publish("a"), Connect, Publish("b"), MessageFrame];
      && Legal(p, Start([], None), steps) && NoRejection(p, Start([], None), steps)
      && Run(p, Start([], None), steps).topic == ["a", "b"] && Run(p, Start([], None), steps).delivered == [1]
  {
    var s0 := Start([], None);
    var s1 := Apply(p, s0, Connect);
    var s2 := Apply(p, s1, Fail(None));
    var s3 := Apply(p, s2, Publish("a"));
    var s4 := Apply(p, s3, Connect);
    var s5 := Apply(p, s4, Publish("b"));
    var s6 := Apply(p, s5, MessageFrame);
    Last(p, s5, MessageFrame);
    Cons(p, s4, Publish("b"), [MessageFrame]);
    Cons(p, s3, Connect, [Publish("b"), MessageFrame]);
    Cons(p, s2, Publish("a"), [Connect, Publish("b"), MessageFrame]);
    Cons(p, s1, Fail(None), [Publish("a"), Connect, Publish("b"), MessageFrame]);
    Cons(p, s0, Connect, [Fail(None), Publish("a"), Connect, Publish("b"), MessageFrame]);
  }

  ghost predicate Clean(p: Pacing, s: State, steps: seq<Step>, t: State) {
    Legal(p, s, steps) && NoRejection(p, s, steps) && Run(p, s, steps) == t
  }

  lemma Last(p: Pacing, s: State, step: Step)
    requires Enabled(s, step) && !step.Fail?
    ensures Clean(p, s, [step], Apply(p, s, step))
  {
    assert [step][1..] == [];
  }

  lemma Cons(p: Pacing, s: State, step: Step, rest: seq<Step>)
    requires Enabled(s, step) && !Refused(s.lastId, step)
    requires Legal(p, Apply(p, s, step), rest) && NoRejection(p, Apply(p, s, step), rest)
    ensures Clean(p, s, [step] + rest, Run(p, Apply(p, s, step), rest))
  {
    assert ([step] + rest)[1..] == rest;
  }

  // --- Nothing skipped -----------------------------------------------------------------------

  /** Where a process with this offset begins; an unusable offset is rejected, then replayed. */
  function Base(topic: seq<string>, offset: string): nat {
    if offset == REPLAY_ALL then 0
    else if PositionOf(topic, offset).Some? then PositionOf(topic, offset).value + 1 else 0
  }

  ghost predicate CoveredTo(s: State, base: nat, n: int) {
    forall i :: base <= i < n ==> i in s.delivered
  }

  /** Whatever the resume point or the open connection would skip was delivered. */
  ghost predicate NothingSkipped(s: State, base: nat, offset: string) {
    && TopicWF(s.topic) && s.lastId.Some?
    && (s.lastId.value == offset || s.lastId.value == REPLAY_ALL || s.lastId.value in s.topic)
    && (s.conn.Some? ==> s.conn.value <= |s.topic| && CoveredTo(s, base, s.conn.value))
    && (StartOf(s.topic, s.lastId).Some? ==> CoveredTo(s, base, StartOf(s.topic, s.lastId).value))
    && (forall k :: 0 <= k < |s.delivered| ==> CoveredTo(s, base, s.delivered[k]))
  }

  lemma MessageKeepsCover(p: Pacing, s: State, base: nat, offset: string)
    requires NothingSkipped(s, base, offset) && Enabled(s, MessageFrame)
    ensures NothingSkipped(Apply(p, s, MessageFrame), base, offset)
  {
    var t := Apply(p, s, MessageFrame);
    var at := s.conn.value;
    PositionIs(s.topic, at);
    assert t.delivered[|s.delivered|] == at && forall i :: i in s.delivered ==> i in t.delivered;
    assert CoveredTo(t, base, at + 1);
  }

  lemma PublishKeepsCover(p: Pacing, s: State, base: nat, offset: string, id: string)
    requires NothingSkipped(s, base, offset) && Enabled(s, Publish(id)) && id != offset
    ensures NothingSkipped(Apply(p, s, Publish(id)), base, offset)
  {
    var t := Apply(p, s, Publish(id));
    if StartOf(s.topic, s.lastId).Some? { PublishKeepsStart(s.topic, s.lastId, id); }
    assert s.lastId.value in s.topic ==> s.lastId.value in t.topic;
    assert forall n :: CoveredTo(s, base, n) ==> CoveredTo(t, base, n);
  }

  lemma OtherKeepsCover(p: Pacing, s: State, base: nat, offset: string, step: Step)
    requires NothingSkipped(s, base, offset) && Enabled(s, step) && !step.Publish? && !step.MessageFrame?
    ensures NothingSkipped(Apply(p, s, step), base, offset)
  {
    var t := Apply(p, s, step);
    assert forall n :: CoveredTo(s, base, n) ==> CoveredTo(t, base, n);
  }

  lemma {:induction false} RunKeepsCover(p: Pacing, s: State, steps: seq<Step>, base: nat, offset: string)
    requires NothingSkipped(s, base, offset) && Legal(p, s, steps) && Publish(offset) !in steps
    ensures NothingSkipped(Run(p, s, steps), base, offset)
    decreases |steps|
  {
    if steps != [] {
      match steps[0] {
        case MessageFrame => MessageKeepsCover(p, s, base, offset);
        case Publish(id) => PublishKeepsCover(p, s, base, offset, id);
        case _ => OtherKeepsCover(p, s, base, offset, steps[0]);
      }
      RunKeepsCover(p, Apply(p, s, steps[0]), steps[1..], base, offset);
    }
  }

  /** Rejections included, no retained message is ever skipped: when a message is delivered,
  every earlier one after the process's offset has been; and a subscription read to its end
  has delivered them all. An offset that names no message is owed the whole topic. */
  lemma NoRetainedMessageIsSkipped(p: Pacing, topic: seq<string>, offset: string, steps: seq<Step>, i: nat)
    requires TopicWF(topic) && Legal(p, Start(topic, Some(offset)), steps) && Publish(offset) !in steps
    ensures var s := Run(p, Start(topic, Some(offset)), steps);
      var base := Base(topic, offset);
      && (base <= i && (exists k :: 0 <= k < |s.delivered| && i <= s.delivered[k]) ==> i in s.delivered)
      && (base <= i < |s.topic| && s.conn == Some(|s.topic|) ==> i in s.delivered)
  {
    var s0 := Start(topic, Some(offset));
    RunKeepsCover(p, s0, steps, Base(topic, offset), offset);
  }

  // --- Giving up the resume point --------------------------------------------------------------

  /** A failed connection in full: a 400 against a real resume point gives it up for a full
  replay, at once the first time; any other failure keeps it and waits. */
  lemma FailureMeans(p: Pacing, lastId: Option<string>, penalty: nat, recoveries: nat, status: Option<int>)
    ensures var e := SeeFailure(p, lastId, penalty, recoveries, status);
      if Refused(lastId, Fail(status)) then
        && e.lastId == Some(REPLAY_ALL) && e.recoveries == recoveries + 1
        && (if recoveries == 0 then e.pause == None && e.penalty == penalty
            else e.pause == Some(Delay(p, penalty)) && e.penalty == penalty + 1)
      else e == Ended(lastId, penalty + 1, recoveries, Some(Delay(p, penalty)))
  {
  }

  /** The failures and ends since the last proof of life, the immediate reconnect left out. */
  ghost function Unproven(p: Pacing, s: State, steps: seq<Step>, sofar: nat): nat
    requires Legal(p, s, steps)
    decreases |steps|
  {
    if steps == [] then sofar
    else
      var step := steps[0];
      Unproven(p, Apply(p, s, step), steps[1..],
               if step.MessageFrame? || (step.ControlFrame? && step.event != "open") then 0
               else if step.End? || (step.Fail? && !(Refused(s.lastId, step) && s.recoveries == 0)) then sofar + 1
               else sofar)
  }

  /** The wait before a reconnect is set by the failures since the last proof of life alone. */
  lemma {:induction false} PenaltyCountsFailures(p: Pacing, s: State, steps: seq<Step>)
    requires Legal(p, s, steps)
    ensures Run(p, s, steps).penalty == Unproven(p, s, steps, s.penalty)
    decreases |steps|
  {
    if steps != [] { PenaltyCountsFailures(p, Apply(p, s, steps[0]), steps[1..]); }
  }

  /** Every ended connection, failed or not, leaves one entry: the wait before the next. */
  lemma EndingMeans(p: Pacing, s: State, step: Step)
    requires Enabled(s, step) && (step.Fail? || step.End?)
    ensures var t := Apply(p, s, step);
      var atOnce := Refused(s.lastId, step) && s.recoveries == 0;
      && t.conn.None? && t.delivered == s.delivered && t.topic == s.topic
      && t.pauses == s.pauses + [if atOnce then None else Some(Delay(p, s.penalty))]
      && t.lastId == (if Refused(s.lastId, step) then Some(REPLAY_ALL) else s.lastId)
  {
  }

  /** A resume point is given up only to a refusal: otherwise it is the newest message
  delivered, or the offset the process began with. */
  ghost predicate ResumesRightly(s: State, offset: Option<string>) {
    || (s.recoveries > 0 && s.lastId == Some(REPLAY_ALL))
    || (s.delivered == [] && s.lastId == offset)
    || (s.delivered != [] && s.delivered[|s.delivered| - 1] < |s.topic| && s.lastId == Some(s.topic[s.delivered[|s.delivered| - 1]]))
  }

  lemma {:induction false} ResumePointIsNewest(p: Pacing, s: State, steps: seq<Step>, offset: Option<string>)
    requires TopicWF(s.topic) && Legal(p, s, steps) && ResumesRightly(s, offset)
    ensures ResumesRightly(Run(p, s, steps), offset)
    ensures Run(p, s, steps).recoveries >= s.recoveries && (NoRejection(p, s, steps) ==> Run(p, s, steps).recoveries == s.recoveries)
    decreases |steps|
  {
    if steps != [] {
      ResumePointIsNewest(p, Apply(p, s, steps[0]), steps[1..], offset);
    }
  }

  // --- Pacing --------------------------------------------------------------------------------

  function Immediate(pauses: seq<Option<real>>): nat {
    if pauses == [] then 0
    else Immediate(pauses[..|pauses| - 1]) + if pauses[|pauses| - 1].None? then 1 else 0
  }

  lemma ImmediateAppend(pauses: seq<Option<real>>, pause: Option<real>)
    ensures Immediate(pauses + [pause]) == Immediate(pauses) + if pause.None? then 1 else 0
  {
    assert (pauses + [pause])[..|pauses|] == pauses;
  }

  ghost predicate Paced(p: Pacing, s: State) {
    && Immediate(s.pauses) == (if s.recoveries == 0 then 0 else 1)
    && (forall i :: 0 <= i < |s.pauses| && s.pauses[i].Some? ==> Min(p.base, p.max) <= s.pauses[i].value <= p.max)
    && s.recoveries <= |s.delivered| + (if s.lastId.None? || s.lastId.value == REPLAY_ALL then 1 else 0)
  }

  lemma StepKeepsPaced(p: Pacing, s: State, step: Step)
    requires Paced(p, s) && TopicWF(s.topic) && Enabled(s, step)
    ensures Paced(p, Apply(p, s, step)) && TopicWF(Apply(p, s, step).topic)
  {
    DelayGrows(p, s.penalty, 0);
    match step
    case Fail(status) => ImmediateAppend(s.pauses, SeeFailure(p, s.lastId, s.penalty, s.recoveries, status).pause);
    case End => ImmediateAppend(s.pauses, Some(Delay(p, s.penalty)));
    case _ =>
  }

  lemma {:induction false} RunKeepsPaced(p: Pacing, s: State, steps: seq<Step>)
    requires Paced(p, s) && TopicWF(s.topic) && Legal(p, s, steps)
    ensures Paced(p, Run(p, s, steps))
    decreases |steps|
  {
    if steps != [] {
      StepKeepsPaced(p, s, steps[0]);
      RunKeepsPaced(p, Apply(p, s, steps[0]), steps[1..]);
    }
  }

  /** A process reconnects without waiting at most once, after its first rejection; every other
  wait is at least the base delay (or the maximum, if smaller). It cannot be rejected again
  without delivering a message in between. */
  lemma RecoveryIsBounded(p: Pacing, topic: seq<string>, offset: Option<string>, steps: seq<Step>)
    requires TopicWF(topic) && Legal(p, Start(topic, offset), steps)
    ensures var s := Run(p, Start(topic, offset), steps);
      && Immediate(s.pauses) <= 1 && s.recoveries <= |s.delivered| + 1
      && (forall i :: 0 <= i < |s.pauses| && s.pauses[i].Some? ==> Min(p.base, p.max) <= s.pauses[i].value)
  {
    RunKeepsPaced(p, Start(topic, offset), steps);
  }

  // --- The object ------------------------------------------------------------------------------

  class EventIntake {
    const pacing: Pacing
    var lastId: Option<string>
    var penalty: nat
    var recoveries: nat

    constructor (pacing: Pacing, offset: Option<string>)
      ensures this.pacing == pacing && lastId == offset && penalty == 0 && recoveries == 0
    {
      this.pacing, lastId, penalty, recoveries := pacing, offset, 0, 0;
    }

    /** One frame: proof of life first, then the event if it is a message. */
    method OnFrame(event: string, id: string) returns (delivers: bool)
      modifies this`lastId, this`penalty
      ensures Seen(lastId, penalty, delivers) == SeeFrame(old(lastId), old(penalty), event, id)
    {
      if event != "open" { penalty := 0; }
      if event != "message" { return false; }
      lastId := if id != "" then Some(id) else lastId;
      delivers := true;
    }

    method Backoff() returns (pause: real)
      modifies this`penalty
      ensures pause == Delay(pacing, old(penalty)) && penalty == old(penalty) + 1
    {
      pause := Delay(pacing, penalty);
      penalty := penalty + 1;
    }

    /** A failed connection: None is an immediate reconnect. A rejected resume point is given
    up for the sentinel. */
    method OnFailure(status: Option<int>) returns (pause: Option<real>)
      modifies this`lastId, this`penalty, this`recoveries
      ensures Ended(lastId, penalty, recoveries, pause)
           == SeeFailure(pacing, old(lastId), old(penalty), old(recoveries), status)
      ensures status != Some(400) ==>
                lastId == old(lastId) && recoveries == old(recoveries) && pause == Some(Delay(pacing, old(penalty)))
      ensures status == Some(400) && old(lastId) != None && old(lastId) != Some(REPLAY_ALL) ==>
                lastId == Some(REPLAY_ALL) && recoveries == old(recoveries) + 1 && (pause == None <==> recoveries == 1)
    {
      if IsSinceRejection(lastId, status) {
        recoveries := recoveries + 1;
        lastId := Some(REPLAY_ALL);
        if recoveries == 1 { return None; }
      }
      var wait := Backoff();
      pause := Some(wait);
    }
  }
}
