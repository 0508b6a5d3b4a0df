/** The liveness budget of one connection: the retrieval loop of `henk/events/intake.py`.

Times are monotonic. A frame is available at `at`; a delivered message then costs the
consumer `latency`. A retrieval still waiting when its budget runs out trips.
*/
module Watchdog {

  datatype Kind = Opened | KeepAlive | Delivery | Other | Closed

  datatype Frame = Frame(kind: Kind, at: real, latency: real)

  /** How the connection ends, and when; a stream that falls silent trips. */
  datatype Fate = Tripped(at: real) | Finished(at: real)

  function Later(a: real, b: real): real { if a < b then b else a }

  /** What remains of the deadline at `t`, the last proof of life being `anchor`. */
  function Remaining(deadline: real, anchor: real, t: real): real { deadline - (t - anchor) }

  function Watch(deadline: real, anchor: real, t: real, frames: seq<Frame>): Fate
    decreases |frames|
  {
    var budget := Remaining(deadline, anchor, t);
    if frames == [] then Tripped(t + budget)
    else
      var f := frames[0];
      var done := Later(t, f.at);
      if done >= t + budget then Tripped(t + budget)
      else
        match f.kind
        case Closed => Finished(done)
        case Opened => Watch(deadline, anchor, done, frames[1..])
        case Delivery => Watch(deadline, done + f.latency, done + f.latency, frames[1..])
        case KeepAlive => Watch(deadline, done, done, frames[1..])
        case Other => Watch(deadline, done, done, frames[1..])
  }

  /** The budget given to a retrieval is always positive, and a trip comes exactly one
  deadline after the anchor it was measured from. */
  ghost predicate BudgetsPositive(deadline: real, anchor: real, t: real, frames: seq<Frame>)
    decreases |frames|
  {
    && Remaining(deadline, anchor, t) > 0.0
    && (frames != [] && Later(t, frames[0].at) < anchor + deadline ==>
          var done := Later(t, frames[0].at);
          match frames[0].kind
          case Closed => true
          case Opened => BudgetsPositive(deadline, anchor, done, frames[1..])
          case Delivery => BudgetsPositive(deadline, done + frames[0].latency, done + frames[0].latency, frames[1..])
          case _ => BudgetsPositive(deadline, done, done, frames[1..]))
  }

  ghost predicate Costed(frames: seq<Frame>) {
    forall i :: 0 <= i < |frames| ==> frames[i].latency >= 0.0
  }

  /** No frame, of any kind or number, is ever awaited on an expired budget. */
  lemma {:induction false} BudgetsStayPositive(deadline: real, anchor: real, t: real, frames: seq<Frame>)
    requires deadline > 0.0 && anchor <= t < anchor + deadline
    ensures BudgetsPositive(deadline, anchor, t, frames)
    decreases |frames|
  {
    if frames != [] && Later(t, frames[0].at) < anchor + deadline {
      var f, done := frames[0], Later(t, frames[0].at);
      match f.kind
      case Closed =>
      case Opened => BudgetsStayPositive(deadline, anchor, done, frames[1..]);
      case Delivery => BudgetsStayPositive(deadline, done + f.latency, done + f.latency, frames[1..]);
      case KeepAlive => BudgetsStayPositive(deadline, done, done, frames[1..]);
      case Other => BudgetsStayPositive(deadline, done, done, frames[1..]);
    }
  }

  /** Without proof of life the connection is over by the deadline, however many `open`
  frames arrive: it trips exactly then, unless it closed earlier. */
  lemma {:induction false} OpensDoNotExtend(deadline: real, anchor: real, t: real, frames: seq<Frame>)
    requires deadline > 0.0 && anchor <= t < anchor + deadline
    requires forall i :: 0 <= i < |frames| ==> frames[i].kind == Opened || frames[i].kind == Closed
    ensures var fate := Watch(deadline, anchor, t, frames);
      fate == Tripped(anchor + deadline) || (fate.Finished? && fate.at < anchor + deadline)
    ensures (forall i :: 0 <= i < |frames| ==> frames[i].kind == Opened) ==>
              Watch(deadline, anchor, t, frames) == Tripped(anchor + deadline)
    decreases |frames|
  {
    if frames != [] && Later(t, frames[0].at) < anchor + deadline && frames[0].kind == Opened {
      OpensDoNotExtend(deadline, anchor, Later(t, frames[0].at), frames[1..]);
    }
  }

  /** The stream is alive: every frame, and the close at last, comes within the deadline of
  the proof of life before it (or of the subscribe, at `last`). */
  ghost predicate Alive(deadline: real, last: real, frames: seq<Frame>)
    decreases |frames|
  {
    && frames != [] && frames[0].at < last + deadline
    && (frames[0].kind == Closed
        || Alive(deadline, if frames[0].kind == Opened then last else Later(last, frames[0].at), frames[1..]))
  }

  /** A live stream never trips, however slow the consumer is. */
  lemma {:induction false} LiveStreamsNeverTrip(deadline: real, anchor: real, t: real, last: real, frames: seq<Frame>)
    requires deadline > 0.0 && anchor <= t < anchor + deadline && last <= anchor
    requires Alive(deadline, last, frames) && Costed(frames)
    ensures Watch(deadline, anchor, t, frames).Finished?
    decreases |frames|
  {
    var f, rest := frames[0], frames[1..];
    var done := Later(t, f.at);
    assert done < anchor + deadline && f.latency >= 0.0;
    match f.kind
    case Closed =>
    case Opened => LiveStreamsNeverTrip(deadline, anchor, done, last, rest);
    case Delivery => LiveStreamsNeverTrip(deadline, done + f.latency, done + f.latency, Later(last, f.at), rest);
    case KeepAlive => LiveStreamsNeverTrip(deadline, done, done, Later(last, f.at), rest);
    case Other => LiveStreamsNeverTrip(deadline, done, done, Later(last, f.at), rest);
  }

  /** The loop as the source runs it; `subscribedAt` is just before the subscribe. */
  method Consume(deadline: real, subscribedAt: real, frames: seq<Frame>) returns (fate: Fate)
    requires deadline > 0.0 && Costed(frames)
    ensures fate == Watch(deadline, subscribedAt, subscribedAt, frames)
    ensures fate.Tripped? ==> fate.at >= subscribedAt + deadline
  {
    var lastProofOfLife, clock := subscribedAt, subscribedAt;
    var i := 0;
    while i < |frames|
      invariant 0 <= i <= |frames|
      invariant subscribedAt <= lastProofOfLife <= clock < lastProofOfLife + deadline
      invariant Watch(deadline, subscribedAt, subscribedAt, frames) == Watch(deadline, lastProofOfLife, clock, frames[i..])
    {
      var remaining := deadline - (clock - lastProofOfLife);
      var frame := frames[i];
      if frame.at > clock {
        if frame.at >= clock + remaining { return Tripped(clock + remaining); }
        clock := frame.at;
      }
      if frame.kind == Closed { return Finished(clock); }
      if frame.kind != Opened { lastProofOfLife := clock; }
      if frame.kind == Delivery {
        clock := clock + frame.latency;
        lastProofOfLife := clock;
      }
      i := i + 1;
    }
    fate := Tripped(clock + (deadline - (clock - lastProofOfLife)));
  }
}
