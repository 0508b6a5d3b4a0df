/** Resolving a submitted time in the owner's zone: `henk/reminders/timeparse.py`.

Parsing and wording are left out; a submitted time is its numbers. Instants, readings and
the clock are microseconds. A local date is the number of days a reading lies after day 0.
*/
module TimeParse {
  import opened Common
  import opened TimeZones

  const SECOND := 1_000_000
  const MINUTE := 60 * SECOND
  const DAY := 86_400 * SECOND

  // --- The edges of a gap --------------------------------------------------------------------

  /** Python's `int()`: toward zero. */
  function Truncated(u: int): int { if u >= 0 then u / SECOND else -((-u) / SECOND) }

  /** Transition instants and offsets fall on whole seconds. */
  ghost predicate WholeSeconds(z: Zone) {
    z.offset % SECOND == 0 && forall n: nat :: n < |z.transitions| ==> OnSecond(z.transitions[n])
  }

  predicate OnSecond(t: Transition) { t.at % SECOND == 0 && t.offset % SECOND == 0 }

  /** The transition an imaginary or ambiguous reading falls in. */
  function TransitionAt(z: Zone, reading: int): Transition
    requires WallCount(z, reading, false) < |z.transitions|
  {
    z.transitions[WallCount(z, reading, false)]
  }

  lemma ImaginaryFallsInGap(z: Zone, reading: int)
    requires Spaced(z) && Classify(z, reading) == Imaginary
    ensures var n := WallCount(z, reading, false);
      && n < |z.transitions| && WallCount(z, reading, true) == n + 1 && Jump(z, n) > 0
      && z.transitions[n].at + Off(z, n) <= reading < z.transitions[n].at + Off(z, n + 1)
  {
    FoldsAdjacent(z, reading);
    ShownAtFolds(z, reading);
    ClassifyIsExact(z, reading);
  }

  /** Between the pseudo-instants of an imaginary reading there is one transition. */
  lemma OffsetsAcrossGap(z: Zone, reading: int, u: int)
    requires Spaced(z) && WholeSeconds(z) && Classify(z, reading) == Imaginary
    requires u % SECOND == 0 && Instant(z, reading, true) - SECOND < u < Instant(z, reading, false) + SECOND
    requires u < Instant(z, reading, false) || u == TransitionAt(z, reading).at
    ensures var n := WallCount(z, reading, false);
      OffsetAt(z, u) == if u < z.transitions[n].at then Off(z, n) else Off(z, n + 1)
  {
    ImaginaryFallsInGap(z, reading);
    var n := WallCount(z, reading, false);
    if n > 0 {
      assert Apart(z, n - 1);
      assert OnSecond(z.transitions[n - 1]);
      WholeSecondsBetween(z.transitions[n - 1].at, Instant(z, reading, true), u);
    }
    if n + 1 < |z.transitions| { assert Apart(z, n); }
    CountIs(z, u, if u < z.transitions[n].at then n else n + 1);
  }

  lemma WholeSecondsBetween(a: int, x: int, u: int)
    requires a % SECOND == 0 && u % SECOND == 0 && a <= x && x - SECOND < u
    ensures a <= u
  {
  }

  lemma RoundsToward(u: int, at: int)
    requires at % SECOND == 0
    ensures u < at ==> Truncated(u) * SECOND <= at
    ensures at <= u ==> at <= Truncated(u) * SECOND
    ensures u - SECOND < Truncated(u) * SECOND < u + SECOND
    ensures u < at && (u >= 0 || u % SECOND == 0) ==> Truncated(u) * SECOND < at
  {
  }

  /** A transition between the bisection's ends, before and after they are cut to seconds. */
  ghost predicate Brackets(first: int, last: int, at: int) {
    && at % SECOND == 0 && first < at <= last
    && Truncated(first) * SECOND <= at <= Truncated(last) * SECOND
    && first - SECOND < Truncated(first) * SECOND && Truncated(last) * SECOND < last + SECOND
  }

  lemma OffsetOnSecond(z: Zone, n: nat)
    requires WholeSeconds(z) && n <= |z.transitions|
    ensures Off(z, n) % SECOND == 0
  {
    if n > 0 { assert OnSecond(z.transitions[n - 1]); }
  }

  /** What rounding toward zero does to the bisection's ends. */
  lemma EndsTruncated(z: Zone, reading: int)
    requires Spaced(z) && WholeSeconds(z) && Classify(z, reading) == Imaginary
    ensures Brackets(Instant(z, reading, true), Instant(z, reading, false), TransitionAt(z, reading).at)
  {
    ImaginaryFallsInGap(z, reading);
    assert OnSecond(TransitionAt(z, reading));
    RoundsToward(Instant(z, reading, true), TransitionAt(z, reading).at);
    RoundsToward(Instant(z, reading, false), TransitionAt(z, reading).at);
  }

  /** The lower end lies before the transition for whole-second readings, and from 1970 on. */
  lemma LowerEndBefore(z: Zone, reading: int)
    requires Spaced(z) && WholeSeconds(z) && Classify(z, reading) == Imaginary
    requires reading % SECOND == 0 || Instant(z, reading, true) >= 0
    ensures Truncated(Instant(z, reading, true)) * SECOND < TransitionAt(z, reading).at
  {
    EndsTruncated(z, reading);
    OffsetOnSecond(z, WallCount(z, reading, true));
    if reading % SECOND == 0 { WholeDifference(reading, UtcOffset(z, reading, true)); }
    RoundsToward(Instant(z, reading, true), TransitionAt(z, reading).at);
  }

  lemma WholeDifference(a: int, b: int)
    requires a % SECOND == 0 && b % SECOND == 0
    ensures (a - b) % SECOND == 0
  {
  }

  lemma WholeMultiple(n: int)
    ensures (n * SECOND) % SECOND == 0
  {
  }

  /** A whole second strictly inside the cut ends is within a second of the ends themselves,
  and before the upper one. */
  lemma InsideEnds(first: int, last: int, at: int, mid: int)
    requires Brackets(first, last, at) && Truncated(first) < mid < Truncated(last)
    ensures first - SECOND < mid * SECOND < last + SECOND && mid * SECOND < last
  {
  }

  /** Whether the middle is past the transition, as the loop tells from its offset. */
  lemma MiddleIsPast(z: Zone, reading: int, mid: int)
    requires Spaced(z) && WholeSeconds(z) && Classify(z, reading) == Imaginary
    requires Truncated(Instant(z, reading, true)) < mid < Truncated(Instant(z, reading, false))
    ensures OffsetAt(z, mid * SECOND) == UtcOffset(z, reading, true) <==> TransitionAt(z, reading).at <= mid * SECOND
  {
    EndsTruncated(z, reading);
    ImaginaryFallsInGap(z, reading);
    WholeMultiple(mid);
    InsideEnds(Instant(z, reading, true), Instant(z, reading, false), TransitionAt(z, reading).at, mid);
    OffsetsAcrossGap(z, reading, mid * SECOND);
  }

  /** The lower end, cut toward zero, has landed on the transition, and there is something left
  to bisect. */
  predicate LandsLate(z: Zone, reading: int)
    requires WallCount(z, reading, false) < |z.transitions|
  {
    var low, high := Truncated(Instant(z, reading, true)), Truncated(Instant(z, reading, false));
    TransitionAt(z, reading).at <= low * SECOND && low < high
  }

  /** It takes a fraction of a second, before 1970. */
  lemma LateNeedsFraction(z: Zone, reading: int)
    requires Spaced(z) && WholeSeconds(z) && Classify(z, reading) == Imaginary
    ensures WallCount(z, reading, false) < |z.transitions|
    ensures LandsLate(z, reading) ==> reading % SECOND != 0 && Instant(z, reading, true) < 0
  {
    ImaginaryFallsInGap(z, reading);
    if reading % SECOND == 0 || Instant(z, reading, true) >= 0 { LowerEndBefore(z, reading); }
  }

  /** Ten seconds before 1970 the clocks go forward an hour. */
  const TEN_BEFORE := Zone(0, [Transition(-10 * SECOND, 3600 * SECOND)])

  /** Half a second before the end of that gap, the bisection lands late. */
  lemma HalfSecondLandsLate()
    ensures var reading := 3589 * SECOND + 500_000;
      && Spaced(TEN_BEFORE) && WholeSeconds(TEN_BEFORE) && Classify(TEN_BEFORE, reading) == Imaginary
      && WallCount(TEN_BEFORE, reading, false) < |TEN_BEFORE.transitions| && LandsLate(TEN_BEFORE, reading)
  {
    var reading := 3589 * SECOND + 500_000;
    assert OnSecond(TEN_BEFORE.transitions[0]);
    assert Wall(TEN_BEFORE, 0, false) == 3590 * SECOND && Wall(TEN_BEFORE, 0, true) == -10 * SECOND;
    assert WallCountTo(TEN_BEFORE, reading, false, 0) == 0;
    assert WallCount(TEN_BEFORE, reading, false) == 0 && WallCount(TEN_BEFORE, reading, true) == 1;
    assert Instant(TEN_BEFORE, reading, true) == -10 * SECOND - 500_000;
    assert Truncated(Instant(TEN_BEFORE, reading, true)) == -10;
    CountIs(TEN_BEFORE, reading, 1);
  }

  /** The bisection. It finds the transition itself, or the second after it exactly when its
  lower end lands on it. */
  method FindTransition(z: Zone, reading: int) returns (transition: int)
    requires Spaced(z) && WholeSeconds(z) && Classify(z, reading) == Imaginary
    ensures WallCount(z, reading, false) < |z.transitions|
    ensures transition * SECOND == TransitionAt(z, reading).at + if LandsLate(z, reading) then SECOND else 0
  {
    ImaginaryFallsInGap(z, reading);
    EndsTruncated(z, reading);
    ghost var at := TransitionAt(z, reading).at;
    var low, high := Truncated(Instant(z, reading, true)), Truncated(Instant(z, reading, false));
    ghost var low0, high0 := low, high;
    while low + 1 < high
      invariant low0 <= low && high <= high0
      invariant low * SECOND <= at <= high * SECOND
      invariant low0 * SECOND < at ==> low * SECOND < at
      invariant low0 * SECOND == at ==> low == low0
      invariant low0 < high0 ==> low < high
      decreases high - low
    {
      var mid := (low + high) / 2;
      MiddleIsPast(z, reading, mid);
      if OffsetAt(z, mid * SECOND) == UtcOffset(z, reading, true) { high := mid; } else { low := mid; }
    }
    transition := high;
  }

  lemma WallCountIs(z: Zone, reading: int, fold: bool, n: nat)
    requires Spaced(z) && n <= |z.transitions|
    requires n > 0 ==> Wall(z, n - 1, fold) <= reading
    requires n < |z.transitions| ==> reading < Wall(z, n, fold)
    ensures WallCount(z, reading, fold) == n
  {
    var c := WallCount(z, reading, fold);
    if c < n && c < n - 1 { WallsOrdered(z, c, n - 1); }
    if n < c && n < c - 1 { WallsOrdered(z, n, c - 1); }
  }

  /** Where the gap around an imaginary reading begins and ends on the clock. */
  function GapStart(z: Zone, reading: int): int
    requires WallCount(z, reading, false) < |z.transitions|
  {
    TransitionAt(z, reading).at + Off(z, WallCount(z, reading, false))
  }

  function GapEnd(z: Zone, reading: int): int
    requires WallCount(z, reading, false) < |z.transitions|
  {
    TransitionAt(z, reading).at + TransitionAt(z, reading).offset
  }

  /** Every reading from the start of the gap to its end is imaginary, whatever its width. */
  lemma WholeGapIsImaginary(z: Zone, reading: int, other: int)
    requires Spaced(z) && Classify(z, reading) == Imaginary
    requires WallCount(z, reading, false) < |z.transitions|
    requires GapStart(z, reading) <= other < GapEnd(z, reading)
    ensures Classify(z, other) == Imaginary
  {
    ImaginaryFallsInGap(z, reading);
    var n := WallCount(z, reading, false);
    if n > 0 { WallsOrdered(z, n - 1, n); }
    if n + 1 < |z.transitions| { WallsOrdered(z, n, n + 1); }
    WallCountIs(z, other, false, n);
    WallCountIs(z, other, true, n + 1);
    ShownAtFolds(z, other);
    ClassifyIsExact(z, other);
    DisplaysIffShown(z, Instant(z, other, false), other);
    if m: nat :| m <= |z.transitions| && ShownAfter(z, other, m) { ShownOnlyAtFolds(z, other, m); }
  }

  /** How far past the transition the bisection lands. */
  function Slip(z: Zone, reading: int): int
    requires WallCount(z, reading, false) < |z.transitions|
  {
    if LandsLate(z, reading) then SECOND else 0
  }

  /** The two readings an error names: a minute before the jump, and the jump itself. Both
  exist. The second is the first reading after the gap; the first is a minute before the
  gap begins, unless another transition fell within that minute. A bisection that lands a
  second late moves both by that second. */
  method GapNeighbours(z: Zone, reading: int) returns (before: int, after: int)
    requires Spaced(z) && WholeSeconds(z) && Classify(z, reading) == Imaginary
    ensures WallCount(z, reading, false) < |z.transitions|
    ensures Classify(z, before) != Imaginary && Classify(z, after) != Imaginary
    ensures GapStart(z, reading) <= reading < GapEnd(z, reading)
    ensures after == GapEnd(z, reading) + Slip(z, reading)
    ensures var n := WallCount(z, reading, false);
      n == 0 || z.transitions[n - 1].at <= z.transitions[n].at + Slip(z, reading) - MINUTE ==>
        before == GapStart(z, reading) + Slip(z, reading) - MINUTE
  {
    var transition := FindTransition(z, reading);
    before, after := LocalOf(z, (transition - 60) * SECOND), LocalOf(z, transition * SECOND);
    NamedReadings(z, reading, transition * SECOND);
    assert (transition - 60) * SECOND == transition * SECOND - MINUTE;
  }

  /** What the clock shows at the landing and a minute before. */
  lemma NamedReadings(z: Zone, reading: int, at: int)
    requires Spaced(z) && WholeSeconds(z) && Classify(z, reading) == Imaginary
    requires WallCount(z, reading, false) < |z.transitions| && at == TransitionAt(z, reading).at + Slip(z, reading)
    ensures Classify(z, LocalOf(z, at - MINUTE)) != Imaginary && Classify(z, LocalOf(z, at)) != Imaginary
    ensures GapStart(z, reading) <= reading < GapEnd(z, reading)
    ensures LocalOf(z, at) == GapEnd(z, reading) + Slip(z, reading)
    ensures var n := WallCount(z, reading, false);
      n == 0 || z.transitions[n - 1].at <= z.transitions[n].at + Slip(z, reading) - MINUTE ==>
        LocalOf(z, at - MINUTE) == GapStart(z, reading) + Slip(z, reading) - MINUTE
  {
    ShownIsReal(z, at - MINUTE);
    ShownIsReal(z, at);
    EdgesOfGap(z, reading, Slip(z, reading));
  }

  /** What some instant shows is not imaginary. */
  lemma ShownIsReal(z: Zone, u: int)
    requires Spaced(z)
    ensures Classify(z, LocalOf(z, u)) != Imaginary
  {
    ClassifyIsExact(z, LocalOf(z, u));
    assert Displays(z, u, LocalOf(z, u));
  }

  lemma EdgesOfGap(z: Zone, reading: int, slip: int)
    requires Spaced(z) && WholeSeconds(z) && Classify(z, reading) == Imaginary && (slip == 0 || slip == SECOND)
    ensures var n := WallCount(z, reading, false);
      && n < |z.transitions| && GapStart(z, reading) <= reading < GapEnd(z, reading)
      && LocalOf(z, z.transitions[n].at + slip) == GapEnd(z, reading) + slip
      && (n == 0 || z.transitions[n - 1].at <= z.transitions[n].at + slip - MINUTE ==>
            LocalOf(z, z.transitions[n].at + slip - MINUTE) == GapStart(z, reading) + slip - MINUTE)
  {
    ImaginaryFallsInGap(z, reading);
    var n := WallCount(z, reading, false);
    AfterTheGap(z, n, slip);
    if n == 0 || z.transitions[n - 1].at <= z.transitions[n].at + slip - MINUTE {
      CountIs(z, z.transitions[n].at + slip - MINUTE, n);
    }
  }

  /** The offset after a jump lasts at least a second, whatever transitions follow. */
  lemma AfterTheGap(z: Zone, n: nat, slip: int)
    requires Spaced(z) && WholeSeconds(z) && n < |z.transitions| && Jump(z, n) > 0 && (slip == 0 || slip == SECOND)
    ensures OffsetAt(z, z.transitions[n].at + slip) == Off(z, n + 1)
  {
    JumpIsSeconds(z, n);
    var u := z.transitions[n].at + slip;
    if n + 1 < |z.transitions| {
      assert Apart(z, n);
      if z.transitions[n + 1].at <= u {
        JumpIsSeconds(z, n + 1);
        if n + 2 < |z.transitions| { assert Apart(z, n + 1); JumpLater(z, n + 1, u); }
        else { CountIs(z, u, n + 2); }
      } else {
        CountIs(z, u, n + 1);
      }
    } else {
      CountIs(z, u, n + 1);
    }
  }

  lemma JumpIsSeconds(z: Zone, n: nat)
    requires WholeSeconds(z) && n < |z.transitions|
    ensures Jump(z, n) % SECOND == 0
  {
    OffsetOnSecond(z, n);
    OffsetOnSecond(z, n + 1);
  }

  /** A transition exactly at `u` without a jump, and the next one after it. */
  lemma JumpLater(z: Zone, n: nat, u: int)
    requires Spaced(z) && n + 1 < |z.transitions| && z.transitions[n].at == u
    ensures Count(z, u) == n + 1
  {
    WallsOrdered(z, n, n + 1);
    CountIs(z, u, n + 1);
  }

  // --- Resolution ------------------------------------------------------------------------------

  datatype Disclosure = Plain | FirstOfTwo | SecondOfTwo

  datatype Resolution =
    | Accepted(due: int, disclosure: Disclosure)
    | DoesNotExist
    | InThePast
    | BeyondHorizon
    | NotAClockTime
    | Unreachable

  datatype Limits = Limits(horizonDays: nat, skew: nat)

  /** `chosen` is the instant selection picked; without one it is fold 0. */
  function Evaluate(z: Zone, reading: int, chosen: Option<int>): Resolution {
    var kind := Classify(z, reading);
    var first := Instant(z, reading, false);
    var due := if chosen.Some? then chosen.value else first;
    match kind
    case Imaginary => DoesNotExist
    case Normal => Accepted(due, Plain)
    case Ambiguous => Accepted(due, if due == first then FirstOfTwo else SecondOfTwo)
  }

  function CheckHorizon(r: Resolution, now: int, limits: Limits): Resolution {
    if r.Accepted? && r.due > now + limits.horizonDays * DAY then BeyondHorizon else r
  }

  function ResolveDated(z: Zone, reading: int, now: int, limits: Limits): Resolution {
    var r := Evaluate(z, reading, None);
    if r.Accepted? && r.due < now - limits.skew then InThePast else CheckHorizon(r, now, limits)
  }

  ghost predicate FirstShowing(z: Zone, reading: int, u: int) {
    Displays(z, u, reading) && forall v :: Displays(z, v, reading) ==> u <= v
  }

  /** What a dated reading first shown at `u` resolves to. */
  ghost predicate DatedAnswer(z: Zone, reading: int, u: int, r: Resolution, now: int, limits: Limits) {
    && (r == InThePast <==> u < now - limits.skew)
    && (r == BeyondHorizon <==> u >= now - limits.skew && u > now + limits.horizonDays * DAY)
    && (r.Accepted? ==> r.due == u && (r.disclosure == FirstOfTwo <==> exists v :: v != u && Displays(z, v, reading)))
    && (r.Accepted? || r == InThePast || r == BeyondHorizon)
  }

  /** A dated reading is refused as nonexistent exactly when no instant shows it; otherwise
  the answer is about the first instant that does, and its disclosure says whether a
  second one follows. */
  lemma DatedIsFirstShowing(z: Zone, reading: int, now: int, limits: Limits)
    requires Spaced(z)
    ensures var r := ResolveDated(z, reading, now, limits);
      && (r == DoesNotExist <==> forall u :: !Displays(z, u, reading))
      && (r != DoesNotExist ==> exists u :: FirstShowing(z, reading, u) && DatedAnswer(z, reading, u, r, now, limits))
  {
    ClassifyIsExact(z, reading);
    var first, second := Instant(z, reading, false), Instant(z, reading, true);
    if Classify(z, reading) != Imaginary {
      assert Displays(z, first, reading);
      if Classify(z, reading) == Ambiguous { assert Displays(z, second, reading); }
      assert FirstShowing(z, reading, first);
      assert DatedAnswer(z, reading, first, ResolveDated(z, reading, now, limits), now, limits);
    }
  }

  // --- The next occurrence of a clock time --------------------------------------------------------

  predicate IsClockTime(hour: nat, minute: nat) { hour <= 23 && minute <= 59 }

  function Reading(day: int, hour: nat, minute: nat): int { day * DAY + (hour * 60 + minute) * MINUTE }

  function LocalDay(z: Zone, u: int): int { LocalOf(z, u) / DAY }

  /** The earliest of the reading's fold instants after now. */
  function SelectCandidate(z: Zone, reading: int, now: int): Option<int> {
    var a, b := Instant(z, reading, false), Instant(z, reading, true);
    if Min(a, b) > now then Some(Min(a, b)) else if Max(a, b) > now then Some(Max(a, b)) else None
  }

  function NextOccurrence(z: Zone, hour: nat, minute: nat, now: int, limits: Limits): Resolution {
    if !IsClockTime(hour, minute) then NotAClockTime
    else
      var today := LocalDay(z, now);
      var first := SelectCandidate(z, Reading(today, hour, minute), now);
      var second := SelectCandidate(z, Reading(today + 1, hour, minute), now);
      if first.Some? then CheckHorizon(Evaluate(z, Reading(today, hour, minute), first), now, limits)
      else if second.Some? then CheckHorizon(Evaluate(z, Reading(today + 1, hour, minute), second), now, limits)
      else Unreachable
  }

  /** A reading later than the clock shows has a fold instant after now. */
  lemma LaterReadingHasCandidate(z: Zone, reading: int, now: int)
    requires Spaced(z) && LocalOf(z, now) < reading
    ensures SelectCandidate(z, reading, now).Some?
  {
    var n0, n1, k := WallCount(z, reading, false), WallCount(z, reading, true), Count(z, now);
    FoldsAdjacent(z, reading);
    if n1 < k {
      if n1 < k - 1 { WallsOrdered(z, n1, k - 1); }
      assert false;
    } else if k < n0 {
      if k < n0 - 1 { WallsOrdered(z, k, n0 - 1); }
      assert now < z.transitions[n0 - 1].at <= Instant(z, reading, false);
    }
  }

  /** What selection and evaluation agree on: acceptance is the least showing after now. */
  lemma CandidateIsLeast(z: Zone, reading: int, now: int)
    requires Spaced(z)
    ensures var c := SelectCandidate(z, reading, now);
      && (c.None? ==> forall u :: u > now ==> !Displays(z, u, reading))
      && (c.Some? ==> c.value > now)
      && (c.Some? && Classify(z, reading) != Imaginary ==>
            Displays(z, c.value, reading) && forall u :: now < u < c.value ==> !Displays(z, u, reading))
  {
    ClassifyIsExact(z, reading);
  }

  /** The refusal for want of a candidate never happens: tomorrow always has one. */
  lemma NextOccurrenceIsReachable(z: Zone, hour: nat, minute: nat, now: int, limits: Limits)
    requires Spaced(z)
    ensures NextOccurrence(z, hour, minute, now, limits) != Unreachable
  {
    if IsClockTime(hour, minute) {
      assert LocalOf(z, now) < Reading(LocalDay(z, now) + 1, hour, minute);
      LaterReadingHasCandidate(z, Reading(LocalDay(z, now) + 1, hour, minute), now);
    }
  }

  /** `due` is the least instant after now that shows this reading. */
  ghost predicate NextShowing(z: Zone, reading: int, now: int, due: int) {
    due > now && Displays(z, due, reading) && forall u :: now < u < due ==> !Displays(z, u, reading)
  }

  /** An accepted HH:MM is a genuine instant strictly after now that shows it: the least one
  on today's local date, or if today has none left the least one on tomorrow's. */
  lemma NextOccurrenceIsNext(z: Zone, hour: nat, minute: nat, now: int, limits: Limits)
    requires Spaced(z) && NextOccurrence(z, hour, minute, now, limits).Accepted?
    ensures var due := NextOccurrence(z, hour, minute, now, limits).due;
      var today := LocalDay(z, now);
      || NextShowing(z, Reading(today, hour, minute), now, due)
      || (NextShowing(z, Reading(today + 1, hour, minute), now, due)
          && forall u :: u > now ==> !Displays(z, u, Reading(today, hour, minute)))
  {
    var today := LocalDay(z, now);
    CandidateIsLeast(z, Reading(today, hour, minute), now);
    CandidateIsLeast(z, Reading(today + 1, hour, minute), now);
  }

  lemma ImaginaryIffUnshown(z: Zone, reading: int)
    requires Spaced(z)
    ensures Classify(z, reading) == Imaginary <==> forall u :: !Displays(z, u, reading)
  {
    ClassifyIsExact(z, reading);
    if Classify(z, reading) != Imaginary { assert Displays(z, Instant(z, reading, false), reading); }
  }

  /** It is refused as nonexistent exactly when the reading selected, today's if one of its
  fold instants is after now and tomorrow's if not, is shown by no instant. */
  lemma NextOccurrenceRefusal(z: Zone, hour: nat, minute: nat, now: int, limits: Limits)
    requires Spaced(z) && IsClockTime(hour, minute)
    ensures var today := Reading(LocalDay(z, now), hour, minute);
      var chosen := if Max(Instant(z, today, false), Instant(z, today, true)) > now then today else today + DAY;
      NextOccurrence(z, hour, minute, now, limits) == DoesNotExist <==> forall u :: !Displays(z, u, chosen)
  {
    var today := Reading(LocalDay(z, now), hour, minute);
    NextOccurrenceIsReachable(z, hour, minute, now, limits);
    NextDayReading(LocalDay(z, now), hour, minute);
    ImaginaryIffUnshown(z, today);
    ImaginaryIffUnshown(z, today + DAY);
  }

  lemma NextDayReading(day: int, hour: nat, minute: nat)
    ensures Reading(day + 1, hour, minute) == Reading(day, hour, minute) + DAY
  {
  }

  /** The reading asked for: today's while one of its fold instants is after now, or tomorrow's. */
  function AskedFor(z: Zone, hour: nat, minute: nat, now: int): int {
    var today := Reading(LocalDay(z, now), hour, minute);
    if Max(Instant(z, today, false), Instant(z, today, true)) > now then today else today + DAY
  }

  /** What is said of the occurrence chosen: whether the reading is shown once, and if twice,
  whether this is the first or the second time. */
  ghost predicate Disclosed(z: Zone, reading: int, due: int, d: Disclosure) {
    && (d == Plain <==> forall v :: Displays(z, v, reading) ==> v == due)
    && (d == FirstOfTwo <==> exists v :: v > due && Displays(z, v, reading))
    && (d == SecondOfTwo <==> exists v :: v < due && Displays(z, v, reading))
  }

  lemma EvaluateDiscloses(z: Zone, reading: int, now: int)
    requires Spaced(z) && Classify(z, reading) != Imaginary && SelectCandidate(z, reading, now).Some?
    ensures var due := SelectCandidate(z, reading, now).value;
      var r := Evaluate(z, reading, Some(due));
      r.Accepted? && r.due == due && Disclosed(z, reading, due, r.disclosure)
  {
    ClassifyIsExact(z, reading);
    CandidateIsLeast(z, reading, now);
    var a, b := Instant(z, reading, false), Instant(z, reading, true);
    if Classify(z, reading) == Ambiguous { assert Displays(z, a, reading) && Displays(z, b, reading); }
  }

  /** What the next occurrence first after now at `due` is answered with. */
  ghost predicate ClockAnswer(z: Zone, reading: int, now: int, due: int, r: Resolution, limits: Limits) {
    if due > now + limits.horizonDays * DAY then r == BeyondHorizon
    else r.Accepted? && r.due == due && Disclosed(z, reading, due, r.disclosure)
  }

  /** The answer to HH:MM in full: refused if it is no clock time or no instant shows the
  reading asked for; otherwise it is about the least instant after now that shows it,
  refused if that is beyond the horizon and else accepted, saying which of two it is. */
  lemma NextOccurrenceAnswers(z: Zone, hour: nat, minute: nat, now: int, limits: Limits)
    requires Spaced(z)
    ensures var r, reading := NextOccurrence(z, hour, minute, now, limits), AskedFor(z, hour, minute, now);
      && (r == NotAClockTime <==> hour > 23 || minute > 59)
      && (hour <= 23 && minute <= 59 ==>
            && (r == DoesNotExist <==> forall u :: !Displays(z, u, reading))
            && (r != DoesNotExist ==>
                  exists due :: NextShowing(z, reading, now, due) && ClockAnswer(z, reading, now, due, r, limits)))
  {
    if IsClockTime(hour, minute) {
      var reading := AskedFor(z, hour, minute, now);
      CandidateAskedFor(z, hour, minute, now, limits);
      ImaginaryIffUnshown(z, reading);
      var r, due := NextOccurrence(z, hour, minute, now, limits), SelectCandidate(z, reading, now).value;
      if Classify(z, reading) != Imaginary {
        EvaluateDiscloses(z, reading, now);
        CandidateIsLeast(z, reading, now);
        assert NextShowing(z, reading, now, due) && ClockAnswer(z, reading, now, due, r, limits);
      }
    }
  }

  lemma CandidateAskedFor(z: Zone, hour: nat, minute: nat, now: int, limits: Limits)
    requires Spaced(z) && IsClockTime(hour, minute)
    ensures var c := SelectCandidate(z, AskedFor(z, hour, minute, now), now);
      c.Some? && NextOccurrence(z, hour, minute, now, limits)
              == CheckHorizon(Evaluate(z, AskedFor(z, hour, minute, now), c), now, limits)
  {
    NextDayReading(LocalDay(z, now), hour, minute);
    NextOccurrenceIsReachable(z, hour, minute, now, limits);
  }
}
