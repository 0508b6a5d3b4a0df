/** Wall-clock readings of a time zone, and `classify_local` of `henk/reminders/timeparse.py`.

A zone is a list of transitions between UTC offsets. Instants and readings are counted in
microseconds, the resolution of a date-time. `UtcOffset` gives a reading's offset under
each fold the way PEP 495 ("In the DST Fold", "Mind the DST Gap") requires of a zone.
*/
module TimeZones {

  datatype Transition = Transition(at: int, offset: int)

  /** `offset` is the offset before the first transition. */
  datatype Zone = Zone(offset: int, transitions: seq<Transition>)

  function Min(a: int, b: int): int { if b < a then b else a }

  function Max(a: int, b: int): int { if a < b then b else a }

  function Abs(a: int): nat { if a < 0 then -a else a }

  /** The offset in force once the first `n` transitions have happened. */
  function Off(z: Zone, n: nat): int
    requires n <= |z.transitions|
  {
    if n == 0 then z.offset else z.transitions[n - 1].offset
  }

  function Jump(z: Zone, n: nat): int
    requires n < |z.transitions|
  {
    Off(z, n + 1) - Off(z, n)
  }

  predicate Apart(z: Zone, n: nat)
    requires n + 1 < |z.transitions|
  {
    && z.transitions[n].at < z.transitions[n + 1].at
    && z.transitions[n].at + Abs(Jump(z, n)) + Abs(Jump(z, n + 1)) <= z.transitions[n + 1].at
  }

  /** Neighbouring transitions lie at least the sum of their jumps apart. */
  ghost predicate Spaced(z: Zone) {
    forall n: nat :: n + 1 < |z.transitions| ==> Apart(z, n)
  }

  // --- From an instant to a reading --------------------------------------------------------

  /** How many transitions have happened at `u`, of the first `n`. */
  function CountTo(z: Zone, u: int, n: nat): (c: nat)
    requires n <= |z.transitions|
    ensures c <= n
    ensures c > 0 ==> z.transitions[c - 1].at <= u
    ensures c < n ==> u < z.transitions[c].at
  {
    if n == 0 then 0
    else if z.transitions[n - 1].at <= u then n
    else CountTo(z, u, n - 1)
  }

  function Count(z: Zone, u: int): (c: nat)
    ensures c <= |z.transitions|
  {
    CountTo(z, u, |z.transitions|)
  }

  function OffsetAt(z: Zone, u: int): int { Off(z, Count(z, u)) }

  function LocalOf(z: Zone, u: int): int { u + OffsetAt(z, u) }

  predicate Displays(z: Zone, u: int, reading: int) { LocalOf(z, u) == reading }

  // --- From a reading to instants ----------------------------------------------------------

  /** The reading from which the new offset applies under each fold: after the whole jump
  for fold 0, before it for fold 1. */
  function Wall(z: Zone, n: nat, fold: bool): int
    requires n < |z.transitions|
  {
    z.transitions[n].at + if fold then Min(Off(z, n), Off(z, n + 1)) else Max(Off(z, n), Off(z, n + 1))
  }

  function WallCountTo(z: Zone, reading: int, fold: bool, n: nat): (c: nat)
    requires n <= |z.transitions|
    ensures c <= n
    ensures c > 0 ==> Wall(z, c - 1, fold) <= reading
    ensures c < n ==> reading < Wall(z, c, fold)
  {
    if n == 0 then 0
    else if Wall(z, n - 1, fold) <= reading then n
    else WallCountTo(z, reading, fold, n - 1)
  }

  function WallCount(z: Zone, reading: int, fold: bool): (c: nat)
    ensures c <= |z.transitions|
  {
    WallCountTo(z, reading, fold, |z.transitions|)
  }

  function UtcOffset(z: Zone, reading: int, fold: bool): int { Off(z, WallCount(z, reading, fold)) }

  function Instant(z: Zone, reading: int, fold: bool): int { reading - UtcOffset(z, reading, fold) }

  // --- Classification ------------------------------------------------------------------------

  datatype Kind = Normal | Imaginary | Ambiguous

  /** Two steps: do the folds differ, and does fold 0 survive the trip through UTC. */
  function Classify(z: Zone, reading: int): Kind {
    if UtcOffset(z, reading, false) == UtcOffset(z, reading, true) then Normal
    else if LocalOf(z, Instant(z, reading, false)) == reading then Ambiguous
    else Imaginary
  }

  /** Walls come in order: each transition's fold-0 wall is at most every later fold-1 wall. */
  lemma {:induction false} WallsOrdered(z: Zone, i: nat, j: nat)
    requires Spaced(z) && i < j < |z.transitions|
    ensures Wall(z, i, false) <= Wall(z, j, true) && z.transitions[i].at < z.transitions[j].at
    decreases j - i
  {
    assert Apart(z, j - 1);
    if i + 1 < j { WallsOrdered(z, i, j - 1); }
  }

  /** The instant after `n` transitions that would show `reading` exists. */
  predicate ShownAfter(z: Zone, reading: int, n: nat)
    requires n <= |z.transitions|
  {
    && (n > 0 ==> z.transitions[n - 1].at <= reading - Off(z, n))
    && (n < |z.transitions| ==> reading - Off(z, n) < z.transitions[n].at)
  }

  lemma CountIs(z: Zone, u: int, n: nat)
    requires Spaced(z) && n <= |z.transitions|
    requires n > 0 ==> z.transitions[n - 1].at <= u
    requires n < |z.transitions| ==> u < z.transitions[n].at
    ensures Count(z, u) == n
  {
    var c := Count(z, u);
    if c < n && c < n - 1 { WallsOrdered(z, c, n - 1); }
    if n < c && n < c - 1 { WallsOrdered(z, n, c - 1); }
  }

  /** The instants showing a reading are exactly one for each place it is shown. */
  lemma DisplaysIffShown(z: Zone, u: int, reading: int)
    requires Spaced(z)
    ensures Displays(z, u, reading) <==>
              exists n: nat :: n <= |z.transitions| && ShownAfter(z, reading, n) && u == reading - Off(z, n)
  {
    if Displays(z, u, reading) {
      assert ShownAfter(z, reading, Count(z, u));
    }
    if n: nat :| n <= |z.transitions| && ShownAfter(z, reading, n) && u == reading - Off(z, n) {
      CountIs(z, u, n);
    }
  }

  /** The two fold counts differ by at most the one transition the reading falls in. */
  lemma FoldsAdjacent(z: Zone, reading: int)
    requires Spaced(z)
    ensures var n0, n1 := WallCount(z, reading, false), WallCount(z, reading, true);
      n0 <= n1 <= n0 + 1
  {
    var n0, n1 := WallCount(z, reading, false), WallCount(z, reading, true);
    if n1 < n0 && n1 < n0 - 1 { WallsOrdered(z, n1, n0 - 1); }
    if n0 + 1 < n1 { WallsOrdered(z, n0, n1 - 1); }
  }

  /** A reading is shown only between the two fold counts. */
  lemma ShownOnlyAtFolds(z: Zone, reading: int, n: nat)
    requires Spaced(z) && n <= |z.transitions| && ShownAfter(z, reading, n)
    ensures n == WallCount(z, reading, false) || n == WallCount(z, reading, true)
  {
    var n0, n1 := WallCount(z, reading, false), WallCount(z, reading, true);
    FoldsAdjacent(z, reading);
    if n < n0 {
      assert reading < Wall(z, n, false);
      if n < n0 - 1 { WallsOrdered(z, n, n0 - 1); }
      assert false;
    }
    if n > n1 {
      assert Wall(z, n - 1, true) <= reading;
      if n1 < n - 1 { WallsOrdered(z, n1, n - 1); }
      assert false;
    }
  }

  /** Whether the reading is shown before, and after, the transition it falls in. */
  lemma ShownAtFolds(z: Zone, reading: int)
    requires Spaced(z)
    ensures var n0, n1 := WallCount(z, reading, false), WallCount(z, reading, true);
      && (n0 == n1 ==> ShownAfter(z, reading, n0))
      && (n0 < n1 ==> Jump(z, n0) != 0)
      && (n0 < n1 ==> (ShownAfter(z, reading, n0) <==> Jump(z, n0) < 0))
      && (n0 < n1 ==> (ShownAfter(z, reading, n1) <==> Jump(z, n0) < 0))
  {
    var n0, n1 := WallCount(z, reading, false), WallCount(z, reading, true);
    FoldsAdjacent(z, reading);
    if n0 < n1 {
      if n0 > 0 { WallsOrdered(z, n0 - 1, n0); }
      if n1 < |z.transitions| { WallsOrdered(z, n0, n1); }
    }
  }

  /** `classify_local` is exact: a reading is normal, imaginary or ambiguous exactly when one,
  no, or two instants show it. In the ambiguous case fold 0 is the earlier of the two; in
  the imaginary case fold 0 is the later pseudo-instant. */
  lemma ClassifyIsExact(z: Zone, reading: int)
    requires Spaced(z)
    ensures var first, second := Instant(z, reading, false), Instant(z, reading, true);
      match Classify(z, reading)
      case Normal => first == second && forall u :: Displays(z, u, reading) <==> u == first
      case Ambiguous => first < second && forall u :: Displays(z, u, reading) <==> u == first || u == second
      case Imaginary => second < first && forall u :: !Displays(z, u, reading)
  {
    var n0, n1 := WallCount(z, reading, false), WallCount(z, reading, true);
    FoldsAdjacent(z, reading);
    ShownAtFolds(z, reading);
    forall u ensures Displays(z, u, reading) <==>
        (ShownAfter(z, reading, n0) && u == reading - Off(z, n0)) || (ShownAfter(z, reading, n1) && u == reading - Off(z, n1))
    {
      DisplaysIffShown(z, u, reading);
      if n: nat :| n <= |z.transitions| && ShownAfter(z, reading, n) && u == reading - Off(z, n) {
        ShownOnlyAtFolds(z, reading, n);
      }
    }
    assert Displays(z, Instant(z, reading, false), reading) <==> ShownAfter(z, reading, n0);
  }
}
