/** The prior-handoff digest: `henk/agent/digest.py`, from the archive's rows to the text.

Row ids are the archive's primary key. How an instant is rendered is a parameter, as are a
handoff's related keys, which the archive stores with it.
*/
module Digest {
  import opened Common
  import opened Markers
  import opened Composition

  const DIGEST_MAX_ENTRIES := 4
  const DIGEST_ENTRY_MAX_CHARS := 1_200
  const DIGEST_RECURRENCE_MAX_CHARS := 4_000
  const DIGEST_MAX_CHARS := 8_000
  const RECENT_WINDOW_SECONDS := 21600.0
  const RECENT_MAX_ENTRIES := 2
  const IDENTITIES_MAX_CHARS := 240

  datatype Handoff = Handoff(id: int, published: real, identityKeys: seq<string>, ruleKeys: seq<string>,
                             nodes: seq<string>, document: string)

  datatype Context = Context(identityKeys: seq<string>, ruleKeys: seq<string>, nodes: seq<string>)

  datatype Relation = Recurrence | SameIdentity | SameRule | SameNode | SameWindow

  datatype Candidate = Candidate(handoff: Handoff, relation: Relation, structural: Option<Relation>, bound: nat)

  datatype Rendering = Rendering(published: real -> string, age: real -> string)

  datatype Result = Result(text: Option<string>, shown: seq<Candidate>, omitted: nat)

  const EMPTY_DIGEST := Result(None, [], 0)

  // --- Relations -----------------------------------------------------------------------------

  predicate Shares(a: seq<string>, b: seq<string>) { exists i :: 0 <= i < |a| && a[i] in b }

  function RelationOf(h: Handoff, ctx: Context): Option<Relation> {
    if Shares(h.identityKeys, ctx.identityKeys) then Some(SameIdentity)
    else if Shares(h.ruleKeys, ctx.ruleKeys) then Some(SameRule)
    else if Shares(h.nodes, ctx.nodes) then Some(SameNode)
    else None
  }

  function Rank(r: Relation): nat { if r == SameIdentity then 0 else if r == SameRule then 1 else 2 }

  predicate Newer(a: Handoff, b: Handoff) { a.published > b.published || (a.published == b.published && a.id > b.id) }

  /** A handoff with its best relation, as ranked. */
  datatype Related = Related(handoff: Handoff, relation: Relation)

  predicate RankedBefore(a: Related, b: Related) {
    || Rank(a.relation) < Rank(b.relation)
    || (Rank(a.relation) == Rank(b.relation) && Newer(a.handoff, b.handoff))
  }

  function InsertWith<T(==)>(before: (T, T) -> bool, x: T, xs: seq<T>): (r: seq<T>)
    ensures multiset(r) == multiset(xs) + multiset{x}
  {
    if xs == [] || before(x, xs[0]) then [x] + xs
    else
      assert xs == [xs[0]] + xs[1..];
      [xs[0]] + InsertWith(before, x, xs[1..])
  }

  function SortWith<T(==)>(before: (T, T) -> bool, xs: seq<T>): (r: seq<T>)
    ensures multiset(r) == multiset(xs)
  {
    if xs == [] then []
    else
      assert xs == [xs[0]] + xs[1..];
      InsertWith(before, xs[0], SortWith(before, xs[1..]))
  }

  // --- Counting ids ----------------------------------------------------------------------------

  function ToSet(xs: seq<int>): set<int> { set x | x in xs }

  ghost predicate Unique(xs: seq<int>) { forall i, j :: 0 <= i < j < |xs| ==> xs[i] != xs[j] }

  lemma SetAppend(xs: seq<int>, x: int)
    ensures ToSet(xs + [x]) == ToSet(xs) + {x}
  {
  }

  lemma SetConcat(a: seq<int>, b: seq<int>)
    ensures ToSet(a + b) == ToSet(a) + ToSet(b)
  {
  }

  /** A list has no repeats exactly when it is as long as its set. */
  lemma {:induction false} UniqueCounts(xs: seq<int>)
    ensures |ToSet(xs)| <= |xs|
    ensures Unique(xs) <==> |ToSet(xs)| == |xs|
  {
    if xs != [] {
      var front, x := xs[..|xs| - 1], xs[|xs| - 1];
      assert xs == front + [x];
      UniqueCounts(front);
      SetAppend(front, x);
      if x in front {
        assert ToSet(xs) == ToSet(front);
        var i :| 0 <= i < |front| && front[i] == x;
        assert xs[i] == xs[|xs| - 1];
      }
    } else {
      assert ToSet(xs) == {};
    }
  }

  /** Two lists that together are as long as their sets are repeat-free and disjoint. */
  lemma SplitUnique(a: seq<int>, b: seq<int>)
    requires |ToSet(a) + ToSet(b)| == |a| + |b|
    ensures Unique(a) && Unique(b) && ToSet(a) !! ToSet(b)
  {
    UniqueCounts(a);
    UniqueCounts(b);
    assert |ToSet(a) + ToSet(b)| == |ToSet(a)| + |ToSet(b)| - |ToSet(a) * ToSet(b)|;
    var common := ToSet(a) * ToSet(b);
    assert |common| == 0;
    forall x | x in ToSet(a) ensures x !in ToSet(b) {
      assert x in ToSet(b) ==> x in common;
    }
  }

  lemma JoinUnique(a: seq<int>, b: seq<int>)
    requires Unique(a) && Unique(b) && ToSet(a) !! ToSet(b)
    ensures Unique(a + b) && ToSet(a + b) == ToSet(a) + ToSet(b)
  {
    forall i, j | 0 <= i < j < |a + b| ensures (a + b)[i] != (a + b)[j] {
      if i < |a| <= j { assert a[i] in ToSet(a) && b[j - |a|] in ToSet(b); }
    }
  }

  function IdsOf(hs: seq<Handoff>): seq<int> { seq(|hs|, i requires 0 <= i < |hs| => hs[i].id) }

  function RelatedIds(rs: seq<Related>): seq<int> { seq(|rs|, i requires 0 <= i < |rs| => rs[i].handoff.id) }

  /** Same handoffs in another order: same ids, and as many. */
  lemma SameIds(a: seq<Handoff>, b: seq<Handoff>)
    requires multiset(a) == multiset(b)
    ensures ToSet(IdsOf(a)) == ToSet(IdsOf(b)) && |a| == |b|
  {
    assert |a| == |multiset(a)| && |b| == |multiset(b)|;
    forall x | x in ToSet(IdsOf(a)) ensures x in ToSet(IdsOf(b)) { Found(a, b, x); }
    forall x | x in ToSet(IdsOf(b)) ensures x in ToSet(IdsOf(a)) { Found(b, a, x); }
  }

  lemma Found(a: seq<Handoff>, b: seq<Handoff>, x: int)
    requires multiset(a) == multiset(b) && x in IdsOf(a)
    ensures x in IdsOf(b)
  {
    var i :| 0 <= i < |a| && IdsOf(a)[i] == x;
    assert a[i] in multiset(b);
    var j :| 0 <= j < |b| && b[j] == a[i];
    assert IdsOf(b)[j] == x;
  }

  // --- Selection -------------------------------------------------------------------------------

  /** One handoff per id, as a dictionary by id keeps. */
  function ById(hs: seq<Handoff>): (r: seq<Handoff>)
    ensures forall h :: h in r ==> h in hs
  {
    if hs == [] then []
    else
      var h := hs[|hs| - 1];
      assert hs == hs[..|hs| - 1] + [h];
      var rest := ById(hs[..|hs| - 1]);
      if h.id in IdsOf(rest) then rest else rest + [h]
  }

  lemma {:induction false} ByIdIsUnique(hs: seq<Handoff>)
    ensures Unique(IdsOf(ById(hs))) && ToSet(IdsOf(ById(hs))) == ToSet(IdsOf(hs))
  {
    if hs != [] {
      var front, h := hs[..|hs| - 1], hs[|hs| - 1];
      assert hs == front + [h];
      ByIdIsUnique(front);
      IdsAppend(front, h);
      IdsAppend(ById(front), h);
      SetAppend(IdsOf(front), h.id);
      SetAppend(IdsOf(ById(front)), h.id);
    }
  }

  lemma IdsAppend(hs: seq<Handoff>, h: Handoff)
    ensures IdsOf(hs + [h]) == IdsOf(hs) + [h.id]
  {
  }

  predicate InWindow(h: Handoff, now: real) { 0.0 <= now - h.published <= RECENT_WINDOW_SECONDS }

  function WindowOf(hs: seq<Handoff>, now: real, exclude: set<int>): (r: seq<Handoff>)
    ensures forall h :: h in r <==> h in hs && h.id !in exclude && InWindow(h, now)
  {
    if hs == [] then []
    else
      var h := hs[|hs| - 1];
      assert hs == hs[..|hs| - 1] + [h];
      var rest := WindowOf(hs[..|hs| - 1], now, exclude);
      if h.id !in exclude && InWindow(h, now) then rest + [h] else rest
  }

  lemma {:induction false} WindowIsUnique(hs: seq<Handoff>, now: real, exclude: set<int>)
    requires Unique(IdsOf(hs))
    ensures Unique(IdsOf(WindowOf(hs, now, exclude)))
  {
    if hs != [] {
      var front, h := hs[..|hs| - 1], hs[|hs| - 1];
      assert hs == front + [h];
      IdsAppend(front, h);
      assert Unique(IdsOf(front)) && h.id !in IdsOf(front) by { UniqueFront(IdsOf(front), h.id); }
      WindowIsUnique(front, now, exclude);
      var rest := WindowOf(front, now, exclude);
      IdsAppend(rest, h);
      forall i | 0 <= i < |rest| ensures IdsOf(rest)[i] != h.id {
        assert rest[i] in rest;
        var j :| 0 <= j < |front| && front[j] == rest[i];
        assert IdsOf(front)[j] == rest[i].id;
      }
    }
  }

  lemma UniqueFront(xs: seq<int>, x: int)
    requires Unique(xs + [x])
    ensures Unique(xs) && x !in xs
  {
    var all := xs + [x];
    forall i, j | 0 <= i < j < |xs| ensures xs[i] != xs[j] { assert all[i] != all[j]; }
    forall i | 0 <= i < |xs| ensures xs[i] != x { assert all[i] != all[|xs|]; }
  }

  datatype Placement = Placement(placed: seq<Handoff>, unplaced: seq<Handoff>)

  /** All of a short window; of a long one the newest and the oldest. */
  function PlaceOf(window: seq<Handoff>): (p: Placement)
    ensures multiset(p.placed + p.unplaced) == multiset(window)
    ensures |p.placed| <= RECENT_MAX_ENTRIES
  {
    var n := |window|;
    if n <= RECENT_MAX_ENTRIES then
      assert window + [] == window;
      Placement(window, [])
    else
      var middle := window[1..n - 1];
      assert window == [window[0]] + middle + [window[n - 1]];
      assert [window[0], window[n - 1]] + middle == [window[0]] + [window[n - 1]] + middle;
      Placement([window[0], window[n - 1]], middle)
  }

  function SameWindowOf(hs: seq<Handoff>, now: real, exclude: set<int>): (p: Placement)
    ensures multiset(p.placed + p.unplaced) == multiset(WindowOf(hs, now, exclude))
    ensures |p.placed| <= RECENT_MAX_ENTRIES
  {
    PlaceOf(SortWith(Newer, WindowOf(hs, now, exclude)))
  }

  ghost predicate NewestFirst(hs: seq<Handoff>) { forall i, j :: 0 <= i < j < |hs| ==> !Newer(hs[j], hs[i]) }

  lemma {:induction false} InsertKeepsNewestFirst(h: Handoff, hs: seq<Handoff>)
    requires NewestFirst(hs)
    ensures NewestFirst(InsertWith(Newer, h, hs))
  {
    if hs != [] && !Newer(h, hs[0]) {
      InsertKeepsNewestFirst(h, hs[1..]);
      var rest := InsertWith(Newer, h, hs[1..]);
      forall j | 0 <= j < |rest| ensures !Newer(rest[j], hs[0]) {
        assert rest[j] in multiset(rest);
        assert rest[j] == h || rest[j] in hs[1..];
      }
    }
  }

  lemma {:induction false} SortIsNewestFirst(hs: seq<Handoff>)
    ensures NewestFirst(SortWith(Newer, hs))
  {
    if hs != [] {
      SortIsNewestFirst(hs[1..]);
      InsertKeepsNewestFirst(hs[0], SortWith(Newer, hs[1..]));
    }
  }

  lemma EndsAreExtremes(window: seq<Handoff>, h: Handoff)
    requires NewestFirst(window) && h in window
    ensures (h == window[0] || !Newer(h, window[0])) && (h == window[|window| - 1] || !Newer(window[|window| - 1], h))
  {
  }

  /** Of a long window the first placed is the newest and the second the oldest. */
  lemma PlacedAreNewestAndOldest(hs: seq<Handoff>, now: real, exclude: set<int>, h: Handoff)
    requires h in WindowOf(hs, now, exclude) && |WindowOf(hs, now, exclude)| > RECENT_MAX_ENTRIES
    ensures var p := SameWindowOf(hs, now, exclude).placed;
      |p| == 2 && !Newer(h, p[0]) && !Newer(p[1], h)
  {
    var all := WindowOf(hs, now, exclude);
    var window := SortWith(Newer, all);
    SortIsNewestFirst(all);
    assert |window| == |multiset(window)| == |multiset(all)| == |all|;
    assert h in multiset(window);
    EndsAreExtremes(window, h);
  }

  function RelatedOf(hs: seq<Handoff>, ctx: Context, exclude: set<int>): (r: seq<Related>)
    ensures forall x :: x in r <==>
                x.handoff in hs && x.handoff.id !in exclude && RelationOf(x.handoff, ctx) == Some(x.relation)
  {
    if hs == [] then []
    else
      var h := hs[|hs| - 1];
      assert hs == hs[..|hs| - 1] + [h];
      var rest, relation := RelatedOf(hs[..|hs| - 1], ctx, exclude), RelationOf(h, ctx);
      if h.id !in exclude && relation.Some? then rest + [Related(h, relation.value)] else rest
  }

  function RankRelated(hs: seq<Handoff>, ctx: Context, exclude: set<int>): seq<Related> {
    SortWith(RankedBefore, RelatedOf(hs, ctx, exclude))
  }

  /** Those the structural ranking would not select. */
  function Unrelated(hs: seq<Handoff>, ctx: Context): (r: seq<Handoff>)
    ensures forall h :: h in r <==> h in hs && RelationOf(h, ctx).None?
  {
    if hs == [] then []
    else
      var h := hs[|hs| - 1];
      assert hs == hs[..|hs| - 1] + [h];
      var rest := Unrelated(hs[..|hs| - 1], ctx);
      if RelationOf(h, ctx).None? then rest + [h] else rest
  }

  lemma MemberId(hs: seq<Handoff>, h: Handoff)
    requires h in hs
    ensures h.id in IdsOf(hs)
  {
    var i :| 0 <= i < |hs| && hs[i] == h;
    assert IdsOf(hs)[i] == h.id;
  }

  lemma OneOfId(hs: seq<Handoff>, g: Handoff, h: Handoff)
    requires Unique(IdsOf(hs)) && g in hs && h in hs && g.id == h.id
    ensures g == h
  {
    var i :| 0 <= i < |hs| && hs[i] == g;
    var j :| 0 <= j < |hs| && hs[j] == h;
    assert IdsOf(hs)[i] == IdsOf(hs)[j];
  }

  lemma {:induction false} UnrelatedIsUnique(hs: seq<Handoff>, ctx: Context)
    requires Unique(IdsOf(hs))
    ensures Unique(IdsOf(Unrelated(hs, ctx)))
  {
    if hs != [] {
      var front, h := hs[..|hs| - 1], hs[|hs| - 1];
      assert hs == front + [h];
      IdsAppend(front, h);
      UniqueFront(IdsOf(front), h.id);
      UnrelatedIsUnique(front, ctx);
      var rest := Unrelated(front, ctx);
      IdsAppend(rest, h);
      forall i | 0 <= i < |rest| ensures IdsOf(rest)[i] != h.id { MemberId(front, rest[i]); }
    }
  }

  lemma {:induction false} RelatedIsUnique(hs: seq<Handoff>, ctx: Context, exclude: set<int>)
    requires Unique(IdsOf(hs))
    ensures Unique(RelatedIds(RelatedOf(hs, ctx, exclude)))
  {
    if hs != [] {
      var front, h := hs[..|hs| - 1], hs[|hs| - 1];
      assert hs == front + [h];
      IdsAppend(front, h);
      UniqueFront(IdsOf(front), h.id);
      RelatedIsUnique(front, ctx, exclude);
      var rest, relation := RelatedOf(front, ctx, exclude), RelationOf(h, ctx);
      forall i | 0 <= i < |rest| ensures RelatedIds(rest)[i] != h.id {
        assert rest[i] in rest;
        MemberId(front, rest[i].handoff);
      }
      if h.id !in exclude && relation.Some? {
        assert RelatedIds(rest + [Related(h, relation.value)]) == RelatedIds(rest) + [h.id];
      }
    }
  }

  lemma RelatedFound(a: seq<Related>, b: seq<Related>, x: int)
    requires multiset(a) == multiset(b) && x in RelatedIds(a)
    ensures x in RelatedIds(b)
  {
    var i :| 0 <= i < |a| && RelatedIds(a)[i] == x;
    assert a[i] in multiset(b);
    var j :| 0 <= j < |b| && b[j] == a[i];
    assert RelatedIds(b)[j] == x;
  }

  /** Ranking reorders and loses nothing. */
  lemma RankedIsUnique(hs: seq<Handoff>, ctx: Context, exclude: set<int>)
    requires Unique(IdsOf(hs))
    ensures var ids := RelatedIds(RankRelated(hs, ctx, exclude));
      Unique(ids) && ToSet(ids) == ToSet(RelatedIds(RelatedOf(hs, ctx, exclude)))
  {
    var a, b := RankRelated(hs, ctx, exclude), RelatedOf(hs, ctx, exclude);
    RelatedIsUnique(hs, ctx, exclude);
    forall x ensures x in ToSet(RelatedIds(a)) <==> x in ToSet(RelatedIds(b)) {
      if x in RelatedIds(a) { RelatedFound(a, b, x); }
      if x in RelatedIds(b) { RelatedFound(b, a, x); }
    }
    assert ToSet(RelatedIds(a)) == ToSet(RelatedIds(b));
    assert |a| == |multiset(a)| == |multiset(b)| == |b|;
    UniqueCounts(RelatedIds(b));
    UniqueCounts(RelatedIds(a));
  }

  lemma SplitsWindow(p: Placement, window: seq<Handoff>)
    requires multiset(p.placed + p.unplaced) == multiset(window) && Unique(IdsOf(window))
    ensures Unique(IdsOf(p.placed)) && Unique(IdsOf(p.unplaced)) && ToSet(IdsOf(p.placed)) !! ToSet(IdsOf(p.unplaced))
    ensures ToSet(IdsOf(p.placed)) + ToSet(IdsOf(p.unplaced)) == ToSet(IdsOf(window))
  {
    SameIds(p.placed + p.unplaced, window);
    assert IdsOf(p.placed + p.unplaced) == IdsOf(p.placed) + IdsOf(p.unplaced);
    SetConcat(IdsOf(p.placed), IdsOf(p.unplaced));
    UniqueCounts(IdsOf(window));
    SplitUnique(IdsOf(p.placed), IdsOf(p.unplaced));
  }

  /** The placed and the unplaced are the window, with no repeats and nothing in common. */
  lemma PlacementSplits(hs: seq<Handoff>, now: real, exclude: set<int>)
    requires Unique(IdsOf(hs))
    ensures var p := SameWindowOf(hs, now, exclude);
      && Unique(IdsOf(p.placed)) && Unique(IdsOf(p.unplaced)) && ToSet(IdsOf(p.placed)) !! ToSet(IdsOf(p.unplaced))
      && ToSet(IdsOf(p.placed)) + ToSet(IdsOf(p.unplaced)) == ToSet(IdsOf(WindowOf(hs, now, exclude)))
  {
    WindowIsUnique(hs, now, exclude);
    SplitsWindow(SameWindowOf(hs, now, exclude), WindowOf(hs, now, exclude));
  }

  // --- What a read selects -----------------------------------------------------------------------

  datatype Selection = Selection(reference: Option<Handoff>, placed: seq<Handoff>, related: seq<Related>, extraOmitted: nat)

  function Excluded(reference: Option<Handoff>): set<int> { if reference.Some? then {reference.value.id} else {} }

  function Select(reference: Option<Handoff>, hs: seq<Handoff>, ctx: Context, now: real): Selection {
    var p := SameWindowOf(hs, now, Excluded(reference));
    Selection(reference, p.placed, RankRelated(hs, ctx, Excluded(reference) + ToSet(IdsOf(p.placed))),
              |Unrelated(p.unplaced, ctx)|)
  }

  predicate Qualifies(h: Handoff, ctx: Context, now: real) { InWindow(h, now) || RelationOf(h, ctx).Some? }

  /** The distinct handoffs that are the reference, structurally related or in the window. */
  function EligibleIds(reference: Option<Handoff>, hs: seq<Handoff>, ctx: Context, now: real): set<int> {
    Excluded(reference)
    + set i | 0 <= i < |hs| && hs[i].id !in Excluded(reference) && Qualifies(hs[i], ctx, now) :: hs[i].id
  }

  function ReferenceIds(reference: Option<Handoff>): seq<int> { if reference.Some? then [reference.value.id] else [] }

  function SelectedIds(s: Selection): seq<int> {
    ReferenceIds(s.reference) + IdsOf(s.placed) + RelatedIds(s.related)
  }

  lemma IdOfMember(hs: seq<Handoff>, x: int) returns (h: Handoff)
    requires x in IdsOf(hs)
    ensures h in hs && h.id == x
  {
    var i :| 0 <= i < |hs| && IdsOf(hs)[i] == x;
    h := hs[i];
  }

  lemma RelatedOfId(rs: seq<Related>, x: int) returns (r: Related)
    requires x in RelatedIds(rs)
    ensures r in rs && r.handoff.id == x
  {
    var i :| 0 <= i < |rs| && RelatedIds(rs)[i] == x;
    r := rs[i];
  }

  /** Which ids the ranking holds. */
  lemma RelatedMembers(hs: seq<Handoff>, ctx: Context, exclude: set<int>, x: int)
    ensures x in RelatedIds(RankRelated(hs, ctx, exclude)) <==>
              exists h :: h in hs && h.id == x && x !in exclude && RelationOf(h, ctx).Some?
  {
    var a, b := RankRelated(hs, ctx, exclude), RelatedOf(hs, ctx, exclude);
    if x in RelatedIds(a) {
      RelatedFound(a, b, x);
      var r := RelatedOfId(b, x);
    }
    if h :| h in hs && h.id == x && x !in exclude && RelationOf(h, ctx).Some? {
      var r := Related(h, RelationOf(h, ctx).value);
      assert r in b;
      var i :| 0 <= i < |b| && b[i] == r;
      assert RelatedIds(b)[i] == x;
      RelatedFound(b, a, x);
    }
  }

  lemma SelectedAreUnique(reference: Option<Handoff>, hs: seq<Handoff>, ctx: Context, now: real)
    requires Unique(IdsOf(hs))
    ensures Unique(SelectedIds(Select(reference, hs, ctx, now)))
  {
    var p := SameWindowOf(hs, now, Excluded(reference));
    PlacementSplits(hs, now, Excluded(reference));
    PlacedInWindow(hs, now, Excluded(reference));
    var taken := Excluded(reference) + ToSet(IdsOf(p.placed));
    RankedIsUnique(hs, ctx, taken);
    var ranked := RelatedIds(RankRelated(hs, ctx, taken));
    forall x ensures x in ToSet(ranked) ==> x !in taken { RelatedMembers(hs, ctx, taken, x); }
    assert forall x :: x in ReferenceIds(reference) <==> x in Excluded(reference);
    assert forall x :: x in IdsOf(p.placed) <==> x in ToSet(IdsOf(p.placed));
    assert forall x :: x in ranked <==> x in ToSet(ranked);
    JoinThree(ReferenceIds(reference), IdsOf(p.placed), ranked);
  }

  lemma JoinThree(a: seq<int>, b: seq<int>, c: seq<int>)
    requires Unique(a) && Unique(b) && Unique(c) && ToSet(a) !! ToSet(b) && forall x :: x in c ==> x !in a && x !in b
    ensures Unique(a + b + c)
  {
    JoinUnique(a, b);
    forall x | x in ToSet(a + b) ensures x !in ToSet(c) { assert x in a || x in b; }
    JoinUnique(a + b, c);
  }

  /** The four parts of a selection have no handoff in common. */
  lemma SelectionDisjoint(reference: Option<Handoff>, hs: seq<Handoff>, ctx: Context, now: real)
    requires Unique(IdsOf(hs))
    ensures var s := Select(reference, hs, ctx, now);
      var rest := IdsOf(Unrelated(SameWindowOf(hs, now, Excluded(reference)).unplaced, ctx));
      && Unique(SelectedIds(s)) && Unique(rest) && ToSet(SelectedIds(s)) !! ToSet(rest)
  {
    var p := SameWindowOf(hs, now, Excluded(reference));
    SelectedAreUnique(reference, hs, ctx, now);
    PlacementSplits(hs, now, Excluded(reference));
    UnrelatedIsUnique(p.unplaced, ctx);
    forall x | x in ToSet(IdsOf(Unrelated(p.unplaced, ctx)))
      ensures x !in ToSet(SelectedIds(Select(reference, hs, ctx, now)))
    {
      UnrelatedNotSelected(reference, hs, ctx, now, x);
    }
  }

  lemma PlacedInWindow(hs: seq<Handoff>, now: real, exclude: set<int>)
    ensures forall h :: h in SameWindowOf(hs, now, exclude).placed + SameWindowOf(hs, now, exclude).unplaced ==>
                h in hs && h.id !in exclude && InWindow(h, now)
    ensures forall x :: x in IdsOf(SameWindowOf(hs, now, exclude).placed) ==> x !in exclude
  {
    var p := SameWindowOf(hs, now, exclude);
    forall h | h in p.placed + p.unplaced ensures h in WindowOf(hs, now, exclude) {
      assert h in multiset(p.placed + p.unplaced);
    }
    forall x | x in IdsOf(p.placed) ensures x !in exclude {
      var h := IdOfMember(p.placed, x);
      assert h in p.placed + p.unplaced;
    }
  }

  lemma UnrelatedNotSelected(reference: Option<Handoff>, hs: seq<Handoff>, ctx: Context, now: real, x: int)
    requires Unique(IdsOf(hs))
    requires x in IdsOf(Unrelated(SameWindowOf(hs, now, Excluded(reference)).unplaced, ctx))
    ensures x !in SelectedIds(Select(reference, hs, ctx, now))
  {
    var p := SameWindowOf(hs, now, Excluded(reference));
    PlacementSplits(hs, now, Excluded(reference));
    PlacedInWindow(hs, now, Excluded(reference));
    var h := IdOfMember(Unrelated(p.unplaced, ctx), x);
    MemberId(p.unplaced, h);
    assert h in p.placed + p.unplaced && x in ToSet(IdsOf(p.unplaced));
    RelatedMembers(hs, ctx, Excluded(reference) + ToSet(IdsOf(p.placed)), x);
    forall g | g in hs && g.id == x ensures RelationOf(g, ctx).None? { OneOfId(hs, g, h); }
  }

  /** Selected and left out together are exactly the eligible handoffs. */
  lemma SelectionIsEligible(reference: Option<Handoff>, hs: seq<Handoff>, ctx: Context, now: real)
    requires Unique(IdsOf(hs))
    ensures ToSet(SelectedIds(Select(reference, hs, ctx, now)))
            + ToSet(IdsOf(Unrelated(SameWindowOf(hs, now, Excluded(reference)).unplaced, ctx)))
         == EligibleIds(reference, hs, ctx, now)
  {
    var s, p := Select(reference, hs, ctx, now), SameWindowOf(hs, now, Excluded(reference));
    var rest := Unrelated(p.unplaced, ctx);
    forall x ensures x in ToSet(SelectedIds(s)) + ToSet(IdsOf(rest)) <==> x in EligibleIds(reference, hs, ctx, now) {
      EligibleIffSelected(reference, hs, ctx, now, x);
    }
  }

  lemma EligibleIffSelected(reference: Option<Handoff>, hs: seq<Handoff>, ctx: Context, now: real, x: int)
    requires Unique(IdsOf(hs))
    ensures x in EligibleIds(reference, hs, ctx, now) <==>
              x in SelectedIds(Select(reference, hs, ctx, now))
              || x in IdsOf(Unrelated(SameWindowOf(hs, now, Excluded(reference)).unplaced, ctx))
  {
    var s, p := Select(reference, hs, ctx, now), SameWindowOf(hs, now, Excluded(reference));
    var rest := Unrelated(p.unplaced, ctx);
    PlacementSplits(hs, now, Excluded(reference));
    PlacedInWindow(hs, now, Excluded(reference));
    RelatedMembers(hs, ctx, Excluded(reference) + ToSet(IdsOf(p.placed)), x);
    if x in EligibleIds(reference, hs, ctx, now) && x !in Excluded(reference) {
      EligibleIsSelected(reference, hs, ctx, now, x);
    }
    if x in IdsOf(p.placed) {
      var h := IdOfMember(p.placed, x);
      assert h in p.placed + p.unplaced;
    }
    if x in IdsOf(rest) {
      var h := IdOfMember(rest, x);
      assert h in p.placed + p.unplaced;
    }
  }

  lemma EligibleIsSelected(reference: Option<Handoff>, hs: seq<Handoff>, ctx: Context, now: real, x: int)
    requires Unique(IdsOf(hs)) && x in EligibleIds(reference, hs, ctx, now) && x !in Excluded(reference)
    ensures x in SelectedIds(Select(reference, hs, ctx, now))
         || x in IdsOf(Unrelated(SameWindowOf(hs, now, Excluded(reference)).unplaced, ctx))
  {
    var p := SameWindowOf(hs, now, Excluded(reference));
    var i :| 0 <= i < |hs| && hs[i].id == x && Qualifies(hs[i], ctx, now);
    var h := hs[i];
    assert h in hs;
    PlacementSplits(hs, now, Excluded(reference));
    RelatedMembers(hs, ctx, Excluded(reference) + ToSet(IdsOf(p.placed)), x);
    if x !in IdsOf(p.placed) && RelationOf(h, ctx).None? {
      MemberId(WindowOf(hs, now, Excluded(reference)), h);
      assert x in ToSet(IdsOf(p.unplaced));
      var g := IdOfMember(p.unplaced, x);
      PlacedInWindow(hs, now, Excluded(reference));
      assert g in p.placed + p.unplaced;
      OneOfId(hs, g, h);
      MemberId(Unrelated(p.unplaced, ctx), g);
    }
  }

  /** What will be tried, plus what was left out beforehand, counts each eligible handoff once. */
  lemma SelectionCounts(reference: Option<Handoff>, hs: seq<Handoff>, ctx: Context, now: real)
    requires Unique(IdsOf(hs))
    ensures var s := Select(reference, hs, ctx, now);
      Unique(SelectedIds(s)) && |SelectedIds(s)| + s.extraOmitted == |EligibleIds(reference, hs, ctx, now)|
  {
    var s := Select(reference, hs, ctx, now);
    var rest := IdsOf(Unrelated(SameWindowOf(hs, now, Excluded(reference)).unplaced, ctx));
    SelectionDisjoint(reference, hs, ctx, now);
    SelectionIsEligible(reference, hs, ctx, now);
    UniqueCounts(SelectedIds(s));
    UniqueCounts(rest);
    assert |ToSet(SelectedIds(s)) + ToSet(rest)| == |ToSet(SelectedIds(s))| + |ToSet(rest)|;
  }
}
