/** What the prior-handoff digest shows and in what order: the ranking, and the greedy fill read
off its result (`rank_related`, `_fill` and `render_digest` of `henk/agent/digest.py`). */
module DigestLaws {
  import opened Common
  import opened Markers
  import opened Composition
  import opened Digest
  import opened DigestText

  // --- Ranking -----------------------------------------------------------------------------

  /** Shares an identity; failing that a rule; failing that a node: the best is what it is. */
  lemma BestRelation(h: Handoff, ctx: Context)
    ensures RelationOf(h, ctx) == Some(SameIdentity) <==> exists k :: k in h.identityKeys && k in ctx.identityKeys
    ensures RelationOf(h, ctx) == Some(SameRule) <==>
              && !(exists k :: k in h.identityKeys && k in ctx.identityKeys) && exists k :: k in h.ruleKeys && k in ctx.ruleKeys
    ensures RelationOf(h, ctx) == Some(SameNode) <==>
              && !(exists k :: k in h.identityKeys && k in ctx.identityKeys)
              && !(exists k :: k in h.ruleKeys && k in ctx.ruleKeys) && exists k :: k in h.nodes && k in ctx.nodes
    ensures RelationOf(h, ctx) in {None, Some(SameIdentity), Some(SameRule), Some(SameNode)}
  {
    SharesIs(h.identityKeys, ctx.identityKeys);
    SharesIs(h.ruleKeys, ctx.ruleKeys);
    SharesIs(h.nodes, ctx.nodes);
  }

  lemma SharesIs(a: seq<string>, b: seq<string>)
    ensures Shares(a, b) <==> exists k :: k in a && k in b
  {
    if k :| k in a && k in b { var i :| 0 <= i < |a| && a[i] == k; }
  }

  /** Better related, or as well related and not older, and of equals in time the later row. */
  predicate NotAfter(a: Related, b: Related) {
    || (a.relation == SameIdentity && b.relation != SameIdentity)
    || (a.relation == SameRule && b.relation == SameNode)
    || (a.relation == b.relation && (a.handoff.published > b.handoff.published
                                     || (a.handoff.published == b.handoff.published && a.handoff.id >= b.handoff.id)))
  }

  predicate Structural(x: Related) { x.relation in {SameIdentity, SameRule, SameNode} }

  ghost predicate InRank(xs: seq<Related>) { forall i, j :: 0 <= i < j < |xs| ==> NotAfter(xs[i], xs[j]) }

  lemma RankFirst(x: Related, xs: seq<Related>)
    requires InRank(xs) && xs != [] && Structural(x) && (forall y :: y in xs ==> Structural(y)) && RankedBefore(x, xs[0])
    ensures InRank([x] + xs)
  {
    assert xs[0] in xs;
    forall j | 0 <= j < |xs| ensures NotAfter(x, xs[j]) {
      assert xs[j] in xs;
      if j > 0 { assert NotAfter(xs[0], xs[j]); }
    }
  }

  lemma RankRest(first: Related, x: Related, xs: seq<Related>, rest: seq<Related>)
    requires InRank([first] + xs) && InRank(rest) && multiset(rest) == multiset(xs) + multiset{x} && NotAfter(first, x)
    ensures InRank([first] + rest)
  {
    forall j | 0 <= j < |rest| ensures NotAfter(first, rest[j]) {
      assert rest[j] in multiset(rest);
      if rest[j] != x {
        assert rest[j] in xs;
        var k :| 0 <= k < |xs| && xs[k] == rest[j];
        assert ([first] + xs)[0] == first && ([first] + xs)[k + 1] == rest[j];
      }
    }
  }

  lemma {:induction false} InsertInRank(x: Related, xs: seq<Related>)
    requires InRank(xs) && Structural(x) && forall y :: y in xs ==> Structural(y)
    ensures InRank(InsertWith(RankedBefore, x, xs))
  {
    if xs != [] {
      assert xs[0] in xs && xs == [xs[0]] + xs[1..];
      if RankedBefore(x, xs[0]) {
        RankFirst(x, xs);
      } else {
        InsertInRank(x, xs[1..]);
        RankRest(xs[0], x, xs[1..], InsertWith(RankedBefore, x, xs[1..]));
      }
    }
  }

  lemma {:induction false} SortInRank(xs: seq<Related>)
    requires forall y :: y in xs ==> Structural(y)
    ensures InRank(SortWith(RankedBefore, xs))
  {
    if xs != [] {
      SortInRank(xs[1..]);
      var rest := SortWith(RankedBefore, xs[1..]);
      forall y | y in rest ensures Structural(y) { assert y in multiset(rest); assert y in xs[1..]; }
      InsertInRank(xs[0], rest);
    }
  }

  /** The ranked rest: all that is structurally related and not excluded, the better relation
  first, and within one relation the newest first. */
  lemma RankedInOrder(hs: seq<Handoff>, ctx: Context, exclude: set<int>)
    ensures var r := RankRelated(hs, ctx, exclude);
      && InRank(r)
      && forall x :: x in r <==> x.handoff in hs && x.handoff.id !in exclude && RelationOf(x.handoff, ctx) == Some(x.relation)
  {
    var all, r := RelatedOf(hs, ctx, exclude), RankRelated(hs, ctx, exclude);
    forall y | y in all ensures Structural(y) { BestRelation(y.handoff, ctx); }
    SortInRank(all);
    forall x ensures x in r <==> x in all { assert x in r <==> x in multiset(r); assert x in all <==> x in multiset(all); }
  }

  /** The recent window: published at most six hours before now, that instant included, and not
  after it; the reference is never in it. */
  lemma WindowIs(hs: seq<Handoff>, now: real, exclude: set<int>)
    ensures forall h :: h in WindowOf(hs, now, exclude) <==>
                h in hs && h.id !in exclude && h.published <= now && now <= h.published + 6.0 * 3600.0
  {
  }

  // --- The fill ------------------------------------------------------------------------------

  /** Entries as written, numbered from one. */
  function Written(shown: seq<Candidate>, w: Writer): string {
    if shown == [] then PRIOR_HANDOFFS_HEADER
    else Written(shown[..|shown| - 1], w) + w.entry(|shown|, shown[|shown| - 1])
  }

  predicate Rising(at: seq<nat>) { forall i, j :: 0 <= i < j < |at| ==> at[i] < at[j] }

  /** Candidate `k` comes after the first `n` shown and before the next. */
  predicate ComesAfter(at: seq<nat>, k: nat, n: nat) {
    n <= |at| && (n > 0 ==> at[n - 1] < k) && (n < |at| ==> k < at[n])
  }

  /** At its turn four were shown, or its entry was too long for what was left. */
  ghost predicate PassedOver(cands: seq<Candidate>, w: Writer, max: nat, reserve: nat, at: seq<nat>, shown: seq<Candidate>, k: nat)
    requires k < |cands|
  {
    exists n: nat ::
      && n <= |shown| && ComesAfter(at, k, n)
      && (n >= DIGEST_MAX_ENTRIES || |Written(shown[..n], w)| + reserve + |w.entry(n + 1, cands[k])| > max)
  }

  /** `shown` are the candidates at the positions `at`, in their order, and fit. */
  ghost predicate Fits(cands: seq<Candidate>, w: Writer, max: nat, reserve: nat, shown: seq<Candidate>, at: seq<nat>) {
    && Rising(at) && |at| == |shown| <= DIGEST_MAX_ENTRIES
    && (forall n :: 0 <= n < |at| ==> at[n] < |cands| && shown[n] == cands[at[n]])
    && (shown != [] ==> |Written(shown, w)| + reserve <= max)
  }

  /** Every other one was passed over for want of room. */
  ghost predicate Passes(cands: seq<Candidate>, w: Writer, max: nat, reserve: nat, shown: seq<Candidate>, at: seq<nat>) {
    |at| == |shown| && forall k: nat :: k < |cands| && k !in at ==> PassedOver(cands, w, max, reserve, at, shown, k)
  }

  ghost predicate Greedy(cands: seq<Candidate>, w: Writer, max: nat, reserve: nat, shown: seq<Candidate>, at: seq<nat>) {
    Fits(cands, w, max, reserve, shown, at) && Passes(cands, w, max, reserve, shown, at)
  }

  /** A further candidate, shown or not, leaves those passed over before it as they were. */
  lemma StillPassedOver(front: seq<Candidate>, c: Candidate, w: Writer, max: nat, reserve: nat, at: seq<nat>,
                        shown: seq<Candidate>, k: nat)
    requires k < |front| && |at| == |shown| && PassedOver(front, w, max, reserve, at, shown, k)
    ensures PassedOver(front + [c], w, max, reserve, at, shown, k)
    ensures PassedOver(front + [c], w, max, reserve, at + [|front|], shown + [c], k)
  {
    var n: nat :|
      && n <= |shown| && ComesAfter(at, k, n)
      && (n >= DIGEST_MAX_ENTRIES || |Written(shown[..n], w)| + reserve + |w.entry(n + 1, front[k])| > max);
    assert (front + [c])[k] == front[k];
    assert (shown + [c])[..n] == shown[..n];
    assert ComesAfter(at + [|front|], k, n);
  }

  lemma NewlyPassedOver(front: seq<Candidate>, c: Candidate, w: Writer, max: nat, reserve: nat, at: seq<nat>, shown: seq<Candidate>)
    requires Fits(front, w, max, reserve, shown, at)
    requires |shown| >= DIGEST_MAX_ENTRIES || |Written(shown, w)| + reserve + |w.entry(|shown| + 1, c)| > max
    ensures PassedOver(front + [c], w, max, reserve, at, shown, |front|)
  {
    assert shown[..|shown|] == shown;
    assert (front + [c])[|front|] == c && ComesAfter(at, |front|, |shown|);
  }

  lemma GreedyPasses(front: seq<Candidate>, c: Candidate, w: Writer, max: nat, reserve: nat, shown: seq<Candidate>, at: seq<nat>)
    requires Greedy(front, w, max, reserve, shown, at)
    requires |shown| >= DIGEST_MAX_ENTRIES || |Written(shown, w)| + reserve + |w.entry(|shown| + 1, c)| > max
    ensures Greedy(front + [c], w, max, reserve, shown, at)
  {
    forall k: nat | k < |front| + 1 && k !in at ensures PassedOver(front + [c], w, max, reserve, at, shown, k) {
      if k < |front| { StillPassedOver(front, c, w, max, reserve, at, shown, k); }
      else { NewlyPassedOver(front, c, w, max, reserve, at, shown); }
    }
  }

  lemma FitsTakes(front: seq<Candidate>, c: Candidate, w: Writer, max: nat, reserve: nat, shown: seq<Candidate>, at: seq<nat>)
    requires Fits(front, w, max, reserve, shown, at) && |shown| < DIGEST_MAX_ENTRIES
    requires |Written(shown, w)| + reserve + |w.entry(|shown| + 1, c)| <= max
    ensures Fits(front + [c], w, max, reserve, shown + [c], at + [|front|])
    ensures Written(shown + [c], w) == Written(shown, w) + w.entry(|shown| + 1, c)
  {
    assert (shown + [c])[..|shown|] == shown;
  }

  lemma PassesTakes(front: seq<Candidate>, c: Candidate, w: Writer, max: nat, reserve: nat, shown: seq<Candidate>, at: seq<nat>)
    requires Passes(front, w, max, reserve, shown, at)
    ensures Passes(front + [c], w, max, reserve, shown + [c], at + [|front|])
  {
    forall k: nat | k < |front| + 1 && k !in at + [|front|]
      ensures PassedOver(front + [c], w, max, reserve, at + [|front|], shown + [c], k)
    {
      InAppend(at, |front|, k);
      StillPassedOver(front, c, w, max, reserve, at, shown, k);
    }
  }

  lemma InAppend(at: seq<nat>, x: nat, k: nat)
    ensures k in at + [x] <==> k in at || k == x
  {
  }

  /** The fill is greedy: it shows exactly the candidates that, tried in order, still fit. */
  lemma {:induction false} FillIsGreedy(cands: seq<Candidate>, w: Writer, max: nat, reserve: nat) returns (at: seq<nat>)
    ensures var f := FillTo(cands, w, max, reserve);
      Greedy(cands, w, max, reserve, f.shown, at) && f.text == Written(f.shown, w) && f.used == |f.text| + reserve
  {
    at := [];
    if cands != [] {
      var front, c := cands[..|cands| - 1], cands[|cands| - 1];
      SplitLast(cands);
      at := FillIsGreedy(front, w, max, reserve);
      var f := FillTo(front, w, max, reserve);
      if |f.shown| >= DIGEST_MAX_ENTRIES || f.used + |w.entry(|f.shown| + 1, c)| > max {
        GreedyPasses(front, c, w, max, reserve, f.shown, at);
      } else {
        FitsTakes(front, c, w, max, reserve, f.shown, at);
        PassesTakes(front, c, w, max, reserve, f.shown, at);
        at := at + [|front|];
      }
    }
  }

  lemma {:induction false} AllTaken(cands: seq<Candidate>, shown: seq<Candidate>, at: seq<nat>)
    requires Rising(at) && |at| == |shown| == |cands| && forall n :: 0 <= n < |at| ==> at[n] < |cands| && shown[n] == cands[at[n]]
    ensures shown == cands
  {
    if cands != [] {
      var m := |cands| - 1;
      forall n | 0 <= n < m ensures at[n] < m { assert at[n] < at[m]; }
      PositionsFill(at, m);
      AllTaken(cands[..m], shown[..m], at[..m]);
      SplitLast(shown);
      SplitLast(cands);
    }
  }

  lemma {:induction false} PositionsFill(at: seq<nat>, n: nat)
    requires Rising(at) && n < |at|
    ensures at[n] >= n
  {
    if n > 0 { PositionsFill(at, n - 1); }
  }

  lemma ShowsNext(front: seq<Candidate>, c: Candidate, w: Writer, max: nat)
    requires FillTo(front, w, max, 0) == Filled(Written(front, w), |Written(front, w)|, front)
    requires |front| < DIGEST_MAX_ENTRIES && |Written(front + [c], w)| <= max
    ensures FillTo(front + [c], w, max, 0) == Filled(Written(front + [c], w), |Written(front + [c], w)|, front + [c])
  {
    assert (front + [c])[..|front|] == front;
    assert Written(front + [c], w) == Written(front, w) + w.entry(|front| + 1, c);
    assert FillTo(front + [c], w, max, 0) == FillOne(FillTo(front, w, max, 0), c, w, max);
  }

  /** When all fit, all are shown. */
  lemma {:induction false} FillShowsAll(cands: seq<Candidate>, w: Writer, max: nat)
    requires |cands| <= DIGEST_MAX_ENTRIES && |Written(cands, w)| <= max
    ensures FillTo(cands, w, max, 0) == Filled(Written(cands, w), |Written(cands, w)|, cands)
  {
    if cands != [] {
      var front, c := cands[..|cands| - 1], cands[|cands| - 1];
      FillShowsAll(front, w, max);
      SplitLast(cands);
      ShowsNext(front, c, w, max);
    }
  }

  /** The first fill decides whether room is kept for a marker. */
  lemma FinalFillIs(cands: seq<Candidate>, extra: nat, w: Writer, max: nat)
    ensures var whole := |cands| <= DIGEST_MAX_ENTRIES && |Written(cands, w)| <= max && extra == 0;
      && (whole ==> FinalFill(cands, extra, w, max) == FillTo(cands, w, max, 0)
                    && FillTo(cands, w, max, 0).shown == cands && FillTo(cands, w, max, 0).text == Written(cands, w))
      && (!whole && cands != [] ==> FinalFill(cands, extra, w, max) == FillTo(cands, w, max, |w.omission(|cands| + extra)|))
      && (cands == [] ==> FinalFill(cands, extra, w, max).shown == [])
  {
    if |cands| <= DIGEST_MAX_ENTRIES && |Written(cands, w)| <= max {
      FillShowsAll(cands, w, max);
    } else {
      var at0 := FillIsGreedy(cands, w, max, 0);
      var first := FillTo(cands, w, max, 0);
      if |first.shown| == |cands| { AllTaken(cands, first.shown, at0); }
      FillIsWell(cands, w, max, 0);
    }
  }

  /** The digest in full. If all the candidates fit and none was left out before, it is they, in
  order, and no marker. Otherwise, with room kept for a marker, it shows the candidates
  that fit when tried in order, and the marker counts the rest. */
  lemma DigestIsGreedy(cands: seq<Candidate>, extra: nat, w: Writer, max: nat) returns (at: seq<nat>)
    ensures var r := DigestOf(cands, extra, w, max);
      var whole := |cands| <= DIGEST_MAX_ENTRIES && |Written(cands, w)| <= max && extra == 0;
      && (whole && cands != [] ==> r == Result(Some(Written(cands, w)), cands, 0))
      && (!whole ==>
            && Greedy(cands, w, max, |w.omission(|cands| + extra)|, r.shown, at)
            && (r.shown != [] ==>
                  && r.omitted == |cands| - |r.shown| + extra
                  && r.text == Some(Written(r.shown, w) + if r.omitted > 0 then w.omission(r.omitted) else ""))
            && (r.shown == [] ==> r == EMPTY_DIGEST))
      && (cands == [] ==> r == EMPTY_DIGEST)
  {
    FinalFillIs(cands, extra, w, max);
    at := FillIsGreedy(cands, w, max, |w.omission(|cands| + extra)|);
    assert Written(cands, w) + "" == Written(cands, w);
  }
}
