/** What a turn says of each prior handoff it refers to: that it is the first entry of the
digest, shown in it, left out of it, or not retained (`_read` of `henk/agent/digest.py`). */
module RefStates {
  import opened Common
  import opened Digest
  import opened DigestText
  import DigestLaws
  import EventTurn

  /** The state of one reference: what its lookup found, against what the digest shows. */
  function StateOf(found: Option<Handoff>, reference: Option<Handoff>, shown: seq<int>): EventTurn.RefState {
    if found.None? then EventTurn.NotRetained
    else if found.value.id !in shown then EventTurn.Omitted
    else if reference.Some? && found.value.id == reference.value.id && shown[0] == reference.value.id then EventTurn.Reference
    else EventTurn.Shown
  }

  lemma IdAt(cs: seq<Candidate>, x: int) returns (n: nat)
    requires x in CandidateIds(cs)
    ensures n < |cs| && cs[n].handoff.id == x
  {
    n :| n < |CandidateIds(cs)| && CandidateIds(cs)[n] == x;
  }

  lemma RisesFromZero(at: seq<nat>, n: nat)
    requires DigestLaws.Rising(at) && n < |at|
    ensures n == 0 || at[n] > 0
  {
    if n > 0 { assert at[0] < at[n]; }
  }

  /** The only candidate with an id, tried first, is the first shown if it is shown. */
  lemma FirstStaysFirst(cands: seq<Candidate>, extra: nat, w: Writer, max: nat)
    requires cands != [] && Unique(CandidateIds(cands))
    requires cands[0].handoff.id in CandidateIds(DigestOf(cands, extra, w, max).shown)
    ensures DigestOf(cands, extra, w, max).shown[0] == cands[0]
  {
    var shown := DigestOf(cands, extra, w, max).shown;
    var at := DigestLaws.DigestIsGreedy(cands, extra, w, max);
    if shown != cands {
      var n := IdAt(shown, cands[0].handoff.id);
      assert CandidateIds(cands)[at[n]] == CandidateIds(cands)[0];
      RisesFromZero(at, n);
    }
  }

  /** Each of the four states means what the note says: only an unresolved reference is called
  not retained, only one the bounds left out omitted; and the recurrence reference, shown at
  all, is the digest's first entry, under its own relation and excerpt bound. */
  lemma StateMeans(reference: Option<Handoff>, hs: seq<Handoff>, ctx: Context, now: real, w: Writer, max: nat, found: Option<Handoff>)
    requires Unique(IdsOf(hs))
    ensures var r := ReadDigest(reference, hs, ctx, now, w, max);
      var state := StateOf(found, reference, CandidateIds(r.shown));
      var isReference := found.Some? && reference.Some? && found.value.id == reference.value.id;
      var isShown := found.Some? && found.value.id in CandidateIds(r.shown);
      && (state == EventTurn.NotRetained <==> found.None?)
      && (state == EventTurn.Omitted <==> found.Some? && !isShown)
      && (state == EventTurn.Reference <==> isShown && isReference)
      && (state == EventTurn.Shown <==> isShown && !isReference)
      && (state == EventTurn.Reference ==> r.shown[0] == Candidate(reference.value, Recurrence, None, DIGEST_RECURRENCE_MAX_CHARS))
  {
    var s := Select(reference, hs, ctx, now);
    var cands := Candidates(s, ctx);
    var shown := CandidateIds(ReadDigest(reference, hs, ctx, now, w, max).shown);
    if found.Some? && reference.Some? && found.value.id == reference.value.id && found.value.id in shown {
      SelectionCounts(reference, hs, ctx, now);
      CandidatesAreSelected(s, ctx);
      assert cands[0] == Candidate(reference.value, Recurrence, None, DIGEST_RECURRENCE_MAX_CHARS);
      FirstStaysFirst(cands, s.extraOmitted, w, max);
    }
  }
}
