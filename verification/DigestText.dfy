/** Rendering the prior-handoff digest within its bounds: `_entry`, `_fill` and
`render_digest` of `henk/agent/digest.py`. Each entry's text begins with the newline that
joins it, so its length is its cost. */
module DigestText {
  import opened Common
  import opened Markers
  import opened Composition
  import opened Digest

  // --- One entry -----------------------------------------------------------------------------

  function RelationText(r: Relation): string {
    match r
    case Recurrence => "recurrence reference"
    case SameIdentity => "same identity"
    case SameRule => "same rule"
    case SameNode => "same node"
    case SameWindow => "same window"
  }

  function RelationLabel(c: Candidate): string {
    if c.relation == SameWindow && c.structural.Some? then
      RelationText(c.relation) + " (" + RelationText(c.structural.value) + ")"
    else RelationText(c.relation)
  }

  /** Strings joined by a comma and a space, as pieces. */
  function CommaPieces(values: seq<string>): seq<string> {
    if |values| <= 1 then values else CommaPieces(values[..|values| - 1]) + [", ", values[|values| - 1]]
  }

  function Neutralised(values: seq<string>): seq<string> {
    seq(|values|, i requires 0 <= i < |values| => Neutralise(values[i]))
  }

  /** The identity list, cut to its bound. */
  function Identities(keys: seq<string>): string {
    var joined := Render(CommaPieces(Neutralised(keys)));
    if |joined| > IDENTITIES_MAX_CHARS then joined[..IDENTITIES_MAX_CHARS] + "\U{2026}" else joined
  }

  /** Python's `strip`: without the whitespace at either end. */
  function StripStart(t: string): string { if t != "" && IsSpace(t[0]) then StripStart(t[1..]) else t }

  function StripEnd(t: string): string { if t != "" && IsSpace(t[|t| - 1]) then StripEnd(t[..|t| - 1]) else t }

  function Document(h: Handoff): string { StripEnd(StripStart(Neutralise(h.document))) }

  function Excerpt(c: Candidate): string {
    var text := Document(c.handoff);
    if |text| > c.bound then text[..c.bound] else text
  }

  function HeadPieces(n: nat, c: Candidate): seq<string> {
    ["\n[prior handoff ", Digits(n)] + ["] relation=", RelationLabel(c)]
  }

  /** Whole days, hours and minutes; nothing before now is negative. */
  function Age(seconds: real): string {
    var floor := (seconds / 60.0).Floor;
    var minutes: nat := if floor < 0 then 0 else floor;
    var days, hours := minutes / 1440, minutes % 1440 / 60;
    if days > 0 then Digits(days) + "d" + Digits(hours) + "h"
    else if hours > 0 then Digits(hours) + "h" + Digits(minutes % 60) + "m"
    else Digits(minutes % 60) + "m"
  }

  /** Instants as `stamp` renders them, ages as the digest does. */
  function RenderingOf(stamp: real -> string): Rendering { Rendering(stamp, Age) }

  function StampPieces(published: string, age: string): seq<string> {
    [" published=", published] + [" age=", age]
  }

  function KeyPieces(c: Candidate): seq<string> {
    [" nodes=[", Render(CommaPieces(c.handoff.nodes))] + ["] identities=[", Identities(c.handoff.identityKeys)]
  }

  function BodyPieces(c: Candidate): seq<string> {
    ["]\n", Excerpt(c)]
    + if |Document(c.handoff)| > c.bound then
        ["\n[excerpt shortened: ", Digits(c.bound)] + [" of ", Digits(|Document(c.handoff)|)] + [" characters shown]"]
      else []
  }

  function EntryPieces(n: nat, c: Candidate, published: string, age: string): seq<string> {
    HeadPieces(n, c) + StampPieces(published, age) + KeyPieces(c) + BodyPieces(c)
  }

  function EntryText(n: nat, c: Candidate, published: string, age: string): string {
    Render(EntryPieces(n, c, published, age))
  }

  function EntryOf(n: nat, c: Candidate, now: real, how: Rendering): string {
    EntryText(n, c, how.published(c.handoff.published), how.age(now - c.handoff.published))
  }

  const OMISSION_START := "\n[related handoffs omitted " + "to stay within the digest's bo" + "unds: "

  function OmissionPieces(count: nat): seq<string> { [OMISSION_START] + [Digits(count)] + ["]"] }

  function OmissionText(count: nat): string { Render(OmissionPieces(count)) }

  // --- The fill --------------------------------------------------------------------------------

  /** How an entry and an omission marker are written, each with its leading newline. */
  datatype Writer = Writer(entry: (nat, Candidate) -> string, omission: nat -> string)

  /** How this digest writes them. */
  function WriterOf(now: real, how: Rendering): Writer {
    Writer((n: nat, c: Candidate) => EntryOf(n, c, now, how), OmissionText)
  }

  datatype Filled = Filled(text: string, used: nat, shown: seq<Candidate>)

  /** One candidate: nothing once full; skipped whole when it does not fit. */
  function FillOne(f: Filled, c: Candidate, w: Writer, max: nat): Filled {
    if |f.shown| >= DIGEST_MAX_ENTRIES then f
    else
      var entry := w.entry(|f.shown| + 1, c);
      if f.used + |entry| > max then f
      else Filled(f.text + entry, f.used + |entry|, f.shown + [c])
  }

  function FillTo(cands: seq<Candidate>, w: Writer, max: nat, reserve: nat): Filled {
    if cands == [] then Filled(PRIOR_HANDOFFS_HEADER, |PRIOR_HANDOFFS_HEADER| + reserve, [])
    else FillOne(FillTo(cands[..|cands| - 1], w, max, reserve), cands[|cands| - 1], w, max)
  }

  function CandidateIds(cs: seq<Candidate>): seq<int> { seq(|cs|, i requires 0 <= i < |cs| => cs[i].handoff.id) }

  ghost predicate FilledWell(cands: seq<Candidate>, max: nat, reserve: nat, f: Filled) {
    && f.used == |f.text| + reserve && |f.shown| <= DIGEST_MAX_ENTRIES && |f.shown| <= |cands|
    && (f.shown != [] ==> f.used <= max)
    && (forall x :: x in CandidateIds(f.shown) ==> x in CandidateIds(cands))
  }

  lemma CandidateIdsAppend(cs: seq<Candidate>, c: Candidate)
    ensures CandidateIds(cs + [c]) == CandidateIds(cs) + [c.handoff.id]
  {
  }

  lemma {:induction false} FillIsWell(cands: seq<Candidate>, w: Writer, max: nat, reserve: nat)
    ensures FilledWell(cands, max, reserve, FillTo(cands, w, max, reserve))
    ensures Unique(CandidateIds(cands)) ==> Unique(CandidateIds(FillTo(cands, w, max, reserve).shown))
  {
    if cands != [] {
      var front, c := cands[..|cands| - 1], cands[|cands| - 1];
      assert cands == front + [c];
      FillIsWell(front, w, max, reserve);
      var f := FillTo(front, w, max, reserve);
      CandidateIdsAppend(front, c);
      CandidateIdsAppend(f.shown, c);
      if Unique(CandidateIds(cands)) { UniqueFront(CandidateIds(front), c.handoff.id); }
    }
  }

  /** The loop as the source runs it, stopping once the digest is full. */
  method Fill(cands: seq<Candidate>, w: Writer, max: nat, reserve: nat) returns (f: Filled)
    ensures f == FillTo(cands, w, max, reserve)
  {
    f := Filled(PRIOR_HANDOFFS_HEADER, |PRIOR_HANDOFFS_HEADER| + reserve, []);
    var i := 0;
    while i < |cands| && |f.shown| < DIGEST_MAX_ENTRIES
      invariant 0 <= i <= |cands| && f == FillTo(cands[..i], w, max, reserve)
    {
      assert cands[..i + 1][..i] == cands[..i];
      var entry := w.entry(|f.shown| + 1, cands[i]);
      if f.used + |entry| <= max {
        f := Filled(f.text + entry, f.used + |entry|, f.shown + [cands[i]]);
      }
      i := i + 1;
    }
    if i < |cands| { FullStays(cands, i, w, max, reserve); }
    assert cands[..|cands|] == cands;
  }

  lemma {:induction false} FullStays(cands: seq<Candidate>, i: nat, w: Writer, max: nat, reserve: nat)
    requires i <= |cands| && |FillTo(cands[..i], w, max, reserve).shown| >= DIGEST_MAX_ENTRIES
    ensures FillTo(cands, w, max, reserve) == FillTo(cands[..i], w, max, reserve)
    decreases |cands|
  {
    if i == |cands| {
      assert cands[..i] == cands;
    } else {
      var front := cands[..|cands| - 1];
      assert front[..i] == cands[..i];
      FullStays(front, i, w, max, reserve);
    }
  }

  // --- The digest --------------------------------------------------------------------------------

  function WindowCandidates(placed: seq<Handoff>, ctx: Context): seq<Candidate> {
    seq(|placed|, i requires 0 <= i < |placed| =>
      Candidate(placed[i], SameWindow, RelationOf(placed[i], ctx), DIGEST_ENTRY_MAX_CHARS))
  }

  function RelatedCandidates(related: seq<Related>): seq<Candidate> {
    seq(|related|, i requires 0 <= i < |related| =>
      Candidate(related[i].handoff, related[i].relation, None, DIGEST_ENTRY_MAX_CHARS))
  }

  function ReferenceCandidates(reference: Option<Handoff>): seq<Candidate> {
    if reference.None? then [] else [Candidate(reference.value, Recurrence, None, DIGEST_RECURRENCE_MAX_CHARS)]
  }

  /** The reference first, then the window's, then the ranked rest. */
  function Candidates(s: Selection, ctx: Context): seq<Candidate> {
    ReferenceCandidates(s.reference) + WindowCandidates(s.placed, ctx) + RelatedCandidates(s.related)
  }

  lemma CandidatesAreSelected(s: Selection, ctx: Context)
    ensures CandidateIds(Candidates(s, ctx)) == SelectedIds(s)
  {
  }

  /** The second pass reserves room for the marker, sized for the largest count it could state. */
  function FinalFill(cands: seq<Candidate>, extra: nat, w: Writer, max: nat): Filled {
    var first := FillTo(cands, w, max, 0);
    if |first.shown| < |cands| || extra > 0 then FillTo(cands, w, max, |w.omission(|cands| + extra)|) else first
  }

  function DigestOf(cands: seq<Candidate>, extra: nat, w: Writer, max: nat): Result {
    var f := FinalFill(cands, extra, w, max);
    FillIsWell(cands, w, max, 0);
    FillIsWell(cands, w, max, |w.omission(|cands| + extra)|);
    if f.shown == [] then EMPTY_DIGEST
    else
      var omitted := |cands| - |f.shown| + extra;
      Result(Some(f.text + if omitted > 0 then w.omission(omitted) else ""), f.shown, omitted)
  }

  method RenderDigest(cands: seq<Candidate>, extra: nat, w: Writer, max: nat) returns (r: Result)
    ensures r == DigestOf(cands, extra, w, max)
  {
    if cands == [] { return EMPTY_DIGEST; }
    FillIsWell(cands, w, max, 0);
    FillIsWell(cands, w, max, |w.omission(|cands| + extra)|);
    var f := Fill(cands, w, max, 0);
    if |f.shown| < |cands| || extra > 0 { f := Fill(cands, w, max, |w.omission(|cands| + extra)|); }
    if f.shown == [] { return EMPTY_DIGEST; }
    var omitted := |cands| - |f.shown| + extra;
    r := Result(Some(f.text + if omitted > 0 then w.omission(omitted) else ""), f.shown, omitted);
  }

  lemma {:induction false} DigitsGrow(m: nat, n: nat)
    requires m <= n
    ensures |Digits(m)| <= |Digits(n)|
    decreases n
  {
    if n >= 10 && m >= 10 { DigitsGrow(m / 10, n / 10); }
  }

  lemma OmissionGrows(m: nat, n: nat)
    requires m <= n
    ensures |OmissionText(m)| <= |OmissionText(n)|
  {
    DigitsGrow(m, n);
    OmissionLength(m);
    OmissionLength(n);
  }

  lemma OmissionLength(n: nat)
    ensures |OmissionText(n)| == |OMISSION_START| + |Digits(n)| + 1
  {
    RenderConcat([OMISSION_START] + [Digits(n)], ["]"]);
    RenderConcat([OMISSION_START], [Digits(n)]);
    RenderOne(OMISSION_START);
    RenderOne(Digits(n));
    RenderOne("]");
  }

  /** A marker for a larger count is never shorter. */
  ghost predicate OmissionsGrow(w: Writer) { forall m: nat, n: nat :: m <= n ==> |w.omission(m)| <= |w.omission(n)| }

  lemma FinalFillFits(cands: seq<Candidate>, extra: nat, w: Writer, max: nat)
    requires Unique(CandidateIds(cands)) && OmissionsGrow(w)
    ensures var f := FinalFill(cands, extra, w, max);
      && |f.shown| <= DIGEST_MAX_ENTRIES && |f.shown| <= |cands| && Unique(CandidateIds(f.shown))
      && (forall x :: x in CandidateIds(f.shown) ==> x in CandidateIds(cands))
    ensures var f := FinalFill(cands, extra, w, max);
      var omitted := |cands| - |f.shown| + extra;
      f.shown != [] ==> |f.text| + (if omitted > 0 then |w.omission(omitted)| else 0) <= max
  {
    FillIsWell(cands, w, max, 0);
    FillIsWell(cands, w, max, |w.omission(|cands| + extra)|);
    var f := FinalFill(cands, extra, w, max);
    assert |w.omission(|cands| - |f.shown| + extra)| <= |w.omission(|cands| + extra)|;
  }

  /** What `_read` renders from the archive. */
  function ReadDigest(reference: Option<Handoff>, hs: seq<Handoff>, ctx: Context, now: real, w: Writer, max: nat): Result {
    var s := Select(reference, hs, ctx, now);
    DigestOf(Candidates(s, ctx), s.extraOmitted, w, max)
  }

  /** The rendered digest, omission marker included, never exceeds its character budget or
  four entries, and shows each handoff at most once. When anything is shown, shown plus
  omitted is the number of distinct handoffs that are the reference, structurally related
  or in the recent window. */
  lemma DigestIsBounded(reference: Option<Handoff>, hs: seq<Handoff>, ctx: Context, now: real, w: Writer, max: nat)
    requires Unique(IdsOf(hs)) && OmissionsGrow(w)
    ensures var r := ReadDigest(reference, hs, ctx, now, w, max);
      && (r.text.Some? ==> |r.text.value| <= max)
      && |r.shown| <= DIGEST_MAX_ENTRIES && Unique(CandidateIds(r.shown))
      && (forall x :: x in CandidateIds(r.shown) ==> x in EligibleIds(reference, hs, ctx, now))
      && (r.text.Some? <==> r.shown != [])
      && (r.text.Some? ==> |r.shown| + r.omitted == |EligibleIds(reference, hs, ctx, now)|)
  {
    var s := Select(reference, hs, ctx, now);
    var cands := Candidates(s, ctx);
    SelectionCounts(reference, hs, ctx, now);
    SelectionIsEligible(reference, hs, ctx, now);
    CandidatesAreSelected(s, ctx);
    assert |cands| == |CandidateIds(cands)|;
    FinalFillFits(cands, s.extraOmitted, w, max);
    var f := FinalFill(cands, s.extraOmitted, w, max);
    forall x | x in CandidateIds(f.shown) ensures x in EligibleIds(reference, hs, ctx, now) {
      assert x in ToSet(SelectedIds(s));
    }
  }

  /** The digest's own omission marker grows with its count. */
  lemma WriterGrows(now: real, how: Rendering)
    ensures OmissionsGrow(WriterOf(now, how))
  {
    forall m: nat, n: nat | m <= n ensures |WriterOf(now, how).omission(m)| <= |WriterOf(now, how).omission(n)| {
      OmissionGrows(m, n);
    }
  }
}
