/** The whole event turn as `compose_event_turn_content` of `henk/agent/triage.py` builds it:
recall block, untrusted block with the incidents and the digest, framing, the note of a
maintenance release, and the recurrence note.

The framing's steps and the recurrence sentences are fixed wording and enter as pieces; the
release note, which holds a calendar title, is written out.
*/
module EventTurn {
  import opened Common
  import opened Markers
  import opened Composition
  import opened Styled
  import opened CalendarTitle
  import opened Digest
  import opened DigestText
  import opened DigestPlain
  import Recall

  // --- The note of a release ---------------------------------------------------------------------

  /** The window of a release; its instants are rendered, its age is in seconds. */
  datatype Hold = Hold(title: string, start: string, end: string, age: real)

  const HELD_UNTIL := [" were held until it", " ended."]
  const STILL_FIRING := [" They were still not", " resolved when the", " window and its", " grace ended: that"]
  const FINDING := [" is itself the", " finding, because", " the planned work", " should have settled",
                    " them by then."]
  const CHECK_STATE := [" Check each one's", " live state with the", " tools before", " concluding",
                        " anything;"]
  const WAS_HELD := [" what the block", " shows is what was", " held, not what is", " true now."]
  const MAY_BE_STALE := [" hours old, so the", " held state may be", " stale: rely on the",
                         " live state alone."]
  const FIRED_DURING := [" release: the alerts", " in the block above", " fired during the",
                         " planned maintenance"]

  function IntroPieces(): seq<string> { ["\n\nMaintenance"] + FIRED_DURING + [" window "] }

  function StalePieces(age: real): seq<string> {
    if age > 86400.0 then [" This hold is " + Digits((age / 3600.0).Floor)] + MAY_BE_STALE else []
  }

  /** All of the note after the title. */
  function RestPieces(h: Hold): seq<string> {
    [" (from " + h.start, " until its end plus", " grace at " + h.end, ") and"]
    + HELD_UNTIL + STILL_FIRING + FINDING + CHECK_STATE + WAS_HELD + StalePieces(h.age)
  }

  lemma HeldUntilWords()
    ensures AllWords(HELD_UNTIL)
  {
    SpacedIsWord(" were held until it", 'w', 'e');
    SpacedIsWord(" ended.", 'e', 'n');
  }

  lemma StillFiringWords()
    ensures AllWords(STILL_FIRING)
  {
    SpacedIsWord(" They were still not", 'T', 'h');
    SpacedIsWord(" resolved when the", 'r', 'e');
    SpacedIsWord(" window and its", 'w', 'i');
    SpacedIsWord(" grace ended: that", 'g', 'r');
  }

  lemma FindingWords()
    ensures AllWords(FINDING)
  {
    SpacedIsWord(" is itself the", 'i', 's');
    SpacedIsWord(" finding, because", 'f', 'i');
    SpacedIsWord(" the planned work", 't', 'h');
    SpacedIsWord(" should have settled", 's', 'h');
    SpacedIsWord(" them by then.", 't', 'h');
  }

  lemma CheckStateWords()
    ensures AllWords(CHECK_STATE)
  {
    SpacedIsWord(" Check each one's", 'C', 'h');
    SpacedIsWord(" live state with the", 'l', 'i');
    SpacedIsWord(" tools before", 't', 'o');
    SpacedIsWord(" concluding", 'c', 'o');
    SpacedIsWord(" anything;", 'a', 'n');
  }

  lemma WasHeldWords()
    ensures AllWords(WAS_HELD)
  {
    SpacedIsWord(" what the block", 'w', 'h');
    SpacedIsWord(" shows is what was", 's', 'h');
    SpacedIsWord(" held, not what is", 'h', 'e');
    SpacedIsWord(" true now.", 't', 'r');
  }

  lemma MayBeStaleWords()
    ensures AllWords(MAY_BE_STALE)
  {
    SpacedIsWord(" hours old, so the", 'h', 'o');
    SpacedIsWord(" held state may be", 'h', 'e');
    SpacedIsWord(" stale: rely on the", 's', 't');
    SpacedIsWord(" live state alone.", 'l', 'i');
  }

  lemma FiredDuringWords()
    ensures AllWords(FIRED_DURING)
  {
    SpacedIsWord(" release: the alerts", 'r', 'e');
    SpacedIsWord(" in the block above", 'i', 'n');
    SpacedIsWord(" fired during the", 'f', 'i');
    SpacedIsWord(" planned maintenance", 'p', 'l');
  }

  lemma IntroFits()
    ensures AllFit(IntroPieces())
  {
    FiredDuringWords();
    WordsFit(FIRED_DURING);
    MaintenanceFits();
    SpacedIsWord(" window ", 'w', 'i');
    WordFits(" window ");
    FitsConcat(["\n\nMaintenance"], FIRED_DURING);
    FitsConcat(["\n\nMaintenance"] + FIRED_DURING, [" window "]);
  }

  lemma MaintenanceFits()
    ensures FitsAnywhere("\n\nMaintenance")
  {
    ShortIsFree("\n\nMaintenance");
    var t := "\n\nMaintenance";
    assert t[1..][0] == '\n' && t[1..][1..][0] == 'M' && t[1..][1..][1] == 'a';
  }

  lemma StampFits(tag: string, stamp: string)
    requires NoU(tag) && Seals(tag) && IsStamp(stamp)
    ensures FitsAnywhere(tag + stamp)
  {
    StampIsFree(stamp);
    LabelFits(tag, stamp);
  }

  lemma StampTags()
    ensures NoU(" (from ") && Seals(" (from ") && NoU(" grace at ") && Seals(" grace at ")
  {
  }

  lemma TimesFit(h: Hold)
    requires IsStamp(h.start) && IsStamp(h.end)
    ensures AllFit([" (from " + h.start, " until its end plus", " grace at " + h.end, ") and"])
  {
    StampTags();
    StampFits(" (from ", h.start);
    SpacedIsWord(" until its end plus", 'u', 'n');
    WordFits(" until its end plus");
    StampFits(" grace at ", h.end);
    ShortIsFree(") and");
  }

  lemma StaleFits(age: real)
    ensures AllFit(StalePieces(age))
  {
    if age > 86400.0 {
      MayBeStaleWords();
      WordsFit(MAY_BE_STALE);
      Recall.CountFits(" This hold is ", (age / 3600.0).Floor);
      FitsConcat([" This hold is " + Digits((age / 3600.0).Floor)], MAY_BE_STALE);
    }
  }

  lemma RestFits(h: Hold)
    requires IsStamp(h.start) && IsStamp(h.end)
    ensures AllFit(RestPieces(h))
  {
    TimesFit(h);
    HeldUntilWords();
    StillFiringWords();
    FindingWords();
    CheckStateWords();
    WasHeldWords();
    StaleFits(h.age);
    WordsFit(HELD_UNTIL);
    WordsFit(STILL_FIRING);
    WordsFit(FINDING);
    WordsFit(CHECK_STATE);
    WordsFit(WAS_HELD);
    var a := [" (from " + h.start, " until its end plus", " grace at " + h.end, ") and"];
    FitsConcat(a, HELD_UNTIL);
    FitsConcat(a + HELD_UNTIL, STILL_FIRING);
    FitsConcat(a + HELD_UNTIL + STILL_FIRING, FINDING);
    FitsConcat(a + HELD_UNTIL + STILL_FIRING + FINDING, CHECK_STATE);
    FitsConcat(a + HELD_UNTIL + STILL_FIRING + FINDING + CHECK_STATE, WAS_HELD);
    FitsConcat(a + HELD_UNTIL + STILL_FIRING + FINDING + CHECK_STATE + WAS_HELD, StalePieces(h.age));
  }

  // --- The recurrence note -------------------------------------------------------------------------

  datatype RefState = Reference | Shown | Omitted | NotRetained | Unreadable

  datatype Ref = Ref(messageId: string, state: RefState)

  /** The application's own sentences, cut into pieces. */
  datatype Wording = Wording(steps: seq<string>, recurrence: seq<string>, tail: RefState -> seq<string>,
                             unrecorded: seq<string>, buildOn: seq<string>, noContent: seq<string>)

  /** Each piece seals; the first of the steps, which follows a blank line, need not. */
  ghost predicate IsWording(wd: Wording) {
    && WellJoined(wd.steps) && AllFit(wd.recurrence) && AllFit(wd.unrecorded) && AllFit(wd.buildOn) && AllFit(wd.noContent)
    && forall state :: AllFit(wd.tail(state))
  }

  function RefPieces(wd: Wording, ref: Ref): seq<string> {
    [" The prior handoff " + Neutralise(ref.messageId)] + wd.tail(ref.state)
  }

  function RefsPieces(wd: Wording, refs: seq<Ref>): seq<string> {
    if refs == [] then [] else RefsPieces(wd, refs[..|refs| - 1]) + RefPieces(wd, refs[|refs| - 1])
  }

  predicate Rendered(refs: seq<Ref>) {
    exists i :: 0 <= i < |refs| && (refs[i].state == Reference || refs[i].state == Shown)
  }

  /** None when no incident of the turn recurs. */
  function NotePieces(wd: Wording, refs: Option<seq<Ref>>): seq<string> {
    if refs.None? then []
    else
      wd.recurrence + (if refs.value != [] then RefsPieces(wd, refs.value) else wd.unrecorded)
      + if Rendered(refs.value) then wd.buildOn else wd.noContent
  }

  lemma {:induction false} RefsFit(wd: Wording, refs: seq<Ref>)
    requires IsWording(wd)
    ensures AllFit(RefsPieces(wd, refs))
  {
    if refs != [] {
      var ref := refs[|refs| - 1];
      RefsFit(wd, refs[..|refs| - 1]);
      NeutralisedIsClear(ref.messageId);
      RefTag();
      LabelFits(" The prior handoff ", Neutralise(ref.messageId));
      FitsConcat([" The prior handoff " + Neutralise(ref.messageId)], wd.tail(ref.state));
      FitsConcat(RefsPieces(wd, refs[..|refs| - 1]), RefPieces(wd, ref));
    }
  }

  lemma RefTag()
    ensures NoU(" The prior handoff ") && Seals(" The prior handoff ")
  {
    SpacedIsWord(" The prior handoff ", 'T', 'h');
  }

  lemma NoteFits(wd: Wording, refs: Option<seq<Ref>>)
    requires IsWording(wd)
    ensures AllFit(NotePieces(wd, refs))
  {
    if refs.Some? {
      RefsFit(wd, refs.value);
      var middle := if refs.value != [] then RefsPieces(wd, refs.value) else wd.unrecorded;
      FitsConcat(wd.recurrence, middle);
      FitsConcat(wd.recurrence + middle, if Rendered(refs.value) then wd.buildOn else wd.noContent);
    }
  }

  // --- The turn --------------------------------------------------------------------------------------

  /** What the digest is rendered from, if an archive was read. */
  datatype Archive = Archive(candidates: seq<Candidate>, extra: nat, now: real, max: nat)

  datatype Turn = Turn(recall: Option<Recall.Block>, incidents: seq<Incident>, archive: Option<Archive>,
                       hold: Option<Hold>, refs: Option<seq<Ref>>)

  function RecallPart(t: Turn): Option<string> {
    if t.recall.Some? then Some(Recall.RecallText(t.recall.value)) else None
  }

  function DigestPart(t: Turn, stamp: real -> string): string {
    if t.archive.None? then ""
    else
      var a := t.archive.value;
      var text := DigestOf(a.candidates, a.extra, WriterOf(a.now, RenderingOf(stamp)), a.max).text;
      if text.Some? then text.value else ""
  }

  /** The framing up to the calendar title, and from there on. */
  function FramingBefore(t: Turn, wd: Wording): string {
    Render(wd.steps) + if t.hold.Some? then Render(IntroPieces()) else ""
  }

  function FramingAfter(t: Turn, wd: Wording): string {
    (if t.hold.Some? then Render(RestPieces(t.hold.value)) else "") + Render(NotePieces(wd, t.refs))
  }

  function Framing(t: Turn, wd: Wording): string {
    if t.hold.Some? then FramingBefore(t, wd) + (RenderTitle(t.hold.value.title) + FramingAfter(t, wd))
    else FramingBefore(t, wd) + FramingAfter(t, wd)
  }

  function ComposeTurn(t: Turn, wd: Wording, stamp: real -> string): string {
    Compose(RecallPart(t), t.incidents, DigestPart(t, stamp), Framing(t, wd))
  }

  /** What the application supplies: its wording, its stamps, its hash, its closed node set. */
  ghost predicate Supplied(t: Turn, wd: Wording, stamp: real -> string) {
    && IsWording(wd) && (forall at :: IsStamp(stamp(at)))
    && (t.recall.Some? ==> Recall.IsHash(t.recall.value.hash))
    && (forall i :: 0 <= i < |t.incidents| ==> TimesPlain(t.incidents[i]))
    && (t.archive.Some? ==> KnownHandoffs(t.archive.value.candidates))
    && (t.hold.Some? ==> IsStamp(t.hold.value.start) && IsStamp(t.hold.value.end))
  }

  lemma RecallPartPlain(t: Turn, wd: Wording, stamp: real -> string)
    requires Supplied(t, wd, stamp)
    ensures RecallPart(t).Some? ==> FreeOf(SENSOR, RecallPart(t).value)
  {
    if t.recall.Some? { Recall.RecallIsPlain(t.recall.value); }
  }

  lemma DigestPartPlain(t: Turn, wd: Wording, stamp: real -> string)
    requires Supplied(t, wd, stamp)
    ensures Composition.DigestPlain(DigestPart(t, stamp))
  {
    ShortIsFree("");
    if t.archive.Some? {
      var a := t.archive.value;
      RenderingIsPlain(stamp);
      DigestTextIsPlain(a.candidates, a.extra, a.now, RenderingOf(stamp), a.max);
    }
  }

  lemma BeforeIsFree(t: Turn, wd: Wording)
    requires IsWording(wd)
    ensures FreeOf(SENSOR, FramingBefore(t, wd))
  {
    RenderIsFree(wd.steps);
    if t.hold.Some? {
      IntroFits();
      FitRender(IntroPieces());
      JoinIsFree(Render(wd.steps), Render(IntroPieces()));
    } else {
      assert Render(wd.steps) + "" == Render(wd.steps);
    }
  }

  lemma AfterIsFree(t: Turn, wd: Wording)
    requires IsWording(wd) && (t.hold.Some? ==> IsStamp(t.hold.value.start) && IsStamp(t.hold.value.end))
    ensures FreeOf(SENSOR, FramingAfter(t, wd)) && (FramingAfter(t, wd) != "" ==> Seals(FramingAfter(t, wd)))
  {
    NoteFits(wd, t.refs);
    if t.hold.Some? {
      RestFits(t.hold.value);
      FitsConcat(RestPieces(t.hold.value), NotePieces(wd, t.refs));
      FitRender(RestPieces(t.hold.value) + NotePieces(wd, t.refs));
      RenderConcat(RestPieces(t.hold.value), NotePieces(wd, t.refs));
    } else {
      FitRender(NotePieces(wd, t.refs));
      assert "" + Render(NotePieces(wd, t.refs)) == Render(NotePieces(wd, t.refs));
    }
  }

  lemma PartsTrusted(t: Turn, wd: Wording, stamp: real -> string, framing: string)
    requires Supplied(t, wd, stamp) && FreeOf(SENSOR, framing)
    ensures TrustedParts(RecallPart(t), t.incidents, DigestPart(t, stamp), framing)
  {
    RecallPartPlain(t, wd, stamp);
    DigestPartPlain(t, wd, stamp);
  }

  // --- One block ---------------------------------------------------------------------------------------

  /** One begin marker, at `b`, one end marker, at `e`, and `middle` between them. */
  ghost predicate OneBlock(text: string, b: nat, e: nat, middle: string) {
    && (forall i: nat :: OccursAt(UNTRUSTED_BEGIN, text, i) <==> i == b)
    && (forall i: nat :: OccursAt(UNTRUSTED_END, text, i) <==> i == e)
    && b + |UNTRUSTED_BEGIN| <= e <= |text| && text[b + |UNTRUSTED_BEGIN|..e] == middle
  }

  lemma ComposedIsOneBlock(recall: Option<string>, incs: seq<Incident>, digest: string, framing: string)
    requires TrustedParts(recall, incs, digest, framing)
    ensures OneBlock(Compose(recall, incs, digest, framing), BeginAt(recall), EndAt(recall, incs, digest), Middle(incs, digest))
  {
    forall i: nat
      ensures OccursAt(UNTRUSTED_BEGIN, Compose(recall, incs, digest, framing), i) <==> i == BeginAt(recall)
      ensures OccursAt(UNTRUSTED_END, Compose(recall, incs, digest, framing), i) <==> i == EndAt(recall, incs, digest)
    {
      ComposedTurnHasOneBlock(recall, incs, digest, framing, i);
    }
    ComposedTurnHasOneBlock(recall, incs, digest, framing, 0);
  }

  lemma LiveFramingFree(t: Turn, wd: Wording)
    requires IsWording(wd) && t.hold.None?
    ensures FreeOf(SENSOR, Framing(t, wd))
  {
    BeforeIsFree(t, wd);
    AfterIsFree(t, wd);
    var a, b := FramingBefore(t, wd), FramingAfter(t, wd);
    if b != "" { JoinIsFree(a, b); } else { assert a + b == a; }
  }

  /** A live turn contains exactly one begin and one end marker, and all payload and digest
  text stands between them, whatever alerts, memories, handoffs and references say. */
  lemma LiveTurnHasOneBlock(t: Turn, wd: Wording, stamp: real -> string)
    requires Supplied(t, wd, stamp) && t.hold.None?
    ensures OneBlock(ComposeTurn(t, wd, stamp), BeginAt(RecallPart(t)), EndAt(RecallPart(t), t.incidents, DigestPart(t, stamp)),
                     Middle(t.incidents, DigestPart(t, stamp)))
  {
    LiveFramingFree(t, wd);
    PartsTrusted(t, wd, stamp, Framing(t, wd));
    ComposedIsOneBlock(RecallPart(t), t.incidents, DigestPart(t, stamp), Framing(t, wd));
  }

  // --- A release turn ------------------------------------------------------------------------------------

  lemma CharOfMarker(marker: string, text: string, i: nat, p: nat)
    requires OccursAt(marker, text, i) && i <= p < i + |marker|
    ensures text[p] in marker
  {
    OccurrenceAt(marker, text, i, p - i);
  }

  /** A marker with no character of `d` lies on one side of it. */
  lemma OccursAround(marker: string, a: string, d: string, b: string, i: nat)
    requires marker != "" && d != "" && forall k :: 0 <= k < |d| ==> d[k] !in marker
    ensures OccursAt(marker, a + d + b, i) <==>
              OccursAt(marker, a, i) || (i >= |a| + |d| && OccursAt(marker, b, i - |a| - |d|))
  {
    var text := a + d + b;
    if OccursAt(marker, text, i) {
      if i < |a| + |d| && i + |marker| > |a| {
        var p := if i < |a| then |a| else i;
        assert text[p] == d[p - |a|];
        CharOfMarker(marker, text, i, p);
      } else if i < |a| {
        assert text[i..i + |marker|] == a[i..i + |marker|];
      } else {
        assert text[i..i + |marker|] == b[i - |a| - |d|..i - |a| - |d| + |marker|];
      }
    }
    if OccursAt(marker, a, i) { assert text[i..i + |marker|] == a[i..i + |marker|]; }
    if i >= |a| + |d| && OccursAt(marker, b, i - |a| - |d|) {
      assert text[i..i + |marker|] == b[i - |a| - |d|..i - |a| - |d| + |marker|];
    }
  }

  lemma BeginLacksBrackets()
    ensures '<' !in UNTRUSTED_BEGIN && '>' !in UNTRUSTED_BEGIN && UNTRUSTED_BEGIN != ""
  {
  }

  lemma EndLacksBrackets()
    ensures '<' !in UNTRUSTED_END && '>' !in UNTRUSTED_END && UNTRUSTED_END != ""
  {
  }

  lemma FreeHasNoMarker(t: string, i: nat)
    requires FreeOf(SENSOR, t)
    ensures !OccursAt(UNTRUSTED_BEGIN, t, i) && !OccursAt(UNTRUSTED_END, t, i)
  {
    if OccursAt(UNTRUSTED_BEGIN, t, i) { BeginHasPhrase(t, i); }
    if OccursAt(UNTRUSTED_END, t, i) { EndHasPhrase(t, i); }
  }

  /** Where a marker stands in a text with a delimited title: before it, or within the title. */
  lemma OccursWithTitle(marker: string, a: string, shown: string, b: string, i: nat)
    requires marker == UNTRUSTED_BEGIN || marker == UNTRUSTED_END
    requires FreeOf(SENSOR, b)
    ensures OccursAt(marker, a + "<<<" + (shown + ">>>" + b), i) <==>
              OccursAt(marker, a, i) || (i >= |a| + 3 && OccursAt(marker, shown, i - |a| - 3))
  {
    BeginLacksBrackets();
    EndLacksBrackets();
    OccursAround(marker, a, "<<<", shown + ">>>" + b, i);
    if i >= |a| + 3 {
      OccursAround(marker, shown, ">>>", b, i - |a| - 3);
      if i - |a| - 3 >= |shown| + 3 { FreeHasNoMarker(b, i - |a| - 3 - |shown| - 3); }
    }
  }

  predicate Contains(marker: string, t: string) { exists i: nat :: i <= |t| && OccursAt(marker, t, i) }

  /** The title as shown holds neither marker: what a caller can check before the turn. */
  predicate ShowsNoMarker(title: string) {
    !Contains(UNTRUSTED_BEGIN, ShownTitle(title)) && !Contains(UNTRUSTED_END, ShownTitle(title))
  }

  /** A text that is one block stays one exactly when the title appended shows no marker. */
  lemma TitleKeepsOneBlock(a: string, shown: string, after: string, b: nat, e: nat, middle: string)
    requires OneBlock(a, b, e, middle) && FreeOf(SENSOR, after)
    ensures OneBlock(a + "<<<" + (shown + ">>>" + after), b, e, middle)
            <==> !Contains(UNTRUSTED_BEGIN, shown) && !Contains(UNTRUSTED_END, shown)
  {
    var text := a + "<<<" + (shown + ">>>" + after);
    forall marker: string, i: nat | marker == UNTRUSTED_BEGIN || marker == UNTRUSTED_END
      ensures OccursAt(marker, text, i) <==> OccursAt(marker, a, i) || (i >= |a| + 3 && OccursAt(marker, shown, i - |a| - 3))
    {
      OccursWithTitle(marker, a, shown, after, i);
    }
    assert text[b + |UNTRUSTED_BEGIN|..e] == a[b + |UNTRUSTED_BEGIN|..e];
    assert OccursAt(UNTRUSTED_BEGIN, a, b) && OccursAt(UNTRUSTED_END, a, e);
    if k: nat :| k <= |shown| && OccursAt(UNTRUSTED_BEGIN, shown, k) {
      assert OccursAt(UNTRUSTED_BEGIN, text, k + |a| + 3) && k + |a| + 3 != b;
    }
    if k: nat :| k <= |shown| && OccursAt(UNTRUSTED_END, shown, k) {
      assert OccursAt(UNTRUSTED_END, text, k + |a| + 3) && k + |a| + 3 != e;
    }
  }

  lemma HoldCut(pre: string, before: string, shown: string, after: string)
    ensures pre + (before + (("<<<" + shown + ">>>") + after)) == (pre + before) + "<<<" + (shown + ">>>" + after)
  {
  }

  lemma ComposeAppends(recall: Option<string>, incs: seq<Incident>, digest: string, before: string, shown: string, after: string)
    ensures Compose(recall, incs, digest, before + (("<<<" + shown + ">>>") + after))
         == Compose(recall, incs, digest, before) + "<<<" + (shown + ">>>" + after)
  {
    HoldCut(Before(recall) + Block(incs, digest) + "\n\n", before, shown, after);
  }

  /** A release turn has exactly one block if and only if the window's title, as shown, holds no
  marker. */
  lemma ReleaseTurnHasOneBlockIff(t: Turn, wd: Wording, stamp: real -> string)
    requires Supplied(t, wd, stamp) && t.hold.Some?
    ensures OneBlock(ComposeTurn(t, wd, stamp), BeginAt(RecallPart(t)), EndAt(RecallPart(t), t.incidents, DigestPart(t, stamp)),
                     Middle(t.incidents, DigestPart(t, stamp)))
            <==> ShowsNoMarker(t.hold.value.title)
  {
    var a, b, shown := FramingBefore(t, wd), FramingAfter(t, wd), ShownTitle(t.hold.value.title);
    BeforeIsFree(t, wd);
    AfterIsFree(t, wd);
    PartsTrusted(t, wd, stamp, a);
    ComposedIsOneBlock(RecallPart(t), t.incidents, DigestPart(t, stamp), a);
    ComposeAppends(RecallPart(t), t.incidents, DigestPart(t, stamp), a, shown, b);
    TitleKeepsOneBlock(Compose(RecallPart(t), t.incidents, DigestPart(t, stamp), a), shown, b, BeginAt(RecallPart(t)),
                       EndAt(RecallPart(t), t.incidents, DigestPart(t, stamp)), Middle(t.incidents, DigestPart(t, stamp)));
  }

  /** A title without either delimiter shows no marker. */
  lemma PlainTitleShowsNoMarker(title: string)
    requires !HasThree('<', title) && !HasThree('>', title)
    ensures ShowsNoMarker(title)
  {
    PlainTitleIsFree(title);
    forall i: nat ensures !OccursAt(UNTRUSTED_BEGIN, ShownTitle(title), i) && !OccursAt(UNTRUSTED_END, ShownTitle(title), i) {
      FreeHasNoMarker(ShownTitle(title), i);
    }
  }

  /** Not every title does: neutralising comes before stripping, and a title whose delimiters
  split the end marker shows it. It passes the calendar's prefix rule and its length cap. */
  lemma SplitMarkerIsShown()
    ensures !ShowsNoMarker(FORGING_TITLE) && "Homelab" <= FORGING_TITLE && |FORGING_TITLE| <= TITLE_MAX_CHARS
  {
    ForgingTitleShowsEndMarker();
    assert FORGING_TITLE[..7] == TITLE_A[..7] == "Homelab";
  }

  /** Whatever else its release turn holds, that title gives it a second end marker. */
  lemma SplitMarkerBreaksTheTurn(t: Turn, wd: Wording, stamp: real -> string)
    requires Supplied(t, wd, stamp) && t.hold.Some? && t.hold.value.title == FORGING_TITLE
    ensures !OneBlock(ComposeTurn(t, wd, stamp), BeginAt(RecallPart(t)), EndAt(RecallPart(t), t.incidents, DigestPart(t, stamp)),
                      Middle(t.incidents, DigestPart(t, stamp)))
  {
    SplitMarkerIsShown();
    ReleaseTurnHasOneBlockIff(t, wd, stamp);
  }

  // --- Where the phrase occurs -----------------------------------------------------------------------------

  /** The phrase occurs at these two places and nowhere else. */
  ghost predicate PhraseExactlyAt(text: string, b: nat, e: nat) {
    forall i: nat :: i <= |text| ==> (Starts(SENSOR, text[i..]) <==> i == b || i == e)
  }

  /** No match crosses punctuation. */
  lemma PhraseAround(a: string, d: string, b: string, i: nat)
    requires d != "" && (forall k :: 0 <= k < |d| ==> Punctuation(d[k])) && i <= |a + d + b|
    ensures Starts(SENSOR, (a + d + b)[i..]) <==>
              (i <= |a| && Starts(SENSOR, a[i..])) || (i >= |a| + |d| && Starts(SENSOR, b[i - |a| - |d|..]))
  {
    var text := a + d + b;
    PhraseShape(SENSOR);
    ShortIsFree("");
    if i <= |a| {
      assert text[i..] == a[i..] + (d + b) && (d + b)[0] == d[0];
      if Starts(SENSOR, text[i..]) { PunctuationStops(SENSOR, a[i..], d + b); }
      if Starts(SENSOR, a[i..]) { LongerStarts(a[i..], d + b); }
    } else if i < |a| + |d| {
      assert text[i..][0] == d[i - |a|];
      NoStartOtherwise(text[i..]);
    } else {
      assert text[i..] == b[i - |a| - |d|..];
    }
  }

  lemma BracketsArePunctuation()
    ensures forall k :: 0 <= k < |"<<<"| ==> Punctuation("<<<"[k])
    ensures forall k :: 0 <= k < |">>>"| ==> Punctuation(">>>"[k])
  {
  }

  /** Appending a delimited title adds exactly the phrases the title shows. */
  lemma PhraseWithTitle(a: string, shown: string, after: string, i: nat)
    requires FreeOf(SENSOR, after) && i <= |a + "<<<" + (shown + ">>>" + after)|
    ensures Starts(SENSOR, (a + "<<<" + (shown + ">>>" + after))[i..]) <==>
              (i <= |a| && Starts(SENSOR, a[i..]))
              || (|a| + 3 <= i <= |a| + 3 + |shown| && Starts(SENSOR, shown[i - |a| - 3..]))
  {
    BracketsArePunctuation();
    PhraseAround(a, "<<<", shown + ">>>" + after, i);
    if i >= |a| + 3 { PhraseAround(shown, ">>>", after, i - |a| - 3); }
  }

  lemma TitleKeepsPhrases(a: string, shown: string, after: string, b: nat, e: nat)
    requires PhraseExactlyAt(a, b, e) && b <= |a| && e <= |a| && FreeOf(SENSOR, after)
    ensures PhraseExactlyAt(a + "<<<" + (shown + ">>>" + after), b, e) <==> FreeOf(SENSOR, shown)
  {
    var text := a + "<<<" + (shown + ">>>" + after);
    forall i: nat | i <= |text|
      ensures Starts(SENSOR, text[i..]) <==>
                (i <= |a| && Starts(SENSOR, a[i..]))
                || (|a| + 3 <= i <= |a| + 3 + |shown| && Starts(SENSOR, shown[i - |a| - 3..]))
    {
      PhraseWithTitle(a, shown, after, i);
    }
    if PhraseExactlyAt(text, b, e) {
      forall k | 0 <= k <= |shown| ensures !Starts(SENSOR, shown[k..]) {
        var i := |a| + 3 + k;
        assert Starts(SENSOR, text[i..]) <==> i == b || i == e;
      }
    }
  }

  lemma ComposedPhrases(recall: Option<string>, incs: seq<Incident>, digest: string, framing: string)
    requires TrustedParts(recall, incs, digest, framing)
    ensures var text := Compose(recall, incs, digest, framing);
      var b, e := BeginAt(recall) + 12, EndAt(recall, incs, digest) + 10;
      PhraseExactlyAt(text, b, e) && b <= |text| && e <= |text|
  {
    var text := Compose(recall, incs, digest, framing);
    forall i: nat | i <= |text|
      ensures Starts(SENSOR, text[i..]) <==> i == BeginAt(recall) + 12 || i == EndAt(recall, incs, digest) + 10
    {
      PhraseOnlyInMarkers(recall, incs, digest, framing, i);
    }
    MarkersStand(recall, incs, digest, framing);
  }

  /** The sensor phrase, in any case or spacing, occurs in a live turn's two markers only. */
  lemma LiveTurnPhrases(t: Turn, wd: Wording, stamp: real -> string)
    requires Supplied(t, wd, stamp) && t.hold.None?
    ensures PhraseExactlyAt(ComposeTurn(t, wd, stamp), BeginAt(RecallPart(t)) + 12,
                            EndAt(RecallPart(t), t.incidents, DigestPart(t, stamp)) + 10)
  {
    LiveFramingFree(t, wd);
    PartsTrusted(t, wd, stamp, Framing(t, wd));
    ComposedPhrases(RecallPart(t), t.incidents, DigestPart(t, stamp), Framing(t, wd));
  }

  /** In a release turn this is so if and only if the title as shown is free of it. */
  lemma ReleaseTurnPhrasesIff(t: Turn, wd: Wording, stamp: real -> string)
    requires Supplied(t, wd, stamp) && t.hold.Some?
    ensures PhraseExactlyAt(ComposeTurn(t, wd, stamp), BeginAt(RecallPart(t)) + 12,
                            EndAt(RecallPart(t), t.incidents, DigestPart(t, stamp)) + 10)
            <==> FreeOf(SENSOR, ShownTitle(t.hold.value.title))
  {
    BeforeIsFree(t, wd);
    AfterIsFree(t, wd);
    PartsTrusted(t, wd, stamp, FramingBefore(t, wd));
    AppendedPhrasesIff(RecallPart(t), t.incidents, DigestPart(t, stamp), FramingBefore(t, wd), ShownTitle(t.hold.value.title),
                       FramingAfter(t, wd));
  }

  lemma AppendedPhrasesIff(recall: Option<string>, incs: seq<Incident>, digest: string, before: string, shown: string,
                           after: string)
    requires TrustedParts(recall, incs, digest, before) && FreeOf(SENSOR, after)
    ensures PhraseExactlyAt(Compose(recall, incs, digest, before + (("<<<" + shown + ">>>") + after)), BeginAt(recall) + 12,
                            EndAt(recall, incs, digest) + 10)
            <==> FreeOf(SENSOR, shown)
  {
    ComposedPhrases(recall, incs, digest, before);
    ComposeAppends(recall, incs, digest, before, shown, after);
    TitleKeepsPhrases(Compose(recall, incs, digest, before), shown, after, BeginAt(recall) + 12, EndAt(recall, incs, digest) + 10);
  }
}
