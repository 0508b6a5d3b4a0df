/** What an event turn leaves in: every incident's section, the whole digest, every remembered
fact, and a plain calendar title as it is (`henk/agent/triage.py`, `henk/agent/recall.py`,
`henk/tools/calendar.py`). */
module TurnShows {
  import opened Common
  import opened Markers
  import opened Composition
  import opened Styled
  import opened CalendarTitle
  import opened EventTurn
  import DigestText
  import Recall

  ghost predicate Within(x: string, t: string) { exists i: nat :: OccursAt(x, t, i) }

  lemma Placed(a: string, x: string, b: string)
    ensures Within(x, a + x + b)
  {
    assert OccursAt(x, a + x + b, |a|);
  }

  lemma SliceOfSlice(t: string, a: nat, b: nat, c: nat, d: nat)
    requires a <= b <= |t| && c <= d <= b - a
    ensures t[a..b][c..d] == t[a + c..a + d]
  {
    forall k | 0 <= k < d - c ensures t[a..b][c..d][k] == t[a + c..a + d][k] { assert t[a..b][c + k] == t[a + c + k]; }
  }

  lemma InFront(x: string, t: string, more: string)
    requires Within(x, t)
    ensures Within(x, t + more)
  {
    Placed("", t, more);
    assert "" + t + more == t + more;
    WithinWithin(x, t, t + more);
  }

  lemma AtTheEnd(t: string, lead: string, x: string)
    ensures Within(x, t + lead + x)
  {
    Placed(t + lead, x, "");
    assert t + lead + x + "" == t + lead + x;
  }

  lemma WithinWithin(x: string, y: string, z: string)
    requires Within(x, y) && Within(y, z)
    ensures Within(x, z)
  {
    var i: nat :| OccursAt(x, y, i);
    var j: nat :| OccursAt(y, z, j);
    SliceOfSlice(z, j, j + |y|, i, i + |x|);
    assert OccursAt(x, z, j + i);
  }

  // --- Incidents and digest ------------------------------------------------------------------

  /** One incident as the model reads it: numbered, every field neutralised but its two times. */
  function Section(n: nat, inc: Incident): string {
    Header(n, inc) + (" notified=" + inc.notified) + (" (notification time) received=" + inc.received) + Texts(inc)
  }

  function Header(n: nat, inc: Incident): string {
    ("[incident " + Digits(n)) + ("] source=" + Neutralise(inc.source)) + (" identity=" + Neutralise(inc.key))
    + (" state=" + Neutralise(inc.state))
  }

  function Texts(inc: Incident): string {
    "\ntitle: " + Neutralise(inc.title) + if inc.message != "" then "\ndetail: " + Neutralise(inc.message) else ""
  }

  lemma RenderTwo(a: string, b: string)
    ensures Render([a, b]) == a + b
  {
    assert [a, b][1..] == [b] && [b][1..] == [];
    assert Render([b]) == b + Render([]);
  }

  lemma RenderFour(a: seq<string>, b: seq<string>, c: seq<string>, d: seq<string>)
    ensures Render(a + b + c + d) == Render(a) + Render(b) + Render(c) + Render(d)
  {
    RenderConcat(a + b + c, d);
    RenderConcat(a + b, c);
    RenderConcat(a, b);
  }

  lemma Regroup(lead: string, a: string, b: string, c: string, d: string, e: string)
    ensures (lead + a + b) + c + d + e == lead + ((a + b) + c + d + e)
  {
  }

  lemma HeaderText(lead: string, n: nat, inc: Incident)
    ensures Render(HeaderPieces(lead, n, inc)) == lead + Header(n, inc)
  {
    RenderFour([lead + "[incident ", Digits(n)], ["] source=", Neutralise(inc.source)],
               [" identity=", Neutralise(inc.key)], [" state=", Neutralise(inc.state)]);
    RenderTwo(lead + "[incident ", Digits(n));
    RenderTwo("] source=", Neutralise(inc.source));
    RenderTwo(" identity=", Neutralise(inc.key));
    RenderTwo(" state=", Neutralise(inc.state));
    Regroup(lead, "[incident ", Digits(n), "] source=" + Neutralise(inc.source), " identity=" + Neutralise(inc.key),
            " state=" + Neutralise(inc.state));
  }

  lemma ReceivedTag()
    ensures RECEIVED == " (notification time) received="
  {
  }

  lemma TimeText(inc: Incident)
    ensures Render(TimePieces(inc)) == " notified=" + inc.notified + (" (notification time) received=" + inc.received)
  {
    RenderConcat([" notified=", inc.notified], [RECEIVED, inc.received]);
    RenderTwo(" notified=", inc.notified);
    RenderTwo(RECEIVED, inc.received);
    ReceivedTag();
  }

  lemma BodyText(inc: Incident)
    ensures Render(TextPieces(inc)) == Texts(inc)
  {
    var rest := if inc.message != "" then ["\ndetail: ", Neutralise(inc.message)] else [];
    RenderConcat(["\ntitle: ", Neutralise(inc.title)], rest);
    RenderTwo("\ntitle: ", Neutralise(inc.title));
    if inc.message != "" { RenderTwo("\ndetail: ", Neutralise(inc.message)); }
  }

  lemma LeadFirst(lead: string, a: string, b: string, c: string, d: string)
    ensures (lead + a) + (b + c) + d == lead + (a + b + c + d)
  {
  }

  lemma SectionText(lead: string, n: nat, inc: Incident)
    ensures Render(IncidentPieces(lead, n, inc)) == lead + Section(n, inc)
  {
    RenderConcat(HeaderPieces(lead, n, inc) + TimePieces(inc), TextPieces(inc));
    RenderConcat(HeaderPieces(lead, n, inc), TimePieces(inc));
    HeaderText(lead, n, inc);
    TimeText(inc);
    BodyText(inc);
    LeadFirst(lead, Header(n, inc), " notified=" + inc.notified, " (notification time) received=" + inc.received, Texts(inc));
  }

  /** A blank line between two sections. */
  function Gap(first: bool): string { if first then "\n" else "\n\n" }

  function Sections(incs: seq<Incident>): string {
    if incs == [] then ""
    else Sections(incs[..|incs| - 1]) + Gap(|incs| == 1) + Section(|incs|, incs[|incs| - 1])
  }

  lemma {:induction false} AllSections(incs: seq<Incident>)
    ensures Render(AllPieces(incs)) == Sections(incs)
  {
    if incs != [] {
      var front, last := incs[..|incs| - 1], incs[|incs| - 1];
      AllSections(front);
      SectionText(Lead(|incs| == 1), |incs|, last);
      RenderConcat(AllPieces(front), IncidentPieces(Lead(|incs| == 1), |incs|, last));
      Assoc(Sections(front), Gap(|incs| == 1), Section(|incs|, last));
    }
  }

  lemma {:induction false} SectionWithin(incs: seq<Incident>, j: nat)
    requires j < |incs|
    ensures Within(Section(j + 1, incs[j]), Sections(incs))
  {
    var front, last := incs[..|incs| - 1], Section(|incs|, incs[|incs| - 1]);
    if j == |incs| - 1 {
      AtTheEnd(Sections(front), Gap(|incs| == 1), last);
    } else {
      SectionWithin(front, j);
      InFront(Section(j + 1, incs[j]), Sections(front), Gap(|incs| == 1));
      InFront(Section(j + 1, incs[j]), Sections(front) + Gap(|incs| == 1), last);
    }
  }

  /** Between the markers stand the sections of all incidents, in order and numbered from one,
  and then the whole digest, if there is one. */
  lemma MiddleShowsAll(incs: seq<Incident>, digest: string)
    ensures Middle(incs, digest)
         == Sections(incs) + (if digest == "" then "" else Gap(incs == []) + digest) + Gap(incs == [] && digest == "")
    ensures forall j :: 0 <= j < |incs| ==> Within(Section(j + 1, incs[j]), Middle(incs, digest))
    ensures Within(digest, Middle(incs, digest))
  {
    AllSections(incs);
    var second := if digest == "" then "" else Gap(incs == []) + digest;
    forall j | 0 <= j < |incs| ensures Within(Section(j + 1, incs[j]), Middle(incs, digest)) {
      SectionWithin(incs, j);
      InFront(Section(j + 1, incs[j]), Sections(incs), second);
      InFront(Section(j + 1, incs[j]), Sections(incs) + second, Gap(incs == [] && digest == ""));
    }
    DigestWithin(Sections(incs), Gap(incs == []), digest, Gap(incs == [] && digest == ""));
  }

  lemma DigestWithin(front: string, gap: string, digest: string, end: string)
    ensures Within(digest, front + (if digest == "" then "" else gap + digest) + end)
  {
    if digest == "" {
      assert OccursAt("", front + "" + end, 0);
    } else {
      AtTheEnd(front, gap, digest);
      assert front + (gap + digest) == front + gap + digest;
      InFront(digest, front + gap + digest, end);
    }
  }

  // --- Remembered facts ----------------------------------------------------------------------

  lemma {:induction false} StripEndIsPrefix(t: string)
    ensures DigestText.StripEnd(t) <= t
  {
    if t != "" && IsSpace(t[|t| - 1]) { StripEndIsPrefix(t[..|t| - 1]); }
  }

  /** Stripping the end of a text leaves what it would leave of any part of it. */
  lemma {:induction false} StripEndKeeps(a: string, x: string, rest: string)
    requires DigestText.StripEnd(x) != ""
    ensures a + DigestText.StripEnd(x) <= DigestText.StripEnd(a + x + rest)
    decreases |x| + |rest|
  {
    var t := a + x + rest;
    StripEndIsPrefix(x);
    if IsSpace(t[|t| - 1]) {
      if rest != "" {
        assert t[..|t| - 1] == a + x + rest[..|rest| - 1];
        StripEndKeeps(a, x, rest[..|rest| - 1]);
      } else {
        assert t[..|t| - 1] == a + x[..|x| - 1] + "";
        StripEndKeeps(a, x[..|x| - 1], "");
      }
    }
  }

  /** A fact as its line shows it; the block's last line loses trailing whitespace. */
  function FactLine(fact: string): string { DigestText.StripEnd("\n- " + Neutralise(fact)) }

  lemma {:induction false} FactLineNotEmpty(tail: string)
    ensures DigestText.StripEnd("\n-" + tail) != ""
    decreases |tail|
  {
    var t := "\n-" + tail;
    if tail != "" {
      assert t[..|t| - 1] == "\n-" + tail[..|tail| - 1];
      FactLineNotEmpty(tail[..|tail| - 1]);
    }
  }

  lemma {:induction false} PieceWithin(pieces: seq<string>, i: nat) returns (a: string, b: string)
    requires i < |pieces|
    ensures Render(pieces) == a + pieces[i] + b
  {
    if i == 0 {
      a, b := "", Render(pieces[1..]);
    } else {
      a, b := PieceWithin(pieces[1..], i - 1);
      a := pieces[0] + a;
      assert Render(pieces) == pieces[0] + Render(pieces[1..]);
    }
  }

  lemma {:induction false} FactIsPiece(gs: seq<Recall.Group>, g: nat, k: nat) returns (i: nat)
    requires g < |gs| && k < |gs[g].facts|
    ensures i < |Recall.GroupsPieces(gs)| && Recall.GroupsPieces(gs)[i] == "\n- " + Neutralise(gs[g].facts[k])
    decreases |gs|
  {
    var n := |gs| - 1;
    var before, last := Recall.GroupsPieces(gs[..n]), Recall.GroupPieces(gs[n]);
    if g == n {
      i := |before| + 1 + k;
      assert last[1 + k] == Recall.FactLines(gs[n].facts)[k];
    } else {
      i := FactIsPiece(gs[..n], g, k);
    }
  }

  /** A line of a text is still in it when its end is stripped and it is framed. */
  lemma LineIsKept(x: string, line: string, y: string, head: string, tail: string)
    requires DigestText.StripEnd(line) != ""
    ensures Within(DigestText.StripEnd(line), head + DigestText.StripEnd(x + line + y) + tail)
  {
    StripEndKeeps(x, line, y);
    var shown, body := DigestText.StripEnd(line), DigestText.StripEnd(x + line + y);
    var rest := body[|x + shown|..];
    Placed(x, shown, rest);
    assert body == x + shown + rest;
    Placed(head, body, tail);
    WithinWithin(shown, body, head + body + tail);
  }

  lemma FactInBody(b: Recall.Block, g: nat, k: nat) returns (x: string, y: string)
    requires g < |b.groups| && k < |b.groups[g].facts|
    ensures "The lines" + Render(Recall.BodyPieces(b)) == x + ("\n- " + Neutralise(b.groups[g].facts[k])) + y
  {
    var i := FactIsPiece(b.groups, g, k);
    var start := Recall.FRAMING_START + Recall.FRAMING_MIDDLE + Recall.FRAMING_END;
    var line := "\n- " + Neutralise(b.groups[g].facts[k]);
    PieceAt(start, Recall.GroupsPieces(b.groups), Recall.OmittedPieces(b.omitted, b.total), i);
    x, y := PieceWithin(Recall.BodyPieces(b), |start| + i);
    AddInFront("The lines", x, line, y);
    x := "The lines" + x;
  }

  lemma PieceAt(a: seq<string>, b: seq<string>, c: seq<string>, i: nat)
    requires i < |b|
    ensures (a + b + c)[|a| + i] == b[i]
  {
  }

  lemma AddInFront(head: string, x: string, line: string, y: string)
    ensures head + (x + line + y) == (head + x) + line + y
  {
  }

  lemma Wrapped(b: Recall.Block) returns (head: string, tail: string)
    ensures Recall.RecallText(b) == head + Recall.Body(b) + tail
  {
    head, tail := RECALL_BEGIN + "\n", "\n" + (RECALL_END_PREFIX + (" (memory-hash: " + (b.hash + ") =====")));
    Assoc(RECALL_BEGIN, "\n", Recall.Body(b));
  }

  /** Every fact that the bound kept is in the recall block, on a line of its own. */
  lemma EveryFactIsShown(b: Recall.Block, g: nat, k: nat)
    requires g < |b.groups| && k < |b.groups[g].facts|
    ensures Within(FactLine(b.groups[g].facts[k]), Recall.RecallText(b))
  {
    var x, y := FactInBody(b, g, k);
    var head, tail := Wrapped(b);
    FactLineIsNotEmpty(b.groups[g].facts[k]);
    LineIsKept(x, "\n- " + Neutralise(b.groups[g].facts[k]), y, head, tail);
  }

  lemma FactLineIsNotEmpty(fact: string)
    ensures FactLine(fact) != ""
  {
    assert "\n- " + Neutralise(fact) == "\n-" + (" " + Neutralise(fact));
    FactLineNotEmpty(" " + Neutralise(fact));
  }

  /** When memories were left out the block says how many, and out of how many. */
  lemma OmissionShown(omitted: nat, total: nat)
    ensures Render(Recall.OmittedPieces(omitted, total))
         == if omitted == 0 then ""
            else ("\n\n(" + Digits(omitted)) + Render(Recall.OMITTED_START) + (" " + Digits(total)) + Render(Recall.OMITTED_END)
  {
    if omitted > 0 {
      RenderFour(["\n\n(" + Digits(omitted)], Recall.OMITTED_START, [" " + Digits(total)], Recall.OMITTED_END);
      RenderOne("\n\n(" + Digits(omitted));
      RenderOne(" " + Digits(total));
    }
  }

  // --- The notes in the framing ----------------------------------------------------------------

  /** The note of a release says that it may be stale exactly when the hold ended more than a day
  ago, and then for how many whole hours. */
  lemma StaleIsSaid(age: real)
    ensures StalePieces(age) == [] <==> age <= 24.0 * 3600.0
    ensures age > 24.0 * 3600.0 ==>
              exists hours: nat :: hours as real * 3600.0 <= age < (hours + 1) as real * 3600.0
                                   && StalePieces(age) == [" This hold is " + Digits(hours)] + MAY_BE_STALE
  {
    if age > 86400.0 {
      var hours: nat := (age / 3600.0).Floor;
      assert hours as real <= age / 3600.0 < (hours + 1) as real;
      assert StalePieces(age) == [" This hold is " + Digits(hours)] + MAY_BE_STALE;
    }
  }

  lemma TimesShown(h: Hold)
    ensures Render([" (from " + h.start, " until its end plus", " grace at " + h.end, ") and"])
         == ((" (from " + h.start) + " until its end plus") + ((" grace at " + h.end) + ") and")
  {
    var a, b := [" (from " + h.start, " until its end plus"], [" grace at " + h.end, ") and"];
    assert [" (from " + h.start, " until its end plus", " grace at " + h.end, ") and"] == a + b;
    RenderConcat(a, b);
    RenderTwo(" (from " + h.start, " until its end plus");
    RenderTwo(" grace at " + h.end, ") and");
  }

  lemma RenderSeven(a: seq<string>, b: seq<string>, c: seq<string>, d: seq<string>, e: seq<string>, f: seq<string>, g: seq<string>)
    ensures Render(a + b + c + d + e + f + g)
         == Render(a) + Render(b) + Render(c) + Render(d) + Render(e) + Render(f) + Render(g)
  {
    RenderFour(a + b + c + d, e, f, g);
    RenderFour(a, b, c, d);
  }

  /** The note of a release, after its title: when it was planned from, until when it held, what
  is asked of the triage, and whether it may be stale. */
  lemma HoldNoteSays(h: Hold)
    ensures Render(RestPieces(h))
         == ((" (from " + h.start) + " until its end plus") + ((" grace at " + h.end) + ") and") + Render(HELD_UNTIL)
            + Render(STILL_FIRING) + Render(FINDING) + Render(CHECK_STATE) + Render(WAS_HELD) + Render(StalePieces(h.age))
  {
    RenderSeven([" (from " + h.start, " until its end plus", " grace at " + h.end, ") and"], HELD_UNTIL, STILL_FIRING, FINDING,
                CHECK_STATE, WAS_HELD, StalePieces(h.age));
    TimesShown(h);
  }

  /** It opens by naming the window. */
  lemma HoldNoteOpens()
    ensures Render(IntroPieces()) == "\n\nMaintenance" + Render(FIRED_DURING) + " window "
  {
    RenderConcat(["\n\nMaintenance"] + FIRED_DURING, [" window "]);
    RenderConcat(["\n\nMaintenance"], FIRED_DURING);
    RenderOne("\n\nMaintenance");
    RenderOne(" window ");
  }

  function RefsText(wd: Wording, refs: seq<Ref>): string {
    if refs == [] then ""
    else
      var last := refs[|refs| - 1];
      RefsText(wd, refs[..|refs| - 1]) + (" The prior handoff " + Neutralise(last.messageId) + Render(wd.tail(last.state)))
  }

  lemma {:induction false} RefsSaid(wd: Wording, refs: seq<Ref>)
    ensures Render(RefsPieces(wd, refs)) == RefsText(wd, refs)
  {
    if refs != [] {
      var front, last := refs[..|refs| - 1], refs[|refs| - 1];
      RefsSaid(wd, front);
      RenderConcat(RefsPieces(wd, front), RefPieces(wd, last));
      RenderConcat([" The prior handoff " + Neutralise(last.messageId)], wd.tail(last.state));
      RenderOne(" The prior handoff " + Neutralise(last.messageId));
    }
  }

  /** The recurrence note names every reference, in order, with what became of it, and asks to
  build on them exactly when some handoff is in the block; without a recurrence it is not
  there. */
  lemma RecurrenceNoteSays(wd: Wording, refs: Option<seq<Ref>>)
    ensures refs.None? ==> Render(NotePieces(wd, refs)) == ""
    ensures refs.Some? ==>
              var inBlock := exists r :: r in refs.value && (r.state == Reference || r.state == EventTurn.Shown);
              Render(NotePieces(wd, refs))
              == Render(wd.recurrence) + (if refs.value == [] then Render(wd.unrecorded) else RefsText(wd, refs.value))
                 + if inBlock then Render(wd.buildOn) else Render(wd.noContent)
  {
    if refs.Some? {
      var middle := if refs.value != [] then RefsPieces(wd, refs.value) else wd.unrecorded;
      var last := if Rendered(refs.value) then wd.buildOn else wd.noContent;
      RefsSaid(wd, refs.value);
      RenderConcat(wd.recurrence + middle, last);
      RenderConcat(wd.recurrence, middle);
      if r :| r in refs.value && (r.state == Reference || r.state == EventTurn.Shown) {
        var i :| 0 <= i < |refs.value| && refs.value[i] == r;
      }
    }
  }

  // --- The whole turn ------------------------------------------------------------------------

  /** The turn is the recall block, the untrusted block and the framing, in this order. */
  lemma TurnIsItsParts(t: Turn, wd: Wording, stamp: real -> string)
    ensures ComposeTurn(t, wd, stamp)
         == (if t.recall.Some? then Recall.RecallText(t.recall.value) + "\n\n" else "")
            + (UNTRUSTED_BEGIN + Middle(t.incidents, DigestPart(t, stamp)) + UNTRUSTED_END) + "\n\n" + Framing(t, wd)
  {
  }

  // --- A plain title -------------------------------------------------------------------------

  /** Single spaces between words, and none at the ends. */
  predicate Spaced(t: string) {
    && (t != "" ==> !IsSpace(t[0]) && !IsSpace(t[|t| - 1]))
    && forall i :: 0 <= i < |t| && IsSpace(t[i]) ==> t[i] == ' ' && (i + 1 < |t| ==> !IsSpace(t[i + 1]))
  }

  lemma {:induction false} SpacedIsFlat(t: string)
    requires Spaced(t)
    ensures Flat(t) == t
    decreases |t|
  {
    if |t| > 1 {
      var n := if IsSpace(t[1]) then 2 else 1;
      assert Spaced(t[n..]) by {
        assert t[|t| - 1] == t[n..][|t[n..]| - 1];
        forall i | 0 <= i < |t[n..]| && IsSpace(t[n..][i])
          ensures t[n..][i] == ' ' && (i + 1 < |t[n..]| ==> !IsSpace(t[n..][i + 1]))
        {
          assert t[n..][i] == t[i + n] && (i + 1 < |t[n..]| ==> t[n..][i + 1] == t[i + 1 + n]);
        }
      }
      SpacedIsFlat(t[n..]);
      if n == 2 { SpaceThenWord(t); } else { assert t == [t[0]] + t[1..]; }
    }
  }

  lemma SpaceThenWord(t: string)
    requires |t| > 2 && !IsSpace(t[0]) && t[1] == ' ' && !IsSpace(t[2]) && Flat(t[2..]) == t[2..]
    ensures FlatWord(t) == t
  {
    assert t[1..][1..] == t[2..];
    assert Flat(t[1..]) == Flat(t[2..]);
    assert t == [t[0]] + (" " + t[2..]);
  }

  /** An ordinary title, short, with single spaces, no marker shape and no delimiter, is shown
  to the model exactly as the calendar has it. */
  lemma PlainTitleIsShown(title: string)
    requires NoRun(title) && NoPhrase(title) && !HasThree('<', title) && !HasThree('>', title)
    requires Spaced(title) && |title| <= 120
    ensures RenderTitle(title) == "<<<" + title + ">>>"
  {
    NeutraliseFixes(title);
    SpacedIsFlat(title);
  }
}
