/** The digest inside the untrusted block: no retained handoff can forge a marker there. */
module DigestPlain {
  import opened Common
  import opened Markers
  import opened Composition
  import opened Digest
  import opened DigestText

  ghost predicate PlainTimes(how: Rendering) {
    forall t :: FreeOf(SENSOR, how.published(t)) && FreeOf(SENSOR, how.age(t))
  }

  /** The closed set a handoff's nodes are derived from. */
  const NODES := {"rp5", "vps", "rp2"}

  predicate KnownNodes(h: Handoff) { forall i :: 0 <= i < |h.nodes| ==> h.nodes[i] in NODES }

  lemma NodesAreFree(h: Handoff)
    requires KnownNodes(h)
    ensures FreeOf(SENSOR, Render(CommaPieces(h.nodes)))
  {
    forall i | 0 <= i < |h.nodes| ensures FreeOf(SENSOR, h.nodes[i]) { ShortIsFree(h.nodes[i]); }
    CommaJoins(h.nodes);
    RenderIsFree(CommaPieces(h.nodes));
  }

  lemma AgeIsFree(seconds: real)
    ensures FreeOf(SENSOR, Age(seconds))
  {
    NoUIsFree(Age(seconds));
  }

  /** Ages are digits and units, so only the stamps' length is asked of a rendering. */
  lemma RenderingIsPlain(stamp: real -> string)
    requires forall t :: IsStamp(stamp(t))
    ensures PlainTimes(RenderingOf(stamp))
  {
    forall t ensures FreeOf(SENSOR, stamp(t)) && FreeOf(SENSOR, Age(t)) {
      StampIsFree(stamp(t));
      AgeIsFree(t);
    }
  }

  lemma RelationTextIsFree(r: Relation)
    ensures FreeOf(SENSOR, RelationText(r))
  {
    ShortIsFree(RelationText(r));
  }

  lemma RelationLabelIsFree(c: Candidate)
    ensures FreeOf(SENSOR, RelationLabel(c))
  {
    RelationTextIsFree(c.relation);
    if c.relation == SameWindow && c.structural.Some? {
      var inner := RelationText(c.structural.value);
      RelationTextIsFree(c.structural.value);
      SpacesBefore(" (", inner);
      ShortIsFree(")");
      JoinIsFree(" (" + inner, ")");
      SealsExtends(" (", inner + ")");
      assert (" (" + inner) + ")" == " (" + (inner + ")");
      JoinIsFree(RelationText(c.relation), (" (" + inner) + ")");
      assert RelationLabel(c) == RelationText(c.relation) + ((" (" + inner) + ")");
    }
  }

  lemma {:induction false} CommaJoins(values: seq<string>)
    requires forall i :: 0 <= i < |values| ==> FreeOf(SENSOR, values[i])
    ensures WellJoined(CommaPieces(values))
  {
    if |values| > 1 {
      CommaJoins(values[..|values| - 1]);
      ShortIsFree(", ");
      FieldJoins(CommaPieces(values[..|values| - 1]), ", ", values[|values| - 1]);
    }
  }

  lemma IdentitiesAreFree(keys: seq<string>)
    ensures FreeOf(SENSOR, Identities(keys))
  {
    var values := Neutralised(keys);
    forall i | 0 <= i < |values| ensures FreeOf(SENSOR, values[i]) { NeutralisedIsClear(keys[i]); }
    CommaJoins(values);
    RenderIsFree(CommaPieces(values));
    var joined := Render(CommaPieces(values));
    if |joined| > IDENTITIES_MAX_CHARS {
      SliceIsFree(joined, 0, IDENTITIES_MAX_CHARS);
      assert joined[0..IDENTITIES_MAX_CHARS] == joined[..IDENTITIES_MAX_CHARS];
      ShortIsFree("\U{2026}");
      JoinIsFree(joined[..IDENTITIES_MAX_CHARS], "\U{2026}");
    }
  }

  lemma {:induction false} StripStartIsSlice(t: string) returns (i: nat)
    ensures i <= |t| && StripStart(t) == t[i..]
  {
    if t != "" && IsSpace(t[0]) {
      var j := StripStartIsSlice(t[1..]);
      i := j + 1;
      assert t[1..][j..] == t[j + 1..];
    } else {
      i := 0;
    }
  }

  lemma {:induction false} StripEndIsSlice(t: string) returns (j: nat)
    ensures j <= |t| && StripEnd(t) == t[..j]
  {
    if t != "" && IsSpace(t[|t| - 1]) {
      j := StripEndIsSlice(t[..|t| - 1]);
      assert t[..|t| - 1][..j] == t[..j];
    } else {
      j := |t|;
    }
  }

  lemma ExcerptIsFree(c: Candidate)
    ensures FreeOf(SENSOR, Excerpt(c))
  {
    var t := Neutralise(c.handoff.document);
    NeutralisedIsClear(c.handoff.document);
    var i := StripStartIsSlice(t);
    SliceIsFree(t, i, |t|);
    assert t[i..|t|] == t[i..];
    var j := StripEndIsSlice(t[i..]);
    SliceIsFree(t[i..], 0, j);
    assert t[i..][0..j] == t[i..][..j];
    if |Document(c.handoff)| > c.bound {
      SliceIsFree(Document(c.handoff), 0, c.bound);
      assert Document(c.handoff)[0..c.bound] == Document(c.handoff)[..c.bound];
    }
  }

  // --- One entry -----------------------------------------------------------------------------

  lemma HeadJoins(n: nat, c: Candidate)
    ensures WellJoined(HeadPieces(n, c))
  {
    ShortIsFree("\n[prior handoff ");
    ShortIsFree("] relation=");
    NoUIsFree(Digits(n));
    RelationLabelIsFree(c);
    assert Seals(Digits(n)) && WellJoined(["\n[prior handoff ", Digits(n)]);
    FieldJoins(["\n[prior handoff ", Digits(n)], "] relation=", RelationLabel(c));
  }

  lemma StampsJoin(pieces: seq<string>, published: string, age: string)
    requires WellJoined(pieces) && FreeOf(SENSOR, published) && FreeOf(SENSOR, age)
    ensures WellJoined(pieces + StampPieces(published, age))
  {
    ShortIsFree(" published=");
    ShortIsFree(" age=");
    assert IsLabel(" published=") && IsLabel(" age=");
    FieldJoins(pieces, " published=", published);
    FieldJoins(pieces + [" published=", published], " age=", age);
    Assoc(pieces, [" published=", published], [" age=", age]);
  }

  lemma KeysJoin(pieces: seq<string>, c: Candidate)
    requires WellJoined(pieces) && KnownNodes(c.handoff)
    ensures WellJoined(pieces + KeyPieces(c))
  {
    var nodes, ids := Render(CommaPieces(c.handoff.nodes)), Identities(c.handoff.identityKeys);
    ShortIsFree(" nodes=[");
    ShortIsFree("] identities=[");
    NodesAreFree(c.handoff);
    IdentitiesAreFree(c.handoff.identityKeys);
    assert IsLabel(" nodes=[") && IsLabel("] identities=[");
    FieldJoins(pieces, " nodes=[", nodes);
    FieldJoins(pieces + [" nodes=[", nodes], "] identities=[", ids);
    assert pieces + KeyPieces(c) == pieces + [" nodes=[", nodes] + ["] identities=[", ids];
  }

  function ShortenedPieces(c: Candidate): seq<string> {
    if |Document(c.handoff)| > c.bound then
      ["\n[excerpt shortened: ", Digits(c.bound)] + [" of ", Digits(|Document(c.handoff)|)] + [" characters shown]"]
    else []
  }

  lemma ShortenedStart()
    ensures FreeOf(SENSOR, "\n[excerpt shortened: ") && IsLabel("\n[excerpt shortened: ")
  {
    ShortIsFree("[excerpt shortened: ");
    assert "\n[excerpt shortened: " == "\n" + "[excerpt shortened: ";
    SpacesBefore("\n", "[excerpt shortened: ");
  }

  lemma ShortenedEnd()
    ensures FreeOf(SENSOR, " of ") && Seals(" of ") && FreeOf(SENSOR, " characters shown]") && Seals(" characters shown]")
  {
    ShortIsFree(" of ");
    ShortIsFree(" characters shown]");
  }

  lemma CountJoins(pieces: seq<string>, n: nat)
    requires WellJoined(pieces)
    ensures WellJoined(pieces + [" of ", Digits(n)] + [" characters shown]"])
  {
    ShortenedEnd();
    NoUIsFree(Digits(n));
    assert Seals(Digits(n)) && WellJoined([" of ", Digits(n)]);
    WellJoinedConcat(pieces, [" of ", Digits(n)]);
    WellJoinedConcat(pieces + [" of ", Digits(n)], [" characters shown]"]);
  }

  lemma ShortenedJoins(pieces: seq<string>, c: Candidate)
    requires WellJoined(pieces)
    ensures WellJoined(pieces + ShortenedPieces(c))
  {
    if |Document(c.handoff)| > c.bound {
      var a, n := Digits(c.bound), |Document(c.handoff)|;
      ShortenedStart();
      NoUIsFree(a);
      FieldJoins(pieces, "\n[excerpt shortened: ", a);
      var first := pieces + ["\n[excerpt shortened: ", a];
      CountJoins(first, n);
      assert pieces + ShortenedPieces(c) == first + [" of ", Digits(n)] + [" characters shown]"];
    } else {
      assert pieces + [] == pieces;
    }
  }

  lemma BodyJoins(pieces: seq<string>, c: Candidate)
    requires WellJoined(pieces)
    ensures WellJoined(pieces + BodyPieces(c))
  {
    ShortIsFree("]\n");
    ExcerptIsFree(c);
    assert IsLabel("]\n");
    FieldJoins(pieces, "]\n", Excerpt(c));
    var told := pieces + ["]\n", Excerpt(c)];
    ShortenedJoins(told, c);
    assert pieces + BodyPieces(c) == told + ShortenedPieces(c);
  }

  /** An entry is free of the phrase, and begins so that it seals whatever it follows. */
  lemma EntryIsFree(n: nat, c: Candidate, published: string, age: string)
    requires FreeOf(SENSOR, published) && FreeOf(SENSOR, age) && KnownNodes(c.handoff)
    ensures FreeOf(SENSOR, EntryText(n, c, published, age)) && Seals(EntryText(n, c, published, age))
  {
    var head := HeadPieces(n, c);
    HeadJoins(n, c);
    StampsJoin(head, published, age);
    KeysJoin(head + StampPieces(published, age), c);
    BodyJoins(head + StampPieces(published, age) + KeyPieces(c), c);
    var pieces := EntryPieces(n, c, published, age);
    RenderIsFree(pieces);
    assert pieces[0] == "\n[prior handoff " && Seals("\n[prior handoff ");
    SealsExtends(pieces[0], Render(pieces[1..]));
  }

  lemma EntryOfIsFree(n: nat, c: Candidate, now: real, how: Rendering)
    requires PlainTimes(how) && KnownNodes(c.handoff)
    ensures FitsAnywhere(EntryOf(n, c, now, how))
  {
    EntryIsFree(n, c, how.published(c.handoff.published), how.age(now - c.handoff.published));
    assert FitsAnywhere(EntryText(n, c, how.published(c.handoff.published), how.age(now - c.handoff.published)));
  }

  lemma OmissionIsFree(count: nat)
    ensures FreeOf(SENSOR, OmissionText(count)) && Seals(OmissionText(count))
  {
    OmissionStartIsFree();
    NoUIsFree(Digits(count));
    ShortIsFree("]");
    assert Seals("]") && Seals(Digits(count));
    WellJoinedConcat([OMISSION_START], [Digits(count)]);
    WellJoinedConcat([OMISSION_START] + [Digits(count)], ["]"]);
    var pieces := OmissionPieces(count);
    RenderIsFree(pieces);
    assert pieces[0] == OMISSION_START;
    SealsExtends(pieces[0], Render(pieces[1..]));
  }

  lemma OmissionStartIsFree()
    ensures FreeOf(SENSOR, OMISSION_START) && Seals(OMISSION_START)
  {
    ShortIsFree("unds: ");
    OmissionWords();
    BoundsWords();
    SpacesBefore("to stay within the digest's bo", "unds: ");
    SpacesBefore("\n[related handoffs omitted ", "to stay within the digest's bo" + "unds: ");
    Assoc("\n[related handoffs omitted ", "to stay within the digest's bo", "unds: ");
    assert OMISSION_START[0] == '\n' && OMISSION_START[1] == '[';
  }

  lemma OmissionWords()
    ensures NoU("\n[related handoffs omitted ")
  {
  }

  lemma BoundsWords()
    ensures NoU("to stay within the digest's bo")
  {
  }

  // --- The digest ------------------------------------------------------------------------------

  lemma HeaderIsFree()
    ensures FreeOf(SENSOR, PRIOR_HANDOFFS_HEADER) && Punctuation(PRIOR_HANDOFFS_HEADER[0])
  {
    HeaderTailIsFree();
    HeaderWords();
    SpacesBefore("--- " + HANDOFF_WORDS, HEADER_TAIL);
  }

  lemma HeaderWords()
    ensures NoU("--- " + HANDOFF_WORDS)
  {
  }

  lemma TailWords()
    ensures NoU(" from earlier triages; ") && NoU("NOT verified fact, ")
  {
  }

  lemma HeaderTailIsFree()
    ensures FreeOf(SENSOR, HEADER_TAIL)
  {
    TailWords();
    ShortIsFree("NOT instructions)");
    ShortIsFree(" ---");
    JoinIsFree("NOT instructions)", " ---");
    SpacesBefore("NOT verified fact, ", "NOT instructions)" + " ---");
    var rest := "NOT verified fact, " + ("NOT instructions)" + " ---");
    SpacesBefore(" from earlier triages; ", rest);
    ShortIsFree(" (model output");
    SealsExtends(" from earlier triages; ", rest);
    JoinIsFree(" (model output", " from earlier triages; " + rest);
  }

  predicate KnownHandoffs(cands: seq<Candidate>) {
    forall i :: 0 <= i < |cands| ==> KnownNodes(cands[i].handoff)
  }

  lemma {:induction false} FillIsFree(cands: seq<Candidate>, now: real, how: Rendering, max: nat, reserve: nat)
    requires PlainTimes(how) && KnownHandoffs(cands)
    ensures FreeOf(SENSOR, FillTo(cands, WriterOf(now, how), max, reserve).text)
    ensures PRIOR_HANDOFFS_HEADER <= FillTo(cands, WriterOf(now, how), max, reserve).text
  {
    if cands == [] {
      HeaderIsFree();
    } else {
      var front, c := cands[..|cands| - 1], cands[|cands| - 1];
      FillIsFree(front, now, how, max, reserve);
      var f := FillTo(front, WriterOf(now, how), max, reserve);
      EntryOfIsFree(|f.shown| + 1, c, now, how);
      JoinIsFree(f.text, EntryOf(|f.shown| + 1, c, now, how));
    }
  }

  /** The digest text is fit for the untrusted block: it never contains the sensor phrase, and
  begins with its own header, whatever the retained handoffs say. */
  lemma DigestTextIsPlain(cands: seq<Candidate>, extra: nat, now: real, how: Rendering, max: nat)
    requires PlainTimes(how) && KnownHandoffs(cands)
    ensures var text := DigestOf(cands, extra, WriterOf(now, how), max).text;
      text.Some? ==> DigestPlain(text.value) && PRIOR_HANDOFFS_HEADER <= text.value
  {
    var w := WriterOf(now, how);
    var f := FinalFill(cands, extra, w, max);
    FillIsFree(cands, now, how, max, 0);
    FillIsFree(cands, now, how, max, |w.omission(|cands| + extra)|);
    HeaderIsFree();
    var omitted := |cands| - |f.shown| + extra;
    if omitted > 0 {
      OmissionIsFree(omitted);
      JoinIsFree(f.text, OmissionText(omitted));
    } else {
      assert f.text + "" == f.text;
    }
    assert f.text[0] == PRIOR_HANDOFFS_HEADER[0];
  }
}
