/** What one digest entry says: its header, its age, its excerpt, and the marker for what was
left out (`_entry`, `_age`, `_identities` and `_omission` of `henk/agent/digest.py`). */
module EntryLaws {
  import opened Common
  import opened Markers
  import opened Composition
  import opened Digest
  import opened DigestText

  // --- Numbers ---------------------------------------------------------------------------------

  function ValueOf(d: string): int {
    if d == "" then 0 else ValueOf(d[..|d| - 1]) * 10 + (d[|d| - 1] as int - '0' as int)
  }

  predicate AllDigits(d: string) { forall i :: 0 <= i < |d| ==> '0' <= d[i] <= '9' }

  /** A number reads back as itself and has no leading zero. */
  lemma {:induction false} DigitsRead(n: nat)
    ensures var d := Digits(n);
      d != "" && AllDigits(d) && ValueOf(d) == n && (|d| > 1 ==> d[0] != '0')
    decreases n
  {
    if n >= 10 {
      DigitsRead(n / 10);
      var d := Digits(n);
      assert d == Digits(n / 10) + [d[|d| - 1]] && d[..|d| - 1] == Digits(n / 10);
    }
  }

  predicate ReadsAs(minutes: nat, d: nat, h: nat, m: nat, text: string) {
    && minutes == (d * 24 + h) * 60 + m && h < 24 && m < 60
    && text == (if d > 0 then Digits(d) + "d" + Digits(h) + "h"
                else if h > 0 then Digits(h) + "h" + Digits(m) + "m" else Digits(m) + "m")
  }

  function WholeMinutes(seconds: real): nat {
    if seconds < 60.0 then 0 else (seconds / 60.0).Floor
  }

  lemma NeverNegative(seconds: real)
    ensures WholeMinutes(seconds) == if (seconds / 60.0).Floor < 0 then 0 else (seconds / 60.0).Floor
  {
  }

  /** An age in whole minutes, in the two largest units that apply: days and hours, hours and
  minutes, or minutes alone. A time still to come is no minutes old. */
  lemma AgeMeans(seconds: real)
    ensures exists d: nat, h: nat, m: nat :: ReadsAs(WholeMinutes(seconds), d, h, m, Age(seconds))
  {
    NeverNegative(seconds);
    var minutes := WholeMinutes(seconds);
    var d, r := minutes / 1440, minutes % 1440;
    var h, m := r / 60, r % 60;
    Quotient(minutes, 24 * d + h, m);
    assert ReadsAs(minutes, d, h, m, Age(seconds));
  }

  lemma Quotient(x: nat, q: nat, m: nat)
    requires x == 60 * q + m && m < 60
    ensures x % 60 == m
  {
  }

  // --- Lists -----------------------------------------------------------------------------------

  /** Joined by a comma and a space. */
  function Joined(values: seq<string>): string {
    if values == [] then ""
    else if |values| == 1 then values[0]
    else Joined(values[..|values| - 1]) + ", " + values[|values| - 1]
  }

  lemma {:induction false} CommaText(values: seq<string>)
    ensures Render(CommaPieces(values)) == Joined(values)
  {
    if |values| == 1 {
      RenderOne(values[0]);
      assert values == [values[0]];
    } else if |values| > 1 {
      var front, last := values[..|values| - 1], values[|values| - 1];
      CommaText(front);
      RenderConcat(CommaPieces(front), [", ", last]);
      TwoPieces(", ", last);
      Assoc(Joined(front), ", ", last);
    }
  }

  lemma TwoPieces(a: string, b: string)
    ensures Render([a, b]) == a + b
  {
    assert [a, b][1..] == [b] && [b][1..] == [];
    assert Render([b]) == b + Render([]);
  }

  /** The identity keys, neutralised and joined; a list over the bound is cut and says so. */
  lemma IdentitiesShown(keys: seq<string>)
    ensures var all := Joined(Neutralised(keys));
      && (|all| <= 240 ==> Identities(keys) == all)
      && (|all| > 240 ==> Identities(keys) == all[..240] + "\U{2026}")
    ensures |Neutralised(keys)| == |keys| && forall i :: 0 <= i < |keys| ==> Neutralised(keys)[i] == Neutralise(keys[i])
  {
    CommaText(Neutralised(keys));
  }

  // --- The excerpt -------------------------------------------------------------------------------

  predicate Blank(t: string) { forall i :: 0 <= i < |t| ==> IsSpace(t[i]) }

  predicate Trimmed(t: string) { t != "" ==> !IsSpace(t[0]) && !IsSpace(t[|t| - 1]) }

  lemma {:induction false} StripsStart(t: string) returns (a: string)
    ensures t == a + StripStart(t) && Blank(a) && (StripStart(t) != "" ==> !IsSpace(StripStart(t)[0]))
    decreases |t|
  {
    a := "";
    if t != "" && IsSpace(t[0]) {
      var b := StripsStart(t[1..]);
      a := [t[0]] + b;
      assert t == [t[0]] + t[1..];
    }
  }

  lemma {:induction false} StripsEnd(t: string) returns (b: string)
    ensures t == StripEnd(t) + b && Blank(b) && (StripEnd(t) != "" ==> !IsSpace(StripEnd(t)[|StripEnd(t)| - 1]))
    decreases |t|
  {
    b := "";
    if t != "" && IsSpace(t[|t| - 1]) {
      var a := StripsEnd(t[..|t| - 1]);
      b := a + [t[|t| - 1]];
      assert t == t[..|t| - 1] + [t[|t| - 1]];
    }
  }

  /** The document is the handoff's text neutralised, without whitespace at either end. */
  lemma DocumentIs(h: Handoff) returns (a: string, b: string)
    ensures Neutralise(h.document) == a + Document(h) + b && Blank(a) && Blank(b) && Trimmed(Document(h))
  {
    var t := Neutralise(h.document);
    a := StripsStart(t);
    b := StripsEnd(StripStart(t));
    Assoc(a, Document(h), b);
    var d := Document(h);
    if d != "" { assert StripStart(t)[0] == d[0]; }
  }

  /** An excerpt with, if it was cut, how much of how much is shown. */
  function Shortened(c: Candidate): string {
    var text := Document(c.handoff);
    if |text| <= c.bound then text
    else text[..c.bound] + ("\n[excerpt shortened: " + Digits(c.bound) + (" of " + Digits(|text|)) + " characters shown]")
  }

  lemma BodyShown(c: Candidate)
    ensures Render(BodyPieces(c)) == "]\n" + Shortened(c)
  {
    var text := Document(c.handoff);
    if |text| > c.bound {
      var a, b, d, e := ["]\n", Excerpt(c)], ["\n[excerpt shortened: ", Digits(c.bound)], [" of ", Digits(|text|)], [" characters shown]"];
      RenderConcat(a, b + d + e);
      RenderConcat(b + d, e);
      RenderConcat(b, d);
      TwoPieces("]\n", Excerpt(c));
      TwoPieces("\n[excerpt shortened: ", Digits(c.bound));
      TwoPieces(" of ", Digits(|text|));
      RenderOne(" characters shown]");
      assert a + (b + d + e) == BodyPieces(c);
      Grouped("]\n", Excerpt(c), "\n[excerpt shortened: " + Digits(c.bound), " of " + Digits(|text|), " characters shown]");
    } else {
      TwoPieces("]\n", Excerpt(c));
      assert ["]\n", Excerpt(c)] + [] == ["]\n", Excerpt(c)];
    }
  }

  lemma Grouped(a: string, b: string, c: string, d: string, e: string)
    ensures (a + b) + (c + d + e) == a + (b + (c + d + e))
  {
  }

  // --- The entry ---------------------------------------------------------------------------------

  /** How the handoff was found; one of the recent window also says how it is related. */
  lemma LabelIs(c: Candidate)
    requires c.structural.Some? ==> c.structural.value in {SameIdentity, SameRule, SameNode}
    ensures c.relation == SameWindow && c.structural.Some? ==>
              RelationLabel(c) == "same window (" + RelationText(c.structural.value) + ")"
    ensures c.relation != SameWindow || c.structural.None? ==> RelationLabel(c) == RelationText(c.relation)
    ensures RelationText(Recurrence) == "recurrence reference" && RelationText(SameIdentity) == "same identity"
    ensures RelationText(SameRule) == "same rule" && RelationText(SameNode) == "same node"
  {
  }

  function HeaderLine(n: nat, c: Candidate, published: string, age: string): string {
    ("\n[prior handoff " + Digits(n)) + ("] relation=" + RelationLabel(c))
    + ((" published=" + published) + (" age=" + age))
    + ((" nodes=[" + Joined(c.handoff.nodes)) + ("] identities=[" + Identities(c.handoff.identityKeys)))
  }

  lemma HeadShown(n: nat, c: Candidate, published: string, age: string)
    ensures Render(HeadPieces(n, c) + StampPieces(published, age) + KeyPieces(c)) == HeaderLine(n, c, published, age)
  {
    RenderConcat(HeadPieces(n, c) + StampPieces(published, age), KeyPieces(c));
    RenderConcat(HeadPieces(n, c), StampPieces(published, age));
    FourPieces("\n[prior handoff ", Digits(n), "] relation=", RelationLabel(c));
    FourPieces(" published=", published, " age=", age);
    FourPieces(" nodes=[", Render(CommaPieces(c.handoff.nodes)), "] identities=[", Identities(c.handoff.identityKeys));
    CommaText(c.handoff.nodes);
  }

  lemma FourPieces(a: string, b: string, c: string, d: string)
    ensures Render([a, b] + [c, d]) == (a + b) + (c + d)
  {
    RenderConcat([a, b], [c, d]);
    TwoPieces(a, b);
    TwoPieces(c, d);
  }

  /** An entry in full: number, relation, instant, age, nodes and identities on the header line,
  then the excerpt. */
  lemma EntryIs(n: nat, c: Candidate, now: real, how: Rendering)
    ensures EntryOf(n, c, now, how)
         == HeaderLine(n, c, how.published(c.handoff.published), how.age(now - c.handoff.published)) + ("]\n" + Shortened(c))
  {
    var published, age := how.published(c.handoff.published), how.age(now - c.handoff.published);
    RenderConcat(HeadPieces(n, c) + StampPieces(published, age) + KeyPieces(c), BodyPieces(c));
    HeadShown(n, c, published, age);
    BodyShown(c);
  }

  /** The marker names the count of what was left out. */
  lemma OmissionIs(count: nat)
    ensures OmissionText(count) == OMISSION_START + Digits(count) + "]"
  {
    RenderConcat([OMISSION_START] + [Digits(count)], ["]"]);
    RenderConcat([OMISSION_START], [Digits(count)]);
    RenderOne(OMISSION_START);
    RenderOne(Digits(count));
    RenderOne("]");
  }
}
