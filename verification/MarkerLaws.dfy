/** What neutralising leaves alone: everything outside a marker shape, and every letter inside
one (`neutralise_markers` of `henk/agent/markers.py`). */
module MarkerLaws {
  import opened Common
  import opened Markers

  // --- Runs of = ---------------------------------------------------------------------------

  /** How many `=` stand just before position `i`. */
  function EqualsBefore(t: string, i: nat): (n: nat)
    requires i <= |t|
  {
    if i == 0 || t[i - 1] != '=' then 0 else 1 + EqualsBefore(t, i - 1)
  }

  /** Within a run of five or more every second `=` becomes a hyphen; nothing else differs. */
  function AlternatedAt(t: string, i: nat): char
    requires i < |t|
  {
    if t[i] == '=' && EqualsBefore(t, i) + Equals(t[i..]) >= 5 && EqualsBefore(t, i) % 2 == 1 then '-' else t[i]
  }

  ghost predicate Alternated(t: string, out: string) {
    |out| == |t| && forall i :: 0 <= i < |t| ==> out[i] == AlternatedAt(t, i)
  }

  /** No run goes on from `a` into `b`. */
  predicate Parted(a: string, b: string) { a == "" || b == "" || a[|a| - 1] != '=' || b[0] != '=' }

  lemma {:induction false} BeforeInFront(a: string, b: string, i: nat)
    requires i <= |a|
    ensures EqualsBefore(a + b, i) == EqualsBefore(a, i)
  {
    if i > 0 && a[i - 1] == '=' { BeforeInFront(a, b, i - 1); }
  }

  lemma {:induction false} BeforeInRest(a: string, b: string, i: nat)
    requires i < |b| && b[i] == '=' && Parted(a, b)
    ensures EqualsBefore(a + b, |a| + i) == EqualsBefore(b, i)
  {
    if i > 0 && b[i - 1] == '=' { BeforeInRest(a, b, i - 1); }
  }

  lemma AllEquals(t: string)
    requires t != "" && Equals(t) == |t|
    ensures t[|t| - 1] == '='
  {
  }

  /** A character in front is alternated as if nothing followed. */
  lemma FrontAlternates(a: string, b: string, i: nat)
    requires i < |a| && Parted(a, b)
    ensures AlternatedAt(a + b, i) == AlternatedAt(a, i)
  {
    BeforeInFront(a, b, i);
    assert (a + b)[i..] == a[i..] + b;
    EqualsJoin(a[i..], b);
    if Equals(a[i..]) == |a[i..]| { AllEquals(a[i..]); }
  }

  /** And one in the rest as if nothing came before. */
  lemma RestAlternates(a: string, b: string, i: nat)
    requires i < |b| && Parted(a, b)
    ensures AlternatedAt(a + b, |a| + i) == AlternatedAt(b, i)
  {
    if b[i] == '=' { BeforeInRest(a, b, i); }
    assert (a + b)[|a| + i..] == b[i..];
  }

  lemma AlternatedJoin(a: string, x: string, b: string, y: string)
    requires Alternated(a, x) && Alternated(b, y) && Parted(a, b)
    ensures Alternated(a + b, x + y)
  {
    forall i | 0 <= i < |a + b| ensures (x + y)[i] == AlternatedAt(a + b, i) {
      if i < |a| {
        FrontAlternates(a, b, i);
        assert (x + y)[i] == x[i];
      } else {
        RestAlternates(a, b, i - |a|);
        assert (x + y)[i] == y[i - |a|];
      }
    }
  }

  lemma {:induction false} BeforeInRun(t: string, i: nat)
    requires i <= |t| && forall k :: 0 <= k < |t| ==> t[k] == '='
    ensures EqualsBefore(t, i) == i
  {
    if i > 0 { BeforeInRun(t, i - 1); }
  }

  lemma RunAlternates(run: string)
    requires forall k :: 0 <= k < |run| ==> run[k] == '='
    ensures Alternated(run, if |run| >= 5 then Alternate(|run|) else run)
  {
    forall i | 0 <= i < |run| ensures EqualsBefore(run, i) + Equals(run[i..]) == |run| && EqualsBefore(run, i) == i {
      BeforeInRun(run, i);
      assert forall k :: 0 <= k < |run[i..]| ==> run[i..][k] == '=';
    }
  }

  lemma {:induction false} RunsAlternate(t: string)
    ensures Alternated(t, AlternateRuns(t))
    decreases |t|
  {
    if t != "" {
      var n := if t[0] != '=' then 1 else Equals(t);
      RunsAlternate(t[n..]);
      assert t == t[..n] + t[n..];
      if t[0] == '=' { RunAlternates(t[..n]); }
      AlternatedJoin(t[..n], if n >= 5 && t[0] == '=' then Alternate(n) else t[..n], t[n..], AlternateRuns(t[n..]));
    }
  }

  /** Which characters match a phrase's letter when case is ignored: the letter in either case,
  and for s and i the ones outside ASCII that fold onto them. */
  lemma FoldIs(c: char, letter: char)
    requires 'a' <= letter <= 'z'
    ensures Fold(c) == letter <==>
              || c == letter || c == letter - 'a' + 'A'
              || (letter == 's' && c == '\U{017F}') || (letter == 'i' && (c == '\U{0130}' || c == '\U{0131}'))
  {
  }

  // --- Phrases -----------------------------------------------------------------------------

  /** A stretch of text kept as it was, or a phrase and what became of it. */
  datatype Piece = Kept(text: string) | Altered(text: string, words: string, hyphened: string)

  function Source(pieces: seq<Piece>): string {
    if pieces == [] then "" else pieces[0].text + Source(pieces[1..])
  }

  function Shown(pieces: seq<Piece>): string {
    if pieces == [] then ""
    else (if pieces[0].Kept? then pieces[0].text else pieces[0].hyphened) + Shown(pieces[1..])
  }

  /** Without whitespace and hyphens. */
  function Letters(t: string): string {
    if t == "" then ""
    else (if IsSpace(t[0]) || t[0] == '-' then "" else [t[0]]) + Letters(t[1..])
  }

  /** A phrase in some case and spacing, its words joined by single hyphens and its letters,
  with their case, kept. */
  ghost predicate Rightly(p: Piece) {
    p.Altered? ==>
      && IsPhrase(p.words) && MatchLen(p.words, p.text) == Some(|p.text|)
      && Hyphened(p.words, p.hyphened) && Letters(p.hyphened) == Letters(p.text)
  }

  lemma {:induction false} MatchOfPrefix(pat: string, t: string)
    requires Starts(pat, t) && (pat == "" || pat[|pat| - 1] != ' ')
    ensures var n := MatchLen(pat, t).value; MatchLen(pat, t[..n]) == Some(n)
    decreases |t|, |pat|
  {
    if pat != "" {
      var n := MatchLen(pat, t).value;
      assert t[..n][1..] == t[1..][..n - 1];
      MatchIsLong(pat, t);
      if pat[0] == ' ' && |t| > 1 && IsSpace(t[1]) {
        MatchIsLong(pat, t[1..]);
        MatchOfPrefix(pat, t[1..]);
      } else {
        MatchIsLong(pat[1..], t[1..]);
        MatchOfPrefix(pat[1..], t[1..]);
      }
    }
  }

  lemma {:induction false} HyphenatingKeepsLetters(t: string)
    ensures Letters(Hyphenate(t)) == Letters(t)
    decreases |t|
  {
    if t != "" { HyphenatingKeepsLetters(t[1..]); }
  }

  /** Hyphenating alters nothing but the phrases, left to right. */
  lemma {:induction false} OnlyPhrasesAlter(t: string) returns (pieces: seq<Piece>)
    ensures Source(pieces) == t && Shown(pieces) == HyphenatePhrases(t) && forall p :: p in pieces ==> Rightly(p)
    decreases |t|
  {
    if t == "" {
      pieces := [];
    } else {
      var first, n := FirstPiece(t);
      var rest := OnlyPhrasesAlter(t[n..]);
      pieces := [first] + rest;
      assert pieces[1..] == rest;
      assert t == t[..n] + t[n..];
    }
  }

  lemma FirstPiece(t: string) returns (p: Piece, n: nat)
    requires t != ""
    ensures 0 < n <= |t| && p.text == t[..n] && Rightly(p) && (p.Kept? ==> n == 1 && PhraseAt(t).None?)
    ensures HyphenatePhrases(t) == (if p.Kept? then p.text else p.hyphened) + HyphenatePhrases(t[n..])
  {
    if PhraseAt(t).None? {
      p, n := Kept(t[..1]), 1;
    } else {
      var q := PhraseAt(t).value;
      n := MatchLen(q, t).value;
      MatchIsLong(q, t);
      PhraseEnds(q);
      MatchOfPrefix(q, t);
      PhraseShape(q);
      HyphenatedMatch(q, t);
      HyphenatingKeepsLetters(t[..n]);
      p := Altered(t[..n], q, Hyphenate(t[..n]));
    }
  }

  lemma PhraseEnds(q: string)
    requires IsPhrase(q)
    ensures q != "" && q[|q| - 1] != ' '
  {
  }

  /** Neutralised text is the text itself with two changes and no other: in each run of five or
  more `=` every second one is a hyphen, and in each marker phrase the words are joined by
  hyphens. Whatever it says besides is kept, character by character and in order. */
  lemma NothingElseChanges(text: string) returns (middle: string, pieces: seq<Piece>)
    ensures Alternated(text, middle)
    ensures Source(pieces) == middle && Shown(pieces) == Neutralise(text) && forall p :: p in pieces ==> Rightly(p)
  {
    middle := AlternateRuns(text);
    RunsAlternate(text);
    pieces := OnlyPhrasesAlter(middle);
  }
}
