/** Showing content literally: the prompt rendering of `henk/channel/signal.py`.

The bridge's styled text: a backslash just before a styling character is swallowed and makes
it literal; any other styling character is a marker; every other character is itself.
*/
module Styled {
  import opened Common

  const STYLE_CHARACTERS := "*`|~"
  const STAND_IN := '\U{29F5}'
  const OPEN := "<<<"
  const CLOSE := ">>>"

  predicate Styles(c: char) { c == '*' || c == '`' || c == '|' || c == '~' }

  // --- The bridge's parser -----------------------------------------------------------------

  datatype Token = Literal(c: char) | Marker(c: char)

  function Parse(t: string): seq<Token> {
    if t == "" then []
    else if t[0] == '\\' && |t| > 1 && Styles(t[1]) then [Literal(t[1])] + Parse(t[2..])
    else [if Styles(t[0]) then Marker(t[0]) else Literal(t[0])] + Parse(t[1..])
  }

  function Literals(t: string): seq<Token> { seq(|t|, i requires 0 <= i < |t| => Literal(t[i])) }

  // --- Escaping ------------------------------------------------------------------------------

  /** Python's `str.replace` of one character. */
  function ReplaceChar(t: string, c: char, repl: string): string {
    if t == "" then "" else (if t[0] == c then repl else [t[0]]) + ReplaceChar(t[1..], c, repl)
  }

  /** One character made literal, given which styling characters are escaped so far. */
  function EscapeOne(c: char, styles: string): string {
    if c == '\\' then [STAND_IN] else if c in styles then ['\\', c] else [c]
  }

  function EscapeEach(t: string, styles: string): string {
    if t == "" then "" else EscapeOne(t[0], styles) + EscapeEach(t[1..], styles)
  }

  function EscapeStyled(t: string): string { EscapeEach(t, STYLE_CHARACTERS) }

  lemma {:induction false} ReplaceConcat(a: string, b: string, c: char, repl: string)
    ensures ReplaceChar(a + b, c, repl) == ReplaceChar(a, c, repl) + ReplaceChar(b, c, repl)
  {
    if a == "" {
      assert a + b == b;
    } else {
      assert (a + b)[1..] == a[1..] + b;
      ReplaceConcat(a[1..], b, c, repl);
    }
  }

  /** Escaping one more character is one more sequential replacement. */
  lemma {:induction false} EscapeNext(t: string, styles: string, c: char)
    requires c !in styles && c != '\\' && c != STAND_IN && '\\' !in styles
    ensures ReplaceChar(EscapeEach(t, styles), c, ['\\', c]) == EscapeEach(t, styles + [c])
  {
    if t != "" {
      EscapeNext(t[1..], styles, c);
      ReplaceConcat(EscapeOne(t[0], styles), EscapeEach(t[1..], styles), c, ['\\', c]);
      EscapeOneNext(t[0], styles, c);
    }
  }

  lemma EscapeOneNext(x: char, styles: string, c: char)
    requires c !in styles && c != '\\' && c != STAND_IN && '\\' !in styles
    ensures ReplaceChar(EscapeOne(x, styles), c, ['\\', c]) == EscapeOne(x, styles + [c])
  {
    ReplaceOne(x, c, ['\\', c]);
    ReplaceOne('\\', c, ['\\', c]);
    ReplaceOne(STAND_IN, c, ['\\', c]);
    if x != '\\' && x in styles {
      ReplaceConcat(['\\'], [x], c, ['\\', c]);
      assert ['\\', x] == ['\\'] + [x];
    }
  }

  lemma ReplaceOne(x: char, c: char, repl: string)
    ensures ReplaceChar([x], c, repl) == if x == c then repl else [x]
  {
    assert [x][1..] == "";
    assert ReplaceChar([x], c, repl) == (if x == c then repl else [x]) + "";
  }

  lemma {:induction false} BackslashFirst(t: string)
    ensures ReplaceChar(t, '\\', [STAND_IN]) == EscapeEach(t, "")
  {
    if t != "" { BackslashFirst(t[1..]); }
  }

  /** The sequential replacements are one map over the characters. */
  method Escape(text: string) returns (out: string)
    ensures out == EscapeStyled(text)
  {
    out := ReplaceChar(text, '\\', [STAND_IN]);
    BackslashFirst(text);
    var i := 0;
    while i < |STYLE_CHARACTERS|
      invariant 0 <= i <= |STYLE_CHARACTERS| && out == EscapeEach(text, STYLE_CHARACTERS[..i])
    {
      var c := STYLE_CHARACTERS[i];
      EscapeNext(text, STYLE_CHARACTERS[..i], c);
      assert STYLE_CHARACTERS[..i + 1] == STYLE_CHARACTERS[..i] + [c];
      out := ReplaceChar(out, c, ['\\', c]);
      i := i + 1;
    }
    assert STYLE_CHARACTERS[..i] == STYLE_CHARACTERS;
  }

  /** What the owner sees of content: itself, with the stand-in for each backslash. */
  function Shown(t: string): (r: string)
    ensures |r| == |t|
  {
    seq(|t|, i requires 0 <= i < |t| => ShownChar(t[i]))
  }

  /** Escaped content followed by anything parses as its own characters, then the rest. */
  lemma {:induction false} EscapedIsLiteral(t: string, rest: string)
    ensures Parse(EscapeStyled(t) + rest) == Literals(Shown(t)) + Parse(rest)
  {
    if t == "" {
      assert EscapeStyled(t) + rest == rest;
    } else {
      EscapedIsLiteral(t[1..], rest);
      Assoc(EscapeOne(t[0], STYLE_CHARACTERS), EscapeStyled(t[1..]), rest);
      OneIsLiteral(t[0], EscapeStyled(t[1..]) + rest);
      ShownLiterals(t);
      Assoc([Literal(ShownChar(t[0]))], Literals(Shown(t[1..])), Parse(rest));
    }
  }

  function ShownChar(c: char): char { if c == '\\' then STAND_IN else c }

  lemma ShownLiterals(t: string)
    requires t != ""
    ensures Literals(Shown(t)) == [Literal(ShownChar(t[0]))] + Literals(Shown(t[1..]))
  {
  }

  lemma OneIsLiteral(c: char, rest: string)
    ensures Parse(EscapeOne(c, STYLE_CHARACTERS) + rest) == [Literal(ShownChar(c))] + Parse(rest)
  {
    StylesAre(c);
    var one := EscapeOne(c, STYLE_CHARACTERS);
    var x := one + rest;
    assert x[|one|..] == rest && x[0] == one[0];
    if |one| == 2 { assert x[1] == c; }
  }

  lemma StylesAre(c: char)
    ensures c in STYLE_CHARACTERS <==> Styles(c)
  {
  }

  // --- Delimiters ------------------------------------------------------------------------------

  predicate Three(c: char, t: string) { |t| >= 3 && t[0] == c && t[1] == c && t[2] == c }

  predicate HasThree(c: char, t: string) { t != "" && (Three(c, t) || HasThree(c, t[1..])) }

  /** Python's `replace(ccc, "")`: leftmost occurrences, not overlapping. */
  function RemoveThree(c: char, t: string): (r: string)
    ensures |r| <= |t| && (HasThree(c, t) ==> |r| < |t|) && (!HasThree(c, t) ==> r == t)
    decreases |t|
  {
    if t == "" then "" else if Three(c, t) then RemoveThree(c, t[3..]) else [t[0]] + RemoveThree(c, t[1..])
  }

  /** The characters other than angle brackets, in order. */
  function Kept(t: string): string {
    if t == "" then "" else (if t[0] == '<' || t[0] == '>' then "" else [t[0]]) + Kept(t[1..])
  }

  lemma KeptAfterBracket(t: string)
    requires t != "" && (t[0] == '<' || t[0] == '>')
    ensures Kept(t) == Kept(t[1..])
  {
    assert Kept(t) == "" + Kept(t[1..]);
  }

  lemma {:induction false} RemoveThreeKeeps(c: char, t: string)
    requires c == '<' || c == '>'
    ensures Kept(RemoveThree(c, t)) == Kept(t)
    decreases |t|
  {
    if t != "" {
      if Three(c, t) {
        RemoveThreeKeeps(c, t[3..]);
        KeptAfterBracket(t);
        KeptAfterBracket(t[1..]);
        KeptAfterBracket(t[2..]);
        assert t[1..][1..] == t[2..] && t[2..][1..] == t[3..];
      } else {
        RemoveThreeKeeps(c, t[1..]);
        var r := [t[0]] + RemoveThree(c, t[1..]);
        assert r[1..] == RemoveThree(c, t[1..]);
      }
    }
  }

  /** Stripping until nothing is left to strip: the result has no delimiter, every other
  character stays in place, and a value without delimiters is untouched. */
  method StripDelimiters(text: string) returns (value: string)
    ensures !HasThree('<', value) && !HasThree('>', value)
    ensures Kept(value) == Kept(text)
    ensures !HasThree('<', text) && !HasThree('>', text) ==> value == text
  {
    value := text;
    while HasThree('<', value) || HasThree('>', value)
      invariant Kept(value) == Kept(text)
      invariant !HasThree('<', text) && !HasThree('>', text) ==> value == text
      decreases |value|
    {
      RemoveThreeKeeps('<', value);
      RemoveThreeKeeps('>', RemoveThree('<', value));
      value := RemoveThree('>', RemoveThree('<', value));
    }
  }

  // --- One value -------------------------------------------------------------------------------

  function Span(value: string): string { "`" + EscapeStyled(value) + "`" }

  /** A styled value is exactly one monospace span showing it. */
  lemma ValueIsOneSpan(value: string, rest: string)
    ensures Parse(Span(value) + rest) == [Marker('`')] + Literals(Shown(value)) + [Marker('`')] + Parse(rest)
  {
    var x := Span(value) + rest;
    var closing := "`" + rest;
    assert x[0] == '`' && x[1..] == EscapeStyled(value) + closing;
    EscapedIsLiteral(value, closing);
    assert closing[0] == '`' && closing[1..] == rest;
  }

  /** Where a reader of the unstyled form sees the value end: the first closing delimiter. */
  function FirstClose(t: string): nat
    requires HasThree('>', t)
  {
    if Three('>', t) then 0 else 1 + FirstClose(t[1..])
  }

  lemma {:induction false} HasThreeAfter(value: string, rest: string)
    ensures HasThree('>', value + CLOSE + rest)
  {
    var x := value + CLOSE + rest;
    if value == "" { assert x == CLOSE + rest; }
    else { assert x[1..] == value[1..] + CLOSE + rest; HasThreeAfter(value[1..], rest); }
  }

  /** The unstyled form reads back as the value exactly when the value does not end in `>`. */
  lemma {:induction false} UnstyledReadsBack(value: string, rest: string)
    requires !HasThree('>', value)
    ensures HasThree('>', value + CLOSE + rest)
    ensures FirstClose(value + CLOSE + rest) == |value| <==> value == "" || value[|value| - 1] != '>'
  {
    HasThreeAfter(value, rest);
    var x := value + CLOSE + rest;
    if value == "" {
      assert x == CLOSE + rest;
    } else {
      assert x[1..] == value[1..] + CLOSE + rest;
      UnstyledReadsBack(value[1..], rest);
      if |value| <= 2 {
        assert x[|value|] == '>' && x[|value| + 1] == '>';
      } else {
        assert x[0] == value[0] && x[1] == value[1] && x[2] == value[2];
      }
    }
  }

  // --- The whole prompt ------------------------------------------------------------------------

  datatype Field = Field(key: string, value: string)

  datatype Prompt = Prompt(title: string, tool: string, fields: seq<Field>)

  const PROMPT_HEADER := "Approval needed"
  const NO_ARGUMENTS_LINE := "(no arguments)"
  const PROMPT_FOOTER :=
    "React \U{1F44D} to approve or " + "\U{1F44E} to deny, or reply " + "yes / no. Any other message " + "cancels it."

  /** Nothing in it means anything to the parser. */
  predicate Plain(t: string) { forall c :: c in t ==> !Styles(c) && c != '\\' }

  lemma {:induction false} PlainIsLiteral(t: string, rest: string)
    requires Plain(t)
    ensures Parse(t + rest) == Literals(t) + Parse(rest)
  {
    if t == "" {
      assert t + rest == rest;
    } else {
      assert t[0] in t && forall c :: c in t[1..] ==> c in t;
      PlainIsLiteral(t[1..], rest);
      assert (t + rest)[1..] == t[1..] + rest;
      assert Literals(t) == [Literal(t[0])] + Literals(t[1..]);
    }
  }

  /** The values as the adapter strips them; rendering starts from stripped values. */
  function FieldLine(f: Field): string { EscapeStyled(f.key) + ": " + Span(f.value) }

  function FieldLines(fields: seq<Field>): string {
    if fields == [] then "" else "\n" + FieldLine(fields[0]) + FieldLines(fields[1..])
  }

  /** What follows the field lines, and what follows the header. */
  function PromptEnd(p: Prompt): string {
    (if p.fields == [] then "\n" + NO_ARGUMENTS_LINE else "") + ("\n" + PROMPT_FOOTER)
  }

  function PromptRest(p: Prompt, body: string): string {
    "\n" + (EscapeStyled(p.title) + (" (" + (EscapeStyled(p.tool) + (")" + body))))
  }

  function RenderPrompt(p: Prompt): string {
    "**" + (PROMPT_HEADER + ("**" + PromptRest(p, FieldLines(p.fields) + PromptEnd(p))))
  }

  /** The markers a parsed text contains, in order. */
  function Markers(tokens: seq<Token>): string {
    if tokens == [] then "" else (if tokens[0].Marker? then [tokens[0].c] else "") + Markers(tokens[1..])
  }

  lemma {:induction false} MarkersConcat(a: seq<Token>, b: seq<Token>)
    ensures Markers(a + b) == Markers(a) + Markers(b)
  {
    if a == [] {
      assert a + b == b;
    } else {
      ConcatTail(a, b);
      MarkersConcat(a[1..], b);
      Assoc(if a[0].Marker? then [a[0].c] else "", Markers(a[1..]), Markers(b));
    }
  }

  lemma {:induction false} LiteralsHaveNoMarkers(t: string)
    ensures Markers(Literals(t)) == ""
  {
    if t != "" {
      LiteralsHaveNoMarkers(t[1..]);
      assert Literals(t)[1..] == Literals(t[1..]);
    }
  }

  /** The markers of escaped content before `rest` are those of `rest`. */
  lemma EscapedAddsNone(t: string, rest: string)
    ensures Markers(Parse(EscapeStyled(t) + rest)) == Markers(Parse(rest))
  {
    EscapedIsLiteral(t, rest);
    LiteralsAddNone(Shown(t), Parse(rest));
  }

  lemma PlainAddsNone(t: string, rest: string)
    requires Plain(t)
    ensures Markers(Parse(t + rest)) == Markers(Parse(rest))
  {
    PlainIsLiteral(t, rest);
    LiteralsAddNone(t, Parse(rest));
  }

  lemma LiteralsAddNone(t: string, tokens: seq<Token>)
    ensures Markers(Literals(t) + tokens) == Markers(tokens)
  {
    MarkersConcat(Literals(t), tokens);
    LiteralsHaveNoMarkers(t);
    assert "" + Markers(tokens) == Markers(tokens);
  }

  lemma SpanAddsTwo(value: string, rest: string)
    ensures Markers(Parse(Span(value) + rest)) == "``" + Markers(Parse(rest))
  {
    ValueIsOneSpan(value, rest);
    MarkersConcat([Marker('`')] + Literals(Shown(value)) + [Marker('`')], Parse(rest));
    MarkersConcat([Marker('`')] + Literals(Shown(value)), [Marker('`')]);
    MarkersConcat([Marker('`')], Literals(Shown(value)));
    LiteralsHaveNoMarkers(Shown(value));
    OneMarker('`');
  }

  lemma OneMarker(c: char)
    ensures Markers([Marker(c)]) == [c]
  {
    assert [Marker(c)][1..] == [];
    assert Markers([Marker(c)]) == [c] + "";
  }

  function Backticks(n: nat): string { if n == 0 then "" else "``" + Backticks(n - 1) }

  lemma FieldMarkers(f: Field, more: string)
    ensures Markers(Parse("\n" + FieldLine(f) + more)) == "``" + Markers(Parse(more))
  {
    SpanAddsTwo(f.value, more);
    PlainAddsNone(": ", Span(f.value) + more);
    EscapedAddsNone(f.key, ": " + (Span(f.value) + more));
    PlainAddsNone("\n", EscapeStyled(f.key) + (": " + (Span(f.value) + more)));
    Regroup("\n", EscapeStyled(f.key), ": ", Span(f.value), more);
  }

  lemma Regroup(a: string, b: string, c: string, d: string, e: string)
    ensures a + (b + c + d) + e == a + (b + (c + (d + e)))
  {
  }

  lemma {:induction false} FieldLinesMarkers(fields: seq<Field>, rest: string)
    ensures Markers(Parse(FieldLines(fields) + rest)) == Backticks(|fields|) + Markers(Parse(rest))
  {
    if fields == [] {
      assert FieldLines(fields) + rest == rest;
    } else {
      var more := FieldLines(fields[1..]) + rest;
      FieldLinesMarkers(fields[1..], rest);
      FieldMarkers(fields[0], more);
      assert FieldLines(fields) + rest == "\n" + FieldLine(fields[0]) + more;
    }
  }

  lemma PlainConcat(a: string, b: string)
    requires Plain(a) && Plain(b)
    ensures Plain(a + b)
  {
  }

  lemma FixedTextIsPlain()
    ensures Plain(PROMPT_HEADER) && Plain("\n" + NO_ARGUMENTS_LINE) && Plain("\n" + PROMPT_FOOTER)
  {
    PlainConcat("\n", NO_ARGUMENTS_LINE);
    FooterIsPlain();
    PlainConcat("\n", PROMPT_FOOTER);
  }

  lemma FooterIsPlain()
    ensures Plain(PROMPT_FOOTER)
  {
    var a, b := "React \U{1F44D} to approve or ", "\U{1F44E} to deny, or reply ";
    PlainConcat(a, b);
    PlainConcat(a + b, "yes / no. Any other message ");
    PlainConcat(a + b + "yes / no. Any other message ", "cancels it.");
  }

  /** What follows the field lines has no markers. */
  lemma EndHasNone(none: bool)
    ensures Markers(Parse((if none then "\n" + NO_ARGUMENTS_LINE else "") + ("\n" + PROMPT_FOOTER))) == ""
  {
    FixedTextIsPlain();
    var footer := "\n" + PROMPT_FOOTER;
    assert footer + "" == footer && Markers(Parse("")) == "";
    PlainAddsNone(footer, "");
    if none { PlainAddsNone("\n" + NO_ARGUMENTS_LINE, footer); } else { assert "" + footer == footer; }
  }

  /** The title line, after the header. */
  lemma TitleAddsNone(p: Prompt, more: string)
    ensures Markers(Parse("\n" + (EscapeStyled(p.title) + (" (" + (EscapeStyled(p.tool) + (")" + more))))))
         == Markers(Parse(more))
  {
    PlainAddsNone(")", more);
    EscapedAddsNone(p.tool, ")" + more);
    PlainAddsNone(" (", EscapeStyled(p.tool) + (")" + more));
    EscapedAddsNone(p.title, " (" + (EscapeStyled(p.tool) + (")" + more)));
    PlainAddsNone("\n", EscapeStyled(p.title) + (" (" + (EscapeStyled(p.tool) + (")" + more))));
  }

  lemma StarsAddTwo(rest: string)
    ensures Markers(Parse("**" + rest)) == "**" + Markers(Parse(rest))
  {
    var x := "**" + rest;
    assert x[0] == '*' && x[1..] == "*" + rest && x[1..][0] == '*' && x[1..][1..] == rest;
    assert Parse(x) == [Marker('*')] + ([Marker('*')] + Parse(rest));
    MarkersConcat([Marker('*')], [Marker('*')] + Parse(rest));
    MarkersConcat([Marker('*')], Parse(rest));
    OneMarker('*');
  }

  lemma HeaderAddsFour(rest: string)
    ensures Markers(Parse("**" + (PROMPT_HEADER + ("**" + rest)))) == "****" + Markers(Parse(rest))
  {
    FixedTextIsPlain();
    StarsAddTwo(rest);
    PlainAddsNone(PROMPT_HEADER, "**" + rest);
    StarsAddTwo(PROMPT_HEADER + ("**" + rest));
  }

  /** Nothing an action's label, name, keys or values contain can change the styling of its
  prompt: the only markers are the header's and the two around each value. */
  lemma PromptStylingIsFixed(p: Prompt)
    ensures Markers(Parse(RenderPrompt(p))) == "****" + Backticks(|p.fields|)
  {
    EndHasNone(p.fields == []);
    FieldLinesMarkers(p.fields, PromptEnd(p));
    TitleAddsNone(p, FieldLines(p.fields) + PromptEnd(p));
    HeaderAddsFour(PromptRest(p, FieldLines(p.fields) + PromptEnd(p)));
  }
}
