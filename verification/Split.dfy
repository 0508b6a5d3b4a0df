/** Splitting a message by bytes: `henk/channel/base.py`. Text is a sequence of code points,
encoded in UTF-8 as section 3 of RFC 3629 lays out. */
module Split {

  newtype Byte = x: int | 0 <= x < 256

  const MAX_CODE_POINT_BYTES := 4

  // --- UTF-8 -----------------------------------------------------------------------------

  /** A continuation byte, `10xxxxxx`, of six bits. */
  function Tail(bits: nat): Byte
    requires bits < 64
  {
    (128 + bits) as Byte
  }

  function Encode(c: char): (bytes: seq<Byte>)
    ensures 1 <= |bytes| <= MAX_CODE_POINT_BYTES
  {
    var n := c as int;
    if n < 0x80 then [n as Byte]
    else if n < 0x800 then [(0xC0 + n / 64) as Byte, Tail(n % 64)]
    else if n < 0x1_0000 then [(0xE0 + n / 4096) as Byte, Tail(n / 64 % 64), Tail(n % 64)]
    else [(0xF0 + n / 262144) as Byte, Tail(n / 4096 % 64), Tail(n / 64 % 64), Tail(n % 64)]
  }

  /** Six more bits of a code point. */
  function Bits(b: Byte): int { b as int - 128 }

  /** Section 3 of RFC 3629: the shortest form for the code point, its lead byte saying the
  length, each continuation byte in its range, and the bits reading back as the number. */
  lemma EncodeReads(c: char)
    ensures var n, e := c as int, Encode(c);
      && (n <= 0x7F <==> |e| == 1) && (0x80 <= n <= 0x7FF <==> |e| == 2)
      && (0x800 <= n <= 0xFFFF <==> |e| == 3) && (n >= 0x1_0000 <==> |e| == 4)
      && (forall i :: 0 < i < |e| ==> 0x80 <= e[i] < 0xC0)
      && (|e| == 1 ==> e[0] as int == n)
      && (|e| == 2 ==> 0xC0 <= e[0] < 0xE0 && n == (e[0] as int - 0xC0) * 64 + Bits(e[1]))
      && (|e| == 3 ==> 0xE0 <= e[0] < 0xF0 && n == ((e[0] as int - 0xE0) * 64 + Bits(e[1])) * 64 + Bits(e[2]))
      && (|e| == 4 ==> 0xF0 <= e[0] < 0xF8
                       && n == (((e[0] as int - 0xF0) * 64 + Bits(e[1])) * 64 + Bits(e[2])) * 64 + Bits(e[3]))
  {
    var n := c as int;
    SixBits(n);
    SixBits(n / 64);
    SixBits(n / 4096);
    if n >= 0x1_0000 { assert n / 64 / 64 == n / 4096 && n / 4096 / 64 == n / 262144; }
    else if n >= 0x800 { assert n / 64 / 64 == n / 4096; }
  }

  lemma SixBits(n: nat)
    ensures n == n / 64 * 64 + n % 64
  {
  }

  function Utf8(text: string): seq<Byte> { if text == "" then [] else Encode(text[0]) + Utf8(text[1..]) }

  function ByteLength(text: string): nat { |Utf8(text)| }

  lemma {:induction false} Utf8Concat(a: string, b: string)
    ensures Utf8(a + b) == Utf8(a) + Utf8(b)
  {
    if a == "" {
      assert a + b == b;
    } else {
      assert (a + b)[1..] == a[1..] + b;
      Utf8Concat(a[1..], b);
    }
  }

  /** Nonempty text has bytes, and its bytes grow with every character. */
  lemma PrefixShorter(text: string, n: nat, m: nat)
    requires n <= m <= |text|
    ensures ByteLength(text[..m]) >= ByteLength(text[..n]) + (m - n)
    decreases m - n
  {
    if n < m {
      assert text[..m] == text[..m - 1] + [text[m - 1]];
      Utf8Concat(text[..m - 1], [text[m - 1]]);
      assert Utf8([text[m - 1]]) == Encode(text[m - 1]) + Utf8([text[m - 1]][1..]);
      PrefixShorter(text, n, m - 1);
    }
  }

  // --- The window --------------------------------------------------------------------------

  /** `n` characters are the most that fit. */
  ghost predicate LongestFit(text: string, limit: nat, n: nat) {
    && n <= |text| && ByteLength(text[..n]) <= limit
    && (n < |text| ==> ByteLength(text[..n + 1]) > limit)
  }

  method CharsWithin(text: string, limit: nat) returns (n: nat)
    ensures LongestFit(text, limit, n)
    ensures limit >= MAX_CODE_POINT_BYTES && text != "" ==> n > 0
  {
    var total := 0;
    n := 0;
    while n < |text|
      invariant 0 <= n <= |text| && total == ByteLength(text[..n]) <= limit
    {
      var width := |Encode(text[n])|;
      assert text[..n + 1] == text[..n] + [text[n]];
      Utf8Concat(text[..n], [text[n]]);
      assert Utf8([text[n]]) == Encode(text[n]) + Utf8([text[n]][1..]);
      if total + width > limit { return; }
      total := total + width;
      n := n + 1;
    }
  }

  // --- The cut -----------------------------------------------------------------------------

  predicate FoundAt(window: string, mark: string, i: nat) {
    i + |mark| <= |window| && window[i..i + |mark|] == mark
  }

  /** Found at `i`: what starts there begins with the mark. */
  lemma FoundMeans(window: string, mark: string, i: nat)
    ensures FoundAt(window, mark, i) <==> exists before, after :: |before| == i && window == before + mark + after
  {
    if FoundAt(window, mark, i) {
      assert window == window[..i] + mark + window[i + |mark|..];
    }
  }

  /** Python's `rfind`: the last place `mark` is found, or -1. */
  function RFindTo(window: string, mark: string, n: nat): (i: int)
    requires mark != ""
    ensures -1 <= i < n
    ensures i >= 0 ==> FoundAt(window, mark, i)
    ensures forall j: nat :: i < j < n ==> !FoundAt(window, mark, j)
  {
    if n == 0 then -1
    else if FoundAt(window, mark, n - 1) then n - 1
    else RFindTo(window, mark, n - 1)
  }

  function RFind(window: string, mark: string): (i: int)
    requires mark != ""
    ensures -1 <= i < |window|
    ensures i >= 0 ==> FoundAt(window, mark, i)
    ensures forall j: nat :: i < j ==> !FoundAt(window, mark, j)
  {
    RFindTo(window, mark, |window|)
  }

  ghost predicate Has(window: string, mark: string) { exists i: nat :: FoundAt(window, mark, i) }

  /** The text before `cut` ends with the last `mark` of the window. */
  ghost predicate CutsAfter(window: string, mark: string, cut: nat) {
    && |mark| <= cut <= |window| && FoundAt(window, mark, cut - |mark|)
    && forall j: nat :: cut - |mark| < j ==> !FoundAt(window, mark, j)
  }

  /** After the last paragraph break, else the last line break, else the last space, else at
  the end of the window. */
  ghost predicate NaturalCut(window: string, cut: nat) {
    if Has(window, "\n\n") then CutsAfter(window, "\n\n", cut)
    else if Has(window, "\n") then CutsAfter(window, "\n", cut)
    else if Has(window, " ") then CutsAfter(window, " ", cut)
    else cut == |window|
  }

  /** Just after the last `mark`; 0 when there is none. */
  method AfterLast(window: string, mark: string) returns (cut: nat)
    requires mark != ""
    ensures cut == 0 <==> !Has(window, mark)
    ensures cut != 0 ==> CutsAfter(window, mark, cut)
  {
    var at := RFind(window, mark);
    if at == -1 { return 0; }
    assert FoundAt(window, mark, at);
    cut := at + |mark|;
  }

  method ChooseCut(window: string) returns (cut: nat)
    requires window != ""
    ensures NaturalCut(window, cut) && 0 < cut <= |window|
  {
    cut := AfterLast(window, "\n\n");
    if cut != 0 { return; }
    cut := AfterLast(window, "\n");
    if cut != 0 { return; }
    cut := AfterLast(window, " ");
    if cut != 0 { return; }
    cut := |window|;
  }

  // --- The chunks ----------------------------------------------------------------------------

  datatype Outcome = Chunks(chunks: seq<string>) | LimitTooSmall

  function Joined(chunks: seq<string>): string {
    if chunks == [] then "" else Joined(chunks[..|chunks| - 1]) + chunks[|chunks| - 1]
  }

  lemma JoinedAppend(chunks: seq<string>, chunk: string)
    ensures Joined(chunks + [chunk]) == Joined(chunks) + chunk
  {
    assert (chunks + [chunk])[..|chunks|] == chunks;
  }

  ghost predicate Fits(chunk: string, limit: nat) { chunk != "" && ByteLength(chunk) <= limit }

  /** A piece of this size was cut naturally out of the longest window of `rest`. */
  ghost predicate NaturalPiece(rest: string, limit: nat, size: nat) {
    ByteLength(rest) > limit && exists n: nat :: LongestFit(rest, limit, n) && NaturalCut(rest[..n], size)
  }

  /** Chunk `i` was cut naturally out of what the chunks before it left. */
  ghost predicate CutFrom(text: string, chunks: seq<string>, i: nat, limit: nat)
    requires i < |chunks|
  {
    var done := |Joined(chunks[..i])|;
    done <= |text| && NaturalPiece(text[done..], limit, |chunks[i]|)
  }

  ghost predicate AllFit(chunks: seq<string>, limit: nat) { forall i :: 0 <= i < |chunks| ==> Fits(chunks[i], limit) }

  /** The first `n` chunks were cut naturally. */
  ghost predicate AllCut(text: string, chunks: seq<string>, limit: nat, n: nat)
    requires n <= |chunks|
  {
    forall i :: 0 <= i < n ==> CutFrom(text, chunks, i, limit)
  }

  lemma AppendJoins(text: string, chunks: seq<string>, rest: string, chunk: string)
    requires Joined(chunks) + rest == text && chunk <= rest
    ensures Joined(chunks + [chunk]) + rest[|chunk|..] == text
  {
    var tail := rest[|chunk|..];
    JoinedAppend(chunks, chunk);
    assert rest == chunk + tail;
    JoinAssoc(Joined(chunks), chunk, tail);
  }

  lemma JoinAssoc(a: string, b: string, c: string)
    ensures a + b + c == a + (b + c)
  {
  }

  lemma EarlierCutsStay(text: string, chunks: seq<string>, chunk: string, limit: nat)
    requires AllCut(text, chunks, limit, |chunks|)
    ensures AllCut(text, chunks + [chunk], limit, |chunks|)
  {
    var all := chunks + [chunk];
    forall i | 0 <= i < |chunks| ensures CutFrom(text, all, i, limit) {
      assert CutFrom(text, chunks, i, limit) && all[..i] == chunks[..i];
    }
  }

  lemma LastIsCutFrom(text: string, chunks: seq<string>, rest: string, chunk: string, limit: nat)
    requires Joined(chunks) + rest == text && NaturalPiece(rest, limit, |chunk|)
    ensures CutFrom(text, chunks + [chunk], |chunks|, limit)
  {
    assert (chunks + [chunk])[..|chunks|] == chunks && text[|Joined(chunks)|..] == rest;
  }

  lemma AppendCut(text: string, chunks: seq<string>, rest: string, chunk: string, limit: nat)
    requires AllCut(text, chunks, limit, |chunks|) && Joined(chunks) + rest == text && chunk <= rest
    ensures AllCut(text, chunks + [chunk], limit, |chunks|) && Joined(chunks + [chunk]) + rest[|chunk|..] == text
    ensures NaturalPiece(rest, limit, |chunk|) ==> AllCut(text, chunks + [chunk], limit, |chunks| + 1)
  {
    AppendJoins(text, chunks, rest, chunk);
    EarlierCutsStay(text, chunks, chunk, limit);
    if NaturalPiece(rest, limit, |chunk|) { LastIsCutFrom(text, chunks, rest, chunk, limit); }
  }

  method NextChunk(remaining: string, limit: nat) returns (chunk: string)
    requires limit >= MAX_CODE_POINT_BYTES && ByteLength(remaining) > limit
    ensures chunk <= remaining && Fits(chunk, limit) && NaturalPiece(remaining, limit, |chunk|)
  {
    var width := CharsWithin(remaining, limit);
    var cut := ChooseCut(remaining[..width]);
    chunk := remaining[..cut];
    PrefixShorter(remaining, cut, width);
  }

  method SplitLong(text: string, limit: nat) returns (chunks: seq<string>)
    requires limit >= MAX_CODE_POINT_BYTES
    ensures Joined(chunks) == text && AllFit(chunks, limit)
    ensures chunks != [] ==> AllCut(text, chunks, limit, |chunks| - 1)
  {
    chunks := [];
    var remaining := text;
    while |Utf8(remaining)| > limit
      invariant Joined(chunks) + remaining == text
      invariant AllFit(chunks, limit) && AllCut(text, chunks, limit, |chunks|)
      decreases |remaining|
    {
      var chunk := NextChunk(remaining, limit);
      AppendCut(text, chunks, remaining, chunk, limit);
      chunks, remaining := chunks + [chunk], remaining[|chunk|..];
    }
    if remaining != "" {
      AppendCut(text, chunks, remaining, remaining, limit);
      chunks := chunks + [remaining];
    }
  }

  /** A limit of at least one code point always works: the chunks are nonempty, each fits the
  limit in bytes, and together they are exactly the text. All but the last were cut at the
  best boundary of the longest window. */
  method SplitMessage(text: string, limit: int) returns (r: Outcome)
    ensures r.LimitTooSmall? <==> limit < MAX_CODE_POINT_BYTES
    ensures r.Chunks? ==> Joined(r.chunks) == text && AllFit(r.chunks, limit)
    ensures r.Chunks? && r.chunks != [] ==> AllCut(text, r.chunks, limit, |r.chunks| - 1)
    ensures r.Chunks? && text != "" && ByteLength(text) <= limit ==> r.chunks == [text]
    ensures r.Chunks? && text == "" ==> r.chunks == []
  {
    if limit < MAX_CODE_POINT_BYTES { return LimitTooSmall; }
    if text == "" { return Chunks([]); }
    if |Utf8(text)| <= limit {
      JoinedAppend([], text);
      return Chunks([text]);
    }
    var chunks := SplitLong(text, limit);
    r := Chunks(chunks);
  }

  /** The rules leave no choice: the size of every piece is determined. */
  lemma NaturalPieceIsUnique(rest: string, limit: nat, a: nat, b: nat)
    requires NaturalPiece(rest, limit, a) && NaturalPiece(rest, limit, b)
    ensures a == b
  {
    var m: nat :| LongestFit(rest, limit, m) && NaturalCut(rest[..m], a);
    var n: nat :| LongestFit(rest, limit, n) && NaturalCut(rest[..n], b);
    FitIsUnique(rest, limit, m, n);
    CutIsUnique(rest[..m], a, b);
  }

  lemma FitIsUnique(rest: string, limit: nat, m: nat, n: nat)
    requires LongestFit(rest, limit, m) && LongestFit(rest, limit, n)
    ensures m == n
  {
    if m < n { PrefixShorter(rest, m + 1, n); }
    if n < m { PrefixShorter(rest, n + 1, m); }
  }

  lemma CutIsUnique(window: string, a: nat, b: nat)
    requires NaturalCut(window, a) && NaturalCut(window, b)
    ensures a == b
  {
    if Has(window, "\n\n") { LastIsUnique(window, "\n\n", a, b); }
    else if Has(window, "\n") { LastIsUnique(window, "\n", a, b); }
    else if Has(window, " ") { LastIsUnique(window, " ", a, b); }
  }

  lemma LastIsUnique(window: string, mark: string, a: nat, b: nat)
    requires CutsAfter(window, mark, a) && CutsAfter(window, mark, b)
    ensures a == b
  {
  }
}
