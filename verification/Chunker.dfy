/**
 The document chunker (_chunk_document and _find_line_number in
 packages/core/storage/phase2_store.py): a text is cut at its blank gaps, and each part is looked up
 in the lines of the text by its first line.
 */
module Chunker {
  import opened Wrappers
  import opened Text
  import opened Lines

  // ---------------------------------------------------------------- cutting

  /** The end of the whitespace that starts at j. */
  function RunEnd(s: string, j: nat): (e: nat)
    requires j <= |s|
    ensures j <= e <= |s|
    ensures forall i :: j <= i < e ==> IsSpace(s[i])
    ensures e < |s| ==> !IsSpace(s[e])
    decreases |s| - j
  {
    if j == |s| || !IsSpace(s[j]) then j else RunEnd(s, j + 1)
  }

  function LastNewline(s: string, lo: nat, hi: nat): (k: Option<nat>)
    requires lo <= hi <= |s|
    ensures k.Some? ==> lo <= k.value < hi && s[k.value] == '\n'
    ensures k.None? ==> forall i :: lo <= i < hi ==> s[i] != '\n'
    decreases hi - lo
  {
    if lo == hi then None else if s[hi - 1] == '\n' then Some(hi - 1) else LastNewline(s, lo, hi - 1)
  }

  /** Where a match of the pattern \n\s*\n+ that starts at i ends. The whitespace is taken greedily and
      given back up to its last newline. */
  function Gap(s: string, i: nat): (e: Option<nat>)
    requires i < |s|
    ensures e.Some? ==> i < e.value <= |s| && s[i] == '\n'
  {
    if s[i] != '\n' then None
    else match LastNewline(s, i + 1, RunEnd(s, i + 1))
         case None => None
         case Some(k) => Some(k + 1)
  }

  /** re.split on that pattern: the pieces between leftmost matches, from a piece begun at `from`. */
  function Pieces(s: string, from: nat, i: nat): (spans: seq<Span>)
    requires from <= i <= |s|
    ensures forall k :: 0 <= k < |spans| ==> Within(s, spans[k])
    decreases |s| - i
  {
    if i == |s| then [Span(from, i)]
    else match Gap(s, i)
         case Some(e) => [Span(from, i)] + Pieces(s, e, e)
         case None => Pieces(s, from, i + 1)
  }

  /** [part.strip() for part in pieces if part.strip()] */
  function StripAll(pieces: seq<string>): seq<string> {
    if pieces == [] then []
    else (if Trim(pieces[0]) == [] then [] else [Trim(pieces[0])]) + StripAll(pieces[1..])
  }

  function Parts(s: string): seq<string> {
    StripAll(Texts(s, Pieces(s, 0, 0)))
  }

  // ---------------------------------------------------------------- finding and labelling

  predicate OccursAt(line: string, anchor: string, i: nat) {
    i + |anchor| <= |line| && line[i..i + |anchor|] == anchor
  }

  /** anchor in line */
  predicate Contains(line: string, anchor: string) {
    exists i: nat :: i <= |line| && OccursAt(line, anchor, i)
  }

  predicate HasLine(part: string) {
    SplitLines(part) != []
  }

  function Anchor(part: string): string
    requires HasLine(part)
  {
    Trim(SplitLines(part)[0])
  }

  /** k is the first line from the cursor on that contains the anchor. */
  predicate FirstFrom(lines: seq<string>, anchor: string, cursor: nat, k: nat) {
    cursor <= k < |lines| && Contains(lines[k], anchor) && forall j :: cursor <= j < k ==> !Contains(lines[j], anchor)
  }

  /** What _find_line_number returns: the number, counted from 1, of that line. */
  predicate IsLineNumber(lines: seq<string>, part: string, cursor: nat, r: Option<nat>)
    requires HasLine(part)
  {
    match r
    case Some(n) => n >= 1 && Anchor(part) != [] && FirstFrom(lines, Anchor(part), cursor, n - 1)
    case None => Anchor(part) == [] || forall j :: cursor <= j < |lines| ==> !Contains(lines[j], Anchor(part))
  }

  method FindLineNumber(lines: seq<string>, part: string, cursor: nat) returns (r: Option<nat>)
    requires HasLine(part)
    ensures IsLineNumber(lines, part, cursor, r)
  {
    var anchor := Trim(SplitLines(part)[0]);
    if anchor == [] {
      return None;
    }
    var index := cursor;
    while index < |lines|
      invariant cursor <= index
      invariant forall j :: cursor <= j < index && j < |lines| ==> !Contains(lines[j], anchor)
    {
      if Contains(lines[index], anchor) {
        return Some(index + 1);
      }
      index := index + 1;
    }
    r := None;
  }

  datatype ChunkTitle = FirstLine(text: string) | Numbered(document: string, index: nat)

  datatype Chunk = Chunk(index: nat, title: ChunkTitle, content: string, startLine: Option<nat>, endLine: Option<nat>)

  function DropHashes(s: string): string {
    if s != [] && s[0] == '#' then DropHashes(s[1..]) else s
  }

  function TitleOf(document: string, part: string, index: nat): ChunkTitle
    requires HasLine(part)
  {
    var first := Trim(DropHashes(Anchor(part)));
    if first == [] then Numbered(document, index) else FirstLine(if |first| > 80 then first[..80] else first)
  }

  /** The chunk of a part, wherever its first line was found. */
  function ChunkOf(document: string, part: string, index: nat, start: Option<nat>): Chunk
    requires HasLine(part)
  {
    Chunk(index, TitleOf(document, part, index), part, start,
          if start.Some? then Some(start.value + (|SplitLines(part)| - 1)) else None)
  }

  /** The line from which the search for part number i starts: the last line found so far. */
  function CursorAt(chunks: seq<Chunk>): nat {
    if chunks == [] then 0
    else
      var last := chunks[|chunks| - 1];
      if last.startLine.Some? then last.startLine.value else CursorAt(chunks[..|chunks| - 1])
  }

  predicate ChunkedUpTo(document: string, lines: seq<string>, parts: seq<string>, chunks: seq<Chunk>) {
    && |chunks| <= |parts|
    && forall i :: 0 <= i < |chunks| ==>
         && HasLine(parts[i])
         && IsLineNumber(lines, parts[i], CursorAt(chunks[..i]), chunks[i].startLine)
         && chunks[i] == ChunkOf(document, parts[i], i + 1, chunks[i].startLine)
  }

  function PartsOrTitle(document: string, content: string): seq<string> {
    if Parts(content) != [] then Parts(content) else [document]
  }

  /** content.splitlines() or [content] */
  function LinesOf(content: string): seq<string> {
    if SplitLines(content) == [] then [content] else SplitLines(content)
  }

  /** _chunk_document. A blank text with an empty title ends in an index error. */
  method ChunkDocument(document: string, content: string) returns (r: Result<seq<Chunk>>)
    ensures r.Err? <==> Parts(content) == [] && document == []
    ensures r.Ok? ==> |r.value| == |PartsOrTitle(document, content)|
    ensures r.Ok? ==> ChunkedUpTo(document, LinesOf(content), PartsOrTitle(document, content), r.value)
  {
    hide Parts, Trim, ChunkedUpTo, CursorAt, IsLineNumber, ChunkOf, SplitLines;
    var parts := Parts(content);
    if parts == [] && Trim(content) != [] {
      parts := [Trim(content)];
    }
    PartsNonBlank(content);
    if parts == [] {
      parts := [document];
    }
    var lines := SplitLines(content);
    if lines == [] {
      lines := [content];
    }
    var chunks: seq<Chunk> := [];
    var cursor := 0;
    ChunkedNone(document, lines, parts);
    for index := 0 to |parts|
      invariant parts == PartsOrTitle(document, content) && lines == LinesOf(content)
      invariant |chunks| == index && cursor == CursorAt(chunks)
      invariant ChunkedUpTo(document, lines, parts, chunks)
      invariant index > 0 ==> Parts(content) != [] || document != []
    {
      var part := parts[index];
      LinesOfNonEmpty(part);
      if SplitLines(part) == [] {
        EmptyPartIsTitle(document, content, index);
        return Err(BadIndex);
      }
      var start := FindLineNumber(lines, part, cursor);
      if start.Some? {
        cursor := start.value;
      }
      ChunkedAppend(document, lines, parts, chunks, start);
      chunks := chunks + [ChunkOf(document, part, index + 1, start)];
    }
    r := Ok(chunks);
  }

  lemma ChunkedAppend(document: string, lines: seq<string>, parts: seq<string>, chunks: seq<Chunk>, start: Option<nat>)
    requires ChunkedUpTo(document, lines, parts, chunks) && |chunks| < |parts| && HasLine(parts[|chunks|])
    requires IsLineNumber(lines, parts[|chunks|], CursorAt(chunks), start)
    ensures var all := chunks + [ChunkOf(document, parts[|chunks|], |chunks| + 1, start)];
            && ChunkedUpTo(document, lines, parts, all)
            && CursorAt(all) == if start.Some? then start.value else CursorAt(chunks)
  {
    hide IsLineNumber, TitleOf, SplitLines;
    var chunk := ChunkOf(document, parts[|chunks|], |chunks| + 1, start);
    var all := chunks + [chunk];
    CursorAppend(chunks, chunk);
    hide CursorAt, ChunkOf, HasLine;
    assert all[..|chunks|] == chunks;
    forall i | 0 <= i < |chunks| ensures all[..i] == chunks[..i] && all[i] == chunks[i] {
    }
  }

  lemma CursorAppend(chunks: seq<Chunk>, chunk: Chunk)
    ensures CursorAt(chunks + [chunk]) == if chunk.startLine.Some? then chunk.startLine.value else CursorAt(chunks)
  {
    assert (chunks + [chunk])[..|chunks|] == chunks;
  }

  lemma ChunkedNone(document: string, lines: seq<string>, parts: seq<string>)
    ensures ChunkedUpTo(document, lines, parts, []) && CursorAt([]) == 0
  {
  }

  lemma LinesOfNonEmpty(s: string)
    ensures SplitLines(s) == [] <==> s == []
  {
  }

  // ---------------------------------------------------------------- the parts as positions

  function LeftEnd(s: string, a: nat, b: nat): (l: nat)
    requires a <= b <= |s|
    ensures a <= l <= b
    ensures forall i :: a <= i < l ==> IsSpace(s[i])
    ensures l < b ==> !IsSpace(s[l])
    decreases b - a
  {
    if a == b || !IsSpace(s[a]) then a else LeftEnd(s, a + 1, b)
  }

  function RightEnd(s: string, a: nat, b: nat): (r: nat)
    requires a <= b <= |s|
    ensures a <= r <= b
    ensures forall i :: r <= i < b ==> IsSpace(s[i])
    ensures a < r ==> !IsSpace(s[r - 1])
    decreases b - a
  {
    if a == b || !IsSpace(s[b - 1]) then b else RightEnd(s, a, b - 1)
  }

  /** Where strip() leaves a piece. */
  function Stripped(s: string, sp: Span): (t: Span)
    requires Within(s, sp)
    ensures sp.a <= t.a <= t.b <= sp.b
  {
    var l := LeftEnd(s, sp.a, sp.b);
    Span(l, RightEnd(s, l, sp.b))
  }

  lemma StrippedIsTrim(s: string, sp: Span)
    requires Within(s, sp)
    ensures At(s, Stripped(s, sp)) == Trim(At(s, sp))
    ensures Stripped(s, sp).a < Stripped(s, sp).b ==> Tight(At(s, Stripped(s, sp)))
  {
    hide IsSpace, Trim;
    var t := Stripped(s, sp);
    hide LeftEnd, RightEnd;
    var left, core, right := s[sp.a..t.a], s[t.a..t.b], s[t.b..sp.b];
    assert At(s, sp) == left + core + right;
    assert forall i :: 0 <= i < |left| ==> left[i] == s[sp.a + i];
    assert forall i :: 0 <= i < |right| ==> right[i] == s[t.b + i];
    assert core != [] ==> core[0] == s[t.a] && core[|core| - 1] == s[t.b - 1];
    TrimIs(At(s, sp), left, core, right);
  }

  function PartSpans(s: string, pieces: seq<Span>): (spans: seq<Span>)
    requires forall k :: 0 <= k < |pieces| ==> Within(s, pieces[k])
    ensures forall k :: 0 <= k < |spans| ==> Within(s, spans[k])
  {
    if pieces == [] then []
    else
      var t := Stripped(s, pieces[0]);
      (if t.a == t.b then [] else [t]) + PartSpans(s, pieces[1..])
  }

  lemma {:induction false} PartsAreSpans(s: string, pieces: seq<Span>)
    requires forall k :: 0 <= k < |pieces| ==> Within(s, pieces[k])
    ensures StripAll(Texts(s, pieces)) == Texts(s, PartSpans(s, pieces))
  {
    hide Trim, Stripped;
    if pieces != [] {
      StrippedIsTrim(s, pieces[0]);
      assert Texts(s, pieces)[1..] == Texts(s, pieces[1..]);
      PartsAreSpans(s, pieces[1..]);
      var t := Stripped(s, pieces[0]);
      if t.a != t.b {
        TextsCons(s, t, PartSpans(s, pieces[1..]));
      }
      assert At(s, t) == [] <==> t.a == t.b;
    }
  }

  /** There is a blank line after x and before y: two newlines with nothing but blanks from one to the
      other. */
  predicate Separated(s: string, x: Span, y: Span) {
    exists q: nat, r: nat :: x.b <= q < r < y.a && BlankLineAt(s, q, r)
  }

  predicate BlankLineAt(s: string, q: nat, r: nat) {
    q < r < |s| && s[q] == '\n' && s[r] == '\n' && Blank(s[q..r])
  }

  predicate NoGapIn(s: string, sp: Span)
    requires Within(s, sp)
  {
    forall p :: sp.a <= p < sp.b ==> Gap(s, p).None?
  }

  /** Pieces or parts of a text: each without a gap inside, any two with a blank line between them. */
  predicate Cut(s: string, spans: seq<Span>)
    requires forall k :: 0 <= k < |spans| ==> Within(s, spans[k])
  {
    && (forall k :: 0 <= k < |spans| ==> NoGapIn(s, spans[k]))
    && (forall k, m :: 0 <= k < m < |spans| ==> Separated(s, spans[k], spans[m]))
  }

  lemma {:induction false} PiecesAreCut(s: string, from: nat, i: nat)
    requires from <= i <= |s| && NoGapIn(s, Span(from, i))
    ensures Cut(s, Pieces(s, from, i))
    ensures forall k :: 0 <= k < |Pieces(s, from, i)| ==> from <= Pieces(s, from, i)[k].a
    decreases |s| - i
  {
    hide Gap;
    if i < |s| {
      if Gap(s, i).Some? {
        GapIsNewline(s, i);
        var e := Gap(s, i).value;
        PiecesAreCut(s, e, e);
        var rest := Pieces(s, e, e);
        forall m | 0 <= m < |rest| ensures Separated(s, Span(from, i), rest[m]) {
          assert BlankLineAt(s, i, e - 1) && e - 1 < rest[m].a;
        }
      } else {
        PiecesAreCut(s, from, i + 1);
      }
    }
  }

  lemma GapIsNewline(s: string, i: nat)
    requires i < |s| && Gap(s, i).Some?
    ensures i + 1 < Gap(s, i).value <= |s| && BlankLineAt(s, i, Gap(s, i).value - 1)
  {
    GapIsBlank(s, i);
    var k := LastNewline(s, i + 1, RunEnd(s, i + 1)).value;
    assert s[i..k] == s[i..k + 1][..k - i];
  }

  predicate AfterIt(s: string, x: Span, spans: seq<Span>) {
    forall k :: 0 <= k < |spans| ==> Separated(s, x, spans[k])
  }

  lemma {:induction false} PartsStayAfter(s: string, x: Span, pieces: seq<Span>)
    requires (forall k :: 0 <= k < |pieces| ==> Within(s, pieces[k])) && AfterIt(s, x, pieces)
    ensures AfterIt(s, x, PartSpans(s, pieces))
  {
    hide Stripped, Separated;
    if pieces != [] {
      PartsStayAfter(s, x, pieces[1..]);
      StrippedStays(s, pieces[0]);
    }
  }

  lemma {:induction false} PartsAreCut(s: string, pieces: seq<Span>)
    requires (forall k :: 0 <= k < |pieces| ==> Within(s, pieces[k])) && Cut(s, pieces)
    ensures Cut(s, PartSpans(s, pieces))
    ensures forall k :: 0 <= k < |PartSpans(s, pieces)| ==>
              PartSpans(s, pieces)[k].a < PartSpans(s, pieces)[k].b && Tight(At(s, PartSpans(s, pieces)[k]))
  {
    hide Gap, Stripped, IsSpace, Separated, NoGapIn, Tight, At;
    if pieces != [] {
      PartsAreCut(s, pieces[1..]);
      var t := Stripped(s, pieces[0]);
      StrippedIsTrim(s, pieces[0]);
      StrippedStays(s, pieces[0]);
      assert AfterIt(s, t, pieces[1..]);
      PartsStayAfter(s, t, pieces[1..]);
    }
  }

  lemma StrippedStays(s: string, sp: Span)
    requires Within(s, sp)
    ensures var t := Stripped(s, sp);
            && (forall y :: Separated(s, sp, y) ==> Separated(s, t, y))
            && (forall x :: Separated(s, x, sp) ==> Separated(s, x, t))
            && (NoGapIn(s, sp) ==> NoGapIn(s, t))
  {
    hide Gap, IsSpace, LeftEnd, RightEnd;
  }

  /** The positions of the parts of a text. */
  function SpansOf(s: string): (spans: seq<Span>)
    ensures forall k :: 0 <= k < |spans| ==> Within(s, spans[k])
  {
    PartSpans(s, Pieces(s, 0, 0))
  }

  lemma PartsOf(s: string)
    ensures Parts(s) == Texts(s, SpansOf(s)) && Cut(s, SpansOf(s))
    ensures forall k :: 0 <= k < |SpansOf(s)| ==> SpansOf(s)[k].a < SpansOf(s)[k].b && Tight(At(s, SpansOf(s)[k]))
  {
    hide Gap, Pieces, Stripped, StripAll;
    PartsAreSpans(s, Pieces(s, 0, 0));
    PiecesAreCut(s, 0, 0);
    PartsAreCut(s, Pieces(s, 0, 0));
  }

  lemma PartsAreNonEmpty(s: string)
    ensures forall k :: 0 <= k < |Parts(s)| ==> Parts(s)[k] != []
  {
    hide Parts, SpansOf, Cut;
    PartsOf(s);
  }

  lemma EmptyPartIsTitle(document: string, content: string, index: nat)
    requires index < |PartsOrTitle(document, content)| && PartsOrTitle(document, content)[index] == []
    ensures Parts(content) == [] && document == []
  {
    hide Parts;
    PartsAreNonEmpty(content);
  }

  // ---------------------------------------------------------------- nothing lost, no blank line inside

  lemma GapIsBlank(s: string, i: nat)
    requires i < |s| && Gap(s, i).Some?
    ensures Blank(s[i..Gap(s, i).value])
  {
    var e := RunEnd(s, i + 1);
    var k := LastNewline(s, i + 1, e).value;
    assert IsSpace('\n');
    forall j | i <= j < k + 1 ensures IsSpace(s[j]) {
    }
  }

  lemma {:induction false} PiecesKeepText(s: string, from: nat, i: nat)
    requires from <= i <= |s|
    ensures NonSpaceAll(Texts(s, Pieces(s, from, i))) == NonSpace(s[from..])
    decreases |s| - i
  {
    hide IsSpace, Gap, NonSpace;
    if i == |s| {
      assert s[from..|s|] == s[from..];
      assert Texts(s, [Span(from, i)]) == [s[from..]];
      assert NonSpaceAll([s[from..]]) == NonSpace(s[from..]) + NonSpaceAll([]);
    } else if Gap(s, i).Some? {
      GapIsNewline(s, i);
      var e := Gap(s, i).value;
      PiecesKeepText(s, e, e);
      TextsCons(s, Span(from, i), Pieces(s, e, e));
      GapIsBlank(s, i);
      NonSpaceBlank(s[i..e]);
      NonSpaceConcat(s[from..i], s[i..e]);
      NonSpaceConcat(s[from..i] + s[i..e], s[e..]);
      assert s[from..] == s[from..i] + s[i..e] + s[e..];
    } else {
      PiecesKeepText(s, from, i + 1);
    }
  }

  lemma {:induction false} StripKeepsText(pieces: seq<string>)
    ensures NonSpaceAll(StripAll(pieces)) == NonSpaceAll(pieces)
  {
    hide NonSpace, Trim;
    if pieces != [] {
      StripKeepsText(pieces[1..]);
      NonSpaceTrim(pieces[0]);
      assert NonSpace([]) == [] by { NonSpaceBlank([]); }
      var t := Trim(pieces[0]);
      if t != [] {
        assert ([t] + StripAll(pieces[1..]))[1..] == StripAll(pieces[1..]);
      } else {
        assert StripAll(pieces) == StripAll(pieces[1..]);
        assert NonSpace(pieces[0]) + NonSpaceAll(pieces[1..]) == NonSpaceAll(pieces[1..]);
      }
    }
  }

  lemma PartsKeepText(s: string)
    ensures NonSpaceAll(Parts(s)) == NonSpace(s)
  {
    hide Pieces, StripAll, NonSpace;
    PiecesKeepText(s, 0, 0);
    StripKeepsText(Texts(s, Pieces(s, 0, 0)));
    assert s[0..] == s;
  }

  lemma {:induction false} NonSpaceOfNonBlank(s: string, i: nat)
    requires i < |s| && !IsSpace(s[i])
    ensures NonSpace(s) != []
  {
    if i < |s| - 1 {
      NonSpaceOfNonBlank(s[..|s| - 1], i);
    }
  }

  /** The second fallback of the chunker is never taken: a text that strips to something has a part. */
  lemma PartsNonBlank(s: string)
    ensures Parts(s) == [] <==> Trim(s) == []
  {
    hide Parts, Trim, IsSpace, NonSpace;
    PartsKeepText(s);
    NonSpaceTrim(s);
    var left, right := TrimSplits(s);
    assert NonSpace([]) == [] by { NonSpaceBlank([]); }
    if Trim(s) != [] {
      NonSpaceOfNonBlank(Trim(s), 0);
    } else {
      PartsOf(s);
      if Parts(s) != [] {
        PartsAreNonEmpty(s);
        TightIsNonBlank(Parts(s)[0]) by { assert Tight(At(s, SpansOf(s)[0])); }
      }
    }
  }

  lemma TightIsNonBlank(s: string)
    requires s != [] && Tight(s)
    ensures NonSpace(s) != []
  {
    NonSpaceOfNonBlank(s, 0);
  }

  /** No line of the text is blank: between any two newlines there is something. */
  predicate NoBlankLine(s: string) {
    forall i, j :: 0 <= i < j < |s| && s[i] == '\n' && s[j] == '\n' ==> exists m :: i < m < j && !IsSpace(s[m])
  }

  lemma NoGapMeansText(s: string, i: nat, j: nat)
    requires i < j < |s| && s[i] == '\n' && s[j] == '\n' && Gap(s, i).None?
    ensures exists m :: i < m < j && !IsSpace(s[m])
  {
    var e := RunEnd(s, i + 1);
    assert s[j] == '\n' && IsSpace(s[j]);
    assert e <= j;
    assert e != j;
    assert i < e < j && !IsSpace(s[e]);
  }

  lemma NoGapNoBlankLine(s: string, sp: Span)
    requires Within(s, sp) && NoGapIn(s, sp)
    ensures NoBlankLine(At(s, sp))
  {
    hide Gap, IsSpace;
    var x := At(s, sp);
    forall i, j | 0 <= i < j < |x| && x[i] == '\n' && x[j] == '\n' ensures exists m :: i < m < j && !IsSpace(x[m]) {
      NoGapMeansText(s, sp.a + i, sp.a + j);
      var m :| sp.a + i < m < sp.a + j && !IsSpace(s[m]);
      assert !IsSpace(x[m - sp.a]);
    }
  }

  // ---------------------------------------------------------------- the line numbers

  /** The number of the line a part really starts on. */
  function TrueLine(s: string, sp: Span): nat
    requires Within(s, sp) && sp.a < sp.b
  {
    LineAt(s, 0, |s|, sp.a) + 1
  }

  lemma TightEnds(s: string, sp: Span)
    requires Within(s, sp) && sp.a < sp.b && Tight(At(s, sp))
    ensures !IsSpace(s[sp.a]) && !IsSpace(s[sp.b - 1]) && !IsLineBreak(s[sp.a]) && !IsLineBreak(s[sp.b - 1])
  {
    hide IsSpace, IsLineBreak;
    assert At(s, sp)[0] == s[sp.a] && At(s, sp)[|At(s, sp)| - 1] == s[sp.b - 1];
    NonSpaceNoBreak(s[sp.a]);
    NonSpaceNoBreak(s[sp.b - 1]);
  }

  lemma NonSpaceNoBreak(c: char)
    ensures !IsSpace(c) ==> !IsLineBreak(c)
  {
  }

  /** The first line of a part lies inside the line of the text the part starts on. */
  lemma AnchorInTrueLine(s: string, sp: Span)
    requires Within(s, sp) && sp.a < sp.b && Tight(At(s, sp))
    ensures HasLine(At(s, sp)) && Anchor(At(s, sp)) != []
    ensures TrueLine(s, sp) <= |SplitLines(s)| && Contains(SplitLines(s)[TrueLine(s, sp) - 1], Anchor(At(s, sp)))
  {
    hide IsSpace, IsLineBreak, Trim, Contains, Tight, LineSpans;
    TightEnds(s, sp);
    var e := NextBreak(s, sp.a, sp.b);
    FirstLineOfPart(s, sp);
    var first := s[sp.a..e];
    assert first[0] == s[sp.a];
    FirstIsNonBlank(first);
    LineHolds(s, 0, |s|, sp.a);
    var line := LineSpans(s, 0, |s|)[TrueLine(s, sp) - 1];
    assert e <= line.b;
    SliceOfSlice(s, line.a, line.b, sp.a - line.a, e - line.a);
    PrefixInSlice(At(s, line), sp.a - line.a, e - line.a, first);
  }

  lemma FirstLineOfPart(s: string, sp: Span)
    requires Within(s, sp) && sp.a < sp.b && !IsLineBreak(s[sp.a])
    ensures HasLine(At(s, sp)) && SplitLines(At(s, sp))[0] == s[sp.a..NextBreak(s, sp.a, sp.b)]
    ensures sp.a < NextBreak(s, sp.a, sp.b)
  {
    hide IsLineBreak, SplitLines, LineSpans, Texts;
    SliceLines(s, sp.a, sp.b);
    Lines.FirstLine(s, sp.a, sp.b);
  }

  lemma FirstIsNonBlank(first: string)
    requires first != [] && !IsSpace(first[0])
    ensures Trim(first) != [] && Trim(first) <= first
  {
    hide IsSpace, Trim;
    var left, right := TrimSplits(first);
    assert |left| == 0;
    assert first == Trim(first) + right;
    assert Trim(first) == [] ==> first == right;
  }

  lemma PrefixInSlice(line: string, a: nat, b: nat, first: string)
    requires a <= b <= |line| && line[a..b] == first && Trim(first) <= first
    ensures Contains(line, Trim(first))
  {
    hide Trim;
    SliceOfSlice(line, a, b, 0, |Trim(first)|);
    assert OccursAt(line, Trim(first), a);
  }

  /** The number found for a part is past the cursor and never past the true line. */
  lemma FoundInTime(s: string, sp: Span, cursor: nat, r: Option<nat>)
    requires Within(s, sp) && sp.a < sp.b && Tight(At(s, sp)) && HasLine(At(s, sp))
    requires cursor < TrueLine(s, sp) && IsLineNumber(SplitLines(s), At(s, sp), cursor, r)
    ensures r.Some? && cursor < r.value <= TrueLine(s, sp)
  {
    hide TrueLine, SplitLines, Contains;
    AnchorInTrueLine(s, sp);
    if r.Some? {
      assert r.value - 1 <= TrueLine(s, sp) - 1;
    }
  }

  lemma SeparatedLines(s: string, x: Span, y: Span)
    requires Within(s, x) && Within(s, y) && x.a < x.b && y.a < y.b
    requires Tight(At(s, x)) && Tight(At(s, y)) && Separated(s, x, y)
    ensures TrueLine(s, x) < TrueLine(s, y)
  {
    TightEnds(s, x);
    TightEnds(s, y);
    var q: nat, r: nat :| x.b <= q < r < y.a && BlankLineAt(s, q, r);
    assert IsLineBreak(s[q]);
    LaterLine(s, 0, |s|, x.a, q, y.a);
  }

  /** The last line of a part is a line of the text. */
  lemma LastLineExists(s: string, sp: Span)
    requires Within(s, sp) && sp.a < sp.b && Tight(At(s, sp))
    ensures TrueLine(s, sp) + (|SplitLines(At(s, sp))| - 1) <= |SplitLines(s)|
  {
    hide IsSpace, IsLineBreak;
    TightEnds(s, sp);
    SliceLines(s, sp.a, sp.b);
    SliceLineCount(s, 0, sp.a, sp.b, |s|);
    LineHolds(s, 0, |s|, sp.b - 1);
  }

  /** What the chunks of a text promise. */
  ghost predicate Faithful(content: string, chunks: seq<Chunk>) {
    && |chunks| == |SpansOf(content)|
    && forall i :: 0 <= i < |chunks| ==> Placed(content, SpansOf(content)[i], chunks[i])
  }

  ghost predicate Placed(content: string, sp: Span, c: Chunk)
    requires Within(content, sp)
  {
    && sp.a < sp.b && c.content == At(content, sp) && NoBlankLine(c.content)
    && c.startLine.Some? && 1 <= c.startLine.value <= TrueLine(content, sp)
    && c.endLine.Some? && c.startLine.value <= c.endLine.value <= |SplitLines(content)|
  }

  predicate Ordered(c: Chunk, d: Chunk) {
    c.startLine.Some? && d.startLine.Some? && c.startLine.value < d.startLine.value
  }

  lemma {:induction false} ChunksPlaced(document: string, content: string, chunks: seq<Chunk>, n: nat)
    requires Trim(content) != [] && n <= |chunks|
    requires ChunkedUpTo(document, LinesOf(content), PartsOrTitle(document, content), chunks)
    ensures |chunks| <= |SpansOf(content)|
    ensures forall i :: 0 <= i < n ==> Placed(content, SpansOf(content)[i], chunks[i])
    ensures n > 0 ==> chunks[n - 1].startLine.Some? && CursorAt(chunks[..n]) == chunks[n - 1].startLine.value
    ensures n == 0 ==> CursorAt(chunks[..n]) == 0
    ensures forall i :: 0 < i < n ==> Ordered(chunks[i - 1], chunks[i])
  {
    hide Trim, SpansOf, TrueLine, Placed, Ordered, ChunkedUpTo, PartsOrTitle, LinesOf;
    ChunksBound(document, content, chunks);
    if n > 0 {
      ChunksPlaced(document, content, chunks, n - 1);
      ChunkPlaced(document, content, chunks, n - 1);
      assert chunks[..n][..n - 1] == chunks[..n - 1];
    }
  }

  lemma ChunksBound(document: string, content: string, chunks: seq<Chunk>)
    requires Trim(content) != []
    requires ChunkedUpTo(document, LinesOf(content), PartsOrTitle(document, content), chunks)
    ensures |chunks| <= |SpansOf(content)|
  {
    hide Trim, Parts, SpansOf, LinesOf, IsLineNumber, ChunkOf;
    PartsNonBlank(content);
    PartsCount(content);
  }

  lemma TrimOfEmpty()
    ensures Trim([]) == []
  {
  }

  lemma ChunkPlaced(document: string, content: string, chunks: seq<Chunk>, k: nat)
    requires Trim(content) != [] && k < |chunks| <= |SpansOf(content)|
    requires ChunkedUpTo(document, LinesOf(content), PartsOrTitle(document, content), chunks)
    requires k > 0 ==> chunks[k - 1].startLine.Some? && CursorAt(chunks[..k]) == chunks[k - 1].startLine.value
    requires k > 0 ==> Placed(content, SpansOf(content)[k - 1], chunks[k - 1])
    requires k == 0 ==> CursorAt(chunks[..k]) == 0
    ensures Placed(content, SpansOf(content)[k], chunks[k]) && chunks[k].startLine.Some?
    ensures k > 0 ==> Ordered(chunks[k - 1], chunks[k])
  {
    hide Trim, Parts, SpansOf, TrueLine, NoBlankLine, IsLineNumber, SplitLines, TitleOf, NoGapIn, Separated;
    PartsNonBlank(content);
    PartsOf(content);
    LinesOfNonEmpty(content);
    TrimOfEmpty();
    var spans := SpansOf(content);
    var cursor := CursorAt(chunks[..k]);
    assert cursor < TrueLine(content, spans[k]) by {
      if k > 0 { SeparatedLines(content, spans[k - 1], spans[k]); } else { TrueLinePositive(content, spans[k]); }
    }
    FoundInTime(content, spans[k], cursor, chunks[k].startLine);
    LastLineExists(content, spans[k]);
    NoGapNoBlankLine(content, spans[k]);
    LinesOfNonEmpty(At(content, spans[k]));
  }

  lemma TrueLinePositive(s: string, sp: Span)
    requires Within(s, sp) && sp.a < sp.b
    ensures TrueLine(s, sp) >= 1
  {
  }

  // ---------------------------------------------------------------- titles and end lines

  /** Line boundaries are these characters, and "\r\n" together is one. */
  predicate Boundary(c: char) {
    c in {'\n', '\r', '\U{0B}', '\U{0C}', '\U{1C}', '\U{1D}', '\U{1E}', '\U{85}', '\U{2028}', '\U{2029}'}
  }

  /** How many of them there are from position i on. */
  function Boundaries(s: string, i: nat): nat
    requires i <= |s|
    decreases |s| - i
  {
    if i == |s| then 0
    else
      Boundaries(s, i + 1) +
      if Boundary(s[i]) && !(s[i] == '\r' && i + 1 < |s| && s[i + 1] == '\n') then 1 else 0
  }

  lemma BoundaryIsBreak(c: char)
    ensures Boundary(c) <==> IsLineBreak(c)
  {
  }
  lemma {:induction false} NoBoundaryBefore(s: string, from: nat, e: nat)
    requires from <= e <= |s| && forall i :: from <= i < e ==> !IsLineBreak(s[i])
    ensures Boundaries(s, from) == Boundaries(s, e)
    decreases e - from
  {
    hide Boundary, IsLineBreak;
    if from < e {
      BoundaryIsBreak(s[from]);
      NoBoundaryBefore(s, from + 1, e);
    }
  }

  lemma BoundaryPassed(s: string, e: nat)
    requires e < |s| && IsLineBreak(s[e])
    ensures Boundaries(s, e) == 1 + Boundaries(s, AfterBreak(s, e, |s|))
  {
    BoundaryIsBreak(s[e]);
  }

  /** A text that does not end in a boundary has one line more than it has boundaries. */
  lemma {:induction false} LinesAreBoundaries(s: string, from: nat)
    requires from < |s| && !IsLineBreak(s[|s| - 1])
    ensures |LineSpans(s, from, |s|)| == Boundaries(s, from) + 1
    decreases |s| - from
  {
    hide Boundary, IsLineBreak, Boundaries, AfterBreak;
    var e := NextBreak(s, from, |s|);
    NoBoundaryBefore(s, from, e);
    if e < |s| {
      BoundaryPassed(s, e);
      NotAtEnd(s, e);
      LinesAreBoundaries(s, AfterBreak(s, e, |s|));
    } else {
      NoneAtEnd(s);
    }
  }

  lemma NoneAtEnd(s: string)
    ensures Boundaries(s, |s|) == 0
  {
  }

  lemma NotAtEnd(s: string, e: nat)
    requires e < |s| && IsLineBreak(s[e]) && !IsLineBreak(s[|s| - 1])
    ensures AfterBreak(s, e, |s|) < |s|
  {
  }

  /** The title a chunk of content x should have, when its first line, stripped, is some hashes and then
      a rest that does not begin with one. */
  predicate TitledBy(x: string, k: nat, hashes: string, rest: string, document: string, index: nat, title: ChunkTitle) {
    && k <= |x| && (forall j :: 0 <= j < k ==> !Boundary(x[j])) && (k < |x| ==> Boundary(x[k]))
    && Trim(x[..k]) == hashes + rest
    && (forall j :: 0 <= j < |hashes| ==> hashes[j] == '#') && (rest != [] ==> rest[0] != '#')
    && title == (if Trim(rest) == [] then Numbered(document, index)
                 else FirstLine(if |Trim(rest)| <= 80 then Trim(rest) else Trim(rest)[..80]))
  }

  lemma {:induction false} HashesDropped(s: string) returns (hashes: string)
    ensures s == hashes + DropHashes(s) && forall j :: 0 <= j < |hashes| ==> hashes[j] == '#'
    ensures DropHashes(s) != [] ==> DropHashes(s)[0] != '#'
  {
    if s != [] && s[0] == '#' {
      var h := HashesDropped(s[1..]);
      hashes := [s[0]] + h;
    } else {
      hashes := [];
    }
  }

  lemma TitleExactly(document: string, x: string, index: nat) returns (k: nat, hashes: string, rest: string)
    requires HasLine(x)
    ensures TitledBy(x, k, hashes, rest, document, index, TitleOf(document, x, index))
  {
    hide Trim, IsLineBreak, Boundary;
    k := NextBreak(x, 0, |x|);
    forall j | 0 <= j < |x| ensures Boundary(x[j]) <==> IsLineBreak(x[j]) { BoundaryIsBreak(x[j]); }
    assert SplitLines(x)[0] == x[..k] by { Lines.FirstLine(x, 0, |x|); }
    hashes := HashesDropped(Anchor(x));
    rest := DropHashes(Anchor(x));
  }

  /** How a chunk is labelled. */
  ghost predicate Labelled(document: string, content: string, sp: Span, index: nat, c: Chunk)
    requires Within(content, sp) && sp.a < sp.b
  {
    && c.index == index && c.content == At(content, sp) && c.startLine.Some?
    && c.endLine == Some(c.startLine.value + Boundaries(c.content, 0))
    && (c.startLine.value == TrueLine(content, sp) ==>
          c.endLine == Some(LineAt(content, 0, |content|, sp.b - 1) + 1))
    && exists k: nat, hashes: string, rest: string :: TitledBy(c.content, k, hashes, rest, document, index, c.title)
  }

  lemma ChunkLabelled(document: string, content: string, sp: Span, index: nat, start: nat)
    requires Within(content, sp) && sp.a < sp.b && Tight(At(content, sp)) && HasLine(At(content, sp))
    ensures Labelled(document, content, sp, index, ChunkOf(document, At(content, sp), index, Some(start)))
  {
    hide IsLineBreak, TitledBy, Trim, LineSpans, Boundaries, LineAt, TitleOf, IsSpace;
    var x := At(content, sp);
    var k, hashes, rest := TitleExactly(document, x, index);
    TightEnds(content, sp);
    assert x[|x| - 1] == content[sp.b - 1];
    LinesAreBoundaries(x, 0);
    SliceLines(content, sp.a, sp.b);
    SliceLineCount(content, 0, sp.a, sp.b, |content|);
  }

  /** Every chunk of a text that is not blank: numbered from 1; its end line is its start line and as many
      more as there are line boundaries in it, which is the line of its last character when the start line
      is the true one; its title is the first 80 characters of its first line without leading hashes, or
      the document's title and the number when nothing is left of that line. */
  lemma ChunksAreLabelled(document: string, content: string, chunks: seq<Chunk>)
    requires Trim(content) != [] && |chunks| == |PartsOrTitle(document, content)|
    requires ChunkedUpTo(document, LinesOf(content), PartsOrTitle(document, content), chunks)
    ensures |chunks| == |SpansOf(content)|
    ensures forall i :: 0 <= i < |chunks| ==>
              var sp := SpansOf(content)[i];
              sp.a < sp.b && Labelled(document, content, sp, i + 1, chunks[i])
  {
    hide Trim, SpansOf, Placed, Labelled, LinesOf, IsLineNumber, ChunkOf, SplitLines, Cut, Parts, Tight;
    ChunksAreFaithful(document, content, chunks);
    PartsNonBlank(content);
    PartsOf(content);
    forall i | 0 <= i < |chunks|
      ensures var sp := SpansOf(content)[i]; sp.a < sp.b && Labelled(document, content, sp, i + 1, chunks[i])
    {
      var sp := SpansOf(content)[i];
      assert Placed(content, sp, chunks[i]);
      PlacedStart(content, sp, chunks[i]);
      assert PartsOrTitle(document, content)[i] == At(content, sp);
      ChunkLabelled(document, content, sp, i + 1, chunks[i].startLine.value);
    }
  }

  lemma PlacedStart(content: string, sp: Span, c: Chunk)
    requires Within(content, sp) && Placed(content, sp, c)
    ensures c.startLine.Some? && sp.a < sp.b
  {
  }

  /** A line contains an anchor when it is something, the anchor, and something more. */
  lemma ContainsExactly(line: string, anchor: string)
    ensures Contains(line, anchor) <==> exists left: string, right: string :: line == left + anchor + right
  {
    if Contains(line, anchor) {
      var i: nat :| i <= |line| && OccursAt(line, anchor, i);
      assert line == line[..i] + anchor + line[i + |anchor|..];
    }
    if left: string, right: string :| line == left + anchor + right {
      assert OccursAt(line, anchor, |left|);
    }
  }

  /** For every text that is not blank, whatever line boundaries it uses: the chunks hold its non-blank
      characters in order, none lost or repeated; a chunk has no blank line inside and any two have one
      between them; every start line is found, start lines strictly increase and never exceed the true
      one, and no end line is past the text. */
  lemma ChunksAreFaithful(document: string, content: string, chunks: seq<Chunk>)
    requires Trim(content) != [] && |chunks| == |PartsOrTitle(document, content)|
    requires ChunkedUpTo(document, LinesOf(content), PartsOrTitle(document, content), chunks)
    ensures Faithful(content, chunks) && Cut(content, SpansOf(content))
    ensures NonSpaceAll(Contents(chunks)) == NonSpace(content)
    ensures forall i, j :: 0 <= i < j < |chunks| ==> Ordered(chunks[i], chunks[j])
  {
    hide Trim, Parts, SpansOf, Placed, ChunkedUpTo, NonSpace, NonSpaceAll, Ordered, PartsOrTitle, Cut;
    PartsNonBlank(content);
    PartsOf(content);
    PartsKeepText(content);
    PartsCount(content);
    ContentsAreParts(document, content, chunks);
    ChunksPlaced(document, content, chunks, |chunks|);
    forall i, j | 0 <= i < j < |chunks| ensures Ordered(chunks[i], chunks[j]) {
      StepsIncrease(chunks, i, j);
    }
  }

  function Contents(chunks: seq<Chunk>): (r: seq<string>)
    ensures |r| == |chunks| && forall i :: 0 <= i < |chunks| ==> r[i] == chunks[i].content
  {
    seq(|chunks|, i requires 0 <= i < |chunks| => chunks[i].content)
  }

  lemma PartsCount(content: string)
    ensures |Parts(content)| == |SpansOf(content)|
  {
    hide Parts, SpansOf, Cut;
    PartsOf(content);
  }

  lemma ContentsAreParts(document: string, content: string, chunks: seq<Chunk>)
    requires Trim(content) != [] && |chunks| == |PartsOrTitle(document, content)|
    requires ChunkedUpTo(document, LinesOf(content), PartsOrTitle(document, content), chunks)
    ensures |chunks| == |Parts(content)| && Contents(chunks) == Parts(content)
  {
    hide Trim, Parts, IsLineNumber, SplitLines, TitleOf;
    PartsNonBlank(content);
  }

  lemma {:induction false} StepsIncrease(chunks: seq<Chunk>, i: nat, j: nat)
    requires i < j < |chunks|
    requires forall k :: 0 < k < |chunks| ==> Ordered(chunks[k - 1], chunks[k])
    ensures Ordered(chunks[i], chunks[j])
  {
    assert Ordered(chunks[j - 1], chunks[j]);
    if i < j - 1 {
      StepsIncrease(chunks, i, j - 1);
    }
  }
}
