/**
 Lines of a text as str.splitlines() sees them, by position, and the non-blank characters of a text.
 */
module Lines {
  import opened Text

  /** Positions a (included) to b (excluded). */
  datatype Span = Span(a: nat, b: nat)

  predicate Within(s: string, sp: Span) {
    sp.a <= sp.b <= |s|
  }

  function At(s: string, sp: Span): string
    requires Within(s, sp)
  {
    s[sp.a..sp.b]
  }

  function Texts(s: string, spans: seq<Span>): (r: seq<string>)
    requires forall i :: 0 <= i < |spans| ==> Within(s, spans[i])
    ensures |r| == |spans| && forall i :: 0 <= i < |spans| ==> r[i] == At(s, spans[i])
  {
    seq(|spans|, i requires 0 <= i < |spans| => At(s, spans[i]))
  }

  /** A line boundary; all of them are whitespace. */
  predicate IsLineBreak(c: char) {
    var n := c as int;
    0x0A <= n <= 0x0D || 0x1C <= n <= 0x1E || n == 0x85 || n == 0x2028 || n == 0x2029
  }

  /** The first line boundary in [from, end), or end. */
  function NextBreak(s: string, from: nat, end: nat): (e: nat)
    requires from <= end <= |s|
    ensures from <= e <= end
    ensures forall i :: from <= i < e ==> !IsLineBreak(s[i])
    ensures e < end ==> IsLineBreak(s[e])
    decreases end - from
  {
    if from == end || IsLineBreak(s[from]) then from else NextBreak(s, from + 1, end)
  }

  /** Where the next line starts: "\r\n" is one boundary. */
  function AfterBreak(s: string, e: nat, end: nat): (n: nat)
    requires e < end <= |s|
    ensures e < n <= end
  {
    if s[e] == '\r' && e + 1 < end && s[e + 1] == '\n' then e + 2 else e + 1
  }

  function LineSpans(s: string, from: nat, end: nat): (spans: seq<Span>)
    requires from <= end <= |s|
    ensures forall i :: 0 <= i < |spans| ==> from <= spans[i].a <= spans[i].b <= end
    decreases end - from
  {
    if from == end then []
    else
      var e := NextBreak(s, from, end);
      [Span(from, e)] + if e == end then [] else LineSpans(s, AfterBreak(s, e, end), end)
  }

  /** str.splitlines() */
  function SplitLines(s: string): seq<string> {
    Texts(s, LineSpans(s, 0, |s|))
  }

  lemma {:induction false} NextBreakInSlice(s: string, a: nat, b: nat, i: nat)
    requires a <= b <= |s| && i <= b - a
    ensures NextBreak(s[a..b], i, b - a) + a == NextBreak(s, a + i, b)
    decreases b - a - i
  {
    hide IsLineBreak;
    if i < b - a && !IsLineBreak(s[a..b][i]) {
      NextBreakInSlice(s, a, b, i + 1);
    }
  }

  function RestSpans(s: string, e: nat, end: nat): (spans: seq<Span>)
    requires e <= end <= |s|
    ensures forall i :: 0 <= i < |spans| ==> Within(s, spans[i])
  {
    if e == end then [] else LineSpans(s, AfterBreak(s, e, end), end)
  }

  lemma FirstLine(s: string, from: nat, end: nat)
    requires from < end <= |s|
    ensures var e := NextBreak(s, from, end);
            Texts(s, LineSpans(s, from, end)) == [s[from..e]] + Texts(s, RestSpans(s, e, end))
  {
    TextsCons(s, Span(from, NextBreak(s, from, end)), RestSpans(s, NextBreak(s, from, end), end));
  }

  lemma {:induction false} SliceLinesFrom(s: string, a: nat, b: nat, i: nat)
    requires a <= b <= |s| && i <= b - a
    ensures Texts(s[a..b], LineSpans(s[a..b], i, b - a)) == Texts(s, LineSpans(s, a + i, b))
    decreases b - a - i
  {
    hide IsLineBreak, NextBreak, LineSpans, Texts, AfterBreak;
    var x := s[a..b];
    if i == b - a {
      assert Texts(x, LineSpans(x, i, i)) == [] == Texts(s, LineSpans(s, b, b)) by { NoLines(x, i); NoLines(s, b); }
    } else {
      NextBreakInSlice(s, a, b, i);
      var e := NextBreak(x, i, b - a);
      FirstLine(x, i, b - a);
      FirstLine(s, a + i, b);
      SliceOfSlice(s, a, b, i, e);
      if e < b - a {
        AfterBreakInSlice(s, a, b, e);
        SliceLinesFrom(s, a, b, AfterBreak(x, e, b - a));
      } else {
        assert Texts(x, []) == Texts(s, []);
      }
    }
  }

  lemma NoLines(s: string, p: nat)
    requires p <= |s|
    ensures Texts(s, LineSpans(s, p, p)) == []
  {
  }

  lemma AfterBreakInSlice(s: string, a: nat, b: nat, e: nat)
    requires a <= b <= |s| && e < b - a
    ensures AfterBreak(s[a..b], e, b - a) + a == AfterBreak(s, a + e, b)
  {
  }

  lemma SliceOfSlice(s: string, a: nat, b: nat, i: nat, e: nat)
    requires a <= b <= |s| && i <= e <= b - a
    ensures s[a..b][i..e] == s[a + i..a + e]
  {
    forall k | 0 <= k < e - i ensures s[a..b][i..e][k] == s[a + i..a + e][k] {
    }
  }

  lemma TextsCons(s: string, sp: Span, rest: seq<Span>)
    requires Within(s, sp) && forall i :: 0 <= i < |rest| ==> Within(s, rest[i])
    ensures Texts(s, [sp] + rest) == [At(s, sp)] + Texts(s, rest)
  {
  }

  /** The lines of a slice, as positions of the whole. */
  lemma SliceLines(s: string, a: nat, b: nat)
    requires a <= b <= |s|
    ensures SplitLines(s[a..b]) == Texts(s, LineSpans(s, a, b))
  {
    hide LineSpans;
    assert |s[a..b]| == b - a;
    SliceLinesFrom(s, a, b, 0);
  }

  // ---------------------------------------------------------------- the line of a position

  /** The index of the line that holds position p. */
  function LineAt(s: string, from: nat, end: nat, p: nat): nat
    requires from <= p < end <= |s|
    decreases end - from
  {
    var e := NextBreak(s, from, end);
    if e == end || p < AfterBreak(s, e, end) then 0 else 1 + LineAt(s, AfterBreak(s, e, end), end, p)
  }

  lemma {:induction false} LineHolds(s: string, from: nat, end: nat, p: nat)
    requires from <= p < end <= |s| && !IsLineBreak(s[p])
    ensures LineAt(s, from, end, p) < |LineSpans(s, from, end)|
    ensures var line := LineSpans(s, from, end)[LineAt(s, from, end, p)];
            line.a <= p < line.b && (line.b == end || IsLineBreak(s[line.b]))
    decreases end - from
  {
    hide IsLineBreak;
    var e := NextBreak(s, from, end);
    if e < end && p >= AfterBreak(s, e, end) {
      LineHolds(s, AfterBreak(s, e, end), end, p);
    } else if e < end {
      assert p < e by { BreakChars(s, e, end, p); }
    }
  }

  lemma BreakChars(s: string, e: nat, end: nat, p: nat)
    requires e < end <= |s| && IsLineBreak(s[e]) && p < AfterBreak(s, e, end) && !IsLineBreak(s[p])
    ensures p < e
  {
  }

  /** A boundary between two positions puts them on different lines. */
  lemma {:induction false} LaterLine(s: string, from: nat, end: nat, p: nat, q: nat, r: nat)
    requires from <= p < q < r < end <= |s|
    requires !IsLineBreak(s[p]) && IsLineBreak(s[q]) && !IsLineBreak(s[r])
    ensures LineAt(s, from, end, p) < LineAt(s, from, end, r)
    decreases end - from
  {
    hide IsLineBreak;
    var e := NextBreak(s, from, end);
    assert e <= q;
    assert r >= AfterBreak(s, e, end) by { if r < AfterBreak(s, e, end) { BreakChars(s, e, end, r); } }
    if p >= AfterBreak(s, e, end) {
      LaterLine(s, AfterBreak(s, e, end), end, p, q, r);
    }
  }

  /** From a line start to the line of the last character: as many lines as the slice has. */
  lemma {:induction false} LinesToEnd(s: string, c: nat, b: nat, end: nat)
    requires c < b <= end <= |s| && !IsLineBreak(s[b - 1])
    ensures |LineSpans(s, c, b)| == LineAt(s, c, end, b - 1) + 1
    decreases end - c
  {
    SameBreak(s, c, b, end);
    var e := NextBreak(s, c, end);
    if e < b {
      SameAfter(s, e, b, end);
      LinesToEnd(s, AfterBreak(s, e, end), b, end);
    }
  }

  lemma {:induction false} SameBreak(s: string, c: nat, b: nat, end: nat)
    requires c <= b <= end <= |s|
    ensures NextBreak(s, c, b) == if NextBreak(s, c, end) < b then NextBreak(s, c, end) else b
  {
    var e, f := NextBreak(s, c, end), NextBreak(s, c, b);
    if e < b {
      assert f <= e && e <= f;
    }
  }

  lemma SameAfter(s: string, e: nat, b: nat, end: nat)
    requires e < b <= end <= |s| && IsLineBreak(s[e]) && !IsLineBreak(s[b - 1])
    ensures AfterBreak(s, e, b) == AfterBreak(s, e, end) < b
  {
    assert e < b - 1;
    assert s[e + 1] == '\n' ==> IsLineBreak(s[e + 1]);
  }

  /** A slice between two characters that are no boundaries has one line more than lies between the
      lines of its ends. */
  lemma {:induction false} SliceLineCount(s: string, from: nat, a: nat, b: nat, end: nat)
    requires from <= a < b <= end <= |s| && !IsLineBreak(s[a]) && !IsLineBreak(s[b - 1])
    ensures LineAt(s, from, end, a) + |LineSpans(s, a, b)| == LineAt(s, from, end, b - 1) + 1
    decreases end - from
  {
    var e := NextBreak(s, from, end);
    if e < end && a >= AfterBreak(s, e, end) {
      SliceLineCount(s, AfterBreak(s, e, end), a, b, end);
    } else {
      if e < end { BreakChars(s, e, end, a); }
      SameBreak(s, a, b, end);
      LaterBreak(s, from, a, end);
      if e < b {
        SameAfter(s, e, b, end);
        LinesToEnd(s, AfterBreak(s, e, end), b, end);
      }
    }
  }

  lemma {:induction false} LaterBreak(s: string, from: nat, a: nat, end: nat)
    requires from <= a <= end <= |s| && a <= NextBreak(s, from, end)
    ensures NextBreak(s, a, end) == NextBreak(s, from, end)
  {
    var e, f := NextBreak(s, from, end), NextBreak(s, a, end);
    assert forall i :: a <= i < e ==> !IsLineBreak(s[i]);
  }

  // ---------------------------------------------------------------- non-blank characters

  function NonSpace(s: string): string {
    if s == [] then [] else NonSpace(s[..|s| - 1]) + if IsSpace(s[|s| - 1]) then [] else [s[|s| - 1]]
  }

  function NonSpaceAll(parts: seq<string>): string {
    if parts == [] then [] else NonSpace(parts[0]) + NonSpaceAll(parts[1..])
  }

  lemma {:induction false} NonSpaceConcat(s: string, t: string)
    ensures NonSpace(s + t) == NonSpace(s) + NonSpace(t)
  {
    hide IsSpace;
    if t == [] {
      assert s + t == s;
    } else {
      var n := |t| - 1;
      assert (s + t)[..|s + t| - 1] == s + t[..n];
      NonSpaceConcat(s, t[..n]);
    }
  }

  lemma {:induction false} NonSpaceBlank(s: string)
    requires Blank(s)
    ensures NonSpace(s) == []
  {
    hide IsSpace;
    if s != [] {
      NonSpaceBlank(s[..|s| - 1]);
    }
  }

  lemma NonSpaceTrim(s: string)
    ensures NonSpace(Trim(s)) == NonSpace(s)
  {
    hide IsSpace, Trim;
    var left, right := TrimSplits(s);
    NonSpaceConcat(left + Trim(s), right);
    NonSpaceConcat(left, Trim(s));
    NonSpaceBlank(left);
    NonSpaceBlank(right);
  }
}
