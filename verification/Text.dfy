/** Python's notions of whitespace and of str.strip, on sequences of characters. */
module Text {

  /** str.isspace, which is also the regular-expression class \s. */
  predicate IsSpace(c: char) {
    var n := c as int;
    || 0x09 <= n <= 0x0D || 0x1C <= n <= 0x20 || n == 0x85 || n == 0xA0 || n == 0x1680
    || 0x2000 <= n <= 0x200A || n == 0x2028 || n == 0x2029 || n == 0x202F || n == 0x205F || n == 0x3000
  }

  /** The characters that are whitespace to Python. */
  lemma SpaceExactly(c: char)
    ensures IsSpace(c) <==>
            c in {'\t', '\n', '\U{0B}', '\U{0C}', '\r', '\U{1C}', '\U{1D}', '\U{1E}', '\U{1F}', ' ', '\U{85}',
                  '\U{A0}', '\U{1680}', '\U{2000}', '\U{2001}', '\U{2002}', '\U{2003}', '\U{2004}', '\U{2005}',
                  '\U{2006}', '\U{2007}', '\U{2008}', '\U{2009}', '\U{200A}', '\U{2028}', '\U{2029}', '\U{202F}',
                  '\U{205F}', '\U{3000}'}
  {
  }

  predicate Blank(s: string) {
    forall i :: 0 <= i < |s| ==> IsSpace(s[i])
  }

  predicate NoSpace(s: string) {
    forall i :: 0 <= i < |s| ==> !IsSpace(s[i])
  }

  function TrimLeft(s: string): string {
    if s != [] && IsSpace(s[0]) then TrimLeft(s[1..]) else s
  }

  function TrimRight(s: string): string {
    if s != [] && IsSpace(s[|s| - 1]) then TrimRight(s[..|s| - 1]) else s
  }

  /** str.strip() */
  function Trim(s: string): string {
    TrimRight(TrimLeft(s))
  }

  /** Neither empty-ended nor blank-ended: strip() leaves it alone. */
  predicate Tight(s: string) {
    s == [] || (!IsSpace(s[0]) && !IsSpace(s[|s| - 1]))
  }

  lemma {:induction false} TrimLeftDrops(left: string, rest: string)
    requires Blank(left) && (rest == [] || !IsSpace(rest[0]))
    ensures TrimLeft(left + rest) == rest
  {
    if left == [] {
      assert left + rest == rest;
    } else {
      assert left[0] == (left + rest)[0];
      assert (left + rest)[1..] == left[1..] + rest;
      TrimLeftDrops(left[1..], rest);
    }
  }

  lemma {:induction false} TrimRightDrops(rest: string, right: string)
    requires Blank(right) && (rest == [] || !IsSpace(rest[|rest| - 1]))
    ensures TrimRight(rest + right) == rest
  {
    if right == [] {
      assert rest + right == rest;
    } else {
      var n := |right| - 1;
      assert right[n] == (rest + right)[|rest + right| - 1];
      assert (rest + right)[..|rest + right| - 1] == rest + right[..n];
      TrimRightDrops(rest, right[..n]);
    }
  }

  /** strip() is determined by what it removes: blank ends around a core without them. */
  lemma TrimIs(s: string, left: string, core: string, right: string)
    requires s == left + core + right && Blank(left) && Blank(right) && Tight(core)
    ensures Trim(s) == core
  {
    if core == [] {
      assert s == (left + right) + [];
      assert Blank(left + right);
      TrimLeftDrops(left + right, []);
    } else {
      assert s == left + (core + right);
      assert (core + right)[0] == core[0];
      TrimLeftDrops(left, core + right);
      TrimRightDrops(core, right);
    }
  }

  lemma {:induction false} TrimLeftSplits(s: string) returns (left: string)
    ensures s == left + TrimLeft(s) && Blank(left)
    ensures TrimLeft(s) == [] || !IsSpace(TrimLeft(s)[0])
  {
    if s != [] && IsSpace(s[0]) {
      var l := TrimLeftSplits(s[1..]);
      left := [s[0]] + l;
    } else {
      left := [];
    }
  }

  lemma {:induction false} TrimRightSplits(s: string) returns (right: string)
    ensures s == TrimRight(s) + right && Blank(right)
    ensures TrimRight(s) == [] || !IsSpace(TrimRight(s)[|TrimRight(s)| - 1])
  {
    if s != [] && IsSpace(s[|s| - 1]) {
      var r := TrimRightSplits(s[..|s| - 1]);
      right := r + [s[|s| - 1]];
    } else {
      right := [];
    }
  }

  /** Every string is blank ends around its strip(). */
  lemma TrimSplits(s: string) returns (left: string, right: string)
    ensures s == left + Trim(s) + right && Blank(left) && Blank(right) && Tight(Trim(s))
  {
    left := TrimLeftSplits(s);
    right := TrimRightSplits(TrimLeft(s));
    if Trim(s) != [] {
      assert TrimLeft(s)[0] == Trim(s)[0];
    }
  }

  lemma TrimFixed(s: string)
    requires Tight(s)
    ensures Trim(s) == s
  {
    TrimIs(s, [], s, []);
  }

  lemma TrimIdempotent(s: string)
    ensures Trim(Trim(s)) == Trim(s)
  {
    var left, right := TrimSplits(s);
    TrimFixed(Trim(s));
  }
}
