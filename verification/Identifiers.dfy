/**
 Storage identifiers (packages/core/storage/fs_utils.py): the normalisation every store applies
 to a caller's id, and the file name the ledger builds from the same id.
 */
module Identifiers {
  import opened Wrappers
  import opened Text

  predicate AllowedChar(c: char) {
    'a' <= c <= 'z' || 'A' <= c <= 'Z' || '0' <= c <= '9' || c == '.' || c == '_' || c == '-'
  }

  function UpperChar(c: char): char {
    if 'a' <= c <= 'z' then (c as int - 32) as char else c
  }

  function Upper(s: string): (r: string)
    ensures |r| == |s| && forall i :: 0 <= i < |s| ==> r[i] == UpperChar(s[i])
  {
    seq(|s|, i requires 0 <= i < |s| => UpperChar(s[i]))
  }

  /** CON, PRN, AUX, NUL, COM1 to COM9 and LPT1 to LPT9. */
  predicate IsReserved(s: string) {
    || (|s| == 3 && (s == "CON" || s == "PRN" || s == "AUX" || s == "NUL"))
    || (|s| == 4 && (s[..3] == "COM" || s[..3] == "LPT") && '1' <= s[3] <= '9')
  }

  /** A name the stores accept as it stands. */
  predicate IsIdentifier(s: string) {
    && s != [] && s != "." && s != ".."
    && !IsReserved(Upper(s))
    && forall i :: 0 <= i < |s| ==> AllowedChar(s[i])
  }

  /** validate_storage_identifier: strip, then accept or refuse. */
  function Validate(value: string): Option<string> {
    if IsIdentifier(Trim(value)) then Some(Trim(value)) else None
  }

  /** s is the word w, which is in upper case, in any mixture of cases. */
  predicate SpellsOut(s: string, w: string) {
    |s| == |w| && forall i :: 0 <= i < |w| ==> s[i] == w[i] || ('A' <= w[i] <= 'Z' && s[i] as int == w[i] as int + 32)
  }

  /** A device name: one of four words, or one of two and a digit. */
  predicate NamesDevice(s: string) {
    || SpellsOut(s, "CON") || SpellsOut(s, "PRN") || SpellsOut(s, "AUX") || SpellsOut(s, "NUL")
    || exists d :: d in "123456789" && (SpellsOut(s, "COM" + [d]) || SpellsOut(s, "LPT" + [d]))
  }

  /** The accepted identifiers: letters, digits, dot, underscore and hyphen, but neither a path step nor,
      in any case, the name of a device. */
  lemma IdentifierExactly(s: string)
    ensures IsIdentifier(s) <==>
            && s !in {"", ".", ".."}
            && (forall c :: c in s ==> 'a' <= c <= 'z' || 'A' <= c <= 'Z' || '0' <= c <= '9' || c in {'.', '_', '-'})
            && !NamesDevice(s)
  {
    DeviceExactly(s);
    assert (forall i :: 0 <= i < |s| ==> AllowedChar(s[i])) <==> (forall c :: c in s ==> AllowedChar(c));
    hide IsReserved, NamesDevice;
  }

  lemma UpperIs(s: string, w: string)
    requires forall i :: 0 <= i < |w| ==> !('a' <= w[i] <= 'z')
    ensures Upper(s) == w <==> SpellsOut(s, w)
  {
    if SpellsOut(s, w) {
      forall i | 0 <= i < |s| ensures UpperChar(s[i]) == w[i] {
      }
    }
    if Upper(s) == w {
      forall i | 0 <= i < |w| ensures s[i] == w[i] || ('A' <= w[i] <= 'Z' && s[i] as int == w[i] as int + 32) {
        assert UpperChar(s[i]) == w[i];
      }
    }
  }

  lemma DeviceExactly(s: string)
    ensures IsReserved(Upper(s)) <==> NamesDevice(s)
  {
    ReservedExactly(Upper(s));
    UpperIs(s, "CON");
    UpperIs(s, "PRN");
    UpperIs(s, "AUX");
    UpperIs(s, "NUL");
    forall d | d in "123456789"
      ensures Upper(s) == "COM" + [d] <==> SpellsOut(s, "COM" + [d])
      ensures Upper(s) == "LPT" + [d] <==> SpellsOut(s, "LPT" + [d])
    {
      UpperIs(s, "COM" + [d]);
      UpperIs(s, "LPT" + [d]);
    }
    hide IsReserved, SpellsOut;
  }

  lemma ReservedExactly(s: string)
    ensures IsReserved(s) <==>
            s in {"CON", "PRN", "AUX", "NUL"} || exists d :: d in "123456789" && (s == "COM" + [d] || s == "LPT" + [d])
  {
    assert forall d: char :: d in "123456789" <==> '1' <= d <= '9';
    if |s| == 4 {
      assert s == s[..3] + [s[3]];
    }
  }

  const EVENTS_SUFFIX := ".jsonl"

  /** The ledger file an event for `value` goes to: the id is checked, then the file name
      f"{value}.jsonl" is checked and stripped again, from the id as the caller spelled it. */
  function LedgerFile(value: string): Option<string> {
    if Validate(value).None? then None else Validate(value + EVENTS_SUFFIX)
  }

  predicate EndsInSpace(value: string) {
    value != [] && IsSpace(value[|value| - 1])
  }

  lemma IdentifierIsTrimmed(s: string)
    requires IsIdentifier(s)
    ensures s != [] && NoSpace(s) && Trim(s) == s && Validate(s) == Some(s)
  {
    TrimFixed(s);
  }

  lemma ValidateNormalises(value: string)
    requires Validate(value).Some?
    ensures Validate(Validate(value).value) == Validate(value)
  {
    IdentifierIsTrimmed(Validate(value).value);
  }

  lemma SuffixKeepsIdentifier(n: string)
    requires forall i :: 0 <= i < |n| ==> AllowedChar(n[i])
    ensures IsIdentifier(n + EVENTS_SUFFIX)
  {
  }

  /** strip() of the ledger file name only removes what precedes the id. */
  lemma TrimOfSuffixed(value: string, left: string, core: string, right: string)
    requires value == left + core + right && Blank(left)
    requires core != [] && !IsSpace(core[0])
    ensures Trim(value + EVENTS_SUFFIX) == core + right + EVENTS_SUFFIX
  {
    var rest := core + right + EVENTS_SUFFIX;
    assert rest[|rest| - 1] == 'l' && rest[0] == core[0];
    assert value + EVENTS_SUFFIX == left + rest + [];
    TrimIs(value + EVENTS_SUFFIX, left, rest, []);
  }

  lemma SpaceRefused(s: string, i: nat)
    requires Trim(s) == s && i < |s| && IsSpace(s[i])
    ensures Validate(s).None?
  {
    assert !AllowedChar(s[i]);
  }

  /** The file name of a stripped id followed by the blanks the caller left after it. */
  lemma SuffixedWithBlanks(n: string, right: string)
    requires IsIdentifier(n) && Blank(right)
    ensures Validate(n + right + EVENTS_SUFFIX) ==
            if right == [] then Some(n + EVENTS_SUFFIX) else None
  {
    IdentifierIsTrimmed(n);
    var f := n + right + EVENTS_SUFFIX;
    SuffixedIsTrimmed(n, right);
    if right == [] {
      assert f == n + EVENTS_SUFFIX;
      SuffixKeepsIdentifier(n);
    } else {
      SpaceRefused(f, |n|) by { assert f[|n|] == right[0]; }
    }
  }

  lemma SuffixedIsTrimmed(n: string, right: string)
    requires n != [] && !IsSpace(n[0])
    ensures Trim(n + right + EVENTS_SUFFIX) == n + right + EVENTS_SUFFIX
  {
    var f := n + right + EVENTS_SUFFIX;
    assert f[0] == n[0] && f[|f| - 1] == 'l';
    TrimFixed(f);
  }

  /** The store and the ledger agree on an id exactly when it has no trailing whitespace:
      otherwise the store accepts the stripped id and the ledger refuses the file name. */
  lemma LedgerFileExact(value: string)
    requires Validate(value).Some?
    ensures LedgerFile(value) ==
            if EndsInSpace(value) then None else Some(Validate(value).value + EVENTS_SUFFIX)
  {
    hide IsSpace, IsIdentifier, Trim;
    var n := Trim(value);
    var left, right := TrimSplits(value);
    IdentifierIsTrimmed(n);
    TrimOfSuffixed(value, left, n, right);
    SuffixedWithBlanks(n, right);
    SuffixedIsTrimmed(n, right);
    assert value[|value| - 1] == (if right == [] then n[|n| - 1] else right[|right| - 1]);
  }

  /** Different normalised ids have different ledger files. */
  lemma LedgerFileInjective(a: string, b: string)
    requires LedgerFile(a).Some? && LedgerFile(b).Some?
    ensures LedgerFile(a) == LedgerFile(b) <==> Validate(a) == Validate(b)
  {
    LedgerFileExact(a);
    LedgerFileExact(b);
    var x, y := Validate(a).value, Validate(b).value;
    if x + EVENTS_SUFFIX == y + EVENTS_SUFFIX {
      assert |x| == |y|;
      assert x == (x + EVENTS_SUFFIX)[..|x|] == (y + EVENTS_SUFFIX)[..|y|] == y;
    }
  }
}
