/**
 The FTS query printer (_fts_query in packages/core/storage/thin_kb_store.py) and a lexer for what it
 prints: barewords, and strings in double quotes with inner quotes doubled. The characters of a
 bareword are the printer's own; anything else outside a string cannot be lexed.
 */
module FtsQuery {
  import opened Wrappers
  import opened Text

  const QUOTE := '\"'

  /** The parts of Unicode the printer asks Python for. */
  datatype Unicode = Unicode(upper: string -> string, isAlnum: char -> bool)

  /** Letters and digits are neither blanks nor quotes. Nothing is asked of upper-casing. */
  ghost predicate Lawful(u: Unicode) {
    forall c :: u.isAlnum(c) ==> !IsSpace(c) && c != QUOTE
  }

  // ---------------------------------------------------------------- printing

  function WordLength(s: string): (n: nat)
    ensures n <= |s|
    ensures forall i :: 0 <= i < n ==> !IsSpace(s[i])
    ensures n < |s| ==> IsSpace(s[n])
  {
    if s == [] || IsSpace(s[0]) then 0 else 1 + WordLength(s[1..])
  }

  /** str.split() */
  function Split(s: string): (tokens: seq<string>)
    ensures forall t :: t in tokens ==> t != [] && NoSpace(t)
    decreases |s|
  {
    if s == [] then []
    else if IsSpace(s[0]) then Split(s[1..])
    else [s[..WordLength(s)]] + Split(s[WordLength(s)..])
  }

  lemma {:induction false} WordLengthIs(word: string, rest: string)
    requires NoSpace(word) && (rest == [] || IsSpace(rest[0]))
    ensures WordLength(word + rest) == |word|
  {
    if word == [] {
      assert word + rest == rest;
    } else {
      assert (word + rest)[1..] == word[1..] + rest;
      WordLengthIs(word[1..], rest);
    }
  }

  /** split() takes whole words: blanks, then a word up to the next blank, then the rest. */
  lemma {:induction false} SplitTakesWord(left: string, word: string, rest: string)
    requires Blank(left) && word != [] && NoSpace(word) && (rest == [] || IsSpace(rest[0]))
    ensures Split(left + word + rest) == [word] + Split(rest)
  {
    var s := left + word + rest;
    if left == [] {
      assert s == word + rest;
      WordLengthIs(word, rest);
      assert s[..|word|] == word && s[|word|..] == rest;
    } else {
      assert s[1..] == left[1..] + word + rest;
      SplitTakesWord(left[1..], word, rest);
    }
  }

  /** replace('"', '""') */
  function Escape(s: string): string {
    if s == [] then [] else (if s[0] == QUOTE then [QUOTE, QUOTE] else [s[0]]) + Escape(s[1..])
  }

  function Quoted(s: string): string {
    [QUOTE] + Escape(s) + [QUOTE]
  }

  predicate IsOperator(u: Unicode, token: string) {
    var upper := u.upper(token);
    upper == "AND" || upper == "OR" || upper == "NOT" || "NEAR" <= upper
  }

  predicate BareChar(u: Unicode, c: char) {
    u.isAlnum(c) || c == '_' || c == '*'
  }

  predicate IsBareword(u: Unicode, token: string) {
    token != [] && forall i :: 0 <= i < |token| ==> BareChar(u, token[i])
  }

  function PrintToken(u: Unicode, token: string): string {
    if IsOperator(u, token) then u.upper(token)
    else if IsBareword(u, token) then token
    else Quoted(token)
  }

  /** " ".join */
  function Join(terms: seq<string>): string {
    if terms == [] then [] else if |terms| == 1 then terms[0] else Join(terms[..|terms| - 1]) + " " + terms[|terms| - 1]
  }

  predicate IsWholePhrase(raw: string) {
    |raw| >= 2 && raw[0] == QUOTE && raw[|raw| - 1] == QUOTE
  }

  function PrintAll(u: Unicode, tokens: seq<string>): (terms: seq<string>)
    ensures |terms| == |tokens| && forall i :: 0 <= i < |tokens| ==> terms[i] == PrintToken(u, tokens[i])
  {
    seq(|tokens|, i requires 0 <= i < |tokens| => PrintToken(u, tokens[i]))
  }

  function Print(u: Unicode, query: string): string {
    var raw := Trim(query);
    if raw == [] then []
    else if IsWholePhrase(raw) then Quoted(raw[1..|raw| - 1])
    else Join(PrintAll(u, Split(raw)))
  }

  /** _fts_query: terms are appended token by token. */
  method BuildFtsQuery(u: Unicode, query: string) returns (text: string)
    ensures text == Print(u, query)
  {
    hide Trim, Split, Escape, Join, IsBareword;
    var raw := Trim(query);
    if raw == [] {
      return [];
    }
    if |raw| >= 2 && raw[0] == QUOTE && raw[|raw| - 1] == QUOTE {
      return Quoted(raw[1..|raw| - 1]);
    }
    var tokens := Split(raw);
    var terms: seq<string> := [];
    for i := 0 to |tokens|
      invariant terms == PrintAll(u, tokens)[..i]
    {
      assert PrintAll(u, tokens)[..i + 1] == PrintAll(u, tokens)[..i] + [PrintToken(u, tokens[i])];
      var upper := u.upper(tokens[i]);
      if upper == "AND" || upper == "OR" || upper == "NOT" || "NEAR" <= upper {
        terms := terms + [upper];
      } else if IsBareword(u, tokens[i]) {
        terms := terms + [tokens[i]];
      } else {
        terms := terms + [[QUOTE] + Escape(tokens[i]) + [QUOTE]];
      }
    }
    assert terms == PrintAll(u, tokens);
    text := Join(terms);
  }

  // ---------------------------------------------------------------- lexing

  datatype Lexeme = Word(text: string) | Phrase(text: string)

  function BareLength(u: Unicode, s: string): (n: nat)
    ensures n <= |s|
    ensures forall i :: 0 <= i < n ==> BareChar(u, s[i])
    ensures n < |s| ==> !BareChar(u, s[n])
  {
    if s == [] || !BareChar(u, s[0]) then 0 else 1 + BareLength(u, s[1..])
  }

  /** The rest of a string whose opening quote has been read: its text and what follows. */
  function ReadString(s: string): (r: Option<(string, string)>)
    ensures r.Some? ==> |r.value.1| < |s|
  {
    if s == [] then None
    else if s[0] != QUOTE then
      match ReadString(s[1..])
      case None => None
      case Some((text, rest)) => Some(([s[0]] + text, rest))
    else if |s| >= 2 && s[1] == QUOTE then
      match ReadString(s[2..])
      case None => None
      case Some((text, rest)) => Some(([QUOTE] + text, rest))
    else Some(([], s[1..]))
  }

  function Lex(u: Unicode, s: string): Option<seq<Lexeme>>
    decreases |s|
  {
    if s == [] then Some([])
    else if IsSpace(s[0]) then Lex(u, s[1..])
    else if s[0] == QUOTE then
      match ReadString(s[1..])
      case None => None
      case Some((text, rest)) => Prepend(Phrase(text), Lex(u, rest))
    else if !BareChar(u, s[0]) then None
    else Prepend(Word(s[..BareLength(u, s)]), Lex(u, s[BareLength(u, s)..]))
  }

  function Prepend(l: Lexeme, rest: Option<seq<Lexeme>>): Option<seq<Lexeme>> {
    match rest case None => None case Some(ls) => Some([l] + ls)
  }

  /** What a token should be read back as. */
  function Intended(u: Unicode, token: string): Lexeme {
    if IsOperator(u, token) then Word(u.upper(token))
    else if IsBareword(u, token) then Word(token)
    else Phrase(token)
  }

  function IntendedAll(u: Unicode, tokens: seq<string>): seq<Lexeme> {
    if tokens == [] then [] else [Intended(u, tokens[0])] + IntendedAll(u, tokens[1..])
  }

  // ---------------------------------------------------------------- reading back

  lemma {:induction false} ReadEscaped(s: string, rest: string)
    requires rest == [] || rest[0] != QUOTE
    ensures ReadString(Escape(s) + [QUOTE] + rest) == Some((s, rest))
  {
    var text := Escape(s) + [QUOTE] + rest;
    if s == [] {
      assert text == [QUOTE] + rest;
    } else {
      ReadEscaped(s[1..], rest);
      var tail := Escape(s[1..]) + [QUOTE] + rest;
      if s[0] == QUOTE {
        assert text == [QUOTE, QUOTE] + tail;
        assert text[2..] == tail;
        assert s == [QUOTE] + s[1..];
      } else {
        assert text == [s[0]] + tail;
        assert text[1..] == tail;
        assert s == [s[0]] + s[1..];
      }
    }
  }

  lemma QuoteIsNoSpace()
    ensures !IsSpace(QUOTE)
  {
  }

  lemma LexSpace(u: Unicode, s: string)
    ensures Lex(u, " " + s) == Lex(u, s)
  {
    assert (" " + s)[1..] == s;
  }

  lemma LexQuoted(u: Unicode, s: string, rest: string)
    requires rest == [] || rest[0] != QUOTE
    ensures Lex(u, Quoted(s) + rest) == Prepend(Phrase(s), Lex(u, rest))
  {
    hide Escape, ReadString, IsSpace;
    QuoteIsNoSpace();
    var text := Quoted(s) + rest;
    assert text[1..] == Escape(s) + [QUOTE] + rest;
    ReadEscaped(s, rest);
  }

  lemma {:induction false} BareLengthIs(u: Unicode, word: string, rest: string)
    requires (forall i :: 0 <= i < |word| ==> BareChar(u, word[i])) && (rest == [] || !BareChar(u, rest[0]))
    ensures BareLength(u, word + rest) == |word|
  {
    if word == [] {
      assert word + rest == rest;
    } else {
      assert (word + rest)[1..] == word[1..] + rest;
      BareLengthIs(u, word[1..], rest);
    }
  }

  lemma BlankIsNotBare(u: Unicode)
    requires Lawful(u)
    ensures !BareChar(u, ' ')
  {
    assert IsSpace(' ');
  }

  lemma LexWord(u: Unicode, word: string, rest: string)
    requires Lawful(u) && IsBareword(u, word) && (rest == [] || rest[0] == ' ')
    ensures Lex(u, word + rest) == Prepend(Word(word), Lex(u, rest))
  {
    BlankIsNotBare(u);
    BareLengthIs(u, word, rest);
    assert BareChar(u, word[0]) && (word + rest)[0] == word[0];
    assert !IsSpace(word[0]) && word[0] != QUOTE;
    assert (word + rest)[..|word|] == word;
    assert (word + rest)[|word|..] == rest;
  }

  /** An operator-like token is printed as it is, in upper case, so that text must be a bareword. */
  predicate Readable(u: Unicode, token: string) {
    IsOperator(u, token) ==> IsBareword(u, u.upper(token))
  }

  lemma LexToken(u: Unicode, token: string, rest: string)
    requires Lawful(u) && Readable(u, token)
    requires rest == [] || rest[0] == ' '
    ensures Lex(u, PrintToken(u, token) + rest) == Prepend(Intended(u, token), Lex(u, rest))
  {
    if IsOperator(u, token) {
      LexWord(u, u.upper(token), rest);
    } else if IsBareword(u, token) {
      LexWord(u, token, rest);
    } else {
      LexQuoted(u, token, rest);
    }
  }

  lemma LexNothing(u: Unicode)
    ensures Lex(u, []) == Some([])
  {
  }

  /** Joining from the front. */
  lemma {:induction false} JoinFront(terms: seq<string>)
    requires |terms| >= 2
    ensures Join(terms) == terms[0] + " " + Join(terms[1..])
  {
    var n := |terms| - 1;
    if n > 1 {
      JoinFront(terms[..n]);
      assert terms[..n][1..] == terms[1..][..n - 1];
      assert terms[1..][n - 1] == terms[n];
      var middle := Join(terms[1..][..n - 1]);
      assert terms[0] + " " + middle + " " + terms[n] == terms[0] + " " + (middle + " " + terms[n]);
    } else {
      assert terms[..n] == [terms[0]] && terms[1..] == [terms[1]];
    }
  }

  lemma {:induction false} LexJoined(u: Unicode, tokens: seq<string>)
    requires Lawful(u)
    requires forall t :: t in tokens ==> Readable(u, t)
    ensures Lex(u, Join(PrintAll(u, tokens))) == Some(IntendedAll(u, tokens))
  {
    hide PrintToken, Readable, Intended, Lawful, Lex, IsSpace;
    var terms := PrintAll(u, tokens);
    assert tokens != [] ==> forall t :: t in tokens[1..] ==> t in tokens;
    if tokens == [] {
      LexNothing(u);
    } else if |tokens| == 1 {
      assert tokens[0] in tokens;
      assert terms == [PrintToken(u, tokens[0])];
      assert Join(terms) == terms[0] + [];
      LexToken(u, tokens[0], []);
      LexNothing(u);
      assert IntendedAll(u, tokens[1..]) == [];
    } else {
      assert tokens[0] in tokens;
      assert terms[1..] == PrintAll(u, tokens[1..]);
      JoinFront(terms);
      LexJoined(u, tokens[1..]);
      var rest := " " + Join(terms[1..]);
      assert Join(terms) == terms[0] + rest;
      LexSpace(u, Join(terms[1..]));
      LexToken(u, tokens[0], rest);
    }
  }

  /** Every word the lexer reads is a bareword. */
  lemma {:induction false} WordsAreBare(u: Unicode, s: string)
    requires Lex(u, s).Some?
    ensures forall l :: l in Lex(u, s).value && l.Word? ==> IsBareword(u, l.text)
    decreases |s|
  {
    if s != [] {
      if IsSpace(s[0]) {
        WordsAreBare(u, s[1..]);
      } else if s[0] == QUOTE {
        WordsAreBare(u, ReadString(s[1..]).value.1);
      } else {
        WordsAreBare(u, s[BareLength(u, s)..]);
      }
    }
  }

  lemma {:induction false} IntendedAt(u: Unicode, tokens: seq<string>, i: nat)
    requires i < |tokens|
    ensures |IntendedAll(u, tokens)| == |tokens| && IntendedAll(u, tokens)[i] == Intended(u, tokens[i])
  {
    if i == 0 {
      if |tokens| > 1 { IntendedAt(u, tokens[1..], 0); }
    } else {
      IntendedAt(u, tokens[1..], i - 1);
    }
  }

  /** For every query that is not one whole quoted phrase, lexing what is printed gives back exactly
      the whitespace-separated tokens, operators in upper case, if and only if the upper case of every
      operator-like token is a bareword. (NEAR-FIELD and NEAR"x are operator-like, and printed raw.) */
  lemma PrintLexesBackExactly(u: Unicode, query: string)
    requires Lawful(u) && !IsWholePhrase(Trim(query))
    ensures var tokens := Split(Trim(query));
            Lex(u, Print(u, query)) == Some(IntendedAll(u, tokens)) <==> forall t :: t in tokens ==> Readable(u, t)
  {
    hide Trim, IsBareword;
    var tokens := Split(Trim(query));
    if forall t :: t in tokens ==> Readable(u, t) {
      LexJoined(u, tokens);
      assert PrintAll(u, []) == [];
    } else {
      var t :| t in tokens && !Readable(u, t);
      var i :| 0 <= i < |tokens| && tokens[i] == t;
      IntendedAt(u, tokens, i);
      assert !IsBareword(u, Intended(u, t).text);
      if Lex(u, Print(u, query)).Some? {
        WordsAreBare(u, Print(u, query));
        assert Intended(u, t) in IntendedAll(u, tokens);
      }
    }
  }

  /** What each token is read back as: an operator, and whatever begins like NEAR, as a word in upper
      case; otherwise the token itself, as a word when it is made of letters, digits, _ and *, and as a
      phrase when not. */
  lemma IntendedExactly(u: Unicode, tokens: seq<string>, i: nat)
    requires i < |tokens|
    ensures |IntendedAll(u, tokens)| == |tokens|
    ensures var (t, upper, l) := (tokens[i], u.upper(tokens[i]), IntendedAll(u, tokens)[i]);
            if upper in {"AND", "OR", "NOT"} || (|upper| >= 4 && upper[..4] == "NEAR") then l == Word(upper)
            else if t != [] && (forall c :: c in t ==> u.isAlnum(c) || c in {'_', '*'}) then l == Word(t)
            else l == Phrase(t)
  {
    IntendedAt(u, tokens, i);
    NearExactly(u.upper(tokens[i]));
    var t := tokens[i];
    assert (forall c :: c in t ==> u.isAlnum(c) || c in {'_', '*'})
      <==> (forall k :: 0 <= k < |t| ==> BareChar(u, t[k])) by {
      if forall c :: c in t ==> u.isAlnum(c) || c in {'_', '*'} {
        forall k | 0 <= k < |t| ensures BareChar(u, t[k]) {
          assert t[k] in t;
        }
      }
    }
  }

  lemma NearExactly(upper: string)
    ensures "NEAR" <= upper <==> |upper| >= 4 && upper[..4] == "NEAR"
  {
  }

  /** A whole quoted phrase is read back as its inner text. */
  lemma PhraseLexesBack(u: Unicode, query: string)
    requires IsWholePhrase(Trim(query))
    ensures Lex(u, Print(u, query)) == Some([Phrase(Trim(query)[1..|Trim(query)| - 1])])
  {
    hide Trim;
    var inner := Trim(query)[1..|Trim(query)| - 1];
    LexQuoted(u, inner, []);
    assert Quoted(inner) + [] == Quoted(inner);
    LexNothing(u);
    assert [Phrase(inner)] + [] == [Phrase(inner)];
  }
}
