/** What the jsonlib lexer and parser do, stated in terms of the input text:
    the token each leading character produces, the texts `parse` rejects
    before any member, and the empty object. */
module JsonlibFacts {
  import opened Results
  import opened CppStd
  import opened Jsonlib

  // ---------------------------------------------------------------------
  // The lexer, position by position

  /** `text[i..j]` is whitespace only. */
  predicate Spaces(text: string, i: nat, j: nat) {
    i <= j <= |text| && forall k | i <= k < j :: IsSpace(text[k])
  }

  /** The whitespace loop stops at the first character that is not a
      space, or at the end of the text. */
  lemma {:induction false} SkipWhitespaceStops(s: State)
    ensures var r := SkipWhitespace(s);
      Spaces(s.text, s.cursor, r.cursor) && (r.cursor == |s.text| || !IsSpace(s.text[r.cursor]))
    decreases |s.text| - s.cursor
  {
    if s.cursor < |s.text| && IsSpace(s.text[s.cursor]) {
      SkipWhitespaceStops(Consume(s));
    }
  }

  /** That position is the only one the loop can stop at. */
  lemma {:induction false} SkipsTo(s: State, j: nat)
    requires Spaces(s.text, s.cursor, j) && (j == |s.text| || !IsSpace(s.text[j]))
    ensures SkipWhitespace(s) == LexerState(s.text, j)
    decreases j - s.cursor
  {
    if s.cursor < j {
      SkipsTo(Consume(s), j);
    }
  }

  /** Index of the first `"` at or after `i`, or the length of the text. */
  function QuoteFrom(text: string, i: nat): (k: nat)
    requires i <= |text|
    ensures i <= k <= |text|
    ensures k < |text| ==> text[k] == '"'
    ensures forall m | i <= m < k :: text[m] != '"'
    decreases |text| - i
  {
    if i == |text| || text[i] == '"' then i else QuoteFrom(text, i + 1)
  }

  /** `lexString` returns everything up to the next `"` and leaves the
      cursor just past it; without a `"` it fails at the end of the text. */
  lemma {:induction false} ScanStringSpec(str: string, s: State)
    ensures var k := QuoteFrom(s.text, s.cursor);
      ScanString(str, s) ==
        if k < |s.text| then Lexed(Ok(Token(STRING, str + s.text[s.cursor..k])), LexerState(s.text, k + 1))
        else Lexed(Err(UnterminatedString), LexerState(s.text, |s.text|))
    decreases |s.text| - s.cursor
  {
    if s.cursor < |s.text| && s.text[s.cursor] != '"' {
      var k := QuoteFrom(s.text, s.cursor);
      assert k == QuoteFrom(s.text, s.cursor + 1);
      if k < |s.text| {
        assert s.text[s.cursor..k] == [s.text[s.cursor]] + s.text[s.cursor + 1..k];
        assert str + s.text[s.cursor..k] == (str + [s.text[s.cursor]]) + s.text[s.cursor + 1..k];
      }
      ScanStringSpec(str + [s.text[s.cursor]], Consume(s));
    } else {
      assert str + s.text[s.cursor..s.cursor] == str;
    }
  }

  /** The single characters `getToken` turns into tokens of their own. */
  predicate IsPunctuation(c: char) {
    c == '{' || c == '}' || c == ':' || c == ','
  }

  function PunctuationKind(c: char): TokenType
    requires IsPunctuation(c)
  {
    if c == '{' then LBRACE else if c == '}' then RBRACE else if c == ':' then COLON else COMMA
  }

  /** `getToken` reports the end of the input exactly when only whitespace
      is left, and then leaves the cursor at the end. */
  lemma EndOfInput(s: State)
    ensures NextToken(s).result == Ok(NoneToken) <==> Spaces(s.text, s.cursor, |s.text|)
    ensures Spaces(s.text, s.cursor, |s.text|) ==> NextToken(s).after == LexerState(s.text, |s.text|)
  {
    SkipWhitespaceStops(s);
    if Spaces(s.text, s.cursor, |s.text|) {
      SkipsTo(s, |s.text|);
    }
  }

  /** After whitespace, `{`, `}`, `:` and `,` are tokens of one character. */
  lemma PunctuationToken(s: State, j: nat)
    requires Spaces(s.text, s.cursor, j) && j < |s.text| && IsPunctuation(s.text[j])
    ensures NextToken(s) ==
      Lexed(Ok(Token(PunctuationKind(s.text[j]), [s.text[j]])), LexerState(s.text, j + 1))
  {
    SkipsTo(s, j);
  }

  /** After whitespace, `"` starts a string that runs to the next `"`. */
  lemma QuotedToken(s: State, j: nat)
    requires Spaces(s.text, s.cursor, j) && j < |s.text| && s.text[j] == '"'
    ensures var k := QuoteFrom(s.text, j + 1);
      NextToken(s) ==
        if k < |s.text| then Lexed(Ok(Token(STRING, s.text[j + 1..k])), LexerState(s.text, k + 1))
        else Lexed(Err(UnterminatedString), LexerState(s.text, |s.text|))
  {
    SkipsTo(s, j);
    var k := QuoteFrom(s.text, j + 1);
    if k < |s.text| {
      assert [] + s.text[j + 1..k] == s.text[j + 1..k];
    }
    ScanStringSpec([], LexerState(s.text, j + 1));
  }

  /** A string token runs from a `"` to the next one. */
  lemma StringToken(s: State, j: nat, k: nat)
    requires Spaces(s.text, s.cursor, j) && j < k < |s.text| && s.text[j] == '"' && s.text[k] == '"'
    requires forall m | j < m < k :: s.text[m] != '"'
    ensures NextToken(s) == Lexed(Ok(Token(STRING, s.text[j + 1..k])), LexerState(s.text, k + 1))
  {
    assert QuoteFrom(s.text, j + 1) == k;
    QuotedToken(s, j);
  }

  /** Every other character after whitespace is rejected. */
  lemma InvalidCharacter(s: State, j: nat)
    requires Spaces(s.text, s.cursor, j) && j < |s.text|
    requires !IsSpace(s.text[j]) && !IsPunctuation(s.text[j]) && s.text[j] != '"'
    ensures NextToken(s) == Lexed(Err(InvalidToken(s.text[j])), LexerState(s.text, j + 1))
  {
    SkipsTo(s, j);
  }

  // ---------------------------------------------------------------------
  // Texts the parser rejects or accepts, position by position

  /** Without a `{` as the first character after leading whitespace the
      text is rejected; an empty or blank text fails on the NONE token and
      a stray punctuation mark on its own token. */
  lemma MustOpenWithBrace(text: string, j: nat)
    requires Spaces(text, 0, j) && (j == |text| || (!IsSpace(text[j]) && text[j] != '{'))
    ensures Document(text).Err?
    ensures j == |text| ==> Document(text) == Err(Expected("{", NoneToken))
    ensures j < |text| && IsPunctuation(text[j]) ==>
      Document(text) == Err(Expected("{", Token(PunctuationKind(text[j]), [text[j]])))
  {
    var s := Start(text);
    if j == |text| {
      EndOfInput(s);
    } else if IsPunctuation(text[j]) {
      PunctuationToken(s, j);
    } else if text[j] == '"' {
      QuotedToken(s, j);
    } else {
      InvalidCharacter(s, j);
    }
  }

  /** `{`, whitespace and `}` make an empty object. */
  lemma EmptyObject(text: string, j: nat, k: nat)
    requires Spaces(text, 0, j) && j < |text| && text[j] == '{'
    requires Spaces(text, j + 1, k) && k < |text| && text[k] == '}'
    ensures Document(text) == Ok(map[])
  {
    PunctuationToken(Start(text), j);
    PunctuationToken(LexerState(text, j + 1), k);
  }

  /** A `{` followed only by whitespace is rejected: the member loop finds
      NONE where a name must be. */
  lemma UnclosedBrace(text: string, j: nat)
    requires Spaces(text, 0, j) && j < |text| && text[j] == '{'
    requires Spaces(text, j + 1, |text|)
    ensures Document(text) == Err(Expected("string", NoneToken))
  {
    PunctuationToken(Start(text), j);
    EndOfInput(LexerState(text, j + 1));
  }
}
