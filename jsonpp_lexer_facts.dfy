/** What the jsonpp lexer does, stated in terms of the text it reads. */
module JsonppLexerFacts {
  import opened Results
  import opened CppStd
  import opened JsonppLexer

  function Min(a: int, b: int): int {
    if a <= b then a else b
  }

  /** Number of newline characters in `w`. */
  function Newlines(w: string): nat {
    if w == [] then 0 else (if w[0] == '\n' then 1 else 0) + Newlines(w[1..])
  }

  /** Number of characters after the last newline of `w` (all of `w` when it
      holds none). */
  function SinceNewline(w: string): nat {
    if w == [] then 0
    else if w[|w| - 1] == '\n' then 0
    else SinceNewline(w[..|w| - 1]) + 1
  }

  lemma {:induction false} NewlinesAppend(w: string, c: char)
    ensures Newlines(w + [c]) == Newlines(w) + (if c == '\n' then 1 else 0)
  {
    if w == [] {
      assert w + [c] == [c];
    } else {
      assert (w + [c])[1..] == w[1..] + [c];
      NewlinesAppend(w[1..], c);
    }
  }

  lemma {:induction false} SinceNewlineCons(c: char, w: string)
    ensures SinceNewline([c] + w) ==
      if Newlines(w) > 0 then SinceNewline(w)
      else if c == '\n' then |w| else |w| + 1
  {
    if w == [] {
      assert [c] + w == [c];
    } else {
      var init := w[..|w| - 1];
      assert ([c] + w)[..|[c] + w| - 1] == [c] + init;
      assert w == init + [w[|w| - 1]];
      NewlinesAppend(init, w[|w| - 1]);
      if w[|w| - 1] != '\n' {
        SinceNewlineCons(c, init);
      }
    }
  }

  /** A non-empty slice is its first character followed by the rest. */
  lemma SliceCons(a: string, lo: nat, hi: nat)
    requires lo < hi <= |a|
    ensures a[lo..hi] == [a[lo]] + a[lo + 1..hi]
  {
  }

  // ---------------------------------------------------------------------
  // Whitespace, line and position

  /** The whitespace loop of `getToken` skips exactly the maximal run of
      whitespace at the cursor; every newline in it adds one to the line and
      resets the position to 1, every other whitespace character adds one to
      the position. */
  predicate SkipsRun(s: State, r: State)
    requires r.text == s.text && s.cursor <= r.cursor
  {
    var ws := s.text[s.cursor..r.cursor];
    (forall i | s.cursor <= i < r.cursor :: IsSpace(s.text[i]))
    && (r.cursor < |s.text| ==> !IsSpace(s.text[r.cursor]))
    && r.line == s.line + Newlines(ws)
    && r.pos == (if Newlines(ws) == 0 then s.pos + |ws| else 1 + SinceNewline(ws))
  }

  lemma {:induction false} SkipWhitespaceSpec(s: State)
    ensures SkipsRun(s, SkipWhitespace(s))
    decreases |s.text| - s.cursor
  {
    if s.cursor < |s.text| && IsSpace(s.text[s.cursor]) {
      var c := s.text[s.cursor];
      var s': State := if c == '\n' then LexerState(s.text, s.cursor + 1, s.line + 1, 1)
                       else LexerState(s.text, s.cursor + 1, s.line, s.pos + 1);
      SkipWhitespaceSpec(s');
      WhitespaceStep(s, s', SkipWhitespace(s'));
    }
  }

  /** One whitespace character in front of a run that is skipped. */
  lemma WhitespaceStep(s: State, s': State, r: State)
    requires s.cursor < |s.text| && IsSpace(s.text[s.cursor])
    requires s' == if s.text[s.cursor] == '\n' then LexerState(s.text, s.cursor + 1, s.line + 1, 1)
                   else LexerState(s.text, s.cursor + 1, s.line, s.pos + 1)
    requires r.text == s.text && s'.cursor <= r.cursor
    requires SkipsRun(s', r)
    ensures SkipsRun(s, r)
  {
    var c := s.text[s.cursor];
    var ws' := s.text[s'.cursor..r.cursor];
    SliceCons(s.text, s.cursor, r.cursor);
    assert ([c] + ws')[1..] == ws';
    SinceNewlineCons(c, ws');
  }

  /** Where the whitespace loop stops when the run ends at `j`. */
  function SkipTarget(s: State, j: nat): State
    requires s.cursor <= j <= |s.text|
  {
    var ws := s.text[s.cursor..j];
    LexerState(s.text, j, s.line + Newlines(ws),
               if Newlines(ws) == 0 then s.pos + |ws| else 1 + SinceNewline(ws))
  }

  lemma SkipsTo(s: State, j: nat)
    requires s.cursor <= j < |s.text| && !IsSpace(s.text[j])
    requires forall i | s.cursor <= i < j :: IsSpace(s.text[i])
    ensures SkipWhitespace(s) == SkipTarget(s, j)
  {
    SkipWhitespaceSpec(s);
  }

  /** When only whitespace is left, `getToken` consumes it and returns the
      default `NONE` token with empty text; at the very end it consumes
      nothing. */
  lemma EndOfInput(s: State)
    requires forall i | s.cursor <= i < |s.text| :: IsSpace(s.text[i])
    ensures NextToken(s) == Lexed(Ok(Token(NONE, "", 1, 1)), SkipWhitespace(s))
    ensures SkipWhitespace(s).cursor == |s.text|
    ensures s.cursor == |s.text| ==> NextToken(s).after == s
  {
    SkipWhitespaceSpec(s);
  }

  /** The token type of a structural character, if it is one. */
  function Structural(c: char): Option<TokenType> {
    match c
    case '{' => Some(LBRACE)
    case '}' => Some(RBRACE)
    case ':' => Some(COLON)
    case ',' => Some(COMMA)
    case '[' => Some(LBRACKET)
    case ']' => Some(RBRACKET)
    case _ => None
  }

  /** A structural character after a run of whitespace gives its own token
      type with that one character as text, tagged with the line and position
      the whitespace led to; the cursor ends just past it. */
  lemma StructuralToken(s: State, j: nat)
    requires s.cursor <= j < |s.text| && Structural(s.text[j]).Some?
    requires forall i | s.cursor <= i < j :: IsSpace(s.text[i])
    ensures var ws := s.text[s.cursor..j];
      var line := s.line + Newlines(ws);
      var pos := if Newlines(ws) == 0 then s.pos + |ws| else 1 + SinceNewline(ws);
      NextToken(s) == Lexed(Ok(Token(Structural(s.text[j]).value, [s.text[j]], line, pos)),
                            LexerState(s.text, j + 1, line, pos))
  {
    SkipsTo(s, j);
  }

  /** Any character that cannot start a token raises an error. */
  lemma InvalidCharacter(s: State, j: nat)
    requires s.cursor <= j < |s.text|
    requires forall i | s.cursor <= i < j :: IsSpace(s.text[i])
    requires var c := s.text[j];
      !IsSpace(c) && Structural(c).None? && c != '"' && c != 't' && c != 'f' && c != 'n'
      && c != '+' && c != '-' && !IsDigit(c)
    ensures NextToken(s).result == Err(InvalidToken(s.text[j]))
    ensures NextToken(s).after.cursor == j + 1
  {
    SkipsTo(s, j);
  }

  // ---------------------------------------------------------------------
  // Strings

  /** `lexString` returns the characters up to the next `"` verbatim (no
      escape is translated) and leaves the cursor just past that quote; it
      fails when no quote is left. */
  lemma {:induction false} ScanStringSpec(str: string, s: State)
    ensures ScansString(str, s, ScanString(str, s))
    decreases |s.text| - s.cursor
  {
    if s.cursor == |s.text| {
      assert s.text[s.cursor..] == [];
    } else if s.text[s.cursor] == '"' {
      assert s.text[s.cursor..s.cursor] == [];
      assert str + [] == str;
    } else {
      var c := s.text[s.cursor];
      ScanStringSpec(str + [c], Consume(s));
      StringStep(str, s, ScanString(str + [c], Consume(s)));
    }
  }

  predicate ScansString(str: string, s: State, r: Lexed<Token>)
    requires Continues(s, r.after)
  {
    ('"' in s.text[s.cursor..] <==> r.result.Ok?)
    && (r.result.Ok? ==>
          var j := r.after.cursor - 1;
          s.cursor <= j && s.text[j] == '"' && '"' !in s.text[s.cursor..j]
          && r.result.value == Token(STRING, str + s.text[s.cursor..j], s.line, s.pos))
    && (r.result.Err? ==> r.result.error == UnterminatedString && r.after.cursor == |s.text|)
  }

  /** One ordinary character in front of the rest of a string. */
  lemma StringStep(str: string, s: State, r: Lexed<Token>)
    requires s.cursor < |s.text| && s.text[s.cursor] != '"'
    requires Continues(Consume(s), r.after)
    requires ScansString(str + [s.text[s.cursor]], Consume(s), r)
    ensures Continues(s, r.after)
    ensures ScansString(str, s, r)
  {
    var c := s.text[s.cursor];
    var t := Consume(s);
    assert s.text[s.cursor..] == [c] + s.text[t.cursor..];
    if r.result.Ok? {
      var j := r.after.cursor - 1;
      SliceCons(s.text, s.cursor, j);
      assert str + [c] + s.text[t.cursor..j] == str + s.text[s.cursor..j];
    }
  }

  /** `lexString` stops at the first `"`, at `e`. */
  lemma {:induction false} ScanStringTo(str: string, s: State, e: nat)
    requires s.cursor <= e < |s.text| && s.text[e] == '"'
    requires forall i | s.cursor <= i < e :: s.text[i] != '"'
    ensures ScanString(str, s) ==
      Lexed(Ok(Token(STRING, str + s.text[s.cursor..e], s.line, s.pos)), LexerState(s.text, e + 1, s.line, s.pos))
    decreases e - s.cursor
  {
    if s.cursor == e {
      assert str + s.text[s.cursor..e] == str;
    } else {
      var c := s.text[s.cursor];
      var t := Consume(s);
      ScanStringTo(str + [c], t, e);
      assert s.text[s.cursor..e] == [c] + s.text[t.cursor..e];
      assert str + [c] + s.text[t.cursor..e] == str + s.text[s.cursor..e];
    }
  }

  /** The string token `getToken` returns for a `"` after whitespace. */
  lemma StringToken(s: State, j: nat)
    requires s.cursor <= j < |s.text| && s.text[j] == '"'
    requires forall i | s.cursor <= i < j :: IsSpace(s.text[i])
    ensures var r := NextToken(s);
      ('"' in s.text[j + 1..] <==> r.result.Ok?)
      && (r.result.Ok? ==>
            var e := r.after.cursor - 1;
            j < e && s.text[e] == '"' && '"' !in s.text[j + 1..e]
            && r.result.value.kind == STRING && r.result.value.value == s.text[j + 1..e])
  {
    SkipsTo(s, j);
    var n := Consume(SkipTarget(s, j));
    assert NextToken(s) == ScanString([], n);
    ScanStringSpec([], n);
  }

  // ---------------------------------------------------------------------
  // Literal words

  /** `lexValueSequence`: the characters read must match `expected` one by
      one; the result is the part of `expected` that matched, which is the
      whole word unless the input ran out first. */
  lemma {:induction false} ScanSequenceSpec(expected: string, i: nat, value: string, s: State)
    requires i <= |expected|
    ensures var r := ScanSequence(expected, i, value, s);
      var n := Min(|expected| - i, |s.text| - s.cursor);
      (r.result.Ok? <==> s.text[s.cursor..s.cursor + n] == expected[i..i + n])
      && (r.result.Ok? ==> r.result.value == value + expected[i..i + n] && r.after.cursor == s.cursor + n)
      && (r.result.Err? ==>
            var k := r.after.cursor - 1 - s.cursor;
            0 <= k < n && s.text[s.cursor..s.cursor + k] == expected[i..i + k]
            && s.text[s.cursor + k] != expected[i + k]
            && r.result.error == ValueSequenceMismatch(expected, s.text[s.cursor + k]))
  {
    ScanSequenceOk(expected, i, value, s);
    ScanSequenceErr(expected, i, value, s);
  }

  /** How many characters a value sequence compares: the rest of the word,
      or the rest of the text if that is shorter. */
  function Compared(expected: string, i: nat, s: State): nat
    requires i <= |expected|
  {
    Min(|expected| - i, |s.text| - s.cursor)
  }

  /** What a value sequence that succeeds consumed and returned. */
  predicate SequenceOk(expected: string, i: nat, value: string, s: State, r: Lexed<string>)
    requires i <= |expected|
  {
    var n := Compared(expected, i, s);
    (r.result.Ok? <==> s.text[s.cursor..s.cursor + n] == expected[i..i + n])
    && (r.result.Ok? ==> r.result.value == value + expected[i..i + n] && r.after.cursor == s.cursor + n)
  }

  lemma {:induction false} ScanSequenceOk(expected: string, i: nat, value: string, s: State)
    requires i <= |expected|
    ensures SequenceOk(expected, i, value, s, ScanSequence(expected, i, value, s))
    decreases |s.text| - s.cursor
  {
    var r := ScanSequence(expected, i, value, s);
    var n := Compared(expected, i, s);
    if i < |expected| && s.cursor < |s.text| {
      var c := s.text[s.cursor];
      if c != expected[i] {
        assert r.result.Err?;
        assert s.text[s.cursor..s.cursor + n][0] != expected[i..i + n][0];
      } else {
        ScanSequenceOk(expected, i + 1, value + [c], Consume(s));
        SequenceOkStep(expected, i, value, s, ScanSequence(expected, i + 1, value + [c], Consume(s)));
      }
    } else {
      assert n == 0 && r == Lexed(Ok(value), s);
      assert value + [] == value;
    }
  }

  /** One matching character in front of the rest of a value sequence. */
  lemma SequenceOkStep(expected: string, i: nat, value: string, s: State, r: Lexed<string>)
    requires i < |expected| && s.cursor < |s.text| && s.text[s.cursor] == expected[i]
    requires SequenceOk(expected, i + 1, value + [s.text[s.cursor]], Consume(s), r)
    ensures SequenceOk(expected, i, value, s, r)
  {
    MatchStep(expected, i, value, s);
  }

  /** The comparisons of a value sequence from `s` are those from the next
      character on, once the first character matched. */
  lemma MatchStep(expected: string, i: nat, value: string, s: State)
    requires i < |expected| && s.cursor < |s.text| && s.text[s.cursor] == expected[i]
    ensures var t := Consume(s);
      var n := Compared(expected, i, s);
      var n' := Compared(expected, i + 1, t);
      n' == n - 1 && t.cursor + n' == s.cursor + n && i + 1 + n' == i + n
      && (t.text[t.cursor..t.cursor + n'] == expected[i + 1..i + 1 + n'] <==>
          s.text[s.cursor..s.cursor + n] == expected[i..i + n])
      && value + [s.text[s.cursor]] + expected[i + 1..i + 1 + n'] == value + expected[i..i + n]
  {
    var c := s.text[s.cursor];
    var n := Compared(expected, i, s);
    SliceCons(s.text, s.cursor, s.cursor + n);
    SliceCons(expected, i, i + n);
    ConsEq(c, s.text[s.cursor + 1..s.cursor + n], expected[i + 1..i + n]);
    assert value + [c] + expected[i + 1..i + n] == value + ([c] + expected[i + 1..i + n]);
  }

  lemma ConsEq(c: char, a: string, b: string)
    ensures [c] + a == [c] + b <==> a == b
  {
    if [c] + a == [c] + b {
      assert a == ([c] + a)[1..];
    }
  }

  /** Where and why a value sequence that fails stopped. */
  predicate SequenceErr(expected: string, i: nat, s: State, r: Lexed<string>)
    requires i <= |expected|
  {
    r.result.Err? ==>
      var k := r.after.cursor - 1 - s.cursor;
      0 <= k && s.cursor + k < |s.text| && i + k < |expected|
      && s.text[s.cursor..s.cursor + k] == expected[i..i + k]
      && s.text[s.cursor + k] != expected[i + k]
      && r.result.error == ValueSequenceMismatch(expected, s.text[s.cursor + k])
  }

  lemma {:induction false} ScanSequenceErr(expected: string, i: nat, value: string, s: State)
    requires i <= |expected|
    ensures SequenceErr(expected, i, s, ScanSequence(expected, i, value, s))
    decreases |s.text| - s.cursor
  {
    var r := ScanSequence(expected, i, value, s);
    if i < |expected| && s.cursor < |s.text| {
      var c := s.text[s.cursor];
      if c != expected[i] {
        assert r == Lexed(Err(ValueSequenceMismatch(expected, c)), Consume(s));
        assert s.text[s.cursor..s.cursor] == [] && expected[i..i] == [];
      } else {
        ScanSequenceErr(expected, i + 1, value + [c], Consume(s));
        SequenceErrStep(expected, i, s, ScanSequence(expected, i + 1, value + [c], Consume(s)));
      }
    }
  }

  /** One matching character in front of a value sequence that fails. */
  lemma SequenceErrStep(expected: string, i: nat, s: State, r: Lexed<string>)
    requires i < |expected| && s.cursor < |s.text| && s.text[s.cursor] == expected[i]
    requires Continues(Consume(s), r.after)
    requires SequenceErr(expected, i + 1, Consume(s), r)
    ensures SequenceErr(expected, i, s, r)
  {
    if r.result.Err? {
      var k := r.after.cursor - 1 - s.cursor;
      SliceCons(s.text, s.cursor, s.cursor + k);
      SliceCons(expected, i, i + k);
    }
  }

  /** `lexValueSequence(initialChar, expected)` for a non-empty word. */
  lemma ValueSequenceSpec(initialChar: char, expected: string, s: State)
    requires |expected| > 0
    ensures var r := ValueSequence(initialChar, expected, s);
      var n := Compared(expected, 1, s);
      (r.result.Ok? <==> s.text[s.cursor..s.cursor + n] == expected[1..1 + n])
      && (r.result.Ok? ==> r.result.value == [initialChar] + expected[1..1 + n] && r.after.cursor == s.cursor + n)
      && (r.result.Ok? && s.cursor + |expected| - 1 <= |s.text| && initialChar == expected[0] ==>
            r.result.value == expected)
      && (r.result.Err? ==>
            var k := r.after.cursor - 1 - s.cursor;
            0 <= k < n && r.result.error == ValueSequenceMismatch(expected, s.text[s.cursor + k]))
  {
    assert expected == [expected[0]] + expected[1..];
    ScanSequenceOk(expected, 1, [initialChar], s);
    ScanSequenceErr(expected, 1, [initialChar], s);
  }

  /** The text of a `true`/`false` scan started on the character at `w`'s
      cursor is a prefix of the word, and is "true" exactly when the input
      spells out `true`. */
  lemma WordPrefix(word: string, w: State)
    requires word == "true" || word == "false"
    requires w.cursor < |w.text| && w.text[w.cursor] == word[0]
    ensures var v := ValueSequence(word[0], word, Consume(w));
      v.result.Ok? ==>
        v.result.value <= word
        && (v.result.value == "true" <==>
              w.cursor + 4 <= |w.text| && w.text[w.cursor..w.cursor + 4] == "true")
  {
    var c := word[0];
    var n := Consume(w);
    ValueSequenceSpec(c, word, n);
    var v := ValueSequence(c, word, n);
    if v.result.Ok? {
      var m := Compared(word, 1, n);
      var text := v.result.value;
      assert text == [c] + word[1..1 + m];
      assert word == [c] + word[1..];
      assert text <= word;
      if word == "false" {
        assert text[0] == 'f';
        if w.cursor + 4 <= |w.text| {
          assert w.text[w.cursor..w.cursor + 4][0] == 'f';
        }
      } else {
        assert "true" == ['t'] + "rue";
        if text == "true" {
          assert m == 3;
          SliceCons(w.text, w.cursor, w.cursor + 4);
        }
        if w.cursor + 4 <= |w.text| && w.text[w.cursor..w.cursor + 4] == "true" {
          assert m == 3;
          SliceCons(w.text, w.cursor, w.cursor + 4);
          assert n.text[n.cursor..n.cursor + 3] == "rue";
        }
      }
    }
  }

  /** A `t` or `f` yields a `JBOOL` token whose text is a prefix of the word;
      the parser reads it as true exactly when that text is "true", which
      happens exactly when the input spells out "true". */
  lemma BoolToken(s: State, j: nat)
    requires s.cursor <= j < |s.text| && (s.text[j] == 't' || s.text[j] == 'f')
    requires forall i | s.cursor <= i < j :: IsSpace(s.text[i])
    ensures var r := NextToken(s);
      r.result.Ok? ==>
        r.result.value.kind == JBOOL
        && (r.result.value.value <= "true" || r.result.value.value <= "false")
        && (r.result.value.value == "true" <==> j + 4 <= |s.text| && s.text[j..j + 4] == "true")
  {
    SkipsTo(s, j);
    var w := SkipTarget(s, j);
    var word := if s.text[j] == 't' then "true" else "false";
    WordPrefix(word, w);
    assert NextToken(s) == WordToken(JBOOL, ValueSequence(word[0], word, Consume(w)));
  }

  // ---------------------------------------------------------------------
  // Numbers

  /** A number scan stops at the first whitespace character, which it
      consumes, or at the end of the text; no whitespace is ever consumed
      before that, and whitespace never causes a rejection. */
  lemma {:induction false} NumberStopsAtWhitespace(state: NumberState, value: string, s: State)
    requires state != END
    ensures var r := ScanNumber(state, value, s);
      (r.result.Ok? ==>
         (forall k | s.cursor <= k < r.after.cursor - 1 :: !IsSpace(s.text[k]))
         && (r.after.cursor < |s.text| ==> s.cursor < r.after.cursor && IsSpace(s.text[r.after.cursor - 1])))
      && (r.result.Err? ==>
            s.cursor < r.after.cursor && forall k | s.cursor <= k < r.after.cursor :: !IsSpace(s.text[k]))
    decreases |s.text| - s.cursor
  {
    if s.cursor < |s.text| {
      var c := s.text[s.cursor];
      match Transition(state, c)
      case Reject =>
      case Step(next, keep) =>
        if next != END {
          NumberStopsAtWhitespace(next, if keep then value + [c] else value, Consume(s));
        }
    }
  }

  /** One step of the number scan on a character that does not end it. */
  lemma NumberScanStep(state: NumberState, value: string, s: State)
    requires state != END && s.cursor < |s.text|
    requires !IsSpace(s.text[s.cursor]) && Transition(state, s.text[s.cursor]).Step?
    ensures var c := s.text[s.cursor];
      Transition(state, c).next != END
      && Transition(state, c).keep == (state != SIGN || IsDigit(c))
      && ScanNumber(state, value, s) ==
         ScanNumber(Transition(state, c).next, if Transition(state, c).keep then value + [c] else value, Consume(s))
  {
  }

  /** Where a number literal ends in the text when its scan went from `from`
      to `to`: just before the terminating whitespace, if there was one. */
  function LiteralEnd(text: string, from: nat, to: nat): (e: nat)
    requires from <= to <= |text|
    ensures from <= e <= to
  {
    if to > from && IsSpace(text[to - 1]) then to - 1 else to
  }

  /** Outside the `SIGN` state every consumed character except the
      terminating whitespace joins the literal, verbatim. */
  lemma {:induction false} NumberKeepsText(state: NumberState, value: string, s: State)
    requires state != SIGN
    ensures KeepsText(value, s, ScanNumber(state, value, s))
    decreases |s.text| - s.cursor
  {
    var r := ScanNumber(state, value, s);
    if s.cursor < |s.text| && state != END {
      var c := s.text[s.cursor];
      if IsSpace(c) {
        assert Transition(state, c) == Step(END, false);
        assert r == ScanNumber(END, value, Consume(s));
        assert s.text[s.cursor..s.cursor] == [];
        assert value + [] == value;
      } else if Transition(state, c).Step? {
        var next := Transition(state, c).next;
        NumberScanStep(state, value, s);
        NumberKeepsText(next, value + [c], Consume(s));
        KeepTextStep(value, s, r);
      }
    } else {
      assert r.after == s;
      assert s.text[s.cursor..s.cursor] == [];
      assert value + [] == value;
    }
  }

  /** A successful number scan from `s` kept `value` and then the text
      up to the literal's end. */
  predicate KeepsText(value: string, s: State, r: Lexed<Token>)
    requires r.after.text == s.text && s.cursor <= r.after.cursor
  {
    r.result.Ok? ==>
      r.result.value.value == value + s.text[s.cursor..LiteralEnd(s.text, s.cursor, r.after.cursor)]
  }

  /** One kept character in front of the rest of a literal. */
  lemma KeepTextStep(value: string, s: State, r: Lexed<Token>)
    requires s.cursor < |s.text| && !IsSpace(s.text[s.cursor])
    requires r.after.text == s.text && s.cursor < r.after.cursor
    requires KeepsText(value + [s.text[s.cursor]], Consume(s), r)
    ensures KeepsText(value, s, r)
  {
    if r.result.Ok? {
      var c := s.text[s.cursor];
      var t := Consume(s);
      var e := LiteralEnd(s.text, t.cursor, r.after.cursor);
      assert e == LiteralEnd(s.text, s.cursor, r.after.cursor);
      SliceCons(s.text, s.cursor, e);
      assert value + [c] + s.text[t.cursor..e] == value + s.text[s.cursor..e];
    }
  }

  /** A number that starts with a digit is the consumed text verbatim, up to
      and excluding the terminating whitespace. */
  lemma DigitNumberText(initialChar: char, s: State)
    requires IsDigit(initialChar)
    ensures var r := LexNumberSpec(initialChar, s);
      r.result.Ok? ==>
        r.result.value.value == [initialChar] + s.text[s.cursor..LiteralEnd(s.text, s.cursor, r.after.cursor)]
  {
    NumberKeepsText(DIGIT, [initialChar], s);
  }

  /** The characters on which `state` leads back to itself. */
  predicate Stays(state: NumberState, c: char) {
    Transition(state, c).Step? && Transition(state, c).next == state
  }

  /** A run of characters on which the machine stays in one state: in `SIGN`
      they are dropped, in every other state they join the literal. */
  lemma {:induction false} StayingRun(state: NumberState, value: string, s: State, k: nat)
    requires state != END && s.cursor + k <= |s.text|
    requires forall i | s.cursor <= i < s.cursor + k :: Stays(state, s.text[i])
    ensures ScanNumber(state, value, s) ==
      ScanNumber(state, value + (if state == SIGN then [] else s.text[s.cursor..s.cursor + k]),
                 LexerState(s.text, s.cursor + k, s.line, s.pos))
    decreases k
  {
    if k == 0 {
      assert s.text[s.cursor..s.cursor] == [];
      assert value + [] == value;
      assert LexerState(s.text, s.cursor + k, s.line, s.pos) == s;
    } else {
      var c := s.text[s.cursor];
      var t := Consume(s);
      var kept := if state == SIGN then [] else [c];
      var rest := if state == SIGN then [] else s.text[t.cursor..t.cursor + (k - 1)];
      var all := if state == SIGN then [] else s.text[s.cursor..s.cursor + k];
      assert value + kept + rest == value + all by {
        if state != SIGN {
          SliceCons(s.text, s.cursor, s.cursor + k);
        }
      }
      StayStep(state, value, s);
      StayingRun(state, value + kept, t, k - 1);
    }
  }

  /** One character on which the state stays. */
  lemma StayStep(state: NumberState, value: string, s: State)
    requires state != END && s.cursor < |s.text| && Stays(state, s.text[s.cursor])
    ensures ScanNumber(state, value, s) ==
      ScanNumber(state, value + (if state == SIGN then [] else [s.text[s.cursor]]), Consume(s))
  {
    if state == SIGN {
      assert value + [] == value;
    }
  }


  /** Digits keep every digit-accepting state where it is. */
  lemma DigitsStay(state: NumberState, text: string, lo: nat, hi: nat)
    requires state == DIGIT || state == DECIMAL || state == EXPONENT_DIGIT
    requires hi <= |text|
    requires forall i | lo <= i < hi :: IsDigit(text[i])
    ensures forall i | lo <= i < hi :: Stays(state, text[i])
  {
  }

  /** After a run on which it stays, a character the state does not accept
      makes the scan fail, naming the state and the character. */
  lemma RunThenReject(state: NumberState, value: string, s: State, k: nat)
    requires state != END && s.cursor + k < |s.text|
    requires forall i | s.cursor <= i < s.cursor + k :: Stays(state, s.text[i])
    requires Transition(state, s.text[s.cursor + k]).Reject?
    ensures ScanNumber(state, value, s) ==
      Lexed(Err(NumberMismatch(state, s.text[s.cursor + k])),
            LexerState(s.text, s.cursor + k + 1, s.line, s.pos))
  {
    StayingRun(state, value, s, k);
  }

  /** A number directly followed by anything but a digit, a `.` or
      whitespace fails in the `DIGIT` state: `1,`, `1}`, `1]` and `1e5` are
      all rejected. */
  lemma DigitsThenDelimiter(s: State, j: nat, k: nat)
    requires s.cursor <= j && j + k < |s.text| && k > 0
    requires forall i | s.cursor <= i < j :: IsSpace(s.text[i])
    requires forall i | j <= i < j + k :: IsDigit(s.text[i])
    requires var c := s.text[j + k]; !IsDigit(c) && c != '.' && !IsSpace(c)
    ensures NextToken(s).result == Err(NumberMismatch(DIGIT, s.text[j + k]))
  {
    SkipsTo(s, j);
    RunThenReject(DIGIT, [s.text[j]], Consume(SkipTarget(s, j)), k - 1);
  }

  /** Digits and then a `.` take `DIGIT` to `DECIMAL`, keeping all of them. */
  lemma DigitsThenPoint(value: string, s: State, k: nat)
    requires s.cursor + k < |s.text| && s.text[s.cursor + k] == '.'
    requires forall i | s.cursor <= i < s.cursor + k :: IsDigit(s.text[i])
    ensures ScanNumber(DIGIT, value, s) ==
      ScanNumber(DECIMAL, value + s.text[s.cursor..s.cursor + k] + ['.'],
                 LexerState(s.text, s.cursor + k + 1, s.line, s.pos))
  {
    StayingRun(DIGIT, value, s, k);
    var p := LexerState(s.text, s.cursor + k, s.line, s.pos);
    NumberScanStep(DIGIT, value + s.text[s.cursor..s.cursor + k], p);
  }

  /** A second decimal point fails in the `DECIMAL` state (`12345.67.0`). */
  lemma SecondDecimalPoint(s: State, k: nat, m: nat)
    requires s.cursor + k + m + 1 < |s.text|
    requires forall i | s.cursor <= i < s.cursor + k :: IsDigit(s.text[i])
    requires s.text[s.cursor + k] == '.'
    requires forall i | s.cursor + k + 1 <= i < s.cursor + k + 1 + m :: IsDigit(s.text[i])
    requires s.text[s.cursor + k + 1 + m] == '.'
    ensures ScanNumber(DIGIT, [], s).result == Err(NumberMismatch(DECIMAL, '.'))
  {
    DigitsThenPoint([], s, k);
    FractionThenPoint([] + s.text[s.cursor..s.cursor + k] + ['.'], s, k, m);
  }

  /** In `DECIMAL`, digits from `s.cursor + k + 1` and then a `.` fail on
      that `.`. */
  lemma FractionThenPoint(value: string, s: State, k: nat, m: nat)
    requires s.cursor + k + m + 1 < |s.text|
    requires forall i | s.cursor + k + 1 <= i < s.cursor + k + 1 + m :: IsDigit(s.text[i])
    requires s.text[s.cursor + k + 1 + m] == '.'
    ensures ScanNumber(DECIMAL, value, LexerState(s.text, s.cursor + k + 1, s.line, s.pos)).result ==
      Err(NumberMismatch(DECIMAL, '.'))
  {
    var d := LexerState(s.text, s.cursor + k + 1, s.line, s.pos);
    DigitsStay(DECIMAL, d.text, d.cursor, d.cursor + m);
    RunThenReject(DECIMAL, value, d, m);
  }

  /** `EXPONENT` keeps any run of signs before its first digit (`1.5e+-+2`). */
  lemma ExponentSigns(value: string, s: State, k: nat)
    requires s.cursor + k <= |s.text|
    requires forall i | s.cursor <= i < s.cursor + k :: s.text[i] == '+' || s.text[i] == '-'
    ensures ScanNumber(EXPONENT, value, s) ==
      ScanNumber(EXPONENT, value + s.text[s.cursor..s.cursor + k],
                 LexerState(s.text, s.cursor + k, s.line, s.pos))
  {
    StayingRun(EXPONENT, value, s, k);
  }

  /** `EXPONENT_DIGIT` takes digits only: after a run of them, anything but
      a digit or whitespace fails (`1.5e2.0`, `1.5e2-`). */
  lemma ExponentDigitsOnly(value: string, s: State, k: nat)
    requires s.cursor + k < |s.text|
    requires forall i | s.cursor <= i < s.cursor + k :: IsDigit(s.text[i])
    requires var c := s.text[s.cursor + k]; !IsDigit(c) && !IsSpace(c)
    ensures ScanNumber(EXPONENT_DIGIT, value, s).result ==
      Err(NumberMismatch(EXPONENT_DIGIT, s.text[s.cursor + k]))
  {
    DigitsStay(EXPONENT_DIGIT, s.text, s.cursor, s.cursor + k);
    RunThenReject(EXPONENT_DIGIT, value, s, k);
  }

  /** After a sign, characters that are neither digits nor whitespace are
      consumed but dropped; the first digit then joins the sign. */
  lemma SignDropsNonDigits(sign: char, s: State, k: nat)
    requires sign == '+' || sign == '-'
    requires s.cursor + k < |s.text| && IsDigit(s.text[s.cursor + k])
    requires forall i | s.cursor <= i < s.cursor + k :: !IsDigit(s.text[i]) && !IsSpace(s.text[i])
    ensures LexNumberSpec(sign, s) ==
      ScanNumber(DIGIT, [sign, s.text[s.cursor + k]], LexerState(s.text, s.cursor + k + 1, s.line, s.pos))
  {
    assert forall i | s.cursor <= i < s.cursor + k :: Stays(SIGN, s.text[i]);
    StayingRun(SIGN, [sign], s, k);
    var p := LexerState(s.text, s.cursor + k, s.line, s.pos);
    assert [sign] + [] == [sign];
    var c := s.text[s.cursor + k];
    assert p.text[p.cursor] == c && !IsSpace(c) && Transition(SIGN, c) == Step(DIGIT, true);
    NumberScanStep(SIGN, [sign], p);
    assert [sign] + [c] == [sign, c];
  }

  /** The whitespace that ends a number is consumed by the number scan, not
      by the whitespace loop, so a newline there is not counted: after `1`
      and a newline the `}` is still reported on line 1. */
  lemma NewlineAfterNumberNotCounted()
    ensures var first := NextToken(Start("1\n}"));
      first == Lexed(Ok(Token(NUMBER, "1", 1, 1)), LexerState("1\n}", 2, 1, 1))
      && NextToken(first.after) == Lexed(Ok(Token(RBRACE, "}", 1, 1)), LexerState("1\n}", 3, 1, 1))
  {
    NumberThenNewline();
    StructuralToken(LexerState("1\n}", 2, 1, 1), 2);
  }

  /** The number `1` ends at the newline after it, which it consumes. */
  lemma NumberThenNewline()
    ensures NextToken(Start("1\n}")) == Lexed(Ok(Token(NUMBER, "1", 1, 1)), LexerState("1\n}", 2, 1, 1))
  {
    var a := Start("1\n}");
    SkipsTo(a, 0);
    assert ScanNumber(DIGIT, "1", Consume(a)) == Lexed(Ok(Token(NUMBER, "1", 1, 1)), LexerState("1\n}", 2, 1, 1));
  }

  /** A newline skipped between two tokens is counted: the `]` after `[`
      and a newline is on line 2, position 1. */
  lemma NewlineBetweenTokensCounted()
    ensures var first := NextToken(Start("[\n]"));
      first == Lexed(Ok(Token(LBRACKET, "[", 1, 1)), LexerState("[\n]", 1, 1, 1))
      && NextToken(first.after) == Lexed(Ok(Token(RBRACKET, "]", 2, 1)), LexerState("[\n]", 3, 2, 1))
  {
    StructuralToken(Start("[\n]"), 0);
    var b := LexerState("[\n]", 1, 1, 1);
    assert b.text[b.cursor..2] == "\n";
    StructuralToken(b, 2);
  }
}
