/** The jsonpp lexer (`json::detail::Lexer`, jsonpp.cpp:84-247).

    The pure functions below say what each scanning routine does to a
    snapshot of the lexer's fields; the `Lexer` class carries the mutable
    fields `_cursor`, `_line` and `_pos` and its methods are proved to move
    them exactly as those functions say. The lemmas at the end state the
    lexer's observable behaviour in terms of the input text. */
module JsonppLexer {
  import opened Results
  import opened CppStd

  datatype TokenType =
    LBRACE | RBRACE | COLON | STRING | COMMA | LBRACKET | RBRACKET | JBOOL | JNULL | NUMBER | NONE

  datatype Token = Token(kind: TokenType, value: string, line: int, pos: int)

  /** A default-constructed token: `Token(NONE, "", 1, 1)`. */
  const NoneToken := Token(NONE, "", 1, 1)

  datatype NumberState = SIGN | DIGIT | DECIMAL | EXPONENT | EXPONENT_DIGIT | END

  /** Every fault the lexer and the parser throw as `parse_exception`
      (message text left out), plus the `std::invalid_argument` that
      `std::stod` throws for a literal without digits. */
  datatype Error =
    | InvalidToken(c: char)
    | UnterminatedString
    | ValueSequenceMismatch(expected: string, found: char)
    | NumberMismatch(state: NumberState, found: char)
    | Expected(what: string, got: Token)
    | NotANumber(literal: string)

  /** The lexer's fields: the text, `_cursor`, `_line` and `_pos`. */
  datatype LexerState = LexerState(text: string, cursor: nat, line: int, pos: int)

  /** The cursor never passes the end of the text. */
  type State = s: LexerState | s.cursor <= |s.text| witness LexerState("", 0, 1, 1)

  /** The state `Lexer(text)` starts in. */
  function Start(text: string): State {
    LexerState(text, 0, 1, 1)
  }

  /** What a scanning routine returns (or throws) and the fields afterwards. */
  datatype Lexed<T> = Lexed(result: Result<T, Error>, after: State)

  /** `t` continues the scan of `s`: same text, cursor not moved back,
      line and position untouched. */
  predicate Continues(s: State, t: State) {
    t.text == s.text && s.cursor <= t.cursor && t.line == s.line && t.pos == s.pos
  }

  /** Reads one character: `_text[_cursor++]`. */
  function Consume(s: State): (t: State)
    requires s.cursor < |s.text|
  {
    LexerState(s.text, s.cursor + 1, s.line, s.pos)
  }

  // ---------------------------------------------------------------------
  // Specification of each scanning routine

  /** The whitespace loop at the head of `getToken`. */
  function SkipWhitespace(s: State): (r: State)
    ensures r.text == s.text && s.cursor <= r.cursor
    decreases |s.text| - s.cursor
  {
    if s.cursor < |s.text| && IsSpace(s.text[s.cursor]) then
      if s.text[s.cursor] == '\n' then
        SkipWhitespace(LexerState(s.text, s.cursor + 1, s.line + 1, 1))
      else
        SkipWhitespace(LexerState(s.text, s.cursor + 1, s.line, s.pos + 1))
    else
      s
  }

  /** The loop of `lexString`, with `str` accumulated so far. */
  function ScanString(str: string, s: State): (r: Lexed<Token>)
    ensures Continues(s, r.after)
    ensures r.result.Ok? ==>
      r.result.value.kind == STRING && r.after.cursor > s.cursor
      && r.result.value.line == s.line && r.result.value.pos == s.pos
    decreases |s.text| - s.cursor
  {
    if s.cursor == |s.text| then
      Lexed(Err(UnterminatedString), s)
    else if s.text[s.cursor] == '"' then
      Lexed(Ok(Token(STRING, str, s.line, s.pos)), Consume(s))
    else
      ScanString(str + [s.text[s.cursor]], Consume(s))
  }

  /** The loop of `lexValueSequence`, at index `i` of `expected`. */
  function ScanSequence(expected: string, i: nat, value: string, s: State): (r: Lexed<string>)
    ensures Continues(s, r.after)
    decreases |s.text| - s.cursor
  {
    if i < |expected| && s.cursor < |s.text| then
      var c := s.text[s.cursor];
      if c != expected[i] then
        Lexed(Err(ValueSequenceMismatch(expected, c)), Consume(s))
      else
        ScanSequence(expected, i + 1, value + [c], Consume(s))
    else
      Lexed(Ok(value), s)
  }

  /** `lexValueSequence(initialChar, expected)`. */
  function ValueSequence(initialChar: char, expected: string, s: State): (r: Lexed<string>)
    ensures Continues(s, r.after)
  {
    ScanSequence(expected, 1, [initialChar], s)
  }

  /** Wraps the text of a value sequence into a token of the given kind,
      as `lexBool` and `lexNull` do. */
  function WordToken(kind: TokenType, r: Lexed<string>): Lexed<Token> {
    match r.result
    case Ok(v) => Lexed(Ok(Token(kind, v, r.after.line, r.after.pos)), r.after)
    case Err(e) => Lexed(Err(e), r.after)
  }

  /** One step of the `lexNumber` state machine on character `c`: the state
      it moves to and whether `c` joins the literal, or a rejection. */
  datatype NumberStep = Step(next: NumberState, keep: bool) | Reject

  function Transition(state: NumberState, c: char): NumberStep {
    if IsSpace(c) then Step(END, false)
    else match state
      case SIGN =>
        if IsDigit(c) then Step(DIGIT, true) else Step(SIGN, false)
      case DIGIT =>
        if IsDigit(c) then Step(DIGIT, true)
        else if c == '.' then Step(DECIMAL, true)
        else Reject
      case DECIMAL =>
        if IsDigit(c) then Step(DECIMAL, true)
        else if c == 'e' || c == 'E' then Step(EXPONENT, true)
        else Reject
      case EXPONENT =>
        if c == '+' || c == '-' then Step(EXPONENT, true)
        else if IsDigit(c) then Step(EXPONENT_DIGIT, true)
        else Reject
      case EXPONENT_DIGIT =>
        if IsDigit(c) then Step(EXPONENT_DIGIT, true) else Reject
      case END => Step(END, false)
  }

  /** The loop of `lexNumber`, in `state` with `value` accumulated so far. */
  function ScanNumber(state: NumberState, value: string, s: State): (r: Lexed<Token>)
    ensures Continues(s, r.after)
    ensures r.result.Ok? ==>
      r.result.value.kind == NUMBER
      && r.result.value.line == s.line && r.result.value.pos == s.pos
    decreases |s.text| - s.cursor
  {
    if s.cursor == |s.text| || state == END then
      Lexed(Ok(Token(NUMBER, value, s.line, s.pos)), s)
    else
      var c := s.text[s.cursor];
      match Transition(state, c)
      case Reject => Lexed(Err(NumberMismatch(state, c)), Consume(s))
      case Step(next, keep) => ScanNumber(next, if keep then value + [c] else value, Consume(s))
  }

  /** The state `lexNumber` starts in. */
  function NumberStart(initialChar: char): NumberState {
    if initialChar == '+' || initialChar == '-' then SIGN else DIGIT
  }

  /** `lexNumber(initialChar)`. */
  function LexNumberSpec(initialChar: char, s: State): (r: Lexed<Token>)
    ensures Continues(s, r.after)
    ensures r.result.Ok? ==> r.result.value.kind == NUMBER
  {
    ScanNumber(NumberStart(initialChar), [initialChar], s)
  }

  /** `getToken()`. */
  function NextToken(s: State): (r: Lexed<Token>)
    ensures var w := SkipWhitespace(s);
      r.after.text == s.text && w.cursor <= r.after.cursor
      && r.after.line == w.line && r.after.pos == w.pos
    ensures r.result.Ok? && r.result.value.kind != NONE ==>
      r.after.cursor > s.cursor
      && r.result.value.line == SkipWhitespace(s).line && r.result.value.pos == SkipWhitespace(s).pos
    ensures r.result.Ok? && r.result.value.kind == NONE ==>
      r.result.value == NoneToken && r.after == SkipWhitespace(s) && r.after.cursor == |s.text|
  {
    var w := SkipWhitespace(s);
    if w.cursor == |w.text| then
      Lexed(Ok(NoneToken), w)
    else
      var c := w.text[w.cursor];
      var n := Consume(w);
      if c == '{' then Lexed(Ok(Token(LBRACE, "{", n.line, n.pos)), n)
      else if c == '}' then Lexed(Ok(Token(RBRACE, "}", n.line, n.pos)), n)
      else if c == '"' then ScanString([], n)
      else if c == ':' then Lexed(Ok(Token(COLON, ":", n.line, n.pos)), n)
      else if c == ',' then Lexed(Ok(Token(COMMA, ",", n.line, n.pos)), n)
      else if c == '[' then Lexed(Ok(Token(LBRACKET, "[", n.line, n.pos)), n)
      else if c == ']' then Lexed(Ok(Token(RBRACKET, "]", n.line, n.pos)), n)
      else if c == 't' then WordToken(JBOOL, ValueSequence(c, "true", n))
      else if c == 'f' then WordToken(JBOOL, ValueSequence(c, "false", n))
      else if c == 'n' then WordToken(JNULL, ValueSequence('n', "null", n))
      else if c == '-' || c == '+' || IsDigit(c) then LexNumberSpec(c, n)
      else Lexed(Err(InvalidToken(c)), n)
  }

  // ---------------------------------------------------------------------
  // The lexer object

  class Lexer {
    const text: string
    var cursor: nat
    var line: int
    var pos: int

    ghost predicate Valid()
      reads this
    {
      cursor <= |text|
    }

    /** The lexer's fields as a value. */
    function Snapshot(): State
      reads this
      requires Valid()
    {
      LexerState(text, cursor, line, pos)
    }

    constructor (text: string)
      ensures Valid() && Snapshot() == Start(text)
    {
      this.text := text;
      cursor, line, pos := 0, 1, 1;
    }

    /** The copy the parser takes (`Parser(Lexer lexer)` is by value). */
    constructor Copy(other: Lexer)
      requires other.Valid()
      ensures Valid() && Snapshot() == other.Snapshot()
    {
      text := other.text;
      cursor, line, pos := other.cursor, other.line, other.pos;
    }

    /** `std::string::operator[]`: the text, and '\0' at the end. */
    function CharAt(i: nat): (c: char)
      reads this
      ensures i < |text| ==> c == text[i]
      ensures i >= |text| ==> !IsSpace(c)
    {
      if i < |text| then text[i] else '\0'
    }

    predicate IsDoneReading()
      reads this
      requires Valid()
      ensures IsDoneReading() <==> cursor == |text|
    {
      cursor >= |text|
    }

    method LexNumber(initialChar: char) returns (r: Result<Token, Error>)
      requires Valid()
      modifies this
      ensures Valid() && Lexed(r, Snapshot()) == LexNumberSpec(initialChar, old(Snapshot()))
    {
      var state := if initialChar == '+' || initialChar == '-' then SIGN else DIGIT;
      var value := [initialChar];
      while !IsDoneReading() && state != END
        invariant Valid()
        invariant ScanNumber(state, value, Snapshot()) == LexNumberSpec(initialChar, old(Snapshot()))
        decreases |text| - cursor
      {
        var c := text[cursor];
        cursor := cursor + 1;
        if IsSpace(c) {
          state := END;
        }
        match state {
          case SIGN =>
            if IsDigit(c) {
              value := value + [c];
              state := DIGIT;
            }
          case DIGIT =>
            if IsDigit(c) {
              value := value + [c];
            } else if c == '.' {
              value := value + [c];
              state := DECIMAL;
            } else {
              return Err(NumberMismatch(DIGIT, c));
            }
          case DECIMAL =>
            if IsDigit(c) {
              value := value + [c];
            } else if c == 'e' || c == 'E' {
              value := value + [c];
              state := EXPONENT;
            } else {
              return Err(NumberMismatch(DECIMAL, c));
            }
          case EXPONENT =>
            if c == '+' || c == '-' {
              value := value + [c];
            } else if IsDigit(c) {
              value := value + [c];
              state := EXPONENT_DIGIT;
            } else {
              return Err(NumberMismatch(EXPONENT, c));
            }
          case EXPONENT_DIGIT =>
            if IsDigit(c) {
              value := value + [c];
            } else {
              return Err(NumberMismatch(EXPONENT_DIGIT, c));
            }
          case END =>
        }
      }
      return Ok(Token(NUMBER, value, line, pos));
    }

    method LexValueSequence(initialChar: char, expected: string) returns (r: Result<string, Error>)
      requires Valid()
      modifies this
      ensures Valid() && Lexed(r, Snapshot()) == ValueSequence(initialChar, expected, old(Snapshot()))
    {
      var value := [initialChar];
      var i: nat := 1;
      while i < |expected| && !IsDoneReading()
        invariant Valid()
        invariant ScanSequence(expected, i, value, Snapshot())
          == ValueSequence(initialChar, expected, old(Snapshot()))
        decreases |text| - cursor
      {
        var c := text[cursor];
        cursor := cursor + 1;
        if c != expected[i] {
          return Err(ValueSequenceMismatch(expected, c));
        }
        value := value + [c];
        i := i + 1;
      }
      return Ok(value);
    }

    method LexBool(initialChar: char, expected: string) returns (r: Result<Token, Error>)
      requires Valid()
      modifies this
      ensures Valid()
      ensures Lexed(r, Snapshot()) == WordToken(JBOOL, ValueSequence(initialChar, expected, old(Snapshot())))
    {
      var value := LexValueSequence(initialChar, expected);
      if value.Err? {
        return Err(value.error);
      }
      return Ok(Token(JBOOL, value.value, line, pos));
    }

    method LexNull() returns (r: Result<Token, Error>)
      requires Valid()
      modifies this
      ensures Valid()
      ensures Lexed(r, Snapshot()) == WordToken(JNULL, ValueSequence('n', "null", old(Snapshot())))
    {
      var value := LexValueSequence('n', "null");
      if value.Err? {
        return Err(value.error);
      }
      return Ok(Token(JNULL, value.value, line, pos));
    }

    method LexString() returns (r: Result<Token, Error>)
      requires Valid()
      modifies this
      ensures Valid() && Lexed(r, Snapshot()) == ScanString([], old(Snapshot()))
    {
      var str := [];
      var endQuoteFound := false;
      while !endQuoteFound && !IsDoneReading()
        invariant Valid()
        invariant !endQuoteFound ==> ScanString(str, Snapshot()) == ScanString([], old(Snapshot()))
        invariant endQuoteFound ==>
          ScanString([], old(Snapshot())) == Lexed(Ok(Token(STRING, str, line, pos)), Snapshot())
        decreases |text| - cursor
      {
        var c := text[cursor];
        cursor := cursor + 1;
        if c == '"' {
          endQuoteFound := true;
        } else {
          str := str + [c];
        }
      }
      if !endQuoteFound {
        return Err(UnterminatedString);
      }
      return Ok(Token(STRING, str, line, pos));
    }

    method GetToken() returns (r: Result<Token, Error>)
      requires Valid()
      modifies this
      ensures Valid() && Lexed(r, Snapshot()) == NextToken(old(Snapshot()))
    {
      // skip white space and account for lines and position in the line
      while IsSpace(CharAt(cursor)) && !IsDoneReading()
        invariant Valid()
        invariant SkipWhitespace(Snapshot()) == SkipWhitespace(old(Snapshot()))
        decreases |text| - cursor
      {
        if text[cursor] == '\n' {
          line := line + 1;
          pos := 1;
        } else {
          pos := pos + 1;
        }
        cursor := cursor + 1;
      }
      ghost var w := Snapshot();
      assert w == SkipWhitespace(old(Snapshot()));
      // the source's `while (!isDoneReading())` returns on its first iteration
      if !IsDoneReading() {
        var c := text[cursor];
        cursor := cursor + 1;
        if c == '{' {
          return Ok(Token(LBRACE, "{", line, pos));
        } else if c == '}' {
          return Ok(Token(RBRACE, "}", line, pos));
        } else if c == '"' {
          r := LexString();
          return;
        } else if c == ':' {
          return Ok(Token(COLON, ":", line, pos));
        } else if c == ',' {
          return Ok(Token(COMMA, ",", line, pos));
        } else if c == '[' {
          return Ok(Token(LBRACKET, "[", line, pos));
        } else if c == ']' {
          return Ok(Token(RBRACKET, "]", line, pos));
        } else if c == 't' {
          r := LexBool(c, "true");
          return;
        } else if c == 'f' {
          r := LexBool(c, "false");
          return;
        } else if c == 'n' {
          r := LexNull();
          return;
        } else if c == '-' || c == '+' || IsDigit(c) {
          r := LexNumber(c);
          return;
        } else {
          return Err(InvalidToken(c));
        }
      }
      return Ok(NoneToken);
    }
  }
}
