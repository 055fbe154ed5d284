/** Writing values out and reading them back with the jsonpp parser. The
    renderer emits the compact form the lexer expects: no whitespace, except
    the one space a number literal needs as its terminator (the lexer rejects
    a number directly followed by `,`, `]` or `}`). */
module JsonppRoundTrip {
  import opened Results
  import opened CppStd
  import opened JsonppLexer
  import opened JsonppLexerFacts
  import opened JsonppValue
  import opened JsonppParser
  import opened JsonppParserFacts

  // ---------------------------------------------------------------------
  // Number literals

  /** Length of the run of digits at the start of `w`. */
  function DigitRun(w: string): (n: nat)
    ensures n <= |w|
    ensures forall i | 0 <= i < n :: IsDigit(w[i])
    ensures n < |w| ==> !IsDigit(w[n])
  {
    if w != [] && IsDigit(w[0]) then 1 + DigitRun(w[1..]) else 0
  }

  /** Length of the run of `+`/`-` at the start of `w`. */
  function SignRun(w: string): (n: nat)
    ensures n <= |w|
    ensures forall i | 0 <= i < n :: w[i] == '+' || w[i] == '-'
    ensures n < |w| ==> w[n] != '+' && w[n] != '-'
  {
    if w != [] && (w[0] == '+' || w[0] == '-') then 1 + SignRun(w[1..]) else 0
  }

  /** After `e`/`E`: any signs, then any digits. */
  predicate ExponentTail(w: string) {
    DigitRun(w[SignRun(w)..]) == |w| - SignRun(w)
  }

  /** After `.`: digits, then optionally an exponent. */
  predicate FractionTail(w: string) {
    var d := DigitRun(w);
    d == |w| || ((w[d] == 'e' || w[d] == 'E') && ExponentTail(w[d + 1..]))
  }

  /** After the first digit: digits, then optionally a fraction. */
  predicate IntegerTail(w: string) {
    var d := DigitRun(w);
    d == |w| || (w[d] == '.' && FractionTail(w[d + 1..]))
  }

  /** The number literals the jsonpp lexer reads back verbatim: an optional
      sign, one or more digits, then optionally `.` and digits, then
      optionally (only after the `.`) `e`/`E`, signs and digits. */
  predicate NumberLiteral(lit: string) {
    if |lit| > 0 && (lit[0] == '+' || lit[0] == '-') then
      |lit| > 1 && IsDigit(lit[1]) && IntegerTail(lit[2..])
    else
      |lit| > 0 && IsDigit(lit[0]) && IntegerTail(lit[1..])
  }

  // ---------------------------------------------------------------------
  // Rendering

  /** The values the renderer can write: no objects inside values (the
      parser reads none), no `"` inside strings (the lexer knows no escapes)
      and numbers as literals the lexer reads back. */
  predicate Renderable(v: Value) {
    match v
    case Obj(_) => false
    case Arr(es) => forall i | 0 <= i < |es| :: Renderable(es[i])
    case Str(t) => '"' !in t
    case Num(lit) => NumberLiteral(lit)
    case Bool(_) => true
    case Null => true
  }

  function RenderValue(v: Value): string
    decreases v, 1
  {
    match v
    case Obj(_) => "{}"
    case Arr(es) => if es == [] then "[]" else "[" + RenderItems(es)
    case Str(t) => "\"" + t + "\""
    case Num(lit) => lit + " "
    case Bool(b) => if b then "true" else "false"
    case Null => "null"
  }

  /** The elements of a non-empty array, separated by `,`, and the `]`. */
  function RenderItems(es: seq<Value>): string
    requires es != []
    decreases es, 0
  {
    RenderValue(es[0]) + (if |es| == 1 then "]" else "," + RenderItems(es[1..]))
  }

  type Member = (string, Value)

  predicate RenderableMembers(ms: seq<Member>) {
    forall i | 0 <= i < |ms| :: '"' !in ms[i].0 && Renderable(ms[i].1)
  }

  function RenderMember(m: Member): string {
    "\"" + m.0 + "\":" + RenderValue(m.1)
  }

  /** The members of a non-empty object, separated by `,`, and the `}`. */
  function RenderMembers(ms: seq<Member>): string
    requires ms != []
  {
    RenderMember(ms[0]) + (if |ms| == 1 then "}" else "," + RenderMembers(ms[1..]))
  }

  function RenderObject(ms: seq<Member>): string {
    if ms == [] then "{}" else "{" + RenderMembers(ms)
  }

  /** The map `addValue` builds from members in this order. */
  function Collect(acc: map<string, Value>, ms: seq<Member>): map<string, Value>
    decreases |ms|
  {
    if ms == [] then acc else Collect(Emplace(acc, ms[0].0, ms[0].1), ms[1..])
  }

  // ---------------------------------------------------------------------
  // The map the members make

  /** Which keys the map holds, and what it keeps: every key already in
      `acc` keeps its value, and a new key gets the first value given for
      it. */
  lemma CollectSpec(acc: map<string, Value>, ms: seq<Member>)
    ensures Collect(acc, ms).Keys == acc.Keys + set i | 0 <= i < |ms| :: ms[i].0
    ensures forall k | k in acc :: Collect(acc, ms)[k] == acc[k]
    ensures forall i | 0 <= i < |ms| && ms[i].0 !in acc && (forall j | 0 <= j < i :: ms[j].0 != ms[i].0) ::
      Collect(acc, ms)[ms[i].0] == ms[i].1
  {
    CollectKeys(acc, ms);
    CollectKeeps(acc, ms);
    CollectFirst(acc, ms);
  }

  lemma {:induction false} CollectKeys(acc: map<string, Value>, ms: seq<Member>)
    ensures Collect(acc, ms).Keys == acc.Keys + set i | 0 <= i < |ms| :: ms[i].0
    decreases |ms|
  {
    if ms != [] {
      var acc' := Emplace(acc, ms[0].0, ms[0].1);
      CollectKeys(acc', ms[1..]);
      var tail := set i | 0 <= i < |ms[1..]| :: ms[1..][i].0;
      var all := set i | 0 <= i < |ms| :: ms[i].0;
      assert all == {ms[0].0} + tail by {
        forall k | k in all ensures k in {ms[0].0} + tail {
          var i :| 0 <= i < |ms| && ms[i].0 == k;
          if i > 0 {
            assert ms[1..][i - 1].0 == k;
          }
        }
        forall k | k in tail ensures k in all {
          var i :| 0 <= i < |ms[1..]| && ms[1..][i].0 == k;
          assert ms[i + 1].0 == k;
        }
      }
    }
  }

  lemma {:induction false} CollectKeeps(acc: map<string, Value>, ms: seq<Member>)
    ensures forall k | k in acc :: k in Collect(acc, ms) && Collect(acc, ms)[k] == acc[k]
    decreases |ms|
  {
    if ms != [] {
      CollectKeys(acc, ms);
      CollectKeeps(Emplace(acc, ms[0].0, ms[0].1), ms[1..]);
    }
  }

  lemma {:induction false} CollectFirst(acc: map<string, Value>, ms: seq<Member>)
    ensures forall i | 0 <= i < |ms| && ms[i].0 !in acc && (forall j | 0 <= j < i :: ms[j].0 != ms[i].0) ::
      ms[i].0 in Collect(acc, ms) && Collect(acc, ms)[ms[i].0] == ms[i].1
    decreases |ms|
  {
    if ms != [] {
      var acc' := Emplace(acc, ms[0].0, ms[0].1);
      CollectKeys(acc, ms);
      CollectKeeps(acc', ms[1..]);
      CollectFirst(acc', ms[1..]);
      forall i | 0 <= i < |ms| && ms[i].0 !in acc && (forall j | 0 <= j < i :: ms[j].0 != ms[i].0)
        ensures ms[i].0 in Collect(acc, ms) && Collect(acc, ms)[ms[i].0] == ms[i].1
      {
        if i > 0 {
          assert ms[1..][i - 1] == ms[i];
          assert ms[i].0 !in acc';
          assert forall j | 0 <= j < i - 1 :: ms[1..][j].0 != ms[1..][i - 1].0 by {
            forall j | 0 <= j < i - 1 ensures ms[1..][j].0 != ms[1..][i - 1].0 {
              assert ms[1..][j] == ms[j + 1];
            }
          }
        }
      }
    }
  }

  // ---------------------------------------------------------------------
  // Where the lexer stands

  /** `piece` is written in the text at the cursor of `s`. */
  predicate Within(s: State, piece: string) {
    s.cursor + |piece| <= |s.text| && s.text[s.cursor..s.cursor + |piece|] == piece
  }

  lemma AppendAssoc<T>(a: seq<T>, b: seq<T>, c: seq<T>)
    ensures a + b + c == a + (b + c)
  {
  }

  /** `s` moved on by `n` characters, with line and position unchanged. */
  function At(s: State, n: nat): State
    requires s.cursor + n <= |s.text|
  {
    LexerState(s.text, s.cursor + n, s.line, s.pos)
  }

  lemma WithinSplit(s: State, a: string, b: string)
    requires Within(s, a + b)
    ensures Within(s, a) && Within(At(s, |a|), b)
  {
    var t := s.text[s.cursor..s.cursor + |a| + |b|];
    assert t[..|a|] == a && t[|a|..] == b;
    assert s.text[s.cursor..s.cursor + |a|] == t[..|a|];
    assert s.text[s.cursor + |a|..s.cursor + |a| + |b|] == t[|a|..];
  }

  lemma WithinChar(s: State, piece: string, i: nat)
    requires Within(s, piece) && i < |piece|
    ensures s.cursor + i < |s.text| && s.text[s.cursor + i] == piece[i]
  {
    assert s.text[s.cursor..s.cursor + |piece|][i] == piece[i];
  }

  lemma WithinSlice(s: State, w: string)
    requires Within(s, w)
    ensures s.text[s.cursor..s.cursor + |w|] == w
  {
  }

  /** Before a character that is not whitespace, `getToken` skips nothing. */
  lemma NoSkip(s: State)
    requires s.cursor < |s.text| && !IsSpace(s.text[s.cursor])
    ensures SkipWhitespace(s) == s
  {
  }

  // ---------------------------------------------------------------------
  // Single tokens

  lemma StructuralAt(s: State, c: char)
    requires Within(s, [c]) && Structural(c).Some?
    ensures Advance(s) == Ok(Lookahead(Token(Structural(c).value, [c], s.line, s.pos), At(s, 1)))
  {
    WithinChar(s, [c], 0);
    StructuralToken(s, s.cursor);
    assert s.text[s.cursor..s.cursor] == [];
  }

  /** `lexString` over a string without quotes and its closing quote. */
  lemma StringScan(n: State, t: string)
    requires Within(n, t + "\"") && '"' !in t
    ensures ScanString([], n) == Lexed(Ok(Token(STRING, t, n.line, n.pos)), At(n, |t| + 1))
  {
    var e := n.cursor + |t|;
    WithinSplit(n, t, "\"");
    WithinChar(At(n, |t|), "\"", 0);
    forall i | n.cursor <= i < e ensures n.text[i] != '"' {
      WithinChar(n, t, i - n.cursor);
    }
    ScanStringTo([], n, e);
    assert [] + t == t;
  }

  /** A `"` starts a string token. */
  lemma QuoteStartsAt(s: State)
    requires s.cursor < |s.text| && s.text[s.cursor] == '"'
    ensures NextToken(s) == ScanString([], Consume(s))
  {
    NoSkip(s);
  }

  lemma StringAt(s: State, t: string)
    requires Within(s, "\"" + t + "\"") && '"' !in t
    ensures Advance(s) == Ok(Lookahead(Token(STRING, t, s.line, s.pos), At(s, |t| + 2)))
  {
    assert "\"" + t + "\"" == "\"" + (t + "\"");
    WithinSplit(s, "\"", t + "\"");
    WithinChar(s, "\"", 0);
    QuoteStartsAt(s);
    StringScan(At(s, 1), t);
  }

  /** `true`, `false` or `null` in the text is read as that word. */
  lemma WordAt(s: State, word: string)
    requires word == "true" || word == "false" || word == "null"
    requires Within(s, word)
    ensures ValueSequence(word[0], word, Consume(s)) == Lexed(Ok(word), At(s, |word|))
  {
    var n := Consume(s);
    ValueSequenceSpec(word[0], word, n);
    var m := |word| - 1;
    assert Compared(word, 1, n) == m;
    assert s.text[n.cursor..n.cursor + m] == s.text[s.cursor..s.cursor + |word|][1..];
    assert word[1..1 + m] == word[1..];
    assert [word[0]] + word[1..1 + m] == word;
  }

  /** `true` or `false` in the text is one `JBOOL` token. */
  lemma BoolAt(s: State, b: bool)
    requires Within(s, if b then "true" else "false")
    ensures var word := if b then "true" else "false";
      Advance(s) == Ok(Lookahead(Token(JBOOL, word, s.line, s.pos), At(s, |word|)))
  {
    var word := if b then "true" else "false";
    WithinChar(s, word, 0);
    NoSkip(s);
    WordAt(s, word);
  }

  /** `null` in the text is one `JNULL` token. */
  lemma NullAt(s: State)
    requires Within(s, "null")
    ensures Advance(s) == Ok(Lookahead(Token(JNULL, "null", s.line, s.pos), At(s, 4)))
  {
    WithinChar(s, "null", 0);
    NoSkip(s);
    WordAt(s, "null");
  }

  // ---------------------------------------------------------------------
  // Number tokens

  lemma FinishAtSpace(state: NumberState, value: string, s: State)
    requires state != END && Within(s, " ")
    ensures ScanNumber(state, value, s) == Lexed(Ok(Token(NUMBER, value, s.line, s.pos)), At(s, 1))
  {
    WithinChar(s, " ", 0);
    assert Transition(state, ' ') == Step(END, false);
  }

  lemma StayThrough(state: NumberState, value: string, s: State, w: string)
    requires state != END && state != SIGN && Within(s, w)
    requires forall i | 0 <= i < |w| :: Stays(state, w[i])
    ensures ScanNumber(state, value, s) == ScanNumber(state, value + w, At(s, |w|))
  {
    WithinSlice(s, w);
    assert forall i | s.cursor <= i < s.cursor + |w| :: s.text[i] == w[i - s.cursor];
    StayingRun(state, value, s, |w|);
  }

  lemma StepOn(state: NumberState, value: string, s: State, c: char, next: NumberState)
    requires state != END && next != END && Within(s, [c]) && !IsSpace(c)
    requires Transition(state, c) == Step(next, true)
    ensures ScanNumber(state, value, s) == ScanNumber(next, value + [c], At(s, 1))
  {
    WithinChar(s, [c], 0);
    NumberScanStep(state, value, s);
  }

  lemma DigitsStayIn(state: NumberState, w: string)
    requires state == DIGIT || state == DECIMAL || state == EXPONENT_DIGIT
    requires forall i | 0 <= i < |w| :: IsDigit(w[i])
    ensures forall i | 0 <= i < |w| :: Stays(state, w[i])
  {
  }

  /** A run the machine stays in, then a space: the run joins the literal
      and the space ends it. */
  lemma RunThenSpace(state: NumberState, value: string, s: State, w: string)
    requires state != END && state != SIGN && Within(s, w + " ")
    requires forall i | 0 <= i < |w| :: Stays(state, w[i])
    ensures ScanNumber(state, value, s) ==
      Lexed(Ok(Token(NUMBER, value + w, s.line, s.pos)), At(s, |w| + 1))
  {
    WithinSplit(s, w, " ");
    StayThrough(state, value, s, w);
    FinishAtSpace(state, value + w, At(s, |w|));
  }

  /** A character that moves the machine on, then a run it stays in, then a
      space. */
  lemma StepThenRun(state: NumberState, next: NumberState, value: string, s: State, c: char, w: string)
    requires state != END && next != END && next != SIGN && !IsSpace(c)
    requires Transition(state, c) == Step(next, true)
    requires Within(s, [c] + (w + " "))
    requires forall i | 0 <= i < |w| :: Stays(next, w[i])
    ensures ScanNumber(state, value, s) ==
      Lexed(Ok(Token(NUMBER, value + ([c] + w), s.line, s.pos)), At(s, |w| + 2))
  {
    WithinSplit(s, [c], w + " ");
    StepOn(state, value, s, c, next);
    RunThenSpace(next, value + [c], At(s, 1), w);
    assert value + [c] + w == value + ([c] + w);
  }

  /** Cutting `w` around position `k`. */
  lemma Rejoin(value: string, w: string, k: nat)
    requires k < |w|
    ensures w + " " == w[..k] + ([w[k]] + (w[k + 1..] + " "))
    ensures value + w[..k] + [w[k]] + w[k + 1..] == value + w
    ensures value + w[..k] + ([w[k]] + w[k + 1..]) == value + w
  {
    assert w == w[..k] + ([w[k]] + w[k + 1..]);
  }

  /** The characters after `w[k]`, in a tail of digits from `k` on. */
  lemma DigitsAfter(state: NumberState, w: string, k: nat, t: string)
    requires state == DIGIT || state == DECIMAL || state == EXPONENT_DIGIT
    requires k < |w| && DigitRun(w[k..]) == |w| - k && t == w[k + 1..]
    ensures forall i | 0 <= i < |t| :: Stays(state, t[i])
  {
    var u := w[k..];
    forall i | 0 <= i < |t| ensures Stays(state, t[i]) {
      assert t[i] == u[i + 1];
    }
  }

  lemma {:induction false} ExponentScan(value: string, s: State, w: string)
    requires ExponentTail(w) && Within(s, w + " ")
    ensures ScanNumber(EXPONENT, value, s) ==
      Lexed(Ok(Token(NUMBER, value + w, s.line, s.pos)), At(s, |w| + 1))
  {
    var k := SignRun(w);
    if k == |w| {
      RunThenSpace(EXPONENT, value, s, w);
    } else {
      var signs := w[..k];
      Rejoin(value, w, k);
      WithinSplit(s, signs, [w[k]] + (w[k + 1..] + " "));
      StayThrough(EXPONENT, value, s, signs);
      DigitsAfter(EXPONENT_DIGIT, w, k, w[k + 1..]);
      StepThenRun(EXPONENT, EXPONENT_DIGIT, value + signs, At(s, k), w[k], w[k + 1..]);
    }
  }

  lemma {:induction false} FractionScan(value: string, s: State, w: string)
    requires FractionTail(w) && Within(s, w + " ")
    ensures ScanNumber(DECIMAL, value, s) ==
      Lexed(Ok(Token(NUMBER, value + w, s.line, s.pos)), At(s, |w| + 1))
  {
    var d := DigitRun(w);
    if d == |w| {
      DigitsStayIn(DECIMAL, w);
      RunThenSpace(DECIMAL, value, s, w);
    } else {
      var digits := w[..d];
      Rejoin(value, w, d);
      WithinSplit(s, digits, [w[d]] + (w[d + 1..] + " "));
      DigitsStayIn(DECIMAL, digits);
      StayThrough(DECIMAL, value, s, digits);
      var p := At(s, d);
      WithinSplit(p, [w[d]], w[d + 1..] + " ");
      StepOn(DECIMAL, value + digits, p, w[d], EXPONENT);
      ExponentScan(value + digits + [w[d]], At(p, 1), w[d + 1..]);
    }
  }

  lemma {:induction false} IntegerScan(value: string, s: State, w: string)
    requires IntegerTail(w) && Within(s, w + " ")
    ensures ScanNumber(DIGIT, value, s) ==
      Lexed(Ok(Token(NUMBER, value + w, s.line, s.pos)), At(s, |w| + 1))
  {
    var d := DigitRun(w);
    if d == |w| {
      DigitsStayIn(DIGIT, w);
      RunThenSpace(DIGIT, value, s, w);
    } else {
      var digits := w[..d];
      Rejoin(value, w, d);
      WithinSplit(s, digits, [w[d]] + (w[d + 1..] + " "));
      DigitsStayIn(DIGIT, digits);
      StayThrough(DIGIT, value, s, digits);
      var p := At(s, d);
      WithinSplit(p, [w[d]], w[d + 1..] + " ");
      StepOn(DIGIT, value + digits, p, w[d], DECIMAL);
      FractionScan(value + digits + [w[d]], At(p, 1), w[d + 1..]);
    }
  }

  /** After a sign, the first digit moves the machine to `DIGIT` and joins
      the sign in the literal. */
  lemma SignedScan(s: State, c: char, w: string)
    requires (c == '+' || c == '-') && |w| > 0 && IsDigit(w[0]) && IntegerTail(w[1..])
    requires Within(s, w + " ")
    ensures ScanNumber(SIGN, [c], s) ==
      Lexed(Ok(Token(NUMBER, [c] + w, s.line, s.pos)), At(s, |w| + 1))
  {
    assert w + " " == [w[0]] + (w[1..] + " ");
    assert [c] + [w[0]] + w[1..] == [c] + w;
    WithinSplit(s, [w[0]], w[1..] + " ");
    StepOn(SIGN, [c], s, w[0], DIGIT);
    IntegerScan([c] + [w[0]], At(s, 1), w[1..]);
  }

  /** The number state machine reads a literal followed by a space back
      verbatim, consuming the space. */
  lemma NumberScan(s: State, lit: string)
    requires NumberLiteral(lit) && Within(s, lit + " ")
    ensures LexNumberSpec(lit[0], At(s, 1)) ==
      Lexed(Ok(Token(NUMBER, lit, s.line, s.pos)), At(s, |lit| + 1))
  {
    var c, w := lit[0], lit[1..];
    assert lit + " " == [c] + (w + " ") && lit == [c] + w;
    WithinSplit(s, [c], w + " ");
    if c == '+' || c == '-' {
      assert w[1..] == lit[2..];
      SignedScan(At(s, 1), c, w);
    } else {
      IntegerScan([c], At(s, 1), w);
    }
  }

  /** A character that can start a number starts a number token. */
  lemma NumberStartsAt(s: State)
    requires s.cursor < |s.text|
    requires var c := s.text[s.cursor]; c == '+' || c == '-' || IsDigit(c)
    ensures NextToken(s) == LexNumberSpec(s.text[s.cursor], Consume(s))
  {
    NoSkip(s);
  }

  /** A number literal followed by a space is one `NUMBER` token with the
      literal as its text; the space is consumed with it. */
  lemma NumberAt(s: State, lit: string)
    requires NumberLiteral(lit) && Within(s, lit + " ")
    ensures Advance(s) == Ok(Lookahead(Token(NUMBER, lit, s.line, s.pos), At(s, |lit| + 1)))
  {
    WithinChar(s, lit + " ", 0);
    NumberStartsAt(s);
    NumberScan(s, lit);
  }

  lemma LiteralConvertible(lit: string)
    requires NumberLiteral(lit)
    ensures Convertible(lit)
  {
  }

  // ---------------------------------------------------------------------
  // Values

  /** What reading a value back means: from the token `getToken` returns at
      `s`, `parseValue` rebuilds `v`, leaving the lexer at `end`. */
  predicate ReadsBack(v: Value, s: State, end: State) {
    Advance(s).Ok?
    && var r := ValueAt(Advance(s).value);
    r.Ok? && r.value.value == v && r.value.next.rest == end
  }

  /** A string, number, boolean or `null` reads back as itself. */
  lemma ScalarRoundTrip(v: Value, s: State)
    requires !v.Arr? && !v.Obj? && Renderable(v) && Within(s, RenderValue(v))
    ensures ReadsBack(v, s, At(s, |RenderValue(v)|))
  {
    match v
    case Str(t) =>
      StringAt(s, t);
      ValueAtScalar(Advance(s).value);
    case Num(lit) =>
      NumberAt(s, lit);
      LiteralConvertible(lit);
      ValueAtScalar(Advance(s).value);
    case Bool(b) =>
      BoolAt(s, b);
      ValueAtScalar(Advance(s).value);
    case Null =>
      NullAt(s);
      ValueAtScalar(Advance(s).value);
  }

  /** `parseValue` reads a rendered value back. */
  lemma {:induction false} ValueRoundTrip(v: Value, s: State)
    requires Renderable(v) && Within(s, RenderValue(v))
    ensures ReadsBack(v, s, At(s, |RenderValue(v)|))
    decreases v, 3
  {
    if v.Arr? {
      ArrayRoundTrip(v.elements, s);
    } else {
      ScalarRoundTrip(v, s);
    }
  }

  /** `[]` reads back as the empty array. */
  lemma EmptyArrayRoundTrip(s: State)
    requires Within(s, "[]")
    ensures ReadsBack(Arr([]), s, At(s, 2))
  {
    WithinSplit(s, "[", "]");
    StructuralAt(s, '[');
    StructuralAt(At(s, 1), ']');
    ValueAtEmptyArray(Advance(s).value, Advance(At(s, 1)).value);
  }

  /** What reading elements back means: from the token `getToken` returns at
      `s`, the loop of `parseArray` appends `es` to `acc`, leaving the lexer
      at `end`, just past the `]`. */
  predicate ElementsReadBack(es: seq<Value>, acc: seq<Value>, s: State, end: State) {
    Advance(s).Ok? && Advance(s).value.current.kind != RBRACKET
    && var r := ElementsAt(Advance(s).value, acc);
    r.Ok? && r.value.value == acc + es && r.value.next.rest == end
  }

  /** A `[` and elements that read back make an array that reads back. */
  lemma ArrayOfItems(es: seq<Value>, s: State, end: State)
    requires Within(s, "[") && ElementsReadBack(es, [], At(s, 1), end)
    ensures ReadsBack(Arr(es), s, end)
  {
    StructuralAt(s, '[');
    var first := Advance(At(s, 1)).value;
    assert [] + es == es;
    ValueAtArray(Advance(s).value, first, ElementsAt(first, []).value);
  }

  /** `parseArray` reads a rendered array back. */
  lemma {:induction false} ArrayRoundTrip(es: seq<Value>, s: State)
    requires (forall i | 0 <= i < |es| :: Renderable(es[i])) && Within(s, RenderValue(Arr(es)))
    ensures ReadsBack(Arr(es), s, At(s, |RenderValue(Arr(es))|))
    decreases es, 2
  {
    if es == [] {
      EmptyArrayRoundTrip(s);
    } else {
      var items := RenderItems(es);
      assert RenderValue(Arr(es)) == "[" + items;
      WithinSplit(s, "[", items);
      ElementsRoundTrip(es, [], At(s, 1));
      ArrayOfItems(es, s, At(s, 1 + |items|));
    }
  }

  /** The last element, then `]`. */
  lemma LastElement(e: Value, acc: seq<Value>, s: State, p: State, end: State)
    requires ReadsBack(e, s, p)
    requires Advance(p) == Ok(Lookahead(Token(RBRACKET, "]", p.line, p.pos), end))
    ensures ElementsReadBack([e], acc, s, end)
  {
    var la := Advance(s).value;
    ElementsLast(la, acc, ValueAt(la).value, Advance(p).value);
  }

  /** An element, then `,` and the elements that follow it. */
  lemma NextElement(es: seq<Value>, acc: seq<Value>, s: State, p: State, q: State, end: State)
    requires |es| > 1 && ReadsBack(es[0], s, p)
    requires Advance(p) == Ok(Lookahead(Token(COMMA, ",", p.line, p.pos), q))
    requires ElementsReadBack(es[1..], acc + [es[0]], q, end)
    ensures ElementsReadBack(es, acc, s, end)
  {
    AppendAssoc(acc, [es[0]], es[1..]);
    assert [es[0]] + es[1..] == es;
    var la := Advance(s).value;
    ElementsNext(la, acc, ValueAt(la).value, Advance(p).value, Advance(q).value);
  }

  /** `parseArray`'s loop reads the rendered elements back, in order, and
      stops at the closing `]`. */
  lemma {:induction false} ElementsRoundTrip(es: seq<Value>, acc: seq<Value>, s: State)
    requires es != [] && (forall i | 0 <= i < |es| :: Renderable(es[i]))
    requires Within(s, RenderItems(es))
    ensures ElementsReadBack(es, acc, s, At(s, |RenderItems(es)|))
    decreases es, 1
  {
    if |es| == 1 {
      OnlyElementRoundTrip(es, acc, s);
    } else {
      MoreElementsRoundTrip(es, acc, s);
    }
  }

  lemma {:induction false} OnlyElementRoundTrip(es: seq<Value>, acc: seq<Value>, s: State)
    requires |es| == 1 && Renderable(es[0]) && Within(s, RenderItems(es))
    ensures ElementsReadBack(es, acc, s, At(s, |RenderItems(es)|))
    decreases es, 0
  {
    var e := es[0];
    var re := RenderValue(e);
    var p := At(s, |re|);
    assert RenderItems(es) == re + "]" && es == [e];
    WithinSplit(s, re, "]");
    ValueRoundTrip(e, s);
    StructuralAt(p, ']');
    LastElement(e, acc, s, p, At(p, 1));
  }

  lemma {:induction false} MoreElementsRoundTrip(es: seq<Value>, acc: seq<Value>, s: State)
    requires |es| > 1 && (forall i | 0 <= i < |es| :: Renderable(es[i]))
    requires Within(s, RenderItems(es))
    ensures ElementsReadBack(es, acc, s, At(s, |RenderItems(es)|))
    decreases es, 0
  {
    var p := At(s, |RenderValue(es[0])|);
    var q := At(p, 1);
    ElementsLayout(es, s);
    ValueRoundTrip(es[0], s);
    CommaAt(p);
    ElementsRoundTrip(es[1..], acc + [es[0]], q);
    NextElement(es, acc, s, p, q, At(s, |RenderItems(es)|));
  }

  /** Where the pieces of rendered elements lie: the first element, a
      comma, and the rest. */
  lemma ElementsLayout(es: seq<Value>, s: State)
    requires |es| > 1 && (forall i | 0 <= i < |es| :: Renderable(es[i]))
    requires Within(s, RenderItems(es))
    ensures var p := At(s, |RenderValue(es[0])|);
      Within(s, RenderValue(es[0])) && Within(p, ",")
      && Within(At(p, 1), RenderItems(es[1..]))
      && At(At(p, 1), |RenderItems(es[1..])|) == At(s, |RenderItems(es)|)
      && (forall i | 0 <= i < |es[1..]| :: Renderable(es[1..][i]))
  {
    var re := RenderValue(es[0]);
    var rest := RenderItems(es[1..]);
    assert RenderItems(es) == re + ("," + rest);
    WithinSplit(s, re, "," + rest);
    WithinSplit(At(s, |re|), ",", rest);
  }

  /** A `,` in the text is read as a comma token. */
  lemma CommaAt(p: State)
    requires Within(p, ",")
    ensures Advance(p) == Ok(Lookahead(Token(COMMA, ",", p.line, p.pos), At(p, 1)))
  {
    StructuralAt(p, ',');
  }

  // ---------------------------------------------------------------------
  // Members and documents

  /** What reading members back means: from the token `getToken` returns at
      `s`, the loop of `parseValueList` adds them to `acc` as `Collect` does,
      and stops at a `}`. */
  predicate MembersReadBack(ms: seq<Member>, acc: map<string, Value>, s: State) {
    Advance(s).Ok?
    && var r := MembersAt(Advance(s).value, acc);
    r.Ok? && r.value.value == Collect(acc, ms) && r.value.next.current.kind == RBRACE
  }

  /** One member up to its value: its name, `:` and the value read back,
      leaving the lexer at `p`. */
  predicate MemberReadBack(m: Member, s: State, p: State) {
    Advance(s).Ok?
    && var la := Advance(s).value;
    la.current.kind == STRING && la.current.value == m.0
    && Advance(la.rest).Ok?
    && var colon := Advance(la.rest).value;
    colon.current.kind == COLON && ReadsBack(m.1, colon.rest, p)
  }

  lemma MemberRoundTrip(m: Member, s: State)
    requires '"' !in m.0 && Renderable(m.1) && Within(s, RenderMember(m))
    ensures MemberReadBack(m, s, At(s, |RenderMember(m)|))
  {
    var c := At(s, |m.0| + 2);
    MemberLayout(m, s);
    StringAt(s, m.0);
    ColonAt(c);
    ValueRoundTrip(m.1, At(c, 1));
  }

  /** Where the pieces of a rendered member lie: the quoted name, a colon,
      and the value. */
  lemma MemberLayout(m: Member, s: State)
    requires Within(s, RenderMember(m))
    ensures var c := At(s, |m.0| + 2);
      Within(s, "\"" + m.0 + "\"") && Within(c, ":") && Within(At(c, 1), RenderValue(m.1))
      && At(At(c, 1), |RenderValue(m.1)|) == At(s, |RenderMember(m)|)
  {
    var key := "\"" + m.0 + "\"";
    var rv := RenderValue(m.1);
    assert RenderMember(m) == key + (":" + rv);
    WithinSplit(s, key, ":" + rv);
    WithinSplit(At(s, |key|), ":", rv);
  }

  /** A `:` in the text is read as a colon token. */
  lemma ColonAt(p: State)
    requires Within(p, ":")
    ensures Advance(p) == Ok(Lookahead(Token(COLON, ":", p.line, p.pos), At(p, 1)))
  {
    StructuralAt(p, ':');
  }

  /** The last member, then something other than `,`. */
  lemma LastMember(m: Member, acc: map<string, Value>, s: State, p: State)
    requires MemberReadBack(m, s, p) && Advance(p).Ok? && Advance(p).value.current.kind == RBRACE
    ensures MembersReadBack([m], acc, s)
  {
    var la := Advance(s).value;
    var colon := Advance(la.rest).value;
    var start := Advance(colon.rest).value;
    MembersLast(la, acc, colon, start, ValueAt(start).value, Advance(p).value);
  }

  /** A member, then `,` and the members that follow it. */
  lemma NextMember(ms: seq<Member>, acc: map<string, Value>, s: State, p: State, q: State)
    requires |ms| > 1 && MemberReadBack(ms[0], s, p)
    requires Advance(p) == Ok(Lookahead(Token(COMMA, ",", p.line, p.pos), q))
    requires MembersReadBack(ms[1..], Emplace(acc, ms[0].0, ms[0].1), q)
    ensures MembersReadBack(ms, acc, s)
  {
    var la := Advance(s).value;
    var colon := Advance(la.rest).value;
    var start := Advance(colon.rest).value;
    MembersNext(la, acc, colon, start, ValueAt(start).value, Advance(p).value, Advance(q).value);
  }

  /** `parseValueList` reads rendered members back into the map `Collect`
      describes, and stops at the closing `}`. */
  lemma {:induction false} MembersRoundTrip(ms: seq<Member>, acc: map<string, Value>, s: State)
    requires ms != [] && RenderableMembers(ms)
    requires Within(s, RenderMembers(ms))
    ensures MembersReadBack(ms, acc, s)
    decreases |ms|, 1
  {
    if |ms| == 1 {
      var m := ms[0];
      var rm := RenderMember(m);
      var p := At(s, |rm|);
      assert RenderMembers(ms) == rm + "}" && ms == [m];
      WithinSplit(s, rm, "}");
      MemberRoundTrip(m, s);
      StructuralAt(p, '}');
      LastMember(m, acc, s, p);
    } else {
      MoreMembersRoundTrip(ms, acc, s);
    }
  }

  lemma {:induction false} MoreMembersRoundTrip(ms: seq<Member>, acc: map<string, Value>, s: State)
    requires |ms| > 1 && RenderableMembers(ms)
    requires Within(s, RenderMembers(ms))
    ensures MembersReadBack(ms, acc, s)
    decreases |ms|, 0
  {
    var p := At(s, |RenderMember(ms[0])|);
    var q := At(p, 1);
    MembersLayout(ms, s);
    MemberRoundTrip(ms[0], s);
    CommaAt(p);
    MembersRoundTrip(ms[1..], Emplace(acc, ms[0].0, ms[0].1), q);
    NextMember(ms, acc, s, p, q);
  }

  /** Where the pieces of rendered members lie: the first member, a comma,
      and the rest. */
  lemma MembersLayout(ms: seq<Member>, s: State)
    requires |ms| > 1 && RenderableMembers(ms)
    requires Within(s, RenderMembers(ms))
    ensures var p := At(s, |RenderMember(ms[0])|);
      Within(s, RenderMember(ms[0])) && Within(p, ",")
      && Within(At(p, 1), RenderMembers(ms[1..])) && RenderableMembers(ms[1..])
  {
    var rm := RenderMember(ms[0]);
    var rest := RenderMembers(ms[1..]);
    assert RenderMembers(ms) == rm + ("," + rest);
    WithinSplit(s, rm, "," + rest);
    WithinSplit(At(s, |rm|), ",", rest);
    forall i | 0 <= i < |ms[1..]| ensures '"' !in ms[1..][i].0 && Renderable(ms[1..][i].1) {
      assert ms[1..][i] == ms[i + 1];
    }
  }

  /** Rendering an object and parsing the text back gives the map its
      members make, first occurrence of a name winning; whatever text follows
      the closing `}` is ignored. */
  lemma RoundTrip(ms: seq<Member>, u: string)
    requires RenderableMembers(ms)
    ensures Document(RenderObject(ms) + u) == Ok(Collect(map[], ms))
  {
    var o := RenderObject(ms);
    var text := o + u;
    var s := Start(text);
    assert text[0..|text|] == text;
    WithinSplit(s, o, u);
    assert "{" + o[1..] == o;
    WithinSplit(s, "{", o[1..]);
    StructuralAt(s, '{');
    var inner := At(s, 1);
    var open := Advance(s).value;
    if ms == [] {
      StructuralAt(inner, '}');
      DocumentEmpty(text, open, Advance(inner).value);
    } else {
      assert o[1..] == RenderMembers(ms);
      MembersRoundTrip(ms, map[], inner);
      var first := Advance(inner).value;
      DocumentMembers(text, open, first, MembersAt(first, map[]).value);
    }
  }
}
