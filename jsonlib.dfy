/** The earlier generation of the library (jsonlib.cpp): a lexer over
    `{ } " : ,` and a parser for one flat object whose values are strings.

    As in jsonpp, pure functions over snapshots of the mutable fields say
    what each routine does, and the `Lexer` and `Object` classes and the
    parsing methods are proved to compute them. */
module Jsonlib {
  import opened Results
  import opened CppStd

  datatype TokenType = LBRACE | RBRACE | STRING | COLON | COMMA | NONE

  /** `std::pair<TokenType, std::string>`: a kind and its text. */
  datatype Token = Token(kind: TokenType, value: string)

  /** What `getToken` returns at the end of the input. */
  const NoneToken := Token(NONE, "")

  /** Every fault thrown as `parse_exception` (message text left out). */
  datatype Error =
    | InvalidToken(c: char)
    | UnterminatedString
    | Expected(what: string, got: Token)

  /** `json::String`, the only kind of value this generation stores. */
  datatype Value = String(value: string)

  // ---------------------------------------------------------------------
  // Lexer specification

  /** The lexer's fields: the text and `_cursor`. */
  datatype LexerState = LexerState(text: string, cursor: nat)

  /** The cursor never passes the end of the text. */
  type State = s: LexerState | s.cursor <= |s.text| witness LexerState("", 0)

  /** The state `Lexer(text)` starts in. */
  function Start(text: string): State {
    LexerState(text, 0)
  }

  /** What a scanning routine returns (or throws) and the fields afterwards. */
  datatype Lexed = Lexed(result: Result<Token, Error>, after: State)

  /** Reads one character: `_text[_cursor++]`. */
  function Consume(s: State): (t: State)
    requires s.cursor < |s.text|
  {
    LexerState(s.text, s.cursor + 1)
  }

  /** The whitespace loop at the head of `getToken`. */
  function SkipWhitespace(s: State): (r: State)
    ensures r.text == s.text && s.cursor <= r.cursor
    decreases |s.text| - s.cursor
  {
    if s.cursor < |s.text| && IsSpace(s.text[s.cursor]) then SkipWhitespace(Consume(s)) else s
  }

  /** The loop of `lexString`, with `str` accumulated so far. */
  function ScanString(str: string, s: State): (r: Lexed)
    ensures r.after.text == s.text && s.cursor <= r.after.cursor
    ensures r.result.Ok? ==> r.result.value.kind == STRING && r.after.cursor > s.cursor
    decreases |s.text| - s.cursor
  {
    if s.cursor == |s.text| then
      Lexed(Err(UnterminatedString), s)
    else if s.text[s.cursor] == '"' then
      Lexed(Ok(Token(STRING, str)), Consume(s))
    else
      ScanString(str + [s.text[s.cursor]], Consume(s))
  }

  /** `getToken()`. */
  function NextToken(s: State): (r: Lexed)
    ensures r.after.text == s.text && SkipWhitespace(s).cursor <= r.after.cursor
    ensures r.result.Ok? && r.result.value.kind != NONE ==> r.after.cursor > s.cursor
    ensures r.result.Ok? && r.result.value.kind == NONE ==>
      r.result.value == NoneToken && r.after.cursor == |s.text|
  {
    var w := SkipWhitespace(s);
    if w.cursor == |w.text| then
      Lexed(Ok(NoneToken), w)
    else
      var c := w.text[w.cursor];
      var n := Consume(w);
      if c == '{' then Lexed(Ok(Token(LBRACE, "{")), n)
      else if c == '}' then Lexed(Ok(Token(RBRACE, "}")), n)
      else if c == '"' then ScanString([], n)
      else if c == ':' then Lexed(Ok(Token(COLON, ":")), n)
      else if c == ',' then Lexed(Ok(Token(COMMA, ",")), n)
      else Lexed(Err(InvalidToken(c)), n)
  }

  // ---------------------------------------------------------------------
  // Parser specification

  /** The parser's state: the token in `nextTok` and the lexer's fields. */
  datatype Lookahead = Lookahead(current: Token, rest: State)

  /** A value read and the lexer's fields afterwards. */
  datatype Read<T> = Read(value: T, rest: State)

  /** What the member loop returns, with the token it stopped on. */
  datatype Parsed<T> = Parsed(value: T, next: Lookahead)

  function Remaining(s: State): nat {
    |s.text| - s.cursor
  }

  /** `nextTok = lexer.getToken()`. */
  function Advance(s: State): (r: Result<Lookahead, Error>)
    ensures r.Ok? ==> r.value.rest.text == s.text && s.cursor <= r.value.rest.cursor
    ensures r.Ok? && r.value.current.kind != NONE ==> s.cursor < r.value.rest.cursor
  {
    var t := NextToken(s);
    match t.result
    case Ok(token) => Ok(Lookahead(token, t.after))
    case Err(e) => Err(e)
  }

  /** The static `parseValue(lexer)`: reads one token, which must be a string. */
  function ValueAt(s: State): (r: Result<Read<Value>, Error>)
    ensures r.Ok? ==> r.value.rest.text == s.text && s.cursor < r.value.rest.cursor
  {
    var t :- Advance(s);
    if t.current.kind != STRING then Err(Expected("<string>", t.current))
    else Ok(Read(String(t.current.value), t.rest))
  }

  /** The `do … while (isList)` loop of `parseObject`, with the members
      stored so far in `acc`; it ends at the first value not followed by a
      comma, with the token read there. */
  function MembersAt(la: Lookahead, acc: map<string, Value>): (r: Result<Parsed<map<string, Value>>, Error>)
    ensures r.Ok? ==> r.value.next.rest.text == la.rest.text && la.rest.cursor < r.value.next.rest.cursor
    ensures r.Ok? ==> la.current.kind == STRING && r.value.next.current.kind != COMMA
    decreases Remaining(la.rest)
  {
    if la.current.kind != STRING then Err(Expected("string", la.current))
    else
      var name := la.current.value;
      var colon :- Advance(la.rest);
      if colon.current.kind != COLON then Err(Expected(":", colon.current))
      else
        var v :- ValueAt(colon.rest);
        var members := Emplace(acc, name, v.value);
        var after :- Advance(v.rest);
        if after.current.kind == COMMA then
          var la' :- Advance(after.rest);
          MembersAt(la', members)
        else Ok(Parsed(members, after))
  }

  /** The static `parseObject(lexer)`: a `{`, then either `}` or a member
      list and `}`. */
  function ObjectAt(s: State): (r: Result<Read<map<string, Value>>, Error>)
    ensures r.Ok? ==> r.value.rest.text == s.text && s.cursor < r.value.rest.cursor
  {
    var open :- Advance(s);
    if open.current.kind != LBRACE then Err(Expected("{", open.current))
    else
      var first :- Advance(open.rest);
      if first.current.kind == RBRACE then Ok(Read(map[], first.rest))
      else
        var m :- MembersAt(first, map[]);
        if m.next.current.kind != RBRACE then Err(Expected("}", m.next.current))
        else Ok(Read(m.value, m.next.rest))
  }

  /** `json::parse(text)`: the members of the object. Whatever follows its
      closing `}` is never read. */
  function Document(text: string): Result<map<string, Value>, Error> {
    var p :- ObjectAt(Start(text));
    Ok(p.value)
  }

  // ---------------------------------------------------------------------
  // The lexer object

  class Lexer {
    const text: string
    var cursor: nat

    ghost predicate Valid()
      reads this
    {
      cursor <= |text|
    }

    /** The lexer's fields as a value. */
    function Snapshot(): State
      reads this
      requires Valid()
    {
      LexerState(text, cursor)
    }

    constructor (text: string)
      ensures Valid() && Snapshot() == Start(text)
    {
      this.text := text;
      cursor := 0;
    }

    /** `std::string::operator[]`: the text, and '\0' at the end. */
    function CharAt(i: nat): (c: char)
      reads this
      ensures i < |text| ==> c == text[i]
      ensures i >= |text| ==> !IsSpace(c)
    {
      if i < |text| then text[i] else '\0'
    }

    predicate IsDoneReading()
      reads this
      requires Valid()
      ensures IsDoneReading() <==> cursor == |text|
    {
      cursor >= |text|
    }

    method LexString() returns (r: Result<Token, Error>)
      requires Valid()
      modifies this
      ensures Valid() && Lexed(r, Snapshot()) == ScanString([], old(Snapshot()))
    {
      var str := [];
      var endQuoteFound := false;
      while !endQuoteFound && !IsDoneReading()
        invariant Valid()
        invariant !endQuoteFound ==> ScanString(str, Snapshot()) == ScanString([], old(Snapshot()))
        invariant endQuoteFound ==>
          ScanString([], old(Snapshot())) == Lexed(Ok(Token(STRING, str)), Snapshot())
        decreases |text| - cursor
      {
        var c := text[cursor];
        cursor := cursor + 1;
        if c == '"' {
          endQuoteFound := true;
        } else {
          str := str + [c];
        }
      }
      if !endQuoteFound {
        return Err(UnterminatedString);
      }
      return Ok(Token(STRING, str));
    }

    method GetToken() returns (r: Result<Token, Error>)
      requires Valid()
      modifies this
      ensures Valid() && Lexed(r, Snapshot()) == NextToken(old(Snapshot()))
    {
      // skip white space
      while IsSpace(CharAt(cursor)) && !IsDoneReading()
        invariant Valid()
        invariant SkipWhitespace(Snapshot()) == SkipWhitespace(old(Snapshot()))
        decreases |text| - cursor
      {
        cursor := cursor + 1;
      }
      ghost var w := Snapshot();
      assert w == SkipWhitespace(old(Snapshot()));
      // the source's `while (!isDoneReading())` returns on its first iteration
      if !IsDoneReading() {
        var c := text[cursor];
        cursor := cursor + 1;
        if c == '{' {
          return Ok(Token(LBRACE, "{"));
        } else if c == '}' {
          return Ok(Token(RBRACE, "}"));
        } else if c == '"' {
          r := LexString();
          return;
        } else if c == ':' {
          return Ok(Token(COLON, ":"));
        } else if c == ',' {
          return Ok(Token(COMMA, ","));
        } else {
          return Err(InvalidToken(c));
        }
      }
      return Ok(NoneToken);
    }
  }

  // ---------------------------------------------------------------------
  // The object

  /** `json::Object`: a map from names to values, filled by `addValue`. */
  class Object {
    var values: map<string, Value>

    constructor ()
      ensures values == map[]
    {
      values := map[];
    }

    /** Null (None) exactly when the name is absent. */
    function GetValue(name: string): (r: Option<Value>)
      reads this
      ensures r.None? <==> name !in values
      ensures r.Some? ==> r.value == values[name]
    {
      if name in values then Some(values[name]) else None
    }

    /** `_values.emplace(name, value)`: the first value stored under a name wins. */
    method AddValue(name: string, value: Value)
      modifies this
      ensures values == Emplace(old(values), name, value)
      ensures name in old(values) ==> values == old(values)
      ensures GetValue(name) == Some(if name in old(values) then old(values)[name] else value)
    {
      values := Emplace(values, name, value);
    }
  }

  // ---------------------------------------------------------------------
  // The parser

  function ObjectContents(r: Result<Object, Error>): Result<map<string, Value>, Error>
    reads if r.Ok? then {r.value} else {}
  {
    match r
    case Ok(o) => Ok(o.values)
    case Err(e) => Err(e)
  }

  /** A method's result `r` and the lexer state `now` it leaves agree with
      the specification `spec`; after an error only the error is specified. */
  predicate Agrees<T(==)>(r: Result<T, Error>, spec: Result<Read<T>, Error>, now: State) {
    match spec
    case Ok(p) => r == Ok(p.value) && now == p.rest
    case Err(e) => r == Err(e)
  }

  /** `nextTok = lexer.getToken()`, as the parser sees it. */
  method NextTok(lexer: Lexer) returns (r: Result<Token, Error>)
    requires lexer.Valid()
    modifies lexer
    ensures lexer.Valid()
    ensures r.Ok? ==> Advance(old(lexer.Snapshot())) == Ok(Lookahead(r.value, lexer.Snapshot()))
    ensures r.Err? ==> Advance(old(lexer.Snapshot())) == Err(r.error)
  {
    r := lexer.GetToken();
  }

  /** The static `parseValue(lexer)`. */
  method ParseValue(lexer: Lexer) returns (r: Result<Value, Error>)
    requires lexer.Valid()
    modifies lexer
    ensures lexer.Valid()
    ensures Agrees(r, ValueAt(old(lexer.Snapshot())), lexer.Snapshot())
  {
    var tok :- NextTok(lexer);
    // hard code strings for the moment
    if tok.kind != STRING {
      return Err(Expected("<string>", tok));
    }
    return Ok(String(tok.value));
  }

  /** The result `r` of the member loop, the members it leaves in `values`
      and the lexer state `now` agree with the specification `spec`. */
  predicate ListAgrees(r: Result<Token, Error>, values: map<string, Value>,
                       spec: Result<Parsed<map<string, Value>>, Error>, now: State) {
    match spec
    case Ok(p) => r == Ok(p.next.current) && values == p.value && now == p.next.rest
    case Err(e) => r == Err(e)
  }

  /** The `do … while (isList)` loop of `parseObject`, from the token read
      where the first name must be; it returns the token that ended it. */
  method ParseMembers(lexer: Lexer, obj: Object, first: Token) returns (r: Result<Token, Error>)
    requires lexer.Valid()
    modifies lexer, obj
    ensures lexer.Valid()
    ensures ListAgrees(r, obj.values, MembersAt(Lookahead(first, old(lexer.Snapshot())), old(obj.values)),
                       lexer.Snapshot())
  {
    ghost var start := Lookahead(first, lexer.Snapshot());
    ghost var acc := obj.values;
    var nextTok := first;
    var isList := true;
    while isList
      invariant lexer.Valid()
      invariant isList ==> MembersAt(Lookahead(nextTok, lexer.Snapshot()), obj.values) == MembersAt(start, acc)
      invariant !isList ==> MembersAt(start, acc) == Ok(Parsed(obj.values, Lookahead(nextTok, lexer.Snapshot())))
      decreases |lexer.text| - lexer.cursor, if isList then 1 else 0
    {
      // name
      if nextTok.kind != STRING {
        return Err(Expected("string", nextTok));
      }
      var name := nextTok.value;
      // colon
      nextTok :- NextTok(lexer);
      if nextTok.kind != COLON {
        return Err(Expected(":", nextTok));
      }
      // value
      var value :- ParseValue(lexer);
      obj.AddValue(name, value);
      // a comma continues the list
      nextTok :- NextTok(lexer);
      if nextTok.kind == COMMA {
        isList := true;
        nextTok :- NextTok(lexer);
      } else {
        isList := false;
      }
    }
    return Ok(nextTok);
  }

  /** The static `parseObject(lexer)`. */
  method ParseObject(lexer: Lexer) returns (r: Result<Object, Error>)
    requires lexer.Valid()
    modifies lexer
    ensures lexer.Valid()
    ensures r.Ok? ==> fresh(r.value)
    ensures Agrees(ObjectContents(r), ObjectAt(old(lexer.Snapshot())), lexer.Snapshot())
  {
    var nextTok :- NextTok(lexer);
    if nextTok.kind != LBRACE {
      return Err(Expected("{", nextTok));
    }
    nextTok :- NextTok(lexer);
    // an empty object
    if nextTok.kind == RBRACE {
      var empty := new Object();
      return Ok(empty);
    }
    var obj := new Object();
    nextTok :- ParseMembers(lexer, obj, nextTok);
    // closing brace
    if nextTok.kind != RBRACE {
      return Err(Expected("}", nextTok));
    }
    return Ok(obj);
  }

  /** `json::parse(text)`. */
  method Parse(text: string) returns (r: Result<Object, Error>)
    ensures r.Ok? ==> fresh(r.value)
    ensures ObjectContents(r) == Document(text)
  {
    var lexer := new Lexer(text);
    r := ParseObject(lexer);
  }
}
