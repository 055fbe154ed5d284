/** The recursive-descent parser of jsonpp (jsonpp.cpp, `Parser` and
    `json::parse`). A parser holds a copy of the lexer and the current token;
    each routine reads `currentToken`, pulls further tokens from the lexer and
    leaves `currentToken` on the last token it looked at. The routines are
    specified by pure functions over a `Lookahead` (the current token together
    with the lexer's fields) and the `Parser` methods are proved to compute
    them. */
module JsonppParser {
  import opened Results
  import opened CppStd
  import opened JsonppLexer
  import opened JsonppValue

  /** The parser's state: `currentToken` and the lexer's fields. */
  datatype Lookahead = Lookahead(current: Token, rest: State)

  /** What a parsing routine returns, and the parser's state afterwards. */
  datatype Parsed<T> = Parsed(value: T, next: Lookahead)

  function Remaining(s: State): nat {
    |s.text| - s.cursor
  }

  /** `currentToken = lexer.getToken()`. */
  function Advance(s: State): (r: Result<Lookahead, Error>)
    ensures r.Ok? ==> r.value.rest.text == s.text && s.cursor <= r.value.rest.cursor
    ensures r.Ok? && r.value.current.kind != NONE ==> s.cursor < r.value.rest.cursor
  {
    var t := NextToken(s);
    match t.result
    case Ok(token) => Ok(Lookahead(token, t.after))
    case Err(e) => Err(e)
  }

  /** Whether `std::stod` accepts a literal the lexer produced: it needs a
      digit, after at most one sign. A lone sign (`+`, `-`) is rejected. */
  predicate Convertible(literal: string) {
    |literal| > 0
    && (IsDigit(literal[0])
        || ((literal[0] == '+' || literal[0] == '-') && |literal| > 1 && IsDigit(literal[1])))
  }

  /** The token kinds `parseValue` accepts. */
  predicate StartsValue(kind: TokenType) {
    kind == STRING || kind == LBRACKET || kind == JBOOL || kind == JNULL || kind == NUMBER
  }

  /** `parseValue()`: a scalar is read off the current token, which stays
      current; `[` starts an array, which leaves its `]` current. */
  function ValueAt(la: Lookahead): (r: Result<Parsed<Value>, Error>)
    ensures r.Ok? ==> r.value.next.rest.text == la.rest.text && la.rest.cursor <= r.value.next.rest.cursor
    ensures r.Ok? ==> StartsValue(la.current.kind)
    ensures !StartsValue(la.current.kind) ==> r == Err(Expected("<value>", la.current))
    ensures r.Ok? && la.current.kind != LBRACKET ==> r.value.next == la
    ensures r.Ok? && la.current.kind == LBRACKET ==>
      r.value.value.Arr? && r.value.next.current.kind == RBRACKET
    decreases Remaining(la.rest), if la.current.kind == LBRACKET then 3 else 0
  {
    var t := la.current;
    if t.kind == STRING then Ok(Parsed(Str(t.value), la))
    else if t.kind == LBRACKET then
      var a :- ArrayAt(la.rest);
      Ok(Parsed(Arr(a.value), a.next))
    else if t.kind == JBOOL then Ok(Parsed(Bool(t.value == "true"), la))
    else if t.kind == JNULL then Ok(Parsed(Null, la))
    else if t.kind == NUMBER then
      if Convertible(t.value) then Ok(Parsed(Num(t.value), la)) else Err(NotANumber(t.value))
    else Err(Expected("<value>", t))
  }

  /** `parseArray()`, called with the lexer just past the `[`. */
  function ArrayAt(s: State): (r: Result<Parsed<seq<Value>>, Error>)
    ensures r.Ok? ==> r.value.next.rest.text == s.text && s.cursor <= r.value.next.rest.cursor
    ensures r.Ok? ==> r.value.next.current.kind == RBRACKET
    decreases Remaining(s), 2
  {
    var la :- Advance(s);
    if la.current.kind == RBRACKET then Ok(Parsed([], la))
    else ElementsAt(la, [])
  }

  /** The `do … while (isList)` loop of `parseArray`, with the elements read
      so far in `acc`; it ends at the first value not followed by a comma,
      and the token there must be `]`. */
  function ElementsAt(la: Lookahead, acc: seq<Value>): (r: Result<Parsed<seq<Value>>, Error>)
    ensures r.Ok? ==> r.value.next.rest.text == la.rest.text && la.rest.cursor <= r.value.next.rest.cursor
    ensures r.Ok? ==> r.value.next.current.kind == RBRACKET
    decreases Remaining(la.rest), if la.current.kind == LBRACKET then 4 else 1
  {
    var v :- ValueAt(la);
    var after :- Advance(v.next.rest);
    if after.current.kind == COMMA then
      var la' :- Advance(after.rest);
      ElementsAt(la', acc + [v.value])
    else if after.current.kind == RBRACKET then Ok(Parsed(acc + [v.value], after))
    else Err(Expected("]", after.current))
  }

  /** The `do … while (isList)` loop of `parseValueList`, with the members
      stored so far in `acc`; it ends at the first value not followed by a
      comma, leaving that token current. */
  function MembersAt(la: Lookahead, acc: map<string, Value>): (r: Result<Parsed<map<string, Value>>, Error>)
    ensures r.Ok? ==> r.value.next.rest.text == la.rest.text && la.rest.cursor <= r.value.next.rest.cursor
    ensures r.Ok? ==> la.current.kind == STRING && r.value.next.current.kind != COMMA
    decreases Remaining(la.rest)
  {
    if la.current.kind != STRING then Err(Expected("<string>", la.current))
    else
      var name := la.current.value;
      var colon :- Advance(la.rest);
      if colon.current.kind != COLON then Err(Expected(":", colon.current))
      else
        var start :- Advance(colon.rest);
        var v :- ValueAt(start);
        var members := Emplace(acc, name, v.value);
        var after :- Advance(v.next.rest);
        if after.current.kind == COMMA then
          var la' :- Advance(after.rest);
          MembersAt(la', members)
        else Ok(Parsed(members, after))
  }

  /** `parseObject()`: a `{`, then either `}` or a member list and `}`. */
  function ObjectAt(s: State): (r: Result<Parsed<map<string, Value>>, Error>)
    ensures r.Ok? ==> r.value.next.rest.text == s.text && s.cursor < r.value.next.rest.cursor
    ensures r.Ok? ==> r.value.next.current.kind == RBRACE
  {
    var open :- Advance(s);
    if open.current.kind != LBRACE then Err(Expected("{", open.current))
    else
      var first :- Advance(open.rest);
      if first.current.kind == RBRACE then Ok(Parsed(map[], first))
      else
        var m :- MembersAt(first, map[]);
        if m.next.current.kind != RBRACE then Err(Expected("}", m.next.current))
        else Ok(m)
  }

  /** `json::parse(text)`: the members of the root object. Whatever follows
      its closing `}` is never read. */
  function Document(text: string): Result<map<string, Value>, Error> {
    var p :- ObjectAt(Start(text));
    Ok(p.value)
  }

  // ---------------------------------------------------------------------
  // Relating the parser objects to the specification

  /** A method's result `r` and the state `now` it leaves agree with the
      specification `spec`; after an error only the error is specified. */
  predicate Agrees<T(==)>(r: Result<T, Error>, spec: Result<Parsed<T>, Error>, now: Lookahead) {
    match spec
    case Ok(p) => r == Ok(p.value) && now == p.next
    case Err(e) => r == Err(e)
  }

  function ArrayContents(r: Result<Array, Error>): Result<seq<Value>, Error>
    reads if r.Ok? then {r.value} else {}
  {
    match r
    case Ok(a) => Ok(a.values)
    case Err(e) => Err(e)
  }

  function ObjectContents(r: Result<Object, Error>): Result<map<string, Value>, Error>
    reads if r.Ok? then {r.value} else {}
  {
    match r
    case Ok(o) => Ok(o.values)
    case Err(e) => Err(e)
  }

  // ---------------------------------------------------------------------
  // The parser object

  class Parser {
    const lexer: Lexer
    var currentToken: Token

    ghost predicate Valid()
      reads this, lexer
    {
      lexer.Valid()
    }

    function Snapshot(): Lookahead
      reads this, lexer
      requires Valid()
    {
      Lookahead(currentToken, lexer.Snapshot())
    }

    /** `Parser(Lexer lexer)`: the lexer is taken by value and the current
        token is default-constructed. */
    constructor (l: Lexer)
      requires l.Valid()
      ensures Valid() && fresh(lexer)
      ensures Snapshot() == Lookahead(NoneToken, l.Snapshot())
    {
      lexer := new Lexer.Copy(l);
      currentToken := NoneToken;
    }

    /** `currentToken = lexer.getToken()`. */
    method ReadToken() returns (r: Result<Token, Error>)
      requires Valid()
      modifies this, lexer
      ensures Valid()
      ensures r.Ok? ==> Advance(old(lexer.Snapshot())) == Ok(Snapshot()) && r.value == currentToken
      ensures r.Err? ==> Advance(old(lexer.Snapshot())) == Err(r.error)
    {
      r := lexer.GetToken();
      if r.Ok? {
        currentToken := r.value;
      }
    }

    method ParseValue() returns (r: Result<Value, Error>)
      requires Valid()
      modifies this, lexer
      ensures Valid()
      ensures Agrees(r, ValueAt(old(Snapshot())), Snapshot())
      decreases |lexer.text| - lexer.cursor, if currentToken.kind == LBRACKET then 3 else 0
    {
      var t := currentToken;
      if t.kind == STRING {
        return Ok(Str(t.value));
      } else if t.kind == LBRACKET {
        var a :- ParseArray();
        return Ok(Arr(a.values));
      } else if t.kind == JBOOL {
        return Ok(Bool(t.value == "true"));
      } else if t.kind == JNULL {
        return Ok(Null);
      } else if t.kind == NUMBER {
        if !Convertible(t.value) {
          return Err(NotANumber(t.value));
        }
        return Ok(Num(t.value));
      } else {
        return Err(Expected("<value>", t));
      }
    }

    method ParseArray() returns (r: Result<Array, Error>)
      requires Valid()
      modifies this, lexer
      ensures Valid()
      ensures r.Ok? ==> fresh(r.value)
      ensures Agrees(ArrayContents(r), ArrayAt(old(lexer.Snapshot())), Snapshot())
      decreases |lexer.text| - lexer.cursor, 2
    {
      var first :- ReadToken();
      if currentToken.kind == RBRACKET {
        var empty := new Array();
        return Ok(empty);
      }
      var arr := new Array();
      ghost var start := Snapshot();
      var isList := true;
      while isList
        invariant Valid() && fresh(arr)
        invariant isList ==> lexer.cursor > old(lexer.cursor) || currentToken.kind != LBRACKET
        invariant isList ==> lexer.cursor >= old(lexer.cursor)
        invariant isList ==> ElementsAt(Snapshot(), arr.values) == ElementsAt(start, [])
        invariant !isList ==>
          ElementsAt(start, []) ==
          if currentToken.kind == RBRACKET then Ok(Parsed(arr.values, Snapshot()))
          else Err(Expected("]", currentToken))
        decreases |lexer.text| - lexer.cursor, if isList then 1 else 0
      {
        var v :- ParseValue();
        arr.AddValue(v);
        var after :- ReadToken();
        if currentToken.kind == COMMA {
          isList := true;
          var next :- ReadToken();
        } else {
          isList := false;
        }
      }
      if currentToken.kind != RBRACKET {
        return Err(Expected("]", currentToken));
      }
      return Ok(arr);
    }

    method ParseValueList() returns (r: Result<Object, Error>)
      requires Valid()
      modifies this, lexer
      ensures Valid()
      ensures r.Ok? ==> fresh(r.value)
      ensures Agrees(ObjectContents(r), MembersAt(old(Snapshot()), map[]), Snapshot())
    {
      var obj := new Object();
      ghost var start := Snapshot();
      var isList := true;
      while isList
        invariant Valid() && fresh(obj)
        invariant isList ==> MembersAt(Snapshot(), obj.values) == MembersAt(start, map[])
        invariant !isList ==> MembersAt(start, map[]) == Ok(Parsed(obj.values, Snapshot()))
        decreases |lexer.text| - lexer.cursor, if isList then 1 else 0
      {
        if currentToken.kind != STRING {
          return Err(Expected("<string>", currentToken));
        }
        var name := currentToken.value;
        var colon :- ReadToken();
        if currentToken.kind != COLON {
          return Err(Expected(":", currentToken));
        }
        var start :- ReadToken();
        var value :- ParseValue();
        obj.AddValue(name, value);
        var after :- ReadToken();
        if currentToken.kind == COMMA {
          isList := true;
          var next :- ReadToken();
        } else {
          isList := false;
        }
      }
      return Ok(obj);
    }

    method ParseObject() returns (r: Result<Object, Error>)
      requires Valid()
      modifies this, lexer
      ensures Valid()
      ensures r.Ok? ==> fresh(r.value)
      ensures Agrees(ObjectContents(r), ObjectAt(old(lexer.Snapshot())), Snapshot())
    {
      var open :- ReadToken();
      if currentToken.kind != LBRACE {
        return Err(Expected("{", currentToken));
      }
      var first :- ReadToken();
      if currentToken.kind == RBRACE {
        var empty := new Object();
        return Ok(empty);
      }
      var obj :- ParseValueList();
      if currentToken.kind != RBRACE {
        return Err(Expected("}", currentToken));
      }
      return Ok(obj);
    }

    method Parse() returns (r: Result<Object, Error>)
      requires Valid()
      modifies this, lexer
      ensures Valid()
      ensures r.Ok? ==> fresh(r.value)
      ensures Agrees(ObjectContents(r), ObjectAt(old(lexer.Snapshot())), Snapshot())
    {
      r := ParseObject();
    }
  }

  /** `json::parse(text)`. */
  method Parse(text: string) returns (r: Result<Object, Error>)
    ensures r.Ok? ==> fresh(r.value)
    ensures ObjectContents(r) == Document(text)
  {
    var lexer := new Lexer(text);
    var parser := new Parser(lexer);
    r := parser.Parse();
  }
}
