/** What the jsonpp parser accepts and builds, stated over its specification
    functions. */
module JsonppParserFacts {
  import opened Results
  import opened CppStd
  import opened JsonppLexer
  import opened JsonppLexerFacts
  import opened JsonppValue
  import opened JsonppParser

  // ---------------------------------------------------------------------
  // One step of the parser at a time

  /** `parseValue` on a scalar token builds that scalar and leaves the token
      current. */
  lemma ValueAtScalar(la: Lookahead)
    requires la.current.kind == STRING || la.current.kind == JBOOL || la.current.kind == JNULL
      || (la.current.kind == NUMBER && Convertible(la.current.value))
    ensures var t := la.current;
      ValueAt(la) == Ok(Parsed(
        if t.kind == STRING then Str(t.value)
        else if t.kind == JBOOL then Bool(t.value == "true")
        else if t.kind == JNULL then Null
        else Num(t.value), la))
  {
  }

  /** `parseValue` on `[` directly followed by `]`: an empty array. */
  lemma ValueAtEmptyArray(la: Lookahead, close: Lookahead)
    requires la.current.kind == LBRACKET && Advance(la.rest) == Ok(close)
    requires close.current.kind == RBRACKET
    ensures ValueAt(la) == Ok(Parsed(Arr([]), close))
  {
  }

  /** `parseValue` on `[` followed by anything else: the element loop. */
  lemma ValueAtArray(la: Lookahead, first: Lookahead, p: Parsed<seq<Value>>)
    requires la.current.kind == LBRACKET && Advance(la.rest) == Ok(first)
    requires first.current.kind != RBRACKET && ElementsAt(first, []) == Ok(p)
    ensures ValueAt(la) == Ok(Parsed(Arr(p.value), p.next))
  {
  }

  /** An element followed by `]` ends the loop. */
  lemma ElementsLast(la: Lookahead, acc: seq<Value>, v: Parsed<Value>, after: Lookahead)
    requires ValueAt(la) == Ok(v) && Advance(v.next.rest) == Ok(after)
    requires after.current.kind == RBRACKET
    ensures ElementsAt(la, acc) == Ok(Parsed(acc + [v.value], after))
  {
  }

  /** An element followed by `,` goes round the loop again. */
  lemma ElementsNext(la: Lookahead, acc: seq<Value>, v: Parsed<Value>, after: Lookahead, la': Lookahead)
    requires ValueAt(la) == Ok(v) && Advance(v.next.rest) == Ok(after)
    requires after.current.kind == COMMA && Advance(after.rest) == Ok(la')
    ensures ElementsAt(la, acc) == ElementsAt(la', acc + [v.value])
  {
  }

  /** The steps of one member: its name, `:` and value. */
  predicate MemberSteps(la: Lookahead, colon: Lookahead, start: Lookahead, v: Parsed<Value>, after: Lookahead) {
    la.current.kind == STRING
    && Advance(la.rest) == Ok(colon) && colon.current.kind == COLON
    && Advance(colon.rest) == Ok(start) && ValueAt(start) == Ok(v)
    && Advance(v.next.rest) == Ok(after)
  }

  /** A member not followed by `,` ends the list. */
  lemma MembersLast(la: Lookahead, acc: map<string, Value>, colon: Lookahead, start: Lookahead,
                    v: Parsed<Value>, after: Lookahead)
    requires MemberSteps(la, colon, start, v, after) && after.current.kind != COMMA
    ensures MembersAt(la, acc) == Ok(Parsed(Emplace(acc, la.current.value, v.value), after))
  {
  }

  /** A member followed by `,` goes round the loop again. */
  lemma MembersNext(la: Lookahead, acc: map<string, Value>, colon: Lookahead, start: Lookahead,
                    v: Parsed<Value>, after: Lookahead, la': Lookahead)
    requires MemberSteps(la, colon, start, v, after)
    requires after.current.kind == COMMA && Advance(after.rest) == Ok(la')
    ensures MembersAt(la, acc) == MembersAt(la', Emplace(acc, la.current.value, v.value))
  {
  }

  /** After a `,` the array loop needs another value: a trailing comma
      (`[1 ,]`) or any other token that starts no value is rejected. */
  lemma CommaNeedsValue(la: Lookahead, acc: seq<Value>, v: Parsed<Value>, after: Lookahead, next: Lookahead)
    requires ValueAt(la) == Ok(v) && Advance(v.next.rest) == Ok(after)
    requires after.current.kind == COMMA && Advance(after.rest) == Ok(next)
    requires !StartsValue(next.current.kind)
    ensures ElementsAt(la, acc) == Err(Expected("<value>", next.current))
  {
    ElementsNext(la, acc, v, after, next);
  }

  /** After a `,` the member loop needs another name: a trailing comma
      (`{"a":"b",}`) or any other token but a string is rejected. */
  lemma CommaNeedsName(la: Lookahead, acc: map<string, Value>, colon: Lookahead, start: Lookahead,
                       v: Parsed<Value>, after: Lookahead, next: Lookahead)
    requires MemberSteps(la, colon, start, v, after)
    requires after.current.kind == COMMA && Advance(after.rest) == Ok(next)
    requires next.current.kind != STRING
    ensures MembersAt(la, acc) == Err(Expected("<string>", next.current))
  {
    MembersNext(la, acc, colon, start, v, after, next);
  }

  /** `parse` on a `{` followed by `}`. */
  lemma DocumentEmpty(text: string, open: Lookahead, first: Lookahead)
    requires Advance(Start(text)) == Ok(open) && open.current.kind == LBRACE
    requires Advance(open.rest) == Ok(first) && first.current.kind == RBRACE
    ensures Document(text) == Ok(map[])
  {
  }

  /** `parse` on a `{` followed by members and `}`. */
  lemma DocumentMembers(text: string, open: Lookahead, first: Lookahead, p: Parsed<map<string, Value>>)
    requires Advance(Start(text)) == Ok(open) && open.current.kind == LBRACE
    requires Advance(open.rest) == Ok(first) && first.current.kind != RBRACE
    requires MembersAt(first, map[]) == Ok(p) && p.next.current.kind == RBRACE
    ensures Document(text) == Ok(p.value)
  {
  }

  // ---------------------------------------------------------------------
  // Members and elements are stored in source order

  /** `parseValueList` only ever adds names: every name stored before keeps
      its value (`emplace` never overwrites), and the first name read is
      stored. */
  lemma {:induction false} MembersKeepEarlier(la: Lookahead, acc: map<string, Value>)
    ensures var r := MembersAt(la, acc);
      r.Ok? ==>
        acc.Keys + {la.current.value} <= r.value.value.Keys
        && forall k | k in acc :: r.value.value[k] == acc[k]
    decreases Remaining(la.rest)
  {
    var r := MembersAt(la, acc);
    if r.Ok? {
      var name := la.current.value;
      var colon := Advance(la.rest).value;
      var start := Advance(colon.rest).value;
      var v := ValueAt(start).value;
      var members := Emplace(acc, name, v.value);
      var after := Advance(v.next.rest).value;
      if after.current.kind == COMMA {
        var la' := Advance(after.rest).value;
        assert r == MembersAt(la', members);
        MembersKeepEarlier(la', members);
      } else {
        assert r == Ok(Parsed(members, after));
      }
    }
  }

  /** `parseArray` appends: the elements read before stay in front, in
      order, and at least one more follows. */
  lemma {:induction false} ElementsInOrder(la: Lookahead, acc: seq<Value>)
    ensures var r := ElementsAt(la, acc);
      r.Ok? ==> |acc| < |r.value.value| && r.value.value[..|acc|] == acc
    decreases Remaining(la.rest)
  {
    var r := ElementsAt(la, acc);
    if r.Ok? {
      var v := ValueAt(la).value;
      var after := Advance(v.next.rest).value;
      var acc' := acc + [v.value];
      if after.current.kind == COMMA {
        var la' := Advance(after.rest).value;
        assert r == ElementsAt(la', acc');
        ElementsInOrder(la', acc');
        assert r.value.value[..|acc|] == r.value.value[..|acc'|][..|acc|];
      } else {
        assert r.value.value == acc';
      }
    }
  }

  // ---------------------------------------------------------------------
  // No nested objects

  /** A value with no object anywhere inside it. */
  predicate NoObjects(v: Value) {
    match v
    case Obj(_) => false
    case Arr(es) => forall i | 0 <= i < |es| :: NoObjects(es[i])
    case _ => true
  }

  /** `parseValue` has no branch for `{`: no value it builds holds an
      object, however deeply its arrays nest. */
  lemma {:induction false} ValueHasNoObjects(la: Lookahead)
    ensures ValueAt(la).Ok? ==> NoObjects(ValueAt(la).value.value)
    decreases Remaining(la.rest), if la.current.kind == LBRACKET then 3 else 0
  {
    if la.current.kind == LBRACKET && ValueAt(la).Ok? {
      ArrayHasNoObjects(la.rest);
    }
  }

  lemma {:induction false} ArrayHasNoObjects(s: State)
    ensures var r := ArrayAt(s);
      r.Ok? ==> forall i | 0 <= i < |r.value.value| :: NoObjects(r.value.value[i])
    decreases Remaining(s), 2
  {
    var la := Advance(s);
    if la.Ok? && la.value.current.kind != RBRACKET {
      ElementsHaveNoObjects(la.value, []);
    }
  }

  lemma {:induction false} ElementsHaveNoObjects(la: Lookahead, acc: seq<Value>)
    requires forall i | 0 <= i < |acc| :: NoObjects(acc[i])
    ensures var r := ElementsAt(la, acc);
      r.Ok? ==> forall i | 0 <= i < |r.value.value| :: NoObjects(r.value.value[i])
    decreases Remaining(la.rest), if la.current.kind == LBRACKET then 4 else 1
  {
    var r := ElementsAt(la, acc);
    if r.Ok? {
      var v := ValueAt(la).value;
      var after := Advance(v.next.rest).value;
      ValueHasNoObjects(la);
      AppendNoObjects(acc, v.value);
      if after.current.kind == COMMA {
        var la' := Advance(after.rest).value;
        ElementsNext(la, acc, v, after, la');
        ElementsHaveNoObjects(la', acc + [v.value]);
      } else {
        ElementsLast(la, acc, v, after);
      }
    }
  }

  lemma AppendNoObjects(acc: seq<Value>, v: Value)
    requires forall i | 0 <= i < |acc| :: NoObjects(acc[i])
    requires NoObjects(v)
    ensures forall i | 0 <= i < |acc + [v]| :: NoObjects((acc + [v])[i])
  {
  }

  lemma {:induction false} MembersHaveNoObjects(la: Lookahead, acc: map<string, Value>)
    requires forall k | k in acc :: NoObjects(acc[k])
    ensures var r := MembersAt(la, acc);
      r.Ok? ==> forall k | k in r.value.value :: NoObjects(r.value.value[k])
    decreases Remaining(la.rest)
  {
    var r := MembersAt(la, acc);
    if r.Ok? {
      var colon := Advance(la.rest).value;
      var start := Advance(colon.rest).value;
      var v := ValueAt(start).value;
      var after := Advance(v.next.rest).value;
      var members := Emplace(acc, la.current.value, v.value);
      ValueHasNoObjects(start);
      forall k | k in members
        ensures NoObjects(members[k])
      {
        if k != la.current.value {
          assert members[k] == acc[k];
        }
      }
      if after.current.kind == COMMA {
        var la' := Advance(after.rest).value;
        MembersNext(la, acc, colon, start, v, after, la');
        MembersHaveNoObjects(la', members);
      } else {
        MembersLast(la, acc, colon, start, v, after);
      }
    }
  }

  /** The members of a parsed document never hold an object: jsonpp reads
      only a flat root object (with arrays of scalars and arrays). */
  lemma DocumentHasNoNestedObjects(text: string)
    ensures Document(text).Ok? ==>
      forall k | k in Document(text).value :: NoObjects(Document(text).value[k])
  {
    var d := Document(text);
    if d.Ok? {
      var open := Advance(Start(text)).value;
      var first := Advance(open.rest).value;
      if first.current.kind == RBRACE {
        assert d.value == map[];
      } else {
        MembersHaveNoObjects(first, map[]);
        assert d.value == MembersAt(first, map[]).value.value;
      }
    }
  }

  // ---------------------------------------------------------------------
  // The root object

  /** Text that is nothing but whitespace (in particular the empty text) is
      rejected: the first token is `NONE`, not `{`. */
  lemma BlankTextRejected(text: string)
    requires forall i | 0 <= i < |text| :: IsSpace(text[i])
    ensures Document(text) == Err(Expected("{", NoneToken))
  {
    EndOfInput(Start(text));
  }

  /** A `{`, optional whitespace and a `}` make an empty object, whatever
      whitespace precedes them and whatever text follows. */
  lemma EmptyObject(w1: string, w2: string, u: string)
    requires forall i | 0 <= i < |w1| :: IsSpace(w1[i])
    requires forall i | 0 <= i < |w2| :: IsSpace(w2[i])
    ensures Document(w1 + "{" + w2 + "}" + u) == Ok(map[])
  {
    var text := w1 + "{" + w2 + "}" + u;
    var j := |w1|;
    var k := j + 1 + |w2|;
    EmptyObjectLayout(w1, w2, u);
    StructuralToken(Start(text), j);
    var open := Advance(Start(text)).value;
    StructuralToken(open.rest, k);
    DocumentEmpty(text, open, Advance(open.rest).value);
  }

  /** Where the braces of `w1 + "{" + w2 + "}" + u` lie. */
  lemma EmptyObjectLayout(w1: string, w2: string, u: string)
    requires forall i | 0 <= i < |w1| :: IsSpace(w1[i])
    requires forall i | 0 <= i < |w2| :: IsSpace(w2[i])
    ensures var text := w1 + "{" + w2 + "}" + u;
      var j := |w1|;
      var k := j + 1 + |w2|;
      k < |text| && text[j] == '{' && text[k] == '}'
      && (forall i | 0 <= i < j :: IsSpace(text[i]))
      && (forall i | j + 1 <= i < k :: IsSpace(text[i]))
  {
    var text := w1 + "{" + w2 + "}" + u;
    var j := |w1|;
    assert forall i | 0 <= i < j :: text[i] == w1[i];
    assert forall i | j + 1 <= i < j + 1 + |w2| :: text[i] == w2[i - j - 1];
  }

  /** Whatever the first character after leading whitespace is, unless it
      is `{` the document is rejected: with `{` expected and the first token
      found when the lexer reads one, and with the lexer's own error when it
      does not. A structural character is named by its own token type. */
  lemma NotAnObject(text: string, j: nat)
    requires j < |text| && !IsSpace(text[j]) && text[j] != '{'
    requires forall i | 0 <= i < j :: IsSpace(text[i])
    ensures Document(text).Err?
    ensures var t := NextToken(Start(text)).result;
      Document(text) == Err(if t.Ok? then Expected("{", t.value) else t.error)
    ensures Structural(text[j]).Some? ==>
      Document(text).error.Expected? && Document(text).error.what == "{"
      && Document(text).error.got.kind == Structural(text[j]).value
  {
    SkipsTo(Start(text), j);
    if Structural(text[j]).Some? {
      StructuralToken(Start(text), j);
    }
    assert NextToken(Start(text)).result.Ok? ==> NextToken(Start(text)).result.value.kind != LBRACE;
  }
}
