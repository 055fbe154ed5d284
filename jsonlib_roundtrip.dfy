/** Objects written out with arbitrary whitespace around every token, and
    what jsonlib's `parse` makes of them: the members it stores, the texts
    it rejects and why. */
module JsonlibRoundTrip {
  import opened Results
  import opened CppStd
  import opened Jsonlib
  import opened JsonlibFacts

  // ---------------------------------------------------------------------
  // Writing objects out

  /** Whitespace only. */
  predicate Blank(w: string) {
    forall i | 0 <= i < |w| :: IsSpace(w[i])
  }

  /** A string between quotes; the lexer knows no escapes. */
  function Quote(t: string): string {
    "\"" + t + "\""
  }

  /** One member as written: the whitespace before the name, before and
      after the colon, and after the value. */
  datatype Member = Member(lead: string, key: string, beforeColon: string, afterColon: string, value: string, trail: string)

  predicate Writable(m: Member) {
    Blank(m.lead) && Blank(m.beforeColon) && Blank(m.afterColon) && Blank(m.trail)
    && '"' !in m.key && '"' !in m.value
  }

  predicate AllWritable(ms: seq<Member>) {
    forall i | 0 <= i < |ms| :: Writable(ms[i])
  }

  function RenderMember(m: Member): string {
    m.lead + Quote(m.key) + m.beforeColon + ":" + m.afterColon + Quote(m.value) + m.trail
  }

  /** The members, separated by commas. */
  function RenderMembers(ms: seq<Member>): string {
    if ms == [] then ""
    else if |ms| == 1 then RenderMember(ms[0])
    else RenderMember(ms[0]) + "," + RenderMembers(ms[1..])
  }

  /** Leading whitespace, then the object. */
  function RenderObject(lead: string, ms: seq<Member>): string {
    lead + "{" + RenderMembers(ms) + "}"
  }

  /** The map `addValue` builds from the members in this order. */
  function Collect(acc: map<string, Value>, ms: seq<Member>): map<string, Value>
    decreases |ms|
  {
    if ms == [] then acc else Collect(Emplace(acc, ms[0].key, String(ms[0].value)), ms[1..])
  }

  // ---------------------------------------------------------------------
  // The map the members make

  /** Which names the map holds, and what it keeps: every name already in
      `acc` keeps its value, and a new name gets the first value given for
      it. */
  lemma CollectSpec(acc: map<string, Value>, ms: seq<Member>)
    ensures Collect(acc, ms).Keys == acc.Keys + set i | 0 <= i < |ms| :: ms[i].key
    ensures forall k | k in acc :: Collect(acc, ms)[k] == acc[k]
    ensures forall i | 0 <= i < |ms| && ms[i].key !in acc && (forall j | 0 <= j < i :: ms[j].key != ms[i].key) ::
      Collect(acc, ms)[ms[i].key] == String(ms[i].value)
  {
    CollectKeys(acc, ms);
    CollectKeeps(acc, ms);
    CollectFirst(acc, ms);
  }

  lemma {:induction false} CollectKeys(acc: map<string, Value>, ms: seq<Member>)
    ensures Collect(acc, ms).Keys == acc.Keys + set i | 0 <= i < |ms| :: ms[i].key
    decreases |ms|
  {
    if ms != [] {
      var acc' := Emplace(acc, ms[0].key, String(ms[0].value));
      CollectKeys(acc', ms[1..]);
      var tail := set i | 0 <= i < |ms[1..]| :: ms[1..][i].key;
      var all := set i | 0 <= i < |ms| :: ms[i].key;
      assert all == {ms[0].key} + tail by {
        forall k | k in all ensures k in {ms[0].key} + tail {
          var i :| 0 <= i < |ms| && ms[i].key == k;
          if i > 0 {
            assert ms[1..][i - 1].key == k;
          }
        }
        forall k | k in tail ensures k in all {
          var i :| 0 <= i < |ms[1..]| && ms[1..][i].key == k;
          assert ms[i + 1].key == k;
        }
      }
    }
  }

  lemma {:induction false} CollectKeeps(acc: map<string, Value>, ms: seq<Member>)
    ensures forall k | k in acc :: k in Collect(acc, ms) && Collect(acc, ms)[k] == acc[k]
    decreases |ms|
  {
    if ms != [] {
      CollectKeys(acc, ms);
      CollectKeeps(Emplace(acc, ms[0].key, String(ms[0].value)), ms[1..]);
    }
  }

  lemma {:induction false} CollectFirst(acc: map<string, Value>, ms: seq<Member>)
    ensures forall i | 0 <= i < |ms| && ms[i].key !in acc && (forall j | 0 <= j < i :: ms[j].key != ms[i].key) ::
      ms[i].key in Collect(acc, ms) && Collect(acc, ms)[ms[i].key] == String(ms[i].value)
    decreases |ms|
  {
    if ms != [] {
      var acc' := Emplace(acc, ms[0].key, String(ms[0].value));
      CollectKeys(acc, ms);
      CollectKeeps(acc', ms[1..]);
      CollectFirst(acc', ms[1..]);
      forall i | 0 <= i < |ms| && ms[i].key !in acc && (forall j | 0 <= j < i :: ms[j].key != ms[i].key)
        ensures ms[i].key in Collect(acc, ms) && Collect(acc, ms)[ms[i].key] == String(ms[i].value)
      {
        if i > 0 {
          assert ms[1..][i - 1] == ms[i];
          assert ms[i].key !in acc';
          assert forall j | 0 <= j < i - 1 :: ms[1..][j].key != ms[1..][i - 1].key by {
            forall j | 0 <= j < i - 1 ensures ms[1..][j].key != ms[1..][i - 1].key {
              assert ms[1..][j] == ms[j + 1];
            }
          }
        }
      }
    }
  }

  // ---------------------------------------------------------------------
  // Where the lexer stands

  /** `piece` is written in the text at the cursor of `s`. */
  predicate Within(s: State, piece: string) {
    s.cursor + |piece| <= |s.text| && s.text[s.cursor..s.cursor + |piece|] == piece
  }

  /** `s` moved on by `n` characters. */
  function At(s: State, n: nat): State
    requires s.cursor + n <= |s.text|
  {
    LexerState(s.text, s.cursor + n)
  }

  lemma WithinSplit(s: State, a: string, b: string)
    requires Within(s, a + b)
    ensures Within(s, a) && Within(At(s, |a|), b)
  {
    var t := s.text[s.cursor..s.cursor + |a| + |b|];
    assert t[..|a|] == a && t[|a|..] == b;
    assert s.text[s.cursor..s.cursor + |a|] == t[..|a|];
    assert s.text[s.cursor + |a|..s.cursor + |a| + |b|] == t[|a|..];
  }

  lemma WithinChar(s: State, piece: string, i: nat)
    requires Within(s, piece) && i < |piece|
    ensures s.cursor + i < |s.text| && s.text[s.cursor + i] == piece[i]
  {
    assert s.text[s.cursor..s.cursor + |piece|][i] == piece[i];
  }

  /** A text starts with its own prefix. */
  lemma StartsWith(a: string, u: string)
    ensures Within(Start(a + u), a)
  {
    assert (a + u)[..|a|] == a;
  }

  /** Blank `w` at the cursor is a run of spaces in the text. */
  lemma BlankRun(s: State, w: string)
    requires Within(s, w) && Blank(w)
    ensures Spaces(s.text, s.cursor, s.cursor + |w|)
  {
    forall k | s.cursor <= k < s.cursor + |w| ensures IsSpace(s.text[k]) {
      WithinChar(s, w, k - s.cursor);
    }
  }

  // ---------------------------------------------------------------------
  // Single tokens

  /** Whitespace, then a character that is neither whitespace nor `"`:
      a punctuation token, or an invalid one. */
  lemma TokenAfter(s: State, w: string, c: char)
    requires Within(s, w + [c]) && Blank(w) && !IsSpace(c) && c != '"'
    ensures Advance(s) ==
      if IsPunctuation(c) then Ok(Lookahead(Token(PunctuationKind(c), [c]), At(s, |w| + 1)))
      else Err(InvalidToken(c))
  {
    WithinSplit(s, w, [c]);
    BlankRun(s, w);
    WithinChar(At(s, |w|), [c], 0);
    if IsPunctuation(c) {
      PunctuationToken(s, s.cursor + |w|);
    } else {
      InvalidCharacter(s, s.cursor + |w|);
    }
  }

  lemma PunctuationAt(s: State, w: string, c: char)
    requires Within(s, w + [c]) && Blank(w) && IsPunctuation(c)
    ensures Advance(s) == Ok(Lookahead(Token(PunctuationKind(c), [c]), At(s, |w| + 1)))
  {
    TokenAfter(s, w, c);
  }

  /** Whitespace, then a quoted string without quotes inside. */
  lemma QuotedAt(s: State, w: string, t: string)
    requires Within(s, w + Quote(t)) && Blank(w) && '"' !in t
    ensures Advance(s) == Ok(Lookahead(Token(STRING, t), At(s, |w| + |t| + 2)))
  {
    var j := s.cursor + |w|;
    QuotedLayout(s, w, t);
    StringToken(s, j, j + 1 + |t|);
    assert NextToken(s) == Lexed(Ok(Token(STRING, t)), At(s, |w| + |t| + 2));
  }

  lemma QuotedLayout(s: State, w: string, t: string)
    requires Within(s, w + Quote(t)) && Blank(w) && '"' !in t
    ensures Spaces(s.text, s.cursor, s.cursor + |w|)
    ensures s.cursor + |w| + |t| + 1 < |s.text|
    ensures s.text[s.cursor + |w|] == '"' && s.text[s.cursor + |w| + |t| + 1] == '"'
    ensures s.text[s.cursor + |w| + 1..s.cursor + |w| + 1 + |t|] == t
    ensures forall m | s.cursor + |w| < m < s.cursor + |w| + 1 + |t| :: s.text[m] != '"'
  {
    WithinSplit(s, w, Quote(t));
    BlankRun(s, w);
    QuoteParts(At(s, |w|), t);
  }

  /** The two quotes and what lies between them. */
  lemma QuoteParts(q: State, t: string)
    requires Within(q, Quote(t)) && '"' !in t
    ensures q.cursor + |t| + 1 < |q.text|
    ensures q.text[q.cursor] == '"' && q.text[q.cursor + |t| + 1] == '"'
    ensures q.text[q.cursor + 1..q.cursor + 1 + |t|] == t
    ensures forall m | q.cursor < m < q.cursor + 1 + |t| :: q.text[m] != '"'
  {
    QuoteSplit(q, t);
    WithinChar(q, "\"", 0);
    WithinChar(At(q, 1 + |t|), "\"", 0);
    forall m | q.cursor < m < q.cursor + 1 + |t| ensures q.text[m] != '"' {
      WithinChar(At(q, 1), t, m - (q.cursor + 1));
    }
  }

  lemma QuoteSplit(q: State, t: string)
    requires Within(q, Quote(t))
    ensures q.cursor + |t| + 2 <= |q.text|
    ensures Within(q, "\"") && Within(At(q, 1), t) && Within(At(q, 1 + |t|), "\"")
  {
    assert Quote(t) == "\"" + (t + "\"");
    WithinSplit(q, "\"", t + "\"");
    WithinSplit(At(q, 1), t, "\"");
  }

  /** A quoted string is what `parseValue` accepts. */
  lemma StringValueAt(s: State, w: string, t: string)
    requires Within(s, w + Quote(t)) && Blank(w) && '"' !in t
    ensures ValueAt(s) == Ok(Read(String(t), At(s, |w| + |t| + 2)))
  {
    QuotedAt(s, w, t);
  }

  /** Anything but a quoted string is rejected by `parseValue`. */
  lemma ValueRejected(s: State, w: string, c: char)
    requires Within(s, w + [c]) && Blank(w) && !IsSpace(c) && c != '"'
    ensures ValueAt(s) ==
      Err(if IsPunctuation(c) then Expected("<string>", Token(PunctuationKind(c), [c])) else InvalidToken(c))
  {
    TokenAfter(s, w, c);
  }

  /** Whitespace to the end of the text. */
  lemma BlankToEnd(s: State, w: string)
    requires Within(s, w) && Blank(w) && s.cursor + |w| == |s.text|
    ensures Advance(s) == Ok(Lookahead(NoneToken, At(s, |w|)))
  {
    BlankRun(s, w);
    EndOfInput(s);
  }

  // ---------------------------------------------------------------------
  // One member

  /** Where the name of `m` ends, and where its value ends. */
  function KeyEnd(m: Member): nat {
    |m.lead| + |m.key| + 2
  }

  function ColonEnd(m: Member): nat {
    KeyEnd(m) + |m.beforeColon| + 1
  }

  function ValueEnd(m: Member): nat {
    ColonEnd(m) + |m.afterColon| + |m.value| + 2
  }

  lemma MemberLayout(m: Member, s: State, c: char)
    requires Within(s, RenderMember(m) + [c])
    ensures Within(s, m.lead + Quote(m.key))
    ensures Within(At(s, KeyEnd(m)), m.beforeColon + ":")
    ensures Within(At(s, ColonEnd(m)), m.afterColon + Quote(m.value))
    ensures Within(At(s, ValueEnd(m)), m.trail + [c])
    ensures |RenderMember(m)| == ValueEnd(m) + |m.trail|
  {
    var x1 := m.lead + Quote(m.key);
    var x3 := x1 + m.beforeColon + ":";
    var x5 := x3 + m.afterColon + Quote(m.value);
    assert RenderMember(m) + [c] == x5 + (m.trail + [c]);
    WithinSplit(s, x5, m.trail + [c]);
    assert x5 == x3 + (m.afterColon + Quote(m.value));
    WithinSplit(s, x3, m.afterColon + Quote(m.value));
    assert x3 == x1 + (m.beforeColon + ":");
    WithinSplit(s, x1, m.beforeColon + ":");
  }

  /** The tokens of a member and of the punctuation mark `c` after it. */
  lemma MemberTokens(m: Member, s: State, c: char)
    requires Writable(m) && Within(s, RenderMember(m) + [c]) && IsPunctuation(c)
    ensures Advance(s) == Ok(Lookahead(Token(STRING, m.key), At(s, KeyEnd(m))))
    ensures Advance(At(s, KeyEnd(m))) == Ok(Lookahead(Token(COLON, ":"), At(s, ColonEnd(m))))
    ensures ValueAt(At(s, ColonEnd(m))) == Ok(Read(String(m.value), At(s, ValueEnd(m))))
    ensures Advance(At(s, ValueEnd(m))) ==
      Ok(Lookahead(Token(PunctuationKind(c), [c]), At(s, |RenderMember(m)| + 1)))
  {
    MemberLayout(m, s, c);
    NameToken(m, s);
    ColonToken(m, s);
    ValueToken(m, s);
    FollowToken(m, s, c);
  }

  lemma NameToken(m: Member, s: State)
    requires Writable(m) && Within(s, m.lead + Quote(m.key))
    ensures Advance(s) == Ok(Lookahead(Token(STRING, m.key), At(s, KeyEnd(m))))
  {
    QuotedAt(s, m.lead, m.key);
  }

  lemma ColonToken(m: Member, s: State)
    requires Writable(m) && s.cursor + KeyEnd(m) <= |s.text| && Within(At(s, KeyEnd(m)), m.beforeColon + ":")
    ensures Advance(At(s, KeyEnd(m))) == Ok(Lookahead(Token(COLON, ":"), At(s, ColonEnd(m))))
  {
    PunctuationAt(At(s, KeyEnd(m)), m.beforeColon, ':');
  }

  lemma ValueToken(m: Member, s: State)
    requires Writable(m) && s.cursor + ColonEnd(m) <= |s.text| && Within(At(s, ColonEnd(m)), m.afterColon + Quote(m.value))
    ensures ValueAt(At(s, ColonEnd(m))) == Ok(Read(String(m.value), At(s, ValueEnd(m))))
  {
    StringValueAt(At(s, ColonEnd(m)), m.afterColon, m.value);
  }

  lemma FollowToken(m: Member, s: State, c: char)
    requires Writable(m) && IsPunctuation(c)
    requires s.cursor + ValueEnd(m) <= |s.text| && Within(At(s, ValueEnd(m)), m.trail + [c])
    requires |RenderMember(m)| == ValueEnd(m) + |m.trail|
    ensures Advance(At(s, ValueEnd(m))) ==
      Ok(Lookahead(Token(PunctuationKind(c), [c]), At(s, |RenderMember(m)| + 1)))
  {
    PunctuationAt(At(s, ValueEnd(m)), m.trail, c);
  }

  // ---------------------------------------------------------------------
  // The member list

  /** The member loop, started on the first name of `ms` (after `s`),
      stores the members as `Collect` does and stops on a `}`. */
  predicate MembersReadBack(ms: seq<Member>, acc: map<string, Value>, s: State) {
    Advance(s).Ok?
    && var r := MembersAt(Advance(s).value, acc);
    r.Ok? && r.value.value == Collect(acc, ms) && r.value.next.current.kind == RBRACE
  }

  lemma MembersLayout(ms: seq<Member>, s: State)
    requires |ms| > 1 && AllWritable(ms) && Within(s, RenderMembers(ms) + "}")
    ensures Within(s, RenderMember(ms[0]) + ",")
    ensures Within(At(s, |RenderMember(ms[0])| + 1), RenderMembers(ms[1..]) + "}")
    ensures Writable(ms[0]) && AllWritable(ms[1..])
  {
    var head := RenderMember(ms[0]) + ",";
    assert RenderMembers(ms) + "}" == head + (RenderMembers(ms[1..]) + "}");
    WithinSplit(s, head, RenderMembers(ms[1..]) + "}");
    forall i | 0 <= i < |ms[1..]| ensures Writable(ms[1..][i]) {
      assert ms[1..][i] == ms[i + 1];
    }
  }

  lemma {:induction false} MembersRoundTrip(ms: seq<Member>, acc: map<string, Value>, s: State)
    requires |ms| > 0 && AllWritable(ms) && Within(s, RenderMembers(ms) + "}")
    ensures MembersReadBack(ms, acc, s)
    decreases |ms|
  {
    var m := ms[0];
    if |ms| == 1 {
      assert RenderMembers(ms) + "}" == RenderMember(m) + ['}'];
      MemberTokens(m, s, '}');
      LastMember(ms, acc, s);
    } else {
      var p := At(s, |RenderMember(m)| + 1);
      MembersLayout(ms, s);
      MemberTokens(m, s, ',');
      MembersRoundTrip(ms[1..], Emplace(acc, m.key, String(m.value)), p);
      NextMember(ms, acc, s, p);
    }
  }

  /** A single member, then `}`. */
  lemma LastMember(ms: seq<Member>, acc: map<string, Value>, s: State)
    requires |ms| == 1
    requires s.cursor + |RenderMember(ms[0])| + 1 <= |s.text|
    requires Advance(s) == Ok(Lookahead(Token(STRING, ms[0].key), At(s, KeyEnd(ms[0]))))
    requires Advance(At(s, KeyEnd(ms[0]))) == Ok(Lookahead(Token(COLON, ":"), At(s, ColonEnd(ms[0]))))
    requires ValueAt(At(s, ColonEnd(ms[0]))) == Ok(Read(String(ms[0].value), At(s, ValueEnd(ms[0]))))
    requires Advance(At(s, ValueEnd(ms[0]))) ==
      Ok(Lookahead(Token(RBRACE, "}"), At(s, |RenderMember(ms[0])| + 1)))
    ensures MembersReadBack(ms, acc, s)
  {
    var m := ms[0];
    assert Collect(acc, ms) == Emplace(acc, m.key, String(m.value));
    MembersLast(Advance(s).value, acc, Advance(At(s, KeyEnd(m))).value, ValueAt(At(s, ColonEnd(m))).value,
      Advance(At(s, ValueEnd(m))).value);
  }

  /** A member, a comma, and the rest of the list. */
  lemma NextMember(ms: seq<Member>, acc: map<string, Value>, s: State, p: State)
    requires |ms| > 1
    requires s.cursor + |RenderMember(ms[0])| + 1 <= |s.text| && p == At(s, |RenderMember(ms[0])| + 1)
    requires Advance(s) == Ok(Lookahead(Token(STRING, ms[0].key), At(s, KeyEnd(ms[0]))))
    requires Advance(At(s, KeyEnd(ms[0]))) == Ok(Lookahead(Token(COLON, ":"), At(s, ColonEnd(ms[0]))))
    requires ValueAt(At(s, ColonEnd(ms[0]))) == Ok(Read(String(ms[0].value), At(s, ValueEnd(ms[0]))))
    requires Advance(At(s, ValueEnd(ms[0]))) == Ok(Lookahead(Token(COMMA, ","), p))
    requires MembersReadBack(ms[1..], Emplace(acc, ms[0].key, String(ms[0].value)), p)
    ensures MembersReadBack(ms, acc, s)
  {
    var m := ms[0];
    assert Collect(acc, ms) == Collect(Emplace(acc, m.key, String(m.value)), ms[1..]);
    MembersStep(Advance(s).value, acc, Advance(At(s, KeyEnd(m))).value, ValueAt(At(s, ColonEnd(m))).value,
      Advance(At(s, ValueEnd(m))).value, Advance(p).value);
  }

  /** One turn of the member loop that ends on a comma. */
  lemma MembersStep(la: Lookahead, acc: map<string, Value>, colon: Lookahead, v: Read<Value>, after: Lookahead, next: Lookahead)
    requires la.current.kind == STRING && Advance(la.rest) == Ok(colon) && colon.current.kind == COLON
    requires ValueAt(colon.rest) == Ok(v) && Advance(v.rest) == Ok(after) && after.current.kind == COMMA
    requires Advance(after.rest) == Ok(next)
    ensures MembersAt(la, acc) == MembersAt(next, Emplace(acc, la.current.value, v.value))
  {
  }

  /** The last turn of the member loop. */
  lemma MembersLast(la: Lookahead, acc: map<string, Value>, colon: Lookahead, v: Read<Value>, after: Lookahead)
    requires la.current.kind == STRING && Advance(la.rest) == Ok(colon) && colon.current.kind == COLON
    requires ValueAt(colon.rest) == Ok(v) && Advance(v.rest) == Ok(after) && after.current.kind != COMMA
    ensures MembersAt(la, acc) == Ok(Parsed(Emplace(acc, la.current.value, v.value), after))
  {
  }

  /** After a `,` the member loop needs another name: a trailing comma is
      rejected. */
  lemma CommaNeedsName(la: Lookahead, acc: map<string, Value>, colon: Lookahead, v: Read<Value>, after: Lookahead, next: Lookahead)
    requires la.current.kind == STRING && Advance(la.rest) == Ok(colon) && colon.current.kind == COLON
    requires ValueAt(colon.rest) == Ok(v) && Advance(v.rest) == Ok(after) && after.current.kind == COMMA
    requires Advance(after.rest) == Ok(next) && next.current.kind != STRING
    ensures MembersAt(la, acc) == Err(Expected("string", next.current))
  {
    MembersStep(la, acc, colon, v, after, next);
  }

  /** A name followed by anything but `:`. */
  lemma ColonMissing(la: Lookahead, acc: map<string, Value>, colon: Lookahead)
    requires la.current.kind == STRING && Advance(la.rest) == Ok(colon) && colon.current.kind != COLON
    ensures MembersAt(la, acc) == Err(Expected(":", colon.current))
  {
  }

  /** A name and `:` followed by something `parseValue` rejects. */
  lemma ValueMissing(la: Lookahead, acc: map<string, Value>, colon: Lookahead, e: Error)
    requires la.current.kind == STRING && Advance(la.rest) == Ok(colon) && colon.current.kind == COLON
    requires ValueAt(colon.rest) == Err(e)
    ensures MembersAt(la, acc) == Err(e)
  {
  }

  /** A `{` and a first token other than `}`: the object fails where its
      member list fails. */
  lemma MembersFail(text: string, open: Lookahead, first: Lookahead, e: Error)
    requires Advance(Start(text)) == Ok(open) && open.current.kind == LBRACE
    requires Advance(open.rest) == Ok(first) && first.current.kind != RBRACE
    requires MembersAt(first, map[]) == Err(e)
    ensures Document(text) == Err(e)
  {
  }

  /** `{` then `}`: the empty object. */
  lemma NoMembers(text: string, open: Lookahead, first: Lookahead)
    requires Advance(Start(text)) == Ok(open) && open.current.kind == LBRACE
    requires Advance(open.rest) == Ok(first) && first.current.kind == RBRACE
    ensures Document(text) == Ok(map[])
  {
  }

  /** `{`, a member list, and the `}` it stops at. */
  lemma MembersClosed(text: string, open: Lookahead, first: Lookahead)
    requires Advance(Start(text)) == Ok(open) && open.current.kind == LBRACE
    requires Advance(open.rest) == Ok(first) && first.current.kind != RBRACE
    requires MembersAt(first, map[]).Ok? && MembersAt(first, map[]).value.next.current.kind == RBRACE
    ensures Document(text) == Ok(MembersAt(first, map[]).value.value)
  {
  }

  // ---------------------------------------------------------------------
  // Whole objects

  /** Where consecutive pieces of a text lie. */
  lemma Layout2(a: string, b: string, u: string)
    ensures Within(Start(a + b + u), a) && Within(At(Start(a + b + u), |a|), b)
  {
    StartsWith(a + b, u);
    WithinSplit(Start(a + b + u), a, b);
  }

  lemma Layout3(a: string, b: string, c: string, u: string)
    ensures var s := Start(a + b + c + u);
      Within(s, a) && Within(At(s, |a|), b) && Within(At(s, |a| + |b|), c)
  {
    var s := Start(a + b + c + u);
    StartsWith(a + b + c, u);
    WithinSplit(s, a + b, c);
    WithinSplit(s, a, b);
  }

  lemma Layout4(a: string, b: string, c: string, d: string, u: string)
    ensures var s := Start(a + b + c + d + u);
      Within(s, a) && Within(At(s, |a|), b) && Within(At(s, |a| + |b|), c) && Within(At(s, |a| + |b| + |c|), d)
  {
    var s := Start(a + b + c + d + u);
    StartsWith(a + b + c + d, u);
    WithinSplit(s, a + b + c, d);
    WithinSplit(s, a + b, c);
    WithinSplit(s, a, b);
  }

  /** `parse` reads back every object written out with whitespace around
      its tokens: the members are all stored, the first value under each
      name wins, and whatever follows the closing `}` is never read. */
  lemma RoundTrip(lead: string, ms: seq<Member>, u: string)
    requires Blank(lead) && AllWritable(ms)
    ensures Document(RenderObject(lead, ms) + u) == Ok(Collect(map[], ms))
  {
    var open, body := lead + "{", RenderMembers(ms) + "}";
    assert RenderObject(lead, ms) + u == open + body + u;
    var s := Start(open + body + u);
    var inner := At(s, |lead| + 1);
    Layout2(open, body, u);
    assert At(s, |open|) == inner;
    PunctuationAt(s, lead, '{');
    var la := Lookahead(Token(LBRACE, "{"), inner);
    assert Advance(Start(RenderObject(lead, ms) + u)) == Ok(la);
    if ms == [] {
      PunctuationAt(inner, "", '}');
      NoMembers(RenderObject(lead, ms) + u, la, Advance(inner).value);
    } else {
      MembersRoundTrip(ms, map[], inner);
      MembersClosed(RenderObject(lead, ms) + u, la, Advance(inner).value);
    }
  }

  /** Every name in a parsed object is found by `getValue`, with the first
      value written under it; no other name is. */
  lemma ParsedNames(lead: string, ms: seq<Member>, u: string, name: string)
    requires Blank(lead) && AllWritable(ms)
    ensures Document(RenderObject(lead, ms) + u).Ok?
    ensures name in Document(RenderObject(lead, ms) + u).value <==> exists i | 0 <= i < |ms| :: ms[i].key == name
    ensures forall i | 0 <= i < |ms| && ms[i].key == name && (forall j | 0 <= j < i :: ms[j].key != name) ::
      Document(RenderObject(lead, ms) + u).value[name] == String(ms[i].value)
  {
    RoundTrip(lead, ms, u);
    CollectSpec(map[], ms);
  }

  // ---------------------------------------------------------------------
  // Malformed members

  /** After `{`, a `{`, `:` or `,` where the first name must be is
      rejected. */
  lemma NameMustBeString(lead: string, w: string, c: char, u: string)
    requires Blank(lead) && Blank(w) && IsPunctuation(c) && c != '}'
    ensures Document(lead + "{" + (w + [c]) + u) == Err(Expected("string", Token(PunctuationKind(c), [c])))
  {
    var s := Start(lead + "{" + (w + [c]) + u);
    var p1 := At(s, |lead| + 1);
    Layout2(lead + "{", w + [c], u);
    assert At(s, |lead + "{"|) == p1;
    PunctuationAt(s, lead, '{');
    PunctuationAt(p1, w, c);
  }

  /** A name not followed by `:` is rejected. */
  lemma ColonRequired(lead: string, w1: string, name: string, w2: string, c: char, u: string)
    requires Blank(lead) && Blank(w1) && Blank(w2) && '"' !in name && IsPunctuation(c) && c != ':'
    ensures Document(lead + "{" + (w1 + Quote(name)) + (w2 + [c]) + u)
      == Err(Expected(":", Token(PunctuationKind(c), [c])))
  {
    var text := lead + "{" + (w1 + Quote(name)) + (w2 + [c]) + u;
    var s := Start(text);
    var p1 := At(s, |lead| + 1);
    var p2 := At(p1, |w1| + |name| + 2);
    Layout3(lead + "{", w1 + Quote(name), w2 + [c], u);
    assert At(s, |lead + "{"|) == p1;
    assert At(s, |lead + "{"| + |w1 + Quote(name)|) == p2;
    PunctuationAt(s, lead, '{');
    QuotedAt(p1, w1, name);
    PunctuationAt(p2, w2, c);
    var first := Lookahead(Token(STRING, name), p2);
    var colon := Lookahead(Token(PunctuationKind(c), [c]), At(p2, |w2| + 1));
    ColonMissing(first, map[], colon);
    MembersFail(text, Lookahead(Token(LBRACE, "{"), p1), first, Expected(":", colon.current));
  }

  /** Where a value must be, only a string is accepted: a brace, a colon or
      a comma is rejected by `parseValue`, any other character (the first
      of a number, `true`, `false` or `null`) already by the lexer. */
  lemma ValueMustBeString(lead: string, w1: string, name: string, w2: string, w3: string, c: char, u: string)
    requires Blank(lead) && Blank(w1) && Blank(w2) && Blank(w3) && '"' !in name
    requires !IsSpace(c) && c != '"'
    ensures Document(lead + "{" + (w1 + Quote(name)) + (w2 + ":") + (w3 + [c]) + u)
      == Err(if IsPunctuation(c) then Expected("<string>", Token(PunctuationKind(c), [c])) else InvalidToken(c))
  {
    var text := lead + "{" + (w1 + Quote(name)) + (w2 + ":") + (w3 + [c]) + u;
    var s := Start(text);
    var p1 := At(s, |lead| + 1);
    var p2 := At(p1, |w1| + |name| + 2);
    var p3 := At(p2, |w2| + 1);
    Layout4(lead + "{", w1 + Quote(name), w2 + ":", w3 + [c], u);
    assert At(s, |lead + "{"|) == p1;
    assert At(s, |lead + "{"| + |w1 + Quote(name)|) == p2;
    assert At(s, |lead + "{"| + |w1 + Quote(name)| + |w2 + ":"|) == p3;
    PunctuationAt(s, lead, '{');
    QuotedAt(p1, w1, name);
    PunctuationAt(p2, w2, ':');
    ValueRejected(p3, w3, c);
    var first := Lookahead(Token(STRING, name), p2);
    var e := if IsPunctuation(c) then Expected("<string>", Token(PunctuationKind(c), [c])) else InvalidToken(c);
    ValueMissing(first, map[], Lookahead(Token(COLON, ":"), p3), e);
    MembersFail(text, Lookahead(Token(LBRACE, "{"), p1), first, e);
  }
}
