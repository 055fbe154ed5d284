/** The cases of the library's Catch suite (test/tests.cpp), each stated as
    what the specification of jsonlib's lexer and `parse` gives for that
    input. A `REQUIRE_THROWS_AS` case is an `Err` result, and the error
    named is the one the source throws first. */
module JsonlibTests {
  import opened Results
  import opened CppStd
  import opened Jsonlib
  import opened JsonlibFacts
  import opened JsonlibRoundTrip

  /** TestEmptyStringThrows: the first token is NONE, not `{`. */
  lemma EmptyStringThrows()
    ensures Document("") == Err(Expected("{", NoneToken))
  {
    MustOpenWithBrace("", 0);
  }

  /** TestEmptyObjectBracketsDoesNotThrow. */
  lemma EmptyObjectBrackets()
    ensures Document("{}") == Ok(map[])
  {
    EmptyObject("{}", 0, 1);
  }

  /** TestEmptyObjectBracketsDoesNotThrow_TestForSpaces. */
  lemma EmptyObjectBracketsWithSpaces()
    ensures Document("   {   }  ") == Ok(map[])
  {
    EmptyObject("   {   }  ", 3, 7);
  }

  /** TestMissingInitialObjectBracketThrows. */
  lemma MissingInitialBracketThrows()
    ensures Document("}") == Err(Expected("{", Token(RBRACE, "}")))
  {
    MustOpenWithBrace("}", 0);
  }

  /** TestMissingClosingObjectBracketThrows: the source throws at the name
      check, which finds NONE, before it reaches the check for `}`. */
  lemma MissingClosingBracketThrows()
    ensures Document("{") == Err(Expected("string", NoneToken))
  {
    UnclosedBrace("{", 0);
  }

  /** TestLexingString. */
  lemma LexingString()
    ensures NextToken(Start("\"foo\"")) == Lexed(Ok(Token(STRING, "foo")), LexerState("\"foo\"", 5))
  {
    StringToken(Start("\"foo\""), 0, 4);
    assert "\"foo\""[1..4] == "foo";
  }

  /** TestLexingStringMissingTerminatorThrows. */
  lemma LexingStringMissingTerminatorThrows()
    ensures NextToken(Start("\"foo")).result == Err(UnterminatedString)
  {
    assert QuoteFrom("\"foo", 1) == 4;
    QuotedToken(Start("\"foo"), 0);
  }

  /** TestParsingStringPairObject: `getValue("foo")` finds a value. */
  lemma ParsingStringPairObject()
    ensures Document("{ \"foo\" : \"bar\" }") == Ok(map["foo" := String("bar")])
  {
    var m := Member(" ", "foo", " ", " ", "bar", " ");
    assert "{ \"foo\" : \"bar\" }" == RenderObject("", [m]) + "";
    RoundTrip("", [m], "");
  }

  /** The text of TestParsingObjectList: its literal is continued with a
      backslash at the end of each line, so the pieces are joined with no
      newline between them. */
  const ObjectListText: string :=
    "{" + "        \"foo\" : \"bar\" ," + "        \"abc\" : \"def\"" + "    }"

  /** The two members of that text, with the whitespace around each. */
  const ObjectListMembers: seq<Member> := [
    Member("        ", "foo", " ", " ", "bar", " "),
    Member("        ", "abc", " ", " ", "def", "    ")
  ]

  lemma ObjectListWritable()
    ensures AllWritable(ObjectListMembers)
  {
    assert Writable(ObjectListMembers[0]);
    assert Writable(ObjectListMembers[1]);
  }

  lemma ObjectListRendered()
    ensures ObjectListText == RenderObject("", ObjectListMembers) + ""
  {
    var m1 := ObjectListMembers[0];
    var m2 := ObjectListMembers[1];
    FirstLineRendered();
    SecondLineRendered();
    assert ObjectListMembers[1..] == [m2];
    assert RenderMembers(ObjectListMembers) == (RenderMember(m1) + ",") + RenderMember(m2);
  }

  lemma FirstLineRendered()
    ensures RenderMember(ObjectListMembers[0]) + "," == "        \"foo\" : \"bar\" ,"
  {
    assert Quote("foo") == "\"foo\"" && Quote("bar") == "\"bar\"";
  }

  lemma SecondLineRendered()
    ensures RenderMember(ObjectListMembers[1]) == "        \"abc\" : \"def\"" + "    "
  {
    assert Quote("abc") == "\"abc\"" && Quote("def") == "\"def\"";
  }

  lemma ObjectListCollected()
    ensures Collect(map[], ObjectListMembers) == map["foo" := String("bar"), "abc" := String("def")]
  {
    var one := Emplace(map[], "foo", String("bar"));
    assert "abc" !in one;
    assert ObjectListMembers[1..] == [ObjectListMembers[1]];
    assert Collect(map[], ObjectListMembers) == Collect(one, [ObjectListMembers[1]]);
  }

  /** TestParsingObjectList: both names are found. */
  lemma ParsingObjectList()
    ensures Document(ObjectListText) == Ok(map["foo" := String("bar"), "abc" := String("def")])
  {
    ObjectListWritable();
    ObjectListRendered();
    ObjectListCollected();
    RoundTrip("", ObjectListMembers, "");
  }
}
