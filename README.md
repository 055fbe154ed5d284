# jsonlib in Dafny

This project models the two generations of a small hand-written C++ JSON
reader and proves properties of the model. Both generations lex an in-memory
`std::string` and parse its root object by recursive descent.

- **jsonpp** (`jsonpp.cpp`, `jsonpp.hpp`) is the current generation.
  - `detail::Lexer` keeps `_cursor`, `_line` and `_pos` and dispatches on one
    character at a time.
  - It has sub-scanners for strings, the words `true`/`false`/`null`, and
    numbers; numbers go through a five-state machine.
  - `detail::Parser` holds one lookahead token, `currentToken`. It fills a
    `json::Object` (a map) and `json::Array`s (a vector) in place.
- **jsonlib** (`jsonlib.cpp`) is the earlier generation. Its lexer knows only
  `{ } " : ,`. Its static `parseObject` reads a flat object whose values are
  strings. The Catch cases in `test/tests.cpp` are written against this
  generation.

## How the model is built

- The source's state-changing code stays imperative:
  - Each `Lexer` is a class whose methods move `cursor` (and `line`/`pos` in
    jsonpp) with the source's loops.
  - The jsonpp `Parser` is a class that reassigns `currentToken`.
  - `Object` and `Array` are classes whose `AddValue` updates a `map` or a
    `seq` field.
- Every method is proved equal to a pure specification function of the old
  state:
  - `Lexed(r, Snapshot()) == NextToken(old(Snapshot()))` for `getToken`.
  - `Agrees(..., ObjectAt(old(...)), ...)` for `parseObject`, and so on.
- The properties are proved as lemmas about those functions:
  - token by token in `jsonpp_lexer_facts.dfy` and `jsonlib_facts.dfy`;
  - parser step by step in `jsonpp_parser_facts.dfy`;
  - as round trips in `jsonpp_roundtrip.dfy` and `jsonlib_roundtrip.dfy`,
    where rendering an object and parsing the text back gives the map its
    members make, with the first value under a name winning;
  - as the concrete Catch cases in `jsonlib_tests.dfy`.
- Every `throw parse_exception(...)` becomes an `Err` of a small error
  datatype that says which check failed and on which token or character.
- jsonpp keeps one further error, `NotANumber`: it stands for the
  `std::invalid_argument` that `std::stod` throws on a literal without digits.

Behaviour of the code that the model keeps (and proves) as written:

- Neither lexer translates escapes: a string is the text up to the next `"`.
- `emplace` keeps the first value stored under a name; a later duplicate is
  ignored.
- In jsonpp:
  - `_pos` counts only whitespace skipped between tokens. A newline skipped
    there sets `_line` one higher and resets `_pos` to 1. Characters consumed
    by a token never move `_line` or `_pos`, and every token carries the
    line and position the skipped whitespace led to.
  - The whitespace that ends a number (jsonpp.cpp:102-106) is consumed by
    `lexNumber`, not by the whitespace loop, so a newline there is not
    counted: in `1` followed by a newline and `}`, the `}` is reported on
    line 1, and every later token on a line one too low.
  - A number ends only at whitespace or at the end of the text. So `1,`,
    `1}`, `1]` and `1e5` are rejected, and the renderer of the round trip
    writes a space after every number.
  - In the `SIGN` state a non-digit is consumed and dropped, so `-x1` lexes
    as `-1`. A lone sign reaches `std::stod` and fails there.
  - `parseValue` has no branch for `{`. A parsed document therefore never
    holds an object inside a member, however deeply arrays nest.
  - The `NONE` token at the end of the text is default-constructed, with
    line 1 and position 1 (`jsonpp.hpp:124`).
- In both generations, text after the root object's closing `}` is never read.
- In jsonlib:
  - `"{"` fails at the name check (`jsonlib.cpp:121-123`), because the `NONE`
    token found there is not a string. The check for the closing brace at
    `jsonlib.cpp:149-152` is never reached for that input.
  - `jsonlib.h` does not match `jsonlib.cpp`. It declares an empty `Object`
    and a `getToken` that returns `std::string`, and it has no `String` and
    no `lexString`. The model follows `jsonlib.cpp`, where a token is a pair
    of a kind and a text.
- The model also follows `jsonpp.cpp` over `jsonpp.hpp`, whose `Lexer`
  declares members with other signatures (`lexBool(expected)`,
  `lexNumber()`, `processState`, …) that have no definitions.

Files, in dependency order:

| file | contents |
|---|---|
| `results.dfy` | `Option` and `Result` |
| `cpp_std.dfy` | `std::isspace`, `std::isdigit` and `std::map::emplace` |
| `jsonpp_value.dfy` | jsonpp's `Value` datatype and the `Object` and `Array` classes |
| `jsonpp_lexer.dfy` | jsonpp's tokens, scanner specification functions and `Lexer` class |
| `jsonpp_lexer_facts.dfy` | properties of the jsonpp lexer in terms of the text |
| `jsonpp_parser.dfy` | jsonpp's parser specification functions and `Parser` class |
| `jsonpp_parser_facts.dfy` | parser steps and properties |
| `jsonpp_roundtrip.dfy` | renderer and round-trip theorem for jsonpp |
| `jsonlib.dfy` | the whole of jsonlib: specification, `Lexer`, `Object`, parsing methods |
| `jsonlib_facts.dfy` | properties of the jsonlib lexer and of the documents it rejects |
| `jsonlib_roundtrip.dfy` | renderer, round-trip theorem and malformed members for jsonlib |
| `jsonlib_tests.dfy` | the Catch cases of `test/tests.cpp` as lemmas |

## Model

| member | source | states |
|---|---|---|
| CppStd.Emplace | jsonpp.cpp:19-22 | `emplace` adds the key, keeps an existing key's value, and leaves every other entry as it was |
| JsonppValue.Object.constructor | jsonpp.hpp:61 | a new object holds no members |
| JsonppValue.Object.GetValue | jsonpp.cpp:10-17 | null (None) exactly when the name is absent, otherwise the stored value |
| JsonppValue.Object.AddValue | jsonpp.cpp:19-22 | the map becomes `Emplace` of the old one; an existing name keeps its value, so `GetValue` then returns the first value stored |
| JsonppValue.Array.constructor | jsonpp.hpp:43 | a new array is empty and has size 0 |
| JsonppValue.Array.AddValue | jsonpp.cpp:32-35 | the value is appended after all earlier ones and the size grows by one |
| JsonppValue.Array.Size | jsonpp.cpp:37-40 | the size is the number of values appended |
| JsonppLexer.SkipWhitespace | jsonpp.cpp:208-216 | skipping whitespace keeps the text and never moves the cursor back |
| JsonppLexer.ScanString | jsonpp.cpp:186-201 | the string scan never touches line or position; a string token carries the scan's line and position and consumes at least its closing quote |
| JsonppLexer.ScanSequence | jsonpp.cpp:161-169 | the word scan only moves the cursor forward and never touches line or position |
| JsonppLexer.ValueSequence | jsonpp.cpp:159-170 | the same for `lexValueSequence` started on its initial character |
| JsonppLexer.ScanNumber | jsonpp.cpp:101-156 | the number scan never touches line or position, and a success is a `NUMBER` token at the scan's line and position |
| JsonppLexer.LexNumberSpec | jsonpp.cpp:92-157 | `lexNumber` only moves the cursor forward, and a success is a `NUMBER` token |
| JsonppLexer.NextToken | jsonpp.cpp:205-247 | `getToken` leaves line and position where the whitespace loop left them; every token but `NONE` consumes a character and is tagged with that line and position; `NONE` is the default token, at the end of the text, after only whitespace |
| JsonppLexer.Lexer.constructor | jsonpp.cpp:84-85 | a new lexer starts at cursor 0, line 1, position 1 |
| JsonppLexer.Lexer.Copy | jsonpp.cpp:366-367 | the parser's copy of the lexer has the same fields |
| JsonppLexer.Lexer.CharAt | jsonpp.cpp:208 | `_text[_cursor]` is the character there, and at the end the terminating `'\0'`, which is not whitespace |
| JsonppLexer.Lexer.IsDoneReading | jsonpp.cpp:87-90 | true exactly when the cursor is at the end of the text |
| JsonppLexer.Lexer.LexNumber | jsonpp.cpp:92-157 | the number loop computes `LexNumberSpec`: token or error and the new fields |
| JsonppLexer.Lexer.LexValueSequence | jsonpp.cpp:159-170 | the word loop computes `ValueSequence` |
| JsonppLexer.Lexer.LexBool | jsonpp.cpp:172-176 | a `JBOOL` token with the word's text, tagged with the current line and position |
| JsonppLexer.Lexer.LexNull | jsonpp.cpp:178-182 | a `JNULL` token with the text of the `null` scan |
| JsonppLexer.Lexer.LexString | jsonpp.cpp:184-202 | the string loop computes `ScanString` |
| JsonppLexer.Lexer.GetToken | jsonpp.cpp:205-247 | `getToken` computes `NextToken`: the token or error and the new cursor, line and position |
| JsonppLexerFacts.NewlinesAppend | jsonpp.cpp:209-214 | appending a character adds one to the newline count exactly when it is `\n` |
| JsonppLexerFacts.SinceNewlineCons | jsonpp.cpp:209-214 | how the column count after the last newline changes when a character is put in front |
| JsonppLexerFacts.SkipWhitespaceSpec | jsonpp.cpp:208-216 | the loop skips exactly the maximal whitespace run; each `\n` adds a line and resets the position to 1, any other whitespace adds one to the position |
| JsonppLexerFacts.WhitespaceStep | jsonpp.cpp:209-215 | one turn of the whitespace loop in front of a skipped run |
| JsonppLexerFacts.SkipsTo | jsonpp.cpp:208-216 | a run of whitespace ending before a non-space character is where the loop stops |
| JsonppLexerFacts.EndOfInput | jsonpp.cpp:218-246 | with only whitespace left, `getToken` returns `NONE` with empty text and the default line and position, and at the very end consumes nothing |
| JsonppLexerFacts.StructuralToken | jsonpp.cpp:219-233 | each of `{ } : , [ ]` is a token of its own kind with that one character as text; the cursor ends just past it, at the line and position of the skipped whitespace |
| JsonppLexerFacts.InvalidCharacter | jsonpp.cpp:240-244 | a character outside `{ } : , [ ] " t f n + -` and the digits raises an error naming it, and is consumed |
| JsonppLexerFacts.ScanStringSpec | jsonpp.cpp:184-201 | a string token holds exactly the characters up to the next `"`, verbatim, and ends the cursor just past it; without a quote left the scan fails at the end of the text |
| JsonppLexerFacts.ScanStringTo | jsonpp.cpp:188-201 | the scan stops at the first `"` and returns what lies before it |
| JsonppLexerFacts.StringToken | jsonpp.cpp:224-225 | after `"`, `getToken` succeeds exactly when a further `"` follows, and returns the text between the two |
| JsonppLexerFacts.ScanSequenceSpec | jsonpp.cpp:162-168 | a word scan succeeds exactly when the characters read match the word; the result is the matched prefix, and a failure names the first character that differs |
| JsonppLexerFacts.ScanSequenceOk | jsonpp.cpp:162-169 | what a successful word scan consumed and returned |
| JsonppLexerFacts.ScanSequenceErr | jsonpp.cpp:163-166 | where a failing word scan stopped and which character it names |
| JsonppLexerFacts.ValueSequenceSpec | jsonpp.cpp:159-170 | `lexValueSequence` returns a prefix of the word, the whole word unless the text ran out, or fails on a mismatching character |
| JsonppLexerFacts.WordPrefix | jsonpp.cpp:172-176 | the text of a `t`/`f` scan is a prefix of the word, and is `"true"` exactly when the input spells `true` |
| JsonppLexerFacts.BoolToken | jsonpp.cpp:234-237 | a `t` or `f` gives a `JBOOL` token whose text is a prefix of `true` or `false`; the parser reads true exactly when the input spells `true` |
| JsonppLexerFacts.NumberStopsAtWhitespace | jsonpp.cpp:102-106 | a number scan ends at the first whitespace, which it consumes, or at the end of the text; whitespace never makes it fail |
| JsonppLexerFacts.NumberScanStep | jsonpp.cpp:102-154 | one turn of the number loop on a character that does not end it |
| JsonppLexerFacts.NumberKeepsText | jsonpp.cpp:115-151 | outside `SIGN` every consumed character but the terminating whitespace joins the literal verbatim |
| JsonppLexerFacts.DigitNumberText | jsonpp.cpp:92-157 | a number starting with a digit is the consumed text verbatim, up to the terminating whitespace |
| JsonppLexerFacts.StayingRun | jsonpp.cpp:108-151 | a run of characters that keeps the state: dropped in `SIGN`, appended in every other state |
| JsonppLexerFacts.DigitsStay | jsonpp.cpp:115-151 | digits keep `DIGIT`, `DECIMAL` and `EXPONENT_DIGIT` where they are |
| JsonppLexerFacts.RunThenReject | jsonpp.cpp:115-151 | after such a run, a character the state rejects fails the scan, naming state and character |
| JsonppLexerFacts.NewlineAfterNumberNotCounted | jsonpp.cpp:102-106 | the newline ending the number in `1`, newline, `}` is consumed by the number scan and not counted, so the `}` is reported on line 1 |
| JsonppLexerFacts.NumberThenNewline | jsonpp.cpp:102-106 | in that text, `1` is a `NUMBER` token at line 1, position 1, and the scan consumes the newline without moving line or position |
| JsonppLexerFacts.NewlineBetweenTokensCounted | jsonpp.cpp:209-212 | a newline skipped between `[` and `]` is counted: the `]` is on line 2, position 1 |
| JsonppLexerFacts.DigitsThenDelimiter | jsonpp.cpp:115-124 | digits followed by anything but a digit, `.` or whitespace fail in `DIGIT`: `1,`, `1}`, `1]` and `1e5` are rejected |
| JsonppLexerFacts.DigitsThenPoint | jsonpp.cpp:115-121 | digits and then `.` move `DIGIT` to `DECIMAL`, keeping all of them |
| JsonppLexerFacts.SecondDecimalPoint | jsonpp.cpp:125-134 | a second `.` fails in `DECIMAL` |
| JsonppLexerFacts.FractionThenPoint | jsonpp.cpp:125-134 | in `DECIMAL`, digits and then `.` fail on that `.` |
| JsonppLexerFacts.ExponentSigns | jsonpp.cpp:135-137 | `EXPONENT` keeps any run of `+`/`-` before its first digit |
| JsonppLexerFacts.ExponentDigitsOnly | jsonpp.cpp:145-151 | `EXPONENT_DIGIT` accepts only digits; anything else but whitespace fails |
| JsonppLexerFacts.SignDropsNonDigits | jsonpp.cpp:109-114 | after a sign, non-digits are consumed but not appended; the first digit joins the sign and moves to `DIGIT` |
| JsonppParser.Advance | jsonpp.cpp:256 | reading a token keeps the text and never moves the cursor back; a token other than `NONE` moves it forward |
| JsonppParser.ValueAt | jsonpp.cpp:307-323 | `parseValue` succeeds only on `STRING`, `[`, `JBOOL`, `JNULL`, `NUMBER`, and on any other token (including `{`) fails naming it; a scalar leaves the token current; `[` gives an array and leaves its `]` current |
| JsonppParser.ArrayAt | jsonpp.cpp:278-305 | a parsed array ends on its `]` |
| JsonppParser.ElementsAt | jsonpp.cpp:286-304 | the element loop ends only on `]` |
| JsonppParser.MembersAt | jsonpp.cpp:325-359 | the member loop starts only on a string and ends on a token other than `,` |
| JsonppParser.ObjectAt | jsonpp.cpp:254-276 | a parsed object ends on its `}` and has consumed text |
| JsonppParser.Parser.constructor | jsonpp.cpp:366-367 | the parser copies the lexer and starts with the default token |
| JsonppParser.Parser.ReadToken | jsonpp.cpp:256 | `currentToken = lexer.getToken()` is `Advance` of the lexer's state |
| JsonppParser.Parser.ParseValue | jsonpp.cpp:307-323 | `parseValue` computes `ValueAt`, result and new parser state |
| JsonppParser.Parser.ParseArray | jsonpp.cpp:278-305 | `parseArray` builds a fresh array holding what `ArrayAt` specifies |
| JsonppParser.Parser.ParseValueList | jsonpp.cpp:325-359 | `parseValueList` builds a fresh object holding what `MembersAt` specifies |
| JsonppParser.Parser.ParseObject | jsonpp.cpp:254-276 | `parseObject` computes `ObjectAt` |
| JsonppParser.Parser.Parse | jsonpp.cpp:361-364 | `Parser::parse` is `parseObject` |
| JsonppParser.Parse | jsonpp.cpp:42-47 | `json::parse(text)` returns the object `Document(text)` specifies, or its error |
| JsonppParserFacts.ValueAtScalar | jsonpp.cpp:309-318 | a string, boolean, null or convertible number token becomes that scalar; a `JBOOL` is true exactly when its text is `"true"` |
| JsonppParserFacts.ValueAtEmptyArray | jsonpp.cpp:280-284 | `[` directly followed by `]` is the empty array |
| JsonppParserFacts.ValueAtArray | jsonpp.cpp:286-304 | `[` followed by anything else runs the element loop |
| JsonppParserFacts.ElementsLast | jsonpp.cpp:289-302 | an element followed by `]` ends the array, appended last |
| JsonppParserFacts.ElementsNext | jsonpp.cpp:289-298 | an element followed by `,` is appended and the loop goes on |
| JsonppParserFacts.CommaNeedsValue | jsonpp.cpp:291-298 | after `,` a token that starts no value, for example the `]` of a trailing comma, is rejected |
| JsonppParserFacts.MembersLast | jsonpp.cpp:331-357 | a member not followed by `,` ends the list, stored by `emplace` |
| JsonppParserFacts.MembersNext | jsonpp.cpp:331-357 | a member followed by `,` is stored and the loop goes on |
| JsonppParserFacts.CommaNeedsName | jsonpp.cpp:349-357 | after `,` anything but a string name, for example the `}` of a trailing comma, is rejected |
| JsonppParserFacts.DocumentEmpty | jsonpp.cpp:256-266 | `{` then `}` parses to the empty object |
| JsonppParserFacts.DocumentMembers | jsonpp.cpp:268-275 | `{`, a member list and `}` parse to the list's members |
| JsonppParserFacts.MembersKeepEarlier | jsonpp.cpp:327-358 | the member loop only adds names: earlier names keep their values and the first name read is stored |
| JsonppParserFacts.ElementsInOrder | jsonpp.cpp:286-298 | the element loop appends: earlier elements stay in front, in order, and at least one follows |
| JsonppParserFacts.ValueHasNoObjects | jsonpp.cpp:307-323 | no value `parseValue` builds holds an object, at any depth |
| JsonppParserFacts.ArrayHasNoObjects | jsonpp.cpp:278-305 | no element of a parsed array holds an object |
| JsonppParserFacts.ElementsHaveNoObjects | jsonpp.cpp:288-298 | the element loop adds no object |
| JsonppParserFacts.MembersHaveNoObjects | jsonpp.cpp:329-357 | the member loop stores no object |
| JsonppParserFacts.DocumentHasNoNestedObjects | jsonpp.cpp:307-323 | no member of a parsed document holds an object |
| JsonppParserFacts.BlankTextRejected | jsonpp.cpp:256-259 | empty or blank text is rejected: `{` expected, `NONE` found |
| JsonppParserFacts.EmptyObject | jsonpp.cpp:256-266 | whitespace, `{`, whitespace and `}` give the empty object, whatever follows |
| JsonppParserFacts.NotAnObject | jsonpp.cpp:256-259 | a document whose first character after whitespace is not `{` is rejected: `{` expected and the first token named, or the lexer's error when it reads no token; a structural character is named by its own token type |
| JsonppRoundTrip.DigitRun | jsonpp.cpp:115-117 | the length of the leading digit run: all digits, and the next character is not one |
| JsonppRoundTrip.SignRun | jsonpp.cpp:135-137 | the length of the leading run of signs |
| JsonppRoundTrip.CollectSpec | jsonpp.cpp:19-22 | the map built from members in order holds every name; earlier names keep their values; a new name gets its first value |
| JsonppRoundTrip.CollectKeys | jsonpp.cpp:19-22 | which names the built map holds |
| JsonppRoundTrip.CollectKeeps | jsonpp.cpp:19-22 | names already present keep their values |
| JsonppRoundTrip.CollectFirst | jsonpp.cpp:19-22 | a new name gets the first value given for it |
| JsonppRoundTrip.StringAt | jsonpp.cpp:224-225 | a quoted string without quotes inside is one `STRING` token with that text |
| JsonppRoundTrip.WordAt | jsonpp.cpp:159-170 | `true`, `false` or `null` in the text is read as that word |
| JsonppRoundTrip.BoolAt | jsonpp.cpp:234-237 | `true` or `false` in the text is one `JBOOL` token |
| JsonppRoundTrip.NullAt | jsonpp.cpp:238-239 | `null` in the text is one `JNULL` token |
| JsonppRoundTrip.NumberScan | jsonpp.cpp:102-156 | a number literal followed by a space is read back verbatim by the state machine, the space consumed |
| JsonppRoundTrip.NumberAt | jsonpp.cpp:240-241 | such a literal is one `NUMBER` token with that text |
| JsonppRoundTrip.LiteralConvertible | jsonpp.cpp:318 | a literal the renderer writes is one `std::stod` accepts |
| JsonppRoundTrip.ScalarRoundTrip | jsonpp.cpp:307-318 | a string, number, boolean or `null` reads back as itself |
| JsonppRoundTrip.ValueRoundTrip | jsonpp.cpp:307-323 | `parseValue` reads every renderable value back, arrays nested to any depth |
| JsonppRoundTrip.EmptyArrayRoundTrip | jsonpp.cpp:280-284 | `[]` reads back as the empty array |
| JsonppRoundTrip.ArrayRoundTrip | jsonpp.cpp:278-305 | `parseArray` reads a rendered array back, elements in order |
| JsonppRoundTrip.ElementsRoundTrip | jsonpp.cpp:286-304 | the element loop reads rendered elements back in order and stops at `]` |
| JsonppRoundTrip.MemberRoundTrip | jsonpp.cpp:331-345 | a rendered member reads back as its name, `:` and value |
| JsonppRoundTrip.MembersRoundTrip | jsonpp.cpp:325-359 | the member loop reads rendered members back into the map `emplace` builds, and stops at `}` |
| JsonppRoundTrip.RoundTrip | jsonpp.cpp:42-47 | parsing a rendered object gives the map of its members, the first value under a name winning, whatever text follows |
| Jsonlib.SkipWhitespace | jsonlib.cpp:65-67 | skipping whitespace keeps the text and never moves the cursor back |
| Jsonlib.ScanString | jsonlib.cpp:43-58 | a string token consumes at least its closing quote |
| Jsonlib.NextToken | jsonlib.cpp:62-86 | `getToken` keeps the text; every token but `NONE` consumes a character; `NONE` has empty text and is returned only at the end |
| Jsonlib.Advance | jsonlib.cpp:105 | reading a token never moves the cursor back, and a token other than `NONE` moves it forward |
| Jsonlib.ValueAt | jsonlib.cpp:89-97 | a value read consumes text |
| Jsonlib.MembersAt | jsonlib.cpp:117-147 | the member loop starts only on a string, consumes text, and ends on a token other than `,` |
| Jsonlib.ObjectAt | jsonlib.cpp:103-155 | a parsed object has consumed text |
| Jsonlib.Lexer.constructor | jsonlib.cpp:33-34 | a new lexer starts at cursor 0 |
| Jsonlib.Lexer.CharAt | jsonlib.cpp:65 | `_text[_cursor]`, with `'\0'`, which is not whitespace, at the end |
| Jsonlib.Lexer.IsDoneReading | jsonlib.cpp:36-39 | true exactly when the cursor is at the end |
| Jsonlib.Lexer.LexString | jsonlib.cpp:41-59 | the string loop computes `ScanString` |
| Jsonlib.Lexer.GetToken | jsonlib.cpp:62-86 | `getToken` computes `NextToken` |
| Jsonlib.Object.constructor | jsonlib.cpp:114 | a new object holds no members |
| Jsonlib.Object.GetValue | jsonlib.cpp:9-16 | null (None) exactly when the name is absent, otherwise the stored value |
| Jsonlib.Object.AddValue | jsonlib.cpp:18-21 | the map becomes `Emplace` of the old one; `GetValue` then returns the first value stored under the name |
| Jsonlib.NextTok | jsonlib.cpp:105 | `nextTok = lexer.getToken()` is `Advance` of the lexer's state |
| Jsonlib.ParseValue | jsonlib.cpp:89-97 | the static `parseValue` computes `ValueAt` |
| Jsonlib.ParseMembers | jsonlib.cpp:117-147 | the `do … while` loop computes `MembersAt`: the members stored and the token that ended it |
| Jsonlib.ParseObject | jsonlib.cpp:103-155 | the static `parseObject` builds a fresh object holding what `ObjectAt` specifies |
| Jsonlib.Parse | jsonlib.cpp:157-161 | `json::parse(text)` returns the object `Document(text)` specifies, or its error |
| JsonlibFacts.SkipWhitespaceStops | jsonlib.cpp:65-67 | the whitespace loop passes only whitespace and stops at a non-space character or at the end |
| JsonlibFacts.SkipsTo | jsonlib.cpp:65-67 | that stopping point is the only one |
| JsonlibFacts.QuoteFrom | jsonlib.cpp:45-52 | the index of the first `"` at or after a position, or the end |
| JsonlibFacts.ScanStringSpec | jsonlib.cpp:41-59 | `lexString` returns everything up to the next `"` and leaves the cursor just past it; without one it fails at the end |
| JsonlibFacts.EndOfInput | jsonlib.cpp:62-86 | `getToken` returns `NONE` exactly when only whitespace is left, and then stops at the end |
| JsonlibFacts.PunctuationToken | jsonlib.cpp:70-80 | after whitespace, each of `{ } : ,` is a token of its own kind with that character as text |
| JsonlibFacts.QuotedToken | jsonlib.cpp:75-76 | after whitespace, `"` starts a string running to the next `"`, or fails when there is none |
| JsonlibFacts.StringToken | jsonlib.cpp:75-76 | a string token is the text between two quotes |
| JsonlibFacts.InvalidCharacter | jsonlib.cpp:81-83 | every other character after whitespace is rejected, naming it |
| JsonlibFacts.MustOpenWithBrace | jsonlib.cpp:105-108 | without a `{` first (after whitespace) the text is rejected; empty text fails on `NONE`, a stray punctuation mark on its own token |
| JsonlibFacts.EmptyObject | jsonlib.cpp:110-115 | `{`, whitespace and `}` give the empty object |
| JsonlibFacts.UnclosedBrace | jsonlib.cpp:119-123 | `{` and then only whitespace is rejected at the name check, which finds `NONE` |
| JsonlibRoundTrip.CollectSpec | jsonlib.cpp:18-21 | the map built from members in order holds every name; earlier names keep their values; a new name gets its first value |
| JsonlibRoundTrip.CollectKeys | jsonlib.cpp:18-21 | which names the built map holds |
| JsonlibRoundTrip.CollectKeeps | jsonlib.cpp:18-21 | names already present keep their values |
| JsonlibRoundTrip.CollectFirst | jsonlib.cpp:18-21 | a new name gets the first value given for it |
| JsonlibRoundTrip.TokenAfter | jsonlib.cpp:69-83 | whitespace and then a character other than `"`: its punctuation token, or the invalid-token error |
| JsonlibRoundTrip.QuotedAt | jsonlib.cpp:75-76 | whitespace and a quoted string without quotes inside: one `STRING` token with that text |
| JsonlibRoundTrip.StringValueAt | jsonlib.cpp:89-97 | a quoted string is the value `parseValue` reads |
| JsonlibRoundTrip.ValueRejected | jsonlib.cpp:89-95 | anything but a quoted string is rejected where a value must be |
| JsonlibRoundTrip.MembersStep | jsonlib.cpp:119-147 | a member followed by `,` is stored and the loop goes on |
| JsonlibRoundTrip.MembersLast | jsonlib.cpp:119-147 | a member not followed by `,` ends the loop, stored by `emplace` |
| JsonlibRoundTrip.CommaNeedsName | jsonlib.cpp:139-147 | after `,` anything but a string name, for example the `}` of a trailing comma, is rejected |
| JsonlibRoundTrip.ColonMissing | jsonlib.cpp:127-130 | a name followed by anything but `:` is rejected, naming that token |
| JsonlibRoundTrip.ValueMissing | jsonlib.cpp:132-133 | a name and `:` followed by a value `parseValue` rejects fails with that error |
| JsonlibRoundTrip.MembersFail | jsonlib.cpp:117-147 | after `{` and a first token other than `}`, the object fails where its member list fails |
| JsonlibRoundTrip.NoMembers | jsonlib.cpp:110-115 | `{` then `}` is the empty object |
| JsonlibRoundTrip.MembersClosed | jsonlib.cpp:149-154 | a member list ending on `}` is the object's contents |
| JsonlibRoundTrip.MembersRoundTrip | jsonlib.cpp:117-147 | the member loop reads rendered members back into the map `emplace` builds, and stops at `}` |
| JsonlibRoundTrip.RoundTrip | jsonlib.cpp:157-161 | parsing an object written with any whitespace around its tokens gives the map of its members, the first value under a name winning, whatever follows the `}` |
| JsonlibRoundTrip.ParsedNames | jsonlib.cpp:9-21 | in a parsed object a name is found exactly when some member has it, with the value of the first such member |
| JsonlibRoundTrip.NameMustBeString | jsonlib.cpp:121-123 | after `{`, a `{`, `:` or `,` where the first name must be is rejected, naming it |
| JsonlibRoundTrip.ColonRequired | jsonlib.cpp:127-130 | a name followed by a punctuation mark other than `:` is rejected, naming it |
| JsonlibRoundTrip.ValueMustBeString | jsonlib.cpp:89-97 | where a value must be, a brace, colon or comma is rejected by `parseValue` and any other non-string character already by the lexer |
| JsonlibTests.EmptyStringThrows | test/tests.cpp:5-8 | `parse("")` fails: `{` expected, `NONE` found |
| JsonlibTests.EmptyObjectBrackets | test/tests.cpp:10-13 | `parse("{}")` is the empty object |
| JsonlibTests.EmptyObjectBracketsWithSpaces | test/tests.cpp:15-18 | `parse("   {   }  ")` is the empty object |
| JsonlibTests.MissingInitialBracketThrows | test/tests.cpp:20-23 | `parse("}")` fails: `{` expected, `}` found |
| JsonlibTests.MissingClosingBracketThrows | test/tests.cpp:25-28 | `parse("{")` fails at the name check on `NONE` |
| JsonlibTests.LexingString | test/tests.cpp:30-35 | lexing `"foo"` gives the string token `foo`, the cursor at the end |
| JsonlibTests.LexingStringMissingTerminatorThrows | test/tests.cpp:37-41 | lexing `"foo` fails: no terminating quote |
| JsonlibTests.ParsingStringPairObject | test/tests.cpp:49-55 | `{ "foo" : "bar" }` parses to the object mapping `foo` to `bar` |
| JsonlibTests.ParsingObjectList | test/tests.cpp:57-69 | the two-member text parses to the object mapping `foo` to `bar` and `abc` to `def` |

## Left out

- `std::stod` (jsonpp.cpp:318). A `Number` keeps the literal text the lexer
  accepted. The conversion is modelled only as "fails unless the literal has
  a digit after at most one sign" (`Convertible`). The `out_of_range` that
  `stod` throws for literals such as `1e999` is not modelled.
- Error messages. `detail::format`, `Parser::raiseError` and every message
  text are left out; each error says only which check failed and on which
  token or character. Two kinds of message are modelled only as "an error is
  raised": the ones built with `c + " is not a valid token!"`, which adds a
  character to a pointer instead of building a string (jsonpp.cpp:243,
  jsonlib.cpp:82), and the ones that print the token's line and position.
- State after an error. After a thrown error only the error is specified for
  the parser methods; the lexer functions still give the fields after a
  failure.
- `unique_ptr` ownership. Parsed containers are frozen into the `Value`
  datatype; `Object` and `Array` are classes only while they are being
  filled.
- `Token::line` and `Token::pos` are `int` in the source and unbounded here.
  The model does not wrap them on texts with more than `INT_MAX` lines or
  columns.
- Header-only declarations without a definition: the typed getters of
  `Array`/`Object`, `processState`, `skipWhitespace`, `next`/`curr`/`peek`,
  `reportToken` and the escape helpers (jsonpp.hpp). The getters of
  `String`, `Bool`, `Null` and `Number` (jsonpp.cpp:24-68, jsonlib.cpp:23-29,
  test/tests.cpp:43-47) are the fields of the `Value` datatype and of
  jsonlib's `String` value, and have no members of their own.
- `perf/perfjsonpp.cpp` is not part of this model: it does file I/O, timing
  and floating-point size arithmetic.
- `test/tests.cpp` is not modelled as code. Its cases are stated as lemmas
  in `jsonlib_tests.dfy`.
- JsonppRoundTrip.RoundTrip covers only the compact form the renderer
  writes: no whitespace except the space after each number. It also leaves
  out members holding objects, which jsonpp cannot parse, and strings
  containing `"`. JsonlibRoundTrip.RoundTrip takes arbitrary whitespace
  around every token.
