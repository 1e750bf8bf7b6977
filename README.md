# bark_lang front end: lexer and parser

This project models the two halves of the bark_lang front end and proves
properties of them.

**Lexer** (module `Lexer`). It is a byte-driven finite-state machine.
- The machine has twelve states and four scratch buffers (`identifier`, `integer`, `fractional`, `exponent`), and it keeps a growing list of tokens.
- Each `run_fsm_*` handler is a function from a `Config` value (the state, the four buffers and the tokens) and a byte to a `Step`: the result it returns and the configuration it leaves.
- A result of `Again` means the same byte is offered once more to `Start`.
- The class `Lexer` has the Rust struct's fields. Each of its methods is proved to change `Snapshot()` exactly as its function says.
- `FeedByte` has the retry loop, `FeedScript` the loop over byte offsets, and `FeedEof` the end-of-input flush.
- Digits are kept as digit values: decimal, fractional and exponent digits 0-9, hexadecimal 0-15, octal 0-7 and binary 0-1.

**Parser** (module `Parser`). It is a recursive-descent parser.
- It reads a token sequence through an `offset` cursor and answers `EOF` past the end.
- It recognises `let IDENT = expr`. Expressions have a `+`/`-` term level over a `*`/`/` factor level, and a primary is an identifier, a literal or a parenthesised expression.
- The grammar is specified by mutually recursive functions (`ExpressionAt`, `TermAt`, `FactorAt`, `PrimaryAt`, plus `TermRest`/`FactorRest` for the two loops).
- The class `Parser` keeps a mutable `offset`. Its methods are proved to return what the functions say and to leave the cursor where they say. `length - offset` is their termination measure.

**Properties.** `LexerProperties` and `ParserProperties` prove these properties:
- the machine invariant and the well-formedness of every emitted token;
- the error offsets;
- keyword classification;
- that feeding a concatenation is feeding its parts in turn;
- left associativity: every factor and every term that parses is the left-nested fold of its operands, the operands being any primaries (parenthesised ones included) and any factors;
- operator precedence, for every factor: a factor that is a sum or difference starts with `(` and ends with `)` (`SumInFactorIsParenthesised`);
- that parsing builds only arithmetic nodes.

`LexerScenarios` works through some of the lexer's own test inputs (`3.14e10`, `0.e1`, `0.`, `3.`, `.0`, `.14`, `0x64`, `0o77`, `0b10100101`, `let x = 123;`), each as a script of its own, and a few edge cases. `ParserScenarios` works through a few small token sequences. `EndToEnd` joins the two on the bytes of `let x = 123;`.

**Behaviour of note.** The model follows the code on two points:
- In `Equals`, a second `=` emits `Equals` and consumes the byte, but the state stays `Equals`. End of input, or the next other byte, then also emits `Assign`, so `==` lexes as `[Equals, Assign]`.
- `Minus` does the same with `>`, so `->` lexes as `[RightArrow, Minus]`.

So `==` is not one `Equals` token and `->` is not one `RightArrow`.

Other behaviour modelled as written:
- Mid-stream, any non-digit after an exponent mark emits a scientific literal, even with an empty exponent (`3e,`). At end of input an empty exponent is an error.
- The lexer never emits `EOF`.
- The parser does not require every token to be consumed.

## Model

| member | source | states |
|---|---|---|
| Lexer.SpellingRoundTrip | src/lexer.rs:178-197 | every keyword token is classified back from its own spelling |
| Lexer.ClassifyRoundTrip | src/lexer.rs:178-197 | an accumulated name becomes an identifier exactly when it is not one of the twelve keywords, and then it keeps exactly the accumulated bytes; otherwise the keyword token returned is the one that name spells |
| Lexer.StartMeansEmptyBuffers | src/lexer.rs:192-195 | in a valid configuration whose state is `Start`, all four scratch buffers are empty |
| Lexer.AppendWellFormed | src/lexer.rs:195 | pushing a well-formed token onto well-formed tokens keeps them all well formed |
| Lexer.StartStep | src/lexer.rs:127-176 | `Start` never answers `Again`; it fails with `UnexpectedByte` exactly for bytes that are not whitespace, identifier starts, digits, `-`, `.`, `=` or one of the twelve punctuation bytes, and then leaves the configuration unchanged; whitespace is skipped with the configuration unchanged, and each punctuation byte emits its token at once |
| Lexer.ClassifyStep | src/lexer.rs:178-197 | classifying empties the identifier buffer, appends the classified token and changes nothing else |
| Lexer.IdentifierStep | src/lexer.rs:199-211 | identifier bytes are consumed; any other byte ends the identifier: its classified spelling is appended to the tokens, the buffer is emptied, the state returns to `Start` and the byte is offered again |
| Lexer.ZeroStep | src/lexer.rs:213-245 | after a leading `0`, the step fails exactly when the byte is a decimal digit (`LeadingZeroWithoutBase`) or a letter other than `x`, `o`, `b` (`InvalidNumberDigit`), leaving the configuration unchanged; a byte offered again follows the emitted `Decimal([0])` in `Start` |
| Lexer.DotStep | src/lexer.rs:247-260 | the state after `.` never fails; it gives the byte back exactly when it is not a digit, and then emits `Dot` |
| Lexer.IntegerStep | src/lexer.rs:262-283 | the decimal state never fails; it gives the byte back exactly when it is not a digit, `.` or `e`, and then emits the decimal literal of the buffered digits and empties the buffer |
| Lexer.DigitValue | src/lexer.rs:141-144 | a decimal digit byte's value is below 10 |
| Lexer.HexValue | src/lexer.rs:287-297 | a hexadecimal digit byte's value is below 16, and at least 10 for `A-F`/`a-f` |
| Lexer.HexadecimalStep | src/lexer.rs:285-313 | it fails exactly on a letter that is not a hexadecimal digit, with `InvalidHexadecimalDigit`, or on a non-digit non-letter with no digits read yet, with `MissingDigitsAfterBasePrefix`; on failure nothing changes |
| Lexer.OctalStep | src/lexer.rs:315-335 | it fails exactly on `8`, `9` or any letter, with `InvalidOctalDigit`, or on a non-digit non-letter with no digits read yet, with `MissingDigitsAfterBasePrefix`; on failure nothing changes |
| Lexer.BinaryStep | src/lexer.rs:337-357 | it fails exactly on `2`-`9` or any letter, with `InvalidBinaryDigit`, or on a non-digit non-letter with no digits read yet, with `MissingDigitsAfterBasePrefix`; on failure nothing changes |
| Lexer.FractionalStep | src/lexer.rs:359-379 | the fractional state never fails; it gives the byte back exactly when it is not a digit or `e`, and then emits the decimal float of the two buffers and empties them |
| Lexer.ExponentStep | src/lexer.rs:381-398 | the exponent state never fails; it answers `Again` exactly for a non-digit, which emits a scientific literal of the three buffers (an empty exponent included) and empties all three |
| Lexer.EqualsStep | src/lexer.rs:400-412 | it never fails and gives the byte back exactly when it is not `=`; it appends exactly one token, `Equals` for `=` and `Assign` otherwise; `=` leaves the state where it was and any other byte returns to `Start`; the four buffers are untouched |
| Lexer.MinusStep | src/lexer.rs:414-426 | it never fails and gives the byte back exactly when it is not `>`; it appends exactly one token, `RightArrow` for `>` and `Minus` otherwise; `>` leaves the state where it was and any other byte returns to `Start`; the four buffers are untouched |
| Lexer.Transition | src/lexer.rs:428-443 | `Again` is only answered after moving to `Start`, `Start` never answers `Again`, and a failure leaves the configuration unchanged, so feeding one byte runs the machine at most twice |
| Lexer.StartKeepsValid | src/lexer.rs:127-176 | the `Start` handler keeps the machine invariant |
| Lexer.IdentifierKeepsValid | src/lexer.rs:199-211 | the identifier handler keeps the machine invariant, and a classified identifier is a non-keyword spelling |
| Lexer.ZeroKeepsValid | src/lexer.rs:213-245 | the leading-zero handler keeps the machine invariant, and it either emits nothing or emits exactly `Decimal([0])` |
| Lexer.DotKeepsValid | src/lexer.rs:247-260 | the `.` handler keeps the machine invariant |
| Lexer.AppendDigit | src/lexer.rs:264-266 | appending a digit below the radix keeps every buffered digit below it |
| Lexer.IntegerKeepsValid | src/lexer.rs:262-283 | the decimal handler keeps the invariant: digits 0-9, first digit non-zero |
| Lexer.HexadecimalKeepsValid | src/lexer.rs:285-313 | the hexadecimal handler keeps every digit below 16 and emits only non-empty literals |
| Lexer.OctalKeepsValid | src/lexer.rs:315-335 | the octal handler keeps every digit below 8 and emits only non-empty literals |
| Lexer.BinaryKeepsValid | src/lexer.rs:337-357 | the binary handler keeps every digit below 2 and emits only non-empty literals |
| Lexer.FractionalKeepsValid | src/lexer.rs:359-379 | the fractional handler keeps the float-part invariant and digits 0-9 |
| Lexer.ExponentKeepsValid | src/lexer.rs:381-398 | the exponent handler keeps the invariant and emits a well-formed scientific literal |
| Lexer.EqualsKeepsValid | src/lexer.rs:400-412 | the `=` handler keeps the machine invariant |
| Lexer.MinusKeepsValid | src/lexer.rs:414-426 | the `-` handler keeps the machine invariant |
| Lexer.TransitionKeepsValid | src/lexer.rs:428-443 | one run of the machine keeps the invariant: buffers empty at `Start`, digits below their radix, every token well formed and none of them `EOF` |
| Lexer.Located | src/lexer.rs:464-479 | an internal error becomes the public error carrying the given offset, never the end-of-input exponent error |
| Lexer.FeedAt | src/lexer.rs:459-480 | feeding byte `i` succeeds exactly when the byte step does, and a failure is reported at offset `i` |
| Lexer.FeedScriptWith | src/lexer.rs:457-482 | an error while feeding the first `n` bytes carries an offset below `n` |
| Lexer.FeedByteStep | src/lexer.rs:445-455 | a state error ends `feed_byte` with that error and the configuration unchanged; any other error is `UnexpectedByte` from the rerun in `Start`; from `Start` the byte is fed once |
| Lexer.FeedScriptUpTo | src/lexer.rs:457-482 | an error while feeding the first `n` bytes names one of them and is never the end-of-input exponent error; from a valid configuration the machine stays valid |
| Lexer.FeedByteKeepsValid | src/lexer.rs:445-455 | `feed_byte` keeps the machine invariant |
| Lexer.FeedByteStepKeepsValid | src/lexer.rs:445-455 | the byte step keeps the invariant for every configuration and byte |
| Lexer.FeedScriptKeepsValid | src/lexer.rs:457-482 | feeding any prefix of a script keeps the invariant |
| Lexer.FailureIsFinal | src/lexer.rs:464-479 | once a byte fails, feeding more bytes changes neither the result nor the configuration |
| Lexer.ErrorIsFirstFailingByte | src/lexer.rs:457-482 | the offset of a feeding error is the first byte whose step fails, every byte before it being fed successfully, and the error is that step's error at that offset |
| Lexer.EofStep | src/lexer.rs:484-565 | end of input fails exactly in a base state with no digits or in the exponent state with no exponent digits; the error carries the script length, is `MissingDigitsAfterExponentMark` exactly in the exponent state and leaves the configuration unchanged |
| Lexer.EofKeepsWellFormed | src/lexer.rs:484-565 | every token flushed at end of input is well formed |
| Lexer.Lexed | src/lexer.rs:568-573 | an error offset is at most the script length; an error at the length is a missing-digits error, and a missing exponent is only reported there |
| Lexer.LexedTokensWellFormed | src/lexer.rs:568-573 | every token `tokenize` returns is well formed: digits below the radix, decimals `[0]` or without a leading zero, identifiers never keywords, never `EOF` |
| Lexer.LexedErrorOrigin | src/lexer.rs:568-573 | a `tokenize` error either comes from the first failing byte, at that byte's offset, or from end of input after every byte was fed, at the script length |
| Lexer.Lexer.constructor | src/lexer.rs:116-125 | a new lexer is in `Start` with empty buffers and no tokens |
| Lexer.Lexer.RunFsmStart | src/lexer.rs:127-176 | the method changes the fields and returns exactly as `StartStep` says |
| Lexer.Lexer.ClassifyIdentifier | src/lexer.rs:178-197 | the method changes the fields exactly as `ClassifyStep` says |
| Lexer.Lexer.RunFsmIdentifier | src/lexer.rs:199-211 | the method changes the fields and returns exactly as `IdentifierStep` says |
| Lexer.Lexer.RunFsmZero | src/lexer.rs:213-245 | the method changes the fields and returns exactly as `ZeroStep` says |
| Lexer.Lexer.RunFsmDot | src/lexer.rs:247-260 | the method changes the fields and returns exactly as `DotStep` says |
| Lexer.Lexer.RunFsmInteger | src/lexer.rs:262-283 | the method changes the fields and returns exactly as `IntegerStep` says |
| Lexer.Lexer.RunFsmHexadecimal | src/lexer.rs:285-313 | the method changes the fields and returns exactly as `HexadecimalStep` says |
| Lexer.Lexer.RunFsmOctal | src/lexer.rs:315-335 | the method changes the fields and returns exactly as `OctalStep` says |
| Lexer.Lexer.RunFsmBinary | src/lexer.rs:337-357 | the method changes the fields and returns exactly as `BinaryStep` says |
| Lexer.Lexer.RunFsmFractional | src/lexer.rs:359-379 | the method changes the fields and returns exactly as `FractionalStep` says |
| Lexer.Lexer.RunFsmExponent | src/lexer.rs:381-398 | the method changes the fields and returns exactly as `ExponentStep` says |
| Lexer.Lexer.RunFsmEquals | src/lexer.rs:400-412 | the method changes the fields and returns exactly as `EqualsStep` says |
| Lexer.Lexer.RunFsmMinus | src/lexer.rs:414-426 | the method changes the fields and returns exactly as `MinusStep` says |
| Lexer.Lexer.RunFsm | src/lexer.rs:428-443 | dispatching on the state changes the fields and returns exactly as `Transition` says |
| Lexer.Lexer.FeedByte | src/lexer.rs:445-455 | the retry loop runs the machine at most twice and ends as the byte step says |
| Lexer.Lexer.FeedScript | src/lexer.rs:457-482 | the loop over byte offsets ends as feeding the whole script says: the first failure with its offset, or success |
| Lexer.Lexer.FeedEof | src/lexer.rs:484-565 | the end-of-input flush changes the fields and returns exactly as `EofStep` says |
| Lexer.Tokenize | src/lexer.rs:568-573 | `tokenize` returns exactly `Lexed(script)`: the tokens when every byte and the flush succeed, and otherwise the first error and no tokens |
| LexerProperties.FeedPrefixOnly | src/lexer.rs:457-482 | feeding the first `n` bytes depends on those bytes only |
| LexerProperties.FeedAtShifted | src/lexer.rs:464-479 | reporting a byte `delta` places later moves its error offset by `delta` |
| LexerProperties.FeedConcat | src/lexer.rs:457-482 | feeding `a + b` is feeding `a` and then feeding `b` from where `a` left the machine; an error in `b` is reported `|a|` bytes later, and an error in `a` is final |
| LexerProperties.FeedsOneMore | src/lexer.rs:457-482 | a successful byte step extends a successful feeding by one byte |
| LexerProperties.StartsIdentifier | src/lexer.rs:132-136 | from `Start`, a letter or `_` is buffered and moves to `Identifier` |
| LexerProperties.ExtendsIdentifier | src/lexer.rs:199-204 | in `Identifier`, an identifier byte is appended to the buffer |
| LexerProperties.FeedWord | src/lexer.rs:132-136 | feeding an identifier spelling from a clean `Start` buffers exactly its bytes |
| LexerProperties.OneByteNameIsIdentifier | src/lexer.rs:178-197 | a one-byte name is never a keyword, so it becomes an identifier |
| LexerProperties.LexWord | src/lexer.rs:178-211 | a script that is one identifier spelling lexes to one token: the keyword it spells, or else an identifier carrying exactly its bytes |
| LexerProperties.DigitValues | src/lexer.rs:141-144 | the digit values of decimal digit bytes, one per byte, in order |
| LexerProperties.DecimalPrefix | src/lexer.rs:264-266 | the digit values of a prefix grow by the value of its last byte |
| LexerProperties.FeedDecimal | src/lexer.rs:141-144 | feeding a decimal spelling from a clean `Start` buffers its digit values in the decimal state |
| LexerProperties.LexDecimal | src/lexer.rs:503-506 | a script of decimal digits with no leading zero lexes to one decimal literal of their digit values |
| LexerProperties.HexValues | src/lexer.rs:287-297 | the values of hexadecimal digit bytes, one per byte, in order, all below 16 |
| LexerProperties.FeedHexadecimalPrefix | src/lexer.rs:137-140 | `0x` moves from `Start` through `Zero` to the hexadecimal state |
| LexerProperties.ExtendsHexadecimal | src/lexer.rs:287-297 | in the hexadecimal state, a hexadecimal digit appends its value |
| LexerProperties.HexValuesPrefix | src/lexer.rs:287-297 | the values of a prefix grow by the value of its last byte |
| LexerProperties.FeedHexadecimal | src/lexer.rs:285-313 | feeding `0x` and hexadecimal digits buffers their values in the hexadecimal state |
| LexerProperties.LexedInHexadecimal | src/lexer.rs:508-515 | a script left in the hexadecimal state lexes to one hexadecimal literal of the buffered digits, or fails at the script length when there are none |
| LexerProperties.LexHexadecimal | src/lexer.rs:508-515 | `0x` and hexadecimal digits lex to one hexadecimal literal of their values; `0x` alone fails with `MissingDigitsAfterBasePrefix` at offset 2 |
| LexerProperties.StartsZero | src/lexer.rs:137-140 | from `Start`, `0` moves to `Zero` and emits nothing yet |
| LexerProperties.ZeroPoint | src/lexer.rs:227-231 | in `Zero`, `.` appends `0` to the integer buffer and moves to the fractional state |
| LexerProperties.ZeroStartsBase | src/lexer.rs:215-226 | in `Zero`, `x`, `o` and `b` move to the hexadecimal, octal and binary states and change nothing else |
| LexerProperties.ExtendsOctal | src/lexer.rs:317-320 | in the octal state, a digit 0-7 appends its value |
| LexerProperties.ExtendsBinary | src/lexer.rs:339-342 | in the binary state, a digit 0-1 appends its value |
| LexerProperties.FeedBasePrefix | src/lexer.rs:137-140 | `0o` and `0b` move from `Start` through `Zero` to the octal and binary states |
| LexerProperties.FeedBase | src/lexer.rs:315-357 | feeding `0o` or `0b` and digits below the radix buffers their values in that state |
| LexerProperties.LexedInBase | src/lexer.rs:517-534 | a script left in the octal or binary state lexes to one literal of that radix of the buffered digits, or fails at the script length when there are none |
| LexerProperties.LexBase | src/lexer.rs:517-534 | `0o`/`0b` and digits below the radix lex to one octal/binary literal of their values; the prefix alone fails with `MissingDigitsAfterBasePrefix` at offset 2 |
| LexerProperties.StartsDot | src/lexer.rs:153-156 | from `Start`, `.` moves to `Dot` and emits nothing yet |
| LexerProperties.DotStartsFraction | src/lexer.rs:249-253 | in `Dot`, a digit appends its value to the fractional buffer and moves to the fractional state |
| LexerProperties.ExtendsFraction | src/lexer.rs:361-364 | in the fractional state, a digit appends its value to the fractional buffer |
| LexerProperties.FeedPointFraction | src/lexer.rs:247-261 | feeding `.` and decimal digits buffers their values as the fractional part, with no integer part |
| LexerProperties.LexedInFractional | src/lexer.rs:535-541 | a script left in the fractional state lexes to one decimal float of the two buffered parts |
| LexerProperties.LexPointFraction | src/lexer.rs:535-541 | `.` and decimal digits lex to one decimal float with an empty integer part and the digits' values as fraction |
| LexerProperties.FeedEqualsRun | src/lexer.rs:400-405 | feeding `j` bytes `=` emits `Equals` for every `=` after the first and never leaves `Equals` |
| LexerProperties.LexEqualsRun | src/lexer.rs:400-412 | `k + 1` bytes `=` lex to `k` `Equals` tokens followed by one `Assign` |
| LexerProperties.LexedInEquals | src/lexer.rs:556-559 | a script that leaves the machine in `Equals` ends with `Assign` |
| LexerScenarios.DoubleEqualsScript | src/lexer.rs:400-412 | `==` lexes to `[Equals, Assign]` |
| LexerScenarios.ArrowScript | src/lexer.rs:414-426 | `->` lexes to `[RightArrow, Minus]` |
| LexerScenarios.InvalidHexadecimalDigitScript | src/lexer.rs:299-301 | `0xg` fails with `InvalidHexadecimalDigit` at offset 2 |
| LexerScenarios.MissingHexadecimalDigitsScript | src/lexer.rs:302-304 | `0x;` fails with `MissingDigitsAfterBasePrefix` at offset 2 |
| LexerScenarios.LeadingZeroScript | src/lexer.rs:213-245 | `01` fails with `LeadingZeroWithoutBase` at offset 1 |
| LexerScenarios.FeedThreeE | src/lexer.rs:262-283 | `3e` leaves `[3]` buffered in the exponent state with no exponent digits |
| LexerScenarios.CommaEndsExponent | src/lexer.rs:381-398 | in the exponent state, `,` emits the scientific literal of the three buffers, empties them, returns to `Start` and then emits `Comma` |
| LexerScenarios.BareExponentAtEndScript | src/lexer.rs:543-545 | `3e` fails at end of input with `MissingDigitsAfterExponentMark` at offset 2 |
| LexerScenarios.BareExponentBeforeCommaScript | src/lexer.rs:381-398 | `3e,` lexes to a scientific literal with an empty exponent, then `Comma` |
| LexerScenarios.FeedZeroPoint | src/lexer.rs:213-245 | `0.` leaves `[0]` as the integer part in the fractional state |
| LexerScenarios.ZeroPointExponentScript | src/lexer.rs:620-622 | `0.e1` lexes to `Scientific([0], [], [1])` |
| LexerScenarios.SpaceEndsIdentifier | src/lexer.rs:205-209 | a space ends an identifier: its spelling is classified, the state returns to `Start` and the space is skipped |
| LexerScenarios.StartSkipsWhitespace | src/lexer.rs:129-131 | from `Start`, a space, tab, carriage return or newline is skipped: nothing is emitted and the configuration is unchanged |
| LexerScenarios.StartEmitsPunctuation | src/lexer.rs:146-171 | from `Start`, each of the twelve punctuation bytes emits its token at once and the state stays `Start` |
| LexerScenarios.StartsMinus | src/lexer.rs:147-150 | from `Start`, `-` moves to `Minus` and emits nothing yet |
| LexerScenarios.StartsEquals | src/lexer.rs:160-163 | from `Start`, `=` moves to `Equals` and emits nothing yet |
| LexerScenarios.SpaceEndsEquals | src/lexer.rs:406-410 | a space after a single `=` emits `Assign`, returns to `Start` and is skipped |
| LexerScenarios.StartsInteger | src/lexer.rs:141-145 | from `Start`, `1`-`9` buffers its value and moves to the decimal state |
| LexerScenarios.ExtendsInteger | src/lexer.rs:264-267 | in the decimal state, a digit appends its value |
| LexerScenarios.SemicolonEndsInteger | src/lexer.rs:276-281 | a `;` ends a decimal literal: the literal is emitted, the buffer emptied, then the `;` is emitted |
| LexerScenarios.PointAfterInteger | src/lexer.rs:268-271 | in the decimal state, `.` moves to the fractional state, keeping the integer digits |
| LexerScenarios.ExponentMark | src/lexer.rs:272-275 | after integer or fractional digits, `e` moves to the exponent state |
| LexerScenarios.ExtendsExponent | src/lexer.rs:383-386 | in the exponent state, a digit appends its value to the exponent buffer |
| LexerScenarios.ScientificMantissa | src/lexer.rs:617-619 | the first four bytes of `3.14e10` leave `[3]` and `[1, 4]` in the fractional state |
| LexerScenarios.ScientificExponent | src/lexer.rs:617-619 | all of `3.14e10` leaves `[3]`, `[1, 4]` and `[1, 0]` in the exponent state |
| LexerScenarios.ScientificScript | src/lexer.rs:617-619 | `3.14e10` lexes to `Scientific([3], [1, 4], [1, 0])` |
| LexerScenarios.HexadecimalLiteralScript | src/lexer.rs:631-633 | `0x64` lexes to `Hexadecimal([6, 4])` |
| LexerScenarios.OctalLiteralScript | src/lexer.rs:631-634 | `0o77` lexes to `Octal([7, 7])` |
| LexerScenarios.BinaryLiteralScript | src/lexer.rs:631-635 | `0b10100101` lexes to `Binary([1, 0, 1, 0, 0, 1, 0, 1])` |
| LexerScenarios.ZeroPointScript | src/lexer.rs:605-607 | `0.` lexes to a decimal float with integer part `[0]` and an empty fraction |
| LexerScenarios.ThreePointScript | src/lexer.rs:608-610 | `3.` lexes to a decimal float with integer part `[3]` and an empty fraction |
| LexerScenarios.PointZeroScript | src/lexer.rs:611-613 | `.0` lexes to a decimal float with integer part `[]` and fraction `[0]` |
| LexerScenarios.PointFractionScript | src/lexer.rs:614-616 | `.14` lexes to a decimal float with integer part `[]` and fraction `[1, 4]` |
| LexerScenarios.LetStatementKeyword | src/lexer.rs:638-645 | `let ` emits `Let` and returns to `Start` |
| LexerScenarios.LetStatementName | src/lexer.rs:638-645 | `let x ` has emitted `Let` and `Identifier("x")` |
| LexerScenarios.LetStatementAssign | src/lexer.rs:638-645 | `let x = ` has emitted `Let`, `Identifier("x")` and `Assign` |
| LexerScenarios.LetStatementNumber | src/lexer.rs:638-645 | all of `let x = 123;` has emitted the decimal literal `[1, 2, 3]` and `Semicolon` after them |
| LexerScenarios.LetStatementScript | src/lexer.rs:638-645 | `let x = 123;` lexes to `[Let, Identifier("x"), Assign, Integer(Decimal([1, 2, 3])), Semicolon]` |
| Parser.TokenAt | src/parser.rs:56-58 | past the end the token is the `EOF` sentinel, and before it `EOF` only appears where the sequence holds it |
| Parser.ExpressionAt | src/parser.rs:102-104 | a parsed expression consumes at least one token, stays in bounds and stops at a token that is neither additive nor multiplicative |
| Parser.TermAt | src/parser.rs:106-129 | a parsed term consumes at least one token, stays in bounds and stops at a token that is neither additive nor multiplicative |
| Parser.TermRest | src/parser.rs:108-126 | the `+`/`-` loop never moves back, stops at a token that is not `+` or `-`, and stops at a non-multiplicative token when it starts at one |
| Parser.FactorAt | src/parser.rs:131-154 | a parsed factor consumes at least one token, stays in bounds and stops at a token that is not `*` or `/` |
| Parser.FactorRest | src/parser.rs:133-151 | the `*`/`/` loop never moves back and stops at a token that is not `*` or `/` |
| Parser.PrimaryAt | src/parser.rs:156-178 | a parsed primary consumes at least one token and stays in bounds |
| Parser.PrimaryCases | src/parser.rs:156-178 | an identifier or literal becomes a node with the same payload; `(` succeeds exactly when the inner expression does and is followed by `)`, and then returns the inner node unwrapped and resumes after the `)`; any other token is `UnexpectedToken` |
| Parser.StatementAt | src/parser.rs:79-100 | a statement succeeds exactly on `Let`, an identifier, `Assign` and a valid expression, and then is the assignment of that expression to that identifier, resuming where the expression stopped |
| Parser.Parsing | src/parser.rs:181-184 | `parse` succeeds exactly when the tokens start `Let, Identifier(n), Assign` followed by a valid expression `e`, and then returns `Assign(Identifier(n), e)` |
| Parser.Parser.constructor | src/parser.rs:47-54 | a new parser holds the tokens with the cursor at 0 |
| Parser.Parser.Peek | src/parser.rs:56-58 | `peek` returns the token under the cursor, or `EOF` past the end, and changes nothing |
| Parser.Parser.Consume | src/parser.rs:66-73 | `consume` returns the token under the cursor and advances by exactly one when the cursor is before the end; at the end it returns `EOF` and stays |
| Parser.Parser.Parse | src/parser.rs:79-100 | the method returns what `StatementAt` says and leaves the cursor where it says, which may be before the end |
| Parser.Parser.ParseExpression | src/parser.rs:102-104 | the method returns what `ExpressionAt` says and leaves the cursor where it says |
| Parser.Parser.ParseTerm | src/parser.rs:106-129 | the loop returns what `TermAt` says and leaves the cursor where it says |
| Parser.Parser.ParseFactor | src/parser.rs:131-154 | the loop returns what `FactorAt` says and leaves the cursor where it says |
| Parser.Parser.ParsePrimary | src/parser.rs:156-178 | the method returns what `PrimaryAt` says and leaves the cursor where it says |
| Parser.Parse | src/parser.rs:181-184 | the free `parse` returns exactly `Parsing(tokens)` |
| ParserProperties.FirstAtomIsPrimary | src/parser.rs:131-132 | a factor starting at an atom continues the `*`/`/` loop with that atom's node |
| ParserProperties.FactorRestStops | src/parser.rs:149 | the `*`/`/` loop returns its operand unchanged at any token that is not `*` or `/` |
| ParserProperties.FactorRestPrimary | src/parser.rs:135-148 | a `*` or `/` followed by a primary folds that primary into the left operand and the loop goes on after it |
| ParserProperties.LeftFoldPrefix | src/parser.rs:133-151 | the fold of the first `n + 1` operands does not depend on operators or operands after them |
| ParserProperties.LeftFoldSnoc | src/parser.rs:133-151 | one more operator and operand put one more node, with that operator, at the root of the fold |
| ParserProperties.PrimaryChainStart | src/parser.rs:132 | a single primary is a chain of primaries without operators |
| ParserProperties.FactorRestFoldsOne | src/parser.rs:135-148 | one turn of the `*`/`/` loop along a chain folds in the next primary |
| ParserProperties.FactorRestFolds | src/parser.rs:133-151 | from the `k`-th primary of a chain ended by a token that is not `*` or `/`, the loop returns the fold of the whole chain and stops after its last primary |
| ParserProperties.FactorIsLeftFold | src/parser.rs:131-154 | primaries joined by `*` and `/` and then a token that is neither form one left-nested factor that ends after the last primary |
| ParserProperties.PrimaryStartsExtend | src/parser.rs:135-148 | after one more primary, each operand of the longer chain still parses where the chain says it starts |
| ParserProperties.PrimaryChainExtend | src/parser.rs:135-148 | a `*` or `/` after the last primary of a chain and one more primary make a chain one longer |
| ParserProperties.FactorRestHasChain | src/parser.rs:133-151 | if the `*`/`/` loop succeeds on a chain, its result is the fold of a longer chain ended by a token that is not `*` or `/` |
| ParserProperties.EveryFactorIsLeftFold | src/parser.rs:131-154 | every factor that parses is the left-nested fold of a chain of primaries ended by a token that is not `*` or `/`, and it stops after the last primary |
| ParserProperties.TermRestStops | src/parser.rs:124 | the `+`/`-` loop returns its operand unchanged at any token that is not `+` or `-` |
| ParserProperties.FactorChainStart | src/parser.rs:107 | a single factor is a chain of factors without operators |
| ParserProperties.TermRestFoldsOne | src/parser.rs:110-123 | one turn of the `+`/`-` loop along a chain folds in the next factor |
| ParserProperties.TermRestFolds | src/parser.rs:108-126 | from the `k`-th factor of a chain ended by a token that is not `+` or `-`, the loop returns the fold of the whole chain and stops after its last factor |
| ParserProperties.TermIsLeftFold | src/parser.rs:106-129 | factors joined by `+` and `-` and then a token that is neither form one left-nested term that ends after the last factor |
| ParserProperties.FactorStartsExtend | src/parser.rs:110-123 | after one more factor, each operand of the longer chain still parses where the chain says it starts |
| ParserProperties.FactorChainExtend | src/parser.rs:110-123 | a `+` or `-` after the last factor of a chain and one more factor make a chain one longer |
| ParserProperties.TermRestHasChain | src/parser.rs:108-126 | if the `+`/`-` loop succeeds on a chain, its result is the fold of a longer chain ended by a token that is not `+` or `-` |
| ParserProperties.EveryTermIsLeftFold | src/parser.rs:106-129 | every term that parses is the left-nested fold of a chain of factors ended by a token that is not `+` or `-`, and it stops after the last factor |
| ParserProperties.FactorRestShape | src/parser.rs:133-153 | the `*`/`/` loop either returns its operand where it started or returns a product or quotient |
| ParserProperties.SumInFactorIsParenthesised | src/parser.rs:131-178 | a factor that is a sum or difference starts with `(` and ends with `)`: `+`/`-` reach below a `*`/`/` only through parentheses |
| ParserProperties.AtomFactor | src/parser.rs:131-154 | an atom followed by a token that is not `*` or `/` is a whole factor |
| ParserProperties.FactorRestAtom | src/parser.rs:135-148 | a `*` or `/` followed by an atom folds the atom into the factor |
| ParserProperties.TermRestFactor | src/parser.rs:110-123 | a `+` or `-` followed by a factor folds the factor into the term |
| ParserProperties.FactorExpression | src/parser.rs:102-129 | an expression whose first factor is followed by a token that is not `+` or `-` is that factor |
| ParserProperties.ProductBindsTighter | src/parser.rs:107-119 | in `a + b * c` the product is the right operand of the sum |
| ParserProperties.GroupedSumPrimary | src/parser.rs:167-175 | `(a + b)` as a primary is the sum itself, resuming after the `)` |
| ParserProperties.ParenthesesOverridePrecedence | src/parser.rs:131-178 | in `(a + b) * c` the sum is the left operand of the product, with no node for the parentheses |
| ParserProperties.ExpressionIsArithmetic | src/parser.rs:102-104 | an expression holds only identifiers, literals and the four arithmetic nodes |
| ParserProperties.TermIsArithmetic | src/parser.rs:106-129 | a term holds only identifiers, literals and the four arithmetic nodes |
| ParserProperties.TermRestIsArithmetic | src/parser.rs:108-126 | the `+`/`-` loop keeps an arithmetic operand arithmetic |
| ParserProperties.FactorIsArithmetic | src/parser.rs:131-154 | a factor holds only identifiers, literals and the four arithmetic nodes |
| ParserProperties.FactorRestIsArithmetic | src/parser.rs:133-151 | the `*`/`/` loop keeps an arithmetic operand arithmetic |
| ParserProperties.PrimaryIsArithmetic | src/parser.rs:156-178 | a primary holds only identifiers, literals and the four arithmetic nodes |
| ParserProperties.StatementIsArithmetic | src/parser.rs:79-178 | a parsed statement is an `Assign` to an identifier whose value has no unary or logical node |
| ParserScenarios.LetSumExpression | src/parser.rs:106-154 | the expression of `let x = 1 + 2 * 3` is `1 + (2 * 3)` |
| ParserScenarios.ProductInsideSum | src/parser.rs:79-154 | `let x = 1 + 2 * 3` assigns `1 + (2 * 3)` |
| ParserScenarios.ParenthesisedSumTimes | src/parser.rs:156-178 | `(1 + 2) * 3` is the product of the sum and `3`, consuming all seven tokens |
| ParserScenarios.SumChain | src/parser.rs:106-129 | `a + b` opens a chain of two factors |
| ParserScenarios.SumThenDifferenceChain | src/parser.rs:106-129 | `a + b - c` is a chain of three factors followed by the end |
| ParserScenarios.SumThenDifferenceFold | src/parser.rs:106-129 | folding `a`, `b`, `c` under `+` and `-` gives `(a + b) - c` |
| ParserScenarios.SumThenDifferenceNestsLeft | src/parser.rs:106-129 | `a + b - c` is `(a + b) - c` |
| ParserScenarios.AtomProduct | src/parser.rs:131-154 | an atom, `*` and an atom, then a token that is not `*` or `/`, are one product |
| ParserScenarios.ProductsDifferenceChain | src/parser.rs:106-154 | `a * b - c * d` is a chain of two product factors followed by the end |
| ParserScenarios.ProductsDifferenceNests | src/parser.rs:106-154 | `a * b - c * d` is `(a * b) - (c * d)` |
| ParserScenarios.GroupedQuotientChain | src/parser.rs:131-178 | `(a + b) / c` opens a chain of two primaries, the first parenthesised |
| ParserScenarios.GroupedQuotientProductChain | src/parser.rs:131-178 | `(a + b) / c * d` is a chain of three primaries followed by the end |
| ParserScenarios.GroupedQuotientProductNestsLeft | src/parser.rs:131-178 | `(a + b) / c * d` is `((a + b) / c) * d` |
| ParserScenarios.TrailingSemicolonLeftUnconsumed | src/parser.rs:181-184 | `let x = 7;` parses, and the statement stops before the `;` |
| ParserScenarios.UnclosedPrimary | src/parser.rs:167-175 | `( 1` with no `)` is not a primary |
| ParserScenarios.UnclosedParenthesis | src/parser.rs:167-175 | `let x = ( 1` is refused with `UnexpectedToken` |
| ParserScenarios.MissingLet | src/parser.rs:79-100 | a statement that does not start with `let` is refused with `UnexpectedToken` |
| EndToEnd.LetTokensParse | src/parser.rs:79-154 | the tokens `Let, Identifier("x"), Assign, Integer(Decimal([1, 2, 3])), Semicolon` are the statement assigning `123` to `x`, stopping before the `;` |
| EndToEnd.LetStatementParses | src/lexer.rs:638-645 | the bytes `let x = 123;` lex without error, and their tokens parse to the assignment of `123` to `x`, the statement stopping before the `;` |

## Left out

- `Parser::expect` (src/parser.rs:75-77) is an empty stub and is not modelled.
- `Parser::advance` (src/parser.rs:60-64) is never called and is not modelled.
- The `#[cfg(test)]` module (src/lexer.rs:575-647) is not modelled as code. Its literals `3.14e10`, `0.e1`, `0.`, `3.`, `.0`, `.14`, `0x64`, `0o77`, `0b10100101` and its input `let x = 123;` are lemmas, each literal lexed as a script of its own. Its inputs `0 +0 -0 47 +2 -117` and `0.0 3.14 3.e10 .14e10`, and its whitespace-separated lists as whole scripts, are not worked through; the all-inputs lemmas `LexDecimal`, `LexHexadecimal`, `LexBase` and `LexPointFraction` cover some of their literals.
- Whitespace-separated lists of literals, and floats with both an integer and a fractional part other than `3.14e10`, have no whole-script lemma. They are covered by the per-state contracts, the one-byte lemmas (`StartSkipsWhitespace` for the whitespace between literals) and `FeedConcat`, and by the machine invariant.
- Rust ownership (`Box`, `clone`, `take`, lifetimes) is not modelled. Payloads are values, and `take` is "read the buffer, then set it to empty".
- Converting digit sequences to numbers does not happen in the source; digit values are kept as sequences.
- What the lexer's fields hold after `tokenize` fails is not modelled: the fields are dropped with it.
  - `FeedScript` and `FeedEof` do state the fields after an error. The spec functions leave the configuration as the failing step left it.
- Bytes are characters below 256, so that string literals can stand for byte strings.
- The parser never builds the AST's unary or logical nodes, never consumes `;` and reports no error positions, so the model does none of these.
- Where a handler only moves a digit into a buffer or changes state, its function contract does not restate that. The one-byte lemmas in `LexerProperties` (`StartsZero`, `ZeroPoint`, `ZeroStartsBase`, `ExtendsHexadecimal`, `ExtendsOctal`, `ExtendsBinary`, `StartsDot`, `DotStartsFraction`, `ExtendsFraction`) and in `LexerScenarios` (`StartsInteger`, `ExtendsInteger`, `PointAfterInteger`, `ExponentMark`, `ExtendsExponent`, `StartSkipsWhitespace`, `StartEmitsPunctuation`, `StartsMinus`, `StartsEquals`) state those moves, for any configuration in the state.
- `Lexer.FeedScriptWith` is written over any byte step, so that `FeedPrefixOnly`, `FeedConcat`, `FailureIsFinal` and `ErrorIsFirstFailingByte` hold for any machine. `feed_script` itself is `FeedScriptUpTo`, the instance with `FeedByteStep`.
- The parser's borrowed token slice is modelled as an immutable sequence field, and its `eof_token` as a constant `EOF`.
