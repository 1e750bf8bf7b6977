/**
  Concrete scripts worked through the lexer functions. They pin down the edge
  cases of the byte machine as the code has them: `==` and `->`, an exponent
  mark without digits, a leading zero, and the literals of the lexer's own
  test lines.
*/
module LexerScenarios {
  import opened Wrappers
  import opened Lexer
  import opened LexerProperties

  /**
    `==` is not one token: the second `=` emits `Equals` without leaving
    the `Equals` state, and the end of input then emits `Assign`.
  */
  lemma DoubleEqualsScript()
    ensures Lexed("==") == Ok([Token.Equals, Token.Assign])
  {
    LexEqualsRun(1);
    assert Repeat('=', 1) == "=";
    assert Repeat('=', 2) == "==";
    assert Repeat(Token.Equals, 1) + [Token.Assign] == [Token.Equals, Token.Assign];
  }

  /**
    `->` emits `RightArrow` but leaves the machine in `Minus`, so the end of
    input emits a `Minus` as well.
  */
  lemma ArrowScript()
    ensures Lexed("->") == Ok([Token.RightArrow, Token.Minus])
  {
    var s: seq<byte> := "->";
    var minus := Initial.(state := State.Minus);
    assert FeedScriptUpTo(Initial, s, 0) == Fed(Ok(()), Initial);
    FeedsOneMore(Initial, s, 0, Initial, minus);
    var fed := Emit(minus, Token.RightArrow);
    FeedsOneMore(Initial, s, 1, minus, fed);
    assert EofStep(fed, 2) == Fed(Ok(()), Emit(fed, Token.Minus));
    assert Emit(fed, Token.Minus).tokens == [Token.RightArrow, Token.Minus];
  }

  /** A digit after a leading `0` is refused at the digit's offset. */
  lemma LeadingZeroScript()
    ensures Lexed("01") == Err(Error.LeadingZeroWithoutBase(1))
  {
    var s: seq<byte> := "01";
    assert FeedScriptUpTo(Initial, s, 0) == Fed(Ok(()), Initial);
    FeedsOneMore(Initial, s, 0, Initial, Initial.(state := State.Zero));
    assert FeedScriptUpTo(Initial, s, 2).result == Err(Error.LeadingZeroWithoutBase(1));
  }

  /** A letter that is not a hexadecimal digit is refused at its offset after `0x`. */
  lemma InvalidHexadecimalDigitScript()
    ensures Lexed("0xg") == Err(Error.InvalidHexadecimalDigit(2))
  {
    var s: seq<byte> := "0xg";
    FeedHexadecimalPrefix(s);
    assert FeedScriptUpTo(Initial, s, 3).result == Err(Error.InvalidHexadecimalDigit(2));
  }

  /** A base prefix ended by punctuation before any digit is refused at that byte. */
  lemma MissingHexadecimalDigitsScript()
    ensures Lexed("0x;") == Err(Error.MissingDigitsAfterBasePrefix(2))
  {
    var s: seq<byte> := "0x;";
    FeedHexadecimalPrefix(s);
    assert FeedScriptUpTo(Initial, s, 3).result == Err(Error.MissingDigitsAfterBasePrefix(2));
  }

  /** `3e` leaves the digit `3` buffered in the exponent state, with no exponent digits. */
  lemma FeedThreeE(s: seq<byte>)
    requires 2 <= |s| && s[0] == '3' && s[1] == 'e'
    ensures FeedScriptUpTo(Initial, s, 2) == Fed(Ok(()), Initial.(state := State.Exponent, integer := [3]))
  {
    var three := Initial.(state := State.Integer, integer := [3]);
    assert FeedScriptUpTo(Initial, s, 0) == Fed(Ok(()), Initial);
    FeedsOneMore(Initial, s, 0, Initial, three);
    FeedsOneMore(Initial, s, 1, three, three.(state := State.Exponent));
  }

  /** An exponent mark with no digits is refused at the end of input. */
  lemma BareExponentAtEndScript()
    ensures Lexed("3e") == Err(Error.MissingDigitsAfterExponentMark(2))
  {
    FeedThreeE("3e");
  }

  /** A `,` ends a scientific literal, even one with no exponent digits, and is then emitted. */
  lemma CommaEndsExponent(c: Config)
    requires c.state == State.Exponent
    ensures FeedByteStep(c, ',')
         == Fed(Ok(()), c.(state := State.Start, integer := [], fractional := [], exponent := [],
                           tokens := c.tokens + [Token.Float(FloatRepresentation.Scientific(c.integer, c.fractional, c.exponent)),
                                                 Token.Comma]))
  {
  }

  /**
    An exponent mark with no digits followed by another byte is not refused:
    the byte ends a scientific literal with an empty exponent and is then
    lexed on its own.
  */
  lemma BareExponentBeforeCommaScript()
    ensures Lexed("3e,") == Ok([Token.Float(FloatRepresentation.Scientific([3], [], [])), Token.Comma])
  {
    var s: seq<byte> := "3e,";
    var exponent := Initial.(state := State.Exponent, integer := [3]);
    FeedThreeE(s);
    CommaEndsExponent(exponent);
    FeedsOneMore(Initial, s, 2, exponent, Initial.(tokens := [Token.Float(FloatRepresentation.Scientific([3], [], [])), Token.Comma]));
  }

  /** `0.` makes the leading zero the integer part, and an exponent may follow at once. */
  lemma FeedZeroPoint(s: seq<byte>)
    requires 2 <= |s| && s[0] == '0' && s[1] == '.'
    ensures FeedScriptUpTo(Initial, s, 2) == Fed(Ok(()), Initial.(state := State.Fractional, integer := [0]))
  {
    assert FeedScriptUpTo(Initial, s, 0) == Fed(Ok(()), Initial);
    StartsZero(Initial);
    FeedsOneMore(Initial, s, 0, Initial, Initial.(state := State.Zero));
    ZeroPoint(Initial.(state := State.Zero));
    FeedsOneMore(Initial, s, 1, Initial.(state := State.Zero), Initial.(state := State.Fractional, integer := [0]));
  }

  lemma ZeroPointExponentScript()
    ensures Lexed("0.e1") == Ok([Token.Float(FloatRepresentation.Scientific([0], [], [1]))])
  {
    var s: seq<byte> := "0.e1";
    var point := Initial.(state := State.Fractional, integer := [0]);
    FeedZeroPoint(s);
    FeedsOneMore(Initial, s, 2, point, point.(state := State.Exponent));
    var fed := point.(state := State.Exponent, exponent := [1]);
    FeedsOneMore(Initial, s, 3, point.(state := State.Exponent), fed);
    assert EofStep(fed, 4).next.tokens == [Token.Float(FloatRepresentation.Scientific([0], [], [1]))];
  }

  // ---------------------------------------------------------------------------
  // One-byte transitions, for any configuration in the given state

  /** A space ends an identifier: its spelling is classified and the space is skipped. */
  lemma SpaceEndsIdentifier(c: Config)
    requires c.state == State.Identifier
    ensures FeedByteStep(c, ' ')
         == Fed(Ok(()), c.(state := State.Start, identifier := [], tokens := c.tokens + [Classify(c.identifier)]))
  {
  }

  /** Whitespace between tokens is skipped: nothing is emitted and the configuration stays as it is. */
  lemma StartSkipsWhitespace(c: Config, b: byte)
    requires c.state == State.Start && IsWhitespace(b)
    ensures FeedByteStep(c, b) == Fed(Ok(()), c)
  {
  }

  /** Each of the twelve punctuation bytes emits its token at once and stays in `Start`. */
  lemma StartEmitsPunctuation(c: Config, b: byte)
    requires c.state == State.Start && Punctuation(b).Some?
    ensures FeedByteStep(c, b) == Fed(Ok(()), c.(tokens := c.tokens + [Punctuation(b).value]))
  {
  }

  lemma StartsMinus(c: Config)
    requires c.state == State.Start
    ensures FeedByteStep(c, '-') == Fed(Ok(()), c.(state := State.Minus))
  {
  }

  lemma StartsEquals(c: Config)
    requires c.state == State.Start
    ensures FeedByteStep(c, '=') == Fed(Ok(()), c.(state := State.Equals))
  {
  }

  /** A space after a single `=` emits `Assign` and is skipped. */
  lemma SpaceEndsEquals(c: Config)
    requires c.state == State.Equals
    ensures FeedByteStep(c, ' ') == Fed(Ok(()), c.(state := State.Start, tokens := c.tokens + [Token.Assign]))
  {
  }

  lemma StartsInteger(c: Config, b: byte)
    requires c.state == State.Start && '1' <= b <= '9'
    ensures FeedByteStep(c, b) == Fed(Ok(()), c.(state := State.Integer, integer := c.integer + [DigitValue(b)]))
  {
  }

  lemma ExtendsInteger(c: Config, b: byte)
    requires c.state == State.Integer && IsDecimalDigit(b)
    ensures FeedByteStep(c, b) == Fed(Ok(()), c.(integer := c.integer + [DigitValue(b)]))
  {
  }

  /** A `;` ends a decimal literal, which is emitted before the `;` itself. */
  lemma SemicolonEndsInteger(c: Config)
    requires c.state == State.Integer
    ensures FeedByteStep(c, ';')
         == Fed(Ok(()), c.(state := State.Start, integer := [],
                           tokens := c.tokens + [Token.Integer(IntegerRepresentation.Decimal(c.integer)), Token.Semicolon]))
  {
  }

  lemma PointAfterInteger(c: Config)
    requires c.state == State.Integer
    ensures FeedByteStep(c, '.') == Fed(Ok(()), c.(state := State.Fractional))
  {
  }

  lemma ExponentMark(c: Config)
    requires c.state == State.Integer || c.state == State.Fractional
    ensures FeedByteStep(c, 'e') == Fed(Ok(()), c.(state := State.Exponent))
  {
  }

  lemma ExtendsExponent(c: Config, b: byte)
    requires c.state == State.Exponent && IsDecimalDigit(b)
    ensures FeedByteStep(c, b) == Fed(Ok(()), c.(exponent := c.exponent + [DigitValue(b)]))
  {
  }

  // ---------------------------------------------------------------------------
  // Scripts from the lexer's own test cases

  // Each script is a parameter equal to a named script, with a lemma that
  // lists its bytes by position, and is fed a few bytes per lemma.

  const Scientific: seq<byte> := "3.14e10"

  lemma ScientificBytes(s: seq<byte>)
    requires s == Scientific
    ensures |s| == 7 && s[0] == '3' && s[1] == '.' && s[2] == '1' && s[3] == '4'
    ensures s[4] == 'e' && s[5] == '1' && s[6] == '0'
  {
  }

  lemma ScientificMantissa(s: seq<byte>)
    requires s == Scientific
    ensures FeedScriptUpTo(Initial, s, 4) == Fed(Ok(()), Initial.(state := State.Fractional, integer := [3], fractional := [1, 4]))
  {
    ScientificBytes(s);
    var three := Initial.(state := State.Integer, integer := [3]);
    var point := three.(state := State.Fractional);
    assert FeedScriptUpTo(Initial, s, 0) == Fed(Ok(()), Initial);
    StartsInteger(Initial, '3');
    FeedsOneMore(Initial, s, 0, Initial, three);
    PointAfterInteger(three);
    FeedsOneMore(Initial, s, 1, three, point);
    ExtendsFraction(point, '1');
    FeedsOneMore(Initial, s, 2, point, point.(fractional := [1]));
    ExtendsFraction(point.(fractional := [1]), '4');
    FeedsOneMore(Initial, s, 3, point.(fractional := [1]), point.(fractional := [1, 4]));
  }

  lemma ScientificExponent(s: seq<byte>)
    requires s == Scientific
    ensures FeedScriptUpTo(Initial, s, 7)
         == Fed(Ok(()), Initial.(state := State.Exponent, integer := [3], fractional := [1, 4], exponent := [1, 0]))
  {
    ScientificBytes(s);
    ScientificMantissa(s);
    var mantissa := Initial.(state := State.Fractional, integer := [3], fractional := [1, 4]);
    var exponent := mantissa.(state := State.Exponent);
    ExponentMark(mantissa);
    FeedsOneMore(Initial, s, 4, mantissa, exponent);
    ExtendsExponent(exponent, '1');
    FeedsOneMore(Initial, s, 5, exponent, exponent.(exponent := [1]));
    ExtendsExponent(exponent.(exponent := [1]), '0');
    FeedsOneMore(Initial, s, 6, exponent.(exponent := [1]), exponent.(exponent := [1, 0]));
  }

  /** `3.14e10` is one scientific literal with the digit values of each part in order. */
  lemma ScientificScript(s: seq<byte>)
    requires s == Scientific
    ensures Lexed(s) == Ok([Token.Float(FloatRepresentation.Scientific([3], [1, 4], [1, 0]))])
  {
    ScientificBytes(s);
    ScientificExponent(s);
    var fed := Initial.(state := State.Exponent, integer := [3], fractional := [1, 4], exponent := [1, 0]);
    assert EofStep(fed, 7).next.tokens == [Token.Float(FloatRepresentation.Scientific([3], [1, 4], [1, 0]))];
  }

  // Literals of the radix and float test lines, each lexed as a script of its own.

  lemma HexadecimalLiteralScript()
    ensures Lexed("0x64") == Ok([Token.Integer(IntegerRepresentation.Hexadecimal([6, 4]))])
  {
    var ds: seq<byte> := "64";
    LexHexadecimal(ds);
    assert "0x" + ds == "0x64";
    assert HexValues(ds) == [6, 4];
  }

  lemma OctalLiteralScript()
    ensures Lexed("0o77") == Ok([Token.Integer(IntegerRepresentation.Octal([7, 7]))])
  {
    var ds: seq<byte> := "77";
    LexBase('o', ds);
    assert ['0', 'o'] + ds == "0o77";
    assert DigitValues(ds) == [7, 7];
  }

  lemma BinaryDigits(ds: seq<byte>)
    requires ds == "10100101"
    ensures AllDigitsBelow(ds, 2) && DigitValues(ds) == [1, 0, 1, 0, 0, 1, 0, 1]
  {
    var v := DigitValues(ds);
    assert v[0] == 1 && v[1] == 0 && v[2] == 1 && v[3] == 0;
    assert v[4] == 0 && v[5] == 1 && v[6] == 0 && v[7] == 1;
  }

  lemma BinaryLiteralScript()
    ensures Lexed("0b10100101") == Ok([Token.Integer(IntegerRepresentation.Binary([1, 0, 1, 0, 0, 1, 0, 1]))])
  {
    var ds: seq<byte> := "10100101";
    BinaryDigits(ds);
    LexBase('b', ds);
    assert ['0', 'b'] + ds == "0b10100101";
  }

  /** `0.`: a float whose integer part is the leading zero and whose fraction is empty. */
  lemma ZeroPointScript()
    ensures Lexed("0.") == Ok([Token.Float(FloatRepresentation.Decimal([0], []))])
  {
    var s: seq<byte> := "0.";
    FeedZeroPoint(s);
    var fed := Initial.(state := State.Fractional, integer := [0]);
    assert EofStep(fed, 2).next.tokens == [Token.Float(FloatRepresentation.Decimal([0], []))];
  }

  lemma ThreePointScript()
    ensures Lexed("3.") == Ok([Token.Float(FloatRepresentation.Decimal([3], []))])
  {
    var s: seq<byte> := "3.";
    var three := Initial.(state := State.Integer, integer := [3]);
    assert FeedScriptUpTo(Initial, s, 0) == Fed(Ok(()), Initial);
    StartsInteger(Initial, '3');
    FeedsOneMore(Initial, s, 0, Initial, three);
    PointAfterInteger(three);
    FeedsOneMore(Initial, s, 1, three, three.(state := State.Fractional));
    assert EofStep(three.(state := State.Fractional), 2).next.tokens == [Token.Float(FloatRepresentation.Decimal([3], []))];
  }

  /** `.0`: a float whose integer part is empty, not zero. */
  lemma PointZeroScript()
    ensures Lexed(".0") == Ok([Token.Float(FloatRepresentation.Decimal([], [0]))])
  {
    var ds: seq<byte> := "0";
    LexPointFraction(ds);
    assert ['.'] + ds == ".0";
    assert DigitValues(ds) == [0];
  }

  lemma PointFractionScript()
    ensures Lexed(".14") == Ok([Token.Float(FloatRepresentation.Decimal([], [1, 4]))])
  {
    var ds: seq<byte> := "14";
    LexPointFraction(ds);
    assert ['.'] + ds == ".14";
    assert DigitValues(ds) == [1, 4];
  }

  const LetStatement: seq<byte> := "let x = 123;"

  lemma LetStatementBytes(s: seq<byte>)
    requires s == LetStatement
    ensures |s| == 12 && s[0] == 'l' && s[1] == 'e' && s[2] == 't' && s[3] == ' ' && s[4] == 'x' && s[5] == ' '
    ensures s[6] == '=' && s[7] == ' ' && s[8] == '1' && s[9] == '2' && s[10] == '3' && s[11] == ';'
  {
  }

  lemma LetStatementKeyword(s: seq<byte>)
    requires s == LetStatement
    ensures FeedScriptUpTo(Initial, s, 4) == Fed(Ok(()), Initial.(tokens := [Token.Let]))
  {
    LetStatementBytes(s);
    var l := Initial.(state := State.Identifier, identifier := "l");
    assert FeedScriptUpTo(Initial, s, 0) == Fed(Ok(()), Initial);
    StartsIdentifier(Initial, 'l');
    FeedsOneMore(Initial, s, 0, Initial, l);
    ExtendsIdentifier(l, 'e');
    FeedsOneMore(Initial, s, 1, l, l.(identifier := "le"));
    ExtendsIdentifier(l.(identifier := "le"), 't');
    FeedsOneMore(Initial, s, 2, l.(identifier := "le"), l.(identifier := "let"));
    assert Classify("let") == Token.Let;
    SpaceEndsIdentifier(l.(identifier := "let"));
    FeedsOneMore(Initial, s, 3, l.(identifier := "let"), Initial.(tokens := [Token.Let]));
  }

  lemma LetStatementName(s: seq<byte>)
    requires s == LetStatement
    ensures FeedScriptUpTo(Initial, s, 6) == Fed(Ok(()), Initial.(tokens := [Token.Let, Token.Identifier("x")]))
  {
    LetStatementBytes(s);
    LetStatementKeyword(s);
    var keyword := Initial.(tokens := [Token.Let]);
    var x := keyword.(state := State.Identifier, identifier := "x");
    OneByteNameIsIdentifier("x");
    StartsIdentifier(keyword, 'x');
    FeedsOneMore(Initial, s, 4, keyword, x);
    SpaceEndsIdentifier(x);
    FeedsOneMore(Initial, s, 5, x, Initial.(tokens := [Token.Let, Token.Identifier("x")]));
  }

  lemma LetStatementAssign(s: seq<byte>)
    requires s == LetStatement
    ensures FeedScriptUpTo(Initial, s, 8) == Fed(Ok(()), Initial.(tokens := [Token.Let, Token.Identifier("x"), Token.Assign]))
  {
    LetStatementBytes(s);
    LetStatementName(s);
    var named := Initial.(tokens := [Token.Let, Token.Identifier("x")]);
    StartsEquals(named);
    FeedsOneMore(Initial, s, 6, named, named.(state := State.Equals));
    SpaceEndsEquals(named.(state := State.Equals));
    FeedsOneMore(Initial, s, 7, named.(state := State.Equals), Initial.(tokens := [Token.Let, Token.Identifier("x"), Token.Assign]));
  }

  lemma LetStatementNumber(s: seq<byte>)
    requires s == LetStatement
    ensures FeedScriptUpTo(Initial, s, 12)
         == Fed(Ok(()), Initial.(tokens := [Token.Let, Token.Identifier("x"), Token.Assign,
                                           Token.Integer(IntegerRepresentation.Decimal([1, 2, 3])), Token.Semicolon]))
  {
    LetStatementBytes(s);
    LetStatementAssign(s);
    var bound := Initial.(tokens := [Token.Let, Token.Identifier("x"), Token.Assign]);
    var one := bound.(state := State.Integer, integer := [1]);
    StartsInteger(bound, '1');
    FeedsOneMore(Initial, s, 8, bound, one);
    ExtendsInteger(one, '2');
    FeedsOneMore(Initial, s, 9, one, one.(integer := [1, 2]));
    ExtendsInteger(one.(integer := [1, 2]), '3');
    FeedsOneMore(Initial, s, 10, one.(integer := [1, 2]), one.(integer := [1, 2, 3]));
    SemicolonEndsInteger(one.(integer := [1, 2, 3]));
    FeedsOneMore(Initial, s, 11, one.(integer := [1, 2, 3]),
                 Initial.(tokens := [Token.Let, Token.Identifier("x"), Token.Assign,
                                     Token.Integer(IntegerRepresentation.Decimal([1, 2, 3])), Token.Semicolon]));
  }

  /**
    `let x = 123;` lexes to the keyword, the identifier with its bytes, the
    `=` as `Assign`, the decimal literal's digit values and the `;`.
  */
  lemma LetStatementScript(s: seq<byte>)
    requires s == LetStatement
    ensures Lexed(s) == Ok([Token.Let, Token.Identifier("x"), Token.Assign,
                            Token.Integer(IntegerRepresentation.Decimal([1, 2, 3])), Token.Semicolon])
  {
    LetStatementBytes(s);
    LetStatementNumber(s);
  }
}
