/**
  The front end as a whole: the tokens `Lexed` produces from a script are the
  input the parser functions read.
*/
module EndToEnd {
  import opened Wrappers
  import opened Lexer
  import opened Parser
  import opened ParserProperties
  import LexerScenarios

  const OneTwoThree: ASTNode := ASTNode.IntegerLiteral(IntegerRepresentation.Decimal([1, 2, 3]))

  const BindX: ASTNode := ASTNode.Assign(BinaryOperation(ASTNode.Identifier("x"), OneTwoThree))

  /** The tokens of `let x = 123;`. */
  const LetTokens: seq<Token> :=
    [Token.Let, Token.Identifier("x"), Token.Assign, Token.Integer(IntegerRepresentation.Decimal([1, 2, 3])), Token.Semicolon]

  lemma LetTokensParse(t: seq<Token>)
    requires t == LetTokens
    ensures StatementAt(t, 0) == Ok(Parsed(BindX, 4))
  {
    assert |t| == 5 && t[3] == Token.Integer(IntegerRepresentation.Decimal([1, 2, 3])) && t[4] == Token.Semicolon;
    AtomFactor(t, 3);
    FactorExpression(t, 3, Parsed(OneTwoThree, 4));
  }

  /**
    `let x = 123;` from its bytes: the statement assigns the decimal literal
    `123` to `x`, and parsing stops before the `;`.
  */
  lemma LetStatementParses(s: seq<byte>)
    requires s == LexerScenarios.LetStatement
    ensures Lexed(s).Ok?
    ensures StatementAt(Lexed(s).value, 0) == Ok(Parsed(BindX, 4))
    ensures Parsing(Lexed(s).value) == Ok(BindX)
  {
    LexerScenarios.LetStatementScript(s);
    assert Lexed(s).value == LetTokens;
    LetTokensParse(Lexed(s).value);
  }
}
