/**
  Concrete token sequences worked through the parser functions: what the
  parser builds for small expressions and statements, and what it refuses.
*/
module ParserScenarios {
  import opened Wrappers
  import opened Lexer
  import opened Parser
  import opened ParserProperties

  function Digit(d: u8): Token {
    Token.Integer(IntegerRepresentation.Decimal([d]))
  }

  function Literal(d: u8): ASTNode {
    ASTNode.IntegerLiteral(IntegerRepresentation.Decimal([d]))
  }

  function Add(left: ASTNode, right: ASTNode): ASTNode {
    ASTNode.BinaryAddition(BinaryOperation(left, right))
  }

  function Multiply(left: ASTNode, right: ASTNode): ASTNode {
    ASTNode.BinaryMultiplication(BinaryOperation(left, right))
  }

  const NameA: ASTNode := ASTNode.Identifier("a")
  const NameB: ASTNode := ASTNode.Identifier("b")
  const NameC: ASTNode := ASTNode.Identifier("c")
  const NameD: ASTNode := ASTNode.Identifier("d")

  // Each example takes its tokens as a parameter equal to a named sequence,
  // and a lemma beside the sequence lists its tokens by position, so that the
  // grammar functions are unfolded only where a step asks for it.

  /** `let x = 1 + 2 * 3` */
  const LetSum: seq<Token> :=
    [Token.Let, Token.Identifier("x"), Token.Assign, Digit(1), Token.Plus, Digit(2), Token.Asterisk, Digit(3)]

  lemma LetSumTokens(t: seq<Token>)
    requires t == LetSum
    ensures |t| == 8 && t[0] == Token.Let && t[1] == Token.Identifier("x") && t[2] == Token.Assign
    ensures t[3] == Digit(1) && t[4] == Token.Plus && t[5] == Digit(2) && t[6] == Token.Asterisk && t[7] == Digit(3)
  {
  }

  lemma LetSumExpression(t: seq<Token>)
    requires t == LetSum
    ensures ExpressionAt(t, 3) == Ok(Parsed(Add(Literal(1), Multiply(Literal(2), Literal(3))), 8))
  {
    LetSumTokens(t);
    ProductBindsTighter(t, 3);
  }

  /** `*` binds tighter than `+`: `let x = 1 + 2 * 3` assigns `1 + (2 * 3)`. */
  lemma ProductInsideSum(t: seq<Token>)
    requires t == LetSum
    ensures Parsing(t) == Ok(ASTNode.Assign(BinaryOperation(ASTNode.Identifier("x"), Add(Literal(1), Multiply(Literal(2), Literal(3))))))
  {
    LetSumTokens(t);
    LetSumExpression(t);
  }

  /** `(1 + 2) * 3` */
  const GroupedSum: seq<Token> :=
    [Token.LeftParenthesis, Digit(1), Token.Plus, Digit(2), Token.RightParenthesis, Token.Asterisk, Digit(3)]

  lemma GroupedSumTokens(t: seq<Token>)
    requires t == GroupedSum
    ensures |t| == 7 && t[0] == Token.LeftParenthesis && t[1] == Digit(1) && t[2] == Token.Plus && t[3] == Digit(2)
    ensures t[4] == Token.RightParenthesis && t[5] == Token.Asterisk && t[6] == Digit(3)
  {
  }

  /** Parentheses override precedence and leave no node of their own. */
  lemma ParenthesisedSumTimes(t: seq<Token>)
    requires t == GroupedSum
    ensures ExpressionAt(t, 0) == Ok(Parsed(Multiply(Add(Literal(1), Literal(2)), Literal(3)), 7))
  {
    GroupedSumTokens(t);
    ParenthesesOverridePrecedence(t, 0);
  }

  /** `a + b - c` */
  const SumThenDifference: seq<Token> :=
    [Token.Identifier("a"), Token.Plus, Token.Identifier("b"), Token.Minus, Token.Identifier("c")]

  lemma SumThenDifferenceTokens(t: seq<Token>)
    requires t == SumThenDifference
    ensures |t| == 5 && t[0] == Token.Identifier("a") && t[1] == Token.Plus && t[2] == Token.Identifier("b")
    ensures t[3] == Token.Minus && t[4] == Token.Identifier("c")
  {
  }

  const SumThenDifferenceOperators: seq<BinaryOperator> := [Token.Plus, Token.Minus]
  const SumThenDifferenceOperands: seq<Parsed> := [Parsed(NameA, 1), Parsed(NameB, 3), Parsed(NameC, 5)]

  lemma SumChain(t: seq<Token>)
    requires t == SumThenDifference
    ensures FactorChain(t, 0, [Token.Plus], [Parsed(NameA, 1), Parsed(NameB, 3)])
  {
    SumThenDifferenceTokens(t);
    AtomFactor(t, 0);
    AtomFactor(t, 2);
    FactorChainStart(t, 0, Parsed(NameA, 1));
    FactorChainExtend(t, 0, [], [Parsed(NameA, 1)], Parsed(NameB, 3));
    assert [] + [t[1]] == [Token.Plus];
  }

  lemma SumThenDifferenceChain(t: seq<Token>)
    requires t == SumThenDifference
    ensures FactorChain(t, 0, SumThenDifferenceOperators, SumThenDifferenceOperands)
    ensures TokenAt(t, 5) == Token.EOF
  {
    SumThenDifferenceTokens(t);
    SumChain(t);
    AtomFactor(t, 4);
    FactorChainExtend(t, 0, [Token.Plus], [Parsed(NameA, 1), Parsed(NameB, 3)], Parsed(NameC, 5));
    assert [Token.Plus] + [t[3]] == SumThenDifferenceOperators;
    assert [Parsed(NameA, 1), Parsed(NameB, 3)] + [Parsed(NameC, 5)] == SumThenDifferenceOperands;
  }

  /** Folding `a`, `b`, `c` under `+`, `-` from the left gives `(a + b) - c`. */
  lemma SumThenDifferenceFold()
    ensures LeftFold(SumThenDifferenceOperators, SumThenDifferenceOperands, 2)
         == ASTNode.BinarySubtraction(BinaryOperation(Add(NameA, NameB), NameC))
  {
    assert LeftFold(SumThenDifferenceOperators, SumThenDifferenceOperands, 1) == Add(NameA, NameB);
  }

  /** Operators of one level nest to the left: `a + b - c` is `(a + b) - c`. */
  lemma SumThenDifferenceNestsLeft(t: seq<Token>)
    requires t == SumThenDifference
    ensures ExpressionAt(t, 0)
         == Ok(Parsed(ASTNode.BinarySubtraction(BinaryOperation(Add(NameA, NameB), NameC)), 5))
  {
    SumThenDifferenceChain(t);
    SumThenDifferenceFold();
    TermIsLeftFold(t, 0, SumThenDifferenceOperators, SumThenDifferenceOperands);
  }

  /** `a * b - c * d` */
  const ProductsDifference: seq<Token> :=
    [Token.Identifier("a"), Token.Asterisk, Token.Identifier("b"), Token.Minus,
     Token.Identifier("c"), Token.Asterisk, Token.Identifier("d")]

  lemma ProductsDifferenceTokens(t: seq<Token>)
    requires t == ProductsDifference
    ensures |t| == 7 && t[0] == Token.Identifier("a") && t[1] == Token.Asterisk && t[2] == Token.Identifier("b")
    ensures t[3] == Token.Minus && t[4] == Token.Identifier("c") && t[5] == Token.Asterisk && t[6] == Token.Identifier("d")
  {
  }

  /** A product of two atoms from `pos` that stops at a token that is not `*` or `/`. */
  lemma AtomProduct(t: seq<Token>, pos: nat)
    requires pos + 2 < |t| && IsAtom(t[pos]) && t[pos + 1] == Token.Asterisk && IsAtom(t[pos + 2])
    requires !IsMultiplicative(TokenAt(t, pos + 3))
    ensures FactorAt(t, pos) == Ok(Parsed(Multiply(AtomNode(t[pos]), AtomNode(t[pos + 2])), pos + 3))
  {
    PrimaryCases(t, pos);
    PrimaryCases(t, pos + 2);
    PrimaryChainStart(t, pos, Parsed(AtomNode(t[pos]), pos + 1));
    PrimaryChainExtend(t, pos, [], [Parsed(AtomNode(t[pos]), pos + 1)], Parsed(AtomNode(t[pos + 2]), pos + 3));
    assert [] + [t[pos + 1]] == [Token.Asterisk];
    FactorIsLeftFold(t, pos, [Token.Asterisk], [Parsed(AtomNode(t[pos]), pos + 1), Parsed(AtomNode(t[pos + 2]), pos + 3)]);
  }

  /** Products are the operands of a difference: `a * b - c * d` is `(a * b) - (c * d)`. */
  const ProductsDifferenceOperands: seq<Parsed> := [Parsed(Multiply(NameA, NameB), 3), Parsed(Multiply(NameC, NameD), 7)]

  lemma ProductsDifferenceChain(t: seq<Token>)
    requires t == ProductsDifference
    ensures FactorChain(t, 0, [Token.Minus], ProductsDifferenceOperands)
    ensures TokenAt(t, 7) == Token.EOF
  {
    ProductsDifferenceTokens(t);
    AtomProduct(t, 0);
    AtomProduct(t, 4);
    FactorChainStart(t, 0, ProductsDifferenceOperands[0]);
    FactorChainExtend(t, 0, [], [ProductsDifferenceOperands[0]], ProductsDifferenceOperands[1]);
    assert [] + [t[3]] == [Token.Minus];
    assert [ProductsDifferenceOperands[0]] + [ProductsDifferenceOperands[1]] == ProductsDifferenceOperands;
  }

  lemma ProductsDifferenceNests(t: seq<Token>)
    requires t == ProductsDifference
    ensures ExpressionAt(t, 0) == Ok(Parsed(ASTNode.BinarySubtraction(BinaryOperation(Multiply(NameA, NameB), Multiply(NameC, NameD))), 7))
  {
    ProductsDifferenceChain(t);
    TermIsLeftFold(t, 0, [Token.Minus], ProductsDifferenceOperands);
  }

  /** `(a + b) / c * d` */
  const GroupedQuotientProduct: seq<Token> :=
    [Token.LeftParenthesis, Token.Identifier("a"), Token.Plus, Token.Identifier("b"), Token.RightParenthesis,
     Token.ForwardSlash, Token.Identifier("c"), Token.Asterisk, Token.Identifier("d")]

  lemma GroupedQuotientProductTokens(t: seq<Token>)
    requires t == GroupedQuotientProduct
    ensures |t| == 9 && t[0] == Token.LeftParenthesis && t[1] == Token.Identifier("a") && t[2] == Token.Plus
    ensures t[3] == Token.Identifier("b") && t[4] == Token.RightParenthesis && t[5] == Token.ForwardSlash
    ensures t[6] == Token.Identifier("c") && t[7] == Token.Asterisk && t[8] == Token.Identifier("d")
  {
  }

  const QuotientProductOperators: seq<BinaryOperator> := [Token.ForwardSlash, Token.Asterisk]
  const QuotientProductOperands: seq<Parsed> := [Parsed(Add(NameA, NameB), 5), Parsed(NameC, 7), Parsed(NameD, 9)]

  /** `(a + b) / c` is a chain of two primaries. */
  lemma GroupedQuotientChain(t: seq<Token>)
    requires t == GroupedQuotientProduct
    ensures PrimaryChain(t, 0, [Token.ForwardSlash], QuotientProductOperands[..2])
  {
    GroupedQuotientProductTokens(t);
    GroupedSumPrimary(t, 0);
    PrimaryCases(t, 6);
    var sum := Parsed(Add(NameA, NameB), 5);
    PrimaryChainStart(t, 0, sum);
    PrimaryChainExtend(t, 0, [], [sum], Parsed(NameC, 7));
    assert [] + [t[5]] == [Token.ForwardSlash];
    assert [sum] + [Parsed(NameC, 7)] == QuotientProductOperands[..2];
  }

  /** `* d` extends it to the whole of `(a + b) / c * d`, which ends the tokens. */
  lemma GroupedQuotientProductChain(t: seq<Token>)
    requires t == GroupedQuotientProduct
    ensures PrimaryChain(t, 0, QuotientProductOperators, QuotientProductOperands)
    ensures TokenAt(t, 9) == Token.EOF
  {
    GroupedQuotientProductTokens(t);
    GroupedQuotientChain(t);
    PrimaryCases(t, 8);
    PrimaryChainExtend(t, 0, [Token.ForwardSlash], QuotientProductOperands[..2], Parsed(NameD, 9));
    assert [Token.ForwardSlash] + [t[7]] == QuotientProductOperators;
    assert QuotientProductOperands[..2] + [Parsed(NameD, 9)] == QuotientProductOperands;
  }

  /**
    A parenthesised operand nests to the left like any other:
    `(a + b) / c * d` is `((a + b) / c) * d`.
  */
  lemma GroupedQuotientProductNestsLeft(t: seq<Token>)
    requires t == GroupedQuotientProduct
    ensures FactorAt(t, 0)
         == Ok(Parsed(Multiply(ASTNode.BinaryDivision(BinaryOperation(Add(NameA, NameB), NameC)), NameD), 9))
  {
    GroupedQuotientProductChain(t);
    FactorIsLeftFold(t, 0, QuotientProductOperators, QuotientProductOperands);
    assert LeftFold(QuotientProductOperators, QuotientProductOperands, 1)
        == ASTNode.BinaryDivision(BinaryOperation(Add(NameA, NameB), NameC));
  }

  /** `let x = 7;` */
  const LetSemicolon: seq<Token> := [Token.Let, Token.Identifier("x"), Token.Assign, Digit(7), Token.Semicolon]

  lemma LetSemicolonTokens(t: seq<Token>)
    requires t == LetSemicolon
    ensures |t| == 5 && t[0] == Token.Let && t[1] == Token.Identifier("x") && t[2] == Token.Assign
    ensures t[3] == Digit(7) && t[4] == Token.Semicolon
  {
  }

  /** `let x = 7;` parses, and the `;` after the expression is left unconsumed. */
  lemma TrailingSemicolonLeftUnconsumed(t: seq<Token>)
    requires t == LetSemicolon
    ensures StatementAt(t, 0) == Ok(Parsed(ASTNode.Assign(BinaryOperation(ASTNode.Identifier("x"), Literal(7))), 4))
    ensures Parsing(t) == Ok(ASTNode.Assign(BinaryOperation(ASTNode.Identifier("x"), Literal(7))))
  {
    LetSemicolonTokens(t);
    AtomFactor(t, 3);
    FactorExpression(t, 3, Parsed(Literal(7), 4));
  }

  /** `let x = ( 1` */
  const Unclosed: seq<Token> := [Token.Let, Token.Identifier("x"), Token.Assign, Token.LeftParenthesis, Digit(1)]

  lemma UnclosedTokens(t: seq<Token>)
    requires t == Unclosed
    ensures |t| == 5 && t[0] == Token.Let && t[1] == Token.Identifier("x") && t[2] == Token.Assign
    ensures t[3] == Token.LeftParenthesis && t[4] == Digit(1)
  {
  }

  lemma UnclosedPrimary(t: seq<Token>)
    requires t == Unclosed
    ensures PrimaryAt(t, 3) == Err(UnexpectedToken)
  {
    UnclosedTokens(t);
    AtomFactor(t, 4);
    FactorExpression(t, 4, Parsed(Literal(1), 5));
    PrimaryCases(t, 3);
  }

  /** A `(` without its `)` is refused. */
  lemma UnclosedParenthesis(t: seq<Token>)
    requires t == Unclosed
    ensures Parsing(t) == Err(UnexpectedToken)
  {
    UnclosedTokens(t);
    UnclosedPrimary(t);
    assert FactorAt(t, 3) == Err(UnexpectedToken);
    assert TermAt(t, 3) == Err(UnexpectedToken);
  }

  /** A statement must start with `let`. */
  lemma MissingLet(t: seq<Token>)
    requires t == [Token.Identifier("x"), Token.Assign, Digit(1)]
    ensures Parsing(t) == Err(UnexpectedToken)
  {
  }
}
