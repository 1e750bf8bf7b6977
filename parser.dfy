/**
  The parser of the front end: recursive descent over a token sequence with a
  forward cursor and one token of lookahead. Reading past the end yields the
  `EOF` sentinel instead of failing.

  The grammar is one statement form, `let IDENT = expression`, over two
  left-associative precedence levels: a term is factors joined by `+`/`-`, a
  factor is primaries joined by `*`/`/`, and a primary is an identifier, a
  literal or a parenthesised expression.

  The grammar is specified by functions from a token sequence and a position
  to the node parsed there and the position after it; the class `Parser`
  holds the cursor in a field and each of its methods is proved to produce
  what its function says.
*/
module Parser {
  import opened Wrappers
  import opened Lexer

  datatype UnaryOperation = UnaryOperation(operand: ASTNode)

  datatype BinaryOperation = BinaryOperation(leftOperand: ASTNode, rightOperand: ASTNode)

  datatype ASTNode =
    | Identifier(name: seq<byte>)
    | IntegerLiteral(integer: IntegerRepresentation)
    | FloatLiteral(float: FloatRepresentation)
    | UnaryAddition(unary: UnaryOperation)
    | UnarySubtraction(unary: UnaryOperation)
    | BinaryAddition(binary: BinaryOperation)
    | BinarySubtraction(binary: BinaryOperation)
    | BinaryMultiplication(binary: BinaryOperation)
    | BinaryDivision(binary: BinaryOperation)
    | LogicalAnd(binary: BinaryOperation)
    | LogicalOr(binary: BinaryOperation)
    | LogicalNot(unary: UnaryOperation)
    | LogicalXor(binary: BinaryOperation)
    | Assign(binary: BinaryOperation)

  /** The parser's only error; it carries no position. */
  datatype ParseError = UnexpectedToken

  // ---------------------------------------------------------------------------
  // The grammar as functions

  /** The token under the cursor, or the `EOF` sentinel past the end. */
  function TokenAt(tokens: seq<Token>, pos: nat): (t: Token)
    ensures t != Token.EOF || pos >= |tokens| || tokens[pos] == Token.EOF
    ensures pos >= |tokens| ==> t == Token.EOF
  {
    if pos < |tokens| then tokens[pos] else Token.EOF
  }

  /** A parsed node and the cursor position after it. */
  datatype Parsed = Parsed(node: ASTNode, pos: nat)

  predicate IsAdditive(t: Token) { t == Token.Plus || t == Token.Minus }

  predicate IsMultiplicative(t: Token) { t == Token.Asterisk || t == Token.ForwardSlash }

  predicate IsAtom(t: Token) { t.Identifier? || t.Integer? || t.Float? }

  /** The node an identifier or literal token becomes: it carries the token's payload. */
  function AtomNode(t: Token): ASTNode
    requires IsAtom(t)
  {
    match t
    case Identifier(name) => ASTNode.Identifier(name)
    case Integer(integer) => ASTNode.IntegerLiteral(integer)
    case Float(float) => ASTNode.FloatLiteral(float)
  }

  /** The node an operator token builds from its two operands. */
  function Combine(op: Token, left: ASTNode, right: ASTNode): ASTNode
    requires IsAdditive(op) || IsMultiplicative(op)
  {
    var operation := BinaryOperation(left, right);
    if op == Token.Plus then ASTNode.BinaryAddition(operation)
    else if op == Token.Minus then ASTNode.BinarySubtraction(operation)
    else if op == Token.Asterisk then ASTNode.BinaryMultiplication(operation)
    else ASTNode.BinaryDivision(operation)
  }

  predicate IsAdditiveNode(n: ASTNode) { n.BinaryAddition? || n.BinarySubtraction? }

  predicate IsMultiplicativeNode(n: ASTNode) { n.BinaryMultiplication? || n.BinaryDivision? }

  /** `parse_expression`: an expression is a term. */
  function ExpressionAt(tokens: seq<Token>, pos: nat): (r: Result<Parsed, ParseError>)
    requires pos <= |tokens|
    ensures r.Ok? ==> pos < r.value.pos <= |tokens|
    ensures r.Ok? ==> !IsAdditive(TokenAt(tokens, r.value.pos)) && !IsMultiplicative(TokenAt(tokens, r.value.pos))
    decreases |tokens| - pos, 4
  {
    TermAt(tokens, pos)
  }

  /** `parse_term`: a factor, then the `+`/`-` loop. */
  function TermAt(tokens: seq<Token>, pos: nat): (r: Result<Parsed, ParseError>)
    requires pos <= |tokens|
    ensures r.Ok? ==> pos < r.value.pos <= |tokens|
    ensures r.Ok? ==> !IsAdditive(TokenAt(tokens, r.value.pos)) && !IsMultiplicative(TokenAt(tokens, r.value.pos))
    decreases |tokens| - pos, 3
  {
    match FactorAt(tokens, pos)
    case Err(e) => Err(e)
    case Ok(first) => TermRest(tokens, first.node, first.pos)
  }

  /**
    The `+`/`-` loop of `parse_term` with `left` parsed so far: while the next
    token is `+` or `-`, consume it, parse a factor and combine. It stops at the
    first other token and leaves it unconsumed.
  */
  function TermRest(tokens: seq<Token>, left: ASTNode, pos: nat): (r: Result<Parsed, ParseError>)
    requires pos <= |tokens|
    ensures r.Ok? ==> pos <= r.value.pos <= |tokens|
    ensures r.Ok? ==> !IsAdditive(TokenAt(tokens, r.value.pos))
    ensures r.Ok? && !IsMultiplicative(TokenAt(tokens, pos)) ==> !IsMultiplicative(TokenAt(tokens, r.value.pos))
    decreases |tokens| - pos, 3
  {
    var op := TokenAt(tokens, pos);
    if IsAdditive(op) then
      match FactorAt(tokens, pos + 1)
      case Err(e) => Err(e)
      case Ok(right) => TermRest(tokens, Combine(op, left, right.node), right.pos)
    else
      Ok(Parsed(left, pos))
  }

  /** `parse_factor`: a primary, then the `*`/`/` loop. */
  function FactorAt(tokens: seq<Token>, pos: nat): (r: Result<Parsed, ParseError>)
    requires pos <= |tokens|
    ensures r.Ok? ==> pos < r.value.pos <= |tokens|
    ensures r.Ok? ==> !IsMultiplicative(TokenAt(tokens, r.value.pos))
    decreases |tokens| - pos, 2
  {
    match PrimaryAt(tokens, pos)
    case Err(e) => Err(e)
    case Ok(first) => FactorRest(tokens, first.node, first.pos)
  }

  /** The `*`/`/` loop of `parse_factor` with `left` parsed so far. */
  function FactorRest(tokens: seq<Token>, left: ASTNode, pos: nat): (r: Result<Parsed, ParseError>)
    requires pos <= |tokens|
    ensures r.Ok? ==> pos <= r.value.pos <= |tokens|
    ensures r.Ok? ==> !IsMultiplicative(TokenAt(tokens, r.value.pos))
    decreases |tokens| - pos, 2
  {
    var op := TokenAt(tokens, pos);
    if IsMultiplicative(op) then
      match PrimaryAt(tokens, pos + 1)
      case Err(e) => Err(e)
      case Ok(right) => FactorRest(tokens, Combine(op, left, right.node), right.pos)
    else
      Ok(Parsed(left, pos))
  }

  /**
    `parse_primary`: an identifier or literal becomes a node with the same
    payload; `(` expression `)` yields the inner node itself; anything else,
    or a missing `)`, is `UnexpectedToken`.
  */
  function PrimaryAt(tokens: seq<Token>, pos: nat): (r: Result<Parsed, ParseError>)
    requires pos <= |tokens|
    ensures r.Ok? ==> pos < r.value.pos <= |tokens|
    decreases |tokens| - pos, 1
  {
    match TokenAt(tokens, pos)
    case Identifier(name) => Ok(Parsed(ASTNode.Identifier(name), pos + 1))
    case Integer(integer) => Ok(Parsed(ASTNode.IntegerLiteral(integer), pos + 1))
    case Float(float) => Ok(Parsed(ASTNode.FloatLiteral(float), pos + 1))
    case LeftParenthesis =>
      (match ExpressionAt(tokens, pos + 1)
       case Err(e) => Err(e)
       case Ok(inner) =>
         if TokenAt(tokens, inner.pos) == Token.RightParenthesis then Ok(Parsed(inner.node, inner.pos + 1))
         else Err(UnexpectedToken))
    case _ => Err(UnexpectedToken)
  }

  /**
    The three cases of a primary: an atom becomes its node, a parenthesised
    expression is unwrapped and needs its closing `)`, anything else fails.
  */
  lemma PrimaryCases(tokens: seq<Token>, pos: nat)
    requires pos <= |tokens|
    ensures var r := PrimaryAt(tokens, pos);
            IsAtom(TokenAt(tokens, pos)) ==> r == Ok(Parsed(AtomNode(TokenAt(tokens, pos)), pos + 1))
    ensures TokenAt(tokens, pos) == Token.LeftParenthesis ==>
              var r := PrimaryAt(tokens, pos);
              var inner := ExpressionAt(tokens, pos + 1);
              (r.Ok? <==> inner.Ok? && TokenAt(tokens, inner.value.pos) == Token.RightParenthesis)
    ensures var r := PrimaryAt(tokens, pos);
            TokenAt(tokens, pos) == Token.LeftParenthesis && r.Ok? ==>
              var inner := ExpressionAt(tokens, pos + 1).value;
              r.value == Parsed(inner.node, inner.pos + 1)
    ensures !IsAtom(TokenAt(tokens, pos)) && TokenAt(tokens, pos) != Token.LeftParenthesis ==>
              PrimaryAt(tokens, pos) == Err(UnexpectedToken)
  {
  }

  /** `Parser::parse` from `pos`: `let`, an identifier, `=`, then an expression. */
  function StatementAt(tokens: seq<Token>, pos: nat): (r: Result<Parsed, ParseError>)
    requires pos <= |tokens|
    ensures r.Ok? ==> pos + 3 < r.value.pos <= |tokens|
    ensures r.Ok? <==> && TokenAt(tokens, pos) == Token.Let
                         && TokenAt(tokens, pos + 1).Identifier?
                         && TokenAt(tokens, pos + 2) == Token.Assign
                         && ExpressionAt(tokens, pos + 3).Ok?
    ensures r.Ok? ==>
              var e := ExpressionAt(tokens, pos + 3).value;
              r.value == Parsed(ASTNode.Assign(BinaryOperation(ASTNode.Identifier(TokenAt(tokens, pos + 1).name), e.node)), e.pos)
  {
    if TokenAt(tokens, pos) != Token.Let || !TokenAt(tokens, pos + 1).Identifier? then Err(UnexpectedToken)
    else if TokenAt(tokens, pos + 2) != Token.Assign then Err(UnexpectedToken)
    else
      match ExpressionAt(tokens, pos + 3)
      case Err(e) => Err(e)
      case Ok(e) => Ok(Parsed(ASTNode.Assign(BinaryOperation(ASTNode.Identifier(TokenAt(tokens, pos + 1).name), e.node)), e.pos))
  }

  /**
    `parse`: the statement at the start of the tokens. It succeeds exactly when
    the tokens begin `let`, an identifier, `=` and an expression, and then
    returns `Assign(Identifier(name), expression)`; the tokens after the
    expression need not be consumed.
  */
  function Parsing(tokens: seq<Token>): (r: Result<ASTNode, ParseError>)
    ensures r.Ok? <==> && |tokens| >= 3 && tokens[0] == Token.Let && tokens[1].Identifier?
                         && tokens[2] == Token.Assign && ExpressionAt(tokens, 3).Ok?
    ensures r.Ok? ==>
              r.value == ASTNode.Assign(BinaryOperation(ASTNode.Identifier(tokens[1].name), ExpressionAt(tokens, 3).value.node))
  {
    match StatementAt(tokens, 0)
    case Err(e) => Err(e)
    case Ok(statement) => Ok(statement.node)
  }

  // ---------------------------------------------------------------------------
  // The parser object

  /** A method's result and final cursor as its specification function predicts. */
  predicate Produces(spec: Result<Parsed, ParseError>, r: Result<ASTNode, ParseError>, offset: nat) {
    match spec
    case Ok(p) => r == Ok(p.node) && offset == p.pos
    case Err(e) => r == Err(e)
  }

  class Parser {
    const tokens: seq<Token>
    const eofToken: Token
    const length: nat
    var offset: nat

    /** The cursor never moves past the end. */
    ghost predicate Valid()
      reads this
    {
      length == |tokens| && offset <= length && eofToken == Token.EOF
    }

    constructor (tokens: seq<Token>)
      ensures Valid() && this.tokens == tokens && offset == 0
    {
      this.tokens := tokens;
      eofToken := Token.EOF;
      length := |tokens|;
      offset := 0;
    }

    /** The token under the cursor, without moving it. */
    method Peek() returns (t: Token)
      requires Valid()
      ensures t == TokenAt(tokens, offset)
    {
      if offset < length {
        t := tokens[offset];
      } else {
        t := eofToken;
      }
    }

    /** The token under the cursor; the cursor moves by one unless it is at the end. */
    method Consume() returns (t: Token)
      requires Valid()
      modifies this`offset
      ensures Valid()
      ensures t == TokenAt(tokens, old(offset))
      ensures offset == if old(offset) < length then old(offset) + 1 else old(offset)
    {
      if offset < length {
        t := tokens[offset];
        offset := offset + 1;
      } else {
        t := eofToken;
      }
    }

    method Parse() returns (r: Result<ASTNode, ParseError>)
      requires Valid()
      modifies this`offset
      ensures Valid()
      ensures Produces(StatementAt(tokens, old(offset)), r, offset)
    {
      var first := Consume();
      if first != Token.Let {
        return Err(UnexpectedToken);
      }
      var name := Consume();
      if !name.Identifier? {
        return Err(UnexpectedToken);
      }
      var identifier := ASTNode.Identifier(name.name);
      var assign := Consume();
      if assign != Token.Assign {
        return Err(UnexpectedToken);
      }
      var rightOperand := ParseExpression();
      if rightOperand.Err? {
        return Err(rightOperand.error);
      }
      return Ok(ASTNode.Assign(BinaryOperation(identifier, rightOperand.value)));
    }

    method ParseExpression() returns (r: Result<ASTNode, ParseError>)
      requires Valid()
      modifies this`offset
      ensures Valid()
      ensures Produces(ExpressionAt(tokens, old(offset)), r, offset)
      decreases length - offset, 4
    {
      r := ParseTerm();
    }

    method ParseTerm() returns (r: Result<ASTNode, ParseError>)
      requires Valid()
      modifies this`offset
      ensures Valid()
      ensures Produces(TermAt(tokens, old(offset)), r, offset)
      decreases length - offset, 3
    {
      var first := ParseFactor();
      if first.Err? {
        return Err(first.error);
      }
      var operand := first.value;
      while true
        invariant Valid() && old(offset) < offset
        invariant TermRest(tokens, operand, offset) == TermAt(tokens, old(offset))
        decreases length - offset
      {
        var operator := Peek();
        if !IsAdditive(operator) {
          break;
        }
        ghost var here := offset;
        var _ := Consume();
        var rightOperand := ParseFactor();
        if rightOperand.Err? {
          assert TermRest(tokens, operand, here) == Err(rightOperand.error);
          return Err(rightOperand.error);
        }
        var combined := if operator == Token.Plus then ASTNode.BinaryAddition(BinaryOperation(operand, rightOperand.value))
                        else ASTNode.BinarySubtraction(BinaryOperation(operand, rightOperand.value));
        assert TermRest(tokens, operand, here) == TermRest(tokens, combined, offset);
        operand := combined;
      }
      return Ok(operand);
    }

    method ParseFactor() returns (r: Result<ASTNode, ParseError>)
      requires Valid()
      modifies this`offset
      ensures Valid()
      ensures Produces(FactorAt(tokens, old(offset)), r, offset)
      decreases length - offset, 2
    {
      var first := ParsePrimary();
      if first.Err? {
        return Err(first.error);
      }
      var operand := first.value;
      while true
        invariant Valid() && old(offset) < offset
        invariant FactorRest(tokens, operand, offset) == FactorAt(tokens, old(offset))
        decreases length - offset
      {
        var operator := Peek();
        if !IsMultiplicative(operator) {
          break;
        }
        ghost var here := offset;
        var _ := Consume();
        var rightOperand := ParsePrimary();
        if rightOperand.Err? {
          assert FactorRest(tokens, operand, here) == Err(rightOperand.error);
          return Err(rightOperand.error);
        }
        var combined := if operator == Token.Asterisk then ASTNode.BinaryMultiplication(BinaryOperation(operand, rightOperand.value))
                        else ASTNode.BinaryDivision(BinaryOperation(operand, rightOperand.value));
        assert FactorRest(tokens, operand, here) == FactorRest(tokens, combined, offset);
        operand := combined;
      }
      return Ok(operand);
    }

    method ParsePrimary() returns (r: Result<ASTNode, ParseError>)
      requires Valid()
      modifies this`offset
      ensures Valid()
      ensures Produces(PrimaryAt(tokens, old(offset)), r, offset)
      decreases length - offset, 1
    {
      var t := Consume();
      match t
      case Identifier(name) =>
        return Ok(ASTNode.Identifier(name));
      case Integer(integer) =>
        return Ok(ASTNode.IntegerLiteral(integer));
      case Float(float) =>
        return Ok(ASTNode.FloatLiteral(float));
      case LeftParenthesis =>
        var node := ParseExpression();
        if node.Err? {
          return node;
        }
        var close := Consume();
        if close != Token.RightParenthesis {
          return Err(UnexpectedToken);
        }
        return node;
      case _ =>
        return Err(UnexpectedToken);
    }
  }

  /** `parse`: a fresh parser over the tokens, parsing one statement. */
  method Parse(tokens: seq<Token>) returns (r: Result<ASTNode, ParseError>)
    ensures r == Parsing(tokens)
  {
    var parser := new Parser(tokens);
    r := parser.Parse();
  }
}
