/**
  Properties of the grammar functions of `Parser`: both operator levels
  associate to the left, and `*`/`/` bind tighter than `+`/`-`.
*/
module ParserProperties {
  import opened Wrappers
  import opened Lexer
  import opened Parser

  // ---------------------------------------------------------------------------
  // Left associativity

  /** A factor starting at an atom starts with that atom as its primary. */
  lemma FirstAtomIsPrimary(tokens: seq<Token>, pos: nat)
    requires pos < |tokens| && IsAtom(tokens[pos])
    ensures FactorAt(tokens, pos) == FactorRest(tokens, AtomNode(tokens[pos]), pos + 1)
  {
    assert PrimaryAt(tokens, pos) == Ok(Parsed(AtomNode(tokens[pos]), pos + 1));
  }

  /** The `*`/`/` loop returns its operand unchanged at a token that is not `*` or `/`. */
  lemma FactorRestStops(tokens: seq<Token>, left: ASTNode, pos: nat)
    requires pos <= |tokens| && !IsMultiplicative(TokenAt(tokens, pos))
    ensures FactorRest(tokens, left, pos) == Ok(Parsed(left, pos))
  {
  }

  /** A `*` or `/` followed by a primary folds the primary into the factor. */
  lemma FactorRestPrimary(tokens: seq<Token>, left: ASTNode, pos: nat, right: Parsed)
    requires pos < |tokens| && IsMultiplicative(tokens[pos]) && PrimaryAt(tokens, pos + 1) == Ok(right)
    ensures FactorRest(tokens, left, pos) == FactorRest(tokens, Combine(tokens[pos], left, right.node), right.pos)
  {
  }

  /** The tokens that join two operands into a binary node. */
  type BinaryOperator = t: Token | IsAdditive(t) || IsMultiplicative(t) witness Token.Plus

  /**
    The left-nested tree of the first `n + 1` operands, the `i`-th operator
    joining the tree of the operands before it to operand `i + 1`:
    `((o0 op0 o1) op1 o2) ... op(n-1) on`.
  */
  function LeftFold(operators: seq<BinaryOperator>, operands: seq<Parsed>, n: nat): ASTNode
    requires n < |operands| && n <= |operators|
  {
    if n == 0 then operands[0].node
    else Combine(operators[n - 1], LeftFold(operators, operands, n - 1), operands[n].node)
  }

  /** A fold over the first `n + 1` operands ignores whatever follows them. */
  lemma {:induction false} LeftFoldPrefix(operators: seq<BinaryOperator>, operands: seq<Parsed>,
                                          op: BinaryOperator, right: Parsed, n: nat)
    requires n < |operands| && n <= |operators|
    ensures LeftFold(operators + [op], operands + [right], n) == LeftFold(operators, operands, n)
  {
    if n > 0 {
      LeftFoldPrefix(operators, operands, op, right, n - 1);
      assert (operators + [op])[n - 1] == operators[n - 1];
      assert (operands + [right])[n] == operands[n];
    }
  }

  /** One more operator and operand extend the fold by one node at its root. */
  lemma LeftFoldSnoc(operators: seq<BinaryOperator>, operands: seq<Parsed>, op: BinaryOperator, right: Parsed)
    requires |operands| == |operators| + 1
    ensures LeftFold(operators + [op], operands + [right], |operands|)
         == Combine(op, LeftFold(operators, operands, |operators|), right.node)
  {
    LeftFoldPrefix(operators, operands, op, right, |operators|);
    assert (operators + [op])[|operators|] == op;
    assert (operands + [right])[|operands|] == right;
  }

  /**
    Where the `i`-th operand of a chain starting at `pos` starts: at `pos` for
    the first, otherwise just after the operator token that ends the previous one.
  */
  function OperandStart(pos: nat, operands: seq<Parsed>, i: nat): nat
    requires i < |operands|
  {
    if i == 0 then pos else operands[i - 1].pos + 1
  }

  /**
    `operands` are the successive primaries of a factor from `pos`, and
    `operators` the `*` and `/` tokens between them: each primary parses just
    after the operator that follows the one before it. A primary is an atom or a
    parenthesised expression.
  */
  ghost predicate PrimaryChain(tokens: seq<Token>, pos: nat, operators: seq<BinaryOperator>, operands: seq<Parsed>) {
    && pos <= |tokens| && |operands| == |operators| + 1
    && (forall i {:trigger OperandStart(pos, operands, i)} | 0 <= i < |operands| ::
          OperandStart(pos, operands, i) <= |tokens| && PrimaryAt(tokens, OperandStart(pos, operands, i)) == Ok(operands[i]))
    && (forall i | 0 <= i < |operands| :: operands[i].pos <= |tokens|)
    && (forall i | 0 <= i < |operators| ::
          operands[i].pos < |tokens| && tokens[operands[i].pos] == operators[i] && IsMultiplicative(operators[i]))
  }
  /** A single primary is a chain without operators. */
  lemma PrimaryChainStart(tokens: seq<Token>, pos: nat, first: Parsed)
    requires pos <= |tokens| && PrimaryAt(tokens, pos) == Ok(first)
    ensures PrimaryChain(tokens, pos, [], [first])
  {
    assert OperandStart(pos, [first], 0) == pos;
  }


  /** One turn of the `*`/`/` loop along a chain folds in the next primary. */
  lemma FactorRestFoldsOne(tokens: seq<Token>, pos: nat, operators: seq<BinaryOperator>, operands: seq<Parsed>, k: nat)
    requires PrimaryChain(tokens, pos, operators, operands) && k < |operators|
    ensures FactorRest(tokens, LeftFold(operators, operands, k), operands[k].pos)
         == FactorRest(tokens, LeftFold(operators, operands, k + 1), operands[k + 1].pos)
  {
    assert PrimaryAt(tokens, OperandStart(pos, operands, k + 1)) == Ok(operands[k + 1]);
    FactorRestPrimary(tokens, LeftFold(operators, operands, k), operands[k].pos, operands[k + 1]);
  }

  /** From the `k`-th primary on, the `*`/`/` loop folds the rest of the chain. */
  lemma {:induction false} FactorRestFolds(tokens: seq<Token>, pos: nat, operators: seq<BinaryOperator>, operands: seq<Parsed>, k: nat)
    requires PrimaryChain(tokens, pos, operators, operands)
    requires !IsMultiplicative(TokenAt(tokens, operands[|operators|].pos))
    requires k <= |operators|
    ensures FactorRest(tokens, LeftFold(operators, operands, k), operands[k].pos)
         == Ok(Parsed(LeftFold(operators, operands, |operators|), operands[|operators|].pos))
    decreases |operators| - k
  {
    if k < |operators| {
      FactorRestFoldsOne(tokens, pos, operators, operands, k);
      FactorRestFolds(tokens, pos, operators, operands, k + 1);
    } else {
      FactorRestStops(tokens, LeftFold(operators, operands, k), operands[k].pos);
    }
  }

  /**
    Primaries joined by `*` and `/` and followed by a token that is neither are one
    factor, nested to the left, and parsing stops after the last primary.
  */
  lemma FactorIsLeftFold(tokens: seq<Token>, pos: nat, operators: seq<BinaryOperator>, operands: seq<Parsed>)
    requires PrimaryChain(tokens, pos, operators, operands)
    requires !IsMultiplicative(TokenAt(tokens, operands[|operators|].pos))
    ensures FactorAt(tokens, pos) == Ok(Parsed(LeftFold(operators, operands, |operators|), operands[|operators|].pos))
  {
    assert PrimaryAt(tokens, OperandStart(pos, operands, 0)) == Ok(operands[0]);
    FactorRestFolds(tokens, pos, operators, operands, 0);
  }

  /** Where each operand of a chain one longer starts, and what parses there. */
  lemma PrimaryStartsExtend(tokens: seq<Token>, pos: nat, operators: seq<BinaryOperator>, operands: seq<Parsed>, right: Parsed)
    requires PrimaryChain(tokens, pos, operators, operands)
    requires var last := operands[|operators|];
             last.pos < |tokens| && PrimaryAt(tokens, last.pos + 1) == Ok(right)
    ensures forall i {:trigger OperandStart(pos, operands + [right], i)} | 0 <= i < |operands| + 1 ::
              && OperandStart(pos, operands + [right], i) <= |tokens|
              && PrimaryAt(tokens, OperandStart(pos, operands + [right], i)) == Ok((operands + [right])[i])
  {
    var next := operands + [right];
    forall i {:trigger OperandStart(pos, next, i)} | 0 <= i < |next|
      ensures OperandStart(pos, next, i) <= |tokens| && PrimaryAt(tokens, OperandStart(pos, next, i)) == Ok(next[i])
    {
      if i < |operands| {
        assert OperandStart(pos, next, i) == OperandStart(pos, operands, i);
      }
    }
  }

  /** A `*`/`/` after the last primary of a chain and one more primary make a chain one longer. */
  lemma PrimaryChainExtend(tokens: seq<Token>, pos: nat, operators: seq<BinaryOperator>, operands: seq<Parsed>, right: Parsed)
    requires PrimaryChain(tokens, pos, operators, operands)
    requires var last := operands[|operators|];
             last.pos < |tokens| && IsMultiplicative(tokens[last.pos]) && PrimaryAt(tokens, last.pos + 1) == Ok(right)
    ensures PrimaryChain(tokens, pos, operators + [tokens[operands[|operators|].pos]], operands + [right])
  {
    PrimaryStartsExtend(tokens, pos, operators, operands, right);
    var op: BinaryOperator := tokens[operands[|operators|].pos];
    var next := operands + [right];
    forall i | 0 <= i < |next|
      ensures next[i].pos <= |tokens|
    {
      assert i < |operands| ==> next[i] == operands[i];
    }
    forall i | 0 <= i < |operators| + 1
      ensures next[i].pos < |tokens| && tokens[next[i].pos] == (operators + [op])[i] && IsMultiplicative((operators + [op])[i])
    {
      assert next[i] == operands[i];
    }
  }

  /** The `*`/`/` loop, once it succeeds, has extended the chain it was given. */
  lemma {:induction false} FactorRestHasChain(tokens: seq<Token>, pos: nat, operators: seq<BinaryOperator>, operands: seq<Parsed>)
      returns (allOperators: seq<BinaryOperator>, allOperands: seq<Parsed>)
    requires PrimaryChain(tokens, pos, operators, operands)
    requires FactorRest(tokens, LeftFold(operators, operands, |operators|), operands[|operators|].pos).Ok?
    ensures PrimaryChain(tokens, pos, allOperators, allOperands)
    ensures !IsMultiplicative(TokenAt(tokens, allOperands[|allOperators|].pos))
    ensures FactorRest(tokens, LeftFold(operators, operands, |operators|), operands[|operators|].pos)
         == Ok(Parsed(LeftFold(allOperators, allOperands, |allOperators|), allOperands[|allOperators|].pos))
    decreases |tokens| - operands[|operators|].pos
  {
    var last := operands[|operators|];
    if IsMultiplicative(TokenAt(tokens, last.pos)) {
      var op: BinaryOperator := tokens[last.pos];
      var right := PrimaryAt(tokens, last.pos + 1).value;
      PrimaryChainExtend(tokens, pos, operators, operands, right);
      LeftFoldSnoc(operators, operands, op, right);
      FactorRestPrimary(tokens, LeftFold(operators, operands, |operators|), last.pos, right);
      allOperators, allOperands := FactorRestHasChain(tokens, pos, operators + [op], operands + [right]);
    } else {
      allOperators, allOperands := operators, operands;
    }
  }

  /** Conversely, every factor that parses is such a left-nested chain of primaries. */
  lemma EveryFactorIsLeftFold(tokens: seq<Token>, pos: nat) returns (operators: seq<BinaryOperator>, operands: seq<Parsed>)
    requires pos <= |tokens| && FactorAt(tokens, pos).Ok?
    ensures PrimaryChain(tokens, pos, operators, operands)
    ensures !IsMultiplicative(TokenAt(tokens, operands[|operators|].pos))
    ensures FactorAt(tokens, pos) == Ok(Parsed(LeftFold(operators, operands, |operators|), operands[|operators|].pos))
  {
    var first := PrimaryAt(tokens, pos).value;
    PrimaryChainStart(tokens, pos, first);
    operators, operands := FactorRestHasChain(tokens, pos, [], [first]);
  }

  /** The `+`/`-` loop returns its operand unchanged at a token that is not `+` or `-`. */
  lemma TermRestStops(tokens: seq<Token>, left: ASTNode, pos: nat)
    requires pos <= |tokens| && !IsAdditive(TokenAt(tokens, pos))
    ensures TermRest(tokens, left, pos) == Ok(Parsed(left, pos))
  {
  }

  /**
    `operands` are the successive factors of a term from `pos`, and `operators`
    the `+` and `-` tokens between them, laid out as in `PrimaryChain`. A factor
    may itself be a product, a quotient, an atom or a parenthesised expression.
  */
  ghost predicate FactorChain(tokens: seq<Token>, pos: nat, operators: seq<BinaryOperator>, operands: seq<Parsed>) {
    && pos <= |tokens| && |operands| == |operators| + 1
    && (forall i {:trigger OperandStart(pos, operands, i)} | 0 <= i < |operands| ::
          OperandStart(pos, operands, i) <= |tokens| && FactorAt(tokens, OperandStart(pos, operands, i)) == Ok(operands[i]))
    && (forall i | 0 <= i < |operands| :: operands[i].pos <= |tokens|)
    && (forall i | 0 <= i < |operators| ::
          operands[i].pos < |tokens| && tokens[operands[i].pos] == operators[i] && IsAdditive(operators[i]))
  }
  /** A single factor is a chain without operators. */
  lemma FactorChainStart(tokens: seq<Token>, pos: nat, first: Parsed)
    requires pos <= |tokens| && FactorAt(tokens, pos) == Ok(first)
    ensures FactorChain(tokens, pos, [], [first])
  {
    assert OperandStart(pos, [first], 0) == pos;
  }


  /** One turn of the `+`/`-` loop along a chain folds in the next factor. */
  lemma TermRestFoldsOne(tokens: seq<Token>, pos: nat, operators: seq<BinaryOperator>, operands: seq<Parsed>, k: nat)
    requires FactorChain(tokens, pos, operators, operands) && k < |operators|
    ensures TermRest(tokens, LeftFold(operators, operands, k), operands[k].pos)
         == TermRest(tokens, LeftFold(operators, operands, k + 1), operands[k + 1].pos)
  {
    assert FactorAt(tokens, OperandStart(pos, operands, k + 1)) == Ok(operands[k + 1]);
    TermRestFactor(tokens, LeftFold(operators, operands, k), operands[k].pos, operands[k + 1]);
  }

  /** From the `k`-th factor on, the `+`/`-` loop folds the rest of the chain. */
  lemma {:induction false} TermRestFolds(tokens: seq<Token>, pos: nat, operators: seq<BinaryOperator>, operands: seq<Parsed>, k: nat)
    requires FactorChain(tokens, pos, operators, operands)
    requires !IsAdditive(TokenAt(tokens, operands[|operators|].pos))
    requires k <= |operators|
    ensures TermRest(tokens, LeftFold(operators, operands, k), operands[k].pos)
         == Ok(Parsed(LeftFold(operators, operands, |operators|), operands[|operators|].pos))
    decreases |operators| - k
  {
    if k < |operators| {
      TermRestFoldsOne(tokens, pos, operators, operands, k);
      TermRestFolds(tokens, pos, operators, operands, k + 1);
    } else {
      TermRestStops(tokens, LeftFold(operators, operands, k), operands[k].pos);
    }
  }

  /**
    Factors joined by `+` and `-` and followed by a token that is neither are one
    term, nested to the left, and parsing stops after the last factor.
  */
  lemma TermIsLeftFold(tokens: seq<Token>, pos: nat, operators: seq<BinaryOperator>, operands: seq<Parsed>)
    requires FactorChain(tokens, pos, operators, operands)
    requires !IsAdditive(TokenAt(tokens, operands[|operators|].pos))
    ensures TermAt(tokens, pos) == Ok(Parsed(LeftFold(operators, operands, |operators|), operands[|operators|].pos))
  {
    assert FactorAt(tokens, OperandStart(pos, operands, 0)) == Ok(operands[0]);
    TermRestFolds(tokens, pos, operators, operands, 0);
  }

  /** Where each operand of a chain one longer starts, and what parses there. */
  lemma FactorStartsExtend(tokens: seq<Token>, pos: nat, operators: seq<BinaryOperator>, operands: seq<Parsed>, right: Parsed)
    requires FactorChain(tokens, pos, operators, operands)
    requires var last := operands[|operators|];
             last.pos < |tokens| && FactorAt(tokens, last.pos + 1) == Ok(right)
    ensures forall i {:trigger OperandStart(pos, operands + [right], i)} | 0 <= i < |operands| + 1 ::
              && OperandStart(pos, operands + [right], i) <= |tokens|
              && FactorAt(tokens, OperandStart(pos, operands + [right], i)) == Ok((operands + [right])[i])
  {
    var next := operands + [right];
    forall i {:trigger OperandStart(pos, next, i)} | 0 <= i < |next|
      ensures OperandStart(pos, next, i) <= |tokens| && FactorAt(tokens, OperandStart(pos, next, i)) == Ok(next[i])
    {
      if i < |operands| {
        assert OperandStart(pos, next, i) == OperandStart(pos, operands, i);
      }
    }
  }

  /** A `+`/`-` after the last factor of a chain and one more factor make a chain one longer. */
  lemma FactorChainExtend(tokens: seq<Token>, pos: nat, operators: seq<BinaryOperator>, operands: seq<Parsed>, right: Parsed)
    requires FactorChain(tokens, pos, operators, operands)
    requires var last := operands[|operators|];
             last.pos < |tokens| && IsAdditive(tokens[last.pos]) && FactorAt(tokens, last.pos + 1) == Ok(right)
    ensures FactorChain(tokens, pos, operators + [tokens[operands[|operators|].pos]], operands + [right])
  {
    FactorStartsExtend(tokens, pos, operators, operands, right);
    var op: BinaryOperator := tokens[operands[|operators|].pos];
    var next := operands + [right];
    forall i | 0 <= i < |next|
      ensures next[i].pos <= |tokens|
    {
      assert i < |operands| ==> next[i] == operands[i];
    }
    forall i | 0 <= i < |operators| + 1
      ensures next[i].pos < |tokens| && tokens[next[i].pos] == (operators + [op])[i] && IsAdditive((operators + [op])[i])
    {
      assert next[i] == operands[i];
    }
  }

  /** The `+`/`-` loop, once it succeeds, has extended the chain it was given. */
  lemma {:induction false} TermRestHasChain(tokens: seq<Token>, pos: nat, operators: seq<BinaryOperator>, operands: seq<Parsed>)
      returns (allOperators: seq<BinaryOperator>, allOperands: seq<Parsed>)
    requires FactorChain(tokens, pos, operators, operands)
    requires TermRest(tokens, LeftFold(operators, operands, |operators|), operands[|operators|].pos).Ok?
    ensures FactorChain(tokens, pos, allOperators, allOperands)
    ensures !IsAdditive(TokenAt(tokens, allOperands[|allOperators|].pos))
    ensures TermRest(tokens, LeftFold(operators, operands, |operators|), operands[|operators|].pos)
         == Ok(Parsed(LeftFold(allOperators, allOperands, |allOperators|), allOperands[|allOperators|].pos))
    decreases |tokens| - operands[|operators|].pos
  {
    var last := operands[|operators|];
    if IsAdditive(TokenAt(tokens, last.pos)) {
      var op: BinaryOperator := tokens[last.pos];
      var right := FactorAt(tokens, last.pos + 1).value;
      FactorChainExtend(tokens, pos, operators, operands, right);
      LeftFoldSnoc(operators, operands, op, right);
      TermRestFactor(tokens, LeftFold(operators, operands, |operators|), last.pos, right);
      allOperators, allOperands := TermRestHasChain(tokens, pos, operators + [op], operands + [right]);
    } else {
      allOperators, allOperands := operators, operands;
    }
  }

  /** Conversely, every term that parses is such a left-nested chain of factors. */
  lemma EveryTermIsLeftFold(tokens: seq<Token>, pos: nat) returns (operators: seq<BinaryOperator>, operands: seq<Parsed>)
    requires pos <= |tokens| && TermAt(tokens, pos).Ok?
    ensures FactorChain(tokens, pos, operators, operands)
    ensures !IsAdditive(TokenAt(tokens, operands[|operators|].pos))
    ensures TermAt(tokens, pos) == Ok(Parsed(LeftFold(operators, operands, |operators|), operands[|operators|].pos))
  {
    var first := FactorAt(tokens, pos).value;
    FactorChainStart(tokens, pos, first);
    operators, operands := TermRestHasChain(tokens, pos, [], [first]);
  }

  // ---------------------------------------------------------------------------
  // Precedence

  /**
    The `*`/`/` loop either stops at once, returning what it was given, or
    returns a product or quotient.
  */
  lemma {:induction false} FactorRestShape(tokens: seq<Token>, left: ASTNode, pos: nat)
    requires pos <= |tokens|
    requires FactorRest(tokens, left, pos).Ok?
    ensures var r := FactorRest(tokens, left, pos).value;
            (r.node == left && r.pos == pos) || IsMultiplicativeNode(r.node)
    decreases |tokens| - pos
  {
    var op := TokenAt(tokens, pos);
    if IsMultiplicative(op) {
      var right := PrimaryAt(tokens, pos + 1).value;
      var combined := Combine(op, left, right.node);
      assert IsMultiplicativeNode(combined);
      FactorRestShape(tokens, combined, right.pos);
    }
  }

  /**
    A factor is a sum or difference only when it is written in parentheses:
    then it starts with `(` and ends with `)`.
  */
  lemma SumInFactorIsParenthesised(tokens: seq<Token>, pos: nat)
    requires pos <= |tokens|
    requires FactorAt(tokens, pos).Ok? && IsAdditiveNode(FactorAt(tokens, pos).value.node)
    ensures TokenAt(tokens, pos) == Token.LeftParenthesis
    ensures TokenAt(tokens, FactorAt(tokens, pos).value.pos - 1) == Token.RightParenthesis
  {
    var first := PrimaryAt(tokens, pos).value;
    FactorRestShape(tokens, first.node, first.pos);
    PrimaryCases(tokens, pos);
    var inner := ExpressionAt(tokens, pos + 1);
  }

  /** An atom followed by a token that is not `*` or `/` is a whole factor. */
  lemma AtomFactor(tokens: seq<Token>, pos: nat)
    requires pos < |tokens| && IsAtom(tokens[pos]) && !IsMultiplicative(TokenAt(tokens, pos + 1))
    ensures FactorAt(tokens, pos) == Ok(Parsed(AtomNode(tokens[pos]), pos + 1))
  {
    FirstAtomIsPrimary(tokens, pos);
    FactorRestStops(tokens, AtomNode(tokens[pos]), pos + 1);
  }

  /** A `*` or `/` followed by an atom folds the atom into the factor. */
  lemma FactorRestAtom(tokens: seq<Token>, left: ASTNode, pos: nat)
    requires pos + 1 < |tokens| && IsMultiplicative(tokens[pos]) && IsAtom(tokens[pos + 1])
    ensures FactorRest(tokens, left, pos) == FactorRest(tokens, Combine(tokens[pos], left, AtomNode(tokens[pos + 1])), pos + 2)
  {
    PrimaryCases(tokens, pos + 1);
  }

  /** A `+` or `-` followed by a factor folds the factor into the term. */
  lemma TermRestFactor(tokens: seq<Token>, left: ASTNode, pos: nat, right: Parsed)
    requires pos < |tokens| && IsAdditive(tokens[pos]) && FactorAt(tokens, pos + 1) == Ok(right)
    ensures TermRest(tokens, left, pos) == TermRest(tokens, Combine(tokens[pos], left, right.node), right.pos)
  {
  }

  /** An expression whose first factor is followed by a token that is not `+` or `-` is that factor. */
  lemma FactorExpression(tokens: seq<Token>, pos: nat, factor: Parsed)
    requires pos <= |tokens| && FactorAt(tokens, pos) == Ok(factor) && !IsAdditive(TokenAt(tokens, factor.pos))
    ensures ExpressionAt(tokens, pos) == Ok(factor)
  {
    TermRestStops(tokens, factor.node, factor.pos);
  }

  /**
    `a + b * c`: with atoms `a`, `b`, `c`, an additive operator and then a
    multiplicative one, the product is the right operand of the sum.
  */
  lemma ProductBindsTighter(tokens: seq<Token>, pos: nat)
    requires pos + 4 < |tokens|
    requires IsAtom(tokens[pos]) && IsAdditive(tokens[pos + 1]) && IsAtom(tokens[pos + 2])
    requires IsMultiplicative(tokens[pos + 3]) && IsAtom(tokens[pos + 4])
    requires !IsAdditive(TokenAt(tokens, pos + 5)) && !IsMultiplicative(TokenAt(tokens, pos + 5))
    ensures var product := Combine(tokens[pos + 3], AtomNode(tokens[pos + 2]), AtomNode(tokens[pos + 4]));
            ExpressionAt(tokens, pos) == Ok(Parsed(Combine(tokens[pos + 1], AtomNode(tokens[pos]), product), pos + 5))
  {
    var product := Combine(tokens[pos + 3], AtomNode(tokens[pos + 2]), AtomNode(tokens[pos + 4]));
    FirstAtomIsPrimary(tokens, pos + 2);
    FactorRestAtom(tokens, AtomNode(tokens[pos + 2]), pos + 3);
    FactorRestStops(tokens, product, pos + 5);
    AtomFactor(tokens, pos);
    TermRestFactor(tokens, AtomNode(tokens[pos]), pos + 1, Parsed(product, pos + 5));
    TermRestStops(tokens, Combine(tokens[pos + 1], AtomNode(tokens[pos]), product), pos + 5);
  }

  /** `(a + b)` as a primary is the sum itself, and parsing resumes after the `)`. */
  lemma GroupedSumPrimary(tokens: seq<Token>, pos: nat)
    requires pos + 4 < |tokens|
    requires tokens[pos] == Token.LeftParenthesis && IsAtom(tokens[pos + 1]) && IsAdditive(tokens[pos + 2])
    requires IsAtom(tokens[pos + 3]) && tokens[pos + 4] == Token.RightParenthesis
    ensures PrimaryAt(tokens, pos)
         == Ok(Parsed(Combine(tokens[pos + 2], AtomNode(tokens[pos + 1]), AtomNode(tokens[pos + 3])), pos + 5))
  {
    var sum := Combine(tokens[pos + 2], AtomNode(tokens[pos + 1]), AtomNode(tokens[pos + 3]));
    AtomFactor(tokens, pos + 1);
    AtomFactor(tokens, pos + 3);
    TermRestFactor(tokens, AtomNode(tokens[pos + 1]), pos + 2, Parsed(AtomNode(tokens[pos + 3]), pos + 4));
    TermRestStops(tokens, sum, pos + 4);
    PrimaryCases(tokens, pos);
  }

  /**
    `(a + b) * c`: parentheses override precedence, and the sum they enclose
    becomes the left operand of the product with no node of their own.
  */
  lemma ParenthesesOverridePrecedence(tokens: seq<Token>, pos: nat)
    requires pos + 6 < |tokens|
    requires tokens[pos] == Token.LeftParenthesis && IsAtom(tokens[pos + 1]) && IsAdditive(tokens[pos + 2])
    requires IsAtom(tokens[pos + 3]) && tokens[pos + 4] == Token.RightParenthesis
    requires IsMultiplicative(tokens[pos + 5]) && IsAtom(tokens[pos + 6])
    requires !IsAdditive(TokenAt(tokens, pos + 7)) && !IsMultiplicative(TokenAt(tokens, pos + 7))
    ensures var sum := Combine(tokens[pos + 2], AtomNode(tokens[pos + 1]), AtomNode(tokens[pos + 3]));
            ExpressionAt(tokens, pos) == Ok(Parsed(Combine(tokens[pos + 5], sum, AtomNode(tokens[pos + 6])), pos + 7))
  {
    var sum := Combine(tokens[pos + 2], AtomNode(tokens[pos + 1]), AtomNode(tokens[pos + 3]));
    var product := Combine(tokens[pos + 5], sum, AtomNode(tokens[pos + 6]));
    GroupedSumPrimary(tokens, pos);
    FactorRestAtom(tokens, sum, pos + 5);
    FactorRestStops(tokens, product, pos + 7);
    FactorExpression(tokens, pos, Parsed(product, pos + 7));
  }

  // ---------------------------------------------------------------------------
  // Node kinds

  /**
    The node kinds an expression can have: identifiers, literals and the four
    arithmetic operators. Unary and logical nodes are never built.
  */
  predicate Arithmetic(n: ASTNode) {
    match n
    case Identifier(_) => true
    case IntegerLiteral(_) => true
    case FloatLiteral(_) => true
    case BinaryAddition(op) => Arithmetic(op.leftOperand) && Arithmetic(op.rightOperand)
    case BinarySubtraction(op) => Arithmetic(op.leftOperand) && Arithmetic(op.rightOperand)
    case BinaryMultiplication(op) => Arithmetic(op.leftOperand) && Arithmetic(op.rightOperand)
    case BinaryDivision(op) => Arithmetic(op.leftOperand) && Arithmetic(op.rightOperand)
    case _ => false
  }

  lemma {:induction false} ExpressionIsArithmetic(tokens: seq<Token>, pos: nat)
    requires pos <= |tokens| && ExpressionAt(tokens, pos).Ok?
    ensures Arithmetic(ExpressionAt(tokens, pos).value.node)
    decreases |tokens| - pos, 4
  {
    TermIsArithmetic(tokens, pos);
  }

  lemma {:induction false} TermIsArithmetic(tokens: seq<Token>, pos: nat)
    requires pos <= |tokens| && TermAt(tokens, pos).Ok?
    ensures Arithmetic(TermAt(tokens, pos).value.node)
    decreases |tokens| - pos, 3
  {
    var first := FactorAt(tokens, pos).value;
    FactorIsArithmetic(tokens, pos);
    TermRestIsArithmetic(tokens, first.node, first.pos);
  }

  lemma {:induction false} TermRestIsArithmetic(tokens: seq<Token>, left: ASTNode, pos: nat)
    requires pos <= |tokens| && TermRest(tokens, left, pos).Ok? && Arithmetic(left)
    ensures Arithmetic(TermRest(tokens, left, pos).value.node)
    decreases |tokens| - pos, 3
  {
    var op := TokenAt(tokens, pos);
    if IsAdditive(op) {
      var right := FactorAt(tokens, pos + 1).value;
      FactorIsArithmetic(tokens, pos + 1);
      TermRestIsArithmetic(tokens, Combine(op, left, right.node), right.pos);
    }
  }

  lemma {:induction false} FactorIsArithmetic(tokens: seq<Token>, pos: nat)
    requires pos <= |tokens| && FactorAt(tokens, pos).Ok?
    ensures Arithmetic(FactorAt(tokens, pos).value.node)
    decreases |tokens| - pos, 2
  {
    var first := PrimaryAt(tokens, pos).value;
    PrimaryIsArithmetic(tokens, pos);
    FactorRestIsArithmetic(tokens, first.node, first.pos);
  }

  lemma {:induction false} FactorRestIsArithmetic(tokens: seq<Token>, left: ASTNode, pos: nat)
    requires pos <= |tokens| && FactorRest(tokens, left, pos).Ok? && Arithmetic(left)
    ensures Arithmetic(FactorRest(tokens, left, pos).value.node)
    decreases |tokens| - pos, 2
  {
    var op := TokenAt(tokens, pos);
    if IsMultiplicative(op) {
      var right := PrimaryAt(tokens, pos + 1).value;
      PrimaryIsArithmetic(tokens, pos + 1);
      FactorRestIsArithmetic(tokens, Combine(op, left, right.node), right.pos);
    }
  }

  lemma {:induction false} PrimaryIsArithmetic(tokens: seq<Token>, pos: nat)
    requires pos <= |tokens| && PrimaryAt(tokens, pos).Ok?
    ensures Arithmetic(PrimaryAt(tokens, pos).value.node)
    decreases |tokens| - pos, 1
  {
    if TokenAt(tokens, pos) == Token.LeftParenthesis {
      ExpressionIsArithmetic(tokens, pos + 1);
    }
  }

  /**
    A parsed statement is an assignment to an identifier whose value uses only
    identifiers, literals and the four arithmetic operators: no unary or
    logical node is ever built.
  */
  lemma StatementIsArithmetic(tokens: seq<Token>)
    requires Parsing(tokens).Ok?
    ensures var node := Parsing(tokens).value;
            node.Assign? && node.binary.leftOperand.Identifier? && Arithmetic(node.binary.rightOperand)
  {
    ExpressionIsArithmetic(tokens, 3);
  }
}
