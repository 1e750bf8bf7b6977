/**
  The lexer of the front end: a byte-driven finite-state machine.

  Each source byte is offered to the current state. A state either keeps the
  byte (buffering it, or emitting a token and staying), or completes its token
  and asks for the byte to be offered again to `Start` (the "reconsume" action,
  `Again`). After the last byte, `EofStep` flushes whatever token is pending.
  Numeric literals are stored as digit values, split by radix and float shape.

  The machine is specified by functions over `Config`, a value holding the
  state, the four scratch buffers and the tokens emitted so far; the class
  `Lexer` holds the same data in fields and each of its methods is proved to
  move from `old(Snapshot())` to `Snapshot()` exactly as its function says.
*/
module Lexer {
  import opened Wrappers

  /** A source byte, written as the character with that code. */
  type byte = c: char | c as int < 256

  /** An unsigned 8-bit number; digit buffers hold digit values of this type. */
  type u8 = x: int | 0 <= x < 256

  datatype State =
    | Start | Identifier | Zero | Dot | Integer | Hexadecimal | Octal | Binary
    | Fractional | Exponent | Equals | Minus

  datatype IntegerRepresentation =
    | Decimal(digits: seq<u8>)
    | Hexadecimal(digits: seq<u8>)
    | Octal(digits: seq<u8>)
    | Binary(digits: seq<u8>)

  datatype FloatRepresentation =
    | Decimal(integer: seq<u8>, fractional: seq<u8>)
    | Scientific(integer: seq<u8>, fractional: seq<u8>, exponent: seq<u8>)

  datatype Token =
    | Plus | Minus | Asterisk | ForwardSlash | Dot | Comma | Colon | Semicolon
    | Assign | Equals | RightArrow
    | LeftParenthesis | RightParenthesis | LeftBracket | RightBracket | LeftBrace | RightBrace
    | False | True | And | Or | Not | Xor | Else | Function | If | Let | Return | Lambda
    | Identifier(name: seq<byte>)
    | Integer(integer: IntegerRepresentation)
    | Float(float: FloatRepresentation)
    | EOF

  /** What a state asks of the driver: the byte is used up, or it must be offered again. */
  datatype Action = Continue | Again

  /** The errors a single state can raise; they carry no position. */
  datatype InternalError =
    | UnexpectedByte
    | InvalidNumberDigit
    | LeadingZeroWithoutBase
    | InvalidHexadecimalDigit
    | InvalidOctalDigit
    | InvalidBinaryDigit
    | MissingDigitsAfterBasePrefix

  /** The errors `tokenize` reports, each with the byte offset where it was detected. */
  datatype Error =
    | UnexpectedByte(offset: nat)
    | InvalidNumberDigit(offset: nat)
    | LeadingZeroWithoutBase(offset: nat)
    | InvalidHexadecimalDigit(offset: nat)
    | InvalidOctalDigit(offset: nat)
    | InvalidBinaryDigit(offset: nat)
    | MissingDigitsAfterBasePrefix(offset: nat)
    | MissingDigitsAfterExponentMark(offset: nat)

  // ---------------------------------------------------------------------------
  // Byte classes

  predicate IsWhitespace(b: byte) {
    b == ' ' || b == '\t' || b == '\r' || b == '\n'
  }

  predicate IsDecimalDigit(b: byte) { '0' <= b <= '9' }

  predicate IsLetter(b: byte) { 'A' <= b <= 'Z' || 'a' <= b <= 'z' }

  predicate IsIdentifierStart(b: byte) { IsLetter(b) || b == '_' }

  predicate IsIdentifierByte(b: byte) { IsDecimalDigit(b) || IsIdentifierStart(b) }

  /** The tokens that `Start` emits directly for a single punctuation byte. */
  function Punctuation(b: byte): Option<Token> {
    if b == '+' then Some(Token.Plus)
    else if b == '*' then Some(Token.Asterisk)
    else if b == '/' then Some(Token.ForwardSlash)
    else if b == ',' then Some(Token.Comma)
    else if b == ':' then Some(Token.Colon)
    else if b == ';' then Some(Token.Semicolon)
    else if b == '(' then Some(Token.LeftParenthesis)
    else if b == ')' then Some(Token.RightParenthesis)
    else if b == '[' then Some(Token.LeftBracket)
    else if b == ']' then Some(Token.RightBracket)
    else if b == '{' then Some(Token.LeftBrace)
    else if b == '}' then Some(Token.RightBrace)
    else None
  }

  // ---------------------------------------------------------------------------
  // Keywords

  /** The keyword token spelled by `name`, if it is one of the twelve keywords. */
  function Keyword(name: seq<byte>): Option<Token> {
    if name == "and" then Some(Token.And)
    else if name == "else" then Some(Token.Else)
    else if name == "false" then Some(Token.False)
    else if name == "function" then Some(Token.Function)
    else if name == "if" then Some(Token.If)
    else if name == "lambda" then Some(Token.Lambda)
    else if name == "let" then Some(Token.Let)
    else if name == "not" then Some(Token.Not)
    else if name == "or" then Some(Token.Or)
    else if name == "return" then Some(Token.Return)
    else if name == "true" then Some(Token.True)
    else if name == "xor" then Some(Token.Xor)
    else None
  }

  /** The spelling of a keyword token: an independent inverse of `Keyword`. */
  function Spelling(t: Token): Option<seq<byte>> {
    match t
    case And => Some("and")
    case Else => Some("else")
    case False => Some("false")
    case Function => Some("function")
    case If => Some("if")
    case Lambda => Some("lambda")
    case Let => Some("let")
    case Not => Some("not")
    case Or => Some("or")
    case Return => Some("return")
    case True => Some("true")
    case Xor => Some("xor")
    case _ => None
  }

  /** The token for an accumulated identifier: its keyword, or an identifier with exactly those bytes. */
  function Classify(name: seq<byte>): Token {
    match Keyword(name)
    case Some(keyword) => keyword
    case None => Token.Identifier(name)
  }

  /** Every keyword token is classified back from its spelling. */
  lemma SpellingRoundTrip(t: Token)
    ensures Spelling(t).Some? ==> Classify(Spelling(t).value) == t
  {
  }

  /**
    A name classifies as an identifier exactly when it is not a keyword, and then
    the identifier keeps every byte of it; otherwise the keyword is spelled by it.
  */
  lemma ClassifyRoundTrip(name: seq<byte>)
    ensures Classify(name).Identifier? <==> Keyword(name).None?
    ensures Classify(name).Identifier? ==> Classify(name).name == name
    ensures !Classify(name).Identifier? ==> Spelling(Classify(name)) == Some(name)
  {
  }

  // ---------------------------------------------------------------------------
  // Well-formedness of tokens and of the machine's configuration

  predicate DigitsBelow(digits: seq<u8>, radix: nat) {
    forall i | 0 <= i < |digits| :: digits[i] < radix
  }

  /** A decimal integer literal is `[0]` or starts with a non-zero digit. */
  predicate CanonicalDecimal(digits: seq<u8>) {
    digits == [0] || (|digits| > 0 && digits[0] != 0)
  }

  /** The integer part of a float: empty (`.14`) or a canonical decimal. */
  predicate FloatParts(integer: seq<u8>, fractional: seq<u8>) {
    && DigitsBelow(integer, 10) && DigitsBelow(fractional, 10)
    && (integer == [] || CanonicalDecimal(integer))
    && |integer| + |fractional| > 0
  }

  predicate IsIdentifierSpelling(name: seq<byte>) {
    && |name| > 0 && IsIdentifierStart(name[0])
    && forall i | 0 <= i < |name| :: IsIdentifierByte(name[i])
  }

  predicate WellFormedInteger(r: IntegerRepresentation) {
    match r
    case Decimal(d) => DigitsBelow(d, 10) && CanonicalDecimal(d)
    case Hexadecimal(d) => |d| > 0 && DigitsBelow(d, 16)
    case Octal(d) => |d| > 0 && DigitsBelow(d, 8)
    case Binary(d) => |d| > 0 && DigitsBelow(d, 2)
  }

  /** Mid-stream, a scientific literal may carry an empty exponent (`3e,`). */
  predicate WellFormedFloat(r: FloatRepresentation) {
    match r
    case Decimal(i, f) => FloatParts(i, f)
    case Scientific(i, f, e) => FloatParts(i, f) && DigitsBelow(e, 10)
  }

  /** What every token the lexer emits satisfies; in particular it is never `EOF`. */
  predicate WellFormed(t: Token) {
    match t
    case Identifier(name) => IsIdentifierSpelling(name) && Keyword(name).None?
    case Integer(r) => WellFormedInteger(r)
    case Float(r) => WellFormedFloat(r)
    case EOF => false
    case _ => true
  }

  predicate AllWellFormed(tokens: seq<Token>) {
    forall i | 0 <= i < |tokens| :: WellFormed(tokens[i])
  }

  /** The state, the four scratch buffers and the tokens emitted so far. */
  datatype Config = Config(
    state: State,
    integer: seq<u8>,
    fractional: seq<u8>,
    exponent: seq<u8>,
    identifier: seq<byte>,
    tokens: seq<Token>)

  const Initial := Config(State.Start, [], [], [], [], [])

  predicate BuffersEmpty(c: Config) {
    c.identifier == [] && c.integer == [] && c.fractional == [] && c.exponent == []
  }

  /**
    The invariant of the machine between bytes. Whenever the state is `Start`
    all four buffers are empty; every buffered digit is below the radix of
    the state that buffered it; every emitted token is well formed.
  */
  predicate ConfigValid(c: Config) {
    AllWellFormed(c.tokens) && BuffersFitState(c)
  }

  /** What the buffers hold in each state. */
  predicate BuffersFitState(c: Config) {
    match c.state
    case Start => BuffersEmpty(c)
    case Zero => BuffersEmpty(c)
    case Dot => BuffersEmpty(c)
    case Equals => BuffersEmpty(c)
    case Minus => BuffersEmpty(c)
    case Identifier =>
      IsIdentifierSpelling(c.identifier) && c.integer == [] && c.fractional == [] && c.exponent == []
    case Integer =>
      && c.identifier == [] && c.fractional == [] && c.exponent == []
      && DigitsBelow(c.integer, 10) && |c.integer| > 0 && c.integer[0] != 0
    case Hexadecimal =>
      c.identifier == [] && c.fractional == [] && c.exponent == [] && DigitsBelow(c.integer, 16)
    case Octal =>
      c.identifier == [] && c.fractional == [] && c.exponent == [] && DigitsBelow(c.integer, 8)
    case Binary =>
      c.identifier == [] && c.fractional == [] && c.exponent == [] && DigitsBelow(c.integer, 2)
    case Fractional =>
      c.identifier == [] && c.exponent == [] && FloatParts(c.integer, c.fractional)
    case Exponent =>
      c.identifier == [] && FloatParts(c.integer, c.fractional) && DigitsBelow(c.exponent, 10)
  }

  lemma StartMeansEmptyBuffers(c: Config)
    requires ConfigValid(c) && c.state == State.Start
    ensures c.identifier == [] && c.integer == [] && c.fractional == [] && c.exponent == []
  {
  }

  lemma AppendWellFormed(tokens: seq<Token>, t: Token)
    requires AllWellFormed(tokens) && WellFormed(t)
    ensures AllWellFormed(tokens + [t])
  {
    var all := tokens + [t];
    forall i | 0 <= i < |all| ensures WellFormed(all[i]) {
      if i < |tokens| { assert all[i] == tokens[i]; }
    }
  }

  // ---------------------------------------------------------------------------
  // One state, one byte: the `run_fsm_*` functions

  /** What one call of a state function returns, paired with the configuration it leaves. */
  datatype Step = Step(result: Result<Action, InternalError>, next: Config)

  function Emit(c: Config, t: Token): Config {
    c.(tokens := c.tokens + [t])
  }

  function StartStep(c: Config, b: byte): (r: Step)
    ensures r.result != Ok(Again)
    ensures r.result.Err? <==> !(IsWhitespace(b) || IsIdentifierStart(b) || IsDecimalDigit(b)
                                  || b in {'-', '.', '='} || Punctuation(b).Some?)
    ensures r.result.Err? ==> r.result.error == InternalError.UnexpectedByte && r.next == c
    ensures IsWhitespace(b) ==> r == Step(Ok(Continue), c)
    ensures Punctuation(b).Some? ==> r == Step(Ok(Continue), Emit(c, Punctuation(b).value))
  {
    if IsWhitespace(b) then Step(Ok(Continue), c)
    else if IsIdentifierStart(b) then
      Step(Ok(Continue), c.(identifier := c.identifier + [b], state := State.Identifier))
    else if b == '0' then Step(Ok(Continue), c.(state := State.Zero))
    else if IsDecimalDigit(b) then
      Step(Ok(Continue), c.(integer := c.integer + [DigitValue(b)], state := State.Integer))
    else if b == '-' then Step(Ok(Continue), c.(state := State.Minus))
    else if b == '.' then Step(Ok(Continue), c.(state := State.Dot))
    else if b == '=' then Step(Ok(Continue), c.(state := State.Equals))
    else
      match Punctuation(b)
      case Some(t) => Step(Ok(Continue), Emit(c, t))
      case None => Step(Err(InternalError.UnexpectedByte), c)
  }

  /** `classify_identifier`: emit the keyword or identifier and clear the identifier buffer. */
  function ClassifyStep(c: Config): (r: Config)
    ensures r.identifier == [] && r.tokens == c.tokens + [Classify(c.identifier)]
    ensures r.state == c.state && r.integer == c.integer
    ensures r.fractional == c.fractional && r.exponent == c.exponent
  {
    c.(identifier := [], tokens := c.tokens + [Classify(c.identifier)])
  }

  function IdentifierStep(c: Config, b: byte): (r: Step)
    ensures r.result.Ok?
    ensures r.result == Ok(Continue) <==> IsIdentifierByte(b)
    ensures r.result == Ok(Again) ==>
              && r.next.tokens == c.tokens + [Classify(c.identifier)]
              && r.next.identifier == [] && r.next.state == State.Start
  {
    if IsIdentifierByte(b) then Step(Ok(Continue), c.(identifier := c.identifier + [b]))
    else Step(Ok(Again), ClassifyStep(c).(state := State.Start))
  }

  function ZeroStep(c: Config, b: byte): (r: Step)
    ensures r.result.Err? <==> IsDecimalDigit(b) || (IsLetter(b) && !(b in {'x', 'o', 'b'}))
    ensures IsDecimalDigit(b) ==> r.result == Err(InternalError.LeadingZeroWithoutBase)
    ensures (IsLetter(b) && !(b in {'x', 'o', 'b'}))
              ==> r.result == Err(InternalError.InvalidNumberDigit)
    ensures r.result.Err? ==> r.next == c
    ensures r.result == Ok(Again) ==>
              r.next.tokens == c.tokens + [Token.Integer(IntegerRepresentation.Decimal([0]))] && r.next.state == State.Start
  {
    if b == 'x' then Step(Ok(Continue), c.(state := State.Hexadecimal))
    else if b == 'o' then Step(Ok(Continue), c.(state := State.Octal))
    else if b == 'b' then Step(Ok(Continue), c.(state := State.Binary))
    else if b == '.' then
      Step(Ok(Continue), c.(integer := c.integer + [0], state := State.Fractional))
    else if IsDecimalDigit(b) then Step(Err(InternalError.LeadingZeroWithoutBase), c)
    else if IsLetter(b) then Step(Err(InternalError.InvalidNumberDigit), c)
    else
      Step(Ok(Again), Emit(c, Token.Integer(IntegerRepresentation.Decimal([0]))).(state := State.Start))
  }

  function DotStep(c: Config, b: byte): (r: Step)
    ensures r.result.Ok?
    ensures r.result == Ok(Again) <==> !IsDecimalDigit(b)
    ensures r.result == Ok(Again) ==> r.next.tokens == c.tokens + [Token.Dot]
  {
    if IsDecimalDigit(b) then
      Step(Ok(Continue), c.(fractional := c.fractional + [DigitValue(b)], state := State.Fractional))
    else Step(Ok(Again), Emit(c, Token.Dot).(state := State.Start))
  }

  function IntegerStep(c: Config, b: byte): (r: Step)
    ensures r.result.Ok?
    ensures r.result == Ok(Again) <==> !(IsDecimalDigit(b) || b == '.' || b == 'e')
    ensures r.result == Ok(Again) ==>
              && r.next.tokens == c.tokens + [Token.Integer(IntegerRepresentation.Decimal(c.integer))]
              && r.next.integer == []
  {
    if IsDecimalDigit(b) then Step(Ok(Continue), c.(integer := c.integer + [DigitValue(b)]))
    else if b == '.' then Step(Ok(Continue), c.(state := State.Fractional))
    else if b == 'e' then Step(Ok(Continue), c.(state := State.Exponent))
    else
      Step(Ok(Again), Emit(c, Token.Integer(IntegerRepresentation.Decimal(c.integer)))
                        .(integer := [], state := State.Start))
  }

  /** The value of a decimal digit byte (`byte - b'0'`). */
  function DigitValue(b: byte): (v: u8)
    requires IsDecimalDigit(b)
    ensures v < 10
  {
    b as int - '0' as int
  }

  predicate IsHexLetter(b: byte) { 'A' <= b <= 'F' || 'a' <= b <= 'f' }

  /** The value of a hexadecimal digit byte: `0-9`, then `A-F` and `a-f` as 10 to 15. */
  function HexValue(b: byte): (v: u8)
    requires IsDecimalDigit(b) || IsHexLetter(b)
    ensures v < 16
    ensures IsHexLetter(b) ==> v >= 10
  {
    if IsDecimalDigit(b) then DigitValue(b)
    else if 'A' <= b <= 'F' then 10 + (b as int - 'A' as int)
    else 10 + (b as int - 'a' as int)
  }

  function HexadecimalStep(c: Config, b: byte): (r: Step)
    ensures r.result.Err? ==> r.next == c
    ensures r.result.Err? <==> (IsLetter(b) && !IsHexLetter(b))
                               || (!IsDecimalDigit(b) && !IsLetter(b) && c.integer == [])
    ensures r.result.Err? ==> r.result.error == if IsLetter(b) || IsDecimalDigit(b)
                                                then InternalError.InvalidHexadecimalDigit
                                                else InternalError.MissingDigitsAfterBasePrefix
  {
    if IsDecimalDigit(b) || IsHexLetter(b) then
      Step(Ok(Continue), c.(integer := c.integer + [HexValue(b)]))
    else if IsLetter(b) then Step(Err(InternalError.InvalidHexadecimalDigit), c)
    else if |c.integer| == 0 then Step(Err(InternalError.MissingDigitsAfterBasePrefix), c)
    else
      Step(Ok(Again), Emit(c, Token.Integer(IntegerRepresentation.Hexadecimal(c.integer)))
                        .(integer := [], state := State.Start))
  }

  function OctalStep(c: Config, b: byte): (r: Step)
    ensures r.result.Err? ==> r.next == c
    ensures r.result.Err? <==> (IsDecimalDigit(b) && b >= '8') || IsLetter(b)
                               || (!IsDecimalDigit(b) && !IsLetter(b) && c.integer == [])
    ensures r.result.Err? ==> r.result.error == if IsLetter(b) || IsDecimalDigit(b)
                                                then InternalError.InvalidOctalDigit
                                                else InternalError.MissingDigitsAfterBasePrefix
  {
    if '0' <= b <= '7' then Step(Ok(Continue), c.(integer := c.integer + [DigitValue(b)]))
    else if IsDecimalDigit(b) || IsLetter(b) then Step(Err(InternalError.InvalidOctalDigit), c)
    else if |c.integer| == 0 then Step(Err(InternalError.MissingDigitsAfterBasePrefix), c)
    else
      Step(Ok(Again), Emit(c, Token.Integer(IntegerRepresentation.Octal(c.integer)))
                        .(integer := [], state := State.Start))
  }

  function BinaryStep(c: Config, b: byte): (r: Step)
    ensures r.result.Err? ==> r.next == c
    ensures r.result.Err? <==> (IsDecimalDigit(b) && b >= '2') || IsLetter(b)
                               || (!IsDecimalDigit(b) && !IsLetter(b) && c.integer == [])
    ensures r.result.Err? ==> r.result.error == if IsLetter(b) || IsDecimalDigit(b)
                                                then InternalError.InvalidBinaryDigit
                                                else InternalError.MissingDigitsAfterBasePrefix
  {
    if '0' <= b <= '1' then Step(Ok(Continue), c.(integer := c.integer + [DigitValue(b)]))
    else if IsDecimalDigit(b) || IsLetter(b) then Step(Err(InternalError.InvalidBinaryDigit), c)
    else if |c.integer| == 0 then Step(Err(InternalError.MissingDigitsAfterBasePrefix), c)
    else
      Step(Ok(Again), Emit(c, Token.Integer(IntegerRepresentation.Binary(c.integer)))
                        .(integer := [], state := State.Start))
  }

  function FractionalStep(c: Config, b: byte): (r: Step)
    ensures r.result.Ok?
    ensures r.result == Ok(Again) <==> !(IsDecimalDigit(b) || b == 'e')
    ensures r.result == Ok(Again) ==>
              && r.next.tokens == c.tokens + [Token.Float(FloatRepresentation.Decimal(c.integer, c.fractional))]
              && r.next.integer == [] && r.next.fractional == []
  {
    if IsDecimalDigit(b) then Step(Ok(Continue), c.(fractional := c.fractional + [DigitValue(b)]))
    else if b == 'e' then Step(Ok(Continue), c.(state := State.Exponent))
    else
      Step(Ok(Again), Emit(c, Token.Float(FloatRepresentation.Decimal(c.integer, c.fractional)))
                        .(integer := [], fractional := [], state := State.Start))
  }

  /** Mid-stream, any non-digit ends the exponent, even an empty one. */
  function ExponentStep(c: Config, b: byte): (r: Step)
    ensures r.result.Ok?
    ensures r.result == Ok(Again) <==> !IsDecimalDigit(b)
    ensures r.result == Ok(Again) ==>
              && r.next.tokens == c.tokens + [Token.Float(FloatRepresentation.Scientific(c.integer, c.fractional, c.exponent))]
              && r.next.integer == [] && r.next.fractional == [] && r.next.exponent == []
  {
    if IsDecimalDigit(b) then Step(Ok(Continue), c.(exponent := c.exponent + [DigitValue(b)]))
    else
      Step(Ok(Again),
           Emit(c, Token.Float(FloatRepresentation.Scientific(c.integer, c.fractional, c.exponent)))
             .(integer := [], fractional := [], exponent := [], state := State.Start))
  }

  /** A second `=` emits `Equals` and keeps the byte, but leaves the state at `Equals`. */
  function EqualsStep(c: Config, b: byte): (r: Step)
    ensures r.result.Ok?
    ensures r.result == Ok(Again) <==> b != '='
    ensures r.next.tokens == c.tokens + [if b == '=' then Token.Equals else Token.Assign]
    ensures r.next.state == if b == '=' then c.state else State.Start
    ensures r.next.identifier == c.identifier && r.next.integer == c.integer
    ensures r.next.fractional == c.fractional && r.next.exponent == c.exponent
  {
    if b == '=' then Step(Ok(Continue), Emit(c, Token.Equals))
    else Step(Ok(Again), Emit(c, Token.Assign).(state := State.Start))
  }

  /** A `>` emits `RightArrow` and keeps the byte, but leaves the state at `Minus`. */
  function MinusStep(c: Config, b: byte): (r: Step)
    ensures r.result.Ok?
    ensures r.result == Ok(Again) <==> b != '>'
    ensures r.next.tokens == c.tokens + [if b == '>' then Token.RightArrow else Token.Minus]
    ensures r.next.state == if b == '>' then c.state else State.Start
    ensures r.next.identifier == c.identifier && r.next.integer == c.integer
    ensures r.next.fractional == c.fractional && r.next.exponent == c.exponent
  {
    if b == '>' then Step(Ok(Continue), Emit(c, Token.RightArrow))
    else Step(Ok(Again), Emit(c, Token.Minus).(state := State.Start))
  }

  /**
    `run_fsm`: dispatch on the state. Every `Again` leaves the machine in
    `Start`, `Start` itself never answers `Again`, an error changes nothing,
    and the invariant is kept.
  */
  function Transition(c: Config, b: byte): (r: Step)
    ensures r.result == Ok(Again) ==> r.next.state == State.Start
    ensures c.state == State.Start ==> r.result != Ok(Again)
    ensures r.result.Err? ==> r.next == c
  {
    match c.state
    case Start => StartStep(c, b)
    case Identifier => IdentifierStep(c, b)
    case Zero => ZeroStep(c, b)
    case Dot => DotStep(c, b)
    case Integer => IntegerStep(c, b)
    case Hexadecimal => HexadecimalStep(c, b)
    case Octal => OctalStep(c, b)
    case Binary => BinaryStep(c, b)
    case Fractional => FractionalStep(c, b)
    case Exponent => ExponentStep(c, b)
    case Equals => EqualsStep(c, b)
    case Minus => MinusStep(c, b)
  }

  // Each state keeps the invariant of the machine.

  lemma StartKeepsValid(c: Config, b: byte)
    requires ConfigValid(c) && c.state == State.Start
    ensures ConfigValid(StartStep(c, b).next)
  {
    var p := Punctuation(b);
    if p.Some? { AppendWellFormed(c.tokens, p.value); }
  }

  lemma IdentifierKeepsValid(c: Config, b: byte)
    requires ConfigValid(c) && c.state == State.Identifier
    ensures ConfigValid(IdentifierStep(c, b).next)
  {
    if IsIdentifierByte(b) {
      var name := c.identifier + [b];
      assert forall i | 0 <= i < |name| :: IsIdentifierByte(name[i]) by {
        forall i | 0 <= i < |name| ensures IsIdentifierByte(name[i]) {
          if i < |c.identifier| { assert name[i] == c.identifier[i]; }
        }
      }
    } else {
      AppendWellFormed(c.tokens, Classify(c.identifier));
    }
  }

  lemma ZeroKeepsValid(c: Config, b: byte)
    requires ConfigValid(c) && c.state == State.Zero
    ensures ConfigValid(ZeroStep(c, b).next)
    ensures var n := ZeroStep(c, b).next;
            n.tokens == c.tokens || n.tokens == c.tokens + [Token.Integer(IntegerRepresentation.Decimal([0]))]
  {
    AppendWellFormed(c.tokens, Token.Integer(IntegerRepresentation.Decimal([0])));
  }

  lemma DotKeepsValid(c: Config, b: byte)
    requires ConfigValid(c) && c.state == State.Dot
    ensures ConfigValid(DotStep(c, b).next)
  {
    AppendWellFormed(c.tokens, Token.Dot);
  }

  lemma AppendDigit(digits: seq<u8>, d: u8, radix: nat)
    requires DigitsBelow(digits, radix) && d < radix
    ensures DigitsBelow(digits + [d], radix)
  {
    var all := digits + [d];
    forall i | 0 <= i < |all| ensures all[i] < radix {
      if i < |digits| { assert all[i] == digits[i]; }
    }
  }

  lemma IntegerKeepsValid(c: Config, b: byte)
    requires ConfigValid(c) && c.state == State.Integer
    ensures ConfigValid(IntegerStep(c, b).next)
  {
    if IsDecimalDigit(b) {
      AppendDigit(c.integer, DigitValue(b), 10);
    } else if b != '.' && b != 'e' {
      AppendWellFormed(c.tokens, Token.Integer(IntegerRepresentation.Decimal(c.integer)));
    }
  }

  lemma HexadecimalKeepsValid(c: Config, b: byte)
    requires ConfigValid(c) && c.state == State.Hexadecimal
    ensures ConfigValid(HexadecimalStep(c, b).next)
  {
    if IsDecimalDigit(b) || IsHexLetter(b) {
      AppendDigit(c.integer, HexValue(b), 16);
    } else if !IsLetter(b) && |c.integer| > 0 {
      AppendWellFormed(c.tokens, Token.Integer(IntegerRepresentation.Hexadecimal(c.integer)));
    }
  }

  lemma OctalKeepsValid(c: Config, b: byte)
    requires ConfigValid(c) && c.state == State.Octal
    ensures ConfigValid(OctalStep(c, b).next)
  {
    if '0' <= b <= '7' {
      AppendDigit(c.integer, DigitValue(b), 8);
    } else if !IsDecimalDigit(b) && !IsLetter(b) && |c.integer| > 0 {
      AppendWellFormed(c.tokens, Token.Integer(IntegerRepresentation.Octal(c.integer)));
    }
  }

  lemma BinaryKeepsValid(c: Config, b: byte)
    requires ConfigValid(c) && c.state == State.Binary
    ensures ConfigValid(BinaryStep(c, b).next)
  {
    if '0' <= b <= '1' {
      AppendDigit(c.integer, DigitValue(b), 2);
    } else if !IsDecimalDigit(b) && !IsLetter(b) && |c.integer| > 0 {
      AppendWellFormed(c.tokens, Token.Integer(IntegerRepresentation.Binary(c.integer)));
    }
  }

  lemma FractionalKeepsValid(c: Config, b: byte)
    requires ConfigValid(c) && c.state == State.Fractional
    ensures ConfigValid(FractionalStep(c, b).next)
  {
    if IsDecimalDigit(b) {
      AppendDigit(c.fractional, DigitValue(b), 10);
    } else if b != 'e' {
      AppendWellFormed(c.tokens, Token.Float(FloatRepresentation.Decimal(c.integer, c.fractional)));
    }
  }

  lemma ExponentKeepsValid(c: Config, b: byte)
    requires ConfigValid(c) && c.state == State.Exponent
    ensures ConfigValid(ExponentStep(c, b).next)
  {
    if IsDecimalDigit(b) {
      AppendDigit(c.exponent, DigitValue(b), 10);
    } else {
      AppendWellFormed(c.tokens, Token.Float(FloatRepresentation.Scientific(c.integer, c.fractional, c.exponent)));
    }
  }

  lemma EqualsKeepsValid(c: Config, b: byte)
    requires ConfigValid(c) && c.state == State.Equals
    ensures ConfigValid(EqualsStep(c, b).next)
  {
    AppendWellFormed(c.tokens, if b == '=' then Token.Equals else Token.Assign);
  }

  lemma MinusKeepsValid(c: Config, b: byte)
    requires ConfigValid(c) && c.state == State.Minus
    ensures ConfigValid(MinusStep(c, b).next)
  {
    AppendWellFormed(c.tokens, if b == '>' then Token.RightArrow else Token.Minus);
  }

  /** Every transition keeps the machine's invariant. */
  lemma TransitionKeepsValid(c: Config, b: byte)
    requires ConfigValid(c)
    ensures ConfigValid(Transition(c, b).next)
  {
    match c.state
    case Start => StartKeepsValid(c, b);
    case Identifier => IdentifierKeepsValid(c, b);
    case Zero => ZeroKeepsValid(c, b);
    case Dot => DotKeepsValid(c, b);
    case Integer => IntegerKeepsValid(c, b);
    case Hexadecimal => HexadecimalKeepsValid(c, b);
    case Octal => OctalKeepsValid(c, b);
    case Binary => BinaryKeepsValid(c, b);
    case Fractional => FractionalKeepsValid(c, b);
    case Exponent => ExponentKeepsValid(c, b);
    case Equals => EqualsKeepsValid(c, b);
    case Minus => MinusKeepsValid(c, b);
  }

  // ---------------------------------------------------------------------------
  // Feeding bytes

  /** A result without a value, paired with the configuration it leaves. */
  datatype Fed<E> = Fed(result: Result<(), E>, next: Config)

  /**
    `feed_byte`: run the machine on the byte; on `Again`, run it once more,
    now in `Start`, which never asks for a third run.
  */
  function FeedByteStep(c: Config, b: byte): (r: Fed<InternalError>)
    ensures Transition(c, b).result.Err? ==> r == Fed(Err(Transition(c, b).result.error), c)
    ensures r.result.Err? ==> r.next == c || (r.result.error == InternalError.UnexpectedByte && r.next.state == State.Start)
    ensures c.state == State.Start ==> r.next == Transition(c, b).next && (r.result.Ok? <==> Transition(c, b).result.Ok?)
  {
    var first := Transition(c, b);
    match first.result
    case Err(e) => Fed(Err(e), first.next)
    case Ok(Continue) => Fed(Ok(()), first.next)
    case Ok(Again) =>
      var second := Transition(first.next, b);
      Fed(if second.result.Err? then Err(second.result.error) else Ok(()), second.next)
  }

  /** The position-carrying error for a state error raised by the byte at `offset`. */
  function Located(e: InternalError, offset: nat): (r: Error)
    ensures r.offset == offset && !r.MissingDigitsAfterExponentMark?
  {
    match e
    case UnexpectedByte => Error.UnexpectedByte(offset)
    case InvalidNumberDigit => Error.InvalidNumberDigit(offset)
    case LeadingZeroWithoutBase => Error.LeadingZeroWithoutBase(offset)
    case InvalidHexadecimalDigit => Error.InvalidHexadecimalDigit(offset)
    case InvalidOctalDigit => Error.InvalidOctalDigit(offset)
    case InvalidBinaryDigit => Error.InvalidBinaryDigit(offset)
    case MissingDigitsAfterBasePrefix => Error.MissingDigitsAfterBasePrefix(offset)
  }

  /** A per-byte step of the machine; the lexer's own is `FeedByteStep`. */
  type ByteStep = (Config, byte) -> Fed<InternalError>

  /** One iteration of `feed_script`: feed the byte at index `i`, locating any error there. */
  function FeedAt(step: ByteStep, c: Config, b: byte, i: nat): (r: Fed<Error>)
    ensures r.next == step(c, b).next && (r.result.Ok? <==> step(c, b).result.Ok?)
    ensures r.result.Err? ==> r.result == Err(Located(step(c, b).result.error, i))
  {
    var fed := step(c, b);
    match fed.result
    case Ok(_) => Fed(Ok(()), fed.next)
    case Err(e) => Fed(Err(Located(e, i)), fed.next)
  }

  /**
    The loop of `feed_script` on the first `n` bytes: feed them in order from `c`,
    stopping at the first failing byte, whose index the error carries. It is
    written over any per-byte step, so that what it guarantees holds whatever
    the machine does with one byte.
  */
  function FeedScriptWith(step: ByteStep, c: Config, script: seq<byte>, n: nat): (r: Fed<Error>)
    requires n <= |script|
    ensures r.result.Err? ==> r.result.error.offset < n && !r.result.error.MissingDigitsAfterExponentMark?
  {
    if n == 0 then Fed(Ok(()), c)
    else
      var before := FeedScriptWith(step, c, script, n - 1);
      if before.result.Err? then before else FeedAt(step, before.next, script[n - 1], n - 1)
  }

  /**
    `feed_script` on the first `n` bytes, with the lexer's `feed_byte`: an error
    names one of those bytes, and a valid machine stays valid.
  */
  function FeedScriptUpTo(c: Config, script: seq<byte>, n: nat): (r: Fed<Error>)
    requires n <= |script|
    ensures r.result.Err? ==> r.result.error.offset < n && !r.result.error.MissingDigitsAfterExponentMark?
    ensures ConfigValid(c) ==> ConfigValid(r.next)
  {
    FeedByteStepKeepsValid();
    if ConfigValid(c) then FeedScriptKeepsValid(FeedByteStep, c, script, n); FeedScriptWith(FeedByteStep, c, script, n)
    else FeedScriptWith(FeedByteStep, c, script, n)
  }

  lemma FeedByteKeepsValid(c: Config, b: byte)
    requires ConfigValid(c)
    ensures ConfigValid(FeedByteStep(c, b).next)
  {
    TransitionKeepsValid(c, b);
    TransitionKeepsValid(Transition(c, b).next, b);
  }

  /** One `feed_byte` keeps the invariant of the machine, from any valid configuration. */
  ghost predicate StepKeepsValid(step: ByteStep) {
    forall c: Config, b: byte | ConfigValid(c) :: ConfigValid(step(c, b).next)
  }

  lemma FeedByteStepKeepsValid()
    ensures StepKeepsValid(FeedByteStep)
  {
    forall c: Config, b: byte | ConfigValid(c) ensures ConfigValid(FeedByteStep(c, b).next) {
      FeedByteKeepsValid(c, b);
    }
  }

  /** Feeding any prefix of a script with a step that keeps the invariant keeps it. */
  lemma {:induction false} FeedScriptKeepsValid(step: ByteStep, c: Config, script: seq<byte>, n: nat)
    requires n <= |script| && ConfigValid(c) && StepKeepsValid(step)
    ensures ConfigValid(FeedScriptWith(step, c, script, n).next)
  {
    if n > 0 {
      FeedScriptKeepsValid(step, c, script, n - 1);
      var before := FeedScriptWith(step, c, script, n - 1);
      assert ConfigValid(step(before.next, script[n - 1]).next);
    }
  }

  /** Feeding one more byte after a successful prefix is one `FeedAt` of that byte. */
  lemma FeedScriptUpToNext(c: Config, script: seq<byte>, n: nat)
    requires n < |script| && FeedScriptUpTo(c, script, n).result.Ok?
    ensures FeedScriptUpTo(c, script, n + 1) == FeedAt(FeedByteStep, FeedScriptUpTo(c, script, n).next, script[n], n)
  {
  }

  /** Once a byte has failed, the bytes after it change nothing. */
  lemma {:induction false} FailureIsFinal(step: ByteStep, c: Config, script: seq<byte>, n: nat, m: nat)
    requires n <= m <= |script|
    requires FeedScriptWith(step, c, script, n).result.Err?
    ensures FeedScriptWith(step, c, script, m) == FeedScriptWith(step, c, script, n)
    decreases m
  {
    if m > n {
      FailureIsFinal(step, c, script, n, m - 1);
    }
  }

  /**
    A mid-stream error carries the index of the first byte that fails: every byte
    before it was fed successfully, and feeding that byte raised exactly that error.
  */
  lemma {:induction false} ErrorIsFirstFailingByte(step: ByteStep, c: Config, script: seq<byte>, n: nat)
    requires n <= |script|
    requires FeedScriptWith(step, c, script, n).result.Err?
    ensures var e := FeedScriptWith(step, c, script, n).result.error;
            var before := FeedScriptWith(step, c, script, e.offset);
            && before.result.Ok?
            && step(before.next, script[e.offset]).result.Err?
            && Located(step(before.next, script[e.offset]).result.error, e.offset) == e
  {
    var before := FeedScriptWith(step, c, script, n - 1);
    if before.result.Err? {
      ErrorIsFirstFailingByte(step, c, script, n - 1);
    }
  }

  /**
    `feed_eof`: flush the pending token, using no further byte. An empty radix
    buffer or an empty exponent fails at the script length `len`. The state is
    left as it was.
  */
  function EofStep(c: Config, len: nat): (r: Fed<Error>)
    ensures r.result.Err? <==> (c.state in {State.Hexadecimal, State.Octal, State.Binary} && c.integer == [])
                               || (c.state == State.Exponent && c.exponent == [])
    ensures r.result.Err? ==> r.result.error.offset == len && r.next == c
    ensures r.result.Err? ==> (r.result.error.MissingDigitsAfterExponentMark? <==> c.state == State.Exponent)
    ensures r.result.Err? ==> r.result.error.MissingDigitsAfterBasePrefix? || r.result.error.MissingDigitsAfterExponentMark?
  {
    match c.state
    case Start => Fed(Ok(()), c)
    case Identifier => Fed(Ok(()), ClassifyStep(c))
    case Zero => Fed(Ok(()), Emit(c, Token.Integer(IntegerRepresentation.Decimal([0]))))
    case Dot => Fed(Ok(()), Emit(c, Token.Dot))
    case Integer => Fed(Ok(()), Emit(c, Token.Integer(IntegerRepresentation.Decimal(c.integer))).(integer := []))
    case Hexadecimal =>
      if |c.integer| == 0 then Fed(Err(Error.MissingDigitsAfterBasePrefix(len)), c)
      else Fed(Ok(()), Emit(c, Token.Integer(IntegerRepresentation.Hexadecimal(c.integer))).(integer := []))
    case Octal =>
      if |c.integer| == 0 then Fed(Err(Error.MissingDigitsAfterBasePrefix(len)), c)
      else Fed(Ok(()), Emit(c, Token.Integer(IntegerRepresentation.Octal(c.integer))).(integer := []))
    case Binary =>
      if |c.integer| == 0 then Fed(Err(Error.MissingDigitsAfterBasePrefix(len)), c)
      else Fed(Ok(()), Emit(c, Token.Integer(IntegerRepresentation.Binary(c.integer))).(integer := []))
    case Fractional =>
      Fed(Ok(()), Emit(c, Token.Float(FloatRepresentation.Decimal(c.integer, c.fractional)))
                    .(integer := [], fractional := []))
    case Exponent =>
      if |c.exponent| == 0 then Fed(Err(Error.MissingDigitsAfterExponentMark(len)), c)
      else Fed(Ok(()), Emit(c, Token.Float(FloatRepresentation.Scientific(c.integer, c.fractional, c.exponent)))
                         .(integer := [], fractional := [], exponent := []))
    case Equals => Fed(Ok(()), Emit(c, Token.Assign))
    case Minus => Fed(Ok(()), Emit(c, Token.Minus))
  }

  /** Flushing a valid machine emits only well-formed tokens. */
  lemma EofKeepsWellFormed(c: Config, len: nat)
    requires ConfigValid(c) && EofStep(c, len).result.Ok?
    ensures AllWellFormed(EofStep(c, len).next.tokens)
  {
    match c.state
    case Start =>
    case Identifier => AppendWellFormed(c.tokens, Classify(c.identifier));
    case Zero => AppendWellFormed(c.tokens, Token.Integer(IntegerRepresentation.Decimal([0])));
    case Dot => AppendWellFormed(c.tokens, Token.Dot);
    case Integer => AppendWellFormed(c.tokens, Token.Integer(IntegerRepresentation.Decimal(c.integer)));
    case Hexadecimal => AppendWellFormed(c.tokens, Token.Integer(IntegerRepresentation.Hexadecimal(c.integer)));
    case Octal => AppendWellFormed(c.tokens, Token.Integer(IntegerRepresentation.Octal(c.integer)));
    case Binary => AppendWellFormed(c.tokens, Token.Integer(IntegerRepresentation.Binary(c.integer)));
    case Fractional =>
      AppendWellFormed(c.tokens, Token.Float(FloatRepresentation.Decimal(c.integer, c.fractional)));
    case Exponent =>
      AppendWellFormed(c.tokens, Token.Float(FloatRepresentation.Scientific(c.integer, c.fractional, c.exponent)));
    case Equals => AppendWellFormed(c.tokens, Token.Assign);
    case Minus => AppendWellFormed(c.tokens, Token.Minus);
  }

  /**
    `tokenize`: feed every byte, then flush. On success every token is well
    formed (digits below their radix, canonical decimals, no `EOF`); on failure
    no tokens are returned and the offset is a byte index, or the script length
    exactly when only the end of input showed the failure.
  */
  function Lexed(script: seq<byte>): (r: Result<seq<Token>, Error>)
    ensures r.Err? ==> r.error.offset <= |script|
    ensures (r.Err? && r.error.offset == |script|)
              ==> r.error.MissingDigitsAfterBasePrefix? || r.error.MissingDigitsAfterExponentMark?
    ensures r.Err? && r.error.MissingDigitsAfterExponentMark? ==> r.error.offset == |script|
  {
    var fed := FeedScriptUpTo(Initial, script, |script|);
    if fed.result.Err? then Err(fed.result.error)
    else
      var flushed := EofStep(fed.next, |script|);
      if flushed.result.Err? then Err(flushed.result.error) else Ok(flushed.next.tokens)
  }

  /**
    Every token `tokenize` returns is well formed: each stored digit is below its
    radix, a decimal integer is `[0]` or starts with 1-9, an identifier is never a
    keyword, and `EOF` never appears.
  */
  lemma LexedTokensWellFormed(script: seq<byte>)
    requires Lexed(script).Ok?
    ensures AllWellFormed(Lexed(script).value)
  {
    EofKeepsWellFormed(FeedScriptUpTo(Initial, script, |script|).next, |script|);
  }

  /** Where a failure of `Lexed` comes from: a failing byte, or the flush at end of input. */
  lemma LexedErrorOrigin(script: seq<byte>)
    requires Lexed(script).Err?
    ensures var e := Lexed(script).error;
            var fed := FeedScriptUpTo(Initial, script, |script|);
            if e.offset < |script| then
              && fed.result == Err(e)
              && FeedScriptUpTo(Initial, script, e.offset).result.Ok?
              && FeedAt(FeedByteStep, FeedScriptUpTo(Initial, script, e.offset).next, script[e.offset], e.offset).result == Err(e)
            else
              fed.result.Ok? && EofStep(fed.next, |script|).result == Err(e)
  {
    var fed := FeedScriptUpTo(Initial, script, |script|);
    if fed.result.Err? {
      ErrorIsFirstFailingByte(FeedByteStep, Initial, script, |script|);
    }
  }

  // ---------------------------------------------------------------------------
  // The lexer object

  class Lexer {
    var state: State
    var integer: seq<u8>
    var fractional: seq<u8>
    var exponent: seq<u8>
    var identifier: seq<byte>
    var tokens: seq<Token>

    /** The machine's data as a value. */
    function Snapshot(): Config
      reads this
    {
      Config(state, integer, fractional, exponent, identifier, tokens)
    }

    constructor ()
      ensures Snapshot() == Initial
    {
      state := State.Start;
      integer, fractional, exponent, identifier := [], [], [], [];
      tokens := [];
    }

    method RunFsmStart(b: byte) returns (r: Result<Action, InternalError>)
      modifies this
      ensures StartStep(old(Snapshot()), b) == Step(r, Snapshot())
    {
      var token;
      if IsWhitespace(b) {
        return Ok(Continue);
      } else if IsIdentifierStart(b) {
        identifier := identifier + [b];
        state := State.Identifier;
        return Ok(Continue);
      } else if b == '0' {
        state := State.Zero;
        return Ok(Continue);
      } else if IsDecimalDigit(b) {
        integer := integer + [DigitValue(b)];
        state := State.Integer;
        return Ok(Continue);
      } else if b == '-' {
        state := State.Minus;
        return Ok(Continue);
      } else if b == '.' {
        state := State.Dot;
        return Ok(Continue);
      } else if b == '=' {
        state := State.Equals;
        return Ok(Continue);
      } else {
        var punctuation := Punctuation(b);
        if punctuation.None? {
          return Err(InternalError.UnexpectedByte);
        }
        token := punctuation.value;
      }
      tokens := tokens + [token];
      return Ok(Continue);
    }

    method ClassifyIdentifier()
      modifies this
      ensures Snapshot() == ClassifyStep(old(Snapshot()))
    {
      var token := Classify(identifier);
      identifier := [];
      tokens := tokens + [token];
    }

    method RunFsmIdentifier(b: byte) returns (r: Result<Action, InternalError>)
      modifies this
      ensures IdentifierStep(old(Snapshot()), b) == Step(r, Snapshot())
    {
      if IsIdentifierByte(b) {
        identifier := identifier + [b];
        return Ok(Continue);
      }
      ClassifyIdentifier();
      state := State.Start;
      return Ok(Again);
    }

    method RunFsmZero(b: byte) returns (r: Result<Action, InternalError>)
      modifies this
      ensures ZeroStep(old(Snapshot()), b) == Step(r, Snapshot())
    {
      if b == 'x' {
        state := State.Hexadecimal;
        return Ok(Continue);
      } else if b == 'o' {
        state := State.Octal;
        return Ok(Continue);
      } else if b == 'b' {
        state := State.Binary;
        return Ok(Continue);
      } else if b == '.' {
        integer := integer + [0];
        state := State.Fractional;
        return Ok(Continue);
      } else if IsDecimalDigit(b) {
        return Err(InternalError.LeadingZeroWithoutBase);
      } else if IsLetter(b) {
        return Err(InternalError.InvalidNumberDigit);
      }
      tokens := tokens + [Token.Integer(IntegerRepresentation.Decimal([0]))];
      state := State.Start;
      return Ok(Again);
    }

    method RunFsmDot(b: byte) returns (r: Result<Action, InternalError>)
      modifies this
      ensures DotStep(old(Snapshot()), b) == Step(r, Snapshot())
    {
      if IsDecimalDigit(b) {
        fractional := fractional + [DigitValue(b)];
        state := State.Fractional;
        return Ok(Continue);
      }
      tokens := tokens + [Token.Dot];
      state := State.Start;
      return Ok(Again);
    }

    method RunFsmInteger(b: byte) returns (r: Result<Action, InternalError>)
      modifies this
      ensures IntegerStep(old(Snapshot()), b) == Step(r, Snapshot())
    {
      if IsDecimalDigit(b) {
        integer := integer + [DigitValue(b)];
        return Ok(Continue);
      } else if b == '.' {
        state := State.Fractional;
        return Ok(Continue);
      } else if b == 'e' {
        state := State.Exponent;
        return Ok(Continue);
      }
      var digits := integer;
      integer := [];
      tokens := tokens + [Token.Integer(IntegerRepresentation.Decimal(digits))];
      state := State.Start;
      return Ok(Again);
    }

    method RunFsmHexadecimal(b: byte) returns (r: Result<Action, InternalError>)
      modifies this
      ensures HexadecimalStep(old(Snapshot()), b) == Step(r, Snapshot())
    {
      if IsDecimalDigit(b) {
        integer := integer + [DigitValue(b)];
        return Ok(Continue);
      } else if 'A' <= b <= 'F' {
        integer := integer + [HexValue(b)];
        return Ok(Continue);
      } else if 'a' <= b <= 'f' {
        integer := integer + [HexValue(b)];
        return Ok(Continue);
      } else if IsLetter(b) {
        return Err(InternalError.InvalidHexadecimalDigit);
      }
      if |integer| == 0 {
        return Err(InternalError.MissingDigitsAfterBasePrefix);
      }
      var digits := integer;
      integer := [];
      tokens := tokens + [Token.Integer(IntegerRepresentation.Hexadecimal(digits))];
      state := State.Start;
      return Ok(Again);
    }

    method RunFsmOctal(b: byte) returns (r: Result<Action, InternalError>)
      modifies this
      ensures OctalStep(old(Snapshot()), b) == Step(r, Snapshot())
    {
      if '0' <= b <= '7' {
        integer := integer + [DigitValue(b)];
        return Ok(Continue);
      } else if IsDecimalDigit(b) || IsLetter(b) {
        return Err(InternalError.InvalidOctalDigit);
      }
      if |integer| == 0 {
        return Err(InternalError.MissingDigitsAfterBasePrefix);
      }
      var digits := integer;
      integer := [];
      tokens := tokens + [Token.Integer(IntegerRepresentation.Octal(digits))];
      state := State.Start;
      return Ok(Again);
    }

    method RunFsmBinary(b: byte) returns (r: Result<Action, InternalError>)
      modifies this
      ensures BinaryStep(old(Snapshot()), b) == Step(r, Snapshot())
    {
      if '0' <= b <= '1' {
        integer := integer + [DigitValue(b)];
        return Ok(Continue);
      } else if IsDecimalDigit(b) || IsLetter(b) {
        return Err(InternalError.InvalidBinaryDigit);
      }
      if |integer| == 0 {
        return Err(InternalError.MissingDigitsAfterBasePrefix);
      }
      var digits := integer;
      integer := [];
      tokens := tokens + [Token.Integer(IntegerRepresentation.Binary(digits))];
      state := State.Start;
      return Ok(Again);
    }

    method RunFsmFractional(b: byte) returns (r: Result<Action, InternalError>)
      modifies this
      ensures FractionalStep(old(Snapshot()), b) == Step(r, Snapshot())
    {
      if IsDecimalDigit(b) {
        fractional := fractional + [DigitValue(b)];
        return Ok(Continue);
      } else if b == 'e' {
        state := State.Exponent;
        return Ok(Continue);
      }
      var float := FloatRepresentation.Decimal(integer, fractional);
      integer, fractional := [], [];
      tokens := tokens + [Token.Float(float)];
      state := State.Start;
      return Ok(Again);
    }

    method RunFsmExponent(b: byte) returns (r: Result<Action, InternalError>)
      modifies this
      ensures ExponentStep(old(Snapshot()), b) == Step(r, Snapshot())
    {
      if IsDecimalDigit(b) {
        exponent := exponent + [DigitValue(b)];
        return Ok(Continue);
      }
      var float := FloatRepresentation.Scientific(integer, fractional, exponent);
      integer, fractional, exponent := [], [], [];
      tokens := tokens + [Token.Float(float)];
      state := State.Start;
      return Ok(Again);
    }

    method RunFsmEquals(b: byte) returns (r: Result<Action, InternalError>)
      modifies this
      ensures EqualsStep(old(Snapshot()), b) == Step(r, Snapshot())
    {
      if b == '=' {
        tokens := tokens + [Token.Equals];
        return Ok(Continue);
      }
      tokens := tokens + [Token.Assign];
      state := State.Start;
      return Ok(Again);
    }

    method RunFsmMinus(b: byte) returns (r: Result<Action, InternalError>)
      modifies this
      ensures MinusStep(old(Snapshot()), b) == Step(r, Snapshot())
    {
      if b == '>' {
        tokens := tokens + [Token.RightArrow];
        return Ok(Continue);
      }
      tokens := tokens + [Token.Minus];
      state := State.Start;
      return Ok(Again);
    }

    method RunFsm(b: byte) returns (r: Result<Action, InternalError>)
      modifies this
      ensures Transition(old(Snapshot()), b) == Step(r, Snapshot())
    {
      match state
      case Start => r := RunFsmStart(b);
      case Identifier => r := RunFsmIdentifier(b);
      case Zero => r := RunFsmZero(b);
      case Dot => r := RunFsmDot(b);
      case Integer => r := RunFsmInteger(b);
      case Hexadecimal => r := RunFsmHexadecimal(b);
      case Octal => r := RunFsmOctal(b);
      case Binary => r := RunFsmBinary(b);
      case Fractional => r := RunFsmFractional(b);
      case Exponent => r := RunFsmExponent(b);
      case Equals => r := RunFsmEquals(b);
      case Minus => r := RunFsmMinus(b);
    }

    /**
      Offer the byte until a state uses it up. The loop runs at most twice:
      after an `Again` the state is `Start`, which never answers `Again`.
    */
    method FeedByte(b: byte) returns (r: Result<(), InternalError>)
      modifies this
      ensures FeedByteStep(old(Snapshot()), b) == Fed(r, Snapshot())
    {
      ghost var first := Transition(old(Snapshot()), b);
      var runs := 0;
      while true
        invariant runs <= 1
        invariant runs == 0 ==> Snapshot() == old(Snapshot())
        invariant runs == 1 ==> first.result == Ok(Again) && Snapshot() == first.next
        decreases 1 - runs
      {
        var action := RunFsm(b);
        match action
        case Err(e) => return Err(e);
        case Ok(Continue) => return Ok(());
        case Ok(Again) => runs := runs + 1;
      }
    }

    method FeedScript(script: seq<byte>) returns (r: Result<(), Error>)
      modifies this
      ensures FeedScriptUpTo(old(Snapshot()), script, |script|) == Fed(r, Snapshot())
    {
      for i := 0 to |script|
        invariant FeedScriptUpTo(old(Snapshot()), script, i) == Fed(Ok(()), Snapshot())
      {
        FeedScriptUpToNext(old(Snapshot()), script, i);
        var fed := FeedByte(script[i]);
        if fed.Err? {
          FailureIsFinal(FeedByteStep, old(Snapshot()), script, i + 1, |script|);
          return Err(Located(fed.error, i));
        }
      }
      return Ok(());
    }

    method FeedEof(script: seq<byte>) returns (r: Result<(), Error>)
      modifies this
      ensures EofStep(old(Snapshot()), |script|) == Fed(r, Snapshot())
    {
      var len := |script|;
      match state
      case Start =>
        return Ok(());
      case Identifier =>
        ClassifyIdentifier();
        return Ok(());
      case Zero =>
        tokens := tokens + [Token.Integer(IntegerRepresentation.Decimal([0]))];
        return Ok(());
      case Dot =>
        tokens := tokens + [Token.Dot];
        return Ok(());
      case Integer =>
        var digits := integer;
        integer := [];
        tokens := tokens + [Token.Integer(IntegerRepresentation.Decimal(digits))];
        return Ok(());
      case Hexadecimal =>
        if |integer| == 0 {
          return Err(Error.MissingDigitsAfterBasePrefix(len));
        }
        var digits := integer;
        integer := [];
        tokens := tokens + [Token.Integer(IntegerRepresentation.Hexadecimal(digits))];
        return Ok(());
      case Octal =>
        if |integer| == 0 {
          return Err(Error.MissingDigitsAfterBasePrefix(len));
        }
        var digits := integer;
        integer := [];
        tokens := tokens + [Token.Integer(IntegerRepresentation.Octal(digits))];
        return Ok(());
      case Binary =>
        if |integer| == 0 {
          return Err(Error.MissingDigitsAfterBasePrefix(len));
        }
        var digits := integer;
        integer := [];
        tokens := tokens + [Token.Integer(IntegerRepresentation.Binary(digits))];
        return Ok(());
      case Fractional =>
        var float := FloatRepresentation.Decimal(integer, fractional);
        integer, fractional := [], [];
        tokens := tokens + [Token.Float(float)];
        return Ok(());
      case Exponent =>
        if |exponent| == 0 {
          return Err(Error.MissingDigitsAfterExponentMark(len));
        }
        var float := FloatRepresentation.Scientific(integer, fractional, exponent);
        integer, fractional, exponent := [], [], [];
        tokens := tokens + [Token.Float(float)];
        return Ok(());
      case Equals =>
        tokens := tokens + [Token.Assign];
        return Ok(());
      case Minus =>
        tokens := tokens + [Token.Minus];
        return Ok(());
    }
  }

  /** `tokenize`: a fresh lexer fed the whole script, then flushed. */
  method Tokenize(script: seq<byte>) returns (r: Result<seq<Token>, Error>)
    ensures r == Lexed(script)
  {
    var lexer := new Lexer();
    var fed := lexer.FeedScript(script);
    if fed.Err? {
      return Err(fed.error);
    }
    var flushed := lexer.FeedEof(script);
    if flushed.Err? {
      return Err(flushed.error);
    }
    return Ok(lexer.tokens);
  }
}
