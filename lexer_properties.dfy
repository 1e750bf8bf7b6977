/**
  Properties of the lexer functions over whole scripts: a lone word, decimal
  literal, hexadecimal, octal or binary literal, or `.` followed by digits
  becomes exactly one token with the script's content; a run of `=` shows
  that `Equals` is never left; and feeding a concatenation is feeding its
  parts in turn.
*/
module LexerProperties {
  import opened Wrappers
  import opened Lexer

  // ---------------------------------------------------------------------------
  // Feeding is compositional

  /** The same feeding with every error offset moved `delta` bytes later. */
  function Shifted(f: Fed<Error>, delta: nat): (r: Fed<Error>)
    ensures r.next == f.next && r.result.Ok? == f.result.Ok?
    ensures r.result.Err? ==> r.result.error.offset == f.result.error.offset + delta
  {
    if f.result.Err? then Fed(Err(f.result.error.(offset := f.result.error.offset + delta)), f.next) else f
  }

  /** Feeding depends on the bytes fed and on nothing after them. */
  lemma {:induction false} FeedPrefixOnly(step: ByteStep, c: Config, s: seq<byte>, t: seq<byte>, n: nat)
    requires n <= |s| && n <= |t| && s[..n] == t[..n]
    ensures FeedScriptWith(step, c, s, n) == FeedScriptWith(step, c, t, n)
  {
    if n > 0 {
      assert s[..n - 1] == s[..n][..n - 1] && t[..n - 1] == t[..n][..n - 1];
      FeedPrefixOnly(step, c, s, t, n - 1);
      assert s[n - 1] == s[..n][n - 1] && t[n - 1] == t[..n][n - 1];
    }
  }

  lemma FeedAtShifted(step: ByteStep, c: Config, b: byte, i: nat, delta: nat)
    ensures FeedAt(step, c, b, i + delta) == Shifted(FeedAt(step, c, b, i), delta)
  {
    var fed := step(c, b);
    if fed.result.Err? {
      var e := fed.result.error;
      assert Located(e, i + delta) == Located(e, i).(offset := i + delta);
    }
  }

  /**
    Feeding `a + b` is feeding `a`, then feeding `b` from the configuration `a`
    left; an error in `b` is reported `|a|` bytes later, and an error in `a`
    is final.
  */
  lemma {:induction false} FeedConcat(step: ByteStep, c: Config, a: seq<byte>, b: seq<byte>, k: nat)
    requires k <= |b|
    ensures var first := FeedScriptWith(step, c, a, |a|);
            FeedScriptWith(step, c, a + b, |a| + k)
              == if first.result.Err? then first else Shifted(FeedScriptWith(step, first.next, b, k), |a|)
  {
    var first := FeedScriptWith(step, c, a, |a|);
    if k == 0 {
      assert (a + b)[..|a|] == a[..|a|];
      FeedPrefixOnly(step, c, a + b, a, |a|);
    } else {
      FeedConcat(step, c, a, b, k - 1);
      if first.result.Ok? {
        var before := FeedScriptWith(step, first.next, b, k - 1);
        assert (a + b)[|a| + k - 1] == b[k - 1];
        if before.result.Ok? {
          FeedAtShifted(step, before.next, b[k - 1], k - 1, |a|);
        }
      }
    }
  }

  // ---------------------------------------------------------------------------
  // Words

  /** A successful byte step extends a successful feeding by one byte. */
  lemma FeedsOneMore(c: Config, s: seq<byte>, n: nat, before: Config, after: Config)
    requires n < |s| && FeedScriptUpTo(c, s, n) == Fed(Ok(()), before)
    requires FeedByteStep(before, s[n]) == Fed(Ok(()), after)
    ensures FeedScriptUpTo(c, s, n + 1) == Fed(Ok(()), after)
  {
  }

  lemma StartsIdentifier(c: Config, b: byte)
    requires c.state == State.Start && IsIdentifierStart(b)
    ensures FeedByteStep(c, b) == Fed(Ok(()), c.(state := State.Identifier, identifier := c.identifier + [b]))
  {
  }

  lemma ExtendsIdentifier(c: Config, b: byte)
    requires c.state == State.Identifier && IsIdentifierByte(b)
    ensures FeedByteStep(c, b) == Fed(Ok(()), c.(identifier := c.identifier + [b]))
  {
  }

  /** Feeding the bytes of an identifier spelling from a clean `Start` buffers all of them. */
  lemma {:induction false} FeedWord(c: Config, w: seq<byte>, j: nat)
    requires c.state == State.Start && BuffersEmpty(c)
    requires IsIdentifierSpelling(w) && 1 <= j <= |w|
    ensures FeedScriptUpTo(c, w, j) == Fed(Ok(()), c.(state := State.Identifier, identifier := w[..j]))
  {
    if j == 1 {
      assert w[..1] == c.identifier + [w[0]];
      assert FeedScriptUpTo(c, w, 0) == Fed(Ok(()), c);
      StartsIdentifier(c, w[0]);
      FeedsOneMore(c, w, 0, c, c.(state := State.Identifier, identifier := w[..1]));
    } else {
      FeedWord(c, w, j - 1);
      var before := c.(state := State.Identifier, identifier := w[..j - 1]);
      assert IsIdentifierByte(w[j - 1]);
      assert w[..j] == w[..j - 1] + [w[j - 1]];
      ExtendsIdentifier(before, w[j - 1]);
      FeedsOneMore(c, w, j - 1, before, before.(identifier := w[..j]));
    }
  }

  /** Every keyword is at least two bytes long, so a one-byte name is an identifier. */
  lemma OneByteNameIsIdentifier(name: seq<byte>)
    requires |name| == 1
    ensures Classify(name) == Token.Identifier(name)
  {
  }

  /**
    A script that is one identifier spelling is one token: the keyword it
    spells, or else an identifier carrying exactly its bytes.
  */
  lemma LexWord(w: seq<byte>)
    requires IsIdentifierSpelling(w)
    ensures Lexed(w) == Ok([Classify(w)])
    ensures Keyword(w).Some? ==> Lexed(w) == Ok([Keyword(w).value])
    ensures Keyword(w).None? ==> Lexed(w) == Ok([Token.Identifier(w)])
  {
    FeedWord(Initial, w, |w|);
    assert w[..|w|] == w;
    var fed := Initial.(state := State.Identifier, identifier := w);
    assert FeedScriptUpTo(Initial, w, |w|) == Fed(Ok(()), fed);
    assert EofStep(fed, |w|).next.tokens == [Classify(w)];
  }

  // ---------------------------------------------------------------------------
  // Decimal literals

  predicate AllDecimalDigits(ds: seq<byte>) {
    forall i | 0 <= i < |ds| :: IsDecimalDigit(ds[i])
  }

  /** The values of decimal digit bytes, in order. */
  function DigitValues(ds: seq<byte>): (v: seq<u8>)
    requires AllDecimalDigits(ds)
    ensures |v| == |ds|
    ensures forall i | 0 <= i < |ds| :: v[i] == ds[i] as int - '0' as int
  {
    if ds == [] then [] else DigitValues(ds[..|ds| - 1]) + [DigitValue(ds[|ds| - 1])]
  }

  /** A decimal literal without a leading zero: digits, the first of them 1-9. */
  predicate IsDecimalSpelling(ds: seq<byte>) {
    |ds| > 0 && '1' <= ds[0] <= '9' && AllDecimalDigits(ds)
  }

  lemma DecimalPrefix(ds: seq<byte>, j: nat)
    requires AllDecimalDigits(ds) && 1 <= j <= |ds|
    ensures AllDecimalDigits(ds[..j]) && AllDecimalDigits(ds[..j - 1])
    ensures DigitValues(ds[..j]) == DigitValues(ds[..j - 1]) + [DigitValue(ds[j - 1])]
  {
    assert AllDecimalDigits(ds[..j]) by {
      forall i | 0 <= i < j ensures IsDecimalDigit(ds[..j][i]) {
        assert ds[..j][i] == ds[i];
      }
    }
    assert ds[..j][..j - 1] == ds[..j - 1];
  }

  lemma {:induction false} FeedDecimal(c: Config, ds: seq<byte>, j: nat)
    requires c.state == State.Start && BuffersEmpty(c)
    requires IsDecimalSpelling(ds) && 1 <= j <= |ds|
    ensures AllDecimalDigits(ds[..j])
    ensures FeedScriptUpTo(c, ds, j) == Fed(Ok(()), c.(state := State.Integer, integer := DigitValues(ds[..j])))
  {
    DecimalPrefix(ds, j);
    if j == 1 {
      assert FeedScriptUpTo(c, ds, 0) == Fed(Ok(()), c);
      assert DigitValues(ds[..0]) == [];
    } else {
      FeedDecimal(c, ds, j - 1);
      var before := c.(state := State.Integer, integer := DigitValues(ds[..j - 1]));
      assert IntegerStep(before, ds[j - 1]) == Step(Ok(Continue), before.(integer := DigitValues(ds[..j])));
      assert FeedAt(FeedByteStep, before, ds[j - 1], j - 1) == Fed(Ok(()), before.(integer := DigitValues(ds[..j])));
    }
  }

  /**
    A script that is one decimal literal without a leading zero is one
    decimal integer token whose digits are the script's digit values in order.
  */
  lemma LexDecimal(ds: seq<byte>)
    requires IsDecimalSpelling(ds)
    ensures Lexed(ds) == Ok([Token.Integer(IntegerRepresentation.Decimal(DigitValues(ds)))])
  {
    FeedDecimal(Initial, ds, |ds|);
    assert ds[..|ds|] == ds;
    var fed := Initial.(state := State.Integer, integer := DigitValues(ds));
    assert FeedScriptUpTo(Initial, ds, |ds|) == Fed(Ok(()), fed);
    assert EofStep(fed, |ds|).next.tokens == [Token.Integer(IntegerRepresentation.Decimal(DigitValues(ds)))];
  }

  // ---------------------------------------------------------------------------
  // Hexadecimal literals

  predicate AllHexDigits(ds: seq<byte>) {
    forall i | 0 <= i < |ds| :: IsDecimalDigit(ds[i]) || IsHexLetter(ds[i])
  }

  /** The values of hexadecimal digit bytes, in order. */
  function HexValues(ds: seq<byte>): (v: seq<u8>)
    requires AllHexDigits(ds)
    ensures |v| == |ds| && DigitsBelow(v, 16)
    ensures forall i | 0 <= i < |ds| :: v[i] == HexValue(ds[i])
  {
    if ds == [] then [] else HexValues(ds[..|ds| - 1]) + [HexValue(ds[|ds| - 1])]
  }

  lemma FeedHexadecimalPrefix(s: seq<byte>)
    requires 2 <= |s| && s[0] == '0' && s[1] == 'x'
    ensures FeedScriptUpTo(Initial, s, 2) == Fed(Ok(()), Initial.(state := State.Hexadecimal))
  {
    assert FeedScriptUpTo(Initial, s, 0) == Fed(Ok(()), Initial);
    assert FeedByteStep(Initial, '0') == Fed(Ok(()), Initial.(state := State.Zero));
    FeedsOneMore(Initial, s, 0, Initial, Initial.(state := State.Zero));
    assert FeedByteStep(Initial.(state := State.Zero), 'x') == Fed(Ok(()), Initial.(state := State.Hexadecimal));
    FeedsOneMore(Initial, s, 1, Initial.(state := State.Zero), Initial.(state := State.Hexadecimal));
  }

  lemma ExtendsHexadecimal(c: Config, b: byte)
    requires c.state == State.Hexadecimal && (IsDecimalDigit(b) || IsHexLetter(b))
    ensures FeedByteStep(c, b) == Fed(Ok(()), c.(integer := c.integer + [HexValue(b)]))
  {
  }

  lemma HexValuesPrefix(ds: seq<byte>, j: nat)
    requires AllHexDigits(ds) && 1 <= j <= |ds|
    ensures AllHexDigits(ds[..j]) && AllHexDigits(ds[..j - 1])
    ensures HexValues(ds[..j]) == HexValues(ds[..j - 1]) + [HexValue(ds[j - 1])]
  {
    assert AllHexDigits(ds[..j]) by {
      forall i | 0 <= i < j ensures IsDecimalDigit(ds[..j][i]) || IsHexLetter(ds[..j][i]) {
        assert ds[..j][i] == ds[i];
      }
    }
    assert ds[..j][..j - 1] == ds[..j - 1];
  }

  lemma {:induction false} FeedHexadecimal(ds: seq<byte>, j: nat)
    requires AllHexDigits(ds) && 1 <= j <= |ds|
    ensures AllHexDigits(ds[..j])
    ensures FeedScriptUpTo(Initial, "0x" + ds, j + 2)
         == Fed(Ok(()), Initial.(state := State.Hexadecimal, integer := HexValues(ds[..j])))
  {
    var s: seq<byte> := "0x" + ds;
    var prefix := Initial.(state := State.Hexadecimal);
    HexValuesPrefix(ds, j);
    assert s[j + 1] == ds[j - 1];
    if j == 1 {
      FeedHexadecimalPrefix(s);
      assert ds[..0] == [];
      ExtendsHexadecimal(prefix, ds[0]);
      FeedsOneMore(Initial, s, 2, prefix, prefix.(integer := HexValues(ds[..1])));
    } else {
      FeedHexadecimal(ds, j - 1);
      var before := prefix.(integer := HexValues(ds[..j - 1]));
      ExtendsHexadecimal(before, ds[j - 1]);
      FeedsOneMore(Initial, s, j + 1, before, before.(integer := HexValues(ds[..j])));
    }
  }

  lemma LexedInHexadecimal(script: seq<byte>, fed: Config)
    requires FeedScriptUpTo(Initial, script, |script|) == Fed(Ok(()), fed)
    requires fed.state == State.Hexadecimal && fed.tokens == []
    ensures fed.integer != [] ==> Lexed(script) == Ok([Token.Integer(IntegerRepresentation.Hexadecimal(fed.integer))])
    ensures fed.integer == [] ==> Lexed(script) == Err(Error.MissingDigitsAfterBasePrefix(|script|))
  {
    if fed.integer != [] {
      assert EofStep(fed, |script|).next.tokens == [Token.Integer(IntegerRepresentation.Hexadecimal(fed.integer))];
    }
  }

  /**
    `0x` followed by hexadecimal digits is one hexadecimal integer token whose
    digits are their values in order; `0x` alone fails at the end of the
    script because digits are missing after the base prefix.
  */
  lemma LexHexadecimal(ds: seq<byte>)
    requires AllHexDigits(ds)
    ensures ds != [] ==> Lexed("0x" + ds) == Ok([Token.Integer(IntegerRepresentation.Hexadecimal(HexValues(ds)))])
    ensures ds == [] ==> Lexed("0x" + ds) == Err(Error.MissingDigitsAfterBasePrefix(2))
  {
    var s: seq<byte> := "0x" + ds;
    assert |s| == |ds| + 2;
    if ds != [] {
      FeedHexadecimal(ds, |ds|);
      assert ds[..|ds|] == ds;
      LexedInHexadecimal(s, Initial.(state := State.Hexadecimal, integer := HexValues(ds)));
    } else {
      FeedHexadecimalPrefix(s);
      LexedInHexadecimal(s, Initial.(state := State.Hexadecimal));
    }
  }

  // ---------------------------------------------------------------------------
  // Octal and binary literals

  /** The state that the base letter after a leading `0` selects: `o` octal, `b` binary. */
  function BaseState(marker: byte): State
    requires marker in {'o', 'b'}
  {
    if marker == 'o' then State.Octal else State.Binary
  }

  function Radix(marker: byte): nat
    requires marker in {'o', 'b'}
  {
    if marker == 'o' then 8 else 2
  }

  function BaseLiteral(marker: byte, digits: seq<u8>): IntegerRepresentation
    requires marker in {'o', 'b'}
  {
    if marker == 'o' then IntegerRepresentation.Octal(digits) else IntegerRepresentation.Binary(digits)
  }

  /** Decimal digit bytes whose values are all below `radix`. */
  predicate AllDigitsBelow(ds: seq<byte>, radix: nat) {
    forall i | 0 <= i < |ds| :: IsDecimalDigit(ds[i]) && ds[i] as int - '0' as int < radix
  }

  lemma StartsZero(c: Config)
    requires c.state == State.Start
    ensures FeedByteStep(c, '0') == Fed(Ok(()), c.(state := State.Zero))
  {
  }

  /** A `.` after a leading `0` makes the zero the integer part of a float. */
  lemma ZeroPoint(c: Config)
    requires c.state == State.Zero
    ensures FeedByteStep(c, '.') == Fed(Ok(()), c.(state := State.Fractional, integer := c.integer + [0]))
  {
  }

  /** After a leading `0`, any of `x`, `o`, `b` selects its radix and nothing is emitted. */
  lemma ZeroStartsBase(c: Config, b: byte)
    requires c.state == State.Zero && b in {'x', 'o', 'b'}
    ensures FeedByteStep(c, b)
         == Fed(Ok(()), c.(state := if b == 'x' then State.Hexadecimal else BaseState(b)))
  {
  }

  lemma ExtendsOctal(c: Config, b: byte)
    requires c.state == State.Octal && '0' <= b <= '7'
    ensures FeedByteStep(c, b) == Fed(Ok(()), c.(integer := c.integer + [DigitValue(b)]))
  {
  }

  lemma ExtendsBinary(c: Config, b: byte)
    requires c.state == State.Binary && '0' <= b <= '1'
    ensures FeedByteStep(c, b) == Fed(Ok(()), c.(integer := c.integer + [DigitValue(b)]))
  {
  }

  lemma FeedBasePrefix(s: seq<byte>)
    requires 2 <= |s| && s[0] == '0' && s[1] in {'o', 'b'}
    ensures FeedScriptUpTo(Initial, s, 2) == Fed(Ok(()), Initial.(state := BaseState(s[1])))
  {
    assert FeedScriptUpTo(Initial, s, 0) == Fed(Ok(()), Initial);
    StartsZero(Initial);
    FeedsOneMore(Initial, s, 0, Initial, Initial.(state := State.Zero));
    ZeroStartsBase(Initial.(state := State.Zero), s[1]);
    FeedsOneMore(Initial, s, 1, Initial.(state := State.Zero), Initial.(state := BaseState(s[1])));
  }

  lemma {:induction false} FeedBase(marker: byte, ds: seq<byte>, j: nat)
    requires marker in {'o', 'b'} && AllDigitsBelow(ds, Radix(marker)) && j <= |ds|
    ensures AllDecimalDigits(ds[..j])
    ensures FeedScriptUpTo(Initial, ['0', marker] + ds, j + 2)
         == Fed(Ok(()), Initial.(state := BaseState(marker), integer := DigitValues(ds[..j])))
  {
    var s: seq<byte> := ['0', marker] + ds;
    if j == 0 {
      FeedBasePrefix(s);
      assert ds[..0] == [];
    } else {
      FeedBase(marker, ds, j - 1);
      DecimalPrefix(ds, j);
      var before := Initial.(state := BaseState(marker), integer := DigitValues(ds[..j - 1]));
      assert s[j + 1] == ds[j - 1];
      if marker == 'o' {
        ExtendsOctal(before, ds[j - 1]);
      } else {
        ExtendsBinary(before, ds[j - 1]);
      }
      FeedsOneMore(Initial, s, j + 1, before, before.(integer := DigitValues(ds[..j])));
    }
  }

  lemma LexedInBase(script: seq<byte>, marker: byte, fed: Config)
    requires marker in {'o', 'b'}
    requires FeedScriptUpTo(Initial, script, |script|) == Fed(Ok(()), fed)
    requires fed.state == BaseState(marker) && fed.tokens == []
    ensures fed.integer != [] ==> Lexed(script) == Ok([Token.Integer(BaseLiteral(marker, fed.integer))])
    ensures fed.integer == [] ==> Lexed(script) == Err(Error.MissingDigitsAfterBasePrefix(|script|))
  {
    if fed.integer != [] {
      assert EofStep(fed, |script|).next.tokens == [Token.Integer(BaseLiteral(marker, fed.integer))];
    }
  }

  /**
    `0o` followed by digits 0-7, or `0b` followed by digits 0-1, is one octal
    or binary integer token whose digits are their values in order; the prefix
    alone fails at the end of the script because digits are missing after it.
  */
  lemma LexBase(marker: byte, ds: seq<byte>)
    requires marker in {'o', 'b'} && AllDigitsBelow(ds, Radix(marker))
    ensures AllDecimalDigits(ds)
    ensures ds != [] ==> Lexed(['0', marker] + ds) == Ok([Token.Integer(BaseLiteral(marker, DigitValues(ds)))])
    ensures ds == [] ==> Lexed(['0', marker] + ds) == Err(Error.MissingDigitsAfterBasePrefix(2))
  {
    var s: seq<byte> := ['0', marker] + ds;
    assert |s| == |ds| + 2;
    FeedBase(marker, ds, |ds|);
    assert ds[..|ds|] == ds;
    LexedInBase(s, marker, Initial.(state := BaseState(marker), integer := DigitValues(ds)));
  }

  // ---------------------------------------------------------------------------
  // Fractions after a leading point

  lemma StartsDot(c: Config)
    requires c.state == State.Start
    ensures FeedByteStep(c, '.') == Fed(Ok(()), c.(state := State.Dot))
  {
  }

  /** A digit after a lone `.` starts the fractional part of a float with no integer part. */
  lemma DotStartsFraction(c: Config, b: byte)
    requires c.state == State.Dot && IsDecimalDigit(b)
    ensures FeedByteStep(c, b) == Fed(Ok(()), c.(state := State.Fractional, fractional := c.fractional + [DigitValue(b)]))
  {
  }

  lemma ExtendsFraction(c: Config, b: byte)
    requires c.state == State.Fractional && IsDecimalDigit(b)
    ensures FeedByteStep(c, b) == Fed(Ok(()), c.(fractional := c.fractional + [DigitValue(b)]))
  {
  }

  lemma {:induction false} FeedPointFraction(ds: seq<byte>, j: nat)
    requires AllDecimalDigits(ds) && 1 <= j <= |ds|
    ensures AllDecimalDigits(ds[..j])
    ensures FeedScriptUpTo(Initial, ['.'] + ds, j + 1)
         == Fed(Ok(()), Initial.(state := State.Fractional, fractional := DigitValues(ds[..j])))
  {
    var s: seq<byte> := ['.'] + ds;
    DecimalPrefix(ds, j);
    assert s[j] == ds[j - 1];
    if j == 1 {
      var dot := Initial.(state := State.Dot);
      assert FeedScriptUpTo(Initial, s, 0) == Fed(Ok(()), Initial);
      StartsDot(Initial);
      FeedsOneMore(Initial, s, 0, Initial, dot);
      assert ds[..0] == [];
      DotStartsFraction(dot, ds[0]);
      FeedsOneMore(Initial, s, 1, dot, Initial.(state := State.Fractional, fractional := DigitValues(ds[..1])));
    } else {
      FeedPointFraction(ds, j - 1);
      var before := Initial.(state := State.Fractional, fractional := DigitValues(ds[..j - 1]));
      ExtendsFraction(before, ds[j - 1]);
      FeedsOneMore(Initial, s, j, before, before.(fractional := DigitValues(ds[..j])));
    }
  }

  lemma LexedInFractional(script: seq<byte>, fed: Config)
    requires FeedScriptUpTo(Initial, script, |script|) == Fed(Ok(()), fed)
    requires fed.state == State.Fractional && fed.tokens == []
    ensures Lexed(script) == Ok([Token.Float(FloatRepresentation.Decimal(fed.integer, fed.fractional))])
  {
    assert EofStep(fed, |script|).next.tokens == [Token.Float(FloatRepresentation.Decimal(fed.integer, fed.fractional))];
  }

  /**
    `.` followed by decimal digits is one decimal float token with an empty
    integer part and the digits' values as its fractional part.
  */
  lemma LexPointFraction(ds: seq<byte>)
    requires AllDecimalDigits(ds) && ds != []
    ensures Lexed(['.'] + ds) == Ok([Token.Float(FloatRepresentation.Decimal([], DigitValues(ds)))])
  {
    var s: seq<byte> := ['.'] + ds;
    FeedPointFraction(ds, |ds|);
    assert ds[..|ds|] == ds;
    assert |s| == |ds| + 1;
    LexedInFractional(s, Initial.(state := State.Fractional, fractional := DigitValues(ds)));
  }

  // ---------------------------------------------------------------------------
  // Runs of `=`

  function Repeat<T>(x: T, n: nat): (r: seq<T>)
    ensures |r| == n && forall i | 0 <= i < n :: r[i] == x
  {
    if n == 0 then [] else Repeat(x, n - 1) + [x]
  }

  /**
    After the first `=`, every further `=` emits `Equals` and the machine
    stays in `Equals`: a second `=` does not start a new operator.
  */
  lemma {:induction false} FeedEqualsRun(c: Config, s: seq<byte>, j: nat)
    requires c.state == State.Start && BuffersEmpty(c)
    requires 1 <= j <= |s| && s == Repeat('=', |s|)
    ensures FeedScriptUpTo(c, s, j)
         == Fed(Ok(()), c.(state := State.Equals, tokens := c.tokens + Repeat(Token.Equals, j - 1)))
  {
    if j == 1 {
      assert FeedScriptUpTo(c, s, 0) == Fed(Ok(()), c);
      assert c.tokens + Repeat(Token.Equals, 0) == c.tokens;
    } else {
      FeedEqualsRun(c, s, j - 1);
      assert s[j - 1] == '=';
      assert c.tokens + Repeat(Token.Equals, j - 1) == c.tokens + Repeat(Token.Equals, j - 2) + [Token.Equals];
    }
  }

  /**
    A script of `k + 1` bytes `=` lexes to `k` tokens `Equals` followed by one
    `Assign`: the second `=` of `==` does not reset the machine, so the end of
    input still finds it in `Equals`.
  */
  lemma LexEqualsRun(k: nat)
    ensures Lexed(Repeat('=', k + 1)) == Ok(Repeat(Token.Equals, k) + [Token.Assign])
  {
    var s := Repeat('=', k + 1);
    FeedEqualsRun(Initial, s, k + 1);
    assert [] + Repeat(Token.Equals, k) == Repeat(Token.Equals, k);
    LexedInEquals(s, Initial.(state := State.Equals, tokens := Repeat(Token.Equals, k)));
  }

  /** A script whose bytes leave the machine in `Equals` ends with `Assign`. */
  lemma LexedInEquals(script: seq<byte>, fed: Config)
    requires FeedScriptUpTo(Initial, script, |script|) == Fed(Ok(()), fed) && fed.state == State.Equals
    ensures Lexed(script) == Ok(fed.tokens + [Token.Assign])
  {
  }
}
