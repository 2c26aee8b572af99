/** The source's own tests (main.rs:242-279) as facts about the model. */
module Examples {
  import opened Wrappers
  import opened Sequences
  import opened Tokens
  import opened Text
  import opened Lexer
  import opened ShuntingYard
  import opened ShuntingYardProperties

  /** The source's `unary_detect` test: a sign at the start or after an
      operator is unary, and `R1` is one identifier. */
  lemma UnaryDetect(s: seq<char>)
    requires s == "- + - 1 * - + - R1"
    ensures Lexing(s) == Ok([Operator(Op('-', Unary, Right, 8)), Operator(Op('+', Unary, Right, 8)),
                             Operator(Op('-', Unary, Right, 8)), Number(1), Operator(Op('*', Binary, Left, 7)),
                             Operator(Op('-', Unary, Right, 8)), Operator(Op('+', Unary, Right, 8)),
                             Operator(Op('-', Unary, Right, 8)), RealVar("R1")])
  {
    UnaryDetectChars(s);
  }

  /** The same, from the characters of that input. */
  lemma UnaryDetectChars(s: seq<char>)
    requires |s| == 18 && s[16] == 'R' && s[17] == '1'
    requires s[0] == '-' && s[2] == '+' && s[4] == '-' && s[6] == '1' && s[8] == '*'
    requires s[10] == '-' && s[12] == '+' && s[14] == '-'
    requires s[1] == ' ' && s[3] == ' ' && s[5] == ' ' && s[7] == ' ' && s[9] == ' '
    requires s[11] == ' ' && s[13] == ' ' && s[15] == ' '
    ensures Lexing(s) == Ok([Operator(Op('-', Unary, Right, 8)), Operator(Op('+', Unary, Right, 8)),
                             Operator(Op('-', Unary, Right, 8)), Number(1), Operator(Op('*', Binary, Left, 7)),
                             Operator(Op('-', Unary, Right, 8)), Operator(Op('+', Unary, Right, 8)),
                             Operator(Op('-', Unary, Right, 8)), RealVar("R1")])
  {
    IdentifierLast(s, 16, false);
    var ts := SignsTimesSigns(s, [RealVar("R1")]);
    assert ts == [Operator(Op('-', Unary, Right, 8)), Operator(Op('+', Unary, Right, 8)),
                  Operator(Op('-', Unary, Right, 8)), Number(1), Operator(Op('*', Binary, Left, 7)),
                  Operator(Op('-', Unary, Right, 8)), Operator(Op('+', Unary, Right, 8)),
                  Operator(Op('-', Unary, Right, 8)), RealVar("R1")];
    assert TokensFrom(s, 0, false) == Lexing(s);
  }

  /** The source's `long_unary_chains` test: `+ - - 1 * + - - 2` lexes and
      converts to `1 - - + 2 - - + *`. */
  lemma LongUnaryChains(s: seq<char>)
    requires s == "+ - - 1 * + - - 2"
    ensures Lexing(s).Ok?
    ensures Convert(Lexing(s).value)
         == [Number(1), Operator(Op('-', Unary, Right, 8)), Operator(Op('-', Unary, Right, 8)),
             Operator(Op('+', Unary, Right, 8)), Number(2), Operator(Op('-', Unary, Right, 8)),
             Operator(Op('-', Unary, Right, 8)), Operator(Op('+', Unary, Right, 8)),
             Operator(Op('*', Binary, Left, 7))]
  {
    LongUnaryText(s);
    LongUnaryTokens(Operator(Op('+', Unary, Right, 8)), Operator(Op('-', Unary, Right, 8)),
                    Operator(Op('*', Binary, Left, 7)));
  }

  /** The input of the source's `long_unary_chains` test lexes to the tokens
      `LongUnaryTokens` starts from. */
  lemma LongUnaryText(s: seq<char>)
    requires s == "+ - - 1 * + - - 2"
    ensures Lexing(s) == Ok([Operator(Op('+', Unary, Right, 8)), Operator(Op('-', Unary, Right, 8)),
                             Operator(Op('-', Unary, Right, 8)), Number(1), Operator(Op('*', Binary, Left, 7)),
                             Operator(Op('+', Unary, Right, 8)), Operator(Op('-', Unary, Right, 8)),
                             Operator(Op('-', Unary, Right, 8)), Number(2)])
  {
    LongUnaryChars(s);
  }

  /** The same, from the characters of that input. */
  lemma LongUnaryChars(s: seq<char>)
    requires |s| == 17 && s[16] == '2'
    requires s[0] == '+' && s[2] == '-' && s[4] == '-' && s[6] == '1' && s[8] == '*'
    requires s[10] == '+' && s[12] == '-' && s[14] == '-'
    requires s[1] == ' ' && s[3] == ' ' && s[5] == ' ' && s[7] == ' ' && s[9] == ' '
    requires s[11] == ' ' && s[13] == ' ' && s[15] == ' '
    ensures Lexing(s) == Ok([Operator(Op('+', Unary, Right, 8)), Operator(Op('-', Unary, Right, 8)),
                             Operator(Op('-', Unary, Right, 8)), Number(1), Operator(Op('*', Binary, Left, 7)),
                             Operator(Op('+', Unary, Right, 8)), Operator(Op('-', Unary, Right, 8)),
                             Operator(Op('-', Unary, Right, 8)), Number(2)])
  {
    DigitLast(s, 16, false);
    var ts := SignsTimesSigns(s, [Number(2)]);
    assert ts == [Operator(Op('+', Unary, Right, 8)), Operator(Op('-', Unary, Right, 8)),
                  Operator(Op('-', Unary, Right, 8)), Number(1), Operator(Op('*', Binary, Left, 7)),
                  Operator(Op('+', Unary, Right, 8)), Operator(Op('-', Unary, Right, 8)),
                  Operator(Op('-', Unary, Right, 8)), Number(2)];
    assert TokensFrom(s, 0, false) == Lexing(s);
  }

  /** The tokens of that input give that output: the instance of
      `UnaryChains` with three signs in each chain. */
  lemma LongUnaryTokens(plus: Token, minus: Token, times: Token)
    requires plus == Operator(Op('+', Unary, Right, 8)) && minus == Operator(Op('-', Unary, Right, 8))
    requires times == Operator(Op('*', Binary, Left, 7))
    ensures Convert([plus, minus, minus, Number(1), times, plus, minus, minus, Number(2)])
         == [Number(1), minus, minus, plus, Number(2), minus, minus, plus, times]
  {
    var us := [plus, minus, minus];
    UnaryChains(us, Number(1), times, us, Number(2), 8);
    ChainInput(plus, minus, times, Number(1), Number(2));
    ReversedChain(plus, minus);
    ChainOutput(plus, minus, times, Number(1), Number(2));
  }

  // The layout facts the chain instance needs, kept apart from `Convert`.

  lemma ChainInput(plus: Token, minus: Token, times: Token, a: Token, b: Token)
    ensures [plus, minus, minus] + [a] + [times] + [plus, minus, minus] + [b]
         == [plus, minus, minus, a, times, plus, minus, minus, b]
  {
  }

  lemma ReversedChain(plus: Token, minus: Token)
    ensures Reversed([plus, minus, minus]) == [minus, minus, plus]
  {
  }

  lemma ChainOutput(plus: Token, minus: Token, times: Token, a: Token, b: Token)
    ensures [a] + [minus, minus, plus] + [b] + [minus, minus, plus] + [times]
         == [a, minus, minus, plus, b, minus, minus, plus, times]
  {
  }

  /** A character outside the token alphabet aborts the whole scan. */
  lemma StrayCharacter()
    ensures Lexing("1 + @ 2") == Err('@')
  {
    var s := "1 + @ 2";
    assert Scan(s, 4, false) == Err('@');
    assert Scan(s, 3, false) == Err('@');
    assert Scan(s, 2, true) == Err('@');
    assert Scan(s, 1, true) == Err('@');
    assert Scan(s, 0, false) == Err('@');
  }

  // Lexing facts about spaced-out inputs, shared by the two tests above.

  /** One lexeme, then the tokens after it. */
  lemma ScanStep(s: seq<char>, i: nat, b: bool, l: Lexeme, ts: seq<Token>)
    requires i < |s| && !IsWhitespace(s[i]) && Classify(s, i, b) == Ok(l)
    requires TokensFrom(s, l.stop, SetsBinary(s[i])) == Ok(ts)
    ensures TokensFrom(s, i, b) == Ok([l.token] + ts)
  {
    var rest := Scan(s, l.stop, SetsBinary(s[i])).value;
    assert Scan(s, i, b) == Ok([l] + rest);
    assert TokensOf([l] + rest) == [l.token] + ts;
  }

  /** The shape both tests share: `a b c d * e f g ` with signs a, b, c, e, f,
      g and a digit d, each followed by one space. */
  lemma SignsTimesSigns(s: seq<char>, tail: seq<Token>) returns (ts: seq<Token>)
    requires 16 <= |s| && s[1] == ' ' && s[3] == ' ' && s[5] == ' ' && s[7] == ' '
    requires s[9] == ' ' && s[11] == ' ' && s[13] == ' ' && s[15] == ' '
    requires (s[0] == '+' || s[0] == '-') && (s[2] == '+' || s[2] == '-') && (s[4] == '+' || s[4] == '-')
    requires IsDigit(s[6]) && s[8] == '*'
    requires (s[10] == '+' || s[10] == '-') && (s[12] == '+' || s[12] == '-') && (s[14] == '+' || s[14] == '-')
    requires TokensFrom(s, 16, false) == Ok(tail)
    ensures TokensFrom(s, 0, false) == Ok(ts)
    ensures ts == [UnaryRightAssoc(s[0], 8), UnaryRightAssoc(s[2], 8), UnaryRightAssoc(s[4], 8)]
               + ([Number(DigitValue(s[6])), BinaryLeftAssoc('*', 7)]
               + ([UnaryRightAssoc(s[10], 8), UnaryRightAssoc(s[12], 8), UnaryRightAssoc(s[14], 8)] + tail))
  {
    var t2 := SignRun(s, 10, tail);
    var t1 := ProductStep(s, 6, t2);
    ts := SignRun(s, 0, t1);
  }

  /** Three signs, each followed by a space, at the start or after an
      operator: all three are unary. */
  lemma SignRun(s: seq<char>, i: nat, tail: seq<Token>) returns (ts: seq<Token>)
    requires i + 6 <= |s| && s[i + 1] == ' ' && s[i + 3] == ' ' && s[i + 5] == ' '
    requires (s[i] == '+' || s[i] == '-') && (s[i + 2] == '+' || s[i + 2] == '-') && (s[i + 4] == '+' || s[i + 4] == '-')
    requires TokensFrom(s, i + 6, false) == Ok(tail)
    ensures TokensFrom(s, i, false) == Ok(ts)
    ensures ts == [UnaryRightAssoc(s[i], 8), UnaryRightAssoc(s[i + 2], 8), UnaryRightAssoc(s[i + 4], 8)] + tail
  {
    var t2 := SignStep(s, i + 4, tail);
    var t1 := SignStep(s, i + 2, t2);
    ts := SignStep(s, i, t1);
    assert ts == [UnaryRightAssoc(s[i], 8), UnaryRightAssoc(s[i + 2], 8), UnaryRightAssoc(s[i + 4], 8)] + tail;
  }

  /** A unary sign followed by a space. */
  lemma SignStep(s: seq<char>, i: nat, tail: seq<Token>) returns (ts: seq<Token>)
    requires i + 2 <= |s| && (s[i] == '+' || s[i] == '-') && s[i + 1] == ' '
    requires TokensFrom(s, i + 2, false) == Ok(tail)
    ensures TokensFrom(s, i, false) == Ok(ts) && ts == [UnaryRightAssoc(s[i], 8)] + tail
  {
    assert TokensFrom(s, i + 1, false) == Ok(tail);
    ts := [UnaryRightAssoc(s[i], 8)] + tail;
    ScanStep(s, i, false, Lexeme(i, i + 1, UnaryRightAssoc(s[i], 8)), tail);
  }

  /** A one-digit number times what follows, spaced out. */
  lemma ProductStep(s: seq<char>, i: nat, tail: seq<Token>) returns (ts: seq<Token>)
    requires i + 4 <= |s| && IsDigit(s[i]) && s[i + 1] == ' ' && s[i + 2] == '*' && s[i + 3] == ' '
    requires TokensFrom(s, i + 4, false) == Ok(tail)
    ensures TokensFrom(s, i, false) == Ok(ts)
    ensures ts == [Number(DigitValue(s[i])), BinaryLeftAssoc('*', 7)] + tail
  {
    assert TokensFrom(s, i + 3, false) == Ok(tail);
    ScanStep(s, i + 2, true, Lexeme(i + 2, i + 3, BinaryLeftAssoc('*', 7)), tail);
    assert TokensFrom(s, i + 1, true) == Ok([BinaryLeftAssoc('*', 7)] + tail);
    SingleDigit(s, i);
    ScanStep(s, i, false, Lexeme(i, i + 1, Number(DigitValue(s[i]))), [BinaryLeftAssoc('*', 7)] + tail);
    ts := [Number(DigitValue(s[i])), BinaryLeftAssoc('*', 7)] + tail;
    assert ts == [Number(DigitValue(s[i]))] + ([BinaryLeftAssoc('*', 7)] + tail);
  }

  /** A digit followed by a non-digit is a number on its own. */
  lemma SingleDigit(s: seq<char>, i: nat)
    requires i < |s| && IsDigit(s[i]) && (i + 1 == |s| || !IsDigit(s[i + 1]))
    ensures Classify(s, i, false) == Ok(Lexeme(i, i + 1, Number(DigitValue(s[i]))))
  {
    assert DigitRunEnd(s, i + 1) == i + 1;
    assert DecimalValue(s[i..i + 1]) == DigitValue(s[i]);
  }

  /** A digit that ends the input. */
  lemma DigitLast(s: seq<char>, i: nat, b: bool)
    requires i + 1 == |s| && IsDigit(s[i])
    ensures TokensFrom(s, i, b) == Ok([Number(DigitValue(s[i]))])
  {
    SingleDigit(s, i);
    assert Classify(s, i, b) == Classify(s, i, false);
    assert TokensFrom(s, |s|, true) == Ok([]);
    ScanStep(s, i, b, Lexeme(i, i + 1, Number(DigitValue(s[i]))), []);
    assert [Number(DigitValue(s[i]))] + [] == [Number(DigitValue(s[i]))];
  }

  /** A two-character identifier led by `R` that ends the input. */
  lemma IdentifierLast(s: seq<char>, i: nat, b: bool)
    requires i + 2 == |s| && s[i] == 'R' && IsDigit(s[i + 1])
    ensures TokensFrom(s, i, b) == Ok([RealVar([s[i], s[i + 1]])])
  {
    assert AlnumRunEnd(s, i + 1) == |s|;
    assert s[i..] == [s[i], s[i + 1]];
    assert TokensFrom(s, |s|, SetsBinary('R')) == Ok([]);
    assert !IsWhitespace(s[i]);
    assert s[i..|s|] == s[i..];
    assert Classify(s, i, b) == Ok(Lexeme(i, |s|, RealVar(s[i..])));
    ScanStep(s, i, b, Lexeme(i, |s|, RealVar(s[i..])), []);
    assert [RealVar(s[i..])] + [] == [RealVar(s[i..])];
  }
}
