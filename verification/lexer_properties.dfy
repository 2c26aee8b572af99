/** What one pass of the lexer guarantees about its result (main.rs:95-150). */
module LexerProperties {
  import opened Wrappers
  import opened Text
  import opened Tokens
  import opened Lexer

  /** Positions [from, to) of s hold only whitespace. */
  ghost predicate Blank(s: seq<char>, from: nat, to: nat) {
    to <= |s| && forall p :: from <= p < to ==> IsWhitespace(s[p])
  }

  /** The lexemes tile s from position i on: whitespace, then the first
      lexeme, led by a non-whitespace character, then a tiling of the rest; with
      no lexeme left, whitespace up to the end. */
  ghost predicate Covers(s: seq<char>, i: nat, lx: seq<Lexeme>)
    decreases |lx|
  {
    if lx == [] then Blank(s, i, |s|)
    else
      && i <= lx[0].start < lx[0].stop <= |s|
      && Blank(s, i, lx[0].start)
      && !IsWhitespace(s[lx[0].start])
      && Covers(s, lx[0].stop, lx[1..])
  }

  /** The first lexeme is what its leading character classifies to under the
      flag b, and the rest are threaded from the flag that character sets. */
  ghost predicate Threaded(s: seq<char>, b: bool, lx: seq<Lexeme>)
    decreases |lx|
  {
    if lx == [] then true
    else
      && lx[0].start < |s|
      && Classify(s, lx[0].start, b) == Ok(lx[0])
      && Threaded(s, SetsBinary(s[lx[0].start]), lx[1..])
  }

  ghost predicate Lexes(s: seq<char>, i: nat, b: bool, lx: seq<Lexeme>) {
    Covers(s, i, lx) && Threaded(s, b, lx)
  }

  /** What a tiling says about its k-th lexeme: it lies after i, in order,
      led by a non-whitespace character, and is what that character classifies
      to under the flag the lexeme before it left (b for the first). */
  lemma {:induction false} LexesAt(s: seq<char>, i: nat, b: bool, lx: seq<Lexeme>, k: nat)
    requires Lexes(s, i, b, lx) && k < |lx|
    ensures i <= lx[k].start < lx[k].stop <= |s| && !IsWhitespace(s[lx[k].start])
    ensures k > 0 ==> lx[k - 1].stop <= lx[k].start && lx[k - 1].start < |s|
    ensures Classify(s, lx[k].start, if k == 0 then b else SetsBinary(s[lx[k - 1].start])) == Ok(lx[k])
    decreases k
  {
    if k > 0 {
      var rest := lx[1..];
      LexesAt(s, lx[0].stop, SetsBinary(s[lx[0].start]), rest, k - 1);
      assert rest[k - 1] == lx[k];
      if k > 1 {
        assert rest[k - 2] == lx[k - 1];
      }
    }
  }

  /** A successful scan from i tiles the rest of the input with lexemes, each
      classified under the flag its predecessor left behind: whitespace makes no
      token and does not touch the flag. */
  lemma {:induction false} ScanSpec(s: seq<char>, i: nat, b: bool)
    requires i <= |s|
    ensures Scan(s, i, b).Ok? ==> Lexes(s, i, b, Scan(s, i, b).value)
    decreases |s| - i
  {
    if i < |s| && Scan(s, i, b).Ok? {
      if IsWhitespace(s[i]) {
        ScanSpec(s, i + 1, b);
      } else {
        var l := Classify(s, i, b).value;
        var f := SetsBinary(s[i]);
        ScanSpec(s, l.stop, f);
        var rest := Scan(s, l.stop, f).value;
        var lx := [l] + rest;
        assert Scan(s, i, b).value == lx;
        assert lx[0] == l && lx[1..] == rest;
      }
    }
  }

  /** Conversely, a tiling of the input from i is what the scan from i
      returns: the tiling is unique. */
  lemma {:induction false} TilingScans(s: seq<char>, i: nat, b: bool, lx: seq<Lexeme>)
    requires i <= |s| && Lexes(s, i, b, lx)
    ensures Scan(s, i, b) == Ok(lx)
    decreases |s| - i
  {
    if lx == [] {
      if i < |s| {
        TilingScans(s, i + 1, b, lx);
      }
    } else if i < lx[0].start {
      TilingScans(s, i + 1, b, lx);
    } else {
      TilingScans(s, lx[0].stop, SetsBinary(s[i]), lx[1..]);
      assert [lx[0]] + lx[1..] == lx;
    }
  }

  /** `lex` returns the tokens ts exactly when ts are the tokens of a tiling
      of the whole input that starts with the flag clear. */
  lemma LexingTiles(s: seq<char>, ts: seq<Token>)
    ensures Lexing(s) == Ok(ts) <==> exists lx :: Lexes(s, 0, false, lx) && TokensOf(lx) == ts
  {
    ScanSpec(s, 0, false);
    forall lx | Lexes(s, 0, false, lx) && TokensOf(lx) == ts ensures Lexing(s) == Ok(ts) {
      TilingScans(s, 0, false, lx);
    }
  }

  /** The classification table: what each leading character makes, with the
      precedences and associativities of the operator table. */
  lemma ClassifyTable(s: seq<char>, i: nat, b: bool)
    requires i < |s| && Classify(s, i, b).Ok?
    ensures var l := Classify(s, i, b).value;
      var c := s[i];
      && Lexable(l.token)
      && (IsDigit(c) ==>
            && AllDigits(s[i..l.stop]) && (l.stop == |s| || !IsDigit(s[l.stop]))
            && l.token == Number(DecimalValue(s[i..l.stop])))
      && (c == 'R' ==> l.token == RealVar(s[i..l.stop]) && (l.stop == |s| || !IsAlphanumeric(s[l.stop])))
      && (c == 'B' ==> l.token == BoolVar(s[i..l.stop]) && (l.stop == |s| || !IsAlphanumeric(s[l.stop])))
      && (!IsDigit(c) && c != 'R' && c != 'B' ==> l.stop == i + 1)
      && (l.token.Operator? <==> IsOperatorSymbol(c))
      && (l.token.Operator? ==>
            l.token.op.symbol == c && (l.token.op.ary == Unary <==> c == '~' || ((c == '+' || c == '-') && !b)))
      && (l.token == LeftBracket <==> (c == '[' || c == '('))
      && (l.token == RightBracket <==> (c == ']' || c == ')'))
  {
    var c := s[i];
    if IsDigit(c) {
      ClassifyNumber(s, i, b);
    } else if c == 'R' || c == 'B' {
      ClassifyIdentifier(s, i, b);
    } else {
      ClassifySymbol(s, i, b);
    }
  }

  lemma ClassifyNumber(s: seq<char>, i: nat, b: bool)
    requires i < |s| && IsDigit(s[i])
    ensures var l := Classify(s, i, b).value;
      && AllDigits(s[i..l.stop]) && (l.stop == |s| || !IsDigit(s[l.stop]))
      && l.token == Number(DecimalValue(s[i..l.stop]))
  {
  }

  lemma ClassifyIdentifier(s: seq<char>, i: nat, b: bool)
    requires i < |s| && (s[i] == 'R' || s[i] == 'B')
    ensures var l := Classify(s, i, b).value;
      && Lexable(l.token)
      && (s[i] == 'R' ==> l.token == RealVar(s[i..l.stop]))
      && (s[i] == 'B' ==> l.token == BoolVar(s[i..l.stop]))
      && (l.stop == |s| || !IsAlphanumeric(s[l.stop]))
  {
    var j := AlnumRunEnd(s, i + 1);
    assert Classify(s, i, b).value.stop == j;
    assert forall k :: 1 <= k < |s[i..j]| ==> s[i..j][k] == s[i + k];
  }

  lemma ClassifySymbol(s: seq<char>, i: nat, b: bool)
    requires i < |s| && !IsDigit(s[i]) && s[i] != 'R' && s[i] != 'B' && Classify(s, i, b).Ok?
    ensures var l := Classify(s, i, b).value;
      var c := s[i];
      && Lexable(l.token)
      && l.stop == i + 1
      && (l.token.Operator? <==> IsOperatorSymbol(c))
      && (l.token.Operator? ==>
            l.token.op.symbol == c && (l.token.op.ary == Unary <==> c == '~' || ((c == '+' || c == '-') && !b)))
      && (l.token == LeftBracket <==> (c == '[' || c == '('))
      && (l.token == RightBracket <==> (c == ']' || c == ')'))
  {
  }

  /** Every token `lex` produces is one the token model calls lexable: numbers are
      non-negative, identifiers carry their classifying letter, operators are the
      table's, and there are no `Function` tokens. */
  lemma LexedTokensLexable(s: seq<char>)
    ensures Lexing(s).Ok? ==> forall t :: t in Lexing(s).value ==> Lexable(t)
  {
    if Scan(s, 0, false).Ok? {
      var lx := Scan(s, 0, false).value;
      ScanSpec(s, 0, false);
      forall t | t in Lexing(s).value ensures Lexable(t) {
        var k :| 0 <= k < |lx| && lx[k].token == t;
        LexesAt(s, 0, false, lx, k);
        ClassifyTable(s, lx[k].start, if k == 0 then false else SetsBinary(s[lx[k - 1].start]));
      }
    }
  }

  /** `+` and `-` are binary with precedence 5 exactly when the token before
      them was led by a digit, `R`, `B` or `]`; otherwise, and at the start,
      they are unary with precedence 8. */
  lemma LexSignRule(s: seq<char>, lx: seq<Lexeme>, k: nat)
    requires Scan(s, 0, false) == Ok(lx) && k < |lx|
    ensures lx[k].start < |s| && (k > 0 ==> lx[k - 1].start < |s|)
    ensures s[lx[k].start] == '+' || s[lx[k].start] == '-' ==>
      var c := s[lx[k].start];
      lx[k].token ==
        if k > 0 && SetsBinary(s[lx[k - 1].start]) then Operator(Op(c, Binary, Left, 5))
        else Operator(Op(c, Unary, Right, 8))
  {
    ScanSpec(s, 0, false);
    LexesAt(s, 0, false, lx, k);
    var i := lx[k].start;
    var f := if k == 0 then false else SetsBinary(s[lx[k - 1].start]);
    if s[i] == '+' || s[i] == '-' {
      ClassifySign(s, i, f);
    }
  }

  /** A sign is binary with precedence 5 under the flag, unary with
      precedence 8 without it. */
  lemma ClassifySign(s: seq<char>, i: nat, b: bool)
    requires i < |s| && (s[i] == '+' || s[i] == '-')
    ensures Classify(s, i, b) == Ok(Lexeme(i, i + 1,
      if b then Operator(Op(s[i], Binary, Left, 5)) else Operator(Op(s[i], Unary, Right, 8))))
  {
  }

  /** A scan fails only on a character that is not whitespace and leads no
      token, and it cannot fail on an input made of whitespace and token-leading
      characters. */
  lemma {:induction false} ScanFailure(s: seq<char>, i: nat, b: bool)
    requires i <= |s|
    ensures Scan(s, i, b).Err? ==>
      exists p :: i <= p < |s| && s[p] == Scan(s, i, b).error && !IsWhitespace(s[p]) && !StartsToken(s[p])
    ensures (forall p :: i <= p < |s| ==> IsWhitespace(s[p]) || StartsToken(s[p])) ==> Scan(s, i, b).Ok?
    decreases |s| - i
  {
    if i < |s| {
      if IsWhitespace(s[i]) {
        ScanFailure(s, i + 1, b);
      } else if Classify(s, i, b).Ok? {
        ScanFailure(s, Classify(s, i, b).value.stop, SetsBinary(s[i]));
      }
    }
  }

  /** `lex` fails with a character of the input that is neither whitespace nor
      the start of a token, and succeeds when there is no such character. */
  lemma LexFailure(s: seq<char>)
    ensures Lexing(s).Err? ==> Lexing(s).error in s && !IsWhitespace(Lexing(s).error) && !StartsToken(Lexing(s).error)
    ensures (forall c :: c in s ==> IsWhitespace(c) || StartsToken(c)) ==> Lexing(s).Ok?
  {
    ScanFailure(s, 0, false);
  }

  /** The scan from i, with flag b, reads the lexemes lx and then stops at p:
      whitespace and the lexemes of lx in turn, each classified under the flag
      its predecessor set, then whitespace up to p, where a non-whitespace
      character leads no token under the flag the last lexeme left. */
  ghost predicate FailsAt(s: seq<char>, i: nat, b: bool, lx: seq<Lexeme>, p: nat)
    decreases |lx|
  {
    if lx == [] then
      i <= p < |s| && Blank(s, i, p) && !IsWhitespace(s[p]) && Classify(s, p, b).Err?
    else
      && i <= lx[0].start < lx[0].stop <= p < |s|
      && Blank(s, i, lx[0].start)
      && !IsWhitespace(s[lx[0].start])
      && Classify(s, lx[0].start, b) == Ok(lx[0])
      && FailsAt(s, lx[0].stop, SetsBinary(s[lx[0].start]), lx[1..], p)
  }

  /** Whitespace in front of a failing pass does not change where it stops. */
  lemma FailsAtWiden(s: seq<char>, i: nat, b: bool, lx: seq<Lexeme>, p: nat)
    requires i < |s| && IsWhitespace(s[i]) && FailsAt(s, i + 1, b, lx, p)
    ensures FailsAt(s, i, b, lx, p)
  {
  }

  /** A lexeme in front of a failing pass, classified under b, gives a pass
      from b that stops at the same place. */
  lemma FailsAtCons(s: seq<char>, b: bool, l: Lexeme, rest: seq<Lexeme>, p: nat)
    requires l.start < |s| && !IsWhitespace(s[l.start]) && Classify(s, l.start, b) == Ok(l)
    requires FailsAt(s, l.stop, SetsBinary(s[l.start]), rest, p)
    ensures FailsAt(s, l.start, b, [l] + rest, p)
  {
    var lx := [l] + rest;
    assert lx[0] == l && lx[1..] == rest;
  }

  /** A failed scan stops at a character it reaches after reading whole
      lexemes, and fails with that character. */
  lemma {:induction false} ScanStops(s: seq<char>, i: nat, b: bool)
    requires i <= |s| && Scan(s, i, b).Err?
    ensures exists lx: seq<Lexeme>, p: nat :: FailsAt(s, i, b, lx, p) && p < |s| && s[p] == Scan(s, i, b).error
    decreases |s| - i
  {
    if IsWhitespace(s[i]) {
      ScanStops(s, i + 1, b);
      var lx: seq<Lexeme>, p: nat :| FailsAt(s, i + 1, b, lx, p) && p < |s| && s[p] == Scan(s, i + 1, b).error;
      FailsAtWiden(s, i, b, lx, p);
    } else if Classify(s, i, b).Err? {
      assert FailsAt(s, i, b, [], i);
    } else {
      var l := Classify(s, i, b).value;
      var f := SetsBinary(s[i]);
      ScanStops(s, l.stop, f);
      var rest: seq<Lexeme>, p: nat :| FailsAt(s, l.stop, f, rest, p) && p < |s| && s[p] == Scan(s, l.stop, f).error;
      FailsAtCons(s, b, l, rest, p);
    }
  }

  /** A scan that reads whole lexemes up to a character that leads no token
      fails with that character: nothing after it is looked at. */
  lemma {:induction false} StopsFail(s: seq<char>, i: nat, b: bool, lx: seq<Lexeme>, p: nat)
    requires FailsAt(s, i, b, lx, p)
    ensures i <= p < |s| && Scan(s, i, b) == Err(s[p])
    decreases |s| - i
  {
    if lx == [] {
      if i < p {
        StopsFail(s, i + 1, b, lx, p);
      }
    } else if i < lx[0].start {
      StopsFail(s, i + 1, b, lx, p);
    } else {
      StopsFail(s, lx[0].stop, SetsBinary(s[i]), lx[1..], p);
    }
  }

  /** `lex` returns `Err(c)` exactly when the pass reads whole lexemes up to a
      character c that leads no token: it fails fast with the character where
      it stops. */
  lemma LexStops(s: seq<char>, c: char)
    ensures Lexing(s) == Err(c) <==> exists lx: seq<Lexeme>, p: nat :: FailsAt(s, 0, false, lx, p) && p < |s| && s[p] == c
  {
    if Lexing(s) == Err(c) {
      ScanStops(s, 0, false);
    }
    forall lx: seq<Lexeme>, p: nat | FailsAt(s, 0, false, lx, p) && p < |s| && s[p] == c
      ensures Lexing(s) == Err(c)
    {
      StopsFail(s, 0, false, lx, p);
    }
  }

  /** A text that is exactly one lexeme lexes to that one token. */
  lemma LexSingle(s: seq<char>, l: Lexeme)
    requires |s| > 0 && !IsWhitespace(s[0])
    requires Classify(s, 0, false) == Ok(l) && l.stop == |s|
    ensures Lexing(s) == Ok([l.token])
  {
    assert Scan(s, |s|, SetsBinary(s[0])) == Ok([]);
    assert [l] + [] == [l];
    assert Scan(s, 0, false) == Ok([l]);
    assert TokensOf([l]) == [l.token];
  }

  /** A run of digits lexes to one number token carrying its decimal value. */
  lemma LexDigits(s: seq<char>)
    requires |s| > 0 && AllDigits(s)
    ensures Lexing(s) == Ok([Number(DecimalValue(s))])
  {
    assert DigitRunEnd(s, 1) == |s|;
    assert s[0..|s|] == s;
    LexSingle(s, Lexeme(0, |s|, Number(DecimalValue(s))));
  }

  /** Displaying a lexable token other than a sign and lexing the text gives the
      token back. */
  lemma RenderLexRoundTrip(t: Token)
    requires Lexable(t)
    requires t.Operator? ==> t.op.symbol != '+' && t.op.symbol != '-'
    ensures Lexing(Render(t)) == Ok([t])
  {
    match t
    case Number(n) =>
      DecimalValueOfNatToDecimal(n);
      LexDigits(NatToDecimal(n));
    case RealVar(id) =>
      IdentifierRoundTrip(id);
    case BoolVar(id) =>
      IdentifierRoundTrip(id);
    case Operator(op) =>
      LexSingle(Render(t), Lexeme(0, 1, t));
    case LeftBracket =>
      LexSingle(Render(t), Lexeme(0, 1, t));
    case RightBracket =>
      LexSingle(Render(t), Lexeme(0, 1, t));
  }

  lemma IdentifierRoundTrip(id: string)
    requires |id| > 0 && (id[0] == 'R' || id[0] == 'B')
    requires forall k :: 1 <= k < |id| ==> IsAlphanumeric(id[k])
    ensures id[0] == 'R' ==> Lexing(id) == Ok([RealVar(id)])
    ensures id[0] == 'B' ==> Lexing(id) == Ok([BoolVar(id)])
  {
    var j := AlnumRunEnd(id, 1);
    assert j == |id|;
    assert id[0..j] == id;
    if id[0] == 'R' {
      assert Classify(id, 0, false) == Ok(Lexeme(0, j, RealVar(id)));
      LexSingle(id, Lexeme(0, j, RealVar(id)));
    } else {
      assert Classify(id, 0, false) == Ok(Lexeme(0, j, BoolVar(id)));
      LexSingle(id, Lexeme(0, j, BoolVar(id)));
    }
  }

  /** The displayed signs do not lex back: a binary sign alone reads as unary,
      and `m`/`p` lead no token. */
  lemma SignsDoNotRoundTrip(c: char)
    requires c == '+' || c == '-'
    ensures Lexing(Render(BinaryLeftAssoc(c, 5))) == Ok([UnaryRightAssoc(c, 8)])
    ensures Lexing(Render(UnaryRightAssoc(c, 8))).Err?
  {
    LexSingle([c], Lexeme(0, 1, UnaryRightAssoc(c, 8)));
  }
}
