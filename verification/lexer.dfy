/** The lexer (main.rs:95-150): one left-to-right pass over the characters with
    one character of lookahead and a single `binary` flag that tells a binary
    `+`/`-` from a unary one. The input is a character sequence and an index
    instead of a peekable iterator. */
module Lexer {
  import opened Wrappers
  import opened Text
  import opened Tokens

  /** A token with the half-open range [start, stop) of positions it was read from. */
  datatype Lexeme = Lexeme(start: nat, stop: nat, token: Token)

  // ---------------------------------------------------------------------------
  // Specification: what one pass over the input produces
  // ---------------------------------------------------------------------------

  /** The end of the maximal run of decimal digits that begins at i. */
  function DigitRunEnd(s: seq<char>, i: nat): (j: nat)
    requires i <= |s|
    ensures i <= j <= |s|
    ensures forall p :: i <= p < j ==> IsDigit(s[p])
    ensures j == |s| || !IsDigit(s[j])
    decreases |s| - i
  {
    if i < |s| && IsDigit(s[i]) then DigitRunEnd(s, i + 1) else i
  }

  /** The end of the maximal run of alphanumeric characters that begins at i. */
  function AlnumRunEnd(s: seq<char>, i: nat): (j: nat)
    requires i <= |s|
    ensures i <= j <= |s|
    ensures forall p :: i <= p < j ==> IsAlphanumeric(s[p])
    ensures j == |s| || !IsAlphanumeric(s[j])
    decreases |s| - i
  {
    if i < |s| && IsAlphanumeric(s[i]) then AlnumRunEnd(s, i + 1) else i
  }

  /** Whether a token led by c makes a following `+` or `-` binary: digits,
      `R`, `B` and `]` do; `)` and everything else do not. */
  predicate SetsBinary(c: char) {
    IsDigit(c) || c == 'R' || c == 'B' || c == ']'
  }

  /** The characters that make an operator token. */
  predicate IsOperatorSymbol(c: char) {
    || c == '+' || c == '-' || c == '*' || c == '/' || c == '^' || c == '<'
    || c == '>' || c == '=' || c == '#' || c == '~' || c == '&' || c == '!'
  }

  /** The characters that can lead a token. */
  predicate StartsToken(c: char) {
    || IsDigit(c) || IsOperatorSymbol(c) || c == 'R' || c == 'B'
    || c == '[' || c == '(' || c == ']' || c == ')'
  }

  /** The lexeme led by the non-whitespace character at i, given the flag, or
      that character when it leads no token. */
  function Classify(s: seq<char>, i: nat, binary: bool): (r: Result<Lexeme, char>)
    requires i < |s|
    ensures r.Ok? ==> r.value.start == i < r.value.stop <= |s|
    ensures r.Err? <==> !StartsToken(s[i])
    ensures r.Err? ==> r.error == s[i]
  {
    var c := s[i];
    if IsDigit(c) then
      var j := DigitRunEnd(s, i + 1);
      assert AllDigits(s[i..j]);
      Ok(Lexeme(i, j, Number(DecimalValue(s[i..j]))))
    else
      match c
      case '+' | '-' => Ok(Lexeme(i, i + 1, if binary then BinaryLeftAssoc(c, 5) else UnaryRightAssoc(c, 8)))
      case '*' | '/' => Ok(Lexeme(i, i + 1, BinaryLeftAssoc(c, 7)))
      case '^' => Ok(Lexeme(i, i + 1, BinaryLeftAssoc(c, 6)))
      case '<' | '>' => Ok(Lexeme(i, i + 1, BinaryLeftAssoc(c, 4)))
      case '=' | '#' => Ok(Lexeme(i, i + 1, BinaryLeftAssoc(c, 4)))
      case '~' => Ok(Lexeme(i, i + 1, UnaryRightAssoc(c, 3)))
      case '&' => Ok(Lexeme(i, i + 1, BinaryLeftAssoc(c, 2)))
      case '!' => Ok(Lexeme(i, i + 1, BinaryLeftAssoc(c, 2)))
      case 'R' => var j := AlnumRunEnd(s, i + 1); Ok(Lexeme(i, j, RealVar(s[i..j])))
      case 'B' => var j := AlnumRunEnd(s, i + 1); Ok(Lexeme(i, j, BoolVar(s[i..j])))
      case '[' | '(' => Ok(Lexeme(i, i + 1, LeftBracket))
      case ']' | ')' => Ok(Lexeme(i, i + 1, RightBracket))
      case _ => Err(c)
  }

  /** The lexemes of s from position i on, reading with flag `binary`; the first
      character that leads no token aborts the scan. */
  function Scan(s: seq<char>, i: nat, binary: bool): Result<seq<Lexeme>, char>
    requires i <= |s|
    decreases |s| - i
  {
    if i == |s| then Ok([])
    else if IsWhitespace(s[i]) then Scan(s, i + 1, binary)
    else
      match Classify(s, i, binary)
      case Err(c) => Err(c)
      case Ok(l) =>
        match Scan(s, l.stop, SetsBinary(s[i]))
        case Err(c) => Err(c)
        case Ok(rest) => Ok([l] + rest)
  }

  function TokensOf(lx: seq<Lexeme>): (ts: seq<Token>)
    ensures |ts| == |lx|
    ensures forall k :: 0 <= k < |lx| ==> ts[k] == lx[k].token
  {
    seq(|lx|, k requires 0 <= k < |lx| => lx[k].token)
  }

  /** The tokens of s from position i on, reading with flag `binary`, or the
      first character that leads no token. */
  function TokensFrom(s: seq<char>, i: nat, binary: bool): Result<seq<Token>, char>
    requires i <= |s|
  {
    match Scan(s, i, binary)
    case Ok(lx) => Ok(TokensOf(lx))
    case Err(c) => Err(c)
  }

  /** What `lex` returns for s: the pass from the start with the flag clear. */
  function Lexing(s: seq<char>): Result<seq<Token>, char> {
    TokensFrom(s, 0, false)
  }

  function Prepend(lx: seq<Lexeme>, r: Result<seq<Lexeme>, char>): Result<seq<Lexeme>, char> {
    match r
    case Ok(rest) => Ok(lx + rest)
    case Err(c) => Err(c)
  }

  // ---------------------------------------------------------------------------
  // Implementation, as the source does it
  // ---------------------------------------------------------------------------

  /** Reads the digits that follow the digit c, which was read just before i. */
  method GetNumber(s: seq<char>, i: nat, c: char) returns (n: nat, j: nat)
    requires i <= |s| && IsDigit(c)
    ensures j == DigitRunEnd(s, i)
    ensures AllDigits([c] + s[i..j]) && n == DecimalValue([c] + s[i..j])
  {
    n := DigitValue(c);
    j := i;
    assert [c] + s[i..j] == [c];
    while j < |s| && IsDigit(s[j])
      invariant i <= j <= |s|
      invariant DigitRunEnd(s, j) == DigitRunEnd(s, i)
      invariant AllDigits([c] + s[i..j]) && n == DecimalValue([c] + s[i..j])
    {
      ghost var read := [c] + s[i..j + 1];
      assert read[..|read| - 1] == [c] + s[i..j];
      n := n * 10 + DigitValue(s[j]);
      j := j + 1;
    }
  }

  /** Reads the alphanumerics that follow the letter c, which was read just before i. */
  method GetIdentifier(s: seq<char>, i: nat, c: char) returns (id: string, j: nat)
    requires i <= |s|
    ensures j == AlnumRunEnd(s, i)
    ensures id == [c] + s[i..j]
  {
    id := [c];
    j := i;
    while j < |s| && IsAlphanumeric(s[j])
      invariant i <= j <= |s|
      invariant AlnumRunEnd(s, j) == AlnumRunEnd(s, i)
      invariant id == [c] + s[i..j]
    {
      id := id + [s[j]];
      j := j + 1;
    }
  }

  lemma PrependAppend(lx: seq<Lexeme>, l: Lexeme, r: Result<seq<Lexeme>, char>)
    ensures Prepend(lx, Prepend([l], r)) == Prepend(lx + [l], r)
  {
    if r.Ok? {
      assert lx + ([l] + r.value) == (lx + [l]) + r.value;
    }
  }

  /** The `let t = match c { ... }` of `lex`: classifies the character c just
      read from position i - 1, reading the rest of a number or identifier,
      and yields the character itself when it leads no token. */
  method ReadToken(s: seq<char>, i: nat, c: char, binary: bool) returns (t: Result<Token, char>, j: nat)
    requires 0 < i <= |s| && s[i - 1] == c
    ensures match Classify(s, i - 1, binary)
            case Ok(l) => t == Ok(l.token) && j == l.stop
            case Err(e) => t == Err(e)
  {
    j := i;
    if IsDigit(c) {
      var n: nat;
      n, j := GetNumber(s, i, c);
      assert [c] + s[i..j] == s[i - 1..j];
      t := Ok(Number(n));
    } else {
      match c {
        case '+' | '-' => t := Ok(if binary then BinaryLeftAssoc(c, 5) else UnaryRightAssoc(c, 8));
        case '*' | '/' => t := Ok(BinaryLeftAssoc(c, 7));
        case '^' => t := Ok(BinaryLeftAssoc(c, 6));
        case '<' | '>' => t := Ok(BinaryLeftAssoc(c, 4));
        case '=' | '#' => t := Ok(BinaryLeftAssoc(c, 4));
        case '~' => t := Ok(UnaryRightAssoc(c, 3));
        case '&' => t := Ok(BinaryLeftAssoc(c, 2));
        case '!' => t := Ok(BinaryLeftAssoc(c, 2));
        case 'R' =>
          var id: string;
          id, j := GetIdentifier(s, i, c);
          assert id == s[i - 1..j];
          t := Ok(RealVar(id));
        case 'B' =>
          var id: string;
          id, j := GetIdentifier(s, i, c);
          assert id == s[i - 1..j];
          t := Ok(BoolVar(id));
        case '[' | '(' => t := Ok(LeftBracket);
        case ']' | ')' => t := Ok(RightBracket);
        case _ => t := Err(c);
      }
    }
  }

  method Lex(input: seq<char>) returns (r: Result<seq<Token>, char>)
    ensures r == Lexing(input)
  {
    var result: seq<Token> := [];
    var binary := false;
    var i := 0;
    ghost var read: seq<Lexeme> := [];
    if Scan(input, 0, false).Ok? {
      assert [] + Scan(input, 0, false).value == Scan(input, 0, false).value;
    }
    while i < |input|
      invariant i <= |input|
      invariant Scan(input, 0, false) == Prepend(read, Scan(input, i, binary))
      invariant result == TokensOf(read)
    {
      var c := input[i];
      ghost var start, wasBinary := i, binary;
      i := i + 1;
      if !IsWhitespace(c) {
        var t: Result<Token, char>;
        t, i := ReadToken(input, i, c, binary);
        if t.Err? {
          assert Scan(input, start, wasBinary) == Err(t.error);
          return Err(t.error);
        }
        binary := SetsBinary(c);
        ghost var l := Lexeme(start, i, t.value);
        assert Scan(input, start, wasBinary) == Prepend([l], Scan(input, i, binary));
        PrependAppend(read, l, Scan(input, i, binary));
        read := read + [l];
        result := result + [t.value];
      }
    }
    assert read + [] == read;
    r := Ok(result);
  }
}
