/** The token model shared by the lexer and the converter (main.rs:5-93). */
module Tokens {
  import opened Text

  /** Rust's `u8`, the type of an operator's precedence. */
  newtype u8 = x: int | 0 <= x < 256

  datatype Ary = Unary | Binary

  datatype Assoc = Left | Right

  datatype Op = Op(symbol: char, ary: Ary, assoc: Assoc, prec: u8)

  /** `Number` holds an `i32` in the source; here it is an unbounded integer. */
  datatype Token =
    | Number(value: int)
    | RealVar(name: string)
    | BoolVar(name: string)
    | Operator(op: Op)
    | LeftBracket
    | RightBracket
    | Function(name: string)

  function BinaryLeftAssoc(c: char, prec: u8): Token {
    Operator(Op(c, Binary, Left, prec))
  }

  function UnaryRightAssoc(c: char, prec: u8): Token {
    Operator(Op(c, Unary, Right, prec))
  }

  predicate IsOperator(t: Token) {
    match t
    case Operator(_) => true
    case _ => false
  }

  predicate IsLeftParen(t: Token) {
    match t
    case LeftBracket => true
    case _ => false
  }

  // ---------------------------------------------------------------------------
  // The operator table: precedence per symbol, higher binds tighter.
  // ---------------------------------------------------------------------------

  /** Precedence of the binary form of a symbol, 0 when it has none. */
  function BinaryPrecedence(symbol: char): u8 {
    match symbol
    case '*' | '/' => 7
    case '^' => 6
    case '+' | '-' => 5
    case '<' | '>' | '=' | '#' => 4
    case '&' | '!' => 2
    case _ => 0
  }

  /** Precedence of the unary form of a symbol, 0 when it has none. */
  function UnaryPrecedence(symbol: char): u8 {
    match symbol
    case '+' | '-' => 8
    case '~' => 3
    case _ => 0
  }

  /** An operator as the table describes it: binary ones are left-associative,
      unary ones right-associative, and the precedence is the table's. */
  predicate Canonical(op: Op) {
    || (op.ary == Binary && op.assoc == Left && op.prec == BinaryPrecedence(op.symbol) > 0)
    || (op.ary == Unary && op.assoc == Right && op.prec == UnaryPrecedence(op.symbol) > 0)
  }

  /** A token the lexer can produce: a non-negative number, an identifier led by
      its classifying letter and continued by alphanumerics, a canonical
      operator, or a bracket. The lexer never produces `Function`. */
  predicate Lexable(t: Token) {
    match t
    case Number(n) => n >= 0
    case RealVar(id) => |id| > 0 && id[0] == 'R' && forall k :: 1 <= k < |id| ==> IsAlphanumeric(id[k])
    case BoolVar(id) => |id| > 0 && id[0] == 'B' && forall k :: 1 <= k < |id| ==> IsAlphanumeric(id[k])
    case Operator(op) => Canonical(op)
    case LeftBracket => true
    case RightBracket => true
    case Function(_) => false
  }

  // ---------------------------------------------------------------------------
  // Display
  // ---------------------------------------------------------------------------

  /** The character an operator is displayed as: unary `-` and `+` become `m`
      and `p` so that they differ from the binary forms. */
  function DisplaySymbol(op: Op): char {
    if op.ary == Unary then
      match op.symbol
      case '-' => 'm'
      case '+' => 'p'
      case _ => op.symbol
    else
      op.symbol
  }

  function Render(t: Token): string {
    match t
    case Number(n) => IntToDecimal(n)
    case RealVar(id) => id
    case BoolVar(id) => id
    case Operator(op) => [DisplaySymbol(op)]
    case LeftBracket => "["
    case RightBracket => "]"
    case Function(name) => name
  }

  /** Two table operators with the same display are the same operator: the
      display tells unary signs from binary ones. */
  lemma RenderDistinguishesOperators(a: Op, b: Op)
    requires Canonical(a) && Canonical(b)
    requires Render(Operator(a)) == Render(Operator(b))
    ensures a == b
  {
    assert [DisplaySymbol(a)][0] == [DisplaySymbol(b)][0];
  }

  /** Unary and binary forms of a sign are displayed differently. */
  lemma SignsDisplayApart(c: char)
    requires c == '+' || c == '-'
    ensures Render(UnaryRightAssoc(c, 8)) != Render(BinaryLeftAssoc(c, 5))
    ensures Render(UnaryRightAssoc(c, 8)) == (if c == '-' then "m" else "p")
  {
  }
}
