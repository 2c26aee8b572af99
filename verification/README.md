# Shunting-yard expression converter, modelled in Dafny

The program reads an infix expression over numbers, real and boolean
variables, arithmetic, comparison and logical operators and brackets, and
converts it to reverse Polish notation in two stages:

- **`lex`** makes one left-to-right pass over the characters with one
  character of lookahead. It turns each non-whitespace character that starts
  a token into a `Token`; `get_number` and `get_identifier` read the rest of a
  number or of an `R…`/`B…` identifier. A single `binary` flag decides
  whether a `+`/`-` is a binary operator (precedence 5) or a unary one
  (precedence 8). The first character that leads no token aborts the pass and
  is returned as the error.
- **`rpn`** keeps an operator stack and an output vector. Operands go
  straight to the output. An operator pops the top of the stack while that
  top outranks it and is not a left bracket, then waits on the stack. A right
  bracket pops down to the nearest left bracket. At the end the stack is
  emitted top first.

The project is laid out as follows:

- `tokens.dfy`: the token model (`Ary`, `Assoc`, `Op`, `Token`), the
  constructors `BinaryLeftAssoc`/`UnaryRightAssoc`, `IsOperator`,
  `IsLeftParen`, and the display with its `m`/`p` symbols for unary signs.
- `text.dfy`: the character classes the lexer uses, and decimal digits.
- `lexer.dfy`: the lexer as a specification (`Classify`, `Scan`, `Lexing`).
  Next to it are the methods `GetNumber`, `GetIdentifier` and `Lex`, written
  as the source's loops, and `ReadToken`, the `match` on one character that
  calls the two inner loops; all four are proved equal to that specification.
- `lexer_properties.dfy`: what one lexing pass guarantees.
- `shunting_yard.dfy`: the converter as a specification (`Step`, `Run`,
  `Convert`) and as the method `Rpn`, which has the source's nested loops and
  is proved equal to `Convert`.
- `shunting_yard_properties.dfy`: the stack invariant, token conservation,
  operand order, and the behaviour of chains of unary operators.
- `examples.dfy`: the source's two tests and a stray-character case, restated as facts about the model.

All paths below are relative to the repository root.

## Model

| member | source | states |
|---|---|---|
| Tokens.BinaryLeftAssoc | rust/shunting-yard/src/main.rs:37-45 | no contract: the constructor itself, an operator token that is Binary and Left with the given symbol and precedence |
| Tokens.UnaryRightAssoc | rust/shunting-yard/src/main.rs:46-54 | no contract: the constructor itself, an operator token that is Unary and Right with the given symbol and precedence |
| Tokens.IsOperator | rust/shunting-yard/src/main.rs:56-61 | no contract: the `match` at those lines, true exactly for an operator token |
| Tokens.IsLeftParen | rust/shunting-yard/src/main.rs:63-68 | no contract: the `match` at those lines, true exactly for a left bracket |
| Tokens.DisplaySymbol | rust/shunting-yard/src/main.rs:77-87 | no contract: the `match` at those lines, `m`/`p` for unary `-`/`+` and the symbol otherwise; `SignsDisplayApart` and `RenderDistinguishesOperators` state what it guarantees |
| Tokens.Render | rust/shunting-yard/src/main.rs:71-93 | no contract: the `match` at those lines, the text `fmt` writes for each token; `RenderLexRoundTrip` and `SignsDoNotRoundTrip` relate it to lexing |
| Text.IsWhitespace | rust/shunting-yard/src/main.rs:103 | no contract: the Unicode White_Space list that `char::is_whitespace` tests |
| Text.IsAlphanumeric | rust/shunting-yard/src/main.rs:145 | no contract: the ASCII letters and digits (see Left out) |
| Tokens.RenderDistinguishesOperators | rust/shunting-yard/src/main.rs:71-93 | two table operators that display the same are the same operator: showing unary signs as `m`/`p` keeps them apart from binary ones |
| Tokens.SignsDisplayApart | rust/shunting-yard/src/main.rs:77-87 | unary `-` and `+` display as `m` and `p`, which differs from the binary form's display |
| Text.IsDigit | rust/shunting-yard/src/main.rs:105 | no contract: the `'0'..='9'` arm, the characters `to_digit(10)` accepts |
| Text.DigitValue | rust/shunting-yard/src/main.rs:135-137 | the value `to_digit(10)` gives a digit, which is below 10 |
| Text.IntToDecimal | rust/shunting-yard/src/main.rs:74 | no contract: the `{}` text of a number, a `-` before the digits of a negative one; `NatToDecimal` and `DecimalValueOfNatToDecimal` state what the digits are |
| Text.NatToDecimal | rust/shunting-yard/src/main.rs:74 | the display of a number is a non-empty run of digits without a leading zero |
| Text.DecimalValueOfNatToDecimal | rust/shunting-yard/src/main.rs:74 | reading the displayed digits of a non-negative number back gives the number |
| Lexer.DigitRunEnd | rust/shunting-yard/src/main.rs:136-139 | the digit run from i is maximal: every position before the end is a digit, and the end is the input's end or a non-digit |
| Lexer.AlnumRunEnd | rust/shunting-yard/src/main.rs:145-148 | the alphanumeric run from i is maximal, in the same sense |
| Lexer.SetsBinary | rust/shunting-yard/src/main.rs:121-127 | no contract: the `match` that sets the flag, true for a digit, `R`, `B` and `]` only, so `)` does not set it; `LexSignRule` states its effect |
| Lexer.Classify | rust/shunting-yard/src/main.rs:104-119 | a character yields an error exactly when it leads no token, and the error is that character; a token's lexeme starts at the character and is non-empty |
| Lexer.Scan | rust/shunting-yard/src/main.rs:101-130 | no contract: the lexing pass as a recursive function over positions, with the `binary` flag as a parameter; `ScanSpec`, `ScanStops` and `StopsFail` state what it guarantees |
| Lexer.TokensFrom | rust/shunting-yard/src/main.rs:101-131 | no contract: the tokens of `Scan` from a position and a flag, or its error |
| Lexer.Lexing | rust/shunting-yard/src/main.rs:95-132 | no contract: `TokensFrom` position 0 with the flag clear; `Lex` is proved equal to it |
| Lexer.GetNumber | rust/shunting-yard/src/main.rs:134-141 | the loop stops at the end of the maximal digit run and returns the decimal value of the first digit followed by that run |
| Lexer.GetIdentifier | rust/shunting-yard/src/main.rs:143-150 | the loop stops at the end of the maximal alphanumeric run and returns the leading letter followed by that run |
| Lexer.ReadToken | rust/shunting-yard/src/main.rs:104-119 | the `match` on the character read gives the token `Classify` gives, and resumes where that lexeme ends; otherwise it gives the character as the error. It differs from `Classify` only in calling the two loops `GetNumber` and `GetIdentifier` |
| Lexer.Lex | rust/shunting-yard/src/main.rs:95-132 | the loop returns exactly `Lexing(input)`: the tokens of a successful scan, or the first character that leads no token, with no partial result |
| LexerProperties.LexesAt | rust/shunting-yard/src/main.rs:101-128 | in a tiling, the k-th lexeme lies after the previous one and starts with non-whitespace; it is what its leading character classifies to under the flag the previous lexeme set |
| LexerProperties.ScanSpec | rust/shunting-yard/src/main.rs:101-128 | a successful scan tiles the input: each lexeme is led by a non-whitespace character, only whitespace lies between lexemes and after the last, and each lexeme is what its leading character classifies to under the flag its predecessor set (clear for the first) |
| LexerProperties.TilingScans | rust/shunting-yard/src/main.rs:101-128 | conversely, a tiling of the input from a position, each lexeme classified under its predecessor's flag, is exactly what the scan from there returns, so the tiling is unique |
| LexerProperties.LexingTiles | rust/shunting-yard/src/main.rs:95-132 | `lex` returns the tokens ts exactly when ts are the tokens of a tiling of the whole input that starts with the flag clear |
| LexerProperties.ClassifyTable | rust/shunting-yard/src/main.rs:104-127 | the classification table: digits read a maximal digit run as its value; `R`/`B` read a maximal alphanumeric run; every other token is one character; operators carry their symbol and are unary exactly for `~` and for an unflagged sign; `[`/`(` and `]`/`)` are the brackets |
| LexerProperties.ClassifyNumber | rust/shunting-yard/src/main.rs:105 | a digit leads a number token: the maximal digit run and its decimal value |
| LexerProperties.ClassifyIdentifier | rust/shunting-yard/src/main.rs:114-115 | `R`/`B` lead a real/boolean variable named by the letter and the maximal alphanumeric run after it |
| LexerProperties.ClassifySymbol | rust/shunting-yard/src/main.rs:106-117 | the one-character tokens: operator exactly for the twelve operator symbols, with unary ary exactly for `~` and an unflagged sign; left and right brackets for `[`/`(` and `]`/`)` |
| LexerProperties.ClassifySign | rust/shunting-yard/src/main.rs:106 | a sign is Binary/Left with precedence 5 when the flag is set, and Unary/Right with precedence 8 otherwise |
| LexerProperties.LexedTokensLexable | rust/shunting-yard/src/main.rs:104-119 | every token `lex` returns is lexable: numbers are non-negative; identifiers start with their letter; operators are Binary/Left or Unary/Right with the table's precedence; there are no functions |
| LexerProperties.LexSignRule | rust/shunting-yard/src/main.rs:99-127 | a `+`/`-` is Binary/Left with precedence 5 exactly when the previous token was led by a digit, `R`, `B` or `]`; otherwise, including at the start and after `)`, it is Unary/Right with precedence 8 |
| LexerProperties.ScanFailure | rust/shunting-yard/src/main.rs:101-118 | a scan fails only with a character of the rest of the input that is neither whitespace nor a token start; it cannot fail when there is no such character |
| LexerProperties.LexFailure | rust/shunting-yard/src/main.rs:118 | when `lex` fails, the error is a character of the input that is neither whitespace nor a token start; `lex` succeeds when every character is whitespace or a token start |
| LexerProperties.ScanStops | rust/shunting-yard/src/main.rs:101-118 | a failed scan stops after a sequence of whole lexemes, each classified under the flag its predecessor set, at a non-whitespace character that `Classify` rejects; the error is that character |
| LexerProperties.StopsFail | rust/shunting-yard/src/main.rs:101-118 | conversely, a scan that reaches such a rejected character after whole lexemes fails with exactly that character |
| LexerProperties.LexStops | rust/shunting-yard/src/main.rs:95-132 | `lex` returns the error c exactly when the input, read from the start with the flag clear, stops after whole lexemes at an occurrence of c that leads no token |
| LexerProperties.LexSingle | rust/shunting-yard/src/main.rs:95-132 | an input that is exactly one lexeme lexes to that one token |
| LexerProperties.LexDigits | rust/shunting-yard/src/main.rs:134-141 | a run of digits lexes to one number token holding its decimal value |
| LexerProperties.RenderLexRoundTrip | rust/shunting-yard/src/main.rs:71-93 | displaying a lexable token other than a sign and lexing the text gives back the token |
| LexerProperties.IdentifierRoundTrip | rust/shunting-yard/src/main.rs:143-150 | an `R`/`B` identifier followed by alphanumerics lexes to one variable with that name |
| LexerProperties.SignsDoNotRoundTrip | rust/shunting-yard/src/main.rs:77-87 | the display of a binary sign lexes back as the unary sign, and the unary display `m`/`p` does not lex at all |
| ShuntingYard.Outranks | rust/shunting-yard/src/main.rs:170-179 | no contract: the `cond` match, true for a function, or for an operator of higher precedence, or of equal precedence and left-associative |
| ShuntingYard.PopsBefore | rust/shunting-yard/src/main.rs:167-180 | no contract: the top is not a left bracket and `Outranks` holds, which is when the operator loop pops |
| ShuntingYard.Step | rust/shunting-yard/src/main.rs:160-211 | no contract: the `match` on one token, as a function from stack and output to stack and output; the `ShuntingYardProperties` rows state what it preserves |
| ShuntingYard.Run | rust/shunting-yard/src/main.rs:156-213 | no contract: `Step` folded over the tokens read so far |
| ShuntingYard.Convert | rust/shunting-yard/src/main.rs:152-221 | no contract: `Run` over the whole input, then the stack emitted top first; `Rpn` is proved equal to it |
| ShuntingYard.PopOperators | rust/shunting-yard/src/main.rs:165-194 | an incoming operator pops the longest run at the top of the stack whose every token outranks it and is not a left bracket; the stack keeps the part below; the new top, if any, does not give way |
| ShuntingYard.PopOperatorsOutput | rust/shunting-yard/src/main.rs:165-194 | the popped operators reach the output top first |
| ShuntingYard.PopToLeftBracket | rust/shunting-yard/src/main.rs:195-210 | a right bracket pops everything above the nearest left bracket; the left bracket stays on the stack |
| ShuntingYard.PopToLeftBracketOutput | rust/shunting-yard/src/main.rs:195-210 | what a right bracket pops reaches the output top first |
| ShuntingYard.Rpn | rust/shunting-yard/src/main.rs:152-221 | the loops return exactly `Convert(input)`: the output after every token is read, then the remaining stack emitted top first |
| ShuntingYard.Drain | rust/shunting-yard/src/main.rs:213-217 | the final loop appends the remaining stack to the output in last-in first-out order |
| ShuntingYardProperties.StepHoldsPending | rust/shunting-yard/src/main.rs:160-211 | one token keeps the stack made of left brackets, operators and functions |
| ShuntingYardProperties.StackHoldsPending | rust/shunting-yard/src/main.rs:153-211 | the stack only ever holds left brackets, operators and functions |
| ShuntingYardProperties.OperatorConserves | rust/shunting-yard/src/main.rs:165-194 | an operator moves what it pops to the output and adds itself; nothing is lost or duplicated |
| ShuntingYardProperties.RightBracketConserves | rust/shunting-yard/src/main.rs:195-210 | a right bracket moves what it pops to the output and is dropped itself |
| ShuntingYardProperties.StepConserves | rust/shunting-yard/src/main.rs:160-211 | each token adds itself to the stack and output together, except a right bracket, which adds nothing |
| ShuntingYardProperties.RunConserves | rust/shunting-yard/src/main.rs:156-211 | after any prefix, the stack and the output together hold exactly the tokens read so far, except the right brackets |
| ShuntingYardProperties.ConvertConserves | rust/shunting-yard/src/main.rs:152-221 | the result holds each input token as often as the input does, left brackets included, and no right bracket; its length is the input's length minus the number of right brackets |
| ShuntingYardProperties.PopKeepsOperands | rust/shunting-yard/src/main.rs:165-210 | the pops of an operator or a right bracket add no operand to the output |
| ShuntingYardProperties.StepKeepsOperandOrder | rust/shunting-yard/src/main.rs:160-211 | one token appends to the output's operands only itself, if it is an operand |
| ShuntingYardProperties.RunKeepsOperandOrder | rust/shunting-yard/src/main.rs:156-211 | the output's operands are the input's operands read so far, in input order |
| ShuntingYardProperties.ConvertKeepsOperandOrder | rust/shunting-yard/src/main.rs:152-221 | the operands of the result are those of the input, in the same order |
| ShuntingYardProperties.StepsConcat | rust/shunting-yard/src/main.rs:156-211 | reading two pieces of input one after the other is reading their concatenation |
| ShuntingYardProperties.PopEverything | rust/shunting-yard/src/main.rs:165-194 | an operator that every stacked token outranks empties the whole stack onto the output, top first |
| ShuntingYardProperties.PushChain | rust/shunting-yard/src/main.rs:165-194 | right-associative operators of one precedence pile up on the stack in input order, since none pops another, as long as the top before them does not give way to them |
| ShuntingYardProperties.ChainThenOperator | rust/shunting-yard/src/main.rs:160-194 | a chain of unary operators, an operand, then a lower-precedence operator: the operand, then the chain reversed, go out, and the operator alone waits on the stack |
| ShuntingYardProperties.UnaryChains | rust/shunting-yard/src/main.rs:152-221 | a chain, an operand, a lower-precedence operator, a chain, an operand converts to the first operand, the first chain reversed, the second operand, the second chain reversed, then the operator |
| Examples.UnaryDetect | rust/shunting-yard/src/main.rs:242-256 | `- + - 1 * - + - R1` lexes to unary `-`, `+`, `-` (precedence 8, right-associative), the number 1, binary `*` (precedence 7), unary `-`, `+`, `-` and the variable `R1` |
| Examples.LongUnaryChains | rust/shunting-yard/src/main.rs:258-279 | `+ - - 1 * + - - 2` lexes without error, and its tokens convert to `1 - - + 2 - - + *` with every sign unary |
| Examples.LongUnaryText | rust/shunting-yard/src/main.rs:260-261 | `+ - - 1 * + - - 2` lexes to unary `+`, `-`, `-`, the number 1, binary `*`, unary `+`, `-`, `-` and the number 2 |
| Examples.LongUnaryTokens | rust/shunting-yard/src/main.rs:262-279 | those nine tokens convert to `1 - - + 2 - - + *`, as the instance of `UnaryChains` with three signs in each chain |
| Examples.StrayCharacter | rust/shunting-yard/src/main.rs:118 | `1 + @ 2` lexes to the error `@`, with no tokens |

## Left out

- The per-token trace that `rpn` prints (main.rs:155, 159), and its unused `debug` parameter, are not modelled: they are console output only.
- `main` (main.rs:223-232) is not modelled: it is a fixed demonstration that unwraps and prints.
- Lexer.GetNumber: the value is an unbounded natural number. The source's `i32` overflows on long digit runs (a panic in debug builds, wrap-around in release builds), and the model does not capture that.
- Text.IsAlphanumeric: only ASCII letters and digits continue an identifier. The source's `char::is_alphanumeric` also accepts non-ASCII letters and digits. `char::is_whitespace` is modelled exactly, as the Unicode White_Space list.
- The `Peekable` iterator is modelled as a character sequence and an index. The `&Token` references that `rpn` returns are modelled as token values.
- In three places the code differs from what its comments and the usual algorithm suggest, and the model follows the code:
  - only `]` sets the `binary` flag, so a sign after `)` is unary;
  - a right bracket leaves the matching left bracket on the stack, so left brackets reach the output in the final flush;
  - `^` is binary and left-associative, with precedence 6.
