/** The shunting-yard converter `rpn` (main.rs:152-221): an operator stack, whose
    top is its last element, and an output sequence, both local to one call.
    The per-token trace it prints is not modelled. */
module ShuntingYard {
  import opened Sequences
  import opened Tokens

  /** The converter's two buffers between tokens. */
  datatype Shunt = Shunt(stack: seq<Token>, output: seq<Token>)

  // ---------------------------------------------------------------------------
  // Specification: the converter as functions
  // ---------------------------------------------------------------------------

  /** The `cond` of the operator loop: the top goes to the output first if it is
      a function, an operator of higher precedence, or an operator of equal
      precedence that is left-associative. */
  predicate Outranks(top: Token, op: Op) {
    match top
    case Function(_) => true
    case Operator(t) => t.prec > op.prec || (t.prec == op.prec && t.assoc == Left)
    case _ => false
  }

  /** Whether the operator loop pops `top` before pushing `op`. */
  predicate PopsBefore(top: Token, op: Op) {
    !IsLeftParen(top) && Outranks(top, op)
  }

  /** The pops an incoming operator causes: the longest run at the top of the
      stack that all give way to `op`; the stack keeps what is below it. */
  function PopOperators(stack: seq<Token>, output: seq<Token>, op: Op): (r: Shunt)
    ensures |r.stack| <= |stack| && r.stack == stack[..|r.stack|]
    ensures forall k :: |r.stack| <= k < |stack| ==> PopsBefore(stack[k], op)
    ensures r.stack == [] || !PopsBefore(r.stack[|r.stack| - 1], op)
    decreases |stack|
  {
    if |stack| > 0 && PopsBefore(stack[|stack| - 1], op) then
      PopOperators(stack[..|stack| - 1], output + [stack[|stack| - 1]], op)
    else
      Shunt(stack, output)
  }

  /** The operators an incoming operator pops reach the output top first. */
  lemma {:induction false} PopOperatorsOutput(stack: seq<Token>, output: seq<Token>, op: Op)
    ensures var r := PopOperators(stack, output, op);
      r.output == output + Reversed(stack[|r.stack|..])
    decreases |stack|
  {
    if |stack| > 0 && PopsBefore(stack[|stack| - 1], op) {
      var top := stack[|stack| - 1];
      PopOperatorsOutput(stack[..|stack| - 1], output + [top], op);
      var m := |PopOperators(stack, output, op).stack|;
      ReversedSuffix(stack, m);
    }
  }

  /** The pops a right bracket causes: everything above the nearest left
      bracket; the left bracket itself stays on the stack. */
  function PopToLeftBracket(stack: seq<Token>, output: seq<Token>): (r: Shunt)
    ensures |r.stack| <= |stack| && r.stack == stack[..|r.stack|]
    ensures forall k :: |r.stack| <= k < |stack| ==> !IsLeftParen(stack[k])
    ensures r.stack == [] || IsLeftParen(r.stack[|r.stack| - 1])
    decreases |stack|
  {
    if |stack| > 0 && !IsLeftParen(stack[|stack| - 1]) then
      PopToLeftBracket(stack[..|stack| - 1], output + [stack[|stack| - 1]])
    else
      Shunt(stack, output)
  }

  /** What a right bracket pops reaches the output top first. */
  lemma {:induction false} PopToLeftBracketOutput(stack: seq<Token>, output: seq<Token>)
    ensures var r := PopToLeftBracket(stack, output);
      r.output == output + Reversed(stack[|r.stack|..])
    decreases |stack|
  {
    if |stack| > 0 && !IsLeftParen(stack[|stack| - 1]) {
      var top := stack[|stack| - 1];
      PopToLeftBracketOutput(stack[..|stack| - 1], output + [top]);
      var m := |PopToLeftBracket(stack, output).stack|;
      ReversedSuffix(stack, m);
    }
  }

  /** One pass of the loop over the input. */
  function Step(st: Shunt, token: Token): Shunt {
    match token
    case Number(_) => Shunt(st.stack, st.output + [token])
    case RealVar(_) => Shunt(st.stack, st.output + [token])
    case BoolVar(_) => Shunt(st.stack, st.output + [token])
    case LeftBracket => Shunt(st.stack + [token], st.output)
    case Operator(op) =>
      var p := PopOperators(st.stack, st.output, op);
      Shunt(p.stack + [token], p.output)
    case RightBracket => PopToLeftBracket(st.stack, st.output)
    case Function(_) => Shunt(st.stack + [token], st.output)
  }

  /** The buffers after the loop has consumed all of `input`. */
  function Run(input: seq<Token>): Shunt
    decreases |input|
  {
    if input == [] then Shunt([], [])
    else Step(Run(input[..|input| - 1]), input[|input| - 1])
  }

  /** What `rpn` returns: the output after the loop, then the remaining stack
      flushed in last-in first-out order. */
  function Convert(input: seq<Token>): seq<Token> {
    var st := Run(input);
    st.output + Reversed(st.stack)
  }

  // ---------------------------------------------------------------------------
  // Implementation, as the source does it
  // ---------------------------------------------------------------------------

  method Rpn(input: seq<Token>) returns (output: seq<Token>)
    ensures output == Convert(input)
  {
    var stack: seq<Token> := [];
    output := [];
    for i := 0 to |input|
      invariant Shunt(stack, output) == Run(input[..i])
    {
      var token := input[i];
      assert input[..i + 1][..i] == input[..i];
      ghost var next := Step(Shunt(stack, output), token);
      assert Run(input[..i + 1]) == next;
      match token {
        case Number(_) => output := output + [token];
        case RealVar(_) => output := output + [token];
        case BoolVar(_) => output := output + [token];
        case LeftBracket => stack := stack + [token];
        case Operator(op) =>
          ghost var popped := PopOperators(stack, output, op);
          while |stack| > 0 && !IsLeftParen(stack[|stack| - 1]) && Outranks(stack[|stack| - 1], op)
            invariant PopOperators(stack, output, op) == popped
            decreases |stack|
          {
            output := output + [stack[|stack| - 1]];
            stack := stack[..|stack| - 1];
          }
          stack := stack + [token];
        case RightBracket =>
          ghost var popped := PopToLeftBracket(stack, output);
          while |stack| > 0 && !IsLeftParen(stack[|stack| - 1])
            invariant PopToLeftBracket(stack, output) == popped
            decreases |stack|
          {
            output := output + [stack[|stack| - 1]];
            stack := stack[..|stack| - 1];
          }
        case Function(_) => stack := stack + [token];
      }
    }
    assert input[..|input|] == input;
    if |stack| > 0 {
      output := Drain(stack, output);
    } else {
      assert output + Reversed(stack) == output;
    }
  }

  /** The final loop of `rpn`: pops what is left on the stack onto the output. */
  method Drain(stack0: seq<Token>, output0: seq<Token>) returns (output: seq<Token>)
    ensures output == output0 + Reversed(stack0)
  {
    var stack := stack0;
    output := output0;
    while |stack| > 0
      invariant output + Reversed(stack) == output0 + Reversed(stack0)
      decreases |stack|
    {
      var t := stack[|stack| - 1];
      assert Reversed(stack) == [t] + Reversed(stack[..|stack| - 1]);
      assert output + Reversed(stack) == (output + [t]) + Reversed(stack[..|stack| - 1]);
      stack := stack[..|stack| - 1];
      output := output + [t];
    }
    assert output + Reversed(stack) == output;
  }
}
