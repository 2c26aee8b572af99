/** What the converter guarantees about its stack and its output (main.rs:152-221). */
module ShuntingYardProperties {
  import opened Sequences
  import opened Tokens
  import opened ShuntingYard

  /** The tokens that wait on the stack: left brackets, operators and functions. */
  predicate Pending(t: Token) {
    IsLeftParen(t) || IsOperator(t) || t.Function?
  }

  /** The tokens that go straight to the output. */
  predicate IsOperand(t: Token) {
    t.Number? || t.RealVar? || t.BoolVar?
  }

  lemma RunUnfold(input: seq<Token>)
    requires input != []
    ensures Run(input) == Step(Run(input[..|input| - 1]), input[|input| - 1])
  {
  }

  /** Reading one more token adds it to what must be conserved, unless it is a
      right bracket. */
  lemma ConservedAppend(prefix: seq<Token>, token: Token)
    ensures multiset(prefix + [token])[RightBracket := 0]
         == multiset(prefix)[RightBracket := 0] + (if token == RightBracket then multiset{} else multiset{token})
  {
    assert multiset(prefix + [token]) == multiset(prefix) + multiset{token};
  }

  /** One token keeps the stack made of pending tokens. */
  lemma StepHoldsPending(st: Shunt, token: Token)
    requires forall t :: t in st.stack ==> Pending(t)
    ensures forall t :: t in Step(st, token).stack ==> Pending(t)
  {
    match token
    case Operator(op) =>
      var p := PopOperators(st.stack, st.output, op);
      assert forall t :: t in p.stack ==> t in st.stack;
    case RightBracket =>
      var p := PopToLeftBracket(st.stack, st.output);
      assert forall t :: t in p.stack ==> t in st.stack;
    case _ =>
  }

  /** The stack only ever holds left brackets, operators and functions. */
  lemma {:induction false} StackHoldsPending(input: seq<Token>)
    ensures forall t :: t in Run(input).stack ==> Pending(t)
    decreases |input|
  {
    if input != [] {
      var prefix := input[..|input| - 1];
      StackHoldsPending(prefix);
      RunUnfold(input);
      StepHoldsPending(Run(prefix), input[|input| - 1]);
    }
  }

  /** An operator moves what it pops to the output and then waits on the stack. */
  lemma OperatorConserves(st: Shunt, token: Token)
    requires token.Operator?
    ensures var next := Step(st, token);
      multiset(next.stack) + multiset(next.output) == multiset(st.stack) + multiset(st.output) + multiset{token}
  {
    var p := PopOperators(st.stack, st.output, token.op);
    PopOperatorsOutput(st.stack, st.output, token.op);
    MoveTop(st.stack, |p.stack|, st.output);
  }

  /** A right bracket moves what it pops to the output and is itself dropped. */
  lemma RightBracketConserves(st: Shunt)
    ensures var next := Step(st, RightBracket);
      multiset(next.stack) + multiset(next.output) == multiset(st.stack) + multiset(st.output)
  {
    var p := PopToLeftBracket(st.stack, st.output);
    PopToLeftBracketOutput(st.stack, st.output);
    MoveTop(st.stack, |p.stack|, st.output);
  }

  /** One token moves tokens between the stack and the output and adds itself,
      unless it is a right bracket. */
  lemma StepConserves(st: Shunt, token: Token)
    ensures var next := Step(st, token);
      multiset(next.stack) + multiset(next.output)
        == multiset(st.stack) + multiset(st.output) + (if token == RightBracket then multiset{} else multiset{token})
  {
    if token.Operator? {
      OperatorConserves(st, token);
    } else if token == RightBracket {
      RightBracketConserves(st);
    }
  }

  /** No token is lost or duplicated: the stack and the output together hold
      every input token read so far except the right brackets. */
  lemma {:induction false} RunConserves(input: seq<Token>)
    ensures multiset(Run(input).stack) + multiset(Run(input).output) == multiset(input)[RightBracket := 0]
    decreases |input|
  {
    if input != [] {
      var prefix := input[..|input| - 1];
      var token := input[|input| - 1];
      RunConserves(prefix);
      RunUnfold(input);
      SplitLast(input);
      ConservedAppend(prefix, token);
      StepConserves(Run(prefix), token);
    }
  }

  /** The converted sequence holds each input token as often as the input does,
      except right brackets, which it drops; left brackets are kept. */
  lemma ConvertConserves(input: seq<Token>)
    ensures multiset(Convert(input)) == multiset(input)[RightBracket := 0]
    ensures |Convert(input)| == |input| - multiset(input)[RightBracket]
    ensures RightBracket !in Convert(input)
  {
    RunConserves(input);
    var m := multiset(input);
    assert m == m[RightBracket := 0] + multiset{}[RightBracket := m[RightBracket]];
  }

  lemma FilterNoOperands(s: seq<Token>)
    requires forall t :: t in s ==> Pending(t)
    ensures Filter(IsOperand, s) == []
  {
  }

  /** Popping the top of a stack of pending tokens onto the output adds no
      operand to it. */
  lemma PoppedAreNotOperands(stack: seq<Token>, m: nat, output: seq<Token>)
    requires m <= |stack|
    requires forall t :: t in stack ==> Pending(t)
    ensures Filter(IsOperand, output + Reversed(stack[m..])) == Filter(IsOperand, output)
  {
    var popped := Reversed(stack[m..]);
    forall t | t in popped ensures Pending(t) {
      assert t in multiset(stack[m..]);
    }
    FilterNoOperands(popped);
    FilterAppend(IsOperand, output, popped);
    assert Filter(IsOperand, output) + [] == Filter(IsOperand, output);
  }

  /** What an operator or a right bracket pops are pending tokens, so the
      operands of the output stay what they were. */
  lemma PopKeepsOperands(st: Shunt, token: Token)
    requires forall t :: t in st.stack ==> Pending(t)
    requires token.Operator? || token == RightBracket
    ensures Filter(IsOperand, Step(st, token).output) == Filter(IsOperand, st.output)
  {
    if token.Operator? {
      var p := PopOperators(st.stack, st.output, token.op);
      PopOperatorsOutput(st.stack, st.output, token.op);
      PoppedAreNotOperands(st.stack, |p.stack|, st.output);
    } else {
      var p := PopToLeftBracket(st.stack, st.output);
      PopToLeftBracketOutput(st.stack, st.output);
      PoppedAreNotOperands(st.stack, |p.stack|, st.output);
    }
  }

  /** One token appends to the output the operand it is, if any, and
      otherwise only tokens popped from the stack, which are not operands. */
  lemma StepKeepsOperandOrder(st: Shunt, token: Token)
    requires forall t :: t in st.stack ==> Pending(t)
    ensures Filter(IsOperand, Step(st, token).output) == Filter(IsOperand, st.output) + Filter(IsOperand, [token])
  {
    assert Filter(IsOperand, [token]) == (if IsOperand(token) then [token] else []) by {
      assert [token][..0] == [];
    }
    if token.Operator? || token == RightBracket {
      PopKeepsOperands(st, token);
    } else {
      FilterAppend(IsOperand, st.output, [token]);
    }
  }

  /** Operands reach the output in the order they come in. */
  lemma {:induction false} RunKeepsOperandOrder(input: seq<Token>)
    ensures Filter(IsOperand, Run(input).output) == Filter(IsOperand, input)
    decreases |input|
  {
    if input != [] {
      var prefix := input[..|input| - 1];
      var token := input[|input| - 1];
      RunKeepsOperandOrder(prefix);
      StackHoldsPending(prefix);
      RunUnfold(input);
      SplitLast(input);
      StepKeepsOperandOrder(Run(prefix), token);
      FilterAppend(IsOperand, prefix, [token]);
    }
  }

  /** The operands of the converted sequence are those of the input, in the
      same order: the conversion only moves operators and brackets. */
  lemma ConvertKeepsOperandOrder(input: seq<Token>)
    ensures Filter(IsOperand, Convert(input)) == Filter(IsOperand, input)
  {
    var st := Run(input);
    RunKeepsOperandOrder(input);
    StackHoldsPending(input);
    FilterNoOperands(Reversed(st.stack));
    FilterAppend(IsOperand, st.output, Reversed(st.stack));
  }

  /** The loop's passes over `input`, started from the buffers `st`. */
  function Steps(st: Shunt, input: seq<Token>): Shunt
    decreases |input|
  {
    if input == [] then st else Step(Steps(st, input[..|input| - 1]), input[|input| - 1])
  }

  /** Reading `a + b` is reading `a`, then `b` from where `a` left the buffers. */
  lemma {:induction false} StepsConcat(st: Shunt, a: seq<Token>, b: seq<Token>)
    ensures Steps(st, a + b) == Steps(Steps(st, a), b)
    decreases |b|
  {
    if b == [] {
      assert a + b == a;
    } else {
      var b' := b[..|b| - 1];
      StepsConcat(st, a, b');
      assert (a + b)[..|a + b| - 1] == a + b';
    }
  }

  /** The converter's loop is the passes started from empty buffers. */
  lemma {:induction false} RunIsSteps(input: seq<Token>)
    ensures Run(input) == Steps(Shunt([], []), input)
    decreases |input|
  {
    if input != [] {
      RunIsSteps(input[..|input| - 1]);
    }
  }

  /** Reading one more token is one more pass of the loop. */
  lemma StepsSnoc(st: Shunt, input: seq<Token>, t: Token)
    ensures Steps(st, input + [t]) == Step(Steps(st, input), t)
  {
    assert (input + [t])[..|input|] == input;
  }

  /** An operator that every token on the stack gives way to empties the whole
      stack onto the output, top first. */
  lemma PopEverything(stack: seq<Token>, output: seq<Token>, op: Op)
    requires forall k :: 0 <= k < |stack| ==> PopsBefore(stack[k], op)
    ensures PopOperators(stack, output, op) == Shunt([], output + Reversed(stack))
  {
    PopOperatorsOutput(stack, output, op);
    assert stack[0..] == stack;
  }

  /** An operator that the top of the stack does not give way to is pushed
      without popping anything. */
  lemma PushOne(st: Shunt, u: Token)
    requires u.Operator?
    requires st.stack == [] || !PopsBefore(st.stack[|st.stack| - 1], u.op)
    ensures Step(st, u) == Shunt(st.stack + [u], st.output)
  {
  }

  /** The same, one pass after `input`. */
  lemma StepsPush(st: Shunt, input: seq<Token>, u: Token)
    requires u.Operator?
    requires var s := Steps(st, input).stack; s == [] || !PopsBefore(s[|s| - 1], u.op)
    ensures Steps(st, input + [u]) == Shunt(Steps(st, input).stack + [u], Steps(st, input).output)
  {
    StepsSnoc(st, input, u);
    PushOne(Steps(st, input), u);
  }

  /** An operand goes straight to the output. */
  lemma OperandStep(st: Shunt, a: Token)
    requires IsOperand(a)
    ensures Step(st, a) == Shunt(st.stack, st.output + [a])
  {
  }

  /** An operator that every token on the stack gives way to sends the whole
      stack to the output and is left alone on it. */
  lemma PopAllThenPush(st: Shunt, m: Token)
    requires m.Operator?
    requires forall k :: 0 <= k < |st.stack| ==> PopsBefore(st.stack[k], m.op)
    ensures Step(st, m) == Shunt([m], st.output + Reversed(st.stack))
  {
    PopEverything(st.stack, st.output, m.op);
  }

  /** Operators that all associate to the right and share one precedence. */
  predicate RightChain(us: seq<Token>, prec: u8) {
    forall k :: 0 <= k < |us| ==> us[k].Operator? && us[k].op.assoc == Right && us[k].op.prec == prec
  }

  /** Such a chain, read onto a stack whose top gives way to none of its
      operators, is pushed whole: no operator of the chain pops another. */
  lemma {:induction false} PushChain(st: Shunt, us: seq<Token>, prec: u8)
    requires RightChain(us, prec)
    requires st.stack == [] || forall k :: 0 <= k < |us| ==> !PopsBefore(st.stack[|st.stack| - 1], us[k].op)
    ensures Steps(st, us) == Shunt(st.stack + us, st.output)
    decreases |us|
  {
    if us == [] {
      assert st.stack + us == st.stack;
    } else {
      var init, u := us[..|us| - 1], us[|us| - 1];
      assert RightChain(init, prec);
      PushChain(st, init, prec);
      var s := st.stack + init;
      assert s == [] || !PopsBefore(s[|s| - 1], u.op) by {
        if init != [] {
          assert s[|s| - 1] == us[|us| - 2];
        }
      }
      StepsPush(st, init, u);
      SplitLast(us);
      ConcatSplitLast(st.stack, us);
    }
  }

  /** A chain of right-associative operators of one precedence, an operand
      and then an operator of lower precedence: the chain waits on the stack
      until the operator pops it, nearest first, after the operand. */
  lemma ChainThenOperator(us: seq<Token>, a: Token, m: Token, prec: u8)
    requires RightChain(us, prec)
    requires IsOperand(a)
    requires m.Operator? && m.op.prec < prec
    ensures Steps(Shunt([], []), us + [a] + [m]) == Shunt([m], [a] + Reversed(us))
  {
    var empty := Shunt([], []);
    PushChain(empty, us, prec);
    var x := Steps(empty, us);
    assert x.stack == us && x.output == [];
    StepsSnoc(empty, us, a);
    OperandStep(x, a);
    var y := Steps(empty, us + [a]);
    assert y == Shunt(us, [a]);
    assert forall k :: 0 <= k < |us| ==> PopsBefore(us[k], m.op) by {
      forall k | 0 <= k < |us|
        ensures PopsBefore(us[k], m.op)
      {
        assert us[k].Operator? && us[k].op.prec == prec;
      }
    }
    StepsSnoc(empty, us + [a], m);
    PopAllThenPush(y, m);
  }

  /** Right-associative operators group to the right. In `u.. a m v.. b`,
      where the u and the v are right-associative operators of one precedence
      above that of the operator m and a and b are operands, each chain
      follows its operand in reverse order, and m comes last. */
  lemma UnaryChains(us: seq<Token>, a: Token, m: Token, vs: seq<Token>, b: Token, prec: u8)
    requires RightChain(us, prec) && RightChain(vs, prec)
    requires IsOperand(a) && IsOperand(b)
    requires m.Operator? && m.op.prec < prec
    ensures Convert(us + [a] + [m] + vs + [b]) == [a] + Reversed(us) + [b] + Reversed(vs) + [m]
  {
    var empty := Shunt([], []);
    var front := us + [a] + [m];
    var out := [a] + Reversed(us);
    ChainThenOperator(us, a, m, prec);
    StepsConcat(empty, front, vs);
    PushChain(Shunt([m], out), vs, prec);
    StepsSnoc(empty, front + vs, b);
    RunIsSteps(front + vs + [b]);
    ReversedConcat([m], vs);
    assert Reversed([m]) == [m];
    AppendAssoc(out + [b], Reversed(vs), [m]);
  }
}
