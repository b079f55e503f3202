/** The postfix converter: a shunting-yard parse of the annotated infix
    expression, with precedence '*' (3, right-associative) over '.' (2, left)
    over '|' (1, left). */
module PostfixConverter {
  import opened Tokens

  /** The converter's working state: the operator stack (its top is the last
      element) and the output produced so far. */
  datatype Scan = Scan(stack: string, output: string)

  const Start := Scan([], [])

  function Top(stack: string): char
    requires |stack| > 0
  {
    stack[|stack| - 1]
  }

  /** Moves the top of the operator stack to the output. */
  function PopTop(st: Scan): Scan
    requires |st.stack| > 0
  {
    Scan(st.stack[..|st.stack| - 1], st.output + [Top(st.stack)])
  }

  /** An incoming operator `tok` forces `top` off the stack: a left-associative
      one when `top` binds at least as tightly, a right-associative one only
      when `top` binds strictly tighter. */
  predicate Yields(tok: char, top: char) {
    (IsLeftAssoc(tok) && Prec(tok) <= Prec(top)) || (IsRightAssoc(tok) && Prec(tok) < Prec(top))
  }

  /** The inner loop for ')': pop operators to the output until '(' or an empty stack. */
  function PopToOpen(st: Scan): Scan
    decreases |st.stack|
  {
    if |st.stack| > 0 && Top(st.stack) != '(' then PopToOpen(PopTop(st)) else st
  }

  /** The inner loop for an operator: pop while the top is not '(' and yields to `tok`. */
  function PopYielding(st: Scan, tok: char): Scan
    decreases |st.stack|
  {
    if |st.stack| > 0 && Top(st.stack) != '(' && Yields(tok, Top(st.stack)) then
      PopYielding(PopTop(st), tok)
    else st
  }

  /** One token of the scan. */
  function Step(st: Scan, tok: char): Result<Scan> {
    if tok == '(' then
      Ok(Scan(st.stack + [tok], st.output))
    else if tok == ')' then
      var r := PopToOpen(st);
      if |r.stack| == 0 then Err(MissingOpenParen)
      else Ok(Scan(r.stack[..|r.stack| - 1], r.output))
    else if IsOperator(tok) then
      var r := PopYielding(st, tok);
      Ok(Scan(r.stack + [tok], r.output))
    else
      Ok(Scan(st.stack, st.output + [tok]))
  }

  /** The scan of a whole token string, stopping at the first failure. */
  function Run(st: Scan, tokens: string): Result<Scan>
    decreases |tokens|
  {
    if tokens == [] then Ok(st)
    else match Step(st, tokens[0])
      case Err(e) => Err(e)
      case Ok(next) => Run(next, tokens[1..])
  }

  /** The final loop: pop every remaining entry to the output, failing on a parenthesis. */
  function Drain(st: Scan): Result<string>
    decreases |st.stack|
  {
    if |st.stack| == 0 then Ok(st.output)
    else if IsParen(Top(st.stack)) then Err(UnmatchedParen)
    else Drain(PopTop(st))
  }

  /** What the converter returns for an infix token string. */
  function Postfix(infix: string): Result<string> {
    match Run(Start, infix)
    case Err(e) => Err(e)
    case Ok(st) => Drain(st)
  }

  /** Two operators adjacent on the stack, neither of them '(': the upper binds
      strictly tighter, except that '*' may sit on '*'. */
  predicate OrderedPair(below: char, above: char) {
    below == '(' || above == '(' || Prec(below) < Prec(above) || (below == '*' && above == '*')
  }

  /** The precedence order of the stack, pair by adjacent pair. */
  predicate Ordered(stack: string)
    decreases |stack|
  {
    |stack| < 2 ||
    (OrderedPair(stack[|stack| - 2], stack[|stack| - 1]) && Ordered(stack[..|stack| - 1]))
  }

  /** What holds of the scan state after consuming the prefix p of the input:
      the stack holds only '(' and operators, in precedence order, one '(' per
      open group of p; the output holds no parenthesis and all of p's operands
      in order; output and stack together hold exactly p's non-parenthesis tokens. */
  ghost predicate Inv(st: Scan, p: string) {
    (forall c | c in st.stack :: c == '(' || IsOperator(c))
    && '(' !in st.output && ')' !in st.output
    && multiset(st.stack)['('] as int == Depth(p)
    && multiset(st.output) + multiset(WithoutParens(st.stack)) == multiset(WithoutParens(p))
    && Operands(st.output) == Operands(p)
    && Ordered(st.stack)
  }

  /** The shunting-yard loop over explicit stack and output sequences. */
  method ConvertPostfixExpr(infix: string) returns (r: Result<string>)
    ensures r == Postfix(infix)
    ensures r.Ok? <==> Balanced(infix)
    ensures r == Err(MissingOpenParen) <==> !DepthsOk(infix, 0)
    ensures r == Err(UnmatchedParen) <==> DepthsOk(infix, 0) && Depth(infix) > 0
    ensures r.Ok? ==> '(' !in r.value && ')' !in r.value
    ensures r.Ok? ==> multiset(r.value) == multiset(WithoutParens(infix))
    ensures r.Ok? ==> Operands(r.value) == Operands(infix)
  {
    var stack: string := [];
    var output: string := [];
    for i := 0 to |infix|
      invariant Run(Scan(stack, output), infix[i..]) == Run(Start, infix)
    {
      assert infix[i..][0] == infix[i] && infix[i..][1..] == infix[i + 1..];
      var token := infix[i];
      if token == '(' {
        stack := stack + [token];
      } else if token == ')' {
        ghost var before := Scan(stack, output);
        while |stack| > 0 && stack[|stack| - 1] != '('
          invariant PopToOpen(Scan(stack, output)) == PopToOpen(before)
          decreases |stack|
        {
          output := output + [stack[|stack| - 1]];
          stack := stack[..|stack| - 1];
        }
        if |stack| == 0 {
          PostfixCorrect(infix);
          return Err(MissingOpenParen);
        }
        stack := stack[..|stack| - 1];
      } else if IsOperator(token) {
        ghost var before := Scan(stack, output);
        while |stack| > 0 && stack[|stack| - 1] != '(' && Yields(token, stack[|stack| - 1])
          invariant PopYielding(Scan(stack, output), token) == PopYielding(before, token)
          decreases |stack|
        {
          output := output + [stack[|stack| - 1]];
          stack := stack[..|stack| - 1];
        }
        stack := stack + [token];
      } else {
        output := output + [token];
      }
    }
    while |stack| > 0
      invariant Drain(Scan(stack, output)) == Postfix(infix)
      decreases |stack|
    {
      var op := stack[|stack| - 1];
      stack := stack[..|stack| - 1];
      if op == '(' || op == ')' {
        PostfixCorrect(infix);
        return Err(UnmatchedParen);
      }
      output := output + [op];
    }
    r := Ok(output);
    PostfixCorrect(infix);
  }

  /** A token that is no parenthesis, added both to the stack and to the consumed input. */
  lemma PushKeepsTokens(output: string, stack: string, p: string, tok: char)
    requires multiset(output) + multiset(WithoutParens(stack)) == multiset(WithoutParens(p))
    requires !IsParen(tok)
    ensures multiset(output) + multiset(WithoutParens(stack + [tok])) == multiset(WithoutParens(p + [tok]))
  {
    AppendOne(stack, tok);
    AppendOne(p, tok);
    assert multiset(WithoutParens(stack + [tok])) == multiset(WithoutParens(stack)) + multiset{tok};
  }

  /** A token that is no parenthesis, moved from the top of the stack to the output. */
  lemma PopKeepsTokens(output: string, rest: string, top: char)
    requires !IsParen(top)
    ensures multiset(output + [top]) + multiset(WithoutParens(rest))
         == multiset(output) + multiset(WithoutParens(rest + [top]))
  {
    AppendOne(rest, top);
    AppendOne(output, top);
    assert multiset(WithoutParens(rest + [top])) == multiset(WithoutParens(rest)) + multiset{top};
  }

  /** Moving an operator from the stack to the output keeps the invariant. */
  lemma PopTopKeepsInv(st: Scan, p: string)
    requires Inv(st, p) && |st.stack| > 0 && Top(st.stack) != '('
    ensures Inv(PopTop(st), p)
  {
    var s := st.stack;
    var rest, top := s[..|s| - 1], Top(s);
    assert s == rest + [top];
    assert top in s;
    assert forall c | c in rest :: c in s;
    AppendOne(rest, top);
    AppendOne(st.output, top);
    PopKeepsTokens(st.output, rest, top);
  }

  /** The ')' loop keeps the invariant and stops at '(' or an empty stack,
      having moved only operators to the output. */
  lemma {:induction false} PopToOpenSpec(st: Scan, p: string)
    requires Inv(st, p)
    ensures Inv(PopToOpen(st), p)
    ensures |PopToOpen(st).stack| == 0 || Top(PopToOpen(st).stack) == '('
    decreases |st.stack|
  {
    if |st.stack| > 0 && Top(st.stack) != '(' {
      PopTopKeepsInv(st, p);
      PopToOpenSpec(PopTop(st), p);
    }
  }

  /** The operator loop keeps the invariant; what stays on top does not yield to `tok`. */
  lemma {:induction false} PopYieldingSpec(st: Scan, p: string, tok: char)
    requires Inv(st, p)
    ensures Inv(PopYielding(st, tok), p)
    ensures var s := PopYielding(st, tok).stack;
      |s| == 0 || Top(s) == '(' || !Yields(tok, Top(s))
    decreases |st.stack|
  {
    if |st.stack| > 0 && Top(st.stack) != '(' && Yields(tok, Top(st.stack)) {
      PopTopKeepsInv(st, p);
      PopYieldingSpec(PopTop(st), p, tok);
    }
  }

  /** A '(' is pushed: one more open group. */
  lemma OpenKeepsInv(st: Scan, p: string)
    requires Inv(st, p)
    ensures Inv(Scan(st.stack + ['('], st.output), p + ['('])
  {
    var s := st.stack + ['('];
    assert Ordered(s) by { assert s[..|s| - 1] == st.stack; }
    assert forall c | c in s :: c == '(' || IsOperator(c) by {
      assert forall c | c in s :: c in st.stack || c == '(';
    }
    assert multiset(s)['('] as int == Depth(p + ['(']) by {
      AppendOne(st.stack, '(');
      AppendOne(p, '(');
    }
    assert WithoutParens(s) == WithoutParens(st.stack) && WithoutParens(p + ['(']) == WithoutParens(p) by {
      AppendOne(st.stack, '(');
      AppendOne(p, '(');
    }
    assert Operands(p + ['(']) == Operands(p) by { AppendOne(p, '('); }
  }

  /** Discarding the '(' on top of the stack closes one group ... */
  lemma DiscardOpenKeepsDepth(r: Scan, p: string)
    requires Inv(r, p) && |r.stack| > 0 && Top(r.stack) == '('
    ensures multiset(r.stack[..|r.stack| - 1])['('] as int == Depth(p + [')'])
  {
    var rest := r.stack[..|r.stack| - 1];
    assert r.stack == rest + ['('];
    assert multiset(r.stack) == multiset(rest) + multiset{'('};
    assert multiset(p + [')']) == multiset(p) + multiset{')'};
  }

  /** ... and leaves the non-parenthesis tokens where they were. */
  lemma DiscardOpenKeepsTokens(r: Scan, p: string)
    requires Inv(r, p) && |r.stack| > 0 && Top(r.stack) == '('
    ensures multiset(r.output) + multiset(WithoutParens(r.stack[..|r.stack| - 1]))
         == multiset(WithoutParens(p + [')']))
    ensures Operands(r.output) == Operands(p + [')'])
  {
    var rest := r.stack[..|r.stack| - 1];
    assert r.stack == rest + ['('];
    assert WithoutParens(r.stack) == WithoutParens(rest) by { AppendOne(rest, '('); }
    assert WithoutParens(p + [')']) == WithoutParens(p) by { AppendOne(p, ')'); }
    assert Operands(p + [')']) == Operands(p) by { AppendOne(p, ')'); }
  }

  lemma DiscardOpenKeepsInv(r: Scan, p: string)
    requires Inv(r, p) && |r.stack| > 0 && Top(r.stack) == '('
    ensures Inv(Scan(r.stack[..|r.stack| - 1], r.output), p + [')'])
  {
    var rest := r.stack[..|r.stack| - 1];
    assert forall c | c in rest :: c in r.stack;
    DiscardOpenKeepsDepth(r, p);
    DiscardOpenKeepsTokens(r, p);
  }

  /** A ')' pops operators down to its '(' and discards it; with no '(' on
      the stack it fails, which happens exactly when p has no open group. */
  lemma CloseKeepsInv(st: Scan, p: string)
    requires Inv(st, p)
    ensures Step(st, ')').Ok? <==> Depth(p) > 0
    ensures Step(st, ')').Ok? ==> Inv(Step(st, ')').value, p + [')'])
  {
    PopToOpenSpec(st, p);
    var r := PopToOpen(st);
    if |r.stack| > 0 {
      DiscardOpenKeepsInv(r, p);
      assert '(' in r.stack;
    } else {
      assert multiset(r.stack)['('] == 0;
    }
  }

  /** Pushing an operator onto a stack whose top does not yield to it keeps
      the precedence order. */
  lemma PushKeepsOrdered(stack: string, tok: char)
    requires Ordered(stack) && IsOperator(tok)
    requires forall c | c in stack :: c == '(' || IsOperator(c)
    requires |stack| == 0 || Top(stack) == '(' || !Yields(tok, Top(stack))
    ensures Ordered(stack + [tok])
  {
    var s := stack + [tok];
    assert s[..|s| - 1] == stack;
    if |stack| > 0 {
      assert Top(stack) in stack;
      assert s[|s| - 2] == Top(stack);
    }
  }

  /** An operator pops what yields to it, then is pushed. */
  lemma PushOperatorKeepsInv(r: Scan, p: string, tok: char)
    requires Inv(r, p) && IsOperator(tok)
    requires |r.stack| == 0 || Top(r.stack) == '(' || !Yields(tok, Top(r.stack))
    ensures Inv(Scan(r.stack + [tok], r.output), p + [tok])
  {
    var s := r.stack + [tok];
    assert Ordered(s) by { PushKeepsOrdered(r.stack, tok); }
    assert forall c | c in s :: c == '(' || IsOperator(c) by {
      assert forall c | c in s :: c in r.stack || c == tok;
    }
    assert multiset(s)['('] as int == Depth(p + [tok]) by {
      AppendOne(r.stack, tok);
      AppendOne(p, tok);
    }
    assert multiset(r.output) + multiset(WithoutParens(s)) == multiset(WithoutParens(p + [tok])) by {
      PushKeepsTokens(r.output, r.stack, p, tok);
    }
    assert Operands(r.output) == Operands(p + [tok]) by { AppendOne(p, tok); }
  }

  lemma OperatorKeepsInv(st: Scan, p: string, tok: char)
    requires Inv(st, p) && IsOperator(tok)
    ensures Inv(Step(st, tok).value, p + [tok])
  {
    PopYieldingSpec(st, p, tok);
    PushOperatorKeepsInv(PopYielding(st, tok), p, tok);
  }

  /** An operand goes straight to the output. */
  lemma OperandKeepsInv(st: Scan, p: string, tok: char)
    requires Inv(st, p) && IsOperand(tok)
    ensures Inv(Scan(st.stack, st.output + [tok]), p + [tok])
  {
    assert multiset(st.output + [tok]) == multiset(st.output) + multiset{tok};
    assert multiset(p + [tok]) == multiset(p) + multiset{tok};
    assert WithoutParens([tok]) == [tok] by { assert [tok][1..] == []; }
    assert Operands([tok]) == [tok] by { assert [tok][1..] == []; }
    WithoutParensAppend(p, [tok]);
    OperandsAppend(p, [tok]);
    OperandsAppend(st.output, [tok]);
  }

  /** One step keeps the invariant, and fails exactly when the token is a ')'
      that closes more groups than p has open. */
  lemma StepKeepsInv(st: Scan, p: string, tok: char)
    requires Inv(st, p)
    ensures Step(st, tok).Ok? <==> Depth(p) + Delta(tok) >= 0
    ensures Step(st, tok).Ok? ==> Inv(Step(st, tok).value, p + [tok])
  {
    if tok == '(' {
      OpenKeepsInv(st, p);
    } else if tok == ')' {
      CloseKeepsInv(st, p);
    } else if IsOperator(tok) {
      OperatorKeepsInv(st, p, tok);
    } else {
      OperandKeepsInv(st, p, tok);
    }
  }

  /** The scan of s from a state satisfying the invariant for p fails, only
      with MissingOpenParen, exactly when some prefix of s closes more groups
      than are open. */
  lemma {:induction false} RunFails(st: Scan, p: string, s: string)
    requires Inv(st, p)
    ensures Run(st, s).Err? ==> Run(st, s) == Err(MissingOpenParen)
    ensures Run(st, s).Ok? <==> DepthsOk(s, Depth(p))
    decreases |s|
  {
    if s != [] {
      var tok := s[0];
      var d := Depth(p) + Delta(tok);
      assert Step(st, tok).Ok? <==> d >= 0 by { StepKeepsInv(st, p, tok); }
      assert DepthsOk(s, Depth(p)) == (d >= 0 && DepthsOk(s[1..], d));
      match Step(st, tok)
      case Err(e) =>
        assert Run(st, s) == Err(e);
      case Ok(next) =>
        assert Inv(next, p + [tok]) by { StepKeepsInv(st, p, tok); }
        assert Depth(p + [tok]) == d by { AppendOne(p, tok); }
        RunFails(next, p + [tok], s[1..]);
        assert Run(st, s) == Run(next, s[1..]);
    }
  }

  /** A successful scan of s from a state satisfying the invariant for p ends
      in a state satisfying the invariant for p + s. */
  lemma {:induction false} RunKeepsInv(st: Scan, p: string, s: string)
    requires Inv(st, p)
    ensures Run(st, s).Ok? ==> Inv(Run(st, s).value, p + s)
    decreases |s|
  {
    if s == [] {
      assert p + s == p;
    } else {
      var tok := s[0];
      match Step(st, tok)
      case Err(e) =>
        assert Run(st, s) == Err(e);
      case Ok(next) =>
        assert Inv(next, p + [tok]) by { StepKeepsInv(st, p, tok); }
        RunKeepsInv(next, p + [tok], s[1..]);
        assert p + [tok] + s[1..] == p + s;
        assert Run(st, s) == Run(next, s[1..]);
    }
  }

  /** Draining a stack that satisfies the invariant fails exactly when a group
      is left open, and otherwise yields an output with the invariant's
      properties for an empty stack. */
  lemma {:induction false} DrainSpec(st: Scan, p: string)
    requires Inv(st, p)
    ensures Drain(st).Ok? <==> Depth(p) == 0
    ensures Drain(st).Err? ==> Drain(st) == Err(UnmatchedParen)
    ensures Drain(st).Ok? ==> Inv(Scan([], Drain(st).value), p)
    decreases |st.stack|
  {
    var s := st.stack;
    if |s| > 0 {
      if Top(s) == '(' {
        assert '(' in s;
      } else {
        assert Top(s) != ')' by { assert Top(s) in s; }
        PopTopKeepsInv(st, p);
        DrainSpec(PopTop(st), p);
      }
    } else {
      assert multiset(s)['('] == 0;
    }
  }

  /** What the converter promises: it fails with MissingOpenParen exactly when
      a ')' has no open group, with UnmatchedParen exactly when groups are left
      open, and succeeds exactly on balanced input; the postfix string then
      holds no parenthesis, is a permutation of the input's non-parenthesis
      tokens, and keeps the operands in their input order. */
  lemma PostfixCorrect(infix: string)
    ensures Postfix(infix).Ok? <==> Balanced(infix)
    ensures Postfix(infix) == Err(MissingOpenParen) <==> !DepthsOk(infix, 0)
    ensures Postfix(infix) == Err(UnmatchedParen) <==> DepthsOk(infix, 0) && Depth(infix) > 0
    ensures Postfix(infix).Ok? ==> '(' !in Postfix(infix).value && ')' !in Postfix(infix).value
    ensures Postfix(infix).Ok? ==> multiset(Postfix(infix).value) == multiset(WithoutParens(infix))
    ensures Postfix(infix).Ok? ==> Operands(Postfix(infix).value) == Operands(infix)
  {
    assert Inv(Start, []);
    RunFails(Start, [], infix);
    RunKeepsInv(Start, [], infix);
    assert [] + infix == infix;
    if Run(Start, infix).Ok? {
      var st := Run(Start, infix).value;
      DrainSpec(st, infix);
      assert multiset(st.stack)['('] as int == Depth(infix);
      if Drain(st).Ok? {
        assert WithoutParens([]) == [];
      }
    }
  }

  /** Every state the scan passes through keeps the stack to '(' and operators,
      in precedence order, and the output free of parentheses. */
  lemma ScanStateShape(prefix: string)
    ensures Run(Start, prefix).Ok? ==>
      var st := Run(Start, prefix).value;
      (forall c | c in st.stack :: c == '(' || IsOperator(c))
      && Ordered(st.stack)
      && '(' !in st.output && ')' !in st.output
  {
    assert Inv(Start, []);
    RunKeepsInv(Start, [], prefix);
    assert [] + prefix == prefix;
  }

  /** s read from its last element to its first: the order in which popping moves a stack segment to the output. */
  function Reversed(s: string): (r: string)
    ensures |r| == |s|
    decreases |s|
  {
    if s == [] then [] else [s[|s| - 1]] + Reversed(s[..|s| - 1])
  }

  /** Popping the top entry, then the segment above index k, moves the same
      entries to the output as popping the whole segment above k at once. */
  lemma PopTopSegment(st: Scan, k: nat)
    requires k < |st.stack|
    ensures PopTop(st).stack[..k] == st.stack[..k]
    ensures PopTop(st).output + Reversed(PopTop(st).stack[k..]) == st.output + Reversed(st.stack[k..])
  {
    var s := st.stack;
    var next := PopTop(st);
    assert s[k..][..|s[k..]| - 1] == next.stack[k..];
    assert Reversed(s[k..]) == [Top(s)] + Reversed(next.stack[k..]);
  }

  /** The operator loop pops a top segment of the stack, top first, onto the output. */
  lemma {:induction false} PopYieldingPops(st: Scan, tok: char)
    ensures var r := PopYielding(st, tok);
      |r.stack| <= |st.stack| && r.stack == st.stack[..|r.stack|]
      && r.output == st.output + Reversed(st.stack[|r.stack|..])
    decreases |st.stack|
  {
    var s := st.stack;
    if |s| > 0 && Top(s) != '(' && Yields(tok, Top(s)) {
      var next := PopTop(st);
      var r := PopYielding(st, tok);
      assert r == PopYielding(next, tok);
      PopYieldingPops(next, tok);
      var k := |r.stack|;
      PopTopSegment(st, k);
    } else {
      assert s[|s|..] == [];
    }
  }

  /** Every entry the operator loop pops is an operator that yields to `tok`,
      and the entry left on top (if any) is '(' or does not yield. */
  lemma {:induction false} PopYieldingStops(st: Scan, tok: char)
    ensures var r := PopYielding(st, tok);
      (forall i | |r.stack| <= i < |st.stack| :: st.stack[i] != '(' && Yields(tok, st.stack[i]))
      && (|r.stack| == 0 || Top(r.stack) == '(' || !Yields(tok, Top(r.stack)))
    decreases |st.stack|
  {
    var s := st.stack;
    if |s| > 0 && Top(s) != '(' && Yields(tok, Top(s)) {
      var next := PopTop(st);
      var r := PopYielding(st, tok);
      assert r == PopYielding(next, tok);
      PopYieldingStops(next, tok);
      PopYieldingPops(next, tok);
      var k := |r.stack|;
      forall i | k <= i < |s|
        ensures s[i] != '(' && Yields(tok, s[i])
      {
        if i < |s| - 1 {
          assert s[i] == next.stack[i];
        }
      }
    }
  }

  /** The ')' loop pops every entry above the topmost '(' (or the whole stack,
      when there is none), top first, onto the output. */
  lemma {:induction false} PopToOpenPops(st: Scan)
    ensures var r := PopToOpen(st);
      |r.stack| <= |st.stack| && r.stack == st.stack[..|r.stack|]
      && r.output == st.output + Reversed(st.stack[|r.stack|..])
    decreases |st.stack|
  {
    var s := st.stack;
    if |s| > 0 && Top(s) != '(' {
      var next := PopTop(st);
      var r := PopToOpen(st);
      assert r == PopToOpen(next);
      PopToOpenPops(next);
      var k := |r.stack|;
      PopTopSegment(st, k);
    } else {
      assert s[|s|..] == [];
    }
  }

  /** No popped entry is '(', and the loop stops at '(' or at an empty stack. */
  lemma {:induction false} PopToOpenStops(st: Scan)
    ensures var r := PopToOpen(st);
      (forall i | |r.stack| <= i < |st.stack| :: st.stack[i] != '(')
      && (|r.stack| == 0 || Top(r.stack) == '(')
    decreases |st.stack|
  {
    var s := st.stack;
    if |s| > 0 && Top(s) != '(' {
      var next := PopTop(st);
      var r := PopToOpen(st);
      assert r == PopToOpen(next);
      PopToOpenStops(next);
      PopToOpenPops(next);
      var k := |r.stack|;
      forall i | k <= i < |s|
        ensures s[i] != '('
      {
        if i < |s| - 1 {
          assert s[i] == next.stack[i];
        }
      }
    }
  }

  /** A right-associative '*' never pops anything: nothing binds tighter. */
  lemma StarPopsNothing(st: Scan)
    ensures PopYielding(st, '*') == st
  {
  }

  /** Scanning a + b is scanning a, then b from where a left off. */
  lemma {:induction false} RunSplits(st: Scan, a: string, b: string)
    ensures Run(st, a + b) == match Run(st, a) { case Err(e) => Err(e) case Ok(mid) => Run(mid, b) }
    decreases |a|
  {
    if a == [] {
      assert a + b == b;
    } else {
      assert (a + b)[0] == a[0] && (a + b)[1..] == a[1..] + b;
      if Step(st, a[0]).Ok? {
        RunSplits(Step(st, a[0]).value, a[1..], b);
      }
    }
  }
}
