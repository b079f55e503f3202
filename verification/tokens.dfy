/** The token alphabet of the regular-expression front end, its failure
    outcomes, and the measures of a token string (parenthesis depth, the
    operand subsequence, the non-parenthesis part) that the two string
    transformations are specified against. */
module Tokens {

  /** Why a conversion is abandoned. The source raises an exception in each
      case; here the caller receives one of these instead. */
  datatype ConvertError =
    | EmptyRegex        // indexing the last character of an empty regex
    | MissingOpenParen  // a ')' found no '(' on the operator stack
    | UnmatchedParen    // a '(' was still on the operator stack at the end

  datatype Result<T> = Ok(value: T) | Err(error: ConvertError)

  /** The keys of the precedence table: star, explicit concatenation, alternation. */
  predicate IsOperator(c: char) {
    c == '*' || c == '.' || c == '|'
  }

  predicate IsParen(c: char) {
    c == '(' || c == ')'
  }

  /** Everything that is neither an operator nor a parenthesis is a literal operand. */
  predicate IsOperand(c: char) {
    !IsOperator(c) && !IsParen(c)
  }

  /** Binding strength, with 0 for anything outside the table (as a lookup with default 0). */
  function Prec(c: char): (p: nat)
    ensures p > 0 <==> IsOperator(c)
  {
    if c == '*' then 3 else if c == '.' then 2 else if c == '|' then 1 else 0
  }

  predicate IsLeftAssoc(c: char) {
    c == '.' || c == '|'
  }

  predicate IsRightAssoc(c: char) {
    c == '*'
  }

  /** Change in open-parenthesis depth caused by one token. */
  function Delta(c: char): int {
    if c == '(' then 1 else if c == ')' then -1 else 0
  }

  /** Number of '(' minus number of ')' in s. */
  function Depth(s: string): int {
    multiset(s)['('] as int - multiset(s)[')'] as int
  }

  /** Starting from depth d, no prefix of s closes more groups than are open. */
  predicate DepthsOk(s: string, d: int)
    decreases |s|
  {
    s == [] || (d + Delta(s[0]) >= 0 && DepthsOk(s[1..], d + Delta(s[0])))
  }

  /** Every ')' closes an earlier '(' and every '(' is closed. */
  predicate Balanced(s: string) {
    DepthsOk(s, 0) && Depth(s) == 0
  }

  /** The literal operands of s, in order. */
  function Operands(s: string): string
    decreases |s|
  {
    if s == [] then []
    else (if IsOperand(s[0]) then [s[0]] else []) + Operands(s[1..])
  }

  /** s with every '(' and ')' removed. */
  function WithoutParens(s: string): string
    decreases |s|
  {
    if s == [] then []
    else (if IsParen(s[0]) then [] else [s[0]]) + WithoutParens(s[1..])
  }

  lemma {:induction false} OperandsAppend(a: string, b: string)
    ensures Operands(a + b) == Operands(a) + Operands(b)
    decreases |a|
  {
    if a != [] {
      assert (a + b)[0] == a[0] && (a + b)[1..] == a[1..] + b;
      OperandsAppend(a[1..], b);
    } else {
      assert a + b == b;
    }
  }

  lemma {:induction false} WithoutParensAppend(a: string, b: string)
    ensures WithoutParens(a + b) == WithoutParens(a) + WithoutParens(b)
    decreases |a|
  {
    if a != [] {
      assert (a + b)[0] == a[0] && (a + b)[1..] == a[1..] + b;
      WithoutParensAppend(a[1..], b);
    } else {
      assert a + b == b;
    }
  }

  /** Appending one token changes each measure by that token alone. */
  lemma AppendOne(s: string, c: char)
    ensures multiset(s + [c]) == multiset(s) + multiset{c}
    ensures multiset(s + [c])['('] == multiset(s)['('] + (if c == '(' then 1 else 0)
    ensures Depth(s + [c]) == Depth(s) + Delta(c)
    ensures WithoutParens(s + [c]) == WithoutParens(s) + (if IsParen(c) then [] else [c])
    ensures Operands(s + [c]) == Operands(s) + (if IsOperand(c) then [c] else [])
  {
    assert WithoutParens([c]) == (if IsParen(c) then [] else [c]) by { assert [c][1..] == []; }
    assert Operands([c]) == (if IsOperand(c) then [c] else []) by { assert [c][1..] == []; }
    WithoutParensAppend(s, [c]);
    OperandsAppend(s, [c]);
    var m := multiset(s + [c]);
    assert m == multiset(s) + multiset{c};
    assert m['('] == multiset(s)['('] + multiset{c}['('];
    assert m[')'] == multiset(s)[')'] + multiset{c}[')'];
  }
}
