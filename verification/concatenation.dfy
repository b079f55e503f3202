/** The concatenation inserter: makes every implicit concatenation of a
    regular expression explicit with the marker '.'. */
module Concatenation {
  import opened Tokens

  /** A '.' is written after `cur` when `cur` can end an operand (it is not
      '(' or '|') and `next` can begin one (it is not ')', '|' or '*'). */
  predicate NeedsDot(cur: char, next: char) {
    cur != '(' && cur != '|' && next != ')' && next != '|' && next != '*'
  }

  /** The annotated expression: s with one '.' after each position i < |s| - 1
      for which NeedsDot(s[i], s[i + 1]); the last character is copied as is. */
  function WithDots(s: string): string
    requires |s| >= 1
    decreases |s|
  {
    if |s| == 1 then s
    else (if NeedsDot(s[0], s[1]) then [s[0], '.'] else [s[0]]) + WithDots(s[1..])
  }

  /** Number of dots inserted before s[i]: the positions j < i with NeedsDot(s[j], s[j + 1]). */
  function DotsBefore(s: string, i: nat): nat
    requires i < |s|
  {
    if i == 0 then 0
    else DotsBefore(s, i - 1) + (if NeedsDot(s[i - 1], s[i]) then 1 else 0)
  }

  /** Removes exactly the dots that WithDots inserts. A '.' right after t[0]
      was inserted iff NeedsDot(t[0], t[2]); a '.' of the input itself never
      satisfies this, since NeedsDot(c, '.') fails only for c in {'(', '|'}. */
  function Stripped(t: string): string
    decreases |t|
  {
    if |t| <= 1 then t
    else if |t| >= 3 && t[1] == '.' && NeedsDot(t[0], t[2]) then [t[0]] + Stripped(t[2..])
    else [t[0]] + Stripped(t[1..])
  }

  /** Scans adjacent pairs and builds the annotated string left to right. */
  method AddConcatenationOperator(regex: string) returns (result: string)
    requires |regex| >= 1
    ensures result == WithDots(regex)
    ensures |result| == |regex| + DotsBefore(regex, |regex| - 1)
    ensures Stripped(result) == regex
  {
    result := "";
    for i := 0 to |regex| - 1
      invariant result + WithDots(regex[i..]) == WithDots(regex)
    {
      ghost var rest := regex[i..];
      assert rest[0] == regex[i] && rest[1] == regex[i + 1] && rest[1..] == regex[i + 1..];
      if regex[i] != '(' && regex[i] != '|' && regex[i + 1] != ')' && regex[i + 1] != '|' && regex[i + 1] != '*' {
        assert WithDots(rest) == [regex[i], '.'] + WithDots(regex[i + 1..]);
        result := result + [regex[i]] + ".";
      } else {
        assert WithDots(rest) == [regex[i]] + WithDots(regex[i + 1..]);
        result := result + [regex[i]];
      }
    }
    assert regex[|regex| - 1..] == [regex[|regex| - 1]];
    result := result + [regex[|regex| - 1]];
    WithDotsLength(regex);
    StrippedWithDots(regex);
  }

  lemma {:induction false} DotsBeforeTail(s: string, i: nat)
    requires 1 <= i < |s|
    ensures DotsBefore(s, i) == (if NeedsDot(s[0], s[1]) then 1 else 0) + DotsBefore(s[1..], i - 1)
  {
    if i > 1 {
      DotsBeforeTail(s, i - 1);
    }
  }

  /** The annotated string has one extra character per inserted dot. */
  lemma {:induction false} WithDotsLength(s: string)
    requires |s| >= 1
    ensures |WithDots(s)| == |s| + DotsBefore(s, |s| - 1)
    decreases |s|
  {
    if |s| > 1 {
      WithDotsLength(s[1..]);
      DotsBeforeTail(s, |s| - 1);
    }
  }

  /** The first and the last characters are copied unchanged. */
  lemma {:induction false} WithDotsEnds(s: string)
    requires |s| >= 1
    ensures |WithDots(s)| >= |s|
    ensures WithDots(s)[0] == s[0]
    ensures WithDots(s)[|WithDots(s)| - 1] == s[|s| - 1]
    decreases |s|
  {
    if |s| > 1 {
      WithDotsEnds(s[1..]);
    }
  }

  /** Character-level characterisation: s[i] lands at index i + DotsBefore(s, i)
      of the annotated string, and is followed by a '.' there exactly when
      NeedsDot(s[i], s[i + 1]); otherwise s[i + 1] follows it directly. */
  lemma {:induction false} WithDotsAt(s: string, i: nat)
    requires i < |s|
    ensures i + DotsBefore(s, i) < |WithDots(s)|
    ensures WithDots(s)[i + DotsBefore(s, i)] == s[i]
    ensures i + 1 < |s| ==> i + DotsBefore(s, i) + 1 < |WithDots(s)|
    ensures i + 1 < |s| && NeedsDot(s[i], s[i + 1]) ==> WithDots(s)[i + DotsBefore(s, i) + 1] == '.'
    ensures i + 1 < |s| && !NeedsDot(s[i], s[i + 1]) ==> WithDots(s)[i + DotsBefore(s, i) + 1] == s[i + 1]
    decreases |s|
  {
    if i == 0 {
      if |s| > 1 {
        WithDotsEnds(s[1..]);
      }
    } else {
      DotsBeforeTail(s, i);
      WithDotsAt(s[1..], i - 1);
    }
  }

  /** Round trip: removing the inserted dots gives back the input. */
  lemma {:induction false} StrippedWithDots(s: string)
    requires |s| >= 1
    ensures Stripped(WithDots(s)) == s
    decreases |s|
  {
    if |s| > 1 {
      var w := WithDots(s[1..]);
      WithDotsEnds(s[1..]);
      StrippedWithDots(s[1..]);
      if NeedsDot(s[0], s[1]) {
        assert WithDots(s)[2..] == w;
      } else {
        assert WithDots(s)[1..] == w;
      }
    }
  }

  /** Annotation is compositional: annotating a + b annotates a and b apart,
      with a '.' at the seam exactly when the pair across it needs one. */
  lemma {:induction false} WithDotsAppend(a: string, b: string)
    requires |a| >= 1 && |b| >= 1
    ensures WithDots(a + b) == WithDots(a) + (if NeedsDot(a[|a| - 1], b[0]) then "." else "") + WithDots(b)
    decreases |a|
  {
    var ab := a + b;
    var seam: string := if NeedsDot(a[|a| - 1], b[0]) then "." else "";
    if |a| == 1 {
      assert ab[0] == a[0] && ab[1] == b[0] && ab[1..] == b;
      assert WithDots(ab) == [a[0]] + seam + WithDots(b);
      assert WithDots(a) == [a[0]];
    } else {
      var piece := if NeedsDot(a[0], a[1]) then [a[0], '.'] else [a[0]];
      assert ab[0] == a[0] && ab[1] == a[1] && ab[1..] == a[1..] + b;
      assert a[1..][|a[1..]| - 1] == a[|a| - 1];
      assert WithDots(ab) == piece + WithDots(a[1..] + b);
      WithDotsAppend(a[1..], b);
      assert WithDots(a) == piece + WithDots(a[1..]);
      assert piece + (WithDots(a[1..]) + seam + WithDots(b)) == (piece + WithDots(a[1..])) + seam + WithDots(b);
    }
  }

  /** Only '.' is ever inserted: every other character occurs as often as in the input. */
  lemma {:induction false} WithDotsCounts(s: string)
    requires |s| >= 1
    ensures forall c | c != '.' :: multiset(WithDots(s))[c] == multiset(s)[c]
    decreases |s|
  {
    if |s| > 1 {
      WithDotsCounts(s[1..]);
      assert s == [s[0]] + s[1..];
    }
  }

  /** The inserted dots leave the parenthesis count as it was. */
  lemma WithDotsKeepsDepth(s: string)
    requires |s| >= 1
    ensures Depth(WithDots(s)) == Depth(s)
  {
    WithDotsCounts(s);
  }

  /** ... and every prefix of the annotated string closes no more groups than
      the corresponding prefix of the input. */
  lemma {:induction false} WithDotsKeepsDepthsOk(s: string, d: int)
    requires |s| >= 1
    ensures DepthsOk(WithDots(s), d) == DepthsOk(s, d)
    decreases |s|
  {
    if |s| > 1 {
      var d' := d + Delta(s[0]);
      WithDotsKeepsDepthsOk(s[1..], d');
      var t := WithDots(s);
      if NeedsDot(s[0], s[1]) {
        assert t[1..][0] == '.' && t[1..][1..] == WithDots(s[1..]);
      } else {
        assert t[1..] == WithDots(s[1..]);
      }
    }
  }

  /** The operands survive annotation unchanged and in order: only '.' is inserted. */
  lemma {:induction false} WithDotsKeepsOperands(s: string)
    requires |s| >= 1
    ensures Operands(WithDots(s)) == Operands(s)
    decreases |s|
  {
    if |s| > 1 {
      WithDotsKeepsOperands(s[1..]);
      var piece := if NeedsDot(s[0], s[1]) then [s[0], '.'] else [s[0]];
      OperandsAppend(piece, WithDots(s[1..]));
      assert Operands(piece) == Operands([s[0]]) by {
        if NeedsDot(s[0], s[1]) {
          OperandsAppend([s[0]], ['.']);
          assert Operands(['.']) == [] by { assert ['.'][1..] == []; }
          assert piece == [s[0]] + ['.'];
        }
      }
      assert s == [s[0]] + s[1..];
      OperandsAppend([s[0]], s[1..]);
    }
  }
}
