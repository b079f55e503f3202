/** Worked inputs for both transformations: the sample expressions the
    source's self-test feeds through them and the expression its entry point
    converts. Each postfix result is derived token by token through the scan. */
module Examples {
  import opened Tokens
  import opened Concatenation
  import opened PostfixConverter

  /** The inserter's outputs on the sample inputs of the source's self-test,
      and on an input that already holds '.', which is not left alone. */
  lemma InserterExamples()
    ensures WithDots("ab") == "a.b"
    ensures WithDots("a*b") == "a*.b"
    ensures WithDots("a.b") == "a...b"
  {
  }

  lemma InserterGroupExample()
    ensures WithDots("a(b|c)") == "a.(b|c)"
  {
    assert WithDots(")") == ")";
    assert WithDots("c)") == "c)" by { assert "c)"[1..] == ")"; }
    assert WithDots("|c)") == "|c)" by { assert "|c)"[1..] == "c)"; }
    assert WithDots("b|c)") == "b|c)" by { assert "b|c)"[1..] == "|c)"; }
    assert WithDots("(b|c)") == "(b|c)" by { assert "(b|c)"[1..] == "b|c)"; }
    assert "a(b|c)"[1..] == "(b|c)";
  }

  lemma InserterStarGroupExample()
    ensures WithDots("(a|b)*abb") == "(a|b)*.a.b.b"
  {
    assert "(a|b)*abb" == "(a|b)*" + "abb";
    WithDotsAppend("(a|b)*", "abb");
    InserterStarGroupHead();
    InserterStarGroupTail();
    assert "(a|b)*" + "." + "a.b.b" == "(a|b)*.a.b.b";
  }

  /** The half before the seam: no pair inside the group or at the star needs a '.'. */
  lemma InserterStarGroupHead()
    ensures WithDots("(a|b)*") == "(a|b)*"
  {
    assert WithDots(")*") == ")*" by { assert ")*"[1..] == "*"; }
    assert WithDots("b)*") == "b)*" by { assert "b)*"[1..] == ")*"; }
    assert WithDots("|b)*") == "|b)*" by { assert "|b)*"[1..] == "b)*"; }
    assert WithDots("a|b)*") == "a|b)*" by { assert "a|b)*"[1..] == "|b)*"; }
    assert "(a|b)*"[1..] == "a|b)*";
  }

  /** The half after the seam: every adjacent pair of operands needs a '.'. */
  lemma InserterStarGroupTail()
    ensures WithDots("abb") == "a.b.b"
  {
    assert WithDots("bb") == "b.b" by { assert "bb"[1..] == "b"; }
    assert "abb"[1..] == "bb";
  }

  lemma InserterNestedExample()
    ensures WithDots("a(b)c") == "a.(b).c"
  {
    assert WithDots("c") == "c";
    assert WithDots(")c") == ").c" by { assert ")c"[1..] == "c"; }
    assert WithDots("b)c") == "b).c" by { assert "b)c"[1..] == ")c"; }
    assert WithDots("(b)c") == "(b).c" by { assert "(b)c"[1..] == "b)c"; }
    assert "a(b)c"[1..] == "(b)c";
  }

  lemma InserterAlternationExample()
    ensures WithDots("aa*|bb*") == "a.a*|b.b*"
  {
    assert WithDots("*") == "*";
    assert WithDots("b*") == "b*" by { assert "b*"[1..] == "*"; }
    assert WithDots("bb*") == "b.b*" by { assert "bb*"[1..] == "b*"; }
    assert WithDots("|bb*") == "|b.b*" by { assert "|bb*"[1..] == "bb*"; }
    assert WithDots("*|bb*") == "*|b.b*" by { assert "*|bb*"[1..] == "|bb*"; }
    assert WithDots("a*|bb*") == "a*|b.b*" by { assert "a*|bb*"[1..] == "*|bb*"; }
    assert "aa*|bb*"[1..] == "a*|bb*";
  }

  /** Explicit concatenation of two operands. */
  lemma ConcatenationExample()
    ensures Postfix("a.b") == Ok("ab.")
  {
    assert Start == Scan("", "");
    ConcatenationExampleToken1();
    ConcatenationExampleToken2();
    ConcatenationExampleToken3();
    ConcatenationExampleDrain();
  }

  lemma ConcatenationExampleToken1()
    ensures Run(Scan("", ""), "a.b") == Run(Scan("", "a"), ".b")
  {
    assert "a.b"[0] == 'a' && "a.b"[1..] == ".b";
    assert "" + ['a'] == "a";
    assert Step(Scan("", ""), 'a') == Ok(Scan("", "a"));
  }

  lemma ConcatenationExampleToken2()
    ensures Run(Scan("", "a"), ".b") == Run(Scan(".", "a"), "b")
  {
    assert ".b"[0] == '.' && ".b"[1..] == "b";
    assert PopYielding(Scan("", "a"), '.') == Scan("", "a");
    assert "" + ['.'] == ".";
    assert Step(Scan("", "a"), '.') == Ok(Scan(".", "a"));
  }

  lemma ConcatenationExampleToken3()
    ensures Run(Scan(".", "a"), "b") == Run(Scan(".", "ab"), "")
  {
    assert "b"[0] == 'b' && "b"[1..] == "";
    assert "a" + ['b'] == "ab";
    assert Step(Scan(".", "a"), 'b') == Ok(Scan(".", "ab"));
  }

  lemma ConcatenationExampleDrain()
    ensures Drain(Scan(".", "ab")) == Ok("ab.")
  {
    assert Drain(Scan(".", "ab")) == Drain(Scan("", "ab.")) by { assert "."[..0] == "" && "ab" + ['.'] == "ab."; }
  }

  /** A parenthesised alternation inside a concatenation. */
  lemma GroupingExample()
    ensures Postfix("a.(b|c)") == Ok("abc|.")
  {
    assert Start == Scan("", "");
    GroupingExampleToken1();
    GroupingExampleToken2();
    GroupingExampleToken3();
    GroupingExampleToken4();
    GroupingExampleToken5();
    GroupingExampleToken6();
    GroupingExampleToken7();
    GroupingExampleDrain();
  }

  lemma GroupingExampleToken1()
    ensures Run(Scan("", ""), "a.(b|c)") == Run(Scan("", "a"), ".(b|c)")
  {
    assert "a.(b|c)"[0] == 'a' && "a.(b|c)"[1..] == ".(b|c)";
    assert "" + ['a'] == "a";
    assert Step(Scan("", ""), 'a') == Ok(Scan("", "a"));
  }

  lemma GroupingExampleToken2()
    ensures Run(Scan("", "a"), ".(b|c)") == Run(Scan(".", "a"), "(b|c)")
  {
    assert ".(b|c)"[0] == '.' && ".(b|c)"[1..] == "(b|c)";
    assert PopYielding(Scan("", "a"), '.') == Scan("", "a");
    assert "" + ['.'] == ".";
    assert Step(Scan("", "a"), '.') == Ok(Scan(".", "a"));
  }

  lemma GroupingExampleToken3()
    ensures Run(Scan(".", "a"), "(b|c)") == Run(Scan(".(", "a"), "b|c)")
  {
    assert "(b|c)"[0] == '(' && "(b|c)"[1..] == "b|c)";
    assert "." + ['('] == ".(";
    assert Step(Scan(".", "a"), '(') == Ok(Scan(".(", "a"));
  }

  lemma GroupingExampleToken4()
    ensures Run(Scan(".(", "a"), "b|c)") == Run(Scan(".(", "ab"), "|c)")
  {
    assert "b|c)"[0] == 'b' && "b|c)"[1..] == "|c)";
    assert "a" + ['b'] == "ab";
    assert Step(Scan(".(", "a"), 'b') == Ok(Scan(".(", "ab"));
  }

  lemma GroupingExampleToken5()
    ensures Run(Scan(".(", "ab"), "|c)") == Run(Scan(".(|", "ab"), "c)")
  {
    assert "|c)"[0] == '|' && "|c)"[1..] == "c)";
    assert PopYielding(Scan(".(", "ab"), '|') == Scan(".(", "ab");
    assert ".(" + ['|'] == ".(|";
    assert Step(Scan(".(", "ab"), '|') == Ok(Scan(".(|", "ab"));
  }

  lemma GroupingExampleToken6()
    ensures Run(Scan(".(|", "ab"), "c)") == Run(Scan(".(|", "abc"), ")")
  {
    assert "c)"[0] == 'c' && "c)"[1..] == ")";
    assert "ab" + ['c'] == "abc";
    assert Step(Scan(".(|", "ab"), 'c') == Ok(Scan(".(|", "abc"));
  }

  lemma GroupingExampleToken7()
    ensures Run(Scan(".(|", "abc"), ")") == Run(Scan(".", "abc|"), "")
  {
    assert ")"[0] == ')' && ")"[1..] == "";
    assert PopToOpen(Scan(".(|", "abc")) == PopToOpen(Scan(".(", "abc|")) by { assert ".(|"[..2] == ".(" && "abc" + ['|'] == "abc|"; }
    assert ".("[..1] == ".";
    assert Step(Scan(".(|", "abc"), ')') == Ok(Scan(".", "abc|"));
  }

  lemma GroupingExampleDrain()
    ensures Drain(Scan(".", "abc|")) == Ok("abc|.")
  {
    assert Drain(Scan(".", "abc|")) == Drain(Scan("", "abc|.")) by { assert "."[..0] == "" && "abc|" + ['.'] == "abc|."; }
  }

  /** '.' binds tighter than '|' ... */
  lemma PrecedenceExample()
    ensures Postfix("a.b|c") == Ok("ab.c|")
  {
    assert Start == Scan("", "");
    PrecedenceExampleToken1();
    PrecedenceExampleToken2();
    PrecedenceExampleToken3();
    PrecedenceExampleToken4();
    PrecedenceExampleToken5();
    PrecedenceExampleDrain();
  }

  lemma PrecedenceExampleToken1()
    ensures Run(Scan("", ""), "a.b|c") == Run(Scan("", "a"), ".b|c")
  {
    assert "a.b|c"[0] == 'a' && "a.b|c"[1..] == ".b|c";
    assert "" + ['a'] == "a";
    assert Step(Scan("", ""), 'a') == Ok(Scan("", "a"));
  }

  lemma PrecedenceExampleToken2()
    ensures Run(Scan("", "a"), ".b|c") == Run(Scan(".", "a"), "b|c")
  {
    assert ".b|c"[0] == '.' && ".b|c"[1..] == "b|c";
    assert PopYielding(Scan("", "a"), '.') == Scan("", "a");
    assert "" + ['.'] == ".";
    assert Step(Scan("", "a"), '.') == Ok(Scan(".", "a"));
  }

  lemma PrecedenceExampleToken3()
    ensures Run(Scan(".", "a"), "b|c") == Run(Scan(".", "ab"), "|c")
  {
    assert "b|c"[0] == 'b' && "b|c"[1..] == "|c";
    assert "a" + ['b'] == "ab";
    assert Step(Scan(".", "a"), 'b') == Ok(Scan(".", "ab"));
  }

  lemma PrecedenceExampleToken4()
    ensures Run(Scan(".", "ab"), "|c") == Run(Scan("|", "ab."), "c")
  {
    assert "|c"[0] == '|' && "|c"[1..] == "c";
    assert PopYielding(Scan(".", "ab"), '|') == PopYielding(Scan("", "ab."), '|') by { assert "."[..0] == "" && "ab" + ['.'] == "ab."; }
    assert PopYielding(Scan("", "ab."), '|') == Scan("", "ab.");
    assert "" + ['|'] == "|";
    assert Step(Scan(".", "ab"), '|') == Ok(Scan("|", "ab."));
  }

  lemma PrecedenceExampleToken5()
    ensures Run(Scan("|", "ab."), "c") == Run(Scan("|", "ab.c"), "")
  {
    assert "c"[0] == 'c' && "c"[1..] == "";
    assert "ab." + ['c'] == "ab.c";
    assert Step(Scan("|", "ab."), 'c') == Ok(Scan("|", "ab.c"));
  }

  lemma PrecedenceExampleDrain()
    ensures Drain(Scan("|", "ab.c")) == Ok("ab.c|")
  {
    assert Drain(Scan("|", "ab.c")) == Drain(Scan("", "ab.c|")) by { assert "|"[..0] == "" && "ab.c" + ['|'] == "ab.c|"; }
  }

  /** ... so grouping the concatenation explicitly gives the same postfix string. */
  lemma GroupedPrecedenceExample()
    ensures Postfix("(a.b)|c") == Ok("ab.c|")
  {
    assert Start == Scan("", "");
    GroupedPrecedenceExampleToken1();
    GroupedPrecedenceExampleToken2();
    GroupedPrecedenceExampleToken3();
    GroupedPrecedenceExampleToken4();
    GroupedPrecedenceExampleToken5();
    GroupedPrecedenceExampleToken6();
    GroupedPrecedenceExampleToken7();
    GroupedPrecedenceExampleDrain();
  }

  lemma GroupedPrecedenceExampleToken1()
    ensures Run(Scan("", ""), "(a.b)|c") == Run(Scan("(", ""), "a.b)|c")
  {
    assert "(a.b)|c"[0] == '(' && "(a.b)|c"[1..] == "a.b)|c";
    assert "" + ['('] == "(";
    assert Step(Scan("", ""), '(') == Ok(Scan("(", ""));
  }

  lemma GroupedPrecedenceExampleToken2()
    ensures Run(Scan("(", ""), "a.b)|c") == Run(Scan("(", "a"), ".b)|c")
  {
    assert "a.b)|c"[0] == 'a' && "a.b)|c"[1..] == ".b)|c";
    assert "" + ['a'] == "a";
    assert Step(Scan("(", ""), 'a') == Ok(Scan("(", "a"));
  }

  lemma GroupedPrecedenceExampleToken3()
    ensures Run(Scan("(", "a"), ".b)|c") == Run(Scan("(.", "a"), "b)|c")
  {
    assert ".b)|c"[0] == '.' && ".b)|c"[1..] == "b)|c";
    assert PopYielding(Scan("(", "a"), '.') == Scan("(", "a");
    assert "(" + ['.'] == "(.";
    assert Step(Scan("(", "a"), '.') == Ok(Scan("(.", "a"));
  }

  lemma GroupedPrecedenceExampleToken4()
    ensures Run(Scan("(.", "a"), "b)|c") == Run(Scan("(.", "ab"), ")|c")
  {
    assert "b)|c"[0] == 'b' && "b)|c"[1..] == ")|c";
    assert "a" + ['b'] == "ab";
    assert Step(Scan("(.", "a"), 'b') == Ok(Scan("(.", "ab"));
  }

  lemma GroupedPrecedenceExampleToken5()
    ensures Run(Scan("(.", "ab"), ")|c") == Run(Scan("", "ab."), "|c")
  {
    assert ")|c"[0] == ')' && ")|c"[1..] == "|c";
    assert PopToOpen(Scan("(.", "ab")) == PopToOpen(Scan("(", "ab.")) by { assert "(."[..1] == "(" && "ab" + ['.'] == "ab."; }
    assert "("[..0] == "";
    assert Step(Scan("(.", "ab"), ')') == Ok(Scan("", "ab."));
  }

  lemma GroupedPrecedenceExampleToken6()
    ensures Run(Scan("", "ab."), "|c") == Run(Scan("|", "ab."), "c")
  {
    assert "|c"[0] == '|' && "|c"[1..] == "c";
    assert PopYielding(Scan("", "ab."), '|') == Scan("", "ab.");
    assert "" + ['|'] == "|";
    assert Step(Scan("", "ab."), '|') == Ok(Scan("|", "ab."));
  }

  lemma GroupedPrecedenceExampleToken7()
    ensures Run(Scan("|", "ab."), "c") == Run(Scan("|", "ab.c"), "")
  {
    assert "c"[0] == 'c' && "c"[1..] == "";
    assert "ab." + ['c'] == "ab.c";
    assert Step(Scan("|", "ab."), 'c') == Ok(Scan("|", "ab.c"));
  }

  lemma GroupedPrecedenceExampleDrain()
    ensures Drain(Scan("|", "ab.c")) == Ok("ab.c|")
  {
    assert Drain(Scan("|", "ab.c")) == Drain(Scan("", "ab.c|")) by { assert "|"[..0] == "" && "ab.c" + ['|'] == "ab.c|"; }
  }

  /** The annotated form of "aa*|bb*": the star binds tightest of all. */
  lemma StarExample()
    ensures Postfix("a.a*|b.b*") == Ok("aa*.bb*.|")
  {
    assert Start == Scan("", "");
    StarExampleToken1();
    StarExampleToken2();
    StarExampleToken3();
    StarExampleToken4();
    StarExampleToken5();
    StarExampleToken6();
    StarExampleToken7();
    StarExampleToken8();
    StarExampleToken9();
    StarExampleDrain();
  }

  lemma StarExampleToken1()
    ensures Run(Scan("", ""), "a.a*|b.b*") == Run(Scan("", "a"), ".a*|b.b*")
  {
    assert "a.a*|b.b*"[0] == 'a' && "a.a*|b.b*"[1..] == ".a*|b.b*";
    assert "" + ['a'] == "a";
    assert Step(Scan("", ""), 'a') == Ok(Scan("", "a"));
  }

  lemma StarExampleToken2()
    ensures Run(Scan("", "a"), ".a*|b.b*") == Run(Scan(".", "a"), "a*|b.b*")
  {
    assert ".a*|b.b*"[0] == '.' && ".a*|b.b*"[1..] == "a*|b.b*";
    assert PopYielding(Scan("", "a"), '.') == Scan("", "a");
    assert "" + ['.'] == ".";
    assert Step(Scan("", "a"), '.') == Ok(Scan(".", "a"));
  }

  lemma StarExampleToken3()
    ensures Run(Scan(".", "a"), "a*|b.b*") == Run(Scan(".", "aa"), "*|b.b*")
  {
    assert "a*|b.b*"[0] == 'a' && "a*|b.b*"[1..] == "*|b.b*";
    assert "a" + ['a'] == "aa";
    assert Step(Scan(".", "a"), 'a') == Ok(Scan(".", "aa"));
  }

  lemma StarExampleToken4()
    ensures Run(Scan(".", "aa"), "*|b.b*") == Run(Scan(".*", "aa"), "|b.b*")
  {
    assert "*|b.b*"[0] == '*' && "*|b.b*"[1..] == "|b.b*";
    assert PopYielding(Scan(".", "aa"), '*') == Scan(".", "aa");
    assert "." + ['*'] == ".*";
    assert Step(Scan(".", "aa"), '*') == Ok(Scan(".*", "aa"));
  }

  lemma StarExampleToken5()
    ensures Run(Scan(".*", "aa"), "|b.b*") == Run(Scan("|", "aa*."), "b.b*")
  {
    assert "|b.b*"[0] == '|' && "|b.b*"[1..] == "b.b*";
    assert PopYielding(Scan(".*", "aa"), '|') == PopYielding(Scan(".", "aa*"), '|') by { assert ".*"[..1] == "." && "aa" + ['*'] == "aa*"; }
    assert PopYielding(Scan(".", "aa*"), '|') == PopYielding(Scan("", "aa*."), '|') by { assert "."[..0] == "" && "aa*" + ['.'] == "aa*."; }
    assert PopYielding(Scan("", "aa*."), '|') == Scan("", "aa*.");
    assert "" + ['|'] == "|";
    assert Step(Scan(".*", "aa"), '|') == Ok(Scan("|", "aa*."));
  }

  lemma StarExampleToken6()
    ensures Run(Scan("|", "aa*."), "b.b*") == Run(Scan("|", "aa*.b"), ".b*")
  {
    assert "b.b*"[0] == 'b' && "b.b*"[1..] == ".b*";
    assert "aa*." + ['b'] == "aa*.b";
    assert Step(Scan("|", "aa*."), 'b') == Ok(Scan("|", "aa*.b"));
  }

  lemma StarExampleToken7()
    ensures Run(Scan("|", "aa*.b"), ".b*") == Run(Scan("|.", "aa*.b"), "b*")
  {
    assert ".b*"[0] == '.' && ".b*"[1..] == "b*";
    assert PopYielding(Scan("|", "aa*.b"), '.') == Scan("|", "aa*.b");
    assert "|" + ['.'] == "|.";
    assert Step(Scan("|", "aa*.b"), '.') == Ok(Scan("|.", "aa*.b"));
  }

  lemma StarExampleToken8()
    ensures Run(Scan("|.", "aa*.b"), "b*") == Run(Scan("|.", "aa*.bb"), "*")
  {
    assert "b*"[0] == 'b' && "b*"[1..] == "*";
    assert "aa*.b" + ['b'] == "aa*.bb";
    assert Step(Scan("|.", "aa*.b"), 'b') == Ok(Scan("|.", "aa*.bb"));
  }

  lemma StarExampleToken9()
    ensures Run(Scan("|.", "aa*.bb"), "*") == Run(Scan("|.*", "aa*.bb"), "")
  {
    assert "*"[0] == '*' && "*"[1..] == "";
    assert PopYielding(Scan("|.", "aa*.bb"), '*') == Scan("|.", "aa*.bb");
    assert "|." + ['*'] == "|.*";
    assert Step(Scan("|.", "aa*.bb"), '*') == Ok(Scan("|.*", "aa*.bb"));
  }

  lemma StarExampleDrain()
    ensures Drain(Scan("|.*", "aa*.bb")) == Ok("aa*.bb*.|")
  {
    assert Drain(Scan("|.*", "aa*.bb")) == Drain(Scan("|.", "aa*.bb*")) by { assert "|.*"[..2] == "|." && "aa*.bb" + ['*'] == "aa*.bb*"; }
    assert Drain(Scan("|.", "aa*.bb*")) == Drain(Scan("|", "aa*.bb*.")) by { assert "|."[..1] == "|" && "aa*.bb*" + ['.'] == "aa*.bb*."; }
    assert Drain(Scan("|", "aa*.bb*.")) == Drain(Scan("", "aa*.bb*.|")) by { assert "|"[..0] == "" && "aa*.bb*." + ['|'] == "aa*.bb*.|"; }
  }

  /** The annotated form of the self-test input "(a|b)*abb". */
  lemma StarGroupExample()
    ensures Postfix("(a|b)*.a.b.b") == Ok("ab|*a.b.b.")
  {
    assert Start == Scan("", "");
    StarGroupExampleToken1();
    StarGroupExampleToken2();
    StarGroupExampleToken3();
    StarGroupExampleToken4();
    StarGroupExampleToken5();
    StarGroupExampleToken6();
    StarGroupExampleToken7();
    StarGroupExampleToken8();
    StarGroupExampleToken9();
    StarGroupExampleToken10();
    StarGroupExampleToken11();
    StarGroupExampleToken12();
    StarGroupExampleDrain();
  }

  lemma StarGroupExampleToken1()
    ensures Run(Scan("", ""), "(a|b)*.a.b.b") == Run(Scan("(", ""), "a|b)*.a.b.b")
  {
    assert "(a|b)*.a.b.b"[0] == '(' && "(a|b)*.a.b.b"[1..] == "a|b)*.a.b.b";
    assert "" + ['('] == "(";
    assert Step(Scan("", ""), '(') == Ok(Scan("(", ""));
  }

  lemma StarGroupExampleToken2()
    ensures Run(Scan("(", ""), "a|b)*.a.b.b") == Run(Scan("(", "a"), "|b)*.a.b.b")
  {
    assert "a|b)*.a.b.b"[0] == 'a' && "a|b)*.a.b.b"[1..] == "|b)*.a.b.b";
    assert "" + ['a'] == "a";
    assert Step(Scan("(", ""), 'a') == Ok(Scan("(", "a"));
  }

  lemma StarGroupExampleToken3()
    ensures Run(Scan("(", "a"), "|b)*.a.b.b") == Run(Scan("(|", "a"), "b)*.a.b.b")
  {
    assert "|b)*.a.b.b"[0] == '|' && "|b)*.a.b.b"[1..] == "b)*.a.b.b";
    assert PopYielding(Scan("(", "a"), '|') == Scan("(", "a");
    assert "(" + ['|'] == "(|";
    assert Step(Scan("(", "a"), '|') == Ok(Scan("(|", "a"));
  }

  lemma StarGroupExampleToken4()
    ensures Run(Scan("(|", "a"), "b)*.a.b.b") == Run(Scan("(|", "ab"), ")*.a.b.b")
  {
    assert "b)*.a.b.b"[0] == 'b' && "b)*.a.b.b"[1..] == ")*.a.b.b";
    assert "a" + ['b'] == "ab";
    assert Step(Scan("(|", "a"), 'b') == Ok(Scan("(|", "ab"));
  }

  lemma StarGroupExampleToken5()
    ensures Run(Scan("(|", "ab"), ")*.a.b.b") == Run(Scan("", "ab|"), "*.a.b.b")
  {
    assert ")*.a.b.b"[0] == ')' && ")*.a.b.b"[1..] == "*.a.b.b";
    assert PopToOpen(Scan("(|", "ab")) == PopToOpen(Scan("(", "ab|")) by { assert "(|"[..1] == "(" && "ab" + ['|'] == "ab|"; }
    assert "("[..0] == "";
    assert Step(Scan("(|", "ab"), ')') == Ok(Scan("", "ab|"));
  }

  lemma StarGroupExampleToken6()
    ensures Run(Scan("", "ab|"), "*.a.b.b") == Run(Scan("*", "ab|"), ".a.b.b")
  {
    assert "*.a.b.b"[0] == '*' && "*.a.b.b"[1..] == ".a.b.b";
    assert PopYielding(Scan("", "ab|"), '*') == Scan("", "ab|");
    assert "" + ['*'] == "*";
    assert Step(Scan("", "ab|"), '*') == Ok(Scan("*", "ab|"));
  }

  lemma StarGroupExampleToken7()
    ensures Run(Scan("*", "ab|"), ".a.b.b") == Run(Scan(".", "ab|*"), "a.b.b")
  {
    assert ".a.b.b"[0] == '.' && ".a.b.b"[1..] == "a.b.b";
    assert PopYielding(Scan("*", "ab|"), '.') == PopYielding(Scan("", "ab|*"), '.') by { assert "*"[..0] == "" && "ab|" + ['*'] == "ab|*"; }
    assert PopYielding(Scan("", "ab|*"), '.') == Scan("", "ab|*");
    assert "" + ['.'] == ".";
    assert Step(Scan("*", "ab|"), '.') == Ok(Scan(".", "ab|*"));
  }

  lemma StarGroupExampleToken8()
    ensures Run(Scan(".", "ab|*"), "a.b.b") == Run(Scan(".", "ab|*a"), ".b.b")
  {
    assert "a.b.b"[0] == 'a' && "a.b.b"[1..] == ".b.b";
    assert "ab|*" + ['a'] == "ab|*a";
    assert Step(Scan(".", "ab|*"), 'a') == Ok(Scan(".", "ab|*a"));
  }

  lemma StarGroupExampleToken9()
    ensures Run(Scan(".", "ab|*a"), ".b.b") == Run(Scan(".", "ab|*a."), "b.b")
  {
    assert ".b.b"[0] == '.' && ".b.b"[1..] == "b.b";
    assert PopYielding(Scan(".", "ab|*a"), '.') == PopYielding(Scan("", "ab|*a."), '.') by { assert "."[..0] == "" && "ab|*a" + ['.'] == "ab|*a."; }
    assert PopYielding(Scan("", "ab|*a."), '.') == Scan("", "ab|*a.");
    assert "" + ['.'] == ".";
    assert Step(Scan(".", "ab|*a"), '.') == Ok(Scan(".", "ab|*a."));
  }

  lemma StarGroupExampleToken10()
    ensures Run(Scan(".", "ab|*a."), "b.b") == Run(Scan(".", "ab|*a.b"), ".b")
  {
    assert "b.b"[0] == 'b' && "b.b"[1..] == ".b";
    assert "ab|*a." + ['b'] == "ab|*a.b";
    assert Step(Scan(".", "ab|*a."), 'b') == Ok(Scan(".", "ab|*a.b"));
  }

  lemma StarGroupExampleToken11()
    ensures Run(Scan(".", "ab|*a.b"), ".b") == Run(Scan(".", "ab|*a.b."), "b")
  {
    assert ".b"[0] == '.' && ".b"[1..] == "b";
    assert PopYielding(Scan(".", "ab|*a.b"), '.') == PopYielding(Scan("", "ab|*a.b."), '.') by { assert "."[..0] == "" && "ab|*a.b" + ['.'] == "ab|*a.b."; }
    assert PopYielding(Scan("", "ab|*a.b."), '.') == Scan("", "ab|*a.b.");
    assert "" + ['.'] == ".";
    assert Step(Scan(".", "ab|*a.b"), '.') == Ok(Scan(".", "ab|*a.b."));
  }

  lemma StarGroupExampleToken12()
    ensures Run(Scan(".", "ab|*a.b."), "b") == Run(Scan(".", "ab|*a.b.b"), "")
  {
    assert "b"[0] == 'b' && "b"[1..] == "";
    assert "ab|*a.b." + ['b'] == "ab|*a.b.b";
    assert Step(Scan(".", "ab|*a.b."), 'b') == Ok(Scan(".", "ab|*a.b.b"));
  }

  lemma StarGroupExampleDrain()
    ensures Drain(Scan(".", "ab|*a.b.b")) == Ok("ab|*a.b.b.")
  {
    assert Drain(Scan(".", "ab|*a.b.b")) == Drain(Scan("", "ab|*a.b.b.")) by { assert "."[..0] == "" && "ab|*a.b.b" + ['.'] == "ab|*a.b.b."; }
  }

  /** The annotated form of the self-test input "a*b". */
  lemma StarConcatenationExample()
    ensures Postfix("a*.b") == Ok("a*b.")
  {
    assert Start == Scan("", "");
    StarConcatenationExampleToken1();
    StarConcatenationExampleToken2();
    StarConcatenationExampleToken3();
    StarConcatenationExampleToken4();
    StarConcatenationExampleDrain();
  }

  lemma StarConcatenationExampleToken1()
    ensures Run(Scan("", ""), "a*.b") == Run(Scan("", "a"), "*.b")
  {
    assert "a*.b"[0] == 'a' && "a*.b"[1..] == "*.b";
    assert "" + ['a'] == "a";
    assert Step(Scan("", ""), 'a') == Ok(Scan("", "a"));
  }

  lemma StarConcatenationExampleToken2()
    ensures Run(Scan("", "a"), "*.b") == Run(Scan("*", "a"), ".b")
  {
    assert "*.b"[0] == '*' && "*.b"[1..] == ".b";
    assert PopYielding(Scan("", "a"), '*') == Scan("", "a");
    assert "" + ['*'] == "*";
    assert Step(Scan("", "a"), '*') == Ok(Scan("*", "a"));
  }

  lemma StarConcatenationExampleToken3()
    ensures Run(Scan("*", "a"), ".b") == Run(Scan(".", "a*"), "b")
  {
    assert ".b"[0] == '.' && ".b"[1..] == "b";
    assert PopYielding(Scan("*", "a"), '.') == PopYielding(Scan("", "a*"), '.') by { assert "*"[..0] == "" && "a" + ['*'] == "a*"; }
    assert PopYielding(Scan("", "a*"), '.') == Scan("", "a*");
    assert "" + ['.'] == ".";
    assert Step(Scan("*", "a"), '.') == Ok(Scan(".", "a*"));
  }

  lemma StarConcatenationExampleToken4()
    ensures Run(Scan(".", "a*"), "b") == Run(Scan(".", "a*b"), "")
  {
    assert "b"[0] == 'b' && "b"[1..] == "";
    assert "a*" + ['b'] == "a*b";
    assert Step(Scan(".", "a*"), 'b') == Ok(Scan(".", "a*b"));
  }

  lemma StarConcatenationExampleDrain()
    ensures Drain(Scan(".", "a*b")) == Ok("a*b.")
  {
    assert Drain(Scan(".", "a*b")) == Drain(Scan("", "a*b.")) by { assert "."[..0] == "" && "a*b" + ['.'] == "a*b."; }
  }

  /** The annotated form of the self-test input "a(b)c": a group around a single operand. */
  lemma NestedExample()
    ensures Postfix("a.(b).c") == Ok("ab.c.")
  {
    assert Start == Scan("", "");
    NestedExampleToken1();
    NestedExampleToken2();
    NestedExampleToken3();
    NestedExampleToken4();
    NestedExampleToken5();
    NestedExampleToken6();
    NestedExampleToken7();
    NestedExampleDrain();
  }

  lemma NestedExampleToken1()
    ensures Run(Scan("", ""), "a.(b).c") == Run(Scan("", "a"), ".(b).c")
  {
    assert "a.(b).c"[0] == 'a' && "a.(b).c"[1..] == ".(b).c";
    assert "" + ['a'] == "a";
    assert Step(Scan("", ""), 'a') == Ok(Scan("", "a"));
  }

  lemma NestedExampleToken2()
    ensures Run(Scan("", "a"), ".(b).c") == Run(Scan(".", "a"), "(b).c")
  {
    assert ".(b).c"[0] == '.' && ".(b).c"[1..] == "(b).c";
    assert PopYielding(Scan("", "a"), '.') == Scan("", "a");
    assert "" + ['.'] == ".";
    assert Step(Scan("", "a"), '.') == Ok(Scan(".", "a"));
  }

  lemma NestedExampleToken3()
    ensures Run(Scan(".", "a"), "(b).c") == Run(Scan(".(", "a"), "b).c")
  {
    assert "(b).c"[0] == '(' && "(b).c"[1..] == "b).c";
    assert "." + ['('] == ".(";
    assert Step(Scan(".", "a"), '(') == Ok(Scan(".(", "a"));
  }

  lemma NestedExampleToken4()
    ensures Run(Scan(".(", "a"), "b).c") == Run(Scan(".(", "ab"), ").c")
  {
    assert "b).c"[0] == 'b' && "b).c"[1..] == ").c";
    assert "a" + ['b'] == "ab";
    assert Step(Scan(".(", "a"), 'b') == Ok(Scan(".(", "ab"));
  }

  lemma NestedExampleToken5()
    ensures Run(Scan(".(", "ab"), ").c") == Run(Scan(".", "ab"), ".c")
  {
    assert ").c"[0] == ')' && ").c"[1..] == ".c";
    assert ".("[..1] == ".";
    assert Step(Scan(".(", "ab"), ')') == Ok(Scan(".", "ab"));
  }

  lemma NestedExampleToken6()
    ensures Run(Scan(".", "ab"), ".c") == Run(Scan(".", "ab."), "c")
  {
    assert ".c"[0] == '.' && ".c"[1..] == "c";
    assert PopYielding(Scan(".", "ab"), '.') == PopYielding(Scan("", "ab."), '.') by { assert "."[..0] == "" && "ab" + ['.'] == "ab."; }
    assert PopYielding(Scan("", "ab."), '.') == Scan("", "ab.");
    assert "" + ['.'] == ".";
    assert Step(Scan(".", "ab"), '.') == Ok(Scan(".", "ab."));
  }

  lemma NestedExampleToken7()
    ensures Run(Scan(".", "ab."), "c") == Run(Scan(".", "ab.c"), "")
  {
    assert "c"[0] == 'c' && "c"[1..] == "";
    assert "ab." + ['c'] == "ab.c";
    assert Step(Scan(".", "ab."), 'c') == Ok(Scan(".", "ab.c"));
  }

  lemma NestedExampleDrain()
    ensures Drain(Scan(".", "ab.c")) == Ok("ab.c.")
  {
    assert Drain(Scan(".", "ab.c")) == Drain(Scan("", "ab.c.")) by { assert "."[..0] == "" && "ab.c" + ['.'] == "ab.c."; }
  }

  /** A ')' with nothing open. */
  lemma MissingOpenExample()
    ensures Postfix("a)") == Err(MissingOpenParen)
  {
    assert Start == Scan("", "");
    MissingOpenExampleToken1();
    MissingOpenExampleToken2();
  }

  lemma MissingOpenExampleToken1()
    ensures Run(Scan("", ""), "a)") == Run(Scan("", "a"), ")")
  {
    assert "a)"[0] == 'a' && "a)"[1..] == ")";
    assert "" + ['a'] == "a";
    assert Step(Scan("", ""), 'a') == Ok(Scan("", "a"));
  }

  lemma MissingOpenExampleToken2()
    ensures Run(Scan("", "a"), ")") == Err(MissingOpenParen)
  {
    assert ")"[0] == ')' && ")"[1..] == "";
    assert Step(Scan("", "a"), ')') == Err(MissingOpenParen);
  }

  /** A '(' never closed. */
  lemma UnmatchedExample()
    ensures Postfix("(a") == Err(UnmatchedParen)
  {
    assert Start == Scan("", "");
    UnmatchedExampleToken1();
    UnmatchedExampleToken2();
    UnmatchedExampleDrain();
  }

  lemma UnmatchedExampleToken1()
    ensures Run(Scan("", ""), "(a") == Run(Scan("(", ""), "a")
  {
    assert "(a"[0] == '(' && "(a"[1..] == "a";
    assert "" + ['('] == "(";
    assert Step(Scan("", ""), '(') == Ok(Scan("(", ""));
  }

  lemma UnmatchedExampleToken2()
    ensures Run(Scan("(", ""), "a") == Run(Scan("(", "a"), "")
  {
    assert "a"[0] == 'a' && "a"[1..] == "";
    assert "" + ['a'] == "a";
    assert Step(Scan("(", ""), 'a') == Ok(Scan("(", "a"));
  }

  lemma UnmatchedExampleDrain()
    ensures Drain(Scan("(", "a")) == Err(UnmatchedParen)
  {
    assert Drain(Scan("(", "a")) == Err(UnmatchedParen);
  }
}
