/** The converter object: built from a raw regular expression, it holds the
    annotated infix form and the postfix form computed from it. */
module Converter {
  import opened Tokens
  import opened Concatenation
  import opened PostfixConverter

  class RegexToNFAConverter {
    /** The expression with its concatenations made explicit. */
    const regex: string
    /** The postfix form of `regex`. */
    const postfixExpr: string

    /** The object's invariant: the postfix field is the conversion of the annotated one. */
    predicate Valid() {
      Postfix(regex) == Ok(postfixExpr)
    }

    constructor (annotated: string, postfix: string)
      requires Postfix(annotated) == Ok(postfix)
      ensures regex == annotated && postfixExpr == postfix
      ensures Valid()
    {
      regex := annotated;
      postfixExpr := postfix;
    }

    /** Construction: annotate, then convert. It fails on an empty expression
        (there is no last character to copy) and on unbalanced parentheses,
        which the inserted dots neither cause nor repair. */
    static method Create(raw: string) returns (r: Result<RegexToNFAConverter>)
      ensures r.Ok? <==> raw != [] && Balanced(raw)
      ensures raw == [] ==> r == Err(EmptyRegex)
      ensures raw != [] ==> (r == Err(MissingOpenParen) <==> !DepthsOk(raw, 0))
      ensures raw != [] ==> (r == Err(UnmatchedParen) <==> DepthsOk(raw, 0) && Depth(raw) > 0)
      ensures r.Ok? ==> fresh(r.value)
      ensures r.Ok? ==> r.value.regex == WithDots(raw) && r.value.Valid()
      ensures r.Ok? ==> Operands(r.value.postfixExpr) == Operands(raw)
    {
      if raw == [] {
        return Err(EmptyRegex);
      }
      var annotated := AddConcatenationOperator(raw);
      WithDotsKeepsDepth(raw);
      WithDotsKeepsDepthsOk(raw, 0);
      var postfix := ConvertPostfixExpr(annotated);
      if postfix.Err? {
        return Err(postfix.error);
      }
      WithDotsKeepsOperands(raw);
      var c := new RegexToNFAConverter(annotated, postfix.value);
      return Ok(c);
    }
  }
}
