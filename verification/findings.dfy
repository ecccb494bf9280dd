/** Two handlers of the interpreter as they are written, beside the corrected handlers the
    rest of the model uses. Both read an attribute that the child they are given does not
    have; the host language then raises `AttributeError`, modelled here as `Raised`. */
module PolyFileFindings {
  import opened Wrappers
  import opened Diagnostics
  import opened ParseTree
  import opened LiteralTransformer
  import opened PolyFile

  /** What the as-written `dimensions_line` relies on: a dimensions rule as its last child,
      and anything in front of it. */
  predicate DimensionsLineShape(t: Node)
  {
    t.Tree? && t.rule == DimensionsLineRule && |t.children| >= 1
    && WfDimensions(t.children[|t.children| - 1])
  }

  /** `dimensions_line` as written: the leading-whitespace warning is built from the `token`
      attribute of the first child, which only a literal (`TokenData`) has. The leading
      whitespace has already been rewritten into a `ParseMsg` by the transformer, so every
      line that has leading whitespace raises. */
  function DimensionsLineAsWritten(interp: PolyFileInterpreter, t: Node): (r: Result<((int, int), seq<ParseMsg>)>)
    requires DimensionsLineShape(t)
    ensures |t.children| == 1 ==> r == Ok(interp.VisitDimensions(t.children[0]))
    ensures |t.children| > 1 ==> (r.Raised? <==> !t.children[0].Literal?)
    ensures r.Ok? ==> r.value.0 == interp.VisitDimensions(t.children[|t.children| - 1]).0
  {
    var (result, msgs) := interp.VisitDimensions(t.children[|t.children| - 1]);
    if |t.children| > 1 then
      var first := t.children[0];
      if first.Literal? then
        Ok((result, msgs + [MessageFromTokens([first.token], Warning, LeadingWhitespaceReason)]))
      else
        Raised("AttributeError")
    else
      Ok((result, msgs))
  }

  /** Every dimensions line the grammar and the transformer can produce with leading
      whitespace makes the as-written handler raise; without it, the two handlers agree. */
  lemma DimensionsLineAsWrittenRaises(interp: PolyFileInterpreter, t: Node)
    requires WfDimensionsLine(t)
    ensures |t.children| > 1 <==> DimensionsLineAsWritten(interp, t).Raised?
    ensures |t.children| == 1 ==> DimensionsLineAsWritten(interp, t) == Ok(interp.VisitDimensionsLine(t))
  {
  }

  /** The text `      5    23` followed by a line end: whitespace, then a valid dimensions rule. */
  function IndentedDimensionsLine(): RawTree
  {
    Branch(DimensionsLineRule, [
      Leaf(Token(Whitespace, "      ", 1, 1, 1, 7)),
      Branch(DimensionsValidRule, [
        Leaf(Token(IntText, "5", 1, 7, 1, 8)),
        Leaf(Token(IntText, "23", 1, 12, 1, 14))])])
  }

  /** The indented dimensions line, once transformed, is one the grammar allows; the
      as-written handler raises on it, while the corrected handler reads 5 rows and 23
      columns and warns about the whitespace at the whitespace's own span. */
  lemma IndentedDimensionsLineRaises(interp: PolyFileInterpreter, parseInt: string -> int, parseFloat: string -> real)
    requires parseInt("5") == 5 && parseInt("23") == 23
    ensures var t := Transform(IndentedDimensionsLine(), parseInt, parseFloat);
            && WfDimensionsLine(t)
            && DimensionsLineAsWritten(interp, t).Raised?
            && interp.VisitDimensionsLine(t)
               == ((5, 23), [ParseMsg(Warning, (1, 1), (1, 7), LeadingWhitespaceReason)])
  {
    var raw := IndentedDimensionsLine();
    var dims := raw.children[1];
    var t := Transform(raw, parseInt, parseFloat);
    var d := Transform(dims, parseInt, parseFloat);
    assert d.children[0] == Literal(dims.children[0].token, IntValue(5));
    assert d.children[1] == Literal(dims.children[1].token, IntValue(23));
    assert t.children[1] == d;
    assert t.children[0].Message?;
    assert interp.VisitDimensions(d) == ((5, 23), []);
  }

  /** The corrected warning is the one the as-written code means to build: it spans exactly
      the whitespace token the transformer rewrote. */
  lemma CorrectedWarningSpansWhitespace(
    interp: PolyFileInterpreter, t: Node, ws: Token, parseInt: string -> int, parseFloat: string -> real)
    requires WfDimensionsLine(t) && |t.children| > 1
    requires ws.kind == Whitespace && t.children[0] == TransformToken(ws, parseInt, parseFloat)
    ensures var r := interp.VisitDimensionsLine(t).1;
            r[|r| - 1] == MessageFromTokens([ws], Warning, LeadingWhitespaceReason)
  {
  }

  /** `invalid_block` as written: the span is taken from the children as if they were all
      tokens. The first child is a `name_line` subtree when the block starts with a name, and
      a subtree built without position propagation has no `line` attribute, so such a block
      raises. */
  function InvalidBlockAsWritten(t: Node): (r: Result<ParseMsg>)
    requires WfInvalidBlock(t)
    ensures r.Ok? <==> |t.children| == 1
    ensures r.Ok? ==> r.value == MessageFromTokens([t.children[0].token], Error, InvalidBlockReason)
  {
    var first := t.children[0];
    var last := t.children[|t.children| - 1];
    if first.Raw? then
      Ok(ParseMsg(Error, (first.token.line, last.token.endLine), (first.token.column, last.token.endColumn),
                  InvalidBlockReason))
    else
      Raised("AttributeError")
  }

  /** Where the as-written handler succeeds, the corrected one gives the same message; where
      it raises, the corrected one still starts the message at the block's name. */
  lemma InvalidBlockCorrectedAgrees(interp: PolyFileInterpreter, t: Node)
    requires WfInvalidBlock(t)
    ensures InvalidBlockAsWritten(t).Ok? ==> interp.VisitInvalidBlock(t) == InvalidBlockAsWritten(t).value
    ensures InvalidBlockAsWritten(t).Raised? ==>
              (interp.VisitInvalidBlock(t).line.0, interp.VisitInvalidBlock(t).column.0)
              == StartOf(t.children[0]).value
  {
  }

  /** The block `some name` followed by the line `x 1.0`, which starts with neither a digit nor
      whitespace, so no rule after a name line accepts it and it is read as INVALID_BLOCK: the
      as-written handler raises on it, the corrected one reports one ERROR from the name to the
      end of the block. */
  lemma NamedInvalidBlockRaises(interp: PolyFileInterpreter)
    ensures var name := Tree(NameLineRule, [Literal(Token(NameText, "some name", 1, 1, 1, 10), StrValue("some name"))]);
            var rest := Raw(Token(InvalidBlockText, "x 1.0\n", 2, 1, 3, 1));
            var t := Tree(InvalidBlockRule, [name, rest]);
            && WfInvalidBlock(t)
            && InvalidBlockAsWritten(t).Raised?
            && interp.VisitInvalidBlock(t) == ParseMsg(Error, (1, 3), (1, 1), InvalidBlockReason)
  {
    var name := Tree(NameLineRule, [Literal(Token(NameText, "some name", 1, 1, 1, 10), StrValue("some name"))]);
    assert Elems(name.children) == name.children;
  }
}
