/** The reader's documented examples, each taken from the raw parse tree through the literal
    transformer and the interpreter. Number conversion is left to the host language, so each
    scenario only asks that the conversion read the texts it meets as the obvious values. */
module PolyFileScenarios {
  import opened Wrappers
  import opened Diagnostics
  import opened Text
  import opened ParseTree
  import opened LiteralTransformer
  import opened Domain
  import opened PolyFile
  import opened PolyFileProperties

  /** The conversion reads the one-digit decimals the scenarios use as their values. */
  predicate ReadsDecimals(parseFloat: string -> real)
  {
    && parseFloat("1.0") == 1.0 && parseFloat("2.0") == 2.0 && parseFloat("3.0") == 3.0
    && parseFloat("4.0") == 4.0 && parseFloat("5.0") == 5.0 && parseFloat("6.0") == 6.0
    && parseFloat("7.0") == 7.0 && parseFloat("8.0") == 8.0 && parseFloat("9.0") == 9.0
  }

  function FloatLeaf(text: string, line: int, column: int): RawTree
  {
    Leaf(Token(FloatText, text, line, column, line, column + |text|))
  }

  /** A row `    a  b  c` on the given line. */
  function ThreeValueRow(line: int, a: string, b: string, c: string): RawTree
  {
    Branch(PointRule, [FloatLeaf(a, line, 5), FloatLeaf(b, line, 10), FloatLeaf(c, line, 15)])
  }

  /** Three rows of three values, with two blank lines before the third row. */
  function ThreeRows(first: int): RawTree
  {
    Branch(PointsRule, [
      ThreeValueRow(first, "1.0", "2.0", "3.0"),
      ThreeValueRow(first + 1, "4.0", "5.0", "6.0"),
      Leaf(Token(EmptyLines, "\n\n", first + 2, 1, first + 4, 1)),
      ThreeValueRow(first + 4, "7.0", "8.0", "9.0")])
  }

  /** The description `* some value`, `* another value`, two blank lines and `* last value`,
      the first two comments with trailing spaces. */
  function DescriptionWithBlankLines(): RawTree
  {
    Branch(DescriptionHeaderRule, [
      Leaf(Token(CommentText, "* some value           ", 1, 1, 1, 24)),
      Leaf(Token(CommentText, "* another value      ", 2, 1, 2, 22)),
      Leaf(Token(EmptyLines, "    \n        \n", 3, 1, 5, 1)),
      Leaf(Token(CommentText, "* last value", 5, 1, 5, 13))])
  }

  /** The transformed description: three comment lines without their marker and trailing
      spaces, and one blank-line warning. */
  lemma DescriptionWithBlankLinesTransformed(parseInt: string -> int, parseFloat: string -> real)
    ensures var t := Transform(DescriptionWithBlankLines(), parseInt, parseFloat);
            && t.Tree? && t.rule == DescriptionHeaderRule && |t.children| == 4
            && t.children[0] == Comment(" some value")
            && t.children[1] == Comment(" another value")
            && t.children[2] == Message(ParseMsg(Warning, (3, 5), (1, 1), EmptyLinesReason))
            && t.children[3] == Comment(" last value")
  {
    var raw := DescriptionWithBlankLines();
    var t := Transform(raw, parseInt, parseFloat);
    FirstComment(parseInt, parseFloat);
    SecondComment(parseInt, parseFloat);
    LastComment(parseInt, parseFloat);
    assert t.children[0] == Transform(raw.children[0], parseInt, parseFloat);
    assert t.children[1] == Transform(raw.children[1], parseInt, parseFloat);
    assert t.children[2] == Transform(raw.children[2], parseInt, parseFloat);
    assert t.children[3] == Transform(raw.children[3], parseInt, parseFloat);
  }

  lemma FirstComment(parseInt: string -> int, parseFloat: string -> real)
    ensures TransformToken(DescriptionWithBlankLines().children[0].token, parseInt, parseFloat) == Comment(" some value")
  {
    CommentLineTransformed(DescriptionWithBlankLines().children[0].token, " some value", "           ", parseInt, parseFloat);
  }

  lemma SecondComment(parseInt: string -> int, parseFloat: string -> real)
    ensures TransformToken(DescriptionWithBlankLines().children[1].token, parseInt, parseFloat) == Comment(" another value")
  {
    CommentLineTransformed(DescriptionWithBlankLines().children[1].token, " another value", "      ", parseInt, parseFloat);
  }

  lemma LastComment(parseInt: string -> int, parseFloat: string -> real)
    ensures TransformToken(DescriptionWithBlankLines().children[3].token, parseInt, parseFloat) == Comment(" last value")
  {
    CommentLineTransformed(DescriptionWithBlankLines().children[3].token, " last value", "", parseInt, parseFloat);
  }

  /** One comment line of the description, in a separate proof to keep each small. */
  lemma CommentLineTransformed(t: Token, content: string, pad: string, parseInt: string -> int, parseFloat: string -> real)
    requires t.kind == CommentText && t.text == "*" + content + pad
    requires content == [] || !IsSpace(content[|content| - 1])
    requires forall i :: 0 <= i < |pad| ==> pad[i] == ' '
    ensures TransformToken(t, parseInt, parseFloat) == Comment(content)
  {
    assert t.text[1..] == content + pad;
    CommentContent(t, content, pad, parseInt, parseFloat);
  }

  /** A description of two comment lines and a last one, with two blank lines before the last:
      the content is the three comments without their `*` and trailing spaces, joined by
      newlines, and the blank lines give the only message. */
  lemma DescriptionHeaderScenario(interp: PolyFileInterpreter, parseInt: string -> int, parseFloat: string -> real)
    ensures var t := Transform(DescriptionWithBlankLines(), parseInt, parseFloat);
            && WfDescriptionHeader(t)
            && interp.VisitDescriptionHeader(t)
               == (DescriptionHeader(" some value" + "\n" + " another value" + "\n" + " last value"),
                   [ParseMsg(Warning, (3, 5), (1, 1), EmptyLinesReason)])
    ensures var t := Transform(DescriptionWithBlankLines(), parseInt, parseFloat);
            interp.VisitDescriptionHeader(t).1[0].reason.Text() == "Unexpected empty lines will be ignored."
  {
    var t := Transform(DescriptionWithBlankLines(), parseInt, parseFloat);
    DescriptionWithBlankLinesTransformed(parseInt, parseFloat);
    CommentsAroundBlankLines(interp, t, " some value", " another value", " last value",
                             ParseMsg(Warning, (3, 5), (1, 1), EmptyLinesReason));
  }

  /** A description of two comment lines, blank lines and a third comment line: the content
      is the three comments joined by newlines and the only message is the blank-line one. */
  lemma CommentsAroundBlankLines(interp: PolyFileInterpreter, t: Node, a: string, b: string, c: string, blank: ParseMsg)
    requires t.Tree? && t.rule == DescriptionHeaderRule
    requires |t.children| == 4
    requires t.children[0] == Comment(a) && t.children[1] == Comment(b)
    requires t.children[2] == Message(blank) && t.children[3] == Comment(c)
    ensures WfDescriptionHeader(t)
    ensures interp.VisitDescriptionHeader(t) == (DescriptionHeader(a + "\n" + b + "\n" + c), [blank])
  {
    var cs := t.children;
    FilterAroundBlankLines(cs, blank);
    var comments := [cs[0], cs[1], cs[3]];
    assert CommentContents(comments) == [a, b, c];
    assert Join([a, b, c], '\n') == a + "\n" + b + "\n" + c by {
      assert [a, b, c][1..] == [b, c] && [b, c][1..] == [c];
      assert Join([b, c], '\n') == b + "\n" + c;
      assert Join([a, b, c], '\n') == a + "\n" + (b + "\n" + c);
      assert a + "\n" + (b + "\n" + c) == a + "\n" + b + "\n" + c;
    }
  }

  /** The metadata `this is a name` on the given line and `rows    columns` on the next. */
  function NamedDimensions(line: int, rowsText: string, colsText: string): RawTree
  {
    var colsStart := 1 + |rowsText| + 4;
    Branch(MetadataRule, [
      Branch(NameLineRule, [Leaf(Token(NameText, "this is a name", line, 1, line, 15))]),
      Branch(DimensionsLineRule, [
        Branch(DimensionsValidRule, [
          Leaf(Token(IntText, rowsText, line + 1, 1, line + 1, 1 + |rowsText|)),
          Leaf(Token(IntText, colsText, line + 1, colsStart, line + 1, colsStart + |colsText|))])])])
  }

  /** A name above two dimensions, no fewer columns than the minimum: the name and both
      dimensions are read and no message is raised. */
  lemma NamedDimensionsRead(interp: PolyFileInterpreter, t: Node, line: int, rowsText: string, colsText: string,
                            rows: int, cols: int, parseInt: string -> int, parseFloat: string -> real)
    requires t == Transform(NamedDimensions(line, rowsText, colsText), parseInt, parseFloat)
    requires parseInt(rowsText) == rows && parseInt(colsText) == cols && cols >= interp.minCols
    ensures WfMetadata(t)
    ensures interp.VisitMetadata(t) == (Metadata("this is a name", rows, cols), [])
  {
    var raw := NamedDimensions(line, rowsText, colsText);
    var nameRaw, dimsRaw := raw.children[0], raw.children[1];
    var validRaw := dimsRaw.children[0];
    var nameTok, rowsTok, colsTok := nameRaw.children[0].token, validRaw.children[0].token, validRaw.children[1].token;
    var nameLine := Tree(NameLineRule, [Literal(nameTok, StrValue("this is a name"))]);
    var valid := Tree(DimensionsValidRule, [Literal(rowsTok, IntValue(rows)), Literal(colsTok, IntValue(cols))]);
    var dimsLine := Tree(DimensionsLineRule, [valid]);
    assert Transform(nameRaw, parseInt, parseFloat) == nameLine;
    assert Transform(validRaw, parseInt, parseFloat) == valid;
    assert Transform(dimsRaw, parseInt, parseFloat) == dimsLine;
    assert t.children == [nameLine, dimsLine];
    FilterMsgsWithoutMessages(t.children);
    FilterMsgsWithoutMessages(nameLine.children);
    assert interp.VisitDimensionsValid(valid) == ((rows, cols), []);
  }

  /** `this is a name` above `5    23`, read without z values. */
  lemma MetadataScenario(interp: PolyFileInterpreter, parseInt: string -> int, parseFloat: string -> real)
    requires !interp.hasZ
    requires parseInt("5") == 5 && parseInt("23") == 23
    ensures var t := Transform(NamedDimensions(1, "5", "23"), parseInt, parseFloat);
            && WfMetadata(t)
            && interp.VisitMetadata(t) == (Metadata("this is a name", 5, 23), [])
  {
    NamedDimensionsRead(interp, Transform(NamedDimensions(1, "5", "23"), parseInt, parseFloat), 1, "5", "23", 5, 23,
                        parseInt, parseFloat);
  }

  /** `   1.0  2.0  3.0  4.0  5.0` read with z values and five expected columns: the third value
      is z, the last two are data, and the row is not flagged. */
  lemma PointLineScenario(interp: PolyFileInterpreter, parseInt: string -> int, parseFloat: string -> real)
    requires interp.hasZ && interp.expectedCols == 5
    requires ReadsDecimals(parseFloat)
    ensures var raw := Branch(PointRule, [
                         FloatLeaf("1.0", 1, 4), FloatLeaf("2.0", 1, 9), FloatLeaf("3.0", 1, 14),
                         FloatLeaf("4.0", 1, 19), FloatLeaf("5.0", 1, 24)]);
            var t := Transform(raw, parseInt, parseFloat);
            && WfPointRow(t)
            && interp.VisitPointLine(t) == (Some(Point(1.0, 2.0, Some(3.0), [4.0, 5.0])), [])
  {
    var raw := Branch(PointRule, [
                 FloatLeaf("1.0", 1, 4), FloatLeaf("2.0", 1, 9), FloatLeaf("3.0", 1, 14),
                 FloatLeaf("4.0", 1, 19), FloatLeaf("5.0", 1, 24)]);
    var t := Transform(raw, parseInt, parseFloat);
    var cs := t.children;
    var values := [1.0, 2.0, 3.0, 4.0, 5.0];
    assert WfPoint(t) && FloatValues(cs) == values by {
      assert forall i :: 0 <= i < 5 ==> cs[i] == TransformToken(raw.children[i].token, parseInt, parseFloat);
    }
    assert interp.PointOf(values) == Point(1.0, 2.0, Some(3.0), [4.0, 5.0]) by {
      assert values[3..] == [4.0, 5.0];
    }
  }

  /** A lone value `   1.0` gives no point and one ERROR. */
  lemma InvalidPointLineScenario(interp: PolyFileInterpreter, parseInt: string -> int, parseFloat: string -> real)
    ensures var raw := Branch(PointInvalidRule, [FloatLeaf("1.0", 1, 4)]);
            var t := Transform(raw, parseInt, parseFloat);
            && WfPointRow(t)
            && interp.VisitPointLine(t).0 == None
            && |interp.VisitPointLine(t).1| == 1
            && interp.VisitPointLine(t).1[0].level == Error
  {
  }

  /** Three rows of three values read with z values: three points in row order, each with its
      z value and no data, and the blank lines as the only message. */
  lemma PointsScenario(interp: PolyFileInterpreter, t: Node, first: int, parseInt: string -> int, parseFloat: string -> real)
    requires interp.hasZ && interp.expectedCols == 3
    requires ReadsDecimals(parseFloat)
    requires t == Transform(ThreeRows(first), parseInt, parseFloat)
    ensures WfPoints(t)
    ensures interp.PointsResult(t)
         == ([Point(1.0, 2.0, Some(3.0), []), Point(4.0, 5.0, Some(6.0), []), Point(7.0, 8.0, Some(9.0), [])],
             [ParseMsg(Warning, (first + 2, first + 4), (1, 1), EmptyLinesReason)])
  {
    var raw := ThreeRows(first);
    var cs := t.children;
    var r0, r1, r3 := raw.children[0], raw.children[1], raw.children[3];
    var blank := ParseMsg(Warning, (first + 2, first + 4), (1, 1), EmptyLinesReason);
    assert raw.children[2] == Leaf(Token(EmptyLines, "\n\n", first + 2, 1, first + 4, 1));
    assert cs[2] == Transform(raw.children[2], parseInt, parseFloat) == Message(blank);
    assert r0 == ThreeValueRow(first, "1.0", "2.0", "3.0");
    assert r1 == ThreeValueRow(first + 1, "4.0", "5.0", "6.0");
    assert r3 == ThreeValueRow(first + 4, "7.0", "8.0", "9.0");
    assert cs[0] == Transform(r0, parseInt, parseFloat);
    assert cs[1] == Transform(r1, parseInt, parseFloat);
    assert cs[3] == Transform(r3, parseInt, parseFloat);
    RowScenario(interp, r0, first, "1.0", "2.0", "3.0", 1.0, 2.0, 3.0, parseInt, parseFloat);
    RowScenario(interp, r1, first + 1, "4.0", "5.0", "6.0", 4.0, 5.0, 6.0, parseInt, parseFloat);
    RowScenario(interp, r3, first + 4, "7.0", "8.0", "9.0", 7.0, 8.0, 9.0, parseInt, parseFloat);
    RowsAroundBlankLines(interp, t, blank,
                         Point(1.0, 2.0, Some(3.0), []), Point(4.0, 5.0, Some(6.0), []),
                         Point(7.0, 8.0, Some(9.0), []));
  }

  /** A points block of two rows, blank lines and a third row, each row giving its point and
      no message: the block's points are the three points and its messages the blank-line
      warning. */
  lemma RowsAroundBlankLines(interp: PolyFileInterpreter, t: Node, blank: ParseMsg, p0: Point, p1: Point, p3: Point)
    requires t.Tree? && t.rule == PointsRule && |t.children| == 4
    requires t.children[2] == Message(blank)
    requires WfPoint(t.children[0]) && WfPoint(t.children[1]) && WfPoint(t.children[3])
    requires interp.VisitPointLine(t.children[0]) == (Some(p0), [])
    requires interp.VisitPointLine(t.children[1]) == (Some(p1), [])
    requires interp.VisitPointLine(t.children[3]) == (Some(p3), [])
    ensures WfPoints(t)
    ensures interp.PointsResult(t) == ([p0, p1, p3], [blank])
  {
    var cs := t.children;
    FilterAroundBlankLines(cs, blank);
    var rows := [cs[0], cs[1], cs[3]];
    assert rows[2] == cs[3];
    ThreePointRows(interp, rows, p0, p1, p3);
    assert [blank] + [] == [blank];
  }

  lemma FilterAroundBlankLines(cs: seq<Node>, blank: ParseMsg)
    requires |cs| == 4 && cs[2] == Message(blank)
    requires !cs[0].Message? && !cs[1].Message? && !cs[3].Message?
    ensures PolyFileInterpreter.FilterMsgs(cs) == ([cs[0], cs[1], cs[3]], [blank])
  {
    var front := [cs[0], cs[1]] + [cs[2]];
    assert cs == front + [cs[3]];
    FilterMsgsWithoutMessages([cs[0], cs[1]]);
    FilterMsgsSingle(cs[2]);
    FilterMsgsSingle(cs[3]);
    FilterMsgsConcat([cs[0], cs[1]], [cs[2]]);
    FilterMsgsConcat(front, [cs[3]]);
    assert PolyFileInterpreter.FilterMsgs(front) == ([cs[0], cs[1]], [blank]);
    assert [cs[0], cs[1]] + [cs[3]] == [cs[0], cs[1], cs[3]] && [blank] + [] == [blank];
  }

  lemma ThreePointRows(interp: PolyFileInterpreter, rows: seq<Node>, p0: Point, p1: Point, p2: Point)
    requires |rows| == 3 && WfPoint(rows[0]) && WfPoint(rows[1]) && WfPoint(rows[2])
    requires interp.VisitPointLine(rows[0]) == (Some(p0), [])
    requires interp.VisitPointLine(rows[1]) == (Some(p1), [])
    requires interp.VisitPointLine(rows[2]) == (Some(p2), [])
    ensures interp.PointRows(rows) == ([p0, p1, p2], [])
  {
    var first := [rows[0]];
    assert rows[..2][..1] == first && first[..0] == [] && first[0] == rows[0];
    assert interp.PointRows([]) == ([], []);
    assert interp.PointRows(first) == (interp.PointRows([]).0 + [p0], interp.PointRows([]).1 + []);
    assert [] + [p0] == [p0] && [p0] + [p1] == [p0, p1] && [p0, p1] + [p2] == [p0, p1, p2];
    assert interp.PointRows([]).0 + [p0] == [p0];
    assert interp.PointRows([]).1 + [] == [];
    assert interp.PointRows(first) == ([p0], []);
    assert interp.PointRows(rows[..2]) == ([p0, p1], []);
  }

  /** One row of three values, read with z values and three expected columns. */
  lemma RowScenario(interp: PolyFileInterpreter, raw: RawTree, line: int, a: string, b: string, c: string,
                    x: real, y: real, z: real, parseInt: string -> int, parseFloat: string -> real)
    requires interp.hasZ && interp.expectedCols == 3
    requires raw == ThreeValueRow(line, a, b, c)
    requires parseFloat(a) == x && parseFloat(b) == y && parseFloat(c) == z
    ensures var t := Transform(raw, parseInt, parseFloat);
            && WfPoint(t)
            && interp.VisitPointLine(t) == (Some(Point(x, y, Some(z), [])), [])
  {
    var l0, l1, l2 := FloatLeaf(a, line, 5), FloatLeaf(b, line, 10), FloatLeaf(c, line, 15);
    assert raw.children == [l0, l1, l2];
    var t := Transform(raw, parseInt, parseFloat);
    var cs := t.children;
    assert cs[0] == Transform(l0, parseInt, parseFloat) == Literal(l0.token, FloatValue(x));
    assert cs[1] == Transform(l1, parseInt, parseFloat) == Literal(l1.token, FloatValue(y));
    assert cs[2] == Transform(l2, parseInt, parseFloat) == Literal(l2.token, FloatValue(z));
    assert FloatValues(cs) == [x, y, z];
  }

  /** One row of three values read by an interpreter without z values whose expected column
      count is still the initial minimum, as no handler ever sets it from the metadata: the
      third value becomes data, and the row is flagged as carrying too much data. */
  lemma ThreeValuesWithoutZ(interp: PolyFileInterpreter, line: int, parseInt: string -> int, parseFloat: string -> real)
    requires !interp.hasZ && interp.expectedCols == interp.minCols
    requires ReadsDecimals(parseFloat)
    ensures var t := Transform(ThreeValueRow(line, "1.0", "2.0", "3.0"), parseInt, parseFloat);
            && WfPoint(t)
            && interp.VisitPoint(t)
               == (Point(1.0, 2.0, None, [3.0]), [ParseMsg(Error, (line, line), (5, 18), ExcessPointDataReason)])
  {
    var raw := ThreeValueRow(line, "1.0", "2.0", "3.0");
    var l0, l1, l2 := FloatLeaf("1.0", line, 5), FloatLeaf("2.0", line, 10), FloatLeaf("3.0", line, 15);
    assert raw.children == [l0, l1, l2];
    var t := Transform(raw, parseInt, parseFloat);
    var cs := t.children;
    var values := [1.0, 2.0, 3.0];
    assert WfPoint(t) && FloatValues(cs) == values && LiteralTokens(cs) == [l0.token, l1.token, l2.token] by {
      assert cs[0] == Transform(l0, parseInt, parseFloat) == Literal(l0.token, FloatValue(1.0));
      assert cs[1] == Transform(l1, parseInt, parseFloat) == Literal(l1.token, FloatValue(2.0));
      assert cs[2] == Transform(l2, parseInt, parseFloat) == Literal(l2.token, FloatValue(3.0));
    }
    assert interp.PointOf(values) == Point(1.0, 2.0, None, [3.0]) by {
      assert values[2..] == [3.0];
    }
  }

  /** The block of the reader's documented example: a one-line description, the metadata
      `this is a name` / `3    3`, and the three rows with blank lines before the third. */
  function ExampleBlock(): RawTree
  {
    Branch(PolyBlockRule, [ExampleDescription(), NamedDimensions(2, "3", "3"), ThreeRows(4)])
  }

  function ExampleDescription(): RawTree
  {
    Branch(DescriptionHeaderRule, [Leaf(Token(CommentText, "* Some description header", 1, 1, 1, 26))])
  }

  lemma HeaderComment(parseInt: string -> int, parseFloat: string -> real)
    ensures TransformToken(ExampleDescription().children[0].token, parseInt, parseFloat)
         == Comment(" Some description header")
  {
    var tok := ExampleDescription().children[0].token;
    assert tok.kind == CommentText;
    assert tok.text == "*" + " Some description header" + "";
    assert !IsSpace('r');
    var content := " Some description header";
    assert content[|content| - 1] == 'r';
    CommentLineTransformed(tok, " Some description header", "",
                           parseInt, parseFloat);
  }

  /** A description of a single comment line: its content, and no message. */
  lemma OneCommentDescription(interp: PolyFileInterpreter, t: Node, a: string)
    requires t.Tree? && t.rule == DescriptionHeaderRule && |t.children| == 1 && t.children[0] == Comment(a)
    ensures WfDescriptionHeader(t)
    ensures interp.VisitDescriptionHeader(t) == (DescriptionHeader(a), [])
  {
    assert t.children == [Comment(a)];
    FilterMsgsSingle(Comment(a));
    assert CommentContents([Comment(a)]) == [a];
  }

  /** The description of the documented block. */
  lemma SingleCommentDescription(interp: PolyFileInterpreter, t: Node, parseInt: string -> int, parseFloat: string -> real)
    requires t == Transform(ExampleDescription(), parseInt, parseFloat)
    ensures WfDescriptionHeader(t)
    ensures interp.VisitDescriptionHeader(t) == (DescriptionHeader(" Some description header"), [])
  {
    var raw := ExampleDescription();
    HeaderComment(parseInt, parseFloat);
    assert t.children[0] == Transform(raw.children[0], parseInt, parseFloat);
    OneCommentDescription(interp, t, " Some description header");
  }

  /** The documented block, transformed: its three parts, none of them a message. */
  lemma ExampleBlockShape(parseInt: string -> int, parseFloat: string -> real)
    ensures var t := Transform(ExampleBlock(), parseInt, parseFloat);
            && t.Tree? && t.rule == PolyBlockRule && |t.children| == 3
            && t.children[0] == Transform(ExampleDescription(), parseInt, parseFloat)
            && t.children[1] == Transform(NamedDimensions(2, "3", "3"), parseInt, parseFloat)
            && t.children[2] == Transform(ThreeRows(4), parseInt, parseFloat)
            && Elems(t.children) == t.children
            && PolyFileInterpreter.FilterMsgs(t.children).1 == []
  {
    var t := Transform(ExampleBlock(), parseInt, parseFloat);
    var cs := t.children;
    assert cs[0] == Transform(ExampleDescription(), parseInt, parseFloat);
    assert cs[1] == Transform(NamedDimensions(2, "3", "3"), parseInt, parseFloat);
    assert cs[2] == Transform(ThreeRows(4), parseInt, parseFloat);
    assert cs == [cs[0], cs[1], cs[2]];
    FilterMsgsWithoutMessages([cs[0], cs[1], cs[2]]);
  }

  /** The documented block read with z values: the description, the metadata and the three
      points, and the blank lines between the rows as the only message. */
  method PolyBlockScenario(parseInt: string -> int, parseFloat: string -> real)
    returns (block: PolyObject, msgs: seq<ParseMsg>)
    requires ReadsDecimals(parseFloat) && parseInt("3") == 3
    ensures block.description == Some(DescriptionHeader(" Some description header"))
    ensures block.metadata == Metadata("this is a name", 3, 3)
    ensures block.points
         == [Point(1.0, 2.0, Some(3.0), []), Point(4.0, 5.0, Some(6.0), []), Point(7.0, 8.0, Some(9.0), [])]
    ensures msgs == [ParseMsg(Warning, (6, 8), (1, 1), EmptyLinesReason)]
  {
    var interp := new PolyFileInterpreter(true);
    var t := Transform(ExampleBlock(), parseInt, parseFloat);
    ExampleBlockShape(parseInt, parseFloat);
    var cs := t.children;
    SingleCommentDescription(interp, cs[0], parseInt, parseFloat);
    NamedDimensionsRead(interp, cs[1], 2, "3", "3", 3, 3, parseInt, parseFloat);
    PointsScenario(interp, cs[2], 4, parseInt, parseFloat);
    assert WfPolyBlock(t);
    block, msgs := interp.VisitPolyBlock(t);
    assert msgs == [] + [] + [] + [ParseMsg(Warning, (6, 8), (1, 1), EmptyLinesReason)];
  }
}
