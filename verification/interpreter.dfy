/** The polyfile interpreter: a bottom-up walk over the transformed tree that builds the
    description, the metadata, the points and whole blocks, and collects the parse messages
    of every level. Each rule handler returns its value together with its messages. */
module PolyFile {
  import opened Wrappers
  import opened Diagnostics
  import opened Text
  import opened ParseTree
  import opened Domain

  predicate IsIntLiteral(n: Node) { n.Literal? && n.data.IntValue? }
  predicate IsFloatLiteral(n: Node) { n.Literal? && n.data.FloatValue? }
  predicate IsNameLiteral(n: Node) { n.Literal? && n.data.StrValue? }

  /** The children that are not messages, in order. */
  function Elems(cs: seq<Node>): seq<Node>
  {
    PolyFileInterpreter.FilterMsgs(cs).0
  }

  // The shapes below are those the grammar gives each rule once the transformer has run.
  // Each asks for what its handler reads and no more.

  /** `description_header: (comment_line | EMPTY_LINES)+` */
  predicate WfDescriptionHeader(t: Node)
  {
    t.Tree? && t.rule == DescriptionHeaderRule && forall c <- t.children :: c.Comment? || c.Message?
  }

  /** `name_line: WS? NAME _END_OF_LINE` */
  predicate WfNameLine(t: Node)
  {
    t.Tree? && t.rule == NameLineRule && |Elems(t.children)| >= 1 && IsNameLiteral(Elems(t.children)[0])
  }

  /** `dimensions_valid: INT _WS INT` */
  predicate WfDimensionsValid(t: Node)
  {
    t.Tree? && t.rule == DimensionsValidRule && |t.children| >= 2
    && IsIntLiteral(t.children[0]) && IsIntLiteral(t.children[1])
  }

  /** `dimensions_missing_column: INT` */
  predicate WfDimensionsMissingColumn(t: Node)
  {
    t.Tree? && t.rule == DimensionsMissingColumnRule && |t.children| >= 1 && IsIntLiteral(t.children[0])
  }

  /** `dimensions_exceeding_columns: dimensions_valid (_WS INT)+` */
  predicate WfDimensionsExceedingColumns(t: Node)
  {
    t.Tree? && t.rule == DimensionsExceedingColumnsRule && |t.children| >= 2
    && WfDimensionsValid(t.children[0]) && t.children[1].Literal?
  }

  predicate WfDimensions(t: Node)
  {
    WfDimensionsValid(t) || WfDimensionsMissingColumn(t) || WfDimensionsExceedingColumns(t)
  }

  /** `dimensions_line: WS? (dimensions_valid | ...) _END_OF_LINE`; the WS has become a message. */
  predicate WfDimensionsLine(t: Node)
  {
    t.Tree? && t.rule == DimensionsLineRule && |t.children| >= 1
    && WfDimensions(t.children[|t.children| - 1])
    && (|t.children| > 1 ==> t.children[0].Message?)
  }

  /** `metadata: name_line EMPTY_LINES? dimensions_line EMPTY_LINES?` */
  predicate WfMetadata(t: Node)
  {
    t.Tree? && t.rule == MetadataRule
    && var es := Elems(t.children);
    |es| >= 2 && WfNameLine(es[0]) && WfDimensionsLine(es[1])
  }

  /** `point: FLOAT _WS FLOAT (_WS FLOAT)*` */
  predicate WfPoint(t: Node)
  {
    t.Tree? && t.rule == PointRule && |t.children| >= 2 && forall c <- t.children :: IsFloatLiteral(c)
  }

  /** The values of a point, by position, are float literals. */
  lemma PointValuesAreLiterals(t: Node)
    requires WfPoint(t)
    ensures forall i :: 0 <= i < |t.children| ==> t.children[i].Literal? && IsFloatLiteral(t.children[i])
  {
    forall i | 0 <= i < |t.children| ensures t.children[i].Literal? && IsFloatLiteral(t.children[i]) {
      assert t.children[i] in t.children;
    }
  }

  /** `point_invalid: FLOAT` */
  predicate WfPointInvalid(t: Node)
  {
    t.Tree? && t.rule == PointInvalidRule && |t.children| >= 1 && t.children[0].Literal?
  }

  predicate WfPointRow(t: Node)
  {
    WfPoint(t) || WfPointInvalid(t)
  }

  /** `points: (point_line EMPTY_LINES?)+` */
  predicate WfPoints(t: Node)
  {
    t.Tree? && t.rule == PointsRule && forall e <- Elems(t.children) :: WfPointRow(e)
  }

  /** Each row of a points block, by position, is a `point` or a `point_invalid`. */
  lemma PointsRowsWellFormed(t: Node)
    requires WfPoints(t)
    ensures forall j :: 0 <= j < |Elems(t.children)| ==> WfPointRow(Elems(t.children)[j])
  {
    forall j | 0 <= j < |Elems(t.children)| ensures WfPointRow(Elems(t.children)[j]) {
      assert Elems(t.children)[j] in Elems(t.children);
    }
  }

  /** `poly_block: description_header? metadata points` */
  predicate WfPolyBlock(t: Node)
  {
    t.Tree? && t.rule == PolyBlockRule
    && var es := Elems(t.children);
    (|es| == 3 && WfDescriptionHeader(es[0]) && WfMetadata(es[1]) && WfPoints(es[2]))
    || (|es| == 2 && WfMetadata(es[0]) && WfPoints(es[1]))
  }

  /** `invalid_block: name_line? INVALID_BLOCK` */
  predicate WfInvalidBlock(t: Node)
  {
    t.Tree? && t.rule == InvalidBlockRule
    && ((|t.children| == 1 && t.children[0].Raw?)
        || (|t.children| == 2 && WfNameLine(t.children[0]) && t.children[1].Raw?))
  }

  /** Both parts of the filter are drawn from its input. */
  lemma {:induction false} FilterMsgsFromInput(input: seq<Node>)
    ensures forall i :: 0 <= i < |PolyFileInterpreter.FilterMsgs(input).0| ==>
              PolyFileInterpreter.FilterMsgs(input).0[i] in input
    ensures forall i :: 0 <= i < |PolyFileInterpreter.FilterMsgs(input).1| ==>
              Message(PolyFileInterpreter.FilterMsgs(input).1[i]) in input
  {
    if input != [] {
      FilterMsgsFromInput(input[1..]);
      var r, rest := PolyFileInterpreter.FilterMsgs(input), PolyFileInterpreter.FilterMsgs(input[1..]);
      var skip := if input[0].Message? then 0 else 1;
      var keep := if input[0].Message? then 1 else 0;
      assert |r.0| == |rest.0| + skip && |r.1| == |rest.1| + keep;
      forall i | 0 <= i < |r.0| ensures r.0[i] in input {
        if i < skip {
          assert r.0[i] == input[0];
        } else {
          assert r.0[i] == rest.0[i - skip] && rest.0[i - skip] in input[1..];
          var j :| 0 <= j < |input| - 1 && input[1..][j] == r.0[i];
          assert input[j + 1] == r.0[i];
        }
      }
      forall i | 0 <= i < |r.1| ensures Message(r.1[i]) in input {
        if i < keep {
          assert Message(r.1[i]) == input[0];
        } else {
          assert r.1[i] == rest.1[i - keep] && Message(rest.1[i - keep]) in input[1..];
          var j :| 0 <= j < |input| - 1 && input[1..][j] == Message(r.1[i]);
          assert input[j + 1] == Message(r.1[i]);
        }
      }
    }
  }

  /** A name line has a position: it starts with its whitespace warning or its name. */
  lemma NameLineHasStart(t: Node)
    requires WfNameLine(t)
    ensures StartOf(t).Some?
  {
    var cs := t.children;
    assert cs != [];
    if !cs[0].Message? {
      assert Elems(cs)[0] == cs[0];
    }
  }

  /** The first child of an invalid block, a raw token or a name line, has a position. */
  lemma InvalidBlockHasStart(t: Node)
    requires WfInvalidBlock(t)
    ensures StartOf(t.children[0]).Some?
  {
    if |t.children| == 2 {
      NameLineHasStart(t.children[0]);
    }
  }

  /** The contents of comment lines. */
  function CommentContents(cs: seq<Node>): (lines: seq<string>)
    requires forall i :: 0 <= i < |cs| ==> cs[i].Comment?
    ensures |lines| == |cs|
    ensures forall i :: 0 <= i < |cs| ==> lines[i] == cs[i].content
  {
    if cs == [] then [] else [cs[0].content] + CommentContents(cs[1..])
  }

  /** The values of float literals. */
  function FloatValues(cs: seq<Node>): (values: seq<real>)
    requires forall i :: 0 <= i < |cs| ==> IsFloatLiteral(cs[i])
    ensures |values| == |cs|
    ensures forall i :: 0 <= i < |cs| ==> IsFloatLiteral(cs[i]) && values[i] == cs[i].data.r
  {
    if cs == [] then [] else assert IsFloatLiteral(cs[0]); [cs[0].data.r] + FloatValues(cs[1..])
  }

  /** The tokens of literals. */
  function LiteralTokens(cs: seq<Node>): (tokens: seq<Token>)
    requires forall i :: 0 <= i < |cs| ==> cs[i].Literal?
    ensures |tokens| == |cs|
    ensures forall i :: 0 <= i < |cs| ==> tokens[i] == cs[i].token
  {
    if cs == [] then [] else [cs[0].token] + LiteralTokens(cs[1..])
  }

  /** The valid two-integer part of a dimensions line. */
  function ValidPart(t: Node): (v: Node)
    requires WfDimensionsValid(t) || WfDimensionsExceedingColumns(t)
    ensures WfDimensionsValid(v)
  {
    if t.rule == DimensionsValidRule then t else t.children[0]
  }

  /** The number of rows a dimensions line declares: its first integer. */
  function DeclaredRows(t: Node): int
    requires WfDimensions(t)
  {
    if t.rule == DimensionsMissingColumnRule then t.children[0].data.n else ValidPart(t).children[0].data.n
  }

  /** The number of columns a dimensions line declares: its second integer, if it has one. */
  function DeclaredColumns(t: Node): Option<int>
    requires WfDimensions(t)
  {
    if t.rule == DimensionsMissingColumnRule then None else Some(ValidPart(t).children[1].data.n)
  }

  /** The interpreter. Its configuration says whether points carry a z value, which fixes the
      minimum number of columns; the expected number of columns starts at that minimum and may
      be overwritten from outside once a block's dimensions are known. */
  class PolyFileInterpreter {
    const hasZ: bool
    const minCols: int := if hasZ then 3 else 2
    var expectedCols: int

    constructor (hasZ: bool)
      ensures this.hasZ == hasZ
      ensures minCols == (if hasZ then 3 else 2)
      ensures expectedCols == minCols
    {
      this.hasZ := hasZ;
      expectedCols := if hasZ then 3 else 2;
    }

    /** Splits children into the non-messages and the messages, each in their original order. */
    static function FilterMsgs(input: seq<Node>): (r: (seq<Node>, seq<ParseMsg>))
      ensures |r.0| + |r.1| == |input|
      ensures forall i :: 0 <= i < |r.0| ==> !r.0[i].Message?
    {
      if input == [] then ([], [])
      else
        var rest := FilterMsgs(input[1..]);
        if input[0].Message? then (rest.0, [input[0].msg] + rest.1)
        else ([input[0]] + rest.0, rest.1)
    }

    /** `description_header`: the comment lines joined by newlines; the blank-line warnings are
        returned beside it. */
    function VisitDescriptionHeader(t: Node): (r: (DescriptionHeader, seq<ParseMsg>))
      requires WfDescriptionHeader(t)
      ensures r.1 == FilterMsgs(t.children).1
    {
      var (comments, msgs) := FilterMsgs(t.children);
      FilterMsgsFromInput(t.children);
      assert forall i :: 0 <= i < |comments| ==> comments[i] in t.children;
      (DescriptionHeader(Join(CommentContents(comments), '\n')), msgs)
    }

    /** `name_line`: the name, and the warning for leading whitespace if any. */
    function VisitNameLine(t: Node): (r: (string, seq<ParseMsg>))
      requires WfNameLine(t)
      ensures r.0 == Elems(t.children)[0].data.s
      ensures r.1 == FilterMsgs(t.children).1
    {
      var (elems, msgs) := FilterMsgs(t.children);
      (elems[0].data.s, msgs)
    }

    /** `dimensions_valid`: rows and columns as declared; an ERROR on the column token when
        fewer columns are declared than the minimum. */
    function VisitDimensionsValid(t: Node): (r: ((int, int), seq<ParseMsg>))
      requires WfDimensionsValid(t)
      ensures r.0 == (t.children[0].data.n, t.children[1].data.n)
      ensures |r.1| == (if r.0.1 < minCols then 1 else 0)
      ensures forall m <- r.1 :: m == MessageFromTokens([t.children[1].token], Error, TooFewColumnsReason)
    {
      var nRows := t.children[0].data.n;
      var nColumns := t.children[1].data.n;
      var msgs :=
        if nColumns < minCols then [MessageFromTokens([t.children[1].token], Error, TooFewColumnsReason)]
        else [];
      ((nRows, nColumns), msgs)
    }

    /** `dimensions_exceeding_columns`: the valid prefix's result, plus one WARNING on the
        first excess integer. */
    function VisitDimensionsExceedingColumns(t: Node): (r: ((int, int), seq<ParseMsg>))
      requires WfDimensionsExceedingColumns(t)
      ensures r.0 == VisitDimensionsValid(t.children[0]).0
      ensures |r.1| == |VisitDimensionsValid(t.children[0]).1| + 1
      ensures r.1[..|r.1| - 1] == VisitDimensionsValid(t.children[0]).1
      ensures r.1[|r.1| - 1] == MessageFromTokens([t.children[1].token], Warning, ExcessColumnsReason)
    {
      var (result, msgs) := VisitDimensionsValid(t.children[0]);
      (result, msgs + [MessageFromTokens([t.children[1].token], Warning, ExcessColumnsReason)])
    }

    /** `dimensions_missing_column`: the rows, -1 for the unknown columns, and one ERROR. */
    function VisitDimensionsMissingColumn(t: Node): (r: ((int, int), seq<ParseMsg>))
      requires WfDimensionsMissingColumn(t)
      ensures r.0 == (t.children[0].data.n, -1)
      ensures |r.1| == 1 && r.1[0].level == Error
      ensures r.1[0] == MessageFromTokens([t.children[0].token], Error, MissingColumnReason)
    {
      ((t.children[0].data.n, -1), [MessageFromTokens([t.children[0].token], Error, MissingColumnReason)])
    }

    /** The visit of whichever dimensions rule the line matched. The rows are always the first
        integer; the columns are the second integer, or -1 when there is none; there is exactly
        one ERROR when the columns are missing or below the minimum, and none otherwise. */
    function VisitDimensions(t: Node): (r: ((int, int), seq<ParseMsg>))
      requires WfDimensions(t)
      ensures r.0.0 == DeclaredRows(t)
      ensures r.0.1 == if DeclaredColumns(t).None? then -1 else DeclaredColumns(t).value
      ensures ErrorCount(r.1)
           == if DeclaredColumns(t).None? || DeclaredColumns(t).value < minCols then 1 else 0
    {
      if t.rule == DimensionsValidRule then VisitDimensionsValid(t)
      else if t.rule == DimensionsMissingColumnRule then VisitDimensionsMissingColumn(t)
      else
        var r := VisitDimensionsExceedingColumns(t);
        var prefix := VisitDimensionsValid(t.children[0]).1;
        assert r.1 == prefix + [r.1[|r.1| - 1]];
        ErrorCountConcat(prefix, [r.1[|r.1| - 1]]);
        r
    }

    /** `dimensions_line`: the dimensions and their messages, followed by one WARNING spanning
        the leading whitespace when there is any. */
    function VisitDimensionsLine(t: Node): (r: ((int, int), seq<ParseMsg>))
      requires WfDimensionsLine(t)
      ensures var (dims, msgs) := VisitDimensions(t.children[|t.children| - 1]);
              && r.0 == dims
              && |r.1| == |msgs| + (if |t.children| > 1 then 1 else 0)
              && r.1[..|msgs|] == msgs
              && (|t.children| > 1 ==>
                    r.1[|msgs|] == ParseMsg(Warning, t.children[0].msg.line, t.children[0].msg.column,
                                            LeadingWhitespaceReason))
    {
      var (result, msgs) := VisitDimensions(t.children[|t.children| - 1]);
      if |t.children| > 1 then
        var ws := t.children[0].msg;
        (result, msgs + [ParseMsg(Warning, ws.line, ws.column, LeadingWhitespaceReason)])
      else
        (result, msgs)
    }

    /** `metadata`: the name from the name line and the rows and columns from the dimensions
        line; messages are the metadata's own (blank lines), then the name line's, then the
        dimensions line's. */
    function VisitMetadata(t: Node): (r: (Metadata, seq<ParseMsg>))
      requires WfMetadata(t)
      ensures var es := Elems(t.children);
              && r.0.name == VisitNameLine(es[0]).0
              && (r.0.nRows, r.0.nColumns) == VisitDimensionsLine(es[1]).0
              && r.1 == FilterMsgs(t.children).1 + VisitNameLine(es[0]).1 + VisitDimensionsLine(es[1]).1
    {
      var (elems, msgs) := FilterMsgs(t.children);
      var (name, nameMsgs) := VisitNameLine(elems[0]);
      var (dims, dimensionsMsgs) := VisitDimensionsLine(elems[1]);
      (Metadata(name, dims.0, dims.1), msgs + nameMsgs + dimensionsMsgs)
    }

    /** `point`: a point from the row's values, whatever their number. `z` is the third value
        when z values are configured and present; `data` is what lies beyond the minimum
        column count. One ERROR spanning the row when the number of values differs from the
        expected number of columns. */
    function VisitPoint(t: Node): (r: (Point, seq<ParseMsg>))
      reads this
      requires WfPoint(t)
      ensures var values := FloatValues(t.children);
              && r.0.x == values[0] && r.0.y == values[1]
              && r.0.z == (if hasZ && |values| >= 3 then Some(values[2]) else None)
              && |r.0.data| == (if |values| >= minCols then |values| - minCols else 0)
              && Coordinates(r.0) == values
      ensures r.1 == if |t.children| == expectedCols then []
                     else [MessageFromTokens(LiteralTokens(t.children), Error,
                                             if |t.children| < expectedCols then MissingPointDataReason
                                             else ExcessPointDataReason)]
    {
      PointValuesAreLiterals(t);
      var values := FloatValues(t.children);
      var tokens := LiteralTokens(t.children);
      assert |tokens| == |t.children| == |values|;
      (PointOf(values), ColumnCountMessages(tokens))
    }

    /** The point built from a row's values: `z` is the third value when z values are
        configured and present, `data` is what lies beyond the minimum column count. */
    function PointOf(values: seq<real>): (p: Point)
      requires |values| >= 2
      ensures p.x == values[0] && p.y == values[1]
      ensures p.z == (if hasZ && |values| >= 3 then Some(values[2]) else None)
      ensures |p.data| == (if |values| >= minCols then |values| - minCols else 0)
      ensures Coordinates(p) == values
    {
      var n := |values|;
      var z := if hasZ && n >= 3 then Some(values[2]) else None;
      var data := if minCols <= n then values[minCols..] else [];
      var p := Point(values[0], values[1], z, data);
      assert Coordinates(p) == values by {
        if z.Some? {
          assert values == [values[0], values[1]] + [values[2]] + values[3..];
        } else if minCols <= n {
          assert values == [values[0], values[1]] + [] + values[2..];
        } else {
          assert values == [values[0], values[1]] + [] + [];
        }
      }
      p
    }

    /** The check of a row's value count against the expected column count: one ERROR, built
        from the row's first and last tokens, when they differ. */
    function ColumnCountMessages(row: seq<Token>): (msgs: seq<ParseMsg>)
      reads this
      requires |row| >= 1
      ensures msgs == if |row| == expectedCols then []
                      else [MessageFromTokens(row, Error,
                                              if |row| < expectedCols then MissingPointDataReason
                                              else ExcessPointDataReason)]
    {
      var span := [row[0], row[|row| - 1]];
      MessageUsesEndTokens(row, Error, MissingPointDataReason);
      MessageUsesEndTokens(row, Error, ExcessPointDataReason);
      if |row| < expectedCols then [MessageFromTokens(span, Error, MissingPointDataReason)]
      else if |row| > expectedCols then [MessageFromTokens(span, Error, ExcessPointDataReason)]
      else []
    }

    /** `point_invalid`: no point, and one ERROR on the single value. */
    function VisitPointInvalid(t: Node): (r: (Option<Point>, seq<ParseMsg>))
      requires WfPointInvalid(t)
      ensures r.0 == None
      ensures r.1 == [MessageFromTokens([t.children[0].token], Error, SingleValueReason)]
    {
      (None, [MessageFromTokens([t.children[0].token], Error, SingleValueReason)])
    }

    /** The visit of a points row, which is either a `point` or a `point_invalid`. */
    function VisitPointLine(t: Node): (r: (Option<Point>, seq<ParseMsg>))
      reads this
      requires WfPointRow(t)
      ensures r.0.Some? <==> t.rule == PointRule
      ensures ErrorCount(r.1) == |r.1|
    {
      if t.rule == PointRule then
        var (p, msgs) := VisitPoint(t);
        (Some(p), msgs)
      else
        VisitPointInvalid(t)
    }

    /** The points and the messages of a run of rows, rows visited left to right. */
    function PointRows(rows: seq<Node>): (r: (seq<Point>, seq<ParseMsg>))
      reads this
      requires forall i :: 0 <= i < |rows| ==> WfPointRow(rows[i])
      ensures |r.0| <= |rows|
    {
      if rows == [] then ([], [])
      else
        var init := PointRows(rows[..|rows| - 1]);
        var (p, msgs) := VisitPointLine(rows[|rows| - 1]);
        (init.0 + (if p.Some? then [p.value] else []), init.1 + msgs)
    }

    /** Visiting one more row appends that row's point, if any, and its messages, also when
        the messages are collected behind earlier ones. */
    lemma PointRowsStep(rows: seq<Node>, i: nat, own: seq<ParseMsg>)
      requires forall j :: 0 <= j < |rows| ==> WfPointRow(rows[j])
      requires i < |rows|
      ensures PointRows(rows[..i + 1]).0
           == PointRows(rows[..i]).0
              + (if VisitPointLine(rows[i]).0.Some? then [VisitPointLine(rows[i]).0.value] else [])
      ensures own + PointRows(rows[..i + 1]).1 == own + PointRows(rows[..i]).1 + VisitPointLine(rows[i]).1
    {
      assert rows[..i + 1][..i] == rows[..i];
      var msgs := VisitPointLine(rows[i]).1;
      assert own + (PointRows(rows[..i]).1 + msgs) == own + PointRows(rows[..i]).1 + msgs;
    }

    /** A non-empty run of rows: the run without its last row, then the last row. */
    lemma PointRowsLast(rows: seq<Node>)
      requires forall j :: 0 <= j < |rows| ==> WfPointRow(rows[j])
      requires rows != []
      ensures PointRows(rows).0
           == PointRows(rows[..|rows| - 1]).0
              + (if VisitPointLine(rows[|rows| - 1]).0.Some? then [VisitPointLine(rows[|rows| - 1]).0.value] else [])
      ensures PointRows(rows).1 == PointRows(rows[..|rows| - 1]).1 + VisitPointLine(rows[|rows| - 1]).1
    {
    }

    /** What `points` computes: the points of its rows, and its own blank-line warnings
        followed by the rows' messages. */
    function PointsResult(t: Node): (r: (seq<Point>, seq<ParseMsg>))
      reads this
      requires WfPoints(t)
      ensures |r.0| <= |Elems(t.children)|
      ensures FilterMsgs(t.children).1 <= r.1
    {
      var (elems, msgs) := FilterMsgs(t.children);
      var rows := PointRows(elems);
      (rows.0, msgs + rows.1)
    }

    /** `points`: visits each row in turn, keeping the points it constructs and collecting
        every message. */
    method VisitPoints(t: Node) returns (points: seq<Point>, msgs: seq<ParseMsg>)
      requires WfPoints(t)
      ensures (points, msgs) == PointsResult(t)
    {
      var elems := FilterMsgs(t.children).0;
      var own := FilterMsgs(t.children).1;
      PointsRowsWellFormed(t);
      points, msgs := [], own;
      var i := 0;
      while i < |elems|
        invariant 0 <= i <= |elems|
        invariant points == PointRows(elems[..i]).0
        invariant msgs == own + PointRows(elems[..i]).1
      {
        var row := VisitPointLine(elems[i]);
        PointRowsStep(elems, i, own);
        if row.0.Some? {
          points := points + [row.0.value];
        }
        if row.1 != [] {
          msgs := msgs + row.1;
        }
        i := i + 1;
      }
      assert elems[..i] == elems;
    }

    /** `poly_block`: one block from its optional description, its metadata and its points.
        Messages are the block's own, then the description's, the metadata's and the points'. */
    method VisitPolyBlock(t: Node) returns (block: PolyObject, msgs: seq<ParseMsg>)
      requires WfPolyBlock(t)
      ensures var es := Elems(t.children);
              var n := |es|;
              && block.description == (if n == 3 then Some(VisitDescriptionHeader(es[0]).0) else None)
              && block.metadata == VisitMetadata(es[n - 2]).0
              && block.points == PointsResult(es[n - 1]).0
              && msgs == FilterMsgs(t.children).1
                         + (if n == 3 then VisitDescriptionHeader(es[0]).1 else [])
                         + VisitMetadata(es[n - 2]).1
                         + PointsResult(es[n - 1]).1
    {
      var elems := FilterMsgs(t.children).0;
      msgs := FilterMsgs(t.children).1;
      var description: Option<DescriptionHeader> := None;
      var descriptionMsgs: seq<ParseMsg> := [];
      if |elems| == 3 {
        var (header, headerMsgs) := VisitDescriptionHeader(elems[0]);
        description, descriptionMsgs := Some(header), headerMsgs;
      }
      var (metadata, metadataMsgs) := VisitMetadata(elems[|elems| - 2]);
      var points, pointMsgs := VisitPoints(elems[|elems| - 1]);
      msgs := msgs + descriptionMsgs;
      msgs := msgs + metadataMsgs;
      msgs := msgs + pointMsgs;
      block := PolyObject(description, metadata, points);
    }

    /** `invalid_block`: a single ERROR spanning the whole block, from where its first child
        starts to where its INVALID_BLOCK token ends. */
    function VisitInvalidBlock(t: Node): (m: ParseMsg)
      requires WfInvalidBlock(t)
      ensures m.level == Error && m.reason == InvalidBlockReason
      ensures StartOf(t).Some? && (m.line.0, m.column.0) == StartOf(t).value
      ensures var last := t.children[|t.children| - 1].token;
              (m.line.1, m.column.1) == (last.endLine, last.endColumn)
    {
      InvalidBlockHasStart(t);
      var start := StartOf(t.children[0]).value;
      var last := t.children[|t.children| - 1].token;
      ParseMsg(Error, (start.0, last.endLine), (start.1, last.endColumn), InvalidBlockReason)
    }
  }
}
