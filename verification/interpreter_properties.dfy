/** Properties of the interpreter that relate several rule handlers, or one handler across
    all its inputs. */
module PolyFileProperties {
  import opened Wrappers
  import opened Diagnostics
  import opened Text
  import opened ParseTree
  import opened Domain
  import opened PolyFile

  /** Filtering is a homomorphism over concatenation: each child lands in exactly one part,
      and the relative order within each part is that of the input. */
  lemma {:induction false} FilterMsgsConcat(a: seq<Node>, b: seq<Node>)
    ensures PolyFileInterpreter.FilterMsgs(a + b).0
         == PolyFileInterpreter.FilterMsgs(a).0 + PolyFileInterpreter.FilterMsgs(b).0
    ensures PolyFileInterpreter.FilterMsgs(a + b).1
         == PolyFileInterpreter.FilterMsgs(a).1 + PolyFileInterpreter.FilterMsgs(b).1
  {
    if a == [] {
      assert a + b == b;
    } else {
      var ab := a + b;
      assert ab != [] && ab[0] == a[0] && ab[1..] == a[1..] + b;
      FilterMsgsConcat(a[1..], b);
      var ra, rb := PolyFileInterpreter.FilterMsgs(a[1..]), PolyFileInterpreter.FilterMsgs(b);
      var rest := PolyFileInterpreter.FilterMsgs(ab[1..]);
      assert rest == (ra.0 + rb.0, ra.1 + rb.1);
      if a[0].Message? {
        assert PolyFileInterpreter.FilterMsgs(ab) == (rest.0, [a[0].msg] + rest.1);
        assert PolyFileInterpreter.FilterMsgs(a) == (ra.0, [a[0].msg] + ra.1);
        assert [a[0].msg] + (ra.1 + rb.1) == ([a[0].msg] + ra.1) + rb.1;
      } else {
        assert PolyFileInterpreter.FilterMsgs(ab) == ([a[0]] + rest.0, rest.1);
        assert PolyFileInterpreter.FilterMsgs(a) == ([a[0]] + ra.0, ra.1);
        assert [a[0]] + (ra.0 + rb.0) == ([a[0]] + ra.0) + rb.0;
      }
    }
  }

  /** Children without messages pass through the filter unchanged. */
  lemma {:induction false} FilterMsgsWithoutMessages(input: seq<Node>)
    requires forall i :: 0 <= i < |input| ==> !input[i].Message?
    ensures PolyFileInterpreter.FilterMsgs(input) == (input, [])
  {
    if input != [] {
      FilterMsgsWithoutMessages(input[1..]);
      assert [input[0]] + input[1..] == input;
    }
  }

  /** A child that is not a message stays as it is; a message contributes its `ParseMsg`. */
  lemma FilterMsgsSingle(n: Node)
    ensures PolyFileInterpreter.FilterMsgs([n])
         == if n.Message? then ([], [n.msg]) else ([n], [])
  {
    assert [n][1..] == [];
    var rest := PolyFileInterpreter.FilterMsgs([]);
    assert rest == ([], []);
    if n.Message? {
      assert PolyFileInterpreter.FilterMsgs([n]) == (rest.0, [n.msg] + rest.1);
      assert [n.msg] + rest.1 == [n.msg];
    } else {
      assert PolyFileInterpreter.FilterMsgs([n]) == ([n] + rest.0, rest.1);
      assert [n] + rest.0 == [n];
    }
  }

  /** The description's content splits back, at the newlines, into the comment lines it was
      joined from. */
  lemma DescriptionHeaderLines(interp: PolyFileInterpreter, t: Node)
    requires WfDescriptionHeader(t)
    requires |Elems(t.children)| >= 1
    requires forall c <- Elems(t.children) :: c.Comment? && '\n' !in c.content
    ensures Split(interp.VisitDescriptionHeader(t).0.content, '\n') == CommentContents(Elems(t.children))
  {
    var lines := CommentContents(Elems(t.children));
    assert forall i :: 0 <= i < |lines| ==> '\n' !in lines[i] by {
      forall i | 0 <= i < |lines| ensures '\n' !in lines[i] {
        assert Elems(t.children)[i] in Elems(t.children);
      }
    }
    SplitJoin(lines, '\n');
  }

  /** The messages a node passes up unchanged from its children are warnings when its tree
      holds warnings only. */
  lemma FilteredWarnings(t: Node)
    requires t.Tree? && WarningsOnly(t)
    ensures forall m <- PolyFileInterpreter.FilterMsgs(t.children).1 :: m.level == Warning
    ensures forall e <- Elems(t.children) :: WarningsOnly(e)
    ensures ErrorCount(PolyFileInterpreter.FilterMsgs(t.children).1) == 0
  {
    var msgs := PolyFileInterpreter.FilterMsgs(t.children).1;
    FilterMsgsFromInput(t.children);
    forall i | 0 <= i < |msgs| ensures msgs[i].level == Warning {
      assert Message(msgs[i]) in t.children;
    }
    ErrorCountOfWarnings(msgs);
  }

  /** Metadata records the name, the declared rows and the declared columns (-1 when missing),
      and carries exactly one ERROR when the columns are missing or below the minimum, none
      otherwise: blank lines and whitespace only ever add warnings. */
  lemma MetadataDeclaresDimensions(interp: PolyFileInterpreter, t: Node)
    requires WfMetadata(t) && WarningsOnly(t)
    ensures var es := Elems(t.children);
            var dims := es[1].children[|es[1].children| - 1];
            var (md, msgs) := interp.VisitMetadata(t);
            && md.name == Elems(es[0].children)[0].data.s
            && md.nRows == DeclaredRows(dims)
            && md.nColumns == (if DeclaredColumns(dims).None? then -1 else DeclaredColumns(dims).value)
            && ErrorCount(msgs)
               == (if DeclaredColumns(dims).None? || DeclaredColumns(dims).value < interp.minCols then 1 else 0)
  {
    var es := Elems(t.children);
    var nameLine, dimsLine := es[0], es[1];
    var dims := dimsLine.children[|dimsLine.children| - 1];
    FilteredWarnings(t);
    assert WarningsOnly(nameLine) && WarningsOnly(dimsLine);
    FilteredWarnings(nameLine);
    var own := PolyFileInterpreter.FilterMsgs(t.children).1;
    var nameMsgs := interp.VisitNameLine(nameLine).1;
    var dimsMsgs := interp.VisitDimensions(dims).1;
    var lineMsgs := interp.VisitDimensionsLine(dimsLine).1;
    var extra := lineMsgs[|dimsMsgs|..];
    assert lineMsgs == dimsMsgs + extra;
    ErrorCountOfWarnings(extra);
    ErrorCountConcat(dimsMsgs, extra);
    ErrorCountConcat(own, nameMsgs);
    ErrorCountConcat(own + nameMsgs, lineMsgs);
  }

  predicate IsPointRow(n: Node) { n.Tree? && n.rule == PointRule }

  /** The number of rows that are well-formed points (two or more values). */
  function PointRowCount(rows: seq<Node>): nat
  {
    if rows == [] then 0
    else PointRowCount(rows[..|rows| - 1]) + (if IsPointRow(rows[|rows| - 1]) then 1 else 0)
  }

  /** The number of rows that are flagged: single values, and points whose number of values
      differs from the expected number of columns. */
  function FlaggedRowCount(rows: seq<Node>, expected: int): nat
  {
    if rows == [] then 0
    else
      var last := rows[|rows| - 1];
      FlaggedRowCount(rows[..|rows| - 1], expected)
      + (if !IsPointRow(last) || |last.children| != expected then 1 else 0)
  }

  /** Every point row gives exactly one point and every single-value row is skipped. */
  lemma {:induction false} PointRowsKeepPointRows(interp: PolyFileInterpreter, rows: seq<Node>)
    requires forall i :: 0 <= i < |rows| ==> WfPointRow(rows[i])
    ensures |interp.PointRows(rows).0| == PointRowCount(rows)
  {
    if rows != [] {
      var init, last := rows[..|rows| - 1], rows[|rows| - 1];
      PointRowsKeepPointRows(interp, init);
      var p := interp.VisitPointLine(last).0;
      assert interp.PointRows(rows).0 == interp.PointRows(init).0 + (if p.Some? then [p.value] else []);
    }
  }

  /** Every flagged row contributes exactly one ERROR and every other row none. */
  lemma {:induction false} PointRowsFlagRows(interp: PolyFileInterpreter, rows: seq<Node>)
    requires forall i :: 0 <= i < |rows| ==> WfPointRow(rows[i])
    ensures ErrorCount(interp.PointRows(rows).1) == FlaggedRowCount(rows, interp.expectedCols)
  {
    if rows != [] {
      var init := rows[..|rows| - 1];
      var last := rows[|rows| - 1];
      PointRowsFlagRows(interp, init);
      ErrorCountConcat(interp.PointRows(init).1, interp.VisitPointLine(last).1);
    }
  }

  lemma AppendAssociates<T>(a: seq<T>, b: seq<T>, c: seq<T>)
    ensures (a + b) + c == a + (b + c)
  {
  }

  /** A single row gives its own point, if it has one, and its own messages. */
  lemma PointRowsSingle(interp: PolyFileInterpreter, n: Node)
    requires WfPointRow(n)
    ensures interp.PointRows([n]).0
         == if interp.VisitPointLine(n).0.Some? then [interp.VisitPointLine(n).0.value] else []
    ensures interp.PointRows([n]).1 == interp.VisitPointLine(n).1
  {
    assert [n][..0] == [];
  }

  /** Rows are read left to right and independently: the points and the messages of two runs
      of rows, one after the other, are those of the first run followed by those of the
      second. With `PointRowsSingle`, the points are those of the point rows in row order,
      with the single-value rows skipped. */
  lemma {:induction false} PointRowsConcat(interp: PolyFileInterpreter, a: seq<Node>, b: seq<Node>)
    requires forall i :: 0 <= i < |a| ==> WfPointRow(a[i])
    requires forall i :: 0 <= i < |b| ==> WfPointRow(b[i])
    ensures interp.PointRows(a + b).0 == interp.PointRows(a).0 + interp.PointRows(b).0
    ensures interp.PointRows(a + b).1 == interp.PointRows(a).1 + interp.PointRows(b).1
  {
    var ab := a + b;
    assert forall i :: 0 <= i < |ab| ==> WfPointRow(ab[i]) by {
      forall i | 0 <= i < |ab| ensures WfPointRow(ab[i]) {
        if i < |a| { assert ab[i] == a[i]; } else { assert ab[i] == b[i - |a|]; }
      }
    }
    if b == [] {
      assert ab == a;
    } else {
      var init := b[..|b| - 1];
      assert ab[..|ab| - 1] == a + init;
      assert ab[|ab| - 1] == b[|b| - 1];
      PointRowsConcat(interp, a, init);
      interp.PointRowsLast(ab);
      interp.PointRowsLast(b);
      var row := interp.VisitPointLine(b[|b| - 1]);
      var extra := if row.0.Some? then [row.0.value] else [];
      var msgs := row.1;
      var ra, ri := interp.PointRows(a), interp.PointRows(init);
      AppendAssociates(ra.0, ri.0, extra);
      AppendAssociates(ra.1, ri.1, msgs);
    }
  }

  /** A whole points block: as many points as point rows, and as many errors as flagged rows
      (its own blank-line messages are warnings). */
  lemma PointsCounts(interp: PolyFileInterpreter, t: Node)
    requires WfPoints(t) && WarningsOnly(t)
    ensures |interp.PointsResult(t).0| == PointRowCount(Elems(t.children))
    ensures ErrorCount(interp.PointsResult(t).1) == FlaggedRowCount(Elems(t.children), interp.expectedCols)
  {
    var es := Elems(t.children);
    FilteredWarnings(t);
    PointRowsKeepPointRows(interp, es);
    PointRowsFlagRows(interp, es);
    ErrorCountConcat(PolyFileInterpreter.FilterMsgs(t.children).1, interp.PointRows(es).1);
  }

  /** Interpretation depends on the configuration only: two interpreters with the same z
      setting and the same expected column count read the same rows the same way. */
  lemma {:induction false} SameConfigurationSameRows(a: PolyFileInterpreter, b: PolyFileInterpreter, rows: seq<Node>)
    requires a.hasZ == b.hasZ && a.expectedCols == b.expectedCols
    requires forall i :: 0 <= i < |rows| ==> WfPointRow(rows[i])
    ensures a.PointRows(rows) == b.PointRows(rows)
  {
    if rows != [] {
      SameConfigurationSameRows(a, b, rows[..|rows| - 1]);
    }
  }
}
