/** The literal transformer: a per-token rewrite of the raw parse tree. Comments become comment
    lines, blank-line runs and stray whitespace become WARNING messages, and NAME, INT and FLOAT
    tokens become literals that keep their token for later span reporting.
    Turning token text into numbers is done by the host language; here the two conversions are
    parameters. */
module LiteralTransformer {
  import opened Diagnostics
  import opened Text
  import opened ParseTree

  /** The rewrite of one token. */
  function TransformToken(t: Token, parseInt: string -> int, parseFloat: string -> real): (n: Node)
    ensures n.Message? <==> t.kind == Whitespace || t.kind == EmptyLines
    ensures n.Message? ==>
      n.msg.level == Warning && n.msg.line == (t.line, t.endLine) && n.msg.column == (t.column, t.endColumn)
    ensures t.kind == EmptyLines ==> n.msg.reason == EmptyLinesReason
    ensures t.kind == Whitespace ==> n.msg.reason == WhitespaceReason
    ensures n.Comment? <==> t.kind == CommentText
    ensures n.Comment? ==> n.content == RStrip(DropFirst(t.text))
    ensures n.Comment? ==>
      n.content <= DropFirst(t.text) && (n.content == [] || !IsSpace(n.content[|n.content| - 1]))
    ensures n.Literal? <==> t.kind in {NameText, IntText, FloatText}
    ensures t.kind == NameText ==> n == Literal(t, StrValue(t.text))
    ensures t.kind == IntText ==> n == Literal(t, IntValue(parseInt(t.text)))
    ensures t.kind == FloatText ==> n == Literal(t, FloatValue(parseFloat(t.text)))
    ensures n.Raw? <==> t.kind == InvalidBlockText
  {
    match t.kind
    case CommentText => Comment(RStrip(DropFirst(t.text)))
    case EmptyLines => Message(MessageFromTokens([t], Warning, EmptyLinesReason))
    case Whitespace => Message(MessageFromTokens([t], Warning, WhitespaceReason))
    case NameText => Literal(t, StrValue(t.text))
    case IntText => Literal(t, IntValue(parseInt(t.text)))
    case FloatText => Literal(t, FloatValue(parseFloat(t.text)))
    case InvalidBlockText => Raw(t)
  }

  /** The transformer applied to a whole tree: rule nodes are kept, leaves are rewritten. */
  function Transform(t: RawTree, parseInt: string -> int, parseFloat: string -> real): (n: Node)
    ensures t.Branch? <==> n.Tree?
    ensures t.Branch? ==> n.rule == t.rule && |n.children| == |t.children|
  {
    match t
    case Leaf(tok) => TransformToken(tok, parseInt, parseFloat)
    case Branch(rule, cs) =>
      Tree(rule, seq(|cs|, i requires 0 <= i < |cs| => Transform(cs[i], parseInt, parseFloat)))
  }

  /** `Flatten` distributes over a pointwise map. */
  lemma {:induction false} FlattenMap(parts: seq<seq<Token>>, f: Token -> Node)
    ensures Flatten(seq(|parts|, i requires 0 <= i < |parts| => Map(parts[i], f))) == Map(Flatten(parts), f)
  {
    if parts != [] {
      var mapped := seq(|parts|, i requires 0 <= i < |parts| => Map(parts[i], f));
      FlattenMap(parts[1..], f);
      assert mapped[1..] == seq(|parts[1..]|, i requires 0 <= i < |parts[1..]| => Map(parts[1..][i], f));
      MapConcat(parts[0], Flatten(parts[1..]), f);
    }
  }

  function Map(ts: seq<Token>, f: Token -> Node): (r: seq<Node>)
    ensures |r| == |ts| && forall i :: 0 <= i < |ts| ==> r[i] == f(ts[i])
  {
    seq(|ts|, i requires 0 <= i < |ts| => f(ts[i]))
  }

  lemma MapConcat(a: seq<Token>, b: seq<Token>, f: Token -> Node)
    ensures Map(a + b, f) == Map(a, f) + Map(b, f)
  {
  }

  /** A comment line keeps the text after its marker character up to, and excluding, its
      trailing whitespace: exactly the text the writer put there. */
  lemma CommentContent(t: Token, content: string, pad: string, parseInt: string -> int, parseFloat: string -> real)
    requires t.kind == CommentText && |t.text| > 0 && t.text[1..] == content + pad
    requires content == [] || !IsSpace(content[|content| - 1])
    requires forall i :: 0 <= i < |pad| ==> IsSpace(pad[i])
    ensures TransformToken(t, parseInt, parseFloat) == Comment(content)
  {
    RStripPadded(content, pad);
  }

  /** The transformer is a per-token rewrite: the leaves of the transformed tree are exactly
      the rewrites of the raw tree's tokens, in order, whatever the tree's shape. */
  lemma {:induction false} TransformRewritesEachToken(t: RawTree, parseInt: string -> int, parseFloat: string -> real)
    ensures Leaves(Transform(t, parseInt, parseFloat))
         == Map(Tokens(t), tok => TransformToken(tok, parseInt, parseFloat))
  {
    var f := tok => TransformToken(tok, parseInt, parseFloat);
    match t
    case Leaf(tok) =>
      assert !Transform(t, parseInt, parseFloat).Tree?;
    case Branch(rule, cs) =>
      var n := Transform(t, parseInt, parseFloat);
      var tokenParts := seq(|cs|, i requires 0 <= i < |cs| => Tokens(cs[i]));
      var leafParts := seq(|n.children|, i requires 0 <= i < |n.children| => Leaves(n.children[i]));
      forall i | 0 <= i < |cs|
        ensures leafParts[i] == Map(tokenParts[i], f)
      {
        TransformRewritesEachToken(cs[i], parseInt, parseFloat);
      }
      assert leafParts == seq(|tokenParts|, i requires 0 <= i < |tokenParts| => Map(tokenParts[i], f));
      FlattenMap(tokenParts, f);
  }

  /** The transformer only ever produces WARNING messages: comments, names and numbers cannot
      be erroneous at this stage. */
  lemma {:induction false} TransformWarnsOnly(t: RawTree, parseInt: string -> int, parseFloat: string -> real)
    ensures WarningsOnly(Transform(t, parseInt, parseFloat))
  {
    match t
    case Leaf(tok) =>
    case Branch(rule, cs) =>
      var n := Transform(t, parseInt, parseFloat);
      forall i | 0 <= i < |n.children|
        ensures WarningsOnly(n.children[i])
      {
        TransformWarnsOnly(cs[i], parseInt, parseFloat);
      }
  }
}
