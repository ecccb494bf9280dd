/** The parse trees the reader works on: the raw tree the parser builds (rules over tokens)
    and the transformed tree in which every leaf token has been rewritten into a literal value,
    a comment line or a parse message. */
module ParseTree {
  import opened Wrappers
  import opened Diagnostics

  /** The grammar rules that appear as tree nodes (`comment_line` and `point_line` are inlined). */
  datatype Rule =
    | DescriptionHeaderRule
    | NameLineRule
    | DimensionsLineRule
    | DimensionsValidRule
    | DimensionsMissingColumnRule
    | DimensionsExceedingColumnsRule
    | MetadataRule
    | PointRule
    | PointInvalidRule
    | PointsRule
    | PolyBlockRule
    | InvalidBlockRule
    | PolyFileRule

  /** The tree as the parser builds it. */
  datatype RawTree = Branch(rule: Rule, children: seq<RawTree>) | Leaf(token: Token)

  /** The parsed value of a NAME, INT or FLOAT token. */
  datatype LiteralValue = StrValue(s: string) | IntValue(n: int) | FloatValue(r: real)

  /** The tree after the literal transformer. One constructor per kind of child the
      interpreter meets: a subtree, a literal with its token (`TokenData`), a comment line
      (`CommentLine`), a message (`ParseMsg`), or a token no callback rewrites. */
  datatype Node =
    | Tree(rule: Rule, children: seq<Node>)
    | Literal(token: Token, data: LiteralValue)
    | Comment(content: string)
    | Message(msg: ParseMsg)
    | Raw(token: Token)

  function Flatten<T>(parts: seq<seq<T>>): seq<T>
  {
    if parts == [] then [] else parts[0] + Flatten(parts[1..])
  }

  /** The tokens of a raw tree, left to right. */
  function Tokens(t: RawTree): seq<Token>
  {
    match t
    case Leaf(tok) => [tok]
    case Branch(_, cs) => Flatten(seq(|cs|, i requires 0 <= i < |cs| => Tokens(cs[i])))
  }

  /** The leaves (every node that is not a subtree) of a transformed tree, left to right. */
  function Leaves(n: Node): seq<Node>
  {
    match n
    case Tree(_, cs) => Flatten(seq(|cs|, i requires 0 <= i < |cs| => Leaves(cs[i])))
    case _ => [n]
  }

  /** Every message in the tree is a WARNING (true of every tree the transformer builds). */
  predicate WarningsOnly(n: Node)
  {
    match n
    case Message(m) => m.level == Warning
    case Tree(_, cs) => forall i :: 0 <= i < |cs| ==> WarningsOnly(cs[i])
    case _ => true
  }

  /** Where a node starts in the source: its first token or message. Comment lines carry no position. */
  function StartOf(n: Node): Option<(int, int)>
  {
    match n
    case Literal(tok, _) => Some((tok.line, tok.column))
    case Raw(tok) => Some((tok.line, tok.column))
    case Message(m) => Some((m.line.0, m.column.0))
    case Comment(_) => None
    case Tree(_, cs) => if cs == [] then None else StartOf(cs[0])
  }
}
