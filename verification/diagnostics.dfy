/** The diagnostic model of the polyfile reader: tokens with their source spans,
    severities, parse messages and the helper that builds a message from tokens. */
module Diagnostics {

  /** Severity of a parse message, most urgent first (FATAL = 0 ... INFO = 3). */
  datatype ParseErrorLevel = Fatal | Error | Warning | Info

  /** The terminals that can survive into a parse tree (all others are filtered by the grammar). */
  datatype TokenKind = Whitespace | EmptyLines | CommentText | NameText | IntText | FloatText | InvalidBlockText

  /** A lexical token: its terminal, its text and its span. Lines and columns are 1-based;
      `endLine`/`endColumn` denote the position just after the last character. */
  datatype Token = Token(kind: TokenKind, text: string, line: int, column: int, endLine: int, endColumn: int)

  /** An irregularity found while reading a polyfile, with the lines and columns it spans. */
  datatype ParseMsg = ParseMsg(level: ParseErrorLevel, line: (int, int), column: (int, int), reason: Reason)

  /** The reasons the reader attaches to its messages; `Text` gives the wording of each. */
  datatype Reason =
    | EmptyLinesReason
    | WhitespaceReason
    | LeadingWhitespaceReason
    | TooFewColumnsReason
    | ExcessColumnsReason
    | MissingColumnReason
    | MissingPointDataReason
    | ExcessPointDataReason
    | SingleValueReason
    | InvalidBlockReason
  {
    function Text(): string
    {
      match this
      case EmptyLinesReason => "Unexpected empty lines will be ignored."
      case WhitespaceReason => "Unexpected empty whitespace will be ignored."
      case LeadingWhitespaceReason => "Whitespace at the beginning of the dimensions is ignored."
      case TooFewColumnsReason => "The number of specified columns is smaller than the minimum expected number."
      case ExcessColumnsReason => "Too many columns specified, the excess columns will be ignored."
      case MissingColumnReason => "Only one dimension is specified, the number of columns will not be validated"
      case MissingPointDataReason => "Not as many columns provided as specified, the created point will be missing data."
      case ExcessPointDataReason => "Too many columns provided as specified, the created point will contain too much data."
      case SingleValueReason => "No point can be constructed from only a single value, row will be skipped"
      case InvalidBlockReason => "Invalid block of data will be ignored."
    }
  }

  /** A message whose span starts where the first token starts and ends where the last token ends. */
  function MessageFromTokens(tokens: seq<Token>, level: ParseErrorLevel, reason: Reason): (m: ParseMsg)
    requires |tokens| > 0
    ensures m.level == level && m.reason == reason
    ensures (m.line.0, m.column.0) == (tokens[0].line, tokens[0].column)
    ensures (m.line.1, m.column.1) == (tokens[|tokens| - 1].endLine, tokens[|tokens| - 1].endColumn)
    ensures |tokens| == 1 ==> m.line == (tokens[0].line, tokens[0].endLine) && m.column == (tokens[0].column, tokens[0].endColumn)
  {
    ParseMsg(level,
             (tokens[0].line, tokens[|tokens| - 1].endLine),
             (tokens[0].column, tokens[|tokens| - 1].endColumn),
             reason)
  }

  /** Position (l1, c1) does not come after position (l2, c2). */
  predicate NotAfter(l1: int, c1: int, l2: int, c2: int) {
    l1 < l2 || (l1 == l2 && c1 <= c2)
  }

  /** A token whose end does not come before its start. */
  predicate WellSpanned(t: Token) {
    NotAfter(t.line, t.column, t.endLine, t.endColumn)
  }

  /** Tokens in document order: each is well spanned and ends before the next starts. */
  predicate InDocumentOrder(tokens: seq<Token>) {
    && (forall i :: 0 <= i < |tokens| ==> WellSpanned(tokens[i]))
    && (forall i :: 0 < i < |tokens| ==>
          NotAfter(tokens[i - 1].endLine, tokens[i - 1].endColumn, tokens[i].line, tokens[i].column))
  }

  /** The span of a message built from tokens in document order runs forward. */
  lemma {:induction false} MessageSpanRunsForward(tokens: seq<Token>, level: ParseErrorLevel, reason: Reason)
    requires |tokens| > 0 && InDocumentOrder(tokens)
    ensures var m := MessageFromTokens(tokens, level, reason);
            NotAfter(m.line.0, m.column.0, m.line.1, m.column.1)
  {
    if |tokens| > 1 {
      var init := tokens[..|tokens| - 1];
      assert InDocumentOrder(init) by {
        forall i | 0 < i < |init|
          ensures NotAfter(init[i - 1].endLine, init[i - 1].endColumn, init[i].line, init[i].column)
        {
          assert init[i - 1] == tokens[i - 1] && init[i] == tokens[i];
        }
      }
      MessageSpanRunsForward(init, level, reason);
      var last := tokens[|tokens| - 1];
      assert NotAfter(init[|init| - 1].endLine, init[|init| - 1].endColumn, last.line, last.column);
      assert WellSpanned(last);
    }
  }

  /** Only the first and the last token determine a message's span. */
  lemma MessageUsesEndTokens(tokens: seq<Token>, level: ParseErrorLevel, reason: Reason)
    requires |tokens| > 0
    ensures MessageFromTokens(tokens, level, reason)
         == MessageFromTokens([tokens[0], tokens[|tokens| - 1]], level, reason)
  {
  }

  /** The message over the concatenation of two token runs spans from the first run's start
      to the second run's end. */
  lemma MessageOfConcatenation(a: seq<Token>, b: seq<Token>, level: ParseErrorLevel, reason: Reason)
    requires |a| > 0 && |b| > 0
    ensures var m := MessageFromTokens(a + b, level, reason);
            var ma := MessageFromTokens(a, level, reason);
            var mb := MessageFromTokens(b, level, reason);
            m.line == (ma.line.0, mb.line.1) && m.column == (ma.column.0, mb.column.1)
  {
  }

  /** The number of ERROR-level messages in a list. */
  function ErrorCount(msgs: seq<ParseMsg>): (n: nat)
    ensures n <= |msgs|
  {
    if msgs == [] then 0
    else (if msgs[0].level == Error then 1 else 0) + ErrorCount(msgs[1..])
  }

  lemma {:induction false} ErrorCountConcat(a: seq<ParseMsg>, b: seq<ParseMsg>)
    ensures ErrorCount(a + b) == ErrorCount(a) + ErrorCount(b)
  {
    if a == [] {
      assert a + b == b;
    } else {
      assert (a + b)[1..] == a[1..] + b;
      ErrorCountConcat(a[1..], b);
    }
  }

  lemma {:induction false} ErrorCountOfWarnings(msgs: seq<ParseMsg>)
    requires forall i :: 0 <= i < |msgs| ==> msgs[i].level == Warning
    ensures ErrorCount(msgs) == 0
  {
    if msgs != [] {
      ErrorCountOfWarnings(msgs[1..]);
    }
  }
}
