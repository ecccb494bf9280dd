# Polyfile reader: the semantic half

This project models the part of the plain-model-inspector polyfile reader that runs after
parsing (`plain_model_inspector/io/polyfile.py`). It has three stages:

- **Diagnostics.** Parse messages have a severity (FATAL, ERROR, WARNING, INFO), a line span,
  a column span and a reason. `_message_from_tokens` builds a message whose span runs from
  the start of its first token to the end of its last. The source passes ten fixed reason
  strings; the model names them by an enumeration, `Reason`, whose `Text` gives each string
  word for word.
- **The literal transformer.** It rewrites each token of the parse tree and keeps the tree's
  shape:
  - a comment becomes a comment line (the text after the marker, right-stripped);
  - blank-line runs and stray whitespace become WARNING messages;
  - names, integers and floats become literals that keep their token.
- **The interpreter.** It walks the transformed tree bottom-up:
  - description headers, names, dimension declarations, metadata, points, point blocks and
    invalid blocks each get a handler;
  - a handler returns its value together with messages, and passes its children's messages
    up, with two exceptions: `invalid_block` returns a single ERROR and ignores the messages of
    its name line, and `dimensions_line` replaces the transformer's whitespace warning with its
    own;
  - the interpreter object holds its configuration (whether points carry a z value, hence the
    minimum column count) and the expected column count, which callers may overwrite.

Modules:

- `Wrappers` (`wrappers.dfy`): `Option` and `Result`.
- `Diagnostics` (`diagnostics.dfy`): levels, tokens, messages, the reason strings, message
  spans and error counting.
- `Text` (`text.dfy`): right-strip, join and split of strings.
- `ParseTree` (`parse_tree.dfy`): the raw tree that the parser hands over (`RawTree`) and the
  transformed tree (`Node`).
- `LiteralTransformer` (`literal_transformer.dfy`): the per-token rewrite and its properties.
- `Domain` (`domain.dfy`): `DescriptionHeader`, `Metadata`, `Point` and `PolyObject`.
- `PolyFile` (`interpreter.dfy`): the shapes the grammar gives each rule, and the class
  `PolyFileInterpreter` with one member per rule handler.
- `PolyFileProperties` (`interpreter_properties.dfy`): properties that relate several
  handlers.
- `PolyFileFindings` (`findings.dfy`): two handlers as written, beside their corrections.
- `PolyFileScenarios` (`scenarios.dfy`): the documented examples of the repository's tests,
  proved on the model.

How the code is modelled:

- Rule handlers that only compute are functions. A handler that reads the expected column
  count `reads` the interpreter.
- `points` loops over its rows. It is a method with a loop, proved equal to the function
  `PointsResult`.
- `poly_block` calls `points`, so it is a method too.
- Python's `list.append`/`extend` on a fresh list is modelled as sequence concatenation.
- `float` values are `real`. The text-to-number conversions of the host language are
  parameters (`parseInt`, `parseFloat`).

## Model

| member | source | states |
|---|---|---|
| Diagnostics.MessageFromTokens | plain_model_inspector/io/polyfile.py:111-119 | the message keeps the given level and reason; its span starts where the first token starts and ends where the last token ends, so a one-token message spans exactly that token |
| Diagnostics.MessageSpanRunsForward | plain_model_inspector/io/polyfile.py:111-119 | a message built from tokens in document order has a span whose end does not come before its start |
| Diagnostics.MessageUsesEndTokens | plain_model_inspector/io/polyfile.py:111-119 | only the first and the last token determine a message; inner tokens do not matter |
| Diagnostics.MessageOfConcatenation | plain_model_inspector/io/polyfile.py:111-119 | the message over two token runs spans from the first run's start to the second run's end |
| Diagnostics.ErrorCountConcat | plain_model_inspector/io/polyfile.py:185-186 | counting ERRORs distributes over the concatenation of message lists, which is how handlers pass messages up |
| Diagnostics.ErrorCountOfWarnings | plain_model_inspector/io/polyfile.py:62-68 | a list of WARNING messages holds no ERROR |
| Text.RStrip | plain_model_inspector/io/polyfile.py:126 | the result is a prefix of the input, ends in a non-space, and everything removed is whitespace |
| Text.RStripPadded | plain_model_inspector/io/polyfile.py:126 | stripping text that ends in a non-space and is followed by any run of whitespace gives back exactly that text |
| Text.Join | plain_model_inspector/io/polyfile.py:176 | joining nothing gives the empty string; the first part is a prefix of the result; there is room for a separator between each pair of parts (the round trips are `SplitJoin` and `JoinSplit`) |
| Text.SplitJoin | plain_model_inspector/io/polyfile.py:176 | joining newline-free lines with newlines and splitting at newlines gives back the lines |
| Text.JoinSplit | plain_model_inspector/io/polyfile.py:176 | splitting at a separator and joining again gives back the text |
| LiteralTransformer.TransformToken | plain_model_inspector/io/polyfile.py:122-145 | each terminal has its rewrite (iff): whitespace and blank lines become WARNINGs spanning the token, with the whitespace and the empty-lines reason respectively; a comment becomes the comment line `token[1:].rstrip()`, a prefix of the text after the marker ending in a non-space; a NAME becomes a literal holding its text, an INT or FLOAT a literal holding its converted value, each keeping its token; an invalid block stays raw |
| LiteralTransformer.Transform | plain_model_inspector/io/polyfile.py:122-145 | rule nodes are kept with their rule and number of children; only leaves are rewritten |
| LiteralTransformer.CommentContent | plain_model_inspector/io/polyfile.py:124-126 | a comment line keeps exactly the text the writer put after the marker, without its trailing whitespace |
| LiteralTransformer.TransformRewritesEachToken | plain_model_inspector/io/polyfile.py:122-145 | the leaves of the transformed tree are the rewrites of the raw tree's tokens, in order, for every tree shape |
| LiteralTransformer.TransformWarnsOnly | plain_model_inspector/io/polyfile.py:128-136 | every message the transformer creates is a WARNING |
| PolyFile.NameLineHasStart | plain_model_inspector/io/polyfile.py:313-318 | a name line (`WS? NAME`, grammar line 32) has a position, that of its whitespace warning or of its name, from which the corrected `invalid_block` starts its span |
| PolyFile.InvalidBlockHasStart | plain_model_inspector/io/polyfile.py:313-318 | the first child of an invalid block, a raw token or a name line, has a position |
| PolyFile.PolyFileInterpreter.constructor | plain_model_inspector/io/polyfile.py:159-163 | the z setting is stored; the minimum column count is 3 with z values and 2 without; the expected count starts at the minimum |
| PolyFile.PolyFileInterpreter.FilterMsgs | plain_model_inspector/io/polyfile.py:165-170 | the two parts together are as long as the input, and the first part holds no message (the ordered partition is stated by `FilterMsgsConcat` with `FilterMsgsSingle`) |
| PolyFile.FilterMsgsFromInput | plain_model_inspector/io/polyfile.py:165-170 | every kept child and every message comes from the input |
| PolyFile.CommentContents | plain_model_inspector/io/polyfile.py:176 | one line per comment, the i-th line being the i-th comment's content |
| PolyFile.PolyFileInterpreter.VisitDescriptionHeader | plain_model_inspector/io/polyfile.py:172-177 | the messages are exactly the blank-line messages among the children |
| PolyFile.PolyFileInterpreter.VisitNameLine | plain_model_inspector/io/polyfile.py:190-192 | the name is the first non-message child's string; the messages are the line's own |
| PolyFile.PolyFileInterpreter.VisitDimensionsValid | plain_model_inspector/io/polyfile.py:207-220 | rows and columns are the two integers; there is one ERROR on the column token exactly when the columns are below the minimum |
| PolyFile.PolyFileInterpreter.VisitDimensionsExceedingColumns | plain_model_inspector/io/polyfile.py:222-229 | the result of the valid prefix, its messages, then one WARNING on the first excess integer |
| PolyFile.PolyFileInterpreter.VisitDimensionsMissingColumn | plain_model_inspector/io/polyfile.py:231-239 | the rows, -1 for the columns, and exactly one ERROR on the single integer |
| PolyFile.PolyFileInterpreter.VisitDimensions | plain_model_inspector/io/polyfile.py:196 | for whichever dimensions rule matched: the rows are the first integer; the columns are the second or -1; exactly one ERROR when the columns are missing or below the minimum, none otherwise |
| PolyFile.PolyFileInterpreter.VisitDimensionsLine | plain_model_inspector/io/polyfile.py:195-205 | the dimensions and their messages, followed by one WARNING spanning the leading whitespace exactly when there is some (corrected; see Findings) |
| PolyFile.PolyFileInterpreter.VisitMetadata | plain_model_inspector/io/polyfile.py:179-188 | the name comes from the name line, rows and columns from the dimensions line; the messages are the metadata's own, then the name line's, then the dimensions line's |
| PolyFile.FloatValues | plain_model_inspector/io/polyfile.py:243 | one value per child, the i-th value being the i-th child's float |
| PolyFile.PolyFileInterpreter.PointOf | plain_model_inspector/io/polyfile.py:255-258 | x and y are the first two values; z is the third value exactly when z values are configured and present; data holds what lies beyond the minimum column count; the point's coordinates, read back in order, are exactly the values |
| PolyFile.PolyFileInterpreter.ColumnCountMessages | plain_model_inspector/io/polyfile.py:246-253 | no message when the value count equals the expected count; otherwise one ERROR spanning the whole row, whose reason says whether data is missing or in excess |
| PolyFile.PolyFileInterpreter.VisitPoint | plain_model_inspector/io/polyfile.py:241-260 | x and y are the first two values; z is the third value exactly when z values are configured and present; the coordinates are all the values; there is one ERROR spanning the row exactly when the value count differs from the expected count, and its reason says whether data is missing or in excess |
| PolyFile.PolyFileInterpreter.VisitPointInvalid | plain_model_inspector/io/polyfile.py:263-267 | no point, and one ERROR on the single value |
| PolyFile.PolyFileInterpreter.VisitPointLine | plain_model_inspector/io/polyfile.py:241-267 | a point exactly for a `point` row; every message of a row is an ERROR |
| PolyFile.PolyFileInterpreter.PointRows | plain_model_inspector/io/polyfile.py:274-280 | never more points than rows |
| PolyFile.PolyFileInterpreter.PointsResult | plain_model_inspector/io/polyfile.py:269-282 | what `points` computes: never more points than non-message rows, and the block's own messages come first, ahead of the rows' messages (the rows' content is stated by `PointRowsConcat` and `PointRowsSingle`) |
| PolyFile.PolyFileInterpreter.VisitPoints | plain_model_inspector/io/polyfile.py:269-282 | the loop computes `PointsResult`: the points of the rows in order, and the block's own warnings followed by every row's messages |
| PolyFile.PolyFileInterpreter.VisitPolyBlock | plain_model_inspector/io/polyfile.py:285-311 | with three components the description is the header's, with two there is none; the metadata and the points are those of the last two components; the messages are the block's own, then the description's, the metadata's and the points' |
| PolyFile.PolyFileInterpreter.VisitInvalidBlock | plain_model_inspector/io/polyfile.py:313-318 | one ERROR from where the block's first child starts to where its INVALID_BLOCK token ends (corrected; see Findings) |
| PolyFileProperties.FilterMsgsConcat | plain_model_inspector/io/polyfile.py:165-170 | filtering distributes over concatenation, so the order within each part is the input order |
| PolyFileProperties.FilterMsgsWithoutMessages | plain_model_inspector/io/polyfile.py:165-170 | children without messages pass through unchanged and give no messages |
| PolyFileProperties.FilterMsgsSingle | plain_model_inspector/io/polyfile.py:165-170 | a single child goes to the messages exactly when it is one |
| PolyFileProperties.DescriptionHeaderLines | plain_model_inspector/io/polyfile.py:172-177 | splitting the description at newlines gives back the comment lines it was joined from |
| PolyFileProperties.FilteredWarnings | plain_model_inspector/io/polyfile.py:165-170 | the messages filtered out of a transformed tree are WARNINGs, hence no ERROR |
| PolyFileProperties.MetadataDeclaresDimensions | plain_model_inspector/io/polyfile.py:179-239 | metadata records the name, the declared rows and the declared columns (-1 when missing); it carries exactly one ERROR when the columns are missing or below the minimum, none otherwise |
| PolyFileProperties.PointRowsKeepPointRows | plain_model_inspector/io/polyfile.py:274-278 | each `point` row gives exactly one point; each single-value row is skipped |
| PolyFileProperties.PointRowsFlagRows | plain_model_inspector/io/polyfile.py:247-280 | the ERRORs of a run of rows are exactly one per single-value row and one per point whose value count differs from the expected count |
| PolyFileProperties.PointRowsSingle | plain_model_inspector/io/polyfile.py:274-280 | one row gives its own point, if it has one, and its own messages |
| PolyFileProperties.PointRowsConcat | plain_model_inspector/io/polyfile.py:274-280 | rows are read independently and in order: the points and messages of two runs of rows are those of the first run followed by those of the second, so points come in row order with single-value rows skipped |
| PolyFileProperties.PointsCounts | plain_model_inspector/io/polyfile.py:269-282 | a points block has as many points as point rows and as many ERRORs as flagged rows |
| PolyFileProperties.SameConfigurationSameRows | plain_model_inspector/io/polyfile.py:152-163 | two interpreters with the same z setting and expected column count read every run of rows the same way |
| PolyFileFindings.DimensionsLineAsWritten | plain_model_inspector/io/polyfile.py:195-205 | as written: a line without whitespace gives the dimensions' result; with a first child that is not a literal, it raises |
| PolyFileFindings.DimensionsLineAsWrittenRaises | plain_model_inspector/io/polyfile.py:195-205 | on every line the grammar allows, the as-written handler raises exactly when the line has leading whitespace, and agrees with the corrected one otherwise |
| PolyFileFindings.IndentedDimensionsLineRaises | plain_model_inspector/io/polyfile.py:195-205 | for `      5    23`, the as-written handler raises; the corrected one reads (5, 23) and warns at the whitespace |
| PolyFileFindings.CorrectedWarningSpansWhitespace | plain_model_inspector/io/polyfile.py:201-203 | the corrected warning is the message the code means to build from the whitespace token |
| PolyFileFindings.InvalidBlockAsWritten | plain_model_inspector/io/polyfile.py:313-318 | as written: succeeds exactly when the block is a single raw token, with the message spanning that token |
| PolyFileFindings.InvalidBlockCorrectedAgrees | plain_model_inspector/io/polyfile.py:313-318 | where the as-written handler succeeds, the corrected one gives the same message; where it raises, the corrected message starts at the block's name |
| PolyFileFindings.NamedInvalidBlockRaises | plain_model_inspector/io/polyfile.py:313-318 | the block `some name` followed by the line `x 1.0` makes the as-written handler raise; the corrected one reports one ERROR from the name to the end of the block |
| PolyFileScenarios.DescriptionHeaderScenario | tests/io/test_polyfile.py:371-387 | three padded comments around blank lines give `" some value\n another value\n last value"` and one blank-lines WARNING whose reason reads `Unexpected empty lines will be ignored.` |
| PolyFileScenarios.MetadataScenario | tests/io/test_polyfile.py:390-404 | `this is a name` / `5    23` gives name, 5 rows, 23 columns and no messages |
| PolyFileScenarios.PointLineScenario | tests/io/test_polyfile.py:407-427 | five values with z and five expected columns give x=1, y=2, z=3, data=[4, 5] and no messages |
| PolyFileScenarios.InvalidPointLineScenario | tests/io/test_polyfile.py:430-441 | a single value gives no point and one ERROR |
| PolyFileScenarios.PointsScenario | tests/io/test_polyfile.py:444-476 | three rows around a blank-line run give the three points in order and the blank-lines WARNING alone |
| PolyFileScenarios.PolyBlockScenario | tests/io/test_polyfile.py:479-517 | the documented block gives its description, metadata (name, 3, 3) and three points, with only the blank-lines WARNING |
| PolyFileScenarios.ThreeValuesWithoutZ | plain_model_inspector/io/polyfile.py:241-260 | an interpreter without z values whose expected column count is still the minimum reads `1.0 2.0 3.0` as x=1, y=2, no z, data=[3], and flags the row with one excess-data ERROR spanning it |

## Left out

- The grammar and the lexer (`polyfile.py:10-60`) are not part of this model. The model starts
  from the raw parse tree. Each handler's precondition states the shape the grammar gives its
  rule.
- The text-to-number conversion is not modelled. `int(str(token))` and `float(str(token))` are
  the parameters `parseInt` and `parseFloat`, and their failure modes are not modelled.
- Floating-point arithmetic is not modelled. Coordinates are `real`, and no arithmetic is done
  on them.
- The constructor's default argument (`has_z_value: bool=False`, `polyfile.py:159`) has no
  Dafny counterpart: `PolyFileInterpreter()` is `new PolyFileInterpreter(false)`.
- `poly_file` (`polyfile.py:320-328`) has an empty body and is not modelled.
- Lark's dispatch by rule name (`visit`) is modelled as a direct call of the rule's handler.
- Handlers are only defined on the shapes the grammar produces. The behaviour of the source on
  trees the grammar cannot produce is not modelled.
- The pydantic validation of the result records is not modelled; the records are plain
  datatypes.
- `plain_model_inspector/structure.py` is not part of this model.
- Mutation of the message lists is not modelled; each `append`/`extend` is sequence
  concatenation. The lists the handlers extend are fresh in the source, so no aliasing is
  lost.
- The expected column count is never set from the declared columns: `poly_block`
  (`polyfile.py:285-311`) does not assign it, so it stays at the minimum unless a caller
  overwrites the field, as the tests do. The model keeps this behaviour: a fresh interpreter
  without z values flags the row `1.0 2.0 3.0` as excess data whatever the metadata declares.
- PolyFile.PolyFileInterpreter.VisitDimensionsExceedingColumns: adds a single WARNING, on the
  first excess integer, however many excess integers there are (`polyfile.py:225`).
- PolyFile.PolyFileInterpreter.VisitDescriptionHeader: its contract states the messages. The
  content is stated by `PolyFileProperties.DescriptionHeaderLines`.
- PolyFile.PolyFileInterpreter.PointRows: its own contract only bounds the count. The
  point-by-point content is stated by the lemmas in `PolyFileProperties`.

## Findings

| source | as written | input that shows it | evidently intended | confidence | as-written member | corrected member |
|---|---|---|---|---|---|---|
| plain_model_inspector/io/polyfile.py:195-205 | the leading-whitespace warning reads `tree.children[0].token`, but the transformer has already turned the `WS` token into a `ParseMsg`, which has no `token`; every dimensions line with leading whitespace raises `AttributeError` | a metadata block whose dimensions line is `      5    23` | a WARNING spanning the whitespace, with the dimensions read as (5, 23) | high (not executed) | PolyFileFindings.DimensionsLineAsWritten | PolyFile.PolyFileInterpreter.VisitDimensionsLine |
| plain_model_inspector/io/polyfile.py:313-318 | the span is built as if every child were a token, but an invalid block that starts with a name has a `name_line` subtree as its first child; without position propagation that subtree has no `line`, so the handler raises `AttributeError` | `some name` followed by the line `x 1.0` | one ERROR from the start of the name to the end of the block | medium (not executed; depends on the parser not propagating positions) | PolyFileFindings.InvalidBlockAsWritten | PolyFile.PolyFileInterpreter.VisitInvalidBlock |
