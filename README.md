# HSML front end in Dafny

HSML is an indentation-based shorthand for HTML. A tag line such as
`h1.text-red(title="x") Hello` names a tag, optionally followed by
- `.class` items,
- a parenthesised attribute list,
- a space and a single line of text.

Lines indented exactly one level deeper under a tag are its children: tags, or
`//` (developer) and `//!` (native) comments.

This project models the two stages of the system:

- **Parser** (modules `Scan`, `Ast`, `TagNames`, `Classes`, `Ids`,
  `Comments`, `Texts`, `Attributes`, `TagNodes`, `Parser`).
  - Each scanner takes a string and returns either the rest of the input
    with what it read, or a failure. All scanners share one result type,
    `Scan.Res`: `Ok(rest, value)`, `Err(kind, at)`, `Incomplete`,
    `Panic(fault)` or `Hang`. A Rust panic (`todo!`, `expect`, `unwrap` on
    nothing, a slice out of range) becomes `Panic`. A loop that can never
    leave becomes `Hang`.
  - The tag parser, the child logic and the document loop change a mutable
    indentation context: the unit of indentation, fixed by the first
    indented line, and the current depth. They are methods on a
    `ProcessContext` object. Their contracts state the state they leave.
  - The tag parser is specified by recursive functions on values:
    `ReadTag`, `ReadTagBody`, `ReadTagStep`, `ReadHeadItem`,
    `ReadLineBreak`, `ReadIndentedLine` and `ReadChild`. Each takes the input
    and the indentation state and returns the result with the new state. Each
    method on the context is proved to return exactly what its function
    gives and to leave exactly the state it gives.
  - The document loop is proved to return exactly `ReadRoot`. That function
    is defined by the recursive `ReadDocument`.
  - The other loops of the source are `while` loops proved against recursive
    specification functions. These are the class scan, the escape-aware scan
    for a closing `]` or quote, and the text-block scan.
- **Compiler** (module `Compiler`).
  - Methods append to an HTML string as the source does.
  - Each method is proved equal to a recursive function that gives the
    output outright.
  - Lemmas about those functions state the output's shape. An opening tag
    comes first. A tag without text or children closes itself, and any
    other tag ends with its closing tag. Developer comments leave no trace.
    Class names can be recovered from the class attribute. The output of a
    document is the concatenation of its nodes.

What the proofs establish about the parser:
- Every scanner's result is an exact split of its input.
- Each error the scanners produce has the kind and position the code gives. The tag parser and the document loop pass every failure of a scanner on unchanged. The exceptions are the ones the code makes: a failing child tag becomes a panic, and mixed indentation becomes an error at the line break.
- The class scan treats stop characters inside `[...]` as part of the name.
- A `//!` comment is never read as a developer comment.
- The indentation unit, once set, never changes.
- Every tree the parser accepts has only tags and comments where the
  compiler expects them, and never an empty class or child list.
- The document from the compiler's end-to-end test, without its image
  lines, reads as a heading followed by a card, in source order, and
  compiles to the HTML the test expects (module `Example`).

The model keeps one defect of the code as written. Inside a class name, a
carriage return that is not followed by a line feed matches an empty arm of
the scanning loop, so the loop never terminates. `Classes.PlainClass`
proves this outcome (`Hang`) for such input.

## Model

| member | source | states |
|---|---|---|
| Ast.ProcessContext.constructor | src/parser/mod.rs:32-36 | a fresh context has depth 0 and no indentation unit |
| Ast.ProcessNewline | src/parser/mod.rs:38-40 | succeeds exactly on a leading `\n` or `\r\n`, returns that line ending with the input after it, and otherwise fails with `CrLf` at the input |
| Ast.LoneCarriageReturnIsNoNewline | src/parser/mod.rs:38-40 | a `\r` not followed by `\n` is not a line ending |
| Scan.ClosingIndex | src/parser/class/process.rs:57-74 | the index found is the first position after the opening character that holds the closer without a backslash before it; none means no such position exists |
| Scan.ScanClosing | src/parser/class/process.rs:54-74 | the loop that tracks whether the previous character was a backslash returns exactly `ClosingIndex` |
| TagNames.StartsWithAsciiAlphabetic | src/parser/tag/process.rs:3-9 | true exactly when the first character exists and is an ASCII letter |
| TagNames.ProcessTag | src/parser/tag/process.rs:11-19 | succeeds exactly on a leading ASCII letter, with `name + rest == input`, a maximal name of letters, digits and `-`; a leading digit or `-` gives `Incomplete`; any other start gives `TakeTill1` at the input |
| Classes.ClassStep | src/parser/class/process.rs:17-94 | one pass of the loop advances the offset without passing the end; it finishes exactly at a stop character or `\r\n`; it stays put exactly at a lone `\r` |
| Classes.ClassScanFrom | src/parser/class/process.rs:14-99 | a successful scan splits the text at a position that ends a class; an error is `Tag` at a suffix that starts with an unclosed `[`; `Hang` only happens when there is a lone `\r`; the scan never panics |
| Classes.ClassTurn | src/parser/class/process.rs:17-94 | one pass of the loop, on `remaining`, gives exactly `ClassStep` |
| Classes.ProcessClass | src/parser/class/process.rs:7-100 | the loop over `classIndex` and `remaining` returns exactly `ClassScan` of the input |
| Classes.ParseClassNode | src/parser/class/node.rs:10-19 | succeeds exactly when the class scan succeeds, with the same rest and the scanned name; otherwise it gives the same failure |
| Classes.ClassScanSplits | src/parser/class/process.rs:80-99 | on success, `"." + class + rest == input`, and the rest starts with the character that ended the class |
| Classes.ClassNeedsDot | src/parser/class/process.rs:8 | without a leading `.` the scan fails with `Tag` at the unchanged input |
| Classes.PlainRun | src/parser/class/process.rs:85-89 | a run of ordinary characters is stepped over one at a time |
| Classes.PlainClass | src/parser/class/process.rs:19-93 | for a class of ordinary characters: a stop character ends it with the exact split; the end of input gives `Incomplete`; a lone `\r` gives `Hang` |
| Classes.StopCharsOnlyInsideBracketsFrom | src/parser/class/process.rs:49-83 | in a successful scan from any offset, every stop character taken into the class lies strictly inside a bracketed value |
| Classes.StopCharsOnlyInsideBrackets | src/parser/class/process.rs:49-83 | the same for the whole class name |
| Classes.UnclosedBracket | src/parser/class/process.rs:76-78 | a `[` with no unescaped `]` after it fails with `Tag` at the bracket |
| Ids.ProcessId | src/parser/id/process.rs:3-9 | succeeds exactly on `#` followed by an ASCII alphanumeric, with `"#" + id + rest == input` and a maximal non-empty alphanumeric id; without `#` it fails with `Tag` at the input, and with an empty id it fails with `AlphaNumeric` after the `#` |
| Ids.ParseIdNode | src/parser/id/node.rs:10-14 | succeeds exactly when `ProcessId` does, with its rest and a non-empty alphanumeric id; otherwise it gives the same failure |
| Ids.IdStopsAtSeparator | src/parser/id/process.rs:6 | `#id` followed by a non-alphanumeric character reads back exactly `id` and the rest |
| Comments.TakeLine | src/parser/comment/process.rs:18 | succeeds exactly when a `\n` is present and splits before the first one; otherwise it gives `TakeUntil` at the input |
| Comments.ProcessDevComment | src/parser/comment/process.rs:7-21 | succeeds exactly on `//` not followed by `!` with a later `\n`, with `"//" + text + rest == input`; the text has no `\n` and the rest starts with `\n`; the failure kinds and positions of each case |
| Comments.ProcessNativeComment | src/parser/comment/process.rs:23-30 | succeeds exactly on `//!` with a later `\n`, with `"//!" + text + rest == input`; the failure kinds and positions of each case |
| Comments.ParseCommentDevNode | src/parser/comment/node.rs:11-21 | succeeds exactly when the dev scanner does, with its rest and text and `isDev` set; otherwise it gives the same failure |
| Comments.ParseCommentNativeNode | src/parser/comment/node.rs:23-33 | succeeds exactly when the native scanner does, with its rest and text and `isDev` cleared; otherwise it gives the same failure |
| Comments.ExactlyOneCommentScanner | src/parser/comment/process.rs:12-14 | on `//` with a later line feed, exactly one of the two comment scanners succeeds |
| Comments.NoCommentWithoutSlash | src/parser/comment/process.rs:8 | without a leading `/`, both comment scanners fail with `Tag` at the input |
| Comments.TakeLineOf | src/parser/comment/process.rs:18 | a line without `\n`, followed by `\n` and anything, reads back exactly that line |
| Comments.NativeCommentLine | src/parser/comment/node.rs:23-33 | `//!text\n…` gives a native comment node with `text`, and the rest starts at the `\n` |
| Comments.DevCommentLine | src/parser/comment/node.rs:11-21 | `//text\n…`, where the text does not start with `!`, gives a dev comment node with `text`, and the rest starts at the `\n` |
| Texts.ProcessText | src/parser/text/process.rs:57-60 | succeeds exactly on a space followed by a non-empty line that ends with `\n`, with `" " + text + rest == input`; otherwise `Tag` at the input, or `TakeUntil` after the space |
| Texts.ParseTextNode | src/parser/text/node.rs:26-35 | succeeds exactly when `ProcessText` does, with its rest and its non-empty one-line text; otherwise it gives the same failure |
| Texts.BlockPrefix | src/parser/text/process.rs:18-24 | the required prefix is the indentation unit, or two spaces, repeated depth + 1 times |
| Texts.TextBlock | src/parser/text/process.rs:9-55 | a successful block is non-empty, and it and its rest fit strictly inside the input |
| Texts.ProcessTextBlock | src/parser/text/process.rs:9-55 | the `for` loop over the text after `.` and its line ending returns exactly `TextBlock` for the context's unit and depth |
| Texts.ParseTextBlockNode | src/parser/text/node.rs:12-24 | succeeds exactly when `TextBlock` does, with its rest and its text, indentation kept; otherwise it gives the same failure |
| Texts.KeptLinesIndentedFrom | src/parser/text/process.rs:29-48 | every line the scan checks inside the block starts with the prefix |
| Texts.BlockEndsFrom | src/parser/text/process.rs:29-48 | the scan ends inside the text, at a position where the block legitimately ends |
| Texts.NonEmptyPrefix | src/parser/text/process.rs:18-24 | with a non-empty unit, the prefix is non-empty |
| Texts.TextBlockSplits | src/parser/text/process.rs:13-16 | a block needs `.` and a line ending; the block followed by the rest is exactly the text after them |
| Texts.TextBlockLinesIndented | src/parser/text/process.rs:38-43 | each checked line kept in the block starts with the prefix for the context's depth |
| Texts.TextBlockEnd | src/parser/text/process.rs:29-54 | the rest is empty, or starts with a line feed whose line lacks the prefix, or follows a kept blank line and lacks the prefix |
| Attributes.ProcessAttributeKey | src/parser/attribute/process.rs:9-40 | succeeds exactly on a valid first character, with `key + rest == input` and a maximal key; an empty key gives `TakeTill1`, and a bad first key character gives `AlphaNumeric`, both at the input |
| Attributes.QuotedValue | src/parser/attribute/process.rs:42-91 | an empty input panics; success means `q + value + q + rest == input` for a quote `q`, with no unescaped `q` inside; any other failure is `Tag` at the input |
| Attributes.ProcessAttributeValue | src/parser/attribute/process.rs:42-91 | the loop returns exactly `QuotedValue` |
| Attributes.AttributeScan | src/parser/attribute/process.rs:105-124 | a success returns a non-empty source slice with `slice + rest == input` |
| Attributes.ProcessAttribute | src/parser/attribute/process.rs:105-124 | returns exactly `AttributeScan` |
| Attributes.KeyRoundTrip | src/parser/attribute/process.rs:28-40 | a valid key followed by a non-key character reads back exactly that key |
| Attributes.QuotedValueRoundTrip | src/parser/attribute/process.rs:50-86 | a quoted body with no unescaped quote reads back exactly, even across lines |
| Attributes.BareAttribute | src/parser/attribute/process.rs:123 | a key not followed by `=` is the whole attribute, and the rest starts right after it |
| Attributes.AttributeWithValue | src/parser/attribute/process.rs:112-120 | `key="value"` reads back as that exact source slice, quotes included |
| TagNodes.LineIndentation | src/parser/tag/node.rs:93-99 | the indentation after the line breaks is made only of white space |
| TagNodes.AfterIndentation | src/parser/tag/node.rs:93-99 | the text after the line breaks and the indentation is a proper suffix |
| TagNodes.IndentationIsUnit | src/parser/tag/node.rs:101-115 | a non-empty, unmixed indentation is a valid unit |
| TagNodes.AppendWellFormed | src/parser/parse.rs:28-45 | appending a well-formed node keeps a list well-formed |
| TagNodes.WellFormedIsRenderable | src/compiler/mod.rs:54-66 | a well-formed node has only tags and comments among its descendants |
| TagNodes.UnitsIsProduct | src/parser/tag/node.rs:118-129 | the depth check, which counts the indentation unit by unit, compares against the unit length times the depth plus one |
| TagNodes.ReadTag | src/parser/tag/node.rs:25-172 | a leading `.` or `#` gives the name `div`, and otherwise the name read by `ProcessTag`, whose failure is passed on with the state unchanged; a leading `#` panics; a success consumes input and gives a well-formed tag with that name; an error leaves the depth unchanged; the unit, once set, is kept; the rest ends the head |
| TagNodes.ReadTagBody | src/parser/tag/node.rs:44-171 | the head loop from a given point: a success is a well-formed tag with the given name, and the rest is a suffix that ends the head; `#` panics; an error leaves the depth unchanged; the unit, once set, is kept |
| TagNodes.ReadTagStep | src/parser/tag/node.rs:44-159 | `#` panics with the state unchanged; the end of the input, or a character that neither continues the head nor breaks the line, stops with input and state unchanged; a head item or a child consumes input and keeps the depth; a stop leaves the input where it was and ends the head |
| TagNodes.ReadHeadItem | src/parser/tag/node.rs:54-87 | after `.`, `(` and a space: exactly the class, attribute list or text read there, with the rest after it, or that parser's failure passed on unchanged |
| TagNodes.ReadLineBreak | src/parser/tag/node.rs:89-157 | the unit after the break is the line's indentation when no unit was set and the indentation is unmixed and non-empty, and the old unit otherwise; mixed indentation fails with `Tag` at the break with the state unchanged, and is the only error; the line is unindented exactly when its indentation is empty; it is a child exactly when it is one level deeper; without a child the rest is the input; the depth stays raised by one exactly for an indentation of another depth |
| TagNodes.ReadIndentedLine | src/parser/tag/node.rs:117-153 | an indentation of another depth ends the tag with the depth raised by one; a line one level deeper is exactly the child read at the next depth, with the depth restored, or that child's failure |
| TagNodes.IndentedLineChild | src/parser/tag/node.rs:131-152 | a child that reads makes the line that child, with the depth restored |
| TagNodes.IndentedLineFails | src/parser/tag/node.rs:144 | a child that fails fails the line the same way |
| TagNodes.ReadChild | src/parser/tag/node.rs:133-147 | the unit is unchanged; a success consumes input and is well-formed; a failure is only a panic or a hang |
| TagNodes.ChildReads | src/parser/tag/node.rs:133-147 | a `//!` comment gives the native comment node; else a `//` comment gives the dev comment node, both with the state unchanged; else the tag read there, where an error or missing input becomes the `ChildTagFailed` panic and a panic or hang is passed on |
| TagNodes.ParseTagNode | src/parser/tag/node.rs:25-172 | returns exactly what `ReadTag` gives and leaves the depth and unit it gives |
| TagNodes.ParseTagBody | src/parser/tag/node.rs:39-171 | the head loop, as a `while` loop with a shrinking input, returns exactly `ReadTagBody` from no collected parts, with its state |
| TagNodes.Collect | src/parser/tag/node.rs:58-80 | classes and children are appended in order; a later attribute list or text replaces the earlier one |
| TagNodes.AssembleTag | src/parser/tag/node.rs:162-171 | classes and children are absent exactly when empty, so the tag is well-formed |
| TagNodes.ParseTagStep | src/parser/tag/node.rs:44-159 | one pass of the head loop returns exactly `ReadTagStep`, with its state |
| TagNodes.ParseHeadItem | src/parser/tag/node.rs:54-87 | returns exactly `ReadHeadItem` |
| TagNodes.ParseLineBreak | src/parser/tag/node.rs:89-157 | returns exactly `ReadLineBreak` and leaves the unit and depth it gives |
| TagNodes.ParseIndentedLine | src/parser/tag/node.rs:117-153 | returns exactly `ReadIndentedLine`, raising the depth for the child and restoring it after |
| TagNodes.ParseChild | src/parser/tag/node.rs:133-147 | returns exactly `ReadChild`, with its state |
| Parser.TrimStart | src/parser/parse.rs:18-21 | the result is a suffix, everything dropped is white space, it starts with no white space, and it is empty exactly for blank input |
| Parser.ReadTopNode | src/parser/parse.rs:28-48 | a `//!` comment gives the native comment node, else a `//` comment gives the dev comment node, both with the state unchanged; otherwise exactly the tag arm; a success consumes input and is well-formed |
| Parser.ReadTopTag | src/parser/parse.rs:40-48 | succeeds exactly when the tag does, with the tag's rest, node and state; any failure of the tag is returned unchanged; `#` panics; a failing tag name is passed on |
| Parser.ReadDocument | src/parser/parse.rs:16-52 | a blank rest gives no nodes; a failing first node ends the document with its failure; a success leaves no rest, has only well-formed nodes, and its first node is the node at the first non-blank character |
| Parser.BlankDocument | src/parser/parse.rs:16-26 | a document reads as no nodes exactly when it is blank |
| Parser.ReadRoot | src/parser/parse.rs:9-55 | a success leaves no rest and only well-formed nodes; blank input gives exactly the empty root, and other accepted input a non-empty one; a leading `#` panics; a failing first node returns its failure, and a failing leading tag name returns its failure |
| Parser.DocumentTurn | src/parser/parse.rs:16-49 | one turn of the loop: a blank rest ends with the nodes read so far; otherwise the node read is appended after them, or its failure is returned |
| Parser.DocumentAfterTopNode | src/parser/parse.rs:28-45 | the nodes of a document are its first node followed by the nodes after it, in source order |
| Parser.Parse | src/parser/parse.rs:9-55 | the `while` loop returns exactly `ReadRoot` of the input |
| Parser.ParseTopNode | src/parser/parse.rs:28-49 | returns exactly `ReadTopNode` and leaves the state it gives |
| Parser.ParsedTreeCompiles | src/compiler/mod.rs:87-105 | every node of an accepted document can be compiled without reaching a panic |
| ParseFacts.TagNameSplit | src/parser/tag/process.rs:11-19 | a name followed by a character that cannot continue it is read whole |
| ParseFacts.NameThenHead | src/parser/tag/node.rs:29-44 | after a name, the tag is the head loop on the rest with that name |
| ParseFacts.DotThenHead | src/parser/tag/node.rs:29-31 | a line starting with `.` is a `div` whose head loop starts at the dot |
| ParseFacts.StepThenHead | src/parser/tag/node.rs:44-87 | a turn that reads an item or child hands its rest, the parts collected with it, and its state to the next turn |
| ParseFacts.ClassScanOf | src/parser/class/process.rs:7-100 | a plain class name ended by a stop character is read whole |
| ParseFacts.ClassThenHead | src/parser/tag/node.rs:54-63 | such a class is collected after the earlier classes and the loop goes on after it |
| ParseFacts.TextOf | src/parser/text/process.rs:57-60 | text after a space is read up to the line feed |
| ParseFacts.TextThenHead | src/parser/tag/node.rs:75-86 | such text is stored and the loop goes on at the line feed |
| ParseFacts.TextWithoutLineFeed | src/parser/tag/node.rs:75-79 | text with no line feed after it fails the whole tag with `TakeUntil` at the text |
| ParseFacts.HeadEnds | src/parser/tag/node.rs:155-171 | the end of the input, a character that does not continue the head, or an unindented next line ends the tag with its parts assembled and the input and state unchanged |
| ParseFacts.BareTag | src/parser/tag/node.rs:25-172 | a name alone is a tag with only that name |
| ParseFacts.IndentationOf | src/parser/tag/node.rs:93-99 | the indentation and the rest of a line break followed by blanks and a line |
| ParseFacts.LineBreakStep | src/parser/tag/node.rs:89-147 | a line break that leads to a child line makes the turn read that child |
| ParseFacts.LineBreakNext | src/parser/tag/node.rs:101-116 | a line break into a child line fixes the unit when none was set and reads the line with it |
| ParseFacts.LineBreakChild | src/parser/tag/node.rs:118-152 | such a line break reads as the child line |
| ParseFacts.ChildAt | src/parser/tag/node.rs:89-152 | such a line break makes the turn read the child at the same depth |
| ParseFacts.IndentedChild | src/parser/tag/node.rs:89-152 | a line one level deeper holding a child that reads is that child; the first such line fixes the unit |
| ParseFacts.ChildLineThenHead | src/parser/tag/node.rs:131-150 | such a child is collected as the next child and the loop goes on after it |
| ParseFacts.ChildTag | src/parser/tag/node.rs:141-146 | a child line that is not a comment is the tag on it |
| ParseFacts.TopTag | src/parser/parse.rs:40-45 | a top-level node that is not a comment is the tag there |
| ParseFacts.TrimmedStart | src/parser/parse.rs:18-21 | white space in front of a node is skipped |
| Example.ClassedTextHead | src/parser/tag/node.rs:54-87 | `.c text` followed by a line feed and an unindented line is one tag with that class and text |
| Example.NamedLine | src/parser/tag/node.rs:29-87 | a line `name.c text` reads as the tag `name` with that class and text |
| Example.DotLine | src/parser/tag/node.rs:29-87 | a line `.c text` reads as a `div` with that class and text |
| Example.DotChild | src/parser/tag/node.rs:133-147 | a child line `.c text` is that `div` |
| Example.FirstChildLine | src/parser/tag/node.rs:89-150 | the first child line, one unit deep, fixes the unit and is collected as the only child |
| Example.Parent | src/parser/tag/node.rs:25-172 | a line `.c` with one child line under it reads as a `div` holding that child; the unit is set and the depth is back to the top |
| Example.BoxDocument | src/parser/parse.rs:16-52 | such a parent as the rest of a document is the last top-level node |
| Example.HeadingAndBox | src/parser/parse.rs:9-55 | a line `name.h title` followed by such a parent reads as those two top-level tags, in order, with nothing left |
| Example.ClassedTextHtml | src/compiler/mod.rs:9-75 | a tag with one class and text is written as its opening tag with the class attribute, the text and the closing tag |
| Example.BoxHtml | src/compiler/mod.rs:9-75 | a `div` with one class and one child is written around that child |
| Example.TwoNodesHtml | src/compiler/mod.rs:98-106 | two top-level nodes are written one after the other |
| Example.CardDocumentText | src/compiler/mod.rs:145-152 | the document is the test's heading line, `.card` line and `.card__body` line, indented by two spaces |
| Example.CardDocumentParses | src/compiler/mod.rs:145-162 | for one-line texts, the document reads as the heading and the card, with nothing left |
| Example.CardDocumentHtml | src/compiler/mod.rs:154-161 | the heading and the card compile to the test's HTML, without the image parts |
| Example.TestTexts | src/compiler/mod.rs:145-151 | the test's heading and body texts fit on one line |
| Attributes.IsValidAttributeKey | src/parser/attribute/process.rs:9-22 | a key character is never `=`, a quote or white space, so a key stops before its value |
| Attributes.IsValidAttributeKeyStart | src/parser/attribute/process.rs:24-26 | a first key character is a key character and not a digit |
| Compiler.ClassNames | src/compiler/mod.rs:18-21 | the names, in order, one per class |
| Compiler.CompileCommentNode | src/compiler/mod.rs:77-85 | returns exactly `<!--text-->` |
| Compiler.CompileOpening | src/compiler/mod.rs:12-40 | appends `<tag`, the class attribute and each attribute in order, which is the opening-tag function |
| Compiler.CompileChildren | src/compiler/mod.rs:54-68 | appends every child in order; dev comments add nothing |
| Compiler.CompileTagNode | src/compiler/mod.rs:9-75 | returns exactly `TagHtml`: `/>` without text or children, else `>`, the text, the children and `</tag>` |
| Compiler.CompileNode | src/compiler/mod.rs:87-96 | a tag compiles as a tag, a native comment as `<!--…-->`, a dev comment as nothing |
| Compiler.Compile | src/compiler/mod.rs:98-106 | the loop over the root nodes returns exactly their outputs concatenated |
| Compiler.TagShape | src/compiler/mod.rs:12-74 | the output starts with `<tag`; it ends with `/>` when the tag closes itself and with `</tag>` otherwise; for a name not ending in `/`, ending in `/>` is equivalent to closing itself |
| Compiler.WithoutDevComments | src/compiler/mod.rs:60-64 | the kept nodes come from the input and none is a dev comment |
| Compiler.DevCommentsDropped | src/compiler/mod.rs:60-64 | removing dev comments from a child list leaves its output unchanged |
| Compiler.ChildrenConcat | src/compiler/mod.rs:55-67 | the output of two lists joined is the output of each, joined |
| Compiler.RootOutput | src/compiler/mod.rs:98-106 | an empty document gives `""`, and adding a node appends its output |
| Compiler.SplitOnSpace | src/compiler/mod.rs:18-22 | splitting always yields at least one part |
| Compiler.SplitJoinedNames | src/compiler/mod.rs:15-27 | class names without spaces, joined by single spaces, split back into the same names |

`src/parser/mod.rs:42-89` holds a second `parse` with the same loop as
`src/parser/parse.rs:9-55`. `Parser.Parse` models both.

## Left out

- `attribute_nodes`, the attribute-list parser called from the tag head, is not part of this model. Its source is a placeholder. The tag parser takes it as a parameter, and the only fact used about it is that a success consumes input. It is assumed not to touch the indentation context.
- The compiler reads attribute entries as key and optional value pairs, while the tag node's type holds general nodes. The model uses key and optional value pairs throughout.
- Ids: the tag head reaches `todo!` on `#`, so the model gives `Panic(IdNotSupported)`. This means no id output, no one-id-per-tag rule and no duplicate-id error. The id scanners are modelled on their own.
- Text blocks keep their indentation, as the code does. The text-block scanner is not reached from the tag head, because a `.` there is always read as a class.
- An indentation of another length ends the tag, as the code does, and leaves the depth raised by one. It is not reported as an inconsistency.
- Character classes are ASCII: `is_whitespace` means space and tab to carriage return, and `is_alphanumeric` means ASCII letters and digits. Strings are sequences of characters, so byte offsets and non-ASCII text (where the code mixes character and byte indices) are not modelled.
- `HsmlCompileOptions` carries nothing. The unused context parameter of `process_attribute_value` is dropped.
- The compiler's panic on node kinds other than tags and comments becomes the precondition `Renderable`.
- The `nom` combinator library is not modelled. Only the results it returns are: the rest with a value, or an error kind with a position. nom's distinction between recoverable and fatal errors is not kept.
- `Example`: the end-to-end document leaves out the two image lines of the compiler test (`.card__image` and `.card__profile` with their `img(...)` children), because the attribute-list parser is a parameter of this model.
- The command-line tool, file handling, the WebAssembly and JavaScript bindings, and the superseded single-file scanners (`src/parser.rs`, `src/parser/tag.rs`, `src/parser/class.rs`, `src/parser/text.rs`) are not part of this model.
