/** What the tag and document readers produce for the usual shapes of a
    tag line: each lemma consumes one piece of a line and hands the rest of
    the line to the head loop, so that a concrete document can be read piece
    by piece. */
module ParseFacts {
  import opened Scan
  import opened Ast
  import opened TagNames
  import opened Classes
  import opened Texts
  import opened Comments
  import opened TagNodes
  import opened Parser
  import opened Compiler

  /** A tag name followed by a character that cannot continue it is read
      whole. */
  lemma TagNameSplit(name: string, tail: string)
    requires IsTagName(name) && (tail == [] || !IsTagNameChar(tail[0]))
    ensures ProcessTag(name + tail) == Ok(tail, name)
  {
    var input := name + tail;
    SpanIs(input, IsTagNameChar, |name|);
    assert input[..|name|] == name && input[|name|..] == tail;
  }

  /** After a tag name, the head loop reads the rest of the line. */
  lemma NameThenHead(name: string, tail: string, st: Indent, attributeNodes: AttributeListParser)
    requires ValidUnit(st.unit) && IsTagName(name) && (tail == [] || !IsTagNameChar(tail[0]))
    ensures ReadTag(name + tail, st, attributeNodes) == ReadTagBody(tail, name, NoParts, st, attributeNodes)
  {
    TagNameSplit(name, tail);
    assert (name + tail)[0] == name[0];
  }

  /** A line starting with a dot is a `div` whose head starts at the dot. */
  lemma DotThenHead(cur: string, st: Indent, attributeNodes: AttributeListParser)
    requires ValidUnit(st.unit) && StartsWith(cur, ".")
    ensures ReadTag(cur, st, attributeNodes) == ReadTagBody(cur, "div", NoParts, st, attributeNodes)
  {
  }

  /** A turn of the head loop that reads something hands the rest to the
      next turn. */
  lemma StepThenHead(cur: string, tag: string, head: HeadParts, st: Indent, attributeNodes: AttributeListParser)
    requires ValidUnit(st.unit) && IsTagName(tag) && WellFormedParts(head)
    requires ReadTagStep(cur, st, attributeNodes).r.Ok? && !ReadTagStep(cur, st, attributeNodes).r.value.Stop?
    ensures var step := ReadTagStep(cur, st, attributeNodes);
      ReadTagBody(cur, tag, head, st, attributeNodes)
        == ReadTagBody(step.r.rest, tag, Collect(head, step.r.value), step.state, attributeNodes)
  {
  }

  /** A plain class name ended by a stop character is read whole. */
  lemma ClassScanOf(c: string, tail: string)
    requires c != [] && forall k :: 0 <= k < |c| ==> IsPlainClassChar(c[k])
    requires tail != [] && StopsClass(tail, 0)
    ensures ClassScan("." + c + tail) == Ok(tail, c)
  {
    var input := "." + c + tail;
    assert input[1..] == c + tail;
    assert forall k :: 1 <= k <= |c| ==> input[k] == c[k - 1];
    PlainClass(input, |c|);
    assert StopsClass(input[1..], |c|) by {
      assert input[1..][|c|] == tail[0];
      assert |c| + 1 < |input[1..]| ==> input[1..][|c| + 1] == tail[1];
    }
    assert input[|c| + 1..] == tail && input[1..|c| + 1] == c;
  }

  /** A plain class name ended by a stop character is collected after the
      classes before it, and the head loop goes on after it. */
  lemma ClassThenHead(c: string, tail: string, tag: string, head: HeadParts, st: Indent, attributeNodes: AttributeListParser)
    requires ValidUnit(st.unit) && IsTagName(tag) && WellFormedParts(head)
    requires c != [] && forall k :: 0 <= k < |c| ==> IsPlainClassChar(c[k])
    requires tail != [] && StopsClass(tail, 0)
    ensures ReadTagBody("." + c + tail, tag, head, st, attributeNodes)
      == ReadTagBody(tail, tag, Collect(head, Item(ClassItem(ClassNode(c)))), st, attributeNodes)
  {
    var input := "." + c + tail;
    ClassScanOf(c, tail);
    assert StartsWith(input, ".") && !StartsWith(input, "#");
    assert ReadTagStep(input, st, attributeNodes) == Parsed(Ok(tail, Item(ClassItem(ClassNode(c)))), st);
    StepThenHead(input, tag, head, st, attributeNodes);
  }

  /** A space, then text without a line feed, then a line feed: the text is
      read up to the line feed. */
  lemma TextOf(text: string, rest: string)
    requires text != [] && '\n' !in text
    ensures ProcessText(" " + text + "\n" + rest) == Ok("\n" + rest, text)
  {
    var input := " " + text + "\n" + rest;
    var s := input[1..];
    assert s == text + "\n" + rest;
    assert s[..|text|] == text;
    FindCharIs(s, '\n', |text|);
    assert s[|text|..] == "\n" + rest;
  }

  /** One-line text after a space is read up to the line feed, and the head
      loop goes on at the line feed. */
  lemma TextThenHead(text: string, rest: string, tag: string, head: HeadParts, st: Indent, attributeNodes: AttributeListParser)
    requires ValidUnit(st.unit) && IsTagName(tag) && WellFormedParts(head)
    requires text != [] && '\n' !in text
    ensures ReadTagBody(" " + text + "\n" + rest, tag, head, st, attributeNodes)
      == ReadTagBody("\n" + rest, tag, Collect(head, Item(TextItem(TextNode(text)))), st, attributeNodes)
  {
    var input := " " + text + "\n" + rest;
    TextOf(text, rest);
    assert StartsWith(input, " ") && !StartsWith(input, "#");
    assert ReadTagStep(input, st, attributeNodes) == Parsed(Ok("\n" + rest, Item(TextItem(TextNode(text)))), st);
    StepThenHead(input, tag, head, st, attributeNodes);
  }

  /** Text after a space with no line feed after it fails the whole tag at
      the text. */
  lemma TextWithoutLineFeed(text: string, tag: string, head: HeadParts, st: Indent, attributeNodes: AttributeListParser)
    requires ValidUnit(st.unit) && IsTagName(tag) && WellFormedParts(head)
    requires '\n' !in text
    ensures ReadTagBody(" " + text, tag, head, st, attributeNodes) == Parsed(Err(TakeUntil, text), st)
  {
    assert (" " + text)[1..] == text;
  }

  /** The head loop stops, leaving the input as it is and the state
      unchanged, at the end of the input, at a character that neither
      continues the head nor breaks the line, and at a line break followed by
      an unindented line. */
  lemma HeadEnds(cur: string, tag: string, head: HeadParts, st: Indent, attributeNodes: AttributeListParser)
    requires ValidUnit(st.unit) && IsTagName(tag) && WellFormedParts(head)
    requires || cur == []
             || (!IsHeadChar(cur[0]) && !StartsWithLineEnding(cur))
             || (StartsWithLineEnding(cur) && LineIndentation(cur) == [])
    ensures ReadTagBody(cur, tag, head, st, attributeNodes) == Parsed(Ok(cur, AssembleTag(tag, head)), st)
  {
    if StartsWithLineEnding(cur) && LineIndentation(cur) == [] {
      LineEndingIsNoHeadItem(cur);
      assert ReadLineBreak(cur, st, attributeNodes) == Parsed(Ok(cur, NotIndented), st);
    }
  }

  /** A tag name alone is a tag with nothing but its name. */
  lemma BareTag(name: string, st: Indent, attributeNodes: AttributeListParser)
    requires ValidUnit(st.unit) && IsTagName(name)
    ensures ReadTag(name, st, attributeNodes) == Parsed(Ok([], TagNode(name, None, None, None, NoChildren)), st)
  {
    assert name + [] == name;
    NameThenHead(name, [], st, attributeNodes);
    HeadEnds([], name, NoParts, st, attributeNodes);
  }

  /** The indentation of a line break followed by white space that holds
      no line break, then a character that is not white space. */
  lemma IndentationOf(indentation: string, line: string)
    requires forall k :: 0 <= k < |indentation| ==> indentation[k] == ' ' || indentation[k] == '\t'
    requires line == [] || !IsWhitespace(line[0])
    ensures StartsWithLineEnding("\n" + indentation + line)
    ensures LineIndentation("\n" + indentation + line) == indentation
    ensures AfterIndentation("\n" + indentation + line) == line
  {
    var s := "\n" + indentation + line;
    assert s[..1] == "\n";
    assert s[1..] == indentation + line;
    SpanIs(s, IsLineBreakChar, 1);
    var rest := s[1..];
    SpanIs(rest, IsWhitespace, |indentation|);
    assert rest[..|indentation|] == indentation && rest[|indentation|..] == line;
  }

  lemma FirstChar(s: string, c: char)
    ensures StartsWith(s, [c]) <==> |s| > 0 && s[0] == c
  {
    if |s| > 0 && s[0] == c {
      assert s[..1] == [c];
    }
  }

  /** A line break is neither an id nor a head item. */
  lemma LineEndingIsNoHeadItem(cur: string)
    requires StartsWithLineEnding(cur)
    ensures cur[0] == '\n' || cur[0] == '\r'
    ensures !StartsWith(cur, "#") && !StartsWith(cur, ".") && !StartsWith(cur, "(") && !StartsWith(cur, " ")
  {
    assert cur[0] == '\n' || cur[0] == '\r' by {
      assert cur[..1] == "\n" || cur[..2] == "\r\n";
    }
    FirstChar(cur, '#');
    FirstChar(cur, '.');
    FirstChar(cur, '(');
    FirstChar(cur, ' ');
  }

  /** A line break that leads to a child line makes the turn read that
      child. */
  lemma LineBreakStep(cur: string, st: Indent, attributeNodes: AttributeListParser)
    requires ValidUnit(st.unit) && StartsWithLineEnding(cur)
    requires ReadLineBreak(cur, st, attributeNodes).r.Ok? && ReadLineBreak(cur, st, attributeNodes).r.value.ChildLine?
    ensures var line := ReadLineBreak(cur, st, attributeNodes);
      ReadTagStep(cur, st, attributeNodes) == Parsed(Ok(line.r.rest, Child(line.r.value.node)), line.state)
  {
    LineEndingIsNoHeadItem(cur);
  }

  /** `cur` starts with a line break into a line indented one level deeper
      than depth `st.level`, and `next` is the state after it: the unit that
      indentation fixes when none is known, at the same depth. */
  predicate ChildBreak(cur: string, st: Indent, next: Indent) {
    && ValidUnit(st.unit)
    && StartsWithLineEnding(cur)
    && IsChildIndentation(LineIndentation(cur), st.unit, st.level)
    && next == Indent(if st.unit.None? then Some(LineIndentation(cur)) else st.unit, st.level)
  }

  /** Such a line break is read with the unit fixed and the depth kept. */
  lemma LineBreakNext(cur: string, st: Indent, next: Indent, attributeNodes: AttributeListParser)
    requires ChildBreak(cur, st, next)
    ensures ValidUnit(next.unit) && next.unit.Some?
    ensures IsChildIndentation(LineIndentation(cur), next.unit, next.level)
    ensures ReadLineBreak(cur, st, attributeNodes) == ReadIndentedLine(cur, next, attributeNodes)
  {
    IndentationIsUnit(LineIndentation(cur));
  }

  /** The line break before a child line reads as that child line. */
  lemma LineBreakChild(cur: string, st: Indent, next: Indent, attributeNodes: AttributeListParser)
    requires ChildBreak(cur, st, next)
    requires ValidUnit(next.unit) && next.unit.Some?
    requires ReadChild(AfterIndentation(cur), Indent(next.unit, next.level + 1), attributeNodes).r.Ok?
    ensures var child := ReadChild(AfterIndentation(cur), Indent(next.unit, next.level + 1), attributeNodes);
      ReadLineBreak(cur, st, attributeNodes) == Parsed(Ok(child.r.rest, ChildLine(child.r.value)), next)
  {
    LineBreakNext(cur, st, next, attributeNodes);
    IndentedLineChild(cur, next, attributeNodes);
  }

  /** A line break that leads to a child line makes the turn read that
      child. */
  lemma ChildAt(cur: string, st: Indent, next: Indent, attributeNodes: AttributeListParser)
    requires ChildBreak(cur, st, next)
    requires ValidUnit(next.unit) && next.unit.Some?
    requires ReadChild(AfterIndentation(cur), Indent(next.unit, next.level + 1), attributeNodes).r.Ok?
    ensures var child := ReadChild(AfterIndentation(cur), Indent(next.unit, next.level + 1), attributeNodes);
      ReadTagStep(cur, st, attributeNodes) == Parsed(Ok(child.r.rest, Child(child.r.value)), next)
  {
    LineBreakChild(cur, st, next, attributeNodes);
    LineBreakStep(cur, st, attributeNodes);
  }

  /** A line indented exactly one level deeper than the tag, holding a child
      that reads, is that child; the first such line of a document fixes the
      unit, and the depth is back to the tag's after the child. */
  lemma IndentedChild(indentation: string, line: string, st: Indent, next: Indent, attributeNodes: AttributeListParser)
    requires ValidUnit(st.unit)
    requires forall k :: 0 <= k < |indentation| ==> indentation[k] == ' ' || indentation[k] == '\t'
    requires line == [] || !IsWhitespace(line[0])
    requires IsChildIndentation(indentation, st.unit, st.level)
    requires next == Indent(if st.unit.None? then Some(indentation) else st.unit, st.level)
    requires ValidUnit(next.unit) && next.unit.Some?
    requires ReadChild(line, Indent(next.unit, next.level + 1), attributeNodes).r.Ok?
    ensures var child := ReadChild(line, Indent(next.unit, next.level + 1), attributeNodes);
      ReadTagStep("\n" + indentation + line, st, attributeNodes) == Parsed(Ok(child.r.rest, Child(child.r.value)), next)
  {
    IndentationOf(indentation, line);
    assert ChildBreak("\n" + indentation + line, st, next);
    ChildAt("\n" + indentation + line, st, next, attributeNodes);
  }

  /** A child line becomes the next child of the tag, and the head loop goes
      on after it. */
  lemma ChildLineThenHead(indentation: string, line: string, tag: string, head: HeadParts, st: Indent, next: Indent, attributeNodes: AttributeListParser)
    requires ValidUnit(st.unit) && IsTagName(tag) && WellFormedParts(head)
    requires forall k :: 0 <= k < |indentation| ==> indentation[k] == ' ' || indentation[k] == '\t'
    requires line == [] || !IsWhitespace(line[0])
    requires IsChildIndentation(indentation, st.unit, st.level)
    requires next == Indent(if st.unit.None? then Some(indentation) else st.unit, st.level)
    requires ValidUnit(next.unit) && next.unit.Some?
    requires ReadChild(line, Indent(next.unit, next.level + 1), attributeNodes).r.Ok?
    ensures var child := ReadChild(line, Indent(next.unit, next.level + 1), attributeNodes);
      ReadTagBody("\n" + indentation + line, tag, head, st, attributeNodes)
        == ReadTagBody(child.r.rest, tag, Collect(head, Child(child.r.value)), next, attributeNodes)
  {
    IndentedChild(indentation, line, st, next, attributeNodes);
    StepThenHead("\n" + indentation + line, tag, head, st, attributeNodes);
  }

  /** A child line that is not a comment is the tag on it. */
  lemma ChildTag(remaining: string, st: Indent, attributeNodes: AttributeListParser)
    requires ValidUnit(st.unit) && st.unit.Some? && !StartsWith(remaining, "/")
    requires ReadTag(remaining, st, attributeNodes).r.Ok?
    ensures var tag := ReadTag(remaining, st, attributeNodes);
      ReadChild(remaining, st, attributeNodes) == Parsed(Ok(tag.r.rest, Tag(tag.r.value)), tag.state)
  {
    NoCommentWithoutSlash(remaining);
    ChildReads(remaining, st, attributeNodes);
  }

  /** A top-level node that is not a comment is the tag there. */
  lemma TopTag(trimmed: string, st: Indent, attributeNodes: AttributeListParser)
    requires ValidUnit(st.unit) && !StartsWith(trimmed, "/")
    requires ReadTag(trimmed, st, attributeNodes).r.Ok?
    ensures var tag := ReadTag(trimmed, st, attributeNodes);
      ReadTopNode(trimmed, st, attributeNodes) == Parsed(Ok(tag.r.rest, Tag(tag.r.value)), tag.state)
  {
    NoCommentWithoutSlash(trimmed);
  }

  /** White space in front of a node is skipped. */
  lemma TrimmedStart(space: string, s: string)
    requires forall k :: 0 <= k < |space| ==> IsWhitespace(space[k])
    requires s == [] || !IsWhitespace(s[0])
    ensures TrimStart(space + s) == s
  {
    SpanIs(space + s, IsWhitespace, |space|);
    assert (space + s)[|space|..] == s;
  }
}
