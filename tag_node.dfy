/** Tag lines: the head of a tag (name, classes, attributes, text) and the
    lines below it that are indented one level deeper, which become its
    children. The unit of indentation and the depth live in the parse
    context. */
module TagNodes {
  import opened Scan
  import opened Ast
  import opened TagNames
  import opened Classes
  import opened Texts
  import opened Comments

  /** The parser of a parenthesised attribute list is not part of this model;
      it is a parameter, of which only one thing is known: when it succeeds
      it has consumed at least one character. */
  type AttributeListParser = f: string -> Res<seq<AttributeNode>>
    | forall s :: f(s).Ok? ==> Consumes(s, f(s).rest)
    witness (s: string) => Incomplete

  /** An indentation that mixes tabs and spaces. */
  predicate IsMixedIndentation(s: string) {
    '\t' in s && ' ' in s
  }

  /** A unit of indentation, once known, is non-empty white space that does
      not mix tabs and spaces. */
  predicate ValidUnit(unit: Option<string>) {
    unit.Some? ==>
      && |unit.value| > 0
      && !IsMixedIndentation(unit.value)
      && forall i :: 0 <= i < |unit.value| ==> IsWhitespace(unit.value[i])
  }

  /** The white space that follows the run of line breaks at the start of
      `s`; it may itself hold further line breaks. */
  function LineIndentation(s: string): (indentation: string)
    ensures forall i :: 0 <= i < |indentation| ==> IsWhitespace(indentation[i])
  {
    var rest := s[Span(s, IsLineBreakChar)..];
    rest[..Span(rest, IsWhitespace)]
  }

  /** The text of the line after its indentation. */
  function AfterIndentation(s: string): (remaining: string)
    requires StartsWithLineEnding(s)
    ensures IsSuffix(remaining, s) && |remaining| + |LineIndentation(s)| < |s|
  {
    var rest := s[Span(s, IsLineBreakChar)..];
    assert s[|s| - |rest|..] == rest;
    var n := Span(rest, IsWhitespace);
    assert rest[|rest| - |rest[n..]|..] == rest[n..];
    SuffixTrans(rest[n..], rest, s);
    rest[n..]
  }

  /** The first indentation of a document becomes its unit. */
  lemma IndentationIsUnit(indentation: string)
    requires |indentation| > 0 && !IsMixedIndentation(indentation)
    requires forall i :: 0 <= i < |indentation| ==> IsWhitespace(indentation[i])
    ensures ValidUnit(Some(indentation))
  {
  }

  /** An indentation that makes the next line a child at depth `level`: not
      empty, not mixed, and exactly one unit longer than `level` units; while
      no unit is known the indentation itself becomes the unit. */
  predicate IsChildIndentation(indentation: string, unit: Option<string>, level: nat) {
    && |indentation| > 0
    && !IsMixedIndentation(indentation)
    && Units(|if unit.Some? then unit.value else indentation|, level + 1) == |indentation|
  }

  /** The length of `count` units of length `unitLength`, counted unit by
      unit, so that the depth checks stay linear for the solver. */
  function Units(unitLength: nat, count: nat): nat {
    if count == 0 then 0 else unitLength + Units(unitLength, count - 1)
  }

  /** `count` units of length `unitLength` are `unitLength * count` long. */
  lemma {:induction false} UnitsIsProduct(unitLength: nat, count: nat)
    ensures Units(unitLength, count) == unitLength * count
  {
    if count > 0 {
      UnitsIsProduct(unitLength, count - 1);
    }
  }

  /** A character that continues the head of a tag. */
  predicate IsHeadChar(c: char) {
    c == '#' || c == '.' || c == '(' || c == ' '
  }

  predicate WellFormedText(text: Option<TextNode>) {
    text.Some? ==> |text.value.text| > 0 && '\n' !in text.value.text
  }

  /** What the parser guarantees about a tag: a valid name, no empty class or
      child list, one-line text, and well-formed children. */
  predicate WellFormedTag(t: TagNode)
    decreases t
  {
    && IsTagName(t.tag)
    && t.classes != Some([])
    && WellFormedText(t.text)
    && match t.children
       case NoChildren => true
       case SomeChildren(nodes) =>
         |nodes| > 0 && forall i :: 0 <= i < |nodes| ==> WellFormedNode(nodes[i])
  }

  /** Only tags and one-line comments are ever produced. */
  predicate WellFormedNode(n: HsmlNode)
    decreases n
  {
    match n
    case Tag(t) => WellFormedTag(t)
    case Comment(c) => '\n' !in c.text
    case _ => false
  }

  /** A list of parsed nodes, all well formed. */
  predicate AllWellFormed(nodes: seq<HsmlNode>) {
    forall i :: 0 <= i < |nodes| ==> WellFormedNode(nodes[i])
  }

  lemma AppendWellFormed(nodes: seq<HsmlNode>, n: HsmlNode)
    requires AllWellFormed(nodes) && WellFormedNode(n)
    ensures AllWellFormed(nodes + [n])
  {
    forall i | 0 <= i < |nodes| + 1
      ensures WellFormedNode((nodes + [n])[i])
    {
      if i < |nodes| {
        assert (nodes + [n])[i] == nodes[i];
      }
    }
  }

  /** Every tree the parser builds can be compiled. */
  lemma {:induction false} WellFormedIsRenderable(n: HsmlNode)
    requires WellFormedNode(n)
    ensures Renderable(n)
    decreases n
  {
    if n.Tag? && n.tagNode.children.SomeChildren? {
      var nodes := n.tagNode.children.nodes;
      forall i | 0 <= i < |nodes|
        ensures Renderable(nodes[i])
      {
        WellFormedIsRenderable(nodes[i]);
      }
    }
  }

  /** Where a tag ends: `rest` does not continue its head, and a line break
      in it does not lead to a child one level below `level0`. The depth
      `level` stays one above `level0` when that line is indented at all. */
  predicate EndsHead(rest: string, unit: Option<string>, level0: nat, level: nat) {
    && (rest == [] || !IsHeadChar(rest[0]))
    && (StartsWithLineEnding(rest) ==> !IsChildIndentation(LineIndentation(rest), unit, level0))
    && level == level0 + if StartsWithLineEnding(rest) && |LineIndentation(rest)| > 0 then 1 else 0
  }

  /** A parse result together with the indentation state after it. */
  datatype Parsed<+T> = Parsed(r: Res<T>, state: Indent)

  /** What the head loop has collected so far. */
  datatype HeadParts = HeadParts(
    classes: seq<ClassNode>,
    attributes: Option<seq<AttributeNode>>,
    text: Option<TextNode>,
    children: seq<HsmlNode>)

  const NoParts := HeadParts([], None, None, [])

  predicate WellFormedParts(head: HeadParts) {
    && WellFormedText(head.text)
    && forall i :: 0 <= i < |head.children| ==> WellFormedNode(head.children[i])
  }

  /** One item of a tag's head. */
  datatype HeadItem =
    | ClassItem(classNode: ClassNode)
    | AttributesItem(attributes: seq<AttributeNode>)
    | TextItem(textNode: TextNode)

  /** What one turn of the head loop found. */
  datatype TagStep =
    | Item(item: HeadItem)
    | Child(node: HsmlNode)
    | Stop                  // nothing more belongs to the tag

  /** What a line break after a tag's head leads to. */
  datatype LineOutcome =
    | NotIndented       // the next line has no indentation: the tag ends
    | OtherDepth        // indented, but not one level deeper: the tag ends
    | ChildLine(node: HsmlNode)

  /** Adds what one turn of the head loop found: classes and children
      accumulate, a later attribute list or text replaces an earlier one. */
  function Collect(head: HeadParts, step: TagStep): (next: HeadParts)
    requires !step.Stop?
    requires WellFormedParts(head)
    requires step.Item? && step.item.TextItem? ==> WellFormedText(Some(step.item.textNode))
    requires step.Child? ==> WellFormedNode(step.node)
    ensures WellFormedParts(next)
    ensures step.Item? && step.item.ClassItem? ==> next.classes == head.classes + [step.item.classNode]
    ensures step.Child? ==> next.children == head.children + [step.node]
    ensures step.Item? && step.item.AttributesItem? ==> next.attributes == Some(step.item.attributes)
    ensures step.Item? && step.item.TextItem? ==> next.text == Some(step.item.textNode)
  {
    match step
    case Item(ClassItem(c)) => head.(classes := head.classes + [c])
    case Item(AttributesItem(a)) => head.(attributes := Some(a))
    case Item(TextItem(t)) => head.(text := Some(t))
    case Child(node) => head.(children := head.children + [node])
  }

  /** The tag the head loop has collected; empty class and child lists are
      left out. */
  function AssembleTag(tag: string, head: HeadParts): (t: TagNode)
    requires IsTagName(tag) && WellFormedParts(head)
    ensures WellFormedTag(t) && t.tag == tag
  {
    TagNode(
      tag,
      if head.classes == [] then None else Some(head.classes),
      head.attributes,
      head.text,
      if head.children == [] then NoChildren else SomeChildren(head.children))
  }

  /** One tag read from `input` in indentation state `st`: its name (`div`
      when the line starts with `.` or `#`), then its head and children. */
  function ReadTag(input: string, st: Indent, attributeNodes: AttributeListParser): (out: Parsed<TagNode>)
    requires ValidUnit(st.unit)
    decreases |input|, 4
    ensures ValidUnit(out.state.unit)
    ensures st.unit.Some? ==> out.state.unit == st.unit
    ensures StartsWith(input, "#") ==> out.r == Panic(IdNotSupported)
    ensures !StartsWith(input, ".") && !StartsWith(input, "#") && !ProcessTag(input).Ok? ==>
      out == Parsed(ProcessTag(input).PropagateFailure(), st)
    ensures out.r.Err? || out.r.Incomplete? ==> out.state.level == st.level
    ensures out.r.Ok? ==> Consumes(input, out.r.rest) && WellFormedTag(out.r.value)
    ensures out.r.Ok? ==> out.r.value.tag == if StartsWith(input, ".") then "div" else ProcessTag(input).value
    ensures out.r.Ok? ==> EndsHead(out.r.rest, out.state.unit, st.level, out.state.level)
  {
    if StartsWith(input, ".") || StartsWith(input, "#") then
      ReadTagBody(input, "div", NoParts, st, attributeNodes)
    else
      var name := ProcessTag(input);
      if !name.Ok? then Parsed(name.PropagateFailure(), st)
      else
        ConcatSuffix(name.value, name.rest, input);
        var out := ReadTagBody(name.rest, name.value, NoParts, st, attributeNodes);
        if out.r.Ok? then SuffixTrans(out.r.rest, name.rest, input); out else out
  }

  /** The head loop of a tag from `cur` on, with `head` collected so far:
      each turn reads a head item or a child line, until a turn stops. */
  function ReadTagBody(cur: string, tagName: string, head: HeadParts, st: Indent, attributeNodes: AttributeListParser)
    : (out: Parsed<TagNode>)
    requires ValidUnit(st.unit) && IsTagName(tagName) && WellFormedParts(head)
    decreases |cur|, 3
    ensures ValidUnit(out.state.unit)
    ensures st.unit.Some? ==> out.state.unit == st.unit
    ensures StartsWith(cur, "#") ==> out.r == Panic(IdNotSupported)
    ensures out.r.Err? || out.r.Incomplete? ==> out.state.level == st.level
    ensures out.r.Ok? ==> IsSuffix(out.r.rest, cur) && WellFormedTag(out.r.value) && out.r.value.tag == tagName
    ensures out.r.Ok? && StartsWith(cur, ".") ==> Consumes(cur, out.r.rest)
    ensures out.r.Ok? ==> EndsHead(out.r.rest, out.state.unit, st.level, out.state.level)
  {
    var step := ReadTagStep(cur, st, attributeNodes);
    if !step.r.Ok? then Parsed(step.r.PropagateFailure(), step.state)
    else if step.r.value.Stop? then Parsed(Ok(cur, AssembleTag(tagName, head)), step.state)
    else
      var out := ReadTagBody(step.r.rest, tagName, Collect(head, step.r.value), step.state, attributeNodes);
      if out.r.Ok? then SuffixTrans(out.r.rest, step.r.rest, cur); out else out
  }

  /** One turn of the head loop: an id panics, `.`, `(` and a space start a
      head item, a line break may lead to a child; anything else, a line
      break included, ends the tag and leaves the input as it is. */
  function ReadTagStep(cur: string, st: Indent, attributeNodes: AttributeListParser): (out: Parsed<TagStep>)
    requires ValidUnit(st.unit)
    decreases |cur|, 2
    ensures ValidUnit(out.state.unit)
    ensures st.unit.Some? ==> out.state.unit == st.unit
    ensures StartsWith(cur, "#") ==> out == Parsed(Panic(IdNotSupported), st)
    ensures cur == [] || (!IsHeadChar(cur[0]) && !StartsWithLineEnding(cur)) ==> out == Parsed(Ok(cur, Stop), st)
    ensures out.r.Err? || out.r.Incomplete? ==> out.state.level == st.level
    ensures out.r.Ok? && !out.r.value.Stop? ==> Consumes(cur, out.r.rest) && out.state.level == st.level
    ensures out.r.Ok? && out.r.value.Item? && out.r.value.item.TextItem? ==> WellFormedText(Some(out.r.value.item.textNode))
    ensures out.r.Ok? && out.r.value.Child? ==> WellFormedNode(out.r.value.node)
    ensures out.r.Ok? && out.r.value.Stop? ==>
      out.r.rest == cur && EndsHead(cur, out.state.unit, st.level, out.state.level)
  {
    if StartsWith(cur, "#") then Parsed(Panic(IdNotSupported), st)
    else if StartsWith(cur, ".") || StartsWith(cur, "(") || StartsWith(cur, " ") then
      var item := ReadHeadItem(cur, attributeNodes);
      if item.Ok? then Parsed(Ok(item.rest, Item(item.value)), st) else Parsed(item.PropagateFailure(), st)
    else if StartsWithLineEnding(cur) then
      var line := ReadLineBreak(cur, st, attributeNodes);
      if !line.r.Ok? then Parsed(line.r.PropagateFailure(), line.state)
      else if line.r.value.ChildLine? then Parsed(Ok(line.r.rest, Child(line.r.value.node)), line.state)
      else Parsed(Ok(cur, Stop), line.state)
    else Parsed(Ok(cur, Stop), st)
  }

  /** The head-item arms of the tag loop: a class after `.`, an attribute
      list after `(`, one-line text after a space; a failure of the item
      parser is passed on unchanged. */
  function ReadHeadItem(cur: string, attributeNodes: AttributeListParser): (r: Res<HeadItem>)
    requires StartsWith(cur, ".") || StartsWith(cur, "(") || StartsWith(cur, " ")
    ensures r.Ok? ==> Consumes(cur, r.rest)
    ensures r.Ok? && r.value.TextItem? ==> WellFormedText(Some(r.value.textNode))
    ensures StartsWith(cur, ".") ==>
      r == if ClassScan(cur).Ok? then Ok(ClassScan(cur).rest, ClassItem(ClassNode(ClassScan(cur).value)))
           else ClassScan(cur).PropagateFailure()
    ensures StartsWith(cur, "(") ==>
      r == if attributeNodes(cur).Ok? then Ok(attributeNodes(cur).rest, AttributesItem(attributeNodes(cur).value))
           else attributeNodes(cur).PropagateFailure()
    ensures StartsWith(cur, " ") ==>
      r == if ProcessText(cur).Ok? then Ok(ProcessText(cur).rest, TextItem(TextNode(ProcessText(cur).value)))
           else ProcessText(cur).PropagateFailure()
  {
    if StartsWith(cur, ".") then
      var c := ClassScan(cur);
      if !c.Ok? then c.PropagateFailure()
      else
        ClassScanSplits(cur);
        ConcatSuffix("." + c.value, c.rest, cur);
        Ok(c.rest, ClassItem(ClassNode(c.value)))
    else if StartsWith(cur, "(") then
      var a := attributeNodes(cur);
      if a.Ok? then Ok(a.rest, AttributesItem(a.value)) else a.PropagateFailure()
    else
      var t := ParseTextNode(cur);
      if !t.Ok? then t.PropagateFailure()
      else
        ConcatSuffix(" " + t.value.text, t.rest, cur);
        Ok(t.rest, TextItem(t.value))
  }

  /** The line-break arm of the head loop: reads the indentation of the next
      line, fixes the unit if none is known yet, and reads the line as a
      child when it is indented exactly one level deeper. The depth is raised
      for the child and restored after it, but stays raised when the line is
      indented to another depth. The rest is the input after the child, and
      the input itself when there is no child. */
  function ReadLineBreak(cur: string, st: Indent, attributeNodes: AttributeListParser): (out: Parsed<LineOutcome>)
    requires StartsWithLineEnding(cur) && ValidUnit(st.unit)
    decreases |cur|, 1
    ensures ValidUnit(out.state.unit)
    ensures var indentation := LineIndentation(cur);
      out.state.unit == if st.unit.None? && |indentation| > 0 && !IsMixedIndentation(indentation) then Some(indentation) else st.unit
    ensures IsMixedIndentation(LineIndentation(cur)) ==> out == Parsed(Err(TagMismatch, cur), st)
    ensures out.r.Err? ==> out == Parsed(Err(TagMismatch, cur), st) && IsMixedIndentation(LineIndentation(cur))
    ensures !out.r.Incomplete?
    ensures out.r.Ok? ==> (out.r.value.NotIndented? <==> |LineIndentation(cur)| == 0)
    ensures out.r.Ok? ==> (out.r.value.ChildLine? <==> IsChildIndentation(LineIndentation(cur), st.unit, st.level))
    ensures out.r.Ok? && !out.r.value.ChildLine? ==> out.r.rest == cur
    ensures out.r.Ok? && out.r.value.ChildLine? ==> Consumes(cur, out.r.rest) && WellFormedNode(out.r.value.node)
    ensures out.r.Ok? ==> out.state.level == st.level + if out.r.value.OtherDepth? then 1 else 0
  {
    var indentation := LineIndentation(cur);
    if indentation == [] then Parsed(Ok(cur, NotIndented), st)
    else if IsMixedIndentation(indentation) then Parsed(Err(TagMismatch, cur), st)
    else
      IndentationIsUnit(indentation);
      var unit := if st.unit.None? then Some(indentation) else st.unit;
      ReadIndentedLine(cur, Indent(unit, st.level), attributeNodes)
  }

  /** A line break followed by an indentation that is neither empty nor
      mixed, once the unit is known: a child line when the indentation is one
      level deeper, otherwise the end of the tag with the depth left raised. */
  function ReadIndentedLine(cur: string, st: Indent, attributeNodes: AttributeListParser): (out: Parsed<LineOutcome>)
    requires StartsWithLineEnding(cur) && ValidUnit(st.unit) && st.unit.Some?
    requires |LineIndentation(cur)| > 0 && !IsMixedIndentation(LineIndentation(cur))
    decreases |cur|, 0
    ensures out.state.unit == st.unit
    ensures !IsChildIndentation(LineIndentation(cur), st.unit, st.level) ==>
      out == Parsed(Ok(cur, OtherDepth), Indent(st.unit, st.level + 1))
    ensures IsChildIndentation(LineIndentation(cur), st.unit, st.level) ==>
      && (!out.r.Ok? ==> out.r.Panic? || out.r.Hang?)
      && (out.r.Ok? ==> out.r.value.ChildLine? && Consumes(cur, out.r.rest)
                        && WellFormedNode(out.r.value.node) && out.state.level == st.level)
    ensures var child := ReadChild(AfterIndentation(cur), Indent(st.unit, st.level + 1), attributeNodes);
      IsChildIndentation(LineIndentation(cur), st.unit, st.level) && child.r.Ok? ==>
      out == Parsed(Ok(child.r.rest, ChildLine(child.r.value)), Indent(st.unit, st.level))
    ensures var child := ReadChild(AfterIndentation(cur), Indent(st.unit, st.level + 1), attributeNodes);
      IsChildIndentation(LineIndentation(cur), st.unit, st.level) && !child.r.Ok? ==>
      out == Parsed(child.r.PropagateFailure(), child.state)
  {
    if !IsChildIndentation(LineIndentation(cur), st.unit, st.level) then Parsed(Ok(cur, OtherDepth), Indent(st.unit, st.level + 1))
    else
      var remaining := AfterIndentation(cur);
      var child := ReadChild(remaining, Indent(st.unit, st.level + 1), attributeNodes);
      if !child.r.Ok? then Parsed(child.r.PropagateFailure(), child.state)
      else
        SuffixTrans(child.r.rest, remaining, cur);
        Parsed(Ok(child.r.rest, ChildLine(child.r.value)), Indent(st.unit, st.level))
  }

  /** Once the unit is known, a line one level deeper holding a child that
      reads is that child line, at the same depth. */
  lemma IndentedLineChild(cur: string, st: Indent, attributeNodes: AttributeListParser)
    requires StartsWithLineEnding(cur) && ValidUnit(st.unit) && st.unit.Some?
    requires IsChildIndentation(LineIndentation(cur), st.unit, st.level)
    requires ReadChild(AfterIndentation(cur), Indent(st.unit, st.level + 1), attributeNodes).r.Ok?
    ensures var child := ReadChild(AfterIndentation(cur), Indent(st.unit, st.level + 1), attributeNodes);
      ReadIndentedLine(cur, st, attributeNodes) == Parsed(Ok(child.r.rest, ChildLine(child.r.value)), Indent(st.unit, st.level))
  {
  }

  /** A child that does not read fails the line the same way. */
  lemma IndentedLineFails(cur: string, st: Indent, attributeNodes: AttributeListParser)
    requires StartsWithLineEnding(cur) && ValidUnit(st.unit) && st.unit.Some?
    requires IsChildIndentation(LineIndentation(cur), st.unit, st.level)
    requires !ReadChild(AfterIndentation(cur), Indent(st.unit, st.level + 1), attributeNodes).r.Ok?
    ensures var child := ReadChild(AfterIndentation(cur), Indent(st.unit, st.level + 1), attributeNodes);
      ReadIndentedLine(cur, st, attributeNodes) == Parsed(child.r.PropagateFailure(), child.state)
  {
  }

  /** A line indented as a child: a `//!` comment, else a `//` comment, else
      a tag, which must succeed; a child tag that fails stops the whole
      parse. */
  function ReadChild(remaining: string, st: Indent, attributeNodes: AttributeListParser): (out: Parsed<HsmlNode>)
    requires ValidUnit(st.unit) && st.unit.Some?
    decreases |remaining|, 5
    ensures out.state.unit == st.unit
    ensures out.r.Ok? ==> Consumes(remaining, out.r.rest) && WellFormedNode(out.r.value)
    ensures !out.r.Ok? ==> out.r.Panic? || out.r.Hang?
  {
    var native := ParseCommentNativeNode(remaining);
    if native.Ok? then
      ConcatSuffix("//!" + native.value.text, native.rest, remaining);
      Parsed(Ok(native.rest, Comment(native.value)), st)
    else
      var dev := ParseCommentDevNode(remaining);
      if dev.Ok? then
        ConcatSuffix("//" + dev.value.text, dev.rest, remaining);
        Parsed(Ok(dev.rest, Comment(dev.value)), st)
      else
        var child := ReadTag(remaining, st, attributeNodes);
        if child.r.Err? || child.r.Incomplete? then Parsed(Panic(ChildTagFailed), child.state)
        else if !child.r.Ok? then Parsed(child.r.PropagateFailure(), child.state)
        else Parsed(Ok(child.r.rest, Tag(child.r.value)), child.state)
  }

  /** What a child line reads as: a `//!` comment, else a `//` comment,
      else the tag on it, where a tag that fails with an error or for want of
      input becomes a panic. */
  lemma ChildReads(remaining: string, st: Indent, attributeNodes: AttributeListParser)
    requires ValidUnit(st.unit) && st.unit.Some?
    ensures var out := ReadChild(remaining, st, attributeNodes);
      ProcessNativeComment(remaining).Ok? ==>
      out == Parsed(Ok(ProcessNativeComment(remaining).rest, Comment(CommentNode(ProcessNativeComment(remaining).value, false))), st)
    ensures var out := ReadChild(remaining, st, attributeNodes);
      !ProcessNativeComment(remaining).Ok? && ProcessDevComment(remaining).Ok? ==>
      out == Parsed(Ok(ProcessDevComment(remaining).rest, Comment(CommentNode(ProcessDevComment(remaining).value, true))), st)
    ensures var out := ReadChild(remaining, st, attributeNodes);
      var tag := ReadTag(remaining, st, attributeNodes);
      !ProcessNativeComment(remaining).Ok? && !ProcessDevComment(remaining).Ok? ==>
      out == Parsed(match tag.r
        case Ok(rest, t) => Ok(rest, Tag(t))
        case Err(_, _) => Panic(ChildTagFailed)
        case Incomplete => Panic(ChildTagFailed)
        case Panic(f) => Panic(f)
        case Hang => Hang, tag.state)
  {
  }

  /** Parses one tag, updating the indentation context as `ReadTag` says. */
  method ParseTagNode(input: string, ctx: ProcessContext, attributeNodes: AttributeListParser)
    returns (r: Res<TagNode>)
    requires ValidUnit(ctx.indentString)
    modifies ctx
    decreases |input|, 4
    ensures Parsed(r, ctx.State()) == ReadTag(input, old(ctx.State()), attributeNodes)
  {
    if StartsWith(input, ".") || StartsWith(input, "#") {
      r := ParseTagBody(input, "div", ctx, attributeNodes);
    } else {
      var p :- ProcessTag(input);
      r := ParseTagBody(p.0, p.1, ctx, attributeNodes);
    }
  }

  /** The head loop of `ParseTagNode` after the tag name: reads head items
      and child lines from `start` until a turn stops. */
  method ParseTagBody(start: string, tagName: string, ctx: ProcessContext, attributeNodes: AttributeListParser)
    returns (r: Res<TagNode>)
    requires ValidUnit(ctx.indentString) && IsTagName(tagName)
    modifies ctx
    decreases |start|, 3
    ensures Parsed(r, ctx.State()) == ReadTagBody(start, tagName, NoParts, old(ctx.State()), attributeNodes)
  {
    var cur := start;
    var head := NoParts;
    while true
      invariant ValidUnit(ctx.indentString) && WellFormedParts(head) && |cur| <= |start|
      invariant ReadTagBody(cur, tagName, head, ctx.State(), attributeNodes)
        == ReadTagBody(start, tagName, NoParts, old(ctx.State()), attributeNodes)
      decreases |cur|
    {
      var step :- ParseTagStep(cur, ctx, attributeNodes);
      if step.1.Stop? {
        break;
      }
      head := Collect(head, step.1);
      cur := step.0;
    }
    return Ok(cur, AssembleTag(tagName, head));
  }

  /** One turn of the head loop, as `ReadTagStep` says. */
  method ParseTagStep(cur: string, ctx: ProcessContext, attributeNodes: AttributeListParser)
    returns (r: Res<TagStep>)
    requires ValidUnit(ctx.indentString)
    modifies ctx
    decreases |cur|, 2
    ensures Parsed(r, ctx.State()) == ReadTagStep(cur, old(ctx.State()), attributeNodes)
  {
    if StartsWith(cur, "#") {
      return Panic(IdNotSupported);
    }
    if StartsWith(cur, ".") || StartsWith(cur, "(") || StartsWith(cur, " ") {
      var p :- ParseHeadItem(cur, attributeNodes);
      return Ok(p.0, Item(p.1));
    }
    if StartsWithLineEnding(cur) {
      var line :- ParseLineBreak(cur, ctx, attributeNodes);
      if line.1.ChildLine? {
        return Ok(line.0, Child(line.1.node));
      }
    }
    return Ok(cur, Stop);
  }

  /** The head-item arms, as `ReadHeadItem` says. */
  method ParseHeadItem(cur: string, attributeNodes: AttributeListParser) returns (r: Res<HeadItem>)
    requires StartsWith(cur, ".") || StartsWith(cur, "(") || StartsWith(cur, " ")
    ensures r == ReadHeadItem(cur, attributeNodes)
  {
    if StartsWith(cur, ".") {
      var p :- ParseClassNode(cur);
      return Ok(p.0, ClassItem(p.1));
    } else if StartsWith(cur, "(") {
      var p :- attributeNodes(cur);
      return Ok(p.0, AttributesItem(p.1));
    } else {
      var p :- ParseTextNode(cur);
      return Ok(p.0, TextItem(p.1));
    }
  }

  /** The line-break arm of the head loop, as `ReadLineBreak` says. */
  method ParseLineBreak(cur: string, ctx: ProcessContext, attributeNodes: AttributeListParser)
    returns (r: Res<LineOutcome>)
    requires StartsWithLineEnding(cur) && ValidUnit(ctx.indentString)
    modifies ctx
    decreases |cur|, 1
    ensures Parsed(r, ctx.State()) == ReadLineBreak(cur, old(ctx.State()), attributeNodes)
  {
    var indentation := LineIndentation(cur);
    if indentation == [] {
      return Ok(cur, NotIndented);
    }
    if IsMixedIndentation(indentation) {
      return Err(TagMismatch, cur);
    }
    IndentationIsUnit(indentation);
    if ctx.indentString.None? {
      ctx.indentString := Some(indentation);
    }
    r := ParseIndentedLine(cur, ctx, attributeNodes);
  }

  /** The line-break arm once the unit is known, as `ReadIndentedLine` says. */
  method ParseIndentedLine(cur: string, ctx: ProcessContext, attributeNodes: AttributeListParser)
    returns (r: Res<LineOutcome>)
    requires StartsWithLineEnding(cur) && ValidUnit(ctx.indentString) && ctx.indentString.Some?
    requires |LineIndentation(cur)| > 0 && !IsMixedIndentation(LineIndentation(cur))
    modifies ctx
    decreases |cur|, 0
    ensures Parsed(r, ctx.State()) == ReadIndentedLine(cur, old(ctx.State()), attributeNodes)
  {
    var indentation := LineIndentation(cur);
    var remaining := AfterIndentation(cur);
    var indentationLevel := ctx.indentLevel;
    ghost var st := ctx.State();
    ctx.indentLevel := ctx.indentLevel + 1;
    // the unit is known now, so this is the test of unit length times depth
    if !IsChildIndentation(indentation, ctx.indentString, indentationLevel) {
      return Ok(cur, OtherDepth);
    }
    ghost var inner := ctx.State();
    assert inner == Indent(st.unit, st.level + 1);
    ghost var read := ReadChild(remaining, inner, attributeNodes);
    var child := ParseChild(remaining, ctx, attributeNodes);
    assert Parsed(child, ctx.State()) == read;
    if !child.Ok? {
      IndentedLineFails(cur, st, attributeNodes);
      return child.PropagateFailure();
    }
    IndentedLineChild(cur, st, attributeNodes);
    assert ctx.indentString == st.unit;
    ctx.indentLevel := indentationLevel;
    return Ok(child.rest, ChildLine(child.value));
  }

  /** A child line, as `ReadChild` says. */
  method ParseChild(remaining: string, ctx: ProcessContext, attributeNodes: AttributeListParser)
    returns (r: Res<HsmlNode>)
    requires ValidUnit(ctx.indentString) && ctx.indentString.Some?
    modifies ctx
    decreases |remaining|, 5
    ensures Parsed(r, ctx.State()) == ReadChild(remaining, old(ctx.State()), attributeNodes)
  {
    var native := ParseCommentNativeNode(remaining);
    if native.Ok? {
      return Ok(native.rest, Comment(native.value));
    }
    var dev := ParseCommentDevNode(remaining);
    if dev.Ok? {
      return Ok(dev.rest, Comment(dev.value));
    }
    var child := ParseTagNode(remaining, ctx, attributeNodes);
    if child.Err? || child.Incomplete? {
      return Panic(ChildTagFailed);
    }
    if !child.Ok? {
      return child.PropagateFailure();
    }
    return Ok(child.rest, Tag(child.value));
  }
}
