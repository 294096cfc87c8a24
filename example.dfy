/** A worked document: a heading, then a card holding one indented child,
    read from its text by the parser and written out by the compiler. The
    general lemmas follow one line at a time through the head loop; the
    concrete ones at the end put them together for one document. */
module Example {
  import opened Scan
  import opened Ast
  import opened Classes
  import opened TagNames
  import opened TagNodes
  import opened Parser
  import opened ParseFacts
  import opened Compiler

  /** A class name of plain characters only. */
  predicate IsPlainClass(c: string) {
    c != [] && forall k :: 0 <= k < |c| ==> IsPlainClassChar(c[k])
  }

  /** Text that fits on one line. */
  predicate IsOneLine(text: string) {
    text != [] && '\n' !in text
  }

  /** The tag a line `tag.c text` reads as. */
  function ClassedText(tag: string, c: string, text: string): TagNode {
    TagNode(tag, Some([ClassNode(c)]), None, Some(TextNode(text)), NoChildren)
  }

  /** The head of a tag after its first class. */
  lemma FirstClass(c: string)
    ensures Collect(NoParts, Item(ClassItem(ClassNode(c)))) == HeadParts([ClassNode(c)], None, None, [])
  {
    assert [] + [ClassNode(c)] == [ClassNode(c)];
  }

  /** A line feed in front of an unindented line ends a tag. */
  lemma EndsBeforeUnindented(rest: string, tag: string, head: HeadParts, st: Indent, attributeNodes: AttributeListParser)
    requires ValidUnit(st.unit) && IsTagName(tag) && WellFormedParts(head)
    requires rest == [] || !IsWhitespace(rest[0])
    ensures ReadTagBody("\n" + rest, tag, head, st, attributeNodes) == Parsed(Ok("\n" + rest, AssembleTag(tag, head)), st)
  {
    IndentationOf("", rest);
    assert "\n" + "" + rest == "\n" + rest;
    HeadEnds("\n" + rest, tag, head, st, attributeNodes);
  }

  /** A class and one-line text are collected in that order. */
  lemma ClassThenText(c: string, text: string, rest: string, tag: string, st: Indent, attributeNodes: AttributeListParser)
    requires ValidUnit(st.unit) && IsTagName(tag) && IsPlainClass(c) && IsOneLine(text)
    ensures ReadTagBody("." + c + (" " + text + "\n" + rest), tag, NoParts, st, attributeNodes)
      == ReadTagBody("\n" + rest, tag, HeadParts([ClassNode(c)], None, Some(TextNode(text)), []), st, attributeNodes)
  {
    ClassThenHead(c, " " + text + "\n" + rest, tag, NoParts, st, attributeNodes);
    FirstClass(c);
    TextThenHead(text, rest, tag, HeadParts([ClassNode(c)], None, None, []), st, attributeNodes);
  }

  /** The head of a line `.c text`, up to the line feed in front of an
      unindented line, is that one tag; the state is untouched. */
  lemma ClassedTextHead(c: string, text: string, rest: string, tag: string, st: Indent, attributeNodes: AttributeListParser)
    requires ValidUnit(st.unit) && IsTagName(tag) && IsPlainClass(c) && IsOneLine(text)
    requires rest == [] || !IsWhitespace(rest[0])
    ensures ReadTagBody("." + c + (" " + text + "\n" + rest), tag, NoParts, st, attributeNodes)
      == Parsed(Ok("\n" + rest, ClassedText(tag, c, text)), st)
  {
    ClassThenText(c, text, rest, tag, st, attributeNodes);
    EndsBeforeUnindented(rest, tag, HeadParts([ClassNode(c)], None, Some(TextNode(text)), []), st, attributeNodes);
  }

  /** A line `name.c text` reads as the tag `name` with that class and
      text. */
  lemma NamedLine(name: string, c: string, text: string, rest: string, st: Indent, attributeNodes: AttributeListParser)
    requires ValidUnit(st.unit) && IsTagName(name) && IsPlainClass(c) && IsOneLine(text)
    requires rest == [] || !IsWhitespace(rest[0])
    ensures ReadTag(name + ("." + c + (" " + text + "\n" + rest)), st, attributeNodes)
      == Parsed(Ok("\n" + rest, ClassedText(name, c, text)), st)
  {
    NameThenHead(name, "." + c + (" " + text + "\n" + rest), st, attributeNodes);
    ClassedTextHead(c, text, rest, name, st, attributeNodes);
  }

  /** A line `.c text` reads as a `div` with that class and text. */
  lemma DotLine(c: string, text: string, rest: string, st: Indent, attributeNodes: AttributeListParser)
    requires ValidUnit(st.unit) && IsPlainClass(c) && IsOneLine(text)
    requires rest == [] || !IsWhitespace(rest[0])
    ensures ReadTag("." + c + (" " + text + "\n" + rest), st, attributeNodes)
      == Parsed(Ok("\n" + rest, ClassedText("div", c, text)), st)
  {
    DotThenHead("." + c + (" " + text + "\n" + rest), st, attributeNodes);
    ClassedTextHead(c, text, rest, "div", st, attributeNodes);
  }

  /** A child line `.c text` is that `div`. */
  lemma DotChild(c: string, text: string, rest: string, st: Indent, attributeNodes: AttributeListParser)
    requires ValidUnit(st.unit) && st.unit.Some? && IsPlainClass(c) && IsOneLine(text)
    requires rest == [] || !IsWhitespace(rest[0])
    ensures ReadChild("." + c + (" " + text + "\n" + rest), st, attributeNodes)
      == Parsed(Ok("\n" + rest, Tag(ClassedText("div", c, text))), st)
  {
    DotLine(c, text, rest, st, attributeNodes);
    ChildTag("." + c + (" " + text + "\n" + rest), st, attributeNodes);
  }

  /** The name and class of a line `.c` with a child line under it. */
  lemma ParentHead(u: string, c: string, line: string, attributeNodes: AttributeListParser)
    requires IsPlainClass(c)
    ensures ReadTag("." + c + ("\n" + u + line), Indent(None, 0), attributeNodes)
      == ReadTagBody("\n" + u + line, "div", HeadParts([ClassNode(c)], None, None, []), Indent(None, 0), attributeNodes)
  {
    DotThenHead("." + c + ("\n" + u + line), Indent(None, 0), attributeNodes);
    ClassThenHead(c, "\n" + u + line, "div", NoParts, Indent(None, 0), attributeNodes);
    FirstClass(c);
  }

  /** Two spaces are a unit of indentation. */
  lemma TwoSpaces()
    ensures IsIndentUnit("  ")
  {
  }

  /** `div`, the tag of a line that starts with a class, is a tag name. */
  lemma DivIsTagName()
    ensures IsTagName("div")
  {
  }

  /** A unit of indentation made of blanks only. */
  predicate IsIndentUnit(u: string) {
    ValidUnit(Some(u)) && forall k :: 0 <= k < |u| ==> u[k] == ' ' || u[k] == '\t'
  }

  /** The first indented line of a document, one unit `u` deep under a
      top-level tag, fixes the unit, and the head loop collects the child it
      reads as. */
  lemma FirstChildLine(u: string, tag: string, c: string, line: string, child: HsmlNode, attributeNodes: AttributeListParser)
    requires IsIndentUnit(u) && IsTagName(tag) && IsPlainClass(c) && WellFormedNode(child)
    requires line == [] || !IsWhitespace(line[0])
    requires ReadChild(line, Indent(Some(u), 1), attributeNodes) == Parsed(Ok("\n", child), Indent(Some(u), 1))
    ensures ReadTagBody("\n" + u + line, tag, HeadParts([ClassNode(c)], None, None, []), Indent(None, 0), attributeNodes)
      == ReadTagBody("\n", tag, HeadParts([ClassNode(c)], None, None, [child]), Indent(Some(u), 0), attributeNodes)
  {
    assert Units(|u|, 1) == |u|;
    ChildLineThenHead(u, line, tag, HeadParts([ClassNode(c)], None, None, []),
      Indent(None, 0), Indent(Some(u), 0), attributeNodes);
    assert [] + [child] == [child];
  }

  /** A tag whose head holds one class and one child ends at the final line
      feed of the document. */
  lemma LastLine(tag: string, c: string, child: HsmlNode, st: Indent, attributeNodes: AttributeListParser)
    requires ValidUnit(st.unit) && IsTagName(tag) && IsPlainClass(c) && WellFormedNode(child)
    ensures ReadTagBody("\n", tag, HeadParts([ClassNode(c)], None, None, [child]), st, attributeNodes)
      == Parsed(Ok("\n", TagNode(tag, Some([ClassNode(c)]), None, None, SomeChildren([child]))), st)
  {
    EndsBeforeUnindented("", tag, HeadParts([ClassNode(c)], None, None, [child]), st, attributeNodes);
    assert "\n" + "" == "\n";
  }

  /** A top-level line `.c` whose one child line, one unit `u` deep, reads up
      to the final line feed: a `div` holding that child; the unit is `u`
      afterwards and the depth is back to the top. */
  lemma Parent(u: string, c: string, line: string, child: HsmlNode, attributeNodes: AttributeListParser)
    requires IsIndentUnit(u) && IsPlainClass(c) && WellFormedNode(child)
    requires line == [] || !IsWhitespace(line[0])
    requires ReadChild(line, Indent(Some(u), 1), attributeNodes) == Parsed(Ok("\n", child), Indent(Some(u), 1))
    ensures ReadTag("." + c + ("\n" + u + line), Indent(None, 0), attributeNodes)
      == Parsed(Ok("\n", TagNode("div", Some([ClassNode(c)]), None, None, SomeChildren([child]))), Indent(Some(u), 0))
  {
    ParentHead(u, c, line, attributeNodes);
    DivIsTagName();
    FirstChildLine(u, "div", c, line, child, attributeNodes);
    LastLine("div", c, child, Indent(Some(u), 0), attributeNodes);
  }

  /** The text of a line `.c text`, followed by `rest`. */
  function ClassLine(c: string, text: string, rest: string): string {
    "." + c + (" " + text + "\n" + rest)
  }

  /** The text of a line `.c` with `line` under it, one unit `u` deep. */
  function ParentLines(c: string, u: string, line: string): string {
    "." + c + ("\n" + u + line)
  }

  /** The `div` a line `.c` with one child reads as. */
  function Box(c: string, child: HsmlNode): TagNode {
    TagNode("div", Some([ClassNode(c)]), None, None, SomeChildren([child]))
  }

  /** A top-level line `.c` holding one child line `.b text` at the end of
      a document is that `div`; the unit is `u` afterwards. */
  lemma BoxTag(c: string, u: string, b: string, text: string, attributeNodes: AttributeListParser)
    requires IsIndentUnit(u) && IsPlainClass(c) && IsPlainClass(b) && IsOneLine(text)
    ensures ReadTag(ParentLines(c, u, ClassLine(b, text, "")), Indent(None, 0), attributeNodes)
      == Parsed(Ok("\n", Box(c, Tag(ClassedText("div", b, text)))), Indent(Some(u), 0))
  {
    var line := ClassLine(b, text, "");
    DotChild(b, text, "", Indent(Some(u), 1), attributeNodes);
    assert "\n" + "" == "\n";
    Parent(u, c, line, Tag(ClassedText("div", b, text)), attributeNodes);
  }

  /** After a line feed, a last top-level line `.c` holding one child line
      `.b text` is the rest of the document: that one `div`. */
  lemma BoxDocument(c: string, u: string, b: string, text: string, attributeNodes: AttributeListParser)
    requires IsIndentUnit(u) && IsPlainClass(c) && IsPlainClass(b) && IsOneLine(text)
    ensures ReadDocument("\n" + ParentLines(c, u, ClassLine(b, text, "")), Indent(None, 0), attributeNodes)
      == Ok([], [Tag(Box(c, Tag(ClassedText("div", b, text))))])
  {
    var lines := ParentLines(c, u, ClassLine(b, text, ""));
    var box := Tag(Box(c, Tag(ClassedText("div", b, text))));
    BoxTag(c, u, b, text, attributeNodes);
    TrimmedStart("\n", lines);
    FirstChar(lines, '.');
    TopTag(lines, Indent(None, 0), attributeNodes);
    DocumentAfterTopNode("\n" + lines, Indent(None, 0), attributeNodes);
    TrimmedStart("\n", "");
    assert [box] + [] == [box];
  }

  /** A whole document is its nodes put in front of nothing. */
  lemma RootIsDocument(input: string, attributeNodes: AttributeListParser)
    ensures ReadRoot(input, attributeNodes) == Prepend([], ReadDocument(input, Indent(None, 0), attributeNodes))
  {
  }

  /** Two nodes read one after the other make a root of those two. */
  lemma TwoNodes(first: HsmlNode, second: HsmlNode)
    ensures Prepend([], Ok([], [first] + [second])) == Ok([], RootNode([first, second]))
  {
    assert [] + ([first] + [second]) == [first, second];
  }

  /** A line `name.h title` read through the helper that builds its text. */
  lemma HeadingTag(name: string, h: string, title: string, rest: string, attributeNodes: AttributeListParser)
    requires IsTagName(name) && IsPlainClass(h) && IsOneLine(title)
    requires rest == [] || !IsWhitespace(rest[0])
    ensures ReadTag(name + ClassLine(h, title, rest), Indent(None, 0), attributeNodes)
      == Parsed(Ok("\n" + rest, ClassedText(name, h, title)), Indent(None, 0))
  {
    assert name + ClassLine(h, title, rest) == name + ("." + h + (" " + title + "\n" + rest));
    NamedLine(name, h, title, rest, Indent(None, 0), attributeNodes);
  }

  /** A document starting with a line `name.h title` has that tag as its
      first top-level node. */
  lemma HeadingFirst(name: string, h: string, title: string, rest: string, attributeNodes: AttributeListParser)
    requires IsTagName(name) && IsPlainClass(h) && IsOneLine(title)
    requires rest == [] || !IsWhitespace(rest[0])
    ensures ReadTopNode(TrimStart(name + ClassLine(h, title, rest)), Indent(None, 0), attributeNodes)
      == Parsed(Ok("\n" + rest, Tag(ClassedText(name, h, title))), Indent(None, 0))
  {
    var document := name + ClassLine(h, title, rest);
    HeadingTag(name, h, title, rest, attributeNodes);
    TrimmedStart("", document);
    assert "" + document == document;
    FirstChar(document, document[0]);
    TopTag(document, Indent(None, 0), attributeNodes);
  }

  /** The nodes of a document of a line `name.h title` followed by a box as
      above: those two tags, in that order. */
  lemma HeadingAndBoxNodes(name: string, h: string, title: string, c: string, u: string, b: string, text: string,
                           attributeNodes: AttributeListParser)
    requires IsTagName(name) && IsPlainClass(h) && IsOneLine(title)
    requires IsIndentUnit(u) && IsPlainClass(c) && IsPlainClass(b) && IsOneLine(text)
    ensures ReadDocument(name + ClassLine(h, title, ParentLines(c, u, ClassLine(b, text, ""))), Indent(None, 0), attributeNodes)
      == Ok([], [Tag(ClassedText(name, h, title))] + [Tag(Box(c, Tag(ClassedText("div", b, text))))])
  {
    var lines := ParentLines(c, u, ClassLine(b, text, ""));
    var document := name + ClassLine(h, title, lines);
    HeadingFirst(name, h, title, lines, attributeNodes);
    BoxDocument(c, u, b, text, attributeNodes);
    DocumentAfterTopNode(document, Indent(None, 0), attributeNodes);
  }

  /** A document of a line `name.h title` followed by a box as above reads
      as those two top-level tags, in that order. */
  lemma HeadingAndBox(name: string, h: string, title: string, c: string, u: string, b: string, text: string,
                      attributeNodes: AttributeListParser)
    requires IsTagName(name) && IsPlainClass(h) && IsOneLine(title)
    requires IsIndentUnit(u) && IsPlainClass(c) && IsPlainClass(b) && IsOneLine(text)
    ensures ReadRoot(name + ClassLine(h, title, ParentLines(c, u, ClassLine(b, text, ""))), attributeNodes)
      == Ok([], RootNode([Tag(ClassedText(name, h, title)), Tag(Box(c, Tag(ClassedText("div", b, text))))]))
  {
    var document := name + ClassLine(h, title, ParentLines(c, u, ClassLine(b, text, "")));
    HeadingAndBoxNodes(name, h, title, c, u, b, text, attributeNodes);
    RootIsDocument(document, attributeNodes);
    TwoNodes(Tag(ClassedText(name, h, title)), Tag(Box(c, Tag(ClassedText("div", b, text)))));
  }

  /** A tag with one class and text is written with its class attribute, the
      text and its closing tag. */
  lemma ClassedTextHtml(tag: string, c: string, text: string)
    ensures NodeHtml(Tag(ClassedText(tag, c, text)))
      == "<" + tag + " class=\"" + c + "\">" + text + "</" + tag + ">"
  {
    var t := ClassedText(tag, c, text);
    assert ClassNames([ClassNode(c)]) == [c];
    assert OpeningHtml(t) == "<" + tag + (" class=\"" + c + "\"") + "";
    assert "\"" + ">" == "\">";
    assert ContentHtml(t) == text + "";
  }

  /** A `div` with one class and one child is written around that child. */
  lemma BoxHtml(c: string, child: HsmlNode)
    requires Renderable(child)
    ensures NodeHtml(Tag(Box(c, child))) == "<div class=\"" + c + "\">" + NodeHtml(child) + "</div>"
  {
    var t := Box(c, child);
    assert ClassNames([ClassNode(c)]) == [c];
    assert OpeningHtml(t) == "<" + "div" + (" class=\"" + c + "\"") + "";
    assert "<" + "div" + " class=\"" == "<div class=\"";
    assert [child][..0] == [];
    assert ChildrenHtml([child]) == "" + NodeHtml(child) == NodeHtml(child);
    assert ContentHtml(t) == "" + NodeHtml(child);
    assert ClosingHtml("div") == "</div>";
  }

  /** Two top-level nodes are written one after the other. */
  lemma TwoNodesHtml(first: HsmlNode, second: HsmlNode)
    requires Renderable(first) && Renderable(second)
    ensures RootHtml(RootNode([first, second])) == NodeHtml(first) + NodeHtml(second)
  {
    assert [first][..0] == [];
    assert ChildrenHtml([first]) == "" + NodeHtml(first) == NodeHtml(first);
    assert [first, second][..1] == [first];
    assert ChildrenHtml([first, second]) == ChildrenHtml([first]) + NodeHtml(second);
  }

  /** The document of the compiler's end-to-end test, without its `img`
      lines, for any heading text `title` and card text `body`: a heading,
      then a card holding one child, indented by two spaces. */
  function CardDocument(title: string, body: string): string {
    "h1" + ClassLine("text-red", title, ParentLines("card", "  ", ClassLine("card__body", body, "")))
  }

  /** The two top-level tags that document reads as. */
  function Heading(title: string): TagNode {
    ClassedText("h1", "text-red", title)
  }

  function Card(body: string): TagNode {
    Box("card", Tag(ClassedText("div", "card__body", body)))
  }

  /** The heading line, written out. */
  lemma HeadingLineText(title: string, rest: string)
    ensures "h1" + ClassLine("text-red", title, rest) == "h1.text-red " + title + "\n" + rest
  {
    assert "h1" + "." + "text-red" + " " == "h1.text-red ";
  }

  /** The card's two lines, written out. */
  lemma CardLinesText(body: string)
    ensures ParentLines("card", "  ", ClassLine("card__body", body, "")) == ".card\n" + "  .card__body " + body + "\n"
  {
    assert "." + "card" + "\n" + "  " + "." + "card__body" + " " == ".card\n" + "  .card__body ";
    assert body + "\n" + "" == body + "\n";
  }

  /** The document, written out line by line. */
  /** The document is the compiler test's heading line, its `.card` line and
      its `.card__body` line, indented by two spaces. */
  lemma CardDocumentText(title: string, body: string)
    ensures CardDocument(title, body) == "h1.text-red " + title + "\n" + ".card\n" + "  .card__body " + body + "\n"
  {
    var lines := ParentLines("card", "  ", ClassLine("card__body", body, ""));
    HeadingLineText(title, lines);
    CardLinesText(body);
  }

  /** The names, classes and unit of the document are acceptable. */
  lemma CardDocumentNames()
    ensures IsTagName("h1") && IsPlainClass("text-red") && IsPlainClass("card") && IsPlainClass("card__body")
    ensures IsIndentUnit("  ")
  {
    TwoSpaces();
  }

  /** The document reads as the heading and the card, and nothing is left. */
  lemma CardDocumentParses(title: string, body: string, attributeNodes: AttributeListParser)
    requires IsOneLine(title) && IsOneLine(body)
    ensures ReadRoot(CardDocument(title, body), attributeNodes) == Ok([], RootNode([Tag(Heading(title)), Tag(Card(body))]))
  {
    CardDocumentNames();
    HeadingAndBox("h1", "text-red", title, "card", "  ", "card__body", body, attributeNodes);
  }

  /** The heading is written with its class and text. */
  lemma HeadingHtml(title: string)
    ensures NodeHtml(Tag(Heading(title))) == "<h1 class=\"text-red\">" + title + "</h1>"
  {
    ClassedTextHtml("h1", "text-red", title);
    assert "<" + "h1" + " class=\"" + "text-red" + "\">" == "<h1 class=\"text-red\">";
    assert "</" + "h1" + ">" == "</h1>";
  }

  /** The card's child is written with its class and text. */
  lemma CardBodyHtml(body: string)
    ensures NodeHtml(Tag(ClassedText("div", "card__body", body))) == "<div class=\"card__body\">" + body + "</div>"
  {
    ClassedTextHtml("div", "card__body", body);
    assert "<" + "div" + " class=\"" + "card__body" + "\">" == "<div class=\"card__body\">";
    assert "</" + "div" + ">" == "</div>";
  }

  /** The card is written around its one child. */
  lemma CardHtml(body: string)
    ensures NodeHtml(Tag(Card(body))) == "<div class=\"card\">" + ("<div class=\"card__body\">" + body + "</div>") + "</div>"
  {
    CardBodyHtml(body);
    BoxHtml("card", Tag(ClassedText("div", "card__body", body)));
    assert "<div class=\"" + "card" + "\">" == "<div class=\"card\">";
  }

  /** The heading and the card are written as the compiler's end-to-end test
      expects. */
  lemma CardDocumentHtml(title: string, body: string)
    ensures RootHtml(RootNode([Tag(Heading(title)), Tag(Card(body))]))
      == "<h1 class=\"text-red\">" + title + "</h1>"
       + "<div class=\"card\">" + "<div class=\"card__body\">" + body + "</div>" + "</div>"
  {
    HeadingHtml(title);
    CardHtml(body);
    TwoNodesHtml(Tag(Heading(title)), Tag(Card(body)));
  }

  /** The test's heading and card texts each fit on one line. */
  lemma TestTexts()
    ensures IsOneLine("Vite CJS Faker Demo") && IsOneLine("{{ fullName }}")
  {
  }
}
