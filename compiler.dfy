/** The compiler: a walk over the tree that writes HTML. A tag becomes
    `<tag class="…" key="value">text children</tag>`, or `<tag …/>` when it has
    neither text nor children; `//!` comments become HTML comments and `//`
    comments are dropped. */
module Compiler {
  import opened Scan
  import opened Ast

  /** Names joined by single spaces. */
  function JoinNames(names: seq<string>): string {
    if names == [] then ""
    else if |names| == 1 then names[0]
    else names[0] + " " + JoinNames(names[1..])
  }

  function ClassNames(classes: seq<ClassNode>): (names: seq<string>)
    ensures |names| == |classes| && forall i :: 0 <= i < |classes| ==> names[i] == classes[i].name
  {
    if classes == [] then [] else [classes[0].name] + ClassNames(classes[1..])
  }

  /** ` class="a b c"` for a tag with classes, nothing otherwise. */
  function ClassAttribute(classes: Option<seq<ClassNode>>): string {
    if classes.None? then "" else " class=\"" + JoinNames(ClassNames(classes.value)) + "\""
  }

  /** ` key`, followed by `="value"` when the attribute has a value. */
  function AttributeHtml(a: AttributeNode): string {
    " " + a.key + (if a.value.Some? then "=\"" + a.value.value + "\"" else "")
  }

  function AttributesHtml(attributes: seq<AttributeNode>): string {
    if attributes == [] then ""
    else AttributesHtml(attributes[..|attributes| - 1]) + AttributeHtml(attributes[|attributes| - 1])
  }

  function CommentHtml(c: CommentNode): string {
    "<!--" + c.text + "-->"
  }

  /** `<tag`, the class attribute and the other attributes. */
  function OpeningHtml(t: TagNode): string {
    "<" + t.tag + ClassAttribute(t.classes) + AttributesHtml(if t.attributes.Some? then t.attributes.value else [])
  }

  /** A tag with neither text nor children closes itself. */
  predicate SelfCloses(t: TagNode) {
    t.children.NoChildren? && t.text.None?
  }

  /** The text, then the children in order. */
  function ContentHtml(t: TagNode): string
    requires Renderable(Tag(t))
    decreases t, 0
  {
    (if t.text.Some? then t.text.value.text else "")
      + (if t.children.SomeChildren? then ChildrenHtml(t.children.nodes) else "")
  }

  function ClosingHtml(tag: string): string {
    "</" + tag + ">"
  }

  function TagHtml(t: TagNode): string
    requires Renderable(Tag(t))
    decreases t, 1
  {
    if SelfCloses(t) then OpeningHtml(t) + "/>"
    else OpeningHtml(t) + ">" + ContentHtml(t) + ClosingHtml(t.tag)
  }

  function ChildrenHtml(nodes: seq<HsmlNode>): string
    requires forall i :: 0 <= i < |nodes| ==> Renderable(nodes[i])
    decreases nodes
  {
    if nodes == [] then ""
    else ChildrenHtml(nodes[..|nodes| - 1]) + NodeHtml(nodes[|nodes| - 1])
  }

  function NodeHtml(n: HsmlNode): string
    requires Renderable(n)
    decreases n
  {
    match n
    case Tag(t) => TagHtml(t)
    case Comment(c) => if c.isDev then "" else CommentHtml(c)
  }

  function RootHtml(root: RootNode): string
    requires forall i :: 0 <= i < |root.nodes| ==> Renderable(root.nodes[i])
  {
    ChildrenHtml(root.nodes)
  }

  method CompileCommentNode(c: CommentNode) returns (html: string)
    ensures html == CommentHtml(c)
  {
    html := "";
    html := html + "<!--";
    html := html + c.text;
    html := html + "-->";
  }

  /** Appends `<tag`, the class attribute and each attribute in order. */
  method CompileOpening(t: TagNode) returns (html: string)
    ensures html == OpeningHtml(t)
  {
    html := "<" + t.tag;
    if t.classes.Some? {
      html := html + " class=\"";
      html := html + JoinNames(ClassNames(t.classes.value));
      html := html + "\"";
    }
    var head := html;
    assert head == "<" + t.tag + ClassAttribute(t.classes);
    var attributes := if t.attributes.Some? then t.attributes.value else [];
    for i := 0 to |attributes|
      invariant html == head + AttributesHtml(attributes[..i])
    {
      var a := attributes[i];
      var part := " " + a.key;
      if a.value.Some? {
        part := part + "=\"" + a.value.value + "\"";
      }
      assert part == AttributeHtml(a);
      assert attributes[..i + 1][..i] == attributes[..i];
      assert AttributesHtml(attributes[..i + 1]) == AttributesHtml(attributes[..i]) + part;
      AppendAssoc(head, AttributesHtml(attributes[..i]), part);
      html := html + part;
    }
    assert attributes[..|attributes|] == attributes;
    assert html == head + AttributesHtml(attributes);
  }

  /** Appends the children in order: tags recursively, `//!` comments as HTML
      comments, `//` comments not at all. */
  method CompileChildren(children: seq<HsmlNode>) returns (html: string)
    requires forall i :: 0 <= i < |children| ==> Renderable(children[i])
    ensures html == ChildrenHtml(children)
    decreases children
  {
    html := "";
    for i := 0 to |children|
      invariant html == ChildrenHtml(children[..i])
    {
      assert children[..i + 1][..i] == children[..i];
      // the same dispatch as for a root node
      var part := CompileNode(children[i]);
      assert ChildrenHtml(children[..i + 1]) == ChildrenHtml(children[..i]) + part;
      html := html + part;
    }
    assert children[..|children|] == children;
  }

  /** The opening, then `/>` for a tag with neither text nor children, and
      otherwise `>`, the text, the children and the closing tag. */
  method CompileTagNode(t: TagNode) returns (html: string)
    requires Renderable(Tag(t))
    ensures html == TagHtml(t)
    decreases t
  {
    html := CompileOpening(t);
    if t.children.NoChildren? && t.text.None? {
      html := html + "/>";
      return;
    }
    html := html + ">";
    var start := html;
    if t.text.Some? {
      html := html + t.text.value.text;
    }
    if t.children.SomeChildren? {
      var children := CompileChildren(t.children.nodes);
      html := html + children;
    }
    assert html == start + ContentHtml(t);
    assert html + "</" + t.tag + ">" == html + ClosingHtml(t.tag);
    html := html + "</" + t.tag + ">";
  }

  method CompileNode(n: HsmlNode) returns (html: string)
    requires Renderable(n)
    ensures html == NodeHtml(n)
    decreases n
  {
    match n
    case Tag(t) =>
      html := CompileTagNode(t);
    case Comment(c) =>
      if !c.isDev {
        html := CompileCommentNode(c);
      } else {
        html := "";
      }
  }

  /** The root's nodes, compiled in order and concatenated. */
  method Compile(root: RootNode) returns (html: string)
    requires forall i :: 0 <= i < |root.nodes| ==> Renderable(root.nodes[i])
    ensures html == RootHtml(root)
  {
    html := "";
    for i := 0 to |root.nodes|
      invariant html == ChildrenHtml(root.nodes[..i])
    {
      assert root.nodes[..i + 1][..i] == root.nodes[..i];
      var part := CompileNode(root.nodes[i]);
      html := html + part;
    }
    assert root.nodes[..|root.nodes|] == root.nodes;
  }

  /** A tag's output starts with `<` and its name, and ends with `/>` when it
      closes itself and with its closing tag otherwise; for a name that does
      not end in `/` the ending tells the two apart. */
  lemma TagShape(t: TagNode)
    requires Renderable(Tag(t))
    ensures StartsWith(TagHtml(t), "<" + t.tag)
    ensures SelfCloses(t) ==> EndsWith(TagHtml(t), "/>")
    ensures !SelfCloses(t) ==> EndsWith(TagHtml(t), ClosingHtml(t.tag))
    ensures |t.tag| > 0 && t.tag[|t.tag| - 1] != '/' ==> (SelfCloses(t) <==> EndsWith(TagHtml(t), "/>"))
  {
    var html := TagHtml(t);
    var start := "<" + t.tag;
    var opening := OpeningHtml(t);
    PrefixOfAppend(start, ClassAttribute(t.classes));
    PrefixOfAppend(start + ClassAttribute(t.classes), AttributesHtml(if t.attributes.Some? then t.attributes.value else []));
    PrefixTrans(opening, start + ClassAttribute(t.classes), start);
    if SelfCloses(t) {
      PrefixOfAppend(opening, "/>");
      SuffixOfAppend(opening, "/>");
      PrefixTrans(html, opening, start);
    } else {
      var closing := ClosingHtml(t.tag);
      var body := opening + ">" + ContentHtml(t);
      PrefixOfAppend(opening, ">");
      PrefixOfAppend(opening + ">", ContentHtml(t));
      PrefixTrans(body, opening + ">", opening);
      PrefixOfAppend(body, closing);
      PrefixTrans(html, body, opening);
      PrefixTrans(html, opening, start);
      SuffixOfAppend(body, closing);
      if |t.tag| > 0 {
        assert closing[|closing| - 2] == t.tag[|t.tag| - 1];
        assert html[|html| - 2] == closing[|closing| - 2];
      }
    }
  }

  /** The children without the `//` comments. */
  function WithoutDevComments(nodes: seq<HsmlNode>): (kept: seq<HsmlNode>)
    ensures forall i :: 0 <= i < |kept| ==> kept[i] in nodes && !(kept[i].Comment? && kept[i].commentNode.isDev)
  {
    if nodes == [] then []
    else
      var last := nodes[|nodes| - 1];
      var init := WithoutDevComments(nodes[..|nodes| - 1]);
      if last.Comment? && last.commentNode.isDev then init else init + [last]
  }

  /** `//` comments contribute nothing to a list of children or roots. */
  lemma {:induction false} DevCommentsDropped(nodes: seq<HsmlNode>)
    requires forall i :: 0 <= i < |nodes| ==> Renderable(nodes[i])
    ensures forall i :: 0 <= i < |WithoutDevComments(nodes)| ==> Renderable(WithoutDevComments(nodes)[i])
    ensures ChildrenHtml(nodes) == ChildrenHtml(WithoutDevComments(nodes))
    decreases |nodes|
  {
    if nodes != [] {
      var init := nodes[..|nodes| - 1];
      var last := nodes[|nodes| - 1];
      DevCommentsDropped(init);
      var kept := WithoutDevComments(init);
      if !(last.Comment? && last.commentNode.isDev) {
        assert (kept + [last])[..|kept|] == kept;
      }
    }
  }

  /** Compiling a list of nodes distributes over concatenation. */
  lemma {:induction false} ChildrenConcat(a: seq<HsmlNode>, b: seq<HsmlNode>)
    requires forall i :: 0 <= i < |a| ==> Renderable(a[i])
    requires forall i :: 0 <= i < |b| ==> Renderable(b[i])
    ensures forall i :: 0 <= i < |a + b| ==> Renderable((a + b)[i])
    ensures ChildrenHtml(a + b) == ChildrenHtml(a) + ChildrenHtml(b)
    decreases |b|
  {
    if b == [] {
      assert a + b == a;
    } else {
      var init := b[..|b| - 1];
      var last := b[|b| - 1];
      ChildrenConcat(a, init);
      assert (a + b)[..|a + b| - 1] == a + init;
      assert (a + b)[|a + b| - 1] == last;
      assert ChildrenHtml(a + b) == ChildrenHtml(a + init) + NodeHtml(last);
      assert ChildrenHtml(b) == ChildrenHtml(init) + NodeHtml(last);
      AppendAssoc(ChildrenHtml(a), ChildrenHtml(init), NodeHtml(last));
    }
  }

  /** The empty tree compiles to nothing, and a tree to the outputs of its
      nodes one after the other. */
  lemma RootOutput(root: RootNode, n: HsmlNode)
    requires forall i :: 0 <= i < |root.nodes| ==> Renderable(root.nodes[i])
    requires Renderable(n)
    ensures RootHtml(RootNode([])) == ""
    ensures RootHtml(RootNode(root.nodes + [n])) == RootHtml(root) + NodeHtml(n)
  {
    assert (root.nodes + [n])[..|root.nodes|] == root.nodes;
  }

  /** The words of `s` between single spaces. */
  function SplitOnSpace(s: string): (parts: seq<string>)
    ensures |parts| > 0
    decreases |s|
  {
    match FindChar(s, ' ')
    case None => [s]
    case Some(k) => [s[..k]] + SplitOnSpace(s[k + 1..])
  }

  /** The class attribute lists the class names: names without spaces are
      recovered by splitting its value at the spaces. */
  lemma {:induction false} SplitJoinedNames(names: seq<string>)
    requires |names| > 0 && forall i :: 0 <= i < |names| ==> ' ' !in names[i]
    ensures SplitOnSpace(JoinNames(names)) == names
    decreases |names|
  {
    if |names| > 1 {
      var s := JoinNames(names);
      var first := names[0];
      assert s == first + " " + JoinNames(names[1..]);
      assert s[..|first|] == first;
      FindCharIs(s, ' ', |first|);
      assert s[|first| + 1..] == JoinNames(names[1..]);
      SplitJoinedNames(names[1..]);
      assert names == [first] + names[1..];
    }
  }
}
