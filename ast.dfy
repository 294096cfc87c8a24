/** The tree the parser builds and the compiler reads, the parse context
    threaded through tag parsing, and the line-ending scanner. */
module Ast {
  import opened Scan

  datatype ClassNode = ClassNode(name: string)

  datatype IdNode = IdNode(id: string)

  datatype TextNode = TextNode(text: string)

  /** `isDev` is true for a `//` comment, which is dropped from the output,
      and false for a `//!` comment, which is rendered. */
  datatype CommentNode = CommentNode(text: string, isDev: bool)

  /** A key with an optional value; no value means a bare attribute. */
  datatype AttributeNode = AttributeNode(key: string, value: Option<string>)

  /** An absent sequence is `None`; the parser never builds `Some([])`. */
  datatype TagNode = TagNode(
    tag: string,
    classes: Option<seq<ClassNode>>,
    attributes: Option<seq<AttributeNode>>,
    text: Option<TextNode>,
    children: Children)

  /** An optional sequence of child nodes, spelled out rather than written
      `Option<seq<HsmlNode>>` so that recursion over the tree terminates. */
  datatype Children = NoChildren | SomeChildren(nodes: seq<HsmlNode>)

  datatype RootNode = RootNode(nodes: seq<HsmlNode>)

  datatype HsmlNode =
    | Root(root: RootNode)
    | Tag(tagNode: TagNode)
    | Comment(commentNode: CommentNode)
    | Class(classNode: ClassNode)
    | Attribute(attributeNode: AttributeNode)
    | Text(textNode: TextNode)

  /** Only tags and comments may stand at the root or among a tag's
      children; the compiler handles nothing else. */
  predicate Renderable(n: HsmlNode)
    decreases n
  {
    match n
    case Tag(TagNode(_, _, _, _, NoChildren)) => true
    case Tag(TagNode(_, _, _, _, SomeChildren(children))) =>
      forall i :: 0 <= i < |children| ==> Renderable(children[i])
    case Comment(_) => true
    case _ => false
  }

  /** The indentation state of one parse as a value: the unit of
      indentation and the current depth. */
  datatype Indent = Indent(unit: Option<string>, level: nat)

  /** The indentation state of one parse: the unit of indentation, fixed by
      the first indented line of the document, and the current depth. */
  class ProcessContext {
    var indentLevel: nat
    var indentString: Option<string>

    /** The state held by the context. */
    function State(): Indent
      reads this
    {
      Indent(indentString, indentLevel)
    }

    /** The default context: depth zero and no unit yet. */
    constructor ()
      ensures indentLevel == 0 && indentString == None
    {
      indentLevel := 0;
      indentString := None;
    }
  }

  /** Consumes one line ending, `\n` or `\r\n`. */
  function ProcessNewline(input: string): (r: Res<string>)
    ensures r.Ok? <==> StartsWithLineEnding(input)
    ensures r.Ok? ==> (r.value == "\n" || r.value == "\r\n") && r.value + r.rest == input
    ensures !r.Ok? ==> r == Err(CrLf, input)
  {
    if StartsWith(input, "\n") then Ok(input[1..], "\n")
    else if StartsWith(input, "\r\n") then Ok(input[2..], "\r\n")
    else Err(CrLf, input)
  }

  /** A carriage return that is not followed by a line feed is no line ending. */
  lemma LoneCarriageReturnIsNoNewline(s: string)
    requires !StartsWith(s, "\n")
    ensures ProcessNewline("\r" + s) == Err(CrLf, "\r" + s)
  {
    if StartsWith("\r" + s, "\r\n") {
      assert ("\r" + s)[1] == s[0];
    }
  }
}
