/** The document parser: a sequence of top-level comments and tags, separated
    by any amount of white space, parsed with one indentation context for the
    whole document. */
module Parser {
  import opened Scan
  import opened Ast
  import opened TagNames
  import opened Comments
  import opened TagNodes

  /** Only white space. */
  predicate IsBlank(s: string) {
    forall i :: 0 <= i < |s| ==> IsWhitespace(s[i])
  }

  /** `s` without its leading white space (line breaks included). */
  function TrimStart(s: string): (t: string)
    ensures IsSuffix(t, s)
    ensures IsBlank(s[..|s| - |t|])
    ensures t == [] || !IsWhitespace(t[0])
    ensures t == [] <==> IsBlank(s)
  {
    var n := Span(s, IsWhitespace);
    assert s[..n] == s[..|s| - |s[n..]|];
    s[n..]
  }

  /** One top-level node of a document that does not start with white
      space: a `//!` comment, else a `//` comment, else a tag, whose failure
      is passed on unchanged. */
  function ReadTopNode(trimmed: string, st: Indent, attributeNodes: AttributeListParser): (out: Parsed<HsmlNode>)
    requires ValidUnit(st.unit)
    ensures ValidUnit(out.state.unit)
    ensures out.r.Ok? ==> Consumes(trimmed, out.r.rest) && WellFormedNode(out.r.value)
    ensures ProcessNativeComment(trimmed).Ok? ==>
      out.r == Ok(ProcessNativeComment(trimmed).rest, Comment(CommentNode(ProcessNativeComment(trimmed).value, false)))
      && out.state == st
    ensures !ProcessNativeComment(trimmed).Ok? && ProcessDevComment(trimmed).Ok? ==>
      out.r == Ok(ProcessDevComment(trimmed).rest, Comment(CommentNode(ProcessDevComment(trimmed).value, true)))
      && out.state == st
    ensures !ProcessNativeComment(trimmed).Ok? && !ProcessDevComment(trimmed).Ok? ==>
      out == ReadTopTag(trimmed, st, attributeNodes)
  {
    var native := ParseCommentNativeNode(trimmed);
    if native.Ok? then
      ConcatSuffix("//!" + native.value.text, native.rest, trimmed);
      assert Consumes(trimmed, native.rest) && WellFormedNode(Comment(native.value));
      Parsed(Ok(native.rest, Comment(native.value)), st)
    else
      var dev := ParseCommentDevNode(trimmed);
      if dev.Ok? then
        ConcatSuffix("//" + dev.value.text, dev.rest, trimmed);
        assert Consumes(trimmed, dev.rest) && WellFormedNode(Comment(dev.value));
        Parsed(Ok(dev.rest, Comment(dev.value)), st)
      else ReadTopTag(trimmed, st, attributeNodes)
  }

  /** The tag arm of `ReadTopNode`. */
  function ReadTopTag(trimmed: string, st: Indent, attributeNodes: AttributeListParser): (out: Parsed<HsmlNode>)
    requires ValidUnit(st.unit)
    ensures ValidUnit(out.state.unit)
    ensures out.state == ReadTag(trimmed, st, attributeNodes).state
    ensures out.r.Ok? <==> ReadTag(trimmed, st, attributeNodes).r.Ok?
    ensures out.r.Ok? ==>
      out.r == Ok(ReadTag(trimmed, st, attributeNodes).r.rest, Tag(ReadTag(trimmed, st, attributeNodes).r.value))
      && Consumes(trimmed, out.r.rest) && WellFormedNode(out.r.value)
    ensures !out.r.Ok? ==> out.r == ReadTag(trimmed, st, attributeNodes).r.PropagateFailure()
    ensures StartsWith(trimmed, "#") ==> out.r == Panic(IdNotSupported)
    ensures !StartsWith(trimmed, ".") && !StartsWith(trimmed, "#") && !ProcessTag(trimmed).Ok? ==>
      out.r == ProcessTag(trimmed).PropagateFailure()
  {
    var tag := ReadTag(trimmed, st, attributeNodes);
    Parsed(if tag.r.Ok? then Ok(tag.r.rest, Tag(tag.r.value)) else tag.r.PropagateFailure(), tag.state)
  }

  /** The nodes of the document from `cur` on, read in indentation state
      `st`: white space is skipped before each node, the end of the input
      ends the document, and the first failing node ends it with its
      failure. */
  function ReadDocument(cur: string, st: Indent, attributeNodes: AttributeListParser): (r: Res<seq<HsmlNode>>)
    requires ValidUnit(st.unit)
    decreases |cur|
    ensures r.Ok? ==> r.rest == [] && AllWellFormed(r.value)
    ensures TrimStart(cur) == [] ==> r == Ok([], [])
    ensures TrimStart(cur) != [] && r.Ok? ==>
      var top := ReadTopNode(TrimStart(cur), st, attributeNodes);
      top.r.Ok? && r.value != [] && r.value[0] == top.r.value
    ensures TrimStart(cur) != [] && !ReadTopNode(TrimStart(cur), st, attributeNodes).r.Ok? ==>
      r == ReadTopNode(TrimStart(cur), st, attributeNodes).r.PropagateFailure()
  {
    var trimmed := TrimStart(cur);
    if trimmed == [] then Ok([], [])
    else
      var top := ReadTopNode(trimmed, st, attributeNodes);
      if !top.r.Ok? then top.r.PropagateFailure()
      else
        var tail := ReadDocument(top.r.rest, top.state, attributeNodes);
        if !tail.Ok? then tail
        else
          PrependWellFormed(top.r.value, tail.value);
          Ok([], [top.r.value] + tail.value)
  }

  /** A well-formed node put in front of well-formed nodes. */
  lemma PrependWellFormed(n: HsmlNode, nodes: seq<HsmlNode>)
    requires WellFormedNode(n) && AllWellFormed(nodes)
    ensures AllWellFormed([n] + nodes)
  {
    forall i | 0 <= i < |nodes| + 1
      ensures WellFormedNode(([n] + nodes)[i])
    {
      if i > 0 {
        assert ([n] + nodes)[i] == nodes[i - 1];
      }
    }
  }

  /** A document reads as no nodes exactly when it is blank. */
  lemma BlankDocument(cur: string, st: Indent, attributeNodes: AttributeListParser)
    requires ValidUnit(st.unit)
    ensures IsBlank(cur) <==> ReadDocument(cur, st, attributeNodes) == Ok([], [])
  {
  }

  /** `nodes` put in front of the nodes of a document read so far. */
  function Prepend(nodes: seq<HsmlNode>, document: Res<seq<HsmlNode>>): (r: Res<RootNode>)
    ensures r.Ok? <==> document.Ok?
    ensures r.Ok? ==> r.rest == document.rest && r.value.nodes == nodes + document.value
    ensures !r.Ok? ==> r == document.PropagateFailure()
  {
    if document.Ok? then Ok(document.rest, RootNode(nodes + document.value)) else document.PropagateFailure()
  }

  /** The root of a whole document, read with a fresh indentation context. */
  function ReadRoot(input: string, attributeNodes: AttributeListParser): (r: Res<RootNode>)
    ensures r.Ok? ==> r.rest == [] && AllWellFormed(r.value.nodes)
    ensures IsBlank(input) <==> r == Ok([], RootNode([]))
    ensures r.Ok? && !IsBlank(input) ==> r.value.nodes != []
    ensures StartsWith(TrimStart(input), "#") ==> r == Panic(IdNotSupported)
    ensures !IsBlank(input) && !ReadTopNode(TrimStart(input), Indent(None, 0), attributeNodes).r.Ok? ==>
      r == ReadTopNode(TrimStart(input), Indent(None, 0), attributeNodes).r.PropagateFailure()
    ensures var t := TrimStart(input);
      t != [] && !StartsWith(t, "/") && !StartsWith(t, ".") && !StartsWith(t, "#") && !ProcessTag(t).Ok? ==>
      r == ProcessTag(t).PropagateFailure()
  {
    var document := ReadDocument(input, Indent(None, 0), attributeNodes);
    BlankDocument(input, Indent(None, 0), attributeNodes);
    var trimmed := TrimStart(input);
    if trimmed != [] && !StartsWith(trimmed, "/") then
      NoCommentWithoutSlash(trimmed);
      assert ReadTopNode(trimmed, Indent(None, 0), attributeNodes) == ReadTopTag(trimmed, Indent(None, 0), attributeNodes);
      Prepend([], document)
    else
      assert document.Ok? ==> [] + document.value == document.value;
      Prepend([], document)
  }

  /** Parses a whole document, as `ReadRoot` says. */
  method Parse(input: string, attributeNodes: AttributeListParser) returns (r: Res<RootNode>)
    ensures r == ReadRoot(input, attributeNodes)
  {
    var ctx := new ProcessContext();
    var nodes: seq<HsmlNode> := [];
    var cur := input;
    DocumentTurn([], input, ctx.State(), attributeNodes);
    assert Prepend([], ReadDocument(input, ctx.State(), attributeNodes)) == ReadRoot(input, attributeNodes);
    while true
      invariant ValidUnit(ctx.indentString)
      invariant Prepend(nodes, ReadDocument(cur, ctx.State(), attributeNodes)) == ReadRoot(input, attributeNodes)
      decreases |cur|
    {
      var trimmed := TrimStart(cur);
      DocumentTurn(nodes, cur, ctx.State(), attributeNodes);
      if trimmed == [] {
        cur := trimmed;
        break;
      }
      var node := ParseTopNode(trimmed, ctx, attributeNodes);
      if !node.Ok? {
        return node.PropagateFailure();
      }
      nodes := nodes + [node.value];
      cur := node.rest;
    }
    return Ok(cur, RootNode(nodes));
  }

  /** One turn of the document loop, seen from the nodes read before it. */
  lemma DocumentTurn(nodes: seq<HsmlNode>, cur: string, st: Indent, attributeNodes: AttributeListParser)
    requires ValidUnit(st.unit)
    ensures TrimStart(cur) == [] ==> Prepend(nodes, ReadDocument(cur, st, attributeNodes)) == Ok([], RootNode(nodes))
    ensures TrimStart(cur) != [] ==>
      var top := ReadTopNode(TrimStart(cur), st, attributeNodes);
      Prepend(nodes, ReadDocument(cur, st, attributeNodes)) ==
        if top.r.Ok? then Prepend(nodes + [top.r.value], ReadDocument(top.r.rest, top.state, attributeNodes))
        else top.r.PropagateFailure()
  {
    if TrimStart(cur) == [] {
      assert nodes + [] == nodes;
    } else {
      var top := ReadTopNode(TrimStart(cur), st, attributeNodes);
      if top.r.Ok? {
        DocumentAfterTopNode(cur, st, attributeNodes);
        PrependStep(nodes, top.r.value, ReadDocument(top.r.rest, top.state, attributeNodes));
      } else {
        assert ReadDocument(cur, st, attributeNodes) == top.r.PropagateFailure();
        PropagateTwice<HsmlNode, seq<HsmlNode>, RootNode>(top.r);
      }
    }
  }

  /** After a top-level node that reads, the document is that node followed
      by the nodes after it, in source order, or the failure of those. */
  lemma DocumentAfterTopNode(cur: string, st: Indent, attributeNodes: AttributeListParser)
    requires ValidUnit(st.unit) && TrimStart(cur) != []
    requires ReadTopNode(TrimStart(cur), st, attributeNodes).r.Ok?
    ensures var top := ReadTopNode(TrimStart(cur), st, attributeNodes);
      var tail := ReadDocument(top.r.rest, top.state, attributeNodes);
      ReadDocument(cur, st, attributeNodes) == if tail.Ok? then Ok([], [top.r.value] + tail.value) else tail
  {
  }

  /** Putting one more node in front of a tail, or after the earlier nodes,
      gives the same root. */
  lemma PrependStep(nodes: seq<HsmlNode>, n: HsmlNode, tail: Res<seq<HsmlNode>>)
    ensures Prepend(nodes, if tail.Ok? then Ok(tail.rest, [n] + tail.value) else tail) == Prepend(nodes + [n], tail)
  {
    if tail.Ok? {
      assert (nodes + [n]) + tail.value == nodes + ([n] + tail.value);
    }
  }

  /** Passing a failure on twice is passing it on once. */
  lemma PropagateTwice<T, U, V>(r: Res<T>)
    requires !r.Ok?
    ensures r.PropagateFailure<U>().PropagateFailure<V>() == r.PropagateFailure<V>()
  {
  }

  /** One top-level node, as `ReadTopNode` says. */
  method ParseTopNode(trimmed: string, ctx: ProcessContext, attributeNodes: AttributeListParser)
    returns (r: Res<HsmlNode>)
    requires ValidUnit(ctx.indentString)
    modifies ctx
    ensures Parsed(r, ctx.State()) == ReadTopNode(trimmed, old(ctx.State()), attributeNodes)
  {
    var native := ParseCommentNativeNode(trimmed);
    if native.Ok? {
      return Ok(native.rest, Comment(native.value));
    }
    var dev := ParseCommentDevNode(trimmed);
    if dev.Ok? {
      return Ok(dev.rest, Comment(dev.value));
    }
    var tag := ParseTagNode(trimmed, ctx, attributeNodes);
    if !tag.Ok? {
      return tag.PropagateFailure();
    }
    return Ok(tag.rest, Tag(tag.value));
  }

  /** Every document the parser accepts can be handed to the compiler. */
  lemma ParsedTreeCompiles(root: RootNode)
    requires AllWellFormed(root.nodes)
    ensures forall i :: 0 <= i < |root.nodes| ==> Renderable(root.nodes[i])
  {
    forall i | 0 <= i < |root.nodes|
      ensures Renderable(root.nodes[i])
    {
      WellFormedIsRenderable(root.nodes[i]);
    }
  }
}
