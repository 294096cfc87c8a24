/** Comments: `//` comments stay in the source and `//!` comments are
    rendered; each runs to the end of its line. */
module Comments {
  import opened Scan
  import opened Ast

  /** Takes everything before the first line feed, which may be nothing;
      fails when there is no line feed. */
  function TakeLine(input: string): (r: Res<string>)
    ensures r.Ok? <==> '\n' in input
    ensures r.Ok? ==> r.value + r.rest == input && '\n' !in r.value && StartsWith(r.rest, "\n")
    ensures !r.Ok? ==> r == Err(TakeUntil, input)
  {
    match FindChar(input, '\n')
    case None => Err(TakeUntil, input)
    case Some(k) =>
      assert input[..k] + input[k..] == input;
      Ok(input[k..], input[..k])
  }

  /** `//` not followed by `!`, then the rest of the line. */
  function ProcessDevComment(input: string): (r: Res<string>)
    ensures r.Ok? <==> StartsWith(input, "//") && !StartsWith(input, "//!") && '\n' in input[2..]
    ensures r.Ok? ==> "//" + r.value + r.rest == input && '\n' !in r.value && StartsWith(r.rest, "\n")
    ensures !StartsWith(input, "//") ==> r == Err(TagMismatch, input)
    ensures StartsWith(input, "//!") ==> r == Err(TagMismatch, input[2..])
    ensures StartsWith(input, "//") && !StartsWith(input, "//!") && !r.Ok? ==> r == Err(TakeUntil, input[2..])
  {
    StartsWithOneMore(input, "//", '!');
    assert "//" + ['!'] == "//!";
    if !StartsWith(input, "//") then Err(TagMismatch, input)
    else if |input| > 2 && input[2] == '!' then
      Err(TagMismatch, input[2..])
    else
      assert input == input[..2] + input[2..];
      TakeLine(input[2..])
  }

  /** `//!`, then the rest of the line. */
  function ProcessNativeComment(input: string): (r: Res<string>)
    ensures r.Ok? <==> StartsWith(input, "//!") && '\n' in input[3..]
    ensures r.Ok? ==> "//!" + r.value + r.rest == input && '\n' !in r.value && StartsWith(r.rest, "\n")
    ensures !StartsWith(input, "//!") ==> r == Err(TagMismatch, input)
    ensures StartsWith(input, "//!") && !r.Ok? ==> r == Err(TakeUntil, input[3..])
  {
    if !StartsWith(input, "//!") then Err(TagMismatch, input)
    else
      var p :- TakeLine(input[3..]);
      assert input == "//!" + p.1 + p.0;
      Ok(p.0, p.1)
  }

  function ParseCommentDevNode(input: string): (r: Res<CommentNode>)
    ensures r.Ok? <==> ProcessDevComment(input).Ok?
    ensures r.Ok? ==> r.rest == ProcessDevComment(input).rest && r.value.text == ProcessDevComment(input).value
    ensures r.Ok? ==> r.value.isDev
    ensures !r.Ok? ==> r == ProcessDevComment(input).PropagateFailure()
  {
    var p :- ProcessDevComment(input);
    Ok(p.0, CommentNode(p.1, true))
  }

  function ParseCommentNativeNode(input: string): (r: Res<CommentNode>)
    ensures r.Ok? <==> ProcessNativeComment(input).Ok?
    ensures r.Ok? ==> r.rest == ProcessNativeComment(input).rest && r.value.text == ProcessNativeComment(input).value
    ensures r.Ok? ==> !r.value.isDev
    ensures !r.Ok? ==> r == ProcessNativeComment(input).PropagateFailure()
  {
    var p :- ProcessNativeComment(input);
    Ok(p.0, CommentNode(p.1, false))
  }

  /** A `//` line that ends in a line feed is read by exactly one of the two
      comment scanners. */
  lemma ExactlyOneCommentScanner(input: string)
    requires StartsWith(input, "//") && '\n' in input[2..]
    ensures ProcessDevComment(input).Ok? != ProcessNativeComment(input).Ok?
  {
    if StartsWith(input, "//!") {
      var k :| 2 <= k < |input| && input[k] == '\n';
      assert input[k] == input[3..][k - 3];
    }
  }

  /** Input that does not start with `/` is no comment of either kind. */
  lemma NoCommentWithoutSlash(input: string)
    requires !StartsWith(input, "/")
    ensures ProcessNativeComment(input) == Err(TagMismatch, input)
    ensures ProcessDevComment(input) == Err(TagMismatch, input)
  {
  }

  /** The line scanner stops at the first line feed. */
  lemma TakeLineOf(text: string, rest: string)
    requires '\n' !in text
    ensures TakeLine(text + "\n" + rest) == Ok("\n" + rest, text)
  {
    var line := text + "\n" + rest;
    assert line[..|text|] == text;
    FindCharIs(line, '\n', |text|);
    assert line[|text|..] == "\n" + rest;
  }

  /** A native comment line reads back as its text, up to the line feed. */
  lemma NativeCommentLine(text: string, rest: string)
    requires '\n' !in text
    ensures ParseCommentNativeNode("//!" + text + "\n" + rest) == Ok("\n" + rest, CommentNode(text, false))
  {
    var line := text + "\n" + rest;
    var input := "//!" + text + "\n" + rest;
    assert StartsWith(input, "//!") && input[3..] == line by {
      AppendAssoc("//!", text, "\n");
      AppendAssoc("//!", text + "\n", rest);
      PrefixOfAppend("//!", line);
    }
    TakeLineOf(text, rest);
  }

  /** A developer comment line whose text does not start with `!` reads back
      as its text, up to the line feed. */
  lemma DevCommentLine(text: string, rest: string)
    requires '\n' !in text && !StartsWith(text, "!")
    ensures ParseCommentDevNode("//" + text + "\n" + rest) == Ok("\n" + rest, CommentNode(text, true))
  {
    var line := text + "\n" + rest;
    var input := "//" + text + "\n" + rest;
    assert StartsWith(input, "//") && input[2..] == line by {
      AppendAssoc("//", text, "\n");
      AppendAssoc("//", text + "\n", rest);
      PrefixOfAppend("//", line);
    }
    assert input[2] != '!' by {
      if |text| > 0 {
        assert text[..1] == [text[0]];
        assert input[2] == line[0] == text[0];
      } else {
        assert input[2] == line[0] == '\n';
      }
    }
    TakeLineOf(text, rest);
  }
}
