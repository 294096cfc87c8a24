/** Text: a single line after a space, and the `.` text block, whose lines
    must all be indented one level deeper than the tag that owns it. */
module Texts {
  import opened Scan
  import opened Ast

  /** A space, then the non-empty text up to the first line feed. */
  function ProcessText(input: string): (r: Res<string>)
    ensures r.Ok? <==> StartsWith(input, " ") && |input| > 1 && input[1] != '\n' && '\n' in input[1..]
    ensures r.Ok? ==> " " + r.value + r.rest == input && |r.value| > 0 && '\n' !in r.value && StartsWith(r.rest, "\n")
    ensures !StartsWith(input, " ") ==> r == Err(TagMismatch, input)
    ensures StartsWith(input, " ") && !r.Ok? ==> r == Err(TakeUntil, input[1..])
  {
    if !StartsWith(input, " ") then Err(TagMismatch, input)
    else
      var s := input[1..];
      match FindChar(s, '\n')
      case None => Err(TakeUntil, s)
      case Some(k) =>
        if k == 0 then Err(TakeUntil, s)
        else
          assert input == " " + s[..k] + s[k..];
          Ok(s[k..], s[..k])
  }

  function ParseTextNode(input: string): (r: Res<TextNode>)
    ensures r.Ok? <==> ProcessText(input).Ok?
    ensures r.Ok? ==> r.rest == ProcessText(input).rest && r.value == TextNode(ProcessText(input).value)
    ensures r.Ok? ==> |r.value.text| > 0 && '\n' !in r.value.text
    ensures !r.Ok? ==> r == ProcessText(input).PropagateFailure()
  {
    var p :- ProcessText(input);
    Ok(p.0, TextNode(p.1))
  }

  /** `s` written `n` times. */
  function Repeat(s: string, n: nat): (r: string)
    ensures |r| == |s| * n
  {
    if n == 0 then "" else s + Repeat(s, n - 1)
  }

  /** The indentation every line of a block must start with: the unit of the
      document, or two spaces while none is known, once per level plus one. */
  function BlockPrefix(indentString: Option<string>, indentLevel: nat): (p: string)
    ensures |p| == (if indentString.Some? then |indentString.value| else 2) * (indentLevel + 1)
  {
    Repeat(if indentString.Some? then indentString.value else "  ", indentLevel + 1)
  }

  /** A line feed at `j` that is not followed by another one: a line feed
      that starts a line whose indentation is checked. */
  predicate StartsCheckedLine(s: string, j: nat)
    requires j < |s|
  {
    s[j] == '\n' && !(j + 1 < |s| && s[j + 1] == '\n')
  }

  /** The scan over `rest`: `index` is the next position, `last` the last
      position kept in the block so far. Characters other than a line feed
      are kept, and so is the second line feed of a blank line; the scan
      stops at a line feed whose next line lacks `prefix`. */
  function BlockLastFrom(rest: string, prefix: string, index: nat, last: nat): (e: nat)
    requires index <= |rest| && last <= index
    decreases |rest| - index
    ensures e == last || index <= e < |rest|
  {
    if index == |rest| then last
    else if rest[index] != '\n' then BlockLastFrom(rest, prefix, index + 1, index)
    else if !StartsCheckedLine(rest, index) then BlockLastFrom(rest, prefix, index + 1, index + 1)
    else if !StartsWith(rest[index + 1..], prefix) then last
    else BlockLastFrom(rest, prefix, index + 1, last)
  }

  /** The last position of the block in the non-empty text `rest`. */
  function BlockLast(rest: string, prefix: string): (e: nat)
    requires |rest| > 0
    ensures e < |rest|
  {
    BlockLastFrom(rest, prefix, 0, 0)
  }

  /** The text after the dot and the line ending that follows it. */
  function AfterDotLine(input: string): (rest: string)
    requires StartsWith(input, ".") && StartsWithLineEnding(input[1..])
    ensures input == "." + "\n" + rest || input == "." + "\r\n" + rest
  {
    var after := input[1..];
    if StartsWith(after, "\r\n") then
      assert input == "." + "\r\n" + after[2..];
      after[2..]
    else
      assert input == "." + "\n" + after[1..];
      after[1..]
  }

  /** The text block after `.` and a line ending, with its indentation kept,
      and the text after it. Nothing after the line ending is a panic. */
  function TextBlock(input: string, indentString: Option<string>, indentLevel: nat): (r: Res<string>)
    ensures r.Ok? ==> |r.value| > 0 && IsSuffix(r.rest, input) && |r.value| + |r.rest| < |input|
  {
    if !StartsWith(input, ".") then Err(TagMismatch, input)
    else if !StartsWithLineEnding(input[1..]) then Err(TagMismatch, input[1..])
    else
      var rest := AfterDotLine(input);
      if rest == [] then Panic(EmptyTextBlock)
      else
        var e := BlockLast(rest, BlockPrefix(indentString, indentLevel));
        assert input[|input| - |rest[e + 1..]|..] == rest[e + 1..];
        Ok(rest[e + 1..], rest[..e + 1])
  }

  /** The scan as a loop over the characters after the line ending; the
      context is read and not changed. */
  method ProcessTextBlock(input: string, ctx: ProcessContext) returns (r: Res<string>)
    ensures r == TextBlock(input, ctx.indentString, ctx.indentLevel)
  {
    if !StartsWith(input, ".") {
      return Err(TagMismatch, input);
    }
    var rest := input[1..];
    if StartsWith(rest, "\r\n") {
      rest := rest[2..];
    } else if StartsWith(rest, "\n") {
      rest := rest[1..];
    } else {
      return Err(TagMismatch, rest);
    }
    var prefix := BlockPrefix(ctx.indentString, ctx.indentLevel);
    var last := 0;
    for index := 0 to |rest|
      invariant last <= index
      invariant BlockLastFrom(rest, prefix, index, last) == BlockLastFrom(rest, prefix, 0, 0)
    {
      if rest[index] == '\n' {
        if index + 1 < |rest| && rest[index + 1] == '\n' {
          last := index + 1;
          continue;
        }
        if !StartsWith(rest[index + 1..], prefix) {
          assert BlockLastFrom(rest, prefix, index, last) == last;
          break;
        }
      } else {
        last := index;
        continue;
      }
    }
    assert rest == AfterDotLine(input);
    if rest == [] {
      return Panic(EmptyTextBlock);
    }
    assert last == BlockLast(rest, prefix);
    return Ok(rest[last + 1..], rest[..last + 1]);
  }

  method ParseTextBlockNode(input: string, ctx: ProcessContext) returns (r: Res<TextNode>)
    ensures r.Ok? <==> TextBlock(input, ctx.indentString, ctx.indentLevel).Ok?
    ensures r.Ok? ==> r.rest == TextBlock(input, ctx.indentString, ctx.indentLevel).rest
    ensures r.Ok? ==> r.value == TextNode(TextBlock(input, ctx.indentString, ctx.indentLevel).value)
    ensures !r.Ok? ==> r == TextBlock(input, ctx.indentString, ctx.indentLevel).PropagateFailure()
  {
    var p :- ProcessTextBlock(input, ctx);
    return Ok(p.0, TextNode(p.1));
  }

  /** Every line that starts inside the kept part of the scan carries the
      prefix. */
  lemma {:induction false} KeptLinesIndentedFrom(rest: string, prefix: string, index: nat, last: nat)
    requires index <= |rest| && last <= index
    ensures forall j :: index <= j < BlockLastFrom(rest, prefix, index, last) && StartsCheckedLine(rest, j) ==>
      StartsWith(rest[j + 1..], prefix)
    decreases |rest| - index
  {
    if index < |rest| {
      if rest[index] != '\n' {
        KeptLinesIndentedFrom(rest, prefix, index + 1, index);
      } else if !StartsCheckedLine(rest, index) {
        KeptLinesIndentedFrom(rest, prefix, index + 1, index + 1);
      } else if StartsWith(rest[index + 1..], prefix) {
        KeptLinesIndentedFrom(rest, prefix, index + 1, last);
      }
    }
  }

  /** How the block ends: at the end of the text, just before a line feed
      whose line lacks the prefix, or on a line feed whose line lacks it. */
  predicate EndsBlock(rest: string, prefix: string, e: nat)
    requires e < |rest|
  {
    || e + 1 == |rest|
    || (StartsCheckedLine(rest, e + 1) && !StartsWith(rest[e + 2..], prefix))
    || (StartsCheckedLine(rest, e) && !StartsWith(rest[e + 1..], prefix))
  }

  /** What the scan knows about `last` when it reaches `index`. */
  predicate ScanState(rest: string, prefix: string, index: nat, last: nat)
    requires index <= |rest|
  {
    && (index == 0 ==> last == 0)
    && (0 < index && rest[index - 1] != '\n' ==> last == index - 1)
    && (0 < index && rest[index - 1] == '\n' && index < |rest| && rest[index] == '\n' ==> last == index)
    && (0 < index && rest[index - 1] == '\n' ==> index < |rest|)
  }

  lemma {:induction false} BlockEndsFrom(rest: string, prefix: string, index: nat, last: nat)
    requires |prefix| > 0 && 0 < |rest|
    requires index <= |rest| && last <= index && last < |rest|
    requires ScanState(rest, prefix, index, last)
    ensures BlockLastFrom(rest, prefix, index, last) < |rest|
    ensures EndsBlock(rest, prefix, BlockLastFrom(rest, prefix, index, last))
    decreases |rest| - index
  {
    if index == |rest| {
      assert rest[index - 1] != '\n';
    } else if rest[index] != '\n' {
      BlockEndsFrom(rest, prefix, index + 1, index);
    } else if !StartsCheckedLine(rest, index) {
      BlockEndsFrom(rest, prefix, index + 1, index + 1);
    } else if StartsWith(rest[index + 1..], prefix) {
      BlockEndsFrom(rest, prefix, index + 1, last);
    } else if 0 < index && rest[index - 1] != '\n' {
      assert last + 1 == index;
    }
  }

  lemma NonEmptyPrefix(indentString: Option<string>, indentLevel: nat)
    requires indentString.Some? ==> |indentString.value| > 0
    ensures |BlockPrefix(indentString, indentLevel)| > 0
  {
    var k := if indentString.Some? then |indentString.value| else 2;
    assert k * (indentLevel + 1) >= k;
  }

  /** A successful text block splits what follows the dot and the line
      ending into the block, indentation kept, and the rest. */
  lemma TextBlockSplits(input: string, indentString: Option<string>, indentLevel: nat)
    requires TextBlock(input, indentString, indentLevel).Ok?
    ensures StartsWith(input, ".") && StartsWithLineEnding(input[1..])
    ensures TextBlock(input, indentString, indentLevel).value + TextBlock(input, indentString, indentLevel).rest == AfterDotLine(input)
  {
    var rest := AfterDotLine(input);
    var e := BlockLast(rest, BlockPrefix(indentString, indentLevel));
    assert rest[..e + 1] + rest[e + 1..] == rest;
  }

  /** Every line that starts inside a text block carries the prefix. */
  lemma TextBlockLinesIndented(input: string, indentString: Option<string>, indentLevel: nat, j: nat)
    requires TextBlock(input, indentString, indentLevel).Ok?
    requires j + 1 < |TextBlock(input, indentString, indentLevel).value|
    requires StartsCheckedLine(AfterDotLine(input), j)
    ensures StartsWith(AfterDotLine(input)[j + 1..], BlockPrefix(indentString, indentLevel))
  {
    KeptLinesIndentedFrom(AfterDotLine(input), BlockPrefix(indentString, indentLevel), 0, 0);
  }

  /** The rest after a text block is empty, or starts with the line feed of a
      line that lacks the prefix, or (after a blank line kept in the block)
      with that line itself. */
  lemma TextBlockEnd(input: string, indentString: Option<string>, indentLevel: nat)
    requires TextBlock(input, indentString, indentLevel).Ok?
    requires indentString.Some? ==> |indentString.value| > 0
    ensures var r := TextBlock(input, indentString, indentLevel);
      var prefix := BlockPrefix(indentString, indentLevel);
      || r.rest == []
      || (StartsCheckedLine(r.rest, 0) && !StartsWith(r.rest[1..], prefix))
      || (r.value[|r.value| - 1] == '\n' && !StartsWith(r.rest, prefix))
  {
    var rest := AfterDotLine(input);
    var prefix := BlockPrefix(indentString, indentLevel);
    NonEmptyPrefix(indentString, indentLevel);
    BlockEndsFrom(rest, prefix, 0, 0);
    var e := BlockLast(rest, prefix);
    if e + 1 < |rest| && StartsCheckedLine(rest, e + 1) {
      assert rest[e + 2..] == rest[e + 1..][1..];
    }
  }
}
