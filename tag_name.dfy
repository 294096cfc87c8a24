/** The tag name at the start of a tag line. */
module TagNames {
  import opened Scan

  predicate IsTagNameChar(c: char) {
    c == '-' || IsAsciiAlphanumeric(c)
  }

  /** A tag name: ASCII letters, digits and hyphens, starting with a letter. */
  predicate IsTagName(s: string) {
    |s| > 0 && IsAsciiAlpha(s[0]) && forall i :: 0 <= i < |s| ==> IsTagNameChar(s[i])
  }

  function StartsWithAsciiAlphabetic(s: string): (b: bool)
    ensures b <==> |s| > 0 && IsAsciiAlpha(s[0])
  {
    if |s| > 0 then IsAsciiAlpha(s[0]) else false
  }

  /** Takes the longest run of name characters; fails when the run is empty
      and asks for more input when it does not start with a letter. */
  function ProcessTag(input: string): (r: Res<string>)
    ensures r.Ok? <==> |input| > 0 && IsAsciiAlpha(input[0])
    ensures r.Ok? ==> r.value + r.rest == input && IsTagName(r.value)
    ensures r.Ok? ==> r.rest == [] || !IsTagNameChar(r.rest[0])
    ensures r.Incomplete? <==> |input| > 0 && (IsAsciiDigit(input[0]) || input[0] == '-')
    ensures r.Err? <==> input == [] || !IsTagNameChar(input[0])
    ensures r.Err? ==> r == Err(TakeTill1, input)
  {
    var n := Span(input, IsTagNameChar);
    if n == 0 then Err(TakeTill1, input)
    else if StartsWithAsciiAlphabetic(input[..n]) then
      assert input[..n] + input[n..] == input;
      Ok(input[n..], input[..n])
    else Incomplete
  }
}
