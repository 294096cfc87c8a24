/** Ids: `#` followed by a run of ASCII letters and digits. */
module Ids {
  import opened Scan
  import opened Ast

  /** Takes `#` and then the longest non-empty run of alphanumerics. */
  function ProcessId(input: string): (r: Res<string>)
    ensures r.Ok? <==> StartsWith(input, "#") && |input| > 1 && IsAsciiAlphanumeric(input[1])
    ensures r.Ok? ==> "#" + r.value + r.rest == input
    ensures r.Ok? ==> |r.value| > 0 && forall i :: 0 <= i < |r.value| ==> IsAsciiAlphanumeric(r.value[i])
    ensures r.Ok? ==> r.rest == [] || !IsAsciiAlphanumeric(r.rest[0])
    ensures !StartsWith(input, "#") ==> r == Err(TagMismatch, input)
    ensures StartsWith(input, "#") && !r.Ok? ==> r == Err(AlphaNumeric, input[1..])
  {
    if !StartsWith(input, "#") then Err(TagMismatch, input)
    else
      var s := input[1..];
      var n := Span(s, IsAsciiAlphanumeric);
      if n == 0 then Err(AlphaNumeric, s)
      else
        assert input == "#" + s[..n] + s[n..];
        Ok(s[n..], s[..n])
  }

  /** An id node holds the scanned id, without its `#`. */
  function ParseIdNode(input: string): (r: Res<IdNode>)
    ensures r.Ok? <==> ProcessId(input).Ok?
    ensures r.Ok? ==> r.rest == ProcessId(input).rest && r.value == IdNode(ProcessId(input).value)
    ensures r.Ok? ==> |r.value.id| > 0 && forall i :: 0 <= i < |r.value.id| ==> IsAsciiAlphanumeric(r.value.id[i])
    ensures !r.Ok? ==> r == ProcessId(input).PropagateFailure()
  {
    var p :- ProcessId(input);
    Ok(p.0, IdNode(p.1))
  }

  /** A hyphen or an underscore ends an id. */
  lemma IdStopsAtSeparator(id: string, rest: string)
    requires |id| > 0 && forall i :: 0 <= i < |id| ==> IsAsciiAlphanumeric(id[i])
    requires |rest| > 0 && !IsAsciiAlphanumeric(rest[0])
    ensures ProcessId("#" + id + rest) == Ok(rest, id)
  {
    var input := "#" + id + rest;
    var s := input[1..];
    assert s == id + rest;
    SpanIs(s, IsAsciiAlphanumeric, |id|);
    assert s[..|id|] == id && s[|id|..] == rest;
  }
}
