/** Attributes inside `( … )`: a key, optionally followed by `=` and a value
    in double or single quotes. */
module Attributes {
  import opened Scan

  /** A character that may appear in a key; `=`, quotes and white space
      never do, so a key stops in front of its value. */
  predicate IsValidAttributeKey(c: char): (b: bool)
    ensures b ==> c != '=' && c != '"' && c != '\'' && !IsWhitespace(c)
  {
    || IsAsciiAlphanumeric(c)
    || c == '-' || c == '_' || c == ':' || c == '#' || c == '@'
    || c == '[' || c == ']' || c == '(' || c == ')' || c == '{' || c == '}'
  }

  /** A character that may start a key: always a key character, never a
      digit. */
  predicate IsValidAttributeKeyStart(c: char): (b: bool)
    ensures b ==> IsValidAttributeKey(c) && !IsAsciiDigit(c)
  {
    IsAsciiAlpha(c) || c == ':' || c == '#' || c == '@' || c == '[' || c == '('
  }

  /** A key: a non-empty run of key characters that starts with a letter or
      one of `: # @ [ (`. */
  predicate IsAttributeKey(key: string) {
    |key| > 0 && IsValidAttributeKeyStart(key[0]) && forall i :: 0 <= i < |key| ==> IsValidAttributeKey(key[i])
  }

  /** Takes the longest run of key characters; an empty run and a run with a
      bad first character fail at the input. */
  function ProcessAttributeKey(input: string): (r: Res<string>)
    ensures r.Ok? <==> |input| > 0 && IsValidAttributeKeyStart(input[0])
    ensures r.Ok? ==> r.value + r.rest == input && IsAttributeKey(r.value)
    ensures r.Ok? ==> r.rest == [] || !IsValidAttributeKey(r.rest[0])
    ensures (input == [] || !IsValidAttributeKey(input[0])) ==> r == Err(TakeTill1, input)
    ensures |input| > 0 && IsValidAttributeKey(input[0]) && !IsValidAttributeKeyStart(input[0]) ==>
      r == Err(AlphaNumeric, input)
  {
    var n := Span(input, IsValidAttributeKey);
    if n == 0 then Err(TakeTill1, input)
    else if IsAsciiDigit(input[0]) then Err(AlphaNumeric, input)
    else if !IsValidAttributeKeyStart(input[0]) then Err(AlphaNumeric, input)
    else
      assert input[..n] + input[n..] == input;
      Ok(input[n..], input[..n])
  }

  predicate IsQuote(c: char) {
    c == '"' || c == '\''
  }

  /** The text between two `q` quotes: every `q` in it follows a backslash,
      and it does not end with one, which would escape the closing quote. */
  predicate IsQuotedBody(v: string, q: char) {
    && (forall i :: 0 <= i < |v| && v[i] == q ==> 0 < i && v[i - 1] == '\\')
    && (|v| == 0 || v[|v| - 1] != '\\')
  }

  /** A quoted value: the text up to the first matching quote that does not
      follow a backslash, which may span lines. The empty input is a panic. */
  function QuotedValue(input: string): (r: Res<string>)
    ensures r.Panic? <==> input == []
    ensures r.Ok? ==> |input| > 0 && IsQuote(input[0])
    ensures r.Ok? ==> input == [input[0]] + r.value + [input[0]] + r.rest && IsQuotedBody(r.value, input[0])
    ensures |input| > 0 && !r.Ok? && !r.Panic? ==> r == Err(TagMismatch, input)
  {
    if input == [] then Panic(EmptyAttributeValue)
    else if !IsQuote(input[0]) then Err(TagMismatch, input)
    else match ClosingIndex(input, input[0])
      case None => Err(TagMismatch, input)
      case Some(k) =>
        var v := input[1..k];
        assert input == [input[0]] + v + [input[0]] + input[k + 1..];
        assert IsQuotedBody(v, input[0]) by {
          forall i | 0 <= i < |v| && v[i] == input[0]
            ensures 0 < i && v[i - 1] == '\\'
          {
            assert v[i] == input[i + 1];
            assert !ClosesAt(input, input[0], i + 1);
            if i > 0 {
              assert v[i - 1] == input[i];
            }
          }
          if |v| > 0 {
            assert v[|v| - 1] == input[k - 1];
          }
        }
        Ok(input[k + 1..], v)
  }

  /** The value scan as a loop that remembers whether the previous character
      was a backslash. */
  method ProcessAttributeValue(input: string) returns (r: Res<string>)
    ensures r == QuotedValue(input)
  {
    if input == [] {
      return Panic(EmptyAttributeValue);
    }
    var firstChar := input[0];
    if !IsQuote(firstChar) {
      return Err(TagMismatch, input);
    }
    var closing := ScanClosing(input, firstChar);
    if closing.None? {
      return Err(TagMismatch, input);
    }
    return Ok(input[closing.value + 1..], input[1..closing.value]);
  }

  /** A key alone, or a key, `=` and a quoted value; with a value the whole
      source text `key="value"` is returned. */
  function AttributeScan(input: string): (r: Res<string>)
    ensures r.Ok? ==> r.value + r.rest == input && |r.value| > 0
  {
    var key :- ProcessAttributeKey(input);
    if StartsWith(key.0, "=") then
      var value :- QuotedValue(key.0[1..]);
      assert input[..|input| - |value.0|] + value.0 == input;
      Ok(value.0, input[..|input| - |value.0|])
    else
      Ok(key.0, key.1)
  }

  method ProcessAttribute(input: string) returns (r: Res<string>)
    ensures r == AttributeScan(input)
  {
    var key :- ProcessAttributeKey(input);
    if StartsWith(key.0, "=") {
      var value :- ProcessAttributeValue(key.0[1..]);
      return Ok(value.0, input[..|input| - |value.0|]);
    }
    return Ok(key.0, key.1);
  }

  /** A key is read back from itself followed by anything that cannot
      continue it. */
  lemma KeyRoundTrip(key: string, rest: string)
    requires IsAttributeKey(key)
    requires rest == [] || !IsValidAttributeKey(rest[0])
    ensures ProcessAttributeKey(key + rest) == Ok(rest, key)
  {
    var input := key + rest;
    SpanIs(input, IsValidAttributeKey, |key|);
    assert input[..|key|] == key && input[|key|..] == rest;
  }

  /** A quoted value is read back from its quoted form. */
  lemma QuotedValueRoundTrip(q: char, v: string, rest: string)
    requires IsQuote(q) && IsQuotedBody(v, q)
    ensures QuotedValue([q] + v + [q] + rest) == Ok(rest, v)
  {
    var input := [q] + v + [q] + rest;
    var k := |v| + 1;
    assert ClosesAt(input, q, k);
    forall j | 1 <= j < k
      ensures !ClosesAt(input, q, j)
    {
      assert input[j] == v[j - 1];
      if j >= 2 {
        assert input[j - 1] == v[j - 2];
      }
    }
    ClosingFromIs(input, q, 1, k);
    assert input[1..k] == v && input[k + 1..] == rest;
  }

  /** A bare attribute gives its key, and the rest starts right after it. */
  lemma BareAttribute(key: string, rest: string)
    requires IsAttributeKey(key)
    requires rest == [] || (!IsValidAttributeKey(rest[0]) && rest[0] != '=')
    ensures AttributeScan(key + rest) == Ok(rest, key)
  {
    KeyRoundTrip(key, rest);
  }

  /** An attribute with a quoted value gives its whole source text. */
  lemma AttributeWithValue(key: string, q: char, v: string, rest: string)
    requires IsAttributeKey(key) && IsQuote(q) && IsQuotedBody(v, q)
    ensures AttributeScan(key + "=" + [q] + v + [q] + rest) == Ok(rest, key + "=" + [q] + v + [q])
  {
    var quoted := [q] + v + [q] + rest;
    var tail := "=" + quoted;
    var text := key + "=" + [q] + v + [q];
    var input := key + tail;
    assert input == text + rest;
    assert input == key + "=" + [q] + v + [q] + rest;
    KeyRoundTrip(key, tail);
    assert StartsWith(tail, "=") && tail[1..] == quoted;
    QuotedValueRoundTrip(q, v, rest);
    assert AttributeScan(input) == Ok(rest, input[..|input| - |rest|]);
    assert input[..|input| - |rest|] == text;
  }
}
