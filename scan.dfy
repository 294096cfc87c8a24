/** Results and character classes shared by every scanner of the parser.
    A scanner consumes a prefix of its input and returns what is left of the
    input together with what it recognised, or says why it could not. */
module Scan {

  datatype Option<+T> = None | Some(value: T)

  /** The error codes the scanners report; `TagMismatch` is the code for a
      literal that is not there. */
  datatype ErrorKind = TagMismatch | TakeTill1 | TakeUntil | AlphaNumeric | CrLf

  /** The places where the parser stops the whole process instead of
      returning an error. */
  datatype Fault =
    | IdNotSupported       // `#` in a tag head
    | ChildTagFailed       // a child line that is neither a comment nor a tag
    | EmptyAttributeValue  // `=` at the very end of the input
    | EmptyTextBlock       // `.` and a line break at the very end of the input

  /** The outcome of a scanner: the rest of the input and a value, an error
      code with the input at which it happened, a request for more input, a
      panic, or a loop that never ends. */
  datatype Res<+T> =
    | Ok(rest: string, value: T)
    | Err(kind: ErrorKind, at: string)
    | Incomplete
    | Panic(fault: Fault)
    | Hang
  {
    predicate IsFailure() {
      !Ok?
    }

    function PropagateFailure<U>(): (r: Res<U>)
      requires !Ok?
      ensures !r.Ok?
    {
      match this
      case Err(k, at) => Err(k, at)
      case Incomplete => Incomplete
      case Panic(f) => Panic(f)
      case Hang => Hang
    }

    function Extract(): (string, T)
      requires Ok?
    {
      (rest, value)
    }
  }

  predicate IsAsciiAlpha(c: char) {
    'a' <= c <= 'z' || 'A' <= c <= 'Z'
  }

  predicate IsAsciiDigit(c: char) {
    '0' <= c <= '9'
  }

  predicate IsAsciiAlphanumeric(c: char) {
    IsAsciiAlpha(c) || IsAsciiDigit(c)
  }

  /** White space: the space and the controls from tab to carriage return. */
  predicate IsWhitespace(c: char) {
    c == ' ' || '\t' <= c <= '\r'
  }

  predicate IsLineBreakChar(c: char) {
    c == '\n' || c == '\r'
  }

  predicate StartsWith(s: string, prefix: string) {
    |prefix| <= |s| && s[..|prefix|] == prefix
  }

  lemma StartsWithOneMore(s: string, prefix: string, c: char)
    ensures StartsWith(s, prefix + [c]) <==> StartsWith(s, prefix) && |s| > |prefix| && s[|prefix|] == c
  {
    if StartsWith(s, prefix) && |s| > |prefix| && s[|prefix|] == c {
      assert s[..|prefix| + 1] == s[..|prefix|] + [c];
    }
    if StartsWith(s, prefix + [c]) {
      assert s[..|prefix|] == (prefix + [c])[..|prefix|];
    }
  }

  predicate EndsWith(s: string, suffix: string) {
    |suffix| <= |s| && s[|s| - |suffix|..] == suffix
  }

  /** `s` begins with a line ending: `\n` or `\r\n`. */
  predicate StartsWithLineEnding(s: string) {
    StartsWith(s, "\n") || StartsWith(s, "\r\n")
  }

  lemma AppendAssoc(a: string, b: string, c: string)
    ensures (a + b) + c == a + (b + c)
  {
  }

  lemma PrefixOfAppend(p: string, s: string)
    ensures StartsWith(p + s, p)
  {
    assert (p + s)[..|p|] == p;
  }

  lemma SuffixOfAppend(s: string, q: string)
    ensures EndsWith(s + q, q)
  {
    assert (s + q)[|s + q| - |q|..] == q;
  }

  lemma PrefixTrans(s: string, p: string, q: string)
    requires StartsWith(s, p) && StartsWith(p, q)
    ensures StartsWith(s, q)
  {
    assert s[..|q|] == s[..|p|][..|q|];
  }

  /** `rest` is what is left of `s` after some prefix was consumed. */
  predicate IsSuffix(rest: string, s: string) {
    |rest| <= |s| && s[|s| - |rest|..] == rest
  }

  /** `rest` is what is left of `s` after at least one character was consumed. */
  predicate Consumes(s: string, rest: string) {
    |rest| < |s| && IsSuffix(rest, s)
  }

  /** What follows a prefix is a suffix. */
  lemma ConcatSuffix(prefix: string, rest: string, s: string)
    requires prefix + rest == s
    ensures IsSuffix(rest, s) && |rest| == |s| - |prefix|
  {
    assert s[|s| - |rest|..] == rest;
  }

  lemma SuffixTrans(a: string, b: string, c: string)
    requires IsSuffix(a, b) && IsSuffix(b, c)
    ensures IsSuffix(a, c)
  {
    assert c[|c| - |a|..] == c[|c| - |b|..][|b| - |a|..];
  }

  /** The length of the longest prefix of `s` whose characters all satisfy `p`. */
  function Span(s: string, p: char -> bool): (n: nat)
    ensures n <= |s|
    ensures forall i :: 0 <= i < n ==> p(s[i])
    ensures n < |s| ==> !p(s[n])
  {
    if s == [] || !p(s[0]) then 0 else 1 + Span(s[1..], p)
  }

  /** A run of `n` characters satisfying `p`, followed by the end of `s` or
      by a character that does not, is the span. */
  lemma SpanIs(s: string, p: char -> bool, n: nat)
    requires n <= |s| && (forall i :: 0 <= i < n ==> p(s[i])) && (n < |s| ==> !p(s[n]))
    ensures Span(s, p) == n
  {
  }

  /** The first position of `c` in `s`, if any. */
  function FindChar(s: string, c: char): (r: Option<nat>)
    ensures r.Some? ==> r.value < |s| && s[r.value] == c && c !in s[..r.value]
    ensures r.None? ==> c !in s
  {
    if s == [] then None
    else if s[0] == c then Some(0)
    else match FindChar(s[1..], c)
      case None => None
      case Some(k) => assert s[..k + 1] == [s[0]] + s[1..][..k]; Some(k + 1)
  }

  /** The first occurrence is the one with none before it. */
  lemma FindCharIs(s: string, c: char, k: nat)
    requires k < |s| && s[k] == c && c !in s[..k]
    ensures FindChar(s, c) == Some(k)
  {
  }

  /** Position `j` of `s` holds `closer` and is not immediately preceded by a
      backslash; position 0 holds the opening character and never closes. */
  predicate ClosesAt(s: string, closer: char, j: int) {
    1 <= j < |s| && s[j] == closer && !(j >= 2 && s[j - 1] == '\\')
  }

  function ClosingFrom(s: string, closer: char, j: nat): (r: Option<nat>)
    requires 1 <= j
    decreases |s| - j
    ensures r.Some? ==> j <= r.value && ClosesAt(s, closer, r.value)
    ensures r.Some? ==> forall k :: j <= k < r.value ==> !ClosesAt(s, closer, k)
    ensures r.None? ==> forall k :: j <= k < |s| ==> !ClosesAt(s, closer, k)
  {
    if j >= |s| then None
    else if ClosesAt(s, closer, j) then Some(j)
    else ClosingFrom(s, closer, j + 1)
  }

  /** The first closing position at or after `j` is the one with none
      between `j` and it. */
  lemma ClosingFromIs(s: string, closer: char, j: nat, k: nat)
    requires 1 <= j <= k && ClosesAt(s, closer, k)
    requires forall i :: j <= i < k ==> !ClosesAt(s, closer, i)
    ensures ClosingFrom(s, closer, j) == Some(k)
  {
  }

  /** The position of the first unescaped `closer` after the opening character
      `s[0]`: the end of an arbitrary class value `[...]` or of a quoted value. */
  function ClosingIndex(s: string, closer: char): (r: Option<nat>)
    ensures r.Some? ==> ClosesAt(s, closer, r.value)
    ensures r.Some? ==> forall k :: 1 <= k < r.value ==> !ClosesAt(s, closer, k)
    ensures r.None? ==> forall k :: 1 <= k < |s| ==> !ClosesAt(s, closer, k)
  {
    ClosingFrom(s, closer, 1)
  }

  /** The escape-aware scan for a closing character, as a loop over the
      characters that remembers whether the previous one was a backslash. */
  method ScanClosing(s: string, closer: char) returns (r: Option<nat>)
    requires closer != '\\'
    ensures r == ClosingIndex(s, closer)
  {
    var isEscaped := false;
    var index := 1;
    while index < |s|
      invariant 1 <= index
      invariant index <= |s| || |s| == 0
      invariant isEscaped <==> index >= 2 && index - 1 < |s| && s[index - 1] == '\\'
      invariant ClosingFrom(s, closer, index) == ClosingIndex(s, closer)
    {
      var c := s[index];
      if c == '\\' {
        isEscaped := true;
        index := index + 1;
        continue;
      }
      if c == closer && !isEscaped {
        return Some(index);
      }
      isEscaped := false;
      index := index + 1;
    }
    return None;
  }
}
