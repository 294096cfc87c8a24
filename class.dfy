/** Class names: `.name`, where a bracketed arbitrary value `[...]` may hold
    characters that would otherwise end the name. */
module Classes {
  import opened Scan
  import opened Ast

  /** The characters that end a class name, each on its own. */
  predicate IsClassStopChar(c: char) {
    c == '#' || c == '.' || c == '(' || c == ' ' || c == '\t' || c == '\n'
  }

  /** Position `i` ends the class: a stop character, or `\r\n`. */
  predicate StopsClass(s: string, i: nat)
    requires i < |s|
  {
    IsClassStopChar(s[i]) || (s[i] == '\r' && i + 1 < |s| && s[i + 1] == '\n')
  }

  /** A character the scan simply steps over. */
  predicate IsPlainClassChar(c: char) {
    !IsClassStopChar(c) && c != '[' && c != '\r'
  }

  /** What one pass of the scanning loop does at offset `i` of the text after
      the dot: advance to a new offset, finish, or give up with a result. */
  datatype Step = Advance(next: nat) | Finish | GiveUp(result: Res<string>)

  function ClassStep(s: string, i: nat): (st: Step)
    requires i <= |s|
    ensures st.Advance? ==> i <= st.next <= |s|
    ensures st.Advance? && st.next == i <==> i < |s| && s[i] == '\r' && !StopsClass(s, i)
    ensures st.Finish? <==> i < |s| && StopsClass(s, i)
  {
    if i == |s| then GiveUp(Incomplete)
    else if StopsClass(s, i) then Finish
    else if s[i] == '\r' then Advance(i)  // the loop's empty arm: nothing changes
    else if s[i] == '[' then
      match ClosingIndex(s[i..], ']')
      case None => GiveUp(Err(TagMismatch, s[i..]))
      case Some(k) => Advance(i + k)
    else Advance(i + 1)
  }

  /** The scan from offset `i` on, as the loop runs it; a pass that leaves
      the offset where it was would repeat forever, which is `Hang`. */
  function ClassScanFrom(s: string, i: nat): (r: Res<string>)
    requires i <= |s|
    decreases |s| - i
    ensures r.Ok? ==> i <= |r.value| < |s| && r.value == s[..|r.value|] && r.rest == s[|r.value|..]
    ensures r.Ok? ==> StopsClass(s, |r.value|)
    ensures r.Err? ==> r.kind == TagMismatch && IsSuffix(r.at, s) && |r.at| > 0 && r.at[0] == '['
    ensures r.Err? ==> ClosingIndex(r.at, ']').None?
    ensures r.Hang? ==> exists j :: i <= j < |s| && s[j] == '\r' && !StopsClass(s, j)
    ensures !r.Panic?
  {
    match ClassStep(s, i)
    case Finish => Ok(s[i..], s[..i])
    case GiveUp(failure) => failure
    case Advance(j) => if j == i then Hang else ClassScanFrom(s, j)
  }

  /** The result of scanning a class at the start of `input`. */
  function ClassScan(input: string): (r: Res<string>)
  {
    if StartsWith(input, ".") then ClassScanFrom(input[1..], 0) else Err(TagMismatch, input)
  }

  /** One pass of the scanning loop at offset `i`, where `remaining` is the
      text from `i` on. */
  method ClassTurn(s: string, i: nat, remaining: string) returns (st: Step)
    requires i <= |s| && remaining == s[i..]
    ensures st == ClassStep(s, i)
  {
    if remaining == [] {
      return GiveUp(Incomplete);
    }
    var c := remaining[0];
    if IsClassStopChar(c) {
      return Finish;
    }
    if c == '\r' {
      if |remaining| >= 2 && remaining[1] == '\n' {
        return Finish;
      }
      // the loop's empty arm leaves both variables as they are
      return Advance(i);
    }
    if c == '[' {
      var closing := ScanClosing(remaining, ']');
      if closing.None? {
        return GiveUp(Err(TagMismatch, remaining));
      }
      return Advance(i + closing.value);
    }
    return Advance(i + 1);
  }

  /** The scanning loop: `classIndex` counts the characters of the class
      taken so far and `remaining` is the text after them. */
  method ProcessClass(input: string) returns (r: Res<string>)
    ensures r == ClassScan(input)
  {
    if !StartsWith(input, ".") {
      return Err(TagMismatch, input);
    }
    var s := input[1..];
    var remaining := s;
    var classIndex := 0;
    while true
      invariant classIndex <= |s| && remaining == s[classIndex..]
      invariant ClassScanFrom(s, classIndex) == ClassScanFrom(s, 0)
      decreases |s| - classIndex
    {
      var step := ClassTurn(s, classIndex, remaining);
      if step.Finish? {
        break;
      }
      if step.GiveUp? {
        return step.result;
      }
      if step.next == classIndex {
        // nothing changed, so the loop would repeat forever
        return Hang;
      }
      classIndex := step.next;
      remaining := s[classIndex..];
    }
    return Ok(remaining, s[..classIndex]);
  }

  /** A class node holds the scanned name, without its dot. */
  method ParseClassNode(input: string) returns (r: Res<ClassNode>)
    ensures r.Ok? <==> ClassScan(input).Ok?
    ensures r.Ok? ==> r.rest == ClassScan(input).rest && r.value == ClassNode(ClassScan(input).value)
    ensures !r.Ok? ==> r == ClassScan(input).PropagateFailure()
  {
    var p :- ProcessClass(input);
    return Ok(p.0, ClassNode(p.1));
  }

  /** A successful scan splits the input into the dot, the class and a rest
      that starts at the character ending the class. */
  lemma ClassScanSplits(input: string)
    requires ClassScan(input).Ok?
    ensures StartsWith(input, ".")
    ensures "." + ClassScan(input).value + ClassScan(input).rest == input
    ensures |ClassScan(input).rest| > 0 && StopsClass(ClassScan(input).rest, 0)
  {
    var s := input[1..];
    var r := ClassScanFrom(s, 0);
    assert s[..|r.value|] + s[|r.value|..] == s;
  }

  /** Without a dot there is no class, and the error is at the input. */
  lemma ClassNeedsDot(input: string)
    requires !StartsWith(input, ".")
    ensures ClassScan(input) == Err(TagMismatch, input)
  {
  }

  /** A run of plain characters is stepped over one by one. */
  lemma {:induction false} PlainRun(s: string, i: nat, n: nat)
    requires i <= n <= |s|
    requires forall k :: i <= k < n ==> IsPlainClassChar(s[k])
    ensures ClassScanFrom(s, i) == ClassScanFrom(s, n)
    decreases n - i
  {
    if i < n {
      assert ClassStep(s, i) == Advance(i + 1);
      PlainRun(s, i + 1, n);
    }
  }

  /** A class of plain characters ends at the first stop character, the end
      of the input asks for more input, and a carriage return that is not
      followed by a line feed makes the scan spin forever. */
  lemma PlainClass(input: string, n: nat)
    requires StartsWith(input, ".") && n < |input|
    requires forall k :: 1 <= k <= n ==> IsPlainClassChar(input[k])
    ensures n + 1 < |input| && StopsClass(input[1..], n) ==> ClassScan(input) == Ok(input[n + 1..], input[1..n + 1])
    ensures n + 1 == |input| ==> ClassScan(input) == Incomplete
    ensures n + 1 < |input| && input[n + 1] == '\r' && !StopsClass(input[1..], n) ==> ClassScan(input) == Hang
  {
    var s := input[1..];
    PlainRun(s, 0, n);
    assert s[n..] == input[n + 1..] && s[..n] == input[1..n + 1];
  }

  /** Position `j` of `s` lies strictly inside a bracketed value that the
      scan jumps over. */
  ghost predicate InsideBrackets(s: string, j: nat) {
    exists b :: 0 <= b < j && b < |s| && s[b] == '[' && ClosingIndex(s[b..], ']').Some? && j < b + ClosingIndex(s[b..], ']').value
  }

  lemma {:induction false} StopCharsOnlyInsideBracketsFrom(s: string, i: nat)
    requires i <= |s| && ClassScanFrom(s, i).Ok?
    ensures forall j :: i <= j < |ClassScanFrom(s, i).value| && IsClassStopChar(s[j]) ==> InsideBrackets(s, j)
    decreases |s| - i
  {
    var r := ClassScanFrom(s, i);
    match ClassStep(s, i)
    case Finish =>
    case GiveUp(_) =>
    case Advance(next) =>
      StopCharsOnlyInsideBracketsFrom(s, next);
      if s[i] == '[' {
        var k := ClosingIndex(s[i..], ']').value;
        assert next == i + k;
        forall j | i < j < next
          ensures InsideBrackets(s, j)
        {
          assert s[i] == '[' && j < i + ClosingIndex(s[i..], ']').value;
        }
      }
  }

  /** Inside a class, `.`, `#`, `(`, blanks and line feeds only occur within
      a bracketed arbitrary value. */
  lemma StopCharsOnlyInsideBrackets(input: string)
    requires ClassScan(input).Ok?
    ensures forall j :: 0 <= j < |ClassScan(input).value| && IsClassStopChar(input[1..][j]) ==> InsideBrackets(input[1..], j)
  {
    StopCharsOnlyInsideBracketsFrom(input[1..], 0);
  }

  /** A bracket with no unescaped `]` after it fails at the bracket. */
  lemma UnclosedBracket(input: string, n: nat)
    requires StartsWith(input, ".") && n + 1 < |input| && input[n + 1] == '['
    requires forall k :: 1 <= k <= n ==> IsPlainClassChar(input[k])
    requires ClosingIndex(input[n + 1..], ']').None?
    ensures ClassScan(input) == Err(TagMismatch, input[n + 1..])
  {
    var s := input[1..];
    PlainRun(s, 0, n);
    assert s[n..] == input[n + 1..];
  }
}
