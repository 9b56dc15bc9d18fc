/** Python's `str.splitlines` and `str.strip`, on the characters they cut on and strip. */
module Lines {
  import opened Prelude

  /** The characters `str.splitlines` cuts on that JSON may leave raw inside a string. */
  predicate IsRawBreak(c: char) {
    c == '\U{85}' || c == '\U{2028}' || c == '\U{2029}'
  }

  /** Every character `str.splitlines` cuts on. */
  predicate IsBreak(c: char) {
    IsRawBreak(c) || c == '\n' || c == '\r' || c == '\U{0B}' || c == '\U{0C}'
    || c == '\U{1C}' || c == '\U{1D}' || c == '\U{1E}'
  }

  predicate HasRawBreak(s: string) {
    exists i :: 0 <= i < |s| && IsRawBreak(s[i])
  }

  predicate OneLine(s: string) {
    forall i :: 0 <= i < |s| ==> !IsBreak(s[i])
  }

  function FirstBreak(s: string): (i: nat)
    ensures i <= |s| && (i < |s| ==> IsBreak(s[i]))
    ensures forall k :: 0 <= k < i ==> !IsBreak(s[k])
  {
    if s == "" || IsBreak(s[0]) then 0 else 1 + FirstBreak(s[1..])
  }

  /** `str.splitlines`. It pairs a carriage return with the line feed after it; the empty line
      this function puts between them is one every reader here skips. */
  function SplitLines(s: string): (lines: seq<string>) {
    if s == "" then []
    else
      var i := FirstBreak(s);
      [s[..i]] + if i == |s| then [] else SplitLines(s[i + 1..])
  }

  lemma {:induction false} FirstBreakIs(line: string, rest: string)
    requires OneLine(line) && (rest == "" || IsBreak(rest[0]))
    ensures FirstBreak(line + rest) == |line|
  {
    assert forall k :: 0 <= k < |line| ==> (line + rest)[k] == line[k];
    assert rest != "" ==> (line + rest)[|line|] == rest[0];
  }

  lemma {:induction false} SplitAtBreak(line: string, c: char, rest: string)
    requires OneLine(line) && IsBreak(c)
    ensures SplitLines(line + ([c] + rest)) == [line] + SplitLines(rest)
  {
    FirstBreakIs(line, [c] + rest);
    assert (line + ([c] + rest))[|line| + 1..] == rest;
  }

  lemma {:induction false} SplitFirst(s: string)
    requires s != "" && IsBreak(s[|s| - 1])
    ensures FirstBreak(s) < |s| && SplitLines(s) == [s[..FirstBreak(s)]] + SplitLines(s[FirstBreak(s) + 1..])
  {
  }

  lemma {:induction false} SplitOneLine(line: string)
    requires OneLine(line)
    ensures SplitLines(line) == if line == "" then [] else [line]
  {
    FirstBreakIs(line, "");
    assert line + "" == line;
  }

  predicate SplitsAfter(s: string, c: char, rest: string) {
    SplitLines(s + ([c] + rest)) == SplitLines(s + [c]) + SplitLines(rest)
  }

  lemma {:induction false} SplitsAfterOneLine(s: string, c: char, rest: string)
    requires OneLine(s) && IsBreak(c)
    ensures SplitsAfter(s, c, rest)
  {
    SplitAtBreak(s, c, rest);
    SplitAtBreak(s, c, "");
    assert [c] + "" == [c];
  }

  lemma {:induction false} CutAtBreak(head: string, b: char, tail: string, rest: string)
    requires OneLine(head) && IsBreak(b)
    ensures SplitLines(head + ([b] + tail) + rest) == [head] + SplitLines(tail + rest)
  {
    SplitAtBreak(head, b, tail + rest);
    Associate([b], tail, rest);
    Associate(head, [b] + tail, rest);
  }

  lemma {:induction false} SplitsAfterMore(head: string, b: char, tail: string, c: char, rest: string)
    requires OneLine(head) && IsBreak(b) && IsBreak(c) && SplitsAfter(tail, c, rest)
    ensures SplitsAfter(head + ([b] + tail), c, rest)
  {
    CutAtBreak(head, b, tail, [c] + rest);
    CutAtBreak(head, b, tail, [c]);
    Associate([head], SplitLines(tail + [c]), SplitLines(rest));
  }

  /** A line break separates what comes before it from what comes after. */
  lemma {:induction false} SplitTerminated(s: string, c: char, rest: string)
    requires IsBreak(c)
    ensures SplitsAfter(s, c, rest)
    decreases |s|
  {
    var i := FirstBreak(s);
    if i == |s| {
      SplitsAfterOneLine(s, c, rest);
    } else {
      SplitTerminated(s[i + 1..], c, rest);
      SplitsAfterMore(s[..i], s[i], s[i + 1..], c, rest);
      assert s == s[..i] + ([s[i]] + s[i + 1..]);
    }
  }

  lemma {:induction false} NothingBefore(s: string)
    ensures "" + s == s
  {
  }

  function Concat(pieces: seq<string>): (s: string) {
    if pieces == [] then "" else pieces[0] + Concat(pieces[1..])
  }

  lemma {:induction false} ConcatAppend(a: seq<string>, b: seq<string>)
    ensures Concat(a + b) == Concat(a) + Concat(b)
  {
    if a == [] {
      assert a + b == b;
    } else {
      ConcatAppend(a[1..], b);
      assert (a + b)[1..] == a[1..] + b;
      Associate(a[0], Concat(a[1..]), Concat(b));
    }
  }

  /** Python's `str.isspace` for one character. */
  predicate IsSpace(c: char) {
    IsBreak(c) || c == ' ' || c == '\t' || c == '\U{1F}' || c == '\U{A0}' || c == '\U{1680}'
    || '\U{2000}' <= c <= '\U{200A}' || c == '\U{202F}' || c == '\U{205F}' || c == '\U{3000}'
  }

  predicate Blank(line: string) {
    forall i :: 0 <= i < |line| ==> IsSpace(line[i])
  }

  /** `str.strip` */
  function Strip(s: string): string {
    if s != "" && IsSpace(s[0]) then Strip(s[1..])
    else if s != "" && IsSpace(s[|s| - 1]) then Strip(s[..|s| - 1])
    else s
  }

  /** White space, `core`, and white space. */
  predicate Surrounds(before: string, core: string, after: string, s: string) {
    s == before + (core + after) && Blank(before) && Blank(after)
  }

  lemma {:induction false} MoreBefore(s: string, before: string, core: string, after: string)
    requires s != "" && IsSpace(s[0]) && Surrounds(before, core, after, s[1..])
    ensures Surrounds([s[0]] + before, core, after, s)
  {
    assert s == [s[0]] + s[1..];
  }

  lemma {:induction false} MoreAfter(s: string, before: string, core: string, after: string)
    requires s != "" && IsSpace(s[|s| - 1]) && Surrounds(before, core, after, s[..|s| - 1])
    ensures Surrounds(before, core, after + [s[|s| - 1]], s)
  {
    assert s == s[..|s| - 1] + [s[|s| - 1]];
  }

  /** Stripping takes white space off both ends, and all that is there. */
  lemma {:induction false} StripIs(s: string) returns (before: string, after: string)
    ensures Surrounds(before, Strip(s), after, s)
    ensures Strip(s) != "" ==> !IsSpace(Strip(s)[0]) && !IsSpace(Strip(s)[|Strip(s)| - 1])
    decreases |s|
  {
    before, after := "", "";
    if s != "" && IsSpace(s[0]) {
      before, after := StripIs(s[1..]);
      MoreBefore(s, before, Strip(s), after);
      before := [s[0]] + before;
    } else if s != "" && IsSpace(s[|s| - 1]) {
      before, after := StripIs(s[..|s| - 1]);
      MoreAfter(s, before, Strip(s), after);
      after := after + [s[|s| - 1]];
    }
  }
}
