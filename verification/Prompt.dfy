/** The reader's prompt: the question, a marker, and what retrieval produced. */
module Prompt {
  import opened Prelude

  const CONTEXT_MARKER := "\n--- retrieved memory ---\n"

  /** What comes before the marker. */
  function Head(question: string, askedOn: Option<string>): string {
    "Question: " + question
    + if askedOn.Some? && askedOn.value != "" then "\nToday's date: " + askedOn.value else ""
  }

  function BuildPrompt(question: string, context: string, askedOn: Option<string>): (prompt: string) {
    Head(question, askedOn) + CONTEXT_MARKER + context
  }

  predicate OccursAt(s: string, part: string, i: nat) {
    i + |part| <= |s| && s[i..i + |part|] == part
  }

  ghost predicate Contains(s: string, part: string) {
    exists i :: OccursAt(s, part, i)
  }

  predicate EndsWith(s: string, part: string) {
    |part| <= |s| && s[|s| - |part|..] == part
  }

  /** `str.find`, from the left. */
  function FindFrom(s: string, part: string, from: nat): (at: Option<nat>)
    ensures at.Some? ==> from <= at.value && OccursAt(s, part, at.value) && forall i :: from <= i < at.value ==> !OccursAt(s, part, i)
    ensures at.None? ==> forall i :: from <= i ==> !OccursAt(s, part, i)
    decreases |s| - from
  {
    if from + |part| > |s| then None
    else if OccursAt(s, part, from) then Some(from)
    else FindFrom(s, part, from + 1)
  }

  /** Recovers the question and the context from a prompt; both are the whole prompt if it has
      no marker. */
  function SplitPrompt(prompt: string): (parts: (string, string)) {
    match FindFrom(prompt, CONTEXT_MARKER, 0)
    case None => (prompt, prompt)
    case Some(i) => (prompt[..i], prompt[i + |CONTEXT_MARKER|..])
  }

  /** The only line feeds of the marker are its first and its last character. */
  lemma {:induction false} MarkerBorder(d: nat)
    requires 0 < d < |CONTEXT_MARKER| && CONTEXT_MARKER[d] == '\n'
    ensures d == |CONTEXT_MARKER| - 1
  {
  }

  /** Where the marker can begin before the end of the head it follows. */
  lemma {:induction false} EarlyMarker(head: string, context: string, i: nat)
    requires i < |head|
    ensures OccursAt(head + CONTEXT_MARKER + context, CONTEXT_MARKER, i)
            <==> OccursAt(head, CONTEXT_MARKER, i)
                 || (i + |CONTEXT_MARKER| - 1 == |head| && EndsWith(head, CONTEXT_MARKER[..|CONTEXT_MARKER| - 1]))
  {
    var m, p := CONTEXT_MARKER, head + CONTEXT_MARKER + context;
    if i + |m| <= |head| {
      assert p[i..i + |m|] == head[i..i + |m|];
    } else {
      var d := |head| - i;
      assert p[|head|] == m[0] == '\n';
      if OccursAt(p, m, i) {
        assert p[i..i + |m|][d] == p[|head|];
        MarkerBorder(d);
        assert head[i..] == p[i..i + |m|][..d];
      }
      if d == |m| - 1 && head[i..] == m[..d] {
        assert p[i..i + |m|] == head[i..] + [p[|head|]];
        assert m == m[..d] + [m[d]];
      }
    }
  }

  /** A built prompt splits back into what it was built from if and only if the head neither
      contains the marker nor ends with the marker short of its final line feed. */
  lemma {:induction false} PromptRoundTrip(question: string, context: string, askedOn: Option<string>)
    ensures var head := Head(question, askedOn);
            var split := SplitPrompt(BuildPrompt(question, context, askedOn));
            var safe := !Contains(head, CONTEXT_MARKER) && !EndsWith(head, CONTEXT_MARKER[..|CONTEXT_MARKER| - 1]);
            (split.1 == context <==> safe) && (split.0 == head <==> safe)
  {
    var m, head, p := CONTEXT_MARKER, Head(question, askedOn), BuildPrompt(question, context, askedOn);
    assert p[|head|..|head| + |m|] == m && OccursAt(p, m, |head|);
    var i := FindFrom(p, m, 0).value;
    if i < |head| {
      EarlyMarker(head, context, i);
      assert |p[i + |m|..]| > |context|;
    } else {
      assert p[..i] == head && p[i + |m|..] == context;
      forall j | OccursAt(head, m, j) ensures false {
        EarlyMarker(head, context, j);
      }
      if EndsWith(head, m[..|m| - 1]) {
        EarlyMarker(head, context, |head| - (|m| - 1));
      }
    }
  }

  /** The one line feed there can be in a head of one-line parts stands before the date. */
  lemma {:induction false} HeadBreaks(question: string, askedOn: Option<string>, i: nat)
    requires '\n' !in question && (askedOn.Some? ==> '\n' !in askedOn.value)
    requires i < |Head(question, askedOn)| && Head(question, askedOn)[i] == '\n'
    ensures i + 1 < |Head(question, askedOn)| && Head(question, askedOn)[i + 1] == 'T'
    ensures i == |"Question: " + question| && askedOn.Some? && askedOn.value != ""
  {
    var first := "Question: " + question;
    var second := if askedOn.Some? && askedOn.value != "" then "\nToday's date: " + askedOn.value else "";
    assert Head(question, askedOn) == first + second;
    assert forall j :: 0 <= j < |first| ==> first[j] != '\n';
    assert forall j :: 0 < j < |second| ==> second[j] != '\n';
    assert second != "" ==> second[1] == 'T';
  }

  /** A condition on the parts alone: a question and a date of one line each always come back. */
  lemma {:induction false} OneLineQuestions(question: string, context: string, askedOn: Option<string>)
    requires '\n' !in question && (askedOn.Some? ==> '\n' !in askedOn.value)
    ensures SplitPrompt(BuildPrompt(question, context, askedOn)) == (Head(question, askedOn), context)
  {
    var head := Head(question, askedOn);
    var early := CONTEXT_MARKER[..|CONTEXT_MARKER| - 1];
    assert CONTEXT_MARKER[0] == '\n' && CONTEXT_MARKER[1] == '-' && early[0] == '\n' && early[1] == '-';
    forall i: nat ensures !OccursAt(head, CONTEXT_MARKER, i) {
      if i + |CONTEXT_MARKER| <= |head| {
        assert head[i..i + |CONTEXT_MARKER|][0] == head[i] && head[i..i + |CONTEXT_MARKER|][1] == head[i + 1];
        if head[i] == '\n' {
          HeadBreaks(question, askedOn, i);
        }
      }
    }
    if |early| <= |head| {
      var k := |head| - |early|;
      assert head[k..][0] == head[k] && head[k..][1] == head[k + 1];
      if head[k] == '\n' {
        HeadBreaks(question, askedOn, k);
      }
    }
    PromptRoundTrip(question, context, askedOn);
  }

  lemma {:induction false} HeadsDiffer(question: string, askedOn: string, question': string, askedOn': string)
    requires '\n' !in question && '\n' !in askedOn && '\n' !in question' && '\n' !in askedOn'
    requires Head(question, Some(askedOn)) == Head(question', Some(askedOn'))
    ensures question == question' && askedOn == askedOn'
  {
    var head := Head(question, Some(askedOn));
    var n, m := |"Question: " + question|, |"Question: " + question'|;
    if askedOn != "" {
      assert head[n] == '\n';
      HeadBreaks(question', Some(askedOn'), n);
    }
    if askedOn' != "" {
      assert head[m] == '\n';
      HeadBreaks(question, Some(askedOn), m);
    }
    assert head[..n] == "Question: " + question && head[..m] == "Question: " + question';
    assert ("Question: " + question)[10..] == question && ("Question: " + question')[10..] == question';
    if askedOn != "" {
      assert head[n..] == "\nToday's date: " + askedOn && head[m..] == "\nToday's date: " + askedOn';
      assert ("\nToday's date: " + askedOn)[15..] == askedOn && ("\nToday's date: " + askedOn')[15..] == askedOn';
    }
  }

  /** Of one-line questions and dates, no two prompts are alike that are not built alike. */
  lemma {:induction false} PromptsDiffer(question: string, context: string, askedOn: string,
                                         question': string, context': string, askedOn': string)
    requires '\n' !in question && '\n' !in askedOn && '\n' !in question' && '\n' !in askedOn'
    requires BuildPrompt(question, context, Some(askedOn)) == BuildPrompt(question', context', Some(askedOn'))
    ensures question == question' && context == context' && askedOn == askedOn'
  {
    OneLineQuestions(question, context, Some(askedOn));
    OneLineQuestions(question', context', Some(askedOn'));
    HeadsDiffer(question, askedOn, question', askedOn');
  }

  /** A prompt without the marker is its own question and its own context. */
  lemma {:induction false} UnmarkedPrompt(prompt: string)
    ensures !Contains(prompt, CONTEXT_MARKER) ==> SplitPrompt(prompt) == (prompt, prompt)
    ensures Contains(prompt, CONTEXT_MARKER) ==> prompt == SplitPrompt(prompt).0 + CONTEXT_MARKER + SplitPrompt(prompt).1
  {
    var at := FindFrom(prompt, CONTEXT_MARKER, 0);
    if at.Some? {
      var i := at.value;
      assert prompt == prompt[..i] + prompt[i..i + |CONTEXT_MARKER|] + prompt[i + |CONTEXT_MARKER|..];
    } else {
      assert forall i: nat :: !OccursAt(prompt, CONTEXT_MARKER, i);
    }
  }
}
