/**
 The prompt composer: `generateResponse` interpolates the user's question and
 the target language into a fixed teaching template, sends it to the language
 model, and answers with the model's text or, if anything goes wrong, with a
 fixed apology.

 The template literal is written here as its literal pieces with the two
 substitutions between them. Its source lines end in CR LF, but a template
 literal's line terminators are normalised to a single `\n`, so every line
 break below is `\n`.
 */
module PromptComposer {
  import opened Opt
  import opened Text

  // ---------------------------------------------------------------------------
  // The template

  /** The language used when the caller supplies none. */
  const DefaultLanguage: string := "Python"

  /** The reply when the model call fails in any way. */
  const ApologyReply: string :=
    "I apologize, but I encountered an error while processing your request. Please try again."

  const Intro: string :=
    "\nAs an expert algorithm teacher, explain the solution to this coding problem. Follow this EXACT format:\n\n"
    + "1. BRIEF Problem Overview (2-3 sentences max)\n\n"

  /** The word that names the steps section. */
  const PseudocodeWord: string := "Pseudocode"

  const PseudocodeHeading: string :=
    "2. " + PseudocodeWord + " (EXACTLY 5 steps, no more, no less):\n"

  /** How many step slots the template asks for. */
  const SlotCount: nat := 5

  /** The ordinal words of the five placeholders. */
  const Ordinals: seq<string> := ["First", "Second", "Third", "Fourth", "Fifth"]

  /** The marker `k)` that numbers slot `k`: its single digit and a closing parenthesis. */
  function StepMarker(k: nat): (r: string)
    requires 1 <= k <= SlotCount
    ensures |r| == 2 && IsDigit(r[0]) && r[1] == ')'
  {
    [('0' as int + k) as char, ')']
  }

  /**
   How a slot line is written around its marker and ordinal: the indentation
   before the marker, and the placeholder text before and after the ordinal.
   */
  datatype SlotStyle = SlotStyle(indent: string, open: string, close: string)

  /** The slot lines of the template: `   k) [<Ordinal> step - one clear, concise line]`. */
  const TemplateSlotStyle: SlotStyle := SlotStyle("   ", " [", " step - one clear, concise line]\n")

  /** The line for step slot `k`: indented, numbered `k)`, with a placeholder naming the step by its ordinal word. */
  function Slot(style: SlotStyle, k: nat, ordinal: string): string
    requires 1 <= k <= SlotCount
  {
    style.indent + StepMarker(k) + style.open + ordinal + style.close
  }

  /** The first `n` slot lines, their placeholders named by `ordinals`. */
  function Slots(style: SlotStyle, ordinals: seq<string>, n: nat): string
    requires n <= |ordinals| <= SlotCount
  {
    if n == 0 then "" else Slots(style, ordinals, n - 1) + Slot(style, n, ordinals[n - 1])
  }

  /** What stands immediately before the language. */
  const LanguageLead: string := "Implementation (in "

  const LanguageClose: string := "):"

  /** What stands immediately before the question. */
  const QuestionLabel: string := "Question: "

  /**
   A template literal with two substitutions: the literal text before the
   language, between the language and the question, and after the question.
   */
  datatype Template = Template(head: string, middle: string, tail: string)

  /** The literal text before the step slots. */
  const BeforeSlots: string := Intro + PseudocodeHeading

  const MiddleBody: string :=
    "\n"
    + "   - Clean, optimized code\n"
    + "   - Important comments only\n"
    + "   - Follow best practices\n\n"
    + "4. Complexity:\n"
    + "   - Time: O(?) with brief explanation\n"
    + "   - Space: O(?) with brief explanation\n\n"
    + "5. Example:\n"
    + "   Input: [example input]\n"
    + "   Output: [example output]\n"
    + "   Brief walkthrough of how the solution works with this example\n\n"

  const TailText: string :=
    "\n\nIMPORTANT:\n"
    + "- Each pseudocode step MUST be numbered exactly as shown: 1) 2) 3) 4) 5)\n"
    + "- Each step MUST be a single, clear line\n"
    + "- NO additional or fewer steps allowed\n"
    + "- NO substeps or nested steps\n"
    + "- Keep steps high-level and algorithmic\n"
    + "- Use clear, concise language\n"

  /** The teaching template of `generateResponse`. */
  const PromptTemplate: Template := Template(
    BeforeSlots + Slots(TemplateSlotStyle, Ordinals, SlotCount) + "\n3. " + LanguageLead,
    LanguageClose + MiddleBody + QuestionLabel,
    TailText)

  /** Substitute the language and the question into a template. */
  function Render(t: Template, question: string, language: string): string {
    t.head + language + t.middle + question + t.tail
  }

  /** The prompt sent for `question` in `language`. */
  function Compose(question: string, language: string): string {
    Render(PromptTemplate, question, language)
  }

  /** `s` ends with `suffix`. */
  predicate EndsWith(s: string, suffix: string) {
    |suffix| <= |s| && s[|s| - |suffix|..] == suffix
  }

  /**
   `s` begins with `prefix`, compared as a slice. It agrees with `Text.StartsWith`
   (by `StartsWithSlice`); the slice form is kept here because the positional
   lemmas below reason about slices directly, without unfolding the recursion.
   */
  predicate BeginsWith(s: string, prefix: string) {
    |prefix| <= |s| && s[..|prefix|] == prefix
  }

  /**
   The shape the properties below rely on: the language stands between
   `Implementation (in ` and `):`, and the question right after `Question: `.
   */
  predicate WellShaped(t: Template) {
    && EndsWith(t.head, LanguageLead)
    && BeginsWith(t.middle, LanguageClose)
    && EndsWith(t.middle, QuestionLabel)
  }

  /** A default parameter: an absent language means the default one. */
  function ResolveLanguage(language: Option<string>): (r: string)
    ensures language == None ==> r == DefaultLanguage
    ensures language.Some? ==> r == language.value
  {
    match language
    case None => DefaultLanguage
    case Some(l) => l
  }

  /**
   Reads the question back out of a prompt rendered from `t` for `language`:
   the text between the fixed part before it and the fixed tail, or None when
   the prompt does not have the template's shape.
   */
  function QuestionOf(t: Template, prompt: string, language: string): Option<string> {
    var before := t.head + language + t.middle;
    if |before| + |t.tail| <= |prompt|
       && prompt[..|before|] == before
       && prompt[|prompt| - |t.tail|..] == t.tail
    then Some(prompt[|before|..|prompt| - |t.tail|])
    else None
  }

  // ---------------------------------------------------------------------------
  // The model call

  /** What the model call came to: the reply text, or a failure of any kind (key, network, quota, parse). */
  datatype SdkOutcome = Replied(text: string) | Failed

  /**
   Compose the prompt, send it, and answer with the reply or the apology.
   `send` stands for the whole SDK round trip on the prompt it is given.
   */
  function GenerateResponse(question: string, language: Option<string>, send: string -> SdkOutcome): (r: string)
    ensures send(Compose(question, ResolveLanguage(language))).Failed? ==> r == ApologyReply
    ensures send(Compose(question, ResolveLanguage(language))).Replied? ==>
      r == send(Compose(question, ResolveLanguage(language))).text
  {
    match send(Compose(question, ResolveLanguage(language)))
    case Replied(text) => text
    case Failed => ApologyReply
  }

  // ---------------------------------------------------------------------------
  // Lemmas

  lemma SliceOfConcat(a: string, b: string, c: string)
    ensures (a + b + c)[|a|..|a| + |b|] == b
  {
  }

  lemma Regroup(a: string, b: string, c: string, d: string, e: string)
    ensures a + b + c + d + e == a + b + (c + d + e)
    ensures a + b + c + d + e == a + (b + c + d + e)
  {
  }

  lemma EndsWithConcat(x: string, y: string)
    ensures EndsWith(x + y, y)
  {
  }

  lemma BeginsWithConcat(x: string, y: string, z: string)
    ensures BeginsWith(x + y + z, x)
  {
  }

  /**
   The template of `generateResponse` has the shape the other lemmas rely on,
   with its five numbered slots between the pseudocode heading and the
   implementation section.
   */
  lemma PromptTemplateShape()
    ensures WellShaped(PromptTemplate)
    ensures PromptTemplate.head == BeforeSlots + Slots(TemplateSlotStyle, Ordinals, SlotCount) + "\n3. " + LanguageLead
    ensures EndsWith(BeforeSlots, PseudocodeHeading) && |Ordinals| == SlotCount
  {
    EndsWithConcat(BeforeSlots + Slots(TemplateSlotStyle, Ordinals, SlotCount) + "\n3. ", LanguageLead);
    BeginsWithConcat(LanguageClose, MiddleBody, QuestionLabel);
    EndsWithConcat(LanguageClose + MiddleBody, QuestionLabel);
    EndsWithConcat(Intro, PseudocodeHeading);
  }

  /** Reading the question back from a rendered prompt gives the question. */
  lemma QuestionRoundTrip(t: Template, question: string, language: string)
    ensures QuestionOf(t, Render(t, question, language), language) == Some(question)
  {
    var before := t.head + language + t.middle;
    var prompt := Render(t, question, language);
    assert prompt == before + question + t.tail;
    assert prompt[..|before|] == before;
    assert prompt[|prompt| - |t.tail|..] == t.tail;
    SliceOfConcat(before, question, t.tail);
  }

  /** Whatever reads back as a question for a language is the prompt rendered from it. */
  lemma QuestionOfRenders(t: Template, prompt: string, language: string)
    requires QuestionOf(t, prompt, language).Some?
    ensures Render(t, QuestionOf(t, prompt, language).value, language) == prompt
  {
    var before := t.head + language + t.middle;
    assert prompt == prompt[..|before|] + prompt[|before|..|prompt| - |t.tail|] + prompt[|prompt| - |t.tail|..];
  }

  /** Two questions give the same prompt in a language only if they are the same question. */
  lemma RenderInjective(t: Template, q1: string, q2: string, language: string)
    requires Render(t, q1, language) == Render(t, q2, language)
    ensures q1 == q2
  {
    QuestionRoundTrip(t, q1, language);
    QuestionRoundTrip(t, q2, language);
  }

  /** The question appears verbatim right after `Question: `, and only the template's tail follows it. */
  lemma QuestionAfterLabel(t: Template, question: string, language: string)
    requires WellShaped(t)
    ensures var p := Render(t, question, language);
      var i := |t.head| + |language| + |t.middle| - |QuestionLabel|;
      && i + |QuestionLabel| + |question| <= |p|
      && p[i..i + |QuestionLabel| + |question|] == QuestionLabel + question
      && p[i + |QuestionLabel| + |question|..] == t.tail
    ensures Contains(Render(t, question, language), QuestionLabel + question)
  {
    var p := Render(t, question, language);
    var front := t.head + language + t.middle[..|t.middle| - |QuestionLabel|];
    assert t.middle == t.middle[..|t.middle| - |QuestionLabel|] + QuestionLabel;
    assert p == front + (QuestionLabel + question) + t.tail;
    SliceOfConcat(front, QuestionLabel + question, t.tail);
    ContainsAt(p, |front|, QuestionLabel + question);
  }

  /** The language appears verbatim in `Implementation (in <language>):`. */
  lemma LanguageInImplementation(t: Template, question: string, language: string)
    requires WellShaped(t)
    ensures var p := Render(t, question, language);
      var i := |t.head| - |LanguageLead|;
      var phrase := LanguageLead + language + LanguageClose;
      && i + |phrase| <= |p|
      && p[i..i + |phrase|] == phrase
    ensures Contains(Render(t, question, language), LanguageLead + language + LanguageClose)
  {
    var after := t.middle + question + t.tail;
    Regroup(t.head, language, t.middle, question, t.tail);
    assert after[..|LanguageClose|] == t.middle[..|LanguageClose|];
    SubstitutionBetween(t.head, LanguageLead, language, LanguageClose, after);
    ContainsAt(Render(t, question, language), |t.head| - |LanguageLead|, LanguageLead + language + LanguageClose);
  }

  /** A value substituted between a text ending in `lead` and a text beginning with `close` reads `lead`, value, `close`. */
  lemma SubstitutionBetween(before: string, lead: string, value: string, close: string, after: string)
    requires EndsWith(before, lead) && BeginsWith(after, close)
    ensures var p := before + value + after;
      var i := |before| - |lead|;
      i + |lead + value + close| <= |p| && p[i..i + |lead + value + close|] == lead + value + close
  {
    var p := before + value + after;
    var phrase := lead + value + close;
    var i := |before| - |lead|;
    forall j | 0 <= j < |phrase|
      ensures p[i + j] == phrase[j]
    {
      if j < |lead| {
        assert p[i + j] == before[i..][j];
      } else if j < |lead| + |value| {
        assert p[i + j] == value[j - |lead|];
      } else {
        assert p[i + j] == after[..|close|][j - |lead| - |value|];
      }
    }
    assert p[i..i + |phrase|] == phrase;
  }

  /** Each slot is longer than its marker and the indentation before it. */
  lemma {:induction false} SlotsGrow(style: SlotStyle, ordinals: seq<string>, j: nat, k: nat)
    requires j < k <= |ordinals| <= SlotCount
    ensures |Slots(style, ordinals, j)| + |style.indent| + 2 <= |Slots(style, ordinals, k)|
    decreases k
  {
    if j < k - 1 {
      SlotsGrow(style, ordinals, j, k - 1);
    }
  }

  /** The position of marker `k)` in a text whose slot block starts at `start`. */
  function MarkerAt(start: nat, style: SlotStyle, ordinals: seq<string>, k: nat): nat
    requires 1 <= k <= |ordinals| <= SlotCount
  {
    start + |Slots(style, ordinals, k - 1)| + |style.indent|
  }

  lemma SliceOfPrefix(a: string, b: string, x: nat, y: nat)
    requires x <= y <= |a|
    ensures (a + b)[x..y] == a[x..y]
  {
  }

  lemma SliceInMiddle(a: string, b: string, c: string, x: nat, y: nat)
    requires x <= y <= |b|
    ensures (a + b + c)[|a| + x..|a| + y] == b[x..y]
  {
    forall i | 0 <= i < y - x
      ensures (a + b + c)[|a| + x..|a| + y][i] == b[x..y][i]
    {
      assert (a + b + c)[|a| + x + i] == b[x + i];
    }
  }

  /** Marker `k)` stands right after the indentation of slot `k`, in every slot block that includes slot `k`. */
  lemma {:induction false} MarkerInSlots(style: SlotStyle, ordinals: seq<string>, k: nat, n: nat)
    requires 1 <= k <= n <= |ordinals| <= SlotCount
    ensures MarkerAt(0, style, ordinals, k) + 2 <= |Slots(style, ordinals, n)|
    ensures Slots(style, ordinals, n)[MarkerAt(0, style, ordinals, k)..MarkerAt(0, style, ordinals, k) + 2] == StepMarker(k)
    decreases n
  {
    var x := MarkerAt(0, style, ordinals, k);
    if k < n {
      MarkerInSlots(style, ordinals, k, n - 1);
      SliceOfPrefix(Slots(style, ordinals, n - 1), Slot(style, n, ordinals[n - 1]), x, x + 2);
    } else {
      MarkerInLastSlot(style, ordinals, k);
    }
  }

  /** Marker `k)` stands right after the indentation of the last slot of a block of `k` slots. */
  lemma MarkerInLastSlot(style: SlotStyle, ordinals: seq<string>, k: nat)
    requires 1 <= k <= |ordinals| <= SlotCount
    ensures MarkerAt(0, style, ordinals, k) + 2 <= |Slots(style, ordinals, k)|
    ensures Slots(style, ordinals, k)[MarkerAt(0, style, ordinals, k)..MarkerAt(0, style, ordinals, k) + 2] == StepMarker(k)
  {
    var block := Slots(style, ordinals, k);
    var slot := Slot(style, k, ordinals[k - 1]);
    var x := |Slots(style, ordinals, k - 1)| + |style.indent|;
    assert block == Slots(style, ordinals, k - 1) + slot;
    forall i | 0 <= i < 2
      ensures block[x + i] == StepMarker(k)[i]
    {
      assert block[x + i] == slot[|style.indent| + i];
    }
    assert block[x..x + 2] == StepMarker(k);
  }

  /**
   A text that holds a block of five slots between a `Pseudocode` heading and
   `Implementation (in ` (as every prompt rendered from the template does)
   numbers them `1)` to `5)` in increasing order, all after the word
   `Pseudocode` and before `Implementation (in `.
   */
  lemma StepMarkersInOrder(before: string, style: SlotStyle, ordinals: seq<string>, gap: string, rest: string)
    requires |ordinals| == SlotCount
    requires EndsWith(before, PseudocodeHeading)
    ensures var p := before + Slots(style, ordinals, |ordinals|) + gap + LanguageLead + rest;
      var w := |before| - |PseudocodeHeading| + 3;
      w + |PseudocodeWord| <= |p| && p[w..w + |PseudocodeWord|] == PseudocodeWord
    ensures |before| - |PseudocodeHeading| + 3 + |PseudocodeWord| <= MarkerAt(|before|, style, ordinals, 1)
    ensures forall k :: 1 <= k <= |ordinals| ==>
      var p := before + Slots(style, ordinals, |ordinals|) + gap + LanguageLead + rest;
      var m := MarkerAt(|before|, style, ordinals, k);
      m + 2 <= |p| && p[m..m + 2] == StepMarker(k)
    ensures forall j, k :: 1 <= j < k <= |ordinals| ==>
      MarkerAt(|before|, style, ordinals, j) + 2 <= MarkerAt(|before|, style, ordinals, k)
    ensures var p := before + Slots(style, ordinals, |ordinals|) + gap + LanguageLead + rest;
      var l := |before| + |Slots(style, ordinals, |ordinals|)| + |gap|;
      MarkerAt(|before|, style, ordinals, |ordinals|) + 2 <= l && l + |LanguageLead| <= |p| && p[l..l + |LanguageLead|] == LanguageLead
  {
    var slots := Slots(style, ordinals, |ordinals|);
    Regroup(before, slots, gap, LanguageLead, rest);
    PseudocodeInHeading(before, slots + gap + LanguageLead + rest);
    MarkersPresent(before, style, ordinals, gap + LanguageLead + rest);
    MarkersIncrease(|before|, style, ordinals);
    SliceOfConcat(before + slots + gap, LanguageLead, rest);
  }

  /**
   In any prompt rendered from a template whose head holds the five-slot block
   after the pseudocode heading (as the template of `generateResponse` does, by
   `PromptTemplateShape`), the markers `1)` to `5)` stand at increasing
   positions, all of them before `Implementation (in `.
   */
  lemma RenderedStepMarkers(t: Template, before: string, style: SlotStyle, ordinals: seq<string>, gap: string,
                            question: string, language: string)
    requires |ordinals| == SlotCount && EndsWith(before, PseudocodeHeading)
    requires t.head == before + Slots(style, ordinals, |ordinals|) + gap + LanguageLead
    ensures forall k :: 1 <= k <= SlotCount ==>
      var p := Render(t, question, language);
      var m := MarkerAt(|before|, style, ordinals, k);
      m + 2 <= |p| && p[m..m + 2] == StepMarker(k)
    ensures forall j, k :: 1 <= j < k <= SlotCount ==>
      MarkerAt(|before|, style, ordinals, j) + 2 <= MarkerAt(|before|, style, ordinals, k)
    ensures var p := Render(t, question, language);
      var l := |t.head| - |LanguageLead|;
      MarkerAt(|before|, style, ordinals, SlotCount) + 2 <= l && p[l..l + |LanguageLead|] == LanguageLead
  {
    var rest := language + t.middle + question + t.tail;
    Regroup(t.head, language, t.middle, question, t.tail);
    StepMarkersInOrder(before, style, ordinals, gap, rest);
  }

  /** Every marker stands at its position in any text that holds the slot block. */
  lemma MarkersPresent(before: string, style: SlotStyle, ordinals: seq<string>, rest: string)
    requires |ordinals| <= SlotCount
    ensures forall k :: 1 <= k <= |ordinals| ==>
      var p := before + Slots(style, ordinals, |ordinals|) + rest;
      var m := MarkerAt(|before|, style, ordinals, k);
      m + 2 <= |p| && p[m..m + 2] == StepMarker(k)
  {
    forall k | 1 <= k <= |ordinals|
      ensures var p := before + Slots(style, ordinals, |ordinals|) + rest;
        var m := MarkerAt(|before|, style, ordinals, k);
        m + 2 <= |p| && p[m..m + 2] == StepMarker(k)
    {
      MarkerPresent(before, style, ordinals, rest, k);
    }
  }

  /** Marker `k)` stands at its position in any text that holds the slot block. */
  lemma MarkerPresent(before: string, style: SlotStyle, ordinals: seq<string>, rest: string, k: nat)
    requires 1 <= k <= |ordinals| <= SlotCount
    ensures var p := before + Slots(style, ordinals, |ordinals|) + rest;
      var m := MarkerAt(|before|, style, ordinals, k);
      m + 2 <= |p| && p[m..m + 2] == StepMarker(k)
  {
    var x := MarkerAt(0, style, ordinals, k);
    MarkerInSlots(style, ordinals, k, |ordinals|);
    SliceInMiddle(before, Slots(style, ordinals, |ordinals|), rest, x, x + 2);
  }

  /** Markers are in increasing order and all lie inside the slot block. */
  lemma MarkersIncrease(start: nat, style: SlotStyle, ordinals: seq<string>)
    requires 1 <= |ordinals| <= SlotCount
    ensures start <= MarkerAt(start, style, ordinals, 1)
    ensures forall j, k :: 1 <= j < k <= |ordinals| ==>
      MarkerAt(start, style, ordinals, j) + 2 <= MarkerAt(start, style, ordinals, k)
    ensures MarkerAt(start, style, ordinals, |ordinals|) + 2 <= start + |Slots(style, ordinals, |ordinals|)|
  {
    forall j, k | 1 <= j < k <= |ordinals|
      ensures MarkerAt(start, style, ordinals, j) + 2 <= MarkerAt(start, style, ordinals, k)
    {
      SlotsGrow(style, ordinals, j - 1, k - 1);
    }
    SlotsGrow(style, ordinals, |ordinals| - 1, |ordinals|);
  }

  /** The word `Pseudocode` stands three characters into the pseudocode heading. */
  lemma PseudocodeInHeading(before: string, rest: string)
    requires EndsWith(before, PseudocodeHeading)
    ensures var p := before + rest;
      var w := |before| - |PseudocodeHeading| + 3;
      w + |PseudocodeWord| <= |p| && p[w..w + |PseudocodeWord|] == PseudocodeWord
  {
    var front := before[..|before| - |PseudocodeHeading|];
    var headingRest := " (EXACTLY 5 steps, no more, no less):\n";
    assert before == front + PseudocodeHeading;
    assert before + rest == (front + "2. ") + PseudocodeWord + (headingRest + rest);
    SliceOfConcat(front + "2. ", PseudocodeWord, headingRest + rest);
  }

  /** The prompt of `generateResponse` carries the question after `Question: ` and the language in `Implementation (in <language>):`. */
  lemma ComposedQuestionAndLanguage(question: string, language: string)
    ensures Contains(Compose(question, language), QuestionLabel + question)
    ensures Contains(Compose(question, language), LanguageLead + language + LanguageClose)
    ensures QuestionOf(PromptTemplate, Compose(question, language), language) == Some(question)
  {
    PromptTemplateShape();
    QuestionAfterLabel(PromptTemplate, question, language);
    LanguageInImplementation(PromptTemplate, question, language);
    QuestionRoundTrip(PromptTemplate, question, language);
  }

  /**
   Every reply is either the apology or what the model said to a prompt that
   carries the question and names the language to implement in.
   */
  lemma ReplyAnswersQuestion(question: string, language: Option<string>, send: string -> SdkOutcome)
    ensures var r := GenerateResponse(question, language, send);
      r == ApologyReply ||
      exists prompt :: send(prompt) == Replied(r)
        && QuestionOf(PromptTemplate, prompt, ResolveLanguage(language)) == Some(question)
        && Contains(prompt, LanguageLead + ResolveLanguage(language) + LanguageClose)
  {
    var prompt := Compose(question, ResolveLanguage(language));
    ComposedQuestionAndLanguage(question, ResolveLanguage(language));
    if send(prompt).Replied? {
      assert send(prompt) == Replied(GenerateResponse(question, language, send));
    }
  }
}
