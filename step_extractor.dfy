/**
 The step extractor of `visualizeContent` (src/components/Canvas.tsx): it splits an
 assistant answer into lines, waits for a line that mentions "pseudocode" or
 "algorithm steps", and from then on keeps every numbered line, stripped of its
 number, as a step. At most five steps are kept.
 */
module StepExtractor {
  import opened Text

  const MaxSteps: nat := 5
  const PseudocodeKeyword := "pseudocode"
  const AlgorithmStepsKeyword := "algorithm steps"

  /** A trimmed line opens the pseudocode section when its lower-cased form mentions either keyword. */
  predicate IsTrigger(trimmed: string) {
    var lower := ToLower(trimmed);
    Contains(lower, PseudocodeKeyword) || Contains(lower, AlgorithmStepsKeyword)
  }

  /** The class `[.)\s]` that follows a step number. */
  predicate IsMarkerChar(c: char) {
    c == '.' || c == ')' || IsSpace(c)
  }

  predicate AllMarkers(s: string) {
    forall i :: 0 <= i < |s| ==> IsMarkerChar(s[i])
  }

  /** Length of the leading run of digits. */
  function DigitRun(s: string): (n: nat)
    ensures n <= |s| && AllDigits(s[..n])
    ensures n == |s| || !IsDigit(s[n])
  {
    if s != [] && IsDigit(s[0]) then 1 + DigitRun(s[1..]) else 0
  }

  /** Length of the leading run of `[.)\s]`. */
  function MarkerRun(s: string): (n: nat)
    ensures n <= |s| && AllMarkers(s[..n])
    ensures n == |s| || !IsMarkerChar(s[n])
  {
    if s != [] && IsMarkerChar(s[0]) then 1 + MarkerRun(s[1..]) else 0
  }

  /** `/^\d+[.)\s]/.test(t)`. */
  predicate IsStepLine(t: string) {
    var d := DigitRun(t);
    0 < d < |t| && IsMarkerChar(t[d])
  }

  /** `t.replace(/^\d+[.)\s]+/, '').trim()` for a line that passed the test. */
  function StepText(t: string): string
    requires IsStepLine(t)
  {
    var d := DigitRun(t);
    Trim(t[d + MarkerRun(t[d..])..])
  }

  /**
   A step as it is kept: non-empty, with no whitespace at either end, and not
   beginning with `.` or `)` (those would have been stripped with the number).
   */
  predicate IsCleanStep(s: string) {
    s != [] && !IsMarkerChar(s[0]) && !IsSpace(s[|s| - 1])
  }

  /** What the loop body makes of one line, before the section flag is consulted. */
  datatype LineKind = Trigger | Numbered(step: string) | Plain

  /** The loop body's decision on one raw line: trim it, test the keywords, then the number pattern. */
  function Classify(line: string): (k: LineKind)
    ensures k.Numbered? ==> IsCleanStep(k.step)
  {
    var t := Trim(line);
    if IsTrigger(t) then Trigger
    else if IsStepLine(t) && StepText(t) != [] then StepTextClean(t); Numbered(StepText(t))
    else Plain
  }

  /** The classification of every line, in order. */
  function Kinds(lines: seq<string>): (r: seq<LineKind>)
    ensures |r| == |lines|
    ensures forall j :: 0 <= j < |lines| ==> r[j] == Classify(lines[j])
  {
    seq(|lines|, j requires 0 <= j < |lines| => Classify(lines[j]))
  }

  /**
   The steps the scan collects from classified lines when it starts with the
   section flag `inSection`, before truncation: a trigger sets the flag, and a
   numbered line counts only while the flag is set.
   */
  function Scan(kinds: seq<LineKind>, inSection: bool): (r: seq<string>)
    ensures |r| <= |kinds|
    ensures forall k :: 0 <= k < |r| ==> Numbered(r[k]) in kinds
  {
    if kinds == [] then []
    else
      match kinds[0]
      case Trigger => Scan(kinds[1..], true)
      case Numbered(step) => if inSection then [step] + Scan(kinds[1..], inSection) else Scan(kinds[1..], inSection)
      case Plain => Scan(kinds[1..], inSection)
  }

  /** All steps collected from the answer's lines, before truncation. */
  function Collected(text: string): seq<string> {
    Scan(Kinds(Lines(text)), false)
  }

  /** `steps.slice(0, 5)` of what the scan of the answer collects. */
  function Steps(text: string): (r: seq<string>)
    ensures |r| <= MaxSteps
    ensures |r| <= |Collected(text)| && r == Collected(text)[..|r|]
    ensures |r| < MaxSteps ==> r == Collected(text)
    ensures forall k :: 0 <= k < |r| ==> IsCleanStep(r[k])
  {
    var all := Collected(text);
    CollectedAreClean(text);
    if |all| <= MaxSteps then all else all[..MaxSteps]
  }

  /** The extraction loop of `visualizeContent`. */
  method ExtractSteps(text: string) returns (validSteps: seq<string>)
    ensures validSteps == Steps(text)
  {
    var lines := Lines(text);
    ghost var kinds := Kinds(lines);
    var steps: seq<string> := [];
    var isPseudocodeSection := false;
    var i := 0;
    while i < |lines|
      invariant 0 <= i <= |lines|
      invariant steps + Scan(kinds[i..], isPseudocodeSection) == Scan(kinds, false)
    {
      var trimmedLine := Trim(lines[i]);
      ScanAt(kinds, i, isPseudocodeSection);
      ClassifyCases(lines[i]);
      if IsTrigger(trimmedLine) {
        isPseudocodeSection := true;
      } else if isPseudocodeSection && IsStepLine(trimmedLine) {
        var step := StepText(trimmedLine);
        if step != [] {
          ConcatAssoc(steps, [step], Scan(kinds[i + 1..], isPseudocodeSection));
          steps := steps + [step];
        }
      }
      i := i + 1;
    }
    assert kinds[i..] == [];
    assert steps + [] == steps;
    validSteps := if |steps| <= MaxSteps then steps else steps[..MaxSteps];
  }

  // ---------------------------------------------------------------------------
  // Lemmas

  /** A non-empty step never begins with a marker: the marker run was maximal and `trim()` only removes whitespace. */
  lemma StepTextClean(t: string)
    requires IsStepLine(t) && StepText(t) != []
    ensures IsCleanStep(StepText(t))
  {
    var d := DigitRun(t);
    var rest := t[d + MarkerRun(t[d..])..];
    assert rest != [];
    assert rest[0] == t[d..][MarkerRun(t[d..])];
    assert TrimStart(rest) == rest;
  }

  /** The three outcomes of `Classify`, each with the tests that lead to it. */
  lemma ClassifyCases(line: string)
    ensures IsTrigger(Trim(line)) ==> Classify(line) == Trigger
    ensures !IsTrigger(Trim(line)) && IsStepLine(Trim(line)) && StepText(Trim(line)) != [] ==>
      Classify(line) == Numbered(StepText(Trim(line)))
    ensures !IsTrigger(Trim(line)) && !(IsStepLine(Trim(line)) && StepText(Trim(line)) != []) ==>
      Classify(line) == Plain
  {
  }

  /** One step of the scan, read at position `i`. */
  lemma ScanAt(kinds: seq<LineKind>, i: nat, inSection: bool)
    requires i < |kinds|
    ensures Scan(kinds[i..], inSection) ==
      match kinds[i]
      case Trigger => Scan(kinds[i + 1..], true)
      case Numbered(step) => if inSection then [step] + Scan(kinds[i + 1..], inSection) else Scan(kinds[i + 1..], inSection)
      case Plain => Scan(kinds[i + 1..], inSection)
  {
    assert kinds[i..][0] == kinds[i];
    assert kinds[i..][1..] == kinds[i + 1..];
  }

  lemma ConcatAssoc<T>(x: seq<T>, y: seq<T>, z: seq<T>)
    ensures x + (y + z) == (x + y) + z
  {
  }

  lemma CollectedAreClean(text: string)
    ensures forall k :: 0 <= k < |Collected(text)| ==> IsCleanStep(Collected(text)[k])
  {
    var lines := Lines(text);
    var kinds := Kinds(lines);
    var all := Scan(kinds, false);
    forall k | 0 <= k < |all|
      ensures IsCleanStep(all[k])
    {
      assert Numbered(all[k]) in kinds;
      var j :| 0 <= j < |kinds| && kinds[j] == Numbered(all[k]);
      assert Classify(lines[j]) == Numbered(all[k]);
    }
  }

  /** The test `^\d+[.)\s]` succeeds exactly when some non-empty digit prefix is followed by a marker. */
  lemma StepLineMatchesPattern(t: string)
    ensures IsStepLine(t) <==> exists d :: 0 < d < |t| && AllDigits(t[..d]) && IsMarkerChar(t[d])
  {
    var n := DigitRun(t);
    if IsStepLine(t) {
      assert 0 < n < |t| && AllDigits(t[..n]) && IsMarkerChar(t[n]);
    }
    forall d | 0 < d < |t| && AllDigits(t[..d]) && IsMarkerChar(t[d])
      ensures IsStepLine(t)
    {
      DigitRunOf(t, d);
    }
  }

  /** Without a trigger, nothing is collected. */
  lemma {:induction false} ScanWithoutTrigger(kinds: seq<LineKind>)
    requires Trigger !in kinds
    ensures Scan(kinds, false) == []
  {
    if kinds != [] {
      assert kinds[0] in kinds;
      ScanWithoutTrigger(kinds[1..]);
    }
  }

  /** Scanning from the start equals scanning, with the section open, what follows the first trigger. */
  lemma {:induction false} ScanFromFirstTrigger(kinds: seq<LineKind>, k: nat)
    requires k < |kinds| && kinds[k] == Trigger
    requires Trigger !in kinds[..k]
    ensures Scan(kinds, false) == Scan(kinds[k + 1..], true)
  {
    if k > 0 {
      assert kinds[0] == kinds[..k][0];
      assert kinds[1..][..k - 1] == kinds[..k][1..];
      ScanFromFirstTrigger(kinds[1..], k - 1);
      assert kinds[1..][k..] == kinds[k + 1..];
    }
  }

  /** Once open, the section is never closed: the scan of `a + b` is the scan of `a` followed by the scan of `b`. */
  lemma {:induction false} OpenSectionConcat(a: seq<LineKind>, b: seq<LineKind>)
    ensures Scan(a + b, true) == Scan(a, true) + Scan(b, true)
  {
    if a == [] {
      assert a + b == b;
    } else {
      OpenSectionConcat(a[1..], b);
      assert (a + b)[0] == a[0];
      assert (a + b)[1..] == a[1..] + b;
      if a[0].Numbered? {
        ConcatAssoc([a[0].step], Scan(a[1..], true), Scan(b, true));
      }
    }
  }

  /** A trigger line is never itself a step, even when it is also numbered. */
  lemma TriggerLineIsNotAStep(line: string)
    requires IsTrigger(Trim(line))
    ensures Classify(line) == Trigger
  {
  }

  /** Classifying line by line commutes with dropping a prefix of the lines. */
  lemma KindsSuffix(lines: seq<string>, k: nat)
    requires k <= |lines|
    ensures Kinds(lines)[k..] == Kinds(lines[k..])
  {
  }

  /** Lines that are not trigger lines classify to anything but a trigger. */
  lemma KindsWithoutTrigger(lines: seq<string>)
    requires forall j :: 0 <= j < |lines| ==> !IsTrigger(Trim(lines[j]))
    ensures Trigger !in Kinds(lines)
  {
  }

  /** No line at or before the first trigger line contributes a step; the scan goes on from there with the section open. */
  lemma CollectedAfterFirstTrigger(text: string, k: nat)
    requires k < |Lines(text)| && IsTrigger(Trim(Lines(text)[k]))
    requires forall j :: 0 <= j < k ==> !IsTrigger(Trim(Lines(text)[j]))
    ensures Collected(text) == Scan(Kinds(Lines(text)[k + 1..]), true)
  {
    ScanAfterFirstTriggerLine(Lines(text), k);
  }

  /** `CollectedAfterFirstTrigger` for any list of lines. */
  lemma ScanAfterFirstTriggerLine(lines: seq<string>, k: nat)
    requires k < |lines| && IsTrigger(Trim(lines[k]))
    requires forall j :: 0 <= j < k ==> !IsTrigger(Trim(lines[j]))
    ensures Scan(Kinds(lines), false) == Scan(Kinds(lines[k + 1..]), true)
  {
    var kinds := Kinds(lines);
    KindsWithoutTrigger(lines[..k]);
    assert kinds[..k] == Kinds(lines[..k]);
    TriggerLineIsNotAStep(lines[k]);
    ScanFromFirstTrigger(kinds, k);
    KindsSuffix(lines, k + 1);
  }

  /** A line of an answer that mentions neither keyword is not a trigger line. */
  lemma UnmentionedKeywordNoTrigger(text: string, line: string)
    requires Contains(text, line)
    requires !Contains(ToLower(text), PseudocodeKeyword)
    requires !Contains(ToLower(text), AlgorithmStepsKeyword)
    ensures !IsTrigger(Trim(line))
  {
    var t := Trim(line);
    TrimOccurs(line);
    ContainsTrans(t, line, text);
    LowerContains(text, t);
    if Contains(ToLower(t), PseudocodeKeyword) {
      ContainsTrans(PseudocodeKeyword, ToLower(t), ToLower(text));
    }
    if Contains(ToLower(t), AlgorithmStepsKeyword) {
      ContainsTrans(AlgorithmStepsKeyword, ToLower(t), ToLower(text));
    }
  }

  /** An answer that never mentions either keyword, in any letter case, yields no steps. */
  lemma NoKeywordNoSteps(text: string)
    requires !Contains(ToLower(text), PseudocodeKeyword)
    requires !Contains(ToLower(text), AlgorithmStepsKeyword)
    ensures Steps(text) == []
  {
    var lines := Lines(text);
    LinesOccurInText(text);
    forall j | 0 <= j < |lines|
      ensures !IsTrigger(Trim(lines[j]))
    {
      UnmentionedKeywordNoTrigger(text, lines[j]);
    }
    KindsWithoutTrigger(lines);
    ScanWithoutTrigger(Kinds(lines));
  }

  /**
   A line made of a number, a run of markers and a clean step is a step line, and
   the step read from it is exactly that step.
   */
  lemma NumberedLineStep(n: nat, marker: string, step: string)
    requires marker != [] && AllMarkers(marker)
    requires IsCleanStep(step)
    ensures IsStepLine(DecimalString(n) + marker + step)
    ensures StepText(DecimalString(n) + marker + step) == step
  {
    var num := DecimalString(n);
    var t := num + marker + step;
    assert t[..|num|] == num;
    assert t[|num|] == marker[0];
    assert !IsDigit(marker[0]);
    DigitRunOf(t, |num|);
    var rest := t[|num|..];
    assert rest == marker + step;
    assert rest[..|marker|] == marker;
    MarkerRunOf(rest, |marker|);
    assert rest[|marker|..] == step;
    assert t[|num| + |marker|..] == step;
    TrimClean(step);
  }

  lemma {:induction false} DigitRunOf(s: string, d: nat)
    requires d < |s| && AllDigits(s[..d]) && !IsDigit(s[d])
    ensures DigitRun(s) == d
  {
    if d > 0 {
      assert s[..d][0] == s[0];
      assert s[1..][..d - 1] == s[..d][1..];
      DigitRunOf(s[1..], d - 1);
    }
  }

  lemma {:induction false} MarkerRunOf(s: string, m: nat)
    requires m < |s| && AllMarkers(s[..m]) && !IsMarkerChar(s[m])
    ensures MarkerRun(s) == m
  {
    if m > 0 {
      assert s[..m][0] == s[0];
      assert s[1..][..m - 1] == s[..m][1..];
      MarkerRunOf(s[1..], m - 1);
    }
  }

  lemma TrimClean(s: string)
    requires s != [] && !IsSpace(s[0]) && !IsSpace(s[|s| - 1])
    ensures Trim(s) == s
  {
    assert TrimStart(s) == s;
  }

  /** The line `n) step` that the prompt asks the model to write. */
  function NumberedLine(n: nat, step: string): string {
    DecimalString(n) + ") " + step
  }

  /** A clean step that does not begin with `.` or `)` is read back from its numbered line. */
  lemma NumberedLineKind(n: nat, step: string)
    requires IsCleanStep(step)
    requires !IsTrigger(NumberedLine(n, step))
    ensures Classify(NumberedLine(n, step)) == Numbered(step)
  {
    NumberedLineTrimmed(n, step);
    NumberedLineParsed(n, step);
  }

  lemma NumberedLineTrimmed(n: nat, step: string)
    requires IsCleanStep(step)
    ensures Trim(NumberedLine(n, step)) == NumberedLine(n, step)
  {
    var line := NumberedLine(n, step);
    assert line[|line| - 1] == step[|step| - 1];
    assert !IsSpace(line[0]);
    TrimClean(line);
  }

  lemma NumberedLineParsed(n: nat, step: string)
    requires IsCleanStep(step)
    ensures IsStepLine(NumberedLine(n, step)) && StepText(NumberedLine(n, step)) == step
  {
    assert AllMarkers(") ");
    NumberedLineStep(n, ") ", step);
  }

  /** The lines `first) steps[0]`, `first+1) steps[1]`, ... */
  function NumberedLines(steps: seq<string>, first: nat): (r: seq<string>)
    ensures |r| == |steps|
  {
    seq(|steps|, k requires 0 <= k < |steps| => NumberedLine(first + k, steps[k]))
  }

  /** A run of numbered lines classifies to the run of their steps. */
  lemma {:induction false} NumberedKinds(steps: seq<string>, first: nat)
    requires forall k :: 0 <= k < |steps| ==> IsCleanStep(steps[k])
    requires forall k :: 0 <= k < |steps| ==> !IsTrigger(NumberedLine(first + k, steps[k]))
    ensures Kinds(NumberedLines(steps, first)) == NumberedRun(steps)
  {
    var kinds := Kinds(NumberedLines(steps, first));
    var run := NumberedRun(steps);
    forall k | 0 <= k < |steps|
      ensures kinds[k] == run[k]
    {
      NumberedKindAt(steps, first, k);
    }
    assert kinds == run;
  }

  /** The `k`-th of a run of numbered lines classifies as the `k`-th step. */
  lemma NumberedKindAt(steps: seq<string>, first: nat, k: nat)
    requires k < |steps| && IsCleanStep(steps[k]) && !IsTrigger(NumberedLine(first + k, steps[k]))
    ensures Kinds(NumberedLines(steps, first))[k] == Numbered(steps[k])
  {
    var lines := NumberedLines(steps, first);
    assert lines[k] == NumberedLine(first + k, steps[k]);
    NumberedLineKind(first + k, steps[k]);
  }

  /** The classification of a run of numbered lines. */
  function NumberedRun(steps: seq<string>): (r: seq<LineKind>)
    ensures |r| == |steps|
  {
    seq(|steps|, k requires 0 <= k < |steps| => Numbered(steps[k]))
  }

  /** With the section open, a run of numbered lines yields exactly their steps. */
  lemma {:induction false} ScanNumbered(steps: seq<string>)
    ensures Scan(NumberedRun(steps), true) == steps
  {
    if steps != [] {
      ScanNumbered(steps[1..]);
      assert NumberedRun(steps)[1..] == NumberedRun(steps[1..]);
      assert [steps[0]] + steps[1..] == steps;
    }
  }

  /**
   The answer the prompt asks for: a trigger line, then the lines `1) s1`, `2) s2`, ...
   holding clean steps, none of which mentions a keyword. Its steps are read back
   in order.
   */
  lemma NumberedSectionSteps(trigger: string, steps: seq<string>)
    requires IsTrigger(Trim(trigger))
    requires forall k :: 0 <= k < |steps| ==> IsCleanStep(steps[k])
    requires forall k :: 0 <= k < |steps| ==> !IsTrigger(NumberedLine(1 + k, steps[k]))
    ensures Scan(Kinds([trigger] + NumberedLines(steps, 1)), false) == steps
  {
    var lines := [trigger] + NumberedLines(steps, 1);
    NumberedKinds(steps, 1);
    KindsSuffix(lines, 1);
    assert lines[1..] == NumberedLines(steps, 1);
    assert Kinds(lines)[0] == Trigger;
    ScanNumbered(steps);
  }

  /** A numbered line holds no line break when its step holds none: the number is all digits. */
  lemma NumberedLineHasNoBreak(n: nat, step: string)
    requires '\n' !in step
    ensures '\n' !in NumberedLine(n, step)
  {
    var num := DecimalString(n);
    var line := NumberedLine(n, step);
    forall i | 0 <= i < |line|
      ensures line[i] != '\n'
    {
      if i < |num| {
        assert line[i] == num[i] && IsDigit(num[i]);
      } else if i >= |num| + 2 {
        assert line[i] == step[i - |num| - 2];
      }
    }
  }

  /**
   An answer written in the requested format — a trigger line, then at most
   five lines `1) s1`, `2) s2`, ... holding clean one-line steps, none of which
   mentions a keyword — yields exactly its steps, in order.
   */
  lemma AnswerSteps(trigger: string, steps: seq<string>)
    requires IsTrigger(Trim(trigger)) && '\n' !in trigger
    requires |steps| <= MaxSteps
    requires forall k :: 0 <= k < |steps| ==> IsCleanStep(steps[k]) && '\n' !in steps[k]
    requires forall k :: 0 <= k < |steps| ==> !IsTrigger(NumberedLine(1 + k, steps[k]))
    ensures Steps(Join([trigger] + NumberedLines(steps, 1))) == steps
  {
    var numbered := NumberedLines(steps, 1);
    var lines := [trigger] + numbered;
    NumberedLinesHaveNoBreak(steps, 1);
    assert forall j :: 0 < j < |lines| ==> lines[j] == numbered[j - 1];
    LinesOfJoin(lines);
    NumberedSectionSteps(trigger, steps);
  }

  /** Numbered lines of one-line steps hold no line break. */
  lemma NumberedLinesHaveNoBreak(steps: seq<string>, first: nat)
    requires forall k :: 0 <= k < |steps| ==> '\n' !in steps[k]
    ensures forall k :: 0 <= k < |steps| ==> '\n' !in NumberedLines(steps, first)[k]
  {
    forall k | 0 <= k < |steps|
      ensures '\n' !in NumberedLines(steps, first)[k]
    {
      NumberedLineHasNoBreak(first + k, steps[k]);
    }
  }
}
