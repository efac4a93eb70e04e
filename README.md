# Code-Canvas core in Dafny

Code-Canvas is a two-pane web application. The user asks a coding question in
a chat pane. The question goes to a language model through a fixed teaching
prompt, and the model's answer is logged in the chat. The latest assistant
answer is also projected onto a whiteboard canvas: its pseudocode steps become
a heading and up to five numbered text rows.

This project models the four parts that carry that logic:

- **Step extractor** (`step_extractor.dfy`, module `StepExtractor`)
  - Splits an answer into lines and trims each one.
  - A line mentioning "pseudocode" or "algorithm steps", in any letter case, opens the steps section.
  - From then on, every other line matching `^\d+[.)\s]` has its number and markers stripped and the rest trimmed, and gives a step when something is left. A numbered line that mentions a keyword counts as a trigger line, not a step.
  - At most five steps are kept.
  - Specified by the pure functions `Classify`, `Scan`, `Collected` and `Steps`.
  - The loop itself is the method `ExtractSteps`.
- **Canvas projector** (`canvas.dfy`, module `CanvasProjector`)
  - The whiteboard editor is a class `Surface` whose shape list and camera are updated in place.
  - The component is a class `Canvas`. It holds the readiness flag, the latest message and the debounce timer.
  - `setTimeout`/`clearTimeout` become a generation counter plus the pending timer: each run of the effect cancels the previous timer by bumping the generation.
  - When the live timer fires, the page is cleared and, when there are steps, the heading and one row per step are drawn and the camera is reset.
- **Prompt composer** (`prompt.dfy`, module `PromptComposer`)
  - The teaching template is a `Template` value: the literal text before the language, between the language and the question, and after the question.
  - `Compose` substitutes the question and language. `GenerateResponse` returns the model's reply, or a fixed apology when the call fails.
  - The language-model SDK round trip is the parameter `send`, a function from prompt to `Replied(text)` or `Failed`.
- **Chat state** (`app.dfy`, module `App`)
  - The class `ChatSession` holds the append-only message log, the loading flag and the selected language.
  - The selector `LatestAssistantMessage` feeds the canvas.

`text.dfy` (module `Text`) models the JavaScript string operations these rely
on:
- `split('\n')`, with `Join` (joining with `\n`) as its proof partner only: the source never joins lines;
- `trim()`, with the ECMAScript whitespace set that `\s` also uses;
- `toLowerCase()` for ASCII letters;
- `includes`;
- the decimal form of a number in a template literal.

`option.dfy` holds the `Option` type used for optional values (`undefined`).

## Model

| member | source | states |
|---|---|---|
| StepExtractor.ExtractSteps | src/components/Canvas.tsx:50-69 | The extraction loop returns exactly `Steps(text)`: the first five steps collected by the line-by-line scan, in order. |
| StepExtractor.Steps | src/components/Canvas.tsx:69 | At most five steps. They are the prefix of all collected steps, all of them when fewer than five. Each is clean: non-empty, not beginning with a marker, not ending in whitespace. |
| StepExtractor.Classify | src/components/Canvas.tsx:55-65 | A line is classified after trimming: a trigger first, otherwise a numbered step with a non-empty clean text, otherwise nothing. |
| StepExtractor.Scan | src/components/Canvas.tsx:54-67 | The collected steps are no more than the lines, and each comes from a numbered line. |
| StepExtractor.StepTextClean | src/components/Canvas.tsx:63-65 | The text left after stripping a step number, its maximal marker run and surrounding whitespace is clean whenever it is non-empty. |
| StepExtractor.CollectedAreClean | src/components/Canvas.tsx:63-65 | Every collected step is clean. |
| StepExtractor.StepLineMatchesPattern | src/components/Canvas.tsx:63 | A line passes the step test exactly when a non-empty run of digits is followed by `.`, `)` or whitespace (both directions). |
| StepExtractor.TriggerLineIsNotAStep | src/components/Canvas.tsx:57-61 | A line that mentions a keyword opens the section and is never itself a step, even when numbered. |
| StepExtractor.ScanWithoutTrigger | src/components/Canvas.tsx:52-63 | Without a trigger line nothing is collected. |
| StepExtractor.ScanFromFirstTrigger | src/components/Canvas.tsx:52-63 | Scanning from the start equals scanning, with the section open, what follows the first trigger. |
| StepExtractor.CollectedAfterFirstTrigger | src/components/Canvas.tsx:50-67 | No line up to the first trigger line contributes a step. The steps are those of the lines after it, scanned with the section open. |
| StepExtractor.OpenSectionConcat | src/components/Canvas.tsx:59 | Once opened the section is never closed: with it open, the scan of two blocks of lines is the scan of each, concatenated. |
| StepExtractor.UnmentionedKeywordNoTrigger | src/components/Canvas.tsx:55-58 | A line of an answer that mentions neither keyword, in any letter case, is not a trigger line. |
| StepExtractor.NoKeywordNoSteps | src/components/Canvas.tsx:50-69 | An answer that mentions neither keyword yields no steps. |
| StepExtractor.NumberedLineStep | src/components/Canvas.tsx:63-64 | A line made of a number, a run of markers and a clean step passes the step test, and the step read from it is exactly that step. |
| StepExtractor.DigitRunOf | src/components/Canvas.tsx:63 | The leading digit run ends at the first non-digit. |
| StepExtractor.MarkerRunOf | src/components/Canvas.tsx:64 | The stripped marker run `[.)\s]+` ends at the first non-marker. |
| StepExtractor.NumberedLineKind | src/components/Canvas.tsx:55-65 | A clean step written as `n) step` that mentions no keyword classifies as that step. |
| StepExtractor.NumberedKinds | src/components/Canvas.tsx:54-65 | A run of numbered lines classifies to the run of their steps. |
| StepExtractor.ScanNumbered | src/components/Canvas.tsx:63-65 | With the section open, a run of numbered lines yields exactly their steps, in order. |
| StepExtractor.NumberedSectionSteps | src/components/Canvas.tsx:54-67 | The lines of an answer in the requested format (a trigger line, then `1) s1`, `2) s2`, ...) scan to exactly their steps, in order. |
| StepExtractor.NumberedLineHasNoBreak | src/components/Canvas.tsx:50 | A numbered line `n) step` holds no line break when its step holds none. |
| StepExtractor.AnswerSteps | src/components/Canvas.tsx:50-69 | The text of an answer in the requested format (a trigger line, then at most five lines `1) s1`, `2) s2`, ... joined with line breaks) yields exactly its steps, in order. |
| StepExtractor.NumberedLinesHaveNoBreak | src/components/Canvas.tsx:50 | Numbered lines of one-line steps hold no line break, so splitting their join gives them back. |
| StepExtractor.Kinds | src/components/Canvas.tsx:54-65 | Definition: each line classified on its own, one kind per line. Its properties are `NumberedKinds` and `NumberedKindAt`. |
| StepExtractor.NumberedLine | src/lib/gemini.ts:28-32 | Definition of an answer line in the requested format `n) step`. Its properties are `NumberedLineKind` and `NumberedLineHasNoBreak`. |
| StepExtractor.IsTrigger | src/components/Canvas.tsx:57-58 | Definition: the lower-cased line contains `pseudocode` or `algorithm steps`. Its properties are `TriggerLineIsNotAStep` and `UnmentionedKeywordNoTrigger`. |
| StepExtractor.IsStepLine | src/components/Canvas.tsx:63 | Definition of the step test `^\d+[.)\s]`. Its property is `StepLineMatchesPattern`. |
| StepExtractor.StepText | src/components/Canvas.tsx:64 | Definition: strip the digit run and the maximal marker run, then trim. Its properties are `StepTextClean` and `NumberedLineStep`. |
| StepExtractor.Collected | src/components/Canvas.tsx:50-67 | Definition: scan the trimmed lines of the text with the section closed. Its properties are `CollectedAreClean` and `CollectedAfterFirstTrigger`. |
| CanvasProjector.Surface.constructor | src/components/Canvas.tsx:138-141 | A fresh editor has no shapes and the home camera. |
| CanvasProjector.Surface.DeleteAll | src/components/Canvas.tsx:47-48 | Selecting all and deleting leaves no shapes. The camera and the identifier supply are unchanged. |
| CanvasProjector.Surface.CreateShape | src/components/Canvas.tsx:75-87 | A new shape is appended on top under an identifier no existing shape has. What the page shows grows by exactly its properties. |
| CanvasProjector.Canvas.constructor | src/components/Canvas.tsx:11-14 | The editor is not ready, there is no message and no timer, and the page is empty. |
| CanvasProjector.Canvas.RunEffect | src/components/Canvas.tsx:39-40 | A run of the effect cancels the previous timer. It arms a new one, carrying the message, exactly when a non-empty message is present and the editor is ready. |
| CanvasProjector.Canvas.HandleMount | src/components/Canvas.tsx:16-18 | Mounting marks the editor ready. The effect runs again only if readiness changed. |
| CanvasProjector.Canvas.SetLatestMessage | src/components/Canvas.tsx:119 | A new message prop reruns the effect only when it differs from the old one. |
| CanvasProjector.Canvas.TimerFired | src/components/Canvas.tsx:117-118 | A cancelled timer changes nothing. The live one clears itself and leaves the page showing exactly the layout of the latest message's steps, with the camera reset when there are steps. |
| CanvasProjector.Canvas.VisualizeContent | src/components/Canvas.tsx:42-110 | A projection leaves exactly `Layout(Steps(message))` on the page. The camera is reset when there are steps and untouched when there are none. |
| CanvasProjector.Canvas.DrawSteps | src/components/Canvas.tsx:75-110 | Drawing on an empty page leaves the heading followed by one row per step, in order, and the camera at the origin with zoom 1. |
| CanvasProjector.StepLabel | src/components/Canvas.tsx:96 | Definition of the label `${index + 1}. ${step}`. Its properties are `LabelReadsBack` and `OneHeading`. |
| CanvasProjector.Layout | src/components/Canvas.tsx:75-103 | Definition of what a projection draws. Its shape is stated by `LayoutShape`, `RowsDescend` and `LayoutBounded`. |
| CanvasProjector.Surface.SetCamera | src/components/Canvas.tsx:108 | Setting the camera changes only the camera: the shapes and the identifier supply are unchanged. |
| CanvasProjector.LayoutShape | src/components/Canvas.tsx:70-103 | Nothing is drawn without steps. Otherwise the heading comes first and step `i` is drawn at x 20, y `90 + 40*i`, labelled `${i+1}. ${step}`. |
| CanvasProjector.RowsDescend | src/components/Canvas.tsx:78-94 | Drawn shapes go strictly downwards, the heading above all rows. |
| CanvasProjector.RowHeight | src/components/Canvas.tsx:75-94 | The heading stands at y 50 and row `j` at y `90 + 40 * (j - 1)`. |
| CanvasProjector.OneHeading | src/components/Canvas.tsx:81-96 | Only the first shape carries the heading text: every step label starts with a digit. |
| CanvasProjector.LabelReadsBack | src/components/Canvas.tsx:63-64 | A drawn label `${n}. ${step}` is itself a step line, and the step read from it is that step. |
| CanvasProjector.DrawnLabelsReadBack | src/components/Canvas.tsx:89-103 | Every label drawn for a message reads back as the step it was drawn for. |
| CanvasProjector.RowsReadBack | src/components/Canvas.tsx:89-103 | Every row drawn for a list of clean steps reads back, under the extractor's rule, as the step it was drawn for. |
| CanvasProjector.RowReadsBack | src/components/Canvas.tsx:89-96 | The row drawn at position `j` for a clean step reads back as that step. |
| StepExtractor.NumberedKindAt | src/components/Canvas.tsx:55-65 | The `k`-th line of a run of numbered lines classifies as the `k`-th step. |
| CanvasProjector.LayoutBounded | src/components/Canvas.tsx:69 | At most the heading and five rows are drawn. |
| CanvasProjector.NewerMessageWins | src/components/Canvas.tsx:117-118 | When a second, different message arrives before the first timer fires, the first timer draws nothing and the second draws the newer message's layout. |
| CanvasProjector.ProjectOnNewCanvas | src/components/Canvas.tsx:39-44 | On a mounted canvas, once the timer fires, the page shows the layout of the message's steps. An absent or empty message draws nothing. |
| CanvasProjector.ReprojectSameMessage | src/components/Canvas.tsx:47-48 | Projecting the same message twice leaves the same shapes as projecting it once. |
| CanvasProjector.UnreadyCanvasStaysEmpty | src/components/Canvas.tsx:40 | Before the editor is ready no timer is armed, so the page stays empty whatever fires. |
| PromptComposer.Render | src/lib/gemini.ts:22-57 | Definition: the template literal with the language and the question substituted. Its round trip is `QuestionRoundTrip` and `QuestionOfRenders`. |
| PromptComposer.Compose | src/lib/gemini.ts:22-57 | Definition: `Render` on the template of `generateResponse`. Its properties are `ComposedQuestionAndLanguage` and `RenderedStepMarkers` with `PromptTemplateShape`. |
| PromptComposer.ResolveLanguage | src/lib/gemini.ts:11 | An absent language means Python; a given one is used as is. |
| PromptComposer.GenerateResponse | src/lib/gemini.ts:59-64 | A failed model call gives the fixed apology; a successful one gives the reply text for the composed prompt. |
| PromptComposer.ReplyAnswersQuestion | src/lib/gemini.ts:22-64 | Every reply is the apology, or the model's reply to a prompt from which the question reads back and which names the language in `Implementation (in <language>):`. |
| PromptComposer.PromptTemplateShape | src/lib/gemini.ts:22-57 | The template ends its head with `Implementation (in `, opens its middle with `):` and closes it with `Question: `. The head holds the five slots right after the pseudocode heading. |
| PromptComposer.QuestionRoundTrip | src/lib/gemini.ts:48 | Reading the question back from a rendered prompt gives the question. |
| PromptComposer.QuestionOfRenders | src/lib/gemini.ts:48 | Whatever reads back as a question is the prompt rendered from it. |
| PromptComposer.RenderInjective | src/lib/gemini.ts:22-57 | Different questions give different prompts in the same language. |
| PromptComposer.QuestionAfterLabel | src/lib/gemini.ts:48-57 | The question appears verbatim right after `Question: `, and only the template's tail follows it. |
| PromptComposer.LanguageInImplementation | src/lib/gemini.ts:34 | The language appears verbatim in `Implementation (in <language>):`. |
| PromptComposer.SubstitutionBetween | src/lib/gemini.ts:34 | A value substituted between a text ending in one phrase and a text beginning with another reads phrase, value, phrase at that position. |
| PromptComposer.ComposedQuestionAndLanguage | src/lib/gemini.ts:22-57 | The actual prompt contains `Question: <question>` and `Implementation (in <language>):`, and the question reads back from it. |
| PromptComposer.StepMarkersInOrder | src/lib/gemini.ts:27-34 | In any text with the slot block after the pseudocode heading, the markers `1)` to `5)` stand in increasing order, after the word `Pseudocode` and before `Implementation (in `. |
| PromptComposer.MarkerInSlots | src/lib/gemini.ts:28-32 | Marker `k)` stands three characters into slot `k` of every slot block that includes it. |
| PromptComposer.MarkersPresent | src/lib/gemini.ts:28-32 | Every marker stands at its position in any text holding the slot block. |
| PromptComposer.MarkersIncrease | src/lib/gemini.ts:28-32 | Marker positions increase and all lie inside the slot block. |
| PromptComposer.SlotsGrow | src/lib/gemini.ts:28-32 | Each slot is longer than its marker and indentation. |
| PromptComposer.PseudocodeInHeading | src/lib/gemini.ts:27 | The word `Pseudocode` stands three characters into the pseudocode heading. |
| PromptComposer.RenderedStepMarkers | src/lib/gemini.ts:22-57 | In a prompt rendered from a template whose head holds the five slots after the pseudocode heading, which is the template of `generateResponse` by `PromptTemplateShape`, the markers `1)` to `5)` stand at increasing positions, all before `Implementation (in `. |
| App.ChatSession.constructor | src/App.tsx:43-47 | A new session has an empty log, is not loading, and has Python selected. |
| App.ChatSession.SetLanguage | src/App.tsx:99 | Picking a language selects it. |
| App.ChatSession.BeginSend | src/App.tsx:57-61 | Sending appends the user's message to the log and shows the spinner. |
| App.ChatSession.FinishSend | src/App.tsx:62-79 | The reply, or the fixed error text when the call is rejected, is appended as an assistant message, and the spinner is hidden. |
| App.ChatSession.HandleSendMessage | src/App.tsx:56-80 | A send appends exactly the user message and the assistant reply for the selected language, in that order, and ends not loading. |
| App.AssistantContents | src/App.tsx:83 | Definition of the role filter, in log order. Its properties are `AssistantContentsInOrder`, `AssistantContentsAppend` and `AssistantContentsLast`. |
| App.AssistantContentsInOrder | src/App.tsx:83 | The role filter keeps exactly the contents of the assistant messages, in log order: each result is read off an assistant message at strictly increasing positions, and every assistant message is among them. |
| App.LanguagesOffered | src/App.tsx:8-9 | Python comes first, every language is offered, and the offered names are distinct. |
| App.AssistantContentsAppend | src/App.tsx:83 | Filtering distributes over appending to the log. |
| App.LatestAfterUser | src/App.tsx:82-85 | A user message does not change the latest assistant message. |
| App.LatestAfterAssistant | src/App.tsx:82-85 | An appended assistant message becomes the latest. |
| App.AssistantContentsLast | src/App.tsx:83-84 | The filter is empty exactly when no message is from the assistant. Otherwise its last element is the content of an assistant message that no assistant message follows. |
| App.LatestAssistantMessage | src/App.tsx:82-85 | The selector is absent exactly when no message is from the assistant. Otherwise it is the content of the assistant message that no other assistant message follows. |
| App.FirstExchange | src/App.tsx:56-85 | A first send in a new session logs the question and the Python reply, and the selector then yields that reply. |
| App.AskAndDraw | src/App.tsx:82-106 | A question sent in a new session ends, once the canvas timer fires, with the canvas showing the layout of the steps of the reply. |
| Text.Lines | src/components/Canvas.tsx:50 | `split('\n')` gives at least one piece. Its properties are `LinesHaveNoNewline`, `LinesOccurInText` and the round trips `JoinLines` and `LinesOfJoin`. |
| Text.JoinLines | src/components/Canvas.tsx:50 | Splitting on `\n` and joining with `\n` gives back the text. |
| Text.LinesOfJoin | src/components/Canvas.tsx:50 | Joining newline-free pieces and splitting again gives back the pieces. |
| Text.LinesHaveNoNewline | src/components/Canvas.tsx:50 | No piece of a split contains the separator. |
| Text.LinesOccurInText | src/components/Canvas.tsx:50 | Every piece of a split occurs in the text. |
| Text.Contains | src/components/Canvas.tsx:57-58 | Definition of `includes`: the text holds the pattern as an infix. Its properties are `ContainsTrans` and `LowerContains`. |
| Text.ToLower | src/components/Canvas.tsx:57-58 | Definition of `toLowerCase()` on ASCII letters. Its property is `LowerContains`. |
| Text.DecimalString | src/components/Canvas.tsx:96 | The decimal form of a number is a non-empty run of digits. Its round trip is `DecimalRoundTrip`. |
| Text.Trim | src/components/Canvas.tsx:55 | `trim()` keeps an infix with no whitespace at either end, and removes only whitespace. |
| Text.TrimOccurs | src/components/Canvas.tsx:55 | What `trim()` keeps occurs in the original. |
| Text.LowerContains | src/components/Canvas.tsx:57-58 | Lower-casing preserves containment. |
| Text.ContainsTrans | src/components/Canvas.tsx:57-58 | Containment is transitive. |
| Text.StartsWithSlice | src/components/Canvas.tsx:57-58 | The character-by-character prefix test agrees with comparing the prefix slice (both directions). |
| Text.DecimalRoundTrip | src/components/Canvas.tsx:96 | The decimal form of a number reads back as that number. |

## Left out

- The chat pane's rendering, the input box and the copy button (`src/components/Chat.tsx` and `src/components/CopyButton.tsx`) are not part of this model; only the state they are given is.
- The fullscreen button, the laser tool chosen on mount, page layout and styling: presentation only.
- Font (`draw`) and text alignment (`start`) of the shapes: the same for every shape, so `TextShape` leaves them out.
- The text shapes' type is always `text` and their identifiers come from `createShapeId()`. Identifiers are modelled as a counter that yields fresh values, without their string form.
- The 100 ms timer that zooms to fit and then sets the camera. The camera is set at the end of the projection directly. `zoomToFit` is overwritten by the camera reset that follows it, so it is not modelled.
- Real timers: neither the 300 ms debounce delay nor the 100 ms camera delay is modelled, and firing order is chosen by the caller of `TimerFired`. A timer is cancelled by bumping a generation counter rather than by `clearTimeout`.
- React's re-rendering: `SetLatestMessage` and `HandleMount` run the effect when its dependencies change, which is when React would.
- Console logging (`console.warn`, `console.error`) and the `try`/`catch` in the projector: editor calls are taken not to throw.
- The model SDK (model name, token limit, temperature, chat history, the API key) is abstracted by the `send` parameter. Any exception becomes `Failed`.
- `generateResponse` never rejects, because its body is wrapped in `try`/`catch`. So the `catch` branch of `handleSendMessage` is not reachable with the code as written. It is still modelled, by `FinishSend(Rejected)`.
- The scroll-to-bottom effect in `src/App.tsx`: presentation only.
- `App.ChatSession.HandleSendMessage`: models a send that completes before the next begins. Interleavings of two concurrent sends are not modelled.
- `Text.ToLower`: lower-cases ASCII letters only. That is enough for the ASCII keywords "pseudocode" and "algorithm steps"; other characters, and Unicode special-casing rules, are left as they are.
- The template's source lines end in CR LF. A template literal normalises line terminators to `\n`, so the model's template text uses `\n` only.
- `PromptComposer.RenderedStepMarkers`: stated for any template whose head holds the five-slot block after the pseudocode heading. The template of `generateResponse` is one, by `PromptTemplateShape`, but the lemma is not instantiated on it, to keep the long template text out of the proof.
