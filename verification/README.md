# AI writing assistant — text pipeline model

A Dafny model of the logic in a small React writing assistant. The user types a
prompt and picks a writing type (email, blog, story, suggestion) and a tone
(formal, casual, professional, friendly). The application then:

- builds a prompt from fixed templates and sends it to a hosted language model;
- normalises the answer, so the caller always gets a non-empty string;
- optionally rewrites the user's own prompt through an "improvement"
  instruction, and strips chat-style chatter from the model's answer
  (the response sanitizer);
- rate-limits and de-duplicates sentence-completion suggestions;
- keeps a newest-first history of generated texts, and previews each entry in
  at most 103 characters.

The model is purely functional. The language model is an oracle
`string -> Outcome` (`Ok(text)` or `Fail`). Time, generated ids and the user's
confirmation answer are parameters.

Modules, following the program's files:

| module | file | what it holds |
|---|---|---|
| `Basics` | basics.dfy | `Option`, an order-preserving `Filter` with its lemmas |
| `Text` | text.dfy | the JavaScript string built-ins the program uses: `trim`, `split('\n')`, `join('\n')`, `toLowerCase`, `includes`, `startsWith` |
| `Types` | types.dfy | `WritingType`, `Tone` and the literals they stand for |
| `Ai` | ai.dfy | system prompts, full-prompt composition, result normalisation, one generation call |
| `Sanitizer` | sanitizer.dfy | the four-step response sanitizer of the improve-prompt flow |
| `Editor` | editor.dfy | the improvement instruction template and the improve-prompt flow |
| `Suggestions` | suggestions.dfy | the suggestion coordinator as a state machine, with a trace semantics and its invariant |
| `App` | app.dfy | history list operations and the generate flow |
| `History` | history.dfy | the 100-character preview and entry selection |

All prompt literals are copied character for character, including the
indentation inside the system prompts. The two fixed messages begin with
U+26A0 U+FE0F (the warning sign emoji).

`SYSTEM_PROMPTS` has an entry for every writing type. In the model this holds
by construction: `Ai.SystemPrompt` is a total function over the four-constructor
`WritingType`.

## Model

| member | source | states |
|---|---|---|
| Ai.SystemPromptTone | src/services/ai.ts:15-29 | Two tones give the same system prompt for a type exactly when the tones are equal or the type is suggestion. Email, blog and story interpolate the tone; suggestion ignores it. |
| Ai.SystemPromptsDistinct | src/services/ai.ts:14-30 | Different writing types never share a system prompt, whatever the tones. |
| Ai.FullPromptRoundTrip | src/services/ai.ts:38-44 | The full prompt is the system prompt, a blank line, then `Write about: "` + content + `"`. The content reads back out of it, and only a prompt built from that content reads back to it. |
| Ai.Normalize | src/services/ai.ts:50-54 | On `Ok(t)` the result is `trim(t)` when that is non-empty, else the no-content message. On failure it is the failure message. The result is never empty and is already trimmed. |
| Ai.GenerateContent | src/services/ai.ts:32-55 | One call sends exactly one prompt, the composed full prompt, with no retry. It resolves to the normalised outcome, which is never empty. |
| Ai.FailureIndistinguishable | src/services/ai.ts:50-53 | Model output equal to the failure message cannot be told apart from a failure. |
| Ai.LowerMessages | src/services/ai.ts:50-53 | The lower-case forms of the two fixed messages, word by word. |
| Ai.MessagesAreTrimmed | src/services/ai.ts:50-53 | Trimming leaves both fixed messages unchanged. |
| Text.Trim | src/services/ai.ts:50 | The result has no whitespace at either end, is a substring of the input, and is empty exactly when the input is all whitespace. |
| Text.TrimIdempotent | src/components/Editor.tsx:165 | Trimming twice is trimming once. |
| Text.JoinSplit | src/components/Editor.tsx:132-163 | Joining the lines of a split with `'\n'` restores the text. |
| Text.SplitJoin | src/components/Editor.tsx:132-163 | Splitting a join of break-free lines gives those lines back. |
| Text.LowerContains | src/components/Editor.tsx:134 | An occurrence of one text in another is still an occurrence after both are lower-cased. |
| Basics.Filter | src/components/Editor.tsx:133-150 | Filtering keeps exactly the elements that pass, with their multiplicities. |
| Basics.FilterAppend | src/components/Editor.tsx:133-150 | Filtering a concatenation filters each part, so the kept elements keep their order. |
| Basics.FilterIdentity | src/App.tsx:43 | Filtering leaves a list unchanged exactly when every element passes. |
| Sanitizer.KeepLines | src/components/Editor.tsx:133-150 | A line survives exactly when its lower-case form contains none of the 13 phrases. Nothing else is dropped or duplicated. |
| Sanitizer.FindMarker | src/components/Editor.tsx:153-159 | The index of the first line starting with `#`, `-`, `*`, `1.` or `>`, or none when no line does. |
| Sanitizer.DropPreamble | src/components/Editor.tsx:161-163 | The result is the lines from the first markdown line on. The dropped lines are not markdown. With no markdown line, every line is kept. |
| Sanitizer.Sanitize | src/components/Editor.tsx:131-165 | The output is trimmed, contains no blocklisted phrase in any case, and is a substring of the filtered lines rejoined. |
| Sanitizer.SanitizeStartsAtMarker | src/components/Editor.tsx:153-165 | When some surviving line is markdown, the output starts with a markdown marker. |
| Sanitizer.SanitizeWithoutMarker | src/components/Editor.tsx:161-165 | When no surviving line is markdown, the output is all surviving lines joined and trimmed. |
| Sanitizer.SanitizeAllBlocked | src/components/Editor.tsx:133-165 | Input whose every line mentions a blocked phrase sanitizes to the empty string. |
| Sanitizer.SanitizeIdempotent | src/components/Editor.tsx:132-165 | Sanitizing twice gives the same as sanitizing once. |
| Sanitizer.SanitizeKeepsCleanMarkdown | src/components/Editor.tsx:132-165 | Trimmed input whose lines are all clean and whose first line is markdown comes out unchanged. |
| Sanitizer.SanitizeKeepsLine | src/components/Editor.tsx:132-165 | A single clean, trimmed line that starts with none of the markers (so "10 tips" qualifies, "1. tip" does not) comes out unchanged. |
| Sanitizer.SanitizeExample | src/components/Editor.tsx:132-165 | The preamble "Sure, here's your draft!" and the closing "Hope this helps!" around "# Quarterly Update" and "- point one" are removed; the two markdown lines are kept. |
| Sanitizer.JoinClean | src/components/Editor.tsx:162-163 | Joining clean lines with line breaks creates no blocked phrase across a break. |
| Sanitizer.CleanByAbsentChars | src/components/Editor.tsx:135-149 | A line mentions none of a list of phrases when, for each phrase, its lower-case form lacks some character of that phrase. |
| Sanitizer.CleanByAbsentPairs | src/components/Editor.tsx:135-149 | A line mentions none of a list of phrases when, for each phrase, its lower-case form lacks some two-character piece of that phrase. |
| Sanitizer.InfixClean | src/components/Editor.tsx:134-149 | A piece cut out of a line that mentions none of the phrases mentions none of them either. |
| Editor.ImprovementRoundTrip | src/components/Editor.tsx:96-113 | The user's prompt is quoted verbatim in the instruction. It reads back out, and only an instruction built from it reads back to it. |
| Editor.ImprovementShape | src/components/Editor.tsx:96-113 | The instruction begins with `Improve this {tone} {type} prompt`, contains `Current prompt: "{content}"`, and ends with the "Provide ONLY the improved prompt…" line. |
| Editor.GuidanceDistinct | src/components/Editor.tsx:26-94 | The four guidance blocks (email, blog, story, and the default used for suggestion) are pairwise distinct. |
| Editor.ImprovePrompt | src/components/Editor.tsx:116-165 | Whitespace-only content makes no call and stays as it is. Otherwise exactly one call goes out, with the improvement instruction as a professional suggestion. The new content is the sanitized form of the normalised model answer, so it is trimmed and clean, and it is a fixed message when the model fails or answers blank. |
| Editor.ImproveQuotesContent | src/components/Editor.tsx:124-129 | The prompt sent to the model carries the improvement instruction verbatim, and that instruction carries the user's prompt verbatim. |
| Editor.MessagesSurviveSanitize | src/services/ai.ts:50-53 | Both fixed messages pass through the sanitizer unchanged. |
| Editor.NoContentClean | src/services/ai.ts:50 | The no-content message mentions no blocked phrase. |
| Editor.FailureClean | src/services/ai.ts:53 | The failure message mentions no blocked phrase. |
| Suggestions.GetSuggestion | src/services/suggestions.ts:7-32 | A call never moves the last-completion time. The caller gets a value at once exactly when nothing is pending and the last completion was under 2000 ms ago, and that value is `""` with the state unchanged. Otherwise it is handed the flight now pending. A call that joins a pending flight changes nothing. At most one request starts per call, only when nothing was pending, and it asks to continue this call's text. |
| Suggestions.Complete | src/services/suggestions.ts:25-29 | Completion records its time as the last request time, clears the pending slot, and resolves the flight to the normalised model answer, which is never empty. |
| Suggestions.RunInvariant | src/services/suggestions.ts:3-32 | Every reachable trace alternates starts and finishes, flight by flight. Starts are spaced from finishes, the state agrees with the log, and replies are sound. |
| Suggestions.OneInFlight | src/services/suggestions.ts:5-21 | At most one external call is in flight: each start is followed by its own finish before any other start. |
| Suggestions.RequestsSpaced | src/services/suggestions.ts:16-26 | Each call starts at least 2000 ms after the previous one completed; the first starts no earlier than 2000. |
| Suggestions.SingleFlight | src/services/suggestions.ts:11-13 | A call made while a request is pending starts nothing, changes no state, and is handed the pending request; its own text is ignored. |
| Suggestions.AskRateLimited | src/services/suggestions.ts:16-18 | A call within 2000 ms of the last completion, with nothing pending, starts nothing and gets `""`. |
| Suggestions.AskStartsRequest | src/services/suggestions.ts:20-31 | Any other call starts exactly one request, for `Continue this sentence: {text}` with the suggestion type and formal tone, and is handed it. |
| Suggestions.ValuesNonEmpty | src/services/suggestions.ts:25-29 | Every request that completes resolves to a non-empty string. |
| App.SaveToHistory | src/App.tsx:29-37 | The new item is at index 0, followed by the old list unchanged. |
| App.DeleteHistory | src/App.tsx:42-43 | No item with the id remains. Every other item keeps its multiplicity. |
| App.DeleteKeepsOrder | src/App.tsx:43 | Delete works part by part, so the remaining items keep their relative order. |
| App.DeleteAbsentId | src/App.tsx:43 | Deleting an id no item has leaves the list unchanged. |
| App.DeleteIdempotent | src/App.tsx:43 | Deleting an id twice is deleting it once. |
| App.DeleteUndoesSave | src/App.tsx:29-43 | Saving an item under a fresh id and then deleting that id restores the list. |
| App.DeleteRemovesDuplicates | src/App.tsx:31-43 | Two items saved under the same id (same millisecond) are both removed by one delete. |
| App.ClearAllHistory | src/App.tsx:48-53 | The list becomes empty only when confirmed; otherwise it is unchanged. |
| App.ClearKeepsOnlyWhenDeclined | src/App.tsx:48-53 | Clearing leaves the list as it was exactly when the user declines or the list is already empty. |
| App.ClearAbsorbsDelete | src/App.tsx:42-53 | A confirmed clear gives the same empty list whether or not an id was deleted first, and nothing is left to delete after it. |
| App.HandleGenerate | src/App.tsx:55-67 | Every generation shows its non-empty result and adds exactly one history entry in front. The entry carries that result and the request's type and tone. A model failure is recorded as the failure message. |
| History.Excerpt | src/components/History.tsx:85 | The excerpt is a prefix of the content, of length `min(100, length)`. |
| History.Preview | src/components/History.tsx:85-86 | The preview has at most 103 characters. Content of at most 100 characters is shown unchanged. Longer content shows exactly 103 characters ending in `...`, after a prefix of the content. |
| History.PreviewOfLongContent | src/components/History.tsx:85-86 | Content longer than 100 characters is previewed as its first 100 characters followed by `...`. |
| History.PreviewUnchanged | src/components/History.tsx:85-86 | The preview equals the content exactly when the content has at most 100 characters, or has exactly 103 and already ends in `...`. |
| History.SamePreviewSameOpening | src/components/History.tsx:85-86 | Two contents with the same preview have the same first 100 characters. |
| History.SelectEntry | src/components/History.tsx:83 | Selecting an entry shows its full, untruncated content and closes the panel. |
| History.SelectShowsFullContent | src/components/History.tsx:83-86 | The shown text begins with the excerpt the panel listed. It equals the preview exactly when the content has at most 100 characters, or has 103 and already ends in `...`. So a longer entry is shown in full, not as its preview. |

## Left out

- The Gemini SDK (src/services/ai.ts:11, 41, 46-48) is replaced by the oracle outcome. The module-load API-key check (src/services/ai.ts:5-9) is configuration.
- src/services/openai.ts is not part of this model. It is a legacy client that no module of the application imports: src/App.tsx:6, src/components/Editor.tsx:4 and src/services/suggestions.ts:1 all import `generateContent` from `services/ai`.
- Promises and the event loop in src/services/suggestions.ts: the shared promise is a pending slot, and completion is an explicit `Settle` event. Model assumption: the `.then` has no `.catch`, so the slot clears only because `generateContent` never rejects. The model therefore always pairs a start with a finish.
- Suggestions.Complete: with nothing pending, a completion is a no-op. That state cannot arise in the program, where completion only follows a start.
- Browser state: `localStorage` and JSON persistence, and `window.confirm` (a boolean parameter).
- `Date.now`: ids and timestamps are parameters, and so are the times of suggestion calls and completions. The program reads the clock twice when saving (src/App.tsx:31, 35), so the id and timestamp are separate parameters.
- The `catch` branches of `handleGenerate` and `handleImprovePrompt` (src/App.tsx:61-63, src/components/Editor.tsx:166-168) are not modelled. Model assumption: `generateContent` never rejects. Its own `catch` (src/services/ai.ts:51-53) turns every failure into the failure message, but it reads `error.message`, so a thrown `null` or `undefined` would make it reject; the model does not cover that case.
- App.HandleGenerate: persistence is left out, and with it the one other way into the `handleGenerate` catch. `localStorage.setItem` (src/App.tsx:39) can throw (storage quota exceeded, storage blocked) after the shown content (src/App.tsx:59) and the in-memory list (src/App.tsx:38) were already updated. The user then sees the "Failed to generate content" alert after a successful generation. The contract states the in-memory result, which matches the program's state in that case too; the false alert is not modelled.
- UI-only state: loading flags, alerts, disabled buttons, `handleSubmit`, and all rendering, Markdown included.
- src/components/Preview.tsx and src/components/Sidebar.tsx are not part of this model; neither holds the logic modelled here.
- History exports (jsPDF, Blob) and date-fns formatting are not part of this model.
- App.HandleGenerate: the new entry is put in front of `history` as it was when the user clicked Generate. The program does the same: `saveToHistory` builds `[newItem, ...history]` (src/App.tsx:37) from the list captured when `handleGenerate` started, and runs only after the model answers (src/App.tsx:58-60). The history panel stays usable while the call is pending (src/App.tsx:83-88). A delete or clear made in that window is therefore undone when the answer arrives, in state and in `localStorage`. The model treats a generation as one atomic step and does not model that interleaving.
- Text.Lower: only ASCII letters are lower-cased. The full Unicode mapping of `toLowerCase` is left out. Every blocklisted phrase is ASCII, but a non-ASCII capital that lower-cases to ASCII (such as U+212A KELVIN SIGN) could make the program drop a line the model keeps.
- Text.Trim: uses the ECMAScript white-space and line-terminator set, with the space separators of Unicode 15.
- History.Preview: the program decides on the ellipsis with `content.length > 100`, which counts UTF-16 code units; the model counts Unicode scalar values. Content with characters outside the Basic Multilingual Plane can get an ellipsis in the program but be shown unchanged by the model (60 such characters, for example).
- History.Excerpt: characters are Unicode scalar values, whereas JavaScript's `slice` counts UTF-16 code units. Content with characters outside the Basic Multilingual Plane is cut at a different place.
