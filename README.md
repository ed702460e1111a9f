# FlashResponse.ai — a verified model of the streaming chat core

FlashResponse.ai is a demo chat application that streams replies from a Gemini model and
measures their latency. This project models its three working parts in Dafny and proves
what they do:

- **The streaming client** (`services/geminiService.ts`, module `GeminiService`), in which
  `streamResponse` does the following:
  - It builds the request: an optional inline image ahead of the prompt text, the system
    instruction, a temperature that defaults to 0.7, and top-p 0.9.
  - It walks the provider's fragments, keeping a first-token flag and two token counters.
  - It reports to its caller through four callbacks: `onFirstToken`, `onChunk`, then exactly
    one of `onComplete` (with the latency record) or `onError`.

  The provider stream is an input sequence of `StreamItem`s. Each item is either a fragment
  handled at a clock reading, or a `Throw` where the request or the iteration fails. The
  method `StreamResponse` is a loop over that sequence and is proved to produce exactly
  `ExpectedTrace`, a closed-form description of the callback trace. The lemmas in
  `StreamProperties` state what that trace promises:
  - one terminal callback, always last;
  - `onFirstToken` only at the front, and only when text arrived;
  - one `onChunk` per truthy text, in order;
  - counters overwritten by the last report;
  - the rate present exactly when output tokens were counted, and equal to tokens per second.
- **The conversation component** (`components/ChatInterface.tsx`), in two modules:
  - `ChatUpdates` holds the four `prev.map(...)` updates as pure functions over messages, with
    JavaScript object spread modelled as map union.
  - `ChatInterface` holds the class `Conversation`. Its fields are the message list, the input
    text, the loading flag, the system instruction and the selected image. It has one method
    per event: the submit guard and placeholder append, the four callback handlers, the 4 MB
    file check, and `HandleSubmit`, which runs a submission end to end.
  - The key result is `ChatUpdates.FoldStream`. Folding a whole trace into the placeholder gives:
    - content equal to the delivered texts in order, plus the error marker on failure;
    - `isStreaming` false;
    - metrics equal to the final record on success;
    - every other message unchanged (`ChatInterface.FoldIntoPlaceholder`).
- **The latency badge** (`components/LatencyBadge.tsx`, module `LatencyBadge`): a pure choice
  among a spinner, nothing, and a badge. The badge has a colour band for the time to first
  token, the time segments, the rate segment and the token counts. `RenderFault` stands for
  the `TypeError` that rendering throws when `toFixed` is called on an undefined property.

The React state updates made by one handler are applied one after the other, in the order
they are made. Clock readings (`performance.now()`, `Date.now()`) are parameters. Shared
types mirror `types.ts`: optional fields are `Option`, and a metrics object on a message is
a map from property names to optional values (`Types.MetricsObject`). This lets the partial
object `{ ...msg.metrics, ttft }` be represented faithfully.

## Model

| member | source | states |
|---|---|---|
| Types.ObjectOf | services/geminiService.ts:88-94 | the record literal passed to `onComplete` writes all five properties, even an undefined rate; each holds the record's value, counts as numbers |
| JsText.Trim | components/ChatInterface.tsx:88 | `trim()` leaves nothing exactly when every character is JavaScript white space; otherwise it starts and ends with a non-white character |
| JsText.ParseDecimalString | components/ChatInterface.tsx:99 | the decimal digits produced by `toString()` read back as the same number |
| JsText.DecimalStringInjective | components/ChatInterface.tsx:99-107 | two clock readings give the same id string exactly when they are equal |
| GeminiService.ErrorMessage | services/geminiService.ts:96-99 | an `Error` keeps its message; any other thrown value becomes 'Unknown error' |
| GeminiService.Throughput | services/geminiService.ts:84-86 | the rate is defined exactly when output tokens were counted |
| GeminiService.BuildRequest | services/geminiService.ts:38-57 | the model name is passed through; parts are `[text]`, or `[image, text]` with the image first; the last part is the prompt unchanged; the system instruction is passed through; temperature is the given one (0 included) or 0.7; top-p is 0.9 |
| GeminiService.StateAfterIsClosedForm | services/geminiService.ts:59-79 | after any number of fragments the loop variables are: first-token flag iff text arrived; ttft measured at the first truthy text, else 0; each counter the last reported value, else 0; the trace made so far |
| GeminiService.ExpectedOnFailure | services/geminiService.ts:96-99 | when item `i` throws, the whole trace is what the loop made before `i` followed by one `onError` with that error's message |
| GeminiService.ExpectedOnCompletion | services/geminiService.ts:81-94 | when nothing throws, the trace ends with `onComplete` carrying the loop's ttft, the elapsed time, the rate and both counters |
| GeminiService.StreamResponse | services/geminiService.ts:24-100 | the request built is `BuildRequest` of the arguments and the callbacks made are exactly `ExpectedTrace` of the stream |
| StreamProperties.TraceParts | services/geminiService.ts:59-99 | the trace is the first-token callback (present iff some text arrived), the chunks, and the terminal outcome |
| StreamProperties.OneTerminalLast | services/geminiService.ts:36-99 | the trace is non-empty, its last callback is `onComplete` or `onError`, and no earlier one is |
| StreamProperties.TerminalReportsOutcome | services/geminiService.ts:88-99 | the last callback is `onComplete` iff no item throws; otherwise it is `onError` with the first thrown value's message, and `onComplete` is not called |
| StreamProperties.ChunksAreDeliveredTexts | services/geminiService.ts:69-78 | the `onChunk` texts are exactly the truthy fragment texts before the failure, in arrival order |
| StreamProperties.FirstTokenLeads | services/geminiService.ts:69-77 | `onFirstToken` occurs only at position 0, occurs iff some text arrived, and is followed directly by that text's `onChunk` |
| StreamProperties.FirstTokenValue | services/geminiService.ts:69-75 | `onFirstToken` reports the clock reading of the first truthy fragment minus the start time |
| StreamProperties.LastReportWins | services/geminiService.ts:63-67 | a counter equals the value of the last fragment that reports it |
| StreamProperties.NoReportMeansZero | services/geminiService.ts:33-34 | a counter that no fragment reports stays 0 |
| StreamProperties.CompletionMetrics | services/geminiService.ts:81-94 | on completion: total time is finish minus start; both counts present; the rate is present iff output tokens > 0 and then rate × total time = output tokens × 1000; ttft is 0 without text and otherwise equals the `onFirstToken` value |
| StreamProperties.ThroughputRate | services/geminiService.ts:84-86 | the rate times the elapsed milliseconds gives back the output tokens × 1000 |
| StreamProperties.TtftWithinTotal | services/geminiService.ts:72-81 | with readings between start and finish, every reported ttft lies between 0 and the total time |
| ChatUpdates.ErrorMarker | components/ChatInterface.tsx:159 | the appended marker is `"\n[Error: "`, then the message (or 'Fallo de conexión' when it is empty), then `"]"` |
| ChatUpdates.FirstTokenKeepsOthers | components/ChatInterface.tsx:127-132 | the first-token update sets `ttft` and keeps every other metrics property, present or absent |
| ChatUpdates.CompletionOverwrites | components/ChatInterface.tsx:141-150 | merging the completion record over any earlier metrics gives exactly that record |
| ChatUpdates.Apply | components/ChatInterface.tsx:127-166 | no update changes a message's id, role, image or timestamp |
| ChatUpdates.Update | components/ChatInterface.tsx:128-164 | an update by id keeps the list's length and every message's id |
| ChatUpdates.UpdateAllPointwise | components/ChatInterface.tsx:127-166 | after any sequence of updates the list has the same length and order; messages with the placeholder id received every update in turn, and all others are unchanged |
| ChatUpdates.ApplyChunks | components/ChatInterface.tsx:134-139 | after k `onChunk` updates the content is the old content followed by the k texts in order, and nothing else changed |
| ChatUpdates.FoldStream | components/ChatInterface.tsx:119-166 | the message that receives a whole stream keeps its id, role, image and timestamp and stops streaming. On success its content has the delivered texts appended, its metrics are exactly the final record and its error flag is kept. On failure its content also gets the error marker, its error flag is set, and its metrics are `{ ttft }` on top of the old ones if text arrived, else untouched |
| ChatInterface.GuardIsTrim | components/ChatInterface.tsx:88 | the submit guard as stated holds exactly when `(!inputValue.trim() && !selectedImage) \|\| isLoading` |
| ChatInterface.PromptFor | components/ChatInterface.tsx:120 | the prompt is the raw user text, whitespace included; only the empty string becomes "Describe esta imagen" |
| ChatInterface.IdsDiffer | components/ChatInterface.tsx:99-107 | with readings taken in order, the user message and the placeholder get different ids |
| ChatInterface.FoldIntoPlaceholder | components/ChatInterface.tsx:116-166 | when no other message shares the placeholder's id, folding a trace into the list changes only the placeholder |
| ChatInterface.TraceHasTerminal | components/ChatInterface.tsx:141-166 | every trace of the streaming client contains a terminal callback, so loading always ends |
| ChatInterface.Conversation.constructor | components/ChatInterface.tsx:31-45 | the initial state is the welcome message, an empty input, not loading, the given system instruction and no image |
| ChatInterface.Conversation.SetInputValue | components/ChatInterface.tsx:281 | typing replaces the input text and nothing else |
| ChatInterface.Conversation.SetSystemInstruction | components/ChatInterface.tsx:182 | editing replaces the system instruction and nothing else |
| ChatInterface.Conversation.SelectFile | components/ChatInterface.tsx:59-79 | a file above 4·1024·1024 bytes is reported and leaves the selection as it was; a smaller one becomes the selected image; nothing else changes |
| ChatInterface.Conversation.ClearImage | components/ChatInterface.tsx:81-84 | the selection is cleared and nothing else changes |
| ChatInterface.Conversation.Submit | components/ChatInterface.tsx:86-125 | a blocked submission changes nothing. An accepted one appends exactly the user message and the empty streaming placeholder after the untouched earlier messages, clears the input and image, sets loading, and hands the placeholder id, prompt, system instruction and image to the streaming client |
| ChatInterface.Conversation.OnFirstToken | components/ChatInterface.tsx:127-133 | the messages become the first-token update by id; the other fields are unchanged |
| ChatInterface.Conversation.OnChunk | components/ChatInterface.tsx:134-140 | the messages become the chunk update by id; the other fields are unchanged |
| ChatInterface.Conversation.OnComplete | components/ChatInterface.tsx:141-152 | the messages become the completion update by id, and loading ends |
| ChatInterface.Conversation.OnError | components/ChatInterface.tsx:153-166 | the messages become the error update by id, and loading ends |
| ChatInterface.Conversation.Deliver | components/ChatInterface.tsx:119-166 | delivering a trace callback by callback gives the fold of the whole trace; loading ends iff the trace holds a terminal callback |
| ChatInterface.Conversation.HandleSubmit | components/ChatInterface.tsx:86-169 | a blocked submission makes no request and changes nothing. An accepted one sends `BuildRequest` of the prompt, Flash-Lite model, system instruction and image; receives exactly the streaming client's trace; folds it into the placeholder; and ends not loading. With distinct ids the list is the earlier messages, the user message, and the placeholder with the trace applied |
| LatencyBadge.BandOf | components/LatencyBadge.tsx:25 | green iff ttft < 500, yellow iff 500 ≤ ttft < 1000, red otherwise or when undefined; the three bands are exhaustive and disjoint |
| LatencyBadge.RateOf | components/LatencyBadge.tsx:47 | the rate segment is drawn iff the rate is truthy; an undefined rate draws nothing and a zero rate draws a bare 0 |
| LatencyBadge.RenderBadgeAsWritten | components/LatencyBadge.tsx:9-75 | spinner iff streaming, whatever the metrics; nothing iff not streaming and no metrics; a fault iff metrics lack `ttft` or `totalTime`; a shown badge always has both time segments |
| LatencyBadge.RenderBadge | components/LatencyBadge.tsx:9-75 | the guarded badge never faults, and otherwise chooses spinner and nothing as above; time segments are drawn when defined |
| LatencyBadge.ShownSegments | components/LatencyBadge.tsx:25-72 | a shown badge has the ttft band; both time values; the rate iff it is truthy; the token group iff either count is defined; and each count iff it is defined |
| LatencyBadge.GuardedAgrees | components/LatencyBadge.tsx:29-45 | wherever the component as written renders, the guarded one renders the same view |
| LatencyBadge.CompleteRecordShown | components/LatencyBadge.tsx:27-75 | a record stored by `onComplete` shows its band, both time segments, its rate segment and both counts |
| LatencyBadge.RatePositive | components/LatencyBadge.tsx:47 | a rate computed by the streaming client is positive whenever it is defined, so the bare 0 never appears |
| LatencyBadge.FoldedBadge | components/LatencyBadge.tsx:44 | for a placeholder after a whole stream: as written the badge faults iff the stream failed after text arrived. The guarded badge shows the full record (total time, no bare 0) on success, only the ttft segment after a failure that followed text, and nothing after a failure before any text |
| LatencyBadge.FaultAfterText | components/LatencyBadge.tsx:44 | the stream "Hola" then a network error makes the badge as written throw |

## Left out

- The Gemini SDK client and `generateContentStream` (services/geminiService.ts:5, 49-57) are foreign code and network I/O. They are replaced by the `StreamItem` input sequence; a failure of the request itself is a `Throw` at position 0.
- `performance.now()` and `Date.now()` readings are parameters. Floating-point arithmetic, `NaN` and `Infinity` are not modelled: times and rates are exact reals.
- GeminiService.StreamResponse: requires `start < finish`. At zero elapsed time the source divides by zero and reports an infinite rate, which real numbers cannot express.
- GeminiService.StreamResponse: the callbacks run inside the same `try` as the loop, so a callback that throws would divert control into the `catch` handler. The model assumes the callbacks do not throw, as the React handlers only schedule state updates.
- GeminiService.StreamResponse: the default arguments `modelName = FLASH_LITE` and `config = {}` are not modelled; the only caller passes both.
- Token counts reported by the provider are taken to be non-negative integers.
- `async`/`await` and React's batching of state updates are not modelled: each handler's updates apply in call order, and no other event is interleaved between `handleSubmit`'s synchronous part and the end of its stream.
- ChatInterface.Conversation.SelectFile: `FileReader`, the data-URL split and the asynchronous `onloadend` are not modelled. The picked file arrives with its MIME type and base64 payload, and the selection is set at once. The `alert` on a large file is the returned `tooLarge` flag.
- `console.error`, the scrolling effect, the file-input ref reset, the settings-panel toggle and all markup and styling are left out, as they hold no state the model needs.
- ChatInterface.Conversation.constructor: the default system prompt embeds a locale-formatted date (components/ChatInterface.tsx:8-29). It is taken as a parameter.
- ChatInterface.Conversation.HandleSubmit: the ids come from `Date.now()`, which need not increase. The placeholder-only form of the result is therefore stated only when the readings are in order and no earlier message has the placeholder's id.
- `toFixed` number formatting in the badge is not modelled: the badge carries the numbers it shows.
- components/LandingPage.tsx, components/ArchitectureModal.tsx, components/DemoView.tsx and App.tsx hold static markup and routing. They are not part of this model.

## Findings

| source | as written | input that shows it | evidently intended | confidence | as-written member | corrected member |
|---|---|---|---|---|---|---|
| components/LatencyBadge.tsx:44 | `metrics.totalTime.toFixed(0)` is evaluated for any defined metrics object. After a stream that fails once text has arrived, the placeholder's metrics are `{ ttft }` alone (components/ChatInterface.tsx:127-132 and 153-164 never set `totalTime`), so rendering throws a `TypeError` | a stream whose first fragment carries "Hola" and that then fails with "network error" | draw the total-time segment only when `totalTime` is defined, so a failed reply shows its time to first token | not executed | LatencyBadge.RenderBadgeAsWritten, LatencyBadge.FaultAfterText, LatencyBadge.FoldedBadge | LatencyBadge.RenderBadge, LatencyBadge.GuardedAgrees, LatencyBadge.FoldedBadge |
