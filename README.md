# kokodokoAI session and history core, in Dafny

kokodokoAI guesses where a photograph was taken. The user uploads an image. A
quick model pass estimates the place, and a web search then corroborates it.
An optional deep pass adds forensic detail to the result. Past results are
kept in a history list that survives reloads through local storage. The list
is cut to 30 entries on every insert and on every write to storage. A stored
array that is read back at start-up is taken whole.

This project models the logic of three files:

- `App.tsx`: the session state machine and the history list. The `App`
  component becomes the class `AppModel.App`. Its fields are the React state:
  the `AppState` record, `progress`, `statusMessage`, `searchText` and
  `viewMode`. Four more fields stand for things outside React state: the
  interval the progress effect installs (`ticking`, `deepMessages`,
  `msgIndex`), and the history last written to storage (`stored`).
  - Every handler is a method.
  - `runAnalysis` and `runDetailedAnalysis` are async. Each is split at its
    `await`s into one method per event: start, success, corroboration and
    failure for the quick pass; start, success and failure for the deep pass.
  - Each start method returns what the handler's closure captured from
    `state`. The later events take it back as a parameter.
  - After each event, the effects whose dependencies changed have run.
    `AfterRender` runs the progress effect only when a busy flag changed.
    The persistence effect is the assignment `stored := Persist(history)`.
  - Each method's contract gives the whole new state. `Valid()` is the
    invariant the effects keep.
  - The list edits done inside `setState` are pure functions in module
    `History`. The progress arithmetic is in module `Ticker`.
- `services/geminiService.ts` becomes the pure module `GeminiService`:
  - the credential check;
  - response cleaning (`JsonText.CleanJsonText`, with JavaScript's `trim`
    written out over an explicit white-space predicate);
  - coercion of `visualEvidence` to an array;
  - extraction of grounding sources;
  - mapping of failures to messages.
  What a model call produced (a response or a thrown message) is a
  parameter. So is the behaviour of `JSON.parse`.
- `types.ts` becomes the datatypes of module `Types`.
  - In `VisualClue`, `x` and `y` are independently optional.
  - `DetailedContext` has five required strings.
  - In `AnalysisResult`, `latitude`, `longitude` and `detailedContext` are
    optional, and `visualEvidence` is a sequence.
  - `AppState` has a nullable image, result and error, and two independent
    busy flags.

Behaviour of the code worth knowing:

- Late responses are not checked against the current image. Suppose the user
  drops a new image onto the page while a quick run is busy. The result for the
  old image then becomes the result shown with the new one
  (`AppModel.StaleQuickResultIsApplied`). The corroboration of that run still
  inserts a history entry, with the image captured at its start.
- The two busy flags are never set together; this is part of the class
  invariant `Valid()`. A quick start clears the result. Results come back in
  only three ways: a quick success clears the quick flag, a deep success
  brings a detailed context, and loading from history clears both flags. The
  deep trigger is offered only for a result without a detailed context.
- A deep response is cast to `DetailedContext` without checking its fields.
  A partial response is not a failure.
- The quick start clears the previous result. A failure of the quick model
  call itself therefore leaves no result, and does not preserve an earlier
  one. The same `try` also covers the corroboration and the history insert,
  which come after the result is set. A failure there keeps the new result
  and adds the error message (`RunAnalysisSucceeded` followed by
  `RunAnalysisFailed`).
- A click on a history card's delete button also loads that entry. The
  button's handler takes the click event but does not stop its propagation,
  so the click reaches the card, whose handler is `loadFromHistory`. The
  entry leaves the history and, at the same time, becomes the session shown
  on the main view, with both stages idle (`AppModel.DeleteClickAlsoLoads`).
- An empty image string counts as no image: the starts return early on
  `!state.image`, which holds for null and for "".
- Progress is 0 whenever no stage is busy, with one exception. A success
  that arrives after its flag was already cleared (for example after a
  reset) sets progress to 100. No flag changes, so the effect does not run.
  The bar is not displayed then.

## Model

| member | source | states |
|---|---|---|
| `History.Insert` | App.tsx:176-189 | the new entry is the head; the length is min(old + 1, 30); the tail is the old list's prefix in the same order |
| `History.InsertAllNewestFirst` | App.tsx:185-189 | after any sequence of inserts, the list is the inserted entries newest first, followed by the old entries, all capped at 30 |
| `History.CapacityAfterInserts` | App.tsx:188 | inserting 30 or more entries leaves exactly 30: the newest 30, newest first (35 inserts discard the oldest 5) |
| `History.Persist` | App.tsx:96-98 | what is written is exactly the first min(length, 30) entries, in order; a list within the cap is written whole |
| `History.Load` | App.tsx:82-94 | the stored text replaces the history only when it is present, non-empty and parses to an array, and then exactly with that array; in every other case the history is left as it was |
| `History.LoadAfterPersist` | App.tsx:82-98 | when parsing inverts serialising, loading what was persisted gives back the first min(length, 30) entries |
| `History.Delete` | App.tsx:310 | an entry survives iff it was there and its id differs; an absent id leaves the list unchanged; the list never grows |
| `History.DeleteAppend` | App.tsx:310 | deletion keeps the order of the survivors (it acts on each part of a concatenation separately) |
| `History.DeleteIdempotent` | App.tsx:310 | deleting the same id twice is deleting it once |
| `History.UpdateByImage` | App.tsx:217-219 | same length; every entry with the given image gets the new result; every other entry is unchanged |
| `History.PersistUpdateByImage` | App.tsx:96-98 | persisting after the deep update writes the update of what was persisted before |
| `Ticker.Messages` | App.tsx:103-105 | five messages: the deep list exactly when the deep pass is running, the quick list otherwise |
| `Ticker.NextIndex` | App.tsx:111 | the next message index is in [0, 5) and wraps from 4 to 0 |
| `Ticker.NextProgress` | App.tsx:113 | a tick adds 4 or lands on 98, never exceeds 98, and never lowers a value at or below 98 |
| `Ticker.ProgressAfterTicks` | App.tsx:110-114 | n ticks from p ≤ 98 give min(p + 4n, 98) |
| `Ticker.IndexAfterTicks` | App.tsx:107-112 | n ticks from index i show message (i + n) mod 5 |
| `JsonText.RemoveAll` | services/geminiService.ts:7 | a global replace of a pattern and an optional newline: it never lengthens the text or adds characters |
| `JsonText.TrimStart` | services/geminiService.ts:7 | removes exactly the longest all-white-space prefix |
| `JsonText.TrimEnd` | services/geminiService.ts:7 | removes exactly the longest all-white-space suffix |
| `JsonText.Trim` | services/geminiService.ts:7 | the result is no longer than the input and has no white space at either end |
| `JsonText.TrimKeepsInfix` | services/geminiService.ts:7 | trimming removes white space at the ends and nothing else: the result is a slice `s[i..j]` with only white space outside it |
| `JsonText.RemoveAllFenceFree` | services/geminiService.ts:7 | after removing every "```", no "```" remains, even where removal joined two pieces |
| `JsonText.CleanJsonText` | services/geminiService.ts:6-8 | the cleaned text contains no "```" and has no leading or trailing white space |
| `JsonText.CleanJsonTextWithoutTicks` | services/geminiService.ts:7 | on text with no backtick, cleaning is just trimming |
| `JsonText.CleanJsonTextUnwrapsBlock` | services/geminiService.ts:6-8 | "```json\n" + body + "\n```", with a backtick-free body, cleans to the trimmed body |
| `GeminiService.GetAiClient` | services/geminiService.ts:10-16 | a client exists iff the key is present and non-empty; otherwise the fixed configuration error |
| `GeminiService.Rethrown` | services/geminiService.ts:106-109 | a rethrown error keeps a non-empty original message, else takes the stage's fixed default |
| `GeminiService.ResponseText` | services/geminiService.ts:94 | an absent or empty response text reads as "{}", any other text as itself; the result is never empty |
| `GeminiService.Normalize` | services/geminiService.ts:96-101 | every parsed field passes through; `visualEvidence` is the parsed array, or empty when it is not an array |
| `GeminiService.AnalyzeLocationImage` | services/geminiService.ts:21-110 | a missing key fails before any call; a thrown call is rethrown with its message or the default; an unparsable cleaned response is the fixed malformed-response error; otherwise the normalised parse; every error message is non-empty |
| `GeminiService.AnalyzeDetailedContext` | services/geminiService.ts:115-164 | a missing key fails first; a thrown call or a parse error is rethrown with its message or the deep default; otherwise the parsed context, unchecked |
| `GeminiService.WebSources` | services/geminiService.ts:182-187 | exactly the chunks with a web entry, as (title, uri); never more sources than chunks; one per chunk when every chunk has one |
| `GeminiService.WebSourcesAppend` | services/geminiService.ts:182-187 | sources keep the chunks' order |
| `GeminiService.ExtractSources` | services/geminiService.ts:182-187 | a missing chunk list gives no sources; otherwise exactly `WebSources` of the chunks (the web chunks as (title, uri), in chunk order), at most one per chunk |
| `GeminiService.FetchLocationDetails` | services/geminiService.ts:169-194 | fails iff the key is missing (outside the try); a failed search gives the fixed fallback text and no sources; a success gives the text (or "") and the extracted sources |
| `AppModel.App.constructor` | App.tsx:66-98 | the initial state with the history loaded from storage; storage then holds the capped loaded history |
| `AppModel.App.ProgressEffect` | App.tsx:100-119 | when a flag is set, a fresh interval starts at message 0 of the running stage's list; when neither is set, progress is 0 |
| `AppModel.App.AfterRender` | App.tsx:100-119 | the progress effect runs exactly when a busy flag changed, which re-establishes `Valid()` |
| `AppModel.App.Tick` | App.tsx:110-114 | next message index mod 5, progress := min(progress + 4, 98), nothing else changes |
| `AppModel.App.HandleFile` | App.tsx:121-138 | non-image types are ignored; otherwise the new image, with result, error, sources and text cleared and the view set to main; flags, history and ticker are kept |
| `AppModel.App.RunAnalysisStart` | App.tsx:158-161 | with no image or an empty image string nothing changes; otherwise the quick flag is set, error and result cleared, progress is 5, the quick interval starts at message 0, and the image is captured |
| `AppModel.App.RunAnalysisSucceeded` | App.tsx:164-171 | the result is set unconditionally and the quick flag cleared; progress is 100, then 0 when the effect runs because the flag changed; with no flag changed the interval, message and index are kept |
| `AppModel.App.RunAnalysisCorroborated` | App.tsx:173-189 | text and sources are shown; an entry with the captured image is inserted at the head (length min(old + 1, 30)); storage is rewritten; the ticker is untouched |
| `AppModel.App.RunAnalysisFailed` | App.tsx:191-197 | the quick flag is cleared, the fixed message is set, the result is kept; the ticker stops (progress 0) if the flag changed, otherwise it is kept |
| `AppModel.App.RunDetailedAnalysisStart` | App.tsx:201-204 | nothing changes unless the image is a non-empty string and a result exists; otherwise the deep flag is set, the error cleared, progress is 5, the deep interval starts at message 0, and image and result are captured; callable only while the deep stage is idle and the result has no detailed context (components/ResultCard.tsx:154), which keeps the two stages exclusive |
| `AppModel.App.RunDetailedAnalysisSucceeded` | App.tsx:206-221 | the result is the captured result plus the context; the deep flag is cleared; entries with the captured image get the new result; the history length is unchanged; progress is 100, then 0 when the effect runs; with no flag changed the interval is kept |
| `AppModel.App.RunDetailedAnalysisFailed` | App.tsx:222-229 | the deep flag is cleared and the fixed message set; result and history are unchanged; the ticker stops if the flag changed, otherwise it is kept |
| `AppModel.App.LoadFromHistory` | App.tsx:232-245 | image, result, sources and text are copied from the entry; error and both flags are cleared; the interval stops, with progress 0 if a flag was set |
| `AppModel.App.Reset` | App.tsx:247-260 | image, result and error are nulled, sources and text emptied, both flags cleared, progress is 0, the view is main, and history is untouched |
| `AppModel.App.ClearHistory` | App.tsx:291 | the history and the stored copy become empty; the rest of the session and the ticker are unchanged |
| `AppModel.App.DeleteHistoryItem` | App.tsx:310 | exactly the entries with the id are removed, the rest kept in order; an absent id changes nothing in the session; the ticker is unchanged |
| `AppModel.DeleteClickAlsoLoads` | App.tsx:16-17 | a click on the delete button (App.tsx:55-56, 309-310) removes the entry from the history and also loads it: its image, result, sources and text are shown, both stages are idle, the interval is stopped, and the view is main |
| `AppModel.QuickRunSettles` | App.tsx:158-199 | start then success or failure never leaves the quick flag set; a failure right after the start leaves no result and the fixed message |
| `AppModel.StaleQuickResultIsApplied` | App.tsx:150-171 | a quick result for an image replaced by a drop during the run becomes the result shown with the new image |

## Findings

| source | as written | input that shows it | evidently intended | confidence | as-written member | corrected member |
|---|---|---|---|---|---|---|
| App.tsx:55-56, App.tsx:310 | the delete handler takes the click event but never calls `e.stopPropagation()`, so the click also runs the card's `onLoad` (App.tsx:16-17) | any click on a card's delete button | the entry is removed and nothing else in the session changes | medium, not executed | `AppModel.DeleteClickAlsoLoads` | `AppModel.App.DeleteHistoryItem` |

## Left out

- The Gemini SDK calls and their prompt text. What a call returned or threw is a parameter.
- `JSON.parse` and `JSON.stringify`. They are parameters (`parse` functions, and `stringify` in `History.LoadAfterPersist`).
- `localStorage`. The stored value is the field `App.stored`, holding the history as written. The text read at mount is the constructor's `saved` parameter.
- `FileReader`, the data URL, the drag-and-drop handlers and the file input. `HandleFile` takes the file type and the finished data URL.
- `setInterval`, its 900 ms period, and React's scheduling. Each event is one method; `Tick` is one firing of the interval.
- `crypto.randomUUID()` and `Date.now()`. They are parameters of `RunAnalysisCorroborated`.
- `window.confirm` before clearing history, and `window.scrollTo`.
- `console.error` and `console.warn` logging.
- The nav-bar buttons. "Home" sets the view to main and calls `Reset` when a result is shown. "History" sets the view to history. The camera button clicks the file input. That input exists only on the upload screen, and it leads to `HandleFile`.
- The `HistoryItemCard` image-loaded flag, `components/ResultCard.tsx` (map, clipboard, rendering) and `components/Header.tsx`. These are presentation. From the result card only the condition under which it offers the deep trigger is kept, as a precondition of `RunDetailedAnalysisStart`.
- `vite.config.ts`. It is build configuration.
- Floating-point numbers. Coordinates and clue percentages are `real` values that are never computed with. `confidenceScore` is an `int`.
- Splitting the data URL at "," before sending it. It only shapes the SDK request.
- A deep response that parses to `null` or another falsy JSON value. `DetailedContext` cannot represent it. With such a response, the result card would offer the deep trigger again, even while a quick run is busy.
- A throw inside the quick handler's `try` after `setSearchText` (App.tsx:174) and before the history insert (App.tsx:185-189), for example from `crypto.randomUUID`. The text would then be shown without sources or a history entry, next to the error. No event models this partial step: `RunAnalysisCorroborated` sets text, sources and history together.
- Concurrency beyond sequential events. Events of different runs may interleave in any order the caller chooses; there is no real parallelism.
- `JsonText.RemoveAll`: its contract only says the text never grows and gains no characters. Its exact effect on the "```" pattern is given by `JsonText.RemoveAllFenceFree` and the other `JsonText` lemmas.
