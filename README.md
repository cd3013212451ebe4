# Subtitle translator core, modelled in Dafny

The program is a browser tool that loads an SRT subtitle file and translates it in
batches with two remote language models: a fast tier ("Flash") and a strong tier
("Pro"). First a Pro context check flags ambiguous lines and suggests rewrites; the user
may apply a suggestion. A run then splits the subtitle list into chunks of
`batchSize` items. For each chunk it:

- marks the chunk `checking_context` and asks Pro for context suggestions;
- merges the suggestions into the list;
- routes the chunk to Pro when any of its items is flagged, and otherwise to Pro with
  probability `proAllocation` percent;
- marks the chunk `translating` and sends it for translation;
- merges the translations, or retries once with Flash when the first call fails;
- updates the progress figure.

Every step is logged. The list can be printed back as an SRT file.

The project covers the following parts of the source:

- **Types** (`types.dfy`): the records and enumerations of `types.ts`, and the default
  configuration.
- **JsText** (`js_text.dfy`): the JavaScript string primitives the parser relies on:
  - `trim` and the `\s` whitespace class;
  - `split` on one character, and `join`;
  - `parseInt` with no radix, including its prefix and `0x` behaviour;
  - the decimal rendering of an integer inside a template string.
- **SrtParser** (`srt_parser.dfy`): `parseSRT` and `generateSRT`, with these results:
  - `parseSRT(generateSRT(items))` gives back every printable item;
  - `parseSRT` is stable under a print-and-reparse cycle.
- **GeminiService** (`gemini_service.dfy`): the service-side logic that is not network
  I/O:
  - the records sent to the context check and to translation;
  - the model each call names;
  - how a response text becomes a result, including the `|| "[]"` default.
- **BatchSteps** (`batch_steps.dfy`): the per-id list updates inside the run loop:
  status marks, merging suggestions, merging translations and the fallback, failure
  marks, the routing decision, and `handleApplyContext`.
- **Chunking** (`chunking.dfy`): the chunk-building loop, and the shape of its chunks.
- **Pipeline** (`pipeline.dfy`): one chunk of a run and a whole run, as functions of an
  explicit environment, with lemmas about their effect on the list and the log.
- **LogText** (`log_text.dfy`): the exact text of every log message. Log entries hold a
  `Message` value; `LogText.Text` renders it as the string the source writes.
- **App** (`app.dfy`): the controller as a class with the state the screens share, and
  its handlers as methods:
  - `StartTranslation` performs a run step by step with a loop;
  - it is proved to end in the state that `Pipeline.TranslationRun` describes.
- **SetupTab** (`setup_tab.dfy`): the configuration updates of the setup screen.
- **MonitoringTab** (`monitoring_tab.dfy`): the monitoring screen's counts, the
  download condition and the downloaded content.

Everything a run depends on that the program does not compute is an explicit parameter,
the `Pipeline.Remote` value:

- the answer of every remote call, indexed by batch number and attempt;
- the `Math.random` roll of every batch, a real number in [0, 100);
- the id and timestamp of every log entry, indexed by its position in the log.

Where the written design and the code differ, the model follows the code:

- a failed context check is logged as an error, not a warning;
- a successful Flash retry is logged as a warning;
- suggestion and translation merges apply to every item whose id the reply mentions,
  not only to the chunk's items;
- after a successful retry, chunk items the retry did not return stay `translating`.

## Model

| member | source | states |
|---|---|---|
| Types.DefaultConfig | types.ts:38-46 | the default configuration is valid: allocations 70 and 30 summing to 100, batch size 10 |
| JsText.TrimSlice | services/srtParser.ts:18 | `trim` keeps one slice of the string: only whitespace lies outside it and, when it is non-empty, neither of its ends is whitespace |
| JsText.TrimEmpty | services/srtParser.ts:18-19 | a trimmed text is empty exactly when the string is all whitespace, which is when `if (text)` rejects the block |
| JsText.TrimIdentity | services/srtParser.ts:18 | a string with no surrounding whitespace is its own trim |
| JsText.Trim | services/srtParser.ts:12-18 | definition; its properties are the rows of JsText.TrimSlice, JsText.TrimEmpty and JsText.TrimIdentity |
| JsText.SplitOn | services/srtParser.ts:10 | `split('\n')` gives at least one piece, no piece contains the separator, and a string without it gives itself |
| JsText.Join | services/srtParser.ts:18 | definition; its properties are the rows of JsText.JoinSplit, SrtParser.SplitGenerated and SrtParser.NormalizeCrLfLines |
| JsText.JoinSplit | services/srtParser.ts:10-18 | joining the pieces of a split with the same separator restores the string |
| JsText.IntToString | services/srtParser.ts:38 | the printed id is non-empty, starts with a digit or `-`, and contains no whitespace or newline |
| JsText.ParseIntToString | services/srtParser.ts:12 | `parseInt` reads back exactly the integer that `${id}` printed |
| JsText.ParseInt | services/srtParser.ts:12 | definition; its properties are the rows of JsText.ParseIntToString, JsText.ParseIntPrefix and JsText.ParseIntNaN |
| JsText.ParseIntPrefix | services/srtParser.ts:12 | `parseInt` stops at the first non-digit: `${n}` followed by text that does not start with a digit (nor with `x`/`X` after a lone `0`) reads as n |
| JsText.ParseIntNaN | services/srtParser.ts:12 | `parseInt` gives NaN when, after leading whitespace, the text is empty, starts with neither a sign nor a digit, or has a sign with no digit after it |
| SrtParser.ReplaceCrLf | services/srtParser.ts:4 | definition; its properties are the rows of SrtParser.ReplaceCrLfNoCr, SrtParser.ReplaceCrLfAppend, SrtParser.CrLfStep and SrtParser.LoneCrStep |
| SrtParser.ReplaceCrLfNoCr | services/srtParser.ts:4 | text without `\r` passes the `\r\n` pass unchanged |
| SrtParser.ReplaceCrLfAppend | services/srtParser.ts:4 | the `\r\n` pass rewrites two texts separately when no `\r\n` pair straddles their junction |
| SrtParser.CrLfStep | services/srtParser.ts:4 | the `\r\n` pass turns a `\r\n` pair into one `\n`, whatever surrounds it |
| SrtParser.LoneCrStep | services/srtParser.ts:4 | the `\r\n` pass leaves a `\r` that no `\n` follows in place |
| SrtParser.ReplaceCr | services/srtParser.ts:4 | every lone `\r` becomes `\n`, and nothing else changes |
| SrtParser.Normalize | services/srtParser.ts:4 | the normalised text has no `\r` at all, and text without `\r` is unchanged; how each line break is rewritten is in the rows of SrtParser.NormalizeCrLf, SrtParser.NormalizeLoneCr and SrtParser.NormalizeCrLfLines |
| SrtParser.NormalizeCrLf | services/srtParser.ts:4 | a `\r\n` pair becomes exactly one `\n`, and the text on each side is normalised on its own |
| SrtParser.NormalizeLoneCr | services/srtParser.ts:4 | a `\r` that no `\n` follows becomes one `\n`, and the text on each side is normalised on its own |
| SrtParser.NormalizeCrLfLines | services/srtParser.ts:4 | lines joined by `\r\n` normalise to the same lines joined by `\n` |
| SrtParser.SplitBlocks | services/srtParser.ts:5 | `split(/\n\n+/)` gives at least one block, the first block is a prefix of the text, no block contains a blank line, and no `\r` is introduced; where the text is cut is the row of SrtParser.SplitBlocksRun |
| SrtParser.SplitBlocksRun | services/srtParser.ts:5 | a run of any two or more line feeds between a blank-line-free block and text not starting with a line feed is one cut: the block, then the blocks of the rest |
| SrtParser.SplitBlocksConcat | services/srtParser.ts:5 | the one blank line `generateSRT` writes is such a cut |
| SrtParser.FindTimecode | services/srtParser.ts:14-15 | the unanchored pattern is found at its leftmost position, or it matches nowhere |
| SrtParser.TimecodePair | services/srtParser.ts:14-23 | `match` succeeds exactly when the pattern occurs in the line; the two groups are the timecodes at the leftmost match |
| SrtParser.ParseBlock | services/srtParser.ts:10-28 | an accepted block gives a fresh item: status pending, nothing applied, suggested, translated or failed, well-formed times and a non-empty text |
| SrtParser.ParseBlockAccepts | services/srtParser.ts:11-24 | a block yields an item exactly when it has 3 or more lines, its first line parses as an integer, its second line contains the timecode pattern, and its trimmed text is non-empty; the id, times and text are those parts |
| SrtParser.ParsedBlocks | services/srtParser.ts:9-31 | there are never more items than blocks |
| SrtParser.ParsedBlocksStep | services/srtParser.ts:9-31 | each block appends its item, or nothing, after the items of the blocks before it, so the items keep block order and duplicate ids are kept |
| SrtParser.ParseSRT | services/srtParser.ts:3-34 | the `forEach`/`push` loop produces exactly `SrtItems(content)` |
| SrtParser.SrtItemsWellFormed | services/srtParser.ts:20-27 | every parsed item is fresh, has well-formed timecodes and a text with no surrounding whitespace, no `\r` and no blank line |
| SrtParser.Renders | services/srtParser.ts:37-38 | one printed block per item, in order |
| SrtParser.Render | services/srtParser.ts:37-38 | definition; its properties are the rows of SrtParser.Renders and SrtParser.ParseRender |
| SrtParser.GenerateSRT | services/srtParser.ts:36-40 | definition; its properties are the rows of SrtParser.SplitGenerated, SrtParser.GenerateThenParse and SrtParser.ParseGenerateParse |
| SrtParser.ParseRender | services/srtParser.ts:10-38 | parsing the block printed for a printable item gives a fresh item with the same id, times and displayed text |
| SrtParser.SplitGenerated | services/srtParser.ts:5-39 | splitting `generateSRT` output on blank lines gives back the printed blocks |
| SrtParser.GenerateThenParse | services/srtParser.ts:3-40 | `parseSRT(generateSRT(items))` gives one fresh item per printable item, with its id, times and displayed text |
| SrtParser.ParseGenerateParse | services/srtParser.ts:3-40 | printing a parsed list and parsing it again gives the same list |
| GeminiService.ContextEntries | services/geminiService.ts:27 | the context input is one `{id, text}` per item, in order, always with the original text |
| GeminiService.TranslationText | services/geminiService.ts:85 | the suggestion is sent when it is applied and non-empty; otherwise the original text is sent, including when the flag is set without a suggestion |
| GeminiService.TranslationEntries | services/geminiService.ts:83-86 | the translation input is one entry per item, in order, with the item's id |
| GeminiService.ContextRequestFor | services/geminiService.ts:14-27 | the context check always names the Pro model and carries the configured genre |
| GeminiService.TranslateRequestFor | services/geminiService.ts:63-104 | the translation call names the caller's model and carries the configured languages, genre and instructions |
| GeminiService.ResultOf | services/geminiService.ts:114-119 | a thrown call or an unparsable text rejects; an absent or empty text gives the empty list; a parsed array is returned whole |
| GeminiService.ModelIdOf | constants.ts:26-27 | the Pro tag names the Pro model and the Flash tag the Flash model |
| BatchSteps.IdsOf | App.tsx:77 | the batch ids are the chunk's ids, in order |
| BatchSteps.MarkStatus | App.tsx:80 | items with a batch id take the new status; every other field and every other item is unchanged |
| BatchSteps.FindRecord | App.tsx:90 | `find` returns a record with that id exactly when one exists |
| BatchSteps.FindRecordFirst | App.tsx:90 | the record found is the first one with that id |
| BatchSteps.MergeSuggestions | App.tsx:89-95 | an item gains a suggestion only when its id is in the results, and then it takes the first matching suggestion; nothing else changes |
| BatchSteps.FilterBatch | App.tsx:130 | the filtered batch holds only items of the list with batch ids, and every such item; order and duplicates are the rows of BatchSteps.FilterBatchAppend and BatchSteps.FilterBatchSingle |
| BatchSteps.FilterBatchAppend | App.tsx:159 | filtering a list is filtering its halves and concatenating, so the batch keeps list order and duplicate ids |
| BatchSteps.FilterBatchSingle | App.tsx:159 | one item is kept as it is exactly when its id is in the batch |
| BatchSteps.HasFlagsIff | App.tsx:128-135 | `hasFlags` holds exactly when some item with a batch id has a non-empty suggestion or is applied |
| BatchSteps.Route | App.tsx:137-150 | the batch goes to Pro exactly when it is flagged or the roll is below `proAllocation`; allocation 0 with no flags gives Flash, allocation 100 gives Pro |
| BatchSteps.MarkTranslating | App.tsx:153 | batch items become `translating` with the chosen model; nothing else changes |
| BatchSteps.MergeTranslations | App.tsx:165-171 | returned items become done with their translation; unreturned batch items become `error`; other unreturned items are unchanged |
| BatchSteps.MergeFallback | App.tsx:180-184 | returned items become done with their translation and the Flash model; unreturned items are unchanged |
| BatchSteps.MarkFailed | App.tsx:187 | batch items become `error` with message "Failed"; nothing else changes |
| BatchSteps.ApplyContext | App.tsx:45-56 | only items with that id and a non-empty suggestion become applied; no other field changes, `originalText` included |
| BatchSteps.ApplyContextIdempotent | App.tsx:45-56 | applying a suggestion twice is the same as applying it once |
| BatchSteps.ApplyContextNoSuggestion | App.tsx:45-56 | applying an id that has no suggestion changes nothing |
| BatchSteps.ApplyContextInputs | services/geminiService.ts:83-86 | applying changes no context input, and it changes the translation input only for the applied items, which now send their suggestion |
| Chunking.Chunks | App.tsx:68-71 | definition; its properties are the rows of Chunking.ChunksFlatten, Chunking.ChunksShape and Chunking.ChunkAt |
| Chunking.ChunksFlatten | App.tsx:68-71 | the chunks, concatenated, are the item list |
| Chunking.ChunksShape | App.tsx:68-71 | there are ceil(n / batchSize) chunks; each holds 1 to batchSize items, and all but the last hold exactly batchSize |
| Chunking.ChunkAt | App.tsx:69-70 | chunk k is `items.slice(k*b, k*b + b)` |
| Chunking.ProcessedAfter | App.tsx:191 | after i chunks, min(i*b, n) items have been processed |
| Chunking.FlattenStep | App.tsx:191 | each chunk adds exactly its own items to the processed prefix |
| Chunking.MakeChunks | App.tsx:68-71 | the `for`/`push` loop builds exactly the chunks |
| Chunking.TwentyFiveInTens | App.tsx:68-71 | 25 items in batches of 10 give chunks of 10, 10 and 5 |
| Pipeline.AddLog | App.tsx:21-29 | exactly one entry is appended, with the given message, kind, model and stamp, and every earlier entry is kept |
| Pipeline.ContextPhase | App.tsx:80-103 | definition; its properties are the rows of Pipeline.ContextPhaseItems, Pipeline.ContextPhaseSkeleton and Pipeline.ContextPhaseLogs |
| Pipeline.RoutePhase | App.tsx:128-153 | definition; its properties are the rows of Pipeline.ChunkTagIff, Pipeline.RoutePhaseMarks and Pipeline.RoutePhaseEffect |
| Pipeline.TranslatePhase | App.tsx:155-189 | definition; its properties are the rows of Pipeline.PrimarySuccess, Pipeline.FallbackSuccess, Pipeline.BothAttemptsFail and Pipeline.TranslatePhaseEffect |
| Pipeline.ChunkStep | App.tsx:75-196 | definition; its properties are the rows of Pipeline.ChunkStepItems, Pipeline.ChunkStepLogs and Pipeline.CoverStep |
| Pipeline.TranslationRun | App.tsx:61-200 | definition; its properties are the rows of Pipeline.RunItems, Pipeline.RunLogs, Pipeline.RunProgress and Pipeline.EmptyRun |
| Pipeline.Progress | App.tsx:191-192 | definition; its properties are the rows of Pipeline.ProgressComplete, Pipeline.ProgressMonotone and Pipeline.RunProgress |
| Pipeline.RunPrefixStep | App.tsx:75-196 | the run over i+1 chunks is chunk i applied after the run over i chunks |
| Pipeline.ProgressComplete | App.tsx:192 | all items processed gives 100 percent |
| Pipeline.ProgressMonotone | App.tsx:191-192 | more processed items give a strictly larger percentage, never above 100 |
| Pipeline.RunProgress | App.tsx:191-192 | each chunk raises the progress strictly, to at most 100; after the last chunk it is exactly 100 |
| Pipeline.ContextPhaseItems | App.tsx:80-103 | batch items become `checking_context`, and only suggestions change besides; a suggestion changes only when the check succeeded and mentions the id, so a failed check changes no suggestion |
| Pipeline.ContextPhaseSkeleton | App.tsx:80-95 | the context step keeps the ids, times and texts of the list, and batch items are `checking_context` |
| Pipeline.ContextPhaseLogs | App.tsx:84-103 | the step logs "Checking context" against Pro; then it logs an error on failure, a warning with the count when there are results, and nothing more otherwise |
| Pipeline.ChunkTagIff | App.tsx:128-150 | the chunk goes to Pro exactly when one of its items is flagged or the roll is below `proAllocation` |
| Pipeline.SuggestionForcesPro | App.tsx:89-146 | a non-empty suggestion returned for a chunk item forces that chunk to Pro |
| Pipeline.RoutePhaseMarks | App.tsx:137-161 | the batch sent is `translating` with the chosen model, the request names the matching model id, and the routing line is logged exactly when the batch is flagged |
| Pipeline.PrimarySuccess | App.tsx:163-173 | after a successful first call, returned items are done with their translation, unreturned batch items are `error`, other items are unchanged, and one success line is logged |
| Pipeline.FallbackSuccess | App.tsx:175-185 | after a failed first call and a successful Flash retry on the original chunk, returned items are done by Flash, the rest is unchanged, and an error line and a warning line are logged |
| Pipeline.BothAttemptsFail | App.tsx:175-188 | when both calls fail, every batch item is `error` with "Failed", the rest is unchanged, and only the retry line is logged |
| Pipeline.TranslatePhaseEffect | App.tsx:155-189 | the translate step keeps the list's skeleton and the earlier log, and leaves each item's status unchanged, done or `error` |
| Pipeline.RoutePhaseEffect | App.tsx:137-153 | the routing step keeps the skeleton and the earlier log, and exactly the batch items become `translating` |
| Pipeline.ChunkStepItems | App.tsx:75-189 | one chunk keeps the skeleton, batch items end `translating`, done or `error`, and an item already in one of those states stays in one |
| Pipeline.ChunkStepLogs | App.tsx:75-189 | one chunk only appends to the log |
| Pipeline.CoverStep | App.tsx:75-196 | one more chunk extends "every item with an id in the first i chunks is `translating`, done or `error`" to i+1 chunks |
| Pipeline.InSomeChunk | App.tsx:68-71 | every item belongs to some chunk |
| Pipeline.RunItems | App.tsx:61-200 | a run keeps every id, time and text, and leaves no item `pending` or `checking_context` |
| Pipeline.RunLogs | App.tsx:61-200 | a run keeps the earlier log, logs "Starting batch translation..." first and "Job Complete." last |
| Pipeline.EmptyRun | App.tsx:62 | a run on an empty list changes nothing |
| App.App.constructor | App.tsx:12-18 | the initial state: default configuration, no items, no file, no log, setup tab, progress 0 |
| App.App.AddLog | App.tsx:21-29 | `addLog` appends one entry as `Pipeline.AddLog` describes |
| App.App.HandleFileUpload | App.tsx:32-42 | the list becomes the parsed file, the file name is kept, the item count is logged, and the data tab is shown |
| App.App.HandleApplyContext | App.tsx:45-58 | the list is updated as `ApplyContext` describes, and the action is logged as a success |
| App.App.ChangeAllocation | components/SetupTab.tsx:66-71 | the slider position sets the split, and a valid configuration stays valid |
| App.App.ChangeField | components/SetupTab.tsx:99-129 | one text field is replaced, and a valid configuration stays valid |
| App.App.ChangeBatchSize | components/SetupTab.tsx:147-152 | the batch size is set by `parseInt(v) \|\| 10` as written: it is never 0, and it is positive exactly when the text is not a number or parses to a non-negative integer |
| App.App.CheckContext | App.tsx:80-103 | step 1 of a chunk ends in the state `ContextPhase` describes |
| App.App.RouteBatch | App.tsx:128-150 | the chosen tag is `ChunkTag`, and the state is the one `RoutePhase` describes |
| App.App.TranslateChunk | App.tsx:153-189 | step 2 with its retry ends in the state `TranslatePhase` describes |
| App.App.RunChunk | App.tsx:75-189 | one loop iteration is `ChunkStep` |
| App.App.RunChunks | App.tsx:73-196 | the chunk loop gives `RunPrefix` over all chunks and leaves progress at 100 |
| App.App.RunJob | App.tsx:65-199 | the opening line, the chunk loop and the closing line give `TranslationRun` |
| App.App.StartTranslation | App.tsx:61-200 | nothing changes on an empty list; otherwise the run ends in the `TranslationRun` state, not processing, at 100 percent, on the monitoring tab |
| SetupTab.AllocationChange | components/SetupTab.tsx:17-19 | Flash gets the value and the two allocations sum to 100; every other field is unchanged; a value in 0..100 keeps Pro in 0..100 |
| SetupTab.AllocationKeepsValid | components/SetupTab.tsx:66-71 | a slider value in 0..100 keeps a valid configuration valid |
| SetupTab.AllocationLastWins | components/SetupTab.tsx:17-19 | only the last slider value counts |
| SetupTab.SliderChange | components/SetupTab.tsx:66-71 | `parseInt` of the slider's value gives back its position, so the split is the position's |
| SetupTab.SetField | components/SetupTab.tsx:99-129 | an edit replaces exactly the edited field and keeps the configuration valid |
| SetupTab.SetFieldCommutes | components/SetupTab.tsx:99-129 | edits of different fields commute; a second edit of the same field overrides the first |
| SetupTab.BatchSizeAsWritten | components/SetupTab.tsx:152 | `parseInt(v) \|\| 10`: NaN and 0 become 10, any other parsed value is kept, and the result is never 0; it is positive exactly when the text is not a number or parses to a non-negative integer |
| SetupTab.BatchSizeChangeAsWritten | components/SetupTab.tsx:152 | the handler as written changes only the batch size |
| SetupTab.BatchSizeOfTyped | components/SetupTab.tsx:152 | a typed non-zero integer becomes the batch size unchanged |
| SetupTab.NegativeBatchSizeAccepted | components/SetupTab.tsx:147-152 | typing "-3" gives batch size -3, breaks a valid configuration, and keeps the chunk index below any positive count |
| SetupTab.BatchSize | components/SetupTab.tsx:147-152 | the corrected size is always in 1..50 and agrees with the source on every value in 1..50 |
| SetupTab.BatchSizeChange | components/SetupTab.tsx:147-152 | the corrected handler changes only the batch size and keeps a valid configuration valid |
| SetupTab.BatchSizeOfAllowed | components/SetupTab.tsx:147-152 | every size the input allows is taken as typed |
| MonitoringTab.CompletedCount | components/MonitoringTab.tsx:21-22 | the count is at most the total, and it is 0 exactly when no item is done |
| MonitoringTab.ModelCount | components/MonitoringTab.tsx:24-25 | a model's count is at most the total |
| MonitoringTab.FlashCount | components/MonitoringTab.tsx:24 | definition; its properties are the row of MonitoringTab.CountsBounded |
| MonitoringTab.ProCount | components/MonitoringTab.tsx:25 | definition; its properties are the row of MonitoringTab.CountsBounded |
| MonitoringTab.CountsBounded | components/MonitoringTab.tsx:21-25 | Flash plus Pro is at most the done count, and equal to it when every done item records its model |
| MonitoringTab.CompletedCountAppend | components/MonitoringTab.tsx:21 | the done count of two concatenated lists is the sum of their counts |
| MonitoringTab.DownloadEnabled | components/MonitoringTab.tsx:67 | the download is enabled exactly when some item is done |
| MonitoringTab.UploadNotDownloadable | components/MonitoringTab.tsx:67 | a freshly loaded file has nothing to download |
| MonitoringTab.DownloadContent | components/MonitoringTab.tsx:27-36 | definition; its properties are the row of MonitoringTab.DownloadReadsBack |
| MonitoringTab.DownloadReadsBack | components/MonitoringTab.tsx:28 | the saved file parses back to one item per item on screen, done or not, each with its displayed text |
| LogText.Text | App.tsx:37-199 | definition; its properties are the rows of LogText.BatchDetail, LogText.TextShowsBatch and LogText.DistinctBatchTexts |
| LogText.BatchDetail | App.tsx:85-185 | what follows the batch number in a batch message never starts with a digit |
| LogText.TextShowsBatch | App.tsx:85-185 | every batch message opens with `[Batch ` and a number that `parseInt` reads back as the loop index plus one |
| LogText.DistinctBatchTexts | App.tsx:85-185 | messages about different batches have different texts |

## Left out

- Remote model calls: the SDK client, prompts, response schemas and temperature
  (services/geminiService.ts:8, 16-53, 69-112) are a foreign library and network I/O.
  Their outcomes come from `Pipeline.Remote`, and `JSON.parse` is the `decoded` field of
  a `Response`.
- `async`/`await`, the one-second delay between batches, and React's functional state
  updates are left out. The loop is sequential, so the model reads and writes the list
  directly, and the delay has no effect on state.
- `Math.random` and `new Date()` are parameters of `Pipeline.Remote`: the roll of each
  batch, and the id and timestamp of each log entry.
- Progress is an exact rational (`real`). Floating-point rounding of
  `(processed / n) * 100` is not modelled.
- Rendering and browser I/O are left out: the JSX, `FileReader`, the Blob download, the
  scroll effect and the API-key check. `DownloadContent` is the text the Blob would hold.
- The tab bar and `TranslationTab.tsx` are presentation only. The Apply button's gating
  is not a precondition of `HandleApplyContext`, which handles every id.
- App.App.HandleFileUpload: the `catch` branch that logs "Failed to parse SRT file." is
  not modelled, because `parseSRT` cannot throw on a string. The message is still
  defined in `Message`.
- Log messages are `Message` values. `LogText.Text` gives the exact strings; the
  contracts compare messages, not strings.
- JsText.IntToString: JavaScript prints integers of 10^21 and above in exponent form, and
  `parseInt` rounds values above 2^53. The model keeps every id exact and prints it in
  full decimal.
- JsText.IsWhitespace: strings are sequences of Unicode scalar values, not UTF-16 code
  units, so surrogate pairs are single characters.
- Pipeline.TranslationRun has no meaning for a batch size below 1, because the source's
  chunk loop never ends then. App.App.StartTranslation therefore requires a positive
  size on a non-empty list. App.App.ChangeBatchSize stores the size as the source
  computes it, so a negative typed size leaves the controller in a state where no run is
  defined (see Findings). The corrected rule, SetupTab.BatchSizeChange, is proved
  beside it and always gives a size a run accepts.

## Findings

| source | as written | input that shows it | evidently intended | confidence | as-written member | corrected member |
|---|---|---|---|---|---|---|
| components/SetupTab.tsx:152 | `parseInt(e.target.value) \|\| 10` keeps every non-zero parsed value, negative ones included; `min="1" max="50"` are only input hints | typing `-3` sets the batch size to -3; the chunk loop `i += batchSize` then never reaches `items.length`, and the run never ends | a batch size in 1..50, with 10 when the input is not a number | not executed | SetupTab.NegativeBatchSizeAccepted | SetupTab.BatchSizeChange |
