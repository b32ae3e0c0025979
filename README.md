# Sollevia core, modelled in Dafny

Sollevia is a wellness companion app. A user talks with "Mia", a coach
behind a streaming chat API. The app speaks Mia's replies sentence by
sentence, keeps a journal of past sessions, and tracks habits and progress
through lesson modules. This project models the logic at the core of the app
and proves properties of it:

- **Streaming speech.** The sentence chunker (`services/sentenceChunker.ts`)
  turns the streamed text deltas into speakable sentences. The speech queue
  (`services/ttsQueue.ts`) fetches audio for each sentence and plays the
  results. While `stopAll` is not called it plays them one at a time, in
  order. `stopAll` cancels the queue, but a `playNext` it overtook can
  start a second playback chain (see Findings).
- **The Mia stream.** `services/miaService.ts` parses the server-sent-event
  stream into text deltas. It simulates streaming for mock replies and builds
  the chat request body. It also validates the JSON session summary that Mia
  returns.
- **Local user data.** `services/userData.ts` keeps favourites, habits,
  completion dates, progress and the TTS flag in a key/value store.
- **The session journal.** `services/db.ts` holds the offline theme and
  emotion analysis, the fallback title and summary, the save rule and the
  history order.
- **Screen logic.**
  - `screens/HomeScreen.tsx`: habit sorting, module percentages, the habit
    wizard, the technique filter and "continue my journey".
  - `screens/ChatHistoryScreen.tsx`: history order, month groups and card
    text.
  - `screens/ModuleContentScreen.tsx`: paging, completion, reflection
    hand-off and media links.

Modules and files:

| file | module | what it holds |
|---|---|---|
| `text.dfy` | `Text` | strings: JavaScript whitespace and `trim`, search, `split`/`join`, ASCII lower-casing, decimal digits |
| `lists.dfy` | `Lists` | filter-out and toggle on sequences |
| `sorting.dfy` | `Sorting` | the stable sort behind `Array.prototype.sort`, as a function and in place on an array, plus the code-point string order |
| `types.dfy` | `Types` | the records of `types.ts` (habits, modules, history records, chat messages) |
| `sentence_chunker.dfy` | `SentenceChunking` | class `SentenceChunker` |
| `mia_service.dfy` | `MiaService` | SSE parsing, simulated streaming, the request body, summary validation |
| `tts_queue.dfy` | `TtsQueueModel` | an event-level model of the speech queue, plus class `TtsQueue` |
| `user_data.dfy` | `UserData` | storage transformations and class `Storage` |
| `session_store.dfy` | `SessionStore` | the offline analysis and class `HistoryStore` |
| `home_screen.dfy` | `HomeScreen` | the home-screen helpers |
| `chat_history.dfy` | `ChatHistory` | the history-screen helpers |
| `module_content.dfy` | `ModuleContent` | the content helpers and class `Viewer` (the page state) |

How the code's form carries over:

- Code that changes objects in place becomes Dafny classes. The chunker's
  buffer, the speech queue's fields, the key/value store, the journal's
  object store and the lesson viewer's page are each a class whose methods
  are specified by pure functions of the old state.
- Code made of expressions stays as functions. The rest of the core
  (filters, maps, reductions, the keyword rules) is written as functions
  with lemmas about them.
- The speech queue also has an event-level model. Its async `playNext`
  chains cannot be written as one Dafny method, so `TtsQueueModel.Step`
  interprets the events one at a time:
  - `enqueue`;
  - a fetch settling;
  - a waiting `playNext` resuming;
  - playback ending;
  - `stopAll`.
- The SSE line loops, the simulated-stream loop and `getHistory`'s sort are
  imperative methods. Each is proved equal to the function that specifies it.

Where the informal description of the app and its code disagree, the model
follows the code:

- "Audio of an entry cancelled by `stopAll` never plays" does not hold once
  a new entry is enqueued after the stop (see Findings). The model proves the
  claim for runs without a later enqueue, and proves it in general for a
  corrected, generation-checked queue.
- "Sentences are spoken one at a time, in order" holds only until `stopAll`.
  After a stop, a waiting `playNext` and the one started by a new `enqueue`
  can both play, and out of order (see Findings). The model proves the
  claim for runs without `stopAll`, and for every run of the corrected
  queue.

## Model

| member | source | states |
|---|---|---|
| `SentenceChunking.SentenceChunker.constructor` | services/sentenceChunker.ts:2-8 | a new chunker has an empty buffer |
| `SentenceChunking.SentenceChunker.AddDelta` | services/sentenceChunker.ts:10-13 | appends the delta to the buffer and emits exactly the sentences `Extract` finds in the new buffer; what stays buffered is `Extract`'s remainder |
| `SentenceChunking.SentenceChunker.Flush` | services/sentenceChunker.ts:15-21 | emits the trimmed buffer once if it is not blank, then empties the buffer |
| `SentenceChunking.SentenceChunker.Reset` | services/sentenceChunker.ts:23-25 | empties the buffer; the text received so far is kept |
| `SentenceChunking.SentenceChunker.ExtractSentences` | services/sentenceChunker.ts:27-59 | the regex loop plus the safety valve, equal to `Extract` on the old buffer; emitted text plus the new buffer is all text received |
| `SentenceChunking.Scan` | services/sentenceChunker.ts:29-45 | the recursive boundary scan: the final emission point lies between the start and the end of the text; `ScanTiles`, `ScanEmittable`, `ScanStep` and `ScanLeavesNoSentence` state what it emits and leaves |
| `SentenceChunking.BoundaryScan` | services/sentenceChunker.ts:29-45 | the `/[.!?]+\s/g` loop equals the recursive `Scan` and returns the same last index |
| `SentenceChunking.PunctRunEnd` | services/sentenceChunker.ts:29 | the end of the run of `.`, `!` and `?` characters starting at a position: every character before it is terminal and the one at it is not |
| `SentenceChunking.NextBoundary` | services/sentenceChunker.ts:33-34 | a found boundary lies after the start position and ends a terminal run followed by whitespace; it is no later than the end of any match at or after the start; no boundary is found exactly when no match starts there or later |
| `SentenceChunking.NextBoundaryLeftmost` | services/sentenceChunker.ts:33-34 | a found boundary is the end of a match at or after the start, and no match starts between the start and that match |
| `SentenceChunking.NextBoundaryLeast` | services/sentenceChunker.ts:33-45 | any boundary end at least two past the start has a found boundary at or before it |
| `SentenceChunking.BoundaryAfter` | services/sentenceChunker.ts:33-45 | from a position not just after a terminal character, the search finds a boundary at or before any later boundary end |
| `SentenceChunking.ScanRest` | services/sentenceChunker.ts:29-45 | if no boundary end up to the current position closes a long enough sentence after the last index, none up to the end of the text does after the final last index |
| `SentenceChunking.ScanLeavesNoSentence` | services/sentenceChunker.ts:29-45 | after the loop, no boundary end past the last index closes a sentence of 10 or more trimmed characters |
| `SentenceChunking.ExtractLeavesNoSentence` | services/sentenceChunker.ts:27-59 | when the valve does not fire, the buffer that stays holds no emittable sentence |
| `SentenceChunking.ScanTiles` | services/sentenceChunker.ts:33-45 | the raw pieces the scan emits concatenate to the input up to the last index, and that index is the start or a boundary end |
| `SentenceChunking.ScanEmittable` | services/sentenceChunker.ts:36-40 | each emitted piece ends at a boundary and trims to at least 10 characters |
| `SentenceChunking.ScanStep` | services/sentenceChunker.ts:34-40 | a match whose trimmed sentence is 10 or more characters is emitted and moves the last index; a shorter one is skipped and the last index stays |
| `SentenceChunking.Valve` | services/sentenceChunker.ts:47-53 | a cut point leaves room for the two-character separator; `ValveShape` states exactly when it fires and where |
| `SentenceChunking.ValveShape` | services/sentenceChunker.ts:47-58 | the valve fires exactly when the buffer exceeds 200 characters and the last `", "` or `"; "` lies past index 20; the cut is at that last separator |
| `SentenceChunking.ValveChunk` | services/sentenceChunker.ts:54-56 | the chunk cut by the valve trims to text ending in `,` or `;` |
| `SentenceChunking.ValveStep` | services/sentenceChunker.ts:48-57 | when the valve fires it emits the trimmed prefix through the separator and keeps the text after `", "` or `"; "` buffered |
| `SentenceChunking.NoValveStep` | services/sentenceChunker.ts:48-53 | when the valve does not fire, the remainder stays buffered unchanged |
| `SentenceChunking.Extract` | services/sentenceChunker.ts:27-59 | the scan followed by the valve; `ExtractLossless` (nothing lost), `ExtractSentenceShape` (what each sentence looks like) and `ExtractLeavesNoSentence` state its contract |
| `SentenceChunking.ExtractLossless` | services/sentenceChunker.ts:27-59 | no text is lost or duplicated: the raw emitted pieces followed by the remaining buffer equal the buffer before extraction |
| `SentenceChunking.Finish` | services/sentenceChunker.ts:43-58 | the valve applied to what the scan left; `FinishLossless`, `ValveStep` and `NoValveStep` state its contract |
| `SentenceChunking.FinishLossless` | services/sentenceChunker.ts:43-58 | the slice and the valve together lose no text |
| `SentenceChunking.ExtractSentenceShape` | services/sentenceChunker.ts:36-56 | every emitted sentence ends in `.`, `!` or `?` and had at least 10 characters, except a final valve chunk of an over-long buffer, which ends in `,` or `;` |
| `SentenceChunking.EmittableEndsTerminal` | services/sentenceChunker.ts:35-38 | a trimmed regex match ends with its terminal punctuation |
| `SentenceChunking.Sentences` | services/sentenceChunker.ts:36-38 | one trimmed sentence per raw piece |
| `SentenceChunking.SentencesSnoc` | services/sentenceChunker.ts:54-56 | appending a raw piece appends its trimmed form |
| `MiaService.Consume` | services/miaService.ts:25-95 | the deltas of a whole stream; `ConsumeSseStream` equals it, and `ChunkingIrrelevant`, `DoneIsFinal` and `ConsumeNoEmpty` state its contract |
| `MiaService.ConsumeSseStream` | services/miaService.ts:25-95 | the streaming loop yields exactly `Consume(chunks)`, and its full text is the concatenation of the deltas it reported |
| `MiaService.Lines` | services/miaService.ts:45-89 | the per-line fold in the main loop or the flush, stopping at `[DONE]`; `EventLines`, `FlushLines` and `LinesWithoutData` state its contract |
| `MiaService.EventLines` | services/miaService.ts:45-70 | the per-event line loop equals the `Lines` fold and keeps the full text equal to the concatenated deltas |
| `MiaService.FlushLines` | services/miaService.ts:73-89 | the flush of the trailing buffer equals the `Lines` fold in flush mode |
| `MiaService.MainLine` | services/miaService.ts:46-68 | one line of a complete event; `LinesWithoutData` and `MainAndFlushAgree` state which lines emit what |
| `MiaService.FlushLine` | services/miaService.ts:75-87 | one line of the trailing buffer; `MainAndFlushAgree` states how it differs from `MainLine` |
| `MiaService.LinesWithoutData` | services/miaService.ts:47-51 | empty lines, comment lines and lines without `data: ` emit nothing; an emitted delta is never empty and comes from a `data: ` line |
| `MiaService.MainAndFlushAgree` | services/miaService.ts:53-86 | the main loop and the flush treat a JSON line alike; a non-JSON data line is emitted trimmed by the main loop and ignored by the flush |
| `MiaService.DoneIsFinal` | services/miaService.ts:51 | once `[DONE]` is seen, any further chunks change nothing |
| `MiaService.ChunksAfterDone` | services/miaService.ts:49-51 | after `[DONE]`, appended chunks leave the state and the buffer unchanged |
| `MiaService.DoneStopsParts` | services/miaService.ts:45-51 | after `[DONE]`, further events are not read |
| `MiaService.BufferKeepsTail` | services/miaService.ts:42-43 | splitting on blank lines loses nothing, and the kept tail holds no complete event separator |
| `MiaService.Parts` | services/miaService.ts:45-70 | the complete events of one read in order; `PartsAppend` and `DoneStopsParts` state its contract |
| `MiaService.PartsAppend` | services/miaService.ts:45-70 | reading events in two batches is reading them all at once |
| `MiaService.Feed` | services/miaService.ts:39-43 | one read of the buffer; `BufferKeepsTail` and `FeedTwice` state its contract |
| `MiaService.FeedTwice` | services/miaService.ts:39-43 | appending two pieces of text to the buffer one after the other yields the same deltas and, unless `[DONE]` was seen, the same buffer as appending them together |
| `MiaService.ChunksFlat` | services/miaService.ts:36-72 | the read loop over several chunks ends as one step over their concatenation |
| `MiaService.ChunkingIrrelevant` | services/miaService.ts:25-95 | the deltas and the full text depend only on the concatenated stream text, not on how it is split into chunks |
| `MiaService.SameTextSameDeltas` | services/miaService.ts:25-95 | two chunkings of the same stream text yield the same deltas and full text |
| `Text.SplitExtend` | services/miaService.ts:42-43 | splitting `s + t` is splitting `s`, then splitting its last piece with `t` appended |
| `MiaService.ConsumeNoEmpty` | services/miaService.ts:56-66 | no reported delta is ever empty |
| `MiaService.SplitWs` | services/miaService.ts:116 | `split(/(\s+)/)` yields at least one element |
| `MiaService.SplitWsConcat` | services/miaService.ts:116 | the split pieces concatenate back to the text |
| `MiaService.SplitWsAlternates` | services/miaService.ts:116 | the pieces alternate: a word without whitespace, then a non-empty run of whitespace |
| `MiaService.Pairs` | services/miaService.ts:117-122 | the simulated chunks; `PairsConcat` and `SimulateStream` state its contract |
| `MiaService.PairsConcat` | services/miaService.ts:117-122 | the simulated chunks concatenate to the reply, and none is empty |
| `MiaService.SimulateStream` | services/miaService.ts:115-123 | the word-pair loop emits `Pairs(SplitWs(text))`; the chunks rebuild the reply exactly, and none is empty |
| `MiaService.OrElse` | services/miaService.ts:135-137 | `a \|\| b` on an optional string: the value when it is a non-empty string, otherwise the fallback |
| `MiaService.ChatRequestBody` | services/miaService.ts:131-141 | the message is sent as given; without a configuration the default space, bot and stored user id are used; with one, each of the space, bot and user ids is the configured value when it is present and non-empty, else that default (`OrElse`, the `||` fallback); `stream` is set exactly when a stream callback exists |
| `MiaService.RemoveAll` | services/miaService.ts:316 | `replace(/p/g, '')`; `RemoveAllSplit` states that no occurrence is left |
| `MiaService.RemoveAllSplit` | services/miaService.ts:316 | `replace(/p/g, '')` removes every occurrence of the pattern |
| `MiaService.CleanReply` | services/miaService.ts:316 | fences removed and trimmed; `CleanFenced` and `CleanPlain` state its contract |
| `MiaService.CleanFenced` | services/miaService.ts:316 | a reply wrapped in a `json` code fence cleans to the trimmed body |
| `MiaService.CleanPlain` | services/miaService.ts:316 | a reply without backticks cleans to its trimmed text |
| `MiaService.SummaryOf` | services/miaService.ts:279-335 | a summary comes back exactly when the reply is not a mock, is non-empty, parses, and has a non-empty title and summary |
| `MiaService.SummaryIgnoresFence` | services/miaService.ts:316-318 | the same summary comes back with or without a code fence |
| `MiaService.SummaryDefaults` | services/miaService.ts:321-329 | the title and summary are taken as parsed; a missing themes, emotions or actions list becomes empty |
| `TtsQueueModel.Step` | services/ttsQueue.ts:15-135 | one event of the queue; `InvStep`, `SerialStep` and `StartedWereEnqueued` state what it preserves |
| `TtsQueueModel.EnqueueStep` | services/ttsQueue.ts:15-25 | `enqueue`; `EnqueueSpec` states its contract |
| `TtsQueueModel.DriverStart` | services/ttsQueue.ts:83-93 | the synchronous part of `playNext`; `DriverStartSpec` and `InvDriverStart` state its contract |
| `TtsQueueModel.DriverStartSpec` | services/ttsQueue.ts:83-93 | `playNext` on an empty queue clears `isPlaying`; otherwise it takes the head of the queue and waits on its fetch |
| `TtsQueueModel.ControllerStep` | services/ttsQueue.ts:44-49 | `getOrCreateAbortController`; `ControllerReuse` states its contract |
| `TtsQueueModel.ControllerReuse` | services/ttsQueue.ts:44-49 | an existing controller is reused; otherwise a fresh one that is not aborted is created |
| `TtsQueueModel.EnqueueSpec` | services/ttsQueue.ts:15-25 | without configuration, `enqueue` does nothing; otherwise it appends the item under the live controller and starts `playNext` exactly when nothing was playing |
| `TtsQueueModel.SettleStep` | services/ttsQueue.ts:51-81 | a fetch settles; `AbortedFetchYieldsNothing` states its contract |
| `TtsQueueModel.AbortedFetchYieldsNothing` | services/ttsQueue.ts:51-81 | a fetch whose controller was aborted settles with no audio |
| `TtsQueueModel.Resolve` | services/ttsQueue.ts:95-120 | a driver gets its fetch result; `ResumeSkips`, `ResumePlays` and `StaleDriversEnd` state its contract |
| `TtsQueueModel.ResumeSkips` | services/ttsQueue.ts:95-98 | a resumed `playNext` that finds the queue stopped, or no audio, starts nothing and moves on to the next item; with the generation check, a driver from before the last `stopAll` just ends |
| `TtsQueueModel.ResumePlays` | services/ttsQueue.ts:100-120 | with audio while playing, the item starts, holding a blob URL and an audio element |
| `TtsQueueModel.PlaybackStep` | services/ttsQueue.ts:103-122 | playback ends; `PlaybackCleansUp` states its contract |
| `TtsQueueModel.PlaybackCleansUp` | services/ttsQueue.ts:103-122 | ending, an error or a rejected `play()` releases the blob URL and the audio element, then plays on; with the generation check, a driver whose audio `stopAll` detached just ends |
| `TtsQueueModel.StopAllStep` | services/ttsQueue.ts:27-42 | `stopAll`; `StopAllSpec` and `SerialStopAll` state its contract |
| `TtsQueueModel.Detach` | services/ttsQueue.ts:33-37 | clearing the handlers of the current audio keeps every driver; `StopAllSpec` states the effect |
| `TtsQueueModel.Cleanup` | services/ttsQueue.ts:129-135 | `cleanupCurrent`; `TtsQueue.CleanupCurrent` and `StopAllSpec` state its effect |
| `TtsQueueModel.StopAllSpec` | services/ttsQueue.ts:27-42 | `stopAll` empties the queue, clears `isPlaying`, aborts and drops the controller, detaches the current audio and releases the blob URL; a second call changes nothing the code can observe |
| `TtsQueueModel.InvStep` | services/ttsQueue.ts:15-135 | every event preserves the queue invariant: an idle queue is empty, the items that left the queue (taken by a `playNext` or dropped by `stopAll`) followed by the queued ones are exactly the enqueued items in order, every started item, like the item of every pending `playNext`, is one that left the queue, and the live controller is never an aborted one |
| `TtsQueueModel.InvEnqueued` | services/ttsQueue.ts:83-120 | under the invariant every started item and every pending `playNext`'s item was enqueued |
| `TtsQueueModel.StartedWereEnqueued` | services/ttsQueue.ts:15-135 | along any run from the initial queue, only enqueued items are ever started or awaited |
| `TtsQueueModel.InvRun` | services/ttsQueue.ts:15-135 | the invariant holds along any run of events |
| `TtsQueueModel.InitInv` | services/ttsQueue.ts:9-13 | the initial queue satisfies the invariant, is empty and is idle |
| `TtsQueueModel.NoPlaybackAfterStop` | services/ttsQueue.ts:27-42 | after `stopAll`, nothing new is played unless something is enqueued again |
| `TtsQueueModel.StalePlayAfterStop` | services/ttsQueue.ts:89-98 | as written: an item enqueued before `stopAll` can still be played after a later enqueue |
| `TtsQueueModel.GuardedNoStalePlay` | services/ttsQueue.ts:95-98 | with a generation check at the guard, no item enqueued before `stopAll` is ever played after it |
| `TtsQueueModel.InvDriverStart` | services/ttsQueue.ts:83-93 | `playNext` preserves the queue invariant |
| `TtsQueueModel.AtMostOne` | services/ttsQueue.ts:83-98 | when every pending `playNext` is live and at most one is live, there is at most one |
| `TtsQueueModel.DriversPush` | services/ttsQueue.ts:89-93 | a new `playNext` waiting on the head of the queue, joining pending ones none of which is live, becomes the one live driver, and its item lies between the started and the queued items |
| `TtsQueueModel.SerialInit` | services/ttsQueue.ts:8-13 | the initial queue satisfies the ordering invariant: no driver, nothing started |
| `TtsQueueModel.SerialStep` | services/ttsQueue.ts:15-135 | every event except `stopAll` preserves the ordering invariant: at most one live `playNext` (one waiting on the current fetch, or one whose audio is attached), which holds only while playing, waits on an item numbered after every started item and before every queued one, or holds the current audio; started items and queued items are each in enqueue order, and every started item precedes every queued one; as written, every pending `playNext` is live. With the generation check, `stopAll` preserves it too |
| `TtsQueueModel.SerialRun` | services/ttsQueue.ts:15-135 | the ordering invariant holds along any run of such events |
| `TtsQueueModel.SerialStopAll` | services/ttsQueue.ts:27-42 | with the generation check, `stopAll` keeps the ordering invariant and leaves no live `playNext` |
| `TtsQueueModel.PlaysInOrder` | services/ttsQueue.ts:15-122 | as written, in a run without `stopAll`, at most one `playNext` is pending, items start in strictly increasing enqueue order, and each started item was enqueued |
| `TtsQueueModel.GuardedPlaysInOrder` | services/ttsQueue.ts:15-122 | with the generation check, in every run, at most one `playNext` is live, any attached audio is the current audio, and items start in enqueue order |
| `TtsQueueModel.SerialAttached` | services/ttsQueue.ts:100-110 | under the ordering invariant, a `playNext` whose audio is attached holds the current audio |
| `TtsQueueModel.StaleDriversEnd` | services/ttsQueue.ts:95-122 | with the generation check, a `playNext` that is not live ends without touching anything else: a stale fetch result or a rejected `play()` removes it, and the end of detached audio changes nothing |
| `TtsQueueModel.OverlapAfterStop` | services/ttsQueue.ts:15-98 | as written: enqueue `"a"`, `stopAll`, enqueue `"b"` and `"c"`, then the old `playNext` wakes with no audio and takes `"c"`; `"c"` starts before `"b"`, and both audio elements end up attached |
| `TtsQueueModel.TtsQueue.constructor` | services/ttsQueue.ts:8-13 | the fields start empty and idle |
| `TtsQueueModel.TtsQueue.Enqueue` | services/ttsQueue.ts:15-25 | the object steps exactly as the model's `Enqueue` event |
| `TtsQueueModel.TtsQueue.StopAll` | services/ttsQueue.ts:27-42 | the object steps exactly as the model's `StopAll` event |
| `TtsQueueModel.TtsQueue.GetOrCreateAbortController` | services/ttsQueue.ts:44-49 | equals `ControllerStep` on the fields |
| `TtsQueueModel.TtsQueue.PlayNext` | services/ttsQueue.ts:83-93 | equals `DriverStart` on the fields |
| `TtsQueueModel.TtsQueue.FetchSettled` | services/ttsQueue.ts:51-81 | a fetch settles as the model's `FetchSettled` event |
| `TtsQueueModel.TtsQueue.Resume` | services/ttsQueue.ts:93-120 | a waiting `playNext` resumes as the model's `Resume` event |
| `TtsQueueModel.TtsQueue.PlaybackDone` | services/ttsQueue.ts:106-122 | playback ends as the model's `PlaybackDone` event |
| `TtsQueueModel.TtsQueue.CleanupCurrent` | services/ttsQueue.ts:129-135 | releases the blob URL and drops the audio element |
| `UserData.FavoritesIn` | services/userData.ts:51-59 | the stored favourites list, or empty when the key is absent or holds text that does not parse |
| `UserData.HabitsIn` | services/userData.ts:77-85 | the stored habits, or empty |
| `UserData.ProgressIn` | services/userData.ts:141-149 | the stored progress map, or empty |
| `UserData.TtsEnabledIn` | services/userData.ts:130-132 | the flag is on exactly when the stored text is `"true"` |
| `UserData.TtsRoundTrip` | services/userData.ts:130-136 | writing the flag and reading it back gives the flag |
| `UserData.StoredUserId` | services/userData.ts:39-46 | the stored non-empty user id; `UserIdStep` and `UserIdStable` state its contract |
| `UserData.UserIdStep` | services/userData.ts:39-46 | a stored id is returned unchanged; otherwise `user_` plus the random suffix is stored and returned |
| `UserData.UserIdStable` | services/userData.ts:39-46 | a second call returns the same id and writes nothing |
| `UserData.Storage.GetUserId` | services/userData.ts:39-46 | updates the store as `UserIdStep` |
| `Lists.Toggle` | services/userData.ts:61-72 | the id ends up present exactly when it was absent; other entries are untouched |
| `Lists.ToggleTwiceAbsent` | services/userData.ts:61-72 | toggling a missing id twice restores the list |
| `Lists.ToggleTwicePresent` | services/userData.ts:61-72 | toggling a present id twice removes every copy and appends one at the end |
| `Lists.ToggleNoDups` | services/userData.ts:61-72 | toggling keeps a duplicate-free list free of duplicates |
| `Lists.RemoveAll` | services/userData.ts:68 | `filter(f => f !== id)` keeps exactly the other entries |
| `Lists.RemoveAllCount` | services/userData.ts:68 | the filter keeps every other element as often as before |
| `UserData.Storage.ToggleFavorite` | services/userData.ts:61-72 | writes and returns `Toggle` of the stored favourites |
| `UserData.FindHabit` | services/userData.ts:89 | `findIndex`: the first habit with the id, or none when none has it |
| `UserData.UpsertHabit` | services/userData.ts:87-101 | `saveHabit`; `UpsertSpec`, `UpsertIdempotent` and `DeleteAfterUpsert` state its contract |
| `UserData.UpsertSpec` | services/userData.ts:87-101 | a saved habit is present afterwards; an existing id is replaced in place (same length, others untouched); a new id is appended |
| `UserData.UpsertIdempotent` | services/userData.ts:87-101 | saving the same habit twice equals saving it once |
| `UserData.Storage.SaveHabit` | services/userData.ts:87-101 | writes and returns `UpsertHabit` of the stored habits |
| `UserData.DeleteHabit` | services/userData.ts:103-108 | exactly the habits with other ids remain |
| `UserData.DeleteAppend` | services/userData.ts:103-108 | deleting distributes over concatenation, so the remaining habits keep their relative order |
| `UserData.DeleteAbsent` | services/userData.ts:103-108 | deleting an unknown id changes nothing |
| `UserData.DeleteAfterUpsert` | services/userData.ts:87-108 | saving a habit and then deleting its id equals deleting the id |
| `UserData.Storage.DeleteHabitById` | services/userData.ts:103-108 | writes and returns `DeleteHabit` of the stored habits |
| `UserData.ToggleCompletion` | services/userData.ts:110-125 | only habits with the id change, and only their completion dates, which are toggled for the date |
| `UserData.ToggleCompletionFlips` | services/userData.ts:110-125 | the date becomes completed exactly when it was not |
| `UserData.ToggleCompletionTwice` | services/userData.ts:110-125 | toggling a date twice restores the habits |
| `UserData.Storage.ToggleHabitCompletion` | services/userData.ts:110-125 | writes and returns `ToggleCompletion` of the stored habits |
| `UserData.Storage.SetTtsEnabled` | services/userData.ts:134-136 | stores `"true"`/`"false"`; reading back gives the flag |
| `UserData.AddOnce` | services/userData.ts:161-163 | `includes`-then-`push`: the element is present afterwards and nothing else changes membership |
| `UserData.RecordProgress` | services/userData.ts:151-174 | the progress map gains the module and keeps every other key |
| `UserData.RecordProgressSpec` | services/userData.ts:151-174 | other modules are untouched; a truthy sub-module id is recorded among the sub-modules, otherwise the step index among the steps |
| `UserData.RecordProgressIdempotent` | services/userData.ts:151-174 | recording the same progress twice equals recording it once |
| `UserData.RecordProgressNoDups` | services/userData.ts:151-174 | recorded lists never hold duplicates |
| `UserData.Storage.SaveProgress` | services/userData.ts:151-174 | writes and returns `RecordProgress` of the stored progress |
| `SessionStore.HitIndices` | services/db.ts:75-92 | lists, in rule order, exactly the keyword rules that hit the text |
| `SessionStore.Matched` | services/db.ts:75-92 | the labels whose keyword occurs, in rule order; `HitIndices`, `MatchedEmpty`, `MatchedNoDups` and `MatchedLabel` state its contract |
| `SessionStore.MatchedEmpty` | services/db.ts:75-92 | nothing is matched exactly when no rule's keyword occurs |
| `SessionStore.MatchedNoDups` | services/db.ts:74-97 | with distinct labels, matched labels are distinct |
| `SessionStore.MatchedLabel` | services/db.ts:75-92 | every matched label comes from a rule whose keyword occurs in the text |
| `SessionStore.WithDefault` | services/db.ts:82-83 | never empty; `WithDefaultSpec` states its contract |
| `SessionStore.WithDefaultSpec` | services/db.ts:82-83 | `General Well-being` appears exactly when no theme matched, and then alone |
| `SessionStore.AnalyzeThemes` | services/db.ts:71-83 | the themes are never empty |
| `SessionStore.AnalyzeEmotions` | services/db.ts:85-92 | the emotions found; `AnalysisSpec` and `EmotionLabels` state its contract |
| `SessionStore.AnalysisSpec` | services/db.ts:71-97 | `General Well-being` appears exactly when no theme keyword occurs, and then alone; themes and emotions have no duplicates |
| `SessionStore.ThemeLabels` | services/db.ts:75-80 | the six theme labels are distinct and differ from the default |
| `SessionStore.EmotionLabels` | services/db.ts:86-92 | the seven emotion labels are distinct and contain no `R` |
| `SessionStore.RecordTitle` | services/db.ts:103-117 | a title other than `Check-in` and without `Reflection` is kept |
| `SessionStore.FallbackTitle` | services/db.ts:106-116 | on a retitle: first theme plus ` Reflection`, else `Navigating ` plus the first emotion, else the part of day |
| `SessionStore.DaypartTitle` | services/db.ts:112-115 | the part-of-day title; `DaypartTitleShape` and `FallbackTitle` state its contract |
| `SessionStore.DaypartTitleShape` | services/db.ts:112-115 | a part-of-day title never triggers another retitle |
| `SessionStore.RecordTitleIdempotent` | services/db.ts:103-117 | retitling the retitled title changes nothing |
| `SessionStore.RecordTitleStable` | services/db.ts:103-117 | a title produced by the retitle rule is never retitled again, whatever the first emotion, as long as it contains no `R` |
| `SessionStore.JoinAnd` | services/db.ts:122-125 | the list in prose; `JoinAndListing` and `ListingMentions` state its contract |
| `SessionStore.JoinAndListing` | services/db.ts:122-125 | the `slice(0, -1).join(', ') + ' and ' + last` join is one item alone, or commas with ` and ` before the last |
| `SessionStore.ListingMentions` | services/db.ts:122-125 | every item occurs in the joined list |
| `SessionStore.SummaryMentions` | services/db.ts:119-139 | the summary mentions every theme and every emotion, lower-cased |
| `SessionStore.SummaryOpening` | services/db.ts:121-128 | with themes, the summary opens with the themes sentence |
| `SessionStore.FallbackRecord` | services/db.ts:100-148 | the record carries the analysed themes and emotions, the two fixed actions, the retitled title and the fallback summary |
| `SessionStore.FallbackSummary` | services/db.ts:119-139 | the fallback summary; `FallbackSummarySpec`, `SummaryMentions` and `SummaryOpening` state its contract |
| `SessionStore.FallbackSummarySpec` | services/db.ts:119-139 | the fallback summary opens with the themes sentence and mentions every theme and emotion |
| `SessionStore.SessionRecord` | services/db.ts:150-189 | no record without a user message; otherwise id = decimal time, Mia's fields when it answered (its empty title replaced), else the local fallback: title and themes from the text, emotions from the emotion analysis of the text, and the fallback summary built from those themes and emotions |
| `SessionStore.HistoryStore.constructor` | services/db.ts:19-24 | the store starts empty |
| `SessionStore.HistoryStore.SaveChatSession` | services/db.ts:150-199 | saves exactly when a user message exists and the id is new; then the record is appended, otherwise nothing changes |
| `SessionStore.HistoryStore.GetHistory` | services/db.ts:32-56 | returns the records sorted in place by `Sort(records, NewestFirst)` |
| `SessionStore.NewestFirst` | services/db.ts:44 | the history sort key; `NewestFirstComparator` and `HistoryOrder` state its contract |
| `SessionStore.NewestFirstComparator` | services/db.ts:44 | the key order is the comparator `Number(b.id) - Number(a.id) < 0` |
| `SessionStore.HistoryOrder` | services/db.ts:44 | the history is a permutation of the records, larger ids first, records with equal ids in stored order |
| `SessionStore.HistoryByTime` | services/db.ts:181 | an id written as `Date.now().toString()` reads back as its time |
| `Sorting.SortInPlace` | services/db.ts:44 | sorting an array in place leaves `Sort` of its old contents |
| `Sorting.SortPermutes` | services/db.ts:44 | sorting is a permutation |
| `Sorting.SortSorted` | services/db.ts:44 | the result is sorted by the key |
| `Sorting.SortStable` | services/db.ts:44 | elements with equal keys keep their relative order |
| `Sorting.BelowOrder` | screens/HomeScreen.tsx:211-219 | the key order is a strict total order |
| `Text.DecimalRoundTrip` | services/db.ts:181 | reading back a decimal string gives the number |
| `HomeScreen.HabitKey` | screens/HomeScreen.tsx:211-219 | time then title; `HabitKeyComparator` and `TimedBelowUntimed` state its contract |
| `HomeScreen.HabitKeyComparator` | screens/HomeScreen.tsx:211-219 | habits compare by time of day (untimed as `99:99`), then by title |
| `HomeScreen.TimedBelowUntimed` | screens/HomeScreen.tsx:213-217 | a timed habit sorts before an untimed one |
| `HomeScreen.SortHabits` | screens/HomeScreen.tsx:211-219 | `sortHabits`; `SortHabitsSpec` states its contract |
| `HomeScreen.SortHabitsSpec` | screens/HomeScreen.tsx:211-219 | the sorted habits are a permutation, sorted by the key, with timed habits before untimed ones |
| `HomeScreen.HabitsOn` | screens/HomeScreen.tsx:763 | keeps exactly the habits scheduled on the day |
| `HomeScreen.TodaysHabits` | screens/HomeScreen.tsx:763 | today's habits sorted; `TodaysHabitsSpec` states its contract |
| `HomeScreen.TodaysHabitsSpec` | screens/HomeScreen.tsx:763 | today's list holds exactly the habits scheduled today, sorted |
| `HomeScreen.Percent` | screens/HomeScreen.tsx:192-208 | `Math.round(completed / total * 100)` on exact numbers: the nearest integer, halves rounded up |
| `HomeScreen.PercentBounds` | screens/HomeScreen.tsx:192-208 | all done gives 100 and nothing done gives 0; the value is 0 exactly below half a percent and 100 exactly from 99.5 %; never above 100 while completed is at most total |
| `HomeScreen.PercentMonotone` | screens/HomeScreen.tsx:192-208 | more completed never lowers the percentage |
| `HomeScreen.ModulePercentage` | screens/HomeScreen.tsx:192-208 | counts completed sub-modules when the module has them, else completed steps, else 0 |
| `HomeScreen.RecordingRaisesPercentage` | screens/HomeScreen.tsx:192-208 | saving progress never lowers a module's percentage |
| `HomeScreen.BuildHabit` | screens/HomeScreen.tsx:126-150 | a blank title saves nothing |
| `HomeScreen.BuildHabitSpec` | screens/HomeScreen.tsx:131-144 | the habit keeps the title; custom exactly without a chosen sub-module; daily means all seven days; an edit keeps its id and dates, a new habit gets the time id and no dates |
| `HomeScreen.EditKeepsCount` | screens/HomeScreen.tsx:126-150 | editing an existing habit does not change how many habits there are |
| `HomeScreen.DaysForFrequency` | screens/HomeScreen.tsx:281-286 | the preset days are distinct week days |
| `HomeScreen.TapDay` | screens/HomeScreen.tsx:311-320 | weekly selects just that day; otherwise the tap toggles it and leaves the other days |
| `HomeScreen.TapDaySpec` | screens/HomeScreen.tsx:311-320 | the selection stays duplicate-free week days; tapping an unselected day twice restores it |
| `HomeScreen.TechniquesOf` | screens/HomeScreen.tsx:416-420 | exactly the technique sub-modules of every module |
| `HomeScreen.AllTechniques` | screens/HomeScreen.tsx:416-420 | the practice list; `AllTechniquesSpec` states its contract |
| `HomeScreen.AllTechniquesSpec` | screens/HomeScreen.tsx:416-420 | the technique list is a permutation of them, in title order |
| `HomeScreen.Displayed` | screens/HomeScreen.tsx:423-429 | never longer than the list; `DisplayedSpec` states exactly what is shown |
| `HomeScreen.DisplayedSpec` | screens/HomeScreen.tsx:423-429 | shown exactly when favourite (if filtered) and matching the search; no filter shows everything |
| `HomeScreen.JourneyOrder` | screens/HomeScreen.tsx:766-770 | the journey order is a permutation of the modules (same multiset, same members), its categories never go back from understanding to triggers to coping, and each category keeps its modules in their original order |
| `HomeScreen.InCategory` | screens/HomeScreen.tsx:767-769 | every module kept has the category |
| `HomeScreen.InCategoryAppend` | screens/HomeScreen.tsx:767-769 | filtering a concatenation is concatenating the filtered parts |
| `HomeScreen.InCategoryAgain` | screens/HomeScreen.tsx:767-769 | filtering a category's modules again keeps them all for that category and none for another |
| `HomeScreen.InCategoryShare` | screens/HomeScreen.tsx:766-770 | the three category filters together hold every module exactly once |
| `HomeScreen.JourneyCategories` | screens/HomeScreen.tsx:766-770 | each category of the journey order lists the same modules in the same order as in the input |
| `HomeScreen.JourneyRanks` | screens/HomeScreen.tsx:766-770 | understanding modules, then triggers modules, then coping modules are in category rank |
| `HomeScreen.JourneyFacts` | screens/HomeScreen.tsx:766-770 | the three filters concatenated are a permutation of the modules in category rank, keeping each category's order |
| `HomeScreen.InProgress` | screens/HomeScreen.tsx:772-775 | a module strictly between 0 and 100 %; `InProgressOf` and `ContinueJourneySpec` use it |
| `HomeScreen.InProgressOf` | screens/HomeScreen.tsx:772-775 | exactly the modules strictly between 0 and 100 % |
| `HomeScreen.NotStarted` | screens/HomeScreen.tsx:777-780 | a module at 0 %; `NotStartedOf` and `ContinueJourneySpec` use it |
| `HomeScreen.NotStartedOf` | screens/HomeScreen.tsx:777-780 | exactly the modules at 0 % |
| `HomeScreen.ContinueJourney` | screens/HomeScreen.tsx:782 | `continueJourneyModules`; `ContinueJourneySpec` states its contract |
| `HomeScreen.ContinueJourneySpec` | screens/HomeScreen.tsx:782 | at most three modules, each in progress or not started, in-progress ones first; exactly three, or all the candidates when fewer, taken from the front of the in-progress modules followed by the untouched ones in journey order |
| `HomeScreen.FirstThree` | screens/HomeScreen.tsx:782 | the first three of in-progress modules followed by untouched ones are at most three, in-progress ones first, and a prefix of that list of length min(3, its length) |
| `ChatHistory.SortedHistory` | screens/ChatHistoryScreen.tsx:31-39 | `sortedHistory`; `SortedHistorySpec` and `SortedHistoryMatchesStore` state its contract |
| `ChatHistory.SortedHistorySpec` | screens/ChatHistoryScreen.tsx:31-39 | the sorted history is a permutation, newest `parseInt(id)` first, ties in stored order |
| `ChatHistory.ParseIntDigits` | screens/ChatHistoryScreen.tsx:33-36 | on an all-digit id `parseInt` and `Number` agree |
| `ChatHistory.SortedHistoryMatchesStore` | screens/ChatHistoryScreen.tsx:31-39 | with all-digit ids, the screen's order is the store's order |
| `ChatHistory.MonthList` | screens/ChatHistoryScreen.tsx:52 | one month label per record |
| `ChatHistory.InMonth` | screens/ChatHistoryScreen.tsx:42-49 | exactly the records of the month |
| `ChatHistory.Groups` | screens/ChatHistoryScreen.tsx:42-49 | `groupedHistory`; `GroupsSpec` states its contract |
| `ChatHistory.GroupsSpec` | screens/ChatHistoryScreen.tsx:42-49 | a month has a group exactly when some record falls in it, and the group lists that month's records in order |
| `ChatHistory.Distinct` | screens/ChatHistoryScreen.tsx:52 | `Array.from(new Set(..))` keeps exactly the same elements |
| `ChatHistory.DistinctSpec` | screens/ChatHistoryScreen.tsx:52 | ...without duplicates, in order of first appearance |
| `ChatHistory.UniqueMonths` | screens/ChatHistoryScreen.tsx:52 | `uniqueMonths`; `UniqueMonthsSpec` states its contract |
| `ChatHistory.UniqueMonthsSpec` | screens/ChatHistoryScreen.tsx:52 | the months are distinct, and are exactly the groups, none empty |
| `ChatHistory.CardTitle` | screens/ChatHistoryScreen.tsx:72 | the title, or `Journal Entry` when empty |
| `ChatHistory.Shorten` | screens/ChatHistoryScreen.tsx:94 | titles up to 50 characters are kept; longer ones become their first 50 characters plus `...` |
| `ChatHistory.ShortenIdempotent` | screens/ChatHistoryScreen.tsx:94 | shortening twice equals shortening once |
| `ChatHistory.FirstUser` | screens/ChatHistoryScreen.tsx:75 | the first user message; `FindUser` and `TeaserFallback` state what `find` returns |
| `ChatHistory.FindUser` | screens/ChatHistoryScreen.tsx:75 | `find`: the first user message, or none when there is no user message |
| `ChatHistory.Teaser` | screens/ChatHistoryScreen.tsx:75 | never empty; the summary when there is one |
| `ChatHistory.TeaserFallback` | screens/ChatHistoryScreen.tsx:75 | without a summary: the first user message's non-empty text, else `No preview available...` |
| `ChatHistory.Pill` | screens/ChatHistoryScreen.tsx:105 | the first entry when non-empty, else the default |
| `ChatHistory.Pills` | screens/ChatHistoryScreen.tsx:105-108 | the theme pill is the first theme or `Reflection`, the emotion pill the first emotion or `Check-in` |
| `ModuleContent.IsYouTube` | screens/ModuleContentScreen.tsx:235-238 | `isYouTube`; `YouTubeLinks` states its contract |
| `ModuleContent.YouTubeLinks` | screens/ModuleContentScreen.tsx:235-238 | watch links and short links are recognised as YouTube |
| `ModuleContent.RunLength` | screens/ModuleContentScreen.tsx:252-264 | the longest prefix of `[a-zA-Z0-9_-]` characters |
| `ModuleContent.FirstMatch` | screens/ModuleContentScreen.tsx:252-264 | the leftmost position where the marker is followed by an id character |
| `ModuleContent.Capture` | screens/ModuleContentScreen.tsx:260-261 | a non-empty id-character capture; `CaptureSpec` states which |
| `ModuleContent.CaptureSpec` | screens/ModuleContentScreen.tsx:252-264 | no capture exactly when the pattern matches nowhere; otherwise the maximal id run after the leftmost match |
| `ModuleContent.DriveId` | screens/ModuleContentScreen.tsx:252-264 | `getGoogleDriveId`, a non-empty id when found; `DriveIdSpec` and `DriveIdRoundTrip` state its contract |
| `ModuleContent.DriveIdSpec` | screens/ModuleContentScreen.tsx:252-264 | `/file/d/` is tried first, then `id=`; none exactly when neither matches |
| `ModuleContent.PreviewUrl` | screens/ModuleContentScreen.tsx:429 | the Drive preview address; `DriveIdRoundTrip` states that the id reads back from it |
| `ModuleContent.DriveIdRoundTrip` | screens/ModuleContentScreen.tsx:252-264 | the id is recovered from the preview URL built from it |
| `ModuleContent.NativeAudioAsWritten` | screens/ModuleContentScreen.tsx:48 | `isNativeAudioStep` as written; `StuckAudioPage` shows its gap |
| `ModuleContent.ScrollCompletionAsWritten` | screens/ModuleContentScreen.tsx:49 | `isScrollCompletionStep` as written; `StuckAudioPage` and `Viewer.CheckScroll` use it |
| `ModuleContent.StuckAudioPage` | screens/ModuleContentScreen.tsx:48 | as written: a `youtu.be` audio page counts as native audio, shows no player and offers no way to complete |
| `ModuleContent.EveryPageCompletes` | screens/ModuleContentScreen.tsx:46-49 | with native audio defined as "player shown", every page has a completion route |
| `ModuleContent.ReflectionFor` | screens/ModuleContentScreen.tsx:156-162 | the prompt is passed on; the title is `Reflection: ` followed by the sub-module's title when there is one and the module's otherwise; a truthy sub-module bot or space id wins over the module's |
| `ModuleContent.Viewer.constructor` | screens/ModuleContentScreen.tsx:36-38 | the viewer opens on the first page with the stored progress |
| `ModuleContent.Viewer.TotalSteps` | screens/ModuleContentScreen.tsx:37 | one page for a sub-module, else the module's step count |
| `ModuleContent.Viewer.Page` | screens/ModuleContentScreen.tsx:38 | a page exists whenever there is a step |
| `ModuleContent.Viewer.MarkComplete` | screens/ModuleContentScreen.tsx:51-53 | records progress for the current step or sub-module |
| `ModuleContent.Viewer.StartReflection` | screens/ModuleContentScreen.tsx:149-163 | marks complete, then opens the reflection only when there is a prompt |
| `ModuleContent.Viewer.Next` | screens/ModuleContentScreen.tsx:133-140 | advances before the last page; on the last page starts the reflection |
| `ModuleContent.Viewer.Prev` | screens/ModuleContentScreen.tsx:142-147 | goes back one page, never below the first |
| `ModuleContent.Viewer.CheckScroll` | screens/ModuleContentScreen.tsx:56-66 | marks complete exactly on a page that completes by scrolling under the rule as written (`ScrollCompletionAsWritten`) and is scrolled to within 50 px of the bottom, or whose content fits |

## Left out

- Asynchrony of the speech queue.
  - Microtask ordering is not modelled: the model lets the environment pick
    which pending step runs next.
  - The `catch` of `playNext` (services/ttsQueue.ts:123-126) is not reached
    in the model, because the modelled fetch never rejects.
  - The `if (!this.currentAudio)` early resolve (line 104) cannot happen
    right after the audio is created.
- The network, audio and browser are abstracted.
  - `fetch`, the ElevenLabs response, `Audio`, `URL.createObjectURL` and
    `revokeObjectURL` become abstract events and fresh handles.
  - The text decoder, the reader and the `onStreamUpdate` callback are left
    out: a stream is a sequence of already decoded string chunks, and the
    deltas it reports are returned.
  - The mock reply generator (`services/mockAi.ts`) is not part of this model.
  - The 30 ms delays are not modelled.
  - `sendMessageToMia`'s fallback chain and the non-streaming reply shapes
    (lines 143-234) are not part of this model.
- `JSON.parse` and `JSON.stringify` are parameters, or stored values are
  datatypes.
  - A JSON parse is a function parameter that returns a payload or "not
    JSON".
  - Stored values are the `Stored` datatype.
  - `UserData.FavoritesIn`, `UserData.HabitsIn` and the other readers: a
    `Raw` value under a key that holds JSON stands for text that does not
    parse, and reads as the default, as the `try/catch` around `JSON.parse`
    makes it. Text that parses to JSON of another shape (`{}`, a number) is
    not modelled. The source returns such a value as it is
    (services/userData.ts:54, 80, 144), and the mutators then throw: with
    `{}` stored, `toggleFavorite` fails at line 63.
  - localStorage write failures are not modelled.
- Storage engines. `initDB`, IndexedDB transactions, errors that reject,
  `deleteHistoryRecord` (services/db.ts:58-68) and the store's own key order
  are not modelled: the object store is a sequence of records in insertion
  order, and `add` refuses a duplicate id.
- Clocks and randomness are parameters. `Date.now()`, `new Date()`, the hour
  of day, `Math.random()` suffixes and `toLocaleDateString` (the `monthOf`
  parameter of the history screen) are all passed in.
- `Sorting.StrBelow` and `Sorting.Codes`: `localeCompare` is modelled as
  lexicographic order on Unicode code points. Locale collation is not
  modelled. JavaScript compares UTF-16 code units, which orders characters
  above U+FFFF differently from code points.
- `SentenceChunking.MinSentenceLength`, `SentenceChunking.SafetyValveLength`
  and `SentenceChunking.MinBreakPoint` (10, 200 and 20): the model counts
  Unicode characters, while `length` in the source counts UTF-16 code units.
  Text with characters above U+FFFF, such as emoji, reaches these limits at
  fewer characters in the source.
- `ChatHistory.Shorten`: the 50-character limit and the `substring(0, 50)`
  cut count Unicode characters, not UTF-16 code units. In the source a
  title with emoji is cut earlier, and may be cut inside a surrogate pair.
- `Text.AsciiLower`: `toLowerCase` lowers only `A`-`Z`. Other scripts are not
  modelled.
- `HomeScreen.Percent`: computed on exact rationals (`Math.round` of
  `c / t * 100`). Floating-point rounding of the quotient is not modelled.
- `ChatHistory.ParseIntValue`: reads the leading decimal digits. A leading
  sign or whitespace is not modelled, and `NaN` is read as 0.
- `SessionStore.NumberKey`: the same applies to `Number(id)`. Ids the app
  writes are always all digits.
- `SessionStore.SessionRecord`: an empty title returned by Mia cannot occur,
  because `generateMiaSummary` rejects it. The replacement rule is modelled
  anyway.
- `TtsQueueModel.TtsQueue.StopAll`: does not restate the invariant
  `Valid()`. `TtsQueueModel.InvStopAll` proves it of the model step that the
  method equals.
- `ModuleContent.Viewer`:
  - progress is a field of the viewer, not a shared store;
  - the reflection hand-off (`onNavigate`) is recorded as a value.
- Speech synthesis (`window.speechSynthesis`), the reflection widget, the
  YouTube embed regex and the rendering of the screens are not modelled.

## Findings

| source | as written | input that shows it | evidently intended | confidence | as-written member | corrected member |
|---|---|---|---|---|---|---|
| services/ttsQueue.ts:95 | the guard after the fetch checks only `isPlaying`, which a later `enqueue` sets again | enqueue `"a"`, its fetch resolves, `stopAll`, enqueue `"b"`, then the first `playNext` resumes and plays `"a"` | audio of an entry discarded by `stopAll` is never played | low, not executed (needs the fetch to settle before the stop and the old `playNext` to resume after the new enqueue) | `TtsQueueModel.StalePlayAfterStop` | `TtsQueueModel.GuardedNoStalePlay` |
| services/ttsQueue.ts:95-98 | a `playNext` that `stopAll` overtook wakes after a new `enqueue` has set `isPlaying` again, and goes on to start a second `playNext` chain | `enqueue("a")`, `stopAll`, `enqueue("b")`, `enqueue("c")`, the fetch of `"a"` settles aborted and its `playNext` resumes and takes `"c"`, the fetch of `"c"` settles and it plays, the fetch of `"b"` settles and it plays too | a `playNext` overtaken by `stopAll` ends, and one chain plays the items one at a time, in order | medium, not executed | `TtsQueueModel.OverlapAfterStop` | `TtsQueueModel.GuardedPlaysInOrder` |
| screens/ModuleContentScreen.tsx:48 | native audio excludes only `youtube.com` and Drive links, while the player (lines 419-421) also hides `youtu.be` links | a last, non-reflective page whose audio URL is `youtu.be/x` | a page without a player completes by scrolling | medium, not executed | `ModuleContent.StuckAudioPage` | `ModuleContent.EveryPageCompletes` |
