# open-whisper backend, modelled in Dafny

This project models the decision logic of the open-whisper dictation backend and proves properties about it. The backend is written in Python. The model covers:

- **The live transcription session:** the audio buffer, chunking with overlap, per-segment quality filtering, the carry-over prompt, the n-gram hallucination detector, and the delta queue that always ends with one sentinel.
- **File transcription:** the segment filter and its sentinel-terminated queue.
- **The `/ws/transcribe` protocol:** the messages one session sends.
- **The realtime (vLLM) client:** the handshake, and the `finish` and `stream_transcription` folds.
- **Configuration hot-reload:** the deep merge, changed-path detection and prefix classification.
- **The search helpers:** exact match, exact-first stable ranking, and the choice of where clause and filter.
- **The pending file-transcription registry:** with TTL eviction.
- **Upload validation:** and the size-limited copy loop.
- **The shared route helpers:** `_get_repo` and `_session_to_dict`.
- **The health aggregation.**
- **The audio capture object:** device normalisation, chunk size, open-error classification, the sentinel that stops the stream, and the device listing.
- **The configuration models:** their range constraints and defaults.
- **The exception hierarchy:** its error codes.

Everything the backend delegates to a library (faster-whisper, SQLite, ChromaDB, sounddevice, websockets, the LLM) becomes an input.

- **Function parameters:** the recognizer, the validator of a merged configuration, and the accent stripper.
- **Datatypes of outcomes:** what the database, the socket and the device answer.
- **Explicit arguments:** times such as "now".

Code that mutates state in the source is modelled that way:

- `WhisperSession`, `RealtimeSession`, `AudioCapture`, the configuration store, the stopword cache and the pending registry are classes.
- Their methods are specified against reference functions, with `old()` stating the whole new state.
- Loops in the source (`_is_hallucinated`, the forwarding loop, `_cleanup_stale`, the copy loop, `list_devices`, the message folds) are `while`/`for` loops with invariants.

Pure code becomes functions, and the properties are lemmas about those functions.

Files, one module each:

- **Shared:**
  - `wrappers.dfy`: Option, Result and bytes.
  - `text.dfy`: Python's `strip`, `split` and `" ".join`, substring search, ASCII lower-casing and decimal rendering.
- **Transcription:**
  - `exceptions.dfy`;
  - `app_config.dfy`;
  - `quality_filter.dfy`, `hallucination.dfy` and `whisper_session.dfy`: `whisper_client.py`;
  - `sentinel_queue.dfy` and `file_transcriber.dfy`;
  - `realtime_client.dfy`: `transcription/client.py`.
- **API:**
  - `ws_protocol.dfy`: `ws.py`;
  - `config_reload.dfy`: `routes/config.py`;
  - `search.dfy`: `routes/search.py`;
  - `pending_registry.dfy`;
  - `upload.dfy`;
  - `api_helpers.dfy`: `_helpers.py`;
  - `health.dfy`: `routes/health.py`.
- **Audio:** `capture.dfy`.

Where the code and its description disagree, the model follows the code, with one exception. At three places the code as written always fails, and there the main model follows the evident intent. Each has an as-written member listed under Findings:

- `routes/upload.py` reading `max_upload_size_mb`, which the configuration does not declare;
- `routes/search.py` reading `search.distance_threshold`, which the configuration does not declare either (the main model takes it as an optional input with the code's 0.75 default);
- `routes/upload.py` passing `filename=` to `create_session`, whose signature in `storage/repository.py` has no such parameter (the main model's session row has the `filename` column that `_helpers.py` also reads).

The defaults in `config.py` ("fr", "small") are followed as written, rather than the tests' "en"/"auto".

## Model

| member | source | states |
|---|---|---|
| Exceptions.Raise | backend/src/exceptions.py:4-12 | the message is kept; a non-empty code argument becomes the code, and a missing or empty one leaves the class default |
| Exceptions.EverythingIsVTSError | backend/src/exceptions.py:15-54 | every exception class is a subclass of `VTSError` |
| Exceptions.AudioHandlerCatches | backend/src/exceptions.py:15-30 | a handler for `AudioDeviceError` catches exactly that class and its two subclasses, not-found and permission |
| Exceptions.DefaultCodesDistinct | backend/src/exceptions.py:7-54 | the eight declared default codes are pairwise different, so a code names its class |
| AppConfig.LoadConfig | backend/src/config.py:94-105 | a loaded configuration satisfies every declared range constraint; a refused one reports at least one violated field |
| AppConfig.EmptyDocumentGivesDefaults | backend/src/config.py:42-105 | a file with no YAML document and an empty document both load as the declared defaults: chunk 80 ms, host 127.0.0.1, port 8001, position top-right |
| AppConfig.LoadsIffInRange | backend/src/config.py:24-105 | a document loads exactly when the configuration with defaults filled in is within every range |
| AppConfig.ViolationsOfOutOfRange | backend/src/config.py:24-65 | an out-of-range configuration always names at least one offending field |
| AppConfig.GivenValuesKept | backend/src/config.py:37-46 | given audio values are kept and omitted ones take their defaults (80 ms, 1 channel, 16000 Hz) |
| AppConfig.BoundsAreInclusive | backend/src/config.py:41-46 | `chunk_duration_ms` loads iff it lies in [20, 500], and otherwise only that field is reported |
| AppConfig.BeamSizeBounds | backend/src/config.py:28 | `beam_size` loads iff it lies in [1, 20] (so 0 and 25 are refused), and otherwise only that field is reported |
| AppConfig.SupportedLanguagesFixed | backend/src/config.py:14-16 | the supported languages are the fixed 13 codes starting with "fr", including "en" and "ko" |
| QualityFilter.ThresholdsAreStrict | backend/src/transcription/whisper_client.py:470-486 | a segment with text whose ratio equals the compression threshold, or whose log-probability equals the log-prob threshold, is kept |
| QualityFilter.KeptTextsMembers | backend/src/transcription/whisper_client.py:468-488 | a text is kept iff some segment passes all three checks and strips to it |
| QualityFilter.KeptTextsAreStripped | backend/src/transcription/whisper_client.py:469-471 | every kept text is stripped and non-empty |
| QualityFilter.KeptTextsAppend | backend/src/transcription/whisper_client.py:468-488 | filtering is segment by segment: the kept texts of a concatenation are the concatenation of the kept texts, in order |
| QualityFilter.JoinOfStrippedIsStripped | backend/src/transcription/whisper_client.py:489 | joining stripped non-empty texts with single spaces gives a stripped non-empty text, or "" for none |
| QualityFilter.JoinKeptSegments | backend/src/transcription/whisper_client.py:465-491 | the loop returns the kept texts joined by single spaces |
| QualityFilter.FilterSegment | backend/src/transcription/whisper_client.py:469-488 | one segment contributes its stripped text iff it passes the checks |
| Hallucination.HallucinatedIff | backend/src/transcription/whisper_client.py:389-421 | text is flagged iff it has at least 30 characters and 6 words, and some n-gram with 3 <= n <= min(6, words/2) repeats consecutively from some start more than `max_repeats` times |
| Hallucination.IsHallucinated | backend/src/transcription/whisper_client.py:389-421 | the nested-loop detector returns exactly the reference predicate |
| Hallucination.SomeGram | backend/src/transcription/whisper_client.py:402-420 | the loop over gram sizes finds a repetition iff one exists for some size in range |
| Hallucination.SomeStartRepeats | backend/src/transcription/whisper_client.py:403-420 | the loop over start positions finds a repeating gram of size n iff one exists |
| Hallucination.CountRepeats | backend/src/transcription/whisper_client.py:405-413 | the `while` loop counts the consecutive repetitions of the gram from its start |
| Hallucination.SomeGramRepeatsIff | backend/src/transcription/whisper_client.py:402-420 | the recursive search over sizes is equivalent to an existential over sizes and starts |
| Hallucination.SomeStartRepeatsFromIff | backend/src/transcription/whisper_client.py:403-420 | the recursive search over starts is equivalent to an existential over starts |
| Hallucination.RepeatedPhraseIsHallucinated | backend/src/transcription/whisper_client.py:389-421 | a 3-6 word phrase repeated more than `max_repeats` times (and at least twice, 30+ characters) is always flagged |
| Hallucination.DistinctWordsNotHallucinated | backend/src/transcription/whisper_client.py:389-421 | text whose words are pairwise distinct is never flagged when `max_repeats >= 1` |
| Hallucination.TwoRepeatsRepeatFirstWord | backend/src/transcription/whisper_client.py:405-413 | two consecutive repetitions fit in the words and repeat the gram's first word one gram-length later |
| Hallucination.RepeatsOfRepeated | backend/src/transcription/whisper_client.py:405-413 | a gram written k times in a row is counted at least k times |
| WhisperStreaming.Truncate | backend/src/transcription/whisper_client.py:191-192 | Python's `int()` on a real truncates toward zero |
| WhisperStreaming.ChunkPrompt | backend/src/transcription/whisper_client.py:430-434 | the prompt is none iff there is neither a previous text nor a non-empty initial prompt; otherwise it is a non-empty tail of the previous text, or else of the initial prompt, of at most 200 characters |
| WhisperStreaming.ChunkTextIsStripped | backend/src/transcription/whisper_client.py:339-349 | a chunk's text (after filtering, or "" on a timeout) is "" or stripped and non-empty |
| WhisperStreaming.TranscribedText | backend/src/transcription/whisper_client.py:339-349 | a chunk that does not raise gives its filtered text, or "" when it times out |
| WhisperStreaming.RaisedYieldsNothing | backend/src/transcription/whisper_client.py:381-387 | a recognizer that raises contributes no delta |
| WhisperStreaming.QueueOkAt | backend/src/transcription/whisper_client.py:362-387 | every queued item is an accepted delta (stripped, non-empty, not flagged) or the sentinel, and the sentinel is exactly the last item once the worker finished |
| WhisperStreaming.AppendDelta | backend/src/transcription/whisper_client.py:372-374 | pushing an accepted delta keeps the queue invariant |
| WhisperStreaming.AppendSentinel | backend/src/transcription/whisper_client.py:384-387 | pushing the sentinel keeps the invariant and yields nothing new |
| WhisperStreaming.WhisperSession.constructor | backend/src/transcription/whisper_client.py:180-197 | `buffer_samples` and `overlap_bytes` truncate the rate times the durations; buffer, previous text and queue start empty |
| WhisperStreaming.WhisperSession.SendAudio | backend/src/transcription/whisper_client.py:239-242 | the decoded bytes are appended to the end of the buffer and nothing else changes |
| WhisperStreaming.WhisperSession.SignalEndOfAudio | backend/src/transcription/whisper_client.py:244-260 | sets end-of-audio |
| WhisperStreaming.WhisperSession.TakeChunk | backend/src/transcription/whisper_client.py:290-320 | the worker exits when cancelled or on an empty buffer after the wait (pushing the sentinel), waits until the buffer holds `buffer_samples*2` bytes or end-of-audio is set, and otherwise takes the whole buffer, keeping its last `min(overlap_bytes, len)` bytes mid-stream and nothing at end of audio |
| WhisperStreaming.WhisperSession.Extract | backend/src/transcription/whisper_client.py:313-320 | the chunk is the entire buffer; the new buffer is its overlap tail mid-stream with overlap > 0, else empty |
| WhisperStreaming.WhisperSession.PutSentinel | backend/src/transcription/whisper_client.py:384-387 | the `finally` pushes one sentinel and the worker is finished |
| WhisperStreaming.WhisperSession.FinishChunk | backend/src/transcription/whisper_client.py:337-387 | the recognizer gets the chunk and the carry-over prompt; a raise pushes only the sentinel; otherwise the accepted delta (if any) is pushed, the previous text is updated, and the worker exits with the sentinel iff end of audio was reached with an empty buffer |
| WhisperStreaming.WhisperSession.Complete | backend/src/transcription/whisper_client.py:351-379 | a finished chunk pushes its accepted delta and ends the worker exactly at end of audio with an empty buffer |
| WhisperStreaming.WhisperSession.AcceptText | backend/src/transcription/whisper_client.py:362-374 | non-blank text is pushed iff not flagged; acceptance sets the previous text to it, a hallucination resets it to "", blank text changes nothing |
| WhisperStreaming.WhisperSession.ScreenVisible | backend/src/transcription/whisper_client.py:364-374 | a visible text is pushed and kept as carry-over, or discarded with the carry-over reset |
| WhisperStreaming.WhisperSession.EndCheck | backend/src/transcription/whisper_client.py:376-379 | the worker stops, pushing the sentinel, iff end of audio is set and the buffer is empty |
| WhisperStreaming.WhisperSession.Exit | backend/src/transcription/whisper_client.py:222-237 | afterwards the worker is finished, cancelled, end-of-audio set, the buffer empty, and exactly one sentinel was added unless the worker had already finished; a chunk in flight that finishes in time first pushes its delta |
| WhisperStreaming.WhisperSession.RaiseFlags | backend/src/transcription/whisper_client.py:226-227 | `__aexit__` sets cancelled and end-of-audio |
| WhisperStreaming.WhisperSession.ClearBuffer | backend/src/transcription/whisper_client.py:234 | the buffer is emptied |
| WhisperStreaming.WhisperSession.Abandon | backend/src/transcription/whisper_client.py:228-233 | a worker cancelled or timed out ends with one sentinel, not two |
| WhisperStreaming.WhisperSession.CompletePending | backend/src/transcription/whisper_client.py:228-233 | a chunk in flight at exit delivers its accepted delta, then the sentinel |
| WhisperStreaming.WhisperSession.StreamTranscription | backend/src/transcription/whisper_client.py:262-272 | yields the queued deltas in order up to the sentinel, every one stripped, non-empty and not flagged |
| WhisperStreaming.EmptyAudioYieldsNothing | backend/src/transcription/whisper_client.py:308-311 | no audio followed by end of audio yields no delta |
| WhisperStreaming.TwoChunksAccumulate | backend/src/transcription/whisper_client.py:239-242 | two 80 ms chunks at 16 kHz give 2*1280*2 buffered bytes, below the threshold, so the worker waits |
| WhisperStreaming.EndOfAudioFlushesBuffer | backend/src/transcription/whisper_client.py:297-320 | a buffer below the threshold is still transcribed once at end of audio, with no prompt |
| SentinelQueue.UntilSentinelIsPrefix | backend/src/transcription/file_transcriber.py:123-132 | what the consumer yields is the queue's items in order up to the first sentinel |
| SentinelQueue.UntilSentinelOfWrapped | backend/src/transcription/file_transcriber.py:109-132 | items followed by the sentinel are yielded exactly, whatever follows |
| SentinelQueue.Drain | backend/src/transcription/file_transcriber.py:123-132 | the consuming loop returns the items before the first sentinel and reports whether it saw one |
| FileTranscriber.FileSegmentsMembers | backend/src/transcription/file_transcriber.py:80-100 | a segment is emitted iff some produced segment passes the filter and converts to it |
| FileTranscriber.FileSegmentsTexts | backend/src/transcription/file_transcriber.py:80-100 | the emitted texts are exactly the quality filter's kept texts, in order |
| FileTranscriber.FileSegmentsAppend | backend/src/transcription/file_transcriber.py:80-101 | emission is segment by segment, in generator order |
| FileTranscriber.ConvertSegment | backend/src/transcription/file_transcriber.py:80-100 | a segment is skipped on blank text or a strictly failed threshold, and is otherwise converted with its stripped text and `avg_logprob`, or 0.0, as confidence |
| FileTranscriber.PutKeptSegments | backend/src/transcription/file_transcriber.py:80-101 | the loop enqueues exactly the kept segments in order |
| FileTranscriber.TranscribeToQueue | backend/src/transcription/file_transcriber.py:58-111 | the queue is the kept segments then one sentinel, also when transcription raises; a failure before the duration leaves only the sentinel |
| FileTranscriber.SegmentStream | backend/src/transcription/file_transcriber.py:123-132 | the stream yields the queued segments up to the sentinel |
| FileTranscriber.TranscribeFileStreaming | backend/src/transcription/file_transcriber.py:26-134 | an error before the duration is known is raised to the caller; otherwise the result carries the duration and the kept segments |
| WsProtocol.StartRequestOf | backend/src/api/ws.py:104-110 | only a `start` message opens a session; its mode defaults to "transcription" and its language is passed on |
| WsProtocol.SessionLanguage | backend/src/api/ws.py:138 | the language is a non-empty override, else the configured language |
| WsProtocol.ListenForStop | backend/src/api/ws.py:186-201 | messages are read up to the first `stop`; the stop event and the capture stop are set iff a stop arrives or the client disconnects |
| WsProtocol.ReceiveAndForward | backend/src/api/ws.py:219-236 | one `transcript_delta` per delta in order, `full_text` the concatenation, and the count the number of deltas |
| WsProtocol.HandleTranscriptionSession | backend/src/api/ws.py:128-359 | the handler sends exactly the reference trace of the session's outcomes |
| WsProtocol.Record | backend/src/api/ws.py:243-288 | a failed connect sends its error; otherwise `recording`, the deltas, then any model, device or unexpected error, with a disconnect sending nothing |
| WsProtocol.FinalizeSession | backend/src/api/ws.py:297-337 | the finalize step sends the reference finalize trace |
| WsProtocol.DeltasForwardedInOrder | backend/src/api/ws.py:224-236 | the i-th forwarded message is the i-th delta, unchanged |
| WsProtocol.NoSessionWithoutDatabase | backend/src/api/ws.py:141-158 | with no database, or a failed create, the only message is one error with `database_error` or the raised code |
| WsProtocol.StartedSessionsFinalize | backend/src/api/ws.py:162-295 | a created session starts with `session_started` and always reaches `finalizing`, whatever the recording did |
| WsProtocol.HappyPath | backend/src/api/ws.py:162-337 | with every step succeeding the trace is `session_started`, `loading_model`, `recording`, the deltas, `finalizing`, an optional `segment_complete` with the stripped text at 0 ms, then `session_ended` |
| WsProtocol.SegmentCompleteIff | backend/src/api/ws.py:297-337 | at most one `segment_complete` is sent, and exactly when the session was created, saved, `full_text.strip()` is non-empty and the segment was stored |
| WsProtocol.FinalizeSegments | backend/src/api/ws.py:303-316 | the finalize step sends the one segment iff the text is non-blank and both writes succeed |
| WsProtocol.SessionEndedIff | backend/src/api/ws.py:297-359 | `session_ended` closes the trace iff neither database write raised |
| WsProtocol.IndexingFailureIsSilent | backend/src/api/ws.py:319-330 | a failed search indexing changes nothing the client is sent |
| WsProtocol.RecordingSendsNoSegment | backend/src/api/ws.py:243-288 | the recording part never sends `segment_complete` |
| WsProtocol.ErrorCodeDefault | backend/src/api/ws.py:60-71 | an error sent without a code carries `internal_error`; an unexpected exception is reported that way, and a disconnect sends nothing |
| RealtimeClient.Handshake | backend/src/transcription/client.py:90-122 | entering succeeds iff the socket connects and the first message is `session.created`; otherwise a connection, timeout or protocol error |
| RealtimeClient.RealtimeSession.constructor | backend/src/transcription/client.py:83-88 | an unconnected session with no id and nothing sent |
| RealtimeClient.RealtimeSession.Enter | backend/src/transcription/client.py:90-136 | after a good handshake the id is recorded and `session.update` with the model then a commit are sent; after a failure nothing is sent |
| RealtimeClient.RealtimeSession.Exit | backend/src/transcription/client.py:138-146 | the socket is closed once and cleared; a second exit is a no-op |
| RealtimeClient.RealtimeSession.SendAudio | backend/src/transcription/client.py:148-160 | unconnected it raises and sends nothing; connected it sends one append wrapping the audio unchanged |
| RealtimeClient.RealtimeSession.Finish | backend/src/transcription/client.py:162-210 | unconnected it raises; connected it sends the final commit and returns the finish fold over the server's messages |
| RealtimeClient.RealtimeSession.StreamTranscription | backend/src/transcription/client.py:212-255 | unconnected it raises; connected it yields the stream fold's deltas and error |
| RealtimeClient.CollectFinal | backend/src/transcription/client.py:174-210 | the receive loop of `finish` computes the finish fold |
| RealtimeClient.CollectDeltas | backend/src/transcription/client.py:230-255 | the receive loop of `stream_transcription` computes the stream fold |
| RealtimeClient.FinishCollectsDeltas | backend/src/transcription/client.py:174-203 | deltas then `transcription.done` return done's text, defaulting to the concatenated deltas |
| RealtimeClient.StreamYieldsDeltas | backend/src/transcription/client.py:242-251 | deltas then `transcription.done` yield the non-empty deltas in order and stop |
| RealtimeClient.StreamYieldsNonEmpty | backend/src/transcription/client.py:242-247 | an empty delta is never yielded |
| RealtimeClient.FinishEndsLikeStream | backend/src/transcription/client.py:174-255 | both folds stop at the same message and fail on the same server error; unknown types are skipped by both |
| RealtimeClient.FinishTextIsStreamed | backend/src/transcription/client.py:174-255 | without an error, `finish`'s default text is the streamed deltas concatenated |
| RealtimeClient.ExchangeExample | backend/src/transcription/client.py:90-210 | a full exchange sends update, commit, the appends, the final commit, returns the deltas' text and closes once |
| ConfigReload.DeepMerge | backend/src/api/routes/config.py:36-44 | the merged keys are the union of both sides' keys |
| ConfigReload.MergeKeepsUntouched | backend/src/api/routes/config.py:38-43 | a key only in the base keeps its value |
| ConfigReload.MergeOverrideWins | backend/src/api/routes/config.py:38-43 | the override wins at every key except where both values are dicts |
| ConfigReload.MergeEmpty | backend/src/api/routes/config.py:36-44 | an empty override gives the base |
| ConfigReload.MergeIdempotent | backend/src/api/routes/config.py:36-44 | merging the same override twice equals merging it once |
| ConfigReload.MergeSelf | backend/src/api/routes/config.py:36-44 | merging a configuration into itself changes nothing |
| ConfigReload.MergeLeafFromOverride | backend/src/api/routes/config.py:38-43 | at any path the override sets to a non-null leaf, the merge holds the override's leaf |
| ConfigReload.ChangedPathsSound | backend/src/api/routes/config.py:47-58 | every reported path is the dotted form of a path where the two sides differ |
| ConfigReload.ChangedPathsComplete | backend/src/api/routes/config.py:47-58 | every path where the two sides differ (recursing only into two dicts, a one-sided key included) is reported |
| ConfigReload.ChangedPathsSelf | backend/src/api/routes/config.py:47-58 | comparing a configuration with itself reports nothing |
| ConfigReload.AnyPrefix | backend/src/api/routes/config.py:97-102 | true iff the path starts with one of the prefixes |
| ConfigReload.Classify | backend/src/api/routes/config.py:95-102 | the classified set is exactly the changed paths that start with a prefix of the list |
| ConfigReload.ClassificationExamples | backend/src/api/routes/config.py:15-33 | `language` is applied, `audio.device` needs a restart, and `audio.sample_rate` or `backend` is in neither |
| ConfigReload.ConfigStore.constructor | backend/src/api/routes/config.py:61-68 | starts from the loaded (or missing) configuration, nothing saved |
| ConfigReload.ConfigStore.GetConfig | backend/src/api/routes/config.py:61-68 | returns the current configuration, none when unloaded |
| ConfigReload.ConfigStore.UpdateConfig | backend/src/api/routes/config.py:71-125 | 503 and no change when unloaded; 422 and no change when the merge is invalid; when the write raises, 500 with the old configuration kept in memory and the file untouched (`open` failed) or truncated (`yaml.dump` failed); otherwise the validated merge is saved and swapped in, the applied and restart lists are the classified changed paths, and the LLM client reloads iff a `models.llm` path changed |
| ConfigReload.UnchangedUpdateReportsNothing | backend/src/api/routes/config.py:95-102 | an update that changes nothing reports no applied and no restart path |
| Search.StopwordCache.constructor | backend/src/api/routes/search.py:32-43 | the cache starts empty |
| Search.StopwordCache.Get | backend/src/api/routes/search.py:32-43 | a filled cache is returned unchanged; an empty one is filled from the file, or stays empty when it is missing |
| Search.ContentWordsMembers | backend/src/api/routes/search.py:51 | the content words are exactly the query words that are not stopwords |
| Search.AllOccurIff | backend/src/api/routes/search.py:52 | `all(w in doc ...)` holds iff every word is a substring of the document |
| Search.ExactMatchIff | backend/src/api/routes/search.py:46-52 | an exact match iff the normalised query has a non-stopword word and every such word is a substring of the normalised document |
| Search.StopwordQueryNeverMatches | backend/src/api/routes/search.py:51-52 | a query of stopwords only never matches |
| Search.PartitionMembers | backend/src/api/routes/search.py:108-113 | each group holds only exact or only non-exact results |
| Search.PartitionPermutation | backend/src/api/routes/search.py:108-113 | the two groups together are a permutation of the results |
| Search.RankIsPartition | backend/src/api/routes/search.py:108-113 | the ranking is a permutation with all exact matches first, then the rest |
| Search.RankIsStable | backend/src/api/routes/search.py:108-113 | each group keeps its original order inside the ranking |
| Search.PartitionAppend | backend/src/api/routes/search.py:108-113 | grouping works result by result |
| Search.PartitionPartition | backend/src/api/routes/search.py:108-113 | grouping twice changes nothing, and a group holds nothing of the other kind |
| Search.WhereOf | backend/src/api/routes/search.py:79-89 | the clause is absent iff neither filter is given, a single equality iff exactly one is, and `$and` only with both |
| Search.BuildWhere | backend/src/api/routes/search.py:79-89 | the loop's clause is the reference `WhereOf`: none without filters, the single equality with one, and `$and` of both with two |
| Search.MatchingIdsIff | backend/src/api/routes/search.py:104-106 | an id is exact iff one of its results' documents matches |
| Search.ExactMatches | backend/src/api/routes/search.py:104-106 | the loop collects exactly the matching ids |
| Search.SessionIds | backend/src/api/routes/search.py:122-128 | the id list is the ranked results' ids, position by position |
| Search.PlanSearch | backend/src/api/routes/search.py:60-132 | the id list is unset iff the query is blank or the search failed; language and mode reach the SQL filter only then; otherwise ids come in exact-first order; the exact set is the ids of the hits that match exactly (`MatchingIds`), empty on a blank query or a failed search; the store is asked the stripped query, the `WhereOf` clause and the threshold |
| Search.SearchThreshold | backend/src/api/routes/search.py:91-93 | the intended reading: the configured threshold, 0.75 without a configuration |
| Search.LoadedConfigBreaksSearch | backend/src/api/routes/search.py:91-93 | as written, a loaded configuration makes the threshold lookup raise; only an unloaded one gives 0.75 |
| Search.ExactMatchFlag | backend/src/api/routes/search.py:141 | `exact_match` is attached iff some result matched exactly, and is true iff this one did |
| PendingRegistry.StaleIds | backend/src/api/_file_transcription_state.py:62-77 | the stale ids are exactly those whose age exceeds the TTL |
| PendingRegistry.Evict | backend/src/api/_file_transcription_state.py:62-77 | eviction keeps exactly the fresh entries, unchanged |
| PendingRegistry.Lookup | backend/src/api/_file_transcription_state.py:51-54 | a get finds the entry iff it is registered and fresh |
| PendingRegistry.AfterRemove | backend/src/api/_file_transcription_state.py:57-59 | remove deletes the id, leaves every other entry, and is a no-op on a missing id |
| PendingRegistry.FilterOutMembers | backend/src/api/_file_transcription_state.py:72-77 | the insertion order loses exactly the removed ids and stays duplicate-free |
| PendingRegistry.StaleOrderMembers | backend/src/api/_file_transcription_state.py:67-71 | the stale list holds exactly the stale ids, each once, in insertion order |
| PendingRegistry.FilterOutListed | backend/src/api/_file_transcription_state.py:62-77 | removing ids keeps the order list in step with the map |
| PendingRegistry.Registry.constructor | backend/src/api/_file_transcription_state.py:25-26 | the registry starts empty |
| PendingRegistry.Registry.CleanupStale | backend/src/api/_file_transcription_state.py:62-77 | the loop evicts exactly the stale entries and unlinks their files in insertion order |
| PendingRegistry.Registry.Register | backend/src/api/_file_transcription_state.py:30-48 | first evicts, then stores the entry under its id with the current time, replacing any earlier one |
| PendingRegistry.Registry.Get | backend/src/api/_file_transcription_state.py:51-54 | evicts, then returns the fresh entry or none |
| PendingRegistry.Registry.Remove | backend/src/api/_file_transcription_state.py:57-59 | deletes only the id, without running eviction |
| PendingRegistry.EvictionBoundary | backend/src/api/_file_transcription_state.py:12-77 | an entry survives at exactly 600 s and is evicted strictly after |
| PendingRegistry.RegisterThenGet | backend/src/api/_file_transcription_state.py:30-54 | register then get within the TTL returns the registered entry |
| PendingRegistry.GetUnknown | backend/src/api/_file_transcription_state.py:51-54 | an unknown id gives none |
| PendingRegistry.RegisterOverwrites | backend/src/api/_file_transcription_state.py:47 | registering an id again replaces its entry |
| PendingRegistry.RemoveThenGet | backend/src/api/_file_transcription_state.py:57-59 | after remove the id is not found |
| PendingRegistry.OtherIdsUntouched | backend/src/api/_file_transcription_state.py:45-59 | register and remove of one id never change another id's lookup |
| PendingRegistry.EvictLater | backend/src/api/_file_transcription_state.py:62-77 | evicting at a later time after an earlier one equals evicting at the later time |
| PendingRegistry.Scenarios | backend/src/api/_file_transcription_state.py:30-59 | register then get finds the entry, an unknown id and a removed id give none, and a second register under the same id wins |
| Upload.LastSegmentIsSuffix | backend/src/api/routes/upload.py:42-46 | the last segment is the suffix after the last separator and holds none |
| Upload.PathNameHasNoSeparator | backend/src/api/routes/upload.py:42-46 | the path name holds no separator and is never "." |
| Upload.PathNameIsComponent | backend/src/api/routes/upload.py:42-46 | a non-empty path name is a whole component of the raw name |
| Upload.PathNameOfPlainName | backend/src/api/routes/upload.py:42-46 | a name without separators (not "" or ".") is its own path name |
| Upload.SanitizeFilename | backend/src/api/routes/upload.py:42-46 | the sanitised name is never empty |
| Upload.SanitizedHasNoSeparator | backend/src/api/routes/upload.py:42-46 | the sanitised name holds no separator and is the raw name's last component or "unknown" |
| Upload.TraversalExamples | backend/src/api/routes/upload.py:42-46 | `../../../etc/passwd.wav` becomes `passwd.wav`, backslash traversal becomes `config.wav`, and absolute and drive paths keep their last component |
| Upload.PlainAndEmptyExamples | backend/src/api/routes/upload.py:42-46 | a plain name is kept, and an empty or missing name becomes "unknown" |
| Upload.LastDot | backend/src/api/routes/upload.py:47-48 | the index of the last dot, or -1 |
| Upload.Suffix | backend/src/api/routes/upload.py:47-48 | the suffix is empty or a proper dot-led tail of the name |
| Upload.ExtensionAcceptedIff | backend/src/api/routes/upload.py:16-52 | a name is accepted iff it properly ends with an accepted extension, case-insensitively |
| Upload.CopyWritesPrefix | backend/src/api/routes/upload.py:58-71 | at most the limit is written, always a prefix of the chunks, and on success their whole in-order concatenation |
| Upload.TooLargeIffOversize | backend/src/api/routes/upload.py:58-71 | the copy refuses only when the total exceeds the limit strictly, and always then when writes succeed |
| Upload.SaveUpload | backend/src/api/routes/upload.py:58-76 | the read loop computes the reference copy |
| Upload.MaxUploadBytes | backend/src/api/routes/upload.py:39-40 | the limit is the configured megabytes times 1024*1024, 500 MB by default |
| Upload.LoadedConfigBreaksUploads | backend/src/api/routes/upload.py:39-40 | as written, a loaded configuration makes the limit lookup raise; only an unloaded one gives 500 MB |
| Upload.Validate | backend/src/api/routes/upload.py:33-52 | a request passes iff the language is supported and the sanitised name's extension accepted; the language is checked first |
| Upload.LanguageCheckedFirst | backend/src/api/routes/upload.py:33-37 | an unsupported language is refused with 400 before any file handling |
| Upload.UnsupportedFormatRefused | backend/src/api/routes/upload.py:47-52 | an unaccepted extension is refused with 400 |
| Upload.RefusalHasNoEffect | backend/src/api/routes/upload.py:33-52 | a refused request writes, creates and registers nothing |
| Upload.OversizeRefused | backend/src/api/routes/upload.py:58-71 | a 413 keeps no file and means the data exceeded the limit, and oversize data always gets the 413 detail |
| Upload.SuccessfulUpload | backend/src/api/routes/upload.py:55-93 | in the intended reading (see Findings), a pending reply means the file holds the whole data within the limit, a "file" session was created, and it is registered under the same id |
| Upload.UploadFileForTranscription | backend/src/api/routes/upload.py:20-93 | the route replies, creates, keeps and registers exactly what the reference outcome says |
| Upload.CallCreateSession | backend/src/api/routes/upload.py:81-86 | the call succeeds with the new id iff the signature declares every keyword the route passes |
| Upload.CreateSessionRejectsFilename | backend/src/api/routes/upload.py:78-93 | as written, no upload is ever pending: where the intended route replies "pending", the code replies 500 with the file left behind; with a `filename` parameter the call succeeds |
| Upload.StoreUpload | backend/src/api/routes/upload.py:55-93 | after validation the route stores, creates and registers as the reference outcome says |
| Upload.SortedExtensionsListed | backend/src/api/routes/upload.py:16-51 | the extensions in the error message are exactly the accepted set |
| Upload.SortedExtensionsAscend | backend/src/api/routes/upload.py:51 | they are listed in ascending order |
| ApiHelpers.GetRepo | backend/src/api/_helpers.py:13-19 | the repository opens iff the database is available; otherwise HTTP 503 "Database not available" |
| ApiHelpers.BaseColumnsCopied | backend/src/api/_helpers.py:28-38 | the nine base keys are always present and the row reads back unchanged |
| ApiHelpers.OptionalKeysIffGiven | backend/src/api/_helpers.py:39-44 | each optional key is present iff its argument is not none, holding it, so False and "" are kept |
| ApiHelpers.KeysOfDict | backend/src/api/_helpers.py:22-45 | the keys are the base keys plus the given optional ones, exactly the nine with no optional argument |
| ApiHelpers.NineBaseKeys | backend/src/api/_helpers.py:28-38 | there are nine base keys |
| Health.Severity | backend/src/api/routes/health.py:15-81 | the severity lies in healthy, degraded, unhealthy |
| Health.HealthCheck | backend/src/api/routes/health.py:15-81 | the status is the worst severity of the checks, the service "openwhisper-backend", and checks holds the four reports |
| Health.StatusIsOneOfThree | backend/src/api/routes/health.py:81 | the status is healthy, degraded or unhealthy |
| Health.DatabaseFailureIsUnhealthy | backend/src/api/routes/health.py:24-30 | unhealthy iff the database check failed, whatever the others said |
| Health.DegradedIffSecondaryFailure | backend/src/api/routes/health.py:46-68 | degraded iff the database answered and the engine or the audio check failed, so unhealthy is never raised to degraded |
| Health.LlmIsIrrelevant | backend/src/api/routes/health.py:70-79 | the LLM check never changes the status |
| Health.AudioCountsInputDevices | backend/src/api/routes/health.py:55-68 | the audio check fails iff the query raised or no device takes input, and otherwise counts exactly the listed input devices |
| Capture.NormaliseDevice | backend/src/audio/capture.py:41 | "default" and none become none; any other device passes unchanged |
| Capture.TruncThousandth | backend/src/audio/capture.py:42 | `int(x / 1000)` truncates toward zero |
| Capture.ChunkSamplesExamples | backend/src/audio/capture.py:42 | 16000 Hz at 80 ms gives 1280 samples, 44100 Hz at 30 ms 1323 |
| Capture.OpenError | backend/src/audio/capture.py:79-89 | a failed open raises not-found iff the lower-cased message names a missing device, and otherwise a device error; both are `AudioDeviceError`s with their class codes |
| Capture.MissingCharNotContained | backend/src/audio/capture.py:79-89 | a word with a letter the message lacks does not occur in it |
| Capture.NoDefaultDeviceIsMissing | backend/src/audio/capture.py:79-86 | "No default input device" is classified as a missing device |
| Capture.UnsupportedRateIsDeviceError | backend/src/audio/capture.py:79-89 | "Sample rate not supported" is classified as a device error |
| Capture.AudioCapture.constructor | backend/src/audio/capture.py:31-46 | parameters kept, the device normalised, `chunk_samples` computed, nothing running |
| Capture.AudioCapture.Open | backend/src/audio/capture.py:59-89 | the loop reference and running flag are set; a failed open raises the classified error and the stream ends |
| Capture.AudioCapture.Deliver | backend/src/audio/capture.py:48-57 | a block is queued iff the loop is known; nothing else changes |
| Capture.AudioCapture.Stop | backend/src/audio/capture.py:105-111 | clears running and queues the sentinel when the loop is known |
| Capture.AudioCapture.Next | backend/src/audio/capture.py:96-103 | yields queued blocks in order, ends at the sentinel or when stopped with nothing waiting, and closes the stream on ending |
| Capture.StopEndsStream | backend/src/audio/capture.py:97-111 | after stop the stream ends and is closed |
| Capture.ThreeChunks | backend/src/audio/capture.py:48-111 | three delivered blocks then stop come out as exactly those three chunks |
| Capture.ListDevices | backend/src/audio/capture.py:121-134 | the loop returns the reference listing |
| Capture.ListingDescribes | backend/src/audio/capture.py:126-133 | each listed device carries its position in the full list, its name, its input channels and its default rate |
| Capture.ListingIncreasing | backend/src/audio/capture.py:121-134 | the listing keeps the original order |
| Capture.ListingCovers | backend/src/audio/capture.py:126-133 | every input device (more than 0 input channels) is listed |
| Capture.ListingCountsInputs | backend/src/audio/capture.py:121-134 | the listing has exactly as many entries as there are input devices |
| Capture.ListingExamples | backend/src/audio/capture.py:121-134 | a microphone is listed at index 0 and an output-only speaker is dropped |

## Left out

- **Recognizer:** the recognizer itself and model loading (CUDA probing, the model cache, DLL paths). The recognizer is a function parameter returning "timed out", "raised" or the segments.
- **Floating point:**
  - the int16-to-float conversion, end padding, the mic-test RMS and the relevance `sqrt` of the search results;
  - the seconds-to-milliseconds truncations;
  - compression ratio, log-probability and sample rates are `real` values, used only in comparisons.
- **Concurrency and timing:**
  - `asyncio.gather`, executors, locks and `call_soon_threadsafe`;
  - the 60 s, 300 s and 30 s timeouts are explicit outcomes;
  - `post_roll` sleeps and all clock values (`started_at`, `elapsed_ms`, `duration_s`, `end_ms`) are left out;
  - the worker runs step by step between client calls.
- WhisperStreaming.WhisperSession.SendAudio: takes decoded bytes; the base64 decoding is not modelled.
- RealtimeClient.RealtimeSession.SendAudio: the audio string is sent as given, and JSON encoding of messages is not modelled.
- RealtimeClient.Handshake: a protocol error keeps only the message's type tag, as a datatype, rather than the type string.
- **WebSocket sends:** taken to succeed. The outer receive loop of `websocket_transcribe` is reduced to `StartRequestOf`, and the mic-test endpoint and `_auto_summarize` are not modelled.
- **Databases and indexes:** SQLite, ChromaDB, embeddings and the LLM client are inputs or left out.
  - `routes/sessions.py`, `routes/audio.py`, `routes/llm.py`, `main.py`, `debug_log.py`, the Tauri files and the scripts are not part of this model.
- **Text:**
  - case folding is ASCII-only (whitespace follows the full `str.isspace` set);
  - the NFKD accent stripping of search is a function parameter.
- **Path names:** the separators are fixed to '/' and '\\'. Windows drive prefixes are not treated specially beyond their separators.
- **Configuration:**
  - pydantic's type coercion is not modelled: documents hold values of the right types;
  - YAML parsing and the config file's location are I/O.
- ConfigReload.ConfigStore.UpdateConfig: the changed paths are a set, because the source's list order comes from iterating a set.
  - How the write of `config.yaml` goes is an input; failures to read the body are not modelled.
  - A non-dict JSON body is not modelled.
- Search.PlanSearch: the accent stripper and the vector-store answer are inputs. The threshold is the intended optional setting defaulting to 0.75; as written the lookup always raises with a loaded configuration (see Findings).
- Upload.UploadFileForTranscription:
  - follows the intended `create_session` with a `filename` parameter; as written the call always raises `TypeError` (see Findings), and a `DatabaseError` from the insert is not modelled;
  - the temporary file left behind when the database is unavailable is recorded, but not what happens to it later;
  - `started_at` is an integer timestamp input.
- PendingRegistry.Registry.Register: `created_at` is the "now" argument, one value per call.
- Capture.AudioCapture.Open: when `start()` fails after the stream was constructed, the source leaves `_stream` set; the model records only whether a stream is open. The callback's status log is not modelled.
- Capture.AudioCapture.Next: yields the raw blocks; the base64 encoding of each chunk is not modelled.
- Capture.ChunkSamples: computed on integers, so float rounding of very large products is not modelled.
- Health.HealthCheck: an exception other than `ImportError` in the transcription check would propagate and is not modelled; the device query's failure is a message.
- ApiHelpers: the `filename` column is part of the session row, although `storage/repository.py` does not declare it.
- AppConfig.LoadConfig: starts from the parsed document. A missing `config.yaml` makes `find_config_path` raise `FileNotFoundError` (backend/src/config.py:85-91), which is not modelled.

## Findings

| source | as written | input that shows it | evidently intended | confidence | as-written member | corrected member |
|---|---|---|---|---|---|---|
| backend/src/api/routes/upload.py:39-40 | the limit reads `config.max_upload_size_mb`, but `AppConfig` (backend/src/config.py:68-75) declares no such field, so with the configuration loaded the lookup raises `AttributeError` and every upload fails with 500 | any valid upload, e.g. `test.wav` with language `en`, once the server has loaded its configuration | a configurable limit in megabytes, 500 MB when not configured | not executed | Upload.MaxUploadMbAsWritten, shown by Upload.LoadedConfigBreaksUploads | Upload.MaxUploadBytes |
| backend/src/api/routes/search.py:91-93 | the threshold reads `app_config.search.distance_threshold` outside the `try`, but `AppConfig` (backend/src/config.py:68-75) has no `search` field, so with the configuration loaded every non-blank search fails with 500 and never falls back to SQL | `GET /api/sessions/search?q=hello` once the server has loaded its configuration | a configurable threshold, 0.75 when not configured | not executed | Search.SearchThresholdAsWritten, shown by Search.LoadedConfigBreaksSearch | Search.SearchThreshold, used by Search.PlanSearch |
| backend/src/api/routes/upload.py:81-86 | the route calls `create_session(..., filename=filename)`, but `create_session` (backend/src/storage/repository.py:43-45) declares only `mode`, `language` and `started_at`, so the call raises `TypeError` and every upload that reaches the database fails with 500, leaving its temporary file | any valid upload, e.g. `test.wav` with language `en`, with the database available | the session is created with its file name and the reply is pending | not executed | Upload.StoreAsWritten, shown by Upload.CreateSessionRejectsFilename | Upload.Store, with Upload.SuccessfulUpload |
