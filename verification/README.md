# Verified model of the Agent Host Protocol log inspector

The inspector reads a JSON Lines log of protocol traffic and keeps several views of it up to date while
the log grows: lines cut from a byte stream, requests paired with responses, table rows, a live stream to
each client, resource state replayed to any event, search results. Each of these is an incremental engine
that has to agree with a plain, non-incremental definition. This project models the engines in Dafny and
proves that agreement for all inputs, runs and interleavings. What an operation does is also stated apart from its
specification, over whole runs: which frames a client is sent, which answer installs what, what each field of a
record shows at the end.

Layout: for each component one module holds the specification (`…Spec`: the state and one function per
operation, with the code's branches), one or more hold the theorems (`…Laws`, `…Locality`, `…Delivery`, `…Record` and the like),
and one holds the code's imperative form (a class with the same fields, or methods with the same loops)
whose every method is proved to do what the specification function says.

| component | modules |
|---|---|
| line splitter and byte offsets | `Utf16`, `SplitterSpec`, `SplitterLaws`, `SplitterConservation`, `Jsonl`, `IngestSpec`, `IngestLaws`, `IngestLoop` |
| event store and correlator | `Events`, `SessionKeys`, `EventStore`, `CorrelatorSpec`, `CorrelatorLaws`, `CorrelatorLocality`, `CorrelatorEviction`, `Correlator` |
| rows and live stream | `Frames`, `AppSpec`, `AppState`, `StreamSpec`, `StreamLaws`, `StreamProgress`, `StreamDelivery`, `SseStream`, `LiveSystem`, `LiveDelivery` |
| replay, its cache and its size estimate | `ReplaySpec`, `ReplayLaws`, `ReplayReports`, `ReplayAnswers`, `ReplayVerdicts`, `ReplayDelivery`, `Replay`, `ReplayCacheSpec`, `ReplayCacheLaws`, `ReplayCacheUse`, `ReplayCache`, `ReplayCost` |
| search | `SearchSpec`, `SearchLaws`, `SearchAnswers`, `Search` |
| chat reducer | `StatusBits`, `ChatSpec`, `ChatStatus`, `ChatErrors`, `CallMachine`, `ChatHistory`, `CallRecord`, `ChatCalls`, `ChatInput`, `ChatText`, `ChatRecords`, `ChatQueue`, `ChatPending`, `Chat` |
| terminal reducer | `TerminalSpec`, `TerminalRecord`, `Terminal` |

Conventions. Text is a sequence of UTF-16 code units; `Paired` says that no high surrogate stands alone,
which a streaming decoder guarantees for every chunk. A JavaScript `Map` is an insertion-ordered map
(`Collections.OMap`): overwriting keeps a key's place. Whatever is read from outside is a parameter: the
clock, frame sizes, the JSON parser's verdict, the reducers of the replay (with what they log), the
searchable text of an event. Concurrency is a choice of steps: the live stream is a writer interleaved with
the server, the search is interrupted at each yield by any appends, resets and look-ups.

Where the code differs from what it is said to do, the code is followed. Each difference is shown on an input
and delimited exactly:

- Two sessions can share a correlation key (`SessionKeys.SessionsCanCollide`). They do if and only if their texts
  are equal (a missing session is written like the session "∅") or one of them begins like a whole key head of
  the other up to a string id (`SessionKeys.KeyInjectiveAcrossSessions`); a session without `::` is safe. The
  program only uses the null session.
- Discarding an oversized line depends on where chunks end, whatever the cap
  (`SplitterLaws.SkippingIsNotChunkInvariant`); `SplitterLaws.PushSplit` says exactly when cutting a chunk makes
  no difference.
- The chat status can lag behind a `chat/responsePart` that carries a blocking part (`ChatStatus.StatusCanLag`); it
  stays derived if and only if no such part is added (`ChatStatus.StaysDerivedIff`).
- A tool-call action that finds no call is said to leave the chat as it is, but can change its status
  (`ChatErrors.UnmatchedUpdateCanClear`). It leaves the chat alone if and only if it does not recompute the status
  or the status was up to date (`ChatErrors.UnmatchedUpdateIff`), which leaves one case: it clears an error that is
  shown (`ChatErrors.UnmatchedUpdateClearsErrorIff`). `ChatErrors.ErrorOverRunsIff` says exactly how long an error is
  shown.
- Announcing a running tool call as ready again drops its partial content and its selected option
  (`CallMachine.ReannouncingLosesOutput`). An update that leaves the call running keeps both if and only if it is no
  such announcement or there is nothing to lose (`CallMachine.UpdateKeepsOutputIff`);
  `ChatHistory.OutputKeptOverRunsIff` is the same over whole runs, also through another confirmation.

## Model

| member | source | states |
|---|---|---|
| `Utf16.Utf8ByteLength` | packages/parser/src/jsonl.ts:56-74 | the counting loop computes `ByteCount`, the code's case split on UTF-16 code units |
| `Utf16.ByteCountIsUtf8` | packages/parser/src/jsonl.ts:56-74 | on text without unpaired high surrogates that count is the UTF-8 length of section 3 of RFC 3629, defined character by character over scalar values |
| `Utf16.LoneHighSurrogateMiscounted` | packages/parser/src/jsonl.ts:56-74 | a concrete text, one that no streaming decoder produces, on which the count is not the UTF-8 length: it only shows that the requirement of paired surrogates is needed |
| `Jsonl.LineSplitter.PushDetailed` | packages/parser/src/jsonl.ts:110-232 | the seven fields and the report after a push are those of the specification `Push`: late terminator, byte order mark, resumed or ended discarding, lines, kept or discarded tail (overflow compares code units) |
| `Jsonl.LineSplitter.EndOfInput` | packages/parser/src/jsonl.ts:257-266 | a line being discarded is reported with its pending CR and forgotten; otherwise nothing changes |
| `Jsonl.LineSplitter.Checkpoint` | packages/parser/src/jsonl.ts:271-276 | the discarded bytes so far are handed over once, the line stays discarded, a pending CR stays pending |
| `Jsonl.LineSplitter.FinalizeIf` | packages/parser/src/jsonl.ts:282-289 | the buffer is emitted as a line without terminator exactly when it is non-empty and accepted |
| `Jsonl.LineSplitter.Reset` | packages/parser/src/jsonl.ts:240-249 | all seven fields are as in a new splitter |
| `SplitterLaws.PushSplit` | packages/parser/src/jsonl.ts:110-232 | pushing a text whole or cut in two gives the same state and report if and only if the first part does not overflow or the second has no LF |
| `SplitterLaws.AnyChunking` | packages/parser/src/jsonl.ts:110-232 | when every line fits, any chunking of a stream gives the lines, leftover and leading bytes of the whole text, and terminators plus leftover restore the text |
| `SplitterLaws.PushAllIsPush` | packages/parser/src/jsonl.ts:110-232 | from any valid, non-discarding state with fitting lines, any number of chunks act as one push of their concatenation |
| `SplitterLaws.LateTerminator` | packages/parser/src/jsonl.ts:114-149 | after a line emitted at end of file one following LF or CRLF, however chunked, yields no line and is counted as leading bytes |
| `SplitterLaws.RejoinLines` | packages/parser/src/jsonl.ts:193-232 | the texts re-joined with the terminators their `terminatorBytes` name, followed by the tail, are the split text |
| `SplitterLaws.SkippingIsNotChunkInvariant` | packages/parser/src/jsonl.ts:210-216 | for every cap, a line one unit longer is delivered whole when its LF is in the same chunk and reported as discarded when the LF comes in the next |
| `SplitterConservation.EveryByteIsAccountedFor` | packages/parser/src/jsonl.ts:110-289 | over any interleaving of pushes, checkpoints, finalizations and ends of input, the UTF-8 octets pushed equal the bytes reported plus the bytes held |
| `SplitterConservation.LittleStaysHeld` | packages/parser/src/jsonl.ts:257-289 | what is still unreported after each kind of operation that gives no text: end of input, checkpoint, finalization |
| `SplitterSpec.PushKeepsValid` | packages/parser/src/jsonl.ts:76-100 | every push keeps the relations between the flags, the accumulator and the buffer |
| `IngestLaws.RunTiles` | packages/server/src/app-state.ts:262-277 | over any run of chunks, read completions and rotations the stream since the last rotation is tiled by lines, the gaps passed over and the text held, with the cursor at the exact octet count; a gap is the byte order mark at the start, one late terminator after a line that had none, or a piece of a line that is over the cap |
| `IngestSpec.GapIsOk` | packages/parser/src/jsonl.ts:110-232 | what one push may report as a gap, and that discarding starts only with more than the cap held |
| `IngestLaws.OffsetsAreExact` | packages/server/src/app-state.ts:396-418 | every ingested record lies at its `byteOffset`: that many UTF-8 octets of the decoded stream precede its text |
| `IngestLaws.OneWarningPerOversizedLine` | packages/server/src/app-state.ts:261-277 | over every run the banners raised are as many as the oversized lines among the segments the stream is tiled by: the maximal runs of discarded pieces closed by an LF, plus one if an open line has been reported |
| `IngestLaws.ReadCompleteLeavesLittle` | packages/parser/src/jsonl.ts:257-289 | after the initial read nothing of the stream is left untold but a tail that does not parse, or the one CR that may belong to a late terminator |
| `IngestSpec.PushReports` | packages/parser/src/jsonl.ts:110-232 | one push turns the text held plus the chunk into a reported gap, complete lines and the text held from then on |
| `IngestLoop.IngestLoop.OnChunk` | packages/server/src/app-state.ts:443-462 | callbacks, leading bytes and lines move the cursor as the specification `OnChunk` does |
| `IngestLoop.IngestLoop.OnInitialReadComplete` | packages/server/src/app-state.ts:432-442 | checkpoint, then the accepted tail, move the cursor as `OnReadComplete` does |
| `IngestLoop.IngestLoop.OnReset` | packages/server/src/app-state.ts:463-471 | a rotation puts cursor and splitter back to the start |
| `Events.KeyInjective` | packages/shared/src/correlation.ts:23-32 | for one session the key text determines request direction, id type and id; numbers are written out in decimal |
| `SessionKeys.KeyInjectiveAcrossSessions` | packages/shared/src/correlation.ts:16-32 | the keys of two sessions determine session, direction, id type and id if and only if it is one session, or their texts differ and neither begins like a whole key head of the other up to a string id |
| `SessionKeys.SessionsCollideIff` | packages/shared/src/correlation.ts:23-32 | two different session texts share some key text if and only if one swallows the other |
| `SessionKeys.SeparatorFreeIsSafe` | packages/shared/src/correlation.ts:23-32 | a session without `::` is swallowed by none |
| `SessionKeys.SessionsCanCollide` | packages/shared/src/correlation.ts:16-32 | two different sessions and ids with one key text: what the comment promises for all sessions does not hold of the code |
| `Events.PairKeys` | packages/shared/src/correlation.ts:40-54 | a request and a response have one key if and only if they travel in opposite directions with the same typed id |
| `EventStore.EventStore.Append` | packages/core/src/event-store.ts:82-113 | the event goes to the end of all thirteen columns and of the position lists of its kind, direction and method; the rest stays |
| `EventStore.EventStore.Reset` | packages/core/src/event-store.ts:62-80 | all columns and side indexes are empty |
| `EventStore.PositionsComplete` | packages/core/src/event-store.ts:82-104 | a position list holds exactly the indexes at which its key stands, in order |
| `Correlator.Correlator.OnAppend` | packages/core/src/correlator.ts:110-123 | fresh slots, then pairing, as the specification `OnAppend` |
| `Correlator.Correlator.OnRequest` | packages/core/src/correlator.ts:125-156 | a request meets a waiting response or is parked, displacing its key or evicting the first key in map order |
| `Correlator.Correlator.OnResponse` | packages/core/src/correlator.ts:158-179 | the same for a response, with no status of its own while it waits |
| `Correlator.Correlator.Pair` | packages/core/src/correlator.ts:181-195 | links, latency, shared outcome and change marks of a pair |
| `Correlator.Correlator.Flush` | packages/core/src/correlator.ts:79-93 | the loop over the pending requests is the specification `Flush` |
| `Correlator.Correlator.DrainChangedIndexes` | packages/core/src/correlator.ts:69-77 | the change set is handed over and emptied |
| `CorrelatorLaws.NextKeeps` | packages/core/src/correlator.ts:79-195 | every append, flush, drain and reset keeps the whole invariant, never revises a settled status, and lists every index whose status, partner or latency changed |
| `CorrelatorLaws.EveryRunIsConsistent` | packages/core/src/correlator.ts:110-195 | in every reachable state pairing is a symmetric link of one request and one response of equal key and outcome, pending means parked, every request is in exactly one situation, both maps are bounded |
| `CorrelatorLaws.FlushExact` | packages/core/src/correlator.ts:79-93 | a flush makes exactly the expired pending requests unmatched and changes nothing else |
| `CorrelatorLocality.Locality` | packages/core/src/correlator.ts:79-195 | below the bound, the status and partner of every event are those of a three-state automaton run on the events of its key and the timeout flushes alone |
| `CorrelatorEviction.ArrivalsPark` | packages/core/src/correlator.ts:125-179 | in every reachable state an arrival that parks costs at most one waiting message its place: the one of its own key, which is orphaned, or in a full list the first in map order; a request that loses its place so is unmatched, a response keeps its status |
| `AppState.AppState.OnStoreAppend` | packages/server/src/app-state.ts:375-394 | the subscriber: new row, patches of older rows, emitted frames, as the specification `OnEvent` |
| `AppState.AppState.BuildPatchUpdates` | packages/server/src/app-state.ts:348-371 | the loop patches exactly the listed rows that are out of date and reports the same updates |
| `AppState.AppState.RunFlush` | packages/server/src/app-state.ts:490-495 | flush, then patches, as the specification `RunFlush` |
| `AppState.AppState.OnReset` | packages/server/src/app-state.ts:463-484 | everything derived from the log is cleared and a rotation is announced |
| `AppSpec.StepKeeps` | packages/server/src/app-state.ts:308-394 | after every append, flush, rotation or notice each row shows what the correlator would give now, its sequence-number fields follow from the earlier events, and the emitted frames turn the old rows into the new |
| `AppSpec.RowsShowPairs` | packages/core/src/row-projection.ts:67-73 | in every reachable state, from the events alone: a request that shows partner p shows the time from it to p, unless negative, and the band of that time; no other row shows a latency; partners show each other, have one key and show the outcome of the response |
| `AppSpec.RowsShowSequence` | packages/server/src/app-state.ts:306-319 | the previous sequence number of a row is the greatest among the earlier events, none if there is none, and a gap is shown exactly when the row's own is more than one beyond it |
| `AppSpec.UpdatesAreNews` | packages/server/src/app-state.ts:348-371 | the updates of a patch name only listed rows that are out of date, each once |
| `SseStream.SseStream.Enqueue` | packages/server/src/sse-routes.ts:114-149 | coalescing, limits and counters as the specification `Enqueue` |
| `SseStream.SseStream.End` | packages/server/src/sse-routes.ts:103-109 | the first end reason wins, the queue is dropped from the books, the stream is detached |
| `SseStream.SseStream.OnAbort` | packages/server/src/sse-routes.ts:88-109 | the flag is set and the stream is asked to end, unless it has another reason already |
| `SseStream.SseStream.OnWritten` | packages/server/src/sse-routes.ts:155-261 | a completed write is taken off the books and the writer moves on as the specification `Next`; that this drains the queue is `LiveDelivery.ClientCatchesUp` |
| `StreamLaws.NextAccounts` | packages/server/src/sse-routes.ts:155-261 | every step of the writer keeps the pending counters equal to the sums over frame in flight and queue |
| `StreamLaws.CoalesceMeans` | packages/server/src/sse-routes.ts:296-314 | a coalesced frame does to the client's rows what the two frames did, and carries the rows or updates it counts |
| `StreamLaws.EnqueueMeans` | packages/server/src/sse-routes.ts:114-149 | unless it ends the stream, an enqueued frame, merged or not, is as good as applied at the end of the client's future |
| `StreamLaws.OpenMeans` | packages/server/src/sse-routes.ts:194-226 | a fresh stream's snapshot script rebuilds the server's rows at the moment of subscription |
| `StreamProgress.LiveWritesNext` | packages/server/src/sse-routes.ts:155-164 | a live writer with no end reason that wakes up or ends a write takes the first queued frame and writes it; with the queue empty it sends the ping that is due, else it rests |
| `StreamProgress.StreamDrains` | packages/server/src/sse-routes.ts:155-261 | with no end reason and nothing more emitted, a stream is quiet after exactly the writes that were left, and not before |
| `StreamProgress.StreamCloses` | packages/server/src/sse-routes.ts:180-192 | once an end is requested the stream closes within as many writes as were left |
| `StreamDelivery.OverflowsIff` | packages/server/src/sse-routes.ts:114-149 | a payload ends the stream by overflow if and only if the frame in flight and the queue with the payload added, merged where it may be, would pass a limit; else that queue is the new one |
| `StreamDelivery.ChunksAre` | packages/server/src/sse-routes.ts:199-221 | the snapshot chunks cut the rows at every chunk length; only the last may be shorter and none is empty |
| `StreamDelivery.NextTells` | packages/server/src/sse-routes.ts:155-261 | no step of the writer loses, repeats or reorders a payload |
| `LiveSystem.ClientViewIsServerRows` | packages/server/src/sse-routes.ts:114-261 | in every interleaving of server steps and writer steps with no end reason, folding delivered frames, the write in flight, the rest of the snapshot and the queue gives exactly the server's rows |
| `LiveDelivery.ClientCatchesUp` | packages/server/src/sse-routes.ts:155-261 | from every reachable state with no end reason, after exactly the writes that are left and no server step, the queue and the flight are empty and what was delivered folds to the server's rows; so the premise of `CaughtUpClientIsRight` is reached |
| `LiveDelivery.ClientIsToldEverything` | packages/server/src/sse-routes.ts:114-261 | in every interleaving with no end reason, what was delivered and lies ahead of the queue is the snapshot followed by payloads that with the queue carry everything emitted, each once and in order, as it was or merged with its neighbour |
| `LiveDelivery.QueueIsMergedAndWriterPoised` | packages/server/src/sse-routes.ts:114-164 | in every reachable state neighbours in the queue are merged as far as allowed, and the writer is writing, waiting for work with an empty queue, or done |
| `LiveDelivery.EndedStreamCloses` | packages/server/src/sse-routes.ts:180-192 | over runs, an ended stream closes after at most the writes that are left |
| `LiveSystem.CaughtUpClientIsRight` | packages/server/src/sse-routes.ts:194-261 | a client with nothing left to receive shows for every event what a fresh look at the correlator would show, with the latency, band and sequence fields stated from the events alone |
| `LiveSystem.BooksAreExact` | packages/server/src/sse-routes.ts:88-164 | over whole runs the counters are the exact sums, never exceed the limits, and after an end request count only the frame in flight |
| `LiveSystem.AbortedIffDisconnected` | packages/server/src/sse-routes.ts:167-180 | over whole runs the abort flag is set if and only if the client went away |
| `LiveSystem.ClosedStreamSaidGoodbye` | packages/server/src/sse-routes.ts:180-192 | unless the client went away, the last payloads of a closed stream are those listed for its reason |
| `Replay.Replay.Process` | packages/core/src/replay.ts:193-232 | one event changes the context as the specification `ProcessEvent` |
| `Replay.Replay.ProcessResponse` | packages/core/src/replay.ts:234-259 | initialize, subscribe and reconnect results, and malformed ones, by the remembered request method; which answer installs what is `ReplayAnswers.SubscribeInstalls` and the rows after it |
| `Replay.Replay.ProcessReconnectResult` | packages/core/src/replay.ts:261-320 | snapshots are installed, missing resources diagnosed, replayed actions applied in order |
| `Replay.Replay.InstallSnapshot` | packages/core/src/replay.ts:332-373 | the baseline replaces the resource; an unknown shape is recorded as such |
| `Replay.Replay.ApplyEnvelope` | packages/core/src/replay.ts:375-511 | missing baseline, rejection, sequence judgement, unknown or foreign action, reducer and its complaints |
| `Replay.Replay.ShouldApplyServerSeq` | packages/core/src/replay.ts:513-550 | in order or after a gap applied, duplicate or late refused, each with its diagnostic |
| `Replay.Replay.LinkAcceptedIntent` | packages/core/src/replay.ts:586-602 | the first unaccepted intent of that client sequence number is accepted |
| `Replay.ReplayToIndex` | packages/core/src/replay.ts:159-191 | the whole fold equals the specification, target clamped and diagnosed |
| `ReplayLaws.MapKeyInjective` | packages/core/src/replay.ts:882-884 | the text a resource is filed under determines its kind and uri |
| `ReplayLaws.CompleteIsSound` | packages/core/src/replay.ts:332-449 | after any log a resource is complete if and only if it has no diagnostics; its state is its last baseline reduced by its own kind's reducer over envelopes addressed to it, and when complete over all of those since, numbered without a gap from the baseline; it is filed under its own key |
| `ReplayLaws.OverlapIsHarmless` | packages/core/src/replay.ts:375-550 | delivering again from any point up to the cut leaves states, sequence numbers, order and accepted intents as one uninterrupted delivery |
| `ReplayLaws.ReconnectOverlapIsHarmless` | packages/core/src/replay.ts:261-320 | the same told in events: live traffic cut at `k`, a reconnect request, and an answer replaying everything from any `j <= k` |
| `ReplayLaws.ReachableIsFiled` | packages/core/src/replay.ts:159-191 | the contexts of all logs meet the requirement of the overlap theorem |
| `ReplayReports.IntentsOnlySettle` | packages/core/src/replay.ts:552-602 | between any two events of a log intents are only appended, and an accepted intent stays accepted by the envelope that accepted it |
| `ReplayReports.AcceptsOne` | packages/core/src/replay.ts:586-602 | an accepted envelope accepts exactly one intent if one awaits its client sequence number, else none |
| `ReplayReports.EveryComplaintIsReported` | packages/core/src/replay.ts:909-919 | after any log every diagnostic of a resource is among those of the replay |
| `ReplayAnswers.LastRequestCounts` | packages/core/src/replay.ts:205-212 | in events: after any log, what is remembered of a key is its last request |
| `ReplayAnswers.SubscribeInstalls` | packages/core/src/replay.ts:250-255 | in events: the answer to a subscribe request makes its snapshot the baseline of the resource of its kind and uri, with its state and sequence numbers, and touches no other resource |
| `ReplayAnswers.InitializeInstalls` | packages/core/src/replay.ts:241-249 | in events: the answer to an initialize request does so with every well-formed listed snapshot, the last of a key winning |
| `ReplayAnswers.ReconnectInstalls` | packages/core/src/replay.ts:261-320 | in events: and so does the answer to a reconnect request that brings snapshots |
| `ReplayAnswers.OtherAnswersDoNothing` | packages/core/src/replay.ts:234-259 | in events: the answer to any other request, or one without a result, changes nothing |
| `ReplayAnswers.UnaskedAnswersDoNothing` | packages/core/src/replay.ts:234-238 | in events: an answer to a key that was never asked changes nothing |
| `ReplayAnswers.MalformedAnswerIsDiagnosed` | packages/core/src/replay.ts:241-254 | in events: an answer without what its method promises is diagnosed as malformed and changes nothing else |
| `ReplayAnswers.IntentsAreRecorded` | packages/core/src/replay.ts:552-584 | after any log the intents are those of its intent events, one each, in order, with their fields |
| `ReplayAnswers.EventsAreNoted` | packages/core/src/replay.ts:193-222 | after any log, an event is complained about as unparsed, or noted as an ignored intent, under its index if and only if it is one |
| `ReplayVerdicts.KindByPrefix` | packages/core/src/replay.ts:681-711 | an action type belongs to a kind if and only if it has the prefix of that kind |
| `ReplayVerdicts.ReachesIff` | packages/core/src/replay.ts:381-397 | an envelope reaches the resource of its kind and channel if there is one, else the oldest one under its channel, and no other |
| `ReplayVerdicts.LastIsGreatest` | packages/core/src/replay.ts:513-550 | over any deliveries the last sequence number of a resource is the greatest accepted one that reached it, or its baseline's |
| `ReplayVerdicts.EveryEnvelopeIsJudged` | packages/core/src/replay.ts:375-550 | over any deliveries, each envelope is judged by the greatest number before it: what is applied, which diagnostics are drawn, whether the resource stays complete; what does not reach a resource leaves it alone |
| `ReplayVerdicts.StaysCompleteIff` | packages/core/src/replay.ts:375-550 | over any deliveries a complete resource stays complete if and only if all that reach it come next in sequence, are accepted, fit and please their reducer |
| `ReplayDelivery.ActionIsJudged` | packages/core/src/replay.ts:224-231 | in events: after any log an action event is judged by the resource it reaches against that resource's last sequence number, with state, confidence, applied index and diagnostics stated, and leaves every other resource alone |
| `ReplayDelivery.ActionWithoutBaseline` | packages/core/src/replay.ts:385-397 | in events: an action without a resource for it only draws a complaint about the missing baseline |
| `ReplayDelivery.IntentAcceptedIff` | packages/core/src/replay.ts:586-602 | in events: an action accepts an intent if and only if it is accepted by the resource it reaches and the intent is the oldest of its client sequence number still waiting; the intent then names its sequence number |
| `ReplayDelivery.TargetIsReached` | packages/core/src/replay.ts:159-191 | a replay to an event of the log shows what the log up to and with it leads to; before the log nothing, after it the whole log, with the diagnostic that there is no such event first |
| `ReplayCacheLaws.ReplayDependsOnPrefix` | packages/core/src/replay.ts:159-191 | the replay at `t` depends only on the events up to `t` |
| `ReplayCache.StateReplayIndex.StateAtIndex` | packages/server/src/state-replay-index.ts:45-74 | result, hit flag and new cache state as specified by `Answer` and `AfterQuery` |
| `ReplayCache.StateReplayIndex.InvalidateIfStorePrefixChanged` | packages/server/src/state-replay-index.ts:80-96 | the tail check and the recorded size and tail |
| `ReplayCache.StateReplayIndex.EvictToBounds` | packages/server/src/state-replay-index.ts:98-104 | the eviction loop is the recursive specification |
| `ReplayCache.StateReplayIndex.Reset` | packages/server/src/state-replay-index.ts:40-43 | cache emptied, store observed anew |
| `ReplayCacheLaws.InvalidationSuffices` | packages/server/src/state-replay-index.ts:80-96 | with never-reused event objects the tail check leaves only entries that are up to date with the store |
| `ReplayCacheLaws.CacheIsInvisible` | packages/server/src/state-replay-index.ts:40-123 | over any interleaving of appends, store resets, index resets and queries a query returns exactly the replay of the current events; the cost total is the entries' sum; both bounds hold |
| `ReplayCacheLaws.EvictsLeastRecent` | packages/server/src/state-replay-index.ts:98-104 | what eviction leaves is a tail of the recency order, unchanged |
| `ReplayCacheLaws.EvictsNoMoreThanNeeded` | packages/server/src/state-replay-index.ts:98-104 | every longer tail would exceed a bound |
| `ReplayCacheLaws.NewestSurvives` | packages/server/src/state-replay-index.ts:62-71 | the entry just stored survives the eviction it causes and is the most recent |
| `ReplayCacheUse.HitIff` | packages/server/src/state-replay-index.ts:45-74 | in every reachable state a query hits if and only if its index is cached and the store still holds the event last seen at its end |
| `ReplayCacheUse.QueryMovesRecency` | packages/server/src/state-replay-index.ts:45-74 | a hit becomes the most recent entry and nothing else changes; a miss that can be kept becomes the most recent at the cost of some of the least recent; any other query at most removes its own stale entry |
| `ReplayCacheUse.AskedAgainHits` | packages/server/src/state-replay-index.ts:45-74 | after a query whose result is cached or can be kept the same query hits again, however much the log has grown meanwhile |
| `ReplayCost.EstimateReplayResultBytes` | packages/server/src/state-replay-index.ts:132-182 | terminates on every finite heap, cyclic or shared, and returns the size of everything reachable, each object once, if within the bound, else the bound plus one |
| `Search.SearchIndex.ScanAll` | packages/server/src/search-index.ts:98-118 | the synchronous scan gives the first `limit` matches of the whole log and whether there are more |
| `Search.SearchIndex.ScanAsync` | packages/server/src/search-index.ts:60-71 | a result answers for a prefix of the log at the return; the error is thrown if and only if every attempt saw a reset |
| `Search.SearchIndex.TextFor` | packages/server/src/search-index.ts:120-131 | the text, kept if it fits the remaining budget |
| `Search.SearchIndex.Reset` | packages/server/src/search-index.ts:49-54 | next generation, nothing cached |
| `SearchLaws.SearchIsLinearizable` | packages/server/src/search-index.ts:60-96 | with arbitrary appends, resets and look-ups at every yield, a returned result is the exact answer for a prefix of the events current at return, covering all events of the call if there was no reset; cached text stays true and within budget |
| `SearchLaws.GivesUpIffInterrupted` | packages/server/src/search-index.ts:60-71 | the search gives up exactly when each of its attempts was cut short, so after at least as many resets |
| `SearchLaws.MatchesAreExact` | packages/server/src/search-index.ts:98-118 | the matches are exactly the indexes whose text holds the query, in increasing order |
| `SearchLaws.IncludesMeans` | packages/server/src/search-index.ts:83-84 | substring search, stated by position |
| `SearchAnswers.AnswerMeans` | packages/server/src/search-index.ts:98-118 | every answer lists the earliest matching events in order and at most `limit` of them, and is truncated if and only if some match is not listed, in which case the list is full |
| `SearchAnswers.YieldsRegularly` | packages/server/src/search-index.ts:91-94 | an attempt that goes through the whole log lets others in after every `yieldEvery` events |
| `SearchAnswers.SearchCachesLog` | packages/server/src/search-index.ts:120-131 | a search of the whole log leaves every text cached if the log fits the budget |
| `ChatStatus.StaysDerivedIff` | packages/protocol/src/channels-chat/reducer.ts:157-183 | one action keeps the status bits derived from the active turn if and only if it is not a `chat/responsePart` that adds a blocking part to a turn that did not block |
| `ChatStatus.StatusCanLag` | packages/protocol/src/channels-chat/reducer.ts:422-435 | a concrete chat and blocking part after which the status is not the one the active turn calls for |
| `ChatStatus.StatusOverRuns` | packages/protocol/src/channels-chat/reducer.ts:147-183 | over every run without such an action the status says whether a turn is active and, if so, whether some call or input request waits for someone; with no turn it is idle or an error; the archived bit never changes, the read bit is never set |
| `ChatStatus.FlagsAfter` | packages/protocol/src/channels-chat/reducer.ts:152-154 | the read bit is cleared by exactly the actions that need attention; the archived bit by none |
| `ChatStatus.HarmlessPartsNeverStray` | packages/protocol/src/channels-chat/reducer.ts:422-435 | runs whose added parts do not block meet the condition of the status theorem |
| `ChatErrors.UnmatchedUpdateCanClear` | packages/protocol/src/channels-chat/reducer.ts:288-325 | a concrete chat and update: nothing is found, and the error shown is cleared all the same |
| `ChatErrors.UnmatchedUpdateIff` | packages/protocol/src/channels-chat/reducer.ts:288-325 | an update that finds no call returns the chat as it was if and only if it does not recompute the status or the status was up to date |
| `ChatErrors.UnmatchedUpdateClearsErrorIff` | packages/protocol/src/channels-chat/reducer.ts:556-785 | while the status is derived, if and only if no error is shown or the action does not recompute |
| `ChatErrors.ErrorAfterIff` | packages/protocol/src/channels-chat/reducer.ts:157-183 | an error is shown after an action if and only if it breaks off the active turn, or one was shown and the action is none of the four that clear it |
| `ChatErrors.ErrorOverRunsIff` | packages/protocol/src/channels-chat/reducer.ts:443-484 | over every run, an error is shown at the end if and only if a turn broke off (or an error was shown at the start) and nothing since clears it |
| `CallMachine.UpdateLives` | packages/protocol/src/channels-chat/reducer.ts:541-785 | every tool-call action moves a call only along the state machine, keeps its id and its owning client |
| `CallMachine.StagesReached` | packages/protocol/src/channels-chat/reducer.ts:541-785 | exactly which stages a call can reach by any number of steps: never back to streaming, from a delivered result only to its end, to authentication only if no client owns it |
| `ChatHistory.CallIsLocal` | packages/protocol/src/channels-chat/reducer.ts:293-325 | over any run, wherever the call goes, its record is the single-call state machine run on the updates addressed to it and the end of its turn, and nothing else |
| `ChatHistory.CallsOverRuns` | packages/protocol/src/channels-chat/reducer.ts:60-82 | followed through a whole run, into the history and back, a call keeps its id and owner (no call becomes client-owned later), is in a stage its stage can reach, and once completed or cancelled never changes |
| `ChatHistory.PausedOverRuns` | packages/protocol/src/channels-chat/reducer.ts:633-695 | over a run that never resolves its authentication a waiting call keeps its message, input, confirmation, option and content until the first failed result or the end of its turn; a failed result ends it with the result's own content or else what it had when it paused |
| `ChatHistory.NoSuccessWithoutAuth` | packages/protocol/src/channels-chat/reducer.ts:633-695 | a call waiting for authentication reaches no success in a run without an auth-resolved action for it |
| `CallMachine.ReannouncingLosesOutput` | packages/protocol/src/channels-chat/reducer.ts:556-596 | a concrete running call that loses content and option when it is announced again |
| `CallMachine.UpdateKeepsOutputIff` | packages/protocol/src/channels-chat/reducer.ts:556-785 | an update that leaves a call running and reports no content keeps content and option if and only if it is no announcement or there was neither |
| `CallMachine.ReapprovalKeepsOutputIff` | packages/protocol/src/channels-chat/reducer.ts:556-631 | announced back to a confirmation and approved, the call keeps its content only if it had none, its option if and only if it is chosen again among those now offered |
| `ChatHistory.OutputOverRuns` | packages/protocol/src/channels-chat/reducer.ts:556-785 | over every run, a call without a result shows the content last reported and the option last approved since it was last announced |
| `CallRecord.OutcomeOverRuns` | packages/protocol/src/channels-chat/reducer.ts:556-785 | over every run a call is cancelled if and only if a step cancelled it, for the reason and feedback that step gives; its option is the one last chosen; and unless cancelled its result is the one delivered and its confirmation the last it had |
| `CallRecord.UnfitIsIgnored` | packages/protocol/src/channels-chat/reducer.ts:515-785 | a change that does not fit the stage of a call leaves it as it is |
| `CallRecord.ReviewIsLastWord` | packages/protocol/src/channels-chat/reducer.ts:633-729 | over any steps a call is under review if and only if a result was delivered for review and neither decided nor cut off since |
| `CallRecord.AboutIsLastWord` | packages/protocol/src/channels-chat/reducer.ts:556-632 | over any steps the message and the input of a call are the last announced, inline input as last edited on approval |
| `CallRecord.BaseIsLastWord` | packages/protocol/src/channels-chat/reducer.ts:60-83 | over any steps a call keeps its names; its metadata, intention and tool server are the last it was given, a client owner stays |
| `CallRecord.StreamingIsWhatWasStreamed` | packages/protocol/src/channels-chat/reducer.ts:541-555 | as long as a call streams it shows everything streamed so far in order, and its latest progress, whatever else is addressed to it |
| `CallRecord.PromptIsLastAsked` | packages/protocol/src/channels-chat/reducer.ts:556-597 | each field of the prompt of a call that waits to be confirmed is the last it was announced with, kept from the earlier announcement when a later one leaves it out |
| `CallRecord.ChosenIsOnOffer` | packages/protocol/src/channels-chat/reducer.ts:85-94 | the option chosen is the first on offer with that id, none if there is none |
| `ChatHistory.OutputKeptOverRunsIff` | packages/protocol/src/channels-chat/reducer.ts:556-785 | over a run that reports nothing new a running call keeps its content if and only if it had none or was never announced again, its option if and only if it was never announced again or the last approval since chose the same |
| `ChatHistory.HistoryOnlyMoves` | packages/protocol/src/channels-chat/reducer.ts:191-253 | every action changes the history only by appending the settled record of the active turn, popping the last turn back into activity, keeping a prefix, or prepending loaded turns |
| `ChatHistory.HistoryOverRuns` | packages/protocol/src/channels-chat/reducer.ts:743-766 | over every run, given well-typed parts and settled loaded turns, the history holds only settled calls and only tool-server calls ever wait for authentication |
| `ChatCalls.AuthRoundTrip` | packages/protocol/src/channels-chat/reducer.ts:743-785 | pausing for authentication and resuming gives the running call back with its content, confirmation and option; only metadata may differ |
| `ChatCalls.ApprovedReviewIsTransparent` | packages/protocol/src/channels-chat/reducer.ts:633-729 | reviewing a result and approving it ends exactly as completing without review |
| `ChatCalls.InputSurvives` | packages/protocol/src/channels-chat/reducer.ts:541-785 | past streaming, what will be executed changes only by a new announcement or by an approval that really edits inline input |
| `ChatCalls.DeltasAccumulate` | packages/protocol/src/channels-chat/reducer.ts:541-554 | the partial input is everything streamed so far, in order |
| `ChatCalls.ResumeUndoesFailure` | packages/protocol/src/channels-chat/reducer.ts:443-484 | failing a turn resumably and resuming it restores history, id, start, message and usage, with the open calls settled and the failure last |
| `ChatCalls.OnlyResumableFailuresResume` | packages/protocol/src/channels-chat/reducer.ts:453-484 | after any other end of a turn a resume changes nothing |
| `ChatCalls.DraftChanges` | packages/protocol/src/channels-chat/reducer.ts:846-877 | an answer sets or removes the draft of its question in the first open request of the id, and no other draft |
| `ChatCalls.AnswerUndone` | packages/protocol/src/channels-chat/reducer.ts:846-877 | an answer given and taken back leaves the drafts as they were |
| `ChatCalls.AskingAgainKeepsDrafts` | packages/protocol/src/channels-chat/reducer.ts:255-286 | a request repeated without answers keeps the drafts |
| `ChatInput.RequestOverRuns` | packages/protocol/src/channels-chat/reducer.ts:843-911 | over every run an input request shows for each question the answer last given, submitted answers over drafts, the response it was completed with and the prompt last asked; only actions that name it while it is the first open one of its id change it |
| `ChatInput.CompletedIsFinal` | packages/protocol/src/channels-chat/reducer.ts:879-911 | nothing ever changes a completed request, in the turn or in the history |
| `ChatInput.CompletionIsRecorded` | packages/protocol/src/channels-chat/reducer.ts:879-911 | completing closes the first open request of the id with that response, its answers the submitted ones over its drafts, and leaves every other part alone |
| `ChatText.TextIsWhatWasStreamed` | packages/protocol/src/channels-chat/reducer.ts:413-420 | over every run a markdown or reasoning part, followed into the history and back, is its starting text and then, in order, the deltas of its sort that named it while it was the first part of its id; no other part without a call or request ever changes |
| `ChatText.TurnGains` | packages/protocol/src/channels-chat/reducer.ts:422-435 | while a turn goes on its parts keep their places, and a part that is added comes last |
| `ChatRecords.TurnIsRecorded` | packages/protocol/src/channels-chat/reducer.ts:191-253 | a turn from start to end, whatever happens in between: the history gains its record with the message and start it was begun with, the usage last reported, the state named by the ending action, a duration that is never negative, a failure noted last |
| `ChatRecords.ResumedTurnIsRecorded` | packages/protocol/src/channels-chat/reducer.ts:453-484 | a turn resumed after a failure is recorded from its first start, or from the last change if that is not known |
| `ChatRecords.TruncationKeeps` | packages/protocol/src/channels-chat/reducer.ts:806-829 | cutting off keeps exactly the turns up to the first of that id and drops the active turn; an unknown id changes nothing |
| `ChatRecords.LoadingAddsMissing` | packages/protocol/src/channels-chat/reducer.ts:831-841 | loading puts in front exactly the turns whose ids the chat does not have; an unknown page goes in whole and in order |
| `ChatRecords.LoadingTwiceIsOnce` | packages/protocol/src/channels-chat/reducer.ts:831-841 | loading the same page again changes nothing |
| `ChatRecords.DirectoriesOverRuns` | packages/protocol/src/channels-chat/reducer.ts:491-511 | over every run, how often a directory is listed follows from the actions that name it: setting adds it if it is missing, removing takes one off |
| `ChatRecords.PropertiesAreTheLatest` | packages/protocol/src/channels-chat/reducer.ts:486-489 | over every run activity, draft and cursor are the last reported; cutting everything off forgets the cursor |
| `ChatQueue.StartConsumesMessage` | packages/protocol/src/channels-chat/reducer.ts:400-409 | a turn started from a pending message takes exactly that message off, the others keep their order |
| `ChatQueue.RemoveUndoesSet` | packages/protocol/src/channels-chat/reducer.ts:913-943 | a message queued under a new id and removed again leaves no trace |
| `ChatQueue.ReorderIsPermutation` | packages/protocol/src/channels-chat/reducer.ts:945-968 | a reorder is a permutation of the queue |
| `ChatQueue.MentionedByFirstMention` | packages/protocol/src/channels-chat/reducer.ts:951-960 | the mentioned messages come by their first mention in the order |
| `ChatQueue.RestKeepsOrder` | packages/protocol/src/channels-chat/reducer.ts:961-966 | the other messages keep their relative order |
| `ChatQueue.QueueOverRuns` | packages/protocol/src/channels-chat/reducer.ts:400-409 | over every run the queued ids stay distinct and the list is never present but empty |
| `ChatPending.QueueHoldsWhatStands` | packages/protocol/src/channels-chat/reducer.ts:913-945 | over every run the queue holds a message if and only if it was set last under its id and neither removed nor started since |
| `ChatPending.UnnamedKeepOrder` | packages/protocol/src/channels-chat/reducer.ts:913-943 | over every run without a reorder the messages that no action names keep their order among themselves |
| `ChatPending.SetTakesPlace` | packages/protocol/src/channels-chat/reducer.ts:913-926 | a message set under a queued id takes that message's place, under a new id the last |
| `ChatPending.SteeringIsWhatStands` | packages/protocol/src/channels-chat/reducer.ts:913-934 | over every run the steering message is the last one set, unless its id was removed or started since |
| `Chat.EndActiveTurn` | packages/protocol/src/channels-chat/reducer.ts:191-253 | the loop settles the open calls, a failure goes last, the turn moves to the history |
| `Chat.UpdatedCalls` | packages/protocol/src/channels-chat/reducer.ts:293-325 | the loop updates every call of the id; if none changed the parts are as before |
| `Chat.UpdateToolCall` | packages/protocol/src/channels-chat/reducer.ts:293-325 | the update reaches the active turn of that id only, and is the specification also when it keeps the old parts |
| `Chat.ExtendedPart` | packages/protocol/src/channels-chat/reducer.ts:332-369 | the loop offers the delta to the first part of the id only |
| `Chat.UpsertInputRequestPart` | packages/protocol/src/channels-chat/reducer.ts:255-286 | a request is pushed or replaces the open one of its id, keeping drafts; the chat then needs input |
| `Chat.ResumeTurn` | packages/protocol/src/channels-chat/reducer.ts:453-484 | the last turn is spliced out and becomes active if it stopped at a resumable error |
| `Chat.ReorderQueue` | packages/protocol/src/channels-chat/reducer.ts:945-968 | the set and map loops compute the specified order, a permutation for distinct ids |
| `TerminalSpec.ContentIsTheStream` | packages/protocol/src/channels-terminal/state.ts:138-141 | over every run the concatenated content is the initial content, or nothing after the last clear, followed by all data since |
| `TerminalSpec.TextIsNeverSplit` | packages/protocol/src/channels-terminal/reducer.ts:26-37 | no two unclassified parts become adjacent |
| `TerminalSpec.PartsContinue` | packages/protocol/src/channels-terminal/reducer.ts:26-100 | without a clear every part stays in place and only grows; the output of a finished command never changes |
| `TerminalRecord.CommandIsRecorded` | packages/protocol/src/channels-terminal/reducer.ts:71-100 | a command from start to end, whatever else happens around it: its place holds the line and time it was started with, exactly what was written while it ran, and the exit code and duration it ended with |
| `TerminalRecord.EndIsAsReported` | packages/protocol/src/channels-terminal/reducer.ts:87-100 | over every run without a clear a command is complete if and only if it was or its end was reported, with the exit code and duration of the last report for its id |
| `TerminalRecord.LooseTextIsRecorded` | packages/protocol/src/channels-terminal/reducer.ts:26-37 | what is written between commands is one piece of loose text after the parts there were |
| `TerminalRecord.PropertiesAreTheLatest` | packages/protocol/src/channels-terminal/reducer.ts:44-69 | over every run size, title, directory, claim, lifecycle and command detection are the last reported |
| `Terminal.AppendData` | packages/protocol/src/channels-terminal/reducer.ts:26-37 | overwriting the tail or pushing a part, and the stream grows by exactly the data |
| `Terminal.FinishCommand` | packages/protocol/src/channels-terminal/reducer.ts:87-100 | every command of the id is completed; the stream is unchanged |

## Left out

- ByteCountIsUtf8: one direction and paired text only, because the exact set of unpaired texts on which the count happens to agree has no use in the program.
- KeyInjective: numeric ids are integers; fractions and the exponent form of very large numbers are not modelled.
- Locality: below the bound of pending entries; what an eviction does is `CorrelatorEviction.ArrivalsPark`.
- CaughtUpClientIsRight: the row's summary, preview and pair method are not modelled, because they are not recomputed when a pair arrives late.
- OneWarningPerOversizedLine: counts banners since the last rotation; the limit of 50 sticky warnings and their texts are not modelled.
- CompleteIsSound: reducers are parameters, so it says which reducer runs on which envelopes, not what a reducer does; the legacy session reducer's clock is the event time passed to it.
- ReconnectOverlapIsHarmless: states are compared by any equivalence the reducers respect (equality when no reducer reads the clock); diagnostics, confidence, event indexes and remembered requests may differ.
- CacheIsInvisible: the stored result is compared as a value; that callers share one frozen object is not modelled. The cost function of the cache is a parameter, `EstimateReplayResultBytes` is proved on its own.
- EstimateReplayResultBytes: the heap is a finite graph of arrays and records with own keys; getters and prototypes are not modelled.
- ScanAsync: what others do at a yield is a given schedule of appends, resets and look-ups; other searches are their look-ups.
- HistoryOverRuns: parts and turns that come from outside are required to be well typed, as the protocol's types demand.
- LineSplitter: the strict, throwing mode and the wrappers `push` and `flush`.
- SseStream.SseStream.OnWritten: a write that throws; the limit on the number of streams.
- EventStore.EventStore.Append: the listeners it calls and their error handling; the correlator and the rows are called in their subscription order.
- AppState.AppState.OnStoreAppend: the append to the search index that happens along with it; the index is a model of its own, with appends as a step of others.
- AppState.AppState.OnReset: of the resets it makes, those of the search index, the replay cache, the splitter and the load counters; the first three are proved where they belong (`Search.SearchIndex.Reset`, `ReplayCache.StateReplayIndex.Reset`, `IngestLoop.IngestLoop.OnReset`).
- Chat: timestamps are integers in milliseconds; names, previews and other payloads are opaque tokens; log messages of ignored contributors.
- Row text, event narrowing, record normalization, JSON decoding and wire metadata: per-record field reading.
- Reducers of the root, session, changeset, annotations, automation and resource-watch channels: mostly keyed insert and remove.
- File watching, directory walks, HTTP routing, middleware, the user interface, the command line and the extension: input, output and presentation.
