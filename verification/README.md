# Live transcript server: model and proofs

A Dafny model of the stateful core of the live transcript server: the bounded parallel chunk
merge, the WebSocket hub and the synchronisation of a connecting client, the long-poll notifier
and the worker's event cursor, transcript replication between worker and server, media selection
for clips and VODs, the life of a stream with retention, and the single-flight VOD builds.

Two kinds of model stand side by side.

- **Objects and sequential code** (`Hub`, `Notifier`, `App`, `WorkerHandlers`, `Lifecycle`, `Vod`,
  `Clips`, the methods of `ConnectSync`, `WorkerEvents` and `Transcripts`): classes and methods
  whose contracts give the whole new state of a call that runs without interference.
- **Interleavings** (`ChunkMerge`, `HubRuns`, `ConnectSync`, `WaitRuns`, the runs of `WorkerEvents`
  and `Lifecycle`, `Replication`, `VodRuns`): a state, an `Enabled` predicate and an `Apply` function
  with one step per critical section, queue operation, statement or network event. The theorems
  speak about every run, that is every sequence of enabled steps from the initial state.

SQL tables are finite maps by primary key and every statement or transaction is atomic. `ORDER BY`
with equal keys answers in any order. Storage is a map from keys to bytes; downloads, conversions
and uploads are inputs that succeed or fail. The clock is a nondecreasing integer and fresh IDs are
IDs not used before.

## What is proved

- **Merge.** `EveryScheduleIsSequential`: whatever the schedule, an uncancelled merge returns what
  fetching and appending the chunks one by one returns: all bytes in order, or the error of the
  smallest bad index and no merged file. `StuckRunsHaveReturned` and `RunsAreBounded`: no deadlock and
  no endless schedule, on success, failure and cancellation, and nothing outlives the call.
  `DiskBound`: slots are held for one contiguous window of indices, so at most 32 chunk files exist
  besides those the system refused to delete (the code ignores that error); `AtMost32Files`: at most
  32 files if it refuses none. `MergeRawAudio` runs the call under any scheduler and is proved total.
- **Hub.** `SlotsConserved`, `DeliveredInHubOrder`, `ReturnedBroadcastReached`, `NothingMissedAtRest`;
  `BroadcastsEnd`: from every reachable state the running broadcasts can come to that rest.
- **Connecting.** `NothingLost`: the snapshot and the subscription together miss no completed line.
- **Long polls.** `NoLostWakeup`, with the pieces of a condition read one at a time; `WokenChecksAgain` and
  `OnlyGivingUpSaysNo`: who wakes checks again, and is told "not ready" only on giving up.
- **Event cursor.** The comment in `internal/server/handlers_events.go:43-49` says that a URL is missed
  only in the second of the cursor held. That is false in two ways. The stamp is taken before the
  row is written (`internal/server/app.go:188`), so a URL whose write waits past its second can be
  overtaken by a later stamp. And a URL announced after its channel was read, while the same poll
  still reads other channels, can be overtaken by theirs. `MissedExactlyIf` says exactly what a
  worker is exposed to: it can miss a URL with an earlier second if and only if the channel is one
  it polls; if every write lands in the second of its stamp, if and only if that channel is not the
  last one it lists; in the cursor's second, if and only if it polls the channel; and it never
  misses a URL with a later second.
- **Replication.** `AlwaysAPrefix` over a network that loses, duplicates, delays and reorders;
  `AcceptedExactlyInOrder` says when a 409 is answered and `ResyncRestores` that a current sync repairs;
  `CatchesUp`: from every reachable state a current sync and the lines after it make both equal.
- **Media flags.** `MediaSurvives` when each handler is one step. `syncHandler` reads the flags and
  replaces the rows in two statements; `SplitResyncKeepsMediaIff` says exactly when a line keeps its
  flag and its latest file over that, `WindowKeepsMediaIff` says it of all handlers that run in
  between, and `SplitResyncLosesUpload` gives the two uploads that are lost: a first one, with
  the flag, and a later one, whose file gives way to the older file.
- **Clips and renders.** `PostClip` composes the pigeonhole of `FullCountIsEveryLine` with the merge: a clip
  is the raw chunks of exactly its lines. `PostAndBuild`: a render is the conversion of the raw chunks of
  exactly the lines with media, by line ID.
- **Lifecycle.** `RetentionExact`, `OneLiveStream`, and `ActivationKeepsLiveNewestIff`: activating a
  stream that is not the newest keeps "every live stream is the newest" exactly if its ID was not
  stored, or no past stream is kept. `TwoLiveStreamsIff` says what follows from that: reactivating a
  stored stream that is not the newest and then activating a new one leaves both live exactly if
  fewer than numPast streams are newer than the reactivated one (`ReactivationLeavesTwoLive` is
  one such case); otherwise the live stream is deleted by the second activation.
  `SyncKeepsLiveNewestIff` and `NewSyncKeepsLiveNewestIff` say the same of a resync that names another
  stream than the newest.
- **VOD.** Any mix of requests, builds, deletes of the stream and of its media folder, and resyncs that
  store it again. `SingleFlight`: one build at a time, as long as none is forgotten under way.
  `AtMostOneArtifact`: one stored render, as long as neither a completion nor a forget takes a build
  out of the registry while a request can still claim next to its render (`DoublesRender`).
  `HarmIsDone` shows from every reachable state that these steps let a second render be stored, or
  a second build run; `RenderHarmIsExact` and `BuildHarmIsExact` that no other step does. Both are
  stated twice (`restoring`): with the steps that follow free to store the deleted stream again, and
  without, where after a delete only a request that already holds its chunk list can claim.

Where comments and code differ the model follows the code: `internal/server/vod.go:32` calls the VOD
key fixed, but the upload draws a random ID (`internal/server/vod.go:495`).

## Model

| member | source | states |
|---|---|---|
| ChunkMerge.ChunkNamesDistinct | internal/media/merge.go:144-152 | chunk files of different indices never share a name, repeated file IDs or not |
| ChunkMerge.SequentialMeaning | internal/media/merge.go:104-138 | the reference merge succeeds exactly if no chunk has an error, with all bytes in order, and else fails with the error of the smallest bad index |
| ChunkMerge.StepKeepsInv | internal/media/merge.go:65-134 | every move of producer, downloaders, writer or caller keeps the slot window, the WaitGroup count, the one-element channels and the contents of chunk files and merged file |
| ChunkMerge.NothingOutlivesTheCall | internal/media/merge.go:53-57 | after the return no goroutine can move: the producer and every started downloader are gone |
| ChunkMerge.NextStep | internal/media/merge.go:104-137 | until the call has returned, some goroutine can move |
| ChunkMerge.StepDropsMeasure | internal/media/merge.go:79-134 | every move brings the call closer to its return |
| ChunkMerge.RunsAreBounded | internal/media/merge.go:79-138 | every schedule is finite, linear in the number of chunks |
| ChunkMerge.StuckRunsHaveReturned | internal/media/merge.go:96-138 | a schedule that cannot continue has returned, with an empty download directory and no goroutine left |
| ChunkMerge.EveryScheduleIsSequential | internal/media/merge.go:76-138 | without cancellation the outcome is that of the sequential merge, and the merged file exists exactly on success |
| ChunkMerge.CancelledRunsNeverLie | internal/media/merge.go:104-120 | under cancellation a success is still the whole merge and a failure leaves no merged file and is the sequential error or names the cancellation |
| ChunkMerge.DiskBound | internal/media/merge.go:70-93 | at every moment the held slots are one contiguous window of at most 32 indices and bound the chunk files on disk |
| ChunkMerge.DownloadLeaves | internal/media/merge.go:147-165 | a finished download leaves its chunk in its file, a broken one as much as arrived |
| ChunkMerge.AppendLeaves | internal/media/merge.go:121-131 | an append adds its whole chunk to the merged file, or as much as was written when it fails |
| ChunkMerge.UndeletedWasRefused | internal/media/merge.go:132 | a file counts as undeleted only after its own os.Remove failed |
| ChunkMerge.DeletionsHappen | internal/media/merge.go:132 | a deletion that succeeds takes exactly the appended chunk's file away, one that fails leaves the directory as it was |
| ChunkMerge.AtMost32Files | internal/media/merge.go:70-93 | in a run in which no deletion failed at most 32 chunk files exist at any moment |
| ChunkMerge.CancelledBeforeFails | internal/media/merge.go:104-108 | a call whose context is done before it begins reports that and nothing else |
| ChunkMerge.MergeRawAudio | internal/media/merge.go:25-139 | the call terminates under any scheduler, and returns the sequential result unless the caller cancels |
| StorageKeys.KeyExamples | internal/storage/keys.go:11-57 | the literal layout of every kind of key and prefix |
| StorageKeys.StreamPrefixSelects | internal/storage/keys.go:45-50 | a stream's prefix matches a raw, audio, frame, clip or VOD key exactly if channel and stream agree |
| StorageKeys.RawPrefixSelects | internal/storage/keys.go:53-57 | the raw prefix matches exactly the raw keys of its own stream |
| StorageKeys.VodPrefixSelects | internal/storage/keys.go:39-43 | the VOD prefix matches exactly the VOD keys of its own stream |
| StorageKeys.VodJobKeyInjective | internal/server/vod.go:107-109 | two streams share a job key only if they are the same stream |
| StorageKeys.RawKeyInjective | internal/storage/keys.go:11-13 | two chunks share a raw key only if channel, stream and file ID agree |
| Transcripts.InsertAllMeaning | internal/store/transcripts.go:33-40 | replacing succeeds exactly on distinct line IDs and then stores exactly those lines |
| Transcripts.ScanFileIDs | internal/store/transcripts.go:218-233 | the scan loop keeps the non-empty values of its column in order |
| Transcripts.FilesInRangeMeaning | internal/store/transcripts.go:195-202 | the range query lists, by line ID, the files of the lines in range with media |
| Transcripts.FilesSplit | internal/store/transcripts.go:195-202 | the files of [a, c] are those of [a, b] followed by those of [b+1, c] |
| Transcripts.AllFilesMeaning | internal/store/transcripts.go:204-216 | the full query lists, by line ID, the files of the lines with media |
| Transcripts.CountIsListLength | internal/store/transcripts.go:204-249 | the counted media lines are the length of the full file list, and never more than the lines |
| Transcripts.FullCountIsEveryLine | internal/server/handlers_public.go:384-390 | as many files as line numbers exactly if every line of the range has media, and then the k-th file is that of line start+k |
| Replication.AcceptedExactlyInOrder | internal/store/transcripts.go:53-78 | a genuine line is accepted exactly if the server holds all lines before it and no other |
| Replication.SyncInstalls | internal/server/handlers_worker.go:60-78 | a worker state, with whatever flags were read for it, makes the stored content that state, from any rows |
| Replication.StepKeepsInv | internal/server/handlers_worker.go:27-148 | every delivery, upload or delete keeps the stored content a prefix of the worker's |
| Replication.AlwaysAPrefix | internal/server/handlers_worker.go:27-148 | in every run over an unreliable network the stored content is a prefix of the worker's |
| Replication.ResyncRestores | internal/server/handlers_worker.go:94-130 | a current sync makes both equal, and the next line in order is accepted |
| Replication.Disturbances | internal/store/transcripts.go:148-161 | a lost message is not delivered, a deleted stream begins with its first line again, an upload changes no content |
| Replication.CatchesUp | internal/server/handlers_worker.go:27-148 | from every reachable state, delivering the current state and then each new line makes the server hold all the worker's lines |
| MediaFlags.ResyncKeepsFlag | internal/server/handlers_worker.go:60-78 | a resync in one step keeps the flag and file of every available line it contains |
| MediaFlags.MediaSurvives | internal/server/handlers_worker.go:60-78 | over any appends, uploads and resyncs containing the line, an available line stays available with the file of the last upload for it |
| MediaFlags.SplitResyncKeepsFlagIff | internal/server/handlers_worker.go:62-78 | with the read and the replacement apart, an available line stays available exactly if it was at the read or the worker says so |
| MediaFlags.SplitResyncKeepsMediaIff | internal/server/handlers_worker.go:62-78 | it keeps flag and file exactly if it showed that file at the read, or was not available then and the worker's copy names that file |
| MediaFlags.WindowKeepsMediaIff | internal/server/handlers_worker.go:62-78 | a line shown at the read keeps its latest upload exactly if the handlers in between left it with the file read |
| MediaFlags.SplitResyncLosesUpload | internal/server/handlers_worker.go:62-78 | a first upload committed between the two is forgotten with its flag, and a later one gives way to the older file |
| WorkerHandlers.TranscriptTable.InsertNextLine | internal/store/transcripts.go:53-78 | appends exactly one past the last ID, else reports out of sync and changes nothing; other streams are untouched |
| WorkerHandlers.TranscriptTable.ReplaceTranscript | internal/store/transcripts.go:14-41 | replaces one stream's rows as a whole, or on a key conflict nothing |
| WorkerHandlers.TranscriptTable.SetMediaAvailable | internal/store/transcripts.go:148-161 | sets flag and file of one stored line, else not found |
| WorkerHandlers.TranscriptTable.GetAvailableFiles | internal/store/transcripts.go:165-192 | maps exactly the available lines to their files (limit -1) |
| WorkerHandlers.LineHandler | internal/server/handlers_worker.go:97-148 | stores the line as it came with its flag off and broadcasts its ID and content, or answers 409 or an error and changes nothing |
| WorkerHandlers.CarryFlags | internal/server/handlers_worker.go:66-72 | the in-place loop gives every line with an available file that file and the flag |
| WorkerHandlers.SyncHandler | internal/server/handlers_worker.go:54-81 | the stream's rows become the worker's lines with the flags read and the last line is broadcast; a failed read carries none; any other error leaves the rows as they were |
| WorkerHandlers.CommitMedia | internal/server/handlers_worker.go:297-311 | the line shows the file exactly after a success, one retry covers a line arriving meanwhile, and other errors are not retried |
| Hub.Client.TrySend | internal/ws/hub.go:59-73 | queues exactly if the client is not removed and has room |
| Hub.Hub.Reserve | internal/ws/hub.go:101-109 | takes a slot exactly below the cap |
| Hub.Hub.Unreserve | internal/ws/hub.go:113-117 | gives a pending slot back |
| Hub.Hub.Add | internal/ws/hub.go:122-144 | registers a new client last, on a pending slot |
| Hub.Hub.Remove | internal/ws/hub.go:149-172 | removes and closes the client and frees its slot if it is registered, else changes nothing |
| Hub.Hub.FanOut | internal/ws/hub.go:180-188 | offers the message once to every registered client and returns exactly those that refuse |
| Hub.Hub.Broadcast | internal/ws/hub.go:177-195 | accepting clients get the message; exactly the others lose registration and slot |
| HubRuns.StepKeepsInv | internal/ws/hub.go:101-195 | every critical section, queue operation and removal keeps slots, order and completeness |
| HubRuns.SlotsConserved | internal/ws/hub.go:101-172 | connections are clients plus reservations, at most the cap, and each client's slot is released exactly once, on its removal |
| HubRuns.DeliveredInHubOrder | internal/ws/hub.go:177-195 | what a connection was handed is a strictly increasing list of hub broadcasts since its Add |
| HubRuns.ReturnedBroadcastReached | internal/ws/hub.go:177-192 | a finished broadcast was accepted by every client still registered that was added before it |
| HubRuns.NothingMissedAtRest | internal/ws/hub.go:177-192 | with no broadcast running a registered client accepted exactly the broadcasts since its Add, each once |
| HubRuns.BroadcastsEnd | internal/ws/hub.go:177-195 | from every reachable state the running broadcasts come to their end by their own moves, and then every registered client has accepted all since its Add |
| HubRuns.SlotsComeBack | internal/ws/hub.go:113-172 | a reservation given back and a Remove that finds its client free one slot each, and any other Remove changes nothing |
| HubRuns.RemovedForGood | internal/ws/hub.go:149-172 | a removed client is never registered again, accepts no further broadcast, and stays closed once closed |
| HubRuns.ClosedForGood | internal/ws/hub.go:169-171 | a client is closed only after its removal, and for good |
| HubRuns.PumpHandsOverNext | internal/ws/hub.go:262-290 | the write pump hands over what the queue accepted, one message at a time and in order |
| ConnectSync.StepKeepsInv | internal/server/websocket.go:49-113 | connects, snapshots, appends and hub traffic keep what a snapshot lacks within the client's subscription |
| ConnectSync.NothingLost | internal/server/websocket.go:49-113 | every completed line of a synced, registered client's stream is in a sync message queued to it, or its own newLine, with its ID and content, was queued |
| ConnectSync.BothWaysHappen | internal/server/websocket.go:49-113 | a run in which a client is sent one line in its sync and the next by broadcast |
| ConnectSync.ScriptMeaning | internal/server/websocket.go:65-130 | the last 100 lines go ahead of a longer transcript, then all of it, then the past streams if any; a failed read sends nothing |
| ConnectSync.SyncClient | internal/server/websocket.go:65-130 | queues partial sync, sync and past streams in this order, or stops at a full queue and removes the client |
| ConnectSync.WsHandler | internal/server/websocket.go:20-61 | admits exactly below the cap after a handshake, and leaves clients and pending slots as they were |
| Notifier.Notifier.Notify | internal/notify/notify.go:32-37 | closes the current signal, never a closed one, and installs a fresh one |
| Notifier.Notifier.Release | internal/notify/notify.go:48-50 | closes the shutdown channel, once |
| Notifier.Wait | internal/notify/notify.go:70-99 | each outcome exactly when the first pass not sent round again says so; a true first check is ready even past the deadline |
| WaitRuns.StepKeepsInv | internal/notify/notify.go:70-98 | a fact read as false is still false, or its signal is closed, or its writer has yet to notify |
| WaitRuns.NoLostWakeup | internal/notify/notify.go:70-98 | a parked waiter whose condition holds can wake, or some writer, with any number of writes, has not yet notified |
| WaitRuns.ParkedAtRestMeansFalse | internal/notify/notify.go:70-98 | with all writers done, a waiter on the current signal has a false condition |
| WaitRuns.LastingFactAnswers | internal/notify/notify.go:66-78 | a fact that keeps holding is seen by every check made meanwhile, and its waiter does not park |
| WaitRuns.CheckSeesLastingFact | internal/notify/notify.go:76-78 | a check begun after a lasting fact became true, and ended while it holds, answers ready |
| WaitRuns.WokenChecksAgain | internal/notify/notify.go:70-98 | from every state a waiter whose signal is closed wakes and checks again by its own moves, and is then answered ready, or parked on the current signal, as its condition is |
| WaitRuns.OnlyGivingUpSaysNo | internal/notify/notify.go:79-97 | without its giving up, a waiter is never answered not ready |
| WaitRuns.ReadyMeansItHeld | internal/notify/notify.go:76-78 | ready is only answered when some fact of interest held |
| WaitRuns.AnnouncementIsAnswered | internal/server/app.go:184-209 | after row, counter and notification a parked waiter interested in either is answered ready by its own moves |
| WaitRuns.NotWokenByNothing | internal/notify/notify.go:32-37 | a waiter is not woken without a notification since its subscription |
| App.App.QueueIncomingStream | internal/server/app.go:184-193 | an unknown channel or failed write changes nothing; else the row, the counter and the wakeup all happen |
| App.App.BumpAdminChange | internal/server/app.go:202-209 | a known channel's counter grows and the signal held by every poll is closed |
| IncomingQueue.RemovalNeverFlags | internal/store/incoming.go:49-79 | deletes and cleanup never raise a flag, so they need no notification |
| WorkerEvents.CollectWorkerEvents | internal/server/handlers_events.go:50-79 | each channel's flags and the largest stamp past the cursor, or the error of a failed query |
| WorkerEvents.CursorAdvancesIffIncoming | internal/server/handlers_events.go:59-64 | the cursor advances exactly if some channel is flagged incoming, past every flagged stamp |
| WorkerEvents.EventsMeaning | internal/server/handlers_events.go:52-77 | a listed channel is flagged incoming exactly for a stamp past the cursor and restart exactly for a pending request, and no other channel is |
| WorkerEvents.StepKeepsInv | internal/server/handlers_events.go:50-79 | stamps, writes, drops, clock ticks and single reads keep the stamps and the cursor consistent |
| WorkerEvents.CursorIsMonotone | internal/server/handlers_events.go:22-28 | the worker's cursor never decreases, and a poll's advances exactly if it flagged something |
| WorkerEvents.ReadsAll | internal/server/handlers_events.go:52-64 | reading the channels one by one without interference comes to what collecting them gives |
| WorkerEvents.LostResponseIsRepeated | internal/server/handlers_events.go:22-28 | after a lost response the next poll flags every channel that is still past the cursor |
| WorkerEvents.DropsAndFailures | internal/store/incoming.go:49-79 | a dropped URL is no longer queued, the others keep their stamps, and a failed write does not come |
| WorkerEvents.MissedOnlyInTheSameSecond | internal/server/handlers_events.go:43-49 | an unreported queued URL has the second of the cursor held, or an earlier one and was written past the second of its stamp or after its channel's read |
| WorkerEvents.LastChannelIsNeverLate | internal/server/handlers_events.go:43-49 | if every write lands in the second of its stamp, URLs of the last or only channel are never late |
| WorkerEvents.LateUrlIsMissed | internal/server/handlers_events.go:52-64 | for every list of channels and every channel but the last, a run whose writes land in time misses a URL whose second is before the cursor |
| WorkerEvents.SlowWriteIsMissed | internal/server/app.go:188-193 | for every listed channel, the only one included, a run with a slow write misses a URL whose second is before the cursor |
| WorkerEvents.SameSecondIsMissed | internal/server/handlers_events.go:43-49 | for every listed channel a run misses a URL in the second of the cursor |
| WorkerEvents.MissedExactlyIf | internal/server/handlers_events.go:43-64 | a URL can be missed with an earlier second exactly if its channel is listed; if writes land in time, exactly if it is listed and not last; in the cursor's second exactly if it is listed; and never with a later one |
| Streams.GetRecentStream | internal/store/streams.go:14-26 | a stream with no later activation, or none if there are none |
| Streams.OrderByActivated | internal/store/streams.go:44-63 | every row once, newest activation first |
| Streams.UpsertMeaning | internal/store/streams.go:113-126 | stores title, start time, live flag and media type as given, keeps the activation time of a stored stream, and no other row changes |
| Streams.UpdateMeaning | internal/store/streams.go:139-180 | changes exactly the given details of a stored stream; no field is an error, an unknown stream not found |
| Lifecycle.Channel.ApplyRetention | internal/server/lifecycle.go:137-163 | deletes rows and lines of, and purges, exactly the other streams past the first numPast; a stream whose deletion fails keeps both |
| Lifecycle.Channel.ActivateStream | internal/server/lifecycle.go:17-127 | the rows, lines, purges, broadcasts and counter after each branch and each store error; an activated stream is live, with the given details or as it was, and only the one that was the newest is ended |
| Lifecycle.Channel.DeactivateStream | internal/server/lifecycle.go:243-277 | ends exactly the newest stream if it is live, and says so; a failed read or write changes nothing |
| Lifecycle.Channel.BroadcastPastStreams | internal/server/lifecycle.go:208-239 | the ended streams besides the held-out one, each once, newest first, and no live one; a failed read sends nothing |
| Lifecycle.Channel.RemoveStream | internal/server/handlers_admin.go:238-263 | deletes a stored, ended stream with its lines and announces it; refuses an unknown or live one, and changes nothing on a store error |
| Lifecycle.RetentionExact | internal/server/lifecycle.go:144-163 | what stays is the active stream, the numPast most recently activated others and whatever could not be deleted; the dropped ones are older |
| Lifecycle.ActivationKeepsLiveNewestIff | internal/store/streams.go:113-126 | activating a stream that is not the newest keeps live streams newest exactly if it is new or no other is kept |
| Lifecycle.StaysIff | internal/server/lifecycle.go:144-163 | retention keeps a stream exactly if fewer than numPast others are newer |
| Lifecycle.TwoLiveStreamsIff | internal/server/lifecycle.go:55-66 | after reactivating a stored stream that is not the newest and then activating a new one, both are live exactly if fewer than numPast streams are newer than the first |
| Lifecycle.ReactivationLeavesTwoLive | internal/server/lifecycle.go:55-66 | with two ended streams and at least two past streams kept, reactivating the older and activating a third leaves two live |
| Lifecycle.SyncKeepsLiveNewestIff | internal/server/handlers_worker.go:45-58 | a sync of a stored stream keeps live streams newest exactly if it says ended or the stream is the newest, and one live at most exactly if it says ended or no other is live |
| Lifecycle.NewSyncKeepsLiveNewestIff | internal/server/handlers_worker.go:45-58 | a sync that stores a stream, with activation time zero, keeps live streams newest exactly if it says ended or nothing else is stored, and one live at most exactly if it says ended or no other is live |
| Lifecycle.OneLiveStream | internal/server/lifecycle.go:17-127 | if activations name the newest or an unstored stream and syncs the newest, any live stream is the newest and the only one |
| Lifecycle.StartIsAStep | internal/server/lifecycle.go:17-127 | what activating a new stream leaves is a step of such a run |
| Lifecycle.SwitchIsAStep | internal/server/lifecycle.go:94-110 | so is the newest stream coming live again, or ending |
| Lifecycle.StatementsAreSteps | internal/store/streams.go:88-180 | so are a resync, an edit and a delete, told by what they leave |
| Lifecycle.HeldOutIsNewest | internal/server/lifecycle.go:209-228 | then the stream held out of the past list is the newest |
| VodRuns.SingleFlight | internal/server/vod.go:123-147 | at most one build of a stream is under way, as long as none is forgotten while it is |
| VodRuns.AtMostOneArtifact | internal/server/vod.go:248-310 | at most one render is stored, as long as no build leaves the registry, by its completion or a forget, while a request can still claim next to its render |
| VodRuns.HarmIsDone | internal/server/vod.go:377-412 | from every reachable state such a step lets two renders be stored, and a forget during a build lets two builds run; with the stream stored again afterwards, or without |
| VodRuns.RenderHarmIsExact | internal/server/vod.go:377-412 | where none came before, such a step is exactly what makes two stored renders possible, with the stream stored again afterwards, or without |
| VodRuns.BuildHarmIsExact | internal/server/lifecycle.go:286-291 | a forget during a build, with the stream stored again at the time or afterwards or a request holding its chunk list, is exactly what makes two builds possible |
| VodRuns.ForgetBreaksSingleFlight | internal/server/lifecycle.go:286-291 | after the delete and the forget a request that already holds its chunk list starts a second build beside the first |
| VodRuns.SlowRequestAddsSecondArtifact | internal/server/vod.go:377-412 | a slow request can add a second render |
| VodRuns.RequestDecides | internal/server/vod.go:248-290 | an undisturbed request is answered at once exactly if a build runs or a render is stored, and else goes on to read the chunks |
| VodRuns.BuildCompletes | internal/server/vod.go:398-412 | with chunks to read it starts a build that stores one render more and is done |
| VodRuns.FailedBuildIsRetried | internal/server/vod.go:123-139 | a failed build stores nothing, and another request may build again |
| Vod.VodRegistry.Claim | internal/server/vod.go:123-139 | joins the running job or installs a fresh one, and says which |
| Vod.VodRegistry.Forget | internal/server/vod.go:143-147 | drops the record of this stream and of no other |
| Vod.VodJob.Finish | internal/server/vod.go:83-94 | done without an error, failed with one; no phase left |
| Vod.FindVodArtifact | internal/server/vod.go:299-310 | the first listed key with the extension, if any |
| Vod.PostAdminVod | internal/server/vod.go:360-439 | starts a build exactly for an eligible, unbuilt, unclaimed stream, with the files of the lines with media, by line ID; every other reply is determined |
| Vod.BuildVod | internal/server/vod.go:449-508 | done exactly if an artifact is stored, which is the conversion of all chunks in order |
| Vod.IneligibleMeaning | internal/server/vod.go:198-231 | which request is turned away and why: unknown, live, without media type, without media |
| Vod.RenderExtension | internal/server/vod.go:177-186 | a video's render ends in .mp4, an audio stream's in .m4a, and no other stream has one |
| Vod.PostAndBuild | internal/server/vod.go:360-508 | a stored render is the conversion of the raw chunks of exactly the lines with media, by line ID, and there is one unless a chunk, the conversion or the upload fails or the server shuts down |
| Clips.PostClip | internal/server/handlers_public.go:328-399 | the answer is decided by the stream lookup, type, range, the listing and media; a clip is the raw chunks of exactly its lines, in order |

## Left out

- HTTP routing, JSON decoding, authentication, CORS and the admin page: a handler is its state step and its outcome.
- SQLite itself, its locking and pooling: statements and transactions are atomic steps on maps.
- ffmpeg, the R2 client, file-system calls and title sanitising: inputs that succeed or fail.
- The pings of the read loop and the classification of disconnects: a connection's end is a Remove at any time.
- Discord, the archive client, metrics, logging, configuration and the command-line tools.
- R2 retention and pruning depend on bucket lifecycle rules; the deletes they cause are delete steps of the runs.
- The limited form of GetLastAvailableMediaFiles feeds only the newMedia broadcast and is not modelled.
- WorkerHandlers.SyncHandler: its stream row is the SyncStream step of Lifecycle, its admin wakeup is App.BumpAdminChange.
- Start and finish times of VOD jobs and the links of a finished VOD.
- Streams.OrderByActivated: the source orders in SQL; the method picks a newest row again and again instead.
- ConnectSync.WsHandler: runs without interference; removals by other callers are steps of HubRuns.
- Lifecycle.OneLiveStream: needs its hypotheses; reactivating an older stream breaks it exactly as Lifecycle.TwoLiveStreamsIff says, and syncing one exactly as Lifecycle.SyncKeepsLiveNewestIff says.
- VodRuns.AtMostOneArtifact: a delete of the media folder is one step; the stream's media type is fixed; an edit that changes it makes the stored render invisible to a later request.
