# Verified models of tokio-cronet

This project models the concurrent and byte-level core of `crates/tokio-cronet`
(the Rust binding to Chromium's network stack) and the GN text filter of
`xtask`, and proves what they keep, over whole runs and for all inputs.
`dafny verify dfyconfig.toml` checks everything.

Shared state is modelled twice. A class has the source's fields and one method
for each critical section, updated in place and proved equal to a function on
values. A step relation then interleaves the sections: every critical section,
atomic access, `Notify` operation and await is a step of its own, any number of
threads, requests and callers take turns, and the theorems hold in every
reachable state or for every continuation of a run. The write pipeline, the
stream's reads and terminal calls, and the response side interleave the very
functions that their classes are proved equal to. The engine's steps share only
the admission test and the guarded decrement with its classes: there the list
of controls is a set, and the registry of finished callbacks is a flag of each
request.

## What is modelled

* **Bidirectional write pipeline** (`WriteState`, `WriteProtocol`,
  `WriteInvariants`, `WriteSafety`, `WriteClaims`, `WriteEndings`, `WriteExits`,
  `WriteAdmission`, `WriteWitnesses`): one producer, the writer task and native
  completion threads around a bounded queue, a map of writes in flight, the flush
  barrier and the terminal result.
  The writer's pop, its insert in flight and its native call are three steps.
  Tokio's `Notify` is one stored permit and a generation number captured when
  `notified()` is created; a notification that a thread still owes after leaving
  its critical section is a counted duty.
* **Engine and native lifetime** (`EngineState`, `NativeLifetime`,
  `LeaseWait`, `EngineProtocol`, `EngineSafety`, `EngineClaims`, `EngineEndings`,
  `EngineWitnesses`): one engine, unboundedly many requests and streams, each with its opening call,
  cleanup task, gate, cancel flag, callback leases and finished-callback token;
  any number of `shutdown` callers, the one initializer of the shared shutdown
  result with both of its wait loops, and the engine's drop. The cleanup task's
  wait for callback leases is a machine of its own. Native code is
  nondeterministic: callbacks only after a successful start, one terminal
  callback, one finished callback for a URL request, no callback starting
  after those, and no finished callback for a failed start.
* **Stream terminal** (`StreamTerminal`): concurrent `terminal` calls as
  sequences of small sections, interleaved with recorded errors and the other
  native callbacks.
* **Stream reads** (`StreamReads`, `ReadClaims`): the read half of a bidirectional stream with
  its in-flight flag, forwarding tasks, the end-of-stream events of an empty
  read and of a terminal callback, and the application's polls. Native code
  reports the response headers once.
* **Response bytes** (`ResponseState`, `ResponseProtocol`, `ResponseClaims`): native reads, size
  limit, forwarding tasks, bounded channel, `poll_read` and `poll_next` in any
  mix and with any buffer sizes.
* **Upload** (`UploadState`, `UploadRuns`): any sequence of read, rewind and
  close callbacks on in-memory, plain and rewindable sources.
* **Server-sent events** (`Sse`, `SseUtf8`, `SseFields`, `SseLaws`, `SseLines`,
  `SseText`, `SseChunks`, `SseRoundTrip`, `EventQueue`, `EventReconnects`): the
  byte-chunk parser of `text/event-stream`, with UTF-8 and decimal numbers down to
  their bytes, an encoder written as specification, and the event source with its
  queue and its reconnections.
* **GN block filter** (`GnLexer`, `GnFilter`, `GnLaws`, `GnTests`, `GnCalls`,
  `GnTransparency`, `GnRuns`): the lexer-aware brace scanners and the removal
  loops, on text as one `char` per byte.

## Where the code falls short of a property

Each of these is stated exactly; the code is kept as it is.

* *A producer can stay parked after the stream has ended.* The recheck looks at
  the capacity only: after the end it parks the producer if and only if the data
  queued since the last `finish` and the writes in flight fill the capacity
  (`WriteEndings.RecheckAfterTheEnd`). A parked producer that is not polled of
  its own accord then sleeps through every continuation if and only if the
  terminal callback is through, no wake is owed, the writer holds nothing, and
  native code has no write left to complete (`WriteEndings.SleepsForEverIff`).
  `WriteWitnesses.ForgottenProducer` reaches that for every capacity: a
  successful end lets data in until the queue is full. In
  `WriteWitnesses.ParkedAfterTerminal`, where `finish` runs between the two
  capacity checks, only a completion after the end wakes the producer.
* *Data that was accepted is dropped at the end of the stream.* Once there is a
  terminal result, an accepted item can still go in flight if and only if the
  writer has popped it (`WriteEndings.GoesInFlightIff`). What is queued at the end
  is dropped, and what a successful end still lets in is never taken, although
  the producer was told Ok(true) of either.
* *A flush can go unanswered.* A flush not answered so far is answered in no
  continuation if and only if the terminal callback is through, the flush is
  still queued, and the writer holds nothing that could fail
  (`WriteEndings.UnansweredForEverIff`, with runs in
  `WriteWitnesses.ForgottenFlush`). One that was in the writer's hand during
  `finish` is on the waiting list; once the writer has nothing left to fail, it is
  answered if and only if native code completes everything in flight after the
  end (`WriteEndings.AnsweredIffDrained`, with runs in
  `WriteWitnesses.StrandedFlush`).
* *The writer task ignores a terminal result until the stream is ready.* Once
  there is a terminal result, that task can end without a further
  `on_stream_ready` if and only if the stream was ready
  (`WriteExits.ExitsIffReady`). A stream that ends before it is ready, whatever
  its result, leaves it asleep for ever
  (`WriteWitnesses.WriterOutlivesTheStream`).
* *A request that outlives its runtime blocks shutdown.* A runtime that goes
  before the terminal callback leaks the request with its operation, and the
  native engine stays where it is in every continuation
  (`EngineClaims.LeakedHoldsTheEngine`).
* *Chunking matters to the event parser in two cases*: a cut between CR and LF,
  and a byte order mark at the head of a later line when a push begins with it.
  `SseText.PushAllReads` says what text chunked pushes read, for all inputs. A
  cut between CR and LF is exactly what makes the normal forms of the chunks
  differ from that of the whole (`SseLaws.NormalAllIffNoSplit`); without one,
  the text read is the same as in one push of the whole if and only if as many
  marks are dropped (`SseText.SameTextIff`). `SplitDispatchesEarly` and
  `LaterMarkIsDropped` give the two families. The `id` and `retry` fields differ
  from the WHATWG HTML standard (an id takes effect only with a dispatched event,
  and `retry` accepts a plus sign), so no conformance is claimed.
* *A reconnection does not start afresh.* The parser goes on where the lost
  connection stopped, so all connections are parsed as one text
  (`EventReconnects.ConnectionsAreOneText`), and an unfinished event is completed
  by the next connection. A source that was opened with a last event id sends that
  one again with every reconnection, in front of the current one
  (`EventReconnects.ResumesBehindTheLastEvent`). One failed attempt to connect
  ends the source (`EventReconnects.FailsOnceAndLast`).
* *A GN removal can change the lexer state or brace depth of what follows.* The
  text behind a removed stretch keeps its states if and only if the scan is in the
  same state at both ends of the stretch, whatever stands there
  (`GnTransparency.KeepsStateExactly`; `GnRuns.NamedRun` and
  `GnRuns.TestFilterKeepsIff` for whole runs). There are two causes. A code `}`
  may lie between a header and its `{`; for a test block on LF text that is the
  only one (`GnTransparency.TestBlockTransparent`). The named filter also finds
  its call inside a comment and takes what follows for code
  (`GnRuns.CommentedCallBreaks`). The named filter run on its own output fails,
  because it reports a missing target (`GnRuns.NamedFilterLeavesNone`). The test
  filter advances its offsets by the length of a line without its CR: on text with
  CRLF endings it looks for a call in front of where that is, by one byte for each
  such line (`GnLaws.SearchLags`). The other laws of its search are for LF text;
  reaching a fixpoint holds for all text.
* *An upload read into a buffer without room* reports the final chunk of a
  stream of undeclared length too early, and only such a read does
  (`UploadRuns.FinalChunkIsForUndeclaredEnd`, `NoRoomEndsTheBody`).
* *A read whose data pointer is null counts towards the response size* although
  nothing is forwarded. The count is the number of accepted bytes plus the bytes
  of such reads (`ResponseProtocol.BytesAreConserved`), and a read adds to the
  latter if and only if it fits buffer and limit and has no data
  (`ResponseProtocol.PhantomIffNoData`); such reads alone can fill every limit
  (`ResponseProtocol.PhantomFillsTheLimit`).
* *An upload read without a destination loses bytes*, if and only if it gets as
  far as a source with something to give; nothing else does. The source has moved
  on, and the sink hears of an error (`UploadRuns.LostIffNoDestination`).
* *A success that native code reports while a chunk is being forwarded can cut the
  stream short*: its end-of-stream event overtakes the chunk. Whenever that
  happens some continuation loses bytes for ever
  (`StreamReads.EarlySuccessTruncates`, `StreamReads.TruncatedStays`), and
  without it the end means that everything was taken
  (`StreamReads.EndMeansEverything`).
* *An error can be missed by who reads a stream to its end.* A stream that fails can
  be read to its end without the error if and only if one of its reads came back
  empty before: the end of that read may be met first
  (`ReadClaims.ErrorCanBeMissedIff`).
* *Headers and trailers can be overwritten* by the value that the terminal callback
  makes up: exactly those that native code delivers between the callback's look and
  its own setting, if none came before or after
  (`StreamTerminal.TerminalPublishesWhat`, with a run in
  `StreamTerminal.HeadersAreOverwritten`). Native code that runs its callbacks one
  after the other never does that.
* *An error of the writer task is not recorded as the stream's first error*:
  only errors recorded through `fail_then_cancel` compete with the native
  outcome (`StreamTerminal.ResultIsFirstErrorOrOutcome`).

## Model

| member | source | states |
|---|---|---|
| WriteState.TotalUpdate | crates/tokio-cronet/src/bidirectional.rs:1321-1335 | replacing one per-pointer queue changes the total by the difference of the lengths |
| WriteState.CompleteIsExact | crates/tokio-cronet/src/bidirectional.rs:1211-1242 | the count stays exact and `saturating_sub` never saturates; a completion retires the oldest write of its pointer and nothing else, closes the local side if and only if that write ended the stream, and opens the barrier exactly at zero |
| WriteState.InsertKeepsConsistent | crates/tokio-cronet/src/bidirectional.rs:1321-1335 | an insert keeps the count exact and leaves no per-pointer queue empty |
| WriteState.ZeroMeansEmpty | crates/tokio-cronet/src/bidirectional.rs:1224-1236 | a count of zero if and only if nothing is in flight |
| WriteState.WriteShared.QueueDataCount | crates/tokio-cronet/src/bidirectional.rs:1276-1282 | counts the data commands of the queue, flushes excluded |
| WriteState.WriteShared.EnqueueData | crates/tokio-cronet/src/bidirectional.rs:1158-1195 | rejects after a failed terminal or a local close, says full at capacity, else queues at the back; occupancy goes up by one and stays within capacity |
| WriteState.WriteShared.EnqueueControl | crates/tokio-cronet/src/bidirectional.rs:1197-1209 | queues a flush unless the terminal result is an error |
| WriteState.WriteShared.CompleteWrite | crates/tokio-cronet/src/bidirectional.rs:1211-1242 | retires the oldest write of a pointer and releases all waiters exactly when the barrier opens |
| WriteState.WriteShared.FinishWith | crates/tokio-cronet/src/bidirectional.rs:1244-1261 | publishes the result, empties queue and waiters, answers all of them in order |
| WriteState.WriteShared.PopCommand | crates/tokio-cronet/src/bidirectional.rs:1291-1301 | takes the front command unless terminal or blocked |
| WriteState.WriteShared.InsertInFlight | crates/tokio-cronet/src/bidirectional.rs:1321-1335 | appends to the pointer's queue, keeps the count exact |
| WriteState.WriteShared.AnswerOrBlock | crates/tokio-cronet/src/bidirectional.rs:1342-1358 | answers a flush with nothing in flight, raises the barrier otherwise |
| WriteSafety.StepKeepsInv | crates/tokio-cronet/src/bidirectional.rs:1139-1362 | every step of producer, writer and native threads keeps the invariant of the pipeline |
| WriteClaims.ReachableInv | crates/tokio-cronet/src/bidirectional.rs:1139-1362 | the invariant holds in every reachable state, for every capacity |
| WriteClaims.WriterNeverSleepsOnWork | crates/tokio-cronet/src/bidirectional.rs:1284-1314 | a writer asleep although ready and with work (or a terminal result) has a thread that owes it a notification; no exit before ready |
| WriteExits.ExitsIffReady | crates/tokio-cronet/src/bidirectional.rs:1284-1314 | in every reachable state with a terminal result: the writer ends in some continuation without `on_stream_ready` if and only if the stream is ready |
| WriteClaims.ProducerNeverLosesItsWakeup | crates/tokio-cronet/src/bidirectional.rs:1158-1195 | a parked, unwoken producer is registered, and the buffers are full or a wake is owed |
| WriteClaims.BufferingBound | crates/tokio-cronet/src/bidirectional.rs:1169-1194 | queued, held and in-flight data never exceed capacity plus one |
| WriteWitnesses.BufferingBoundIsReached | crates/tokio-cronet/src/bidirectional.rs:1291-1335 | capacity plus one is reached for every capacity, because pop and insert are separate |
| WriteClaims.CountIsExact | crates/tokio-cronet/src/bidirectional.rs:1211-1242 | the in-flight count is always the total length of the per-pointer queues, and no entry is empty |
| WriteClaims.FlushIsABarrier | crates/tokio-cronet/src/bidirectional.rs:1342-1358 | a flush answered Ok by the writer or a completion: all data accepted before it was submitted and completed |
| WriteClaims.SubmissionOrder | crates/tokio-cronet/src/bidirectional.rs:1291-1341 | data goes in flight as a prefix of what was accepted; until a terminal result, in flight ++ held ++ queued is all of it |
| WriteClaims.EndOfStreamIsLast | crates/tokio-cronet/src/bidirectional.rs:1158-1195 | at most one end-of-stream item, and no data after it |
| WriteClaims.WaiterConservation | crates/tokio-cronet/src/bidirectional.rs:1197-1261 | each accepted flush waiter is in exactly one of queue, hand, waiting list, answers; answered at most once; at most one waits, and only behind the barrier |
| WriteAdmission.ClosedIffEndAccepted | crates/tokio-cronet/src/bidirectional.rs:1186-1229 | in every reachable state the write side is closed locally if and only if an end-of-stream item was accepted |
| WriteAdmission.DataAnswer | crates/tokio-cronet/src/bidirectional.rs:1158-1195 | in every reachable state: the error of a failed result, else cancellation after an accepted end of stream, else full if and only if queued and in-flight data fill the capacity, else accepted |
| WriteAdmission.RecheckAnswer | crates/tokio-cronet/src/bidirectional.rs:1172-1185 | the second look parks if and only if the buffers are full, and tries again with the same item otherwise |
| WriteAdmission.OfferIsLastPolled | crates/tokio-cronet/src/bidirectional.rs:1158-1195 | over any run, the item at work is that of the last poll |
| WriteAdmission.FlushAnswer | crates/tokio-cronet/src/bidirectional.rs:1197-1209 | the error of a failed result, else the flush is queued |
| WriteAdmission.ResultsAreNative | crates/tokio-cronet/src/bidirectional.rs:1244-1362 | over any run, the terminal result is the last one given to `finish`: a terminal callback's outcome or the error that native code gave the writer last; every answer is one of these, the native flush's own error, or Ok by the barrier |
| WriteAdmission.FinishTellsAll | crates/tokio-cronet/src/bidirectional.rs:1244-1261 | each `finish` answers every queued and waiting flush with its result |
| WriteAdmission.WakerIsUsedOnce | crates/tokio-cronet/src/bidirectional.rs:1263-1273 | no run wakes the producer more often than it registers a waker |
| WriteAdmission.PermitIsUsedOnce | crates/tokio-cronet/src/bidirectional.rs:1284-1314 | nor the writer by permits more often than `notify_one` is called |
| WriteEndings.RecheckAfterTheEnd | crates/tokio-cronet/src/bidirectional.rs:1169-1184 | the recheck after the end parks if and only if data queued since the last `finish` and writes in flight fill the capacity; after a failure nothing is queued |
| WriteEndings.FailureAcceptsNothing | crates/tokio-cronet/src/bidirectional.rs:1158-1209 | after a failure the queue is empty and neither data nor flush gets in |
| WriteEndings.DesertedSleepsOn | crates/tokio-cronet/src/bidirectional.rs:1244-1273 | with no wake owed and no writer to fail, a parked producer sleeps through every continuation without a completion |
| WriteEndings.ForgottenSleepsOn | crates/tokio-cronet/src/bidirectional.rs:1244-1273 | and through every continuation at all, once native code has nothing to complete |
| WriteEndings.CanBeWoken | crates/tokio-cronet/src/bidirectional.rs:1211-1273 | otherwise some continuation wakes it |
| WriteEndings.SleepsForEverIff | crates/tokio-cronet/src/bidirectional.rs:1158-1273 | exactly when a parked producer sleeps for ever |
| WriteEndings.AnsweredIffDrained | crates/tokio-cronet/src/bidirectional.rs:1211-1261 | in every continuation after the end, a flush is answered, and Ok, if and only if it is listed and everything in flight was completed |
| WriteEndings.ListedCanBeAnswered | crates/tokio-cronet/src/bidirectional.rs:1211-1242 | a listed flush is answered in some continuation: native code completes what it holds |
| WriteEndings.HandCanBeAnswered | crates/tokio-cronet/src/bidirectional.rs:1342-1358 | so is one in the writer's hand |
| WriteEndings.UnansweredForEverIff | crates/tokio-cronet/src/bidirectional.rs:1244-1261 | in every reachable state, a flush is answered in no continuation if and only if the terminal callback is through, it is still queued, and the writer holds nothing that could fail |
| WriteEndings.GoesInFlightIff | crates/tokio-cronet/src/bidirectional.rs:1291-1335 | after a terminal result, accepted data goes in flight in some continuation if and only if the writer has popped it |
| WriteEndings.StalledMeansNativeOwes | crates/tokio-cronet/src/bidirectional.rs:1284-1314 | when writer and producer sleep on a ready stream and no thread owes anything, native code holds a write |
| WriteWitnesses.ParkedAfterTerminal | crates/tokio-cronet/src/bidirectional.rs:1169-1184 | `finish` between the two checks: a parked producer that only a late completion wakes |
| WriteWitnesses.ForgottenProducer | crates/tokio-cronet/src/bidirectional.rs:1158-1195 | for every capacity, a producer that parks after a successful end and sleeps for ever |
| WriteWitnesses.ForgottenFlush | crates/tokio-cronet/src/bidirectional.rs:1197-1209 | for every capacity, a flush accepted after a successful end that is answered in no continuation |
| WriteWitnesses.StrandedFlush | crates/tokio-cronet/src/bidirectional.rs:1342-1358 | a flush in hand during `finish`: answered in a continuation if and only if the write in flight is completed |
| WriteWitnesses.WriterOutlivesTheStream | crates/tokio-cronet/src/bidirectional.rs:1284-1314 | for every capacity and result, a stream that ends before it is ready and whose writer sleeps for ever |
| EngineState.EngineInner.BeginOperation | crates/tokio-cronet/src/engine.rs:556-575 | succeeds if and only if not closing and the native engine is there, and counts itself |
| EngineState.EngineInner.DropOperation | crates/tokio-cronet/src/engine.rs:527-533 | uncounts, and notifies exactly when it was the last |
| EngineState.EngineInner.Register | crates/tokio-cronet/src/engine.rs:577-590 | prunes dead controls in order, appends the new one, says whether closing |
| EngineState.EngineInner.SetClosing | crates/tokio-cronet/src/engine.rs:592-601 | no operation is admitted from then on |
| EngineState.EngineInner.Snapshot | crates/tokio-cronet/src/engine.rs:602-611 | hands out exactly the live controls |
| EngineState.EngineInner.TakeNative | crates/tokio-cronet/src/engine.rs:625-632 | hands out the native engine and leaves none |
| EngineState.EngineFinishedContext.InsertAnnotations | crates/tokio-cronet/src/engine.rs:682-690 | all annotations registered, later ones overriding |
| EngineState.EngineFinishedContext.RemoveAnnotations | crates/tokio-cronet/src/engine.rs:697-706 | exactly the given addresses removed |
| EngineState.EngineFinishedContext.OnFinished | crates/tokio-cronet/src/engine.rs:709-753 | counts down if and only if some address is a registered token; removes all its addresses; texts in callback order, each once |
| EngineState.EngineFinishedContext.FinishOne | crates/tokio-cronet/src/engine.rs:755-768 | counts down, and notifies exactly at zero |
| EngineState.TokenIsFoundOnce | crates/tokio-cronet/src/engine.rs:682-753 | a token survives foreign callbacks, is found by its own callback, and never again |
| EngineState.TextsAreListed | crates/tokio-cronet/src/engine.rs:725-745 | the texts handed out are those of the registered annotations carried, each once, in the order of their first mention |
| EngineState.InsertKeepsOthers | crates/tokio-cronet/src/engine.rs:682-690 | a begun request leaves other annotations alone |
| EngineState.RetainConcat | crates/tokio-cronet/src/engine.rs:577-590 | pruning keeps live controls in order |
| NativeLifetime.StepKeepsInv | crates/tokio-cronet/src/request.rs:662-748 | every step of a request or stream, its cleanup, its gate and its callbacks keeps the lifetime invariant |
| NativeLifetime.GateArmsIff | crates/tokio-cronet/src/bidirectional.rs:585-645 | under the gate native code is called if and only if the object is there and not done; a stream's cancel waits for the start as well |
| NativeLifetime.ReachedByCancel | crates/tokio-cronet/src/request.rs:766-777 | the started object is reached only by a native cancel under the gate |
| NativeLifetime.LeakedWasAsked | crates/tokio-cronet/src/request.rs:1010-1029 | a request left behind by its runtime was asked to cancel |
| LeaseWait.NeverSleepsThroughTheLastLease | crates/tokio-cronet/src/bidirectional.rs:795-802 | the cleanup task asleep has a lease to wait for or a thread that owes it the notification for the last one |
| LeaseWait.CanAlwaysReturn | crates/tokio-cronet/src/bidirectional.rs:795-802 | from wherever it is, the wait ends once the callbacks under way do |
| LeaseWait.WaitsForEveryLease | crates/tokio-cronet/src/bidirectional.rs:795-802 | in every continuation in which no lease is given back, it does not end |
| LeaseWait.SignalsEndTheLeases | crates/tokio-cronet/src/request.rs:729-739 | behind the terminal and finished signals no lease begins, so that the wait for leases may come last |
| EngineSafety.StepKeepsInv | crates/tokio-cronet/src/engine.rs:556-660 | every step of engine, requests, callers, initializer and drop keeps the engine's invariant |
| EngineClaims.EngineOutlivesObjects | crates/tokio-cronet/src/engine.rs:592-660 | a live native object, or a held operation, implies that the engine still owns its native engine |
| EngineClaims.CallsAreSafe | crates/tokio-cronet/src/request.rs:766-840 | in every reachable state of all requests and the engine, each native call finds object and engine alive |
| EngineClaims.DestroyedOnlyWhenQuiet | crates/tokio-cronet/src/bidirectional.rs:713-738 | an object dies only in its owner's hands, a started one only when all callbacks are over |
| EngineClaims.NothingAfterDestruction | crates/tokio-cronet/src/request.rs:831-840 | in every continuation after its destruction, no native call is made on the object and no callback of it starts |
| EngineClaims.ShutdownOnlyWhenIdle | crates/tokio-cronet/src/engine.rs:613-640 | native shutdown begins only with no operation and no finished callback outstanding, no request holding or counted |
| EngineClaims.IdleForEver | crates/tokio-cronet/src/engine.rs:613-640 | in every continuation after that, both counts are zero and the engine was taken once |
| EngineClaims.NothingBeginsAfterClosing | crates/tokio-cronet/src/engine.rs:556-575 | no continuation of a run with `closing` set contains a successful begin |
| EngineClaims.TakenAtMostOnce | crates/tokio-cronet/src/engine.rs:625-660 | all callers and the drop together take the native engine at most once |
| EngineClaims.InitializerNeverSleepsThroughIdle | crates/tokio-cronet/src/engine.rs:613-624 | a sleeping initializer has an operation, an owed notification, or a pending callback to wait for |
| EngineEndings.InitializerGoesToSleep | crates/tokio-cronet/src/engine.rs:613-624 | in every reachable state it goes to sleep if there is something to wait for, in either loop |
| EngineEndings.InitializerCanAnswer | crates/tokio-cronet/src/engine.rs:613-640 | wherever it is, once nothing is outstanding some continuation takes the native engine and answers |
| EngineEndings.AnswerMeansDown | crates/tokio-cronet/src/engine.rs:613-640 | whoever is answered finds the native engine taken and no operation left |
| EngineEndings.InitializerHandsOver | crates/tokio-cronet/src/engine.rs:602-640 | a caller that goes away while it makes the result leaves that to another |
| EngineEndings.SweptBeforeWaiting | crates/tokio-cronet/src/engine.rs:602-614 | whoever waits for the result has been through its controls, so that every registered live request was asked |
| EngineEndings.DropShutsDown | crates/tokio-cronet/src/engine.rs:642-660 | a dropped engine shuts down when, and only when, no finished callback is pending |
| EngineEndings.OnlyTheGoneAreForgotten | crates/tokio-cronet/src/engine.rs:577-590 | a control leaves the list only when its request is gone |
| EngineEndings.GivenUpNeverStarts | crates/tokio-cronet/src/request.rs:662-722 | an object whose opening call was refused or failed is never started, in any continuation |
| EngineClaims.LeakedHoldsTheEngine | crates/tokio-cronet/src/request.rs:1010-1029 | a leaked request keeps its operation and the native engine in every continuation |
| EngineClaims.EveryControlIsAsked | crates/tokio-cronet/src/engine.rs:577-614 | after one full sweep every registered live request is asked to cancel or refuses itself, and later ones will be refused |
| EngineClaims.NoCancelIsLost | crates/tokio-cronet/src/request.rs:723-777 | in every reachable state a running request with a cancel requested and none under way was reached, or is done |
| EngineClaims.ShutdownReachesAll | crates/tokio-cronet/src/engine.rs:602-614 | after one full sweep that is so for every running request |
| EngineClaims.PendingIsAccounted | crates/tokio-cronet/src/engine.rs:682-768 | pending plus requests between their two sections equals tokens registered plus callbacks between theirs |
| EngineClaims.FinishOneNeverSaturates | crates/tokio-cronet/src/engine.rs:755-768 | the zero guard is never taken; a callback without a token changes nothing |
| EngineClaims.FailedStartLeavesNothing | crates/tokio-cronet/src/request.rs:712-722 | a request that never started leaves no token and nothing pending |
| EngineWitnesses.RequestRunsItsCourse | crates/tokio-cronet/src/request.rs:658-748 | a request can be opened, cancelled, finished and destroyed |
| EngineWitnesses.ShutdownRunsItsCourse | crates/tokio-cronet/src/engine.rs:592-640 | a shutdown call can get to the native shutdown |
| StreamTerminal.StepKeepsInv | crates/tokio-cronet/src/bidirectional.rs:838-901 | every section of every terminal call, and every other callback, keeps the invariant |
| StreamTerminal.OneTerminalTakesEffect | crates/tokio-cronet/src/bidirectional.rs:850-853 | at most one call gets past the exchange of `done` |
| StreamTerminal.TerminalPublishesEverything | crates/tokio-cronet/src/bidirectional.rs:854-900 | then the opener was answered once, and headers, trailers, terminal and write result all hold a value |
| StreamTerminal.TerminalPublishesWhat | crates/tokio-cronet/src/bidirectional.rs:861-885 | which values: the last headers delivered, or else the stream's error, or else empty ones; likewise trailers; the opener's and the write side's result |
| StreamTerminal.HeadersAreOverwritten | crates/tokio-cronet/src/bidirectional.rs:869-876 | headers delivered between look and setting are replaced by empty ones |
| StreamTerminal.HistoryOfRun | crates/tokio-cronet/src/bidirectional.rs:958-1075 | the delivered headers, trailers and writer errors are those of the run's callbacks |
| StreamTerminal.ReadyIsAnsweredOnce | crates/tokio-cronet/src/bidirectional.rs:942-956 | readiness is answered at most once in every run |
| StreamTerminal.ResultIsFirstErrorOrOutcome | crates/tokio-cronet/src/bidirectional.rs:854-860 | the published result is the first recorded error if one came before it was taken, else the native outcome |
| StreamTerminal.TerminalIsStable | crates/tokio-cronet/src/bidirectional.rs:883-884 | a published result never changes |
| StreamTerminal.BidirectionalContext.Terminal | crates/tokio-cronet/src/bidirectional.rs:850-901 | an undisturbed call does what its sections do one by one; headers and trailers already there are kept, missing ones become the stream's error or empty; opener, terminal, write side and reader are told the one result |
| StreamTerminal.BidirectionalContext.RecordFirst | crates/tokio-cronet/src/bidirectional.rs:838-846 | the first error recorded wins |
| StreamReads.PollReadConserves | crates/tokio-cronet/src/bidirectional.rs:326-355 | a read hands out the next bytes in order and loses none |
| StreamReads.PollReadMeets | crates/tokio-cronet/src/bidirectional.rs:326-355 | a read that meets the end meets one that was there, with no chunk left in front of it or behind |
| StreamReads.PollNextConserves | crates/tokio-cronet/src/bidirectional.rs:304-324 | likewise for the stream adapter |
| ReadClaims.PollReadServes | crates/tokio-cronet/src/bidirectional.rs:326-355 | a read hands out exactly what comes next of bytes, errors and ends, and fills the buffer or uses up a chunk |
| ReadClaims.PollNextServes | crates/tokio-cronet/src/bidirectional.rs:304-324 | likewise for the stream adapter |
| StreamReads.BidirectionalStream.PollReadInto | crates/tokio-cronet/src/bidirectional.rs:327-354 | bytes returned plus bytes kept are the bytes held before; the end is remembered |
| StreamReads.BidirectionalStream.PollNextChunk | crates/tokio-cronet/src/bidirectional.rs:307-323 | likewise |
| StreamReads.ReadSide.Start | crates/tokio-cronet/src/bidirectional.rs:805-836 | issues a read if and only if not done, none in flight, no end seen and native code accepts; a refusal is recorded and clears the flag |
| StreamReads.ReadSide.Complete | crates/tokio-cronet/src/bidirectional.rs:988-1044 | an event if and only if count and data are plausible: the end for zero, the bytes otherwise |
| StreamReads.StepKeepsInv | crates/tokio-cronet/src/bidirectional.rs:805-901 | every step of native reads, forwarders, terminal callback and application keeps the invariant |
| StreamReads.OneReadInFlight | crates/tokio-cronet/src/bidirectional.rs:805-836 | at most one native read, none while a chunk is forwarded or after the end |
| StreamReads.BytesAreConserved | crates/tokio-cronet/src/bidirectional.rs:988-1044 | taken ++ buffered ++ forwarded are the accepted reads in order |
| ReadClaims.StreamIsWhatWasRead | crates/tokio-cronet/src/bidirectional.rs:988-1044 | over any run, taken ++ buffered ++ forwarded are the first `count` bytes of the buffers of the plausible reads, in order |
| ReadClaims.ReadRecords | crates/tokio-cronet/src/bidirectional.rs:988-1044 | a read's or a forwarder's error is recorded unless one was before |
| ReadClaims.ReadsGoOn | crates/tokio-cronet/src/bidirectional.rs:805-836 | headers and each forwarded chunk are followed by a read unless the stream is over or the read is rejected |
| StreamReads.EndMeansEverything | crates/tokio-cronet/src/bidirectional.rs:304-355 | who has met the end has taken every accepted byte, unless native success came while a chunk was being forwarded |
| ReadClaims.TerminalSends | crates/tokio-cronet/src/bidirectional.rs:854-893 | the reader is sent the recorded error, else the callback's, else an end |
| ReadClaims.EndTellsTheError | crates/tokio-cronet/src/bidirectional.rs:886-893 | who has met the end of a failed stream was told of its error once, unless a read came back empty before |
| ReadClaims.ErrorCanBeMissedIff | crates/tokio-cronet/src/bidirectional.rs:886-893 | some continuation of a failing stream meets the end without the error if and only if a read came back empty before |
| ReadClaims.EndCanBeMet | crates/tokio-cronet/src/bidirectional.rs:304-355 | from every state of a stream that is over some continuation meets its end |
| StreamReads.EarlySuccessTruncates | crates/tokio-cronet/src/bidirectional.rs:886-893 | whenever it does, some continuation meets the end without every byte |
| StreamReads.TruncatedStays | crates/tokio-cronet/src/bidirectional.rs:304-355 | and then in every continuation bytes are missing |
| StreamReads.ChunkInHand | crates/tokio-cronet/src/bidirectional.rs:1028-1043 | every chunk can be in a forwarder's hand, at every capacity |
| ResponseState.PollReadConserves | crates/tokio-cronet/src/request.rs:449-474 | a read hands out the next bytes in order, loses none, and gives nothing into a buffer with room only when there is nothing |
| ResponseState.PollNextConserves | crates/tokio-cronet/src/request.rs:438-447 | likewise for the stream adapter |
| ResponseState.PollReadTokens | crates/tokio-cronet/src/request.rs:449-474 | a read hands out the next bytes, or the next error if that comes first, and fills the buffer or uses up a chunk |
| ResponseState.PollNextTokens | crates/tokio-cronet/src/request.rs:438-447 | likewise for the stream adapter |
| ResponseState.ResponseBody.PollReadInto | crates/tokio-cronet/src/request.rs:450-473 | bytes returned plus bytes kept are the bytes held before |
| ResponseState.ResponseBody.PollNextItem | crates/tokio-cronet/src/request.rs:441-446 | likewise |
| ResponseState.JudgeIsExact | crates/tokio-cronet/src/request.rs:1442-1497 | a chunk is forwarded if and only if it is not empty, fits the buffer and the limit, and has data, and it is the first bytes of the buffer; which error otherwise |
| ResponseState.CallbackContext.OnReadCompleted | crates/tokio-cronet/src/request.rs:1433-1512 | the verdict, the new total and the recorded error of a completed read |
| ResponseState.CallbackContext.Terminal | crates/tokio-cronet/src/request.rs:1194-1246 | only the first call has an effect; it publishes the recorded error or else the outcome |
| ResponseProtocol.StepKeepsInv | crates/tokio-cronet/src/request.rs:1120-1246 | every step of native reads, forwarders, terminal callback and application keeps the invariant |
| ResponseProtocol.BytesAreConserved | crates/tokio-cronet/src/request.rs:438-474 | taken ++ current ++ channel chunks ++ forwarded chunk are the accepted reads in order; the count is accepted plus null-data bytes, within the limit |
| ResponseClaims.BodyIsWhatWasRead | crates/tokio-cronet/src/request.rs:1433-1512 | over any run, taken ++ current ++ channel chunks ++ forwarded chunk are the first bytes of the buffers of the reads that fit buffer and limit and have data |
| ResponseClaims.FirstErrorIsPublished | crates/tokio-cronet/src/request.rs:1194-1246 | a request that is over publishes the first error recorded before its terminal callback, else that callback's outcome |
| ResponseClaims.ErrorIsToldOnce | crates/tokio-cronet/src/request.rs:1194-1246 | that error, and no other, is on its way to the application or was handed out once; who meets the end was told |
| ResponseClaims.EndCanBeMet | crates/tokio-cronet/src/request.rs:438-474 | from every state of a request that is over some continuation meets the end of its body |
| ResponseClaims.ReadRecords | crates/tokio-cronet/src/request.rs:1433-1512 | which error a completed read records |
| ResponseClaims.OthersRecord | crates/tokio-cronet/src/request.rs:1120-1192 | which error the other callbacks record |
| ResponseClaims.ReadsGoOn | crates/tokio-cronet/src/request.rs:1180-1192 | an empty read and each forwarded chunk are followed by a read unless the request is over or the read is rejected |
| ResponseProtocol.PhantomIffNoData | crates/tokio-cronet/src/request.rs:1467-1494 | null-data bytes are counted if and only if a read fits buffer and limit and has no data |
| ResponseProtocol.PhantomFillsTheLimit | crates/tokio-cronet/src/request.rs:1467-1494 | for every limit, a run that counts all of it and accepts nothing |
| ResponseProtocol.OneReadAtATime | crates/tokio-cronet/src/request.rs:1180-1192 | no native read is outstanding while a chunk is forwarded; at most one of either; the channel stays within capacity |
| ResponseProtocol.EndMeansEverything | crates/tokio-cronet/src/request.rs:449-474 | at the end of the body everything accepted was taken, and a refused read has surfaced as an error |
| UploadState.LimitIsExact | crates/tokio-cronet/src/request.rs:1860-1862 | the limit is the smaller of buffer and remainder, whether or not the remainder fits a word |
| UploadState.UploadContext.ReadUploadSource | crates/tokio-cronet/src/request.rs:1854-1877 | the bytes, the remainder and the errors of one stream read |
| UploadState.UploadContext.OnRead | crates/tokio-cronet/src/request.rs:1683-1775 | exactly one sink completion on every path |
| UploadState.UploadContext.OnRewind | crates/tokio-cronet/src/request.rs:1777-1835 | exactly one sink completion on every path; success only from the start of the source |
| UploadRuns.OneCompletionEach | crates/tokio-cronet/src/request.rs:1683-1835 | over any sequence of callbacks, as many completions as reads and rewinds |
| UploadRuns.PrefixIsDelivered | crates/tokio-cronet/src/request.rs:1854-1877 | since the last rewind, the taken bytes are a prefix of the source and are the bytes sent unless some were lost; taken plus remaining is the declared length |
| UploadRuns.NothingRemainsMeansAllSent | crates/tokio-cronet/src/request.rs:1866-1875 | when nothing remains and nothing was lost, exactly the declared length of the source was sent |
| UploadRuns.LostIffNoDestination | crates/tokio-cronet/src/request.rs:1749-1763 | bytes are lost if and only if a read that is not refused, closed or interrupted has no destination and its source has something to give |
| UploadRuns.ReadMoves | crates/tokio-cronet/src/request.rs:1709-1747 | a read moves its source if and only if it gets that far and finds something; with a destination it then succeeds |
| UploadRuns.RetrySendsEverything | crates/tokio-cronet/src/request.rs:1777-1835 | for every body, an error and a rewind can be followed by sending all of it |
| UploadRuns.MemoryIsSent | crates/tokio-cronet/src/request.rs:1713-1732 | a body in memory is sent completely by reads of any positive size, from wherever it stands |
| UploadRuns.ReadSucceedsIff | crates/tokio-cronet/src/request.rs:1683-1775 | exactly when a read succeeds, and which error is recorded otherwise |
| UploadRuns.RewindSucceedsIff | crates/tokio-cronet/src/request.rs:1777-1835 | exactly when a rewind succeeds, where it leaves the source, and which error is recorded otherwise |
| UploadRuns.FetchMoves | crates/tokio-cronet/src/request.rs:1713-1732 | what is handed out is what the source moved over, and the remainder falls by exactly that |
| UploadRuns.ShortSourceIsAnError | crates/tokio-cronet/src/request.rs:1868-1872 | a source at its end with bytes still declared is an error |
| UploadRuns.FinalChunkIsForUndeclaredEnd | crates/tokio-cronet/src/request.rs:1876-1876 | a final chunk if and only if an empty read of a stream of undeclared length, that is, at its end or into a buffer without room |
| UploadRuns.NoRoomEndsTheBody | crates/tokio-cronet/src/request.rs:1876-1876 | an empty buffer makes the end of such a stream early |
| UploadRuns.ClosedCancels | crates/tokio-cronet/src/request.rs:1709-1712 | after close both callbacks report cancellation and leave the source |
| UploadRuns.NoDestinationLosesBytes | crates/tokio-cronet/src/request.rs:1749-1763 | without a destination an error is reported after the source has moved |
| Sse.SseParser.DispatchEvent | crates/tokio-cronet/src/sse.rs:75-93 | the event, the cleared fields and the last id of a blank line |
| Sse.SseParser.TakeLine | crates/tokio-cronet/src/sse.rs:51-73 | comments, field names, ids without NUL, and retry values |
| SseFields.FieldLine | crates/tokio-cronet/src/sse.rs:51-73 | what a line with a field does, for every way to write the field: data, event, id without NUL, retry with a number, anything else |
| SseFields.Splits | crates/tokio-cronet/src/sse.rs:116-122 | `name:value`, `name: value` and `name` are that field with exactly that value; one blank is dropped and no other byte |
| SseFields.IgnoredLine | crates/tokio-cronet/src/sse.rs:51-58 | a comment or a line that is not UTF-8 changes nothing |
| SseFields.BlankLine | crates/tokio-cronet/src/sse.rs:75-93 | an event with data is dispatched under its name or as `message`, with its lines joined; an id takes effect only then |
| SseFields.NumberIff | crates/tokio-cronet/src/sse.rs:65-69 | a `retry` value is a number if and only if it spells one of at most 64 bits, with any leading zeros and at most one plus sign |
| SseFields.Names | crates/tokio-cronet/src/sse.rs:59-64 | the field names and the default event name, letter by letter |
| SseUtf8.Utf8Iff | crates/tokio-cronet/src/sse.rs:116-117 | a line counts as text if and only if it is the UTF-8 encoding of some Unicode scalar values |
| Sse.SseParser.Feed | crates/tokio-cronet/src/sse.rs:35-49 | takes every complete line out of the buffer, after stripping a byte order mark |
| SseLaws.LineEndIsFirst | crates/tokio-cronet/src/sse.rs:96-107 | the end found is behind the first CR, LF or CRLF |
| SseLaws.DrainConcat | crates/tokio-cronet/src/sse.rs:40-48 | draining a buffer and then more is draining both together, unless the cut splits CR from LF |
| SseLaws.NormalDrain | crates/tokio-cronet/src/sse.rs:96-114 | the parser treats LF, CR and CRLF alike: it computes the same on the LF-normal form |
| SseLaws.NormalAllIffNoSplit | crates/tokio-cronet/src/sse.rs:96-114 | chunkwise normal forms are the normal form of the whole if and only if no cut splits CR from LF |
| SseText.PushAllReads | crates/tokio-cronet/src/sse.rs:35-49 | for arbitrary bytes and chunks, pushing is draining the text read: normal forms of the chunks without the marks that pushes drop |
| SseText.SeenLength | crates/tokio-cronet/src/sse.rs:35-49 | the text read is shorter than the normal forms by three bytes for each mark dropped |
| SseText.SameTextIff | crates/tokio-cronet/src/sse.rs:35-49 | without a cut between CR and LF, chunks and whole read the same text if and only if they drop as many marks |
| SseText.PlainNeverStrips | crates/tokio-cronet/src/sse.rs:37-39 | a stream without a mark at a line start drops none, however cut |
| SseText.MarkedStripsOnce | crates/tokio-cronet/src/sse.rs:37-39 | a stream with one at its start only drops one, however cut |
| SseChunks.PushLeavesNoEnd | crates/tokio-cronet/src/sse.rs:40-48 | after each push the buffer is the unfinished line: no line ending is left |
| SseChunks.ExactChunking | crates/tokio-cronet/src/sse.rs:35-49 | while no push drops a mark, what chunked pushes compute, cuts between CR and LF included |
| SseChunks.ChunkIndependence | crates/tokio-cronet/src/sse.rs:35-49 | chunked pushes equal one push of the whole, outputs and final state, when they drop as many marks and no cut is between CR and LF |
| SseChunks.StreamChunkIndependence | crates/tokio-cronet/src/sse.rs:35-49 | in particular for a stream that may start with a byte order mark, itself cut anywhere, and has no other at a line start |
| SseChunks.SplitDispatchesEarly | crates/tokio-cronet/src/sse.rs:96-107 | a cut between CR and LF dispatches an event that one push would not |
| SseChunks.LaterMarkIsDropped | crates/tokio-cronet/src/sse.rs:37-39 | behind every text that ends a line, a mark is dropped by a push of its own and kept by a push of the whole |
| SseRoundTrip.RoundTrip | crates/tokio-cronet/src/sse.rs:35-122 | encoded events come back in order under every chunking, and the last id is that of the last event with one |
| EventQueue.EventSource.Ingest | crates/tokio-cronet/src/sse.rs:289-296 | new events are delivered after the pending ones; the last retry wins |
| EventQueue.LastRetryIsLast | crates/tokio-cronet/src/sse.rs:289-296 | the delay that counts is that of the last retry |
| EventQueue.EventSource.NextEvent | crates/tokio-cronet/src/sse.rs:238-266 | with or without reconnection, a call does exactly what comes next of all that is to happen: attempts to connect up to the next event, the next error, or the end |
| EventQueue.EventSource.Reconnect | crates/tokio-cronet/src/sse.rs:298-315 | sleeps the last delay, asks with the ids of the opening request and the last id, and keeps queue, delay and parser; no body is left unless the attempt succeeds |
| EventReconnects.ConnectionsAreOneText | crates/tokio-cronet/src/sse.rs:238-315 | for all bodies, errors and attempts, the events delivered are those of one parser for all that is heard on all connections |
| EventReconnects.HeardIs | crates/tokio-cronet/src/sse.rs:238-315 | what is heard: each body up to its first error, of all connections up to the first failed attempt; without reconnection all chunks of the only body |
| EventReconnects.ReconnectsBehind | crates/tokio-cronet/src/sse.rs:298-315 | each reconnection sleeps the last delay heard in front of it, behind the events of what was heard |
| EventReconnects.ResumesBehindTheLastEvent | crates/tokio-cronet/src/sse.rs:298-315 | it asks with the id of the last event delivered that carried one, behind the ids of the opening request; with that id alone if and only if there were none |
| EventReconnects.FailsOnceAndLast | crates/tokio-cronet/src/sse.rs:238-266 | a source that reconnects hands out at most one error, a failed attempt to connect, and nothing happens any more then |
| EventReconnects.AttemptsInOrder | crates/tokio-cronet/src/sse.rs:238-315 | that error is the one of the attempt just made, attempts being made in order; it hangs on the first that is not answered |
| EventReconnects.BodyErrorsInOrder | crates/tokio-cronet/src/sse.rs:238-266 | a source that does not reconnect hands out the errors of its body in order |
| EventReconnects.DeliversTheEncodedEvents | crates/tokio-cronet/src/sse.rs:238-296 | a fresh source that hears an encoding, however cut and spread over connections, delivers exactly the encoded events |
| GnLexer.NextGnOpenBrace | xtask/src/main.rs:2285-2314 | the scanning loop finds the first code `{` |
| GnLexer.MatchingGnBrace | xtask/src/main.rs:2316-2353 | the scanning loop finds the closing brace that `MatchingBrace` describes |
| GnLexer.MatchingBrace | xtask/src/main.rs:2316-2353 | the result is the first place where the code-brace depth is back to zero; none if and only if there is none |
| GnLexer.NextOpenBrace | xtask/src/main.rs:2285-2314 | the result is the first `{` outside strings and comments; none if and only if there is none |
| GnCalls.ScanPieces | xtask/src/main.rs:2285-2353 | a string with any contents, escapes included, and a comment with any text leave the scan in code at the same depth |
| GnFilter.RemoveNamedGnBlocks | xtask/src/main.rs:2132-2161 | removes all calls and their blocks, shrinking the text; errors for missing, malformed and unclosed targets |
| GnFilter.RemoveGnBlockWithHeader | xtask/src/main.rs:2163-2184 | removes the first call only, with the same errors |
| GnLaws.BlockErrors | xtask/src/main.rs:2138-2144 | a call is malformed if and only if no code `{` follows, unclosed if and only if the depth never comes back to zero behind the first one |
| GnLaws.NamedStep | xtask/src/main.rs:2132-2161 | the named filter takes out the first call, or fails as that call |
| GnLaws.NamedMissing | xtask/src/main.rs:2154-2158 | and reports a missing target if and only if there is no call |
| GnFilter.RemoveTestonlyGnBlocks | xtask/src/main.rs:2186-2283 | removes test blocks until the search finds none |
| GnLaws.CandidateFrom | xtask/src/main.rs:2230-2265 | on LF text the search finds the first test block at the head of a line, and none if and only if there is none |
| GnLaws.SearchLags | xtask/src/main.rs:2230-2246 | on any text the search believes each line to start as many bytes further back as lines in front of it end in CRLF |
| GnLaws.Spaces | xtask/src/main.rs:2188-2283 | which bytes are white space in front of a line and behind a block |
| GnTests.SearchFindsTargets | xtask/src/main.rs:2230-2265 | on LF text the search finds the first call of a known kind at the head of a line that is one of the nine test kinds, has `unittest` in its header, or has a body line that says `testonly = true`; none if and only if there is none |
| GnTests.FilterPeels | xtask/src/main.rs:2186-2283 | the filtered text is the one text obtained by taking out the first such call until there is none |
| GnTests.FilterLeavesNoTarget | xtask/src/main.rs:2186-2283 | none is left, and a text without any is left alone |
| GnCalls.FilterOnCall | xtask/src/main.rs:2186-2283 | a call alone, of any known kind, name and plain body, is taken out if it is a test and left as it is otherwise |
| GnCalls.TestonlyTargets | xtask/src/main.rs:2255-2264 | in particular with `testonly = true`, and with `testonly = false` |
| GnTransparency.BlockStates | xtask/src/main.rs:2140-2153 | behind a removed block the scan is in code, at the depth in front of its `{` |
| GnTransparency.KeepsStateExactly | xtask/src/main.rs:2132-2161 | for any stretch of any text: the text behind it keeps its states if and only if the scan is in the same state at both ends |
| GnTransparency.KeepsStateIff | xtask/src/main.rs:2132-2161 | for a call and line in code: if and only if line and header leave the depth alone |
| GnTransparency.TestBlockTransparent | xtask/src/main.rs:2267-2281 | for a test block: if and only if no code `}` lies between the call and its `{` |
| GnRuns.TestFilterIsTransparent | xtask/src/main.rs:2229-2283 | every byte that the test filter retains keeps its lexer state and brace depth |
| GnRuns.TestFilterReachesFixpoint | xtask/src/main.rs:2229-2283 | no test block is left, and a second run changes nothing |
| GnRuns.TestFilterKeepsIff | xtask/src/main.rs:2229-2283 | for any text, every removal of the test filter keeps the states behind it if and only if all its stretches begin and end in one state |
| GnRuns.NamedRun | xtask/src/main.rs:2132-2161 | likewise for the named filter, whatever stands in front of its calls |
| GnRuns.NamedFilterIsTransparent | xtask/src/main.rs:2132-2161 | with clean calls every byte that the named filter retains keeps its lexer state and brace depth |
| GnRuns.CommentedCallBreaks | xtask/src/main.rs:2132-2161 | a call found inside a comment that breaks the states behind it, although every line starts in code and no `}` is in its header |
| GnRuns.NamedFilterLeavesNone | xtask/src/main.rs:2154-2160 | no call is left, and a second run reports the target missing |

## Left out

- Foreign-function calls, raw pointers, `Arc::into_raw` and the copying of C strings, headers and metrics: native code is a nondeterministic environment with the assumptions stated above.
- Weak memory: all steps are sequentially consistent.
- `Notify` may wake a task more often than one permit and one generation allow; the models have the fewest wakeups that Tokio promises.
- A runtime that is torn down between the terminal callback and the cleanup task's drop; before the terminal callback it is modelled, and leaks the object.
- Destruction of a request's read buffer: native `Read` and the later nulling of the pointer are not synchronised.
- The relative order of a terminal error item and a chunk still being forwarded: two tasks send them; the model allows both orders.
- `ResponseBody::next_chunk` mixed with the other adapters: it bypasses the buffered chunk.
- The adapters `poll_write`, `poll_flush` and `poll_shutdown` of a bidirectional stream: they forward to the modelled write pipeline and keep one flush receiver.
- `next_chunk` of a bidirectional stream mixed with the other read adapters: it bypasses the buffered chunk.
- EngineState.EngineInner.Register: which weak references are dead is a parameter; in `EngineProtocol` a control may be forgotten once its request is gone.
- EngineState.EngineFinishedContext.OnFinished: the copied metrics and their broadcast are not modelled.
- EventQueue.EventSource.Reconnect: of the request's headers only `last-event-id` is modelled, and an application that sets that header by hand is not; the network's answers are a script, in which an attempt without an answer leaves the source without a body.
- UploadState.UploadContext.OnRead: an application's source keeps its contents, and a read that is abandoned takes nothing from it, as Tokio promises for `read`.
- UploadRuns.PrefixIsDelivered: a seek that fails or is abandoned may leave a source anywhere; the prefix claim is for runs without one since the last successful rewind.
- GnFilter.RemoveTestonlyGnBlocks: white space outside ASCII is not trimmed from a line, and slicing inside a multi-byte character, which would panic, is not modelled.
- Redirects, request status, response headers and timeouts of URL requests.
- `websocket.rs`, `nqe.rs`, `dns.rs`, `executor.rs`, `error.rs`, `types.rs`, and the rest of `xtask` and the build scripts: tables, wrappers and input/output.
