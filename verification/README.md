# A verified model of the MCP server's request, task and daemon machinery

This project models, in Dafny, the parts of the synchronous MCP server whose
correctness spans several functions or several threads, and proves what they
promise over every input, every run or every interleaving.

`dafny verify dfyconfig.toml` checks everything.

| Part | Files |
|---|---|
| Strings, decimal, base64url | `Text`, `Base64Url` |
| Messages and errors | `Messages`, `Errors` |
| Broker, one method at a time | `BrokerSections`, `Broker`, `BrokerDelivery`, `RequestBroker` |
| Broker and readers, one lock at a time | `Protocol`, `ProtocolFifo`, `ProtocolCalls`, `ProtocolEnds`, `ProtocolBounds`, `ProtocolOverlap` |
| The reading loops themselves | `ServerLoop` |
| Task store | `Tasks`, `TaskLifecycle`, `TaskEffects`, `TaskQuotas`, `TaskIsolation`, `TaskListing`, `TaskStore` |
| Tool calls, direct and as tasks | `ToolCalls`, `TaskGate` |
| Dates and timestamps | `Calendar`, `Timestamps` |
| Pages | `Pagination` |
| Daemon and shim | `SocketClaim`, `SocketShim`, `ShimPump`, `PidFile` |

## How it is built

**Threads.** `Protocol` is a state machine whose events are single atomic
actions: one read, one write, or what happens under one broker lock. A run is any
sequence of enabled events, so it is any interleaving of the reader with any
number of task workers. `ServerLoop` holds the code of the loops - `Server::start`,
`await_response`, the `tasks/result` pump - over a mutable `RequestBroker`; each
method extends a ghost history of `Protocol` events and states that agrees with the
broker's queues, with what was taken off the transport, and with what was done about
it - the messages handed to `handle_message`, the requests answered without it, the
replies written - so the theorems about runs are theorems about the loops. Task workers
act wherever the code calls `Interfere`, whose contract is all its callers know.
`SocketClaim` and `SocketShim` are related in the same way.

**State in place.** `RequestBroker`, `ReaderThread`, `TaskStore`, `Shim`, `Outlet` and
`Directory` are classes whose methods change their fields. Each method is proved
equal to a function of the old state, and the results are proved about those functions.

**Clocks** are integers in nanoseconds that an operation is given; they may run
backwards except where a statement says otherwise.

## What turned out not to hold as written

- "Nothing is dropped and nothing is delivered twice" (`src/broker.rs:20`) has four
  exceptions on the client's side, which `DeferredQueueIsFifo` names exactly.
- That no id is both parked and abandoned holds between whole broker methods
  (`Broker.RunKeepsValid`) and fails lock by lock: `ProtocolOverlap.OverlapHappens` is
  such a run, and `ProtocolOverlap.OverlapsExactly` says when there is one: which step
  starts it - the last lock of a task worker's own `abandon`, finding the answer parked -
  and which steps end it.
- `await_response` looks for a parked answer first. While ids last there never is one:
  `ProtocolBounds.NothingParkedIsCollected`.
- Ids are unique up to 2^64 calls; `ProtocolCalls.IdsRepeatExactly` says when two coincide
  with no bound on the run.
- A full store is not isolated, and neither is a clock that runs back.
  `TaskIsolation.CreateShowsExactly`, `OwnCreateShowsExactly` and `OwnCreateAnswersExactly`
  say exactly when a `create` shows, and `SweepShowsExactly` what a sweep shows on an earlier
  clock; `TaskIsolation.OthersDoNotShow` excludes those steps and no others. A monotone system
  clock does not rule the last out by itself: `create` reads it before it takes the lock
  (`src/tasks.rs:366-367`), so its sweep can come after that of a later reading.
- A task's gate opens even when the write of its announcement failed:
  `TaskGate.LostAnnouncementOpensTheGate`. `TaskGate.AnnouncedFirst` says that this, for a
  worker that did not time out first, is the only way.
- `prepare_socket_path` and `clear_socket` have a branch for a live answer under the claim.
  Among processes that keep to the claim it cannot be taken:
  `SocketClaim.OnlyStrangersAnswerAProbe`.

## Model

The rows come in three groups, in this order: the results, from
`ProtocolFifo.DeferredQueueIsFifo` to `PidFile.ReaderSeesOldOrNew`; the invariants,
loops and smaller facts they rest on; and last, from `ShimPump.EveryReadIsPlacedOnce`,
definitions read back and straight-line methods tied to their specification functions.

| member | source | states |
|---|---|---|
| `ProtocolFifo.DeferredQueueIsFifo` | src/server.rs:1868-1911 | In every interleaving, what `handle_message` was given followed by the deferred queue is what was read, in arrival order, less the messages with one of four fates; the requests answered early are exactly the excepted ones; and the log entry of every message read carries a fate if and only if the state it was read in called for it: the queue at 256 (refused, shed), the pump reading one of four methods (inline), a direct wait for the very call a cancellation names. |
| `ProtocolFifo.PumpLeavesTheRest` | src/server.rs:2241-2247 | In every run, a request the pump reads is answered there if it is `ping`, `tasks/get`, `tasks/list` or `tasks/cancel`; any other - a tool call, a second `tasks/result` - is handed over or still queued, or was refused with 256 queued before it. |
| `ServerLoop.ReaderThread.Serve` | src/server.rs:1868-1911 | The main loop ends when the client is gone, with nothing queued; the messages it gave to `handle_message` are exactly those read that met no exception, in arrival order; the requests among them were replied to, once and in order; the excepted requests were answered, once and in order; every fate was deserved; every request its tool calls had to make of the client was made, and every `tasks/result` pumped. |
| `ServerLoop.GenuineIsRun` | src/server.rs:1868-1911 | The history the loops keep is a run of the interleaved machine, and its tally of arrivals, requests and pumps is that run's. |
| `ProtocolCalls.CallsEndCleanly` | src/server.rs:310-453 | Up to 2^64 calls, whatever the order of answers, duplicates, cancellations, timeouts and registrations: a call that succeeds returns a response carrying its own id, no two calls share an id or an answer, and a finished call's id is not in the waiter map. |
| `ProtocolEnds.CallsEndForAReason` | src/server.rs:337-531 | In every run, a call that ends ends for a stated reason: it succeeds with the answer read, collected or received; it fails because a read failed, its channel was closed, or it was given up. |
| `ProtocolEnds.AnswersFindTheirCall` | src/server.rs:334-340 | In every run, from before a worker's request is written until it stops waiting, its answer can reach it - registered, in the reader's hand, or in its channel - unless the client's own cancellation took it off the map. |
| `ProtocolEnds.CancellationIsActedOn` | src/server.rs:2854-2875 | A cancellation the main loop reads is acted on if and only if it names a request of ours: then nobody waits for that id, its answer is neither kept nor will be, and the worker that was waiting finds its channel closed; otherwise nothing changes. |
| `ProtocolEnds.RunMarksOurs` | src/broker.rs:231-250 | In every run while ids last, no id is given up that was not issued here. |
| `ProtocolEnds.WorkersGiveUpForAReason` | src/server.rs:337-453 | A worker starts to give its call up if and only if its write failed, its wait ran out or its task was cancelled, or with the task cancelled its channel was closed or its answer is an error. |
| `ProtocolCalls.IdsRepeatExactly` | src/broker.rs:119-124 | With no bound, two calls share an id if and only if their numbers agree modulo 2^64. |
| `ProtocolCalls.HandoverReaches` | src/broker.rs:170-181 | An answer taken out of the waiter map arrives in the channel of the call it is for, from the moment that call registered until it stops waiting: the channel is never full. |
| `ProtocolBounds.NothingParkedIsCollected` | src/server.rs:478-481 | While ids last, a direct wait never finds its answer parked: in no reachable state can `take_parked` at the top of `await_response` return anything. |
| `ProtocolBounds.RunKeepsBounds` | src/broker.rs:196-229 | Lock by lock, parked responses number at most 16 with distinct ids, each recognised as issued here, and abandoned ids at most 64. |
| `ProtocolOverlap.OverlapsExactly` | src/broker.rs:196-229 | In every run, an id is both abandoned and parked (or past the check and about to be parked) if and only if the last lock of a task worker's own `abandon` found the answer parked and no later step recalled or evicted its last mark, or dropped, evicted or collected its answer; the reader's `abandon`, for a direct wait or a client's cancellation, never starts one. |
| `ProtocolOverlap.OverlapBeginsExactly` | src/broker.rs:220-229 | A lock section starts such an overlap if and only if it is the third lock of a task worker's own `abandon` of that id, with the answer parked. |
| `ProtocolOverlap.OverlapEndsExactly` | src/broker.rs:196-262 | A lock section ends one if and only if it recalls the only mark against the id, evicts that mark at 64, drops the answer, or evicts it as the oldest of 16 parked; or a direct wait collects it. |
| `ProtocolOverlap.OverlapHappens` | src/broker.rs:196-229 | A run in which an id ends up both parked and abandoned. |
| `Broker.RunKeepsValid` | src/broker.rs:76-94 | In every run of whole methods: at most 16 parked with distinct recognised ids, at most 64 abandoned, at most 256 deferred, nothing both parked and abandoned, every registered channel open and empty; the counter has moved by the number of allocations. |
| `Broker.LateAnswerIsDiscarded` | src/broker.rs:196-262 | The first late answer to an abandoned id reaches no channel and is not parked if fewer than 64 later abandonments came between. |
| `BrokerDelivery.AnswerReachesItsWaiter` | src/broker.rs:159-181 | A waiter that registered for an id receives the first answer to it, whatever else happens before and after, and nothing the second time; no other channel and no queue sees that answer. |
| `BrokerDelivery.GivenUpWaiterIsHungUp` | src/broker.rs:220-250 | A waiter whose request is given up first finds its channel closed and stays empty-handed whatever arrives. |
| `BrokerDelivery.ParkedAnswerIsCollectedOnce` | src/broker.rs:127-217 | An answer of ours that nobody was registered for and nobody had given up is there for whoever collects it, once, if fewer than 16 answers were delivered since. |
| `ServerLoop.ReaderThread.AwaitResponse` | src/server.rs:472-531 | Ends exactly as the last thing read calls for - own answer, own cancellation, timeout, failure - or at the deadline, and before 2^64 calls in no other way; an answer carries the awaited id; everything else read has been placed. |
| `TaskLifecycle.RunKeepsSound` | src/tasks.rs:460-596 | In every run a record has an outcome exactly when its status is terminal, and a raised cancel flag means cancelled. |
| `TaskLifecycle.RunContinues` | src/tasks.rs:84-90 | A record that is still there has its owner, creation and lifetime, and if it was terminal is unchanged in every field. |
| `TaskLifecycle.AlwaysAResult` | src/tasks.rs:574-605 | The branch for a terminal task without a result is unreachable. |
| `TaskLifecycle.ResultsAgree` | src/tasks.rs:574-605 | Asking again, whatever happened between, gives the same result or not-found. |
| `TaskLifecycle.CancellationSticks` | src/tasks.rs:537-570 | A cancelled task stays cancelled. |
| `TaskEffects.CancelTakesEffect` | src/tasks.rs:537-570 | After its owner cancels a running task, whatever follows - its worker finishing included - it is shown as cancelled and its result is an error with code -32603 for as long as it is found. |
| `TaskEffects.CancelAnswers` | src/tasks.rs:553-568 | `cancel` raises the flag and answers with what `get` then says: the same task, cancelled, under the new timestamp. |
| `TaskEffects.FinishTakesEffect` | src/tasks.rs:460-482 | A running task that is finished shows that status, that outcome and an error's message for as long as it is found, whatever follows; one that is not running is not touched. |
| `TaskEffects.CreateTakesEffect` | src/tasks.rs:361-418 | A granted `create` answers with a working task that `get` shows its owner and nobody else, until exactly the milliseconds asked for, or the default, within the maximum, have passed. |
| `TaskEffects.OnlyTheNamedChanges` | src/tasks.rs:302-570 | An operation changes no record but the one it names, and removes none but by expiry or by a `create` evicting a finished one. |
| `TaskQuotas.RunKeepsLimits` | src/tasks.rs:361-385 | In every reachable store each owner has at most `max_concurrent` tasks working or waiting for input, and there are at most max(`max_records`, 1) records. |
| `TaskQuotas.CreateEvictsAtMostTheOldest` | src/tasks.rs:302-418 | Granted if and only if the owner is under quota and there is or can be room; refused, it leaves the swept table; granted, it removes at most the terminal record least by (created, id), and only at the ceiling. |
| `TaskQuotas.EvictedIsTheOldest` | src/tasks.rs:313-335 | What a `create` throws away beyond the expired: at most one record, of a finished task created before every other finished one, or at the same instant under a lesser id, and only for a task it grants. |
| `TaskIsolation.OthersDoNotShow` | src/tasks.rs:242-596 | In every run, on any clocks, none of whose steps shows in the exact sense of the next rows, a requestor is told what the same run says with everybody else's records, requests and workers taken out. |
| `TaskIsolation.QueriesAreIsolated` | src/tasks.rs:424-454 | Two stores that agree on one requestor's records give identical answers to get, list, cancel and result queries and still agree afterwards. |
| `TaskIsolation.CreateShowsExactly` | src/tasks.rs:313-335 | Another's `create` changes one's records if and only if it is under its quota in a full store whose oldest terminal record is one's own. |
| `TaskIsolation.OwnCreateShowsExactly` | src/tasks.rs:361-418 | One's own `create` leaves one's records otherwise than in a store without the others if and only if it is under quota, the store is full but not of one's own records, and there is nothing to evict or the oldest terminal record is one's own. |
| `TaskIsolation.OwnCreateAnswersExactly` | src/tasks.rs:361-385 | It is answered otherwise if and only if, in that case, there is nothing to evict. |
| `TaskIsolation.SweepShowsExactly` | src/tasks.rs:302-304 | What any other request - a `create` that evicts nothing of one's own included - shows on a clock that may have gone back since: a difference if and only if it swept a record of one's own that the earlier clock has not expired. |
| `TaskIsolation.RoomyIsUnseen` | src/tasks.rs:302-335 | On a forward clock with room for every `create`, no step shows. |
| `TaskListing.ListIsNewestFirst` | src/tasks.rs:439-454 | In every run before the year 10000, `list` is ordered newest second first, ties by id. |
| `Tasks.ListingIsUnique` | src/tasks.rs:439-454 | There is one ordered sequence of a given set of tasks. |
| `TaskStores.TaskStore.AwaitResult` | src/tasks.rs:616-661 | Terminates within the smaller of remaining lifetime and patience, counted in ticks, with other threads using the store at every wait; ends with the recorded outcome, with the task gone, or out of patience with the task still running; the table is then the old one after the others' steps and sweeps of its own and nothing else, so with nobody else about a record that is left is unchanged. |
| `ToolCalls.TaskAnswersLikeTheCall` | src/server.rs:2410-2479 | For every tool outcome including a panic, the task's recorded outcome collects to the same kind of answer and error code as the direct call, equal but for the two wordings, which are given, and the related-task key; other `_meta` keys are kept, and a panic's error carries that key and no other data. |
| `ToolCalls.TaskResultSurvivesTheStore` | src/server.rs:2089-2133 | A task running when its worker finished gives that outcome however many operations later, if and only if its record is still there, unexpired, and its owner asks; otherwise not found. |
| `ToolCalls.TaskStatusTells` | src/server.rs:2410-2479 | `tasks/get` shows a finished task as completed if and only if its tool returned no error and an output its schema accepts, as failed otherwise, for as long as it is found. |
| `ToolCalls.DirectFailsExactly` | src/server.rs:2733-2759 | A direct call is a protocol error if and only if the tool panicked, raised anything but a tool or argument error, or returned an output its schema refuses. |
| `ToolCalls.ToolErrorsAreResults` | src/server.rs:2739-2752 | A tool's own error and a complaint about its arguments are results marked as errors, holding exactly that text. |
| `TaskGate.AnnouncedFirst` | src/server.rs:1922-1945 | In every run, a message of a task's worker follows the response announcing the task if and only if that response could be written, unless the worker's gate wait timed out before the response was out. |
| `TaskGate.TimedOutWorkerSpeaksFirst` | src/server.rs:1356-1371 | A run in which a timed-out worker speaks before its task is announced. |
| `TaskGate.LostAnnouncementOpensTheGate` | src/server.rs:1922-1935 | A run in which a failed announcement lets its worker speak of an unknown task. |
| `Calendar.CivilRoundTrip` | src/tasks.rs:804-816 | Every integer day number gives a valid Gregorian date, and the usual inverse recovers it. |
| `Calendar.DateRoundTrip` | src/tasks.rs:804-816 | Every valid date is the date of its day number. |
| `Calendar.CivilFollowsTheCalendar` | src/tasks.rs:804-816 | The date for d+1 is the calendar successor of the date for d. |
| `Calendar.CivilIsMonotone` | src/tasks.rs:804-816 | Dates run in the order of day numbers. |
| `Calendar.IntermediateRanges` | src/tasks.rs:805-813 | Every intermediate lies in the range its comment gives, under truncating division. |
| `Timestamps.StampOrder` | src/tasks.rs:779-799 | Before the year 10000 stamps are 20 characters and their lexicographic order is the time order (section 5.1 of RFC 3339). |
| `Timestamps.StampReadsBack` | src/tasks.rs:779-799 | Read digit by digit (section 5.6 of RFC 3339), a stamp is a date of the calendar and a time of day, and that date's day number and that time come to the very second it was made from. |
| `Timestamps.IsoShowsTheSecond` | src/tasks.rs:780-785 | `iso8601` shows the last whole second not after its instant; before the epoch, the epoch. |
| `Pagination.WalkIsTheList` | src/pagination.rs:98-120 | For every list and page size, zero included, following `nextCursor` terminates and the pages concatenate to the list. |
| `Pagination.CursorRoundTrip` | src/pagination.rs:66-84 | Every cursor issued decodes to its offset. |
| `Pagination.CursorIsTheOffset` | src/pagination.rs:66-68 | A cursor is the offset in decimal digits, and nothing else, in base64url. |
| `Base64Url.DecodesExactly` | src/pagination.rs:66-84 | A text decodes to bytes if and only if it is their unpadded base64url encoding (sections 3.2 and 5 of RFC 4648). |
| `Base64Url.EncodesTheNumber` | src/pagination.rs:66-84 | An encoding is the bytes as one number, most significant first, in base 64 with the characters of Table 2 of RFC 4648, no longer than it takes and its missing low bits zero. |
| `SocketClaim.LiveDaemonOwnsThePath` | src/socket.rs:164-186 | In every interleaving, with any process killed at any step, a bound or listening daemon has the claim and the path names its own socket. |
| `SocketClaim.NobodyUnlinksALiveSocket` | src/bridge.rs:512-537 | No step but a daemon's own stopping changes what the path names while that daemon is bound or listening. |
| `SocketClaim.NameIsKept` | src/transport/unix_server.rs:285-357 | From bind to the last moment of service the path names that one socket and the claim is that daemon's. |
| `SocketClaim.StoppingUnlinksItsOwn` | src/transport/unix_server.rs:285-357 | A daemon that stops takes away its own socket and nothing else, while it still has the claim. |
| `SocketClaim.AtMostOneServes` | src/transport/unix_server.rs:562-585 | Two serving daemons are one. |
| `SocketClaim.OnlyStrangersAnswerAProbe` | src/transport/unix_server.rs:599-625 | A probe under the claim is answered only by a listener that never took it. |
| `SocketClaim.OnlyTheRefusedUnlink` | src/transport/unix_server.rs:599-625 | In every run, whoever unlinks on the way in was refused by every connect it made since it took the claim: a daemon once, at a path of its own user's; a shim three times in a row. |
| `SocketClaim.AcceptedMeansHandsOff` | src/transport/unix_server.rs:614-618 | A process whose connect was accepted since it took the claim neither unlinks nor binds, and no step of its own changes what the path names until it claims again. |
| `SocketClaim.FreshDaemonTakesOver` | src/socket.rs:181-186 | Whoever died and whatever file of the user's own they left, when nobody alive has the claim and nobody listens, a new daemon gets to serve by its own steps, whatever its connect then answers. |
| `SocketClaim.WithoutClaimsADaemonIsOrphaned` | src/socket.rs:172-180 | The same programs with a lock that excludes nobody: a run that leaves a listening daemon without a name. |
| `SocketShim.Shim.ClearSocket` | src/bridge.rs:512-537 | Exactly the claim, the probes, at most one unlink and the release; unlinked if and only if claimed, ours and refused throughout; a connection returned if and only if the last probe, or without the claim the one attempt, made a usable one; the PID file removed only along with the socket; no serving daemon loses its name meanwhile. |
| `ShimPump.PumpWhileWritesWork` | src/bridge.rs:288-324 | While writes work, that prefix is everything up to the first read that ends the pump. |
| `ShimPump.Pump` | src/bridge.rs:288-324 | What has gone out either way is the map and filter of a prefix of the input, ending at the stream's end, at a failed read, or at a write that failed; a failed write is an error forward and quiet on the way back. |
| `ShimPump.CollectIsExact` | src/bridge.rs:288-324 | The outputs are one for each read that is to have one, and no others, in order. |
| `PidFile.WritePidFile` | src/transport/pid_file.rs:8-49 | At every point between steps and after any failure the destination shows its previous content or the complete PID and nothing else but the temporary file differs; every exit leaves the directory as it was or with just the PID published, except that a temporary file never renamed stays, with a prefix of the PID, exactly if its removal fails too. |
| `PidFile.ReaderSeesOldOrNew` | src/bridge.rs:414-416 | A reader at any of those points gets the previous PID or the new one. |
| `ProtocolFifo.NextKeepsFifo` | src/broker.rs:271-286 | Every single step of any thread keeps that, and logs exactly the message it read. |
| `ProtocolCalls.RunKeepsCalls` | src/broker.rs:159-181 | The inductive invariant behind it: every registered sender is that of a live delegated call with that id, a filled channel carries its own id and is unregistered, and the sender in the reader's hand is the right one. |
| `ProtocolCalls.RunKeepsIds` | src/broker.rs:119-124 | In every run the k-th call's id is the prefix and k modulo 2^64. |
| `ServerLoop.ReaderThread.ReadWhileWaiting` | src/server.rs:490-531 | One read of that loop: its ending, or that it goes on, is a function of what was read and the awaited id. |
| `ServerLoop.ReaderThread.TakeOwn` | src/server.rs:478-481 | A parked answer to the awaited id is taken, once, if there is one - which takes 2^64 calls. |
| `ServerLoop.ReaderThread.SendRequest` | src/server.rs:310-399 | A direct request: allocated, written or abandoned, awaited or given up; it ends as its last read or its deadline calls for, an answer carries the id just allocated, and the reader is back with its tool call. |
| `ServerLoop.ReaderThread.ShedOrDefer` | src/server.rs:534-547 | A message is queued; at a full queue a request's own id is answered and a notification shed. |
| `ServerLoop.ReaderThread.AwaitTask` | src/server.rs:2162-2210 | The `tasks/result` pump ends with the outcome or the refusal the store last gave, or because the client is gone, having placed everything it read and recorded every answer it gave. |
| `ServerLoop.ReaderThread.HandleMessage` | src/server.rs:1985-2009 | Records the message as handed over and ends at the top with nothing half-routed, everything the message called for carried out and, for a request, its reply written. |
| `ServerLoop.ReaderThread.Dispatch` | src/server.rs:2046-2070 | A tool call makes every request its tool makes, one after the other; `tasks/result` pumps; nothing else reads. |
| `ServerLoop.FinishDelivery` | src/broker.rs:170-217 | `deliver`, its locks taken in a row, is the whole-method result in every field: into the waiter's channel, discarded, parked or refused. |
| `ServerLoop.FinishAbandon` | src/broker.rs:220-229 | `abandon`, its three locks taken in a row, is the whole-method result in every field. |
| `ServerLoop.WorkersLeaveReader` | src/server.rs:414-456 | No number of worker steps changes anything that belongs to the reader. |
| `BrokerSections.IdIsInjective` | src/broker.rs:119-124 | Different counter values give different ids. |
| `BrokerSections.IssuedExactly` | src/broker.rs:140-147 | An id the server prints is recognised if and only if its number is below the counter. |
| `BrokerSections.OtherSpellingsPass` | src/broker.rs:140-147 | So are the same number with a leading zero or plus, which the server never printed. |
| `BrokerSections.PushParkedContents` | src/broker.rs:207-217 | Parking keeps ids distinct and the queue within 16, holds the new response, and adds nothing else. |
| `BrokerSections.WithoutIsFilter` | src/broker.rs:220-224 | `retain` drops exactly the responses to one id and keeps ids distinct. |
| `BrokerSections.ForgetDropsOne` | src/broker.rs:252-262 | One occurrence of the id, and nothing else, leaves the abandoned queue. |
| `TaskLifecycle.MakeRoomOnlyRemoves` | src/tasks.rs:313-335 | Eviction changes no record, keeps every running one, and makes room when it says so. |
| `Tasks.OldestIsUnique` | src/tasks.rs:315-320 | The minimum by (created, id) does not depend on the map's iteration order. |
| `TaskIsolation.QuerySeesOnlyMine` | src/tasks.rs:248-252 | A query's answer and effect on one's own records are those of the store with everybody else removed. |
| `TaskListing.RunKeepsStamped` | src/tasks.rs:388-397 | In every run each record's `created_at` is its creation instant printed. |
| `Tasks.ListingExists` | src/tasks.rs:439-454 | Every table has a listing: ordered, holding each of its tasks and nothing else. |
| `TaskStores.TaskStore.MakeRoomForOne` | src/tasks.rs:313-335 | The eviction loop comes to the specified table and verdict. |
| `TaskStores.TaskStore.FindOldest` | src/tasks.rs:315-320 | The scan, in whatever order, finds the oldest terminal record if there is one. |
| `TaskStores.TaskStore.List` | src/tasks.rs:439-454 | Gathered in any order and sorted, the reply is the unique listing. |
| `ToolCalls.SerializedMeta` | src/server.rs:2099-2123 | Marking a serialized result touches nothing but the related-task key. |
| `ToolCalls.ResultReadsBack` | src/types/protocol.rs:555-590 | Nothing of a tool's result is lost in serializing it. |
| `TaskGate.RunKeepsGates` | src/server.rs:2354-2371 | The gates pending at a write are those of the very answer being written, though every write opens all of them, and a task is announced at most once. |
| `TaskGate.NobodyIsStranded` | src/server.rs:1938-1945 | Whenever the main thread is free, every worker at its gate may pass. |
| `Pagination.WalkFromOffset` | src/pagination.rs:98-120 | The same from any issued cursor: the rest of the list. |
| `Pagination.PageIsPrefix` | src/pagination.rs:55-63 | A page is a nonempty prefix of what is ahead, within the page size, with a next cursor exactly when something is left, pointing at it. |
| `SocketShim.Shim.ProbeSocket` | src/bridge.rs:454-488 | Dead if and only if the path is ours and all three attempts were refused, live if and only if the last connected; every attempt before the last was refused. |
| `SocketClaim.OnlyAnEmptyPathIsBound` | src/transport/unix_server.rs:299-301 | Binding takes an empty path; where there is a file the daemon gives up and the file stays. |
| `ShimPump.Apply` | src/bridge/transform.rs:114-135 | The verdict, with the client's id even if the transform rewrote it, and the message as the transform left it. |
| `ShimPump.NoTransformForwardsAll` | src/bridge.rs:288-324 | With no transform every message is forwarded unchanged. |
| `PidFile.WriteAll` | src/transport/pid_file.rs:8-13 | In pieces of any size, touching the temporary file alone. |
| `PidFile.PidReadsBack` | src/bridge.rs:414-416 | A published PID reads back as itself if and only if it fits 31 bits. |
| `ProtocolFifo.FateIsDeserved` | src/server.rs:534-547 | Per read, each of the four fates with its guard, both ways: the four method names, the queue at 256, the awaited id. |
| `ProtocolOverlap.RunOverlapsExactly` | src/broker.rs:196-229 | Both conditions are exact at every step of every run while ids last. |
| `ServerLoop.ReaderThread.PlaceInPump` | src/server.rs:2202-2208 | A response is routed; one of the four methods is answered with its own id and not queued; anything else is queued, or at 256 answered or shed. |
| `TaskStores.SweepsAlone` | src/tasks.rs:616-661 | A run of sweeps alone changes no record it leaves. |
| `TaskEffects.QueriesTell` | src/tasks.rs:424-433 | `get` and `try_result`, told without sweeping: found exactly if there, owned and younger than its lifetime. |
| `TaskEffects.ListTells` | src/tasks.rs:439-454 | `list` gives every task `get` would find, and no other. |
| `TaskEffects.SetStatusTakesEffect` | src/tasks.rs:492-516 | A status shows if and only if it is not final and the move is one the diagram has; otherwise nothing changes. |
| `TaskEffects.SetMessageTakesEffect` | src/tasks.rs:519-531 | A message shows while its task runs and is ignored after. |
| `TaskEffects.CancelRefusesTheRest` | src/tasks.rs:541-551 | Any other `cancel` is refused as not found or already terminal and changes nothing but what it sweeps. |
| `TaskEffects.TransitionsFollowTheDiagram` | src/tasks.rs:72-94 | Every move between two different states is permitted from those that are not final, and no other. |
| `ShimPump.EveryReadIsPlacedOnce` | src/bridge/transform.rs:75-95 | Each message is forwarded as the transform left it, answered with its own id and the transform's error, or - failed and no request - dropped, never two of these; each bad line is answered with its id, if readable, and code -32700 or -32600. |
| `Pagination.RefusedExactly` | src/pagination.rs:30-39 | Invalid-cursor if and only if the cursor does not decode or points past the end. |
| `ProtocolFifo.EffectOnQueue` | src/server.rs:472-547 | For every event, what it appends to the log, the handled messages, the queue and the early answers. |
| `Messages.CancelsExactly` | src/server.rs:1234-1251 | A message withdraws a request if and only if it is the cancellation notification and names that id. |
| `BrokerDelivery.CancelGivesUpOurs` | src/broker.rs:242-250 | `cancel` abandons an id issued here and does nothing to any other. |
| `BrokerDelivery.ReplacedWaiterIsHungUp` | src/broker.rs:159-163 | A second waiter for an id takes the place of the first, whose channel closes. |
| `ProtocolEnds.FailedReadMarksNothing` | src/server.rs:499-506 | A failed read ends a direct wait without giving its id up. |
| `ProtocolEnds.GivingUpMarks` | src/broker.rs:220-229 | Giving up leaves the id the newest of the marked ones, whoever does it. |
| `Calendar.EpochDate` | src/tasks.rs:804-816 | Day 0 is 1970-01-01. |
| `Errors.CodesOnTheWire` | src/types/error.rs:114-151 | The JSON-RPC code each kind of error has, and that a replayed one is unchanged. |
| `RequestBrokers.RequestBroker.NextRequestId` | src/broker.rs:119-124 | The new state and id, keeping the invariant below 2^64. |
| `RequestBrokers.RequestBroker.TakeParked` | src/broker.rs:127-131 | The first parked response to the id is removed and returned, or nothing changes. |
| `RequestBrokers.RequestBroker.RegisterWaiter` | src/broker.rs:159-163 | A fresh channel of one place is registered, hanging up one it replaces. |
| `RequestBrokers.RequestBroker.Deliver` | src/broker.rs:170-181 | To the registered waiter, once, or else to `park`. |
| `RequestBrokers.RequestBroker.Park` | src/broker.rs:196-217 | Refused if not issued here, discarded if abandoned, replaced if already parked, else queued with the oldest dropped. |
| `RequestBrokers.RequestBroker.Abandon` | src/broker.rs:220-229 | Forgets a parked answer and a waiter, remembers the id among the last 64. |
| `RequestBrokers.RequestBroker.Cancel` | src/broker.rs:242-250 | Abandons an id issued here and nothing else. |
| `RequestBrokers.RequestBroker.ForgetAbandoned` | src/broker.rs:252-262 | Removes the first mark against the id, and says whether there was one. |
| `RequestBrokers.RequestBroker.Defer` | src/broker.rs:271-279 | Queued at the end, or handed back at 256. |
| `RequestBrokers.RequestBroker.NextDeferred` | src/broker.rs:284-286 | Taken from the front. |
| `TaskStores.TaskStore.Create` | src/tasks.rs:361-418 | New table and reply are those of the specification. |
| `TaskStores.TaskStore.Get` | src/tasks.rs:424-433 | New table and reply are those of the specification. |
| `TaskStores.TaskStore.Finish` | src/tasks.rs:460-482 | A running task takes status and outcome; any other is left alone. |
| `TaskStores.TaskStore.SetStatus` | src/tasks.rs:492-516 | Terminal statuses are refused; others move along a permitted transition. |
| `TaskStores.TaskStore.SetMessage` | src/tasks.rs:519-531 | A running task takes the message. |
| `TaskStores.TaskStore.Cancel` | src/tasks.rs:537-570 | Not found, already terminal, or cancelled with its outcome recorded. |
| `TaskStores.TaskStore.TryResult` | src/tasks.rs:574-605 | Not found, still running, or the recorded outcome. |
| `ShimPump.PumpOne` | src/bridge.rs:294-322 | One turn of the loop. |

## Left out

- The HTTP transport, sessions, TLS, line framing and the accept loop of `UnixServer`.
- `src/schema_check.rs`, `src/auth`, `src/cli`, `src/remote.rs` and the mode dispatch of `src/daemon.rs`: an output check is a given predicate.
- Elicitation, sampling, logging, prompts, resources, capabilities and `check_initialized`: single-branch checks.
- JSON text: messages and results are values; a result always serializes, and the texts of `serde_json` errors are opaque.
- Random ids are assumed fresh: a task id is not reused while a statement follows that task, and a PID writer's temporary name is not its destination.
- Lock poisoning, real time, process spawning and thread scheduling: clocks are inputs, and a killed process or a failed spawn is an event.
- `usize` is 64 bits wide; day numbers near the ends of `i64` do not overflow.
- `auto_start_inner`, `wait_for_socket` and the PID file's own removal: only their use of the socket path is modelled. The PID file is removed without the claim at `src/bridge.rs:397`, and nothing is claimed of it there.
- A message the transport writes only in part is not modelled: a write happens or it does not.
- TaskStores.TaskStore.List: requires that records are filed under their own ids, which every run keeps (`TaskLifecycle.RunKeepsSound`).
- ServerLoop.ReaderThread.Serve: what the tools ask of the client and what the store says of an awaited task are given beforehand, turn by turn; the reader's own writes work, a failing one ending `start`; the error written for a malformed line is not recorded; and the channels of the broker object are not tied to the call slots of `Protocol`.
- TaskIsolation.OthersDoNotShow: excludes the steps that show, where it is false: a `create` that `OtherCreateShows` or `OwnCreateShows` names, and a sweep of a record that a later question reads an earlier clock for.
- ToolCalls.TaskAnswersLikeTheCall: a result that cannot be serialized is not modelled.
- TaskGate.AnnouncedFirst: one transport at a time; `process_one`, which changes it between requests, is not modelled.
