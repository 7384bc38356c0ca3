# Bridgewire: a model of the door controller and what it guarantees

Bridgewire reads credentials from a serial RFID reader, decides whether to release a door, drives a relay
through GPIO, keeps an audit log, and serves that log read-only over HTTP. It is meant to fail secure. This
project models its state machines and proves what holds for every byte stream, every run and every pattern of
failures of the components it calls.

`dafny verify dfyconfig.toml` checks the whole project.

## How the model is laid out

| file | what it models |
|---|---|
| `ReaderRecord.dfy`, `RecordStream.dfy` | the ID-20LA record, its printer and parser, and the resynchronising stream |
| `Escalation.dfy` | the sliding-window tracker of suspicious events |
| `Controller.dfy`, `AccessController.dfy` | the controller's operations as functions of the state, and the object whose methods perform them |
| `ControllerSafety.dfy`, `ControllerRelay.dfy`, `ControllerAudit.dfy` | what every controller run keeps |
| `HostRun.dfy`, `HardwareHost.dfy`, `EventWaiter.dfy` | the host's start and exit cascade as a function of the faults, the methods that perform it, and the waiter that keeps ticking |
| `EndToEnd.dfy` | the stream, the rows and the controller together: from bytes to HIGH |
| `ApiServer.dfy` | the API server's lifecycle as interleaved atomic steps |
| `IsoTime.dfy`, `Pagination.dfy`, `CursorText.dfy` | timestamps as text, keyset pagination, the cursor's text |
| `Authorization.dfy`, `Install.dfy` | loading and looking up the authorization file, and installing a new one |
| `NotificationQueue.dfy` | the durable queue and its delivery worker |
| `Discovery.dfy`, `Supervisor.dfy` | choosing the reader, backoff, and the reconnecting supervisor |
| `Options.dfy`, `Outcomes.dfy` | the optional value, and the three outcomes of a lookup |

Some conventions hold throughout.

- **Failures are an oracle.** Each call into a component that may raise is one *attempt* in a trace, and an
  arbitrary function from positions in the trace to faults decides how it ends. Theorems quantify over that
  function. The controller tells an ordinary exception (`Exception`) from a fatal one (any other
  `BaseException`), because the handlers do.
- **A pin write that raises leaves the level as it was.** The library call either drives the pin or raises before
  it does. That READY means low rests on this for a HIGH that raises fatally, since nothing commands LOW then.
- **Time is a parameter.** Calls carry their time; a run that needs it says that times never decrease. Time does
  not move within one controller call.
- **Operations and objects.** What a method of the source does is a function of the state; a class with the
  source's fields has methods proved to do exactly that, and theorems about runs speak of the functions.

## Where the code differs from what one might expect

- *Chunk boundaries.* Feeding a stream in chunks and feeding it at once give the same results (framing markers
  merged) and the same buffer exactly when no chunk boundary that is followed by a byte leaves an unfinished frame
  longer than the buffer (`ChunkingIsInvisible`). An excessive-length result appears exactly when some boundary,
  the last one included, leaves one (`ChunkIndependence`). `OverflowDependsOnChunking` shows a stream for which
  the cut decides.
- *Exit status.* The host can end normally although its last LOW command failed: the controller swallows the LOW
  that fails in its cleanup of the relay, and the relay is then already closed for the host's own
  (`NormalExitAfterFailedLow`, a run of the host). After a normal exit the last LOW failed exactly when the audit
  log was given a failed cleanup after it (`NormalExitTellsLastLow`).
- *Critical notifications.* An escalation is offered to the queue only after its audit append succeeded. Enqueue
  attempts equal the critical cycles exactly when every such append succeeded (`EnqueuesMatchExactly`);
  `CriticalCycleWithoutNotification` is a run in which one did not.
- *Two callers of the API server.* That a normal return of `stop` leaves no live thread holds over every run
  exactly when there is at most one caller (`StopIsFinalForOneCaller`): a second caller's `stop` can return while
  the thread is about to start.
- *Schema patterns.* `$` in the schema's patterns also matches before one final newline. A key that ends in a
  newline is accepted and matches no card (`NewlineKeyMatchesNoCard`), and an ALLOW of `Y` with a newline is
  accepted and denies (`NewlineAfterYesDenies`).
- *Lower-case records.* `build_record` prints lower-case digits too; the parser takes such a record back for no
  credential (`PrintedRecordParses`).
- *Empty event ids.* `EventCursor.decode` refuses an empty id that `encode` happily wrote (`CursorRoundTrip`), so
  a page that ends in a row with an empty id ends the walk with an error (`EmptyIdEndsWalk`).
- *Repeated event ids.* `mark_delivered` removes every event with the delivered id (`RepeatedIdIsLost`).
- *Connecting while connected.* The supervisor then forgets its session or reports it degraded
  (`ConnectingTwiceLosesSession`); the runtime never asks for it.

## Model

| member | source | states |
|---|---|---|
| ReaderRecord.ComputeChecksum | src/bridgewire/reader.py:50-52 | the checksum loop computes the exclusive or of the bytes spelled by the digit pairs |
| ReaderRecord.BuildRecord | src/bridgewire/simulation.py:54-58 | prints STX, the digits in the case they came in, the two checksum digits, CR, LF, ETX |
| ReaderRecord.ParseReaderRecord | src/bridgewire/reader.py:33-64 | the parser reports the first defect in the order length, framing, terminator, encoding, identifier, checksum text, checksum |
| ReaderRecord.ParseInvertsPrint | src/bridgewire/reader.py:33-64 | a record is accepted as a credential if and only if it is the printed record of that credential |
| ReaderRecord.PrintedRecordParses | src/bridgewire/simulation.py:54-58 | the record printed for a text of hexadecimal digits parses back to it if and only if the text is ten upper-case digits |
| ReaderRecord.AcceptedRecordIsPrinted | src/bridgewire/reader.py:33-64 | every accepted record is a printed one |
| ReaderRecord.ChecksumSeesOneDigit | src/bridgewire/reader.py:50-54 | changing one digit changes the checksum of every even prefix that contains it, and no other |
| ReaderRecord.RecordsDifferTwice | src/bridgewire/reader.py:33-64 | two distinct accepted records differ in at least two bytes |
| ReaderRecord.SubstitutionIsRejected | src/bridgewire/reader.py:33-64 | replacing any one byte of an accepted record by any other byte is rejected |
| ReaderRecord.FramedRecordIsNotMisframed | src/bridgewire/reader.py:33-37 | a complete STX...ETX frame never yields an invalid-framing or excessive-length result |
| RecordStream.Find | src/bridgewire/reader.py:79-86 | the search used by the scanner returns the first position at or after the start, or -1 exactly when there is none |
| RecordStream.ReaderRecordStream.Feed | src/bridgewire/reader.py:72-98 | the loop that edits the buffer yields the results and the rest of a scan of buffer and chunk, and clears an oversized rest with one marker |
| RecordStream.BufferInvariant | src/bridgewire/reader.py:67-98 | between feeds the buffer is empty or starts with STX, holds no ETX and is within the maximum |
| RecordStream.EveryByteIsAccounted | src/bridgewire/reader.py:72-98 | the stream is, in order, one part per result and then the buffer; each credential's part is its own record, each marker's part garbage or an oversized frame |
| RecordStream.ScanAppend | src/bridgewire/reader.py:77-97 | scanning in two pieces gives the rest of one scan, and its results once adjacent framing markers are merged |
| RecordStream.ChunkIndependence | src/bridgewire/reader.py:72-98 | no excessive-length result appears if and only if every prefix of chunks leaves a rest within the maximum, and then results (markers merged) and buffer depend on the bytes alone |
| RecordStream.ChunkingIsInvisible | src/bridgewire/reader.py:72-98 | a chunked feed and one feed of the whole stream agree in results (markers merged) and buffer if and only if no boundary followed by a byte leaves more than the maximum of unfinished frame |
| RecordStream.ChunkingDoesNotMatter | src/bridgewire/reader.py:72-98 | if a chunked feed reports no excess, one feed of the whole stream gives the same results and buffer |
| RecordStream.OverflowDependsOnChunking | src/bridgewire/reader.py:87-91 | for every maximum some stream overflows when cut and does not when whole |
| RecordStream.ValidRecordsSurviveChunking | src/bridgewire/reader.py:67-98 | every chunking of printed records yields exactly their credentials, for a maximum of at least 15 |
| RecordStream.SmallerBufferLosesRecords | src/bridgewire/reader.py:87-91 | for every smaller maximum a single record cut before its ETX is lost |
| Escalation.EscalationTracker.RecordEvent | src/bridgewire/escalation.py:44-69 | the loop over the deque performs one step of the tracker and returns the level it announces |
| Escalation.PeakIsMaximum | src/bridgewire/escalation.py:44-69 | the peak of a cycle is the highest level any of its windows reached |
| Escalation.TrackerRefinesHistory | src/bridgewire/escalation.py:44-69 | after any nondecreasing history the pruned tracker's level is the peak since the last quiet gap, and its deque is the cycle's recent part |
| Escalation.AnnouncesNewPeak | src/bridgewire/escalation.py:62-69 | an event announces a level exactly when the cycle's peak rises, and then that peak |
| Escalation.AnnouncementsClimb | src/bridgewire/escalation.py:44-69 | the announcements of a cycle climb strictly up to its peak, so at most one warning and then at most one critical |
| Escalation.OneCriticalPerCycle | src/bridgewire/escalation.py:44-69 | critical announcements are as many as cycles that reach critical |
| AccessControl.AccessController.SetUp | src/bridgewire/gpio.py:37-89 | sets the channel up once per Raspberry Pi relay, every time on the simulated one |
| AccessControl.AccessController.CommandRelay | src/bridgewire/gpio.py:45-95 | refuses without a channel or after cleanup, else attempts the pin and records the level on success |
| AccessControl.AccessController.CleanUp | src/bridgewire/gpio.py:58-106 | attempts LOW, then the GPIO cleanup whatever LOW did; idempotent after success |
| AccessControl.AccessController.TrySafeState | src/bridgewire/controller.py:234-241 | commands LOW, audits and swallows an ordinary failure, reports whether it worked |
| AccessControl.AccessController.NoteSuspicious | src/bridgewire/controller.py:243-257 | advances the tracker, audits its announcement, offers a critical one to the queue and audits the queue's refusal |
| AccessControl.AccessController.Start | src/bridgewire/controller.py:103-124 | sets up, commands LOW and becomes ready, or audits, faults and raises |
| AccessControl.AccessController.Process | src/bridgewire/controller.py:126-183 | the new state and trace, the outcome of the lookup for a parsed record and none for a malformed one, and a release status that is asserted exactly when ready became released |
| AccessControl.AccessController.ReleaseDoor | src/bridgewire/controller.py:168-183 | HIGH, deadline and audit, or the audited fallback to LOW and faulted |
| AccessControl.AccessController.Tick | src/bridgewire/controller.py:185-204 | at or past the deadline commands LOW and becomes ready, or faults |
| AccessControl.AccessController.RecoverableFailure | src/bridgewire/controller.py:206-210 | attempts LOW, clears the deadline, faults and audits |
| AccessControl.AccessController.Shutdown | src/bridgewire/controller.py:212-232 | attempts LOW and cleanup, and stops only if both worked |
| ControllerSafety.StepSafe | src/bridgewire/controller.py:103-241 | every call keeps the relay invariant: state, deadline, level and trace agree, and nothing audited is owed |
| ControllerSafety.RunSafe | src/bridgewire/controller.py:103-241 | the relay invariant holds after every sequence of calls with arbitrary faults |
| ControllerRelay.StateTellsRelay | src/bridgewire/controller.py:103-241 | READY means low and no deadline; RELEASED means high with its deadline; high outside RELEASED means a LOW failed since that HIGH |
| ControllerRelay.HighsAreSeparated | src/bridgewire/controller.py:168-204 | HIGH is not even attempted again without a successful LOW since the last successful HIGH |
| ControllerRelay.HighsAreAudited | src/bridgewire/controller.py:168-204 | each HIGH is followed at once by its RELAY_ASSERTED append, each such append follows a HIGH, each RELAY_RESTORED append a LOW |
| ControllerRelay.RelayAuditsAlternate | src/bridgewire/controller.py:168-204 | RELAY_ASSERTED and RELAY_RESTORED appends alternate |
| ControllerRelay.FirstRelayAuditIsAsserted | src/bridgewire/controller.py:168-204 | a RELAY_RESTORED append has a RELAY_ASSERTED append before it |
| ControllerRelay.HighsAreGranted | src/bridgewire/controller.py:126-183 | over every run HIGH is attempted once for each authorized credential that a ready controller audited, and never otherwise |
| ControllerRelay.StepCommandsGrantedHigh | src/bridgewire/controller.py:126-183 | one call attempts HIGH at most once, exactly when it grants a release |
| ControllerRelay.LeavingServiceIsFinal | src/bridgewire/controller.py:103-241 | after leaving the initializing, ready and released states the controller never returns and never attempts HIGH |
| ControllerRelay.CredentialKeepsRelease | src/bridgewire/controller.py:126-183 | while released, no record changes state, deadline or relay |
| ControllerRelay.CredentialsCannotExtendRelease | src/bridgewire/controller.py:126-183 | no sequence of further credentials changes the deadline |
| ControllerRelay.ReleaseIsTicked | src/bridgewire/controller.py:185-204 | in a run without a failed LOW, a release outlives its last tick by the deadline only |
| ControllerRelay.ReleaseIsBounded | src/bridgewire/controller.py:154-204 | if no LOW failed and the last tick is at most d ago, a relay high since t means now is below t + release_seconds + d |
| ControllerAudit.ListsDecide | src/bridgewire/audit.py:91-102 | any correlation is accepted exactly when its keys and its reason, if any, are on the allow-lists: the search for forbidden words never decides |
| ControllerAudit.AcceptedDetailIsAcceptable | src/bridgewire/controller.py:259-279 | a correlation of one of the controller's shapes is accepted exactly when its reason, if any, is an allowed one |
| ControllerAudit.EventsAreAcceptable | src/bridgewire/controller.py:259-279 | no event the controller builds in any run is rejected by the allow-list |
| ControllerAudit.NotificationsMatchCriticalCycles | src/bridgewire/controller.py:243-257 | enqueue attempts, and critical events whose audit failed first, together equal the cycles that reach critical, whether or not the queue accepts |
| ControllerAudit.EnqueuesMatchExactly | src/bridgewire/controller.py:243-257 | enqueue attempts equal the critical cycles if and only if every audit append of a critical escalation succeeded |
| ControllerAudit.CriticalCycleWithoutNotification | src/bridgewire/controller.py:243-257 | a run whose one critical cycle is offered to the queue not at all |
| ControllerAudit.CredentialsDoNotLeak | src/bridgewire/controller.py:126-183 | runs whose credentials agree in classification and whose malformed reasons agree once sanitised have identical traces and states |
| EndToEnd.EveryHighHasItsRecord | src/bridgewire/application/runtime.py:89-105 | over every byte stream, chunking and run that submits what the stream reported, HIGH is attempted at most once for each disjoint, in-order part of the stream that is the printed record of a credential the rows authorize |
| HostRun.HostSecures | src/bridgewire/hardware_service.py:141-286 | for every pattern of exceptions, once set up the last pin attempt is LOW, a GPIO cleanup attempt follows it, both before API stop and audit close |
| HostRun.NormalExitMeansNoAlarm | src/bridgewire/hardware_service.py:248-286 | when nothing was retained every setup, audit append and call of another component succeeded |
| HostRun.NormalExitTellsLastLow | src/bridgewire/hardware_service.py:256-286 | after a normal exit with the relay set up, the last pin attempt is a LOW, and it failed if and only if a failed cleanup was audited after it |
| HostRun.NormalExitAfterFailedLow | src/bridgewire/hardware_service.py:141-286 | a run of the host that retains nothing although its last LOW failed |
| HostRun.EveryShutdownIsTried | src/bridgewire/application/runtime.py:158-176 | whatever raises, the runtime's shutdown has the controller shut down, starting with LOW, and then attempts reader close, health report and snapshot in that order |
| HostRun.EveryReactionIsTried | src/bridgewire/hardware_service.py:248-255 | whatever raises, the handler attempts the fault report and then has the controller command LOW |
| HostRun.ShutdownWinds | src/bridgewire/controller.py:212-232 | the controller's shutdown closes the relay only with LOW last and cleanup after it, and if it raises nothing the audit tells whether that LOW failed |
| HostRun.CleanUpSecures | src/bridgewire/gpio.py:97-106 | whatever state the controller left, the relay's own cleanup leaves LOW as the last pin attempt and cleanup after it |
| HardwareHost.RunOnce | src/bridgewire/application/runtime.py:89-105 | the acts up to the first exception, then the snapshot in any case |
| HardwareHost.StartApi | src/bridgewire/hardware_service.py:188-222 | an ordinary failure of the optional API is retained and does not stop the door |
| HardwareHost.Serve | src/bridgewire/hardware_service.py:141-247 | construction, signals, start, API and loop, up to the first exception |
| HardwareHost.HandleFailure | src/bridgewire/hardware_service.py:248-255 | the state, trace and retained exceptions of the handler, of which EveryReactionIsTried says that both reactions are attempted |
| HardwareHost.ShutDownRuntime | src/bridgewire/application/runtime.py:158-176 | the state, trace and fault of the shutdown, of which EveryShutdownIsTried says that every part is attempted |
| HardwareHost.TakeDown | src/bridgewire/hardware_service.py:271-281 | API stop, its report and observation, then audit close, each retaining what it raises |
| HardwareHost.RunHardwareService | src/bridgewire/hardware_service.py:141-286 | the trace and retained exceptions are those of the host function for every pattern of exceptions; it returns 0 exactly when nothing was retained, with the three consequences above |
| EventWaiter.Wait | src/bridgewire/application/runtime.py:33-40 | ticks are at most the interval plus one pass's overhead apart to the end of the wait, which ends no later than the deadline plus that overhead, and returns true exactly when no stop cut it short; without a positive interval only if its passes take time |
| ApiServer.RunKeepsInvariant | src/bridgewire/adapters/http/uvicorn_server.py:115-235 | for any number of callers and any interleaving: one start at most, every failed or timed-out state has a failure, an ended thread is not left starting or running, STOP_TIMED_OUT has the shutdown timeout last, so the assertion in stop never fails |
| ApiServer.RunGrows | src/bridgewire/adapters/http/uvicorn_server.py:115-235 | NEW is never re-entered and failures only grow |
| ApiServer.RunStaysControlled | src/bridgewire/adapters/http/uvicorn_server.py:115-235 | with one caller, its position determines which states and thread conditions are possible |
| ApiServer.StopLeavesNoThread | src/bridgewire/adapters/http/uvicorn_server.py:158-198 | when stop returns to the one caller the thread is not alive and the state is STOPPED, START_FAILED or FAILED |
| ApiServer.StopCanBeRepeated | src/bridgewire/adapters/http/uvicorn_server.py:158-198 | once the thread has died, another stop returns in such a state |
| ApiServer.StartNeverFindsDeadThread | src/bridgewire/adapters/http/uvicorn_server.py:127-156 | with one caller the branch for a thread that exited before startup is unreachable |
| ApiServer.SecondCallerCanLeaveThread | src/bridgewire/adapters/http/uvicorn_server.py:115-126 | with any number of callers from two on, stop can return STOPPED and leave a live thread |
| ApiServer.StopIsFinalForOneCaller | src/bridgewire/adapters/http/uvicorn_server.py:115-198 | that a normal return of stop leaves no live thread holds over every run if and only if there is at most one caller |
| IsoTime.IsoOrder | src/bridgewire/adapters/persistence/sqlite_audit_reader.py:43-64 | the order of UTC ISO texts, with or without a fraction, is the order of time |
| IsoTime.IsoRoundTrip | src/bridgewire/audit.py:104-114 | the ISO text of an instant reads back as that instant |
| Pagination.Query | src/bridgewire/adapters/persistence/sqlite_audit_reader.py:41-66 | the query returns the selected rows past the cursor, in descending order, all of them or the first `limit` |
| Pagination.TopExists | src/bridgewire/adapters/persistence/sqlite_audit_reader.py:57-66 | every table has such an answer |
| Pagination.TopUnique | src/bridgewire/adapters/persistence/sqlite_audit_reader.py:57-66 | and only one |
| Pagination.ListEventsGivesPage | src/bridgewire/application/query_service.py:130-163 | a valid request gets a page that holds the wanted rows down to its cursor, or all of them and no cursor |
| Pagination.WalkIsComplete | src/bridgewire/application/query_service.py:130-163 | following the cursor to its end, with appends between fetches and `before` dropped on continuation, returns every row wanted at the first fetch, only wanted rows, in strictly descending order |
| Pagination.DescendingIsDistinct | src/bridgewire/adapters/persistence/sqlite_audit_reader.py:57-66 | a descending walk returns no row twice |
| Pagination.QuietWalkEnds | src/bridgewire/application/query_service.py:130-163 | on a table that does not grow the walk ends within the pages its rows fill |
| Pagination.ComparisonsMeanTime | src/bridgewire/adapters/persistence/sqlite_audit_reader.py:43-64 | the text comparisons of filters and cursor are comparisons of time, ties broken by id |
| CursorText.PaddedRoundTrip | src/bridgewire/application/query_service.py:32-52 | base64url with padding decodes to what was encoded |
| CursorText.PaddingIsRestored | src/bridgewire/application/query_service.py:37-43 | the padding computed from the stripped text's length is the padding that was stripped |
| CursorText.CursorPayloadRoundTrip | src/bridgewire/application/query_service.py:32-52 | every payload survives unpadded base64url |
| CursorText.CursorRoundTrip | src/bridgewire/application/query_service.py:32-52 | a cursor handed out as text is read back unchanged exactly when its event id is not empty, and refused otherwise |
| CursorText.TextWalkIsWalk | src/bridgewire/application/query_service.py:130-163 | with no empty ids, walking with the cursor as text is walking with the cursor itself |
| CursorText.TextWalkIsComplete | src/bridgewire/application/query_service.py:130-163 | so a client that follows the text to its end has every row wanted at the first fetch, only wanted rows, in strictly descending order |
| CursorText.EmptyIdEndsWalk | src/bridgewire/application/query_service.py:40-52 | the text of a cursor with an empty id is refused as malformed by the next request |
| Authorization.SpellingIsNormalForm | src/bridgewire/authorization.py:47-48 | two texts have the same normal form if and only if they agree letter by letter but for case and dashes |
| Authorization.ReaderCredentialIsNormal | src/bridgewire/authorization.py:47-48 | a credential the reader emits is its own normal form |
| Authorization.LoadRows | src/bridgewire/authorization.py:74-86 | the loop fails if and only if two rows spell the same key, else its index holds each row's record under its normal form and nothing else |
| Authorization.Load | src/bridgewire/authorization.py:55-86 | which error is reported for which file, and what a loaded index represents |
| Authorization.IndexAgreesWithScan | src/bridgewire/authorization.py:119-126 | the index classifies every text exactly as a linear scan of the rows does |
| Authorization.RowOrderIsIrrelevant | src/bridgewire/authorization.py:64-86 | reordering rows changes neither whether the file loads nor any classification |
| Authorization.SchemaKeyIsCredential | schemas/authorization-file/schema.json:13-16 | an accepted key normalises to a reader credential if and only if it does not end in a newline |
| Authorization.NewlineKeyMatchesNoCard | schemas/authorization-file/schema.json:13-16 | a key that ends in a newline is accepted and matches no reader credential |
| Authorization.AllowAuthorizes | schemas/authorization-file/schema.json:21-24 | of the accepted answers, Y or y authorizes if and only if no newline follows it |
| Authorization.NewlineAfterYesDenies | schemas/authorization-file/schema.json:21-24 | a row whose answer is Y and a newline is accepted, and its card is denied |
| Authorization.AuthorizationStore.Reload | src/bridgewire/authorization.py:102-108 | succeeds exactly when the file loads and its metadata is read; otherwise rows, index and version stay as they were |
| Authorization.AuthorizationStore.Classify | src/bridgewire/authorization.py:119-126 | answers as a scan of the last loaded file's rows |
| Install.Installer.Install | src/bridgewire/authorization.py:129-197 | at every moment the destination is the old content, or after success the copied bytes, accepted by the parser after copying; it returns exactly when no step failed the installation; success ends sync, close, validate, rename; a raise was reported with the stage that failed; the temporary survives only if its removal failed |
| Install.Installer.Prepare | src/bridgewire/authorization.py:139-149 | siblings remain only if their removal failed, and a raise blames candidate validation |
| Install.Installer.CopyChunks | src/bridgewire/authorization.py:166-167 | the loop writes the chunks read up to the first empty one, in order |
| Install.Installer.Publish | src/bridgewire/authorization.py:176-184 | the destination changes only if the stored bytes were accepted and the rename succeeded |
| Install.Installer.CleanUp | src/bridgewire/authorization.py:189-197 | a remaining temporary means that its removal was tried and failed |
| Install.UntouchedKeepsDestination | src/bridgewire/authorization.py:137-184 | until a rename succeeds no step changes the destination |
| NotificationQueue.DurableNotificationQueue.Enqueue | src/bridgewire/audit.py:225-231 | appends one line, so the file holds the old events and then the new one |
| NotificationQueue.DurableNotificationQueue.Pending | src/bridgewire/audit.py:233-241 | reading the lines back gives exactly the events in the file |
| NotificationQueue.DurableNotificationQueue.MarkDelivered | src/bridgewire/audit.py:246-270 | rewrites the file without that id, or leaves it as it was |
| NotificationQueue.SplitRendered | src/bridgewire/audit.py:233-241 | the written text splits into one line for each event |
| NotificationQueue.DeliverOne | src/bridgewire/audit.py:208-215 | left alone it performs look, deliver and mark; with distinct ids a delivery removes the head |
| NotificationQueue.RunKeepsOrder | src/bridgewire/audit.py:201-270 | the order invariant holds over every interleaving of enqueues with one worker, its failures and stops |
| NotificationQueue.DeliveryIsInOrder | src/bridgewire/audit.py:201-270 | with distinct ids the queue is a suffix of the enqueue order, what left it was delivered, deliveries without repeats are a prefix of that order, ahead of the queue by at most its head |
| NotificationQueue.MarkRemovesHeadAlone | src/bridgewire/audit.py:246-250 | marking the head removes it alone if and only if no later event shares its id |
| NotificationQueue.RepeatedIdIsLost | src/bridgewire/audit.py:246-250 | an event that repeats a delivered id leaves the queue without being delivered |
| Discovery.FoundMeansOnlyMatch | src/bridgewire/reader.py:139-168 | a device is found exactly when it is the only match, none is found exactly when none matches, and matches and unrelated devices add up |
| Discovery.DelayGrows | src/bridgewire/reader.py:213-216 | delays grow with the attempt and with the random unit |
| Discovery.DelayIsBounded | src/bridgewire/reader.py:213-216 | every delay lies between minimum(1 - jitter) and maximum(1 + jitter) |
| Supervisor.ReaderSupervisor.ConnectUntilReady | src/bridgewire/reader.py:285-346 | the retry loop makes the attempts up to the first success or interrupted wait, and returns whether one succeeded |
| Supervisor.ReaderSupervisor.TryConnect | src/bridgewire/reader.py:288-344 | one attempt: its events, session, health and counters |
| Supervisor.ReaderSupervisor.ReadOnce | src/bridgewire/reader.py:348-365 | a lost or failed read is reported and drops the session |
| Supervisor.ReaderSupervisor.OsDisconnected | src/bridgewire/reader.py:376-379 | reports and drops a session, if there is one |
| Supervisor.ReaderSupervisor.Shut | src/bridgewire/reader.py:381-389 | drops the session and stops |
| Supervisor.RunIsSound | src/bridgewire/reader.py:285-389 | over every run that connects only while disconnected: opened minus closed is 1 exactly when connected, exactly when ready; the first success is CONNECTED and later ones RECOVERED; the failure counter and flag agree with the history; each event fits what came before it |
| Supervisor.AnnouncedOncePerOutage | src/bridgewire/reader.py:336-341 | two announcements of repeated failure have a success between them |
| Supervisor.LongOutageIsAnnounced | src/bridgewire/reader.py:336-341 | the failure that reaches the threshold, counted across calls, is followed at once by the announcement |
| Supervisor.DelaysGrowInOutage | src/bridgewire/reader.py:342-343 | for a fixed random unit scheduled delays never shrink within an outage |
| Supervisor.DelaysAreBounded | src/bridgewire/reader.py:342-343 | every scheduled delay of a run keeps to the policy's bounds |
| Supervisor.ConnectingTwiceLosesSession | src/bridgewire/reader.py:285-346 | asked to connect while connected, the account of the session survives if and only if no attempt is allowed; a success leaves two sessions open |

## Left out

- FastAPI routing and response models (`adapters/http/api.py`, `models.py`): shapes of responses only.
- `posix_serial.py`: termios, select and udev; a session is something that returns data or fails.
- SQLite, csv, jsonschema, tomllib, JSON and tempfile internals: a table, a list of rows, a codec that round-trips, a file system step.
- `configuration.py`, `cli.py`, `status_service.py`, `access_service.py`, `file_reporter.py`: checks and copying that would only add easy members.
- Logging, health text, signal delivery, process kill and electrical behaviour.
- fsync durability, torn appends and a queue file shared by processes; a failed append or write leaves the file as it was.
- Floating point: escalation times, release times, delays and bounds are reals, waiter times are integers. In the source `2 ** (attempt - 1)` stops converting to a float near attempt 1025.
- The controller's `last_credential_processed_at`, `snapshot` and the monotonic age of the last record: read-only bookkeeping.
- `read_records_once`: the malformed-record event it adds to a read; the stream itself is modelled.
- The supervisor's collaborators other than sessions: enumerating devices and emitting events do not raise, and closing a session does not fail.
- The two relay adapters are part of the controller's object: their fields are one `Relay` value.
- ReaderRecord.BuildRecord: is stated for ASCII hexadecimal digits of either case; `int` also takes signs, spaces, underscores and digits of other scripts, and raises on the rest, none of which is modelled.
- AccessControl.AccessController.SetUp: the mode, warning and pin calls are one attempt, and the fixed BCM channel 23 is not checked, because no caller of the model passes another.
- AccessControl.AccessController.CleanUp: a simulated cleanup without a channel counts as an attempt, because an injected failure can raise there; the source then records no action.
- AccessControl.AccessController.Process: leaves out when the last credential was processed, which nothing in the controller reads.
- Pagination.WalkIsComplete: takes the cursor as a value; TextWalkIsComplete is the walk over its text.
- EventWaiter.Wait: an interval of zero or less together with passes that take no time, for which the source's loop would not end.
- HardwareHost.RunOnce: takes an arbitrary list of ticks, submissions and outside calls in place of the reader loop, so the order of one iteration is not part of the statement.
- HardwareHost.RunHardwareService: does not model that the same exception object is retained once only, because identity of exceptions does not change whether any was retained; an API snapshot does not raise.
- Authorization.SpellingIsNormalForm: upper and lower case are those of ASCII letters, which is all the schema admits; Python also maps other alphabets.
- Authorization.Load: the rule for names is a parameter, because names decide nothing.
- CursorText.CursorRoundTrip: says nothing about malformed text, for which Python's decoder also skips characters outside the alphabet.
- IsoTime.IsoRoundTrip: reads back only the form that `isoformat` prints for UTC; `fromisoformat` accepts more.
- Install.Installer.Install: one installer at a time, and nothing but the installer touches the destination and its siblings.
