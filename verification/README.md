# auto-dev-bridge, modelled in Dafny

AUTO-DEV Bridge is a small Express server that sits between a web page and a
Claude session running in a terminal. The page posts *requests*. The server keeps
them, together with *responses* and a *history*, in date-stamped JSON documents.
It pushes every change to connected browsers over Server-Sent Events (SSE). It
also writes each request into the documents and command files that two helper
Python scripts (`claude_process.py`, `claude_monitor.py`) read and answer.

This project models the parts of that system that decide what is stored, what is
answered and what is pushed:

- **SSE.** The server-side connection registry, with its bounded per-client
  backlog, broadcast, heartbeat and shutdown (`SseManager`). The frame format and
  how a browser reads it back (`SseFormat`). The browser-side reconnecting client,
  with its listener registry and backoff (`SseClient`).
- **Watchers.** The debounced directory watcher and its SSE mapping
  (`FileWatcher`). The polling watcher over the Claude request file
  (`ClaudeFileWatcher`). The pending-request tracker (`ClaudeResponder`).
- **Stores and routes.** The JSON document store (`DataManager`). The shapes of
  stored entries as both languages read them (`Records`). Error handling, request
  validation and the two body schemas (`ErrorHandler`, `Validation`, `Schemas`).
  The requests and responses routes (`StoreFailures`, `Paging`, `Handlers`,
  `RequestRoutes`, `ResponseRoutes`).
- **Responders and the command bridge.** The keyword auto-responder
  (`AutoResponder`). The command-file writer and the command bridge route
  (`CommandFileWriter`, `ClaudeBridge`).
- **Python helpers.** `ClaudeProcess` and `ClaudeMonitor`.

Effects become data. A file read is an outcome datatype: absent, unreadable or
parsed. A write is the value the operation would write. Emitted events,
broadcasts and SSE bytes are sequences appended to. Timers are maps from handles
to pending callbacks, fired by explicit inputs. Clock readings, generated ids,
`JSON.stringify`, `JSON.parse` and list sorting are parameters.

Supporting modules:

- `Wrappers` has `Option` and `Result`.
- `Clock` has a time stamp with an ISO text and a millisecond count, two
  values that nothing relates.
- `Text` has substring, prefix, lower-casing, trimming and decimal rendering.
- `Json` has JSON values with ordered object fields and JavaScript truthiness.
- `Http` has a response as a status with a JSON body, plus the SSE `Notice`.

## Model

| member | source | states |
|---|---|---|
| SseManager.Enqueue | server/src/services/SSEManager.js:119-131 | a client's backlog never holds more than 50 messages and is never empty after a push |
| SseManager.EnqueueKeepsNewest | server/src/services/SSEManager.js:119-131 | after any run of pushes the backlog is exactly the newest 50 of everything queued, oldest first, so its length is min(old + pushed, 50) |
| SseManager.QueueMessage | server/src/services/SSEManager.js:119-131 | queueing creates the client's backlog if absent, pushes onto it, and touches no other client's backlog, the registry or the wire |
| SseManager.RemoveClient | server/src/services/SSEManager.js:58-66 | afterwards the id is unregistered; `clientDisconnected` is emitted only if it was registered; an unknown id changes nothing; backlogs are kept |
| SseManager.RemoveClientIdempotent | server/src/services/SSEManager.js:58-66 | removing the same client twice is the same as removing it once |
| SseManager.RemoveClientValid | server/src/services/SSEManager.js:58-66 | removal keeps the registry invariant: ids unique, every entry connected, no backlog for a registered id |
| SseManager.SendToClient | server/src/services/SSEManager.js:68-85 | the send reports success exactly when the client is registered, connected and its write does not throw |
| SseManager.SendAbsent | server/src/services/SSEManager.js:68-74 | a send to an unregistered id writes nothing and parks the message in that id's backlog only |
| SseManager.SendDropped | server/src/services/SSEManager.js:80-84 | a send whose write throws unregisters the client, emits `clientDisconnected`, and queues nothing |
| SseManager.SendToClientValid | server/src/services/SSEManager.js:68-85 | a send keeps the registry invariant |
| SseManager.ReplayDelivers | server/src/services/SSEManager.js:133-143 | replaying a backlog to a live client writes one frame per queued message, in queue order |
| SseManager.ReplayFailing | server/src/services/SSEManager.js:133-143 | replaying to a client whose transport throws drops the client at the first message and writes nothing |
| SseManager.AddClientEffect | server/src/services/SSEManager.js:14-56 | connecting registers the client, writes the `connected` event first and then its backlog in order, deletes the backlog, and emits `clientConnected`; if the write throws the client ends unregistered |
| SseManager.ConnectedNamesClient | server/src/services/SSEManager.js:36-40 | the `connected` event carries the client's own id and the greeting text |
| SseManager.QueueThenConnect | server/src/services/SSEManager.js:14-56 | messages sent to an id before it connects reach it on connection, after the `connected` event, and its backlog is gone |
| SseManager.SendAllAbsent | server/src/services/SSEManager.js:68-74 | while an id is not connected, every message sent to it lands in its backlog in order, bounded to the newest 50 |
| SseManager.DeliveredMembers | server/src/services/SSEManager.js:87-102 | a broadcast reaches exactly the registered ids that are not excluded and whose write does not throw |
| SseManager.DroppedMembers | server/src/services/SSEManager.js:87-102 | a broadcast drops exactly the registered, non-excluded ids whose write throws |
| SseManager.BroadcastEffect | server/src/services/SSEManager.js:87-102 | broadcast writes one frame, built from the event type, the data and the operation's time stamp, once to every delivered client in registry order, drops the throwing ones, never queues, keeps the invariant, and returns the number delivered, at most the number registered |
| SseManager.HeartbeatEffect | server/src/services/SSEManager.js:149-157 | each tick broadcasts `heartbeat` with the registry size at that moment to every live client and leaves backlogs alone |
| SseManager.ShutdownEffect | server/src/services/SSEManager.js:183-207 | shutdown stops the heartbeat, broadcasts `shutdown`, ends every client that survived the broadcast, and clears the registry and all backlogs |
| SseManager.HeartbeatAfterShutdown | server/src/services/SSEManager.js:183-190 | a heartbeat tick after shutdown changes nothing |
| SseFormat.FormatSSEMessage | server/src/services/SSEManager.js:104-117 | the frame's envelope is `{type, data, timestamp}` for the given event type and data, stamped with the ISO text of the given time stamp; the frame's id is its millisecond count |
| SseFormat.Render | server/src/services/SSEManager.js:112-114 | the written text starts with `event: ` and ends with the blank line that closes an SSE message |
| SseFormat.RenderRoundTrip | server/src/services/SSEManager.js:104-117 | a browser reading the written text back gets exactly one event, with the frame's type, serialised envelope and id |
| SseFormat.StreamRoundTrip | server/src/services/SSEManager.js:104-117 | any sequence of frames written to one connection is read back as the same events in the same order |
| SseClient.Configure | client/src/utils/sse.js:2-16 | the reconnect interval defaults to 3000 ms and the attempt cap to 10; given options override each |
| SseClient.Backoff | client/src/utils/sse.js:90-93 | the reconnect delay is the interval times 2^attempts, capped at 30000 ms |
| SseClient.DefaultBackoff | client/src/utils/sse.js:90-93 | with the default interval the delays are 3000, 6000, 12000 and 24000 ms, then 30000 ms from the fifth attempt on |
| SseClient.BackoffMonotone | client/src/utils/sse.js:90-93 | the delay never shrinks as attempts grow |
| SseClient.EmitCalls | client/src/utils/sse.js:130-141 | emit calls every listener of that type once, in registration order, and changes nothing else |
| SseClient.OnStep | client/src/utils/sse.js:104-114 | `on` appends the callback to its type's list and leaves other types alone |
| SseClient.OnWhileConnected | client/src/utils/sse.js:110-113 | a callback added for a server event type while a source is open is registered on that source |
| SseClient.OffStep | client/src/utils/sse.js:116-128 | `off` removes the first occurrence of the callback from its type's list; an unknown type changes nothing |
| SseClient.RemoveFirst | client/src/utils/sse.js:119-122 | removing one occurrence leaves the list's multiset minus that callback, and an absent callback leaves the list as it was |
| SseClient.OnOffRoundTrip | client/src/utils/sse.js:104-128 | `off` after `on` restores the same callbacks with the same multiplicities, and the exact list when the callback was new |
| SseClient.DisconnectStep | client/src/utils/sse.js:68-83 | disconnect closes the source, cancels the pending reconnect, clears `shouldReconnect`, and calls the `disconnect` listeners |
| SseClient.DisconnectQuiesces | client/src/utils/sse.js:68-83 | after disconnect no timer is pending, a stale timer firing does nothing, and the status reads `disconnected` |
| SseClient.ScheduleReconnect | client/src/utils/sse.js:85-102 | scheduling cancels any earlier timer and arms one with the backoff delay for the current attempt count; nothing else changes |
| SseClient.OnOpen | client/src/utils/sse.js:26-31 | an open event marks the client connected and resets the attempt count without touching timers |
| SseClient.OpenResets | client/src/utils/sse.js:26-31 | after an open event the status reads `connected` and the `connect` listeners have been called in order |
| SseClient.MessageReachesListeners | client/src/utils/sse.js:33-41 | an unnamed event whose data parses reaches every `message` listener, in order, with the parsed value; data that does not parse reaches the `error` listeners instead; nothing but the call log changes |
| SseClient.OnError | client/src/utils/sse.js:43-51 | an error marks the client disconnected and keeps the attempt count and the reconnect flag |
| SseClient.FailureSchedules | client/src/utils/sse.js:43-51 | an error below the attempt cap, with reconnection on, arms exactly one timer with the backoff delay |
| SseClient.FailureAtCapIsFinal | client/src/utils/sse.js:48-50 | an error at the cap, or with reconnection off, arms nothing |
| SseClient.FireReconnects | client/src/utils/sse.js:97-101 | the timer firing counts one more attempt and opens a new source |
| SseClient.AtMostOneTimer | client/src/utils/sse.js:85-88 | a client never has more than one reconnect timer pending |
| SseClient.RunValid | client/src/utils/sse.js:18-141 | every sequence of calls, errors, opens and timer firings keeps that timer invariant |
| SseClient.AsWrittenSourceIsDeaf | client/src/utils/sse.js:53-56 | as written, the source `connect` creates carries only the listener arrays, so no named event calls any callback |
| SseClient.AsWrittenMissesNamedEvent | client/src/utils/sse.js:53-56 | as written, a `request_created` callback registered before `connect` is not called when that event arrives |
| SseClient.CorrectedDeliversNamedEvent | client/src/utils/sse.js:53-56 | with each callback registered one by one, every callback registered before `connect` is called for its event |
| SseClient.AsWrittenCycleStops | client/src/utils/sse.js:18-21 | as written, the reconnect the timer performs clears `shouldReconnect`, so the next error arms nothing however far below the cap |
| SseClient.AsWrittenGivesUpAfterOneRetry | client/src/utils/sse.js:97-101 | as written, with default options, the client stops after one retry, having used 1 of 10 attempts |
| SseClient.CorrectedCycleContinues | client/src/utils/sse.js:85-102 | when reconnecting keeps `shouldReconnect`, each failure cycle uses one attempt and leaves the client retrying |
| SseClient.ConstructorFailureRetries | client/src/utils/sse.js:58-65 | when `new EventSource` throws and reconnection is on, `connect` calls the `error` listeners and arms a reconnect with the backoff delay, whatever the attempt count |
| SseClient.ConstructorFailureNeverStops | client/src/utils/sse.js:58-65 | a source that never constructs is retried without end: after any number of failed reconnects, the cap passed too, a reconnect is still pending |
| SseClient.CorrectedRetriesUntilCap | client/src/utils/sse.js:43-101 | when reconnecting keeps `shouldReconnect`, the client retries until the cap, with the doubling delays in order |
| FileWatcher.NewWatcher | server/src/services/FileWatcher.js:6-18 | a new watcher is idle, has no timers, keeps the given paths, and debounces for 100 ms unless told otherwise |
| FileWatcher.KeyInjective | server/src/services/FileWatcher.js:64 | the debounce key `type:path` determines both the event type and the path |
| FileWatcher.Start | server/src/services/FileWatcher.js:20-44 | starting an idle watcher only marks it watching; starting a running one first stops it, so its timers are cancelled and `stopped` is emitted |
| FileWatcher.Stop | server/src/services/FileWatcher.js:46-58 | stopping leaves the watcher idle with no debounce timers and emits `stopped` |
| FileWatcher.StopQuiesces | server/src/services/FileWatcher.js:52-54 | after stop a stale timer firing does nothing |
| FileWatcher.HandleFileEvent | server/src/services/FileWatcher.js:60-94 | a file event arms a fresh timer under its debounce key with the debounce delay and changes nothing but timers |
| FileWatcher.HandleSupersedes | server/src/services/FileWatcher.js:66-68 | a new event for the same key and type replaces that key's pending timer; other keys' timers stay |
| FileWatcher.OneTimerPerKey | server/src/services/FileWatcher.js:60-94 | no two pending timers share a debounce key |
| FileWatcher.RunValid | server/src/services/FileWatcher.js:20-142 | every sequence of starts, stops, file events and timer firings keeps one timer per key |
| FileWatcher.BurstCoalesces | server/src/services/FileWatcher.js:60-94 | a burst of events for one file and type leaves one pending timer, carrying the last event, and emits nothing yet |
| FileWatcher.TypesIndependent | server/src/services/FileWatcher.js:64 | an event of another type on the same path does not cancel that type's timer |
| FileWatcher.FireReportsOnce | server/src/services/FileWatcher.js:70-91 | a timer firing emits the specific event, then `file`, then the mapped SSE event if any, and forgets its key; firing it again does nothing |
| FileWatcher.Emissions | server/src/services/FileWatcher.js:82-89 | a fired event always produces the type-specific emission first and the `file` emission second |
| FileWatcher.SseTypeCases | server/src/services/FileWatcher.js:96-128 | a path containing `requests` maps to `request_updated`, or `request_deleted` on unlink; otherwise `responses` maps to the response pair; any other path maps to nothing |
| FileWatcher.RequestsWins | server/src/services/FileWatcher.js:100-110 | a path containing `requests` always maps to a request event, even when it also contains `responses` |
| FileWatcher.AddPath | server/src/services/FileWatcher.js:130-135 | adding appends the path and changes nothing else |
| FileWatcher.RemoveMembers | server/src/services/FileWatcher.js:137-142 | removing keeps exactly the paths that differ from the removed one |
| FileWatcher.RemoveIdempotent | server/src/services/FileWatcher.js:137-142 | removing a path twice is the same as removing it once |
| FileWatcher.AddThenRemove | server/src/services/FileWatcher.js:130-142 | adding a new path and removing it again restores the watcher |
| ClaudeFileWatcher.NewPoller | server/src/services/ClaudeFileWatcher.js:6-14 | a new poller is not watching, knows no ids, has no remembered content and has reported nothing |
| ClaudeFileWatcher.LoadIds | server/src/services/ClaudeFileWatcher.js:46-51 | loading only adds ids to the known set |
| ClaudeFileWatcher.LoadCoversAll | server/src/services/ClaudeFileWatcher.js:46-51 | after a complete load, every entry with a truthy `request.id` has that id known, whatever its status |
| ClaudeFileWatcher.LoadInitial | server/src/services/ClaudeFileWatcher.js:40-59 | the initial load only sets the remembered content and grows the known ids |
| ClaudeFileWatcher.Start | server/src/services/ClaudeFileWatcher.js:16-29 | starting a watching poller does nothing; otherwise it loads the file once and starts polling |
| ClaudeFileWatcher.Stop | server/src/services/ClaudeFileWatcher.js:31-38 | stopping clears the interval and the watching flag and keeps what the poller knows |
| ClaudeFileWatcher.Check | server/src/services/ClaudeFileWatcher.js:61-99 | a check never starts or stops polling. It reports a batch only for new content that parses to a list walked to the end, and that batch is exactly the entries the scan found. A non-empty scan of new content is always reported. New content that parses to a list leaves the set the scan built. When the scan reaches the end, the content is remembered; when an entry throws, the old content and the reports are kept |
| ClaudeFileWatcher.CompletedCheckSettles | server/src/services/ClaudeFileWatcher.js:65-86 | after a check that walked new content to the end, the content is remembered and the set is the scan's, so a second poll of the unchanged file changes nothing |
| ClaudeFileWatcher.SameContentIsQuiet | server/src/services/ClaudeFileWatcher.js:65 | reading the same text as last time changes nothing and reports nothing |
| ClaudeFileWatcher.CheckFailures | server/src/services/ClaudeFileWatcher.js:88-98 | a read error other than a missing file changes nothing; a file that disappears forgets the content and every known id, once |
| ClaudeFileWatcher.CheckEmits | server/src/services/ClaudeFileWatcher.js:81-86 | a check reports at most one batch and never an empty one, and it remembers new content only from a read that returned that content |
| ClaudeFileWatcher.ScanSound | server/src/services/ClaudeFileWatcher.js:72-79 | each reported entry is a pending request whose id the set did not find (a primitive id not seen before, or any array or object id, which `Set.has` compares by identity), no primitive id is reported twice, and the set afterwards is exactly the old one plus the reported ids |
| ClaudeFileWatcher.ScanOrdered | server/src/services/ClaudeFileWatcher.js:72-79 | the reported entries appear in file order |
| ClaudeFileWatcher.ScanReportsNew | server/src/services/ClaudeFileWatcher.js:73-77 | every reported entry is a pending request with an id the set did not find |
| ClaudeFileWatcher.ScanComplete | server/src/services/ClaudeFileWatcher.js:72-79 | after a complete scan, every pending entry's id is in the set, so one with a primitive id is found, and not reported, by every later scan |
| ClaudeFileWatcher.KnownGrows | server/src/services/ClaudeFileWatcher.js:13 | the known ids only grow, unless a check finds the file gone |
| ClaudeFileWatcher.AbortedSwallows | server/src/services/ClaudeFileWatcher.js:72-88 | an entry that throws partway through a scan still leaves the ids met before it in the set: a request with a primitive id listed before it is not reported then, nor once the file is repaired; one with an array or object id is reported once the file is repaired |
| ClaudeFileWatcher.ObjectIdReportedAgain | server/src/services/ClaudeFileWatcher.js:74 | a pending entry whose id is an array or an object is reported by every scan, whatever ids were seen before |
| ClaudeFileWatcher.ObjectIdRepeats | server/src/services/ClaudeFileWatcher.js:65-86 | so every change of the file reports such an entry again |
| ClaudeResponder.NewResponder | server/src/services/ClaudeResponder.js:7-15 | a new responder is stopped and has no live interval |
| ClaudeResponder.Start | server/src/services/ClaudeResponder.js:17-26 | starting leaves the responder running; starting a running one changes nothing |
| ClaudeResponder.Stop | server/src/services/ClaudeResponder.js:28-34 | stopping leaves the responder stopped with its reminder interval cleared |
| ClaudeResponder.StartStopValid | server/src/services/ClaudeResponder.js:17-34 | start and stop keep the interval bookkeeping consistent; a second start creates no second interval; after stop no interval is live |
| ClaudeResponder.StoppedIsSilent | server/src/services/ClaudeResponder.js:28-34 | after stop, no interval fires a reminder |
| ClaudeResponder.Reminder | server/src/services/ClaudeResponder.js:23-25 | an interval that is not live never sends a reminder |
| ClaudeResponder.Tracked | server/src/services/ClaudeResponder.js:48-54 | a missing, unreadable or unparsable tracking file counts as an empty list; a parsed list is used as it is |
| ClaudeResponder.AddRequest | server/src/services/ClaudeResponder.js:36-74 | a stopped responder, or a null request, does nothing; the command is written exactly when the responder runs, the request is not null and the command write succeeds, with the request's id and message; the tracking list counts as written exactly when, after that, the list was readable and its write succeeded, and then it is the old list plus one pending entry for the request; the notice goes out exactly when the tracking list was written |
| ClaudeResponder.AddRequestQueues | server/src/services/ClaudeResponder.js:65-69 | the queued notice carries the request's id and the new list length |
| ClaudeResponder.QueuedNoticeFields | server/src/services/ClaudeResponder.js:65-69 | the queued notice reports the given queue length, and the request's id whenever the request has one |
| ClaudeResponder.PendingCount | server/src/services/ClaudeResponder.js:83 | counting fails exactly when the list holds a null entry and otherwise never exceeds the list's length |
| ClaudeResponder.PendingCountCounts | server/src/services/ClaudeResponder.js:83 | the count is the number of entries whose status is `pending` |
| ClaudeResponder.CheckPending | server/src/services/ClaudeResponder.js:76-97 | a reminder is broadcast exactly when the tracking list parses and holds at least one pending entry |
| ClaudeResponder.AddThenCheck | server/src/services/ClaudeResponder.js:36-97 | after a request is added, the next reminder counts one more pending request |
| ClaudeResponder.ReminderCounts | server/src/services/ClaudeResponder.js:76-96 | a readable list with n > 0 pending entries, and no null entry, gives the reminder with count n and its message |
| ClaudeResponder.FindRequest | server/src/services/ClaudeResponder.js:106 | a found index is in range and its entry's `request.id` is strictly the requested id |
| ClaudeResponder.FindRequestFirst | server/src/services/ClaudeResponder.js:106 | no entry before the found one matches, and when none is found no entry matches |
| ClaudeResponder.MarkRequestProcessed | server/src/services/ClaudeResponder.js:99-116 | what it writes back has the same length as the list read, and no entry that was not pending becomes pending |
| ClaudeResponder.MarkThenCheck | server/src/services/ClaudeResponder.js:99-116 | marking changes exactly the first matching entry, which stops being pending, so the next reminder counts one fewer when it was pending |
| Records.JsPending | server/src/services/ClaudeResponder.js:83 | `r.status === 'pending'` throws exactly on a null entry, and holds exactly when the status is the string `pending` |
| Records.JsRequestId | server/src/services/ClaudeFileWatcher.js:48 | `req.request && req.request.id` throws exactly on a null entry, and any id it yields is truthy |
| Records.JsIdIs | server/src/services/ClaudeResponder.js:106 | an entry matches an id only when it is an object with a `request` field |
| Records.PendingEntry | server/src/services/ClaudeResponder.js:56-60 | the tracking entry for a new request has status `pending` and carries the request |
| Records.MarkProcessed | server/src/services/ClaudeResponder.js:108-109 | marking sets status to `processed` and records `processed_at`, leaving every other field as it was |
| Records.MarkedNotPending | server/src/services/ClaudeResponder.js:108 | a marked entry is no longer pending |
| Records.PySub | claude_process.py:18 | `x[k]` succeeds exactly on a dict that has the key, and yields that key's value |
| Records.PyGet | claude_monitor.py:26 | `x.get(k)` succeeds exactly on a dict and yields the key's value or nothing |
| Records.PyPending | claude_process.py:18 | `req['status'] == 'pending'` succeeds exactly when the entry has a status, and holds exactly when it is the string `pending` |
| Records.PyLoad | claude_process.py:15-20 | only a missing file reads as no document; a parsed file yields its value |
| ClaudeProcess.PendingOf | claude_process.py:18 | the filtered list is never longer than the input |
| ClaudeProcess.PendingOfExact | claude_process.py:18 | the filter fails exactly when some entry has no status; otherwise it keeps exactly the pending entries, in order |
| ClaudeProcess.LoadPendingRequests | claude_process.py:12-20 | a missing file gives no requests; a read or parse error propagates; a list gives its pending entries |
| ClaudeProcess.GetPendingCount | claude_process.py:100-102 | the count is defined exactly when loading succeeds and equals the number of pending requests loaded |
| ClaudeProcess.CountAgrees | claude_process.py:100-102 | on a well-formed tracking list the script's count equals the server's reminder count |
| ClaudeProcess.ResponsePayload | claude_process.py:26-35 | the posted body is `{request_id, content, status: 'success'}` with that key order and an object as content |
| ClaudeProcess.CreateResponse | claude_process.py:22-57 | the body is posted only if the temporary file was written, and success means the write, a zero exit code and the clean-up all succeeded |
| ClaudeProcess.MarkAll | claude_process.py:67-70 | marking keeps the list's length |
| ClaudeProcess.MarkAllEvery | claude_process.py:67-70 | every entry for the request is marked and every other entry is left as it was |
| ClaudeProcess.MarkAsProcessed | claude_process.py:59-79 | a missing or unparsable file writes nothing and sends nothing; the list counts as written only when its write succeeded, the status update is sent exactly when it was, and it asks for `processed` |
| ClaudeProcess.MarkingDiverges | claude_process.py:67-70 | with two entries for one request, the server marks only the first while the script marks both |
| ClaudeMonitor.ProcessedIdsExact | claude_monitor.py:20-29 | the loaded set holds exactly the request ids of the processed entries |
| ClaudeMonitor.NewHandler | claude_monitor.py:15-29 | a missing file gives an empty processed set; any other read or parse failure escapes the constructor |
| ClaudeMonitor.NewRequests | claude_monitor.py:40-43 | the list of new requests is never longer than the file's list |
| ClaudeMonitor.NewRequestsExact | claude_monitor.py:40-43 | a request is reported exactly when its entry is pending and its id was not processed at start-up |
| ClaudeMonitor.CheckNewRequests | claude_monitor.py:35-57 | a file that cannot be read or parsed yields an error instead of a report; over a parsed list the check lists the new requests exactly when each of them has an `id`, a `message` and a `timestamp` to print, and fails otherwise |
| ClaudeMonitor.PrintAll | claude_monitor.py:48-51 | the print loop succeeds exactly when every listed request has the three printed keys, and then lists them unchanged |
| ClaudeMonitor.UnprintableFails | claude_monitor.py:45-57 | one new pending request without a message or a timestamp makes the whole check fail, so none of the new requests is listed |
| ClaudeMonitor.OnModified | claude_monitor.py:31-33 | only a modification of the watched file triggers a check |
| ClaudeMonitor.MarkedIsNotReported | claude_monitor.py:42 | an entry the processing script marked is never reported |
| ClaudeMonitor.ReportsRepeat | claude_monitor.py:31-43 | the processed set is never updated after start-up, so every modification reports every still-pending request again |
| CommandFileWriter.FileName | server/src/services/CommandFileWriter.js:19 | a command file name is `command_`, then the id, then `.txt` |
| CommandFileWriter.FileNameRoundTrip | server/src/services/CommandFileWriter.js:19 | the id can be read back from its file name |
| CommandFileWriter.FileNameInjective | server/src/services/CommandFileWriter.js:19 | two ids share a file name exactly when they are equal |
| CommandFileWriter.CommandContent | server/src/services/CommandFileWriter.js:24-29 | the command record carries the id, the message under both `command` and `message`, and the time of writing |
| CommandFileWriter.WriteCommand | server/src/services/CommandFileWriter.js:10-51 | a failed directory creation or write is rethrown, the first failure winning; on success the file is the id's file in the commands directory and holds the id and the message |
| ClaudeBridge.Post | server/src/routes/claudeBridge.js:7-54 | a file is written exactly when the answer is `201`; the answer is `400` exactly when the body is an object without a truthy `message`; the file is named after the clock reading and holds the message |
| ClaudeBridge.PostMatchesWriter | server/src/routes/claudeBridge.js:19-36 | the route writes the same record, at the same path, as the command-file service would for that id |
| ClaudeBridge.SameMillisecondSameFile | server/src/routes/claudeBridge.js:19-21 | two commands with a message, posted in the same millisecond with no file-system failure, are both written and to the same file, so the second overwrites the first |
| ClaudeBridge.CommandFilesExact | server/src/routes/claudeBridge.js:74 | the listing keeps exactly the names that start with `command_` and end with `.txt`, in directory order |
| ClaudeBridge.Status | server/src/routes/claudeBridge.js:57-89 | a missing directory reports zero pending commands; a listing failure, and only that, is answered with `500` |
| ClaudeBridge.PostThenStatus | server/src/routes/claudeBridge.js:7-89 | a posted command's file counts as a command file, and once it is in the directory the status lists it last and counts one more |
| DataManager.Load | server/src/services/DataManager.js:18-28 | a document that fails to parse raises; a missing one starts afresh; a present one is used as it is |
| DataManager.Items | server/src/services/DataManager.js:73-77 | the listed entries are the document's own, none when it is missing, and an unparsable document raises |
| DataManager.UpdateMetadata | server/src/services/DataManager.js:36-45 | stamping sets `last_updated` and keeps the entries and every other metadata field |
| DataManager.FindIndexFirst | server/src/services/DataManager.js:92 | the lookup finds nothing exactly when no entry matches, finds the first match otherwise, and fails only when a null entry is reached |
| DataManager.FindIndexAt | server/src/services/DataManager.js:92 | the index found is in range, its entry matches, and no earlier entry matches |
| DataManager.FindIndexNone | server/src/services/DataManager.js:92 | the lookup reports no index exactly when no entry matches |
| DataManager.FindIndexNull | server/src/services/DataManager.js:92 | the lookup fails only when the list holds a null entry, and always succeeds otherwise |
| DataManager.FilterExact | server/src/services/DataManager.js:173 | filtering keeps, in order, exactly the entries whose field strictly equals the value |
| DataManager.NewRequestFields | server/src/services/DataManager.js:52-57 | a new request has status `pending` and the creation time whatever the body says, the body's own `id` if it has one and the generated id otherwise, and every other field from the body |
| DataManager.StoredRequestField | server/src/services/DataManager.js:52-57 | a body without an `id` of its own yields a request whose id is the generated one and whose other fields, status and timestamp aside, are the body's |
| DataManager.NewResponseFields | server/src/services/DataManager.js:135-139 | a new response has the creation time whatever the body says, the body's own `id` if it has one and the generated id otherwise, and every other field from the body |
| DataManager.StoredResponseField | server/src/services/DataManager.js:135-139 | a body without an `id` of its own yields a response whose id is the generated one and whose other fields, the timestamp aside, are the body's |
| DataManager.CreateRequest | server/src/services/DataManager.js:48-71 | creating appends the new request to the active list, starting a fresh document when none exists, stamps the metadata, and reports an error only for an unparsable document; a failing write is not modelled |
| DataManager.Find | server/src/services/DataManager.js:81 | `find` reports nothing exactly when no entry matches; otherwise it returns the first matching entry; it fails only on a null entry |
| DataManager.FindById | server/src/services/DataManager.js:79-82 | `getRequest` (and `getResponse`, lines 166-169): a missing document finds nothing, an unparsable one fails; otherwise nothing is found exactly when no entry's `id` strictly equals the one asked for, and a found record is the first entry whose `id` does |
| DataManager.StoredIdFound | server/src/services/DataManager.js:79-82 | a record stored with an id is always found by that id, at its own position or an earlier one with the same id |
| DataManager.UpdateRequest | server/src/services/DataManager.js:84-107 | a missing document raises `No active requests file found`; an unknown id raises `not found`; success keeps the list's length |
| DataManager.UpdateRequestEffect | server/src/services/DataManager.js:92-106 | the update replaces only the first matching entry, with the updates laid over it and `updated_at` set, and returns that entry |
| DataManager.DeleteRequest | server/src/services/DataManager.js:109-128 | a missing document and an unknown id raise as for update; success removes one entry whose `id` matches and stamps the metadata |
| DataManager.DeleteRequestEffect | server/src/services/DataManager.js:117-127 | the deleted entry is the first match, and the list keeps every other entry in order |
| DataManager.Prepend | server/src/services/DataManager.js:147-152 | the new entry goes first, followed by the newest of the old ones, and the list stays within its cap |
| DataManager.CreateResponse | server/src/services/DataManager.js:131-158 | a new response is put first and the list keeps at most 50; a missing document starts afresh; only an unparsable one fails |
| DataManager.ResponsesByRequestIdExact | server/src/services/DataManager.js:171-174 | the responses for a request are, in order, exactly those whose `request_id` strictly equals it |
| DataManager.AddToHistory | server/src/services/DataManager.js:177-202 | a new history entry of the given type and data is put first and the log keeps at most 1000 |
| DataManager.GetHistory | server/src/services/DataManager.js:204-211 | the history read is the newest `limit` entries, none when the log is missing |
| DataManager.Hit | server/src/services/DataManager.js:216-219 | an entry matches when its serialised data contains the query, both lower-cased; an entry without data throws |
| DataManager.HitsExact | server/src/services/DataManager.js:216-219 | the search keeps, in order, exactly the matching entries |
| DataManager.SearchHistory | server/src/services/DataManager.js:213-222 | a missing log finds nothing and an unparsable one fails; over a parsed log the search fails exactly when testing some entry among the newest 1000 throws; no search returns more than `limit` entries |
| DataManager.SearchHistoryFirstHits | server/src/services/DataManager.js:213-222 | the result is the first `limit` matches among the newest 1000 entries, newest first, in log order |
| DataManager.SearchHistorySound | server/src/services/DataManager.js:213-222 | every result is a matching entry among the newest 1000 |
| DataManager.SearchHistoryComplete | server/src/services/DataManager.js:213-222 | when fewer than `limit` results come back, every matching entry among the newest 1000 is among them |
| ErrorHandler.ClassifyIsFirstApplicable | server/src/middleware/errorHandler.js:20-63 | the branch taken is the first one, in the order of the chain, whose condition holds: its own condition holds and that of every earlier branch fails, so an explicit `statusCode` is used only when none of the five rules before it matches |
| ErrorHandler.Handle | server/src/middleware/errorHandler.js:12-70 | each branch answers with its own status and `error` title (validation 400 with details or null, missing file 404, permission 500, bad JSON 400, "not found" 404 with the message, explicit status with the error's name, otherwise 500); `details` only for validation; `stack` exactly in development; the timestamp always |
| ErrorHandler.RouteNotFound | server/src/middleware/errorHandler.js:74-78 | the error for an unserved route carries status 404 and is a plain `Error` |
| ErrorHandler.UnknownRouteIsNotFound | server/src/middleware/errorHandler.js:49-77 | an unserved route is answered by the "not found" rule ahead of the status rule: `404` with title `Not Found` |
| ErrorHandler.Serve | server/src/middleware/errorHandler.js:81-85 | a handler's own answer is sent unchanged; a rejected handler's error is answered by the error handler |
| AutoResponder.ClassifyIsFirstRule | server/src/services/AutoResponder.js:72-87 | the reply kind is that of the first rule, in priority order greeting, thanks, help, time, whose keywords occur in the lower-cased message; acknowledgment otherwise |
| AutoResponder.HiAnywhereGreets | server/src/services/AutoResponder.js:72 | any message containing "hi", inside a word too, is answered as a greeting |
| AutoResponder.SubstringGreets | server/src/services/AutoResponder.js:72 | keywords match as substrings: "Thanks, this helps" is taken for a greeting, because "this" contains "hi" |
| AutoResponder.AcknowledgmentText | server/src/services/AutoResponder.js:85 | the acknowledgment quotes the original message |
| AutoResponder.GenerateResponse | server/src/services/AutoResponder.js:65-94 | a reply is produced exactly when the request has a string `message` (otherwise the lower-casing throws); it carries the kind's name, the first 100 characters of the message as summary, and the kind's text |
| AutoResponder.AcknowledgmentEchoes | server/src/services/AutoResponder.js:84-87 | a message that matches no rule gets back a reply that contains it verbatim |
| AutoResponder.ProcessRequest | server/src/services/AutoResponder.js:22-63 | a stopped responder or a null request does nothing; the request is updated only after the response was stored; `response_sent` is emitted exactly when the update succeeded, and then two broadcasts go out, `response_created` first; the stored response, put first in the list, holds the request's id and the generated reply, and the update marks the first request with that id `processed` and changes no other entry |
| AutoResponder.Deliver | server/src/services/AutoResponder.js:31-62 | storing a generated reply puts the new response first, and a successful update marks the request `processed` and is followed by both broadcasts and `response_sent` |
| AutoResponder.ProcessedInStore | server/src/services/AutoResponder.js:43-45 | a successful update replaces exactly the first request with that id, keeping the list's length, and its status reads `processed` |
| AutoResponder.ProcessRequestCompletes | server/src/services/AutoResponder.js:22-63 | a running responder, given a request with a message whose id is stored in a readable requests document, always completes and marks it |
| AutoResponder.ResponseOutlivesFailedUpdate | server/src/services/AutoResponder.js:32-62 | with no requests document the response is still stored, the update raises `No active requests file found`, and an `error` event is emitted instead of `response_sent` |
| Validation.CheckChars | server/src/schemas/requestSchema.js:4-9 | a string rule accepts exactly the strings whose (trimmed, when asked) length is within bounds, yields the trimmed string, and reports one detail otherwise |
| Validation.Check | server/src/middleware/validation.js:12 | a value rule accepts exactly the values of its kind and yields the converted value; a rejection carries at least one detail; a value outside a `valid()` list gets `any.only` first, followed by `string.base` for a non-string or `string.empty` for an empty string |
| Validation.CheckFieldsExact | server/src/middleware/validation.js:12 | the declared fields raise no detail exactly when each field passes its rule; undeclared keys never reach the output; with distinct keys each passing field's output is its outcome |
| Validation.ValidateExact | server/src/middleware/validation.js:3-32 | validation succeeds exactly when the input conforms to the schema; a failure carries at least one detail, exactly one with `abortEarly` |
| Validation.RejectsOnField | server/src/middleware/validation.js:3-32 | a single key that fails its rule makes validation fail, whatever the options |
| Validation.AbsentStaysAbsent | server/src/middleware/validation.js:3-32 | with no defaults in the schema, a key the input leaves out is also absent from the validated value |
| Validation.ValidatedValue | server/src/middleware/validation.js:5-29 | each declared key of the validated value holds that field's outcome (the value, its default, or nothing); an unknown key is dropped under `stripUnknown` and kept otherwise |
| Validation.Middleware | server/src/middleware/validation.js:3-92 | a request passes exactly when its body, query or parameters conform, and is handed the validated value; otherwise `400` with `Validation Error`, `Query Validation Error` or `Parameter Validation Error` by source, and one detail per violation |
| Validation.PaginationExact | server/src/middleware/validation.js:100-105 | a query is accepted exactly when `limit` is absent or a whole number in 1..100, `offset` absent or a whole number at least 0, `sort` absent or one of created/updated/priority, `order` absent or asc/desc |
| Validation.PaginationValues | server/src/middleware/validation.js:100-105 | an accepted query has `limit` in 1..100 (20 when absent), `offset` at least 0 (0 when absent), `sort` created by default and `order` desc by default |
| Validation.SearchValues | server/src/middleware/validation.js:107-110 | an accepted search holds a query of 1 to 500 characters taken from the input and a `limit` in 1..100, 20 by default |
| Validation.IdParamsExact | server/src/middleware/validation.js:96-98 | an `id` parameter is accepted exactly when it is non-empty, and then it is kept as it is |
| Schemas.RequestBodyExact | server/src/schemas/requestSchema.js:3-29 | a request body is accepted exactly when it has a message of 1 to 10000 characters after trimming, and its priority, user id, metadata and tags, where present, are of their declared kinds |
| Schemas.BlankMessageRejected | server/src/schemas/requestSchema.js:4-9 | a message made only of white space is rejected |
| Schemas.RequestBodyValues | server/src/schemas/requestSchema.js:3-29 | the validated body holds the trimmed message, the priority given (kept as sent) or `medium`, the optional fields as sent, and no key the schema does not declare |
| Schemas.UpdateRejectsProcessed | server/src/schemas/requestSchema.js:42-44 | an update that sets the status to `processed` is rejected, since that status is not among the allowed ones |
| Schemas.UpdateHasNoDefaults | server/src/schemas/requestSchema.js:31-53 | an update fills in nothing: a key absent from the body is absent from the validated update |
| Schemas.ResponseBodyValues | server/src/schemas/responseSchema.js:3-29 | the validated response body holds the request id and the content as sent. The status is the one sent, or `success` when none was sent. `error_code` and `metadata` are as sent. `execution_time` is present exactly when sent, read as a positive number. No undeclared key is kept |
| Schemas.HelperResponseAccepted | server/src/schemas/responseSchema.js:3-29 | the response the Python helper posts for a non-empty request id (claude_process.py lines 26-35) passes the response schema |
| Schemas.HelperStatusUpdateRejected | server/src/schemas/requestSchema.js:42-44 | the status update the Python helper sends after marking a request (claude_process.py lines 76 and 88) fails the update schema, so the server never records it |
| StoreFailures.AsFailure | server/src/services/DataManager.js:18-28 | an error a store operation raises has no error code, no Joi flag and no status of its own |
| StoreFailures.FailureStatus | server/src/middleware/errorHandler.js:12-63 | so the error handler answers every store failure with 400, 404 or 500 |
| StoreFailures.CorruptStoreIsParseError | server/src/middleware/errorHandler.js:42-48 | a store file that no longer parses is answered `400 JSON Parse Error`, as if the client had sent bad JSON |
| StoreFailures.NoActiveFileNotNotFound | server/src/services/DataManager.js:88-90 | the missing-document error does not contain "not found" |
| StoreFailures.NoActiveFileIsServerError | server/src/middleware/errorHandler.js:12-63 | so a missing requests document is answered `500 Internal Server Error` |
| StoreFailures.RequestNotFoundSaysSo | server/src/services/DataManager.js:93-95 | the unknown-id error is a plain error whose message contains "not found" |
| Paging.ReadQuery | server/src/routes/requests.js:11-17 | a list query is read exactly when it conforms to the pagination schema, unknown keys allowed; the limit lies in 1..100 and the offset is at least 0; otherwise `400 Query Validation Error` |
| Paging.JsSlice | server/src/routes/requests.js:31 | a slice from a non-negative start holds the elements from there on, as many as the end allows and the list has |
| Paging.PageExact | server/src/routes/requests.js:31 | a page holds the `limit` items from `offset` on, fewer at the end of the list |
| Paging.HasMoreIffNextPage | server/src/routes/requests.js:36-40 | `hasMore` holds exactly when the next page is not empty |
| Paging.PagesTile | server/src/routes/requests.js:31 | two consecutive pages together are the slice of twice the limit from the first offset: no item is skipped or repeated |
| Paging.List | server/src/routes/requests.js:11-43 | a bad query is the `400` rejection; an unparsable store goes to the error handler; a stored `null` among two or more entries makes the comparator throw, and that error goes to the error handler; otherwise `200` with the page of the sorted list and the pagination of the whole |
| Paging.SortFailureIsServerError | server/src/routes/requests.js:20-22 | a stored `null` among two or more entries makes a conforming list query answer `500 Internal Server Error`, because the comparator's `TypeError` says nothing of "not found" (server/src/middleware/errorHandler.js:12-17 hands it to the last rule) |
| Paging.ListSucceeds | server/src/routes/responses.js:11-43 | a list route answers `200` exactly when the query conforms, the store is readable and the sort does not throw |
| Paging.ArrangedPage | server/src/routes/requests.js:19-40 | whatever order the sort leaves, the page holds `min(limit, total - offset)` of the stored entries, none of them more often than it is stored, and `total` counts the stored entries |
| Paging.ListPage | server/src/routes/requests.js:11-43 | the page of every `200` list answer holds `min(limit, total - offset)` of the stored entries, none of them more often than it is stored, with `total` the number stored |
| Paging.PageBody | server/src/routes/responses.js:11-43 | a list answer's body holds the page of the arranged list, `min(limit, total - offset)` items from `offset` on, reports the list's total, and says more follow exactly when the next page is not empty |
| Handlers.CheckId | server/src/middleware/validation.js:64-98 | an `:id` parameter is accepted exactly when it is non-empty and handed on unchanged; otherwise `400` |
| Handlers.CheckBody | server/src/middleware/validation.js:3-32 | a body passes exactly when it validates, and the handler sees the validated value; otherwise `400 Validation Error` |
| Handlers.Caught | server/src/routes/requests.js:102-110 | an error whose message says "not found" becomes the handler's own `404`; any other is answered by the error handler, with 400, 404 or 500 for one without a status |
| Handlers.Log | server/src/routes/requests.js:95-101 | once the store changed, the history entry is written exactly when the log is readable, and then the answer carries the record; an unreadable log turns the answer into 400, 404 or 500 |
| RequestRoutes.Create | server/src/routes/requests.js:45-68 | an invalid body is `400` and nothing is written; the answer is `201` exactly when the body is valid and both documents are readable (writes are taken to succeed), and then the request is appended to the list and history starts with its `request_created` entry; the request is queued exactly when a responder exists and the answer is `201` |
| RequestRoutes.CreatedRequest | server/src/routes/requests.js:45-68 | a created request carries the generated id, status `pending`, the server's timestamp, the trimmed message and a priority among low/medium/high, `medium` unless the body chose one: a body's own `id` or `status` cannot override the server's |
| RequestRoutes.RequestSource | server/src/services/DataManager.js:48-57 | the request built from a validated body has the generated id, status `pending`, the timestamp, the trimmed message and an allowed priority, `medium` by default |
| RequestRoutes.GetOne | server/src/routes/requests.js:70-85 | an empty id is `400`; a missing document or unknown id is `404 Request with id … not found`; a readable document with no request of that id answers `404`, one holding it answers `200`, and a `200` answer holds the first stored request with that id |
| RequestRoutes.Update | server/src/routes/requests.js:87-112 | a bad id or body is `400` with nothing written; a `200` answer holds the updated request and history then starts with its `request_updated` entry; history is written only after the requests document |
| RequestRoutes.Delete | server/src/routes/requests.js:114-138 | an empty id is `400` with nothing written; a `200` answer holds the removed request, which had that id, the document holds one entry fewer, and history then starts with its `request_deleted` entry |
| RequestRoutes.NoDocumentIsServerError | server/src/routes/requests.js:102-109 | with no requests document, updating or deleting any request is answered `500` and nothing is written |
| RequestRoutes.UnknownIdIsNotFound | server/src/routes/requests.js:102-108 | an id the document does not hold is answered with the handler's own `404` and nothing is written |
| RequestRoutes.ProcessedUpdateRejected | server/src/routes/requests.js:88-90 | an update that marks a request `processed` is answered `400` and nothing is written |
| ResponseRoutes.Create | server/src/routes/responses.js:45-59 | an invalid body is `400` with nothing written; `201` exactly when the body is valid and both documents are readable (writes are taken to succeed); the response is put first within the cap of 50 (alone when there was no document), and history then starts with its `response_created` entry |
| ResponseRoutes.ResponseSource | server/src/services/DataManager.js:131-145 | a stored response carries the generated id and the server's timestamp, names the request of the body, and has an allowed status, `success` by default: a body's own `id` cannot override the server's |
| ResponseRoutes.Latest | server/src/routes/responses.js:61-75 | a bad query is `400`; otherwise the answer holds the first `limit` stored responses and the total count |
| ResponseRoutes.LatestStartsWithNewest | server/src/routes/responses.js:45-75 | right after a response is created, the latest list starts with it |
| ResponseRoutes.LatestFirst | server/src/routes/responses.js:61-75 | on a non-empty list, `/latest` answers `200` and its first response is the list's first |
| ResponseRoutes.GetOne | server/src/routes/responses.js:77-92 | an empty id is `400`; a missing document or unknown id is `404 Response with id … not found`; a readable document with no response of that id answers `404`, one holding it answers `200`, and a `200` answer holds the first stored response with that id |
| ResponseRoutes.NotASchemaNotNotFound | server/src/routes/responses.js:96-98 | the error the route's middleware raises does not say "not found" |
| ResponseRoutes.ByRequestAsWritten | server/src/routes/responses.js:94-108 | as declared, the route answers every call with `500 Internal Server Error` and no responses |
| ResponseRoutes.ByRequest | server/src/routes/responses.js:94-108 | with its parameter schema wrapped as an object schema, an empty id is `400`, a missing document gives no responses, and the answer is `200` exactly when the id is non-empty and the lookup succeeds |
| ResponseRoutes.ByRequestParams | server/src/routes/responses.js:96-98 | the intended parameter schema accepts exactly the non-empty ids and hands them on unchanged |
| ResponseRoutes.ByRequestExact | server/src/routes/responses.js:94-108 | the corrected route answers with exactly the stored responses that name the request, in stored order, with `total` their count; the route as declared answers none |

## Left out

- File, network and console I/O: reads are outcome values, writes are the values written, and log lines are dropped.
- Clock readings, locale time strings, generated UUIDs and timer delays are parameters; no monotonicity of SSE `id:` values is claimed.
- `JSON.stringify` and `JSON.parse` are parameters where their exact text matters (SSE payloads, history search), because byte-exact JSON rendering is not modelled.
- The sort comparators of the list routes are a parameter (`Paging.Arrange`), constrained only to permute the list. The comparator returns only 1 or -1, so the resulting order depends on the engine's sort algorithm. The one error the comparator can throw, on a `null` entry, is modelled.
- Lower-casing and trimming are ASCII only, and string lengths count characters, not UTF-16 code units.
- Joi is modelled for the rule kinds the schemas use. Its message texts are replaced by violation codes, the order of details is the schema's, and number conversion accepts only an optional `-` followed by digits.
- Unknown keys are stripped, not rejected, because the middlewares pass `stripUnknown: true`; this is followed even where a plain reading of the schemas would reject them.
- `path.join` and `path.relative` are plain string concatenation of the modelled directory names.
- Stack traces are opaque strings; only their presence in development is stated.
- A thrown value that is not an `Error` object is not modelled.
- SseFormat.FormatSSEMessage: the envelope timestamp and the `id:` come from one time stamp parameter; the source reads the clock twice (server/src/services/SSEManager.js:105 and :114), and the model states no relation between the two readings.
- SseManager.BroadcastEffect: every operation takes one time stamp, so all frames of one broadcast, one replay of a backlog or one connection carry the same timestamp and id; the source formats each frame with fresh clock readings (server/src/services/SSEManager.js:77, through `sendToClient`), so the frames a broadcast writes to different clients can differ in those two fields. Likewise the set of clients whose transport throws is fixed for the whole operation, so a transport cannot start failing partway through a broadcast or a replay after some of its frames were written.
- DataManager.CreateRequest: one time stamp stands for both the record's `timestamp` (server/src/services/DataManager.js:50) and the metadata's `last_updated` (server/src/services/DataManager.js:37), which the source reads separately; the same holds for DataManager.UpdateRequest (`updated_at`, server/src/services/DataManager.js:100), DataManager.DeleteRequest, DataManager.CreateResponse and DataManager.AddToHistory (fresh-document `created` and entry `timestamp`, server/src/services/DataManager.js:181 and :188), each of whose stamps is a reading of its own in the source.
- ClaudeProcess.MarkAll: one time stamp marks every matching entry, where the script calls `datetime.now()` once per entry (claude_process.py:70).
- RequestRoutes.Create: the history entry is stamped with the request's time stamp; the source reads the clock again for it.
- AutoResponder.ProcessRequest: the response's `metadata.processed_at` (server/src/services/AutoResponder.js:38), the stored response's `timestamp` (server/src/services/DataManager.js:133) and the request's `updated_at` share one time stamp; the source reads the clock for each.
- Json.Num: numbers are integers; fractional numbers such as an `execution_time` of 0.5, which `Joi.number().positive()` accepts (server/src/schemas/responseSchema.js:25-28), are not representable.
- DataManager.CreateRequest: writes cannot fail. `writeJSON` (server/src/services/DataManager.js:30-34) can reject, for instance with `EACCES`, and the error handler then answers `500 File System Error` (server/src/middleware/errorHandler.js:35-41); the model's store operations report errors only for unparsable documents. The same holds for every other store write, and for RequestRoutes.Create and ResponseRoutes.Create, whose `201` assumes the writes succeed.
- StoreFailures.AsFailure: `EACCES` and other read errors are not separated from parse failures; an unreadable store file is treated like one that does not parse.
- `setImmediate` scheduling in the create route is reduced to the request being queued after the answer is decided.
- Python's `1 == True` and its deep dict equality are not modelled; ids compare as JSON values.
- Store documents whose shape is not the expected object with a list are not modelled beyond the error they raise.
- The React user interface, the Anthropic API responder, and the wiring in `index.js` are not part of this model. `index.js` never registers the Claude responder, so its presence is a parameter of the create route.
- The events, history and health routes, `claude-bridge.js` and `claude-history.js` are not part of this model.
- Concurrent requests and interleaved file writes are not modelled: each operation runs to completion on the state it was given.
- The plain getters `getClientCount`, `getConnectedClients`, `getClientInfo`, `getAllClientsInfo`, `isWatching`, `getWatchedPaths`, `getRequests`, `getResponses` and `getConnectionStatus` (SseClient.ConnectionStatus, used by the SseClient lemmas above) are projections of the modelled state and have no row of their own.

## Findings

| source | as written | input that shows it | evidently intended | confidence | as-written member | corrected member |
|---|---|---|---|---|---|---|
| client/src/utils/sse.js:18-21 | the timer's reconnect calls `connect`, which calls `disconnect` on the old source, and `disconnect` clears `shouldReconnect` for good | default options; connect, the source fails, the timer fires, the new source fails | retries continue, with doubling delays, until `maxReconnectAttempts` is reached | not executed | SseClient.AsWrittenGivesUpAfterOneRetry | SseClient.CorrectedRetriesUntilCap |
| client/src/utils/sse.js:54-56 | on connect, each listener *array* of the map is registered as the callback for its event type | `on("request_created", f)` then `connect()`; the server sends `event: request_created` | each registered callback receives the named event | not executed | SseClient.AsWrittenMissesNamedEvent | SseClient.CorrectedDeliversNamedEvent |
| server/src/routes/responses.js:96-98 | `validateParams` is given a plain object, so `schema.validate` is not a function and every call is answered `500` | `GET /api/responses/request/abc` with a stored response for `abc` | the route answers with the responses for that request | not executed | ResponseRoutes.ByRequestAsWritten | ResponseRoutes.ByRequestExact |
