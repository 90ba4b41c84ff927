# Verified model of the Agent GTD core

Agent GTD is a task board whose items are dispatched as runs to remote agent hosts. This project
models its state-heavy parts in Dafny and proves what they promise over every input, run or
interleaving. `dafny verify dfyconfig.toml` checks all of it.

| file | what it models |
|---|---|
| `runs.dfy`, `run_protocol.dfy`, `run_safety.dfy`, `dispatch_worker.dfy`, `dispatch_refinement.dfy` | A dispatch run. The protocol is a transition system with a step between any two awaits, external cancels, remote progress, crashes and reconciliation; the worker's own loops (routing, polling, resuming, reconciling) are methods over the run table, and every execution of them is a run of the protocol. |
| `event_queue.dfy`, `event_bus.dfy`, `event_replay.dfy`, `event_protocol.dfy`, `event_order.dfy`, `event_reconnect.dfy`, `event_gap.dfy`, `event_sql.dfy` | The event bus: the drop-oldest queue, the bus object, replay from a cursor, publishing and streaming over bounded queues interleaved, what a consumer sees of the log, what a reconnecting client is sent, and what the SQL of replay selects. |
| `sql_placeholders.dfy`, `sql_query.dfy`, `sql_builders.dfy` | The `$N` to `?` translation, character by character and with quotes, the text and meaning of the SQL used, and the builders that rely on the translation. |
| `key_case.dfy`, `iso_timestamps.dfy`, `env_file.dfy` | Codecs: JSON key case, ISO timestamps compared as text, the env file. |
| `wait_loop.dfy`, `update_item.dfy` | The command line's wait loop against a clock, and its versioned update against other writers. |
| `board_snapshot.dfy`, `kanban.dfy`, `project_cache.dfy` | Ordered and cached views. |
| `single_use.dfy`, `draft_state.dfy` | Tokens used once under concurrent transactions; the debounced draft writer. |
| `sorting.dfy`, `text.dfy`, `wrappers.dfy` | Stable sorting and filtering, characters and numerals, optional values. |

## What turned out not to hold

Some expected properties fail for the code as it is. Each is proved with the condition under which it holds, and the
runs in which it fails are given.

- A crash while polling changes nothing, if the host is still configured and answers at the restart, exactly if the row is
  still active: the live loop overwrites a row that was cancelled meanwhile, reconciliation passes it over
  (`RunSafety.CrashTransparentIffActive`). If the host is gone or silent, the restart fails the row
  (`DispatchWorker.PathsAgree`).
- A cancel that was written stays exactly if afterwards no launch is refused or fails, no host's reply is lost, no restart
  finds the host gone or silent, and no result other than cancelled is written (`RunSafety.CancelStaysIff`; before polling,
  `RunSafety.CancelInRoutingStaysIff`; it fails in `RunSafety.CancelledThenRefused`).
- During an external cancel a remote run is told to stop exactly if the worker tells it itself or had been told before, or
  the row named it when it was read, its host is still configured, and the process does not die between the write and the
  request (`RunSafety.CancelReachesRemoteIffReadInTime`; it fails in `RunSafety.StaleCancelIsLost` and
  `RunSafety.CrashLosesCancel`).
- Cancelling a finished run changes it exactly if the canceller had read it while it was active
  (`RunSafety.FinishedRowChangesIff`, `RunSafety.CancelOverwritesSuccess`).
- A remote run is forgotten exactly if the host's reply was lost, or the process or a write was lost between the reply and
  the update that names it (`RunSafety.NoRemoteRunForgotten`, `RunSafety.CrashForgetsRemoteRun`).
- The worker leaves an active row behind exactly if an unhandled exception or a failing write ends it while the row is active
  (`RunSafety.LeftActiveIff`).
- A consumer sees the visible log in order exactly if it never lagged by 256 events and events were fanned out to its
  user in the order they were inserted (`EventOrder.WholeVisibleLogIff`); fan-outs of two publishes can overtake each
  other (`EventOrder.FanOutsOvertake`).
- Replay misses events stamped no later than the cursor (`EventReplay.ReplayCompletesIff`, `EventReplay.TieIsMissed`).
- A client that comes back has each event once exactly if just one of four ways brings it: replay or queue of its first
  stream, replay or queue of the second (`EventReconnect.ComesBackCompleteIff`). An event published between replay and
  subscription is missed (`EventGap.PublishedInGapIsMissed`), one inserted before the replay and handed out after the
  subscription comes twice (`EventGap.PublishedAroundReturnComesTwice`).
- The disconnect signal of a shutdown is lost on a full queue (`EventBus.SignalArrivesIffRoom`).
- The service compares versions and writes in two steps; a write in between is overwritten without a conflict
  (`UpdateItem.ReplacesTheRowReadIff`, `UpdateItem.WindowLosesAnUpdate`).
- The key `_Proto__` round-trips as text but is lost from an object, because assigning `__proto__` makes no property
  (`KeyCase.TreeRoundTrip`, `KeyCase.PrototypeKeyIsLost`).
- A snapshot with a negative cap does not add up (`BoardSnapshot.ConservesIff`).
- Drops that do not wait for each other keep the server's columns strictly ordered exactly if each accepted change fits
  on arrival (`Kanban.ServerOrderedIff`). Of two, in either order of arrival, exactly if the second is refused, or applied
  after the first, or fits without it (`Kanban.TwoOverlappingDropsOrderedIff`, `Kanban.OverlappingDropsTie`). Three,
  all accepted and in order, can tie (`Kanban.ThirdDropTies`).
- A cached project map is fresh exactly if the last write of each project since it was answered, and the login in force,
  left that project looking as the map shows it (`ProjectCache.FreshIffLastWrites`); for changes that are not taken back,
  exactly if nothing changed it (`ProjectCache.FreshIff`). See also `ProjectCache.LostReplyKeepsIff` and
  `ProjectCache.OverlapGoesStale`.
- A password reset reads the clock before it waits for its token's row: it begins within the token's lifetime and may commit
  after it (`SingleUse.ResetIsInTime`, `SingleUse.ResetAfterExpiry`).
- The placeholder translation does not know quotes: it preserves meaning exactly if nothing inside quotes looks like a
  placeholder, and outside them `$1..$n` come in order and no `?` stands (`SqlPlaceholders.PreservedIffInOrder`,
  `SqlPlaceholders.AdapterPreservesMeaning`).
- Clearing a draft swallows the next edit unless the form was showing something else and was rendered in between
  (`DraftState.EditAfterClearIsStoredIff`).

Where code and documentation disagree the model follows the code: the env file wins over the environment, although
the repository's README names the environment first, and `update-item` accepts 14 fields where its comments say 13.

## Assumptions

- The status check after a host accepted a run and the update that marks it running are one step.
- The router returns one of its hosts, not an excluded one when it chooses freely; host URLs and remote ids are not
  empty; a host never gives the same remote id twice.
- A crash loses the process without a `CancelledError`. One external cancel is in progress at a time.
- A database call of the worker fails only where `RunProtocol` has an `Abandon` or `RecordFails` step: before routing is
  over, or when the outcome of a request is written down.
- A terminal remote status never changes again, and the plan gate finds the same item before and after a crash.
- Who owns and belongs to which project does not change while events are being published.
- Row locks are real, as the `FOR UPDATE` queries intend; a unique index holds back a second insert of an address.
- Random ids never repeat. Text is compared by code point.

## Model

| member | source | states |
|---|---|---|
| `Runs.TerminalMapsToFinished` | src/agent_gtd/models.py:79-122 | Polling stops at exactly the remote statuses that map to a finished local status, and which status each maps to |
| `Runs.OutcomeIsFinal` | src/agent_gtd/dispatch_worker.py:524-574 | Every terminal answer finishes the row; the plan gate changes the status exactly for a successful plan run whose item is readable and has no acceptance criteria, and then to failed with its own message |
| `Runs.FinishedMirrors` | src/agent_gtd/dispatch_worker.py:1203-1227 | The row after a terminal answer, case by case: success exactly for succeeded or already satisfied unless a plan run wrote no criteria, failed exactly for failed or that, timeout and cancelled exactly for theirs; the first 2000 characters of the error; the engine the remote names, or the old one |
| `Runs.MirrorsIsExact` | src/agent_gtd/dispatch_worker.py:1203-1227 | No other row fits that description |
| `RunProtocol.NextKeepsInv` | src/agent_gtd/dispatch_worker.py:973-1288 | Every step of worker, canceller, host, crash or restart keeps the protocol invariant |
| `RunProtocol.ReachableInv` | src/agent_gtd/dispatch_worker.py:973-1288 | The invariant holds in every reachable state |
| `RunSafety.WhatIsPossible` | src/agent_gtd/dispatch_worker.py:577-1288 | Each await of worker, canceller and restart can come exactly in the phases and under the conditions listed step by step, and leads to the phase listed |
| `RunSafety.WhatIsWritten` | src/agent_gtd/dispatch_worker.py:577-1288 | What each step writes into the row, column by column, with the texts of the failures; a step not listed writes nothing |
| `RunSafety.RunningIsLocated` | src/agent_gtd/dispatch_worker.py:1136-1147 | A running row names the one remote run that was accepted, so a restart always asks its host and never calls it "never dispatched" |
| `RunSafety.PollingEndsFinal` | src/agent_gtd/dispatch_worker.py:1170-1227 | Whatever ends a live or resumed poll loop, or a probe at restart, leaves a finished status, or the row untouched if the write itself fails |
| `RunSafety.RoutingBounds` | src/agent_gtd/dispatch_worker.py:1002-1112 | In all runs each host is posted to at most once, a pinned run at most once in all, and at most one remote run is accepted |
| `RunSafety.NoRemoteRunForgotten` | src/agent_gtd/dispatch_worker.py:1084-1147 | When the worker is done, an accepted remote run is in the row or was told to stop exactly if no step of the run lost the reply, and none lost the process or the write between the reply and the update |
| `RunSafety.CrashForgetsRemoteRun` | src/agent_gtd/dispatch_worker.py:1039-1147 | A run that ends failed and naming no remote run, although a host took one and nobody told it to stop |
| `RunSafety.LeftActiveIff` | src/agent_gtd/dispatch_worker.py:973-1242 | In every reachable state, the step that ends the worker leaves the row active exactly if the row was active and the step is an unhandled exception or a failing write |
| `RunSafety.CancelledBeforeRoutingNeverPosts` | src/agent_gtd/dispatch_worker.py:973-978 | A run no longer pending when picked up or re-read is never posted, whatever happens afterwards |
| `RunSafety.CancelledInRoutingIsStopped` | src/agent_gtd/dispatch_worker.py:1114-1134 | As long as neither the process nor a host's reply nor a write is lost, a run cancelled while routed is never polled; if a host took it, exactly that remote run is told to stop and the row stays cancelled and located |
| `RunSafety.CancelStaysIff` | src/agent_gtd/dispatch_worker.py:577-1242 | From the moment a cancel is written, in any phase and whatever follows, the row ends cancelled exactly if nothing wrote a failed launch, a missing or silent host, or another result over it |
| `RunSafety.CancelInRoutingStaysIff` | src/agent_gtd/dispatch_worker.py:1002-1134 | Before the run is polled, exactly if no launch was refused or failed and no reply was lost |
| `RunSafety.CancelReachesRemoteIffReadInTime` | src/agent_gtd/services/dispatch_service.py:1004-1036 | From the read of the row to the end of the cancel, over all runs: an accepted remote run is told to stop exactly if it was before, the worker tells it, or the row named it when read, its host was configured and no crash came before the request |
| `RunSafety.StaleCancelIsLost` | src/agent_gtd/services/dispatch_service.py:1004-1036 | A run in which a cancelled row ends as a success and no host is told |
| `RunSafety.CrashLosesCancel` | src/agent_gtd/services/dispatch_service.py:1004-1036 | A run that ends cancelled and located with nobody told, because the process died between write and request |
| `RunSafety.FinishedRowChangesIff` | src/agent_gtd/services/dispatch_service.py:877-968 | Whatever follows, a finished row changes exactly by the write of a canceller that had read it while active |
| `RunSafety.CancelOverwritesSuccess` | src/agent_gtd/services/dispatch_service.py:877-968 | A run whose remote succeeded and whose finished row is then made cancelled |
| `RunSafety.CancelledThenRefused` | src/agent_gtd/dispatch_worker.py:1017-1034 | A run in which a cancelled row ends as failed |
| `RunSafety.CrashTransparency` | src/agent_gtd/dispatch_worker.py:706-824 | From "running" on, through any crashes, restarts and failed polls, an uncancelled run whose host answers and whose result can be written ends with the row the uninterrupted loop writes, which mirrors the remote's answer case by case |
| `RunSafety.CrashTransparentIffActive` | src/agent_gtd/dispatch_worker.py:577-612 | With cancels in play, a crash changes nothing for any remote answer exactly if the row is active at the crash |
| `DispatchWorker.Route` | src/agent_gtd/dispatch_worker.py:1002-1112 | The routing loop ends; every request went to the router's choice given the full hosts before it, to distinct hosts, all but the last answered 503; which code of the last answer, or which refusal of the router, gives which result |
| `DispatchWorker.PollUntilTerminal` | src/agent_gtd/dispatch_worker.py:1168-1208 | Returns the first terminal answer, asking again after failures and unfinished runs, unless the task is cancelled first |
| `DispatchWorker.RunTable.UpdateRun` | src/agent_gtd/dispatch_worker.py:356-375 | Changes the given columns of that row and nothing else |
| `DispatchWorker.RunTable.Mirror` | src/agent_gtd/dispatch_worker.py:1203-1227 | A terminal answer is mirrored into that row and no other changes |
| `DispatchWorker.RunTable.ExecuteRun` | src/agent_gtd/dispatch_worker.py:838-1242 | The row after an execution, the requests made and the cancels sent, for every way engine, status re-read, routing, polling and task cancellation can go, with a cancel landing before or during routing |
| `DispatchRefinement.ExecutionIsRun` | src/agent_gtd/dispatch_worker.py:838-1242 | Every execution is a run of the protocol from its initial state, with the same row, the same requests in order, and the same remote runs told to stop |
| `DispatchRefinement.RestartIsRun` | src/agent_gtd/dispatch_worker.py:577-824 | So is every restart with the polling it resumes, from any state in which the process was lost |
| `DispatchWorker.RunTable.ResumePolling` | src/agent_gtd/dispatch_worker.py:761-824 | Ends with the row mirroring the first terminal answer, or cancelled with the remote told if the task is cancelled first |
| `DispatchWorker.RunTable.ReconcileActiveRuns` | src/agent_gtd/dispatch_worker.py:577-758 | Treats and counts every active row once and changes no other: failed with its reason, mirroring the host's terminal answer, or left and polled again exactly if the host reports an unfinished run |
| `DispatchWorker.PathsAgree` | src/agent_gtd/dispatch_worker.py:616-824 | On the same answers a restart, with the polling it resumes, ends a located row as the live loop does, unless the host is gone from the configuration or does not answer the first time |
| `DispatchWorker.ActiveMeansResumed` | src/agent_gtd/dispatch_worker.py:577-758 | After reconciliation a row is active exactly if its polling was resumed |
| `EventQueue.Queue.Deliver` | src/agent_gtd/event_bus.py:92-101 | A delivery puts its event last, dropping the oldest only when the queue is full |
| `EventQueue.QueueRefinesLog` | src/agent_gtd/event_bus.py:92-101 | For one queue under any deliveries and consumptions: it is a gap-free tail of at most 256 of the delivered events, the consumer saw earlier ones once each and in order, and the rest was dropped |
| `EventQueue.WholeLogIffNeverLags` | src/agent_gtd/event_bus.py:92-101 | For one queue: seen and queued events are all that was delivered, in order, exactly if no delivery found it full |
| `EventBus.AudienceIsReplayFilter` | src/agent_gtd/event_bus.py:92-194 | Fan-out reaches exactly the users whose replay would show the event: its publisher, its project's owner and its project's members, read off the tables |
| `EventBus.Bus.Subscribe` | src/agent_gtd/event_bus.py:26-32 | Adds one empty queue for the user |
| `EventBus.Bus.Unsubscribe` | src/agent_gtd/event_bus.py:34-42 | Removes that queue and nothing else |
| `EventBus.Bus.Publish` | src/agent_gtd/event_bus.py:44-126 | The log grows by the event; each queue of the publisher, of the project's owner or of a project member receives it once, as its newest entry, and no other queue changes |
| `EventBus.Bus.Drain` | src/agent_gtd/event_bus.py:196-202 | Offers every queue the signal and forgets all subscribers |
| `EventBus.SignalArrivesIffRoom` | src/agent_gtd/event_bus.py:196-202 | The signal arrives exactly at queues with room and never costs an event |
| `EventReplay.ReplayedIffLater` | src/agent_gtd/event_bus.py:147-194 | An event is replayed exactly if it is visible and stamped later than the cursor |
| `EventReplay.ReplayShowsIff` | src/agent_gtd/event_bus.py:128-194 | From the tables of owners and members: a user's replay holds an event exactly if the user published it or owns or belongs to its project, and it is stamped later than a cursor event of which the same is true |
| `EventReplay.ReplayCompletesIff` | src/agent_gtd/event_bus.py:147-194 | Seen prefix and replay make up the visible log, each event once, exactly if timestamps and log positions agree around the cursor |
| `EventReplay.PrefixPlusReplay` | src/agent_gtd/event_bus.py:147-194 | With strictly increasing timestamps, seen prefix plus replay is the full visible log in order |
| `EventReplay.ClockedReplay` | src/agent_gtd/event_bus.py:62-194 | The same for texts of strictly increasing UTC instants |
| `EventReplay.TieIsMissed` | src/agent_gtd/event_bus.py:168-193 | Of two events in one microsecond the second is never replayed |
| `EventReplay.ReplayAnswers` | src/agent_gtd/event_bus.py:147-194 | Replay always has an answer: some rows meet the query and its order |
| `EventProtocol.NextKeepsInv` | src/agent_gtd/event_bus.py:26-126 | Every step of any interleaving of publish, subscribe, consume and unsubscribe keeps: an open queue was delivered, once each, what its user was handed since it was made, and holds the last of these |
| `EventProtocol.DeliveredExactlyOnce` | src/agent_gtd/event_bus.py:44-126 | An event inserted while a queue was open is, when its publish is over, in that queue's deliveries once if its user is in the audience and never otherwise |
| `EventProtocol.NeverTwiceNeverToOthers` | src/agent_gtd/event_bus.py:44-126 | At no moment has a queue received an event twice, or one outside its user's audience |
| `EventProtocol.UninterruptedPublish` | src/agent_gtd/event_bus.py:44-126 | Insert, owner and member fan-out together hand the event once to each open queue of the audience |
| `EventOrder.EveryQueueRefines` | src/agent_gtd/event_bus.py:26-126 | At every moment of every run each queue is the end of what was delivered to it, at most 256 long, and its consumer saw earlier events in turn |
| `EventOrder.QueueShowsLogIff` | src/agent_gtd/event_bus.py:26-126 | In every run what was seen and is queued is exactly the part of the log handed to the user since the subscription, in log order, if and only if no delivery found the queue full and the user's fan-outs came in the order of the inserts |
| `EventOrder.WholeVisibleLogIff` | src/agent_gtd/event_bus.py:26-126 | With every publish over, the same for the visible log since the subscription |
| `EventOrder.FanOutsOvertake` | src/agent_gtd/event_bus.py:62-101 | A run in which a queue has two events in the reverse of log order |
| `EventReconnect.ReconnectSends` | src/agent_gtd/routes/event_routes.py:62-92 | How often a reconnected stream has each visible event for its client: once by replay if logged by then and later than the cursor, once by its queue if handed out after it subscribed and not dropped |
| `EventReconnect.QuietReconnect` | src/agent_gtd/routes/event_routes.py:62-92 | If nothing was being published in between, every visible event after the cursor is there once, later dropped ones apart, and no earlier one |
| `EventReconnect.ComesBackCompleteIff` | src/agent_gtd/routes/event_routes.py:62-92 | Over a stream that broke off and the one its client came back with, whatever is published meanwhile, each visible event comes once exactly if just one of replay and queue of either stream brings it |
| `EventReconnect.ComesInWays` | src/agent_gtd/routes/event_routes.py:62-92 | How often each visible event comes over both streams |
| `EventReconnect.CalmReturnCompleteIff` | src/agent_gtd/routes/event_routes.py:62-92 | If nothing was being published from the replay to the subscription: exactly if the client had got just the events up to its cursor, each once, and the second queue drops none it had not |
| `EventGap.PublishedInGapIsMissed` | src/agent_gtd/routes/event_routes.py:72-80 | A run in which a client that had everything up to its cursor never gets an event published between its replay and its subscription |
| `EventGap.PublishedAroundReturnComesTwice` | src/agent_gtd/routes/event_routes.py:72-80 | A run in which an event is both replayed to the client and put into its queue |
| `EventReconnect.OrderlyStreamSawPrefix` | src/agent_gtd/routes/event_routes.py:76-92 | A stream that never lagged and was given its events in log order has shown just the visible events up to its last one |
| `SqlPlaceholders.PreservedIffInOrder` | src/agent_gtd/sqlite_pool.py:15-19 | For all SQL text, quoted text included: replacing placeholders preserves the binding for all arguments exactly if outside quotes `$1..$n` stand in order and no `?` stands, and inside them nothing looks like a placeholder |
| `SqlPlaceholders.StripIsFaithfulIff` | src/agent_gtd/sqlite_pool.py:18 | Removing FOR UPDATE from the text moves no argument, and leaves the statement without its clauses exactly if none is matched inside quotes |
| `SqlPlaceholders.AdapterPreservesMeaning` | src/agent_gtd/sqlite_pool.py:15-19 | On ordered text SQLite runs the PostgreSQL statement without its FOR UPDATE, exactly if no such clause is quoted |
| `SqlPlaceholders.ForUpdateMatchIff` | src/agent_gtd/sqlite_pool.py:18 | What is removed is whitespace, FOR UPDATE in any case, and stands before the end of a word |
| `SqlPlaceholders.TrailingClauseGone` | src/agent_gtd/sqlite_pool.py:18 | A trailing FOR UPDATE goes and the text before it stays |
| `SqlBuilders.RenderedStatementRuns` | src/agent_gtd/sqlite_pool.py:15-19 | Any text of plain segments with consecutive placeholders is ordered and binds each argument in its place, multi-digit numbers included |
| `SqlBuilders.BuildRunUpdate` | src/agent_gtd/dispatch_worker.py:356-375 | For any number of fields the update text is ordered, and after translation is the update of these columns, each to its value, in the row with that id |
| `SqlBuilders.RunUpdateSets` | src/agent_gtd/dispatch_worker.py:356-375 | What that update does to the table: these columns and the time in the rows with that id, nothing else anywhere |
| `SqlBuilders.BuildSinceQuery` | src/agent_gtd/event_bus.py:149-165 | For any number of projects the text of the cursor lookup, letter by letter, and that it binds cursor, user and every project id in its place of the query meant |
| `SqlBuilders.BuildReplayQuery` | src/agent_gtd/event_bus.py:170-192 | The same for the replay query with user, every project id and the timestamp |
| `EventSql.QueriesReplay` | src/agent_gtd/event_bus.py:149-194 | What the two queries select, run one after the other: the answers they may give are exactly the replays from that cursor, oldest first |
| `KeyCase.KeyRoundTrip` | frontend/src/utils.ts:3-9 | To snake case and back is the identity exactly for keys without an underscore before a lowercase letter |
| `KeyCase.ServerKeyRoundTrip` | frontend/src/utils.ts:3-9 | The other round trip is the identity exactly for keys without capitals |
| `KeyCase.NoTwoKeysCollide` | frontend/src/utils.ts:3-9 | Keys that come back are never run together |
| `KeyCase.ConvertKeys` | frontend/src/utils.ts:11-21 | The recursive rewrite computes the conversion of the whole tree |
| `KeyCase.TreeRoundTrip` | frontend/src/utils.ts:11-21 | A JSON tree survives both conversions exactly if every key comes back and is not lost on the way |
| `KeyCase.PrototypeKeyIsLost` | frontend/src/utils.ts:14-17 | A key that round-trips as text and is lost from an object |
| `IsoTimestamps.TextOrderIsInstantOrder` | src/agent_gtd/event_bus.py:62 | For all UTC date-times the ISO texts compare as the instants do, although the fraction is left out when it is zero |
| `IsoTimestamps.TextIsInjective` | src/agent_gtd/event_bus.py:62 | Different instants have different texts |
| `IsoTimestamps.TextReads` | src/agent_gtd/auth.py:340-351 | The text is year-month-dayThour:minute:second, the six digits of the fraction unless it is zero, and +00:00 |
| `IsoTimestamps.InstantCountsMoments` | src/agent_gtd/auth.py:340-351 | The next moment of the calendar, leap years included, is the next instant |
| `IsoTimestamps.TextLengthVaries` | src/agent_gtd/auth.py:340-351 | The texts do not have the equal length that section 5.1 of RFC 3339 presumes for sorting |
| `EnvFile.Parse` | src/agent_gtd/client_config.py:49-62 | The loop computes the values the lines assign, the last one winning |
| `EnvFile.QuotedRoundTrip` | src/agent_gtd/client_config.py:43-62 | A line in single or double quotes, exported or not, among any other lines, gives its value back |
| `EnvFile.OnlyWantedAreAssigned` | src/agent_gtd/client_config.py:52-61 | A comment assigns nothing, and no line assigns any but the two variables |
| `EnvFile.StripTrims` | src/agent_gtd/client_config.py:52-61 | Stripping takes off space at both ends, and all of it |
| `EnvFile.LineEnds` | src/agent_gtd/client_config.py:51 | A line ends at any break, a carriage return and a line feed being one |
| `EnvFile.BreaksAreThese` | src/agent_gtd/client_config.py:51 | Which ten characters are breaks |
| `EnvFile.ExpressibleIffUnbroken` | src/agent_gtd/client_config.py:43-62 | A value can be given in some file exactly if it has no line break |
| `EnvFile.BareRoundTripIff` | src/agent_gtd/client_config.py:43-62 | An unquoted value comes back exactly if it has no space and no pair of quotes around it |
| `EnvFile.FileWinsIffNonEmpty` | src/agent_gtd/client_config.py:81-86 | The file's value wins over any environment exactly if it is not empty |
| `WaitLoop.WaitForTerminal` | src/agent_gtd/cli.py:242-304 | No answer but the last ends the wait; 0 or 2 exactly on a terminal status, the error exactly on a fatal one, otherwise 124 with the last good data, at the deadline or when the sleep cut to it ends; fetches start before the deadline, each a fetch, a poll and the sleep's overrun after the one before |
| `WaitLoop.FatalIff` | src/agent_gtd/cli.py:210-239 | Which errors end a wait |
| `WaitLoop.LastGoodIsLast` | src/agent_gtd/cli.py:265-304 | The data given at a timeout: of the last fetch that was not an error |
| `WaitLoop.FetchIsInTime` | src/agent_gtd/cli.py:268-304 | The i-th fetch starts only if i polls are less than the timeout |
| `WaitLoop.BeforeDeadline` | src/agent_gtd/cli.py:268-304 | There are at most timeout / poll fetches, rounded up |
| `WaitLoop.RunStatusWait` | src/agent_gtd/cli.py:307-366 | Which exit code the command gives for which answer, when each fetch starts and how many fit in the timeout, with a poll of 5 seconds at least |
| `WaitLoop.WaitCoversEveryFinalStatus` | src/agent_gtd/cli.py:28-30 | The statuses that end the wait are exactly the finished ones, and 0 is for success alone |
| `WaitLoop.WorkerOutcomeEndsWait` | src/agent_gtd/cli.py:28-30 | Whatever the worker writes at the end of a run ends the wait, and which text the client is shown for which remote answer |
| `UpdateItem.OnlyAskedFieldsAreWritten` | src/agent_gtd/cli.py:585-640 | Over either backend exactly the fields named by a flag or a non-null key are written, the flag first, and an empty due date, engine or project clears its column |
| `UpdateItem.PayloadIsWritten` | src/agent_gtd/cli.py:563-626 | Which key of the payload each of the ten columns without a flag is written from |
| `UpdateItem.FlagIsWritten` | src/agent_gtd/cli.py:575-607 | Which flag, and without it which key, status, commit type and engine are written from |
| `UpdateItem.LabelsAreWritten` | src/agent_gtd/cli.py:609-613 | The same for the capability labels |
| `UpdateItem.KnownKeysAreThese` | src/agent_gtd/cli.py:43-60 | Which keys a payload may have |
| `UpdateItem.TransportKeepsArgs` | src/agent_gtd/mcp_backend.py:1932-1961 | The HTTP body carries every argument to the service unchanged |
| `UpdateItem.Store.Update` | src/agent_gtd/services/item_service.py:300-462 | Writes exactly if the version and the other checks passed, onto the row plus whatever others did in between |
| `UpdateItem.DoUpdate` | src/agent_gtd/cli.py:562-686 | One attempt, and a second exactly after a conflict without an explicit version; the last attempt writes exactly if its version is still current and the service accepts, onto the row compared plus the service's window; a conflict, a success and a refused key are reported exactly when they occur |
| `UpdateItem.SameVersionSameRow` | src/agent_gtd/services/item_service.py:354-358 | Equal versions mean that nobody wrote |
| `UpdateItem.OtherFieldsAreUntouched` | src/agent_gtd/services/item_service.py:374-459 | Whatever others did before and after, a field the write does not name ends as if it had not happened |
| `UpdateItem.ReplacesTheRowReadIff` | src/agent_gtd/services/item_service.py:354-462 | The write replaces the row it was compared with exactly if nobody wrote in between |
| `UpdateItem.WindowLosesAnUpdate` | src/agent_gtd/services/item_service.py:354-462 | A write in the window is overwritten although the versions compared equal |
| `UpdateItem.CompletionTracksStatusIff` | src/agent_gtd/services/item_service.py:391-402 | Exactly when the completion mark still follows the status after a write |
| `BoardSnapshot.FormatBoardSnapshot` | src/agent_gtd/mcp_backend.py:43-95 | The snapshot has exactly the tracked columns, each the capped, sorted items of its status |
| `BoardSnapshot.EntriesShowFirst` | src/agent_gtd/mcp_backend.py:65-95 | Each column spelled out: the first cap of the status's items by sort order and then time of creation, as id and first 60 characters of the title, and the number of the rest |
| `BoardSnapshot.TrackedAreThese` | src/agent_gtd/mcp_backend.py:20-22 | Which six statuses have a column |
| `BoardSnapshot.ConservesIff` | src/agent_gtd/mcp_backend.py:85-92 | Cards plus hidden count are the column exactly for a cap of zero or more |
| `BoardSnapshot.SnapshotConserves` | src/agent_gtd/mcp_backend.py:65-95 | Every item of a status is listed or counted |
| `BoardSnapshot.ListedAreFirst` | src/agent_gtd/mcp_backend.py:65-95 | The cards are the first cap of the status's sorted items, and no hidden item comes before a listed one |
| `BoardSnapshot.TiesKeepTheirOrder` | src/agent_gtd/mcp_backend.py:65-72 | Items with equal keys stay in the order they came in |
| `BoardSnapshot.BothBackendsAgree` | src/agent_gtd/services/item_service.py:991-1021 | Filtering and ordering in the database gives each column the same items, with the same keys at every place, as sorting first and grouping afterwards, and the same cards at every place when no two keys tie |
| `Kanban.Board.Drop` | frontend/src/components/KanbanBoard.tsx:87-117 | The request and the optimistic items a drop leads to, computed from the display and shown on top of the items |
| `Kanban.Board.DropAndSettle` | frontend/src/components/KanbanBoard.tsx:87-133 | After the refresh board and server agree, on the dropped card if the server took it |
| `Kanban.CardLandsAtIndex` | frontend/src/components/KanbanBoard.tsx:31-117 | The regrouped, re-sorted column is the strictly ordered one without the card, with the card at the drop index |
| `Kanban.DroppedCardBecomes` | frontend/src/components/KanbanBoard.tsx:21-36 | Which status each column gives a card dropped there, and which sort order it gets between its neighbours |
| `Kanban.ColumnShows` | frontend/src/components/KanbanBoard.tsx:12-76 | Which cards each column shows |
| `Kanban.OtherColumnsKeepTheirCards` | frontend/src/components/KanbanBoard.tsx:68-76 | Every other column keeps its other cards in order |
| `Kanban.StrictAfterDropIff` | frontend/src/components/KanbanBoard.tsx:31-117 | The destination is strictly ordered after a drop exactly if it was without the card |
| `Kanban.DropsKeepOrdered` | frontend/src/components/KanbanBoard.tsx:31-133 | Strict order of all columns survives any sequence of settled drops |
| `Kanban.SettledDropsAreEvents` | frontend/src/components/KanbanBoard.tsx:87-133 | Drops that settle are a run of board and server with drop, arrival and refresh in turn, and leave both with the same items |
| `Kanban.StrictAfterMoveIff` | frontend/src/components/KanbanBoard.tsx:68-117 | For a sort order computed on any display: the card's column is strictly ordered exactly if it was without the card and no other card of it has that order |
| `Kanban.ServerOrderedIff` | frontend/src/components/KanbanBoard.tsx:87-133 | For any drops, refreshes and requests arriving in any order the server's columns are strictly ordered throughout exactly if every change it accepts fits on arrival |
| `Kanban.TwoOverlappingDropsOrderedIff` | frontend/src/components/KanbanBoard.tsx:87-133 | Two overlapping drops, arriving in either order and each accepted or not, keep them so exactly if the second is refused, applied after the first, or fits without it |
| `Kanban.ThirdDropTies` | frontend/src/components/KanbanBoard.tsx:98-117 | Three overlapping drops, all accepted and in order, after which two cards of a column are level on the server |
| `Kanban.OverlappingDropsTie` | frontend/src/components/KanbanBoard.tsx:98-117 | Two overlapping drops after which the board shows two cards of a column level, and so does the server if the second request arrives first |
| `ProjectCache.HttpBackend.GetProjectMap` | src/agent_gtd/mcp_backend.py:1566-1580 | From a coherent state gives what a fresh fetch would give, and stays coherent |
| `ProjectCache.FetchShows` | src/agent_gtd/mcp_backend.py:1566-1580 | A fetched map has each project the key may see, with its name, repository mode and repositories, and no other |
| `ProjectCache.HttpBackend.Login` | src/agent_gtd/mcp_backend.py:1630-1643 | Drops the map and takes the key even if the server then refuses it |
| `ProjectCache.HttpBackend.UpdateProject` | src/agent_gtd/mcp_backend.py:1730-1806 | Server and cache after a write that works, fails, or loses its reply |
| `ProjectCache.HttpBackend.CreateProject` | src/agent_gtd/mcp_backend.py:1666-1728 | One write, and a second one for overrides only after the first worked |
| `ProjectCache.CacheIsFresh` | src/agent_gtd/mcp_backend.py:1566-1806 | In every run whose failed writes changed nothing, a map that is there is what a fresh fetch for the login in force gives |
| `ProjectCache.LostReplyKeepsIff` | src/agent_gtd/mcp_backend.py:1798-1806 | Exactly when a write whose reply was lost leaves the map fresh |
| `ProjectCache.MapIsAsAnswered` | src/agent_gtd/mcp_backend.py:1566-1580 | However calls overlap, a map that is there is what the server had when it answered, for the key in force when it was asked |
| `ProjectCache.FreshIffLastWrites` | src/agent_gtd/mcp_backend.py:1566-1806 | In every run, however calls overlap, such a map is fresh exactly if the last write of each project since the answer left it looking to the login in force as the map shows it, and the others look to that login as to the one that asked |
| `ProjectCache.FreshIff` | src/agent_gtd/mcp_backend.py:1566-1806 | As long as no project comes to look again as before: exactly if no login since the asking and no write since the answer changed what it shows |
| `ProjectCache.ApartIsFresh` | src/agent_gtd/mcp_backend.py:1566-1806 | Whatever is written, no login while the projects are asked for and no write while an answer waits is enough for freshness between writes |
| `ProjectCache.OverlapGoesStale` | src/agent_gtd/mcp_backend.py:1566-1580 | A run in which a fetch that overlaps a write brings the old map back for good |
| `SingleUse.NextKeepsInv` | src/agent_gtd/auth.py:274-362 | Every step of any interleaving of transactions keeps locks, claims and tables consistent |
| `SingleUse.OneUserPerInvite` | src/agent_gtd/auth.py:274-321 | In every reachable state each used invite made one user of its own, and new users and used invites are equally many |
| `SingleUse.RegistrationMakesUser` | src/agent_gtd/auth.py:292-321 | The commit of a registration adds one user with the address and the password it was begun with and marks the invite it was begun with, and changes nothing else in the two tables |
| `SingleUse.LockFinds` | src/agent_gtd/auth.py:292-350 | The locking read ends a transaction as unknown, used or expired exactly in those cases, read off the token's row, and goes on otherwise |
| `SingleUse.CheckFinds` | src/agent_gtd/auth.py:300-305 | A registration is refused exactly if some user has its address |
| `SingleUse.RegistrationCanSucceed` | src/agent_gtd/auth.py:292-321 | For any users and any address not taken there is a run whose registration commits, leaving the new user and the marked invite |
| `SingleUse.RegisteredUserIs` | src/agent_gtd/auth.py:274-362 | From then on the user has that address, the invite names the user, and the password is that of the user's last committed reset or the one registered with |
| `SingleUse.OneCommitPerToken` | src/agent_gtd/auth.py:274-362 | Of all transactions on one invite or reset token at most one ever commits |
| `SingleUse.FailureLeavesNoTrace` | src/agent_gtd/auth.py:291-321 | A registration shows in both tables if it committed and in neither if it did not |
| `SingleUse.ResetShowsIffCommitted` | src/agent_gtd/auth.py:343-362 | Some reset row is marked as used by a reset transaction exactly if it committed |
| `SingleUse.PasswordIsLastReset` | src/agent_gtd/auth.py:274-362 | Whatever runs besides, a user keeps its address, and its password is that of the last reset of its own that committed, or the one it had |
| `SingleUse.OneUserPerEmail` | src/agent_gtd/auth.py:300-305 | No two users have the same address |
| `SingleUse.ResetIsInTime` | src/agent_gtd/auth.py:340-362 | A reset that committed began at a moment not past its token's expiry |
| `SingleUse.ResetAfterExpiry` | src/agent_gtd/auth.py:340-362 | A run in which a password is set after the token's expiry |
| `DraftState.OneTimerWithTheShownValue` | frontend/src/hooks/useDraftState.ts:66-101 | In every run at most one timer is pending and it holds the value last shown |
| `DraftState.AbsentUntilEdit` | frontend/src/hooks/useDraftState.ts:103-119 | After a clear the key stays absent until another value is set |
| `DraftState.EditIsStoredIff` | frontend/src/hooks/useDraftState.ts:66-101 | After any run, exactly when an edit whose timer runs is in storage |
| `DraftState.SkipIffClearWaits` | frontend/src/hooks/useDraftState.ts:66-119 | After any run the next effect is skipped exactly if some clear has had no effect run since |
| `DraftState.EditAfterClearIsStoredIff` | frontend/src/hooks/useDraftState.ts:66-119 | The first edit after a clear reaches storage exactly if the form was showing something else than the initial value and was rendered between clear and edit |
| `DraftState.LaterEditsAreStored` | frontend/src/hooks/useDraftState.ts:66-119 | Once an edit has changed what is shown, every later edit that does so is stored until the next clear |
| `Sorting.SortIsStable` | frontend/src/components/KanbanBoard.tsx:68-76 | Sorting keeps elements that tie in the order they came in |
| `Sorting.FilterSort` | src/agent_gtd/mcp_backend.py:65-81 | Filtering a sorted list is sorting the filtered list |

## Left out

- Hosts' capacity and label rules, the router's choice among hosts, rollouts and the run reaper: only what the worker relies on is assumed.
- HTTP, authentication headers, JWT, password hashing, logging, argument parsing and rendering: their outcomes are parameters.
- Timestamps written to run rows and published run events: they decide nothing here.
- DispatchWorker.RunTable.ExecuteRun: one external cancel per execution, and neither task nor write is lost between a host's reply and the update; `run_protocol.dfy` has these interleavings.
- DispatchWorker.PollUntilTerminal: is stated for a remote run that ends at some time; a run that never does is polled for ever.
- WaitLoop.WaitForTerminal: a wait without timeout is stated for answers that end it at some time, because otherwise it never returns.
- SqlPlaceholders.AdapterPreservesMeaning: SQL comments, dollar-quoted and backslash-escaped strings are read as plain text; non-ASCII digits and spaces are not modelled.
- SqlBuilders.RenderedStatementRuns: segments hold no quotes, as those of the builders.
- KeyCase.TreeRoundTrip: capitals beyond ASCII are not modelled, nor that an object lists integer-like keys first.
- EventBus.Bus.Publish: takes the member rows as given; that the members may change during a publish is not modelled.
- EventReconnect.ComesBackCompleteIff: the first stream got past its replay, and connections break without losing an event already taken from the queue.
- Kanban.CardLandsAtIndex: sort orders are exact numbers, so that repeated halving never runs out of precision.
- BoardSnapshot.BothBackendsAgree: the database's order among equal keys is unspecified, so equal cards at every place are promised only where keys differ.
- UpdateItem.Store.Update: access checks, blockers, rollout locks and the plan-mode engine rule are two predicates, before and after the version check.
- SingleUse.OneCommitPerToken: SQLite, whose adapter drops FOR UPDATE, is not modelled.
- EnvFile.Parse: reading the file, its permissions warning and `~` expansion are left out.
- DraftState.AbsentUntilEdit: JSON encoding, unmounting and a change of key are left out.
- Label normalisation, the cross-project blocker sweep, publish counters, host projections: each is settled by reading its body.
