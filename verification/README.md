# Composia protocol model

Composia runs Docker Compose services on several machines: one controller, one agent per node,
and a command line client. This project models the parts of it that have to stay right while
messages are lost, streams are replaced, processes crash and goroutines interleave, and proves
what those parts promise over every run.

Each protocol is given twice. A *machine* (the `...Protocol` modules) is a datatype for the whole
state, a datatype of events, which include everything the environment may do, and a total
`Next`; an event that is not possible in a state leaves it alone, so a claim about `Run(events)`
for every `events` is a claim about every run. *Classes* (`TaskLogUploader`,
`TaskExecutionRuntime`, `DockerQueryBroker`, `ExecTunnelManager`, `ContainerLogManager`,
`MigrationExecutor`, `ConfigReload`, `CliConfig`, `DnsBatch`) hold the fields the code mutates
and run its loops and branches; their methods are proved to be steps of the machine, so what is
proved about runs holds for them. The `...Safety` modules hold the inductive invariants, the
`...Results` modules what follows from them, the `...Messages` modules what each operation does to
the channels, and the `...Progress` modules how a run can go on.

| part | modules |
|---|---|
| task-log upload, agent to controller | TaskLogProtocol, TaskLogSafety, TaskLogGroups, TaskLogUploader |
| crash-safe task execution on the agent | ExecutionProtocol, ExecutionSafety, ExecutionResults, ExecutionProgress, TaskExecutionRuntime |
| Docker query broker | DockerQueryProtocol, DockerQuerySafety, DockerQueryResults, DockerQueryBroker |
| exec tunnels | ExecTunnelProtocol (with Channels), ExecTunnelSafety, ExecTunnelMessages, ExecTunnelManager |
| container-log tunnels | ContainerLogProtocol, ContainerLogSafety, ContainerLogMessages, ContainerLogManager |
| image version probing | SemverOrder, SemverProbe, SemverDiscovery |
| DNS batch synchronisation | DnsSync, DnsBatch, DnsDesired |
| service migration | MigrationProtocol, MigrationSafety, MigrationResults, MigrationProgress, MigrationExecutor |
| controller configuration edits and reloads | ConfigReloadProtocol, ConfigReloadSafety, ConfigReloadSettled, ConfigReload |
| client configuration file | CliConfigFormat, CliConfigCommands, CliConfig |

Environment and assumptions, part by part:

- **Task log.** Sends and acknowledgements get lost, streams are replaced, messages of old
  streams arrive late, the controller loses its cache, the append and the confirmation in the
  database are two writes either of which may fail, and an upload may be given up at its
  deadline. The controller's confirmed number for the task starts at 0.
- **Task execution.** A crash may happen between any two steps. A write of the state file installs
  the whole record or nothing, and may install it and still report failure. The controller's
  store follows `internal/platform/store/tasks.go`: fresh execution ids, the same outcome
  accepted again, another one rejected; leases expire and lost executions may be failed by an
  operator at any time.
- **Broker and tunnels.** Every critical section is one step, in any order. Time is an integer
  clock. A send on a closed channel, or closing one twice, sets `panicked` in the machine.
- **Migration.** Every write to the task store and every step body may fail; the confirmation is
  handled by other requests in between. A wait for a child task may end before the child, which
  is not cancelled and may have its effect at any later time. An effect is taken as a whole.
- **Configuration.** What a text loads to is a parameter (`Env`). Edits, the reload loop and
  untagged reloads (a signal, a call) interleave; a program outside the controller may write the
  file without the lock.

What the code does where its own words, or an obvious expectation, say otherwise (the code is
what is modelled):

- An append that commits while its confirmation does not is repeated by the resend, so the log is
  exact if and only if no confirmation was lost (`TaskLogSafety.ExactlyOnceIffNoLostConfirm`,
  `LostConfirmRepeats`). A given-up upload that still arrives swallows the next one
  (`AbandonedUploadSwallowsNext`). With both, an upload may even be appended behind a later one
  (`TaskLogGroups.BothFaultsReorder`; `OrderSurvivesIff` says exactly when).
- A backup result that is stored when its execution ends at the controller, by a lost lease that an
  operator gives up on, is refused and sent again for ever: the agent never pulls a task again
  (`ExecutionProgress.RecoveryEndsIff`, `BlockedForever`, `BlockedIsReachable`).
- The gallop over version numbers overflows 64 bits for rows that reach close to 2^62;
  `SemverProbe.OverflowsIff` says for which rows exactly.
- A container-log session whose last message meets a full buffer is removed without its channel
  being closed (`ContainerLogSafety.TerminalClosesIffRoom`, `AbandonedForGood`).
- `migrate.go:287` logs that the migration awaits confirmation before `dns_update`; the code has
  synchronised DNS by then (`MigrationResults.DnsPrecedesConfirmation`).
- Nothing checks that `public_ipv4` holds an IPv4 and `public_ipv6` an IPv6 address. The batch
  converges exactly when they do (`DnsDesired.NodesConvergeIff`); otherwise old records stay
  (`WrongFamilyKeepsOldRecords`).
- A migration that is on record as failed may still stop, back up, restore or deploy through the
  child task it gave up waiting for (`MigrationResults.FailedMigrationStillStops`).
- An edit that is refused and undone may leave its candidate running, when a reload by signal took
  it up meanwhile (`ConfigReloadSettled.RefusedCandidateRuns`, `UndoneEditIff`).
- What follows a line break in an inline token is read as a line of its own: it may make the saved
  file unreadable or set another key (`CliConfigFormat.LineBreakStartsLine`,
  `CliConfigCommands.InlineTokenLoadsIff`). A line longer than the scanner takes makes the file
  unreadable (`CliConfigFormat.RoundTripIff`). Setting `token_keyring` to the same name with other
  white space around it deletes the entry it names (`CliConfigCommands.SetKeyringKeepsEntryIff`).
- A program that writes the controller's configuration without the lock can lose its change to a
  restore (`ConfigReloadSafety.ExternalWriteCanBeLost`).

## Model

| member | source | states |
|---|---|---|
| TaskLogSafety.ExactlyOnceIffNoLostConfirm | internal/app/controller/log_stream.go:83-112 | In every run without abandoned uploads, whatever is lost, late or reset: confirmed numbers of both ends stay within one, every confirmed upload is in the log in order, each lost confirmation repeats one entry in place, and the log is exactly the first C uploads iff no confirmation was lost |
| TaskLogSafety.LogTextIsFirstUploads | internal/platform/store/task_logs.go:10-40 | The same read off the file: when no confirmation was lost its text is the first C contents joined |
| TaskLogSafety.OrderedSubsequence | internal/app/agent/log_stream.go:181-185 | With uploads given up at any time and no confirmation lost, the log is a strictly ordered subsequence of the Upload calls, one entry per confirmed number; a reported upload missing from it has a given-up one in its slot, and there are at most as many missing as given up |
| TaskLogSafety.BaseStep | internal/app/agent/log_stream.go:58-81 | Every step keeps at most one entry pending between calls, with consecutive numbers on both ends; this is derived from the sequential caller, not assumed |
| TaskLogSafety.ReplyConfirmsPending | internal/app/agent/log_stream.go:151-169 | An acknowledgement that completes a round trip always confirms the pending upload and advances by one |
| TaskLogSafety.ExactStep | internal/app/controller/log_stream.go:83-112 | One step of any kind but abandoning keeps the exact correspondence between numbers, uploads and log |
| TaskLogSafety.OrderedStep | internal/app/controller/log_stream.go:96-111 | One step that loses no confirmation keeps the slot-by-slot correspondence that tolerates given-up uploads |
| TaskLogSafety.LostConfirmRepeats | internal/app/controller/log_stream.go:103-110 | A run exists in which one lost confirmation puts the same upload into the log twice |
| TaskLogSafety.AbandonedUploadSwallowsNext | internal/app/agent/log_stream.go:76-79 | A run exists in which the second upload is reported delivered while only the first, given-up one is in the log |
| TaskLogGroups.GroupedStep | internal/app/controller/log_stream.go:83-112 | One step of any kind keeps the log in groups by number, each of uploads that carried its number |
| TaskLogGroups.LogIsGrouped | internal/app/controller/log_stream.go:96-111 | With lost confirmations and given-up uploads in any combination: every confirmed number has a group in the log, the groups stand in the order of their numbers and of the Upload calls, and there is one entry more than numbers for each lost confirmation |
| TaskLogGroups.OvertakenNeedsBoth | internal/app/controller/log_stream.go:103-110 | An upload is appended behind a later one only as a late message of a given-up upload, under a number whose confirmation was lost |
| TaskLogGroups.OrderSurvivesIff | internal/app/controller/log_stream.go:96-111 | The log is in the order of the Upload calls iff no such append ever happened |
| TaskLogGroups.BothFaultsReorder | internal/app/controller/log_stream.go:103-110 | A run exists in which both faults put an upload into the log twice, once out of order |
| TaskLogUploader.LogUploader.DropConfirmed | internal/app/agent/log_stream.go:171-179 | The in-place compaction leaves exactly the entries above the confirmed number, in order |
| TaskLogUploader.LogUploader.ApplyAck | internal/app/agent/log_stream.go:151-169 | An acknowledgement for another task changes nothing; any other one moves the uploader as the machine does, renumbering included, and confirms the current entry only when it covers it |
| TaskLogUploader.LogUploader.AbandonPending | internal/app/agent/log_stream.go:181-185 | Giving up empties the list and takes the next number back to the one after the last confirmed |
| TaskLogUploader.LogAcceptor.ApplyTaskLogUpload | internal/app/controller/log_stream.go:83-112 | Stale and early messages are answered with the confirmed number and write nothing, the next one is appended; no other task's log, confirmation or cache is touched |
| TaskLogUploader.LogAcceptor.ResetTaskLogAck | internal/app/controller/log_stream.go:118-123 | Only the cached confirmation of that task is forgotten; what is stored stays |
| TaskLogUploader.LogAcceptor.HandleMessage | internal/app/controller/log_stream.go:25-81 | Malformed messages, sessions that cannot be bound and messages for another execution end the stream before anything is written; a bound session never changes |
| TaskLogUploader.GaplessAck | internal/app/agent/log_stream.go:151-179 | No acknowledgement makes a hole in the pending numbers or lengthens the list, and one that covers the first entry shortens it |
| TaskLogUploader.RenumberedIsAccepted | internal/app/agent/log_stream.go:151-169 | After the controller fell back to r, the pending contents keep their order as r+1, r+2, ... and the next completed round trip is appended |
| TaskLogUploader.PerfectTrip | internal/app/agent/log_stream.go:126-149 | A completed round trip levels the two ends or shortens the list, so gaps cannot livelock |
| TaskLogUploader.UploadLink.Serve | internal/app/agent/log_stream.go:126-149 | A message that reaches the controller is one send and one handling step of the machine, and the reply is the acceptor's |
| TaskLogUploader.UploadLink.RoundTrip | internal/app/agent/log_stream.go:126-169 | A round trip between the two objects is a run of the machine and never lengthens the list; it shortens it unless the controller had fallen back |
| TaskLogUploader.UploadLink.Flush | internal/app/agent/log_stream.go:95-104 | The loop terminates under any finite sequence of faults; it fails exactly when it meets the deadline with something pending, and no other fault makes it fail |
| TaskLogUploader.UploadLink.Upload | internal/app/agent/log_stream.go:58-81 | A call always ends with nothing pending and continues the machine's run; an empty content does nothing; any other fails exactly when the deadline is among the faults it meets, and then the upload was given up |
| SemverOrder.PrecedenceIsTotalOrder | internal/app/agent/filter.go:137-148 | Version precedence is antisymmetric, total and transitive, and equal only on equal versions |
| SemverOrder.PrecedenceIsSection11 | internal/app/agent/filter.go:137-148 | The comparison is the one of section 11 of Semantic Versioning 2.0.0, spelled out rule by rule: the core decides first, a version with identifiers is below the same core without, the first identifier that differs decides, numbers by value and below texts, and a list that ends is below the longer one |
| SemverOrder.CandidateMeans | internal/app/agent/filter.go:150-172 | A version is a candidate iff it is above the current one by those rules and its kind is listed, or no kind is listed and the major number is the same; a pre-release of a plain current version never is |
| SemverOrder.SortDescendingSorts | internal/app/agent/filter.go:37-40 | The sorted list is a permutation of the input in descending precedence |
| SemverOrder.SelectedMeans | internal/app/agent/filter.go:28-36 | Exactly the listed tags that parse to a candidate are selected, with their versions |
| SemverOrder.CandidateImageTags | internal/app/agent/filter.go:16-40 | Each tag is in the result exactly as often as it was listed if it parses to a version above the current one that the filter permits, and not at all otherwise; no tag stands in front of a higher one; nothing is returned when the current tag does not parse |
| SemverProbe.ProbeFindsEdge | internal/app/agent/discovery.go:206-252 | For any oracle: not found iff the first probe says so; a found value exists and its successor does not, save at the largest step; aborting has a cause |
| SemverProbe.ProbeExact | internal/app/agent/discovery.go:206-252 | On an oracle true exactly on [s, s+d] the result is s+d after exactly 2*floor(log2 d)+3 probes, 2 for d = 0 |
| SemverProbe.BisectLoop | internal/app/agent/discovery.go:227-240 | The wrapping 64-bit loop computes what the unbounded search does whenever no midpoint sum leaves the range |
| SemverProbe.GallopLoop | internal/app/agent/discovery.go:218-251 | The doubling loop computes what the unbounded search does and terminates, the exit on a negative step included |
| SemverProbe.ProbeContiguous | internal/app/agent/discovery.go:206-252 | The whole function in 64-bit arithmetic equals the unbounded search unless it overflows |
| SemverProbe.OverflowsIff | internal/app/agent/discovery.go:227-229 | On a row true exactly on [s, s+d] with s below 2^60 the search overflows iff s > 0 and d lies within twice the leading power of two of s below 2^62 |
| SemverDiscovery.RowTop | internal/app/agent/discovery.go:206-252 | On a row of versions without holes the search ends at its highest value |
| SemverDiscovery.PhaseOfferSound | internal/app/agent/discovery.go:145-199 | What a patch, minor or major phase offers exists, is newer and is allowed; a failing phase had a failing lookup |
| SemverDiscovery.PhaseBest | internal/app/agent/discovery.go:145-199 | On a registry without gaps a phase offers the highest version of its kind, or there is none |
| SemverDiscovery.ConsiderKind | internal/app/agent/discovery.go:136-199 | After a phase the best offer so far is the highest of all kinds considered |
| SemverDiscovery.ProbeSemverImageTag | internal/app/agent/discovery.go:118-204 | For any registry an offer exists, is newer and allowed; on a gap-free one above a plain current version it is the highest candidate, and no offer means there is none |
| SemverDiscovery.ProbeIsHeadOfCandidates | internal/app/agent/discovery.go:118-204 | On a gap-free registry the probe offers the head of the sorted candidate list, and nothing iff that list is empty |
| ExecutionSafety.PersistKeeps | internal/app/agent/task_execution.go:83-116 | Replacing the record, also when the write is not installed or is installed and reported as failed, keeps the invariant |
| ExecutionSafety.SendKeeps | internal/app/agent/task_lifecycle.go:61-84 | Sending an outcome, lost or not, keeps one status per execution and agreement with what is on disk |
| ExecutionSafety.Step | internal/app/agent/task_execution.go:148-199 | Every step of agent, controller and environment, crashes included, keeps the execution invariant |
| ExecutionSafety.Always | internal/app/agent/run.go:339-420 | The execution invariant holds in every reachable state |
| ExecutionResults.AtMostOneStatus | internal/app/agent/task_execution.go:243-257 | Over all crashes, persist failures, lost responses and timeouts no execution has both a success and a failure sent for it |
| ExecutionResults.DurableStatusIsFinal | internal/app/agent/task_execution.go:148-199 | Once a status is on disk it is the only one ever sent, before and after |
| ExecutionResults.CompletionOnDiskIsSettled | internal/app/agent/task_execution.go:243-257 | Whatever completion the file holds counts as settled for its execution |
| ExecutionResults.RecordedStatusWasSent | internal/platform/store/tasks.go:739-815 | The controller records from the agent only outcomes the agent sent |
| ExecutionResults.StoreMovesIff | internal/platform/store/tasks.go:680-883 | At every step of every run an execution at the controller changes exactly as listed, and when it can: offered by a pull, accepted only before its lease ran out, withdrawn or lost by expiry, running again by a renewal, completed only by the agent's report of that outcome or given up as failed |
| ExecutionResults.AcceptsIff | internal/app/controller/agent_report.go:428-496 | A backup result is accepted iff the agent that holds it sends it, the call arrives, the execution still runs and no stored result contradicts it |
| ExecutionResults.RecordTakes | internal/app/agent/task_execution.go:243-272 | The first stored result of a data name decides: a repeated one changes nothing, a different one is refused, a new one goes last; an outcome is stored iff no result is outstanding and none was stored before |
| ExecutionResults.CompletionNeverOverwritten | internal/platform/store/tasks.go:739-883 | A completed execution keeps its outcome whatever is reported, swept or failed later |
| ExecutionResults.BodyStartsOnce | internal/app/agent/run.go:339-389 | A task body starts at most once per execution id, over all crashes |
| ExecutionResults.BodyStartsAcknowledged | internal/app/agent/run.go:371-381 | The step that starts a body leaves an acknowledged, uncompleted record of that execution on disk |
| ExecutionResults.WithdrawnNeverRuns | internal/platform/store/tasks.go:817-844 | Once an offer was withdrawn its body never starts, before or after, and the controller never records an outcome for it |
| ExecutionResults.CutOffNeverSucceeds | internal/app/agent/task_execution.go:177-183 | An execution whose record holds no outcome at a crash never succeeds: no success is sent, made durable or recorded for it in any continuation |
| ExecutionResults.PullsWithoutRecord | internal/app/agent/run.go:340-352 | A new execution is handed only to an agent that holds no record in memory or on disk |
| ExecutionResults.NothingStartsWhileRecordRemains | internal/app/agent/task_execution.go:148-199 | After a crash anywhere, through any number of further crashes, nothing is pulled or started while the record remains |
| ExecutionResults.BackupsBeforeCompletion | internal/app/agent/task_execution.go:168-175 | A status is sent only after every backup result that reached the disk for that execution was accepted |
| ExecutionResults.DropsOnlyAccepted | internal/app/agent/task_execution.go:274-282 | Removing the first stored result only ever removes one the controller accepted, and it was the only one stored |
| ExecutionProgress.UndisturbedTaskCompletes | internal/app/agent/run.go:339-420 | From every state in which the agent may pull there is a continuation that starts the next execution, gets all its backup results accepted and its outcome recorded as the body reported it, and leaves no record |
| ExecutionProgress.RecoveryEndsIff | internal/app/agent/task_execution.go:148-199 | From the start of a turn, after any run, recovery can still end with an empty file iff no backup result is stored or its execution still runs at the controller |
| ExecutionProgress.BlockedForever | internal/app/agent/task_execution.go:168-175 | Otherwise the file stays as it is in every continuation, and nothing is ever pulled or started again |
| ExecutionProgress.BlockedIsReachable | internal/platform/store/tasks.go:846-883 | A run gets there: a crash between storing and delivering a result, an expired lease, and the operator giving the execution up |
| TaskExecutionRuntime.Runtime.StoreCompletion | internal/app/agent/task_execution.go:243-257 | Memory takes the outcome before the disk, and keeps it when the disk fails |
| TaskExecutionRuntime.Runtime.StoreBackupResult | internal/app/agent/task_execution.go:259-272 | Memory takes the backup result before the disk, and keeps it when the disk fails |
| TaskExecutionRuntime.Runtime.RemoveFirstBackupResult | internal/app/agent/task_execution.go:274-282 | The first stored result is dropped from memory, and from disk when the write installs |
| TaskExecutionRuntime.Controller.AcknowledgeTask | internal/platform/store/tasks.go:680-699 | Acknowledging is accepted and recorded as the machine's store does |
| TaskExecutionRuntime.Controller.ReportTaskState | internal/platform/store/tasks.go:739-815 | An outcome is recorded once, accepted again when equal and rejected when different |
| TaskExecutionRuntime.Controller.Act | internal/platform/store/tasks.go:701-883 | Renewals, sweeps and giving up on a lost execution are the machine's environment steps |
| TaskExecutionRuntime.Agent.Recover | internal/app/agent/task_execution.go:148-199 | Recovery is a run of the machine that starts no body; when it succeeds no record is left |
| TaskExecutionRuntime.Agent.AcceptRecovered | internal/app/agent/task_execution.go:154-166 | An unacknowledged record is acknowledged, or discarded when the controller refuses it |
| TaskExecutionRuntime.Agent.DrainBackups | internal/app/agent/task_execution.go:168-175 | The loop ends with no stored result left, or with the turn over |
| TaskExecutionRuntime.Agent.ReportRecoveredOutcome | internal/app/agent/task_execution.go:177-198 | An execution without outcome is failed durably before it is reported; success leaves no record |
| TaskExecutionRuntime.Agent.ReportBackupResult | internal/app/agent/task_lifecycle.go:121-145 | Success means the controller accepted this very result; a failure comes from a failed write or from giving up; no outcome is sent, no crash or start happens in between |
| TaskExecutionRuntime.Agent.SendUntilAccepted | internal/app/agent/task_lifecycle.go:129-144 | The retry loop ends accepted, or gives up with the result still stored; it sends no outcome |
| TaskExecutionRuntime.Agent.ReportTaskCompletion | internal/app/agent/task_lifecycle.go:57-84 | Success means the controller holds this outcome and the agent no record; no other status is sent or made durable, for this or any other execution |
| TaskExecutionRuntime.Agent.ExecuteBackupTask | internal/app/agent/backup_restore_tasks.go:22-68 | Success means every item succeeded and was accepted and the controller holds the success. Exactly one outcome is reported by the body: a success only if no step failed and every item succeeded, a failure only if a step or an item failed or a write or report did. When a step or an item failed no success was sent, is durable or is recorded |
| TaskExecutionRuntime.Agent.ExecutePulledTask | internal/app/agent/run.go:391-420 | A body that failed gets one Failed from the wrapper unless the agent is stopping, one that succeeded gets none; when a step or an item failed no success was sent, is durable or is recorded |
| TaskExecutionRuntime.Agent.AcceptTask | internal/app/agent/run.go:343-375 | A runtime is returned iff exactly one new execution was started, with its acknowledged record in memory and on disk |
| TaskExecutionRuntime.Agent.PollAndRunTask | internal/app/agent/run.go:339-389 | One turn starts at most one body and gives up memory only after it ended; success of a started body means all its results were accepted and the controller holds its success; when a step or an item of it failed no success was sent, is durable or is recorded |
| DockerQuerySafety.Step | internal/app/controller/docker_query_bridge.go:121-337 | Every broker call and every step of a waiting request keeps the broker invariant |
| DockerQuerySafety.Always | internal/app/controller/docker_query_bridge.go:121-337 | The broker invariant holds in every reachable state |
| DockerQueryResults.InOnePlace | internal/app/controller/docker_query_bridge.go:121-228 | At all times a query is in at most one of the queues, the assignments, the results and the popped results |
| DockerQueryResults.LifeStep | internal/app/controller/docker_query_bridge.go:121-287 | Every step moves a query only forward: queued, assigned, answered, popped, or dropped |
| DockerQueryResults.EndsOnce | internal/app/controller/docker_query_bridge.go:215-287 | A popped result is never popped again and a dropped query never returns |
| DockerQueryResults.PullsOwnQuery | internal/app/controller/docker_query_bridge.go:140-159 | A query is handed out at most once, to the node it was enqueued for, as it was enqueued |
| DockerQueryResults.PullServesFirst | internal/app/controller/docker_query_bridge.go:140-159 | A pull hands out and assigns the first query in the node's queue that has not expired; only when there is none does it return empty-handed |
| DockerQueryResults.PullsInEnqueueOrder | internal/app/controller/docker_query_bridge.go:121-159 | What a node pulled followed by what waits for it is exactly what was enqueued for it minus cancelled and expired queries, in order |
| DockerQueryResults.PopsOwnResult | internal/app/controller/docker_query_bridge.go:194-228 | Each popped result belongs to a pulled query, was stored by that query's node, and is popped once |
| DockerQueryResults.ResultsWereReported | internal/app/controller/docker_query_bridge.go:194-228 | Every result that is stored or was popped is, payload included, one that the run contains as a report by the node its query was assigned to at that moment |
| DockerQueryResults.ReportStoredIff | internal/app/controller/docker_query_bridge.go:194-213 | A report is stored as it is, for a minute beyond the query's expiry, iff its query is assigned to the reporting node and has not expired; any other adds nothing |
| DockerQueryResults.NoLostWakeUp | internal/app/controller/docker_query_bridge.go:161-213 | In every interleaving a request that is blocked while its result is present has a token in its channel |
| DockerQueryResults.BlockedRequestIsServed | internal/app/controller/docker_query_bridge.go:289-319 | Such a request, woken before the result expires, returns that result in two steps and removes it |
| DockerQueryResults.TtlCoversWait | internal/app/controller/docker_query_bridge.go:254-260 | A query lives 90 seconds, or 60 beyond a longer timeout, and is waited for 30 seconds, or 5 beyond a longer timeout; the lifetime exceeds the wait by 55 to 60 seconds, 55 exactly from 30 seconds on |
| DockerQueryResults.SweepSparesLiveRequest | internal/app/controller/docker_query_bridge.go:412-440 | No sweep removes the query of a request that began to wait within 55 seconds and has not timed out |
| DockerQueryResults.SweepDropsExpired | internal/app/controller/docker_query_bridge.go:262-287 | A sweep drops exactly the waiting and assigned queries at their expiry and the results a minute later; everything else stays where it is |
| DockerQueryResults.CancelDropsOne | internal/app/controller/docker_query_bridge.go:230-252 | A cancellation drops its query wherever it waits, and leaves every other one in place |
| DockerQueryBroker.CompactInPlace | internal/app/controller/docker_query_bridge.go:263-270 | Filtering a queue into its own front equals the filter of the old contents |
| DockerQueryBroker.QueryBroker.CompactQueues | internal/app/controller/docker_query_bridge.go:263-276 | Every node's queue is filtered and emptied queues are dropped from the map |
| DockerQueryBroker.QueryBroker.SweepExpired | internal/app/controller/docker_query_bridge.go:262-287 | Exactly the unexpired queries, assignments and results remain |
| DockerQueryBroker.QueryBroker.Enqueue | internal/app/controller/docker_query_bridge.go:121-138 | The call does to the three maps what the machine's step does, with the expiry from the timeout |
| DockerQueryBroker.QueryBroker.Pull | internal/app/controller/docker_query_bridge.go:140-159 | The call is the machine's pull, result included |
| DockerQueryBroker.QueryBroker.StoreResult | internal/app/controller/docker_query_bridge.go:194-213 | The call is the machine's store, of which `ResultsWereReported` and `ReportStoredIff` say what is stored: unknown and foreign queries are refused and nothing changes for them |
| DockerQueryBroker.QueryBroker.PopResult | internal/app/controller/docker_query_bridge.go:215-228 | The call is the machine's pop |
| DockerQueryBroker.QueryBroker.Cancel | internal/app/controller/docker_query_bridge.go:230-252 | The query is gone from queues, assignments and results |
| DockerQueryBroker.QueryServer.NotifyResult | internal/app/controller/docker_query_bridge.go:330-337 | Exactly the channels subscribed to the query gain a token; none of them is closed |
| DockerQueryBroker.QueryServer.SubscribeResult | internal/app/controller/docker_query_bridge.go:161-173 | The request starts to wait with its own open, empty, subscribed channel |
| DockerQueryBroker.QueryServer.UnsubscribeResult | internal/app/controller/docker_query_bridge.go:175-192 | The channel leaves its set and is closed, for the first time; other subscriptions stay |
| DockerQueryBroker.QueryServer.Select | internal/app/controller/docker_query_bridge.go:306-318 | The select either takes the token and checks again or cancels the query and returns nothing |
| DockerQueryBroker.QueryServer.Turn | internal/app/controller/docker_query_bridge.go:297-318 | One turn with other goroutines running in between returns only a result popped for this query |
| DockerQueryBroker.QueryServer.WaitResult | internal/app/controller/docker_query_bridge.go:289-319 | The call ends with its channel unsubscribed and closed, and with a result only if it is the one popped for its query, payload included as the query's node reported it in the history |
| ExecTunnelSafety.CloseWhereKeeps | internal/app/controller/exec_tunnel.go:482-491 | A loop that closes sessions while iterating over them, in any order, closes exactly the selected ones and keeps the invariant |
| ExecTunnelSafety.Step | internal/app/controller/exec_tunnel.go:102-343 | Every manager call in any interleaving keeps the invariant over both heaps and the three maps |
| ExecTunnelSafety.Always | internal/app/controller/exec_tunnel.go:102-343 | The manager invariant holds in every reachable state |
| ExecTunnelSafety.ChannelDiscipline | internal/app/controller/exec_tunnel.go:102-131 | No interleaving sends on a closed channel or closes one twice; a tunnel's channel is open iff it is registered, a session's iff the session is listed |
| ExecTunnelSafety.TokensAreInverse | internal/app/controller/exec_tunnel.go:160-200 | Tokens and sessions are inverse indexes over live sessions no browser has taken; a session is never attaching and taken |
| ExecTunnelSafety.ConfirmedOnce | internal/app/controller/exec_tunnel.go:263-282 | At most one attach of a session is ever confirmed, and it is taken iff one was |
| ExecTunnelSafety.ConfirmExactly | internal/app/controller/exec_tunnel.go:263-282 | A confirm succeeds iff the token is known, unexpired and reserved; then it is consumed, otherwise no session becomes taken |
| ExecTunnelMessages.ReserveExactly | internal/app/controller/exec_tunnel.go:248-261 | A reservation succeeds iff the token is known and unexpired and no browser is attaching; it marks that session and changes nothing else. An expired token closes exactly its session; any other refusal changes nothing |
| ExecTunnelMessages.ReleaseExactly | internal/app/controller/exec_tunnel.go:284-293 | Giving a reservation up unmarks the session of an unexpired token and changes nothing else |
| ExecTunnelSafety.ClosedForGood | internal/app/controller/exec_tunnel.go:321-343 | A closed channel stays closed and its reader sees only what was in it |
| ExecTunnelSafety.SweepExactly | internal/app/controller/exec_tunnel.go:482-491 | A sweep closes a session iff it is neither taken nor attaching and its token has expired |
| ExecTunnelSafety.UnregisterClosesItsSessions | internal/app/controller/exec_tunnel.go:117-131 | When an agent's tunnel goes away exactly the sessions of its node go too |
| ExecTunnelSafety.OpenExactly | internal/app/controller/exec_tunnel.go:160-200 | A session opens iff the node's tunnel has room for the start message, which then is the last one in it; the session is new, unclaimed and open, and its token runs 60 seconds; otherwise the maps are as before |
| ExecTunnelMessages.CloseExactly | internal/app/controller/exec_tunnel.go:301-319 | Closing a listed session removes exactly it and its token and closes its channel with what is in it; its node's tunnel, if registered and with room, gets exactly one close message for it, and no other channel changes. Closing any other session does nothing |
| ExecTunnelMessages.SweepTells | internal/app/controller/exec_tunnel.go:482-491 | A sweep gives each registered tunnel exactly the close messages of the sessions on its node that the sweep closes, in the order of its visits and as far as there is room; all other tunnels stay |
| ExecTunnelMessages.ClosesAreSelected | internal/app/controller/exec_tunnel.go:482-491 | Those messages are the closes of the visited, listed, selected sessions on the node, each once |
| ExecTunnelMessages.RegisterExactly | internal/app/controller/exec_tunnel.go:102-115 | A connecting agent gets a new open, empty tunnel; the one before is closed with its contents, and no session changes |
| ExecTunnelMessages.UnregisterTellsNobody | internal/app/controller/exec_tunnel.go:117-131 | A tunnel that goes away is closed with its contents, no other channel of an agent changes, and a tunnel that was replaced before changes nothing at all |
| ExecTunnelMessages.SendExactly | internal/app/controller/exec_tunnel.go:202-229 | A message arrives, last and alone, iff the session is listed and its node has a tunnel with room; a full tunnel closes exactly that session and is told nothing; otherwise nothing changes |
| ExecTunnelMessages.DeliverExactly | internal/app/controller/exec_tunnel.go:231-246 | What an agent says enters the browser's channel, last and unchanged, iff the session is open with room; otherwise nothing changes |
| ExecTunnelManager.TunnelManager.RegisterTunnel | internal/app/controller/exec_tunnel.go:102-115 | Registering replaces a node's tunnel and closes the old channel, as the machine does |
| ExecTunnelManager.TunnelManager.UnregisterTunnel | internal/app/controller/exec_tunnel.go:117-131 | A replaced tunnel is ignored; otherwise the machine's unregister over every session |
| ExecTunnelManager.TunnelManager.CloseSession | internal/app/controller/exec_tunnel.go:295-319 | Closing is the machine's, of which `CloseExactly` says what becomes of the session, its token and the tunnels, and does nothing the second time |
| ExecTunnelManager.TunnelManager.CloseSelected | internal/app/controller/exec_tunnel.go:482-491 | The loop visits every session that was listed, and is the machine's closing in the order of its visits |
| ExecTunnelManager.TunnelManager.SweepExpiredSessions | internal/app/controller/exec_tunnel.go:146-150 | The sweep is the machine's, over every session |
| ExecTunnelManager.TunnelManager.OpenSession | internal/app/controller/exec_tunnel.go:160-200 | Sweep and open together are one step of the machine, with the undo when the send fails |
| ExecTunnelManager.TunnelManager.SendToSessionNode | internal/app/controller/exec_tunnel.go:202-229 | The message reaches the open channel of the session's node or is refused, as in the machine |
| ExecTunnelManager.TunnelManager.Deliver | internal/app/controller/exec_tunnel.go:231-246 | A message goes to an open session with room, or is dropped |
| ExecTunnelManager.TunnelManager.SessionForAttachToken | internal/app/controller/exec_tunnel.go:493-511 | The lookup and its side effects on expired tokens are the machine's |
| ExecTunnelManager.TunnelManager.ReserveSessionAttach | internal/app/controller/exec_tunnel.go:248-261 | Reserving after a sweep is the machine's |
| ExecTunnelManager.TunnelManager.ConfirmSessionAttach | internal/app/controller/exec_tunnel.go:263-282 | Confirming after a sweep is the machine's |
| ExecTunnelManager.TunnelManager.ReleaseSessionAttach | internal/app/controller/exec_tunnel.go:284-293 | Releasing after a sweep is the machine's |
| ContainerLogSafety.Step | internal/app/controller/container_log_tunnel.go:53-186 | Every call, and each of the three stages of a delivery, keeps the invariant in any interleaving |
| ContainerLogSafety.Always | internal/app/controller/container_log_tunnel.go:53-186 | The invariant holds in every reachable state |
| ContainerLogSafety.ChannelDiscipline | internal/app/controller/container_log_tunnel.go:164-186 | No interleaving sends on a closed channel or closes one twice; a tunnel's channel is open iff registered; a listed session is open |
| ContainerLogMessages.RegisterExactly | internal/app/controller/container_log_tunnel.go:53-66 | A connecting agent gets a new open, empty tunnel; the one before is closed with its contents, and no session changes |
| ContainerLogMessages.OpenExactly | internal/app/controller/container_log_tunnel.go:92-120 | A session opens iff the node's tunnel has room: then it is listed, open and empty, and that tunnel gets exactly one start request for it; otherwise lists and tunnels are as before |
| ContainerLogMessages.CloseExactly | internal/app/controller/container_log_tunnel.go:122-137 | Closing a listed session removes exactly it and closes its channel with what is in it; its node's tunnel, if registered and with room, gets exactly one close request for it; closing any other session does nothing |
| ContainerLogMessages.UnregisterExactly | internal/app/controller/container_log_tunnel.go:68-83 | With a tunnel go exactly the sessions on its node, closed and with their contents; no other tunnel changes and nobody is told |
| ContainerLogMessages.ReplacedTunnelIsIgnored | internal/app/controller/container_log_tunnel.go:68-73 | When a tunnel that was replaced goes away nothing happens |
| ContainerLogMessages.BeginExactly | internal/app/controller/container_log_tunnel.go:146-154 | A delivery starts iff its session is listed, and a terminal message unlists exactly that session at once |
| ContainerLogMessages.SendExactly | internal/app/controller/container_log_tunnel.go:164-176 | A message enters its session's channel, last and unchanged, iff the session is open with room; no other channel changes |
| ContainerLogMessages.FinishExactly | internal/app/controller/container_log_tunnel.go:155-161 | A failed delivery closes its session as any close does if that is still listed; a delivered terminal message closes the channel and tells nobody |
| ContainerLogSafety.RemovedIsClosedIff | internal/app/controller/container_log_tunnel.go:122-162 | Over every run a removed session with no terminal message on its way is closed iff none of its terminal messages met a full buffer |
| ContainerLogSafety.TerminalClosesIffRoom | internal/app/controller/container_log_tunnel.go:139-162 | Delivering a terminal message removes the session, and closes its channel iff the buffer has room |
| ContainerLogSafety.AbandonedForGood | internal/app/controller/container_log_tunnel.go:139-162 | A session removed without being closed is never closed by any later event |
| ContainerLogSafety.AbandonedIsReachable | internal/app/controller/container_log_tunnel.go:164-176 | A run reaches such a session: a reader a full buffer behind at the last message |
| ContainerLogManager.LogTunnelManager.RegisterTunnel | internal/app/controller/container_log_tunnel.go:53-66 | Registering is the machine's, the old channel closed once |
| ContainerLogManager.LogTunnelManager.UnregisterTunnel | internal/app/controller/container_log_tunnel.go:68-83 | The loop over all sessions is the machine's unregister |
| ContainerLogManager.LogTunnelManager.OpenSession | internal/app/controller/container_log_tunnel.go:92-120 | Opening, and its undo when the tunnel is full, is the machine's |
| ContainerLogManager.LogTunnelManager.CloseSession | internal/app/controller/container_log_tunnel.go:122-137 | Closing is the machine's, the stop request included |
| ContainerLogManager.LogTunnelManager.LookUp | internal/app/controller/container_log_tunnel.go:146-154 | A delivery starts iff its session is listed, and a terminal message unlists it at once |
| ContainerLogManager.LogTunnelManager.Deliver | internal/app/controller/container_log_tunnel.go:164-176 | A message is taken iff the session is open with room; only failed and terminal ones need finishing |
| ContainerLogManager.LogTunnelManager.FinishFailed | internal/app/controller/container_log_tunnel.go:155-158 | A failed send closes the session through the manager, which does nothing when a terminal message had unlisted it |
| ContainerLogManager.LogTunnelManager.FinishSent | internal/app/controller/container_log_tunnel.go:159-161 | After a terminal message was taken the channel is closed, unless it was already |
| ContainerLogManager.LogTunnelManager.DeliverFromAgent | internal/app/controller/container_log_tunnel.go:139-162 | Undisturbed, the whole delivery is the three machine steps; an unknown session changes nothing |
| DnsSync.GatheredIsUnion | internal/app/controller/dns.go:452-463 | Setting what was gathered for a host gives its name exactly the union of all entries for it, type by type |
| DnsSync.AggregatesStep | internal/app/controller/dns.go:452-463 | One entry more is appended to its own host's record sets and to no other |
| DnsSync.ConvergedTwice | internal/app/controller/dns.go:444-505 | A second synchronisation of the same entries changes nothing |
| DnsBatch.DnsClient.SetRecords | internal/app/controller/dns.go:491-502 | Under RRset replacement (section 5 of RFC 2181) only the RRsets of the given records change |
| DnsBatch.DnsClient.DeleteRecords | internal/app/controller/dns.go:478-485 | Only the named RRset changes, and on success it is gone |
| DnsBatch.DnsClient.DeleteStale | internal/app/controller/dns.go:471-485 | On success exactly the RRsets of managed types the host does not declare are gone; a failure stays within the host |
| DnsBatch.DnsClient.SetDeclared | internal/app/controller/dns.go:486-502 | On success the record lists were set one type after the other, in the order of the type names; a failure stays within the host |
| DnsBatch.DnsClient.SyncHost | internal/app/controller/dns.go:469-503 | On success the stale types were deleted and the declared ones set, whatever types the records have; a failure stays within the host |
| DnsBatch.Aggregate | internal/app/controller/dns.go:451-463 | The aggregation loop collects, per zone and host name, the records of all its entries in order |
| DnsBatch.AllHostsDone | internal/app/controller/dns.go:444-505 | When every declared host is done, every desired name holds exactly its union and everything else is as before |
| DnsBatch.SyncedConverges | internal/app/controller/dns.go:444-505 | From every state of the provider, a batch without failures leaves every desired name with exactly its union, and all else as before, when records are filed under their own type |
| DnsBatch.ConvergesIffWellFormed | internal/app/controller/dns.go:444-505 | A batch without failures converges from every state of the provider iff every record is filed under its own type |
| DnsBatch.DnsClient.SyncServiceDNSBatch | internal/app/controller/dns.go:444-505 | On success every declared host was synchronised, and the provider holds exactly what the entries declare if their records are filed under their own type; on failure nothing outside the declared names and managed types changed |
| DnsBatch.GroupByProvider | internal/app/controller/dns.go:402-430 | Grouping succeeds iff every entry resolves, and keeps each provider's entries in order |
| DnsBatch.SyncServiceDNSForService | internal/app/controller/dns.go:394-442 | An entry that cannot be resolved stops everything before the first write; success converges every provider whose records are filed under their own type |
| DnsDesired.SortByLength | internal/app/controller/dns.go:277-279 | The zones are permuted so that no longer name follows a shorter one |
| DnsDesired.MatchingZone | internal/app/controller/dns.go:272-288 | The result is a zone the host lies in with the greatest length, its trailing dot added; none iff the host lies in none |
| DnsDesired.BelowMeans | internal/app/controller/dns.go:280-285 | A host lies in a zone iff its name is the zone's, possibly after labels of its own and a dot, case and trailing dots aside |
| DnsDesired.MatchIsUnique | internal/app/controller/dns.go:277-285 | The order by length with trailing dots counted never prefers a shorter name, and two zones of one host that it ranks equal are the same name |
| DnsDesired.ValueIsWellFormed | internal/app/controller/dns.go:309-343 | An explicit value gives exactly one record, with that value, name and lifetime and filed under its own type, iff the type asked for fits the value |
| DnsDesired.NodeRecordsExactly | internal/app/controller/dns.go:345-392 | A node gives exactly one record for each field that the type asked for uses, under the type the field is named for, with that address, name and lifetime; it gives none when such a field is missing or is no address |
| DnsDesired.NodeIsWellFormedIff | internal/app/controller/dns.go:345-392 | Records for a node are filed under their own type iff the addresses used are of the family their field says |
| DnsDesired.NodesConvergeIff | internal/app/controller/dns.go:345-392 | A batch of node entries without failures converges from every state of the provider iff every address it uses is of the family its field is named for, in public_ipv4 and public_ipv6 alike |
| DnsDesired.WrongFamilyKeepsOldRecords | internal/app/controller/dns.go:345-392 | With one address of the wrong family, in either field, the old records of the type that field stands for survive the synchronisation of the host |
| CliConfigFormat.ParseOfRender | internal/app/cli/config.go:336-387 | Loading what was saved gives every value trimmed, or fails exactly for a line too long or two token sources |
| CliConfigFormat.ParsedIsClean | internal/app/cli/config.go:336-362 | Whatever text loads gives trimmed, non-empty, single-line values and at most one token source |
| CliConfigFormat.RoundTripIff | internal/app/cli/config.go:336-387 | A configuration survives saving and loading iff its values are trimmed and single-line, its lines fit and it has one token source at most |
| CliConfigFormat.RenderExactly | internal/app/cli/config.go:364-387 | The saved text, spelled out: one line for each of addr, token, token_file and token_keyring that is set, in this order |
| CliConfigFormat.CommentsAreSkipped | internal/app/cli/config.go:339-343 | A blank line, or one whose first visible character is a number sign, may stand between any two lines of a file, or be taken out, without any effect on what loads |
| CliConfigFormat.LineBreakStartsLine | internal/app/cli/config.go:364-387 | What follows a line break inside a saved value is read as a line of its own: the exact result of loading, whether it is skipped, fails or sets a key |
| CliConfigFormat.LineBreakBreaksFile | internal/app/cli/config.go:364-387 | Without an equals sign, blank lines and comments aside, it makes the saved file unreadable |
| CliConfigFormat.LineBreakSetsKey | internal/app/cli/config.go:364-387 | If it is a line for another key the file loads and that key is set |
| CliConfigCommands.LoadedIsGood | internal/app/cli/config.go:320-362 | A configuration that was loaded can be saved and loaded again |
| CliConfigCommands.SetSucceedsIff | internal/app/cli/config.go:70-106 | `config set` succeeds, deletions aside, iff the key is not the token, the value has no line break and no NUL, and the file can be read and written; refused, it changes nothing |
| CliConfigCommands.OthersSucceedIff | internal/app/cli/config.go:108-181 | The same for `config unset`, `set-token` and `unset-token`: exactly when they succeed, and that a refusal changes nothing |
| CliConfigCommands.SetExactly | internal/app/cli/config.go:70-106 | After `config set` saved, the file stays readable iff the new line fits; then the key reads as the trimmed value, a new token source replaced the others and nothing else changed |
| CliConfigCommands.UnsetExactly | internal/app/cli/config.go:108-181 | `config unset` and `unset-token` keep the file readable and clear exactly their keys |
| CliConfigCommands.SetTokenExactly | internal/app/cli/config.go:233-306 | After `config set-token` saved a token that can be stored, the file names one source and the client finds the trimmed token there (resolution as in cli.go 547-598); on success the old default file or keyring entry is gone |
| CliConfigCommands.SetTokenFoundIff | internal/app/cli/config.go:233-306 | A token not held anywhere before is found after it was saved iff it can be stored: inline, on one line that fits |
| CliConfigCommands.SetTokenFoundExactly | internal/app/cli/config.go:233-306 | For every token: it is found after it was saved iff it can be stored, or is an inline one whose own lines name the default token file or a keyring entry that already holds it |
| CliConfigCommands.FailedSetTokenKeepsIff | internal/app/cli/config.go:410-428 | When saving fails, and whether or not the rollback does, the token found before is still found iff the new one did not go to the very place it was in |
| CliConfigCommands.ParseLinesIff | internal/app/cli/config.go:339-354 | Lines load iff each of them does, and the last line that sets a key wins |
| CliConfigCommands.InlineTokenLoadsIff | internal/app/cli/config.go:274-306 | The file of an inline token of any number of lines loads iff its first line fits, every other line is one that loading accepts, and together they name one source at most; then these are the values |
| CliConfigCommands.NextLoadsIff | internal/app/cli/config.go:70-181 | One command, with any of its writes and deletions failing, leaves a readable file readable iff its value fits or the lines of its inline token load |
| CliConfigCommands.UnsetTokenLeavesNothing | internal/app/cli/config.go:149-181 | After `config unset-token` saved no token can be found, and on success the default file and the named keyring entry are gone |
| CliConfigCommands.EverySequenceLoads | internal/app/cli/config.go:487-498 | Over every sequence of commands, failures included, the saved file loads iff each command is of that kind, and then names at most one token source |
| CliConfigCommands.SetKeyringKeepsEntryIff | internal/app/cli/config.go:430-448 | Setting the keyring name keeps the entry it names iff no name was set before, the text is equal, or the trimmed names differ |
| CliConfig.ParseCLIConfig | internal/app/cli/config.go:336-362 | The scanning loop computes the specified parse, errors included |
| CliConfig.ScanLine | internal/app/cli/config.go:337-340 | Each scan splits off exactly the first remaining line |
| CliConfig.ValidateTokenSources | internal/app/cli/config.go:487-498 | Accepted iff at most one token source is set |
| CliConfig.RenderCLIConfig | internal/app/cli/config.go:364-387 | The writing loop produces the specified text, set keys only, in key order |
| CliConfig.CliHome.RunConfigSet | internal/app/cli/config.go:70-106 | The command does to file, token file and keyring what its specification does |
| CliConfig.CliHome.RunConfigUnset | internal/app/cli/config.go:108-125 | The command does to file, token file and keyring what its specification does |
| CliConfig.CliHome.RunConfigSetToken | internal/app/cli/config.go:233-306 | The command, with failing writes, its rollback and its cleanup, does what its specification does |
| CliConfig.CliHome.RunConfigUnsetToken | internal/app/cli/config.go:149-181 | The command does to file, token file and keyring what its specification does |
| MigrationSafety.ApplicableIffNeeded | internal/app/controller/migrate.go:137-234 | The executor's own test whether a step applies agrees with the plan at every step it stands at |
| MigrationSafety.TakeKeeps | internal/app/controller/migrate.go:323-338 | Running a step, whichever of its writes or its body fails, keeps the migration invariant |
| MigrationSafety.LateEffectKeeps | internal/app/controller/task_wait.go:11-46 | The effect of a child task that outlives the wait for it comes after all others and keeps the invariant |
| MigrationSafety.NextKeeps | internal/app/controller/migrate.go:113-298 | Every event, confirmation requests, crashes and the late end of a child task included, keeps the migration invariant |
| MigrationSafety.Always | internal/app/controller/migrate.go:113-298 | The migration invariant holds over every run |
| MigrationResults.StepsInOrder | internal/app/controller/migrate.go:113-270 | Succeeded steps are closed under "earlier step of the plan" |
| MigrationResults.BodiesBeginOnce | internal/app/controller/migrate.go:323-338 | Over the whole life, the pause included, bodies and their effects happen in step order, each at most once |
| MigrationResults.EffectsFollowThePlan | internal/app/controller/migrate.go:113-270 | On the outside world: stop, back up, restore, deploy, DNS, node list, each at most once and in this order, over the whole life |
| MigrationResults.EffectsArePreceded | internal/app/controller/migrate.go:113-270 | ... and each only after every earlier one that the plan calls for: backup and restore with data to move, DNS with names to move |
| MigrationResults.DeployAfterStop | internal/app/controller/migrate.go:137-224 | The target is deployed only after the source was stopped successfully |
| MigrationResults.RestoresTheBackup | internal/app/controller/migrate.go:149-200 | The target gets one artifact per data name, in order, all from the one backup taken of the source before |
| MigrationResults.NodesOnlyAfterConfirmation | internal/app/controller/migrate.go:236-249 | The repository's node list changes only after approval, and only to the source replaced by the target |
| MigrationResults.SuccessIsComplete | internal/app/controller/migrate.go:243-270 | A succeeded migration did every step of its plan, with its effect, and wrote the new node list |
| MigrationProgress.UndisturbedMigrationSucceeds | internal/app/controller/migrate.go:113-298 | For every plan whose backup records every artifact there is a run, in which nothing fails and the confirmation is approved, that ends succeeded |
| MigrationProgress.FailureEndsIt | internal/app/controller/dns.go:223-238 | A step that fails, a backup without every artifact included, fails the migration and itself on record and leaves no step running; when that cannot be recorded the migration stays as it is; either way no executor goes on with it |
| MigrationProgress.ConfirmationDecides | internal/app/controller/task_service.go:234-303 | While the confirmation is open, approving closes its step as succeeded and queues the task again, rejecting cancels both; neither has any effect outside |
| MigrationResults.EndedIsEnded | internal/app/controller/dns.go:223-238 | After failure, cancellation, success or a crash no further body begins and the node list stays; of the outside world at most the effect of one unfinished child task still changes |
| MigrationResults.LateEffectIffUnfinished | internal/app/controller/task_wait.go:11-46 | An effect after the end is still to come in some continuation iff such a child is left, and it is that of the last begun, unsucceeded body |
| MigrationResults.LeavesChildIff | internal/app/controller/migrate.go:323-338 | A step leaves a child unfinished iff its body waits for one and the wait ended first |
| MigrationResults.FailedMigrationStillStops | internal/app/controller/migrate.go:137-147 | A run exists in which a migration on record as failed still stops the service at its source |
| MigrationResults.HandlersWaitForExecutor | internal/app/controller/task_service.go:234-303 | While the executor is at a step, requests to approve or reject and children of old steps change nothing it or they depend on |
| MigrationResults.DnsPrecedesConfirmation | internal/app/controller/migrate.go:226-241 | When confirmation is offered DNS has been synchronised; a rejection leaves the node list unchanged |
| MigrationResults.MigratedNodes | internal/app/controller/migrate.go:372-381 | Replacing keeps length and all other entries, and migrating back restores the list |
| MigrationResults.NothingToMigrate | internal/app/controller/migrate.go:372-381 | Without the source in the list nothing changes |
| MigrationExecutor.MigrateTask.UpsertTaskStep | internal/platform/store/tasks.go:1103-1158 | A terminal step is never overwritten; writing the same status again succeeds |
| MigrationExecutor.MigrateTask.CompleteTask | internal/platform/store/tasks.go:600-644 | Completing succeeds iff the task has not ended, and gives running steps its status |
| MigrationExecutor.MigrateTask.FailTask | internal/app/controller/dns.go:223-238 | The step and the task fail together, or nothing changes when the store refuses |
| MigrationExecutor.MigrateTask.CaptureItems | internal/app/controller/migrate.go:168-174 | The loop collects one item per data name in order, or none when one is missing or empty |
| MigrationExecutor.MigrateTask.RunStep | internal/app/controller/migrate.go:323-338 | Opening, body, closing and failure handling of a step are one machine step |
| MigrationExecutor.MigrateTask.TryStep | internal/app/controller/migrate.go:137-249 | A step is run iff it applies and has not succeeded; either way the executor advances by one or stops |
| MigrationExecutor.MigrateTask.AwaitConfirmation | internal/app/controller/migrate.go:236-241 | The migration goes on iff the confirmation succeeded before, and pauses or fails otherwise |
| MigrationExecutor.MigrateTask.EnterAwaitingConfirmation | internal/app/controller/migrate.go:281-298 | Step and task await together, or the failure handling applies |
| MigrationExecutor.MigrateTask.FinalizeTask | internal/app/controller/migrate.go:251-269 | The last step ends the execution, succeeded or failed as its writes go |
| MigrationExecutor.MigrateTask.ExecuteMigrateTask | internal/app/controller/migrate.go:113-270 | From the claim on, the execution is a run of executor steps only, and stops where the machine stops |
| MigrationExecutor.MigrateTask.ResolveConfirmation | internal/app/controller/task_service.go:234-303 | Success moves step and task together to approved and pending or to cancelled; otherwise the task is as before; no body or effect happens |
| ConfigReloadSafety.FrozenFieldsNeverChange | internal/app/controller/reload.go:68-95 | Over every interleaving of edits, outside writes and reloads the running configuration keeps the listen address it started with, and its repository, state and log directories as cleaned paths |
| ConfigReloadSafety.CandidatePassesIff | internal/app/controller/reload.go:68-95 | A candidate may follow the running configuration iff it loads with the same listen address and the same three directories as cleaned paths |
| ConfigReload.ControllerProcess.ValidateReload | internal/app/controller/reload.go:68-95 | The loop over the four fields accepts iff all four comparisons hold |
| ConfigReloadSafety.ServesOnlyWhileUp | internal/app/controller/bootstrap.go:110-147 | Whatever goes wrong with a reload, the loop never serves without a runtime: when the new one does not come up the old one is started again or the process ends |
| ConfigReloadSafety.WritesAreCompareAndSwap | internal/app/controller/controller_config.go:694-770 | With everyone taking the lock, each install replaced exactly its base, each restore exactly the candidate it undoes, and nothing else changed the file |
| ConfigReloadSafety.SameBaseNeedsRestore | internal/app/controller/controller_config.go:124-217 | Of two installs with one base revision the later needs another write that put the base back |
| ConfigReloadSafety.ExternalWriteCanBeLost | internal/app/controller/controller_config.go:747-770 | A run exists in which a restore overwrites a change made without the lock |
| ConfigReloadSettled.Step | internal/app/controller/bootstrap.go:54-151 | Every step of one edit and of reloads asked for in any way around it keeps file, requests, running text and edit in agreement |
| ConfigReloadSettled.Always | internal/app/controller/bootstrap.go:54-151 | That agreement holds in every run of one edit from a settled state |
| ConfigReloadSettled.SettledTogether | internal/app/controller/bootstrap.go:54-166 | Over every run with edits one after the other, none of them undone, and reloads asked for at any time: whenever all has settled the file is what the running configuration was loaded from |
| ConfigReloadSettled.EditEndsOneWayOrTheOther | internal/app/controller/controller_config.go:124-217 | Whatever reloads are asked for meanwhile: an edit that was queued ends with file and running configuration both at the candidate or both at the previous text, one that wrote nothing with both as before, and one that was undone with both as before unless its candidate came up |
| ConfigReloadSettled.UndoneEditIff | internal/app/controller/controller_config.go:207-215 | After an undone edit file and running configuration end together iff no runtime from the candidate came up, or a later reload of the base came up or fell back on the candidate |
| ConfigReloadSettled.RefusedCandidateRuns | internal/app/controller/bootstrap.go:66-148 | A run exists in which an untagged reload takes up the candidate of an edit that is refused and undone: the file names the base, the candidate runs |
| ConfigReload.ControllerProcess.CheckCandidate | internal/app/controller/controller_config.go:137-192 | A candidate passes iff the file still is the base it names and can be read again, and the candidate differs from it, loads, and has the same listen address and the same three cleaned directories |
| ConfigReload.ControllerProcess.InstallAndQueue | internal/app/controller/controller_config.go:193-209 | The file is replaced and a tagged reload queued, the queue full counting as a refusal |
| ConfigReload.ControllerProcess.UndoEdit | internal/app/controller/controller_config.go:210-215 | A refused edit puts its base back, or leaves its candidate and says so |
| ConfigReload.ControllerProcess.UpdateEditableConfig | internal/app/controller/controller_config.go:124-217 | Success means the candidate is in the file, with its reload queued when it differs; a refusal leaves the file as it was unless the undo failed, which the call reports |
| ConfigReload.ControllerProcess.RestoreActive | internal/app/controller/bootstrap.go:131-135 | The loop's restore brings back the running text, or the process ends |
| ConfigReload.ControllerProcess.RollbackQueued | internal/app/controller/bootstrap.go:153-166 | Only a tagged request is undone; an untagged one leaves the file alone |
| ConfigReload.ControllerProcess.Switch | internal/app/controller/bootstrap.go:110-147 | After a switch that the process survives, file and running text agree, at the new text or the old |
| ConfigReload.ControllerProcess.Reload | internal/app/controller/bootstrap.go:84-147 | A tagged reload ends with file and running text together |
| ConfigReload.ControllerProcess.HandleReload | internal/app/controller/bootstrap.go:66-148 | A request tagged with the text in the file ends with both at that text or both at the previous one, also when they were the same |

## Left out

- SemverProbe.ProbeContiguous: needs a start below 2^60 and a search that does not overflow; `SemverProbe.OverflowsIff` says when a row overflows, what the wrapped search then returns is not modelled.
- SemverProbe.GallopLoop: as ProbeContiguous, for the loop alone.
- SemverDiscovery.RowTop: assumes components below 2^60, where the search is proved not to overflow; real version numbers are far below.
- SemverDiscovery.ConsiderKind: as RowTop.
- SemverDiscovery.ProbeSemverImageTag: as RowTop, for the registry and the current version.
- SemverDiscovery.ProbeIsHeadOfCandidates: prerelease and build tags, which the probe never tries, and filters other than semver are not part of the equivalence.
- SemverOrder.CandidateImageTags: the library's sort is modelled as an insertion sort, nothing depends on the order of equal versions, parsing a tag is a parameter, and the filter's list holds nothing but the three kinds of update.
- TaskLogSafety.OrderedSubsequence: no confirmation lost; `TaskLogGroups.LogIsGrouped` and `OrderSurvivesIff` cover runs with both faults.
- DnsBatch.DnsClient.SyncServiceDNSBatch: relative names are a parameter that keeps different host names apart; host names that differ only in letter case are not merged, and provider options are not modelled.
- DnsDesired.MatchingZone: lower-casing is ASCII only, and white space around zone names is not trimmed.
- DnsDesired.MatchIsUnique: zone names that begin with a dot are excluded.
- CliConfigCommands.SetTokenFoundIff: a token that the default token file or the keyring held before is excluded; `SetTokenFoundExactly` covers it.
- ConfigReloadSettled.SettledTogether: edits one after the other and no write without the lock; a second edit whose queueing fails may let the earlier queued reload be skipped.
- ConfigReloadSettled.EditEndsOneWayOrTheOther: nothing is said of an edit whose undo failed, which its call reports.
- ConfigReloadSafety.SameBaseNeedsRestore: writes by programs that do not take the lock are excluded; `ExternalWriteCanBeLost` shows why.
- MigrationExecutor.MigrateTask.ExecuteMigrateTask: confirmation requests and children come between its calls, not within one; `MigrationResults.HandlersWaitForExecutor` shows that nothing is lost by that, and a crash within a step is a failure that is not recorded.
- ConfigReload.ControllerProcess.HandleReload: edits come between the calls of the loop; the machine interleaves them.
- Task log: wrap-around of 64-bit sequence numbers, partial appends, a confirmation that commits and reports failure, backoff and the stream plumbing.
- Task execution: records without a task id, finishing times, the timing of lease renewal, the task types other than backup.
- Broker: the long poll of nodes with its subscribers and retry interval, and query ids that are empty or chosen by the caller.
- Tunnels: web sockets, origin check and the forwarding goroutines; tunnels and sessions are numbered entries of two sequences held by the manager rather than objects of their own, so aliasing is by number. Fresh session ids and tokens are assumed.
- DNS: the providers' own clients; a failed call may leave anything at the RRsets it was about.
- Client configuration: invalid UTF-8, environment variables, `config get`, `setup` and `path`.
- Migration: partial effects of a child task, the second child of a deployment that reloads Caddy, and the rollback task. A migration found running when the controller starts stays running.
- Configuration reload: YAML editing, file modes, path cleaning, and digests that collide.
- RPC, HTTP, SQL, Docker, Git and real time, which are events or parameters here; enum tables, metrics, notifications and the web front end, which would add only easy members.
