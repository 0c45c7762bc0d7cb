# A verified model of the remote-administration server and its agents

The repository is a small remote-administration system: agents keep one connection each to
a server, administrators send commands through the server, and the server can extend
agents with versioned plugins.  This project models the parts where several goroutines or
processes share state, the plugin store, and the places that print text which another program has
to read back, and proves what they promise.

Run `dafny verify dfyconfig.toml` to check everything.

## How the model is laid out

| file | contents |
|---|---|
| `Wrappers.dfy`, `Machines.dfy`, `Text.dfy` | `Option`/`Result`; runs of interleaved systems and the invariance rule; trimming, string order and sorting |
| `Protocol.dfy`, `Agents.dfy` | the messages; the agent: frozen mode, one reply per request, heartbeats, reconnections |
| `Sessions.dfy` | the session manager, with its two maps, connections and one-slot reply channels |
| `Dispatch.dfy`, `DispatchSafety.dfy`, `DispatchHistory.dfy` | any number of dispatches, read loops, agents and timeouts interleaved step by step; the ownership invariant and what follows from it; what a run owes to its steps |
| `Nonces.dfy` | request freshness and the nonce cache, sequential and concurrent |
| `Plugins.dfy`, `PluginRecords.dfy`, `PluginFiles.dfy`, `PluginWriters.dfy`, `PluginStore.dfy` | packages; the meaning of the store operations and their refinement of a plain map; saving and loading; concurrent writers of the file; the store itself with its loops |
| `PowerShell.dfy`, `WindowsArgs.dfy` | the two printers, a reader for each, and the exact conditions under which the reader undoes the printer |
| `ProcessLock.dfy`, `Download.dfy`, `ExecFanout.dfy`, `EventBus.dfy` | lock file, chunked download, parallel exec, bounded event bus |

Code that updates objects in place is a class whose methods are tied by `ensures` to pure
functions of the abstract state (`Manager.Register`, `Evict`, `InstallIn`, `Offer`, ...).  The
concurrent systems are state machines built from the same functions: a state, one action per
atomic step of one goroutine, and a partial step function.  A schedule is any sequence
of actions, so a lemma about all schedules is a lemma about all interleavings.  History variables
(who may finish a channel, what an agent handled, which snapshot a writer holds) are
named as such where they are declared.

## Assumptions

- `core.NewRequestID` gives ids never given before: starting a call with a command id already
  issued is not a step (`Dispatch.DoStart`).
- The accepted skew is a constant, a parameter here; times are in nanoseconds.  The clock does not go back
  (`UTC()` drops the monotonic reading, so this is an assumption about the host); what
  happens otherwise is `BackwardClockAdmitsReplay`.
- `Validate` implies that a package's name and version are non-empty and trimmed (`Plugins.ValidatesNames`).
- The command names of a manifest are the names in its command list.
- Decoding JSON undoes encoding it, for a list of records (`PluginFiles.Faithful`); the empty list reads as an empty list of either kind.
- Decoding base64 (section 4 of RFC 4648) undoes encoding it, and encoded text has no typographic quote.
- The operating system does not remove a file that a live process has open, and the liveness
  test for a process id is right.  `ExclusionIsTheSharingRule` shows that the first is what the lock rests on.
- Writing the plugin file is atomic and succeeds.
- The library sorts return the elements in order; strings are ordered by code point, as UTF-8 bytes are.

## Where the code does less than one might expect

- A heartbeat reads the mode and is sent later, so a heartbeat can say "online" after the reply
  that confirmed a freeze (`HeartbeatCanBeStale`).  What holds is `HeartbeatReportsModeWhenRead`.
- A call can time out although the answer is already in its channel (`TimeoutCanBeatTheAnswer`).
- The first installation of a plugin keeps the manifest's disabled flag; only a later one clears it.
- The session is published before the registration is acknowledged, so a request can reach the
  agent first; the agent then gives the connection up.  Both orders are runs of the model.
- A trailing backslash in a quoted argument, or one directly before a quote, does not survive
  the Windows command line; `ReadsBackExactlyWhenPrintable` is the exact condition for older
  and newer runtimes.
- PowerShell treats U+2018 to U+201B as single quotes, and the escaping does not double them;
  the exact condition is `LiteralReadsExactlyWhenStraight`.
- A registration delayed by more than the skew can accept a replay, and a smaller delay
  cannot (`ReplayIsImpossibleExactlyUpToSkew`).
- Writers whose writes land out of order can bring a removed plugin back (`LateWriteResurrects`);
  the orders that are safe for all operations are those in which the newest snapshot lands last, and no others
  (`FileIsCurrentExactlyWhenNewestLandsLast`).

## Model

| member | source | states |
|---|---|---|
| Sessions.SessionManager.Register | server/session.go:53-64 | the new session replaces the agent's entry, gets the agent's id, and the replaced session's connection, and no other, is closed unless it is the same one |
| Sessions.SessionManager.Unregister | server/session.go:66-74 | an entry is removed only if it is this very session |
| Sessions.SessionManager.Get | server/session.go:76-81 | lookup agrees with the table |
| Sessions.SessionManager.RegisterPending | server/session.go:83-89 | a fresh, open, empty one-slot channel stands under the id, the rest of the tables unchanged |
| Sessions.SessionManager.ResolvePending | server/session.go:91-104 | the entry, if any, is taken out, its channel holds exactly this message and is closed; without an entry nothing changes |
| Sessions.SessionManager.CancelPending | server/session.go:106-116 | the entry, if any, is taken out and its channel closed without a message |
| Sessions.PendingIsTakenOnce | server/session.go:91-116 | a registered channel can be taken exactly once, and taking it restores the other entries |
| Sessions.UnregisterAfterRegister | server/session.go:53-74 | a stale session's unregister leaves a newer session in the table |
| DispatchSafety.InvAfter | server/session.go:82-140 | the ownership invariant over channels, program counters, queues, tables and histories holds after every schedule |
| DispatchSafety.ChannelsAreFinishedOnce | server/session.go:91-116 | in every interleaving each reply channel is sent to at most once and closed at most once, closed exactly if it counts one close, sent to exactly once if its call got an answer; nothing is sent on or closed after a close, and at most one of table, read loop and canceller holds the right to finish it |
| DispatchSafety.FinishersNeverBlock | server/session.go:91-116 | delivering and cancelling never wait: their next step is enabled in every reachable state, also after the timeout |
| DispatchSafety.PendingIsExactlyTheUntaken | server/session.go:83-140 | the pending keys are exactly the ids whose registered channel nobody has taken; a finished call leaves none, and no wait ends as cancelled |
| DispatchSafety.HonestAfter | agent/agent.go:198-253 | every reply in the history of a run carries, field by field, what its request, the execution's outcome and the mode call for, and the mode is the one that the freezes and unfreezes handled before by the same agent process ask for |
| DispatchSafety.AnswersAreTheTargetsOwn | server/session.go:118-140 | over any agents, reconnects and calls in flight, a dispatch that returns a message returns its own target's answer to its own command id: result, error, status and success are those that the request, the outcome of its execution and the mode that agent process's controls ask for call for; and that is the only answer any agent gave to that id |
| DispatchSafety.SessionsFollowPublications | server/server.go:416-431 | the table holds for an agent either nothing or the session published last, and holds that one exactly until its handler leaves |
| DispatchSafety.StaleHandlerRemovesNothing | server/server.go:425-431 | the exit of a replaced session's handler changes neither table, and no exit touches another agent's entry |
| DispatchSafety.EveryRequestCanBeAnswered | server/server.go:143-175 | the protocol is not vacuous: for every request and outcome there is a run that returns just the answer they call for |
| DispatchSafety.TimeoutCanBeatTheAnswer | server/session.go:129-139 | a run in which the call times out with the answer in the channel, nothing is left to cancel, and the read loop goes on |
| DispatchHistory.EndingsTellWhatHappened | server/session.go:118-140 | a finished call timed out exactly if its timer won, failed to send exactly if its write failed, returned a message exactly if it received one, and is offline exactly in the remaining case; no wait is cancelled |
| DispatchHistory.DispatchAsksTheCurrentSession | server/session.go:118-127 | a call ends as offline exactly if no session of its agent was being served at its lookup; otherwise its request goes to, and is handled on, the connection published last at that moment |
| DispatchHistory.RecordsAreGrounded | agent/agent.go:143-172 | calls, connections and handlings of a run come from its steps, outcomes included, and no agent handles a request on a connection before the registration on it was acknowledged |
| DispatchHistory.ConnectionsAreFifo | server/session.go:34-38 | in every run each connection delivers in order in both directions, and what an agent handles is the message at the front |
| Agents.OneReplyPerRequest | agent/agent.go:198-253 | exactly execs, controls and pings are answered, with their own command id and the result, error and status that each request, mode and outcome call for, spelled out case by case; exactly execs in unfrozen mode run; the mode changes by freeze and unfreeze only; exactly stop and restart ask for an exit, with codes 0 and 1 |
| Agents.AgentService.SetFrozen | agent/agent.go:383-387 | the mode is set and nothing else changes |
| Agents.AgentService.CurrentStatus | agent/agent.go:389-400 | the status is the mode's |
| Agents.AgentService.ClearConnection | agent/agent.go:375-381 | the connection is gone and the mode is kept |
| Agents.AgentService.Send | agent/agent.go:363-373 | a message is written exactly when there is a connection and the write succeeds |
| Agents.AgentService.HandleServerMessage | agent/agent.go:198-253 | one message changes mode, wire, executed commands and scheduled exits as the handling function says; a request adds one reply, whose fields are those the request, the mode and the outcome call for |
| Agents.AgentService.HandleControlMessage | agent/agent.go:314-361 | the control arm does the same, with all five cases; stop and restart schedule their exit code only if the reply was sent |
| Agents.AgentFollowsHistory | agent/agent.go:158-173 | over every history and any reconnections the flag, the commands run, the replies sent, the exits scheduled and whether the connection is up are those the history calls for, and the process ends only with a code so scheduled |
| Agents.ReplyReflectsHistory | agent/agent.go:198-253 | an exec runs exactly when the latest freeze or unfreeze before it was no freeze, and one reply is added that says what the request, that mode and the outcome call for |
| Agents.BeatIsKept | agent/agent.go:186-193 | a status read by a heartbeat goroutine is not changed by anything before that goroutine sends it |
| Agents.HeartbeatReportsModeWhenRead | agent/agent.go:176-196 | with any number of heartbeat goroutines, old connections' included, a heartbeat carries the history's mode at the time it was read, and equals the mode when sent exactly if these agree |
| Agents.NoBeatWithoutConnection | agent/agent.go:363-373 | without a connection, or when the write fails, no heartbeat goes out |
| Agents.HeartbeatCanBeStale | agent/agent.go:186-193 | a run in which an "online" heartbeat follows the reply that confirmed a freeze |
| Nonces.Server.RegisterNonce | server/server.go:383-400 | a nonce is refused exactly if it is cached with a time at most twice the skew ago; key by key, older entries go, the others stay, and an accepted nonce is entered with the message's time |
| Nonces.Server.VerifyCliMessage | server/server.go:352-381 | accepted exactly when every check holds and the nonce is not cached with a time at most twice the skew ago, with 64-bit seconds and saturating differences; an error names the first check that failed; the cache changes only when registration is reached |
| Nonces.ExtremeTimestampsAreStale | server/server.go:365-369 | for every 64-bit timestamp and an ordinary clock, the wrapping and saturating arithmetic decides freshness as unbounded arithmetic would, and a fresh message is registered under its own time |
| Nonces.EnterKeepsInv | server/server.go:383-400 | registering keeps: a nonce's last acceptance is still cached or older than twice the skew |
| Nonces.NoReplay | server/server.go:365-400 | in every interleaving, with delay at most the skew, two acceptances of one nonce carry timestamps more than skew minus delay apart, never equal ones |
| Nonces.CacheStaysInWindow | server/server.go:387-400 | after a registration at t all cached times lie between t minus twice the skew and t plus the skew |
| Nonces.RefusedExactlyWhenAcceptedRecently | server/server.go:383-400 | over runs: a registration refuses only if a request with its nonce was accepted and is at most twice the skew old, under any clock and delay, and exactly then if the clock does not go back; a first-time nonce is always accepted |
| Nonces.CheckedExactlyWhenFresh | server/server.go:365-369 | over runs: the check passes exactly the requests with a time, not 0, within the skew of the clock |
| Nonces.ReplayIsImpossibleExactlyUpToSkew | server/server.go:365-400 | no run accepts a (nonce, timestamp) twice if and only if the delay bound is at most the skew |
| Nonces.LateRegistration | server/server.go:365-400 | for every larger delay, the run that accepts a replay |
| Nonces.BackwardClockAdmitsReplay | server/server.go:387-392 | if the clock may go back a replay is accepted even without delay |
| PluginStore.PluginRecord.UpsertVersion | server/plugin_store.go:321-330 | the package of the same version is overwritten in place, or the package is appended; every other entry stays where it is |
| PluginStore.PluginRecord.HasVersionNamed | server/plugin_store.go:332-339 | the loop finds exactly the versions in the list |
| PluginStore.PluginRecord.ActivePluginPackage | server/plugin_store.go:341-358 | files and manifest of the first version with the active name, with the record's flag; else those of the last version; none only without versions |
| PluginStore.PluginRecord.NormalizeRecord | server/plugin_store.go:299-319 | trimming, each error in order, and the repair of the active version |
| PluginStore.Store.Open | server/plugin_store.go:34-86 | an error if the directory cannot be made or the file cannot be read; a missing file gives an empty store; otherwise both formats are read as the load function says, errors included, and a successful result satisfies the store invariant |
| PluginStore.Store.SnapshotLocked | server/plugin_store.go:245-255 | the snapshot is the store's records in strict name order |
| PluginStore.Store.Install | server/plugin_store.go:88-106 | the whole new store, the invariant, and a snapshot of the new store; a rejected package changes nothing |
| PluginStore.Store.Remove | server/plugin_store.go:108-122 | the same for removal, with both errors |
| PluginStore.Store.SetEnabled | server/plugin_store.go:124-139 | the same for enabling and disabling |
| PluginStore.Store.Rollback | server/plugin_store.go:141-162 | the same for rollback, with its three errors |
| PluginStore.Store.List | server/plugin_store.go:164-182 | the active manifests with the records' flags, in name order, whatever the map's order |
| PluginStore.Store.CommandNames | server/plugin_store.go:207-223 | sorted, without repetition, exactly the commands some enabled plugin's active version exposes |
| PluginStore.Store.FindCommand | server/plugin_store.go:225-243 | succeeds exactly on the commands offered, whatever the map's order, with files and manifest of an enabled plugin's active version that exposes the command |
| PluginStore.FoundIsLastInstalled | server/plugin_store.go:225-243 | after any operations from the empty store: what is found is the package last installed under the plugin's active version, files and manifest, marked enabled |
| PluginStore.LastInstalledIsFound | server/plugin_store.go:225-243 | and a command of such a package is always found |
| PluginStore.ListedAreLastInstalled | server/plugin_store.go:164-182 | after any operations from the empty store: a manifest is listed exactly if it is that of the package last installed under a plugin's active version, with the plugin's flag |
| PluginStore.NamesAreOffered | server/plugin_store.go:207-243 | the commands named by a listing are the commands that can be found |
| PluginStore.MergeCommands | server/server.go:542-555 | sorted, without repetition, as a set the trimmed non-empty elements of both lists |
| Text.TrimSpaceTrims | server/server.go:546 | trimming takes the blanks off both ends, all of them and nothing else |
| Text.LessIsLexicographic | server/server.go:553 | strings are ordered by their first difference, a proper beginning first |
| PluginStore.MergeIsStable | server/server.go:542-555 | merging the result again changes nothing |
| PluginRecords.ApplyKeepsStore | server/plugin_store.go:88-162 | every operation keeps names matching keys, versions non-empty and valid, the active version present, and versions distinct |
| PluginRecords.RunKeepsStore | server/plugin_store.go:88-162 | the same over every sequence of operations |
| PluginRecords.ActiveIsStored | server/plugin_store.go:341-358 | in such a store the fallback to the last version is never taken: the package shown has the files and manifest stored under the active version, with the record's flag |
| PluginRecords.UpsertIsMapUpdate | server/plugin_store.go:321-330 | on the map from version to package, replacing or appending is one map update |
| PluginRecords.ApplyRefines | server/plugin_store.go:88-162 | each operation on the list-and-pointer store is the operation on a plain map of maps, errors included |
| PluginRecords.StoreImplementsMap | server/plugin_store.go:88-162 | every sequence from empty ends in the plain map's result |
| PluginRecords.StoredIsLastInstalled | server/plugin_store.go:88-162 | after every sequence, the package stored for (name, version) is the last one installed since the plugin's last removal |
| PluginRecords.PointerFollowsHistory | server/plugin_store.go:88-162 | after every sequence, a plugin is stored, active in a version and disabled exactly as the installs, removals, switches and rollbacks before say |
| PluginRecords.ActiveIsLastInstalled | server/plugin_store.go:341-358 | and its active package has the files and the manifest last installed under that version |
| PluginFiles.NormalizedIsOk | server/plugin_store.go:299-319 | whatever is normalized without error satisfies the record invariant |
| PluginFiles.NormalizeKeepsOk | server/plugin_store.go:299-319 | normalization is the identity on records that satisfy it |
| PluginFiles.NormalizeMeans | server/plugin_store.go:299-319 | exactly which records are accepted and which error the others give; an accepted one keeps its versions and flag, has its name trimmed and its active version repaired to the last one only if it names none |
| PluginFiles.LoadedStoreIsOk | server/plugin_store.go:51-86 | whatever text loads, it loads into a store that satisfies the invariant |
| PluginFiles.LoadChoosesFormat | server/plugin_store.go:51-86 | which format a text is read in, when it loads, and for every name what is then stored: the last record, normalized, or for the older format the last package as only and active version |
| PluginFiles.SaveThenLoad | server/plugin_store.go:51-86 | saving then loading any store with the invariant gives back the same records, the empty store by way of the older format |
| PluginFiles.SnapshotUnique | server/plugin_store.go:245-255 | a store has one snapshot, independent of the map's order |
| PluginWriters.FileHoldsAPastState | server/plugin_store.go:103-105 | in every interleaving of mutators and late writes the file holds a state the store has passed through; once all have written, the current one if writes landed in snapshot order, or just the newest last |
| PluginWriters.FailuresWriteNothing | server/plugin_store.go:88-162 | a failing operation changes neither store nor file and leaves nothing to write |
| PluginWriters.FilledRun | server/plugin_store.go:93-162 | for every interleaving of changes and writes and all succeeding operations, the file holds the store after exactly the operations covered by the snapshot that landed last |
| PluginWriters.FileIsCurrentExactlyWhenNewestLandsLast | server/plugin_store.go:93-162 | for every complete interleaving of n changes and their writes: the file ends up as the store for all stores and all succeeding operations if and only if the newest snapshot's write lands last |
| PluginWriters.LandingOrderIsSafeExactlyWhenNewestIsLast | server/plugin_store.go:93-162 | the same for every permutation in which n pending writes can land: safe for all operations if and only if it ends with the last writer |
| PluginWriters.RestartRestores | server/plugin_store.go:51-86 | a restart after that restores the store exactly |
| PluginWriters.LateWriteResurrects | server/plugin_store.go:113-121 | for every valid package, the order (1, 0): an overtaken write brings a removed plugin back |
| PowerShell.LiteralReadsExactlyWhenStraight | server/plugin_store.go:407-409 | a verbatim-literal lexer reads the escaped literal back, ending at its own closing quote, if and only if the string has none of U+2018 to U+201B |
| PowerShell.PluginTemplateIsReadable | server/plugin_store.go:368-403 | the fixed text around the literals cannot be mistaken for part of them, nor one part of the script for another |
| PowerShell.BuildPluginPowerShell | server/plugin_store.go:360-405 | the loops build exactly the script of this package and these arguments, and it ends with the cmd.exe call exactly for shell cmd and else with the powershell.exe call; each error exactly when its cause holds, the base64 error naming the first bad file |
| PowerShell.CallsStartTheirShells | server/plugin_store.go:394-403 | the text of the two calls |
| PowerShell.ScriptReadsBackExactlyWhenStraight | server/plugin_store.go:373-404 | reading the script gives back files, entry, arguments and shell if and only if all strings are free of typographic quotes |
| PowerShell.BuiltScriptCarriesPackage | server/plugin_store.go:373-400 | the script of a package carries its paths with slashes, decoded contents, entry, shell and the caller's arguments, and reads back if and only if those strings are free of typographic quotes |
| WindowsArgs.JoinWindowsArgs | agent/elevate_windows.go:65-80 | the loop prints the command line of the list |
| WindowsArgs.QuotedExactlyWhenNeeded | agent/elevate_windows.go:68-77 | an argument is printed as it stands exactly if it is non-empty and has no blank, tab or quote, and else between quotes with one more character for each quote |
| WindowsArgs.JoinedByOneBlank | agent/elevate_windows.go:79 | lists are joined with one blank |
| WindowsArgs.CommandLineRoundTrip | agent/elevate_windows.go:65-80 | in particular, every list without such backslashes is read back under either rule |
| WindowsArgs.ReadsBackExactlyWhenPrintable | agent/elevate_windows.go:65-80 | parsing with the Microsoft C rules gives the list back if and only if no quoted argument has a backslash before a quote or at the end; with the rule for doubled quotes, the last argument may also end in a single backslash and a quote, and nothing else is gained |
| WindowsArgs.TrailingBackslashIsLost | agent/elevate_windows.go:72-75 | an everyday list that is read back under neither rule |
| WindowsArgs.PairRuleReadsMore | agent/elevate_windows.go:72-75 | a list read back with the rule for doubled quotes and not without |
| ProcessLock.AtMostOneHolder | server/lock.go:26-93 | in every run, with crashes anywhere, stale or half-written files, releases and failed writes, at most one live process holds the lock, and the file then carries its id |
| ProcessLock.ExclusionIsTheSharingRule | server/lock.go:64-93 | exclusion holds in all runs if and only if open files cannot be removed |
| ProcessLock.TwoHoldersWithoutTheRule | server/lock.go:73-79 | the run with two holders where they can |
| ProcessLock.StaleLockIsTakenOver | server/lock.go:26-49 | a file without a number or naming no live process is taken over by a process that runs undisturbed |
| ProcessLock.ReleaseFreesTheLock | server/lock.go:52-62 | in every run an undisturbed release by the holder leaves no file, no holder and all other processes as they were |
| ProcessLock.FailedWriteLeavesNoFile | server/lock.go:42-46 | so does a process whose write fails |
| ProcessLock.RunningServerIsRespected | server/lock.go:64-87 | a file naming a live process is never judged stale: whoever finds it gives up and leaves it |
| Download.StreamRemoteFile | cli/gui.go:257-314 | terminates; against an unchanged file of matching chunks success means exactly the file and every error a prefix of it; such a download can only fail if a request or a write does; the requests follow one another through the file, the first unusable reply ends it with the error that says why, and no offset reaches the size plus the largest chunk |
| ExecFanout.WorkersNeverBlock | cli/agent_groups.go:195-206 | in every schedule nothing is sent on or closed after the close, and a worker with a result can always send it |
| ExecFanout.NeverDeadlocks | cli/agent_groups.go:195-222 | until the command has returned some step is enabled |
| ExecFanout.SchedulesAreBounded | cli/agent_groups.go:195-222 | a schedule for n agents has at most 5n + 4 steps |
| ExecFanout.OneResultPerAgent | cli/agent_groups.go:182-223 | on return, one result per requested agent id, duplicates kept; the exit code is 1 exactly when some result failed or no agent was given |
| ExecFanout.ResultsAreTheExecutions | cli/agent_groups.go:197-221 | on return every (agent, failed) pair has been drained exactly as often as the schedule's executions gave it |
| ExecFanout.ExitCodeTellsFailure | cli/agent_groups.go:183-222 | the exit code is 1 exactly when no agent was given or some execution of the schedule failed, and else 0 |
| EventBus.Bus.Subscribe | core/events.go:48-56 | a new empty open channel is appended to its kind's listeners, the others keep theirs |
| EventBus.Bus.Publish | core/events.go:59-71 | every listener of the event's kind is offered it, a full one drops it, no other channel changes |
| EventBus.Bus.UnsubscribeAll | core/events.go:74-84 | all listed channels are closed once, buffers kept, and the table is empty |
| EventBus.SubscribersSeeASubsequence | core/events.go:48-84 | in every run each subscriber's received and queued events are an in-order subsequence of the matching events published since it subscribed, at most ten are queued, nothing is sent on a closed channel |
| EventBus.SubscribersGetExactlyTheKept | core/events.go:48-84 | in every run, what a subscriber has received and queued is exactly the matching events at whose publication it was open with fewer than ten queued, however many were dropped before |
| EventBus.NothingElseIsDropped | core/events.go:59-71 | in particular, a subscriber that is never full when a matching event is published gets all of them |
| EventBus.RunsRecordTheirSteps | core/events.go:48-84 | subscriptions and events of a run are those its schedule made, in order, and a subscription is closed exactly if UnsubscribeAll ran after it was made |

## Left out

- TCP, JSON framing, HTTP headers and the client library: connections are FIFO queues whose reads and writes can fail at any time, which also covers a connection closed by a replacement.
- Message signing: the signature is a parameter of `VerifyCliMessage`.
- The agent registry, groups, tags and the agreement of its `Connected` flag with the session table: its source is not part of this model, and a replaced session's handler marks the agent offline.
- Windows services, installers and elevation: foreign calls.
- What a command does: its output is a parameter of the agent's handler, and the argument rules of superexec stay inside it.
- The request id, which is copied but never used to find anything, and timestamps of replies.
- Dispatch as a method: other goroutines act between its steps, so it is modelled as steps of a machine whose table operations are the ones the session manager's methods are proved against.
- The backoff between reconnections: the loop only ever sees errors, so it has no effect on the properties here.
- Aliasing of cloned packages: packages and snapshots are values, so what cloning protects against cannot happen in the model.
- Distinct versions after loading: a hand-edited file may list a version twice, and the code accepts it; distinctness is proved for stores built by operations.
- The sorted listing of all versions of one plugin: an easy member.
- Download.StreamRemoteFile: response headers and flushing; sizes and offsets are unbounded integers, and the last bound says when 64 bits suffice: whenever the size and the largest decoded reply add up to less than 2^63.
- Stability of the library sorts among equal keys: sorted names are distinct or equal strings, so it cannot be observed.
- The graphical interface, tables, help texts and argument switches.
