# Verification of Yeonjang and the agent core

Yeonjang is a desktop node that executes commands it receives over MQTT; the agent core drives a language model
with tools and talks to such nodes. This project models the parts of the two that are hardest to get right and
proves, for every input and every run, what they are for:

* **The request pipeline** (`Protocol`, `RequestCache`, `Workers`, `Admission`). Every command has a worker thread of its own;
  all threads share a cache of responses by idempotency key. Any number of threads is interleaved in any way, with
  arbitrary clock readings and with an arbitrary choice among entries of equal age. The main result is
  `Workers.AtMostOnce`: two commands with the same key both execute only if the second looked the key up before the
  first stored its response, or a prune dropped the key in between because the entry was too old or 512 entries at
  least as recent were kept instead. `Workers.MissesIffDropped` says exactly when a lookup misses, and
  `Workers.ReplayIsFaithful` what a hit returns; `Admission` says
  which commands run at all and which are turned away, by their metadata.
* **Large responses** (`Base64`, `ResponseChunks`). The node's encoder against RFC 4648, section 4, and the whole way
  of a response: cut into chunks, encoded, delivered in any order with repetitions among other traffic, and put
  together again by the core client. The main result is `ResponseChunks.ListenerDeliversPayload`, which also says what
  happens when a response without an id gets in between.
* **The agent loop** (`Conversation`, `AgentRun`, `AgentSession`, `AgentOutput`, `AgentRounds`). One run is a bounded loop that keeps
  a conversation in memory and a stored log in step. The model's streams and the tools' results are arbitrary finite
  inputs, and a run may be abandoned after any of its actions. The main results are `AgentSession.ModelCallsArePaired`
  and `AgentSession.ReloadRestoresMemory`, for the output `AgentOutput.RunsFollowGrammar`, and for what a run makes of its
  streams and tools `AgentRounds.RunFollowsScript`.
* **The supervisor and the window** (`Supervisor`, `GuiRuntime`). The thread that connects, polls, pauses and
  reconnects, and the window that consumes its events together with those of the workers. The main result is
  `GuiRuntime.ConnectedMeansLive`, which holds in every reachable state of the two together, with the exact
  `GuiRuntime.CaughtUpShowsConnected` once all status events are handled.
* **The desktop lifecycle** (`Lifecycle`, `GuiShell`). The machine that shows, hides and quits, the application that
  drives it, and the real window that carries commands out late. The main results are
  `GuiShell.WindowMachineAndRegistrationAgree` and `GuiShell.WindowCanAlwaysBeShown`.
* **Smaller algorithms**: the FNV-1a hash (`Fnv`), slugs (`Slug`), the settings file (`Settings`), icon fitting
  (`Icon`), the camera list (`Cameras`) and AppleScript literals (`AppleScript`).

`Wrappers`, `Text` and `Sorting` hold what the others share: optional values, trimming by a character class, and a
stable sort that stands for the library sorts.

Code that changes state is modelled by methods on classes and arrays; each is proved to do what a function or a step
relation says, and the theorems are about those. `dafny verify dfyconfig.toml` checks everything.

## How the code and the model correspond

* The cache lock is held inside one lookup and inside one store, not between them. The lookup reads its clock before
  taking the lock, the store while holding it; clocks may even run backwards.
* A prune sorts by time and removes the oldest entries, and the order of a hash map decides among entries of the same
  millisecond. A prune is therefore a relation (`RequestCache.IsPruned`), and everything holds for every choice.
* The cache is keyed by the trimmed idempotency key alone. A replay repeats the outcome stored under the key; whether
  the two requests name the same method is not compared, and nothing here says it is.
* An agent run is the sequence of its actions (rows stored, model calls, chunks emitted). An abandoned run has done a
  prefix of it, and a session is a sequence of such runs, with plain rows stored between them at will.
* Stored rows come back in insertion order. The code orders them by a creation time in milliseconds without a
  tie-break (packages/core/src/db/index.ts:1056-1062), so the model takes rows of the same millisecond to keep their
  order and the clock not to run backwards within a session.
* The window's real visibility changes only when it carries out a command; commands wait in a queue in issue order.
* A start in which the window is created visible although the machine is hidden does occur: in the headless profile,
  and when the settings cannot be read but a tray exists. `GuiShell.StartsConsistentIff` says exactly when the two
  start in step, and the theorems about the window are about those starts.
* `GuiShell` and `GuiRuntime` each have a class for the application; they hold disjoint parts of its fields.
* The order of the two replacements in the AppleScript literal matters exactly for texts with a quote
  (`AppleScript.OtherOrderWorksIffNoQuote`).

## Model

| member | source | states |
|---|---|---|
| RequestCache.ProcessedRequests.PruneProcessedRequests | Yeonjang/src/mqtt.rs:473-487 | the in-place prune leaves only unexpired entries, unchanged, at most 512 and as many as possible, and none that it dropped is newer than one it kept |
| RequestCache.ProcessedRequests.ReplayCachedResponse | Yeonjang/src/mqtt.rs:489-505 | one lookup under the lock: no key, no effect; otherwise a prune with the clock read before, and the cached outcome under the caller's id, if any |
| RequestCache.ProcessedRequests.RememberProcessedResponse | Yeonjang/src/mqtt.rs:507-532 | one store under the lock: no key, no effect; otherwise a prune, then the response without its id under the trimmed key, with the time of the prune |
| RequestCache.CutIsPruned | Yeonjang/src/mqtt.rs:478-486 | removing all but the last 512 of an oldest-first listing keeps the newest entries, whatever order ties are listed in |
| RequestCache.SortKeepsListing | Yeonjang/src/mqtt.rs:478-482 | the sorted listing still lists every key exactly once with its own time |
| RequestCache.DropReason | Yeonjang/src/mqtt.rs:473-487 | a prune loses an entry only because it had expired or because it kept 512 others, none of them stored earlier |
| RequestCache.PruneIsNeutral | Yeonjang/src/mqtt.rs:473-477 | a prune changes nothing while everything is alive and at most 512 entries are held |
| RequestCache.PruneLimits | Yeonjang/src/mqtt.rs:473-487 | after a prune no entry is older than 300000 ms and at most 512 are left, unchanged |
| Workers.RequestPipeline.Validate | Yeonjang/src/mqtt.rs:300-304 | the first step of a worker: an answer to a rejected command, or admission |
| Workers.RequestPipeline.BeginLookup | Yeonjang/src/mqtt.rs:493-497 | only a request with a non-blank key reads the clock and goes on to the lookup; the others execute at once |
| Workers.RequestPipeline.LookUp | Yeonjang/src/mqtt.rs:305-309 | the lookup step is a step of the protocol: it answers from the cache or goes on to execute |
| Workers.RequestPipeline.Store | Yeonjang/src/mqtt.rs:319-324 | the store step is a step of the protocol, and the worker answers with its own response |
| Workers.PresentIffNotDropped | Yeonjang/src/mqtt.rs:473-532 | between its last store and a later moment of any run, a key is cached if and only if no prune in between dropped it |
| Workers.CacheRefinesStoreLog | Yeonjang/src/mqtt.rs:489-532 | in every run each cached entry is what the last store under its key put there |
| Workers.CacheSizeBounded | Yeonjang/src/mqtt.rs:473-532 | in every run the map holds at most 513 entries, and at most 512 after a lookup |
| Workers.WorkerProgress | Yeonjang/src/mqtt.rs:288-361 | a worker keeps its request and its phases only move forward |
| Workers.WorkerRunsOnce | Yeonjang/src/mqtt.rs:310-318 | no worker executes its command twice |
| Workers.ExecutionFollowsMiss | Yeonjang/src/mqtt.rs:300-311 | a worker with a key that executes has looked that key up and missed |
| Workers.MissesIffDropped | Yeonjang/src/mqtt.rs:489-505 | a lookup misses if and only if the key was never stored, or a prune since the last store dropped it |
| Workers.MissAfterStore | Yeonjang/src/mqtt.rs:473-505 | a miss after a store means a prune in between dropped the key, for being expired or for 512 kept entries stored no earlier |
| Workers.AtMostOnce | Yeonjang/src/mqtt.rs:288-361 | two executions under one key: the second one's lookup missed, and for every store of the first before it a justified drop of the key lies in between |
| Workers.ReplayIsFaithful | Yeonjang/src/mqtt.rs:464-505 | a replay equals the last stored response in ok, result and error, with the caller's id, and that response was produced by an executed command |
| Protocol.KeyIsTheInnerText | Yeonjang/src/mqtt.rs:493-496 | the cache key is exactly what stands between the white space at both ends of the key text, and white space alone is no key |
| Admission.ExecutedWasAdmitted | Yeonjang/src/mqtt.rs:437-461 | a command that is executed was validated before, when its target session was absent, blank or the current one and its time limit absent or still to come |
| Admission.RejectedIffInvalid | Yeonjang/src/mqtt.rs:437-461 | a worker is rejected if and only if a validation found the target or the time limit wanting; the answer carries the command's id and says which, the target first |
| Admission.RejectedDoesNothing | Yeonjang/src/mqtt.rs:300-304 | a rejected command takes no further step: it is never looked up, executed or stored |
| Admission.FreshAnswerIsOwn | Yeonjang/src/mqtt.rs:310-324 | an answer that is neither a rejection nor a replay is what the worker's own command returned |
| Base64.Base64Encode | Yeonjang/src/mqtt.rs:891-923 | the loop computes the encoding of RFC 4648, section 4, defined bit by bit |
| Base64.AlphabetOrder | Yeonjang/src/mqtt.rs:892-892 | the 64 symbols are upper case, lower case, digits, plus and slash, in this order |
| Base64.PaddingPlaces | Yeonjang/src/mqtt.rs:909-917 | the length is 4 * ceil(n / 3), and `=` stands exactly where n mod 3 demands it, in the last two places only |
| Base64.DecodeEncode | Yeonjang/src/platform/linux.rs:859-888 | decoding the encoding gives back every byte string |
| Base64.EncodeDecode | Yeonjang/src/mqtt.rs:891-923 | the decoder accepts encodings only: whatever it accepts is the encoding of what it returns |
| Base64.EncodeConcat | Yeonjang/src/mqtt.rs:895-921 | a prefix whose length is a multiple of three is encoded independently of what follows |
| ResponseChunks.PublishResponse | Yeonjang/src/mqtt.rs:578-618 | what is published is the response as one packet or as its chunk envelopes in order; if a publish fails, exactly those before it are out |
| ResponseChunks.ChunkSizes | Yeonjang/src/mqtt.rs:26-26 | no chunk is empty and every chunk but the last is full |
| ResponseChunks.ChunksPartition | Yeonjang/src/mqtt.rs:594-600 | the ceil(n / 49152) chunks in index order are the payload, so their sizes add up to the announced total |
| ResponseChunks.EncodedChunksJoin | Yeonjang/src/mqtt.rs:598-607 | the encodings of the chunks join to the encoding of the whole payload |
| ResponseChunks.EnvelopesAnnounce | Yeonjang/src/mqtt.rs:594-607 | every envelope carries the id, its index, the ceil(n / 49152) count and the total size, which the chunk sizes add up to, and decodes to its own piece of the payload |
| ResponseChunks.ResponseListener.OnMessage | packages/core/src/yeonjang/mqtt-client.ts:803-865 | one message at the receiver: foreign ids are passed over, outside and inside a joined response, parts are kept by index, and a full set is joined in index order, or the wait is rejected |
| ResponseChunks.ReceiveByCase | packages/core/src/yeonjang/mqtt-client.ts:803-865 | a waiting listener passes over exactly the packets with a non-empty id of another request, and takes, keeps or rejects the others case by case |
| ResponseChunks.ReceiveOwnChunk | packages/core/src/yeonjang/mqtt-client.ts:819-840 | while collecting, one more chunk of the response, new or repeated, leaves the receiver collecting, or completes it and delivers the payload |
| ResponseChunks.OwnPacketsDeliver | packages/core/src/yeonjang/mqtt-client.ts:803-865 | without strays: the payload once every packet of the response has arrived, and waiting before |
| ResponseChunks.ListenerDeliversPayload | packages/core/src/yeonjang/mqtt-client.ts:788-889 | for packets in any order, with repetitions, other requests' traffic and strays without an id: exactly the payload if every packet of the response arrives before the first stray, that stray otherwise, and waiting before either |
| Conversation.SanitizeHistory | packages/core/src/agent/index.ts:243-268 | the loop over the reloaded rows computes the repair |
| Conversation.SanitizeSplits | packages/core/src/agent/index.ts:243-268 | repairing a ++ b is repairing both parts if and only if the cut does not separate a tool call from a tool result message |
| Conversation.SanitizeMakesPaired | packages/core/src/agent/index.ts:243-268 | a log in which every tool result message answers the call before it is repaired to an exactly paired conversation |
| Conversation.SanitizeKeepsPaired | packages/core/src/agent/index.ts:243-268 | a conversation whose calls are all answered is left unchanged |
| Conversation.SanitizeEach | packages/core/src/agent/index.ts:246-268 | each message on its own: an unanswered call becomes its joined text, or nothing, and every other message stays in place |
| Conversation.TextsLaws | packages/core/src/agent/index.ts:259-261 | the texts of a message are those of its text blocks, in order |
| Conversation.JoinLinesLaws | packages/core/src/agent/index.ts:262-262 | texts are joined with one line break between neighbours |
| AgentRun.ReadStream | packages/core/src/agent/index.ts:407-434 | text, tool uses in order and summed tokens of a stream |
| AgentRounds.TextOfLaws | packages/core/src/agent/index.ts:427-428 | the text of a stream is every delta in order and nothing else |
| AgentRounds.UsesOfLaws | packages/core/src/agent/index.ts:429-430 | the tool uses of a stream, in its order |
| AgentRounds.TokensOfLaws | packages/core/src/agent/index.ts:431-432 | the tokens of a stream are input and output of all its stop messages |
| AgentRun.AgentRunner.ExecuteTools | packages/core/src/agent/index.ts:507-540 | a start and an end per tool in order, one result block per use, and the names for a recovery without repetition |
| AgentRounds.ToolChunksInOrder | packages/core/src/agent/index.ts:507-524 | tool j is announced and reported by chunks 2j and 2j + 1, with its own input, success and output |
| AgentRounds.RoundRowsSay | packages/core/src/agent/index.ts:474-552 | the stored rows of a round, block by block: text, uses, and one result per use with the failures marked |
| AgentRounds.RecoveryNamesAre | packages/core/src/agent/index.ts:644-652 | a name is reported for recovery exactly if a failed use of it calls for one, and only once |
| AgentRounds.FailureTextIsFirst | packages/core/src/agent/index.ts:654-662 | the terminal failure text is the trimmed output of the first tool that failed for good, if there is one |
| AgentRounds.RecoveryIsSignalled | packages/core/src/agent/index.ts:578-585 | a recovery is signalled exactly if a tool calls for it and the round neither failed for good nor settled the run |
| AgentRun.AgentRunner.FinishToolRound | packages/core/src/agent/index.ts:554-592 | after a round: terminal failure text, stop, or recovery and token guard, in this order |
| AgentRun.AgentRunner.RunAgent | packages/core/src/agent/index.ts:238-599 | a whole run performs exactly the specified actions, stores exactly the rows among them, and ends with the specified conversation in memory |
| AgentRounds.RunFollowsScript | packages/core/src/agent/index.ts:398-598 | the model is called in round r if and only if no abort was seen and every earlier round went on; a last round delivers its joined deltas or the first terminal failure, stored after being shown, and ends with the counted tokens or the stream's failure |
| AgentRounds.RunStopsBetweenRounds | packages/core/src/agent/index.ts:398-402 | a run aborted between rounds, or one that uses up its rounds, delivers no text and ends with the error or the counted tokens |
| AgentRounds.FirstRoundDeliversItsText | packages/core/src/agent/index.ts:454-470 | a first stream without tool uses is delivered delta for delta |
| AgentRounds.RunStartsWithTheUser | packages/core/src/agent/index.ts:270-282 | the user's message is stored first and ends the first message list |
| AgentSession.ToolRoundIsPaired | packages/core/src/agent/index.ts:474-552 | the result message of a round answers its call: the same ids in the same order, and nothing else |
| AgentSession.RoundsSettle | packages/core/src/agent/index.ts:398-598 | what a finished run has stored is paired, and is what it added to its memory followed by the delivered text |
| AgentSession.SessionLogKeepsOrder | packages/core/src/agent/index.ts:272-552 | however the runs of a session were cut, every stored tool result message directly follows the call it answers |
| AgentSession.ModelCallsArePaired | packages/core/src/agent/index.ts:238-282 | in every session of abandoned runs, every message list passed to the model is exactly paired, and is the repair of all that is stored up to then |
| AgentSession.ReloadJoins | packages/core/src/agent/index.ts:243-268 | reloading a log that continues with a paired part repairs the old part only |
| AgentSession.ReloadRestoresMemory | packages/core/src/agent/index.ts:243-568 | after an uninterrupted run, reloading gives exactly the conversation that was in memory plus the delivered text |
| AgentOutput.RunsFollowGrammar | packages/core/src/agent/index.ts:398-598 | every run emits ((tool_start n, tool_end n)+ execution_recovery?)* and then text done, done, error or ai_recovery; a cut run emits a prefix |
| AgentOutput.TextIsFollowedByDone | packages/core/src/agent/index.ts:455-598 | in such an output a text is directly followed by done, and only the last chunk is an ending |
| AgentOutput.RunsCallWithinBudget | packages/core/src/agent/index.ts:25-26 | at most 20 model calls, in rounds without gaps, none of them with more than 150000 tokens counted before it |
| Supervisor.TerminalEventIsLast | Yeonjang/src/mqtt.rs:109-175 | in every life of the thread at most one Disconnected or AuthFailed is sent, as the last event; the thread ends only after sending it or after seeing a stop request |
| Supervisor.AnnouncedIffPolling | Yeonjang/src/mqtt.rs:270-274 | the last event sent is Connected if and only if the thread is polling an acknowledged connection |
| Supervisor.FourTestsAreTwo | Yeonjang/src/mqtt.rs:692-703 | the four tests for a refused login come down to two words |
| Supervisor.FailureDecides | Yeonjang/src/mqtt.rs:134-148 | a failure whose text holds one of these words ends the thread with AuthFailed, any other one is announced and paused for |
| Supervisor.FailuresAreDecided | Yeonjang/src/mqtt.rs:383-394 | in every life of the thread each failure has exactly this effect, and nothing follows a refused login |
| Supervisor.EventsHaveCauses | Yeonjang/src/mqtt.rs:262-427 | each kind of event is sent exactly for its cause, with its text |
| Supervisor.FailedBootstrapGoesOn | Yeonjang/src/mqtt.rs:128-155 | after a failed bootstrap the thread goes on if and only if the login was not refused and no stop cuts the pause |
| Supervisor.ReconnectPauses | Yeonjang/src/mqtt.rs:383-427 | between an announced reconnect and the next connection attempt exactly 5000 ms are slept, unless a stop request ends the thread |
| Supervisor.SleepWithStopCheck | Yeonjang/src/mqtt.rs:236-248 | the sleep completes if and only if none of its ceil(d / 100) looks sees a stop; then it slept exactly d, and otherwise only whole steps before the stop |
| Supervisor.RuntimeThread.RunConnectionLoop | Yeonjang/src/mqtt.rs:250-428 | polling takes exactly the machine steps that the notifications call for, up to the first that ends or fails the connection and through the pause after it |
| Supervisor.RuntimeThread.Run | Yeonjang/src/mqtt.rs:109-175 | the thread takes exactly the machine steps that its attempts call for, up to the one that ends it, and every failure among them ends it or makes it pause as its text demands |
| GuiRuntime.RunsKeepInvariant | Yeonjang/src/gui.rs:1165-1299 | every reachable state of thread, workers, channel and window satisfies the joint invariant |
| GuiRuntime.ConnectedMeansLive | Yeonjang/src/gui.rs:1222-1299 | a connection shown as up has a runtime handle and a receiver, was announced by the last status event handled, and an ended thread's terminal event is still to be handled |
| GuiRuntime.CaughtUpShowsConnected | Yeonjang/src/gui.rs:1222-1299 | with every status event handled and no override by the user since, the window shows a connection if and only if the thread is polling an acknowledged one |
| GuiRuntime.ShownStateIsLastEvent | Yeonjang/src/gui.rs:1231-1279 | unless overridden by the user, the window shows an authentication failure, a connection or neither exactly as the last status event handled says |
| GuiRuntime.EventsArriveInOrder | Yeonjang/src/gui.rs:1222-1230 | what is sent into the current channel is what was handled, what is drained and what is queued, in order; the supervisor's part is one life with nothing after a terminal event |
| GuiRuntime.EndedThreadIsAnnounced | Yeonjang/src/gui.rs:1255-1279 | a handle whose thread has ended by itself comes with a terminal event not handled yet |
| GuiRuntime.TickReleasesEndedThread | Yeonjang/src/gui.rs:1222-1299 | a thread that had ended by itself when a tick began is released when the tick is over |
| GuiRuntime.NothingAfterTerminal | Yeonjang/src/gui.rs:1255-1279 | behind a terminal event the drained batch holds worker events only |
| GuiRuntime.YeonjangGuiApp.ConnectNow | Yeonjang/src/gui.rs:1165-1202 | connecting is one step of the machine: an invalid input shows an authentication failure and keeps the runtime, any other one replaces it or leaves none |
| GuiRuntime.YeonjangGuiApp.DrainEvents | Yeonjang/src/gui.rs:1223-1228 | draining is a sequence of receives and of steps that arrive meanwhile, closed by the one look that finds the channel empty or gone |
| GuiRuntime.YeonjangGuiApp.ProcessRuntimeEvents | Yeonjang/src/gui.rs:1222-1299 | one call is exactly one whole tick of the machine; the last status event it handles decides what is shown, a terminal one releases the runtime, and so is a thread that had ended by itself |
| Lifecycle.LifecycleMachine.Hide | Yeonjang/src/lifecycle.rs:290-296 | the mode changes if and only if the command is to hide, which needs a visible tray; a hidden window stays recoverable |
| Lifecycle.LifecycleMachine.HandleCloseRequest | Yeonjang/src/lifecycle.rs:298-303 | a close request quits exactly without a tray to hide to, changes the mode exactly when it says so, and keeps a hidden window recoverable |
| GuiShell.StartsConsistentIff | Yeonjang/src/gui.rs:262-391 | window, machine and registration start in step if and only if the profile is a desktop one and the settings were read or there is no tray to hide to |
| GuiShell.MessageFollows | Yeonjang/src/gui.rs:415-472 | every message keeps the application sound, and the commands it issues leave a window that was in step in step |
| GuiShell.SettledFromFront | Yeonjang/src/gui.rs:1521-1531 | carrying out the oldest command first does not change what the queue leads to |
| GuiShell.WindowMachineAndRegistrationAgree | Yeonjang/src/gui.rs:1482-1505 | in every reachable state a hidden machine has a visible tray, the registration is the machine's state, and the window, once the queue is carried out, is shown exactly if the machine says so; a quitting application has exited or will |
| GuiShell.WindowCanAlwaysBeShown | Yeonjang/src/gui.rs:417-460 | from every reachable state without an issued quit, one tick brings the window up |
| GuiShell.TickQuitsIff | Yeonjang/src/gui.rs:448-456 | a tick issues a quit if and only if the tray's quit entry was clicked |
| GuiShell.TickShowsOrHides | Yeonjang/src/gui.rs:417-447 | with a visible tray the last click that shows or hides decides the mode after a tick, and without one the window stays shown |
| GuiShell.QuitClickExits | Yeonjang/src/gui.rs:448-456 | from every reachable state with a tray a quit click, carried out, exits |
| GuiShell.HideClickHides | Yeonjang/src/gui.rs:439-447 | from every reachable state with a visible tray and no issued quit a hide click, carried out, leaves the window hidden and the application running |
| GuiShell.CloseRequestHidesOrExits | Yeonjang/src/gui.rs:461-472 | from every reachable state without an issued quit a close request, carried out, hides the window if the tray is visible and exits otherwise |
| GuiShell.YeonjangGuiApp.constructor | Yeonjang/src/gui.rs:339-391 | the start with or without a tray computes the specified application state |
| GuiShell.StartupStates | Yeonjang/src/lifecycle.rs:163-223 | how each profile starts, with and without a tray: mode, tray state, start mode and pending command |
| GuiShell.YeonjangGuiApp.OnTick | Yeonjang/src/gui.rs:417-460 | a tick applies the pending startup command first and then the tray's actions in order, and quits exactly if one of them is to quit |
| GuiShell.YeonjangGuiApp.OnCloseRequested | Yeonjang/src/gui.rs:461-472 | a close request while quitting exits at once, otherwise the machine decides |
| Fnv.StableHexHash | Yeonjang/src/settings.rs:293-300 | the loop computes the FNV-1a hash of section 2 of draft-eastlake-fnv as 16 hex digits |
| Fnv.RewindUndoesHash | Yeonjang/src/settings.rs:295-298 | for a fixed text the hash is a bijection of 64-bit states, with an inverse given by the inverse multiplier |
| Fnv.HashTextShape | Yeonjang/src/settings.rs:299-299 | the text has 16 lower-case hex digits, and reading it gives the hash back |
| Fnv.OneByteChangesHash | Yeonjang/src/settings.rs:293-300 | texts of equal length that differ in exactly one byte have different hash texts |
| Slug.SlugifySetting | Yeonjang/src/settings.rs:277-291 | the result is the words of the text, in lower case and joined by single hyphens, and it is a slug |
| Slug.SanitizeToken | Yeonjang/src/gui.rs:2140-2155 | the same slug, with "extension" in place of an empty one, so the token is a non-empty slug |
| Slug.SlugifyDevice | Yeonjang/src/platform/macos.rs:1199-1214 | the same slug, with "device" in place of an empty one, so the result is a non-empty slug |
| Slug.CollapseIsJoined | Yeonjang/src/settings.rs:280-289 | what the loops build up is the joined words with at most one hyphen at either end |
| Slug.TrimKeepsWords | Yeonjang/src/settings.rs:280-280 | trimming first makes no difference |
| Slug.SlugIsSlug | Yeonjang/src/settings.rs:277-291 | lower-case letters, digits and single inner hyphens; empty exactly if there is no ASCII letter or digit |
| Slug.SlugFixesExactlySlugs | Yeonjang/src/settings.rs:277-291 | the texts left unchanged are exactly the slugs |
| Slug.SlugIdempotent | Yeonjang/src/settings.rs:277-291 | a second application changes nothing |
| Slug.SlugKeepsLetters | Yeonjang/src/settings.rs:281-289 | a slug has exactly the letters and digits of the text, in order, in lower case |
| Settings.YeonjangSettings.ApplyIdentityDefaults | Yeonjang/src/settings.rs:142-171 | filling in place replaces the blank fields only, and the install fingerprint is that of the instance id after filling |
| Settings.FillCompletes | Yeonjang/src/settings.rs:142-171 | no identity field stays blank, non-blank ones and everything else are kept, and nothing changes if and only if nothing was blank |
| Settings.BlankIsFilledWith | Yeonjang/src/settings.rs:142-171 | what each blank field becomes |
| Settings.HostFingerprintSees | Yeonjang/src/settings.rs:268-275 | one different letter in the host's name, system or architecture changes the host fingerprint |
| Settings.InstallFingerprintSees | Yeonjang/src/settings.rs:164-170 | one different letter in the instance id or the path changes the install fingerprint |
| Settings.AliasIs | Yeonjang/src/settings.rs:243-250 | the alias keeps the letters of the host's name, or is the fixed one if there are none |
| Settings.TopicsEnd | Yeonjang/src/settings.rs:133-140 | each topic is the node's prefix and its own ending |
| Settings.FillIdempotent | Yeonjang/src/settings.rs:142-171 | filling again changes nothing, even on another host at another time |
| Settings.NewIdentitiesDiffer | Yeonjang/src/settings.rs:252-266 | two generated ids whose sources differ in a single byte are different |
| Settings.SettingsFile.LoadSettings | Yeonjang/src/settings.rs:196-214 | a load returns complete settings, writes and leaves the file as `Load` says, for files with absent keys and for every outcome of saving |
| Settings.ParsedCompleteIff | Yeonjang/src/settings.rs:20-36 | what the derived reader gives is complete if and only if no key of the file is blank, because absent keys come from defaults that are already filled |
| Settings.LoadWritesIff | Yeonjang/src/settings.rs:196-214 | a load writes if and only if the file is missing, or readable with an identity key that is there but blank |
| Settings.LoadCompletes | Yeonjang/src/settings.rs:196-214 | settings are returned unless the file is unreadable, and they are complete; what is saved is what is returned; a load that writes nothing leaves the file alone |
| Settings.AbsentIdIsNewEachTime | Yeonjang/src/settings.rs:20-21 | a file without an instance id and without blank keys gives different identities at clock readings that differ in one digit, and is written by neither load |
| Settings.NodeIdAloneNeverSettles | Yeonjang/src/settings.rs:205-213 | a file with a node id and nothing else, read a millisecond apart: two identities, nothing written |
| Settings.AbsentHostKeyVaries | Yeonjang/src/settings.rs:72-92 | any file without blank keys that lacks the instance id, the alias or one of the fingerprints is read differently in two surroundings |
| Settings.PinnedFileStays | Yeonjang/src/settings.rs:205-213 | a file with those four keys and without blank ones is never rewritten and always gives the same settings |
| Settings.AlwaysReturnsIffPinned | Yeonjang/src/settings.rs:196-214 | the files that give the same settings in every sequence of loads are exactly those, with that value |
| Settings.LoadIsFinalIff | Yeonjang/src/settings.rs:196-214 | after a load, all later loads return the same settings if and only if it saved what it filled in, or had nothing to fill in and found those four keys, or its failed save happened to leave such a file with these settings |
| Settings.SavedLoadIsFinal | Yeonjang/src/settings.rs:205-213 | once a load has saved what it filled in, all later loads return the same settings and write nothing |
| Icon.FindVisibleIconBounds | Yeonjang/src/icon.rs:107-133 | none if no alpha exceeds 8, otherwise the least rectangle that holds every visible pixel |
| Icon.VisibleMeans | Yeonjang/src/icon.rs:116-119 | a pixel is visible if its alpha byte is there and exceeds 8 |
| Icon.ContentLeavesMargin | Yeonjang/src/icon.rs:80-90 | in a square of more than 12 pixels the picture leaves six free on every side |
| Icon.TouchingBoxIsLeast | Yeonjang/src/icon.rs:107-133 | a rectangle that holds all visible pixels and touches one on every side lies in every other one that does |
| Icon.FitIconToSquare | Yeonjang/src/icon.rs:66-105 | for any rounded sizes all index arithmetic fits in 32 bits and in the buffers, and every pixel of the square is what the layout says |
| Icon.FittedInOrder | Yeonjang/src/icon.rs:93-102 | every pixel is transparent or an exact copy of a crop pixel, and rows and columns keep their order |
| Icon.SamplesAllIff | Yeonjang/src/icon.rs:95-96 | every row or column of the crop is sampled if and only if the fitted side is at least as long |
| Icon.VisiblePixelsKept | Yeonjang/src/icon.rs:66-105 | if neither side shrinks, every visible pixel of the picture is in the square |
| Cameras.ParseV4l2CameraDevices | Yeonjang/src/platform/linux.rs:717-746 | the parser's single pass with the name in force reports what `Parsed` says of the lines |
| Cameras.ParsedDescribesDeviceLines | Yeonjang/src/platform/linux.rs:717-746 | one device per device line, in order and without a gap, each under the name of the nearest header above it |
| Cameras.LinesMean | Yeonjang/src/platform/linux.rs:721-743 | headers start in the first column, device lines are indented and hold a path that starts with /dev/video |
| Cameras.AddDevVideoDevices | Yeonjang/src/platform/linux.rs:748-774 | the entries of /dev complete the list one by one, skipping ids that are there already; an entry that cannot be read fails the call |
| Cameras.CompletedAdds | Yeonjang/src/platform/linux.rs:753-773 | the given devices stay in front, what stands behind them are devices of /dev, and the ids are exactly those of both sources |
| Cameras.SortedDedupKeepsFirst | Yeonjang/src/platform/linux.rs:130-131 | the stable sort and the removal of neighbours keep exactly the first device of every id |
| Cameras.ListCameras | Yeonjang/src/platform/linux.rs:117-133 | the listing is the sorted, duplicate-free union of both sources, with strictly increasing ids, or nothing on a /dev error |
| Cameras.CameraListIsUnion | Yeonjang/src/platform/linux.rs:117-133 | ids ascend by their first differing character and are exactly those of both sources; a reported device is listed as reported first, any other one as its file in /dev; no list exactly on a /dev error |
| AppleScript.TwoReplacementsAreOneEscape | Yeonjang/src/platform/macos.rs:838-840 | the two successive replacements are one escaping pass |
| AppleScript.OtherOrderWorksIffNoQuote | Yeonjang/src/platform/macos.rs:838-840 | the opposite order is right if and only if the text has no quote |
| AppleScript.LiteralReadsBack | Yeonjang/src/platform/macos.rs:838-840 | reading the literal gives back exactly the text and leaves what follows untouched |
| AppleScript.ClosingQuoteIsFirstUnescaped | Yeonjang/src/platform/macos.rs:838-840 | every inner quote has an odd run of backslashes before it, and the closing one has not |
| AppleScript.ScriptsHoldTheText | Yeonjang/src/platform/macos.rs:573-599 | both keystroke scripts read back as the text followed by exactly the modifier clause |

## Findings

| result | source | what the code does |
|---|---|---|
| Settings.NodeIdAloneNeverSettles, Settings.LoadIsFinalIff | Yeonjang/src/settings.rs:20-21, 72-92, 205-213 | A readable file in which identity keys are absent is not completed on disk. The reader takes absent keys from default settings that are already filled, so the comparison before saving sees no change: such a file is never written, and without an instance id every load makes up another one. Loading reaches a fixed point exactly under the condition of `LoadIsFinalIff`. |
| ResponseChunks.ListenerDeliversPayload | Yeonjang/src/mqtt.rs:310-341, packages/core/src/yeonjang/mqtt-client.ts:856-865 | The node answers unparsable commands and panicked threads without an id on the shared response topic, and every waiting listener takes such an answer for its own. Delivery holds exactly if all packets of the response arrive before the first of these. |
| GuiShell.StartsConsistentIff | Yeonjang/src/lifecycle.rs:188-212, Yeonjang/src/gui.rs:263-267 | The real window and the machine start out different in the headless profile, and when the settings cannot be read but there is a tray to hide to. |

## Left out

- The MQTT library, sockets, JSON encoding and parsing, files, processes, the environment and real clocks: their results and times are inputs. Mutex poisoning is not modelled.
- The width of timestamps (64-bit milliseconds): times are unbounded integers.
- Workers for payloads that do not parse: they answer with an error and never touch the cache.
- Publication of presence and status messages, the client slot, and whether it is empty while disconnected.
- ResponseChunks.ResponseListener.OnMessage: envelopes whose index or count is not a number and the timeout are not modelled; what parsing a payload gives is an input; parts are decoded strictly, where the host's decoder is lenient about malformed text.
- ResponseChunks.ListenerDeliversPayload: two different responses under one id, as after a redelivered request, and chunk envelopes with an empty id are not among the traffic.
- Supervisor.RuntimeThread.Run: the lower-case form of an error text is an input beside the text; attempts and notifications are finite sequences, so a thread that polls for ever appears as all its finite beginnings.
- Waiting in a join: stopping the runtime takes the handle away in one step, and what the stopped thread still sends goes to a channel that is already dropped.
- AgentRun.AgentRunner.RunAgent: the text that the model sees for a tool result, recovery summaries and user-facing error texts are inputs or omitted; streams are finite and the dispatcher returns a result for every tool.
- AgentSession.ModelCallsArePaired: rows of other code are allowed between runs only; a row that delivery code stores between a tool call and its result is excluded.
- Concurrent runs in one session, the isolated, request-group and hand-off context modes, and pruning before a model call.
- System prompts, memory, tool selection, events and latency records of a run.
- GuiShell.WindowMachineAndRegistrationAgree: for starts out of step (headless profile, unreadable settings with a tray) nothing is claimed about the real window; minimising and focus are not modelled.
- Views, styling, translations, status texts and tray menu labels of the window; saving and reloading settings from it.
- Settings.SettingsFile.LoadSettings: the sections for connection, topics, permissions and language, and the pairing secret, enter as parsed (their own defaults are constants); process id and time enter as their printed digits; a file with keys of a wrong type counts as unreadable.
- Icon.FitIconToSquare: the floating-point scale is replaced by arbitrary rounded sizes, which are then clamped as in the code; PNG decoding and encoding are left out.
- Cameras.ListCameras: the report of the tool enters as its lines, and /dev as a list of entries.
- Key codes, mouse actions, screen capture, shell execution and the other platform operations; capability tables; command line; web interface.
