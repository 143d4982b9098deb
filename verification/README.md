# Verified models of the mymy agent server

Dafny models of the parts of this repository that carry protocols or algorithms, with proofs of what they promise.
`dafny verify dfyconfig.toml` checks the whole project. Each module follows one source file or one of its concerns.

**The agent's tool-calling loop** (`AgentLoop`, with `TurnState`, `ToolDispatch` and `RunBudget` for its
submodules). The class `AgentLoop.Loop` has the source's loops, early exits and counters; each of its methods is
proved equal to a specification function, and the results are about those functions: which requests are repeated
(`AgentRequests`), what each call leaves behind (`AgentResults`), how a run ends and why (`AgentRuns`,
`AgentTurns`), what it spends (`AgentSpending`), and what its history looks like (`AgentHistory`). The provider, the
tools, the clock and cancellation are an arbitrary script for each iteration, so every result holds for all
behaviours of the outside world. The loop can end without a closing event in one way only, and `OpenEndIff` says
which: the paths for an empty answer and for the completion reminder skip the check for the last iteration.
`RequestsAreWellFormedIff` names the one way in which a tool call loses its results. Where a promise has an
exception, a lemma whose name ends in `Happens` exhibits a run.

**The sandbox runner's cancel protocol** (`CancelProtocol`). Executions and cancellations share a registration map
and a cancel set; every lock section is one step of a state machine, and the results hold for all interleavings. The
class `RunnerState` has the lock sections as methods.

**The file-backed memory** (`MemoryEntries`, `MemoryStore`, `MemoryEdits`, `MemoryRuns`). Parsing and printing of
delimited entries, the store's methods over a shared disk with revision compare-and-swap, what each mutation does to
the entries, and runs of several stores and outside editors. The model shows a fault of the source: when the file a
store has read is deleted, a commit is neither written nor backed up, yet reported as a success (`FalseSuccessIff`,
`FalseSuccessHappens`). It also shows what a load that is not atomic can cost (`UpdateKeptIff`,
`SlowLoadLosesEdit`).

**Shell quoting** (`ShellQuoting`). The printer of remote commands against a lexer for the POSIX shell's quoting
rules, also under a second layer of quoting.

**Smaller algorithms.** `DeliveryBudget`: the traversal of a cyclic module graph. `Cron` and `CronClock`: matching
by clock and calendar, and the search for the next run. `CronJobs`: what becomes of due times when the scheduler is
late, under each catch-up policy. `Durations`: the parser of durations. `ArtifactPages`: keyset pagination while
rows are added, removed and touched. `EventReplay`: replay of an event log to a client that reconnects.
`DriveLocks`: the registry of weak lock references. `CredentialPool`: rotation of credentials with cooldowns.
`DrivePaths`, `PercentCoding`, `WebViewer` and `HtmlRewriting`: the web viewer's path resolution and URL rewriting.
The viewer takes paths apart by removing `/drive` as often as it leads, so a first segment that begins with `drive`
loses letters; the results give the exact condition under which this does not matter. It also decodes asset paths
twice, once in the route and once in the resolution, which limits what comes back unchanged
(`RewrittenUrlComesBack`, `DecodedTwiceHappens`).

`Text` and `Decimal` hold the string and number operations the others share.

How the models stand for the source: lock sections and file operations are single steps; hashes are injective; time
is a number; a call whose outcome comes from outside (provider, tools, database reads, other tasks) is an argument
or a nondeterministic choice.

## Model

| member | source | states |
|---|---|---|
| `AgentLoop.Loop.ReadStream` | api/src/agent/loop_engine.rs:261-335 | Consuming a provider stream delta by delta emits the display deltas in order and stops where the stream ends, breaks off or the run is cancelled; what was received is exactly what the turn is assembled from. |
| `AgentLoop.Loop.Request` | api/src/agent/loop_engine.rs:236-335 | One attempt: a refused or broken request is retried only before the first delta, with the delay its error class and the shared retry index give; otherwise it reports the provider as unavailable or failed and closes the run. |
| `AgentLoop.Loop.RequestTurn` | api/src/agent/loop_engine.rs:232-338 | All attempts of a turn share one retry index; the outcome (events, deltas, ending) is that of the recursion over attempts, and the loop itself makes at most 7 requests and waits at most 180 seconds. |
| `AgentLoop.Loop.FinishAll` | api/src/agent/loop_engine.rs:532-548 | The loop over completions fills the slots in the order the calls complete, so that every slot holds the result of its own call, and the finish events come in that order. |
| `AgentLoop.Loop.RunGroup` | api/src/agent/loop_engine.rs:462-571 | A parallel group counts and announces all its calls first, then appends their results to the history in call order, then honours cancellation and the iteration limit. |
| `AgentLoop.Loop.HandleCall` | api/src/agent/loop_engine.rs:612-766 | One dispatched call: clarification, durable decision (which may pause the run), delegation (which is charged for its tokens) or execution, with the events and the one result message each of them leaves. |
| `AgentLoop.Loop.RunSerially` | api/src/agent/loop_engine.rs:573-772 | The serial loop checks cancellation and the tool limit before every call, stops where a call ends the run, and checks the iteration limit only after the last call. |
| `AgentLoop.Loop.Proceed` | api/src/agent/loop_engine.rs:422-571 | What follows a finished turn: the completion reminder, the closing events, or the tools, parallel or serial. |
| `AgentLoop.Loop.RunTurn` | api/src/agent/loop_engine.rs:205-772 | One iteration of the loop, from the budget checks to the tool results, as a function of the state and of what provider, tools and clock answer. |
| `AgentLoop.Loop.Run` | api/src/agent/loop_engine.rs:185-775 | The whole run of the imperative loop is the recursion over iterations about which the results below are proved, with at most 7 requests and 180 seconds of waiting for each of min(maxIterations, maxApiCalls) turns. |
| `AgentLoop.RetriesEnd` | api/src/agent/loop_engine.rs:41-57 | A retry uses up one of the six delays and waits at most 30 seconds. |
| `AgentLoop.OrderCovers` | api/src/agent/loop_engine.rs:532-549 | A completion order that delivers each of the n results once delivers every one of them, so no result slot stays empty. |
| `AgentLoop.FilledInAnyOrder` | api/src/agent/loop_engine.rs:532-549 | In whatever order the calls complete, each slot ends up with the result of its own call. |
| `AgentLoop.RequestsBounded` | api/src/agent/loop_engine.rs:41-57 | From any retry index on, one model turn makes at most 7 requests less the retries used up and waits at most 30 seconds for each retry left, request failures and first-delta failures sharing one index, for every behaviour of the provider. |
| `AgentRequests.RetryIff` | api/src/agent/providers/mod.rs:149-160 | Exactly rate limits, network errors, ended streams and the statuses 408, 425, 500, 502, 503 and 504 are retried, six times in all, after the provider's own delay up to 30 seconds or after 1, 2, 4, 8, 16 and 30 seconds. |
| `AgentRequests.ConsumedAre` | api/src/agent/loop_engine.rs:261-335 | A stream yields its leading deltas, and the first item that is none tells whether it broke off or was cancelled. |
| `AgentRequests.ShownAre` | api/src/agent/loop_engine.rs:325-332 | The deltas shown are the texts and the reasonings, one event each, in the order received. |
| `AgentRequests.RepeatsIff` | api/src/agent/loop_engine.rs:236-322 | A request is repeated exactly if it failed on a retryable error before its first delta, a retry is left, and the wait is not cancelled. |
| `AgentRequests.StumbledEnd` | api/src/agent/loop_engine.rs:248-322 | A failed request that is not repeated shows nothing and cuts the turn off, reports the provider as unavailable, or fails the turn, according to its error, to the retries left and to the cancellation of its wait. |
| `AgentRequests.AnsweredEnd` | api/src/agent/loop_engine.rs:248-335 | A stream shows its leading deltas and finishes the turn with them, unless an error or a cancellation comes behind them. |
| `AgentRequests.RequestsAre` | api/src/agent/loop_engine.rs:232-338 | The requests of a turn come to what the first one comes to that is not repeated; the earlier ones only add to the count and the waiting time. |
| `AgentRequests.FinishedIff` | api/src/agent/loop_engine.rs:232-338 | A turn is finished with a list of deltas exactly if that first request streams just this list to its end. |
| `AgentRuns.NothingFollowsTheEnd` | api/src/agent/loop_engine.rs:205-773 | In every run nothing follows Done or RunPaused, and every Error or ProviderUnavailable is followed at once by the closing Done and by nothing else. |
| `AgentRuns.StatesOfRun` | api/src/agent/loop_engine.rs:205-773 | As long as a run has not ended, it continues from the state its iterations so far have left. |
| `AgentRuns.LastTurnChecked` | api/src/agent/loop_engine.rs:565-571 | The last allowed iteration never lets the loop go on by its normal path. |
| `AgentRuns.OpenEndIff` | api/src/agent/loop_engine.rs:205-773 | A run ends with neither Done nor RunPaused exactly when no iteration was allowed, or the last allowed iteration took one of the two `continue` paths that skip the iteration check. |
| `AgentRuns.OpenEndHappens` | api/src/agent/loop_engine.rs:345-351 | A run that ends so: one allowed iteration and a provider that streams nothing. |
| `AgentRuns.SkipIff` | api/src/agent/loop_engine.rs:345-351 | Those two paths are taken exactly for an empty turn within the tolerated number of empty answers, and for a first Stop that a pending completion reminder answers. |
| `AgentTurns.RunFailsIff` | api/src/agent/loop_engine.rs:205-773 | A run ends with an error of some kind exactly if it gets to an iteration that fails for that reason, each of the twelve reasons being a condition on budgets, limits, answers, turn and counters, so that every error has its cause and no cause goes unreported. |
| `AgentTurns.GoesOnIff` | api/src/agent/loop_engine.rs:205-773 | A run goes on after an iteration exactly if no limit was reached, the model answered, and the answer was tolerated silence, a stop that a reminder answers, or calls that were all made before the last allowed iteration. |
| `AgentTurns.SerialReports` | api/src/agent/loop_engine.rs:573-772 | Calls made one after the other end the run with an error exactly if one of them finds the tool budget used up, the ones before it having been made, or all are made in the last allowed iteration. |
| `AgentTurns.GroupTold` | api/src/agent/loop_engine.rs:462-571 | Reads that run together are told with all starts in call order before all finishes in completion order, each finish with its own result; all are counted, and an interruption ends the run. |
| `AgentTurns.DispatchIs` | api/src/agent/loop_engine.rs:462-467 | Calls run together exactly if they are at least two parallel reads of different resources for which the tool budget has room. |
| `AgentTurns.UnansweredEnd` | api/src/agent/loop_engine.rs:236-338 | A turn without an answer ends the run after what was shown, counted unless it was cancelled before the answer began. |
| `AgentTurns.FinalTurn` | api/src/agent/loop_engine.rs:356-452 | A recorded turn that asks for no tools leaves its message, replaced history if compressed, and tokens, and ends the run, unless a first stop is answered by a reminder. |
| `AgentTurns.CountersAre` | api/src/agent/loop_engine.rs:195-202 | At every iteration of every run the token count is that of all turns and delegations so far up to the top of its range, the count of empty turns that of the silent turns right before, and a reminder has been sent exactly if the model has stopped before. |
| `AgentSpending.SpendingBounded` | api/src/agent/loop_engine.rs:205-226 | Every run starts at most min(maxIterations, maxApiCalls) model turns and no more tool calls than its budget unless that is the largest 32-bit number; its counter agrees with the announced calls, and Done reports both totals, leaving out the last turn exactly if the run was cancelled before that turn's request was answered. |
| `AgentSpending.BatchCheckIsSoundIff` | api/src/agent/loop_engine/budget.rs:46-50 | The check of a parallel batch keeps the limit for every count exactly when the limit is below the largest 32-bit number, where the saturating sum hides the excess. |
| `AgentSpending.TurnAccounted` | api/src/agent/loop_engine.rs:205-772 | One iteration keeps the account: turns started, calls started and the counter agree and stay within the budget, whatever path it takes. |
| `AgentResults.RouteIff` | api/src/agent/loop_engine/dispatch.rs:48-141 | Every call is of exactly one kind by policy, name and arguments: refused, executed, delegated or asked, the last durably or through the clarify gate. |
| `AgentResults.RefusedCall` | api/src/agent/loop_engine.rs:612-625 | A call that is not allowed, one of the tools a delegated child never has, a question that does not say whether it blocks, or a delegation that does not parse leaves its refusal and is never executed. |
| `AgentResults.ExecutedCall` | api/src/agent/loop_engine.rs:612-624 | Any other tool, and a question nobody can answer, leaves what the registry makes of it. |
| `AgentResults.DelegatedCall` | api/src/agent/loop_engine.rs:727-749 | A delegation leaves the report of its children, and their tokens are charged. |
| `AgentResults.ClarifiedCall` | api/src/agent/loop_engine.rs:626-665 | A question put to the user leaves the answer; only a cancellation ends the run instead, without a result. |
| `AgentResults.DecidedCall` | api/src/agent/loop_engine.rs:666-726 | A durable question leaves what its coordinator reports, unless it suspends the run or no coordinator is there. |
| `AgentResults.StoppedCall` | api/src/agent/loop_engine.rs:574-582 | A cancellation or a used-up tool budget before a call ends the run with the call neither counted nor announced, the cancellation being checked first. |
| `AgentResults.TurnAdds` | api/src/agent/loop_engine.rs:358-766 | Whatever an iteration generates is the assembled turn and behind it, for its calls in order as far as they got, what each of them may leave. |
| `AgentResults.ResultsAreTrue` | api/src/agent/loop_engine.rs:358-766 | In every run each result behind an assistant message belongs to the call of its place: a refused call has left its refusal and nothing else, an executed one what the registry made of it, unless it was a parallel read that was interrupted. |
| `AgentHistory.RequestsAreWellFormedIff` | api/src/agent/loop_engine.rs:358-766 | While compression has not replaced the history, at each model request every assistant tool call is followed directly by exactly one result per call in call order, if and only if no earlier turn that asked for tool calls finished with Stop and met an unsent, pending reminder (and no limit or lost checkpoint in the way). |
| `AgentHistory.TearsTurnIff` | api/src/agent/loop_engine.rs:422-436 | Those guards of the reminder branch hold exactly for the turns whose message is followed by the reminder instead of results. |
| `AgentHistory.TornRequestHappens` | api/src/agent/loop_engine.rs:428-435 | A run in which this happens: the next request shows the model an assistant call that nobody answered. |
| `AgentHistory.TearsNeedStop` | api/src/agent/loop_engine.rs:422-436 | Only a provider that reports Stop together with tool calls can tear a call from its results. |
| `AgentHistory.RequestsAreWellFormed` | api/src/agent/loop_engine.rs:358-766 | So with a provider that never does, every request of every run is well formed. |
| `AgentHistory.GeneratedIsAppended` | api/src/agent/loop_engine.rs:358-366 | The generated messages of every run are exactly the assistant and tool messages it appends to the history, in order, without injected user messages; where compression replaces the history meanwhile, they are those the same run appends without it. |
| `AgentHistory.ParallelIsSerial` | api/src/agent/loop_engine.rs:462-571 | For an eligible batch that fits the budget, the parallel group leaves the same history, generated messages, counters and control flow as the serial loop would. |
| `AgentHistory.CompletionOrderIsInvisible` | api/src/agent/loop_engine.rs:532-555 | For every completion order the messages read off the filled slots are the group's messages in call order, and two orders leave states that differ in nothing but the order of the finish events. |
| `AgentHistory.ContributionExtends` | api/src/agent/loop_engine.rs:358-366 | What one iteration appends keeps a history well formed, unless it is a reminder after unanswered calls, which tears it for good. |
| `TurnState.TurnAccumulator.Apply` | api/src/agent/loop_engine/turn_state.rs:47-99 | Absorbing one more delta keeps the accumulator equal to the meaning of all deltas so far: texts, calls by index, the last usage that reports anything, and the last finish reason other than Stop, if any. |
| `TurnState.TurnAccumulator.Complete` | api/src/agent/loop_engine/turn_state.rs:101-109 | The completed turn is the meaning of the whole list of deltas. |
| `TurnState.OrderAbsorbed` | api/src/agent/loop_engine/turn_state.rs:1-5 | Two streams with the same text, reasoning and finish deltas in order, and the same deltas for each call index, assemble to the same turn however these are interleaved. |
| `TurnState.ListingOrdered` | api/src/agent/loop_engine/turn_state.rs:101-109 | The turn lists every call exactly at the rank of its provider index. |
| `TurnState.FinishReasonIff` | api/src/agent/loop_engine/turn_state.rs:82-98 | A turn ends for a reason other than Stop exactly if some delta reports it and no later one reports any other than Stop, and with Stop exactly if no other is ever reported. |
| `TurnState.UsageIff` | api/src/agent/loop_engine/turn_state.rs:82-93 | The usage is that of the last delta that reports any at all, and nothing exactly if none does. |
| `TurnState.FragmentsAreJoined` | api/src/agent/loop_engine/turn_state.rs:47-58 | Content and reasoning are the fragments of their kind joined in the order they came. |
| `TurnState.AssembledCall` | api/src/agent/loop_engine/turn_state.rs:59-81 | The turn has one call for each index mentioned, in index order, named by its last start and with the arguments that came after that, or, if never started, named after its index and with all its arguments. |
| `ToolDispatch.EligibleIff` | api/src/agent/loop_engine/dispatch.rs:62-87 | A batch may run in parallel exactly when it has at least two calls, all allowed, executable and parallel-safe, no two on the same resource. |
| `ToolDispatch.EligibleMeansExecute` | api/src/agent/loop_engine/dispatch.rs:48-60 | Every call of an eligible batch is one the serial dispatch would execute plainly. |
| `RunBudget.AllotmentConserves` | api/src/agent/loop_engine/budget.rs:74-80 | A pool divided among children is handed out completely, in shares that differ by at most one, and with at least one each when there are enough. |
| `RunBudget.ChildTokenPool` | api/src/agent/loop_engine.rs:792-795 | The parent keeps a reserve of a quarter, at least 1000 tokens or all there is; the rest is the children's. |
| `RunBudget.AllotTasks` | api/src/agent/loop_engine.rs:786-805 | A fan-out beyond the remaining model turns starts nothing and leaves the tasks alone; otherwise each task gets its own share. |
| `RunBudget.DelegationConserves` | api/src/agent/loop_engine.rs:786-805 | The children together get no more model turns than remain, and exactly the remaining tool calls and the token pool; each gets the equal share of its place, rounded up for the first ones, and of turns no more than it asked for. |
| `CancelProtocol.AcceptedIdsAreCancellable` | api/src/sandbox_runner/mod.rs:186-193 | The identifiers an execution may carry are exactly those a cancellation reads back unchanged. |
| `CancelProtocol.AcceptedIff` | api/src/sandbox_runner/mod.rs:186-193 | An identifier is accepted exactly if it has 1 to 256 characters and none of them is white space. |
| `CancelProtocol.RunnerState.RegisterExecution` | api/src/sandbox_runner/mod.rs:221-233 | Registration maps the identifier to the process and touches nothing else. |
| `CancelProtocol.RunnerState.FinishExecution` | api/src/sandbox_runner/mod.rs:235-244 | Finishing removes the registration and the cancellation of that identifier only. |
| `CancelProtocol.RunnerState.CancelExecution` | api/src/sandbox_runner/mod.rs:186-208 | A cancellation with a bad identifier changes nothing; any other records the identifier first and then returns the process registered at that point. |
| `CancelProtocol.StepKeepsInv` | api/src/sandbox_runner/mod.rs:108-244 | Every step of every task, each lock section being one step, keeps the invariant: registrations match the tasks' positions, and every returned cancellation is honoured or will be. |
| `CancelProtocol.NoCancelLost` | api/src/sandbox_runner/mod.rs:119-163 | In every interleaving, once a cancel of an execution has returned, the process was never spawned, has been signalled, has been reaped, or is still ahead of its check after registration. |
| `CancelProtocol.AheadIsSignalled` | api/src/sandbox_runner/mod.rs:148-163 | An execution still ahead of that check when the cancel returns settles within a fixed number of its own steps, whatever the others do: it refuses to start, or its process is signalled or reaped. |
| `CancelProtocol.StartEscapesOnlyAfterHandOver` | api/src/sandbox_runner/mod.rs:262-369 | A started background process escapes a returned cancel only if that looked after the start had handed the process to the process table and deregistered it. |
| `CancelProtocol.EscapesIff` | api/src/sandbox_runner/mod.rs:262-369 | Once a start has handed over and deregistered its process and no signal is pending, the process is unsignalled if and only if no cancel of it was recorded before its check after registration and none looked it up while it was registered. |
| `CancelProtocol.EscapeHappens` | api/src/sandbox_runner/mod.rs:302-359 | A run that escapes: the cancel comes after deregistration, both calls return, and the process is neither signalled nor reaped. |
| `CancelProtocol.OnlyCaughtAreSignalled` | api/src/sandbox_runner/mod.rs:119-163 | In every run no execution of either kind is refused or signalled without cause: a cancel of it was recorded before its check after registration, one looked it up while it was registered, or it timed out while it waited. |
| `CancelProtocol.SignalledIffCaught` | api/src/sandbox_runner/mod.rs:119-163 | Once an execution of either kind is through and no signal to it is pending, it has been refused or signalled exactly if it was caught in one of these ways. |
| `CancelProtocol.RefusedIff` | api/src/sandbox_runner/mod.rs:119-130 | An execution past its first check has been refused, its process never spawned, exactly if a cancel of it was recorded before that check. |
| `CancelProtocol.NothingStaysRegistered` | api/src/sandbox_runner/mod.rs:235-244 | When every execution has returned, none of them is left in the registration map. |
| `CancelProtocol.CancelStaysIff` | api/src/sandbox_runner/mod.rs:235-244 | Once an execution is over its identifier is left in the cancel set exactly if a cancel was recorded after that; an identifier without execution is left there by any cancel. |
| `MemoryEntries.SanitizeIsNotIdempotent` | api/src/agent/memory.rs:411-413 | One content that sanitizing twice changes more than sanitizing once. |
| `MemoryEntries.SanitizeTwiceIff` | api/src/agent/memory.rs:411-413 | Sanitizing a sanitized content leaves it alone exactly when the trimmed content holds no line break of two characters behind another carriage return. |
| `MemoryEntries.ReadBackIff` | api/src/agent/memory.rs:395-409 | Serialized entries read back unchanged exactly when each is non-empty, fixed by sanitizing and delimiter-free, and none but the last ends in a newline and a section sign. |
| `MemoryEntries.ReloadIff` | api/src/agent/memory.rs:395-424 | A reload, which also removes duplicates, gives the entries back exactly when they survive and are distinct. |
| `MemoryEntries.AddedReloadsIff` | api/src/agent/memory.rs:130-154 | An addition to a list that reloads gives one that does exactly when the content sanitizes once and for all, holds no delimiter, and the entry so far last does not end in a newline and a section sign. |
| `MemoryEntries.ReplacedReloadsIff` | api/src/agent/memory.rs:156-181 | A replacement does exactly when the new content is fit in the same way and not empty, equals no other entry, and comes last or does not end in a newline and a section sign. |
| `MemoryEntries.RemovedReloads` | api/src/agent/memory.rs:183-198 | A removal always does. |
| `MemoryEntries.Dedupe` | api/src/agent/memory.rs:415-424 | The loop over a set of seen entries computes the de-duplication by first occurrence. |
| `MemoryEntries.Deduped` | api/src/agent/memory.rs:415-424 | De-duplication keeps every entry exactly once. |
| `MemoryEntries.DedupeFixed` | api/src/agent/memory.rs:415-424 | De-duplication leaves exactly the lists without duplicates alone. |
| `MemoryEntries.UniqueMatch` | api/src/agent/memory.rs:440-450 | A match is reported exactly when one entry alone contains the text, and it is that entry. |
| `MemoryEntries.RemovalShortens` | api/src/agent/memory.rs:183-198 | Removing an entry never lengthens the file, so removal needs no limit check. |
| `MemoryStore.MemoryStore.Load` | api/src/agent/memory.rs:101-120 | Loading keeps the de-duplicated entries and the revision of both files. |
| `MemoryStore.MemoryStore.CommitEntries` | api/src/agent/memory.rs:293-321 | A commit on a drifted file changes neither entries nor file and backs the file up; any other commit writes exactly the serialized entries and remembers their revision. |
| `MemoryStore.MemoryStore.AddEntry` | api/src/agent/memory.rs:130-154 | Adding refuses empty and duplicate content and a result over the limit, the fourth such failure in a row ending the attempts; otherwise it commits. The new state, the file and the answer are those of the transition the run results are about. |
| `MemoryStore.MemoryStore.ReplaceEntry` | api/src/agent/memory.rs:156-181 | The same for replacing: refused unless exactly one entry contains the text, its place kept; the new content is neither checked for emptiness nor for duplicates. |
| `MemoryStore.MemoryStore.RemoveEntry` | api/src/agent/memory.rs:183-198 | The same for removing: refused unless exactly one entry contains the text; the order of the others is kept and no limit is checked. |
| `MemoryStore.MemoryStore.ApplyBatch` | api/src/agent/memory.rs:200-259 | A batch is applied to a copy in order, the first refusal discarding it all, and committed as a whole or not at all, with one limit check at the end. |
| `MemoryRuns.UnwrittenChangesNothing` | api/src/agent/memory.rs:130-321 | A mutation that is not written changes no entries and no file; one that is written leaves the file equal to the store's entries and the other target untouched. |
| `MemoryRuns.FalseSuccessIff` | api/src/agent/memory.rs:310-313 | Success is reported without a write exactly when the store had read a file that has been deleted since. |
| `MemoryRuns.FalseSuccessHappens` | api/src/agent/memory.rs:493-496 | A run in which this happens: load, deletion by someone else, add. |
| `MemoryRuns.DriftIsPreserved` | api/src/agent/memory.rs:310-313 | A commit on a drifted file leaves the file and, if there is one, a backup with its exact bytes, and reports the failure. |
| `MemoryRuns.SuccessfulBatch` | api/src/agent/memory.rs:200-259 | Every committed batch leaves exactly the entries and the file that its operations applied one at a time leave, with the limit checked only at the end. |
| `MemoryRuns.BatchCommitsIff` | api/src/agent/memory.rs:200-259 | A batch is committed exactly when the file has not drifted, there is an operation, each is possible in turn (a duplicate addition being possible and doing nothing), and the final list fits the limit, whatever the lists on the way. |
| `MemoryRuns.SuccessfulBatchInLimits` | api/src/agent/memory.rs:200-259 | Through the single methods with their own limit checks the same comes out when no list on the way is over the limit. |
| `MemoryRuns.ApplyKeepsBounded` | api/src/agent/memory.rs:426-428 | Every mutation keeps both targets within their character limits, refused or not. |
| `MemoryRuns.BoundedForever` | api/src/agent/memory.rs:426-428 | So a store within its limits stays within them through every sequence of operations of all stores and outside editors. |
| `MemoryRuns.NoUpdateLost` | api/src/agent/memory.rs:293-321 | Over every interleaving of several stores and outside edits, for a store whose load reads everything at once, a written mutation replaces exactly the bytes that store last read or wrote, and one that is not written leaves files and entries as they were. |
| `MemoryRuns.ReplacesRevised` | api/src/agent/memory.rs:293-321 | With loads whose four readings happen one by one among the others' steps, a written mutation replaces exactly the bytes whose revision the store last took or set. |
| `MemoryRuns.UpdateKeptIff` | api/src/agent/memory.rs:101-120 | Then a written mutation replaces the bytes its entries come from exactly when entries and revision come from the same bytes. |
| `MemoryRuns.SlowLoadLosesEdit` | api/src/agent/memory.rs:101-120 | A run in which they do not: an edit between the two readings of a load is overwritten by the next addition, without a backup. |
| `MemoryRuns.StaleStoreIsRefused` | api/src/agent/memory.rs:310-313 | Of two stores that have seen the same file, the second cannot write over what the first has changed. |
| `MemoryRuns.SameRevisionIff` | api/src/agent/memory.rs:479-491 | Revisions agree exactly for the same bytes, a missing file counting as the bytes `<missing>`. |
| `MemoryRuns.WrittenReadsBackIff` | api/src/agent/memory.rs:130-198 | After a single mutation of a list that reloads has been written, the next load reads exactly the entries the store holds, if and only if those conditions on the content and the entries found are met. |
| `MemoryRuns.BatchReadsBack` | api/src/agent/memory.rs:200-259 | After a batch it does exactly when the final list reloads, as it does when each operation in turn meets those conditions or has nothing to do. |
| `MemoryRuns.ReplaceMayStoreEmpty` | api/src/agent/memory.rs:156-181 | A replacement that stores an empty entry, which a reload loses. |
| `MemoryEdits.WrittenIff` | api/src/agent/memory.rs:130-198 | A single mutation is written exactly when the file has not drifted and the edit exists and, unless it removes, fits 2200 or 1375 characters; the entries then are the old ones with the new text behind them, with the only match replaced in its place, or without the only match, all others in their order. |
| `MemoryEdits.WrittenBatchIff` | api/src/agent/memory.rs:200-259 | A batch is written exactly when the file has not drifted and its operations lead, edit by edit and with duplicate additions left out, from the old entries to a list that fits; that list are the entries then. |
| `MemoryEdits.ReportIff` | api/src/agent/memory.rs:130-198 | Each refusal of a single mutation has exactly one cause: empty content, a duplicate, no unique match, too long a result, or a drifted file; the report counts and shows the entries as they are. |
| `MemoryEdits.BatchReportIff` | api/src/agent/memory.rs:200-259 | A batch is refused because it is empty, because an operation is not possible in turn, or because the result is too long, each told apart, and the entries are shown unless it is empty. |
| `MemoryEdits.ReportIs` | api/src/agent/memory.rs:323-380 | Every report counts the entries as they are then; only successes, drift and giving up are final; a backup is named exactly for a drifted file that was there. |
| `MemoryEdits.TooLongInARow` | api/src/agent/memory.rs:361-380 | Since the last success or reset, edits that are too long change nothing, and the fourth in a row and those after it are told to give up. |
| `MemoryEdits.FailuresIff` | api/src/agent/memory.rs:361-380 | A success starts that count afresh, and nothing else but an edit that is too long touches it. |
| `ShellQuoting.QuoteRoundTrip` | api/src/sandbox_runner/host.rs:28-33 | Lexing a quoted value by the quoting rules of the POSIX.1-2017 Shell Command Language (sections 2.2.2 and 2.2.3) gives exactly one word equal to the value, if and only if the value is free of NUL. |
| `ShellQuoting.RunQuoted` | api/src/sandbox_runner/host.rs:28-33 | In any context outside quotes, a quoted value adds exactly its text to the current word. |
| `ShellQuoting.KeptInOrder` | api/src/sandbox_runner/path_policy.rs:54-63 | Exactly the bindings whose names are safe are kept, each as often as it stands there and in order. |
| `ShellQuoting.SafeKeyIff` | api/src/sandbox_runner/path_policy.rs:54-63 | A name is safe exactly if it is made of capitals, digits and underscores and none of the words KEY, TOKEN, SECRET and PASSWORD occurs in it. |
| `ShellQuoting.RemoteCommandRoundTrip` | api/src/sandbox_runner/host.rs:35-52 | Lexing the remote command gives back the directory, each kept binding and the command unchanged, if and only if they are free of NUL. |
| `ShellQuoting.NestedRemoteCommand` | api/src/sandbox_runner/host.rs:28-52 | Quoted once more behind any command prefix, the remote command is one word, and lexing that word gives everything back. |
| `ShellQuoting.NestedUnpack` | api/src/sandbox_runner/firecracker_runtime.rs:421-443 | The same for the unpack command sent to the guest, whose mount path stays one argument each time. |
| `DeliveryBudget.CollectStaticFiles` | web/scripts/check-delivery-budget.ts:88-95 | The recursion over one shared set ends on cyclic imports, keeps what is there, adds only files the key needs, and settles every chunk it enters when names are apart. |
| `DeliveryBudget.StaticFiles` | web/scripts/check-delivery-budget.ts:88-95 | Only files and styles of chunks reachable from the key are collected, and all of them when chunk files are distinct and differ from style names. |
| `DeliveryBudget.OrderIndependent` | web/scripts/check-delivery-budget.ts:92-93 | The order of imports and styles does not matter. |
| `DeliveryBudget.RouteFiles` | web/scripts/check-delivery-budget.ts:49-50 | A route is charged for exactly the files it needs and the entry does not. |
| `Cron.SteppedIff` | api/src/agent/scheduler.rs:335-336 | A number passes the range and remainder test exactly when it is start, start + step, start + 2 step, ... up to the end. |
| `Cron.PartDenotesIff` | api/src/agent/scheduler.rs:307-327 | A text denotes a stepped range exactly when it is a star, a number or two joined by a dash, and perhaps a step, all numbers within 32 bits and the step above zero; any other text matches nothing. |
| `Cron.FieldMatchesIff` | api/src/agent/scheduler.rs:301-305 | A field of any text matches exactly the union of the stepped ranges its comma-separated parts denote, a part that starts at 7 seeing Sunday as 7. |
| `Cron.SundayIff` | api/src/agent/scheduler.rs:330-336 | On Sundays a part that starts at 7 matches if its range has 7 and any other if its range has 0, so that a range such as 5-7 leaves Sunday out. |
| `Cron.ClockReads` | api/src/agent/scheduler.rs:289-299 | The values the five fields are matched against are the minute, hour, day, month and weekday of the time. |
| `Cron.CronMatchesIff` | api/src/agent/scheduler.rs:289-299 | An expression of any text matches exactly the minutes all its five fields mean, and none if it has not five. |
| `CronClock.CivilIsGregorian` | api/src/agent/scheduler.rs:289-299 | The calendar these results are about exists: day by day from 1 January 1970, with its leap years, and back. |
| `CronClock.RangesAreTight` | api/src/agent/scheduler.rs:289-299 | The least and the greatest value of the minute, hour, day and month fields are exactly those that clock and Gregorian calendar show, both attained and none beyond. |
| `CronClock.WeekdaysAreTight` | api/src/agent/scheduler.rs:289-299 | Days of the week run from 0 to 6, both attained, while the range of their field ends with 7. |
| `CronClock.StarStepOf` | api/src/agent/scheduler.rs:307-337 | A star with the step n matches the minutes, the hours and the days of the week that n divides, and the first day of a month or the first month of a year and every n-th after it. |
| `CronClock.DueAt` | api/src/agent/scheduler.rs:270-299 | An expression is due at a nanosecond exactly if that is a whole minute all five fields mean, by minute, hour, day, month and weekday of the date. |
| `Cron.WordsOfSpaced` | api/src/agent/scheduler.rs:290-293 | Splitting at white space finds exactly the words, however wide the gaps between and around them. |
| `Cron.NextCronRun` | api/src/agent/scheduler.rs:270-287 | The minute-by-minute loop returns the first matching minute of the 366 days after the given time, and 24 hours later if there is none. |
| `Cron.NextRunIsNext` | api/src/agent/scheduler.rs:270-287 | The next run is strictly later and nothing due lies in between; it is due itself exactly when something within 366 days is, and otherwise it is 24 hours later. |
| `CronJobs.CronJob.EnqueueDueOccurrence` | api/src/services/cron/durable.rs:503-633 | A tick that finds the job due records one occurrence, skips it if it is blocked or too late for the skip policy, and schedules the next one from the occurrence's own time under the policy all and from the current time otherwise; every tick keeps the job's history consistent. |
| `CronJobs.OccurrencesIncrease` | api/src/services/cron/durable.rs:869-898 | Occurrences are scheduled for strictly later and later times, and under the other policies each after the tick of the one before. |
| `CronJobs.RunsIff` | api/src/services/cron/durable.rs:503-533 | An occurrence runs exactly if nothing else blocks it and its job does not skip, or the tick comes at most 120 seconds late. |
| `CronJobs.CatchesUpOnAll` | api/src/services/cron/durable.rs:876-881 | Under the policy all every due time after the first occurrence has an occurrence of its own, however late the ticks are. |
| `CronJobs.MissedIff` | api/src/services/cron/durable.rs:876-881 | Under the policies skip and latest a due time has no occurrence exactly when it lies after some occurrence's time and not after the tick that came to it. |
| `CronJobs.LateTickMisses` | api/src/services/cron/durable.rs:876-881 | A run in which one is missed: a job for every minute under the default policy and a tick two minutes late. |
| `CronJobs.OccursWhenDue` | api/src/services/cron/durable.rs:869-898 | An occurrence after the first falls on a due time exactly when anything is due within 366 days of the time it was scheduled from. |
| `Durations.ParseDurationSeconds` | api/src/agent/scheduler.rs:232-258 | The accumulating loop reads digits up to their unit and sums up, and gives nothing for digits without a unit, a unit without digits, an unknown unit, overflow or zero. |
| `Durations.DurationIff` | api/src/agent/scheduler.rs:232-258 | A text is a duration exactly when, trimmed, it is digit runs with known units behind them whose sum in seconds is positive and fits 64 bits; the duration is that sum. |
| `Durations.UnitIff` | api/src/agent/scheduler.rs:243-250 | Seconds, minutes, hours, days and weeks are the only units, with these lengths. |
| `ArtifactPages.TopRowsIsAnswer` | api/src/services/artifacts.rs:102-121 | The query's answer: the first rows below the cursor in strictly descending order of activity and identifier, every row left out being below all of them. |
| `ArtifactPages.ListSessionArtifacts` | api/src/services/artifacts.rs:83-163 | One request: a limit outside 1 to 100 or a cursor that is malformed, of another session or version is refused; otherwise the page, the extra row popped, and a cursor at its last row if there is more. |
| `ArtifactPages.CursorIsAccepted` | api/src/services/artifacts.rs:126-142 | A cursor given out is accepted for the same session whatever the table has become, and resumes right below the page's last row. |
| `ArtifactPages.RefusedIff` | api/src/services/artifacts.rs:83-101 | A query is refused exactly for a limit outside 1 to 100 or a cursor that is garbled, of another version or of another session. |
| `ArtifactPages.PageIsFull` | api/src/services/artifacts.rs:102-142 | A page shows rows ahead of its cursor with their titles, as many as the limit allows, and gives a cursor out exactly if it leaves any out. |
| `ArtifactPages.FetchDescends` | api/src/services/artifacts.rs:102-121 | Over all pages, while the table changes in any way between them, the list descends strictly. |
| `ArtifactPages.NeverTwice` | api/src/services/artifacts.rs:102-121 | No artifact is delivered twice, whatever is added, removed or touched between the pages. |
| `ArtifactPages.UntouchedIsDelivered` | api/src/services/artifacts.rs:122-142 | A client that reaches the end has been given every row that was not touched meanwhile. |
| `ArtifactPages.UnchangedIsWhole` | api/src/services/artifacts.rs:83-163 | With nothing touched, the pages together are the whole listing of the session, in order. |
| `DrivePaths.NormalizedHasSegments` | api/src/services/drive/paths.rs:154-181 | A normalized path consists of proper segments: none empty, dot, dot-dot or with a slash. |
| `DrivePaths.NormalizeIff` | api/src/services/drive/paths.rs:154-181 | Refused are the paths outside the Drive and those with a segment that is a single or double dot; an empty path means the Drive itself. |
| `DrivePaths.TrimSpaceIs` | api/src/services/drive/paths.rs:154-181 | What is left of a trimmed path lies between white space characters and neither begins nor ends with one. |
| `DrivePaths.NormalizeAgainIff` | api/src/services/drive/paths.rs:154-181 | Normalizing a normalized path again leaves it alone exactly when its first segment does not begin with `drive` and it does not end in white space. |
| `DrivePaths.DoubledSlash` | api/src/services/drive/paths.rs:166-180 | Every path of proper segments, also one whose first segment begins with `drive`, is the normal form of some text, unless it ends in white space. |
| `DrivePaths.TrailingSlash` | api/src/services/drive/paths.rs:166-180 | A path whose first segment does not begin with `drive` is the normal form of itself with a slash behind it, also if it ends in white space. |
| `DrivePaths.SpaceEndHappens` | api/src/services/drive/paths.rs:154-181 | A normal form that ends in white space, which normalizing it again loses. |
| `DrivePaths.PartsOfPath` | api/src/handlers/web_viewer.rs:278-284 | Taking a path apart drops leading `drive` segments, and the letters `drive` at the start of the first other segment. |
| `DrivePaths.PartsRoundTripIff` | api/src/handlers/web_viewer.rs:278-292 | Taking a path apart and putting it together gives it back exactly when its first segment does not begin with `drive`. |
| `PercentCoding.EncodeRoundTrip` | api/src/handlers/web_viewer.rs:329-341 | Every byte string survives encoding and decoding. |
| `PercentCoding.EncodeByteIs` | api/src/handlers/web_viewer.rs:329-334 | Letters, digits and the four marks of RFC 3986 stay; every other byte becomes a percent sign and two capital hexadecimal digits. |
| `PercentCoding.DecodeFixedIff` | api/src/handlers/web_viewer.rs:336-341 | Decoding leaves a text alone exactly when it holds no escape. |
| `PercentCoding.HexIff` | api/src/handlers/web_viewer.rs:336-341 | The digits of an escape are the hexadecimal ones, large or small. |
| `PercentCoding.Utf8Iff` | api/src/handlers/web_viewer.rs:336-341 | A byte string counts as text exactly if it is the UTF-8 encoding of Unicode scalar values one after the other (RFC 3629, section 3). |
| `WebViewer.ChildIff` | api/src/handlers/web_viewer.rs:294-296 | The textual test for a child path is exactly the prefix relation on segments, so a sibling with a similar name is no child. |
| `WebViewer.ResolveAssetLogicalPath` | api/src/handlers/web_viewer.rs:217-276 | The component loop with its checks and its final guard refuses and accepts, with the same errors and paths, as the resolution the results below are about. |
| `WebViewer.GuardIsIdleIff` | api/src/handlers/web_viewer.rs:244-275 | The loop alone keeps every path under the root, so that the final guard never fires, exactly when the root's first segment does not begin with `drive`. |
| `WebViewer.ResolvesInTree` | api/src/handlers/web_viewer.rs:217-276 | For such a root and base, resolution is walking the components in a tree whose root cannot be left, from the base or, for an absolute reference, from the root. |
| `WebViewer.ResolvesInTreeIff` | api/src/handlers/web_viewer.rs:217-276 | Resolution is that walk for all references exactly when the first segment of the base does not begin with `drive`. |
| `WebViewer.UncleanRootHappens` | api/src/handlers/web_viewer.rs:270-275 | A root that does: `/drive//drivefoo` normalizes to `/drive/drivefoo`, and the viewer refuses its own root. |
| `WebViewer.RewrittenUrlComesBack` | api/src/handlers/web_viewer.rs:158-174 | A reference that does not resolve becomes about:blank; one that resolves becomes a URL that the asset route resolves back to the same path, if and only if the relative path holds no backslash, question mark, number sign or percent escape (it is decoded twice). A URL for the root itself reaches no route. |
| `WebViewer.RewriteIs` | api/src/handlers/web_viewer.rs:158-189 | References to nowhere, into the page, to embedded data, mail or telephone, and links to web addresses, in capitals or small letters, are not touched; every other becomes the URL of the asset it resolves to, or a blank page. |
| `WebViewer.RelativeIs` | api/src/handlers/web_viewer.rs:298-306 | A path below the root loses the root and the slash behind it, and the root itself loses everything. |
| `WebViewer.AssetPathIff` | api/src/handlers/web_viewer.rs:217-243 | An asset names a path exactly if it is no web address, neither it nor the decoded part in front of query and fragment holds a backslash, and that part is text. |
| `WebViewer.SpaceIff` | api/src/handlers/web_viewer.rs:158-189 | What is trimmed off a byte string are the UTF-8 forms of the white space characters. |
| `WebViewer.DecodedTwiceHappens` | api/src/handlers/web_viewer.rs:336-341 | A reference whose rewritten URL does not come back: to a file whose name looks like an escape. |
| `HtmlRewriting.RewriteHtmlAttribute` | api/src/handlers/web_viewer.rs:133-156 | Double-quoted values are rewritten before single-quoted ones, and these not at all after a double-quoted value without a closing quote. |
| `HtmlRewriting.ScanIff` | api/src/handlers/web_viewer.rs:137-150 | A scan finds exactly what stands between the first attribute name with an equals sign and the quote behind it and the next such quote. |
| `HtmlRewriting.PassRewritesValues` | api/src/handlers/web_viewer.rs:133-156 | Scanning the rewritten page finds exactly the rewritten values, one for each value of the page in the same order, with the same text around them: no URL breaks out of its quotes. |
| `HtmlRewriting.RewrittenHasNoQuotes` | api/src/handlers/web_viewer.rs:158-174 | A reference that is not left alone becomes a URL without quotes of either kind. |
| `HtmlRewriting.UrlIsUntouched` | api/src/handlers/web_viewer.rs:133-156 | The pass for single quotes leaves such a URL, written by the pass for double quotes, as it is where no single-quoted value is open. |
| `HtmlRewriting.UrlIsUntouchedAtEnd` | api/src/handlers/web_viewer.rs:144-147 | It also leaves it where a value is open but no single quote follows. |
| `HtmlRewriting.UrlIsSwallowed` | api/src/handlers/web_viewer.rs:148-150 | Where a value is open and a single quote follows, the URL lies inside the value that the pass rewrites. |
| `HtmlRewriting.UrlIsLostHappens` | api/src/handlers/web_viewer.rs:133-156 | A page on which a double-quoted URL is lost so, whatever the root. |
| `HtmlRewriting.BothKindsRewritten` | api/src/handlers/web_viewer.rs:133-156 | After both passes all double-quoted and all single-quoted values of the page are the rewritten ones, in order, if the two kinds do not meet on the page or after the first pass; a double-quoted value without closing quote ends the work with the single-quoted values as they were. |
| `EventReplay.StreamEvents` | api/src/handlers/agent_runs.rs:139-184 | For every outcome of its reads the serving loop sends page after page behind its cursor, ends itself on a terminal status with nothing left, and closes with an error on a failed read. |
| `EventReplay.ConnectionDelivers` | api/src/handlers/agent_runs.rs:151-183 | One connection sends exactly the events between its first and its last cursor, in order and once, then an error if a read failed, however the log grows meanwhile and in pages of at most 1000. |
| `EventReplay.NormalEndIsComplete` | api/src/handlers/agent_runs.rs:174-176 | If nothing is appended once the status is terminal, a normal end means that every event after the cursor has been sent. |
| `EventReplay.ReplayFinishes` | api/src/handlers/agent_runs.rs:174-176 | Once the run is over, a connection left alone ends by itself after at most one read per thousand events. |
| `EventReplay.StartCursorIs` | api/src/handlers/agent_runs.rs:145-150 | A connection starts behind the greatest of the query's position, the client's last identifier and zero. |
| `Decimal.ParseI64Iff` | api/src/handlers/agent_runs.rs:145-150 | A text reads as a signed 64-bit number exactly if it is a sign or none, then digits, and its value is in range. |
| `EventReplay.PageIs` | api/src/handlers/agent_runs.rs:151-163 | A page is the user's next events, all of them or a thousand. |
| `EventReplay.TerminalIff` | api/src/handlers/agent_runs.rs:186-188 | A run has ended when it is completed, failed or cancelled. |
| `EventReplay.FollowDelivers` | api/src/handlers/agent_runs.rs:145-150 | Across any number of connections, each cut off anywhere and resumed with Last-Event-ID (section 9.2 of the WHATWG HTML standard), the client receives exactly the events between where it began and where it would resume. |
| `EventReplay.EveryEventOnce` | api/src/handlers/agent_runs.rs:164-173 | So every event in that range arrives exactly once, by increasing sequence number. |
| `EventReplay.EndIsCompleteForGood` | api/src/handlers/agent_runs.rs:174-176 | Once a connection has been followed to its normal end the client has every event of the run, and reconnecting brings no more. |
| `DriveLocks.StepKeepsInv` | api/src/state.rs:95-104 | Every step of a request (one entry of the retain at a time, upgrade, insertion) and every drop, lock and unlock by others keeps the invariant of the registry. |
| `DriveLocks.SamePathIffSameMutex` | api/src/state.rs:95-104 | In every run, two live handles are for the same path exactly when they are the same mutex, also with drops between the retain and the upgrade. |
| `DriveLocks.OneWriterPerPath` | api/src/state.rs:90-94 | So no two writers of one path ever hold their locks together. |
| `DriveLocks.LockIsKept` | api/src/state.rs:95-104 | A lock once taken is kept until its own holder gives it up, whatever requests and other holders do meanwhile. |
| `DriveLocks.OtherPathsDoNotBlock` | api/src/state.rs:90-94 | And a writer of one path never keeps a writer of another waiting. |
| `DriveLocks.DeadEntriesArePruned` | api/src/state.rs:97-97 | An entry that is dead at its retain step at the latest is gone when the request is over, and never returns. |
| `DriveLocks.LiveEntriesStay` | api/src/state.rs:97-100 | The entry behind a live handle is never pruned or replaced. |
| `DriveLocks.DriveWriteLocks.DriveWriteLock` | api/src/state.rs:95-104 | A whole request, with the others at work between its steps, is a run of that system; it returns a new handle to the path's registered mutex, and every other entry left was alive when it began. |
| `CredentialPool.CredentialPool.RefreshCooldowns` | api/src/agent/runtime.rs:335-344 | The loop clears exactly the cooldowns that are over. |
| `CredentialPool.CredentialPool.Acquire` | api/src/agent/runtime.rs:115-136 | One acquisition: nothing exactly when no credential is usable once expired cooldowns are cleared, and otherwise the entry the strategy picks, charged for one request, and the cursor behind it. |
| `CredentialPool.CredentialPool.MarkExhausted` | api/src/agent/runtime.rs:138-144 | The first credential with the label goes on cooldown, and no other. |
| `CredentialPool.FailsIffNoneUsable` | api/src/agent/runtime.rs:115-136 | An acquisition fails exactly when no credential is usable once expired cooldowns are cleared. |
| `CredentialPool.UsableIff` | api/src/agent/runtime.rs:335-344 | A credential is usable unless it is dead or its cooldown still lasts. |
| `CredentialPool.ChargedIs` | api/src/agent/runtime.rs:115-136 | A request is counted up to the top of the unsigned 64-bit range. |
| `CredentialPool.CastIs` | api/src/agent/runtime.rs:138-144 | The cooldown's seconds are cast to a signed number modulo the width. |
| `CredentialPool.RoundRobinIsFair` | api/src/agent/runtime.rs:125-131 | Round robin hands out any credential usable at each of n consecutive acquisitions, n being the pool size, whatever happens to the others meanwhile. |
| `CredentialPool.LeastUsedStaysBalanced` | api/src/agent/runtime.rs:118-124 | A least-used acquisition among usable credentials keeps their counts within one of each other and charges one request. |
| `CredentialPool.LeastUsedIsBalanced` | api/src/agent/runtime.rs:118-124 | So counts that start equal stay within one of each other through every run. |
| `CredentialPool.CooldownIsKept` | api/src/agent/runtime.rs:335-344 | A credential on cooldown is neither handed out nor changed before its time. |

## Left out

Agent loop:

- AgentSpending.SpendingBounded: promises nothing about a tool limit equal to the largest 32-bit number, where the source's saturating check lets any batch through (`BatchCheckIsSoundIff`). The counters are unbounded here, where the source's are 32 bits wide.
- AgentHistory.RequestsAreWellFormedIff: until a compression replaces the history, since the new one is arbitrary and may split a call from its result.
- AgentHistory.ParallelIsSerial: for groups that no cancellation interrupts, with tools that are functions of the call; the events of the two differ in order and are not compared.
- AgentLoop.Loop.HandleCall: events carry the call's own identifier where the source uses the invocation identifier derived from it, and no durations, arguments or parsed error fields.
- TurnState.TurnAccumulator.Apply: text and reasoning are taken as already redacted.
- JSON arguments, checkpoints, the todo injection after compression and token estimates are abstracted; a compression is an arbitrary new history.
- Running, heartbeats and persistence of delegated children; the delegation's result and token total are inputs.
- 32-bit wrap-around of call indices and of the token sum inside a provider's usage.

Cancel protocol:

- CancelProtocol.NoCancelLost: identifiers and process identifiers are not reused within a run, and spawn or wait failures that return without finishing the execution are left out.
- The Firecracker variant, executions without an identifier in the state machine, output limits, and the final status of a stopped process, which the exit watcher may overwrite.

Memory:

- MemoryRuns.NoUpdateLost: for loads that read entries and revisions at once; the source reads them one after the other without the lock, which `UpdateKeptIff` and `SlowLoadLosesEdit` are about.
- MemoryStore.MemoryStore.Load: as a method it reads at one instant; `MemoryRuns` has the readings one by one.
- MemoryRuns.WrittenReadsBackIff: for a store whose entries reload; the entries of a hand-edited file need not, since sanitizing may put a delimiter together.
- MemoryRuns.SuccessfulBatchInLimits: for batches without a list over the limit on the way; a single operation that meets such a list is refused by its own check.
- Rendering and scanning of the prompt snapshot, percentages in usage texts, file permissions, temporary files, fsync, and the pruning of old backups.

Shell quoting:

- ShellQuoting.QuoteRoundTrip: the lexer rejects text that would need expansion, substitution or escapes outside quotes instead of performing them; the printers emit none. Reserved words and IO numbers are not classified.
- The host-side pipelines around the ssh prefix and the construction of the prefix itself; nesting is proved behind any prefix that leaves the lexer between words.

Web viewer:

- WebViewer.RewrittenUrlComesBack: for a root that is its own normal form and takes apart faithfully; that paths are UTF-8 is a hypothesis where the source has it by type. The browser is taken to send the URL as it is.
- HtmlRewriting.RewriteHtmlAttribute: one attribute at a time; the sequence of three attributes and the injected script are left out.
- Physical paths, symbolic links, MIME types and response headers.

Other:

- DeliveryBudget.StaticFiles: proved exact if chunk file names are distinct and differ from style names, which the source takes for granted; file sizes, compression and the budgets themselves are left out.
- Cron.NextCronRun: in UTC and without leap seconds; the calendar is an arbitrary function from days to dates, which `CronClock` takes to be the Gregorian one. Other time zones and the choice between schedule kinds are left out. Day of month and day of week must both match, as in the source, not either as in POSIX cron.
- CronJobs.CronJob.EnqueueDueOccurrence: cron schedules in UTC; that a job is enabled, within its number of runs and without an active run is left to the caller.
- CronJobs.CatchesUpOnAll: for ticks alone; a manual trigger sets the next run to the current time and an edit of the schedule computes a new one, both possibly past due times not yet ticked. Run counts, sessions and the recording of occurrences in the database are left out.
- ArtifactPages.NeverTwice: touching a row only moves it to newer activity, which the database does not enforce. The encoding of cursors is taken to be faithful; joins, summaries' other columns and wiki links are left out.
- EventReplay.NormalEndIsComplete: that nothing is appended after a terminal status is a hypothesis about the writers. Authorization, waiting, keep-alive comments and the framing of server-sent events are left out.
- DriveLocks.DriveWriteLocks.DriveWriteLock: waiting for the registry's own mutex and fairness among waiters are left out.
- CredentialPool.CredentialPool.MarkExhausted: durations and times beyond what the time library can represent, where the source would panic; the secrets themselves and the rate-limit buckets.
