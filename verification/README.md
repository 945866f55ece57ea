# Syntor coordination core, verified

A Dafny 4.11 model of the stateful algorithms of Syntor, with proofs of what they guarantee over whole
runs. `dafny verify dfyconfig.toml` checks everything.

| module | models |
|---|---|
| `Protocol`, `PlanGraph` | plans, their dependency graphs, layers, topological orders and chains |
| `WaveMachine`, `WaveTheorems`, `Executor` | `Executor.ExecutePlan`: every interleaving of the collector with one goroutine per started step, the results about it, and the imperative wave loop tied to it |
| `AsyncExecutor` | `AsyncExecutor.ExecutePlanAsync` and its agreement with the concurrent executor |
| `RateLimiter`, `CircuitBreaker`, `SlidingWindow` | admission control: token bucket, circuit breaker, per-tool sliding window |
| `Registry` | agent records beside the sets that index them, with atomic and with interleaved operations |
| `Coordinator` | routing, failover, timeouts and the racy capacity check |
| `AutoScaler` | clamps, cooldown and averages of the monitor loop |
| `Session`, `Retention`, `ToolNames` | incremental session log, checkpoint retention, MCP tool names and their cache |

Each module has a value model (a state, a step function, runs as sequences of events) that the lemmas are
about, and a class or method in the source's own imperative form whose contract ties every state change to
the step function. Calls whose code lies elsewhere are parameters: the outcome of each `Execute` call is a
sequence `f` with one entry per plan step, the route found for a task, the answer of the scaling callback,
and every clock reading.

## Where the code departs from its documentation or its purpose

* The half-open limit is documented as a number of concurrent calls (`pkg/resilience/circuit_breaker.go:47`)
  but counts all calls of an episode, so the breaker can recover by successes exactly when the success
  threshold is at most that number plus the calls still in flight when the episode began, whose late
  successes count too (`CircuitBreaker.RecoversIff`). The default configuration asks for 3 successes out of
  1 call and stays half-open for ever after one good trial (`DefaultConfigSticks`, `StuckForever`).
* When the count limit deletes checkpoints, the size phase subtracts their sizes a second time and may stop
  early (`Retention.SizeLimitCanFail`); `SizeLimitMetIff` says exactly when the size limit is met.
* Registering a live agent again without one of its capabilities leaves it indexed under it
  (`Registry.DroppedCapabilityStillFound`); `RegisterKeepsIff` is the exact condition. A heartbeat that
  reads before a deregistration and writes after it brings the record back (`ResurrectionHappens`,
  `WriteResurrectsIff`). Reading that record by its identifier returns it again; the listings and the query
  by capabilities do not (`InterleavedAgreement`).
* A submission that reports an error changes nothing, exactly unless there was room for it and its message
  could not be published: then the task stays stored and assigned (`Coordinator.ErrorHarmlessIff`;
  `PublishFailureStores` is a run that shows it).
* A failover leaves a task assigned to the failed agent exactly when it does not reroute it, because no agent
  suits or no retry is left, or routes it back to that agent (`Coordinator.StillAssignedIff`; the runs
  `UnroutableStaysAssigned` and `ExhaustedStaysAssigned` reach such states).
* A session's saved index goes wrong exactly after a partial write or after deleting the current session
  when it has saved messages (`Session.InvLostExactly`); a partial write that is tried again logs messages
  twice (`RetryDuplicates`).
* A server name that contains `__` or ends in `_` does not survive printing and parsing
  (`ToolNames.RoundTripIff`).
* The capacity check of the coordinator is not atomic with the insertion: with K overlapping submitters,
  K - 1 tasks too many can be pending, and no more (`Coordinator.CapacityBound`, `CapacityBoundTight`).

## Model

| member | source | states |
|---|---|---|
| Protocol.CountNumbers | pkg/coordination/executor.go:191 | the loop's test `len(completed) < len(steps)` can only become false for plans with distinct step numbers: the numbers are as many as the entries iff no number repeats |
| PlanGraph.ReadyOnce | pkg/coordination/executor.go:194-208 | no entry is ready in two different waves |
| PlanGraph.SettledForever | pkg/coordination/executor.go:210-215 | once no step is ready, none ever becomes ready |
| PlanGraph.SchedulableIffLayersFill | pkg/coordination/executor.go:191-272 | the waves complete as many numbers as there are entries iff numbers are distinct and some ordering puts every dependency before its dependents |
| PlanGraph.ReadyList | pkg/coordination/executor.go:193-208 | the scan collects exactly the ready entries, in list order |
| WaveMachine.RunInv | pkg/coordination/executor.go:191-272 | the invariant of every reachable state of the interleaved executor: launched entries, contexts, channel, results, completed numbers and outstanding count fit together |
| WaveTheorems.VerdictExact | pkg/coordination/executor.go:191-279 | a finished run is completed iff the plan is schedulable and all outcomes are good, failed iff some startable entry has a bad outcome; with good outcomes it is stuck iff not schedulable |
| WaveTheorems.Confluence | pkg/coordination/executor.go:225-271 | for fixed outcomes all arrival orders give the same verdict and start the same entries in the same waves |
| WaveTheorems.CompletedResults | pkg/coordination/executor.go:250-271 | a completed run holds exactly one successful result per step number, that of its entry |
| WaveTheorems.LaunchedOnce | pkg/coordination/executor.go:193-247 | each plan entry is started at most once in any run |
| WaveTheorems.LaunchSafe | pkg/coordination/executor.go:225-247 | when an entry has started, every dependency has completed in an earlier wave with success, and its result is in the context the entry builds |
| WaveTheorems.LayeringTight | pkg/coordination/executor.go:191-272 | in a completed run every step starts in wave 1 + max(wave of its dependencies) |
| WaveTheorems.WavesAreLongestChain | pkg/coordination/executor.go:191-272 | the wave count of a completed run is the length of the longest dependency chain |
| WaveTheorems.WaveProgress | pkg/coordination/executor.go:191-272 | the count that the loop compares with the plan length is strictly larger at any later visit to the top of the loop in the same run, for every plan |
| WaveTheorems.RunsEnd | pkg/coordination/executor.go:191-272 | every interleaving ends within 8n + 1 actions, cyclic, dangling and duplicated plans included |
| WaveTheorems.NoDeadlock | pkg/coordination/executor.go:223-252 | an unfinished run can always go on: the collector never waits for a result nobody delivers |
| WaveTheorems.OneStopper | pkg/coordination/executor.go:250-266 | at most one collected entry has a bad outcome: nothing is collected after it |
| WaveTheorems.CompletedExactly | pkg/coordination/executor.go:250-270 | in every reachable state, failed runs included, the completed numbers are exactly those of entries collected with a good outcome |
| WaveTheorems.ResultsExactly | pkg/coordination/executor.go:250-270 | in every reachable state the stored results are exactly those of collected entries, and CurrentStep is the number of completed ones |
| Executor.DependenciesCompleted | pkg/coordination/executor.go:198-204 | the inner loop decides whether all dependencies are completed |
| Executor.FindReady | pkg/coordination/executor.go:193-208 | the nested loops return exactly the ready entries in list order |
| Executor.CollectWave | pkg/coordination/executor.go:250-271 | collecting a wave in any order takes the machine's steps, stops at the first bad outcome with the number of that entry and the kind of error or status it had, and otherwise completes strictly more numbers |
| Executor.Executor.ExecutePlan | pkg/coordination/executor.go:167-280 | the whole loop terminates in a state of the machine; status Completed iff the plan is schedulable and all outcomes are good, with one result per step number; otherwise the error of the entry that stopped it, or the stuck error with the incomplete count |
| AsyncExecutor.ExecutePlanAsync | pkg/coordination/async.go:223-289 | status, current step, results and error are those of the sequential reading of the plan |
| AsyncExecutor.AsyncVerdict | pkg/coordination/async.go:233-288 | completes iff all outcomes are good and the list order itself is topological |
| AsyncExecutor.AsyncEnding | pkg/coordination/async.go:233-288 | the whole record of any run: it stops at the first entry with an unmet dependency or a bad outcome, says which it was and where, keeps the results of all entries before and of the entry itself when its call returned, and sets CurrentStep accordingly |
| AsyncExecutor.SchedulersAgree | pkg/coordination/async.go:233-288 | for distinct numbers and fixed outcomes it completes iff the concurrent executor does and the list is topological, and both then hold the same results |
| RateLimiter.TokensInRange | pkg/resilience/rate_limiter.go:93-102 | 0 <= tokens <= bucketSize in every run |
| RateLimiter.RefillComposes | pkg/resilience/rate_limiter.go:93-102 | clamping in two sub-intervals equals clamping once |
| RateLimiter.WindowBound | pkg/resilience/rate_limiter.go:45-57 | any window (s, t] of any run grants at most bucketSize + rate * (t - s) |
| RateLimiter.GrantTakesExactly | pkg/resilience/rate_limiter.go:45-57 | a grant takes exactly n: a later request is met iff it fits the bucket and what was left plus what has been earned since |
| RateLimiter.NeverDeniedIff | pkg/resilience/rate_limiter.go:45-57 | no request of a run is denied iff the demand up to each call fits the starting bucket with its earnings and the demand of every stretch fits a full bucket with those of the stretch |
| RateLimiter.QueriesTransparent | pkg/resilience/rate_limiter.go:105-125 | queries and denied calls, anywhere in a run, change no later grant decision |
| RateLimiter.WaitExact | pkg/resilience/rate_limiter.go:105-117 | after a denial `AllowN(n)` succeeds exactly from needed/rate on; `waitTime` is that delay up to its truncated nanosecond |
| RateLimiter.OversizeNeverGranted | pkg/resilience/rate_limiter.go:45-57 | a request above the bucket size is never granted in any run |
| RateLimiter.WaitAdmittedIff | pkg/resilience/rate_limiter.go:65-90 | uncancelled and without another consumer, the retry loop succeeds iff the bucket as found at the start would grant the request at the instant of some round |
| RateLimiter.WaitSucceeds | pkg/resilience/rate_limiter.go:65-90 | it succeeds as soon as one round comes strictly later than the wait computed in an earlier one, for rate > 0 and n <= bucketSize |
| RateLimiter.WaitDecides | pkg/resilience/rate_limiter.go:65-90 | the first round that is cancelled or granted decides the outcome of the retry loop; a cancellation during the sleep is seen only when there is time to wait |
| RateLimiter.RateLimiter.TryAllowN | pkg/resilience/rate_limiter.go:45-57 | grant decision and new state |
| RateLimiter.RateLimiter.ReadWaitTime | pkg/resilience/rate_limiter.go:105-117 | the wait, for every rate, and the refilled state |
| RateLimiter.RateLimiter.ReadTokens | pkg/resilience/rate_limiter.go:120-125 | the tokens and the refilled state |
| RateLimiter.RateLimiter.WaitN | pkg/resilience/rate_limiter.go:65-90 | the result is that outcome; tokens are taken exactly once, in the last call, and only on success |
| CircuitBreaker.RefinesHistory | pkg/resilience/circuit_breaker.go:92-185 | under every interleaving state, time of change, failure and success count are those the history gives; while closed the failure count is the trailing run of failures and below the threshold, and without Reset nothing is admitted until a timeout after an opening |
| CircuitBreaker.OpensExactly | pkg/resilience/circuit_breaker.go:133-147 | a closed breaker opens exactly when the failure run reaches the threshold, or by ForceOpen |
| CircuitBreaker.TransitionsExact | pkg/resilience/circuit_breaker.go:92-185 | every change of state in every run, by what has been observed: a half-open breaker opens exactly on a failed result or ForceOpen and closes exactly on Reset or the completing success; an open one leaves only by a trial after the timeout or Reset |
| CircuitBreaker.AdmissionsExact | pkg/resilience/circuit_breaker.go:92-118 | a request is admitted by a closed breaker always, by an open one once the timeout has passed, by a half-open one below its maximum of calls; a refusal gives the right error |
| CircuitBreaker.FailedTrialBlocks | pkg/resilience/circuit_breaker.go:143-145 | after a failed trial nothing is admitted for a full timeout unless Reset is called |
| CircuitBreaker.HalfOpenBudget | pkg/resilience/circuit_breaker.go:99-114 | an episode admits at most max(1, halfOpenMaxCalls) calls in all; successes + outstanding calls = admitted calls + calls in flight at entry |
| CircuitBreaker.EntryCounts | pkg/resilience/circuit_breaker.go:99-107 | the first trial after the timeout starts an episode whose count of earlier calls is the number then in flight |
| CircuitBreaker.RecoversIff | pkg/resilience/circuit_breaker.go:150-162 | the breaker can close by successes iff successThreshold <= max(1, halfOpenMaxCalls) + calls in flight at entry |
| CircuitBreaker.NeverCloses | pkg/resilience/circuit_breaker.go:99-114 | above that bound no run of successes leaves half-open: only a failure, Reset or ForceOpen does |
| CircuitBreaker.StuckForever | pkg/resilience/circuit_breaker.go:108-114 | with the budget spent and all trials reported, every request is rejected until Reset or ForceOpen |
| CircuitBreaker.DefaultConfigSticks | pkg/resilience/circuit_breaker.go:52-60 | the default configuration reaches that state after one successful trial |
| CircuitBreaker.CircuitBreaker.AllowRequest | pkg/resilience/circuit_breaker.go:92-118 | verdict and new state |
| CircuitBreaker.CircuitBreaker.RecordResult | pkg/resilience/circuit_breaker.go:121-162 | new state after a success or a failure |
| CircuitBreaker.CircuitBreaker.DoTransition | pkg/resilience/circuit_breaker.go:165-185 | every transition, even to the same state, sets the time and clears the success count; to closed it also clears the failure count, to half-open the call count, to open nothing more |
| SlidingWindow.StoredListSuffices | pkg/hooks/builtin.go:246-253 | the pruned list gives the same answer as the full admission log for every cutoff still to come |
| SlidingWindow.WindowLimit | pkg/hooks/builtin.go:255-265 | every window (s, s + windowSize] of every tool holds at most maxOperations admitted calls |
| SlidingWindow.BlockedExactly | pkg/hooks/builtin.go:255-262 | a call is blocked exactly when maxOperations admitted calls lie within the preceding window |
| SlidingWindow.ToolsIndependent | pkg/hooks/builtin.go:239-268 | history and admissions of a tool depend on that tool's calls alone |
| SlidingWindow.RateLimitHandler.Execute | pkg/hooks/builtin.go:239-268 | decision and new history |
| ToolNames.RoundTripIff | pkg/mcp/client.go:527-539 | parsing inverts printing for every tool name iff the server name has no "__" and no trailing "_" |
| ToolNames.PrintInvertsParse | pkg/mcp/client.go:527-539 | a parsed name prints back to itself |
| ToolNames.TrailingUnderscoreMisparsed | pkg/mcp/client.go:527-539 | a trailing underscore of the server name moves to the tool name |
| ToolNames.ServersIndependent | pkg/mcp/client.go:475-504 | after any history of caching and clearing the cache shows, for each server, what that server's own history leaves |
| ToolNames.RunConsistent | pkg/mcp/client.go:475-492 | every cache that well-formed servers bring about files each tool under the printed name of its server and tool |
| ToolNames.ClearRemovesExactly | pkg/mcp/client.go:494-504 | after any history of well-formed servers, deleting by prefix removes exactly the cached tools of that server |
| ToolNames.ClearCollidesIff | pkg/mcp/client.go:494-504 | for arbitrary names, clearing one server can hit another exactly when one name + "__" is a prefix of the other |
| ToolNames.ClearUndoesCache | pkg/mcp/client.go:475-504 | clearing undoes caching for any server name |
| ToolNames.Client.CacheServerTools | pkg/mcp/client.go:475-491 | every listed tool is filed under its printed name, a failed listing caches nothing |
| ToolNames.Client.ClearServerTools | pkg/mcp/client.go:494-504 | exactly the entries under the server's prefix disappear |
| Registry.RegisterKeepsIff | pkg/registry/redis.go:112-158 | registration keeps all sets in agreement with the records iff the identifier is new, or keeps its type and loses no capability |
| Registry.RecordIsHistory | pkg/registry/redis.go:112-283 | an identifier has a record iff a registration of it is in force; the record is that registration with the state, load and time last given for it, whatever happens to other identifiers |
| Registry.UpdatesLeaveAnswers | pkg/registry/redis.go:205-283 | heartbeats and load updates change no answer of any query by capabilities, a status update adds or removes at most that agent |
| Registry.IndexAgreesWithScan | pkg/registry/redis.go:505-543 | in every such run the query by capabilities returns exactly the running listed agents whose records hold them all, for an empty request the full listing, and the listing by type exactly the listed agents of the type |
| Registry.DroppedCapabilityStillFound | pkg/registry/redis.go:112-158 | the index keeps a capability that a second registration dropped |
| Registry.DeregisterUndoesRegister | pkg/registry/redis.go:161-202 | deregistering a newly registered agent restores every record and set |
| Registry.InterleavedAgreement | pkg/registry/redis.go:421-449 | with separate read and write steps and fixed profiles, listed identifiers have records, and the query by capabilities and the listing by type still equal the scan |
| Registry.ListedHaveRecords | pkg/registry/redis.go:247-283 | every listed identifier has a record in every interleaving |
| Registry.WriteResurrectsIff | pkg/registry/redis.go:437-446 | a finishing update leaves an unlisted record iff its agent is no longer listed |
| Registry.ResurrectionHappens | pkg/registry/redis.go:437-446 | a run in which a heartbeat brings back a deregistered record |
| Registry.RedisRegistry.RegisterAgent | pkg/registry/redis.go:112-158 | record and sets after registration, error when not connected |
| Registry.RedisRegistry.DeregisterAgent | pkg/registry/redis.go:161-202 | removal from every set the record names; an absent agent counts as deregistered |
| Registry.RedisRegistry.UpdateAgentStatus | pkg/registry/redis.go:205-244 | new status and time; error for an absent agent |
| Registry.RedisRegistry.UpdateAgentLoad | pkg/registry/redis.go:247-283 | new load and time; no error for an absent agent |
| Registry.RedisRegistry.Heartbeat | pkg/registry/redis.go:421-449 | new time; no error for an absent agent |
| Registry.RedisRegistry.ListAllAgents | pkg/registry/redis.go:325-353 | the record of every listed identifier that has one, once |
| Registry.RedisRegistry.ListAgentsByType | pkg/registry/redis.go:356-384 | the record of every identifier in the type set that has one, once |
| Registry.RedisRegistry.FindAgentsByMultipleCapabilities | pkg/registry/redis.go:505-543 | the running agents in the intersection of the capability sets; the full listing for an empty request |
| Coordinator.RoutingBound | internal/coordination/agent.go:234-275 | a task is routed at most 1 + max(0, MaxRetries - initial RetryCount) times in any run |
| Coordinator.RoutingBoundTight | internal/coordination/agent.go:252-268 | that many routings do happen when the agent keeps failing |
| Coordinator.CheckFillsIn | internal/coordination/agent.go:347-368 | a submission below capacity passes with three retries and five minutes filled in where they are zero, and above it is refused without an effect |
| Coordinator.OthersUntouched | internal/coordination/agent.go:234-275 | an event leaves record and assignment of every task alone that it is not about |
| Coordinator.EventEffect | internal/coordination/agent.go:177-203 | what each event does to a task it is about: routing, failover with and without a new agent, completion, timeout, status report |
| Coordinator.TimeoutsExact | internal/coordination/agent.go:593-616 | in every run a timeout check fails exactly the pending tasks whose last routing lies longer ago than the timeout they were submitted with |
| Coordinator.AssignmentsPending | internal/coordination/agent.go:177-203 | assignments are those of pending tasks and name the agent in the task record, unless an earlier failover of that task found no agent |
| Coordinator.StillAssignedIff | internal/coordination/agent.go:253-275 | after a failover the task is still assigned to the failed agent iff it is not rerouted or is routed back to it; when not rerouted it is marked failed |
| Coordinator.UnroutableStaysAssigned | internal/coordination/agent.go:255-266 | a run in which that happens for want of another agent |
| Coordinator.ExhaustedStaysAssigned | internal/coordination/agent.go:267-274 | a run in which that happens because no retry is left |
| Coordinator.ErrorHarmlessIff | internal/coordination/agent.go:341-376 | a submission that reports an error changes nothing iff it was not a failed publish below capacity; that one leaves the task stored and assigned |
| Coordinator.PublishFailureStores | internal/coordination/agent.go:190-200 | a run in which a submission fails that way |
| Coordinator.SubmitIsCheckThenInsert | internal/coordination/agent.go:361-373 | a lone submission is a check directly followed by its insertion |
| Coordinator.Settles | internal/coordination/agent.go:428-453 | completion, and a timeout check that finds the task overdue, settle it |
| Coordinator.SettledForever | internal/coordination/agent.go:234-275 | a completed or timed-out task is never routed again |
| Coordinator.CapacityBound | internal/coordination/agent.go:361-373 | with K overlapping submitters at most MaxPendingTasks + K - 1 tasks are pending |
| Coordinator.CapacityBoundTight | internal/coordination/agent.go:361-373 | some run reaches that number, for all limits and K |
| Coordinator.CoordinationAgent.RouteTask | internal/coordination/agent.go:177-203 | stores task and assignment before publishing; no effect when no agent suits |
| Coordinator.CoordinationAgent.SubmitTask | internal/coordination/agent.go:341-376 | defaults, capacity check and routing when no other submission overlaps |
| Coordinator.CoordinationAgent.CollectTasks | internal/coordination/agent.go:236-245 | exactly the pending tasks assigned to the agent, each once |
| Coordinator.CoordinationAgent.HandleFailover | internal/coordination/agent.go:234-289 | each affected task is counted up and rerouted, or marked failed in place, and no other task changes |
| Coordinator.CoordinationAgent.HandleTaskComplete | internal/coordination/agent.go:428-453 | a pending task leaves both maps |
| Coordinator.CoordinationAgent.CheckTaskTimeouts | internal/coordination/agent.go:593-616 | exactly the overdue tasks are marked failed and lose their assignment, and stay pending |
| Session.RunInv | pkg/session/manager.go:121-153 | lastSavedIndex is the length of the current log, and every log carries indices 0..n-1 |
| Session.CreateStarts | pkg/session/manager.go:35-55 | a new session is current and empty, all others are as they were |
| Session.InvLostExactly | pkg/session/manager.go:121-153 | that holds after an append iff the write was whole or empty, and after a deletion iff another session was deleted or nothing was saved |
| Session.RetryDuplicates | pkg/session/manager.go:143-147 | a run in which a partial write followed by a retry logs a message twice |
| Session.AppendMatchesIff | pkg/session/manager.go:121-153 | an append makes the log equal to the whole history iff the old log was a prefix of it |
| Session.IncrementalEqualsFull | pkg/session/manager.go:121-153 | when each history extends the previous one the incremental log equals the latest full history |
| Session.LoadContinues | pkg/session/manager.go:97-117 | a loaded session becomes current and the next append goes to the end of its log, with position, time and agent; a missing one changes nothing |
| Session.ForkCopies | pkg/session/manager.go:164-208 | a fork starts from the same messages, positions, times and agents under its own identifier, and leaves the original alone |
| Session.ForkLeavesOrphan | pkg/session/manager.go:187-200 | a fork whose copy fails leaves the current session alone and a new one behind that holds what was copied |
| Session.OnlyOwnAppends | pkg/session/manager.go:121-153 | a log grows by its own appends and by nothing else |
| Session.ForkIsolation | pkg/session/manager.go:164-208 | fork and origin keep the common part and never change each other |
| Session.Manager.CreateSession | pkg/session/manager.go:35-55 | new empty log, current, index zero; nothing on a store error |
| Session.Manager.LoadSession | pkg/session/manager.go:97-117 | returns the logged messages and sets the index to their number |
| Session.Manager.AppendMessages | pkg/session/manager.go:121-153 | logs exactly the unsaved tail and keeps the index when the write fails; an error of saving the metadata is reported although log and index have moved |
| Session.Manager.ForkSession | pkg/session/manager.go:164-208 | copies the log under the new identifier and makes it current; a copy that fails half-way leaves the new session stored with what was copied, and the current one unchanged |
| Retention.KeepsNewest | pkg/checkpoint/checkpoint.go:557-586 | no deleted checkpoint is newer than a survivor, and at most MaxCheckpoints remain |
| Retention.CutExact | pkg/checkpoint/checkpoint.go:570-585 | where the deletions end, exactly: at the first position from the excess over MaxCheckpoints on from which the sizes fit MaxTotalSize plus the size of that excess; without a size limit at the excess |
| Retention.CountExact | pkg/checkpoint/checkpoint.go:570-575 | exactly min(n, MaxCheckpoints) checkpoints remain, the newest, when these fit the size limit |
| Retention.SizeLimitMinimal | pkg/checkpoint/checkpoint.go:578-585 | when the count phase deletes nothing the survivors fit the size limit and no shorter oldest-first deletion would have sufficed |
| Retention.SizeLimitMetIff | pkg/checkpoint/checkpoint.go:557-586 | the size limit is met iff no suffix left by the count phase exceeds it by at most the size of what that phase deleted |
| Retention.SizeLimitCanFail | pkg/checkpoint/checkpoint.go:557-586 | three checkpoints for which both limits trip and the size limit is missed |
| Retention.SameListing | pkg/checkpoint/storage.go:205-216 | the measured size does not depend on the order of the listing |
| Retention.SortByCreation | pkg/checkpoint/checkpoint.go:565-567 | a permutation in ascending order of creation |
| Retention.Manager.GetSize | pkg/checkpoint/storage.go:205-216 | the sum of the sizes over every listing of the store |
| Retention.Manager.EnforceCount | pkg/checkpoint/checkpoint.go:570-575 | the count phase deletes exactly the oldest entries above the limit |
| Retention.Manager.EnforceSize | pkg/checkpoint/checkpoint.go:578-585 | the size phase deletes from the oldest on until its running total fits |
| Retention.Manager.EnforceLimits | pkg/checkpoint/checkpoint.go:557-586 | the store becomes a newest suffix of its oldest-first listing, with at most MaxCheckpoints entries, none older than a deleted one |
| AutoScaler.MonitorRuns | pkg/performance/scaling.go:711-726 | count within the limits for ever, applied decisions a cooldown apart, accepted deltas summing to current minus initial count, history exactly the last historySize records |
| AutoScaler.DirectionExact | pkg/performance/scaling.go:161-256 | outside the cooldown the count is raised iff an average is above its threshold and there is room, lowered iff none is, CPU and memory are below the lower threshold, the queue is below half its target and the count above the minimum; by a full step unless a limit cuts it short |
| AutoScaler.NoDecisionWhileCooling | pkg/performance/scaling.go:161-171 | no decision within the cooldown or without records |
| AutoScaler.RememberNewest | pkg/performance/scaling.go:118-129 | recording keeps exactly the newest records |
| AutoScaler.MeanExact | pkg/performance/scaling.go:207-230 | every average is the total over the number of records, whole-number fields without their fraction |
| AutoScaler.MeanWithin | pkg/performance/scaling.go:207-230 | an average crosses a threshold only if some record of the window does, for all seven readings |
| AutoScaler.OverloadNeedsRecord | pkg/performance/scaling.go:232-246 | a window counts as overloaded only if one of its records does on its own |
| AutoScaler.ProposalsTick | pkg/performance/scaling.go:719-723 | applying all decisions of one evaluation is one tick of every agent type, independent of their order |
| AutoScaler.CalculateAverageMetrics | pkg/performance/scaling.go:207-230 | the accumulation loop computes the mean of the window, with integer fields truncated |
| AutoScaler.AutoScaler.RecordMetrics | pkg/performance/scaling.go:118-129 | one history grows and is pruned, nothing else changes |
| AutoScaler.AutoScaler.EvaluateAgentType | pkg/performance/scaling.go:149-205 | the decision, or none for an unknown type, an empty history, the cooldown, or no change |
| AutoScaler.AutoScaler.Evaluate | pkg/performance/scaling.go:132-146 | one decision for each type that proposes one, and no other |
| AutoScaler.AutoScaler.ApplyDecision | pkg/performance/scaling.go:259-275 | a refused callback changes nothing, an accepted one sets count and time |
| AutoScaler.AutoScaler.MonitorTick | pkg/performance/scaling.go:718-724 | one tick of the monitor loop for all types at once |

## Left out

- Redis, Kafka, files, inference and HTTP: stores are maps or append-only sequences, pipelines are atomic steps, `Execute`, routing, publishing and the scaling callback are oracles given as parameters.
- Clocks: every locked method reads the clock once, as a parameter; runs assume that readings never go back.
- Identifiers: UUIDs are assumed fresh, and the identifiers of submitted tasks are never used again.
- Floating point: tokens, rates and utilisations are reals without rounding or overflow; what the conversion of an infinite quotient to an integer gives, for a rate of zero in `waitTime`, is a parameter.
- Integer width: counters and durations are unbounded.
- Plan execution: the active-handoff table, the timeline, text formatting and the truncation of summaries; a nil result, which the code treats as success in one place and dereferences in another; an outcome is fixed per entry and does not depend on the context built for it.
- AsyncExecutor: the pending-result channels, timeouts and `handleTaskComplete` behind one call are part of its outcome.
- RateLimiter.RateLimiter.WaitN: covers any finite number of rounds, between which nobody else uses the limiter; an endless wait appears as StillWaiting after the listed rounds.
- Backpressure, Semaphore, retry helpers and statistics: only easy members.
- CircuitBreaker: the state-change callback, the time of the last failure, and callers that panic and never report a result.
- Registry: expiry of the status and load keys, which no query reads; record keys that coincide with status or load keys, for identifiers beginning with `status:` or `load:`; malformed stored records; stale-agent cleanup, which is a series of deregistrations; selection strategies; capability versions and descriptions.
- Registry.InterleavedAgreement: assumes one type and one set of capabilities per identifier, because a dropped capability already breaks the atomic version.
- Coordinator: handlers are atomic except for the submission; the agent's own assignment messages coming back as new submissions; health monitoring, load balancing and published events; priorities, results and payloads; pointers to tasks are values, with the failed publish of a failover marking a copy that is no longer stored.
- Coordinator.CoordinationAgent.SubmitTask: describes a submission that no other one overlaps; the overlapping case is the Check and Insert events of the runs.
- AutoScaler: setting the count from outside, registering a type again during monitoring, and decisions applied by anyone but the monitor loop; records made between the evaluation and the application of a tick are placed after it.
- LoadBalancer, ThroughputScaler, latency and throughput trackers: independent helpers.
- Session: names and prefix matching of resume, the contents of the metadata, listing.
- Retention: errors of single deletions, directories, expiry by age; `sort.Slice` is any sort, so entries created at the same time may come in either order.
- ToolNames: connections, requests and resources of the MCP client; strings are sequences of characters.
- TaskContext, herald, trust, context compaction, manifests, CLI and user interfaces.
