# Verification of the Statsig C++ client

A Dafny 4.11 model of the client's concurrent core, with proofs. `dafny verify dfyconfig.toml` checks
everything.

## What is modelled

**Worker pool** (`PoolProtocol`, `PoolTheorems`, `ThreadPool`, `BackgroundTimer`). The pool is a state
machine with one step for every atomic access: leaving `cv.wait` with the mutex, testing the flag and
the queue again, storing the counter, and each of the separate stores that `Reset` and `Shutdown` make
outside the mutex. Any number of workers, of threads that add tasks and of starts and shutdowns by one
controller interleave. Waking up is always possible when the wait predicate holds, so spurious and
missing notifications are covered. The class `ThreadPool` holds the program's four fields; each of its
methods performs exactly one step of the machine.

**Event pipeline** (`Diagnostics`, `EventLogger`, `Pipeline`, `FailedEvents`, `RetryBound`,
`SavedBatches`, `NetworkService`). `Pipeline` runs the logger on top of the pool machine: events go from
the buffer into batches, batches are pool tasks, a batch task sends its request with retries and ends
with a 2xx, with a save to the failed-event file that is itself a pool task, or with a destroyed logger
or network. `FailedEvents` is the protocol of the file: saves read it at once and write it later,
retries read it and delete it later; `RetryBound` and `SavedBatches` say how often a batch can be sent
and when none is forgotten. Success of a send is a 2xx status: the response body is never looked at
(`log_event_response_json.hpp:9-11`), and the callback tests that a value is present, not that it is
true.

**User updates** (`ErrorBoundary`, `EvaluationStore`, `MemoryCache`, `DataAdapter`, `ClientProtocol`,
`ClientTheorems`, `ClientSessions`, `ClientPool`, `ClientScenario`, `StatsigClient`). The replacement of
the context by an initialisation, the body of an update, the start of a background job, the arrival of a
response and the end of a file write are the atomic steps; jobs run in any order, and `ClientPool` runs
them on the pool machine. A replaced context lives on for the jobs that hold it: whether a job still
finds what it locks is a parameter of each of its steps. The refresh after a synchronous update is made
for the user of the moment, with the cached result of the user before, as in the source.
`EvaluationStore`, `InMemoryCache`, `EvaluationsDataAdapter`, `StatsigContext` and `StatsigClient` are
classes whose methods change the fields and perform these steps.

**Hashes, keys and payloads** (`Hashing`, `UserKeys`, `KeyFaithfulness`, `Json`, `EventCodec`). Strings
hold one byte per character. An unordered map is a Dafny `map`; a loop over one picks its keys in an
arbitrary order, so a method that equals a function of the map gives one result for every iteration
order. JSON documents are values; a text that is not JSON is an absent document.

Responses, clock readings, task durations, lifetimes of locked objects, evicted entries of equal age and
the parser of initialize responses are parameters, so the results hold for all of them.

Where the code does not do what one would expect, the model follows the code and a lemma shows it:
`PoolTheorems.ZeroThreadsNotDrained`, `SecondShutdownNotDrained` and `RestartNotDrained` (each breaks
one rule of the drain theorem), `RestartBreaksTheQueue`, `RetryBound.HalfSavesBreakTheBound` and
`HalfRetriesBreakTheBound`, `SavedBatches.OverlappingSavesForget` and `WriteInRetryForgets` (each breaks
one half of the condition of its theorem), `MemoryCache.ReAddCanEvictAnother`,
`ClientScenario.SameSessionShowsFirst` (`emplace` keeps the old result),
`ClientScenario.LateWriteLosesCallback`, `ClientTheorems.StaleCompletionFinalizes`,
`DataAdapter.UnrequestedNotModified`, `KeyFaithfulness.SeparatorsCollide` and `MapKeysCollide`,
`EventCodec.RoundTripExact` (exposures are written and read under different names).

## Model

| member | source | states |
|---|---|---|
| PoolProtocol.StepKeepsInv | src/statsig_compat/async/async_helper.hpp:36-123 | every step of workers, controller and adders keeps FIFO history, mutual exclusion and, while no start met a live worker of an earlier one, the exact counter and "nothing but late outside tasks is left once all workers are done" |
| PoolTheorems.RunInv | src/statsig_compat/async/async_helper.hpp:36-123 | these invariants hold in every state of every interleaving |
| PoolTheorems.Conservation | src/statsig_compat/async/async_helper.hpp:51-56 | over all runs, restarts with surviving workers included: added tasks are the taken ones followed by the queue, the next one taken is the oldest, and a taken task is either finished or held by a worker, never both |
| PoolTheorems.TakenOnce | src/statsig_compat/async/async_helper.hpp:114-115 | two takes never take the same position of the added sequence |
| PoolTheorems.CounterIsExact | src/statsig_compat/async/async_helper.hpp:65-82 | in clean runs no worker takes from an empty queue, the counter equals the number of ended workers, and the final join never blocks |
| PoolTheorems.ResetCreatesThreads | src/statsig_compat/async/async_helper.hpp:36-49 | when a reset for n threads has returned, whatever other threads did meanwhile and however often the running pool was asked to start again, the thread list holds exactly n workers, all of them new |
| PoolTheorems.ShutdownCanFinish | src/statsig_compat/async/async_helper.hpp:58-123 | a polling shutdown is never stuck: from every reachable clean state the workers run to their ends by their own steps, and then it joins them with the pool drained |
| PoolTheorems.ShutdownVerdict | src/statsig_compat/async/async_helper.hpp:65-90 | in clean runs the second comparison of a shutdown joins exactly if all its threads have ended; with an empty thread list it "joins" exactly if no worker has ended |
| PoolTheorems.CallerIsRight | src/statsig_compat/async/async_helper.hpp:36-91 | a caller who starts with workers and stops after a failed shutdown knows from its own calls which state the pool is in |
| PoolTheorems.DrainedShutdown | src/statsig_compat/async/async_helper.hpp:58-91 | for a caller whose starts ask for at least one worker and who leaves the pool alone once a shutdown has returned false: when a shutdown returns true, everything added while the flag was set, and everything a running task ever added, has run to completion |
| PoolTheorems.ZeroThreadsNotDrained | src/statsig_compat/async/async_helper.hpp:65-82 | the first rule is needed: after a start without workers a shutdown returns true and leaves a queued task |
| PoolTheorems.SecondShutdownFails | src/statsig_compat/async/async_helper.hpp:65-90 | after any shutdown that joined workers, every further one before the next start compares the stale counter with no threads and returns false |
| PoolTheorems.SecondShutdownNotDrained | src/statsig_compat/async/async_helper.hpp:65-82 | the second rule is needed: a second shutdown after a timed-out one compares 0 with 0 and returns true, with one task running and another queued |
| PoolTheorems.RestartNotDrained | src/statsig_compat/async/async_helper.hpp:36-91 | the same rule: after a timed-out shutdown and a restart, a shutdown can return true while a task still runs |
| PoolTheorems.RestartBreaksTheQueue | src/statsig_compat/async/async_helper.hpp:107-115 | a restart between the wait predicate and the second test makes a worker take the front of an empty queue |
| ThreadPool.ThreadPool.Push | src/statsig_compat/async/async_helper.hpp:51-56 | `Add` is the push step of the protocol |
| ThreadPool.ThreadPool.TakeOrExit | src/statsig_compat/async/async_helper.hpp:109-116 | the locked test returns the oldest task or ends the worker, as one protocol step |
| ThreadPool.ThreadPool.CountAndEnd | src/statsig_compat/async/async_helper.hpp:110-111 | storing the loaded counter plus one and leaving is one step |
| ThreadPool.ThreadPool.BeginReset | src/statsig_compat/async/async_helper.hpp:37-42 | `Reset` does nothing while running, otherwise clears the thread list |
| ThreadPool.ThreadPool.CreateThread | src/statsig_compat/async/async_helper.hpp:46-48 | one turn of the creation loop adds one waiting worker or ends the reset |
| ThreadPool.ThreadPool.Poll | src/statsig_compat/async/async_helper.hpp:65-73 | polling goes on until the counter equals the thread count or the time is up |
| ThreadPool.ThreadPool.CheckCompleted | src/statsig_compat/async/async_helper.hpp:75-90 | the second comparison decides between joining and detaching |
| BackgroundTimer.Doze | src/statsig_compat/async/async_helper.hpp:187-193 | the stepwise sleep ends at most one step after the interval, or at the first read that finds the flag set |
| BackgroundTimer.TimerLoop | src/statsig_compat/async/async_helper.hpp:183-205 | unless the flag was seen set, at least every second turn starts a task, and every turn without an interval; the loop ends within two reads of a set flag and reads it only so often per start; starts are at least the interval apart, the first within interval plus 10 ms, every next one within task time plus interval plus 10 ms, each after its own clear read of the flag |
| BackgroundTimer.AtMostOneStartAfterStop | src/statsig_compat/async/async_helper.hpp:152-157 | at most one task starts after the shutdown flag is set |
| Diagnostics.MarkedAllKeepsPrefix | src/statsig/internal/diagnostics.hpp:45-52 | of any sequence of markers exactly the prefix that fits below 31 is kept |
| Diagnostics.FirstThirtyOne | src/statsig/internal/diagnostics.hpp:45-52 | of any markers the first 31 stay |
| Diagnostics.Diagnostics.Mark | src/statsig/internal/diagnostics.hpp:45-52 | a marker is appended unless more than 30 are held; 31 is the bound |
| Diagnostics.Diagnostics.TakeMarkers | src/statsig/internal/diagnostics.hpp:54-61 | the markers move out and none is left |
| EventLogger.EventLogger.AppendDiagnostics | src/statsig/internal/diagnostics.hpp:54-80 | held markers become one event at the end of the buffer; without markers nothing happens |
| EventLogger.EventLogger.FlushImpl | src/statsig/internal/event_logger.hpp:175-190 | buffer and markers become one batch task, and nothing is submitted when both are empty |
| EventLogger.EventLogger.Enqueue | src/statsig/internal/event_logger.hpp:34-45 | the event is buffered; above the limit everything is flushed, so a non-negative limit is never exceeded |
| EventLogger.EnqueueMeaning | src/statsig/internal/event_logger.hpp:34-45 | up to the limit the event just stays in the buffer; one more sends everything with the markers as one event at the end; a negative limit never sends |
| EventLogger.FlushMeaning | src/statsig/internal/event_logger.hpp:175-190 | a flush sends what there is, markers last, and nothing at all if there is nothing |
| EventLogger.EventLogger.Shutdown | src/statsig/internal/event_logger.hpp:47-55 | the timer is stopped and the buffer flushed from outside the pool |
| Pipeline.EventsConserved | src/statsig/internal/event_logger.hpp:34-60 | in every run batches in queue order followed by the buffer are the enqueued events in order, each accepted marker is in one place, at most 31 are held, and the buffer respects its limit |
| Pipeline.NoSilentLoss | src/statsig/internal/statsig_client.cpp:204-240 | for a caller as in the drain theorem: when the pool shutdown returns true, the events before the final flush are exactly the batches of the tasks until then, and each batch got a 2xx, or its save has been written to the file, or its logger or network was gone |
| Pipeline.NothingDropped | src/statsig/internal/event_logger.hpp:220-243 | while logger and network live, no batch takes the last way |
| Pipeline.SendMeaning | src/statsig/internal/event_logger.hpp:220-243 | a batch is delivered exactly when one of at most two requests, the second only after a retryable failure, got a 2xx; otherwise its save is queued |
| FailedEvents.SavedList | src/statsig/internal/event_logger.hpp:108-112 | the new payload comes first, the others keep their order, and only a sixth one is dropped |
| FailedEvents.SaveFailedEvents | src/statsig/internal/event_logger.hpp:95-127 | the document to write is the saved list over what the file held, or over nothing if it did not parse |
| FailedEvents.SavedThenRead | src/statsig/internal/event_logger.hpp:95-127 | the next reader finds the saved list in normal form |
| FailedEvents.RetryFailedEvents | src/statsig/internal/event_logger.hpp:129-169 | the file is deleted and the payloads are sent in order with their attempts plus one, up to the first that finds the network gone |
| FailedEvents.FileStaysConforming | src/statsig/internal/event_logger.hpp:95-169 | under every interleaving of saves, deferred writes, retries, damage and restarts, the file and all pending writes hold at most 5 payloads with 1 to 3 attempts |
| RetryBound.RetryBound | src/statsig/internal/event_logger.hpp:150-167 | saves interleave and write late as they like; if only no save is half done when a retry deletes the file and no retry is half done when another one reads it, then over all sessions a batch is submitted at most 4 times and posted at most 8 times, submissions without an answer included, and is never stored and sent at once |
| RetryBound.AnswerMeaning | src/statsig/internal/event_logger.hpp:150-166 | an answered submission is delivered on a 2xx of its at most two requests, saved again up to the third failure, and given up after that |
| RetryBound.GivenUpAtFour | src/statsig/internal/event_logger.hpp:150-166 | under the same conditions a batch is given up only when it has been submitted four times |
| RetryBound.BoundsAreMet | src/statsig/internal/event_logger.hpp:150-166 | four submissions and eight requests are reached |
| RetryBound.HalfSavesBreakTheBound | src/statsig_compat/filesystem/file_helper.hpp:33-46 | without the first half of the condition there is no bound: for every n a batch is submitted n + 1 times although no two retries overlap |
| RetryBound.HalfRetriesBreakTheBound | src/statsig/internal/event_logger.hpp:129-148 | nor without the second half: n overlapping retries submit a batch n + 1 times although no save is half done |
| SavedBatches.NoBatchForgotten | src/statsig/internal/event_logger.hpp:95-169 | if saves do not overlap and no write falls between a retry's read and deletion, every batch ever sent is on its way or stored, or it got a 2xx, failed too often, was pushed out as the sixth, or was cut off from outside |
| SavedBatches.PushedOutOnly | src/statsig/internal/event_logger.hpp:108-112 | a batch is pushed out only by a save into a list of five, whose last one it was |
| SavedBatches.DeliveredOnly | src/statsig/internal/event_logger.hpp:220-243 | a batch is delivered or given up only by an answer |
| SavedBatches.CutOnly | src/statsig/internal/event_logger.hpp:129-167 | a batch is cut off only where a process, a file, a logger or a network was gone |
| SavedBatches.OverlappingSavesForget | src/statsig/internal/event_logger.hpp:95-127 | without the first half, two overlapping saves leave a failed batch nowhere |
| SavedBatches.WriteInRetryForgets | src/statsig/internal/event_logger.hpp:129-148 | nor without the second half: a batch saved between a retry's read and deletion is nowhere |
| NetworkService.FinalAttempt | src/statsig/internal/network_service.hpp:213-255 | the attempt that calls back is the first final one, and not beyond the maximum |
| NetworkService.FinalAttemptMeaning | src/statsig/internal/network_service.hpp:242-253 | response n is passed on exactly if 1 <= n <= max, all earlier ones are retryable failures, and n is a 2xx (RFC 9110, section 15.3), not retryable, or the last |
| NetworkService.MarkersArePaired | src/statsig/internal/network_service.hpp:221-240 | every attempt has its start marker followed by its end marker with its status |
| NetworkService.RequestMarkersMeaning | src/statsig/internal/network_service.hpp:221-240 | if the service goes away, the markers are those of all attempts up to the start of the one that finds it gone |
| NetworkService.NetworkService.PostWithRetry | src/statsig/internal/network_service.hpp:213-255 | terminates; the callback runs once with the final response, or never if the service is gone; initialize requests set exactly the markers described |
| EvaluationStore.EvaluationStore.Reset | src/statsig/internal/evaluation_store.hpp:19-24 | no values, source Loading, zero times |
| EvaluationStore.EvaluationStore.Finalize | src/statsig/internal/evaluation_store.hpp:26-33 | values stay; without values the source becomes NoValues; never Loading afterwards |
| EvaluationStore.EvaluationStore.SetValuesFromDataAdapterResult | src/statsig/internal/evaluation_store.hpp:45-64 | values, source and times change together; a failed parse or an absent result changes nothing |
| EvaluationStore.EvaluationStore.GetGate | src/statsig/internal/evaluation_store.hpp:66-80 | a value exactly if the hashed name is known, with the times and source of the result it came from; the exact reason in both cases |
| EvaluationStore.EvaluationStore.GetConfig | src/statsig/internal/evaluation_store.hpp:82-96 | the same for dynamic configs |
| EvaluationStore.EvaluationStore.GetLayer | src/statsig/internal/evaluation_store.hpp:98-112 | the same for layers |
| MemoryCache.InMemoryCache.FindOldest | src/statsig/internal/statsig_evaluations_data_adapter.hpp:186-194 | the search finds an entry of minimal `received_at` for every iteration order |
| MemoryCache.InMemoryCache.AddToInMemoryCache | src/statsig/internal/statsig_evaluations_data_adapter.hpp:174-201 | a full cache gives up an oldest entry; a present key keeps its value |
| MemoryCache.NeverMoreThanTen | src/statsig/internal/statsig_evaluations_data_adapter.hpp:174-201 | over every sequence of insertions there are at most ten entries |
| MemoryCache.VictimMeaning | src/statsig/internal/statsig_evaluations_data_adapter.hpp:178-196 | nothing is evicted below ten entries, and from ten on one entry that is as old as any |
| MemoryCache.LookupReturnsFirstAdded | src/statsig/internal/statsig_evaluations_data_adapter.hpp:69-86 | a lookup returns the value of the insertion that last found the key absent, and every insertion since was ignored |
| MemoryCache.OthersUntouched | src/statsig/internal/statsig_evaluations_data_adapter.hpp:174-201 | only the victim and the new key change |
| MemoryCache.ReAddCanEvictAnother | src/statsig/internal/statsig_evaluations_data_adapter.hpp:178-200 | re-adding a present key to a full cache removes another entry |
| MemoryCache.RunCacheEviction | src/statsig/internal/file.hpp:47-62 | from ten files on the nine youngest are kept, the others deleted, none lost |
| DataAdapter.NotModifiedSound | src/statsig/internal/statsig_evaluations_data_adapter.hpp:203-231 | with a server that says "no updates" only to a positive `sinceTime`, every Ok result has the requester's hash and data that deserialises, and a not-modified one has the data of a current result of that hash |
| DataAdapter.SoundExactly | src/statsig/internal/network_service.hpp:163-178 | without that trust, a result is sound exactly if the answer carried data or the hash guard had passed |
| DataAdapter.LatestMeaning | src/statsig/internal/statsig_evaluations_data_adapter.hpp:203-231 | every kind of answer and the code, data, source, time and hash that come of it |
| DataAdapter.SinceTimeExactly | src/statsig/internal/network_service.hpp:64-69 | the time sent is that of the cached response if it has updates and was stored under the same full hash, and none otherwise |
| DataAdapter.NotModifiedKeepsTime | src/statsig/internal/statsig_evaluations_data_adapter.hpp:223-228 | a "no updates" to a request with a time keeps data of exactly that time |
| DataAdapter.BadStatusReported | src/statsig/internal/network_service.hpp:123-131 | a failed request is reported with its status from 500 on, and not at all below |
| DataAdapter.HandlerMarkersMeaning | src/statsig/internal/network_service.hpp:186-201 | processing begins with any 2xx and ends at once if the text cannot be parsed |
| DataAdapter.SyncOutcomeMeaning | src/statsig/internal/statsig_evaluations_data_adapter.hpp:69-86 | where a lookup finds its result, what it changes of it, and that it fails exactly for an unreadable file |
| DataAdapter.SyncMemoryMeaning | src/statsig/internal/statsig_evaluations_data_adapter.hpp:79-83 | a result found in a file is in memory afterwards, in place of a victim if the memory was full |
| DataAdapter.EntryKeyText | src/statsig/internal/statsig_evaluations_data_adapter.hpp:157-160 | the name of a cache entry |
| DataAdapter.UnrequestedNotModified | src/statsig/internal/statsig_evaluations_data_adapter.hpp:225-228 | an unasked-for 204 without a current result stores empty data |
| DataAdapter.EvaluationsDataAdapter.FetchValues | src/statsig/internal/network_service.hpp:50-83 | `sinceTime` is that of the guarded cache; one result of the final response, or none |
| DataAdapter.EvaluationsDataAdapter.GetDataSync | src/statsig/internal/statsig_evaluations_data_adapter.hpp:69-86 | memory first, then the file, whose result is relabelled and put into memory; errors of the file are passed on |
| DataAdapter.EvaluationsDataAdapter.FetchLatest | src/statsig/internal/statsig_evaluations_data_adapter.hpp:203-233 | the callback runs once with the outcome of the final response, error details included, or never; the markers are those of the request and its handler |
| DataAdapter.EvaluationsDataAdapter.HandleFetchValuesResponse | src/statsig/internal/network_service.hpp:180-211 | bad status with details from 500 on, 204, unparsable and parsed responses, with their processing markers |
| ClientSessions.StaleResultSafety | src/statsig/internal/statsig_client.cpp:121-202 | in every interleaving of updates, over any number of contexts, values in the store of a context came from an adapter call for a user equal to its own |
| ClientSessions.ServedValuesOnly | src/statsig/internal/statsig_client.cpp:121-202 | through memory, files, earlier contexts whose requests and writes go on, and not-modified answers, whatever the store shows was sent by the server for a user with the full hash of the user or with the same cache entry |
| ClientSessions.StoreStates | src/statsig/internal/evaluation_store.hpp:19-64 | in every reachable state values are absent exactly under Uninitialized, Loading and NoValues, with zero times, and otherwise `lcut` is theirs; no completed update leaves Loading |
| ClientSessions.CallbackDelivery | src/statsig/internal/statsig_client.cpp:155-202 | each asynchronous update calls back at most once; when the jobs have drained, all have called back exactly once if and only if no step settled a waiting call whose owner was gone |
| ClientSessions.LastUpdateShows | src/statsig/internal/statsig_client.cpp:155-202 | whatever else goes on, when the last update of a context is answered, its store shows exactly the result it was answered with, or what it showed before if this is an error |
| ClientTheorems.ShownByStep | src/statsig/internal/statsig_client.cpp:176-198 | a step of a job changes store and calls exactly by calling back with its result |
| ClientTheorems.ConcludedMeaning | src/statsig/internal/statsig_evaluations_data_adapter.hpp:98-128 | for every answer, what the callback is given, and that new values wait for their file write |
| ClientTheorems.UpdateNormalizes | src/statsig/internal/statsig_client.cpp:129-137 | an update takes the user as given but with the environment of the options, and its job goes on with what was found for that user |
| ClientTheorems.EnvironmentsDoNotMatter | src/statsig/internal/statsig_user_internal.hpp:20-39 | users who differ in their own environments only make the same update and are equal |
| ClientTheorems.UpdateShowsFound | src/statsig/internal/statsig_client.cpp:166-173 | an update shows a found result that parses with its own source and times; else it is loading, or has no values if synchronous |
| ClientTheorems.RequestCarries | src/statsig/internal/statsig_evaluations_data_adapter.hpp:88-96 | the request is made for the initiator, or the user of the moment, with the result that was found before or is found now |
| ClientPool.ShutdownSettlesCalls | src/statsig_compat/async/async_helper.hpp:58-91 | on top of the pool: when a shutdown returns true to a caller as in the drain theorem, every call not made from outside after the flag was cleared has been answered, or lost its owner, and no other job is left |
| ClientPool.ShutdownAnswersCalls | src/statsig/internal/statsig_client.cpp:155-202 | if no owner was gone, each of these calls was answered exactly once |
| ClientSessions.JobsRunOut | src/statsig/internal/statsig_evaluations_data_adapter.hpp:88-131 | after the last call from outside at most three steps per job remain |
| ClientSessions.JobsNeverStuck | src/statsig/internal/statsig_evaluations_data_adapter.hpp:88-131 | every job can take its next step without losing its call |
| ClientTheorems.StaleCompletionFinalizes | src/statsig/internal/statsig_client.cpp:183-188 | a stale completion shows nothing but turns a newer Loading into NoValues |
| ClientScenario.ScenarioExists | src/statsig/internal/statsig_client.cpp:155-202 | from every state each user, answer and time has such an update |
| ClientScenario.UpdateShowsAndKeeps | src/statsig/internal/statsig_client.cpp:155-202 | an answered update shows the new values, calls back once and leaves them in the user's file, all other files as the eviction left them |
| ClientScenario.NextSessionShowsCached | src/statsig/internal/statsig_evaluations_data_adapter.hpp:17-50 | a new session shows these values at once, labelled as cached |
| ClientScenario.SameSessionShowsFirst | src/statsig/internal/statsig_evaluations_data_adapter.hpp:178-200 | a later update of the session finds the fetched result exactly if the entry had been absent, evicted or equal |
| ClientScenario.UnchangedShowsSame | src/statsig/internal/network_service.hpp:163-178 | with a cached file and a 204 the cached values are shown first, their time is sent, and then the same values are shown as not modified |
| ClientScenario.RefreshKeepsForLater | src/statsig/internal/statsig_client.cpp:141-149 | what the refresh after a synchronous update fetches reaches the file and changes nothing that is shown |
| ClientScenario.UnchangedExists | src/statsig/internal/statsig_client.cpp:155-202 | every state with such a file has this course of events |
| ClientScenario.RefreshExists | src/statsig/internal/statsig_client.cpp:121-153 | every state has this one |
| ClientScenario.LateWriteLosesCallback | src/statsig/internal/statsig_evaluations_data_adapter.hpp:115-124 | if the context is gone when the queued write ends, the file still gets the values, but nothing is shown and the callback never runs |
| StatsigClient.StatsigContext.constructor | src/statsig/internal/statsig_context.hpp:23-44 | a context starts uninitialised with a store, memory and network of its own; files and jobs are shared |
| StatsigClient.StatsigClient.InitializeSync | src/statsig/internal/statsig_client.cpp:60-85 | an empty key is refused and changes nothing; otherwise a new context for any key makes a synchronous update, between the two overall markers |
| StatsigClient.StatsigClient.InitializeAsync | src/statsig/internal/statsig_client.cpp:87-119 | an empty key is answered at once; otherwise a new context for any key makes an asynchronous update |
| StatsigClient.StatsigContext.ShowCached | src/statsig/internal/statsig_client.cpp:166-173 | normalise, reset, tell diagnostics the user, look up, show: the common beginning as one protocol step |
| StatsigClient.StatsigClient.UpdateUserSync | src/statsig/internal/statsig_client.cpp:121-153 | is the synchronous update step of the context, returns the code of the lookup and reports it to the boundary; ClientUninitialized without a context |
| StatsigClient.StatsigClient.UpdateUserAsync | src/statsig/internal/statsig_client.cpp:155-202 | is the asynchronous update step of the context; without one nothing happens |
| StatsigClient.StatsigContext.RunJob | src/statsig/internal/statsig_evaluations_data_adapter.hpp:88-96 | starting a job looks for a current result once more and sends the request |
| StatsigClient.StatsigContext.OnResponse | src/statsig/internal/statsig_evaluations_data_adapter.hpp:96-131 | a response is recorded, kept and completed or queued for writing |
| StatsigClient.StatsigContext.OnWritten | src/statsig/internal/statsig_evaluations_data_adapter.hpp:115-124 | the callback runs after the file write |
| StatsigClient.StatsigContext.Complete | src/statsig/internal/statsig_client.cpp:179-191 | stale-result guard, finalisation, report of a bad code to the boundary, one callback |
| ErrorBoundary.SeenExactly | src/statsig/internal/error_boundary.hpp:155-169 | an error is remembered exactly if some captured task or bad result raised it |
| ErrorBoundary.SentAreTheFirst | src/statsig/internal/error_boundary.hpp:155-199 | over any run the reports are those of the first event of each error, in order, as far as they can be encoded |
| ErrorBoundary.SentOnce | src/statsig/internal/error_boundary.hpp:155-169 | no error is reported twice |
| ErrorBoundary.ReportedExactly | src/statsig/internal/error_boundary.hpp:55-77 | four codes are never reported, two only with their own detail, which may give the error its text |
| ErrorBoundary.ErrorBoundary.HandleBadResult | src/statsig/internal/error_boundary.hpp:55-77 | expected codes are ignored, two codes count only with their details, the others are reported |
| ErrorBoundary.ErrorBoundary.Capture | src/statsig/internal/error_boundary.hpp:79-109 | an exception becomes UnexpectedError; recovery runs once with the returned code after an exception or a bad code, and otherwise never |
| Hashing.DJB2 | src/statsig/internal/hashing.hpp:7-16 | the wrapping loop of either width prints the base-31 polynomial of the sign-extended characters modulo 2^32 |
| Hashing.WideAccumulatorMaskedOnce | src/statsig/internal/hashing.hpp:8-14 | masking a wider accumulator once equals truncating a 32-bit one at every step |
| Hashing.AccumulatorIsPolynomial | src/statsig/internal/hashing.hpp:9-12 | truncation at every step computes the polynomial modulo the width |
| Hashing.OneCharacterHash | src/statsig/internal/hashing.hpp:9-12 | strings of one character have equal hashes exactly if their bytes are equal; an ASCII one hashes to its code |
| Hashing.HashConcat | src/statsig/internal/hashing.hpp:7-16 | hash(a + b) = hash(a) * 31^length(b) + hash(b) modulo 2^32 |
| Hashing.DJB2TextFaithful | src/statsig/internal/hashing.hpp:15 | printed hashes are equal exactly when the 32-bit hashes are |
| UserKeys.SortedEnumerationUnique | src/statsig/internal/unordered_map_util.hpp:31-39 | a map has exactly one key-sorted enumeration |
| UserKeys.LessAtDifference | src/statsig/internal/unordered_map_util.hpp:31-34 | keys ascend: the first character that differs decides |
| UserKeys.LessPrefix | src/statsig/internal/unordered_map_util.hpp:31-34 | and a proper prefix comes first |
| UserKeys.MapTextExample | src/statsig/internal/statsig_user_internal.hpp:72-90 | two entries in either order of insertion, as texts of both formats |
| UserKeys.CacheKeyExample | src/statsig/internal/statsig_user_internal.hpp:68-102 | the hashed text of a cache key with two custom ids |
| UserKeys.CreateSortedMapString | src/statsig/internal/unordered_map_util.hpp:24-42 | the text is a function of the map, for every iteration order |
| UserKeys.GetFullUserHash | src/statsig/internal/statsig_user_internal.hpp:41-66 | the hash is a function of the user, for every iteration order of its maps |
| UserKeys.FullUserText | src/statsig/internal/statsig_user_internal.hpp:41-66 | the hashed text: every value after its own label, a missing one as empty |
| UserKeys.SortedRearrangementIsCanonical | src/statsig/internal/statsig_user_internal.hpp:76-80 | sorting any enumeration by key, by any sort, gives the one canonical order |
| UserKeys.MakeCacheKey | src/statsig/internal/statsig_user_internal.hpp:68-102 | the key is a function of the SDK key and the user, for every iteration order |
| UserKeys.NormalizeKeepsCacheKey | src/statsig/internal/statsig_user_internal.hpp:20-39 | normalising changes no cache key, and no hash under the same tier |
| UserKeys.NormalizedExactly | src/statsig/internal/statsig_user_internal.hpp:20-39 | the configured environment replaces the user's own, all else stays |
| KeyFaithfulness.MapTextFaithful | src/statsig/internal/unordered_map_util.hpp:36-39 | maps with keys free of `:` and values free of the entry separator have the same text exactly if they are equal |
| KeyFaithfulness.FullUserTextFaithful | src/statsig/internal/statsig_user_internal.hpp:41-66 | users in which no value contains the label printed right after it, and map keys and values not what ends them, have the same hashed text exactly if all eleven values agree, missing counting as empty |
| KeyFaithfulness.CacheKeyTextFaithful | src/statsig/internal/statsig_user_internal.hpp:68-102 | if custom id keys contain no dash, their values no comma, and nothing printed before the SDK key a bar, the cache key text depends on SDK key, user id and custom ids, on all of them, and on nothing else |
| KeyFaithfulness.SeparatorsCollide | src/statsig/internal/statsig_user_internal.hpp:60-63 | one user id that contains the next label is enough for two different users to count as equal |
| KeyFaithfulness.MapKeysCollide | src/statsig/internal/statsig_user_internal.hpp:76-94 | a map key that contains what ends a key makes two different maps print the same text, in both formats |
| EventCodec.UserToJson | src/statsig_compat/json_serialization/statsig_user_json.hpp:26-48 | the document has exactly the present members, null if there are none |
| EventCodec.AssembleLookup | src/statsig_compat/json_serialization/statsig_user_json.hpp:10-10 | a member is in the document exactly if its value is present, with that value |
| EventCodec.UserStrings | src/statsig_compat/json_serialization/statsig_user_json.hpp:33-39 | the string members by name |
| EventCodec.UserMaps | src/statsig_compat/json_serialization/statsig_user_json.hpp:29-45 | the map members and the environment by name; empty custom ids are left out |
| EventCodec.UserDecodes | src/statsig_compat/json_serialization/statsig_user_json.hpp:50-69 | a document decodes exactly if each member that is there has its type |
| EventCodec.UserFromJson | src/statsig_compat/json_serialization/statsig_user_json.hpp:50-69 | stepwise decoding with the type errors of each member |
| EventCodec.UserRoundTrip | src/statsig_compat/json_serialization/statsig_user_json.hpp:26-69 | a decoded user is the encoded one with an absent id turned into the empty one |
| EventCodec.EventToJson | src/statsig_compat/json_serialization/statsig_event_json.hpp:10-32 | the event document, string value before number |
| EventCodec.EventFromJson | src/statsig_compat/json_serialization/statsig_event_json.hpp:34-65 | required members raise errors, optional ones of the wrong type are ignored |
| EventCodec.EventRoundTrip | src/statsig_compat/json_serialization/statsig_event_json.hpp:10-65 | decoding an encoded event gives its normal form |
| EventCodec.EventDocument | src/statsig_compat/json_serialization/statsig_event_json.hpp:10-32 | the members by name, with one value, the string if there are both |
| EventCodec.ExposuresReadBack | src/statsig_compat/json_serialization/statsig_event_json.hpp:21-23 | the array written for the exposures reads back as these exposures |
| EventCodec.EventDecodes | src/statsig_compat/json_serialization/statsig_event_json.hpp:34-65 | a document decodes exactly if name and time have their types and user and exposures, if there, decode |
| EventCodec.DecodedValue | src/statsig_compat/json_serialization/statsig_event_json.hpp:58-62 | which values are strings, numbers or none |
| EventCodec.PayloadToJson | src/statsig_compat/json_serialization/retryable_event_payload_json.hpp:8-23 | attempts and all events in order |
| EventCodec.PayloadFromJson | src/statsig_compat/json_serialization/retryable_event_payload_json.hpp:25-36 | the payload, or the first error |
| EventCodec.Serialize | src/statsig_compat/json_serialization/retryable_event_payload_json.hpp:50-72 | all payloads in order |
| EventCodec.Deserialize | src/statsig_compat/json_serialization/retryable_event_payload_json.hpp:74-84 | all payloads, or one failure code for any error |
| EventCodec.PayloadDecodes | src/statsig_compat/json_serialization/retryable_event_payload_json.hpp:25-36 | a payload decodes exactly if its attempts are a number or a boolean and its events an array of events; attempts are narrowed to 32 bits |
| EventCodec.FileDecodes | src/statsig_compat/json_serialization/retryable_event_payload_json.hpp:38-48 | a file reads as payloads exactly if it is an array of payloads |
| EventCodec.FileRoundTrip | src/statsig_compat/json_serialization/retryable_event_payload_json.hpp:8-84 | decoding an encoded list keeps count, order and attempts and normalises each event |
| EventCodec.NormalFormStable | src/statsig_compat/json_serialization/statsig_event_json.hpp:10-65 | the normal form is a fixed point and keeps the full user hash |
| EventCodec.RoundTripExact | src/statsig_compat/json_serialization/statsig_event_json.hpp:21-29 | a list comes back unchanged exactly if no event has exposures, two values, or a user without id that is not empty |

## Left out

- HTTP transport, headers, compression and request bodies: a request is its sequence of responses.
- The text layer of JSON, invalid UTF-8 and non-finite numbers: documents are values, integers are unbounded except `attempts`, which is 32 bits wide and wraps when read.
- Parsing of initialize responses: a partial function; gates, configs and layers are reduced to rule id and value.
- Exceptions inside the other components: a captured task ends with a code or an exception, and the boundary's answer to both is modelled, but which line throws is not.
- Data races on the current user and the unlocked in-memory cache: update bodies and completions are atomic.
- Scheduling, fairness and lost wakeups of the pool: safety only; jobs of the client are shown to need a bounded number of steps.
- StatsigClient.StatsigClient.InitializeSync: does not contain the start of the pool, which is a step of its own, because the client and the pool are composed as state machines in `ClientPool`.
- StatsigClient.StatsigClient.InitializeAsync: contains neither the start of the pool nor the end marker, which the callback sets when it runs.
- The `ProcessEnd(true)` marker that the adapter's callback sets after a request or its file write.
- Pools and cache directories of different SDK keys and options as separate objects: all contexts share one set of jobs and one set of cache files.
- `StatsigClient::Shutdown` as one method: it is the logger's shutdown step followed by the pool's shutdown steps, and returns Ok exactly when the latter return true.
- The constructor's lost self-reference in the event logger: whether a callback can lock the logger is a parameter, so its retry and timer callbacks are covered both running and failing.
- Ages of cache files in the client's state machine: an eviction there may delete any files; which ones `RunCacheEviction` keeps is stated separately.
- Iteration order of the outer map of eleven parts: fixed, as it is the same for every user of one build.
- Concurrent writers that mix their bytes in the failed-event file: a partial write is unreadable content.
- Log output, exposure events, stable ids, platform events, value accessors, the second task runner, and the unimplemented bootstrap and prefetch.
