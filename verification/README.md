# Models and proofs for the LLM platform

A Dafny model of the prediction gateway (`llm_platform_go/internal`) and of the
schema utilities of the frontend (`llm_platform_frontend/src/utils/schema.ts`),
with proofs about every input, every run or every interleaving.
`dafny verify dfyconfig.toml` checks all of it.

## What is modelled

| module | subject |
|---|---|
| `Breaker` | the per-(task, model) circuit breaker: a class kept equal to a closed form of the log of what it was told |
| `Limiter` | the per-task token and request windows: a class refining a specification with the history of reservations, and theorems over runs of it |
| `Runner`, `Fallback`, `WalkMeaning` | one model call with its retries; the walk over a chain, as a loop refining a recursive walk over observations; what each row of its trace means for gate, cache, validator and providers |
| `PredictionCache` | cache keys and entries, and the in-process store |
| `Gateway`, `GatewaySteps` | the pipeline around them, as interleaved atomic steps of any number of requests sharing one breaker, one limiter and one cache; what each step does, in plain terms |
| `GatewayTotals`, `GatewayHits`, `GatewaySkips` | over whole runs: what they add up to; what cache hits go back to; which models are skipped, called and believed |
| `Coherence`, `Registry` | the task store twice: its lock and cache step by step, and its operations as whole critical sections |
| `RunWriter` | the asynchronous writer: writers, drainer and closers, one shared access per step (`attemptwriter.go` and `healthwriter.go` have the same shape) |
| `Paging`, `Spend` | two views that must agree with the run log |
| `Json`, `Canonical`, `JsonMeaning` | `stableStringify`, its unique decodability, and its text by the grammar of JSON |
| `PropertyOrder`, `SchemaEditor`, `SchemaFidelity`, `SchemaMeaning` | the order of object keys, and schema editor conversions: from fields first, from schemas first, and key by key |
| `Images`, `ImageSchemas` | what a template sees of images and what is attached; which fields of the editor the gateway takes for images |
| `Prelude` | shared vocabulary |

Time is a parameter that never goes back. Provider replies, route tables,
templates, output validation and number formatting are arbitrary functions.
Where the code runs under a mutex the model takes one atomic step, or one class
method; histories that only proofs need are ghost fields or parts of a state.
In `Gateway` the cache key stands for its inputs: the hash is taken to be
injective. The tracker, the limiter and the store appear there through the
specifications their classes are proved against.

## What the proofs found

Where the code and its comments, or what one would expect of them, differ, the
model follows the code and the theorems give the exact condition:

- **No single probe.** `tracker.go` describes one probing trial after a cooldown
  (best effort under concurrency); every caller, concurrent or not, is admitted
  until the next failure is recorded (`Breaker.EveryProbeAdmitted`,
  `Breaker.TwoProbesAtOnce`).
- **A window of zero length breaks the books.** Token conservation holds over
  every run if and only if `Window > 0` (`Limiter.ConservedExactlyWithAWindow`).
- **The window does not roll.** Twice `MaxRequests` can pass within one window's
  length, and never more; the cap holds for a rolling window only when a window is
  a single tick of the clock (`Limiter.AdmissionBound`,
  `Limiter.RollsExactlyWhenOneTick`).
- **Retry-After can be hopeless.** A request whose estimate exceeds `MaxTokens` is
  told to retry and will be refused again (`Limiter.RetryAfterIsHonest`,
  `Limiter.RetryCanBeHopeless`).
- **A flagged answer can be lost.** "Flagged, not failed" holds of a walk that
  falls through only if the flagged model came last; one skipped model after it
  turns the answer into a failure (`Fallback.FlaggedExactlyWhenLast`,
  `Fallback.FlaggedAnswerCanBeLost`).
- **The budget sees one attempt.** The limiter is settled with the tokens of every
  attempt; the budget misses what was paid for answers that failed their schema
  earlier in the walk, and is charged nothing when a cache hit follows them
  (`Fallback.BudgetSeesTheLastAttempt`, `Fallback.BudgetCanBeShort`,
  `Fallback.HitAfterAPaidAnswer`).
- **`fallbackUsed` has two meanings.** The walk sets it by position, a cache hit by
  comparing model names; they part exactly when a chain repeats its primary model
  and the hit is on the repetition (`GatewayHits.FlagsAgreeExactly`,
  `GatewayHits.FlagsCanDiffer`).
- **A second Close does not flush** (`RunWriter.CloseFlushesExactlyWhenFirst`,
  `RunWriter.RowLeftByALaterClose`).
- **Version numbers are reused** after the highest version is deleted
  (`Registry.NumberAfterDeletion`, `Registry.HighestNumberComesBack`).
- **An anchor of zero pins nothing**, which is what an empty log gives
  (`Paging.FirstPageAnchors`).
- **The spend cache does not err towards blocking early.** A refresh forgets every
  completed run whose row has not landed, without bound when rows are dropped
  (`Spend.ErrorOfTheView`, `Spend.AsynchronousUndercounts`); with the synchronous
  writer it never under-counts.
- **Numbers too large print as null**, so `stableStringify` takes them for null
  (`Canonical.StableStringifyIsCanonical`).
- **Switching to the visual editor can change a schema silently**, against the
  header of `schema.ts`: `SchemaFidelity.OpenedAndSaved` says which schemas are
  safe. A field named `__proto__` disappears, because assigning to that key sets a
  prototype (`SchemaEditor.RoundTrip`, `SchemaEditor.ProtoDisappears`). Names that
  are array indices move to the front, and saving twice can reorder `required`
  (`SchemaEditor.SecondSave`).

## Model

| member | source | states |
|---|---|---|
| Breaker.WithDefaults | llm_platform_go/internal/health/tracker.go:78-92 | each setting that is not positive (a factor below two) takes its own default: 3 failures, 30 seconds, 30 minutes, 2; usable settings are kept |
| Breaker.Backoff | llm_platform_go/internal/health/tracker.go:255-267 | the loop computes min(MaxCooldown, BaseCooldown·Factor^(trips−1)); the values its duration takes (from Base, multiplied once per trip until one reaches MaxCooldown) are returned as a ghost sequence, and none exceeds max(Base, Max)·Factor |
| Breaker.Tracker.constructor | llm_platform_go/internal/health/tracker.go:78-92 | a new tracker reflects the empty log under the defaulted settings |
| Breaker.Tracker.Allow | llm_platform_go/internal/health/tracker.go:101-121 | a pair is refused exactly while at least Threshold failures in a row are on record and the window of the last one is open: a formula over the log of what the tracker was told, with no stored state; every entry stays the closed form of that log |
| Breaker.Tracker.RecordSuccess | llm_platform_go/internal/health/tracker.go:126-147 | every entry is still the closed form of the log, extended by this success |
| Breaker.Tracker.RecordFailure | llm_platform_go/internal/health/tracker.go:153-179 | the same for a failure: trips = max(0, consecutive − Threshold + 1), cooldown and deadline follow, whether or not a probe was out |
| Breaker.Tracker.ResetPair | llm_platform_go/internal/health/tracker.go:183-202 | succeeds exactly for pairs with a recorded outcome, and clears the streak but not the totals |
| Breaker.Tracker.Trip | llm_platform_go/internal/health/tracker.go:246-252 | one more trip, its cooldown in closed form, and the deadline that many nanoseconds ahead |
| Breaker.Tracker.Ensure | llm_platform_go/internal/health/tracker.go:269-277 | a pair never recorded has exactly the closed form of the log too |
| Breaker.OwnPairMoves | llm_platform_go/internal/health/tracker.go:126-202 | what each kind of event does to the streak, the totals and the last failure of its own pair |
| Breaker.OtherPairsUnmoved | llm_platform_go/internal/health/tracker.go:65-74 | an event never changes the closed form of another (task, model) pair |
| Breaker.WritingReflects | llm_platform_go/internal/health/tracker.go:126-202 | updating one entry keeps the whole table the closed form of the log |
| Breaker.CooldownMonotone | llm_platform_go/internal/health/tracker.go:255-267 | later trips never have shorter windows |
| Breaker.CooldownGrowsByFactor | llm_platform_go/internal/health/tracker.go:255-267 | the first window is the base, each next one Factor times the one before, up to the cap |
| Breaker.OpenAndShut | llm_platform_go/internal/health/tracker.go:101-121 | below Threshold failures in a row every Allow is admitted; at the Threshold-th the pair is shut for the base window from its last failure, beyond it for the backed-off one |
| Breaker.DeadlineNeverFalls | llm_platform_go/internal/health/tracker.go:153-179 | over any run without a success or reset of a tripped pair, it stays tripped and its deadline never moves back |
| Breaker.BlockedUntilRecovery | llm_platform_go/internal/health/tracker.go:101-121 | so every Allow before the deadline is refused, whatever else interleaves |
| Breaker.EveryProbeAdmitted | llm_platform_go/internal/health/tracker.go:97-121 | after the deadline every Allow is admitted until the next failure: the single probe the comment speaks of is not what the code does |
| Breaker.TwoProbesAtOnce | llm_platform_go/internal/health/tracker.go:97-121 | under every setting there is a log after which two Allows of one pair are admitted at the same instant, the second while the first one's probe is out |
| Limiter.Estimate | llm_platform_go/internal/ratelimit/limiter.go:106-119 | the text part is the length over chars-per-token rounded up, neither more nor less |
| Limiter.Limiter.WindowFor | llm_platform_go/internal/ratelimit/limiter.go:121-135 | opens a window only for a task without one |
| Limiter.Limiter.Reserve | llm_platform_go/internal/ratelimit/limiter.go:141-186 | decision and new state are those of the specification the run theorems are about; a reservation is recorded exactly when one is granted |
| Limiter.Limiter.Reconcile | llm_platform_go/internal/ratelimit/limiter.go:192-211 | settles against the specification; an inactive reservation changes nothing |
| Limiter.ClampNeverFires | llm_platform_go/internal/ratelimit/limiter.go:203-210 | the clamp at zero is dead code while Window > 0, and an equal start time means the very same window |
| Limiter.SettlingKeeps | llm_platform_go/internal/ratelimit/limiter.go:192-211 | a settlement keeps every window's tokens equal to the weights of its own reservations |
| Limiter.StepKeepsBooks | llm_platform_go/internal/ratelimit/limiter.go:141-211 | so does every operation, together with the order of windows and the per-window cap |
| Limiter.RunKeepsBooks | llm_platform_go/internal/ratelimit/limiter.go:141-211 | token conservation over every run of Reserve and Reconcile on any tasks |
| Limiter.WithoutAWindow | llm_platform_go/internal/ratelimit/limiter.go:160-210 | a run of three operations that breaks conservation when Window ≤ 0 |
| Limiter.ConservedExactlyWithAWindow | llm_platform_go/internal/ratelimit/limiter.go:141-211 | conservation holds over every run if and only if Window > 0 |
| Limiter.EpochsApart | llm_platform_go/internal/ratelimit/limiter.go:160-165 | a later window starts at least a window's length after an earlier one and after every admission of it, so starts strictly increase |
| Limiter.DecisionFromHistory | llm_platform_go/internal/ratelimit/limiter.go:141-186 | a request is admitted if and only if it is within the per-request limit, the window in force has admitted fewer than MaxRequests, and its settled and outstanding reservations leave room for the estimate; otherwise the code says which failed first |
| Limiter.WhatReserveWrites | llm_platform_go/internal/ratelimit/limiter.go:155-185 | the window and the ledger entry a Reserve leaves, in terms of the old window and the clock; a refusal names the rest of that window |
| Limiter.WhatReconcileWrites | llm_platform_go/internal/ratelimit/limiter.go:192-211 | a settlement replaces the estimate by the actual tokens in the window it was reserved in, never below zero; any later window is left alone, and no request is taken back |
| Limiter.DisabledAdmitsAll | llm_platform_go/internal/ratelimit/limiter.go:141-144 | a limiter switched off admits everything and keeps no books |
| Limiter.RefusedExactlyUntil | llm_platform_go/internal/ratelimit/limiter.go:155-186 | the wait a refusal names is exact: sooner, the same refusal with that much less to wait; from then on, admitted if and only if the estimate fits an empty window |
| Limiter.AdmissionBound | llm_platform_go/internal/ratelimit/limiter.go:155-185 | any half-open interval of one Window admits at most 2 × MaxRequests requests of a task |
| Limiter.AdmissionBoundIsReached | llm_platform_go/internal/ratelimit/limiter.go:155-185 | and for every window longer than one tick and every cap some run admits exactly that many |
| Limiter.OneTickBound | llm_platform_go/internal/ratelimit/limiter.go:155-185 | a window of one tick keeps every interval of its length to the cap itself |
| Limiter.RollsExactlyWhenOneTick | llm_platform_go/internal/ratelimit/limiter.go:155-185 | the cap holds for a rolling window, over every run and interval, if and only if the window is one tick |
| Limiter.RetryAfterSeconds | llm_platform_go/internal/api/predict_core.go:158-164 | the header is never zero, never too early, and less than a second too late |
| Limiter.RetryAfterIsHonest | llm_platform_go/internal/ratelimit/limiter.go:166-186 | a refused request retried after the header's seconds, with no other Reserve of its task in between, is admitted if and only if its estimate fits an empty window |
| Limiter.RetryCanBeHopeless | llm_platform_go/internal/ratelimit/limiter.go:166-186 | an estimate above MaxTokens is refused on empty books and refused again after any wait |
| Limiter.OtherTasksDoNotMatter | llm_platform_go/internal/ratelimit/limiter.go:121-135 | no run of operations on other tasks changes a task's next decision |
| Runner.ShouldFallback | llm_platform_go/internal/llm/failure.go:36-51 | which errors move the walk on, as one condition on kind and status |
| Runner.IsRetryable | llm_platform_go/internal/llm/runner.go:324-326 | only infrastructure failures are retried |
| Runner.Tries | llm_platform_go/internal/llm/runner.go:163-200 | one to three calls, all but the last worth repeating, and the last not unless it is the third |
| Runner.CallIsClassified | llm_platform_go/internal/llm/runner.go:132-228 | a call answers exactly when its last reply carried content, and is eligible for fallback exactly when no client is configured or that reply was an eligible error |
| Runner.CallCarriesItsReply | llm_platform_go/internal/llm/runner.go:163-228 | the answer is the first choice of the last reply, with its tokens, their sum and its cost; a failure carries the error, infrastructure flag and status that ended it |
| Runner.RetriedExactly | llm_platform_go/internal/llm/runner.go:163-200 | a second and a third call are made exactly after transient failures (429, 500, 503, the caller still there) |
| Runner.CallModel | llm_platform_go/internal/llm/runner.go:132-228 | the retry loop gives the result of that last reply, and reports as retries exactly the upstream calls it made |
| Fallback.Turn | llm_platform_go/internal/llm/fallback.go:90-153 | one turn of the loop takes the step of the recursive walk: its attempt row, its report to the gate and where it leads (`WalkMeaning.WalkMeans` says what they are) |
| Fallback.WalkChain | llm_platform_go/internal/llm/fallback.go:88-153 | the loop is the recursive walk, and makes as many upstream calls as its trace accounts for |
| Fallback.CallWithFallbackOpts | llm_platform_go/internal/llm/fallback.go:74-189 | the whole call refines the recursive walk that `WalkMeaning` reads row by row; upstream calls made equal the sum of RetryCount over the trace |
| Fallback.ReadRecord | llm_platform_go/internal/llm/fallback.go:193-235 | how one row reads: what outcome means which observation, which report, at most three calls |
| Fallback.AdvanceKeepsFaith | llm_platform_go/internal/llm/fallback.go:88-153 | every turn keeps the trace a faithful record of what the walk saw |
| Fallback.WalkIsFaithful | llm_platform_go/internal/llm/fallback.go:88-153 | and so does the rest of the walk from any point |
| Fallback.EveryWalk | llm_platform_go/internal/llm/fallback.go:74-153 | every walk ends as a faithful record of what it saw, with the gate told exactly what the trace says |
| WalkMeaning.WalkMeans | llm_platform_go/internal/llm/fallback.go:88-153 | in terms of gate, cache, provider, validator and context alone: a row is a skip if and only if the gate refuses, else a cache hit if and only if the lookup answers, else the call's own result, used if and only if the validator passes it; the walk goes past a row exactly when it is not definitive and the caller is still there; and the gate is told those rows' reports in order |
| WalkMeaning.ErrorOfAWalk | llm_platform_go/internal/llm/fallback.go:155-188 | the error of a failed walk: all models refused, the definitive error itself, or the chain failed with the last row's error |
| WalkMeaning.ResultOfAWalk | llm_platform_go/internal/llm/fallback.go:155-188 | every other attribute of the result is the last row's, unless all models were refused; it is degraded exactly when the walk moved on or fell through |
| WalkMeaning.SumsOverTheTrace | llm_platform_go/internal/api/predict_core.go:376-386 | tokens, cost and retries of a trace are the sums over its rows |
| Fallback.TraceOfAWalk | llm_platform_go/internal/llm/fallback.go:74-153 | the trace is a prefix of the chain numbered from 0; all before its end are skips, invalid answers or eligible errors; it ends early only on a definitive outcome or a gone caller |
| Fallback.AnswerOfAWalk | llm_platform_go/internal/llm/fallback.go:155-188 | success, model, response, cost and the degraded flag are read off the last attempt alone |
| Fallback.FlaggedExactlyWhenLast | llm_platform_go/internal/llm/fallback.go:163-188 | a walk that falls through keeps a flagged answer if and only if the last attempt is the flagged one |
| Fallback.FlaggedAnswerCanBeLost | llm_platform_go/internal/llm/fallback.go:163-188 | a chain whose first model answered (invalidly) and whose call fails all the same, against the comment |
| Fallback.AdvanceKeepsAccounts | llm_platform_go/internal/llm/fallback.go:112-152 | per model, reports to the gate equal the trace's success rows, and its invalid and eligible-error rows |
| Fallback.BudgetSeesTheLastAttempt | llm_platform_go/internal/api/predict_core.go:448-474 | the budget is charged the whole walk's cost if and only if no model before the last one was paid for an answer that failed its schema |
| Fallback.BudgetCanBeShort | llm_platform_go/internal/api/predict_core.go:448-474 | a paid answer that failed its schema, then a good one: the charge is short by the first one's cost |
| Fallback.HitAfterAPaidAnswer | llm_platform_go/internal/api/predict_core.go:486-538 | the same with a cached answer at the end: nothing is charged |
| PredictionCache.Latest | llm_platform_go/internal/cache/memory.go:46-53 | finds the most recent Set of the key whenever there was one |
| PredictionCache.Memory.Get | llm_platform_go/internal/cache/memory.go:32-44 | with lazy eviction, Get returns the value of the latest Set of the key while that has not expired, and nothing otherwise |
| PredictionCache.Memory.Set | llm_platform_go/internal/cache/memory.go:46-53 | keeps the store and the history of Sets in that relation |
| PredictionCache.SetThenGet | llm_platform_go/internal/cache/memory.go:32-53 | a Set is what a Get of its key returns until its time to live is over, a day when none is given, and no other key notices it |
| Gateway.StepKeepsSound | llm_platform_go/internal/api/predict_core.go:298-439 | one step of any request keeps: traces faithful, hits tied to a Set, every Set tied to a live call, outcomes as shaped |
| Gateway.StepKeepsTally | llm_platform_go/internal/api/predict_core.go:345-349 | one step keeps breaker counters equal to the traces |
| Gateway.StepKeepsCharge | llm_platform_go/internal/api/predict_core.go:364-388 | one step keeps reservations and requests in one-to-one correspondence, each settled once to its trace's tokens |
| Gateway.EveryRunKeeps | llm_platform_go/internal/api/predict_core.go:298-439 | the three invariants in every reachable state of any number of interleaved requests |
| Gateway.TokensAreConserved | llm_platform_go/internal/api/predict_core.go:364-388 | in every reachable state each window holds the weights of its own reservations, reservations and limited requests correspond one to one, and a settled reservation weighs its request's whole trace |
| GatewayTotals.WindowsHoldTheirRequests | llm_platform_go/internal/api/predict_core.go:364-388 | in every reachable state each window's counter is the sum over requests of the traces' tokens of its settled ones and the estimates of its outstanding ones |
| GatewayTotals.TracesCountEveryCall | llm_platform_go/internal/llm/runner.go:163-200 | over any interleaving of requests, the RetryCounts in all traces add up to the upstream calls made |
| Gateway.BreakerCountsTheTrace | llm_platform_go/internal/llm/fallback.go:112-152 | in every reachable state the tracker's totals for a pair are the gated traces' success rows and its invalid and eligible-error rows; skips, hits and definitive errors count for nothing |
| Gateway.CacheHitsReplayLiveCalls | llm_platform_go/internal/api/predict_core.go:490-538 | a request served from the cache replays a successful live call with the same key inputs, to the model its walk had reached, with that call's parsed output, at zero tokens and cost |
| GatewayHits.LookFindsAnEarlierCall | llm_platform_go/internal/api/predict_core.go:322-339 | at the lookup that hits, the live call it replays is already on record |
| GatewayHits.HitsReplayEarlierCalls | llm_platform_go/internal/api/predict_core.go:322-339 | every hit a request carries, in every run, was found by a lookup of its own and replays a live call made before that lookup |
| GatewayHits.FlagsAgreeExactly | llm_platform_go/internal/api/predict_core.go:496-505 | the trace and the served hit agree on fallbackUsed if and only if the hit was on the first model or not on the primary's name again |
| GatewayHits.FlagsCanDiffer | llm_platform_go/internal/api/predict_core.go:496-505 | a reachable state in which they differ: a chain that names its primary twice |
| Gateway.HitProvenance | llm_platform_go/internal/api/predict_core.go:322-339 | the captured entry belongs to the last attempt, and to a live call that passed its schema |
| Gateway.FillIsLive | llm_platform_go/internal/api/predict_core.go:416-439 | a cache fill happens only after a live success that passed its schema, and stores that call under its own key |
| GatewaySteps.AskMeans | llm_platform_go/internal/api/predict_core.go:345-349 | one Ask: a production predict's model is skipped if and only if the breaker is on, the log holds Threshold failures of the pair in a row, and the instant is before the last failure plus its cooldown; otherwise it goes on to the cache; the breaker logs the question exactly when it is consulted |
| GatewaySteps.LookMeans | llm_platform_go/internal/api/predict_core.go:303-339 | one Look: the walk ends on the current entry of the job's inputs and this model, if use of the cache, caching and no override allow it and there is one; otherwise the model is called |
| GatewaySteps.WhereAnAnswerLeads | llm_platform_go/internal/api/predict_core.go:351-357 | a live answer of a production predict with a schema is used if and only if it passes that schema, and recorded as invalid if and only if it does not; invalid answers and eligible errors go on to the next model while there is one and the caller is there |
| GatewaySteps.AnswerMeans | llm_platform_go/internal/llm/fallback.go:109-152 | one Answer: that, with the breaker told a success, a failure or nothing by the row's outcome, and the call put on record |
| GatewaySteps.ArriveMeans | llm_platform_go/internal/api/predict_core.go:364-372 | a predict reserves if and only if limits are enforced and on; refused, it leaves no request |
| GatewaySteps.SettleMeans | llm_platform_go/internal/api/predict_core.go:376-388 | the reservation is settled with the tokens of the whole trace |
| GatewaySteps.ShapeMeans | llm_platform_go/internal/api/predict_core.go:405-439 | what is served: the hit's entry, or the last row's answer with the output its schema check gives; and what is cached: exactly a clean answer of a job that may use the cache, under its own model, for the task's time to live |
| GatewaySteps.FinishMeans | llm_platform_go/internal/api/predict_core.go:400-439 | one Finish: served so and cached so, and nothing else changes |
| GatewaySteps.NeverStuck | llm_platform_go/internal/api/predict_core.go:298-439 | a request that is not done always has a step to take, whatever its model answers |
| GatewaySteps.EveryStepCounts | llm_platform_go/internal/llm/fallback.go:88-153 | and at most three a model and two more in all |
| GatewaySkips.SkippedExactlyWhenShut | llm_platform_go/internal/llm/fallback.go:89-96 | over every run: each row of each trace goes back to one Ask of it, and is a skip if and only if the request was a guarded production predict and the log before that Ask, at its instant, had the pair shut |
| GatewaySkips.CalledOnlyWhenCleared | llm_platform_go/internal/llm/fallback.go:89-110 | a live call is preceded by an Ask of its model that found the pair not shut, or the request not guarded |
| GatewaySkips.ShutUntilItsDeadline | llm_platform_go/internal/health/tracker.go:101-121 | from the trip of a pair to its deadline, with no recovery between, every guarded request that asks is refused it, whatever the others do |
| GatewaySkips.NeverCalledWhileShut | llm_platform_go/internal/llm/fallback.go:89-96 | and its trace has a skip there, for good: that Ask never leads to a live answer |
| GatewaySkips.AnswersAreChecked | llm_platform_go/internal/api/predict_core.go:351-357 | over every run: a success row of a production predict with a schema has a response that parses, an invalid one a response that does not, and no other job has invalid rows |
| Coherence.FillKeeps | llm_platform_go/internal/tasks/store.go:121-143 | filling the cache under the shared lock stores what the table says |
| Coherence.WriteKeeps | llm_platform_go/internal/tasks/store.go:173-229 | a write under the exclusive lock leaves only its own task's cached row behind |
| Coherence.InvalidateKeeps | llm_platform_go/internal/tasks/store.go:58-62 | and the invalidation that follows removes it |
| Coherence.StepKeepsInv | llm_platform_go/internal/tasks/store.go:113-143 | every step of every reader and writer keeps lock exclusion, agreement and truthful answers |
| Coherence.CacheIsCoherent | llm_platform_go/internal/tasks/store.go:35-62 | in every interleaving: with no writer inside, each cached task equals its row; and every Get returned what the table said at an instant inside its own call, with no use of the TTL |
| Coherence.GetReturnsTheTable | llm_platform_go/internal/tasks/store.go:113-143 | a Get returns the table's row as of the moment it returns, and is recorded with the times of its call and its return |
| Coherence.GetsCarryTheirTime | llm_platform_go/internal/tasks/store.go:113-143 | the time a Get carries is that of its own call |
| Coherence.WriteReachesTheTable | llm_platform_go/internal/tasks/store.go:198-219 | a write leaves exactly its value in its own row, and the other rows alone |
| Coherence.EditsAreSeen | llm_platform_go/internal/tasks/store.go:35-62 | after an edit has written a row, every Get of it that returns before the next write of that row returns what the edit wrote, whenever it was called |
| Coherence.NoDeadlock | llm_platform_go/internal/tasks/store.go:35-62 | as long as a call is out, some thread in a call can take a step; a thread inside the lock never waits |
| RunWriter.StepKeepsMutex | llm_platform_go/internal/db/runwriter.go:48-81 | one mutex holder; between setting closed and closing the channel the closer holds it; no sender past closed |
| RunWriter.StepKeepsCount | llm_platform_go/internal/db/runwriter.go:48-65 | refused writes are counted, or about to be; no panic |
| RunWriter.StepKeepsOrder | llm_platform_go/internal/db/runwriter.go:37-65 | accepted rows are the rows handed to the insert followed by the queue, in order |
| RunWriter.WriterIsSafe | llm_platform_go/internal/db/runwriter.go:37-81 | in every interleaving: no send on a closed channel, nothing accepted is lost, repeated or reordered, drops are exactly the refusals once writers have returned, and the first Close returns only when nothing is queued |
| RunWriter.NoDeadlock | llm_platform_go/internal/db/runwriter.go:37-81 | as long as a call is out or a row on its way, some step other than a new call can be taken |
| RunWriter.HoldsExactly | llm_platform_go/internal/db/runwriter.go:25-65 | with the drainer still, a new writer accepts exactly bufSize rows (1024 unless told otherwise) and counts the next as dropped |
| RunWriter.FlushedIsFinal | llm_platform_go/internal/db/runwriter.go:71-81 | after that nothing is accepted or inserted any more |
| RunWriter.LaterCloseDoesNotFlush | llm_platform_go/internal/db/runwriter.go:71-76 | a Close that finds the writer closed returns in its own four steps, with the queue as it stands |
| RunWriter.CloseFlushesExactlyWhenFirst | llm_platform_go/internal/db/runwriter.go:70-81 | a Close about to test the flag leaves nothing queued or half inserted, however it returns, if and only if it is the one that closes the channel or nothing is left already |
| RunWriter.RowLeftByALaterClose | llm_platform_go/internal/db/runwriter.go:70-81 | a run from a new writer in which a second Close has returned and an accepted row is still queued |
| Registry.Highest | llm_platform_go/internal/tasks/versions.go:30-36 | a recorded version that no recorded version of the task exceeds |
| Registry.Select | llm_platform_go/internal/tasks/versions.go:107-124 | finds a version exactly when it is recorded |
| Registry.Without | llm_platform_go/internal/tasks/versions.go:85-104 | keeps exactly the other rows, and fewer rows remain exactly when one matched |
| Registry.NumberAfterDeletion | llm_platform_go/internal/tasks/versions.go:30-36 | after deleting version v the next number is above v if and only if a higher one is still recorded (or v was not positive and the last): numbers are reused |
| Registry.HighestNumberComesBack | llm_platform_go/internal/tasks/versions.go:30-36 | version 2 of two, deleted, is assigned again |
| Registry.Store.Get | llm_platform_go/internal/tasks/store.go:113-143 | cached or not, returns the table's row |
| Registry.Store.AppendVersion | llm_platform_go/internal/tasks/versions.go:39-47 | the insert fails exactly on a recorded (task, version) |
| Registry.Store.Create | llm_platform_go/internal/tasks/store.go:78-107 | fails exactly on an invalid or existing task; otherwise the task and its first version appear together |
| Registry.Store.Update | llm_platform_go/internal/tasks/store.go:173-229 | succeeds exactly for a known task that is valid under its new number; stored and returned is what the caller sent, with only the version set: the old number when template and system are unchanged, and otherwise one above every recorded one, with a version row of the caller's own template and system |
| Registry.Store.Rewrite | llm_platform_go/internal/tasks/store.go:198-229 | table, cache and version row change together and the registry stays consistent |
| Registry.Store.SaveDraft | llm_platform_go/internal/tasks/versions.go:128-150 | succeeds exactly for a known task and a template that parses, with a number above every recorded one: the unique insert cannot fail; the live prompt is untouched |
| Registry.Store.Deploy | llm_platform_go/internal/tasks/versions.go:157-176 | succeeds exactly for a recorded version; template and system of its row and its number become the task's, and nothing else of it or of other tasks changes |
| Registry.Store.DeleteVersion | llm_platform_go/internal/tasks/versions.go:85-104 | removes exactly that version, and never the live one |
| Registry.Store.Delete | llm_platform_go/internal/tasks/store.go:240-257 | removes the task with all its versions, and never the playground |
| Registry.DeployThereAndBack | llm_platform_go/internal/tasks/versions.go:157-176 | deploying another version and then the old one restores the task exactly |
| Paging.ListAllRuns | llm_platform_go/internal/db/queries.go:352-414 | although anchor, count and page are three statements, the answer under an anchor is that of one instant, whatever is inserted in between |
| Paging.FiltersNarrow | llm_platform_go/internal/db/queries.go:302-340 | an empty filter lists every run, and each setting on its own narrows the list to the rows it names |
| Paging.ExtensionIsInvisible | llm_platform_go/internal/db/queries.go:330-333 | rows newer than the anchor are in no page and no count |
| Paging.PagesPartitionTheSnapshot | llm_platform_go/internal/db/queries.go:352-414 | for a fixed anchor, pages 1..TotalPages, each fetched from the log as it then was, concatenate to the matching rows of the snapshot, and all report the same total |
| Paging.MatchingIsNewestFirst | llm_platform_go/internal/db/queries.go:302-340 | what they concatenate to: exactly the matching rows, in strictly descending id |
| Paging.FirstPageAnchors | llm_platform_go/internal/db/queries.go:352-362 | a request without an anchor returns one that pins later pages if and only if the log is not empty |
| Paging.TotalPages | llm_platform_go/internal/db/queries.go:834-839 | ceiling division |
| Spend.ViewIsBasePlusAdded | llm_platform_go/internal/api/budget_cache.go:10-18 | the entry is the database's sum at the last refresh plus what was added since |
| Spend.NoEntryUntilARefresh | llm_platform_go/internal/api/budget_cache.go:33-50 | a task has an entry exactly when it has been refreshed |
| Spend.ErrorOfTheView | llm_platform_go/internal/api/budget_cache.go:33-64 | entry + (added before the last refresh but not landed by then) = completed spend + (landed by then but not yet added), exactly |
| Spend.SynchronousNeverUndercounts | llm_platform_go/internal/api/budget_cache.go:33-64 | with the synchronous writer the entry never falls short, so what the gate admits had less than the budget spent |
| Spend.AsynchronousUndercounts | llm_platform_go/internal/api/budget_cache.go:15-18 | with the asynchronous writer n predictions can each pass a gate that sees nothing spent, for every n |
| Spend.SpendCache.CurrentSpend | llm_platform_go/internal/api/budget_cache.go:33-50 | returns the entry within the TTL and refreshes it otherwise; entries stay the view of their tasks' logs |
| Spend.SpendCache.AddSpend | llm_platform_go/internal/api/budget_cache.go:55-64 | adds to an existing entry only, and leaves every refresh time alone |
| Canonical.SortedIsUnique | llm_platform_frontend/src/utils/schema.ts:178 | the sorted list of keys depends only on the set of keys |
| Canonical.QuoteCancels | llm_platform_frontend/src/utils/schema.ts:179 | a quoted string is uniquely decodable in front of any text (escapes of section 7 of RFC 8259, lone surrogates as in ECMAScript) |
| Canonical.Cancel | llm_platform_frontend/src/utils/schema.ts:174-180 | a printed value is uniquely decodable in front of anything that can follow a value, up to key order |
| Canonical.AlikePrintsSame | llm_platform_frontend/src/utils/schema.ts:174-180 | values equal up to key order print the same |
| Canonical.StableStringifyIsCanonical | llm_platform_frontend/src/utils/schema.ts:174-180 | two values print the same text if and only if they are equal up to key order, a non-finite number counting as null |
| Canonical.FiniteValuesAreToldApart | llm_platform_frontend/src/utils/schema.ts:174-180 | without such numbers the printer is canonical outright |
| JsonMeaning.ByCodeUnits | llm_platform_frontend/src/utils/schema.ts:178 | keys are ordered by their first differing code unit, a prefix first |
| JsonMeaning.QuoteReadsBack | llm_platform_frontend/src/utils/schema.ts:175 | a decoder written from section 7 of RFC 8259 reads every quoted string back as what was quoted |
| JsonMeaning.EscapeIsWellPaired | llm_platform_frontend/src/utils/schema.ts:175 | a quoted string has no unpaired surrogate, even where the string had one |
| JsonMeaning.EscapedOneByOne | llm_platform_frontend/src/utils/schema.ts:175 | surrogate pairs are written as they are, every other unit on its own |
| JsonMeaning.WrittenAsItself | llm_platform_frontend/src/utils/schema.ts:175 | which units are escaped, and at what length |
| JsonMeaning.ValuesAreWritten | llm_platform_frontend/src/utils/schema.ts:175-176 | the text of every value that is not an object: its literal, number or string, or its items with commas between brackets |
| JsonMeaning.ObjectsAreWritten | llm_platform_frontend/src/utils/schema.ts:177-179 | and of an object: its members, key, colon and value, in the order of the keys' code units |
| SchemaEditor.WriteProperty | llm_platform_frontend/src/utils/schema.ts:152-163 | computes the property that `SchemaMeaning.WhatIsWritten` spells out key by key |
| SchemaEditor.FieldsToSchema | llm_platform_frontend/src/utils/schema.ts:146-171 | the loop computes the schema the theorems below are about, and `SchemaMeaning.FieldIsWritten` field by field |
| SchemaEditor.SchemaToFields | llm_platform_frontend/src/utils/schema.ts:72-143 | the loop with its early exits computes the parse the theorems below are about |
| SchemaMeaning.WhatIsWritten | llm_platform_frontend/src/utils/schema.ts:152-164 | a written property key by key, in plain words: type, items, maxItems, description, and nothing under format or title |
| SchemaMeaning.CapsAreWritten | llm_platform_frontend/src/utils/schema.ts:158 | an image cap is written as it is when it is positive, a cap of one and Infinity included; zero, negative numbers and NaN are not written |
| SchemaMeaning.EnumsAreWritten | llm_platform_frontend/src/utils/schema.ts:161 | the enum is the listed values of a string field, when there are any |
| SchemaMeaning.FieldIsWritten | llm_platform_frontend/src/utils/schema.ts:146-166 | every named field of a list with distinct names has its property under its trimmed name |
| SchemaMeaning.RequiredIsWritten | llm_platform_frontend/src/utils/schema.ts:167 | the names listed as required are those of the named fields that are |
| SchemaMeaning.TidyFieldComesBack | llm_platform_frontend/src/utils/schema.ts:72-171 | a field as the editor leaves it, cap and all, comes back unchanged |
| SchemaMeaning.SingleImageComesBack | llm_platform_frontend/src/utils/schema.ts:158 | so does a single image, whose cap of one is written |
| SchemaMeaning.ReadableExactly | llm_platform_frontend/src/utils/schema.ts:86-138 | a property is read if and only if every keyword, type, format, enum, element and cap of it is one the editor draws |
| SchemaMeaning.WhatIsRead | llm_platform_frontend/src/utils/schema.ts:86-140 | and the field it is read as, attribute by attribute |
| SchemaMeaning.SchemasRead | llm_platform_frontend/src/utils/schema.ts:72-143 | a schema is read if and only if it is empty, or an object schema of the known keywords all of whose properties are readable; one field per property, in order |
| SchemaMeaning.IssuesAre | llm_platform_frontend/src/utils/schema.ts:183-196 | the names listed are exactly those at two places of the list, each once, in order of first appearance |
| SchemaMeaning.TrimIsTheCore | llm_platform_frontend/src/utils/schema.ts:150 | trimming removes blanks, and only blanks, from both ends |
| SchemaEditor.FieldNameIssues | llm_platform_frontend/src/utils/schema.ts:183-196 | lists exactly the repeated trimmed names, in order of first appearance, none if and only if the names are distinct; and says whether one is empty |
| SchemaEditor.TrimTwice | llm_platform_frontend/src/utils/schema.ts:150 | trimming is idempotent |
| SchemaEditor.PropertyReadsBack | llm_platform_frontend/src/utils/schema.ts:86-140 | a written property reads back as its field's normal form exactly when the field can be drawn, and as nothing otherwise |
| SchemaEditor.FieldsComeBack | llm_platform_frontend/src/utils/schema.ts:72-171 | the exact result of writing and reading fields with distinct names, in the order JavaScript enumerates them |
| SchemaEditor.RoundTrip | llm_platform_frontend/src/utils/schema.ts:72-171 | every named field comes back normalised if and only if images are allowed where used, no array has image elements, and no field is called __proto__; and in its own order if and only if no array-index name follows one it is enumerated before |
| SchemaEditor.ProtoDisappears | llm_platform_frontend/src/utils/schema.ts:146-166 | a field called __proto__ is gone after the round trip |
| SchemaEditor.SecondSave | llm_platform_frontend/src/utils/schema.ts:72-171 | saving what came back gives the same properties, and the same schema if and only if the required names are in enumeration order |
| PropertyOrder.ArrangedExactly | llm_platform_frontend/src/utils/schema.ts:86 | enumeration keeps the order of insertion if and only if no array index was added after a key it is enumerated before |
| PropertyOrder.IndicesAreNumbers | llm_platform_frontend/src/utils/schema.ts:86 | array indices are the decimal numerals, without leading zeros, of the numbers below 2^32 − 1 |
| PropertyOrder.IndicesComeFirst | llm_platform_frontend/src/utils/schema.ts:86 | enumeration lists array indices first, in ascending order, and then every other key as it was added |
| SchemaEditor.NormalFormsWriteTheSame | llm_platform_frontend/src/utils/schema.ts:146-171 | writing the normal forms gives the same schema |
| SchemaFidelity.PropertyFidelity | llm_platform_frontend/src/utils/schema.ts:86-163 | an accepted property survives a round trip if and only if it is plain: no title, no bare image format, trimmed description, no empty enum, array items present, positive cap |
| SchemaFidelity.PropertiesFidelity | llm_platform_frontend/src/utils/schema.ts:86-166 | and the properties object if and only if every name and property is plain |
| SchemaFidelity.OpenedAndSaved | llm_platform_frontend/src/utils/schema.ts:72-171 | exactly which accepted schemas come out of reading and writing equal, up to key order, to what went in |
| SchemaFidelity.ImageStringLosesItsFormat | llm_platform_frontend/src/utils/schema.ts:91-94 | an accepted schema that does not: a bare image string loses its format |
| SchemaFidelity.SwitchingViewsIsNoticed | llm_platform_frontend/src/utils/schema.ts:173-180 | so the stable text compared by the page changes exactly on those |
| Images.ImageInputFields | llm_platform_go/internal/tasks/render.go:80-103 | the hidden names: the schema's image fields, which `Images.ShownAndAttached` describes, and the two legacy names |
| Images.ImageValueCount | llm_platform_go/internal/tasks/render.go:107-125 | counts exactly the images that would be attached |
| Images.RenderPrompt | llm_platform_go/internal/tasks/render.go:50-74 | the template's data is determined name by name, whatever order the maps are walked in |
| Images.ImageSchemaFieldNames | llm_platform_go/internal/api/predict_core.go:644-668 | the schema's image fields, each once, in byte order |
| Images.CollectImages | llm_platform_go/internal/api/predict_core.go:609-638 | the attached images, field after field, legacy names last |
| Images.HiddenAreAttached | llm_platform_go/internal/api/predict_core.go:609-638 | exactly the hidden fields are looked into for images, each once |
| Images.CountsAddUp | llm_platform_go/internal/tasks/render.go:61-68 | the counts shown to the template add up to the images attached |
| Images.AttachedAsShown | llm_platform_go/internal/tasks/render.go:50-74 | and no field is shown as a count that is not looked into |
| Images.ImagesDoNotInterfere | llm_platform_go/internal/tasks/render.go:50-74 | two requests give the template the same data if and only if they differ in nothing but which images they carry |
| Images.AttachedInOneOrder | llm_platform_go/internal/api/predict_core.go:641-668 | the order of attachment does not depend on map iteration |
| Images.ShownAndAttached | llm_platform_go/internal/tasks/render.go:50-103 | a name is shown as a count, and looked into for attachments, if and only if it is image or images, or a property that is a string of format image or an array with items of that format; every other name is shown as sent, or empty when declared and not sent |
| Images.ImagesOneByOne | llm_platform_go/internal/tasks/render.go:107-125 | the images of a value are the strings in it that are not empty, in order |
| Images.GatheredOneByOne | llm_platform_go/internal/api/predict_core.go:609-638 | and those of the fields, field after field |
| ImageSchemas.PropertyTakesImages | llm_platform_go/internal/tasks/render.go:94-101 | a property the editor writes, read by the gateway, takes images if and only if its field is an image field (or has a legacy name) |
| ImageSchemas.FieldTakesImages | llm_platform_go/internal/api/predict_core.go:644-668 | the same of whole schemas: of fields with distinct names, exactly the image fields and legacy names are hidden from the template and looked into for attachments |

## Left out

- HTTP handlers, routing, authentication, roles, configuration, bootstrap and migration: plumbing around the modelled core.
- React pages, hooks and the client portal: user interface.
- Provider wire formats, Redis, SQL text and dialects, JSON Schema compilation, template parsing and execution, SHA-256: parameters or abstract tables; SQL statements fail only where a constraint refuses them.
- Latencies, log lines, health events, `lastReason` and the wording of error messages: failures are a datatype with one case per message.
- Temperature and cost as floating point: thousandths and whole micro-dollars; 64-bit overflow of durations is covered only by the bound of `Breaker.Backoff`.
- `minOutputTokens`, reasoning-model request shapes, `RunAll` and `buildMessages`: request construction that never reaches the retry loop's decisions.
- Per-task input limits, image byte sizes, response shaping and the shadow-test runs: easy members.
- Undecodable cache entries: an entry that fails to decode counts as a miss in the code and does not occur in the model.
- Timestamps, defaults and the other settings of a task: one opaque field `settings`; tasks written before versions were recorded do not occur.
- The shallow copy in `UpdateTask` (`llm_platform_go/internal/api/task_handlers.go:97`): callers are taken not to mutate cached tasks, as the comment at `llm_platform_go/internal/tasks/store.go:33` asks.
- Dashboard, leaderboard and percentile queries: easy members.
- `undefined` inside JSON values.
- The page's list projection (prompt preview, image count): rows are listed as they are.
- The change of day in the spend cache: one process and one UTC day.
- Gateway.EveryRunKeeps: the run row and the budget update that follow an answer are not steps of the gateway; module `Spend` has the budget, module `RunWriter` the row.
- Coherence.CacheIsCoherent: an edit is modelled as one write of one task row; the version rows written in the same critical section are in `Registry`.
- Registry.Store.Update: field defaults applied before validation are part of `settings`.
- Spend.SpendCache.CurrentSpend: a failing query, which changes nothing and returns the error, is not modelled.
