# Verified models of the agent platform

Dafny models of the parts of the platform where the logic is hard, with proofs of what they
promise. `dafny verify dfyconfig.toml` checks everything.

What is modelled, file by file:

- **The sandbox pool** (`Provider`, `Orchestration`, `OneLive`, `PoolSpec`, `Pool`, `PoolInvariant`,
  `PoolScript`, `Sparing`, `Recency`, `Hibernation`, `ProbeAccounting`, `HealthProbe`, `WarmPool`, `Platform`). Classes for the
  in-memory provider, the store, the orchestrator, the pool with its linked list, index, timestamps
  and pins, and the three loops that drive it. Their methods are proved equal to functions on values;
  the theorems are about every run of those functions. Random ids, clock readings and the order in
  which Go walks a map are parameters or left open.
- **Single flight** (`SingleFlight`, `SingleFlightRuns`). Any number of concurrent calls as a state machine over lock
  sections, together with the pool's touch and eviction sections.
- **The circuit breaker and the fallback chain** (`BreakerSpec`, `Breaker`, `ChainSpec`, `Chain`,
  `Spacing`). The breaker's entries are mutable objects whose failure array is pruned in place. A turn
  takes one leg an entry: what the dispatcher answers and what the clocks read. The run theorems let
  several chains share a breaker.
- **Text chunking** (`Strings`, `Chunking`, `Lossless`, `GreedyPacking`, `Preference`). The Telegram and the Zalo adapter
  hold the same functions; one model stands for both. Lengths are in bytes, one char a byte.
- **Inline TOML** (`Texts`, `Toml`, `TomlReader`, `TomlRoundTrip`) with a reader after TOML v1.0.0,
  and **shell quoting** (`ShellQuoting`) with a reader after POSIX.1-2017 XCU sections 2.2.1 to 2.2.3
  and 2.6.7.
- **The UTF-8 check** (`Utf8`) against section 3 of RFC 3629.
- **The Zalo token refresher** (`RefresherSpec`, `TokenRefreshing`).
- **The skill resolver** (`SkillPicking`, `SkillResolver`, `SkillResolution`) in load-all mode.
- **Session ids** (`Sessions`).

Where the code does less than its comments or names say:

- `isValidUTF8` accepts some overlong forms, surrogates and code points beyond U+10FFFF.
  `Utf8Iff` says exactly which; `OverlongIsAccepted` is one input.
- A TOML string or key with a control character other than a tab is written as it is, which no reader
  may accept. `RoundTrip` is the exact condition; `NewlineIsLost` is one input.
- A skill of a tier outside the table ranks like the first tier and can get lost.
  `SkillResolution.Resolve` states the exact condition, `PickAccountsIff` the one for a single slug;
  `UnlistedTierIsLost` is one input.

## Model

| member | source | states |
|---|---|---|
| Provider.FakeDaytonaClient.CreateSandbox | go/internal/orchestrator/daytona_client_fake.go:56-68 | a new running sandbox carrying the user label, stored under its id |
| Provider.FakeDaytonaClient.GetSandbox | go/internal/orchestrator/daytona_client_fake.go:71-79 | the stored record, or not found |
| Provider.FakeDaytonaClient.FindByLabel | go/internal/orchestrator/daytona_client_fake.go:82-92 | some sandbox that carries the label and is not destroyed; none only when there is none |
| Provider.FakeDaytonaClient.StartSandbox | go/internal/orchestrator/daytona_client_fake.go:94-112 | sets the record running whatever its state was; not found changes nothing |
| Provider.FakeDaytonaClient.StopSandbox | go/internal/orchestrator/daytona_client_fake.go:115-126 | sets the record hibernated whatever its state was; not found changes nothing |
| Provider.FakeDaytonaClient.DeleteSandbox | go/internal/orchestrator/daytona_client_fake.go:129-140 | marks the record destroyed; an unknown id is ignored |
| Orchestration.InMemorySandboxStore.Remove | go/internal/orchestrator/sandbox.go:98-109 | every user whose entry names the sandbox loses it, and nobody else |
| Orchestration.Orchestrator.GetOrResume | go/internal/orchestrator/sandbox.go:244-280 | the provider and the store end as the case split over store, label search and sandbox state says |
| Orchestration.Orchestrator.Hibernate | go/internal/orchestrator/sandbox.go:283-298 | stops a sandbox; one already hibernated is left alone, a destroyed or unknown one is an error that changes nothing |
| Orchestration.Orchestrator.Destroy | go/internal/orchestrator/sandbox.go:302-307 | deletes at the provider and forgets in the store |
| OneLive.ResumeDelivers | go/internal/orchestrator/sandbox.go:244-280 | get-or-resume ends with the user owning one live sandbox, running, named by the store and returned, for every reachable provider and store, the create branch without a label search included |
| OneLive.DestroyKeepsGood | go/internal/orchestrator/sandbox.go:302-307 | tearing down keeps one live sandbox per user and the store exact |
| OneLive.StepKeepsGood | go/internal/orchestrator/daytona_client_fake.go:56-140 | every orchestrator call, auto-stop and external deletion keeps the two properties |
| OneLive.EveryRunHasOneLivePerUser | go/internal/orchestrator/sandbox.go:244-307 | in every run each user has at most one sandbox that is not destroyed, and when the store names one no other live one exists |
| Pool.SandboxPool.TouchInternal | go/internal/orchestrator/pool.go:248-260 | the entry moves to, or is pushed at, the back of the list with its timestamp; the list and its index stay in bijection |
| Pool.SandboxPool.Touch | go/internal/orchestrator/pool.go:162-174 | the timestamp is renewed for any id; the entry of a known sandbox moves to the back |
| Pool.SandboxPool.Remove | go/internal/orchestrator/pool.go:216-226 | the user's entry and its timestamp go, everything else stays |
| Pool.SandboxPool.Hibernate | go/internal/orchestrator/pool.go:230-245 | stops the sandbox and, when that worked, drops its entry |
| Pool.SandboxPool.PickVictim | go/internal/orchestrator/pool.go:110-120 | the first entry that is not pinned, or the length when all are |
| Pool.SandboxPool.MaybeEvict | go/internal/orchestrator/pool.go:104-136 | over capacity the first unpinned entry leaves list, index and timestamps and is stopped; otherwise nothing happens |
| Pool.SandboxPool.ActiveItems | go/internal/orchestrator/pool.go:200-213 | a snapshot of entries and timestamps in list order |
| Pool.SandboxPool.Pin | go/internal/orchestrator/pool.go:139-143 | adds the sandbox to the pin set, nothing else |
| Pool.SandboxPool.Unpin | go/internal/orchestrator/pool.go:146-150 | takes the sandbox out of the pin set, nothing else |
| Pool.SandboxPool.GetOrResume | go/internal/orchestrator/pool.go:87-98 | resume, touch and one eviction pass, an error leaving the active set alone |
| Pool.VictimIs | go/internal/orchestrator/pool.go:110-120 | the scan's stopping place is the first unpinned index |
| Pool.EvictionIs | go/internal/orchestrator/pool.go:104-136 | unlinking the victim element is removing its user from the entry list |
| PoolInvariant.StepAgrees | go/internal/orchestrator/pool.go:87-260 | every pool operation and forced recreation keeps active equal to running |
| PoolInvariant.StepOrdered | go/internal/orchestrator/pool.go:248-260 | every operation at a later clock reading keeps the list sorted by timestamp |
| PoolInvariant.ReachesKeeps | go/internal/orchestrator/pool.go:87-260 | whatever a run of pool operations reaches keeps active equal to running and the list in time order |
| Sparing.ResumeSpares | go/internal/orchestrator/pool.go:87-136 | get-or-resume adds at most one entry, gives the user the live sandbox the store names, wakes nobody else's, leaves every pinned sandbox running and, when there is room, every other one too |
| Recency.ResumeIsLru | go/internal/orchestrator/pool.go:87-136 | get-or-resume is least-recently-used: the user's entry goes to the back with the clock's reading, everybody else keeps place and time, and over capacity exactly one entry goes, unpinned and least recently used among all including the user's own, unless all are pinned |
| Recency.TouchRenews | go/internal/orchestrator/pool.go:162-174 | a touch sets the time of the sandbox it names and of no other, moves the entry that holds it to the back, and leaves the others in their order |
| Recency.TimesAreLastUses | go/internal/orchestrator/pool.go:248-260 | in every run of pool operations an active entry's time is the clock's reading at the last resume or touch of its sandbox |
| Recency.HibernateDrops | go/internal/orchestrator/pool.go:230-245 | hibernating works exactly on a known sandbox that is not destroyed, and then drops its entry and its time and nothing else |
| Recency.RemoveDrops | go/internal/orchestrator/pool.go:216-226 | removing a user drops its entry and that sandbox's time and nothing else |
| Recency.RunFits | go/internal/orchestrator/pool.go:104-136 | in every run without pins the active set never exceeds its capacity |
| PoolInvariant.VictimIsOldest | go/internal/orchestrator/pool.go:104-136 | the victim has the least timestamp among the unpinned entries |
| PoolInvariant.EvictsTheOldest | go/internal/orchestrator/pool.go:104-136 | a pass over capacity drops and stops exactly an oldest unpinned entry, and a pass that is not, or finds all pinned, changes nothing |
| Hibernation.DueIsAPrefix | go/internal/orchestrator/hibernate.go:169-194 | with one threshold the due entries are the unpinned ones of a prefix of the list |
| Hibernation.ScanStopsAPrefix | go/internal/orchestrator/hibernate.go:169-194 | a scan with one threshold stops and reports exactly the unpinned entries of a prefix of the list, and everything else runs on |
| Hibernation.ScanByTier | go/internal/orchestrator/hibernate.go:50-63 | an unpinned active entry is stopped exactly when it has been idle for the threshold of its user's tier, for the default one when the tier is unknown or has none, and for 300 seconds when there is no default |
| Hibernation.DueIdsInOrder | go/internal/orchestrator/hibernate.go:169-194 | the ids are reported in list order |
| Hibernation.HibernateOnlyDrops | go/internal/orchestrator/pool.go:230-245 | hibernating an active sandbox drops and stops it and nothing else |
| Hibernation.HibernateScheduler.ScanOnce | go/internal/orchestrator/hibernate.go:169-194 | a scan is a run of pool operations that stops and drops exactly the unpinned entries idle for their user's threshold, returns their ids in list order, and keeps agreement and order |
| HealthProbe.HealthProbeLoop.ForceRecreate | go/internal/orchestrator/health_probe.go:195-206 | the entry is dropped, the sandbox destroyed and the user resumed; it answers whether the resume worked |
| HealthProbe.HealthProbeLoop.ProbeItem | go/internal/orchestrator/health_probe.go:160-190 | one probe is counted; exactly when it failed and the streak has reached the grace the sandbox is recreated, which counts when the resume worked; otherwise the pool is left alone |
| HealthProbe.HealthProbeLoop.ScanOnce | go/internal/orchestrator/health_probe.go:155-193 | every entry of the snapshot is probed once, in order, with its effect on pool and counters; the ids of the recreated ones are returned in order |
| HealthProbe.ScanCounts | go/internal/orchestrator/health_probe.go:155-193 | a scan's counters are those of its probe events, one an entry |
| HealthProbe.RecreationReplaces | go/internal/orchestrator/health_probe.go:195-206 | a recreation destroys the sandbox, and exactly a user with a valid id gets a new one, named by the store; nobody else loses a sandbox and pinned ones run on |
| HealthProbe.ScanReplaces | go/internal/orchestrator/health_probe.go:155-206 | in a scan each entry is replaced exactly when it fails its probe with its grace used up, and the pool is left alone for each other one |
| HealthProbe.ScanLeaves | go/internal/orchestrator/health_probe.go:155-206 | a scan changes no pin, and a pinned running sandbox that answers its probe runs on |
| HealthProbe.ScanIsARun | go/internal/orchestrator/health_probe.go:155-206 | however many sandboxes it recreates, a scan is a run of pool operations |
| ProbeAccounting.StreaksAreTrailing | go/internal/orchestrator/health_probe.go:155-193 | each consecutive-failure counter is the number of failed probes since the last success or recreation |
| ProbeAccounting.Composes | go/internal/orchestrator/health_probe.go:155-193 | the counters after two scans are those of their histories joined |
| ProbeAccounting.CountersBalance | go/internal/orchestrator/health_probe.go:155-193 | recreations times grace plus all streaks is at most the failures, which are at most the probes, and all three counters count exactly |
| WarmPool.WarmPoolManager.Prewarm | go/internal/orchestrator/warm_pool.go:160-190 | every missing top user with a valid id is recorded with its one live sandbox, the one the store names; exactly the recorded ones are pinned besides, nobody else's sandbox starts, pinned ones run on, and with room everything runs on and the new ones run |
| WarmPool.WarmPoolManager.Release | go/internal/orchestrator/warm_pool.go:195-215 | exactly the dropped users' recorded sandboxes are unpinned, stopped and dropped from the list; every other record, entry and pin is as it was |
| WarmPool.WarmPoolManager.Refresh | go/internal/orchestrator/warm_pool.go:149-220 | the missing top users are resumed and pinned one after the other, in the order of the list, and then exactly those who fell out are released; it is a run of pool operations after which the known top users keep their sandbox, the other valid ones have theirs, the pins are the old and the newly recorded ones without the dropped ones, dropped ones do not run, pinned others run on, and with room all others do; a failed query changes nothing |
| WarmPool.StepKeepsHeld | go/internal/orchestrator/pool.go:87-260 | no pool operation but an unpin of a recorded sandbox ends the hold on what the warm pool recorded |
| WarmPool.RefreshLabels | go/internal/orchestrator/warm_pool.go:149-220 | after a refresh every recorded sandbox is its user's own, and none of them is among those let go |
| WarmPool.RefreshHolds | go/internal/orchestrator/warm_pool.go:149-220 | after a refresh every recorded sandbox is pinned, if those recorded before it were |
| WarmPool.CarriedStayUp | go/internal/orchestrator/warm_pool.go:149-220 | the running sandbox of a user who stays among the top ones still runs and is still active after the refresh |
| Platform.ActIsSound | go/internal/orchestrator/pool.go:87-260 | every pool operation, warm-pool refresh, hibernate scan and probe scan keeps agreement, order, labels and counters together |
| Platform.ActKeepsHeld | go/internal/orchestrator/warm_pool.go:149-220 | every act but an outside unpin of a recorded sandbox leaves what the warm pool recorded pinned |
| Platform.EveryRunIsSound | go/internal/orchestrator/pool.go:87-260 | in every run of operations, refreshes and scans from an empty platform the entries are exactly the running sandboxes with their users, named by the store, one per user, in order of last activity; what the warm pool recorded is its user's own, and pinned if nobody else unpinned it; the probe counters are those of all probes of all scans and balance |
| Platform.WarmRunsOn | go/internal/orchestrator/warm_pool.go:149-220 | a running sandbox the warm pool holds runs on through every act but one that takes it away: its own hibernation or recreation, a failed probe of it, or its user falling out |
| SingleFlight.StepKeepsInv | go/internal/orchestrator/single_flight.go:36-60 | every lock section of every caller keeps slots, callers and the in-flight map consistent: a caller's slot is one for the key it asked for, and what a leader carries and stores is what its resume returned |
| SingleFlightRuns.OneFnPerKey | go/internal/orchestrator/single_flight.go:36-60 | two callers inside the function for one key are the same caller |
| SingleFlightRuns.SettledSlot | go/internal/orchestrator/single_flight.go:36-60 | a slot resumes at most once, its result is what that resume returned, everybody who joined it asked for its key and everybody who returned through it got that result |
| SingleFlightRuns.SlotsAreMonotone | go/internal/orchestrator/single_flight.go:36-60 | a slot's key, leader, resume and result, once there, never change |
| SingleFlightRuns.CallersAreMonotone | go/internal/orchestrator/single_flight.go:36-60 | a caller keeps its key, its slot and, once there, its answer |
| SingleFlightRuns.NobodyIsStuck | go/internal/orchestrator/single_flight.go:36-60 | whoever has not returned can take a step, or waits for a leader who can |
| SingleFlightRuns.StepKeepsBound | go/internal/orchestrator/pool.go:87-136 | every lock section keeps the capacity bound |
| SingleFlightRuns.StepKeepsResumed | go/internal/orchestrator/pool.go:87-136 | every lock section keeps every active entry one that a resume for its user returned |
| SingleFlightRuns.TouchIsRecent | go/internal/orchestrator/pool.go:248-260 | a leader's touch, or one from outside, puts the entry at the back and leaves the others in their order |
| SingleFlightRuns.EvictTakesFirst | go/internal/orchestrator/pool.go:104-136 | an eviction section takes out the first entry that is not pinned, which is then hibernated, and nobody within capacity or when all are pinned |
| SingleFlightRuns.EveryRunIsSafe | go/internal/orchestrator/single_flight.go:36-60 | for any interleaving: one function per key, one resume per slot, every caller that returned got exactly what the one resume of a slot for its own key returned, every active entry is what a resume for its user returned, and at most capacity plus pending leaders plus all-pinned passes are active |
| SingleFlightRuns.QuiescentPoolFits | go/internal/orchestrator/pool.go:104-136 | without pins a pool whose callers have all returned is within capacity |
| BreakerSpec.KeptTwice | go/internal/runtime/fallback.go:231-238 | pruning for an early and then a later cutoff is pruning for the later one |
| BreakerSpec.KeptIsSuffix | go/internal/runtime/fallback.go:231-238 | pruning a list in time order keeps a suffix: exactly the times from the cutoff on |
| BreakerSpec.WindowIsHistory | go/internal/runtime/fallback.go:203-259 | the pruned list is exactly the worthy failures since the last reset, never pruned, that lie in the window ending at the latest of them |
| BreakerSpec.HeldIsSuffix | go/internal/runtime/fallback.go:217-248 | so the list is a suffix of the whole history |
| BreakerSpec.EveryLogIsSound | go/internal/runtime/fallback.go:157-259 | closed holds fewer failures than the threshold, half-open none, open has an opening time, only half-open can have a trial in flight |
| BreakerSpec.TripsAtThreshold | go/internal/runtime/fallback.go:217-248 | a closed breaker trips exactly when a worthy failure brings the whole-history window count to the threshold |
| BreakerSpec.TrialDecides | go/internal/runtime/fallback.go:203-248 | a half-open trial closes on success and reopens on any failure, worthy or not |
| BreakerSpec.TrialIsExclusive | go/internal/runtime/fallback.go:175-200 | while a half-open trial is in flight the provider is skipped, whenever it is asked about |
| BreakerSpec.UnknownIsIgnored | go/internal/runtime/fallback.go:217-248 | a failure of an unknown or unlisted class is never counted and leaves a breaker that is not on trial as it was |
| BreakerSpec.BurstOpens | go/internal/runtime/fallback.go:217-248 | as many failures as the threshold within one window, each by expired login, rate limit or transient fault, open a closed breaker |
| Breaker.BreakerEntry.Prune | go/internal/runtime/fallback.go:231-238 | the kept times, moved to the front of the array they are read from |
| Breaker.BreakerEntry.Append | go/internal/runtime/fallback.go:239-239 | one more time at the end, in a bigger array when the old one is full |
| Breaker.BreakerEntry.MaybeHalfOpen | go/internal/runtime/fallback.go:250-259 | open becomes half-open, emptied, exactly after the cooldown |
| Breaker.CircuitBreaker.New | go/internal/runtime/fallback.go:98-149 | negative settings are refused, unset ones are 3 failures, 60 and 30 seconds, every provider starts fresh |
| Breaker.CircuitBreaker.StateOf | go/internal/runtime/fallback.go:157-171 | the state after a due half-opening |
| Breaker.CircuitBreaker.IsOpen | go/internal/runtime/fallback.go:175-188 | skip while open or while a half-open trial is in flight; no other provider is touched |
| Breaker.CircuitBreaker.AttemptStarted | go/internal/runtime/fallback.go:192-200 | marks a half-open trial in flight, and nothing else |
| Breaker.CircuitBreaker.RecordSuccess | go/internal/runtime/fallback.go:203-212 | the provider is as one never heard of |
| Breaker.CircuitBreaker.RecordFailure | go/internal/runtime/fallback.go:217-248 | prune, append, and trip by threshold or failed trial; an unworthy class only fails a trial |
| Chain.OrderedIsStable | go/internal/runtime/fallback.go:406-416 | the dispatch order is a permutation, primaries first, each kind in its configured order |
| Chain.StableIsUnique | go/internal/runtime/fallback.go:406-416 | no other list is |
| Chain.ProviderChain.New | go/internal/runtime/fallback.go:361-393 | refused exactly when no entry is a primary |
| Chain.ProviderChain.OrderedForDispatch | go/internal/runtime/fallback.go:406-416 | returns that order |
| Chain.StampParentErrors | go/internal/runtime/fallback.go:554-575 | marks the attempts before the first success, if there is one, and changes nothing else |
| Chain.ProviderChain.Visit | go/internal/runtime/fallback.go:427-505 | one entry: skipped without a trace but a due half-opening, or dispatched and its outcome recorded |
| Chain.ProviderChain.Turn | go/internal/runtime/fallback.go:423-524 | breaker and result are those of the walk over the dispatch order |
| ChainSpec.EndedStays | go/internal/runtime/fallback.go:423-524 | after a success or an unworthy error nothing more is visited |
| ChainSpec.TurnFollowsOrder | go/internal/runtime/fallback.go:423-524 | the attempts name a prefix of the order, only the last can stop the walk, and a shorter list was stopped |
| ChainSpec.TurnReports | go/internal/runtime/fallback.go:427-500 | each attempt is skipped exactly when the breaker does not let it through, succeeded exactly when its provider's reply is an output without an error, and carries the reply's error otherwise, or a transient one when there is neither; its latency is the time the dispatch took in whole milliseconds |
| ChainSpec.FailsOver | go/internal/runtime/fallback.go:427-510 | a dispatched attempt that failed by expired login, rate limit or transient fault, or a skipped one, is followed by the next entry if there is one; one that failed in any other way is the last |
| ChainSpec.SuccessIsLast | go/internal/runtime/fallback.go:455-475 | on success only the last attempt succeeded, its provider is the selected one, the output is that provider's own reply, and every earlier attempt is stamped |
| ChainSpec.FailureIsExplained | go/internal/runtime/fallback.go:477-524 | without success nothing is stamped; the error is that of the last dispatched attempt, or the all-skipped one; no stopping attempt means the whole order was walked |
| Spacing.RunIsTrail | go/internal/runtime/fallback.go:423-524 | over any run of turns a provider's entry depends on its own visits only |
| Spacing.TrailIsLog | go/internal/runtime/fallback.go:423-524 | a provider's visits are an event log of the breaker in clock order, so the window theorems hold of it |
| Spacing.DispatchedIff | go/internal/runtime/fallback.go:175-188 | a provider is dispatched to exactly when it is not in an outage, or a cooldown has passed since its last recorded dispatch |
| Spacing.OutageIsSpaced | go/internal/runtime/fallback.go:175-259 | in an outage each dispatch starts a cooldown after the previous one was recorded, for every error class |
| Spacing.EveryRunIsSpaced | go/internal/runtime/fallback.go:175-259 | in every run of turns at most floor(L / cooldown) + 1 dispatches to a tripped provider fall in a span of length L |
| Spacing.EveryRunLeavesNoTrial | go/internal/runtime/fallback.go:190-259 | after every run no trial is in flight, and an open provider is dispatched to exactly after its cooldown |
| Strings.JoinUndoesSplit | go/adapters/telegram/parser.go:374-374 | joining what was split gives the text back |
| Strings.SplitIsClean | go/adapters/telegram/parser.go:374-374 | every part is a stretch of the text without the separator |
| Strings.SplitAtFirst | go/adapters/telegram/parser.go:374-374 | splitting is from the left: the first part ends where the separator first occurs, and the others are those of what follows |
| Chunking.SplitWithSeparator | go/adapters/telegram/parser.go:373-397 | the packing loop computes the fold over the parts |
| Chunking.RefineOversized | go/adapters/telegram/parser.go:401-421 | each chunk that is too long is replaced by its pieces, the others stay |
| Chunking.ChunkText | go/adapters/telegram/parser.go:356-369 | error, empty, whole, or the four passes, whose result is what Preference and Lossless speak of |
| Preference.ChunksByPreference | go/adapters/telegram/parser.go:356-421 | a text that fits is one chunk; any other is cut between paragraphs, a paragraph only when it is too long and then between lines, a line only when it is too long and then after sentences, and a sentence only when it is too long; at each level a piece fits or is a single part, and no two neighbours would have fitted together |
| Preference.ParagraphsStayWhole | go/adapters/telegram/parser.go:366-397 | when every paragraph is non-empty and fits, the chunks are whole paragraphs joined, in the fewest groups |
| Lossless.CutIsPass | go/adapters/zalo/parser.go:335-358 | one pass of the second copy of the algorithm: the same text as separators and pieces, the pieces being the chunks |
| Lossless.RecutIsPass | go/adapters/telegram/parser.go:401-421 | refining keeps the text, and its pieces are the refined chunks |
| Lossless.ChunkingIsLossless | go/adapters/telegram/parser.go:356-421 | the text is separators and non-empty pieces, no two pieces touching; the chunks are the pieces in order, one that is too long and holds neither a newline nor a sentence end being sliced |
| Lossless.EveryChunkFits | go/adapters/zalo/parser.go:318-381 | an error exactly for a limit below one, and otherwise chunks that are not empty and fit |
| GreedyPacking.StaysAhead | go/adapters/telegram/parser.go:373-397 | after any number of parts the pass has fewer chunks than any grouping has groups, or as many with a last one that begins no earlier |
| GreedyPacking.GreedyIsOptimal | go/adapters/telegram/parser.go:373-397 | no grouping of consecutive parts that fit when joined has fewer groups than the pass makes chunks, empty parts included |
| GreedyPacking.GreedyIsAGrouping | go/adapters/telegram/parser.go:373-397 | when no part is empty or too long the chunks are such a grouping, so the bound is attained |
| GreedyPacking.ConsecutiveChunksOverflow | go/adapters/telegram/parser.go:373-397 | two consecutive chunks of one pass and a separator never fit together |
| Toml.TwoPassesAreOne | go/internal/clibackend/codex_toml.go:26-30 | escaping backslashes and then quotes is escaping each character once |
| Toml.SortKeys | go/internal/clibackend/codex_toml.go:97-101 | every key once, in order |
| Toml.SerializeTOMLInlineValue | go/internal/clibackend/codex_toml.go:49-118 | the text, or the first error met, in item and key order |
| TomlRoundTrip.StringReadsBack | go/internal/clibackend/codex_toml.go:26-30 | a quoted string is read back exactly when it holds no control character but tabs |
| TomlRoundTrip.KeyReadsBack | go/internal/clibackend/codex_toml.go:32-37 | a bare or quoted key is read back as itself, so the two forms do not collide |
| TomlRoundTrip.IntReads | go/internal/clibackend/codex_toml.go:60-79 | every integer is read back |
| TomlRoundTrip.ArrayReads | go/internal/clibackend/codex_toml.go:84-93 | a joined list of readable items is a readable array |
| TomlRoundTrip.TableReads | go/internal/clibackend/codex_toml.go:101-115 | a joined list of readable entries with distinct keys is a readable inline table |
| TomlRoundTrip.RoundTrip | go/internal/clibackend/codex_toml.go:49-118 | what is written is read back as the same value if and only if no string or key holds a control character other than a tab; otherwise it is not TOML |
| TomlRoundTrip.NewlineIsLost | go/internal/clibackend/codex_toml.go:26-30 | a newline is written as it is, and its text is not TOML |
| TomlRoundTrip.BareIff | go/internal/clibackend/codex_toml.go:32-37 | a key is written bare exactly when it is not empty and made of letters, digits, underscores and hyphens, and escaped in quotes otherwise |
| TomlRoundTrip.ArrayError | go/internal/clibackend/codex_toml.go:84-93 | an array's error is that of its first item that has one |
| TomlRoundTrip.TableError | go/internal/clibackend/codex_toml.go:101-115 | a table's error is that of its first key, in order, whose value has one |
| TomlRoundTrip.WrittenForm | go/internal/clibackend/codex_toml.go:49-118 | the exact text of a nested array, and the exact messages |
| Strings.LeqIsLexical | go/internal/clibackend/codex_toml.go:101-101 | keys are compared by their first difference, a string coming before what it begins |
| TomlRoundTrip.WrittenIffSupported | go/internal/clibackend/codex_toml.go:49-118 | a value can be written if and only if nothing in it is nil or of another type |
| ShellQuoting.ShellQuote | go/internal/orchestrator/daytona_client.go:398-413 | the quoted form of one argument |
| ShellQuoting.ShellJoin | go/internal/orchestrator/daytona_client.go:388-394 | the quoted arguments, one blank apart |
| ShellQuoting.PlainIff | go/internal/orchestrator/daytona_client.go:398-413 | an argument is written as it is exactly when it is not empty and made of letters, digits and nine other characters, and in single quotes otherwise |
| ShellQuoting.WrittenForm | go/internal/orchestrator/daytona_client.go:398-413 | the exact text of an empty argument and of one with a quote |
| ShellQuoting.QuoteReadsBack | go/internal/orchestrator/daytona_client.go:412-412 | the five characters written for a single quote are read as that quote, inside the quotes |
| ShellQuoting.ArgumentReadsBack | go/internal/orchestrator/daytona_client.go:398-413 | a quoted argument is one word and reads as the argument, empty ones and all-quote ones included |
| ShellQuoting.CommandReadsBack | go/internal/orchestrator/daytona_client.go:388-413 | splitting and unquoting the command gives the argument list back, for every list |
| Utf8.DecodeRune | go/internal/telemetry/propagation.go:111-140 | a step stays inside the bytes and, unless there are none, takes at least one |
| Utf8.DecodesIff | go/internal/telemetry/propagation.go:111-140 | exactly which bytes decode: those whose first byte asks for as many continuation bytes as follow |
| Utf8.IsValidUTF8 | go/internal/telemetry/propagation.go:100-109 | the loop ends and answers whether no decoding step fails |
| Utf8.EncodedDecodes | go/internal/telemetry/propagation.go:111-140 | the encoding of a scalar value is decoded to it, whatever follows |
| Utf8.EncodingRoundTrips | go/internal/telemetry/propagation.go:100-140 | every sequence of scalar values survives encoding, checking and decoding |
| Utf8.StrictDecodes | go/internal/telemetry/propagation.go:111-140 | a character that decodes and does not begin with one of four pairs of bytes is the encoding of the scalar value it decodes to |
| Utf8.Utf8Iff | go/internal/telemetry/propagation.go:100-140 | bytes are UTF-8 if and only if they are accepted and no character begins with one of those pairs |
| Utf8.OverlongIsAccepted | go/internal/telemetry/propagation.go:129-133 | an overlong form is accepted |
| RefresherSpec.AlertsFollow | go/adapters/zalo/token_refresher.go:274-344 | one attempt's alerts carry the phase of the log along with the fields |
| RefresherSpec.FieldsAreTheLog | go/adapters/zalo/token_refresher.go:274-344 | after every history the log obeys the alert grammar (disabled once an outage, at the first failure late enough; enabled directly before recovered) and determines the failure count, the start of the outage and the disabled flag |
| RefresherSpec.TokensAreLast | go/adapters/zalo/token_refresher.go:274-304 | after every history the tokens, the validity and its beginning are those of the last success, or the initial ones |
| RefresherSpec.DisabledIff | go/adapters/zalo/token_refresher.go:306-326 | in an outage sending is disabled exactly when the latest failure is at least the threshold after the first |
| RefresherSpec.DisabledInTime | go/adapters/zalo/token_refresher.go:229-272 | if every refresh fails, sending is disabled less than the threshold plus min(480, lead) seconds after the first failure, at one definite failure and from it on |
| TokenRefreshing.BadRepliesAreOutage | go/adapters/zalo/token_refresher.go:229-246 | an exactly sleeping loop with bad replies produces failures at the back-off times |
| TokenRefreshing.BadLoopDisablesInTime | go/adapters/zalo/token_refresher.go:229-344 | an exactly sleeping loop with bad replies has sending disabled exactly from one round on, less than the threshold plus min(480, lead) seconds after its first failure |
| TokenRefreshing.TokenRefresher.New | go/adapters/zalo/token_refresher.go:76-117 | refused exactly when the lead is not positive, the validity does not exceed it or the refresh function is missing, the first of these being reported |
| TokenRefreshing.TokenRefresher.NextWaitS | go/adapters/zalo/token_refresher.go:254-272 | what is left of the validity less the lead, never negative; after failures one, two, four and then always eight minutes, but never more than the lead |
| TokenRefreshing.TokenRefresher.OnSuccess | go/adapters/zalo/token_refresher.go:274-304 | the four token fields are the new ones, the outage is over, enabled and recovered alerts when due and in that order |
| TokenRefreshing.TokenRefresher.OnFailure | go/adapters/zalo/token_refresher.go:306-344 | the failure counted, sending disabled when due, alerts in that order |
| TokenRefreshing.TokenRefresher.RefreshNow | go/adapters/zalo/token_refresher.go:158-191 | true exactly for a non-empty string token, which is then the access token; the reply's refresh token and validity are taken when they are a non-empty string and a positive number, else the old ones stay; false leaves all four fields and counts the failure; the alerts are spelled out |
| TokenRefreshing.TokenIsLastGood | go/adapters/zalo/token_refresher.go:158-191 | after any number of rounds the access token is the one the last good reply gave |
| TokenRefreshing.TokenRefresher.Loop | go/adapters/zalo/token_refresher.go:229-246 | wait and refresh, as often as there are replies |
| SkillPicking.PickWithPrecedence | go/internal/skills/resolver.go:204-271 | the first eligible candidate; every rejection has its reason: another version, a variable that is not set, or a chosen candidate of a tier that comes earlier in workspace, project, personal, managed, bundled |
| SkillPicking.PickAccountsIff | go/internal/skills/resolver.go:204-271 | every candidate of a sorted group is chosen or rejected once if and only if none after the chosen one ranks like it |
| SkillPicking.UnlistedTierIsLost | go/internal/skills/resolver.go:251-254 | with a tier outside the table a candidate can be neither |
| SkillResolver.SplitAccounts | go/internal/skills/resolver.go:101-119 | duplicates in a tier and first occurrences are everything |
| SkillResolution.GroupBySlug | go/internal/skills/resolver.go:97-119 | the groups and the duplicates |
| SkillResolution.PickIsBest | go/internal/skills/resolver.go:204-271 | picking from a sorted group finds an eligible candidate of best rank, or that there is none |
| SkillResolution.PickAccountsForGroup | go/internal/skills/resolver.go:204-271 | a slug's candidates are all selected or rejected, once, when its first eligible one ranks alone, and too few are when it does not |
| SkillResolution.Resolve | go/internal/skills/resolver.go:92-195 | load-all mode: for each slug that has a usable skill exactly one is selected, and no usable one of its slug has a tier earlier in workspace, project, personal, managed, bundled; the selection is in strict order of slug; every rejection is a repeat in its tier, lacks a variable, or is outranked by the selected one; every available skill is selected or rejected, once, if and only if no slug's first eligible candidate ties with a later one, which known tiers rule out |
| SkillResolution.SelectionIgnoresOrder | go/internal/skills/resolver.go:92-195 | when no tier repeats a slug the selection does not depend on the order of the input |
| Sessions.InMemorySessionsRepo.UpsertAfterTurn | go/internal/runtime/session_dal.go:154-174 | the id is replaced, the initialisation time only set once |
| Sessions.InMemorySessionsRepo.DropForProvider | go/internal/runtime/session_dal.go:177-192 | exactly the user's rows of the provider go, and they are counted |
| Sessions.DBSessionDal.LookupSessionID | go/internal/runtime/session_dal.go:61-74 | the row's id, or none |
| Sessions.AgentLoop.Hydrated | go/internal/runtime/agent_loop.go:428-449 | a provider's input carries its own cached id, or none, and its own model, whatever the input carried before |
| Sessions.AgentLoop.Dispatch | go/internal/runtime/agent_loop.go:428-466 | a provider with a backend is sent its input and its reply is passed on; one without is an unknown error and is sent nothing |
| Sessions.AgentLoop.RunSingle | go/internal/runtime/agent_loop.go:189-346 | one turn sends and remembers under the primary provider's key only, with the bootstrap exactly when that key is not initialised; the answer is the reply's text or error |
| Sessions.AgentLoop.RunWithFallback | go/internal/runtime/agent_loop.go:378-498 | one turn of the chain over what the backends reply: every provider the walk reaches is sent its own id, and the bootstrap exactly when the primary is not initialised; the selected one's new id is stored under its own key; the answer is the walk's text or error |
| Sessions.ReplyMirrors | go/internal/runtime/session_dal.go:154-174 | storing a reply's id under the provider that replied keeps the rows equal to what the history says |
| Sessions.WalkHears | go/internal/runtime/agent_loop.go:428-492 | in a fallback turn nobody but the last attempt's provider succeeds, and that one is the selected one, with its own backend's reply as the output |
| Sessions.FallbackIsSound | go/internal/runtime/agent_loop.go:378-498 | after a fallback turn the rows hold the new id of the provider whose backend replied, and of nobody else |
| Sessions.StepIsSound | go/internal/runtime/agent_loop.go:189-498 | every turn, fallback and drop keeps the rows equal to the history and every sent id right |
| Sessions.InitializedOnce | go/internal/runtime/session_dal.go:154-192 | a row's initialisation time, once set, is the same after every run of turns, fallbacks and drops that does not drop its key |
| Sessions.EveryRunIsFaithful | go/internal/runtime/agent_loop.go:428-498 | in every run of turns, fallbacks and drops, each id read from the rows and sent is the last non-empty one that provider's own backend replied with on that key since the last drop, or none, the bootstrap goes along exactly while the primary has replied with none, and the rows hold those ids and the times of the first of them |

## Left out

- Health trackers, callbacks, logging and telemetry: they read results and change none.
- Goroutine start and stop, context cancellation, timeouts and panics; a panic inside a dispatcher or a single-flight function is not modelled.
- Agreement of active and running at the granularity of lock sections: an eviction drops its entry before it stops the sandbox, so a resume can slip in between. It is proved for whole operations.
- Pool operations between the items of one scan or refresh: in `Platform` each of those is one act.
- API routes that resume or destroy without the pool, and provider auto-stop, in the pool theorems; the one-live-sandbox theorem has both auto-stop and external deletion.
- Container list elements are numbered handles with their values in a map, not pointers; a handle is shared by the list and the index as the pointer is.
- The provider's labels other than the user's, volumes, call counters, resume delays, and the retry loop around creation (the in-memory provider is ready at once).
- The store's last-active times, which nothing modelled reads; the pool's own are modelled.
- WarmPool.WarmPoolManager.Refresh: requires that active equals running and that recorded sandboxes are their users' own, because it is stated for pools only driven through the pool layer; it does not claim that a pinned sandbox is active, which the code does not keep.
- LruCandidates: a library sort of a snapshot.
- Chain.ProviderChain.Turn: the message of a skipped attempt omits the quoted provider id.
- TokenRefreshing.TokenRefresher.RefreshNow: the message about a malformed response omits the printed response; parsing a number out of a string is an input.
- RefresherSpec.DisabledInTime: requires a positive threshold, which go/adapters/zalo/config.go:118 demands, and a refresh that takes no time.
- A positive wait after a successful refresh: a server may grant a validity below the lead, and then the wait is zero.
- Floating-point rounding: clocks, windows and waits are reals. Conversion of a latency to whole milliseconds is modelled.
- Toml.SerializeTOMLInlineValue: floats are not among the values, because their text is the library's formatting.
- A TOML reader's comments, dotted and literal keys, literal and multi-line strings, other integer bases and integer range.
- TomlRoundTrip.RoundTrip: integers beyond 64 bits signed are read back too, although a reader need not take an unsigned one that large.
- ShellQuoting.CommandReadsBack: stops at words; whether a shell takes the first word for a reserved word, an assignment or an alias is not part of it.
- The carrier handling around `isValidUTF8`.
- SkillResolution.Resolve: load-all mode only; request lists, version pins in them and the regular expression for references are left out. Sorting equal ranks, which only unlisted tiers have, is modelled as stable. The detail texts of rejections are left out.
- Sessions.AgentLoop.Dispatch: the message about a missing backend omits the quoted provider id. Of the prompt only the text and whether the bootstrap files go along are modelled; skills and the bridge are left out. All dispatches of a turn carry one time.
- The Postgres session repository and database errors.
- HTTP routers and clients, migrations, Redis streams, OTel, commands and configuration loading, regular expressions, JSON and YAML decoding, cryptography.
