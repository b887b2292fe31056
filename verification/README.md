# Verified model of agentwrap

agentwrap supervises coding-agent processes. Around one runtime it layers observation (event fan-out and a
run store), resilience (retry and fallback), output validation with repair, and an adapter for the OpenCode
CLI. This project models the parts of that layer that decide something: what is kept, what is dropped, when a
loop ends, and what verdict a run gets. It proves what they keep over whole runs, for every behaviour of the
runtimes, validators, callbacks, clocks, disks and networks around them.

`dafny verify dfyconfig.toml` verifies everything.

## How the model is built

Code that changes fields in place is a class or a method with loops, proved against a functional
specification; what the program promises is then proved about the specification for all inputs or all runs.
Goroutines are step systems: one step is one locked section or one channel operation, and the theorems hold
for every interleaving. Clocks, processes, logs, databases, disks, networks and user callbacks are inputs that
may answer anything.

| module | program | content |
|---|---|---|
| `Core`, `Events`, `Text` | shared | statuses, error categories, event kinds, distinct sequences and subsequences, ASCII lowering and substring search |
| `RunStore`, `RunStoreRuns` | observability.go | the bounded run store as a class; its naive specification `Model`, `Apply`, `Run`; theorems over every run of calls |
| `Forwarder` | observability.go | the event forwarder, its consumer and cancellation as a step system over a 64-slot channel |
| `Policy` | policy.go | the resilience loop, the bounded policy, and how requests for retries and fallbacks are made |
| `Validation` | validation.go | aggregation of checks and the validate-and-repair loop |
| `Headings` | validation.go | greedy matching of headings |
| `EventIds`, `Lifecycle` | lifecycle_events.go, opencode/runtime.go | event identifiers; sequence numbers, lifecycle and cleanup under concurrency |
| `RunFold`, `TerminalOutput` | opencode/ | folding native records into an outcome; bounded accumulation of output |
| `Probe` | opencode/health.go, opencode/process.go | chunked needle search and bounded capture |
| `Permissions`, `ProcessEnv` | opencode/ | permission translation over unordered maps; the environment of the process |
| `DbMetrics` | opencode/runtime.go | usage totals over a decoded JSON tree |
| `Rates` | pricing.go | memory, snapshot and network behind one rate table; any number of stores over one directory |

## Where the program does less than one would expect

Each point is a theorem with the exact condition, usually beside a concrete witness.

- The TTL scan of the run store stops at the first run that is not expired. That equals a full scan for every
  cutoff exactly when storage times follow the queue (`HeadScanIsExactIffStampsOrdered`). They always do when
  the clock advances and no retained run is reported as finished again; reporting one again can keep an expired
  run visible behind it (`ReportingTwiceShieldsExpiredRuns`).
- A run is listed as active and completed at once exactly when a retained run is reported as unfinished
  (`AlwaysDisjointIffNeverReopened`, with `ReopenedRunIsListedTwice`).
- validation.go:123-125 says that cancellation, timeout and permission failures are not eligible for a repair
  in a fresh session. The code falls back for them exactly when the runtime also reports the session as
  unsupported (`IneligibleErrorsFallBackIffUnsupported`).
- The capacity of the run store bounds the runs it keeps events for only up to strays: runs that events were
  appended to, but that were not reported as finished, since they were last evicted (`StrayIff`). Writing to a run
  after its eviction makes one, no eviction can reach it, and there is no limit on their number
  (`StraysAreUnbounded`).
- The flag that repairs are exhausted is set exactly when a positive budget is used up without success, but the
  category of the final error need not say the same. `FlagAgreesIff` proves for every way the loop can end when the
  two agree: always after a pass or after giving up, and otherwise as the inner runs and the number of repairs
  tell. An unsupported repair claims exhaustion too early (`UnsupportedRepairSaysExhaustedTooEarly`),
  and a cancellation after the last repair hides it (`CancellationHidesExhaustion`).
- The scan of a probe's output carries at most one byte less than the longest needle from read to read. With no
  needle of two bytes it carries the whole output (`CarryIsBoundedIff`, `WithoutNeedlesAllIsCarried`); some
  health checks start their probes without any (opencode/health.go:87, 113 and 115).
- The lifecycle of an adapter run shows the verdict of the run unless a call to `Cancel` came before its report
  (`LifecycleShowsVerdictUnlessCancelledFirst`). The verdict is fixed outside the lock and reported afterwards
  (opencode/runtime.go:447-448), so a `Cancel` in between leaves a completed result under a cancelled lifecycle
  (`CancelCanBeatCompletion`, `DisagreementIsARace`).
- Cancelling does not release the forwarder while it waits for the inner run's next event
  (`StallsOnlyOnInnerRunOrLosslessEvent`).
- Appending a delta to the terminal output loses or keeps bytes wrongly exactly when the delta looks like a
  repetition of what is there (`DeltaIsAppendedIffNotMistaken`, with `RepeatedLetterIsLost`). Cumulative streams are
  always right.
- A config document that is the JSON literal `null` leaves a nil map behind, and writing to it crashes. That
  happens exactly when every document can be read and the last one is null (`CrashesIffLastDocumentIsNull`, with
  `NullDocumentCrashes`), and `BuildEnv` crashes in no other case.
- A requirement list that is empty but present clears the one below it when requests are overlaid, so two groupings
  of three overlays agree exactly when that does not occur (`OverlaysGroup`, with `EmptyListGroupsDifferently`). The
  program itself groups one way only: target over original, then decision over that (policy.go:776-790).
- When memory has expired and the fetch fails, an older snapshot on disk replaces the newer table in memory
  (`MemoryAgesIff`, `OlderSnapshotDisplacesMemory`). With an advancing clock that never happens to a store whose
  own fetches were all written (`SavedFetchesNeverAge`), and one unwritten fetch is enough (`UnsavedFetchIsLost`).

## Model

| member | source | states |
|---|---|---|
| RunStore.WithDefaults | observability.go:499-511 | each limit is kept if set and otherwise becomes its default: 2048 events, 16 MiB, 128 runs, 24 hours |
| RunStore.RetainedIsLongestFittingSuffix | observability.go:541-561 | trimming the head leaves a suffix that fits both limits, and every longer suffix breaks one of them |
| RunStore.LongestFittingSuffixIsUnique | observability.go:541-561 | that description determines the stored events |
| RunStore.TrimIsIncremental | observability.go:541-555 | trimming after every append equals trimming the whole history once |
| RunStore.MemoryRunStore.constructor | observability.go:499-520 | a new store is empty, coherent, and has its limits defaulted |
| RunStore.MemoryRunStore.UpsertRun | observability.go:522-539 | refines the naive store; the index stays coherent and the events mirror the history |
| RunStore.MemoryRunStore.AppendEvent | observability.go:541-555 | refines appending to an untrimmed history |
| RunStore.MemoryRunStore.TrimHead | observability.go:548-553 | the head-dropping loop ends with the longest fitting suffix and its byte total, touching no other run |
| RunStore.MemoryRunStore.EventLimitExceeded | observability.go:557-561 | the test on the counters is the test on the events themselves |
| RunStore.MemoryRunStore.EvictCompleted | observability.go:563-580 | the two eviction loops are one sweep of a prefix of the queue |
| RunStore.MemoryRunStore.EvictCompletedRun | observability.go:582-587 | forgets one run everywhere and keeps every other run's events and counter |
| RunStore.MemoryRunStore.GetCompletedRun | observability.go:600-607 | finds a run exactly when the swept store retains it |
| RunStore.MemoryRunStore.ListRunEvents | observability.go:609-620 | lists the longest fitting suffix of the history |
| RunStore.MemoryRunStore.ListActiveRuns | observability.go:589-598 | lists the record of every active run once |
| RunStoreRuns.IndexIsCoherentInEveryRun | observability.go:522-587 | over every run of calls the queue has no repetition, equals the keys of both completed maps, and is within capacity |
| RunStoreRuns.ActiveIsTheLastReport | observability.go:522-539 | over every run of calls, a run is active iff its last report was of one unfinished, and with exactly that record |
| RunStoreRuns.CompletedIsTheLastFinished | observability.go:522-539 | a completed run that is retained shows the last record that reported it as finished |
| RunStoreRuns.DropForgetsExactly | observability.go:563-587 | a dropped run is forgotten entirely; every other keeps record, stamp and events |
| RunStoreRuns.SweepRemovesOnlyExpiredOrOverflow | observability.go:563-580 | eviction is FIFO; a removed run is expired or has at least the capacity of younger runs behind it |
| RunStoreRuns.ExpiryInNumbers | observability.go:563-571 | a run within capacity is only removed when it is older than the TTL, not when it is exactly as old |
| RunStoreRuns.SweepsWhatItMust | observability.go:563-580 | a sweep ends within capacity and, unless that alone stopped it, at a run that is not expired |
| RunStoreRuns.ReadsSweepAlike | observability.go:600-620 | both reads sweep alike, and listing the active runs changes nothing |
| RunStoreRuns.TerminalUpsertIsRetained | observability.go:522-537 | a terminal record can be read back at once, unless the clock jumped past the TTL |
| RunStoreRuns.HeadScanIsExactIffStampsOrdered | observability.go:563-571 | the head-only scan equals a full scan for every cutoff iff stamps follow the queue |
| RunStoreRuns.OnceReportedStampsStayOrdered | observability.go:526-536 | with an advancing clock and single terminal reports, stamps follow the queue in every run |
| RunStoreRuns.ExpiredRunsAreNeverShown | observability.go:563-607 | under the same conditions no read shows an expired run |
| RunStoreRuns.ReportingTwiceShieldsExpiredRuns | observability.go:529-532 | a run of three upserts after which a read shows an expired run |
| RunStoreRuns.HistoryIsAppendsSinceEviction | observability.go:541-587 | the history of a run is what was appended since the last call that evicted it |
| RunStoreRuns.EveryRunStoresALongestSuffix | observability.go:541-587 | so the stored events of every run of calls are the longest fitting suffix since that point |
| RunStoreRuns.HeldIffAppended | observability.go:541-587 | events are kept for a run iff some were appended since it was last evicted |
| RunStoreRuns.QueuedIffReported | observability.go:522-587 | a run stands in the eviction queue iff it was reported as finished since it was last evicted |
| RunStoreRuns.StrayIff | observability.go:541-587 | events are kept out of reach of eviction iff they were appended, and the run not reported as finished, since it was last evicted |
| RunStoreRuns.StrayStays | observability.go:541-587 | such events survive every call but a report that their run has finished |
| RunStoreRuns.HeldRunsAreBoundedUpToStrays | observability.go:563-587 | the capacity bounds the number of runs with events, apart from those |
| RunStoreRuns.StraysAreUnbounded | observability.go:541-555 | whose number no limit bounds |
| RunStoreRuns.StaysDisjointIffNotReopened | observability.go:527-537 | one call keeps active and completed apart iff it does not reopen a retained run |
| RunStoreRuns.AlwaysDisjointIffNeverReopened | observability.go:527-537 | active and completed are apart throughout a run iff nothing is reopened in it |
| RunStoreRuns.ReopenedRunIsListedTwice | observability.go:527-537 | two calls after which a run is active and completed at once |
| Forwarder.InvariantHoldsAlways | observability.go:274-347 | numbering, fates, logs and back-pressure accounting hold after every interleaving |
| Forwarder.EventsAreConserved | observability.go:277-294 | counted events are in the channel, dropped, or the single one in hand or abandoned to cancellation |
| Forwarder.RecordsAreNumberedInOrder | observability.go:298-347 | every sink and the store hold the observed events numbered 1, 2, 3, ... in order |
| Forwarder.RecordedBeforeDelivered | observability.go:277-285 | an event is in every sink and in the store before a consumer can see it |
| Forwarder.LosslessEventsAllArrive | observability.go:286-293 | what the channel carries, besides messages and progress, is exactly what was observed, in order |
| Forwarder.OnlyMessagesAndProgressAreDropped | observability.go:282-293 | whatever is dropped is of kind message or progress, and nothing is dropped before 64 events are in the channel |
| Forwarder.TheRestArrivesInOrder | observability.go:277-294 | events of every other kind arrive in order, all of them in an uncancelled run |
| Forwarder.FullChannelDropsOrBlocks | observability.go:280-293 | a full channel of 64 drops messages and progress and blocks for everything else |
| Forwarder.AbsentSinksAreSkipped | observability.go:333-342 | a sink without an implementation and a store that is not there receive nothing |
| Forwarder.DeliveryIsOrderedSubsequence | observability.go:277-294 | what is delivered is an ordered subsequence of what was observed |
| Forwarder.ShortRunsDropNothing | observability.go:282-293 | a run that observes no more events than the channel holds drops none |
| Forwarder.StallsOnlyOnInnerRunOrLosslessEvent | observability.go:277-294 | the forwarder waits only for the inner run, even when cancelled, and for room for a lossless event until cancelled |
| Forwarder.WorkIsBounded | observability.go:277-347 | every event costs the forwarder at most four steps and one for each sink |
| Forwarder.ReturnsSoonAfterClose | observability.go:274-294 | once the inner run has closed it returns within five steps and one for each sink |
| Forwarder.WaitFailsIffRequiredSinkFailed | observability.go:257-267 | a run without an error of its own fails iff some write to a required sink failed |
| Forwarder.WaitFailsInWords | observability.go:640-655 | the run's own error comes first; else it fails iff a required sink is among the failures |
| Policy.PolicyRun.ExecuteBasic | policy.go:398-497 | under the bounded policy the loop ends in every environment, with exactly the result that environment calls for, within (F+1) times the per-target bound and on plan; a recorded fallback is exactly a move to the next target |
| Policy.PolicyRun.ExecuteScripted | policy.go:398-497 | under any policy, over any stretch of turns, a finished run ended at the turn that ends it and with exactly the result that turn calls for; one attempt per turn, and recorded retries and waits stay on their target |
| Policy.RunIsDetermined | policy.go:398-497 | the environment determines the turn at which a run ends and its whole result |
| Policy.AnswersAreRecorded | policy.go:398-497 | each turn before was reached and went on; its attempt is the one that was due and its decision is the policy's answer |
| Policy.BoundedRunsEnd | policy.go:143-232 | under the bounded policy every run ends at a turn within the budget |
| Policy.BoundedConclusions | policy.go:143-232 | its attempts stay on the plan and within the budget, and only the last can have failed with an error for the caller |
| Policy.PolicyRun.Iterate | policy.go:407-496 | one iteration goes on exactly when the answers say so, to the next standing they call for, or ends with the exact result |
| Policy.PolicyRun.Follow | policy.go:469-495 | a recorded decision leads to its target and request, or ends the run with its error |
| Policy.PolicyRun.RecordDecision | policy.go:635-647 | decisions are recorded in step with the attempts they answer |
| Policy.PolicyRun.RunAttempt | policy.go:414-439 | attempts are numbered, and ranked by the running histogram of their targets |
| Policy.PolicyRun.ApplyDecisionTarget | policy.go:499-508 | grows the alternatives with blanks and installs the target at its index |
| Policy.PolicyRun.Finish | policy.go:687-737 | the error is nil iff the last attempt succeeded iff the run is not exhausted; the final target is that of the last attempt |
| Policy.DecisionIsBounded | policy.go:143-232 | what the bounded policy may decide: stop, a retry within the bound, or the very next target |
| Policy.RetriesFallsBackOrStops | policy.go:143-276 | exactly when the bounded policy retries, falls back and stops, by category, counters and flags |
| Policy.FailingRunsUseTheWholeBudget | policy.go:143-232 | the budget is tight: a run that keeps failing in a way worth retrying makes exactly (F+1) times the per-target bound attempts |
| Policy.AttemptErrors | policy.go:419-437 | an attempt's error is that of its start, else of its result, else of waiting for it |
| Policy.AttemptsAreRecorded | policy.go:596-633 | the record of an attempt: number, rank, target, request, runtime, status and error |
| Policy.WhatEndsAScriptedTurn | policy.go:407-496 | under a policy of the caller's own: what ends the run, with which status, error and reason |
| Policy.WhereAScriptedTurnLeads | policy.go:484-508 | and where it goes on: target, alternatives and request |
| Policy.DefaultsStopOnCallerErrors | policy.go:143-276 | with default callbacks, errors that the caller must fix end the run at once |
| Policy.OverlaysGroup | policy.go:791-834 | overlaying in two groupings agrees iff no set requirement lies under an empty list |
| Policy.EmptyListGroupsDifferently | policy.go:825-830 | three requests whose overlay depends on the grouping |
| Policy.RequestOnFallback | policy.go:776-834 | a fallback lays the target's settings over the original, prompt included, and keeps its permission policy and validation |
| Policy.FallbackInLayers | policy.go:776-789 | a fallback's request is the original, the target's settings over it, and what the decision adds |
| Validation.AggregateValidation | validation.go:669-705 | passes iff no required check fails, and every check is counted once |
| Validation.PassesIffNothingBreaks | validation.go:669-705 | passes iff no check that ran failed with severity required or none; every check is counted once |
| Validation.FailuresAreTheBreakingChecks | validation.go:669-705 | the failures are the identifiers of exactly those checks, in order |
| Validation.PassesAreThePassingChecks | validation.go:669-705 | the passed count is the number of checks that ran and passed |
| Validation.ValidationRun.Execute | validation.go:253-313 | the loop ends in every environment within the repair budget; verdict, bookkeeping, cause of the ending and every inner run are exact |
| Validation.RunPassesIffNothingBreaks | validation.go:253-313 | a run ends completed iff no check of its last recorded pass breaks it; every earlier pass is broken |
| Validation.HopelessRunsUseTheWholeBudget | validation.go:253-313 | the budget is tight: when no repair helps, every repair is made, and the run ends as exhausted, or plainly failed if there was none |
| Validation.InterruptionsEndAs | validation.go:784-795 | an interrupted pass ends the run as cancelled, or as failed with a timeout |
| Validation.GivesUpIff | validation.go:452-460 | the loop gives up only when repairs are off or used up or the callback refuses, and repairs only otherwise |
| Validation.OutcomeIsDetermined | validation.go:253-313 | what is proved of a finished run determines its status, error, results, repairs, flag and ending: no other outcome fits the environment |
| Validation.ValidationRun.RunRepair | validation.go:359-417 | a repair makes one inner run, or two when the first calls for a fresh session, with the requests the configuration determines |
| Validation.ValidationRun.StartAndWait | validation.go:315-338 | an inner run's error is its result's own, else the one from waiting |
| Validation.ValidationRun.ShouldRepair | validation.go:452-460 | a repair is allowed iff the budget has room and the callback does not refuse |
| Validation.GiveUpCategory | validation.go:290-302 | giving up is repair_exhausted iff the positive budget is used up, and validation otherwise; the flag agrees |
| Validation.FlagAgreesIff | validation.go:771-774 | the flag is set iff a positive budget is used up without success; for each ending, and from the inner runs, exactly when the category of the error agrees with it |
| Validation.UnsupportedRepairSaysExhaustedTooEarly | validation.go:397-407 | a run that ends as repair_exhausted after one of two repairs, without the flag |
| Validation.CancellationHidesExhaustion | validation.go:272-278 | a run that ends as cancelled with the flag set |
| Validation.RepairsAreCheap | validation.go:359-417 | n repairs cost between n and 2n inner runs, whatever the caller overrides |
| Validation.NothingNestsIff | validation.go:707-726 | no inner run is asked to validate again iff no override asks for it |
| Validation.RepairContinuesLatestSession | validation.go:707-726 | a repair continues the session of the latest inner run; its fallback names no session |
| Validation.RepairsAskFor | validation.go:382-417 | what a repair asks for, and when its result is that of a second run in a fresh session, an exhausted one, or its own |
| Validation.InnerRunErrors | validation.go:315-338 | an inner run's error is that of its start, else of its result, else of waiting for it |
| Validation.IneligibleErrorsFallBackIffUnsupported | validation.go:382-389 | an ineligible error leads to a fresh session iff fallback is allowed and the continued session is unsupported |
| Validation.PermissionFailureCanFallBack | validation.go:382-389 | a configuration in which a permission failure does |
| Headings.MissingInOrder | validation.go:907-925 | what is missing follows the longest prefix that is a subsequence; nothing is missing iff all is a subsequence |
| Core.SubsequenceIffEmbedded | validation.go:907-925 | a subsequence is what stands at increasing positions |
| EventIds.Itoa64 | lifecycle_events.go:44-56 | yields the decimal numeral of every non-negative int64 within its 20 bytes, and nothing for a negative one |
| EventIds.EventIdIsInjective | lifecycle_events.go:6-42 | within a run an identifier determines the kind and number of its event |
| EventIds.IdentifiersLookLikeThis | lifecycle_events.go:6-42 | what the identifiers of the three kinds of events look like |
| Lifecycle.InvariantHoldsAlways | opencode/runtime.go:1140-1200 | numbering, the chain of transitions and cleanup hold after every interleaving |
| Lifecycle.EventIdsAreDistinct | opencode/runtime.go:1285-1290 | numbers are gap-free and no two events of a run share an identifier |
| Lifecycle.SessionsAreAnnouncedOnce | opencode/runtime.go:1292-1300 | a session event is issued exactly for each recorded identifier that is not empty and differs from the one before |
| Lifecycle.EveryReportHasItsEvent | opencode/runtime.go:376-398 | every record, new rate limit and configured audit has one event, and every transition one |
| Lifecycle.LifecycleIsAChain | opencode/runtime.go:1165-1186 | transitions form a chain from Starting, with at most one terminal status, and last |
| Lifecycle.ProcessIsCancelledOnce | opencode/runtime.go:1140-1150 | the process is cancelled at most once, and exactly once by the end |
| Lifecycle.CancelledIffCleanedUp | opencode/runtime.go:1140-1150 | the process is cancelled iff the run goroutine, a caller or the context watcher cleaned up |
| Lifecycle.WatcherActsIff | opencode/runtime.go:361-369 | the context watcher cleans up iff it finds the lifecycle not ended |
| Lifecycle.LogReportsIff | opencode/runtime.go:342-359 | the log watcher reports a rate limit iff it differs from the one reported last |
| Lifecycle.ContextDoneIff | opencode/runtime.go:325-335 | the context is done iff it fired, a caller's cancellation ended it, or the run was closed |
| Lifecycle.LifecycleShowsVerdictUnlessCancelledFirst | opencode/runtime.go:447-448 | the lifecycle ends with the verdict iff no caller's cancellation precedes its report or the verdict is cancelled |
| Lifecycle.CancelCanBeatCompletion | opencode/runtime.go:447-448 | a cancellation between the conclusion and its report, after which lifecycle and result disagree |
| Lifecycle.DisagreementIsARace | opencode/runtime.go:447-448 | a completed result under a cancelled lifecycle means a cancellation before the report and a context that was not done at the conclusion |
| Lifecycle.EndIsFinal | opencode/runtime.go:1176-1186 | after a terminal status no step changes the lifecycle |
| RunFold.Run.Emit | opencode/runtime.go:376-433 | one record is folded into the run's fields; a fatal one ends the scan, an event that cannot be sent changes nothing |
| RunFold.Run.ScanNativeRecords | opencode/decoder.go:53-98 | the loop over lines is the specified scan |
| RunFold.CompletedIffNoError | opencode/runtime.go:456-536 | in every run the status is completed iff there is no error |
| RunFold.FinalIffTerminalStepFinish | opencode/projector.go:34-113 | in a clean stretch the final flag is raised by a terminal step_finish and by nothing else |
| RunFold.JunkAfterFinalIsHarmless | opencode/runtime.go:1115-1128 | after a final result a bad line and all that follows give the outcome of the stream ending there |
| RunFold.JunkBeforeFinalFailsTheRun | opencode/decoder.go:76-83 | before one, a bad line fails the run as malformed |
| RunFold.FatalRecordDecides | opencode/runtime.go:428-430 | a fatal record that is reached fails the run with its own classification, even after a final result |
| RunFold.FinalDecidesCleanStream | opencode/runtime.go:505-515 | a clean stream with a final result completes unless the exit classifies as something worse |
| RunFold.EndedContextNeverCompletes | opencode/runtime.go:456-504 | a run whose context ended never completes |
| RunFold.EndedContextDecides | opencode/runtime.go:456-504 | a cancelled context ends the run as cancelled, a timed-out one as failed with a timeout or what the log shows, unless a fatal record or malformed input came first |
| RunFold.ContextMetFirstDecides | opencode/decoder.go:66-70 | a context found ended before the first line decides by itself |
| RunFold.HarmlessStreamEndsAs | opencode/runtime.go:456-536 | the whole ladder over harmless records: broken read, context, final result, exit, signs of life, database, and runtime exit |
| RunFold.SeenInWords | opencode/runtime.go:400-419 | what harmless records leave seen: final, idle and output flags by record type, and the text put together |
| RunFold.KindsInWords | opencode/projector.go:227-260 | the kind each type of record is reported as |
| RunFold.OutputStaysBounded | opencode/runtime.go:415-419 | accumulated output stays within 96 KiB whatever is printed |
| TerminalOutput.FoldIsBounded | opencode/runtime.go:642-659 | over arbitrary chunks the result never exceeds the bound |
| TerminalOutput.BoundIs96KiB | opencode/runtime.go:642-649 | a value keeps the last 98304 bytes, or all of it |
| TerminalOutput.CumulativeStreamKeepsTheEnd | opencode/runtime.go:651-659 | a cumulative stream ends with the last 96 KiB of its last chunk, even after truncation |
| TerminalOutput.DeltaIsAppendedIffNotMistaken | opencode/runtime.go:651-659 | a delta is appended correctly iff it does not look like a repetition |
| TerminalOutput.RepeatedLetterIsLost | opencode/runtime.go:651-659 | a stream of two deltas that loses one |
| Probe.ScanProbeOutput | opencode/health.go:222-263 | for every chunking, a needle is found iff it occurs in the whole lowered output; the count and the sample see every byte, and the carried tail has its exact length |
| Probe.ScanChunk | opencode/health.go:239-255 | one read keeps the matches exact and the carried tail at its exact length: one byte less than the longest needle if that has two or more, else everything read |
| Probe.CarryIsBoundedIff | opencode/health.go:250-254 | what is carried stays bounded iff some needle has two bytes or more |
| Probe.WithoutNeedlesAllIsCarried | opencode/health.go:250-254 | without needles the whole output is carried |
| Probe.LimitBuffer.Write | opencode/process.go:109-125 | the buffer holds exactly the first bytes written, up to its limit |
| Probe.ReadProbeOutput | opencode/health.go:210-220 | the sample is the first min(limit, total) bytes, empty without a limit |
| Probe.MergeProbeMatches | opencode/health.go:265-273 | a needle is found in the merge iff in one of the parts |
| Probe.ProbeMatchesEitherStream | opencode/health.go:210-273 | a probe reports a needle iff it occurs in either stream |
| Probe.ChunkingIsIrrelevant | opencode/health.go:222-263 | two ways of splitting the same output find the same needles |
| Probe.FoundInAnyCase | opencode/health.go:222-263 | a needle is found iff the output holds it in some case of its letters |
| Probe.CaseIsIrrelevant | opencode/health.go:222-263 | outputs and needles that differ in the case of letters only give the same matches |
| Text.LowerIgnoresCaseOnly | opencode/health.go:226-245 | two texts are lowered to the same iff they differ in the case of ASCII letters at most |
| Permissions.Translate | opencode/permissions.go:41-128 | for every visiting order it succeeds iff the policy is valid, mapped where required and without conflicting aliases, and yields the config the policy determines |
| Permissions.ApplyTools | opencode/permissions.go:62-100 | each native tool gets the action its tools agree on, or else a set default |
| Permissions.ApplyPathRules | opencode/permissions.go:101-123 | the last rule for a path counts, and the earlier value stays as the catch-all unless overridden |
| Permissions.ToolConfigIsUnique | opencode/permissions.go:62-100 | the policy determines its tool config |
| Permissions.PathConfigIsUnique | opencode/permissions.go:101-123 | tool config and rules determine the final config |
| Permissions.ConfigIsOrderIndependent | opencode/permissions.go:41-128 | two translations of one policy never yield different configs |
| Permissions.OneToolSetsOneNativeTool | opencode/permissions.go:12-33 | each of the 20 tool classes sets its own native tool and nothing else |
| Permissions.UnknownToolsAreRefused | opencode/permissions.go:62-73 | any other tool is refused unless the policy asks for best effort |
| Permissions.AliasesMustAgree | opencode/permissions.go:74-86 | two aliases are accepted iff they agree or one is left to the default |
| Permissions.DefaultReachesEveryNativeTool | opencode/permissions.go:52-61 | a set default reaches exactly the native tools |
| Permissions.PathRulesRefineOutsideDirectories | opencode/permissions.go:101-123 | a path rule sits beside the earlier value as the catch-all, in external_directory only |
| Permissions.InvalidInWords | permissions.go:146-184 | what makes a policy invalid |
| ProcessEnv.BuildEnv | opencode/runtime.go:168-191 | fails exactly when a stage meets its obstacle (an unreadable document, a permission entry that is no object, a nil map, a bad path, no temp directory) and with that error; otherwise each set key appears once and all other entries stay in order |
| ProcessEnv.ConfigStages | opencode/runtime.go:168-177 | whenever a config stage applies there is exactly one config entry, holding the expected document, or the exact error |
| ProcessEnv.MergeEnv | opencode/permissions.go:142-175 | permissions are overlaid on the combined documents; without permissions nothing changes |
| ProcessEnv.WithSnapshotConfig | opencode/runtime.go:232-251 | the combined document with the snapshot flag replaces all config entries |
| ProcessEnv.SetEnvValue | opencode/runtime.go:253-262 | all entries of the key are replaced by one at the end |
| ProcessEnv.ReplacingIsLocal | opencode/runtime.go:232-262 | replacing a key's entries changes that key and no other, and keeps unmanaged entries in order |
| ProcessEnv.DocumentKeepsTheRest | opencode/permissions.go:142-175 | each field is kept unless its stage applies; permissions are overlaid entry by entry, keeping those not named; the snapshot flag is as asked |
| ProcessEnv.LaterDocumentsWin | opencode/permissions.go:148-156 | fields of a later document win, and a null document forgets the earlier ones |
| ProcessEnv.RejectsIff | opencode/permissions.go:142-175 | a stage rejects exactly an unreadable document and a permission entry that is no object |
| ProcessEnv.EntriesLookLikeThis | opencode/runtime.go:168-191 | the names of the variables the stages set |
| ProcessEnv.CrashesIffLastDocumentIsNull | opencode/permissions.go:142-175 | the stages write to a nil map iff every document is readable and the last one is null |
| ProcessEnv.NullDocumentCrashes | opencode/permissions.go:142-175 | an environment with a null document, on which either stage crashes |
| ProcessEnv.PermissionsAreOverlaid | opencode/permissions.go:157-174 | a codec and a document with permissions of its own, and the documents the stages write |
| DbMetrics.Accumulator.Collect | opencode/runtime.go:844-882 | adds the totals of a tree to the running totals |
| DbMetrics.CountedAreOutermost | opencode/runtime.go:844-882 | exactly the outermost finished assistant messages are counted, nothing beneath them |
| DbMetrics.CountedIsDistinct | opencode/runtime.go:844-882 | no message is counted twice |
| DbMetrics.TotalSumsCounted | opencode/runtime.go:844-882 | the totals are the sum of the counted messages' contributions |
| DbMetrics.ContributionInWords | opencode/runtime.go:854-876 | which field of a message feeds which total, in either spelling |
| DbMetrics.FinishedInWords | opencode/projector.go:166-180 | which nodes are finished assistant messages, by role and six spellings of the reason |
| DbMetrics.TraversalInWords | opencode/runtime.go:844-882 | the traversal enters arrays, decoded texts and the values of other objects |
| DbMetrics.TurnsAreExact | opencode/runtime.go:844-882 | turns are the number of counted messages, zero iff the tree holds no finished one |
| DbMetrics.TotalIsAdditive | opencode/runtime.go:844-849 | the totals of a concatenation of arrays are the sum of the totals |
| DbMetrics.VisitingOrderIsIrrelevant | opencode/runtime.go:844-882 | the totals do not depend on the order in which object fields are visited, at any depth |
| Rates.RateTableStore.Ensure | pricing.go:300-326 | memory, disk and network are consulted in turn as specified, and a snapshot is written iff a fetch succeeded |
| Rates.AnswersInWords | pricing.go:300-326 | what a call answers, from which layer, and when it asks the network, with a time to live of one day |
| Rates.FetchesAreRemembered | pricing.go:312-316 | a fetched catalog is remembered and written, by a store with a directory |
| Rates.RateTableStore.Apply | pricing.go:338-343 | table, time and source change together, and only a table with rates counts as resolved |
| Rates.AnswersAreUsable | pricing.go:300-343 | every answer has rates; a fresh one is younger than the TTL or just fetched, a cached one is older and the network was tried |
| Rates.NeverUnavailableAgain | pricing.go:300-326 | once any call has been answered no later call fails |
| Rates.UnresolvedMeansAllFailed | pricing.go:300-343 | the store is resolved iff some call was answered |
| Rates.FetchQuietsTheNetwork | pricing.go:300-326 | after a fetch at t no call before t plus the TTL touches the network, and all see its table |
| Rates.SnapshotServesTheNextStore | pricing.go:354-393 | a snapshot one store has written answers the first call to another, while young, without the network |
| Rates.WriteServesEveryStore | pricing.go:300-393 | while it is young no store of the directory goes to the network, and each answers from young memory or from what was written |
| Rates.SavedFetchesNeverAge | pricing.go:300-393 | with an advancing clock, a store whose own fetches are all written never goes back to an older table, whatever other stores do |
| Rates.UnsavedFetchIsLost | pricing.go:312-321 | two calls in which a fetch that was not written is displaced by an older snapshot |
| Rates.MemoryAgesIff | pricing.go:312-324 | memory is replaced by an older table iff it expired, the fetch failed and an older usable snapshot is on disk |
| Rates.OlderSnapshotDisplacesMemory | pricing.go:312-324 | two calls after which a stale snapshot has displaced a newer table |

## Left out

- Process launch, signals, pipes, HTTP, SQL, file access and log scanning: their answers are inputs.
- JSON syntax, hashing, redaction and cloning: documents are trees, of the codec it is assumed only that the document the permission stage writes is read back as itself by the snapshot stage (`Rereads`), and stored values are immutable, so aliasing between callers and stores is not modelled.
- RunStore.MemoryRunStore.UpsertRun: the record is an identifier, a status and one text; merging of event payloads, usage and artifacts into records is not part of this model.
- Forwarder.InvariantHoldsAlways: the forwarder is a step system on values rather than an object; sinks and the store are taken to answer; when a record is due to be written to the store again is left open, and recorded failures keep only whether the sink was required.
- Lifecycle.InvariantHoldsAlways: the shared run is a step system on values; delivery of the numbered events to the 32-slot channel is not modelled, and sequence numbers do not overflow.
- Policy.PolicyRun.Finish: agreement of the final status with the error is not claimed, since an attempt's own status is kept.
- Policy.OverlaysGroup: overlaying is a function of two requests rather than a write through a pointer.
- Policy.PolicyRun.RunAttempt: durations, metadata and forwarding of an attempt's events are not part of this model, nor are backoff delays, which are inputs.
- Validation.AggregateValidation: the validators that produce the checks read files and are inputs; redaction of details is left out.
- Validation.ValidationRun.RunRepair: repair prompts are one fixed text, and requests overridden by the caller are inputs.
- RunFold.Run.Emit: usage, artifacts, rate limits and warnings gathered from records are left out; the text of a record, its idle flag and the classification of its error are inputs.
- Probe.ScanProbeOutput: lowering is bytewise ASCII, since lowering other text chunk by chunk depends on the chunk boundaries; read errors other than the end of the stream only end the scan.
- Permissions.ApplyTools: which of several errors is reported depends on the visiting order and is not stated; the lists of supported and unsupported features for reporting are left out, and so is a request without a policy, which gets an empty config.
- ProcessEnv.BuildEnv: the arguments of the process, path cleaning and the creation of the temporary directory are inputs or left out.
- DbMetrics.Accumulator.Collect: roles are compared with ASCII case folding; counts are unbounded and costs are reals; float rounding and int64 overflow are left out.
- Rates.RateTableStore.Ensure: parsing of the catalog is an input, and what a call finds on disk is arbitrary; theorems about stores that share a directory assume that nothing else writes there and that a failed write leaves the snapshot before it.
- Rate-limit heuristics, model listings, capability tables, config merging and health ranking: string tables and one-branch facts.
