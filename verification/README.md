# Concierge: proofs about the ambient control logic

A Dafny model of the control logic behind concierge-agent's ambient mode, its registry cache and its
remote-tool ingest, with proofs of what that logic promises over whole runs. Postgres transactions are
atomic steps and `await` points are the only places where tasks interleave. Model calls, card fetches,
poll sources and clocks are inputs: an oracle that may give any well-typed answer or fail.

- **Registry cache** (`RegistryCache`, `Listener`, `Coherence`, `CacheHits`). Generation counters, dirty
  flags and a TTL against a database that other tasks and replicas write, with loads that suspend and
  notifications that get lost.
- **Event pipeline** (`Drain`, `Launches`, `EventStore`, `StoreDecisions`, `Patterns`, `PatternRuns`,
  `PatternReactions`, `CascadeBounds`, `OrphanLoops`, `PatternMatches`, `OneSidedMatches`, `Reclaims`). Claim,
  process, write back and launch on any number of crashing replicas; the append-only causal store with its
  cascade guards; the sequence, conjunction and absence engine that feeds events back into it, under
  retention and reprocessing.
- **Delivery** (`Delivery`, `DeliveryRuns`, `DeliveryDecisions`, `Salience`, `SalienceDecisions`,
  `DeliveryHistory`). The outbox with budgets, quiet hours and digests; the judge with apply, decline and
  undo; and the lifetime delivery history of a row under every interleaving of the two.
- **Policy ledger and learners** (`PolicyLedger`, `Retention`, `Learning`, `LearningDecisions`,
  `LearnerRuns`). What is in effect, what the batched purge leaves in effect, when each learner acts, and the
  clamps over unbounded runs of learners.
- **Algorithms** (`RegexGuard`, `RegexVerdicts`, `PythonRegex`, `RegexCases`, `Retrieval`,
  `RetrievalDecisions`, `RateLimit`, `RateGrants`, `Sources`, `SourceDecisions`, `WatermarkText`, `Polling`,
  `PollingDecisions`, with `Sorting` behind several of them). The nested-repetition scan against regex syntax
  trees and Python's own reading of a pattern, rank fusion and the catalog gate, the token bucket, the
  seen-window in its column, adaptive polling of many watches.
- **Remote tools** (`Ingest`, `IngestDecisions`, `IngestRuns`). Card refreshes against what operators set by hand.

Objects whose methods change fields are classes. Each method is proved against a specification function
of the old state, and the properties are proved about those functions over runs. Beside the bounds and
invariants, a lemma whose name ends in `Exactly` says of each operation when it acts, row by row or event by
event, and when it does not, with the conditions and constants written out. Where the code and its
own comments disagree the model follows the code, and a lemma shows the difference on an input, beside the
exact condition under which the comment holds:

- "A double-clicked button can never double-apply" (`backend/app/ambient/salience.py:246`): a delivered row
  can be delivered again exactly while it can still be pulled back, by the pass, an open proposal or an
  escalation in flight, and some batch holds it or can choose it (`DeliveryHistory.RedeliveryExactly`).
  Two overlapping clicks do it (`DeliveryHistory.OverlappingAppliesDigestTwice`), and so does one click that
  dies before it closes the record and one after the digest (`DeliveryHistory.CrashedApplyDigestsTwice`).
- "Never a re-interrupt" (`backend/app/ambient/salience.py:19-21`): a second real-time delivery is possible
  exactly while a real-time batch still holds a row that is, or can be, pulled back
  (`DeliveryHistory.SecondRealTimeExactly`, `DeliveryHistory.StaleBatchNotifiesTwice`). Both promises hold
  over all runs whose escalations keep to a guard on the row and its batches, and the guard is exact
  (`DeliveryHistory.LifetimeHistory`, `DeliveryHistory.SafeExactly`).
- "No-self-trigger: a routine may not appear twice in its own chain" (`backend/app/ambient/store.py:73`) fails
  exactly where retention has deleted an ancestor below the earlier occurrence:
  `EventStoreModel.EmitRepeatsExactlyPastThePurge`, `EventStoreModel.PurgeLetsARoutineRepeat`.
- "Cascade stopped" (`backend/app/ambient/store.py:71-72`): an absence whose window outlasts retention derives
  an event without a cause, which no depth guard stops. Draining ends where retention covers every absence
  rule (`CascadeBounds.DrainingTerminates`), and for a rule that arms on its own events exactly there
  (`OrphanLoops.EchoEndsExactly`).
- "Conjunction (A and B within T)" (`backend/app/ambient/patterns.py:3-4`): a conjunction matches two A events
  and no B in some run exactly where retention does not cover its window and an event can satisfy its A side
  alone (`OneSidedMatches.OneSidedExactly`): the event that armed it is deleted, and the next A counts as the
  other side.
- "Sequence (A then B within T)" (`backend/app/ambient/patterns.py:3-4`): an event that is reclaimed and
  processed again is matched with itself in some run exactly where an event can satisfy both sides
  (`Reclaims.SelfMatchExactly`). All else about derived events survives reprocessing
  (`Reclaims.EveryDerivedEventIsJustified`, `Reclaims.EngineInvariants`).
- "Keys idle for an hour are evicted" (`backend/app/ratelimit.py:1-7`): no caller can tell, in any run, exactly
  where an hour refills a bucket or a bucket never holds a token (`RateLimit.EvictionInvisibleExactly`).
- "AIMD never causes a missed deadline" (`backend/app/ambient/triggers.py:220-221`) and "a broken source never
  kills the tick" (`backend/app/ambient/triggers.py:234`): the watermark column takes 255 characters, and the
  commit that exceeds it ends the pass for every later watch. A watch takes its step exactly when it is
  visited and no commit before it or at it is refused (`Polling.Poller.PollDue`); thirteen new items without
  ids are enough to refuse one for good (`Polling.ThirteenItemsJam`, `Polling.OneJamStarvesAll`).
- The cap of 100 keys "bounds the watermark row" (`backend/app/ambient/sources.py:40`): the column is full long before
  the cap, so a watch returns at most 51 keys in its life and a poll goes through exactly while all of them fit
  (`Sources.ColumnBoundsTheLife`, `Sources.LifeBoundIsAttained`, `Sources.PollGoesThroughExactly`).
- "Clamped to ±2h of the anchor" (`backend/app/ambient/learn.py:9-11`) holds exactly for anchors before
  26:00 and as long as the number of slots is the anchor's: `LearnerRuns.ShiftStaysNearExactly`,
  `LearnerRuns.DriftGoesOn`, `LearnerRuns.RevertedAnchorIsUnusable`.
- "The latest row per category is the live policy" (`backend/app/retention.py:13-14`) fails under a newer
  open or rejected proposal: `Retention.PurgeKeepsPolicyExactly`, `Retention.PolicyAfterPurge`,
  `Retention.OpenProposalCostsThePolicy`.
- "An operator's `inactive` is theirs alone to undo" (`backend/app/a2a/manager.py:208-210`) holds exactly
  while no card fetch fails: `IngestRuns.InactiveSurvivesExactly`, `IngestRuns.StoppedRowsAreStranded`.
- "An operator's disable or delete stays as set" (`backend/app/a2a/manager.py:272-275`) holds exactly for
  a switch-off made while the row is in service: `IngestRuns.OnlyTogglesDecide`,
  `IngestRuns.OffWhileGoneIsForgotten`.
- "Revert: the override stops applying" (`backend/app/api/ambient.py:534-537`) holds exactly for owners
  without a row of their own: `PolicyLedger.RevertClearsExactly`.
- "A quantified group that itself contains a quantifier" is refused (`backend/app/ambient/regex_guard.py:8-11`):
  exactly so, as Python reads it, on every pattern free of seven forms that a caller can look for
  (`PythonRegex.CleanPatternsAreJudgedRight`); `RegexCases` shows for each form a pattern that slips through or
  is refused wrongly.
- "Backreferences" are refused (`backend/app/ambient/regex_guard.py:8-11`): every numbered one is
  (`RegexVerdicts.NumberedAreCaught`), and so is a literal backslash before a digit
  (`RegexVerdicts.LiteralBackslashIsRefused`).

## Model

| member | source | states |
|---|---|---|
| `RegistryCacheModel.RegistryCache.MarkDirty` | backend/app/registry_cache.py:274-300 | an invalidation bumps and dirties exactly the registry and every registry that embeds it, each once |
| `RegistryCacheModel.ClosureIsLeast` | backend/app/registry_cache.py:278-284 | that set is the least one closed under the dependency table |
| `RegistryCacheModel.RegistryCache.SetMode` | backend/app/registry_cache.py:261-266 | a mode flip dirties everything, a repeated one does nothing |
| `RegistryCacheModel.RegistryCache.Decide` | backend/app/registry_cache.py:475-481 | under the lock: serve the entry, or load because it is forced, dirty, absent or expired |
| `RegistryCacheModel.RegistryCache.FinishLoad` | backend/app/registry_cache.py:482-488 | a finished load is stored whatever happened meanwhile, and is clean only if the generation stood still |
| `Listener.SupervisedListener.ConnectHeld` | backend/app/listen.py:112-126 | the owner's reload hook runs on every connect but the first |
| `Listener.SupervisedListener.BackOff` | backend/app/listen.py:128-134 | the delay doubles up to its maximum and never shrinks while connects fail |
| `Coherence.StepKeepsInv` | backend/app/registry_cache.py:261-305 | every read, refresh, invalidation, mode flip, callback and link event keeps the coherence invariant |
| `Coherence.NoPreWriteRows` | backend/app/registry_cache.py:274-309 | a memory-mode read that decides after `invalidate(r)` returned never serves older rows of `r` or of a registry embedding it, under every interleaving |
| `Coherence.ServedRowsAreYoung` | backend/app/registry_cache.py:473-488 | rows served were read at most one TTL and one load ago, whatever was lost |
| `Coherence.AnnouncedChangesAreSeen` | backend/app/registry_cache.py:331-367 | once the listener has settled, hits reflect every peer change announced after the first LISTEN, over any connection losses |
| `Coherence.FirstConnectCatchesNothingUp` | backend/app/listen.py:113-126 | the restriction to the first LISTEN is exact: an earlier announcement can be missed for good, from any state with a clean entry |
| `Coherence.StaleAfterFirstConnect` | backend/app/listen.py:113-126 | and a run from the start reaches such a state: load, peer change, first connect, stale hit |
| `CacheHits.HitExactlyWithinTtl` | backend/app/registry_cache.py:473-488 | in every run, an entry that nothing has disturbed since its load is served, with that load's rows, exactly while it is clean and younger than the TTL; otherwise, or when forced, a read loads |
| `CacheHits.ReadsServeExactly` | backend/app/registry_cache.py:481-488 | which actions serve rows, and which rows |
| `CacheHits.GenerationStandsExactly` | backend/app/registry_cache.py:478-488 | a load ends clean exactly if no invalidation of a registry it embeds came in between |
| `CacheHits.InvalidationDecidesExactly` | backend/app/registry_cache.py:278-296 | which registries an invalidation reaches, and that exactly these must be loaded again |
| `CacheHits.FlipDecidesExactly` | backend/app/registry_cache.py:261-266 | after a change of mode nothing is served before it is loaded; setting the same mode does nothing |
| `CacheHits.ReconnectReloads` | backend/app/listen.py:112-134 | a connection that comes up, is lost and comes up again leaves one task more, after which every registry is loaded |
| `Drain.AmbientEvents.Claim` | backend/app/ambient/drain.py:101-130 | the claim stamps exactly the oldest claimable rows, at most `limit` of them |
| `Drain.OldestIsExact` | backend/app/ambient/drain.py:107-115 | claimed rows are pending or expired claims, in arrival order, and none older is skipped |
| `Drain.AmbientEvents.WriteBack` | backend/app/ambient/drain.py:144-164 | the row is overwritten whatever it says by now, and only a fired decision with an addressee is executed |
| `Drain.OneLiveOwner` | backend/app/ambient/drain.py:44-66 | with any number of replicas crashing, timing out and reclaiming, no event has two live owners |
| `Drain.DecidedIsFinal` | backend/app/ambient/drain.py:91-164 | a terminal verdict is never overwritten |
| `Drain.LaunchedOnce` | backend/app/ambient/drain.py:165-171 | the executor of an event starts at most once: a launch names it once, and no later launch names it again |
| `Drain.UndecidedBecomesClaimable` | backend/app/ambient/drain.py:94-115 | an undecided event is claimable one reclaim age later at the latest; it is claimed unless as many older ones are |
| `Drain.StaleWriterOverwrites` | backend/app/ambient/drain.py:44-45 | the arithmetic is exact: a timeout not below the reclaim age loses a verdict |
| `Launches.ExactlyTheFiredAreLaunched` | backend/app/ambient/drain.py:144-171 | in every run an executor was started for an event if and only if the launching run had written it back as fired with an addressee; its row says fired or is gone |
| `Launches.WriteBackSettlesTheClaim` | backend/app/ambient/drain.py:144-164 | a write-back meets its own claim or no row; a failure is pending again, anything else takes its verdict, and no other row changes |
| `Launches.NextStepOfARun` | backend/app/ambient/drain.py:94-171 | a live run can do exactly one of claiming, writing back and launching, one past its time only die |
| `EventStoreModel.EventStore.EmitEvent` | backend/app/ambient/store.py:42-134 | the guards in order, each outcome, and exactly one appended row when none refuses |
| `StoreDecisions.EmitDecidesExactly` | backend/app/ambient/store.py:42-134 | in every reachable store: the exact condition of each refusal, in order, and otherwise exactly one row, with its depth and root |
| `StoreDecisions.KeyLivesWithItsRow` | backend/app/ambient/store.py:78-87 | the first event with a key is stored, a second is dropped while the first is kept, and after the first is deleted the key is accepted again |
| `EventStoreModel.EventStore.RoutineInChain` | backend/app/ambient/store.py:137-149 | the bounded walk answers for the whole visible chain |
| `EventStoreModel.ChainMeaning` | backend/app/ambient/store.py:64-71 | depth counts the causal ancestors and stays below 4; the correlation id is the root's id |
| `EventStoreModel.CascadeGuardsHold` | backend/app/ambient/store.py:64-115 | over any run no hour holds more than 50 events of a routine, a dedupe key names one row, and chains mean what they say |
| `EventStoreModel.NoRoutineRepeats` | backend/app/ambient/store.py:73-75 | over any run of emits and purges, no routine occurs twice on a causal chain none of whose ancestors was deleted |
| `EventStoreModel.EmitRepeatsExactlyPastThePurge` | backend/app/ambient/store.py:137-149 | an accepted emit repeats a routine on its chain exactly when a proper ancestor of its cause is deleted and the routine stands at or above it |
| `EventStoreModel.PurgeLetsARoutineRepeat` | backend/app/retention.py:72-75 | a run in which a deletion lets a routine occur twice on one chain |
| `PatternsModel.PatternEngine.FeedRule` | backend/app/ambient/patterns.py:77-142 | one event through one rule: arm, match, satisfy or ignore, branch by branch |
| `PatternsModel.PatternEngine.AdvancePatterns` | backend/app/ambient/patterns.py:50-142 | one event through every rule in order, with the exact number of derived events |
| `PatternsModel.PatternEngine.FireEvent` | backend/app/ambient/patterns.py:145-167 | a guarded derived event is dropped and leaves the cooldown untouched |
| `PatternsModel.PatternEngine.ExpirePatternDeadlines` | backend/app/ambient/patterns.py:170-218 | the sweep expires every due instance and fires exactly the cooled-down absences |
| `PatternReactions.SweepFiresExactly` | backend/app/ambient/patterns.py:170-218 | in every reachable world a sweep expires exactly the due instances and stores exactly one event for each due, cooled-off absence whose arming event is gone or at depth below 3, named as its cause while it is kept |
| `PatternReactions.ProcessReactsExactly` | backend/app/ambient/patterns.py:77-167 | in every reachable world, what processing an event does to each rule: arming, matching, answering, and exactly the derived event of a cooled-off match above the depth guard |
| `PatternReactions.KeysNameRules` | backend/app/ambient/patterns.py:70 | the keys of two rules differ, so their cooldowns and partitions never mix |
| `PatternRuns.EveryDerivedEventIsJustified` | backend/app/ambient/patterns.py:50-218 | in every reachable world, deletions included, each derived event has the evidence of its rule's kind: A before a different B, two different events that satisfy both sides unless the first was deleted, or no B up to the sweep; full evidence while retention covers the rule's window |
| `PatternRuns.EngineInvariants` | backend/app/ambient/patterns.py:77-141 | deletions included: at most one armed instance per rule and partition, emissions a cooldown apart, matches late by at most the time since the last sweep |
| `PatternRuns.OneChildPerRule` | backend/app/ambient/patterns.py:50-218 | an event that is processed once causes at most one derived event per rule, armed absences and deletions included |
| `PatternRuns.DerivedEventsNameTheirCause` | backend/app/ambient/patterns.py:191-211 | while retention covers every absence rule, each derived event names its cause |
| `OneSidedMatches.NotBothSides` | backend/app/ambient/patterns.py:124-135 | a conjunction match that is none of both sides is one of two A events and no B, after a deletion, under a rule retention does not cover |
| `OneSidedMatches.UncoveredConjunctionMatchesOneSide` | backend/app/ambient/patterns.py:124-135 | the run from the start, among any other rules: the arming A is deleted before its window ends, and a second A matches |
| `OneSidedMatches.OneSidedExactly` | backend/app/retention.py:72-75 | some run derives an event from two A events and no B if and only if retention does not cover the rule and an event can satisfy its A side alone |
| `PatternRuns.ReprocessedEventMatchesItself` | backend/app/ambient/patterns.py:88-111 | an event that is shown again completes the sequence it armed |
| `Reclaims.EveryDerivedEventIsJustified` | backend/app/ambient/patterns.py:50-218 | with events processed any number of times: an A showing before a B showing, two different events of a conjunction, or no B shown since the absence was armed |
| `Reclaims.EngineInvariants` | backend/app/ambient/patterns.py:77-141 | with events processed any number of times: at most one armed instance per rule and partition, one event per instance, emissions a cooldown apart |
| `Reclaims.SelfMatchExactly` | backend/app/ambient/patterns.py:88-111 | some run matches an event with itself if and only if an event can satisfy both sides of the sequence |
| `Reclaims.ShownTwiceMatchesItself` | backend/app/ambient/drain.py:94-115 | the run: an event that satisfies both sides arrives and is processed twice |
| `Reclaims.OnePerRuleAndProcessing` | backend/app/ambient/drain.py:94-115 | processing an event, for the first time or again, derives at most one event per rule |
| `Reclaims.DerivedEventsAreBounded` | backend/app/ambient/patterns.py:50-218 | with events processed any number of times: at most one derived event per rule and processing in all |
| `Reclaims.PlainRunsAreRuns` | backend/app/ambient/drain.py:94-115 | every run that processes each event once is such a run, and ends in the same world |
| `CascadeBounds.CascadeIsBounded` | backend/app/ambient/patterns.py:145-167 | with n rules an event has at most n + n² + n³ descendants, whatever is deleted |
| `CascadeBounds.DrainingTerminates` | backend/app/ambient/store.py:67-75 | where retention outlasts every absence window, the processing delay and a sweep, m external events lead to at most m·(1 + n + n² + n³) processed events |
| `OrphanLoops.UncoveredAbsenceNeverEnds` | backend/app/ambient/patterns.py:191-218 | where it does not, one external event and a rule that arms on its own events give runs of any length |
| `OrphanLoops.EchoEndsExactly` | backend/app/retention.py:72-75 | for that rule the condition is exact: the number of processed events is bounded if and only if retention covers the window |
| `DeliveryModel.QuietIsAnArc` | backend/app/ambient/deliver.py:42-56 | quiet hours are the half-open arc from start to end on the clock face; equal ends are never quiet |
| `DeliveryDecisions.QuietDecidesExactly` | backend/app/ambient/deliver.py:42-56 | off unless there are exactly two clocks, an error for an impossible one, else the arc |
| `DeliveryModel.Outbox.AddDelivery` | backend/app/ambient/deliver.py:126-189 | policy override, silent delivery of tier 3, and collapse of live rows with the same key |
| `DeliveryDecisions.InsertDecidesExactly` | backend/app/ambient/deliver.py:126-189 | the new row's tier and state, and exactly the pending rows of its key superseded |
| `DeliveryModel.Outbox.DeliverBatch` | backend/app/ambient/deliver.py:291-321 | exactly the rows still undelivered after dispatch are marked |
| `DeliveryDecisions.BatchMarksExactly` | backend/app/ambient/deliver.py:291-321 | a batch marks exactly its rows that are undelivered by then |
| `DeliveryModel.Outbox.FlushInterrupts` | backend/app/ambient/deliver.py:398-416 | the most urgent interrupts that fit the day's budget go out, the others move to the digest |
| `DeliveryDecisions.InterruptsDecideExactly` | backend/app/ambient/deliver.py:398-416 | each pending interrupt goes out exactly if it is not quiet and those sent today and those before it leave room in the budget; otherwise it moves to the digest |
| `DeliveryModel.Outbox.FlushTier1` | backend/app/ambient/deliver.py:360-385 | presence or a passed deadline delivers, quiet hours demote |
| `DeliveryDecisions.NotifiesDecideExactly` | backend/app/ambient/deliver.py:360-385 | each pending notify, in and out of quiet hours |
| `DeliveryModel.Outbox.DigestFlush` | backend/app/ambient/deliver.py:324-357 | one digest batch under the approval budget |
| `DeliveryDecisions.DigestsDecideExactly` | backend/app/ambient/deliver.py:324-357 | each row that waits in tier 2 goes out exactly if it is no approval or fits the budget |
| `DeliveryDecisions.DueExactly` | backend/app/ambient/deliver.py:255-288 | a digest is due exactly if a configured time was reached since the last digest; an impossible time is an error |
| `DeliveryModel.Outbox.FlushBucket` | backend/app/ambient/deliver.py:388-433 | the whole pass over one owner's rows, with the errors an impossible clock raises |
| `DeliveryDecisions.FlushDecidesExactly` | backend/app/ambient/deliver.py:388-433 | the fate of each row in a whole flush: a row that waits in tier 2 after the real-time steps is delivered by digest exactly if a slot was reached since the last one and it is no approval or fits the budget |
| `DeliveryModel.Outbox.OnUserReturned` | backend/app/ambient/deliver.py:464-477 | a return flushes tier 1, a long absence the digest as well |
| `DeliveryDecisions.ReturnDecidesExactly` | backend/app/ambient/deliver.py:464-477 | every pending notify goes out, and after more than an hour the digest |
| `DeliveryRuns.EveryPendingRowIsAccountedFor` | backend/app/ambient/deliver.py:324-433 | after a flush each pending row is delivered on the channel of the tier it ends with, or pending with its tier unchanged or moved to 2; nothing else changes |
| `DeliveryRuns.QuietFlushDeliversNothing` | backend/app/ambient/deliver.py:380-433 | in quiet hours nothing is delivered, and exactly what would have gone out is moved to the digest |
| `DeliveryRuns.InterruptsAreTheMostUrgent` | backend/app/ambient/deliver.py:398-416 | exactly as many interrupts go out as are pending and fit the day's budget, and they are the most urgent ones |
| `DeliveryRuns.Tier1ActsOnTheReady` | backend/app/ambient/deliver.py:371-385 | exactly the rows whose user is present or whose deadline has passed are delivered, or demoted in quiet hours |
| `DeliveryRuns.DigestTakesTheMostUrgent` | backend/app/ambient/deliver.py:324-350 | a digest marks exactly the pending tier-2 rows that are no approval or have fewer approvals before them than the budget has left |
| `DeliveryRuns.DigestDueOncePerSlot` | backend/app/ambient/deliver.py:255-288 | a digest is due exactly when a slot of the day was reached since the last digest delivery, or at all if there was none |
| `DeliveryRuns.EmptyDigestStaysDue` | backend/app/ambient/deliver.py:280-285 | a digest with nothing in it covers no slot |
| `DeliveryRuns.BudgetsHold` | backend/app/ambient/deliver.py:235-245 | over any run from an empty outbox, per bucket and UTC day, interrupts stay within the notification budget and digest approvals within the escalation budget |
| `DeliveryRuns.KeysStayCollapsed` | backend/app/ambient/deliver.py:169-184 | over any run at most one live row carries a key, and superseded rows point to newer ones of their key |
| `DeliveryRuns.RunEndsWithItsLastOp` | backend/app/ambient/deliver.py:388-433 | a run takes effect operation by operation |
| `SalienceModel.SalienceDesk.RunPass` | backend/app/ambient/salience.py:346-392 | exactly the candidates that pass the mute, the prefilter and a working judge are re-judged |
| `SalienceModel.SalienceDesk.Decide` | backend/app/ambient/salience.py:242-303 | every outcome of apply, decline and undo and the row each leaves |
| `SalienceDecisions.PassDecidesExactly` | backend/app/ambient/salience.py:346-392 | each row is re-judged exactly if it is a missed, never judged real-time delivery, among the first of these up to the limit, not muted, urgent or recurrent enough, and judged at all; what auto and propose mode then make of it |
| `SalienceDecisions.DecisionsDecideExactly` | backend/app/ambient/salience.py:242-303 | when each decision succeeds, repeats or conflicts, and what it leaves of the row |
| `SalienceDecisions.NoRecordNoDecision` | backend/app/ambient/salience.py:251-254 | a decision on a row that was never judged is a conflict |
| `SalienceModel.CandidatesAre` | backend/app/ambient/salience.py:355-371 | the pass takes the most urgent missed, never judged rows up to its limit and skips no more urgent one |
| `SalienceModel.PassNeverInterrupts` | backend/app/ambient/salience.py:87-102 | the pass touches only missed real-time deliveries, delivers nothing and marks nothing seen |
| `SalienceModel.FirstDecisionWins` | backend/app/ambient/salience.py:257-277 | replaying a decision is a no-op, contradicting it is refused, only an applied one can be undone |
| `SalienceModel.UndoRestores` | backend/app/ambient/salience.py:276-303 | apply then undo gives the row back but for its record |
| `SalienceModel.EscalationFreesBudget` | backend/app/ambient/salience.py:155-160 | an escalated interrupt no longer counts against its day's budget |
| `DeliveryHistory.DeliveriesBalance` | backend/app/ambient/deliver.py:291-321 | under every interleaving, overlap and crash: marks and undone pull-backs balance pull-backs and the present delivery |
| `DeliveryHistory.NewRowIsBalanced` | backend/app/ambient/deliver.py:126-189 | every inserted row starts balanced |
| `DeliveryHistory.RedeliveryExactly` | backend/app/ambient/salience.py:138-167 | for every reachable state, over all interleavings, overlaps and crashes: exactly when a delivered row can be delivered again |
| `DeliveryHistory.SecondRealTimeExactly` | backend/app/ambient/deliver.py:291-321 | for every reachable state: exactly when a delivered row can reach its human in real time again |
| `DeliveryHistory.LifetimeHistory` | backend/app/ambient/salience.py:138-167 | while no escalation takes back a digest's delivery or one a real-time batch still holds: one delivery, and after an escalation one more by a digest |
| `DeliveryHistory.SafeExactly` | backend/app/ambient/salience.py:155-160 | that guard is exact: an escalation meets it if and only if the history stays so however it goes on |
| `DeliveryHistory.UndoGivesBackADelivery` | backend/app/ambient/salience.py:276-293 | in every run an undone escalation gives back a delivery the row had, unless what is undone had found the row pulled back already |
| `DeliveryHistory.OverlappingAppliesDigestTwice` | backend/app/ambient/salience.py:247-265 | two overlapping applies send the row into two digests |
| `DeliveryHistory.CrashedApplyDigestsTwice` | backend/app/ambient/salience.py:262-265 | so do two applies in sequence when the first dies before it closes the record |
| `DeliveryHistory.StaleBatchNotifiesTwice` | backend/app/ambient/deliver.py:302-320 | a batch marked after an escalation notifies a second time |
| `DeliveryHistory.FlushIsSteps` | backend/app/ambient/deliver.py:388-433 | what a flush does to a pending row is a run of the history's steps |
| `DeliveryHistory.DecisionIsSteps` | backend/app/ambient/salience.py:242-303 | an uninterrupted decision is its three transactions in a row |
| `DeliveryHistory.PassIsSteps` | backend/app/ambient/salience.py:346-392 | so is an uninterrupted judgement of the pass, which acts only in auto mode |
| `DeliveryHistory.InsertIsSteps` | backend/app/ambient/deliver.py:169-184 | what an insert does to an earlier row is nothing or one step of its history |
| `DeliveryHistory.SeenAndDropped` | backend/app/ambient/deliver.py:291-321 | a batch that dies before it is marked leaves the row as it is, and seeing a row only marks it |
| `PolicyLedger.CurrentPolicy` | backend/app/ambient/deliver.py:100-123 | one newest-first scan finds the owner's newest applied row, else the newest global one |
| `LearningDecisions.OverrideDecidesExactly` | backend/app/ambient/deliver.py:100-123 | the override of the owner's newest applied row, else of the newest applied row of nobody, else none |
| `PolicyLedger.RevertClearsExactly` | backend/app/api/ambient.py:534-546 | a revert clears the override exactly for owners without an applied row of their own |
| `PolicyLedger.ProposalsAreInert` | backend/app/ambient/deliver.py:111-115 | a proposal changes nothing in effect |
| `Retention.PolicyTable.Purge` | backend/app/retention.py:150-175 | the batch loop ends, deletes exactly the eligible rows and counts them |
| `Retention.EligibilityIsStable` | backend/app/retention.py:81-92 | deleting eligible rows makes no other row eligible and leaves the rest of them so |
| `Retention.PurgeKeepsPolicyExactly` | backend/app/retention.py:81-92 | the policy in effect survives exactly when it is inside the window or no proposal in its lineage is newer |
| `Retention.AnchorSurvives` | backend/app/ambient/learn.py:266-290 | the newest row of a category, the digest anchor among them, always survives |
| `Retention.PolicyAfterPurge` | backend/app/retention.py:81-92 | what a purge leaves in effect: the owner's surviving newest applied row, else the global one, else nothing |
| `Retention.OpenProposalCostsThePolicy` | backend/app/retention.py:81-92 | an old applied override under an open proposal is lost, and no override is left |
| `Learning.Learner.ApplyPolicy` | backend/app/ambient/learn.py:41-75 | an override below 1 is refused, anything else is appended |
| `LearningDecisions.AppendDecidesExactly` | backend/app/ambient/learn.py:41-75 | what is refused, and the row that is appended otherwise |
| `Learning.Learner.LearnRetiers` | backend/app/ambient/learn.py:226-253 | one pass over every category's signal |
| `LearningDecisions.RetiersDecideExactly` | backend/app/ambient/learn.py:226-253 | exactly one row for each category whose tier must move, applied for the owner or proposed |
| `Learning.Learner.LearnDigestTimes` | backend/app/ambient/learn.py:305-387 | votes for the nearest slot, cluster means, the clamp, auto and propose mode, and the error of an unusable anchor |
| `LearningDecisions.DigestTimesDecideExactly` | backend/app/ambient/learn.py:305-387 | when a pass moves the slots, by what votes and against which anchor, and what it ledgers |
| `Learning.Learner.LearnBar` | backend/app/ambient/learn.py:457-487 | the judge bar of one watch moves by one or stays |
| `LearningDecisions.BarDecidesExactly` | backend/app/ambient/learn.py:457-487 | when the bar rises, falls or stays, and what is ledgered |
| `Learning.FillBuckets` | backend/app/ambient/salience_learn.py:76-83 | per category with a decided verdict one bucket of its newest twenty |
| `LearningDecisions.BucketsHoldTheNewest` | backend/app/ambient/salience_learn.py:76-83 | place by place, which verdict a bucket holds |
| `Learning.Learner.RunTuner` | backend/app/ambient/salience_learn.py:86-148 | mutes, then at most one floor move over the un-muted mix |
| `LearningDecisions.TunerDecidesExactly` | backend/app/ambient/salience_learn.py:86-148 | exactly which categories are muted and when the floor rises, falls or stays |
| `Learning.Learner.Approve` | backend/app/ambient/learn.py:105-124 | an approval applies what the proposal carries and ledgers it |
| `LearningDecisions.ApprovalDecidesExactly` | backend/app/ambient/learn.py:105-124 | what each kind of proposal sets, and the row that is ledgered |
| `LearningDecisions.ApprovalOfNothing` | backend/app/ambient/learn.py:105-110 | an approval of anything but an open proposal is refused |
| `Learning.Learner.Reject` | backend/app/ambient/learn.py:127-152 | a rejection re-marks the open proposal and nothing else |
| `LearningDecisions.RejectionDecidesExactly` | backend/app/ambient/learn.py:127-152 | exactly one mark changes |
| `Learning.Learner.ApplyPrecisionRule` | backend/app/ambient/deliver.py:580-634 | enough imprecise items demote the category by one tier, never past 3 |
| `LearningDecisions.PrecisionDecidesExactly` | backend/app/ambient/deliver.py:580-634 | the counts and the tiers between which the demotion acts |
| `Learning.Nearest` | backend/app/ambient/learn.py:341 | the nearest slot, the first among equals |
| `LearnerRuns.LearnersStayInBounds` | backend/app/ambient/learn.py:226-253 | over any run every ledgered override is empty or in 1..3, the salience floor is where a person put it or in 2..5, proposed floors and judge bars lie in 2..5 |
| `LearningDecisions.RunStepsExactly` | backend/app/ambient/learn.py:226-253 | each step of such a run is the learner's pass itself, and what a person configures takes effect |
| `LearnerRuns.TimesRoundTrip` | backend/app/ambient/learn.py:256-263 | formatting then parsing gives the minute of the day |
| `LearnerRuns.ParsedTimesRoundTrip` | backend/app/ambient/learn.py:256-263 | a written time of the day, once parsed, is formatted as it was |
| `LearnerRuns.ShiftStaysNearExactly` | backend/app/ambient/learn.py:345-353 | a shifted slot stays within two hours of its anchor, without a wrap, exactly for anchors before 26:00 |
| `LearnerRuns.DigestTimesStayNearAnchor` | backend/app/ambient/learn.py:330-355 | over any run each slot is where a person put it or within two hours of the ledgered anchor, while the counts match |
| `LearnerRuns.DriftGoesOn` | backend/app/ambient/learn.py:331-332 | with another number of slots than the anchor's, k passes can move a slot by 2k hours |
| `LearnerRuns.RevertedAnchorIsUnusable` | backend/app/ambient/learn.py:282-283 | reverting the anchor releases the clamp, or makes the pass fail |
| `LearnerRuns.RetierTakesEffect` | backend/app/ambient/learn.py:226-253 | auto mode moves exactly one tier at once for the owner, propose mode changes nothing for anybody |
| `LearnerRuns.ApprovalIsGlobal` | backend/app/ambient/learn.py:78-124 | an approved proposal becomes a row without an owner, whoever it was learned from |
| `RegexGuard.CheckPattern` | backend/app/ambient/regex_guard.py:32-72 | the checks in order; the loop is the scan |
| `RegexVerdicts.BackreferenceExactly` | backend/app/ambient/regex_guard.py:40-41 | the texts the search for backreferences finds |
| `RegexVerdicts.NumberedAreCaught` | backend/app/ambient/regex_guard.py:40-41 | no numbered backreference passes, wherever it stands |
| `RegexVerdicts.LiteralBackslashIsRefused` | backend/app/ambient/regex_guard.py:40-41 | the converse fails: a literal backslash before a digit is refused |
| `RegexGuard.ScanIsExact` | backend/app/ambient/regex_guard.py:42-72 | the scan refuses a balanced pattern exactly when a group at any depth holds an active repetition and is directly followed by one |
| `RegexGuard.BalancedIsShown` | backend/app/ambient/regex_guard.py:56-70 | a balanced pattern has exactly one bracket structure |
| `RegexGuard.PrintedTreesAreJudgedRight` | backend/app/ambient/regex_guard.py:8-11 | a printed regex syntax tree passes exactly when no repeated group contains a repetition |
| `PythonRegex.CleanPatternsAreJudgedRight` | backend/app/ambient/regex_guard.py:42-72 | on every clean pattern Python reads to its end, the scan refuses exactly those in which a repeated group, as Python reads it, contains a repetition |
| `RegexCases.BracketFirst` | backend/app/ambient/regex_guard.py:53-57 | `(a+[])])+` slips through: a `]` that opens a class |
| `RegexCases.BracketAfterCaret` | backend/app/ambient/regex_guard.py:53-57 | `(a+[^])])+` slips through: a `]` after the caret of a class |
| `RegexCases.CommentBetween` | backend/app/ambient/regex_guard.py:60-66 | `(a+)(?#)+` slips through: a comment between group and quantifier |
| `RegexCases.BracketInComment` | backend/app/ambient/regex_guard.py:56-57 | `(a+(?#[))+` slips through: a bracket in a comment |
| `RegexCases.BlankBetween` | backend/app/ambient/regex_guard.py:60-66 | `(?x)(a+) +` slips through: a blank in verbose mode |
| `RegexCases.LiteralBrace` | backend/app/ambient/regex_guard.py:69-70 | `(a{)+` is refused wrongly: a brace that opens no count |
| `RegexCases.NamedCharacter` | backend/app/ambient/regex_guard.py:49-52 | `(\N{OX})+` is refused wrongly: the braces of a named character |
| `RegexCases.PossessiveMark` | backend/app/ambient/regex_guard.py:69-70 | `((a)?+)*` is refused wrongly: the possessive mark of an optional item |
| `Retrieval.RrfFuse` | backend/app/retrieval.py:99-106 | accumulating and sorting gives the fused order |
| `Retrieval.FusionRespectsUnanimity` | backend/app/retrieval.py:99-106 | every index once, and i before j whenever no ranking disagrees and one prefers it |
| `Retrieval.FusingOneIsIdentity` | backend/app/retrieval.py:99-106 | a single ranking is unchanged |
| `RetrievalDecisions.FusionDecidesExactly` | backend/app/retrieval.py:99-106 | one index comes before another exactly if its places are worth more, or as much and it is the smaller |
| `Retrieval.RankRecords` | backend/app/retrieval.py:109-130 | the order from whichever score lists say something |
| `Retrieval.RelevanceRespectsScores` | backend/app/retrieval.py:116-130 | a permutation in which a record ahead on every compared score comes first |
| `RetrievalDecisions.RelevanceDecidesExactly` | backend/app/retrieval.py:109-130 | which of two records comes first, from the scores alone: neither list, one or both |
| `Retrieval.ApplyRetrieval` | backend/app/retrieval.py:188-267 | identity below the threshold, disabled or without a query; else the chosen records and the exact drop count |
| `Retrieval.GateKeepsTopAndPinned` | backend/app/retrieval.py:249-267 | catalog order, the whole top K, every pinned record, nothing else |
| `RetrievalDecisions.ShownExactly` | backend/app/retrieval.py:188-267 | a record is shown exactly if it is pinned or among the first of the relevance order, a stale or missing vector counting as none |
| `RateLimit.RateBuckets.Allow` | backend/app/ratelimit.py:25-51 | refill, spend, write back at the caller's time |
| `RateLimit.RateBuckets.EvictIdle` | backend/app/ratelimit.py:54-61 | exactly the buckets idle for longer are dropped, and counted |
| `RateGrants.EvictedExactly` | backend/app/ratelimit.py:54-61 | a bucket is dropped exactly if its last call is more than an hour ago |
| `RateLimit.TokensStayInRange` | backend/app/ratelimit.py:36-43 | tokens stay within 0 and burst |
| `RateLimit.GrantsAreBounded` | backend/app/ratelimit.py:25-61 | for monotone calls a stretch of length T grants at most burst + rate·T, with evictions as long as burst is at most 3600·rate |
| `RateGrants.GrantedExactly` | backend/app/ratelimit.py:25-51 | a request is granted if and only if it keeps the bound on every stretch that starts at an earlier call on its bucket, told from the answers alone |
| `RateLimit.EvictionIsInvisible` | backend/app/ratelimit.py:54-61 | a run answers as the same run without evictions does |
| `RateLimit.EvictionInvisibleExactly` | backend/app/ratelimit.py:25-61 | every run answers as it does without evictions if and only if burst is at most 3600·rate or less than one token |
| `RateLimit.RefilledWhileIdleExactly` | backend/app/ratelimit.py:54-61 | every bucket is full again when it may be evicted if and only if burst is at most 3600·rate |
| `RateLimit.ClockSteppingBackExceedsTheBound` | backend/app/ratelimit.py:39-44 | the bound needs monotone call times |
| `Sources.Dedupe` | backend/app/ambient/sources.py:85-101 | the unseen items in order and the window rolled forward |
| `SourceDecisions.ReturnedExactly` | backend/app/ambient/sources.py:78-101 | exactly the items whose name is neither remembered nor borne by an earlier one, in order |
| `SourceDecisions.PollDecidesExactly` | backend/app/ambient/sources.py:85-101 | what a poll stores, and which twenty of its items it hands on |
| `WatermarkText.WindowReadsBack` | backend/app/ambient/sources.py:68-101 | the stored text of a window is read back as that window, whatever characters its keys hold |
| `WatermarkText.WrittenExactly` | backend/app/ambient/sources.py:101 | how each character of a key is written, and so how much of the column it takes |
| `Sources.WindowIsHistoryTail` | backend/app/ambient/sources.py:85-101 | the window is the tail of everything the stored polls returned, for every width of the column |
| `Sources.ReturnOnlyAfterCapOthers` | backend/app/ambient/sources.py:85-101 | stored polls return a key again only after 100 other distinct keys, for every width of the column |
| `Sources.WindowStaysBounded` | backend/app/ambient/sources.py:99-101 | at most 100 keys, no repeats |
| `Sources.PollGoesThroughExactly` | backend/app/models/ambient.py:132 | with the deployed column a poll with new items is stored exactly when everything returned so far and they fit it |
| `Sources.ColumnBoundsTheLife` | backend/app/models/ambient.py:132 | no key is ever returned twice, and at most 51 are returned in all; 12 of sixteen characters |
| `Sources.LifeBoundIsAttained` | backend/app/models/ambient.py:132 | a watch that returns 51 |
| `Sources.OverflowIsSkipped` | backend/app/ambient/triggers.py:242-252 | an item returned past the twentieth of a poll is never handed on, whatever is polled afterwards |
| `Sources.TheTwentyFirstIsSkipped` | backend/app/ambient/triggers.py:252 | and there are such items: the last of twenty-one with short keys |
| `Polling.Poller.Check` | backend/app/ambient/triggers.py:208-260 | one watch at one tick, branch by branch |
| `PollingDecisions.TickDecidesExactly` | backend/app/ambient/triggers.py:208-251 | when a watch expires, is asked, resets, backs off or is left alone, and with which interval |
| `Polling.Poller.PollDue` | backend/app/ambient/triggers.py:191-261 | exactly the watches visited with no refused commit before them or at them take their step, and what is handed on is counted |
| `PollingDecisions.PassDecidesExactly` | backend/app/ambient/triggers.py:191-251 | exactly the watches named with no refused commit before them or at them take their tick |
| `PollingDecisions.HandedIsTheSum` | backend/app/ambient/triggers.py:252-261 | up to twenty items of each stored poll are handed on |
| `Polling.IntervalNeverShrinksWhileQuiet` | backend/app/ambient/triggers.py:241-250 | the interval stays between base and maximum and never shrinks while quiet |
| `PollingDecisions.QuietPollsBackOff` | backend/app/ambient/triggers.py:245-250 | with a whole multiplier m, k quiet polls make the interval m^k times as long, up to the maximum |
| `Polling.PollsAreSpaced` | backend/app/ambient/triggers.py:220-230 | stored polls are at least a base interval apart |
| `Polling.AskedAgainExactly` | backend/app/ambient/triggers.py:229-251 | a source is asked again within the base interval exactly when it failed or its watermark was refused |
| `Polling.PolledNearDeadlineAmongOthers` | backend/app/ambient/triggers.py:213-230 | with passes at most twice the base apart, a working source and no refused commit before it, an expiring watch among any others was polled within base + gap of its deadline |
| `Polling.EachWatchRunsItsServedTicks` | backend/app/ambient/triggers.py:208-251 | in any run of passes a watch is the watch on its own over the passes in which it is served |
| `Polling.OneJamStarvesAll` | backend/app/ambient/triggers.py:232-251 | a watch listed first whose watermark never fits keeps every other one unpolled for good |
| `Polling.ThirteenItemsJam` | backend/app/models/ambient.py:132 | thirteen new items without ids are such a watermark |
| `Ingest.AgentTools.IngestCard` | backend/app/a2a/manager.py:224-290 | a card over the tool rows: project, then mark what it dropped |
| `IngestDecisions.CardDecidesExactly` | backend/app/a2a/manager.py:224-290 | every field of every earlier row after a card |
| `IngestDecisions.SkillDecidesExactly` | backend/app/a2a/manager.py:236-268 | which skill adds a row, and under which key |
| `IngestDecisions.NewRowsStay` | backend/app/a2a/manager.py:283-289 | the keys a card starts from, and that its new rows are not marked as dropped |
| `Ingest.AgentTools.RefreshAgent` | backend/app/a2a/manager.py:155-215 | a failed fetch puts the agent in error, a good one recovers it |
| `IngestDecisions.FetchDecidesExactly` | backend/app/a2a/manager.py:155-215 | the status after a fetch |
| `Ingest.AgentTools.PatchAgent` | backend/app/api/remote_agents.py:144-176 | an agent's tools follow its status |
| `IngestDecisions.StatusDecidesExactly` | backend/app/api/remote_agents.py:144-176 | exactly which rows stop and start with their agent |
| `Ingest.RefreshRows` | backend/app/a2a/manager.py:230-290 | each row takes exactly one of two steps, listed or unlisted; a shadowed row none |
| `Ingest.NewNamesAreFree` | backend/app/a2a/manager.py:236-253 | new rows go by names no other tool has |
| `IngestRuns.ActiveIffWantedAndListed` | backend/app/a2a/manager.py:271-289 | over any run, active exactly if the operator's last setting is on and the latest card lists it |
| `IngestRuns.NewToolIsInStep` | backend/app/a2a/manager.py:248-265 | a tool a card brings starts wanted, listed and active |
| `IngestRuns.OnlyTogglesDecide` | backend/app/a2a/manager.py:271-289 | for toggles at any time: exactly which switch-offs are honoured |
| `IngestRuns.ComingsAndGoingsCancel` | backend/app/api/remote_agents.py:147-176 | cards and agents end by undoing exactly what they did |
| `IngestRuns.RefreshesReviveNothing` | backend/app/toolschema.py:103-121 | refreshes never revive deleted or agent-held rows and never change an operator's wording |
| `IngestRuns.InactiveSurvivesExactly` | backend/app/a2a/manager.py:208-212 | an operator's inactive survives exactly while no fetch fails |
| `IngestRuns.RestoreAfterReturnStaysOff` | backend/app/a2a/manager.py:279-282 | a row relisted while deleted and then restored stays out of service |
| `IngestRuns.StoppedRowsAreStranded` | backend/app/api/remote_agents.py:153-176 | rows stopped with the agent stay out after a failed and a good fetch |
| `IngestRuns.OffWhileGoneIsForgotten` | backend/app/a2a/manager.py:279-280 | a switch-off while the skill is gone is undone by its return |

## Left out

- Redis cache mode: its staleness is bounded only by the TTL, and the store itself is not visible.
- The transports behind the logic (SQLAlchemy, asyncpg, LISTEN/NOTIFY, HTTP, SMTP, SSE, metrics, logs): atomic steps, or an environment that may lose messages.
- LLM judges, compilers, memory extraction and embeddings: oracles; retained memories and their deletion on undo are not modelled.
- BM25, cosine and float rounding: scores are any exact reals, so only ordering and fusion are covered.
- Cron evaluation, time zones and daylight saving: quiet hours and digests take the second of the local day and the local midnight as inputs.
- Coherence.ServedRowsAreYoung: bypass mode reads the database directly and is not a cache; the re-read of the mode after a settings invalidation is an arbitrary mode flip.
- Drain.LaunchedOnce: at most once, not at least once, because a drain cut off after its commit leaves a fired event without its executor.
- EventStoreModel.CascadeGuardsHold: emits are serialized, because the kill switch and the dedupe check read and insert without a lock of their own.
- PatternRuns.EngineInvariants: one process, fixed rules, ambient mode on; two replicas advancing the same rule at once are not covered. The same holds of `Reclaims`.
- DeliveryRuns.BudgetsHold: passes over one bucket do not overlap and salience is off, because an escalation gives an interrupt of the day back to the budget (`SalienceModel.EscalationFreesBudget`).
- DeliveryRuns.KeysStayCollapsed: salience is off, because an escalation makes an old row live again; the collapse itself ignores owners, as the code does.
- The loop over owner buckets in `flush_deliveries` and the overlay of a user's preferences: each bucket's pass takes its effective settings as input.
- PolicyLedger.CurrentPolicy: rows with the same `created_at` count in creation order.
- Learning.Learner.LearnRetiers: mean rewards are exact reals; the review items that proposals add to the outbox are not modelled.
- Learning.Learner.Approve: proposals that set memory settings are not part of this model.
- Polling.Poller.PollDue: the event store is assumed to take every item handed to it.
- PythonRegex.CleanPatternsAreJudgedRight: backreferences by name are errors of the reading, because the guard refuses them before it scans; what Python refuses to compile is read more liberally.
- DeliveryHistory.DeliveriesBalance: counts marks; that a crash between dispatch and mark dispatches twice is the documented choice of `backend/app/ambient/deliver.py:291-298`.
- Ingest.AgentTools.IngestCard: the schema of a remote-agent tool is a constant, so schema drift, quarantine and acknowledgement do not arise; MCP ingest is not part of this model.
- `coordinate.py`, `jobclock.py`, `wakeups.py`, `presence.py`, `cost.py`, settings, auth and routers: they would add only easy members.
