# Caracal: a verified model of the operator and delivery cores

Caracal's operator turns a proposed plan into governed changes: a validator admits the plan, an
executor carries it out in dependency waves under a renewable lock, and everything that happened is
replayed from ledgers. Around it sit an outbox that delivers events at least once, receipts that make
mutations idempotent, a limiter for concurrent runs, a diagnostics cache, a policy scanner and a model
gateway with failover. This project models those parts in Dafny and proves what they are relied on for.

`dafny verify dfyconfig.toml` checks the whole project.

## How the model is laid out

| part | files |
|---|---|
| Plans | `StepReferences`, `DependencyGraph`, `CycleSearch`, `PlanValidator`, `DependencyWaves`, `ValidatedPlans` |
| Execution | `GovernedExecutor`, `ResumedExecution`, `ResumedOutputs`, `AppliedOrder`, `ProducedReferences`, `ExecutionLease`, `LeasedExecution`, `RunLimiter` |
| Delivery | `Outbox`, `DuplicateSends`, `Abandonment`, `IdempotencyReceipts`, `ReceiptCap`, `CanonicalJson` (with `CodeUnits`, `NumberText`, `QuotedText`) |
| Replay | `TurnLedger`, `ConversationMemory`, `MessageRun` |
| Edges | `DiagnosticsCache`, `RegoScanner`, `ProviderGateway`, `UsageLedger` |
| Shared | `Prelude`, `Sorting` |

Code that updates fields is a class or a method with a loop, proved against a function of its input or
old state. Protocols between several processes are state machines: a `State`, an `Event`, a guard
`Enabled`, a function `Step`, and theorems over every sequence of states that follows it, so over every
interleaving, crash and lost answer the events allow. The class methods and the state machine share the
same functions, so the objects are the participants of the protocol.

Where a property holds only under a condition, the condition is stated and its other side is a theorem
too: `LateMutationOverlaps`, `HungRenewalOverruns`, `ExpiredLockSendsTwice`, `LostAnswerSendsTwice`,
`AbandonedComesBack`, `IncompatibleRingsDouble`, `CapReached`, `ReadOvertakesWrite` and `ServedAcrossChange`
give the run on which it fails, and `FinishedInPlanOrder`, `ServedCurrent`, `RecordingExact`,
`AbandonmentExact`, `RotationExact`, `CapExact`, `CompletionTimeKept`, `CauseStops` and `FactMeansDecided`
say when exactly it holds.

## What is taken as given

- Clocks, random numbers, network and database answers are parameters or events; a lost answer leaves
  open whether the request took effect.
- A SQL statement and a Redis script are atomic. `now()` is fixed inside a transaction.
- SHA-256 and HMAC digests of different inputs differ. The advisory lock's hash may collide: the
  receipts are proved for an arbitrary lock function.
- Owner tokens and row ids are fresh. Turns of one conversation have distinct sequence numbers.
- Numbers in a request are JavaScript doubles given by their shortest digits, printed as section
  6.1.6.1.20 of ECMA-262 lays them out; strings are UTF-16 code units, and lone surrogates are escaped.
- Providers of one gateway are separate objects even when their settings agree, so an order is a list
  of positions.

## Where comments and code differ

The model follows the code.

- `apps/api/src/operator-governed-execute.ts:36-38` describes the applied steps as being in plan order.
  The code lists them wave by wave, and in a wave the reads before the writes: `ReadOvertakesWrite` is a
  plan on which the two differ, and `FinishedInPlanOrder` says for which plans they agree.
- `apps/auth/src/console.ts:293-296` says a report computed across a change is not served. The code
  serves it once, to requests that were already waiting; it is never stored or served to a later one.
  `ServedAcrossChange` is such a run, and `ServedCurrent` says exactly when a served report is current.
- `apps/api/src/operator-run-limiter.ts:113-114` promises that model work does not outlive its last lease.
  The code sets no deadline on a renewal, so a renewal that never answers lets the run go on;
  `OverrunMeansStale` and `HungRenewalOverruns` state what does hold.

## Model

| member | source | states |
|---|---|---|
| `StepReferences.PrintThenParse` | apps/api/src/operator-capabilities.ts:886-901 | printing a reference and parsing it returns both parts, even when the step id itself contains `.outputs.` |
| `StepReferences.ParseThenPrint` | apps/api/src/operator-capabilities.ts:886-901 | whatever parses is the print of a well-formed step id and output key |
| `StepReferences.ParseExact` | apps/api/src/operator-capabilities.ts:886-901 | the parser accepts exactly the pattern's language, with one reading per string |
| `StepReferences.CollectFieldsExact` | apps/api/src/operator-capabilities.ts:903-918 | a reference is collected if and only if it occurs somewhere in the nested arguments |
| `StepReferences.WalkFieldsExact` | apps/api/src/operator-governed-execute.ts:87-104 | the walk keeps the first missing reference in reading order and otherwise is the simultaneous substitution |
| `StepReferences.ResolveExact` | apps/api/src/operator-governed-execute.ts:78-106 | resolution succeeds if and only if every reference has a produced value, substitutes each where it stands, and otherwise names the first one without a value |
| `DependencyGraph.StuckIsCyclic` | apps/api/src/operator-governed-execute.ts:108-122 | a non-empty set in which every step waits on another of the set contains a cycle |
| `DependencyGraph.LongestChain` | apps/api/src/operator-governed-execute.ts:108-122 | a tight level is the length of the longest dependency chain below the step, and such a chain exists |
| `DependencyGraph.TightIsLowest` | apps/api/src/operator-governed-execute.ts:108-122 | no schedule that respects the dependencies runs a step earlier than a tight level does |
| `DependencyWaves.GroupIntoWaves` | apps/api/src/operator-governed-execute.ts:112-122 | the loop gives up if and only if the plan is cyclic; otherwise wave k holds exactly the steps of tight level k, in plan order, and no wave is empty |
| `DependencyWaves.WavesPartition` | apps/api/src/operator-governed-execute.ts:112-122 | the waves hold every step of the plan once and nothing else |
| `DependencyWaves.WaveNumber` | apps/api/src/operator-governed-execute.ts:108-122 | a step's wave is the length of the longest chain of in-list dependencies below it |
| `DependencyWaves.FewestWaves` | apps/api/src/operator-governed-execute.ts:108-122 | no layering of the plan gets by with fewer waves |
| `CycleSearch.Search.Visit` | apps/api/src/operator-capabilities.ts:1088-1102 | a visit that finds nothing leaves its node finished after all it depends on and restores the stack; one that finds something names a node on a cycle |
| `CycleSearch.FindCycle` | apps/api/src/operator-capabilities.ts:1088-1113 | the depth-first search names a node if and only if the graph is cyclic, and that node lies on a cycle |
| `PlanValidator.CheckReferences` | apps/api/src/operator-capabilities.ts:1015-1037 | exactly the references without a plan step that declares the output are reported; exactly the others become dependencies |
| `PlanValidator.SplitDependencies` | apps/api/src/operator-capabilities.ts:1072-1086 | exactly the dependencies outside the plan are reported; the edges are exactly those on validated steps |
| `PlanValidator.CheckDependencies` | apps/api/src/operator-capabilities.ts:1067-1114 | reports every unknown dependency and nothing else, and a cycle if and only if the validated steps have one |
| `PlanValidator.CheckStep` | apps/api/src/operator-capabilities.ts:995-1048 | a step goes on exactly when its capability exists and its arguments pass; everything wrong with it is reported and every report is true |
| `PlanValidator.CheckSteps` | apps/api/src/operator-capabilities.ts:984-1049 | over all steps: the first of each id goes on, normalized, if it is recognized; every repeated id and every fault is reported; no report exactly for a clean plan |
| `PlanValidator.ValidateProposedPlan` | apps/api/src/operator-capabilities.ts:979-1061 | a plan is accepted if and only if its steps are sound, every dependency is in the plan and the graph is acyclic; every fault is reported, every diagnostic is true, and a cycle diagnostic appears exactly for a cycle |
| `ValidatedPlans.NeverStuck` | apps/api/src/operator-governed-execute.ts:108-122 | any part of an accepted plan can still be ordered, so the executor's refusal branch is dead on a resumed plan |
| `ValidatedPlans.ReferenceResolved` | apps/api/src/operator-capabilities.ts:972-978 | in an accepted plan a reference is a dependency on a step whose capability declares that output |
| `ValidatedPlans.ReferenceComesEarlier` | apps/api/src/operator-governed-execute.ts:163-172 | in any remainder of an accepted plan a referenced step was applied before or sits in a strictly earlier wave |
| `ValidatedPlans.ValidateAndSchedule` | apps/api/src/operator-governed-execute.ts:108-122 | the validator's search and the executor's grouping reach the same verdict on every plan |
| `GovernedExecutor.ReportIsHonest` | apps/api/src/operator-governed-execute.ts:126-161 | a step reported as applied was sent with all references substituted and succeeded; a failure not marked terminal left no effect |
| `GovernedExecutor.ReadFailureIsFirst` | apps/api/src/operator-governed-execute.ts:206-211 | the failure kept from a wave's reads is that of the first read that did not succeed, and there is none exactly when all succeeded |
| `GovernedExecutor.ReadsHarmless` | apps/api/src/operator-governed-execute.ts:163-167 | reads leave nothing on the control plane, whatever is answered |
| `GovernedExecutor.RunReads` | apps/api/src/operator-governed-execute.ts:206-211 | the loop records exactly the reads that succeed, in order, all of them resolved against the outputs the wave started with |
| `GovernedExecutor.WriteIsGuarded` | apps/api/src/operator-governed-execute.ts:217-243 | nothing reaches the control plane without a fresh confirmation of the lock; a write is applied exactly when the lock was held and the control plane accepted it; any other write that left an effect is reported as uncertain |
| `GovernedExecutor.WriteStep` | apps/api/src/operator-governed-execute.ts:217-243 | one write leaves nothing on the control plane without a fresh confirmation of the lock, is applied exactly when the lock was held and the control plane accepted it, and stops the run only for a cause found at one of its own moments |
| `GovernedExecutor.RunWrites` | apps/api/src/operator-governed-execute.ts:217-243 | the writes of a wave are tried one at a time in plan order, up to the first that stops the run |
| `GovernedExecutor.RunWave` | apps/api/src/operator-governed-execute.ts:201-243 | whatever was accounted for before a wave is accounted for after it together with the steps it applied and at most one step marked as uncertain; no write is applied unless every read of its wave succeeded; a wave that stops was given a cause |
| `GovernedExecutor.RunWaves` | apps/api/src/operator-governed-execute.ts:201-245 | the waves run in order up to the first that does not go through |
| `GovernedExecutor.AccountedMeans` | apps/api/src/operator-governed-execute.ts:163-172 | what the account of a run says: results name the applied steps in order, the outputs are theirs, and there is one effect per applied mutating step, every reference in it bound to what the steps before it produced |
| `GovernedExecutor.WaveAccounted` | apps/api/src/operator-governed-execute.ts:201-243 | whatever ends a wave, its effects are those of the applied steps, plus at most one step the result marks as uncertain |
| `GovernedExecutor.StopsForCause` | apps/api/src/operator-governed-execute.ts:201-243 | no wave stops without a cause of its own: the lock was found lost at a moment the executor asked for it in this wave, before the step the result names, or the control plane refused that very step on the outputs it was given, the first refused read of the wave or the write the series had come to |
| `GovernedExecutor.CauseStops` | apps/api/src/operator-governed-execute.ts:201-243 | conversely every such cause stops the wave: nothing is scheduled past a lost lock or a refusal |
| `GovernedExecutor.Execute` | apps/api/src/operator-governed-execute.ts:173-246 | a cyclic list is refused untouched; any other run either applied the whole plan in wave order, or stopped, for a cause found in the wave it stopped in, with an initial part of the waves applied and accounted for |
| `AppliedOrder.ReadOvertakesWrite` | apps/api/src/operator-governed-execute.ts:201-243 | a write listed before an independent read is applied after it |
| `AppliedOrder.FinishedInPlanOrder` | apps/api/src/operator-governed-execute.ts:201-243 | a finished run applied the plan in plan order if and only if the plan lists its steps by wave and, in a wave, reads before writes |
| `AppliedOrder.StoppedInPlanOrder` | apps/api/src/operator-governed-execute.ts:201-243 | the same for a run that stopped: its applied steps are in plan order if and only if no two of them are listed against that order |
| `AppliedOrder.RankedPlanStaysInOrder` | apps/api/src/operator-governed-execute.ts:201-243 | so a plan listed that way is applied in plan order however far a run gets |
| `ProducedReferences.NeverUnproduced` | apps/api/src/routes/operator.ts:1986-1999 | over an accepted plan, or a remainder of one with recorded outputs, no run stops because an output was not produced, as long as every accepted reply carries the outputs its capability declares |
| `ResumedExecution.AppliedIsDependencyClosed` | apps/api/src/operator-governed-execute.ts:163-172 | at every stop the applied steps contain, earlier in the list, every in-list dependency of each of them |
| `ResumedExecution.ReachedIsPart` | apps/api/src/operator-governed-execute.ts:201-243 | no step is applied twice in a run, and the step left in doubt is not among the applied ones |
| `ResumedExecution.RemainingComplements` | apps/api/src/routes/operator.ts:1978-1984 | applied and remaining steps together are the plan, each step once |
| `ResumedExecution.RunAttempt` | apps/api/src/operator-governed-execute.ts:173-246 | one run over any list of steps with distinct ids keeps the account that resumption builds on: what it applied is a part of the list in dependency order, and its effects are those of the applied steps and at most one step in doubt |
| `ResumedExecution.AtMostOnce` | apps/api/src/routes/operator.ts:1940-1984 | over any number of resumed runs every mutating step takes effect at most once, and exactly once when the last run finishes |
| `ResumedOutputs.SameArgs` | apps/api/src/operator-governed-execute.ts:78-106 | a step whose references resolve sends the same arguments when more outputs are known |
| `ResumedOutputs.AccountsJoin` | apps/api/src/operator-governed-execute.ts:163-182 | two runs in a row, the second starting with the outputs of the first, are one run over both lists of applied steps |
| `ResumedOutputs.CampaignIsOneRun` | apps/api/src/routes/operator.ts:1940-1984 | a campaign of resumed runs, each given only recorded outputs, leaves what one run over all its applied steps leaves |
| `ResumedOutputs.CampaignOrder` | apps/api/src/routes/operator.ts:1940-1984 | over a campaign no step is applied twice and each is applied after the plan steps it depends on, in whichever runs that was |
| `ResumedOutputs.ReferencesAcrossRuns` | apps/api/src/routes/operator.ts:1956-1984 | every mutation of a campaign reaches the control plane with each reference bound to what the one application of the step it names produced, be it in an earlier run |
| `ExecutionLease.ExecutionLeaseGuard.constructor` | apps/api/src/operator-execution-lease.ts:41-45 | a new guard holds, has nothing in flight and its timer runs |
| `ExecutionLease.ExecutionLeaseGuard.LoseOwnership` | apps/api/src/operator-execution-lease.ts:47-57 | only the first loss of a guard that is not stopped is recorded, with its reason, and it stops the timer |
| `ExecutionLease.ExecutionLeaseGuard.ConfirmOwned` | apps/api/src/operator-execution-lease.ts:70-77 | a request joins the one in flight; a new one goes out only from a live guard |
| `ExecutionLease.ExecutionLeaseGuard.SettleRenewal` | apps/api/src/operator-execution-lease.ts:59-68 | callers are told "owned" exactly for a granted renewal of a guard not stopped meanwhile; a refusal or an error ends a live guard with its reason |
| `ExecutionLease.ExecutionLeaseGuard.Stop` | apps/api/src/operator-execution-lease.ts:86-93 | stopping is final and stops the timer |
| `ExecutionLease.StepKeeps` | apps/api/src/operator-execution-lease.ts:8-77 | every step of every executor, timer and clock keeps the lock invariant |
| `ExecutionLease.MutationIsExclusive` | apps/api/src/operator-execution-lease.ts:8-77 | in every interleaving a mutation started less than one lifetime after the renewal that confirmed it starts while its executor, and no other, holds the lock |
| `ExecutionLease.NoConfirmationAfterTheEnd` | apps/api/src/operator-execution-lease.ts:47-77 | a lost or stopped guard never confirms again |
| `ExecutionLease.LateMutationOverlaps` | apps/api/src/operator-execution-lease.ts:59-77 | the bound is exact: one lifetime after a confirmation, a guard that has noticed nothing can coexist with another holder |
| `LeasedExecution.MutatesUnderLock` | apps/api/src/operator-governed-execute.ts:217-243 | an executor whose ownership checks are answered by its guard, and which starts a write less than one lifetime after the renewal that answered, starts every mutation while it, and no other, holds the lock |
| `LeasedExecution.NeverBoth` | apps/api/src/operator-governed-execute.ts:217-243 | of two executors on one key neither starts a mutation while the other holds the lock, whatever plans they apply and however they interleave |
| `RunLimiter.OperatorRunLease.Renew` | apps/api/src/operator-run-limiter.ts:101-105 | the timer sends at most one renewal at a time and none once released or aborted |
| `RunLimiter.OperatorRunLease.LoseLease` | apps/api/src/operator-run-limiter.ts:93-100 | the run is aborted unless it was released, and the timer stops |
| `RunLimiter.OperatorRunLease.SettleRenewal` | apps/api/src/operator-run-limiter.ts:105-119 | a refused or failed renewal aborts a run that was not released; a granted one changes nothing else |
| `RunLimiter.OperatorRunLease.Release` | apps/api/src/operator-run-limiter.ts:126-134 | the release script goes out exactly once |
| `RunLimiter.StepKeeps` | apps/api/src/operator-run-limiter.ts:15-41 | every script and client step keeps the slot invariant |
| `RunLimiter.LimitHolds` | apps/api/src/operator-run-limiter.ts:15-41 | in every interleaving the slot set respects the limit, the key's expiry drops no live member, and so recently confirmed runs never exceed the limit |
| `RunLimiter.NeverReappears` | apps/api/src/operator-run-limiter.ts:28-41 | an owner released or pruned never gets its slot back |
| `RunLimiter.OverrunMeansStale` | apps/api/src/operator-run-limiter.ts:101-120 | runs still going exceed the limit by no more than the runs last confirmed a whole lifetime ago, so an overrun has such a run |
| `RunLimiter.HungRenewalOverruns` | apps/api/src/operator-run-limiter.ts:101-120 | and that bound is reached at every limit and for every n: renewals that hang leave n stale runs going beside as many as the limit admits |
| `Outbox.BackoffBounds` | apps/api/src/outbox.ts:73-78 | a retry waits 2 to 77 seconds, never less than its base |
| `Outbox.StepKeeps` | apps/api/src/outbox.ts:126-227 | every claim, send, mark, failure and crash keeps the row and worker invariants |
| `Outbox.NothingIsLost` | apps/api/src/outbox.ts:126-227 | for any workers and failures a row is dispatched and was sent, or abandoned with its attempts used up, or can be claimed again from a known time on |
| `Outbox.DispatchedIsPermanent` | apps/api/src/outbox.ts:143-227 | rows stay, attempts only grow, a dispatched row stays dispatched |
| `Outbox.SentAtMostOnce` | apps/api/src/outbox.ts:143-227 | if no lock runs out under a worker, every send is answered, every mark is stored and no worker crashes in between, each row is sent at most once |
| `Outbox.ExpiredLockSendsTwice` | apps/api/src/outbox.ts:179-218 | without the lock bound a row is sent twice although nothing is lost |
| `DuplicateSends.LostAnswerSendsTwice` | apps/api/src/outbox.ts:166-227 | with every lock running, one lost answer to a send, one mark that is not stored or one crash before the mark is enough to send a row twice: the crash in every configuration, the other two wherever more than one attempt is allowed even if their failure is recorded, and everywhere if it is not |
| `DuplicateSends.RecordingExact` | apps/api/src/outbox.ts:187-218 | with every lock running and every failure recorded, rows are never sent twice if and only if a single attempt is allowed: the row is abandoned instead |
| `DuplicateSends.SentAtMostAsClaimed` | apps/api/src/outbox.ts:143-227 | with no condition at all: whatever is lost and whoever crashes, no row is sent more often than it was claimed |
| `Abandonment.AbandonedForGood` | apps/api/src/outbox.ts:187-218 | while no lock runs out under a worker an abandoned row stays abandoned, whatever is lost |
| `Abandonment.AbandonedComesBack` | apps/api/src/outbox.ts:187-218 | a worker that outlived its lock brings an abandoned row back, because it records its failure by row id and the count it saw, at every limit above one attempt |
| `Abandonment.AbandonmentExact` | apps/api/src/outbox.ts:187-218 | so over all runs abandonment is final if and only if a single attempt is allowed |
| `Outbox.DispatchIsAPath` | apps/api/src/outbox.ts:166-227 | the dispatcher's straight-line code is a path of the state machine, whatever fails in it |
| `Outbox.OutboxDispatcher.ClaimBatch` | apps/api/src/outbox.ts:143-164 | takes no more than the batch size of the claimable rows no other claim has locked, all of them or those available longest, locks and counts each and returns them with that count |
| `Outbox.ChosenEnabled` | apps/api/src/outbox.ts:143-164 | whatever the query chooses is a claim the protocol allows an idle worker |
| `Outbox.OutboxDispatcher.Dispatch` | apps/api/src/outbox.ts:166-227 | the row and the number of sends after one attempt, for each way it can fail |
| `Outbox.OutboxDispatcher.DispatchAll` | apps/api/src/outbox.ts:131-133 | the batch is dispatched in order up to and with the first failure that could not be recorded |
| `Outbox.OutboxDispatcher.Tick` | apps/api/src/outbox.ts:126-141 | a poll does nothing while another runs or after a stop; otherwise it claims and dispatches, or ends with a claim that was not answered, stored or not, and always ends not running |
| `Outbox.LostClaimIsAPath` | apps/api/src/outbox.ts:126-164 | a claim that took effect without an answer is, to all others, a worker that crashed right after its claim |
| `Outbox.OutboxDispatcher.Stop` | apps/api/src/outbox.ts:114-119 | returns after exactly the pauses a running poll needs to end; from then on nothing runs, no poll starts and the timer is off |
| `CanonicalJson.CanonicalDomain` | apps/coordinator/src/idempotency.ts:171-186 | printing succeeds if and only if every part is a JSON value with finite numbers |
| `CanonicalJson.ReadValue` | apps/coordinator/src/idempotency.ts:171-186 | a value's text is recognised at the front of any continuation: equal texts mean equal values and equal rests |
| `CanonicalJson.KeysAscend` | apps/coordinator/src/idempotency.ts:178-184 | an object prints all its members, each once, in strictly ascending code-unit order of the keys |
| `CanonicalJson.SameMeaningSameText` | apps/coordinator/src/idempotency.ts:171-186 | values that mean the same print the same, whatever order their keys were entered in |
| `CanonicalJson.CanonicalFaithful` | apps/coordinator/src/idempotency.ts:171-186 | two requests print to the same text if and only if they mean the same |
| `NumberText.NumberUnique` | apps/coordinator/src/idempotency.ts:173-176 | two finite numbers print alike if and only if they are equal, the two zeros counting as one |
| `QuotedText.QuoteUnique` | apps/coordinator/src/idempotency.ts:172-182 | a quoted string ends unambiguously, so quoting is injective in every context |
| `IdempotencyReceipts.ReceiptStore.StartIdempotency` | apps/coordinator/src/idempotency.ts:78-131 | drops exactly the key's expired receipts, then answers from a live one or by the cap; an unprintable request changes nothing |
| `IdempotencyReceipts.ReceiptStore.CompleteIdempotency` | apps/coordinator/src/idempotency.ts:133-169 | afterwards every reader that holds the writing key and found nothing before is answered from the new receipt until it expires, the same request with the recorded response and any other with a conflict, and no other slot notices |
| `IdempotencyReceipts.RecordedAnswers` | apps/coordinator/src/idempotency.ts:103-169 | the same for any table a receipt is added to |
| `IdempotencyReceipts.StepKeeps` | apps/coordinator/src/idempotency.ts:90-169 | every statement of every open transaction, commit, abort and cleanup keeps the receipt invariant |
| `IdempotencyReceipts.LiveReceiptLasts` | apps/coordinator/src/idempotency.ts:96-102 | a receipt stays unchanged until it expires |
| `IdempotencyReceipts.NoSecondNew` | apps/coordinator/src/idempotency.ts:90-131 | while a receipt is live and its key is in the ring, no transaction of its slot is told "new", in any interleaving |
| `IdempotencyReceipts.OneAtATime` | apps/coordinator/src/idempotency.ts:94-95 | two open transactions of one slot are never both told "new" |
| `IdempotencyReceipts.InsertNeverCollides` | apps/coordinator/src/idempotency.ts:148-167 | the insert of an admitted transaction never meets the table's unique constraint |
| `IdempotencyReceipts.AnswersFromReceipt` | apps/coordinator/src/idempotency.ts:103-130 | with a live receipt the same request gets the recorded response, any request of another meaning a conflict |
| `IdempotencyReceipts.RotationKeepsOneReceipt` | apps/coordinator/src/idempotency.ts:90-109 | under pairwise compatible key rings a slot never has two receipts |
| `IdempotencyReceipts.IncompatibleRingsDouble` | apps/coordinator/src/idempotency.ts:90-109 | under rings that miss each other's writing key a slot can get two, at every cap that admits anything |
| `IdempotencyReceipts.RotationExact` | apps/coordinator/src/idempotency.ts:90-109 | so a rotation keeps one receipt per slot in every interleaving if and only if its rings are pairwise compatible or nothing is ever admitted |
| `IdempotencyReceipts.CapHolds` | apps/coordinator/src/idempotency.ts:110-118 | with at most c transactions of a scope past their locks at a time its live receipts exceed the cap by at most c - 1 |
| `ReceiptCap.CapReached` | apps/coordinator/src/idempotency.ts:110-118 | that bound is reached: at every cap of at least one, c open transactions of a scope on different locks leave cap + c - 1 live receipts |
| `ReceiptCap.CapExact` | apps/coordinator/src/idempotency.ts:110-118 | so the cap is kept in every run with at most c open transactions of the scope if and only if c is at most one, all slots of the scope share one lock, or the cap is zero |
| `DiagnosticsCache.Diagnostics.Invalidate` | apps/auth/src/console.ts:301-305 | a change raises the generation and forgets every cached and running report |
| `DiagnosticsCache.Diagnostics.Handle` | apps/auth/src/console.ts:341-356 | a report is served from the cache if and only if it is of this generation and younger than 8 seconds; otherwise the request joins or starts one computation |
| `DiagnosticsCache.Diagnostics.Finally` | apps/auth/src/console.ts:352-355 | a computation clears only its own slot |
| `DiagnosticsCache.Diagnostics.Remember` | apps/auth/src/console.ts:364-366 | a report is stored only if no change happened since it began |
| `DiagnosticsCache.StepKeeps` | apps/auth/src/console.ts:291-368 | every interleaved request, computation and change keeps the cache invariant |
| `DiagnosticsCache.NeverStaleNeverForeign` | apps/auth/src/console.ts:291-368 | whatever interleaves, a served report was computed for the requesting account and began after every change that preceded the request |
| `DiagnosticsCache.ServedAcrossChange` | apps/auth/src/console.ts:341-368 | a report computed across a change is served to the request that was waiting for it |
| `DiagnosticsCache.ResumedCurrent` | apps/auth/src/console.ts:357-368 | a waiting request gets a report of the current state if and only if nothing changed since it arrived |
| `DiagnosticsCache.ServedCurrent` | apps/auth/src/console.ts:341-368 | the same for every way of being served, from the cache or after waiting |
| `DiagnosticsCache.OneComputationEach` | apps/auth/src/console.ts:348-356 | at most one computation per account runs against the current state |
| `RegoScanner.StripCommentsAndStrings` | apps/api/src/rego.ts:34-73 | the index loop computes the stripped text of the reference scanner on every input |
| `RegoScanner.SkipComment` | apps/api/src/rego.ts:40-43 | the inner loop stops where the rest of the text strips to the same |
| `RegoScanner.SkipString` | apps/api/src/rego.ts:44-67 | the inner loop finds the closing quote if and only if there is one before the string breaks off, and stops just after it |
| `RegoScanner.StripIsIdempotent` | apps/api/src/rego.ts:34-73 | stripping leaves no quote or hash, and stripping again changes nothing |
| `RegoScanner.StripErases` | apps/api/src/rego.ts:34-73 | a text rendered from code, comments and strings strips to exactly its code |
| `RegoScanner.SourceSplits` | apps/api/src/rego.ts:34-73 | every text without an unterminated string is such a rendering |
| `RegoScanner.ContentsAreHidden` | apps/api/src/rego.ts:34-73 | texts that differ only inside comments and strings strip alike |
| `RegoScanner.BalancedDelimiters` | apps/api/src/rego.ts:75-87 | the stack loop accepts a text if and only if its brackets form a properly nested word |
| `RegoScanner.ScanPolicy` | apps/api/src/rego.ts:95-106 | a policy passes if and only if its size in UTF-16 code units is admissible, it is made of well-formed pieces and its code nests its brackets |
| `TurnLedger.DerivePlanState` | apps/api/src/operator-state.ts:167-225 | the loop computes the fold of the turns after the plan |
| `TurnLedger.DeriveConversationState` | apps/api/src/operator-state.ts:132-165 | the loops compute the latest plan's state, the pending approval, the last error and the recent messages |
| `TurnLedger.RecentMessages` | apps/api/src/operator-state.ts:132-165 | the backward walk returns the last messages of the window, oldest first |
| `TurnLedger.CountsPartition` | apps/api/src/operator-state.ts:208-225 | succeeded, failed and pending steps add up to the plan's steps |
| `TurnLedger.OrderDoesNotMatter` | apps/api/src/operator-state.ts:128-165 | the derived state depends on the turns and not on their arrival order |
| `TurnLedger.SliceIsEnough` | apps/api/src/operator-state.ts:128-165 | any slice holding the latest plan and every later turn derives the same plan state and pending approval as the whole ledger |
| `TurnLedger.PlanStateMeaning` | apps/api/src/operator-state.ts:167-225 | the decision is that of the last approving or rejecting turn of the plan, a step's status that of its last execution turn |
| `ConversationMemory.SummarizeHistory` | apps/api/src/operator-memory.ts:65-141 | the loops compute the accounts of all plans and keep the most recent decided ones |
| `ConversationMemory.AccountAgrees` | apps/api/src/operator-memory.ts:65-112 | for every plan the summary keeps the decision the reducer derives and counts its changes |
| `ConversationMemory.ChangesConserved` | apps/api/src/operator-memory.ts:65-112 | every applied change is booked on exactly one plan |
| `ConversationMemory.AppliedStepsChanged` | apps/api/src/operator-memory.ts:65-112 | a plan's booked changes are at least its mutating steps that the reducer shows as succeeded |
| `ConversationMemory.SummaryAgreesWithState` | apps/api/src/operator-memory.ts:65-141 | a decided latest plan closes the summary, whatever the cap, with the reducer's decision |
| `ConversationMemory.FactMeansDecided` | apps/api/src/operator-memory.ts:65-131 | before the cap a plan of the history has a fact if and only if the reducer derives a decision for it |
| `ConversationMemory.UndecidedLeavesNoFact` | apps/api/src/operator-memory.ts:114-131 | a plan of the history nobody decided leaves no fact in the summary, whatever the cap |
| `MessageRun.ReduceIncreases` | apps/api/src/operator-message-state.ts:101-120 | a replay succeeds only on strictly increasing event numbers and ends at the last |
| `MessageRun.ArrivalOrderDoesNotMatter` | apps/api/src/operator-message-state.ts:118-120 | either every arrival order of the same events fails, or all give the same run |
| `MessageRun.BatchingDoesNotMatter` | apps/api/src/operator-message-state.ts:118-120 | replaying two batches in turn equals replaying them at once |
| `MessageRun.ReplaySplits` | apps/api/src/operator-message-state.ts:118-120 | conversely a replay splits into batches at any event number |
| `MessageRun.TerminalAbsorbs` | apps/api/src/operator-message-state.ts:29-51 | from a terminal state only events that repeat it replay |
| `MessageRun.CompletionTimeRewritten` | apps/api/src/operator-message-state.ts:101-116 | yet such a repeat does rewrite the completion time |
| `MessageRun.CompletionTimeKept` | apps/api/src/operator-message-state.ts:101-120 | after any replay of a finished run the completion time is that of the newest event that carries one, so it is kept if and only if that event repeats it or there is none |
| `MessageRun.ExecutionIsAnnounced` | apps/api/src/operator-message-state.ts:29-51 | each time a replay meets an executing event, the state before it waits for a tool or an approval or is executing already |
| `MessageRun.CompletionMeansTerminal` | apps/api/src/operator-message-state.ts:101-116 | only a finished run carries a completion time |
| `MessageRun.NewestReasonWins` | apps/api/src/operator-message-state.ts:101-116 | the reason is that of the newest event that gives one |
| `ProviderGateway.PreferredAt` | apps/api/src/operator-gateway.ts:398-400 | the preferred provider is the first of that id; an empty or unknown preference names none |
| `ProviderGateway.OrderUnique` | apps/api/src/operator-gateway.ts:388-409 | configuration, preference and failure memory determine one order: every provider once, preferred, then healthy, then recently failing, as configured inside a group |
| `ProviderGateway.PriorityReturns` | apps/api/src/operator-gateway.ts:354-360 | once every failure is a minute old the configured order is back |
| `ProviderGateway.Gateway.ProviderOrder` | apps/api/src/operator-gateway.ts:388-409 | forgets failures a minute old and returns that order |
| `ProviderGateway.Gateway.TryEach` | apps/api/src/operator-gateway.ts:756-782 | which call ended the run and why, each provider called at most once and in order, giving up only after each failed once; whatever other runs do to the shared memory meanwhile, each failed call is recorded on top of it, a served one clears its provider and a cancelled one leaves it |
| `ProviderGateway.Gateway.RunWithFailover` | apps/api/src/operator-gateway.ts:745-782 | the same for a whole request, and what it leaves in the failure memory |
| `ProviderGateway.FailureFallsBehind` | apps/api/src/operator-gateway.ts:354-360 | for a minute a provider that failed comes after every provider not remembered as failing, unless the caller prefers it or its endpoint served some run since |
| `UsageLedger.AttributionConserves` | apps/api/src/operator-gateway.ts:173-182 | rows that are exact for each provider and model add up to the tokens of all completions |
| `UsageLedger.FiguresExact` | apps/api/src/operator-gateway.ts:860-922 | for every series of completions the totals equal the sum of the rows, there is one exact row per pair, and the providers are listed by when each first served |
| `UsageLedger.Ledger.Guard` | apps/api/src/operator-gateway.ts:869-872 | a call is admitted if and only if the budget is unset, not positive or not used up, and only then counted |
| `UsageLedger.Ledger.Record` | apps/api/src/operator-gateway.ts:873-888 | each recorded completion enters the figures once, absent counts as zero |

## Left out

- Constructor checks of lifetimes, intervals and limits in the lease guard and the run limiter: single comparisons.
- The zod schemas, the capability catalogue and argument validation: the catalogue is a parameter with an arbitrary argument check.
- Step secrets, scopes, tokens and the wording of failure reasons and diagnostics.
- `executeViaControlPlane` on a list with repeated ids: `Execute` still accounts for every effect, but `GroupIntoWaves` states its levels for distinct ids, which the validator guarantees.
- The routes around the executor: resumption is modelled more freely than `apps/api/src/routes/operator.ts` allows, since any run that left nothing in doubt may be resumed.
- GovernedExecutor.RunReads: the concurrent reads of a wave are recorded in list order; all of them resolve their arguments before the first answer, so their completion order cannot be observed.
- LeasedExecution.MutatesUnderLock: that a write starts within one lifetime of the renewal that answered its check is a condition, because the code sets no deadline between the two; `LateMutationOverlaps` shows it is needed.
- ResumedOutputs.CampaignIsOneRun: which outputs the route records is left open; any part of them, unchanged, will do.
- Outbox enqueueing, stream signing, stream trimming, field flattening and logging.
- Idempotency key syntax (`parseIdempotencyKey`): a character check.
- CanonicalJson.CanonicalFaithful: speaks of the text that is hashed, not of the digest.
- The redaction of diagnostics and the console's proxying, sessions and credentials.
- Package, rule and built-in checks of the policy validator: regular expressions over the stripped text.
- `describeFacts`, and the sorted list form of rejected capabilities: the summary keeps them as a set.
- MessageRun.ReduceIncreases: event numbers are integers; the check that rejects other numbers is not modelled.
- Provider transport, streaming, error classification and the health observer: a call's outcome is a parameter.
- UsageLedger.Ledger.Record: provider and model names are numbers, because they are only compared.
- Other services (token exchange, control API, Go clients, documentation and release tooling).
