# Verified models of the live-media server

A model in Dafny of the parts of the server in which unbounded state changes behind a lock: the egress slot budget, the AI worker
pool with VOD leases and the live handover between workers, the privacy generation pipeline with its writer loop and fail-closed
latch, the user operation gate, the H.264 byte-stream code, and the token and queue protocols. Every critical section, script or
transaction is one atomic step; what is proved is proved over all interleavings of those steps, for every input and of any number
of participants.

`dafny verify dfyconfig.toml` checks the whole project.

## How it is built

For each component there is a specification, a state machine on values with its invariant and the theorems about its runs, and a
class in the form of the source whose methods are proved to make exactly the specified steps. Beside the theorems about runs, the
modules of answers say for each operation when it gives which answer and what it changes, in terms of prices, rows, tickets and
workers rather than of the functions of the specification.

| component | specification and theorems | class |
|---|---|---|
| egress slot budget | `EgressSlots`, `EgressGuarantees`, `EgressForecast`, `EgressCosts` | `EgressSlotBudget` |
| AI worker pool, VOD leases | `WorkerPool`, `PoolAnswers` | `AIWorkerPool` |
| live stream handover | `StreamSwitch`, `Handover`, `HandoverResults` | `SwitchableStream` |
| privacy generations, writer loop | `PrivacyPipeline`, `PrivacyAnswers`, `EgressWriter` | `FrameWriter`, `Processor` |
| fail-closed latch | `FailClosed` | `Processor` |
| user operation gate | `OperationGate`, `GateRefinement` | `UserOperationGate` |
| H.264 byte streams | `AnnexB`, `NalUnits`, `ExpGolomb` | `AccessUnitReader`, `BitReader` in `ExpGolomb` |
| token rotation | `TokenRotation` | `AccessTokens` |
| refresh families | `RefreshFamilies`, `RefreshAnswers` | `RefreshStore` |
| guest admission | `GuestAdmission`, `GuestAnswers` | `GuestQueue` |

`Totals` is a small theory of sums over maps, `Basics` two shared types. Counters of the source are not part of the
specifications: there, what is in use is the sum over what is alive, and the classes prove their counters equal to those sums.

## Assumptions taken from the callers

- Egress: each owner keeps one tier across its hold and its claims, and the reserves are set once on an empty budget and sum to at
  most the capacity. Exact accounting needs neither.
- Pool: the invariant is about distinct addresses and one GPU mapping; both are start-up configuration.
- Tokens: the platform accepts one refresh token at a time.
- Refresh sessions: a transaction is atomic; new tokens and families are new.
- Guests: one server process, one ideal clock, positive lifetimes.

## What does not hold

The model keeps the code as it is. Where a property one would expect is false, there is a lemma with the input and, beside it, the
condition under which the property holds.

- A pre-paid claim below the top tier can still be refused, when a higher tier has borrowed from below while a middle reserve is
  empty (`LowerTierHoldMayNotConvert`, exactly when: `RefusedExactly`; at the top tier `CoveredClaimConverts`).
- `CheckClaim` can accept what then fails if the hold exceeds the units asked for (`ForecastNeedsSmallHold`, exactly when:
  `ForecastExactly`).
- Holding at one tier and claiming at another can break the reserves (`MixedTiersBreakReserves`, exactly when:
  `ReservesKeptExactly`; with one tier per owner `ReachableBudget`).
- `Acquire` indexes with -1 when nobody serves the mode; a removal leads there exactly as `ServersLostExactly` says.
- A discarded leg's stream can be opened again, by a frame that captured the leg before Release (`LateFrameReopens`) or by a warm-up
  reply after Close (`LateReplyReopens`); exactly when: `ReopensExactly`.
- The idle switch does not look again before it promotes (`IdlenessIsNotRechecked`); when the stream is still idle:
  `IdleAtPromotion`.
- `InvalidateHeldFrame(g)` may return between the writer's load of the floor and its write, and one older frame is then shown
  (`OlderIsReachable`, exactly when: `OlderShownExactly`; otherwise `NothingOlder`).
- `blackoutFrame` records new dimensions before it can fail, so a second frame without dimensions gets the old black frame
  (`StaleBlackFrame`, exactly when: `ZeroDimensionsServeTheCache`; real dimensions: `OutputIsClosed`).
- Emulation prevention removal does not undo the standard's insertion for payloads that end in an odd number of zero bytes
  (`RemoveUndoesInsert`, both directions).
- Two reconnects that store in the wrong order, or a process that fails after its rotation, lose the connection (`TwoReconnects`,
  `FailureLoses`, exactly when: `LosesExactly`; otherwise `NeverLost`).
- A guest ticket left consuming when both scripts after the claim fail is recovered with a longer life than its reservation, and
  the limit is overrun, by the session or by the renewed reservation (`StrandedClaimOverruns`, exactly when: `OverrunsExactly` for
  a step and `LimitHolds` for a run; without stranded claims `UnstrandedHolds`).

## Model

| member | source | states |
|---|---|---|
| `EgressSlots.BestCard` | internal/media/egress_slots.go:227-238 | the chosen card is the first least loaded one with an encoder session free; none exactly when every card is full |
| `EgressSlots.GrantUsage` | internal/media/egress_slots.go:186-223 | a granted claim moves the total, its tier and its group by its own charge less exactly what its hold had paid |
| `EgressSlots.ChangeUsage` | internal/media/egress_slots.go:301-333 | the same for a change of resolution |
| `EgressSlots.ReleaseUsage` | internal/media/egress_slots.go:270-294 | a release frees exactly the difference between the units of n and of n - 1 streams, whatever the resolution |
| `EgressSlots.HoldUsage` | internal/media/egress_slots.go:364-384 | a placed hold raises exactly its own tier and group |
| `EgressSlots.DropUsage` | internal/media/egress_slots.go:387-402 | a dropped hold gives back exactly what it still holds |
| `EgressSlots.ReleaseNeverClamps` | internal/media/egress_slots.go:270-294 | in every accounted state the guards of release never take effect: the owner is there and its card counts the lease |
| `EgressSlots.StepKeepsBooks` | internal/media/egress_slots.go:186-445 | every critical section keeps exact accounting: each owner has its live leases and the units of that many streams, cards at most 12, holds positive, waiters distinct |
| `EgressGuarantees.StepCharges` | internal/media/egress_slots.go:186-402 | every step is one charge at one tier, and a positive charge passed both capacity rules |
| `EgressGuarantees.ReservesKept` | internal/media/egress_slots.go:194-200 | a charge that passed both rules keeps: units of tiers up to t stay within capacity minus the reserves above t, for every t |
| `EgressGuarantees.TopSeatStays` | internal/media/egress_slots.go:490-498 | and keeps: used plus the top tier's unused reserve within capacity |
| `EgressGuarantees.RefusedExactly` | internal/media/egress_slots.go:186-223 | a claim is refused exactly when its need exceeds the slack of its tier, or the cards are full |
| `EgressGuarantees.StepLosesNoWakeup` | internal/media/egress_slots.go:159-182 | after every step each claim still queued would be refused by tryAcquire in that very state, also claims of the owner that moved |
| `EgressGuarantees.BooksBalance` | internal/media/egress_slots.go:186-445 | exact accounting and use within capacity over every run, without any assumption on tiers |
| `EgressGuarantees.RunKeepsGuarantees` | internal/media/egress_slots.go:159-402 | reserves and no lost wake-up over every run with one tier per owner |
| `EgressGuarantees.RunKeepsTopSeat` | internal/media/egress_slots.go:490-498 | the top tier's seat over every run without unrestricted claims |
| `EgressGuarantees.ReachableBudget` | internal/config/config.go:165-170 | main theorem: from an empty budget whose reserves fit the capacity, all of the above hold in every reachable state |
| `EgressGuarantees.TopTierAlwaysSeats` | internal/media/egress_slots.go:186-200 | a top-tier claim within its unused reserve is refused only for want of a card |
| `EgressGuarantees.CoveredClaimConverts` | internal/media/egress_slots.go:186-200 | a claim its own hold covers never fails the total rule, and at the top tier never fails but for cards |
| `EgressForecast.AcquireManyExactly` | internal/media/egress_slots.go:186-223 | n acquisitions in a row succeed exactly when the units of all n fit at once, although the cost is not additive |
| `EgressForecast.ReleaseAllEffect` | internal/media/egress_slots.go:270-294 | giving up all streams leaves the forecast, the hold and the vacancy above unchanged |
| `EgressForecast.ForecastExactly` | internal/media/egress_slots.go:338-360 | main theorem for every hold and every n, while cards suffice: releasing everything and acquiring n in a row succeeds if and only if both the units of n and the hold fit below the ceiling of the tier; CheckClaim never refuses what would succeed, and accepts what then fails if and only if the ceiling lies between its forecast and the hold |
| `EgressForecast.CheckClaimForecasts` | internal/media/egress_slots.go:338-360 | its corollary for a hold of at most the units of n: CheckClaim accepts if and only if the acquisitions succeed, and the total is then the one it computed |
| `EgressForecast.LowerTierHoldMayNotConvert` | internal/media/egress_slots.go:194-200 | below the top tier a fully pre-paid claim can be refused by the tier rule: a concrete run |
| `EgressForecast.ForecastNeedsSmallHold` | internal/media/egress_slots.go:338-360 | a concrete run in which CheckClaim accepts what then fails |
| `EgressForecast.ReservesKeptExactly` | internal/media/egress_slots.go:186-402 | whatever tiers owners and holds have: a step keeps the reserves if and only if its charge fits between its own tier and the tier of the hold that pays for it |
| `EgressForecast.MixedTiersBreakReserves` | internal/media/egress_slots.go:415-436 | an owner that holds at one tier and claims at another breaks the reserves: a concrete run |
| `EgressCosts.PriceList` | internal/media/egress_slots.go:40-50 | main theorem over every run: units in use are live streams plus sessions in FHD plus unspent holds, and a session pays one unit a stream and one more for FHD |
| `EgressCosts.UnitsInUse` | internal/media/egress_slots.go:186-445 | the same conservation in every accounted ledger |
| `EgressCosts.OwnerPays` | internal/media/egress_slots.go:42-50 | what one session pays, by its live leases |
| `EgressCosts.AcquireAnswers` | internal/media/egress_slots.go:186-223 | each answer of tryAcquire by its own condition: one unit, or two for a first stream in FHD, less the hold, against total, tier and cards |
| `EgressCosts.GrantCosts` | internal/media/egress_slots.go:186-223 | what an admitted claim adds to the total and takes from its hold |
| `EgressCosts.GrantRecords` | internal/media/egress_slots.go:201-222 | whose lease it is, on which card, and that the session keeps the terms of its first stream |
| `EgressCosts.RefusedWaits` | internal/media/egress_slots.go:240-244 | a refused claim waits at the end of the line and changes nothing else |
| `EgressCosts.ReleaseCosts` | internal/media/egress_slots.go:270-294 | the last stream of an FHD session frees two units, any other one, and everybody waiting is told |
| `EgressCosts.ChangeAnswers` | internal/media/egress_slots.go:301-318 | each answer of a change of resolution by its own condition |
| `EgressCosts.ChangeCosts` | internal/media/egress_slots.go:319-333 | to FHD costs one unit and back frees one, whatever the number of streams |
| `EgressCosts.ChangeRecords` | internal/media/egress_slots.go:319-333 | only the resolution of that session changes; waiters are told exactly when units were freed |
| `EgressCosts.HoldAnswers` | internal/media/egress_slots.go:364-384 | each answer of Hold by its own condition |
| `EgressCosts.HoldRecords` | internal/media/egress_slots.go:364-384 | what a placed hold records and adds |
| `EgressCosts.DropRecords` | internal/media/egress_slots.go:387-402 | what a released hold gives back, and that everybody waiting is told |
| `EgressCosts.CheckAnswers` | internal/media/egress_slots.go:338-360 | each answer of CheckClaim by its own condition on the price of so many streams |
| `EgressCosts.MeasuresMean` | internal/media/egress_slots.go:438-445 | what a tier and a group use is what their sessions and holds pay |
| `EgressCosts.AbandonPassesOn` | internal/media/egress_slots.go:250-265 | a claim in line leaves it in order; one that was told passes it on to the head of the line |
| `EgressSlotBudgets.ChargeTallies` | internal/media/egress_slots.go:202-222 | counters that moved like the sums over the ledger still equal them, for every tier and group at once |
| `EgressSlotBudgets.AddTallies` | internal/media/egress_slots.go:438-445 | the same through the clamp of the group counter, which never takes effect |
| `EgressSlotBudgets.GroupCarriesHold` | internal/media/egress_slots.go:424-436 | a hold's group carries at least the hold, so consuming it cannot clamp |
| `EgressSlotBudgets.EgressSlotBudget.constructor` | internal/media/egress_slots.go:107-126 | a new budget is the empty ledger with all counters zero |
| `EgressSlotBudgets.EgressSlotBudget.SetTierReserves` | internal/media/egress_slots.go:479-487 | only the reserves change |
| `EgressSlotBudgets.EgressSlotBudget.HigherTierVacancyLocked` | internal/media/egress_slots.go:490-498 | the scan adds up the unused reserves above a tier |
| `EgressSlotBudgets.EgressSlotBudget.LeastLoadedLocked` | internal/media/egress_slots.go:227-238 | the scan over the array finds the card of the specification |
| `EgressSlotBudgets.EgressSlotBudget.WakeAllLocked` | internal/media/egress_slots.go:290-293 | every waiter is signalled and the queue is empty |
| `EgressSlotBudgets.EgressSlotBudget.AddLocked` | internal/media/egress_slots.go:438-445 | total, tier and group move by the units, a group at zero disappears |
| `EgressSlotBudgets.EgressSlotBudget.ConsumeHoldLocked` | internal/media/egress_slots.go:424-436 | units leave the hold and its counters, an empty hold disappears |
| `EgressSlotBudgets.EgressSlotBudget.TryAcquire` | internal/media/egress_slots.go:186-223 | verdict and next state of the ledger's acquire step, with all counters equal to their sums afterwards |
| `EgressSlotBudgets.EgressSlotBudget.GrantLocked` | internal/media/egress_slots.go:201-222 | the admitted claim's charge, card and owner record, in place |
| `EgressSlotBudgets.EgressSlotBudget.ReleaseLocked` | internal/media/egress_slots.go:270-294 | one release step of the ledger |
| `EgressSlotBudgets.EgressSlotBudget.AbandonWaiter` | internal/media/egress_slots.go:250-265 | leaving the queue or passing an unread wake-up on |
| `EgressSlotBudgets.EgressSlotBudget.ChangeResolution` | internal/media/egress_slots.go:301-333 | one change step of the ledger, refused exactly by the rules |
| `EgressSlotBudgets.EgressSlotBudget.CheckClaim` | internal/media/egress_slots.go:338-360 | the ledger's forecast verdict, nothing changed |
| `EgressSlotBudgets.EgressSlotBudget.PlaceHold` | internal/media/egress_slots.go:364-384 | one hold step of the ledger, refused exactly by the rules |
| `EgressSlotBudgets.EgressSlotBudget.ReleaseHold` | internal/media/egress_slots.go:387-402 | one drop step of the ledger |
| `EgressSlotBudgets.EgressLease.Release` | internal/media/egress_slots.go:136-147 | the first call is one release step, a second changes nothing |
| `WorkerPool.PreemptEffect` | internal/ai/vod.go:73-83 | preempting a worker's GPU leaves no uninterrupted job there, and changes nothing but interruption |
| `WorkerPool.StepKeepsInv` | internal/ai/pool.go:171-431 | every pool step keeps: distinct addresses, claims only on listed workers, one registered job per GPU, and for every uninterrupted job no live stream on its GPU or on a worker whose GPU is unknown, and its worker neither draining nor unready |
| `WorkerPool.RunKeepsInv` | internal/ai/pool.go:171-431 | the same over every run of pool steps |
| `WorkerPool.OneJobPerGpu` | internal/ai/vod.go:28-72 | at most one unreturned VOD lease per GPU |
| `WorkerPool.ReturnFindsClient` | internal/ai/pool.go:231-254 | a returned claim always finds its own client under its address, also after workers came and went |
| `WorkerPool.AcquireKeepsSpread` | internal/ai/pool.go:171-195 | one acquire keeps the spread of active counts in the class within the larger of one and what it was |
| `WorkerPool.AcquiresSpreadEvenly` | internal/ai/pool.go:171-195 | and so does any run of acquires |
| `WorkerPool.AcquireKeepsClasses` | internal/ai/pool.go:316-340 | acquiring changes nobody's class |
| `WorkerPool.RemovalServes` | internal/ai/pool.go:384-412 | removing a worker leaves nobody for a mode if and only if it is the last of its kind while workers are still set apart |
| `WorkerPool.FaceSwapServes` | internal/ai/pool.go:58-73 | an accepted choice of face-swap workers leaves somebody for both modes |
| `WorkerPool.ServersLostExactly` | internal/ai/pool.go:58-431 | over all steps: the last server of a mode is lost by such a removal and by nothing else |
| `PoolAnswers.PickMeans` | internal/ai/pool.go:171-195 | Acquire picks the worker that is as good as any for the mode (healthy if anybody is, else not draining), carries no more than any such worker, and comes first from the cursor |
| `PoolAnswers.PickIsUnique` | internal/ai/pool.go:171-195 | and that is one worker |
| `PoolAnswers.MoveMeans` | internal/ai/pool.go:204-226 | a session moves exactly to another healthy worker of its mode that is the preferred one, or the first of those that carry least when the preferred one does not qualify |
| `PoolAnswers.StepMovesFlags` | internal/ai/pool.go:58-431 | what each step does to the list of workers and to who drains, is unready or is set apart |
| `PoolAnswers.StepKeepsFlagsListed` | internal/ai/pool.go:384-412 | flags are kept for listed workers alone |
| `PoolAnswers.NewcomerWaits` | internal/ai/pool.go:355-381 | a new worker drains and gets no session by moving until it is opened, and is healthy then |
| `PoolAnswers.InterruptsExactly` | internal/ai/vod.go:73-83 | a step interrupts exactly the jobs on the GPU it disturbs, or all when that GPU is unknown |
| `PoolAnswers.ReserveMeans` | internal/ai/vod.go:28-66 | exactly when a job may start on a worker |
| `PoolAnswers.ReserveRecords` | internal/ai/vod.go:57-72 | what starting it records, and that no more than the limit run then |
| `PoolAnswers.RemoveMeans` | internal/ai/pool.go:384-402 | a worker can be removed exactly without streams and not as the last one |
| `PoolAnswers.ClaimsMove` | internal/ai/pool.go:171-254 | claims come from acquiring and moving, one at a time, and go by being returned |
| `PoolAnswers.CursorMoves` | internal/ai/pool.go:171-412 | the cursor moves past the worker picked, and to the front when it would point behind the last one |
| `AIWorkerPools.AIPool.constructor` | internal/ai/pool.go:135-155 | the listed addresses in order with no streams; the pool invariant holds if and only if they are distinct and not empty |
| `AIWorkerPools.AIPool.ScanForSession` | internal/ai/pool.go:171-193 | the scan returns a least-active worker of the best non-empty class, the first at or after the cursor on ties; none if and only if nobody serves the mode |
| `AIWorkerPools.AIPool.Acquire` | internal/ai/pool.go:171-195 | that worker is claimed and the cursor moves past it; with nobody to serve the mode, where the source panics, only the cursor has moved |
| `AIWorkerPools.AIPool.ScanForMove` | internal/ai/pool.go:204-226 | the preferred worker if it qualifies, else the first least loaded ready one, else none |
| `AIWorkerPools.AIPool.AcquireMoveTarget` | internal/ai/pool.go:204-226 | one move step, or nothing when nobody is ready |
| `AIWorkerPools.AIPool.ClaimLocked` | internal/ai/pool.go:231-246 | the counter of that worker rises by one and VOD on its GPU is preempted |
| `AIWorkerPools.AIPool.ReturnClaim` | internal/ai/pool.go:236-254 | exactly the counter of the claim's own worker falls by one |
| `AIWorkerPools.AIPool.AddTarget` | internal/ai/pool.go:355-381 | one add step; empty and known addresses are refused |
| `AIWorkerPools.AIPool.RemoveTarget` | internal/ai/pool.go:384-412 | one remove step; unknown, busy and last workers are refused |
| `AIWorkerPools.AIPool.SetFaceSwapTargets` | internal/ai/pool.go:58-73 | the named workers are reserved, unless one is unknown or none would be left |
| `AIWorkerPools.AIPool.SetDraining` | internal/ai/pool.go:415-431 | one draining step, with preemption |
| `AIWorkerPools.AIPool.SetTargetReady` | internal/ai/pool.go:267-288 | one readiness step, with preemption, reporting whether anything changed |
| `AIWorkerPools.AIPool.HasReadyTargetLocked` | internal/ai/pool.go:316-323 | whether another ready worker serves the mode |
| `AIWorkerPools.AIPool.HasAssignableTargetLocked` | internal/ai/pool.go:332-340 | whether a worker that is not draining serves the mode |
| `AIWorkerPools.AIPool.PreemptVODLocked` | internal/ai/vod.go:73-83 | the job on the worker's GPU is interrupted, or all jobs when the GPU is unknown |
| `AIWorkerPools.AIPool.ScanForVOD` | internal/ai/vod.go:28-66 | under any mapping, the first worker a job may start on: known GPU with room, no job, no live stream on any worker of it |
| `AIWorkerPools.AIPool.ReserveVOD` | internal/ai/vod.go:28-72 | one reservation step under the mapping passed, or nothing; the invariant is kept under the mapping in force |
| `AIWorkerPools.AIPool.ReleaseVOD` | internal/ai/vod.go:17-24 | the GPU is freed only while it is still registered to that very job |
| `StreamSwitch.StepKeepsInv` | internal/ai/switch.go:100-300 | every critical section keeps: each leg has one holder, one discard due or one discard done; at most one message ever; readiness and promotion earned |
| `StreamSwitch.PromoteKeeps` | internal/ai/switch.go:161-166 | a promotion keeps that for the new and for the previous leg |
| `Handover.SendNeverBlocks` | internal/ai/switch.go:169-179 | a due message never finds the one-slot channel full |
| `Handover.ResultAlwaysComes` | internal/ai/switch.go:228-255 | a call whose leg is no longer the candidate has its result sent or due |
| `Handover.DiscardsExactly` | internal/ai/switch.go:48-51 | which leg each step discards, counted exactly; a leg keeps its worker and claim for life |
| `Handover.DiscardedOnce` | internal/ai/switch.go:48-51 | no leg is discarded a second time |
| `Handover.PromotionIsEarned` | internal/ai/switch.go:124-143 | a leg becomes current only after three valid replies or an idle stream at the entry of its switch or at its check |
| `Handover.PromotionsByCause` | internal/ai/switch.go:100-267 | which of these it was, by the step that promotes: a frame, the idle check, or the idle switch |
| `Handover.OpenedSystem` | internal/ai/switch.go:78-91 | a stream opened on a worker just claimed starts in order |
| `Handover.RunKeepsSystem` | internal/ai/switch.go:100-300 | main theorem: over every interleaving of frames, warm-ups, switches, timeouts, Close, Release and pool changes, a leg's claim counts in the pool exactly while the leg is not discarded |
| `Handover.NothingOutlivesRelease` | internal/ai/switch.go:285-300 | after Release, once pending discards have run, every leg was discarded once and no claim of the stream is left |
| `Handover.ClaimsOfStream` | internal/ai/switch.go:100-300 | before Release exactly the current leg and the candidate count |
| `Handover.SettledLegStays` | internal/ai/switch.go:48-51 | a discarded leg that nobody is going to call stays shut, and nobody is going to call it later |
| `Handover.ReopensExactly` | internal/ai/switch.go:100-143 | for every state: a discarded leg's stream is opened again along some run if and only if a warm-up of it is in its call, a frame captured it as current and is not sent, or a frame captured it as candidate and has not tried to warm it |
| `Handover.LateFrameReopens` | internal/ai/client.go:170-234 | a frame that captured the leg before Release opens its stream after the discard |
| `Handover.LateReplyReopens` | internal/ai/switch.go:124-143 | without Release or frame: a warm-up reply opens the leg's stream after Close has dropped it and its discard has run |
| `Handover.IdleAtPromotion` | internal/ai/switch.go:184-214 | from the entry of a switch on an idle stream through every run to its promotion: the stream is still idle then if and only if no frame came in between within the idle window |
| `Handover.IdlenessIsNotRechecked` | internal/ai/switch.go:184-214 | a concrete run in which it is not |
| `HandoverResults.ResultTellsTheTruth` | internal/ai/switch.go:124-300 | main theorem over every run: a waiting SwitchTo receives one message, and it says promoted, warm-up failed, interrupted or closed if and only if its leg became current, was dropped by a reply, by Close or by Release |
| `HandoverResults.EndingsMean` | internal/ai/switch.go:124-300 | what drops a candidate: an invalid reply of its own, Close, Release or giving up |
| `HandoverResults.CurrentMoves` | internal/ai/switch.go:100-214 | the current leg changes by a frame after the third valid reply, by the idle check on a resting candidate of a quiet stream, or by an idle switch still allowed |
| `HandoverResults.CandidateMoves` | internal/ai/switch.go:100-300 | how a leg becomes the candidate and stops being it |
| `HandoverResults.RepliesCount` | internal/ai/switch.go:133-141 | valid replies are counted, those of the candidate towards its promotion |
| `HandoverResults.OpenMoves` | internal/ai/switch.go:48-51 | when a leg's stream is opened and closed |
| `HandoverResults.FrameGoes` | internal/ai/switch.go:100-114 | a frame captures the legs as they are after a promotion, and is refused after Release |
| `HandoverResults.WarmUpStarts` | internal/ai/switch.go:116-119 | a captured candidate is warmed up unless a warm-up of it is under way |
| `HandoverResults.FrameLife` | internal/ai/switch.go:100-121 | the stages of a frame, one frame at a time |
| `HandoverResults.CallEnds` | internal/ai/switch.go:228-236 | a waiting call takes its message and is over |
| `HandoverResults.DueIsDone` | internal/ai/switch.go:124-179 | a due discard and a due message are done once |
| `HandoverResults.QuietSeen` | internal/ai/switch.go:184-267 | when the stream counts as seen idle for a leg: at the entry of its switch or by the idle check that promotes it |
| `HandoverResults.CallPhases` | internal/ai/switch.go:184-267 | where a call must stand for each of its steps |
| `HandoverResults.BeginAdds` | internal/ai/switch.go:78-91 | a new leg is at rest, without replies and not open |
| `HandoverResults.EntryGoesOn` | internal/ai/switch.go:184-200 | SwitchTo returns at once, goes for the idle switch, or waits |
| `HandoverResults.GivingUpGoesOn` | internal/ai/switch.go:236-255 | a call that gives up returns at once unless its leg is ready or no longer the candidate |
| `SwitchableStreams.SwitchableStream.BeginFrame` | internal/ai/switch.go:100-112 | a frame promotes a ready candidate and captures the legs, or is refused after Release |
| `SwitchableStreams.SwitchableStream.StartWarmUp` | internal/ai/switch.go:113-121 | a captured candidate starts warming exactly if it rests |
| `SwitchableStreams.SwitchableStream.SendFrame` | internal/ai/switch.go:120-120 | the frame goes to the current leg's worker, which opens the stream if it is closed |
| `SwitchableStreams.SwitchableStream.FinishWarmUp` | internal/ai/switch.go:124-143 | a valid reply counts towards readiness, another drops the candidate |
| `SwitchableStreams.SwitchableStream.PromoteLocked` | internal/ai/switch.go:161-166 | the candidate becomes current, the previous leg is discarded, the caller is told |
| `SwitchableStreams.SwitchableStream.DropCandidate` | internal/ai/switch.go:169-179 | only the present candidate is dropped |
| `SwitchableStreams.SwitchableStream.EnterSwitch` | internal/ai/switch.go:184-200 | refused with its error, idle or waiting |
| `SwitchableStreams.SwitchableStream.SwitchIdle` | internal/ai/switch.go:201-214 | the idle switch succeeds exactly if the leg is current then, and says why not otherwise |
| `SwitchableStreams.SwitchableStream.SwitchableLocked` | internal/ai/switch.go:216-226 | refused after Release, with a candidate, or to the same worker, each under its own error |
| `SwitchableStreams.SwitchableStream.GiveUpSwitch` | internal/ai/switch.go:236-255 | giving up drops a candidate with fewer than three valid replies and returns; otherwise the result is awaited |
| `SwitchableStreams.SwitchableStream.PromoteIfIdle` | internal/ai/switch.go:259-267 | a resting candidate of an idle stream is promoted |
| `SwitchableStreams.SwitchableStream.CloseInput` | internal/ai/switch.go:271-282 | the current input closes and the candidate is dropped |
| `SwitchableStreams.SwitchableStream.ReleaseStream` | internal/ai/switch.go:285-300 | once: both legs are given up |
| `EgressWriter.StepKeepsInv` | internal/media/egress.go:931-1050 | every turn of the writer appends only what may follow the log, and keeps the held frame equal to the frame on screen |
| `EgressWriter.RunIsSafe` | internal/media/egress.go:931-1050 | over every run of turns each block is a slate, a valid camera frame of no other known resolution and of an allowed generation, or an exact repeat of the frame on screen within the gap limits |
| `EgressWriter.StartIsSafe` | internal/media/egress.go:931-950 | the same from the start of a process, with the stable callback exactly once from 300 blocks on |
| `EgressWriter.StableAtThreeHundred` | internal/media/egress.go:934-940 | the callback fires on the turn that writes block 300, and on no other |
| `EgressWriter.TickDecides` | internal/media/egress.go:989-1007 | what a tick writes, as a function of what is on screen, how long ago it came and its generation |
| `EgressWriter.PauseWritesOnlySlates` | internal/media/egress.go:1135-1139 | over any stretch of pause or recovery only slates are written |
| `EgressWriter.CameraDecides` | internal/media/egress.go:952-975 | what a camera frame comes to: mismatch, dropped, failed, or written, held and the gap ended |
| `EgressWriter.TickEffects` | internal/media/egress.go:976-1007 | when a tick fails, marks the input stalled, and lets go of the held frame |
| `EgressWriter.StartsRunning` | internal/media/egress.go:931-951 | a writer starts with nothing written and nothing held |
| `EgressWriter.FitsExactly` | internal/media/egress.go:1151-1156 | which frames are valid, by size or by their first and last two bytes |
| `EgressWriter.RawSizeByParity` | internal/media/ffmpeg.go:735-738 | the raw size for even and odd dimensions |
| `FrameWriters.FrameWriter.WriteCamera` | internal/media/egress.go:952-975 | one camera frame, as specified |
| `FrameWriters.FrameWriter.WriteSlate` | internal/media/egress.go:976-988 | one slate, after which nothing is held |
| `FrameWriters.FrameWriter.FillGap` | internal/media/egress.go:989-1007 | one tick without pause |
| `FrameWriters.FrameWriter.WriteFrames` | internal/media/egress.go:931-1050 | the whole loop is the run of its turns, and keeps the safety of the log |
| `FrameWriters.HeldFloor.InvalidateHeldFrame` | internal/media/egress.go:594-601 | the compare-and-swap loop ends with the highest generation anybody asked for, wherever others strike |
| `PrivacyPipeline.WriterExcludesReaders` | internal/media/processor.go:182-220 | a settings change and a frame are never under the lock together |
| `PrivacyPipeline.MovedOk` | internal/media/processor.go:291-306 | whatever a frame reads under the lock is what its generation stands for |
| `PrivacyPipeline.StampedFrameOk` | internal/media/track.go:506-522 | equal generations before and after mean the frame was treated wholly under the settings installed with it |
| `PrivacyPipeline.WrittenBlock` | internal/media/egress.go:952-1007 | a turn shows nothing or one block that passed against the floor it had looked at |
| `PrivacyPipeline.StepShows` | internal/media/egress.go:952-1007 | blocks are shown by writes alone, and the frame is the one that had passed when the turn looked |
| `PrivacyPipeline.StepKeepsInv` | internal/media/processor.go:182-246 | every load, store, lock operation, read of a settings field, look and write of the writer keeps: frames stamped g > 0 were treated wholly under the settings installed with g |
| `PrivacyPipeline.RunKeeps` | internal/media/egress.go:952-1007 | over every interleaving: whatever is shown later was checked against at least the present floor, except for at most the first block, whose frame had already passed |
| `PrivacyPipeline.InvalidationIsSound` | internal/media/egress.go:594-607 | main theorem: after InvalidateHeldFrame(g), along every run, each camera frame shown was treated wholly under one generation, g or later, except for at most one block, the first, whose frame had passed the check before and was still to be written |
| `PrivacyPipeline.NothingOlder` | internal/media/egress.go:594-607 | if no turn had looked and not yet written, there is no exception |
| `PrivacyPipeline.OlderShownExactly` | internal/media/egress.go:958-962 | some run after InvalidateHeldFrame(g) shows an older camera frame if and only if one had passed the check and was still to be written |
| `PrivacyPipeline.OlderSlipsThrough` | internal/media/egress.go:958-962 | the write that was due is such a run |
| `PrivacyPipeline.OlderIsReachable` | internal/media/egress.go:958-962 | and such a state is reached from the start: a concrete run |
| `PrivacyPipeline.NothingUntreated` | internal/media/egress.go:587-594 | if every generation from g on anonymizes or blurs, no untreated picture is shown afterwards, with the same single exception |
| `PrivacyAnswers.SuspendedIsQuiet` | internal/media/processor.go:155-170 | main theorem over every run: while AI input is suspended no frame of the session is looked at, sent or put out, not even one that was on its way |
| `PrivacyAnswers.SetterTakesEffect` | internal/media/processor.go:182-220 | a setter makes its setting; a real change gets a generation larger than any before that stands for the new settings, no change keeps it |
| `PrivacyAnswers.StartsAnonymizing` | internal/media/processor.go:103-142 | a new processor anonymizes, does not blur and is not paused |
| `PrivacyAnswers.WriterMoves` | internal/media/egress.go:931-1050 | the writer moves by completing the turn it looked at and by being started anew |
| `PrivacyAnswers.AnyLook` | internal/media/egress.go:1010-1045 | the writer may look at the end, a tick or any stamped frame, against the present floor |
| `PrivacyAnswers.FloorRises` | internal/media/egress.go:594-601 | the floor becomes the highest generation asked for |
| `PrivacyAnswers.TreatmentMeans` | internal/media/processor.go:291-306 | blur before everything, then anonymization, else the original |
| `FailClosed.CallTracks` | internal/media/processor.go:326-369 | one frame keeps the latch equal to the rule |
| `FailClosed.LatchFollowsHistory` | internal/media/processor.go:326-369 | main theorem: over every run the latch is on exactly when, since the last success, a call failed definitely or more calls timed out than the threshold, said of the outcomes of the calls |
| `FailClosed.LatchFlags` | internal/media/processor.go:326-369 | when the AI is called and what that does to latch, counter and probe time |
| `FailClosed.ProbesAreSpaced` | internal/media/processor.go:326-334 | over every run a call while latched comes at least one interval after every earlier call |
| `FailClosed.Judged` | internal/media/processor.go:411-436 | a reply counts as AI data if and only if it answers this timestamp, carries no error code, says success and is not empty |
| `FailClosed.JudgedExactly` | internal/media/processor.go:400-436 | what counts as success, timeout, failure and cancellation, each by the outcome of the call |
| `FailClosed.SuccessByLetters` | internal/media/processor.go:429-431 | which status says success, letter by letter |
| `FailClosed.FreezeNeverLatches` | internal/media/processor.go:353-356 | over every run under the freeze policy nothing latches, and a picture comes out exactly on success |
| `FailClosed.ServedCaches` | internal/media/processor.go:487-537 | what is remembered of it |
| `FailClosed.SubstituteMeans` | internal/media/processor.go:458-537 | which substitute is served |
| `FailClosed.OnlyTreatedLeaves` | internal/media/processor.go:308-380 | in any format and under any policy what leaves the latch machine is a blur, a black picture or the data of a successful reply to this very frame |
| `FailClosed.OutputIsClosed` | internal/media/processor.go:308-380 | for raw frames with real dimensions it is that data or a substitute of exactly the raw size, and nothing comes out if and only if the request was cancelled while unlatched |
| `FailClosed.RunKeepsCache` | internal/media/processor.go:487-510 | the cached black frame has the recorded size over every run, if that size is real |
| `FailClosed.ZeroDimensionsServeTheCache` | internal/media/processor.go:487-500 | without dimensions a substitute comes out exactly when the same zero dimensions were recorded over a cached frame |
| `FailClosed.StaleBlackFrame` | internal/media/processor.go:487-500 | and then its size is that of the old frame: the whole family of such runs |
| `FailClosed.RawSizeZero` | internal/media/ffmpeg.go:735-738 | the raw size is zero exactly for a zero dimension |
| `Processors.Processor.constructor` | internal/media/processor.go:103-142 | a new processor anonymizes, is unlatched and has a generation of its own |
| `Processors.Processor.Set` | internal/media/processor.go:182-220 | a setter gives a real change a generation larger than any before, and leaves the generation otherwise |
| `Processors.Processor.PaintBlack` | internal/media/processor.go:495-510 | the loops paint luma 0x10 and chroma 0x80 |
| `Processors.Processor.BlackoutFrame` | internal/media/processor.go:487-537 | the cached or rebuilt black frame |
| `Processors.Processor.ServeBlackout` | internal/media/processor.go:458-474 | blur where possible, black otherwise, nothing when neither can be made |
| `Processors.Processor.ProcessImage` | internal/media/processor.go:400-437 | the checks on a reply, in order, give the specified verdict |
| `Processors.Processor.Process` | internal/media/processor.go:325-377 | one call of the latch machine |
| `Processors.Processor.ScreenBlur` | internal/media/processor.go:478-485 | a substitute of the right size, never the picture or AI data |
| `Processors.Processor.ProcessIfAIInputEnabled` | internal/media/processor.go:291-306 | paused, blurred, untouched or processed, exactly by the settings |
| `OperationGate.StepKeepsInv` | internal/auth/withdrawal_gate.go:41-195 | every critical section keeps: the entry that matters is the one in the map, it counts exactly its operations, at most one withdrawal, and the cancel list is exact |
| `OperationGate.GrantedStandsAlone` | internal/auth/withdrawal_gate.go:124-179 | a granted withdrawal coexists with no operation and no second withdrawal of its user |
| `OperationGate.WithdrawalShutsOut` | internal/auth/withdrawal_gate.go:50-53 | while a withdrawal waits or holds, nothing of its user is admitted |
| `OperationGate.BlockedMeansBusy` | internal/auth/withdrawal_gate.go:107-120 | a withdrawal still blocked has an operation to wait for: no wake-up is lost |
| `OperationGate.RunningWasCancelled` | internal/auth/withdrawal_gate.go:146-149 | every cancellable operation at work during a withdrawal has been cancelled |
| `OperationGate.StepKeepsDeleted` | internal/auth/withdrawal_gate.go:183-195 | a deletion mark survives every step, entry collection included |
| `OperationGate.OpsOnlyFromBegin` | internal/auth/withdrawal_gate.go:41-63 | only an admitted begin adds an operation |
| `OperationGate.RunKeepsGate` | internal/auth/withdrawal_gate.go:41-195 | main theorem over every run: all of this, and a deleted user never gets another operation |
| `GateRefinement.StepRefines` | internal/auth/withdrawal_gate.go:41-195 | main theorem: every step is the same step of a gate that keeps only operations, withdrawals and deleted users, without entries, counters, channels and collection |
| `GateRefinement.RunRefines` | internal/auth/withdrawal_gate.go:41-195 | and so is every run |
| `GateRefinement.MapIsExact` | internal/auth/withdrawal_gate.go:107-120 | over every run a user has an entry exactly while it has an operation or a withdrawal or is deleted: nothing idle is kept |
| `GateRefinement.CountersMean` | internal/auth/withdrawal_gate.go:16-40 | an entry's counter and flag say exactly whether the user has an operation at work and a withdrawal |
| `GateRefinement.OpenExactly` | internal/auth/withdrawal_gate.go:50-53 | a user is admitted exactly without withdrawal and deletion |
| `GateRefinement.WakesExactly` | internal/auth/withdrawal_gate.go:150-165 | a waiting withdrawal can go on, and holds the gate, once nobody is at work |
| `UserOperationGates.UserOperationGate.Begin` | internal/auth/withdrawal_gate.go:41-105 | one begin step; admitted exactly when nobody withdraws and the user is not deleted |
| `UserOperationGates.UserOperationGate.LeaveCancels` | internal/auth/withdrawal_gate.go:98-101 | off the cancel list |
| `UserOperationGates.UserOperationGate.End` | internal/auth/withdrawal_gate.go:107-120 | one end step: the last one wakes the waiting withdrawal and may collect the entry |
| `UserOperationGates.UserOperationGate.CancelAll` | internal/auth/withdrawal_gate.go:147-149 | exactly the listed operations are cancelled |
| `UserOperationGates.UserOperationGate.StartWithdrawal` | internal/auth/withdrawal_gate.go:124-150 | one begin-withdrawal step, with each of its answers by its own condition |
| `UserOperationGates.UserOperationGate.Recheck` | internal/auth/withdrawal_gate.go:150-165 | one turn of the wait loop |
| `UserOperationGates.UserOperationGate.Reopen` | internal/auth/withdrawal_gate.go:155-178 | giving up and release: the entry is open again and collected if nothing is left |
| `UserOperationGates.UserOperationGate.Delete` | internal/auth/withdrawal_gate.go:183-195 | one deletion step |
| `UserOperationGates.UserOperationGate.IsWithdrawing` | internal/auth/withdrawal_gate.go:198-206 | whether a new operation would be refused |
| `AnnexB.AnnexBStartCodeAt` | internal/media/h264.go:373-386 | the loop finds the first start code at or after an offset, and its length |
| `AnnexB.NextInPrefix` | internal/media/h264.go:373-386 | a prefix shows the next start code of the whole stream completely, or shows none |
| `AnnexB.UnitsConcat` | internal/media/h264.go:395-444 | the units of a stream concatenate to exactly the stream |
| `AnnexB.CutsAreDelimiters` | internal/media/h264.go:395-444 | units are cut exactly at the second and later access unit delimiters found by one scan of the whole stream |
| `AnnexB.SecondIsSecond` | internal/media/h264.go:409-421 | the end of the first unit is the second delimiter of the one-shot scan |
| `AnnexB.AudStartsExactly` | internal/media/h264.go:395-444 | the scan finds exactly the positions of a start code of four bytes, or of three that do not end one of four, before a unit of type nine |
| `AccessUnitReaders.StepBack` | internal/media/h264.go:399-403 | moving the scan offset back loses no start code and finds no old one again |
| `AccessUnitReaders.AccessUnitReader.ScanBuffered` | internal/media/h264.go:396-423 | looking at what is buffered either ends the unit where the whole stream says, or leaves nothing to learn |
| `AccessUnitReaders.AccessUnitReader.Read` | internal/media/h264.go:395-444 | the incremental reader returns the stream up to its second delimiter, errs exactly when that exceeds the limit, and ends with the stream |
| `AccessUnitReaders.AccessUnitReader.ReadAll` | internal/media/h264.go:395-444 | all units of the stream are returned exactly when each is within the limit |
| `NalUnits.SplitAnnexBNALUs` | internal/media/h264.go:351-371 | the loop computes the specified list of NAL units |
| `NalUnits.SplitUndoesJoin` | internal/media/h264.go:351-371 | splitting the join of any units without inner start code and final zero, with any mix of start codes, returns them |
| `NalUnits.RemoveEmulationPrevention` | internal/media/h264.go:622-637 | the loop computes the specified removal |
| `NalUnits.RemoveUndoesEscape` | internal/media/h264.go:622-637 | removal undoes the insertion inside every payload, with anything behind it |
| `NalUnits.RemoveUndoesInsert` | internal/media/h264.go:622-637 | with the final byte of section 7.4.1 it does so if and only if the final run of zero bytes has even length |
| `NalUnits.InsertIsAllowed` | internal/media/h264.go:622-637 | insertion yields only what section 7.4.1 allows, which can always be joined and split |
| `NalUnits.AllowedUnitsSurvive` | internal/media/h264.go:351-371 | splitting undoes joining for every list of units that section 7.4.1 allows |
| `NalUnits.PayloadsSurvive` | internal/media/h264.go:351-371 | escape, join, split, unescape returns every list of payloads |
| `ExpGolomb.BitReader.ReadBits` | internal/media/h264.go:645-655 | the next bits as a number, most significant first, without loss in 32 bits |
| `ExpGolomb.BitReader.ReadUE` | internal/media/h264.go:657-677 | succeeds with v exactly when the code of v stands at the present bit and v is at most 2^32 - 2, and moves past it |
| `ExpGolomb.BitReader.ReadSE` | internal/media/h264.go:679-688 | the same for signed values of section 9.1.1 |
| `ExpGolomb.CodeInFront` | internal/media/h264.go:657-677 | what it takes for the code of v to stand in front |
| `ExpGolomb.OneCode` | internal/media/h264.go:657-677 | no code is the beginning of another |
| `ExpGolomb.SignedRange` | internal/media/h264.go:679-688 | the signed values in range |
| `ExpGolomb.CodeReadsBack` | internal/media/h264.go:657-677 | the code of v is v + 1 in binary with one zero in front for every digit but the first |
| `ExpGolomb.BitsMakeTheByte` | internal/media/h264.go:645-655 | eight bits, most significant first, make the byte |
| `ExpGolomb.SignedTable` | internal/media/h264.go:679-688 | positive values take the odd places of table 9-3, negative ones the even |
| `TokenRotation.StepKeepsInv` | internal/auth/chzzk_connect.go:177-244 | every call to store or platform, failure of a process and overlapping reconnect keeps: rejected tokens are not valid, marks are right, no token was handed out or consumed twice, none was read before it was stored |
| `TokenRotation.RotateKeeps` | internal/auth/chzzk_connect.go:204-229 | the process that rotates is handed a token nobody has seen, for one nobody else has rotated |
| `TokenRotation.WritingKeeps` | internal/auth/streaming_account.go:355-408 | so do storing, marking, unmarking and installing |
| `TokenRotation.ExactlyOneInstaller` | internal/auth/chzzk_connect.go:219-229 | until the connection is lost, a stored token that is not valid has exactly one process that will store the valid one, and its next step does so |
| `TokenRotation.ValidTokenStays` | internal/auth/streaming_account.go:355-408 | a stored valid token is replaced by nobody but a reconnect, and is not marked |
| `TokenRotation.RejectedForGood` | internal/auth/chzzk_connect.go:204-216 | a rejected token never becomes valid again |
| `TokenRotation.RunKeepsInv` | internal/auth/chzzk_connect.go:177-244 | over every run, failures and overlapping reconnects included |
| `TokenRotation.LosesExactly` | internal/auth/chzzk_connect.go:204-229 | a step loses the connection if and only if the installer fails, a token is rotated that is no longer stored, or a reconnect stores an outdated token while none is left with the newest |
| `TokenRotation.LostUntilReconnect` | internal/auth/chzzk_connect.go:204-229 | a lost connection comes back through a reconnect alone |
| `TokenRotation.NeverLost` | internal/auth/chzzk_connect.go:177-244 | main theorem over every run: never marked while the stored token is valid; lost in no state if and only if no step is one of the three; and none is if no process fails between being handed a token and storing it and one reconnect is under way at a time |
| `TokenRotation.TwoReconnects` | internal/auth/streaming_account.go:181-223 | a run from the start: two reconnects that store in the wrong order lose it |
| `TokenRotation.FailureLoses` | internal/auth/chzzk_connect.go:204-229 | a run from the start: a process that fails after its rotation loses it |
| `TokenRotation.RowMoves` | internal/auth/streaming_account.go:181-408 | what each step does to the stored row |
| `TokenRotation.ValidMoves` | internal/auth/chzzk_connect.go:204-229 | when the platform hands out a new token, and to whom |
| `TokenRotation.ProcessMoves` | internal/auth/chzzk_connect.go:177-216 | where a process goes next; a rejected token is worth a second attempt exactly once, and only if another one is stored |
| `AccessTokens.AccountStore.UpdateRefreshToken` | internal/auth/streaming_account.go:381-408 | compare-and-set of one row |
| `AccessTokens.AccountStore.MarkReconnectRequired` | internal/auth/streaming_account.go:355-367 | marks only the rejected token |
| `AccessTokens.AccountStore.ClearReconnectRequired` | internal/auth/streaming_account.go:369-379 | unmarks |
| `AccessTokens.AccountStore.Upsert` | internal/auth/streaming_account.go:181-223 | replaces token and mark |
| `AccessTokens.AccessTokenProvider.AccessToken` | internal/auth/chzzk_connect.go:177-239 | answers from the cache until a minute before expiry, or leaves the stored token valid and unmarked and caches until the new expiry, or says why not, also when overtaken by another process |
| `RefreshFamilies.StepKeepsInv` | internal/auth/refresh_store.go:42-207 | every transaction keeps each family one chain: all but the last token revoked and replaced by the next, expiries within the absolute limit |
| `RefreshFamilies.OneLiveToken` | internal/auth/refresh_store.go:51-166 | at most one unrevoked token per family, and it is the newest |
| `RefreshFamilies.ReplacedIsRevoked` | internal/auth/refresh_store.go:146-153 | replaced implies revoked |
| `RefreshFamilies.ExpiryBounded` | internal/auth/token.go:238-290 | no token outlives the family's first by more than the absolute limit, whatever the clocks |
| `RefreshFamilies.ReuseKills` | internal/auth/refresh_store.go:73-82 | presenting a replaced token revokes its whole family, newest token included; so do an inactive user and a logout |
| `RefreshFamilies.DeadStays` | internal/auth/refresh_store.go:248-255 | a family without unrevoked token never gets one again |
| `RefreshFamilies.RunKeepsFamilies` | internal/auth/refresh_store.go:42-207 | both over every run |
| `RefreshFamilies.ReuseEndsFamily` | internal/auth/refresh_store.go:73-82 | main theorem: in any reachable table, after a replaced token is presented no token of its family ever renews again |
| `RefreshAnswers.RenewsExactly` | internal/auth/refresh_store.go:51-166 | in every reachable table a new token is handed out if and only if the presented one is unreplaced, unrevoked and unexpired, its user active and admitted, and both limits are ahead, the absolute one counted from every row of the family |
| `RefreshAnswers.RotationAnswers` | internal/auth/refresh_store.go:51-137 | each outcome of presenting a token by its own condition |
| `RefreshAnswers.RotationEffects` | internal/auth/refresh_store.go:51-166 | what becomes of every row, outcome by outcome |
| `RefreshAnswers.LogoutAnswers` | internal/auth/refresh_store.go:168-207 | each outcome of a logout by its own condition, and what becomes of the rows |
| `RefreshAnswers.CreateAnswers` | internal/auth/refresh_store.go:42-49 | a session starts with one usable row, for an active user alone |
| `RefreshStores.RefreshStore.TakeFirst` | internal/auth/refresh_store.go:114-119 | the oldest row of the family |
| `RefreshStores.RefreshStore.RevokeFamily` | internal/auth/refresh_store.go:248-255 | exactly the unrevoked rows of the family are revoked |
| `RefreshStores.RefreshStore.CreateSession` | internal/auth/refresh_store.go:42-49 | one new row for an active user |
| `RefreshStores.RefreshStore.Rotate` | internal/auth/refresh_store.go:51-166 | outcome and table of one rotation step |
| `RefreshStores.RefreshStore.RevokeFamilyByHash` | internal/auth/refresh_store.go:168-207 | outcome and table of one logout step |
| `GuestAdmission.OneActiveTicket` | internal/server/guest_queue.go:261-322 | a guest has at most one waiting, admitted or consuming ticket |
| `GuestAdmission.AdmitAllKeeps` | internal/server/guest_queue.go:575-606 | the admit loop keeps what every ticket and session promises |
| `GuestAdmission.AdmitAllLimit` | internal/server/guest_queue.go:575-606 | and keeps sessions that stay plus reservations within the limit |
| `GuestAdmission.ConsumeKeeps` | internal/server/guest_queue.go:409-465 | so does a consumption, however it ends, also when its ticket is left stranded |
| `GuestAdmission.StepKeepsInv` | internal/server/guest_queue.go:261-606 | every operation keeps: index entries point to active tickets, waiting ones are in line and not reserved, surviving sessions come from one used ticket each |
| `GuestAdmission.RunKeepsInv` | internal/server/guest_queue.go:261-606 | over every run, stranded claims included |
| `GuestAdmission.ConsumeTakes` | internal/server/guest_queue.go:409-465 | how many places an accepted consumption takes, for each of its five endings, by whether one was still held for it |
| `GuestAdmission.LimitHolds` | internal/server/guest_queue.go:409-606 | main theorem over every run: all promises hold, one session per ticket; and surviving guest sessions plus reservations stay within the limit in every state if and only if no consumption overruns it |
| `GuestAdmission.UnstrandedHolds` | internal/server/guest_queue.go:409-606 | a run in which no claim is left stranded keeps the limit in every state |
| `GuestAdmission.ServedOnce` | internal/server/guest_queue.go:107-117 | a ticket that yielded a session that stayed is never accepted again |
| `GuestAdmission.FrontOfLine` | internal/server/guest_queue.go:47-67 | the admit loop takes a front part of the line, whatever the room |
| `GuestAdmission.NobodyOvertaken` | internal/server/guest_queue.go:532-606 | an admitted ticket came before every ticket that goes on waiting |
| `GuestAdmission.OverrunsExactly` | internal/server/guest_queue.go:261-606 | over all operations: a step breaks the limit if and only if it is an accepted consumption that completes or is put back, for which no place is held while every place is taken |
| `GuestAdmission.StrandedClaimOverruns` | internal/server/guest_queue.go:556-574 | a claim left consuming and then recovered outlives its reservation and two guests get one place: runs from the empty queue, for each ending that overruns |
| `GuestAnswers.SessionsAreEarned` | internal/server/guest_queue.go:409-465 | main theorem over every run: each session that stays was made by its own guest's consumption of an admitted ticket with the right token below the limit |
| `GuestAnswers.AcceptedExactly` | internal/server/guest_queue.go:107-117 | a consumption is accepted exactly for such a ticket |
| `GuestAnswers.RefusedChangesNothing` | internal/server/guest_queue.go:107-117 | a wrong token, a ticket not admitted, somebody else's ticket or no room changes nothing |
| `GuestAnswers.ConsumeEffects` | internal/server/guest_queue.go:119-137 | what becomes of ticket, reservation and sessions, ending by ending |
| `GuestAnswers.ConsumeMovesOne` | internal/server/guest_queue.go:409-465 | an accepted consumption touches no other ticket, index entry or reservation |
| `GuestAnswers.AdmissionIsComplete` | internal/server/guest_queue.go:575-606 | the admit loop stops when the line is empty or one of both limits is reached, not before, and passes neither |
| `GuestAnswers.AdmissionTerms` | internal/server/guest_queue.go:47-67 | who is admitted gets the admission time on ticket and reservation, who left the line waiting is admitted, nobody else changes |
| `GuestAnswers.CleanedExactly` | internal/server/guest_queue.go:532-574 | what the clean-up leaves in line, reserved and admitted |
| `GuestAnswers.JoinsExactly` | internal/server/guest_queue.go:261-322 | a ticket is made exactly for a guest not known, within the rate limit, while fewer than a hundred wait |
| `GuestAnswers.EnrolledExactly` | internal/server/guest_queue.go:299-308 | what a new ticket records |
| `GuestAnswers.CancelExactly` | internal/server/guest_queue.go:69-80 | a cancelled ticket is out of line, unreserved and unindexed; otherwise nothing changes |
| `GuestAnswers.HeartbeatExactly` | internal/server/guest_queue.go:139-152 | a heartbeat extends a guest's own waiting ticket, and nothing else |
| `GuestAnswers.ElapsedExactly` | internal/server/guest_queue.go:107-117 | keys vanish exactly when their time has come |
| `GuestAnswers.SessionEndsExactly` | internal/server/guest_queue.go:492-503 | a session that ends is gone and its ticket untouched |
| `GuestAnswers.DropIndexExactly` | internal/server/guest_queue.go:469-490 | the index entry goes exactly if it points to that session's ticket |
| `GuestQueues.GuestQueue.FirstInLine` | internal/server/guest_queue.go:47-50 | the lowest score, then the lowest name |
| `GuestQueues.GuestQueue.AdmitHead` | internal/server/guest_queue.go:47-67 | one run of the admit script |
| `GuestQueues.GuestQueue.PruneWaiting` | internal/server/guest_queue.go:91-102 | exactly the members that no longer wait leave the line |
| `GuestQueues.GuestQueue.DropExpiredReservations` | internal/server/guest_queue.go:547-555 | exactly the reservations whose time has come are dropped |
| `GuestQueues.GuestQueue.RecoverConsuming` | internal/server/guest_queue.go:556-574 | consuming tickets with a reservation are admitted again |
| `GuestQueues.GuestQueue.CleanupAndAdmit` | internal/server/guest_queue.go:532-606 | the specified clean-up and admission; the loop ends because every turn shortens the line |
| `GuestQueues.GuestQueue.CreateOrGet` | internal/server/guest_queue.go:261-322 | the specified operation, in place; existing, new, rate limited or full, each by its own condition |
| `GuestQueues.GuestQueue.Cancel` | internal/server/guest_queue.go:387-407 | the specified operation, in place, with its answer |
| `GuestQueues.GuestQueue.Heartbeat` | internal/server/guest_queue.go:359-385 | the specified operation, in place, and what the guest is told |
| `GuestQueues.GuestQueue.GuestSessionClosed` | internal/server/guest_queue.go:469-490 | the specified operation, in place |
| `GuestQueues.GuestQueue.Complete` | internal/server/guest_queue.go:129-137 | one run of the complete script |
| `GuestQueues.GuestQueue.Restore` | internal/server/guest_queue.go:119-127 | one run of the restore script |
| `GuestQueues.GuestQueue.Consume` | internal/server/guest_queue.go:409-465 | the specified operation, in place; a session comes only for an admitted ticket of the guest with the right token, and without one nothing changes |

## Left out

- Liveness and real time: every theorem is about safety; that a ready candidate or a waiting claim is served in bounded time is not stated.
- gRPC, WebRTC, FFmpeg processes, pipes, RTMP, SMTP and HTTP handlers: only their outcomes appear, as parameters of the steps.
- `AcquireClaim`'s wait loop: represented by its critical sections Acquire, Receive and Abandon in any order; a nil budget, which admits everything, is not modelled.
- `SetTierReserves` during a run, and what is promised under changing GPU mappings or duplicate AI targets: start-up configuration.
- NewPool: dialling, and its error for an empty target list.
- Observers, metrics, logging, SSE subscriptions, rate limits beyond their verdict: they do not change the modelled state.
- SetEgressVideoSize: sets the reference size of the mosaic without a new generation; it is called once while a processor is built.
- processImages: modelled as the steps of `PrivacyPipeline`, not as a loop, because what matters happens between its statements; the order of frames in the egress queue and what it drops are not modelled, any stamped frame may reach the writer at any time.
- FailClosed.OutputIsClosed: the size of the substitute is stated for raw frames, because a black JPEG takes its size from the header of the frame it was first made for; bypass and fixed-delay mode, which return the frame, are not modelled.
- Processors.Processor.ServeBlackout: the picture a blur computes and the bytes of a JPEG are not modelled, only that it is a blur or a black picture of that size.
- EgressWriter.RunIsSafe: a nil frame buffer counts as an empty one; a write that has begun when a pause starts is completed, so a block belongs to the moment its turn looked; when the floor is loaded relative to other goroutines is `PrivacyPipeline`.
- `nextEgressPhase`, reconnect budgets, audio muting beyond the stall flag: easy members.
- OperationGate.RunKeepsGate: the entry created for a user is collected only by the paths of the source; the memory of entries no longer in the map is kept by the model for operations still holding them.
- AccessUnitReaders.AccessUnitReader.Read: read errors other than the end of the stream, and the state after an error, are not modelled.
- SPS dimensions, bootstrap and RTP assembly: long straight-line parsing with little to prove.
- AccessTokens.AccessTokenProvider.AccessToken: interference is limited to one other process that rotates in between, because arbitrary interference is `TokenRotation`; transient store and platform errors end the call and are not modelled.
- Deleting a streaming account, and channel and stream columns of its row.
- RefreshFamilies.StepKeepsInv: transactions are atomic; the window that READ COMMITTED leaves between reading a family and revoking it is not modelled.
- Guest scores are integers, not floating point.
- Whitelist copies, reference faces, sessions and usage: reached only through the few counters and calls used here.
