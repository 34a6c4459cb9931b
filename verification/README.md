# IDOSI stock: allocation, priority offers and the Sale pool, verified

A model in Dafny of the parts of the repository where stock is shared out and where its weight is
accounted for, with proofs of what they promise. It covers three systems.

**Allocation of central stock** (`apps/worker`, `packages/domain`, and the two operations of
`packages/database` the jobs depend on). A session's snapshot offers scarce stock to waiting tickets,
one bag per ticket per round, and holds what it offers. Stores answer. The final run lets unanswered
offers lapse, allocates by strict priorities around a persistent ring of stores, turns the holds it
uses into reservations, returns the rest, records what is still missing as waiting demand, and
attaches reservations to shipments.

- `Common`, `Quantities`, `Ordering`, `WaterFill`: identifiers, sums over tables, first-come shares,
  sorting without ties, water levels.
- `PriorityPlanning`, `PlanProperties`, `PlanMeaning`: the plan of priority offers, with its loops, and what
  it promises, of its queues and of the tickets, offers and stock it is given.
- `Allocation`, `AllocationProperties`, `Rotation`: the round-robin allocator, its description without
  rounds, and fairness over many runs.
- `DemandSplit`: a merged demand split over its source lines.
- `StockTables`, `StockSnapshot`, `StockRun`, `StockPersist`, `StockOffers`, `StockWriting`,
  `StockShipping`, `StockIssue`, `LiveOffers`, `StockFinal`, `StockShortage`, `StockRefusals`,
  `StockOffering`, `StockMeaning`, `StockJobs`: the tables and the jobs over them; `StockOffering` tells what
  a snapshot offers, `StockMeaning` what a run did, row by row. `StockJobs.Warehouse` is the object whose methods are the jobs, the
  answers to offers and the receipt shortages; `StockTables.Inv` is what every one of them keeps, so it
  holds in every state that these methods reach: a product's reserved stock is the sum of its active
  reservations and of its offers' holds and never exceeds what is on hand; every line that grants
  something has exactly one reservation, of what it grants; a ticket's demand is what it received plus
  what it still waits for, and a store waits for a product with one ticket; a ticket has at most one live
  offer; a shipment line carries exactly the reservations linked to it. `StockTables.Standing`, that every
  accepted offer is for an open wait of its quantity until a run allocates it, is a separate property: all
  methods keep it but the declaration of a shortage.

**The Sale pool of a store** (`apps/api/src/memory-repository.ts`). Bags are sorted into Sale, Charity
and Cancel lots; grams move between buckets and stores; an external cumulative sales figure, which may
fall as well as rise, is settled against the Sale lots.

- `SaleLots`, `SaleSettlement`: taking from the oldest lots, returning to the newest, and the closed form
  of a settlement.
- `SalePool`: every command as a function of the state. `SaleInvariants`, `SaleRuns`: the books
  (`SaleInvariants.Inv`), kept by every command and hence over every run.
- `SaleMeaning`, `SaleReports`, `SaleTravels`: what each command does to lots, counters and history, told by
  their fields.
- `SaleLedger`: the object with its loops, proved to do what `SalePool` says.

**Two small state machines** of the API: `SyncThrottle` (the bounded throttle of manual syncs) and
`Conversions` (the versioned conversion rates of a product).

Bags and grams are natural numbers. Identifiers are integers, of which only order and equality matter;
ids the program derives by hashing are a function given by the caller and assumed free of collisions.
Instants are milliseconds, and a business date is the number of the day in Ho Chi Minh City, seven hours
ahead of UTC, as the program computes it. Sessions lie on their business date, as their creation demands,
and the times at which one worker takes its snapshots do not go back. The clock, sales figures, supplier
caps, merged requests and stores with an ordinary order are inputs. A job is one atomic step, as its
single lock and transaction make it.

## What the proofs found

- A second session of a business date may not offer a ticket that accepted and received a part
  earlier that day: the domain refuses a second effective offer per date, and the refusal aborts the
  whole snapshot. The snapshot's own comment (`apps/worker/src/postgres-repository.ts:343`) says two
  sessions of one date may each offer a ticket in turn. `PlanProperties.PlanOutcome` gives the exact
  condition, on the queue and the stock before the plan is made, `StockRefusals.SnapshotIsRefusedWhen` the
  same on the tables, `StockRefusals.SecondSnapshotIsRefused` tables on which it happens.
- `docs/multiple-allocation-sessions.md:56-58` promises at most one live offer per ticket over all
  sessions, although a snapshot only looks at offers up to its own business date. The promise holds
  because of the dates of a session: offers are made before the allocation time, which lies on the
  session's date, so no offer of a later date exists yet (`LiveOffers.NoLaterOffers`). Every method
  of the model keeps it, and with it the check that an allocated offer was accepted never fails
  (`LiveOffers.OffersAreReadable`).
- A receipt shortage on goods of one wait cancels the store's other wait for the product and folds its
  demand into the first (`packages/database/src/store-operations.ts:1192-1226`), without looking at offers,
  although the correction of a shortage does (1062-1077). If the cancelled wait has an accepted offer that no
  run has allocated yet, the final run of that offer's session fails, for all stores and on every retry:
  `StockJobs.Warehouse.DeclareShortage` says that the accepted offers keep their waits exactly when there is
  no such offer, `StockShortage.WaitChangedWhen` when a run fails so, `StockShortage.MergeStopsRun` and
  `StockShortage.ShortageStopsARun` that the one leads to the other.
- A wait that was folded away keeps its remaining quantity and no cancellation kind, so a later shortage
  on goods it had received opens it again and counts that quantity a second time:
  `StockShortage.ShortageCountsOnce` is the exact condition, `StockShortage.MergedDemandCountsTwice` an input.
- A shortage on goods of a cancelled wait becomes demand of its own, and its correction is then
  refused, because the store's wait is not the one of the goods (`StockShortage.CorrectionTakesBack`).
- Moving the charity weight of a lot that came from a transfer fails after it has changed the state,
  because such a lot has no bag: `SaleRuns.OnlyLotMovesFailLate` gives the exact condition,
  `SaleRuns.LateFailureIsReachable` a run that reaches it. The books survive it.
- Replacing a conversion rate whose end has already passed brings it back into force up to the start of
  its replacement. Earlier dates keep their rates exactly when the rate does not end before the
  replacement starts (`Conversions.ReplacingKeepsThePast`); `Conversions.EndedRateComesBack` is an input.
- The full throttle table drops its oldest key even when the key being granted is in the table already;
  two grants within the interval still need 10,000 other keys between them.

## Model

| member | source | states |
|---|---|---|
| WaterFill.FillIsUnique | apps/worker/src/planning.ts:109-122 | the number of bags and the claims alone decide what each ticket of a queue gets; the rounds have no say |
| WaterFill.FillIsFair | apps/worker/src/planning.ts:109-122 | no claimant with an open claim is more than one unit behind, and an earlier one is never behind a later one |
| WaterFill.MoreStockIsMonotone | apps/worker/src/planning.ts:109-122 | more units never lower any share |
| PriorityPlanning.SumClaims | apps/worker/src/planning.ts:46-68 | the accumulated claims are, for every ticket and product, the sum over all offers |
| PriorityPlanning.StockByProduct | apps/worker/src/planning.ts:69-74 | a product's stock is its snapshot less the claims it does not show yet, never negative |
| PriorityPlanning.GroupTickets | apps/worker/src/planning.ts:80-94 | exactly the tickets that may be offered, grouped by product |
| PriorityPlanning.ServeRound | apps/worker/src/planning.ts:109-121 | one round raises a water level by one, from the front, and loses no unit |
| PriorityPlanning.ServeInRounds | apps/worker/src/planning.ts:100-122 | the rounds end at the water level that the stock reaches |
| PriorityPlanning.PlanPriorityOffers | apps/worker/src/planning.ts:43-147 | the loops compute the plan described by sums over offers and water filling, including its refusals; the rows of `PlanMeaning` say what that plan gives whom |
| PlanProperties.PlanOutcome | packages/domain/src/priority-offers.ts:58-122 | a plan is refused exactly when the stock reaches, in its product's queue, a ticket that accepted an offer of the same business date, or when something is to be offered that would expire before it is made |
| PlanProperties.PlanOffersAreSound | apps/worker/src/planning.ts:80-141 | no ticket is offered twice, none with a live claim is offered again, none is offered more than it waits for |
| PlanProperties.PlanUsesTheStock | apps/worker/src/planning.ts:99-145 | per product exactly min(stock, eligible demand) is offered |
| PlanProperties.PlanningAgainOffersNothing | apps/worker/src/planning.ts:78-93 | planning again once the plan is carried out offers nothing |
| PlanProperties.ReplanWithClaims | apps/worker/src/planning.ts:55-74 | the same when the planned offers only count as claims |
| PlanProperties.ReplanWithHolds | apps/worker/src/postgres-repository.ts:320-346 | the same when they are held already and the snapshot fell by what they hold |
| PlanProperties.PlanIgnoresInputOrder | apps/worker/src/planning.ts:82-109 | the order of tickets and existing offers does not matter |
| PlanProperties.MoreStockNeverLowersAShare | apps/worker/src/planning.ts:103-125 | more stock of a product lowers no ticket's share |
| PlanProperties.LongerWaitIsNotBehind | apps/worker/src/planning.ts:103-125 | of two places of a product's queue the front one gets at least min(its eligible quantity, the other's share), and at most one bag more while the other lacks something |
| PlanMeaning.WhoMayBeOffered | apps/worker/src/planning.ts:75-94 | exactly the active tickets that lack something, with no pending and no confirmed offer and no offer of this session, may be offered, and for all they lack |
| PlanMeaning.EarlierRequestIsServedFirst | apps/worker/src/planning.ts:104-125 | of two tickets of a product the one requested earlier - then of the smaller store, then with the smaller id - is offered at least min(what it lacks, what the other is offered), and at most one bag more while the other lacks something |
| PlanMeaning.UnclaimedStockIsOffered | apps/worker/src/planning.ts:46-74 | of a product exactly min(snapshot less confirmed and answerable claims it does not show, what its tickets lack) is offered |
| PlanProperties.ReachedAreServed | apps/worker/src/planning.ts:99-125 | a ticket is offered something exactly when fewer tickets wait before it than bags are in stock |
| PlanProperties.SecondOfferOfTheDayAborts | packages/domain/src/priority-offers.ts:74-85 | an input of a later session of the date on which the whole plan is refused |
| Allocation.ServePlace | packages/domain/src/allocation.ts:389-425 | one stop of a round serves the first open demand of the store, and moves the cursor behind it |
| Allocation.PlayRound | packages/domain/src/allocation.ts:378-430 | one round of a priority serves every store with an open demand once, as far as stock lasts |
| Allocation.ServeTier | packages/domain/src/allocation.ts:376-431 | a priority ends at the water level of its stores around the ring |
| Allocation.AllocateInventory | packages/domain/src/allocation.ts:300-495 | it fails exactly for the invalid inputs listed one by one, and otherwise its outcome is the one described without rounds |
| AllocationProperties.PrioritiesAreStrict | packages/domain/src/allocation.ts:376-431 | by rank: a demand of a higher rank gets something only when every demand of a lower rank is met |
| AllocationProperties.PrioritiesInOrder | packages/domain/src/policy.ts:5-46 | by name: P0A before P0B, P1, P2 and P3, P0B before P1, P2 and P3, P1 before P2 and P3, P2 before P3; while a later one gets anything, no earlier one lacks anything |
| AllocationProperties.SmallerIdIsServedFirst | packages/domain/src/allocation.ts:355-370 | of two demands of a store and priority the one with the smaller id is met before the other gets anything |
| AllocationProperties.RingStartsAtTheCursor | packages/domain/src/allocation.ts:371-425 | the first priority with demand starts at the store under the cursor, or at the first of the ring, and goes round in ring order: an earlier store gets at least min(what it asks for, what a later one gets) |
| AllocationProperties.AllocationIsConserved | packages/domain/src/allocation.ts:455-476 | min(stock, demand) is allocated, and each demand splits into granted and remaining; the conservation check cannot fail |
| AllocationProperties.LeftOverServesAll | packages/domain/src/allocation.ts:376-431 | stock is left over only when every demand is met |
| AllocationProperties.StoresAreServedAlike | packages/domain/src/allocation.ts:389-425 | what two stores are granted in a priority differs by at most one unit, unless the lesser one is left with no demand of that priority |
| AllocationProperties.OutcomeIsUnique | packages/domain/src/allocation.ts:345-363 | the order in which demands are given changes no grant and no cursor |
| AllocationProperties.StepsMatchGrants | apps/worker/src/postgres-repository.ts:1610-1641 | a demand's steps are as many as its grant and in different rounds: neither metadata check can fail |
| Rotation.RunsContinueTheRing | packages/domain/src/allocation.ts:371-405 | allocator runs that each start at the cursor of the run before share their whole stock like one round robin, and leave the cursor where that would |
| Rotation.NoStoreFallsBehind | packages/domain/src/allocation.ts:371-405 | over any number of such runs, while every store asks for more than an equal share, no store is granted more than one unit more than another |
| DemandSplit.SplitOverSources | apps/worker/src/postgres-repository.ts:807-860 | source lines get what is left in order and consecutive slices of the steps; it fails exactly when grant and lines or steps do not reconcile |
| DemandSplit.SplitIsConserved | apps/worker/src/postgres-repository.ts:807-860 | granted and waitlisted bags of the lines add up to those of the demand |
| DemandSplit.LineGetsItsPart | apps/worker/src/postgres-repository.ts:807-860 | line by line: min(its quantity, what the lines before it leave), the steps after theirs, and its mark |
| DemandSplit.GrantsReconcile | apps/worker/src/postgres-repository.ts:858-860 | what the allocator grants always reconciles, so the error is unreachable |
| DemandSplit.FirstUnderallocatedSourceLine | apps/worker/src/postgres-repository.ts:1768-1779 | the first line the split leaves short; the last line when it leaves none short |
| DemandSplit.CoordinatesFollowTheRun | apps/worker/src/postgres-repository.ts:1643-1660 | lines of different demands of a priority never share round and place, and places follow the serving order |
| DemandSplit.PlaceInTheRun | apps/worker/src/postgres-repository.ts:1643-1660 | the round of the first step, and one more than the steps of its priority and round before it |
| DemandSplit.SourceLinesFollowTheRun | apps/worker/src/postgres-repository.ts:807-832 | the source lines of one demand start in later and later rounds |
| StockJobs.Warehouse.ApplyMovement | packages/database/src/warehouse.ts:111-128 | a movement is refused exactly when stock would turn negative or more would be reserved than is on hand |
| StockTables.DaysAreLocal | packages/database/src/order-sessions.ts:424-433 | a business date begins at midnight in Ho Chi Minh City and lasts 24 hours |
| StockJobs.Warehouse.ChangeOnHand | packages/database/src/warehouse.ts:111-128 | receipts and issues keep the invariant, and are refused when reserved goods would not be covered |
| StockJobs.Warehouse.IssueOrder | packages/database/src/reshare-orders.ts:115-242 | every hold a result still has is issued at once; per product exactly those goods leave the hand and the reserved stock, and no movement is refused |
| StockSnapshot.PlanResponse | packages/database/src/wait-ticket-operations.ts:1985-2037 | exactly when an offer is accepted, declined, expired or withdrawn; acceptance is whole, in time, and for no more than its ticket waits for |
| StockSnapshot.WhenWaitsEnd | packages/database/src/wait-ticket-operations.ts:1664-1707 | a wait ends with an offer that covered all of it, when it was made and now, if no other offer of the ticket waits for an answer or for a run |
| StockJobs.Warehouse.CancelForFullOffer | packages/database/src/wait-ticket-operations.ts:1664-1707 | a wait ends exactly when the ended offer covered all of it and no other offer is live |
| StockJobs.Warehouse.RespondOffer | packages/database/src/wait-ticket-operations.ts:1817-1983 | an answer changes one offer and at most its ticket, returns the hold unless accepted, and keeps the invariant |
| StockSnapshot.PlanFitsFreeStock | apps/worker/src/postgres-repository.ts:302-336 | per product no more is planned than is free now |
| StockSnapshot.PlannedRowsAreSound | apps/worker/src/postgres-repository.ts:348-367 | every planned offer is for a different waiting ticket, of its store and product, and records what it waits for |
| StockJobs.Warehouse.HoldOffers | apps/worker/src/postgres-repository.ts:348-383 | every hold fits: no movement of the snapshot is refused |
| StockJobs.Warehouse.CaptureSnapshot | apps/worker/src/postgres-repository.ts:208-415 | a captured snapshot is not captured again; the job fails exactly when the session is missing, has changed or is not runnable, or when it may make offers and the plan is refused, and leaves everything alone then; otherwise exactly the plan's offers are added and held; the invariant holds |
| StockOffering.OfferedRowsAre | apps/worker/src/postgres-repository.ts:348-383 | each row added is for a waiting ticket without a live offer, of its store and product, for part of what it waits for, held in full, and carries the session's dates |
| StockOffering.OlderWaitIsServedFirst | apps/worker/src/planning.ts:104-125 | on the tables: of two such tickets of a product the older one is offered at least min(what it waits for, what the other is offered), and at most one bag more while the other waits for more |
| StockOffering.FreeStockIsOffered | apps/worker/src/postgres-repository.ts:293-346 | on the tables: of a product exactly min(what the snapshot lists, what is free and, under a cap, free at the supplier, less claims without a hold; what such tickets wait for) is offered |
| LiveOffers.NoLaterOffers | apps/worker/src/postgres-repository.ts:293-322 | while a session can make offers no offer of a later business date exists, so the snapshot sees all of them |
| LiveOffers.OffersAreReadable | apps/worker/src/postgres-repository.ts:284-317 | only accepted offers were ever allocated, so the snapshot can read every offer |
| LiveOffers.AnswerKeepsClaims | docs/multiple-allocation-sessions.md:56-58 | an answer gives no ticket a second live offer, and accepts only what its ticket waits for |
| LiveOffers.TimeoutKeepsClaims | apps/worker/src/postgres-repository.ts:529-559 | the waits that unanswered offers end are nobody's accepted offer |
| LiveOffers.SnapshotKeepsClaims | docs/multiple-allocation-sessions.md:56-58 | a snapshot offers no ticket that has a live offer of any session |
| LiveOffers.RunKeepsClaims | docs/multiple-allocation-sessions.md:56-58 | a run allocates accepted offers only, each for its own ticket, and brings no offer back to life |
| LiveOffers.RunKeepsStanding | apps/worker/src/postgres-repository.ts:719-805 | a run serves a ticket only with the offer it allocates, so every accepted offer it leaves still stands for its wait |
| StockShortage.DeclaredDemand | packages/database/src/store-operations.ts:1176-1282 | whichever wait a shortage goes to, what the store waits for grows by the shortage, and by the remaining quantity of a folded wait that it opens again; no other store or product is touched |
| StockShortage.ShortageCountsOnce | packages/database/src/store-operations.ts:183-211 | the store waits for exactly the shortage more if and only if the goods did not come from a wait folded away earlier |
| StockShortage.MergedDemandCountsTwice | packages/database/src/store-operations.ts:1202-1226 | two shortages after which a store waits for three bags too many |
| StockShortage.WaitChangedWhen | packages/domain/src/allocation.ts:103-144 | a final run finds a changed wait exactly when an accepted, unallocated offer of its session had lost its wait before the run; its own expiry takes none away |
| StockShortage.StandingRunsProceed | packages/domain/src/allocation.ts:103-144 | no session's run can find a changed wait if and only if all accepted offers stand |
| StockShortage.MergeStopsRun | packages/database/src/store-operations.ts:1192-1226 | folding away a wait with an accepted, unallocated offer makes the run of its session fail, whatever the run is given, and leaves the invariant |
| StockShortage.ShortageStopsARun | packages/database/src/store-operations.ts:1192-1226 | tables and a shortage of one bag after which a session that could be allocated cannot |
| StockShortage.CorrectionTakesBack | packages/database/src/store-operations.ts:1032-1111 | a shortage just declared can be taken back, demand and ticket alike where nothing was folded, unless an offer of the wait is live; for goods of a cancelled wait it is always refused |
| StockJobs.Warehouse.DeclareShortage | packages/database/src/store-operations.ts:1114-1282 | the refusal, and which waits change to what; the invariant holds, and accepted offers keep their waits exactly when the wait folded away has no accepted, unallocated offer |
| StockShortage.ShortageGoesTo | packages/database/src/store-operations.ts:1114-1282 | ticket by ticket: the wait of the goods opens again for the shortage and takes over what another wait lacks, with the earlier of both ages, the other is folded away; other goods add to the store's wait or open one |
| StockJobs.Warehouse.CorrectShortage | packages/database/src/store-operations.ts:1005-1112 | the refusals, and what the wait becomes; the invariant holds and no accepted offer loses its wait |
| StockShortage.CorrectionGoesTo | packages/database/src/store-operations.ts:1014-1077 | exactly which wait is corrected, and when none is |
| StockShortage.CorrectedWait | packages/database/src/store-operations.ts:1078-1111 | what it becomes: goods of the wait itself are fulfilled again, others leave it |
| StockRefusals.SnapshotIsRefusedWhen | packages/domain/src/priority-offers.ts:74-85 | a snapshot in time is refused exactly when the stock reaches a waiting ticket that accepted an offer of the session's business date |
| StockRefusals.SecondSnapshotIsRefused | packages/domain/src/priority-offers.ts:74-85 | sound tables and a later session of the date whose snapshot is refused |
| StockJobs.Warehouse.ExpireOffers | apps/worker/src/postgres-repository.ts:461-510 | exactly the offers that may expire do, and each gives back what it holds; no release is refused |
| StockJobs.Warehouse.CancelTimedOut | apps/worker/src/postgres-repository.ts:537-559 | exactly the tickets whose whole wait was offered and left unanswered are cancelled |
| StockRun.AllocatableSnapshotQuantity | apps/worker/src/postgres-repository.ts:1538-1540 | never more than the snapshot showed nor than there is now |
| StockJobs.Warehouse.LoadAllocationCapacity | apps/worker/src/postgres-repository.ts:1516-1536 | free stock under the supplier's cap plus the holds of the session's accepted offers |
| StockRun.PlanIsFeasible | packages/domain/src/allocation.ts:103-144 | the grants for waits go to waiting tickets of the product and stay within what each waits for |
| StockRun.GrantFits | apps/worker/src/postgres-repository.ts:626-641 | what is allocated fits into free stock and own holds |
| StockRun.KeptFits | apps/worker/src/postgres-repository.ts:659-685 | the kept holds of a product are part of what the run allocates of it, so the additional reservation is never negative |
| StockJobs.Warehouse.AllocateItems | apps/worker/src/postgres-repository.ts:626-658 | every snapshot product is planned by the allocator, or the run fails on an accepted wait that no longer stands or on refused input |
| StockMeaning.PlanIsGiven | apps/worker/src/postgres-repository.ts:626-658 | a product's stock is min(snapshot, free stock under the cap plus the holds of the session's accepted offers), never negative; ring and cursor are those given |
| StockMeaning.RunAnswersRequest | packages/domain/src/allocation.ts:84-101 | every merged demand of a planned product is answered exactly once, with its store, its priority and the sum of its lines |
| StockMeaning.RunAnswersOnlyRequests | packages/domain/src/allocation.ts:84-101 | what is answered beside the waits is a merged demand |
| StockMeaning.WaitsAreAnswered | packages/domain/src/allocation.ts:103-170 | every accepted, unallocated offer of the session is answered as P0A, for its ticket and what was accepted |
| StockMeaning.AnswersAreWaits | packages/domain/src/allocation.ts:103-170 | no other wait is answered |
| StockMeaning.RunServesByPriority | packages/domain/src/allocation.ts:376-431 | while a merged demand of a product is granted anything, none of a higher priority lacks anything, and no accepted offer does |
| StockWriting.GrantsByTicket | apps/worker/src/postgres-repository.ts:659-669 | the map holds for each ticket the grant of its last remainder |
| StockJobs.Warehouse.ConvertHolds | apps/worker/src/postgres-repository.ts:670-685 | every accepted offer gives up its hold, keeping for the run exactly min(hold, grant); no release is refused |
| StockWriting.KeptIs | apps/worker/src/postgres-repository.ts:670-685 | of its hold an offer keeps min(hold, what its ticket is granted) |
| StockJobs.Warehouse.PersistWait | apps/worker/src/postgres-repository.ts:733-805 | the one new line names the ticket's accepted offer, the reservation equals the grant, and the ticket is served by it |
| StockJobs.Warehouse.PersistRequest | apps/worker/src/postgres-repository.ts:807-860 | the new lines are one per source line, each with what is left when its turn comes; with their reservations they add up to what the demand was granted and left without |
| StockPersist.ReservationBooked | apps/worker/src/postgres-repository.ts:867-887 | the additional reservation is not negative, is never refused, and balances the product's books |
| StockJobs.Warehouse.PersistItem | apps/worker/src/postgres-repository.ts:719-887 | a product's whole result is written and reserved stock again covers reservations and holds |
| StockJobs.Warehouse.PersistItems | apps/worker/src/postgres-repository.ts:719-889 | per product exactly what the run grants is reserved; the new lines are exactly the run's, product by product; nothing kept is lost |
| StockPersist.AllWaitRemaindersTotal | apps/worker/src/postgres-repository.ts:861-864 | new waiting demand is exactly what requests did not get |
| StockJobs.Warehouse.PersistWaitRemainders | apps/worker/src/postgres-repository.ts:1694-1762 | each store's demand for each product grows by what was left waiting; only a waiting ticket grows, open wait and demand alike, and a new one waits for all of its demand |
| StockJobs.Warehouse.ShipGroup | apps/worker/src/postgres-repository.ts:1115-1153 | a shipment line carries every riding reservation of its store and product, and its quantity is theirs |
| StockJobs.Warehouse.MaterializeOutboundRequests | apps/worker/src/postgres-repository.ts:1028-1185 | every reservation that may ship rides on exactly one new line, one line per store and product, all others stay as they were |
| StockJobs.Warehouse.CompleteRun | apps/worker/src/postgres-repository.ts:643-991 | once every product is planned the run cannot fail: what it grants is reserved, served, put on lines and shipments, and the invariant holds |
| StockJobs.Warehouse.FinalizeAllocation | apps/worker/src/postgres-repository.ts:417-991 | a completed run is not repeated; a run fails exactly for a session that is missing, has changed or is not runnable, a missing snapshot, an accepted offer whose wait changed, refused input or a demand without a snapshot product, in this order, and changes nothing then; otherwise everything the run promises is done, line by line, and the invariant holds; the rows of `StockMeaning` tell it field by field |
| StockFinal.RoomAfterConversion | apps/worker/src/postgres-repository.ts:643-685 | after holds are converted each product's grant still fits on hand |
| StockFinal.AcceptedIsAllocated | apps/worker/src/postgres-repository.ts:611-622 | an accepted offer of the session gets its result line, so no later run allocates it again |
| StockShortage.RunFailsInOrder | apps/worker/src/postgres-repository.ts:417-660 | the failures of a run in their order, told by the tables before it |
| StockMeaning.RunChangesOffers | apps/worker/src/postgres-repository.ts:461-685 | exactly the unanswered offers due by the allocation time lapse, exactly the accepted ones allocated give up their holds, all others stay |
| StockMeaning.RunEndsWaits | apps/worker/src/postgres-repository.ts:529-559 | exactly the waits covered by a lapsed offer, with no other live one, are cancelled before the allocation |
| StockMeaning.RunServesTicket | apps/worker/src/postgres-repository.ts:733-805 | a ticket receives what the plans grant it, is fulfilled when that is all it waited for, and grows only while it waits |
| StockMeaning.RunOpensWaits | apps/worker/src/postgres-repository.ts:861-889 | what a store ever waited for of a product grows by exactly what its requests did not get of it |
| StockMeaning.RunWritesWaitLine | apps/worker/src/postgres-repository.ts:733-805 | each accepted offer has its line: what was accepted, granted and left |
| StockMeaning.RunWritesRequestLine | apps/worker/src/postgres-repository.ts:807-860 | each source line of a merged demand has its line: its quantity, min(that, what the lines before it leave of the grant), and the rest |
| StockMeaning.RunWritesNothingElse | apps/worker/src/postgres-repository.ts:719-860 | there are no other lines, and each is of its store and product and adds up |
| StockMeaning.RunShips | apps/worker/src/postgres-repository.ts:1028-1185 | a reservation gets on a new shipment line exactly when it was on none, its store has an ordinary order, and it is of this run or of a completed one whose result may ship; nothing else about it changes |
| SaleLots.DrainFrom | apps/api/src/memory-repository.ts:7888-7905 | taking from a bucket takes what is asked, as far as the lots reach |
| SaleLots.DrainTwice | apps/api/src/memory-repository.ts:5025-5046 | taking twice is taking once, so counters may be debited one after the other |
| SaleLots.RefundTotals | apps/api/src/memory-repository.ts:5003-5021 | a reversal that fits raises Sale and lowers the lots' room by exactly its weight |
| SaleSettlement.SettlementTotals | apps/api/src/memory-repository.ts:4992-5048 | Sale plus applied is unchanged, and applied becomes min(targets, applied + Sale) |
| SaleSettlement.SettlementSettles | apps/api/src/memory-repository.ts:4992-5048 | afterwards no counter is beyond its target, and each has reached it unless Sale is empty |
| SaleSettlement.SettledStays | apps/api/src/memory-repository.ts:4992-5048 | a settled product is left as it is |
| SaleSettlement.SettlementIsIdempotent | apps/api/src/memory-repository.ts:4992-5048 | a second settlement changes nothing |
| SaleMeaning.SettledTotals | apps/api/src/memory-repository.ts:4992-5048 | of a slot: Sale plus applied stays, and applied becomes min(the sum of max(0, observed - baseline), applied + Sale) |
| SaleMeaning.SettledRows | apps/api/src/memory-repository.ts:4992-5048 | only Sale weight and applied weight of the one slot change |
| SaleMeaning.EarlierCountersArePaidFirst | apps/api/src/memory-repository.ts:4996-5047 | sales are charged to the earlier month first, in a month to sales by weight first |
| SaleMeaning.NewestAreRefundedFirst | apps/api/src/memory-repository.ts:5003-5021 | no reversed sale reaches a lot while a newer one has room |
| SaleMeaning.CreditIs | apps/api/src/memory-repository.ts:4759-4773 | a credit adds the two counters of the month to a slot without Sale weight, starting at the figure on record, and notes its first month; other slots and buckets stay |
| SaleInvariants.ReversalFits | apps/api/src/memory-repository.ts:5003-5022 | the room of the lots covers every reversal, so "Cannot reverse" is unreachable |
| SaleInvariants.SettleCompletes | apps/api/src/memory-repository.ts:4992-5048 | settling the one product a command touched completes the books |
| SaleRuns.SortBagKeepsInv | apps/api/src/memory-repository.ts:4690-4804 | sorting a bag keeps the books |
| SaleRuns.MoveBucketKeepsInv | apps/api/src/memory-repository.ts:5363-5445 | so does every move between buckets |
| SaleRuns.MoveLotKeepsInv | apps/api/src/memory-repository.ts:4844-4912 | so does moving the charity weight of one lot, even when it fails late |
| SaleRuns.ObserveKeepsInv | apps/api/src/memory-repository.ts:4957-4990 | so does every sales report, rising or falling |
| SaleRuns.DispatchKeepsInv | apps/api/src/memory-repository.ts:5518-5640 | so does dispatching a transfer |
| SaleRuns.ReceiveKeepsInv | apps/api/src/memory-repository.ts:5642-5703 | so does receiving it |
| SaleRuns.WithdrawKeepsInv | apps/api/src/memory-repository.ts:5705-5765 | so does withdrawing it |
| SaleRuns.CommandKeepsInv | apps/api/src/memory-repository.ts:4690-5765 | grams are conserved, rooms match applied and moved weight, and every product is settled after every command |
| SaleRuns.Run | apps/api/src/memory-repository.ts:4690-5765 | the same over every run of commands |
| SaleRuns.OnlyLotMovesFailLate | apps/api/src/memory-repository.ts:4871-4900 | a command fails after changing the state exactly when it moves charity of a lot that came from a transfer |
| SaleRuns.LateFailureIsReachable | apps/api/src/memory-repository.ts:4871-4900 | a run from the start that reaches such a failure |
| SaleRuns.EarlierSalesAreNotCharged | apps/api/src/memory-repository.ts:4936-4980 | a new counter charges only sales since the figure on record, or since the first report when there was none |
| SaleRuns.BreakdownIsExact | apps/api/src/memory-repository.ts:5343-5355 | credited less Sale, transfers and moves is exactly what was applied as sales |
| SaleMeaning.SortMeans | apps/api/src/memory-repository.ts:4690-4804 | sorted weight leaves the bag and enters the named bucket of the bag's lot, no other; Sale weight is credited and settled |
| SaleMeaning.MoveMeans | apps/api/src/memory-repository.ts:5363-5445 | each of the six moves takes from and gives to the buckets it names, oldest lots first, and writes what it did into the history |
| SaleMeaning.MoveRefusedWhen | apps/api/src/memory-repository.ts:5363-5390 | refused for nothing, for more than the bucket holds, and a final cancellation for less |
| SaleMeaning.LotMoveMeans | apps/api/src/memory-repository.ts:4844-4912 | one lot loses charity weight, into its own Sale or out; no other lot's buckets change |
| SaleReports.ReportMeans | apps/api/src/memory-repository.ts:4957-4990 | for every product credited to the store by the report's month: a figure is observed by its counter, starts one that waited for it, and as much is applied as targets and Sale allow; all other counters, lots and slots stay |
| SaleRuns.DispatchedLots | apps/api/src/memory-repository.ts:5545-5625 | the lots lose exactly the lines' weight, product by product, all of it booked as transferred out |
| SaleTravels.DispatchedWhen | apps/api/src/memory-repository.ts:5534-5600 | exactly when a dispatch is accepted |
| SaleTravels.DispatchMeans | apps/api/src/memory-repository.ts:5518-5640 | lots lose Sale weight only, the oldest first, each slot what the lines ask; the transfer names source, destination and lines |
| SaleTravels.ReceiveMeans | apps/api/src/memory-repository.ts:5642-5703 | each line becomes a lot of the destination, all Sale and credited, other buckets empty; the slots' counters and first months |
| SaleTravels.WithdrawMeans | apps/api/src/memory-repository.ts:5705-5765 | each line becomes a lot of the source again; no counter and no first month is added |
| SaleRuns.ReceivedLinesAreCreditedOnce | apps/api/src/memory-repository.ts:5664-5689 | each line of a received transfer is credited once, to the destination |
| SaleRuns.ReturnedLinesAreCreditedOnce | apps/api/src/memory-repository.ts:5727-5744 | each line of a withdrawn transfer is credited once, to the source |
| SaleLedger.TakeWeight | apps/api/src/memory-repository.ts:7888-7905 | oldest lots first; nothing exactly when the weight is zero or more than the lots hold |
| SaleLedger.Ledger.ReturnToNewest | apps/api/src/memory-repository.ts:5003-5021 | the loop refunds the newest lots first and returns what they have no room for |
| SaleLedger.Ledger.DebitOldest | apps/api/src/memory-repository.ts:5029-5046 | the loop debits the oldest lots first and returns what they gave |
| SaleLedger.Ledger.ReversePass | apps/api/src/memory-repository.ts:4999-5024 | the pass fails exactly when the excesses exceed the room; otherwise it caps every counter and refunds all of it |
| SaleLedger.Ledger.DebitPass | apps/api/src/memory-repository.ts:5025-5047 | counters are paid in order as far as Sale reaches |
| SaleLedger.Ledger.SettleSlot | apps/api/src/memory-repository.ts:4992-5048 | the two loop nests compute the closed form, and throw exactly when the room is too small |
| SaleLedger.Ledger.CreditAndSettle | apps/api/src/memory-repository.ts:4759-4773 | after a credit the settlement cannot throw and completes the books |
| SaleLedger.Ledger.InitializeSaleBaseline | apps/api/src/memory-repository.ts:4936-4955 | existing counters are left alone; both counters of the slot and month exist afterwards, and a new one charges nothing |
| SaleLedger.Ledger.CreateSorting | apps/api/src/memory-repository.ts:4690-4804 | its refusals; otherwise the weight goes from the bag to the named bucket, Sale weight credited and settled, and the books stay |
| SaleLedger.Ledger.ReceiveInBag | apps/api/src/memory-repository.ts:3951-3989 | a new bag enters with its whole weight |
| SaleLedger.Ledger.CreateOutbound | apps/api/src/memory-repository.ts:4535-4588 | a document may only ask for what its bag holds, and takes nothing yet |
| SaleLedger.Ledger.ReviewStoreOutbound | apps/api/src/memory-repository.ts:4590-4672 | a document is reviewed once; approved, its weight leaves the bag, never more than it holds; rejected, nothing does |
| SaleLedger.Ledger.MoveBetweenBuckets | apps/api/src/memory-repository.ts:5363-5445 | its refusals; otherwise the move does to buckets, lots, history and counters what its name says, and the books stay |
| SaleLedger.Ledger.MoveCharityOfLot | apps/api/src/memory-repository.ts:4844-4912 | its refusals and its late failure; the charity weight of that one lot moves |
| SaleLedger.Ledger.ApplySalesReport | apps/api/src/memory-repository.ts:4957-4990 | every credited product of the store follows its figures and is settled, everything else stays; the settlement cannot throw |
| SaleLedger.WriteBackLosesNothing | apps/api/src/memory-repository.ts:5568-5625 | with distinct products, writing back from captured copies equals taking line after line |
| SaleLedger.Ledger.CreateTransfer | apps/api/src/memory-repository.ts:5518-5640 | exactly when it is accepted; then every line's weight leaves its lots and the transfer is in transit, otherwise nothing changes |
| SaleLedger.Ledger.ReceiveTransfer | apps/api/src/memory-repository.ts:5642-5703 | once per transfer each line becomes a settled lot of its destination |
| SaleLedger.Ledger.CancelTransfer | apps/api/src/memory-repository.ts:5705-5765 | or, instead, each line comes back as a settled lot of its source |
| SaleLedger.Ledger.SoldByWeight | apps/api/src/memory-repository.ts:5314-5361 | the sold figure is what settlement applied; its clamp at zero never acts |
| SyncThrottle.OldestFades | apps/api/src/rate-limit.ts:88-92 | when the oldest key is dropped, 10,000 other keys were granted since or its interval has passed |
| SyncThrottle.StaysSpaced | apps/api/src/rate-limit.ts:81-97 | on a forward clock two grants of a key within the interval have 10,000 other keys between them |
| SyncThrottle.ManualSyncThrottle.Acquire | apps/api/src/rate-limit.ts:81-97 | waits exactly when a remembered grant is younger than the interval; at most 10,000 keys, in order of their last grant |
| Conversions.AtMostOneInForce | apps/api/src/memory-repository.ts:3100-3122 | a lookup by date finds at most one rate |
| Conversions.OnlyNewestIsActive | apps/api/src/memory-repository.ts:3148-3297 | only the newest version can be unretired |
| Conversions.ConversionBook.Create | apps/api/src/memory-repository.ts:3148-3207 | its refusals, the next version, and that from its start on it alone decides |
| Conversions.ReplacingKeepsThePast | apps/api/src/memory-repository.ts:3209-3264 | every date before the replacement starts keeps its rate exactly when the replaced rate does not end earlier |
| Conversions.EndedRateComesBack | apps/api/src/memory-repository.ts:3209-3264 | an ended rate that a replacement brings back into force |
| Conversions.ConversionBook.Replace | apps/api/src/memory-repository.ts:3209-3264 | which version is in force at every date afterwards, for every product |
| Conversions.ConversionBook.Retire | apps/api/src/memory-repository.ts:3266-3297 | the rate ends today, never before it started; the others keep their dates |
| Conversions.ConversionBook.EffectiveAt | apps/api/src/memory-repository.ts:3100-3122 | the one rate in force, if any |

## Left out

- Receipts beyond their shortages: a receipt line is settled hold by hold, and each hold is one declaration or correction of the model; the goods themselves, the priority label and the order item of a wait are not kept. Whether a wait was cancelled after a shortage was declared is an input of its correction.
- Other movements of central stock (shortage checks, emergency priority orders, revocation of results, cancellation of a wait by staff, waiting documents and decisions): only receipts and issues of stock and the issuing of a result are modelled beside the jobs and the answers to offers.
- Offers without an owning session (rows written before offers had one) and offers without a recorded basis.
- The domain's check that a wait ticket's own reservations add up, and of identifiers, dates and integer ranges of its inputs.
- Movement replay by ledger key: each source moves stock once in the model.
- `mergeOrderRequests`, the stored session, supplier caps, store order, cursors and the answers that let an earlier result ship are inputs of the run; merged demands have distinct ids.
- SQL, locks, retries and the deterministic ids: a job is one step, and ids do not collide.
- The source line a new wait ticket points to is found by `DemandSplit.FirstUnderallocatedSourceLine`; the ticket row does not keep it. Run totals and audit rows are not kept.
- The side totals of the Sale pool (credited, transferred out) are fields of the lot, written together with it; bag counts, timestamps and lot versions are not kept: whether a caller saw a lot's present version is an input of the one command that asks.
- Idempotency keys and access checks of the API, decimal formatting of weights, and the check that the product of a slot is in the catalogue when a baseline is recorded.
- StockJobs.Warehouse.ExpireOffers: status and hold of an offer change together, whereas the job updates all statuses after all releases of the same transaction.
- Allocation decisions of the memory adapter, the per-bag ledger with transfer costs, `LoginRateLimiter`, and the PostgreSQL adapters of the API: they would add members of the kinds already here.
- Web UI, HTTP plumbing, contracts, notifications, configuration and timers.
