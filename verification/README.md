# Order book verification

A Dafny model of a single-threaded limit order book and matching engine, with
proofs of what it promises. Three layers meet at explicit contracts.

**Allocation.** A price level is shared among its makers by price-time priority,
by size, or by size and time resting. `Allocation` states the five-clause contract
every policy owes the engine. `Fifo`, `ProRata` and `TimeProRata` give each policy
as a function, prove the contract, and say exactly who is paid what; their
`Allocate` methods run the loops - in 64 and 128 bit arithmetic for the weighted
two, in `MachineLevel` and `TimeProRataLoop` - and are proved to compute those
functions with no overflow and no lossy cast. `WaterFill` treats the capping loop
on its own: it ends at the one water-fill point, in whatever order makers are
capped, within one pass per maker. `EqualAges` compares the two weighted policies.

**Matching.** `Book` gives the book as callers see it: levels best first, stop
books nearest to firing first. `Engine` gives every operation as a function on it,
with the stop cascade, and proves the rules no operation breaks. `SweepFacts`,
`SelfTrade`, `Prints` and `Sharing` are about one sweep: what is traded, with whom,
for how much and in which order. `Contents` says what adding and cancelling do,
`Firing` which stop fires next. `Reports` holds what a caller is told against the
books before and after, in plain comparisons of prices, quantities and ids, over a
whole submission; `Consequences` draws from it. `Discipline` covers runs of submissions and
cancellations: never crossed, no satisfied stop left pending, admitted orders never
refused. `Stock` is about resting orders holding something, and `Hollows` about
what sweeps do when some hold nothing. `Accounting` follows every unit through a
submission and all it triggers. `Seeding` says what resting orders without matching
them can break, exactly when, and what is lost then. `Ticking` keeps parked prices
on the tick. `Independence` compares two runs under two policies, and `Venues`
applies that to the three policies here.

**Data structures.** `Ownership` relates the physical tables - level queues of
arena keys, arena, id index, stop books - to each other and to the book they show.
`Storage` states what a level store answers; `TreeStore`, `HashStore` and
`LadderStore` are the three layouts, and `Backend.dfy` turns everything the book
does to its levels into requests to any of them. `OrderBook.dfy` is the book as a
class over such a store that updates its tables in place, proved to do what
`Engine` says, errors and reports included. `StoreAgreement` concludes that no
caller can tell the stores apart, command by command. `OrderQueue.dfy` has the
doubly linked queues sharing one arena. `Decimals` and `Instrument` are the
boundary where decimals become grid points.

The policy is a parameter of the engine, constrained only by the contract, so every
engine theorem holds for any conforming policy.

Where the code does less than its comments or one's hopes say, the code is kept and
the condition is proved. Makers that have rested equally long are paid as pro-rata
pays them as long as scaling the weights shifts no bit out, and not in general
(`EqualAges.EqualAgesMakeItProRata`, `EqualAges.EqualAgesCanDiffer`). A notional
floor of zero can be refused or accepted depending on how many decimal places it is
written with (`Decimals.CeilScaledIgnoresScaleUnlessZero`). A seeded order can hold
nothing (`Seeding.SeedingKeepsRulesExactlyWhen`), and then a fill-or-kill order can
be told it was filled when it was not (`Hollows.FokKeepsItsPromiseExactlyWhen`,
`Seeding.HollowSeedFoolsFok`). A seed can cross the book
(`Seeding.SeedingCrossesExactlyWhen`), and can take the id the exchange is about to
mint, in which case an admitted order fails exactly when that id is in its way
(`Seeding.SubmissionFailsExactlyWhen`) and may have traded before it does
(`Seeding.FailureCanSwallowTrades`). Not every stop that an order's own last print
reaches fires: the cascade looks at the latest print only, so a stop stays parked
exactly when it is next in line at none of the cascade's turns
(`Consequences.StopStaysExactlyWhen`), and a run of five submissions leaves one
behind (`LeftBehind.StopCanBeLeftBehind`).

`dafny verify dfyconfig.toml` checks everything.

## Model

| member | source | states |
|---|---|---|
| Allocation.TouchedIsFaithful | src/allocation.rs:262-273 | the sparse result, in which an untouched maker is absent, carries exactly the dense shares |
| Allocation.SharesConserve | src/allocation.rs:5-11 | the fills add up to the shares they stand for, makers that are absent counting zero |
| Allocation.ContractFromShares | src/allocation.rs:5-11 | shares that fit, sit on the grid and add up to min(available, total) make fills meeting all five clauses |
| Allocation.CrumbsGoToTheFront | src/allocation.rs:247-255 | the crumb sweep favours exactly the first makers with room, as many as there are leftover lots |
| Allocation.SweptPlacesEverything | src/allocation.rs:149-157 | one front-to-back sweep places every leftover lot, overfills nobody and stays on the grid |
| Fifo.FifoMatcher.Allocate | src/allocation.rs:85-110 | the queue walk produces exactly the shares of price-time priority |
| Fifo.FifoConforms | src/allocation.rs:82-111 | price-time priority meets the contract for every lot without being told the lot |
| Fifo.FifoPriority | src/allocation.rs:82-111 | whoever is served at all has everybody ahead of it served in full |
| Weighted.FloorShareBounds | src/allocation.rs:225-232 | a lot-floored proportional share is on the grid and loses strictly less than one lot |
| Weighted.FloorsAlmostFill | src/allocation.rs:149-157 | the floors together never exceed the pool and leave less than one lot per contender |
| ProRata.OneSweepSuffices | src/allocation.rs:234-260 | the leftover is a whole number of lots and there is room for all of them |
| ProRata.ProRataHonoursContract | src/allocation.rs:179-274 | all five clauses, for every level and taker on the lot grid |
| ProRata.ProRataConforms | src/allocation.rs:5-11 | as a policy, pro-rata conforms for its lot |
| ProRata.ProRataPayout | src/allocation.rs:142-157 | each maker gets exactly its lot-floored share, plus one lot when it is among the first makers holding anything |
| ProRata.ProRataMatcher.Allocate | src/allocation.rs:179-274 | the loops, in 64 and 128 bits, overflow nowhere, cast losslessly and compute the specified fills |
| ProRata.ProRataMatcher.FloorPass | src/allocation.rs:225-232 | the floor pass in machine arithmetic yields the lot-floored shares |
| MachineLevel.TotalOf | src/allocation.rs:191-194 | the 128-bit total of 64-bit quantities is exact |
| MachineLevel.LotShare | src/allocation.rs:229-230 | product, division and lot floor in 128 bits are exact |
| MachineLevel.Reaches | src/allocation.rs:499 | whether a share overruns, decided in 128 bits, is the exact cross-multiplied comparison |
| MachineLevel.SweepCrumbs | src/allocation.rs:245-260 | the crumb loop, headroom tested by subtraction, hands out exactly the specified crumbs, and nothing is left over exactly when enough makers have room |
| MachineLevel.Collect | src/allocation.rs:262-273 | only makers with a positive share appear in the result |
| MachineLevel.CollectWhole | src/allocation.rs:200-210 | a swallowed level yields every non-empty maker in full |
| Widths.ProductFits | src/allocation.rs:400-411 | a product of two 64-bit quantities fits 128 bits |
| TimeProRata.EarlierIsOlder | src/allocation.rs:396-398 | an earlier arrival is at least as many ticks old, clamping and saturation included |
| TimeProRata.AgeCountsTicks | src/allocation.rs:396-398 | an age reaches any number of ticks past the first, up to the cap, exactly when that many ticks have gone by |
| TimeProRata.WeightsAreScaled | src/allocation.rs:412-423 | without logarithm or quotient: weights are size times age, all scaled down by the same power of two, the least that brings every one into 64 bits, and never to nothing |
| TimeProRata.WeightsFit | src/allocation.rs:400-423 | raw weights fit 128 bits, the shift is at most 64, and every scaled weight lies in 1..2^64 |
| WaterFill.CappingRaisesTheRest | src/allocation.rs:299-310 | capping overrunning makers is affordable and lowers nobody else's share |
| WaterFill.CappingStaysJustified | src/allocation.rs:299-310 | any selection of overrunning makers may be capped at once; all still overrun afterwards |
| WaterFill.CappedSettles | src/allocation.rs:472-518 | the loop ends with every capped maker at or over its cap and every other strictly under, at the final pool and weight total |
| WaterFill.SettledIsUnique | src/allocation.rs:299-310 | there is only one such water-fill point |
| WaterFill.PassesBounded | src/allocation.rs:299-310 | with the committing pass there are at most as many passes as non-empty makers |
| WaterFill.OrderDoesNotMatter | src/allocation.rs:299-310 | capping one maker at a time in any order ends at the set the batched loop ends at |
| TimeProRata.CommittedFits | src/allocation.rs:507-517 | the committed shares never exceed the pool and leave less than one lot per contender |
| TimeProRata.OneSweepSuffices | src/allocation.rs:520-545 | the crumb sweep has room for every leftover lot |
| TimeProRata.TimeProRataHonoursContract | src/allocation.rs:431-558 | all five clauses, for every level and taker on the lot grid |
| TimeProRata.TimeProRataConforms | src/allocation.rs:5-11 | as a policy, time-weighted pro-rata conforms for its lot |
| TimeProRata.TimeProRataPayout | src/allocation.rs:431-558 | capped makers are filled whole; contenders get the lot-floored share of what is left and the front ones a lot more |
| TimeProRata.RestingLongerNeverPaysLess | src/allocation.rs:396-423 | of two equal-size makers the earlier arrival gets at least as much, through capping, scaling, floors and crumbs |
| EqualAges.EqualAgesMakeItProRata | src/allocation.rs:277-281 | with equal clamped ages, and no bit of a weight shifted out, the fills are pro-rata's, crumb for crumb |
| EqualAges.FittingWeightsShiftNothing | src/allocation.rs:412-423 | nothing is shifted out when every size times age fits 64 bits |
| EqualAges.EqualAgesCanDiffer | src/allocation.rs:277-281 | a concrete pair of equally old makers that the two policies pay differently |
| TimeProRataLoop.WeightInPlay | src/allocation.rs:473-484 | the weight total of those still contending, in 128 bits |
| TimeProRataLoop.TimeProRataMatcher.AgeTicks | src/allocation.rs:396-398 | the age in 128 bits, written out: at least one and at most the cap, so many ticks have gone by unless it is one, and not one more unless it is the cap |
| TimeProRataLoop.TimeProRataMatcher.Weights | src/allocation.rs:412-423 | raw weights, their maximum, the shift and the scaled weights, all computed in 128 bits, are the specified weights and fit 64 |
| TimeProRataLoop.Ilog2 | src/allocation.rs:416-418 | the position of the highest set bit |
| TimeProRataLoop.ShiftRight | src/allocation.rs:422 | shifting right divides by the power of two |
| TimeProRataLoop.CapPass | src/allocation.rs:488-502 | one pass caps exactly the overrunning makers, all against the same pool |
| TimeProRataLoop.CommitPass | src/allocation.rs:507-517 | the final pass commits lot-floored shares against one pool, casts lossless |
| TimeProRataLoop.TimeProRataMatcher.WaterFillLoop | src/allocation.rs:472-518 | the capping loop terminates at the water-fill point within one pass per non-empty maker |
| TimeProRataLoop.TimeProRataMatcher.Allocate | src/allocation.rs:431-558 | the whole allocation, ages and weights included, in machine arithmetic: no overflow, lossless casts, the specified fills, no crumb left |
| Decimals.SplitMinorIsExact | src/instrument.rs:699-720 | the exact floor on the grid and whether anything lies below it; fails exactly on negatives and floors past 64 bits |
| Decimals.SplitMinorIgnoresScale | src/instrument.rs:699-720 | the split depends on the decimal's value, not on how many places it is written with |
| Decimals.CeilScaledIsCeiling | src/instrument.rs:658-678 | a successful scaling is the least grid point at or above the value |
| Decimals.CeilScaledSucceeds | src/instrument.rs:658-678 | exactly when the scaling succeeds |
| Decimals.CeilScaledIgnoresScaleUnlessZero | src/instrument.rs:658-678 | two spellings of one value agree if and only if they are not a zero only one of them can scale |
| Decimals.ZeroFloorDependsOnSpelling | src/instrument.rs:658-678 | a concrete zero that one spelling rejects and another accepts |
| Instrument.PriceOfIsExact | src/instrument.rs:453-471 | a price is accepted exactly when it is a 64-bit tick point, and then unchanged |
| Instrument.RoundDownIsGreatest | src/instrument.rs:522-550 | rounding down, or a bid toward passive, gives the greatest tick at or below the value, and when it succeeds |
| Instrument.RoundUpIsLeast | src/instrument.rs:522-550 | rounding up, or an ask toward passive, gives the least tick at or above the value, or none below 2^64 exists |
| Instrument.InstrumentSpec.WithPriceRange | src/instrument.rs:355-370 | a band is accepted exactly when both ends are on tick and in order |
| Instrument.NotionalTestIsExact | src/instrument.rs:634-643 | the integer floor test is the exact comparison of price times quantity with the stated decimal, and its product fits 128 bits |
| Orders.AdmitsExactly | src/orderbook.rs:208-236 | an order is admitted exactly when its prices are in the band, its original quantity in bounds and its notional not under the floor, and a refusal names a bound that is broken |
| Book.PolicyApplied | src/matching.rs:546-599 | at every level the engine sweeps, the contract gives shares that fit and add up to min(available, level) |
| SweepFacts.LevelSweptQuantities | src/matching.rs:477-529 | one level: the taker gets what others have or all it wants, and every unit is accounted for |
| SweepFacts.LevelDrains | src/matching.rs:531-540 | a level drains exactly when the others' quantity does not exceed the taker's |
| SweepFacts.SweepReaches | src/matching.rs:441-541 | a taker left with anything finds the best price left strictly beyond its limit, and what it is left with is what the book could not supply |
| SweepFacts.SweepKeepsOrder | src/matching.rs:441-541 | the side stays sorted and well queued and its best level never improves |
| SweepFacts.SweepConserves | src/matching.rs:441-541 | every unit leaving the side was traded or cancelled as the taker's own |
| SweepFacts.TradesWithinLimit | src/matching.rs:441-541 | no print above a buyer's limit or below a seller's, and none is empty |
| SweepFacts.DryRunAgrees | src/matching.rs:361-397 | the dry run reaches the needed quantity exactly when the sweep under any conforming policy fills the taker |
| SweepFacts.ReachIsOffered | src/matching.rs:361-397 | the dry run counts what other clients offer at prices within the limit, compared price by price |
| SelfTrade.LevelSweptClients | src/matching.rs:462-480 | at a level it trades through, a taker meets none of its client's orders and leaves none behind |
| SelfTrade.NoSelfTrades | src/matching.rs:409-418 | no trade of a sweep is with the taker's client; everything cancelled is the taker's own |
| SelfTrade.TradesWalkOutwards | src/matching.rs:398-404 | trades print best price first, each at the price of a level that was there |
| Prints.SweepMaker | src/matching.rs:490-529 | every order of the side, told from the prints: what was traded under its id is what it lost; filled whole it is gone, otherwise it rests with the rest; an own order is untraded and either reported cancelled and gone, or untouched |
| Prints.SweepNames | src/matching.rs:494-507 | every print carries the id, client and price of an order that rested |
| Prints.SweepBrings | src/matching.rs:441-541 | whatever rests on the side after a sweep rested there before, with at least as much |
| Prints.SweepCancelsExactly | src/matching.rs:477-480 | reported cancelled are exactly the client's own orders that are gone, each once |
| Sharing.SweepInLine | src/matching.rs:482-512 | at one price, prints name makers oldest first and so none twice |
| Sharing.SweepPays | src/matching.rs:477-529 | each maker of a stocked side is paid what the policy gives its place in its queue, sizes and arrivals as they stand, out of what better prices leave of the taker; beyond the limit or past the taker's end, nothing |
| Engine.AddOrderKeeps | src/orderbook.rs:239-266 | adding keeps the book's rules, and a refused add changes nothing |
| Engine.CancelKeeps | src/orderbook.rs:269-304 | cancelling keeps the rules, fails exactly on ids not alive, and removes exactly that id |
| Engine.ExecuteNowKeeps | src/matching.rs:124-150 | matching an order keeps the rules, touches no stop book and brings at most its own id to life |
| Engine.PopKeeps | src/matching.rs:199-217 | a popped stop leaves the stop book and frees its id |
| Engine.ActivatedKeeps | src/matching.rs:105-107 | an activation keeps the rules and the pending count falls by one |
| Engine.CascadeKeeps | src/matching.rs:105-107 | the cascade terminates and keeps the rules |
| Engine.SubmitKeeps | src/matching.rs:86-110 | a submission keeps the rules, whatever becomes of it |
| Engine.RunKeeps | src/orderbook.rs:239-304 | sorted sides without empty levels, ascending arrivals, whole-lot remainders and single ids hold after every run of commands, seeds of any size included |
| Contents.SideIsDetermined | src/orderbook.rs:351-355 | two lawful sides with the same orders are the same side, level by level and queue by queue |
| Contents.CancelTakesOne | src/orderbook.rs:269-304 | cancelling takes the order of that id from wherever it is and changes nothing else |
| Contents.AddRestsOne | src/orderbook.rs:239-266 | adding rests the order, stamped with the next arrival, on its own side and changes nothing else |
| Contents.AddSucceedsExactlyWhen | src/orderbook.rs:239-266 | seeding succeeds exactly for an acceptable limit order under a free id, and says which of the three is missing |
| Firing.PopIsNextInLine | src/matching.rs:193-217 | the stop popped is the one that goes before every other reached stop: buys first, then the nearer trigger, then the earlier submitted; nobody else leaves |
| Firing.NothingPoppedIsNobodyInLine | src/matching.rs:193-217 | nothing is popped only if the last trade reaches no parked stop |
| Firing.RunsKeepTurns | src/matching.rs:171-192 | over every run, stops of one trigger stand in the order they were submitted |
| Reports.ExecutionIsTold | src/matching.rs:124-150 | one execution, from its report and the books before and after, in plain comparisons: prints signed and within the limit, every maker and every cancellation accounted for, what rests, the outcome, the last trade price |
| Reports.ExecutionPays | src/matching.rs:124-150 | and who gets how much of it |
| Reports.CascadeIsTold | src/matching.rs:105-107 | a cascade turn by turn: whoever is next in line is unparked, becomes the order its kind says and is run as told |
| Reports.SubmissionIsTold | src/matching.rs:86-110 | the whole report of a submission that succeeds, its own part and every triggered one, is true of the books in between; at the end nobody is in line |
| Consequences.SubmitKeepsLimits | src/matching.rs:441-456 | no print of a report is beyond its order's limit, triggered stops included, each of which had been parked |
| Consequences.SubmitMovesLast | src/matching.rs:138-141 | after a submission the last trade price is that of the last print on its report, triggered ones included, and unchanged if there is none |
| Consequences.SubmitReportsCancellations | src/matching.rs:143-149 | an order that is not a stop and sets none off: reported cancelled is exactly what its client had on the other side and has no more, each once |
| Consequences.FiredStopKeepsItsTerms | src/matching.rs:352-359 | only a good-till-cancelled stop-limit leaves anything resting once fired, and that is what it did not trade, at its own limit |
| Consequences.StopStaysExactlyWhen | src/matching.rs:105-107 | a parked stop survives a cascade exactly when it is next in line at none of its turns |
| Consequences.SubmitFiresStops | src/matching.rs:105-107 | who fires after a submission: whoever is next in line at each turn; a stop its own print reached is left behind only if the cascade's last print no longer reaches it |
| LeftBehind.SubmissionRests | src/matching.rs:219-270 | a good-till-cancelled order that reaches nobody rests, and nothing else happens |
| LeftBehind.SubmissionParks | src/matching.rs:171-192 | a stop that is not reached parks, and nothing else happens |
| LeftBehind.StopCanBeLeftBehind | src/matching.rs:105-107 | a concrete run after which a stop that an order's own print reached is still parked |
| Stock.AddStocked | src/orderbook.rs:239-266 | adding to a book in which every resting order holds something keeps it so if and only if the order holds something or is refused |
| Stock.RunsStayStocked | src/matching.rs:517-529 | every resting order holds something after every run whose seeds do |
| Discipline.SweepClearsTheWay | src/matching.rs:441-541 | what a limit sweep leaves cannot cross what it could not reach |
| Discipline.ActivationStaysAdmitted | src/matching.rs:352-359 | an admitted stop is still admitted once triggered |
| Discipline.NothingToPopIsQuiet | src/matching.rs:193-208 | nothing to pop means exactly that every pending buy stop is above and every sell stop below the last trade |
| Discipline.CascadeSettles | src/matching.rs:105-107 | in every reachable book, whatever was seeded, the cascade never fails and leaves no satisfied stop pending |
| Discipline.RunsAreQuiet | src/matching.rs:193-208 | over every run, seeds included, no pending stop is one the last trade has satisfied |
| Discipline.SubmitIsTotal | src/matching.rs:86-110 | an admitted order never yields an error, through any cascade; a rejected one changes nothing |
| Discipline.CancelStaysOrderly | src/orderbook.rs:269-304 | cancelling keeps the book uncrossed and quiet |
| Discipline.RunsAreOrderly | src/matching.rs:86-110 | every book reached by submissions and cancellations is uncrossed, quiet and holds only minted ids |
| Discipline.ReachableBooksAreOrderly | src/matching.rs:86-110 | from the empty book: best bid below best ask, nothing hollow resting, no satisfied stop, and the next admitted order does not fail |
| Accounting.FokIsAllOrNothing | src/matching.rs:272-318 | fill-or-kill fills completely or leaves every part of the book as it was |
| Accounting.ExecuteBalances | src/matching.rs:124-150 | one execution: resting quantity changes by rested less filled less self-cancelled; the outcome explains the whole quantity |
| Accounting.CascadeBalances | src/matching.rs:105-107 | the same summed over a cascade, and parked ids split into still parked and activated once |
| Accounting.SubmitBalances | src/matching.rs:86-110 | a submission that succeeds, with everything it triggers: depth, parked quantity and parked ids balance against its log; triggered executions never park |
| Accounting.NoTradeNoCascade | src/matching.rs:138-141 | a submission that prints no trade triggers nothing |
| Seeding.SeedingKeepsRulesExactlyWhen | src/orderbook.rs:213-215 | admission sees the original quantity only: a seed keeps the rules if and only if it holds whole lots, and leaves nothing hollow if and only if it holds something |
| Seeding.SeedCanHoldNothing | src/orderbook.rs:239-266 | a concrete admitted seed that rests holding nothing |
| Seeding.SeedingCrossesExactlyWhen | src/orderbook.rs:411-422 | seeding leaves an uncrossed book uncrossed if and only if its price does not cross |
| Seeding.SeedsCanCross | src/orderbook.rs:239-266 | two concrete admitted seeds that cross an empty book |
| Hollows.LevelOutlasted | src/matching.rs:477-529 | one level, hollow orders or not: a taker that outlasts it leaves exactly the hollow orders of others |
| Hollows.SweepExactly | src/matching.rs:441-541 | a sweep in any book: exactly what is left of the taker, and exactly what it leaves of the side if anything of it is left |
| Hollows.StockedWithin | src/matching.rs:361-397 | where no order is hollow, what a taker gets is what the dry run counts |
| Hollows.FokKeepsItsPromiseExactlyWhen | src/matching.rs:280-318 | in every reachable book, whatever was seeded: fill-or-kill trades the whole order when it says filled, unless and only unless a hollow order keeps the sweep from what the dry run counted |
| Seeding.HollowSeedFoolsFok | src/matching.rs:308-317 | a concrete hollow seed with which a fill-or-kill order is reported filled and has traded nothing |
| Seeding.SubmissionFailsExactlyWhen | src/matching.rs:86-110 | in every reachable book an admitted order fails if and only if the id about to be minted is alive and in its way: it parks, or it leaves a good-till-cancelled remainder and the id survives what it takes |
| Seeding.SeedCanTakeTheNextId | src/orderbook.rs:239-266 | a concrete seed that makes the first order which has to rest fail, under any policy |
| Seeding.FailureMoves | src/matching.rs:251-267 | a failed submission has swept all it could reach: depth is down by trades and own cancellations nobody is told of, stop books and last trade price stand |
| Seeding.FailureCanSwallowTrades | src/matching.rs:251-267 | concrete seeds and an order whose trades are lost with the error |
| Seeding.EverySubmissionBalances | src/matching.rs:86-110 | every submission: rejected and nothing changes, or clashing and what it swept is gone unreported, or balanced against its log |
| Seeding.OnlyATakenIdCanFail | src/matching.rs:86-110 | a corollary callers can use: while the id about to be minted is free, an admitted order does not fail |
| Seeding.ParkingFailsExactlyWhen | src/matching.rs:172-178 | a stop that has to park fails exactly then |
| Independence.SweepsAgree | src/matching.rs:441-541 | two sweeps of alike sides under any two conforming policies leave alike sides and equal volumes per price |
| Independence.ExecutionsAgree | src/matching.rs:124-150 | executions on alike books are alike |
| Independence.CascadesAgree | src/matching.rs:105-107 | cascades on alike books have equal length and alike steps |
| Independence.SubmitsAgree | src/matching.rs:86-110 | submissions on alike books are alike |
| Independence.PolicyDecidesWhoNotHowMuch | src/allocation.rs:5-11 | fed the same orders of distinct clients, books under any two conforming policies agree after every submit |
| Venues.ThreePoliciesAgree | src/allocation.rs:82-558 | the three policies are such policies |
| Ownership.IndexIsLive | src/orderbook.rs:239-304 | while the ownership relation holds, the index holds exactly the ids alive in the book |
| Ownership.OwnershipIsOneToOne | src/orderbook.rs:1126-1172 | no two nodes share an id, a node's id leads to that node, a parked stop's id to its trigger, and every index entry leads somewhere live |
| Ownership.CountsAgree | src/orderbook.rs:1147-1171 | as many nodes as resting orders and as many index entries as live orders: no orphan on either side |
| Ownership.EveryNodeSitsOnce | src/orderbook.rs:1126-1172 | each arena node is in exactly one place of exactly one queue, at its own side and price |
| Ownership.DropNodeOwns | src/matching.rs:523-527 | unlinking, freeing and forgetting one node together keep the ownership relation |
| Ownership.FillOwns | src/matching.rs:494-512 | filling in place changes nothing about ownership |
| Ownership.FileNodeOwns | src/orderbook.rs:256-263 | filing a fresh node under a free id keeps the relation |
| Ownership.ParkStopOwns | src/matching.rs:172-183 | parking a stop under a free id keeps the relation |
| Ownership.UnparkStopOwns | src/matching.rs:210-216 | unparking and forgetting keeps the relation |
| Ownership.CancelRestShows | src/orderbook.rs:275-287 | cancelling through the index is cancelling by id |
| Ownership.PopAgrees | src/matching.rs:210-216 | popping the first stop of a trigger removes exactly that id |
| OrderBooks.OrderBook.constructor | src/orderbook.rs:161-172 | an empty book over an empty store, tables in agreement |
| OrderBooks.OrderBook.TryNew | src/orderbook.rs:147-173 | a book over the store layout asked for, or the store's refusal, which only the ladder can give |
| OrderBooks.OrderBook.RemoveOwn | src/matching.rs:477-480 | the pre-pass removes the client's orders at the best level in queue order and reports their ids |
| OrderBooks.OrderBook.CollectMakers | src/matching.rs:482-486 | the projection handed to the policy |
| OrderBooks.OrderBook.ApplyFills | src/matching.rs:490-512 | the fills are applied to their makers and nobody else, trades printed in order |
| OrderBooks.OrderBook.UnlinkExhausted | src/matching.rs:517-529 | exactly the exhausted makers are unlinked |
| OrderBooks.OrderBook.WorkBest | src/matching.rs:477-529 | one level worked in place is the level sweep |
| OrderBooks.OrderBook.FillAgainst | src/matching.rs:419-544 | the walk over store, arena and index is the abstract sweep, no print is beyond the limit, a stocked side is left with nothing within it, and store and tables agree after it |
| OrderBooks.OrderBook.FillableQuantity | src/matching.rs:367-398 | the early-returning count decides fillability correctly and is exact when it falls short |
| OrderBooks.OrderBook.AddOrder | src/orderbook.rs:239-266 | resting an order in place, with every error case, a store refusing the level included; an error changes nothing, and an order on the tick is never refused by the store |
| OrderBooks.OrderBook.CancelOrder | src/orderbook.rs:269-304 | cancelling in place, resting or parked, with its error case |
| OrderBooks.OrderBook.GetOrder | src/orderbook.rs:389-409 | finds an order exactly when its id is alive, and finds that order |
| OrderBooks.OrderBook.ParkStop | src/matching.rs:171-192 | parking in place, with its error case |
| OrderBooks.OrderBook.PopTriggeredStop | src/matching.rs:199-217 | pops the stop the specification says fires next |
| OrderBooks.OrderBook.ProcessLimit | src/matching.rs:219-270 | good-till-cancelled and immediate-or-cancel in place |
| OrderBooks.OrderBook.ProcessFok | src/matching.rs:280-318 | fill-or-kill in place; a killed order leaves every table as it was |
| OrderBooks.OrderBook.ProcessMarket | src/matching.rs:320-344 | market orders in place |
| OrderBooks.OrderBook.ExecuteNow | src/matching.rs:124-150 | an order that is not a stop: the report is true of the books before and after, and the last trade price becomes that of its last print |
| OrderBooks.OrderBook.Execute | src/matching.rs:124-192 | one order run in place, stops included; the last trade price becomes that of its last print |
| OrderBooks.OrderBook.RunTriggered | src/matching.rs:105-107 | the cascade loop runs exactly the specified activations and reports them flat |
| OrderBooks.OrderBook.Submit | src/matching.rs:86-110 | a submission in place, over any of the three stores: state, report and errors as specified; a report is true of the books before and after, cancellations and triggered stops included; a rejected order changes nothing |
| OrderBooks.OrderBook.Perform | src/matching.rs:86-110 | one command over any store: the specified book and the specified answer |
| OrderBooks.OrderBook.Replay | src/matching.rs:86-110 | any run of commands over any store ends in the specified book with the specified answers; tables, index and store agree; an unseeded run leaves an orderly book orderly |
| OrderBooks.OrderBook.Levels | src/orderbook.rs:351-355 | whatever the store, the levels listed are the book's, best price first, orders in queue order |
| OrderBooks.OrderBook.BestLevel | src/orderbook.rs:365-369 | whatever the store, the best level is the book's |
| OrderBooks.OrderBook.OrderCount | src/orderbook.rs:376-379 | the size of the index is the number of orders resting or parked |
| OrderQueues.LevelQueue.PushBack | src/order_queue.rs:37-54 | appends at the back; every other queue in the arena is unchanged |
| OrderQueues.LevelQueue.RemoveKey | src/order_queue.rs:58-78 | deletes exactly one element and returns its order; a stale key does nothing; others unchanged |
| OrderQueues.LevelQueue.RemoveClient | src/order_queue.rs:80-98 | a stable filter returning the client's orders in queue order; others unchanged |
| OrderQueues.LevelQueue.CollectMakers | src/order_queue.rs:100-115 | the order-preserving projection and its keys; the iterator's count never underflows |
| OrderQueues.LevelQueue.Refill | src/matching.rs:494-512 | writing an order in place moves no link |
| OrderQueues.Appended | src/order_queue.rs:37-54 | linking behind the tail keeps links consistent both ways |
| OrderQueues.SplicedChain | src/order_queue.rs:58-78 | joining the neighbours of a freed node keeps links consistent both ways |
| OrderQueues.FamilyStays | src/order_queue.rs:22-28 | whatever one queue does to its own nodes, queues sharing the arena stay apart and unchanged |
| OrderQueues.CutIsKeep | src/order_queue.rs:58-78 | deleting by position is the book's thinning by key |
| Storage.AnswersAreDetermined | src/storage.rs:54-84 | the store contract leaves no latitude: every answer is determined by the content |
| Storage.ListingIsUnique | src/storage.rs:77 | there is one best-first listing of a side |
| TreeStore.BTreeStore.Handle | src/storage.rs:108-176 | the ordered map answers every request as the contract says |
| HashStore.HashMapStore.Peek | src/storage.rs:265-277 | the top of the heap is the best price |
| HashStore.HashMapStore.Listing | src/storage.rs:216-234 | collecting and sorting gives the listing |
| HashStore.HashMapStore.Handle | src/storage.rs:213-312 | map and heap answer every request as the contract says, the heap holding the map's prices once each |
| LadderStore.SlotOfItsPrice | src/storage.rs:332-339 | slot arithmetic: the slot of a slot's price is that slot |
| LadderStore.PriceOfItsSlot | src/storage.rs:332-339 | and a price that has a slot is that slot's price |
| LadderStore.AdmittedHasSlot | src/storage.rs:364-393 | every admitted on-tick price of a bounded instrument has a slot |
| LadderStore.TickLadderStore.TryNew | src/storage.rs:364-393 | when a ladder can be built, with how many slots, and why not otherwise: no top, too many slots, or no memory for them |
| LadderStore.TouchIsBest | src/storage.rs:433-439 | the cached slot holds the best level |
| LadderStore.TickLadderStore.RepairBestAfterRemoval | src/storage.rs:341-353 | the scan finds the new touch |
| LadderStore.TickLadderStore.EnsureLevel | src/storage.rs:396-413 | makes or finds a level; off the ladder it refuses and changes nothing |
| LadderStore.TickLadderStore.RemoveLevel | src/storage.rs:449-464 | takes the level out and keeps the cache right |
| LadderStore.TickLadderStore.Listing | src/storage.rs:466-471 | scanning the slots from the touch gives the listing |
| LadderStore.TickLadderStore.Handle | src/storage.rs:361-472 | slots and caches answer every request as the contract says |
| StoreAgreement.Lockstep | src/storage.rs:54-84 | any run of requests on the ladder's grid gets equal answers from all three stores and leaves equal content |
| StoreAgreement.Watch | src/matching.rs:86-110 | what a caller is told and sees after every command of a run is the same function of venue, book and commands for every store |
| StoreAgreement.SameFromEveryStore | src/storage.rs:1-6 | under a price band, any run on the tick gives equal answers, equal touches and equal ordered levels after every command from all three stores |
| Backends.AdmittedIsSeated | src/orderbook.rs:256-259 | a ladder built for the same instrument has a place for every admitted order on the tick, so no storage error reaches the caller |
| Ticking.RunOnTick | src/orderbook.rs:204-206 | over every run on the tick, parked stops stay on the tick, so what they later rest is on it too |
| Backends.Open | src/storage.rs:67-69 | an empty store of the layout asked for, or the ladder's refusal |
| Backends.Backend.Best | src/matching.rs:443-445 | the level any store names as best is the head of the side |
| Backends.Backend.Listing | src/matching.rs:377 | the levels any store lists are the side |
| Backends.Backend.Rewrite | src/matching.rs:477-529 | writing through the best level is a request that leaves the store holding the rewritten side |
| Backends.Backend.RemoveBest | src/matching.rs:537 | removing the drained level leaves the store holding the rest of the side |
| Backends.Backend.File | src/orderbook.rs:256-261 | filing a key: the level ensured and its queue rewritten, or a refusal that changes nothing |
| Backends.Backend.Drop | src/orderbook.rs:277-287 | dropping a key: the queue rewritten and the level removed if it drained |
| Backends.FilingIsRequests | src/orderbook.rs:256-261 | the book's filing of a key is a level ensured and its queue rewritten |
| Backends.DroppingIsARequest | src/orderbook.rs:277-284 | dropping a key is a queue rewritten |
| Backends.ClearingIsARequest | src/orderbook.rs:285-287 | clearing a drained level is a look and a removal |
| Backends.BestIsRequests | src/matching.rs:537 | working on the best level is rewriting or removing at its price |

## Left out

- Counter exhaustion: `next_arrival` (32 bits, which panics when full) and `next_seq` are naturals; the model never runs out.
- Sums of quantities in the engine: quantities are naturals there; overflow of `fillable_quantity` and of depth totals is not modelled. The allocators are bounded to 64 and 128 bits.
- Seeding.EverySubmissionBalances: asks, as all of `Accounting` does, that every resting order holds something; with a hollow seed a fill-or-kill report can be untrue, exactly when `Hollows.FokKeepsItsPromiseExactlyWhen` says, and the source then fails a debug assertion (src/matching.rs:308-311).
- Quantities off the lot grid: the source's `Qty` cannot hold them, so takers and makers are taken on the grid. Prices off the tick likewise, where a ladder is the store.
- Exchange ids: a datatype, minted from a number or named by a caller, instead of formatted strings; that formatting is injective is assumed by it.
- The slot map behind the arena: a map under fresh keys that are never reused; generation wrap-around is not modelled.
- The binary heap and the ordered and hash maps themselves: a list searched for its best element, a sorted list and a map.
- OrderBooks.OrderBook.Walk: a flag and a drained marker stand for `break`, and the best level is read again where the source holds on to a reference.
- OrderBooks.OrderBook.Unfile: at book level a queue is its sequence of keys, held in the store by value; the linked list that carries it is `OrderQueues`, whose operations have the same sequence effect, and the book class does not run on it.
- OrderBooks.OrderBook.ProcessFok: the debug assertions of the source are theorems here, not run-time checks.
- EqualAges.EqualAgesMakeItProRata: one way only, because fills can coincide by rounding although bits were shifted out.
- LadderStore.TickLadderStore.TryNew: how many slots memory can hold is a parameter; pointer width is taken as 64 bits.
- Stores built for a narrower band than the book's own instrument: a book builds its own store, so the model has none; `OrderBooks.OrderBook.AddOrder` still says what a refusing store does.
- LadderStore.TickLadderStore.EnsureLevel: the level is handed out as a value; writing through the returned reference is the separate `Requeue` request.
- Trades: the lifecycle field of an order, builders, wall-clock timestamps, string formatting and error message contents are not modelled.
- Views: `spread`, `depth`, `level`, `order_location`, snapshots and the other read accessors are one-step readings of the book.
- Instrument construction: `new` and `with_qty_range` are represented by the validity predicate they establish; rendering back to decimals is not modelled.
- Benchmarks and performance claims.
