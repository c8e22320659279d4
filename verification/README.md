# A verified model of the exchange's matching, recovery and reservation core

The exchange has three parts that must agree. The matching engine keeps one order book a symbol
and executes orders. The trading service locks funds before an order reaches the engine, settles
every fill, and gives back what is left over. The wallet service holds an available and a locked
bucket a user and asset, and refuses to let either go negative. This project models those parts in
Dafny and proves what they promise, alone and together.

`dafny verify dfyconfig.toml` checks everything.

## How it is built

Every stateful component appears twice: as a class that changes its fields in place, the way the
program does, and as functions on values. The class methods are proved to compute exactly those
functions; the laws are lemmas about the functions, so they hold of the classes.

| files | what they hold |
|---|---|
| `Domain.dfy`, `Symbols.dfy`, `SymbolBooks.dfy` | orders, fills, reports; what crosses; symbol normalisation, and one book a symbol |
| `FlatBook.dfy` | the order book as one price-time list a side: submit, cancel, stops, pruning |
| `BookInvariant.dfy`, `CancelAndStops.dfy`, `Cascade.dfy` | the book invariant, kept by every operation; the stop cascade |
| `GreedyMatching.dfy`, `BestExecution.dfy`, `SubmitLaws.dfy` | the match loop as a greedy matcher; exact fills and reports; best execution; fill-or-kill |
| `OrderKinds.dfy`, `StopPrices.dfy`, `FiredStops.dfy` | what each kind of order does, which stops a price fires and what those do, in prices and quantities alone |
| `History.dfy`, `BookLogs.dfy` | whole runs of one book: invariant, statuses, audit log, rest then cancel; what the logs say after a submit |
| `PriceLevels.dfy`, `Snapshots.dfy`, `OrderBook.dfy` | the stored book: price-keyed FIFO levels with cached totals, an id index, status and audit logs; snapshots |
| `Recovery.dfy`, `LostStops.dfy`, `FiringOrders.dfy`, `SnapshotIntervals.dfy`, `EngineCore.dfy`, `EngineLimits.dfy` | write-ahead log, snapshots, restarts and crashes; when exactly recovery is exact; which orders fire stops; when snapshots are written; the engine shell; where recovery and fill-or-kill fall short |
| `Wallet.dfy`, `WalletMoves.dfy`, `WalletLaws.dfy`, `WalletService.dfy` | balances, ledger and transactions; what each operation moves, bucket by bucket; conservation over every run |
| `Trading.dfy`, `TradingService.dfy`, `LockArithmetic.dfy` | locking, settling, finishing and cancelling; the products behind locks and fees |
| `Reservation.dfy`, `PlaceAndCancel.dfy`, `LockHistory.dfy`, `TradingRuns.dfy`, `ExchangeConservation.dfy`, `TradingLimits.dfy`, `FeeOrder.dfy` | locks cover settlements and assets are conserved, over every run; where the service and the engine part ways; what the order of the fees decides |
| `Holdings.dfy`, `MakerEntries.dfy`, `PlacementTerms.dfy`, `BrokenPlacements.dfy` | what a placement leaves every user and every open order with, also when the wallet breaks it off; what each kind of request does, and a cancel |

## The main results

1. **The book is a greedy matcher.** The class works on levels, cached totals and an index; its
   match loop returns the fills of a greedy pass over one price-time list, which consumes a prefix
   and at most one order in part, at makers' prices that only get worse (`MatchIncoming`,
   `MatchRefinesGreedy`, `GreedyConsumesPrefix`, `FillPricesMonotone`).
2. **Best execution, in prices.** A market, limit or immediate order fills the lesser of what it wants and
   what others offer at prices it accepts ahead of its user's own orders (`TakesWhatIsOffered`). With none of
   the user's own orders in the way, no other allocation of that amount over the resting orders is
   cheaper, or for a seller dearer (`SubmitExecutesBest`, an exchange argument).
3. **Safety over every run of a book.** Never crossed, ids distinct, strict price-time order, a status log
   that agrees with the book and only moves forward, an audit log that holds all fills or at least the
   last 10,000; no `expect` of the program can fail (`ReachableIsSound`, `StepIsSound`, `RunLogs`).
4. **The stop cascade ends and settles.** It terminates, goes depth first (`CascadeIsDepthFirst`), and
   leaves no stop that a price traded in the call, by a fired stop included, should have fired
   (`SubmitAndCascadeSettles`): a pending stop outlives a call if and only if every price traded in it is
   below the stop's, for a buy, or above it, for a sell (`PendingExactly`).
5. **Recovery, exactly.** In every state of every run with restarts, interval snapshots and crashes between
   log and application, the disk gives back the live books when no operation still in the log fired a stop,
   whatever was lost before; and it has done so in all states since the last snapshot or restart if and only
   if none of their operations did (`RecoveryStateByState`). As long as no status log is at its limit
   of 100,000 entries the first half is an equivalence too (`RecoveryExactlyWhereNothingLost`), and which orders
   fire a stop can be read off the book before the call (`FiresExactly`).
6. **Locks always cover settlements.** In every run of placing and cancelling with funds coming and
   going, no settlement and no unlock fails, locked buckets are the sums of the open orders' locks, every
   resting order is an open order with the same remainder, and each lock is what was consumed plus what
   was given back plus what is still held (`RunNeverBreaks`).
7. **Nothing is created or lost.** Over the same runs each asset's total moves only by deposits,
   withdrawals and the fees of fills, and the latest ledger entry is every balance (`RunConservesAssets`). And it
   goes where it should: after a placement every user holds what it held, changed by exactly its side of
   the fills with the fee of its role (`PlacementChangesHands`), every maker's open order shows its fill
   (`PlacementShowsFills`), and each kind of request fills, rests, expires or is rejected as its kind says
   (`PostOnlyPlacement`, `LimitPlacement`, `ImmediatePlacement`, `FillOrKillPlacement`).
8. **Where stronger claims fail.** Fill-or-kill is all or nothing exactly when own orders do not
   mask a shortage (`FillOrKillExactly`); an order is left open without an engine order behind it exactly
   when it matches in part and is immediate-or-cancel or has an own order in its crossing range
   (`StrandedExactly`), and then for good (`StrandedForever`); stop orders are always shown rejected
   (`StopsShownRejected`).
9. **The order of the fees decides.** Every run from the beginning completes if and only if the maker's fee is
   no higher than the taker's (`EveryRunCompletesExactly`): funding both users, resting a buy and selling
   into it is a run that breaks otherwise. For one fill of a buyer's order, of any quantity, the exact
   condition is that the buyer's locked bucket holds its cost at the maker's fee (`BuyerFillExactly`).

## Model

| member | source | states |
|---|---|---|
| GreedyMatching.MatchRefinesGreedy | services/matching-engine/src/lib.rs:476-564 | for every book and taker, the match loop's fills, remainder, self-trade exit and remaining opposite side are those of a greedy pass over the flat list; own side, stops and sequence stay, the audit log gains the fills |
| GreedyMatching.GreedyConsumesPrefix | services/matching-engine/src/lib.rs:516-561 | a prefix of the makers is consumed whole and at most one in part; every fill names its maker, is at its price, within the taker's limit, between two users |
| GreedyMatching.GreedyFills | services/matching-engine/src/lib.rs:476-484 | a match fills exactly the lesser of what it wants and what it can reach before its own user's orders, takes as much out of the list, and says how it stopped |
| GreedyMatching.FillPricesMonotone | services/matching-engine/src/lib.rs:477-484 | a later fill is never at a better price for the taker |
| SubmitLaws.SubmitIsGreedy | services/matching-engine/src/lib.rs:470-596 | a submit that executes is the greedy match on the opposite list; the own side gains at most the remainder in its price-time place; the report names the self-trade exit exactly when the match met it |
| SubmitLaws.SubmitConservesQuantity | services/matching-engine/src/lib.rs:470-596 | requested quantity is filled, rested or dropped; the opposite side loses the fills, the own side gains what rests; no fill within one user |
| SubmitLaws.SubmitReports | services/matching-engine/src/lib.rs:566-595 | report and status log say what happened: Filled is all of it, New is resting untouched, Rejected is neither traded nor resting, PartiallyFilled is in between; accepted unless a self trade came first |
| SubmitLaws.SubmitFillsReachable | services/matching-engine/src/lib.rs:423-509 | how much a submit fills, in every case: an order that executes, the lesser of what it wants and what it reaches before its own user's orders; any other, nothing |
| SubmitLaws.BlockedExactly | services/matching-engine/src/lib.rs:492-509 | the self-trade exit is taken if and only if the order wants more than it reaches and one of its user's orders lies in the crossing range |
| BestExecution.NoBetterAllocation | services/matching-engine/src/lib.rs:476-485 | no allocation of the filled amount over the resting orders costs the taker less |
| BestExecution.Exchange | services/matching-engine/src/lib.rs:476-485 | the exchange step: any allocation differs from the match by at least the marginal price a unit |
| SubmitLaws.SubmitExecutesBest | services/matching-engine/src/lib.rs:476-485 | with no own orders in the crossing range, a market, limit or immediate order fills all the crossing quantity it wants, at the best total price |
| OrderKinds.TakesWhatIsOffered | services/matching-engine/src/lib.rs:476-590 | a market, limit or immediate order with a new id, a quantity and, unless market, a price fills the lesser of its quantity and what others offer at its prices ahead of its user's own orders; the rest of a limit order rests, unless an own order is in its range, and nothing of the others does |
| OrderKinds.TakesAllInRange | services/matching-engine/src/lib.rs:476-485 | with no own order at a price it accepts that is all that rests at those prices; for a market order, all that rests |
| OrderKinds.FillsInRange | services/matching-engine/src/lib.rs:915-923 | every fill is at a price the order accepts and between two users |
| OrderKinds.TurnedAwayExactly | services/matching-engine/src/lib.rs:424-436 | any other non-stop order is rejected with the first reason that applies, and nothing changes |
| OrderKinds.StopWaits | services/matching-engine/src/lib.rs:433-454 | a stop with a new id, a quantity and the prices its kind needs waits last in the list; any other is rejected; neither trades |
| OrderKinds.PostOnlyByPrice | services/matching-engine/src/lib.rs:455-457 | a post-only order is rejected if anything rests at a price it would take, and otherwise rests in full |
| OrderKinds.FillOrKillByPrice | services/matching-engine/src/lib.rs:458-468 | a fill-or-kill order expires with nothing changed when others offer less than it wants at its prices; otherwise it takes what is ahead of its own user's orders, in whole if none is in range, and never rests |
| SubmitLaws.PostOnlyNeverTakes | services/matching-engine/src/lib.rs:455-457 | a post-only order never trades; it rests in full exactly when no resting order is at a price it would take, and otherwise the book is as it was |
| SubmitLaws.FillOrKillExactly | services/matching-engine/src/lib.rs:458-468 | fill-or-kill is all or nothing exactly when own orders do not mask a shortage; Expired is only the pre-check's answer |
| SubmitLaws.FokNeverExpiresLate | services/matching-engine/src/lib.rs:575-576 | a fill-or-kill order that passes the pre-check is filled or meets its own user; the later Expired branch is dead |
| EngineLimits.FillOrKillFillsInPart | services/matching-engine/src/lib.rs:492-509 | a book on which a fill-or-kill order passes the pre-check and fills half |
| BookInvariant.SubmitKeepsWf | services/matching-engine/src/lib.rs:423-596 | submit keeps the book invariant: price-time order, distinct ids, positive remainders, agreeing statuses, never crossed |
| BookInvariant.MatchKeepsMidway | services/matching-engine/src/lib.rs:476-564 | every turn of the match loop keeps the invariant and introduces no id; an unblocked exit leaves nothing to trade with |
| BookInvariant.RestKeepsWf | services/matching-engine/src/lib.rs:779-800 | resting a remainder that no longer crosses keeps the invariant |
| BookInvariant.InsertKeepsOrder | services/matching-engine/src/lib.rs:785-796 | a newcomer goes behind its price and the side stays in price-time order |
| BookInvariant.PruneKeepsLive | services/matching-engine/src/lib.rs:883-894 | pruning forgets no resting or pending id and changes no entry it keeps |
| BookInvariant.AcceptedIsFresh | services/matching-engine/src/lib.rs:424-428 | an order that is not refused has an id that neither the log nor any live order holds, pending stops included |
| CancelAndStops.CancelKeepsWf | services/matching-engine/src/lib.rs:598-647 | cancelling a resting order or a pending stop keeps the invariant |
| CancelAndStops.CancelExactly | services/matching-engine/src/lib.rs:598-647 | a cancel succeeds if and only if the user has a live order with that id; it takes out that order alone and records what was filled of it |
| CancelAndStops.TriggerStopsKeepsWf | services/matching-engine/src/lib.rs:754-777 | firing keeps the invariant, leaves pending exactly the stops the price does not reach, and executes every fired stop: none is lost to the duplicate check |
| CancelAndStops.SubmitAllKeepsWf | services/matching-engine/src/lib.rs:776 | fired stops submitted in turn are each executed, or stopped by a self trade, and nothing else |
| FiredStops.FiredStopsKeepTerms | services/matching-engine/src/lib.rs:765-776 | fired stops answer in order of arrival and trade for their own user; a stop-limit never trades beyond its limit and rests when it cannot trade, a stop-market never rests |
| FiredStops.FiredStopsTakeWhatIsOffered | services/matching-engine/src/lib.rs:765-776 | each fired stop, in its turn, fills the lesser of its quantity and what others offer: at any price for a stop-market, within its limit for a stop-limit |
| FiredStops.FiredStopsRest | services/matching-engine/src/lib.rs:765-776 | what a stop-limit does not get at once rests as a limit order on the stop's own terms, unless an own order is in its range; a stop-market never rests |
| StopPrices.FiresByPrice | services/matching-engine/src/lib.rs:754-777 | a price leaves a buy stop pending if and only if it is below the stop's price, a sell stop if and only if above; what fires is answered, in order of arrival |
| StopPrices.PendingExactly | services/matching-engine/src/lib.rs:263-273 | a pending stop outlives an engine call if and only if every price traded in the call is out of its reach |
| Cascade.TriggeringShrinks | services/matching-engine/src/lib.rs:754-777 | firing consumes stops, or changes nothing and makes no price: the cascade's measure |
| Cascade.CascadeSettles | services/matching-engine/src/lib.rs:263-273 | the cascade keeps the invariant and disarms every queued and every newly traded price |
| Cascade.CascadeIsDepthFirst | services/matching-engine/src/lib.rs:265-271 | all that the later prices set off, through every stop fired on the way, happens before the earlier prices fire anything |
| Cascade.SubmitAndCascadeSettles | services/matching-engine/src/lib.rs:250-279 | after an engine call no pending stop is left that a price traded in the call reaches |
| History.StepIsSound | services/matching-engine/src/lib.rs:549-621 | every engine step keeps the invariant; closed statuses never change while kept, and filled quantity never falls |
| History.ReachableIsSound | services/matching-engine/src/lib.rs:422-800 | every state reachable from an empty book satisfies the invariant, and its audit log is all fills ever made or at least the last 10,000 |
| History.RunIsSound | services/matching-engine/src/lib.rs:422-800 | the invariant in every state of every run |
| History.SubmitLogs | services/matching-engine/src/lib.rs:876-881 | a submit appends its fills, drops none but the oldest beyond 10,000, and leaves no more whenever matching runs to its end |
| History.RunLogs | services/matching-engine/src/lib.rs:876-881 | over a run, cascades included, the audit log is the full history or at least the last 10,000 of it |
| BookLogs.SubmitRecordsFilled | services/matching-engine/src/lib.rs:536-547 | a maker that no longer rests after a submit is recorded as filled with all its quantity, unless pruning forgot it |
| BookLogs.StatusLogBounded | services/matching-engine/src/lib.rs:883-894 | after a submit that ran to its end, a stop taken up or a cancel the status log is within 100,000 entries or holds none but open ones |
| BookLogs.SubmitKeepsOpen | services/matching-engine/src/lib.rs:883-894 | a submit forgets no entry of an order last seen new, partly filled or pending, and closes none but those of orders it trades with |
| BookLogs.CancelKeepsOpen | services/matching-engine/src/lib.rs:883-894 | a cancel forgets and closes none but its own |
| BookLogs.NothingForgotten | services/matching-engine/src/lib.rs:883-894 | a log with room for one more of its 100,000 entries forgets nothing |
| History.LiveIdsAreRefused | services/matching-engine/src/lib.rs:424-428 | a live id is refused in every reachable state, whatever was pruned |
| History.RestThenCancelRestores | services/matching-engine/src/lib.rs:598-627 | resting and cancelling gives back the bids, the asks and the pending stops of the flat view exactly |
| Snapshots.StoredRestThenCancel | services/matching-engine/src/lib.rs:598-627 | the same of what is stored: levels, cached totals, the id index and the pending stops |
| History.ForeignCancelChangesNothing | services/matching-engine/src/lib.rs:598-627 | a cancel by anyone but the owner changes nothing |
| PriceLevels.PushRefinesInsert | services/matching-engine/src/lib.rs:785-796 | pushing to a price level, new or old, is inserting into the flat list |
| PriceLevels.RemoveRefinesWithout | services/matching-engine/src/lib.rs:602-625 | removing from a level, and the level with its last order, is removing from the flat list |
| PriceLevels.PoppedOk | services/matching-engine/src/lib.rs:536-563 | popping the best level's front is dropping the flat list's first, levels staying well formed |
| PriceLevels.FrontReducedOk | services/matching-engine/src/lib.rs:524-526 | reducing the front and the cached total is reducing the flat list's first |
| PriceLevels.FlattenInjective | services/matching-engine/src/lib.rs:118-135 | levels, cached totals included, are determined by the flat list |
| Snapshots.FlatDeterminesState | services/matching-engine/src/lib.rs:126-135 | two valid stored books with the same flat view are equal, index and totals included |
| Snapshots.SnapshotRoundTrip | services/matching-engine/src/lib.rs:674-752 | restoring a snapshot of a valid book gives the book back, though totals and index are not written |
| OrderBook.OrderBook.Submit | services/matching-engine/src/lib.rs:423-596 | the stored book after submit is valid, its flat view and the report are the specification's |
| OrderBook.OrderBook.MatchIncoming | services/matching-engine/src/lib.rs:476-564 | the loop over levels computes the specified match |
| OrderBook.OrderBook.FillBestMaker | services/matching-engine/src/lib.rs:516-563 | one turn: the front maker, its level, total, index, status and audit log |
| OrderBook.OrderBook.RestOrder | services/matching-engine/src/lib.rs:779-800 | resting creates or extends a level, indexes the id, and is the specified rest |
| OrderBook.OrderBook.Cancel | services/matching-engine/src/lib.rs:598-627 | cancelling through the index finds exactly the user's order and removes it and its emptied level |
| OrderBook.OrderBook.CancelStopOrder | services/matching-engine/src/lib.rs:629-647 | cancelling a pending stop |
| OrderBook.OrderBook.TriggerStops | services/matching-engine/src/lib.rs:754-777 | draining the pending list and submitting what fired, in order |
| OrderBook.OrderBook.AvailableCrossingQuantity | services/matching-engine/src/lib.rs:802-822 | the early-returning loop over levels suffices exactly when the crossing quantity of other users does |
| OrderBook.OrderBook.WouldCross | services/matching-engine/src/lib.rs:824-833 | the best opposite price crosses |
| OrderBook.OrderBook.PruneStatusLog | services/matching-engine/src/lib.rs:883-894 | over 100,000 entries, drops the finished ones that are not indexed |
| OrderBook.OrderBook.PruneAuditLog | services/matching-engine/src/lib.rs:876-881 | keeps the newest 10,000 |
| OrderBook.OrderBook.ToSnapshot | services/matching-engine/src/lib.rs:674-693 | writes levels, stops, status, audit log and sequence of the stored book |
| OrderBook.OrderBook.FromSnapshot | services/matching-engine/src/lib.rs:695-727 | the loops over saved levels rebuild what the specification restores |
| OrderBook.OrderBook.RestoreLevel | services/matching-engine/src/lib.rs:729-752 | one level with its total and its index entries |
| Symbols.NormalizeIdempotent | services/matching-engine/src/lib.rs:926-928 | normalising a symbol again changes nothing, so live calls and replay find the same book |
| Symbols.NormalizeExactly | services/matching-engine/src/lib.rs:926-928 | white space around a symbol is dropped, the letters a to z are raised, and every other character stays in its place |
| Symbols.CanonicalKeys | services/matching-engine/src/lib.rs:926-928 | a symbol without white space around it or small letters is its own key, and every key is such a symbol |
| Symbols.SharedKeys | services/matching-engine/src/lib.rs:926-928 | two spellings share a key if and only if they are, white space aside, the same text up to the case of a to z |
| Symbols.AsciiWhitespace | services/matching-engine/src/lib.rs:926-928 | of the ASCII characters exactly blanks, tabs and line ends are white space |
| SymbolBooks.SubmitStaysInSymbol | services/matching-engine/src/lib.rs:342-349 | a submit reaches the book of its symbol and leaves that of every other symbol as it was |
| SymbolBooks.CancelStaysInSymbol | services/matching-engine/src/lib.rs:351-361 | so does a cancel, which makes no book |
| SymbolBooks.SpellingsMeet | services/matching-engine/src/lib.rs:342-361 | another spelling of a symbol makes the same calls |
| Recovery.TakeKeepsSound | services/matching-engine/src/lib.rs:250-297 | every engine step, restart and crash keeps every live and saved book sound |
| Recovery.StepInSync | services/matching-engine/src/lib.rs:958-997 | from a state in sync, a step stays in sync if and only if it fires no stop that no snapshot of the same call covers |
| Recovery.RecoveryStateByState | services/matching-engine/src/lib.rs:958-997 | in every state of every run recovery is exact when no operation still in the log fired a stop; and it was exact in all states since the disk was last rebased if and only if none of their operations did |
| Recovery.RecoveryIsExact | services/matching-engine/src/lib.rs:958-997 | over a whole run: recovery is exact in all its states if and only if no step fires a stop that no snapshot of the same call covers |
| Recovery.FreshRecovery | services/matching-engine/src/lib.rs:226-242 | both from an empty disk |
| LostStops.RecoveryExactlyWhereNothingLost | services/matching-engine/src/lib.rs:958-997 | state by state, with no status log at its limit: recovery is exact if and only if no operation still in the log fired a stop |
| LostStops.FreshRecoveryExactly | services/matching-engine/src/lib.rs:226-242 | the same from an empty disk |
| FiringOrders.FiresExactly | services/matching-engine/src/lib.rs:262-273 | a submit fires a stop if and only if it executes and reaches a maker, all before it less than the order wants and none up to it the user's own, at whose price a pending stop triggers |
| Recovery.CrashRecoversApplied | services/matching-engine/src/lib.rs:251-263 | dying between log append and application of a submit recovers to the applied state if and only if the submit fires no stop |
| Recovery.CrashedCancelRecoversApplied | services/matching-engine/src/lib.rs:281-297 | dying between log append and application of a cancel always recovers to the applied state |
| Recovery.FiringDiverges | services/matching-engine/src/lib.rs:981 | a fired stop takes a sequence number that replay never takes |
| EngineLimits.FiredStopComesBack | services/matching-engine/src/lib.rs:981 | a book and a trade after which the live book has fired its stop and the recovered one has it pending |
| SnapshotIntervals.SnapshotsAtInterval | services/matching-engine/src/lib.rs:363-383 | a submit leaves all live books and an empty log on the disk exactly when its trades bring the count to the interval; otherwise one more record |
| SnapshotIntervals.CounterCountsTrades | services/matching-engine/src/lib.rs:363-383 | over every run the counter is the number of trades since the last such submit or restart, and below the interval |
| SnapshotIntervals.CancelIsLogged | services/matching-engine/src/lib.rs:281-297 | a cancel is logged whether or not its symbol has a book |
| EngineCore.SubmitToBook | services/matching-engine/src/lib.rs:262-273 | the loop over queued prices is the specified cascade and counts all its trades |
| EngineCore.MatchingEngineCore.SubmitOrder | services/matching-engine/src/lib.rs:250-279 | log, submit, cascade, trade count and interval snapshot, on one book object a symbol, others untouched |
| EngineCore.MatchingEngineCore.CancelOrder | services/matching-engine/src/lib.rs:281-297 | log, then cancel where the symbol has a book |
| EngineCore.MatchingEngineCore.SnapshotToDisk | services/matching-engine/src/lib.rs:317-334 | the file holds every book and the log is empty |
| EngineCore.MatchingEngineCore.RecordTradeCount | services/matching-engine/src/lib.rs:363-383 | counts trades; at the interval, snapshots and starts over |
| EngineCore.MatchingEngineCore.ReplayWal | services/matching-engine/src/lib.rs:958-997 | the loop over the log computes the specified replay |
| EngineCore.MatchingEngineCore.WithPersistence | services/matching-engine/src/lib.rs:226-242 | a started process holds what snapshot and log recover to |
| WalletLaws.SettleTradeLaws | services/wallet-service/src/services/wallet.service.ts:156-186 | a settlement keeps buckets, ledger and every total; the quote total falls by exactly both fees, whichever side made the trade |
| WalletLaws.LockLaws | services/wallet-service/src/services/wallet.service.ts:89-99 | locking keeps totals and ledger; buckets stay non-negative if and only if the locked one can take the amount |
| WalletLaws.UnlockLaws | services/wallet-service/src/services/wallet.service.ts:110-120 | the same for unlocking |
| WalletLaws.TransferLaws | services/wallet-service/src/services/wallet.service.ts:131-145 | a transfer keeps every total and the ledger, also to oneself |
| WalletLaws.CreditLaws | services/wallet-service/src/services/wallet.service.ts:55-63 | a credit, or with a negative amount a debit, moves one total by its amount |
| WalletLaws.RunConserves | services/wallet-service/src/services/wallet.service.ts:206-221 | over every run, failures rolled back: buckets non-negative, the latest ledger entry is the balance, totals move only by credits, debits and fees |
| WalletMoves.RefusedExactly | services/wallet-service/src/services/wallet.service.ts:236-245 | unknown, frozen and closed users are refused, and nobody else |
| WalletMoves.CreditExactly | services/wallet-service/src/services/wallet.service.ts:55-63 | when a credit goes through, the one balance it changes, and its ledger entry |
| WalletMoves.DebitExactly | services/wallet-service/src/services/wallet.service.ts:71-79 | the same for a debit, which needs the amount available |
| WalletMoves.LockExactly | services/wallet-service/src/services/wallet.service.ts:89-99 | the same for a lock: available falls and locked rises by the amount |
| WalletMoves.UnlockExactly | services/wallet-service/src/services/wallet.service.ts:110-120 | the same for an unlock, which needs the amount locked |
| WalletMoves.TransferExactly | services/wallet-service/src/services/wallet.service.ts:131-145 | a transfer takes the amount from one user and gives it to the other, with both entries; to oneself it changes nothing |
| WalletMoves.SettleExactly | services/wallet-service/src/services/wallet.service.ts:156-186 | a settlement goes through if and only if both users may transact and the buckets hold what it takes; the buyer then has the quantity for price and fee, the seller the price less fee for the quantity, no other bucket moves, and the four entries say so |
| WalletServices.WalletService.Credit | services/wallet-service/src/services/wallet.service.ts:55-63 | the stored balances and ledger after a credit, or untouched when it fails |
| WalletServices.WalletService.Debit | services/wallet-service/src/services/wallet.service.ts:71-79 | the same for a debit |
| WalletServices.WalletService.Lock | services/wallet-service/src/services/wallet.service.ts:89-99 | the same for a lock |
| WalletServices.WalletService.Unlock | services/wallet-service/src/services/wallet.service.ts:110-120 | the same for an unlock |
| WalletServices.WalletService.InternalTransfer | services/wallet-service/src/services/wallet.service.ts:131-145 | both sides, or neither |
| WalletServices.WalletService.SettleTrade | services/wallet-service/src/services/wallet.service.ts:156-186 | the loop over four legs, all or none |
| LockArithmetic.BetterPriceConsumesLess | services/trading-service/src/services/trading.service.ts:276-280 | price improvement frees lock |
| LockArithmetic.LowerFeeConsumesLess | services/trading-service/src/services/trading.service.ts:276-280 | a maker's fee no higher than the taker's needs no more lock |
| LockArithmetic.ConsumedAdds | services/trading-service/src/services/trading.service.ts:276-280 | the lock of a quantity is the sum of the locks of its parts |
| Reservation.SettlementMoves | services/wallet-service/src/services/wallet.service.ts:178-183 | four legs that two different users can pay all succeed and cut exactly two locked buckets |
| Reservation.SettlementPayable | services/trading-service/src/services/trading.service.ts:323-339 | what a fill is settled for comes out of the maker's and the taker's lock and of nothing else |
| Reservation.FillingFits | services/trading-service/src/services/trading.service.ts:305-311 | a maker's fill fits its lock, and what is left of the lock covers what is left of the order |
| Reservation.SettleFillOk | services/trading-service/src/services/trading.service.ts:167-169 | one fill cannot fail and leaves locked buckets equal to the locks |
| Reservation.SettleFillsOk | services/trading-service/src/services/trading.service.ts:166-172 | all fills of a match are settled; the taker's lock still covers its remainder and open orders follow the book |
| PlaceAndCancel.FinishOk | services/trading-service/src/services/trading.service.ts:260-266 | returning the unused lock cannot fail and turns the rest into the open order's lock |
| PlaceAndCancel.PlaceKeepsReserved | services/trading-service/src/services/trading.service.ts:100-195 | placing under a fresh id never meets a failing wallet and keeps the reservation invariant, whatever the engine answers |
| PlaceAndCancel.CancelKeepsReserved | services/trading-service/src/services/trading.service.ts:197-213 | cancelling never fails, keeps the invariant, takes exactly the order the engine let go of off the list, and leaves every other open order as it is; a cancel that does not take effect changes nothing |
| Holdings.PlacementChangesHands | services/trading-service/src/services/trading.service.ts:166-172 | for every user and asset, what is held after a placement is what was held, changed by exactly the fills with the fee of each user's role; the locked part is the open orders' locks |
| MakerEntries.PlacementShowsFills | services/trading-service/src/services/trading.service.ts:302-321 | each fill shows in its maker's open order, which leaves the list with its last one; no other entry changes, and none but the new order is added |
| BrokenPlacements.SettlingStops | services/trading-service/src/services/trading.service.ts:166-172 | where a failing wallet stops the settling of fills: exactly the fills before are settled, and what comes next, a settlement or a filled maker's unlock, is refused in the state left |
| BrokenPlacements.BrokenPlacementStops | services/trading-service/src/services/trading.service.ts:138-190 | a placement the wallet breaks off leaves the engine's book as its answer left it, and so many fills settled that the next is refused, or all |
| PlacementTerms.NotPlacedExactly | services/trading-service/src/services/trading.service.ts:101-139 | a request of any kind is not placed if and only if its user may not trade, it buys without a price or the funds it needs are not available; the first of these is the reason |
| PlacementTerms.EngineSeesTheRequest | services/trading-service/src/services/trading.service.ts:143-156 | a placement of any kind makes one engine call, on the request's market and for exactly what was requested |
| PlacementTerms.KnownIdPlacement | services/trading-service/src/services/trading.service.ts:160-165 | a request under an id the engine knows is rejected and moves nothing |
| PlacementTerms.PostOnlyPlacement | services/trading-service/src/services/trading.service.ts:160-165 | a post-only request never trades: it is rejected, with market and balances as before, if anything rests at a price it would take, and otherwise rests in full, new and open |
| PlacementTerms.LimitPlacement | services/trading-service/src/services/trading.service.ts:166-190 | a limit request fills the lesser of its quantity and what is on offer; the rest of it rests unless an own order is in its range |
| PlacementTerms.ImmediatePlacement | services/trading-service/src/services/trading.service.ts:166-190 | an immediate-or-cancel request fills the same and never rests |
| PlacementTerms.FillOrKillPlacement | services/trading-service/src/services/trading.service.ts:166-190 | a fill-or-kill request expires, with market and balances as before, when others offer too little; otherwise it fills what is on offer, in whole with no own order in range |
| PlacementTerms.MarketPlacement | services/trading-service/src/services/trading.service.ts:143-156 | a market request that completes fills the lesser of its quantity and all that others offer ahead of its user's own orders |
| PlacementTerms.TakerStatus | services/trading-service/src/services/trading.service.ts:174-176 | a limit or immediate request is shown filled, partly filled, new where it rests untouched, or rejected where nothing is left of it |
| PlacementTerms.AnswerExactly | services/trading-service/src/services/trading.service.ts:174-190 | the order returned shows the fills and the engine's status, and holds the cost of its remainder exactly if it stays open |
| PlacementTerms.CancelGivesBack | services/trading-service/src/services/trading.service.ts:197-213 | a cancel takes effect if and only if the market rests the user's order; then all it held is available again and nothing else moves |
| LockHistory.SettleFillsAccounted | services/trading-service/src/services/trading.service.ts:166-172 | through all fills of a match every order's lock is consumed plus released plus held, and nothing costs more than its limit with the taker's fee |
| LockHistory.PlaceKeepsAccounted | services/trading-service/src/services/trading.service.ts:138-190 | the same across a whole placement |
| LockHistory.CancelKeepsAccounted | services/trading-service/src/services/trading.service.ts:197-213 | a cancelled order has no lock left |
| TradingRuns.StepKeepsOrder | services/trading-service/src/services/trading.service.ts:100-213 | placing, cancelling, deposits, withdrawals and transfers keep both invariants |
| TradingRuns.RunNeverBreaks | services/trading-service/src/services/trading.service.ts:138-190 | over every run: no settlement or unlock fails, and both invariants hold at its end |
| TradingRuns.EmptyRunNeverBreaks | services/trading-service/src/services/trading.service.ts:138-190 | in particular from the beginning |
| ExchangeConservation.PlaceConserves | services/trading-service/src/services/trading.service.ts:138-190 | a placement charges both fees of its fills in the quote asset and changes no other total, for every kind of order |
| ExchangeConservation.RunConservesAssets | services/trading-service/src/services/trading.service.ts:100-213 | over every run each asset's total moves only by deposits, withdrawals and fees; no bucket is negative and the ledger tells every balance |
| TradingLimits.PlaceRefusedExactly | services/trading-service/src/services/trading.service.ts:101-139 | a request is turned away if and only if its user may not trade or has too little available |
| TradingLimits.StrandedExactly | services/trading-service/src/services/trading.service.ts:373-375 | a new order stays open without an engine order exactly when it matches in part and is immediate-or-cancel or has an order of its own user in its crossing range |
| TradingLimits.StrandedForever | services/trading-service/src/services/trading.service.ts:197-201 | such an order stays open and its funds locked through every later run |
| TradingLimits.CancelKeepsStranded | services/trading-service/src/services/trading.service.ts:199-201 | it cannot be cancelled |
| TradingLimits.ImmediateOrderStrands | services/trading-service/src/services/trading.service.ts:188-190 | an exchange and a request for which this happens |
| TradingLimits.StopsShownRejected | services/trading-service/src/services/trading.service.ts:396-412 | a stop order is shown rejected, unkept and unfunded, also when the engine holds it pending |
| FeeOrder.BuyerFillExactly | services/trading-service/src/services/trading.service.ts:305-339 | on any desk, a fill of a buyer's open order, of any quantity, is settled and booked if and only if the buyer's locked bucket holds its cost with the maker's fee |
| FeeOrder.FeeOrderDecides | services/trading-service/src/services/trading.service.ts:232-239 | for a buyer with nothing else locked: a part of its order settles if and only if the part at the maker's fee costs no more than the whole at the taker's; the whole, if and only if the maker's fee is no higher |
| FeeOrder.FundRestSellBreaks | services/trading-service/src/services/trading.service.ts:166-172 | with a maker's fee above the taker's, funding both users, resting a buy and selling into it breaks on the settlement |
| FeeOrder.EveryRunCompletesExactly | services/trading-service/src/services/trading.service.ts:232-280 | with two users who may trade: every admissible run from the empty exchange completes if and only if the maker's fee is no higher than the taker's |
| TradingServices.TradingService.PlaceOrder | services/trading-service/src/services/trading.service.ts:100-195 | the in-place call answers and leaves behind what the specification says, also when the wallet fails midway |
| TradingServices.TradingService.SettleAll | services/trading-service/src/services/trading.service.ts:166-172 | the loop over fills, settlement and booking alternating; a failure leaves the state it was met in |
| TradingServices.TradingService.ApplyToOpenOrders | services/trading-service/src/services/trading.service.ts:302-321 | the maker's fill, lock and status; a filled maker is unlocked and leaves the list; when the unlock fails, the maker's entry is changed already and nothing else is |
| TradingServices.TradingService.Finish | services/trading-service/src/services/trading.service.ts:260-266 | the unused lock goes back and a resting order joins the list; when the unlock fails nothing has changed |
| TradingServices.TradingService.CancelOrder | services/trading-service/src/services/trading.service.ts:197-213 | the engine's cancel, then the lock and the list; when the unlock fails, the engine's part stands |

## Conditions of the results

- Decimals are exact: rust_decimal's range, decimal.js's 40 digits and the database's `numeric(38,18)` are
  not modelled, nor is overflow of the sequence counter.
- Orders reach a book with nothing filled yet, as the order constructor makes them.
- The reservation results need priced orders of the kinds limit, post-only, immediate-or-cancel and
  fill-or-kill with positive price and quantity, ids never used before, a maker's fee no higher than the taker's, the taker's
  fee between minus and plus one whole, users whose status does not change during the run, one trading
  instance, and calls that follow one another. `EveryRunCompletesExactly`, `BuyerFillExactly` and
  `StopsShownRejected` say what happens outside.
- An account of each lock's movements is kept beside the open orders so that conservation can be stated;
  the service itself does not store it.

## Left out

- Recovery.RecoveryIsExact: leaves out a crash between the snapshot's rename and the log's truncation, because replay is not idempotent there, and lines of the log that cannot be read back.
- OrderBook.OrderBook.ToSnapshot: decimal text is taken to be lossless.
- LostStops.RecoveryExactlyWhereNothingLost: does not say whether a book can agree with its recovery again by chance, a stop lost, once some status log is at its limit and pruning has set in.
- Trade ids: they are fresh and never read, so fills carry none and settlements are recorded under the taker's order id.
- Open orders are values that the trading service's list replaces, not shared objects; aliasing with the returned order is not captured.
- The trading service calls the engine through the engine's specification, which the engine classes are proved to meet, on symbols already split into base and quote.
- Concurrency: calls are atomic and sequential; the write-ahead log's order under parallel threads and interleaved asynchronous calls are not modelled.
- Failures of files, network, engine or database, and the engine without persistence.
- The wallet's memory mode, which can apply a settlement in part; the model is the transactional mode.
- Restart of the trading service, which recomputes locks, and several replicas of it.
- Account records and their frozen flag; a user's status stands for all that can forbid trading.
- Settlement of fills made by fired stops: the trading service never sees them, so stops are outside the reservation results.
- Depth, order status queries, listings, events and the websocket gateway, which only read or announce.
- Deposits, withdrawals, compliance, risk, notification, user and auth services, the gateway, market data and the frontend.
