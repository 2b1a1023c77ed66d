# A verified model of the trading pipeline

The pipeline turns a Nasdaq ITCH 5.0 feed into book frames for one symbol, hands them to a
strategy process through a shared-memory ring, and keeps that process's orders, funds and
positions. This project models its stateful core in Dafny and proves what that core is for.
`dafny verify dfyconfig.toml` verifies all of it.

| Files | What they model |
|---|---|
| `Probing`, `OrderMap` | open addressing with backward-shift erase; core's map from order reference to order, stale keys included |
| `Words`, `LevelBitmap`, `PriceLevels` | the recursive radix-64 occupancy bitmap and a side's price levels |
| `BookSpec`, `BookSteps`, `OrderBook` | the L3 book: coherence of map, levels, bits and cached top, message by message and over runs |
| `ShareLedger` | what the messages alone say of each order's shares, and that the book rests exactly that |
| `TopOfBook`, `BookTheorems` | when the cached best prices are the best ones, message by message and over runs; what a coherent book tells its readers |
| `DepthSpec`, `MarketFrame`, `PrimaryFeed` | depth walks, snapshot and frame, and the feed that opens and dispatches to books |
| `SpscRing`, `Seqlock` | the two lock-free structures as interleaved atomic steps |
| `FeedGaps`, `FeedRing` | the drop-and-gap protocol, and the ring's interleavings as runs of it |
| `OrderTypes`, `OrderTable`, `TableRuns` | exec's dense order table with its index and running sums, refined to a map |
| `Position`, `Account`, `Units`, `MoneyLedger` | average-cost positions, balances, equity and drawdown, what their integers mean, and the ledger that ties them to the fills of a run |
| `RateModel`, `RateBacklog` | the venue's rate counter, its bound and its exact value |
| `Engine`, `LegalRuns`, `OrderStories` | exec's engine as one step function; its runs, what the venue may still do in a state, and each order's own story |
| `Reservations`, `PositionLimit`, `Solvency`, `Witnesses` | three invariants of those runs with their exact conditions, and runs that break them without |
| `NullVenue`, `RatedRuns`, `OrderLives` | the null router and runs against it, with the rate counters; what each live order awaits, and its age |
| `ExecContext`, `Acceptance` | the imperative engine whose methods are those steps; the reasons that stop a request, in order, and what it does when none applies |

The central results are `OrderBookModule.OrderBook.Replay` with `ShareLedger.RunIsLedger`,
`TopOfBook.RunExact` and `BookTheorems.FusedReplace` (the book), `LevelBitmap.OccupancyBitmap.NextSet` and `PrevSet`
(any size, any number of tiers), `TableRuns.Replay` (the order table is a map),
`Reservations.RunDrift`, `PositionLimit.RunIsSafe`, `Solvency.RunIsCovered`,
`NullVenue.ShutdownLeavesNothing` with `ExecContextModule.ExecContext.Live`, `OrderStories.RunTold` and
`OrderLives.RunLives` (exec over whole runs), `Acceptance.SubmitDecided` and `ReplaceDecided` (the gate),
`MoneyLedger.RunMoney` with `MoneyLedger.PositionIsMoney` and `MoneyLedger.EquityIsWorth` (money),
`Positions.AverageCostExact`, `RateModelModule.LeakyBucket` and `RateBacklog.CountIsBacklog` (the rate counter),
`SpscRing.Fifo`, `Seqlock.NeverTorn`, and `FeedGaps.LossIsExact` with `FeedRing.RunProjects` (the frames lost on the ring itself).

## How the model is built

* State that the program updates in place is a class over arrays. A ghost field or a view function
  gives the value that the state stands for; each method's contract ties the new value to a step
  function of the old one, and the invariants are proved about those step functions.
* Capacities, level counts, depths, table sizes and instrument counts are parameters. Hashes are
  arbitrary functions. `& MASK` is reduction modulo the capacity. `PRICE_TICK` is 100, prices and shares
  are uint32_t, and `total_shares`, `in_range`, ring and router indices wrap at 2^32. Money, lots
  and ticks are unbounded integers. Division of money truncates toward zero.
* Feed preconditions, all in `OrderBookModule.Legal`: references of new orders are fresh, executed or
  cancelled shares do not exceed those left, and one slot of the order map stays free. Prices are any
  uint32_t: levels, bits and the cached best prices follow the abstract book for all of them. Orders
  outside the window are counted and otherwise
  ignored. Message meanings follow sections 1.3 and 1.4 of the Nasdaq TotalView-ITCH 5.0 specification.
* Exec's preconditions, in `LegalRuns.Legal`: a generation issues fewer than 2^40 ids, a market order
  is priced from a non-negative mid, a fill is of at most the leaves, and a Replaced answers a
  pending replace whose new quantity is at least what has filled.
* Concurrent structures are transition systems whose steps are single atomic loads, stores and
  word copies. Index copies go stale between steps.

## False without its condition

* A price window that reaches past 2^32 admits prices below it. `PriceLevels.InRangeExact` gives the exact
  condition under which the one unsigned comparison decides the window,
  `PrimaryFeedModule.SeedHoldsFirstPrice` which first prices seed such a window, and
  `PrimaryFeedModule.SeededWindowWraps` one that does not.
* The cached best prices can fail to be the best ones, because levels are bucketed by tick and the top keeps
  raw prices. A message keeps both exact if and only if it meets `TopOfBook.Guard` (`TopOfBook.StepExact`):
  adds do; an order that leaves must not have been the best, or leave another at its price, or leave its side
  empty, or leave a best order that is priced at its tick and rests on another level (`TopOfBook.LeaveExact`);
  a replace counts the new order among those left. A run keeps them exact throughout if and only if each of its
  messages does (`TopOfBook.RunExact`), as whole ticks always do (`TopOfBook.WholeRunExact`).
  `BookTheorems.OffTickTopGoesStale` is four messages after which a book without orders shows a best bid.
  Whatever the prices the tick of the cached price bounds the side (`BookTheorems.TopOfBookBounds`).
* For the same reason the fused replace can leave another best price than a delete and an add:
  `BookTheorems.FusedReplace` gives the exact condition, and `BookTheorems.FusedTopDiffers` a case.
* The gate's position check does not see growing replaces in flight, because leaves grow only with the
  Replaced report: `PositionLimit.CrowdedBreaksTheLimit` is a legal run that ends one lot above the limit.
  What no later behaviour of the venue can break is exactly that the potential of the live rows fits
  (`PositionLimit.SafeIsLimited`), and a run keeps it if and only if each request leaves room in it
  (`PositionLimit.RunIsSafe`). The gate's check is enough while no growing replace is in flight on the side
  (`PositionLimit.PositionStaysLimited`).
* The gate compares a replace with the leaves of the moment, so a fill before the answer can overdraw:
  `Witnesses.OvertakenOverdraws` is a run through the gate that ends 8 short. What no later fair behaviour of the
  venue can overdraw is exactly that free funds cover the worst of the replaces in flight
  (`Solvency.CoveredIsSolvent`), and a run keeps it if and only if each request affords what it may draw
  (`Solvency.RunIsCovered`), both for a venue that fills a buy whose replace is in flight and for one that does
  not. For the latter the gate's check is enough while nothing else draws on the asset
  (`Solvency.StaysSolvent`).
* Reservations are exact unless a fill splits a lock whose two remainders carry; then one unit is stranded
  (`Reservations.SplitRounds`, `Reservations.RunDrift`), as in `Witnesses.HalvesStrand`.
* A lot finer than 1e-8 of base is not counted as its size, because a power of ten below 1 is taken for 1:
  `Units.LotsAreSize` gives the exact condition.
* A third party's `size()` and a seqlock load are right until the counter they read twice comes round:
  `SpscRing.SizeUnderReports`, `Seqlock.TornAfterWrap`.

## Model

| member | source | states |
|---|---|---|
| Probing.MaskIsMod | src/core/core.hpp:38 | the model's mask is the remainder by the capacity, for every index |
| Probing.ShiftTestsAgree | src/exec/order_table.hpp:86-94 | the two differently written backward-shift tests (core's `>` from the hole, exec's `>=` to it) decide alike, and both mean that the entry's probe path crosses the hole |
| Probing.MoveIntoHole | src/core/core.cpp:48-58 | shifting an entry whose path crosses the hole keeps every other key reachable with the hole moved |
| Probing.CloseHole | src/core/core.cpp:50-52 | stopping the shift at the first empty slot leaves every stored key reachable |
| Probing.EmptyMeansAbsent | src/exec/order_table.hpp:136-144 | a probe that meets an empty slot has proved the key absent |
| Probing.SomeEmpty | src/core/core.cpp:17-21 | fewer live keys than slots leave an empty slot, which stops every probe |
| CoreOrderMap.OrderMap.Find | src/core/core.cpp:15-25 | finds the slot holding the map's entry, exactly when the reference is live |
| CoreOrderMap.OrderMap.Insert | src/core/core.cpp:27-39 | adds the entry to the map and changes no other, reusing slots with stale keys |
| CoreOrderMap.OrderMap.Erase | src/core/core.cpp:41-60 | removes exactly that reference, although the scan compares keys without testing `occupied` |
| CoreOrderMap.OrderMap.ShiftBack | src/core/core.cpp:48-59 | closes the hole with the map unchanged and every probe chain intact |
| LevelBitmap.OccupancyBitmap.Set | src/core/level_bitmap.hpp:62-65 | adds the index to the set and keeps every tier's summary exact |
| LevelBitmap.OccupancyBitmap.Clear | src/core/level_bitmap.hpp:67-72 | removes the index and drops drained words from the summaries of every tier |
| LevelBitmap.OccupancyBitmap.Reset | src/core/level_bitmap.hpp:56-60 | leaves the empty set at every tier |
| LevelBitmap.OccupancyBitmap.NextSet | src/core/level_bitmap.hpp:74-85 | the least set index at or above i, or NPOS when there is none, for any size |
| LevelBitmap.OccupancyBitmap.PrevSet | src/core/level_bitmap.hpp:87-100 | the greatest set index at or below i, or NPOS when there is none, for any size |
| LevelBitmap.NextInLeaf | src/core/level_bitmap.hpp:36-41 | the leaf's mask and trailing-zero count find the least set bit at or above i |
| LevelBitmap.PrevInLeaf | src/core/level_bitmap.hpp:44-47 | the leaf's mask and leading-zero count find the greatest set bit at or below i |
| PriceLevels.InRangeExact | src/core/core.cpp:68-71 | the single unsigned comparison decides the window for every price if and only if the window does not reach past 2^32 or starts at 0 |
| PriceLevels.InRangeWraps | src/core/core.cpp:63-71 | at the program's level count, a base past which price 0 is admitted though it lies below |
| PriceLevels.PriceLevelArray.Init | src/core/core.cpp:83-88 | the base is rounded down to a tick, and no level has orders |
| PriceLevels.PriceLevelArray.AddOrder | src/core/core.cpp:161-164 | one order more and its shares added mod 2^32 at that level alone, which is then marked |
| PriceLevels.PriceLevelArray.NextOccupiedAbove | src/core/core.cpp:105-110 | the price of the nearest marked level strictly above, or 0 |
| PriceLevels.PriceLevelArray.PrevOccupiedBelow | src/core/core.cpp:112-120 | the price of the nearest marked level strictly below, or 0 |
| OrderBookModule.OrderBook.Init | src/core/core.cpp:145-151 | a coherent empty book on the rounded base |
| OrderBookModule.OrderBook.OnLevelEmptied | src/core/core.cpp:131-143 | clears the level's bit and, if it held the best price, moves the top of book to the nearest surviving level or the sentinel |
| OrderBookModule.OrderBook.OnAdd | src/core/core.cpp:153-180 | the abstract book gains the order and a best price no worse than the new one, or counts a drop outside the window, with all redundant state coherent |
| OrderBookModule.OrderBook.OnExecute | src/core/core.cpp:182-211 | takes the shares off the order, and the order with its last share, when the best price moves as its level requires; reports the display price, shares and side |
| OrderBookModule.OrderBook.OnExecuteWithPrice | src/core/core.cpp:213-222 | the same book change, printed at the execution price when shares were executed |
| OrderBookModule.OrderBook.OnCancel | src/core/core.cpp:224-253 | takes the cancelled shares off the order, and the order with its last share, when the best price moves as its level requires |
| OrderBookModule.OrderBook.OnDelete | src/core/core.cpp:255-277 | removes the order; a best price equal to its own moves, if its level emptied, to the tick of the best order left or the sentinel; nothing for an unknown reference |
| OrderBookModule.OrderBook.OnReplace | src/core/core.cpp:279-325 | leaves the orders of a delete and an add on the same side and the best price of its own order of work: the new order enters before the old level is settled |
| OrderBookModule.OrderBook.Apply | src/core/primary_feed.hpp:45-66 | each message kind takes its step of the abstract book and resolves its trade |
| OrderBookModule.OrderBook.Replay | src/core/core.cpp:153-325 | any run of legal messages keeps the book coherent and ends in the abstract book of the run, cached best prices included |
| ShareLedger.RunIsLedger | src/core/core.cpp:182-253 | in every legal run an order rests if and only if the messages entered it, did not delete or replace it away and left it shares; it rests with the price and side it entered with and exactly the shares not yet executed or cancelled; drops are counted one by one |
| ShareLedger.TradeIsLedger | src/core/core.cpp:182-222 | after any legal run an execution prints its shares on the side its order entered with, at the price it entered with or at its own, and nothing for an order that does not rest |
| ShareLedger.ReplayIsLedger | src/core/core.cpp:153-325 | messages applied to a book leave in its order map exactly what the ledger of those messages leaves |
| BookSpec.LevelCount | src/core/core.cpp:163-164 | level counts are exact below 2^32, so a level is occupied just when an order rests on it |
| BookSpec.CountIsCardinality | src/core/core.hpp:58-61 | the weighted sum a level must show as its count is the number of references resting on it |
| BookSteps.SideAdd | src/core/core.cpp:160-164 | adding an order grows its level and sets its bit, leaving the side's levels and bits exact |
| BookSteps.TopAdd | src/core/core.cpp:165-166 | the tick of the best price after an add still bounds the side's occupied levels |
| BookSteps.SideRemove | src/core/core.cpp:262-266 | removing an order leaves its side coherent but for one level that may be stale |
| BookSteps.TopEmptied | src/core/core.cpp:131-143 | after an emptied level the hop, or its omission, keeps the tick of the best price a bound |
| BookSteps.HopIsBestTick | src/core/core.cpp:131-143 | the hop from an emptied best level lands on the tick of the best order left, or on the empty sentinel |
| TopOfBook.LeaveExact | src/core/core.cpp:131-143 | an order's departure leaves the best price exact if and only if it was not the best, or another rests at its price, or none rests, or the best left is priced at the tick of another level |
| TopOfBook.ReplaceExact | src/core/core.cpp:279-325 | a replace leaves both best prices exact if and only if the old order's departure meets that guard with the new order counted among those left |
| TopOfBook.StepExact | src/core/core.cpp:153-325 | from exact best prices any legal message leaves them exact if and only if it meets its guard |
| TopOfBook.RunExact | src/core/core.cpp:153-325 | a legal run keeps best_bid the highest resting bid or 0 and best_ask the lowest resting ask or UINT32_MAX throughout if and only if every message meets its guard |
| TopOfBook.WholeRunExact | src/core/core.cpp:327-328 | whole-tick runs keep both best prices exact |
| TopOfBook.FusedTop | src/core/core.cpp:279-302 | entering the new order before or after the old one leaves gives the same best price if and only if the order of work is free |
| BookTheorems.ReplayExact | src/core/core.cpp:153-328 | messages applied to a book whose best prices are exact keep them so throughout if and only if every message meets its guard |
| BookTheorems.TopOfBookBounds | src/core/core.cpp:327-328 | whatever the prices, no bid rests a tick above best_bid's and no ask a tick below best_ask's |
| BookTheorems.OffTickTopGoesStale | src/core/core.cpp:131-135 | four messages applied to an empty book, two bids on one level that come and go, end with best_bid at a price though no order rests |
| BookTheorems.LevelExact | src/core/core.cpp:330-335 | whatever the prices, a level counts the orders of its tick and sums their shares mod 2^32, and its bit is set just when there are any |
| BookTheorems.OrdersDetermineBook | src/core/core.hpp:58-96 | two coherent books with the same orders have the same levels and bits, and are equal if their best prices are |
| BookTheorems.FusedReplace | src/core/core.cpp:279-325 | for every price the fused replace and a delete followed by an add leave the same orders, levels, bits and drop count, and the same best prices if and only if the order of work is free |
| BookTheorems.FusedTopDiffers | src/core/core.cpp:279-302 | a lone best bid at 1100 replaced by 1050: best_bid is 1000 fused and 1050 by delete and add |
| OrderBookModule.OrderBook.TopBids | src/core/core.cpp:341-350 | for every price the list is headed by best_bid, unless that is the sentinel, and goes on with the best levels below it in strictly falling price order with counts and shares, none missing unless the list is full; the book is left alone |
| OrderBookModule.OrderBook.TopAsks | src/core/core.cpp:352-362 | for every price the list is headed by best_ask, unless that is the sentinel, and goes on with the best levels above it in strictly rising price order with counts and shares, none missing unless the list is full; the book is left alone |
| DepthSpec.TopCount | src/core/core.cpp:341-362 | a walk lists min(limit, occupied levels) entries |
| DepthSpec.TopPrefix | src/core/market_update_builder.hpp:36-37 | the first entries of a deeper walk are the shallower walk |
| DepthSpec.WalkedIsTop | src/core/core.cpp:341-362 | among whole ticks, from an exact best price, a walk lists exactly the side's best levels |
| MarketFrame.BookSnapshot.Capture | src/core/snapshot/book_snapshot.hpp:25-33 | for every price the snapshot shows the book's best prices and its walks to full depth, and leaves the book alone |
| MarketFrame.MarketUpdate.Build | src/core/market_update_builder.hpp:18-52 | for every price the frame holds the event's stamps, the trade, the book's walks cut to the feed's depth, the best prices or empty sentinels, and TWO_SIDED exactly when both sides have a best price |
| MarketFrame.CutFrames | src/core/market_update_builder.hpp:30-37 | the deep walk cut to the feed's depth is the feed's walk, headed by the best price, and empty just when the side has none |
| MarketFrame.WholeFrames | src/core/market_update_builder.hpp:30-37 | among whole ticks, with exact best prices, a frame's side is the best levels, empty just when no order rests on it |
| PrimaryFeedModule.SeedHoldsFirstPrice | src/core/primary_feed.hpp:33-36 | a seeded window contains the price that seeded it, and fits 32 bits if and only if half a window above that price does |
| PrimaryFeedModule.FeedPriceFits | src/core/primary_feed.hpp:33-36 | every first price up to 200,000.0000, the most that a Price(4) field of TotalView-ITCH 5.0 carries, seeds a window that fits |
| PrimaryFeedModule.SeededWindowWraps | src/core/primary_feed.hpp:33-36 | a first price near 2^32 seeds a window that admits price 0 |
| PrimaryFeedModule.PrimaryFeed.Ensure | src/core/core.cpp:379-388 | the locate's book is opened on its first add only, seeded and empty; other books are untouched |
| PrimaryFeedModule.PrimaryFeed.Apply | src/core/primary_feed.hpp:19-79 | filters by symbol or open book, counts exactly the accepted events, steps that book alone and returns the event's trade |
| PrimaryFeedModule.FeedIsBooks | src/core/primary_feed.hpp:19-79 | whatever the feed interleaves, each book is the run of its own messages from a book seeded by the first add, and the count is that of the events that reached a book |
| SpscRing.Fifo | src/common/spsc_ring.hpp:24-69 | in every interleaving the popped items are a whole-item prefix of the pushed ones, and occupancy is the index difference and at most the capacity |
| SpscRing.NeverSameSlot | src/common/spsc_ring.hpp:31-65 | in every interleaving the slot being written is not the slot being copied |
| SpscRing.ClaimDecides | src/common/spsc_ring.hpp:25-31 | a claim with a stale head refuses exactly when the ring looked full, and never overruns |
| SpscRing.PopDecides | src/common/spsc_ring.hpp:59-63 | a pop with a stale tail refuses exactly when the ring looked empty, and never underruns |
| SpscRing.SizeNeverUnderReports | src/common/spsc_ring.hpp:71-77 | a third party's size is at least the occupancy at its second read until 2^32 items pass in between |
| SpscRing.SizeUnderReports | src/common/spsc_ring.hpp:71-77 | a run of 2^32 items between the two reads, after which a ring with an item in it looks empty |
| Seqlock.NeverTorn | src/common/seqlock.hpp:15-30 | a load that succeeds during fewer than 2^63 stores returns one stored value whole: the last completed when it first read the sequence |
| Seqlock.TornAfterWrap | src/common/seqlock.hpp:15-30 | a run of 2^63 stores during one load, which succeeds with words of two values |
| Seqlock.ReaderKeeps | src/common/seqlock.hpp:23-30 | every reader step keeps a copy in progress equal to a prefix of the last completed value while no store has begun |
| FeedGaps.MarketView.OnUpdate | src/exec/market_view.hpp:16-29 | a forward jump adds the missing frames, any jump or the producer's flag sets feed_reset |
| FeedGaps.NothingUncounted | src/core/core_main.cpp:243-252 | in every interleaving frames pushed and dropped add up to the events applied |
| FeedGaps.LossIsExact | src/core/core_main.cpp:234-254 | a consumer has counted exactly the frames lost between its first and its last, and feed_reset holds iff the frame just before the last was lost |
| FeedGaps.FirstConsumerCountsAll | src/exec/market_view.hpp:19-25 | the first consumer's gap count is all that was lost before its last frame |
| FeedRing.RunProjects | src/core/core_main.cpp:234-254 | every interleaving of the producer's loop and a consumer's pop, step by step with stale index copies and consumers that die anywhere, is a run of the drop and gap protocol that takes effect where try_claim loads the reader's index |
| FeedRing.FeedCounts | src/core/core_main.cpp:243-252 | in every such interleaving frames pushed and dropped and the event in hand add up to the events applied, and what was pushed is what the ring took |
| FeedRing.FeedLossIsExact | src/exec/market_view.hpp:16-29 | in every such interleaving the consumer has counted exactly the frames lost between its first and its last, and feed_reset holds iff the frame just before the last was lost |
| FeedRing.FeedFirstCountsAll | src/exec/market_view.hpp:19-25 | in every such interleaving the first consumer's gap count is all that was lost before its last frame |
| ExecOrderTable.OrderTable.SlotOf | src/exec/order_table.hpp:136-144 | finds the one slot of a stored id, or NONE exactly when it is absent; the probe stops |
| ExecOrderTable.OrderTable.Find | src/exec/order_table.hpp:50-53 | the dense row with the id, or nothing when there is none |
| ExecOrderTable.OrderTable.Insert | src/exec/order_table.hpp:59-70 | appends the row, or refuses exactly for a full table, id 0 or a present id; index, counts and sums stay exact |
| ExecOrderTable.OrderTable.Erase | src/exec/order_table.hpp:72-95 | swap-removes the row, or nothing for an unknown id; index stays a bijection with reachable keys, sums stay exact |
| ExecOrderTable.OrderTable.Repoint | src/exec/order_table.hpp:80-84 | the moved row's entry is repointed before the shift, and every entry but the hole again names its row |
| ExecOrderTable.OrderTable.ShiftBack | src/exec/order_table.hpp:85-94 | the backward shift closes the hole and keeps every entry reachable and pointing at its row |
| ExecOrderTable.OrderTable.SetLeaves | src/exec/order_table.hpp:98-101 | changes one row's leaves and the side's open lots by the difference |
| ExecOrderTable.OrderTable.SetGeneration | src/exec/order_table.hpp:41-42 | the generation is kept modulo 2^24 and nothing else changes |
| ExecOrderTable.OrderTable.NextId | src/exec/order_table.hpp:41-43 | the id of the generation's next counter value |
| TableRuns.Replay | src/exec/order_table.hpp:50-101 | after any run of insert, erase and set_leaves, lookup of every id agrees with a plain map |
| TableRuns.EraseAgrees | src/exec/order_table.hpp:72-84 | swap-remove is removal from the map |
| OrderTypes.SumSwapRemove | src/exec/order_table.hpp:76-84 | a swap-remove lowers every sum over the rows by the removed row's share alone |
| Positions.FillIsCashExact | src/exec/account.hpp:181-199 | one fill changes realized - cost by its cash, whatever the division rounds |
| Positions.AverageCostExact | src/exec/account.hpp:159-199 | over any fills, flips included, realized - cost is the net cash flow, qty is bought - sold, and a flat position has no cost |
| Positions.AvgPxWithinFills | src/exec/account.hpp:231-234 | the average price of an open position lies within the lowest and highest fill price |
| Positions.RemovalKeepsBand | src/exec/account.hpp:187-191 | truncated removal of cost leaves the rest between the same prices |
| Positions.TalliesExact | src/exec/account.hpp:163-180 | lots bought, lots sold and fills are each counted once |
| MoneyLedger.RunMoney | src/exec/account.hpp:153-180 | over any run each asset's total changes by exactly the lots bought less sold where it is the base, the notional of sells less buys where it is the quote, less the fees taken in it; nothing but a live order's execution moves it |
| MoneyLedger.RunPositions | src/exec/account.hpp:153-201 | over any run each position is what its own instrument's executions make of it, and its fees are theirs |
| MoneyLedger.PositionIsMoney | src/exec/account.hpp:153-201 | over any legal run from flat an instrument's own base asset gains its lots, and its own quote asset, where the conversion does not divide, the cash that is realized less cost; fees apart |
| MoneyLedger.FeeBooked | src/exec/account.hpp:172-179 | a quote fee is booked as it is, a base fee at the fill's price, to within the truncated unit |
| MoneyLedger.MarkedToMarket | src/exec/account.hpp:211-220 | realized and unrealized together are cash flow and lots at the mid, to within the one truncated half |
| MoneyLedger.RunMarked | src/exec/account.hpp:204-220 | the same of a run's executions and the quote that marks it |
| MoneyLedger.EntryShowsNone | src/exec/account.hpp:215-220 | a position marked at its one entry price shows neither profit nor loss |
| MoneyLedger.EquityIsWorth | src/exec/account.hpp:221-226 | for one instrument with quote fees whose conversion does not divide, equity is the gain of the quote balance and the lots at the mid, to within half a tick-lot |
| AccountModule.Account.Asset | src/exec/account.hpp:96-107 | finds an asset by name or adds it without funds; none exactly when the account is full of others |
| AccountModule.Account.SetBalance | src/exec/account.hpp:109-113 | sets the total of the named asset alone, adding it if there is room |
| AccountModule.Account.AddInstrument | src/exec/account.hpp:71-94 | registers an instrument flat, on a row of its own, with the assets its symbol names and the conversions of its tick and lot; false exactly without room; a registered one is unchanged |
| AccountModule.SplitRoundTrip | src/exec/account.hpp:31-44 | a symbol written of two names with either separator splits into them, and a bare ticker is quoted in USD |
| Units.NotionalIsValue | src/exec/account.hpp:117-120 | a notional is price times size in 1e-8 units of quote, truncated toward zero, whatever the exponents of tick and lot |
| Units.LotsAreSize | src/exec/account.hpp:88-91 | base units are size in 1e-8 units if and only if a lot is not finer than that, or there are none |
| AccountModule.Account.OnFillReport | src/exec/account.hpp:153-201 | releases, exchanges funds, charges the fee, moves the position and tracks equity, in one step of the account value |
| AccountModule.Account.Equity | src/exec/account.hpp:221-226 | the sum over instruments of realized and unrealized less fees |
| AccountModule.Account.TrackEquity | src/exec/account.hpp:291-297 | raises the peak and the drawdown by the present equity |
| AccountModule.DrawdownExact | src/exec/account.hpp:204-228 | after any fills and marks the peak is the highest tracked equity and the drawdown the deepest fall from an earlier one to a later one |
| RateModelModule.CostFalls | src/exec/rate_model.hpp:25-44 | waiting never makes an amend or cancel dearer |
| RateModelModule.CostVectors | tests/fixtures/kraken_rate_vectors.csv:4-26 | the costs of the shared vectors, on both sides of each step |
| RateModelModule.RateModel.Budget | src/exec/rate_model.hpp:65-73 | an operation is allowed exactly when its cost fits the budget |
| RateModelModule.RateModel.Charge | src/exec/rate_model.hpp:75-82 | charges one instrument's leaked counter, never turns its time back, records the charge, and keeps all recorded adds and amends within budget |
| RateModelModule.LeakyBucket | src/exec/rate_model.hpp:56-82 | the cost from any charge to an accepted add or amend is at most max - margin plus the leak over the counter's own time |
| RateModelModule.RateModel.ChargesLeak | src/exec/rate_model.hpp:69-82 | that bound for the charges a model has in fact made |
| RateBacklog.CountIsBacklog | src/exec/rate_model.hpp:56-62 | the count at any time is the greatest of 0 and, over the charges, the cost of all from one on less the decay since it: nothing stays that has had time to leak |
| RateBacklog.RefusedExact | src/exec/rate_model.hpp:69-73 | an operation is refused if and only if its cost alone, or with the unleaked cost of some suffix of the charges, passes max - margin |
| RateBacklog.WouldAllowExact | src/exec/rate_model.hpp:69-73 | that condition for the charges a model has in fact made |
| RateBacklog.BudgetExact | src/exec/rate_model.hpp:65-67 | the budget shown is max - margin less that backlog |
| RateBacklog.IdleFrees | src/exec/rate_model.hpp:56-62 | after an idle time of count / decay the counter shows 0 and the whole budget is back |
| RateBacklog.HourFrees | src/exec/rate_model.hpp:56-73 | fifty-five adds at once refuse the next, and an hour later it is allowed |
| Engine.StepKeepsOk | src/exec/exec_context.hpp:63-118 | every step, whatever the venue reports, keeps unique nonzero ids, table room, registered instruments and the account's shape |
| Engine.InsertSucceeds | src/exec/strategy.hpp:69-86 | an accepted submit's id is fresh, so its insert never fails, and the erase after a refusal restores the table |
| Engine.StepKeepsIds | src/exec/order_table.hpp:41-43 | live ids stay among those the generation has issued |
| OrderStories.RunTold | src/exec/exec_context.hpp:63-118 | in every legal run an order is live if and only if its story goes on; its row has the terms opened with or last amended to, exactly the lots filled, the difference as leaves, and the requests in flight |
| OrderStories.OrdersConserved | src/exec/exec_context.hpp:63-118 | orders_new is always the live rows, the canceled, the expired, the venue's rejects and the completely filled together |
| OrderStories.ReportsCounted | src/exec/exec_context.hpp:63-118 | each counter of reports is the number of those of its kind that found their order live, and unsolicited of those that did not |
| Reservations.SplitRounds | src/exec/account.hpp:285-289 | truncated division of a sum exceeds the sum of the divisions by 1 if the remainders carry, else by 0 |
| Reservations.ReservationSplits | src/exec/account.hpp:136-140 | what a part and the rest lock falls short of the whole by exactly what the split strands, nothing for sells and undivided conversions |
| Reservations.FillDrift | src/exec/exec_context.hpp:75-88 | a fill moves its asset's drift by exactly what the split of the row's lock strands |
| Reservations.ReplacedDrift | src/exec/exec_context.hpp:90-98 | a replace moves the reservation exactly |
| Reservations.StepDrift | src/exec/exec_context.hpp:63-118 | a step moves the drift by exactly what it strands: something only in a fill |
| Reservations.RunDrift | src/exec/exec_context.hpp:63-118 | in every legal run each asset's reserved less its rows' locks is what the fills stranded: between 0 and their number, 0 if and only if none carries, and 0 where nothing divides |
| Witnesses.HalvesStrand | src/exec/exec_context.hpp:75-88 | a run through the gate after which no order is left and one unit stays reserved |
| PositionLimit.SafeIsLimited | src/exec/exec_context.hpp:63-118 | no behaviour of the venue carries position and open lots past the limit if and only if the potential of the live rows, replaces in flight included, fits it |
| PositionLimit.RequestIsSafe | src/exec/risk.hpp:193-200 | a submit or replace keeps every later behaviour of the venue inside the limit if and only if it leaves room beside that potential |
| PositionLimit.RunIsSafe | src/exec/risk.hpp:236-253 | a legal run from a safe state is safe throughout if and only if each of its requests leaves room |
| PositionLimit.AnswersReach | src/exec/exec_context.hpp:90-98 | from any state the venue can answer every growing replace, so that a side's open lots become its potential |
| PositionLimit.CalmIsRoomy | src/exec/risk.hpp:236-253 | the gate's check leaves room when no growing replace is in flight on the request's side |
| PositionLimit.PositionStaysLimited | src/exec/risk.hpp:236-253 | in every legal run that is calm about growing replaces, pos + open buys <= max_position and pos - open sells >= -max_position |
| PositionLimit.ReplaceExact | src/exec/strategy.hpp:99-128 | after an amend the potential fits the limit if and only if it left room before |
| PositionLimit.FillLimited | src/exec/exec_context.hpp:75-88 | a fill moves lots from the open side into the position, one for one |
| PositionLimit.CrowdedBreaksTheLimit | src/exec/risk.hpp:193-200 | a legal run of two overlapping growing replaces ends one lot above the limit |
| Solvency.CoveredIsSolvent | src/exec/exec_context.hpp:63-118 | no fair behaviour of the venue overdraws an asset if and only if its free funds cover the worst that answering the replaces in flight may lock |
| Solvency.RequestIsCovered | src/exec/risk.hpp:203-212 | a submit or replace leaves the asset covered against every later behaviour if and only if it affords what it may draw |
| Solvency.RunIsCovered | src/exec/risk.hpp:159-166 | a legal run with fair fills from a covered state is covered throughout if and only if each of its requests affords what it may draw |
| Solvency.DrawsReach | src/exec/exec_context.hpp:75-98 | from any state the venue can fill and answer so that every replace draws all that it may |
| Solvency.QuietAffords | src/exec/risk.hpp:203-212 | the gate's check affords a request while nothing else may draw on its asset, for a venue that does not fill a buy before answering its replace |
| Solvency.StaysSolvent | src/exec/risk.hpp:159-166 | in every legal spot-only run filled at the reserved price or better without fees, and quiet while a replace is in flight, total - reserved >= 0 |
| Solvency.ReplaceExact | src/exec/strategy.hpp:99-128 | after an amend the free funds cover the replaces in flight if and only if they afforded it before |
| Solvency.FillFrees | src/exec/account.hpp:153-170 | an execution at the limit or better lowers no asset's free funds |
| Witnesses.OvertakenOverdraws | src/exec/risk.hpp:203-212 | a run of a submit, a replace, a fill and the answer, each request accepted by a spot-only gate, that ends 8 overdrawn |
| NullVenue.NullRouter.Submit | src/exec/router.hpp:32-74 | queues the request's answers in order, or refuses exactly when they may not fit |
| NullVenue.NullRouter.Push | src/exec/router.hpp:89 | appends a report without touching the queued ones, across the index wrap |
| NullVenue.NullRouter.Pop | src/exec/router.hpp:78-81 | takes the oldest report, or nothing from an empty queue |
| NullVenue.StepKeepsNullOk | src/exec/strategy.hpp:55-156 | every step keeps Acks first and unique for live orders, one Replaced for each pending replace, a Canceled for each pending cancel, and queue and table in bounds |
| OrderLives.RunLives | src/exec/router.hpp:32-74 | in every run a live order's Ack is queued or was taken by the poll its ack time names, its Expired is queued if and only if it is IOC or FOK, its Canceled and Replaced if and only if it awaits them |
| OrderLives.PolledRests | src/exec/router.hpp:26-29 | once everything queued is polled each live order is acked, neither IOC nor FOK, and awaits nothing |
| OrderLives.CancelCharged | src/exec/strategy.hpp:145-149 | every routed cancel is charged the cost of exactly the time since the poll that took its order's Ack |
| OrderLives.ReplaceCharged | src/exec/strategy.hpp:119-124 | every routed replace is charged the cost of exactly the time since the poll that took its order's Ack |
| NullVenue.StepHoldsDrift | src/exec/router.hpp:26-29 | no step against the null venue moves any asset's drift |
| NullVenue.NullRunsBalance | src/exec/router.hpp:32-89 | in every run orders_new = acks + Acks queued, the queue fits, and reserved money is what live rows lock |
| NullVenue.CancelAllReaches | src/exec/strategy.hpp:153-156 | with room for a cancel of each row, cancel_all leaves every row with its Canceled queued |
| NullVenue.DrainEmpties | src/exec/exec_main.cpp:129-130 | draining then empties the table and the queue |
| NullVenue.ShutdownLeavesNothing | src/exec/exec_main.cpp:126-131 | after any run, if queued reports and live rows fit the queue, cancel_all and the drain leave no order, no reserved money, and every order acked; the queue is drained just when an order was live |
| ExecContextModule.ExecContext.PositionVerdictExact | src/exec/risk.hpp:236-253 | the gate's verdict from the running sums is the verdict from the live rows |
| ExecContextModule.ExecContext.GateNew | src/exec/risk.hpp:124-171 | the first failing check decides a new order, as in the engine's step |
| ExecContextModule.ExecContext.GateReplace | src/exec/risk.hpp:173-217 | the first failing check decides an amend, as in the engine's step |
| Acceptance.SubmitDecided | src/exec/strategy.hpp:55-95 | a submit goes through if and only if none of the listed reasons applies, from kill and pause over the price band to the room of table and queue, and then does all its work; else it reports the first in the source's order and leaves rows, queue, account and rate counters alone, a full queue spending an id |
| Acceptance.ReplaceDecided | src/exec/strategy.hpp:99-128 | a replace goes through if and only if none of its reasons applies, and then marks its row, queues its answer and pays; else it reports the first and changes nothing else |
| Acceptance.CancelDecided | src/exec/strategy.hpp:131-151 | a cancel changes nothing for an unknown or already leaving order, reports a full queue, and else is in flight and paid for |
| Acceptance.SubmitToVenue | src/exec/risk.hpp:124-171 | the same of the context itself, with the id returned |
| Acceptance.ReplaceAtVenue | src/exec/risk.hpp:173-217 | the same of the context itself, with the answer returned |
| ExecContextModule.ExecContext.FinishRow | src/exec/exec_context.hpp:201-204 | gives back the row's reservation and drops the row |
| ExecContextModule.ExecContext.OnExecution | src/exec/exec_context.hpp:75-89 | account, row and counters after a fill are the engine's fill step |
| ExecContextModule.ExecContext.OnReplaced | src/exec/exec_context.hpp:90-99 | release, row update and reserve are the engine's replaced step |
| ExecContextModule.ExecContext.OnReport | src/exec/exec_context.hpp:63-118 | applying a report in place is the engine's report step, an unknown id counted and otherwise ignored |
| ExecContextModule.ExecContext.SubmitOrder | src/exec/strategy.hpp:55-95 | a submit in place is one step of the engine, the router's queue and the rate counters, which answer its rate gate and are charged when it is routed; returns the new id when accepted and routed, else the invalid one |
| ExecContextModule.ExecContext.ReplaceOrder | src/exec/strategy.hpp:99-128 | an amend in place is one step of engine, queue and rate counters, charged by the order's age; true exactly when it was routed |
| ExecContextModule.ExecContext.CancelOrder | src/exec/strategy.hpp:131-151 | a cancel in place is one step of engine, queue and rate counters; true when routed or already pending |
| ExecContextModule.ExecContext.CancelAll | src/exec/strategy.hpp:153-156 | the loop over the dense rows is a cancel of each row in turn |
| ExecContextModule.ExecContext.PollReports | src/exec/runner.hpp:26-34 | polling applies every queued report, oldest first, until the queue is empty |
| ExecContextModule.ExecContext.MarkQuote | src/exec/runner.hpp:45 | a frame's quote marks its instrument and nothing else |
| RatedRuns.RatedIsRun | src/exec/strategy.hpp:55-151 | a run with rate counters is the engine's run of the same actions, each with the answer that the counters gave |
| RatedRuns.DoneAt | src/exec/risk.hpp:167-168 | the answer of each action is read from the counters that the run so far has left |
| ExecContextModule.ExecContext.Session | src/exec/runner.hpp:59-96 | any mix of requests, polls and marks ends in the state of the run of engine, queue and rate counters of those very actions, each rate answer read from the counters of that moment |
| ExecContextModule.ExecContext.Live | src/exec/exec_main.cpp:120-131 | a new context, any session and shutdown: says whether queue and rows fit after the session, and when they do no order is left, nothing is reserved and every order was acked |
| ExecContextModule.ExecContext.Shutdown | src/exec/exec_main.cpp:126-131 | shutdown is cancel_all and polls while an order is live and the deadline allows |

## Left out

- Acceptance.SubmitDecided: the price band is measured in reals where the program has doubles, so its rounding is not modelled.
- RateModelModule.LeakyBucket: counts are reals where the program has doubles, so rounding of the counter is not modelled.
- LevelBitmap.OccupancyBitmap.NextSet: a 64-bit word is the set of its one-bits, and shifts, masks and bit counts are set operations with shift distances below 64; machine words themselves are not modelled.
- SpscRing.Fifo: atomics are sequentially consistent steps with stale local copies; the C++ memory model is not part of this model.
- Reservations.RunDrift: money and lots are unbounded integers; overflow of int64 and of the 128-bit intermediate products is not modelled.
- Solvency.CoveredIsSolvent: for a venue that fills a buy whose replace is in flight, instruments trade two different assets.
- AccountModule.Account.SetBalance: names are compared whole, which is what the program does with names of up to 7 characters, as a symbol's are.
- AccountModule.Account.OnFillReport: a fee in base for a fill of no lots divides by zero in the program and counts nothing here.
- OrderBookModule.OrderBook.Apply: the drop counter is kept per book, not for the process.
- PrimaryFeedModule.PrimaryFeed.Ensure: a first price that seeds a window past 2^32 is excluded; no price of the feed's specification does (`PrimaryFeedModule.FeedPriceFits`). The prewarmed spare book and the unused stock id are left out.
- PrimaryFeedModule.PrimaryFeed.Apply: the same first prices are excluded.
- NullVenue.NullRouter.Submit: a report carries the fields exec reads; echo fields and time stamps are left out.
- ExecContextModule.ExecContext.PollReports: polls without a strategy's callback; with one, a poll is a sequence of single polls and requests of a session, and a callback's view of a report is the value handed to it, not the ring slot it is read from.
- ExecContextModule.ExecContext.Session: the control flags and the feed ring's part of the hot loop are arguments of the actions.
- Per-reason reject counters, tick-to-order histograms and published snapshots: each is a copy or a count beside the modelled state.
- Market view analytics (mid, microprice, imbalance, volatility): floating point over one frame.
- ITCH parsing, configuration, latency statistics, dashboard, module loading, shared memory and signals: input and output, or easy single-function claims.
- Other venues' routers: their reports enter only as the engine's report steps, under the preconditions above.
