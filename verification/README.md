# Verification of the trading engine

A Dafny model of the engine's order book, its two lock-free rings, its latency histogram
and its whole strategy-to-fill pipeline, with proofs about every run and every
interleaving. `dafny verify dfyconfig.toml` checks it.

## What is modelled

- **Order book** (`BookSpec`, `BookProperties`, `BookIndex`, `BoundedBook`, `Words`).
  `BoundedBook` is a class over the source's arrays, 64-bit bitmaps, summary words and
  cached best indices, updated in place. `BookIndex` states what the two-level bitmap
  means, `BookSpec` reads the ladder as a tick-to-quantity map per side, and
  `BookProperties` relates runs of operations to a plain map. Machine words are numbers
  below 2^64 with digit-wise AND, OR and complement, shifts and zero counts defined on
  their digits (`Words`).
- **Rings** (`SpscQueue`, `LoggerRing`, `LoggerProgress`). Every atomic load, store or compare-and-swap and
  every slot access is a step of its own; locals may be stale; a weak compare-and-swap may
  fail spuriously. A run is any list of steps of any threads. The counters of both rings
  wrap modulo 2^64 and are related to unbounded counts.
- **Histogram** (`HdrHistogram`). Cell arithmetic on 64-bit values, and a class whose
  percentile loop is proved against the true rank statistic of everything recorded.
- **Trading** (`OrderSizer`, `ExecutionEngine`, `PnlTracker`, `RiskManager`,
  `CircuitBreaker`, `ImbalanceStrategy`). Each loop is a method proved against a function,
  each object with state a class.
- **Pipeline** (`Feed`, `Pipeline`, `Intake`, `Threads`, `Runtime`). `Pipeline` is the
  strategy thread as a state machine over events and observed reconnects; the theorems
  across modules are about its runs. `Runtime` wires the classes together and is proved to
  take the same steps in place, `StrategyLoop` over whole runs. `Intake` is the network
  thread's message handler, `Threads` interleaves the two threads around the queue and the
  invalidation flag, `Feed` says what snapshots and l2updates do to the book.

## Assumptions

- Quantities, prices and money are exact reals; `llround` is rounding half away from zero;
  the thresholds of 1e-12 are the literal ones.
- The configuration passed the checks of `src/main.cpp:78-96`.
- In the pipeline every listed level with a positive quantity has a positive tick price.
- Sequential consistency: acquire and release orders are abstracted to the order of steps.
- Clocks are inputs: every event is processed at an arbitrary time.
- The book's capacity is any multiple of 64 from 64 to 4096, which includes every power of
  two the source admits. The ring of the queue is any power of two from 2 to 2^63.

## Where the code does less than one might expect

For each of these a lemma gives the exact condition, and most have a concrete run beside it.

- A recentre with touches exactly Capacity - 1 ticks apart drops one of them
  (`RecenterKeepsTouches`; `WidestSpreadDropsTheAsk`).
- A dropped log record does not mean the ring was full: a stale head read does the same
  (`DropsWhenFullOrStale`; `DropWithEmptyRing`).
- The logger's 64-bit positions wrap. The drainer does not print across a multiple of 2^64
  (`DrainerPrintsIff`), and a compare-and-swap on a head loaded 2^64 claims earlier succeeds
  whether or not there is room (`CasKeepsIffRoom`); fewer than 2^64 records rule both out
  (`FewClaimsAreTimely`).
- A flat tracker need not have a zero average entry: a flip that leaves dust records the
  fill price (`FlatEntryIffNoDustFlip`; `FlatWithEntry`). In the pipeline no flip happens.
- A snapshot sent after a reconnect can be processed before the invalidation is observed and
  then be invalidated, so the book may stay unsynced (`SyncedIffSnapshotSeen`,
  `NextCheckInvalidatesIff`, `SnapshotLostIffEarly`; `SnapshotCanBeLost`).

## Model

| member | source | states |
|---|---|---|
| `BookProperties.ReportedLevelsAreCurrent` | include/trading/md/bounded_book.hpp:30-87 | After any sequence of clears, seeds and updates, with any number of recentres and ignored updates, each level the book reports is in the plain tick-to-quantity map of that sequence with the same quantity |
| `BookProperties.BandedBookIsTheMap` | include/trading/md/bounded_book.hpp:50-87 | If every updated tick lies in slots Capacity/8 up to Capacity - Capacity/8 around its anchor, the book equals the plain map, keeps its window and never rebases |
| `BookProperties.UpdateShows` | include/trading/md/bounded_book.hpp:50-87 | One update either misses the window and changes nothing, or shows only levels of the updated map |
| `BookProperties.LevelsOfUpdate` | include/trading/md/bounded_book.hpp:50-87 | In the window an update is put-or-erase on one side's map followed by restriction to the new window; outside it is nothing |
| `BookProperties.CentralUpdate` | include/trading/md/bounded_book.hpp:50-87 | An update at a central slot of a central book is put-or-erase on the map and moves no window |
| `BookProperties.TopIsBest` | include/trading/md/bounded_book.hpp:89-101 | The reported touch is the best live level by price, and there is none exactly when the side's map is empty |
| `BookProperties.LadderSpec` | include/trading/md/bounded_book.hpp:103-123 | The walk lists exactly the live levels, strictly best first |
| `BookProperties.DepthSpec` | include/trading/md/bounded_book.hpp:103-123 | depth(n) has at most n levels, best first, all live; fewer than n only when all are listed; every level left out is worse than every level returned |
| `BookProperties.LadderHead` | include/trading/md/bounded_book.hpp:89-123 | The first level of the walk is the touch |
| `BookSpec.LevelsOfSetSlot` | include/trading/md/bounded_book.hpp:66-84 | Writing the slot of a tick puts or removes exactly that tick and leaves the other side alone |
| `BookSpec.LevelsOfRebase` | include/trading/md/bounded_book.hpp:176-192 | A rebase restricts the map of either side to the new window: prices and quantities of what stays are unchanged |
| `BookSpec.LevelsOfRecenter` | include/trading/md/bounded_book.hpp:157-174 | A recentre restricts both maps to the window it moves to and changes nothing else |
| `BookProperties.RecenterKeepsTouches` | include/trading/md/bounded_book.hpp:157-174 | The touches survive a recentre with price and quantity if and only if they are fewer than Capacity - 1 ticks apart |
| `BookProperties.RecenterIsIdempotent` | include/trading/md/bounded_book.hpp:157-174 | With such touches a second recentre is a no-op: the window cannot thrash |
| `BookProperties.LandedUpdateCentres` | include/trading/md/bounded_book.hpp:50-87 | After any update that lands in the window, touches at most 3*Capacity/4 - 2 ticks apart sit in slots Capacity/8 up to Capacity - Capacity/8, at the prices and quantities the update gave them |
| `BookProperties.RecenterCentres` | include/trading/md/bounded_book.hpp:157-174 | A recentre leaves such touches in those slots, with price and quantity |
| `BookProperties.RebasesCountMoves` | include/trading/md/bounded_book.hpp:172-191 | The rebase count grows by one exactly when a recentre moves the window |
| `BookProperties.WidestSpreadDropsTheAsk` | include/trading/md/bounded_book.hpp:162-173 | Concrete book with touches in the first and last slot: the recentre drops the ask |
| `BookIndex.SetKeepsIndex` | include/trading/md/bounded_book.hpp:130-133 | Setting a slot's bit and its summary bit while writing a positive quantity keeps: bitmap bit iff positive slot, summary bit iff non-zero word |
| `BookIndex.ClearKeepsIndex` | include/trading/md/bounded_book.hpp:135-139 | Clearing the bit, and the summary bit only when the word becomes zero, keeps the same relation for a dead quantity |
| `BookIndex.HighestSetIsHighestLive` | include/trading/md/bounded_book.hpp:141-146 | Two leading-zero counts find the last slot with a positive quantity, or -1 |
| `BookIndex.LowestSetIsLowestLive` | include/trading/md/bounded_book.hpp:148-153 | Two trailing-zero counts find the first slot with a positive quantity, or Capacity |
| `BoundedBook.BoundedBook.constructor` | include/trading/md/bounded_book.hpp:208-218 | A new book is valid and empty |
| `BoundedBook.BoundedBook.Clear` | include/trading/md/bounded_book.hpp:30-40 | Empties both ladders and forgets the anchor, keeping reference tick and rebase count |
| `BoundedBook.BoundedBook.SeedReference` | include/trading/md/bounded_book.hpp:44-48 | Anchors an unanchored book, leaves any other alone |
| `BoundedBook.BoundedBook.Update` | include/trading/md/bounded_book.hpp:50-87 | Arrays, bitmaps, summaries and cached bests are updated in place as the value-level update, index relation and bests kept |
| `BoundedBook.BoundedBook.UpdateBid` | include/trading/md/bounded_book.hpp:66-74 | Slot write on the bid side with bit operations and incremental best: the slots change in one place and the cached best is again the highest live bid |
| `BoundedBook.BoundedBook.UpdateAsk` | include/trading/md/bounded_book.hpp:75-84 | The same on the ask side with the lowest live ask |
| `BoundedBook.BoundedBook.TopOfBook` | include/trading/md/bounded_book.hpp:89-101 | Returns the best entry of the side's map, through the cached best |
| `BoundedBook.BoundedBook.Depth` | include/trading/md/bounded_book.hpp:103-123 | Fills the buffer with exactly the first n live levels, best first, and leaves the rest of the buffer as it was |
| `BoundedBook.BoundedBook.RecenterIfNearEdge` | include/trading/md/bounded_book.hpp:157-174 | The in-place recentre is the value-level one |
| `BoundedBook.BoundedBook.Rebase` | include/trading/md/bounded_book.hpp:176-192 | Shifting every slot and rebuilding the index gives the shifted ladders with a valid index |
| `BoundedBook.BoundedBook.RebuildIndex` | include/trading/md/bounded_book.hpp:195-206 | From any bitmap contents, the scan restores index and bests of the slots |
| `BoundedBook.Replay` | tests/test_bounded_book.cpp:155-191 | The fuzz comparison for every operation sequence on the real arrays: reported levels are the map's, and equal to it while all ticks stay central |
| `BoundedBook.WalkDown` | include/trading/md/bounded_book.hpp:105-112 | The descending loop from the cached best bid yields the first n live bids |
| `BoundedBook.WalkUp` | include/trading/md/bounded_book.hpp:113-121 | The ascending loop from the cached best ask yields the first n live asks |
| `BoundedBook.ScanBoth` | include/trading/md/bounded_book.hpp:195-206 | The scan over cleared bitmaps sets exactly the bits of live slots on both sides |
| `BoundedBook.ShiftedCopies` | include/trading/md/bounded_book.hpp:176-186 | The copy loop yields both ladders shifted, zero where the source slot is outside |
| `Words.Clz` | include/trading/md/bounded_book.hpp:141-146 | Number of zero digits above the highest set digit of a 64-bit word |
| `Words.Ctz` | include/trading/md/bounded_book.hpp:148-153 | Position of the lowest set digit |
| `Words.WithBit` | include/trading/md/bounded_book.hpp:130-133 | OR with a shifted one sets exactly one digit |
| `Words.WithoutBit` | include/trading/md/bounded_book.hpp:135-139 | AND with the complement of a shifted one clears exactly one digit |
| `Words.MaskIsMod` | include/trading/util/spsc_queue.hpp:30 | AND with 2^k - 1 is the remainder modulo 2^k |
| `SpscQueue.QueueIsSafe` | include/trading/util/spsc_queue.hpp:24-60 | In every interleaving, with 64-bit wrapping counters: popped is a prefix of pushed, the ring holds the remainder and never more than Capacity, the slot written is never the slot read, no pop meets a torn slot, size() never exceeds Capacity |
| `SpscQueue.RunKeeps` | include/trading/util/spsc_queue.hpp:24-60 | The inductive invariant holds after every list of atomic steps |
| `SpscQueue.StepIsFifo` | include/trading/util/spsc_queue.hpp:24-60 | Refinement: every step leaves the abstract queue alone, appends the pushed value at its end, or takes its first value |
| `SpscQueue.RefusedIffFull` | include/trading/util/spsc_queue.hpp:25-29 | A push is refused exactly when its load of tail meets a full queue |
| `SpscQueue.NothingIffEmpty` | include/trading/util/spsc_queue.hpp:47-51 | A pop finds nothing exactly when its load of head meets an empty queue |
| `SpscQueue.PopDelivers` | include/trading/util/spsc_queue.hpp:46-55 | With any producer steps in between, a pop whose load of head meets a non-empty queue takes the first value within its next three steps; one that meets an empty queue ends with its next step and takes nothing |
| `SpscQueue.PushDelivers` | include/trading/util/spsc_queue.hpp:24-33 | With any consumer steps in between, a push whose load of tail meets a queue with room appends its value within its next three steps; one that meets a full queue ends with its next step and appends nothing |
| `SpscQueue.LonePop` | include/trading/util/spsc_queue.hpp:46-55 | A whole pop alone takes the first value when there is one, nothing otherwise |
| `SpscQueue.LonePush` | include/trading/util/spsc_queue.hpp:24-33 | A whole push alone appends its value exactly when there is room |
| `SpscQueue.SizeSeen` | include/trading/util/spsc_queue.hpp:57-60 | size() on the producer thread never underflows: exact at its second load when head is read first, otherwise between the true size and Capacity |
| `SpscQueue.WrappedIndex` | include/trading/util/spsc_queue.hpp:30 | Masking a counter taken modulo 2^64 gives the slot of the unbounded count |
| `SpscQueue.WrappedSub` | include/trading/util/spsc_queue.hpp:27 | The wrapped difference of two counters is the true one while that fits a word |
| `LoggerRing.LoggerIsSafe` | src/core/logger.cpp:34-90 | In every interleaving of any number of producers with the drainer, on 64-bit counters that wrap, as long as no compare-and-swap compares a head loaded 2^64 or more claims ago: no two producers own one slot, the slot printed is nobody's and holds the record of that very position, output is the claimed records in claim order without loss, doubling or tearing, every call is a claim, a drop or still undecided |
| `LoggerRing.RunKeeps` | src/core/logger.cpp:34-90 | The inductive invariant holds after every such list of atomic steps, wrapped stamps and counters included |
| `LoggerRing.FewClaimsAreTimely` | src/core/logger.cpp:35-43 | Fewer than 2^64 records in all rule out such a compare-and-swap |
| `LoggerRing.CasKeepsIffRoom` | src/core/logger.cpp:41-43 | A compare-and-swap that succeeds keeps the invariant if and only if the ring has room at that moment |
| `LoggerRing.ExitPrintsAllSeen` | src/core/logger.cpp:55-63 | When the drainer exits, stop was called and exactly the positions claimed before its last load of head are printed |
| `LoggerRing.DrainerPrintsIff` | src/core/logger.cpp:66-68 | At a claimed position the drainer prints if and only if its record is stamped and no multiple of 2^64 lies between that position and the head it loaded; an unstamped one has an owner who has yet to stamp it |
| `LoggerRing.DropsWhenFullOrStale` | src/core/logger.cpp:35-40 | A call drops if and only if the ring is full at its load of tail or the head it read is behind tail by a distance that modulo 2^64 is neither zero nor above 2^64 - 4096 (the unsigned difference wraps) |
| `LoggerProgress.LoneLog` | src/core/logger.cpp:34-52 | A whole call alone: with room its record is claimed at the head, written whole and stamped; on a full ring it is one drop and nothing is claimed |
| `LoggerProgress.RetryDecides` | src/core/logger.cpp:36-44 | After a compare-and-swap lost to other claims the call decides on the head there is now: it claims with room, drops when full |
| `LoggerProgress.HeadIsNoOlderThanTheCall` | src/core/logger.cpp:35-43 | In every interleaving the head a call goes by is at least the number of positions claimed when the call began |
| `LoggerProgress.DrainerTakesNext` | src/core/logger.cpp:55-85 | From the top of its loop the drainer prints the next stamped record within five steps of its own |
| `LoggerProgress.ExitsIffStopped` | src/core/logger.cpp:59-60 | A drainer with nothing pending exits at its next step exactly when stop has been called |
| `LoggerProgress.DropWithEmptyRing` | src/core/logger.cpp:35-40 | Concrete run in which a record is dropped although everything claimed has been printed and the ring is free |
| `LoggerRing.ClaimKeeps` | src/core/logger.cpp:41-43 | A successful compare-and-swap takes a position whose slot is free and whose stamp is from an earlier lap |
| `LoggerRing.SlotWriteKeeps` | src/core/logger.cpp:45-50 | Writing an owned slot disturbs no other owner and no record still to be printed |
| `LoggerRing.StampKeeps` | src/core/logger.cpp:51 | The ready stamp publishes a whole record and keeps the invariant |
| `LoggerRing.PrintKeeps` | src/core/logger.cpp:66-84 | Printing takes the next claimed record whole |
| `HdrHistogram.PercentileError` | include/trading/util/hdr_histogram.hpp:45-60 | For any recorded values, percentileNs misses the value x at the percentile by at most x/64 and never exceeds the maximum; x is given by counts alone: one more than the values below it is within pct percent of them, one more than the values up to it is beyond, or it is the smallest when pct percent is less than one value |
| `HdrHistogram.PercentileMono` | include/trading/util/hdr_histogram.hpp:45-60 | percentileNs is monotone in the percentile |
| `HdrHistogram.TargetIsShare` | include/trading/util/hdr_histogram.hpp:48-49 | The target is the whole number of values the percentage makes, and 1 when it makes none |
| `HdrHistogram.AtPercentileIsRank` | include/trading/util/hdr_histogram.hpp:48-55 | The value singled out by those counts is the one of the target rank |
| `HdrHistogram.PercentileExists` | include/trading/util/hdr_histogram.hpp:48-55 | Such a value exists for every percentile and any recorded values |
| `HdrHistogram.CellOfRank` | include/trading/util/hdr_histogram.hpp:53-58 | The first cell whose running total reaches the target is the cell of the target-rank value, so only populated cells are decoded |
| `HdrHistogram.IndexMono` | include/trading/util/hdr_histogram.hpp:70-77 | indexFor is monotone |
| `HdrHistogram.NeverClamped` | include/trading/util/hdr_histogram.hpp:70-77 | The clamp to the last cell is never taken |
| `HdrHistogram.ExponentAtLeast` | include/trading/util/hdr_histogram.hpp:72-74 | From 32 up the octave is non-negative and the shifted value lies in 32..63 |
| `HdrHistogram.DecodeError` | include/trading/util/hdr_histogram.hpp:70-87 | valueAt inverts indexFor to within v/64, exactly below 32 |
| `HdrHistogram.DecodeFits` | include/trading/util/hdr_histogram.hpp:79-87 | Decoding the cell of any int64 value stays an int64 |
| `HdrHistogram.ValueAtMono` | include/trading/util/hdr_histogram.hpp:79-87 | valueAt is monotone |
| `HdrHistogram.Rank` | include/trading/util/hdr_histogram.hpp:48-53 | The k-th smallest recorded value exists for every k up to the count |
| `HdrHistogram.HdrHistogram.RecordNs` | include/trading/util/hdr_histogram.hpp:23-32 | Recording adds one value, negative ones as zero; counts, total, wrapped sum and maximum describe the recorded values again |
| `HdrHistogram.HdrHistogram.PercentileNs` | include/trading/util/hdr_histogram.hpp:45-60 | The loop returns the decoded, capped cell of the target rank of everything recorded, hence the value at the percentile to within one part in 64 |
| `HdrHistogram.HdrHistogram.ValueOfRank` | include/trading/util/hdr_histogram.hpp:51-59 | The accumulating scan stops at the cell of the target-rank value, or returns the maximum when the rank is beyond the count |
| `Types.TickRoundTrip` | include/trading/core/types.hpp:21-31 | fromDouble(toDouble(t)) == t for every tick |
| `Types.LlroundNearest` | include/trading/core/types.hpp:21-25 | Rounding is to a nearest integer, a half going away from zero |
| `Types.FromDoubleNearest` | include/trading/core/types.hpp:21-31 | A price on the tick grid is within half a tick of the price |
| `Types.FromDoubleBetween` | include/trading/core/types.hpp:21-31 | A price between two tick multiples rounds to a tick between them |
| `OrderSizer.SizedOrder` | include/trading/strategy/order_sizer.hpp:21-47 | A sized order is positive and at most the target, its limit is the worst level touched, the touched levels hold it and one fewer would not |
| `OrderSizer.SizingSucceeds` | include/trading/strategy/order_sizer.hpp:23-41 | On live levels there is an order exactly when the target is positive and the side is not empty |
| `OrderSizer.ComputeOrderOn` | include/trading/strategy/order_sizer.hpp:21-47 | The source's walk over the depth buffer computes that order |
| `OrderSizer.WalkLevels` | include/trading/strategy/order_sizer.hpp:30-46 | The loop with its two early exits computes limit and size of that order, double prices included |
| `ExecutionEngine.SizedOrderFills` | include/trading/exec/execution_engine.hpp:17-52 | An order sized on a book and simulated on the same book fills to within 1e-12 of its size |
| `ExecutionEngine.FillBounds` | include/trading/exec/execution_engine.hpp:17-52 | Any fill is no larger than the order and its tick-rounded average price lies between the opposing touch and the limit |
| `ExecutionEngine.SimulateOrder` | include/trading/exec/execution_engine.hpp:17-52 | The simulation over the real book is the sweep of the specification |
| `ExecutionEngine.FillWalk` | include/trading/exec/execution_engine.hpp:29-51 | The loop in double prices, with its dust exit and average price, reports what the tick-level sweep takes |
| `ExecutionEngine.FillsAllItCan` | include/trading/exec/execution_engine.hpp:34-46 | Any order takes all the matching quantity in sight, or its own size, to within 1e-12, and never more than is there |
| `ExecutionEngine.SweepIsLevelByLevel` | include/trading/exec/execution_engine.hpp:34-46 | The sweep takes from each matching level what the levels before it left, as far as the level goes, and stops at dust |
| `ExecutionEngine.FillIsAveragePrice` | include/trading/exec/execution_engine.hpp:34-51 | The fill is the sum of those takes, and its price times its size is within half a tick times the size of the sum of take times level price |
| `PnlTracker.FillConserves` | include/trading/strategy/pnl_tracker.hpp:27-53 | One fill of any sign and size moves cash + position*avg_entry - realized by nothing, unless the position snaps to zero, and then by at most 1e-12 times the larger of price and prior entry |
| `PnlTracker.RunConserves` | include/trading/strategy/pnl_tracker.hpp:27-53 | Over any fills, adds, partial closes and flips included, that total stays the seeded cash up to the snaps |
| `PnlTracker.NoSnapsBalanceExactly` | include/trading/strategy/pnl_tracker.hpp:27-53 | Without snaps it stays exactly the seeded cash |
| `PnlTracker.AddsAtCost` | include/trading/strategy/pnl_tracker.hpp:37-41 | Adding to a position realizes nothing, and entry times size is what the position cost |
| `PnlTracker.ClosesAtProfit` | include/trading/strategy/pnl_tracker.hpp:41-51 | Trading against a position realizes the price difference on exactly what is closed; the rest keeps its entry, what goes beyond is entered at the trade price |
| `PnlTracker.EquityIsSeedPlusProfit` | include/trading/strategy/pnl_tracker.hpp:27-59 | Equity at any mark is seed plus realized plus unrealized profit, up to the snaps |
| `PnlTracker.FlatWithEntry` | include/trading/strategy/pnl_tracker.hpp:45-52 | Concrete flip that leaves a flat position with a non-zero average entry |
| `PnlTracker.FlatEntryIffNoDustFlip` | include/trading/strategy/pnl_tracker.hpp:45-52 | After a fill that leaves it flat, the tracker's entry is zero if and only if the fill did not flip the position |
| `PnlTracker.PnlTracker.OnFill` | include/trading/strategy/pnl_tracker.hpp:27-53 | Updates one symbol's state in place, ignores non-fills and unknown symbols |
| `PnlTracker.PnlTracker.SeedCash` | include/trading/strategy/pnl_tracker.hpp:21-23 | Sets one symbol's cash and nothing else |
| `PnlTracker.ApplyTrade` | include/trading/strategy/pnl_tracker.hpp:32-52 | The branching arithmetic of onFill computes the specified next state |
| `RiskManager.ApprovedFillStaysWithin` | include/trading/exec/risk_manager.hpp:24-41 | A fill no larger than an approved order, between the opposing touch and its limit, keeps the size of the position <= max_position and cash >= 0 |
| `RiskManager.ApprovesIffFillStaysWithin` | include/trading/exec/risk_manager.hpp:24-34 | From an account within its limits an order is approved if and only if a full fill at its limit would stay within them: no needless refusal |
| `RiskManager.RiskManager.Approve` | include/trading/exec/risk_manager.hpp:24-34 | Approves exactly when the projected position is within the limit and, with the cash check on, a buy is affordable at its limit; never an unknown symbol |
| `RiskManager.RiskManager.OnFill` | include/trading/exec/risk_manager.hpp:36-41 | Books a fill on one symbol and leaves every other account alone |
| `RiskManager.RiskManager.Configure` | include/trading/exec/risk_manager.hpp:13-22 | Sets limit and cash of one symbol; a negative cash leaves the cash check as it was |
| `CircuitBreaker.TripEnds` | include/trading/exec/circuit_breaker.hpp:13-31 | A trip at message n with window W ends at message n + 2W - (n mod W), more than W and at most 2W messages later, with every order blocked and nothing counted in between |
| `CircuitBreaker.TripsIffWindowFills` | include/trading/exec/circuit_breaker.hpp:13-29 | It trips exactly on the rejection that brings one window to the threshold |
| `CircuitBreaker.NeverTripsAboveWindow` | include/trading/exec/circuit_breaker.hpp:13-29 | It never trips when the threshold exceeds the window |
| `CircuitBreaker.ErrorsAreCounted` | include/trading/exec/circuit_breaker.hpp:13-29 | The error counter is the number of rejections counted in the current window |
| `CircuitBreaker.StaysTripped` | include/trading/exec/circuit_breaker.hpp:13-29 | While tripped the errors stand until the first window boundary after the trip and are zero from there on |
| `CircuitBreaker.CircuitBreaker.OnMessage` | include/trading/exec/circuit_breaker.hpp:13-22 | In-place message count and boundary rule |
| `CircuitBreaker.CircuitBreaker.OnError` | include/trading/exec/circuit_breaker.hpp:24-29 | In-place error count and trip rule |
| `ImbalanceStrategy.RingHoldsRun` | src/strategy/imbalance_strategy.cpp:48-50 | Across wraps and resets the ring holds exactly the last min(window, k) samples since the reset, head and count in range |
| `ImbalanceStrategy.MeanOfLast` | src/strategy/imbalance_strategy.cpp:48-54 | The smoothed signal is the mean of exactly those samples |
| `ImbalanceStrategy.SmoothedSignal` | src/strategy/imbalance_strategy.cpp:46-54 | On every run of samples and resets it is that mean and lies in [-1, 1] |
| `ImbalanceStrategy.ImbalanceInUnit` | src/strategy/imbalance_strategy.cpp:30-46 | A two-sided uncrossed book always has size, and its imbalance lies in [-1, 1] |
| `ImbalanceStrategy.ImbalanceIsBidHeavy` | src/strategy/imbalance_strategy.cpp:39-46 | The imbalance is 1 less twice the share of the asks in the size shown: positive exactly when the best bids hold more, negative exactly when the best asks do |
| `ImbalanceStrategy.SampledWhenUncrossed` | src/strategy/imbalance_strategy.cpp:30-45 | An update is sampled exactly when both sides have a level and every bid is below every ask |
| `ImbalanceStrategy.SignalPurpose` | src/strategy/imbalance_strategy.cpp:61-94 | Every order either closes the whole held position or comes from a flat one, and never follows a reconnect without a skipped update |
| `ImbalanceStrategy.ExitsOnProfitOrLoss` | src/strategy/imbalance_strategy.cpp:65-78 | While holding, the whole position is closed exactly when its unrealized profit at the touch it would trade against reaches the take-profit or stop-loss fraction of its cost |
| `ImbalanceStrategy.OpensWithTheImbalance` | src/strategy/imbalance_strategy.cpp:80-94 | While flat an order is wanted on a side if and only if the smoothed imbalance leans to it beyond the threshold (shorts only when allowed), the cooldown has passed, the spread is within its limit and there is cash; it spends the trade fraction at the mid |
| `ImbalanceStrategy.FlatSendsIffOpens` | src/strategy/imbalance_strategy.cpp:25-95 | A flat strategy sends an order of a side if and only if the update brings a sample, no reconnect is pending and those conditions hold: the book can always size it |
| `ImbalanceStrategy.Clamped` | src/strategy/imbalance_strategy.cpp:7-12 | Sizes out of range are pulled into range, others kept |
| `ImbalanceStrategy.ClampedIsNearest` | src/strategy/imbalance_strategy.cpp:7-12 | No size in range is nearer to what was asked for than the one kept |
| `ImbalanceStrategy.ImbalanceStrategy.constructor` | src/strategy/imbalance_strategy.cpp:7-12 | Out-of-range window and depth are clamped; ring empty, tracker seeded |
| `ImbalanceStrategy.ImbalanceStrategy.OnMarketUpdate` | src/strategy/imbalance_strategy.cpp:25-102 | The in-place update, decision, sizing and emit are the specified step, the book untouched |
| `ImbalanceStrategy.ImbalanceStrategy.Smooth` | src/strategy/imbalance_strategy.cpp:48-54 | Writes one ring slot, advances head and count, returns the mean of the occupied slots |
| `ImbalanceStrategy.ImbalanceStrategy.ReadBook` | src/strategy/imbalance_strategy.cpp:26-46 | Finds touches and imbalance through depth buffers exactly when both sides are live, uncrossed and have size |
| `ImbalanceStrategy.ImbalanceStrategy.Choose` | src/strategy/imbalance_strategy.cpp:61-94 | Exits while holding, entries while flat, branch by branch |
| `ImbalanceStrategy.ImbalanceStrategy.OnFill` | src/strategy/imbalance_strategy.cpp:14-16 | Passes the fill to the tracker with the tick size |
| `ImbalanceStrategy.ImbalanceStrategy.Reconnected` | src/strategy/imbalance_strategy.cpp:18-22 | Resets the ring and arms the skipped signal |
| `Feed.SnapshotRebuilds` | src/core/runtime.cpp:146-170 | A snapshot listed best first, uncrossed and at most 3*Capacity/4 - 2 ticks wide rebuilds the book without a rebase into exactly its map restricted to the window at the mid |
| `Feed.MidCentersTouches` | src/core/runtime.cpp:159-161 | At that spread both best levels fall on central slots of the window at the mid |
| `Feed.UpdateBehindTouch` | src/core/runtime.cpp:162-167 | A level no better than a central touch of its side moves no window and no touch |
| `Feed.BestListedIsFirst` | src/core/runtime.cpp:149-158 | The scans find the first listed level |
| `Feed.BestListedIsBest` | src/core/runtime.cpp:149-158 | The scan of any list finds the best live tick listed, and nothing exactly when nothing is live |
| `Feed.MidIsBetween` | src/core/runtime.cpp:160 | The mid lies as far from the bid as from the ask, or one tick closer to the bid |
| `Feed.ChunksAreInvisible` | src/core/runtime.cpp:79-98 | Applying any chunks one after the other is applying their concatenation |
| `Feed.ChangesInTwo` | src/core/runtime.cpp:176-181 | Changes fold in order: a list applied in two parts is the whole list applied |
| `Feed.ChangeOnMaps` | src/core/runtime.cpp:176-181 | One change puts its quantity at its rounded tick on its own side and restricts both sides to the window; outside the window it is nothing |
| `Feed.MessageShows` | src/core/runtime.cpp:176-181 | After any list of changes each level shown is in the plain fold of the changes over the levels before, side by side, with the same quantity |
| `Feed.MessageFolds` | src/core/runtime.cpp:176-181 | While the ticks stay central the book after the changes is that fold, on both sides, with no rebase |
| `Feed.Chunks` | src/core/runtime.cpp:83-97 | max(1, ceil(total/128)) chunks, at most 128 long and all but the last full |
| `Feed.ChunkCountIs` | src/core/runtime.cpp:83-97 | As many chunks of 128 as the changes need, and one when there are none |
| `Feed.ConcatChunks` | src/core/runtime.cpp:83-97 | The chunks joined are the message |
| `Intake.WholeMessage` | src/core/runtime.cpp:79-119 | In every interleaving, an l2update of any length: with no refused push and no reconnect observed from a snapshot before it to its last event, each level shown after its events is in the plain fold of the message over the levels before them, and the book is that fold while the ticks stay central |
| `Intake.SnapshotMessage` | src/core/runtime.cpp:63-78 | In every interleaving, a snapshot message not lost to a full queue: once its event is processed the book is synced and shows the first 64 levels a side, if well listed, restricted to the window at the mid |
| `Intake.ListingSays` | src/core/runtime.cpp:65-74 | Each of the first 64 quotes keeps its own quantity, at the tick its price is nearest to |
| `Intake.SentOrCounted` | src/core/runtime.cpp:95-117 | Every event of a message is pushed in order or counted as one drop; no drop exactly when all were pushed |
| `Intake.SnapshotLostIff` | src/core/runtime.cpp:108-117 | A snapshot is lost exactly when 201 pushes in a row are refused |
| `Intake.Network.OnMessage` | src/core/runtime.cpp:55-119 | The switch, the chunk loop, the retries and the counters do what the specification says, for every answer of the queue |
| `Intake.Network.OfferChunks` | src/core/runtime.cpp:79-98 | The chunk loop offers every event but the last, which it leaves for the push after the switch |
| `Intake.Network.OfferLast` | src/core/runtime.cpp:107-117 | One push, and for a snapshot up to 200 more |
| `Intake.Network.CopyListing` | src/core/runtime.cpp:65-74 | The copy loops take the first 64 levels onto the tick grid |
| `Pipeline.LimitsHold` | include/trading/exec/risk_manager.hpp:24-41 | Over every run the size of the position <= max_position and cash >= 0 in the risk ledger |
| `Pipeline.OrdersAreAccountedFor` | src/core/runtime.cpp:207-244 | Over every run fills == ordersApproved, no partial fills, ordersSent == circuitBlocked + ordersRejected + ordersApproved |
| `Pipeline.ApprovedOrdersFill` | src/core/runtime.cpp:228-243 | Every approved order fills to within 1e-12, at a positive price, never past flat, and stays within the limits |
| `Pipeline.OnePositionAtATime` | src/strategy/imbalance_strategy.cpp:61-94 | In every run a position opens only from flat, each later fill strictly shrinks it without crossing zero, the tracker's flip branch is never taken |
| `Pipeline.EntryIsOpeningPrice` | src/strategy/imbalance_strategy.cpp:65-78 | While a position is held avg_entry is the price of the fill that opened it, and positive, so the bps divisions are defined |
| `Pipeline.GoodFillOneWay` | include/trading/strategy/pnl_tracker.hpp:27-53 | A fill that does not overshoot opens from flat at its own price or shrinks the position keeping its entry |
| `Pipeline.LedgersAgree` | src/core/runtime.cpp:237-243 | Over every run risk cash equals tracker cash exactly and the positions differ by at most 1e-12 per snap so far |
| `Pipeline.RunEquity` | src/core/runtime.cpp:237-243 | Over every run equity at any mark is initial cash plus realized plus unrealized profit, up to the snaps |
| `Pipeline.BreakerRuns` | src/core/runtime.cpp:141-142 | Over every run the breaker is what the rejections of that run make of it |
| `Pipeline.TripHaltsOrders` | src/core/runtime.cpp:218-228 | Between a trip and its end no order is rejected, approved or filled and no ledger moves |
| `Pipeline.OrdersAreDecided` | src/core/runtime.cpp:207-243 | In every run an order is halted exactly when the rejections of the run have the breaker tripped at its message, otherwise approved exactly when a full fill at its limit would keep the account within its limits, otherwise rejected; an approved one is simulated on the book of its event |
| `Pipeline.EarlyUpdatesAreCounted` | src/core/runtime.cpp:171-175 | In every run preSnapshotDrops counts exactly the l2updates that met an unsynced book |
| `Pipeline.ReadyIffSynced` | src/core/runtime.cpp:126-135 | In every run the book is ready exactly when a snapshot followed the start or last observed reconnect |
| `Pipeline.OnlySyncedBooksTrade` | src/core/runtime.cpp:171-175 | On an unsynced book no event changes the book, moves the strategy or raises an order |
| `Pipeline.RunSmoothing` | src/strategy/imbalance_strategy.cpp:46-54 | On every run the smoothed signal is the mean of the last min(window, k) imbalances since the last reconnect, in [-1, 1] |
| `Pipeline.RingRuns` | src/strategy/imbalance_strategy.cpp:46-50 | Over every run the ring is what the sampled imbalances and observed reconnects make of it, every sample in [-1, 1] |
| `Pipeline.NoShortsUnlessAllowed` | src/strategy/imbalance_strategy.cpp:91-93 | In every run the tracker's position is never short unless shorts are allowed |
| `Pipeline.OpeningsWaitOutCooldown` | src/strategy/imbalance_strategy.cpp:82-83 | In every run an order that opens a position comes at least the cooldown after the order before it |
| `Pipeline.OpensExactlyWhen` | src/strategy/imbalance_strategy.cpp:80-94 | In every run an event that meets a flat position raises an order on a side if and only if it brings a sample, is not the first since a reconnect, the cooldown since the last order has passed, the spread is within its limit, there is cash, and the mean of the last min(window, k) imbalances leans to that side beyond the threshold |
| `Pipeline.BuysBidHeavyBooks` | src/strategy/imbalance_strategy.cpp:46-94 | In every run with a window of one, an order from flat buys only on a book whose bids show more size than its asks, and sells only on one whose asks show more |
| `Pipeline.MeanOfOne` | src/strategy/imbalance_strategy.cpp:46-54 | With a window of one the smoothed signal of a run is the imbalance of the book it left |
| `Pipeline.ClockRuns` | src/strategy/imbalance_strategy.cpp:97-102 | In every run last_trade_ns is the time of the last order raised |
| `Pipeline.FirstSampleIsSilent` | src/strategy/imbalance_strategy.cpp:56-59 | In every run the first sampled update after an observed reconnect raises no order |
| `Pipeline.SkipRuns` | src/strategy/imbalance_strategy.cpp:18-22 | In every run the skip flag is set exactly when a reconnect was observed and no sample taken since |
| `Pipeline.ChunkedMessage` | src/core/runtime.cpp:79-98 | On a synced book, events carrying the chunks of a message leave the book of their concatenation |
| `Pipeline.InputKeeps` | src/core/runtime.cpp:121-244 | Every event and every observed reconnect keeps the cross-module invariant |
| `Pipeline.Run` | src/core/runtime.cpp:121-244 | After every run the cross-module invariant holds: limits, equal cash in both ledgers, balanced order counters, a positive entry for any held position |
| `Pipeline.StartOk` | src/main.cpp:78-96 | A checked configuration starts a runtime in that invariant |
| `Pipeline.EventsKeepPositive` | src/core/runtime.cpp:144-184 | Events with positive live prices leave a book of positive prices |
| `Threads.EventsInOrder` | src/core/runtime.cpp:121-139 | In every interleaving events are processed in push order, each once, and when the strategy thread exits every pushed event has been processed |
| `Threads.AtMostOneEarly` | src/core/runtime.cpp:121-135 | In every interleaving, for each reconnect at most one event pushed after it is processed by the running loop before its invalidation is observed |
| `Threads.PushQueuedIffRoom` | src/core/runtime.cpp:95-117 | A push is queued at the end exactly when the queue has room, and refused otherwise |
| `Threads.TurnTakesFirst` | src/core/runtime.cpp:123-136 | One turn of the running loop alone observes a pending reconnect and then processes the first event queued |
| `Threads.DrainTakesFirst` | src/core/runtime.cpp:137-138 | The drain processes the first event queued and ends when there is none |
| `Threads.UnsyncedEventsAreIgnored` | src/core/runtime.cpp:121-175 | In every interleaving an event changes nothing and raises no order if no snapshot turn up to it has observed as many reconnects |
| `Threads.SyncedIffSnapshotSeen` | src/core/runtime.cpp:126-138 | In every interleaving the book is synced if and only if some snapshot was processed with as many reconnects observed as are observed now |
| `Threads.NextCheckInvalidatesIff` | src/core/runtime.cpp:126-135 | The flag check after the last snapshot taken unsyncs the book if and only if that snapshot's turn had observed fewer reconnects than there are |
| `Threads.SnapshotLostIffEarly` | src/core/runtime.cpp:126-135 | Once every reconnect is observed, a last snapshot pushed after the last reconnect leaves the book synced if and only if the running loop did not process it before observing that reconnect |
| `Threads.DrainedSnapshotStays` | src/core/runtime.cpp:137-138 | A snapshot processed while draining is never invalidated |
| `Threads.SnapshotCanBeLost` | src/core/runtime.cpp:126-135 | Concrete interleaving in which the snapshot sent after a reconnect is invalidated and the book stays unsynced |
| `Threads.CarriedMessage` | src/core/runtime.cpp:121-138 | Chunks at consecutive queue positions, processed with no reconnect observed since a snapshot before them, leave the book of their concatenation |
| `Threads.HistoryRun` | src/core/runtime.cpp:121-139 | Each processed event is one input in queue order, on a book synced exactly when a snapshot turn before it had observed as many reconnects |
| `Threads.RunKeeps` | src/core/runtime.cpp:121-139 | The invariant of queue, flag and loop holds after every list of steps |
| `Runtime.Runtime.constructor` | src/core/runtime.cpp:13-32 | The wired objects are fresh and start in the pipeline's start state |
| `Runtime.Trade` | src/core/runtime.cpp:13-46 | A runtime started and fed any inputs ends in the state of that run, its own accounts within their limits and its fills equal to its approvals |
| `Runtime.Runtime.StrategyLoop` | src/core/runtime.cpp:121-139 | Over any inputs the objects updated in place end in the state of the pipeline run, so every run theorem holds of them |
| `Runtime.Runtime.ProcessEvent` | src/core/runtime.cpp:141-205 | One event on the wired objects is one step of the pipeline |
| `Runtime.Runtime.UpdateBook` | src/core/runtime.cpp:145-184 | The switch: book, readiness and the pre-snapshot counter, and whether the strategy is reached |
| `Runtime.Runtime.AnswerEvent` | src/core/runtime.cpp:141-196 | Breaker, book and strategy calls in the source's order give the pipeline's answer |
| `Runtime.Runtime.DispatchOrder` | src/core/runtime.cpp:207-244 | Breaker gate, risk check, rejection count and execution, in place |
| `Runtime.Runtime.Execute` | src/core/runtime.cpp:228-243 | The approved order is simulated, counted and booked in both ledgers |
| `Runtime.Runtime.BookFill` | src/core/runtime.cpp:237-243 | The fill goes to both ledgers |
| `Runtime.Runtime.ObserveReconnect` | src/core/runtime.cpp:126-129 | An observed invalidation unsyncs the book and resets the strategy |
| `Runtime.RebuildFrom` | src/core/runtime.cpp:146-170 | The snapshot branch on the real book |
| `Runtime.AnchorBook` | src/core/runtime.cpp:147-161 | Clear, scan both sides for the best live level, seed at the mid when both exist |
| `Runtime.ScanBest` | src/core/runtime.cpp:149-158 | The scan loops find the best live listed tick, or none |
| `Runtime.ApplyAll` | src/core/runtime.cpp:176-181 | The update loop of an l2update on the real book |

## Left out

- Floating point: rounding, overflow and NaN of doubles are not modelled; all arithmetic is exact.
- Weak memory: reorderings beyond the interleaving of steps are not modelled.
- int64 overflow of tick differences in the book (include/trading/md/bounded_book.hpp:56) and of snapshot mids: ticks are mathematical integers.
- LoggerRing.LoggerIsSafe: excludes runs with a compare-and-swap on a head loaded 2^64 or more claims earlier, because such a one can succeed on a full ring (`CasKeepsIffRoom`).
- Counters of messages, errors, metrics and histogram cells are unbounded; the histogram's running sum does wrap.
- Log records are one abstract value each: level, wall time, truncation to MAX_LINE and the printed format are not modelled.
- Histograms are recorded into and read by one thread at a time; relaxed concurrent recording, the mean and the dump are not modelled.
- Threads: pushes and pops of the event queue are single steps there, justified by the step-by-step refinement in `SpscQueue.StepIsFifo`; the 100-microsecond sleeps are not modelled.
- Intake.Network.OnMessage: whether a push finds room is an arbitrary answer per try rather than the state of a queue object; `WholeMessage` and `SnapshotMessage` take the events it pushed where `Threads` has them in its queue.
- Latency histograms inside the runtime, the published marks and the PnL snapshots for the main thread are not modelled.
- RiskManager and PnlTracker are exercised by the pipeline for one symbol with the cash check on, as the runtime configures them; the classes cover the other cases.
- CircuitBreaker::reset, which the runtime never calls.
- Order identifiers only count; creation time, symbol and timestamps of orders and reports are not modelled.
- Websocket, TLS, authentication, JSON parsing, configuration loading, thread pinning and heartbeat printing.
- HdrHistogram.HdrHistogram.PercentileNs: asks for a non-negative percentile, because a negative one is converted to an unsigned integer with no defined result.
