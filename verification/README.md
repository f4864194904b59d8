# Verified model of the paper-trading core

This Dafny project models the integer trading core of a paper-trading engine for
binary prediction markets, and proves what its parts promise each other. Prices,
costs and notionals are integers in thousandths of a dollar; quantities that the
engine keeps in floating point are exact reals.

| file | component |
|---|---|
| `Types.dfy`, `Arith.dfy`, `Masks.dfy` | shared scalars; floored quotients; bit masks and modular indices |
| `Walk.dfy`, `Book.dfy` | the greedy depth walk; the order book, kept in sorted arrays |
| `Economics.dfy`, `Arb.dfy`, `ArbOutcomes.dfy` | fees; the arbitrage sizer and its binary search; its figures in dollars |
| `SimQueue.dfy`, `QueueOutcomes.dfy`, `OrderRuns.dfy`, `QueueLaws.dfy`, `Dominance.dfy` | the queue simulator; what each operation does to an order; invariants of its runs; laws of one resting order; the three queue models against each other under every event |
| `Portfolio.dfy`, `LedgerEntries.dfy`, `PortfolioLaws.dfy` | positions, cash, settlement; what a fill, a mark and a settlement enter; conservation |
| `Broker.dfy`, `DeskTrade.dfy` | simulator and portfolio joined; an opportunity traded through both |
| `Risk.dfy`, `RiskVerdicts.dfy`, `RiskLaws.dfy` | the risk gate; its exact verdict; guarantees over its runs |
| `ArbMgr.dfy`, `ManagerAnswers.dfy`, `ArbMgrLaws.dfy` | the two-leg operation manager; its exact answers; its safety |
| `Ring.dfy` | the lock-free single-producer single-consumer ring, step by step |
| `WinBuf.dfy` | the window buffer and its aggregates |
| `EndToEnd.dfy` | from an estimate, through fills, to settlement |

Components that update fields or arrays in place are classes. Each method is proved
equal to a function of the old state (`State()` before and after), loops included; the
lemmas are about those functions, so they hold of every sequence of calls. The outcome
files say what such a function comes to without its own terms: in prices, sides, sizes,
clocks and fees, by a separate definition for everything it decides or computes.

Where a natural claim is false of the code, the code is kept, an input that breaks the
claim is given, and the condition under which it holds is proved to be exact:

- the binary search misses the best size when a positive fixed fee opens a gap
  (`Arb.FeeGapDefeatsSearch`), or when shares that cost nothing are costed at the stand-in
  price (`Arb.StandInDefeatsSearch`); unless fees pay the taker the price it is right on
  all books, or on all whose asks start at some price, exactly when neither can happen
  there (`Arb.SearchExactness`);
- a raw edge equal to the threshold is refused although a net edge equal to it is
  accepted (`Arb.SomeAreOverlooked`, `Arb.ThresholdEdgeIsMissed`); without such gaps an
  opportunity is reported just when a liquid size clears, except on the books whose least
  reportable size clears with a raw edge not above the threshold (`Arb.EvaluateExactness`):
  with real costs, those where nothing costs anything, the raw edge is the threshold and
  the two best asks fill that size (`Arb.RefusedIsOverlooked`);
- `pt_risk.c` calls the rate window sliding, but it is fixed: under any configuration that
  lets an order pass, a second can hold twice the limit (`RiskLaws.RateBoundIsTight`),
  never more (`RiskLaws.RateIsLimited`); the seconds that start with one of the engine's
  own windows are held to the limit (`RiskLaws.WindowsAreLimited`), and all seconds are
  exactly when the configuration lets no order pass, because it allows no drawdown or cuts
  every order to less than one share (`RiskLaws.SlidingExactness`);
- a fill in flight withdraws a requested cancel (`QueueLaws.CancelCanBeLost`): the
  acknowledging tick cancels exactly the orders that nothing filled meanwhile
  (`QueueLaws.CancelTakesEffect`), which on trades are those whose queue ahead was not
  exceeded by the volume that reached them (`QueueLaws.CancelByVolume`); market and IOC
  orders cannot lose a cancel (`QueueLaws.TakerIsDone`);
- a sweep can pay more than the limit (`QueueLaws.SweepCanPassLimit`). The levels it uses
  stay inside the limit exactly when the depth there covers it
  (`QueueLaws.SweepStaysInside`); the price it reports does exactly when what is paid
  beyond the limit is made up by what is saved inside it and the truncation
  (`QueueLaws.SweepPriceExactness`);
- a snapshot may leave two levels at one price (`OrderBook.RepeatedPriceStays`), exactly
  when it shows one twice (`OrderBook.SnapshotStrictWhen`);
- the queue models can cross, the realistic one filling what the aggressive one does not
  (`QueueLaws.ModelsCanCross`): the aggressive cut is the larger exactly when the reduction
  is in proportion to the queue, or takes all of it, or the old size is not positive
  (`QueueLaws.ModelsCompareAtOneLevel`). They cross on an unbroken feed too, when the level
  shrinks below the order's queue while the order is on its way
  (`QueueLaws.ModelsCanCrossOnFeed`), and on no feed whose level holds that queue when its
  reports start to reach the order (`Dominance.NewOrdersStayAhead`);
- an unbalanced operation is not always hedged in time, and one that only NO has filled
  never is (`ArbMgrLaws.HedgeCanWaitForever`): of an unfinished one a tick asks for the
  hedge exactly when a YES fill has started its clock and the time is up
  (`ArbMgrLaws.TickHedgesWhen`); what a finished one has past its target no tick
  hedges unless a cancel is reported (`ArbMgrLaws.OverfillIsNotHedged`);
- the PnL reported at completion is not always what the fills earn
  (`EndToEnd.OverfillIsLeftOut`): fees added back, it falls short by a dollar for each share
  of the winner past the target, so by nothing exactly when there is none
  (`EndToEnd.CompletionSettles`);
- while the window buffer fills, its aggregate overlooks samples
  (`WinBuf.FillingMissesSample`), in every window that holds all the buffer has
  (`WinBuf.FillingIsWrong`), because adding compares with the newest sample only when it is
  full (`WinBuf.LatestIsNewestWhenFull`); and a late sample taken while it fills can leave it
  full and out of order (`WinBuf.FullCanBeWrong`). A full buffer is right for all windows
  exactly when it is in time order (`WinBuf.FullExactness`), and whatever is added to an
  empty one, in whatever order, it is exactly when nothing was, or it is full and in time
  order (`WinBuf.AggregateExactness`);
- edge breakdown and dollar fee can charge a taker differently
  (`Economics.FeesCanDisagree`), by an amount given for all inputs
  (`Economics.FeeDifference`); at positive prices and with no negative fixed fee they agree
  exactly for no shares, without a taker fee, or with a dynamic scale of one
  (`Economics.ScaleIsOne`, and for all inputs `Economics.TakerFeesAgree`);
- the ring's length, read in two loads by a third party, can say that a ring is full which
  held at most one item meanwhile (`Ring.LengthCanWrap`); it is the items pushed before the first
  load less those popped before the second, exactly when the pops do not pass the head
  loaded (`Ring.LengthAcross`), which they cannot for the ring's own two sides
  (`Ring.LengthOnOneSide`).

## Model

| member | source | states |
|---|---|---|
| Walk.GreedyIsAnAllocation | src/orderbook/pt_book.c:168-196 | the walk takes min(want, depth) shares, from each level no more than it shows, at the cost it reports |
| Walk.GreedyIsCheapest | src/orderbook/pt_book.c:176-183 | on asks, no other way of taking as many shares from the levels costs less |
| Walk.GreedyIsDearest | src/orderbook/pt_book.c:184-192 | on bids, no other way of selling as many shares brings in more |
| Walk.VwapMeans | src/orderbook/pt_book.c:193 | the average reported is the cost a share in whole thousandths, and nothing when nothing is filled |
| Walk.AverageCostGrows | src/orderbook/pt_book.c:176-183 | the exact average cost a share never falls as more is taken, up to the depth |
| Walk.AskVwapGrows | src/orderbook/pt_book.c:193 | the truncated ask average never falls as the wanted size grows |
| Walk.BidVwapShrinks | src/orderbook/pt_book.c:193 | the truncated bid average never rises as the wanted size grows |
| Walk.WalkWithinLimit | src/orderbook/pt_book.c:168-196 | the levels walked are all within a price limit if and only if the depth within it covers what is filled |
| Walk.CostAgainstLimit | src/orderbook/pt_book.c:176-192 | the cost of a walk is a limit for every share, plus what is paid beyond it, less what is saved below it |
| Walk.VwapAgainstLimit | src/orderbook/pt_book.c:193 | the truncated average is at most a limit if and only if the excess is less than the saving plus a thousandth a share, and at least it if and only if the saving does not exceed the excess |
| OrderBook.SideBook.Find | src/orderbook/pt_book.c:21-31 | the binary search returns the number of levels below the price, and whether the next one has it |
| OrderBook.SideBook.ApplyLevel | src/orderbook/pt_book.c:34-61 | keeps the side sorted, positive and within capacity; contents and result code are those of one list update |
| OrderBook.SideBook.Sort | src/orderbook/pt_book.c:93-95 | the side becomes ascending and is a permutation of what it was |
| OrderBook.SideBook.Replace | src/orderbook/pt_book.c:86-96 | the side becomes exactly the positive levels given, in ascending order |
| OrderBook.SideBook.WalkUp | src/orderbook/pt_book.c:176-183 | shares, cost and levels used are those of the greedy walk from the lowest price |
| OrderBook.SideBook.WalkDown | src/orderbook/pt_book.c:184-192 | the same from the highest price down |
| OrderBook.Book.ApplyUpdate | src/orderbook/pt_book.c:63-78 | new book, sequence number and result code, with -1 for a bad price, side or a full side, and the rest unchanged |
| OrderBook.Book.ApplySnapshot | src/orderbook/pt_book.c:80-100 | replaces one side, or returns -1 and changes nothing for a bad count; the book stays sound |
| OrderBook.Book.BestBid | src/orderbook/pt_book.c:102-110 | the last level of the bid side, none when it is empty |
| OrderBook.Book.BestAsk | src/orderbook/pt_book.c:112-120 | the first level of the ask side, none when it is empty |
| OrderBook.Book.LevelSize | src/orderbook/pt_book.c:208-218 | the price map's value at a positive price, 0 where it has none and for prices not positive |
| OrderBook.Book.Walk | src/orderbook/pt_book.c:168-196 | filled size, truncated average and levels used of the greedy walk, best price first |
| OrderBook.WalkMeets | src/orderbook/pt_book.c:168-192 | bids are met from the highest price, asks from the lowest, and for a side that is neither asks from the highest |
| OrderBook.ApplyKeepsSide | src/orderbook/pt_book.c:34-61 | an update keeps a side ascending, positive and within 64 levels |
| OrderBook.ApplyRefinesMap | src/orderbook/pt_book.c:21-61 | updating the sorted array is updating the price-to-size map, result code and overflow included |
| OrderBook.RefusedWhen | src/orderbook/pt_book.c:63-78 | an update is refused exactly for a negative price, a side that is none, or a new price on a side of 64; then nothing changes, and otherwise the sequence number only grows |
| OrderBook.BestPricesAreExtremes | src/orderbook/pt_book.c:102-120 | best ask and best bid are the map's smallest and largest price with their sizes, none exactly when the map is empty |
| OrderBook.SnapshotStrictWhen | src/orderbook/pt_book.c:80-100 | after a snapshot prices are distinct if and only if it shows each price once |
| OrderBook.RepeatedPriceStays | src/orderbook/pt_book.c:80-100 | a snapshot of two levels at 500 leaves both, from the empty book |
| OrderBook.StepRefinesMaps | src/orderbook/pt_book.c:63-100 | every unambiguous operation on the arrays is that operation on the two maps |
| OrderBook.RunKeepsInv | src/orderbook/pt_book.c:63-100 | after any run of updates and snapshots, ambiguous ones too, both sides are ascending, positive and within capacity |
| OrderBook.RunRefinesMaps | src/orderbook/pt_book.c:63-100 | after any run with unambiguous snapshots the book is the pair of maps built by the same operations, with the same result codes |
| Economics.FeeDifference | src/execution/pt_economics.c:41-80 | for all inputs, breakdown fee times size less the dollar fee is what the dynamic scale, the stand-in price and a negative fixed fee account for |
| Economics.TakerFeesAgree | src/execution/pt_economics.c:41-80 | for all inputs, breakdown fee times size equals the dollar fee if and only if there are no shares, or no taker fee or no gap between the two prices charged (with a negative fixed fee: that gap times the rate makes it up) |
| Economics.ScaleIsOne | src/execution/pt_economics.c:41-80 | at a positive price there is no gap if and only if the dynamic scale is one |
| Economics.FeesCanDisagree | src/execution/pt_economics.c:41-80 | with a dynamic scale of two the breakdown charges twice the dollar fee |
| ArbOutcomes.PartsAddUp | src/execution/pt_economics.c:19-63 | for every schedule, side and cost, the parts of the breakdown add up to its net edge, each charged on the price or, when that is not positive, on half a dollar |
| ArbOutcomes.DefaultFees | src/execution/pt_economics.c:5-14 | without a schedule a taker is charged 2 basis points and a maker is given half of one |
| ArbOutcomes.MakerFeesAgree | src/execution/pt_economics.c:41-80 | a maker's fee less rebate, over the size, is its dollar fee and the fixed fee that only the breakdown charges |
| ArbOutcomes.TakerFeeMeans | src/execution/pt_economics.c:65-80 | a taker's dollar fee is its rate on the notional and the fixed fee, nothing for no shares |
| Arb.ComputeNetAt | src/execution/pt_arb.c:7-32 | no quote when a leg's depth is short; otherwise the averages and net edge of the pair |
| Arb.Probe | src/execution/pt_arb.c:58-59 | a quote exactly for the sizes that both legs can fill at the threshold edge or more |
| Arb.FindBest | src/execution/pt_arb.c:52-65 | the loop ends, with the result of the binary search and the quote that belongs to it |
| Arb.Compute | src/execution/pt_arb.c:34-84 | result code and reported opportunity over all exits |
| Arb.SearchIsSound | src/execution/pt_arb.c:52-65 | for any predicate on sizes, the size found satisfies it and is within bounds |
| Arb.SearchFindsLargest | src/execution/pt_arb.c:52-65 | if the predicate passes from a size to every smaller one, the size found is the largest that satisfies it, 0 when none does |
| Arb.EdgeFallsWithSize | src/execution/pt_arb.c:7-32 | at positive asks the edge before fixed fees never rises with size, through both truncated averages and the fee formula |
| Arb.ClearingIsDownwardClosed | src/execution/pt_arb.c:52-65 | without a gap, a size below one that clears the edge clears it too |
| Arb.SearchIsLargest | src/execution/pt_arb.c:52-65 | without a gap, the size found is the largest in [1, max_want] that is executable and clears the edge |
| Arb.FeeGapDefeatsSearch | src/execution/pt_arb.c:52-65 | for any fee gap, two books on which the search finds nothing although a size clears |
| Arb.StandInDefeatsSearch | src/execution/pt_economics.c:32-33 | for any stand-in gap, two books with a share at zero on which the search finds nothing although two shares clear |
| Arb.SearchExactness | src/execution/pt_arb.c:52-65 | the search is right on all books whose asks start at a given price, zero included, and all bounds if and only if no price sum there lies in the fixed fee's gap and, from zero, no sum of two clears where one does not |
| Arb.NoFixedFeeNoGap | src/execution/pt_economics.c:51-53 | without a positive fixed fee there is no fee gap |
| Arb.SmallRateNoGap | src/execution/pt_economics.c:32-33 | while fees and slippage take at most a 499th of the price there is no stand-in gap |
| Arb.OpportunityIsSound | src/execution/pt_arb.c:34-84 | under any configuration, a reported size fits both depths, the bound and the liquidity floor, and its edge clears the threshold |
| Arb.RawEdgeBounds | src/execution/pt_arb.c:48-50 | a size that clears implies a raw edge at or above the threshold, at it only when nothing costs anything |
| Arb.ThresholdClears | src/execution/pt_arb.c:48-64 | without costs and with the raw edge at the threshold, a size clears if and only if both legs fill it at their best ask |
| Arb.EvaluateIsBest | src/execution/pt_arb.c:34-84 | without a gap, on books that are not refused, what is reported is the best size, and nothing only when no liquid size clears |
| Arb.ThresholdEdgeIsMissed | src/execution/pt_arb.c:49-50 | on overlooked books the least liquid size clears and nothing is reported |
| Arb.SomeAreOverlooked | src/execution/pt_arb.c:49-50 | under any costless configuration whose threshold is what two asks leave of a dollar, flat books at those asks are overlooked |
| Arb.EvaluateExactness | src/execution/pt_arb.c:34-84 | without a gap, whatever the other costs, "reported iff a liquid size clears" holds if and only if the books are not refused: least size clears, raw edge not above the threshold |
| Arb.RefusedIsOverlooked | src/execution/pt_arb.c:49-50 | with real costs, the books refused are the overlooked ones: costless, raw edge at the threshold, least size available at both best asks |
| ArbOutcomes.QuoteMeans | src/execution/pt_arb.c:7-32 | a quote exactly for the sizes both ask sides fill: the averages in whole thousandths, and a dollar less their sum, the proportional and fixed fee, slippage and the buffers |
| ArbOutcomes.CodesMean | src/execution/pt_arb.c:34-50 | -1 for no size, 1 for an opportunity, 0 otherwise; the raw edge at the best asks, and all else zero without an opportunity |
| ArbOutcomes.ReportMeans | src/execution/pt_arb.c:67-84 | the averages the reported size costs, the edges they leave before and after costs, that edge on every pair as the profit, and the breakdown that adds up to it |
| SimQueue.Simulator.constructor | src/execution/pt_sim_queue.c:5-22 | 256 blank slots, ids from 100000; latencies in whole nanoseconds, with the defaults for a missing configuration and the realistic model for zero |
| SimQueue.Simulator.SubmitOrder | src/execution/pt_sim_queue.c:24-88 | first reusable slot, new id, latencies and displayed queue; 0 and no change for a zero size, bad price or full table |
| SimQueue.Simulator.CancelOrder | src/execution/pt_sim_queue.c:90-110 | the first cancellable order of that id becomes pending cancel; -1 and no change if there is none |
| SimQueue.Simulator.OnTrade | src/execution/pt_sim_queue.c:112-179 | every slot takes its trade step, and callbacks come in slot order |
| SimQueue.Simulator.OnLevelChange | src/execution/pt_sim_queue.c:181-223 | every slot takes its level step under the configured model |
| SimQueue.Simulator.TickOrder | src/execution/pt_sim_queue.c:233-326 | one order's arrival, cancel acknowledgement, market fill or sweep against its own book |
| SimQueue.Simulator.Tick | src/execution/pt_sim_queue.c:225-330 | every slot takes its tick step, books untouched, callbacks in slot order |
| SimQueue.QueueCut | src/execution/pt_sim_queue.c:202-220 | no model takes off more than the queue ahead |
| QueueOutcomes.ConfiguredAs | src/execution/pt_sim_queue.c:5-22 | latencies in milliseconds become whole nanoseconds, code 1 the conservative and 3 the aggressive model; 2, 1 and 2 ms and the realistic one by default |
| QueueOutcomes.FreshTable | src/execution/pt_sim_queue.c:5-22 | 256 blank slots and ids from 100000 |
| QueueOutcomes.SubmitTakesSlot | src/execution/pt_sim_queue.c:24-88 | a submit of some shares at a positive price takes the first slot that is created, filled, cancelled, rejected or expired, with the clocks of its latencies, behind the first level shown at its price; otherwise it returns 0 and changes nothing |
| QueueOutcomes.CancelTakesOrder | src/execution/pt_sim_queue.c:90-110 | a cancel reaches the first order of its id that is submitted, live or partial, to be acknowledged a cancel and a network latency later; otherwise it returns -1 and changes nothing |
| QueueOutcomes.TradeReaches | src/execution/pt_sim_queue.c:131-176 | a trade of the order's outcome at the matching engine, not by its own side and at its limit or through it, empties the queue first and fills with the rest at the limit: queue, volumes, cost, state, clock and callback |
| QueueOutcomes.TradePassesBy | src/execution/pt_sim_queue.c:112-141 | any other trade changes nothing, but that an order of its outcome notices its arrival |
| QueueOutcomes.TradeFillsWhen | src/execution/pt_sim_queue.c:131-152 | so there is a callback exactly when such a trade is larger than the queue ahead |
| QueueOutcomes.LevelShrinks | src/execution/pt_sim_queue.c:181-222 | a reduction of the order's level takes off its queue nothing, all it can, or the nearest whole share, by the model; and changes only the queue and the cancelled volume |
| QueueOutcomes.LevelPassesBy | src/execution/pt_sim_queue.c:185-200 | any other report changes nothing |
| QueueOutcomes.RealisticShare | src/execution/pt_sim_queue.c:213-217 | under the realistic model the queue falls by its share of the reduction rounded to the nearest, ties up |
| QueueOutcomes.TickPassesBy | src/execution/pt_sim_queue.c:233-254 | for another market, a state without interest, a time before arrival or a missing book, at most the arrival is noticed |
| QueueOutcomes.TickAcknowledges | src/execution/pt_sim_queue.c:241-245 | a cancel whose time has come ends the order |
| QueueOutcomes.TickTakes | src/execution/pt_sim_queue.c:256-278 | a market or IOC order takes what the other side has, up to what it wants, at the truncated average of its cost, and is filled or cancelled |
| QueueOutcomes.TickSweeps | src/execution/pt_sim_queue.c:280-322 | an order whose limit the other side's best is strictly through takes what there is at the truncated average, or at its limit when that is nothing |
| QueueOutcomes.TickRests | src/execution/pt_sim_queue.c:280-292 | on any other book it rests |
| QueueOutcomes.TickFillsWhen | src/execution/pt_sim_queue.c:233-300 | so a tick fills a limit order exactly when it sets it against such a book |
| OrderRuns.OrderStepGood | src/execution/pt_sim_queue.c:112-330 | one event keeps an order's state legal and its identity; its callbacks are exactly its change of filled size and cost, after arrival; terminal orders do not move |
| OrderRuns.FillsOfPresent | src/execution/pt_sim_queue.c:112-179 | an event's callbacks for an id add up to what that id's slot gained |
| OrderRuns.MarketEventKeeps | src/execution/pt_sim_queue.c:112-330 | trades, level changes and ticks keep the table's invariant and its agreement with the callback log |
| OrderRuns.RunKeeps | src/execution/pt_sim_queue.c:24-330 | after any run: filled + remaining = original, FILLED iff nothing remains, partial and untouched states as named, queue accounting, distinct ids below the next, no callback before arrival, and per order callbacks add up to filled size and cost |
| OrderRuns.TerminalOrdersRest | src/execution/pt_sim_queue.c:33-65 | filled and cancelled orders stay as they are until a submit takes their slot, and a submit takes no other |
| QueueLaws.SubmitJoinsDisplayedQueue | src/execution/pt_sim_queue.c:68-83 | a submitted order rests, untouched, behind exactly the size the book shows at its price |
| QueueLaws.TradeEffect | src/execution/pt_sim_queue.c:142-176 | a trade's volume eats the queue first and fills with the rest, capped by the order |
| QueueLaws.LevelEffect | src/execution/pt_sim_queue.c:202-221 | a level change moves only the queue and the cancelled volume, by the model's cut |
| QueueLaws.VolumeIsAccounted | src/execution/pt_sim_queue.c:112-223 | initial queue = queue ahead + consumed + cancelled; while not full, the volume that reached the order = consumed + filled |
| QueueLaws.FirstComeFirstServed | src/execution/pt_sim_queue.c:142-176 | without credited cancellations, filled = min(original, max(0, total volume - initial queue)) over any stream |
| QueueLaws.ProportionalAtMostReduction | src/execution/pt_sim_queue.c:213-216 | the rounded share is at most the reduction if and only if the reduction is in proportion |
| QueueLaws.ModelsCompareAtOneLevel | src/execution/pt_sim_queue.c:202-220 | for any reduction seen from equal queues, the realistic cut is at most the aggressive one if and only if the reduction is in proportion, takes the whole queue, or starts from no positive size |
| QueueLaws.ModelsCanCross | src/execution/pt_sim_queue.c:202-220 | a submitted buy behind 100 shares, after its arrival a report of its level from 10 to 5 and a trade of 60: 10 filled under the realistic model and none under the aggressive one |
| QueueLaws.ModelsCanCrossOnFeed | src/execution/pt_sim_queue.c:196-220 | the same on a feed without a break, for any latency, when a report from 100 to 10 comes before the arrival |
| QueueLaws.ModelsDominate | include/execution/pt_sim_queue.h:14-18 | over any common stream with reductions in proportion, queues are ordered aggressive, realistic, conservative, and fills the other way |
| QueueLaws.QueueWithinLevel | src/execution/pt_sim_queue.c:212-218 | on a feed without a break whose level holds the order's queue when its reports start to reach it, the realistic queue never exceeds the displayed level |
| QueueLaws.ModelsDominateOnFeed | src/execution/pt_sim_queue.c:112-223 | on such a feed dominance needs no other condition |
| QueueLaws.SlotFollowsItsOrder | src/execution/pt_sim_queue.c:120-176 | in the whole table each slot evolves as its own order does, whatever the others are |
| QueueLaws.SimulatorsDominate | include/execution/pt_sim_queue.h:14-18 | three simulators that differ in the model only agree on who fills more, slot by slot |
| Dominance.ModelsStayAhead | include/execution/pt_sim_queue.h:14-18 | for a limit order over any common stream of trades, level changes, sweeping or acknowledging ticks and cancel requests, the model that credits more fills no less, is cancelled no sooner, and queues no longer while open |
| Dominance.OpenQueueFits | src/execution/pt_sim_queue.c:212-218 | through all of these the realistic queue of an open order fits the displayed level, so the side condition maintains itself |
| Dominance.ModelsStayAheadOnFeed | src/execution/pt_sim_queue.c:90-330 | on such a feed, reports before the arrival included, the models stay in order with no other condition |
| Dominance.SlotFollowsEvents | src/execution/pt_sim_queue.c:90-330 | in the whole table a slot evolves by the events that concern its own order, cancel requests by id included |
| Dominance.SimulatorsStayAhead | include/execution/pt_sim_queue.h:14-18 | so three simulators with the same table, latencies and stream of events other than submits stay in order, slot by slot |
| Dominance.OrderFollowsEvents | src/execution/pt_sim_queue.c:24-330 | with submits among the events, a table carries an order by its id through the events that concern it, and gives its slot away only once it is filled or cancelled |
| Dominance.OrdersStayAhead | include/execution/pt_sim_queue.h:14-18 | three simulators that hold the same order keep it in order by its id over any common stream, submits included, however their tables differ |
| Dominance.IdsAreCounted | src/execution/pt_sim_queue.c:33-88 | while no submit finds the table full, the next id counts the submits accepted, the same under every model |
| Dominance.NewOrdersStayAhead | include/execution/pt_sim_queue.h:14-18 | so an order submitted anywhere in a common stream has one id in three simulators that started alike, and from then on they stay in order on it, if the level holds its queue when reports start to reach it |
| QueueLaws.CancelTakesEffect | src/execution/pt_sim_queue.c:165-169 | for limit orders, over any events before the acknowledgement, the acknowledging tick cancels the order if and only if nothing filled meanwhile |
| QueueLaws.FillsByVolume | src/execution/pt_sim_queue.c:142-176 | without credited cancellations an order fills further if and only if the volume that reaches it exceeds its queue ahead |
| QueueLaws.CancelByVolume | src/execution/pt_sim_queue.c:142-169 | then a requested cancel takes effect if and only if that volume does not exceed the queue ahead |
| QueueLaws.TakerIsDone | src/execution/pt_sim_queue.c:241-278 | a market or IOC order with a cancel pending ends at the first tick after acknowledgement and arrival with its book, cancelled if and only if not filled in full |
| QueueLaws.CancelCanBeLost | src/execution/pt_sim_queue.c:165-169 | a submitted order, cancelled and partly traded, that the acknowledging tick leaves resting |
| QueueLaws.TradeFillsAtLimit | src/execution/pt_sim_queue.c:150-171 | trade-driven fills are at the order's limit |
| QueueLaws.SweepAlwaysWalks | src/execution/pt_sim_queue.c:294-299 | under the book invariant the fallback quantity is never used |
| QueueLaws.SweepStaysInside | src/execution/pt_sim_queue.c:294-299 | every level a sweep uses is at an acceptable price if and only if the depth within the limit covers it |
| QueueLaws.SweepRespectsLimit | src/execution/pt_sim_queue.c:301-307 | with every level inside, the price it reports is no worse than the limit, on either side |
| QueueLaws.SweepPriceExactness | src/execution/pt_sim_queue.c:294-307 | the price a sweep reports is acceptable if and only if its excess beyond the limit is made up by its saving inside it and the truncated thousandths, or, for a sale, the average truncates to nothing |
| QueueLaws.SweepCanPassLimit | src/execution/pt_sim_queue.c:294-307 | a submitted buy limited at 500 that one tick on a sound book fills at 850 |
| Portfolio.PortfolioBook.constructor | src/portfolio/pt_portfolio.c:7-12 | an empty portfolio with the given cash |
| Portfolio.PortfolioBook.FindPosition | src/portfolio/pt_portfolio.c:14-34 | the first matching open position, a new one at the end, or none when 128 are taken |
| Portfolio.PortfolioBook.Buy | src/portfolio/pt_portfolio.c:50-55 | a purchase's effect on cash, exposure and one position, the others unchanged |
| Portfolio.PortfolioBook.Sell | src/portfolio/pt_portfolio.c:56-76 | a sale's effect, closing at most what is held, counters and clamp included |
| Portfolio.PortfolioBook.RecordFill | src/portfolio/pt_portfolio.c:36-77 | the whole new state, with nothing changed for zero shares or a full table |
| Portfolio.PortfolioBook.MarkBid | src/portfolio/pt_portfolio.c:86-106 | bids of one outcome, unrealized PnL of every position, and their sum |
| Portfolio.PortfolioBook.SettleMarket | src/portfolio/pt_portfolio.c:131-179 | each open position of the market settled in turn |
| LedgerEntries.StartsWithCash | src/portfolio/pt_portfolio.c:7-12 | an empty portfolio is worth its cash and has counted nothing |
| LedgerEntries.FillLands | src/portfolio/pt_portfolio.c:14-77 | a fill enters the first unsettled position of its market, outcome, strategy and signal, or a new one while there are fewer than 128, and is lost otherwise: what a purchase costs, what a sale of what is held brings in, gains, frees of basis and exposure, and counts |
| LedgerEntries.MarkEnters | src/portfolio/pt_portfolio.c:86-106 | a mark sets the bid of its market's outcome and values every position at its own |
| LedgerEntries.SettlementEnters | src/portfolio/pt_portfolio.c:131-179 | a settlement closes every unsettled position of its market that holds shares, each a trade won when it pays at least its cost; totals, counters and exposure follow |
| PortfolioLaws.SaleRounding | src/portfolio/pt_portfolio.c:59-73 | exposure and cost basis taken out differ by less than a thousandth, by nothing when the position closes |
| PortfolioLaws.FillConserves | src/portfolio/pt_portfolio.c:36-77 | a fill adds to cash + cost - realized only what was credited for shares not held, and a rounding for a partial sale |
| PortfolioLaws.StepConserves | src/portfolio/pt_portfolio.c:36-179 | so does every event |
| PortfolioLaws.RunConserves | src/portfolio/pt_portfolio.c:36-179 | over any run the ledger's drift and the exposure gap lie within a thousandth per partial sale, never below zero at non-negative prices |
| PortfolioLaws.ConservationFromStart | src/portfolio/pt_portfolio.c:7-179 | cash + open cost - realized = initial cash + oversold + r, with 0 <= r <= partial sales / 1000 |
| PortfolioLaws.FillIsTallied | src/portfolio/pt_portfolio.c:56-69 | a fill is a trade exactly when it sells held shares, won or lost by the sign of what it realizes, neither at break-even |
| PortfolioLaws.SettledAtIsTallied | src/portfolio/pt_portfolio.c:137-151 | a settled position is one trade, won when it pays at least its cost |
| PortfolioLaws.RunIsTallied | src/portfolio/pt_portfolio.c:36-179 | over any run realized PnL is the sum over positions, and wins and losses never exceed trades |
| PortfolioLaws.EquityAtMark | src/portfolio/pt_portfolio.c:86-112 | right after a mark, equity is cash plus value at the bids less the gap |
| PortfolioLaws.EquityAgreesWithRecomputation | src/portfolio/pt_portfolio.c:55-112 | in every reachable state it is at most the recomputed equity and short by at most a thousandth per partial sale |
| PortfolioLaws.SettlementPays | src/portfolio/pt_portfolio.c:131-179 | settling pays one dollar per open winning share and leaves no open share of the market |
| PortfolioLaws.SettlingTwice | src/portfolio/pt_portfolio.c:137-176 | settling a market again, for either winner, changes nothing |
| Broker.BrokerDesk.constructor | src/execution/pt_broker.c:4-26 | a fresh simulator, on the broker's latencies and model or their defaults, joined to the given portfolio |
| Broker.DeskRunsOn | src/execution/pt_broker.c:4-26 | submit, fill and cancel latencies become the simulator's network, processing and cancel ones; 1.5, 1 and 1.5 ms and the realistic model by default |
| Broker.BrokerDesk.SubmitLimit | src/execution/pt_broker.c:35-43 | a limit order without a signal is submitted to the simulator |
| Broker.BrokerDesk.SubmitTyped | src/execution/pt_broker.c:45-55 | an order of any type is submitted to the simulator |
| Broker.BrokerDesk.CancelOrder | src/execution/pt_broker.c:57-61 | a cancel reaches the simulator, with its result code |
| Broker.BrokerDesk.OnTrade | src/execution/pt_broker.c:86-99 | the simulator's trade step, and every callback recorded in the portfolio in order |
| Broker.BrokerDesk.OnLevelChange | src/execution/pt_broker.c:101-108 | the simulator's level step, the portfolio untouched |
| Broker.BrokerDesk.Tick | src/execution/pt_broker.c:110-122 | the simulator's tick, and every callback recorded in order |
| Broker.BrokerDesk.Record | src/execution/pt_broker.c:70-84 | the portfolio after a call's callbacks, unchanged when there is none |
| Broker.RecordingMovesCash | src/execution/pt_broker.c:70-84 | while the table is not full, recording moves cash by sale notional less purchase notional |
| Broker.DeskRunsQueue | src/execution/pt_broker.c:35-122 | the desk's simulator and log are those of its queue operations alone |
| Broker.DeskConserves | src/execution/pt_broker.c:35-122 | over any desk run, per order callbacks equal filled size and cost, and until the table fills up cash is initial cash + the log's net sales + settlement payoffs |
| Risk.RiskEngine.constructor | src/risk/pt_risk.c:5-11 | zero limits replaced by defaults, all of them zero for a missing configuration, everything else cleared |
| Risk.RiskEngine.TripKill | src/risk/pt_risk.c:23-28 | the switch and its reason, the rest unchanged |
| Risk.RiskEngine.CheckLosses | src/risk/pt_risk.c:67-88 | the first breached loss limit trips the switch; without one nothing changes |
| Risk.RiskEngine.CheckMarket | src/risk/pt_risk.c:90-114 | the first of stale feeds, spread and confidence that forbids trading |
| Risk.RiskEngine.SizeOrder | src/risk/pt_risk.c:116-149 | verdict and size against market and total room |
| Risk.RiskEngine.EvaluateSignal | src/risk/pt_risk.c:42-153 | verdict, size and the whole new state, in the order of the checks |
| Risk.RiskEngine.RecordFill | src/risk/pt_risk.c:156-159 | exposure grows by the notional |
| Risk.RiskEngine.RecordPnl | src/risk/pt_risk.c:161-172 | daily PnL, its peak and the losing streak |
| Risk.RiskEngine.ResetKill | src/risk/pt_risk.c:30-35 | the switch is cleared, the rest unchanged |
| RiskVerdicts.VerdictIsFirstReason | src/risk/pt_risk.c:42-153 | an evaluation gives the first reason there is against the signal, of twelve spelled out in figures; with none it approves the largest whole number of shares that is asked for and fits both rooms and the order limit |
| RiskVerdicts.ApprovesExactly | src/risk/pt_risk.c:42-153 | it approves if and only if none of them holds: no kill, no full second, losses inside their limits, both feeds fresh, spread and confidence right, a price, and room for a share |
| RiskVerdicts.EvaluationLeaves | src/risk/pt_risk.c:42-153 | it counts itself and its verdict, opens a second that is over, counts its approval in it, and trips the switch on a loss limit, with the reason |
| RiskVerdicts.FeedsAreSeen | src/risk/pt_risk.c:13-21 | over any run each feed's clock is that of its last update |
| RiskVerdicts.StartsWith | src/risk/pt_risk.c:5-11 | 50 orders a second and 1000 shares for limits of zero, and nothing seen, filled or lost |
| RiskVerdicts.TripAndReset | src/risk/pt_risk.c:23-35 | a trip by hand refuses everything for that reason, and a reset takes it back whole |
| RiskLaws.RunKeepsRate | src/risk/pt_risk.c:57-65 | over any run with a clock that does not go back, the engine's window counts exactly the approvals since it opened |
| RiskLaws.RateIsLimited | src/risk/pt_risk.c:57-65 | any one-second interval of any run holds at most twice the limit |
| RiskLaws.WindowsAreLimited | src/risk/pt_risk.c:57-65 | every window the engine starts at any point of a run holds at most the limit, counted over the whole run, and the next starts after it has ended |
| RiskLaws.RateBoundIsTight | src/risk/pt_risk.c:57-65 | for every configuration that lets an order pass, a run with twice as many approvals in one second as its limit |
| RiskLaws.NothingPasses | src/risk/pt_risk.c:67-149 | with no drawdown allowed, or orders cut to less than a share, no run approves anything |
| RiskLaws.SlidingExactness | src/risk/pt_risk.c:57-65 | every second of every clocked run is held to the limit if and only if the configuration is one of those |
| RiskLaws.RunKeepsHistory | src/risk/pt_risk.c:156-172 | daily PnL, peak, streak and exposure are those of the whole PnL and fill history |
| RiskLaws.ApprovalMeans | src/risk/pt_risk.c:51-153 | an approval implies no kill, all loss figures inside their limits, and a notional within both rooms |
| RiskLaws.ApprovalIsSound | src/risk/pt_risk.c:51-153 | the same in terms of the history of PnL and fills before it |
| RiskLaws.VerdictsAreCounted | src/risk/pt_risk.c:49-152 | over any run, evaluations are the approvals plus the rejections counted |
| RiskLaws.KillLatches | src/risk/pt_risk.c:51-55 | once tripped, no run without a reset approves anything or clears the switch |
| RiskLaws.BreachTrips | src/risk/pt_risk.c:57-88 | an evaluation leaves the switch tripped if and only if it was, or a loss limit is breached and the rate limit let it look |
| RiskLaws.ExposureIsCapped | src/risk/pt_risk.c:131-159 | if fills stay within the notional last approved, exposure never exceeds its cap |
| ArbMgr.Manager.constructor | src/execution/pt_arb_mgr.c:11-30 | an empty table of 64, ids from 1, with the given limits and edge configuration or their defaults |
| ArbMgr.Manager.OpenOp | src/execution/pt_arb_mgr.c:46-80 | the first free slot takes the opportunity, or -1 and no change |
| ArbMgr.Manager.LegExposure | src/execution/pt_arb_mgr.c:82-99 | excess and remaining shares of both legs, zeros for an index outside the table |
| ArbMgr.Manager.ResolveExcess | src/execution/pt_arb_mgr.c:161-204 | requote of the lagging leg or hedge of the leading one, by projected loss, current edge and configuration |
| ArbMgr.Manager.RecordFill | src/execution/pt_arb_mgr.c:123-210 | new table and action over completion, excess and balance; unknown slots ignored |
| ArbMgr.Manager.RecordCancel | src/execution/pt_arb_mgr.c:214-252 | abort, hedge or quiet cancel, by the fills |
| ArbMgr.Manager.Tick | src/execution/pt_arb_mgr.c:254-291 | every slot's tick, and the actions in slot order |
| ManagerAnswers.LimitedBy | src/execution/pt_arb_mgr.c:11-30 | the limits in hand, in nanoseconds, or 10 dollars a trade, requotes and half a second |
| ManagerAnswers.OpenTakesSlot | src/execution/pt_arb_mgr.c:46-80 | an opportunity takes the first slot whose operation is idle, complete, hedged, cancelled, expired, failed or none, with its size as target and its averages as limits |
| ManagerAnswers.ExposureMeans | src/execution/pt_arb_mgr.c:82-99 | excess is what a leg has over the other, remaining what it has short of the target |
| ManagerAnswers.FillIsAnswered | src/execution/pt_arb_mgr.c:123-210 | a fill is booked on its leg, the first YES starting the clock; the answer completes with its PnL, requotes the rest of the lagging leg at its ask, dumps the excess at the leading leg's bid, or waits, with loss, edge and size in figures |
| ManagerAnswers.RequotesExactly | src/execution/pt_arb_mgr.c:168-204 | whichever leg leads, a short operation requotes if and only if that is allowed, the loss against the limit with fees is below what a trade may lose, and the pair's net edge at its target is above the minimum |
| ManagerAnswers.CancelIsAnswered | src/execution/pt_arb_mgr.c:214-252 | a cancel aborts an operation without fills, dumps the excess of an uneven one at its bid, and ends an even one |
| ManagerAnswers.TickIsAnswered | src/execution/pt_arb_mgr.c:254-291 | a tick dumps the excess of an operation that is going, uneven, and has had its clock run as long as it may, on 64-bit clocks |
| ManagerAnswers.TickHedgesOverdue | src/execution/pt_arb_mgr.c:254-291 | over the table, the actions are the hedges of those operations and no others |
| ManagerAnswers.ReportsNameASlot | src/execution/pt_arb_mgr.c:123-140 | fills and cancels touch the slot they name, and a fill nothing in a blank one |
| ArbMgrLaws.OneLegLeads | src/execution/pt_arb_mgr.c:82-99 | at most one leg has excess, and it is the difference of the fills |
| ArbMgrLaws.FillActions | src/execution/pt_arb_mgr.c:134-210 | a hedge sells exactly the leading excess, a submit filled in full equalises the legs without passing the target, complete iff both legs reach it, and one of hedge and submit iff they have not and differ |
| ArbMgrLaws.CancelActions | src/execution/pt_arb_mgr.c:226-251 | after a cancel a hedge of the exact excess if and only if the legs differ |
| ArbMgrLaws.CompletionIsSettlement | src/execution/pt_arb_mgr.c:147-158 | at or past the target, completion PnL plus fees is a dollar a targeted pair less all that was paid |
| ArbMgrLaws.RequoteKeepsEdge | src/execution/pt_arb_mgr.c:171-194 | with the leading leg at target and both within their limits, a requote filled as asked completes the operation and earns the edge of the limits less the loss projected for it, which is below the maximum, before the completion fees and with the requote's own fee given back |
| ArbMgrLaws.StartIsSound | src/execution/pt_arb_mgr.c:11-30 | the table as initialised satisfies the run invariants, hedge clocks included |
| ArbMgrLaws.StepKeepsInv | src/execution/pt_arb_mgr.c:46-291 | every operation keeps ids distinct and targets positive, and marks none hedged, expired or failed |
| ArbMgrLaws.RunOf | src/execution/pt_arb_mgr.c:46-291 | so every run does, from any sound table |
| ArbMgrLaws.RunKeepsClocks | src/execution/pt_arb_mgr.c:134-142 | with fills of a quantity at a positive clock, the hedge clock runs if and only if YES has filled |
| ArbMgrLaws.OpenTakesFinishedSlot | src/execution/pt_arb_mgr.c:51-64 | opening takes a finished slot and leaves the others, or fails only when none is finished |
| ArbMgrLaws.TickHedgesWhen | src/execution/pt_arb_mgr.c:261-289 | a tick hedges if and only if the operation is unfinished, unbalanced, YES has filled and its time is up |
| ArbMgrLaws.HedgeCanWaitForever | src/execution/pt_arb_mgr.c:261-289 | an operation opened from the start and filled on NO alone, answered by a submit, is asked no hedge by any tick at any clock after any run without its own fills |
| ArbMgrLaws.TickActionsFit | src/execution/pt_arb_mgr.c:254-291 | at most one exact hedge a slot, in slot order, so 64 action slots suffice |
| ArbMgrLaws.StuckStays | src/execution/pt_arb_mgr.c:46-291 | through any opens, cancels, ticks and fills of other slots an unbalanced operation keeps its slot, fills and clock |
| ArbMgrLaws.HedgeIsReemitted | src/execution/pt_arb_mgr.c:263-288 | after any such run a tick asks for the same hedge if and only if its clock runs and its time is up, however often it did before |
| ArbMgrLaws.StuckTableRefuses | src/execution/pt_arb_mgr.c:51-64 | with 64 unbalanced operations and no further fills, no run makes an opportunity openable |
| ArbMgrLaws.OverfillIsNotHedged | src/execution/pt_arb_mgr.c:147-291 | after any run without a cancel of it, a completed operation is asked no hedge by any tick and answers any fill as complete, however far its legs are apart; a cancel hedges it if and only if they are |
| Masks.MaskIsMod | src/util/pt_ring.c:28-31 | masking with a power of two less one is the remainder |
| Masks.MaskedDifference | src/util/pt_ring.c:71-77 | the masked, wrapped difference of two ring indices is the remainder of their counters' difference, whichever is ahead |
| Masks.MaskedDistance | src/util/pt_ring.c:71-77 | when the counters are less than a lap apart it is their distance |
| Ring.FullTest | src/util/pt_ring.c:33-40 | next head meets the tail if and only if capacity - 1 items are held |
| Ring.StepKeeps | src/util/pt_ring.c:33-69 | every index load, byte copied and index store of either side keeps the protocol invariant |
| Ring.ScheduledIsSound | src/util/pt_ring.c:33-69 | so every interleaving does |
| Ring.RingIsLinearizable | src/util/pt_ring.c:33-69 | over every interleaving: popped is a prefix of pushed, at most capacity - 1 held, attempts = successes + drops + the one in progress, each drop found capacity - 1 held, each pop or peek that returned nothing found nothing held, each peek saw the item it should |
| Ring.SidesNeverMeet | src/util/pt_ring.c:41-56 | a slot being written is never the slot being read |
| Ring.LengthIsExact | src/util/pt_ring.c:71-77 | with no step between its two loads, the masked length is the number of items held |
| Ring.LengthAcross | src/util/pt_ring.c:71-77 | with any steps of both sides between its two loads, the length is at most capacity - 1, and is the items pushed before the first less those popped before the second if and only if the pops do not pass the head loaded; then it is at most what is held at either |
| Ring.LengthOnOneSide | src/util/pt_ring.c:71-77 | called by the producer it is what is held at the second load, called by the consumer what is held at the first |
| Ring.LengthCanWrap | src/util/pt_ring.c:71-77 | a push and a pop between the loads of a third caller make an empty ring's length capacity - 1 |
| Ring.PushIsWaitFree | src/util/pt_ring.c:33-45 | a push ends within slot size + 2 steps of its own, whatever the consumer does |
| Ring.PopIsWaitFree | src/util/pt_ring.c:47-69 | a pop or a peek, of an empty ring too, ends within slot size + 2 steps of its own, whatever the producer does |
| Ring.PushCallAppends | src/util/pt_ring.c:33-45 | an uninterrupted push appends its item, or is dropped and counted exactly when capacity - 1 are held |
| Ring.PopCallTakes | src/util/pt_ring.c:47-58 | an uninterrupted pop of a ring that holds anything takes the oldest item |
| Ring.RingBuffer.Push | src/util/pt_ring.c:33-45 | contents grow by the item unless full, then the drop counter does |
| Ring.RingBuffer.Pop | src/util/pt_ring.c:47-58 | the oldest item leaves, none when empty |
| Ring.RingBuffer.Peek | src/util/pt_ring.c:60-69 | the oldest item, none when empty, nothing changed |
| Ring.RingBuffer.Len | src/util/pt_ring.c:71-77 | the number of items held |
| Ring.RingBuffer.Free | src/util/pt_ring.c:79-82 | the number of items it still takes |
| WinBuf.WindowBuffer.Reset | src/util/pt_winbuf.c:25-28 | indices cleared, samples left in place |
| WinBuf.WindowBuffer.Add | src/util/pt_winbuf.c:30-50 | the new arrays, head and count over replacement, overwrite and growth |
| WinBuf.WindowBuffer.Agg | src/util/pt_winbuf.c:52-83 | the aggregate of the newest-to-oldest scan with its early stop |
| WinBuf.WindowMeans | src/util/pt_winbuf.c:52-70 | the window holds what is not in the future and less than its duration old |
| WinBuf.AddRefinesList | src/util/pt_winbuf.c:30-50 | on a full buffer, adding replaces the newest value or drops the oldest sample and appends |
| WinBuf.AddsRefineList | src/util/pt_winbuf.c:30-50 | over any run of adds it stays full, is that list, and stays in time order |
| WinBuf.ScanDescribes | src/util/pt_winbuf.c:62-76 | on samples in time order the early stop loses nothing |
| WinBuf.AggregateIsWindow | src/util/pt_winbuf.c:52-83 | on a full ordered buffer sum, extremes, ends and count are those of exactly the samples with lo < t <= now, none iff there are none |
| WinBuf.FullExactness | src/util/pt_winbuf.c:52-83 | the aggregate of a full buffer is that of its samples, for all windows, if and only if they are in time order |
| WinBuf.LatestIsNewestWhenFull | src/util/pt_winbuf.c:33-50 | the slot compared with is the last written if and only if the buffer is full |
| WinBuf.FillingMissesSample | src/util/pt_winbuf.c:63-76 | a partly filled buffer whose only sample, inside the window, is overlooked |
| WinBuf.FillingIsWrong | src/util/pt_winbuf.c:30-83 | after any adds from an empty buffer, in any order, that do not fill it, every window that holds all it has is aggregated wrongly |
| WinBuf.AddsStayReachable | src/util/pt_winbuf.c:30-50 | from an empty buffer the next write follows the samples until the buffer is full |
| WinBuf.AggregateExactness | src/util/pt_winbuf.c:30-83 | after any adds, late and equal times included, to an empty buffer that holds nothing as late, the aggregate is that of its samples, for all windows, if and only if nothing was added or it is full and in time order |
| WinBuf.FullCanBeWrong | src/util/pt_winbuf.c:32-38 | two slots filled by a sample and an earlier one, which the comparison with a blank slot lets in: full, out of order, and a window with the later sample comes out empty |
| WinBuf.InOrderExactness | src/util/pt_winbuf.c:30-83 | for adds at increasing times, if and only if there were none or enough to fill it |
| WinBuf.LateContentsTakeAdd | src/util/pt_winbuf.c:32-38 | contents as late as the second sample take its value, and it is not counted |
| WinBuf.FillingReachesList | src/util/pt_winbuf.c:30-50 | from an empty buffer, as many adds as it has slots, at increasing times past what the slots hold, leave it full of exactly those samples in order |
| WinBuf.RunAggregates | src/util/pt_winbuf.c:30-83 | from a full buffer in time order on, after any further adds, the aggregate is that of the bounded list's samples in the window |
| EndToEnd.BuysRecord | src/portfolio/pt_portfolio.c:36-55 | with room for both positions no fill is lost: cash falls by what was paid and open shares grow by what was bought |
| EndToEnd.WinnersArePaid | src/portfolio/pt_portfolio.c:131-179 | any fills of the two legs earn a dollar a share of the winner less what was paid |
| EndToEnd.PairsPayTheSame | src/portfolio/pt_portfolio.c:131-179 | equal fills of both legs earn a dollar a pair less what was paid, whichever side wins |
| EndToEnd.PairAgainstEdge | src/execution/pt_arb.c:72-78 | a walked pair's profit lies in (size x executable edge - 2 size / 1000, size x executable edge] |
| EndToEnd.OpportunitySettles | src/execution/pt_arb.c:67-84 | buying a reported size level by level and settling earns that, winner-independent, in any portfolio with room |
| EndToEnd.CompletionSettles | src/execution/pt_arb_mgr.c:147-158 | on fills that reach its target on both legs or pass it, the manager's last report, fees added back, is the cash the portfolio earns from the same fills less a dollar for each share of the winner past the target |
| EndToEnd.OverfillIsLeftOut | src/execution/pt_arb_mgr.c:147-158 | a YES leg filled past the target and a NO leg filled to it: complete, unbalanced, and the report leaves out what the rest earns if YES wins |
| DeskTrade.PairEarnsEdge | src/execution/pt_sim_queue.c:256-278 | a pair charged at truncated averages settles to size x executable edge exactly |
| DeskTrade.DeskEarnsEdge | src/execution/pt_broker.c:35-122 | after any run of the desk that leaves two reusable slots, room for the positions and no open order of the market: an opportunity submitted as two taker orders, ticked after arrival on the same books and settled adds its executable edge on every pair to cash, over what earlier positions pay, for any latencies and either winner |
| DeskTrade.FreshDeskEarnsEdge | src/execution/pt_broker.c:4-122 | a fresh desk is one of those, so it ends with its cash and that edge |

## Left out

- IEEE-754 rounding: doubles are exact reals; truncation of the cost basis and rounding of the proportional cut are kept, as integer formulas.
- 64-bit overflow of sizes, costs and clocks, except where wrap-around is part of the logic (ring length, the manager's elapsed time).
- OrderBook.Book.ApplySnapshot: prices are taken non-negative, because the average of a walk is an unsigned division in C; the array is at least as long as announced; the library sort is any ordering permutation, with nothing said of equal prices.
- OrderBook.SideBook.Replace: the same, for the one side.
- Arb.SearchExactness: for fee and slippage rates that add up to -100 % or more; below that the taker is paid more than the price.
- Arb.EvaluateExactness: about configurations without a gap, and rates as before; where there is a gap, the search itself is wrong on some books.
- The depth volume, weighted depth, imbalance, mid and last-trade members of the book: one-loop sums and single-field stores.
- Hedge cost, worst-case loss, fill probabilities and confidence of an opportunity; adverse selection, fill ratio and time to fill of an order: doubles that no other result depends on.
- SimQueue.Simulator.constructor: a negative latency, whose conversion to an unsigned clock C leaves undefined, counts as none.
- Fill callbacks come back as records in call order; a callback that calls the simulator again, and the broker's user callback, are not modelled.
- Win rate, market exposure, the strategy statistics and lifecycle hooks of a settlement, and its printed line.
- ArbMgr.Manager.OpenOp: asks for a positive size in a reported opportunity, since completion divides by it; replacing the books, the copy-out of the operation and the configuration fields that no branch reads are left out.
- ArbMgrLaws.RunKeepsClocks: about fills of a positive quantity at a positive clock; a zero clock leaves the hedge clock unset.
- Dominance.NewOrdersStayAhead: about limit and FOK orders and runs in which no submit up to the order's own found the table full; a full table refuses in one simulator what another takes, and ids part.
- DeskTrade.DeskEarnsEdge: about a market with no other open order, which the same tick could fill too.
- Memory ordering beyond atomic steps: the ring's interleavings are sequentially consistent. A pop without a destination and failed initialisation are left out.
- Ring.RingBuffer.Push: holds whole items in its slots; the byte-wise copy is in the step-by-step protocol.
- WinBuf.WindowBuffer.Add: allocation failure and zero capacity are left out; the slots' contents before the first write are arbitrary.
- WinBuf.AggregateExactness: about slots that hold nothing as late as what is added; the allocator and a reset promise no such thing, and later contents can take an add's value (`WinBuf.LateContentsTakeAdd`).
- Kill reasons are an enumeration; the two reject codes that no branch returns are left out.
- NULL arguments, except the missing books and the missing portfolio that the code handles.
- Sockets, HTTP, feed parsers, logs, replay, dashboard, configuration, pricing and calibration heuristics: callers of the modelled parts, or without a crisp contract.
