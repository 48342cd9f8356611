# Aspira trading engine: a verified model

A Dafny model of the engine's matching, queueing, risk, persistence and allocation code, with
proofs of what every run of it keeps.

- **Order book.** `Orders.dfy` has the records, `FlatMatching.dfy` the matching rule as a greedy
  walk over one flattened queue and what that rule achieves, `BookSpec.dfy` every book operation
  as a function on two flat queues, `BookEffects.dfy` what single operations leave behind,
  `BookRuns.dfy` all runs of them with a ledger of every order, `TradeParties.dfy` who trades with
  whom over those runs. `Ladder.dfy` is the stored form (price levels, lists of node handles, id
  index) and `OrderBook.dfy` the object that updates it in place, each method equal to the flat
  operation.
- **Ring buffer.** `RingArithmetic.dfy` has the 32-bit arithmetic, `SpscRing.dfy` the abstract
  bounded queue, the interleaved steps of producer and consumer, and the ring as an object. A load
  of the other thread's index may return any value not older than the one seen before.
- **Event circulation.** `EventCirculation.dfy`: the free and filled rings between the hot path and
  the I/O thread.
- **Risk and pipeline.** `RiskEngine.dfy` and `Pipeline.dfy`: checks, bookings, rate limiter, and the
  hot path that drives book and risk engine together; `RiskLaws.dfy` and `PipelineLaws.dfy`: what is
  accepted, counted and booked; `NonPositivePrices.dfy`: where the limits fail.
  Rounding of floating-point results is an arbitrary monotone function that is exact at zero (section 4.3
  of IEEE 754-2019).
- **Journal.** `Bytes.dfy`, `Crc32.dfy`, `Journal.dfy`: the checksum of section 3.2.9 of IEEE 802.3, the
  record layout, the append path, and the reader that the format description implies.
- **Memory pool.** `MemoryPool.dfy`: the stack of free indices.
- `Modular.dfy` and `Options.dfy` hold shared helpers.

Prices are reals; ids and quantities are mathematical integers, with 32-bit limits stated where the
code depends on them. Clocks, the supply of free events and the rounding are inputs.

Where the code does not do what its documentation or comments say, the model follows the code:

- "Replay the journal from the beginning" recovers an existing log and everything appended to it exactly
  when the file was at least one extension unit long when it was opened
  (`Journal.JournalFile.ReplayFromStartIff`): a shorter file, and so every new one, is first padded with
  zeros, and the replay stops there (`Journal.PaddedReplayStops`). Reading from the offset at which the file
  was opened recovers everything appended.
- One extension of the mapped region is enough only for records of at most one unit
  (`Journal.OneExtensionSufficesIff`).
- Stopping the pipeline may leave events unprocessed (`EventCirculation.ShutdownCanLose`); exactly those
  pushed after the I/O thread has ended are lost (`EventCirculation.LostAtShutdownIff`).
- Of the pooled events offered to the free ring, one more than the ring can hold never circulates
  (`EventCirculation.Seed`).
- A limit order with a non-positive price skips the notional check but is booked at the mid price. Whatever
  the book, the limit is safe exactly for orders that have a positive price or buy
  (`NonPositivePrices.NotionalSafeIff`), and a run with negative market prices breaks it
  (`NonPositivePrices.NegativePricesBreakLimit`).
- Re-using the id of a resting order breaks the book's well-formedness in exactly the cases of
  `BookSpec.SubmitKeepsIff`.
- The mid price treats a price of zero as "no price" (`BookSpec.MidIsBetweenIff`).
- Rounding a capacity above 2^31 up to a power of two gives zero (`RingArithmetic.NextPowerOfTwo`).

## Model

| member | source | states |
|---|---|---|
| FlatMatching.GreedyInTurn | src/order_book.cpp:64-86 | trade i is with the i-th order in price-time order and every trade but the last completes its resting order |
| FlatMatching.TradeFields | src/order_book.cpp:22-48 | trade i records the buying order as buyer and the selling one as seller, whichever came in, the price of the resting order, which is within the limit of the incoming one, and consecutive ids |
| FlatMatching.GreedyResidue | src/order_book.cpp:79-92 | what matching leaves is the untouched tail of the queue, behind the one partly filled order if there is one, and then the incoming order is exhausted |
| FlatMatching.GreedyStops | src/order_book.cpp:54-60 | matching ends only when the incoming quantity, the queue or the limit price is exhausted, and never overfills |
| FlatMatching.GreedyConserves | src/order_book.cpp:67-77 | new trade volume equals the incoming order's fill and the opposite side's loss of open quantity |
| FlatMatching.GreedyIsWaterfall | src/order_book.cpp:50-144 | what each resting order gives up is a closed formula over the original queue: what is still wanted after everything ahead of it, capped by its own open quantity, if it crosses |
| FlatMatching.FilledQuantity | src/order_book.cpp:50-144 | the filled quantity is the smaller of what is wanted and the total crossing liquidity |
| FlatMatching.Exchange | src/order_book.cpp:50-144 | exchange argument: on ascending prices an allocation that is never behind another of the same total costs no more |
| FlatMatching.GreedyDominates | src/order_book.cpp:50-144 | the walk is never behind any feasible rival allocation |
| FlatMatching.BestExecution | src/order_book.cpp:50-144 | no feasible allocation executes more, and none of the same size costs a buyer less or earns a seller more than the trades made |
| BookSpec.Slot | src/order_book.cpp:169-175 | a new order queues behind exactly the orders whose price is at least as good |
| BookSpec.MatchKeeps | src/order_book.cpp:50-144 | matching keeps the book sorted, live, uncrossed and free of duplicate ids, and adds no id |
| BookSpec.ResidueDoesNotCross | src/order_book.cpp:162-175 | a limit order that comes to rest no longer crosses the best opposite price |
| BookSpec.StaysIff | src/order_book.cpp:161-162 | an order comes to rest exactly when it is a limit order for more than the liquidity that crosses it |
| BookSpec.SubmitKeepsIff | src/order_book.cpp:155-192 | adding an order keeps the book well formed exactly unless it comes to rest beside an order of the same id, on its own side or out of its reach |
| BookSpec.SubmitKeeps | src/order_book.cpp:155-192 | adding an order with an unused id keeps the book well formed, in particular never crossed or locked |
| BookSpec.CancelKeeps | src/order_book.cpp:201-238 | cancelling keeps the book well formed and leaves no order of that id |
| BookSpec.ModifyKeeps | src/order_book.cpp:240-262 | modifying keeps the book well formed, whether or not the new price crosses |
| BookSpec.FindIs | src/order_book.cpp:241-250 | a lookup by id finds the one order that has it |
| BookSpec.ResultStatus | src/order_book.cpp:136-141 | a fresh order comes back Filled, Partial or New exactly as it was filled completely, in part or not at all |
| BookSpec.SubmitStatuses | src/order_book.cpp:163-188 | after an add, resting orders are Partial exactly when something of them was filled |
| BookSpec.MidIsBetweenIff | src/order_book.cpp:294-299 | the mid of a two-sided book lies strictly between the best prices, equally far from both, exactly when neither is zero, and is zero otherwise |
| BookEffects.AddRests | src/order_book.cpp:155-192 | a limit order for more than crosses it rests as it came, with the crossing liquidity as additional fill, among the unchanged other orders of its side |
| BookEffects.MarketTakes | src/order_book.cpp:148-199 | a market order is filled with the smaller of what it wants and the whole opposite side, reports that in its status, and never rests |
| BookEffects.FilterInOrder | src/order_book.cpp:201-238 | removals keep the remaining orders in order |
| BookEffects.LevelGoes | src/order_book.cpp:374-398 | size zero removes exactly the orders at that price and side and leaves every other in place; any other size changes nothing |
| BookEffects.CancelTakes | src/order_book.cpp:201-238 | a cancel removes exactly the orders of that id and leaves every other in place |
| BookEffects.ModifyRests | src/order_book.cpp:240-262 | an order modified to a price that does not cross rests with the new price, the new quantity and a clean fill; nothing trades and nothing else changes |
| BookEffects.ModifyUnknown | src/order_book.cpp:241-246 | modifying an unknown id changes nothing and is answered with a rejection |
| BookEffects.BestPriceIsBest | src/order_book.cpp:266-290 | the best bid is the highest and the best ask the lowest resting price, zero if there is none |
| BookRuns.Survivor | src/order_book.cpp:67-85 | an order left after matching is one that was there, and gained exactly the volume of the trades naming it |
| BookRuns.Vanished | src/order_book.cpp:79-81 | an order removed by matching had exactly its open quantity traded in its name |
| BookRuns.IncomingVolume | src/order_book.cpp:64-86 | the incoming order's fill is the volume of the trades naming it, and nobody outside the opposite side is named |
| BookRuns.StepKeeps | src/order_book.cpp:155-262 | every operation keeps the book well formed, the trade history numbered 1, 2, 3, ..., and every resting order's fill equal to the volume traded in its name since it was submitted; the order an operation returns, at rest or not, is accounted for in the same way |
| BookRuns.SubmitStepKeeps | src/order_book.cpp:155-192 | an add keeps the ledger, and the returned order's fill is accounted for as well |
| BookRuns.AmendStepKeeps | src/order_book.cpp:240-262 | a modify is a new incarnation of the order with its own ledger |
| BookRuns.RunStatuses | src/order_book.cpp:83-84 | through every run, resting orders are Partial exactly when partly filled |
| BookRuns.HistoryGrows | src/order_book.cpp:25-46 | through every run the trade history only grows at its end |
| BookRuns.MatchLives | src/order_book.cpp:64-92 | a match leaves the lifetime volume of orders outside the book alone and brings that of every order it takes off the book to exactly its quantity |
| BookRuns.MoveLives | src/order_book.cpp:155-398 | the same for every operation and every order it does not submit; cancels and level updates trade nothing |
| BookRuns.ReturnedFill | src/order_book.cpp:136-199 | a submitted order comes back filled no further than its quantity, unless it came in that way |
| BookRuns.StepLedger | src/order_book.cpp:155-398 | every operation keeps the ledger of every order ever submitted: lifetime volume at most its quantity, equal exactly when the order was filled completely |
| BookRuns.StepFreezes | src/order_book.cpp:155-398 | once an order has left the book, only a new submission of its id changes its birth, lifetime volume or fate |
| BookRuns.GoneForGood | src/order_book.cpp:155-398 | over every run, the ledger of an order that has left the book stays as it is until its id is used again |
| BookRuns.EveryRun | src/order_book.cpp:155-398 | every run from an empty book: never crossed or locked, trades numbered without gap, resting fills equal to traded volume, and for every order submitted in the run (resting, completed, cancelled, market or removed with its level) traded volume never beyond its quantity and equal to it exactly when filled completely |
| TradeParties.MatchBacked | src/order_book.cpp:64-128 | both parties of every trade of a match were submitted on their own sides, at limits the price respects |
| TradeParties.EveryTradeIsBacked | src/order_book.cpp:22-262 | over every run each trade has as buyer an order submitted to buy and as seller one submitted to sell, and its price is within the limits of both |
| Ladder.IndexAgrees | src/order_book.cpp:178-181 | an id is in the index exactly when an order with that id rests on one of the sides |
| Ladder.HandleAtItsLevel | src/order_book.cpp:208-225 | a listed handle is an entry of the level that its order's price names, which is what makes erasing by stored iterator correct |
| Ladder.EraseFront | src/order_book.cpp:79-81 | erasing a filled order from list, store and index keeps the structure linked and drops the front of the flat queue |
| Ladder.DentFront | src/order_book.cpp:71-84 | filling the front order in part keeps the structure linked and changes only the front of the flat queue |
| Ladder.PlaceLinked | src/order_book.cpp:167-181 | appending to a level, creating it if needed, keeps the structure linked and inserts into the flat queue at its price-time place |
| Ladder.UnlinkLinked | src/order_book.cpp:211-236 | erasing through the index, with the level if it empties, equals filtering both flat queues by id |
| Ladder.DropLinked | src/order_book.cpp:374-394 | removing a level and its index entries equals filtering the flat queue by price |
| MatchingEngine.PairStep | src/order_book.cpp:64-86 | one pass of the inner loop is one step of the flat walk |
| MatchingEngine.OrderBook.constructor | src/order_book.cpp:13-19 | a new book is empty and numbers its first trade 1 |
| MatchingEngine.OrderBook.Pair | src/order_book.cpp:65-85 | one pairing fills both orders by the smaller open quantity, records one trade, and removes the resting order from store and index exactly when that completes it |
| MatchingEngine.OrderBook.GenerateTrade | src/order_book.cpp:25-46 | a trade takes the next id and goes to the end of the active buffer |
| MatchingEngine.OrderBook.MatchLevel | src/order_book.cpp:62-86 | the inner loop terminates having emptied the level or the order, and what is left to do is the rest of the flat walk |
| MatchingEngine.OrderBook.MatchLadder | src/order_book.cpp:53-93 | the nested loops terminate with exactly the trades, residual queue and order of the flat walk |
| MatchingEngine.OrderBook.MatchLimitOrder | src/order_book.cpp:50-144 | matching on the stored structure equals matching on the flat book, and keeps the object valid |
| MatchingEngine.OrderBook.AddOrder | src/order_book.cpp:155-192 | equals the flat add for an unused id |
| MatchingEngine.OrderBook.AddMarketOrder | src/order_book.cpp:148-199 | equals the flat match without a limit; nothing comes to rest |
| MatchingEngine.OrderBook.CancelOrder | src/order_book.cpp:201-238 | reports whether the id was resting and equals filtering by id |
| MatchingEngine.OrderBook.ModifyOrder | src/order_book.cpp:240-262 | equals cancel and re-submission with a clean fill, or a rejection if the id is unknown |
| MatchingEngine.OrderBook.UpdateLevel | src/order_book.cpp:374-398 | size zero removes the level and its index entries, any other size changes nothing |
| MatchingEngine.OrderBook.UnindexAll | src/order_book.cpp:380-382 | forgets exactly the ids of the level's orders |
| MatchingEngine.OrderBook.DrainTrades | src/order_book.cpp:324-336 | hands over the active buffer exactly once; the other buffer is empty between operations |
| MatchingEngine.OrderBook.GetMidPrice | src/order_book.cpp:266-299 | the mid read from the level maps is that of the flat book |
| MatchingEngine.OrderBook.IndexAgreement | include/order_book.h:140-143 | in every valid state an id is indexed exactly when it rests, and its handle leads to an open order in the right level |
| MatchingEngine.OrderBook.Execute | src/order_book.cpp:155-398 | every run on the object equals the run on the flat book |
| RingArithmetic.PowerOfTwoTest | src/ring_buffer.c:12-14 | the subtract-and-mask test holds exactly for powers of two |
| RingArithmetic.MaskIsMod | include/ring_buffer.h:71 | masking with a power of two less one is the remainder |
| RingArithmetic.SmearStep | src/ring_buffer.c:20-24 | one or-with-shift step doubles the number of set leading bits |
| RingArithmetic.NextPowerOfTwo | src/ring_buffer.c:17-26 | the least power of two not below n for n up to 2^31, one for zero, and zero above |
| RingArithmetic.CountIsDistance | src/ring_buffer.c:55-62 | the masked 32-bit index difference is the distance of the two counters |
| SpscRing.FullIff | include/ring_buffer.h:71-74 | the full test holds exactly when, by the tail seen, all slots but one are in use |
| SpscRing.EmptyIff | include/ring_buffer.h:94-96 | the empty test holds exactly when, by the head seen, everything has been popped |
| SpscRing.StepKeeps | include/ring_buffer.h:65-103 | every atomic step of either thread, with any admissible stale load, keeps the ring invariant |
| SpscRing.EveryRun | include/ring_buffer.h:65-103 | under every interleaving the popped items are a prefix of the pushed ones and at most capacity - 1 are in between |
| SpscRing.Linearizes | include/ring_buffer.h:65-103 | publishing a head is a push that fits, publishing a tail is a pop of the oldest item, every other step leaves the queue alone |
| SpscRing.RefusalMeansFull | include/ring_buffer.h:68-74 | a full queue is always refused, and with a current tail only a full queue is |
| SpscRing.RefusalMeansEmpty | include/ring_buffer.h:91-96 | an empty queue is always reported, and with a current head only an empty queue is |
| SpscRing.NoOverwrite | include/ring_buffer.h:76 | writing a slot leaves every unread item in place |
| SpscRing.NoRace | include/ring_buffer.h:76-98 | the slot about to be written is never the slot about to be read |
| SpscRing.CountIsLength | src/ring_buffer.c:55-62 | the count query gives the queue length in every reachable state |
| SpscRing.FullQuery | src/ring_buffer.c:64-76 | the empty and full queries hold exactly for an empty and a full queue |
| RingObject.RingBuffer.constructor | src/ring_buffer.c:28-45 | a new ring is empty and its capacity is the least power of two not below the request |
| RingObject.RingBuffer.Push | include/ring_buffer.h:65-81 | an undisturbed push appends, or is refused exactly when the queue is full |
| RingObject.RingBuffer.Pop | include/ring_buffer.h:88-103 | an undisturbed pop takes the oldest item, or nothing exactly when the queue is empty |
| RingObject.RingBuffer.GetCount | src/ring_buffer.c:55-62 | the count is the queue length |
| EventCirculation.Seed | src/event_pipeline.cpp:167-174 | offering a pool of events to the free ring leaves the first ones in order, as many as fit |
| EventCirculation.StepPlaces | src/event_pipeline.cpp:300-319 | no step of either thread makes an event appear, disappear or be in two places |
| EventCirculation.HandNotInFlight | src/event_pipeline.cpp:253-269 | the event being filled in is neither queued nor being processed |
| EventCirculation.StepKeeps | src/event_pipeline.cpp:493-526 | every step keeps ownership, contents in flight and counters |
| EventCirculation.EveryRun | src/event_pipeline.cpp:172-526 | in every state each circulating event is in exactly one place, no unchecked push has failed, processed contents are a prefix of those written, and every attempt was written, dropped or is in hand |
| EventCirculation.ProcessedIsFilledIn | src/event_pipeline.cpp:253-510 | in every run the processed contents are, in order, the first ones that the hot path filled in |
| EventCirculation.DropsAreStarvation | src/event_pipeline.cpp:300-322 | over every run, attempts are dropped exactly when all circulating events wait for the I/O thread, are in its hand or are retired |
| EventCirculation.SupplyOverRuns | src/event_pipeline.cpp:493-526 | in every run no event is retired before the I/O thread drains, let alone while running, so that until then every event is free, filled or in a hand and only a fully used supply drops |
| EventCirculation.IoCatchesUp | src/event_pipeline.cpp:496-503 | from every state in which it polls, the I/O thread alone works off everything handed over, in order, and unless draining all those events are free again |
| EventCirculation.LostAtShutdownIff | src/event_pipeline.cpp:519-582 | in every run that ends with both threads done, as many contents are lost as were pushed after the I/O thread ended, and none exactly when there was no such push |
| EventCirculation.ShutdownCanLose | src/event_pipeline.cpp:519-582 | a run in which the I/O thread ends before the last push |
| RiskSpec.NotionalBooked | src/risk_engine.cpp:90-107 | for a positive price, booking any part of a checked order keeps the notional limit under every monotone rounding |
| RiskSpec.FillKeepsLimits | src/risk_engine.cpp:140-190 | booking any part of an order that passed keeps position, exposure and notional limits |
| RiskSpec.NoOverflow | src/risk_engine.cpp:60-80 | the sums of one validation and booking fit 32 bits when the limits leave room for one order |
| RiskSpec.PriceBandMeans | src/risk_engine.cpp:109-125 | without rounding, the band check admits exactly the prices within the percentage of the mid |
| RiskSpec.ApplyRate | src/risk_engine.cpp:29-39 | each validation uses up what the rate window admits, and a new second renews it |
| RiskSpec.OneSecond | src/risk_engine.cpp:127-171 | in one clock second no more orders are accepted than the window still admits |
| RiskSpec.RateLimited | src/risk_engine.cpp:127-171 | with a clock that does not run backwards, at most k times the limit is accepted in any k consecutive seconds |
| RiskSpec.EveryRun | src/risk_engine.cpp:140-190 | every run of validations and bookings keeps every limit on every symbol |
| RiskSpec.NeverOverflows | src/risk_engine.cpp:56-88 | no 32-bit sum or absolute value of any run overflows |
| RiskLaws.Decision | src/risk_engine.cpp:41-171 | a killed engine accepts nothing and a disabled one everything; otherwise an order passes exactly when the second has room and size, position, exposure, notional and price band inequalities hold, and only accepted orders count |
| RiskLaws.DecisionExact | src/risk_engine.cpp:41-171 | the same in plain arithmetic for priced limit orders |
| RiskLaws.AllowanceAfter | src/risk_engine.cpp:29-39 | after any run, a second still admits its allowance less the eligible calls it has seen |
| RiskLaws.FirstServed | src/risk_engine.cpp:127-171 | in every run a call is accepted exactly when it meets all other conditions and fewer such calls came before it in its second than the second admits |
| RiskLaws.KillSwitchHolds | src/risk_engine.cpp:140-147 | once thrown, the kill switch keeps every order out until released, and the release leaves the engine as it was |
| RiskLaws.NotionalIsFills | src/risk_engine.cpp:177-190 | over every run, without rounding, the notional record of a symbol is the sum of price times quantity of all its accepted fills, bought or sold |
| RiskLaws.NeverLowersIff | src/risk_engine.cpp:189 | with a monotone rounding, no fill at a positive price lowers the record exactly when rounding the record does not |
| RiskLaws.MonotoneIsNotEnough | src/risk_engine.cpp:189 | a monotone rounding under which a positive fill lowers the record |
| RiskLaws.NotionalNeverFalls | src/risk_engine.cpp:189 | over every run of fills at positive prices, with a monotone and idempotent rounding, no notional record decreases |
| RiskControl.RiskEngine.constructor | src/risk_engine.cpp:13-23 | a new engine has no positions and an empty rate window, and is not killed |
| RiskControl.RiskEngine.Validate | src/risk_engine.cpp:140-171 | the early-exit checks decide as the conjunction of all six, and count only accepted orders |
| RiskControl.RiskEngine.UpdateRateWindow | src/risk_engine.cpp:29-39 | the window moves and the count restarts exactly when the second changes |
| RiskControl.RiskEngine.OnOrderExecuted | src/risk_engine.cpp:177-190 | books the fill on the order's symbol and nothing else |
| RiskControl.RiskEngine.ResetAll | src/risk_engine.cpp:214-219 | clears positions, rate window and kill switch, and keeps the limits |
| RiskControl.RiskEngine.KillSwitch | src/risk_engine.cpp:221-223 | changes the kill switch only |
| PipelineSpec.FillIsVolume | src/event_pipeline.cpp:277-326 | the fill returned for a fresh order is the volume of the trades drained after it |
| PipelineSpec.HandleKeeps | src/event_pipeline.cpp:243-351 | handling one order keeps the counters balanced, the book ready, and booked exposure and position equal to the gross and signed traded quantity |
| PipelineSpec.EveryRun | src/event_pipeline.cpp:226-351 | over any messages: created = 2 x messages = accepted + rejected, pushed + dropped = accepted + rejected + trades, and exposure and position of a symbol are the gross and signed quantity of all trades its orders caused |
| PipelineSpec.QuotesInsideSpread | src/event_pipeline.cpp:191-219 | without rounding, the buy and the sell of a message, for 100 each, lie inside the spread, a tenth of it below and above the mid |
| PipelineSpec.QuotesNotCrossed | src/event_pipeline.cpp:191-219 | under every monotone rounding the quotes of an uncrossed market do not cross |
| PipelineSpec.QuotePositive | src/event_pipeline.cpp:191-219 | positive market prices give positive quotes under every rounding of at most one percent relative error |
| PipelineSpec.LimitsHold | src/event_pipeline.cpp:243-351 | with positive quotes and under every monotone rounding, every run of the pipeline keeps every risk limit |
| PipelineSpec.PositiveMarketsKeepLimits | src/event_pipeline.cpp:191-351 | with positive market prices and an accurate monotone rounding, every run keeps every risk limit |
| PipelineSpec.NeverOverflows | src/event_pipeline.cpp:243-351 | with positive quotes and limits that leave room for one order, no 32-bit sum or absolute value of the checks and bookings overflows in any run |
| PipelineLaws.HandleDecides | src/event_pipeline.cpp:243-275 | an order that passes counts as accepted; one that does not counts as rejected and leaves book, positions and tape alone |
| PipelineLaws.HandleBooks | src/event_pipeline.cpp:347-350 | handling an order at a positive price adds its price times its fill to the notional record of its symbol, without rounding |
| PipelineLaws.RunDecides | src/event_pipeline.cpp:226-351 | over every run the accepted counter counts exactly the orders that passed in the state they met, and the rejected counter the others |
| PipelineLaws.RunBooks | src/event_pipeline.cpp:226-351 | over every run with positive quotes, without rounding, the notional record of a symbol is the sum of limit price times filled quantity over its accepted orders of both sides |
| PipelineLaws.RunIsCalls | src/event_pipeline.cpp:243-350 | a run of the pipeline is a run of validations and bookings of its risk engine |
| PipelineLaws.RateHolds | src/event_pipeline.cpp:243-275 | with a clock that does not run backwards the pipeline accepts at most k times the limit in any k consecutive seconds |
| PipelineLaws.RunSupplied | src/event_pipeline.cpp:300-322 | over every run events are pushed exactly at the attempts that find a free one, and the others are counted as dropped |
| PipelineLaws.RunInBand | src/event_pipeline.cpp:243-258 | over every run, without rounding, no order is accepted outside the price band around the mid it met |
| NonPositivePrices.CheapBuyLowMid | src/event_pipeline.cpp:248-350 | a buy at a non-positive price trades only when the mid is not positive either |
| NonPositivePrices.NotionalSafeIff | src/event_pipeline.cpp:243-351 | handling an admitted limit order keeps the notional limit on every well-formed book exactly when its price is positive or it buys |
| NonPositivePrices.NegativePricesBreakLimit | src/event_pipeline.cpp:191-351 | four messages, two of them with negative prices, take the notional record from zero to 2000 under a limit of 1100 |
| HotPath.EventPipeline.constructor | src/event_pipeline.cpp:93-116 | a new pipeline has an empty book, a fresh risk engine and zero counters |
| HotPath.EventPipeline.StrategyOnMarketData | src/event_pipeline.cpp:186-222 | writes a buy and a sell of 100 around the mid, a tenth of the spread away, under the next two ids |
| HotPath.EventPipeline.EmitEvent | src/event_pipeline.cpp:300-322 | an event is pushed if a free one is available, and counted as dropped otherwise |
| HotPath.EventPipeline.EmitTradeEvents | src/event_pipeline.cpp:326-344 | counts every trade and makes one attempt for each |
| HotPath.EventPipeline.HandleOrder | src/event_pipeline.cpp:243-275 | validates against the book's mid and rejects or accepts, equal to the specification |
| HotPath.EventPipeline.AcceptOrder | src/event_pipeline.cpp:275-350 | submits, reports, drains and books only the incoming order's fill |
| HotPath.EventPipeline.ProcessMarketData | src/event_pipeline.cpp:226-351 | both orders of a message are handled in turn |
| HotPath.EventPipeline.ProcessAll | src/event_pipeline.cpp:452-483 | a session on the object keeps the accounting and, with positive quotes, every risk limit |
| Crc32.RegisterIsRemainder | src/journal.c:43-53 | the reflected register is the mirror image of the remainder of long division by the generator polynomial |
| Crc32.RegisterStep | src/journal.c:56-63 | feeding a byte is feeding its eight bits, least significant first |
| Crc32.TableStep | src/journal.c:60 | folding in the table entry of the low byte equals eight shifts of the register |
| Crc32.RegisterConcat | src/journal.c:165-170 | header-then-payload computation gives the register of the concatenation |
| Crc32.RegisterInjective | src/journal.c:59-61 | different registers stay different over the same data |
| Crc32.FourBytes | src/journal.c:59-61 | four bytes act as one word added to the register before 32 shifts |
| Crc32.DetectsBurst | src/journal.c:165-171 | replacing up to four consecutive bytes by different ones changes the checksum |
| Crc32.DetectsLocalChange | src/journal.c:165-171 | two different records of equal length that differ only within four consecutive bytes have different checksums |
| Crc32.ChecksumIsRemainder | src/journal.c:165-171 | the checksum of any byte string is, bit-reversed, the complement of the remainder of dividing its bits by the generator from a start of all ones |
| Crc32.LeadingZeroShows | src/journal.c:167-171 | a zero byte in front of any byte string changes register and checksum |
| Crc32.CheckValue | src/journal.c:43-63 | the checksum of the digits 1 to 9 is 0xCBF43926 |
| Crc32.Crc.Init | src/journal.c:43-53 | the table holds eight shifts of every byte value, and is built once |
| Crc32.Crc.Update | src/journal.c:56-63 | the table-driven loop computes the bit-at-a-time register on every byte string |
| Journal.NumberRoundTrip | include/journal.h:36-43 | a number that fits its field is read back from its little-endian bytes |
| Journal.BytesRoundTrip | include/journal.h:36-43 | the bytes of a field are the encoding of the number they hold |
| Journal.LittleEndian | include/journal.h:36-43 | byte i of a field is its i-th digit to the base 256, lowest first |
| Journal.Layout | include/journal.h:36-43 | the header fields of a record stand at their offsets, with payload and what follows behind them |
| Journal.StoredChecksum | src/journal.c:165-171 | the checksum field holds the checksum of the record's own bytes with that field zero |
| Journal.RecordRoundTrip | include/journal.h:32-43 | a record is read back from its bytes, whatever follows it, with its checksum found valid |
| Journal.ReaderIsSound | include/journal.h:32-43 | whatever bytes the reader accepts are exactly those of the record it returns, followed by the rest |
| Journal.LogRoundTrip | include/journal.h:7-8 | a log is read back record by record, and reading goes on with whatever follows it |
| Journal.ReplayIsPrefix | include/journal.h:7-8 | the records of a replay stand at the beginning of the bytes replayed |
| Journal.CorruptionDetected | src/journal.c:165-171 | a stored record that was altered within four consecutive bytes, anywhere outside its size and checksum fields, is rejected by the reader |
| Journal.OneExtensionSufficesIff | src/journal.c:177-194 | one extension makes enough room in every state of an open journal exactly for records of at most one unit, header included |
| Journal.PaddedReplayIff | src/journal.c:94-116 | a replay of an old log, padding of any length and a new non-empty log gives both logs exactly when the padding is empty |
| Journal.PaddedReplayStops | src/journal.c:94-116 | behind twelve or more bytes of padding nothing is recovered, whatever was appended |
| Journal.Build | src/journal.c:156-171 | the bytes put together with the two-pass checksum are the record's bytes |
| Journal.JournalFile.constructor | src/journal.c:94-116 | opening keeps the file's bytes and starts writing at its grown size |
| Journal.JournalFile.Append | src/journal.c:152-214 | appends one record with the next sequence number, grows the region by at most one unit, stays within it, and alters no earlier byte |
| Journal.JournalFile.Replays | src/journal.c:196-212 | in every state, reading from the offset at open gives exactly the records appended |
| Journal.JournalFile.ReplayFromStartIff | src/journal.c:94-212 | in every state after an append to a file that held a log, reading from byte zero gives that log and all records appended exactly when the file was at least one unit long at open |
| MemoryPool.AllocKeeps | include/memory_pool.h:62-81 | allocation keeps the partition, fails exactly when everything is out, and never hands out an index twice |
| MemoryPool.FreeKeeps | include/memory_pool.h:92-112 | returning an object that is out is never discarded and keeps the partition |
| MemoryPool.FreeKeepsIff | include/memory_pool.h:93-111 | a free keeps the pool sound exactly when the object is out, the index is foreign, or nothing is out |
| MemoryPool.ReturnedGoesNext | include/memory_pool.h:62-112 | an object that is returned is the next one handed out |
| MemoryPool.FreeUndoesAlloc | include/memory_pool.h:62-112 | returning an object just handed out restores the pool |
| MemoryPool.HandsOutInOrder | src/memory_pool.c:36-47 | a new pool hands out its objects in order |
| MemoryPool.EveryRun | include/memory_pool.h:62-112 | in every run that frees only what is out, free and allocated indices partition the pool |
| MemoryPool.OffsetRoundTrip | include/memory_pool.h:80-94 | the offset handed out frees the same index again |
| MemoryPool.MemPool.constructor | src/memory_pool.c:19-47 | a new pool holds every index once, in reverse order |
| MemoryPool.MemPool.Allocate | include/memory_pool.h:62-81 | pops the top index, or leaves the pool unchanged when it is empty |
| MemoryPool.MemPool.Release | include/memory_pool.h:92-112 | pushes the index, ignoring foreign offsets and a full stack |

## Left out

- Weak-memory effects beyond stale index loads (data races on slots under the C11 rules, fences).
- Interleavings of pool allocation and release inside one call; each call is atomic.
- The threads of the circulation run whole ring calls as single steps, on the bounded queue that the ring implements.
- Circulation steps are values, not an object updated in place.
- RingObject.RingBuffer.constructor: a request of zero (an error in the code) or above 2^31 (which rounds to zero) is outside its precondition.
- MemoryPool.MemPool.constructor: zero object size or capacity and failed allocations, which the code reports as errors, are outside its precondition.
- Journal.JournalFile.Append: failed extensions, a null payload with a non-zero size, and records longer than one extension allows for (the code then writes out of bounds) are outside its precondition.
- The journal's plain-file mode, syncing and closing, and the field layout of order and trade payloads.
- The sequence number restarts at zero whenever a journal is opened; continuity across sessions is not claimed.
- MatchingEngine.OrderBook.GenerateTrade: a trade's timestamp and symbol are not modelled.
- MatchingEngine.OrderBook.AddOrder: an id that is already resting, which the code accepts and overwrites in its index, is outside its precondition; what it does to the two queues is in BookSpec.SubmitKeepsIff.
- 32-bit wrap of order and trade ids, and NaN prices.
- PipelineSpec.QuotesInsideSpread: stated without rounding; rounding may move a quote onto the mid or the market price.
- MatchingEngine.OrderBook.GetMidPrice: the mid of the book is computed without rounding.
- PipelineLaws.RunBooks: stated without rounding; with rounding only monotonicity is claimed (RiskLaws.NotionalNeverFalls).
- PipelineLaws.RunInBand: stated without rounding.
- NonPositivePrices.NotionalSafeIff: stated without rounding; market orders are not submitted by the pipeline and are not covered.
- HotPath.EventPipeline.EmitEvent: the fields copied into an event, gateway serialization and its counter are not modelled.
- Symbols are whole strings; the risk engine's keys keep only their first 16 bytes.
- Level sizes and depth queries of the book, reject reasons, latency averages.
- Feed handler, logger, execution gateway, main program and scripts.
