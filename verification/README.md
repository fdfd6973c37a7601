# Verification model of rtex

A Dafny model of three parts of the trading system, with proofs about all their inputs, runs and interleavings.

**The circular arbitrage strategy** (`Reals`, `SymbolFilter`, `Market`, `PathSearch`, `PathProperties`, `Evaluation`,
`NoArbitrage`, `Wallets`, `CircularArb`, `Selection`, `StrategyRuns`, `SelectionExample`). The search enumerates chains of
orders that leave a starting asset and come back to it; an evaluation folds a balance through one chain, rounding to the
exchange's lot grid and paying a fee on each leg; each market data update re-evaluates the chains through its symbol. The
loops are methods proved against functions, the strategy is a class over one array of orders per path, and the main results
are about those functions: the enumeration is exact and depth first; the result of an evaluation is bounded on both sides by
the product of the rates and is monotone in every quote; prices consistent up to the fee never signal; the signals of a run
can be executed one after another on one wallet; incremental evaluation agrees with evaluating afresh, over every run of updates.

**The websocket protocols** (`Broker`, `Chunking`, `Feeder`, `FeederRuns`, `StreamsClient`, `StreamsClientRuns`). The
classes have one method per region that runs under a lock (or, where the program takes no lock, per access to the shared
set), and the step systems beside them interleave those regions with socket writes, deliveries and waiting callers. The
invariants hold after every sequence of enabled steps, of any length.

`Authentication::logIn` still throws before a login request is sent (src/bnb/utils/BNBRequests/Authentication.cpp:5-8), so
the program never assigns the broker's login id: every answer with an id is stored, errors included
(`Brokers.EveryAnswerIsStored`). The theorems about the login answer describe `BNBBroker` as it stands once `logIn` returns
a request. An answer that overtakes the assignment of the id would then be stored even if it is an error
(`Brokers.LoginErrorStored`, `Brokers.BadLoginStoredIff`).

**The recorder** (`Recorder`, `EndToEnd`) at the consuming end of the feeder's queue, and **the signed payload** (`Payload`).

Amounts and prices are exact reals, and quoted asks are positive. A maximum of 0 means "no maximum", as the program reads it.

## Where the code does not do what it seems meant to

The model follows the code. Each of these has a concrete input or run, and the exact condition under which the intent holds.

- The selection loop compares with a `maxPnl` that it never updates, so it returns the last profitable path: on the first update
  of a newly constructed strategy it can return a worse signal than another (`SelectionExample.LoopCanMissTheBest`). The signal
  of an update is a greatest one exactly when no touched, quoted path returns more on the new book than the last of those that
  return more than the balance (`StrategyRuns.UpdateReturnsGreatestIff`).
- `roundQty` computes a minimum and drops it, and takes the larger of two steps, so an order of a signal can be refused by the
  exchange's lot filters (`SelectionExample.SignalCanBeBelowMinimum`). It meets them exactly when the amount arriving at its leg
  reaches the minimum rounded up, and the quantity or the maximum that cuts it is on both grids (`Wallets.FilledSizes`,
  `SymbolFilters.RoundQtyMeetsFiltersIff`).
- A maximum quantity that is not a whole number of lots makes `roundQty` return a quantity that `validateQuantity` rejects
  (`SymbolFilters.RoundQtyCanLeaveTheGrid`, `SymbolFilters.RoundQtyAcceptedIff`). `validatePrice` accepts an off-grid
  minimum price (`SymbolFilters.OffGridMinimumIsValid`, `SymbolFilters.ValidatePriceIff`).
- A symbol that quotes an asset in itself can only be sold, so paths through it have no reverse
  (`PathProperties.SelfQuoteHasNoReverse`, `PathProperties.PathsClosedUnderReversal`).
- `getResponseForId` turns a caller away once the answer is stored (`Brokers.AnswerLost`, `Brokers.EarlyAnswerIsLostIff`);
  with the check widened to stored answers no caller is lost (`Brokers.WidenedCheckServesAll`).
- The feeder, and the streams client, write a request before they insert its id, without a lock; an answer that arrives in between
  leaves the id pending (`FeederRuns.ConfirmationMissed`, `FeederRuns.PendingIsUnconfirmedIff`, `StreamsClientRuns.AnswerMissed`,
  `StreamsClientRuns.PendingIsUnansweredIff`).
- The feeder returns early on an error reply, which leaves the id pending unless the exchange later confirms it all the same
  (`FeederRuns.RejectedStaysPending`, `FeederRuns.StaysPending`); pending is sent minus answered exactly when there is no
  such id and none was missed (`FeederRuns.PendingIsUnansweredIff`).
- A maximum below 4 makes chunks of size 0 and the subscription loop endless (`Chunking.ZeroChunksNeverStop`,
  `Feeders.SubscribableIff`).
- A request that already carries a `signature` keeps it, and is then not signed over its final parameters
  (`Payloads.OldSignatureIsSent`, `Payloads.SigningCoversIff`).

## Model

| member | source | states |
|---|---|---|
| SymbolFilters.RoundToNearestIsNeighbour | src/bnb/utils/SymbolFilter.cpp:6-11 | for a non-negative value rounding down gives the greatest whole number of steps not above it, rounding up the least not below it, and rounding down loses less than one step |
| SymbolFilters.RoundToNearestOfNegative | src/bnb/utils/SymbolFilter.cpp:6-11 | below zero rounding down moves toward zero, and rounding up ends one step above that unless the value is on the grid |
| SymbolFilters.RoundingIs | src/bnb/utils/SymbolFilter.cpp:24-51 | quantities and prices, rounded in either direction, are the neighbour on the grid brought into the filter's range |
| SymbolFilters.RoundQtyIsGreatestLot | src/bnb/utils/SymbolFilter.cpp:35-51 | with no maximum, or one on the grid, the rounded quantity is the greatest lot multiple not above the quantity and the maximum, and rounding it again changes nothing |
| SymbolFilters.RoundQtyIsGreatestOnBothGrids | src/bnb/utils/SymbolFilter.cpp:35-51 | if one step is a whole number of the other and a maximum is on both grids, the rounded quantity is the greatest on the lot grid and on the market lot grid that is not above the quantity or either maximum |
| SymbolFilters.RoundQtyMonotone | src/bnb/utils/SymbolFilter.cpp:35-51 | a larger quantity never rounds to less |
| SymbolFilters.RoundQtyBounds | src/bnb/utils/SymbolFilter.cpp:35-51 | the rounded quantity stays in range, never exceeds the quantity, and falls short by less than a lot unless the maximum cuts it |
| SymbolFilters.RoundQtyAcceptedIff | src/bnb/utils/SymbolFilter.cpp:35-59 | the rounded quantity is accepted by validateQuantity exactly when the maximum did not cut it or is itself a whole number of lots |
| SymbolFilters.RoundQtyCanLeaveTheGrid | src/bnb/utils/SymbolFilter.cpp:35-59 | a filter and a quantity for which it is not accepted |
| SymbolFilters.RoundQtyOnBothGridsIff | src/bnb/utils/SymbolFilter.cpp:35-51 | all rounded quantities lie on the lot grid and the market lot grid exactly when a maximum, if any, is on both, and one step is a whole number of the other unless the maximum is below one combined step |
| SymbolFilters.RoundQtyMeetsFiltersIff | src/bnb/utils/SymbolFilter.cpp:35-51 | a rounded quantity meets both lot filters of the exchange, minimum included, exactly when the quantity reaches the minimum rounded up, the minimum is not above the maximum, and what is sent is on both grids; if one step divides the other, the last part says that the maximum does not cut or is on both grids |
| SymbolFilters.ValidateQuantityIff | src/bnb/utils/SymbolFilter.cpp:57-59 | a quantity is valid exactly when it is not negative, not above either maximum given, and a whole number of the larger step |
| SymbolFilters.ValidatePriceIff | src/bnb/utils/SymbolFilter.cpp:53-55 | a price is valid exactly when it is in range and on the tick grid, or is the minimum price |
| SymbolFilters.OffGridMinimumIsValid | src/bnb/utils/SymbolFilter.cpp:53-55 | an off-grid minimum price that is accepted |
| PathSearch.GetPossibleOrders | src/strategies/CircularArb.cpp:102-112 | the loop returns, in list order, a sell where the coin is the base and a buy where it is only the quote |
| PathSearch.PushExtensions | src/strategies/CircularArb.cpp:126-144 | one path is extended by every next order on an unused symbol, keeping only closing ones in the last round |
| PathSearch.NextLevel | src/strategies/CircularArb.cpp:124-146 | one round of the outer loop extends every path, in order |
| PathSearch.ComputeArbitragePaths | src/strategies/CircularArb.cpp:115-150 | for any depth from 2 the loops return the depth-first list of paths, whose members are exactly the cycles of that length |
| PathSearch.LevelIsExact | src/strategies/CircularArb.cpp:117-147 | after r rounds the paths are exactly the chains of r+1 linked, fresh orders on pairwise different symbols, selling bases and buying otherwise, and after the last round exactly those that return to the start |
| PathSearch.PathsAreRoundTrips | src/strategies/CircularArb.cpp:102-150 | for any depth from 2 the returned paths are exactly those that lead the starting asset from coin to coin and back, by size-less market orders that sell a base or else buy with a quote, no two on the same pair of assets |
| PathSearch.LevelsAreDepthFirst | src/strategies/CircularArb.cpp:117-147 | the level-by-level loops list the same paths in the same order as a recursive depth-first search |
| PathProperties.LevelNoDup | src/strategies/CircularArb.cpp:115-150 | no path is listed twice if no symbol is |
| PathProperties.DeterminedBySymbols | src/strategies/CircularArb.cpp:126-144 | two chains over the same symbols are the same path |
| PathProperties.LevelCount | src/strategies/CircularArb.cpp:115-150 | at most n(n-1)...(n-d+1) paths of depth d over n symbols |
| PathProperties.PathsClosedUnderReversal | src/strategies/CircularArb.cpp:102-150 | the reverse of a returned path, with ways flipped, is returned too exactly when no symbol on it quotes an asset in itself |
| PathProperties.SelfQuoteHasNoReverse | src/strategies/CircularArb.cpp:102-150 | a returned path through a symbol that quotes an asset in itself, whose reverse is not returned |
| Evaluation.EvalIsFlow | src/strategies/CircularArb.cpp:165-218 | an evaluation over an unquoted symbol has no result; over quoted symbols its result is the amount carried through all legs, and it has none only if that amount is 0 |
| Evaluation.EvalStopsAt | src/strategies/CircularArb.cpp:169-218 | the evaluation completes the legs before the first that has no quote or nothing to send, prices and sizes exactly those from the amount that arrives, leaves the other orders alone, and has a result only if all legs are completed |
| Evaluation.SignalIff | src/strategies/CircularArb.cpp:220-229 | a path signals exactly when all its symbols are quoted and more than the balance comes back; the signal carries the evaluated orders, the description of the path, and the difference as pnl |
| Evaluation.LegPaysFee | src/strategies/CircularArb.cpp:188-215 | a leg keeps 999 parts in 1000 of what it brings: the rounded amount at the bid, or the rounded quantity that the amount buys at the ask |
| Market.DescribeAppends | src/strategies/CircularArb.cpp:157-161 | a description lists way@name of every order, with one space between two |
| Evaluation.FlowMonotone | src/strategies/CircularArb.cpp:167-216 | the resulting amount grows with the balance and every bid and falls with every ask, through rounding, clamps and fees |
| Evaluation.SignalPersists | src/strategies/CircularArb.cpp:153-229 | a signal survives any improvement of its quotes, with at least the same pnl |
| Evaluation.FlowAtMostProduct | src/strategies/CircularArb.cpp:167-216 | the result never exceeds the balance times the product over the legs of rate and fee |
| Evaluation.FlowAtLeastProduct | src/strategies/CircularArb.cpp:167-216 | unless a maximum cuts a leg, it is at least that product minus one lot per leg carried through the later rates and fees |
| Evaluation.SignalNeedsProduct | src/strategies/CircularArb.cpp:153-229 | a signal implies that the product of rates and fees exceeds 1, and bounds the pnl |
| Evaluation.ProductForcesSignal | src/strategies/CircularArb.cpp:153-229 | a product that beats the rounding losses forces a signal |
| NoArbitrage.FlowLosesValue | src/strategies/CircularArb.cpp:167-216 | if asset values respect the quotes up to a factor per trade, a chain multiplies value by at most the quotient of fee and factor for each leg |
| NoArbitrage.NoSignalWhenConsistent | src/strategies/CircularArb.cpp:153-229 | if asset values respect the quotes up to the fee, no cycle signals, at any balance |
| NoArbitrage.ConsistentWeakens | src/strategies/CircularArb.cpp:193-215 | values that respect the quotes up to a factor respect them up to any smaller one, so values between bid and ask do so up to the fee |
| NoArbitrage.ProductBothWays | src/strategies/CircularArb.cpp:193-215 | the rate products of a path and its reverse multiply to the product of bid over ask along the path times two fees per leg, at most those fees on an uncrossed book |
| NoArbitrage.NoSignalBothWays | src/strategies/CircularArb.cpp:153-229 | a path and its reverse never both signal on the same uncrossed book |
| Wallets.ReplayCovers | src/strategies/CircularArb.cpp:169-218 | the orders an evaluation writes can be replayed on any wallet covering the evaluated amount, leg by leg |
| Wallets.SignalIsExecutable | src/strategies/CircularArb.cpp:153-229 | replaying a signal's orders on an exchange that keeps one part in a thousand never overdraws an asset, never takes another asset below what it was, and gains at least the pnl |
| Wallets.FilledSizes | src/strategies/CircularArb.cpp:188-212 | every order of a completed, non-zero evaluation is a market order at the quoted price, of positive size and no more than the arriving amount needs, and meets the exchange's lot filters exactly when that amount fits them, and validateQuantity exactly when the maximum does not cut it or is on the grid |
| CircularArbitrage.CircularArb.constructor | src/strategies/CircularArb.cpp:8-76 | a new strategy holds the paths of depth 3 from the starting asset, the given balances and the given book |
| CircularArbitrage.CircularArb.EvaluateLeg | src/strategies/CircularArb.cpp:188-215 | one leg sizes and prices the order and leaves the amount after the fee |
| CircularArbitrage.CircularArb.FoldPath | src/strategies/CircularArb.cpp:169-218 | the loop writes into the array exactly the orders of the evaluation, up to the leg that stops it |
| CircularArbitrage.CircularArb.EvaluatePath | src/strategies/CircularArb.cpp:153-229 | the method returns the signal of the evaluation on the current book and balance, and inserts a missing balance as 0 |
| CircularArbitrage.CircularArb.OnMarketData | src/strategies/CircularArb.cpp:232-246 | an update moves the whole state, and returns a signal, as one step of the specification |
| CircularArbitrage.StepKeepsTemplates | src/strategies/CircularArb.cpp:169-246 | an update never changes the symbols and ways of the stored paths |
| Selection.LoopPicksLast | src/strategies/CircularArb.cpp:234-245 | the loop as written ends with the last signal, or with none if there is none |
| Selection.UpdatedLoopPicksBest | src/strategies/CircularArb.cpp:234-245 | with maxPnl updated at each pick it would end with the first signal of greatest pnl |
| Selection.LoopPicksBestIff | src/strategies/CircularArb.cpp:234-245 | the loop picks the same index as the repaired one exactly when nothing signals after the first greatest signal |
| SelectionExample.LoopCanMissTheBest | src/strategies/CircularArb.cpp:234-245 | a newly constructed strategy and its first update, for which a worse signal is returned than another path gives |
| SelectionExample.FourCycles | src/strategies/CircularArb.cpp:115-150 | the paths enumerated for five symbols: two cycles and their reverses, in this order |
| SelectionExample.SignalCanBeBelowMinimum | src/strategies/CircularArb.cpp:188-229 | a market for which the first order of a signal is below the minimum size of its symbol |
| StrategyRuns.InitialIsReady | src/strategies/CircularArb.cpp:8-76 | a new strategy on well-formed filters meets what the run theorems assume |
| StrategyRuns.RunKeepsReady | src/strategies/CircularArb.cpp:232-246 | over any run the number, symbols and ways of the paths and the starting balance never change |
| StrategyRuns.BookIsLastUpdate | src/strategies/CircularArb.cpp:232-233 | after any run the book holds for each name the last update that carries it, and otherwise what it held at first |
| StrategyRuns.BalancesOverRun | src/strategies/CircularArb.cpp:167-246 | over any run the balances change only by a missing starting asset inserted as 0, exactly when some path is evaluated |
| StrategyRuns.IncrementalIsFresh | src/strategies/CircularArb.cpp:232-246 | after any run the last evaluation of a path on which some order's symbol was updated, and the prices and sizes it holds, are those of an evaluation on the current book; a path with no updated symbol was not evaluated and is unchanged |
| StrategyRuns.EvalByTemplate | src/strategies/CircularArb.cpp:169-218 | stored prices and sizes never influence an evaluation: paths with the same symbols and ways give the same amount and the same orders on the completed legs |
| StrategyRuns.NoSignalIff | src/strategies/CircularArb.cpp:232-246 | an update returns nothing exactly when no path with an order on the updated symbol is quoted on the updated book and returns more than the starting balance |
| StrategyRuns.UpdateReturnsGreatestIff | src/strategies/CircularArb.cpp:232-246 | an update returns the signal of the last touched, quoted path that returns more than the balance, and that is a signal of greatest pnl exactly when no other such path returns more on the new book |
| StrategyRuns.ConsistentRunIsSilent | src/strategies/CircularArb.cpp:232-246 | no signal appears over a run of books that each admit asset values consistent up to the fee, even changing ones |
| StrategyRuns.RunSignalsAreExecutable | src/strategies/CircularArb.cpp:232-262 | every signal of every run can be executed on a wallet holding the starting balance, and gains its positive pnl |
| StrategyRuns.RunIsExecutable | src/strategies/CircularArb.cpp:232-262 | all signals of a run, executed one after another on one wallet, never overdraw an asset, never lower another asset, and gain at least the sum of all pnls |
| Brokers.Broker.SendRequest | src/bnb/marketConnection/BNBBroker.cpp:61-79 | registers the id as pending, writes the body, returns the id |
| Brokers.Broker.GetResponseForId | src/bnb/marketConnection/BNBBroker.cpp:81-96 | throws for an id that is not pending, otherwise blocks until it is stored |
| Brokers.Broker.OnMessage | src/bnb/marketConnection/BNBBroker.cpp:98-147 | stores a message with an id and retires the id, except for a failed or incomplete login answer |
| Brokers.EveryRunKeepsInvariant | src/bnb/marketConnection/BNBBroker.cpp:61-147 | after every interleaving pending is exactly registered minus answered, stored holds exactly the accepted answers, and every returned response is the one accepted for the id asked |
| Brokers.LoginAnswerIsValid | src/bnb/marketConnection/BNBBroker.cpp:106-135 | once logIn returns a request and the login id is assigned, an answer to the login request accepted after that is stored only if it is valid, and until one is the request stays pending |
| Brokers.ExactlyTheAcceptable | src/bnb/marketConnection/BNBBroker.cpp:98-147 | over every run the accepted messages are exactly those delivered with an id, but for failing answers to a login request whose id is assigned, and each is stored under its id |
| Brokers.EveryAnswerIsStored | src/bnb/marketConnection/BNBBroker.cpp:98-135 | over every run without an assigned login id, which are all runs while logIn throws, the guard on the login id never fires and the accepted messages are all those delivered with an id, errors included, each stored under its id |
| Brokers.LoginErrorStored | src/bnb/marketConnection/BNBBroker.cpp:45-135 | once logIn returns a request: the four steps after which an error answer to it is stored |
| Brokers.LoginOrderDecides | src/bnb/marketConnection/BNBBroker.cpp:45-135 | once logIn returns a request: an answer delivered before the login id is assigned is stored whatever it says; delivered after it, it is stored exactly if it is good, and otherwise the request stays pending |
| Brokers.BadLoginStoredIff | src/bnb/marketConnection/BNBBroker.cpp:45-135 | once logIn returns a request: over every run a bad login answer is stored exactly when it was accepted before the login id was assigned |
| Brokers.PendingOrStored | src/bnb/marketConnection/BNBBroker.cpp:71-74 | pending and stored are disjoint and together are the registered requests |
| Brokers.EarlyAnswerIsLostIff | src/bnb/marketConnection/BNBBroker.cpp:84-87 | a caller of a registered request is turned away exactly when its answer was already accepted |
| Brokers.AnswerLost | src/bnb/marketConnection/BNBBroker.cpp:134-135 | the four steps that lose an answer |
| Brokers.AnswersStay | src/bnb/marketConnection/BNBBroker.cpp:134-135 | an accepted answer is never replaced or dropped, so a lost one stays lost |
| Brokers.WaiterIsServed | src/bnb/marketConnection/BNBBroker.cpp:89-95 | a caller that passed the check keeps waiting until woken, and can be woken exactly from when its answer is accepted |
| Brokers.WakeReturnsAnswer | src/bnb/marketConnection/BNBBroker.cpp:89-95 | after every run a waiting caller can be woken exactly when its answer has been accepted, and then gets that answer, the only one accepted for its id |
| Brokers.WidenedCheckServesAll | src/bnb/marketConnection/BNBBroker.cpp:84-95 | with the check widened to stored answers every registered request is served, with its own answer |
| Brokers.WidenedNeverTurnsAway | src/bnb/marketConnection/BNBBroker.cpp:84-95 | with the widened check no call for a registered request ever fails, in any interleaving |
| Chunking.LoopStopsIff | src/bnb/marketConnection/BNBFeeder.cpp:152-153 | the chunk loop stops if and only if the chunk size is positive or there is nothing to send |
| Chunking.ZeroChunksNeverStop | src/bnb/marketConnection/BNBFeeder.cpp:152-168 | with chunk size 0 it runs for ever, sending empty requests |
| Chunking.LoopRunsCount | src/bnb/marketConnection/BNBFeeder.cpp:153-168 | otherwise it runs as often as the size divided by the chunk size, rounded up |
| Chunking.ChunkSizes | src/bnb/marketConnection/BNBFeeder.cpp:154 | every request is non-empty and at most a chunk, and full unless it is the last |
| Chunking.ChunksPartition | src/bnb/marketConnection/BNBFeeder.cpp:152-168 | the requests together carry the list, in order |
| Feeders.SubscribableIff | src/bnb/marketConnection/BNBFeeder.cpp:130-170 | a subscription returns exactly when the maximum is at least 4 or no symbol is asked for |
| Feeders.Feeder.BuildStreams | src/bnb/marketConnection/BNBFeeder.cpp:138-150 | the first loop names the streams in order, up to the maximum |
| Feeders.Feeder.SendChunks | src/bnb/marketConnection/BNBFeeder.cpp:152-168 | the second loop sends one request per chunk under consecutive ids and makes them pending |
| Feeders.Feeder.SubscribeToTickers | src/bnb/marketConnection/BNBFeeder.cpp:130-170 | remembers the symbols, sends the requests, and returns the number of streams |
| Feeders.SubscriptionPartition | src/bnb/marketConnection/BNBFeeder.cpp:130-170 | for a maximum of at least 4 the requests of a subscription partition the first min(n, max) streams, in order, into non-empty chunks of at most max/4 |
| Feeders.SubscriptionAsksFor | src/bnb/marketConnection/BNBFeeder.cpp:138-168 | what a subscription asks for over all its requests is, for the first min(n, max) symbols in order, the name in lower case, an @ and the kind of stream |
| Feeders.CaseDoesNotMatter | src/bnb/marketConnection/BNBFeeder.cpp:142-144 | lists of symbols that differ only in case send the same requests |
| Feeders.ResubscriptionAsksAgain | src/bnb/marketConnection/BNBFeeder.cpp:92-112 | subscribing to the remembered list sends the same requests again, under the next ids |
| Feeders.Feeder.OnMessage | src/bnb/marketConnection/BNBFeeder.cpp:38-90 | drops errors, retires the id of a confirmation, queues market data |
| Feeders.Feeder.GetUpdate | src/bnb/marketConnection/BNBFeeder.cpp:115-127 | pops the front of the queue, and fails exactly when stopped with an empty queue |
| Feeders.Feeder.OnConnectionLost | src/bnb/marketConnection/BNBFeeder.cpp:92-112 | if stopping and starting return, a persistent connection subscribes again to the remembered list; another does nothing |
| FeederRuns.EveryRunKeepsInvariant | src/bnb/marketConnection/BNBFeeder.cpp:38-170 | after every interleaving each id is in flight, pending or retired and only one of these, and no frame is lost, duplicated or reordered |
| FeederRuns.IdsAreUnique | src/bnb/marketConnection/BNBFeeder.cpp:156 | ids are numbered consecutively over every run, across reconnections |
| FeederRuns.NoFrameLost | src/bnb/marketConnection/BNBFeeder.cpp:81-127 | the popped frames followed by the queue are the received market data, in order, whether or not the feeder was stopped |
| FeederRuns.PendingIsUnconfirmedIff | src/bnb/marketConnection/BNBFeeder.cpp:63-66 | in every reachable state pending is sent, inserted and not confirmed, plus what was confirmed before its insertion; the latter is empty exactly when pending is sent minus confirmed |
| FeederRuns.PendingIsSentMinusConfirmed | src/bnb/marketConnection/BNBFeeder.cpp:163-164 | with each write and insertion in one step, pending is exactly sent minus confirmed over every run |
| FeederRuns.ConfirmationMissed | src/bnb/marketConnection/BNBFeeder.cpp:163-164 | the three steps that leave a confirmed request pending |
| FeederRuns.RejectedStaysPending | src/bnb/marketConnection/BNBFeeder.cpp:46-60 | the two steps that leave a rejected request pending |
| FeederRuns.StaysPending | src/bnb/marketConnection/BNBFeeder.cpp:46-66 | an id stays pending through every continuation in which nothing confirms it |
| FeederRuns.PendingIsUnansweredIff | src/bnb/marketConnection/BNBFeeder.cpp:46-66 | pending is sent minus answered, errors included, exactly when no inserted id was confirmed before its insertion and every rejected id that was sent is in flight or confirmed |
| FeederRuns.SubscriptionIsRun | src/bnb/marketConnection/BNBFeeder.cpp:130-170 | a subscription is a run of one-step sends, so the run theorems cover it |
| FeederRuns.SubscriptionIsSplitRun | src/bnb/marketConnection/BNBFeeder.cpp:130-170 | from every reachable state a subscription is also the run of its separate writes and insertions |
| StreamsClients.StreamsClient.SendChunkedRequest | src/bnb/marketConnection/ws/StreamsClient.cpp:12-30 | one request per chunk of the whole list, with consecutive ids that become pending and are returned |
| StreamsClients.StreamsClient.SubscribeToStreams | src/bnb/marketConnection/ws/StreamsClient.cpp:31-34 | one SUBSCRIBE request per chunk, whose consecutive ids become pending and are returned, the next id moved past them |
| StreamsClients.StreamsClient.UnsubscribeToStreams | src/bnb/marketConnection/ws/StreamsClient.cpp:36-40 | one UNSUBSCRIBE request per chunk, likewise |
| StreamsClients.StreamsClient.OnMessage | src/bnb/marketConnection/ws/StreamsClient.cpp:64-97 | any reply, error or not, retires its id |
| StreamsClients.ChunkedRequestPartition | src/bnb/marketConnection/ws/StreamsClient.cpp:12-30 | the requests partition the list without a cut, under strictly increasing ids |
| StreamsClientRuns.PendingIsUnansweredIff | src/bnb/marketConnection/ws/StreamsClient.cpp:12-97 | in every reachable state pending is sent, inserted and not answered, with or without an error, plus what was answered before its insertion; the latter is empty exactly when pending is sent minus answered |
| StreamsClientRuns.IdsAreUnique | src/bnb/marketConnection/ws/StreamsClient.cpp:19-60 | over every run no id is used twice, under whatever operation |
| StreamsClientRuns.ChunkedRequestIsRun | src/bnb/marketConnection/ws/StreamsClient.cpp:12-30 | from every reachable state a chunked request is the run of its writes and insertions |
| StreamsClientRuns.AnswerMissed | src/bnb/marketConnection/ws/StreamsClient.cpp:25-26 | the three steps that leave an answered request pending |
| Recorders.RecorderMonitor.UpdateMetrics | src/common/RecorderMonitor.cpp:27-41 | sets the gauges and adds one to the instrument's counter, created on first use |
| Recorders.RecorderMonitor.GetUpdatesCount | src/common/RecorderMonitor.cpp:43-51 | returns the sum of all counters, in whatever order they are visited |
| Recorders.BNBRecorder.OpenFileForSymbol | src/BNBRecorder.cpp:102-119 | creates a missing file with the header, leaves an existing one as it is |
| Recorders.BNBRecorder.RecordData | src/BNBRecorder.cpp:95-100 | appends one line to the ticker's file, opening it first if needed |
| Recorders.BNBRecorder.Run | src/BNBRecorder.cpp:67-90 | a session records and counts every popped frame |
| Recorders.FileNameInjective | src/BNBRecorder.cpp:103-105 | for one date different tickers have different files |
| Recorders.FileNameDetermines | src/BNBRecorder.cpp:103-105 | for tickers without a slash the file name determines both ticker and date |
| Recorders.SessionDemultiplexes | src/BNBRecorder.cpp:67-119 | a session appends to each ticker's file exactly its frames in order, and creates it with one header only if there are any |
| Recorders.SessionTouchesOnlyTickers | src/BNBRecorder.cpp:95-119 | a file that is not one of the recorded tickers' is neither created nor changed |
| Recorders.OtherDatesUntouched | src/BNBRecorder.cpp:95-119 | a session for one date leaves the files of every other date alone |
| Recorders.SessionsDemultiplex | src/BNBRecorder.cpp:67-119 | over any number of sessions for a date each file is the header of book ticker frames once, and then exactly its ticker's frames in order |
| Recorders.CountersAreLines | src/common/RecorderMonitor.cpp:33-50 | in a session, on any files, each counter is the growth of the ticker's file beyond its header, and their sum is the number of data lines added over all files |
| EndToEnd.SessionLines | src/BNBRecorder.cpp:67-90 | the lines recorded for a ticker, followed by its frames still queued, are its received market data in order |
| EndToEnd.FilesAreTheMarketData | src/BNBRecorder.cpp:67-119 | if every session drains its queue, each file holds its ticker's received market data of all sessions, in arrival order |
| Payloads.InsertedIs | src/bnb/utils/BNBRequests/RequestsHelper.cpp:8-11 | insertion keeps the keys increasing, adds exactly the new entry, and leaves an existing key alone |
| Payloads.LessIff | src/bnb/utils/BNBRequests/RequestsHelper.cpp:38-45 | the key order puts a string before another exactly when it is a proper prefix of it or smaller at the first difference |
| Payloads.GeneratePayload | src/bnb/utils/BNBRequests/RequestsHelper.cpp:38-45 | the loop and the join produce the payload of the parameters in key order |
| Payloads.PayloadAppends | src/bnb/utils/BNBRequests/RequestsHelper.cpp:38-45 | each further parameter is appended as key=value, with an ampersand before it unless it is the first |
| Payloads.RoundTripIff | src/bnb/utils/BNBRequests/RequestsHelper.cpp:38-45 | reading a payload back gives the parameters exactly when keys contain neither = nor & and values no & |
| Payloads.PayloadInjective | src/bnb/utils/BNBRequests/RequestsHelper.cpp:38-45 | on such parameters the payload determines the parameters |
| Payloads.PayloadCanCollide | src/bnb/utils/BNBRequests/RequestsHelper.cpp:38-45 | two different parameter maps with the same payload |
| Payloads.SignRequestHMAC | src/bnb/utils/BNBRequests/RequestsHelper.cpp:6-14 | the caller's map becomes the signed map of the specification |
| Payloads.SigningCoversIff | src/bnb/utils/BNBRequests/RequestsHelper.cpp:6-14 | whatever the digest, the signature covers exactly the other final parameters if and only if there was no signature before |
| Payloads.OldSignatureIsSent | src/bnb/utils/BNBRequests/RequestsHelper.cpp:6-14 | a request that comes with a signature and is sent with it |
| Payloads.SignedPayloadEncodes | src/bnb/utils/BNBRequests/RequestsHelper.cpp:6-14 | the payload signed encodes exactly the final parameters but the signature: those given and the API key |

## Left out

- IEEE doubles: amounts are exact reals, so rounding errors of `fmod` and of the products, infinities, NaN and the largest double as "no maximum" are not modelled; books hold positive asks and non-negative bids.
- Filters with negative numbers or an empty price range: the rounding results assume what the exchange publishes.
- `validateNotional`, `validateMaxPosition`: single comparisons that the strategy does not use.
- JSON parsing and number conversion: messages, frames, symbols, filters and balances are typed values, with one case for a payload whose parsing throws.
- CircularArbitrage.CircularArb.constructor: the requests that fetch symbols, balances and the first book are not sent; their results are arguments.
- Brokers.Broker.GetResponseForId: the condition variable is its guard; spurious wake-ups are calls of Resume that block again.
- Brokers.LoginAnswerIsValid: no run of the program as it is, whose `logIn` throws; it needs a login request to be built.
- Brokers.LoginErrorStored: likewise needs a login request.
- Brokers.LoginOrderDecides: likewise needs a login request.
- Brokers.BadLoginStoredIff: likewise needs a login request; both sides are false while none is built.
- Brokers.EveryRunKeepsInvariant: assumes fresh request ids and an exchange that answers only written requests, and none twice once an answer was accepted.
- FeederRuns.EveryRunKeepsInvariant: assumes an exchange that confirms only written requests, each at most once, and messages with an id that carry no frame. Each access to the unlocked pending set and id counter is one atomic step; what concurrent access to a `std::set` does beyond that is not modelled.
- Feeders.Feeder.SubscribeToTickers: requires a subscription whose loop stops; that it does not return otherwise is Chunking.ZeroChunksNeverStop. Ids are unbounded integers.
- Feeders.Feeder.GetUpdate: the state past the wait. `stop` never notifies the condition variable, so a consumer already blocked on an empty queue is not woken by it.
- Feeders.Feeder.OnConnectionLost: what follows if `stop` and `start` return. In the program `onClose` and `onFail` run on the socket thread itself, so for a running feeder the `join` in `stop` throws before the subscription is reached. Thread start, TLS and the connection wait are foreign library code.
- Recorders.BNBRecorder.Run: the clock that ends a session and the scheduler are outside; a session is the sequence of frames popped before it ends.
- `listSubscriptions` and `setProperty` end without returning their id; in the step system they are a write and an insertion under another operation.
- Wallets.SignalIsExecutable: every order fills completely at the quoted price; neither the program nor the model compares its size with the quantities quoted at bid and ask.
- HMAC, UUIDs and time stamps: the digest is an arbitrary function, ids are assumed fresh. Ed25519 signing is not functional in the program.
- Strings are compared character by character and lower-cased in the C locale; file names are plain text.
- Logging, Prometheus exposition, `RLStrategy`, the request wrapper classes, the mains, and the test order sent for each signal.
