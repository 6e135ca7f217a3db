# Verified model of the exchange modules

A Dafny model of the trading core of CoinEx Chain: the call auction of the `market` module and the
money behind it, the `bancorlite` pools, and the frozen, locked and issued coins of the `bankx`,
`authx` and `asset` modules, which all share one ledger. Check it with `dafny verify dfyconfig.toml`.

## What is modelled

**The call auction.** `Auction` says what a call auction means, on plain quotes and without following
the code: the depth of a side at a price, volume and imbalance, the prices that may be chosen, and how
a traded volume drains a queue in strict order of precedence. `Pricing` is the code that builds,
sorts, accumulates and selects price points; `Matching` is the two nested consuming loops over
changing orders; `CallAuction` is `Match` itself. They are imperative and are proved against `Auction`.
The main results: the chosen price is best over *all* prices and, among equally good ones, where the
market pressure drives it; one round is enough; all deals are at one price; and on each side nobody is
served before an order that outranks it (`Priority`).

**Settlement and the life of an order.** `Orders`, `Ledgers`, `Settlement` and `Closing` hold what one
deal and one closing do to orders and balances, and what runs of them keep. `OrderEntry` and `Market`
are the message handlers and the end of a block; `MatchRun`, `Blocks`, `BlockRuns`, `MarketState` and
`Overlays` hold what the two loops of a block owe each other. The central statements are about a whole
block: it is a run of valid deals on the whole exchange and then the closing, each once and as it stood,
of the orders that are done, and of no other. `WalkOrder` says when the order in which the changed
orders are walked shows in the balances, and `MarketRuns` follows one order, and one mark, over any run
of steps. The comments in the source that say a line should not be reached are proved where they concern
the money of an order; for the fee at removal, and for a mark without a market, the exact condition is
given, and `MarketCases`, `WalkCases` and `LiftedBans` show how the states in question arise.

**The order indexes.** `ByteKeys`, `StoreKeys` and `KVStores` are byte-ordered keys and range scans.
`OrderStore` and `Delist` prove that the stored indexes agree with a plain set of orders or requests at
every step, and that each scan returns exactly what its numeric condition describes. `Candidates` and
`WholeBook` prove that matching only the candidates is matching the whole book.

**Bancor.** `BancorCurve` is the fixed-point curve, linear or interpolated from a table, and `CurveShape`
says what it looks like whatever formula computes it; `BancorPools`
and `Bancor` are the pool record, its update in place, and the handlers. `BancorRuns` follows the money
over any run of accepted trades: from the purses of the senders into the frozen coins of the owner.

**Locked coins and tokens.** `UnlockQueue`, `LockedCoins` and `Locking` are locked sends, early unlocks
and the payout at the end of a block; `Tokens` and `Asset` are token records, issue, mint and burn, and
the lists by which an issuer forbids its token to accounts. `Withholding` shows what those bans are worth,
deal by deal and closing by closing: it is a clause of every step of `Chain.App` that no token, CET apart,
leaves the purse of an account that is forbidden to send it, unless the account is its issuer.
`Withholding.BannedCoinsStay` only adds those clauses up.

**All together.** `Chain` puts the modules over one ledger. Between any two steps, in every run from a
chain with nothing frozen: frozen coins are *exactly* what open orders reserve plus what pools hold, in
every account and denomination, so no release runs short; every pool is on its curve; the indexes, the
unlock queue and the lock counts are exact; every market without a newly-added mark is quiet, as far as
those go who could trade when it was last matched; the bank, the market and the pools go by the token
records and lists as they are; and the total supply of every token is what exists of it, spendable,
frozen and locked.

`Decimals` models `sdk.Dec` as an integer scaled by 10^18, with `Mul` and `Quo` rounding half to even
and the truncating operations truncating. `sdk.Coins` are balances per account and denomination, and a
key-value store is a map read in byte order.

## How the code differs from what one might expect

- The fee for an order that never dealt is `FeeForZeroDeal`, which may exceed what was frozen as its
  commission. Whether it is collected may then depend on what closing other orders has released before,
  and the block walks a Go map. `WalkOrder.OrderIsIrrelevantIffPayable` is the exact condition for one
  order, and `WalkCases.DecidedIffFeesAgree` the one for the parameters: where a commission below
  `FeeForZeroDeal` can be frozen, two messages can be accepted whose orders one and the same block may
  close with different balances (`WalkCases.WalksDisagree`; `WalkCases.QuotedFeesShow` with the volumes
  that the market itself quotes). `ValidateGenesis` admits such parameters; the default ones make
  `MarketFeeMin` and `FeeForZeroDeal` equal.
- A linear pool whose two prices are equal fails its own consistency check as soon as stock is
  supplied, or if its supply is worth a coin or more (`BancorPools.LinearPoolIsConsistent` is exact,
  `Bancor.FlatMessage` is a message that passes its check and opens such a pool).
- A second delist request at another time would leave a stale key behind; the handler rules it out by
  asking first (`Delist.DelistKeeper.AddDelistRequest` is exact, `Delist.EnterBreaks` is the failure).
- The second sort of price points is not stable. Which prices are best does not depend on how it orders
  ties. The reference-price rule does: it takes the first of the best prices for the highest and the last
  for the lowest, and obeys the market pressure exactly if they are (`Auction.PressureIsFollowedIff`).
- The end of an order's life is a 64-bit sum. If it exceeds 64 bits the order is overdue in the next
  block: `Blocks.EntryExpires` is exact, `MarketCases.LongestLifeIsShortest` is such an order.
- `RemoveMarket` does not clear the mark of its market. An order placed in the block that ends its
  market leaves the mark behind (`MarketCases.EndWhileMarked`; no other step does that,
  `MarketRuns.StrandedByEnding`), and `EndBlocker` gives up when a mark names a market that is gone:
  until that market is listed again no market at all is matched (`MarketRuns.NothingDealsWhileStranded`).
- Lifting a ban does not mark any market. Orders that may trade again can meet and still wait until the
  next order comes in: `LiftedBans.CrossByLifting` and `LiftedBans.PassOver` are steps that lead there,
  `LiftedBans.QuietUnlessLifted` is exact.

## Model

| member | source | states |
|---|---|---|
| Auction.ExecutionPriceIsOptimal | modules/market/match/match.go:145-332 | A price the auction may choose has the largest volume of all prices, not only of order prices, and its absolute imbalance is no larger than that of any order price with the same volume. This includes the cases in which highPrice, lowPrice or midPrice is returned, and any order of ties |
| Auction.VolumePeaksAtAnOrderPrice | modules/market/match/match.go:158-214 | No price at all trades more than some order price does, so looking at order prices only loses nothing |
| Auction.OneRoundClears | modules/market/match/match.go:42-51 | Trading the whole volume of a volume-maximal price in order of precedence leaves no bid with something left that reaches an ask with something left |
| Auction.FillsFormAPrefix | modules/market/match/match.go:71-127 | An order is filled at all only if every order that precedes it is filled completely |
| Auction.DrainTwice | modules/market/match/match.go:96-127 | Trading one amount and then another drains a queue as trading their sum does; this is what lets the two consuming loops be seen as one |
| Auction.DepthIsPrefix | modules/market/match/match.go:71-94 | In a sorted list the orders that accept a price are a prefix and their total is the depth of that side |
| Auction.RemainingDepth | modules/market/match/match.go:71-94 | What the shrunken list still offers at the price is the depth at the start less what was dealt |
| Candidates.CandidatesDecideThePrice | modules/market/internal/keepers/order_keeper.go:254-309 | The auction over the candidates may execute at exactly the prices at which the auction over the whole book may |
| Candidates.CandidatesDecideTheFills | modules/market/internal/keepers/order_keeper.go:254-309 | Matching the candidates alone fills every order as matching the whole book would, and leaves the whole book uncrossed |
| Pricing.CreatePricePointList | modules/market/match/match.go:158-184 | One point per order price, holding the total bid and ask amount at that price |
| Pricing.FindOrAddPoint | modules/market/match/match.go:161-174 | The point of an order is found by the byte key of its price; a missing one is appended empty, and equal keys mean equal prices |
| Pricing.SortByPrice | modules/market/match/match.go:189-192 | The points are reordered in place, highest price first, none lost |
| Pricing.AccumulateBids | modules/market/match/match.go:193-197 | Scanning down, each point gets the depth of the bids at its price |
| Pricing.AccumulateAsks | modules/market/match/match.go:198-202 | Scanning up, each point gets the depth of the asks at its price |
| Pricing.FillExecutionAmounts | modules/market/match/match.go:203-213 | Each point gets the volume, the imbalance and the absolute imbalance at its price |
| Pricing.AccumulateForPricePointList | modules/market/match/match.go:188-214 | Afterwards every point measures its price: depths, volume, imbalance, absolute imbalance |
| Pricing.SelectByExecution | modules/market/match/match.go:233-244 | The points kept are those of largest volume, all of them |
| Pricing.SelectByImbalance | modules/market/match/match.go:250-262 | The points left are exactly the order prices with largest volume and, among those, least absolute imbalance, whatever the unstable sort does with ties |
| Pricing.SurvivorsAreBest | modules/market/match/match.go:236-262 | Points that survive both selections are the best order prices, and every best order price survives |
| Pricing.CalculateExecutionPrice | modules/market/match/match.go:232-269 | Returns a price the auction may choose |
| Pricing.CalculateExecutionPriceWithRef | modules/market/match/match.go:273-332 | Tied to RefRule; and, without it, on a list that starts with its highest and ends with its lowest price: no price between the two is nearer to highPrice if no listed price has a negative imbalance, to lowPrice if some has and none a positive one, to the last price if both occur; without a last price it is the middle of the list |
| Auction.ExecutionPriceFollowsPressure | modules/market/match/match.go:232-332 | So it is of every price the auction may execute at: it is the only best one, or it obeys that rule for a listing of the best ones |
| Auction.PressureIsFollowedIff | modules/market/match/match.go:257-332 | For a listing in any order: the rule is obeyed between its lowest and its highest price for all reference prices if and only if it starts with the highest and ends with the lowest, which the unstable second sort need not keep |
| Pricing.GetExecutionPrice | modules/market/match/match.go:145-155 | The chosen price is one the definition of the auction allows for these orders |
| Matching.InfoForDeal.GetAmount | modules/market/endblocker.go:44-50 | The engine always sees all that is left of an order: the branch kept only for safety is never taken |
| Matching.InfoForDeal.Deal | modules/market/endblocker.go:73-116 | What a deal does to both orders, the ledger, the changed orders and the last price; a payment above the maximum is not booked |
| Matching.InfoForDeal.LoggedDeal | modules/market/endblocker.go:73-116 | A deal the engine makes is valid, is always booked, and lowers both orders by its amount |
| Matching.ExecuteTurn | modules/market/match/match.go:99-120 | One pass of the loop of ExecuteOrder: it stops exactly when the current order is filled or the next order does not accept the price |
| Matching.ExecuteOrder | modules/market/match/match.go:97-127 | Deals the smaller of the order and the willing depth of the list, in order of precedence; the rest returned starts at the first order that has something left |
| Matching.HalfTurn | modules/market/match/match.go:80-91 | Half a pass of the outer loop: at least one order leaves a list, so the loop ends; both sides stay drained by the same amount |
| Matching.ExecuteOrderList | modules/market/match/match.go:71-94 | Deals exactly the smaller depth of the two sides at the price; both lists are drained in strict precedence, and all deals are at that price |
| CallAuction.SortList | modules/market/match/match.go:30-35 | A permutation of the list, sorted by precede |
| CallAuction.Round | modules/market/match/match.go:43-45 | One pass of the loop of Match clears a crossed book at one price |
| CallAuction.Match | modules/market/match/match.go:29-51 | The loop body runs at most once. Every deal is at one price that the auction may choose, both sides are filled in precedence, and no bid is left that reaches an ask |
| CallAuction.PrecedeOrders | modules/market/match/match.go:54-68 | precede is a strict order on one side of a market, ties apart, so sorting by it is meaningful |
| Priority.PriorityIsKept | modules/market/match/match.go:54-68 | Where a market was cleared, an order deals at all only if every order of its side that offers more, or as much and is older, or is as old with a smaller hash, was filled |
| Priority.PriorityInABlock | modules/market/endblocker.go:377-415 | So it is in every block, of any two orders of one side of a market in which nobody is barred |
| Priority.SideHasListing | modules/market/match/match.go:30-35 | Each side of a book can be listed in order of precedence, so what is said of all listings is said of one |
| CallAuction.ChosenPrice | modules/market/match/match.go:42-45 | On a crossed book the chosen price trades a positive volume, the smaller depth, and clears the book |
| CallAuction.PricesFitKeys | modules/market/internal/types/order.go:85-98 | Every price of a stored order fits forty bytes, so its key does not lose digits |
| Settlement.Payment | modules/market/endblocker.go:82 | The payment is the price of the amount, rounded down to a coin |
| Settlement.DealKeepsOrdersSound | modules/market/endblocker.go:82-98 | The payment is within the frozen money of the buyer, what is left frozen still pays for what is left to buy, and the seller still has its stock frozen: the early return for a large payment is never taken |
| Settlement.DealMovesExactly | modules/market/endblocker.go:99-104 | None of the four bank operations of a deal is refused; together they move the stock and the payment from frozen to spendable coins of the other party and nothing else |
| Settlement.DealKeepsSolvent | modules/market/endblocker.go:73-116 | After a deal every open order is still backed by frozen coins and no surplus of any account changed |
| Settlement.DealKeepsSupply | modules/market/endblocker.go:99-104 | No deal makes or loses a coin, even where the bank refuses part of it |
| Settlement.RunKeepsSolvent | modules/market/endblocker.go:73-116 | Over any run of deals the book stays sound and backed, no deal is refused |
| Settlement.RunAccounts | modules/market/endblocker.go:90-98 | Over any run of deals LeftStock and DealStock add up; the frozen and paid money of a buyer add up; a seller receives less than one coin per deal short of its own limit |
| Settlement.RunKeepsSound | modules/market/endblocker.go:28-31 | No order of a run ever has less frozen money than it still needs |
| Overlays.PartRunIsRun | modules/market/endblocker.go:255-276 | Dealing among some of the orders, copied out of the store, is dealing on the whole exchange |
| Overlays.PartRunKeepsSolvent | modules/market/endblocker.go:255-276 | Laying the copies that dealt over the stored book leaves the whole exchange as backed as it was |
| Closing.CloseReleases | modules/market/endblocker.go:153-198 | Closing an order releases exactly what it had reserved in every account, whether or not its fees could be collected |
| Closing.CloseKeepsSolvent | modules/market/endblocker.go:153-198 | Taking an order off and closing it keeps every other order backed, every surplus and the supply of every coin |
| Closing.RebateWithinFee | modules/market/endblocker.go:221-226 | The rebate is at most the fee |
| Closing.CollectedIffCovered | modules/market/endblocker.go:178-219 | The commission can be collected from every sender, however poor, if and only if it is within what closing has released by then |
| Closing.DealtOrCheapIsCovered | modules/market/internal/types/order.go:39-50 | That condition holds for every order that dealt, and for every order when FeeForZeroDeal is within its frozen commission |
| Closing.CloseMoves | modules/market/endblocker.go:164-219 | When it is covered, closing moves exactly the refund, the fees, the rebate and the share of the fee collector |
| Closing.FeeIsShared | modules/market/endblocker.go:200-226 | Of a fee that is paid in full the referee gets the rebate, its ratio of the fee rounded down, and the collector all the rest |
| Closing.ClosingCosts | modules/market/endblocker.go:153-219 | Closing costs a sender without a referee its commission, if any was frozen, and its feature fee; the collector gets exactly that, and no other account gains or loses |
| Closing.TollWithinFee | modules/market/endblocker.go:200-219 | What a fee takes out of the purse of its payer is at least nothing and at most the fee; it is less where the rebate is barred or comes back to the payer |
| Closing.CoveredIsPayable | modules/market/endblocker.go:178-219 | A commission that closing releases enough for can be paid in full from an empty purse |
| Closing.ClosingOrderIsIrrelevant | modules/market/endblocker.go:400-409 | Closing backed orders whose commissions are payable, in any order, ends in the same balances |
| WalkOrder.WalksAgree | modules/market/endblocker.go:400-409 | Two walks over a solvent book that close the same orders, each in its own order, end with the same orders and the same balances when every commission charged is payable |
| WalkOrder.WriteBacksAgree | modules/market/endblocker.go:400-409 | The same of the write-back loop of one market, in the terms in which UpdateOrders states its result |
| WalkOrder.BlocksAgree | modules/market/endblocker.go:392-415 | Two outcomes of one block with the same deals and the same orders left have the same balances when the commissions of the orders that left are payable after the deals |
| WalkOrder.BlocksUsuallyAgree | modules/market/endblocker.go:392-415 | So it is in every block in which each order that leaves had dealt, or had frozen no less than FeeForZeroDeal |
| WalkOrder.LaterPays | modules/market/endblocker.go:178-219 | Where one order can pay its commission after another of its sender is closed, but not before, closing them in one order and in the other ends in different balances |
| WalkOrder.UnpayableOrderShows | modules/market/endblocker.go:178-219 | For every order that a walk closes and whose commission is not payable there is a solvent book of its market with one payable order more, like it but for its sequence and for having dealt in part, in which the two orders of closing end in different balances |
| WalkOrder.OrderIsIrrelevantIffPayable | modules/market/endblocker.go:400-409 | Over all solvent books with identifiers that the code gives out: an order that a walk closes can be closed before or after any payable order of its market alike if and only if its commission is payable |
| WalkCases.WalksDisagree | modules/market/endblocker.go:400-409 | Two messages on an empty book, accepted one after the other, whose orders do not meet: nothing can be dealt, and the walk that closes both may end with one balance or with another |
| WalkCases.DisagreeingFeesShow | modules/market/endblocker.go:400-409 | There are such messages under all parameters that pass ValidateGenesis and whose fees do not agree |
| WalkCases.QuotedFeesShow | modules/market/internal/keepers/keeper.go:232-236 | There are such messages also with the volumes that a market with CET as its stock quotes, wherever MarketFeeMin is positive, below FeeForZeroDeal up to the maximal amount, and covers the rate on that |
| WalkCases.DecidedIffFeesAgree | modules/market/endblocker.go:400-409 | Under genesis parameters no two messages lead to such a walk if and only if the fees agree |
| MarketCases.UnpayableEnters | modules/market/handlers.go:226-299 | With parameters that pass ValidateGenesis and whose fees do not agree, a smallest order is accepted whose commission is not payable if it never deals |
| MarketCases.EntriesArePayableIffFeesAgree | modules/market/internal/types/params.go:80-99 | Under genesis parameters no order of a sender without a referee enters unpayable if and only if FeeForZeroDeal, up to the maximal amount, is at most MarketFeeMin, or no commission can be frozen below it |
| Orders.OrderIDInjective | modules/market/internal/types/order.go:79-83 | Two orders share an identifier only if sender, sequence and tag agree |
| Orders.SplitSymbolInvertsGetSymbol | types/symbol.go:11-19 | Splitting a symbol gives back the two denominations it was made of |
| Orders.SoundOrderHasEnoughMoney | modules/market/endblocker.go:28-31 | notEnoughMoney is false for every sound order |
| Orders.CommissionIsCovered | modules/market/internal/types/order.go:39-50 | The commission is not negative and, for an order that dealt, at most what was frozen for it; one that did not deal pays the fee for that, up to the largest amount |
| Orders.CommissionIsProRata | modules/market/internal/types/order.go:39-50 | An order that dealt pays the share of its frozen commission that its dealt part has in its quantity, rounded down to a coin, and all of it if nothing is left; exactly when, beyond a quantity of 2 * 10^18, the rounding in between makes it a coin more |
| Orders.FeatureFeeIsCovered | modules/market/internal/types/order.go:52-69 | The feature fee is between zero and what was frozen for it |
| Orders.FeatureFeeCountsBlocks | modules/market/internal/types/order.go:52-69 | Nothing within the free blocks, everything from the age that was asked for on, and between them the same share of the fee as of the blocks, rounded down |
| Ledgers.Bank.SendCoins | modules/bankx/internal/keeper/keeper.go:62-68 | Succeeds exactly if the sender is not barred and can pay; then the coins move, else nothing does |
| Ledgers.Bank.FreezeCoins | modules/bankx/internal/keeper/keeper.go:190-203 | Moves spendable coins to frozen ones, under the same condition, or changes nothing |
| Ledgers.Bank.UnFreezeCoins | modules/bankx/internal/keeper/keeper.go:205-221 | Moves frozen coins to spendable ones exactly if the account exists and has them frozen |
| Ledgers.SendKeepsSupply | modules/bankx/internal/keeper/keeper.go:62-68 | The sum of all balances of a denomination does not change |
| Ledgers.FreezeKeepsSupply | modules/bankx/internal/keeper/keeper.go:190-203 | Freezing neither makes nor loses coins |
| Ledgers.UnfreezeKeepsSupply | modules/bankx/internal/keeper/keeper.go:205-221 | Unfreezing neither makes nor loses coins |
| ByteKeys.BigEndianOrder | modules/market/internal/keepers/order_keeper.go:123-130 | Fixed-width big-endian keys compare as the numbers do |
| ByteKeys.DecToBigEndianBytes | modules/market/internal/types/order.go:85-98 | The loop fills forty bytes with the big-endian form of the absolute value |
| ByteKeys.PrefixRange | modules/market/internal/keepers/order_keeper.go:254-309 | The range from a prefix to its raised form holds exactly the keys with that prefix |
| StoreKeys.NumberedKeyInjective | modules/market/internal/keepers/order_keeper.go:82-112 | A key of a list or of the queue determines tag, market, number and identifier |
| OrderStore.KeyTellsOrder | modules/market/internal/keepers/order_keeper.go:77-112 | No two orders share a key in any of the three indexes |
| OrderStore.OrderKeeper.Add | modules/market/internal/keepers/order_keeper.go:132-138 | The book, the queue and the price list of the side all gain the order, every other order stays, and the market is marked |
| OrderStore.OrderKeeper.Update | modules/market/internal/keepers/order_keeper.go:140-161 | The three indexes hold the new value and nothing else changed |
| OrderStore.OrderKeeper.Remove | modules/market/internal/keepers/order_keeper.go:163-186 | Fails exactly for an order that is not in the book; otherwise all three indexes lose it and nothing else |
| OrderStore.QueryOrder | modules/market/internal/keepers/order_keeper.go:364-374 | Finds an order by its identifier exactly if it is in the book |
| OrderStore.OrderKeeper.GetOlderThan | modules/market/internal/keepers/order_keeper.go:189-211 | Exactly the orders of the market placed before the height, newest first, each once |
| OrderStore.OrderKeeper.GetOrdersAtHeight | modules/market/internal/keepers/order_keeper.go:214-238 | Exactly the orders of the market placed at the height, each once |
| OrderStore.OrderKeeper.GetMatchingCandidates | modules/market/internal/keepers/order_keeper.go:254-309 | Exactly the orders of the market that reach some order of the other side, each once; no scanned key misses its order; the mark of the market is cleared |
| OrderStore.OlderThanKey | modules/market/internal/keepers/order_keeper.go:189-211 | The range scan up to a height selects exactly the keys of older orders of the market |
| OrderStore.AtHeightKey | modules/market/internal/keepers/order_keeper.go:214-238 | The range scan of one height selects exactly the keys of that height and market |
| OrderStore.MeetsTheBest | modules/market/internal/keepers/order_keeper.go:254-309 | An order reaches somebody exactly if it reaches the best order of the other side |
| KVStores.KVStore.Iterator | modules/market/internal/keepers/order_keeper.go:254-309 | All stored keys in the range, in byte order |
| KVStores.KVStore.ReverseIterator | modules/market/internal/keepers/order_keeper.go:189-211 | All stored keys in the range, against byte order |
| WholeBook.CandidateIffBestReaches | modules/market/internal/keepers/order_keeper.go:254-309 | An order is a candidate exactly if the first order of the other side, in precedence, reaches its price |
| WholeBook.CandidatesMatchTheMarket | modules/market/internal/keepers/order_keeper.go:254-309 | A match of the candidates leaves the whole book as an auction over the whole book at that price would, uncrossed |
| Delist.DelistKeeper.HasDelistRequest | modules/market/internal/keepers/delist_keeper.go:40-43 | True exactly for a market with a pending request |
| Delist.DelistKeeper.AddDelistRequest | modules/market/internal/keepers/delist_keeper.go:34-38 | Afterwards the time index and the symbol index are inverse to each other if and only if the market had no request at another time |
| Delist.EnterBreaks | modules/market/internal/keepers/delist_keeper.go:34-38 | A second request at another time leaves the key of the first time behind |
| Delist.DelistKeeper.GetDelistSymbolsBeforeTime | modules/market/internal/keepers/delist_keeper.go:46-57 | Exactly the markets whose time is at most the given one, in order of time |
| Delist.DelistKeeper.RemoveDelistRequestsBeforeTime | modules/market/internal/keepers/delist_keeper.go:59-76 | Both indexes lose exactly those requests and stay inverse to each other |
| Delist.DueRange | modules/market/internal/keepers/delist_keeper.go:28-32 | The scanned range holds exactly the keys of times up to the given one, itself included |
| OrderEntry.PriceIsExact | modules/market/handlers.go:443-450 | With at most 18 digits of precision the price of an order is exact and positive |
| OrderEntry.MoneyIsEnough | modules/market/handlers.go:443-450 | A buyer freezes the least whole number of coins that pays for the order at its limit |
| OrderEntry.AmountTooLarge | modules/market/handlers.go:443-450 | An order is refused for its money if and only if price times quantity, as they stand in the message, exceeds the largest amount at its precision |
| OrderEntry.CommissionOfVolume | modules/market/handlers.go:123-150 | The commission frozen is the larger of the minimum and the least whole number of coins that covers the rate on the volume, exactly so for a whole volume and within the rounding to 18 digits for a fraction; there is none if and only if the money or that number is too large |
| OrderEntry.FeatureFeePerBlock | modules/market/handlers.go:152-165 | No feature fee is frozen for free blocks or for one block only; every block more costs the price of a block, up to the largest amount |
| OrderEntry.NewOrderIsSound | modules/market/handlers.go:226-277 | A fresh order has a positive amount, its money or stock is enough, and its fees are within bounds |
| Blocks.EntryExpires | modules/market/handlers.go:249-272 | From when on a new order is overdue: after the blocks it asks for, or the free ones if it asks for none, but not in the block it enters in; and if and only if that end exceeds 64 bits, from the next block on |
| Blocks.FreeBlocksCostNothing | modules/market/handlers.go:152-165 | An order that asks for no more than the free blocks freezes and pays no feature fee |
| MarketCases.LongestLifeIsShortest | modules/market/endblocker.go:299-302 | Where blocks have no price an order for the longest time is countable, and overdue in the next block |
| OrderEntry.ChecksMeanAffords | modules/market/handlers.go:301-340 | The two balance checks together mean that amount and fees can be frozen, also when they come out of the same coins |
| OrderEntry.FreezesSucceed | modules/market/handlers.go:167-184 | None of the three freezes of an affordable order fails unless its sender is barred, and together they move exactly what the order reserves |
| OrderEntry.FreezesRefused | modules/market/handlers.go:167-184 | Of an affordable order only the fees can be refused, and exactly where there are any and CET is barred to the sender |
| OrderEntry.EntryKeepsSolvent | modules/market/handlers.go:226-299 | A new order with its reserve frozen keeps every order backed and every surplus |
| MatchRun.FilterCandidates | modules/market/endblocker.go:229-238 | Exactly the candidates whose sender neither token issuer has barred |
| MatchRun.CollectUpdates | modules/market/endblocker.go:278-287 | Every order that dealt, as it is now, and every immediate-or-cancel order of this block, nothing else |
| MatchRun.RunMatch | modules/market/endblocker.go:240-290 | The ledger and the changed orders are the replay of valid deals of this market at the one price returned; the market is quiet afterwards; when nobody is barred its whole book is cleared as an auction over all of it would |
| MatchRun.MatchQuietens | modules/market/endblocker.go:276 | No two tradable orders of the market reach each other after a match |
| MatchRun.TurnTrades | modules/market/endblocker.go:247-289 | What the changed orders show is what valid deals on the whole exchange give; the last price is zero exactly if nothing dealt |
| MatchRun.ReferencePrices | modules/market/endblocker.go:244-245 | The high and the low reference price lie the ratio above and below the last price, to the nearest unit of the last digit, and never on its other side |
| Market.Keeper.HandleMsgCreateOrder | modules/market/handlers.go:226-299 | Accepted exactly if the message is countable, admissible, affordable and new; then exactly its order is entered with exactly its reserve frozen, whose parts MoneyIsEnough, CommissionOfVolume and FeatureFeePerBlock determine; else nothing changes. Every invariant is kept |
| Market.GranularityCountsDigits | modules/market/internal/types/market_info.go:19-24 | The granularity is ten to the number of digits, and one beyond eight |
| Market.Keeper.CheckMsgCreateOrder | modules/market/handlers.go:301-340 | Passes exactly if the order is affordable, its identifier is new, and the market takes it |
| Market.Keeper.HandleFeeForCreateOrder | modules/market/handlers.go:167-184 | The three freezes in turn: succeeds exactly if each of them can be made from what the ones before it left, and stops with what it had done at the first that cannot |
| Market.Keeper.HandleMsgCancelOrder | modules/market/handlers.go:342-372 | Exactly the sender of an order may cancel it; it is closed and leaves the book; every invariant is kept |
| Market.Keeper.HandleMsgCreateTradingPair | modules/market/handlers.go:38-108 | Exactly when a new pair is created, by whom, and what it costs; its record has no last price, and an order precision above the maximum counts as none |
| Market.Keeper.HandleMsgCancelTradingPair | modules/market/handlers.go:393-441 | Exactly when a request is entered: not too soon, by the owner of the stock, once; the delist indexes stay inverse |
| Market.Keeper.ChargeFee | modules/market/endblocker.go:200-219 | The rebate, if any, is sent and the rest collected; refused parts change nothing |
| Market.Keeper.RemoveOrder | modules/market/endblocker.go:153-161 | The order is closed and leaves book and indexes |
| Market.Keeper.RemoveExpiredOrder | modules/market/endblocker.go:292-311 | Exactly the overdue orders of the listed markets leave, each closed as it stood |
| Market.Keeper.RemoveExpiredMarket | modules/market/endblocker.go:313-335 | Exactly the markets whose time has come end, with all their orders closed and their requests gone |
| Market.Keeper.GetMarketsWithNewlyAddedOrder | modules/market/internal/keepers/keeper.go:55-65 | Exactly the marked markets, each once |
| Market.Keeper.UpdateOrder | modules/market/endblocker.go:400-409 | A changed order is written back, and closed and removed exactly if it is done; with the others still pending the exchange stays backed |
| Market.Keeper.UpdateOrders | modules/market/endblocker.go:400-409 | All changed orders of a market are written back, in any order: the book is settled, and what left was closed as it stood |
| Market.Keeper.MatchMarkets | modules/market/endblocker.go:377-391 | Market by market: one run of valid deals on the whole exchange, and each market that had its turn stays cleared while others take theirs |
| Market.Keeper.WriteBack | modules/market/endblocker.go:392-415 | Every changed order is settled, orders that are done are closed, and exactly the markets that dealt get their price |
| Market.Keeper.EndBlockMatching | modules/market/endblocker.go:364-415 | The block is a run of valid deals and then the closing of the orders that left; every marked market has one price, recorded as its last, is quiet, and keeps no immediate-or-cancel order of this block; other markets deal nothing. Exactly the orders that are done leave: those that dealt and are filled or good for one block only, and those of this block that are good for it only, in a market that had its turn. The marks left are those of markets with a forbidden token. A mark without a market stops the block, which then leaves book, ledger, store and markets as they were |
| Market.Keeper.EndBlocker | modules/market/endblocker.go:337-416 | On the first block of a day exactly the overdue orders and delisted markets leave, with no deal; no mark changes; on every other block what EndBlockMatching states. All invariants are kept |
| MarketRuns.EndingStrands | modules/market/endblocker.go:313-335 | On the first block of a day a mark survives, so a marked market that ends then leaves its mark without a market |
| MarketRuns.StrandedByEnding | modules/market/endblocker.go:313-335 | A step leaves a mark without a market that was not there before exactly if it is a clean-up that ends that market while it is marked |
| MarketRuns.StrandedInARun | modules/market/endblocker.go:313-335 | So a run that ends with such a mark, and did not begin with it, has such a clean-up |
| MarketRuns.MarksKeepTheirMarkets | modules/market/endblocker.go:364-375 | Over any run in which no clean-up ends a marked market every mark has its market, so no block is stopped |
| MarketRuns.NothingDealsWhileStranded | modules/market/endblocker.go:364-375 | Over any run of steps that begins with such a mark, until that market is listed again: the mark stays, no block deals in any market, and every block that is not the first of its day changes nothing at all |
| MarketRuns.AccountsOverARun | modules/market/endblocker.go:73-116 | Over any run of steps an order that stays on the book keeps its terms, and its stock and money add up over all its deals |
| MarketRuns.LifeOfAnOrder | modules/market/endblocker.go:73-116 | From entry over any number of blocks: what was dealt and what is left make up the quantity; frozen and paid money of a buyer are what entry froze; a seller holds what is left frozen and has received less than one coin per deal short of its limit |
| MarketCases.EndWhileMarked | modules/market/endblocker.go:355-362 | From any state in which a due request is pending, an accepted order of the same block leaves its mark behind when the market ends |
| MarketCases.BlockWhileStranded | modules/market/endblocker.go:364-375 | The next block that is not the first of its day deals nowhere and leaves book, ledger, store and markets as they were |
| LiftedBans.QuietUnlessLifted | modules/market/endblocker.go:229-238 | A market that was matched stays without a pair of tradable orders that meet, whatever its orders are, if and only if no ban that was in force at the match has been lifted since |
| LiftedBans.MatchWithout | modules/market/endblocker.go:229-238 | A block matches a market without the orders of a forbidden sender: they stay as they are, and the mark goes |
| LiftedBans.CrossByLifting | modules/market/endblocker.go:229-238 | Two orders that meet are accepted, their sender is forbidden a token, a block matches the market, and the ban is lifted: the market has no mark, and two of its orders may trade and meet |
| LiftedBans.PassOver | modules/market/endblocker.go:364-391 | The next block leaves both orders where they are, and the market unmarked |
| Market.Keeper.MatchAll | modules/market/endblocker.go:377-415 | The two loops together, over the marked markets |
| Blocks.DoneLeave | modules/market/endblocker.go:392-409 | From the lists of changed orders: which orders are gone after the block, and which are not |
| BlockRuns.BystanderStays | modules/market/endblocker.go:392-409 | An order that is not done and took no part in a deal is still on the book, as it was |
| BlockRuns.StaysUnlessDone | modules/market/endblocker.go:392-409 | Of the orders that dealt, those with nothing left and those good for one block only are gone; every order with something left that is good for longer is there, as the deals left it |
| BlockRuns.BarredDealNothing | modules/market/endblocker.go:229-238 | An order whose sender is forbidden one of the tokens takes no part in any deal of the block |
| BlockRuns.ClosingsTwice | modules/market/endblocker.go:400-409 | Closing some orders and then others is closing all of them, each once and as it stood |
| BlockRuns.OrdersOverABlock | modules/market/endblocker.go:337-416 | An order still on the book after a block kept its terms, and its stock and money add up over its deals |
| BlockRuns.AllAuctioned | modules/market/endblocker.go:377-415 | From the turns of all markets: a market that is not due deals nothing; each other one has one price for all its deals, which is its last price from then on, and its whole book cleared at it |
| Priority.PriceIsRemembered | modules/market/endblocker.go:392-415 | After a block a market has the price of its deals as its last price, whatever they were, and is unchanged without any; nothing else of its record changes |
| Priority.HaltedMarketsRest | modules/market/endblocker.go:378-386 | In a market one of whose tokens is forbidden as a whole nothing is dealt, not even by those who are exempt from the ban |
| Blocks.EndedMarketIsEmpty | modules/market/endblocker.go:313-335 | Of a market that ended no order is left, and no order of another market went with it |
| Blocks.IocIsWritten | modules/market/endblocker.go:278-287 | No immediate-or-cancel order placed in a block that matched its market is left |
| MarketState.TurnKeepsCalm | modules/market/endblocker.go:377-391 | Every market without a newly-added mark stays quiet, under the bans it was last matched under, while another is matched under the present ones |
| BancorCurve.CheckedCurveIsValid | modules/bancorlite/internal/types/msgs.go:66-179 | A message that passes the check gives prices in order, a table row in range, and a maximum of money between the two linear bounds |
| BancorCurve.RatioMonotone | modules/bancorlite/internal/keepers/bancor_info.go:46-66 | The interpolated table rises with the supplied stock, within and across segments |
| BancorCurve.RatioBounds | modules/bancorlite/internal/keepers/bancor_info.go:46-66 | Interpolation stays between its two samples and between 0 and 1 |
| BancorCurve.SampleInRange | modules/bancorlite/internal/keepers/bancor_info.go:44-59 | Every table index is in range, the neighbour is only read below the last sample |
| BancorCurve.CurveMonotone | modules/bancorlite/internal/keepers/bancor_info.go:33-74 | In both modes more supplied stock never lowers the money or the price, and the price stays between the two given prices |
| BancorCurve.CurveEnds | modules/bancorlite/internal/keepers/bancor_info.go:33-74 | An untouched pool has no money and the initial price; one that supplied everything has the maximal price and, in table mode, exactly its maximal money |
| BancorCurve.MoneyWithinMaximum | modules/bancorlite/internal/keepers/bancor_info.go:33-74 | The money in a pool never exceeds what the whole supply is worth, nor the maximum that was set |
| CurveShape.LinearPriceIsShare | modules/bancorlite/internal/keepers/bancor_info.go:39-40 | In a linear pool the price has risen through the same part of its span as the stock of the supply, within a unit of the last digit |
| CurveShape.LinearMoneyIsMean | modules/bancorlite/internal/keepers/bancor_info.go:41 | Its money is the mean of the initial and the present price, times the supplied stock, rounded to a coin |
| CurveShape.LinearMoneyIsArea | modules/bancorlite/internal/keepers/bancor_info.go:39-41 | Moving a linear pool between two stocks costs at least the lower and at most the higher of the two prices for each piece, within two coins |
| CurveShape.FullLinearPool | modules/bancorlite/internal/keepers/bancor_info.go:39-41 | A linear pool that supplied everything holds the mean of its two prices for each piece, rounded |
| CurveShape.CheckedPoolFitsTrades | modules/bancorlite/internal/types/msgs.go:66-150 | The check of the prices keeps the money of a linear pool within the largest amount of a trade |
| CurveShape.TableFollowsChords | modules/bancorlite/internal/keepers/bancor_info.go:42-72 | With a maximum of money the price follows the chords between the samples of the row of the power of the pool, and the money beyond the initial price those of the row of that power plus one, within the last digit |
| CurveShape.PowerOfCurve | modules/bancorlite/internal/types/msgs.go:169-179 | The power is the money missing to the end price divided by the money beyond the initial price, in thousandths, rounded down |
| BancorPools.BancorInfo.UpdateStockInPool | modules/bancorlite/internal/keepers/bancor_info.go:33-74 | Fails exactly for a stock outside the supply and then changes nothing; otherwise stock, money and price are on the curve, whose shape CurveShape determines |
| BancorPools.BancorInfo.FollowTable | modules/bancorlite/internal/keepers/bancor_info.go:42-72 | The interpolation code computes the curve of the table |
| BancorPools.LinearPoolIsConsistent | modules/bancorlite/internal/keepers/bancor_info.go:76-97 | A linear pool on its curve passes the check if and only if its prices differ, or it is untouched and its whole supply is worth less than one coin |
| Bancor.FlatPoolIsInconsistent | modules/bancorlite/internal/keepers/bancor_info.go:82-89 | A message with equal prices and no maximum of money passes its own check, but the pool it opens fails the consistency check if and only if its supply is worth a coin |
| Bancor.FlatMessage | modules/bancorlite/internal/types/msgs.go:66-179 | There is such a message: a supply of one at a price of one |
| BancorRuns.PoolOverARun | modules/bancorlite/handler.go:142-268 | Over any run of accepted trades the stock of a pool falls by what was bought less what was sold, its money rises by what the senders paid less what they received, and it stays on its curve |
| BancorRuns.TradeMeans | modules/bancorlite/handler.go:142-217 | An accepted buy takes its amount out of the pool and pays the difference of the curve, an accepted sale the other way round, within the limit of the sender |
| BancorRuns.TradePays | modules/bancorlite/handler.go:200-217 | The sender gets and gives exactly that and pays the commission, of which its referee gets the rebate, rounded down, and the collector the rest |
| BancorRuns.LinearTradeIsFair | modules/bancorlite/handler.go:142-198 | A trade with a linear pool costs, or yields, for each piece at least the lower and at most the higher of the prices the pool shows before and after, within two coins |
| BancorRuns.MoneyIsConserved | modules/bancorlite/handler.go:142-268 | Over any run of accepted trades the money paid into a pool less the money paid out is what the pool holds more at the end, which is the difference of the curve at the two stocks; it is nothing when the stock is back where it was |
| BancorRuns.OwnerGains | modules/bancorlite/handler.go:291-306 | Over any run of trades with one pool its owner has more frozen money by exactly what was paid in less what was paid out, and less frozen stock by what was bought; no other frozen coin moves |
| BancorRuns.SpendableLost | modules/bancorlite/handler.go:291-306 | Over such a run all spendable purses together lose exactly what the frozen money of the owner gains, commissions and rebates included; none of it is made or lost |
| BancorRuns.RoundTripCostsItsFees | modules/bancorlite/handler.go:142-268 | A sender that buys and sells until the stock is back where it was has paid its commissions and nothing else, whatever the prices were on the way |
| BancorPools.PoolIsFrozen | modules/bancorlite/handler.go:142-268 | Everything a pool holds is frozen in the account of its owner, so its release cannot run short |
| Bancor.BancorKeeper.SwapStockAndMoney | modules/bancorlite/handler.go:291-306 | With the pool frozen, only the purse of the trader can make a swap fail, and then at its first step; the coins moved are exactly those of both sides |
| Bancor.BancorKeeper.ChargeTrade | modules/bancorlite/handler.go:200-213 | When the commission can be charged, and what it and the rebate move |
| Bancor.TradeFeeOfVolume | modules/bancorlite/handler.go:276-289 | The commission of a trade is the larger of the minimum and the rate on the volume, rounded down |
| Bancor.BancorKeeper.PriceTrade | modules/bancorlite/handler.go:142-198 | Which trades pass the checks, and that the amount of money is the difference the trade makes on the curve |
| Bancor.BancorKeeper.HandleMsgBancorInit | modules/bancorlite/handler.go:32-100 | Exactly when a pool opens; then all of its stock is frozen and the fee paid; else nothing changes |
| Bancor.BancorKeeper.HandleMsgBancorCancel | modules/bancorlite/handler.go:102-140 | Exactly when a pool closes; then its owner gets back all that was in it; both releases succeed |
| Bancor.BancorKeeper.HandleMsgBancorTrade | modules/bancorlite/handler.go:142-268 | Exactly when a trade goes through; then stock and money move at the difference of the curve, within the limit, and nothing else but the fee; every pool stays on its curve and backed |
| Bancor.TradeIsFunded | modules/bancorlite/handler.go:159-217 | The frozen coins of the owner hold what a trade takes out of the pool |
| UnlockQueue.QueueKeyInjective | modules/authx/internal/keepers/keeper.go:192-198 | A queue key determines its time and its account |
| UnlockQueue.DueRange | modules/authx/internal/keepers/keeper.go:112-115 | The scan up to a time selects exactly the keys of that time and of earlier ones |
| LockedCoins.QueueAfter | modules/bankx/internal/keeper/keeper.go:92-112 | Adjusting the entry of one time keeps the queue exact: an entry for every account and time with a locked coin, and no other |
| LockedCoins.QueueAfterDue | modules/authx/endblocker.go:9-25 | Deleting the scanned keys after the due coins were paid keeps the queue exact |
| LockedCoins.DueAndLater | modules/authx/endblocker.go:37-45 | What is due and what stays locked add up to what was locked |
| Locking.LockFeeCountsDays | modules/bankx/internal/keeper/keeper.go:81-91 | A lock is free if and only if it ends within the free time or a day has no price; otherwise every day begun beyond the free time is paid in full and no day more, and it is refused if and only if that exceeds 64 bits |
| Locking.LockKeeper.SendLockedCoins | modules/bankx/internal/keeper/keeper.go:70-115 | Exactly when coins can be locked; then the receiver has exactly the new locked coins, the sender has paid them and the fee, which LockFeeCountsDays determines, the counts of the tokens and the queue follow, and what exists of every coin is the same; else nothing changes |
| Locking.LockKeeper.EarlierUnlockCoin | modules/bankx/internal/keeper/keeper.go:117-188 | Exactly when a locked coin can be released early: the first equal one goes, less the reward to the supervisor; the queue loses the entry only if no other coin has that time |
| Locking.UnlockPays | modules/bankx/internal/keeper/keeper.go:143-170 | Of a coin released early the supervisor gets exactly the reward and the receiver all the rest, or everything if there is no supervisor; nobody else gains |
| Locking.LockCanBeUndone | modules/bankx/internal/keeper/keeper.go:96-106 | A supervised lock can be released early by exactly the accounts, the time and the reward it was made with; any other names nobody who could |
| Locking.LockKeeper.FindLock | modules/bankx/internal/keeper/keeper.go:124-137 | Finds the first equal coin, and whether another coin has its time |
| Locking.LockKeeper.WithdrawUnlockedCoins | modules/authx/endblocker.go:36-58 | All due coins of an account, added up per denomination, become spendable and leave the counts of their tokens; the others stay in order |
| Locking.LockKeeper.EndBlocker | modules/authx/endblocker.go:9-25 | After the block no coin with a time up to now is locked, each owner has received exactly its due coins, and the queue and the counts are exact |
| Locking.LockKeeper.UpdateTokenSendLock | modules/asset/internal/keepers/keeper.go:644-664 | Fails for an unknown token and below zero; otherwise the count moves by the amount |
| Locking.CountedCovers | modules/bankx/internal/keeper/keeper.go:143-145 | The count of a token covers each of its locked coins, so an early unlock is never refused by it |
| Tokens.NewToken | modules/asset/internal/types/token.go:104-149 | A record is built exactly if every setter accepts its part, and then it is valid |
| Tokens.ValidSymbolIsPlain | modules/asset/internal/types/token.go:203-208 | Valid symbols can stand in the symbol of a market and in store keys |
| Asset.AssetKeeper.HandleMsgIssueToken | modules/asset/handler.go:48-82 | Exactly when a token is issued; then its supply comes into existence with its owner, and nothing of it existed before |
| Asset.AssetKeeper.TransferOwnership | modules/asset/internal/keepers/keeper.go:131-145 | Exactly when, and only the owner changes |
| Asset.AssetKeeper.HandleMsgMintToken | modules/asset/handler.go:109-133 | Exactly when, and supply, coins and the mint total grow together |
| Asset.AssetKeeper.HandleMsgBurnToken | modules/asset/handler.go:136-160 | Exactly when, and supply and coins shrink together; the last coin of a token is never burnt |
| Asset.AssetKeeper.SetForbidden | modules/asset/internal/keepers/keeper.go:201-234 | Exactly when a token is forbidden or released, and only that flag changes |
| Asset.AssetKeeper.ModifyTokenInfo | modules/asset/internal/keepers/keeper.go:301-413 | Exactly when a record may change and to what; a new supply is met by coins made or burnt; the list of forbidden addresses is cleared exactly when they may no longer be forbidden |
| Asset.ModifiedRecord | modules/asset/internal/keepers/keeper.go:301-413 | A changed record has every field that an owner may set, keeps symbol and owner, and forgets the totals and the ban that a right given up had led to |
| Asset.HoldersAreProtected | modules/asset/internal/keepers/keeper.go:301-413 | As long as anybody but the owner has any of a token, be it spendable, frozen or locked, no accepted change renames it, changes its supply, adds the right to mint or to forbid it, or takes away the right to burn it |
| Asset.ResizesAreCounted | modules/asset/internal/keepers/keeper.go:148-198 | What is minted or burnt is counted by the record, and undoes each other in the total |
| Asset.AssetKeeper.SetAddressesForbidden | modules/asset/internal/keepers/keeper.go:269-299 | Exactly when addresses are put on the list of a token or taken off it, and which; empty ones are skipped; the bank goes by the new list |
| Asset.AssetKeeper.SetWhitelisted | modules/asset/internal/keepers/keeper.go:237-267 | The same for the whitelist of a token that can be forbidden as a whole |
| Asset.AssetKeeper.AddForbiddenAddress | modules/asset/internal/keepers/keeper.go:481-491 | The loop adds exactly the given addresses that are not empty, for this token |
| Asset.AssetKeeper.RemoveForbiddenAddress | modules/asset/internal/keepers/keeper.go:493-503 | The loop takes exactly those addresses off, for this token |
| Asset.AssetKeeper.GetForbiddenAddresses | modules/asset/internal/keepers/keeper.go:577-589 | Exactly the addresses on the list of the token |
| Asset.AssetKeeper.IsForbiddenByTokenIssuer | modules/asset/internal/keepers/keeper.go:616-641 | The branches of the check answer what the bank, the market and the pools go by |
| Asset.IssuerRulesMean | modules/asset/internal/keepers/keeper.go:616-641 | A listed address is forbidden whatever else holds, even on the whitelist or as owner; another one exactly if the token is forbidden as a whole and it is neither whitelisted nor the owner |
| Asset.SameRules | modules/asset/internal/keepers/keeper.go:148-198 | Minting and burning change nobody's ban |
| Asset.ResizeKeepsAccount | modules/asset/internal/keepers/keeper.go:148-198 | If coins and recorded supply of a token move together, total supply stays what exists of every token |
| Asset.UndistributedHasOneHolder | modules/asset/internal/keepers/keeper.go:327-328 | If the owner has all of the total supply of a token, nobody else has any, be it spendable, frozen or locked |
| Withholding.CloseWithholds | modules/market/endblocker.go:153-219 | Closing an order takes no token from an account that is forbidden to send it; only CET is charged |
| Withholding.BlockWithholds | modules/market/endblocker.go:337-416 | Nor does any block, over all its deals and closings |
| Withholding.TradeWithholds | modules/bancorlite/handler.go:142-268 | Nor does an accepted trade with a pool |
| Withholding.BannedCoinsStay | modules/bankx/internal/keeper/keeper.go:289-297 | What the clauses about bans of all Chain.App steps add up to: over any run of such steps, as long as an account is forbidden a token other than CET that it does not own, it never can spend less of it than before |
| Chain.MarketStep | modules/market/endblocker.go:164-198 | A step of the market keeps the account of frozen coins exact: open orders and pools hold all of them |
| Chain.BancorStep | modules/bancorlite/handler.go:291-306 | A step of the bancor module keeps the same account exact, and every order backed |
| Chain.App.constructor | modules/bankx/internal/keeper/keeper.go:30-43 | A chain with nothing frozen starts with all invariants |
| Chain.App.CreateOrder | modules/market/handlers.go:226-299 | Over one ledger: accepted exactly if acceptable; frozen coins stay exactly those of orders and pools, the supply of every token stays what exists of it, and nobody loses coins that its issuer forbids it to send |
| Chain.App.CancelOrder | modules/market/handlers.go:342-372 | The same for a cancellation |
| Chain.App.CreateTradingPair | modules/market/handlers.go:38-108 | The same for a new pair: exactly when, for tokens that exist and by the owner of the stock |
| Chain.App.CancelTradingPair | modules/market/handlers.go:393-441 | The same for a request to end a market: exactly when |
| Chain.App.EndBlock | modules/market/endblocker.go:337-416 | The same for a whole block, which is a run of valid deals and then closings |
| Chain.App.BancorInit | modules/bancorlite/handler.go:32-100 | The same for opening a pool: exactly when |
| Chain.App.BancorTrade | modules/bancorlite/handler.go:142-268 | The same for a trade with a pool |
| Chain.App.BancorCancel | modules/bancorlite/handler.go:102-140 | The same for closing a pool: exactly when, and exactly what its owner gets back |
| Chain.App.SendCoins | modules/bankx/internal/keeper/keeper.go:62-68 | The same for plain transfers |
| Chain.App.SendLocked | modules/bankx/internal/keeper/keeper.go:70-115 | The same for locked sends |
| Chain.App.UnlockEarly | modules/bankx/internal/keeper/keeper.go:117-188 | The same for early unlocks |
| Chain.App.PayDueLocks | modules/authx/endblocker.go:9-25 | The same for due coins: none stays locked |
| Chain.App.IssueToken | modules/asset/handler.go:48-82 | The same for issuing |
| Chain.App.TransferOwnership | modules/asset/internal/keepers/keeper.go:131-145 | The same for a new owner, who is exempt from the bans on the token as a whole from then on |
| Chain.App.SetForbidden | modules/asset/internal/keepers/keeper.go:201-234 | The same for forbidding a token as a whole or lifting that |
| Chain.App.SetAddressesForbidden | modules/asset/internal/keepers/keeper.go:269-299 | The same for forbidding addresses or lifting that |
| Chain.App.SetWhitelisted | modules/asset/internal/keepers/keeper.go:237-267 | The same for the whitelist |
| Chain.App.MintToken | modules/asset/internal/keepers/keeper.go:148-171 | The same for minting |
| Chain.App.BurnToken | modules/asset/internal/keepers/keeper.go:174-198 | The same for burning: exactly when |
| Chain.App.ModifyTokenInfo | modules/asset/internal/keepers/keeper.go:301-413 | The same for changing the record of a token |

## Left out

- Identity of order objects: the engine handles orders by identifier and keeps their current values in one map, where the source shares references between its lists; aliasing of two references to one order is not expressible.
- `GetHash`: the hash of an order is a number given by `tieBreak`; results that compare with the whole book ask that it tells orders apart.
- `CallAuction.Match`: nothing is said about lists that contain an order with nothing left; the market supplies lists of open orders only, and an empty order could stall the loop.
- `Settlement.RunAccounts`: does not model the wrap-around of the 64-bit `DealMoney` of a seller, because the source does not bound it; amounts are mathematical integers.
- `Market.Keeper.EndBlocker`: the comparison of calendar days is the parameter `needRemove`; heights and times are bounded by eight bytes as in their keys.
- `Market.Keeper.EndBlocker`: does not say that immediate-or-cancel orders never outlive their block, because on the first block of a day, and for a market with a globally forbidden token, the code lets them.
- `Market.Keeper.HandleMsgCreateOrder`: the quoted market volume behind the commission, and the account sequence, are parameters.
- `BancorCurve.CurveMonotone`: the generated table is any table whose rows from 1 on rise from 0 to the largest value (`BancorCurve.SomeTable` is one); its numbers and the floating-point generator are not part of this model.
- `BancorPools.LinearPoolIsConsistent`: the consistency check in table mode, which rejects pools whose ratio check succeeds, is not modelled.
- `BancorCurve.CheckedCurveIsValid`: parsing of price strings; prices are given as decimals.
- `Bancor.BancorKeeper.HandleMsgBancorTrade`: the quoted volume behind the commission is a parameter.
- `Locking.LockKeeper.EndBlocker`: the written form of a time is any fixed-width form that sorts as time does (`UnlockQueue.SomeFormat` is one), and unlock times fit nanoseconds in 64 bits.
- `Locking.LockKeeper.SendLockedCoins`: activation fees, memo rules and the checks of the message handler above it.
- `Locking.LockKeeper.UpdateTokenSendLock`: the count of a token is kept beside the lock queue and not inside the record of the token.
- `Asset.AssetKeeper.SetAddressesForbidden`: the two lists of addresses are sets of pairs; the byte keys under which they are stored, a token's symbol and a colon before the address, are not modelled.
- `Withholding.BannedCoinsStay`: says nothing about CET, because fees are charged in CET without asking its issuer, nor about the owner of a token, who may burn it.
- Changing the price precision of a market, and import and export of genesis state; locked coins start empty.
- The bank, auth, supply and params modules below: only the few balance operations used, with whole coins; vesting accounts, gas and zero-amount coins in raw coin lists are not part of this model.
- Events, the message queue, queriers, command line, REST, codecs, the bancor display record, and the modules alias, incentive, comment, distributionx, stakingx and supplyx.
