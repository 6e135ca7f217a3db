/** Two situations that the market module lets arise: an order whose commission cannot be paid out
    of what it froze, and a market that is ended while it is marked. */
module MarketCases {
  import opened Auction
  import opened BlockRuns
  import opened Blocks
  import opened Closing
  import opened Decimals
  import opened Delist
  import opened Ledgers
  import opened Market
  import opened MarketRuns
  import opened MarketState
  import opened OrderEntry
  import opened Orders
  import opened OrderStore
  import opened Overlays
  import opened Settlement
  import opened StoreKeys

  // ------------------------------------------------------------ orders that enter

  /** What the parameters satisfy at genesis, in the integers that they are stored in. */
  predicate GenesisParams(params: Params)
  {
    ValidParams(params) && params.feeMin <= params.rules.feeForZeroDeal <= MAX_INT64 && params.feeRate <= MAX_INT64
  }

  function Least(a: int, b: int): int { if a <= b then a else b }

  /** Every commission that is frozen at all reaches the fee for an order that does not deal. */
  predicate FeesAgree(params: Params)
  {
    || Least(params.rules.feeForZeroDeal, MAX_ORDER_AMOUNT) <= params.feeMin
    || (params.feeMin == 0 && (params.feeRate == 0 || params.rules.feeForZeroDeal <= 1))
  }

  /** A sender that pays its fees itself, and a market whose tokens may be traded and are not both
      CET. */
  predicate Plain(sender: Addr, symbol: string, params: Params)
  {
    && sender != FEE_COLLECTOR && sender !in params.rules.referees && ZeroFree(symbol)
    && StockOf(symbol) !in params.forbiddenTokens && MoneyOf(symbol) !in params.forbiddenTokens
    && (StockOf(symbol) != CET || MoneyOf(symbol) != CET)
  }

  /** A fresh order that a solvent exchange accepts. */
  ghost predicate Enters(m: MsgCreateOrder, sequence: Option<nat>, volume: Dec, params: Params, x: Exchange,
                         markets: Markets, forbidden: Forbidden)
  {
    ValidateBasic(m) && Solvent(x) && Acceptable(m, sequence, volume, params, x, markets, forbidden)
  }

  /** The order that the message enters has a payable commission as long as it does not deal. */
  ghost predicate EnteredPayable(m: MsgCreateOrder, sequence: Option<nat>, volume: Dec, params: Params,
                                 forbidden: Forbidden)
  {
    && ValidateBasic(m) && Countable(m, sequence, volume, params)
    && var o := EnteredOrder(m, sequence, volume, params); Sound(o) && Payable(o, forbidden, params.rules)
  }

  /** What is charged to an order that did not deal. */
  lemma NoDealCommission(o: Order, rules: FeeRules)
    requires Sound(o) && o.dealStock == 0
    ensures CommissionOf(o, rules) == Least(rules.feeForZeroDeal, MAX_ORDER_AMOUNT)
  {
    TruncateOf(rules.feeForZeroDeal);
    TruncateOf(MAX_ORDER_AMOUNT);
  }

  lemma NoRateNoCommission(m: MsgCreateOrder, volume: Dec, params: Params)
    requires params.feeRate == 0 && params.feeMin == 0 && CalOrderCommission(m, volume, params).Some?
    ensures CalOrderCommission(m, volume, params).value == 0
  {
    hide CalculateAmount;
    assert QuoInt(NewDec(0), MARKET_FEE_RATE_BASE) == 0 && Mul(volume, 0) == 0;
  }

  lemma AgreedFeesArePayable(m: MsgCreateOrder, sequence: Option<nat>, volume: Dec, params: Params,
                             forbidden: Forbidden)
    requires ValidateBasic(m) && GenesisParams(params) && FeesAgree(params) && Countable(m, sequence, volume, params)
    ensures var o := EnteredOrder(m, sequence, volume, params); Sound(o) && Payable(o, forbidden, params.rules)
  {
    hide EnteredOrder, CalOrderCommission, Payable, Sound, CommissionOf;
    EnteredIsSound(m, sequence, volume, params);
    var o := EnteredOrder(m, sequence, volume, params);
    NoDealCommission(o, params.rules);
    LeastCommission(m, volume, params);
    if params.feeMin == 0 && params.feeRate == 0 { NoRateNoCommission(m, volume, params); }
    CoveredIsPayable(o, forbidden, params.rules);
  }

  lemma LeastCommission(m: MsgCreateOrder, volume: Dec, params: Params)
    requires CalOrderCommission(m, volume, params).Some?
    ensures CalOrderCommission(m, volume, params).value >= params.feeMin
  {
  }

  /** The smallest order of a market, for one block. */
  function SmallOrder(sender: Addr, symbol: string): MsgCreateOrder
  {
    MsgCreateOrder(sender, 0, symbol, 0, 1, 1, if MoneyOf(symbol) == CET then Ask else Bid, IOC, 0)
  }

  lemma SmallAmount(sender: Addr, symbol: string)
    requires ZeroFree(symbol)
    ensures var m := SmallOrder(sender, symbol);
            && ValidateBasic(m) && CalculateAmount(m).Some?
            && GetDenomAndOrderAmount(m) == Some((if m.side == Ask then StockOf(symbol) else MoneyOf(symbol), 1))
  {
    hide ActualPrice, Mul, Ceil, RoundInt;
    var m := SmallOrder(sender, symbol);
    PriceIsExact(m);
    assert Pow10(0) == 1 && ActualPrice(m) == ONE;
    MulWhole(ONE, 1);
    CeilRounds(ONE);
  }

  /** No issuer forbids anything. */
  function Allowing(symbol: string): Forbidden { ByIssuers({CET, StockOf(symbol), MoneyOf(symbol)}, {}, {}, {}) }

  /** A volume so small that the rate asks for one coin at most. */
  function SmallVolume(params: Params): Dec
  {
    if params.feeMin > 0 then 0 else if params.feeRate < MARKET_FEE_RATE_BASE then 10_000 else 1
  }

  lemma SmallCommission(m: MsgCreateOrder, params: Params)
    requires CalculateAmount(m).Some? && params.feeRate <= MAX_INT64 && (params.feeMin > 0 || params.feeRate > 0)
    ensures var c := if params.feeMin > 0 then params.feeMin
    else 1; CalOrderCommission(m, SmallVolume(params), params) == Some(c)
  {
    hide CalculateAmount, CalOrderCommission;
    var k := CommissionOfVolume(m, SmallVolume(params), params);
  }

  /** The smallest order, for the longest time that a message can ask for. */
  function LongestOrder(sender: Addr, symbol: string): MsgCreateOrder
  {
    SmallOrder(sender, symbol).(timeInForce := GTE, existBlocks := MAX_INT64)
  }

  /** Where blocks have no price such an order is accepted, unless something else forbids it, and
      is overdue in the next block. */
  lemma LongestLifeIsShortest(sender: Addr, symbol: string, params: Params)
    requires GenesisParams(params) && ZeroFree(symbol) && params.featureFeeByBlocks == 0
    requires params.feeMin > 0 || params.feeRate > 0
    requires params.feeMin <= MAX_ORDER_AMOUNT && 0 < params.rules.height <= MAX_INT64
             && params.rules.freeBlocks <= MAX_INT64
    ensures var m, volume := LongestOrder(sender, symbol), SmallVolume(params);
            && ValidateBasic(m) && Countable(m, Some(0), volume, params)
            && var o := EnteredOrder(m, Some(0), volume, params);
               !IsOverdue(o, params.rules.height) && IsOverdue(o, params.rules.height + 1)
  {
    hide CalculateAmount, CalOrderCommission, ZeroFree, GetDenomAndOrderAmount, ActualPrice, IsOverdue, NewOrder;
    var m, volume := LongestOrder(sender, symbol), SmallVolume(params);
    SmallAmount(sender, symbol);
    SameAmount(SmallOrder(sender, symbol), m);
    SmallCommission(m, params);
    var amount, fee := GetDenomAndOrderAmount(m).value.1, CalOrderCommission(m, volume, params).value;
    EntryExpires(m, 0, params, amount, fee, params.rules.height);
    EntryExpires(m, 0, params, amount, fee, params.rules.height + 1);
  }

  lemma SameAmount(m: MsgCreateOrder, n: MsgCreateOrder)
    requires n == m.(timeInForce := n.timeInForce, existBlocks := n.existBlocks)
    ensures CalculateAmount(n) == CalculateAmount(m) && GetDenomAndOrderAmount(n) == GetDenomAndOrderAmount(m)
  {
    hide Mul, Quo, Ceil;
    assert ActualPrice(n) == ActualPrice(m);
  }

  /** What the smallest order is, and that it enters unpayable where the fees do not agree. */
  lemma SmallEntered(sender: Addr, symbol: string, params: Params)
    requires GenesisParams(params) && !FeesAgree(params) && Plain(sender, symbol, params)
    ensures var m, volume := SmallOrder(sender, symbol), SmallVolume(params);
            && ValidateBasic(m) && Countable(m, Some(0), volume, params)
            && var o := EnteredOrder(m, Some(0), volume, params);
               && Sound(o) && o.terms.sender == sender && o.terms.symbol == symbol && o.terms.side == m.side
               && o.freeze == 1
               && 0 < o.terms.frozenCommission < Least(params.rules.feeForZeroDeal, MAX_ORDER_AMOUNT)
               && o.terms.frozenFeatureFee == 0
               && o.dealStock == 0
  {
    hide Sound, CalOrderCommission, ZeroFree, GetDenomAndOrderAmount, CalculateAmount, ActualPrice, StockOf, MoneyOf;
    SmallAmount(sender, symbol);
    SmallCommission(SmallOrder(sender, symbol), params);
    EnteredIsSound(SmallOrder(sender, symbol), Some(0), SmallVolume(params), params);
  }

  lemma SmallIsUnpayable(o: Order, params: Params, forbidden: Forbidden)
    requires Sound(o) && ValidParams(params) && Plain(o.terms.sender, o.terms.symbol, params) && o.dealStock == 0
    requires UsedDenom(o.terms) != CET && 0 < o.terms.frozenCommission < Least(params.rules.feeForZeroDeal,
          MAX_ORDER_AMOUNT)
    ensures !Payable(o, forbidden, params.rules)
  {
    hide Sound, CommissionOf, StockOf, MoneyOf, ZeroFree;
    NoDealCommission(o, params.rules);
  }

  /** Exactly what an order without a feature fee holds. */
  function Purse(o: Order): Ledger
    requires Sound(o)
  {
    Ledger(map[Acct(o.terms.sender, CET) := o.terms.frozenCommission,
               Acct(o.terms.sender, UsedDenom(o.terms)) := o.freeze], map[], {})
  }

  lemma PurseAffords(o: Order)
    requires Sound(o) && UsedDenom(o.terms) != CET && o.terms.frozenFeatureFee == 0
    ensures Affords(Purse(o), o) && Solvent(Exchange(map[], Purse(o)))
  {
    hide Sound, StockOf, MoneyOf;
    NoOrdersSolvent(Purse(o));
  }

  lemma SmallIsAdmissible(sender: Addr, symbol: string, params: Params)
    requires Plain(sender, symbol, params)
    ensures Admissible(SmallOrder(sender, symbol), map[symbol := MarketInfo(StockOf(symbol), MoneyOf(symbol), 0, 0, 0)],
                       params, Allowing(symbol))
  {
    assert Pow10(0) == 1;
  }

  /** Where the fees do not agree, the smallest order can enter unpayable. */
  lemma UnpayableEnters(sender: Addr, symbol: string, params: Params)
    returns (volume: Dec, x: Exchange, markets: Markets)
    requires GenesisParams(params) && !FeesAgree(params) && Plain(sender, symbol, params)
    ensures Enters(SmallOrder(sender, symbol), Some(0), volume, params, x, markets, Allowing(symbol))
    ensures !EnteredPayable(SmallOrder(sender, symbol), Some(0), volume, params, Allowing(symbol))
  {
    hide Sound, ZeroFree, EnteredOrder, Countable, Affords, Solvent, Admissible, StockOf, MoneyOf, Payable, FeesAgree,
         ValidateBasic;
    volume := SmallVolume(params);
    SmallEntered(sender, symbol, params);
    var o := EnteredOrder(SmallOrder(sender, symbol), Some(0), volume, params);
    SmallIsUnpayable(o, params, Allowing(symbol));
    x := Exchange(map[], Purse(o));
    PurseAffords(o);
    markets := map[symbol := MarketInfo(StockOf(symbol), MoneyOf(symbol), 0, 0, 0)];
    SmallIsAdmissible(sender, symbol, params);
  }

  lemma EnteringIsPayable(m: MsgCreateOrder, sequence: Option<nat>, volume: Dec, params: Params, x: Exchange,
                          markets: Markets, forbidden: Forbidden)
    requires GenesisParams(params) && FeesAgree(params) && Enters(m, sequence, volume, params, x, markets, forbidden)
    ensures EnteredPayable(m, sequence, volume, params, forbidden)
  {
    hide EnteredOrder, Payable, Sound, Solvent, Countable;
    AgreedFeesArePayable(m, sequence, volume, params, forbidden);
  }

  /** Whatever such an order is and wherever it is accepted, its commission is payable if it never
      deals. */
  ghost predicate EntriesPayable(sender: Addr, symbol: string, params: Params)
  {
    forall m: MsgCreateOrder, sequence, volume, x, markets,
        forbidden | Enters(m, sequence, volume, params, x, markets, forbidden) ::
      m.sender == sender && m.symbol == symbol ==> EnteredPayable(m, sequence, volume, params, forbidden)
  }

  lemma AgreedEntriesPayable(sender: Addr, symbol: string, params: Params)
    requires GenesisParams(params) && FeesAgree(params)
    ensures EntriesPayable(sender, symbol, params)
  {
    hide Enters, EnteredPayable, FeesAgree, GenesisParams;
    forall m: MsgCreateOrder, sequence, volume, x, markets,
        forbidden | Enters(m, sequence, volume, params, x, markets, forbidden)
      ensures EnteredPayable(m, sequence, volume, params, forbidden)
    {
      EnteringIsPayable(m, sequence, volume, params, x, markets, forbidden);
    }
  }

  lemma OneUnpayableEntry(m: MsgCreateOrder, sequence: Option<nat>, volume: Dec, params: Params, x: Exchange,
                          markets: Markets, forbidden: Forbidden)
    requires Enters(m, sequence, volume, params, x, markets, forbidden)
             && !EnteredPayable(m, sequence, volume, params, forbidden)
    ensures !EntriesPayable(m.sender, m.symbol, params)
  {
    hide Enters, EnteredPayable;
  }

  /** With parameters that genesis admits, no order of a plain sender enters unpayable exactly when
      the fees agree. */
  lemma EntriesArePayableIffFeesAgree(sender: Addr, symbol: string, params: Params)
    requires GenesisParams(params) && Plain(sender, symbol, params)
    ensures FeesAgree(params) <==> EntriesPayable(sender, symbol, params)
  {
    hide Enters, EnteredPayable, EntriesPayable, FeesAgree, Plain, GenesisParams;
    if FeesAgree(params) {
      AgreedEntriesPayable(sender, symbol, params);
    } else {
      var volume, x, markets := UnpayableEnters(sender, symbol, params);
      var m := SmallOrder(sender, symbol);
      OneUnpayableEntry(m, Some(0), volume, params, x, markets, Allowing(symbol));
    }
  }

  // ------------------------------------------------------------ a market that ends while marked

  /** An order is placed in the very block that ends its market: the clean-up comes instead of the
      match, the order goes with its market, and the mark stays behind. */
  method EndWhileMarked(k: Keeper, m: MsgCreateOrder, sequence: Option<nat>, volume: Dec, params: Params,
                        infos: seq<MarketInfo>, time: nat, tieBreak: OrderID -> int)
    returns (ghost deals: seq<Deal>)
    requires k.Valid() && ValidateBasic(m) && ValidParams(params) && time < ByteKeys.Pow256(TIME_BYTES)
    requires Acceptable(m, sequence, volume, params, k.Now(), k.markets, k.bank.forbidden)
    requires m.symbol in k.requests && k.requests[m.symbol] <= time
    requires forall info :: info in infos <==> info in k.markets.Values
    modifies k`book, k`markets, k`requests, k`views, k.store, k.bank`ledger
    ensures k.Valid() && m.symbol !in k.markets && Stranded(k.Snap(), m.symbol)
  {
    hide Keeper.Valid, Acceptable, Stepped, SameSurplus, Froze, Blocked, Delisted, Unexpired;
    var ok := k.HandleMsgCreateOrder(m, sequence, volume, params);
    deals := k.EndBlocker(true, infos, params, time, tieBreak);
  }

  /** The block after it deals nowhere and changes nothing, whatever else is marked. */
  method BlockWhileStranded(k: Keeper, s: string, params: Params, infos: seq<MarketInfo>, time: nat,
                            tieBreak: OrderID -> int)
    returns (ghost deals: seq<Deal>)
    requires k.Valid() && ValidParams(params) && time < ByteKeys.Pow256(TIME_BYTES) && Stranded(k.Snap(), s)
    requires forall info :: info in infos <==> info in k.markets.Values
    modifies k`book, k`markets, k`requests, k`views, k.store, k.bank`ledger
    ensures k.Valid() && deals == [] && k.Snap() == old(k.Snap())
  {
    hide Keeper.Valid, Stepped, SameSurplus, Froze, Blocked, Delisted, Unexpired;
    assert !MarksHaveMarkets(k.store.data, k.markets);
    deals := k.EndBlocker(false, infos, params, time, tieBreak);
  }
}
