/** Two messages that the market accepts one after the other, and whose orders the next block closes
    with different balances, depending on the order in which it walks the map of changed orders. */
module WalkCases {
  import opened Auction
  import opened BlockRuns
  import opened Blocks
  import opened Closing
  import opened Decimals
  import opened Ledgers
  import opened Market
  import opened MarketCases
  import opened MarketState
  import opened OrderEntry
  import opened Orders
  import opened OrderStore
  import opened Overlays
  import opened Settlement
  import opened StoreKeys
  import opened WalkOrder

  // ------------------------------------------------------------ the messages

  /** One unit of CET, wanted at the lowest price there is. */
  function SmallBid(sender: Addr, money: Denom): MsgCreateOrder
  {
    MsgCreateOrder(sender, 0, GetSymbol(CET, money), MAX_PRECISION, 1, 1, Bid, IOC, 0)
  }

  /** `n` units of CET, offered at twice that price. */
  function CetAsk(sender: Addr, money: Denom, n: int): MsgCreateOrder
  {
    MsgCreateOrder(sender, 0, GetSymbol(CET, money), MAX_PRECISION, 2, n, Ask, IOC, 0)
  }

  lemma PriceOf(m: MsgCreateOrder)
    requires ValidateBasic(m) && m.pricePrecision == MAX_PRECISION
    ensures ActualPrice(m) == m.price
  {
    hide ActualPrice;
    PriceIsExact(m);
    assert Pow10(6) == 1_000_000;
    assert Pow10(12) == 1_000_000_000_000 by { assert Pow10(9) == 1000 * Pow10(6); }
    assert Pow10(18) == ONE by { assert Pow10(15) == 1000 * Pow10(12); }
  }

  lemma SmallMoney(m: MsgCreateOrder)
    requires ValidateBasic(m) && m.pricePrecision == MAX_PRECISION && m.price <= 2 && m.quantity <= MAX_ORDER_AMOUNT
    ensures CalculateAmount(m).Some?
  {
    hide ActualPrice, Mul, Ceil;
    PriceOf(m);
    MulWhole(m.price, m.quantity);
    MulMonotone(m.price, 2, m.quantity);
    CeilOf(m.price * m.quantity);
  }

  lemma BidAmount(sender: Addr, money: Denom)
    requires ZeroFree(GetSymbol(CET, money)) && '/' !in money
    ensures var m := SmallBid(sender, money);
            ValidateBasic(m) && GetDenomAndOrderAmount(m) == Some((money, 1)) && CalculateAmount(m).Some?
  {
    hide CalculateAmount, ActualPrice, RoundInt;
    var m := SmallBid(sender, money);
    SmallMoney(m);
    MoneyIsEnough(m);
    PriceOf(m);
    SplitSymbolInvertsGetSymbol(CET, money);
  }

  lemma AskAmount(sender: Addr, money: Denom, n: int)
    requires ZeroFree(GetSymbol(CET, money)) && '/' !in money && 0 < n <= MAX_ORDER_AMOUNT
    ensures var m := CetAsk(sender, money, n);
            ValidateBasic(m) && GetDenomAndOrderAmount(m) == Some((CET, n)) && CalculateAmount(m).Some?
  {
    hide CalculateAmount;
    SmallMoney(CetAsk(sender, money, n));
    SplitSymbolInvertsGetSymbol(CET, money);
  }

  // ------------------------------------------------------------ their orders

  /** What a message for one block enters. */
  ghost predicate IsIoc(o: Order, m: MsgCreateOrder, sequence: nat, denom: Denom, amount: int, fee: int)
  {
    && Sound(o) && Identified(o) && Gone(o) && UsedDenom(o.terms) == denom
    && o.terms.sender == m.sender && o.terms.sequence == sequence && o.terms.identify == m.identify
    && o.terms.symbol == m.symbol && o.terms.side == m.side && o.terms.price == ActualPrice(m)
    && o.terms.timeInForce == IOC
    && o.terms.frozenCommission == fee && o.terms.frozenFeatureFee == 0
    && o.freeze == amount && o.leftStock == m.quantity && o.dealStock == 0
  }

  lemma EnteredIoc(m: MsgCreateOrder, sequence: nat, volume: Dec, params: Params, denom: Denom, amount: int, fee: int)
    requires ValidateBasic(m) && ValidParams(params) && m.timeInForce == IOC && 0 <= fee <= MAX_ORDER_AMOUNT
    requires GetDenomAndOrderAmount(m) == Some((denom, amount)) && CalOrderCommission(m, volume, params) == Some(fee)
    ensures Countable(m, Some(sequence), volume, params)
    ensures IsIoc(EnteredOrder(m, Some(sequence), volume, params), m, sequence, denom, amount, fee)
  {
    hide GetDenomAndOrderAmount, CalOrderCommission, ActualPrice, Sound, UsedDenom;
    NewOrderIsSound(m, sequence, params, denom, amount, fee);
  }

  /** The step that an accepted message is. */
  ghost predicate EntersInto(m: MsgCreateOrder, sequence: nat, volume: Dec, params: Params, x: Exchange, y: Exchange,
                             markets: Markets, forbidden: Forbidden)
  {
    && Enters(m, Some(sequence), volume, params, x, markets, forbidden)
    && var o := EnteredOrder(m, Some(sequence), volume, params);
       y.orders == x.orders[o.terms.id := o] && Froze(x.ledger, y.ledger, o)
  }

  function OneMarket(money: Denom): Markets
  {
    map[GetSymbol(CET, money) := MarketInfo(CET, money, MAX_PRECISION, 0, 0)]
  }

  lemma IocIsAdmissible(m: MsgCreateOrder, money: Denom, params: Params)
    requires m.symbol == GetSymbol(CET, money) && m.pricePrecision == MAX_PRECISION && Plain(m.sender, m.symbol, params)
    ensures Admissible(m, OneMarket(money), params, Allowing(m.symbol))
  {
    assert Pow10(0) == 1;
  }

  /** An order that can be paid for enters. */
  lemma IocEnters(m: MsgCreateOrder, sequence: nat, volume: Dec, params: Params, x: Exchange, money: Denom,
                  denom: Denom, amount: int, fee: int)
    returns (y: Exchange)
    requires ValidateBasic(m) && ValidParams(params) && Countable(m, Some(sequence), volume, params)
    requires m.symbol == GetSymbol(CET, money) && m.pricePrecision == MAX_PRECISION && Plain(m.sender, m.symbol, params)
    requires var o := EnteredOrder(m, Some(sequence), volume, params);
             IsIoc(o, m, sequence, denom, amount, fee) && o.terms.id !in x.orders && Affords(x.ledger, o) && Solvent(x)
    ensures EntersInto(m, sequence, volume, params, x, y, OneMarket(money), Allowing(m.symbol)) && Solvent(y)
    ensures var o := EnteredOrder(m, Some(sequence), volume, params);
            y.orders == x.orders[o.terms.id := o] && Froze(x.ledger, y.ledger, o)
  {
    hide ValidateBasic, Plain, Solvent, Affords, Sound, EnteredOrder, Countable, Froze, Admissible, CanFreezeAll,
         FrozenSoFar, Forbids, Allowing, OneMarket;
    IocIsAdmissible(m, money, params);
    var o, forbidden := EnteredOrder(m, Some(sequence), volume, params), Allowing(m.symbol);
    AdmissibleIsUnbarred(m, OneMarket(money), params, forbidden, o);
    CetIsAllowed(m.symbol, m.sender);
    FreezesRefused(x.ledger, forbidden, o);
    y := Exchange(x.orders[o.terms.id := o], FrozenSoFar(x.ledger, forbidden, o));
    EntryKeepsSolvent(x, o, y.ledger);
  }

  lemma CetIsAllowed(symbol: string, sender: Addr)
    ensures !Forbids(Allowing(symbol), CET, sender)
  {
  }

  // ------------------------------------------------------------ the walk

  /** A bid and an ask that do not meet cannot be dealt. */
  lemma {:induction false} NothingCanDeal(b: Order, a: Order, l: Ledger, forbidden: Forbidden, deals: seq<Deal>)
    requires b.terms.side == Bid && a.terms.side == Ask && b.terms.price < a.terms.price && b.terms.id != a.terms.id
    requires ValidRun(Exchange(map[b.terms.id := b, a.terms.id := a], l), forbidden, deals)
    ensures deals == []
  {
    if deals != [] { NothingCanDeal(b, a, l, forbidden, deals[..|deals| - 1]); }
  }

  /** Whichever of two orders a walk closes first, the other one is closed next. */
  lemma TwoWalks(y: Exchange, o: Order, q: Order, forbidden: Forbidden, rules: FeeRules)
    requires Walked(y, o, q) && y.orders == map[o.terms.id := o, q.terms.id := q] && ValidRules(rules) && Sound(o)
             && Sound(q)
    ensures WalkEnds(y.orders, y.orders, y.orders, y.ledger,
                     Close(Close(y.ledger, forbidden, rules, o), forbidden, rules, q), forbidden, rules)
  {
    hide Sound, Close, Closings, Gone, Identified, Solvent;
    var l := Close(y.ledger, forbidden, rules, o);
    var m := Close(l, forbidden, rules, q);
    OneClosing(y, forbidden, rules, o);
    var left := y.orders - {o.terms.id};
    OneClosing(Exchange(left, l), forbidden, rules, q);
    assert left - {q.terms.id} == map[];
    ClosingsTwice(y, Exchange(left, l), Exchange(map[], m), forbidden, rules);
    assert Settled(y.orders, y.orders) + (y.orders - y.orders.Keys) == map[];
    assert y.orders + y.orders == y.orders;
  }

  /** Nothing is dealt among these orders, and the walk that closes them may end either way. */
  ghost predicate Undecided(z: Exchange, m: Ledger, n: Ledger, forbidden: Forbidden, rules: FeeRules)
  {
    && (forall deals | ValidRun(z, forbidden, deals) :: deals == [])
    && WalkEnds(z.orders, z.orders, z.orders, z.ledger, m, forbidden, rules)
    && WalkEnds(z.orders, z.orders, z.orders, z.ledger, n, forbidden, rules)
    && !SameBalances(m, n)
  }

  /** The fee that is charged to an order that did not deal. */
  function ZeroFee(params: Params): int { Least(params.rules.feeForZeroDeal, MAX_ORDER_AMOUNT) }

  /** Exactly enough to pay for both orders, with one coin too little left for the fee of the first. */
  function OneShort(sender: Addr, money: Denom, fee: int, more: int, due: int): Ledger
    requires 0 <= fee < due && 0 <= more
  {
    Ledger(map[Acct(sender, CET) := (due - fee - 1) + fee + (due + more), Acct(sender, money) := 1], map[], {})
  }

  lemma BidIsAffordable(o: Order, sender: Addr, money: Denom, fee: int, more: int, due: int)
    requires 0 <= fee < due && 0 <= more && money != CET && IsIoc(o, SmallBid(sender, money), 0, money, 1, fee)
    ensures Affords(OneShort(sender, money, fee, more, due), o)
  {
    hide Sound, UsedDenom, ActualPrice, Identified;
  }

  lemma AskIsAffordable(o: Order, q: Order, l: Ledger, sender: Addr, money: Denom, fee: int, more: int, due: int)
    requires 0 <= fee < due && 0 <= more && money != CET && IsIoc(o, SmallBid(sender, money), 0, money, 1, fee)
    requires IsIoc(q, CetAsk(sender, money, due), 1, CET, due, more)
             && Froze(OneShort(sender, money, fee, more, due), l, o)
    ensures Affords(l, q)
  {
    hide Sound, UsedDenom, ActualPrice, Identified, SameSupply;
  }

  /** What is left to spend. */
  lemma OneShortIsLeft(o: Order, q: Order, l: Ledger, m: Ledger, sender: Addr, money: Denom, fee: int, more: int,
                       due: int)
    requires 0 <= fee < due && 0 <= more && money != CET && IsIoc(o, SmallBid(sender, money), 0, money, 1, fee)
    requires IsIoc(q, CetAsk(sender, money, due), 1, CET, due, more)
    requires Froze(OneShort(sender, money, fee, more, due), l, o) && Froze(l, m, q)
    ensures Bal(m.coins, Acct(sender, CET)) == due - fee - 1
  {
    hide Sound, UsedDenom, ActualPrice, Identified, SameSupply;
  }

  /** The commission of the bid is paid after the ask is closed, but not before. */
  lemma AskPaysForBid(y: Exchange, o: Order, q: Order, sender: Addr, money: Denom, fee: int, more: int, params: Params,
                      forbidden: Forbidden)
    requires ValidParams(params) && Plain(sender, GetSymbol(CET, money), params) && money != CET
             && 0 < fee < ZeroFee(params) && 0 < more
    requires IsIoc(o, SmallBid(sender, money), 0, money, 1, fee)
    requires IsIoc(q, CetAsk(sender, money, ZeroFee(params)), 1, CET, ZeroFee(params), more)
    requires Walked(y, o, q) && Bal(y.ledger.coins, Acct(sender, CET)) == ZeroFee(params) - fee - 1
    ensures !Commute(y.ledger, o, q, forbidden, params.rules)
  {
    hide Sound, UsedDenom, ActualPrice, Identified, Gone, Solvent, CommissionOf, ZeroFree, StockOf, MoneyOf,
         FeatureFeeOf, Commute;
    NoDealCommission(o, params.rules);
    NoDealCommission(q, params.rules);
    LaterPays(y, o, q, forbidden, params.rules);
  }

  lemma NamedApart(o: Order, q: Order, a: MsgCreateOrder, b: MsgCreateOrder, s: nat, d: Denom, e: Denom, i: int, j: int,
                   fee: int, more: int)
    requires IsIoc(o, a, s, d, i, fee) && IsIoc(q, b, s + 1, e, j, more) && a.sender == b.sender
             && a.identify == b.identify
    ensures q.terms.id != o.terms.id && o.terms.id == AssemblyOrderID(a.sender, s, a.identify)
            && q.terms.id == AssemblyOrderID(b.sender, s + 1, b.identify)
  {
    hide Sound, Gone, UsedDenom, ActualPrice;
    NextIdentifier(o.terms.sender, o.terms.sequence, o.terms.identify);
  }

  /** The orders of both messages. */
  lemma BothAreIoc(sender: Addr, money: Denom, v: Dec, w: Dec, params: Params, fee: int, more: int)
    requires GenesisParams(params) && Plain(sender, GetSymbol(CET, money), params) && '/' !in money
    requires CalOrderCommission(SmallBid(sender, money), v, params) == Some(fee) && 0 < fee < ZeroFee(params)
    requires CalOrderCommission(CetAsk(sender, money, ZeroFee(params)), w, params) == Some(more)
             && 0 < more <= MAX_ORDER_AMOUNT
    ensures var bid, ask := SmallBid(sender, money), CetAsk(sender, money, ZeroFee(params));
            && ValidateBasic(bid) && Countable(bid, Some(0), v, params) && ValidateBasic(ask)
            && Countable(ask, Some(1), w, params)
            && var o, q := EnteredOrder(bid, Some(0), v, params), EnteredOrder(ask, Some(1), w, params);
               IsIoc(o, bid, 0, money, 1, fee) && IsIoc(q, ask, 1, CET, ZeroFee(params), more)
                   && q.terms.id != o.terms.id
  {
    hide IsIoc, CalOrderCommission, GetDenomAndOrderAmount, CalculateAmount, EnteredOrder, Countable, ValidateBasic,
         Plain, ZeroFee, ZeroFree;
    var due := ZeroFee(params);
    var bid, ask := SmallBid(sender, money), CetAsk(sender, money, due);
    ZeroFeeFits(params);
    PlainIsZeroFree(sender, GetSymbol(CET, money), params);
    BidAmount(sender, money);
    AskAmount(sender, money, due);
    EnteredIoc(bid, 0, v, params, money, 1, fee);
    EnteredIoc(ask, 1, w, params, CET, due, more);
    var o, q := EnteredOrder(bid, Some(0), v, params), EnteredOrder(ask, Some(1), w, params);
    NamedApart(o, q, bid, ask, 0, money, CET, 1, due, fee, more);
  }

  /** Both messages are accepted, one after the other. */
  lemma BothEnter(sender: Addr, money: Denom, v: Dec, w: Dec, params: Params, fee: int, more: int)
    returns (x: Exchange, y: Exchange, z: Exchange)
    requires ValidParams(params) && Plain(sender, GetSymbol(CET, money), params) && money != CET
             && 0 < fee < ZeroFee(params) && 0 < more
    requires var bid, ask := SmallBid(sender, money), CetAsk(sender, money, ZeroFee(params));
             && ValidateBasic(bid) && Countable(bid, Some(0), v, params) && ValidateBasic(ask)
             && Countable(ask, Some(1), w, params)
             && var o, q := EnteredOrder(bid, Some(0), v, params), EnteredOrder(ask, Some(1), w, params);
                IsIoc(o, bid, 0, money, 1, fee) && IsIoc(q, ask, 1, CET, ZeroFee(params), more)
                    && q.terms.id != o.terms.id
    ensures x.orders == map[] && EntersInto(SmallBid(sender, money), 0, v, params, x, y, OneMarket(money),
                                            Allowing(GetSymbol(CET, money)))
    ensures EntersInto(CetAsk(sender, money, ZeroFee(params)), 1, w, params, y, z, OneMarket(money),
                       Allowing(GetSymbol(CET, money)))
    ensures var o, q := EnteredOrder(SmallBid(sender, money), Some(0), v, params),
                        EnteredOrder(CetAsk(sender, money, ZeroFee(params)), Some(1), w, params);
            && Solvent(z) && z.orders == map[o.terms.id := o, q.terms.id := q]
            && Bal(z.ledger.coins, Acct(sender, CET)) == ZeroFee(params) - fee - 1
  {
    hide IsIoc, Solvent, StockOf, MoneyOf, Affords, Froze, EnteredOrder, Allowing, Countable, ValidateBasic, Plain,
         ZeroFee, EntersInto, OneShort, OneMarket, GetSymbol;
    var due := ZeroFee(params);
    var bid, ask := SmallBid(sender, money), CetAsk(sender, money, due);
    var o, q := EnteredOrder(bid, Some(0), v, params), EnteredOrder(ask, Some(1), w, params);
    x := Exchange(map[], OneShort(sender, money, fee, more, due));
    NoOrdersSolvent(x.ledger);
    BidIsAffordable(o, sender, money, fee, more, due);
    y := IocEnters(bid, 0, v, params, x, money, money, 1, fee);
    AskIsAffordable(o, q, y.ledger, sender, money, fee, more, due);
    z := IocEnters(ask, 1, w, params, y, money, CET, due, more);
    OneShortIsLeft(o, q, y.ledger, z.ledger, sender, money, fee, more, due);
  }

  lemma ZeroFeeFits(params: Params)
    ensures 0 <= ZeroFee(params) <= MAX_ORDER_AMOUNT
  {
  }

  lemma PlainIsZeroFree(sender: Addr, symbol: string, params: Params)
    requires Plain(sender, symbol, params)
    ensures ZeroFree(symbol)
  {
  }

  /** Two walks over such a book end apart. */
  lemma EndsDiffer(z: Exchange, o: Order, q: Order, sender: Addr, money: Denom, fee: int, more: int, params: Params,
                   forbidden: Forbidden)
    returns (m: Ledger, n: Ledger)
    requires ValidParams(params) && Plain(sender, GetSymbol(CET, money), params) && money != CET
             && 0 < fee < ZeroFee(params) && 0 < more
    requires ValidateBasic(SmallBid(sender, money)) && ValidateBasic(CetAsk(sender, money, ZeroFee(params)))
    requires IsIoc(o, SmallBid(sender, money), 0, money, 1, fee)
             && IsIoc(q, CetAsk(sender, money, ZeroFee(params)), 1, CET, ZeroFee(params), more)
    requires q.terms.id != o.terms.id && Solvent(z) && z.orders == map[o.terms.id := o, q.terms.id := q]
    requires Bal(z.ledger.coins, Acct(sender, CET)) == ZeroFee(params) - fee - 1
    ensures Undecided(z, m, n, forbidden, params.rules)
  {
    hide Sound, UsedDenom, ActualPrice, Identified, Gone, Solvent, ZeroFree, StockOf, MoneyOf, WalkEnds, Closing.Close,
         ValidRun, SameBalances, Plain, ZeroFee;
    PriceOf(SmallBid(sender, money));
    PriceOf(CetAsk(sender, money, ZeroFee(params)));
    forall deals | ValidRun(z, forbidden, deals) ensures deals == [] {
      NothingCanDeal(o, q, z.ledger, forbidden, deals);
    }
    m := Closing.Close(Closing.Close(z.ledger, forbidden, params.rules, o), forbidden, params.rules, q);
    n := Closing.Close(Closing.Close(z.ledger, forbidden, params.rules, q), forbidden, params.rules, o);
    TwoWalks(z, o, q, forbidden, params.rules);
    assert z.orders == map[q.terms.id := q, o.terms.id := o];
    TwoWalks(z, q, o, forbidden, params.rules);
    AskPaysForBid(z, o, q, sender, money, fee, more, params, forbidden);
  }

  /** The bid and then the ask are accepted; they do not meet; and the block that closes them may end
      with one balance or with another, as it happens to walk the map. The commissions may be any that
      the messages' volumes ask for, as long as that of the bid is below the fee for orders that do not
      deal. */
  lemma WalksDisagree(sender: Addr, money: Denom, v: Dec, w: Dec, params: Params, fee: int, more: int)
    returns (x: Exchange, y: Exchange, z: Exchange, m: Ledger, n: Ledger)
    requires GenesisParams(params) && Plain(sender, GetSymbol(CET, money), params) && money != CET && '/' !in money
    requires CalOrderCommission(SmallBid(sender, money), v, params) == Some(fee) && 0 < fee < ZeroFee(params)
    requires CalOrderCommission(CetAsk(sender, money, ZeroFee(params)), w, params) == Some(more)
             && 0 < more <= MAX_ORDER_AMOUNT
    ensures x.orders == map[] && EntersInto(SmallBid(sender, money), 0, v, params, x, y, OneMarket(money),
                                            Allowing(GetSymbol(CET, money)))
    ensures EntersInto(CetAsk(sender, money, ZeroFee(params)), 1, w, params, y, z, OneMarket(money),
                       Allowing(GetSymbol(CET, money)))
    ensures Undecided(z, m, n, Allowing(GetSymbol(CET, money)), params.rules)
  {
    hide IsIoc, EntersInto, Undecided, Allowing, CalOrderCommission, Solvent, EnteredOrder, Countable, ValidateBasic,
         Plain, ZeroFee, OneMarket;
    BothAreIoc(sender, money, v, w, params, fee, more);
    x, y, z := BothEnter(sender, money, v, w, params, fee, more);
    var bid, ask := SmallBid(sender, money), CetAsk(sender, money, ZeroFee(params));
    var o, q := EnteredOrder(bid, Some(0), v, params), EnteredOrder(ask, Some(1), w, params);
    m, n := EndsDiffer(z, o, q, sender, money, fee, more, params, Allowing(GetSymbol(CET, money)));
  }

  /** Wherever the fees do not agree, there are such messages. */
  lemma DisagreeingFeesShow(sender: Addr, money: Denom, params: Params)
    returns (x: Exchange, y: Exchange, z: Exchange, m: Ledger, n: Ledger)
    requires GenesisParams(params) && !FeesAgree(params) && Plain(sender, GetSymbol(CET, money), params) && money != CET
             && '/' !in money
    ensures var v := SmallVolume(params);
            && x.orders == map[] && EntersInto(SmallBid(sender, money), 0, v, params, x, y, OneMarket(money),
                                               Allowing(GetSymbol(CET, money)))
            && EntersInto(CetAsk(sender, money, ZeroFee(params)), 1, v, params, y, z, OneMarket(money),
                          Allowing(GetSymbol(CET, money)))
    ensures Undecided(z, m, n, Allowing(GetSymbol(CET, money)), params.rules)
  {
    hide CalOrderCommission, CalculateAmount, GetDenomAndOrderAmount, ZeroFree, EntersInto, Undecided;
    BidAmount(sender, money);
    AskAmount(sender, money, ZeroFee(params));
    SmallCommission(SmallBid(sender, money), params);
    SmallCommission(CetAsk(sender, money, ZeroFee(params)), params);
    var fee := if params.feeMin > 0 then params.feeMin else 1;
    x, y, z, m, n := WalksDisagree(sender, money, SmallVolume(params), SmallVolume(params), params, fee, fee);
  }

  /** The volume that is quoted for a market in which CET is the stock. */
  function CetVolume(m: MsgCreateOrder): Dec { NewDec(m.quantity) }

  /** A rate that asks for no more than the minimum. */
  lemma MinimalCommission(m: MsgCreateOrder, params: Params)
    requires CalculateAmount(m).Some? && 0 < params.feeMin <= MAX_ORDER_AMOUNT
    requires 0 <= m.quantity && m.quantity * params.feeRate <= params.feeMin * MARKET_FEE_RATE_BASE
    ensures CalOrderCommission(m, CetVolume(m), params) == Some(params.feeMin)
  {
    hide CalculateAmount, CalOrderCommission;
    DivCancel(m.quantity, ONE);
    var k := CommissionOfVolume(m, CetVolume(m), params);
  }

  /** With the volumes that the market itself quotes, they are accepted wherever the minimal fee is
      below the fee for orders that do not deal and covers the rate on that. */
  lemma QuotedFeesShow(sender: Addr, money: Denom, params: Params)
    returns (x: Exchange, y: Exchange, z: Exchange, m: Ledger, n: Ledger)
    requires GenesisParams(params) && Plain(sender, GetSymbol(CET, money), params) && money != CET && '/' !in money
    requires 0 < params.feeMin < ZeroFee(params)
             && ZeroFee(params) * params.feeRate <= params.feeMin * MARKET_FEE_RATE_BASE
    ensures var bid, ask := SmallBid(sender, money), CetAsk(sender, money, ZeroFee(params));
            && EntersInto(bid, 0, CetVolume(bid), params, x, y, OneMarket(money), Allowing(GetSymbol(CET, money)))
            && EntersInto(ask, 1, CetVolume(ask), params, y, z, OneMarket(money), Allowing(GetSymbol(CET, money)))
    ensures Undecided(z, m, n, Allowing(GetSymbol(CET, money)), params.rules)
  {
    hide CalOrderCommission, CalculateAmount, GetDenomAndOrderAmount, ZeroFree, EntersInto, Undecided;
    BidAmount(sender, money);
    AskAmount(sender, money, ZeroFee(params));
    var bid, ask := SmallBid(sender, money), CetAsk(sender, money, ZeroFee(params));
    MulMonotone(1, ZeroFee(params), params.feeRate);
    MinimalCommission(bid, params);
    MinimalCommission(ask, params);
    x, y, z, m, n := WalksDisagree(sender, money, CetVolume(bid), CetVolume(ask), params, params.feeMin, params.feeMin);
  }

  // ------------------------------------------------------------ exactly when

  /** No two messages, accepted one after the other on an empty book, have orders that one walk can
      close with different balances. */
  ghost predicate AllDecided(params: Params)
  {
    forall a, s, v, b, t, w, x: Exchange, y, z, m, n, markets, forbidden
      | x.orders == map[] && EntersInto(a, s, v, params, x, y, markets, forbidden)
          && EntersInto(b, t, w, params, y, z, markets, forbidden) ::
      !Undecided(z, m, n, forbidden, params.rules)
  }

  lemma EnteredIsPayable(m: MsgCreateOrder, s: nat, v: Dec, params: Params, x: Exchange, y: Exchange, markets: Markets,
                         forbidden: Forbidden)
    requires GenesisParams(params) && FeesAgree(params) && EntersInto(m, s, v, params, x, y, markets, forbidden)
    ensures ValidateBasic(m) && Countable(m, Some(s), v, params)
    ensures var o := EnteredOrder(m, Some(s), v, params);
            && Sound(o) && Payable(o, forbidden, params.rules) && Solvent(x) && Solvent(y) && o.terms.id !in x.orders
            && y.orders == x.orders[o.terms.id := o]
  {
    hide EnteredOrder, Payable, Sound, Solvent, Froze, Affords, FeesAgree, Admissible;
    EnteringIsPayable(m, Some(s), v, params, x, markets, forbidden);
    EnteredIsSound(m, Some(s), v, params);
    EntryKeepsSolvent(x, EnteredOrder(m, Some(s), v, params), y.ledger);
  }

  lemma AgreedFeesDecide(a: MsgCreateOrder, s: nat, v: Dec, b: MsgCreateOrder, t: nat, w: Dec, params: Params,
                         x: Exchange, y: Exchange, z: Exchange, m: Ledger, n: Ledger, markets: Markets,
                         forbidden: Forbidden)
    requires GenesisParams(params) && FeesAgree(params) && x.orders == map[]
    requires EntersInto(a, s, v, params, x, y, markets, forbidden)
             && EntersInto(b, t, w, params, y, z, markets, forbidden)
    ensures !Undecided(z, m, n, forbidden, params.rules)
  {
    hide EnteredOrder, Payable, Sound, Solvent, EntersInto, FeesAgree, GenesisParams, WalkEnds, SameBalances, ValidRun,
         Gone, ValidateBasic, Countable;
    EnteredIsPayable(a, s, v, params, x, y, markets, forbidden);
    EnteredIsPayable(b, t, w, params, y, z, markets, forbidden);
    assert z.orders + z.orders == z.orders;
    if Undecided(z, m, n, forbidden, params.rules) {
      WriteBacksAgree(z.orders, z.orders, z.orders, z.ledger, m, n, forbidden, params.rules);
    }
  }

  /** With parameters that genesis admits, messages for blocks without deals are closed with balances
      that do not depend on the walk exactly when the fees agree. */
  lemma DecidedIffFeesAgree(sender: Addr, money: Denom, params: Params)
    requires GenesisParams(params) && Plain(sender, GetSymbol(CET, money), params) && money != CET && '/' !in money
    ensures FeesAgree(params) <==> AllDecided(params)
  {
    hide EntersInto, Undecided, FeesAgree, GenesisParams, Plain;
    if FeesAgree(params) {
      forall a, s, v, b, t, w, x: Exchange, y, z, m, n, markets, forbidden
        | x.orders == map[] && EntersInto(a, s, v, params, x, y, markets, forbidden)
            && EntersInto(b, t, w, params, y, z, markets, forbidden)
        ensures !Undecided(z, m, n, forbidden, params.rules)
      {
        AgreedFeesDecide(a, s, v, b, t, w, params, x, y, z, m, n, markets, forbidden);
      }
    } else {
      var x, y, z, m, n := DisagreeingFeesShow(sender, money, params);
    }
  }
}
