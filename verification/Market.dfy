/** The market module: its message handlers and its end-of-block step. Between transactions the
    stored book is backed, coin for coin, by its senders' frozen coins, and every open order
    has something left. */
module Market {
  import opened Auction
  import opened BlockRuns
  import opened Blocks
  import opened ByteKeys
  import opened Closing
  import opened Decimals
  import opened Delist
  import opened KVStores
  import opened Ledgers
  import opened MarketRuns
  import opened MarketState
  import opened MatchRun
  import opened OrderEntry
  import opened Orders
  import opened OrderStore
  import opened Overlays
  import opened Settlement
  import opened Slices
  import opened StoreKeys
  import opened Sums
  import opened WholeBook

  function GetGranularityOfOrder(orderPrecision: nat): nat
    ensures GetGranularityOfOrder(orderPrecision) > 0
  {
    Pow10(if orderPrecision > MAX_ORDER_PRECISION then 0 else orderPrecision)
  }

  const MAX_ORDER_PRECISION: nat := 8

  /** The granularity is ten for each digit of precision, and one beyond eight digits. */
  lemma GranularityCountsDigits(orderPrecision: nat)
    ensures GetGranularityOfOrder(0) == 1
    ensures orderPrecision < MAX_ORDER_PRECISION ==>
              GetGranularityOfOrder(orderPrecision + 1) == 10 * GetGranularityOfOrder(orderPrecision)
    ensures orderPrecision > MAX_ORDER_PRECISION ==> GetGranularityOfOrder(orderPrecision) == 1
  {
  }

  datatype MsgCreateTradingPair = MsgCreateTradingPair(creator: Addr, stock: Denom, money: Denom, pricePrecision: nat,
                                                       orderPrecision: nat)

  /** The market exists and takes orders of this precision, and neither its tokens nor the
      sender are forbidden. */
  predicate Admissible(m: MsgCreateOrder, markets: Markets, params: Params, forbidden: Forbidden)
  {
    && m.symbol in markets && m.pricePrecision <= markets[m.symbol].pricePrecision
    && StockOf(m.symbol) !in params.forbiddenTokens && MoneyOf(m.symbol) !in params.forbiddenTokens
    && !Barred(forbidden, m.symbol, m.sender)
    && m.quantity % GetGranularityOfOrder(markets[m.symbol].orderPrecision) == 0
  }

  /** The amounts and the fees of the message fit their bounds. */
  predicate Countable(m: MsgCreateOrder, sequence: Option<nat>, volume: Dec, params: Params)
  {
    && GetDenomAndOrderAmount(m).Some? && sequence.Some? && CalOrderCommission(m, volume, params).Some?
    && CalOrderCommission(m, volume, params).value + CalFeatureFeeForExistBlocks(m, params) <= MAX_ORDER_AMOUNT
  }

  function EnteredOrder(m: MsgCreateOrder, sequence: Option<nat>, volume: Dec, params: Params): Order
    requires ValidateBasic(m) && Countable(m, sequence, volume, params)
  {
    NewOrder(m, sequence.value, params, GetDenomAndOrderAmount(m).value.1, CalOrderCommission(m, volume, params).value)
  }

  lemma EnteredIsSound(m: MsgCreateOrder, sequence: Option<nat>, volume: Dec, params: Params)
    requires ValidateBasic(m) && ValidParams(params) && Countable(m, sequence, volume, params)
    ensures var o := EnteredOrder(m, sequence, volume, params);
            Sound(o) && o.dealStock == 0 && o.terms.frozenCommission == CalOrderCommission(m, volume, params).value
  {
    var amount := GetDenomAndOrderAmount(m).value;
    FeatureFeeFits(m, params);
    NewOrderIsSound(m, sequence.value, params, amount.0, amount.1, CalOrderCommission(m, volume, params).value);
  }

  /** When a message is accepted: its order is new, admissible, affordable to the last coin, and
      the fees may be taken out of the sender's CET. */
  ghost predicate Acceptable(m: MsgCreateOrder, sequence: Option<nat>, volume: Dec, params: Params, x: Exchange,
                             markets: Markets, forbidden: Forbidden)
    requires ValidateBasic(m)
  {
    && Countable(m, sequence, volume, params)
    && var o := EnteredOrder(m, sequence, volume, params);
       && o.terms.id !in x.orders && Admissible(m, markets, params, forbidden) && Affords(x.ledger, o)
       && (o.terms.frozenCommission + o.terms.frozenFeatureFee == 0 || !Forbids(forbidden, CET, m.sender))
  }

  lemma AdmissibleIsUnbarred(m: MsgCreateOrder, markets: Markets, params: Params, forbidden: Forbidden, o: Order)
    requires Admissible(m, markets, params, forbidden) && o.terms.sender == m.sender && o.terms.symbol == m.symbol
    ensures !Forbids(forbidden, UsedDenom(o.terms), o.terms.sender) && m.symbol in markets
  {
  }

  function FrozenOf(o: Order): nat
    requires Sound(o)
  {
    o.freeze
  }

  class Keeper {
    const bank: Bank
    const store: KVStore<Value>
    var markets: Markets
    ghost var book: Book
    ghost var requests: Requests
    ghost var views: Views

    constructor (bank: Bank)
      ensures this.bank == bank && fresh(store) && Valid() && book == map[] && requests == map[] && markets == map[]
    {
      this.bank := bank;
      store := new KVStore<Value>();
      markets, book, requests, views := map[], map[], map[], map[];
      new;
      NoOrdersSolvent(bank.ledger);
    }

    ghost function Now(): Exchange
      reads this, bank
    {
      Exchange(book, bank.ledger)
    }

    ghost function Snap(): Snapshot
      reads this, bank, store
    {
      Snapshot(Now(), store.data, markets)
    }

    /** What holds between any two steps, in every run: the indexes agree with the book, frozen
        coins back every open order, no open order is used up, and every market without a
        newly-added mark is quiet. */
    ghost predicate Valid()
      reads this, bank, store
    {
      && Filed(store.data, book, requests) && Solvent(Now()) && AllOpen(book)
      && Calm(store.data, book, views) && WellNamed(markets, requests)
    }

    // ---------------------------------------------------------- closing an order

    method ChargeFee(rules: FeeRules, fee: nat, user: Addr)
      requires ValidRules(rules)
      modifies bank`ledger
      ensures bank.ledger == Closing.ChargeFee(old(bank.ledger), bank.forbidden, rules, fee, user)
    {
      var rest := fee;
      var rebateAmount := 0;
      if user in rules.referees {
        rebateAmount := Rebate(rules, fee);
        RebateWithinFee(rules, fee);
        rest := fee - rebateAmount;
      }
      if rebateAmount > 0 {
        var _ := bank.SendCoins(user, rules.referees[user], CET, rebateAmount);
      }
      var _ := bank.DeductFee(user, rest);
    }

    method ChargeOrderCommission(o: Order, rules: FeeRules)
      requires Sound(o) && ValidRules(rules)
      modifies bank`ledger
      ensures bank.ledger == CloseCommission(old(bank.ledger), bank.forbidden, rules, o)
    {
      if o.terms.frozenCommission != 0 {
        var _ := bank.UnFreezeCoins(o.terms.sender, CET, o.terms.frozenCommission);
        ChargeFee(rules, CommissionOf(o, rules), o.terms.sender);
      }
    }

    method ChargeOrderFeatureFee(o: Order, rules: FeeRules)
      requires Sound(o) && ValidRules(rules)
      modifies bank`ledger
      ensures bank.ledger == CloseFeatureFee(old(bank.ledger), bank.forbidden, rules, o)
    {
      if o.terms.timeInForce == GTE && o.terms.frozenFeatureFee != 0 {
        var _ := bank.UnFreezeCoins(o.terms.sender, CET, o.terms.frozenFeatureFee);
        ChargeFee(rules, FeatureFeeOf(o, rules), o.terms.sender);
      }
    }

    /** Releases the order's coins, charges its fees and takes it off the book. */
    method RemoveOrder(o: Order, rules: FeeRules)
      requires Filed(store.data, book, requests) && Sound(o) && ValidRules(rules)
      requires o.terms.id in book && book[o.terms.id] == o
      modifies this`book, store, bank`ledger
      ensures Filed(store.data, book, requests) && OnlyOrdersChanged(old(store.data), store.data)
      ensures book == old(book) - {o.terms.id}
      ensures bank.ledger == Close(old(bank.ledger), bank.forbidden, rules, o)
    {
      hide Indexed, DelistIndexed, Marked, Sound, Storable, OnlyOrdersChanged;
      if o.freeze != 0 || o.terms.frozenFeatureFee != 0 || o.terms.frozenCommission != 0 {
        var _ := bank.UnFreezeCoins(o.terms.sender, UsedDenom(o.terms), FrozenOf(o));
        ChargeOrderCommission(o, rules);
        ChargeOrderFeatureFee(o, rules);
      }
      StoredIsStorable(store.data, book, o.terms.id);
      var keeper := new OrderKeeper(store, o.terms.symbol);
      ghost var before := store.data;
      var ok := keeper.Remove(o, book);
      OrdersKeepRest(before, store.data, requests);
      book := book - {o.terms.id};
    }

    /** Removing any open order keeps everything. */
    method Discard(o: Order, rules: FeeRules)
      requires Valid() && ValidRules(rules) && Sound(o) && o.terms.id in book && book[o.terms.id] == o
      modifies this`book, store, bank`ledger
      ensures Valid() && SameSurplus(old(Now()), Now())
      ensures book == old(book) - {o.terms.id} && bank.ledger == Close(old(bank.ledger), bank.forbidden, rules, o)
      ensures Closings(old(Now()), Now(), bank.forbidden, rules) && MarksStay(old(store.data), store.data)
    {
      hide Filed, Solvent, Sound, Calm, WellNamed, OnlyOrdersChanged, Closings, MarksStay;
      ghost var before, stored := book, store.data;
      OneClosing(Now(), bank.forbidden, rules, o);
      CloseKeepsSolvent(Now(), bank.forbidden, rules, o.terms.id);
      RemoveOrder(o, rules);
      RemovalKeepsCalm(stored, store.data, before, book, views);
      OnlyOthersChanged(stored, store.data);
    }

    // ---------------------------------------------------------- messages

    /** A sender may cancel an order of its own, and gets back all that it had reserved. */
    method HandleMsgCancelOrder(sender: Addr, id: OrderID, rules: FeeRules) returns (ok: bool)
      requires Valid() && ValidRules(rules)
      modifies this`book, store, bank`ledger
      ensures Valid() && SameSurplus(old(Now()), Now())
      ensures ok == (id in old(book) && old(book)[id].terms.sender == sender)
      ensures book == if ok then old(book) - {id} else old(book)
      ensures ok ==> Sound(old(book)[id]) && bank.ledger == Close(old(bank.ledger), bank.forbidden, rules,
                                                                  old(book)[id])
      ensures !ok ==> bank.ledger == old(bank.ledger)
      ensures Stepped(old(Snap()), Snap(), Message)
    {
      hide Filed, Solvent, Sound, Calm, WellNamed, Stepped, Closings, MarksStay, Closing.Close;
      NothingStepped(Snap());
      FiledIsIndexed(store.data, book, requests);
      var order := QueryOrder(store, StringBytes(id), id, book);
      if order == None { return false; }
      if order.value.terms.sender != sender { return false; }
      OrderIsSound(Now(), id);
      Discard(order.value, rules);
      RemovalStepped(old(Snap()), Snap(), id);
      ok := true;
    }

    /** A new market, paid for by the issuer of its stock. It has no last price yet, and an order
        precision that is too fine counts as none. */
    method HandleMsgCreateTradingPair(m: MsgCreateTradingPair, tokens: map<Denom, Addr>, createMarketFee: nat)
      returns (ok: bool)
      requires Valid() && ZeroFree(GetSymbol(m.stock, m.money))
      modifies this`markets, bank`ledger
      ensures Valid() && SameSurplus(old(Now()), Now())
      ensures ok == (GetSymbol(m.stock, m.money) !in old(markets) && m.money in tokens && m.stock in tokens
                     && tokens[m.stock] == m.creator && CanSend(old(bank.ledger), Nobody, m.creator, CET,
                                                                createMarketFee))
      ensures ok ==> var s := GetSymbol(m.stock, m.money);
                && s in markets && markets == old(markets)[s := markets[s]]
                && markets[s].stock == m.stock && markets[s].money == m.money
                && markets[s].pricePrecision == m.pricePrecision
                && markets[s].lastExecutedPrice == 0
                && markets[s].orderPrecision <= MAX_ORDER_PRECISION
                && (m.orderPrecision <= MAX_ORDER_PRECISION ==> markets[s].orderPrecision == m.orderPrecision)
                && (m.orderPrecision > MAX_ORDER_PRECISION ==> markets[s].orderPrecision == 0)
      ensures !ok ==> markets == old(markets)
      ensures bank.ledger == if ok then Send(old(bank.ledger), Nobody, m.creator, FEE_COLLECTOR, CET, createMarketFee)
      else old(bank.ledger)
      ensures Stepped(old(Snap()), Snap(), if ok then Listing(GetSymbol(m.stock, m.money)) else Message)
    {
      hide Filed, Sound, Calm, ZeroFree, Solvent, SameSurplus;
      SameSurplusSelf(Now());
      var symbol := GetSymbol(m.stock, m.money);
      if symbol in markets { return false; }
      if m.money !in tokens || m.stock !in tokens { return false; }
      if tokens[m.stock] != m.creator { return false; }
      if Bal(bank.ledger.coins, Acct(m.creator, CET)) < createMarketFee { return false; }
      var orderPrecision := 0;
      if m.orderPrecision <= MAX_ORDER_PRECISION { orderPrecision := m.orderPrecision; }
      markets := markets[symbol := MarketInfo(m.stock, m.money, m.pricePrecision, orderPrecision, 0)];
      ok := bank.DeductFee(m.creator, createMarketFee);
      SendKeepsSupply(old(bank.ledger), Nobody, m.creator, FEE_COLLECTOR, CET, createMarketFee);
      SpendingKeepsSolvent(old(Now()), bank.ledger);
    }

    /** Only the stock's owner may ask for a market's end, once, and not too soon. */
    method HandleMsgCancelTradingPair(sender: Addr, symbol: string, effectiveTime: nat, currTime: nat, minExpired: nat,
                                      owners: map<Denom, Addr>)
      returns (ok: bool)
      requires Valid() && effectiveTime < Pow256(TIME_BYTES)
      modifies this`requests, store
      ensures Valid() && SameSurplus(old(Now()), Now())
      ensures ok == (effectiveTime >= currTime + minExpired && symbol in markets && symbol !in old(requests)
                     && markets[symbol].stock in owners && owners[markets[symbol].stock] == sender)
      ensures requests == if ok then old(requests)[symbol := effectiveTime] else old(requests)
      ensures Stepped(old(Snap()), Snap(), Message)
    {
      hide Indexed, DelistIndexed, Marked, Solvent, Calm, OnlyDelistChanged, ZeroFree;
      if effectiveTime < currTime + minExpired { return false; }
      if symbol !in markets { return false; }
      if markets[symbol].stock !in owners || owners[markets[symbol].stock] != sender { return false; }
      var keeper := new DelistKeeper(store);
      var has := keeper.HasDelistRequest(symbol, requests);
      if has { return false; }
      ghost var before := store.data;
      keeper.AddDelistRequest(effectiveTime, symbol, requests);
      DelistKeepsRest(before, store.data, book);
      OnlyOthersChanged(before, store.data);
      RemovalKeepsCalm(before, store.data, book, book, views);
      requests := requests[symbol := effectiveTime];
      ok := true;
    }

    // ---------------------------------------------------------- the first block of a day

    /** Removes what outlived its time from one market. */
    method RemoveExpiredIn(symbol: string, rules: FeeRules, height: nat)
      requires Valid() && ValidRules(rules) && ZeroFree(symbol) && height < Pow256(HEIGHT_BYTES)
      modifies this`book, store, bank`ledger
      ensures Valid() && SameSurplus(old(Now()), Now())
      ensures book == Unexpired(old(book), {symbol}, height)
      ensures Closings(old(Now()), Now(), bank.forbidden, rules) && MarksStay(old(store.data), store.data)
    {
      hide EndHeight, Filed, Solvent, Sound, Calm, WellNamed, Indexed, SameSurplus, AllOpen, Pow256, ZeroFree,
           Closing.Close, Closings, MarksStay;
      FiledIsIndexed(store.data, book, requests);
      var keeper := new OrderKeeper(store, symbol);
      var oldOrders := keeper.GetOlderThan(height, book);
      ghost var x, before := Now(), book;
      SameSurplusSelf(x);
      NoClosing(x, bank.forbidden, rules);
      ghost var marked := store.data;
      SameMarks(marked);
      for i := 0 to |oldOrders|
        invariant Valid() && SameSurplus(x, Now()) && Closings(x, Now(), bank.forbidden, rules)
                  && MarksStay(marked, store.data)
        invariant book == before - Overdue(oldOrders[..i], height)
      {
        var order := oldOrders[i];
        assert oldOrders[..i + 1] == oldOrders[..i] + [order];
        NotYetRemoved(oldOrders, before, OlderThan(before, symbol, height), i, Overdue(oldOrders[..i], height));
        if EndHeight(order) > height {
          continue;
        }
        OrderIsSound(Now(), order.terms.id);
        ghost var y, data := Now(), store.data;
        Discard(order, rules);
        SameSurplusTwice(x, y, Now());
        ClosingsTwice(x, y, Now(), bank.forbidden, rules);
        MarksStayTwice(marked, data, store.data);
      }
      assert oldOrders[..|oldOrders|] == oldOrders;
      OverdueIsExpired(oldOrders, before, symbol, height);
    }

    method RemoveExpiredOrder(infos: seq<MarketInfo>, rules: FeeRules, height: nat)
      requires Valid() && ValidRules(rules) && height < Pow256(HEIGHT_BYTES)
      requires forall info | info in infos :: ZeroFree(GetSymbol(info.stock, info.money))
      modifies this`book, store, bank`ledger
      ensures Valid() && SameSurplus(old(Now()), Now())
      ensures book == Unexpired(old(book), Symbols(infos), height)
      ensures Closings(old(Now()), Now(), bank.forbidden, rules) && MarksStay(old(store.data), store.data)
    {
      hide Filed, Solvent, Calm, WellNamed, SameSurplus, AllOpen, Pow256, ZeroFree, Closings, MarksStay;
      ghost var x, before := Now(), book;
      SameSurplusSelf(x);
      NoClosing(x, bank.forbidden, rules);
      ghost var marked := store.data;
      SameMarks(marked);
      assert Unexpired(before, {}, height) == before;
      for i := 0 to |infos|
        invariant Valid() && SameSurplus(x, Now()) && Closings(x, Now(), bank.forbidden, rules)
                  && MarksStay(marked, store.data)
        invariant book == Unexpired(before, Symbols(infos[..i]), height)
      {
        var symbol := GetSymbol(infos[i].stock, infos[i].money);
        assert infos[..i + 1] == infos[..i] + [infos[i]];
        assert Symbols(infos[..i + 1]) == Symbols(infos[..i]) + {symbol};
        ghost var y, data := Now(), store.data;
        RemoveExpiredIn(symbol, rules, height);
        SameSurplusTwice(x, y, Now());
        ClosingsTwice(x, y, Now(), bank.forbidden, rules);
        MarksStayTwice(marked, data, store.data);
      }
      assert infos[..|infos|] == infos;
    }

    /** Removes every order of a market that is being delisted. */
    method RemoveAllIn(symbol: string, rules: FeeRules, height: nat)
      requires Valid() && ValidRules(rules) && ZeroFree(symbol) && height + 1 < Pow256(HEIGHT_BYTES)
      modifies this`book, store, bank`ledger
      ensures Valid() && SameSurplus(old(Now()), Now())
      ensures book == Delisted(old(book), {symbol}, height)
      ensures Closings(old(Now()), Now(), bank.forbidden, rules) && MarksStay(old(store.data), store.data)
    {
      hide Filed, Solvent, Sound, Calm, WellNamed, Indexed, SameSurplus, AllOpen, Pow256, ZeroFree, Closing.Close,
           Closings, MarksStay;
      FiledIsIndexed(store.data, book, requests);
      var keeper := new OrderKeeper(store, symbol);
      var oldOrders := keeper.GetOlderThan(height + 1, book);
      ghost var x, before := Now(), book;
      SameSurplusSelf(x);
      NoClosing(x, bank.forbidden, rules);
      ghost var marked := store.data;
      SameMarks(marked);
      for i := 0 to |oldOrders|
        invariant Valid() && SameSurplus(x, Now()) && Closings(x, Now(), bank.forbidden, rules)
                  && MarksStay(marked, store.data)
        invariant book == before - IdSet(oldOrders[..i])
      {
        var ord := oldOrders[i];
        assert oldOrders[..i + 1] == oldOrders[..i] + [ord];
        NotYetRemoved(oldOrders, before, OlderThan(before, symbol, height + 1), i, IdSet(oldOrders[..i]));
        OrderIsSound(Now(), ord.terms.id);
        ghost var y, data := Now(), store.data;
        Discard(ord, rules);
        SameSurplusTwice(x, y, Now());
        ClosingsTwice(x, y, Now(), bank.forbidden, rules);
        MarksStayTwice(marked, data, store.data);
      }
      assert oldOrders[..|oldOrders|] == oldOrders;
      MembersAreDelisted(oldOrders, before, symbol, height);
    }

    /** Takes the orders and the records of these markets away. */
    method RemoveMarkets(delistSymbols: seq<string>, rules: FeeRules, height: nat)
      requires Valid() && ValidRules(rules) && height + 1 < Pow256(HEIGHT_BYTES)
      requires forall s | s in delistSymbols :: ZeroFree(s)
      modifies this`book, this`markets, store, bank`ledger
      ensures Valid() && SameSurplus(old(Now()), Now())
      ensures book == Delisted(old(book), SetOf(delistSymbols), height)
              && markets == old(markets) - SetOf(delistSymbols)
      ensures Closings(old(Now()), Now(), bank.forbidden, rules) && MarksStay(old(store.data), store.data)
    {
      hide Filed, Solvent, Calm, SameSurplus, AllOpen, Pow256, ZeroFree, WellNamed, Closings, MarksStay;
      ghost var x, before, listed := Now(), book, markets;
      SameSurplusSelf(x);
      NoClosing(x, bank.forbidden, rules);
      ghost var marked := store.data;
      SameMarks(marked);
      assert Delisted(before, {}, height) == before;
      for i := 0 to |delistSymbols|
        invariant Valid() && SameSurplus(x, Now()) && Closings(x, Now(), bank.forbidden, rules)
                  && MarksStay(marked, store.data)
        invariant book == Delisted(before, SetOf(delistSymbols[..i]), height)
                  && markets == listed - SetOf(delistSymbols[..i])
      {
        var symbol := delistSymbols[i];
        assert delistSymbols[..i + 1] == delistSymbols[..i] + [symbol];
        assert SetOf(delistSymbols[..i + 1]) == SetOf(delistSymbols[..i]) + {symbol};
        ghost var y, data := Now(), store.data;
        RemoveAllIn(symbol, rules, height);
        SameSurplusTwice(x, y, Now());
        ClosingsTwice(x, y, Now(), bank.forbidden, rules);
        MarksStayTwice(marked, data, store.data);
        FewerNamed(markets, requests, symbol);
        markets := markets - {symbol};
      }
      assert delistSymbols[..|delistSymbols|] == delistSymbols;
    }

    /** Ends every market whose time has come, `time` included. */
    method RemoveExpiredMarket(rules: FeeRules, height: nat, time: nat)
      requires Valid() && ValidRules(rules) && height + 1 < Pow256(HEIGHT_BYTES) && time < Pow256(TIME_BYTES)
      modifies this`book, this`markets, this`requests, store, bank`ledger
      ensures Valid() && SameSurplus(old(Now()), Now())
      ensures book == Delisted(old(book), Due(old(requests), time), height)
      ensures markets == old(markets) - Due(old(requests), time) && requests == old(requests) - Due(old(requests), time)
      ensures Closings(old(Now()), Now(), bank.forbidden, rules) && MarksStay(old(store.data), store.data)
    {
      hide Filed, Solvent, Calm, SameSurplus, AllOpen, Pow256, ZeroFree, Indexed, DelistIndexed, Marked,
           OnlyDelistChanged, Unexpired, Delisted, Closings, MarksStay;
      FiledIsIndexed(store.data, book, requests);
      var keeper := new DelistKeeper(store);
      var delistSymbols := keeper.GetDelistSymbolsBeforeTime(time, requests);
      assert SetOf(delistSymbols) == Due(requests, time);
      RemoveMarkets(delistSymbols, rules, height);
      FiledIsIndexed(store.data, book, requests);
      ghost var stored := store.data;
      keeper.RemoveDelistRequestsBeforeTime(time, requests);
      DelistKeepsRest(stored, store.data, book);
      OnlyOthersChanged(stored, store.data);
      MarksStayTwice(old(store.data), stored, store.data);
      RemovalKeepsCalm(stored, store.data, book, book, views);
      requests := requests - Due(requests, time);
      FiledAgain(store.data, book, requests);
    }

    // ---------------------------------------------------------- every other block

    method GetMarketsWithNewlyAddedOrder() returns (res: seq<string>)
      requires Marked(store.data)
      ensures Distinct(res) && forall s | s in res :: ZeroFree(s)
      ensures forall s | ZeroFree(s) :: s in res <==> MarkKey(s) in store.data
    {
      var keys := store.Iterator([NEWLY_ADDED], [NEWLY_ADDED + 1]);
      res := [];
      for i := 0 to |keys|
        invariant |res| == i && forall j | 0 <= j < i :: ZeroFree(res[j]) && keys[j] == MarkKey(res[j])
      {
        assert keys[i] in keys;
        RangeIsMarks(keys[i]);
        res := res + [TextOf(keys[i][1..])];
      }
      forall s | ZeroFree(s) ensures s in res <==> MarkKey(s) in store.data {
        if s in res {
          var j :| 0 <= j < |res| && res[j] == s;
          assert keys[j] in keys;
        }
        if MarkKey(s) in store.data {
          RangeIsMarks(MarkKey(s));
          var j :| 0 <= j < |keys| && keys[j] == MarkKey(s);
          MarkKeyInjective(s, res[j]);
        }
      }
    }

    /** Writes one changed order back and removes it if it is done: filled up, or good for one
        block only. `rest` are changed orders that are still to be written back. */
    method UpdateOrder(o: Order, rules: FeeRules, ghost rest: Book)
      requires Filed(store.data, book, requests) && ValidRules(rules)
      requires Solvent(Exchange(book + rest, bank.ledger)) && Calm(store.data, book + rest, views)
      requires o.terms.id in rest && rest[o.terms.id] == o && o.terms.id in book && book[o.terms.id].terms == o.terms
      modifies this`book, store, bank`ledger
      ensures Filed(store.data, book, requests) && OnlyOrdersChanged(old(store.data), store.data)
      ensures Solvent(Exchange(book + (rest - {o.terms.id}), bank.ledger))
              && Calm(store.data, book + (rest - {o.terms.id}), views)
      ensures SameSurplus(Exchange(old(book) + rest, old(bank.ledger)),
                          Exchange(book + (rest - {o.terms.id}), bank.ledger))
      ensures Sound(o) && book == if Gone(o) then old(book) - {o.terms.id} else old(book)[o.terms.id := o]
      ensures bank.ledger == if Gone(o) then Close(old(bank.ledger), bank.forbidden, rules, o) else old(bank.ledger)
    {
      hide Filed, Indexed, DelistIndexed, Marked, Solvent, Calm, SameSurplus, Sound, Storable, OnlyOrdersChanged,
           Closing.Close;
      FiledIsIndexed(store.data, book, requests);
      StoredIsStorable(store.data, book, o.terms.id);
      ghost var before, whole, stored := book, book + rest, store.data;
      var keeper := new OrderKeeper(store, o.terms.symbol);
      keeper.Update(o, book);
      OrdersKeepRest(stored, store.data, requests);
      book := book[o.terms.id := o];
      FiledAgain(store.data, book, requests);
      assert book + (rest - {o.terms.id}) == whole;
      RemovalKeepsCalm(stored, store.data, whole, whole, views);
      OrderIsSound(Exchange(whole, bank.ledger), o.terms.id);
      SoundOrderHasEnoughMoney(o);
      SameSurplusSelf(Exchange(whole, bank.ledger));
      if o.terms.timeInForce == IOC || o.leftStock == 0 || NotEnoughMoney(o) {
        CloseKeepsSolvent(Exchange(whole, bank.ledger), bank.forbidden, rules, o.terms.id);
        SameSurplusMeans(Exchange(whole, bank.ledger),
                         Exchange(whole - {o.terms.id}, Close(bank.ledger, bank.forbidden, rules, o)));
        stored := store.data;
        RemoveOrder(o, rules);
        OnlyOrdersTwice(old(store.data), stored, store.data);
        assert book + (rest - {o.terms.id}) == whole - {o.terms.id};
        RemovalKeepsCalm(stored, store.data, whole, whole - {o.terms.id}, views);
      }
    }

    /** How things stand while changed orders `rest` are still to be written back: seen with
        them, the exchange is as it was at `x`. */
    ghost predicate Between(x: Exchange, stored: map<Key, Value>, rest: Book)
      reads this, store, bank
    {
      && Filed(store.data, book, requests) && OnlyOrdersChanged(stored, store.data)
      && Solvent(Exchange(book + rest, bank.ledger)) && Calm(store.data, book + rest, views)
      && SameSurplus(x, Exchange(book + rest, bank.ledger))
    }

    method UpdateOne(o: Order, rules: FeeRules, ghost rest: Book, ghost x: Exchange, ghost stored: map<Key, Value>)
      requires Between(x, stored, rest) && ValidRules(rules)
      requires o.terms.id in rest && rest[o.terms.id] == o && o.terms.id in book && book[o.terms.id].terms == o.terms
      modifies this`book, store, bank`ledger
      ensures Between(x, stored, rest - {o.terms.id})
      ensures Sound(o) && book == if Gone(o) then old(book) - {o.terms.id} else old(book)[o.terms.id := o]
      ensures Closings(Exchange(old(book) + rest, old(bank.ledger)),
                       Exchange(book + (rest - {o.terms.id}), bank.ledger), bank.forbidden, rules)
    {
      hide Filed, Solvent, Calm, SameSurplus, Sound, OnlyOrdersChanged, Gone, Closings, Closing.Close;
      ghost var y, data, was := Exchange(book + rest, bank.ledger), store.data, book;
      UpdateOrder(o, rules, rest);
      WrittenOrClosed(was, book, rest, o);
      if Gone(o) { OneClosing(y, bank.forbidden, rules, o); } else { NoClosing(y, bank.forbidden, rules); }
      SameSurplusTwice(x, y, Exchange(book + (rest - {o.terms.id}), bank.ledger));
      OnlyOrdersTwice(stored, data, store.data);
    }

    /** Writes all changed orders of one market back, in any order. */
    method UpdateOrders(updates: Book, rules: FeeRules, ghost rest: Book, ghost x: Exchange,
                        ghost stored: map<Key, Value>)
      requires Between(x, stored, rest) && ValidRules(rules) && AllOpen(book)
      requires Writable(updates, rest, book)
      modifies this`book, store, bank`ledger
      ensures Between(x, stored, rest - updates.Keys) && AllOpen(book)
      ensures book == Settled(old(book), updates)
      ensures Closings(Exchange(old(book) + rest, old(bank.ledger)),
                       Exchange(book + (rest - updates.Keys), bank.ledger), bank.forbidden, rules)
    {
      hide Keeper.Updating, Keeper.Between, Closings, Settled, AllOpen, Writable, ValidRules;
      ghost var done, before, y := {}, book, Exchange(book + rest, bank.ledger);
      StartUpdating(updates, rest, x, stored, rules);
      var left := updates.Keys;
      while left != {}
        invariant left + done == updates.Keys && left !! done
        invariant Updating(x, stored, y, before, updates, rest, done, rules)
        decreases |left|
      {
        var id :| id in left;
        UpdateNext(updates, id, rules, rest, done, x, stored, y, before);
        left := left - {id};
        done := done + {id};
      }
      DoneUpdating(updates, rest, done, x, stored, y, before, rules);
    }

    /** The changed orders in `done` have been written back, the others have not. */
    ghost predicate Updating(x: Exchange, stored: map<Key, Value>, y: Exchange, before: Book, updates: Book, rest: Book,
                             done: set<OrderID>, rules: FeeRules)
      reads this, store, bank
    {
      && Between(x, stored, rest - done) && AllOpen(book) && book == Settled(before, Restrict(updates, done))
      && Closings(y, Exchange(book + (rest - done), bank.ledger), bank.forbidden, rules)
    }

    lemma StartUpdating(updates: Book, rest: Book, x: Exchange, stored: map<Key, Value>, rules: FeeRules)
      requires Between(x, stored, rest) && AllOpen(book) && ValidRules(rules)
      ensures Updating(x, stored, Exchange(book + rest, bank.ledger), book, updates, rest, {}, rules)
    {
      hide Keeper.Between, AllOpen, Closings, Settled;
      NothingSettled(book, updates);
      DropNothing(rest);
      NoClosing(Exchange(book + rest, bank.ledger), bank.forbidden, rules);
    }

    lemma DoneUpdating(updates: Book, rest: Book, done: set<OrderID>, x: Exchange, stored: map<Key, Value>, y: Exchange,
                       before: Book, rules: FeeRules)
      requires Updating(x, stored, y, before, updates, rest, done, rules) && done == updates.Keys
      ensures Between(x, stored, rest - updates.Keys) && AllOpen(book) && book == Settled(before, updates)
      ensures Closings(y, Exchange(book + (rest - updates.Keys), bank.ledger), bank.forbidden, rules)
    {
      hide Keeper.Between, AllOpen, Closings, Settled;
      AllSettled(before, updates, done);
    }

    method UpdateNext(updates: Book, id: OrderID, rules: FeeRules, ghost rest: Book, ghost done: set<OrderID>,
                      ghost x: Exchange, ghost stored: map<Key, Value>, ghost y: Exchange, ghost before: Book)
      requires Updating(x, stored, y, before, updates, rest, done, rules) && ValidRules(rules)
      requires Writable(updates, rest, before) && id in updates && id !in done
      modifies this`book, store, bank`ledger
      ensures Updating(x, stored, y, before, updates, rest, done + {id}, rules)
    {
      hide Keeper.Between, Sound, Gone, AllOpen, Settled, Closings;
      ghost var was, z := book, Exchange(book + (rest - done), bank.ledger);
      NotYetSettled(before, updates, done, id);
      UpdateOne(updates[id], rules, rest - done, x, stored);
      DropOneMore(rest, done, id);
      ClosingsTwice(y, z, Exchange(book + (rest - (done + {id})), bank.ledger), bank.forbidden, rules);
      SettledStep(before, was, updates, done, id);
    }

    /** The middle of a block that began at `x`: markets were matched, and the orders they
        changed are in `pending`. */
    ghost predicate InBlock(x: Exchange, pending: Book)
      reads this, store, bank
    {
      && Filed(store.data, book, requests) && AllOpen(book) && WellNamed(markets, requests)
      && Solvent(Exchange(book + pending, bank.ledger)) && Calm(store.data, book + pending, views)
      && SameSurplus(x, Exchange(book + pending, bank.ledger))
    }

    lemma BlockStarts()
      requires Valid()
      ensures InBlock(Now(), map[])
    {
      hide Filed, Solvent, Calm, WellNamed, AllOpen;
      assert book + map[] == book;
    }

    lemma BlockEnds(x: Exchange)
      requires InBlock(x, map[])
      ensures Valid() && SameSurplus(x, Now())
    {
      hide Filed, Solvent, Calm, WellNamed, AllOpen, SameSurplus;
      assert book + map[] == book;
    }

    /** One market's turn in the middle of a block. */
    method MatchOne(symbol: string, tieBreak: OrderID -> int, lastPrice: Dec, params: Params, ghost x: Exchange,
                    ghost pending: Book)
      returns (updates: Book, newPrice: Dec, ghost deals: seq<Deal>)
      requires InBlock(x, pending) && ValidParams(params) && ZeroFree(symbol)
      requires forall id | id in pending ::
               id in book && pending[id].terms.symbol != symbol && book[id].terms == pending[id].terms
      modifies this`views, store, bank`ledger
      ensures views == old(views)[symbol := bank.forbidden]
      ensures InBlock(x, pending + updates) && store.data == old(store.data) - {MarkKey(symbol)}
      ensures ListsChanged(updates, book, symbol, params.rules.height, Parties(deals)) && Parties(deals) <= updates.Keys
      ensures TurnTraded(book, pending, old(bank.ledger), updates, bank.ledger, bank.forbidden, deals, symbol, newPrice)
      ensures NobodyBarred(book, symbol, bank.forbidden) && Unambiguous(book, tieBreak) ==>
                ClearsTheMarket(book, book + updates, symbol, tieBreak, HighPrice(lastPrice, params.maxChangeRatio),
                                lastPrice,
                                LowPrice(lastPrice, params.maxChangeRatio), newPrice)
      ensures forall id | id in updates ::
                id in book && updates[id].terms == book[id].terms && updates[id].terms.symbol == symbol
                    && book[id].terms.id == id
    {
      hide Indexed, DelistIndexed, Marked, Solvent, Calm, SameSurplus, WellNamed, Quiet, ClearsTheMarket, NobodyBarred,
           Sound, Pow256, ZeroFree, TurnTraded, Unambiguous, HighPrice, LowPrice;
      ghost var y, data := Exchange(book + pending, bank.ledger), store.data;
      MarksStand(data, book, requests, symbol);
      updates, newPrice, deals := RunMatch(bank, store, symbol, tieBreak, lastPrice, params.maxChangeRatio,
                                           params.rules.height, book, pending);
      TurnKeepsCalm(data, symbol, book, pending, updates, views, bank.forbidden);
      views := views[symbol := bank.forbidden];
      SameSurplusTwice(x, y, Exchange(book + (pending + updates), bank.ledger));
      forall id | id in updates ensures book[id].terms.id == id { StoredIsStorable(store.data, book, id); }
    }

    /** The first loop of a block: every marked market is matched, unless one of its tokens is
        forbidden. Nothing is written back yet. */
    method MatchMarkets(infos: seq<MarketInfo>, params: Params, tieBreak: OrderID -> int, ghost symbols: seq<string>)
      returns (lists: seq<Book>, prices: seq<Dec>, ghost pending: Book, ghost deals: seq<Deal>)
      requires Valid() && ValidParams(params) && Distinct(symbols) && SymbolsOf(infos, symbols)
      modifies this`views, store, bank`ledger
      ensures InBlock(old(Now()), pending) && Owed(lists, 0, symbols, book, pending) && |lists| == |prices| == |infos|
      ensures forall j | 0 <= j < |infos| && !Halted(infos[j], params) ::
                MarkKey(symbols[j]) !in store.data && LastView(views, symbols[j]) == bank.forbidden
      ensures AllChanged(lists, infos, symbols, |lists|, book, params, Parties(deals)) && Parties(deals) <= pending.Keys
      ensures MarksLeft(old(store.data), store.data, infos, symbols, |symbols|, params)
      ensures InRun(old(Now()), Exchange(book + pending, bank.ledger), bank.forbidden, deals)
              && DealsWithin(deals, book, symbols, |symbols|)
      ensures forall j | 0 <= j < |infos| :: Took(book, book + pending, deals, lists[j], infos[j], symbols[j],
                                                  prices[j], params, tieBreak, bank.forbidden)
    {
      hide Keeper.InBlock, Owed, Quiet, ListsChanged, AllChanged, Filed, Solvent, SameSurplus, Calm, AllOpen, WellNamed,
           Sound, InRun, DealsWithin, Took, TurnTraded, MarksLeft, ClearsTheMarket, NobodyBarred, Unambiguous,
           HighPrice, LowPrice, ZeroFree;
      ghost var x := Now();
      lists, prices, pending, deals := [], [], map[], [];
      ghost var marked := store.data;
      NoMarkTaken(marked, infos, symbols, params);
      BlockStarts();
      RunStarts(x, bank.forbidden, book, symbols);
      NothingOwed(symbols, book);
      NothingChanged(infos, symbols, book, params);
      for i := 0 to |infos|
        invariant InBlock(x, pending) && Owed(lists, 0, symbols, book, pending) && |lists| == |prices| == i
        invariant forall j | 0 <= j < i && !Halted(infos[j], params) ::
                    MarkKey(symbols[j]) !in store.data && LastView(views, symbols[j]) == bank.forbidden
        invariant AllChanged(lists, infos, symbols, i, book, params, Parties(deals)) && Parties(deals) <= pending.Keys
        invariant MarksLeft(marked, store.data, infos, symbols, i, params)
        invariant InRun(x, Exchange(book + pending, bank.ledger), bank.forbidden, deals)
                  && DealsWithin(deals, book, symbols, i)
        invariant forall j | 0 <= j < i :: Took(book, book + pending, deals, lists[j], infos[j], symbols[j], prices[j],
                                                params, tieBreak, bank.forbidden)
      {
        var mi := infos[i];
        var symbol := GetSymbol(mi.stock, mi.money);
        assert symbol == symbols[i];
        MarkTaken(marked, store.data, infos, symbols, i, params);
        if mi.stock in params.forbiddenTokens || mi.money in params.forbiddenTokens {
          GrownOwes(lists, lists + [map[]], symbols, book, pending, map[], pending);
          WithinMore(deals, book, symbols, i);
          PassedOverChanged(lists, infos, symbols, i, book, params, Parties(deals));
          PassedOver(book, book + pending, deals, mi, symbols, i, params, tieBreak, bank.forbidden);
          lists, prices := lists + [map[]], prices + [0];
        } else {
          OthersOwed(lists, symbols, book, pending, symbol);
          ghost var data, ledger := store.data, bank.ledger;
          var updates, newPrice;
          ghost var more;
          updates, newPrice, more := MatchOne(symbol, tieBreak, mi.lastExecutedPrice, params, x, pending);
          RunGrows(x, book, pending, ledger, updates, bank.ledger, bank.forbidden, deals, more, symbols, i, newPrice);
          forall j | 0 <= j < i
            ensures Took(book, book + (pending + updates), deals + more, lists[j], infos[j], symbols[j], prices[j],
                         params, tieBreak, bank.forbidden)
          {
            StillTook(book, pending, ledger, updates, bank.ledger, deals, more, lists[j], infos[j], symbols, j, i,
                      prices[j], newPrice, params, tieBreak, bank.forbidden);
          }
          NowTook(book, pending, ledger, updates, bank.ledger, deals, more, mi, symbols, i, newPrice, params, tieBreak,
                  bank.forbidden);
          PartiesTwice(deals, more);
          OneMoreChanged(lists, infos, symbols, i, book, params, Parties(deals), updates, Parties(more), pending);
          deals := deals + more;
          GrownOwes(lists, lists + [updates], symbols, book, pending, updates, pending + updates);
          pending := pending + updates;
          lists, prices := lists + [updates], prices + [newPrice];
        }
      }
    }

    lemma BlockIsBetween(x: Exchange, rest: Book)
      requires InBlock(x, rest)
      ensures Between(x, store.data, rest) && AllOpen(book) && WellNamed(markets, requests)
    {
      hide Filed, Solvent, Calm, WellNamed, AllOpen, SameSurplus;
    }

    lemma BetweenIsBlock(x: Exchange, stored: map<Key, Value>, rest: Book)
      requires Between(x, stored, rest) && AllOpen(book) && WellNamed(markets, requests)
      ensures InBlock(x, rest) && OnlyOrdersChanged(stored, store.data)
    {
      hide Filed, Solvent, Calm, WellNamed, AllOpen, SameSurplus, OnlyOrdersChanged;
    }

    method SetMarket(info: MarketInfo, ghost x: Exchange, ghost rest: Book)
      requires InBlock(x, rest) && ZeroFree(GetSymbol(info.stock, info.money))
      modifies this`markets
      ensures InBlock(x, rest) && markets == old(markets)[GetSymbol(info.stock, info.money) := info]
    {
      hide Filed, Solvent, Calm, AllOpen, SameSurplus, ZeroFree;
      markets := markets[GetSymbol(info.stock, info.money) := info];
    }

    method UpdateMarket(list: Book, rules: FeeRules, ghost x: Exchange, ghost rest: Book)
      requires InBlock(x, rest) && ValidRules(rules)
      requires Writable(list, rest, book)
      modifies this`book, store, bank`ledger
      ensures InBlock(x, rest - list.Keys) && OnlyOrdersChanged(old(store.data), store.data)
      ensures book == Settled(old(book), list)
      ensures Closings(Exchange(old(book) + rest, old(bank.ledger)), Exchange(book + (rest - list.Keys), bank.ledger),
                       bank.forbidden, rules)
    {
      hide Keeper.InBlock, Keeper.Between, OnlyOrdersChanged, WellNamed, AllOpen, Settled, Closings, Writable;
      ghost var data := store.data;
      BlockIsBetween(x, rest);
      UpdateOrders(list, rules, rest, x, data);
      BetweenIsBlock(x, data, rest - list.Keys);
    }

    /** The second loop of a block: changed orders are written back, and a market where something
        was dealt gets its new price. */
    method WriteBack(infos: seq<MarketInfo>, lists: seq<Book>, prices: seq<Dec>, rules: FeeRules,
                     ghost symbols: seq<string>, ghost x: Exchange, ghost pending: Book)
      requires InBlock(x, pending) && Owed(lists, 0, symbols, book, pending) && |lists| == |prices| == |infos|
      requires ValidRules(rules) && Distinct(symbols) && SymbolsOf(infos, symbols)
      requires forall j | 0 <= j < |infos| :: symbols[j] in markets && infos[j] == markets[symbols[j]]
      requires forall j | 0 <= j < |infos| :: prices[j] != 0 ==> |lists[j]| > 0
      modifies this`book, this`markets, store, bank`ledger
      ensures Valid() && SameSurplus(x, Now()) && OnlyOrdersChanged(old(store.data), store.data)
      ensures WrittenBack(old(book), book, lists, |lists|)
      ensures Closings(Exchange(old(book) + pending, old(bank.ledger)), Now(), bank.forbidden, rules)
      ensures AllRepriced(old(markets), markets, symbols, prices, |symbols|)
    {
      hide Keeper.InBlock, Keeper.Valid, Owed, OnlyOrdersChanged, WrittenBack, ZeroFree, Settled, SameSurplus, Closings,
           AllRepriced;
      NoneRepriced(markets, symbols, prices);
      ghost var rest, stored, before, listed, y := pending, store.data, book, markets,
          Exchange(book + pending, bank.ledger);
      NoClosing(y, bank.forbidden, rules);
      OnlyOrdersSelf(stored);
      NothingWritten(book, lists);
      ListsApart(lists, symbols, book, pending);
      for i := 0 to |infos|
        invariant InBlock(x, rest) && OnlyOrdersChanged(stored, store.data) && Owed(lists, i, symbols, book, rest)
        invariant WrittenBack(before, book, lists, i)
        invariant Closings(y, Exchange(book + rest, bank.ledger), bank.forbidden, rules)
        invariant AllRepriced(listed, markets, symbols, prices, i)
      {
        var mi := infos[i];
        ghost var was, data, z, quoted := book, store.data, Exchange(book + rest, bank.ledger), markets;
        OwedNow(lists, i, symbols, book, rest);
        if |lists[i]| == 0 {
          NoneSettled(was, lists[i], rest);
        } else {
          UpdateMarket(lists[i], rules, x, rest);
          ClosingsTwice(y, z, Exchange(book + (rest - lists[i].Keys), bank.ledger), bank.forbidden, rules);
          OnlyOrdersTwice(stored, data, store.data);
          if prices[i] != 0 {
            assert GetSymbol(mi.stock, mi.money) == symbols[i];
            SetMarket(mi.(lastExecutedPrice := prices[i]), x, rest - lists[i].Keys);
          }
        }
        MoreRepriced(listed, quoted, markets, symbols, prices, i);
        MoreWritten(before, was, lists, i);
        OwedShrinks(lists, i, symbols, was, rest);
        rest := rest - lists[i].Keys;
      }
      NoneOwed(lists, symbols, book, rest);
      assert book + rest == book;
      BlockEnds(x);
    }

    /** Both loops, over the marked markets. */
    method MatchAll(infos: seq<MarketInfo>, params: Params, tieBreak: OrderID -> int, ghost symbols: seq<string>)
      returns (ghost deals: seq<Deal>)
      requires Valid() && ValidParams(params) && Distinct(symbols) && |infos| == |symbols|
      requires forall s | ZeroFree(s) :: s in symbols <==> MarkKey(s) in store.data
      requires forall j | 0 <= j < |infos| ::
               ZeroFree(symbols[j]) && symbols[j] in markets && infos[j] == markets[symbols[j]]
      modifies this`book, this`markets, this`views, store, bank`ledger
      ensures Valid() && SameSurplus(old(Now()), Now())
      ensures Blocked(old(Now()), Now(), bank.forbidden, params.rules, deals)
      ensures forall id | id in book :: id in old(book) && book[id].terms == old(book)[id].terms
      ensures forall s | s in symbols && !Halted(old(markets)[s], params) ::
              Quiet(book, s, bank.forbidden) && NoIocLeft(book, s, params.rules.height)
      ensures Auctioned(old(Now()), old(store.data), old(markets), markets, deals, params, tieBreak, bank.forbidden)
      ensures OnlyHaltedMarked(old(store.data), store.data, old(markets), params)
      ensures LeftWhenDone(old(Now()), book, deals, old(store.data), old(markets), params, bank.forbidden)
    {
      hide Keeper.InBlock, Keeper.Valid, Owed, Quiet, NoIocLeft, AllChanged, ListsChanged, LeftWhenDone, WrittenBack,
           SameSurplus, ZeroFree, OnlyOrdersChanged, Marked, InRun, Took, DealsWithin, Closings, Blocked, AllRepriced,
           Auctioned, MarksLeft, OnlyHaltedMarked, Halted, MarkKey;
      ghost var x, before, marked, listed := Now(), book, store.data, markets;
      InfosAreNamed(infos, symbols);
      MarketsAreNamed();
      OrdersAreNamed();
      var lists, prices;
      ghost var pending;
      lists, prices, pending, deals := MatchMarkets(infos, params, tieBreak, symbols);
      ghost var cleared, dealt := store.data, Exchange(book + pending, bank.ledger);
      forall j | 0 <= j < |infos| ensures prices[j] != 0 ==> |lists[j]| > 0 {
        TookWrites(book, book + pending, deals, lists[j], infos[j], symbols[j], prices[j], params, tieBreak,
                   bank.forbidden);
      }
      OwedTerms(lists, symbols, book, pending);
      WriteBack(infos, lists, prices, params.rules, symbols, x, pending);
      NowBlocked(x, dealt, Now(), bank.forbidden, params.rules, deals);
      DoneAreLeft(x, dealt, pending, book, deals, lists, infos, symbols, marked, listed, params, bank.forbidden);
      HaltedKeepMarks(marked, cleared, store.data, infos, symbols, listed, params);
      AllAuctioned(x, dealt, marked, listed, markets, lists, infos, symbols, prices, deals, params, tieBreak,
                   bank.forbidden);
      forall s | s in symbols && !Halted(listed[s], params)
        ensures Quiet(book, s, bank.forbidden) && NoIocLeft(book, s, params.rules.height) {
        var j :| 0 <= j < |symbols| && symbols[j] == s;
        MarkIsNoOrder(cleared, store.data, s);
        UnmarkedIsQuiet(s);
        ChangedIsListed(lists, infos, symbols, j, before, params, Parties(deals));
        IocIsWritten(before, book, lists, j, s, params.rules.height, Parties(deals));
      }
      TermsAreKept(before, book, lists);
    }

    /** Every block after the first of a day: marked markets are matched and their orders written
        back. A mark without a market stops the block before it starts. */
    method EndBlockMatching(params: Params, tieBreak: OrderID -> int) returns (ghost deals: seq<Deal>)
      requires Valid() && ValidParams(params)
      modifies this`book, this`markets, this`views, store, bank`ledger
      ensures Valid() && SameSurplus(old(Now()), Now())
      ensures Blocked(old(Now()), Now(), bank.forbidden, params.rules, deals)
      ensures forall id | id in book :: id in old(book) && book[id].terms == old(book)[id].terms
      ensures if MarksHaveMarkets(old(store.data), old(markets))
              then (forall s | ZeroFree(s) && MarkKey(s) in old(store.data) && !Halted(old(markets)[s], params) ::
                      Quiet(book, s, bank.forbidden) && NoIocLeft(book, s, params.rules.height))
                   && Auctioned(old(Now()), old(store.data), old(markets), markets, deals, params, tieBreak,
                                bank.forbidden)
              else deals == [] && Snap() == old(Snap())
      ensures MarksHaveMarkets(old(store.data), old(markets)) ==>
              OnlyHaltedMarked(old(store.data), store.data, old(markets), params)
      ensures MarksHaveMarkets(old(store.data), old(markets)) ==>
                LeftWhenDone(old(Now()), book, deals, old(store.data), old(markets), params, bank.forbidden)
      ensures Stepped(old(Snap()), Snap(), Block(false, deals, bank.forbidden, params.rules))
    {
      hide Keeper.Valid, Quiet, NoIocLeft, SameSurplus, ZeroFree, Marked, Closings, Blocked, Auctioned,
           OnlyHaltedMarked, Stepped, LeftWhenDone, Halted, MarkKey;
      SameSurplusSelf(Now());
      deals := [];
      NothingBlocked(Now(), bank.forbidden, params.rules);
      if !MarksHaveMarkets(store.data, markets) { BlockStepped(Snap(), Snap(), params, [], tieBreak, bank.forbidden); }
      ValidIsMarked();
      var markets0 := GetMarketsWithNewlyAddedOrder();
      if |markets0| == 0 {
        MarketsAreNamed();
        OrdersAreNamed();
        NothingMarked(store.data, markets, params);
        NothingLeft(Now(), store.data, markets, params, bank.forbidden);
        NothingAuctioned(Now(), store.data, markets, params, tieBreak, bank.forbidden);
        BlockStepped(Snap(), Snap(), params, [], tieBreak, bank.forbidden);
        return;
      }
      var infos: seq<MarketInfo> := [];
      for i := 0 to |markets0|
        invariant |infos| == i && forall j | 0 <= j < i :: markets0[j] in markets && infos[j] == markets[markets0[j]]
      {
        assert markets0[i] in markets0;
        if markets0[i] !in markets { return; }
        infos := infos + [markets[markets0[i]]];
      }
      deals := MatchAll(infos, params, tieBreak, markets0);
      BlockStepped(old(Snap()), Snap(), params, deals, tieBreak, bank.forbidden);
    }

    lemma OrdersAreNamed()
      requires Valid()
      ensures forall id | id in book :: ZeroFree(book[id].terms.symbol)
    {
      hide Solvent, AllOpen, Calm, WellNamed;
      FiledIsIndexed(store.data, book, requests);
      forall id | id in book ensures ZeroFree(book[id].terms.symbol) { StoredIsStorable(store.data, book, id); }
    }

    lemma ValidIsMarked()
      requires Valid()
      ensures Marked(store.data)
    {
    }

    lemma MarketsAreNamed()
      requires Valid()
      ensures forall s | s in markets :: ZeroFree(s)
    {
      hide Filed, Solvent, AllOpen, Calm;
    }

    lemma UnmarkedIsQuiet(symbol: string)
      requires Valid() && ZeroFree(symbol) && MarkKey(symbol) !in store.data
      ensures Quiet(book, symbol, LastView(views, symbol))
    {
      hide Filed, Solvent, AllOpen, WellNamed, Quiet;
    }

    lemma InfosAreNamed(infos: seq<MarketInfo>, symbols: seq<string>)
      requires Valid() && |infos| == |symbols| && forall j | 0 <= j < |infos| ::
               symbols[j] in markets && infos[j] == markets[symbols[j]]
      ensures SymbolsOf(infos, symbols)
    {
      hide Filed, Solvent, AllOpen, Calm;
    }

    /** The end of a block: on the first block of a day overdue orders and delisted markets are
        removed and nothing is matched; on every other block marked markets are matched. */
    method EndBlocker(needRemove: bool, infos: seq<MarketInfo>, params: Params, time: nat, tieBreak: OrderID -> int)
      returns (ghost deals: seq<Deal>)
      requires Valid() && ValidParams(params) && time < Pow256(TIME_BYTES)
      requires forall info :: info in infos <==> info in markets.Values
      modifies this`book, this`markets, this`requests, this`views, store, bank`ledger
      ensures Valid() && SameSurplus(old(Now()), Now())
      ensures Blocked(old(Now()), Now(), bank.forbidden, params.rules, deals) && (needRemove ==> deals == [])
      ensures needRemove ==> book == Delisted(Unexpired(old(book), old(markets).Keys, params.rules.height),
                                              Due(old(requests), time), params.rules.height)
      ensures needRemove ==>
              markets == old(markets) - Due(old(requests), time) && requests == old(requests) - Due(old(requests), time)
      ensures !needRemove && MarksHaveMarkets(old(store.data), old(markets)) ==>
                forall s | ZeroFree(s) && MarkKey(s) in old(store.data) && !Halted(old(markets)[s], params) ::
                  Quiet(book, s, bank.forbidden) && NoIocLeft(book, s, params.rules.height)
      ensures Stepped(old(Snap()), Snap(), Block(needRemove, deals, bank.forbidden, params.rules))
      ensures needRemove ==> MarksStay(old(store.data), store.data)
      ensures !needRemove && !MarksHaveMarkets(old(store.data), old(markets)) ==> deals == [] && Snap() == old(Snap())
      ensures !needRemove && MarksHaveMarkets(old(store.data), old(markets)) ==>
              OnlyHaltedMarked(old(store.data), store.data, old(markets), params)
      ensures !needRemove && MarksHaveMarkets(old(store.data), old(markets)) ==>
                Auctioned(old(Now()), old(store.data), old(markets), markets, deals, params, tieBreak, bank.forbidden)
      ensures !needRemove && MarksHaveMarkets(old(store.data), old(markets)) ==>
                LeftWhenDone(old(Now()), book, deals, old(store.data), old(markets), params, bank.forbidden)
      ensures !needRemove ==>
              requests == old(requests) && forall id | id in book ::
                  id in old(book) && book[id].terms == old(book)[id].terms
    {
      hide Quiet, NoIocLeft, SameSurplus, ZeroFree, MarksHaveMarkets, Unexpired, Delisted, Filed, Solvent, Calm,
           AllOpen, Closings, Auctioned, MarksStay, OnlyHaltedMarked, LeftWhenDone, ValidRun, Replay;
      deals := [];
      if needRemove {
        SymbolsAreKeys(markets, requests, infos);
        ghost var x := Now();
        RemoveExpiredOrder(infos, params.rules, params.rules.height);
        ghost var y, data := Now(), store.data;
        RemoveExpiredMarket(params.rules, params.rules.height, time);
        SameSurplusTwice(x, y, Now());
        ClosingsTwice(x, y, Now(), bank.forbidden, params.rules);
        MarksStayTwice(old(store.data), data, store.data);
        JustClosings(x, Now(), bank.forbidden, params.rules);
        return;
      }
      deals := EndBlockMatching(params, tieBreak);
    }

    // ---------------------------------------------------------- placing an order

    /** The three freezes of a new order; a refused one leaves the rest undone. */
    method HandleFeeForCreateOrder(o: Order) returns (ok: bool)
      requires Sound(o)
      modifies bank`ledger
      ensures ok == CanFreezeAll(old(bank.ledger), bank.forbidden, o)
              && bank.ledger == FrozenSoFar(old(bank.ledger), bank.forbidden, o)
    {
      var sender := o.terms.sender;
      ok := bank.FreezeCoins(sender, UsedDenom(o.terms), FrozenOf(o));
      if !ok { return; }
      if o.terms.frozenCommission != 0 {
        ok := bank.FreezeCoins(sender, CET, o.terms.frozenCommission);
        if !ok { return; }
      }
      if o.terms.frozenFeatureFee != 0 {
        ok := bank.FreezeCoins(sender, CET, o.terms.frozenFeatureFee);
      }
    }

    /** The checks of a message whose order would be `o`. */
    method CheckMsgCreateOrder(m: MsgCreateOrder, o: Order, cetFee: int, params: Params) returns (ok: bool)
      requires Filed(store.data, book, requests) && Sound(o)
      requires o.terms.sender == m.sender && o.terms.symbol == m.symbol
               && cetFee == o.terms.frozenCommission + o.terms.frozenFeatureFee
      ensures ok == (Affords(bank.ledger, o) && o.terms.id !in book && Admissible(m, markets, params, bank.forbidden))
    {
      hide Filed, Sound, Affords, Storable;
      ChecksMeanAffords(bank.ledger, o);
      FiledIsIndexed(store.data, book, requests);
      if cetFee != 0 {
        if Bal(bank.ledger.coins, Acct(m.sender, CET)) < cetFee { return false; }
      }
      var stock, money, denom := StockOf(m.symbol), MoneyOf(m.symbol), UsedDenom(o.terms);
      var totalAmount := o.freeze;
      if denom == CET { totalAmount := totalAmount + cetFee; }
      if Bal(bank.ledger.coins, Acct(m.sender, denom)) < totalAmount { return false; }
      var existing := QueryOrder(store, StringBytes(o.terms.id), o.terms.id, book);
      if existing != None { return false; }
      if m.symbol !in markets { return false; }
      var marketInfo := markets[m.symbol];
      if m.pricePrecision > marketInfo.pricePrecision { return false; }
      if stock in params.forbiddenTokens || money in params.forbiddenTokens { return false; }
      if Forbids(bank.forbidden, stock, m.sender) || Forbids(bank.forbidden, money, m.sender) { return false; }
      var baseValue := GetGranularityOfOrder(marketInfo.orderPrecision);
      if m.quantity % baseValue != 0 { return false; }
      ok := true;
    }

    /** A message either enters exactly the order it describes, with exactly that order's reserve
        moved from spendable to frozen, or it changes nothing. It is accepted exactly when the
        order is `Acceptable`. */
    method HandleMsgCreateOrder(m: MsgCreateOrder, sequence: Option<nat>, volume: Dec, params: Params)
      returns (ok: bool)
      requires Valid() && ValidateBasic(m) && ValidParams(params)
      modifies this`book, store, bank`ledger
      ensures Valid() && SameSurplus(old(Now()), Now())
      ensures ok == Acceptable(m, sequence, volume, params, old(Now()), markets, bank.forbidden)
      ensures ok ==> var o := EnteredOrder(m, sequence, volume, params);
                book == old(book)[o.terms.id := o] && Froze(old(bank.ledger), bank.ledger, o)
      ensures !ok ==> book == old(book) && bank.ledger == old(bank.ledger) && store.data == old(store.data)
      ensures Stepped(old(Snap()), Snap(), Message) && (ok ==> MarkKey(m.symbol) in store.data)
    {
      hide Filed, Solvent, Sound, Affords, Froze, Storable, Admissible, Calm, WellNamed, OnlyOrdersChanged, MarksRemain,
           MarksMarkets, CanFreezeAll, FrozenSoFar, Stepped;
      NothingStepped(Snap());
      var denomAndAmount := GetDenomAndOrderAmount(m);
      if denomAndAmount == None { return false; }
      if sequence == None { return false; }
      var frozenFee := CalOrderCommission(m, volume, params);
      if frozenFee == None { return false; }
      var featureFee := CalFeatureFeeForExistBlocks(m, params);
      FeatureFeeFits(m, params);
      var totalFee := frozenFee.value + featureFee;
      if featureFee > MAX_ORDER_AMOUNT || frozenFee.value > MAX_ORDER_AMOUNT || totalFee > MAX_ORDER_AMOUNT {
        return false;
      }
      var order := NewOrder(m, sequence.value, params, denomAndAmount.value.1, frozenFee.value);
      NewOrderIsSound(m, sequence.value, params, denomAndAmount.value.0, denomAndAmount.value.1, frozenFee.value);
      var good := CheckMsgCreateOrder(m, order, totalFee, params);
      if !good { return false; }
      var savedData, savedLedger := store.data, bank.ledger;
      FileNewOrder(order);
      AdmissibleIsUnbarred(m, markets, params, bank.forbidden, order);
      FreezesRefused(bank.ledger, bank.forbidden, order);
      ok := HandleFeeForCreateOrder(order);
      if !ok {
        // the failed transaction leaves no trace
        store.data, bank.ledger := savedData, savedLedger;
        book := old(book);
      } else {
        EntryKeepsSolvent(old(Now()), order, bank.ledger);
        MarkedAndOthers(savedData, store.data, m.symbol, markets);
        EntryKeepsCalm(savedData, store.data, old(book), order, views);
        EntryStepped(old(Snap()), Snap(), order);
      }
    }

    /** Adds an order to the store and marks its market. */
    method FileNewOrder(o: Order)
      requires Filed(store.data, book, requests) && Storable(o.terms) && o.terms.id !in book
      modifies this`book, store
      ensures Filed(store.data, book, requests) && book == old(book)[o.terms.id := o]
      ensures OnlyOrdersChanged(old(store.data)[MarkKey(o.terms.symbol) := Mark], store.data)
    {
      hide Indexed, DelistIndexed, Marked, OnlyOrdersChanged;
      var keeper := new OrderKeeper(store, o.terms.symbol);
      MarksStand(store.data, book, requests, o.terms.symbol);
      ghost var marked := store.data[MarkKey(o.terms.symbol) := Mark];
      keeper.Add(o, book);
      OrdersKeepRest(marked, store.data, requests);
      book := book[o.terms.id := o];
    }
  }
}
