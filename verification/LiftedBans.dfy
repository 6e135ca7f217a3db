/** A market that was matched while some of its orders' senders were forbidden to trade, and what
    becomes of it when their bans are lifted. */
module LiftedBans {
  import opened Asset
  import opened Auction
  import opened BlockRuns
  import BancorPools
  import opened Blocks
  import opened ByteKeys
  import opened Chain
  import opened Closing
  import opened Decimals
  import opened Ledgers
  import opened LockedCoins
  import opened Locking
  import opened Market
  import opened MarketRuns
  import opened MarketState
  import opened MatchRun
  import opened OrderEntry
  import opened Orders
  import opened OrderStore
  import opened Overlays
  import opened Settlement
  import opened StoreKeys
  import opened Tokens
  import opened WalkOrder
  import opened Withholding
  import Delist

  // ------------------------------------------------------------ exactly when

  /** Whoever could not trade `before` cannot `now`. */
  ghost predicate NoneLifted(before: Forbidden, now: Forbidden, symbol: string)
  {
    forall a :: Barred(before, symbol, a) ==> Barred(now, symbol, a)
  }

  /** Markets that are quiet under old rules are quiet under new ones. */
  ghost predicate StaysQuiet(before: Forbidden, now: Forbidden, symbol: string)
  {
    forall x: Exchange | Solvent(x) && AllIdentified(x.orders) && Quiet(x.orders, symbol, before) ::
        Quiet(x.orders, symbol, now)
  }

  ghost predicate AllIdentified(book: Book)
  {
    forall id | id in book :: Identified(book[id])
  }

  lemma StricterIsQuiet(book: Book, before: Forbidden, now: Forbidden, symbol: string)
    requires Quiet(book, symbol, before) && NoneLifted(before, now, symbol)
    ensures Quiet(book, symbol, now)
  {
    hide Barred;
    forall b, a | Tradable(book, b, Bid, symbol, now) && Tradable(book, a, Ask, symbol, now)
      ensures book[b].terms.price < book[a].terms.price {
      assert Tradable(book, b, Bid, symbol, before) && Tradable(book, a, Ask, symbol, before);
    }
  }

  function OneCoin(sender: Addr, symbol: string, side: Side): Order
  {
    var sequence := if side == Bid then 0 else 1;
    Order(Terms(AssemblyOrderID(sender, sequence, 0), sender, sequence, 0, symbol, ONE, 1, side, GTE, 0, 0, 0, 0), 1, 1,
          0, 0)
  }

  /** A bid and an ask of one sender, at one price. */
  lemma CrossingIsSolvent(sender: Addr, symbol: string)
    ensures var b, a := OneCoin(sender, symbol, Bid), OneCoin(sender, symbol, Ask);
            && Sound(b) && Sound(a) && Solvent(Bare(b, a, 0)) && AllIdentified(Bare(b, a, 0).orders)
            && Bare(b, a, 0).orders == map[b.terms.id := b, a.terms.id := a] && b.terms.id != a.terms.id
  {
    hide AssemblyOrderID;
    NextIdentifier(sender, 0, 0);
    BareIsSolvent(OneCoin(sender, symbol, Bid), OneCoin(sender, symbol, Ask), 0);
  }

  lemma CrossingShows(book: Book, b: OrderID, a: OrderID, symbol: string, forbidden: Forbidden)
    requires Tradable(book, b, Bid, symbol, forbidden) && Tradable(book, a, Ask, symbol, forbidden)
    requires book[b].terms.price >= book[a].terms.price
    ensures !Quiet(book, symbol, forbidden)
  {
    hide Tradable;
  }

  lemma LiftedCross(before: Forbidden, now: Forbidden, symbol: string, sender: Addr)
    requires Barred(before, symbol, sender) && !Barred(now, symbol, sender)
    ensures !StaysQuiet(before, now, symbol)
  {
    hide Barred, Solvent, Sound, AssemblyOrderID, AllIdentified;
    var b, a := OneCoin(sender, symbol, Bid), OneCoin(sender, symbol, Ask);
    CrossingIsSolvent(sender, symbol);
    var x := Bare(b, a, 0);
    assert Quiet(x.orders, symbol, before);
    CrossingShows(x.orders, b.terms.id, a.terms.id, symbol, now);
  }

  /** An unmarked market is quiet under the rules that it was last matched under. It is quiet under
      the present rules too, whatever its orders, exactly when no ban was lifted since. */
  lemma QuietUnlessLifted(before: Forbidden, now: Forbidden, symbol: string)
    ensures StaysQuiet(before, now, symbol) <==> NoneLifted(before, now, symbol)
  {
    hide Barred, Quiet, Solvent, AllIdentified;
    if NoneLifted(before, now, symbol) {
      forall x: Exchange | Solvent(x) && AllIdentified(x.orders) && Quiet(x.orders, symbol, before)
        ensures Quiet(x.orders, symbol, now) {
        StricterIsQuiet(x.orders, before, now, symbol);
      }
    } else {
      var sender :| Barred(before, symbol, sender) && !Barred(now, symbol, sender);
      LiftedCross(before, now, symbol, sender);
    }
  }

  // ------------------------------------------------------------ how it comes about

  /** A bid and an ask of one sender in one market, good till their ends, that reach each other. */
  predicate AreCrossing(bid: MsgCreateOrder, ask: MsgCreateOrder)
  {
    && ValidateBasic(bid) && ValidateBasic(ask) && bid.sender == ask.sender && bid.symbol == ask.symbol
    && bid.side == Bid && ask.side == Ask && bid.timeInForce == GTE && ask.timeInForce == GTE
    && ActualPrice(bid) >= ActualPrice(ask)
  }

  /** Both are accepted, one after the other. */
  ghost predicate BothAccepted(bid: MsgCreateOrder, ask: MsgCreateOrder, s: nat, t: nat, v: Dec, w: Dec, params: Params,
                               x: Exchange, markets: Markets, forbidden: Forbidden)
    requires ValidateBasic(bid) && ValidateBasic(ask)
  {
    && Acceptable(bid, Some(s), v, params, x, markets, forbidden)
    && var o := EnteredOrder(bid, Some(s), v, params);
       forall l | Froze(x.ledger, l, o) :: Acceptable(ask, Some(t), w, params, Exchange(x.orders[o.terms.id := o], l),
                                                      markets, forbidden)
  }

  /** What a message that stays on the book enters. */
  lemma EnteredTerms(m: MsgCreateOrder, s: nat, v: Dec, params: Params)
    requires ValidateBasic(m) && Countable(m, Some(s), v, params)
    ensures var o := EnteredOrder(m, Some(s), v, params);
            && o.terms.sender == m.sender && o.terms.symbol == m.symbol && o.terms.side == m.side
            && o.terms.timeInForce == m.timeInForce
            && o.terms.price == ActualPrice(m) && o.leftStock == m.quantity > 0
  {
    hide ActualPrice, GetDenomAndOrderAmount, CalOrderCommission, AssemblyOrderID;
  }

  lemma MarksAreKept(v: Snapshot, w: Snapshot)
    requires Stepped(v, w, Message) && MarksHaveMarkets(v.data, v.markets)
    ensures MarksHaveMarkets(w.data, w.markets)
  {
    hide Stepped, MarkKey, ZeroFree;
    forall s | ZeroFree(s) && MarkKey(s) in w.data ensures s in w.markets { NothingElseStrands(v, w, Message, s); }
  }

  /** A listed market's tokens are those of its symbol. */
  lemma TokensOfMarket(markets: Markets, requests: Delist.Requests, pools: map<string, BancorPools.Pool>,
                       tokens: TokenMap, s: string)
    requires WellNamed(markets, requests) && InTokens(markets, pools, tokens) && AllValid(tokens) && s in markets
    ensures markets[s].stock == StockOf(s) && markets[s].money == MoneyOf(s) && StockOf(s) in tokens
  {
    hide ValidateTokenSymbol, ZeroFree;
    var info := markets[s];
    ValidSymbolIsPlain(info.stock, info.money);
    SplitSymbolInvertsGetSymbol(info.stock, info.money);
  }

  lemma ListedIsBarred(tokens: TokenMap, banned: AddressList, whitelist: AddressList, symbol: string, sender: Addr)
    requires StockOf(symbol) in tokens && sender != ""
    ensures Barred(IssuerRules(tokens, banned + Entries(StockOf(symbol), [sender]), whitelist), symbol, sender)
  {
    assert (StockOf(symbol), sender) in Entries(StockOf(symbol), [sender]) by { assert sender in [sender]; }
  }

  lemma FewerAreBarred(tokens: TokenMap, before: AddressList, now: AddressList, whitelist: AddressList, symbol: string,
                       sender: Addr)
    requires now <= before && !Barred(IssuerRules(tokens, before, whitelist), symbol, sender)
    ensures !Barred(IssuerRules(tokens, now, whitelist), symbol, sender)
  {
  }

  /** What `BothAccepted` says of the first message, and of the second one once the first is in. */
  lemma FirstAccepted(bid: MsgCreateOrder, ask: MsgCreateOrder, s: nat, t: nat, v: Dec, w: Dec, params: Params,
                      x: Exchange, markets: Markets, forbidden: Forbidden)
    requires AreCrossing(bid, ask) && BothAccepted(bid, ask, s, t, v, w, params, x, markets, forbidden)
    ensures Acceptable(bid, Some(s), v, params, x, markets, forbidden) && Countable(bid, Some(s), v, params)
  {
    hide EnteredOrder, Countable, Affords, Admissible;
  }

  lemma ThenAccepted(bid: MsgCreateOrder, ask: MsgCreateOrder, s: nat, t: nat, v: Dec, w: Dec, params: Params,
                     x: Exchange, y: Exchange, markets: Markets, forbidden: Forbidden)
    requires AreCrossing(bid, ask) && BothAccepted(bid, ask, s, t, v, w, params, x, markets, forbidden)
             && Countable(bid, Some(s), v, params)
    requires var o := EnteredOrder(bid, Some(s), v, params);
             y.orders == x.orders[o.terms.id := o] && Froze(x.ledger, y.ledger, o)
    ensures Acceptable(ask, Some(t), w, params, y, markets, forbidden)
    ensures Countable(ask, Some(t), w, params)
            && EnteredOrder(ask, Some(t), w, params).terms.id != EnteredOrder(bid, Some(s), v, params).terms.id
  {
    hide EnteredOrder, Countable, Affords, Admissible, Froze, ValidateBasic;
    var o := EnteredOrder(bid, Some(s), v, params);
    assert y == Exchange(x.orders[o.terms.id := o], y.ledger);
  }

  method EnterBoth(app: App, bid: MsgCreateOrder, ask: MsgCreateOrder, s: nat, t: nat, v: Dec, w: Dec, params: Params)
    requires app.Valid() && ValidParams(params) && AreCrossing(bid, ask)
    requires BothAccepted(bid, ask, s, t, v, w, Under(params, app.assets.tokens), app.market.Now(), app.market.markets,
                          app.bank.forbidden)
    requires MarksHaveMarkets(app.market.store.data, app.market.markets)
    modifies app.market`book, app.market.store, app.bank`ledger
    ensures app.Valid() && MarksHaveMarkets(app.market.store.data, app.market.markets)
    ensures HoldsCrossing(app.market.book, bid, ask)
  {
    hide App.Valid, Keeper.Valid, AreCrossing, MarksHaveMarkets, Stepped, Acceptable, Froze, Withheld, SameSupply,
         Under, EnteredOrder, BothAccepted, Countable, HoldsCrossing, ValidateBasic;
    CrossingIsValid(bid, ask);
    OneBank(app);
    ghost var under, x, first := Under(params, app.assets.tokens), app.market.Now(), app.market.Snap();
    FirstAccepted(bid, ask, s, t, v, w, under, x, app.market.markets, app.bank.forbidden);
    var ok := app.CreateOrder(bid, Some(s), v, params);
    ghost var second := app.market.Snap();
    MarksAreKept(first, second);
    ThenAccepted(bid, ask, s, t, v, w, under, x, app.market.Now(), app.market.markets, app.bank.forbidden);
    ok := app.CreateOrder(ask, Some(t), w, params);
    MarksAreKept(second, app.market.Snap());
    ghost var o, q := EnteredOrder(bid, Some(s), v, under), EnteredOrder(ask, Some(t), w, under);
    HoldsBoth(app.market.book, o, q, bid, ask, s, t, v, w, under);
  }

  lemma OneBank(app: App)
    requires app.Valid()
    ensures app.market.bank == app.bank
  {
    hide Keeper.Valid;
  }

  lemma CrossingIsValid(bid: MsgCreateOrder, ask: MsgCreateOrder)
    requires AreCrossing(bid, ask)
    ensures ValidateBasic(bid) && ValidateBasic(ask)
  {
  }

  lemma AcceptedIsCountable(m: MsgCreateOrder, s: nat, v: Dec, params: Params, x: Exchange, markets: Markets,
                            forbidden: Forbidden)
    requires ValidateBasic(m) && Acceptable(m, Some(s), v, params, x, markets, forbidden)
    ensures Countable(m, Some(s), v, params) && EnteredOrder(m, Some(s), v, params).terms.id !in x.orders
    ensures m.symbol in markets && !Barred(forbidden, m.symbol, m.sender)
            && StockOf(m.symbol) !in params.forbiddenTokens
    ensures MoneyOf(m.symbol) !in params.forbiddenTokens
  {
    hide Countable, EnteredOrder, Affords;
  }

  /** An open order of this message. */
  ghost predicate Resting(book: Book, id: OrderID, m: MsgCreateOrder)
  {
    && id in book && book[id].terms.symbol == m.symbol && book[id].terms.sender == m.sender
    && book[id].terms.side == m.side
    && book[id].terms.price == ActualPrice(m) && book[id].leftStock > 0 && !Gone(book[id])
  }

  ghost predicate HoldsCrossing(book: Book, bid: MsgCreateOrder, ask: MsgCreateOrder)
    requires ValidateBasic(bid) && ValidateBasic(ask)
  {
    exists b, a :: Resting(book, b, bid) && Resting(book, a, ask)
  }

  lemma HoldsBoth(book: Book, o: Order, q: Order, bid: MsgCreateOrder, ask: MsgCreateOrder, s: nat, t: nat, v: Dec,
                  w: Dec, params: Params)
    requires AreCrossing(bid, ask) && Countable(bid, Some(s), v, params) && Countable(ask, Some(t), w, params)
    requires o == EnteredOrder(bid, Some(s), v, params) && q == EnteredOrder(ask, Some(t), w, params)
    requires o.terms.id in book && book[o.terms.id] == o && q.terms.id in book && book[q.terms.id] == q
    ensures HoldsCrossing(book, bid, ask)
  {
    hide EnteredOrder, Countable, ActualPrice;
    EnteredTerms(bid, s, v, params);
    EnteredTerms(ask, t, w, params);
    assert Resting(book, o.terms.id, bid) && Resting(book, q.terms.id, ask);
  }

  /** The block matches the market without them: they stay, and the market is no longer marked. */
  method MatchWithout(app: App, bid: MsgCreateOrder, ask: MsgCreateOrder, params: Params, infos: seq<MarketInfo>,
                      time: nat, tieBreak: OrderID -> int)
    returns (ghost deals: seq<Deal>)
    requires app.Valid() && ValidParams(params) && AreCrossing(bid, ask) && time < Pow256(Delist.TIME_BYTES)
    requires forall info :: info in infos <==> info in app.market.markets.Values
    requires MarksHaveMarkets(app.market.store.data, app.market.markets) && HoldsCrossing(app.market.book, bid, ask)
    requires bid.symbol in app.market.markets
             && !Halted(app.market.markets[bid.symbol], Under(params, app.assets.tokens))
    requires Barred(app.bank.forbidden, bid.symbol, bid.sender) && ZeroFree(bid.symbol)
    modifies app.market`book, app.market`markets, app.market`requests, app.market`views, app.market.store,
             app.bank`ledger
    ensures app.Valid() && HoldsCrossing(app.market.book, bid, ask) && MarkKey(bid.symbol) !in app.market.store.data
    ensures MarksHaveMarkets(app.market.store.data, app.market.markets)
  {
    hide App.Valid, Keeper.Valid, MarksHaveMarkets, Stepped, Withheld, SameSupply, Under, LeftWhenDone, Blocked,
         Auctioned, Barred, Gone, ActualPrice, Halted, MarkKey, ValidateBasic, ZeroFree;
    ghost var v := app.market.Snap();
    ghost var x, data, markets, under := app.market.Now(), app.market.store.data, app.market.markets,
        Under(params, app.assets.tokens);
    ghost var b, a :| Resting(app.market.book, b, bid) && Resting(app.market.book, a, ask);
    deals := app.EndBlock(false, infos, params, time, tieBreak);
    UnderKeepsRules(params, app.assets.tokens);
    BlockKeepsMarks(v, app.market.Snap(), deals, app.bank.forbidden, params.rules);
    BarredStays(x, app.market.Now(), deals, data, markets, under, app.bank.forbidden, b);
    BarredStays(x, app.market.Now(), deals, data, markets, under, app.bank.forbidden, a);
    assert Resting(app.market.book, b, bid) && Resting(app.market.book, a, ask);
  }

  lemma UnderKeepsRules(params: Params, tokens: TokenMap)
    ensures Under(params, tokens).rules == params.rules
  {
  }

  lemma BarredStays(x: Exchange, z: Exchange, deals: seq<Deal>, data: map<Key, Value>, markets: Markets, params: Params,
                    forbidden: Forbidden, id: OrderID)
    requires LeftWhenDone(x, z.orders, deals, data, markets, params, forbidden)
             && Blocked(x, z, forbidden, params.rules, deals)
    requires id in x.orders && !Gone(x.orders[id])
             && Barred(forbidden, x.orders[id].terms.symbol, x.orders[id].terms.sender)
    ensures id in z.orders && z.orders[id] == x.orders[id]
  {
    hide LeftWhenDone, Closings, ValidRun, Barred, Gone;
    BarredDealNothing(x, forbidden, deals, id);
    BystanderStays(x, z, deals, data, markets, params, forbidden, id);
  }

  lemma IdleStays(x: Exchange, z: Exchange, deals: seq<Deal>, data: map<Key, Value>, before: Markets, after: Markets,
                  params: Params, tieBreak: OrderID -> int, forbidden: Forbidden, id: OrderID)
    requires LeftWhenDone(x, z.orders, deals, data, before, params, forbidden)
             && Blocked(x, z, forbidden, params.rules, deals)
    requires Auctioned(x, data, before, after, deals, params, tieBreak, forbidden)
    requires id in x.orders && !Gone(x.orders[id]) && x.orders[id].terms.symbol in before
             && MarkKey(x.orders[id].terms.symbol) !in data
    ensures id in z.orders && z.orders[id] == x.orders[id]
  {
    hide LeftWhenDone, Closings, ValidRun, Gone, MarkKey, Replay, Priced, ClearsTheMarket;
    IdleDealNothing(x, forbidden, deals, x.orders[id].terms.symbol, id);
    BystanderStays(x, z, deals, data, before, params, forbidden, id);
  }

  /** A block passes over a market that is not marked. */
  method PassOver(app: App, bid: MsgCreateOrder, ask: MsgCreateOrder, params: Params, infos: seq<MarketInfo>, time: nat,
                  tieBreak: OrderID -> int)
    returns (ghost deals: seq<Deal>)
    requires app.Valid() && ValidParams(params) && AreCrossing(bid, ask) && time < Pow256(Delist.TIME_BYTES)
    requires forall info :: info in infos <==> info in app.market.markets.Values
    requires MarksHaveMarkets(app.market.store.data, app.market.markets) && HoldsCrossing(app.market.book, bid, ask)
    requires bid.symbol in app.market.markets && MarkKey(bid.symbol) !in app.market.store.data && ZeroFree(bid.symbol)
    modifies app.market`book, app.market`markets, app.market`requests, app.market`views, app.market.store,
             app.bank`ledger
    ensures app.Valid() && HoldsCrossing(app.market.book, bid, ask) && MarkKey(bid.symbol) !in app.market.store.data
    ensures MarksHaveMarkets(app.market.store.data, app.market.markets) && bid.symbol in app.market.markets
  {
    hide App.Valid, Keeper.Valid, MarksHaveMarkets, Stepped, Withheld, SameSupply, Under, LeftWhenDone, Blocked,
         Auctioned, Barred, Gone, ActualPrice, Halted, MarkKey, ValidateBasic, ZeroFree;
    ghost var v, under := app.market.Snap(), Under(params, app.assets.tokens);
    ghost var b, a :| Resting(app.market.book, b, bid) && Resting(app.market.book, a, ask);
    deals := app.EndBlock(false, infos, params, time, tieBreak);
    UnderKeepsRules(params, app.assets.tokens);
    ghost var w := app.market.Snap();
    IdleStays(v.x, w.x, deals, v.data, v.markets, w.markets, under, tieBreak, app.bank.forbidden, b);
    IdleStays(v.x, w.x, deals, v.data, v.markets, w.markets, under, tieBreak, app.bank.forbidden, a);
    BlockKeepsMarks(v, w, deals, app.bank.forbidden, params.rules);
    assert Resting(app.market.book, b, bid) && Resting(app.market.book, a, ask);
  }

  lemma BlockKeepsMarks(v: Snapshot, w: Snapshot, deals: seq<Deal>, forbidden: Forbidden, rules: FeeRules)
    requires Stepped(v, w, Block(false, deals, forbidden, rules)) && MarksHaveMarkets(v.data, v.markets)
    ensures MarksHaveMarkets(w.data, w.markets) && w.markets.Keys == v.markets.Keys
  {
    hide Blocked, MarkKey, ZeroFree;
  }

  /** Two orders that meet are accepted; their sender is forbidden one of the tokens; the market is
      matched without them; and the ban is lifted. The market has no mark then, and yet it holds two
      orders that may trade and that meet. `PassOver` says that the next block leaves it so. */
  method CrossByLifting(app: App, bid: MsgCreateOrder, ask: MsgCreateOrder, s: nat, t: nat, v: Dec, w: Dec,
                        params: Params, infos: seq<MarketInfo>, time: nat, tieBreak: OrderID -> int, issuer: Addr)
    requires app.Valid() && ValidParams(params) && AreCrossing(bid, ask) && bid.sender != ""
             && time < Pow256(Delist.TIME_BYTES)
    requires BothAccepted(bid, ask, s, t, v, w, Under(params, app.assets.tokens), app.market.Now(), app.market.markets,
                          app.bank.forbidden)
    requires MarksHaveMarkets(app.market.store.data, app.market.markets)
    requires var d := StockOf(bid.symbol);
             d in app.assets.tokens && app.assets.tokens[d].owner == issuer && app.assets.tokens[d].addrForbiddable
    requires forall info :: info in infos <==> info in app.market.markets.Values
    modifies app.market`book, app.market`markets, app.market`requests, app.market`views, app.market.store
    modifies app.bank`ledger, app.bank`forbidden, app.assets`banned
    ensures app.Valid() && MarkKey(bid.symbol) !in app.market.store.data
            && !Quiet(app.market.book, bid.symbol, app.bank.forbidden)
    ensures HoldsCrossing(app.market.book, bid, ask) && MarksHaveMarkets(app.market.store.data, app.market.markets)
  {
    hide Keeper.Valid, AreCrossing, MarksHaveMarkets, Stepped, Acceptable, Froze, Withheld, SameSupply, Under,
         EnteredOrder, HoldsCrossing, Barred, Halted, MarkKey, ZeroFree, App.Valid, IssuerRules, Entries, Quiet;
    CrossingIsValid(bid, ask);
    ghost var under, before := Under(params, app.assets.tokens), app.assets.banned;
    AcceptedIsCountable(bid, s, v, under, app.market.Now(), app.market.markets, app.bank.forbidden);
    MarketIsOpen(app, bid.symbol, params);
    IssuersRule(app);
    EnterBoth(app, bid, ask, s, t, v, w, params);
    var stock := StockOf(bid.symbol);
    var ok := app.SetAddressesForbidden(stock, issuer, [bid.sender], true);
    IssuersRule(app);
    ListedIsBarred(app.assets.tokens, before, app.assets.whitelist, bid.symbol, bid.sender);
    ghost var deals := MatchWithout(app, bid, ask, params, infos, time, tieBreak);
    ok := app.SetAddressesForbidden(stock, issuer, [bid.sender], false);
    IssuersRule(app);
    FewerAreBarred(app.assets.tokens, before, app.assets.banned, app.assets.whitelist, bid.symbol, bid.sender);
    RestingCross(app.market.book, bid, ask, app.bank.forbidden);
  }

  lemma IssuersRule(app: App)
    requires app.Valid()
    ensures app.bank.forbidden == IssuerRules(app.assets.tokens, app.assets.banned, app.assets.whitelist)
  {
    hide Keeper.Valid, IssuerRules;
  }

  lemma MarketIsOpen(app: App, symbol: string, params: Params)
    requires app.Valid() && symbol in app.market.markets
    requires var under := Under(params, app.assets.tokens);
             StockOf(symbol) !in under.forbiddenTokens && MoneyOf(symbol) !in under.forbiddenTokens
    ensures !Halted(app.market.markets[symbol], Under(params, app.assets.tokens)) && ZeroFree(symbol)
  {
    hide Filed, Solvent, Calm, AllOpen, WellNamed, InTokens, AllValid, Under, ZeroFree, Exact, Counted, Queued,
         SupplyExists, Listed, IssuerRules;
    TokensOfMarket(app.market.markets, app.market.requests, app.bancor.pools, app.assets.tokens, symbol);
    NamedIsZeroFree(app.market.markets, app.market.requests, symbol);
  }

  lemma NamedIsZeroFree(markets: Markets, requests: Delist.Requests, s: string)
    requires WellNamed(markets, requests) && s in markets
    ensures ZeroFree(s)
  {
  }

  lemma RestingCross(book: Book, bid: MsgCreateOrder, ask: MsgCreateOrder, forbidden: Forbidden)
    requires AreCrossing(bid, ask) && HoldsCrossing(book, bid, ask) && !Barred(forbidden, bid.symbol, bid.sender)
    ensures !Quiet(book, bid.symbol, forbidden)
  {
    hide ActualPrice, ValidateBasic, Barred, Gone;
    var b, a :| Resting(book, b, bid) && Resting(book, a, ask);
    CrossingShows(book, b, a, bid.symbol, forbidden);
  }
}
