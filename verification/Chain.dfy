/** Market, bancor, locked coins and tokens over one ledger. Between any two steps of any of them
    every frozen coin is accounted for: it belongs to an open order or lies in a pool. And what
    exists of a token, spendable, frozen or locked, is its total supply. No step takes a token from an
    account that the issuer forbids to send it. */
module Chain {
  import opened Asset
  import opened Bancor
  import opened BancorCurve
  import opened BancorPools
  import opened BlockRuns
  import opened Blocks
  import opened Closing
  import opened Decimals
  import opened Ledgers
  import opened LockedCoins
  import opened Locking
  import opened Market
  import opened MarketRuns
  import opened MarketState
  import opened OrderEntry
  import opened Orders
  import opened OrderStore
  import opened Overlays
  import opened Settlement
  import opened StoreKeys
  import opened Sums
  import opened Tokens
  import opened UnlockQueue
  import opened Withholding
  import Delist
  import opened ByteKeys

  /** Frozen coins are exactly what open orders and pools hold. */
  ghost predicate Exact(l: Ledger, book: Book, pools: map<string, Pool>)
  {
    forall k :: IsExact(l, book, pools, k)
  }

  ghost predicate IsExact(l: Ledger, book: Book, pools: map<string, Pool>, k: Acct)
  {
    Bal(l.frozen, k) == Reserved(book, k) + PoolReserved(pools, k)
  }

  lemma ReservedNonNegative(book: Book, k: Acct)
    requires AllSound(book)
    ensures Reserved(book, k) >= 0
  {
    SumNonNegative(book, ReserveFor(k));
  }

  lemma PoolReservedNonNegative(pools: map<string, Pool>, t: Table, k: Acct)
    requires AllOnCurve(pools, t)
    ensures PoolReserved(pools, k) >= 0
  {
    forall s | s in pools ensures PoolReserve(pools[s], k) >= 0 { PoolHolds(pools[s], t); }
    SumNonNegative(pools, PoolReserveFor(k));
  }

  /** A market step keeps the account exact and every pool backed. */
  lemma MarketStep(x: Exchange, y: Exchange, pools: map<string, Pool>, t: Table)
    requires Exact(x.ledger, x.orders, pools) && PoolsBacked(x.ledger, pools, t) && SameSurplus(x, y) && Solvent(y)
    ensures Exact(y.ledger, y.orders, pools) && PoolsBacked(y.ledger, pools, t)
    ensures SameSupply(x.ledger, y.ledger) && x.ledger.known <= y.ledger.known
  {
    hide OnCurve, Sound;
    forall k ensures IsExact(y.ledger, y.orders, pools, k) && PoolSurplus(y.ledger, pools, k) >= 0 {
      assert IsExact(x.ledger, x.orders, pools, k);
      assert Surplus(y, k) == Surplus(x, k);
      ReservedNonNegative(y.orders, k);
    }
  }

  /** A bancor step keeps the account exact and every order backed. */
  lemma BancorStep(x: Exchange, pools: map<string, Pool>, m: Ledger, next: map<string, Pool>, t: Table)
    requires Exact(x.ledger, x.orders, pools) && Solvent(x)
    requires SamePoolSurplus(x.ledger, pools, m, next) && PoolsBacked(m, next, t)
    ensures Exact(m, x.orders, next) && Solvent(Exchange(x.orders, m))
    ensures SameSupply(x.ledger, m) && x.ledger.known <= m.known
  {
    hide OnCurve, Sound;
    forall k ensures IsExact(m, x.orders, next, k) && Surplus(Exchange(x.orders, m), k) >= 0 {
      assert IsExact(x.ledger, x.orders, pools, k);
      assert PoolSurplus(m, next, k) == PoolSurplus(x.ledger, pools, k);
      PoolReservedNonNegative(next, t, k);
    }
  }

  /** A step that moves only spendable coins keeps the account exact, and orders and pools backed. */
  lemma LockStep(x: Exchange, pools: map<string, Pool>, m: Ledger, t: Table)
    requires Exact(x.ledger, x.orders, pools) && Solvent(x) && PoolsBacked(x.ledger, pools, t)
    requires m.frozen == x.ledger.frozen && x.ledger.known <= m.known
    ensures Exact(m, x.orders, pools) && Solvent(Exchange(x.orders, m)) && PoolsBacked(m, pools, t)
  {
    hide OnCurve, Sound;
    forall k ensures IsExact(m, x.orders, pools, k) && Surplus(Exchange(x.orders, m), k) >= 0
        && PoolSurplus(m, pools, k) >= 0 {
      assert IsExact(x.ledger, x.orders, pools, k);
      assert Surplus(x, k) >= 0 && PoolSurplus(x.ledger, pools, k) >= 0;
    }
  }

  /** What the token records say to the other modules: who issues a token, and which tokens nobody
      may exchange. */
  function Issuers(tokens: TokenMap): map<Denom, Addr> { map d | d in tokens :: tokens[d].owner }

  function Under(params: Params, tokens: TokenMap): Params { params.(forbiddenTokens := ForbiddenTokens(tokens)) }

  lemma UnderIsValid(params: Params, tokens: TokenMap)
    requires ValidParams(params)
    ensures ValidParams(Under(params, tokens)) && Under(params, tokens).rules == params.rules
  {
  }

  /** Markets and pools are in tokens that exist. */
  ghost predicate InTokens(markets: Markets, pools: map<string, Pool>, tokens: TokenMap)
  {
    && (forall s | s in markets :: markets[s].stock in tokens && markets[s].money in tokens)
    && (forall s | s in pools :: pools[s].stock in tokens && pools[s].money in tokens)
  }

  lemma TradeInTokens(markets: Markets, before: map<string, Pool>, after: map<string, Pool>, tokens: TokenMap,
                      m: MsgBancorTrade, diff: int)
    requires InTokens(markets, before, tokens)
    requires var s := GetSymbol(m.stock, m.money);
             s in before && s in after && after == before[s := after[s]] && IsPriced(m, before[s], after[s], diff)
    ensures InTokens(markets, after, tokens)
  {
  }

  lemma PoolInTokens(markets: Markets, pools: map<string, Pool>, tokens: TokenMap, s: string, p: Pool)
    requires InTokens(markets, pools, tokens) && p.stock in tokens && p.money in tokens
    ensures InTokens(markets, pools[s := p], tokens)
  {
  }

  lemma FewerPools(markets: Markets, pools: map<string, Pool>, tokens: TokenMap, s: string)
    requires InTokens(markets, pools, tokens)
    ensures InTokens(markets, pools - {s}, tokens)
  {
  }

  lemma MoreTokens(markets: Markets, pools: map<string, Pool>, before: TokenMap, after: TokenMap)
    requires InTokens(markets, pools, before) && before.Keys <= after.Keys
    ensures InTokens(markets, pools, after)
  {
  }

  lemma BlockInTokens(x: Exchange, data: map<Key, Value>, before: Markets, after: Markets, deals: seq<Deal>,
                      params: Params, tieBreak: OrderID -> int, forbidden: Forbidden, pools: map<string, Pool>,
                      tokens: TokenMap)
    requires InTokens(before, pools, tokens)
             && (Auctioned(x, data, before, after, deals, params, tieBreak, forbidden) || after.Items <= before.Items)
    ensures InTokens(after, pools, tokens)
  {
    hide TurnOf;
    forall s | s in after ensures s in before && after[s].stock == before[s].stock
        && after[s].money == before[s].money {
      if after.Items <= before.Items { assert (s, after[s]) in after.Items; }
    }
  }

  /** A step that leaves the market alone is a message to it like any other. */
  lemma MarketAlone(v: Snapshot, w: Snapshot)
    requires w.x.orders == v.x.orders && w.data == v.data && w.markets == v.markets
    ensures Stepped(v, w, Message)
  {
  }

  // ------------------------------------------------------------ why bans hold

  lemma AcceptedWithholds(m: MsgCreateOrder, sequence: Option<nat>, volume: Dec, params: Params, x: Exchange,
                          after: Ledger, markets: Markets, forbidden: Forbidden, owners: AddressList)
    requires ValidateBasic(m) && ValidParams(params) && Acceptable(m, sequence, volume, params, x, markets, forbidden)
    requires Froze(x.ledger, after, EnteredOrder(m, sequence, volume, params))
    ensures Withheld(x.ledger, after, forbidden, owners)
  {
    hide Froze, Withheld, Sound, Affords, Countable, Admissible;
    var o := EnteredOrder(m, sequence, volume, params);
    EnteredIsSound(m, sequence, volume, params);
    AdmissibleIsUnbarred(m, markets, params, forbidden, o);
    EntryWithholds(x.ledger, after, o, forbidden, owners);
  }

  lemma AllowedLockWithholds(l: Ledger, m: Ledger, counts: SendLocks, from: Addr, amt: seq<LockedCoins.Coin>, fee: nat,
                             forbidden: Forbidden, owners: AddressList)
    requires CanLock(l, counts, forbidden, from, amt, fee) && LockSent(l, m, from, amt, fee)
    ensures Withheld(l, m, forbidden, owners)
  {
    hide LockSent, Withheld, Forbids;
    LockWithholds(l, m, from, amt, fee, forbidden, owners);
  }

  lemma IssueWithholds(l: Ledger, m: Ledger, t: Token, fee: nat, forbidden: Forbidden, owners: AddressList)
    requires ValidFields(t) && Resized(Send(l, Nobody, t.owner, FEE_COLLECTOR, CET, fee), m, t.symbol, t.owner,
                                       t.totalSupply)
    ensures Withheld(l, m, forbidden, owners)
  {
    hide Send, Resized, Withheld, ValidateTokenSymbol;
    var charged := Send(l, Nobody, t.owner, FEE_COLLECTOR, CET, fee);
    FeeWithholds(l, forbidden, t.owner, FEE_COLLECTOR, fee, owners);
    ResizeWithholds(charged, m, t.symbol, t.owner, t.totalSupply, forbidden, owners);
    WithheldTwice(l, charged, m, forbidden, owners);
  }

  lemma OwnerWithholds(l: Ledger, m: Ledger, tokens: TokenMap, d: Denom, n: int, forbidden: Forbidden)
    requires d in tokens && Resized(l, m, d, tokens[d].owner, n)
    ensures Withheld(l, m, forbidden, Owners(tokens))
  {
    hide Resized, Withheld;
    ResizeWithholds(l, m, d, tokens[d].owner, n, forbidden, Owners(tokens));
  }

  lemma ModifyWithholds(l: Ledger, m: Ledger, tokens: TokenMap, locked: Locks, d: Denom, owner: Addr, to: Token,
                        forbidden: Forbidden)
    requires MayModify(tokens, l, locked, d, owner, to)
    requires if to.totalSupply == tokens[d].totalSupply then m == l
    else Resized(l, m, d, owner, to.totalSupply - tokens[d].totalSupply)
    ensures Withheld(l, m, forbidden, Owners(tokens))
  {
    hide Resized, Withheld, Sealed, OwnerAmount, TextsFit;
    NothingSpent(l, forbidden, Owners(tokens));
    if to.totalSupply != tokens[d].totalSupply {
      OwnerWithholds(l, m, tokens, d, to.totalSupply - tokens[d].totalSupply, forbidden);
    }
  }

  lemma PricedWithholds(l: Ledger, m: Ledger, before: Pool, after: Pool, msg: MsgBancorTrade, diff: int,
                        commission: nat, rules: FeeRules, forbidden: Forbidden, owners: AddressList)
    requires ValidateTrade(msg) && ValidRules(rules) && IsPriced(msg, before, after, diff)
             && !BarredFrom(forbidden, msg.stock, msg.money, msg.sender)
    requires Paid(l, m, msg, diff, commission, rules)
    ensures Withheld(l, m, forbidden, owners)
  {
    hide Paid, Withheld, BarredFrom;
    TradeWithholds(l, m, msg, diff, commission, rules, forbidden, owners);
  }

  class App {
    const bank: Bank
    const market: Market.Keeper
    const bancor: BancorKeeper
    const locks: LockKeeper
    const assets: AssetKeeper

    /** A chain that starts with nothing frozen. */
    constructor (ledger: Ledger, table: Table, format: TimeFormat, tokens: TokenMap, banned: AddressList,
                 whitelist: AddressList, ghost width: nat)
      requires ValidTable(table) && Sortable(format, width) && forall k :: Bal(ledger.frozen, k) == 0
      requires AllValid(tokens) && SupplyExists(tokens, ledger, map[]) && Listed(tokens, banned, whitelist)
      ensures Valid() && bank.ledger == ledger && assets.tokens == tokens && locks.locked == map[]
      ensures fresh(bank) && fresh(market) && fresh(bancor) && fresh(locks) && fresh(assets) && fresh(market.store)
              && fresh(locks.queue)
    {
      hide ValidTable, Sortable, AllValid, SupplyExists, Counted, Queued, Filed, Solvent, Calm, WellNamed, PoolsBacked,
           Listed, IssuerRules;
      var theBank := new Bank(ledger, IssuerRules(tokens, banned, whitelist));
      var theMarket := new Market.Keeper(theBank);
      var theBancor := new BancorKeeper(theBank, table);
      var theLocks := new LockKeeper(theBank, format, tokens.Keys, width);
      var theAssets := new AssetKeeper(theBank, theLocks, tokens, banned, whitelist);
      bank, market, bancor, locks, assets := theBank, theMarket, theBancor, theLocks, theAssets;
      new;
      forall k ensures IsExact(bank.ledger, market.book, bancor.pools, k) {}
    }

    ghost predicate Valid()
      reads this, bank, market, market.store, bancor, locks, locks.queue, assets
    {
      && market.bank == bank && bancor.bank == bank && locks.bank == bank && assets.bank == bank
      && assets.locks == locks
      && market.Valid() && bancor.Valid() && locks.Valid() && assets.Valid()
      && Exact(bank.ledger, market.book, bancor.pools) && InTokens(market.markets, bancor.pools, assets.tokens)
    }

    method CreateOrder(m: MsgCreateOrder, sequence: Option<nat>, volume: Dec, params: Params) returns (ok: bool)
      requires Valid() && ValidateBasic(m) && ValidParams(params)
      modifies market`book, market.store, bank`ledger
      ensures Valid() && SameSupply(old(bank.ledger), bank.ledger)
      ensures ok == Acceptable(m, sequence, volume, Under(params, assets.tokens), old(market.Now()), market.markets,
                               bank.forbidden)
      ensures ok ==> var o := EnteredOrder(m, sequence, volume, Under(params, assets.tokens));
                market.book == old(market.book)[o.terms.id := o] && Froze(old(bank.ledger), bank.ledger, o)
      ensures !ok ==> market.book == old(market.book) && bank.ledger == old(bank.ledger)
      ensures Stepped(old(market.Snap()), market.Snap(), Message)
      ensures Withheld(old(bank.ledger), bank.ledger, old(bank.forbidden), Owners(old(assets.tokens)))
    {
      hide Withheld, Owners, Filed, Solvent, AllOpen, Calm, WellNamed, Exact, SameSurplus, PoolsBacked, ValidTable,
           Queued, Counted, Sortable, AllValid, SupplyExists, Listed, IssuerRules, Acceptable, Froze, Stepped;
      ghost var x := market.Now();
      ok := market.HandleMsgCreateOrder(m, sequence, volume, Under(params, assets.tokens));
      MarketStep(x, market.Now(), bancor.pools, bancor.table);
      SupplyKeepsAccount(assets.tokens, x.ledger, bank.ledger, locks.locked);
      if ok {
        AcceptedWithholds(m, sequence, volume, Under(params, assets.tokens), x, bank.ledger, market.markets,
                          bank.forbidden, Owners(old(assets.tokens)));
      } else {
        NothingSpent(x.ledger, bank.forbidden, Owners(old(assets.tokens)));
      }
    }

    method CancelOrder(sender: Addr, id: OrderID, rules: FeeRules) returns (ok: bool)
      requires Valid() && ValidRules(rules)
      modifies market`book, market.store, bank`ledger
      ensures Valid() && SameSupply(old(bank.ledger), bank.ledger)
      ensures ok == (id in old(market.book) && old(market.book)[id].terms.sender == sender)
      ensures market.book == if ok then old(market.book) - {id} else old(market.book)
      ensures ok ==>
              Sound(old(market.book)[id]) && bank.ledger == Close(old(bank.ledger), bank.forbidden, rules,
                                                                  old(market.book)[id])
      ensures !ok ==> bank.ledger == old(bank.ledger)
      ensures Stepped(old(market.Snap()), market.Snap(), Message)
      ensures Withheld(old(bank.ledger), bank.ledger, old(bank.forbidden), Owners(old(assets.tokens)))
    {
      hide Withheld, Owners, Filed, Solvent, AllOpen, Calm, WellNamed, Exact, SameSurplus, PoolsBacked, ValidTable,
           Queued, Counted, Sortable, AllValid, SupplyExists, Listed, IssuerRules, Sound, Closing.Close, Stepped;
      ghost var x := market.Now();
      ok := market.HandleMsgCancelOrder(sender, id, rules);
      MarketStep(x, market.Now(), bancor.pools, bancor.table);
      SupplyKeepsAccount(assets.tokens, x.ledger, bank.ledger, locks.locked);
      if ok {
        CloseWithholds(x.ledger, bank.forbidden, rules, x.orders[id], Owners(old(assets.tokens)));
      } else {
        NothingSpent(x.ledger, bank.forbidden, Owners(old(assets.tokens)));
      }
    }

    method CreateTradingPair(m: MsgCreateTradingPair, createMarketFee: nat) returns (ok: bool)
      requires Valid() && ZeroFree(GetSymbol(m.stock, m.money))
      modifies market`markets, bank`ledger
      ensures Valid() && SameSupply(old(bank.ledger), bank.ledger)
      ensures ok == (GetSymbol(m.stock, m.money) !in old(market.markets) && m.money in assets.tokens
                     && m.stock in assets.tokens
                     && assets.tokens[m.stock].owner == m.creator
                     && CanSend(old(bank.ledger), Nobody, m.creator, CET, createMarketFee))
      ensures ok ==> var s := GetSymbol(m.stock, m.money);
                s in market.markets && market.markets == old(market.markets)[s := market.markets[s]]
                    && market.markets[s].lastExecutedPrice == 0
      ensures !ok ==> market.markets == old(market.markets)
      ensures bank.ledger == if ok then Send(old(bank.ledger), Nobody, m.creator, FEE_COLLECTOR, CET, createMarketFee)
      else old(bank.ledger)
      ensures Stepped(old(market.Snap()), market.Snap(), if ok then Listing(GetSymbol(m.stock, m.money)) else Message)
      ensures Withheld(old(bank.ledger), bank.ledger, old(bank.forbidden), Owners(old(assets.tokens)))
    {
      hide Withheld, Owners, Filed, Solvent, AllOpen, Calm, WellNamed, Exact, SameSurplus, PoolsBacked, ValidTable,
           Queued, Counted, Sortable, AllValid, SupplyExists, Listed, IssuerRules, ZeroFree, Stepped;
      ghost var x := market.Now();
      ok := market.HandleMsgCreateTradingPair(m, Issuers(assets.tokens), createMarketFee);
      MarketStep(x, market.Now(), bancor.pools, bancor.table);
      SupplyKeepsAccount(assets.tokens, x.ledger, bank.ledger, locks.locked);
      NothingSpent(x.ledger, bank.forbidden, Owners(old(assets.tokens)));
      FeeWithholds(x.ledger, bank.forbidden, m.creator, FEE_COLLECTOR, createMarketFee, Owners(old(assets.tokens)));
    }

    method CancelTradingPair(sender: Addr, symbol: string, effectiveTime: nat, currTime: nat, minExpired: nat)
      returns (ok: bool)
      requires Valid() && effectiveTime < Pow256(Delist.TIME_BYTES)
      modifies market`requests, market.store
      ensures Valid() && bank.ledger == old(bank.ledger)
      ensures ok == (effectiveTime >= currTime + minExpired && symbol in market.markets
                     && symbol !in old(market.requests)
                     && assets.tokens[market.markets[symbol].stock].owner == sender)
      ensures market.requests == if ok then old(market.requests)[symbol := effectiveTime] else old(market.requests)
      ensures Stepped(old(market.Snap()), market.Snap(), Message)
      ensures Withheld(old(bank.ledger), bank.ledger, old(bank.forbidden), Owners(old(assets.tokens)))
    {
      hide Withheld, Owners, Filed, Solvent, AllOpen, Calm, WellNamed, Exact, SameSurplus, PoolsBacked, ValidTable,
           Queued, Counted, Sortable, AllValid, SupplyExists, Listed, IssuerRules, Stepped;
      ok := market.HandleMsgCancelTradingPair(sender, symbol, effectiveTime, currTime, minExpired,
                                              Issuers(assets.tokens));
      NothingSpent(bank.ledger, bank.forbidden, Owners(old(assets.tokens)));
    }

    /** One block of the market: some valid deals, then the closing of the orders that leave. */
    method EndBlock(needRemove: bool, infos: seq<MarketInfo>, params: Params, time: nat, tieBreak: OrderID -> int)
      returns (ghost deals: seq<Deal>)
      requires Valid() && ValidParams(params) && time < Pow256(Delist.TIME_BYTES)
      requires forall info :: info in infos <==> info in market.markets.Values
      modifies market`book, market`markets, market`requests, market`views, market.store, bank`ledger
      ensures Valid() && SameSupply(old(bank.ledger), bank.ledger)
      ensures Blocked(old(market.Now()), market.Now(), bank.forbidden, params.rules, deals)
      ensures !needRemove && MarksHaveMarkets(old(market.store.data), old(market.markets)) ==>
                && Auctioned(old(market.Now()), old(market.store.data), old(market.markets), market.markets, deals,
                             Under(params, assets.tokens),
                             tieBreak, bank.forbidden)
                && LeftWhenDone(old(market.Now()), market.book, deals, old(market.store.data), old(market.markets),
                                Under(params, assets.tokens),
                                bank.forbidden)
                && OnlyHaltedMarked(old(market.store.data), market.store.data, old(market.markets),
                                    Under(params, assets.tokens))
      ensures Stepped(old(market.Snap()), market.Snap(), Block(needRemove, deals, bank.forbidden, params.rules))
      ensures Withheld(old(bank.ledger), bank.ledger, old(bank.forbidden), Owners(old(assets.tokens)))
    {
      hide Withheld, Owners, Filed, Solvent, AllOpen, Calm, WellNamed, Exact, SameSurplus, PoolsBacked, ValidTable,
           Queued, Counted, Sortable, AllValid, SupplyExists, Listed, IssuerRules, ValidParams, Blocked, Auctioned,
           LeftWhenDone, Stepped, MarksStay, OnlyHaltedMarked, TurnOf, InTokens, Under;
      ghost var data, listed := market.store.data, market.markets;
      ghost var x := market.Now();
      UnderIsValid(params, assets.tokens);
      deals := market.EndBlocker(needRemove, infos, Under(params, assets.tokens), time, tieBreak);
      MarketStep(x, market.Now(), bancor.pools, bancor.table);
      SupplyKeepsAccount(assets.tokens, x.ledger, bank.ledger, locks.locked);
      BlockInTokens(x, data, listed, market.markets, deals, Under(params, assets.tokens), tieBreak, bank.forbidden,
                    bancor.pools, assets.tokens);
      BlockWithholds(x, market.Now(), bank.forbidden, params.rules, deals, Owners(old(assets.tokens)));
    }

    method BancorInit(m: MsgBancorInit, fee: nat) returns (ok: bool)
      requires Valid() && ValidateInit(m)
      modifies bancor`pools, bank`ledger
      ensures Valid() && SameSupply(old(bank.ledger), bank.ledger)
      ensures ok == (GetSymbol(m.stock, m.money) !in old(bancor.pools) && m.stock in assets.tokens
                     && m.money in assets.tokens
                     && assets.tokens[m.stock].owner == m.owner
                     && CanSend(old(bank.ledger), bank.forbidden, m.owner, m.stock, m.maxSupply)
                     && CanSend(Freeze(old(bank.ledger), bank.forbidden, m.owner, m.stock, m.maxSupply), Nobody,
                                m.owner, CET, fee))
      ensures bancor.pools == if ok then old(bancor.pools)[GetSymbol(m.stock, m.money) := NewPool(m)]
      else old(bancor.pools)
      ensures !ok ==> bank.ledger == old(bank.ledger)
      ensures Stepped(old(market.Snap()), market.Snap(), Message)
      ensures Withheld(old(bank.ledger), bank.ledger, old(bank.forbidden), Owners(old(assets.tokens)))
    {
      hide Withheld, Owners, Filed, Solvent, AllOpen, Calm, WellNamed, Exact, SamePoolSurplus, PoolsBacked, ValidTable,
           Queued, Counted, Sortable, AllValid, SupplyExists, Listed, IssuerRules, Stepped, InTokens;
      ghost var x, pools := market.Now(), bancor.pools;
      ok := bancor.HandleMsgBancorInit(m, Issuers(assets.tokens), fee);
      BancorStep(x, pools, bank.ledger, bancor.pools, bancor.table);
      SupplyKeepsAccount(assets.tokens, x.ledger, bank.ledger, locks.locked);
      if ok { PoolInTokens(market.markets, pools, assets.tokens, GetSymbol(m.stock, m.money), NewPool(m)); }
      MarketAlone(old(market.Snap()), market.Snap());
      NothingSpent(x.ledger, bank.forbidden, Owners(old(assets.tokens)));
      if ok {
        InitWithholds(x.ledger, bank.ledger, bank.forbidden, Acct(m.owner, m.stock), m.maxSupply, fee,
                      Owners(old(assets.tokens)));
      }
    }

    method BancorTrade(m: MsgBancorTrade, volume: int -> Dec, feeRate: nat, feeMin: nat, rules: FeeRules)
      returns (ok: bool, ghost diff: int)
      requires Valid() && ValidateTrade(m) && ValidRules(rules)
      modifies bancor`pools, bank`ledger
      ensures Valid() && SameSupply(old(bank.ledger), bank.ledger)
      ensures !ok ==> bancor.pools == old(bancor.pools) && bank.ledger == old(bank.ledger)
      ensures ok == TradeAccepted(old(bank.ledger), old(bancor.pools), bancor.table, bank.forbidden, m, volume, feeRate,
                                  feeMin, rules)
      ensures ok ==> Paid(old(bank.ledger), bank.ledger, m, diff, TradeFee(volume(diff), feeRate, feeMin), rules)
      ensures Stepped(old(market.Snap()), market.Snap(), Message)
      ensures Withheld(old(bank.ledger), bank.ledger, old(bank.forbidden), Owners(old(assets.tokens)))
    {
      hide Withheld, Owners, Filed, Solvent, AllOpen, Calm, WellNamed, Exact, SamePoolSurplus, PoolsBacked, ValidTable,
           Queued, Counted, Sortable, AllValid, SupplyExists, Listed, IssuerRules, ValidateTrade, Paid, IsPriced,
           ValidRules, TradeAccepted, TradeFee, BarredFrom, Stepped, InTokens;
      ghost var x, pools := market.Now(), bancor.pools;
      ok, diff := bancor.HandleMsgBancorTrade(m, volume, feeRate, feeMin, rules);
      BancorStep(x, pools, bank.ledger, bancor.pools, bancor.table);
      SupplyKeepsAccount(assets.tokens, x.ledger, bank.ledger, locks.locked);
      if ok { TradeInTokens(market.markets, pools, bancor.pools, assets.tokens, m, diff); }
      MarketAlone(old(market.Snap()), market.Snap());
      NothingSpent(x.ledger, bank.forbidden, Owners(old(assets.tokens)));
      if ok {
        var s := GetSymbol(m.stock, m.money);
        PricedWithholds(x.ledger, bank.ledger, pools[s], bancor.pools[s], m, diff,
                        TradeFee(volume(diff), feeRate, feeMin), rules, bank.forbidden, Owners(old(assets.tokens)));
      }
    }

    method BancorCancel(owner: Addr, symbol: string, now: int, fee: nat) returns (ok: bool)
      requires Valid()
      modifies bancor`pools, bank`ledger
      ensures Valid() && SameSupply(old(bank.ledger), bank.ledger)
      ensures ok == (symbol in old(bancor.pools) && old(bancor.pools)[symbol].owner == owner
                     && now >= old(bancor.pools)[symbol].earliestCancelTime
                     && fee <= Bal(old(bank.ledger).coins, Acct(owner, CET)))
      ensures bancor.pools == if ok then old(bancor.pools) - {symbol} else old(bancor.pools)
      ensures ok ==>
              forall k ::
                  Bal(bank.ledger.coins, k) == Bal(old(bank.ledger).coins, k) + PoolReserve(old(bancor.pools)[symbol],
                        k)
                       + If(k == Acct(FEE_COLLECTOR, CET), fee) - If(k == Acct(owner, CET), fee)
      ensures !ok ==> bank.ledger == old(bank.ledger)
      ensures Stepped(old(market.Snap()), market.Snap(), Message)
      ensures Withheld(old(bank.ledger), bank.ledger, old(bank.forbidden), Owners(old(assets.tokens)))
    {
      hide Withheld, Owners, Filed, Solvent, AllOpen, Calm, WellNamed, Exact, SamePoolSurplus, PoolsBacked, ValidTable,
           Queued, Counted, Sortable, AllValid, SupplyExists, Listed, IssuerRules, PoolReserve, Stepped, InTokens;
      ghost var x, pools := market.Now(), bancor.pools;
      ok := bancor.HandleMsgBancorCancel(owner, symbol, now, fee);
      BancorStep(x, pools, bank.ledger, bancor.pools, bancor.table);
      SupplyKeepsAccount(assets.tokens, x.ledger, bank.ledger, locks.locked);
      FewerPools(market.markets, pools, assets.tokens, symbol);
      MarketAlone(old(market.Snap()), market.Snap());
      NothingSpent(x.ledger, bank.forbidden, Owners(old(assets.tokens)));
      if ok {
        PoolIsValid(x.ledger, pools, bancor.table, symbol);
        CancelWithholds(x.ledger, bank.ledger, pools[symbol], bancor.table, fee, bank.forbidden,
                        Owners(old(assets.tokens)));
      }
    }

    /** A plain transfer. */
    method SendCoins(from: Addr, to: Addr, denom: Denom, n: nat) returns (ok: bool)
      requires Valid()
      modifies bank`ledger
      ensures Valid() && SameSupply(old(bank.ledger), bank.ledger)
      ensures ok == CanSend(old(bank.ledger), bank.forbidden, from, denom, n)
      ensures bank.ledger == Send(old(bank.ledger), bank.forbidden, from, to, denom, n)
      ensures Stepped(old(market.Snap()), market.Snap(), Message)
      ensures Withheld(old(bank.ledger), bank.ledger, old(bank.forbidden), Owners(old(assets.tokens)))
    {
      hide Withheld, Owners, Filed, Solvent, AllOpen, Calm, WellNamed, Exact, PoolsBacked, ValidTable, Queued, Counted,
           Sortable, AllValid, SupplyExists, Listed, IssuerRules, InTokens, Stepped;
      ghost var x := market.Now();
      SendKeepsSupply(x.ledger, bank.forbidden, from, to, denom, n);
      ok := bank.SendCoins(from, to, denom, n);
      LockStep(x, bancor.pools, bank.ledger, bancor.table);
      SupplyKeepsAccount(assets.tokens, x.ledger, bank.ledger, locks.locked);
      MarketAlone(old(market.Snap()), market.Snap());
      SendWithholds(x.ledger, bank.forbidden, from, to, denom, n, Owners(old(assets.tokens)));
    }

    method SendLocked(from: Addr, to: Addr, supervisor: Addr, amt: seq<LockedCoins.Coin>, unlockTime: nat, reward: nat,
                      isSupervised: bool, now: nat, params: LockParams)
      returns (ok: bool, ghost fee: nat)
      requires Valid() && unlockTime <= MAX_TIME
      modifies locks`locked, locks`sendLock, locks.queue, bank`ledger
      ensures Valid() && SameWorth(old(bank.ledger), old(locks.locked), bank.ledger, locks.locked)
      ensures ok == CanLock(old(bank.ledger), old(locks.sendLock), bank.forbidden, from, amt,
                            LockFee(unlockTime, now, params))
      ensures ok ==>
              locks.locked == old(locks.locked)[to := CoinsOf(old(locks.locked), to)
                                                + LocksOf(amt, unlockTime, from, supervisor, reward, isSupervised)]
      ensures !ok ==> locks.locked == old(locks.locked) && bank.ledger == old(bank.ledger)
      ensures Stepped(old(market.Snap()), market.Snap(), Message)
      ensures Withheld(old(bank.ledger), bank.ledger, old(bank.forbidden), Owners(old(assets.tokens)))
    {
      hide Withheld, Owners, Filed, Solvent, AllOpen, Calm, WellNamed, Exact, PoolsBacked, ValidTable, Queued, Counted,
           Sortable, AllValid, SupplyExists, Listed, IssuerRules, SameWorth, LockSent, CanLock, LockFee, Stepped,
           InTokens;
      ghost var x, locked := market.Now(), locks.locked;
      ok, fee := locks.SendLockedCoins(from, to, supervisor, amt, unlockTime, reward, isSupervised, now, params);
      LockStep(x, bancor.pools, bank.ledger, bancor.table);
      WorthKeepsAccount(assets.tokens, x.ledger, locked, bank.ledger, locks.locked);
      MarketAlone(old(market.Snap()), market.Snap());
      NothingSpent(x.ledger, bank.forbidden, Owners(old(assets.tokens)));
      if ok {
        AllowedLockWithholds(x.ledger, bank.ledger, old(locks.sendLock), from, amt, fee, bank.forbidden,
                             Owners(old(assets.tokens)));
      }
    }

    method UnlockEarly(from: Addr, to: Addr, supervisor: Addr, amt: LockedCoins.Coin, unlockTime: nat, reward: nat,
                       isReturned: bool) returns (ok: bool)
      requires Valid() && unlockTime <= MAX_TIME && 0 < amt.amount && reward <= amt.amount
      modifies locks`locked, locks`sendLock, locks.queue, bank`ledger
      ensures Valid() && SameWorth(old(bank.ledger), old(locks.locked), bank.ledger, locks.locked)
      ensures ok == (LockedCoin(amt.denom, amt.amount, unlockTime, from, supervisor,
                                reward) in CoinsOf(old(locks.locked), to))
      ensures ok ==> Unlocked(old(bank.ledger), bank.ledger, if isReturned then from else to, supervisor, amt, reward)
      ensures !ok ==> locks.locked == old(locks.locked) && bank.ledger == old(bank.ledger)
      ensures Stepped(old(market.Snap()), market.Snap(), Message)
      ensures Withheld(old(bank.ledger), bank.ledger, old(bank.forbidden), Owners(old(assets.tokens)))
    {
      hide Withheld, Owners, Filed, Solvent, AllOpen, Calm, WellNamed, Exact, PoolsBacked, ValidTable, Queued, Counted,
           Sortable, AllValid, SupplyExists, Listed, IssuerRules, SameWorth, Unlocked, IsFirst, Stepped, InTokens;
      ghost var x, locked := market.Now(), locks.locked;
      ok := locks.EarlierUnlockCoin(from, to, supervisor, amt, unlockTime, reward, isReturned);
      LockStep(x, bancor.pools, bank.ledger, bancor.table);
      WorthKeepsAccount(assets.tokens, x.ledger, locked, bank.ledger, locks.locked);
      MarketAlone(old(market.Snap()), market.Snap());
      NothingSpent(x.ledger, bank.forbidden, Owners(old(assets.tokens)));
      if ok {
        UnlockWithholds(x.ledger, bank.ledger, if isReturned then from else to, supervisor, amt, reward, bank.forbidden,
                        Owners(old(assets.tokens)));
      }
    }

    method PayDueLocks(time: nat)
      requires Valid() && time <= MAX_TIME
      modifies locks`locked, locks`sendLock, locks.queue, bank`ledger
      ensures Valid() && SameWorth(old(bank.ledger), old(locks.locked), bank.ledger, locks.locked)
      ensures forall a, t | t <= time :: !HasTime(CoinsOf(locks.locked, a), t)
      ensures forall k ::
              Bal(bank.ledger.coins, k) == Bal(old(bank.ledger).coins, k) + DueOf(CoinsOf(old(locks.locked), k.addr),
                    k.denom, time)
      ensures Stepped(old(market.Snap()), market.Snap(), Message)
      ensures Withheld(old(bank.ledger), bank.ledger, old(bank.forbidden), Owners(old(assets.tokens)))
    {
      hide Withheld, Owners, Filed, Solvent, AllOpen, Calm, WellNamed, Exact, PoolsBacked, ValidTable, Queued, Counted,
           Sortable, AllValid, SupplyExists, Listed, IssuerRules, SameWorth, HasTime, Stepped, InTokens;
      ghost var x, locked := market.Now(), locks.locked;
      locks.EndBlocker(time);
      LockStep(x, bancor.pools, bank.ledger, bancor.table);
      WorthKeepsAccount(assets.tokens, x.ledger, locked, bank.ledger, locks.locked);
      MarketAlone(old(market.Snap()), market.Snap());
      DueWithholds(x.ledger, bank.ledger, locked, time, bank.forbidden, Owners(old(assets.tokens)));
    }

    method IssueToken(t: Token, rules: AssetRules, fee: nat) returns (ok: bool)
      requires Valid() && ValidFields(t)
      modifies assets`tokens, bank`ledger, bank`forbidden, locks`sendLock
      ensures Valid()
      ensures ok == (fee <= Bal(old(bank.ledger).coins, Acct(t.owner, CET)) && MayIssue(t, old(assets.tokens), rules))
      ensures ok ==> Resized(Send(old(bank.ledger), Nobody, t.owner, FEE_COLLECTOR, CET, fee), bank.ledger, t.symbol,
                             t.owner, t.totalSupply)
      ensures !ok ==> assets.tokens == old(assets.tokens) && bank.ledger == old(bank.ledger)
      ensures Stepped(old(market.Snap()), market.Snap(), Message)
      ensures Withheld(old(bank.ledger), bank.ledger, old(bank.forbidden), Owners(old(assets.tokens)))
    {
      hide Withheld, Owners, Filed, Solvent, AllOpen, Calm, WellNamed, Exact, PoolsBacked, ValidTable, Queued, Counted,
           Sortable, AllValid, SupplyExists, Listed, IssuerRules, ValidFields, MayIssue, Resized, Stepped, InTokens;
      ghost var x := market.Now();
      ok := assets.HandleMsgIssueToken(t, rules, fee);
      LockStep(x, bancor.pools, bank.ledger, bancor.table);
      MarketAlone(old(market.Snap()), market.Snap());
      MoreTokens(market.markets, bancor.pools, old(assets.tokens), assets.tokens);
      NothingSpent(x.ledger, old(bank.forbidden), Owners(old(assets.tokens)));
      if ok { IssueWithholds(x.ledger, bank.ledger, t, fee, old(bank.forbidden), Owners(old(assets.tokens))); }
    }

    method TransferOwnership(symbol: Denom, originalOwner: Addr, newOwner: Addr, rules: AssetRules) returns (ok: bool)
      requires Valid()
      modifies assets`tokens, bank`forbidden
      ensures Valid()
      ensures ok == (newOwner !in rules.blacklisted && newOwner != "" && symbol in old(assets.tokens)
                     && old(assets.tokens)[symbol].owner == originalOwner)
      ensures assets.tokens == if ok then old(assets.tokens)[symbol := old(assets.tokens)[symbol].(owner := newOwner)]
      else old(assets.tokens)
      ensures Stepped(old(market.Snap()), market.Snap(), Message)
      ensures Withheld(old(bank.ledger), bank.ledger, old(bank.forbidden), Owners(old(assets.tokens)))
    {
      hide Withheld, Owners, Filed, Solvent, AllOpen, Calm, WellNamed, Exact, PoolsBacked, ValidTable, Queued, Counted,
           Sortable, AllValid, SupplyExists, Listed, IssuerRules, Stepped, InTokens;
      ok := assets.TransferOwnership(symbol, originalOwner, newOwner, rules);
      MarketAlone(old(market.Snap()), market.Snap());
      MoreTokens(market.markets, bancor.pools, old(assets.tokens), assets.tokens);
      NothingSpent(bank.ledger, old(bank.forbidden), Owners(old(assets.tokens)));
    }

    method SetForbidden(symbol: Denom, owner: Addr, forbid: bool) returns (ok: bool)
      requires Valid()
      modifies assets`tokens, bank`forbidden
      ensures Valid()
      ensures ok == (symbol in old(assets.tokens) && old(assets.tokens)[symbol].owner == owner
                     && old(assets.tokens)[symbol].tokenForbiddable
                     && old(assets.tokens)[symbol].isForbidden == !forbid)
      ensures assets.tokens ==
              if ok then old(assets.tokens)[symbol := old(assets.tokens)[symbol].(isForbidden := forbid)]
              else old(assets.tokens)
      ensures Stepped(old(market.Snap()), market.Snap(), Message)
      ensures Withheld(old(bank.ledger), bank.ledger, old(bank.forbidden), Owners(old(assets.tokens)))
    {
      hide Withheld, Owners, Filed, Solvent, AllOpen, Calm, WellNamed, Exact, PoolsBacked, ValidTable, Queued, Counted,
           Sortable, AllValid, SupplyExists, Listed, IssuerRules, Stepped, InTokens;
      ok := assets.SetForbidden(symbol, owner, forbid);
      MarketAlone(old(market.Snap()), market.Snap());
      MoreTokens(market.markets, bancor.pools, old(assets.tokens), assets.tokens);
      NothingSpent(bank.ledger, old(bank.forbidden), Owners(old(assets.tokens)));
    }

    /** Forbids addresses a token, or lifts that. */
    method SetAddressesForbidden(symbol: Denom, owner: Addr, addresses: seq<Addr>, forbid: bool) returns (ok: bool)
      requires Valid()
      modifies assets`banned, bank`forbidden
      ensures Valid()
      ensures ok == (symbol in assets.tokens && assets.tokens[symbol].owner == owner
                     && assets.tokens[symbol].addrForbiddable)
      ensures assets.banned == if !ok then old(assets.banned)
      else if forbid then old(assets.banned) + Entries(symbol, addresses)
      else old(assets.banned) - Entries(symbol, addresses)
      ensures Stepped(old(market.Snap()), market.Snap(), Message)
      ensures Withheld(old(bank.ledger), bank.ledger, old(bank.forbidden), Owners(old(assets.tokens)))
    {
      hide Withheld, Owners, Filed, Solvent, AllOpen, Calm, WellNamed, Exact, PoolsBacked, ValidTable, Queued, Counted,
           Sortable, AllValid, SupplyExists, Listed, IssuerRules, Entries, Stepped, InTokens;
      ok := assets.SetAddressesForbidden(symbol, owner, addresses, forbid);
      MarketAlone(old(market.Snap()), market.Snap());
      NothingSpent(bank.ledger, old(bank.forbidden), Owners(old(assets.tokens)));
    }

    /** Exempts addresses from a token's being forbidden, or no longer. */
    method SetWhitelisted(symbol: Denom, owner: Addr, addresses: seq<Addr>, add: bool) returns (ok: bool)
      requires Valid()
      modifies assets`whitelist, bank`forbidden
      ensures Valid()
      ensures ok == (symbol in assets.tokens && assets.tokens[symbol].owner == owner
                     && assets.tokens[symbol].tokenForbiddable)
      ensures assets.whitelist == if !ok then old(assets.whitelist)
      else if add then old(assets.whitelist) + Entries(symbol, addresses)
      else old(assets.whitelist) - Entries(symbol, addresses)
      ensures Stepped(old(market.Snap()), market.Snap(), Message)
      ensures Withheld(old(bank.ledger), bank.ledger, old(bank.forbidden), Owners(old(assets.tokens)))
    {
      hide Withheld, Owners, Filed, Solvent, AllOpen, Calm, WellNamed, Exact, PoolsBacked, ValidTable, Queued, Counted,
           Sortable, AllValid, SupplyExists, Listed, IssuerRules, Entries, Stepped, InTokens;
      ok := assets.SetWhitelisted(symbol, owner, addresses, add);
      MarketAlone(old(market.Snap()), market.Snap());
      NothingSpent(bank.ledger, old(bank.forbidden), Owners(old(assets.tokens)));
    }

    method MintToken(symbol: Denom, owner: Addr, amount: int) returns (ok: bool)
      requires Valid() && amount > 0
      modifies assets`tokens, bank`ledger
      ensures Valid()
      ensures ok == (symbol in old(assets.tokens) && old(assets.tokens)[symbol].owner == owner
                     && old(assets.tokens)[symbol].mintable)
      ensures ok ==> Resized(old(bank.ledger), bank.ledger, symbol, owner, amount)
      ensures !ok ==> assets.tokens == old(assets.tokens) && bank.ledger == old(bank.ledger)
      ensures Stepped(old(market.Snap()), market.Snap(), Message)
      ensures Withheld(old(bank.ledger), bank.ledger, old(bank.forbidden), Owners(old(assets.tokens)))
    {
      hide Withheld, Owners, Filed, Solvent, AllOpen, Calm, WellNamed, Exact, PoolsBacked, ValidTable, Queued, Counted,
           Sortable, AllValid, SupplyExists, Listed, IssuerRules, Resized, Stepped, InTokens;
      ghost var x := market.Now();
      ok := assets.HandleMsgMintToken(symbol, owner, amount);
      LockStep(x, bancor.pools, bank.ledger, bancor.table);
      MarketAlone(old(market.Snap()), market.Snap());
      MoreTokens(market.markets, bancor.pools, old(assets.tokens), assets.tokens);
      NothingSpent(x.ledger, bank.forbidden, Owners(old(assets.tokens)));
      if ok {
        ResizeWithholds(x.ledger, bank.ledger, symbol, owner, amount, bank.forbidden, Owners(old(assets.tokens)));
      }
    }

    method BurnToken(symbol: Denom, owner: Addr, amount: int) returns (ok: bool)
      requires Valid() && amount > 0
      modifies assets`tokens, bank`ledger
      ensures Valid()
      ensures ok == (symbol in old(assets.tokens) && old(assets.tokens)[symbol].owner == owner
                     && old(assets.tokens)[symbol].burnable
                     && amount <= Bal(old(bank.ledger).coins, Acct(owner, symbol))
                     && amount < old(assets.tokens)[symbol].totalSupply)
      ensures ok ==> Resized(old(bank.ledger), bank.ledger, symbol, owner, -amount)
      ensures !ok ==> assets.tokens == old(assets.tokens) && bank.ledger == old(bank.ledger)
      ensures Stepped(old(market.Snap()), market.Snap(), Message)
      ensures Withheld(old(bank.ledger), bank.ledger, old(bank.forbidden), Owners(old(assets.tokens)))
    {
      hide Withheld, Owners, Filed, Solvent, AllOpen, Calm, WellNamed, Exact, PoolsBacked, ValidTable, Queued, Counted,
           Sortable, AllValid, SupplyExists, Listed, IssuerRules, Resized, Stepped, InTokens;
      ghost var x := market.Now();
      ok := assets.HandleMsgBurnToken(symbol, owner, amount);
      LockStep(x, bancor.pools, bank.ledger, bancor.table);
      MarketAlone(old(market.Snap()), market.Snap());
      MoreTokens(market.markets, bancor.pools, old(assets.tokens), assets.tokens);
      NothingSpent(x.ledger, bank.forbidden, Owners(old(assets.tokens)));
      if ok { OwnerWithholds(x.ledger, bank.ledger, old(assets.tokens), symbol, -amount, bank.forbidden); }
    }

    method ModifyTokenInfo(symbol: Denom, owner: Addr, to: Token) returns (ok: bool)
      requires Valid()
      modifies assets`tokens, assets`banned, bank`ledger, bank`forbidden
      ensures Valid()
      ensures ok == MayModify(old(assets.tokens), old(bank.ledger), locks.locked, symbol, owner, to)
      ensures assets.banned == if ok && old(assets.tokens)[symbol].addrForbiddable
              && !to.addrForbiddable then Cleared(old(assets.banned), symbol) else old(assets.banned)
      ensures !ok ==> assets.tokens == old(assets.tokens) && bank.ledger == old(bank.ledger)
      ensures Stepped(old(market.Snap()), market.Snap(), Message)
      ensures Withheld(old(bank.ledger), bank.ledger, old(bank.forbidden), Owners(old(assets.tokens)))
    {
      hide Withheld, Owners, Filed, Solvent, AllOpen, Calm, WellNamed, Exact, PoolsBacked, ValidTable, Queued, Counted,
           Sortable, AllValid, SupplyExists, Listed, IssuerRules, Resized, MayModify, Stepped, InTokens;
      ghost var x := market.Now();
      ok := assets.ModifyTokenInfo(symbol, owner, to);
      LockStep(x, bancor.pools, bank.ledger, bancor.table);
      MarketAlone(old(market.Snap()), market.Snap());
      MoreTokens(market.markets, bancor.pools, old(assets.tokens), assets.tokens);
      NothingSpent(x.ledger, old(bank.forbidden), Owners(old(assets.tokens)));
      if ok {
        ModifyWithholds(x.ledger, bank.ledger, old(assets.tokens), locks.locked, symbol, owner, to,
                        old(bank.forbidden));
      }
    }
  }
}
