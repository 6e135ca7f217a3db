/** The bancor module's message handlers. A handler that fails leaves no trace. */
module Bancor {
  import opened BancorCurve
  import opened BancorPools
  import opened Closing
  import opened Decimals
  import opened Ledgers
  import opened OrderEntry
  import opened OrderStore
  import opened Orders

  datatype MsgBancorInit = MsgBancorInit(
    owner: Addr, stock: Denom, money: Denom, initPrice: Dec, maxSupply: int, maxPrice: Dec, maxMoney: int,
        stockPrecision: nat,
    earliestCancelTime: int)

  datatype MsgBancorTrade = MsgBancorTrade(sender: Addr, stock: Denom, money: Denom, amount: int, isBuy: bool,
                                           moneyLimit: int)

  function CheckStockPrecision(amount: int, precision: nat): bool
  {
    precision == 0 || precision > 8 || amount % Pow10(precision) == 0
  }

  predicate ValidateInit(m: MsgBancorInit)
  {
    && ValidateCurve(m.maxSupply, m.maxMoney, m.initPrice, m.maxPrice)
    && CheckStockPrecision(m.maxSupply, m.stockPrecision) && m.earliestCancelTime >= 0
    && '/' !in m.stock && '/' !in m.money
  }

  predicate ValidateTrade(m: MsgBancorTrade)
  {
    m.stock != CET && '/' !in m.stock && '/' !in m.money && 0 < m.amount <= MAX_TRADE_AMOUNT
  }

  /** An untouched pool: all of its stock and no money. */
  function NewPool(m: MsgBancorInit): Pool
  {
    Pool(m.owner, m.stock, m.money, NewCurve(m.maxSupply, m.maxMoney, m.initPrice, m.maxPrice),
         if m.stockPrecision <= 8 then m.stockPrecision else 0, m.initPrice, m.maxSupply, 0, m.earliestCancelTime)
  }

  lemma NewPoolIsOnCurve(m: MsgBancorInit, t: Table)
    requires ValidateInit(m) && ValidTable(t)
    ensures OnCurve(NewPool(m), t)
  {
    CheckedCurveIsValid(m.maxSupply, m.maxMoney, m.initPrice, m.maxPrice);
    CurveEnds(NewPool(m).curve, t);
  }

  /** A message with equal prices and no maximum of money passes its check, but the pool it opens fails
      the consistency check as soon as its supply is worth a coin. */
  lemma FlatPoolIsInconsistent(m: MsgBancorInit, t: Table)
    requires ValidateInit(m) && ValidTable(t) && m.maxMoney == 0 && m.initPrice == m.maxPrice
    ensures !IsConsistent(NewPool(m)) <==> m.initPrice * m.maxSupply >= ONE
  {
    hide OnCurve, ValidTable, IsConsistent;
    NewPoolIsOnCurve(m, t);
    NewPoolParts(m);
    LinearPoolIsConsistent(NewPool(m), t);
  }

  lemma NewPoolParts(m: MsgBancorInit)
    requires ValidateInit(m) && m.maxMoney == 0
    ensures var p := NewPool(m);
            && p.curve.maxMoney == 0 && p.curve.initPrice == m.initPrice && p.curve.maxPrice == m.maxPrice
            && p.curve.maxSupply == m.maxSupply
            && p.stockInPool == m.maxSupply > 0
  {
  }

  /** One such message: a supply of one at a price of one. */
  lemma FlatMessage(owner: Addr) returns (m: MsgBancorInit)
    ensures ValidateInit(m) && m.owner == owner && m.maxMoney == 0 && m.initPrice == m.maxPrice
            && m.initPrice * m.maxSupply >= ONE
    ensures !IsConsistent(NewPool(m))
  {
    m := MsgBancorInit(owner, "abc", "cet", ONE, 1, ONE, 0, 0, 0);
    var t := SomeTable();
    FlatMessagePasses(m);
    FlatPoolIsInconsistent(m, t);
  }

  lemma FlatMessagePasses(m: MsgBancorInit)
    requires m == MsgBancorInit(m.owner, "abc", "cet", ONE, 1, ONE, 0, 0, 0)
    ensures ValidateInit(m)
  {
    assert MulInt(QuoInt(m.initPrice + m.maxPrice, 2), m.maxSupply) == ONE;
  }

  predicate BarredFrom(forbidden: Forbidden, stock: Denom, money: Denom, addr: Addr)
  {
    Forbids(forbidden, stock, addr) || Forbids(forbidden, money, addr)
  }

  // ------------------------------------------------------------ what a swap moves

  /** `toAmount` of `toDenom` goes from the trader's spendable to the owner's frozen coins, and
      `fromAmount` of `fromDenom` the other way; nothing else moves. */
  ghost predicate Swapped(l: Ledger, m: Ledger, trader: Addr, owner: Addr, fromDenom: Denom, fromAmount: nat,
                          toDenom: Denom, toAmount: nat)
  {
    && m.known == l.known && SameSupply(l, m)
    && forall k ::
         && Bal(m.coins, k) == Bal(l.coins, k) - If(k == Acct(trader, toDenom), toAmount)
            + If(k == Acct(trader, fromDenom), fromAmount)
         && Bal(m.frozen, k) == Bal(l.frozen, k) + If(k == Acct(owner, toDenom), toAmount)
            - If(k == Acct(owner, fromDenom), fromAmount)
  }

  lemma SwapMoves(l: Ledger, forbidden: Forbidden, trader: Addr, owner: Addr, fromDenom: Denom, fromAmount: nat,
                  toDenom: Denom, toAmount: nat)
    requires trader != owner && !BarredFrom(forbidden, fromDenom, toDenom, trader)
             && !BarredFrom(forbidden, fromDenom, toDenom, owner)
    requires owner in l.known && fromAmount <= Bal(l.frozen, Acct(owner, fromDenom))
             && toAmount <= Bal(l.coins, Acct(trader, toDenom))
    ensures var l1 := Send(l, forbidden, trader, owner, toDenom, toAmount);
            var l2 := Freeze(l1, forbidden, owner, toDenom, toAmount);
            var l3 := Unfreeze(l2, owner, fromDenom, fromAmount);
            var l4 := Send(l3, forbidden, owner, trader, fromDenom, fromAmount);
            && CanSend(l1, forbidden, owner, toDenom, toAmount) && CanUnfreeze(l2, owner, fromDenom, fromAmount)
            && CanSend(l3, forbidden, owner, fromDenom, fromAmount)
            && Swapped(l, l4, trader, owner, fromDenom, fromAmount, toDenom, toAmount)
  {
    var to, from := Acct(owner, toDenom), Acct(owner, fromDenom);
    SwapKeepsSupply(l, forbidden, trader, owner, fromDenom, fromAmount, toDenom, toAmount);
    var l1 := Send(l, forbidden, trader, owner, toDenom, toAmount);
    SendMoves(l, forbidden, trader, owner, toDenom, toAmount, to);
    var l2 := Freeze(l1, forbidden, owner, toDenom, toAmount);
    FreezeMoves(l1, forbidden, owner, toDenom, toAmount, from);
    var l3 := Unfreeze(l2, owner, fromDenom, fromAmount);
    UnfreezeMoves(l2, owner, fromDenom, fromAmount, from);
    var l4 := Send(l3, forbidden, owner, trader, fromDenom, fromAmount);
    forall k
      ensures Bal(l4.coins, k) == Bal(l.coins, k) - If(k == Acct(trader, toDenom), toAmount)
              + If(k == Acct(trader, fromDenom), fromAmount)
      ensures Bal(l4.frozen, k) == Bal(l.frozen, k) + If(k == to, toAmount) - If(k == from, fromAmount)
    {
      SendMoves(l, forbidden, trader, owner, toDenom, toAmount, k);
      FreezeMoves(l1, forbidden, owner, toDenom, toAmount, k);
      UnfreezeMoves(l2, owner, fromDenom, fromAmount, k);
      SendMoves(l3, forbidden, owner, trader, fromDenom, fromAmount, k);
    }
  }

  lemma SwapKeepsSupply(l: Ledger, forbidden: Forbidden, trader: Addr, owner: Addr, fromDenom: Denom, fromAmount: nat,
                        toDenom: Denom, toAmount: nat)
    ensures var l1 := Send(l, forbidden, trader, owner, toDenom, toAmount);
            var l2 := Freeze(l1, forbidden, owner, toDenom, toAmount);
            var l3 := Unfreeze(l2, owner, fromDenom, fromAmount);
            SameSupply(l, Send(l3, forbidden, owner, trader, fromDenom, fromAmount))
  {
    hide Send, Freeze, Unfreeze;
    var l1 := Send(l, forbidden, trader, owner, toDenom, toAmount);
    var l2 := Freeze(l1, forbidden, owner, toDenom, toAmount);
    var l3 := Unfreeze(l2, owner, fromDenom, fromAmount);
    SendKeepsSupply(l, forbidden, trader, owner, toDenom, toAmount);
    FreezeKeepsSupply(l1, forbidden, owner, toDenom, toAmount);
    UnfreezeKeepsSupply(l2, owner, fromDenom, fromAmount);
    SendKeepsSupply(l3, forbidden, owner, trader, fromDenom, fromAmount);
  }

  /** How a trade's fee changes the spendable coins of account `k`. */
  function TradeFeeDelta(rules: FeeRules, commission: nat, sender: Addr, k: Acct): int
  {
    if sender in rules.referees then
      var rebate := Rebate(rules, commission);
      If(k == Acct(FEE_COLLECTOR, CET), commission - rebate) + If(k == Acct(rules.referees[sender], CET), rebate)
          - If(k == Acct(sender, CET), commission)
    else If(k == Acct(FEE_COLLECTOR, CET), commission) - If(k == Acct(sender, CET), commission)
  }

  /** Whether the commission can be collected, and the rebate sent after it. */
  predicate CanCharge(l: Ledger, forbidden: Forbidden, sender: Addr, commission: nat, rules: FeeRules)
    requires ValidRules(rules)
  {
    if sender in rules.referees then
      RebateWithinFee(rules, commission);
      var rebate := Rebate(rules, commission);
      && CanSend(l, Nobody, sender, CET, commission - rebate)
      && (rebate > 0 ==> CanSend(Send(l, Nobody, sender, FEE_COLLECTOR, CET, commission - rebate), forbidden, sender,
                                 CET, rebate))
    else CanSend(l, Nobody, sender, CET, commission)
  }

  class BancorKeeper {
    const bank: Bank
    const table: Table
    var pools: map<string, Pool>

    constructor (bank: Bank, table: Table)
      requires ValidTable(table)
      ensures this.bank == bank && this.table == table && pools == map[] && Valid()
    {
      this.bank, this.table, pools := bank, table, map[];
      new;
      forall k ensures PoolSurplus(bank.ledger, pools, k) >= 0 {}
    }

    ghost predicate Valid()
      reads this, bank
    {
      ValidTable(table) && PoolsBacked(bank.ledger, pools, table)
    }

    /** Both sides of a trade. With what the pool holds frozen, only the trader's own purse can
        make it fail, and then at the first step. */
    method SwapStockAndMoney(trader: Addr, owner: Addr, fromDenom: Denom, fromAmount: nat, toDenom: Denom,
                             toAmount: nat) returns (ok: bool)
      requires trader != owner && !BarredFrom(bank.forbidden, fromDenom, toDenom, trader)
               && !BarredFrom(bank.forbidden, fromDenom, toDenom, owner)
      requires owner in bank.ledger.known && fromAmount <= Bal(bank.ledger.frozen, Acct(owner, fromDenom))
      modifies bank`ledger
      ensures ok == (toAmount <= Bal(old(bank.ledger).coins, Acct(trader, toDenom)))
      ensures ok ==> Swapped(old(bank.ledger), bank.ledger, trader, owner, fromDenom, fromAmount, toDenom, toAmount)
      ensures !ok ==> bank.ledger == old(bank.ledger)
    {
      if toAmount <= Bal(bank.ledger.coins, Acct(trader, toDenom)) {
        SwapMoves(bank.ledger, bank.forbidden, trader, owner, fromDenom, fromAmount, toDenom, toAmount);
      }
      ok := bank.SendCoins(trader, owner, toDenom, toAmount);
      if !ok { return; }
      ok := bank.FreezeCoins(owner, toDenom, toAmount);
      if !ok { return; }
      ok := bank.UnFreezeCoins(owner, fromDenom, fromAmount);
      if !ok { return; }
      ok := bank.SendCoins(owner, trader, fromDenom, fromAmount);
    }

    /** The commission of a trade, part of it as a rebate; an empty rebate is not sent. */
    method ChargeTrade(sender: Addr, commission: nat, rules: FeeRules) returns (ok: bool)
      requires ValidRules(rules)
      modifies bank`ledger
      ensures bank.ledger.frozen == old(bank.ledger).frozen && bank.ledger.known == old(bank.ledger).known
      ensures SameSupply(old(bank.ledger), bank.ledger)
              && ok == CanCharge(old(bank.ledger), bank.forbidden, sender, commission, rules)
      ensures ok ==>
              forall k ::
                  Bal(bank.ledger.coins, k) == Bal(old(bank.ledger).coins, k) + TradeFeeDelta(rules, commission, sender,
                        k)
    {
      hide Rebate, ValidRules, Supply;
      if sender in rules.referees {
        var rebate := Rebate(rules, commission);
        RebateWithinFee(rules, commission);
        SendKeepsSupply(bank.ledger, Nobody, sender, FEE_COLLECTOR, CET, commission - rebate);
        ok := bank.DeductFee(sender, commission - rebate);
        if !ok { return; }
        SendKeepsSupply(bank.ledger, bank.forbidden, sender, rules.referees[sender], CET, rebate);
        if rebate > 0 { ok := bank.SendCoins(sender, rules.referees[sender], CET, rebate); }
      } else {
        SendKeepsSupply(bank.ledger, Nobody, sender, FEE_COLLECTOR, CET, commission);
        ok := bank.DeductFee(sender, commission);
      }
    }

    /** Opens a pool with all of its stock frozen, or changes nothing. */
    method HandleMsgBancorInit(m: MsgBancorInit, issuers: map<Denom, Addr>, fee: nat) returns (ok: bool)
      requires Valid() && ValidateInit(m)
      modifies this`pools, bank`ledger
      ensures Valid() && SamePoolSurplus(old(bank.ledger), old(pools), bank.ledger, pools)
      ensures ok == (GetSymbol(m.stock, m.money) !in old(pools) && m.stock in issuers && m.money in issuers
                     && issuers[m.stock] == m.owner
                     && CanSend(old(bank.ledger), bank.forbidden, m.owner, m.stock, m.maxSupply)
                     && CanSend(Freeze(old(bank.ledger), bank.forbidden, m.owner, m.stock, m.maxSupply), Nobody,
                                m.owner, CET, fee))
      ensures pools == if ok then old(pools)[GetSymbol(m.stock, m.money) := NewPool(m)] else old(pools)
      ensures !ok ==> bank.ledger == old(bank.ledger)
      ensures ok ==>
              forall k ::
                  Bal(bank.ledger.frozen, k) == Bal(old(bank.ledger).frozen, k)
                      + If(k == Acct(m.owner, m.stock), m.maxSupply)
      ensures ok ==>
              forall k ::
                  Bal(bank.ledger.coins, k) == Bal(old(bank.ledger).coins, k) - If(k == Acct(m.owner, m.stock),
                        m.maxSupply)
                       + If(k == Acct(FEE_COLLECTOR, CET), fee) - If(k == Acct(m.owner, CET), fee)
    {
      hide ValidTable, OnCurve, ValidateCurve, CheckStockPrecision, NewCurve;
      SamePools(bank.ledger, pools);
      var symbol := GetSymbol(m.stock, m.money);
      if symbol in pools { return false; }
      if m.stock !in issuers || m.money !in issuers { return false; }
      if issuers[m.stock] != m.owner { return false; }
      var saved := bank.ledger;
      SupplyIsPositive(m);
      FreezeKeepsSupply(saved, bank.forbidden, m.owner, m.stock, m.maxSupply);
      ok := bank.FreezeCoins(m.owner, m.stock, m.maxSupply);
      if !ok { return; }
      SendKeepsSupply(bank.ledger, Nobody, m.owner, FEE_COLLECTOR, CET, fee);
      ok := bank.DeductFee(m.owner, fee);
      if !ok {
        bank.ledger := saved;
        return;
      }
      NewPoolIsOnCurve(m, table);
      ghost var frozen := Freeze(saved, bank.forbidden, m.owner, m.stock, m.maxSupply);
      forall k
        ensures Bal(bank.ledger.frozen, k) == Bal(saved.frozen, k) + PoolReserve(NewPool(m), k)
        ensures Bal(bank.ledger.coins, k) == Bal(saved.coins, k) - If(k == Acct(m.owner, m.stock), m.maxSupply)
             + If(k == Acct(FEE_COLLECTOR, CET), fee) - If(k == Acct(m.owner, CET), fee)
      {
        FreezeMoves(saved, bank.forbidden, m.owner, m.stock, m.maxSupply, k);
        SendMoves(frozen, Nobody, m.owner, FEE_COLLECTOR, CET, fee, k);
      }
      PoolEntry(saved, pools, bank.ledger, table, symbol, NewPool(m));
      pools := pools[symbol := NewPool(m)];
    }

    /** Closes a pool and gives its owner back all that was in it, or changes nothing. */
    method HandleMsgBancorCancel(owner: Addr, symbol: string, now: int, fee: nat) returns (ok: bool)
      requires Valid()
      modifies this`pools, bank`ledger
      ensures Valid() && SamePoolSurplus(old(bank.ledger), old(pools), bank.ledger, pools)
      ensures ok == (symbol in old(pools) && old(pools)[symbol].owner == owner
                     && now >= old(pools)[symbol].earliestCancelTime
                     && fee <= Bal(old(bank.ledger).coins, Acct(owner, CET)))
      ensures pools == if ok then old(pools) - {symbol} else old(pools)
      ensures !ok ==> bank.ledger == old(bank.ledger)
      ensures ok ==>
              forall k ::
                  Bal(bank.ledger.coins, k) == Bal(old(bank.ledger).coins, k) + PoolReserve(old(pools)[symbol], k)
                       + If(k == Acct(FEE_COLLECTOR, CET), fee) - If(k == Acct(owner, CET), fee)
    {
      hide ValidTable, OnCurve;
      SamePools(bank.ledger, pools);
      if symbol !in pools { return false; }
      var p := pools[symbol];
      if p.owner != owner { return false; }
      if now < p.earliestCancelTime { return false; }
      ghost var before := bank.ledger;
      PoolHolds(p, table);
      ok := bank.DeductFee(owner, fee);
      if !ok { return; }
      ReleaseMoves(before, pools, table, symbol, fee);
      ok := bank.UnFreezeCoins(p.owner, p.stock, p.stockInPool);
      assert ok;
      ok := bank.UnFreezeCoins(p.owner, p.money, p.moneyInPool);
      assert ok;
      PoolExit(before, pools, bank.ledger, table, symbol);
      pools := pools - {symbol};
    }

    /** The pool after a trade and what the trade costs or yields, unless a check fails. */
    method PriceTrade(m: MsgBancorTrade) returns (ok: bool, next: Pool, paid: int)
      requires Valid() && ValidateTrade(m) && GetSymbol(m.stock, m.money) in pools
      ensures ok ==> OnCurve(next, table) && IsPriced(m, pools[GetSymbol(m.stock, m.money)], next, paid)
      ensures var p := pools[GetSymbol(m.stock, m.money)];
              && OnCurve(p, table) && ok == Passes(m, p, table, bank.forbidden)
              && (ok ==> paid == TradeMoney(m, p, table))
              && (ok ==>
                  !BarredFrom(bank.forbidden, p.stock, p.money, m.sender)
                      && !BarredFrom(bank.forbidden, p.stock, p.money, p.owner))
    {
      hide ValidTable, ValidCurve, OnCurve, PoolsBacked, CheckStockPrecision, MoneyAt, PriceAt;
      var p := pools[GetSymbol(m.stock, m.money)];
      ok, next, paid := false, p, 0;
      PoolIsValid(bank.ledger, pools, table, GetSymbol(m.stock, m.money));
      if p.owner == m.sender { return; }
      if Forbids(bank.forbidden, p.stock, m.sender) || Forbids(bank.forbidden, p.money, m.sender) { return; }
      if Forbids(bank.forbidden, p.stock, p.owner) || Forbids(bank.forbidden, p.money, p.owner) { return; }
      if !CheckStockPrecision(m.amount, p.stockPrecision) { return; }
      var stockInPool := if m.isBuy then p.stockInPool - m.amount else p.stockInPool + m.amount;
      var biNew := new BancorInfo(p);
      var inBounds := biNew.UpdateStockInPool(stockInPool, table);
      if !inBounds { return; }
      next := p.(stockInPool := biNew.stockInPool, moneyInPool := biNew.moneyInPool, price := biNew.price);
      NextIsOnCurve(p, next, table);
      paid := if m.isBuy then next.moneyInPool - p.moneyInPool else p.moneyInPool - next.moneyInPool;
      if paid <= 0 { return; }
      if m.moneyLimit > 0 {
        if m.isBuy && paid > m.moneyLimit { return; }
        if !m.isBuy && paid < m.moneyLimit { return; }
      }
      ok := true;
    }

    /** Charges the fee and swaps the coins, or leaves the ledger as it was. */
    method SettleTrade(m: MsgBancorTrade, owner: Addr, paid: nat, commission: nat, rules: FeeRules) returns (ok: bool)
      requires m.sender != owner && m.amount >= 0 && ValidRules(rules) && owner in bank.ledger.known
      requires !BarredFrom(bank.forbidden, m.stock, m.money, m.sender)
               && !BarredFrom(bank.forbidden, m.stock, m.money, owner)
      requires if m.isBuy then m.amount <= Bal(bank.ledger.frozen, Acct(owner, m.stock))
      else paid <= Bal(bank.ledger.frozen, Acct(owner, m.money))
      modifies bank`ledger
      ensures !ok ==> bank.ledger == old(bank.ledger)
      ensures ok ==> bank.ledger.known == old(bank.ledger).known && SameSupply(old(bank.ledger), bank.ledger)
      ensures ok ==>
              forall k :: Bal(bank.ledger.frozen, k) == Bal(old(bank.ledger).frozen, k) + OwnerDelta(m, paid, owner, k)
      ensures ok ==> Paid(old(bank.ledger), bank.ledger, m, paid, commission, rules)
      ensures ok == CanSettle(old(bank.ledger), bank.forbidden, m, paid, commission, rules)
    {
      hide TradeFeeDelta, ValidRules, CanCharge;
      var saved := bank.ledger;
      ok := ChargeTrade(m.sender, commission, rules);
      if !ok {
        bank.ledger := saved;
        return;
      }
      ghost var charged := bank.ledger;
      if m.isBuy {
        ok := SwapStockAndMoney(m.sender, owner, m.stock, m.amount, m.money, paid);
      } else {
        ok := SwapStockAndMoney(m.sender, owner, m.money, paid, m.stock, m.amount);
      }
      if !ok { bank.ledger := saved; }
    }

    /** Buys stock from a pool or sells it to the pool at the difference its curve makes, within
        the sender's limit, or changes nothing. */
    method HandleMsgBancorTrade(m: MsgBancorTrade, volume: int -> Dec, feeRate: nat, feeMin: nat, rules: FeeRules)
      returns (ok: bool, ghost diff: int)
      requires Valid() && ValidateTrade(m) && ValidRules(rules)
      modifies this`pools, bank`ledger
      ensures Valid() && SamePoolSurplus(old(bank.ledger), old(pools), bank.ledger, pools)
      ensures !ok ==> pools == old(pools) && bank.ledger == old(bank.ledger)
      ensures ok == TradeAccepted(old(bank.ledger), old(pools), table, bank.forbidden, m, volume, feeRate, feeMin,
                                  rules)
      ensures ok ==> var s := GetSymbol(m.stock, m.money);
                s in old(pools) && s in pools && pools == old(pools)[s := pools[s]]
                    && IsPriced(m, old(pools)[s], pools[s], diff)
      ensures ok ==> Paid(old(bank.ledger), bank.ledger, m, diff, TradeFee(volume(diff), feeRate, feeMin), rules)
      ensures ok ==> !BarredFrom(bank.forbidden, m.stock, m.money, m.sender)
      ensures ok ==> Traded(Reserves(old(bank.ledger), old(pools)), Reserves(bank.ledger, pools), table,
                            Trade(m, diff, TradeFee(volume(diff), feeRate, feeMin), rules, bank.forbidden))
    {
      hide ValidTable, OnCurve, PoolsBacked, SamePoolSurplus, Paid, Traded, ValidRules, Passes, TradeMoney, CanSettle,
           TradeFee;
      diff := 0;
      SamePools(bank.ledger, pools);
      var symbol := GetSymbol(m.stock, m.money);
      if symbol !in pools { return false, 0; }
      var p := pools[symbol];
      var next, paid;
      ok, next, paid := PriceTrade(m);
      if !ok { return; }
      diff := paid;
      ghost var saved := bank.ledger;
      var commission := TradeFee(volume(paid), feeRate, feeMin);
      TradeIsFunded(saved, pools, table, m, next, paid);
      ok := SettleTrade(m, p.owner, paid, commission, rules);
      if !ok { return; }
      TradeKeepsPools(saved, pools, bank.ledger, table, m, next, paid);
      NowTraded(Reserves(saved, pools), Reserves(bank.ledger, pools[symbol := next]), table,
                Trade(m, paid, commission, rules, bank.forbidden));
      pools := pools[symbol := next];
    }
  }

  // ------------------------------------------------------------ what a trade moves

  function TradeFee(volume: Dec, feeRate: nat, feeMin: nat): nat
  {
    var commission := TruncateInt(QuoInt(Mul(volume, NewDec(feeRate)), 10000));
    if commission < feeMin then feeMin else commission
  }

  /** The commission of a trade is its share at the fee rate, rounded down to a coin, but at least
      the minimum. */
  lemma TradeFeeOfVolume(volume: Dec, feeRate: nat, feeMin: nat, k: int)
    requires 0 <= volume && k * (10000 * ONE) <= volume * feeRate < (k + 1) * (10000 * ONE)
    ensures TradeFee(volume, feeRate, feeMin) == if k > feeMin then k else feeMin
  {
    hide Mul;
    MulWhole(volume, feeRate);
    var share := volume * feeRate;
    MulMonotone(0, volume, feeRate);
    var x := share / 10000;
    DivReaches(share, 10000, k * ONE);
    DivReaches(share, 10000, (k + 1) * ONE);
    DivMonotone(0, share, 10000);
    DivUnique(x, ONE, k);
  }

  /** The pool's stock after the trade. */
  function NewStock(m: MsgBancorTrade, p: Pool): int { p.stockInPool + (if m.isBuy then -m.amount else m.amount) }

  /** What the trade costs its sender, or yields: the difference it makes to the pool's money. */
  ghost function TradeMoney(m: MsgBancorTrade, p: Pool, t: Table): int
    requires OnCurve(p, t) && 0 <= NewStock(m, p) <= p.curve.maxSupply
  {
    var money := MoneyAt(p.curve, t, p.curve.maxSupply - NewStock(m, p));
    if m.isBuy then money - p.moneyInPool else p.moneyInPool - money
  }

  predicate WithinLimit(m: MsgBancorTrade, diff: int)
  {
    m.moneyLimit > 0 ==> if m.isBuy then diff <= m.moneyLimit else diff >= m.moneyLimit
  }

  /** The checks of a trade that do not look at anybody's coins. */
  ghost predicate Passes(m: MsgBancorTrade, p: Pool, t: Table, forbidden: Forbidden)
    requires OnCurve(p, t)
  {
    && p.owner != m.sender && !BarredFrom(forbidden, p.stock, p.money, m.sender)
    && !BarredFrom(forbidden, p.stock, p.money, p.owner)
    && CheckStockPrecision(m.amount, p.stockPrecision)
    && 0 <= NewStock(m, p) <= p.curve.maxSupply && TradeMoney(m, p, t) > 0 && WithinLimit(m, TradeMoney(m, p, t))
  }

  /** The sender can pay the commission and then what it owes the pool. */
  predicate CanSettle(l: Ledger, forbidden: Forbidden, m: MsgBancorTrade, diff: int, commission: nat, rules: FeeRules)
    requires ValidRules(rules)
  {
    var owed := Acct(m.sender, if m.isBuy then m.money else m.stock);
    && CanCharge(l, forbidden, m.sender, commission, rules)
    && (if m.isBuy then diff else m.amount) <= Bal(l.coins, owed) + TradeFeeDelta(rules, commission, m.sender, owed)
  }

  /** When a trade goes through. */
  ghost predicate TradeAccepted(l: Ledger, pools: map<string, Pool>, t: Table, forbidden: Forbidden, m: MsgBancorTrade,
                                volume: int -> Dec, feeRate: nat, feeMin: nat, rules: FeeRules)
    requires ValidRules(rules) && forall s | s in pools :: OnCurve(pools[s], t)
  {
    var s := GetSymbol(m.stock, m.money);
    && s in pools && Passes(m, pools[s], t, forbidden)
    && var diff := TradeMoney(m, pools[s], t);
       CanSettle(l, forbidden, m, diff, TradeFee(volume(diff), feeRate, feeMin), rules)
  }

  /** The pool's stock changes by the amount, its money by the positive `diff`, and `diff` is
      within the sender's limit. */
  predicate IsPriced(m: MsgBancorTrade, before: Pool, after: Pool, diff: int)
  {
    && before.owner != m.sender && diff > 0
    && WithinLimit(m, diff)
    && after == before.(stockInPool := before.stockInPool + (if m.isBuy then -m.amount else m.amount),
                        moneyInPool := before.moneyInPool + (if m.isBuy then diff else -diff), price := after.price)
  }

  /** Only the trade and its fee moved spendable coins. */
  ghost predicate Paid(l: Ledger, after: Ledger, m: MsgBancorTrade, diff: int, commission: nat, rules: FeeRules)
  {
    forall k ::
        Bal(after.coins, k) == Bal(l.coins, k) + TradeDelta(m, diff, k) + TradeFeeDelta(rules, commission, m.sender, k)
  }

  /** The pools and the ledger that backs them. */
  datatype Reserves = Reserves(ledger: Ledger, pools: map<string, Pool>)

  /** A trade that went through: what it cost its sender or yielded, its commission,
      and the rules and bans it was made under. */
  datatype Trade = Trade(m: MsgBancorTrade, paid: int, commission: nat, rules: FeeRules, forbidden: Forbidden)

  function SymbolOf(d: Trade): string { GetSymbol(d.m.stock, d.m.money) }

  /** The step that an accepted trade is. */
  ghost predicate Traded(x: Reserves, y: Reserves, t: Table, d: Trade)
  {
    var s := SymbolOf(d);
    && ValidateTrade(d.m) && ValidRules(d.rules) && AllOnCurve(x.pools, t) && AllOnCurve(y.pools, t) && s in x.pools
    && s in y.pools
    && Passes(d.m, x.pools[s], t, d.forbidden) && d.paid == TradeMoney(d.m, x.pools[s], t)
    && CanSettle(x.ledger, d.forbidden, d.m, d.paid, d.commission, d.rules)
    && y.pools == x.pools[s := y.pools[s]] && IsPriced(d.m, x.pools[s], y.pools[s], d.paid)
    && Paid(x.ledger, y.ledger, d.m, d.paid, d.commission, d.rules)
    && SamePoolSurplus(x.ledger, x.pools, y.ledger, y.pools)
  }

  lemma NowTraded(x: Reserves, y: Reserves, t: Table, d: Trade)
    requires PoolsBacked(x.ledger, x.pools, t) && PoolsBacked(y.ledger, y.pools, t) && ValidateTrade(d.m)
             && ValidRules(d.rules)
    requires var s := SymbolOf(d);
             && s in x.pools && s in y.pools && y.pools == x.pools[s := y.pools[s]] && OnCurve(x.pools[s], t)
             && Passes(d.m, x.pools[s], t, d.forbidden) && d.paid == TradeMoney(d.m, x.pools[s], t)
             && IsPriced(d.m, x.pools[s], y.pools[s], d.paid)
    requires CanSettle(x.ledger, d.forbidden, d.m, d.paid, d.commission, d.rules)
    requires Paid(x.ledger, y.ledger, d.m, d.paid, d.commission, d.rules)
             && SamePoolSurplus(x.ledger, x.pools, y.ledger, y.pools)
    ensures Traded(x, y, t, d)
  {
    hide OnCurve, Passes, TradeMoney, IsPriced, CanSettle, Paid, SamePoolSurplus;
  }

  /** What a trade moves in and out of the owner's frozen coins. */
  function OwnerDelta(m: MsgBancorTrade, diff: int, owner: Addr, k: Acct): int
  {
    if m.isBuy then If(k == Acct(owner, m.money), diff) - If(k == Acct(owner, m.stock), m.amount)
    else If(k == Acct(owner, m.stock), m.amount) - If(k == Acct(owner, m.money), diff)
  }

  function TradeDelta(m: MsgBancorTrade, diff: int, k: Acct): int
  {
    if m.isBuy then If(k == Acct(m.sender, m.stock), m.amount) - If(k == Acct(m.sender, m.money), diff)
    else If(k == Acct(m.sender, m.money), diff) - If(k == Acct(m.sender, m.stock), m.amount)
  }

  lemma SamePools(l: Ledger, pools: map<string, Pool>)
    ensures SamePoolSurplus(l, pools, l, pools)
  {
  }

  lemma SupplyIsPositive(m: MsgBancorInit)
    requires ValidateInit(m)
    ensures m.maxSupply > 0
  {
  }

  lemma PoolIsValid(l: Ledger, pools: map<string, Pool>, t: Table, s: string)
    requires PoolsBacked(l, pools, t) && s in pools
    ensures OnCurve(pools[s], t) && ValidCurve(pools[s].curve) && pools[s].owner in l.known
  {
  }

  lemma NextIsOnCurve(p: Pool, next: Pool, t: Table)
    requires OnCurve(p, t) && 0 <= next.stockInPool <= p.curve.maxSupply
    requires next == p.(stockInPool := next.stockInPool, moneyInPool := next.moneyInPool, price := next.price)
    requires next.moneyInPool == MoneyAt(p.curve, t, p.curve.maxSupply - next.stockInPool)
    requires next.price == PriceAt(p.curve, t, p.curve.maxSupply - next.stockInPool)
    ensures OnCurve(next, t)
  {
    hide MoneyAt, PriceAt;
  }

  /** The denominations of a pool are the ones that the trade names. */
  lemma SymbolDenoms(p: Pool, m: MsgBancorTrade)
    requires IsNamed(p, GetSymbol(m.stock, m.money)) && ValidateTrade(m)
    ensures p.stock == m.stock && p.money == m.money
  {
    SplitSymbolInvertsGetSymbol(p.stock, p.money);
    SplitSymbolInvertsGetSymbol(m.stock, m.money);
  }

  /** The owner's frozen coins hold what the trade takes out of the pool. */
  lemma TradeIsFunded(l: Ledger, pools: map<string, Pool>, t: Table, m: MsgBancorTrade, next: Pool, diff: int)
    requires PoolsBacked(l, pools, t) && ValidateTrade(m) && GetSymbol(m.stock, m.money) in pools
    requires OnCurve(next, t) && IsPriced(m, pools[GetSymbol(m.stock, m.money)], next, diff)
    ensures var p := pools[GetSymbol(m.stock, m.money)];
            && p.stock == m.stock && p.money == m.money && p.owner in l.known
            && (m.isBuy ==> m.amount <= Bal(l.frozen, Acct(p.owner, m.stock)))
            && (!m.isBuy ==> diff <= Bal(l.frozen, Acct(p.owner, m.money)))
  {
    var s := GetSymbol(m.stock, m.money);
    hide MoneyAt, PriceAt, ValidCurve, ValidTable, GetSymbol;
    SymbolDenoms(pools[s], m);
    PoolHolds(pools[s], t);
    PoolHolds(next, t);
    PoolIsFrozen(l, pools, t, s, Acct(pools[s].owner, m.stock));
    PoolIsFrozen(l, pools, t, s, Acct(pools[s].owner, m.money));
  }

  lemma TradeKeepsPools(l: Ledger, pools: map<string, Pool>, after: Ledger, t: Table, m: MsgBancorTrade, next: Pool,
                        diff: int)
    requires PoolsBacked(l, pools, t) && ValidateTrade(m) && GetSymbol(m.stock, m.money) in pools
             && after.known == l.known && SameSupply(l, after)
    requires OnCurve(next, t) && IsPriced(m, pools[GetSymbol(m.stock, m.money)], next, diff)
    requires forall k :: Bal(after.frozen, k) == Bal(l.frozen, k) + OwnerDelta(m, diff, next.owner, k)
    ensures PoolsBacked(after, pools[GetSymbol(m.stock, m.money) := next], t)
    ensures SamePoolSurplus(l, pools, after, pools[GetSymbol(m.stock, m.money) := next])
  {
    var s := GetSymbol(m.stock, m.money);
    hide OnCurve, GetSymbol;
    SymbolDenoms(pools[s], m);
    forall k ensures Bal(after.frozen, k) == Bal(l.frozen, k) + PoolReserve(next, k) - PoolReserve(pools[s], k) {}
    PoolStep(l, pools, after, t, s, next);
  }

  /** Both releases of a closing pool succeed. */
  lemma ReleaseMoves(l: Ledger, pools: map<string, Pool>, t: Table, s: string, fee: nat)
    requires PoolsBacked(l, pools, t) && s in pools && pools[s].stockInPool >= 0 && pools[s].moneyInPool >= 0
    requires fee <= Bal(l.coins, Acct(pools[s].owner, CET))
    ensures var p := pools[s];
            var l1 := Send(l, Nobody, p.owner, FEE_COLLECTOR, CET, fee);
            var l2 := Unfreeze(l1, p.owner, p.stock, p.stockInPool);
            var l3 := Unfreeze(l2, p.owner, p.money, p.moneyInPool);
            && CanUnfreeze(l1, p.owner, p.stock, p.stockInPool) && CanUnfreeze(l2, p.owner, p.money, p.moneyInPool)
            && l3.known == l.known && SameSupply(l, l3)
            && forall k :: Bal(l3.frozen, k) == Bal(l.frozen, k) - PoolReserve(p, k)
                 && Bal(l3.coins, k) == Bal(l.coins, k) + PoolReserve(p, k) + If(k == Acct(FEE_COLLECTOR, CET), fee)
                    - If(k == Acct(p.owner, CET), fee)
  {
    hide OnCurve;
    var p := pools[s];
    var stock, money := Acct(p.owner, p.stock), Acct(p.owner, p.money);
    PoolIsFrozen(l, pools, t, s, stock);
    PoolIsFrozen(l, pools, t, s, money);
    var l1 := Send(l, Nobody, p.owner, FEE_COLLECTOR, CET, fee);
    SendMoves(l, Nobody, p.owner, FEE_COLLECTOR, CET, fee, stock);
    SendMoves(l, Nobody, p.owner, FEE_COLLECTOR, CET, fee, money);
    var l2 := Unfreeze(l1, p.owner, p.stock, p.stockInPool);
    UnfreezeMoves(l1, p.owner, p.stock, p.stockInPool, money);
    var l3 := Unfreeze(l2, p.owner, p.money, p.moneyInPool);
    SendKeepsSupply(l, Nobody, p.owner, FEE_COLLECTOR, CET, fee);
    UnfreezeKeepsSupply(l1, p.owner, p.stock, p.stockInPool);
    UnfreezeKeepsSupply(l2, p.owner, p.money, p.moneyInPool);
    forall k
      ensures Bal(l3.frozen, k) == Bal(l.frozen, k) - PoolReserve(p, k)
      ensures Bal(l3.coins, k) == Bal(l.coins, k) + PoolReserve(p, k) + If(k == Acct(FEE_COLLECTOR, CET), fee)
              - If(k == Acct(p.owner, CET), fee)
    {
      SendMoves(l, Nobody, p.owner, FEE_COLLECTOR, CET, fee, k);
      UnfreezeMoves(l1, p.owner, p.stock, p.stockInPool, k);
      UnfreezeMoves(l2, p.owner, p.money, p.moneyInPool, k);
    }
  }
}
