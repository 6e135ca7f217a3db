/** Runs of trades against bancor pools: what they pay in and out, and where the coins are afterwards. */
module BancorRuns {
  import opened Bancor
  import opened BancorCurve
  import opened BancorPools
  import opened Closing
  import opened CurveShape
  import opened Decimals
  import opened Ledgers
  import opened Orders
  import opened Sums

  /** A run of accepted trades, each settled before the next. */
  ghost predicate TradeRun(xs: seq<Reserves>, ds: seq<Trade>, t: Table)
  {
    |xs| == |ds| + 1 && AllOnCurve(xs[0].pools, t) && forall i | 0 <= i < |ds| :: TradeAt(xs, ds, t, i)
  }

  ghost predicate TradeAt(xs: seq<Reserves>, ds: seq<Trade>, t: Table, i: nat)
    requires i < |ds| && |xs| == |ds| + 1
  {
    Traded(xs[i], xs[i + 1], t, ds[i])
  }

  lemma FrontTrades(xs: seq<Reserves>, ds: seq<Trade>, t: Table)
    requires TradeRun(xs, ds, t) && ds != []
    ensures TradeRun(xs[..|ds|], ds[..|ds| - 1], t) && Traded(xs[|ds| - 1], xs[|ds|], t, ds[|ds| - 1])
  {
    hide Traded, AllOnCurve;
    assert TradeAt(xs, ds, t, |ds| - 1);
    var us, es := xs[..|ds|], ds[..|ds| - 1];
    forall i | 0 <= i < |es| ensures TradeAt(us, es, t, i) { assert TradeAt(xs, ds, t, i); }
  }

  // ------------------------------------------------------------ what was traded

  /** Stock bought from a pool less stock sold to it. */
  function StockBought(ds: seq<Trade>, s: string): int
  {
    if ds == [] then 0
    else
      var d := ds[|ds| - 1];
      StockBought(ds[..|ds| - 1], s) + (if SymbolOf(d) != s then 0 else if d.m.isBuy then d.m.amount else -d.m.amount)
  }

  /** Money paid by the senders of trades with a pool less money paid to them. */
  function MoneyPaid(ds: seq<Trade>, s: string): int
  {
    if ds == [] then 0
    else
      var d := ds[|ds| - 1];
      MoneyPaid(ds[..|ds| - 1], s) + (if SymbolOf(d) != s then 0 else if d.m.isBuy then d.paid else -d.paid)
  }

  /** What the trades move into the spendable coins of account `k`, fees apart. */
  function CoinsMoved(ds: seq<Trade>, k: Acct): int
  {
    if ds == [] then 0 else CoinsMoved(ds[..|ds| - 1], k) + TradeDelta(ds[|ds| - 1].m, ds[|ds| - 1].paid, k)
  }

  /** What their fees move. */
  function FeesMoved(ds: seq<Trade>, k: Acct): int
  {
    if ds == [] then 0
    else FeesMoved(ds[..|ds| - 1], k) + TradeFeeDelta(ds[|ds| - 1].rules, ds[|ds| - 1].commission,
                                                      ds[|ds| - 1].m.sender, k)
  }

  predicate OnlyWith(ds: seq<Trade>, s: string)
  {
    forall i | 0 <= i < |ds| :: SymbolOf(ds[i]) == s
  }

  // ------------------------------------------------------------ the pool

  /** A pool after some trades: its terms are the same, and its stock and money follow them. */
  ghost predicate Followed(p: Pool, q: Pool, bought: int, paid: int)
  {
    && q == p.(stockInPool := q.stockInPool, moneyInPool := q.moneyInPool, price := q.price)
    && q.stockInPool == p.stockInPool - bought && q.moneyInPool == p.moneyInPool + paid
  }

  lemma OneTrade(x: Reserves, y: Reserves, t: Table, d: Trade, s: string)
    requires Traded(x, y, t, d) && s in x.pools
    ensures s in y.pools && OnCurve(x.pools[s], t) && OnCurve(y.pools[s], t)
    ensures if SymbolOf(d) != s then y.pools[s] == x.pools[s]
            else Followed(x.pools[s], y.pools[s], if d.m.isBuy then d.m.amount else -d.m.amount,
                          if d.m.isBuy then d.paid else -d.paid)
  {
    hide OnCurve, Passes, CanSettle, Paid, SamePoolSurplus;
  }

  /** What one accepted trade is: a buyer takes its amount out of the pool and pays what the curve
      puts on it, within its limit; a seller puts its amount in and gets what the curve takes off. */
  lemma TradeMeans(x: Reserves, y: Reserves, t: Table, d: Trade)
    requires Traded(x, y, t, d)
    ensures var s, m := SymbolOf(d), d.m;
            && s in x.pools && s in y.pools && OnCurve(x.pools[s], t) && OnCurve(y.pools[s], t)
            && var p, q := x.pools[s], y.pools[s];
               var before, after := p.curve.maxSupply - p.stockInPool, p.curve.maxSupply - q.stockInPool;
               && q.curve == p.curve && 0 <= before <= p.curve.maxSupply && 0 <= after <= p.curve.maxSupply
               && after - before == (if m.isBuy then m.amount else -m.amount)
               && MoneyAt(p.curve, t, after) - MoneyAt(p.curve, t, before) == (if m.isBuy then d.paid else -d.paid)
    ensures d.m.moneyLimit > 0 ==> if d.m.isBuy then d.paid <= d.m.moneyLimit else d.paid >= d.m.moneyLimit
  {
    hide MoneyAt, PriceAt, ValidCurve, ValidTable, CanSettle, Paid, SamePoolSurplus;
    OneTrade(x, y, t, d, SymbolOf(d));
  }

  /** What it does to the purses of plain accounts: the sender swaps stock and money and pays the
      commission, of which its referee gets the rebate and the collector the rest. */
  lemma TradePays(x: Reserves, y: Reserves, t: Table, d: Trade) returns (r: nat)
    requires Traded(x, y, t, d)
    requires var m, rules := d.m, d.rules;
             && m.sender != FEE_COLLECTOR && m.stock != m.money && CET !in {m.stock, m.money}
             && (m.sender in rules.referees ==> rules.referees[m.sender] !in {m.sender, FEE_COLLECTOR})
    ensures if d.m.sender in d.rules.referees
            then r * REBATE_BASE <= d.commission * d.rules.rebateRatio < (r + 1) * REBATE_BASE else r == 0
    ensures var m, was, now := d.m, x.ledger.coins, y.ledger.coins;
            var stock, money, purse := Acct(m.sender, m.stock), Acct(m.sender, m.money), Acct(m.sender, CET);
            && Bal(now, stock) - Bal(was, stock) == (if m.isBuy then m.amount else -m.amount)
            && Bal(now, money) - Bal(was, money) == (if m.isBuy then -d.paid else d.paid)
            && Bal(was, purse) - Bal(now, purse) == d.commission
            && Bal(now, Acct(FEE_COLLECTOR, CET)) - Bal(was, Acct(FEE_COLLECTOR, CET)) == d.commission - r
            && (m.sender in d.rules.referees ==>
                var referee := Acct(d.rules.referees[m.sender], CET); Bal(now, referee) - Bal(was, referee) == r)
  {
    hide OnCurve, Passes, CanSettle, SamePoolSurplus, IsPriced;
    r := if d.m.sender in d.rules.referees then Rebate(d.rules, d.commission) else 0;
    OneTradeMoves(x, y, t, d);
  }

  /** In a linear pool every piece of a trade costs at least the lower and at most the higher of
      the two prices that the pool shows before and after it, within two coins in all. */
  lemma LinearTradeIsFair(x: Reserves, y: Reserves, t: Table, d: Trade)
    requires Traded(x, y, t, d) && x.pools[SymbolOf(d)].curve.maxMoney == 0
    ensures var p, q := x.pools[SymbolOf(d)].price, y.pools[SymbolOf(d)].price;
            var lower, higher := if d.m.isBuy then p else q, if d.m.isBuy then q else p;
            d.m.amount * lower <= (d.paid + 2) * ONE && (d.paid - 2) * ONE <= d.m.amount * higher
  {
    hide MoneyAt, PriceAt, ValidCurve, ValidTable, Traded;
    TradeMeans(x, y, t, d);
    TradedAmount(x, y, t, d);
    var p, q := x.pools[SymbolOf(d)], y.pools[SymbolOf(d)];
    var before, after := p.curve.maxSupply - p.stockInPool, p.curve.maxSupply - q.stockInPool;
    if d.m.isBuy {
      LinearMoneyIsArea(p.curve, t, before, after);
    } else {
      LinearMoneyIsArea(p.curve, t, after, before);
    }
  }

  lemma TradedAmount(x: Reserves, y: Reserves, t: Table, d: Trade)
    requires Traded(x, y, t, d)
    ensures d.m.amount > 0
  {
    hide OnCurve, Passes, CanSettle, Paid, SamePoolSurplus, IsPriced;
  }

  lemma {:induction false} PoolOverARun(xs: seq<Reserves>, ds: seq<Trade>, t: Table, s: string)
    requires TradeRun(xs, ds, t) && s in xs[0].pools
    ensures s in xs[|ds|].pools && OnCurve(xs[0].pools[s], t) && OnCurve(xs[|ds|].pools[s], t)
    ensures Followed(xs[0].pools[s], xs[|ds|].pools[s], StockBought(ds, s), MoneyPaid(ds, s))
  {
    hide Traded, OnCurve;
    if ds != [] {
      FrontTrades(xs, ds, t);
      PoolOverARun(xs[..|ds|], ds[..|ds| - 1], t, s);
      OneTrade(xs[|ds| - 1], xs[|ds|], t, ds[|ds| - 1], s);
    }
  }

  /** Over any run of accepted trades, whoever makes them and with whatever pools: what is in a pool
      is what it held before and what was paid in less what was paid out for it; and if its stock is
      back where it was, no money was paid for it on the whole. */
  lemma MoneyIsConserved(xs: seq<Reserves>, ds: seq<Trade>, t: Table, s: string)
    requires TradeRun(xs, ds, t) && s in xs[0].pools
    ensures s in xs[|ds|].pools
    ensures var p, q := xs[0].pools[s], xs[|ds|].pools[s];
            && q.moneyInPool == p.moneyInPool + MoneyPaid(ds, s) && q.stockInPool == p.stockInPool - StockBought(ds, s)
            && (StockBought(ds, s) == 0 ==> MoneyPaid(ds, s) == 0)
            && (p.stockInPool == p.curve.maxSupply ==> MoneyPaid(ds, s) == q.moneyInPool >= 0)
  {
    hide OnCurve, Traded, StockBought, MoneyPaid;
    PoolOverARun(xs, ds, t, s);
    var p, q := xs[0].pools[s], xs[|ds|].pools[s];
    PoolHolds(q, t);
    SameStockSameMoney(p, q, t);
    UntouchedHasNoMoney(p, t);
  }

  lemma SameStockSameMoney(p: Pool, q: Pool, t: Table)
    requires OnCurve(p, t) && OnCurve(q, t) && q.curve == p.curve
    ensures q.stockInPool == p.stockInPool ==> q.moneyInPool == p.moneyInPool
  {
    hide MoneyAt, PriceAt, ValidTable, ValidCurve;
  }

  lemma UntouchedHasNoMoney(p: Pool, t: Table)
    requires OnCurve(p, t)
    ensures p.stockInPool == p.curve.maxSupply ==> p.moneyInPool == 0
  {
    hide MoneyAt, PriceAt, ValidTable, ValidCurve;
    CurveEnds(p.curve, t);
  }

  // ------------------------------------------------------------ the coins

  lemma OneTradeMoves(x: Reserves, y: Reserves, t: Table, d: Trade)
    requires Traded(x, y, t, d)
    ensures Paid(x.ledger, y.ledger, d.m, d.paid, d.commission, d.rules)
            && SamePoolSurplus(x.ledger, x.pools, y.ledger, y.pools)
  {
    hide OnCurve, Passes, CanSettle, Paid, SamePoolSurplus, IsPriced;
  }

  /** Spendable coins change by the trades and their fees, frozen coins as the pools do. */
  lemma {:induction false} CoinsOverARun(xs: seq<Reserves>, ds: seq<Trade>, t: Table)
    requires TradeRun(xs, ds, t)
    ensures forall k ::
            Bal(xs[|ds|].ledger.coins, k) == Bal(xs[0].ledger.coins, k) + CoinsMoved(ds, k) + FeesMoved(ds, k)
    ensures SamePoolSurplus(xs[0].ledger, xs[0].pools, xs[|ds|].ledger, xs[|ds|].pools)
  {
    hide Traded, TradeDelta, TradeFeeDelta;
    if ds == [] {
      SamePools(xs[0].ledger, xs[0].pools);
    } else {
      var n := |ds| - 1;
      FrontTrades(xs, ds, t);
      CoinsOverARun(xs[..|ds|], ds[..n], t);
      OneTradeMoves(xs[n], xs[n + 1], t, ds[n]);
      SameSurplusAgain(xs[0], xs[n], xs[n + 1]);
    }
  }

  lemma SameSurplusAgain(x: Reserves, y: Reserves, z: Reserves)
    requires SamePoolSurplus(x.ledger, x.pools, y.ledger, y.pools)
             && SamePoolSurplus(y.ledger, y.pools, z.ledger, z.pools)
    ensures SamePoolSurplus(x.ledger, x.pools, z.ledger, z.pools)
  {
  }

  lemma {:induction false} OnePoolChanges(xs: seq<Reserves>, ds: seq<Trade>, t: Table, s: string)
    requires TradeRun(xs, ds, t) && OnlyWith(ds, s) && s in xs[0].pools
    ensures s in xs[|ds|].pools && xs[|ds|].pools == xs[0].pools[s := xs[|ds|].pools[s]]
  {
    hide Traded;
    if ds != [] {
      FrontTrades(xs, ds, t);
      OnePoolChanges(xs[..|ds|], ds[..|ds| - 1], t, s);
      assert SymbolOf(ds[|ds| - 1]) == s;
      OnlyItsPool(xs[|ds| - 1], xs[|ds|], t, ds[|ds| - 1]);
    }
  }

  lemma OnlyItsPool(x: Reserves, y: Reserves, t: Table, d: Trade)
    requires Traded(x, y, t, d)
    ensures SymbolOf(d) in x.pools && SymbolOf(d) in y.pools && y.pools == x.pools[SymbolOf(d) := y.pools[SymbolOf(d)]]
  {
    hide OnCurve, Passes, CanSettle, Paid, SamePoolSurplus, IsPriced;
  }

  /** What the trades with one pool do to the owner's frozen coins: it gains the money that was paid
      and loses the stock that was bought, and nobody else's frozen coins change. */
  lemma OwnerGains(xs: seq<Reserves>, ds: seq<Trade>, t: Table, s: string, k: Acct)
    requires TradeRun(xs, ds, t) && OnlyWith(ds, s) && s in xs[0].pools
    ensures var p := xs[0].pools[s];
            Bal(xs[|ds|].ledger.frozen, k) == Bal(xs[0].ledger.frozen, k)
              + If(k == Acct(p.owner, p.money), MoneyPaid(ds, s)) - If(k == Acct(p.owner, p.stock), StockBought(ds, s))
  {
    hide Traded, OnCurve, OnlyWith;
    PoolOverARun(xs, ds, t, s);
    CoinsOverARun(xs, ds, t);
    OnePoolChanges(xs, ds, t, s);
    SumUpdate(xs[0].pools, PoolReserveFor(k), s, xs[|ds|].pools[s]);
    assert PoolSurplus(xs[|ds|].ledger, xs[|ds|].pools, k) == PoolSurplus(xs[0].ledger, xs[0].pools, k);
  }

  // ------------------------------------------------------------ all accounts together

  ghost function Spendable(l: Ledger, d: Denom): int { Sum<Acct, nat>(l.coins, InDenom(d)) }

  /** Sums over accounts depend on the balances only. */
  lemma {:induction false} SameBalancesSameSum(m: map<Acct, nat>, n: map<Acct, nat>, d: Denom)
    requires forall k: Acct | k.denom == d :: Bal(m, k) == Bal(n, k)
    ensures Sum<Acct, nat>(m, InDenom(d)) == Sum<Acct, nat>(n, InDenom(d))
    decreases |m|
  {
    if m == map[] {
      SumEmpty<Acct, nat>(m, InDenom(d));
      forall k | k in n ensures InDenom(d)(k, n[k]) == 0 {
        if k.denom == d { assert Bal(m, k) == Bal(n, k); }
      }
      SumOfZeros<Acct, nat>(n, InDenom(d));
    } else {
      var k :| k in m;
      SumRemove<Acct, nat>(m, InDenom(d), k);
      if k.denom == d { assert Bal(m, k) == Bal(n, k); }
      if k in n { SumRemove<Acct, nat>(n, InDenom(d), k); } else { assert n - {k} == n; }
      forall j: Acct | j.denom == d ensures Bal(m - {k}, j) == Bal(n - {k}, j) { assert Bal(m, j) == Bal(n, j); }
      SameBalancesSameSum(m - {k}, n - {k}, d);
    }
  }

  lemma OneBalanceChanges(m: map<Acct, nat>, n: map<Acct, nat>, k: Acct)
    requires forall j: Acct | j.denom == k.denom && j != k :: Bal(m, j) == Bal(n, j)
    ensures Sum<Acct, nat>(n, InDenom(k.denom)) == Sum<Acct, nat>(m, InDenom(k.denom)) + Bal(n, k) - Bal(m, k)
  {
    SumUpdate<Acct, nat>(m, InDenom(k.denom), k, Bal(n, k));
    SameBalancesSameSum(m[k := Bal(n, k)], n, k.denom);
  }

  /** What all spendable coins together lose of a denomination is exactly what the owner of the pool
      gains in frozen ones: fees only change hands. */
  lemma SpendableLost(xs: seq<Reserves>, ds: seq<Trade>, t: Table, s: string, d: Denom)
    requires TradeRun(xs, ds, t) && OnlyWith(ds, s) && s in xs[0].pools
    ensures var p, before, after := xs[0].pools[s], xs[0].ledger, xs[|ds|].ledger;
            && Spendable(before, d) - Spendable(after, d) ==
                 Bal(after.frozen, Acct(p.owner, d)) - Bal(before.frozen, Acct(p.owner, d))
            && Spendable(before, d) - Spendable(after, d) ==
                 If(d == p.money, MoneyPaid(ds, s)) - If(d == p.stock, StockBought(ds, s))
  {
    hide Traded, AllOnCurve, OnlyWith, Sum, InDenom;
    var p, before, after := xs[0].pools[s], xs[0].ledger, xs[|ds|].ledger;
    CoinsOverARun(xs, ds, t);
    forall k ensures Bal(after.frozen, k) == Bal(before.frozen, k)
                     + If(k == Acct(p.owner, p.money), MoneyPaid(ds, s))
                         - If(k == Acct(p.owner, p.stock), StockBought(ds, s))
    {
      OwnerGains(xs, ds, t, s, k);
    }
    OneBalanceChanges(before.frozen, after.frozen, Acct(p.owner, d));
    assert Supply(after, d) == Supply(before, d);
  }

  // ------------------------------------------------------------ one trader

  predicate OnlyBy(ds: seq<Trade>, sender: Addr)
  {
    forall i | 0 <= i < |ds| :: ds[i].m.sender == sender
  }

  /** The trades of one sender with one pool move nothing but its stock and its money. */
  lemma {:induction false} OneTraderMoves(ds: seq<Trade>, stock: Denom, money: Denom, sender: Addr, k: Acct)
    requires OnlyBy(ds, sender) && forall i | 0 <= i < |ds| :: ds[i].m.stock == stock && ds[i].m.money == money
    ensures var s := GetSymbol(stock, money);
            CoinsMoved(ds, k) == If(k == Acct(sender, stock), StockBought(ds, s))
                - If(k == Acct(sender, money), MoneyPaid(ds, s))
  {
    if ds != [] { OneTraderMoves(ds[..|ds| - 1], stock, money, sender, k); }
  }

  lemma TradesNameThePool(xs: seq<Reserves>, ds: seq<Trade>, t: Table, s: string)
    requires TradeRun(xs, ds, t) && OnlyWith(ds, s) && s in xs[0].pools
    ensures var p := xs[0].pools[s];
            s == GetSymbol(p.stock, p.money) && forall i | 0 <= i < |ds| ::
                ds[i].m.stock == p.stock && ds[i].m.money == p.money
  {
    hide OnCurve, Passes, CanSettle, Paid, SamePoolSurplus, IsPriced;
    var p := xs[0].pools[s];
    forall i | 0 <= i < |ds| ensures ds[i].m.stock == p.stock && ds[i].m.money == p.money {
      assert TradeAt(xs, ds, t, i);
      SymbolDenoms(p, ds[i].m);
    }
  }

  /** A trader that ends with as much of a pool's stock as it began with has paid its fees and
      nothing else: no round trip, in however many steps, takes money out of a pool or puts any in. */
  lemma RoundTripCostsItsFees(xs: seq<Reserves>, ds: seq<Trade>, t: Table, s: string, sender: Addr, k: Acct)
    requires TradeRun(xs, ds, t) && OnlyWith(ds, s) && s in xs[0].pools && OnlyBy(ds, sender) && StockBought(ds, s) == 0
    ensures Bal(xs[|ds|].ledger.coins, k) == Bal(xs[0].ledger.coins, k) + FeesMoved(ds, k)
    ensures Bal(xs[|ds|].ledger.frozen, k) == Bal(xs[0].ledger.frozen, k)
  {
    hide Traded, AllOnCurve, OnlyWith, OnlyBy;
    TradesNameThePool(xs, ds, t, s);
    MoneyIsConserved(xs, ds, t, s);
    CoinsOverARun(xs, ds, t);
    OneTraderMoves(ds, xs[0].pools[s].stock, xs[0].pools[s].money, sender, k);
    OwnerGains(xs, ds, t, s, k);
  }
}
