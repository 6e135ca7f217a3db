/** Bancor pools: a pool's stock and money lie frozen in its owner's account, and every trade
    moves the pool along its curve. */
module BancorPools {
  import opened BancorCurve
  import opened Closing
  import opened Decimals
  import opened Ledgers
  import opened OrderEntry
  import opened Orders
  import opened Sums

  datatype Pool = Pool(
    owner: Addr, stock: Denom, money: Denom, curve: Curve, stockPrecision: nat, price: Dec, stockInPool: int,
        moneyInPool: int,
    earliestCancelTime: int)

  /** The pool is on its curve: its money and its price follow from the stock it supplied. */
  ghost predicate OnCurve(p: Pool, t: Table)
  {
    && ValidCurve(p.curve) && ValidTable(t) && 0 <= p.stockInPool <= p.curve.maxSupply
    && p.moneyInPool == MoneyAt(p.curve, t, p.curve.maxSupply - p.stockInPool)
    && p.price == PriceAt(p.curve, t, p.curve.maxSupply - p.stockInPool)
  }

  /** The record that a trade copies and changes in place. */
  class BancorInfo {
    const curve: Curve
    var price: Dec
    var stockInPool: int
    var moneyInPool: int

    constructor (p: Pool)
      ensures curve == p.curve && price == p.price && stockInPool == p.stockInPool && moneyInPool == p.moneyInPool
    {
      curve, price, stockInPool, moneyInPool := p.curve, p.price, p.stockInPool, p.moneyInPool;
    }

    /** Sets the stock and makes money and price follow it. Every table index is in range. */
    method UpdateStockInPool(newStock: int, table: Table) returns (ok: bool)
      requires ValidCurve(curve) && ValidTable(table)
      modifies this
      ensures ok == (0 <= newStock <= curve.maxSupply)
      ensures !ok ==> price == old(price) && stockInPool == old(stockInPool) && moneyInPool == old(moneyInPool)
      ensures ok ==> stockInPool == newStock
                     && moneyInPool == MoneyAt(curve, table, curve.maxSupply - newStock)
                     && price == PriceAt(curve, table, curve.maxSupply - newStock)
    {
      hide ValidTable, Ratio, MoneyFor, PriceFor, LinearMoney, LinearPrice;
      if newStock < 0 || newStock > curve.maxSupply { return false; }
      stockInPool := newStock;
      var suppliedStock := curve.maxSupply - stockInPool;
      if curve.maxMoney == 0 {
        FollowLine(suppliedStock);
      } else {
        FollowTable(suppliedStock, table);
      }
      ok := true;
    }

    method FollowLine(suppliedStock: int)
      requires curve.maxSupply > 0
      modifies this`price, this`moneyInPool
      ensures price == LinearPrice(curve, suppliedStock) && moneyInPool == LinearMoney(curve, suppliedStock)
    {
      price := QuoInt(MulInt(curve.maxPrice - curve.initPrice, suppliedStock), curve.maxSupply) + curve.initPrice;
      moneyInPool := RoundInt(QuoInt(MulInt(price + curve.initPrice, suppliedStock), 2));
    }

    method FollowTable(suppliedStock: int, table: Table)
      requires ValidTable(table) && 1 <= curve.ar <= MAX_AR && 0 <= suppliedStock <= curve.maxSupply
               && 0 < curve.maxSupply
      modifies this`price, this`moneyInPool
      ensures price == PriceFor(curve, Ratio(table, curve.ar, suppliedStock, curve.maxSupply))
      ensures moneyInPool == MoneyFor(curve, Ratio(table, curve.ar + AR_SAMPLES, suppliedStock, curve.maxSupply),
                                      suppliedStock)
    {
      hide Quo, TruncateInt, MulTruncate;
      var factoredStock := suppliedStock * SUPPLY_RATIO_SAMPLES;
      var s := factoredStock / curve.maxSupply;
      SampleInRange(suppliedStock, curve.maxSupply);
      var contrast := s * curve.maxSupply;
      var ratio := TableLookup(table, curve.ar + AR_SAMPLES, s);
      var priceRatio := TableLookup(table, curve.ar, s);
      if factoredStock > contrast {
        var ratioNear := TableLookup(table, curve.ar + AR_SAMPLES, s + 1);
        ratio := Quo(MulInt(ratioNear - ratio, factoredStock - s * curve.maxSupply), NewDec(curve.maxSupply)) + ratio;
        var priceRatioNear := TableLookup(table, curve.ar, s + 1);
        priceRatio := Quo(MulInt(priceRatioNear - priceRatio, factoredStock - s * curve.maxSupply),
                          NewDec(curve.maxSupply)) + priceRatio;
      }
      moneyInPool := TruncateInt(MulInt(ratio, curve.maxMoney - TruncateInt(MulInt(curve.initPrice, curve.maxSupply)))
                                 + MulInt(curve.initPrice, suppliedStock));
      price := MulTruncate(priceRatio, curve.maxPrice - curve.initPrice) + curve.initPrice;
    }
  }

  // ------------------------------------------------------------ the consistency check

  /** The check of a stored pool, for pools without a maximum of money. */
  predicate IsConsistent(p: Pool)
    requires p.curve.maxSupply > 0 && p.curve.maxMoney == 0
  {
    var c, suppliedStock := p.curve, p.curve.maxSupply - p.stockInPool;
    if p.stockInPool < 0 || p.stockInPool > c.maxSupply then false
    else if c.initPrice == c.maxPrice then
      c.maxMoney == TruncateInt(MulInt(c.initPrice, c.maxSupply)) && c.ar == 0
          && MulInt(c.initPrice, suppliedStock) == NewDec(p.moneyInPool)
    else
      p.price == LinearPrice(c, suppliedStock) && p.moneyInPool == LinearMoney(c, suppliedStock) && c.ar == 0
  }

  lemma LinearMode(c: Curve, t: Table, supplied: int)
    requires ValidCurve(c) && ValidTable(t) && c.maxMoney == 0 && 0 <= supplied <= c.maxSupply
    ensures PriceAt(c, t, supplied) == LinearPrice(c, supplied) && MoneyAt(c, t, supplied) == LinearMoney(c, supplied)
    ensures c.ar == 0
  {
  }

  /** With equal prices only an untouched pool can have as much money as its stock is worth. */
  lemma FlatPool(price: Dec, supply: int, supplied: int, money: int, c: Curve)
    requires ValidCurve(c) && c.initPrice == price == c.maxPrice && c.maxSupply == supply && 0 <= supplied <= supply
    requires money == LinearMoney(c, supplied)
    ensures TruncateInt(MulInt(price, supply)) == 0 && MulInt(price, supplied) == NewDec(money)
        <==> price * supply < ONE && supplied == 0
  {
    hide LinearMoney;
    var whole, part := price * supply, price * supplied;
    MulMonotone(0, supply, price);
    MulMonotone(supplied, supply, price);
    if supplied > 0 { MulMonotone(1, supplied, price); } else { LinearEnds(c); }
  }

  /** A linear pool on its curve passes the check, except one whose two prices are equal: that
      passes only while it is untouched and its whole supply is worth less than one coin. */
  lemma LinearPoolIsConsistent(p: Pool, t: Table)
    requires OnCurve(p, t) && p.curve.maxMoney == 0
    ensures IsConsistent(p)
       <==>
           p.curve.initPrice < p.curve.maxPrice || (p.curve.initPrice * p.curve.maxSupply < ONE
                                                    && p.stockInPool == p.curve.maxSupply)
  {
    hide ValidTable, PriceFor, MoneyFor, PriceAt, MoneyAt;
    var c, supplied := p.curve, p.curve.maxSupply - p.stockInPool;
    LinearMode(c, t, supplied);
    if c.initPrice == c.maxPrice { FlatPool(c.initPrice, c.maxSupply, supplied, p.moneyInPool, c); }
  }

  // ------------------------------------------------------------ what pools hold

  function PoolReserve(p: Pool, k: Acct): int
  {
    If(k == Acct(p.owner, p.stock), p.stockInPool) + If(k == Acct(p.owner, p.money), p.moneyInPool)
  }

  ghost function PoolReserveFor(k: Acct): (string, Pool) -> int { (s, p) => PoolReserve(p, k) }

  ghost function PoolReserved(pools: map<string, Pool>, k: Acct): int
  {
    Sum(pools, PoolReserveFor(k))
  }

  /** Frozen coins of account `k` that no pool accounts for (open orders may). */
  ghost function PoolSurplus(l: Ledger, pools: map<string, Pool>, k: Acct): int
  {
    Bal(l.frozen, k) - PoolReserved(pools, k)
  }

  ghost predicate SamePoolSurplus(l: Ledger, pools: map<string, Pool>, m: Ledger, pools': map<string, Pool>)
  {
    l.known <= m.known && SameSupply(l, m) && forall k :: PoolSurplus(m, pools', k) == PoolSurplus(l, pools, k)
  }

  ghost predicate AllOnCurve(pools: map<string, Pool>, t: Table)
  {
    forall s | s in pools :: OnCurve(pools[s], t) && IsNamed(pools[s], s)
  }

  /** The pool's symbol spells its denominations, which have no separator in them. */
  predicate IsNamed(p: Pool, s: string)
  {
    s == GetSymbol(p.stock, p.money) && '/' !in p.stock && '/' !in p.money
  }

  /** Every pool is on its curve and what it holds is frozen in its owner's account. */
  ghost predicate PoolsBacked(l: Ledger, pools: map<string, Pool>, t: Table)
  {
    && AllOnCurve(pools, t)
    && (forall s | s in pools :: pools[s].owner in l.known)
    && (forall k :: PoolSurplus(l, pools, k) >= 0)
  }

  lemma PoolHolds(p: Pool, t: Table)
    requires OnCurve(p, t)
    ensures p.stockInPool >= 0 && p.moneyInPool >= 0
  {
    hide MoneyAt, PriceAt, ValidCurve, ValidTable;
    CurveMonotone(p.curve, t, p.curve.maxSupply - p.stockInPool, p.curve.maxSupply - p.stockInPool);
  }

  lemma PoolIsFrozen(l: Ledger, pools: map<string, Pool>, t: Table, s: string, k: Acct)
    requires PoolsBacked(l, pools, t) && s in pools
    ensures Bal(l.frozen, k) >= PoolReserve(pools[s], k) >= 0
  {
    hide OnCurve;
    assert PoolSurplus(l, pools, k) >= 0;
    forall u | u in pools ensures PoolReserve(pools[u], k) >= 0 { PoolHolds(pools[u], t); }
    SumAtLeast(pools, PoolReserveFor(k), s);
  }

  /** Changing one pool, with the frozen coins following, keeps every pool backed. */
  lemma PoolStep(l: Ledger, pools: map<string, Pool>, m: Ledger, t: Table, s: string, p: Pool)
    requires PoolsBacked(l, pools, t) && s in pools && OnCurve(p, t) && IsNamed(p, s) && p.owner == pools[s].owner
    requires l.known <= m.known && SameSupply(l, m)
    requires forall k :: Bal(m.frozen, k) == Bal(l.frozen, k) + PoolReserve(p, k) - PoolReserve(pools[s], k)
    ensures PoolsBacked(m, pools[s := p], t) && SamePoolSurplus(l, pools, m, pools[s := p])
  {
    hide OnCurve;
    var next := pools[s := p];
    forall k ensures PoolSurplus(m, next, k) == PoolSurplus(l, pools, k) >= 0 {
      SumUpdate(pools, PoolReserveFor(k), s, p);
    }
    assert AllOnCurve(next, t);
  }

  lemma PoolEntry(l: Ledger, pools: map<string, Pool>, m: Ledger, t: Table, s: string, p: Pool)
    requires PoolsBacked(l, pools, t) && s !in pools && OnCurve(p, t) && IsNamed(p, s) && p.owner in m.known
    requires l.known <= m.known && SameSupply(l, m)
    requires forall k :: Bal(m.frozen, k) == Bal(l.frozen, k) + PoolReserve(p, k)
    ensures PoolsBacked(m, pools[s := p], t) && SamePoolSurplus(l, pools, m, pools[s := p])
  {
    hide OnCurve;
    var next := pools[s := p];
    forall k ensures PoolSurplus(m, next, k) == PoolSurplus(l, pools, k) >= 0 {
      SumUpdate(pools, PoolReserveFor(k), s, p);
    }
    assert AllOnCurve(next, t);
  }

  lemma PoolExit(l: Ledger, pools: map<string, Pool>, m: Ledger, t: Table, s: string)
    requires PoolsBacked(l, pools, t) && s in pools && l.known <= m.known && SameSupply(l, m)
    requires forall k :: Bal(m.frozen, k) == Bal(l.frozen, k) - PoolReserve(pools[s], k)
    ensures PoolsBacked(m, pools - {s}, t) && SamePoolSurplus(l, pools, m, pools - {s})
  {
    hide OnCurve;
    forall k ensures PoolSurplus(m, pools - {s}, k) == PoolSurplus(l, pools, k) {
      SumRemove(pools, PoolReserveFor(k), s);
    }
  }
}
