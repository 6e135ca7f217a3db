/** The money behind the order book, on values: what one deal does to two orders and to the
    ledger, what runs of deals keep, and what closing an order gives back. */
module Settlement {
  import opened Decimals
  import opened Auction
  import opened Ledgers
  import opened Orders
  import opened Sums

  // ------------------------------------------------------------ what orders hold

  /** The open orders and the ledger that backs them. */
  datatype Exchange = Exchange(orders: map<OrderID, Order>, ledger: Ledger)

  /** What order `o` has frozen in account `k`: its stock or money, and its fees in CET. */
  function Reserve(o: Order, k: Acct): int
  {
    (if o.terms.sender == k.addr && UsedDenom(o.terms) == k.denom then o.freeze else 0) + FeeReserve(o, k)
  }

  function FeeReserve(o: Order, k: Acct): int
  {
    if o.terms.sender == k.addr && k.denom == CET then o.terms.frozenCommission + o.terms.frozenFeatureFee else 0
  }

  ghost function ReserveFor(k: Acct): (OrderID, Order) -> int { (id, o) => Reserve(o, k) }

  ghost function Reserved(orders: map<OrderID, Order>, k: Acct): int
  {
    Sum(orders, ReserveFor(k))
  }

  /** Frozen coins of account `k` that no open order accounts for (a bancor pool may). */
  ghost function Surplus(x: Exchange, k: Acct): int
  {
    Bal(x.ledger.frozen, k) - Reserved(x.orders, k)
  }

  ghost predicate AllSound(orders: map<OrderID, Order>)
  {
    forall id | id in orders :: Sound(orders[id]) && orders[id].terms.id == id
  }

  ghost predicate SendersKnown(x: Exchange)
  {
    forall id | id in x.orders :: x.orders[id].terms.sender in x.ledger.known
  }

  /** Every open order is sound and everything it holds is frozen in its sender's account. */
  ghost predicate Solvent(x: Exchange)
  {
    && AllSound(x.orders) && SendersKnown(x)
    && forall k :: Surplus(x, k) >= 0
  }

  lemma ReserveIsFrozen(x: Exchange, id: OrderID, k: Acct)
    requires Solvent(x) && id in x.orders
    ensures Bal(x.ledger.frozen, k) >= Reserve(x.orders[id], k) >= 0
  {
    assert Surplus(x, k) >= 0;
    SumAtLeast(x.orders, ReserveFor(k), id);
  }

  lemma TwoReservesAreFrozen(x: Exchange, a: OrderID, b: OrderID, k: Acct)
    requires Solvent(x) && a in x.orders && b in x.orders && a != b
    ensures Bal(x.ledger.frozen, k) >= Reserve(x.orders[a], k) + Reserve(x.orders[b], k)
  {
    assert Surplus(x, k) >= 0;
    SumAtLeastTwo(x.orders, ReserveFor(k), a, b);
  }

  // ------------------------------------------------------------ one deal

  datatype Deal = Deal(buyer: OrderID, seller: OrderID, amount: nat, price: nat)

  /** The money paid: the price of the whole amount, rounded down to a coin. */
  function Payment(price: nat, amount: nat): (m: nat)
    ensures m * ONE <= price * amount < (m + 1) * ONE
  {
    TruncateInt(MulInt(price, amount))
  }

  function Bought(o: Order, amount: int, money: int): Order
  {
    o.(leftStock := o.leftStock - amount, freeze := o.freeze - money,
       dealStock := o.dealStock + amount, dealMoney := o.dealMoney + money)
  }

  function Sold(o: Order, amount: int, money: int): Order
  {
    o.(leftStock := o.leftStock - amount, freeze := o.freeze - amount,
       dealStock := o.dealStock + amount, dealMoney := o.dealMoney + money)
  }

  /** The four ledger operations of a deal. Their results are ignored: an operation that the
      bank refuses changes nothing and the next one is tried all the same. */
  function Exchanged(l: Ledger, forbidden: Forbidden, buyer: Terms, seller: Terms, amount: nat, money: nat): Ledger
  {
    var stock, coin := StockOf(buyer.symbol), MoneyOf(buyer.symbol);
    var l1 := Unfreeze(l, seller.sender, stock, amount);
    var l2 := Send(l1, forbidden, seller.sender, buyer.sender, stock, amount);
    var l3 := Unfreeze(l2, buyer.sender, coin, money);
    Send(l3, forbidden, buyer.sender, seller.sender, coin, money)
  }

  function Apply(x: Exchange, forbidden: Forbidden, d: Deal): Exchange
    requires d.buyer in x.orders && d.seller in x.orders
  {
    var b, s, m := x.orders[d.buyer], x.orders[d.seller], Payment(d.price, d.amount);
    if m > MAX_ORDER_AMOUNT then x
    else Exchange(x.orders[d.buyer := Bought(b, d.amount, m)][d.seller := Sold(s, d.amount, m)],
                  Exchanged(x.ledger, forbidden, b.terms, s.terms, d.amount, m))
  }

  /** A positive amount that both orders still have, at a price both accept. */
  predicate ValidDeal(orders: map<OrderID, Order>, d: Deal)
  {
    && d.buyer in orders && d.seller in orders
    && orders[d.buyer].terms.side == Bid && orders[d.seller].terms.side == Ask
    && orders[d.buyer].terms.symbol == orders[d.seller].terms.symbol
    && 0 < d.amount <= orders[d.buyer].leftStock && d.amount <= orders[d.seller].leftStock
    && orders[d.seller].terms.price <= d.price <= orders[d.buyer].terms.price
  }

  /** An issuer of one of the two tokens forbids it to the sender. */
  predicate Barred(forbidden: Forbidden, symbol: string, sender: Addr)
  {
    Forbids(forbidden, StockOf(symbol), sender) || Forbids(forbidden, MoneyOf(symbol), sender)
  }

  /** Neither party is barred from trading in the market. */
  predicate Unbarred(orders: map<OrderID, Order>, forbidden: Forbidden, d: Deal)
    requires d.buyer in orders && d.seller in orders
  {
    var b, s := orders[d.buyer].terms, orders[d.seller].terms;
    !Barred(forbidden, b.symbol, b.sender) && !Barred(forbidden, s.symbol, s.sender)
  }

  /** A deal keeps both orders sound; in particular the buyer's frozen money pays for it and
      for what is left, so the payment is never too large to be booked. */
  lemma DealKeepsOrdersSound(b: Order, s: Order, amount: nat, price: nat)
    requires Sound(b) && Sound(s) && b.terms.side == Bid && s.terms.side == Ask
    requires amount <= b.leftStock && amount <= s.leftStock && s.terms.price <= price <= b.terms.price
    ensures Payment(price, amount) <= b.freeze
    ensures Sound(Bought(b, amount, Payment(price, amount)))
    ensures Sound(Sold(s, amount, Payment(price, amount)))
  {
    FundsSuffice(b.terms.price, price, amount, b.leftStock, b.freeze, Payment(price, amount));
  }

  lemma FundsSuffice(limit: int, price: int, amount: int, left: int, freeze: int, m: int)
    requires 0 <= price <= limit && 0 <= amount <= left
    requires freeze * ONE >= limit * left && m * ONE <= price * amount
    ensures m <= freeze && (freeze - m) * ONE >= limit * (left - amount)
  {
    MulMonotone(price, limit, amount);
    assert limit * amount + limit * (left - amount) == limit * left;
    MulMonotone(0, left - amount, limit);
  }

  /** A valid deal moves exactly its stock and its payment, out of frozen coins of one party
      into spendable coins of the other, and touches no other balance. */
  lemma DealMovesExactly(x: Exchange, forbidden: Forbidden, d: Deal, k: Acct)
    requires Solvent(x) && ValidDeal(x.orders, d) && Unbarred(x.orders, forbidden, d)
    ensures var b, s, m := x.orders[d.buyer].terms, x.orders[d.seller].terms, Payment(d.price, d.amount);
            var stock, coin := StockOf(b.symbol), MoneyOf(b.symbol);
            var l := Apply(x, forbidden, d).ledger;
            && m <= MAX_ORDER_AMOUNT
            && l.known == x.ledger.known
            && Bal(l.frozen, k) == Bal(x.ledger.frozen, k)
                 - If(k == Acct(s.sender, stock), d.amount) - If(k == Acct(b.sender, coin), m)
            && Bal(l.coins, k) == Bal(x.ledger.coins, k)
                 + If(k == Acct(b.sender, stock), d.amount) + If(k == Acct(s.sender, coin), m)
  {
    var bo, so := x.orders[d.buyer], x.orders[d.seller];
    var m := Payment(d.price, d.amount);
    DealKeepsOrdersSound(bo, so, d.amount, d.price);
    var stock, coin := StockOf(bo.terms.symbol), MoneyOf(bo.terms.symbol);
    var give, pay := Acct(so.terms.sender, stock), Acct(bo.terms.sender, coin);
    ReserveIsFrozen(x, d.seller, give);
    ReserveIsFrozen(x, d.buyer, pay);
    TwoReservesAreFrozen(x, d.buyer, d.seller, pay);
    var l1 := Unfreeze(x.ledger, so.terms.sender, stock, d.amount);
    var l2 := Send(l1, forbidden, so.terms.sender, bo.terms.sender, stock, d.amount);
    var l3 := Unfreeze(l2, bo.terms.sender, coin, m);
    UnfreezeMoves(x.ledger, so.terms.sender, stock, d.amount, give);
    UnfreezeMoves(x.ledger, so.terms.sender, stock, d.amount, pay);
    UnfreezeMoves(x.ledger, so.terms.sender, stock, d.amount, k);
    SendMoves(l1, forbidden, so.terms.sender, bo.terms.sender, stock, d.amount, k);
    UnfreezeMoves(l2, bo.terms.sender, coin, m, pay);
    UnfreezeMoves(l2, bo.terms.sender, coin, m, k);
    SendMoves(l3, forbidden, bo.terms.sender, so.terms.sender, coin, m, k);
  }

  lemma ReservedAfterTwo(orders: map<OrderID, Order>, a: OrderID, o: Order, b: OrderID, p: Order, k: Acct)
    requires a in orders && b in orders && a != b
    ensures Reserved(orders[a := o][b := p], k)
         == Reserved(orders, k) - Reserve(orders[a], k) - Reserve(orders[b], k) + Reserve(o, k) + Reserve(p, k)
  {
    SumUpdate(orders, ReserveFor(k), a, o);
    SumUpdate(orders[a := o], ReserveFor(k), b, p);
  }

  /** A valid deal keeps the exchange solvent and leaves every surplus as it was. */
  lemma DealKeepsSolvent(x: Exchange, forbidden: Forbidden, d: Deal)
    requires Solvent(x) && ValidDeal(x.orders, d) && Unbarred(x.orders, forbidden, d)
    ensures Solvent(Apply(x, forbidden, d))
    ensures forall k :: Surplus(Apply(x, forbidden, d), k) == Surplus(x, k)
  {
    var y := Apply(x, forbidden, d);
    var b, s, m := x.orders[d.buyer], x.orders[d.seller], Payment(d.price, d.amount);
    DealKeepsOrdersSound(b, s, d.amount, d.price);
    DealMovesExactly(x, forbidden, d, Acct("", ""));
    forall k ensures Surplus(y, k) == Surplus(x, k) {
      DealKeepsSurplus(x, forbidden, d, k);
    }
  }

  lemma DealKeepsSurplus(x: Exchange, forbidden: Forbidden, d: Deal, k: Acct)
    requires Solvent(x) && ValidDeal(x.orders, d) && Unbarred(x.orders, forbidden, d)
    ensures Surplus(Apply(x, forbidden, d), k) == Surplus(x, k)
  {
    var b, s, m := x.orders[d.buyer], x.orders[d.seller], Payment(d.price, d.amount);
    DealMovesExactly(x, forbidden, d, k);
    ReservedAfterTwo(x.orders, d.buyer, Bought(b, d.amount, m), d.seller, Sold(s, d.amount, m), k);
  }

  /** No deal makes or loses a coin, whether or not the bank refuses part of it. */
  lemma DealKeepsSupply(x: Exchange, forbidden: Forbidden, d: Deal)
    requires d.buyer in x.orders && d.seller in x.orders
    ensures SameSupply(x.ledger, Apply(x, forbidden, d).ledger)
  {
    hide SameSupply, Unfreeze, Send;
    var b, s, m := x.orders[d.buyer].terms, x.orders[d.seller].terms, Payment(d.price, d.amount);
    var stock, coin := StockOf(b.symbol), MoneyOf(b.symbol);
    var l1 := Unfreeze(x.ledger, s.sender, stock, d.amount);
    var l2 := Send(l1, forbidden, s.sender, b.sender, stock, d.amount);
    var l3 := Unfreeze(l2, b.sender, coin, m);
    UnfreezeKeepsSupply(x.ledger, s.sender, stock, d.amount);
    SendKeepsSupply(l1, forbidden, s.sender, b.sender, stock, d.amount);
    UnfreezeKeepsSupply(l2, b.sender, coin, m);
    SendKeepsSupply(l3, forbidden, b.sender, s.sender, coin, m);
    SameSupplyTwice(x.ledger, l1, l2);
    SameSupplyTwice(x.ledger, l2, l3);
    SameSupplyTwice(x.ledger, l3, Send(l3, forbidden, b.sender, s.sender, coin, m));
    SameSupplySelf(x.ledger);
  }

  lemma SameSupplySelf(l: Ledger)
    ensures SameSupply(l, l)
  {
  }

  // ------------------------------------------------------------ runs of deals

  /** The exchange after a run of deals; a deal between unknown orders is no deal. */
  function Replay(x: Exchange, forbidden: Forbidden, ds: seq<Deal>): Exchange
  {
    if ds == [] then x
    else
      var y, d := Replay(x, forbidden, ds[..|ds| - 1]), ds[|ds| - 1];
      if d.buyer in y.orders && d.seller in y.orders then Apply(y, forbidden, d) else y
  }

  /** Every deal of the run is valid when it happens. */
  predicate ValidRun(x: Exchange, forbidden: Forbidden, ds: seq<Deal>)
  {
    ds == [] ||
    var y, d := Replay(x, forbidden, ds[..|ds| - 1]), ds[|ds| - 1];
    ValidRun(x, forbidden, ds[..|ds| - 1]) && ValidDeal(y.orders, d) && Unbarred(y.orders, forbidden, d)
  }

  lemma ReplayStep(x: Exchange, forbidden: Forbidden, ds: seq<Deal>, d: Deal)
    ensures var y := Replay(x, forbidden, ds);
            && (d.buyer in y.orders && d.seller in y.orders ==>
                  && Replay(x, forbidden, ds + [d]) == Apply(y, forbidden, d)
                  && (ValidRun(x, forbidden, ds + [d]) <==>
                      ValidRun(x, forbidden, ds) && ValidDeal(y.orders, d) && Unbarred(y.orders, forbidden, d)))
  {
    assert (ds + [d])[..|ds + [d]| - 1] == ds;
  }

  /** Safety of a whole matching round: over any run of valid deals every order stays sound
      and funded, no deal is refused, and no account's surplus of frozen coins changes. */
  lemma {:induction false} RunKeepsSolvent(x: Exchange, forbidden: Forbidden, ds: seq<Deal>)
    requires Solvent(x) && ValidRun(x, forbidden, ds)
    ensures Solvent(Replay(x, forbidden, ds))
    ensures forall k :: Surplus(Replay(x, forbidden, ds), k) == Surplus(x, k)
  {
    if ds != [] {
      RunKeepsSolvent(x, forbidden, ds[..|ds| - 1]);
      DealKeepsSolvent(Replay(x, forbidden, ds[..|ds| - 1]), forbidden, ds[|ds| - 1]);
    }
  }

  lemma {:induction false} RunKeepsSupply(x: Exchange, forbidden: Forbidden, ds: seq<Deal>)
    ensures SameSupply(x.ledger, Replay(x, forbidden, ds).ledger)
  {
    if ds != [] {
      var front, d := ds[..|ds| - 1], ds[|ds| - 1];
      var y := Replay(x, forbidden, front);
      RunKeepsSupply(x, forbidden, front);
      if d.buyer in y.orders && d.seller in y.orders { DealKeepsSupply(y, forbidden, d); }
    }
  }

  lemma {:induction false} RunKeepsTerms(x: Exchange, forbidden: Forbidden, ds: seq<Deal>)
    ensures var y := Replay(x, forbidden, ds);
            y.orders.Keys == x.orders.Keys && forall id | id in x.orders :: y.orders[id].terms == x.orders[id].terms
  {
    if ds != [] { RunKeepsTerms(x, forbidden, ds[..|ds| - 1]); }
  }

  /** The orders that take part in some deal of the run. */
  function Parties(ds: seq<Deal>): set<OrderID>
  {
    if ds == [] then {} else Parties(ds[..|ds| - 1]) + {ds[|ds| - 1].buyer, ds[|ds| - 1].seller}
  }

  lemma PartiesStep(ds: seq<Deal>, d: Deal)
    ensures Parties(ds + [d]) == Parties(ds) + {d.buyer, d.seller}
  {
    assert (ds + [d])[..|ds + [d]| - 1] == ds;
  }

  lemma {:induction false} PartiesTwice(ds: seq<Deal>, es: seq<Deal>)
    ensures Parties(ds + es) == Parties(ds) + Parties(es)
  {
    if es == [] {
      assert ds + es == ds;
    } else {
      var front := es[..|es| - 1];
      PartiesTwice(ds, front);
      assert (ds + es)[..|ds + es| - 1] == ds + front;
    }
  }

  lemma {:induction false} RunTouchesParties(x: Exchange, forbidden: Forbidden, ds: seq<Deal>, id: OrderID)
    requires id in x.orders && id !in Parties(ds)
    ensures id in Replay(x, forbidden, ds).orders && Replay(x, forbidden, ds).orders[id] == x.orders[id]
  {
    if ds != [] { RunTouchesParties(x, forbidden, ds[..|ds| - 1], id); }
  }

  /** In how many deals of the run an order takes part. */
  function DealsOf(ds: seq<Deal>, id: OrderID): nat
  {
    if ds == [] then 0
    else DealsOf(ds[..|ds| - 1], id) + (if ds[|ds| - 1].buyer == id || ds[|ds| - 1].seller == id then 1 else 0)
  }

  /** The accounts of one order over any run of deals. */
  lemma {:induction false} RunAccounts(x: Exchange, forbidden: Forbidden, ds: seq<Deal>, id: OrderID)
    requires AllSound(x.orders) && ValidRun(x, forbidden, ds) && id in x.orders
    ensures var y := Replay(x, forbidden, ds); id in y.orders && Accounted(x.orders[id], y.orders[id], DealsOf(ds, id))
  {
    RunKeepsTerms(x, forbidden, ds);
    if ds != [] {
      var front, d := ds[..|ds| - 1], ds[|ds| - 1];
      var z := Replay(x, forbidden, front);
      RunAccounts(x, forbidden, front, id);
      RunKeepsSound(x, forbidden, front);
      DealKeepsOrdersSound(z.orders[d.buyer], z.orders[d.seller], d.amount, d.price);
      if d.seller == id {
        SellerStep(x.orders[id], z.orders[id], DealsOf(front, id), d.amount, d.price);
      }
    }
  }

  /** How an order stands after `n` deals, compared to before: stock is conserved; a buyer's
      frozen money turned into money paid, coin for coin; a seller received less than one coin
      per deal short of its own limit price. */
  predicate Accounted(a: Order, b: Order, n: nat)
  {
    var stock, money := b.dealStock - a.dealStock, b.dealMoney - a.dealMoney;
    && b.leftStock + stock == a.leftStock
    && (a.terms.side == Bid ==> b.freeze + money == a.freeze)
    && (a.terms.side == Ask ==> (money + n) * ONE >= a.terms.price * stock + n)
  }

  lemma SellerStep(a: Order, b: Order, n: nat, amount: nat, price: nat)
    requires Accounted(a, b, n) && a.terms == b.terms && a.terms.side == Ask && 0 <= a.terms.price <= price
    ensures Accounted(a, Sold(b, amount, Payment(price, amount)), n + 1)
  {
    var limit, stock, money, pay := a.terms.price, b.dealStock - a.dealStock, b.dealMoney - a.dealMoney,
        Payment(price, amount);
    MulMonotone(limit, price, amount);
    assert limit * (stock + amount) == limit * stock + limit * amount;
    assert (money + pay + n + 1) * ONE == (money + n) * ONE + (pay + 1) * ONE;
  }

  lemma {:induction false} RunKeepsSound(x: Exchange, forbidden: Forbidden, ds: seq<Deal>)
    requires AllSound(x.orders) && ValidRun(x, forbidden, ds)
    ensures AllSound(Replay(x, forbidden, ds).orders)
  {
    if ds != [] {
      var y, d := Replay(x, forbidden, ds[..|ds| - 1]), ds[|ds| - 1];
      RunKeepsSound(x, forbidden, ds[..|ds| - 1]);
      DealKeepsOrdersSound(y.orders[d.buyer], y.orders[d.seller], d.amount, d.price);
    }
  }

  /** One more valid deal at the end of a run, spelled out for the two orders it changes. */
  lemma RunStep(x: Exchange, forbidden: Forbidden, ds: seq<Deal>, d: Deal)
    requires AllSound(x.orders) && ValidRun(x, forbidden, ds)
    requires var y := Replay(x, forbidden, ds); ValidDeal(y.orders, d) && Unbarred(y.orders, forbidden, d)
    ensures var y, z := Replay(x, forbidden, ds), Replay(x, forbidden, ds + [d]);
            var b, s, m := y.orders[d.buyer], y.orders[d.seller], Payment(d.price, d.amount);
            && ValidRun(x, forbidden, ds + [d]) && m <= MAX_ORDER_AMOUNT
            && b.terms.id == d.buyer && s.terms.id == d.seller
            && z.orders == y.orders[d.buyer := Bought(b, d.amount, m)][d.seller := Sold(s, d.amount, m)]
            && z.ledger == Exchanged(y.ledger, forbidden, b.terms, s.terms, d.amount, m)
  {
    var y := Replay(x, forbidden, ds);
    var b, s, m := y.orders[d.buyer], y.orders[d.seller], Payment(d.price, d.amount);
    RunKeepsSound(x, forbidden, ds);
    ReplayStep(x, forbidden, ds, d);
    DealKeepsOrdersSound(b, s, d.amount, d.price);
  }
}
