/** The call-auction engine: the loops that consume both sides of a book while deals change the
    orders in place. An order is handled by its identifier; its current value is in `orders`. */
module Matching {
  import opened Auction
  import opened Slices
  import opened Pricing
  import opened Ledgers
  import opened Orders
  import opened Settlement

  function QuoteOf(orders: map<OrderID, Order>, id: OrderID): Quote
  {
    if id in orders then Quote(orders[id].terms.side, orders[id].terms.price, orders[id].leftStock)
    else Quote(Bid, 0, 0)
  }

  /** A list of orders as the auction sees it. */
  function Quotes(orders: map<OrderID, Order>, list: seq<OrderID>): (qs: seq<Quote>)
    ensures |qs| == |list|
    ensures forall i | 0 <= i < |list| :: qs[i] == QuoteOf(orders, list[i])
  {
    seq(|list|, i requires 0 <= i < |list| => QuoteOf(orders, list[i]))
  }

  function Opposite(side: Side): Side { if side == Bid then Ask else Bid }

  /** The orders of one side that may be matched: one market, nobody barred, none twice. */
  ghost predicate SideList(orders: map<OrderID, Order>, list: seq<OrderID>, side: Side, symbol: string,
                           forbidden: Forbidden)
  {
    Distinct(list) && forall i | 0 <= i < |list| :: Matchable(orders, list[i], side, symbol, forbidden)
  }

  predicate Matchable(orders: map<OrderID, Order>, id: OrderID, side: Side, symbol: string, forbidden: Forbidden)
  {
    && id in orders
    && orders[id].terms.side == side && orders[id].terms.symbol == symbol
    && !Barred(forbidden, symbol, orders[id].terms.sender)
  }

  predicate SameTerms(a: map<OrderID, Order>, b: map<OrderID, Order>)
  {
    a.Keys == b.Keys && forall id | id in a :: a[id].terms == b[id].terms
  }

  /** All deals from position `from` on were made at `price`. */
  predicate AllAt(deals: seq<Deal>, from: nat, price: int)
  {
    forall i | from <= i < |deals| :: deals[i].price == price
  }

  /** A point in the run: the orders, the log and the last price. */
  datatype Point = Point(orders: map<OrderID, Order>, deals: seq<Deal>, lastPrice: int)

  /** What a stretch of deals leaves of the book: terms, all orders outside `touched`, and the
      log up to where it was; the new deals are all made at `price`. */
  ghost predicate Dealt(a: Point, b: Point, touched: set<OrderID>, price: int)
  {
    && SameTerms(b.orders, a.orders)
    && (forall id | id in b.orders && id !in touched :: b.orders[id] == a.orders[id])
    && a.deals <= b.deals && AllAt(b.deals, |a.deals|, price)
    && b.lastPrice == (if b.deals == a.deals then a.lastPrice else price)
  }

  /** What the deals of one market in one block share. */
  class InfoForDeal {
    const bank: Bank
    const symbol: string
    /** The hash of an order's identifier and the block's data hash, as a number. */
    const tieBreak: OrderID -> int
    /** The orders that were read from the store for matching. */
    var orders: map<OrderID, Order>
    var changedOrders: set<OrderID>
    var lastPrice: int
    ghost const start: Exchange
    ghost var deals: seq<Deal>

    constructor (bank: Bank, symbol: string, tieBreak: OrderID -> int, orders: map<OrderID, Order>)
      requires AllSound(orders)
      ensures this.bank == bank && this.symbol == symbol && this.tieBreak == tieBreak && this.orders == orders
      ensures Consistent() && start == Exchange(orders, bank.ledger) && deals == [] && lastPrice == 0
              && changedOrders == {}
    {
      this.bank, this.symbol, this.tieBreak, this.orders := bank, symbol, tieBreak, orders;
      changedOrders, lastPrice := {}, 0;
      start, deals := Exchange(orders, bank.ledger), [];
    }

    /** The orders and the ledger are the result of valid deals only, and exactly the orders
        that took part in one are recorded for the end of the block. */
    ghost predicate Consistent()
      reads this, bank
    {
      && Exchange(orders, bank.ledger) == Replay(start, bank.forbidden, deals)
      && ValidRun(start, bank.forbidden, deals)
      && AllSound(start.orders)
      && changedOrders == Parties(deals)
    }

    /** What the engine is told of an order's amount: all that is left of it. */
    method GetAmount(id: OrderID) returns (amount: int)
      requires Consistent() && id in orders
      ensures amount == orders[id].leftStock
    {
      RunKeepsSound(start, bank.forbidden, deals);
      SoundOrderHasEnoughMoney(orders[id]);
      amount := Orders.GetAmount(orders[id]);
    }

    ghost function Now(): Point
      reads this
    {
      Point(orders, deals, lastPrice)
    }

    /** Exchanges `amount` of stock for money at `price` between two orders of opposite sides.
        A payment that would not fit an order amount is not booked at all; the results of the
        bank operations are not looked at. */
    method Deal(wo: OrderID, other: OrderID, amount: nat, price: nat)
      requires wo in orders && other in orders && orders[wo].terms.side != orders[other].terms.side
      modifies this`orders, this`changedOrders, this`lastPrice, bank`ledger
      ensures var (buyer, seller) := Parts(old(orders), wo, other);
              var m := Payment(price, amount);
              if m > MAX_ORDER_AMOUNT then
                orders == old(orders) && bank.ledger == old(bank.ledger) && changedOrders == old(changedOrders)
                    && lastPrice == old(lastPrice)
              else
                && orders == old(orders)[buyer := Bought(old(orders)[buyer], amount,
                                                         m)][seller := Sold(old(orders)[seller], amount, m)]
                && bank.ledger == Exchanged(old(bank.ledger), bank.forbidden, old(orders)[buyer].terms,
                                            old(orders)[seller].terms, amount, m)
                && changedOrders == old(changedOrders) + {buyer, seller} && lastPrice == price
    {
      var buyer, seller := wo, other;
      if orders[buyer].terms.side == Ask { buyer, seller := other, wo; }
      var b, s := orders[buyer], orders[seller];
      var stock, money := StockOf(b.terms.symbol), MoneyOf(b.terms.symbol);
      var moneyAmount := Payment(price, amount);
      if moneyAmount > MAX_ORDER_AMOUNT { return; }
      b := b.(leftStock := b.leftStock - amount);
      s := s.(leftStock := s.leftStock - amount);
      b := b.(freeze := b.freeze - moneyAmount);
      s := s.(freeze := s.freeze - amount);
      b := b.(dealStock := b.dealStock + amount);
      s := s.(dealStock := s.dealStock + amount);
      b := b.(dealMoney := b.dealMoney + moneyAmount);
      s := s.(dealMoney := s.dealMoney + moneyAmount);
      orders := orders[buyer := b][seller := s];
      var _ := bank.UnFreezeCoins(s.terms.sender, stock, amount);
      var _ := bank.SendCoins(s.terms.sender, b.terms.sender, stock, amount);
      var _ := bank.UnFreezeCoins(b.terms.sender, money, moneyAmount);
      var _ := bank.SendCoins(b.terms.sender, s.terms.sender, money, moneyAmount);
      changedOrders := changedOrders + {buyer, seller};
      lastPrice := price;
    }

    /** A deal as the engine makes it, entered into the log. It is always booked, since the
        payment is within the buyer's frozen money. */
    method LoggedDeal(wo: OrderID, other: OrderID, amount: nat, price: nat)
      requires Consistent() && wo in orders && other in orders && orders[wo].terms.side != orders[other].terms.side
      requires var (buyer, seller) := Parts(orders, wo, other);
               var d := Settlement.Deal(buyer, seller, amount, price);
               ValidDeal(orders, d) && Unbarred(orders, bank.forbidden, d)
      modifies this, bank`ledger
      ensures Consistent() && Dealt(old(Now()), Now(), {wo, other}, price) && deals != old(deals)
      ensures orders[wo].leftStock == old(orders)[wo].leftStock - amount
      ensures orders[other].leftStock == old(orders)[other].leftStock - amount
    {
      ghost var (buyer, seller) := Parts(orders, wo, other);
      ghost var d := Settlement.Deal(buyer, seller, amount, price);
      RunStep(start, bank.forbidden, deals, d);
      PartiesStep(deals, d);
      ghost var before := Now();
      Deal(wo, other, amount, price);
      deals := deals + [d];
      OneDeal(before, d, Now());
    }
  }

  /** Buyer and seller among two orders of opposite sides. */
  function Parts(orders: map<OrderID, Order>, a: OrderID, b: OrderID): (OrderID, OrderID)
    requires a in orders
  {
    if orders[a].terms.side == Ask then (b, a) else (a, b)
  }

  // ------------------------------------------------------------ one order against a list

  lemma OneDeal(a: Point, d: Settlement.Deal, b: Point)
    requires d.buyer in a.orders && d.seller in a.orders
    requires var m := Payment(d.price, d.amount);
             b == Point(a.orders[d.buyer := Bought(a.orders[d.buyer], d.amount, m)][d.seller := Sold(a.orders[d.seller],
                   d.amount, m)],
                        a.deals + [d], d.price)
    ensures Dealt(a, b, {d.buyer, d.seller}, d.price) && a.deals != b.deals
  {
  }

  lemma DealtWider(a: Point, b: Point, touched: set<OrderID>, wider: set<OrderID>, price: int)
    requires Dealt(a, b, touched, price) && touched <= wider
    ensures Dealt(a, b, wider, price)
  {
  }

  lemma DealtTwice(a: Point, b: Point, c: Point, touched: set<OrderID>, price: int)
    requires Dealt(a, b, touched, price) && Dealt(b, c, touched, price)
    ensures Dealt(a, c, touched, price)
  {
  }

  ghost function Members(list: seq<OrderID>): set<OrderID> { set id | id in list }

  /** Everything that `ExecuteOrder` and its steps are called with. */
  ghost predicate Opposed(info: InfoForDeal, price: nat, currOrder: OrderID, list: seq<OrderID>)
    reads info, info.bank
  {
    && currOrder in info.orders
    && Matchable(info.orders, currOrder, info.orders[currOrder].terms.side, info.symbol, info.bank.forbidden)
    && SideList(info.orders, list, Opposite(info.orders[currOrder].terms.side), info.symbol, info.bank.forbidden)
    && Accepts(info.orders[currOrder].terms.side, info.orders[currOrder].terms.price, price)
  }

  /** The current order deals with the `n`-th order of the other side. */
  method DealWith(info: InfoForDeal, price: nat, currOrder: OrderID, list: seq<OrderID>, n: nat)
    requires info.Consistent() && Opposed(info, price, currOrder, list)
    requires n < |list| && Accepts(info.orders[list[n]].terms.side, info.orders[list[n]].terms.price, price)
    requires info.orders[currOrder].leftStock > 0 && info.orders[list[n]].leftStock > 0
    modifies info, info.bank`ledger
    ensures info.Consistent() && Dealt(old(info.Now()), info.Now(), {currOrder, list[n]}, price)
            && info.deals != old(info.deals)
    ensures var m := Min(old(info.orders)[currOrder].leftStock, old(info.orders)[list[n]].leftStock);
            && info.orders[currOrder].leftStock == old(info.orders)[currOrder].leftStock - m
            && info.orders[list[n]].leftStock == old(info.orders)[list[n]].leftStock - m
  {
    var otherSide := list[n];
    assert Matchable(info.orders, list[n], Opposite(info.orders[currOrder].terms.side), info.symbol,
                     info.bank.forbidden);
    var minAmount := info.GetAmount(otherSide);
    var currAmount := info.GetAmount(currOrder);
    if currAmount < minAmount { minAmount := currAmount; }
    info.LoggedDeal(currOrder, otherSide, minAmount, price);
  }

  /** Filling the `n`-th order of a drained list drains it further. */
  lemma DrainedQuotes(before: map<OrderID, Order>, after: map<OrderID, Order>, list: seq<OrderID>, n: nat,
                      qs: seq<Quote>, v: int, w: int)
    requires n < |list| == |qs| && SameTerms(after, before) && Positive(qs)
    requires forall i | 0 <= i < |list| :: list[i] in before && (i != n ==> after[list[i]] == before[list[i]])
    requires v == Upto(qs, n) <= w <= v + qs[n].amount
    requires Quotes(before, list) == Drain(qs, v) && after[list[n]].leftStock == qs[n].amount - (w - v)
    ensures Quotes(after, list) == Drain(qs, w)
  {
    DrainNext(qs, n, v, w);
    forall i | 0 <= i < |list| ensures Quotes(after, list)[i] == Drain(qs, w)[i] {
      assert Quotes(before, list)[i] == Drain(qs, v)[i];
    }
  }

  lemma StillOpposed(a: map<OrderID, Order>, b: map<OrderID, Order>, list: seq<OrderID>, side: Side, symbol: string,
                     forbidden: Forbidden)
    requires SideList(a, list, side, symbol, forbidden) && SameTerms(b, a)
    ensures SideList(b, list, side, symbol, forbidden)
  {
    forall i | 0 <= i < |list| ensures Matchable(b, list[i], side, symbol, forbidden) {
      assert Matchable(a, list[i], side, symbol, forbidden);
    }
  }

  /** One turn of the loop of `ExecuteOrder`, seen as draining the quotes of the list. */
  method ExecuteStep(info: InfoForDeal, price: nat, currOrder: OrderID, list: seq<OrderID>, n: nat,
                     ghost qs: seq<Quote>, ghost v: int, ghost side: Side, ghost start: Point, ghost all: set<OrderID>)
    returns (ghost w: int)
    requires info.Consistent() && Opposed(info, price, currOrder, list)
    requires |qs| == |list| && Positive(qs) && n < |list| && v == Upto(qs, n)
             && Quotes(info.orders, list) == Drain(qs, v)
    requires side == Opposite(info.orders[currOrder].terms.side)
    requires Accepts(side, qs[n].price, price) && info.orders[currOrder].leftStock > 0
    requires all == {currOrder} + Members(list) && Dealt(start, info.Now(), all, price)
    modifies info, info.bank`ledger
    ensures info.Consistent() && Opposed(info, price, currOrder, list)
            && side == Opposite(info.orders[currOrder].terms.side)
    ensures Dealt(start, info.Now(), all, price) && info.deals != start.deals
    ensures w == v + Min(old(info.orders)[currOrder].leftStock, qs[n].amount)
    ensures info.orders[currOrder].leftStock == old(info.orders)[currOrder].leftStock - (w - v)
    ensures Quotes(info.orders, list) == Drain(qs, w)
    ensures list[n] in info.orders && info.orders[list[n]].leftStock == v + qs[n].amount - w
  {
    ghost var before, now := info.orders, info.Now();
    w := v + Min(info.orders[currOrder].leftStock, qs[n].amount);
    DrainNext(qs, n, v, v);
    assert QuoteOf(before, list[n]) == Quotes(before, list)[n] == qs[n];
    assert Matchable(before, list[n], side, info.symbol, info.bank.forbidden);
    ListAvoids(info, currOrder, list);
    DealWith(info, price, currOrder, list, n);
    StillOpposed(before, info.orders, list, side, info.symbol, info.bank.forbidden);
    DealtWider(now, info.Now(), {currOrder, list[n]}, all, price);
    DealtTwice(start, now, info.Now(), all, price);
    DrainedQuotes(before, info.orders, list, n, qs, v, w);
  }

  /** The next order of a list that was drained up to it, as it stands in the book. */
  lemma NextInLine(orders: map<OrderID, Order>, list: seq<OrderID>, side: Side, symbol: string, forbidden: Forbidden,
                   qs: seq<Quote>, n: nat, v: int)
    requires SideList(orders, list, side, symbol, forbidden) && Positive(qs) && n < |list| == |qs|
    requires v == Upto(qs, n) && Quotes(orders, list) == Drain(qs, v)
    ensures list[n] in orders && orders[list[n]].terms.side == side && orders[list[n]].terms.price == qs[n].price
  {
    DrainNext(qs, n, v, v);
    assert Matchable(orders, list[n], side, symbol, forbidden);
    assert QuoteOf(orders, list[n]) == Quotes(orders, list)[n] == qs[n];
  }

  lemma ListAvoids(info: InfoForDeal, currOrder: OrderID, list: seq<OrderID>)
    requires currOrder in info.orders
    requires SideList(info.orders, list, Opposite(info.orders[currOrder].terms.side), info.symbol, info.bank.forbidden)
    ensures currOrder !in list && forall i | 0 <= i < |list| :: list[i] in info.orders
  {
    forall i | 0 <= i < |list| ensures list[i] != currOrder && list[i] in info.orders {
      assert Matchable(info.orders, list[i], Opposite(info.orders[currOrder].terms.side), info.symbol,
                       info.bank.forbidden);
    }
  }

  /** Where `ExecuteOrder` stands: from a list with quotes `qs`, an amount `v` was dealt, and
      the current order had `c` before. */
  ghost predicate Executing(info: InfoForDeal, price: nat, currOrder: OrderID, list: seq<OrderID>, qs: seq<Quote>,
                            side: Side, c: int, v: int, start: Point, all: set<OrderID>)
    reads info, info.bank
  {
    && info.Consistent() && Opposed(info, price, currOrder, list) && side == Opposite(info.orders[currOrder].terms.side)
    && |qs| == |list| && Positive(qs) && BestFirst(qs, side) && Quotes(info.orders, list) == Drain(qs, v)
    && info.orders[currOrder].leftStock == c - v && 0 <= v
    && all == {currOrder} + Members(list) && Dealt(start, info.Now(), all, price)
    && (v > 0 ==> info.deals != start.deals)
  }

  lemma StartExecuting(info: InfoForDeal, price: nat, currOrder: OrderID, list: seq<OrderID>, qs: seq<Quote>,
                       side: Side, c: int, start: Point, all: set<OrderID>)
    requires info.Consistent() && Opposed(info, price, currOrder, list)
             && side == Opposite(info.orders[currOrder].terms.side)
    requires qs == Quotes(info.orders, list) && Positive(qs) && BestFirst(qs, side)
    requires c == info.orders[currOrder].leftStock && start == info.Now() && all == {currOrder} + Members(list)
    ensures Executing(info, price, currOrder, list, qs, side, c, 0, start, all) && AllAccept(qs, side, price, 0)
  {
    DrainNothing(qs);
  }

  lemma StoppedAtEnd(info: InfoForDeal, price: nat, currOrder: OrderID, list: seq<OrderID>, qs: seq<Quote>, side: Side,
                     c: int, v: int, start: Point, all: set<OrderID>)
    requires Executing(info, price, currOrder, list, qs, side, c, v, start, all)
    requires |qs| == |list| && v == Upto(qs, |list|) < c && AllAccept(qs, side, price, |list|)
    ensures Stopped(qs, side, price, c, |list|, v)
  {
    StoppedAtUnwilling(qs, side, price, c, |list|, v);
  }

  /** The body of the loop of `ExecuteOrder`: deals with the `n`-th order of the list unless it
      does not accept the price, and says whether the loop is over. */
  method ExecuteTurn(info: InfoForDeal, price: nat, currOrder: OrderID, orderList: seq<OrderID>, n: nat,
                     ghost qs: seq<Quote>, ghost side: Side, ghost c: int, ghost v: int, ghost start: Point,
                     ghost all: set<OrderID>)
    returns (stop: bool, firstNonZeroIndex: nat, ghost w: int)
    requires Executing(info, price, currOrder, orderList, qs, side, c, v, start, all)
    requires n < |orderList| && v == Upto(qs, n) < c && AllAccept(qs, side, price, n)
    modifies info, info.bank`ledger
    ensures Executing(info, price, currOrder, orderList, qs, side, c, w, start, all)
    ensures stop ==> Stopped(qs, side, price, c, firstNonZeroIndex, w)
    ensures !stop ==> firstNonZeroIndex == n + 1 && w == Upto(qs, n + 1) < c && AllAccept(qs, side, price, n + 1)
  {
    var otherSide := orderList[n];
    firstNonZeroIndex, w := n, v;
    UptoMonotone(qs, n, n);
    NextInLine(info.orders, orderList, side, info.symbol, info.bank.forbidden, qs, n, v);
    if !Accepts(info.orders[otherSide].terms.side, info.orders[otherSide].terms.price, price) {
      UnwillingTail(qs, side, price, n);
      StoppedAtUnwilling(qs, side, price, c, n, v);
      return true, firstNonZeroIndex, w;
    }
    AcceptStep(qs, side, price, n);
    w := ExecuteStep(info, price, currOrder, orderList, n, qs, v, side, start, all);
    if info.orders[otherSide].leftStock == 0 { firstNonZeroIndex := firstNonZeroIndex + 1; }
    stop := info.orders[currOrder].leftStock == 0;
    if stop { StoppedWhenFilled(qs, side, price, c, n, firstNonZeroIndex); }
  }

  /** Executes `currOrder` against `orderList`, best price first, until it is filled, the list
      is exhausted, or the next order does not accept the price: the list is drained by exactly
      what both sides can trade. */
  method ExecuteOrder(info: InfoForDeal, price: nat, currOrder: OrderID, orderList: seq<OrderID>, ghost qs: seq<Quote>,
                      ghost side: Side)
    returns (rest: seq<OrderID>, ghost k: nat, ghost v: int)
    requires currOrder in info.orders && info.Consistent() && Opposed(info, price, currOrder, orderList)
             && side == Opposite(info.orders[currOrder].terms.side)
    requires qs == Quotes(info.orders, orderList) && Positive(qs) && BestFirst(qs, side)
    requires info.orders[currOrder].leftStock > 0
    modifies info, info.bank`ledger
    ensures Executing(info, price, currOrder, orderList, qs, side, old(info.orders)[currOrder].leftStock, v,
                      old(info.Now()), {currOrder} + Members(orderList))
    ensures Stopped(qs, side, price, old(info.orders)[currOrder].leftStock, k, v)
    ensures rest == orderList[k..]
  {
    hide Executing, Stopped, AllAccept, Opposed;
    ghost var c, start, all := info.orders[currOrder].leftStock, info.Now(), {currOrder} + Members(orderList);
    v, k := 0, 0;
    var firstNonZeroIndex, n := 0, 0;
    StartExecuting(info, price, currOrder, orderList, qs, side, c, start, all);
    while n < |orderList|
      invariant n <= |orderList| == |qs| && firstNonZeroIndex == n
      invariant Executing(info, price, currOrder, orderList, qs, side, c, v, start, all)
      invariant v == Upto(qs, n) < c && AllAccept(qs, side, price, n)
    {
      var stop;
      stop, firstNonZeroIndex, v := ExecuteTurn(info, price, currOrder, orderList, n, qs, side, c, v, start, all);
      if stop {
        k := firstNonZeroIndex;
        return orderList[firstNonZeroIndex..], k, v;
      }
      n := n + 1;
    }
    StoppedAtEnd(info, price, currOrder, orderList, qs, side, c, v, start, all);
    k := n;
    rest := orderList[firstNonZeroIndex..];
  }

  // ------------------------------------------------------------ one list against the other

  /** The whole list of one side in a matching round, of which `v` was traded at `price`: the
      first `i` orders are used up. */
  ghost predicate OnSide(orders: map<OrderID, Order>, list: seq<OrderID>, side: Side, symbol: string,
                         forbidden: Forbidden, q0: seq<Quote>, i: nat, v: int, price: int)
  {
    && SideList(orders, list, side, symbol, forbidden)
    && |q0| == |list| && Positive(q0) && BestFirst(q0, side)
    && Cleared(q0, Quotes(orders, list), i, v) && v <= Depth(q0, side, price)
  }

  lemma QuotesOfRest(orders: map<OrderID, Order>, list: seq<OrderID>, i: nat)
    requires i <= |list|
    ensures Quotes(orders, list)[i..] == Quotes(orders, list[i..])
  {
  }

  lemma RestOfSide(orders: map<OrderID, Order>, list: seq<OrderID>, side: Side, symbol: string, forbidden: Forbidden,
                   i: nat)
    requires SideList(orders, list, side, symbol, forbidden) && i <= |list|
    ensures SideList(orders, list[i..], side, symbol, forbidden)
  {
    forall k | 0 <= k < |list[i..]| ensures Matchable(orders, list[i..][k], side, symbol, forbidden) {
      assert Matchable(orders, list[i + k], side, symbol, forbidden);
    }
  }

  /** The quotes of a list after only its `i`-th order changed. */
  lemma HeadQuotes(before: map<OrderID, Order>, after: map<OrderID, Order>, list: seq<OrderID>, i: nat,
                   touched: set<OrderID>, left: int)
    requires i < |list| && Distinct(list) && SameTerms(after, before)
    requires forall k | 0 <= k < |list| :: list[k] in before && (k != i ==> list[k] !in touched)
    requires forall id | id in after && id !in touched :: after[id] == before[id]
    requires after[list[i]].leftStock == left
    ensures Quotes(after, list) == Quotes(before, list)[i := Quotes(before, list)[i].(amount := left)]
  {
    var a, b := Quotes(after, list), Quotes(before, list);
    forall k | 0 <= k < |list| ensures a[k] == b[i := b[i].(amount := left)][k] {
      assert a[k] == QuoteOf(after, list[k]) && b[k] == QuoteOf(before, list[k]);
    }
  }

  /** The quotes of a list after only orders from `j` on changed. */
  lemma TailQuotes(before: map<OrderID, Order>, after: map<OrderID, Order>, list: seq<OrderID>, j: nat,
                   touched: set<OrderID>)
    requires j <= |list| && SameTerms(after, before)
    requires forall k | 0 <= k < j :: list[k] in before && list[k] !in touched
    requires forall id | id in after && id !in touched :: after[id] == before[id]
    ensures Quotes(after, list) == Quotes(before, list)[..j] + Quotes(after, list[j..])
  {
    var a, b := Quotes(after, list), Quotes(before, list)[..j] + Quotes(after, list[j..]);
    forall k | 0 <= k < |list| ensures a[k] == b[k] {
      assert a[k] == QuoteOf(after, list[k]);
      if k < j {
        assert Quotes(before, list)[k] == QuoteOf(before, list[k]);
      } else {
        assert Quotes(after, list[j..])[k - j] == QuoteOf(after, list[j..][k - j]);
      }
    }
  }

  /** The lists of the two sides share no order. */
  lemma SidesApart(orders: map<OrderID, Order>, a: seq<OrderID>, b: seq<OrderID>, side: Side, symbol: string,
                   forbidden: Forbidden)
    requires SideList(orders, a, side, symbol, forbidden) && SideList(orders, b, Opposite(side), symbol, forbidden)
    ensures forall i, j | 0 <= i < |a| && 0 <= j < |b| :: a[i] != b[j]
  {
    forall i, j | 0 <= i < |a| && 0 <= j < |b| ensures a[i] != b[j] {
      assert Matchable(orders, a[i], side, symbol, forbidden)
             && Matchable(orders, b[j], Opposite(side), symbol, forbidden);
    }
  }

  /** The side whose first order was executed, afterwards. */
  lemma CurrSideDone(before: map<OrderID, Order>, after: map<OrderID, Order>, curr: seq<OrderID>, touched: set<OrderID>,
                     c0: seq<Quote>, i: nat, v: int, w: int, price: int, side: Side, symbol: string,
                     forbidden: Forbidden, ni: nat, nv: int)
    requires OnSide(before, curr, side, symbol, forbidden, c0, i, v, price) && i < |curr|
    requires forall n | 0 <= n < |curr| && n != i :: curr[n] !in touched
    requires SameTerms(after, before) && forall id | id in after && id !in touched :: after[id] == before[id]
    requires curr[i] in after && after[curr[i]].leftStock == before[curr[i]].leftStock - w
    requires 0 <= w <= before[curr[i]].leftStock && nv == v + w <= Depth(c0, side, price)
    requires ni == if after[curr[i]].leftStock == 0 then i + 1 else i
    ensures OnSide(after, curr, side, symbol, forbidden, c0, ni, nv, price)
  {
    var cq := Quotes(before, curr);
    StillOpposed(before, after, curr, side, symbol, forbidden);
    assert forall n | 0 <= n < |curr| :: Matchable(before, curr[n], side, symbol, forbidden);
    HeadQuotes(before, after, curr, i, touched, after[curr[i]].leftStock);
    assert cq[i] == QuoteOf(before, curr[i]);
    HeadCleared(c0, cq, i, v, w, Quotes(after, curr));
    assert Quotes(after, curr)[i] == QuoteOf(after, curr[i]);
  }

  /** The side that the order was executed against, afterwards. */
  lemma ListSideDone(before: map<OrderID, Order>, after: map<OrderID, Order>, list: seq<OrderID>, touched: set<OrderID>,
                     q0: seq<Quote>, j: nat, v: int, c: int, k: nat, w: int, price: int, side: Side, symbol: string,
                     forbidden: Forbidden, nj: nat, nv: int)
    requires OnSide(before, list, side, symbol, forbidden, q0, j, v, price) && j < |list|
    requires forall n | 0 <= n < j :: list[n] !in touched
    requires SameTerms(after, before) && forall id | id in after && id !in touched :: after[id] == before[id]
    requires Stopped(Quotes(before, list)[j..], side, price, c, k, w)
    requires Quotes(after, list[j..]) == Drain(Quotes(before, list)[j..], w)
    requires nj == j + k && nv == v + w <= Depth(q0, side, price)
    ensures OnSide(after, list, side, symbol, forbidden, q0, nj, nv, price)
  {
    StillOpposed(before, after, list, side, symbol, forbidden);
    assert forall n | 0 <= n < |list| :: Matchable(before, list[n], side, symbol, forbidden);
    var lq, next := Quotes(before, list), Quotes(after, list);
    assert next == lq[..j] + Drain(lq[j..], w) by { TailQuotes(before, after, list, j, touched); }
    TailCleared(q0, lq, j, v, side, price, c, k, w, next, nj, nv);
  }

  lemma RestOfRest(list: seq<OrderID>, j: nat, k: nat, n: nat)
    requires n == j + k <= |list|
    ensures list[j..][k..] == list[n..] && Members(list[j..]) <= Members(list)
  {
    forall id | id in Members(list[j..]) ensures id in Members(list) {
      var m :| 0 <= m < |list[j..]| && list[j..][m] == id;
      assert list[j + m] == id;
    }
  }

  /** What was dealt is within the depth of both sides. */
  lemma WithinDepths(orders: map<OrderID, Order>, curr: seq<OrderID>, list: seq<OrderID>, c0: seq<Quote>,
                     q0: seq<Quote>, i: nat, j: nat, v: int, k: nat, w: int, price: int, side: Side, symbol: string,
                     forbidden: Forbidden, nv: int)
    requires OnSide(orders, curr, Opposite(side), symbol, forbidden, c0, i, v, price) && i < |curr|
    requires OnSide(orders, list, side, symbol, forbidden, q0, j, v, price) && j < |list|
    requires Accepts(Opposite(side), c0[i].price, price) && curr[i] in orders && nv == v + w
    requires Stopped(Quotes(orders, list)[j..], side, price, orders[curr[i]].leftStock, k, w)
    ensures nv <= Depth(c0, Opposite(side), price) && nv <= Depth(q0, side, price)
  {
    var cq := Quotes(orders, curr);
    RemainingDepth(q0, Quotes(orders, list), j, v, side, price);
    RemainingDepth(c0, cq, i, v, Opposite(side), price);
    RestIsSorted(c0, cq, i, v, Opposite(side));
    assert cq[i] == QuoteOf(orders, curr[i]) && c0[i].price == cq[i].price;
    HeadWithinDepth(cq[i..], Opposite(side), price);
  }

  /** No other order of the two lists is touched. */
  lemma OthersAvoided(orders: map<OrderID, Order>, curr: seq<OrderID>, list: seq<OrderID>, i: nat, j: nat, side: Side,
                      symbol: string, forbidden: Forbidden, touched: set<OrderID>)
    requires SideList(orders, curr, Opposite(side), symbol, forbidden)
             && SideList(orders, list, side, symbol, forbidden)
    requires i < |curr| && j <= |list| && touched == {curr[i]} + Members(list[j..])
    ensures forall n | 0 <= n < |curr| && n != i :: curr[n] !in touched
    ensures forall n | 0 <= n < j :: list[n] !in touched
  {
    SidesApart(orders, list, curr, side, symbol, forbidden);
    forall n | 0 <= n < j ensures list[n] !in touched { NotInRest(list, n, j); }
    forall n | 0 <= n < |curr| && n != i ensures curr[n] !in touched {
      forall k | 0 <= k < |list[j..]| ensures list[j..][k] != curr[n] { assert list[j..][k] == list[j + k]; }
    }
  }

  lemma NotInRest(list: seq<OrderID>, n: nat, j: nat)
    requires Distinct(list) && n < j <= |list|
    ensures list[n] !in Members(list[j..])
  {
    forall k | 0 <= k < |list[j..]| ensures list[j..][k] != list[n] { assert list[j..][k] == list[j + k]; }
  }

  /** Half a turn of the loop of `ExecuteOrderList`: the first order of one list, `curr[i..]`,
      is executed against the other list, `list[j..]`. */
  method HalfTurn(info: InfoForDeal, price: nat, currList: seq<OrderID>, orderList: seq<OrderID>,
                  ghost curr: seq<OrderID>, ghost list: seq<OrderID>, ghost c0: seq<Quote>, ghost q0: seq<Quote>,
                  ghost i: nat, ghost j: nat, ghost v: int, ghost side: Side, ghost start: Point,
                  ghost all: set<OrderID>)
    returns (newCurr: seq<OrderID>, newList: seq<OrderID>, ghost ni: nat, ghost nj: nat, ghost nv: int)
    requires info.Consistent()
    requires OnSide(info.orders, curr, Opposite(side), info.symbol, info.bank.forbidden, c0, i, v, price) && i < |curr|
    requires OnSide(info.orders, list, side, info.symbol, info.bank.forbidden, q0, j, v, price) && j < |list|
    requires currList == curr[i..] && orderList == list[j..]
    requires Accepts(Opposite(side), c0[i].price, price) && Accepts(side, q0[j].price, price)
    requires all == Members(curr) + Members(list) && Dealt(start, info.Now(), all, price) && 0 <= v
             && (v > 0 ==> info.deals != start.deals)
    modifies info, info.bank`ledger
    ensures info.Consistent()
    ensures OnSide(info.orders, curr, Opposite(side), info.symbol, info.bank.forbidden, c0, ni, nv, price)
    ensures OnSide(info.orders, list, side, info.symbol, info.bank.forbidden, q0, nj, nv, price)
    ensures i <= ni <= |curr| && j <= nj <= |list| && newCurr == curr[ni..] && newList == list[nj..]
            && (i < ni || j < nj)
    ensures Dealt(start, info.Now(), all, price) && 0 <= nv && (nv > 0 ==> info.deals != start.deals)
  {
    var currOrder := currList[0];
    ghost var before, lq, now := info.orders, Quotes(info.orders, list), info.Now();
    ReadyToExecute(before, curr, list, c0, q0, i, j, v, price, side, info.symbol, info.bank.forbidden);
    ghost var k, w;
    newList, k, w := ExecuteOrder(info, price, currOrder, orderList, lq[j..], side);
    newCurr := currList;
    if info.orders[currOrder].leftStock == 0 { newCurr := currList[1..]; }
    nv, nj, ni := v + w, j + k, if info.orders[currOrder].leftStock == 0 then i + 1 else i;
    ghost var touched := {currOrder} + Members(orderList);
    OthersAvoided(before, curr, list, i, j, side, info.symbol, info.bank.forbidden, touched);
    WithinDepths(before, curr, list, c0, q0, i, j, v, k, w, price, side, info.symbol, info.bank.forbidden, nv);
    CurrSideDone(before, info.orders, curr, touched, c0, i, v, w, price, Opposite(side), info.symbol,
                 info.bank.forbidden, ni, nv);
    ListSideDone(before, info.orders, list, touched, q0, j, v, before[currOrder].leftStock, k, w, price, side,
                 info.symbol, info.bank.forbidden, nj, nv);
    RestOfRest(list, j, k, nj);
    RestOfRest(curr, i, 1, i + 1);
    TouchedWithin(curr, list, i, j, touched);
    DealtWider(now, info.Now(), touched, all, price);
    DealtTwice(start, now, info.Now(), all, price);
  }

  lemma ReadyToExecute(orders: map<OrderID, Order>, curr: seq<OrderID>, list: seq<OrderID>, c0: seq<Quote>,
                       q0: seq<Quote>, i: nat, j: nat, v: int, price: int, side: Side, symbol: string,
                       forbidden: Forbidden)
    requires OnSide(orders, curr, Opposite(side), symbol, forbidden, c0, i, v, price) && i < |curr|
    requires OnSide(orders, list, side, symbol, forbidden, q0, j, v, price) && j < |list|
    ensures Matchable(orders, curr[i], Opposite(side), symbol, forbidden)
    ensures orders[curr[i]].leftStock > 0 && orders[curr[i]].terms.price == c0[i].price
    ensures SideList(orders, list[j..], side, symbol, forbidden)
    ensures var qs := Quotes(orders, list)[j..]; qs == Quotes(orders, list[j..]) && Positive(qs) && BestFirst(qs, side)
    ensures Quotes(orders, list)[j].price == q0[j].price
  {
    var cq, lq := Quotes(orders, curr), Quotes(orders, list);
    assert Matchable(orders, curr[i], Opposite(side), symbol, forbidden);
    assert cq[i] == QuoteOf(orders, curr[i]);
    RestIsSorted(q0, lq, j, v, side);
    QuotesOfRest(orders, list, j);
    RestOfSide(orders, list, side, symbol, forbidden, j);
  }

  lemma TouchedWithin(curr: seq<OrderID>, list: seq<OrderID>, i: nat, j: nat, touched: set<OrderID>)
    requires i < |curr| && j <= |list| && touched == {curr[i]} + Members(list[j..])
    ensures touched <= Members(curr) + Members(list)
  {
    RestOfRest(list, j, 0, j);
    assert curr[i] in curr;
  }

  lemma HeadOfSide(orders: map<OrderID, Order>, list: seq<OrderID>, side: Side, symbol: string, forbidden: Forbidden,
                   q0: seq<Quote>, i: nat, v: int, price: int)
    requires OnSide(orders, list, side, symbol, forbidden, q0, i, v, price) && i < |list|
    ensures list[i] in orders && orders[list[i]].terms.price == q0[i].price && orders[list[i]].leftStock > 0
  {
    assert Matchable(orders, list[i], side, symbol, forbidden);
    assert Quotes(orders, list)[i] == QuoteOf(orders, list[i]);
  }

  /** When one side has nothing left that accepts the price, all its depth was traded. */
  lemma SideUsedUp(orders: map<OrderID, Order>, list: seq<OrderID>, side: Side, symbol: string, forbidden: Forbidden,
                   q0: seq<Quote>, i: nat, v: int, price: int)
    requires OnSide(orders, list, side, symbol, forbidden, q0, i, v, price)
    requires i < |list| ==> !Accepts(side, q0[i].price, price)
    ensures v == Depth(q0, side, price)
  {
    var cur := Quotes(orders, list);
    RemainingDepth(q0, cur, i, v, side, price);
    if i < |list| {
      RestIsSorted(q0, cur, i, v, side);
      assert cur[i].price == q0[i].price;
      UnwillingTail(cur[i..], side, price, 0);
      DepthIsPrefix(cur[i..], side, price, 0);
    }
  }

  /** Trades the two lists against each other at one price, as long as their first orders
      accept it: on both sides exactly the smaller depth is traded, in order of precedence. */
  method ExecuteOrderList(info: InfoForDeal, price: nat, bids: seq<OrderID>, asks: seq<OrderID>, ghost b0: seq<Quote>,
                          ghost a0: seq<Quote>)
    returns (newBidList: seq<OrderID>, newAskList: seq<OrderID>, ghost i: nat, ghost j: nat, ghost v: int)
    requires info.Consistent()
    requires OnSide(info.orders, bids, Bid, info.symbol, info.bank.forbidden, b0, 0, 0, price)
    requires OnSide(info.orders, asks, Ask, info.symbol, info.bank.forbidden, a0, 0, 0, price)
    modifies info, info.bank`ledger
    ensures info.Consistent()
    ensures OnSide(info.orders, bids, Bid, info.symbol, info.bank.forbidden, b0, i, v, price)
    ensures OnSide(info.orders, asks, Ask, info.symbol, info.bank.forbidden, a0, j, v, price)
    ensures v == Min(Depth(b0, Bid, price), Depth(a0, Ask, price))
    ensures newBidList == bids[i..] && newAskList == asks[j..]
    ensures Dealt(old(info.Now()), info.Now(), Members(bids) + Members(asks), price)
    ensures 0 <= v && (v > 0 ==> info.deals != old(info.deals))
  {
    ghost var start, all := info.Now(), Members(bids) + Members(asks);
    newBidList, newAskList, i, j, v := bids, asks, 0, 0, 0;
    while true
      invariant info.Consistent() && 0 <= v && (v > 0 ==> info.deals != start.deals)
      invariant OnSide(info.orders, bids, Bid, info.symbol, info.bank.forbidden, b0, i, v, price)
      invariant OnSide(info.orders, asks, Ask, info.symbol, info.bank.forbidden, a0, j, v, price)
      invariant i <= |bids| && j <= |asks| && newBidList == bids[i..] && newAskList == asks[j..]
      invariant Dealt(start, info.Now(), all, price)
      decreases |bids| - i + |asks| - j
    {
      var stop := NothingToTrade(info, price, bids, asks, newBidList, newAskList, b0, a0, i, j, v);
      if stop { return; }
      newBidList, newAskList, i, j, v := HalfTurn(info, price, newBidList, newAskList, bids, asks, b0, a0, i, j, v, Ask,
                                                  start, all);
      stop := NothingToTrade(info, price, bids, asks, newBidList, newAskList, b0, a0, i, j, v);
      if stop { return; }
      newAskList, newBidList, j, i, v := HalfTurn(info, price, newAskList, newBidList, asks, bids, a0, b0, j, i, v, Bid,
                                                  start, all);
    }
  }

  /** The exit test of `ExecuteOrderList`. */
  method NothingToTrade(info: InfoForDeal, price: nat, ghost bids: seq<OrderID>, ghost asks: seq<OrderID>,
                        bidList: seq<OrderID>, askList: seq<OrderID>, ghost b0: seq<Quote>, ghost a0: seq<Quote>,
                        ghost i: nat, ghost j: nat, ghost v: int)
    returns (stop: bool)
    requires OnSide(info.orders, bids, Bid, info.symbol, info.bank.forbidden, b0, i, v, price)
    requires OnSide(info.orders, asks, Ask, info.symbol, info.bank.forbidden, a0, j, v, price)
    requires i <= |bids| && j <= |asks| && bidList == bids[i..] && askList == asks[j..]
    ensures stop ==> v == Min(Depth(b0, Bid, price), Depth(a0, Ask, price))
    ensures !stop ==> i < |bids| && j < |asks| && Accepts(Bid, b0[i].price, price) && Accepts(Ask, a0[j].price, price)
  {
    if |askList| == 0 {
      SideUsedUp(info.orders, asks, Ask, info.symbol, info.bank.forbidden, a0, j, v, price);
      return true;
    }
    if |bidList| == 0 {
      SideUsedUp(info.orders, bids, Bid, info.symbol, info.bank.forbidden, b0, i, v, price);
      return true;
    }
    HeadOfSide(info.orders, bids, Bid, info.symbol, info.bank.forbidden, b0, i, v, price);
    HeadOfSide(info.orders, asks, Ask, info.symbol, info.bank.forbidden, a0, j, v, price);
    if info.orders[bidList[0]].terms.price < price {
      SideUsedUp(info.orders, bids, Bid, info.symbol, info.bank.forbidden, b0, i, v, price);
      return true;
    }
    if info.orders[askList[0]].terms.price > price {
      SideUsedUp(info.orders, asks, Ask, info.symbol, info.bank.forbidden, a0, j, v, price);
      return true;
    }
    stop := false;
  }
}
