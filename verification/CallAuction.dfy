/** The auction of one market: both lists are sorted, one price is chosen, and the book is
    cleared at it. */
module CallAuction {
  import opened Auction
  import opened ByteKeys
  import opened Slices
  import opened Pricing
  import opened Ledgers
  import opened Orders
  import opened Settlement
  import opened Matching

  /** Whether order `a` comes before order `b` in a sorted list: price first, then height, then
      the hash. */
  predicate Precede(orders: map<OrderID, Order>, tieBreak: OrderID -> int, a: OrderID, b: OrderID)
    requires a in orders && b in orders
  {
    var s, t := orders[a].terms, orders[b].terms;
    if (s.side == Ask && s.price < t.price) || (s.side == Bid && s.price > t.price) then true
    else if (s.side == Ask && s.price > t.price) || (s.side == Bid && s.price < t.price) then false
    else if s.height < t.height then true
    else if s.height > t.height then false
    else tieBreak(a) < tieBreak(b)
  }

  function PrecedeIn(orders: map<OrderID, Order>, tieBreak: OrderID -> int): (OrderID, OrderID) -> bool
  {
    (a, b) => a in orders && b in orders && Precede(orders, tieBreak, a, b)
  }

  lemma PrecedeOrders(orders: map<OrderID, Order>, tieBreak: OrderID -> int, list: seq<OrderID>, side: Side,
                      symbol: string, forbidden: Forbidden)
    requires SideList(orders, list, side, symbol, forbidden)
    ensures Ordering(PrecedeIn(orders, tieBreak), list)
  {
    forall a | a in list ensures Matchable(orders, a, side, symbol, forbidden) {
      var i :| 0 <= i < |list| && list[i] == a;
    }
  }

  method SortList(info: InfoForDeal, list: seq<OrderID>, ghost side: Side) returns (sorted: seq<OrderID>)
    requires SideList(info.orders, list, side, info.symbol, info.bank.forbidden)
    requires forall i | 0 <= i < |list| :: info.orders[list[i]].leftStock > 0
    ensures multiset(sorted) == multiset(list)
    ensures Sorted(PrecedeIn(info.orders, info.tieBreak), sorted)
    ensures SideList(info.orders, sorted, side, info.symbol, info.bank.forbidden)
    ensures Positive(Quotes(info.orders, sorted)) && BestFirst(Quotes(info.orders, sorted), side)
  {
    PrecedeOrders(info.orders, info.tieBreak, list, side, info.symbol, info.bank.forbidden);
    sorted := Sort(PrecedeIn(info.orders, info.tieBreak), list);
    SortedIsBestFirst(info.orders, info.tieBreak, list, sorted, side, info.symbol, info.bank.forbidden);
  }

  lemma SortedIsBestFirst(orders: map<OrderID, Order>, tieBreak: OrderID -> int, list: seq<OrderID>,
                          sorted: seq<OrderID>, side: Side, symbol: string, forbidden: Forbidden)
    requires SideList(orders, list, side, symbol, forbidden) && multiset(sorted) == multiset(list)
    requires forall i | 0 <= i < |list| :: orders[list[i]].leftStock > 0
    requires Sorted(PrecedeIn(orders, tieBreak), sorted)
    ensures SideList(orders, sorted, side, symbol, forbidden)
    ensures Positive(Quotes(orders, sorted)) && BestFirst(Quotes(orders, sorted), side)
  {
    SameElements(sorted, list);
    DistinctPermuted(sorted, list);
    forall i | 0 <= i < |sorted|
      ensures Matchable(orders, sorted[i], side, symbol, forbidden) && orders[sorted[i]].leftStock > 0
    {
      assert sorted[i] in list;
      var k :| 0 <= k < |list| && list[k] == sorted[i];
      assert Matchable(orders, list[k], side, symbol, forbidden);
    }
    var qs := Quotes(orders, sorted);
    assert forall i | 0 <= i < |sorted| :: qs[i] == QuoteOf(orders, sorted[i]);
    forall i, j | 0 <= i < j < |qs| ensures if side == Bid then qs[i].price >= qs[j].price
    else qs[i].price <= qs[j].price {
      assert !PrecedeIn(orders, tieBreak)(sorted[j], sorted[i]);
    }
  }

  method ReadQuotes(info: InfoForDeal, list: seq<OrderID>) returns (qs: seq<Quote>)
    requires info.Consistent() && forall i | 0 <= i < |list| :: list[i] in info.orders
    ensures qs == Quotes(info.orders, list)
  {
    qs := [];
    for i := 0 to |list|
      invariant |qs| == i && forall k | 0 <= k < i :: qs[k] == QuoteOf(info.orders, list[k])
    {
      var amount := info.GetAmount(list[i]);
      qs := qs + [Quote(info.orders[list[i]].terms.side, info.orders[list[i]].terms.price, amount)];
    }
  }

  lemma PricesFitKeys(info: InfoForDeal, list: seq<OrderID>)
    requires info.Consistent() && forall i | 0 <= i < |list| :: list[i] in info.orders
    ensures KeyedPrices(Quotes(info.orders, list))
  {
    RunKeepsSound(info.start, info.bank.forbidden, info.deals);
    MaxPriceFits();
    forall i | 0 <= i < |list| ensures 0 <= Quotes(info.orders, list)[i].price < Pow256(DEC_BYTE_COUNT) {
      assert Quotes(info.orders, list)[i] == QuoteOf(info.orders, list[i]);
      assert Sound(info.orders[list[i]]);
    }
  }

  lemma MaxPriceFits()
    ensures MAX_PRICE < Pow256(DEC_BYTE_COUNT)
  {
    assert Pow256(4) == 0x1_0000_0000;
    assert Pow256(8) == 0x1_0000_0000_0000_0000 by { assert Pow256(6) == 65536 * Pow256(4); }
    assert Pow256(16) == 0x1_0000_0000_0000_0000_0000_0000_0000_0000 by {
      assert Pow256(10) == 65536 * Pow256(8);
      assert Pow256(12) == 65536 * Pow256(10);
      assert Pow256(14) == 65536 * Pow256(12);
    }
    PowGrows(16, DEC_BYTE_COUNT);
  }

  lemma {:induction false} PowGrows(m: nat, n: nat)
    requires m <= n
    ensures Pow256(m) <= Pow256(n)
    decreases n
  {
    if m < n { PowGrows(m, n - 1); }
  }

  predicate Crossed(b0: seq<Quote>, a0: seq<Quote>)
  {
    |b0| > 0 && |a0| > 0 && a0[0].price <= b0[0].price
  }

  /** What is known of a price the auction chose for a crossed book. */
  lemma ChosenPrice(b0: seq<Quote>, a0: seq<Quote>, high: int, mid: int, low: int, p: int)
    requires Positive(b0) && Positive(a0) && BestFirst(b0, Bid) && BestFirst(a0, Ask) && Crossed(b0, a0)
    requires KeyedPrices(b0 + a0) && IsExecutionPrice(b0 + a0, high, mid, low, p)
    ensures 0 <= p && Volume(b0 + a0, p) > 0
    ensures Volume(b0 + a0, p) == Min(Depth(b0, Bid, p), Depth(a0, Ask, p))
    ensures Uncrossed(Drain(b0, Volume(b0 + a0, p)), Drain(a0, Volume(b0 + a0, p)))
  {
    var qs := b0 + a0;
    ExecutionPriceIsOptimal(qs, high, mid, low, p);
    VolumeOfTwoSides(b0, a0, p);
    OneRoundClears(b0, a0, p);
    DrainNothing(b0);
    DrainNothing(a0);
    CrossingMeansVolume(b0, a0, 0, 0, 0);
    assert Volume(qs, b0[0].price) <= Volume(qs, p);
    var l :| ListsBest(qs, l) && p == Chosen(qs, high, mid, low, l);
    var i, j := ChosenIsBetween(qs, high, mid, low, l);
    assert l[i] in l;
    assert IsBest(qs, l[i]);
    var k :| 0 <= k < |qs| && qs[k].price == l[i];
    assert 0 <= qs[k].price;
  }

  lemma HeadsCross(b0: seq<Quote>, a0: seq<Quote>, bq: seq<Quote>, aq: seq<Quote>, i: nat, j: nat, v: int)
    requires Cleared(b0, bq, i, v) && Cleared(a0, aq, j, v) && i < |b0| && j < |a0| && Uncrossed(bq, aq)
    ensures b0[i].price < a0[j].price
  {
    assert bq[i].amount > 0 && aq[j].amount > 0;
    assert bq[i] == DrainedAt(b0, v, i) && aq[j] == DrainedAt(a0, v, j);
  }

  lemma NothingTraded(orders: map<OrderID, Order>, list: seq<OrderID>, side: Side, symbol: string, forbidden: Forbidden,
                      p: int)
    requires SideList(orders, list, side, symbol, forbidden) && Positive(Quotes(orders, list))
             && BestFirst(Quotes(orders, list), side)
    ensures OnSide(orders, list, side, symbol, forbidden, Quotes(orders, list), 0, 0, p)
  {
    NothingCleared(Quotes(orders, list));
    DrainNothing(Quotes(orders, list));
    DepthNonNegative(Quotes(orders, list), side, p);
  }

  lemma SortedBookUncrossed(b0: seq<Quote>, a0: seq<Quote>)
    requires BestFirst(b0, Bid) && BestFirst(a0, Ask) && !Crossed(b0, a0)
    ensures Uncrossed(b0, a0)
  {
  }

  /** How the round ended: not at all, or with the whole volume traded at one price. */
  ghost predicate Ended(before: Point, after: Point, bids: seq<OrderID>, asks: seq<OrderID>, high: int, mid: int,
                        low: int, p: int)
  {
    var b0, a0 := Quotes(before.orders, bids), Quotes(before.orders, asks);
    if !Crossed(b0, a0) then after == before
    else
      var v := Volume(b0 + a0, p);
      && IsExecutionPrice(b0 + a0, high, mid, low, p)
      && Quotes(after.orders, bids) == Drain(b0, v) && Quotes(after.orders, asks) == Drain(a0, v)
      && Dealt(before, after, Members(bids) + Members(asks), p) && after.lastPrice == p
  }

  /** One pass of the loop of `Match`, on a crossed book: it clears the book at one price. */
  method Round(info: InfoForDeal, highPrice: int, midPrice: int, lowPrice: int, bids: seq<OrderID>, asks: seq<OrderID>)
    returns (bidList: seq<OrderID>, askList: seq<OrderID>, ghost p: int)
    requires info.Consistent()
    requires SideList(info.orders, bids, Bid, info.symbol, info.bank.forbidden)
             && SideList(info.orders, asks, Ask, info.symbol, info.bank.forbidden)
    requires Positive(Quotes(info.orders, bids)) && BestFirst(Quotes(info.orders, bids), Bid)
    requires Positive(Quotes(info.orders, asks)) && BestFirst(Quotes(info.orders, asks), Ask)
    requires Crossed(Quotes(info.orders, bids), Quotes(info.orders, asks))
    modifies info, info.bank`ledger
    ensures info.Consistent() && Ended(old(info.Now()), info.Now(), bids, asks, highPrice, midPrice, lowPrice, p)
    ensures Uncrossed(Quotes(info.orders, bids), Quotes(info.orders, asks))
    ensures |bidList| > 0 ==> bidList[0] in info.orders
    ensures |askList| > 0 ==> askList[0] in info.orders
    ensures |bidList| > 0 && |askList| > 0 ==> info.orders[bidList[0]].terms.price < info.orders[askList[0]].terms.price
  {
    hide Uncrossed, Drain, Depth, Volume, InfoForDeal.Consistent;
    ghost var b0, a0 := Quotes(info.orders, bids), Quotes(info.orders, asks);
    ListsAreOpen(info.orders, bids, asks, info.symbol, info.bank.forbidden);
    var quotes := ReadQuotes(info, bids + asks);
    assert quotes == b0 + a0 by { QuotesConcat(info.orders, bids, asks); }
    PricesFitKeys(info, bids + asks);
    var price := GetExecutionPrice(highPrice, midPrice, lowPrice, quotes);
    p := price;
    ChosenPrice(b0, a0, highPrice, midPrice, lowPrice, p);
    NothingTraded(info.orders, bids, Bid, info.symbol, info.bank.forbidden, p);
    NothingTraded(info.orders, asks, Ask, info.symbol, info.bank.forbidden, p);
    ghost var i, j, v;
    bidList, askList, i, j, v := ExecuteOrderList(info, price, bids, asks, b0, a0);
    RoundEnds(info.orders, bids, asks, info.symbol, info.bank.forbidden, b0, a0, i, j, v, p);
  }

  lemma QuotesConcat(orders: map<OrderID, Order>, a: seq<OrderID>, b: seq<OrderID>)
    ensures Quotes(orders, a + b) == Quotes(orders, a) + Quotes(orders, b)
  {
  }

  lemma ListsAreOpen(orders: map<OrderID, Order>, bids: seq<OrderID>, asks: seq<OrderID>, symbol: string,
                     forbidden: Forbidden)
    requires SideList(orders, bids, Bid, symbol, forbidden) && SideList(orders, asks, Ask, symbol, forbidden)
    ensures forall i | 0 <= i < |bids + asks| :: (bids + asks)[i] in orders
  {
    forall i | 0 <= i < |bids + asks| ensures (bids + asks)[i] in orders {
      if i < |bids| {
        assert Matchable(orders, bids[i], Bid, symbol, forbidden);
      } else {
        assert Matchable(orders, asks[i - |bids|], Ask, symbol, forbidden);
      }
    }
  }

  lemma RoundEnds(orders: map<OrderID, Order>, bids: seq<OrderID>, asks: seq<OrderID>, symbol: string,
                  forbidden: Forbidden, b0: seq<Quote>, a0: seq<Quote>, i: nat, j: nat, v: int, p: int)
    requires OnSide(orders, bids, Bid, symbol, forbidden, b0, i, v, p)
             && OnSide(orders, asks, Ask, symbol, forbidden, a0, j, v, p)
    requires Uncrossed(Drain(b0, v), Drain(a0, v))
    ensures i <= |bids| && j <= |asks|
    ensures i < |bids| ==> bids[i] in orders
    ensures j < |asks| ==> asks[j] in orders
    ensures i < |bids| && j < |asks| ==> orders[bids[i]].terms.price < orders[asks[j]].terms.price
  {
    if i < |bids| { HeadOfSide(orders, bids, Bid, symbol, forbidden, b0, i, v, p); }
    if j < |asks| { HeadOfSide(orders, asks, Ask, symbol, forbidden, a0, j, v, p); }
    if i < |bids| && j < |asks| {
      HeadsCross(b0, a0, Quotes(orders, bids), Quotes(orders, asks), i, j, v);
    }
  }

  /** The match of one market. The loop's body runs at most once: after one round no bid with
      something left reaches an ask with something left. So every deal is made at one price,
      which is best in volume and then in imbalance, and each side is filled in strict order of
      precedence. `bids` and `asks` are the two lists as they are sorted in place. */
  method Match(info: InfoForDeal, highPrice: int, midPrice: int, lowPrice: int, bidList: seq<OrderID>,
               askList: seq<OrderID>)
    returns (bids: seq<OrderID>, asks: seq<OrderID>, ghost p: int)
    requires info.Consistent()
    requires SideList(info.orders, bidList, Bid, info.symbol, info.bank.forbidden)
             && SideList(info.orders, askList, Ask, info.symbol, info.bank.forbidden)
    requires forall i | 0 <= i < |bidList| :: info.orders[bidList[i]].leftStock > 0
    requires forall i | 0 <= i < |askList| :: info.orders[askList[i]].leftStock > 0
    modifies info, info.bank`ledger
    ensures multiset(bids) == multiset(bidList) && Sorted(PrecedeIn(old(info.orders), info.tieBreak), bids)
    ensures multiset(asks) == multiset(askList) && Sorted(PrecedeIn(old(info.orders), info.tieBreak), asks)
    ensures info.Consistent() && Ended(old(info.Now()), info.Now(), bids, asks, highPrice, midPrice, lowPrice, p)
    ensures Uncrossed(Quotes(info.orders, bids), Quotes(info.orders, asks))
  {
    hide Ended, Uncrossed, Crossed, Sorted, Drain, Volume, InfoForDeal.Consistent, BestFirst;
    bids := SortList(info, bidList, Bid);
    asks := SortList(info, askList, Ask);
    ghost var before := info.Now();
    ghost var crossed := Crossed(Quotes(info.orders, bids), Quotes(info.orders, asks));
    p := 0;
    HeadsTell(info.orders, bids, asks, info.symbol, info.bank.forbidden);
    NothingToMatch(before, bids, asks, highPrice, midPrice, lowPrice, p);
    var restBids, restAsks := bids, asks;
    ghost var rounds := 0;
    while |restBids| != 0 && |restAsks| != 0
        && info.orders[restAsks[0]].terms.price <= info.orders[restBids[0]].terms.price
      invariant info.Consistent() && (rounds == 0 || rounds == 1)
      invariant |restBids| > 0 ==> restBids[0] in info.orders
      invariant |restAsks| > 0 ==> restAsks[0] in info.orders
      invariant rounds == 0 ==> restBids == bids && restAsks == asks && info.Now() == before
      invariant rounds == 1 || !crossed ==> Ended(before, info.Now(), bids, asks, highPrice, midPrice, lowPrice, p)
      invariant rounds == 1 || !crossed ==> Uncrossed(Quotes(info.orders, bids), Quotes(info.orders, asks))
      invariant rounds == 1 && |restBids| > 0 && |restAsks| > 0 ==>
                info.orders[restBids[0]].terms.price < info.orders[restAsks[0]].terms.price
      decreases 1 - rounds
    {
      restBids, restAsks, p := Round(info, highPrice, midPrice, lowPrice, restBids, restAsks);
      rounds := 1;
    }
  }

  lemma HeadsTell(orders: map<OrderID, Order>, bids: seq<OrderID>, asks: seq<OrderID>, symbol: string,
                  forbidden: Forbidden)
    requires SideList(orders, bids, Bid, symbol, forbidden) && SideList(orders, asks, Ask, symbol, forbidden)
    ensures |bids| > 0 ==> bids[0] in orders
    ensures |asks| > 0 ==> asks[0] in orders
    ensures Crossed(Quotes(orders, bids), Quotes(orders, asks))
       <==> |bids| > 0 && |asks| > 0 && orders[asks[0]].terms.price <= orders[bids[0]].terms.price
  {
    if |bids| > 0 {
      assert Matchable(orders, bids[0], Bid, symbol, forbidden);
      assert Quotes(orders, bids)[0] == QuoteOf(orders, bids[0]);
    }
    if |asks| > 0 {
      assert Matchable(orders, asks[0], Ask, symbol, forbidden);
      assert Quotes(orders, asks)[0] == QuoteOf(orders, asks[0]);
    }
  }

  lemma NothingToMatch(at: Point, bids: seq<OrderID>, asks: seq<OrderID>, high: int, mid: int, low: int, p: int)
    requires BestFirst(Quotes(at.orders, bids), Bid) && BestFirst(Quotes(at.orders, asks), Ask)
    ensures !Crossed(Quotes(at.orders, bids), Quotes(at.orders, asks)) ==>
              Ended(at, at, bids, asks, high, mid, low, p)
                  && Uncrossed(Quotes(at.orders, bids), Quotes(at.orders, asks))
  {
    if !Crossed(Quotes(at.orders, bids), Quotes(at.orders, asks)) {
      SortedBookUncrossed(Quotes(at.orders, bids), Quotes(at.orders, asks));
    }
  }
}
