/** One market's turn at the end of a block: candidates are fetched and filtered, matched, and
    the orders that need further processing are collected. Nothing is written back yet. */
module MatchRun {
  import opened Auction
  import opened ByteKeys
  import opened CallAuction
  import opened Decimals
  import opened KVStores
  import opened Ledgers
  import opened Matching
  import opened OrderEntry
  import opened Orders
  import opened OrderStore
  import opened Overlays
  import opened Settlement
  import opened Slices
  import opened StoreKeys
  import opened WholeBook

  /** `some` are orders of `all`, each at most once. */
  ghost predicate Among(some: seq<Order>, all: seq<Order>)
  {
    Distinct(Ids(some)) && forall o | o in some :: o in all
  }

  method FilterCandidates(forbidden: Forbidden, ordersIn: seq<Order>, symbol: string) returns (ordersOut: seq<Order>)
    requires Distinct(Ids(ordersIn))
    ensures Among(ordersOut, ordersIn)
    ensures forall o | o in ordersIn :: o in ordersOut <==> !Barred(forbidden, symbol, o.terms.sender)
  {
    ordersOut := [];
    for i := 0 to |ordersIn|
      invariant Among(ordersOut, ordersIn[..i])
      invariant forall o | o in ordersIn[..i] :: o in ordersOut <==> !Barred(forbidden, symbol, o.terms.sender)
    {
      var order := ordersIn[i];
      assert ordersIn[..i + 1] == ordersIn[..i] + [order];
      if !(Forbids(forbidden, StockOf(symbol), order.terms.sender)
           || Forbids(forbidden, MoneyOf(symbol), order.terms.sender)) {
        NewcomerIsDistinct(ordersOut, ordersIn, i);
        ordersOut := ordersOut + [order];
      }
    }
    assert ordersIn[..|ordersIn|] == ordersIn;
  }

  lemma NewcomerIsDistinct(some: seq<Order>, all: seq<Order>, i: nat)
    requires Distinct(Ids(all)) && i < |all| && Among(some, all[..i])
    ensures Distinct(Ids(some + [all[i]]))
  {
    var grown := some + [all[i]];
    forall j, k | 0 <= j < k < |grown| ensures Ids(grown)[j] != Ids(grown)[k] {
      if k < |some| {
        assert Ids(some)[j] != Ids(some)[k];
      } else {
        assert some[j] in all[..i];
        var n :| 0 <= n < i && all[n] == some[j];
        assert Ids(all)[n] != Ids(all)[i];
      }
    }
  }

  /** The orders by identifier, and the identifiers of each side. */
  ghost predicate Wrapped(os: seq<Order>, orders: map<OrderID, Order>, bids: seq<OrderID>, asks: seq<OrderID>)
  {
    && (forall id :: id in orders <==> id in Ids(os))
    && (forall i | 0 <= i < |os| :: os[i].terms.id in orders && orders[os[i].terms.id] == os[i])
    && Distinct(bids) && Distinct(asks)
    && (forall id :: id in bids <==> id in orders && orders[id].terms.side == Bid)
    && (forall id :: id in asks <==> id in orders && orders[id].terms.side == Ask)
  }

  method Wrap(os: seq<Order>) returns (orders: map<OrderID, Order>, bids: seq<OrderID>, asks: seq<OrderID>)
    requires Distinct(Ids(os))
    ensures Wrapped(os, orders, bids, asks)
  {
    orders, bids, asks := map[], [], [];
    for i := 0 to |os|
      invariant Wrapped(os[..i], orders, bids, asks)
    {
      var order := os[i];
      assert order.terms.id !in Ids(os[..i]);
      WrapOne(os[..i], order, orders, bids, asks);
      assert os[..i + 1] == os[..i] + [order];
      orders := orders[order.terms.id := order];
      if order.terms.side == Bid {
        bids := bids + [order.terms.id];
      } else {
        asks := asks + [order.terms.id];
      }
    }
    assert os[..|os|] == os;
  }

  lemma WrapOne(os: seq<Order>, o: Order, orders: map<OrderID, Order>, bids: seq<OrderID>, asks: seq<OrderID>)
    requires Wrapped(os, orders, bids, asks) && o.terms.id !in Ids(os)
    ensures if o.terms.side == Bid then Wrapped(os + [o], orders[o.terms.id := o], bids + [o.terms.id], asks)
            else Wrapped(os + [o], orders[o.terms.id := o], bids, asks + [o.terms.id])
  {
    assert Ids(os + [o]) == Ids(os) + [o.terms.id];
  }

  /** Everything the market's turn starts from: the stored book, and the orders that earlier
      markets of the same block have changed but not yet written back. */
  ghost predicate Ready(x: Exchange, book: Book, pending: Book, symbol: string)
  {
    && Solvent(x) && x.orders == book + pending
    && (forall id | id in pending ::
        id in book && pending[id].terms.symbol != symbol && book[id].terms == pending[id].terms)
    && (forall id | id in book :: book[id].leftStock > 0)
  }

  /** The orders that go into the auction. */
  ghost predicate Chosen(orders: Book, book: Book, symbol: string, forbidden: Forbidden)
  {
    && (forall id ::
        id in orders <==> id in Candidates(book, symbol) && !Barred(forbidden, symbol, book[id].terms.sender))
    && (forall id | id in orders :: orders[id] == book[id])
  }

  lemma ChosenFromCandidates(all: seq<Order>, some: seq<Order>, orders: Book, bids: seq<OrderID>, asks: seq<OrderID>,
                             book: Book, symbol: string, forbidden: Forbidden)
    requires Lists(all, book, Candidates(book, symbol)) && Among(some, all)
    requires forall o | o in all :: o in some <==> !Barred(forbidden, symbol, o.terms.sender)
    requires Wrapped(some, orders, bids, asks)
    ensures Chosen(orders, book, symbol, forbidden)
  {
    forall id ensures id in orders <==>
        id in Candidates(book, symbol) && !Barred(forbidden, symbol, book[id].terms.sender) {
      if id in orders {
        var i :| 0 <= i < |some| && Ids(some)[i] == id;
        assert some[i] in some && some[i] in all;
        var j :| 0 <= j < |all| && all[j] == some[i];
        assert Ids(all)[j] in Ids(all);
      }
      if id in Candidates(book, symbol) && !Barred(forbidden, symbol, book[id].terms.sender) {
        assert id in Ids(all);
        var j :| 0 <= j < |all| && Ids(all)[j] == id;
        assert all[j] in all && all[j] in some;
        var i :| 0 <= i < |some| && some[i] == all[j];
        assert Ids(some)[i] == id;
      }
    }
    forall id | id in orders ensures orders[id] == book[id] {
      var i :| 0 <= i < |some| && Ids(some)[i] == id;
      assert some[i] in some && some[i] in all;
    }
  }

  lemma ChosenIsPart(orders: Book, x: Exchange, book: Book, pending: Book, symbol: string, forbidden: Forbidden)
    requires Ready(x, book, pending, symbol) && Chosen(orders, book, symbol, forbidden)
    ensures IsPart(orders, x.orders) && AllSound(orders)
    ensures forall id | id in orders :: orders[id].leftStock > 0
  {
    hide Sound, Meets;
    forall id | id in orders ensures id in x.orders && x.orders[id] == orders[id] {
      assert id in Candidates(book, symbol);
    }
  }

  lemma ChosenLists(some: seq<Order>, orders: Book, bids: seq<OrderID>, asks: seq<OrderID>, book: Book, symbol: string,
                    forbidden: Forbidden)
    requires Wrapped(some, orders, bids, asks) && Chosen(orders, book, symbol, forbidden)
    ensures SideList(orders, bids, Bid, symbol, forbidden) && SideList(orders, asks, Ask, symbol, forbidden)
    ensures forall i | 0 <= i < |bids| :: bids[i] in orders
    ensures forall i | 0 <= i < |asks| :: asks[i] in orders
  {
    forall i | 0 <= i < |bids| ensures Matchable(orders, bids[i], Bid, symbol, forbidden) {
      assert bids[i] in bids;
      assert bids[i] in Candidates(book, symbol);
    }
    forall i | 0 <= i < |asks| ensures Matchable(orders, asks[i], Ask, symbol, forbidden) {
      assert asks[i] in asks;
      assert asks[i] in Candidates(book, symbol);
    }
  }

  // ------------------------------------------------------------ after the match

  /** The orders to be written back: those that dealt, as they are now, and the immediate-or-cancel
      orders of this block. */
  ghost predicate Collected(updates: Book, orders: Book, changed: set<OrderID>, book: Book, symbol: string, height: int)
  {
    && (forall id ::
        id in updates <==> id in changed || (id in AtHeight(book, symbol, height) && book[id].terms.timeInForce == IOC))
    && (forall id | id in updates ::
        if id in changed then id in orders && updates[id] == orders[id] else updates[id] == book[id])
  }

  method CollectUpdates(info: InfoForDeal, atHeight: seq<Order>, ghost book: Book, ghost height: int)
    returns (updates: Book)
    requires info.changedOrders <= info.orders.Keys
    requires Lists(atHeight, book, AtHeight(book, info.symbol, height))
    ensures Collected(updates, info.orders, info.changedOrders, book, info.symbol, height)
  {
    updates := map id | id in info.changedOrders :: info.orders[id];
    for i := 0 to |atHeight|
      invariant forall id ::
                id in updates <==>
                    id in info.changedOrders || (id in Ids(atHeight)[..i] && book[id].terms.timeInForce == IOC)
      invariant forall id | id in updates ::
                if id in info.changedOrders then updates[id] == info.orders[id] else updates[id] == book[id]
    {
      var order := atHeight[i];
      assert Ids(atHeight)[..i + 1] == Ids(atHeight)[..i] + [order.terms.id];
      assert order.terms.id in Ids(atHeight);
      if order.terms.timeInForce == IOC {
        if order.terms.id !in updates { updates := updates[order.terms.id := order]; }
      }
    }
    assert Ids(atHeight)[..|atHeight|] == Ids(atHeight);
  }

  /** Laying the collected orders over the book gives what laying all matched orders over it
      gives: the others did not change. */
  lemma CollectedOverlay(updates: Book, start: Book, after: Book, changed: set<OrderID>, book: Book, pending: Book,
                         symbol: string, height: int)
    requires SameTerms(after, start) && forall id | id in after && id !in changed :: after[id] == start[id]
    requires Collected(updates, after, changed, book, symbol, height)
    requires IsPart(start, book) && forall id | id in pending :: id in book && book[id].terms.symbol != symbol
    requires forall id | id in start :: start[id].terms.symbol == symbol
    ensures (book + pending) + updates == (book + pending) + after
    ensures updates.Keys <= book.Keys
    ensures forall id | id in updates :: updates[id].terms == book[id].terms && updates[id].terms.symbol == symbol
  {
    forall id | id in updates && id !in changed ensures id in book && book[id].terms.symbol == symbol {
      assert id in AtHeight(book, symbol, height);
    }
  }

  lemma RunLeavesRest(start: Exchange, forbidden: Forbidden, deals: seq<Deal>)
    ensures var after := Replay(start, forbidden, deals).orders;
            SameTerms(after, start.orders) && forall id | id in after && id !in Parties(deals) ::
                after[id] == start.orders[id]
  {
    var after := Replay(start, forbidden, deals).orders;
    RunKeepsTerms(start, forbidden, deals);
    forall id | id in after && id !in Parties(deals) ensures after[id] == start.orders[id] {
      RunTouchesParties(start, forbidden, deals, id);
    }
  }

  lemma {:induction false} PartiesAreOrders(start: Exchange, forbidden: Forbidden, deals: seq<Deal>)
    requires ValidRun(start, forbidden, deals)
    ensures Parties(deals) <= Replay(start, forbidden, deals).orders.Keys
  {
    RunKeepsTerms(start, forbidden, deals);
    if deals != [] {
      PartiesAreOrders(start, forbidden, deals[..|deals| - 1]);
      RunKeepsTerms(start, forbidden, deals[..|deals| - 1]);
    }
  }

  // ------------------------------------------------------------ the whole market

  /** The match, as seen by the whole book of the market: what `MarketCleared` says of any
      listing of its two sides in order of precedence. */
  ghost predicate ClearsTheMarket(book: Book, after: Book, symbol: string, tieBreak: OrderID -> int, high: int,
                                  mid: int, low: int, p: int)
  {
    forall bids, asks | SideOfBook(bids, book, Bid, symbol, tieBreak)
        && SideOfBook(asks, book, Ask, symbol, tieBreak) ::
      MarketCleared(book, after, bids, asks, high, mid, low, p)
  }

  lemma ListIsSide(orders: Book, book: Book, list: seq<OrderID>, sorted: seq<OrderID>, side: Side, symbol: string,
                   tieBreak: OrderID -> int)
    requires orders == CandidateOrders(book, symbol) && Distinct(list) && multiset(sorted) == multiset(list)
    requires forall id :: id in list <==> id in orders && orders[id].terms.side == side
    requires Sorted(PrecedeIn(orders, tieBreak), sorted)
    ensures SideOfCandidates(sorted, book, side, symbol, tieBreak)
  {
    SameElements(sorted, list);
    DistinctPermuted(sorted, list);
    forall i, j | 0 <= i < j < |sorted| ensures !PrecedeIn(book, tieBreak)(sorted[j], sorted[i]) {
      assert sorted[i] in sorted && sorted[j] in sorted;
      assert !PrecedeIn(orders, tieBreak)(sorted[j], sorted[i]);
    }
  }

  lemma WholeMarketCleared(orders: Book, book: Book, symbol: string, forbidden: Forbidden, tieBreak: OrderID -> int,
                           some: seq<Order>, bidList: seq<OrderID>, askList: seq<OrderID>, bids: seq<OrderID>,
                           asks: seq<OrderID>, before: Point, after: Point, high: int, mid: int, low: int, p: int)
    requires Chosen(orders, book, symbol, forbidden) && Wrapped(some, orders, bidList, askList)
    requires forall id | id in Candidates(book, symbol) :: !Barred(forbidden, symbol, book[id].terms.sender)
    requires Unambiguous(book, tieBreak) && forall id | id in book :: book[id].leftStock > 0
    requires multiset(bids) == multiset(bidList) && Sorted(PrecedeIn(orders, tieBreak), bids)
    requires multiset(asks) == multiset(askList) && Sorted(PrecedeIn(orders, tieBreak), asks)
    requires before.orders == orders && SameTerms(after.orders, orders)
             && Ended(before, after, bids, asks, high, mid, low, p)
    ensures ClearsTheMarket(book, book + after.orders, symbol, tieBreak, high, mid, low, after.lastPrice)
  {
    hide SideOfBook, SideOfCandidates, Unambiguous, Meets, Sorted, MarketCleared, IsExecutionPrice, Dealt;
    assert orders == CandidateOrders(book, symbol);
    ListIsSide(orders, book, bidList, bids, Bid, symbol, tieBreak);
    ListIsSide(orders, book, askList, asks, Ask, symbol, tieBreak);
    forall wholeBids, wholeAsks | SideOfBook(wholeBids, book, Bid, symbol, tieBreak)
        && SideOfBook(wholeAsks, book, Ask, symbol, tieBreak)
      ensures MarketCleared(book, book + after.orders, wholeBids, wholeAsks, high, mid, low, after.lastPrice)
    {
      CandidatesMatchTheMarket(book, symbol, tieBreak, wholeBids, wholeAsks, bids, asks, before, after, high, mid, low,
                               after.lastPrice);
    }
  }

  /** No two orders of a market that still have something left, and whose senders may trade,
      reach each other's price. */
  ghost predicate Quiet(book: Book, symbol: string, forbidden: Forbidden)
  {
    forall b, a | Tradable(book, b, Bid, symbol, forbidden) && Tradable(book, a, Ask, symbol, forbidden) ::
      book[b].terms.price < book[a].terms.price
  }

  predicate Tradable(book: Book, id: OrderID, side: Side, symbol: string, forbidden: Forbidden)
  {
    id in book && InIndex(List, side, symbol, book[id].terms) && book[id].leftStock > 0
        && !Barred(forbidden, symbol, book[id].terms.sender)
  }

  /** Two tradable orders that reach each other are both candidates, so the match saw them. */
  lemma MatchQuietens(orders: Book, book: Book, after: Book, symbol: string, forbidden: Forbidden, some: seq<Order>,
                      bidList: seq<OrderID>, askList: seq<OrderID>, bids: seq<OrderID>, asks: seq<OrderID>)
    requires Chosen(orders, book, symbol, forbidden) && Wrapped(some, orders, bidList, askList)
    requires multiset(bids) == multiset(bidList) && multiset(asks) == multiset(askList)
    requires SameTerms(after, orders) && forall id | id in book :: book[id].leftStock > 0
    requires Uncrossed(Quotes(after, bids), Quotes(after, asks))
    ensures Quiet(book + after, symbol, forbidden)
  {
    var whole := book + after;
    SameElements(bids, bidList);
    SameElements(asks, askList);
    forall b, a | Tradable(whole, b, Bid, symbol, forbidden) && Tradable(whole, a, Ask, symbol, forbidden)
      ensures whole[b].terms.price < whole[a].terms.price
    {
      ChosenIsStored(orders, book, after, symbol, forbidden, b);
      ChosenIsStored(orders, book, after, symbol, forbidden, a);
      assert whole[b].terms.price >= whole[a].terms.price ==>
             b in Candidates(book, symbol) && a in Candidates(book, symbol);
      if b in bids && a in asks { UncrossedPair(after, bids, asks, b, a); }
    }
  }

  lemma UncrossedPair(after: Book, bids: seq<OrderID>, asks: seq<OrderID>, b: OrderID, a: OrderID)
    requires Uncrossed(Quotes(after, bids), Quotes(after, asks)) && b in bids && a in asks
    requires b in after && a in after && after[b].leftStock > 0 && after[a].leftStock > 0
    ensures after[b].terms.price < after[a].terms.price
  {
    var i :| 0 <= i < |bids| && bids[i] == b;
    var j :| 0 <= j < |asks| && asks[j] == a;
    assert Quotes(after, bids)[i] == QuoteOf(after, b) && Quotes(after, asks)[j] == QuoteOf(after, a);
  }

  lemma ChosenIsStored(orders: Book, book: Book, after: Book, symbol: string, forbidden: Forbidden, id: OrderID)
    requires Chosen(orders, book, symbol, forbidden) && SameTerms(after, orders) && id in book + after
    ensures id in book && (book + after)[id].terms == book[id].terms
  {
    if id in after { assert id in Candidates(book, symbol); }
  }

  function LowPrice(mid: Dec, ratio: int): Dec { Quo(Mul(mid, NewDec(100 - ratio)), NewDec(100)) }

  function HighPrice(mid: Dec, ratio: int): Dec { Quo(Mul(mid, NewDec(100 + ratio)), NewDec(100)) }

  /** The reference prices lie `ratio` percent above and below the last price, to the nearest
      unit of the last digit. */
  lemma ReferencePrices(mid: Dec, ratio: int)
    requires 0 <= mid && 0 <= ratio
    ensures -50 <= 100 * HighPrice(mid, ratio) - (100 + ratio) * mid <= 50 && mid <= HighPrice(mid, ratio)
    ensures ratio <= 100 ==>
              -50 <= 100 * LowPrice(mid, ratio) - (100 - ratio) * mid <= 50 && 0 <= LowPrice(mid, ratio) <= mid
  {
    hide Quo, Mul;
    MulWhole(mid, 100 + ratio);
    MulMonotone(100, 100 + ratio, mid);
    Hundredths(mid * (100 + ratio));
    if ratio <= 100 {
      MulWhole(mid, 100 - ratio);
      MulMonotone(100 - ratio, 100, mid);
      MulMonotone(0, 100 - ratio, mid);
      Hundredths(mid * (100 - ratio));
    }
  }

  lemma Hundredths(a: Dec)
    requires 0 <= a
    ensures -50 <= 100 * Quo(a, NewDec(100)) - a <= 50
  {
    QuoByWhole(a, 100);
    var part := ONE / 100;
    assert a * ONE == (a * part) * 100;
    DivCancel(a * part, 100);
    ChopNear(a * part);
  }

  ghost predicate NobodyBarred(book: Book, symbol: string, forbidden: Forbidden)
  {
    forall id | id in Candidates(book, symbol) :: !Barred(forbidden, symbol, book[id].terms.sender)
  }

  /** An immediate-or-cancel order of this block. */
  predicate IsFresh(o: Order, height: int) { o.terms.timeInForce == IOC && o.terms.height == height }

  /** The market's changed orders: those that dealt, and the immediate-or-cancel ones of this block. */
  ghost predicate ListsChanged(list: Book, book: Book, symbol: string, height: int, dealt: set<OrderID>)
  {
    forall id ::
        id in list <==> id in book && book[id].terms.symbol == symbol && (id in dealt || IsFresh(book[id], height))
  }

  /** What is due after a market's turn: the changed orders over the book are as solvent as the
      book was, and the immediate-or-cancel orders of the block are among them. */
  ghost predicate Turned(book: Book, pending: Book, before: Ledger, updates: Book, after: Ledger, symbol: string,
                         height: int, dealt: set<OrderID>)
  {
    && updates.Keys <= book.Keys
    && (forall id | id in updates :: updates[id].terms == book[id].terms && updates[id].terms.symbol == symbol)
    && Solvent(Exchange(book + pending + updates, after))
    && SameSurplus(Exchange(book + pending, before), Exchange(book + pending + updates, after))
    && ListsChanged(updates, book, symbol, height, dealt) && dealt <= updates.Keys
  }

  lemma TurnOverlay(orders: Book, book: Book, pending: Book, start: Exchange, deals: seq<Deal>, forbidden: Forbidden,
                    updates: Book, symbol: string, height: int)
    requires Chosen(orders, book, symbol, forbidden) && start.orders == orders
    requires forall id | id in pending :: id in book && book[id].terms.symbol != symbol
    requires Collected(updates, Replay(start, forbidden, deals).orders, Parties(deals), book, symbol, height)
    ensures var after := Replay(start, forbidden, deals).orders;
            (book + pending) + updates == (book + pending) + after && book + updates == book + after
                && SameTerms(after, orders)
    ensures updates.Keys <= book.Keys
    ensures forall id | id in updates :: updates[id].terms == book[id].terms && updates[id].terms.symbol == symbol
  {
    hide Meets, Collected;
    var after := Replay(start, forbidden, deals).orders;
    RunLeavesRest(start, forbidden, deals);
    forall id | id in orders ensures orders[id].terms.symbol == symbol && id in book && orders[id] == book[id] {
      assert id in Candidates(book, symbol);
    }
    CollectedOverlay(updates, orders, after, Parties(deals), book, pending, symbol, height);
    CollectedOverlay(updates, orders, after, Parties(deals), book, map[], symbol, height);
    assert book + map[] == book;
  }

  lemma TurnEnds(orders: Book, book: Book, pending: Book, before: Ledger, after: Exchange, deals: seq<Deal>,
                 forbidden: Forbidden, updates: Book, symbol: string, height: int)
    requires Ready(Exchange(book + pending, before), book, pending, symbol) && Chosen(orders, book, symbol, forbidden)
    requires ValidRun(Exchange(orders, before), forbidden, deals)
             && after == Replay(Exchange(orders, before), forbidden, deals)
    requires Collected(updates, after.orders, Parties(deals), book, symbol, height)
    ensures Turned(book, pending, before, updates, after.ledger, symbol, height, Parties(deals))
    ensures book + updates == book + after.orders && SameTerms(after.orders, orders)
  {
    hide Solvent, SameSurplus, Meets, Sound, Chosen, SameTerms;
    var x := Exchange(book + pending, before);
    ChosenIsPart(orders, x, book, pending, symbol, forbidden);
    PartRunKeepsSolvent(x, orders, forbidden, deals);
    TurnOverlay(orders, book, pending, Exchange(orders, before), deals, forbidden, updates, symbol, height);
  }

  lemma EndedAtOnePrice(before: Point, after: Point, bids: seq<OrderID>, asks: seq<OrderID>, high: int, mid: int,
                        low: int, p: int)
    requires Ended(before, after, bids, asks, high, mid, low, p) && before.deals == [] && before.lastPrice == 0
    ensures AllAt(after.deals, 0, after.lastPrice) && (after.lastPrice != 0 ==> after.deals != [])
  {
    hide IsExecutionPrice, Crossed;
  }

  /** What the deals of one market's turn made of the exchange, with the changed orders over the
      book: the replay of valid deals of this market, all at the price that is returned. */
  ghost predicate TurnTraded(book: Book, pending: Book, before: Ledger, updates: Book, after: Ledger,
                             forbidden: Forbidden, deals: seq<Deal>, symbol: string, price: Dec)
  {
    var x := Exchange(book + pending, before);
    && ValidRun(x, forbidden, deals) && Replay(x, forbidden, deals) == Exchange((book + pending) + updates, after)
    && (forall i | 0 <= i < |deals| ::
        deals[i].price == price && deals[i].buyer in book && book[deals[i].buyer].terms.symbol == symbol)
    && (price != 0 <==> deals != [])
    && (deals != [] ==> |updates| > 0)
  }

  lemma TurnTrades(orders: Book, book: Book, pending: Book, before: Ledger, after: Exchange, deals: seq<Deal>,
                   forbidden: Forbidden, updates: Book, symbol: string, height: int, price: Dec)
    requires Ready(Exchange(book + pending, before), book, pending, symbol) && Chosen(orders, book, symbol, forbidden)
    requires ValidRun(Exchange(orders, before), forbidden, deals)
             && after == Replay(Exchange(orders, before), forbidden, deals)
    requires Collected(updates, after.orders, Parties(deals), book, symbol, height)
    requires AllAt(deals, 0, price) && (price != 0 ==> deals != [])
    ensures TurnTraded(book, pending, before, updates, after.ledger, forbidden, deals, symbol, price)
  {
    hide Solvent, SameSurplus, Meets, SameTerms, Apply, Replay, ValidRun, Sound;
    var x := Exchange(book + pending, before);
    ChosenIsPart(orders, x, book, pending, symbol, forbidden);
    PartRunIsRun(x, orders, forbidden, deals);
    TurnOverlay(orders, book, pending, Exchange(orders, before), deals, forbidden, updates, symbol, height);
    forall i | 0 <= i < |deals| ensures deals[i].buyer in book && book[deals[i].buyer].terms.symbol == symbol
        && deals[i].price > 0 {
      RunDeals(Exchange(orders, before), forbidden, deals, i);
      assert deals[i].buyer in Candidates(book, symbol);
    }
    if deals != [] { assert deals[|deals| - 1].buyer in updates; }
  }

  method RunMatch(bank: Bank, store: KVStore<Value>, symbol: string, tieBreak: OrderID -> int, midPrice: Dec,
                  ratio: int, height: nat, ghost book: Book, ghost pending: Book)
    returns (updates: Book, newPrice: Dec, ghost deals: seq<Deal>)
    requires Indexed(store.data, book) && ZeroFree(symbol) && height + 1 < Pow256(HEIGHT_BYTES)
    requires Ready(Exchange(book + pending, bank.ledger), book, pending, symbol)
    modifies store, bank`ledger
    ensures store.data == old(store.data) - {MarkKey(symbol)} && Indexed(store.data, book)
    ensures Turned(book, pending, old(bank.ledger), updates, bank.ledger, symbol, height, Parties(deals))
    ensures TurnTraded(book, pending, old(bank.ledger), updates, bank.ledger, bank.forbidden, deals, symbol, newPrice)
    ensures Quiet(book + updates, symbol, bank.forbidden)
    ensures NobodyBarred(book, symbol, bank.forbidden) && Unambiguous(book, tieBreak) ==>
              ClearsTheMarket(book, book + updates, symbol, tieBreak, HighPrice(midPrice, ratio), midPrice,
                              LowPrice(midPrice, ratio), newPrice)
  {
    hide Indexed, Ready, Chosen, Wrapped, Collected, Turned, TurnTraded, Ended, ClearsTheMarket, Unambiguous, Sorted,
         Pow256, Uncrossed, Lists, Dealt, AllSound, Solvent, Candidates, Barred, Among, SideList, SameTerms, Quiet;
    var keeper := new OrderKeeper(store, symbol);
    var lowPrice := LowPrice(midPrice, ratio);
    var highPrice := HighPrice(midPrice, ratio);
    var found := keeper.GetMatchingCandidates(book);
    ListsAreDistinct(found, book, Candidates(book, symbol));
    var some := FilterCandidates(bank.forbidden, found, symbol);
    AmongAreDistinct(some, found);
    var orders, bidList, askList := Wrap(some);
    ChosenFromCandidates(found, some, orders, bidList, askList, book, symbol, bank.forbidden);
    ChosenIsPart(orders, Exchange(book + pending, bank.ledger), book, pending, symbol, bank.forbidden);
    ChosenLists(some, orders, bidList, askList, book, symbol, bank.forbidden);
    var info := new InfoForDeal(bank, symbol, tieBreak, orders);
    ghost var before, ledger := info.Now(), bank.ledger;
    ghost var bids, asks, p;
    bids, asks, p := Match(info, highPrice, midPrice, lowPrice, bidList, askList);
    PartiesAreOrders(info.start, bank.forbidden, info.deals);
    var atHeight := keeper.GetOrdersAtHeight(height, book);
    updates := CollectUpdates(info, atHeight, book, height);
    newPrice, deals := info.lastPrice, info.deals;
    EndedAtOnePrice(before, info.Now(), bids, asks, highPrice, midPrice, lowPrice, p);
    TurnEnds(orders, book, pending, ledger, Exchange(info.orders, bank.ledger), info.deals, bank.forbidden, updates,
             symbol, height);
    TurnTrades(orders, book, pending, ledger, Exchange(info.orders, bank.ledger), deals, bank.forbidden, updates,
               symbol, height, newPrice);
    ReadyIsOpen(Exchange(book + pending, ledger), book, pending, symbol);
    MatchQuietens(orders, book, info.orders, symbol, bank.forbidden, some, bidList, askList, bids, asks);
    if NobodyBarred(book, symbol, bank.forbidden) && Unambiguous(book, tieBreak) {
      WholeMarketCleared(orders, book, symbol, bank.forbidden, tieBreak, some, bidList, askList, bids, asks, before,
                         info.Now(), highPrice, midPrice, lowPrice, p);
    }
  }

  lemma ListsAreDistinct(os: seq<Order>, book: Book, wanted: set<OrderID>)
    requires Lists(os, book, wanted)
    ensures Distinct(Ids(os))
  {
  }

  lemma AmongAreDistinct(some: seq<Order>, all: seq<Order>)
    requires Among(some, all)
    ensures Distinct(Ids(some))
  {
  }

  lemma ReadyIsOpen(x: Exchange, book: Book, pending: Book, symbol: string)
    requires Ready(x, book, pending, symbol)
    ensures forall id | id in book :: book[id].leftStock > 0
  {
  }
}
