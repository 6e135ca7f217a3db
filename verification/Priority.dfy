/** Who is served first: what the clearing of a market means for any two of its orders. */
module Priority {
  import opened Auction
  import opened BlockRuns
  import opened Blocks
  import opened ByteKeys
  import opened CallAuction
  import opened Decimals
  import opened Ledgers
  import opened MarketState
  import opened Matching
  import opened MatchRun
  import opened OrderEntry
  import opened OrderStore
  import opened Orders
  import opened Settlement
  import opened Slices
  import opened WholeBook

  /** Order `a` offers more than `b`, or as much and is older, or is as old with a smaller hash. */
  predicate Outranks(a: Order, b: Order, tieBreak: OrderID -> int)
  {
    var s, t := a.terms, b.terms;
    && s.side == t.side && s.symbol == t.symbol
    && ((if s.side == Bid then t.price < s.price else s.price < t.price)
        || (s.price == t.price && s.height < t.height)
        || (s.price == t.price && s.height == t.height && tieBreak(s.id) < tieBreak(t.id)))
  }

  ghost predicate Keyed(book: Book) { forall id | id in book :: book[id].terms.id == id }

  // ------------------------------------------------------------ every side of a book can be listed

  /** The elements of a set, in order. */
  lemma {:induction false} Listing<T>(less: (T, T) -> bool, s: set<T>, all: seq<T>) returns (r: seq<T>)
    requires Ordering(less, all) && forall x | x in s :: x in all
    ensures Distinct(r) && Sorted(less, r) && forall x :: x in r <==> x in s
    decreases s
  {
    if s == {} {
      r := [];
    } else {
      var x :| x in s;
      var t := Listing(less, s - {x}, all);
      r := ListingStep(less, t, x, all);
    }
  }

  lemma ListingStep<T>(less: (T, T) -> bool, s: seq<T>, x: T, all: seq<T>) returns (r: seq<T>)
    requires Ordering(less, all) && Sorted(less, s) && Distinct(s) && x in all && x !in s
    requires forall y | y in s :: y in all
    ensures Distinct(r) && Sorted(less, r) && forall y :: y in r <==> y in s || y == x
  {
    var k := 0;
    while k < |s| && !less(x, s[k])
      invariant k <= |s|
      invariant forall i | 0 <= i < k :: !less(x, s[i])
    {
      k := k + 1;
    }
    r := s[..k] + [x] + s[k..];
    assert s == s[..k] + s[k..];
    InsertedInOrder(less, s, x, k, r, all);
    forall i, j | 0 <= i < j < |r| ensures r[i] != r[j] {
      assert r[i] == (if i < k then s[i] else if i == k then x else s[i - 1]);
      assert r[j] == (if j < k then s[j] else if j == k then x else s[j - 1]);
    }
  }

  lemma {:induction false} SomeSequence<T>(s: set<T>) returns (r: seq<T>)
    ensures forall x :: x in r <==> x in s
    decreases s
  {
    if s == {} {
      r := [];
    } else {
      var x :| x in s;
      var t := SomeSequence(s - {x});
      r := t + [x];
    }
  }

  lemma PrecedeIsOrdering(book: Book, side: Side, symbol: string, tieBreak: OrderID -> int, all: seq<OrderID>)
    requires forall id | id in all :: id in book && book[id].terms.side == side
    ensures Ordering(PrecedeIn(book, tieBreak), all)
  {
  }

  /** Whatever is said of every listing of a side is said of one that exists. */
  lemma SideHasListing(book: Book, side: Side, symbol: string, tieBreak: OrderID -> int) returns (list: seq<OrderID>)
    ensures SideOfBook(list, book, side, symbol, tieBreak)
  {
    var ids := set id | id in book && InIndex(List, side, symbol, book[id].terms);
    var all := SomeSequence(ids);
    PrecedeIsOrdering(book, side, symbol, tieBreak, all);
    list := Listing(PrecedeIn(book, tieBreak), ids, all);
  }

  // ------------------------------------------------------------ priority

  lemma OutrankingComesFirst(list: seq<OrderID>, book: Book, side: Side, symbol: string, tieBreak: OrderID -> int,
                             a: OrderID, b: OrderID) returns (i: nat, j: nat)
    requires SideOfBook(list, book, side, symbol, tieBreak) && Keyed(book) && a in list && b in list
    requires a in book && b in book && Outranks(book[a], book[b], tieBreak)
    ensures i < j < |list| && list[i] == a && list[j] == b
  {
    i :| 0 <= i < |list| && list[i] == a;
    j :| 0 <= j < |list| && list[j] == b;
    assert PrecedeIn(book, tieBreak)(a, b) && !PrecedeIn(book, tieBreak)(b, a);
  }

  /** In a cleared side nothing is left of an order that outranks one which dealt. */
  lemma SideIsFilledInOrder(list: seq<OrderID>, book: Book, after: Book, side: Side, symbol: string,
                            tieBreak: OrderID -> int, v: int, a: OrderID, b: OrderID)
    requires SideOfBook(list, book, side, symbol, tieBreak) && Keyed(book)
    requires forall id | id in book :: book[id].leftStock > 0
    requires Quotes(after, list) == Drain(Quotes(book, list), v) && 0 <= v
    requires a in list && b in list && a in book && b in book && a in after && b in after
    requires Outranks(book[a], book[b], tieBreak) && after[b].leftStock < book[b].leftStock
    ensures after[a].leftStock == 0
  {
    hide Drain, SideOfBook, Outranks;
    var i, j := OutrankingComesFirst(list, book, side, symbol, tieBreak, a, b);
    WholeQuotes(list, book, side, symbol, tieBreak);
    assert Quotes(book, list)[j] == QuoteOf(book, b) && Quotes(after, list)[j] == QuoteOf(after, b);
    FillsFormAPrefix(Quotes(book, list), v, i, j);
    assert Quotes(after, list)[i] == QuoteOf(after, a);
  }

  lemma NothingDrained(list: seq<OrderID>, book: Book, after: Book, id: OrderID)
    requires Quotes(after, list) == Quotes(book, list) && id in list && id in book && id in after
    ensures after[id].leftStock == book[id].leftStock
  {
    var i :| 0 <= i < |list| && list[i] == id;
    assert Quotes(after, list)[i] == QuoteOf(after, id) && Quotes(book, list)[i] == QuoteOf(book, id);
  }

  lemma VolumeNonNegative(bids: seq<Quote>, asks: seq<Quote>, p: int)
    requires Positive(bids) && Positive(asks)
    ensures Volume(bids + asks, p) >= 0
  {
    DepthNonNegative(bids + asks, Bid, p);
    DepthNonNegative(bids + asks, Ask, p);
  }

  /** Where a market was cleared, an order deals at all only if every order of its side that
      outranks it was filled: by its price first, then by its age, then by its hash. */
  lemma PriorityIsKept(book: Book, after: Book, symbol: string, tieBreak: OrderID -> int, high: int, mid: int, low: int,
                       p: int, a: OrderID, b: OrderID)
    requires ClearsTheMarket(book, after, symbol, tieBreak, high, mid, low, p) && Keyed(book)
    requires forall id | id in book :: book[id].leftStock > 0
    requires a in book && b in book && a in after && b in after && book[b].terms.symbol == symbol
    requires Outranks(book[a], book[b], tieBreak) && after[b].leftStock < book[b].leftStock
    ensures after[a].leftStock == 0
  {
    hide Drain, Outranks, Uncrossed, Quotes;
    var bids := SideHasListing(book, Bid, symbol, tieBreak);
    var asks := SideHasListing(book, Ask, symbol, tieBreak);
    assert MarketCleared(book, after, bids, asks, high, mid, low, p);
    SameSide(book[a], book[b], tieBreak);
    var side := book[b].terms.side;
    var list := if side == Bid then bids else asks;
    assert a in list && b in list;
    if !Crossed(Quotes(book, bids), Quotes(book, asks)) {
      NothingDrained(list, book, after, b);
    } else {
      WholeQuotes(bids, book, Bid, symbol, tieBreak);
      WholeQuotes(asks, book, Ask, symbol, tieBreak);
      VolumeNonNegative(Quotes(book, bids), Quotes(book, asks), p);
      SideIsFilledInOrder(list, book, after, side, symbol, tieBreak,
                          Volume(Quotes(book, bids) + Quotes(book, asks), p), a, b);
    }
  }

  lemma SameSide(a: Order, b: Order, tieBreak: OrderID -> int)
    requires Outranks(a, b, tieBreak)
    ensures a.terms.side == b.terms.side && a.terms.symbol == b.terms.symbol
  {
  }

  /** An order that takes part in a run of deals has less left afterwards. */
  lemma {:induction false} PartiesDealt(x: Exchange, forbidden: Forbidden, deals: seq<Deal>, id: OrderID)
    requires ValidRun(x, forbidden, deals) && Solvent(x) && id in x.orders
    ensures var y := Replay(x, forbidden, deals);
            && id in y.orders && y.orders[id].leftStock <= x.orders[id].leftStock
            && (id in Parties(deals) ==> y.orders[id].leftStock < x.orders[id].leftStock)
  {
    hide Unbarred, Exchanged, Surplus, Sound;
    if deals != [] {
      var front, d := deals[..|deals| - 1], deals[|deals| - 1];
      PartiesDealt(x, forbidden, front, id);
      var y := Replay(x, forbidden, front);
      assert ValidDeal(y.orders, d);
      RunKeepsSolvent(x, forbidden, front);
      DealLowersBoth(y, forbidden, d, id);
    }
  }

  lemma DealLowersBoth(x: Exchange, forbidden: Forbidden, d: Deal, id: OrderID)
    requires Solvent(x) && ValidDeal(x.orders, d) && id in x.orders
    ensures var y := Apply(x, forbidden, d);
            && id in y.orders && y.orders[id].leftStock <= x.orders[id].leftStock
            && (id in {d.buyer, d.seller} ==> y.orders[id].leftStock < x.orders[id].leftStock)
  {
    hide Exchanged, Surplus;
    assert Sound(x.orders[d.buyer]) && Sound(x.orders[d.seller]);
    DealKeepsOrdersSound(x.orders[d.buyer], x.orders[d.seller], d.amount, d.price);
  }

  lemma TurnClears(book: Book, after: Book, deals: seq<Deal>, info: MarketInfo, symbol: string, price: Dec, due: bool,
                   ratio: int, tieBreak: OrderID -> int, forbidden: Forbidden)
    requires TurnOf(book, after, deals, info, symbol, price, due, ratio, tieBreak, forbidden)
    requires !NoDealIn(deals, book, symbol) && NobodyBarred(book, symbol, forbidden) && Unambiguous(book, tieBreak)
    ensures ClearsTheMarket(book, after, symbol, tieBreak, HighPrice(info.lastExecutedPrice, ratio),
                            info.lastExecutedPrice, LowPrice(info.lastExecutedPrice, ratio), price)
  {
    hide NoDealIn, NobodyBarred, Unambiguous, ClearsTheMarket, Priced;
  }

  /** So it is in every block: `dealt` is the book after the deals of the block, before any order
      is closed. */
  lemma PriorityInABlock(x: Exchange, data: map<Key, Value>, before: Markets, after: Markets, deals: seq<Deal>,
                         params: Params, tieBreak: OrderID -> int, forbidden: Forbidden, a: OrderID, b: OrderID)
    requires Auctioned(x, data, before, after, deals, params, tieBreak, forbidden) && ValidRun(x, forbidden, deals)
    requires Solvent(x) && AllOpen(x.orders) && Keyed(x.orders)
    requires a in x.orders && b in x.orders && Outranks(x.orders[a], x.orders[b], tieBreak)
    requires var s := x.orders[b].terms.symbol;
             && s in before && NobodyBarred(x.orders, s, forbidden) && Unambiguous(x.orders, tieBreak)
    requires b in Parties(deals)
    ensures var dealt := Replay(x, forbidden, deals).orders; a in dealt && dealt[a].leftStock == 0
  {
    hide TurnOf, Replay, Outranks, Parties, ClearsTheMarket, NobodyBarred, Unambiguous, ValidRun, Solvent;
    var s, dealt := x.orders[b].terms.symbol, Replay(x, forbidden, deals).orders;
    RunKeepsTerms(x, forbidden, deals);
    PartiesDealt(x, forbidden, deals, b);
    if NoDealIn(deals, x.orders, s) { IdleDealNothing(x, forbidden, deals, s, b); }
    SameSide(x.orders[a], x.orders[b], tieBreak);
    var p :| TurnOf(x.orders, dealt, deals, before[s], s, p,
                    MarkKey(s) in data && !Halted(before[s], params), params.maxChangeRatio, tieBreak, forbidden);
    TurnClears(x.orders, dealt, deals, before[s], s, p, MarkKey(s) in data && !Halted(before[s], params),
               params.maxChangeRatio, tieBreak, forbidden);
    PriorityIsKept(x.orders, dealt, s, tieBreak, HighPrice(before[s].lastExecutedPrice, params.maxChangeRatio),
                   before[s].lastExecutedPrice, LowPrice(before[s].lastExecutedPrice, params.maxChangeRatio), p, a, b);
  }

  lemma {:induction false} DealsCostSomething(x: Exchange, forbidden: Forbidden, deals: seq<Deal>)
    requires ValidRun(x, forbidden, deals) && Solvent(x)
    ensures forall i | 0 <= i < |deals| :: deals[i].price > 0
  {
    hide Apply, Unbarred;
    if deals != [] {
      var front, d := deals[..|deals| - 1], deals[|deals| - 1];
      DealsCostSomething(x, forbidden, front);
      RunKeepsTerms(x, forbidden, front);
      assert ValidDeal(Replay(x, forbidden, front).orders, d);
      assert Sound(x.orders[d.seller]);
      forall i | 0 <= i < |deals| ensures deals[i].price > 0 {
        if i < |front| { assert front[i] == deals[i]; }
      }
    }
  }

  /** A market remembers the price of its deals, and only that. */
  lemma PriceIsRemembered(x: Exchange, data: map<Key, Value>, before: Markets, after: Markets, deals: seq<Deal>,
                          params: Params, tieBreak: OrderID -> int, forbidden: Forbidden, s: string)
    requires Auctioned(x, data, before, after, deals, params, tieBreak, forbidden) && s in before
    requires ValidRun(x, forbidden, deals) && Solvent(x)
    ensures s in after && after[s] == before[s].(lastExecutedPrice := after[s].lastExecutedPrice)
    ensures forall i | 0 <= i < |deals| && DealIn(deals[i], x.orders, s) ::
              deals[i].price == after[s].lastExecutedPrice
    ensures (forall i | 0 <= i < |deals| :: !DealIn(deals[i], x.orders, s)) ==> after[s] == before[s]
  {
    hide Replay, ValidRun, Solvent, NoDealIn, NobodyBarred, Unambiguous, ClearsTheMarket, DealIn;
    DealsCostSomething(x, forbidden, deals);
    var p :| TurnOf(x.orders, Replay(x, forbidden, deals).orders, deals, before[s], s, p,
                    MarkKey(s) in data && !Halted(before[s], params), params.maxChangeRatio, tieBreak, forbidden)
          && after[s] == Repriced(before[s], p);
  }

  /** Nothing is dealt in a market one of whose tokens is forbidden as a whole, not even by those
      who are exempt from the ban. */
  lemma HaltedMarketsRest(x: Exchange, data: map<Key, Value>, before: Markets, after: Markets, deals: seq<Deal>,
                          params: Params, tieBreak: OrderID -> int, forbidden: Forbidden, s: string, id: OrderID)
    requires Auctioned(x, data, before, after, deals, params, tieBreak, forbidden) && s in before
    requires ValidRun(x, forbidden, deals) && Solvent(x)
    requires before[s].stock in params.forbiddenTokens || before[s].money in params.forbiddenTokens
    requires id in x.orders && x.orders[id].terms.symbol == s
    ensures id !in Parties(deals) && s in after && after[s] == before[s]
  {
    hide Replay, ValidRun, Solvent, NobodyBarred, Unambiguous, ClearsTheMarket, Repriced, Parties;
    PriceIsRemembered(x, data, before, after, deals, params, tieBreak, forbidden, s);
    var p :| TurnOf(x.orders, Replay(x, forbidden, deals).orders, deals, before[s], s, p,
                    MarkKey(s) in data && !Halted(before[s], params), params.maxChangeRatio, tieBreak, forbidden)
          && after[s] == Repriced(before[s], p);
    IdleDealNothing(x, forbidden, deals, s, id);
  }
}
