/** A block as a run: first valid deals between orders of the book, market by market, then orders
    closed one after the other, each as the deals left it. */
module BlockRuns {
  import opened Auction
  import opened Blocks
  import ByteKeys
  import StoreKeys
  import opened Closing
  import opened Decimals
  import opened Ledgers
  import opened MarketState
  import Matching
  import opened MatchRun
  import opened OrderEntry
  import opened Orders
  import opened OrderStore
  import opened Overlays
  import opened Settlement
  import opened Slices
  import opened WholeBook

  // ------------------------------------------------------------ closings

  /** The orders that are no longer there were closed as they stood, each once, and no other
      order changed. */
  ghost predicate ClosesTo(y: Exchange, z: Exchange, forbidden: Forbidden, rules: FeeRules, closed: seq<Order>)
  {
    && ValidRules(rules) && SoundOnes(closed)
    && IsPart(z.orders, y.orders) && Lists(closed, y.orders, y.orders.Keys - z.orders.Keys)
    && z.ledger == CloseAll(y.ledger, forbidden, rules, closed)
  }

  ghost predicate Closings(y: Exchange, z: Exchange, forbidden: Forbidden, rules: FeeRules)
  {
    exists closed :: ClosesTo(y, z, forbidden, rules, closed)
  }

  lemma NoClosing(y: Exchange, forbidden: Forbidden, rules: FeeRules)
    requires ValidRules(rules)
    ensures Closings(y, y, forbidden, rules)
  {
    assert ClosesTo(y, y, forbidden, rules, []);
  }

  lemma OneClosing(y: Exchange, forbidden: Forbidden, rules: FeeRules, o: Order)
    requires ValidRules(rules) && Sound(o) && o.terms.id in y.orders && y.orders[o.terms.id] == o
    ensures Closings(y, Exchange(y.orders - {o.terms.id}, Close(y.ledger, forbidden, rules, o)), forbidden, rules)
  {
    hide Sound, Close;
    var z := Exchange(y.orders - {o.terms.id}, Close(y.ledger, forbidden, rules, o));
    assert [o][..0] == [];
    assert CloseAll(y.ledger, forbidden, rules, []) == y.ledger;
    assert y.orders.Keys - z.orders.Keys == {o.terms.id};
    assert Ids([o]) == [o.terms.id];
    assert ClosesTo(y, z, forbidden, rules, [o]);
  }

  lemma {:induction false} CloseTwice(l: Ledger, forbidden: Forbidden, rules: FeeRules, os: seq<Order>, ps: seq<Order>)
    requires ValidRules(rules) && SoundOnes(os) && SoundOnes(ps)
    ensures SoundOnes(os + ps)
    ensures CloseAll(l, forbidden, rules, os + ps) == CloseAll(CloseAll(l, forbidden, rules, os), forbidden, rules, ps)
  {
    hide Sound, Close;
    if ps == [] {
      assert os + ps == os;
    } else {
      CloseTwice(l, forbidden, rules, os, ps[..|ps| - 1]);
      assert (os + ps)[..|os + ps| - 1] == os + ps[..|ps| - 1];
    }
  }

  lemma ListsTwice(os: seq<Order>, ps: seq<Order>, y: Book, z: Book, some: set<OrderID>, more: set<OrderID>)
    requires Lists(os, y, some) && Lists(ps, z, more) && some !! more && IsPart(z, y)
    ensures Lists(os + ps, y, some + more)
  {
    var all := os + ps;
    forall i | 0 <= i < |all| ensures Ids(all)[i] == if i < |os| then Ids(os)[i] else Ids(ps)[i - |os|] {}
    forall id ensures id in Ids(all) <==> id in some + more {
      if id in Ids(os) { var i :| 0 <= i < |os| && Ids(os)[i] == id; assert Ids(all)[i] == id; }
      if id in Ids(ps) { var i :| 0 <= i < |ps| && Ids(ps)[i] == id; assert Ids(all)[|os| + i] == id; }
    }
    forall i, j | 0 <= i < j < |all| ensures Ids(all)[i] != Ids(all)[j] {
      if i < |os| <= j {
        assert Ids(os)[i] in Ids(os) && Ids(ps)[j - |os|] in Ids(ps);
      }
    }
  }

  lemma ClosingsTwice(x: Exchange, y: Exchange, z: Exchange, forbidden: Forbidden, rules: FeeRules)
    requires Closings(x, y, forbidden, rules) && Closings(y, z, forbidden, rules)
    ensures Closings(x, z, forbidden, rules)
  {
    hide Lists, SoundOnes, CloseAll;
    var os :| ClosesTo(x, y, forbidden, rules, os);
    var ps :| ClosesTo(y, z, forbidden, rules, ps);
    CloseTwice(x.ledger, forbidden, rules, os, ps);
    ListsTwice(os, ps, x.orders, y.orders, x.orders.Keys - y.orders.Keys, y.orders.Keys - z.orders.Keys);
    assert (x.orders.Keys - y.orders.Keys) + (y.orders.Keys - z.orders.Keys) == x.orders.Keys - z.orders.Keys;
    assert ClosesTo(x, z, forbidden, rules, os + ps);
  }

  // ------------------------------------------------------------ one market among others

  predicate DealIn(d: Deal, book: Book, symbol: string)
  {
    d.buyer in book && book[d.buyer].terms.symbol == symbol
  }

  ghost predicate NoDealIn(deals: seq<Deal>, book: Book, symbol: string)
  {
    forall i | 0 <= i < |deals| :: !DealIn(deals[i], book, symbol)
  }

  /** Every deal of the market was made at `price`, which is zero if there was none. */
  ghost predicate Priced(deals: seq<Deal>, book: Book, symbol: string, price: Dec)
  {
    && (forall i | 0 <= i < |deals| && DealIn(deals[i], book, symbol) :: deals[i].price == price)
    && (price != 0 ==> exists i :: 0 <= i < |deals| && DealIn(deals[i], book, symbol))
  }

  /** All deals are in the first `n` markets. */
  ghost predicate DealsWithin(deals: seq<Deal>, book: Book, symbols: seq<string>, n: nat)
    requires n <= |symbols|
  {
    forall i | 0 <= i < |deals| :: deals[i].buyer in book && book[deals[i].buyer].terms.symbol in symbols[..n]
  }

  /** A market's turn in a block: one price for its deals, none if it was not due, and unless somebody who could have
      dealt is barred, its whole book cleared at it. */
  ghost predicate TurnOf(book: Book, after: Book, deals: seq<Deal>, info: MarketInfo, symbol: string, price: Dec,
                         due: bool, ratio: int, tieBreak: OrderID -> int, forbidden: Forbidden)
  {
    && Priced(deals, book, symbol, price)
    && (!due ==> NoDealIn(deals, book, symbol))
    && (due && NobodyBarred(book, symbol, forbidden) && Unambiguous(book, tieBreak) ==>
          ClearsTheMarket(book, after, symbol, tieBreak, HighPrice(info.lastExecutedPrice, ratio),
                          info.lastExecutedPrice,
                          LowPrice(info.lastExecutedPrice, ratio), price))
  }

  /** The market's record after the block. */
  function Repriced(info: MarketInfo, price: Dec): MarketInfo
  {
    if price == 0 then info else info.(lastExecutedPrice := price)
  }

  lemma NoDealsPriced(deals: seq<Deal>, book: Book, symbols: seq<string>, n: nat, symbol: string)
    requires n <= |symbols| && DealsWithin(deals, book, symbols, n) && symbol !in symbols[..n]
    ensures Priced(deals, book, symbol, 0)
  {
  }

  /** More deals, all in another market. */
  lemma StillPriced(deals: seq<Deal>, more: seq<Deal>, book: Book, symbol: string, price: Dec)
    requires Priced(deals, book, symbol, price) && NoDealIn(more, book, symbol)
    ensures Priced(deals + more, book, symbol, price)
  {
    if price != 0 {
      var i :| 0 <= i < |deals| && DealIn(deals[i], book, symbol);
      assert (deals + more)[i] == deals[i];
    }
  }

  /** The first deals in a market. */
  lemma NowPriced(deals: seq<Deal>, more: seq<Deal>, book: Book, symbol: string, price: Dec)
    requires Priced(deals, book, symbol, 0) && (price != 0 <==> more != [])
    requires forall i | 0 <= i < |more| :: DealIn(more[i], book, symbol) && more[i].price == price && price != 0
    requires forall i | 0 <= i < |deals| :: !DealIn(deals[i], book, symbol)
    ensures Priced(deals + more, book, symbol, price)
  {
    if price != 0 { assert DealIn((deals + more)[|deals|], book, symbol); }
  }

  lemma SameQuotes(book: Book, after: Book, next: Book, list: seq<OrderID>, side: Side, symbol: string,
                   tieBreak: OrderID -> int)
    requires SideOfBook(list, book, side, symbol, tieBreak)
    requires forall id | id in book && book[id].terms.symbol == symbol ::
             (id in after <==> id in next) && (id in after ==> after[id] == next[id])
    ensures Matching.Quotes(after, list) == Matching.Quotes(next, list)
  {
    forall i | 0 <= i < |list| ensures Matching.QuoteOf(after, list[i]) == Matching.QuoteOf(next, list[i]) {
      assert list[i] in list;
    }
  }

  /** What other markets do does not matter to a cleared market. */
  lemma StillClear(book: Book, after: Book, next: Book, symbol: string, tieBreak: OrderID -> int, high: int, mid: int,
                   low: int, p: int)
    requires ClearsTheMarket(book, after, symbol, tieBreak, high, mid, low, p)
    requires forall id | id in book && book[id].terms.symbol == symbol ::
             (id in after <==> id in next) && (id in after ==> after[id] == next[id])
    ensures ClearsTheMarket(book, next, symbol, tieBreak, high, mid, low, p)
  {
    hide SideOfBook;
    forall bids, asks | SideOfBook(bids, book, Bid, symbol, tieBreak) && SideOfBook(asks, book, Ask, symbol, tieBreak)
      ensures MarketCleared(book, next, bids, asks, high, mid, low, p)
    {
      SameQuotes(book, after, next, bids, Bid, symbol, tieBreak);
      SameQuotes(book, after, next, asks, Ask, symbol, tieBreak);
    }
  }

  // ------------------------------------------------------------ all markets of a block

  /** The exchange as a run of valid deals left it. */
  ghost predicate InRun(x: Exchange, y: Exchange, forbidden: Forbidden, deals: seq<Deal>)
  {
    ValidRun(x, forbidden, deals) && Replay(x, forbidden, deals) == y
  }

  /** What a market's turn leaves while later markets take theirs. */
  ghost predicate Took(book: Book, after: Book, deals: seq<Deal>, list: Book, info: MarketInfo, symbol: string,
                       price: Dec, params: Params, tieBreak: OrderID -> int, forbidden: Forbidden)
  {
    && TurnOf(book, after, deals, info, symbol, price, !Halted(info, params), params.maxChangeRatio, tieBreak,
              forbidden)
    && (price != 0 ==> |list| > 0)
  }

  lemma RunStarts(x: Exchange, forbidden: Forbidden, book: Book, symbols: seq<string>)
    requires x.orders == book
    ensures InRun(x, Exchange(book + map[], x.ledger), forbidden, []) && DealsWithin([], book, symbols, 0)
  {
    assert book + map[] == book;
  }

  lemma RunGrows(x: Exchange, book: Book, pending: Book, before: Ledger, updates: Book, after: Ledger,
                 forbidden: Forbidden, deals: seq<Deal>, more: seq<Deal>, symbols: seq<string>, i: nat, price: Dec)
    requires InRun(x, Exchange(book + pending, before), forbidden, deals) && i < |symbols|
             && DealsWithin(deals, book, symbols, i)
    requires TurnTraded(book, pending, before, updates, after, forbidden, more, symbols[i], price)
    ensures InRun(x, Exchange(book + (pending + updates), after), forbidden, deals + more)
    ensures DealsWithin(deals + more, book, symbols, i + 1)
  {
    hide Replay, ValidRun, DealsWithin;
    RunTwice(x, forbidden, deals, more);
    MoreWithin(deals, book, symbols, i, more);
    LaidOver(book, pending, updates);
  }

  lemma LaidOver(book: Book, pending: Book, updates: Book)
    ensures (book + pending) + updates == book + (pending + updates)
  {
  }

  lemma MoreWithin(deals: seq<Deal>, book: Book, symbols: seq<string>, i: nat, more: seq<Deal>)
    requires i < |symbols| && DealsWithin(deals, book, symbols, i)
    requires forall k | 0 <= k < |more| :: more[k].buyer in book && book[more[k].buyer].terms.symbol == symbols[i]
    ensures DealsWithin(deals + more, book, symbols, i + 1)
  {
    assert symbols[..i + 1] == symbols[..i] + [symbols[i]];
    var all := deals + more;
    forall k | 0 <= k < |all| ensures all[k].buyer in book && book[all[k].buyer].terms.symbol in symbols[..i + 1] {
      if k >= |deals| { assert all[k] == more[k - |deals|]; }
    }
  }

  lemma WithinMore(deals: seq<Deal>, book: Book, symbols: seq<string>, i: nat)
    requires i < |symbols| && DealsWithin(deals, book, symbols, i)
    ensures DealsWithin(deals, book, symbols, i + 1)
  {
    assert symbols[..i + 1] == symbols[..i] + [symbols[i]];
  }

  lemma PassedOver(book: Book, after: Book, deals: seq<Deal>, info: MarketInfo, symbols: seq<string>, i: nat,
                   params: Params, tieBreak: OrderID -> int, forbidden: Forbidden)
    requires i < |symbols| && Distinct(symbols) && DealsWithin(deals, book, symbols, i) && Halted(info, params)
    ensures Took(book, after, deals, map[], info, symbols[i], 0, params, tieBreak, forbidden)
  {
    NoDealsPriced(deals, book, symbols, i, symbols[i]);
  }

  lemma OtherDeals(more: seq<Deal>, book: Book, symbol: string, other: string)
    requires symbol != other && forall i | 0 <= i < |more| ::
             more[i].buyer in book && book[more[i].buyer].terms.symbol == symbol
    ensures NoDealIn(more, book, other)
  {
  }

  lemma NoneAdded(deals: seq<Deal>, more: seq<Deal>, book: Book, symbol: string)
    requires NoDealIn(deals, book, symbol) && NoDealIn(more, book, symbol)
    ensures NoDealIn(deals + more, book, symbol)
  {
  }

  /** A market that had its turn is not disturbed by the next one's. */
  lemma StillTook(book: Book, pending: Book, before: Ledger, updates: Book, after: Ledger, deals: seq<Deal>,
                  more: seq<Deal>, list: Book, info: MarketInfo, symbols: seq<string>, j: nat, i: nat, price: Dec,
                  newPrice: Dec, params: Params, tieBreak: OrderID -> int, forbidden: Forbidden)
    requires j < i < |symbols| && Distinct(symbols)
    requires Took(book, book + pending, deals, list, info, symbols[j], price, params, tieBreak, forbidden)
    requires TurnTraded(book, pending, before, updates, after, forbidden, more, symbols[i], newPrice)
    requires forall id | id in updates ::
             id in book && updates[id].terms == book[id].terms && updates[id].terms.symbol == symbols[i]
    ensures Took(book, book + (pending + updates), deals + more, list, info, symbols[j], price, params, tieBreak,
                 forbidden)
  {
    hide Replay, ValidRun, ClearsTheMarket, Unambiguous, NobodyBarred, HighPrice, LowPrice, Priced, NoDealIn;
    var s, mid, ratio := symbols[j], info.lastExecutedPrice, params.maxChangeRatio;
    assert symbols[i] != s;
    assert NoDealIn(more, book, s) by { OtherDeals(more, book, symbols[i], s); }
    StillPriced(deals, more, book, s, price);
    if Halted(info, params) { NoneAdded(deals, more, book, s); }
    OthersUntouched(book, pending, updates, symbols[i], s);
    if !Halted(info, params) && NobodyBarred(book, s, forbidden) && Unambiguous(book, tieBreak) {
      StillClear(book, book + pending, book + (pending + updates), s, tieBreak, HighPrice(mid, ratio), mid,
                 LowPrice(mid, ratio), price);
    }
  }

  /** The changed orders of one market laid over another. */
  lemma OthersUntouched(book: Book, pending: Book, updates: Book, symbol: string, other: string)
    requires symbol != other
    requires forall id | id in updates ::
             id in book && updates[id].terms == book[id].terms && updates[id].terms.symbol == symbol
    ensures var after, next := book + pending, book + (pending + updates);
            forall id | id in book && book[id].terms.symbol == other ::
                (id in after <==> id in next) && (id in after ==> after[id] == next[id])
  {
  }

  /** The changed orders of other markets do not show in this one. */
  lemma PendingElsewhere(book: Book, pending: Book, updates: Book, symbol: string)
    requires forall id | id in pending ::
             id in book && pending[id].terms.symbol != symbol && book[id].terms == pending[id].terms
    ensures var after, next := book + updates, book + (pending + updates);
            forall id | id in book && book[id].terms.symbol == symbol ::
                (id in after <==> id in next) && (id in after ==> after[id] == next[id])
  {
  }

  lemma NowTook(book: Book, pending: Book, before: Ledger, updates: Book, after: Ledger, deals: seq<Deal>,
                more: seq<Deal>, info: MarketInfo, symbols: seq<string>, i: nat, price: Dec, params: Params,
                tieBreak: OrderID -> int, forbidden: Forbidden)
    requires i < |symbols| && Distinct(symbols) && DealsWithin(deals, book, symbols, i) && !Halted(info, params)
    requires TurnTraded(book, pending, before, updates, after, forbidden, more, symbols[i], price)
    requires forall id | id in pending ::
             id in book && pending[id].terms.symbol != symbols[i] && book[id].terms == pending[id].terms
    requires NobodyBarred(book, symbols[i], forbidden) && Unambiguous(book, tieBreak) ==>
               ClearsTheMarket(book, book + updates, symbols[i], tieBreak,
                               HighPrice(info.lastExecutedPrice, params.maxChangeRatio),
                               info.lastExecutedPrice, LowPrice(info.lastExecutedPrice, params.maxChangeRatio), price)
    ensures Took(book, book + (pending + updates), deals + more, updates, info, symbols[i], price, params, tieBreak,
                 forbidden)
  {
    hide Replay, ValidRun, ClearsTheMarket, Unambiguous, NobodyBarred, HighPrice, LowPrice, Priced, DealsWithin,
         NoDealIn;
    ElsewhereSoFar(deals, book, symbols, i);
    var s, mid, ratio := symbols[i], info.lastExecutedPrice, params.maxChangeRatio;
    NoDealsPriced(deals, book, symbols, i, s);
    NowPriced(deals, more, book, s, price);
    PendingElsewhere(book, pending, updates, s);
    if NobodyBarred(book, s, forbidden) && Unambiguous(book, tieBreak) {
      StillClear(book, book + updates, book + (pending + updates), s, tieBreak, HighPrice(mid, ratio), mid,
                 LowPrice(mid, ratio), price);
    }
  }

  lemma ElsewhereSoFar(deals: seq<Deal>, book: Book, symbols: seq<string>, i: nat)
    requires i < |symbols| && Distinct(symbols) && DealsWithin(deals, book, symbols, i)
    ensures symbols[i] !in symbols[..i] && forall k | 0 <= k < |deals| :: !DealIn(deals[k], book, symbols[i])
  {
  }

  lemma TookWrites(book: Book, after: Book, deals: seq<Deal>, list: Book, info: MarketInfo, symbol: string, price: Dec,
                   params: Params, tieBreak: OrderID -> int, forbidden: Forbidden)
    requires Took(book, after, deals, list, info, symbol, price, params, tieBreak, forbidden)
    ensures price != 0 ==> |list| > 0
  {
  }

  lemma WrittenOrClosed(was: Book, book: Book, rest: Book, o: Order)
    requires o.terms.id in rest && rest[o.terms.id] == o && o.terms.id in was
    requires book == if Gone(o) then was - {o.terms.id} else was[o.terms.id := o]
    ensures book + (rest - {o.terms.id}) == if Gone(o) then (was + rest) - {o.terms.id} else was + rest
  {
  }

  /** Every market whose turn it was has its new price, and no other record changed. */
  ghost predicate AllRepriced(before: Markets, after: Markets, symbols: seq<string>, prices: seq<Dec>, n: nat)
    requires n <= |symbols| && n <= |prices|
  {
    && after.Keys == before.Keys
    && (forall j | 0 <= j < n :: symbols[j] in before && after[symbols[j]] == Repriced(before[symbols[j]], prices[j]))
    && (forall s | s in before && s !in symbols[..n] :: after[s] == before[s])
  }

  lemma NoneRepriced(markets: Markets, symbols: seq<string>, prices: seq<Dec>)
    ensures AllRepriced(markets, markets, symbols, prices, 0)
  {
  }

  lemma MoreRepriced(before: Markets, now: Markets, next: Markets, symbols: seq<string>, prices: seq<Dec>, i: nat)
    requires i < |symbols| && i < |prices| && Distinct(symbols) && symbols[i] in before
             && AllRepriced(before, now, symbols, prices, i)
    requires next == if prices[i] == 0 then now
    else now[symbols[i] := before[symbols[i]].(lastExecutedPrice := prices[i])]
    ensures AllRepriced(before, next, symbols, prices, i + 1)
  {
    assert symbols[..i + 1] == symbols[..i] + [symbols[i]];
    assert symbols[i] !in symbols[..i];
    forall j | 0 <= j < i + 1 ensures symbols[j] in before && next[symbols[j]] ==
        Repriced(before[symbols[j]], prices[j]) {
      if j < i { assert symbols[j] != symbols[i]; }
    }
    forall s | s in before && s !in symbols[..i + 1] ensures next[s] == before[s] {
      assert s !in symbols[..i] && s != symbols[i];
    }
  }

  /** The changed orders of one market, among all that are to be written back. */
  ghost predicate Writable(updates: Book, rest: Book, book: Book)
  {
    IsPart(updates, rest) && forall id | id in updates ::
        id in book && updates[id].terms == book[id].terms && updates[id].terms.id == id
  }

  // ------------------------------------------------------------ what a block is

  /** The whole block: the exchange after it is the exchange before it after some valid deals and
      the closing of the orders that left the book. */
  ghost predicate Blocked(x: Exchange, z: Exchange, forbidden: Forbidden, rules: FeeRules, deals: seq<Deal>)
  {
    ValidRun(x, forbidden, deals) && Closings(Replay(x, forbidden, deals), z, forbidden, rules)
  }

  /** What the deals of a block were, market by market: one price for each, which is its last
      price from then on; and the whole book of a marked market cleared at it, seen before any
      order was closed. */
  ghost predicate Auctioned(x: Exchange, data: map<ByteKeys.Key, Value>, before: Markets, after: Markets,
                            deals: seq<Deal>, params: Params, tieBreak: OrderID -> int, forbidden: Forbidden)
  {
    && after.Keys == before.Keys
    && forall s | s in before ::
      exists p :: TurnOf(x.orders, Replay(x, forbidden, deals).orders, deals, before[s], s, p,
                         MarkKey(s) in data && !Halted(before[s], params), params.maxChangeRatio, tieBreak, forbidden)
               && after[s] == Repriced(before[s], p)
  }

  /** Exactly the orders that are done are gone after a block. */
  ghost predicate LeftWhenDone(x: Exchange, after: Book, deals: seq<Deal>, data: map<ByteKeys.Key, Value>,
                               markets: Markets, params: Params, forbidden: Forbidden)
  {
    var dealt := Replay(x, forbidden, deals).orders;
    x.orders.Keys <= dealt.Keys && Remains(x.orders, dealt, after, Parties(deals), data, markets, params)
  }

  /** An order that is not done and took no part in a deal is still there, as it was. */
  lemma BystanderStays(x: Exchange, z: Exchange, deals: seq<Deal>, data: map<ByteKeys.Key, Value>, markets: Markets,
                       params: Params, forbidden: Forbidden, id: OrderID)
    requires LeftWhenDone(x, z.orders, deals, data, markets, params, forbidden)
             && Blocked(x, z, forbidden, params.rules, deals)
    requires id in x.orders && id !in Parties(deals) && !Gone(x.orders[id])
    ensures id in z.orders && z.orders[id] == x.orders[id]
  {
    hide Replay, ValidRun, Lists, CloseAll, SoundOnes, Gone, IsDue;
    RunTouchesParties(x, forbidden, deals, id);
    var closed :| ClosesTo(Replay(x, forbidden, deals), z, forbidden, params.rules, closed);
  }

  /** Of the orders that dealt, those with nothing left and those good for one block only are gone;
      every other order with something left is still there, as the deals left it. */
  lemma StaysUnlessDone(x: Exchange, z: Exchange, deals: seq<Deal>, data: map<ByteKeys.Key, Value>, markets: Markets,
                        params: Params, forbidden: Forbidden, id: OrderID)
    requires LeftWhenDone(x, z.orders, deals, data, markets, params, forbidden)
             && Blocked(x, z, forbidden, params.rules, deals) && id in x.orders
    ensures var dealt := Replay(x, forbidden, deals).orders;
            && id in dealt
            && (dealt[id].leftStock > 0 && x.orders[id].terms.timeInForce == GTE ==>
                id in z.orders && z.orders[id] == dealt[id])
            && (id in Parties(deals) && (dealt[id].leftStock == 0 || x.orders[id].terms.timeInForce == IOC) ==>
                id !in z.orders)
  {
    hide Replay, ValidRun, Lists, CloseAll, SoundOnes, IsDue;
    RunKeepsTerms(x, forbidden, deals);
    var closed :| ClosesTo(Replay(x, forbidden, deals), z, forbidden, params.rules, closed);
  }

  /** Whoever is barred takes no part in a deal. */
  lemma {:induction false} BarredDealNothing(x: Exchange, forbidden: Forbidden, deals: seq<Deal>, id: OrderID)
    requires ValidRun(x, forbidden, deals) && id in x.orders
             && Barred(forbidden, x.orders[id].terms.symbol, x.orders[id].terms.sender)
    ensures id !in Parties(deals)
  {
    hide Barred, Apply;
    if deals != [] {
      BarredDealNothing(x, forbidden, deals[..|deals| - 1], id);
      RunKeepsTerms(x, forbidden, deals[..|deals| - 1]);
    }
  }

  /** Nor does an order of a market in which nothing is dealt. */
  lemma {:induction false} IdleDealNothing(x: Exchange, forbidden: Forbidden, deals: seq<Deal>, symbol: string,
                                           id: OrderID)
    requires ValidRun(x, forbidden, deals) && NoDealIn(deals, x.orders, symbol) && id in x.orders
             && x.orders[id].terms.symbol == symbol
    ensures id !in Parties(deals)
  {
    hide Unbarred, Apply;
    if deals != [] {
      var front := deals[..|deals| - 1];
      assert forall i | 0 <= i < |front| :: front[i] == deals[i];
      IdleDealNothing(x, forbidden, front, symbol, id);
      RunKeepsTerms(x, forbidden, front);
      assert !DealIn(deals[|deals| - 1], x.orders, symbol);
    }
  }

  lemma NothingLeft(x: Exchange, data: map<ByteKeys.Key, Value>, markets: Markets, params: Params, forbidden: Forbidden)
    requires forall id | id in x.orders :: StoreKeys.ZeroFree(x.orders[id].terms.symbol)
    requires forall s | StoreKeys.ZeroFree(s) :: MarkKey(s) !in data
    ensures LeftWhenDone(x, x.orders, [], data, markets, params, forbidden)
  {
    hide MarkKey, StoreKeys.ZeroFree;
    NothingLeaves(x.orders, data, markets, params);
  }

  lemma DoneAreLeft(x: Exchange, y: Exchange, pending: Book, after: Book, deals: seq<Deal>, lists: seq<Book>,
                    infos: seq<MarketInfo>, symbols: seq<string>, data: map<ByteKeys.Key, Value>, markets: Markets,
                    params: Params, forbidden: Forbidden)
    requires InRun(x, y, forbidden, deals) && y.orders == x.orders + pending
    requires |lists| == |infos| == |symbols| && WrittenBack(x.orders, after, lists, |lists|)
             && Owed(lists, 0, symbols, x.orders, pending)
    requires AllChanged(lists, infos, symbols, |lists|, x.orders, params, Parties(deals))
             && Parties(deals) <= pending.Keys
    requires forall id | id in x.orders :: StoreKeys.ZeroFree(x.orders[id].terms.symbol)
    requires forall s | StoreKeys.ZeroFree(s) :: s in symbols <==> MarkKey(s) in data
    requires forall j | 0 <= j < |infos| ::
             StoreKeys.ZeroFree(symbols[j]) && symbols[j] in markets && infos[j] == markets[symbols[j]]
    ensures LeftWhenDone(x, after, deals, data, markets, params, forbidden)
  {
    hide WrittenBack, Owed, AllChanged, MarkKey, StoreKeys.ZeroFree, Remains, Replay, ValidRun;
    DoneLeave(x.orders, after, lists, infos, symbols, pending, Parties(deals), data, markets, params);
  }

  /** Every order that is still on the book after a block kept its accounts through its deals. */
  lemma OrdersOverABlock(x: Exchange, z: Exchange, forbidden: Forbidden, rules: FeeRules, deals: seq<Deal>, id: OrderID)
    requires Solvent(x) && Blocked(x, z, forbidden, rules, deals) && id in z.orders
    ensures id in x.orders && z.orders[id].terms == x.orders[id].terms
            && Accounted(x.orders[id], z.orders[id], DealsOf(deals, id))
  {
    hide Replay, ValidRun, Accounted, Lists, CloseAll, SoundOnes;
    var closed :| ClosesTo(Replay(x, forbidden, deals), z, forbidden, rules, closed);
    RunKeepsTerms(x, forbidden, deals);
    RunAccounts(x, forbidden, deals, id);
  }

  lemma NothingBlocked(x: Exchange, forbidden: Forbidden, rules: FeeRules)
    requires ValidRules(rules)
    ensures Blocked(x, x, forbidden, rules, [])
  {
    NoClosing(x, forbidden, rules);
  }

  lemma JustClosings(x: Exchange, z: Exchange, forbidden: Forbidden, rules: FeeRules)
    requires Closings(x, z, forbidden, rules)
    ensures Blocked(x, z, forbidden, rules, [])
  {
    hide Closings;
  }

  lemma NowBlocked(x: Exchange, y: Exchange, z: Exchange, forbidden: Forbidden, rules: FeeRules, deals: seq<Deal>)
    requires InRun(x, y, forbidden, deals) && Closings(y, z, forbidden, rules)
    ensures Blocked(x, z, forbidden, rules, deals)
  {
    hide Replay, ValidRun, Closings;
  }

  lemma NothingAuctioned(x: Exchange, data: map<ByteKeys.Key, Value>, markets: Markets, params: Params,
                         tieBreak: OrderID -> int, forbidden: Forbidden)
    requires forall s | s in markets :: MarkKey(s) !in data
    ensures Auctioned(x, data, markets, markets, [], params, tieBreak, forbidden)
  {
    hide ClearsTheMarket, NobodyBarred, Unambiguous, HighPrice, LowPrice, Replay;
    forall s | s in markets
      ensures exists p :: TurnOf(x.orders, Replay(x, forbidden, []).orders, [], markets[s], s, p, MarkKey(s) in data
                                 && !Halted(markets[s], params),
                                 params.maxChangeRatio, tieBreak, forbidden) && markets[s] == Repriced(markets[s], p)
    {
      SamePrice(markets[s]);
      assert TurnOf(x.orders, Replay(x, forbidden, []).orders, [], markets[s], s, 0, false, params.maxChangeRatio,
                    tieBreak, forbidden);
    }
  }

  lemma AllAuctioned(x: Exchange, y: Exchange, data: map<ByteKeys.Key, Value>, before: Markets, after: Markets,
                     lists: seq<Book>, infos: seq<MarketInfo>, symbols: seq<string>, prices: seq<Dec>, deals: seq<Deal>,
                     params: Params, tieBreak: OrderID -> int, forbidden: Forbidden)
    requires InRun(x, y, forbidden, deals) && DealsWithin(deals, x.orders, symbols, |symbols|)
    requires |symbols| == |infos| == |prices| == |lists| && forall j | 0 <= j < |infos| ::
             symbols[j] in before && infos[j] == before[symbols[j]]
    requires forall j | 0 <= j < |infos| :: Took(x.orders, y.orders, deals, lists[j], infos[j], symbols[j], prices[j],
                                                 params, tieBreak, forbidden)
    requires AllRepriced(before, after, symbols, prices, |symbols|)
    requires forall s | s in before :: s in symbols <==> MarkKey(s) in data
    ensures Auctioned(x, data, before, after, deals, params, tieBreak, forbidden)
  {
    hide ClearsTheMarket, NobodyBarred, Unambiguous, HighPrice, LowPrice, Priced, Replay, ValidRun, Repriced;
    assert symbols[..|symbols|] == symbols;
    forall s | s in before
      ensures exists p :: TurnOf(x.orders, y.orders, deals, before[s], s, p, MarkKey(s) in data
                                 && !Halted(before[s], params),
                                 params.maxChangeRatio, tieBreak, forbidden) && after[s] == Repriced(before[s], p)
    {
      if s in symbols {
        var j :| 0 <= j < |symbols| && symbols[j] == s;
        assert Took(x.orders, y.orders, deals, lists[j], infos[j], symbols[j], prices[j], params, tieBreak, forbidden);
      } else {
        NoDealsPriced(deals, x.orders, symbols, |symbols|, s);
        SamePrice(before[s]);
        assert TurnOf(x.orders, y.orders, deals, before[s], s, 0, false, params.maxChangeRatio, tieBreak, forbidden);
      }
    }
  }

  lemma SamePrice(info: MarketInfo)
    ensures Repriced(info, 0) == info
  {
  }
}
