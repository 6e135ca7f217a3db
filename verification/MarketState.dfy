/** What holds of the market module between any two of its steps, and why the elementary
    changes of the store and of the book keep it. */
module MarketState {
  import opened Auction
  import opened ByteKeys
  import opened Decimals
  import opened Delist
  import opened Ledgers
  import opened MatchRun
  import opened Orders
  import opened OrderStore
  import opened Settlement
  import opened StoreKeys

  datatype MarketInfo = MarketInfo(stock: Denom, money: Denom, pricePrecision: nat, orderPrecision: nat,
                                   lastExecutedPrice: Dec)

  type Markets = map<string, MarketInfo>

  // ------------------------------------------------------------ marks

  predicate IsMark(k: Key) { k != [] && k == MarkKey(TextOf(k[1..])) && ZeroFree(TextOf(k[1..])) }

  /** Every newly-added mark names a market by its symbol. */
  ghost predicate Marked(data: map<Key, Value>)
  {
    forall k | k in data && k != [] && k[0] == NEWLY_ADDED :: IsMark(k)
  }

  lemma MarkIsMark(symbol: string)
    requires ZeroFree(symbol)
    ensures IsMark(MarkKey(symbol)) && MarkKey(symbol)[0] == NEWLY_ADDED && TextOf(MarkKey(symbol)[1..]) == symbol
  {
    TextOfBytes(symbol);
    assert MarkKey(symbol)[1..] == StringBytes(symbol);
  }

  lemma MarkKeyInjective(a: string, b: string)
    requires MarkKey(a) == MarkKey(b)
    ensures a == b
  {
    SlicePast([NEWLY_ADDED], StringBytes(a));
    SlicePast([NEWLY_ADDED], StringBytes(b));
    StringBytesInjective(a, b);
  }

  // ------------------------------------------------------------ the store

  /** The store agrees with the book, the delist requests and the marks. */
  ghost predicate Filed(data: map<Key, Value>, book: Book, requests: Requests)
  {
    Indexed(data, book) && DelistIndexed(data, requests) && Marked(data)
  }

  lemma FiledIsIndexed(data: map<Key, Value>, book: Book, requests: Requests)
    requires Filed(data, book, requests)
    ensures Indexed(data, book) && DelistIndexed(data, requests) && Marked(data)
  {
  }

  lemma OrdersKeepRest(before: map<Key, Value>, after: map<Key, Value>, requests: Requests)
    requires OnlyOrdersChanged(before, after) && DelistIndexed(before, requests) && Marked(before)
    ensures DelistIndexed(after, requests) && Marked(after)
  {
    forall s | s in requests ensures Requested(after, s, requests[s]) {
      assert Requested(before, s, requests[s]);
      KindsApart(requests[s], s, s);
    }
  }

  lemma DelistKeepsOrder(before: map<Key, Value>, after: map<Key, Value>, id: OrderID, o: Order)
    requires OnlyDelistChanged(before, after) && Kept(before, id, o)
    ensures Kept(after, id, o)
  {
    KeyTags(o.terms);
    hide BookKey, QueueKey, ListKey, ZeroFree;
  }

  lemma DelistKeepsRest(before: map<Key, Value>, after: map<Key, Value>, book: Book)
    requires OnlyDelistChanged(before, after) && Indexed(before, book) && Marked(before)
    ensures Indexed(after, book) && Marked(after)
  {
    hide Kept, Owned, IsMark;
    forall id | id in book ensures Kept(after, id, book[id]) { DelistKeepsOrder(before, after, id, book[id]); }
    forall k | k in after && IsOrderKey(k) ensures Owned(k, book) {
      assert !IsDelistKey(k);
    }
  }

  lemma MarksKeepRequests(data: map<Key, Value>, requests: Requests, symbol: string)
    requires DelistIndexed(data, requests)
    ensures DelistIndexed(data[MarkKey(symbol) := Mark], requests) && DelistIndexed(data - {MarkKey(symbol)}, requests)
  {
    assert MarkKey(symbol)[0] == NEWLY_ADDED;
    forall s | s in requests
      ensures Requested(data[MarkKey(symbol) := Mark], s, requests[s])
              && Requested(data - {MarkKey(symbol)}, s, requests[s])
    {
      assert Requested(data, s, requests[s]);
      KindsApart(requests[s], s, s);
    }
  }

  /** Setting or clearing a mark disturbs nothing else. */
  lemma MarksStand(data: map<Key, Value>, book: Book, requests: Requests, symbol: string)
    requires ZeroFree(symbol) && Filed(data, book, requests)
    ensures Filed(data[MarkKey(symbol) := Mark], book, requests) && Filed(data - {MarkKey(symbol)}, book, requests)
  {
    MarkIsMark(symbol);
    MarksKeepRequests(data, requests, symbol);
    MarkKeepsIndexes(data, book, symbol);
    hide IsMark, DelistIndexed, Indexed;
  }

  lemma MarkIsNoOrder(before: map<Key, Value>, after: map<Key, Value>, symbol: string)
    requires OnlyOrdersChanged(before, after) || OnlyDelistChanged(before, after)
    ensures MarkKey(symbol) in after <==> MarkKey(symbol) in before
  {
    assert MarkKey(symbol)[0] == NEWLY_ADDED;
  }

  lemma StoredIsStorable(data: map<Key, Value>, book: Book, id: OrderID)
    requires Indexed(data, book) && id in book
    ensures Storable(book[id].terms) && book[id].terms.id == id
  {
    assert Kept(data, id, book[id]);
  }

  // ------------------------------------------------------------ the book

  ghost predicate AllOpen(book: Book)
  {
    forall id | id in book :: book[id].leftStock > 0
  }

  /** Whom issuers forbade to trade when each market was last matched. */
  type Views = map<string, Forbidden>

  function LastView(views: Views, symbol: string): Forbidden { if symbol in views then views[symbol] else Nobody }

  /** A market without a mark was matched after its last new order, so it is quiet, as far as those
      go who were not forbidden then. */
  ghost predicate Calm(data: map<Key, Value>, book: Book, views: Views)
  {
    forall s | ZeroFree(s) && MarkKey(s) !in data :: Quiet(book, s, LastView(views, s))
  }

  predicate SameMarket(a: Book, b: Book, symbol: string)
  {
    && (forall id | id in a && a[id].terms.symbol == symbol :: id in b && b[id] == a[id])
    && (forall id | id in b && b[id].terms.symbol == symbol :: id in a && a[id] == b[id])
  }

  lemma SameMarketQuiet(a: Book, b: Book, symbol: string, forbidden: Forbidden)
    requires SameMarket(a, b, symbol) && Quiet(a, symbol, forbidden)
    ensures Quiet(b, symbol, forbidden)
  {
    hide Barred;
    forall x, y | Tradable(b, x, Bid, symbol, forbidden) && Tradable(b, y, Ask, symbol, forbidden)
      ensures b[x].terms.price < b[y].terms.price
    {
      assert Tradable(a, x, Bid, symbol, forbidden) && Tradable(a, y, Ask, symbol, forbidden);
    }
  }

  lemma FewerOrdersQuiet(a: Book, b: Book, symbol: string, forbidden: Forbidden)
    requires Quiet(a, symbol, forbidden) && forall id | id in b :: id in a && a[id] == b[id]
    ensures Quiet(b, symbol, forbidden)
  {
    hide Barred;
    forall x, y | Tradable(b, x, Bid, symbol, forbidden) && Tradable(b, y, Ask, symbol, forbidden)
      ensures b[x].terms.price < b[y].terms.price
    {
      assert Tradable(a, x, Bid, symbol, forbidden) && Tradable(a, y, Ask, symbol, forbidden);
    }
  }

  lemma RemovalKeepsCalm(before: map<Key, Value>, after: map<Key, Value>, a: Book, b: Book, views: Views)
    requires Calm(before, a, views) && (forall id | id in b :: id in a && a[id] == b[id])
    requires OnlyOrdersChanged(before, after) || OnlyDelistChanged(before, after)
    ensures Calm(after, b, views)
  {
    hide Quiet, OnlyOrdersChanged, OnlyDelistChanged;
    forall s | ZeroFree(s) && MarkKey(s) !in after ensures Quiet(b, s, LastView(views, s)) {
      MarkIsNoOrder(before, after, s);
      FewerOrdersQuiet(a, b, s, LastView(views, s));
    }
  }

  lemma EntryKeepsCalm(before: map<Key, Value>, after: map<Key, Value>, a: Book, o: Order, views: Views)
    requires Calm(before, a, views) && OnlyOrdersChanged(before[MarkKey(o.terms.symbol) := Mark], after)
             && o.terms.id !in a
    ensures Calm(after, a[o.terms.id := o], views)
  {
    hide Quiet, OnlyOrdersChanged;
    forall s | ZeroFree(s) && MarkKey(s) !in after ensures Quiet(a[o.terms.id := o], s, LastView(views, s)) {
      MarkIsNoOrder(before[MarkKey(o.terms.symbol) := Mark], after, s);
      assert s != o.terms.symbol;
      SameMarketQuiet(a, a[o.terms.id := o], s, LastView(views, s));
    }
  }

  lemma MatchKeepsCalm(before: map<Key, Value>, symbol: string, a: Book, updates: Book, views: Views,
                       forbidden: Forbidden)
    requires Calm(before, a, views) && Quiet(a + updates, symbol, forbidden)
    requires forall id | id in updates ::
             updates[id].terms.symbol == symbol && id in a && a[id].terms == updates[id].terms
    ensures Calm(before - {MarkKey(symbol)}, a + updates, views[symbol := forbidden])
  {
    hide Quiet;
    forall s | ZeroFree(s) && MarkKey(s) !in before - {MarkKey(symbol)}
      ensures Quiet(a + updates, s, LastView(views[symbol := forbidden], s)) {
      if s != symbol {
        if MarkKey(s) == MarkKey(symbol) { MarkKeyInjective(s, symbol); }
        SameMarketQuiet(a, a + updates, s, LastView(views, s));
      }
    }
  }

  /** A match of one market in the middle of a block, with other markets' changes pending. */
  lemma TurnKeepsCalm(data: map<Key, Value>, symbol: string, book: Book, pending: Book, updates: Book, views: Views,
                      forbidden: Forbidden)
    requires Calm(data, book + pending, views) && Quiet(book + updates, symbol, forbidden)
    requires forall id | id in pending ::
             id in book && pending[id].terms.symbol != symbol && book[id].terms == pending[id].terms
    requires forall id | id in updates ::
             id in book && updates[id].terms == book[id].terms && updates[id].terms.symbol == symbol
    ensures book + (pending + updates) == (book + pending) + updates
    ensures Calm(data - {MarkKey(symbol)}, book + (pending + updates), views[symbol := forbidden])
  {
    hide Calm, Quiet;
    assert book + (pending + updates) == (book + pending) + updates;
    SameMarketQuiet(book + updates, book + (pending + updates), symbol, forbidden);
    MatchKeepsCalm(data, symbol, book + pending, updates, views, forbidden);
  }

  /** Markets and delist requests go by proper symbols. */
  ghost predicate WellNamed(markets: Markets, requests: Requests)
  {
    && (forall s | s in markets :: ZeroFree(s) && s == GetSymbol(markets[s].stock, markets[s].money))
    && (forall s | s in requests :: ZeroFree(s))
  }

  lemma OrderIsSound(x: Exchange, id: OrderID)
    requires Solvent(x) && id in x.orders
    ensures Sound(x.orders[id]) && x.orders[id].terms.id == id
  {
  }

  lemma NoOrdersSolvent(ledger: Ledger)
    ensures Solvent(Exchange(map[], ledger))
  {
    forall k ensures Surplus(Exchange(map[], ledger), k) >= 0 {}
  }
}
