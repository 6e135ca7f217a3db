/** The keeper of one market's orders: a book of orders by identifier, a queue by height, and
    lists of bids and asks by price, all in one byte-ordered store. `book` is the plain map
    that these four indexes stand for. */
module OrderStore {
  import opened Auction
  import opened ByteKeys
  import opened KVStores
  import opened Orders
  import opened Slices
  import opened StoreKeys

  /** The values of the market store; the indexes hold empty ones. */
  datatype Value = OrderValue(order: Order) | Empty | Mark | SymbolValue(symbol: string) | TimeValue(time: nat)

  type Book = map<OrderID, Order>

  datatype Option<T> = None | Some(value: T)

  /** The two kinds of index. */
  datatype Index = Queue | List

  function IndexKey(index: Index, t: Terms): Key
    requires Storable(t)
  {
    if index == Queue then QueueKey(t) else ListKey(t)
  }

  function BookKey(id: OrderID): Key { OrderBookKey(StringBytes(id)) }

  predicate IsOrderKey(k: Key) { k != [] && ORDER_BOOK <= k[0] <= ORDER_QUEUE }

  ghost predicate IsKeyOf(k: Key, t: Terms)
  {
    Storable(t) && (k == BookKey(t.id) || k == QueueKey(t) || k == ListKey(t))
  }

  /** The order `o` is in the book under `id` and in both indexes. */
  ghost predicate Kept(data: map<Key, Value>, id: OrderID, o: Order)
  {
    && o.terms.id == id && Storable(o.terms)
    && BookKey(id) in data && data[BookKey(id)] == OrderValue(o)
    && QueueKey(o.terms) in data && ListKey(o.terms) in data
  }

  ghost predicate Owned(k: Key, book: Book)
  {
    exists id :: id in book && IsKeyOf(k, book[id].terms)
  }

  /** The store holds the orders of `book` in all indexes, and no other order in any of them. */
  ghost predicate Indexed(data: map<Key, Value>, book: Book)
  {
    && (forall id | id in book :: Kept(data, id, book[id]))
    && (forall k | k in data && IsOrderKey(k) :: Owned(k, book))
  }

  /** Nothing but keys of orders differs. */
  ghost predicate OnlyOrdersChanged(before: map<Key, Value>, after: map<Key, Value>)
  {
    forall k | !IsOrderKey(k) :: (k in after <==> k in before) && (k in before ==> after[k] == before[k])
  }

  lemma KeyTags(t: Terms)
    requires Storable(t)
    ensures BookKey(t.id) != [] && BookKey(t.id)[0] == ORDER_BOOK
    ensures QueueKey(t) != [] && QueueKey(t)[0] == ORDER_QUEUE
    ensures ListKey(t) != [] && ListKey(t)[0] == ListTag(t.side)
  {
  }

  /** No two orders share a key, whatever the index. */
  lemma KeyTellsOrder(k: Key, s: Terms, t: Terms)
    requires IsKeyOf(k, s) && IsKeyOf(k, t)
    ensures s.id == t.id
    ensures k == BookKey(s.id) <==> k == BookKey(t.id)
    ensures k == QueueKey(s) <==> k == QueueKey(t)
    ensures k == ListKey(s) <==> k == ListKey(t)
  {
    KeyTags(s);
    KeyTags(t);
    hide QueueKey, ListKey, BookKey, ZeroFree, StringBytes;
    if k[0] == ORDER_BOOK {
      SameBookKey(s.id, t.id);
    } else if k[0] == ORDER_QUEUE {
      SameQueueKey(s, t);
    } else {
      SameListKey(s, t);
    }
  }

  lemma SameBookKey(a: OrderID, b: OrderID)
    requires BookKey(a) == BookKey(b)
    ensures a == b
  {
    SlicePast([ORDER_BOOK, 0], StringBytes(a));
    SlicePast([ORDER_BOOK, 0], StringBytes(b));
    StringBytesInjective(a, b);
  }

  lemma SameQueueKey(s: Terms, t: Terms)
    requires Storable(s) && Storable(t) && QueueKey(s) == QueueKey(t)
    ensures s.id == t.id && s.symbol == t.symbol && s.height == t.height
  {
    NumberedKeyInjective(ORDER_QUEUE, s.symbol, s.height, HEIGHT_BYTES, s.id, ORDER_QUEUE, t.symbol, t.height, t.id);
  }

  lemma SameListKey(s: Terms, t: Terms)
    requires Storable(s) && Storable(t) && ListKey(s) == ListKey(t)
    ensures s.id == t.id && s.symbol == t.symbol && s.price == t.price && s.side == t.side
  {
    NumberedKeyInjective(ListTag(s.side), s.symbol, s.price, DEC_BYTE_COUNT, s.id, ListTag(t.side), t.symbol, t.price,
                         t.id);
  }

  // ------------------------------------------------------------ updates

  function Stored(data: map<Key, Value>, o: Order): map<Key, Value>
    requires Storable(o.terms)
  {
    data[BookKey(o.terms.id) := OrderValue(o)][QueueKey(o.terms) := Empty][ListKey(o.terms) := Empty]
  }

  function Erased(data: map<Key, Value>, t: Terms): map<Key, Value>
    requires Storable(t)
  {
    data - {BookKey(t.id)} - {QueueKey(t)} - {ListKey(t)}
  }

  /** Writing or erasing one order leaves every other order where it is. */
  lemma OthersKept(data: map<Key, Value>, o: Order, id: OrderID, p: Order)
    requires Storable(o.terms) && Kept(data, id, p) && id != o.terms.id
    ensures Kept(Stored(data, o), id, p) && Kept(Erased(data, o.terms), id, p)
  {
    OtherKeysStay(p.terms, o.terms);
    hide QueueKey, ListKey, BookKey, ZeroFree;
  }

  lemma StoredIsKept(data: map<Key, Value>, o: Order)
    requires Storable(o.terms)
    ensures Kept(Stored(data, o), o.terms.id, o) && OnlyOrdersChanged(data, Stored(data, o))
  {
    KeyTags(o.terms);
    hide QueueKey, ListKey, BookKey, ZeroFree;
  }

  lemma StoredIsOwned(data: map<Key, Value>, book: Book, o: Order, k: Key)
    requires Storable(o.terms) && k in Stored(data, o) && (k in data ==> Owned(k, book))
    requires o.terms.id in book ==> book[o.terms.id].terms == o.terms
    ensures Owned(k, book[o.terms.id := o])
  {
    hide QueueKey, ListKey, BookKey, ZeroFree;
    var next := book[o.terms.id := o];
    if IsKeyOf(k, o.terms) {
      assert IsKeyOf(k, next[o.terms.id].terms);
    } else {
      var id :| id in book && IsKeyOf(k, book[id].terms);
      assert IsKeyOf(k, next[id].terms);
    }
  }

  lemma UpdateIndexes(data: map<Key, Value>, book: Book, o: Order)
    requires Indexed(data, book) && Storable(o.terms)
    requires o.terms.id in book ==> book[o.terms.id].terms == o.terms
    ensures Indexed(Stored(data, o), book[o.terms.id := o]) && OnlyOrdersChanged(data, Stored(data, o))
  {
    StoredIsKept(data, o);
    hide Stored, Kept, Owned, OnlyOrdersChanged;
    var next := book[o.terms.id := o];
    forall id | id in next ensures Kept(Stored(data, o), id, next[id]) {
      if id != o.terms.id { OthersKept(data, o, id, book[id]); }
    }
    forall k | k in Stored(data, o) && IsOrderKey(k) ensures Owned(k, next) {
      StoredIsOwned(data, book, o, k);
    }
  }

  lemma ErasedIsOwned(data: map<Key, Value>, book: Book, o: Order, k: Key)
    requires Storable(o.terms) && k in Erased(data, o.terms) && Owned(k, book)
    requires o.terms.id in book ==> book[o.terms.id].terms == o.terms
    ensures Owned(k, book - {o.terms.id})
  {
    hide QueueKey, ListKey, BookKey, ZeroFree;
    var next := book - {o.terms.id};
    var id :| id in book && IsKeyOf(k, book[id].terms);
    assert IsKeyOf(k, next[id].terms);
  }

  lemma ErasedOnlyOrders(data: map<Key, Value>, t: Terms)
    requires Storable(t)
    ensures OnlyOrdersChanged(data, Erased(data, t))
  {
    KeyTags(t);
    hide QueueKey, ListKey, BookKey, ZeroFree;
  }

  lemma RemoveIndexes(data: map<Key, Value>, book: Book, o: Order)
    requires Indexed(data, book) && Storable(o.terms) && o.terms.id in book && book[o.terms.id].terms == o.terms
    ensures Indexed(Erased(data, o.terms), book - {o.terms.id}) && OnlyOrdersChanged(data, Erased(data, o.terms))
  {
    ErasedOnlyOrders(data, o.terms);
    hide Kept, Owned, OnlyOrdersChanged;
    var next := book - {o.terms.id};
    forall id | id in next ensures Kept(Erased(data, o.terms), id, next[id]) {
      OthersKept(data, o, id, book[id]);
    }
    forall k | k in Erased(data, o.terms) && IsOrderKey(k) ensures Owned(k, next) {
      ErasedIsOwned(data, book, o, k);
    }
  }

  lemma OtherKeysStay(s: Terms, t: Terms)
    requires Storable(s) && Storable(t) && s.id != t.id
    ensures !IsKeyOf(BookKey(s.id), t) && !IsKeyOf(QueueKey(s), t) && !IsKeyOf(ListKey(s), t)
  {
    hide QueueKey, ListKey, BookKey, ZeroFree;
    if IsKeyOf(BookKey(s.id), t) { KeyTellsOrder(BookKey(s.id), s, t); }
    if IsKeyOf(QueueKey(s), t) { KeyTellsOrder(QueueKey(s), s, t); }
    if IsKeyOf(ListKey(s), t) { KeyTellsOrder(ListKey(s), s, t); }
  }

  // ------------------------------------------------------------ scans

  ghost function Owner(k: Key, book: Book): (id: OrderID)
    requires Owned(k, book)
    ensures id in book && IsKeyOf(k, book[id].terms)
  {
    var id :| id in book && IsKeyOf(k, book[id].terms);
    id
  }

  predicate InIndex(index: Index, side: Side, symbol: string, t: Terms)
  {
    t.symbol == symbol && (index == List ==> t.side == side)
  }

  function IndexTag(index: Index, side: Side): int { if index == Queue then ORDER_QUEUE else ListTag(side) }

  function IndexNumber(index: Index, t: Terms): int { if index == Queue then t.height else t.price }

  function IndexWidth(index: Index): nat { if index == Queue then HEIGHT_BYTES else DEC_BYTE_COUNT }

  lemma IndexKeyForm(index: Index, t: Terms)
    requires Storable(t)
    ensures 0 <= IndexNumber(index, t) < Pow256(IndexWidth(index))
    ensures IndexKey(index, t) == NumberedKey(IndexTag(index, t.side), t.symbol, IndexNumber(index, t),
                                              IndexWidth(index), t.id)
  {
  }

  /** A key that starts with a market's prefix is the key of one of that market's orders. */
  lemma ScannedKey(index: Index, side: Side, symbol: string, data: map<Key, Value>, book: Book, k: Key)
    requires Indexed(data, book) && ZeroFree(symbol) && k in data && SymbolPrefix(IndexTag(index, side), symbol) <= k
    ensures Owned(k, book)
    ensures var t := book[Owner(k, book)].terms;
            && t.id == Owner(k, book) && Storable(t) && k == IndexKey(index, t) && InIndex(index, side, symbol, t)
  {
    assert k[0] == IndexTag(index, side);
    assert Owned(k, book);
    var id := Owner(k, book);
    assert Kept(data, id, book[id]);
    var t := book[id].terms;
    KeyTags(t);
    var other := if k == QueueKey(t) then Queue else List;
    IndexKeyForm(other, t);
    PrefixTellsSymbol(IndexTag(index, side), symbol, IndexTag(other, t.side), t.symbol,
                      BigEndian(IndexNumber(other, t), IndexWidth(other)) + StringBytes(t.id));
  }

  // ------------------------------------------------------------ answers

  function Ids(os: seq<Order>): (ids: seq<OrderID>)
    ensures |ids| == |os| && forall i | 0 <= i < |os| :: ids[i] == os[i].terms.id
  {
    seq(|os|, i requires 0 <= i < |os| => os[i].terms.id)
  }

  /** `os` are the orders of `book` whose identifiers are in `wanted`, each once. */
  ghost predicate Lists(os: seq<Order>, book: Book, wanted: set<OrderID>)
  {
    && Distinct(Ids(os))
    && (forall id :: id in Ids(os) <==> id in wanted)
    && (forall i | 0 <= i < |os| :: os[i].terms.id in book && os[i] == book[os[i].terms.id])
  }

  /** The identifiers at the end of index keys. */
  function Tails(keys: seq<Key>, position: nat): (ids: seq<Key>)
    requires forall i | 0 <= i < |keys| :: position <= |keys[i]|
    ensures |ids| == |keys| && forall i | 0 <= i < |keys| :: ids[i] == keys[i][position..]
  {
    seq(|keys|, i requires 0 <= i < |keys| => keys[i][position..])
  }

  ghost predicate Named(ids: seq<Key>, names: seq<OrderID>, book: Book)
  {
    |ids| == |names| && forall i | 0 <= i < |ids| :: names[i] in book && ids[i] == StringBytes(names[i])
  }

  lemma FetchedLists(os: seq<Order>, names: seq<OrderID>, data: map<Key, Value>, book: Book, wanted: set<OrderID>)
    requires Indexed(data, book) && |os| == |names| && Distinct(names)
    requires forall i | 0 <= i < |os| :: names[i] in book && os[i] == book[names[i]]
    requires forall id :: id in names <==> id in wanted
    ensures Lists(os, book, wanted)
  {
    forall i | 0 <= i < |os| ensures os[i].terms.id == names[i] {
      assert Kept(data, names[i], book[names[i]]);
    }
    assert Ids(os) == names;
  }

  ghost function OlderThan(book: Book, symbol: string, height: int): set<OrderID>
  {
    set id | id in book && book[id].terms.symbol == symbol && book[id].terms.height < height
  }

  ghost function AtHeight(book: Book, symbol: string, height: int): set<OrderID>
  {
    set id | id in book && book[id].terms.symbol == symbol && book[id].terms.height == height
  }

  /** Somebody on the other side of the market accepts the order's own limit price. */
  ghost predicate Meets(book: Book, symbol: string, id: OrderID)
    requires id in book
  {
    if book[id].terms.side == Bid
    then exists a ::
        a in book && book[a].terms.symbol == symbol && book[a].terms.side == Ask
            && book[a].terms.price <= book[id].terms.price
    else exists b ::
        b in book && book[b].terms.symbol == symbol && book[b].terms.side == Bid
            && book[b].terms.price >= book[id].terms.price
  }

  ghost function Candidates(book: Book, symbol: string): set<OrderID>
  {
    set id | id in book && book[id].terms.symbol == symbol && Meets(book, symbol, id)
  }

  /** The keys of one side's price list, best price first, and the orders they belong to. */
  ghost predicate ListOfSide(side: Side, symbol: string, book: Book, keys: seq<Key>, names: seq<OrderID>)
  {
    && |names| == |keys| && Distinct(names)
    && (forall i | 0 <= i < |keys| :: IsScanned(List, side, symbol, keys[i], names[i], book))
    && (forall id | id in book && InIndex(List, side, symbol, book[id].terms) :: id in names)
    && (forall i, j | 0 <= i < j < |keys| :: NoBetter(side, book, names[j], names[i]))
  }

  predicate NoBetter(side: Side, book: Book, a: OrderID, b: OrderID)
  {
    a in book && b in book && if side == Bid then book[a].terms.price <= book[b].terms.price
    else book[a].terms.price >= book[b].terms.price
  }

  lemma ListScan(side: Side, symbol: string, data: map<Key, Value>, book: Book, keys: seq<Key>)
    returns (names: seq<OrderID>)
    requires Indexed(data, book) && ZeroFree(symbol)
    requires Listing(data, SymbolPrefix(ListTag(side), symbol), SymbolEnd(ListTag(side), symbol), keys)
    requires if side == Bid then Descending(keys) else Ascending(keys)
    ensures ListOfSide(side, symbol, book, keys, names)
  {
    hide Indexed, InRange, Pow256, BigEndian, SymbolPrefix, SymbolEnd, ZeroFree, Less, IndexKey;
    forall k | k in keys ensures k in data && SymbolPrefix(IndexTag(List, side), symbol) <= k {
      MarketRange(ListTag(side), symbol, k);
    }
    names := ScannedKeys(List, side, symbol, data, book, keys, |symbol| + 2 + DEC_BYTE_COUNT);
    forall id | id in book && InIndex(List, side, symbol, book[id].terms) ensures id in names {
      ListedInRange(side, symbol, data, book, id);
      var i :| 0 <= i < |keys| && keys[i] == IndexKey(List, book[id].terms);
      assert IsScanned(List, side, symbol, keys[i], names[i], book);
      OneListKey(book[id].terms, book[names[i]].terms);
    }
    forall i, j | 0 <= i < j < |keys| ensures NoBetter(side, book, names[j], names[i]) {
      assert IsScanned(List, side, symbol, keys[i], names[i], book)
             && IsScanned(List, side, symbol, keys[j], names[j], book);
      if side == Bid {
        LaterListKey(side, symbol, book[names[j]].terms, book[names[i]].terms);
      } else {
        LaterListKey(side, symbol, book[names[i]].terms, book[names[j]].terms);
      }
    }
  }

  lemma ListedInRange(side: Side, symbol: string, data: map<Key, Value>, book: Book, id: OrderID)
    requires Indexed(data, book) && ZeroFree(symbol) && id in book && InIndex(List, side, symbol, book[id].terms)
    ensures book[id].terms.id == id && Storable(book[id].terms)
    ensures IndexKey(List, book[id].terms) in data
    ensures InRange(SymbolPrefix(ListTag(side), symbol), SymbolEnd(ListTag(side), symbol),
                    IndexKey(List, book[id].terms))
  {
    assert Kept(data, id, book[id]);
    MarketRange(ListTag(side), symbol, IndexKey(List, book[id].terms));
  }

  lemma OneListKey(s: Terms, t: Terms)
    requires Storable(s) && Storable(t) && IndexKey(List, s) == IndexKey(List, t)
    ensures s.id == t.id
  {
    SameListKey(s, t);
  }

  lemma LaterListKey(side: Side, symbol: string, s: Terms, t: Terms)
    requires Storable(s) && Storable(t) && InIndex(List, side, symbol, s) && InIndex(List, side, symbol, t)
    requires Less(IndexKey(List, s), IndexKey(List, t))
    ensures s.price <= t.price
  {
    hide Pow256, NumberedKey;
    LaterKeyLargerNumber(ListTag(side), symbol, s.price, s.id, t.price, t.id, DEC_BYTE_COUNT);
  }

  /** The price and the identifier in a key of a price list. */
  lemma ListPrice(side: Side, symbol: string, book: Book, keys: seq<Key>, names: seq<OrderID>, i: nat)
    requires ListOfSide(side, symbol, book, keys, names) && i < |keys|
    ensures names[i] in book && 0 <= book[names[i]].terms.price < Pow256(DEC_BYTE_COUNT)
    ensures var p, q := |symbol| + 2, |symbol| + 2 + DEC_BYTE_COUNT;
            |keys[i]| >= q && keys[i][p..q] == BigEndian(book[names[i]].terms.price, DEC_BYTE_COUNT)
                && keys[i][q..] == StringBytes(names[i])
  {
    hide Pow256, NumberedKey;
    assert IsScanned(List, side, symbol, keys[i], names[i], book);
    NumberedKeyParts(ListTag(side), symbol, book[names[i]].terms.price, DEC_BYTE_COUNT, names[i], |symbol| + 2,
                     |symbol| + 2 + DEC_BYTE_COUNT);
  }

  lemma PricesCompare(book: Book, a: OrderID, b: OrderID)
    requires a in book && 0 <= book[a].terms.price < Pow256(DEC_BYTE_COUNT)
    requires b in book && 0 <= book[b].terms.price < Pow256(DEC_BYTE_COUNT)
    ensures Less(BigEndian(book[a].terms.price, DEC_BYTE_COUNT), BigEndian(book[b].terms.price, DEC_BYTE_COUNT))
       <==> book[a].terms.price < book[b].terms.price
  {
    BigEndianOrder(book[a].terms.price, book[b].terms.price, DEC_BYTE_COUNT);
  }

  method TakeAsks(symbol: string, firstBidPrice: Key, askKeys: seq<Key>, ghost bid: OrderID, ghost asks: seq<OrderID>,
                  ghost book: Book)
    returns (ids: seq<Key>, ghost m: nat)
    requires ListOfSide(Ask, symbol, book, askKeys, asks) && |askKeys| > 0
    requires bid in book && 0 <= book[bid].terms.price < Pow256(DEC_BYTE_COUNT)
    requires firstBidPrice == BigEndian(book[bid].terms.price, DEC_BYTE_COUNT)
    ensures 1 <= m <= |asks| == |askKeys| && |ids| == m - 1
    ensures forall i | 0 <= i < |ids| :: ids[i] == StringBytes(asks[i + 1])
    ensures forall i | 0 < i < m :: NoBetter(Bid, book, asks[i], bid)
    ensures m < |asks| ==> !NoBetter(Bid, book, asks[m], bid)
  {
    hide ListOfSide, Pow256, BigEndian, Less;
    ids := [];
    m := 1;
    SameLength(Ask, symbol, book, askKeys, asks);
    var start, end := |symbol| + 2, |symbol| + 2 + DEC_BYTE_COUNT;
    for i := 1 to |askKeys|
      invariant m == i && |ids| == m - 1
      invariant forall j | 0 <= j < |ids| :: ids[j] == StringBytes(asks[j + 1])
      invariant forall j | 0 < j < m :: NoBetter(Bid, book, asks[j], bid)
    {
      ListPrice(Ask, symbol, book, askKeys, asks, i);
      PricesCompare(book, bid, asks[i]);
      var askPrice := askKeys[i][start..end];
      if Less(firstBidPrice, askPrice) {
        break;
      } else {
        ids := ids + [askKeys[i][end..]];
        m := m + 1;
      }
    }
  }

  method TakeBids(symbol: string, firstAskPrice: Key, bidKeys: seq<Key>, ghost ask: OrderID, ghost bids: seq<OrderID>,
                  ghost book: Book)
    returns (ids: seq<Key>, ghost k: nat)
    requires ListOfSide(Bid, symbol, book, bidKeys, bids) && |bidKeys| > 0
    requires ask in book && 0 <= book[ask].terms.price < Pow256(DEC_BYTE_COUNT)
    requires firstAskPrice == BigEndian(book[ask].terms.price, DEC_BYTE_COUNT)
    ensures 1 <= k <= |bids| == |bidKeys| && |ids| == k - 1
    ensures forall i | 0 <= i < |ids| :: ids[i] == StringBytes(bids[i + 1])
    ensures forall i | 0 < i < k :: NoBetter(Ask, book, bids[i], ask)
    ensures k < |bids| ==> !NoBetter(Ask, book, bids[k], ask)
  {
    hide ListOfSide, Pow256, BigEndian, Less;
    ids := [];
    k := 1;
    SameLength(Bid, symbol, book, bidKeys, bids);
    var start, end := |symbol| + 2, |symbol| + 2 + DEC_BYTE_COUNT;
    for i := 1 to |bidKeys|
      invariant k == i && |ids| == k - 1
      invariant forall j | 0 <= j < |ids| :: ids[j] == StringBytes(bids[j + 1])
      invariant forall j | 0 < j < k :: NoBetter(Ask, book, bids[j], ask)
    {
      ListPrice(Bid, symbol, book, bidKeys, bids, i);
      PricesCompare(book, bids[i], ask);
      var bidPrice := bidKeys[i][start..end];
      if Less(bidPrice, firstAskPrice) {
        break;
      } else {
        ids := ids + [bidKeys[i][end..]];
        k := k + 1;
      }
    }
  }

  lemma SameLength(side: Side, symbol: string, book: Book, keys: seq<Key>, names: seq<OrderID>)
    requires ListOfSide(side, symbol, book, keys, names)
    ensures |names| == |keys|
  {
  }

  /** The first bid, the first ask, the further asks, the further bids. */
  ghost function Picked(bids: seq<OrderID>, asks: seq<OrderID>, k: nat, m: nat): (names: seq<OrderID>)
    requires 1 <= k <= |bids| && 1 <= m <= |asks|
    ensures |names| == k + m
  {
    [bids[0], asks[0]] + asks[1..m] + bids[1..k]
  }

  lemma PickedAreNamed(symbol: string, book: Book, bidKeys: seq<Key>, bids: seq<OrderID>, askKeys: seq<Key>,
                       asks: seq<OrderID>, k: nat, m: nat, ids: seq<Key>)
    requires ListOfSide(Bid, symbol, book, bidKeys, bids) && ListOfSide(Ask, symbol, book, askKeys, asks)
    requires 1 <= k <= |bids| && 1 <= m <= |asks| && |ids| == k + m
    requires ids[0] == StringBytes(bids[0]) && ids[1] == StringBytes(asks[0])
    requires forall i | 1 <= i < m :: ids[i + 1] == StringBytes(asks[i])
    requires forall i | 1 <= i < k :: ids[i + m] == StringBytes(bids[i])
    ensures Named(ids, Picked(bids, asks, k, m), book)
  {
    var names := Picked(bids, asks, k, m);
    forall i | 0 <= i < |ids| ensures names[i] in book && ids[i] == StringBytes(names[i]) {
      if i == 0 {
        assert IsScanned(List, Bid, symbol, bidKeys[0], bids[0], book);
      } else if i == 1 {
        assert IsScanned(List, Ask, symbol, askKeys[0], asks[0], book);
      } else if i < m + 1 {
        assert IsScanned(List, Ask, symbol, askKeys[i - 1], asks[i - 1], book);
        assert ids[(i - 1) + 1] == StringBytes(asks[i - 1]);
      } else {
        assert IsScanned(List, Bid, symbol, bidKeys[i - m], bids[i - m], book);
        assert ids[(i - m) + m] == StringBytes(bids[i - m]);
      }
    }
  }

  /** An order finds a partner exactly if the best order of the other side is one. */
  lemma MeetsTheBest(side: Side, symbol: string, book: Book, keys: seq<Key>, names: seq<OrderID>, id: OrderID)
    requires ListOfSide(side, symbol, book, keys, names)
    requires id in book && InIndex(List, if side == Bid then Ask else Bid, symbol, book[id].terms)
    ensures Meets(book, symbol, id) <==> |names| > 0 && NoBetter(side, book, id, names[0])
  {
    if |names| > 0 { assert IsScanned(List, side, symbol, keys[0], names[0], book); }
    forall other | other in book && InIndex(List, side, symbol, book[other].terms)
      ensures |names| > 0 && NoBetter(side, book, other, names[0])
    {
      var i :| 0 <= i < |names| && names[i] == other;
      if i > 0 { assert NoBetter(side, book, names[i], names[0]); }
    }
  }

  lemma NoPartner(symbol: string, book: Book, bidKeys: seq<Key>, bids: seq<OrderID>, askKeys: seq<Key>,
                  asks: seq<OrderID>)
    requires ListOfSide(Bid, symbol, book, bidKeys, bids) && ListOfSide(Ask, symbol, book, askKeys, asks)
    requires |bids| == 0 || |asks| == 0
    ensures Lists([], book, Candidates(book, symbol))
  {
    forall id | id in book && book[id].terms.symbol == symbol ensures !Meets(book, symbol, id) {
      if book[id].terms.side == Bid {
        assert id in bids;
        MeetsTheBest(Ask, symbol, book, askKeys, asks, id);
      } else {
        assert id in asks;
        MeetsTheBest(Bid, symbol, book, bidKeys, bids, id);
      }
    }
  }

  lemma NoCrossing(symbol: string, book: Book, bidKeys: seq<Key>, bids: seq<OrderID>, askKeys: seq<Key>,
                   asks: seq<OrderID>)
    requires ListOfSide(Bid, symbol, book, bidKeys, bids) && ListOfSide(Ask, symbol, book, askKeys, asks)
    requires |bids| > 0 && |asks| > 0 && bids[0] in book && asks[0] in book
    requires book[bids[0]].terms.price < book[asks[0]].terms.price
    ensures Lists([], book, Candidates(book, symbol))
  {
    forall id | id in book && book[id].terms.symbol == symbol ensures !Meets(book, symbol, id) {
      if book[id].terms.side == Bid {
        var i :| 0 <= i < |bids| && bids[i] == id;
        if i > 0 { assert NoBetter(Bid, book, bids[i], bids[0]); }
        MeetsTheBest(Ask, symbol, book, askKeys, asks, id);
      } else {
        var i :| 0 <= i < |asks| && asks[i] == id;
        if i > 0 { assert NoBetter(Ask, book, asks[i], asks[0]); }
        MeetsTheBest(Bid, symbol, book, bidKeys, bids, id);
      }
    }
  }

  /** How far into a price list the candidates reach. */
  ghost predicate Reaches(side: Side, book: Book, names: seq<OrderID>, n: nat, best: OrderID)
  {
    && 1 <= n <= |names|
    && (forall i | 0 <= i < n :: NoBetter(side, book, names[i], best))
    && (n < |names| ==> !NoBetter(side, book, names[n], best))
  }

  lemma TakenMeet(side: Side, symbol: string, book: Book, keys: seq<Key>, names: seq<OrderID>, otherKeys: seq<Key>,
                  others: seq<OrderID>, n: nat, i: nat)
    requires ListOfSide(side, symbol, book, keys, names)
             && ListOfSide(if side == Bid then Ask else Bid, symbol, book, otherKeys, others)
    requires |others| > 0 && i < |names| && Reaches(if side == Bid then Ask else Bid, book, names, n, others[0])
    ensures names[i] in book && book[names[i]].terms.symbol == symbol && (Meets(book, symbol, names[i]) <==> i < n)
  {
    var opposite := if side == Bid then Ask else Bid;
    assert IsScanned(List, side, symbol, keys[i], names[i], book);
    MeetsTheBest(opposite, symbol, book, otherKeys, others, names[i]);
    if i > n { assert NoBetter(side, book, names[i], names[n]); }
    assert IsScanned(List, opposite, symbol, otherKeys[0], others[0], book);
  }

  lemma PickedMembers(bids: seq<OrderID>, asks: seq<OrderID>, k: nat, m: nat, id: OrderID)
    requires 1 <= k <= |bids| && 1 <= m <= |asks|
    ensures id in Picked(bids, asks, k, m) <==> id in bids[..k] || id in asks[..m]
  {
    assert bids[..k] == [bids[0]] + bids[1..k];
    assert asks[..m] == [asks[0]] + asks[1..m];
  }

  lemma SidesApart(symbol: string, book: Book, bidKeys: seq<Key>, bids: seq<OrderID>, askKeys: seq<Key>,
                   asks: seq<OrderID>, i: nat, j: nat)
    requires ListOfSide(Bid, symbol, book, bidKeys, bids) && ListOfSide(Ask, symbol, book, askKeys, asks)
    requires i < |bids| && j < |asks|
    ensures bids[i] != asks[j]
  {
    assert IsScanned(List, Bid, symbol, bidKeys[i], bids[i], book)
           && IsScanned(List, Ask, symbol, askKeys[j], asks[j], book);
  }

  lemma PickedDistinct(symbol: string, book: Book, bidKeys: seq<Key>, bids: seq<OrderID>, askKeys: seq<Key>,
                       asks: seq<OrderID>, k: nat, m: nat)
    requires ListOfSide(Bid, symbol, book, bidKeys, bids) && ListOfSide(Ask, symbol, book, askKeys, asks)
    requires 1 <= k <= |bids| && 1 <= m <= |asks|
    ensures Distinct(Picked(bids, asks, k, m))
  {
    forall i, j | 0 <= i < |bids| && 0 <= j < |asks| ensures bids[i] != asks[j] {
      SidesApart(symbol, book, bidKeys, bids, askKeys, asks, i, j);
    }
    DistinctPicked(bids, asks, k, m);
  }

  lemma DistinctPicked(bids: seq<OrderID>, asks: seq<OrderID>, k: nat, m: nat)
    requires Distinct(bids) && Distinct(asks) && 1 <= k <= |bids| && 1 <= m <= |asks|
    requires forall i, j | 0 <= i < |bids| && 0 <= j < |asks| :: bids[i] != asks[j]
    ensures Distinct(Picked(bids, asks, k, m))
  {
    var names := Picked(bids, asks, k, m);
    forall i, j | 0 <= i < j < |names| ensures names[i] != names[j] {
      PickedAt(bids, asks, k, m, i);
      PickedAt(bids, asks, k, m, j);
    }
  }

  lemma PickedAt(bids: seq<OrderID>, asks: seq<OrderID>, k: nat, m: nat, i: nat)
    requires 1 <= k <= |bids| && 1 <= m <= |asks| && i < k + m
    ensures Picked(bids, asks, k, m)[i] == if i == 0 then bids[0] else if i <= m then asks[i - 1] else bids[i - m]
  {
  }

  lemma PickedAreCandidates(symbol: string, book: Book, bidKeys: seq<Key>, bids: seq<OrderID>, askKeys: seq<Key>,
                            asks: seq<OrderID>, k: nat, m: nat)
    requires ListOfSide(Bid, symbol, book, bidKeys, bids) && ListOfSide(Ask, symbol, book, askKeys, asks)
    requires |bids| > 0 && |asks| > 0
    requires Reaches(Ask, book, bids, k, asks[0]) && Reaches(Bid, book, asks, m, bids[0])
    ensures Distinct(Picked(bids, asks, k, m))
    ensures forall id :: id in Picked(bids, asks, k, m) <==> id in Candidates(book, symbol)
  {
    PickedDistinct(symbol, book, bidKeys, bids, askKeys, asks, k, m);
    hide Picked, Reaches, IsScanned, Meets;
    forall id ensures id in Picked(bids, asks, k, m) <==> id in Candidates(book, symbol) {
      PickedMembers(bids, asks, k, m, id);
      if id in bids {
        var i :| 0 <= i < |bids| && bids[i] == id;
        TakenMeet(Bid, symbol, book, bidKeys, bids, askKeys, asks, k, i);
        assert id in bids[..k] <==> i < k;
        assert id !in asks[..m] by {
          if id in asks[..m] {
            var j :| 0 <= j < m && asks[j] == id;
            SidesApart(symbol, book, bidKeys, bids, askKeys, asks, i, j);
          }
        }
      } else if id in asks {
        var j :| 0 <= j < |asks| && asks[j] == id;
        TakenMeet(Ask, symbol, book, askKeys, asks, bidKeys, bids, m, j);
        assert id in asks[..m] <==> j < m;
      }
    }
  }

  function MarkKey(symbol: string): Key { [NEWLY_ADDED] + StringBytes(symbol) }

  /** The order with an identifier, wherever it trades. */
  method QueryOrder(store: KVStore<Value>, id: Key, ghost name: OrderID, ghost book: Book) returns (o: Option<Order>)
    requires Indexed(store.data, book) && id == StringBytes(name)
    ensures o == if name in book then Some(book[name]) else None
  {
    if name in book {
      assert Kept(store.data, name, book[name]);
    } else if BookKey(name) in store.data {
      NoStrayOrder(store.data, book, name);
    }
    if OrderBookKey(id) !in store.data { return None; }
    o := Some(store.data[OrderBookKey(id)].order);
  }

  class OrderKeeper {
    const store: KVStore<Value>
    const symbol: string

    constructor (store: KVStore<Value>, symbol: string)
      ensures this.store == store && this.symbol == symbol
    {
      this.store, this.symbol := store, symbol;
    }

    method Add(o: Order, ghost book: Book)
      requires Indexed(store.data, book) && Storable(o.terms) && o.terms.symbol == symbol
      requires o.terms.id in book ==> book[o.terms.id].terms == o.terms
      modifies store
      ensures Indexed(store.data, book[o.terms.id := o])
              && OnlyOrdersChanged(old(store.data)[MarkKey(symbol) := Mark], store.data)
    {
      MarkKeepsIndexes(store.data, book, symbol);
      store.Set(MarkKey(symbol), Mark);
      Update(o, book);
    }

    method Update(o: Order, ghost book: Book)
      requires Indexed(store.data, book) && Storable(o.terms) && o.terms.symbol == symbol
      requires o.terms.id in book ==> book[o.terms.id].terms == o.terms
      modifies store
      ensures Indexed(store.data, book[o.terms.id := o]) && OnlyOrdersChanged(old(store.data), store.data)
    {
      UpdateIndexes(store.data, book, o);
      store.Set(BookKey(o.terms.id), OrderValue(o));
      store.Set(QueueKey(o.terms), Empty);
      store.Set(ListKey(o.terms), Empty);
    }

    /** Removing an order that is not there is an error and changes nothing. */
    method Remove(o: Order, ghost book: Book) returns (ok: bool)
      requires Indexed(store.data, book) && Storable(o.terms) && o.terms.symbol == symbol
      requires o.terms.id in book ==> book[o.terms.id].terms == o.terms
      modifies store
      ensures ok == (o.terms.id in book)
      ensures Indexed(store.data, book - {o.terms.id}) && OnlyOrdersChanged(old(store.data), store.data)
    {
      var found := QueryOrder(store, StringBytes(o.terms.id), o.terms.id, book);
      if found == None {
        assert book - {o.terms.id} == book;
        return false;
      }
      RemoveIndexes(store.data, book, o);
      store.Delete(BookKey(o.terms.id));
      store.Delete(QueueKey(o.terms));
      store.Delete(ListKey(o.terms));
      ok := true;
    }

    /** The orders with these identifiers. Every one of them is in the book. */
    method Fetch(ids: seq<Key>, ghost names: seq<OrderID>, ghost book: Book) returns (os: seq<Order>)
      requires Indexed(store.data, book) && Named(ids, names, book)
      ensures |os| == |names| && forall i | 0 <= i < |os| :: os[i] == book[names[i]]
    {
      hide Indexed;
      os := [];
      for i := 0 to |ids|
        invariant |os| == i && forall j | 0 <= j < i :: os[j] == book[names[j]]
      {
        var o := QueryOrder(store, ids[i], names[i], book);
        os := os + [o.value];
      }
    }

    /** Orders that were placed before `height`, the newest first. */
    method GetOlderThan(height: nat, ghost book: Book) returns (os: seq<Order>)
      requires Indexed(store.data, book) && ZeroFree(symbol) && height < Pow256(HEIGHT_BYTES)
      ensures Lists(os, book, OlderThan(book, symbol, height))
      ensures forall i, j | 0 <= i < j < |os| :: os[i].terms.height >= os[j].terms.height
    {
      hide Indexed, InRange, Pow256, BigEndian, SymbolPrefix, ZeroFree, Lists, Less, QueueKey;
      var start := SymbolPrefix(ORDER_QUEUE, symbol);
      var end := SymbolPrefix(ORDER_QUEUE, symbol) + BigEndian(height, HEIGHT_BYTES);
      var keys := store.ReverseIterator(start, end);
      forall k | k in keys ensures k in store.data && SymbolPrefix(ORDER_QUEUE, symbol) <= k {
        BelowNumber(ORDER_QUEUE, symbol, height, HEIGHT_BYTES, k);
      }
      ghost var names := ScannedKeys(Queue, Bid, symbol, store.data, book, keys, |end|);
      os := Fetch(Tails(keys, |end|), names, book);
      forall id | id in book && Storable(book[id].terms)
        ensures InRange(start, end, QueueKey(book[id].terms)) <==> id in OlderThan(book, symbol, height)
      {
        OlderThanKey(symbol, height, book[id].terms);
      }
      QueueScan(store.data, book, start, end, keys, names, OlderThan(book, symbol, height));
      FetchedLists(os, names, store.data, book, OlderThan(book, symbol, height));
      NewestFirst(keys, names, symbol, book);
    }

    method GetOrdersAtHeight(height: nat, ghost book: Book) returns (os: seq<Order>)
      requires Indexed(store.data, book) && ZeroFree(symbol) && height + 1 < Pow256(HEIGHT_BYTES)
      ensures Lists(os, book, AtHeight(book, symbol, height))
    {
      hide Indexed, InRange, Pow256, BigEndian, SymbolPrefix, ZeroFree, Lists, Less, QueueKey;
      var start := SymbolPrefix(ORDER_QUEUE, symbol) + BigEndian(height, HEIGHT_BYTES);
      var end := SymbolPrefix(ORDER_QUEUE, symbol) + BigEndian(height + 1, HEIGHT_BYTES);
      var keys := store.Iterator(start, end);
      forall k | k in keys ensures k in store.data && SymbolPrefix(ORDER_QUEUE, symbol) <= k {
        FromNumber(ORDER_QUEUE, symbol, height, height + 1, HEIGHT_BYTES, k);
      }
      ghost var names := ScannedKeys(Queue, Bid, symbol, store.data, book, keys, |end|);
      os := Fetch(Tails(keys, |end|), names, book);
      forall id | id in book && Storable(book[id].terms)
        ensures InRange(start, end, QueueKey(book[id].terms)) <==> id in AtHeight(book, symbol, height)
      {
        AtHeightKey(symbol, height, book[id].terms);
      }
      QueueScan(store.data, book, start, end, keys, names, AtHeight(book, symbol, height));
      FetchedLists(os, names, store.data, book, AtHeight(book, symbol, height));
    }

    /** The bids that reach the lowest ask and the asks that reach the highest bid, found from
        the two ends of the price lists. The market loses its mark. */
    method GetMatchingCandidates(ghost book: Book) returns (os: seq<Order>)
      requires Indexed(store.data, book) && ZeroFree(symbol)
      modifies store
      ensures store.data == old(store.data) - {MarkKey(symbol)} && Indexed(store.data, book)
      ensures Lists(os, book, Candidates(book, symbol))
    {
      hide Indexed, InRange, Pow256, BigEndian, SymbolPrefix, SymbolEnd, ZeroFree, Lists, Less, ListKey, Candidates,
           ListOfSide, Named, Picked;
      MarkKeepsIndexes(store.data, book, symbol);
      store.Delete(MarkKey(symbol));
      var bidKeys := store.ReverseIterator(SymbolPrefix(BID_LIST, symbol), SymbolEnd(BID_LIST, symbol));
      var askKeys := store.Iterator(SymbolPrefix(ASK_LIST, symbol), SymbolEnd(ASK_LIST, symbol));
      ghost var bids := ListScan(Bid, symbol, store.data, book, bidKeys);
      ghost var asks := ListScan(Ask, symbol, store.data, book, askKeys);
      SameLength(Bid, symbol, book, bidKeys, bids);
      SameLength(Ask, symbol, book, askKeys, asks);
      if |bidKeys| == 0 || |askKeys| == 0 {
        NoPartner(symbol, book, bidKeys, bids, askKeys, asks);
        return [];
      }
      var start, end := |symbol| + 2, |symbol| + 2 + DEC_BYTE_COUNT;
      ListPrice(Bid, symbol, book, bidKeys, bids, 0);
      ListPrice(Ask, symbol, book, askKeys, asks, 0);
      var firstBidPrice := bidKeys[0][start..end];
      var firstAskPrice := askKeys[0][start..end];
      PricesCompare(book, bids[0], asks[0]);
      if Less(firstBidPrice, firstAskPrice) {
        NoCrossing(symbol, book, bidKeys, bids, askKeys, asks);
        return [];
      }
      var orderIDList := [bidKeys[0][end..], askKeys[0][end..]];
      var moreAsks, m := TakeAsks(symbol, firstBidPrice, askKeys, bids[0], asks, book);
      var moreBids, k := TakeBids(symbol, firstAskPrice, bidKeys, asks[0], bids, book);
      ghost var names := Picked(bids, asks, k, m);
      PickedAreNamed(symbol, book, bidKeys, bids, askKeys, asks, k, m, orderIDList + moreAsks + moreBids);
      PickedAreCandidates(symbol, book, bidKeys, bids, askKeys, asks, k, m);
      os := Fetch(orderIDList + moreAsks + moreBids, names, book);
      FetchedLists(os, names, store.data, book, Candidates(book, symbol));
    }
  }

  lemma MarkKeepsIndexes(data: map<Key, Value>, book: Book, symbol: string)
    requires Indexed(data, book)
    ensures Indexed(data[MarkKey(symbol) := Mark], book)
    ensures Indexed(data - {MarkKey(symbol)}, book)
  {
    forall id | id in book ensures Kept(data[MarkKey(symbol) := Mark], id, book[id])
        && Kept(data - {MarkKey(symbol)}, id, book[id]) {
      assert Kept(data, id, book[id]);
      KeyTags(book[id].terms);
    }
  }

  lemma NoStrayOrder(data: map<Key, Value>, book: Book, id: OrderID)
    requires Indexed(data, book) && BookKey(id) in data
    ensures id in book
  {
    var k := BookKey(id);
    assert Owned(k, book);
    var t := book[Owner(k, book)].terms;
    assert Kept(data, Owner(k, book), book[Owner(k, book)]);
    KeyTags(t);
    SameBookKey(id, t.id);
  }

  /** `names` are the orders that own the index keys at the same places. */
  ghost predicate Scanned(index: Index, side: Side, symbol: string, keys: seq<Key>, names: seq<OrderID>, book: Book)
  {
    && |names| == |keys|
    && forall i | 0 <= i < |keys| :: IsScanned(index, side, symbol, keys[i], names[i], book)
  }

  ghost predicate IsScanned(index: Index, side: Side, symbol: string, k: Key, id: OrderID, book: Book)
  {
    && id in book && book[id].terms.id == id && Storable(book[id].terms)
    && k == IndexKey(index, book[id].terms) && InIndex(index, side, symbol, book[id].terms)
  }

  lemma ScannedKeys(index: Index, side: Side, symbol: string, data: map<Key, Value>, book: Book, keys: seq<Key>,
                    position: nat)
    returns (names: seq<OrderID>)
    requires Indexed(data, book) && ZeroFree(symbol) && position == |symbol| + 2 + IndexWidth(index) && Distinct(keys)
    requires forall k | k in keys :: k in data && SymbolPrefix(IndexTag(index, side), symbol) <= k
    ensures Scanned(index, side, symbol, keys, names, book) && Distinct(names)
    ensures forall i | 0 <= i < |keys| :: position <= |keys[i]| && keys[i][position..] == StringBytes(names[i])
  {
    hide Indexed, IndexKey, Storable, SymbolPrefix, NumberedKey, Owned, Owner, IsKeyOf, ZeroFree;
    forall i | 0 <= i < |keys|
      ensures Owned(keys[i], book) && IsScanned(index, side, symbol, keys[i], Owner(keys[i], book), book)
      ensures position <= |keys[i]| && keys[i][position..] == StringBytes(Owner(keys[i], book))
    {
      assert keys[i] in keys;
      ScannedKey(index, side, symbol, data, book, keys[i]);
      var t := book[Owner(keys[i], book)].terms;
      IndexKeyForm(index, t);
      NumberedKeyParts(IndexTag(index, t.side), symbol, IndexNumber(index, t), IndexWidth(index), t.id, |symbol| + 2,
                       position);
    }
    names := seq(|keys|, i requires 0 <= i < |keys| && Owned(keys[i], book) => Owner(keys[i], book));
    forall i, j | 0 <= i < j < |names| ensures names[i] != names[j] {
      assert IsScanned(index, side, symbol, keys[i], names[i], book)
             && IsScanned(index, side, symbol, keys[j], names[j], book);
    }
  }

  lemma NewestFirst(keys: seq<Key>, names: seq<OrderID>, symbol: string, book: Book)
    requires Scanned(Queue, Bid, symbol, keys, names, book) && Descending(keys)
    ensures forall i, j | 0 <= i < j < |names| ::
            names[i] in book && names[j] in book && book[names[i]].terms.height >= book[names[j]].terms.height
  {
    hide Pow256, NumberedKey;
    forall i, j | 0 <= i < j < |names|
      ensures names[i] in book && names[j] in book && book[names[i]].terms.height >= book[names[j]].terms.height
    {
      assert IsScanned(Queue, Bid, symbol, keys[i], names[i], book)
             && IsScanned(Queue, Bid, symbol, keys[j], names[j], book);
      LaterKeyLargerNumber(ORDER_QUEUE, symbol, book[names[j]].terms.height, names[j], book[names[i]].terms.height,
                           names[i], HEIGHT_BYTES);
    }
  }

  /** A range between two numbers stays inside the market. */
  lemma FromNumber(tag: int, symbol: string, low: nat, high: nat, width: nat, k: Key)
    requires InRange(SymbolPrefix(tag, symbol) + BigEndian(low, width),
                     SymbolPrefix(tag, symbol) + BigEndian(high, width), k)
    ensures SymbolPrefix(tag, symbol) <= k
  {
    var start := SymbolPrefix(tag, symbol);
    if Less(k, start) {
      LessOwnPrefix(start, BigEndian(low, width));
      LessTotal(start, start + BigEndian(low, width));
      if Less(start, start + BigEndian(low, width)) { LessTransitive(k, start, start + BigEndian(low, width)); }
    }
    BelowNumber(tag, symbol, high, width, k);
  }

  /** Only the market's own orders have keys with its prefix. */
  lemma OwnPrefix(index: Index, side: Side, symbol: string, t: Terms)
    requires Storable(t) && ZeroFree(symbol) && SymbolPrefix(IndexTag(index, side), symbol) <= IndexKey(index, t)
    ensures InIndex(index, side, symbol, t)
  {
    IndexKeyForm(index, t);
    PrefixTellsSymbol(IndexTag(index, side), symbol, IndexTag(index, t.side), t.symbol,
                      BigEndian(IndexNumber(index, t), IndexWidth(index)) + StringBytes(t.id));
  }

  lemma OlderThanKey(symbol: string, height: nat, t: Terms)
    requires Storable(t) && ZeroFree(symbol) && height < Pow256(HEIGHT_BYTES)
    ensures InRange(SymbolPrefix(ORDER_QUEUE, symbol),
                    SymbolPrefix(ORDER_QUEUE, symbol) + BigEndian(height, HEIGHT_BYTES), QueueKey(t))
       <==> t.symbol == symbol && t.height < height
  {
    BelowNumber(ORDER_QUEUE, symbol, height, HEIGHT_BYTES, QueueKey(t));
    if SymbolPrefix(ORDER_QUEUE, symbol) <= QueueKey(t) { OwnPrefix(Queue, Bid, symbol, t); }
    if t.symbol == symbol { NumberBelow(ORDER_QUEUE, symbol, t.height, height, HEIGHT_BYTES, t.id); }
  }

  lemma AtHeightKey(symbol: string, height: nat, t: Terms)
    requires Storable(t) && ZeroFree(symbol) && height + 1 < Pow256(HEIGHT_BYTES)
    ensures InRange(SymbolPrefix(ORDER_QUEUE, symbol) + BigEndian(height, HEIGHT_BYTES),
                    SymbolPrefix(ORDER_QUEUE, symbol) + BigEndian(height + 1, HEIGHT_BYTES), QueueKey(t))
       <==> (t.symbol == symbol && t.height == height)
  {
    hide Pow256, BigEndian, InRange, SymbolPrefix, ZeroFree;
    var start, end := SymbolPrefix(ORDER_QUEUE, symbol) + BigEndian(height, HEIGHT_BYTES),
        SymbolPrefix(ORDER_QUEUE, symbol) + BigEndian(height + 1, HEIGHT_BYTES);
    if InRange(start, end, QueueKey(t)) {
      FromNumber(ORDER_QUEUE, symbol, height, height + 1, HEIGHT_BYTES, QueueKey(t));
      OwnPrefix(Queue, Bid, symbol, t);
    }
    if t.symbol == symbol { NumberBetween(ORDER_QUEUE, symbol, t.height, height, height + 1, HEIGHT_BYTES, t.id); }
  }

  /** What a scan of the queue wants, key by key, it wants order by order. */
  lemma QueueScan(data: map<Key, Value>, book: Book, start: Key, end: Key, keys: seq<Key>, names: seq<OrderID>,
                  wanted: set<OrderID>)
    requires Indexed(data, book) && Listing(data, start, end, keys) && wanted <= book.Keys
    requires |names| == |keys| && forall i | 0 <= i < |keys| ::
             names[i] in book && Storable(book[names[i]].terms) && keys[i] == QueueKey(book[names[i]].terms)
    requires forall id | id in book && Storable(book[id].terms) ::
             InRange(start, end, QueueKey(book[id].terms)) <==> id in wanted
    ensures forall id :: id in names <==> id in wanted
  {
    hide QueueKey, ListKey, BookKey, ZeroFree, Owned, IsKeyOf, InRange, Pow256;
    forall id ensures id in names <==> id in wanted {
      if id in names {
        var i :| 0 <= i < |names| && names[i] == id;
        assert keys[i] in keys;
      }
      if id in wanted {
        assert Kept(data, id, book[id]);
        var i :| 0 <= i < |keys| && keys[i] == QueueKey(book[id].terms);
        assert Kept(data, names[i], book[names[i]]);
        SameQueueKey(book[id].terms, book[names[i]].terms);
        assert names[i] == id;
      }
    }
  }
}
