/** Blocks seen from the book: what the clean-up on the first block of a day leaves, what the
    two loops of every other block owe each other, and what they leave. */
module Blocks {
  import opened Auction
  import opened ByteKeys
  import opened Closing
  import opened Decimals
  import opened Delist
  import opened Ledgers
  import opened MarketState
  import opened MatchRun
  import opened OrderEntry
  import opened Orders
  import opened OrderStore
  import opened Overlays
  import opened Settlement
  import opened Slices
  import opened StoreKeys
  import opened Sums

  // ------------------------------------------------------------ what the clean-up leaves

  ghost function SetOf(symbols: seq<string>): set<string> { set s | s in symbols }

  ghost function Symbols(infos: seq<MarketInfo>): set<string>
  {
    set info | info in infos :: GetSymbol(info.stock, info.money)
  }

  /** The book without the listed markets' orders that were placed before this height and whose
      blocks are over. */
  ghost function Unexpired(book: Book, symbols: set<string>, height: int): Book
  {
    map id | id in book && !(book[id].terms.symbol in symbols && IsOverdue(book[id], height)) :: book[id]
  }

  /** The height at which the blocks of an order are over, as a 64-bit integer holds it. */
  function EndHeight(o: Order): int { AsInt64(o.terms.height + o.terms.existBlocks) }

  predicate IsOverdue(o: Order, height: int)
  {
    o.terms.height < height && EndHeight(o) <= height
  }

  /** How long a new order may stay: the blocks it asks for, or the free ones if it asks for none,
      but always longer than the block it enters in. A life that would end beyond 64 bits ends
      with that block. */
  lemma EntryExpires(m: MsgCreateOrder, sequence: nat, params: Params, amount: int, frozenFee: int, height: int)
    requires ValidateBasic(m) && m.timeInForce == GTE
    requires 0 <= params.rules.height <= MAX_INT64 && params.rules.freeBlocks <= MAX_INT64
    ensures var entry := params.rules.height;
            var life := if m.existBlocks > 0 then m.existBlocks else params.rules.freeBlocks;
            IsOverdue(NewOrder(m, sequence, params, amount, frozenFee), height) <==>
            height > entry && (height - entry >= life || entry + life > MAX_INT64)
  {
    hide ActualPrice, CalFeatureFeeForExistBlocks, AssemblyOrderID;
    var entry, life := params.rules.height, if m.existBlocks > 0 then m.existBlocks else params.rules.freeBlocks;
    SumWraps(entry, life);
  }

  lemma SumWraps(a: int, b: int)
    requires 0 <= a <= MAX_INT64 && 0 <= b <= MAX_INT64
    ensures if a + b <= MAX_INT64 then AsInt64(a + b) == a + b else AsInt64(a + b) < 0
  {
  }

  /** Blocks that are free cost nothing, whenever the order leaves. */
  lemma FreeBlocksCostNothing(m: MsgCreateOrder, sequence: nat, params: Params, amount: int, frozenFee: int,
                              height: int)
    requires ValidateBasic(m) && m.existBlocks <= params.rules.freeBlocks
    ensures var o := NewOrder(m, sequence, params, amount, frozenFee);
            o.terms.frozenFeatureFee == 0 && CalActualOrderFeatureFee(o, height, params.rules.freeBlocks) == 0
  {
    hide ActualPrice, AssemblyOrderID;
    FeatureFeePerBlock(m, params);
  }

  ghost function Overdue(os: seq<Order>, height: int): set<OrderID>
  {
    set o | o in os && EndHeight(o) <= height :: o.terms.id
  }

  ghost function IdSet(os: seq<Order>): set<OrderID> { set o | o in os :: o.terms.id }

  /** The book without what the delisted markets had up to this height. */
  ghost function Delisted(book: Book, symbols: set<string>, height: int): Book
  {
    map id | id in book && !(book[id].terms.symbol in symbols && book[id].terms.height <= height) :: book[id]
  }

  /** Of a market that ended nothing is left, once no order is of a later block. */
  lemma EndedMarketIsEmpty(book: Book, symbols: set<string>, height: int, id: OrderID)
    requires id in Delisted(book, symbols, height) && book[id].terms.height <= height
    ensures book[id].terms.symbol !in symbols && Delisted(book, symbols, height)[id] == book[id]
  {
  }

  lemma NotYetRemoved(os: seq<Order>, book: Book, wanted: set<OrderID>, i: nat, removed: set<OrderID>)
    requires Lists(os, book, wanted) && i < |os| && removed <= IdSet(os[..i])
    ensures os[i].terms.id in book - removed && (book - removed)[os[i].terms.id] == os[i]
  {
  }

  lemma OverdueIsExpired(os: seq<Order>, book: Book, symbol: string, height: nat)
    requires Lists(os, book, OlderThan(book, symbol, height))
    ensures book - Overdue(os, height) == Unexpired(book, {symbol}, height)
  {
    forall id | id in book ensures id in Overdue(os, height) <==>
        book[id].terms.symbol == symbol && IsOverdue(book[id], height) {
      WantedIsListed(os, book, OlderThan(book, symbol, height), id);
    }
  }

  lemma MembersAreDelisted(os: seq<Order>, book: Book, symbol: string, height: nat)
    requires Lists(os, book, OlderThan(book, symbol, height + 1))
    ensures book - IdSet(os) == Delisted(book, {symbol}, height)
  {
    forall id | id in book ensures id in IdSet(os) <==>
        book[id].terms.symbol == symbol && book[id].terms.height <= height {
      WantedIsListed(os, book, OlderThan(book, symbol, height + 1), id);
    }
  }

  lemma WantedIsListed(os: seq<Order>, book: Book, wanted: set<OrderID>, id: OrderID)
    requires Lists(os, book, wanted) && id in book
    ensures id in wanted <==> book[id] in os && book[id].terms.id == id
    ensures forall o | o in os && o.terms.id == id :: o == book[id] && id in wanted
  {
    if id in wanted {
      assert id in Ids(os);
      var i :| 0 <= i < |os| && Ids(os)[i] == id;
      assert os[i] in os;
    }
    forall o | o in os && o.terms.id == id ensures o == book[id] && id in wanted {
      var i :| 0 <= i < |os| && os[i] == o;
      assert Ids(os)[i] in Ids(os);
    }
  }

  lemma FewerNamed(markets: Markets, requests: Requests, symbol: string)
    requires WellNamed(markets, requests)
    ensures WellNamed(markets - {symbol}, requests)
  {
  }

  lemma SameSurplusSelf(x: Exchange)
    ensures SameSurplus(x, x)
  {
  }

  lemma FiledAgain(data: map<Key, Value>, book: Book, requests: Requests)
    requires Indexed(data, book) && DelistIndexed(data, requests) && Marked(data)
    ensures Filed(data, book, requests)
  {
  }

  // ------------------------------------------------------------ what a block leaves

  lemma RangeIsMarks(k: Key)
    ensures InRange([NEWLY_ADDED], [NEWLY_ADDED + 1], k) <==> k != [] && k[0] == NEWLY_ADDED
  {
    PrefixRange([], NEWLY_ADDED, k);
    assert [] + [NEWLY_ADDED] == [NEWLY_ADDED] && [] + [NEWLY_ADDED + 1] == [NEWLY_ADDED + 1];
  }

  /** An order that does not stay on the book. */
  predicate Gone(o: Order) { o.terms.timeInForce == IOC || o.leftStock == 0 }

  lemma SameSurplusMeans(x: Exchange, y: Exchange)
    requires y.ledger.known == x.ledger.known && SameSupply(x.ledger, y.ledger) && forall k ::
             Surplus(y, k) == Surplus(x, k)
    ensures SameSurplus(x, y)
  {
  }

  /** The book with its changed orders written back and those that are done removed. */
  ghost function Settled(book: Book, updates: Book): Book
  {
    map id | id in book && !(id in updates && Gone(updates[id])) :: if id in updates then updates[id] else book[id]
  }

  lemma NothingSettled(book: Book, updates: Book)
    ensures Settled(book, Restrict(updates, {})) == book
  {
  }

  lemma DropNothing(m: Book)
    ensures m - {} == m
  {
  }

  lemma DropOneMore(m: Book, done: set<OrderID>, id: OrderID)
    ensures (m - done) - {id} == m - (done + {id})
  {
  }

  lemma SettledStep(before: Book, now: Book, updates: Book, done: set<OrderID>, id: OrderID)
    requires id in updates && id !in done && id in before && Sound(updates[id])
    requires now == Settled(before, Restrict(updates, done)) && AllOpen(now)
    ensures var next := if Gone(updates[id]) then now - {id} else now[id := updates[id]];
            next == Settled(before, Restrict(updates, done + {id})) && AllOpen(next)
  {
  }

  /** An order that is still to be written back is as it was. */
  lemma NotYetSettled(before: Book, updates: Book, done: set<OrderID>, id: OrderID)
    requires id in before && id !in done
    ensures var now := Settled(before, Restrict(updates, done)); id in now && now[id] == before[id]
  {
  }

  lemma AllSettled(before: Book, updates: Book, done: set<OrderID>)
    requires done == updates.Keys
    ensures Settled(before, Restrict(updates, done)) == Settled(before, updates)
  {
    assert Restrict(updates, done) == updates;
  }

  lemma OnlyOrdersTwice(a: map<Key, Value>, b: map<Key, Value>, c: map<Key, Value>)
    requires OnlyOrdersChanged(a, b) && OnlyOrdersChanged(b, c)
    ensures OnlyOrdersChanged(a, c)
  {
  }

  lemma OnlyOrdersSelf(a: map<Key, Value>)
    ensures OnlyOrdersChanged(a, a)
  {
  }

  // ------------------------------------------------------------ a block in the middle

  predicate Halted(info: MarketInfo, params: Params)
  {
    info.stock in params.forbiddenTokens || info.money in params.forbiddenTokens
  }

  ghost predicate SymbolsOf(infos: seq<MarketInfo>, symbols: seq<string>)
  {
    |infos| == |symbols| && forall i | 0 <= i < |infos| ::
        ZeroFree(symbols[i]) && symbols[i] == GetSymbol(infos[i].stock, infos[i].money)
  }

  /** The changed orders in `lists`, from position `from` on, are the ones in `rest`. */
  ghost predicate Owed(lists: seq<Book>, from: nat, symbols: seq<string>, book: Book, rest: Book)
  {
    && |lists| <= |symbols|
    && (forall j, id | from <= j < |lists| && id in lists[j] :: Owes(lists[j], symbols[j], book, rest, id))
    && (forall id | id in rest :: IsListed(lists, from, id))
  }

  ghost predicate IsListed(lists: seq<Book>, from: int, id: OrderID)
  {
    exists j :: 0 <= j && from <= j < |lists| && id in lists[j]
  }

  predicate Owes(list: Book, symbol: string, book: Book, rest: Book, id: OrderID)
    requires id in list
  {
    && id in rest && rest[id] == list[id] && id in book && book[id].terms == list[id].terms
    && list[id].terms.symbol == symbol && list[id].terms.id == id
  }

  /** So it is for each of the first `n` markets that had its turn; one that is halted changes nothing. */
  ghost predicate AllChanged(lists: seq<Book>, infos: seq<MarketInfo>, symbols: seq<string>, n: nat, book: Book,
                             params: Params, dealt: set<OrderID>)
    requires n <= |lists| && n <= |infos| && n <= |symbols|
  {
    forall j | 0 <= j < n ::
      if Halted(infos[j], params) then lists[j] == map[]
      else ListsChanged(lists[j], book, symbols[j], params.rules.height, dealt)
  }

  lemma NothingChanged(infos: seq<MarketInfo>, symbols: seq<string>, book: Book, params: Params)
    ensures AllChanged([], infos, symbols, 0, book, params, {})
  {
  }

  lemma ChangedIsListed(lists: seq<Book>, infos: seq<MarketInfo>, symbols: seq<string>, j: nat, book: Book,
                        params: Params, dealt: set<OrderID>)
    requires j < |lists| <= |infos| && |lists| <= |symbols|
             && AllChanged(lists, infos, symbols, |lists|, book, params, dealt)
    requires !Halted(infos[j], params)
    ensures ListsChanged(lists[j], book, symbols[j], params.rules.height, dealt)
  {
  }

  lemma PassedOverChanged(lists: seq<Book>, infos: seq<MarketInfo>, symbols: seq<string>, i: nat, book: Book,
                          params: Params, dealt: set<OrderID>)
    requires i == |lists| < |infos| && i < |symbols| && AllChanged(lists, infos, symbols, i, book, params, dealt)
             && Halted(infos[i], params)
    ensures AllChanged(lists + [map[]], infos, symbols, i + 1, book, params, dealt)
  {
    hide ListsChanged;
    var next := lists + [map[]];
    assert next[i] == map[] && forall j | 0 <= j < i :: next[j] == lists[j];
  }

  /** The market's own deals come last; those before it were elsewhere. */
  lemma OneMoreChanged(lists: seq<Book>, infos: seq<MarketInfo>, symbols: seq<string>, i: nat, book: Book,
                       params: Params, dealt: set<OrderID>, list: Book, more: set<OrderID>, pending: Book)
    requires i == |lists| < |infos| && i < |symbols| && AllChanged(lists, infos, symbols, i, book, params, dealt)
             && !Halted(infos[i], params)
    requires Distinct(symbols) && ListsChanged(list, book, symbols[i], params.rules.height, more)
    requires dealt <= pending.Keys && forall id | id in pending :: id in book && book[id].terms.symbol != symbols[i]
    requires forall id | id in more :: id in book && book[id].terms.symbol == symbols[i]
    ensures AllChanged(lists + [list], infos, symbols, i + 1, book, params, dealt + more)
  {
    var next := lists + [list];
    forall j | 0 <= j < i + 1
      ensures if Halted(infos[j], params) then next[j] == map[]
              else ListsChanged(next[j], book, symbols[j], params.rules.height, dealt + more)
    {
      if j < i { assert next[j] == lists[j] && symbols[j] != symbols[i]; }
    }
  }

  lemma NothingOwed(symbols: seq<string>, book: Book)
    ensures Owed([], 0, symbols, book, map[])
  {
  }

  lemma OthersOwed(lists: seq<Book>, symbols: seq<string>, book: Book, rest: Book, symbol: string)
    requires Owed(lists, 0, symbols, book, rest) && |lists| < |symbols| && Distinct(symbols)
             && symbol == symbols[|lists|]
    ensures forall id | id in rest :: id in book && rest[id].terms.symbol != symbol && book[id].terms == rest[id].terms
  {
    forall id | id in rest ensures id in book && rest[id].terms.symbol != symbol && book[id].terms == rest[id].terms {
      assert IsListed(lists, 0, id);
      var j :| 0 <= j < |lists| && id in lists[j];
      assert Owes(lists[j], symbols[j], book, rest, id);
      assert symbols[j] != symbols[|lists|];
    }
  }

  /** One more market's changed orders; `list` is empty for a market that was passed over. */
  lemma GrownOwes(lists: seq<Book>, grown: seq<Book>, symbols: seq<string>, book: Book, rest: Book, list: Book,
                  next: Book)
    requires Owed(lists, 0, symbols, book, rest) && |lists| < |symbols| && next == rest + list
    requires |grown| == |lists| + 1 && grown[|lists|] == list && forall j | 0 <= j < |lists| :: grown[j] == lists[j]
    requires forall id | id in rest :: id !in list
    requires forall id | id in list ::
             id in book && list[id].terms == book[id].terms && list[id].terms.symbol == symbols[|lists|]
                 && book[id].terms.id == id
    ensures Owed(grown, 0, symbols, book, next)
  {
    forall j, id | 0 <= j < |grown| && id in grown[j] ensures Owes(grown[j], symbols[j], book, next, id) {
      if j < |lists| { assert Owes(lists[j], symbols[j], book, rest, id); }
    }
    forall id | id in next ensures IsListed(grown, 0, id) {
      if id in list {
        assert id in grown[|lists|];
      } else {
        assert IsListed(lists, 0, id);
        var j :| 0 <= j < |lists| && id in lists[j];
        assert id in grown[j];
      }
    }
  }

  ghost predicate Apart(lists: seq<Book>)
  {
    forall j, k, id | 0 <= j < k < |lists| && id in lists[j] :: id !in lists[k]
  }

  lemma ListsApart(lists: seq<Book>, symbols: seq<string>, book: Book, rest: Book)
    requires Owed(lists, 0, symbols, book, rest) && Distinct(symbols)
    ensures Apart(lists)
  {
    forall j, k, id | 0 <= j < k < |lists| && id in lists[j] ensures id !in lists[k] {
      assert Owes(lists[j], symbols[j], book, rest, id);
      assert symbols[j] != symbols[k];
    }
  }

  lemma OwedNow(lists: seq<Book>, i: nat, symbols: seq<string>, book: Book, rest: Book)
    requires Owed(lists, i, symbols, book, rest) && i < |lists|
    ensures IsPart(lists[i], rest)
    ensures forall id | id in lists[i] ::
            id in book && lists[i][id].terms == book[id].terms && lists[i][id].terms.id == id
  {
    forall id | id in lists[i] ensures Owes(lists[i], symbols[i], book, rest, id) {}
  }

  lemma NoneSettled(book: Book, list: Book, rest: Book)
    requires |list| == 0
    ensures book == Settled(book, list) && rest - list.Keys == rest
  {
    assert list == map[];
  }

  lemma OwedShrinks(lists: seq<Book>, i: nat, symbols: seq<string>, book: Book, rest: Book)
    requires Owed(lists, i, symbols, book, rest) && Apart(lists) && i < |lists|
    ensures Owed(lists, i + 1, symbols, Settled(book, lists[i]), rest - lists[i].Keys)
  {
    var next, left := Settled(book, lists[i]), rest - lists[i].Keys;
    forall j, id | i + 1 <= j < |lists| && id in lists[j] ensures Owes(lists[j], symbols[j], next, left, id) {
      assert Owes(lists[j], symbols[j], book, rest, id);
      assert id !in lists[i];
    }
    forall id | id in left ensures IsListed(lists, i + 1, id) {
      assert IsListed(lists, i, id);
      var j :| i <= j < |lists| && id in lists[j];
      assert j != i;
    }
  }

  lemma NoneOwed(lists: seq<Book>, symbols: seq<string>, book: Book, rest: Book)
    requires Owed(lists, |lists|, symbols, book, rest)
    ensures rest == map[]
  {
    assert forall id | id in rest :: IsListed(lists, |lists|, id);
  }

  /** What a block made of the book: the orders in the first `n` lists as they are there, unless
      they are done, and all others as they were. */
  ghost predicate WrittenBack(before: Book, after: Book, lists: seq<Book>, n: nat)
    requires n <= |lists|
  {
    && (forall id | id in after :: id in before && after[id].terms == before[id].terms)
    && (forall j, id | 0 <= j < n && id in lists[j] :: IsWritten(before, after, lists[j], id))
    && (forall id | id in before && !IsListed(lists[..n], 0, id) :: id in after && after[id] == before[id])
  }

  predicate IsWritten(before: Book, after: Book, list: Book, id: OrderID)
    requires id in list
  {
    && (id in after <==> id in before && !Gone(list[id]))
    && (id in after ==> after[id] == list[id])
  }

  lemma NothingWritten(book: Book, lists: seq<Book>)
    ensures WrittenBack(book, book, lists, 0)
  {
  }

  lemma MoreWritten(before: Book, now: Book, lists: seq<Book>, i: nat)
    requires i < |lists| && WrittenBack(before, now, lists, i) && Apart(lists)
    requires forall id | id in lists[i] :: id in now && lists[i][id].terms == now[id].terms
    ensures WrittenBack(before, Settled(now, lists[i]), lists, i + 1)
  {
    var next := Settled(now, lists[i]);
    forall j, id | 0 <= j < i + 1 && id in lists[j] ensures IsWritten(before, next, lists[j], id) {
      if j < i {
        assert IsWritten(before, now, lists[j], id);
        assert id !in lists[i];
      }
    }
    forall id | id in before && !IsListed(lists[..i + 1], 0, id) ensures id in next && next[id] == before[id] {
      assert lists[..i + 1][i] == lists[i];
      ListedMore(lists, i, id);
    }
  }

  lemma ListedMore(lists: seq<Book>, i: nat, id: OrderID)
    requires i < |lists|
    ensures IsListed(lists[..i], 0, id) ==> IsListed(lists[..i + 1], 0, id)
  {
    if IsListed(lists[..i], 0, id) {
      var j :| 0 <= j < i && id in lists[..i][j];
      assert id in lists[..i + 1][j];
    }
  }

  ghost predicate MarksHaveMarkets(data: map<Key, Value>, markets: Markets)
  {
    forall s | ZeroFree(s) && MarkKey(s) in data :: s in markets
  }

  ghost predicate NoIocLeft(book: Book, symbol: string, height: int)
  {
    forall id | id in AtHeight(book, symbol, height) :: book[id].terms.timeInForce != IOC
  }

  lemma IocIsWritten(before: Book, after: Book, lists: seq<Book>, j: nat, symbol: string, height: int,
                     dealt: set<OrderID>)
    requires WrittenBack(before, after, lists, |lists|) && j < |lists|
             && ListsChanged(lists[j], before, symbol, height, dealt)
    requires forall id | id in lists[j] && id in before :: lists[j][id].terms == before[id].terms
    ensures NoIocLeft(after, symbol, height)
  {
    forall id | id in AtHeight(after, symbol, height) ensures after[id].terms.timeInForce != IOC {
      assert id in AtHeight(before, symbol, height);
      assert id in lists[j] ==> IsWritten(before, after, lists[j], id);
    }
  }

  /** The orders that are not there after the block: those that dealt and were filled up or good for one
      block only, and those placed in this block and good for it only, in a market that had its turn. */
  ghost predicate Remains(before: Book, dealt: Book, after: Book, parties: set<OrderID>, data: map<Key, Value>,
                          markets: Markets, params: Params)
    requires before.Keys <= dealt.Keys
  {
    forall id | id in before ::
        id in after <==> !(Gone(dealt[id]) && (id in parties || IsDue(before[id], data, markets, params)))
  }

  predicate IsDue(o: Order, data: map<Key, Value>, markets: Markets, params: Params)
  {
    && IsFresh(o, params.rules.height) && MarkKey(o.terms.symbol) in data
    && o.terms.symbol in markets && !Halted(markets[o.terms.symbol], params)
  }

  /** An order that was written back leaves exactly if it is done. */
  lemma ListedRemains(before: Book, after: Book, lists: seq<Book>, infos: seq<MarketInfo>, symbols: seq<string>,
                      pending: Book, parties: set<OrderID>, data: map<Key, Value>, markets: Markets, params: Params,
                      id: OrderID, j: nat)
    requires j < |lists| == |infos| == |symbols| && id in lists[j] && id in before && !Halted(infos[j], params)
    requires IsWritten(before, after, lists[j], id) && Owes(lists[j], symbols[j], before, pending, id)
    requires ListsChanged(lists[j], before, symbols[j], params.rules.height, parties)
    requires MarkKey(symbols[j]) in data && symbols[j] in markets && infos[j] == markets[symbols[j]]
    ensures id in after <==>
            !(Gone((before + pending)[id]) && (id in parties || IsDue(before[id], data, markets, params)))
  {
    hide MarkKey, Gone, Halted, IsFresh;
  }

  /** An order that was not written back was not to be changed. */
  lemma UnlistedRemains(before: Book, lists: seq<Book>, infos: seq<MarketInfo>, symbols: seq<string>, pending: Book,
                        parties: set<OrderID>, data: map<Key, Value>, markets: Markets, params: Params, id: OrderID)
    requires |lists| == |infos| == |symbols| && id in before && !IsListed(lists, 0, id)
             && ZeroFree(before[id].terms.symbol)
    requires AllChanged(lists, infos, symbols, |lists|, before, params, parties) && forall s | ZeroFree(s) ::
             s in symbols <==> MarkKey(s) in data
    requires forall j | 0 <= j < |infos| :: symbols[j] in markets && infos[j] == markets[symbols[j]]
    ensures !IsDue(before[id], data, markets, params)
  {
    hide MarkKey, ZeroFree, Gone, Halted, IsFresh;
    if IsDue(before[id], data, markets, params) {
      var j :| 0 <= j < |symbols| && symbols[j] == before[id].terms.symbol;
      ChangedIsListed(lists, infos, symbols, j, before, params, parties);
    }
  }

  lemma OneRemains(before: Book, after: Book, lists: seq<Book>, infos: seq<MarketInfo>, symbols: seq<string>,
                   pending: Book, parties: set<OrderID>, data: map<Key, Value>, markets: Markets, params: Params,
                   id: OrderID)
    requires |lists| == |infos| == |symbols| && WrittenBack(before, after, lists, |lists|)
             && Owed(lists, 0, symbols, before, pending)
    requires AllChanged(lists, infos, symbols, |lists|, before, params, parties) && parties <= pending.Keys
             && id in before
    requires ZeroFree(before[id].terms.symbol) && forall s | ZeroFree(s) :: s in symbols <==> MarkKey(s) in data
    requires forall j | 0 <= j < |infos| ::
             ZeroFree(symbols[j]) && symbols[j] in markets && infos[j] == markets[symbols[j]]
    ensures id in after <==>
            !(Gone((before + pending)[id]) && (id in parties || IsDue(before[id], data, markets, params)))
  {
    hide MarkKey, ZeroFree, Gone, Halted, IsDue, ListsChanged, IsWritten, Owes;
    assert lists[..|lists|] == lists;
    if IsListed(lists, 0, id) {
      var j :| 0 <= j < |lists| && id in lists[j];
      assert lists[j] != map[];
      assert symbols[j] in symbols;
      ChangedIsListed(lists, infos, symbols, j, before, params, parties);
      ListedRemains(before, after, lists, infos, symbols, pending, parties, data, markets, params, id, j);
    } else {
      UnlistedRemains(before, lists, infos, symbols, pending, parties, data, markets, params, id);
    }
  }

  lemma DoneLeave(before: Book, after: Book, lists: seq<Book>, infos: seq<MarketInfo>, symbols: seq<string>,
                  pending: Book, parties: set<OrderID>, data: map<Key, Value>, markets: Markets, params: Params)
    requires |lists| == |infos| == |symbols| && WrittenBack(before, after, lists, |lists|)
             && Owed(lists, 0, symbols, before, pending)
    requires AllChanged(lists, infos, symbols, |lists|, before, params, parties) && parties <= pending.Keys
    requires (forall id | id in before :: ZeroFree(before[id].terms.symbol)) && forall s | ZeroFree(s) ::
             s in symbols <==> MarkKey(s) in data
    requires forall j | 0 <= j < |infos| ::
             ZeroFree(symbols[j]) && symbols[j] in markets && infos[j] == markets[symbols[j]]
    ensures Remains(before, before + pending, after, parties, data, markets, params)
  {
    hide WrittenBack, Owed, AllChanged, MarkKey, ZeroFree, Gone, IsDue;
    forall id | id in before
      ensures id in after <==>
              !(Gone((before + pending)[id]) && (id in parties || IsDue(before[id], data, markets, params)))
    {
      OneRemains(before, after, lists, infos, symbols, pending, parties, data, markets, params, id);
    }
  }

  lemma NothingLeaves(before: Book, data: map<Key, Value>, markets: Markets, params: Params)
    requires forall id | id in before :: ZeroFree(before[id].terms.symbol)
    requires forall s | ZeroFree(s) :: MarkKey(s) !in data
    ensures Remains(before, before, before, {}, data, markets, params)
  {
    hide MarkKey, ZeroFree, Gone;
  }

  lemma OwedTerms(lists: seq<Book>, symbols: seq<string>, book: Book, rest: Book)
    requires Owed(lists, 0, symbols, book, rest)
    ensures forall j, id | 0 <= j < |lists| && id in lists[j] :: id in book && lists[j][id].terms == book[id].terms
  {
    forall j, id | 0 <= j < |lists| && id in lists[j] ensures Owes(lists[j], symbols[j], book, rest, id) {}
  }

  lemma TermsAreKept(before: Book, after: Book, lists: seq<Book>)
    requires WrittenBack(before, after, lists, |lists|)
    ensures forall id | id in after :: id in before && after[id].terms == before[id].terms
  {
  }

  lemma SymbolsAreKeys(markets: Markets, requests: Requests, infos: seq<MarketInfo>)
    requires WellNamed(markets, requests) && forall info :: info in infos <==> info in markets.Values
    ensures Symbols(infos) == markets.Keys && forall info | info in infos :: ZeroFree(GetSymbol(info.stock, info.money))
  {
    forall info | info in infos ensures GetSymbol(info.stock, info.money) in markets {
      var s :| s in markets && markets[s] == info;
    }
    forall s | s in markets ensures s in Symbols(infos) {
      assert markets[s] in markets.Values;
    }
  }
}
