/** Matching the candidates is matching the market: what a match of the orders that
    `GetMatchingCandidates` selects does to the whole book of the market. */
module WholeBook {
  import opened Auction
  import opened CallAuction
  import C = Candidates
  import opened Ledgers
  import opened Matching
  import opened Orders
  import opened OrderStore
  import opened Slices

  /** Every order of one side of a market, in order of precedence. */
  ghost predicate SideOfBook(list: seq<OrderID>, book: Book, side: Side, symbol: string, tieBreak: OrderID -> int)
  {
    && Distinct(list) && Sorted(PrecedeIn(book, tieBreak), list)
    && forall id :: id in list <==> id in book && InIndex(List, side, symbol, book[id].terms)
  }

  /** The candidates of one side, in order of precedence. */
  ghost predicate SideOfCandidates(list: seq<OrderID>, book: Book, side: Side, symbol: string, tieBreak: OrderID -> int)
  {
    && Distinct(list) && Sorted(PrecedeIn(book, tieBreak), list)
    && forall id :: id in list <==> id in Candidates(book, symbol) && book[id].terms.side == side
  }

  /** The hash breaks every tie. */
  ghost predicate Unambiguous(book: Book, tieBreak: OrderID -> int)
  {
    forall a, b | a in book && b in book && a != b :: tieBreak(a) != tieBreak(b)
  }

  lemma SortedByPrice(list: seq<OrderID>, book: Book, side: Side, symbol: string, tieBreak: OrderID -> int, i: nat,
                      j: nat)
    requires SideOfBook(list, book, side, symbol, tieBreak) && i <= j < |list|
    ensures list[i] in book && list[j] in book
    ensures if side == Bid then book[list[i]].terms.price >= book[list[j]].terms.price
    else book[list[i]].terms.price <= book[list[j]].terms.price
  {
    assert list[i] in list && list[j] in list;
    if i < j { assert !PrecedeIn(book, tieBreak)(list[j], list[i]); }
  }

  /** A better price than a candidate's makes a candidate. */
  lemma BetterMeets(list: seq<OrderID>, book: Book, side: Side, symbol: string, tieBreak: OrderID -> int, i: nat,
                    j: nat)
    requires SideOfBook(list, book, side, symbol, tieBreak) && i <= j < |list| && list[j] in Candidates(book, symbol)
    ensures list[i] in Candidates(book, symbol)
  {
    SortedByPrice(list, book, side, symbol, tieBreak, i, j);
    assert list[i] in list && list[j] in list;
  }

  /** The candidates of a side are its first `n` orders. */
  lemma CandidatesAreAPrefix(whole: seq<OrderID>, list: seq<OrderID>, book: Book, side: Side, symbol: string,
                             tieBreak: OrderID -> int)
    returns (n: nat)
    requires SideOfBook(whole, book, side, symbol, tieBreak) && SideOfCandidates(list, book, side, symbol, tieBreak)
    requires Unambiguous(book, tieBreak)
    ensures n <= |whole| && list == whole[..n]
    ensures forall i | 0 <= i < |whole| :: i < n <==> whole[i] in Candidates(book, symbol)
  {
    n := 0;
    while n < |whole| && whole[n] in Candidates(book, symbol)
      invariant n <= |whole|
      invariant forall i | 0 <= i < n :: whole[i] in Candidates(book, symbol)
    {
      n := n + 1;
    }
    forall i | n <= i < |whole| ensures whole[i] !in Candidates(book, symbol) {
      if whole[i] in Candidates(book, symbol) { BetterMeets(whole, book, side, symbol, tieBreak, n, i); }
    }
    forall id ensures id in list <==> id in whole[..n] {
      if id in list {
        assert id in whole;
        var i :| 0 <= i < |whole| && whole[i] == id;
        assert whole[..n][i] == id;
      }
      if id in whole[..n] { assert id in whole; }
    }
    forall a, b | a in whole[..n] && b in whole[..n] && a != b
      ensures PrecedeIn(book, tieBreak)(a, b) || PrecedeIn(book, tieBreak)(b, a)
    {
      assert a in whole && b in whole;
    }
    SortedIsUnique(PrecedeIn(book, tieBreak), list, whole[..n]);
  }

  lemma WholeQuotes(list: seq<OrderID>, book: Book, side: Side, symbol: string, tieBreak: OrderID -> int)
    requires SideOfBook(list, book, side, symbol, tieBreak)
    requires forall id | id in book :: book[id].leftStock > 0
    ensures BestFirst(Quotes(book, list), side) && Positive(Quotes(book, list))
  {
    forall i | 0 <= i < |list| ensures Quotes(book, list)[i] == QuoteOf(book, list[i]) && list[i] in book
        && book[list[i]].terms.side == side {
      assert list[i] in list;
    }
    forall i, j | 0 <= i < j < |list|
      ensures if side == Bid then Quotes(book, list)[i].price >= Quotes(book, list)[j].price
      else Quotes(book, list)[i].price <= Quotes(book, list)[j].price
    {
      SortedByPrice(list, book, side, symbol, tieBreak, i, j);
    }
  }

  /** An order is a candidate exactly if the best order of the other side reaches it. */
  lemma CandidateIffBestReaches(others: seq<OrderID>, book: Book, side: Side, symbol: string, tieBreak: OrderID -> int,
                                id: OrderID)
    requires SideOfBook(others, book, Opposite(side), symbol, tieBreak) && id in book
             && InIndex(List, side, symbol, book[id].terms)
    ensures |others| > 0 ==> others[0] in book
    ensures id in Candidates(book, symbol)
       <==> (|others| > 0 && if side == Bid then book[others[0]].terms.price <= book[id].terms.price
             else book[id].terms.price <= book[others[0]].terms.price)
  {
    if |others| > 0 { assert others[0] in others; }
    forall o | o in book && InIndex(List, Opposite(side), symbol, book[o].terms)
      ensures |others| > 0 && if side == Bid then book[others[0]].terms.price <= book[o].terms.price
      else book[o].terms.price <= book[others[0]].terms.price
    {
      var i :| 0 <= i < |others| && others[i] == o;
      SortedByPrice(others, book, Opposite(side), symbol, tieBreak, 0, i);
    }
  }

  lemma SplitByCandidates(bids: seq<OrderID>, asks: seq<OrderID>, k: nat, m: nat, book: Book, symbol: string,
                          tieBreak: OrderID -> int)
    requires SideOfBook(bids, book, Bid, symbol, tieBreak) && SideOfBook(asks, book, Ask, symbol, tieBreak)
    requires forall id | id in book :: book[id].leftStock > 0
    requires k <= |bids| && forall i | 0 <= i < |bids| :: i < k <==> bids[i] in Candidates(book, symbol)
    requires m <= |asks| && forall i | 0 <= i < |asks| :: i < m <==> asks[i] in Candidates(book, symbol)
    ensures if k > 0 && m > 0 then C.Split(Quotes(book, bids), Quotes(book, asks), k, m)
            else k == 0 && m == 0 && Uncrossed(Quotes(book, bids), Quotes(book, asks))
  {
    var bq, aq := Quotes(book, bids), Quotes(book, asks);
    WholeQuotes(bids, book, Bid, symbol, tieBreak);
    WholeQuotes(asks, book, Ask, symbol, tieBreak);
    forall i | 0 <= i < |bids| ensures bq[i].price == book[bids[i]].terms.price
        && (i < k <==> |asks| > 0 && aq[0].price <= bq[i].price) {
      assert bids[i] in bids;
      assert bq[i] == QuoteOf(book, bids[i]);
      CandidateIffBestReaches(asks, book, Bid, symbol, tieBreak, bids[i]);
      if |asks| > 0 { assert aq[0] == QuoteOf(book, asks[0]); }
    }
    forall j | 0 <= j < |asks| ensures aq[j].price == book[asks[j]].terms.price
        && (j < m <==> |bids| > 0 && aq[j].price <= bq[0].price) {
      assert asks[j] in asks;
      assert aq[j] == QuoteOf(book, asks[j]);
      CandidateIffBestReaches(bids, book, Ask, symbol, tieBreak, asks[j]);
      if |bids| > 0 { assert bq[0] == QuoteOf(book, bids[0]); }
    }
    if k == 0 || m == 0 {
      if |bids| > 0 && |asks| > 0 {
        assert k == 0 && m == 0;
        SortedBookUncrossed(bq, aq);
      }
    }
  }

  lemma PartialQuotes(book: Book, after: Book, whole: seq<OrderID>, n: nat)
    requires n <= |whole|
    requires forall i | 0 <= i < |whole| ::
             whole[i] in book && (i < n ==> whole[i] in after) && (n <= i ==> whole[i] !in after)
    ensures Quotes(book + after, whole) == Quotes(after, whole[..n]) + Quotes(book, whole)[n..]
  {
    forall i | 0 <= i < |whole|
      ensures Quotes(book + after, whole)[i] == (Quotes(after, whole[..n]) + Quotes(book, whole)[n..])[i]
    {
      assert Quotes(book + after, whole)[i] == QuoteOf(book + after, whole[i]);
      if i < n {
        assert Quotes(after, whole[..n])[i] == QuoteOf(after, whole[..n][i]);
      } else {
        assert Quotes(book, whole)[i] == QuoteOf(book, whole[i]);
      }
    }
  }

  ghost function CandidateOrders(book: Book, symbol: string): Book
  {
    map id | id in Candidates(book, symbol) :: book[id]
  }

  lemma QuotesOfCandidates(book: Book, symbol: string, list: seq<OrderID>)
    requires forall id | id in list :: id in Candidates(book, symbol)
    ensures Quotes(CandidateOrders(book, symbol), list) == Quotes(book, list)
  {
    forall i | 0 <= i < |list| ensures QuoteOf(CandidateOrders(book, symbol), list[i]) == QuoteOf(book, list[i]) {
      assert list[i] in list;
    }
  }

  /** The state of the whole market after a match of its candidates: nothing changed on an
      uncrossed book; otherwise the whole book was cleared at one price that an auction over
      the whole book may choose, and no bid is left that reaches an ask. */
  ghost predicate MarketCleared(book: Book, after: Book, bids: seq<OrderID>, asks: seq<OrderID>, high: int, mid: int,
                                low: int, p: int)
  {
    var bq, aq := Quotes(book, bids), Quotes(book, asks);
    && Uncrossed(Quotes(after, bids), Quotes(after, asks))
    && if !Crossed(bq, aq) then Quotes(after, bids) == bq && Quotes(after, asks) == aq
       else
         && IsExecutionPrice(bq + aq, high, mid, low, p)
         && Quotes(after, bids) == Drain(bq, Volume(bq + aq, p)) && Quotes(after, asks) == Drain(aq, Volume(bq + aq, p))
  }

  lemma CandidatesMatchTheMarket(book: Book, symbol: string, tieBreak: OrderID -> int, wholeBids: seq<OrderID>,
                                 wholeAsks: seq<OrderID>, bids: seq<OrderID>, asks: seq<OrderID>, before: Point,
                                 after: Point, high: int, mid: int, low: int, p: int)
    requires Unambiguous(book, tieBreak) && forall id | id in book :: book[id].leftStock > 0
    requires SideOfBook(wholeBids, book, Bid, symbol, tieBreak) && SideOfBook(wholeAsks, book, Ask, symbol, tieBreak)
    requires SideOfCandidates(bids, book, Bid, symbol, tieBreak) && SideOfCandidates(asks, book, Ask, symbol, tieBreak)
    requires before.orders == CandidateOrders(book, symbol) && after.orders.Keys == before.orders.Keys
    requires Ended(before, after, bids, asks, high, mid, low, p)
    ensures MarketCleared(book, book + after.orders, wholeBids, wholeAsks, high, mid, low, p)
  {
    hide Ended, MarketCleared, C.Split, Uncrossed, BestFirst, Positive, Unambiguous, Meets, Quotes;
    var k := SideSplits(book, after.orders, wholeBids, bids, Bid, symbol, tieBreak);
    var m := SideSplits(book, after.orders, wholeAsks, asks, Ask, symbol, tieBreak);
    SplitByCandidates(wholeBids, wholeAsks, k, m, book, symbol, tieBreak);
    WholeQuotes(wholeBids, book, Bid, symbol, tieBreak);
    WholeQuotes(wholeAsks, book, Ask, symbol, tieBreak);
    ClearedWhole(book, after.orders, before, after, wholeBids, wholeAsks, k, m, high, mid, low, p);
  }

  /** One side of the market, cut where its candidates end. */
  lemma SideSplits(book: Book, after: Book, whole: seq<OrderID>, list: seq<OrderID>, side: Side, symbol: string,
                   tieBreak: OrderID -> int)
    returns (n: nat)
    requires SideOfBook(whole, book, side, symbol, tieBreak) && SideOfCandidates(list, book, side, symbol, tieBreak)
    requires Unambiguous(book, tieBreak) && after.Keys == Candidates(book, symbol)
    ensures n <= |whole| && list == whole[..n]
    ensures forall i | 0 <= i < |whole| :: i < n <==> whole[i] in Candidates(book, symbol)
    ensures Quotes(CandidateOrders(book, symbol), list) == Quotes(book, whole)[..n]
    ensures Quotes(book + after, whole) == Quotes(after, list) + Quotes(book, whole)[n..]
  {
    n := CandidatesAreAPrefix(whole, list, book, side, symbol, tieBreak);
    forall i | 0 <= i < |whole| ensures whole[i] in book { assert whole[i] in whole; }
    PartialQuotes(book, after, whole, n);
    QuotesOfCandidates(book, symbol, list);
    forall i | 0 <= i < n ensures Quotes(book, list)[i] == Quotes(book, whole)[i] {
      assert Quotes(book, list)[i] == QuoteOf(book, list[i]);
    }
  }

  lemma ClearedWhole(book: Book, orders: Book, before: Point, after: Point, wholeBids: seq<OrderID>,
                     wholeAsks: seq<OrderID>, k: nat, m: nat, high: int, mid: int, low: int, p: int)
    requires k <= |wholeBids| && m <= |wholeAsks| && orders == after.orders
    requires var bq, aq := Quotes(book, wholeBids), Quotes(book, wholeAsks);
             && (if k > 0 && m > 0 then C.Split(bq, aq, k, m)
                 else k == 0 && m == 0 && Uncrossed(bq, aq) && BestFirst(bq, Bid) && BestFirst(aq, Ask) && Positive(bq)
                      && Positive(aq))
             && Quotes(before.orders, wholeBids[..k]) == bq[..k] && Quotes(before.orders, wholeAsks[..m]) == aq[..m]
             && Quotes(book + orders, wholeBids) == Quotes(orders, wholeBids[..k]) + bq[k..]
             && Quotes(book + orders, wholeAsks) == Quotes(orders, wholeAsks[..m]) + aq[m..]
    requires Ended(before, after, wholeBids[..k], wholeAsks[..m], high, mid, low, p)
    ensures MarketCleared(book, book + orders, wholeBids, wholeAsks, high, mid, low, p)
  {
    hide Uncrossed, Drain, Volume, IsExecutionPrice, Quotes, Dealt;
    var bq, aq := Quotes(book, wholeBids), Quotes(book, wholeAsks);
    if k > 0 && m > 0 {
      assert Crossed(bq[..k], aq[..m]) && Crossed(bq, aq);
      C.CandidatesDecideThePrice(bq, aq, k, m, high, mid, low, p);
      C.CandidatesDecideTheFills(bq, aq, k, m, high, mid, low, p);
    } else {
      NoCrossingIfUncrossed(bq, aq);
      assert Quotes(orders, wholeBids[..k]) + bq[k..] == bq;
      assert Quotes(orders, wholeAsks[..m]) + aq[m..] == aq;
    }
  }

  lemma NoCrossingIfUncrossed(bq: seq<Quote>, aq: seq<Quote>)
    requires Uncrossed(bq, aq) && Positive(bq) && Positive(aq)
    ensures !Crossed(bq, aq)
  {
  }
}
