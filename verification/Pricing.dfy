/** How the matching engine finds the execution price: it groups the orders into price points,
    accumulates them from both ends, and selects by sorting. */
module Pricing {
  import opened Auction
  import opened ByteKeys
  import opened Slices

  datatype PricePoint = PricePoint(
    price: int, accumulatedAskAmount: int, askAmount: int, accumulatedBidAmount: int, bidAmount: int,
    executionAmount: int, imbalance: int, absImbalance: int)

  /** The amount one side offers at exactly price `p`. */
  function AmountAt(qs: seq<Quote>, side: Side, p: int): int
  {
    if qs == [] then 0
    else
      var q := qs[|qs| - 1];
      AmountAt(qs[..|qs| - 1], side, p) + (if q.side == side && q.price == p then q.amount else 0)
  }

  predicate KeyedPrices(qs: seq<Quote>)
  {
    forall i | 0 <= i < |qs| :: 0 <= qs[i].price < Pow256(DEC_BYTE_COUNT)
  }

  ghost predicate Grouped(qs: seq<Quote>, pt: PricePoint)
  {
    pt.bidAmount == AmountAt(qs, Bid, pt.price) && pt.askAmount == AmountAt(qs, Ask, pt.price)
  }

  /** The points carry each order price exactly once. */
  ghost predicate OnePerPrice(qs: seq<Quote>, pts: seq<PricePoint>)
  {
    && (forall i, j | 0 <= i < j < |pts| :: pts[i].price != pts[j].price)
    && (forall i | 0 <= i < |pts| :: HasPrice(qs, pts[i].price))
    && (forall p | HasPrice(qs, p) :: exists i :: 0 <= i < |pts| && pts[i].price == p)
  }

  ghost predicate Measured(qs: seq<Quote>, pt: PricePoint)
  {
    && pt.accumulatedBidAmount == Depth(qs, Bid, pt.price)
    && pt.accumulatedAskAmount == Depth(qs, Ask, pt.price)
    && pt.executionAmount == Volume(qs, pt.price)
    && pt.imbalance == Imbalance(qs, pt.price)
    && pt.absImbalance == Abs(Imbalance(qs, pt.price))
  }

  // ------------------------------------------------------------ grouping

  lemma {:induction false} NothingAtMissingPrice(qs: seq<Quote>, side: Side, p: int)
    requires !HasPrice(qs, p)
    ensures AmountAt(qs, side, p) == 0
  {
    if qs != [] {
      var front := qs[..|qs| - 1];
      assert qs[|qs| - 1].price != p;
      assert forall i | 0 <= i < |front| :: front[i] == qs[i];
      NothingAtMissingPrice(front, side, p);
    }
  }

  lemma HasPriceStep(qs: seq<Quote>, n: nat, p: int)
    requires n < |qs|
    ensures HasPrice(qs[..n + 1], p) <==> HasPrice(qs[..n], p) || qs[n].price == p
  {
    if HasPrice(qs[..n], p) {
      var i :| 0 <= i < n && qs[..n][i].price == p;
      assert qs[..n + 1][i].price == p;
    }
    if qs[n].price == p { assert qs[..n + 1][n].price == p; }
    if HasPrice(qs[..n + 1], p) && qs[n].price != p {
      var i :| 0 <= i < n + 1 && qs[..n + 1][i].price == p;
      assert qs[..n][i].price == p;
    }
  }

  lemma AmountAtStep(qs: seq<Quote>, n: nat, side: Side, p: int)
    requires n < |qs|
    ensures AmountAt(qs[..n + 1], side, p) ==
            AmountAt(qs[..n], side, p) + (if qs[n].side == side && qs[n].price == p then qs[n].amount else 0)
  {
    assert qs[..n + 1][..n] == qs[..n];
  }

  /** The price keys of the map and the points of the list describe each other. */
  ghost predicate Indexed(ppMap: map<Key, nat>, pts: seq<PricePoint>)
  {
    && (forall i | 0 <= i < |pts| :: 0 <= pts[i].price < Pow256(DEC_BYTE_COUNT)
                                     && BigEndian(pts[i].price, DEC_BYTE_COUNT) in ppMap
                                     && ppMap[BigEndian(pts[i].price, DEC_BYTE_COUNT)] == i)
    && (forall k | k in ppMap ::
        ppMap[k] < |pts| && pts[ppMap[k]].price >= 0 && k == BigEndian(pts[ppMap[k]].price, DEC_BYTE_COUNT))
  }

  function Added(pt: PricePoint, order: Quote): PricePoint
  {
    if order.side == Ask then pt.(askAmount := pt.askAmount + order.amount)
    else pt.(bidAmount := pt.bidAmount + order.amount)
  }

  /** `pts` groups the orders `qs` and also has a point, perhaps empty, for price `p`. */
  ghost predicate GroupsWith(qs: seq<Quote>, pts: seq<PricePoint>, p: int)
  {
    && (forall i, j | 0 <= i < j < |pts| :: pts[i].price != pts[j].price)
    && (forall i | 0 <= i < |pts| :: Grouped(qs, pts[i]) && (HasPrice(qs, pts[i].price) || pts[i].price == p))
    && (forall r | HasPrice(qs, r) :: exists i :: 0 <= i < |pts| && pts[i].price == r)
  }

  lemma AddedGroups(qs: seq<Quote>, n: nat, pts: seq<PricePoint>, offset: nat)
    requires n < |qs| && GroupsWith(qs[..n], pts, qs[n].price)
    requires offset < |pts| && pts[offset].price == qs[n].price
    ensures var list := pts[offset := Added(pts[offset], qs[n])];
            OnePerPrice(qs[..n + 1], list) && forall i | 0 <= i < |list| :: Grouped(qs[..n + 1], list[i])
  {
    var list := pts[offset := Added(pts[offset], qs[n])];
    assert forall i | 0 <= i < |list| :: list[i].price == pts[i].price;
    forall i | 0 <= i < |list| ensures HasPrice(qs[..n + 1], list[i].price) && Grouped(qs[..n + 1], list[i]) {
      HasPriceStep(qs, n, pts[i].price);
      AmountAtStep(qs, n, Bid, pts[i].price);
      AmountAtStep(qs, n, Ask, pts[i].price);
    }
    var next := qs[..n + 1];
    forall r | HasPrice(next, r) ensures exists i :: 0 <= i < |list| && list[i].price == r {
      HasPriceStep(qs, n, r);
      if HasPrice(qs[..n], r) {
        var i :| 0 <= i < |pts| && pts[i].price == r;
        assert list[i].price == r;
      } else {
        assert list[offset].price == r;
      }
    }
  }

  method CreatePricePointList(orders: seq<Quote>) returns (ppList: array<PricePoint>)
    requires KeyedPrices(orders)
    ensures fresh(ppList)
    ensures OnePerPrice(orders, ppList[..])
    ensures forall i | 0 <= i < ppList.Length :: Grouped(orders, ppList[i])
  {
    var list: seq<PricePoint> := [];
    var ppMap: map<Key, nat> := map[];
    for n := 0 to |orders|
      invariant Indexed(ppMap, list)
      invariant OnePerPrice(orders[..n], list)
      invariant forall i | 0 <= i < |list| :: Grouped(orders[..n], list[i])
    {
      var offset;
      ppMap, list, offset := FindOrAddPoint(orders, n, ppMap, list);
      AddedGroups(orders, n, list, offset);
      list := list[offset := Added(list[offset], orders[n])];
    }
    assert orders[..|orders|] == orders;
    ppList := new PricePoint[|list|](i requires 0 <= i < |list| => list[i]);
    assert ppList[..] == list;
  }

  lemma StillHasPoints(qs: seq<Quote>, pts: seq<PricePoint>, more: seq<PricePoint>)
    requires OnePerPrice(qs, pts) && pts <= more
    ensures forall r | HasPrice(qs, r) :: exists i :: 0 <= i < |more| && more[i].price == r
  {
    forall r | HasPrice(qs, r) ensures exists i :: 0 <= i < |more| && more[i].price == r {
      var i :| 0 <= i < |pts| && pts[i].price == r;
      assert more[i].price == r;
    }
  }

  lemma SamePrice(p: int, q: int)
    requires 0 <= p < Pow256(DEC_BYTE_COUNT) && 0 <= q < Pow256(DEC_BYTE_COUNT)
    requires BigEndian(p, DEC_BYTE_COUNT) == BigEndian(q, DEC_BYTE_COUNT)
    ensures p == q
  {
    BigEndianOrder(p, q, DEC_BYTE_COUNT);
  }

  lemma NewPrice(orders: seq<Quote>, n: nat, ppMap: map<Key, nat>, list: seq<PricePoint>)
    requires n < |orders| && KeyedPrices(orders) && Indexed(ppMap, list) && OnePerPrice(orders[..n], list)
    requires BigEndian(orders[n].price, DEC_BYTE_COUNT) !in ppMap
    ensures forall i | 0 <= i < |list| :: list[i].price != orders[n].price
    ensures AmountAt(orders[..n], Bid, orders[n].price) == 0 && AmountAt(orders[..n], Ask, orders[n].price) == 0
  {
    assert !HasPrice(orders[..n], orders[n].price);
    NothingAtMissingPrice(orders[..n], Bid, orders[n].price);
    NothingAtMissingPrice(orders[..n], Ask, orders[n].price);
  }

  function EmptyPoint(price: int): PricePoint { PricePoint(price, 0, 0, 0, 0, 0, 0, 0) }

  lemma KeyOf(orders: seq<Quote>, n: nat)
    requires n < |orders| && KeyedPrices(orders)
    ensures 0 <= orders[n].price < Pow256(DEC_BYTE_COUNT)
  {
  }

  lemma FoundPoint(orders: seq<Quote>, n: nat, ppMap: map<Key, nat>, list: seq<PricePoint>)
    requires n < |orders| && KeyedPrices(orders) && Indexed(ppMap, list) && OnePerPrice(orders[..n], list)
    requires forall i | 0 <= i < |list| :: Grouped(orders[..n], list[i])
    requires 0 <= orders[n].price && BigEndian(orders[n].price, DEC_BYTE_COUNT) in ppMap
    ensures var offset := ppMap[BigEndian(orders[n].price, DEC_BYTE_COUNT)];
            offset < |list| && list[offset].price == orders[n].price
    ensures GroupsWith(orders[..n], list, orders[n].price)
  {
    hide HasPrice, Grouped, BigEndian, Pow256;
    SamePrice(list[ppMap[BigEndian(orders[n].price, DEC_BYTE_COUNT)]].price, orders[n].price);
  }

  lemma AppendedIsIndexed(orders: seq<Quote>, n: nat, ppMap: map<Key, nat>, list: seq<PricePoint>)
    requires n < |orders| && KeyedPrices(orders) && Indexed(ppMap, list)
    requires 0 <= orders[n].price && BigEndian(orders[n].price, DEC_BYTE_COUNT) !in ppMap
    ensures Indexed(ppMap[BigEndian(orders[n].price, DEC_BYTE_COUNT) := |list|], list + [EmptyPoint(orders[n].price)])
  {
    hide BigEndian, Pow256;
  }

  lemma AppendedGroups(orders: seq<Quote>, n: nat, ppMap: map<Key, nat>, list: seq<PricePoint>)
    requires n < |orders| && KeyedPrices(orders) && Indexed(ppMap, list) && OnePerPrice(orders[..n], list)
    requires forall i | 0 <= i < |list| :: Grouped(orders[..n], list[i])
    requires 0 <= orders[n].price && BigEndian(orders[n].price, DEC_BYTE_COUNT) !in ppMap
    ensures var more := list + [EmptyPoint(orders[n].price)];
            GroupsWith(orders[..n], more, orders[n].price) && more[|list|].price == orders[n].price
  {
    hide HasPrice, BigEndian, AmountAt, Indexed;
    NewPrice(orders, n, ppMap, list);
    StillHasPoints(orders[..n], list, list + [EmptyPoint(orders[n].price)]);
  }

  /** Looks the price of the next order up by its byte key, and appends an empty point for a
      price that is new. */
  method FindOrAddPoint(orders: seq<Quote>, n: nat, ppMap: map<Key, nat>, list: seq<PricePoint>)
    returns (newMap: map<Key, nat>, newList: seq<PricePoint>, offset: nat)
    requires n < |orders| && KeyedPrices(orders)
    requires Indexed(ppMap, list) && OnePerPrice(orders[..n], list)
    requires forall i | 0 <= i < |list| :: Grouped(orders[..n], list[i])
    ensures Indexed(newMap, newList)
    ensures GroupsWith(orders[..n], newList, orders[n].price)
    ensures offset < |newList| && newList[offset].price == orders[n].price
  {
    hide Indexed, GroupsWith, OnePerPrice, Grouped, KeyedPrices, HasPrice, BigEndian, AmountAt;
    var price := orders[n].price;
    KeyOf(orders, n);
    var s := DecToBigEndianBytes(price);
    if s in ppMap {
      FoundPoint(orders, n, ppMap, list);
      newMap, newList, offset := ppMap, list, ppMap[s];
    } else {
      AppendedIsIndexed(orders, n, ppMap, list);
      AppendedGroups(orders, n, ppMap, list);
      newMap, newList, offset := ppMap[s := |list|], list + [EmptyPoint(price)], |list|;
    }
  }

  // ------------------------------------------------------------ accumulation

  predicate HigherPrice(a: PricePoint, b: PricePoint) { a.price > b.price }

  /** Moving to the next order price adds what is offered at exactly that price. */
  lemma {:induction false} DepthStep(qs: seq<Quote>, side: Side, p: int, q: int)
    requires forall i | 0 <= i < |qs| && qs[i].side == side ::
               Accepts(side, qs[i].price, p) <==> qs[i].price == p || Accepts(side, qs[i].price, q)
    requires !Accepts(side, p, q)
    ensures Depth(qs, side, p) == Depth(qs, side, q) + AmountAt(qs, side, p)
  {
    if qs != [] {
      var last := qs[|qs| - 1];
      assert last.side == side ==> (Accepts(side, last.price, p) <==> last.price == p || Accepts(side, last.price, q));
      DepthStep(qs[..|qs| - 1], side, p, q);
    }
  }

  lemma {:induction false} DepthAtExtreme(qs: seq<Quote>, side: Side, p: int)
    requires forall i | 0 <= i < |qs| && qs[i].side == side :: Accepts(side, qs[i].price, p) <==> qs[i].price == p
    ensures Depth(qs, side, p) == AmountAt(qs, side, p)
  {
    if qs != [] {
      var last := qs[|qs| - 1];
      assert last.side == side ==> (Accepts(side, last.price, p) <==> last.price == p);
      DepthAtExtreme(qs[..|qs| - 1], side, p);
    }
  }

  ghost predicate Falling(pts: seq<PricePoint>)
  {
    forall i, j | 0 <= i < j < |pts| :: pts[i].price > pts[j].price
  }

  lemma PricesAreListed(qs: seq<Quote>, pts: seq<PricePoint>, i: nat) returns (j: nat)
    requires OnePerPrice(qs, pts) && i < |qs|
    ensures j < |pts| && pts[j].price == qs[i].price
  {
    assert HasPrice(qs, qs[i].price);
    j :| 0 <= j < |pts| && pts[j].price == qs[i].price;
  }

  lemma BidDepthAt(qs: seq<Quote>, pts: seq<PricePoint>, i: nat)
    requires OnePerPrice(qs, pts) && Falling(pts) && i < |pts|
    ensures Depth(qs, Bid, pts[i].price) == AmountAt(qs, Bid, pts[i].price)
            + (if i == 0 then 0 else Depth(qs, Bid, pts[i - 1].price))
  {
    forall k | 0 <= k < |qs|
      ensures qs[k].price >= pts[i].price <==> qs[k].price == pts[i].price || (i > 0 && qs[k].price >= pts[i - 1].price)
    {
      var j := PricesAreListed(qs, pts, k);
    }
    if i == 0 { DepthAtExtreme(qs, Bid, pts[0].price); } else { DepthStep(qs, Bid, pts[i].price, pts[i - 1].price); }
  }

  lemma AskDepthAt(qs: seq<Quote>, pts: seq<PricePoint>, i: nat)
    requires OnePerPrice(qs, pts) && Falling(pts) && i < |pts|
    ensures Depth(qs, Ask, pts[i].price) == AmountAt(qs, Ask, pts[i].price)
            + (if i == |pts| - 1 then 0 else Depth(qs, Ask, pts[i + 1].price))
  {
    forall k | 0 <= k < |qs|
      ensures qs[k].price <= pts[i].price <==>
              qs[k].price == pts[i].price || (i < |pts| - 1 && qs[k].price <= pts[i + 1].price)
    {
      var j := PricesAreListed(qs, pts, k);
    }
    if i == |pts| - 1 {
      DepthAtExtreme(qs, Ask, pts[i].price);
    } else {
      DepthStep(qs, Ask, pts[i].price, pts[i + 1].price);
    }
  }

  lemma OnePerPricePermuted(qs: seq<Quote>, r: seq<PricePoint>, s: seq<PricePoint>)
    requires OnePerPrice(qs, s) && multiset(r) == multiset(s)
    ensures OnePerPrice(qs, r)
  {
    SameElements(r, s);
    DistinctPermuted(r, s);
    forall i, j | 0 <= i < j < |r| ensures r[i].price != r[j].price {
      assert r[i] in s && r[j] in s;
    }
    forall i | 0 <= i < |r| ensures HasPrice(qs, r[i].price) { assert r[i] in s; }
    forall p | HasPrice(qs, p) ensures exists i :: 0 <= i < |r| && r[i].price == p {
      var j :| 0 <= j < |s| && s[j].price == p;
      assert s[j] in r;
    }
  }

  /** What the accumulation keeps while it fills in the fields of the sorted points. */
  ghost predicate SameGrouping(qs: seq<Quote>, pts: seq<PricePoint>, sorted: seq<PricePoint>)
  {
    |pts| == |sorted| && forall i | 0 <= i < |pts| :: pts[i].price == sorted[i].price && Grouped(qs, pts[i])
  }

  method SortByPrice(ppList: array<PricePoint>, ghost orders: seq<Quote>)
    requires OnePerPrice(orders, ppList[..])
    requires forall i | 0 <= i < ppList.Length :: Grouped(orders, ppList[i])
    modifies ppList
    ensures OnePerPrice(orders, ppList[..]) && Falling(ppList[..])
    ensures forall i | 0 <= i < ppList.Length :: Grouped(orders, ppList[i])
  {
    var sorted := Sort(HigherPrice, ppList[..]);
    SameElements(sorted, ppList[..]);
    OnePerPricePermuted(orders, sorted, ppList[..]);
    forall i | 0 <= i < |sorted| ensures Grouped(orders, sorted[i]) { assert sorted[i] in ppList[..]; }
    forall i | 0 <= i < ppList.Length { ppList[i] := sorted[i]; }
    assert ppList[..] == sorted;
  }

  /** Buy: scan from the highest price down. */
  method AccumulateBids(ppList: array<PricePoint>, ghost orders: seq<Quote>, ghost sorted: seq<PricePoint>)
    requires ppList[..] == sorted && OnePerPrice(orders, sorted) && Falling(sorted)
             && SameGrouping(orders, sorted, sorted)
    modifies ppList
    ensures SameGrouping(orders, ppList[..], sorted)
    ensures forall j | 0 <= j < ppList.Length :: ppList[j].accumulatedBidAmount == Depth(orders, Bid, sorted[j].price)
  {
    var accumulatedBidAmount := 0;
    for i := 0 to ppList.Length
      invariant SameGrouping(orders, ppList[..], sorted)
      invariant accumulatedBidAmount == if i == 0 then 0 else Depth(orders, Bid, sorted[i - 1].price)
      invariant forall j | 0 <= j < i :: ppList[j].accumulatedBidAmount == Depth(orders, Bid, sorted[j].price)
    {
      BidDepthAt(orders, sorted, i);
      assert ppList[..][i].price == sorted[i].price;
      accumulatedBidAmount := accumulatedBidAmount + ppList[i].bidAmount;
      ppList[i] := ppList[i].(accumulatedBidAmount := accumulatedBidAmount);
    }
  }

  /** Sell: scan from the lowest price up. */
  method AccumulateAsks(ppList: array<PricePoint>, ghost orders: seq<Quote>, ghost sorted: seq<PricePoint>)
    requires SameGrouping(orders, ppList[..], sorted) && OnePerPrice(orders, sorted) && Falling(sorted)
    modifies ppList
    ensures SameGrouping(orders, ppList[..], sorted)
    ensures forall j | 0 <= j < ppList.Length :: ppList[j].accumulatedBidAmount == old(ppList[j].accumulatedBidAmount)
    ensures forall j | 0 <= j < ppList.Length :: ppList[j].accumulatedAskAmount == Depth(orders, Ask, sorted[j].price)
  {
    var accumulatedAskAmount := 0;
    for i := ppList.Length downto 0
      invariant SameGrouping(orders, ppList[..], sorted)
      invariant forall j | 0 <= j < ppList.Length ::
                ppList[j].accumulatedBidAmount == old(ppList[j].accumulatedBidAmount)
      invariant accumulatedAskAmount == if i == ppList.Length then 0 else Depth(orders, Ask, sorted[i].price)
      invariant forall j | i <= j < ppList.Length ::
                ppList[j].accumulatedAskAmount == Depth(orders, Ask, sorted[j].price)
    {
      AskDepthAt(orders, sorted, i);
      assert ppList[..][i].price == sorted[i].price;
      accumulatedAskAmount := accumulatedAskAmount + ppList[i].askAmount;
      ppList[i] := ppList[i].(accumulatedAskAmount := accumulatedAskAmount);
    }
  }

  method FillExecutionAmounts(ppList: array<PricePoint>, ghost orders: seq<Quote>)
    requires forall j | 0 <= j < ppList.Length :: Accumulated(orders, ppList[j])
    modifies ppList
    ensures forall j | 0 <= j < ppList.Length :: ppList[j].price == old(ppList[j].price) && Measured(orders, ppList[j])
  {
    for i := 0 to ppList.Length
      invariant forall j | 0 <= j < ppList.Length :: ppList[j].price == old(ppList[j].price)
      invariant forall j | i <= j < ppList.Length :: Accumulated(orders, ppList[j])
      invariant forall j | 0 <= j < i :: Measured(orders, ppList[j])
    {
      var pp := ppList[i].(executionAmount := ppList[i].accumulatedAskAmount);
      if pp.accumulatedBidAmount < pp.accumulatedAskAmount { pp := pp.(executionAmount := pp.accumulatedBidAmount); }
      pp := pp.(imbalance := pp.accumulatedBidAmount - pp.accumulatedAskAmount);
      pp := pp.(absImbalance := pp.imbalance);
      if pp.absImbalance < 0 { pp := pp.(absImbalance := -pp.imbalance); }
      assert Measured(orders, pp);
      ppList[i] := pp;
    }
  }

  method AccumulateForPricePointList(ppList: array<PricePoint>, ghost orders: seq<Quote>)
    requires OnePerPrice(orders, ppList[..])
    requires forall i | 0 <= i < ppList.Length :: Grouped(orders, ppList[i])
    modifies ppList
    ensures OnePerPrice(orders, ppList[..])
    ensures forall i | 0 <= i < ppList.Length :: Measured(orders, ppList[i])
  {
    SortByPrice(ppList, orders);
    ghost var sorted := ppList[..];
    AccumulateBids(ppList, orders, sorted);
    AccumulateAsks(ppList, orders, sorted);
    assert forall j | 0 <= j < ppList.Length :: ppList[..][j].price == sorted[j].price;
    assert forall j | 0 <= j < ppList.Length :: Accumulated(orders, ppList[j]);
    FillExecutionAmounts(ppList, orders);
    SamePricesListed(orders, ppList[..], sorted);
  }

  ghost predicate Accumulated(qs: seq<Quote>, pt: PricePoint)
  {
    pt.accumulatedBidAmount == Depth(qs, Bid, pt.price) && pt.accumulatedAskAmount == Depth(qs, Ask, pt.price)
  }

  lemma SamePricesListed(qs: seq<Quote>, pts: seq<PricePoint>, sorted: seq<PricePoint>)
    requires OnePerPrice(qs, sorted) && |pts| == |sorted| && forall i | 0 <= i < |pts| ::
             pts[i].price == sorted[i].price
    ensures OnePerPrice(qs, pts)
  {
    forall p | HasPrice(qs, p) ensures exists i :: 0 <= i < |pts| && pts[i].price == p {
      var i :| 0 <= i < |sorted| && sorted[i].price == p;
      assert pts[i].price == p;
    }
  }

  // ------------------------------------------------------------ selection

  /** The order in which the points are considered. */
  predicate Precede(a: PricePoint, b: PricePoint)
  {
    if a.executionAmount > b.executionAmount then true
    else if a.executionAmount < b.executionAmount then false
    else if a.absImbalance < b.absImbalance then true
    else if a.absImbalance > b.absImbalance then false
    else a.price > b.price
  }

  predicate LessImbalance(a: PricePoint, b: PricePoint) { a.absImbalance < b.absImbalance }

  function PricesOf(pts: seq<PricePoint>): (r: seq<int>)
    ensures |r| == |pts|
    ensures forall i | 0 <= i < |pts| :: r[i] == pts[i].price
  {
    seq(|pts|, i requires 0 <= i < |pts| => pts[i].price)
  }

  /** `pts` are points of the list, each at most once. */
  ghost predicate Selected(qs: seq<Quote>, pts: seq<PricePoint>, all: seq<PricePoint>)
  {
    && (forall i | 0 <= i < |pts| :: Measured(qs, pts[i]) && pts[i] in all)
    && (forall i, j | 0 <= i < j < |pts| :: pts[i].price != pts[j].price)
  }

  /** The longest prefix of a sorted list whose execution amount is that of its first point. */
  method TakeSameExecution(sorted: seq<PricePoint>) returns (same: seq<PricePoint>)
    requires |sorted| > 0 && Sorted(Precede, sorted)
    ensures 0 < |same| <= |sorted| && same == sorted[..|same|]
    ensures forall i | 0 <= i < |same| :: same[i].executionAmount == sorted[0].executionAmount
    ensures forall i | |same| <= i < |sorted| :: sorted[i].executionAmount < sorted[0].executionAmount
  {
    same := [sorted[0]];
    for i := 1 to |sorted|
      invariant |same| == i && same == sorted[..i]
      invariant forall j | 0 <= j < i :: same[j].executionAmount == sorted[0].executionAmount
    {
      if sorted[i].executionAmount == sorted[0].executionAmount {
        same := same + [sorted[i]];
      } else {
        assert !Precede(sorted[i], sorted[0]);
        forall j | i <= j < |sorted| ensures sorted[j].executionAmount < sorted[0].executionAmount {
          assert j == i || !Precede(sorted[j], sorted[i]);
        }
        return;
      }
    }
  }

  method TakeSameImbalance(sorted: seq<PricePoint>) returns (same: seq<PricePoint>)
    requires |sorted| > 0 && Sorted(LessImbalance, sorted)
    ensures 0 < |same| <= |sorted| && same == sorted[..|same|]
    ensures forall i | 0 <= i < |same| :: same[i].absImbalance == sorted[0].absImbalance
    ensures forall i | |same| <= i < |sorted| :: sorted[i].absImbalance > sorted[0].absImbalance
  {
    same := [sorted[0]];
    for i := 1 to |sorted|
      invariant |same| == i && same == sorted[..i]
      invariant forall j | 0 <= j < i :: same[j].absImbalance == sorted[0].absImbalance
    {
      if sorted[i].absImbalance == sorted[0].absImbalance {
        same := same + [sorted[i]];
      } else {
        assert !LessImbalance(sorted[i], sorted[0]);
        forall j | i <= j < |sorted| ensures sorted[j].absImbalance > sorted[0].absImbalance {
          assert j == i || !LessImbalance(sorted[j], sorted[i]);
        }
        return;
      }
    }
  }

  /** The points that survive both selections are exactly those of the best prices. */
  lemma SurvivorsAreBest(qs: seq<Quote>, all: seq<PricePoint>, best: seq<PricePoint>)
    requires OnePerPrice(qs, all) && (forall i | 0 <= i < |all| :: Measured(qs, all[i]))
    requires |best| > 0 && Selected(qs, best, all)
    requires forall i, j | 0 <= i < |best| && 0 <= j < |all| ::
               all[j].executionAmount < best[i].executionAmount
               || (all[j].executionAmount == best[i].executionAmount && all[j].absImbalance > best[i].absImbalance)
               || (all[j].executionAmount == best[i].executionAmount && all[j].absImbalance == best[i].absImbalance
                   && all[j] in best)
    ensures ListsBest(qs, PricesOf(best))
  {
    var l := PricesOf(best);
    forall p | p in l ensures IsBest(qs, p) {
      var i :| 0 <= i < |best| && best[i].price == p;
      var n :| 0 <= n < |all| && all[n] == best[i];
      forall r | HasPrice(qs, r) ensures AtLeastAsGood(qs, p, r) {
        var j :| 0 <= j < |all| && all[j].price == r;
        assert all[j].executionAmount <= best[i].executionAmount;
      }
    }
    forall p | IsBest(qs, p) ensures p in l {
      var j :| 0 <= j < |all| && all[j].price == p;
      var n :| 0 <= n < |all| && all[n] == best[0];
      assert AtLeastAsGood(qs, p, all[n].price);
      assert all[j] in best;
      var i :| 0 <= i < |best| && best[i] == all[j];
      assert l[i] == p;
    }
  }

  /** Every point of `all` that is not in `best` trades less. */
  ghost predicate MostExecution(all: seq<PricePoint>, best: seq<PricePoint>)
  {
    forall i, j | 0 <= i < |best| && 0 <= j < |all| ::
      all[j].executionAmount < best[i].executionAmount
          || (all[j].executionAmount == best[i].executionAmount && all[j] in best)
  }

  method SelectByExecution(all: seq<PricePoint>, ghost orders: seq<Quote>) returns (same: seq<PricePoint>)
    requires |all| > 0 && OnePerPrice(orders, all) && forall i | 0 <= i < |all| :: Measured(orders, all[i])
    ensures |same| > 0 && Selected(orders, same, all) && MostExecution(all, same)
  {
    var sorted := Sort(Precede, all);
    SameElements(sorted, all);
    OnePerPricePermuted(orders, sorted, all);
    same := TakeSameExecution(sorted);
    forall i | 0 <= i < |same| ensures Measured(orders, same[i]) && same[i] in all {
      assert same[i] == sorted[i];
      assert sorted[i] in all;
    }
    forall j | 0 <= j < |all|
      ensures all[j].executionAmount < sorted[0].executionAmount
              || (all[j].executionAmount == sorted[0].executionAmount && all[j] in same)
    {
      assert all[j] in sorted;
      var k :| 0 <= k < |sorted| && sorted[k] == all[j];
      if k < |same| { assert same[k] == all[j]; }
    }
  }

  method SelectByImbalance(sameEA: seq<PricePoint>, ghost all: seq<PricePoint>, ghost orders: seq<Quote>)
    returns (best: seq<PricePoint>)
    requires |sameEA| > 0 && Selected(orders, sameEA, all) && MostExecution(all, sameEA)
    requires OnePerPrice(orders, all) && forall i | 0 <= i < |all| :: Measured(orders, all[i])
    ensures |best| > 0 && Selected(orders, best, all) && ListsBest(orders, PricesOf(best))
  {
    hide OnePerPrice, ListsBest;
    var ordered := Sort(LessImbalance, sameEA);
    SameElements(ordered, sameEA);
    DistinctPermuted(ordered, sameEA);
    best := TakeSameImbalance(ordered);
    assert forall i | 0 <= i < |ordered| :: ordered[i] in sameEA;
    assert Selected(orders, best, all);
    forall j | 0 <= j < |all|
      ensures all[j].executionAmount < ordered[0].executionAmount
           || (all[j].executionAmount == ordered[0].executionAmount
               && (all[j].absImbalance > ordered[0].absImbalance || all[j] in best))
    {
      if all[j] in sameEA {
        assert all[j] in ordered;
        var k :| 0 <= k < |ordered| && ordered[k] == all[j];
        if k < |best| { assert best[k] == all[j]; }
      }
    }
    SurvivorsAreBest(orders, all, best);
  }

  method CalculateExecutionPrice(highPrice: int, midPrice: int, lowPrice: int, ppList: array<PricePoint>,
                                 ghost orders: seq<Quote>)
    returns (price: int)
    requires ppList.Length > 0
    requires OnePerPrice(orders, ppList[..])
    requires forall i | 0 <= i < ppList.Length :: Measured(orders, ppList[i])
    ensures IsExecutionPrice(orders, highPrice, midPrice, lowPrice, price)
  {
    var sameEA := SelectByExecution(ppList[..], orders);
    if |sameEA| == 1 {
      SurvivorsAreBest(orders, ppList[..], sameEA);
      return sameEA[0].price;
    }
    var sameImbalance := SelectByImbalance(sameEA, ppList[..], orders);
    if |sameImbalance| == 1 {
      return sameImbalance[0].price;
    }
    price := CalculateExecutionPriceWithRef(highPrice, midPrice, lowPrice, sameImbalance, orders);
  }

  /** The special case of several equally good prices, which looks at the market pressure. */
  method CalculateExecutionPriceWithRef(highPrice: int, midPrice: int, lowPrice: int, pts: seq<PricePoint>,
                                        ghost orders: seq<Quote>)
    returns (price: int)
    requires |pts| > 0 && forall i | 0 <= i < |pts| :: Measured(orders, pts[i])
    ensures price == RefRule(orders, highPrice, midPrice, lowPrice, PricesOf(pts))
    ensures EndsSpan(PricesOf(pts)) ==>
              FollowsPressure(orders, highPrice, midPrice, lowPrice, PricesOf(pts),
                              pts[|pts| - 1].price, pts[0].price, price)
  {
    hide FollowsPressure;
    ghost var l := PricesOf(pts);
    if EndsSpan(l) { RefRuleFollowsPressure(orders, highPrice, midPrice, lowPrice, l); }
    var allImbalanceIsNegative, allImbalanceIsPositive := true, true;
    var highest, lowest, middle := pts[0].price, pts[|pts| - 1].price, pts[|pts| / 2].price;
    if midPrice == 0 { return middle; }
    for i := 0 to |pts|
      invariant allImbalanceIsPositive <==> forall j | 0 <= j < i :: Imbalance(orders, l[j]) >= 0
      invariant allImbalanceIsNegative <==> forall j | 0 <= j < i :: Imbalance(orders, l[j]) <= 0
    {
      assert pts[i].imbalance == Imbalance(orders, l[i]);
      if pts[i].imbalance < 0 { allImbalanceIsPositive := false; }
      if pts[i].imbalance > 0 { allImbalanceIsNegative := false; }
    }
    if allImbalanceIsPositive {
      if highest < highPrice { return highest; }
      if lowest > highPrice { return lowest; }
      return highPrice;
    } else if allImbalanceIsNegative {
      if highest < lowPrice { return highest; }
      if lowest > lowPrice { return lowest; }
      return lowPrice;
    } else {
      if highest < midPrice { return highest; }
      if lowest > midPrice { return lowest; }
      return midPrice;
    }
  }

  method GetExecutionPrice(highPrice: int, midPrice: int, lowPrice: int, orders: seq<Quote>) returns (price: int)
    requires KeyedPrices(orders) && |orders| > 0
    ensures IsExecutionPrice(orders, highPrice, midPrice, lowPrice, price)
  {
    var ppList := CreatePricePointList(orders);
    assert HasPrice(orders, orders[0].price);
    AccumulateForPricePointList(ppList, orders);
    price := CalculateExecutionPrice(highPrice, midPrice, lowPrice, ppList, orders);
  }
}
