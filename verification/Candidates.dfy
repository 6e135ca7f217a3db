/** Why the matching step may look only at part of the order book: the bids that reach the
    lowest ask and the asks that reach the highest bid decide the auction. */
module Candidates {
  import opened Auction

  /** The whole book of one market, best price first, and how much of it are candidates. */
  ghost predicate Split(bids: seq<Quote>, asks: seq<Quote>, k: nat, m: nat)
  {
    && BestFirst(bids, Bid) && BestFirst(asks, Ask) && Positive(bids) && Positive(asks)
    && 0 < k <= |bids| && 0 < m <= |asks|
    && asks[0].price <= bids[0].price
    && (forall i | 0 <= i < |bids| :: i < k <==> asks[0].price <= bids[i].price)
    && (forall j | 0 <= j < |asks| :: j < m <==> asks[j].price <= bids[0].price)
  }

  predicate InRange(bids: seq<Quote>, asks: seq<Quote>, p: int)
    requires |bids| > 0 && |asks| > 0
  {
    asks[0].price <= p <= bids[0].price
  }

  lemma {:induction false} DepthOfUnwilling(qs: seq<Quote>, side: Side, p: int)
    requires forall i | 0 <= i < |qs| :: qs[i].side == side ==> !Accepts(side, qs[i].price, p)
    ensures Depth(qs, side, p) == 0
  {
    if qs != [] {
      assert qs[|qs| - 1].side == side ==> !Accepts(side, qs[|qs| - 1].price, p);
      DepthOfUnwilling(qs[..|qs| - 1], side, p);
    }
  }

  lemma SameDepthInRange(bids: seq<Quote>, asks: seq<Quote>, k: nat, m: nat, p: int)
    requires Split(bids, asks, k, m) && InRange(bids, asks, p)
    ensures Depth(bids + asks, Bid, p) == Depth(bids[..k] + asks[..m], Bid, p)
    ensures Depth(bids + asks, Ask, p) == Depth(bids[..k] + asks[..m], Ask, p)
    ensures Depth(bids[..k], Bid, p) == Depth(bids, Bid, p) && Depth(asks[..m], Ask, p) == Depth(asks, Ask, p)
  {
    assert bids == bids[..k] + bids[k..];
    assert asks == asks[..m] + asks[m..];
    DepthConcat(bids[..k], bids[k..], Bid, p);
    DepthConcat(asks[..m], asks[m..], Ask, p);
    DepthOfUnwilling(bids[k..], Bid, p);
    DepthOfUnwilling(asks[m..], Ask, p);
    VolumeOfTwoSides(bids, asks, p);
    VolumeOfTwoSides(bids[..k], asks[..m], p);
  }

  lemma NoVolumeOutOfRange(bids: seq<Quote>, asks: seq<Quote>, k: nat, m: nat, p: int)
    requires Split(bids, asks, k, m) && !InRange(bids, asks, p)
    ensures Volume(bids + asks, p) <= 0
  {
    VolumeOfTwoSides(bids, asks, p);
    if p > bids[0].price {
      DepthOfUnwilling(bids, Bid, p);
    } else {
      DepthOfUnwilling(asks, Ask, p);
    }
  }

  lemma CrossedBookHasVolume(bids: seq<Quote>, asks: seq<Quote>, k: nat, m: nat)
    requires Split(bids, asks, k, m)
    ensures Volume(bids + asks, bids[0].price) > 0
  {
    DrainNothing(bids);
    DrainNothing(asks);
    CrossingMeansVolume(bids, asks, 0, 0, 0);
  }

  lemma SamePrices(bids: seq<Quote>, asks: seq<Quote>, k: nat, m: nat, p: int)
    requires Split(bids, asks, k, m)
    ensures HasPrice(bids[..k] + asks[..m], p) <==> HasPrice(bids + asks, p) && InRange(bids, asks, p)
  {
    var whole, part := bids + asks, bids[..k] + asks[..m];
    if HasPrice(part, p) {
      var i :| 0 <= i < |part| && part[i].price == p;
      if i < k {
        assert whole[i].price == p;
      } else {
        assert part[i] == asks[i - k];
        assert whole[|bids| + i - k].price == p;
      }
    }
    if HasPrice(whole, p) && InRange(bids, asks, p) {
      var i :| 0 <= i < |whole| && whole[i].price == p;
      if i < |bids| {
        assert part[i].price == p;
      } else {
        assert whole[i] == asks[i - |bids|];
        assert part[k + i - |bids|].price == p;
      }
    }
  }

  lemma SameBest(bids: seq<Quote>, asks: seq<Quote>, k: nat, m: nat, p: int)
    requires Split(bids, asks, k, m)
    ensures IsBest(bids + asks, p) <==> IsBest(bids[..k] + asks[..m], p)
    ensures IsBest(bids + asks, p) ==> InRange(bids, asks, p)
  {
    var whole, part := bids + asks, bids[..k] + asks[..m];
    var top := bids[0].price;
    CrossedBookHasVolume(bids, asks, k, m);
    assert HasPrice(whole, top) by { assert whole[0].price == top; }
    SamePrices(bids, asks, k, m, top);
    SameDepthInRange(bids, asks, k, m, top);
    if IsBest(whole, p) {
      assert AtLeastAsGood(whole, p, top);
      if !InRange(bids, asks, p) { NoVolumeOutOfRange(bids, asks, k, m, p); }
      SameDepthInRange(bids, asks, k, m, p);
      SamePrices(bids, asks, k, m, p);
      forall r | HasPrice(part, r) ensures AtLeastAsGood(part, p, r) {
        SamePrices(bids, asks, k, m, r);
        SameDepthInRange(bids, asks, k, m, r);
        assert AtLeastAsGood(whole, p, r);
      }
    }
    if IsBest(part, p) {
      SamePrices(bids, asks, k, m, p);
      SameDepthInRange(bids, asks, k, m, p);
      assert AtLeastAsGood(part, p, top);
      forall r | HasPrice(whole, r) ensures AtLeastAsGood(whole, p, r) {
        SamePrices(bids, asks, k, m, r);
        if InRange(bids, asks, r) {
          SameDepthInRange(bids, asks, k, m, r);
          assert AtLeastAsGood(part, p, r);
        } else {
          NoVolumeOutOfRange(bids, asks, k, m, r);
        }
      }
    }
  }

  lemma SameChoice(bids: seq<Quote>, asks: seq<Quote>, k: nat, m: nat, high: int, mid: int, low: int, l: seq<int>)
    requires Split(bids, asks, k, m) && ListsBest(bids + asks, l)
    ensures Chosen(bids + asks, high, mid, low, l) == Chosen(bids[..k] + asks[..m], high, mid, low, l)
    ensures InRange(bids, asks, Chosen(bids + asks, high, mid, low, l))
  {
    forall i | 0 <= i < |l|
      ensures Imbalance(bids + asks, l[i]) == Imbalance(bids[..k] + asks[..m], l[i]) && InRange(bids, asks, l[i])
    {
      assert l[i] in l;
      SameBest(bids, asks, k, m, l[i]);
      SameDepthInRange(bids, asks, k, m, l[i]);
    }
    var i, j := ChosenIsBetween(bids + asks, high, mid, low, l);
  }

  /** The auction over the candidates may execute at exactly the prices at which the auction
      over the whole book may. */
  lemma CandidatesDecideThePrice(bids: seq<Quote>, asks: seq<Quote>, k: nat, m: nat, high: int, mid: int, low: int,
                                 p: int)
    requires Split(bids, asks, k, m)
    ensures IsExecutionPrice(bids + asks, high, mid, low, p) <==>
            IsExecutionPrice(bids[..k] + asks[..m], high, mid, low, p)
    ensures IsExecutionPrice(bids + asks, high, mid, low, p) ==> InRange(bids, asks, p)
  {
    var whole, part := bids + asks, bids[..k] + asks[..m];
    forall q ensures IsBest(whole, q) <==> IsBest(part, q) { SameBest(bids, asks, k, m, q); }
    if IsExecutionPrice(whole, high, mid, low, p) {
      var l :| ListsBest(whole, l) && p == Chosen(whole, high, mid, low, l);
      SameChoice(bids, asks, k, m, high, mid, low, l);
      assert ListsBest(part, l);
    }
    if IsExecutionPrice(part, high, mid, low, p) {
      var l :| ListsBest(part, l) && p == Chosen(part, high, mid, low, l);
      assert ListsBest(whole, l);
      SameChoice(bids, asks, k, m, high, mid, low, l);
    }
  }

  lemma DrainWithinPrefix(qs: seq<Quote>, k: nat, v: int)
    requires NonNegative(qs) && k <= |qs| && 0 <= v <= Upto(qs, k)
    ensures Drain(qs, v) == Drain(qs[..k], v) + qs[k..]
  {
    var right := Drain(qs[..k], v) + qs[k..];
    forall i | 0 <= i < |qs| ensures Drain(qs, v)[i] == right[i] {
      if i < k {
        UptoPrefix(qs, k, i);
        assert right[i] == Drain(qs[..k], v)[i];
      } else {
        UptoMonotone(qs, k, i);
        assert right[i] == qs[i];
      }
    }
  }

  lemma VolumeFitsInPrefix(qs: seq<Quote>, side: Side, k: nat, p: int)
    requires BestFirst(qs, side) && NonNegative(qs) && k <= |qs|
    requires forall i | k <= i < |qs| :: !Accepts(side, qs[i].price, p)
    ensures Depth(qs, side, p) <= Upto(qs, k)
  {
    var n := AcceptingPrefix(qs, side, p);
    UptoMonotone(qs, n, k);
  }

  /** Matching only the candidates fills every order of the whole book as matching the whole
      book would, and leaves the whole book uncrossed. */
  lemma CandidatesDecideTheFills(bids: seq<Quote>, asks: seq<Quote>, k: nat, m: nat, high: int, mid: int, low: int,
                                 p: int)
    requires Split(bids, asks, k, m) && IsExecutionPrice(bids[..k] + asks[..m], high, mid, low, p)
    ensures var v := Volume(bids[..k] + asks[..m], p);
            && v == Volume(bids + asks, p)
            && 0 <= v
            && Drain(bids, v) == Drain(bids[..k], v) + bids[k..]
            && Drain(asks, v) == Drain(asks[..m], v) + asks[m..]
            && Uncrossed(Drain(bids, v), Drain(asks, v))
  {
    CandidatesDecideThePrice(bids, asks, k, m, high, mid, low, p);
    SameDepthInRange(bids, asks, k, m, p);
    ExecutionPriceIsOptimal(bids + asks, high, mid, low, p);
    OneRoundClears(bids, asks, p);
    VolumeOfTwoSides(bids, asks, p);
    VolumeFitsInPrefix(bids, Bid, k, p);
    VolumeFitsInPrefix(asks, Ask, m, p);
    DrainWithinPrefix(bids, k, Volume(bids + asks, p));
    DrainWithinPrefix(asks, m, Volume(bids + asks, p));
  }
}
