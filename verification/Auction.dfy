/** What a call auction means, on plain quotes: depth, volume and imbalance at a price,
    the prices the auction may choose, and how a traded amount drains a queue of orders.
    Nothing here follows the control flow of the matching engine; `Pricing`, `Matching` and
    `CallAuction` are proved against these definitions. */
module Auction {

  datatype Side = Bid | Ask

  datatype Quote = Quote(side: Side, price: int, amount: int)

  // ------------------------------------------------------------ depth and volume

  /** Whether an order accepts a deal at price `p`. */
  predicate Accepts(side: Side, limit: int, p: int)
  {
    if side == Bid then limit >= p else limit <= p
  }

  /** The amount that the orders of one side are willing to trade at price `p`. */
  function Depth(qs: seq<Quote>, side: Side, p: int): int
  {
    if qs == [] then 0
    else
      var q := qs[|qs| - 1];
      Depth(qs[..|qs| - 1], side, p) + (if q.side == side && Accepts(side, q.price, p) then q.amount else 0)
  }

  function Min(a: int, b: int): int { if a < b then a else b }

  function Abs(a: int): int { if a < 0 then -a else a }

  function Volume(qs: seq<Quote>, p: int): int
  {
    Min(Depth(qs, Bid, p), Depth(qs, Ask, p))
  }

  function Imbalance(qs: seq<Quote>, p: int): int
  {
    Depth(qs, Bid, p) - Depth(qs, Ask, p)
  }

  predicate Positive(qs: seq<Quote>)
  {
    forall i | 0 <= i < |qs| :: qs[i].amount > 0
  }

  predicate NonNegative(qs: seq<Quote>)
  {
    forall i | 0 <= i < |qs| :: qs[i].amount >= 0
  }

  predicate OneSided(qs: seq<Quote>, side: Side)
  {
    forall i | 0 <= i < |qs| :: qs[i].side == side
  }

  lemma DepthNonNegative(qs: seq<Quote>, side: Side, p: int)
    requires NonNegative(qs)
    ensures Depth(qs, side, p) >= 0
  {
    if qs != [] { DepthNonNegative(qs[..|qs| - 1], side, p); }
  }

  /** A lower price attracts bids and repels asks. */
  lemma {:induction false} DepthMonotone(qs: seq<Quote>, p: int, q: int)
    requires NonNegative(qs) && p <= q
    ensures Depth(qs, Bid, p) >= Depth(qs, Bid, q)
    ensures Depth(qs, Ask, p) <= Depth(qs, Ask, q)
  {
    if qs != [] { DepthMonotone(qs[..|qs| - 1], p, q); }
  }

  lemma {:induction false} DepthConcat(a: seq<Quote>, b: seq<Quote>, side: Side, p: int)
    ensures Depth(a + b, side, p) == Depth(a, side, p) + Depth(b, side, p)
  {
    if b == [] {
      assert a + b == a;
    } else {
      assert (a + b)[..|a + b| - 1] == a + b[..|b| - 1];
      DepthConcat(a, b[..|b| - 1], side, p);
    }
  }

  lemma {:induction false} DepthOtherSide(qs: seq<Quote>, side: Side, other: Side, p: int)
    requires OneSided(qs, side) && other != side
    ensures Depth(qs, other, p) == 0
  {
    if qs != [] { DepthOtherSide(qs[..|qs| - 1], side, other, p); }
  }

  /** Depth only changes where some order of that side changes its mind. */
  lemma {:induction false} DepthUnchanged(qs: seq<Quote>, side: Side, p: int, q: int)
    requires forall i | 0 <= i < |qs| && qs[i].side == side ::
             Accepts(side, qs[i].price, p) == Accepts(side, qs[i].price, q)
    ensures Depth(qs, side, p) == Depth(qs, side, q)
  {
    if qs != [] {
      var last := qs[|qs| - 1];
      assert last == qs[|qs| - 1];
      DepthUnchanged(qs[..|qs| - 1], side, p, q);
    }
  }

  // ------------------------------------------------------------ the choice of a price

  predicate HasPrice(qs: seq<Quote>, p: int)
  {
    exists i :: 0 <= i < |qs| && qs[i].price == p
  }

  predicate AtLeastAsGood(qs: seq<Quote>, p: int, r: int)
  {
    && Volume(qs, r) <= Volume(qs, p)
    && (Volume(qs, r) == Volume(qs, p) ==> Abs(Imbalance(qs, p)) <= Abs(Imbalance(qs, r)))
  }

  /** An order price with the largest volume and, among those, the least imbalance. */
  ghost predicate IsBest(qs: seq<Quote>, p: int)
  {
    HasPrice(qs, p) && forall r :: HasPrice(qs, r) ==> AtLeastAsGood(qs, p, r)
  }

  /** `l` lists the best order prices, each once, in an order that nothing is said about:
      the engine sorts them with an unstable sort. */
  ghost predicate ListsBest(qs: seq<Quote>, l: seq<int>)
  {
    && |l| > 0
    && (forall i, j | 0 <= i < j < |l| :: l[i] != l[j])
    && (forall p :: p in l <==> IsBest(qs, p))
  }

  ghost predicate NoneNegative(qs: seq<Quote>, l: seq<int>)
  {
    forall i | 0 <= i < |l| :: Imbalance(qs, l[i]) >= 0
  }

  ghost predicate NonePositive(qs: seq<Quote>, l: seq<int>)
  {
    forall i | 0 <= i < |l| :: Imbalance(qs, l[i]) <= 0
  }

  /** The price nearest to `bound` between the last and the first listed price. */
  function Clamp(bound: int, first: int, last: int): int
  {
    if first < bound then first else if last > bound then last else bound
  }

  /** The reference-price rule between several equally good prices: buying pressure moves
      toward `high`, selling pressure toward `low`, and otherwise the last price decides. */
  ghost function RefRule(qs: seq<Quote>, high: int, mid: int, low: int, l: seq<int>): int
    requires |l| > 0
  {
    if mid == 0 then l[|l| / 2]
    else if NoneNegative(qs, l) then Clamp(high, l[0], l[|l| - 1])
    else if NonePositive(qs, l) then Clamp(low, l[0], l[|l| - 1])
    else Clamp(mid, l[0], l[|l| - 1])
  }

  ghost function Chosen(qs: seq<Quote>, high: int, mid: int, low: int, l: seq<int>): int
    requires |l| > 0
  {
    if |l| == 1 then l[0] else RefRule(qs, high, mid, low, l)
  }

  /** `p` is a price the auction may execute at, for some order of the ties. */
  ghost predicate IsExecutionPrice(qs: seq<Quote>, high: int, mid: int, low: int, p: int)
  {
    exists l :: ListsBest(qs, l) && p == Chosen(qs, high, mid, low, l)
  }

  function Distance(p: int, q: int): int { Abs(p - q) }

  /** No price from `lo` to `hi` is nearer to `bound` than `p`, which is one of them. */
  predicate Nearest(bound: int, lo: int, hi: int, p: int)
  {
    lo <= p <= hi && forall q | lo <= q <= hi :: Distance(p, bound) <= Distance(q, bound)
  }

  /** `lo` and `hi` are the lowest and the highest listed price. */
  predicate Spans(l: seq<int>, lo: int, hi: int)
  {
    lo in l && hi in l && forall i | 0 <= i < |l| :: lo <= l[i] <= hi
  }

  /** What the market pressure makes of a price between `lo` and `hi`: it is driven toward `high`
      if no listed price leaves sellers over, toward `low` if some do but none leaves buyers over,
      and toward the last price if both happen. Without a last price it is the middle of the list. */
  ghost predicate FollowsPressure(qs: seq<Quote>, high: int, mid: int, low: int, l: seq<int>, lo: int, hi: int, p: int)
    requires |l| > 0
  {
    var sellersLeft := exists i | 0 <= i < |l| :: Imbalance(qs, l[i]) < 0;
    var buyersLeft := exists i | 0 <= i < |l| :: Imbalance(qs, l[i]) > 0;
    && (mid == 0 ==> p == l[|l| / 2])
    && (mid != 0 && !sellersLeft ==> Nearest(high, lo, hi, p))
    && (mid != 0 && sellersLeft && !buyersLeft ==> Nearest(low, lo, hi, p))
    && (mid != 0 && sellersLeft && buyersLeft ==> Nearest(mid, lo, hi, p))
  }

  /** The listing starts with its highest price and ends with its lowest, as a falling one does. */
  predicate EndsSpan(l: seq<int>)
  {
    |l| > 0 && forall i | 0 <= i < |l| :: l[|l| - 1] <= l[i] <= l[0]
  }

  lemma RefRuleFollowsPressure(qs: seq<Quote>, high: int, mid: int, low: int, l: seq<int>)
    requires EndsSpan(l)
    ensures FollowsPressure(qs, high, mid, low, l, l[|l| - 1], l[0], RefRule(qs, high, mid, low, l))
  {
    hide Imbalance;
  }

  /** An executed price is the only best one, or it obeys the market pressure between the
      lowest and the highest of the best ones if the listing starts and ends with these. */
  lemma ExecutionPriceFollowsPressure(qs: seq<Quote>, high: int, mid: int, low: int, p: int) returns (l: seq<int>)
    requires IsExecutionPrice(qs, high, mid, low, p)
    ensures ListsBest(qs, l) && (|l| == 1 ==> p == l[0])
    ensures |l| > 1 && EndsSpan(l) ==> FollowsPressure(qs, high, mid, low, l, l[|l| - 1], l[0], p)
  {
    hide Imbalance, IsBest, RefRule, FollowsPressure;
    l :| ListsBest(qs, l) && p == Chosen(qs, high, mid, low, l);
    if |l| > 1 && EndsSpan(l) { RefRuleFollowsPressure(qs, high, mid, low, l); }
  }

  /** A listing that does not start and end with them, which an unstable sort may leave, is
      where the market pressure is not obeyed for every reference price. */
  lemma PressureIsFollowedIff(qs: seq<Quote>, l: seq<int>, lo: int, hi: int)
    requires |l| > 1 && Spans(l, lo, hi)
    ensures (forall high, mid, low | mid != 0 ::
              FollowsPressure(qs, high, mid, low, l, lo, hi, Chosen(qs, high, mid, low, l)))
            <==> l[0] == hi && l[|l| - 1] == lo
  {
    hide Imbalance;
    if l[0] == hi && l[|l| - 1] == lo {
      forall high, mid, low | mid != 0
        ensures FollowsPressure(qs, high, mid, low, l, lo, hi, Chosen(qs, high, mid, low, l))
      {
        RefRuleFollowsPressure(qs, high, mid, low, l);
      }
    } else {
      var above, below := if hi == -1 then 1 else hi + 1, if lo == 1 then -1 else lo - 1;
      assert Distance(hi, above) == above - hi && Distance(lo, below) == lo - below;
      assert !Nearest(above, lo, hi, l[0]) || !Nearest(below, lo, hi, l[|l| - 1]);
      assert Chosen(qs, above, above, above, l) == l[0] && Chosen(qs, below, below, below, l) == l[|l| - 1];
      assert !FollowsPressure(qs, above, above, above, l, lo, hi, l[0])
          || !FollowsPressure(qs, below, below, below, l, lo, hi, l[|l| - 1]);
    }
  }

  /** The lowest bid at or above `q`, where there is one. */
  lemma {:induction false} LowestBidFrom(qs: seq<Quote>, q: int) returns (k: nat)
    requires exists i :: 0 <= i < |qs| && qs[i].side == Bid && qs[i].price >= q
    ensures k < |qs| && qs[k].side == Bid && qs[k].price >= q
    ensures forall i | 0 <= i < |qs| && qs[i].side == Bid && qs[i].price >= q :: qs[k].price <= qs[i].price
  {
    k :| 0 <= k < |qs| && qs[k].side == Bid && qs[k].price >= q;
    var n := 0;
    while n < |qs|
      invariant n <= |qs|
      invariant k < |qs| && qs[k].side == Bid && qs[k].price >= q
      invariant forall i | 0 <= i < n && qs[i].side == Bid && qs[i].price >= q :: qs[k].price <= qs[i].price
    {
      if qs[n].side == Bid && qs[n].price >= q && qs[n].price < qs[k].price { k := n; }
      n := n + 1;
    }
  }

  lemma {:induction false} DepthNeedsABid(qs: seq<Quote>, q: int)
    requires Depth(qs, Bid, q) > 0
    ensures exists i :: 0 <= i < |qs| && qs[i].side == Bid && qs[i].price >= q
  {
    var last := qs[|qs| - 1];
    if last.side == Bid && last.price >= q {
      assert qs[|qs| - 1].side == Bid;
    } else {
      DepthNeedsABid(qs[..|qs| - 1], q);
      var i :| 0 <= i < |qs| - 1 && qs[..|qs| - 1][i].side == Bid && qs[..|qs| - 1][i].price >= q;
      assert qs[i].side == Bid;
    }
  }

  /** No price trades more than some order price does. */
  lemma VolumePeaksAtAnOrderPrice(qs: seq<Quote>, q: int) returns (r: int)
    requires NonNegative(qs) && qs != []
    ensures HasPrice(qs, r) && Volume(qs, q) <= Volume(qs, r)
  {
    if Depth(qs, Bid, q) > 0 {
      DepthNeedsABid(qs, q);
      var k := LowestBidFrom(qs, q);
      r := qs[k].price;
      DepthUnchanged(qs, Bid, q, r);
      DepthMonotone(qs, q, r);
    } else {
      r := qs[0].price;
      DepthNonNegative(qs, Bid, r);
      DepthNonNegative(qs, Ask, r);
    }
  }

  /** A price between two equally good prices is at least as good as they are. */
  lemma BetweenBest(qs: seq<Quote>, a: int, p: int, b: int)
    requires NonNegative(qs) && a <= p <= b
    requires Volume(qs, a) == Volume(qs, b) && Abs(Imbalance(qs, a)) == Abs(Imbalance(qs, b))
    ensures Volume(qs, p) >= Volume(qs, a) && Abs(Imbalance(qs, p)) <= Abs(Imbalance(qs, a))
  {
    DepthMonotone(qs, a, p);
    DepthMonotone(qs, p, b);
  }

  lemma BestAgree(qs: seq<Quote>, l: seq<int>, i: nat, j: nat)
    requires ListsBest(qs, l) && i < |l| && j < |l|
    ensures Volume(qs, l[i]) == Volume(qs, l[j])
    ensures Abs(Imbalance(qs, l[i])) == Abs(Imbalance(qs, l[j]))
  {
    assert l[i] in l && l[j] in l;
    assert AtLeastAsGood(qs, l[i], l[j]) && AtLeastAsGood(qs, l[j], l[i]);
  }

  lemma ChosenIsBetween(qs: seq<Quote>, high: int, mid: int, low: int, l: seq<int>) returns (i: nat, j: nat)
    requires |l| > 0
    ensures i < |l| && j < |l| && l[i] <= Chosen(qs, high, mid, low, l) <= l[j]
  {
    var p := Chosen(qs, high, mid, low, l);
    if p == l[0] {
      return 0, 0;
    } else if p == l[|l| - 1] {
      return |l| - 1, |l| - 1;
    } else if mid == 0 {
      return |l| / 2, |l| / 2;
    } else {
      return |l| - 1, 0;
    }
  }

  /** The optimality of the executed price, over every price and not only order prices;
      it covers the cases in which a reference price is returned that no order carries. */
  lemma ExecutionPriceIsOptimal(qs: seq<Quote>, high: int, mid: int, low: int, p: int)
    requires NonNegative(qs) && IsExecutionPrice(qs, high, mid, low, p)
    ensures forall q :: Volume(qs, q) <= Volume(qs, p)
    ensures forall r ::
            HasPrice(qs, r) && Volume(qs, r) == Volume(qs, p) ==> Abs(Imbalance(qs, p)) <= Abs(Imbalance(qs, r))
  {
    var l :| ListsBest(qs, l) && p == Chosen(qs, high, mid, low, l);
    var i, j := ChosenIsBetween(qs, high, mid, low, l);
    assert l[i] in l && l[j] in l;
    BestAgree(qs, l, i, j);
    BetweenBest(qs, l[i], p, l[j]);
    assert IsBest(qs, l[i]);
    forall q ensures Volume(qs, q) <= Volume(qs, p) {
      var r := VolumePeaksAtAnOrderPrice(qs, q);
      assert AtLeastAsGood(qs, l[i], r);
    }
    forall r | HasPrice(qs, r) && Volume(qs, r) == Volume(qs, p)
      ensures Abs(Imbalance(qs, p)) <= Abs(Imbalance(qs, r))
    {
      assert AtLeastAsGood(qs, l[i], r);
    }
  }

  // ------------------------------------------------------------ draining a queue

  /** The total amount of the first `n` orders. */
  function Upto(qs: seq<Quote>, n: nat): int
    requires n <= |qs|
  {
    if n == 0 then 0 else Upto(qs, n - 1) + qs[n - 1].amount
  }

  /** What remains of an order of amount `a` when `due` still has to be traded. */
  function Rest(a: int, due: int): int
  {
    if due <= 0 then a else if due >= a then 0 else a - due
  }

  /** The queue after `v` was traded in strict order of precedence: an order is touched only
      for what the orders before it could not provide. */
  function Drain(qs: seq<Quote>, v: int): (r: seq<Quote>)
    ensures |r| == |qs|
  {
    seq(|qs|, i requires 0 <= i < |qs| => DrainedAt(qs, v, i))
  }

  function DrainedAt(qs: seq<Quote>, v: int, i: nat): Quote
    requires i < |qs|
  {
    Quote(qs[i].side, qs[i].price, Rest(qs[i].amount, v - Upto(qs, i)))
  }

  lemma {:induction false} UptoMonotone(qs: seq<Quote>, i: nat, j: nat)
    requires NonNegative(qs) && i <= j <= |qs|
    ensures 0 <= Upto(qs, i) <= Upto(qs, j)
    decreases j
  {
    if j > 0 {
      if i < j { UptoMonotone(qs, i, j - 1); } else { UptoMonotone(qs, j - 1, j - 1); }
    }
  }

  lemma {:induction false} UptoPrefix(qs: seq<Quote>, k: nat, i: nat)
    requires i <= k <= |qs|
    ensures Upto(qs[..k], i) == Upto(qs, i)
  {
    if i > 0 { UptoPrefix(qs, k, i - 1); }
  }

  lemma {:induction false} UptoSuffix(qs: seq<Quote>, j: nat, i: nat)
    requires j + i <= |qs|
    ensures Upto(qs, j + i) == Upto(qs, j) + Upto(qs[j..], i)
  {
    if i > 0 { UptoSuffix(qs, j, i - 1); }
  }

  lemma {:induction false} DrainUpto(qs: seq<Quote>, v: int, i: nat)
    requires NonNegative(qs) && 0 <= v && i <= |qs|
    ensures Upto(Drain(qs, v), i) == (if Upto(qs, i) <= v then 0 else Upto(qs, i) - v)
  {
    if i > 0 {
      DrainUpto(qs, v, i - 1);
      UptoMonotone(qs, i - 1, i - 1);
    }
  }

  /** Trading `u` and then `v` is trading `u + v`. */
  lemma DrainTwice(qs: seq<Quote>, u: int, v: int)
    requires NonNegative(qs) && 0 <= u && 0 <= v
    ensures Drain(Drain(qs, u), v) == Drain(qs, u + v)
  {
    var once := Drain(qs, u);
    forall i | 0 <= i < |qs|
      ensures Drain(once, v)[i] == Drain(qs, u + v)[i]
    {
      DrainTwiceAt(qs, u, v, i);
    }
  }

  lemma DrainTwiceAt(qs: seq<Quote>, u: int, v: int, i: nat)
    requires NonNegative(qs) && 0 <= u && 0 <= v && i < |qs|
    ensures Drain(Drain(qs, u), v)[i] == Drain(qs, u + v)[i]
  {
    DrainUpto(qs, u, i);
  }

  lemma DrainNothing(qs: seq<Quote>)
    requires NonNegative(qs)
    ensures Drain(qs, 0) == qs
  {
    forall i | 0 <= i < |qs| ensures Drain(qs, 0)[i] == qs[i] {
      UptoMonotone(qs, i, i);
    }
  }

  /** An exhausted prefix plays no part any more. */
  lemma DrainSkipsEmpty(qs: seq<Quote>, j: nat, v: int)
    requires NonNegative(qs) && 0 <= v && j <= |qs|
    requires forall i | 0 <= i < j :: qs[i].amount == 0
    ensures Drain(qs, v) == qs[..j] + Drain(qs[j..], v)
  {
    var right := qs[..j] + Drain(qs[j..], v);
    UptoOfZeros(qs, j);
    forall i | 0 <= i < |qs|
      ensures Drain(qs, v)[i] == right[i]
    {
      if i < j {
        assert right[i] == qs[i];
      } else {
        UptoSuffix(qs, j, i - j);
        assert right[i] == Drain(qs[j..], v)[i - j];
      }
    }
  }

  lemma {:induction false} UptoOfZeros(qs: seq<Quote>, j: nat)
    requires j <= |qs| && forall i | 0 <= i < j :: qs[i].amount == 0
    ensures Upto(qs, j) == 0
  {
    if j > 0 { UptoOfZeros(qs, j - 1); }
  }

  /** Taking `v` from a head that has as much leaves the rest of the queue alone. */
  lemma DrainHead(qs: seq<Quote>, v: int)
    requires Positive(qs) && |qs| > 0 && 0 <= v <= qs[0].amount
    ensures Drain(qs, v) == [qs[0].(amount := qs[0].amount - v)] + qs[1..]
  {
    var right := [qs[0].(amount := qs[0].amount - v)] + qs[1..];
    forall i | 0 <= i < |qs|
      ensures Drain(qs, v)[i] == right[i]
    {
      if i > 0 {
        assert Upto(qs, 1) == qs[0].amount;
        UptoMonotone(qs, 1, i);
        assert right[i] == qs[i];
      }
    }
  }

  /** The point of the definition: an order is filled at all only if every order before it is
      filled completely, so filled orders form a prefix with at most one partial fill. */
  lemma FillsFormAPrefix(qs: seq<Quote>, v: int, i: nat, j: nat)
    requires NonNegative(qs) && 0 <= v && i < j < |qs|
    requires Drain(qs, v)[j].amount < qs[j].amount
    ensures Drain(qs, v)[i].amount == 0
  {
    UptoMonotone(qs, i + 1, j);
    UptoMonotone(qs, i, i);
  }

  // ------------------------------------------------------------ sorted queues

  /** Best price first: falling for bids, rising for asks. */
  predicate BestFirst(qs: seq<Quote>, side: Side)
  {
    && OneSided(qs, side)
    && forall i, j | 0 <= i < j < |qs| :: (if side == Bid then qs[i].price >= qs[j].price
                                           else qs[i].price <= qs[j].price)
  }

  /** In a sorted queue the depth at a price is the total of the accepting prefix. */
  lemma {:induction false} DepthIsPrefix(qs: seq<Quote>, side: Side, p: int, k: nat)
    requires OneSided(qs, side) && k <= |qs|
    requires forall i | 0 <= i < k :: Accepts(side, qs[i].price, p)
    requires forall i | k <= i < |qs| :: !Accepts(side, qs[i].price, p)
    ensures Depth(qs, side, p) == Upto(qs, k)
  {
    if qs == [] {
    } else if k == |qs| {
      assert Accepts(side, qs[|qs| - 1].price, p) && qs[|qs| - 1].side == side;
      UptoPrefix(qs, |qs| - 1, k - 1);
      DepthIsPrefix(qs[..|qs| - 1], side, p, k - 1);
    } else {
      assert !Accepts(side, qs[|qs| - 1].price, p);
      UptoPrefix(qs, |qs| - 1, k);
      DepthIsPrefix(qs[..|qs| - 1], side, p, k);
    }
  }

  lemma AcceptingPrefix(qs: seq<Quote>, side: Side, p: int) returns (k: nat)
    requires BestFirst(qs, side)
    ensures k <= |qs| && Depth(qs, side, p) == Upto(qs, k)
    ensures forall i | 0 <= i < k :: Accepts(side, qs[i].price, p)
    ensures forall i | k <= i < |qs| :: !Accepts(side, qs[i].price, p)
  {
    k := 0;
    while k < |qs| && Accepts(side, qs[k].price, p)
      invariant k <= |qs|
      invariant forall i | 0 <= i < k :: Accepts(side, qs[i].price, p)
    {
      k := k + 1;
    }
    DepthIsPrefix(qs, side, p, k);
  }

  lemma LeftoverUpto(qs: seq<Quote>, v: int, i: nat)
    requires i < |qs| && NonNegative(qs) && Drain(qs, v)[i].amount > 0
    ensures v < Upto(qs, i + 1)
  {
    assert Drain(qs, v)[i] == DrainedAt(qs, v, i);
  }

  /** If something is left of an order after `v` was traded, then at any price it accepts its
      side offers more than `v`. */
  lemma LeftoverMeansDepth(qs: seq<Quote>, side: Side, v: int, i: nat, p: int)
    requires BestFirst(qs, side) && NonNegative(qs) && 0 <= v && i < |qs|
    requires Drain(qs, v)[i].amount > 0 && Accepts(side, qs[i].price, p)
    ensures Depth(qs, side, p) > v
  {
    hide Drain, Depth;
    var k := AcceptingPrefix(qs, side, p);
    LeftoverUpto(qs, v, i);
    UptoMonotone(qs, i + 1, k);
  }

  ghost predicate Uncrossed(bids: seq<Quote>, asks: seq<Quote>)
  {
    forall i, j | 0 <= i < |bids| && 0 <= j < |asks| ::
      bids[i].amount > 0 && asks[j].amount > 0 ==> bids[i].price < asks[j].price
  }

  lemma VolumeOfTwoSides(bids: seq<Quote>, asks: seq<Quote>, p: int)
    requires OneSided(bids, Bid) && OneSided(asks, Ask)
    ensures Depth(bids + asks, Bid, p) == Depth(bids, Bid, p)
    ensures Depth(bids + asks, Ask, p) == Depth(asks, Ask, p)
  {
    DepthConcat(bids, asks, Bid, p);
    DepthConcat(bids, asks, Ask, p);
    DepthOtherSide(asks, Ask, Bid, p);
    DepthOtherSide(bids, Bid, Ask, p);
  }

  lemma CrossingMeansVolume(bids: seq<Quote>, asks: seq<Quote>, v: int, i: nat, j: nat)
    requires BestFirst(bids, Bid) && BestFirst(asks, Ask) && NonNegative(bids) && NonNegative(asks)
    requires 0 <= v && i < |bids| && j < |asks| && bids[i].price >= asks[j].price
    requires Drain(bids, v)[i].amount > 0 && Drain(asks, v)[j].amount > 0
    ensures Volume(bids + asks, bids[i].price) > v
  {
    LeftoverMeansDepth(bids, Bid, v, i, bids[i].price);
    LeftoverMeansDepth(asks, Ask, v, j, bids[i].price);
    VolumeOfTwoSides(bids, asks, bids[i].price);
  }

  /** One round is enough: trading the whole volume of a volume-maximal price in order of
      precedence leaves no bid that reaches an ask. */
  lemma OneRoundClears(bids: seq<Quote>, asks: seq<Quote>, p: int)
    requires BestFirst(bids, Bid) && BestFirst(asks, Ask) && NonNegative(bids) && NonNegative(asks)
    requires forall q :: Volume(bids + asks, q) <= Volume(bids + asks, p)
    ensures Volume(bids + asks, p) >= 0
    ensures Uncrossed(Drain(bids, Volume(bids + asks, p)), Drain(asks, Volume(bids + asks, p)))
  {
    var v := Volume(bids + asks, p);
    VolumeOfTwoSides(bids, asks, p);
    DepthNonNegative(bids, Bid, p);
    DepthNonNegative(asks, Ask, p);
    forall i, j | 0 <= i < |bids| && 0 <= j < |asks| && Drain(bids, v)[i].amount > 0 && Drain(asks, v)[j].amount > 0
      ensures bids[i].price < asks[j].price
    {
      if bids[i].price >= asks[j].price { CrossingMeansVolume(bids, asks, v, i, j); }
    }
  }

  // ------------------------------------------------------------ draining step by step

  lemma ConsumedBefore(qs: seq<Quote>, v: int, i: nat)
    requires i < |qs| && NonNegative(qs) && Upto(qs, i + 1) <= v
    ensures Drain(qs, v)[i].amount == 0
  {
  }

  lemma UntouchedAfter(qs: seq<Quote>, v: int, i: nat)
    requires i < |qs| && v <= Upto(qs, i)
    ensures Drain(qs, v)[i] == qs[i]
  {
  }

  lemma PartlyConsumed(qs: seq<Quote>, v: int, i: nat)
    requires i < |qs| && NonNegative(qs) && Upto(qs, i) <= v <= Upto(qs, i + 1)
    ensures Drain(qs, v)[i] == qs[i].(amount := Upto(qs, i + 1) - v)
  {
  }

  /** A queue that was drained into its `n`-th order. */
  lemma DrainedInto(qs: seq<Quote>, n: nat, v: int)
    requires NonNegative(qs) && n < |qs| && Upto(qs, n) <= v <= Upto(qs, n + 1)
    ensures forall i | 0 <= i < n :: Drain(qs, v)[i].amount == 0
    ensures Drain(qs, v)[n] == qs[n].(amount := Upto(qs, n + 1) - v)
    ensures forall i | n < i < |qs| :: Drain(qs, v)[i] == qs[i]
  {
    forall i | 0 <= i < n ensures Drain(qs, v)[i].amount == 0 {
      UptoMonotone(qs, i + 1, n);
      ConsumedBefore(qs, v, i);
    }
    PartlyConsumed(qs, v, n);
    forall i | n < i < |qs| ensures Drain(qs, v)[i] == qs[i] {
      UptoMonotone(qs, n + 1, i);
      UntouchedAfter(qs, v, i);
    }
  }

  /** Draining a little further touches the first order that has something left. */
  lemma DrainNext(qs: seq<Quote>, n: nat, v: int, w: int)
    requires NonNegative(qs) && n < |qs| && v == Upto(qs, n) <= w <= v + qs[n].amount
    ensures forall i | 0 <= i < |qs| && i != n :: Drain(qs, w)[i] == Drain(qs, v)[i]
    ensures Drain(qs, v)[n] == qs[n] && Drain(qs, w)[n] == qs[n].(amount := qs[n].amount - (w - v))
  {
    DrainedInto(qs, n, v);
    DrainedInto(qs, n, w);
    forall i | 0 <= i < |qs| && i != n ensures Drain(qs, w)[i] == Drain(qs, v)[i] {
      assert Drain(qs, v)[i] == DrainedAt(qs, v, i) && Drain(qs, w)[i] == DrainedAt(qs, w, i);
    }
  }

  /** How far `ExecuteOrder` got when it stops after `n` orders with `v` dealt. */
  ghost predicate Stopped(qs: seq<Quote>, side: Side, price: int, c: int, n: nat, v: int)
  {
    && n <= |qs| && 0 <= v
    && v == Min(c, Depth(qs, side, price))
    && (forall i | 0 <= i < n :: Drain(qs, v)[i].amount == 0)
    && (forall i | n <= i < |qs| :: Drain(qs, v)[i].amount > 0)
    && (|qs| > 0 && Accepts(side, qs[0].price, price) ==> n > 0 || v == c)
  }

  predicate AllAccept(qs: seq<Quote>, side: Side, price: int, n: nat)
    requires n <= |qs|
  {
    forall i | 0 <= i < n :: Accepts(side, qs[i].price, price)
  }

  lemma AcceptStep(qs: seq<Quote>, side: Side, price: int, n: nat)
    requires n < |qs| && AllAccept(qs, side, price, n) && Accepts(side, qs[n].price, price)
    ensures AllAccept(qs, side, price, n + 1)
  {
  }

  lemma StoppedAtUnwilling(qs: seq<Quote>, side: Side, price: int, c: int, n: nat, v: int)
    requires OneSided(qs, side) && Positive(qs) && n <= |qs| && v == Upto(qs, n) <= c
    requires AllAccept(qs, side, price, n)
    requires forall i | n <= i < |qs| :: !Accepts(side, qs[i].price, price)
    ensures Stopped(qs, side, price, c, n, v)
  {
    DepthIsPrefix(qs, side, price, n);
    UptoMonotone(qs, n, n);
    if n < |qs| {
      DrainedInto(qs, n, v);
    } else {
      DrainedAll(qs);
    }
  }

  lemma DrainedAll(qs: seq<Quote>)
    requires NonNegative(qs)
    ensures forall i | 0 <= i < |qs| :: Drain(qs, Upto(qs, |qs|))[i].amount == 0
  {
    forall i | 0 <= i < |qs| ensures Drain(qs, Upto(qs, |qs|))[i].amount == 0 {
      UptoMonotone(qs, i + 1, |qs|);
      ConsumedBefore(qs, Upto(qs, |qs|), i);
    }
  }

  lemma StoppedWhenFilled(qs: seq<Quote>, side: Side, price: int, c: int, n: nat, k: nat)
    requires BestFirst(qs, side) && Positive(qs) && n < |qs| && Upto(qs, n) < c <= Upto(qs, n + 1)
    requires AllAccept(qs, side, price, n + 1)
    requires k == if c == Upto(qs, n + 1) then n + 1 else n
    ensures Stopped(qs, side, price, c, k, c)
  {
    hide Drain, Depth;
    var willing := AcceptingPrefix(qs, side, price);
    UptoMonotone(qs, n + 1, willing);
    UptoMonotone(qs, n, n);
    DrainedInto(qs, n, c);
  }

  /** Behind an order that does not accept a price, no order of a sorted queue does. */
  lemma UnwillingTail(qs: seq<Quote>, side: Side, price: int, n: nat)
    requires BestFirst(qs, side) && n < |qs| && !Accepts(side, qs[n].price, price)
    ensures forall i | n <= i < |qs| :: !Accepts(side, qs[i].price, price)
  {
  }

  /** A queue of which `v` was traded: its first `i` orders are gone, the others have some left. */
  ghost predicate Cleared(q0: seq<Quote>, cur: seq<Quote>, i: nat, v: int)
  {
    && 0 <= v && i <= |q0| && cur == Drain(q0, v)
    && (forall k | 0 <= k < i :: cur[k].amount == 0)
    && (forall k | i <= k < |q0| :: cur[k].amount > 0)
  }

  lemma NothingCleared(q0: seq<Quote>)
    requires Positive(q0)
    ensures Cleared(q0, q0, 0, 0)
  {
    DrainNothing(q0);
  }

  lemma RestIsSorted(q0: seq<Quote>, cur: seq<Quote>, i: nat, v: int, side: Side)
    requires Cleared(q0, cur, i, v) && BestFirst(q0, side)
    ensures Positive(cur[i..]) && BestFirst(cur[i..], side) && NonNegative(cur) && BestFirst(cur, side)
  {
    DrainKeepsPrices(q0, v);
  }

  lemma DrainKeepsPrices(qs: seq<Quote>, v: int)
    ensures forall n | 0 <= n < |qs| :: Drain(qs, v)[n].side == qs[n].side && Drain(qs, v)[n].price == qs[n].price
  {
    forall n | 0 <= n < |qs| ensures Drain(qs, v)[n].side == qs[n].side && Drain(qs, v)[n].price == qs[n].price {
      assert Drain(qs, v)[n] == DrainedAt(qs, v, n);
    }
  }

  /** What the rest of the queue still offers at a price. */
  lemma RemainingDepth(q0: seq<Quote>, cur: seq<Quote>, i: nat, v: int, side: Side, p: int)
    requires Cleared(q0, cur, i, v) && BestFirst(q0, side) && Positive(q0) && v <= Depth(q0, side, p)
    ensures Depth(cur[i..], side, p) == Depth(q0, side, p) - v
  {
    hide Drain, Depth;
    RestIsSorted(q0, cur, i, v, side);
    var k := AcceptingPrefix(q0, side, p);
    DrainKeepsPrices(q0, v);
    DrainUpto(q0, v, k);
    if i <= k {
      DepthIsPrefix(cur[i..], side, p, k - i);
      UptoSuffix(cur, i, k - i);
      UptoOfZeros(cur, i);
    } else {
      DepthIsPrefix(cur[i..], side, p, 0);
      UptoOfZeros(cur, k);
    }
  }

  lemma DrainKeepsNonNegative(qs: seq<Quote>, v: int)
    requires NonNegative(qs)
    ensures NonNegative(Drain(qs, v))
  {
    forall i | 0 <= i < |qs| ensures Drain(qs, v)[i].amount >= 0 {
      assert Drain(qs, v)[i] == DrainedAt(qs, v, i);
    }
  }

  /** The head of the queue traded `w`. */
  lemma HeadCleared(q0: seq<Quote>, cur: seq<Quote>, i: nat, v: int, w: int, next: seq<Quote>)
    requires Cleared(q0, cur, i, v) && Positive(q0) && i < |q0| && 0 <= w <= cur[i].amount
    requires next == cur[i := cur[i].(amount := cur[i].amount - w)]
    ensures Cleared(q0, next, if next[i].amount == 0 then i + 1 else i, v + w)
  {
    DrainKeepsNonNegative(q0, v);
    DrainSkipsEmpty(cur, i, w);
    DrainHead(cur[i..], w);
    DrainTwice(q0, v, w);
    assert next == cur[..i] + ([cur[i].(amount := cur[i].amount - w)] + cur[i + 1..]);
    assert cur[i..][1..] == cur[i + 1..];
  }

  /** The rest of the queue was drained by `w`, which used up `k` more orders. */
  lemma TailCleared(q0: seq<Quote>, cur: seq<Quote>, i: nat, v: int, side: Side, p: int, c: int, k: nat, w: int,
                    next: seq<Quote>, ni: nat, nv: int)
    requires Cleared(q0, cur, i, v) && Positive(q0) && Stopped(cur[i..], side, p, c, k, w)
    requires next == cur[..i] + Drain(cur[i..], w) && ni == i + k && nv == v + w
    ensures Cleared(q0, next, ni, nv)
  {
    hide Drain;
    DrainKeepsNonNegative(q0, v);
    DrainSkipsEmpty(cur, i, w);
    DrainTwice(q0, v, w);
    var tail := Drain(cur[i..], w);
    forall n | 0 <= n < ni ensures next[n].amount == 0 {
      if n >= i { assert next[n] == tail[n - i]; }
    }
    forall n | ni <= n < |q0| ensures next[n].amount > 0 {
      assert next[n] == tail[n - i];
    }
  }

  /** An accepting head is part of the depth. */
  lemma HeadWithinDepth(qs: seq<Quote>, side: Side, p: int)
    requires BestFirst(qs, side) && Positive(qs) && |qs| > 0
    ensures Accepts(side, qs[0].price, p) ==> qs[0].amount <= Depth(qs, side, p)
  {
    if Accepts(side, qs[0].price, p) {
      var k := AcceptingPrefix(qs, side, p);
      assert Upto(qs, 1) == qs[0].amount;
      UptoMonotone(qs, 1, k);
    }
  }
}
