/** Runs of the market: what any sequence of its steps, blocks among them, does to one order and to
    a mark that has lost its market. */
module MarketRuns {
  import opened Auction
  import opened BlockRuns
  import opened Blocks
  import opened ByteKeys
  import opened Closing
  import opened Decimals
  import opened Delist
  import opened Ledgers
  import opened OrderEntry
  import opened MarketState
  import opened Orders
  import opened OrderStore
  import opened Settlement
  import opened StoreKeys

  datatype Snapshot = Snapshot(x: Exchange, data: map<Key, Value>, markets: Markets)

  /** The steps of the market: the end of a block with its deals, the listing of a market, and
      every other message. */
  datatype Event = Block(needRemove: bool, deals: seq<Deal>, forbidden: Forbidden,
                         rules: FeeRules) | Listing(symbol: string) | Message

  ghost predicate MarksStay(before: map<Key, Value>, after: map<Key, Value>)
  {
    forall s: string :: MarkKey(s) in after <==> MarkKey(s) in before
  }

  ghost predicate MarksRemain(before: map<Key, Value>, after: map<Key, Value>)
  {
    forall s: string :: MarkKey(s) in before ==> MarkKey(s) in after
  }

  lemma OnlyOthersChanged(before: map<Key, Value>, after: map<Key, Value>)
    requires OnlyOrdersChanged(before, after) || OnlyDelistChanged(before, after)
    ensures MarksStay(before, after)
  {
    hide MarkKey;
    forall s: string ensures MarkKey(s) in after <==> MarkKey(s) in before { MarkIsNoOrder(before, after, s); }
  }

  lemma MarkedAndOthers(before: map<Key, Value>, after: map<Key, Value>, symbol: string, markets: Markets)
    requires OnlyOrdersChanged(before[MarkKey(symbol) := Mark], after) && symbol in markets
    ensures MarksRemain(before, after) && MarkKey(symbol) in after && MarksMarkets(before, after, markets)
  {
    hide MarkKey, OnlyOrdersChanged;
    OnlyOthersChanged(before[MarkKey(symbol) := Mark], after);
    forall s: string | ZeroFree(s) && MarkKey(s) in after && MarkKey(s) !in before ensures s in markets {
      MarkKeyInjective(s, symbol);
    }
  }

  lemma MarksStayTwice(a: map<Key, Value>, b: map<Key, Value>, c: map<Key, Value>)
    requires MarksStay(a, b) && MarksStay(b, c)
    ensures MarksStay(a, c)
  {
  }

  lemma SameMarks(a: map<Key, Value>)
    ensures MarksStay(a, a)
  {
  }

  /** Of the first `n` markets only those that were passed over may still be marked; the other marks
      are as they were. */
  ghost predicate MarksLeft(before: map<Key, Value>, after: map<Key, Value>, infos: seq<MarketInfo>,
                            symbols: seq<string>, n: nat, params: Params)
    requires n <= |symbols| && n <= |infos|
  {
    forall s: string | ZeroFree(s) ::
        MarkKey(s) in after <==> MarkKey(s) in before && !HadTurn(infos, symbols, n, params, s)
  }

  ghost predicate HadTurn(infos: seq<MarketInfo>, symbols: seq<string>, n: nat, params: Params, s: string)
    requires n <= |symbols| && n <= |infos|
  {
    exists j :: 0 <= j < n && symbols[j] == s && !Halted(infos[j], params)
  }

  lemma NoMarkTaken(data: map<Key, Value>, infos: seq<MarketInfo>, symbols: seq<string>, params: Params)
    ensures MarksLeft(data, data, infos, symbols, 0, params)
  {
  }

  lemma MarkTaken(before: map<Key, Value>, now: map<Key, Value>, infos: seq<MarketInfo>, symbols: seq<string>, i: nat,
                  params: Params)
    requires i < |symbols| && i < |infos| && MarksLeft(before, now, infos, symbols, i, params)
    ensures MarksLeft(before, if Halted(infos[i], params) then now else now - {MarkKey(symbols[i])}, infos, symbols,
                      i + 1, params)
  {
    hide MarkKey, ZeroFree;
    var next := if Halted(infos[i], params) then now else now - {MarkKey(symbols[i])};
    forall s: string | ZeroFree(s)
      ensures MarkKey(s) in next <==> MarkKey(s) in before && !HadTurn(infos, symbols, i + 1, params, s)
    {
      if MarkKey(s) == MarkKey(symbols[i]) { MarkKeyInjective(s, symbols[i]); }
      if HadTurn(infos, symbols, i, params, s) {
        var j :| 0 <= j < i && symbols[j] == s && !Halted(infos[j], params);
        assert HadTurn(infos, symbols, i + 1, params, s);
      }
    }
  }

  /** After a block that matched, the marks left are those of halted markets. */
  ghost predicate OnlyHaltedMarked(before: map<Key, Value>, after: map<Key, Value>, markets: Markets, params: Params)
  {
    forall s: string | ZeroFree(s) ::
        MarkKey(s) in after <==> MarkKey(s) in before && s in markets && Halted(markets[s], params)
  }

  lemma NothingMarked(data: map<Key, Value>, markets: Markets, params: Params)
    requires forall s: string | ZeroFree(s) :: MarkKey(s) !in data
    ensures OnlyHaltedMarked(data, data, markets, params)
  {
    hide MarkKey, ZeroFree;
  }

  lemma HaltedKeepMarks(before: map<Key, Value>, cleared: map<Key, Value>, after: map<Key, Value>,
                        infos: seq<MarketInfo>, symbols: seq<string>, markets: Markets, params: Params)
    requires |infos| == |symbols| && MarksLeft(before, cleared, infos, symbols, |symbols|, params)
             && OnlyOrdersChanged(cleared, after)
    requires forall s: string | ZeroFree(s) :: s in symbols <==> MarkKey(s) in before
    requires forall j | 0 <= j < |infos| :: symbols[j] in markets && infos[j] == markets[symbols[j]]
    ensures OnlyHaltedMarked(before, after, markets, params)
  {
    hide MarkKey, ZeroFree, OnlyOrdersChanged, Halted;
    OnlyOthersChanged(cleared, after);
    forall s: string | ZeroFree(s) ensures MarkKey(s) in after <==>
        MarkKey(s) in before && s in markets && Halted(markets[s], params) {
      if MarkKey(s) in before {
        var j :| 0 <= j < |symbols| && symbols[j] == s;
      }
    }
  }

  ghost predicate SameWhereBoth(a: Book, b: Book)
  {
    forall id | id in a && id in b :: a[id] == b[id]
  }

  /** Marks that were not there before are of markets that are. */
  ghost predicate MarksMarkets(before: map<Key, Value>, after: map<Key, Value>, markets: Markets)
  {
    forall s: string | ZeroFree(s) && MarkKey(s) in after && MarkKey(s) !in before :: s in markets
  }

  ghost predicate NoneMarked(before: map<Key, Value>, after: map<Key, Value>)
  {
    forall s: string | ZeroFree(s) && MarkKey(s) in after :: MarkKey(s) in before
  }

  /** What each step of the market keeps: only the deals of a block change an order, only a listing
      adds a market and only a clean-up ends one, marks are set for markets only, no mark of a missing
      market goes away, and a block that finds such a mark does nothing at all. */
  ghost predicate Stepped(v: Snapshot, w: Snapshot, e: Event)
  {
    match e
    case Block(needRemove, deals, forbidden, rules) =>
      && Blocked(v.x, w.x, forbidden, rules, deals)
      && w.markets.Keys <= v.markets.Keys
      && (needRemove ==> deals == [] && MarksStay(v.data, w.data))
      && (!needRemove ==> w.markets.Keys == v.markets.Keys && NoneMarked(v.data, w.data))
      && (!needRemove && !MarksHaveMarkets(v.data, v.markets) ==> deals == [] && w == v)
    case Listing(symbol) => w.x.orders == v.x.orders && w.data == v.data && w.markets.Keys == v.markets.Keys + {symbol}
    case Message =>
      && SameWhereBoth(v.x.orders, w.x.orders) && w.markets == v.markets
      && MarksRemain(v.data, w.data) && MarksMarkets(v.data, w.data, v.markets)
  }

  lemma NothingStepped(v: Snapshot)
    ensures Stepped(v, v, Message)
  {
  }

  lemma EntryStepped(v: Snapshot, w: Snapshot, o: Order)
    requires o.terms.id !in v.x.orders && w.x.orders == v.x.orders[o.terms.id := o] && w.markets == v.markets
    requires MarksRemain(v.data, w.data) && MarksMarkets(v.data, w.data, v.markets)
    ensures Stepped(v, w, Message)
  {
  }

  lemma RemovalStepped(v: Snapshot, w: Snapshot, id: OrderID)
    requires w.x.orders == v.x.orders - {id} && MarksStay(v.data, w.data) && w.markets == v.markets
    ensures Stepped(v, w, Message)
  {
  }

  lemma BlockStepped(v: Snapshot, w: Snapshot, params: Params, deals: seq<Deal>, tieBreak: OrderID -> int,
                     forbidden: Forbidden)
    requires Blocked(v.x, w.x, forbidden, params.rules, deals)
    requires if MarksHaveMarkets(v.data, v.markets) then Auctioned(v.x, v.data, v.markets, w.markets, deals, params,
                                                                   tieBreak, forbidden)
             else deals == [] && w == v
    requires MarksHaveMarkets(v.data, v.markets) ==> OnlyHaltedMarked(v.data, w.data, v.markets, params)
    ensures Stepped(v, w, Block(false, deals, forbidden, params.rules))
  {
    hide Blocked, TurnOf, MarksHaveMarkets;
  }

  ghost predicate MarketRun(vs: seq<Snapshot>, es: seq<Event>)
  {
    && |vs| == |es| + 1
    && (forall i | 0 <= i < |es| :: StepAt(vs, es, i))
    && (forall i | 0 <= i < |vs| :: Solvent(vs[i].x))
  }

  ghost predicate StepAt(vs: seq<Snapshot>, es: seq<Event>, i: nat)
    requires i < |es| && |vs| == |es| + 1
  {
    Stepped(vs[i], vs[i + 1], es[i])
  }

  lemma FrontRun(vs: seq<Snapshot>, es: seq<Event>)
    requires MarketRun(vs, es) && es != []
    ensures MarketRun(vs[..|es|], es[..|es| - 1]) && Stepped(vs[|es| - 1], vs[|es|], es[|es| - 1])
  {
    hide Stepped, Solvent;
    assert StepAt(vs, es, |es| - 1);
    var us, ds := vs[..|es|], es[..|es| - 1];
    forall i | 0 <= i < |ds| ensures StepAt(us, ds, i) { assert StepAt(vs, es, i); }
  }

  // ------------------------------------------------------------ a mark without its market

  /** The market was delisted while orders placed since its last match had left it marked. */
  ghost predicate Stranded(v: Snapshot, s: string)
  {
    ZeroFree(s) && MarkKey(s) in v.data && s !in v.markets
  }

  /** On the first block of a day a mark is stranded exactly by ending its market. */
  lemma EndingStrands(v: Snapshot, w: Snapshot, e: Event, s: string)
    requires Stepped(v, w, e) && e.Block? && e.needRemove && ZeroFree(s) && MarkKey(s) in v.data
    ensures Stranded(w, s) <==> s !in w.markets
  {
    hide Blocked, MarkKey;
  }

  /** No other step strands a mark. */
  lemma NothingElseStrands(v: Snapshot, w: Snapshot, e: Event, s: string)
    requires Stepped(v, w, e) && !Stranded(v, s) && !(e.Block? && e.needRemove)
    ensures !Stranded(w, s)
  {
    hide Blocked, MarkKey, ZeroFree, MarksHaveMarkets;
  }

  /** A clean-up ends a market that is marked. */
  ghost predicate Strands(v: Snapshot, w: Snapshot, e: Event, s: string)
  {
    e.Block? && e.needRemove && ZeroFree(s) && MarkKey(s) in v.data && s in v.markets && s !in w.markets
  }

  ghost predicate StrandsAt(vs: seq<Snapshot>, es: seq<Event>, i: nat, s: string)
    requires i < |es| && |vs| == |es| + 1
  {
    Strands(vs[i], vs[i + 1], es[i], s)
  }

  lemma StrandedByEnding(v: Snapshot, w: Snapshot, e: Event, s: string)
    requires Stepped(v, w, e) && !Stranded(v, s)
    ensures Stranded(w, s) <==> Strands(v, w, e, s)
  {
    hide Blocked, MarkKey, ZeroFree;
    if e.Block? && e.needRemove {
    } else {
      NothingElseStrands(v, w, e, s);
    }
  }

  /** If a run ends with a stranded mark that it did not begin with, then some clean-up of the run
      ended that market while it was marked. */
  lemma {:induction false} StrandedInARun(vs: seq<Snapshot>, es: seq<Event>, s: string, n: nat) returns (i: nat)
    requires MarketRun(vs, es) && n < |vs| && !Stranded(vs[0], s) && Stranded(vs[n], s)
    ensures i < n && StrandsAt(vs, es, i, s)
  {
    hide Stepped, Stranded, Strands, Solvent;
    if n == 0 { assert false; }
    assert StepAt(vs, es, n - 1);
    if Stranded(vs[n - 1], s) {
      i := StrandedInARun(vs, es, s, n - 1);
    } else {
      StrandedByEnding(vs[n - 1], vs[n], es[n - 1], s);
      i := n - 1;
    }
  }

  /** As long as no clean-up ends a marked market, every mark has its market, and no block is stopped. */
  lemma {:induction false} MarksKeepTheirMarkets(vs: seq<Snapshot>, es: seq<Event>, n: nat)
    requires MarketRun(vs, es) && n < |vs| && MarksHaveMarkets(vs[0].data, vs[0].markets)
    requires forall i, s | 0 <= i < n :: !StrandsAt(vs, es, i, s)
    ensures MarksHaveMarkets(vs[n].data, vs[n].markets)
  {
    hide Stepped, Strands, Solvent, MarkKey, ZeroFree;
    forall s | ZeroFree(s) && MarkKey(s) in vs[n].data ensures s in vs[n].markets {
      if s !in vs[n].markets { var i := StrandedInARun(vs, es, s, n); }
    }
  }

  lemma StrandedStep(v: Snapshot, w: Snapshot, e: Event, s: string)
    requires Stepped(v, w, e) && Stranded(v, s) && e != Listing(s)
    ensures Stranded(w, s)
    ensures e.Block? ==> e.deals == []
    ensures e.Block? && !e.needRemove ==> w == v
  {
    hide Blocked, MarkKey, ZeroFree;
    assert !MarksHaveMarkets(v.data, v.markets);
  }

  /** Whatever happens otherwise, until that market is listed again no block deals in any market, and
      every block that is not the first of its day leaves everything as it was. */
  lemma {:induction false} NothingDealsWhileStranded(vs: seq<Snapshot>, es: seq<Event>, s: string, i: nat)
    requires MarketRun(vs, es) && Stranded(vs[0], s) && (forall j | 0 <= j < |es| :: es[j] != Listing(s)) && i < |vs|
    ensures Stranded(vs[i], s)
    ensures i < |es| && es[i].Block? ==> es[i].deals == []
    ensures i < |es| && es[i].Block? && !es[i].needRemove ==> vs[i + 1] == vs[i]
  {
    hide Stepped, Stranded, Solvent;
    if i > 0 {
      NothingDealsWhileStranded(vs, es, s, i - 1);
      assert StepAt(vs, es, i - 1);
      StrandedStep(vs[i - 1], vs[i], es[i - 1], s);
    }
    if i < |es| {
      assert StepAt(vs, es, i);
      StrandedStep(vs[i], vs[i + 1], es[i], s);
    }
  }

  // ------------------------------------------------------------ the life of an order

  /** In how many deals of a run an order takes part. */
  function DealsInRun(es: seq<Event>, id: OrderID): nat
  {
    if es == [] then 0
    else DealsInRun(es[..|es| - 1], id) + (if es[|es| - 1].Block? then DealsOf(es[|es| - 1].deals, id) else 0)
  }

  lemma AccountedTwice(a: Order, b: Order, c: Order, m: nat, n: nat)
    requires Accounted(a, b, m) && Accounted(b, c, n) && a.terms == b.terms
    ensures Accounted(a, c, m + n)
  {
    var p, s, t := a.terms.price, b.dealStock - a.dealStock, c.dealStock - b.dealStock;
    assert p * (s + t) == p * s + p * t;
  }

  lemma StepAccounts(v: Snapshot, w: Snapshot, e: Event, id: OrderID)
    requires Stepped(v, w, e) && Solvent(v.x) && id in v.x.orders && id in w.x.orders
    ensures w.x.orders[id].terms == v.x.orders[id].terms
    ensures Accounted(v.x.orders[id], w.x.orders[id], if e.Block? then DealsOf(e.deals, id) else 0)
  {
    hide Blocked, Solvent, DealsOf;
    if e.Block? { OrdersOverABlock(v.x, w.x, e.forbidden, e.rules, e.deals, id); }
  }

  /** The accounts of an order over any run in which it stays on the book. */
  lemma {:induction false} AccountsOverARun(vs: seq<Snapshot>, es: seq<Event>, id: OrderID)
    requires MarketRun(vs, es) && forall i | 0 <= i < |vs| :: id in vs[i].x.orders
    ensures var a, b := vs[0].x.orders[id], vs[|es|].x.orders[id];
            b.terms == a.terms && Accounted(a, b, DealsInRun(es, id))
  {
    hide Stepped, Solvent, Accounted;
    if es == [] {
      NoDealsAccounted(vs[0].x.orders[id]);
    } else {
      var n := |es| - 1;
      FrontRun(vs, es);
      AccountsOverARun(vs[..|es|], es[..n], id);
      StepAccounts(vs[n], vs[n + 1], es[n], id);
      AccountedTwice(vs[0].x.orders[id], vs[n].x.orders[id], vs[n + 1].x.orders[id], DealsInRun(es[..n], id),
                     if es[n].Block? then DealsOf(es[n].deals, id) else 0);
    }
  }

  lemma NoDealsAccounted(o: Order)
    ensures Accounted(o, o, 0)
  {
  }

  /** The life of an order, from its entry over any number of blocks: what was dealt and what is left
      add up to its quantity; a buyer's frozen and paid money add up to what was frozen at entry; a
      seller's frozen stock is what is left, and it has received less than one coin per deal short of
      its own limit. */
  lemma LifeOfAnOrder(vs: seq<Snapshot>, es: seq<Event>, id: OrderID)
    requires MarketRun(vs, es) && forall i | 0 <= i < |vs| :: id in vs[i].x.orders
    requires vs[0].x.orders[id].dealStock == 0 && vs[0].x.orders[id].dealMoney == 0
    ensures var entry, o, n := vs[0].x.orders[id], vs[|es|].x.orders[id], DealsInRun(es, id);
            && o.leftStock + o.dealStock == o.terms.quantity
            && (o.terms.side == Bid ==>
                o.freeze + o.dealMoney == entry.freeze && o.freeze * ONE >= o.terms.price * o.leftStock)
            && (o.terms.side == Ask ==>
                o.freeze == o.leftStock && (o.dealMoney + n) * ONE >= o.terms.price * o.dealStock + n)
  {
    hide Stepped;
    AccountsOverARun(vs, es, id);
    assert Solvent(vs[|es|].x);
    OrderIsSound(vs[|es|].x, id);
  }
}
