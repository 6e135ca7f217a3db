/** Matching works on copies of some stored orders while the ledger changes for good. The
    exchange that counts is the book with those copies laid over it. */
module Overlays {
  import opened Ledgers
  import opened Orders
  import opened Settlement
  import opened Sums

  /** No account's frozen coins that orders do not account for have changed, no coin was made or
      lost, and no account record went away. */
  ghost predicate SameSurplus(x: Exchange, y: Exchange)
  {
    && x.ledger.known <= y.ledger.known && SameSupply(x.ledger, y.ledger)
    && forall k :: Surplus(y, k) == Surplus(x, k)
  }

  predicate IsPart(part: map<OrderID, Order>, orders: map<OrderID, Order>)
  {
    forall id | id in part :: id in orders && orders[id] == part[id]
  }

  /** Some of the orders of a solvent exchange are solvent with its whole ledger. */
  lemma PartIsSolvent(x: Exchange, part: map<OrderID, Order>)
    requires Solvent(x) && IsPart(part, x.orders)
    ensures Solvent(Exchange(part, x.ledger))
  {
    forall k ensures Surplus(Exchange(part, x.ledger), k) >= 0 {
      assert Surplus(x, k) >= 0;
      SumSplit(x.orders, ReserveFor(k), part.Keys);
      assert Restrict(x.orders, part.Keys) == part;
      SumNonNegative(x.orders - part.Keys, ReserveFor(k));
    }
  }

  lemma {:induction false} RunKeepsKnown(x: Exchange, forbidden: Forbidden, ds: seq<Deal>)
    requires Solvent(x) && ValidRun(x, forbidden, ds)
    ensures Replay(x, forbidden, ds).ledger.known == x.ledger.known
  {
    if ds != [] {
      var front := ds[..|ds| - 1];
      RunKeepsKnown(x, forbidden, front);
      RunKeepsSolvent(x, forbidden, front);
      DealMovesExactly(Replay(x, forbidden, front), forbidden, ds[|ds| - 1], Acct("", ""));
    }
  }

  lemma OverlayKeepsSurplus(x: Exchange, part: map<OrderID, Order>, y: Exchange, k: Acct)
    requires IsPart(part, x.orders) && y.orders.Keys == part.Keys
             && Surplus(y, k) == Surplus(Exchange(part, x.ledger), k)
    ensures Surplus(Exchange(x.orders + y.orders, y.ledger), k) == Surplus(x, k)
  {
    SumOverlay(x.orders, y.orders, ReserveFor(k));
    assert Restrict(x.orders, y.orders.Keys) == part;
  }

  lemma OverlayIsSolvent(x: Exchange, part: map<OrderID, Order>, y: Exchange)
    requires Solvent(x) && IsPart(part, x.orders) && Solvent(y) && y.orders.Keys == part.Keys
             && y.ledger.known == x.ledger.known
    requires SameSurplus(Exchange(part, x.ledger), y)
    ensures var z := Exchange(x.orders + y.orders, y.ledger); Solvent(z) && SameSurplus(x, z)
  {
    hide Sound, SameSupply;
    var z := Exchange(x.orders + y.orders, y.ledger);
    forall k ensures Surplus(z, k) == Surplus(x, k) { OverlayKeepsSurplus(x, part, y, k); }
  }

  /** A run of valid deals among some of the orders keeps the whole exchange solvent, once the
      orders it changed are laid over the others. */
  lemma PartRunKeepsSolvent(x: Exchange, part: map<OrderID, Order>, forbidden: Forbidden, ds: seq<Deal>)
    requires Solvent(x) && IsPart(part, x.orders) && ValidRun(Exchange(part, x.ledger), forbidden, ds)
    ensures var y := Replay(Exchange(part, x.ledger), forbidden, ds);
            var z := Exchange(x.orders + y.orders, y.ledger);
            Solvent(z) && SameSurplus(x, z)
  {
    hide Solvent, Surplus, SameSupply;
    var start := Exchange(part, x.ledger);
    PartIsSolvent(x, part);
    RunKeepsSolvent(start, forbidden, ds);
    RunKeepsTerms(start, forbidden, ds);
    RunKeepsKnown(start, forbidden, ds);
    RunKeepsSupply(start, forbidden, ds);
    OverlayIsSolvent(x, part, Replay(start, forbidden, ds));
  }

  /** Moving spendable coins does not touch what is frozen. */
  lemma SpendingKeepsSolvent(x: Exchange, l: Ledger)
    requires Solvent(x) && l.frozen == x.ledger.frozen && l.known == x.ledger.known && SameSupply(x.ledger, l)
    ensures Solvent(Exchange(x.orders, l)) && SameSurplus(x, Exchange(x.orders, l))
  {
    hide Sound;
    forall k ensures Surplus(Exchange(x.orders, l), k) == Surplus(x, k) {}
  }

  lemma SameSurplusTwice(x: Exchange, y: Exchange, z: Exchange)
    requires SameSurplus(x, y) && SameSurplus(y, z)
    ensures SameSurplus(x, z)
  {
  }

  // ------------------------------------------------------------ runs among some of the orders

  /** A run of valid deals among some of the orders is a run of the whole exchange. */
  lemma {:induction false} PartRunIsRun(x: Exchange, part: map<OrderID, Order>, forbidden: Forbidden, ds: seq<Deal>)
    requires IsPart(part, x.orders) && ValidRun(Exchange(part, x.ledger), forbidden, ds)
    ensures var y := Replay(Exchange(part, x.ledger), forbidden, ds);
            ValidRun(x, forbidden, ds) && Replay(x, forbidden, ds) == Exchange(x.orders + y.orders, y.ledger)
  {
    hide Exchanged;
    if ds == [] {
      assert x.orders + part == x.orders;
    } else {
      var front, d := ds[..|ds| - 1], ds[|ds| - 1];
      PartRunIsRun(x, part, forbidden, front);
      PartDeal(x.orders, Replay(Exchange(part, x.ledger), forbidden, front), forbidden, d);
    }
  }

  /** A deal between two of the overlaid orders. */
  lemma PartDeal(orders: map<OrderID, Order>, y: Exchange, forbidden: Forbidden, d: Deal)
    requires ValidDeal(y.orders, d) && Unbarred(y.orders, forbidden, d)
    ensures ValidDeal(orders + y.orders, d) && Unbarred(orders + y.orders, forbidden, d)
    ensures var z := Apply(y, forbidden, d);
            Apply(Exchange(orders + y.orders, y.ledger), forbidden, d) == Exchange(orders + z.orders, z.ledger)
  {
    hide Exchanged, Bought, Sold;
  }

  /** A run and then another are one run. */
  lemma {:induction false} RunTwice(x: Exchange, forbidden: Forbidden, ds: seq<Deal>, es: seq<Deal>)
    requires ValidRun(x, forbidden, ds) && ValidRun(Replay(x, forbidden, ds), forbidden, es)
    ensures ValidRun(x, forbidden, ds + es) && Replay(x, forbidden, ds + es) ==
            Replay(Replay(x, forbidden, ds), forbidden, es)
  {
    hide Apply, ValidDeal, Unbarred;
    if es == [] {
      assert ds + es == ds;
    } else {
      RunTwice(x, forbidden, ds, es[..|es| - 1]);
      assert (ds + es)[..|ds + es| - 1] == ds + es[..|es| - 1];
    }
  }

  /** The deals of a run are between orders of one market, at a positive price. */
  lemma {:induction false} RunDeals(x: Exchange, forbidden: Forbidden, ds: seq<Deal>, i: nat)
    requires AllSound(x.orders) && ValidRun(x, forbidden, ds) && i < |ds|
    ensures ds[i].buyer in x.orders && ds[i].seller in x.orders && ds[i].price > 0
    ensures x.orders[ds[i].buyer].terms.symbol == x.orders[ds[i].seller].terms.symbol
  {
    hide Apply, Unbarred;
    var front := ds[..|ds| - 1];
    if i < |front| {
      assert ds[i] == front[i];
      RunDeals(x, forbidden, front, i);
    } else {
      RunKeepsTerms(x, forbidden, front);
      RunKeepsSound(x, forbidden, front);
    }
  }
}
