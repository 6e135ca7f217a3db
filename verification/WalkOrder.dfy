/** The end of a block walks a map of changed orders, and closes those that are done, in an order
    that the language does not fix. When that matters, and when it does not. */
module WalkOrder {
  import opened Auction
  import opened BlockRuns
  import opened Blocks
  import opened Closing
  import opened Decimals
  import opened Ledgers
  import opened OrderEntry
  import opened Orders
  import opened OrderStore
  import opened Overlays
  import opened Settlement
  import opened Slices
  import opened Sums

  // ------------------------------------------------------------ when it does not matter

  /** Listed orders of a book hold no more than the whole book. */
  lemma {:induction false} ListedReserves(os: seq<Order>, orders: map<OrderID, Order>, k: Acct)
    requires AllSound(orders) && Distinct(Ids(os))
    requires forall i | 0 <= i < |os| :: os[i].terms.id in orders && os[i] == orders[os[i].terms.id]
    ensures SeqSum(os, ReserveAt(k)) <= Reserved(orders, k)
  {
    hide Sound;
    if os == [] {
      forall id | id in orders ensures Reserve(orders[id], k) >= 0 { ReserveNonNegative(orders[id], k); }
      SumNonNegative(orders, ReserveFor(k));
    } else {
      var front, o := os[..|os| - 1], os[|os| - 1];
      assert Ids(front) == Ids(os)[..|os| - 1];
      forall i | 0 <= i < |front| ensures front[i].terms.id in orders - {o.terms.id} {
        assert Ids(os)[i] != Ids(os)[|os| - 1];
      }
      ListedReserves(front, orders - {o.terms.id}, k);
      SumRemove(orders, ReserveFor(k), o.terms.id);
    }
  }

  lemma ListedAreBacked(y: Exchange, os: seq<Order>, wanted: set<OrderID>)
    requires Solvent(y) && Lists(os, y.orders, wanted)
    ensures BacksAll(y.ledger, os) && SoundOnes(os)
  {
    hide Sound;
    forall k ensures Bal(y.ledger.frozen, k) >= SeqSum(os, ReserveAt(k)) {
      assert Surplus(y, k) >= 0;
      ListedReserves(os, y.orders, k);
    }
  }

  lemma OnceOrNever<T>(s: seq<T>, x: T)
    requires Distinct(s)
    ensures multiset(s)[x] == if x in s then 1 else 0
  {
    if x in s {
      var i :| 0 <= i < |s| && s[i] == x;
      OccursOnce(s, i);
    } else {
      assert x !in multiset(s);
    }
  }

  /** Two listings of the same orders differ in their order only. */
  lemma SameListing(os: seq<Order>, ps: seq<Order>, book: Book, wanted: set<OrderID>)
    requires Lists(os, book, wanted) && Lists(ps, book, wanted)
    ensures multiset(os) == multiset(ps)
  {
    ListedOnce(os, book, wanted);
    ListedOnce(ps, book, wanted);
    forall o ensures multiset(os)[o] == multiset(ps)[o] {
      OnceOrNever(os, o);
      OnceOrNever(ps, o);
    }
  }

  lemma ListedOnce(os: seq<Order>, book: Book, wanted: set<OrderID>)
    requires Lists(os, book, wanted)
    ensures Distinct(os) && forall o :: o in os <==> o.terms.id in wanted && o.terms.id in book && book[o.terms.id] == o
  {
    forall i, j | 0 <= i < j < |os| ensures os[i] != os[j] {
      assert Ids(os)[i] != Ids(os)[j];
    }
    forall o ensures o in os <==> o.terms.id in wanted && o.terms.id in book && book[o.terms.id] == o {
      if o in os {
        var i :| 0 <= i < |os| && os[i] == o;
        assert Ids(os)[i] in Ids(os);
      }
      if o.terms.id in wanted && o.terms.id in book && book[o.terms.id] == o {
        assert o.terms.id in Ids(os);
        var i :| 0 <= i < |os| && Ids(os)[i] == o.terms.id;
        assert os[i] == o;
      }
    }
  }

  ghost predicate SameBalances(l: Ledger, m: Ledger)
  {
    l.known == m.known && forall k :: Bal(l.coins, k) == Bal(m.coins, k) && Bal(l.frozen, k) == Bal(m.frozen, k)
  }

  ghost predicate AllPayable(orders: map<OrderID, Order>, gone: set<OrderID>, forbidden: Forbidden, rules: FeeRules)
    requires AllSound(orders)
  {
    forall id | id in orders && id in gone :: Payable(orders[id], forbidden, rules)
  }

  /** Two walks that close the same orders, each in its own order, end with the same book and the
      same balances when every commission charged on the way is payable. */
  lemma WalksAgree(y: Exchange, z: Exchange, w: Exchange, forbidden: Forbidden, rules: FeeRules)
    requires Solvent(y) && Closings(y, z, forbidden, rules) && Closings(y, w, forbidden, rules)
    requires z.orders.Keys == w.orders.Keys && AllPayable(y.orders, y.orders.Keys - z.orders.Keys, forbidden, rules)
    ensures z.orders == w.orders && SameBalances(z.ledger, w.ledger)
  {
    hide CloseAll, BacksAll, Payable, Sound, Lists;
    var os :| ClosesTo(y, z, forbidden, rules, os);
    var ps :| ClosesTo(y, w, forbidden, rules, ps);
    var gone := y.orders.Keys - z.orders.Keys;
    ListedAreBacked(y, os, gone);
    SameListing(os, ps, y.orders, gone);
    ListedArePayable(os, y.orders, gone, forbidden, rules);
    ClosingOrderIsIrrelevant(y.ledger, forbidden, rules, os, ps);
    ListedAreBacked(y, ps, gone);
    CloseAllMoves(y.ledger, forbidden, rules, os);
    CloseAllMoves(y.ledger, forbidden, rules, ps);
  }

  lemma ListedArePayable(os: seq<Order>, orders: map<OrderID, Order>, gone: set<OrderID>, forbidden: Forbidden,
                         rules: FeeRules)
    requires AllSound(orders) && Lists(os, orders, gone) && AllPayable(orders, gone, forbidden, rules)
             && ValidRules(rules) && SoundOnes(os)
    ensures Closable(os, forbidden, rules)
  {
    hide Sound, Payable;
    forall i | 0 <= i < |os| ensures Payable(os[i], forbidden, rules) {
      assert Ids(os)[i] in Ids(os);
    }
  }

  /** A walk over the changed orders of one market may end with the ledger `m`: the orders that are
      done are closed, each once, and the book is settled. This is what `UpdateOrders` promises. */
  ghost predicate WalkEnds(book: Book, updates: Book, rest: Book, l: Ledger, m: Ledger, forbidden: Forbidden,
                           rules: FeeRules)
  {
    && Writable(updates, rest, book)
    && Closings(Exchange(book + rest, l), Exchange(Settled(book, updates) + (rest - updates.Keys), m), forbidden, rules)
  }

  /** Two walks over the changed orders of one market that start alike end with the same balances
      when every commission charged on the way is payable. */
  lemma WriteBacksAgree(book: Book, updates: Book, rest: Book, l: Ledger, m: Ledger, n: Ledger, forbidden: Forbidden,
                        rules: FeeRules)
    requires Solvent(Exchange(book + rest, l))
    requires WalkEnds(book, updates, rest, l, m, forbidden, rules)
             && WalkEnds(book, updates, rest, l, n, forbidden, rules)
    requires forall id | id in updates && Gone(updates[id]) ::
             Sound(updates[id]) && Payable(updates[id], forbidden, rules)
    ensures SameBalances(m, n)
  {
    hide Closings, Payable, Sound, Gone, Solvent;
    var y, after := Exchange(book + rest, l), Settled(book, updates) + (rest - updates.Keys);
    assert AllSound(y.orders) by { SolventIsSound(y); }
    forall id | id in y.orders && id in y.orders.Keys - after.Keys ensures Payable(y.orders[id], forbidden, rules) {
      assert id in updates && Gone(updates[id]) && y.orders[id] == updates[id];
    }
    WalksAgree(y, Exchange(after, m), Exchange(after, n), forbidden, rules);
  }

  lemma SolventIsSound(y: Exchange)
    requires Solvent(y)
    ensures AllSound(y.orders)
  {
  }

  /** Two outcomes of one block: if the same deals were made and the commissions of the orders that
      are done are payable after them, the order of the walk shows nowhere. */
  lemma BlocksAgree(x: Exchange, z: Exchange, w: Exchange, forbidden: Forbidden, rules: FeeRules, deals: seq<Deal>)
    requires Solvent(x) && Blocked(x, z, forbidden, rules, deals) && Blocked(x, w, forbidden, rules, deals)
             && z.orders.Keys == w.orders.Keys
    requires var y := Replay(x, forbidden, deals);
             AllSound(y.orders) && AllPayable(y.orders, y.orders.Keys - z.orders.Keys, forbidden, rules)
    ensures z.orders == w.orders && SameBalances(z.ledger, w.ledger)
  {
    hide Replay, ValidRun, Closings, Payable, AllPayable, AllSound;
    RunKeepsSolvent(x, forbidden, deals);
    WalksAgree(Replay(x, forbidden, deals), z, w, forbidden, rules);
  }

  /** An order that dealt, or whose frozen commission is not below the fee for orders that did not,
      is payable whoever pays it. */
  lemma UsuallyPayable(o: Order, forbidden: Forbidden, rules: FeeRules)
    requires Sound(o) && ValidRules(rules) && (o.dealStock != 0 || rules.feeForZeroDeal <= o.terms.frozenCommission)
    ensures Payable(o, forbidden, rules)
  {
    DealtOrCheapIsCovered(o, rules);
    CoveredIsPayable(o, forbidden, rules);
  }

  /** So the order of the walk shows nowhere in a block in which every order that leaves had dealt or
      had frozen no less than the fee for orders that did not. */
  lemma BlocksUsuallyAgree(x: Exchange, z: Exchange, w: Exchange, forbidden: Forbidden, rules: FeeRules,
                           deals: seq<Deal>)
    requires Solvent(x) && Blocked(x, z, forbidden, rules, deals) && Blocked(x, w, forbidden, rules, deals)
             && z.orders.Keys == w.orders.Keys
    requires var y := Replay(x, forbidden, deals);
             forall id | id in y.orders && id !in z.orders ::
               y.orders[id].dealStock != 0 || rules.feeForZeroDeal <= y.orders[id].terms.frozenCommission
    ensures z.orders == w.orders && SameBalances(z.ledger, w.ledger)
  {
    hide Replay, ValidRun, Payable, Sound, Lists, CloseAll, SoundOnes, Solvent;
    var y := Replay(x, forbidden, deals);
    RunKeepsSolvent(x, forbidden, deals);
    SolventIsSound(y);
    forall id | id in y.orders && id !in z.orders ensures Payable(y.orders[id], forbidden, rules) {
      UsuallyPayable(y.orders[id], forbidden, rules);
    }
    BlocksAgree(x, z, w, forbidden, rules, deals);
  }

  // ------------------------------------------------------------ when it matters

  predicate Holds(y: Exchange, o: Order) { o.terms.id in y.orders && y.orders[o.terms.id] == o }

  /** Closing one order and then the other ends with the same balances as the other way round. */
  ghost predicate Commute(l: Ledger, o: Order, q: Order, forbidden: Forbidden, rules: FeeRules)
    requires Sound(o) && Sound(q) && ValidRules(rules)
  {
    SameBalances(Close(Close(l, forbidden, rules, o), forbidden, rules, q),
                 Close(Close(l, forbidden, rules, q), forbidden, rules, o))
  }

  lemma PayablesCommute(y: Exchange, o: Order, q: Order, forbidden: Forbidden, rules: FeeRules)
    requires Solvent(y) && Holds(y, o) && Holds(y, q) && o.terms.id != q.terms.id && ValidRules(rules)
    requires Payable(o, forbidden, rules) && Payable(q, forbidden, rules)
    ensures Commute(y.ledger, o, q, forbidden, rules)
  {
    hide Sound, Payable, Close, BacksAll;
    var os, ps := [o, q], [q, o];
    assert Ids(os) == [o.terms.id, q.terms.id] && Ids(ps) == [q.terms.id, o.terms.id];
    ListedAreBacked(y, os, {o.terms.id, q.terms.id});
    ListedAreBacked(y, ps, {o.terms.id, q.terms.id});
    ClosingOrderIsIrrelevant(y.ledger, forbidden, rules, os, ps);
    CloseAllMoves(y.ledger, forbidden, rules, os);
    CloseAllMoves(y.ledger, forbidden, rules, ps);
    TwoClosings(y.ledger, o, q, forbidden, rules);
    TwoClosings(y.ledger, q, o, forbidden, rules);
  }

  lemma TwoClosings(l: Ledger, o: Order, q: Order, forbidden: Forbidden, rules: FeeRules)
    requires Sound(o) && Sound(q) && ValidRules(rules)
    ensures SoundOnes([o, q]) && CloseAll(l, forbidden, rules, [o, q]) ==
            Close(Close(l, forbidden, rules, o), forbidden, rules, q)
  {
    hide Sound, Close;
    var one, two := [o], [o, q];
    assert two[..1] == one && two[1] == q && one[..0] == [] && one[0] == o;
    assert CloseAll(l, forbidden, rules, []) == l;
    assert CloseAll(l, forbidden, rules, one) == Close(l, forbidden, rules, o);
  }

  /** An identifier that the code gives to an order. */
  predicate Identified(o: Order)
  {
    o.terms.identify < 256 && o.terms.id == AssemblyOrderID(o.terms.sender, o.terms.sequence, o.terms.identify)
  }

  /** Two orders that one walk may close: of one market, done, and with identifiers of their own. */
  ghost predicate Walked(y: Exchange, o: Order, q: Order)
  {
    && Solvent(y) && Holds(y, o) && Holds(y, q) && o.terms.id != q.terms.id && o.terms.symbol == q.terms.symbol
    && Gone(o) && Gone(q) && forall id | id in y.orders :: Identified(y.orders[id])
  }

  /** An order of the same sender in the same market, of which one half was dealt in this block. Its
      commission is paid out of what was frozen for it, and the rest of that is released. */
  function Partner(o: Order): Order
    requires Sound(o)
  {
    var sequence, money := o.terms.sequence + 1, Payment(o.terms.price, 1);
    var id := AssemblyOrderID(o.terms.sender, sequence, o.terms.identify);
    Order(o.terms.(id := id, sequence := sequence, quantity := 2), 1, if o.terms.side == Bid then o.freeze else 1, 1,
          money)
  }

  lemma NextIdentifier(a: Addr, s: nat, i: nat)
    requires i < 256
    ensures AssemblyOrderID(a, s + 1, i) != AssemblyOrderID(a, s, i)
  {
    var m, n := SerialNumber(s, i), SerialNumber(s + 1, i);
    if AssemblyOrderID(a, s + 1, i) == AssemblyOrderID(a, s, i) {
      var head := a + "-";
      assert (head + Numeral(m))[|head|..] == Numeral(m) && (head + Numeral(n))[|head|..] == Numeral(n);
      NumeralInjective(m, n);
    }
  }

  lemma PartnerIsSound(o: Order)
    requires Sound(o) && o.dealStock == 0 && Gone(o) && Identified(o)
    ensures var q := Partner(o);
            Sound(q) && Gone(q) && Identified(q) && q.terms.id != o.terms.id && q.terms.timeInForce == IOC
                && q.dealStock == 1
  {
    NextIdentifier(o.terms.sender, o.terms.sequence, o.terms.identify);
    MulMonotone(1, o.leftStock, o.terms.price);
    assert Payment(o.terms.price, 1) >= 0;
  }

  /** Half of the stock, half of the commission, rounded down. */
  lemma HalfTheCommission(q: Order, rules: FeeRules)
    requires Sound(q) && q.terms.quantity == 2 && q.dealStock == 1
    ensures CommissionOf(q, rules) == q.terms.frozenCommission / 2
  {
    var c := q.terms.frozenCommission;
    assert NewDec(1) * NewDec(c) == (c * ONE) * ONE;
    ChopExact(c * ONE);
    HalfOf(c);
  }

  lemma HalfOf(c: nat)
    requires c <= MAX_ORDER_AMOUNT
    ensures var fee := Quo(c * ONE, NewDec(2)); fee <= NewDec(MAX_ORDER_AMOUNT) && TruncateInt(fee) == c / 2
  {
    var half := c * HALF;
    assert (c * ONE) * (ONE * ONE) == (half * ONE) * NewDec(2);
    DivCancel(half * ONE, NewDec(2));
    ChopExact(half);
    assert half == (c / 2) * ONE + (c % 2) * HALF;
  }

  /** Closing the partner leaves at least one coin more in the purse. */
  lemma PartnerReleases(o: Order, forbidden: Forbidden, rules: FeeRules)
    requires Sound(o) && o.dealStock == 0 && Gone(o) && Identified(o) && ValidRules(rules)
             && o.terms.frozenCommission > 0
    ensures var q := Partner(o);
            Sound(q) && Payable(q, forbidden, rules) && CloseDelta(forbidden, rules, q, Acct(o.terms.sender, CET)) >= 1
  {
    hide FeeDelta, CommissionOf, FeatureFeeOf;
    var q := Partner(o);
    PartnerIsSound(o);
    HalfTheCommission(q, rules);
    TollWithinFee(forbidden, rules, CommissionOf(q, rules), q.terms.sender);
  }

  /** Both orders, with exactly what they hold frozen, and `purse` CET to spend. */
  function Bare(o: Order, q: Order, purse: nat): Exchange
    requires Sound(o) && Sound(q)
  {
    Exchange(map[o.terms.id := o, q.terms.id := q],
             Ledger(map[Acct(o.terms.sender, CET) := purse], Holdings(o, q), {o.terms.sender, q.terms.sender}))
  }

  function Holdings(o: Order, q: Order): map<Acct, nat>
    requires Sound(o) && Sound(q)
  {
    map k: Acct | k in Accounts(o) + Accounts(q) :: Reserve(o, k) + Reserve(q, k)
  }

  function Accounts(o: Order): set<Acct> { {Acct(o.terms.sender, CET), Acct(o.terms.sender, UsedDenom(o.terms))} }

  lemma BareIsSolvent(o: Order, q: Order, purse: nat)
    requires Sound(o) && Sound(q) && o.terms.id != q.terms.id
    ensures Solvent(Bare(o, q, purse))
  {
    hide Sound;
    var y := Bare(o, q, purse);
    var one := map[o.terms.id := o];
    assert one == map[][o.terms.id := o] && y.orders == one[q.terms.id := q];
    forall k ensures Surplus(y, k) == 0 {
      var w := ReserveFor(k);
      SumEmpty<OrderID, Order>(map[], w);
      SumUpdate(map[], w, o.terms.id, o);
      SumUpdate(one, w, q.terms.id, q);
      assert Bal(y.ledger.frozen, k) == Reserve(o, k) + Reserve(q, k);
    }
  }

  /** A commission that cannot be paid leaves more behind than the toll would. */
  lemma ShortPayment(l: Ledger, o: Order, forbidden: Forbidden, rules: FeeRules)
    requires Sound(o) && ValidRules(rules) && Backs(l, o)
    requires !PaysFrom(o, forbidden, rules, Bal(l.coins, Acct(o.terms.sender, CET)))
    ensures var purse := Acct(o.terms.sender, CET);
            Bal(Close(l, forbidden, rules, o).coins, purse) > Bal(l.coins, purse)
                + CloseDelta(forbidden, rules, o, purse)
  {
    hide Close, ChargeFee, FeeDelta, CloseCommission;
    FeatureMoves(l, forbidden, rules, o, Acct(o.terms.sender, CET));
  }

  /** Where one order pays its commission after another of the same sender is closed, but not before,
      the order of closing shows in the sender's purse. */
  lemma LaterPays(y: Exchange, o: Order, q: Order, forbidden: Forbidden, rules: FeeRules)
    requires Solvent(y) && Holds(y, o) && Holds(y, q) && o.terms.id != q.terms.id && q.terms.sender == o.terms.sender
    requires ValidRules(rules) && Sound(o) && Sound(q) && Payable(q, forbidden, rules)
    requires var purse := Acct(o.terms.sender, CET);
             var had := Bal(y.ledger.coins, purse);
             && !PaysFrom(o, forbidden, rules, had)
             && PaysFrom(o, forbidden, rules, had + CloseDelta(forbidden, rules, q, purse))
    ensures !Commute(y.ledger, o, q, forbidden, rules)
  {
    hide Sound, Close, FeeDelta, Reserve, CommissionOf, CloseDelta;
    var l, purse := y.ledger, Acct(o.terms.sender, CET);
    var lo, lq := Close(l, forbidden, rules, o), Close(l, forbidden, rules, q);
    SolventBacks(y, o.terms.id);
    CloseKeepsSolvent(y, forbidden, rules, o.terms.id);
    SolventBacks(Exchange(y.orders - {o.terms.id}, lo), q.terms.id);
    CloseMoves(lo, forbidden, rules, q, purse);
    SolventBacks(y, q.terms.id);
    CloseKeepsSolvent(y, forbidden, rules, q.terms.id);
    SolventBacks(Exchange(y.orders - {q.terms.id}, lq), o.terms.id);
    CloseMoves(l, forbidden, rules, q, purse);
    CloseMoves(lq, forbidden, rules, o, purse);
    ShortPayment(l, o, forbidden, rules);
  }

  /** For every order whose commission is not payable there is a book of its market with one order
      more, like it but for its sequence and for having dealt in part, in which the order of the walk
      shows in the sender's purse. */
  lemma UnpayableOrderShows(o: Order, forbidden: Forbidden, rules: FeeRules) returns (y: Exchange, q: Order)
    requires Sound(o) && Gone(o) && Identified(o) && ValidRules(rules) && !Payable(o, forbidden, rules)
    ensures Walked(y, o, q) && Sound(q) && Payable(q, forbidden, rules) && q == Partner(o)
    ensures !Commute(y.ledger, o, q, forbidden, rules)
  {
    hide Sound, FeeDelta, Reserve, CommissionOf, CloseDelta, Commute, Identified, Gone, Partner;
    UnpayableIsUndealt(o, forbidden, rules);
    q := Partner(o);
    PartnerIsSound(o);
    PartnerReleases(o, forbidden, rules);
    PartnerIsAlike(o);
    var purse := Toll(forbidden, rules, CommissionOf(o, rules), o.terms.sender) - Released(o) - 1;
    y := Bare(o, q, purse);
    BareIsSolvent(o, q, purse);
    LaterPays(y, o, q, forbidden, rules);
  }

  lemma UnpayableIsUndealt(o: Order, forbidden: Forbidden, rules: FeeRules)
    requires Sound(o) && ValidRules(rules) && !Payable(o, forbidden, rules)
    ensures o.dealStock == 0 && o.terms.frozenCommission > 0
  {
    if o.dealStock != 0 { UsuallyPayable(o, forbidden, rules); }
  }

  lemma PartnerIsAlike(o: Order)
    requires Sound(o)
    ensures Partner(o).terms.sender == o.terms.sender && Partner(o).terms.symbol == o.terms.symbol
  {
  }

  /** Exactly the payable orders can be closed before or after any payable order of the same market,
      in any solvent book, alike. */
  lemma OrderIsIrrelevantIffPayable(o: Order, forbidden: Forbidden, rules: FeeRules)
    requires Sound(o) && Gone(o) && Identified(o) && ValidRules(rules)
    ensures Payable(o, forbidden, rules) <==>
              forall y: Exchange, q: Order | Walked(y, o, q) && Payable(q, forbidden, rules) ::
                  Commute(y.ledger, o, q, forbidden, rules)
  {
    hide Sound, Payable, Commute, Identified, Gone, Partner;
    if Payable(o, forbidden, rules) {
      forall y: Exchange, q: Order | Walked(y, o, q) && Payable(q, forbidden, rules)
        ensures Commute(y.ledger, o, q, forbidden, rules) {
        PayablesCommute(y, o, q, forbidden, rules);
      }
    } else {
      var y, q := UnpayableOrderShows(o, forbidden, rules);
    }
  }
}
