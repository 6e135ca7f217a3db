/** Closing an order: its frozen coins come back and its fees are charged, partly as a rebate
    to the sender's referee. */
module Closing {
  import opened Decimals
  import opened Auction
  import opened Ledgers
  import opened Orders
  import opened Settlement
  import opened Sums

  /** The parameters and the block height that fees depend on. */
  datatype FeeRules = FeeRules(feeForZeroDeal: nat, freeBlocks: nat, rebateRatio: nat, referees: map<Addr, Addr>,
                               height: int)

  predicate ValidRules(rules: FeeRules) { rules.rebateRatio <= REBATE_BASE }

  function Rebate(rules: FeeRules, fee: nat): nat { fee * rules.rebateRatio / REBATE_BASE }

  lemma RebateWithinFee(rules: FeeRules, fee: nat)
    requires ValidRules(rules)
    ensures Rebate(rules, fee) <= fee
  {
    MulMonotone(rules.rebateRatio, REBATE_BASE, fee);
    DivMonotone(fee * rules.rebateRatio, fee * REBATE_BASE, REBATE_BASE);
    DivCancel(fee, REBATE_BASE);
  }

  function ChargeFee(l: Ledger, forbidden: Forbidden, rules: FeeRules, fee: nat, user: Addr): Ledger
    requires ValidRules(rules)
  {
    if user in rules.referees then
      var rebate := Rebate(rules, fee);
      RebateWithinFee(rules, fee);
      Send(if rebate > 0 then Send(l, forbidden, user, rules.referees[user], CET, rebate) else l,
           Nobody, user, FEE_COLLECTOR, CET, fee - rebate)
    else Send(l, Nobody, user, FEE_COLLECTOR, CET, fee)
  }

  function CommissionOf(o: Order, rules: FeeRules): nat
    requires Sound(o)
  {
    CommissionIsCovered(o, rules.feeForZeroDeal);
    CalActualOrderCommission(o, rules.feeForZeroDeal)
  }

  function FeatureFeeOf(o: Order, rules: FeeRules): nat
    requires Sound(o)
  {
    FeatureFeeIsCovered(o, rules.height, rules.freeBlocks);
    CalActualOrderFeatureFee(o, rules.height, rules.freeBlocks)
  }

  function Refund(l: Ledger, o: Order): Ledger
    requires Sound(o)
  {
    Unfreeze(l, o.terms.sender, UsedDenom(o.terms), o.freeze)
  }

  function CloseCommission(l: Ledger, forbidden: Forbidden, rules: FeeRules, o: Order): Ledger
    requires Sound(o) && ValidRules(rules)
  {
    if o.terms.frozenCommission == 0 then l
    else ChargeFee(Unfreeze(l, o.terms.sender, CET, o.terms.frozenCommission), forbidden, rules, CommissionOf(o, rules),
                   o.terms.sender)
  }

  function CloseFeatureFee(l: Ledger, forbidden: Forbidden, rules: FeeRules, o: Order): Ledger
    requires Sound(o) && ValidRules(rules)
  {
    if o.terms.timeInForce != GTE || o.terms.frozenFeatureFee == 0 then l
    else ChargeFee(Unfreeze(l, o.terms.sender, CET, o.terms.frozenFeatureFee), forbidden, rules, FeatureFeeOf(o, rules),
                   o.terms.sender)
  }

  /** The ledger after the order's coins were released and its fees charged. */
  function Close(l: Ledger, forbidden: Forbidden, rules: FeeRules, o: Order): Ledger
    requires Sound(o) && ValidRules(rules)
  {
    if o.freeze == 0 && o.terms.frozenFeatureFee == 0 && o.terms.frozenCommission == 0 then l
    else CloseFeatureFee(CloseCommission(Refund(l, o), forbidden, rules, o), forbidden, rules, o)
  }

  // ------------------------------------------------------------ frozen coins

  /** The ledger holds everything the order has reserved. */
  ghost predicate Backs(l: Ledger, o: Order)
  {
    o.terms.sender in l.known && forall k :: Bal(l.frozen, k) >= Reserve(o, k)
  }

  lemma ChargeKeepsFrozen(l: Ledger, forbidden: Forbidden, rules: FeeRules, fee: nat, user: Addr)
    requires ValidRules(rules)
    ensures var m := ChargeFee(l, forbidden, rules, fee, user); m.frozen == l.frozen && m.known == l.known
  {
  }

  lemma RefundReleases(l: Ledger, o: Order, k: Acct)
    requires Sound(o) && Backs(l, o)
    ensures var m := Refund(l, o);
            && m.known == l.known
            && Bal(m.frozen, k) == Bal(l.frozen, k) - (Reserve(o, k) - FeeReserve(o, k))
            && Bal(m.coins, k) == Bal(l.coins, k) + (Reserve(o, k) - FeeReserve(o, k))
  {
    assert Bal(l.frozen, Acct(o.terms.sender, UsedDenom(o.terms))) >= Reserve(o,
          Acct(o.terms.sender, UsedDenom(o.terms)));
    UnfreezeMoves(l, o.terms.sender, UsedDenom(o.terms), o.freeze, k);
  }

  /** What is still frozen once the commission has been released as well. */
  lemma CommissionReleases(l: Ledger, forbidden: Forbidden, rules: FeeRules, o: Order, k: Acct)
    requires Sound(o) && ValidRules(rules) && Backs(l, o)
    ensures var m := CloseCommission(Refund(l, o), forbidden, rules, o);
            && m.known == l.known
            && Bal(m.frozen, k) == Bal(l.frozen, k) - Reserve(o, k) + If(k == Acct(o.terms.sender, CET),
                  o.terms.frozenFeatureFee)
  {
    var fees := Acct(o.terms.sender, CET);
    assert Bal(l.frozen, fees) >= Reserve(o, fees);
    RefundReleases(l, o, fees);
    RefundReleases(l, o, k);
    if o.terms.frozenCommission != 0 {
      var r := Refund(l, o);
      UnfreezeMoves(r, o.terms.sender, CET, o.terms.frozenCommission, k);
      ChargeKeepsFrozen(Unfreeze(r, o.terms.sender, CET, o.terms.frozenCommission), forbidden, rules,
                        CommissionOf(o, rules), o.terms.sender);
    }
  }

  /** Closing releases exactly what the order had reserved, whether or not its fees could be
      collected. */
  lemma CloseReleases(l: Ledger, forbidden: Forbidden, rules: FeeRules, o: Order, k: Acct)
    requires Sound(o) && ValidRules(rules) && Backs(l, o)
    ensures var m := Close(l, forbidden, rules, o);
            m.known == l.known && Bal(m.frozen, k) == Bal(l.frozen, k) - Reserve(o, k)
  {
    var c := CloseCommission(Refund(l, o), forbidden, rules, o);
    var fees := Acct(o.terms.sender, CET);
    assert Bal(l.frozen, fees) >= Reserve(o, fees);
    CommissionReleases(l, forbidden, rules, o, fees);
    CommissionReleases(l, forbidden, rules, o, k);
    if o.terms.timeInForce == GTE && o.terms.frozenFeatureFee != 0 {
      UnfreezeMoves(c, o.terms.sender, CET, o.terms.frozenFeatureFee, k);
      ChargeKeepsFrozen(Unfreeze(c, o.terms.sender, CET, o.terms.frozenFeatureFee), forbidden, rules,
                        FeatureFeeOf(o, rules), o.terms.sender);
    }
  }

  lemma SolventBacks(x: Exchange, id: OrderID)
    requires Solvent(x) && id in x.orders
    ensures Backs(x.ledger, x.orders[id])
  {
    forall k ensures Bal(x.ledger.frozen, k) >= Reserve(x.orders[id], k) { ReserveIsFrozen(x, id, k); }
  }

  /** Taking an order off the book and closing it keeps the exchange solvent and every surplus. */
  lemma CloseKeepsSolvent(x: Exchange, forbidden: Forbidden, rules: FeeRules, id: OrderID)
    requires Solvent(x) && id in x.orders && ValidRules(rules)
    ensures var y := Exchange(x.orders - {id}, Close(x.ledger, forbidden, rules, x.orders[id]));
            && Solvent(y) && y.ledger.known == x.ledger.known && SameSupply(x.ledger, y.ledger)
            && forall k :: Surplus(y, k) == Surplus(x, k)
  {
    var y := Exchange(x.orders - {id}, Close(x.ledger, forbidden, rules, x.orders[id]));
    SolventBacks(x, id);
    CloseKeepsSupply(x.ledger, forbidden, rules, x.orders[id]);
    CloseReleases(x.ledger, forbidden, rules, x.orders[id], Acct("", ""));
    forall k ensures Surplus(y, k) == Surplus(x, k) {
      CloseReleases(x.ledger, forbidden, rules, x.orders[id], k);
      SumRemove(x.orders, ReserveFor(k), id);
    }
  }

  lemma ChargeKeepsSupply(l: Ledger, forbidden: Forbidden, rules: FeeRules, fee: nat, user: Addr)
    requires ValidRules(rules)
    ensures SameSupply(l, ChargeFee(l, forbidden, rules, fee, user))
  {
    if user in rules.referees {
      var rebate := Rebate(rules, fee);
      RebateWithinFee(rules, fee);
      var m := if rebate > 0 then Send(l, forbidden, user, rules.referees[user], CET, rebate) else l;
      SendKeepsSupply(l, forbidden, user, rules.referees[user], CET, rebate);
      SendKeepsSupply(m, Nobody, user, FEE_COLLECTOR, CET, fee - rebate);
    } else {
      SendKeepsSupply(l, Nobody, user, FEE_COLLECTOR, CET, fee);
    }
  }

  /** Closing an order only moves coins. */
  lemma CloseKeepsSupply(l: Ledger, forbidden: Forbidden, rules: FeeRules, o: Order)
    requires Sound(o) && ValidRules(rules)
    ensures SameSupply(l, Close(l, forbidden, rules, o))
  {
    hide Unfreeze, ChargeFee;
    var r := Refund(l, o);
    UnfreezeKeepsSupply(l, o.terms.sender, UsedDenom(o.terms), o.freeze);
    var c := CloseCommission(r, forbidden, rules, o);
    if o.terms.frozenCommission != 0 {
      UnfreezeKeepsSupply(r, o.terms.sender, CET, o.terms.frozenCommission);
      ChargeKeepsSupply(Unfreeze(r, o.terms.sender, CET, o.terms.frozenCommission), forbidden, rules,
                        CommissionOf(o, rules), o.terms.sender);
    }
    if o.terms.timeInForce == GTE && o.terms.frozenFeatureFee != 0 {
      UnfreezeKeepsSupply(c, o.terms.sender, CET, o.terms.frozenFeatureFee);
      ChargeKeepsSupply(Unfreeze(c, o.terms.sender, CET, o.terms.frozenFeatureFee), forbidden, rules,
                        FeatureFeeOf(o, rules), o.terms.sender);
    }
  }

  // ------------------------------------------------------------ fees

  /** The commission due at closing is covered by the coins that closing has released by then. */
  predicate Covered(o: Order, rules: FeeRules)
    requires Sound(o)
  {
    o.terms.frozenCommission == 0
    || CommissionOf(o, rules) <= o.terms.frozenCommission + If(UsedDenom(o.terms) == CET, o.freeze)
  }

  lemma DealtOrCheapIsCovered(o: Order, rules: FeeRules)
    requires Sound(o) && (o.dealStock != 0 || rules.feeForZeroDeal <= o.terms.frozenCommission)
    ensures Covered(o, rules)
  {
    CommissionIsCovered(o, rules.feeForZeroDeal);
  }

  /** The commission can be paid once it has been released. */
  ghost predicate CollectsCommission(l: Ledger, rules: FeeRules, o: Order)
    requires Sound(o)
  {
    o.terms.frozenCommission == 0 ||
    CommissionOf(o, rules) <= Bal(Unfreeze(Refund(l, o), o.terms.sender, CET, o.terms.frozenCommission).coins,
                                  Acct(o.terms.sender, CET))
  }

  lemma CommissionPurse(l: Ledger, rules: FeeRules, o: Order)
    requires Sound(o) && Backs(l, o)
    ensures Bal(Unfreeze(Refund(l, o), o.terms.sender, CET, o.terms.frozenCommission).coins, Acct(o.terms.sender, CET))
         == Bal(l.coins, Acct(o.terms.sender, CET)) + o.terms.frozenCommission + If(UsedDenom(o.terms) == CET, o.freeze)
  {
    var fees := Acct(o.terms.sender, CET);
    assert Bal(l.frozen, fees) >= Reserve(o, fees);
    RefundReleases(l, o, fees);
    UnfreezeMoves(Refund(l, o), o.terms.sender, CET, o.terms.frozenCommission, fees);
  }

  function ReserveLedger(o: Order): Ledger
    requires Sound(o)
  {
    var fees := Acct(o.terms.sender, CET);
    Ledger(map[], map[fees := o.terms.frozenCommission + o.terms.frozenFeatureFee
                      + If(UsedDenom(o.terms) == CET, o.freeze),
                      Acct(o.terms.sender, UsedDenom(o.terms)) := Reserve(o, Acct(o.terms.sender, UsedDenom(o.terms)))],
           {o.terms.sender})
  }

  /** The commission is collected from every sender, however poor, exactly when it is covered. */
  lemma CollectedIffCovered(o: Order, rules: FeeRules)
    requires Sound(o)
    ensures Covered(o, rules) <==> forall l | Backs(l, o) :: CollectsCommission(l, rules, o)
  {
    forall l | Backs(l, o) ensures Covered(o, rules) ==> CollectsCommission(l, rules, o) {
      CommissionPurse(l, rules, o);
    }
    if !Covered(o, rules) {
      var poor := ReserveLedger(o);
      assert Backs(poor, o);
      CommissionPurse(poor, rules, o);
      assert !CollectsCommission(poor, rules, o);
    }
  }

  /** How charging a fee changes account `k`. */
  function FeeDelta(forbidden: Forbidden, rules: FeeRules, fee: nat, user: Addr, k: Acct): int
  {
    if user in rules.referees then
      var rebate := Rebate(rules, fee);
      var sent := if Forbids(forbidden, CET, user) then 0 else rebate;
      If(k == Acct(rules.referees[user], CET), sent) + If(k == Acct(FEE_COLLECTOR, CET), fee - rebate)
      - If(k == Acct(user, CET), sent + fee - rebate)
    else
      If(k == Acct(FEE_COLLECTOR, CET), fee) - If(k == Acct(user, CET), fee)
  }

  /** What a fee takes out of the purse of its payer: less than the fee where the rebate is barred
      or goes back to the payer, and nothing from the collector itself. */
  function Toll(forbidden: Forbidden, rules: FeeRules, fee: nat, user: Addr): int
  {
    -FeeDelta(forbidden, rules, fee, user, Acct(user, CET))
  }

  lemma TollWithinFee(forbidden: Forbidden, rules: FeeRules, fee: nat, user: Addr)
    requires ValidRules(rules)
    ensures 0 <= Toll(forbidden, rules, fee, user) <= fee
  {
    RebateWithinFee(rules, fee);
  }

  /** A payer who has the toll pays in full. */
  lemma ChargeMoves(l: Ledger, forbidden: Forbidden, rules: FeeRules, fee: nat, user: Addr, k: Acct)
    requires ValidRules(rules) && Toll(forbidden, rules, fee, user) <= Bal(l.coins, Acct(user, CET))
    ensures Bal(ChargeFee(l, forbidden, rules, fee, user).coins, k) ==
            Bal(l.coins, k) + FeeDelta(forbidden, rules, fee, user, k)
  {
    hide Rebate, Forbids, Send;
    NobodyForbids(CET, user);
    if user in rules.referees {
      var rebate := Rebate(rules, fee);
      RebateWithinFee(rules, fee);
      var m := if rebate > 0 then Send(l, forbidden, user, rules.referees[user], CET, rebate) else l;
      var sent := if Forbids(forbidden, CET, user) then 0 else rebate;
      PartMoves(l, forbidden, user, rules.referees[user], rebate, k);
      PartMoves(l, forbidden, user, rules.referees[user], rebate, Acct(user, CET));
      PartMoves(m, Nobody, user, FEE_COLLECTOR, fee - rebate, k);
    } else {
      PartMoves(l, Nobody, user, FEE_COLLECTOR, fee, k);
    }
  }

  /** One transfer of a fee. One that is barred or goes back to its payer moves nothing, whatever
      is in the purse. */
  lemma PartMoves(l: Ledger, forbidden: Forbidden, user: Addr, to: Addr, n: nat, k: Acct)
    requires Forbids(forbidden, CET, user) || to == user || n <= Bal(l.coins, Acct(user, CET))
    ensures Bal(Send(l, forbidden, user, to, CET, n).coins, k)
         == Bal(l.coins, k) + (if Forbids(forbidden, CET, user) then 0
                               else If(k == Acct(to, CET), n) - If(k == Acct(user, CET), n))
  {
  }

  /** A fee is shared between the referee of its payer, who gets the rebate rounded down to a coin,
      and the collector, who gets all the rest. */
  lemma FeeIsShared(l: Ledger, forbidden: Forbidden, rules: FeeRules, fee: nat, user: Addr) returns (r: nat)
    requires ValidRules(rules) && !Forbids(forbidden, CET, user) && user != FEE_COLLECTOR
    requires user in rules.referees ==> rules.referees[user] !in {user, FEE_COLLECTOR}
    requires fee <= Bal(l.coins, Acct(user, CET))
    ensures if user in rules.referees then r * REBATE_BASE <= fee * rules.rebateRatio < (r + 1) * REBATE_BASE
            else r == 0
    ensures var m := ChargeFee(l, forbidden, rules, fee, user);
            && Bal(m.coins, Acct(user, CET)) == Bal(l.coins, Acct(user, CET)) - fee
            && Bal(m.coins, Acct(FEE_COLLECTOR, CET)) == Bal(l.coins, Acct(FEE_COLLECTOR, CET)) + (fee - r)
            && (user in rules.referees ==>
                var referee := Acct(rules.referees[user], CET); Bal(m.coins, referee) == Bal(l.coins, referee) + r)
  {
    hide ChargeFee, Forbids;
    r := if user in rules.referees then Rebate(rules, fee) else 0;
    TollWithinFee(forbidden, rules, fee, user);
    ChargeMoves(l, forbidden, rules, fee, user, Acct(user, CET));
    ChargeMoves(l, forbidden, rules, fee, user, Acct(FEE_COLLECTOR, CET));
    if user in rules.referees { ChargeMoves(l, forbidden, rules, fee, user, Acct(rules.referees[user], CET)); }
  }

  /** How closing an order whose fees are paid in full changes the spendable coins of account `k`. */
  function CloseDelta(forbidden: Forbidden, rules: FeeRules, o: Order, k: Acct): int
    requires Sound(o)
  {
    Reserve(o, k)
    + (if o.terms.frozenCommission == 0 then 0
       else FeeDelta(forbidden, rules, CommissionOf(o, rules), o.terms.sender, k))
    + (if o.terms.timeInForce != GTE || o.terms.frozenFeatureFee == 0 then 0
       else FeeDelta(forbidden, rules, FeatureFeeOf(o, rules), o.terms.sender, k))
  }

  /** The CET that closing has released by the time the commission is charged. */
  function Released(o: Order): int { o.terms.frozenCommission + If(UsedDenom(o.terms) == CET, o.freeze) }

  /** The commission can be paid in full out of a purse that held `purse` before. */
  predicate PaysFrom(o: Order, forbidden: Forbidden, rules: FeeRules, purse: int)
    requires Sound(o)
  {
    o.terms.frozenCommission == 0 || Toll(forbidden, rules, CommissionOf(o, rules), o.terms.sender) <= purse
        + Released(o)
  }

  /** The commission is paid in full out of an empty purse. */
  predicate Payable(o: Order, forbidden: Forbidden, rules: FeeRules)
    requires Sound(o)
  {
    PaysFrom(o, forbidden, rules, 0)
  }

  lemma CoveredIsPayable(o: Order, forbidden: Forbidden, rules: FeeRules)
    requires Sound(o) && ValidRules(rules) && Covered(o, rules)
    ensures Payable(o, forbidden, rules)
  {
    TollWithinFee(forbidden, rules, CommissionOf(o, rules), o.terms.sender);
  }

  lemma CommissionMoves(l: Ledger, forbidden: Forbidden, rules: FeeRules, o: Order, k: Acct)
    requires Sound(o) && ValidRules(rules) && Backs(l, o)
             && PaysFrom(o, forbidden, rules, Bal(l.coins, Acct(o.terms.sender, CET)))
    ensures Bal(CloseCommission(Refund(l, o), forbidden, rules, o).coins, k)
         == Bal(l.coins, k) + Reserve(o, k) - If(k == Acct(o.terms.sender, CET), o.terms.frozenFeatureFee)
            + (if o.terms.frozenCommission == 0 then 0
               else FeeDelta(forbidden, rules, CommissionOf(o, rules), o.terms.sender, k))
  {
    hide FeeDelta, ChargeFee;
    var fees := Acct(o.terms.sender, CET);
    assert Bal(l.frozen, fees) >= Reserve(o, fees);
    RefundReleases(l, o, fees);
    RefundReleases(l, o, k);
    if o.terms.frozenCommission != 0 {
      CommissionPurse(l, rules, o);
      UnfreezeMoves(Refund(l, o), o.terms.sender, CET, o.terms.frozenCommission, k);
      ChargeMoves(Unfreeze(Refund(l, o), o.terms.sender, CET, o.terms.frozenCommission), forbidden, rules,
                  CommissionOf(o, rules), o.terms.sender, k);
    }
  }

  /** The feature fee is always paid in full, whatever became of the commission. */
  lemma FeatureMoves(l: Ledger, forbidden: Forbidden, rules: FeeRules, o: Order, k: Acct)
    requires Sound(o) && ValidRules(rules) && Backs(l, o)
    ensures Bal(Close(l, forbidden, rules, o).coins, k)
         == Bal(CloseCommission(Refund(l, o), forbidden, rules, o).coins, k)
             + If(k == Acct(o.terms.sender, CET), o.terms.frozenFeatureFee)
            + (if o.terms.timeInForce != GTE || o.terms.frozenFeatureFee == 0 then 0
               else FeeDelta(forbidden, rules, FeatureFeeOf(o, rules), o.terms.sender, k))
  {
    hide FeeDelta, ChargeFee;
    var c := CloseCommission(Refund(l, o), forbidden, rules, o);
    var fees := Acct(o.terms.sender, CET);
    if o.terms.timeInForce == GTE && o.terms.frozenFeatureFee != 0 {
      assert Bal(l.frozen, fees) >= Reserve(o, fees);
      CommissionReleases(l, forbidden, rules, o, fees);
      UnfreezeMoves(c, o.terms.sender, CET, o.terms.frozenFeatureFee, k);
      UnfreezeMoves(c, o.terms.sender, CET, o.terms.frozenFeatureFee, fees);
      FeatureFeeIsCovered(o, rules.height, rules.freeBlocks);
      TollWithinFee(forbidden, rules, FeatureFeeOf(o, rules), o.terms.sender);
      ChargeMoves(Unfreeze(c, o.terms.sender, CET, o.terms.frozenFeatureFee), forbidden, rules, FeatureFeeOf(o, rules),
                  o.terms.sender, k);
    }
  }

  lemma CloseMoves(l: Ledger, forbidden: Forbidden, rules: FeeRules, o: Order, k: Acct)
    requires Sound(o) && ValidRules(rules) && Backs(l, o)
             && PaysFrom(o, forbidden, rules, Bal(l.coins, Acct(o.terms.sender, CET)))
    ensures Bal(Close(l, forbidden, rules, o).coins, k) == Bal(l.coins, k) + CloseDelta(forbidden, rules, o, k)
  {
    hide FeeDelta, Close, CloseCommission;
    CommissionMoves(l, forbidden, rules, o, k);
    FeatureMoves(l, forbidden, rules, o, k);
  }

  /** What closing costs a sender without a referee who can pay: the commission, if any was frozen,
      and the feature fee, both of which the collector gets. No other account gains or loses. */
  lemma ClosingCosts(l: Ledger, forbidden: Forbidden, rules: FeeRules, o: Order, k: Acct)
    requires Sound(o) && ValidRules(rules) && Backs(l, o)
    requires PaysFrom(o, forbidden, rules, Bal(l.coins, Acct(o.terms.sender, CET)))
    requires o.terms.sender !in rules.referees && o.terms.sender != FEE_COLLECTOR
    ensures var m := Close(l, forbidden, rules, o);
            var cost := (if o.terms.frozenCommission == 0 then 0
                         else CalActualOrderCommission(o, rules.feeForZeroDeal))
                        + CalActualOrderFeatureFee(o, rules.height, rules.freeBlocks);
            Bal(m.coins, k) + Bal(m.frozen, k) == Bal(l.coins, k) + Bal(l.frozen, k)
                + (if k == Acct(FEE_COLLECTOR, CET) then cost else 0)
                - (if k == Acct(o.terms.sender, CET) then cost else 0)
  {
    hide Close, CalActualOrderCommission, CalActualOrderFeatureFee, Reserve;
    FeatureFeeIsCovered(o, rules.height, rules.freeBlocks);
    CloseMoves(l, forbidden, rules, o, k);
    CloseReleases(l, forbidden, rules, o, k);
  }

  // ------------------------------------------------------------ closing several orders

  ghost predicate Closable(os: seq<Order>, forbidden: Forbidden, rules: FeeRules)
  {
    ValidRules(rules) && SoundOnes(os) && forall i | 0 <= i < |os| :: Payable(os[i], forbidden, rules)
  }

  predicate SoundOnes(os: seq<Order>)
  {
    forall i | 0 <= i < |os| :: Sound(os[i])
  }

  ghost function CloseAll(l: Ledger, forbidden: Forbidden, rules: FeeRules, os: seq<Order>): Ledger
    requires ValidRules(rules) && SoundOnes(os)
  {
    if os == [] then l
    else Close(CloseAll(l, forbidden, rules, os[..|os| - 1]), forbidden, rules, os[|os| - 1])
  }

  ghost function DeltaAt(forbidden: Forbidden, rules: FeeRules, k: Acct): Order -> int
  {
    o => if Sound(o) then CloseDelta(forbidden, rules, o, k) else 0
  }

  ghost function ReserveAt(k: Acct): Order -> int { o => Reserve(o, k) }

  /** Every order's reserve is frozen at once. */
  ghost predicate BacksAll(l: Ledger, os: seq<Order>)
  {
    && (forall i | 0 <= i < |os| :: os[i].terms.sender in l.known)
    && (forall k :: Bal(l.frozen, k) >= SeqSum(os, ReserveAt(k)))
  }

  lemma ReserveNonNegative(o: Order, k: Acct)
    requires Sound(o)
    ensures Reserve(o, k) >= 0
  {
  }

  lemma {:induction false} CloseAllMoves(l: Ledger, forbidden: Forbidden, rules: FeeRules, os: seq<Order>)
    requires Closable(os, forbidden, rules) && BacksAll(l, os)
    ensures var m := CloseAll(l, forbidden, rules, os);
            && m.known == l.known
            && (forall k :: Bal(m.frozen, k) == Bal(l.frozen, k) - SeqSum(os, ReserveAt(k)))
            && (forall k :: Bal(m.coins, k) == Bal(l.coins, k) + SeqSum(os, DeltaAt(forbidden, rules, k)))
  {
    if os != [] {
      var front, o := os[..|os| - 1], os[|os| - 1];
      forall k ensures Bal(l.frozen, k) >= SeqSum(front, ReserveAt(k)) { ReserveNonNegative(o, k); }
      CloseAllMoves(l, forbidden, rules, front);
      var n := CloseAll(l, forbidden, rules, front);
      assert Backs(n, o);
      CloseReleases(n, forbidden, rules, o, Acct("", ""));
      var m := Close(n, forbidden, rules, o);
      forall k ensures Bal(m.frozen, k) == Bal(l.frozen, k) - SeqSum(os, ReserveAt(k))
      {
        CloseReleases(n, forbidden, rules, o, k);
      }
      forall k ensures Bal(m.coins, k) == Bal(l.coins, k) + SeqSum(os, DeltaAt(forbidden, rules, k))
      {
        CloseMoves(n, forbidden, rules, o, k);
      }
    }
  }

  /** Orders whose commissions are all payable may be closed in any order, with the same balances. */
  lemma ClosingOrderIsIrrelevant(l: Ledger, forbidden: Forbidden, rules: FeeRules, os: seq<Order>, ps: seq<Order>)
    requires multiset(os) == multiset(ps) && Closable(os, forbidden, rules) && BacksAll(l, os)
    ensures Closable(ps, forbidden, rules)
    ensures var m, n := CloseAll(l, forbidden, rules, os), CloseAll(l, forbidden, rules, ps);
            forall k :: Bal(m.coins, k) == Bal(n.coins, k) && Bal(m.frozen, k) == Bal(n.frozen, k)
  {
    CloseAllMoves(l, forbidden, rules, os);
    forall i | 0 <= i < |ps| ensures ps[i] in os {
      assert ps[i] in multiset(ps);
    }
    forall k
      ensures SeqSum(os, DeltaAt(forbidden, rules, k)) == SeqSum(ps, DeltaAt(forbidden, rules, k))
      ensures SeqSum(os, ReserveAt(k)) == SeqSum(ps, ReserveAt(k))
    {
      SeqSumPermuted(os, ps, DeltaAt(forbidden, rules, k));
      SeqSumPermuted(os, ps, ReserveAt(k));
    }
    CloseAllMoves(l, forbidden, rules, ps);
  }
}
