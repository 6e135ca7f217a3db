/** What an issuer's ban is for: a token stays with an account that is forbidden to send it. Orders,
    pools and locks cannot be used to get around that; only fees, which are charged in CET, and the
    issuer's own dealings with its token take coins without asking. */
module Withholding {
  import opened Asset
  import opened Bancor
  import BancorCurve
  import opened BancorPools
  import opened BlockRuns
  import opened Closing
  import opened Decimals
  import opened Ledgers
  import opened LockedCoins
  import opened Locking
  import opened OrderEntry
  import opened Orders
  import opened OrderStore
  import opened Overlays
  import opened Settlement
  import opened Sums

  /** Nobody who was forbidden a token, and did not issue it, can spend less of it than before. */
  ghost predicate Withheld(l: Ledger, m: Ledger, forbidden: Forbidden, owners: AddressList)
  {
    forall k: Acct | Stuck(k, forbidden, owners) :: Bal(m.coins, k) >= Bal(l.coins, k)
  }

  predicate Stuck(k: Acct, forbidden: Forbidden, owners: AddressList)
  {
    Forbids(forbidden, k.denom, k.addr) && k.denom != CET && (k.denom, k.addr) !in owners
  }

  lemma NothingSpent(l: Ledger, forbidden: Forbidden, owners: AddressList)
    ensures Withheld(l, l, forbidden, owners)
  {
  }

  lemma WithheldTwice(a: Ledger, b: Ledger, c: Ledger, forbidden: Forbidden, owners: AddressList)
    requires Withheld(a, b, forbidden, owners) && Withheld(b, c, forbidden, owners)
    ensures Withheld(a, c, forbidden, owners)
  {
    hide Stuck;
  }

  lemma SendWithholds(l: Ledger, forbidden: Forbidden, from: Addr, to: Addr, denom: Denom, n: nat, owners: AddressList)
    ensures Withheld(l, Send(l, forbidden, from, to, denom, n), forbidden, owners)
  {
    hide Forbids;
  }

  lemma FeeWithholds(l: Ledger, forbidden: Forbidden, from: Addr, to: Addr, n: nat, owners: AddressList)
    ensures Withheld(l, Send(l, Nobody, from, to, CET, n), forbidden, owners)
  {
    hide Forbids;
  }

  lemma UnfreezeWithholds(l: Ledger, addr: Addr, denom: Denom, n: nat, forbidden: Forbidden, owners: AddressList)
    ensures Withheld(l, Unfreeze(l, addr, denom, n), forbidden, owners)
  {
    hide Forbids;
  }

  // ------------------------------------------------------------ orders

  lemma EntryWithholds(l: Ledger, m: Ledger, o: Order, forbidden: Forbidden, owners: AddressList)
    requires Froze(l, m, o) && Sound(o) && !Forbids(forbidden, UsedDenom(o.terms), o.terms.sender)
    ensures Withheld(l, m, forbidden, owners)
  {
    hide Forbids;
  }

  lemma ChargeWithholds(l: Ledger, forbidden: Forbidden, rules: FeeRules, fee: nat, user: Addr, owners: AddressList)
    requires ValidRules(rules)
    ensures Withheld(l, ChargeFee(l, forbidden, rules, fee, user), forbidden, owners)
  {
    hide Withheld, Send, Rebate;
    NothingSpent(l, forbidden, owners);
    if user in rules.referees {
      var rebate := Rebate(rules, fee);
      RebateWithinFee(rules, fee);
      var m := if rebate > 0 then Send(l, forbidden, user, rules.referees[user], CET, rebate) else l;
      SendWithholds(l, forbidden, user, rules.referees[user], CET, rebate, owners);
      FeeWithholds(m, forbidden, user, FEE_COLLECTOR, fee - rebate, owners);
      WithheldTwice(l, m, ChargeFee(l, forbidden, rules, fee, user), forbidden, owners);
    } else {
      FeeWithholds(l, forbidden, user, FEE_COLLECTOR, fee, owners);
    }
  }

  lemma ReleasedAndCharged(l: Ledger, forbidden: Forbidden, rules: FeeRules, n: nat, fee: nat, user: Addr,
                           owners: AddressList)
    requires ValidRules(rules)
    ensures Withheld(l, ChargeFee(Unfreeze(l, user, CET, n), forbidden, rules, fee, user), forbidden, owners)
  {
    hide Withheld, Unfreeze, ChargeFee;
    var m := Unfreeze(l, user, CET, n);
    UnfreezeWithholds(l, user, CET, n, forbidden, owners);
    ChargeWithholds(m, forbidden, rules, fee, user, owners);
    WithheldTwice(l, m, ChargeFee(m, forbidden, rules, fee, user), forbidden, owners);
  }

  lemma CloseWithholds(l: Ledger, forbidden: Forbidden, rules: FeeRules, o: Order, owners: AddressList)
    requires Sound(o) && ValidRules(rules)
    ensures Withheld(l, Close(l, forbidden, rules, o), forbidden, owners)
  {
    hide Withheld, Unfreeze, ChargeFee, Sound, CommissionOf, FeatureFeeOf;
    var r, c := Refund(l, o), CloseCommission(Refund(l, o), forbidden, rules, o);
    var m := CloseFeatureFee(c, forbidden, rules, o);
    NothingSpent(l, forbidden, owners);
    NothingSpent(r, forbidden, owners);
    NothingSpent(c, forbidden, owners);
    FrozenPartsAreNatural(o);
    UnfreezeWithholds(l, o.terms.sender, UsedDenom(o.terms), o.freeze, forbidden, owners);
    ReleasedAndCharged(r, forbidden, rules, o.terms.frozenCommission, CommissionOf(o, rules), o.terms.sender, owners);
    ReleasedAndCharged(c, forbidden, rules, o.terms.frozenFeatureFee, FeatureFeeOf(o, rules), o.terms.sender, owners);
    WithheldTwice(l, r, c, forbidden, owners);
    WithheldTwice(l, c, m, forbidden, owners);
  }

  lemma FrozenPartsAreNatural(o: Order)
    requires Sound(o)
    ensures o.freeze >= 0 && o.terms.frozenCommission >= 0 && o.terms.frozenFeatureFee >= 0
  {
  }

  lemma {:induction false} ClosingsWithhold(l: Ledger, forbidden: Forbidden, rules: FeeRules, os: seq<Order>,
                                            owners: AddressList)
    requires ValidRules(rules) && SoundOnes(os)
    ensures Withheld(l, CloseAll(l, forbidden, rules, os), forbidden, owners)
  {
    hide Withheld, Close, Sound;
    if os == [] {
      NothingSpent(l, forbidden, owners);
    } else {
      var front := os[..|os| - 1];
      var m := CloseAll(l, forbidden, rules, front);
      ClosingsWithhold(l, forbidden, rules, front, owners);
      CloseWithholds(m, forbidden, rules, os[|os| - 1], owners);
      WithheldTwice(l, m, CloseAll(l, forbidden, rules, os), forbidden, owners);
    }
  }

  /** A deal pays with frozen coins only. */
  lemma DealWithholds(x: Exchange, forbidden: Forbidden, d: Deal, owners: AddressList)
    requires Solvent(x) && ValidDeal(x.orders, d) && Unbarred(x.orders, forbidden, d)
    ensures Withheld(x.ledger, Apply(x, forbidden, d).ledger, forbidden, owners)
  {
    hide Solvent, Unbarred, Apply, Stuck;
    forall k ensures Bal(Apply(x, forbidden, d).ledger.coins, k) >= Bal(x.ledger.coins, k) {
      DealPays(x, forbidden, d, k);
    }
  }

  lemma DealPays(x: Exchange, forbidden: Forbidden, d: Deal, k: Acct)
    requires Solvent(x) && ValidDeal(x.orders, d) && Unbarred(x.orders, forbidden, d)
    ensures Bal(Apply(x, forbidden, d).ledger.coins, k) >= Bal(x.ledger.coins, k)
  {
    hide Solvent, Unbarred, Apply;
    DealMovesExactly(x, forbidden, d, k);
  }

  lemma {:induction false} DealsWithhold(x: Exchange, forbidden: Forbidden, ds: seq<Deal>, owners: AddressList)
    requires Solvent(x) && ValidRun(x, forbidden, ds)
    ensures Withheld(x.ledger, Replay(x, forbidden, ds).ledger, forbidden, owners)
  {
    hide Solvent, Withheld, Apply, Unbarred;
    if ds == [] {
      NothingSpent(x.ledger, forbidden, owners);
    } else {
      var front := ds[..|ds| - 1];
      var y := Replay(x, forbidden, front);
      DealsWithhold(x, forbidden, front, owners);
      RunKeepsSolvent(x, forbidden, front);
      DealWithholds(y, forbidden, ds[|ds| - 1], owners);
      WithheldTwice(x.ledger, y.ledger, Replay(x, forbidden, ds).ledger, forbidden, owners);
    }
  }

  /** The end of a block, with all its deals and closings. */
  lemma BlockWithholds(x: Exchange, z: Exchange, forbidden: Forbidden, rules: FeeRules, deals: seq<Deal>,
                       owners: AddressList)
    requires Solvent(x) && Blocked(x, z, forbidden, rules, deals)
    ensures Withheld(x.ledger, z.ledger, forbidden, owners)
  {
    hide Solvent, ValidRun, Replay, Withheld, CloseAll, Sound, Lists, IsPart;
    var y := Replay(x, forbidden, deals);
    var closed :| ClosesTo(y, z, forbidden, rules, closed);
    DealsWithhold(x, forbidden, deals, owners);
    ClosingsWithhold(y.ledger, forbidden, rules, closed, owners);
    WithheldTwice(x.ledger, y.ledger, z.ledger, forbidden, owners);
  }

  // ------------------------------------------------------------ pools, locks and tokens

  /** Only what a trader may send leaves its purse, apart from the fee. */
  lemma TradeWithholds(l: Ledger, m: Ledger, msg: MsgBancorTrade, diff: int, commission: nat, rules: FeeRules,
                       forbidden: Forbidden, owners: AddressList)
    requires Paid(l, m, msg, diff, commission, rules) && ValidRules(rules)
             && !BarredFrom(forbidden, msg.stock, msg.money, msg.sender)
    requires diff > 0 && msg.amount > 0
    ensures Withheld(l, m, forbidden, owners)
  {
    hide Forbids, Rebate;
    RebateWithinFee(rules, commission);
  }

  /** What a pool's owner puts in it, it may send. */
  lemma InitWithholds(l: Ledger, m: Ledger, forbidden: Forbidden, stock: Acct, n: nat, fee: nat, owners: AddressList)
    requires !Forbids(forbidden, stock.denom, stock.addr)
    requires forall k ::
             Bal(m.coins, k) == Bal(l.coins, k) - If(k == stock, n) + If(k == Acct(FEE_COLLECTOR, CET), fee)
                 - If(k == Acct(stock.addr, CET), fee)
    ensures Withheld(l, m, forbidden, owners)
  {
    hide Forbids;
  }

  lemma CancelWithholds(l: Ledger, m: Ledger, p: Pool, t: BancorCurve.Table, fee: nat, forbidden: Forbidden,
                        owners: AddressList)
    requires OnCurve(p, t)
    requires forall k ::
             Bal(m.coins, k) == Bal(l.coins, k) + PoolReserve(p, k) + If(k == Acct(FEE_COLLECTOR, CET), fee)
                 - If(k == Acct(p.owner, CET), fee)
    ensures Withheld(l, m, forbidden, owners)
  {
    hide Forbids, OnCurve;
    PoolHolds(p, t);
  }

  lemma {:induction false} PaidNothingOf(amt: seq<Coin>, d: Denom)
    requires forall i | 0 <= i < |amt| :: amt[i].denom != d
    ensures PaidOf(amt, d) == 0
  {
    if amt != [] { PaidNothingOf(amt[..|amt| - 1], d); }
  }

  lemma LockWithholds(l: Ledger, m: Ledger, from: Addr, amt: seq<Coin>, fee: nat, forbidden: Forbidden,
                      owners: AddressList)
    requires LockSent(l, m, from, amt, fee) && forall i | 0 <= i < |amt| :: !Forbids(forbidden, amt[i].denom, from)
    ensures Withheld(l, m, forbidden, owners)
  {
    hide Forbids, PaidOf;
    forall k: Acct | Stuck(k, forbidden, owners) ensures Bal(m.coins, k) >= Bal(l.coins, k) {
      if k.addr == from { PaidNothingOf(amt, k.denom); }
    }
  }

  lemma UnlockWithholds(l: Ledger, m: Ledger, receiver: Addr, supervisor: Addr, amt: Coin, reward: nat,
                        forbidden: Forbidden, owners: AddressList)
    requires Unlocked(l, m, receiver, supervisor, amt, reward) && reward <= amt.amount
    ensures Withheld(l, m, forbidden, owners)
  {
    hide Stuck;
  }

  lemma DueWithholds(l: Ledger, m: Ledger, locked: Locks, time: int, forbidden: Forbidden, owners: AddressList)
    requires forall k :: Bal(m.coins, k) == Bal(l.coins, k) + DueOf(CoinsOf(locked, k.addr), k.denom, time)
    ensures Withheld(l, m, forbidden, owners)
  {
    hide Stuck, DueOf;
    forall k ensures Bal(m.coins, k) >= Bal(l.coins, k) { DueWithin(CoinsOf(locked, k.addr), k.denom, time); }
  }

  /** Only its owner mints or burns a token. */
  lemma ResizeWithholds(l: Ledger, m: Ledger, d: Denom, owner: Addr, n: int, forbidden: Forbidden, owners: AddressList)
    requires Resized(l, m, d, owner, n) && (n >= 0 || (d, owner) in owners)
    ensures Withheld(l, m, forbidden, owners)
  {
    hide Forbids, Supply;
  }

  // ------------------------------------------------------------ runs

  /** A moment of the chain, as far as bans go. */
  datatype Moment = Moment(ledger: Ledger, forbidden: Forbidden, owners: AddressList)

  ghost predicate WithholdingRun(vs: seq<Moment>)
  {
    forall i | 0 <= i < |vs| - 1 :: WithheldAt(vs, i)
  }

  ghost predicate WithheldAt(vs: seq<Moment>, i: nat)
    requires i < |vs| - 1
  {
    Withheld(vs[i].ledger, vs[i + 1].ledger, vs[i].forbidden, vs[i].owners)
  }

  /** As long as the ban lasts, no run of steps of any kind takes a spendable coin of that token. */
  lemma {:induction false} BannedCoinsStay(vs: seq<Moment>, k: Acct, i: nat)
    requires i < |vs| && WithholdingRun(vs) && forall j | 0 <= j < i :: Stuck(k, vs[j].forbidden, vs[j].owners)
    ensures Bal(vs[i].ledger.coins, k) >= Bal(vs[0].ledger.coins, k)
  {
    hide Stuck;
    if i > 0 {
      BannedCoinsStay(vs, k, i - 1);
      assert WithheldAt(vs, i - 1);
    }
  }
}
