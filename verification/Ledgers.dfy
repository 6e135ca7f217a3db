/** Spendable and frozen coins. `Ledger` is the value of the two stores, `Bank` the keeper
    that reads and writes them. */
module Ledgers {
  import opened Sums

  type Addr = string
  type Denom = string

  const CET: Denom := "cet"

  datatype Acct = Acct(addr: Addr, denom: Denom)

  /** `known` holds the addresses that have an extended account record. */
  datatype Ledger = Ledger(coins: map<Acct, nat>, frozen: map<Acct, nat>, known: set<Addr>)

  /** Whom token issuers forbid to send: the tokens there are, the addresses that are forbidden one
      token, the tokens that are forbidden as a whole, and who is exempt from that. Transfers between
      an account and a module ask no issuer. */
  datatype Forbidden = Nobody | ByIssuers(tokens: set<Denom>, addresses: set<(Denom, Addr)>, stopped: set<Denom>,
                                          exempt: set<(Denom, Addr)>)

  predicate Forbids(forbidden: Forbidden, denom: Denom, addr: Addr)
  {
    match forbidden
    case Nobody => false
    case ByIssuers(tokens, addresses, stopped, exempt) =>
      denom !in tokens || (denom, addr) in addresses || (denom in stopped && (denom, addr) !in exempt)
  }

  lemma NobodyForbids(denom: Denom, addr: Addr)
    ensures !Forbids(Nobody, denom, addr)
  {
  }

  function Bal(m: map<Acct, nat>, k: Acct): nat { if k in m then m[k] else 0 }

  function Add(m: map<Acct, nat>, k: Acct, n: nat): map<Acct, nat> { m[k := Bal(m, k) + n] }

  function Sub(m: map<Acct, nat>, k: Acct, n: nat): map<Acct, nat>
    requires n <= Bal(m, k)
  {
    m[k := Bal(m, k) - n]
  }

  predicate CanSend(l: Ledger, forbidden: Forbidden, from: Addr, denom: Denom, n: nat)
  {
    !Forbids(forbidden, denom, from) && n <= Bal(l.coins, Acct(from, denom))
  }

  /** A transfer between spendable balances; it leaves the ledger alone when it is refused. */
  function Send(l: Ledger, forbidden: Forbidden, from: Addr, to: Addr, denom: Denom, n: nat): Ledger
  {
    if CanSend(l, forbidden, from, denom, n)
    then l.(coins := Add(Sub(l.coins, Acct(from, denom), n), Acct(to, denom), n))
    else l
  }

  function Freeze(l: Ledger, forbidden: Forbidden, addr: Addr, denom: Denom, n: nat): Ledger
  {
    if CanSend(l, forbidden, addr, denom, n)
    then Ledger(Sub(l.coins, Acct(addr, denom), n), Add(l.frozen, Acct(addr, denom), n), l.known + {addr})
    else l
  }

  predicate CanUnfreeze(l: Ledger, addr: Addr, denom: Denom, n: nat)
  {
    addr in l.known && n <= Bal(l.frozen, Acct(addr, denom))
  }

  function Unfreeze(l: Ledger, addr: Addr, denom: Denom, n: nat): Ledger
  {
    if CanUnfreeze(l, addr, denom, n)
    then l.(coins := Add(l.coins, Acct(addr, denom), n), frozen := Sub(l.frozen, Acct(addr, denom), n))
    else l
  }

  function If(c: bool, n: int): int { if c then n else 0 }

  lemma UnfreezeMoves(l: Ledger, addr: Addr, denom: Denom, n: nat, k: Acct)
    requires CanUnfreeze(l, addr, denom, n)
    ensures var m := Unfreeze(l, addr, denom, n);
            && m.known == l.known
            && Bal(m.frozen, k) == Bal(l.frozen, k) - If(k == Acct(addr, denom), n)
            && Bal(m.coins, k) == Bal(l.coins, k) + If(k == Acct(addr, denom), n)
  {
  }

  lemma SendMoves(l: Ledger, forbidden: Forbidden, from: Addr, to: Addr, denom: Denom, n: nat, k: Acct)
    requires CanSend(l, forbidden, from, denom, n)
    ensures var m := Send(l, forbidden, from, to, denom, n);
            && m.known == l.known && m.frozen == l.frozen
            && Bal(m.coins, k) == Bal(l.coins, k) - If(k == Acct(from, denom), n) + If(k == Acct(to, denom), n)
  {
  }

  // ------------------------------------------------------------ conservation

  ghost function InDenom(denom: Denom): (Acct, nat) -> int { (k: Acct, n: nat) => if k.denom == denom then n else 0 }

  /** All coins of a denomination that accounts own, spendable or frozen. */
  ghost function Supply(l: Ledger, denom: Denom): int
  {
    Sum<Acct, nat>(l.coins, InDenom(denom)) + Sum<Acct, nat>(l.frozen, InDenom(denom))
  }

  /** No coin was made or lost. */
  ghost predicate SameSupply(l: Ledger, m: Ledger)
  {
    forall d :: Supply(m, d) == Supply(l, d)
  }

  lemma AddRaisesSum(m: map<Acct, nat>, k: Acct, n: nat, denom: Denom)
    ensures Sum<Acct, nat>(Add(m, k, n), InDenom(denom)) == Sum<Acct, nat>(m, InDenom(denom)) + If(k.denom == denom, n)
  {
    SumUpdate<Acct, nat>(m, InDenom(denom), k, Bal(m, k) + n);
  }

  lemma SubLowersSum(m: map<Acct, nat>, k: Acct, n: nat, denom: Denom)
    requires n <= Bal(m, k)
    ensures Sum<Acct, nat>(Sub(m, k, n), InDenom(denom)) == Sum<Acct, nat>(m, InDenom(denom)) - If(k.denom == denom, n)
  {
    SumUpdate<Acct, nat>(m, InDenom(denom), k, Bal(m, k) - n);
  }

  lemma SendKeepsSupply(l: Ledger, forbidden: Forbidden, from: Addr, to: Addr, denom: Denom, n: nat)
    ensures SameSupply(l, Send(l, forbidden, from, to, denom, n))
  {
    if CanSend(l, forbidden, from, denom, n) {
      forall d ensures Supply(Send(l, forbidden, from, to, denom, n), d) == Supply(l, d) {
        SubLowersSum(l.coins, Acct(from, denom), n, d);
        AddRaisesSum(Sub(l.coins, Acct(from, denom), n), Acct(to, denom), n, d);
      }
    }
  }

  lemma FreezeKeepsSupply(l: Ledger, forbidden: Forbidden, addr: Addr, denom: Denom, n: nat)
    ensures SameSupply(l, Freeze(l, forbidden, addr, denom, n))
  {
    if CanSend(l, forbidden, addr, denom, n) {
      forall d ensures Supply(Freeze(l, forbidden, addr, denom, n), d) == Supply(l, d) {
        SubLowersSum(l.coins, Acct(addr, denom), n, d);
        AddRaisesSum(l.frozen, Acct(addr, denom), n, d);
      }
    }
  }

  lemma UnfreezeKeepsSupply(l: Ledger, addr: Addr, denom: Denom, n: nat)
    ensures SameSupply(l, Unfreeze(l, addr, denom, n))
  {
    if CanUnfreeze(l, addr, denom, n) {
      forall d ensures Supply(Unfreeze(l, addr, denom, n), d) == Supply(l, d) {
        AddRaisesSum(l.coins, Acct(addr, denom), n, d);
        SubLowersSum(l.frozen, Acct(addr, denom), n, d);
      }
    }
  }

  lemma SameSupplyTwice(l: Ledger, m: Ledger, n: Ledger)
    requires SameSupply(l, m) && SameSupply(m, n)
    ensures SameSupply(l, n)
  {
  }

  /** The account that collects fees, and the rebate a referee gets out of a fee. */
  const FEE_COLLECTOR: Addr := "fee_collector"
  const REBATE_BASE: int := 10000

  /** The bank keeper. Its methods are the operations that market and bancor call. */
  class Bank {
    var ledger: Ledger
    var forbidden: Forbidden

    constructor (ledger: Ledger, forbidden: Forbidden)
      ensures this.ledger == ledger && this.forbidden == forbidden
    {
      this.ledger := ledger;
      this.forbidden := forbidden;
    }

    method SendCoins(from: Addr, to: Addr, denom: Denom, n: nat) returns (ok: bool)
      modifies this`ledger
      ensures ok == CanSend(old(ledger), forbidden, from, denom, n)
      ensures ledger == Send(old(ledger), forbidden, from, to, denom, n)
    {
      if Forbids(forbidden, denom, from) { return false; }
      if Bal(ledger.coins, Acct(from, denom)) < n { return false; }
      var coins := Sub(ledger.coins, Acct(from, denom), n);
      ledger := ledger.(coins := Add(coins, Acct(to, denom), n));
      ok := true;
    }

    /** A transfer between an account and a module, which does not ask the token issuer. */
    method Transfer(from: Addr, to: Addr, denom: Denom, n: nat) returns (ok: bool)
      modifies this`ledger
      ensures ok == CanSend(old(ledger), Nobody, from, denom, n)
      ensures ledger == Send(old(ledger), Nobody, from, to, denom, n)
    {
      if Bal(ledger.coins, Acct(from, denom)) < n { return false; }
      var coins := Sub(ledger.coins, Acct(from, denom), n);
      ledger := ledger.(coins := Add(coins, Acct(to, denom), n));
      ok := true;
    }

    /** Fees go to the collector's module. */
    method DeductFee(from: Addr, n: nat) returns (ok: bool)
      modifies this`ledger
      ensures ok == CanSend(old(ledger), Nobody, from, CET, n)
      ensures ledger == Send(old(ledger), Nobody, from, FEE_COLLECTOR, CET, n)
    {
      ok := Transfer(from, FEE_COLLECTOR, CET, n);
    }

    method FreezeCoins(addr: Addr, denom: Denom, n: nat) returns (ok: bool)
      modifies this`ledger
      ensures ok == CanSend(old(ledger), forbidden, addr, denom, n)
      ensures ledger == Freeze(old(ledger), forbidden, addr, denom, n)
    {
      if Forbids(forbidden, denom, addr) { return false; }
      if Bal(ledger.coins, Acct(addr, denom)) < n { return false; }
      ledger := ledger.(coins := Sub(ledger.coins, Acct(addr, denom), n));
      ledger := ledger.(frozen := Add(ledger.frozen, Acct(addr, denom), n), known := ledger.known + {addr});
      ok := true;
    }

    method UnFreezeCoins(addr: Addr, denom: Denom, n: nat) returns (ok: bool)
      modifies this`ledger
      ensures ok == CanUnfreeze(old(ledger), addr, denom, n)
      ensures ledger == Unfreeze(old(ledger), addr, denom, n)
    {
      if addr !in ledger.known { return false; }
      if Bal(ledger.frozen, Acct(addr, denom)) < n { return false; }
      ledger := ledger.(frozen := Sub(ledger.frozen, Acct(addr, denom), n));
      ledger := ledger.(coins := Add(ledger.coins, Acct(addr, denom), n));
      ok := true;
    }
  }
}
