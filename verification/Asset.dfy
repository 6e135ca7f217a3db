/** Issuing, minting and burning tokens. A token's total supply is what exists of it: spendable,
    frozen and locked coins of all accounts. */
module Asset {
  import opened Ledgers
  import opened LockedCoins
  import opened Locking
  import opened Orders
  import opened Sums
  import opened Tokens

  const ASSET_MODULE: Addr := "asset"

  type TokenMap = map<Denom, Token>

  /** Which symbols and addresses are special. */
  datatype AssetRules = AssetRules(reserved: set<Denom>, blacklisted: set<Addr>)

  ghost predicate AllValid(tokens: TokenMap)
  {
    forall s | s in tokens :: Validate(tokens[s]) && tokens[s].symbol == s
  }

  // ------------------------------------------------------------ whom issuers forbid

  type AddressList = set<(Denom, Addr)>

  /** Which tokens nobody may exchange. */
  function ForbiddenTokens(tokens: TokenMap): set<Denom> { set d | d in tokens && tokens[d].isForbidden }

  function Owners(tokens: TokenMap): AddressList { set d | d in tokens :: (d, tokens[d].owner) }

  /** What the token records and the two lists say to the bank. */
  function IssuerRules(tokens: TokenMap, banned: AddressList, whitelist: AddressList): Forbidden
  {
    ByIssuers(tokens.Keys, banned, ForbiddenTokens(tokens), whitelist + Owners(tokens))
  }

  /** Addresses are listed for tokens that there are, and forbidden only where the token's record
      allows that. */
  ghost predicate Listed(tokens: TokenMap, banned: AddressList, whitelist: AddressList)
  {
    && (forall e | e in banned :: e.0 in tokens && tokens[e.0].addrForbiddable && e.1 != "")
    && (forall e | e in whitelist :: e.0 in tokens && e.1 != "")
  }

  /** An address on a token's list is forbidden it whatever else holds; everybody else is forbidden
      only a token that is forbidden as a whole, unless exempt as its owner or by the whitelist. */
  lemma IssuerRulesMean(tokens: TokenMap, banned: AddressList, whitelist: AddressList, d: Denom, a: Addr)
    requires d in tokens
    ensures Forbids(IssuerRules(tokens, banned, whitelist), d, a) <==>
              (d, a) in banned || (tokens[d].isForbidden && (d, a) !in whitelist && tokens[d].owner != a)
  {
    assert (d, a) in Owners(tokens) <==> tokens[d].owner == a;
  }

  lemma OwnerEntry(tokens: TokenMap, e: (Denom, Addr))
    ensures e in Owners(tokens) <==> e.0 in tokens && tokens[e.0].owner == e.1
  {
    assert e == (e.0, e.1);
  }

  /** A record may change as long as its owner and its flag stay. */
  lemma SameRules(tokens: TokenMap, banned: AddressList, whitelist: AddressList, d: Denom, t: Token)
    requires d in tokens && t.owner == tokens[d].owner && t.isForbidden == tokens[d].isForbidden
    ensures IssuerRules(tokens[d := t], banned, whitelist) == IssuerRules(tokens, banned, whitelist)
  {
    var next := tokens[d := t];
    assert ForbiddenTokens(next) == ForbiddenTokens(tokens);
    forall e ensures e in Owners(next) <==> e in Owners(tokens) {
      OwnerEntry(tokens, e);
      OwnerEntry(next, e);
    }
    assert Owners(next) == Owners(tokens);
  }

  function Entries(d: Denom, addresses: seq<Addr>): AddressList { set a | a in addresses && a != "" :: (d, a) }

  lemma OneMoreEntry(d: Denom, addresses: seq<Addr>, i: nat)
    requires i < |addresses|
    ensures Entries(d, addresses[..i + 1]) ==
            Entries(d, addresses[..i]) + (if addresses[i] == "" then {} else {(d, addresses[i])})
  {
    assert addresses[..i + 1] == addresses[..i] + [addresses[i]];
  }

  // ------------------------------------------------------------ what exists of a token

  function TotalSupplyOf(tokens: TokenMap, d: Denom): int { if d in tokens then tokens[d].totalSupply else 0 }

  /** Every token's total supply is in existence, and nothing exists of what is no token. */
  ghost predicate SupplyExists(tokens: TokenMap, l: Ledger, locked: Locks)
  {
    forall d :: TotalSupplyOf(tokens, d) == Worth(l, locked, d)
  }

  function Minted(l: Ledger, d: Denom, n: nat): Ledger { l.(coins := Add(l.coins, Acct(ASSET_MODULE, d), n)) }

  function Burnt(l: Ledger, d: Denom, n: nat): Ledger
    requires n <= Bal(l.coins, Acct(ASSET_MODULE, d))
  {
    l.(coins := Sub(l.coins, Acct(ASSET_MODULE, d), n))
  }

  /** What a mint or a burn of `n` coins makes of the whole: only the total of `d` and spendable
      coins of the owner change. */
  ghost predicate Resized(l: Ledger, m: Ledger, d: Denom, owner: Addr, n: int)
  {
    && m.frozen == l.frozen && m.known == l.known
    && (forall e :: Supply(m, e) == Supply(l, e) + If(e == d, n))
    && (forall k :: Bal(m.coins, k) == Bal(l.coins, k) + If(k == Acct(owner, d), n))
  }

  lemma MintMoves(l: Ledger, d: Denom, owner: Addr, n: nat)
    ensures CanSend(Minted(l, d, n), Nobody, ASSET_MODULE, d, n)
    ensures Resized(l, Send(Minted(l, d, n), Nobody, ASSET_MODULE, owner, d, n), d, owner, n)
  {
    var m := Minted(l, d, n);
    ReceiveMoves(l, ASSET_MODULE, d, n);
    SendKeepsSupply(m, Nobody, ASSET_MODULE, owner, d, n);
    forall k ensures Bal(Send(m, Nobody, ASSET_MODULE, owner, d, n).coins, k) ==
        Bal(l.coins, k) + If(k == Acct(owner, d), n) {
      SendMoves(m, Nobody, ASSET_MODULE, owner, d, n, k);
    }
  }

  lemma BurnMoves(l: Ledger, d: Denom, owner: Addr, n: nat)
    requires n <= Bal(l.coins, Acct(owner, d))
    ensures var m := Send(l, Nobody, owner, ASSET_MODULE, d, n);
            n <= Bal(m.coins, Acct(ASSET_MODULE, d)) && Resized(l, Burnt(m, d, n), d, owner, -(n as int))
  {
    var m := Send(l, Nobody, owner, ASSET_MODULE, d, n);
    SendKeepsSupply(l, Nobody, owner, ASSET_MODULE, d, n);
    SendMoves(l, Nobody, owner, ASSET_MODULE, d, n, Acct(ASSET_MODULE, d));
    forall e ensures Supply(Burnt(m, d, n), e) == Supply(l, e) + If(e == d, -(n as int)) {
      SubLowersSum(m.coins, Acct(ASSET_MODULE, d), n, e);
    }
    forall k ensures Bal(Burnt(m, d, n).coins, k) == Bal(l.coins, k) + If(k == Acct(owner, d), -(n as int)) {
      SendMoves(l, Nobody, owner, ASSET_MODULE, d, n, k);
    }
  }

  /** Total and existence move together. */
  lemma ResizeKeepsAccount(tokens: TokenMap, l: Ledger, m: Ledger, locked: Locks, d: Denom, owner: Addr, n: int,
                           t: Token)
    requires SupplyExists(tokens, l, locked) && Resized(l, m, d, owner, n)
             && t.totalSupply == TotalSupplyOf(tokens, d) + n
    ensures SupplyExists(tokens[d := t], m, locked)
  {
    forall e ensures TotalSupplyOf(tokens[d := t], e) == Worth(m, locked, e) {
      assert TotalSupplyOf(tokens, e) == Worth(l, locked, e);
    }
  }

  /** A change that leaves the total alone leaves the account alone. */
  lemma SameTotal(tokens: TokenMap, l: Ledger, locked: Locks, d: Denom, t: Token)
    requires SupplyExists(tokens, l, locked) && t.totalSupply == TotalSupplyOf(tokens, d)
    ensures SupplyExists(tokens[d := t], l, locked)
  {
    forall e ensures TotalSupplyOf(tokens[d := t], e) == Worth(l, locked, e) {
      assert TotalSupplyOf(tokens, e) == Worth(l, locked, e);
    }
  }

  /** Nothing is locked of what does not exist. */
  lemma NothingLocked(tokens: TokenMap, counts: SendLocks, l: Ledger, locked: Locks, d: Denom)
    requires SupplyExists(tokens, l, locked) && Counted(counts, locked) && d !in tokens
    ensures LockCount(counts, d) == 0 && Counted(counts[d := 0], locked)
  {
    assert TotalSupplyOf(tokens, d) == Worth(l, locked, d);
    SupplyNonNegative(l, d);
    LockedNonNegative(locked, d);
    assert LockCount(counts, d) == TotalLocked(locked, d);
    forall e ensures LockCount(counts[d := 0], e) == TotalLocked(locked, e) {
      assert LockCount(counts, e) == TotalLocked(locked, e);
    }
  }

  lemma SupplyNonNegative(l: Ledger, d: Denom)
    ensures Supply(l, d) >= 0
  {
    SumNonNegative<Acct, nat>(l.coins, InDenom(d));
    SumNonNegative<Acct, nat>(l.frozen, InDenom(d));
  }

  /** The list without the entries of one token. */
  function Cleared(banned: AddressList, d: Denom): AddressList { set e | e in banned && e.0 != d }

  /** A record that still lets addresses be forbidden may stand in for what was listed. */
  lemma StillListed(tokens: TokenMap, banned: AddressList, whitelist: AddressList, d: Denom, t: Token)
    requires Listed(tokens, banned, whitelist) && (d in tokens ==> t.addrForbiddable == tokens[d].addrForbiddable)
    ensures Listed(tokens[d := t], banned, whitelist)
  {
  }

  lemma ListedAfter(tokens: TokenMap, banned: AddressList, whitelist: AddressList, d: Denom, t: Token)
    requires Listed(tokens, banned, whitelist) && d in tokens
    ensures Listed(tokens[d := t], if tokens[d].addrForbiddable && !t.addrForbiddable then Cleared(banned, d)
                   else banned, whitelist)
  {
  }

  lemma UnknownIsForbidden(tokens: TokenMap, banned: AddressList, whitelist: AddressList, d: Denom, a: Addr)
    requires d !in tokens
    ensures Forbids(IssuerRules(tokens, banned, whitelist), d, a)
  {
  }

  class AssetKeeper {
    const bank: Bank
    const locks: LockKeeper
    var tokens: TokenMap
    var banned: AddressList
    var whitelist: AddressList

    ghost predicate Valid()
      reads this, bank, locks
    {
      && locks.bank == bank && AllValid(tokens) && SupplyExists(tokens, bank.ledger, locks.locked)
      && Counted(locks.sendLock, locks.locked)
      && Listed(tokens, banned, whitelist) && bank.forbidden == IssuerRules(tokens, banned, whitelist)
    }

    /** The tokens of a chain's beginning, with their coins already given out. */
    constructor (bank: Bank, locks: LockKeeper, tokens: TokenMap, banned: AddressList, whitelist: AddressList)
      requires locks.bank == bank && AllValid(tokens) && SupplyExists(tokens, bank.ledger, locks.locked)
               && Counted(locks.sendLock, locks.locked)
      requires Listed(tokens, banned, whitelist) && bank.forbidden == IssuerRules(tokens, banned, whitelist)
      ensures Valid() && this.bank == bank && this.locks == locks && this.tokens == tokens && this.banned == banned
              && this.whitelist == whitelist
    {
      this.bank, this.locks, this.tokens, this.banned, this.whitelist := bank, locks, tokens, banned, whitelist;
    }

    /** Whether the issuer of a token forbids an account to send it. */
    method IsForbiddenByTokenIssuer(symbol: Denom, addr: Addr) returns (yes: bool)
      requires bank.forbidden == IssuerRules(tokens, banned, whitelist)
      ensures yes == Forbids(bank.forbidden, symbol, addr)
    {
      hide Forbids, IssuerRules;
      if symbol !in tokens {
        UnknownIsForbidden(tokens, banned, whitelist, symbol, addr);
        return true;
      }
      IssuerRulesMean(tokens, banned, whitelist, symbol, addr);
      if (symbol, addr) in banned { return true; }
      if !tokens[symbol].isForbidden { return false; }
      if (symbol, addr) in whitelist { return false; }
      if tokens[symbol].owner == addr { return false; }
      yes := true;
    }

    /** The bank goes by the records and lists as they are now. */
    method Publish()
      modifies bank`forbidden
      ensures bank.forbidden == IssuerRules(tokens, banned, whitelist)
    {
      bank.forbidden := IssuerRules(tokens, banned, whitelist);
    }

    /** New coins, by way of the module's account. */
    method MintTo(owner: Addr, d: Denom, n: nat)
      modifies bank`ledger
      ensures Resized(old(bank.ledger), bank.ledger, d, owner, n)
    {
      MintMoves(bank.ledger, d, owner, n);
      bank.ledger := Minted(bank.ledger, d, n);
      var _ := bank.Transfer(ASSET_MODULE, owner, d, n);
    }

    /** Coins taken out of existence, if their owner can spend them. */
    method BurnFrom(owner: Addr, d: Denom, n: nat) returns (ok: bool)
      modifies bank`ledger
      ensures ok == (n <= Bal(old(bank.ledger).coins, Acct(owner, d)))
      ensures if ok then Resized(old(bank.ledger), bank.ledger, d, owner, -(n as int))
      else bank.ledger == old(bank.ledger)
    {
      if n <= Bal(bank.ledger.coins, Acct(owner, d)) { BurnMoves(bank.ledger, d, owner, n); }
      ok := bank.Transfer(owner, ASSET_MODULE, d, n);
      if ok { bank.ledger := Burnt(bank.ledger, d, n); }
    }

    /** Issues a token: its supply comes into existence in its owner's account. */
    method HandleMsgIssueToken(t: Token, rules: AssetRules, fee: nat) returns (ok: bool)
      requires Valid() && ValidFields(t)
      modifies this`tokens, bank`ledger, bank`forbidden, locks`sendLock
      ensures Valid() && bank.ledger.frozen == old(bank.ledger).frozen && bank.ledger.known == old(bank.ledger).known
      ensures ok == (fee <= Bal(old(bank.ledger).coins, Acct(t.owner, CET)) && MayIssue(t, old(tokens), rules))
      ensures tokens == if ok then old(tokens)[t.symbol := t.(totalBurn := 0, totalMint := 0, isForbidden := false)]
      else old(tokens)
      ensures !ok ==> bank.ledger == old(bank.ledger) && locks.sendLock == old(locks.sendLock)
      ensures ok ==> Resized(Send(old(bank.ledger), Nobody, t.owner, FEE_COLLECTOR, CET, fee), bank.ledger, t.symbol,
                             t.owner, t.totalSupply)
    {
      hide SupplyExists, Counted, Validate, ValidFields, Resized, Listed, IssuerRules;
      var saved := bank.ledger;
      SendKeepsSupply(saved, Nobody, t.owner, FEE_COLLECTOR, CET, fee);
      ok := bank.DeductFee(t.owner, fee);
      if !ok { return; }
      ghost var charged := bank.ledger;
      SupplyKeepsAccount(tokens, saved, charged, locks.locked);
      if t.owner in rules.blacklisted || t.symbol in tokens || !MayName(t, tokens, rules) {
        bank.ledger := saved;
        return false;
      }
      var made;
      ok, made := NewToken(t);
      assert ok;
      NothingLocked(tokens, locks.sendLock, charged, locks.locked, t.symbol);
      SupplyIsNatural(t);
      MintTo(t.owner, t.symbol, t.totalSupply);
      ResizeKeepsAccount(tokens, charged, bank.ledger, locks.locked, t.symbol, t.owner, t.totalSupply, made);
      locks.sendLock := locks.sendLock[t.symbol := 0];
      StillListed(tokens, banned, whitelist, t.symbol, made);
      tokens := tokens[t.symbol := made];
      Publish();
    }

    method CheckPrecondition(symbol: Denom, owner: Addr) returns (ok: bool)
      ensures ok == (symbol in tokens && tokens[symbol].owner == owner)
    {
      if symbol !in tokens { return false; }
      ok := tokens[symbol].owner == owner;
    }

    method TransferOwnership(symbol: Denom, originalOwner: Addr, newOwner: Addr, rules: AssetRules) returns (ok: bool)
      requires Valid()
      modifies this`tokens, bank`forbidden
      ensures Valid()
      ensures ok == (newOwner !in rules.blacklisted && newOwner != "" && symbol in old(tokens)
                     && old(tokens)[symbol].owner == originalOwner)
      ensures tokens == if ok then old(tokens)[symbol := old(tokens)[symbol].(owner := newOwner)] else old(tokens)
    {
      hide SupplyExists, ValidateTokenSymbol, Listed, IssuerRules;
      if newOwner in rules.blacklisted { return false; }
      ok := CheckPrecondition(symbol, originalOwner);
      if !ok { return; }
      var token := new BaseToken(tokens[symbol]);
      ok := token.SetOwner(newOwner);
      if !ok { return; }
      SameTotal(tokens, bank.ledger, locks.locked, symbol, token.t);
      StillListed(tokens, banned, whitelist, symbol, token.t);
      tokens := tokens[symbol := token.t];
      Publish();
    }

    method HandleMsgMintToken(symbol: Denom, owner: Addr, amount: int) returns (ok: bool)
      requires Valid() && amount > 0
      modifies this`tokens, bank`ledger
      ensures Valid() && bank.ledger.frozen == old(bank.ledger).frozen && bank.ledger.known == old(bank.ledger).known
      ensures ok == (symbol in old(tokens) && old(tokens)[symbol].owner == owner && old(tokens)[symbol].mintable)
      ensures ok ==>
              Resized(old(bank.ledger), bank.ledger, symbol, owner, amount)
                  && tokens == old(tokens)[symbol := MoreOf(old(tokens)[symbol], amount)]
      ensures !ok ==> tokens == old(tokens) && bank.ledger == old(bank.ledger)
    {
      hide SupplyExists, Resized, ValidateTokenSymbol, Listed, IssuerRules;
      ok := CheckPrecondition(symbol, owner);
      if !ok { return; }
      var token := new BaseToken(tokens[symbol]);
      if !token.t.mintable { return false; }
      ok := token.SetTotalMint(token.t.totalMint + amount);
      if !ok { return; }
      ok := token.SetTotalSupply(token.t.totalSupply + amount);
      if !ok { return; }
      ghost var before := bank.ledger;
      MintTo(owner, symbol, amount);
      ResizeKeepsAccount(tokens, before, bank.ledger, locks.locked, symbol, owner, amount, token.t);
      StillListed(tokens, banned, whitelist, symbol, token.t);
      SameRules(tokens, banned, whitelist, symbol, token.t);
      tokens := tokens[symbol := token.t];
    }

    /** Burning never takes the last coin: a token's supply stays positive. */
    method HandleMsgBurnToken(symbol: Denom, owner: Addr, amount: int) returns (ok: bool)
      requires Valid() && amount > 0
      modifies this`tokens, bank`ledger
      ensures Valid() && bank.ledger.frozen == old(bank.ledger).frozen && bank.ledger.known == old(bank.ledger).known
      ensures ok == (symbol in old(tokens) && old(tokens)[symbol].owner == owner && old(tokens)[symbol].burnable
                     && amount <= Bal(old(bank.ledger).coins, Acct(owner, symbol))
                     && amount < old(tokens)[symbol].totalSupply)
      ensures ok ==>
              Resized(old(bank.ledger), bank.ledger, symbol, owner, -amount)
                  && tokens == old(tokens)[symbol := LessOf(old(tokens)[symbol], amount)]
      ensures !ok ==> tokens == old(tokens) && bank.ledger == old(bank.ledger)
    {
      hide SupplyExists, Resized, ValidateTokenSymbol, Listed, IssuerRules;
      var saved := bank.ledger;
      ok := BurnFrom(owner, symbol, amount);
      if !ok { return; }
      ok := CheckPrecondition(symbol, owner);
      if !ok {
        bank.ledger := saved;
        return;
      }
      var token := new BaseToken(tokens[symbol]);
      if !token.t.burnable {
        bank.ledger := saved;
        return false;
      }
      ok := token.SetTotalBurn(token.t.totalBurn + amount);
      if ok { ok := token.SetTotalSupply(token.t.totalSupply - amount); }
      if !ok {
        bank.ledger := saved;
        return;
      }
      ResizeKeepsAccount(tokens, saved, bank.ledger, locks.locked, symbol, owner, -amount, token.t);
      StillListed(tokens, banned, whitelist, symbol, token.t);
      SameRules(tokens, banned, whitelist, symbol, token.t);
      tokens := tokens[symbol := token.t];
    }

    /** Forbids a token everywhere, or lifts that. */
    method SetForbidden(symbol: Denom, owner: Addr, forbid: bool) returns (ok: bool)
      requires Valid()
      modifies this`tokens, bank`forbidden
      ensures Valid()
      ensures ok == (symbol in old(tokens) && old(tokens)[symbol].owner == owner && old(tokens)[symbol].tokenForbiddable
                     && old(tokens)[symbol].isForbidden == !forbid)
      ensures tokens == if ok then old(tokens)[symbol := old(tokens)[symbol].(isForbidden := forbid)] else old(tokens)
    {
      hide SupplyExists, ValidateTokenSymbol, Listed, IssuerRules;
      ok := CheckPrecondition(symbol, owner);
      if !ok { return; }
      var token := new BaseToken(tokens[symbol]);
      if !token.t.tokenForbiddable { return false; }
      if token.t.isForbidden == forbid { return false; }
      token.t := token.t.(isForbidden := forbid);
      SameTotal(tokens, bank.ledger, locks.locked, symbol, token.t);
      StillListed(tokens, banned, whitelist, symbol, token.t);
      tokens := tokens[symbol := token.t];
      Publish();
    }

    method AddForbiddenAddress(symbol: Denom, addresses: seq<Addr>)
      modifies this`banned
      ensures banned == old(banned) + Entries(symbol, addresses)
    {
      for i := 0 to |addresses|
        invariant banned == old(banned) + Entries(symbol, addresses[..i])
      {
        OneMoreEntry(symbol, addresses, i);
        if addresses[i] == "" { continue; }
        banned := banned + {(symbol, addresses[i])};
      }
      assert addresses[..|addresses|] == addresses;
    }

    method RemoveForbiddenAddress(symbol: Denom, addresses: seq<Addr>)
      modifies this`banned
      ensures banned == old(banned) - Entries(symbol, addresses)
    {
      for i := 0 to |addresses|
        invariant banned == old(banned) - Entries(symbol, addresses[..i])
      {
        OneMoreEntry(symbol, addresses, i);
        if addresses[i] == "" { continue; }
        banned := banned - {(symbol, addresses[i])};
      }
      assert addresses[..|addresses|] == addresses;
    }

    method AddWhitelist(symbol: Denom, addresses: seq<Addr>)
      modifies this`whitelist
      ensures whitelist == old(whitelist) + Entries(symbol, addresses)
    {
      for i := 0 to |addresses|
        invariant whitelist == old(whitelist) + Entries(symbol, addresses[..i])
      {
        OneMoreEntry(symbol, addresses, i);
        if addresses[i] == "" { continue; }
        whitelist := whitelist + {(symbol, addresses[i])};
      }
      assert addresses[..|addresses|] == addresses;
    }

    method RemoveWhitelist(symbol: Denom, addresses: seq<Addr>)
      modifies this`whitelist
      ensures whitelist == old(whitelist) - Entries(symbol, addresses)
    {
      for i := 0 to |addresses|
        invariant whitelist == old(whitelist) - Entries(symbol, addresses[..i])
      {
        OneMoreEntry(symbol, addresses, i);
        if addresses[i] == "" { continue; }
        whitelist := whitelist - {(symbol, addresses[i])};
      }
      assert addresses[..|addresses|] == addresses;
    }

    method GetForbiddenAddresses(symbol: Denom) returns (addresses: seq<Addr>)
      ensures forall a :: a in addresses <==> (symbol, a) in banned
    {
      addresses := [];
      var left := set e | e in banned && e.0 == symbol;
      while left != {}
        invariant forall a :: (symbol, a) in banned <==> a in addresses || (symbol, a) in left
        invariant forall e | e in left :: e.0 == symbol
        decreases |left|
      {
        var e :| e in left;
        assert e == (symbol, e.1);
        addresses := addresses + [e.1];
        left := left - {e};
      }
    }

    method ClearForbiddenAddresses(symbol: Denom)
      requires Listed(tokens, banned, whitelist)
      modifies this`banned
      ensures banned == Cleared(old(banned), symbol)
    {
      var blackList := GetForbiddenAddresses(symbol);
      RemoveForbiddenAddress(symbol, blackList);
    }

    /** Puts addresses on a token's list, or takes them off it. */
    method SetAddressesForbidden(symbol: Denom, owner: Addr, addresses: seq<Addr>, forbid: bool) returns (ok: bool)
      requires Valid()
      modifies this`banned, bank`forbidden
      ensures Valid()
      ensures ok == (symbol in tokens && tokens[symbol].owner == owner && tokens[symbol].addrForbiddable)
      ensures banned == if !ok then old(banned) else if forbid then old(banned) + Entries(symbol, addresses)
      else old(banned) - Entries(symbol, addresses)
    {
      hide SupplyExists, Counted, AllValid, IssuerRules;
      ok := CheckPrecondition(symbol, owner);
      if !ok { return; }
      if !tokens[symbol].addrForbiddable { return false; }
      if forbid { AddForbiddenAddress(symbol, addresses); } else { RemoveForbiddenAddress(symbol, addresses); }
      Publish();
    }

    /** Puts addresses on a token's whitelist, or takes them off it. */
    method SetWhitelisted(symbol: Denom, owner: Addr, addresses: seq<Addr>, add: bool) returns (ok: bool)
      requires Valid()
      modifies this`whitelist, bank`forbidden
      ensures Valid()
      ensures ok == (symbol in tokens && tokens[symbol].owner == owner && tokens[symbol].tokenForbiddable)
      ensures whitelist == if !ok then old(whitelist) else if add then old(whitelist) + Entries(symbol, addresses)
      else old(whitelist) - Entries(symbol, addresses)
    {
      hide SupplyExists, Counted, AllValid, IssuerRules;
      ok := CheckPrecondition(symbol, owner);
      if !ok { return; }
      if !tokens[symbol].tokenForbiddable { return false; }
      if add { AddWhitelist(symbol, addresses); } else { RemoveWhitelist(symbol, addresses); }
      Publish();
    }

    /** Changes a token's record. While its owner still has all of it, the supply may change too,
        and coins are made or burnt to match. When its addresses can no longer be forbidden, its list
        of them is cleared. */
    method ModifyTokenInfo(symbol: Denom, owner: Addr, to: Token) returns (ok: bool)
      requires Valid()
      modifies this`tokens, this`banned, bank`ledger, bank`forbidden
      ensures Valid() && bank.ledger.frozen == old(bank.ledger).frozen && bank.ledger.known == old(bank.ledger).known
      ensures ok == MayModify(old(tokens), old(bank.ledger), locks.locked, symbol, owner, to)
      ensures ok ==> tokens == old(tokens)[symbol := Modified(old(tokens)[symbol], to)]
      ensures ok && to.totalSupply != old(tokens)[symbol].totalSupply ==>
                Resized(old(bank.ledger), bank.ledger, symbol, owner, to.totalSupply - old(tokens)[symbol].totalSupply)
      ensures ok && to.totalSupply == old(tokens)[symbol].totalSupply ==> bank.ledger == old(bank.ledger)
      ensures banned == if ok && old(tokens)[symbol].addrForbiddable
              && !to.addrForbiddable then Cleared(old(banned), symbol) else old(banned)
      ensures !ok ==> tokens == old(tokens) && bank.ledger == old(bank.ledger)
    {
      hide SupplyExists, Counted, Resized, ValidateTokenSymbol, Validate, Sealed, WithFlags, OwnerAmount, TextsFit,
           AllValid, Listed, IssuerRules, Cleared;
      ok := CheckPrecondition(symbol, owner);
      if !ok { return; }
      var was := tokens[symbol];
      assert was.symbol == symbol && Validate(was) && |was.name| <= MAX_NAME by { ValidRecord(tokens, symbol); }
      var token := new BaseToken(was);
      ok := ModifyTexts(token, to);
      if !ok { return; }
      var ownerAmt := OwnerAmount(bank.ledger, locks.locked, owner, symbol);
      var distributed := ownerAmt != was.totalSupply;
      if Sealed(was, to, distributed) { return false; }
      SealedSupply(was, to, distributed);
      ok := token.SetName(to.name);
      if !ok { return; }
      ghost var before := bank.ledger;
      ok := ModifySupply(token, owner, to.totalSupply, ownerAmt);
      if !ok { return; }
      ModifyFlags(token, to);
      ModifiedIsValid(was, to);
      if to.totalSupply == was.totalSupply {
        SameTotal(tokens, bank.ledger, locks.locked, symbol, token.t);
      } else {
        ResizedOnly(before, bank.ledger, symbol, owner, to.totalSupply - was.totalSupply);
        assert TotalSupplyOf(tokens, symbol) == was.totalSupply;
        ResizeKeepsAccount(tokens, before, bank.ledger, locks.locked, symbol, owner, to.totalSupply - was.totalSupply,
                           token.t);
      }
      Record(symbol, token.t);
    }

    /** The changed record; without the flag for it, the list of forbidden addresses is cleared. */
    method Record(symbol: Denom, t: Token)
      requires locks.bank == bank && AllValid(tokens) && Validate(t) && t.symbol == symbol && symbol in tokens
      requires SupplyExists(tokens[symbol := t], bank.ledger, locks.locked) && Counted(locks.sendLock, locks.locked)
               && Listed(tokens, banned, whitelist)
      modifies this`tokens, this`banned, bank`forbidden
      ensures Valid() && tokens == old(tokens)[symbol := t]
      ensures banned == if old(tokens)[symbol].addrForbiddable && !t.addrForbiddable then Cleared(old(banned), symbol)
      else old(banned)
    {
      hide SupplyExists, Counted, Validate, AllValid, Listed, IssuerRules, Cleared;
      StillValid(tokens, symbol, t);
      if !t.addrForbiddable && tokens[symbol].addrForbiddable { ClearForbiddenAddresses(symbol); }
      ListedAfter(tokens, old(banned), whitelist, symbol, t);
      tokens := tokens[symbol := t];
      Publish();
    }

    /** A new supply, with coins made for it or burnt. */
    method ModifySupply(token: BaseToken, owner: Addr, totalSupply: int, ownerAmt: int) returns (ok: bool)
      requires token.t.totalSupply != totalSupply ==> ownerAmt == token.t.totalSupply
      modifies token, bank`ledger
      ensures ok == (totalSupply == old(token.t).totalSupply
                     || (totalSupply > 0 && ownerAmt - totalSupply <= Bal(old(bank.ledger).coins,
                           Acct(owner, old(token.t).symbol))))
      ensures ok ==> token.t == old(token.t).(totalSupply := totalSupply)
      ensures ok && totalSupply != old(token.t).totalSupply ==>
                Resized(old(bank.ledger), bank.ledger, token.t.symbol, owner, totalSupply - old(token.t).totalSupply)
      ensures !ok || totalSupply == old(token.t).totalSupply ==> bank.ledger == old(bank.ledger)
    {
      hide Resized;
      if totalSupply != token.t.totalSupply {
        ok := token.SetTotalSupply(totalSupply);
        if !ok { return; }
        if totalSupply > ownerAmt {
          MintTo(owner, token.t.symbol, totalSupply - ownerAmt);
        } else {
          ok := BurnFrom(owner, token.t.symbol, ownerAmt - totalSupply);
        }
      } else {
        ok := true;
      }
    }
  }

  method ModifyTexts(token: BaseToken, to: Token) returns (ok: bool)
    modifies token
    requires Validate(token.t)
    ensures ok ==> token.t == old(token.t).(url := to.url, description := to.description, identity := to.identity)
    ensures ok == TextsFit(to)
  {
    hide ValidateTokenSymbol;
    if to.url != token.t.url {
      ok := token.SetURL(to.url);
      if !ok { return; }
    }
    if to.description != token.t.description {
      ok := token.SetDescription(to.description);
      if !ok { return; }
    }
    if to.identity != token.t.identity {
      ok := token.SetIdentity(to.identity);
      if !ok { return; }
    }
    ok := true;
  }

  /** The flags; switching one off clears what only made sense with it. */
  method ModifyFlags(token: BaseToken, to: Token)
    modifies token
    ensures token.t == WithFlags(old(token.t), to)
  {
    hide WithMintable, WithBurnable;
    SetMintable(token, to.mintable);
    SetBurnable(token, to.burnable);
    token.t := token.t.(addrForbiddable := to.addrForbiddable);
    if to.tokenForbiddable != token.t.tokenForbiddable {
      token.t := token.t.(tokenForbiddable := to.tokenForbiddable);
      if !to.tokenForbiddable { token.t := token.t.(isForbidden := false); }
    }
  }

  method SetMintable(token: BaseToken, on: bool)
    modifies token
    ensures token.t == WithMintable(old(token.t), on)
  {
    if on != token.t.mintable {
      token.t := token.t.(mintable := on);
      if !on { var _ := token.SetTotalMint(0); }
    }
  }

  method SetBurnable(token: BaseToken, on: bool)
    modifies token
    ensures token.t == WithBurnable(old(token.t), on)
  {
    if on != token.t.burnable {
      token.t := token.t.(burnable := on);
      if !on { var _ := token.SetTotalBurn(0); }
    }
  }

  function WithMintable(t: Token, on: bool): Token
  {
    t.(mintable := on, totalMint := if t.mintable && !on then 0 else t.totalMint)
  }

  function WithBurnable(t: Token, on: bool): Token
  {
    t.(burnable := on, totalBurn := if t.burnable && !on then 0 else t.totalBurn)
  }

  lemma ValidRecord(tokens: TokenMap, s: Denom)
    requires AllValid(tokens) && s in tokens
    ensures Validate(tokens[s]) && tokens[s].symbol == s && |tokens[s].name| <= MAX_NAME
  {
    hide ValidateTokenSymbol;
  }

  lemma StillValid(tokens: TokenMap, s: Denom, t: Token)
    requires AllValid(tokens) && Validate(t) && t.symbol == s
    ensures AllValid(tokens[s := t])
  {
    hide Validate;
  }

  lemma SealedSupply(t: Token, to: Token, distributed: bool)
    requires !Sealed(t, to, distributed)
    ensures to.totalSupply != t.totalSupply ==> !distributed
  {
  }

  lemma ResizedOnly(l: Ledger, m: Ledger, d: Denom, owner: Addr, n: int)
    requires Resized(l, m, d, owner, n)
    ensures m.frozen == l.frozen && m.known == l.known
  {
  }

  function WithFlags(t: Token, to: Token): Token
  {
    var u := WithBurnable(WithMintable(t, to.mintable), to.burnable).(addrForbiddable := to.addrForbiddable);
    u.(tokenForbiddable := to.tokenForbiddable, isForbidden := if u.tokenForbiddable && !to.tokenForbiddable then false
       else u.isForbidden)
  }

  function Modified(t: Token, to: Token): Token
  {
    WithFlags(t.(url := to.url, description := to.description, identity := to.identity, name := to.name,
                 totalSupply := to.totalSupply), to)
  }

  lemma ModifiedIsValid(t: Token, to: Token)
    requires Validate(t) && (to.totalSupply == t.totalSupply || to.totalSupply > 0) && |to.name| <= MAX_NAME
             && TextsFit(to)
    ensures Validate(Modified(t, to)) && Modified(t, to).symbol == t.symbol
            && Modified(t, to).totalSupply == to.totalSupply
    ensures Modified(t, to).addrForbiddable == to.addrForbiddable
  {
    hide ValidateTokenSymbol;
  }

  /** A changed record has every field of the new one that an owner may set, keeps its symbol and
      its owner, and forgets what a right that it gives up had led to. */
  lemma ModifiedRecord(t: Token, to: Token)
    requires Validate(t)
    ensures var u := Modified(t, to);
            && u.symbol == t.symbol && u.owner == t.owner && u.name == to.name && u.totalSupply == to.totalSupply
            && u.url == to.url && u.description == to.description && u.identity == to.identity
            && u.mintable == to.mintable && u.totalMint == (if to.mintable then t.totalMint else 0)
            && u.burnable == to.burnable && u.totalBurn == (if to.burnable then t.totalBurn else 0)
            && u.addrForbiddable == to.addrForbiddable && u.tokenForbiddable == to.tokenForbiddable
            && u.isForbidden == (t.isForbidden && to.tokenForbiddable)
  {
    hide ValidateTokenSymbol;
  }

  /** Minting and burning change the total by what they are counted for, and undo each other in it. */
  lemma ResizesAreCounted(t: Token, amount: int)
    ensures MoreOf(t, amount).totalSupply - MoreOf(t, amount).totalMint == t.totalSupply - t.totalMint
    ensures LessOf(t, amount).totalSupply + LessOf(t, amount).totalBurn == t.totalSupply + t.totalBurn
    ensures MoreOf(t, amount).totalSupply == t.totalSupply + amount
    ensures LessOf(MoreOf(t, amount), amount).totalSupply == t.totalSupply
  {
  }

  /** What may no longer be changed once coins have left the owner. */
  predicate Sealed(t: Token, to: Token, distributed: bool)
  {
    distributed && (to.name != t.name || to.totalSupply != t.totalSupply || (to.mintable && !t.mintable)
                    || (!to.burnable && t.burnable)
                    || (to.addrForbiddable && !t.addrForbiddable) || (to.tokenForbiddable && !t.tokenForbiddable))
  }

  /** All that an account has of a denomination: spendable, frozen and locked. */
  function OwnerAmount(l: Ledger, locked: Locks, a: Addr, d: Denom): int
  {
    Bal(l.coins, Acct(a, d)) + Bal(l.frozen, Acct(a, d)) + AmountOf(CoinsOf(locked, a), d)
  }

  lemma SumHoldsTwo(m: map<Acct, nat>, d: Denom, a: Addr, b: Addr)
    requires a != b
    ensures Sum<Acct, nat>(m, InDenom(d)) >= Bal(m, Acct(a, d)) + Bal(m, Acct(b, d))
  {
    var k, j := Acct(a, d), Acct(b, d);
    SumNonNegative<Acct, nat>(m, InDenom(d));
    if k in m && j in m {
      SumAtLeastTwo<Acct, nat>(m, InDenom(d), k, j);
    } else if k in m {
      SumAtLeast<Acct, nat>(m, InDenom(d), k);
    } else if j in m {
      SumAtLeast<Acct, nat>(m, InDenom(d), j);
    }
  }

  lemma LockedHoldsTwo(locked: Locks, d: Denom, a: Addr, b: Addr)
    requires a != b
    ensures TotalLocked(locked, d) >= AmountOf(CoinsOf(locked, a), d) + AmountOf(CoinsOf(locked, b), d)
  {
    forall i | i in locked ensures LocksIn(d)(i, locked[i]) >= 0 { AmountNonNegative(locked[i], d); }
    SumNonNegative(locked, LocksIn(d));
    if a in locked && b in locked {
      SumAtLeastTwo(locked, LocksIn(d), a, b);
    } else if a in locked {
      SumAtLeast(locked, LocksIn(d), a);
    } else if b in locked {
      SumAtLeast(locked, LocksIn(d), b);
    }
  }

  /** What the code calls a token that is not distributed: if its owner has all of its total supply,
      nobody else has any, be it spendable, frozen or locked. */
  lemma UndistributedHasOneHolder(tokens: TokenMap, l: Ledger, locked: Locks, d: Denom, owner: Addr, other: Addr)
    requires SupplyExists(tokens, l, locked) && d in tokens && OwnerAmount(l, locked, owner, d) == tokens[d].totalSupply
             && other != owner
    ensures OwnerAmount(l, locked, other, d) == 0
  {
    hide Sum, AmountOf, InDenom;
    assert TotalSupplyOf(tokens, d) == Worth(l, locked, d);
    SumHoldsTwo(l.coins, d, owner, other);
    SumHoldsTwo(l.frozen, d, owner, other);
    LockedHoldsTwo(locked, d, owner, other);
    AmountNonNegative(CoinsOf(locked, other), d);
  }

  predicate TextsFit(t: Token)
  {
    |t.url| <= MAX_URL && |t.description| <= MAX_DESCRIPTION && 0 < |t.identity| <= MAX_IDENTITY
  }

  /** When a token's owner may change its record to `to`: nothing sealed changes, and coins that a
      smaller supply takes away are there to be spent. */
  predicate MayModify(tokens: TokenMap, l: Ledger, locked: Locks, symbol: Denom, owner: Addr, to: Token)
  {
    && symbol in tokens && tokens[symbol].owner == owner && TextsFit(to) && |to.name| <= MAX_NAME
    && !Sealed(tokens[symbol], to, OwnerAmount(l, locked, owner, symbol) != tokens[symbol].totalSupply)
    && (to.totalSupply == tokens[symbol].totalSupply
        || (to.totalSupply > 0 && tokens[symbol].totalSupply - to.totalSupply <= Bal(l.coins, Acct(owner, symbol))))
  }

  /** As long as anybody but the owner has any of a token, no change of its record renames it,
      changes its total supply, adds the right to mint it or to forbid it, or takes away the right
      to burn it. */
  lemma HoldersAreProtected(tokens: TokenMap, l: Ledger, locked: Locks, symbol: Denom, owner: Addr, to: Token,
                            holder: Addr)
    requires SupplyExists(tokens, l, locked) && MayModify(tokens, l, locked, symbol, owner, to) && holder != owner
    requires OwnerAmount(l, locked, holder, symbol) > 0
    ensures var t, u := tokens[symbol], Modified(tokens[symbol], to);
            && u.name == t.name && u.totalSupply == t.totalSupply && u.owner == t.owner && u.symbol == t.symbol
            && (u.mintable ==> t.mintable) && (t.burnable ==> u.burnable)
            && (u.addrForbiddable ==> t.addrForbiddable) && (u.tokenForbiddable ==> t.tokenForbiddable)
  {
    hide OwnerAmount, SupplyExists;
    if OwnerAmount(l, locked, owner, symbol) == tokens[symbol].totalSupply {
      UndistributedHasOneHolder(tokens, l, locked, symbol, owner, holder);
    }
  }

  function MoreOf(t: Token, amount: int): Token
  {
    t.(totalSupply := t.totalSupply + amount, totalMint := t.totalMint + amount)
  }

  function LessOf(t: Token, amount: int): Token
  {
    t.(totalSupply := t.totalSupply - amount, totalBurn := t.totalBurn + amount)
  }

  predicate IsSuffixSymbol(symbol: Denom) { '.' in symbol }

  /** Reserved and dotted symbols are for the owner of CET. */
  predicate MayName(t: Token, tokens: TokenMap, rules: AssetRules)
  {
    (t.symbol in rules.reserved && t.symbol != CET) || IsSuffixSymbol(t.symbol) ==>
        CET in tokens && tokens[CET].owner == t.owner
  }

  predicate MayIssue(t: Token, tokens: TokenMap, rules: AssetRules)
  {
    t.owner !in rules.blacklisted && t.symbol !in tokens && MayName(t, tokens, rules)
  }

  lemma SupplyIsNatural(t: Token)
    requires ValidFields(t)
    ensures t.totalSupply >= 0
  {
  }

  lemma WorthKeepsAccount(tokens: TokenMap, l: Ledger, locked: Locks, m: Ledger, locked': Locks)
    requires SupplyExists(tokens, l, locked) && SameWorth(l, locked, m, locked')
    ensures SupplyExists(tokens, m, locked')
  {
    forall d ensures TotalSupplyOf(tokens, d) == Worth(m, locked', d) {
      assert TotalSupplyOf(tokens, d) == Worth(l, locked, d);
    }
  }

  lemma SupplyKeepsAccount(tokens: TokenMap, l: Ledger, m: Ledger, locked: Locks)
    requires SupplyExists(tokens, l, locked) && SameSupply(l, m)
    ensures SupplyExists(tokens, m, locked)
  {
    forall d ensures TotalSupplyOf(tokens, d) == Worth(m, locked, d) {
      assert TotalSupplyOf(tokens, d) == Worth(l, locked, d);
    }
  }
}
