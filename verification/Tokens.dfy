/** A token's record: checked setters, and what makes a record valid. */
module Tokens {
  import opened Ledgers
  import opened Orders
  import opened StoreKeys

  const MAX_NAME: nat := 32
  const MAX_URL: nat := 100
  const MAX_DESCRIPTION: nat := 1024
  const MAX_IDENTITY: nat := 3000

  /** A record as it is stored. How much of the token is locked is counted elsewhere. */
  datatype Token = Token(
    name: string, symbol: Denom, totalSupply: int, owner: Addr, mintable: bool, burnable: bool, addrForbiddable: bool,
    tokenForbiddable: bool, totalBurn: int, totalMint: int, isForbidden: bool, url: string, description: string,
    identity: string)

  predicate IsLetter(c: char) { 'a' <= c <= 'z' }

  predicate IsAlphanumeric(c: char) { IsLetter(c) || '0' <= c <= '9' }

  predicate IsWord(s: string, low: nat, high: nat)
  {
    low <= |s| <= high && (|s| > 0 ==> IsLetter(s[0])) && forall i | 0 <= i < |s| :: IsAlphanumeric(s[i])
  }

  /** Two to sixteen letters and digits, or two to fourteen and a dot and a letter. */
  predicate ValidateTokenSymbol(s: string)
  {
    IsWord(s, 2, 16) || (|s| >= 2 && s[|s| - 2] == '.' && IsLetter(s[|s| - 1]) && IsWord(s[..|s| - 2], 2, 14))
  }

  /** A valid symbol is plain text: it can stand in a market's symbol and in store keys. */
  lemma ValidSymbolIsPlain(stock: Denom, money: Denom)
    requires ValidateTokenSymbol(stock) && ValidateTokenSymbol(money)
    ensures '/' !in stock && '/' !in money && ZeroFree(GetSymbol(stock, money))
  {
    PlainCharacters(stock);
    PlainCharacters(money);
  }

  lemma PlainCharacters(s: string)
    requires ValidateTokenSymbol(s)
    ensures forall i | 0 <= i < |s| :: IsAlphanumeric(s[i]) || s[i] == '.'
  {
    if !IsWord(s, 2, 16) {
      forall i | 0 <= i < |s| ensures IsAlphanumeric(s[i]) || s[i] == '.' {
        if i < |s| - 2 { assert s[i] == s[..|s| - 2][i]; }
      }
    }
  }

  /** The checks of the setters, all together. */
  predicate ValidFields(t: Token)
  {
    && |t.name| <= MAX_NAME && t.owner != "" && ValidateTokenSymbol(t.symbol) && t.totalSupply > 0
    && |t.url| <= MAX_URL && |t.description| <= MAX_DESCRIPTION && 0 < |t.identity| <= MAX_IDENTITY
  }

  predicate Validate(t: Token)
  {
    && ValidFields(t) && t.totalBurn >= 0 && t.totalMint >= 0
    && (t.isForbidden ==> t.tokenForbiddable) && (t.totalMint > 0 ==> t.mintable) && (t.totalBurn > 0 ==> t.burnable)
  }

  /** A record in the making; every setter refuses what the record may not hold. */
  class BaseToken {
    var t: Token

    constructor (t: Token)
      ensures this.t == t
    {
      this.t := t;
    }

    method SetName(name: string) returns (ok: bool)
      modifies this
      ensures ok == (|name| <= MAX_NAME) && t == if ok then old(t).(name := name) else old(t)
    {
      ok := |name| <= MAX_NAME;
      if ok { t := t.(name := name); }
    }

    method SetSymbol(symbol: string) returns (ok: bool)
      modifies this
      ensures ok == ValidateTokenSymbol(symbol) && t == if ok then old(t).(symbol := symbol) else old(t)
    {
      ok := ValidateTokenSymbol(symbol);
      if ok { t := t.(symbol := symbol); }
    }

    method SetTotalSupply(amt: int) returns (ok: bool)
      modifies this
      ensures ok == (amt > 0) && t == if ok then old(t).(totalSupply := amt) else old(t)
    {
      ok := amt > 0;
      if ok { t := t.(totalSupply := amt); }
    }

    method SetOwner(addr: Addr) returns (ok: bool)
      modifies this
      ensures ok == (addr != "") && t == if ok then old(t).(owner := addr) else old(t)
    {
      ok := addr != "";
      if ok { t := t.(owner := addr); }
    }

    method SetURL(url: string) returns (ok: bool)
      modifies this
      ensures ok == (|url| <= MAX_URL) && t == if ok then old(t).(url := url) else old(t)
    {
      ok := |url| <= MAX_URL;
      if ok { t := t.(url := url); }
    }

    method SetDescription(description: string) returns (ok: bool)
      modifies this
      ensures ok == (|description| <= MAX_DESCRIPTION) && t == if ok then old(t).(description := description)
      else old(t)
    {
      ok := |description| <= MAX_DESCRIPTION;
      if ok { t := t.(description := description); }
    }

    method SetIdentity(identity: string) returns (ok: bool)
      modifies this
      ensures ok == (0 < |identity| <= MAX_IDENTITY) && t == if ok then old(t).(identity := identity) else old(t)
    {
      ok := |identity| <= MAX_IDENTITY && identity != "";
      if ok { t := t.(identity := identity); }
    }

    method SetTotalBurn(amt: int) returns (ok: bool)
      modifies this
      ensures ok == (amt >= 0) && t == if ok then old(t).(totalBurn := amt) else old(t)
    {
      ok := amt >= 0;
      if ok { t := t.(totalBurn := amt); }
    }

    method SetTotalMint(amt: int) returns (ok: bool)
      modifies this
      ensures ok == (amt >= 0) && t == if ok then old(t).(totalMint := amt) else old(t)
    {
      ok := amt >= 0;
      if ok { t := t.(totalMint := amt); }
    }
  }

  /** Builds a fresh record step by step: it is built exactly when every setter accepts its part. */
  method NewToken(t: Token) returns (ok: bool, made: Token)
    ensures ok == ValidFields(t)
    ensures ok ==> made == t.(totalBurn := 0, totalMint := 0, isForbidden := false) && Validate(made)
  {
    hide ValidateTokenSymbol;
    var b := new BaseToken(Token("", "", 0, "", false, false, false, false, 0, 0, false, "", "", ""));
    made := t;
    ok := b.SetName(t.name);
    if !ok { return; }
    ok := b.SetOwner(t.owner);
    if !ok { return; }
    ok := b.SetSymbol(t.symbol);
    if !ok { return; }
    ok := b.SetTotalSupply(t.totalSupply);
    if !ok { return; }
    ok := b.SetURL(t.url);
    if !ok { return; }
    ok := b.SetDescription(t.description);
    if !ok { return; }
    ok := b.SetIdentity(t.identity);
    if !ok { return; }
    b.t := b.t.(mintable := t.mintable, burnable := t.burnable, addrForbiddable := t.addrForbiddable,
                tokenForbiddable := t.tokenForbiddable);
    ok := b.SetTotalMint(0);
    if !ok { return; }
    ok := b.SetTotalBurn(0);
    if !ok { return; }
    b.t := b.t.(isForbidden := false);
    made := b.t;
  }
}
