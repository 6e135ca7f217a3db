/** What a new order freezes: the exact price, the money for the whole quantity, and the fees. */
module OrderEntry {
  import opened Auction
  import opened ByteKeys
  import opened Decimals
  import opened Ledgers
  import opened Orders
  import opened Closing
  import opened OrderStore
  import opened Overlays
  import opened Settlement
  import opened StoreKeys
  import opened Sums
  import CallAuction

  const MAX_PRECISION: nat := 18
  const MARKET_FEE_RATE_BASE: int := 10_000

  datatype MsgCreateOrder = MsgCreateOrder(
    sender: Addr, identify: nat, symbol: string, pricePrecision: nat, price: int, quantity: int, side: Side,
    timeInForce: TimeInForce, existBlocks: int)

  /** What a message satisfies before any handler sees it. */
  predicate ValidateBasic(m: MsgCreateOrder)
  {
    && m.identify < 256 && m.pricePrecision <= MAX_PRECISION && ZeroFree(m.symbol)
    && 0 < m.price <= MAX_INT64 && 0 < m.quantity <= MAX_INT64 && 0 <= m.existBlocks <= MAX_INT64
  }

  /** The parameters of the market module and the block they are read in. */
  datatype Params = Params(rules: FeeRules, feeRate: nat, feeMin: nat, featureFeeByBlocks: nat, maxChangeRatio: nat,
                           forbiddenTokens: set<Denom>)

  predicate ValidParams(params: Params)
  {
    ValidRules(params.rules) && 0 <= params.rules.height && params.rules.height + 1 < Pow256(HEIGHT_BYTES)
  }

  function Pow10(n: nat): nat
    ensures Pow10(n) > 0
  {
    if n == 0 then 1 else 10 * Pow10(n - 1)
  }

  function ActualPrice(m: MsgCreateOrder): Dec { Quo(NewDec(m.price), NewDec(Pow10(m.pricePrecision))) }

  lemma {:induction false} Pow10Divides(n: nat) returns (e: nat)
    requires n <= MAX_PRECISION
    ensures 0 < e && Pow10(n) * e == ONE
    decreases MAX_PRECISION - n
  {
    if n == MAX_PRECISION {
      assert Pow10(6) == 1_000_000;
      assert Pow10(12) == 1_000_000_000_000 by { assert Pow10(9) == 1000 * Pow10(6); }
      assert Pow10(18) == ONE by { assert Pow10(15) == 1000 * Pow10(12); }
      e := 1;
    } else {
      var f := Pow10Divides(n + 1);
      e := 10 * f;
      TenfoldMoves(Pow10(n), f);
    }
  }

  lemma TenfoldMoves(a: int, f: int)
    ensures a * (10 * f) == (10 * a) * f
  {
  }

  /** With up to 18 digits of precision the price is exact, and it is positive. */
  lemma PriceIsExact(m: MsgCreateOrder)
    requires ValidateBasic(m)
    ensures ActualPrice(m) * Pow10(m.pricePrecision) == NewDec(m.price)
    ensures 0 < ActualPrice(m) <= MAX_PRICE
  {
    hide Quo, Pow10;
    var d := Pow10(m.pricePrecision);
    var e := Pow10Divides(m.pricePrecision);
    QuotientOfParts(m.price, d, e);
    PartsMultiply(m.price, d, e);
  }

  lemma PartsMultiply(a: int, d: nat, e: nat)
    requires 0 < a && 0 < d && 0 < e && d * e == ONE
    ensures (a * e) * d == a * ONE && 0 < a * e <= a * ONE
  {
    assert (a * e) * d == a * (d * e);
    MulMonotone(1, e, a);
    MulMonotone(1, d, a * e);
  }

  lemma QuotientOfParts(a: int, d: nat, e: nat)
    requires 0 <= a && 0 < d && d * e == ONE
    ensures Quo(NewDec(a), NewDec(d)) == a * e
  {
    var n := a * e;
    assert n * d == a * ONE by { assert n * d == a * (d * e); }
    ScaledQuotient(a, d, n);
    MulMonotone(0, a, e);
  }

  lemma ScaledQuotient(a: int, d: nat, n: int)
    requires 0 <= a && 0 < d && 0 <= n && n * d == a * ONE
    ensures Quo(NewDec(a), NewDec(d)) == n
  {
    var q := n * ONE;
    assert NewDec(a) * (ONE * ONE) == q * NewDec(d) by { assert q * NewDec(d) == (n * d) * ONE * ONE; }
    DivCancel(q, NewDec(d));
    ChopExact(n);
  }

  /** The money for the whole quantity, rounded up to a coin, unless it is too much. */
  function CalculateAmount(m: MsgCreateOrder): Option<Dec>
  {
    var money := Ceil(Mul(ActualPrice(m), NewDec(m.quantity)));
    if money > NewDec(MAX_ORDER_AMOUNT) then None else Some(money)
  }

  function GetDenomAndOrderAmount(m: MsgCreateOrder): Option<(Denom, int)>
  {
    if m.side == Bid then
      match CalculateAmount(m)
      case None => None
      case Some(money) => if RoundInt(money) > MAX_ORDER_AMOUNT then None
      else Some((MoneyOf(m.symbol), RoundInt(money)))
    else if m.quantity > MAX_ORDER_AMOUNT then None
    else Some((StockOf(m.symbol), m.quantity))
  }

  /** The commission for a volume given in CET; an order whose money is too large has none. */
  function CalOrderCommission(m: MsgCreateOrder, volume: Dec, params: Params): Option<int>
  {
    if CalculateAmount(m) == None then None
    else
      var commission := RoundInt(Ceil(Mul(volume, QuoInt(NewDec(params.feeRate), MARKET_FEE_RATE_BASE))));
      if commission > MAX_ORDER_AMOUNT then None
      else Some(if commission < params.feeMin then params.feeMin else commission)
  }

  function CalFeatureFeeForExistBlocks(m: MsgCreateOrder, params: Params): int
  {
    if m.timeInForce == IOC || m.existBlocks < params.rules.freeBlocks then 0
    else
      var fee := (m.existBlocks - params.rules.freeBlocks) * params.featureFeeByBlocks;
      if fee > MAX_ORDER_AMOUNT then MAX_ORDER_AMOUNT else fee
  }

  function NewOrder(m: MsgCreateOrder, sequence: nat, params: Params, amount: int, frozenFee: int): Order
    requires ValidateBasic(m)
  {
    var existBlocks := if m.existBlocks == 0 && m.timeInForce == GTE then params.rules.freeBlocks else m.existBlocks;
    Order(Terms(AssemblyOrderID(m.sender, sequence, m.identify), m.sender, sequence, m.identify, m.symbol,
                ActualPrice(m), m.quantity,
                m.side, m.timeInForce, params.rules.height, existBlocks, frozenFee,
                CalFeatureFeeForExistBlocks(m, params)),
          m.quantity, amount, 0, 0)
  }

  lemma CeilOf(n: nat)
    ensures Ceil(n) % ONE == 0 && n <= Ceil(n) < n + ONE
  {
    var quo := n / ONE;
    assert NewDec(quo) % ONE == 0 && NewDec(quo + 1) % ONE == 0;
  }

  /** A buyer freezes the least whole number of coins that pays for the order at its limit. */
  lemma MoneyIsEnough(m: MsgCreateOrder)
    requires ValidateBasic(m) && CalculateAmount(m).Some?
    ensures var n := RoundInt(CalculateAmount(m).value);
            0 <= n <= MAX_ORDER_AMOUNT && (n - 1) * ONE < ActualPrice(m) * m.quantity <= n * ONE
  {
    hide ActualPrice, Mul, Ceil, RoundInt;
    var p, q := ActualPrice(m), m.quantity;
    PriceIsExact(m);
    MulMonotone(0, p, q);
    MulWhole(p, q);
    CeilRounds(p * q);
  }

  lemma MulWhole(p: Dec, q: int)
    ensures Mul(p, NewDec(q)) == p * q
  {
    assert p * NewDec(q) == (p * q) * ONE;
    ChopExact(p * q);
  }

  lemma CeilRounds(n: nat)
    ensures var k := RoundInt(Ceil(n)); Ceil(n) == k * ONE && 0 <= k && (k - 1) * ONE < n <= k * ONE
  {
    CeilOf(n);
    var c := Ceil(n);
    assert c == (c / ONE) * ONE;
    ChopExact(c / ONE);
  }

  /** An order is refused for its money exactly if its price times its quantity, both as they
      stand in the message, exceeds the largest amount. */
  lemma AmountTooLarge(m: MsgCreateOrder)
    requires ValidateBasic(m)
    ensures CalculateAmount(m).None? <==> m.price * m.quantity > MAX_ORDER_AMOUNT * Pow10(m.pricePrecision)
  {
    hide ActualPrice, Mul, Ceil, RoundInt, Pow10;
    var p, q, d := ActualPrice(m), m.quantity, Pow10(m.pricePrecision);
    PriceIsExact(m);
    MulMonotone(0, p, q);
    MulWhole(p, q);
    CeilRounds(p * q);
    ScaledCompare(p, q, d, m.price);
  }

  lemma ScaledCompare(p: Dec, q: int, d: nat, a: int)
    requires p * d == a * ONE && 0 < d
    ensures p * q > MAX_ORDER_AMOUNT * ONE <==> a * q > MAX_ORDER_AMOUNT * d
  {
    assert (p * q) * d == (a * q) * ONE by { assert (p * q) * d == (p * d) * q; }
    if p * q > MAX_ORDER_AMOUNT * ONE {
      MulMonotone(MAX_ORDER_AMOUNT * ONE + 1, p * q, d);
    } else {
      MulMonotone(p * q, MAX_ORDER_AMOUNT * ONE, d);
    }
  }

  const RATE_UNIT: int := 100_000_000_000_000

  /** A rate in ten-thousandths is an exact decimal. */
  lemma RateIsExact(rate: nat)
    ensures QuoInt(NewDec(rate), MARKET_FEE_RATE_BASE) == rate * RATE_UNIT
  {
  }

  /** Rounding of the product of a volume and a rate. */
  lemma VolumeTimesRate(v: Dec, rate: nat) returns (x: Dec)
    requires 0 <= v
    ensures 0 <= x == Mul(v, QuoInt(NewDec(rate), MARKET_FEE_RATE_BASE))
    ensures -MARKET_FEE_RATE_BASE <= 2 * (x * MARKET_FEE_RATE_BASE - v * rate) <= MARKET_FEE_RATE_BASE
    ensures v % ONE == 0 ==> x * MARKET_FEE_RATE_BASE == v * rate
  {
    hide Chop;
    RateIsExact(rate);
    MulMonotone(0, v, rate);
    assert v * (rate * RATE_UNIT) == (v * rate) * RATE_UNIT;
    ChopNear(v * rate * RATE_UNIT);
    x := Chop(v * rate * RATE_UNIT);
    if v % ONE == 0 {
      var n := v / ONE;
      assert v * rate * RATE_UNIT == (n * rate * RATE_UNIT) * ONE by { assert v == n * ONE; }
      ChopExact(n * rate * RATE_UNIT);
    }
  }

  lemma ShareBounds(x: Dec, w: int, k: int)
    requires (k - 1) * ONE < x <= k * ONE
    requires -MARKET_FEE_RATE_BASE <= 2 * (x * MARKET_FEE_RATE_BASE - w) <= MARKET_FEE_RATE_BASE
    ensures 2 * (k - 1) * ONE * MARKET_FEE_RATE_BASE < 2 * w + MARKET_FEE_RATE_BASE
    ensures 2 * w - MARKET_FEE_RATE_BASE <= 2 * k * ONE * MARKET_FEE_RATE_BASE
  {
  }

  lemma WholeShareBounds(x: Dec, n: int, rate: int, k: int)
    requires (k - 1) * ONE < x <= k * ONE && x * MARKET_FEE_RATE_BASE == (n * ONE) * rate
    ensures (k - 1) * MARKET_FEE_RATE_BASE < n * rate <= k * MARKET_FEE_RATE_BASE
  {
    assert (n * ONE) * rate == (n * rate) * ONE;
  }

  /** The commission of a volume is its share at the fee rate, rounded up to a coin, but at least
      the minimum; there is none exactly if the money or this share is too large. The share of a
      whole number of coins is exact, that of a fraction is first rounded to 18 digits. */
  lemma CommissionOfVolume(m: MsgCreateOrder, v: Dec, params: Params) returns (k: nat)
    requires 0 <= v
    ensures var base := MARKET_FEE_RATE_BASE;
            && 2 * (k - 1) * ONE * base < 2 * (v * params.feeRate) + base
            && 2 * (v * params.feeRate) - base <= 2 * k * ONE * base
    ensures v % ONE == 0 ==>
              (k - 1) * MARKET_FEE_RATE_BASE < v / ONE * params.feeRate <= k * MARKET_FEE_RATE_BASE
    ensures CalOrderCommission(m, v, params) ==
            if CalculateAmount(m).None? || k > MAX_ORDER_AMOUNT then None
            else Some(if k > params.feeMin then k else params.feeMin)
  {
    hide CalculateAmount, Mul, QuoInt, Ceil, RoundInt;
    var x := VolumeTimesRate(v, params.feeRate);
    CeilRounds(x);
    k := RoundInt(Ceil(x));
    ShareBounds(x, v * params.feeRate, k);
    if v % ONE == 0 { WholeShareBounds(x, v / ONE, params.feeRate, k); }
  }

  /** A fresh order is sound: the state every later step relies on. */
  lemma NewOrderIsSound(m: MsgCreateOrder, sequence: nat, params: Params, denom: Denom, amount: int, frozenFee: int)
    requires ValidateBasic(m) && ValidParams(params)
    requires GetDenomAndOrderAmount(m) == Some((denom, amount)) && 0 <= frozenFee <= MAX_ORDER_AMOUNT
    ensures var o := NewOrder(m, sequence, params, amount, frozenFee);
            Sound(o) && o.leftStock > 0 && denom == UsedDenom(o.terms) && Storable(o.terms)
  {
    PriceIsExact(m);
    CallAuction.MaxPriceFits();
    FeatureFeeFits(m, params);
    if m.side == Bid { MoneyIsEnough(m); }
  }

  lemma FeatureFeeFits(m: MsgCreateOrder, params: Params)
    ensures 0 <= CalFeatureFeeForExistBlocks(m, params) <= MAX_ORDER_AMOUNT
  {
  }

  /** Nothing is frozen for blocks that are free. Every block more costs the price of a block,
      as far as the largest amount allows. */
  lemma FeatureFeePerBlock(m: MsgCreateOrder, params: Params)
    ensures m.timeInForce == IOC || m.existBlocks <= params.rules.freeBlocks ==>
              CalFeatureFeeForExistBlocks(m, params) == 0
    ensures m.timeInForce != IOC && m.existBlocks >= params.rules.freeBlocks ==>
              CalFeatureFeeForExistBlocks(m.(existBlocks := m.existBlocks + 1), params) ==
              Min(MAX_ORDER_AMOUNT, CalFeatureFeeForExistBlocks(m, params) + params.featureFeeByBlocks)
  {
    var blocks := m.existBlocks - params.rules.freeBlocks;
    assert (blocks + 1) * params.featureFeeByBlocks == blocks * params.featureFeeByBlocks + params.featureFeeByBlocks;
  }

  // ------------------------------------------------------------ freezing

  /** The sender can spend all that the order will hold. */
  ghost predicate Affords(l: Ledger, o: Order)
  {
    forall k :: Bal(l.coins, k) >= Reserve(o, k)
  }

  /** The two balance checks of the handler together say that the order is affordable, also when
      its fees and its amount come out of the same coins. */
  lemma ChecksMeanAffords(l: Ledger, o: Order)
    requires Sound(o)
    ensures var t, fees := o.terms, o.terms.frozenCommission + o.terms.frozenFeatureFee;
            var amount := if UsedDenom(t) == CET then o.freeze + fees else o.freeze;
            (Affords(l, o) <==>
             (fees == 0 || fees <= Bal(l.coins, Acct(t.sender, CET)))
                 && amount <= Bal(l.coins, Acct(t.sender, UsedDenom(t))))
  {
    var t, fees := o.terms, o.terms.frozenCommission + o.terms.frozenFeatureFee;
    var purse, used := Acct(t.sender, CET), Acct(t.sender, UsedDenom(t));
    if Affords(l, o) {
      assert Bal(l.coins, purse) >= Reserve(o, purse) && Bal(l.coins, used) >= Reserve(o, used);
    } else {
      var k :| Bal(l.coins, k) < Reserve(o, k);
      assert k == purse || k == used;
    }
  }

  /** The order's coins move from spendable to frozen, and nothing else moves. */
  ghost predicate Froze(l: Ledger, m: Ledger, o: Order)
  {
    && m.known == l.known + {o.terms.sender} && SameSupply(l, m)
    && forall k ::
         Bal(m.coins, k) == Bal(l.coins, k) - Reserve(o, k) && Bal(m.frozen, k) == Bal(l.frozen, k) + Reserve(o, k)
  }

  lemma FreezeMoves(l: Ledger, forbidden: Forbidden, addr: Addr, denom: Denom, n: nat, k: Acct)
    requires CanSend(l, forbidden, addr, denom, n)
    ensures var m := Freeze(l, forbidden, addr, denom, n);
            && m.known == l.known + {addr}
            && Bal(m.coins, k) == Bal(l.coins, k) - If(k == Acct(addr, denom), n)
            && Bal(m.frozen, k) == Bal(l.frozen, k) + If(k == Acct(addr, denom), n)
  {
  }

  function FreezeAmount(l: Ledger, forbidden: Forbidden, o: Order): Ledger
    requires Sound(o)
  {
    Freeze(l, forbidden, o.terms.sender, UsedDenom(o.terms), o.freeze)
  }

  function FreezeCommission(l: Ledger, forbidden: Forbidden, o: Order): Ledger
    requires Sound(o)
  {
    if o.terms.frozenCommission == 0 then l else Freeze(l, forbidden, o.terms.sender, CET, o.terms.frozenCommission)
  }

  function FreezeFeatureFee(l: Ledger, forbidden: Forbidden, o: Order): Ledger
    requires Sound(o)
  {
    if o.terms.frozenFeatureFee == 0 then l else Freeze(l, forbidden, o.terms.sender, CET, o.terms.frozenFeatureFee)
  }

  /** All three freezes of an order go through, one after the other. */
  predicate CanFreezeAll(l: Ledger, forbidden: Forbidden, o: Order)
    requires Sound(o)
  {
    var t, l1 := o.terms, FreezeAmount(l, forbidden, o);
    var l2 := FreezeCommission(l1, forbidden, o);
    && CanSend(l, forbidden, t.sender, UsedDenom(t), o.freeze)
    && (t.frozenCommission != 0 ==> CanSend(l1, forbidden, t.sender, CET, t.frozenCommission))
    && (t.frozenFeatureFee != 0 ==> CanSend(l2, forbidden, t.sender, CET, t.frozenFeatureFee))
  }

  /** The ledger after the freezes up to the first that is refused. */
  function FrozenSoFar(l: Ledger, forbidden: Forbidden, o: Order): Ledger
    requires Sound(o)
  {
    var t, l1 := o.terms, FreezeAmount(l, forbidden, o);
    if !CanSend(l, forbidden, t.sender, UsedDenom(t), o.freeze) then l
    else if t.frozenCommission != 0 && !CanSend(l1, forbidden, t.sender, CET, t.frozenCommission) then l1
    else FreezeFeatureFee(FreezeCommission(l1, forbidden, o), forbidden, o)
  }

  /** Of an affordable order only the fees can be refused, and only where CET is barred. */
  lemma FreezesRefused(l: Ledger, forbidden: Forbidden, o: Order)
    requires Sound(o) && Affords(l, o) && !Forbids(forbidden, UsedDenom(o.terms), o.terms.sender)
    ensures CanFreezeAll(l, forbidden, o) <==>
            o.terms.frozenCommission + o.terms.frozenFeatureFee == 0 || !Forbids(forbidden, CET, o.terms.sender)
    ensures CanFreezeAll(l, forbidden, o) ==> Froze(l, FrozenSoFar(l, forbidden, o), o)
  {
    hide Froze;
    if o.terms.frozenCommission + o.terms.frozenFeatureFee == 0 || !Forbids(forbidden, CET, o.terms.sender) {
      FreezesSucceed(l, forbidden, o);
    }
  }

  lemma FreezesKeepSupply(l: Ledger, forbidden: Forbidden, o: Order)
    requires Sound(o)
    ensures SameSupply(l, FreezeFeatureFee(FreezeCommission(FreezeAmount(l, forbidden, o), forbidden, o), forbidden, o))
  {
    hide Freeze;
    var l1 := FreezeAmount(l, forbidden, o);
    var l2 := FreezeCommission(l1, forbidden, o);
    FreezeKeepsSupply(l, forbidden, o.terms.sender, UsedDenom(o.terms), o.freeze);
    if o.terms.frozenCommission != 0 {
      FreezeKeepsSupply(l1, forbidden, o.terms.sender, CET, o.terms.frozenCommission);
    }
    if o.terms.frozenFeatureFee != 0 {
      FreezeKeepsSupply(l2, forbidden, o.terms.sender, CET, o.terms.frozenFeatureFee);
    }
  }

  lemma FreezesGoThrough(l: Ledger, forbidden: Forbidden, o: Order)
    requires Sound(o) && Affords(l, o) && !Forbids(forbidden, UsedDenom(o.terms), o.terms.sender)
    requires o.terms.frozenCommission + o.terms.frozenFeatureFee == 0 || !Forbids(forbidden, CET, o.terms.sender)
    ensures CanFreezeAll(l, forbidden, o)
  {
    hide Forbids, Freeze;
    var t := o.terms;
    var purse, used := Acct(t.sender, CET), Acct(t.sender, UsedDenom(t));
    assert Bal(l.coins, purse) >= Reserve(o, purse) && Bal(l.coins, used) >= Reserve(o, used);
    FreezeMoves(l, forbidden, t.sender, UsedDenom(t), o.freeze, purse);
    if t.frozenCommission != 0 {
      FreezeMoves(FreezeAmount(l, forbidden, o), forbidden, t.sender, CET, t.frozenCommission, purse);
    }
  }

  lemma FreezesMove(l: Ledger, forbidden: Forbidden, o: Order, k: Acct)
    requires Sound(o) && CanFreezeAll(l, forbidden, o)
    ensures var m := FreezeFeatureFee(FreezeCommission(FreezeAmount(l, forbidden, o), forbidden, o), forbidden, o);
            && m.known == l.known + {o.terms.sender}
            && Bal(m.coins, k) == Bal(l.coins, k) - Reserve(o, k)
            && Bal(m.frozen, k) == Bal(l.frozen, k) + Reserve(o, k)
  {
    hide CanSend, Freeze;
    var t, l1 := o.terms, FreezeAmount(l, forbidden, o);
    var l2 := FreezeCommission(l1, forbidden, o);
    FreezeMoves(l, forbidden, t.sender, UsedDenom(t), o.freeze, k);
    if t.frozenCommission != 0 { FreezeMoves(l1, forbidden, t.sender, CET, t.frozenCommission, k); }
    if t.frozenFeatureFee != 0 { FreezeMoves(l2, forbidden, t.sender, CET, t.frozenFeatureFee, k); }
  }

  /** All three freezes of an affordable order succeed unless its sender is barred. */
  lemma FreezesSucceed(l: Ledger, forbidden: Forbidden, o: Order)
    requires Sound(o) && Affords(l, o) && !Forbids(forbidden, UsedDenom(o.terms), o.terms.sender)
    requires o.terms.frozenCommission + o.terms.frozenFeatureFee == 0 || !Forbids(forbidden, CET, o.terms.sender)
    ensures CanFreezeAll(l, forbidden, o)
    ensures Froze(l, FreezeFeatureFee(FreezeCommission(FreezeAmount(l, forbidden, o), forbidden, o), forbidden, o), o)
  {
    hide CanFreezeAll, Freeze, FreezeAmount, FreezeCommission, FreezeFeatureFee, Reserve;
    FreezesGoThrough(l, forbidden, o);
    FreezesKeepSupply(l, forbidden, o);
    FreezesMove(l, forbidden, o, Acct(o.terms.sender, CET));
    var m := FreezeFeatureFee(FreezeCommission(FreezeAmount(l, forbidden, o), forbidden, o), forbidden, o);
    forall k ensures Bal(m.coins, k) == Bal(l.coins, k) - Reserve(o, k)
        && Bal(m.frozen, k) == Bal(l.frozen, k) + Reserve(o, k) {
      FreezesMove(l, forbidden, o, k);
    }
  }

  /** A new order whose reserve has just been frozen keeps the exchange solvent and every surplus. */
  lemma EntryKeepsSolvent(x: Exchange, o: Order, m: Ledger)
    requires Solvent(x) && o.terms.id !in x.orders && Sound(o) && Froze(x.ledger, m, o)
    ensures var y := Exchange(x.orders[o.terms.id := o], m); Solvent(y) && SameSurplus(x, y)
  {
    hide Sound;
    var y := Exchange(x.orders[o.terms.id := o], m);
    forall k ensures Surplus(y, k) == Surplus(x, k) { SumUpdate(x.orders, ReserveFor(k), o.terms.id, o); }
  }
}
