/** Limit orders: their terms, what changes while they are filled, and their fees. */
module Orders {
  import opened Decimals
  import opened Auction
  import opened Ledgers

  const MAX_ORDER_AMOUNT: int := 1_000_000_000_000_000_000
  /** A price is an int64 divided by a power of ten, so its scaled value is bounded. */
  const MAX_PRICE: Dec := 9_223_372_036_854_775_807 * ONE

  datatype TimeInForce = GTE | IOC

  type OrderID = string

  /** The fields an order keeps for life. The identifier is `AssemblyOrderID` of the sender, the
      sequence and the tag, formed once when the order is created. */
  datatype Terms = Terms(
    id: OrderID, sender: Addr, sequence: nat, identify: nat, symbol: string, price: Dec, quantity: int, side: Side,
    timeInForce: TimeInForce, height: int, existBlocks: int, frozenCommission: int, frozenFeatureFee: int)

  /** An order as the store keeps it; the last four fields change when it is filled. */
  datatype Order = Order(terms: Terms, leftStock: int, freeze: int, dealStock: int, dealMoney: int)

  // ------------------------------------------------------------ symbols and identifiers

  function Before(s: string, c: char): string
  {
    if s == [] || s[0] == c then [] else [s[0]] + Before(s[1..], c)
  }

  function After(s: string, c: char): string
  {
    if s == [] then [] else if s[0] == c then s[1..] else After(s[1..], c)
  }

  function StockOf(symbol: string): Denom { Before(symbol, '/') }

  function MoneyOf(symbol: string): Denom { Before(After(symbol, '/'), '/') }

  function GetSymbol(stock: Denom, money: Denom): string { stock + "/" + money }

  lemma {:induction false} BeforeAfter(a: string, b: string, c: char)
    requires c !in a
    ensures Before(a + [c] + b, c) == a && After(a + [c] + b, c) == b
  {
    if a == [] {
      assert a + [c] + b == [c] + b;
    } else {
      assert c !in a[1..];
      assert (a + [c] + b)[1..] == a[1..] + [c] + b;
      BeforeAfter(a[1..], b, c);
    }
  }

  lemma {:induction false} BeforeAll(a: string, c: char)
    requires c !in a
    ensures Before(a, c) == a
  {
    if a != [] { BeforeAll(a[1..], c); }
  }

  lemma SplitSymbolInvertsGetSymbol(stock: Denom, money: Denom)
    requires '/' !in stock && '/' !in money
    ensures StockOf(GetSymbol(stock, money)) == stock && MoneyOf(GetSymbol(stock, money)) == money
  {
    assert GetSymbol(stock, money) == stock + ['/'] + money;
    BeforeAfter(stock, money, '/');
    BeforeAll(money, '/');
  }

  const DIGITS: string := "0123456789"

  function Numeral(n: nat): string
  {
    if n < 10 then [DIGITS[n]] else Numeral(n / 10) + [DIGITS[n % 10]]
  }

  /** The number in an order identifier packs the account sequence and the sender's tag. */
  function SerialNumber(sequence: nat, identify: nat): nat
  {
    (sequence / 2) * 512 + identify + 256 * (sequence % 2)
  }

  function AssemblyOrderID(sender: Addr, sequence: nat, identify: nat): string
  {
    sender + "-" + Numeral(SerialNumber(sequence, identify))
  }

  lemma {:induction false} NumeralHasNoDash(n: nat)
    ensures '-' !in Numeral(n)
  {
    if n >= 10 { NumeralHasNoDash(n / 10); }
  }

  lemma {:induction false} NumeralInjective(m: nat, n: nat)
    requires Numeral(m) == Numeral(n)
    ensures m == n
    decreases m + n
  {
    var a, b := Numeral(m), Numeral(n);
    assert a[|a| - 1] == DIGITS[m % 10] && b[|b| - 1] == DIGITS[n % 10];
    NumeralLength(m);
    NumeralLength(n);
    if m >= 10 && n >= 10 {
      assert a[..|a| - 1] == Numeral(m / 10) && b[..|b| - 1] == Numeral(n / 10);
      NumeralInjective(m / 10, n / 10);
    }
  }

  lemma {:induction false} NumeralLength(n: nat)
    ensures |Numeral(n)| >= 1 && (|Numeral(n)| == 1 <==> n < 10)
  {
    if n >= 10 { NumeralLength(n / 10); }
  }

  /** Two orders share an identifier only if sender, sequence and tag all agree. */
  lemma OrderIDInjective(a: Addr, s: nat, i: nat, b: Addr, t: nat, j: nat)
    requires i < 256 && j < 256 && '-' !in a && '-' !in b
    requires AssemblyOrderID(a, s, i) == AssemblyOrderID(b, t, j)
    ensures a == b && s == t && i == j
  {
    var m, n := SerialNumber(s, i), SerialNumber(t, j);
    assert AssemblyOrderID(a, s, i) == a + ['-'] + Numeral(m);
    assert AssemblyOrderID(b, t, j) == b + ['-'] + Numeral(n);
    BeforeAfter(a, Numeral(m), '-');
    BeforeAfter(b, Numeral(n), '-');
    NumeralInjective(m, n);
    assert m == 256 * s + i && n == 256 * t + j;
  }

  // ------------------------------------------------------------ money an order holds

  function UsedDenom(t: Terms): Denom
  {
    if t.side == Bid then MoneyOf(t.symbol) else StockOf(t.symbol)
  }

  /** Whether a buyer's frozen money cannot pay for what is left to buy. */
  predicate NotEnoughMoney(o: Order)
  {
    o.terms.side == Bid && o.freeze < RoundInt(Mul(o.terms.price, NewDec(o.leftStock)))
  }

  /** The amount the matching engine sees. */
  function GetAmount(o: Order): int
  {
    if NotEnoughMoney(o) then 0 else o.leftStock
  }

  /** What holds of every open order between two deals. */
  predicate Sound(o: Order)
  {
    && 0 < o.terms.price <= MAX_PRICE
    && 0 < o.terms.quantity && 0 <= o.leftStock && 0 <= o.dealStock && 0 <= o.dealMoney
    && o.leftStock + o.dealStock == o.terms.quantity
    && 0 <= o.freeze <= MAX_ORDER_AMOUNT
    && (o.terms.side == Bid ==> o.freeze * ONE >= o.terms.price * o.leftStock)
    && (o.terms.side == Ask ==> o.freeze == o.leftStock)
    && 0 <= o.terms.frozenCommission <= MAX_ORDER_AMOUNT
    && 0 <= o.terms.frozenFeatureFee <= MAX_ORDER_AMOUNT
    && (o.terms.timeInForce == IOC ==> o.terms.frozenFeatureFee == 0)
    && 0 <= o.terms.height && 0 <= o.terms.existBlocks
  }

  /** The branch in `GetAmount` that exists only for safety is never taken. */
  lemma SoundOrderHasEnoughMoney(o: Order)
    requires Sound(o)
    ensures !NotEnoughMoney(o) && GetAmount(o) == o.leftStock
  {
    if o.terms.side == Bid {
      var n := o.terms.price * o.leftStock;
      assert o.terms.price * NewDec(o.leftStock) == n * ONE;
      ChopExact(n);
      assert n >= 0;
      ChopWithin(n, 0, o.freeze);
    }
  }

  // ------------------------------------------------------------ fees

  function CalActualOrderCommission(o: Order, feeForZeroDeal: int): int
    requires o.dealStock != 0 ==> o.terms.quantity > 0
  {
    var fee := if o.dealStock != 0
               then Quo(Mul(NewDec(o.dealStock), NewDec(o.terms.frozenCommission)), NewDec(o.terms.quantity))
               else NewDec(feeForZeroDeal);
    TruncateInt(if fee > NewDec(MAX_ORDER_AMOUNT) then NewDec(MAX_ORDER_AMOUNT) else fee)
  }

  function CalActualOrderFeatureFee(o: Order, height: int, freeTimeBlocks: int): int
  {
    if o.terms.existBlocks <= freeTimeBlocks then 0
    else if height - o.terms.height + 1 < freeTimeBlocks then 0
    else
      var chargeBlocks := height - o.terms.height + 1 - freeTimeBlocks;
      var fee := TruncateInt(QuoInt(MulInt(NewDec(chargeBlocks), o.terms.frozenFeatureFee),
                                    o.terms.existBlocks - freeTimeBlocks));
      if fee > o.terms.frozenFeatureFee then o.terms.frozenFeatureFee else fee
  }

  lemma TruncateWithin(a: Dec, n: int)
    requires 0 <= a <= NewDec(n)
    ensures 0 <= TruncateInt(a) <= n
  {
    DivMonotone(a, NewDec(n), ONE);
    DivCancel(n, ONE);
  }

  /** A fee taken for the filled part is covered by the commission that was frozen. */
  lemma CommissionIsCovered(o: Order, feeForZeroDeal: int)
    requires Sound(o) && 0 <= feeForZeroDeal
    ensures 0 <= CalActualOrderCommission(o, feeForZeroDeal)
    ensures o.dealStock != 0 || feeForZeroDeal <= o.terms.frozenCommission
            ==> CalActualOrderCommission(o, feeForZeroDeal) <= o.terms.frozenCommission
    ensures o.dealStock == 0 && feeForZeroDeal <= MAX_ORDER_AMOUNT
            ==> CalActualOrderCommission(o, feeForZeroDeal) == feeForZeroDeal
  {
    if o.dealStock != 0 {
      var d, c, q := o.dealStock, o.terms.frozenCommission, o.terms.quantity;
      assert NewDec(d) * NewDec(c) == (d * c * ONE) * ONE;
      ChopExact(d * c * ONE);
      MulMonotone(d, q, c);
      assert 0 <= d * c * ONE <= c * NewDec(q);
      QuoMonotone(d * c * ONE, c * NewDec(q), NewDec(q));
      QuoExact(c, NewDec(q));
      TruncateWithin(Quo(d * c * ONE, NewDec(q)), c);
    } else {
      TruncateOf(feeForZeroDeal);
      TruncateOf(MAX_ORDER_AMOUNT);
    }
  }

  /** The rounded-down quotient behind a share of a commission. */
  lemma ShareOf(n: int, q: int)
    requires 0 <= n && 0 < q
    ensures var k, r := n / q, n % q;
            TruncateInt(Quo(n * ONE, NewDec(q))) == if 2 * ONE * (q - r) <= q then k + 1 else k
  {
    hide TruncateInt, Quo, Chop;
    QuoByWhole(n * ONE, q);
    var k, r, wide := n / q, n % q, ONE * ONE;
    assert n * ONE * ONE == n * wide;
    SumOfMultiples(n, q, k, r, wide);
    QuotientOfSum(k * wide, r * wide, q);
    PartOfWide(r, q, wide);
    DivReaches(r * wide, q, wide - HALF);
    DivMonotone(0, n, q);
    WholeOfRounded(k, r * wide / q);
  }

  /** What a dealt order pays is the share of its frozen commission that its dealt part has in
      its quantity, rounded down to a coin: all of it if nothing is left. Only beyond 2 * 10^18
      can the intermediate rounding lift it to the next coin. */
  lemma CommissionIsProRata(o: Order, feeForZeroDeal: int)
    requires Sound(o) && o.dealStock != 0
    ensures var q := o.terms.quantity;
            var k, r := o.dealStock * o.terms.frozenCommission / q, o.dealStock * o.terms.frozenCommission % q;
            CalActualOrderCommission(o, feeForZeroDeal) == if 2 * ONE * (q - r) <= q then k + 1 else k
    ensures o.terms.quantity < 2 * ONE ==>
              CalActualOrderCommission(o, feeForZeroDeal) == o.dealStock * o.terms.frozenCommission / o.terms.quantity
    ensures o.leftStock == 0 ==> CalActualOrderCommission(o, feeForZeroDeal) == o.terms.frozenCommission
  {
    hide TruncateInt, Quo;
    var d, c, q := o.dealStock, o.terms.frozenCommission, o.terms.quantity;
    MulMonotone(0, d, c);
    assert NewDec(d) * NewDec(c) == (d * c * ONE) * ONE;
    ChopExact(d * c * ONE);
    MulMonotone(d, q, c);
    QuoMonotone(d * c * ONE, c * NewDec(q), NewDec(q));
    QuoExact(c, NewDec(q));
    ShareOf(d * c, q);
    if o.leftStock == 0 {
      DivCancel(c, q);
      assert d * c % q == 0 by { assert d * c == c * q; }
    }
  }

  lemma TruncateOf(n: int)
    requires 0 <= n
    ensures TruncateInt(NewDec(n)) == n
  {
    DivCancel(n, ONE);
  }

  lemma FeatureFeeIsCovered(o: Order, height: int, freeTimeBlocks: int)
    requires Sound(o)
    ensures 0 <= CalActualOrderFeatureFee(o, height, freeTimeBlocks) <= o.terms.frozenFeatureFee
  {
    var charge := height - o.terms.height + 1 - freeTimeBlocks;
    if o.terms.existBlocks > freeTimeBlocks && charge >= 0 {
      assert MulInt(NewDec(charge), o.terms.frozenFeatureFee) >= 0;
    }
  }

  /** An order pays nothing for its free blocks and all of its frozen feature fee once it is as
      old as it asked to get; in between, the same share of the fee as of the blocks it pays for. */
  lemma FeatureFeeCountsBlocks(o: Order, height: int, freeTimeBlocks: int)
    requires Sound(o)
    ensures var age, span := height - o.terms.height + 1, o.terms.existBlocks - freeTimeBlocks;
            var fee := CalActualOrderFeatureFee(o, height, freeTimeBlocks);
            && (span <= 0 || age <= freeTimeBlocks ==> fee == 0)
            && (0 < span && age >= o.terms.existBlocks ==> fee == o.terms.frozenFeatureFee)
            && (freeTimeBlocks < age < o.terms.existBlocks ==>
                fee * span <= o.terms.frozenFeatureFee * (age - freeTimeBlocks) < (fee + 1) * span)
  {
    hide TruncateInt, QuoInt;
    var frozen, span := o.terms.frozenFeatureFee, o.terms.existBlocks - freeTimeBlocks;
    var charge := height - o.terms.height + 1 - freeTimeBlocks;
    if span > 0 && charge >= 0 {
      MulMonotone(0, charge, frozen);
      assert MulInt(NewDec(charge), frozen) == (charge * frozen) * ONE;
      FloorOfQuotient(charge * frozen, span);
      if charge >= span {
        MulMonotone(span, charge, frozen);
        DivReaches(charge * frozen, span, frozen);
      } else {
        MulMonotone(charge, span, frozen);
        DivReaches(charge * frozen, span, frozen + 1) by { assert (frozen + 1) * span > charge * frozen; }
      }
    }
  }
}
