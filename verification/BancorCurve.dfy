/** The price curve of a bancor pool: how much money the pool holds, and at what price, when a
    given part of its stock has been supplied. Without a maximum of money the price is linear;
    otherwise a power curve is interpolated from a table. */
module BancorCurve {
  import opened Decimals

  const MAX_AR: int := 5000
  const AR_SAMPLES: int := 1000
  const SUPPLY_RATIO_SAMPLES: int := 1000
  const MAX_INT32: int := 2_147_483_647
  const MAX_TRADE_AMOUNT: int := 1_000_000_000_000_000_000

  /** What a pool's curve depends on, fixed when the pool is created. */
  datatype Curve = Curve(initPrice: Dec, maxPrice: Dec, maxSupply: int, maxMoney: int, ar: int)

  type Table = seq<seq<int>>

  /** Row `x` samples the power x/1000 at 1001 points. Row 0 is constant; every other row rises
      from 0 to the largest value. */
  ghost predicate ValidTable(t: Table)
  {
    && |t| == MAX_AR + AR_SAMPLES + 1
    && (forall x | 0 <= x < |t| :: |t[x]| == SUPPLY_RATIO_SAMPLES + 1)
    && (forall x | 1 <= x < |t| :: ValidRow(t[x]))
  }

  ghost predicate ValidRow(row: seq<int>)
  {
    && |row| == SUPPLY_RATIO_SAMPLES + 1 && row[0] == 0 && row[SUPPLY_RATIO_SAMPLES] == MAX_INT32
    && forall i, j | 0 <= i <= j < |row| :: row[i] <= row[j]
  }

  /** Such tables exist: in this one every power jumps at its last sample. */
  lemma SomeTable() returns (t: Table)
    ensures ValidTable(t)
  {
    var row := seq(SUPPLY_RATIO_SAMPLES, i => 0) + [MAX_INT32];
    t := seq(MAX_AR + AR_SAMPLES + 1, x => row);
    assert ValidRow(row);
    forall x | 0 <= x < |t| ensures t[x] == row {}
  }

  function TableLookup(t: Table, x: int, y: int): Dec
    requires 0 <= x < |t| && 0 <= y < |t[x]|
  {
    Quo(NewDec(t[x][y]), NewDec(MAX_INT32))
  }

  // ------------------------------------------------------------ which curves exist

  function CalculateAR(maxSupply: int, maxMoney: int, initPrice: Dec, maxPrice: Dec): int
  {
    if maxPrice == initPrice then 0
    else if NewDec(maxMoney) <= MulInt(initPrice, maxSupply) then 0
    else TruncateInt(MulInt(QuoTruncate(MulInt(maxPrice, maxSupply) - NewDec(maxMoney),
                                        NewDec(maxMoney) - MulInt(initPrice, maxSupply)), AR_SAMPLES))
  }

  function CheckAR(maxSupply: int, maxMoney: int, initPrice: Dec, maxPrice: Dec): (int, bool)
  {
    if maxMoney != 0 then
      var ar := CalculateAR(maxSupply, maxMoney, initPrice, maxPrice);
      if ar == 0 then (0, false) else (ar, true)
    else (0, true)
  }

  predicate CheckMaxPrice(initPrice: Dec, maxPrice: Dec, maxSupply: int)
  {
    initPrice <= maxPrice && MulInt(QuoInt(initPrice + maxPrice, 2), maxSupply) <= NewDec(MAX_TRADE_AMOUNT)
  }

  /** The part of the message check that concerns the curve. */
  predicate ValidateCurve(maxSupply: int, maxMoney: int, initPrice: Dec, maxPrice: Dec)
  {
    && 0 < maxSupply <= MAX_TRADE_AMOUNT && 0 <= maxMoney <= MAX_TRADE_AMOUNT && 0 < maxPrice && 0 <= initPrice
    && var (ar, ok) := CheckAR(maxSupply, maxMoney, initPrice, maxPrice);
       ok && 0 <= ar <= MAX_AR && (ar == 0 ==> CheckMaxPrice(initPrice, maxPrice, maxSupply))
  }

  function NewCurve(maxSupply: int, maxMoney: int, initPrice: Dec, maxPrice: Dec): Curve
  {
    Curve(initPrice, maxPrice, maxSupply, maxMoney, CalculateAR(maxSupply, maxMoney, initPrice, maxPrice))
  }

  /** What a checked message guarantees of its curve. */
  predicate ValidCurve(c: Curve)
  {
    && 0 < c.maxSupply <= MAX_TRADE_AMOUNT && 0 <= c.initPrice <= c.maxPrice && 0 < c.maxPrice
    && 0 <= c.maxMoney <= MAX_TRADE_AMOUNT
    && if c.maxMoney == 0 then c.ar == 0
       else 1 <= c.ar <= MAX_AR && c.initPrice * c.maxSupply < c.maxMoney * ONE < c.maxPrice * c.maxSupply
  }

  lemma QuoTruncateSign(a: Dec, b: Dec)
    requires 0 < b && TruncateInt(MulInt(QuoTruncate(a, b), AR_SAMPLES)) > 0
    ensures a > 0
  {
  }

  /** A message that passes the check gives a curve in the table's range, between its prices. */
  lemma CheckedCurveIsValid(maxSupply: int, maxMoney: int, initPrice: Dec, maxPrice: Dec)
    requires ValidateCurve(maxSupply, maxMoney, initPrice, maxPrice)
    ensures ValidCurve(NewCurve(maxSupply, maxMoney, initPrice, maxPrice))
  {
    if maxMoney == 0 {
      assert MulInt(initPrice, maxSupply) >= 0;
    } else {
      var room, span := NewDec(maxMoney) - MulInt(initPrice, maxSupply), MulInt(maxPrice, maxSupply) - NewDec(maxMoney);
      QuoTruncateSign(span, room);
      if initPrice > maxPrice { MulMonotone(maxPrice, initPrice, maxSupply); }
    }
  }

  // ------------------------------------------------------------ the table, interpolated

  /** `num` steps of `den` from `a` to `b`. */
  function Between(a: Dec, b: Dec, num: int, den: int): Dec
    requires den > 0
  {
    Quo(MulInt(b - a, num), NewDec(den)) + a
  }

  lemma BetweenBounds(a: Dec, b: Dec, num: int, den: int)
    requires 0 <= a <= b && 0 <= num <= den && 0 < den
    ensures a <= Between(a, b, num, den) <= b
    ensures num == 0 ==> Between(a, b, num, den) == a
  {
    var d := b - a;
    MulMonotone(num, den, d);
    assert 0 <= d * num <= d * den;
    QuoMonotone(d * num, d * den, NewDec(den));
    QuoWhole(d, den);
    QuoMonotone(0, d * num, NewDec(den));
    if num == 0 { QuoOfZero(den); }
  }

  lemma QuoOfZero(den: int)
    requires 0 < den
    ensures Quo(0, NewDec(den)) == 0
  {
    QuoExact(0, NewDec(den));
  }

  lemma QuoWhole(d: int, den: int)
    requires 0 <= d && 0 < den
    ensures Quo(d * den, NewDec(den)) == d
  {
    var q, n := d * ONE, NewDec(den);
    assert (d * den) * (ONE * ONE) == q * n;
    DivCancel(q, n);
    ChopExact(d);
  }

  lemma BetweenMonotone(a: Dec, b: Dec, m: int, n: int, den: int)
    requires 0 <= a <= b && 0 <= m <= n && 0 < den
    ensures Between(a, b, m, den) <= Between(a, b, n, den)
  {
    MulMonotone(m, n, b - a);
    assert 0 <= (b - a) * m <= (b - a) * n;
    QuoMonotone((b - a) * m, (b - a) * n, NewDec(den));
  }

  /** The sample and the remainder that a supplied amount falls on. */
  function Sample(supplied: int, maxSupply: int): int
    requires maxSupply > 0
  {
    supplied * SUPPLY_RATIO_SAMPLES / maxSupply
  }

  function Remainder(supplied: int, maxSupply: int): int
    requires maxSupply > 0
  {
    supplied * SUPPLY_RATIO_SAMPLES - Sample(supplied, maxSupply) * maxSupply
  }

  lemma SampleInRange(supplied: int, maxSupply: int)
    requires 0 <= supplied <= maxSupply && 0 < maxSupply
    ensures 0 <= Sample(supplied, maxSupply) <= SUPPLY_RATIO_SAMPLES && 0 <= Remainder(supplied, maxSupply) < maxSupply
    ensures Sample(supplied, maxSupply) == SUPPLY_RATIO_SAMPLES ==>
            Remainder(supplied, maxSupply) == 0 && supplied == maxSupply
    ensures supplied == maxSupply ==> Sample(supplied, maxSupply) == SUPPLY_RATIO_SAMPLES
    ensures supplied == 0 ==> Sample(supplied, maxSupply) == 0 && Remainder(supplied, maxSupply) == 0
  {
    DivMonotone(supplied * SUPPLY_RATIO_SAMPLES, SUPPLY_RATIO_SAMPLES * maxSupply, maxSupply);
    DivCancel(SUPPLY_RATIO_SAMPLES, maxSupply);
  }

  /** Row `x` of the table at a supplied amount: a sample, or a point between two samples. */
  function Ratio(t: Table, x: int, supplied: int, maxSupply: int): Dec
    requires |t| == MAX_AR + AR_SAMPLES + 1 && (forall i | 0 <= i < |t| :: |t[i]| == SUPPLY_RATIO_SAMPLES + 1)
    requires 0 <= x < |t| && 0 <= supplied <= maxSupply && 0 < maxSupply
  {
    SampleInRange(supplied, maxSupply);
    var s := Sample(supplied, maxSupply);
    if Remainder(supplied, maxSupply) > 0
    then Between(TableLookup(t, x, s), TableLookup(t, x, s + 1), Remainder(supplied, maxSupply), maxSupply)
    else TableLookup(t, x, s)
  }

  lemma LookupMonotone(t: Table, x: int, i: int, j: int)
    requires ValidTable(t) && 1 <= x < |t| && 0 <= i <= j <= SUPPLY_RATIO_SAMPLES
    ensures 0 <= TableLookup(t, x, i) <= TableLookup(t, x, j) <= ONE
  {
    var row := t[x];
    assert ValidRow(row);
    assert 0 <= row[0] <= row[i] <= row[j] <= row[SUPPLY_RATIO_SAMPLES] == MAX_INT32;
    QuoMonotone(NewDec(row[i]), NewDec(row[j]), NewDec(MAX_INT32));
    QuoMonotone(NewDec(row[j]), NewDec(MAX_INT32), NewDec(MAX_INT32));
    QuoExact(1, NewDec(MAX_INT32));
  }

  lemma LookupEnds(t: Table, x: int)
    requires ValidTable(t) && 1 <= x < |t|
    ensures TableLookup(t, x, 0) == 0 && TableLookup(t, x, SUPPLY_RATIO_SAMPLES) == ONE
  {
    assert ValidRow(t[x]);
    QuoOfZero(MAX_INT32);
    QuoExact(1, NewDec(MAX_INT32));
  }

  lemma RatioBounds(t: Table, x: int, supplied: int, maxSupply: int)
    requires ValidTable(t) && 1 <= x < |t| && 0 <= supplied <= maxSupply && 0 < maxSupply
    ensures 0 <= Ratio(t, x, supplied, maxSupply) <= ONE
    ensures var s := Sample(supplied, maxSupply);
            0 <= s <= SUPPLY_RATIO_SAMPLES && TableLookup(t, x, s) <= Ratio(t, x, supplied, maxSupply)
    ensures var s := Sample(supplied, maxSupply);
            s < SUPPLY_RATIO_SAMPLES ==> Ratio(t, x, supplied, maxSupply) <= TableLookup(t, x, s + 1)
  {
    SampleInRange(supplied, maxSupply);
    var s := Sample(supplied, maxSupply);
    LookupMonotone(t, x, s, s);
    if s < SUPPLY_RATIO_SAMPLES {
      LookupMonotone(t, x, s, s + 1);
      BetweenBounds(TableLookup(t, x, s), TableLookup(t, x, s + 1), Remainder(supplied, maxSupply), maxSupply);
    }
  }

  /** Across all segments of the table the ratio rises with the supplied amount. */
  lemma RatioMonotone(t: Table, x: int, a: int, b: int, maxSupply: int)
    requires ValidTable(t) && 1 <= x < |t| && 0 <= a <= b <= maxSupply && 0 < maxSupply
    ensures Ratio(t, x, a, maxSupply) <= Ratio(t, x, b, maxSupply)
  {
    hide Ratio, ValidRow, TableLookup, Sample, Remainder;
    SampleInRange(a, maxSupply);
    SampleInRange(b, maxSupply);
    SampleMonotone(a, b, maxSupply);
    var s, u := Sample(a, maxSupply), Sample(b, maxSupply);
    if s == u {
      RatioInOneSegment(t, x, a, b, maxSupply);
    } else {
      RatioBounds(t, x, a, maxSupply);
      RatioBounds(t, x, b, maxSupply);
      LookupMonotone(t, x, s + 1, u);
    }
  }

  lemma SampleMonotone(a: int, b: int, maxSupply: int)
    requires 0 <= a <= b && 0 < maxSupply
    ensures Sample(a, maxSupply) <= Sample(b, maxSupply)
  {
    DivMonotone(a * SUPPLY_RATIO_SAMPLES, b * SUPPLY_RATIO_SAMPLES, maxSupply);
  }

  lemma RatioInOneSegment(t: Table, x: int, a: int, b: int, maxSupply: int)
    requires ValidTable(t) && 1 <= x < |t| && 0 <= a <= b <= maxSupply && 0 < maxSupply
    requires Sample(a, maxSupply) == Sample(b, maxSupply)
    ensures Ratio(t, x, a, maxSupply) <= Ratio(t, x, b, maxSupply)
  {
    hide ValidRow, TableLookup, Between, Sample;
    SampleInRange(a, maxSupply);
    SampleInRange(b, maxSupply);
    var s := Sample(a, maxSupply);
    if s < SUPPLY_RATIO_SAMPLES {
      var lo, hi, m, n := TableLookup(t, x, s), TableLookup(t, x, s + 1), Remainder(a, maxSupply),
          Remainder(b, maxSupply);
      LookupMonotone(t, x, s, s + 1);
      BetweenMonotone(lo, hi, m, n, maxSupply);
      BetweenBounds(lo, hi, m, maxSupply);
      BetweenBounds(lo, hi, n, maxSupply);
    }
  }

  lemma RatioEnds(t: Table, x: int, maxSupply: int)
    requires ValidTable(t) && 1 <= x < |t| && 0 < maxSupply
    ensures Ratio(t, x, 0, maxSupply) == 0 && Ratio(t, x, maxSupply, maxSupply) == ONE
  {
    SampleInRange(0, maxSupply);
    SampleInRange(maxSupply, maxSupply);
    LookupEnds(t, x);
  }

  // ------------------------------------------------------------ money and price

  function LinearPrice(c: Curve, supplied: int): Dec
    requires c.maxSupply > 0
  {
    QuoInt(MulInt(c.maxPrice - c.initPrice, supplied), c.maxSupply) + c.initPrice
  }

  function LinearMoney(c: Curve, supplied: int): int
    requires c.maxSupply > 0
  {
    RoundInt(QuoInt(MulInt(LinearPrice(c, supplied) + c.initPrice, supplied), 2))
  }

  function PriceFor(c: Curve, ratio: Dec): Dec
  {
    MulTruncate(ratio, c.maxPrice - c.initPrice) + c.initPrice
  }

  function MoneyFor(c: Curve, ratio: Dec, supplied: int): int
  {
    TruncateInt(MulInt(ratio, c.maxMoney - TruncateInt(MulInt(c.initPrice, c.maxSupply)))
                + MulInt(c.initPrice, supplied))
  }

  function PriceAt(c: Curve, t: Table, supplied: int): Dec
    requires ValidCurve(c) && ValidTable(t) && 0 <= supplied <= c.maxSupply
  {
    if c.maxMoney == 0 then LinearPrice(c, supplied)
    else PriceFor(c, Ratio(t, c.ar, supplied, c.maxSupply))
  }

  function MoneyAt(c: Curve, t: Table, supplied: int): int
    requires ValidCurve(c) && ValidTable(t) && 0 <= supplied <= c.maxSupply
  {
    if c.maxMoney == 0 then LinearMoney(c, supplied)
    else MoneyFor(c, Ratio(t, c.ar + AR_SAMPLES, supplied, c.maxSupply), supplied)
  }

  lemma SharesRise(span: int, a: int, b: int, whole: int)
    requires 0 <= span && 0 <= a <= b <= whole && 0 < whole
    ensures 0 <= QuoInt(MulInt(span, a), whole) <= QuoInt(MulInt(span, b), whole) <= span
  {
    MulMonotone(a, b, span);
    MulMonotone(b, whole, span);
    MulMonotone(0, a, span);
    DivMonotone(span * a, span * b, whole);
    DivMonotone(span * b, span * whole, whole);
    DivCancel(span, whole);
  }

  lemma LinearPriceMonotone(c: Curve, a: int, b: int)
    requires ValidCurve(c) && 0 <= a <= b <= c.maxSupply
    ensures c.initPrice <= LinearPrice(c, a) <= LinearPrice(c, b) <= c.maxPrice
  {
    SharesRise(c.maxPrice - c.initPrice, a, b, c.maxSupply);
  }

  lemma HalvesRise(p: Dec, q: Dec, a: int, b: int)
    requires 0 <= p <= q && 0 <= a <= b
    ensures 0 <= RoundInt(QuoInt(MulInt(p, a), 2)) <= RoundInt(QuoInt(MulInt(q, b), 2))
  {
    hide Chop;
    MulMonotone(0, a, p);
    MulMonotone(a, b, p);
    MulMonotone(p, q, b);
    DivMonotone(p * a, q * b, 2);
    ChopMonotone(p * a / 2, q * b / 2);
  }

  lemma LinearMoneyMonotone(c: Curve, a: int, b: int)
    requires ValidCurve(c) && 0 <= a <= b <= c.maxSupply
    ensures 0 <= LinearMoney(c, a) <= LinearMoney(c, b)
  {
    hide LinearPrice, RoundInt;
    LinearPriceMonotone(c, a, b);
    HalvesRise(LinearPrice(c, a) + c.initPrice, LinearPrice(c, b) + c.initPrice, a, b);
  }

  lemma TableMoneyMonotone(c: Curve, t: Table, a: int, b: int)
    requires ValidCurve(c) && ValidTable(t) && c.maxMoney != 0 && 0 <= a <= b <= c.maxSupply
    ensures 0 <= MoneyAt(c, t, a) <= MoneyAt(c, t, b)
  {
    hide Ratio, MoneyFor, ValidRow;
    var x := c.ar + AR_SAMPLES;
    RatioMonotone(t, x, a, b, c.maxSupply);
    RatioBounds(t, x, a, c.maxSupply);
    MoneyRises(c, Ratio(t, x, a, c.maxSupply), Ratio(t, x, b, c.maxSupply), a, b);
  }

  lemma MoneyRises(c: Curve, r: Dec, s: Dec, a: int, b: int)
    requires ValidCurve(c) && c.maxMoney != 0 && 0 <= r <= s && 0 <= a <= b
    ensures 0 <= MoneyFor(c, r, a) <= MoneyFor(c, s, b)
  {
    SpanPositive(c);
    Scaled(r, s, c.maxMoney - TruncateInt(MulInt(c.initPrice, c.maxSupply)), c.initPrice, a, b);
  }

  lemma Scaled(r: Dec, s: Dec, span: int, price: Dec, a: int, b: int)
    requires 0 <= r <= s && 0 <= span && 0 <= price && 0 <= a <= b
    ensures 0 <= TruncateInt(MulInt(r, span) + MulInt(price, a)) <= TruncateInt(MulInt(s, span) + MulInt(price, b))
  {
    MulMonotone(r, s, span);
    MulMonotone(a, b, price);
    MulMonotone(0, r, span);
    MulMonotone(0, a, price);
    DivMonotone(r * span + price * a, s * span + price * b, ONE);
  }

  lemma SpanPositive(c: Curve)
    requires ValidCurve(c) && c.maxMoney != 0
    ensures c.maxMoney - TruncateInt(MulInt(c.initPrice, c.maxSupply)) > 0
  {
    assert c.initPrice * c.maxSupply >= 0;
  }

  lemma TablePriceMonotone(c: Curve, t: Table, a: int, b: int)
    requires ValidCurve(c) && ValidTable(t) && c.maxMoney != 0 && 0 <= a <= b <= c.maxSupply
    ensures c.initPrice <= PriceAt(c, t, a) <= PriceAt(c, t, b) <= c.maxPrice
  {
    hide Ratio, PriceFor, ValidRow;
    RatioMonotone(t, c.ar, a, b, c.maxSupply);
    RatioBounds(t, c.ar, a, c.maxSupply);
    RatioBounds(t, c.ar, b, c.maxSupply);
    PriceRises(c, Ratio(t, c.ar, a, c.maxSupply), Ratio(t, c.ar, b, c.maxSupply));
  }

  lemma PriceRises(c: Curve, r: Dec, s: Dec)
    requires ValidCurve(c) && 0 <= r <= s <= ONE
    ensures c.initPrice <= PriceFor(c, r) <= PriceFor(c, s) <= c.maxPrice
  {
    var span := c.maxPrice - c.initPrice;
    MulMonotone(r, s, span);
    MulMonotone(s, ONE, span);
    assert 0 <= r * span <= s * span <= span * ONE;
    DivMonotone(r * span, s * span, ONE);
    DivMonotone(s * span, span * ONE, ONE);
    DivCancel(span, ONE);
  }

  /** More supplied stock never means less money in the pool or a lower price, in either mode,
      and the price stays between its two ends. */
  lemma CurveMonotone(c: Curve, t: Table, a: int, b: int)
    requires ValidCurve(c) && ValidTable(t) && 0 <= a <= b <= c.maxSupply
    ensures 0 <= MoneyAt(c, t, a) <= MoneyAt(c, t, b)
    ensures c.initPrice <= PriceAt(c, t, a) <= PriceAt(c, t, b) <= c.maxPrice
  {
    if c.maxMoney == 0 {
      LinearMoneyMonotone(c, a, b);
      LinearPriceMonotone(c, a, b);
    } else {
      TableMoneyMonotone(c, t, a, b);
      TablePriceMonotone(c, t, a, b);
    }
  }

  lemma LinearEnds(c: Curve)
    requires ValidCurve(c)
    ensures LinearMoney(c, 0) == 0 && LinearPrice(c, 0) == c.initPrice && LinearPrice(c, c.maxSupply) == c.maxPrice
  {
    ChopExact(0);
    DivCancel(c.maxPrice - c.initPrice, c.maxSupply);
  }

  lemma TableEnds(c: Curve, t: Table)
    requires ValidCurve(c) && ValidTable(t) && c.maxMoney != 0
    ensures MoneyAt(c, t, 0) == 0 && PriceAt(c, t, 0) == c.initPrice
    ensures PriceAt(c, t, c.maxSupply) == c.maxPrice && MoneyAt(c, t, c.maxSupply) == c.maxMoney
  {
    hide Ratio, MoneyFor, PriceFor, ValidRow;
    RatioEnds(t, c.ar, c.maxSupply);
    RatioEnds(t, c.ar + AR_SAMPLES, c.maxSupply);
    NoRatio(c);
    FullRatio(c);
  }

  lemma NoRatio(c: Curve)
    ensures PriceFor(c, 0) == c.initPrice && MoneyFor(c, 0, 0) == 0
  {
    var span := c.maxMoney - TruncateInt(MulInt(c.initPrice, c.maxSupply));
    assert 0 * span + c.initPrice * 0 == 0;
  }

  lemma FullRatio(c: Curve)
    requires ValidCurve(c) && c.maxMoney != 0
    ensures PriceFor(c, ONE) == c.maxPrice && MoneyFor(c, ONE, c.maxSupply) == c.maxMoney
  {
    DivCancel(c.maxPrice - c.initPrice, ONE);
    MulMonotone(0, c.initPrice, c.maxSupply);
    AllMoney(c.maxMoney, c.initPrice * c.maxSupply);
  }

  /** An untouched pool has no money and the initial price. A pool that supplied everything has
      the maximal price, and exactly its maximal money if one was set. */
  lemma CurveEnds(c: Curve, t: Table)
    requires ValidCurve(c) && ValidTable(t)
    ensures MoneyAt(c, t, 0) == 0 && PriceAt(c, t, 0) == c.initPrice
    ensures PriceAt(c, t, c.maxSupply) == c.maxPrice
    ensures c.maxMoney != 0 ==> MoneyAt(c, t, c.maxSupply) == c.maxMoney
  {
    hide LinearMoney, LinearPrice, Ratio;
    if c.maxMoney == 0 { LinearEnds(c); } else { TableEnds(c, t); }
  }

  lemma AllMoney(maxMoney: int, base: int)
    requires 0 <= base <= maxMoney * ONE
    ensures TruncateInt(MulInt(ONE, maxMoney - TruncateInt(base)) + base) == maxMoney
  {
    var q := base / ONE;
    assert ONE * (maxMoney - q) + base == (maxMoney - q) * ONE + base;
    assert (maxMoney - q) * ONE + base == maxMoney * ONE + base % ONE;
  }

  /** No money is in a pool beyond what the whole supply is worth. */
  lemma MoneyWithinMaximum(c: Curve, t: Table, supplied: int)
    requires ValidCurve(c) && ValidTable(t) && 0 <= supplied <= c.maxSupply
    ensures 0 <= MoneyAt(c, t, supplied) <= MoneyAt(c, t, c.maxSupply)
    ensures c.maxMoney != 0 ==> MoneyAt(c, t, supplied) <= c.maxMoney
  {
    CurveMonotone(c, t, supplied, c.maxSupply);
    CurveEnds(c, t);
  }
}
