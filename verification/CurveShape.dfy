/** What a pool's curve looks like, whatever formula computes it: the linear price divides the
    span of prices as the supplied stock divides the supply, and the money is the area under it;
    with a maximum of money, both follow the chords between the samples of their table rows. */
module CurveShape {
  import opened BancorCurve
  import opened Decimals

  // ------------------------------------------------------------ the linear mode

  /** The price has risen through the same part of its span as the stock has of the supply,
      rounded down to the last digit. */
  lemma LinearPriceIsShare(c: Curve, t: Table, supplied: int)
    requires ValidCurve(c) && ValidTable(t) && c.maxMoney == 0 && 0 <= supplied <= c.maxSupply
    ensures var rise := PriceAt(c, t, supplied) - c.initPrice;
            rise * c.maxSupply <= (c.maxPrice - c.initPrice) * supplied < (rise + 1) * c.maxSupply
  {
    MulMonotone(0, supplied, c.maxPrice - c.initPrice);
  }

  lemma CancelFactor(x: int, y: int, s: int)
    requires 0 < s && x * s <= y * s
    ensures x <= y
  {
    if x > y { MulMonotone(y + 1, x, s); }
  }

  /** Rounded shares `f` of `a` and `g` of `b` are nearly in the proportion of `a` and `b`. */
  lemma CrossShares(f: int, g: int, span: int, a: int, b: int, s: int)
    requires 0 <= span && 0 <= a <= b && 0 < s
    requires f * s <= span * a < (f + 1) * s && g * s <= span * b < (g + 1) * s
    ensures b * f <= a * g + a && a * g <= b * f + b && f <= g
  {
    hide *;
    MulMonotone(a, b, span);
    if f > g { MulMonotone(g + 1, f, s); }
    CrossOver(f, g, span * a, span * b, a, b, s) by { assert b * (span * a) == a * (span * b); }
    CrossOver(g, f, span * b, span * a, b, a, s) by { assert b * (span * a) == a * (span * b); }
  }

  lemma CrossOver(f: int, g: int, m: int, n: int, a: int, b: int, s: int)
    requires 0 <= a && 0 <= b && 0 < s && b * m == a * n && f * s <= m && n < (g + 1) * s
    ensures b * f <= a * g + a
  {
    MulMonotone(f * s, m, b);
    MulMonotone(n, (g + 1) * s, a);
    assert (b * f) * s == (f * s) * b;
    assert (a * g + a) * s == ((g + 1) * s) * a;
    CancelFactor(b * f, a * g + a, s);
  }

  /** What lies between `a` and `b` under a line from `init` over `p` at `a` to `q` at `b`. */
  lemma AreaBounds(init: int, p: int, q: int, a: int, b: int)
    requires 0 <= a <= b && p <= q
    requires b * (p - init) <= a * (q - init) + a && a * (q - init) <= b * (p - init) + b
    ensures 2 * ((b - a) * p) - a <= (init + q) * b - (init + p) * a <= 2 * ((b - a) * q) + b
  {
    MulMonotone(0, b - a, q - p);
    assert (b - a) * (q - p) == b * q - b * p - a * q + a * p;
    assert b * (p - init) == b * p - b * init && a * (q - init) == a * q - a * init;
    assert (init + q) * b == b * init + b * q && (init + p) * a == a * init + a * p;
    assert (b - a) * p == b * p - a * p && (b - a) * q == b * q - a * q;
  }

  /** Twice the area, each end of it halved and rounded to a coin. */
  lemma AreaInCoins(low: int, high: int, x: int, y: int, m: int, n: int, a: int, b: int)
    requires 0 <= a <= b <= ONE && 2 * low - a <= y - x <= 2 * high + b
    requires x - ONE - 1 <= 2 * ONE * m <= x + ONE && y - ONE - 1 <= 2 * ONE * n <= y + ONE
    ensures low <= (n - m + 2) * ONE && (n - m - 2) * ONE <= high
  {
  }

  lemma HalvedAndRounded(x: int)
    requires 0 <= x
    ensures x - ONE - 1 <= 2 * ONE * RoundInt(QuoInt(x, 2)) <= x + ONE
  {
  }

  /** The money of a linear pool is the mean of its first and its present price, times the
      supplied stock, rounded to a coin. */
  lemma LinearMoneyIsMean(c: Curve, t: Table, supplied: int)
    requires ValidCurve(c) && ValidTable(t) && c.maxMoney == 0 && 0 <= supplied <= c.maxSupply
    ensures var twice := (c.initPrice + PriceAt(c, t, supplied)) * supplied;
            twice - ONE - 1 <= 2 * ONE * MoneyAt(c, t, supplied) <= twice + ONE
  {
    hide RoundInt, QuoInt, LinearPrice, ValidTable;
    CurveMonotone(c, t, supplied, supplied);
    var p := PriceAt(c, t, supplied) + c.initPrice;
    MulMonotone(0, p, supplied);
    HalvedAndRounded(p * supplied);
  }

  /** Whoever moves a linear pool from `a` to `b` pays at least the price at `a` and at most the
      price at `b` for each piece, within two coins in all. */
  lemma LinearMoneyIsArea(c: Curve, t: Table, a: int, b: int)
    requires ValidCurve(c) && ValidTable(t) && c.maxMoney == 0 && 0 <= a <= b <= c.maxSupply
    ensures (b - a) * PriceAt(c, t, a) <= (MoneyAt(c, t, b) - MoneyAt(c, t, a) + 2) * ONE
    ensures (MoneyAt(c, t, b) - MoneyAt(c, t, a) - 2) * ONE <= (b - a) * PriceAt(c, t, b)
  {
    hide PriceAt, MoneyAt, ValidTable;
    var init, p, q := c.initPrice, PriceAt(c, t, a), PriceAt(c, t, b);
    LinearPriceIsShare(c, t, a);
    LinearPriceIsShare(c, t, b);
    CrossShares(p - init, q - init, c.maxPrice - init, a, b, c.maxSupply);
    AreaBounds(init, p, q, a, b);
    LinearMoneyIsMean(c, t, a);
    LinearMoneyIsMean(c, t, b);
    AreaInCoins((b - a) * p, (b - a) * q, (init + p) * a, (init + q) * b, MoneyAt(c, t, a), MoneyAt(c, t, b), a, b);
  }

  /** A linear pool that supplied everything holds the mean of its two prices for each piece. */
  lemma FullLinearPool(c: Curve, t: Table)
    requires ValidCurve(c) && ValidTable(t) && c.maxMoney == 0
    ensures var twice := (c.initPrice + c.maxPrice) * c.maxSupply;
            twice - ONE - 1 <= 2 * ONE * MoneyAt(c, t, c.maxSupply) <= twice + ONE
  {
    hide PriceAt, MoneyAt, ValidTable;
    CurveEnds(c, t);
    LinearMoneyIsMean(c, t, c.maxSupply);
  }

  /** The check of the prices bounds the money of a linear pool: no trade with a checked one can
      exceed the largest amount. */
  lemma CheckedPoolFitsTrades(maxSupply: int, initPrice: Dec, maxPrice: Dec, t: Table, supplied: int)
    requires ValidateCurve(maxSupply, 0, initPrice, maxPrice) && ValidTable(t) && 0 <= supplied <= maxSupply
    ensures var c := NewCurve(maxSupply, 0, initPrice, maxPrice);
            ValidCurve(c) && 0 <= MoneyAt(c, t, supplied) <= MAX_TRADE_AMOUNT
  {
    CheckedCurveIsValid(maxSupply, 0, initPrice, maxPrice);
    var c := NewCurve(maxSupply, 0, initPrice, maxPrice);
    MoneyWithinMaximum(c, t, supplied);
    CurveEnds(c, t);
    FullMoneyFits(maxSupply, initPrice, maxPrice);
  }

  lemma FullMoneyFits(maxSupply: int, initPrice: Dec, maxPrice: Dec)
    requires 0 < maxSupply <= MAX_TRADE_AMOUNT && 0 <= initPrice && 0 <= maxPrice
    requires CheckMaxPrice(initPrice, maxPrice, maxSupply)
    ensures RoundInt(QuoInt(MulInt(maxPrice + initPrice, maxSupply), 2)) <= MAX_TRADE_AMOUNT
  {
    var sum := initPrice + maxPrice;
    var mean, x := sum / 2, sum * maxSupply;
    MulMonotone(sum, 2 * mean + 1, maxSupply);
    MulMonotone(0, sum, maxSupply);
    assert (2 * mean + 1) * maxSupply == 2 * (mean * maxSupply) + maxSupply;
    ChopMonotone(x / 2, MAX_TRADE_AMOUNT * ONE + HALF);
  }

  // ------------------------------------------------------------ the table mode

  /** `v` is the part of `span` that a row gives between its samples `j` and `j + 1`, where the
      supplied stock lies: the chord between the two, within the last digit. */
  predicate NearChord(v: int, span: int, row: seq<int>, j: nat, supplied: int, maxSupply: int)
    requires j + 1 < |row|
  {
    var from, upto := supplied * SUPPLY_RATIO_SAMPLES - j * maxSupply,
                      (j + 1) * maxSupply - supplied * SUPPLY_RATIO_SAMPLES;
    var chord, unit := row[j] * upto + row[j + 1] * from, MAX_INT32 * maxSupply;
    -(2 * span + ONE) * unit <= v * unit - chord * ONE * span <= (2 * span + ONE) * unit
  }

  predicate InSegment(j: nat, supplied: int, maxSupply: int)
  {
    j < SUPPLY_RATIO_SAMPLES && j * maxSupply <= supplied * SUPPLY_RATIO_SAMPLES <= (j + 1) * maxSupply
  }

  lemma LookupNear(t: Table, x: int, y: int)
    requires ValidTable(t) && 1 <= x < |t| && 0 <= y <= SUPPLY_RATIO_SAMPLES
    ensures -MAX_INT32 <= TableLookup(t, x, y) * MAX_INT32 - t[x][y] * ONE <= MAX_INT32
  {
    hide Quo;
    assert ValidRow(t[x]);
    assert t[x][0] <= t[x][y];
    QuoNear(NewDec(t[x][y]), MAX_INT32);
  }

  lemma Weighted(a: Dec, b: Dec, m: int, n: int, u: int, w: int)
    requires -MAX_INT32 <= a * MAX_INT32 - m * ONE <= MAX_INT32 && -MAX_INT32 <= b * MAX_INT32 - n * ONE <= MAX_INT32
    requires 0 <= u && 0 <= w
    ensures var d := (a * u + b * w) * MAX_INT32 - (m * u + n * w) * ONE;
            -MAX_INT32 * (u + w) <= d <= MAX_INT32 * (u + w)
  {
    var e, f := a * MAX_INT32 - m * ONE, b * MAX_INT32 - n * ONE;
    MulMonotone(-MAX_INT32, e, u);
    MulMonotone(e, MAX_INT32, u);
    MulMonotone(-MAX_INT32, f, w);
    MulMonotone(f, MAX_INT32, w);
    assert (a * u + b * w) * MAX_INT32 - (m * u + n * w) * ONE == e * u + f * w;
  }

  lemma BetweenNear(a: Dec, b: Dec, num: int, den: int)
    requires a <= b && 0 <= num && 0 < den
    ensures -den <= Between(a, b, num, den) * den - (a * (den - num) + b * num) <= den
  {
    hide Quo;
    MulMonotone(0, num, b - a);
    QuoNear((b - a) * num, den);
    var q := Quo((b - a) * num, NewDec(den));
    assert (q + a) * den - (a * (den - num) + b * num) == q * den - (b - a) * num;
  }

  lemma RatioAtSample(t: Table, x: int, j: nat, supplied: int, maxSupply: int)
    requires ValidTable(t) && 1 <= x < |t| && 0 <= supplied <= maxSupply && 0 < maxSupply
    requires j <= SUPPLY_RATIO_SAMPLES && j * maxSupply == supplied * SUPPLY_RATIO_SAMPLES
    ensures Ratio(t, x, supplied, maxSupply) == TableLookup(t, x, j)
  {
    hide TableLookup, Between, ValidRow;
    DivUnique(supplied * SUPPLY_RATIO_SAMPLES, maxSupply, j);
  }

  lemma RatioInside(t: Table, x: int, j: nat, supplied: int, maxSupply: int)
    requires ValidTable(t) && 1 <= x < |t| && 0 <= supplied <= maxSupply && 0 < maxSupply
    requires j < SUPPLY_RATIO_SAMPLES && j * maxSupply < supplied * SUPPLY_RATIO_SAMPLES < (j + 1) * maxSupply
    ensures Ratio(t, x, supplied, maxSupply) ==
            Between(TableLookup(t, x, j), TableLookup(t, x, j + 1), supplied * SUPPLY_RATIO_SAMPLES - j * maxSupply,
                    maxSupply)
  {
    hide TableLookup, Between, ValidRow;
    DivUnique(supplied * SUPPLY_RATIO_SAMPLES, maxSupply, j);
  }

  /** The interpolated ratio is the chord of the two looked-up samples, within the last digit. */
  lemma RatioOnChord(t: Table, x: int, j: nat, supplied: int, maxSupply: int)
    requires ValidTable(t) && 1 <= x < |t| && 0 <= supplied <= maxSupply && 0 < maxSupply
    requires InSegment(j, supplied, maxSupply)
    ensures var w := supplied * SUPPLY_RATIO_SAMPLES - j * maxSupply;
            var chord := TableLookup(t, x, j) * (maxSupply - w) + TableLookup(t, x, j + 1) * w;
            -maxSupply <= Ratio(t, x, supplied, maxSupply) * maxSupply - chord <= maxSupply
  {
    hide TableLookup, Between, Ratio, ValidRow;
    var w := supplied * SUPPLY_RATIO_SAMPLES - j * maxSupply;
    if w == 0 {
      RatioAtSample(t, x, j, supplied, maxSupply);
    } else if w == maxSupply {
      RatioAtSample(t, x, j + 1, supplied, maxSupply);
    } else {
      RatioInside(t, x, j, supplied, maxSupply);
      LookupMonotone(t, x, j, j + 1);
      BetweenNear(TableLookup(t, x, j), TableLookup(t, x, j + 1), w, maxSupply);
    }
  }

  lemma RatioNear(t: Table, x: int, j: nat, supplied: int, maxSupply: int)
    requires ValidTable(t) && 1 <= x < |t| && 0 <= supplied <= maxSupply && 0 < maxSupply
    requires InSegment(j, supplied, maxSupply)
    ensures var from, upto := supplied * SUPPLY_RATIO_SAMPLES - j * maxSupply,
                              (j + 1) * maxSupply - supplied * SUPPLY_RATIO_SAMPLES;
            var chord, unit := t[x][j] * upto + t[x][j + 1] * from, MAX_INT32 * maxSupply;
            -2 * unit <= Ratio(t, x, supplied, maxSupply) * unit - chord * ONE <= 2 * unit
  {
    hide TableLookup, Ratio, ValidRow;
    var w, u := supplied * SUPPLY_RATIO_SAMPLES - j * maxSupply, (j + 1) * maxSupply - supplied * SUPPLY_RATIO_SAMPLES;
    assert u == maxSupply - w;
    RatioOnChord(t, x, j, supplied, maxSupply);
    LookupNear(t, x, j);
    LookupNear(t, x, j + 1);
    var lo, hi := TableLookup(t, x, j), TableLookup(t, x, j + 1);
    Weighted(lo, hi, t[x][j], t[x][j + 1], u, w);
    TwoErrors(Ratio(t, x, supplied, maxSupply), lo * u + hi * w, t[x][j] * u + t[x][j + 1] * w, maxSupply);
  }

  lemma TwoErrors(r: Dec, sum: int, chord: int, whole: int)
    requires -whole <= r * whole - sum <= whole
    requires -MAX_INT32 * whole <= sum * MAX_INT32 - chord * ONE <= MAX_INT32 * whole
    ensures var unit := MAX_INT32 * whole; -2 * unit <= r * unit - chord * ONE <= 2 * unit
  {
    assert r * (MAX_INT32 * whole) == (r * whole) * MAX_INT32;
  }

  lemma PartOnChord(r: Dec, v: int, span: int, chord: int, unit: int)
    requires 0 <= span && 0 < unit && v <= r * span < v + ONE
    requires -2 * unit <= r * unit - chord * ONE <= 2 * unit
    ensures -(2 * span + ONE) * unit <= v * unit - chord * ONE * span <= (2 * span + ONE) * unit
  {
    MulMonotone(-2 * unit, r * unit - chord * ONE, span);
    MulMonotone(r * unit - chord * ONE, 2 * unit, span);
    MulMonotone(v, r * span, unit);
    MulMonotone(r * span, v + ONE, unit);
    assert (r * unit - chord * ONE) * span == (r * span) * unit - chord * ONE * span;
  }

  /** In the table mode the price follows the chords of the row of the pool's power, and the
      money beyond the initial price those of the row of that power plus one. */
  lemma TableFollowsChords(c: Curve, t: Table, j: nat, supplied: int)
    requires ValidCurve(c) && ValidTable(t) && c.maxMoney != 0 && 0 <= supplied <= c.maxSupply
    requires InSegment(j, supplied, c.maxSupply)
    ensures NearChord((PriceAt(c, t, supplied) - c.initPrice) * ONE, c.maxPrice - c.initPrice,
                      t[c.ar], j, supplied, c.maxSupply)
    ensures NearChord(MoneyAt(c, t, supplied) * ONE - c.initPrice * supplied,
                      c.maxMoney - c.initPrice * c.maxSupply / ONE,
                      t[c.ar + AR_SAMPLES], j, supplied, c.maxSupply)
  {
    hide Ratio, ValidRow;
    PriceOnChord(c, t, j, supplied);
    MoneyOnChord(c, t, j, supplied);
  }

  lemma PriceOnChord(c: Curve, t: Table, j: nat, supplied: int)
    requires ValidCurve(c) && ValidTable(t) && c.maxMoney != 0 && 0 <= supplied <= c.maxSupply
    requires InSegment(j, supplied, c.maxSupply)
    ensures NearChord((PriceAt(c, t, supplied) - c.initPrice) * ONE, c.maxPrice - c.initPrice,
                      t[c.ar], j, supplied, c.maxSupply)
  {
    hide Ratio, ValidRow;
    var r, span := Ratio(t, c.ar, supplied, c.maxSupply), c.maxPrice - c.initPrice;
    RatioBounds(t, c.ar, supplied, c.maxSupply);
    RatioNear(t, c.ar, j, supplied, c.maxSupply);
    MulMonotone(0, r, span);
    var from, upto := supplied * SUPPLY_RATIO_SAMPLES - j * c.maxSupply,
                      (j + 1) * c.maxSupply - supplied * SUPPLY_RATIO_SAMPLES;
    PartOnChord(r, (PriceAt(c, t, supplied) - c.initPrice) * ONE, span,
                t[c.ar][j] * upto + t[c.ar][j + 1] * from, MAX_INT32 * c.maxSupply);
  }

  lemma MoneyOnChord(c: Curve, t: Table, j: nat, supplied: int)
    requires ValidCurve(c) && ValidTable(t) && c.maxMoney != 0 && 0 <= supplied <= c.maxSupply
    requires InSegment(j, supplied, c.maxSupply)
    ensures NearChord(MoneyAt(c, t, supplied) * ONE - c.initPrice * supplied,
                      c.maxMoney - c.initPrice * c.maxSupply / ONE,
                      t[c.ar + AR_SAMPLES], j, supplied, c.maxSupply)
  {
    hide Ratio, ValidRow;
    var x := c.ar + AR_SAMPLES;
    var r, span := Ratio(t, x, supplied, c.maxSupply), c.maxMoney - c.initPrice * c.maxSupply / ONE;
    RatioBounds(t, x, supplied, c.maxSupply);
    RatioNear(t, x, j, supplied, c.maxSupply);
    SpanPositive(c);
    MulMonotone(0, r, span);
    MulMonotone(0, c.initPrice, c.maxSupply);
    MulMonotone(0, c.initPrice, supplied);
    var from, upto := supplied * SUPPLY_RATIO_SAMPLES - j * c.maxSupply,
                      (j + 1) * c.maxSupply - supplied * SUPPLY_RATIO_SAMPLES;
    PartOnChord(r, MoneyAt(c, t, supplied) * ONE - c.initPrice * supplied, span,
                t[x][j] * upto + t[x][j + 1] * from, MAX_INT32 * c.maxSupply);
  }

  // ------------------------------------------------------------ the power of a curve

  /** The power of a curve, in thousandths: the money missing to the end price over the whole
      supply, divided by the money beyond the initial price over it, both rounded down. */
  lemma PowerOfCurve(maxSupply: int, maxMoney: int, initPrice: Dec, maxPrice: Dec)
    requires initPrice * maxSupply < NewDec(maxMoney) <= maxPrice * maxSupply && initPrice != maxPrice
    ensures var ar := CalculateAR(maxSupply, maxMoney, initPrice, maxPrice);
            var missing, beyond := maxPrice * maxSupply - NewDec(maxMoney), NewDec(maxMoney) - initPrice * maxSupply;
            && ar * beyond <= AR_SAMPLES * missing
            && AR_SAMPLES * missing * ONE < ((ar + 1) * ONE + AR_SAMPLES) * beyond
  {
    hide TruncateInt, QuoTruncate;
    var missing, beyond := maxPrice * maxSupply - NewDec(maxMoney), NewDec(maxMoney) - initPrice * maxSupply;
    var y, ar := QuoTruncate(missing, beyond), CalculateAR(maxSupply, maxMoney, initPrice, maxPrice);
    QuoTruncateNear(missing, beyond);
    TruncateNear(y * AR_SAMPLES);
    PowerBounds(missing, beyond, y, ar);
  }

  lemma QuoTruncateNear(a: Dec, b: Dec)
    requires 0 <= a && 0 < b
    ensures var y := QuoTruncate(a, b); 0 <= y && y * b <= a * ONE < (y + 1) * b
  {
    var w := a * (ONE * ONE) / b;
    DivMonotone(0, a * (ONE * ONE), b);
    DivMonotone(0, w, ONE);
    var y := w / ONE;
    assert w * b <= a * (ONE * ONE) < w * b + b;
    MulMonotone(y * ONE, w, b);
    MulMonotone(w + 1, (y + 1) * ONE, b);
    assert (y * ONE) * b == (y * b) * ONE && ((y + 1) * ONE) * b == ((y + 1) * b) * ONE;
  }

  lemma TruncateNear(n: nat)
    ensures TruncateInt(n) * ONE <= n < TruncateInt(n) * ONE + ONE
  {
  }

  lemma PowerBounds(a: Dec, b: Dec, y: int, ar: int)
    requires 0 < b && y * b <= a * ONE < (y + 1) * b && ar * ONE <= y * AR_SAMPLES < (ar + 1) * ONE
    ensures ar * b <= AR_SAMPLES * a && AR_SAMPLES * a * ONE < ((ar + 1) * ONE + AR_SAMPLES) * b
  {
    MulMonotone(ar * ONE, y * AR_SAMPLES, b);
    MulMonotone(y * AR_SAMPLES, (ar + 1) * ONE, b);
    assert (ar * ONE) * b == (ar * b) * ONE && (y * AR_SAMPLES) * b == (y * b) * AR_SAMPLES;
    assert ((ar + 1) * ONE + AR_SAMPLES) * b == ((ar + 1) * ONE) * b + AR_SAMPLES * b;
  }
}
