/** The fixed-point decimals of cosmos-sdk (`sdk.Dec`): an integer scaled by 10^18.
    `Mul` and `Quo` round half to even, the `Truncate` variants drop the fraction. */
module Decimals {

  type Dec = int

  /** The largest 64-bit integer. */
  const MAX_INT64: int := 9_223_372_036_854_775_807

  /** What a 64-bit integer holds after a sum that may have passed its largest value. */
  function AsInt64(n: int): int
  {
    (n + MAX_INT64 + 1) % (2 * (MAX_INT64 + 1)) - (MAX_INT64 + 1)
  }

  const ONE: int := 1_000_000_000_000_000_000
  const HALF: int := 500_000_000_000_000_000

  /** Integer division that truncates toward zero, as `big.Int.Quo` does. */
  function TruncDiv(a: int, b: int): int
    requires b > 0
  {
    if a >= 0 then a / b else -((-a) / b)
  }

  /** Drops one factor of 10^18, rounding half to even. */
  function Chop(n: int): int
  {
    if n < 0 then -ChopNat(-n) else ChopNat(n)
  }

  function ChopNat(n: nat): int
  {
    var quo, rem := n / ONE, n % ONE;
    if rem < HALF then quo
    else if rem > HALF then quo + 1
    else if quo % 2 == 0 then quo else quo + 1
  }

  function NewDec(n: int): Dec { n * ONE }

  function Mul(a: Dec, b: Dec): Dec { Chop(a * b) }

  function MulTruncate(a: Dec, b: Dec): Dec { TruncDiv(a * b, ONE) }

  function MulInt(a: Dec, n: int): Dec { a * n }

  /** `Quo` first truncates to 36 fractional digits and only then rounds. */
  function Quo(a: Dec, b: Dec): Dec
    requires b > 0
  {
    Chop(TruncDiv(a * (ONE * ONE), b))
  }

  function QuoTruncate(a: Dec, b: Dec): Dec
    requires b > 0
  {
    TruncDiv(TruncDiv(a * (ONE * ONE), b), ONE)
  }

  function QuoInt(a: Dec, n: int): Dec
    requires n > 0
  {
    TruncDiv(a, n)
  }

  function TruncateInt(a: Dec): int { TruncDiv(a, ONE) }

  function RoundInt(a: Dec): int { Chop(a) }

  function Ceil(a: Dec): Dec
  {
    var quo, rem := TruncDiv(a, ONE), a - TruncDiv(a, ONE) * ONE;
    if rem <= 0 then NewDec(quo) else NewDec(quo + 1)
  }

  lemma ChopMonotone(m: int, n: int)
    requires 0 <= m <= n
    ensures 0 <= Chop(m) <= Chop(n)
  {
    if m / ONE == n / ONE {
    } else {
      assert m / ONE + 1 <= n / ONE;
    }
  }

  lemma ChopExact(k: int)
    ensures Chop(k * ONE) == k
  {
    if k >= 0 {
      assert (k * ONE) / ONE == k && (k * ONE) % ONE == 0;
    } else {
      assert ((-k) * ONE) / ONE == -k && ((-k) * ONE) % ONE == 0;
      assert -(k * ONE) == (-k) * ONE;
    }
  }

  /** Rounding never leaves an integer interval that holds the exact value. */
  lemma ChopWithin(n: int, low: int, high: int)
    requires 0 <= low && low * ONE <= n <= high * ONE
    ensures low <= Chop(n) <= high
  {
    ChopExact(low);
    ChopExact(high);
    ChopMonotone(low * ONE, n);
    ChopMonotone(n, high * ONE);
  }

  lemma DivMonotone(a: int, b: int, d: int)
    requires 0 <= a <= b && 0 < d
    ensures 0 <= a / d <= b / d
  {
    var qa, qb := a / d, b / d;
    assert qa * d <= a && b < qb * d + d;
    assert qa * d < (qb + 1) * d;
  }

  lemma MulMonotone(a: int, b: int, c: int)
    requires a <= b && 0 <= c
    ensures a * c <= b * c
  {
  }

  lemma QuoMonotone(a: Dec, b: Dec, d: Dec)
    requires 0 <= a <= b && 0 < d
    ensures 0 <= Quo(a, d) <= Quo(b, d)
  {
    DivMonotone(a * (ONE * ONE), b * (ONE * ONE), d);
    ChopMonotone((a * (ONE * ONE)) / d, (b * (ONE * ONE)) / d);
  }

  /** A quotient of whole numbers is exact when the division is. */
  lemma QuoExact(q: int, d: int)
    requires 0 <= q && 0 < d
    ensures Quo(q * d, d) == q * ONE
  {
    var wide := ONE * ONE;
    assert (q * d) * wide == (q * wide) * d;
    DivCancel(q * wide, d);
    assert q * wide == (q * ONE) * ONE;
    ChopExact(q * ONE);
  }

  lemma DivCancel(a: int, d: int)
    requires d > 0
    ensures (a * d) / d == a
  {
    var q, r := (a * d) / d, (a * d) % d;
    assert a * d == q * d + r;
    assert (a - q) * d == r;
    if a - q >= 1 { MulMonotone(1, a - q, d); }
    if a - q <= -1 { MulMonotone(a - q, -1, d); }
  }

  /** A quotient is the one number of divisors that fits and leaves less than one over. */
  lemma DivUnique(a: int, d: int, q: int)
    requires d > 0 && q * d <= a < q * d + d
    ensures a / d == q
  {
    var p, r := a / d, a % d;
    assert a == p * d + r;
    if p > q { MulMonotone(q + 1, p, d); }
    if p < q { MulMonotone(p + 1, q, d); }
  }

  /** Scaling both sides of a division changes nothing. */
  lemma DivScaled(a: int, d: int, s: int)
    requires 0 <= a && 0 < d && 0 < s
    ensures (a * s) / (d * s) == a / d
  {
    var q := a / d;
    assert q * d <= a < q * d + d;
    MulMonotone(q * d, a, s);
    MulMonotone(a + 1, q * d + d, s);
    assert d * s > 0 by { MulMonotone(1, d, s); }
    assert q * (d * s) == (q * d) * s;
    DivUnique(a * s, d * s, q);
  }

  /** Whether a rounded-down quotient reaches `m`. */
  lemma DivReaches(a: int, d: int, m: int)
    requires 0 < d
    ensures a / d >= m <==> a >= m * d
  {
    var q := a / d;
    assert q * d <= a < q * d + d;
    if q >= m { MulMonotone(m, q, d); } else { MulMonotone(q + 1, m, d); }
  }

  /** The whole part of a rounded number of 36 digits is its own whole part, unless the fraction
      is so near to one that rounding to 18 digits completes it. */
  lemma WholeOfRounded(k: int, z: int)
    requires 0 <= k && 0 <= z < ONE * ONE
    ensures TruncateInt(Chop(k * (ONE * ONE) + z)) == if z >= ONE * ONE - HALF then k + 1 else k
  {
    var n, u, v := k * (ONE * ONE) + z, z / ONE, z % ONE;
    assert n == (k * ONE + u) * ONE + v;
    DivUnique(n, ONE, k * ONE + u);
    assert u <= ONE - 1;
    var c := Chop(n);
    assert c == k * ONE + u || c == k * ONE + u + 1;
    if z >= ONE * ONE - HALF {
      assert u == ONE - 1 && v >= HALF;
      assert (k * ONE + u) % 2 == 1;
      DivUnique(c, ONE, k + 1);
    } else {
      DivUnique(c, ONE, k);
    }
  }

  /** A quotient by a whole number before it is rounded to 18 digits. */
  lemma QuoByWhole(a: Dec, n: int)
    requires 0 <= a && 0 < n
    ensures Quo(a, NewDec(n)) == Chop(a * ONE / n)
  {
    hide Chop;
    var wide := a * ONE;
    assert a * (ONE * ONE) == wide * ONE;
    DivScaled(wide, n, ONE);
    MulMonotone(1, n, ONE);
  }

  /** Rounding moves a number by half a unit at most. */
  lemma ChopNear(n: nat)
    ensures -HALF <= Chop(n) * ONE - n <= HALF && 0 <= Chop(n)
  {
  }

  /** A quotient by a whole number is off by less than a unit of the last digit. */
  lemma QuoNear(a: Dec, n: int)
    requires 0 <= a && 0 < n
    ensures -n <= Quo(a, NewDec(n)) * n - a <= n
  {
    hide Chop, Quo;
    QuoByWhole(a, n);
    var y, q := a * ONE / n, Quo(a, NewDec(n));
    DivMonotone(0, a * ONE, n);
    ChopNear(y);
    assert y * n <= a * ONE < y * n + n;
    MulMonotone(y - HALF, q * ONE, n);
    MulMonotone(q * ONE, y + HALF, n);
    assert (q * ONE) * n == (q * n) * ONE;
  }

  lemma QuotientOfSum(a: int, b: int, q: int)
    requires 0 < q
    ensures (a * q + b) / q == a + b / q
  {
    var z := b / q;
    assert z * q <= b < z * q + q;
    assert (a + z) * q == a * q + z * q;
    DivUnique(a * q + b, q, a + z);
  }

  lemma PartOfWide(r: int, q: int, wide: int)
    requires 0 <= r < q && 0 < wide
    ensures 0 <= r * wide / q < wide
  {
    MulMonotone(r + 1, q, wide);
    assert (r + 1) * wide == r * wide + wide;
    DivMonotone(0, r * wide, q);
    DivReaches(r * wide, q, wide);
  }

  lemma SumOfMultiples(n: int, q: int, k: int, r: int, wide: int)
    requires n == k * q + r
    ensures n * wide == (k * wide) * q + r * wide
  {
    assert (k * q + r) * wide == (k * q) * wide + r * wide;
  }

  lemma FloorOfQuotient(a: int, b: int)
    requires 0 <= a && 0 < b
    ensures TruncateInt(QuoInt(a * ONE, b)) == a / b
  {
    var q, y := a / b, a * ONE / b;
    assert q * b <= a < q * b + b;
    assert (q * ONE) * b == (q * b) * ONE;
    MulMonotone(q * b, a, ONE);
    MulMonotone(a + 1, q * b + b, ONE);
    DivReaches(a * ONE, b, q * ONE);
    DivReaches(a * ONE, b, q * ONE + ONE) by { assert (q * ONE + ONE) * b == (q * b + b) * ONE; }
    DivMonotone(0, a, b);
    DivUnique(y, ONE, q);
  }
}
