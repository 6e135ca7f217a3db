/** Byte strings as store keys: lexicographic order, fixed-width big-endian numbers, and what
    a range of keys contains. A key is the sequence of its byte values. */
module ByteKeys {

  type Key = seq<int>

  /** `bytes.Compare(a, b) < 0` */
  predicate Less(a: Key, b: Key)
  {
    if b == [] then false
    else if a == [] then true
    else if a[0] != b[0] then a[0] < b[0]
    else Less(a[1..], b[1..])
  }

  lemma {:induction false} LessTotal(a: Key, b: Key)
    ensures Less(a, b) || a == b || Less(b, a)
    ensures !(Less(a, b) && Less(b, a)) && !Less(a, a)
  {
    if a != [] && b != [] && a[0] == b[0] {
      LessTotal(a[1..], b[1..]);
      assert a == [a[0]] + a[1..] && b == [b[0]] + b[1..];
    }
    if a != [] { LessTotal(a[1..], a[1..]); }
  }

  lemma {:induction false} LessTransitive(a: Key, b: Key, c: Key)
    requires Less(a, b) && Less(b, c)
    ensures Less(a, c)
  {
    if a != [] && a[0] == b[0] == c[0] { LessTransitive(a[1..], b[1..], c[1..]); }
  }

  lemma {:induction false} LessPrefixed(p: Key, a: Key, b: Key)
    ensures Less(p + a, p + b) <==> Less(a, b)
  {
    if p == [] {
      assert p + a == a && p + b == b;
    } else {
      assert (p + a)[1..] == p[1..] + a && (p + b)[1..] == p[1..] + b;
      LessPrefixed(p[1..], a, b);
    }
  }

  /** Between keys that start with equally long parts, the first parts decide if they differ. */
  lemma {:induction false} LessSameWidth(a: Key, x: Key, b: Key, y: Key)
    requires |a| == |b|
    ensures Less(a + x, b + y) <==> Less(a, b) || (a == b && Less(x, y))
  {
    if a == [] {
      assert a + x == x && b + y == y;
    } else {
      assert (a + x)[1..] == a[1..] + x && (b + y)[1..] == b[1..] + y;
      assert a == [a[0]] + a[1..] && b == [b[0]] + b[1..];
      LessSameWidth(a[1..], x, b[1..], y);
      LessTotal(a, a);
    }
  }

  predicate InRange(start: Key, end: Key, k: Key)
  {
    !Less(k, start) && Less(k, end)
  }

  /** The keys from `p` up to `p` with its last byte raised by one are those that start with `p`. */
  lemma {:induction false} PrefixRange(p: Key, c: int, k: Key)
    ensures InRange(p + [c], p + [c + 1], k) <==> p + [c] <= k
  {
    if p == [] {
      assert p + [c] == [c] && p + [c + 1] == [c + 1];
      if k != [] {
        assert !Less(k[1..], []);
        assert [c][1..] == [] && [c + 1][1..] == [];
        assert [c] <= k <==> k[0] == c;
      }
    } else {
      assert (p + [c])[1..] == p[1..] + [c] && (p + [c + 1])[1..] == p[1..] + [c + 1];
      if k != [] && k[0] == p[0] {
        PrefixRange(p[1..], c, k[1..]);
        assert p + [c] == [p[0]] + (p[1..] + [c]) && k == [k[0]] + k[1..];
        assert p + [c] <= k <==> p[1..] + [c] <= k[1..];
      } else if k != [] {
        assert (p + [c])[0] == p[0] != k[0];
      }
    }
  }

  // ------------------------------------------------------------ big-endian numbers

  function Pow256(w: nat): nat { if w == 0 then 1 else 256 * Pow256(w - 1) }

  /** The low `w` bytes of `n`, most significant byte first. */
  function BigEndian(n: nat, w: nat): (k: Key)
    ensures |k| == w
  {
    if w == 0 then [] else BigEndian(n / 256, w - 1) + [n % 256]
  }

  lemma Snoc(a: Key, b: Key, x: int, y: int)
    requires |a| == |b|
    ensures Less(a + [x], b + [y]) <==> Less(a, b) || (a == b && x < y)
  {
    LessSameWidth(a, [x], b, [y]);
    assert [x][1..] == [] && [y][1..] == [];
  }

  /** Fixed width makes byte order agree with numeric order. */
  lemma {:induction false} BigEndianOrder(m: nat, n: nat, w: nat)
    requires m < Pow256(w) && n < Pow256(w)
    ensures Less(BigEndian(m, w), BigEndian(n, w)) <==> m < n
    ensures BigEndian(m, w) == BigEndian(n, w) <==> m == n
  {
    if w > 0 {
      BigEndianOrder(m / 256, n / 256, w - 1);
      Snoc(BigEndian(m / 256, w - 1), BigEndian(n / 256, w - 1), m % 256, n % 256);
      var a, b := BigEndian(m, w), BigEndian(n, w);
      assert a[..w - 1] == BigEndian(m / 256, w - 1) && b[..w - 1] == BigEndian(n / 256, w - 1);
      assert a[w - 1] == m % 256 && b[w - 1] == n % 256;
    }
  }

  /** Byte `j` of `n`, counted from the least significant one. */
  function Digit(n: nat, j: nat): nat { if j == 0 then n % 256 else Digit(n / 256, j - 1) }

  /** The shortest big-endian form, empty for zero: what `big.Int.Bytes` returns. */
  function Bytes(n: nat): Key { if n == 0 then [] else Bytes(n / 256) + [n % 256] }

  lemma {:induction false} BytesDigit(n: nat, j: nat)
    ensures j < |Bytes(n)| ==> Bytes(n)[|Bytes(n)| - 1 - j] == Digit(n, j)
    ensures j >= |Bytes(n)| ==> Digit(n, j) == 0
    decreases j
  {
    if j > 0 { BytesDigit(n / 256, j - 1); }
  }

  lemma {:induction false} BigEndianDigit(n: nat, w: nat, j: nat)
    requires j < w
    ensures BigEndian(n, w)[w - 1 - j] == Digit(n, j)
  {
    if j > 0 { BigEndianDigit(n / 256, w - 1, j - 1); }
  }

  const DEC_BYTE_COUNT: nat := 40

  /** The sign of `d` is ignored, and bytes beyond the fortieth are cut off. */
  method DecToBigEndianBytes(d: int) returns (key: Key)
    ensures key == BigEndian(if d < 0 then -d else d, DEC_BYTE_COUNT)
  {
    var result := new int[DEC_BYTE_COUNT](_ => 0);
    var n: nat := if d < 0 then -d else d;
    var bytes := Bytes(n);
    var count := |bytes|;
    if |bytes| > DEC_BYTE_COUNT { count := DEC_BYTE_COUNT; }
    for i := 1 to count + 1
      invariant forall j | DEC_BYTE_COUNT - i < j < DEC_BYTE_COUNT :: result[j] == Digit(n, DEC_BYTE_COUNT - 1 - j)
      invariant forall j | 0 <= j <= DEC_BYTE_COUNT - i :: result[j] == 0
    {
      BytesDigit(n, i - 1);
      result[DEC_BYTE_COUNT - i] := bytes[|bytes| - i];
    }
    key := result[..];
    forall j | 0 <= j < DEC_BYTE_COUNT ensures key[j] == BigEndian(n, DEC_BYTE_COUNT)[j] {
      BytesDigit(n, DEC_BYTE_COUNT - 1 - j);
      BigEndianDigit(n, DEC_BYTE_COUNT, DEC_BYTE_COUNT - 1 - j);
    }
  }
}
