/** The byte keys of the market store: where an order is kept, the queue by height, and the
    lists by price. What a range of such keys selects is proved once here. */
module StoreKeys {
  import opened ByteKeys
  import opened Auction
  import opened Orders

  const ORDER_BOOK: int := 0x11
  const BID_LIST: int := 0x12
  const ASK_LIST: int := 0x13
  const ORDER_QUEUE: int := 0x14
  const NEWLY_ADDED: int := 0x66
  const DELIST: int := 0x40
  const DELIST_REV: int := 0x42
  const HEIGHT_BYTES: nat := 8

  function ByteAt(s: string, i: nat): int
    requires i < |s|
  {
    s[i] as int
  }

  function StringBytes(s: string): (k: Key)
    ensures |k| == |s|
  {
    seq(|s|, i requires 0 <= i < |s| => ByteAt(s, i))
  }

  lemma StringBytesInjective(s: string, t: string)
    requires StringBytes(s) == StringBytes(t)
    ensures s == t
  {
    assert |s| == |t|;
    forall i | 0 <= i < |s| ensures s[i] == t[i] {
      assert StringBytes(s)[i] == ByteAt(s, i) && StringBytes(t)[i] == ByteAt(t, i);
    }
  }

  /** No byte of a symbol is zero, so the zero byte after it ends it. */
  predicate ZeroFree(s: string)
  {
    forall i | 0 <= i < |s| :: s[i] as int != 0
  }

  function SymbolPrefix(tag: int, symbol: string): (k: Key)
    ensures |k| == |symbol| + 2
  {
    [tag] + StringBytes(symbol) + [0]
  }

  function SymbolEnd(tag: int, symbol: string): Key { [tag] + StringBytes(symbol) + [1] }

  function OrderBookKey(id: Key): Key { [ORDER_BOOK, 0] + id }

  /** A key of one market that sorts by a fixed-width number and then by the identifier. */
  function NumberedKey(tag: int, symbol: string, number: nat, width: nat, id: OrderID): Key
  {
    SymbolPrefix(tag, symbol) + (BigEndian(number, width) + StringBytes(id))
  }

  function QueueKey(t: Terms): Key
    requires t.height >= 0
  {
    NumberedKey(ORDER_QUEUE, t.symbol, t.height, HEIGHT_BYTES, t.id)
  }

  function ListTag(side: Side): int { if side == Bid then BID_LIST else ASK_LIST }

  function ListKey(t: Terms): Key
    requires t.price >= 0
  {
    NumberedKey(ListTag(t.side), t.symbol, t.price, DEC_BYTE_COUNT, t.id)
  }

  /** Numbers that fit their fixed width and symbols that end at the first zero byte. */
  predicate Storable(t: Terms)
  {
    ZeroFree(t.symbol) && 0 <= t.height < Pow256(HEIGHT_BYTES) && 0 <= t.price < Pow256(DEC_BYTE_COUNT)
  }

  // ------------------------------------------------------------ reading keys

  lemma SlicePast(a: Key, b: Key)
    ensures (a + b)[|a|..] == b && (a + b)[..|a|] == a
  {
  }

  lemma NumberedKeyParts(tag: int, symbol: string, number: nat, width: nat, id: OrderID, p: nat, q: nat)
    requires p == |symbol| + 2 && q == p + width
    ensures var k := NumberedKey(tag, symbol, number, width, id);
            |k| >= q && k[p..q] == BigEndian(number, width) && k[q..] == StringBytes(id)
  {
    var k, head, num, tail := NumberedKey(tag, symbol, number, width, id), SymbolPrefix(tag, symbol),
        BigEndian(number, width), StringBytes(id);
    assert |head| == p;
    SlicePast(head, num + tail);
    SlicePast(num, tail);
    assert k[p..] == num + tail;
    assert k[p..q] == k[p..][..width];
    assert k[q..] == k[p..][width..];
  }

  lemma ByteOrEnd(s: string, x: Key, i: nat)
    requires ZeroFree(s) && i <= |s|
    ensures var k := StringBytes(s) + [0] + x;
            if i < |s| then k[i] == ByteAt(s, i) != 0 else k[i] == 0
  {
  }

  /** Two zero-ended symbols at the front of a key are the same symbol. */
  lemma {:induction false} SymbolEndsAtZero(s: string, t: string, x: Key, y: Key, i: nat)
    requires ZeroFree(s) && ZeroFree(t) && i <= |s| && i <= |t|
    requires StringBytes(s) + [0] + x == StringBytes(t) + [0] + y
    requires s[..i] == t[..i]
    ensures s == t && x == y
    decreases |s| - i
  {
    ByteOrEnd(s, x, i);
    ByteOrEnd(t, y, i);
    if i < |s| && i < |t| {
      assert s[..i + 1] == s[..i] + [s[i]] && t[..i + 1] == t[..i] + [t[i]];
      SymbolEndsAtZero(s, t, x, y, i + 1);
    } else if i == |s| && i == |t| {
      assert s == s[..i] && t == t[..i];
      SlicePast(StringBytes(s) + [0], x);
      SlicePast(StringBytes(t) + [0], y);
    }
  }

  lemma PrefixTellsSymbol(tag: int, s: string, tag2: int, t: string, rest: Key)
    requires ZeroFree(s) && ZeroFree(t) && SymbolPrefix(tag, s) <= SymbolPrefix(tag2, t) + rest
    ensures tag == tag2 && s == t
  {
    var k := SymbolPrefix(tag2, t) + rest;
    var p := SymbolPrefix(tag, s);
    assert k[0] == tag2 && p[0] == tag && k[..|p|] == p;
    var x := k[|p|..];
    assert k == p + x;
    assert k[1..] == StringBytes(t) + [0] + rest;
    assert (p + x)[1..] == StringBytes(s) + [0] + x;
    SymbolEndsAtZero(s, t, x, rest, 0);
  }

  /** A key determines the tag, the market, the number and the identifier in it. */
  lemma NumberedKeyInjective(tag: int, s: string, m: nat, width: nat, a: OrderID, tag2: int, t: string, n: nat,
                             b: OrderID)
    requires ZeroFree(s) && ZeroFree(t) && m < Pow256(width) && n < Pow256(width)
    requires NumberedKey(tag, s, m, width, a) == NumberedKey(tag2, t, n, width, b)
    ensures tag == tag2 && s == t && m == n && a == b
  {
    var k := NumberedKey(tag, s, m, width, a);
    PrefixTellsSymbol(tag, s, tag2, t, BigEndian(n, width) + StringBytes(b));
    NumberedKeyParts(tag, s, m, width, a, |s| + 2, |s| + 2 + width);
    NumberedKeyParts(tag2, t, n, width, b, |s| + 2, |s| + 2 + width);
    BigEndianOrder(m, n, width);
    StringBytesInjective(a, b);
  }

  // ------------------------------------------------------------ ranges

  /** Everything in a market's range starts with its prefix, and the other way round. */
  lemma MarketRange(tag: int, symbol: string, k: Key)
    ensures InRange(SymbolPrefix(tag, symbol), SymbolEnd(tag, symbol), k) <==> SymbolPrefix(tag, symbol) <= k
  {
    PrefixRange([tag] + StringBytes(symbol), 0, k);
  }

  lemma LessOwnPrefix(p: Key, x: Key)
    ensures !Less(p + x, p)
  {
    LessPrefixed(p, x, []);
    assert p + [] == p;
  }

  /** The range below a number selects the keys of the market with a smaller number. */
  lemma BelowNumber(tag: int, symbol: string, number: nat, width: nat, k: Key)
    ensures InRange(SymbolPrefix(tag, symbol), SymbolPrefix(tag, symbol) + BigEndian(number, width), k) ==>
            SymbolPrefix(tag, symbol) <= k
  {
    var start := SymbolPrefix(tag, symbol);
    var end := start + BigEndian(number, width);
    if InRange(start, end, k) {
      var p := [tag] + StringBytes(symbol);
      assert end == p + ([0] + BigEndian(number, width));
      LessPrefixed(p, [0] + BigEndian(number, width), [1]);
      LessTransitive(k, end, SymbolEnd(tag, symbol));
      MarketRange(tag, symbol, k);
    }
  }

  lemma NumberBelow(tag: int, symbol: string, m: nat, n: nat, width: nat, id: OrderID)
    requires m < Pow256(width) && n < Pow256(width)
    ensures var start := SymbolPrefix(tag, symbol);
            InRange(start, start + BigEndian(n, width), NumberedKey(tag, symbol, m, width, id)) <==> m < n
  {
    var start, num, lim, tail := SymbolPrefix(tag, symbol), BigEndian(m, width), BigEndian(n, width), StringBytes(id);
    LessOwnPrefix(start, num + tail);
    LessPrefixed(start, num + tail, lim);
    assert lim + [] == lim;
    LessSameWidth(num, tail, lim, []);
    BigEndianOrder(m, n, width);
  }

  lemma NumberBetween(tag: int, symbol: string, m: nat, low: nat, high: nat, width: nat, id: OrderID)
    requires m < Pow256(width) && low < Pow256(width) && high < Pow256(width)
    ensures var start, k := SymbolPrefix(tag, symbol), NumberedKey(tag, symbol, m, width, id);
            InRange(start + BigEndian(low, width), start + BigEndian(high, width), k) <==> low <= m < high
  {
    var start, num, tail := SymbolPrefix(tag, symbol), BigEndian(m, width), StringBytes(id);
    NumberBelow(tag, symbol, m, high, width, id);
    LessOwnPrefix(start, num + tail);
    var lo := BigEndian(low, width);
    LessPrefixed(start, num + tail, lo);
    assert lo + [] == lo;
    LessSameWidth(num, tail, lo, []);
    BigEndianOrder(m, low, width);
  }

  /** A later key of the same market and tag carries no smaller number. */
  lemma LaterKeyLargerNumber(tag: int, symbol: string, m: nat, a: OrderID, n: nat, b: OrderID, width: nat)
    requires m < Pow256(width) && n < Pow256(width)
    requires Less(NumberedKey(tag, symbol, m, width, a), NumberedKey(tag, symbol, n, width, b))
    ensures m <= n
  {
    var start := SymbolPrefix(tag, symbol);
    LessPrefixed(start, BigEndian(m, width) + StringBytes(a), BigEndian(n, width) + StringBytes(b));
    LessSameWidth(BigEndian(m, width), StringBytes(a), BigEndian(n, width), StringBytes(b));
    BigEndianOrder(m, n, width);
  }
}
