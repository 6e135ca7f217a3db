/** The queue of unlock times: one key per time and account, in order of time. */
module UnlockQueue {
  import opened ByteKeys
  import opened Ledgers
  import opened StoreKeys

  const QUEUE_PREFIX: string := "UnlockedCoinsQueue"
  const DELIMITER: int := 59
  /** Unlock times fit nanoseconds in 64 bits. */
  const MAX_TIME: nat := 9_223_372_036

  /** How a time is written into a key. */
  type TimeFormat = nat -> Key

  /** The written form has one width, sorts as the time does, and ends in a byte that can be raised. */
  ghost predicate Sortable(f: TimeFormat, width: nat)
  {
    && width > 0
    && (forall t | 0 <= t <= MAX_TIME :: |f(t)| == width && f(t)[width - 1] < 255)
    && (forall t, u | 0 <= t < u <= MAX_TIME :: Less(f(t), f(u)))
  }

  function Prefix(): Key { StringBytes(QUEUE_PREFIX) }

  function TimePrefix(f: TimeFormat, t: nat): Key { Prefix() + [DELIMITER] + f(t) }

  function QueueKey(f: TimeFormat, t: nat, addr: Addr): Key
  {
    TimePrefix(f, t) + ([DELIMITER] + StringBytes(addr))
  }

  /** The first key after all keys that start with `p`. */
  function PrefixEnd(p: Key): Key
    requires p != []
  {
    p[..|p| - 1] + [p[|p| - 1] + 1]
  }

  /** Such forms exist: eight bytes, and one that can be raised. */
  lemma SomeFormat() returns (f: TimeFormat)
    ensures Sortable(f, 9)
  {
    f := (t: nat) => BigEndian(t, 8) + [0];
    hide Pow256;
    EightBytesHoldTimes();
    forall t: nat, u: nat | t < u <= MAX_TIME ensures Less(f(t), f(u)) {
      BigEndianOrder(t, u, 8);
      Snoc(BigEndian(t, 8), BigEndian(u, 8), 0, 0);
    }
  }

  lemma EightBytesHoldTimes()
    ensures MAX_TIME < Pow256(8)
  {
    assert Pow256(4) == 0x1_0000_0000;
    assert Pow256(6) == 65536 * Pow256(4);
  }

  lemma FormatOrder(f: TimeFormat, width: nat, t: nat, u: nat)
    requires Sortable(f, width) && t <= MAX_TIME && u <= MAX_TIME
    ensures Less(f(t), f(u)) <==> t < u
    ensures f(t) == f(u) <==> t == u
  {
    LessTotal(f(t), f(u));
    LessTotal(f(t), f(t));
    if u < t { assert Less(f(u), f(t)); }
  }

  lemma QueueKeyInjective(f: TimeFormat, width: nat, t: nat, a: Addr, u: nat, b: Addr)
    requires Sortable(f, width) && t <= MAX_TIME && u <= MAX_TIME && QueueKey(f, t, a) == QueueKey(f, u, b)
    ensures t == u && a == b
  {
    var p := Prefix() + [DELIMITER];
    assert QueueKey(f, t, a) == p + (f(t) + ([DELIMITER] + StringBytes(a)));
    assert QueueKey(f, u, b) == p + (f(u) + ([DELIMITER] + StringBytes(b)));
    SlicePast(p, f(t) + ([DELIMITER] + StringBytes(a)));
    SlicePast(p, f(u) + ([DELIMITER] + StringBytes(b)));
    SlicePast(f(t), [DELIMITER] + StringBytes(a));
    SlicePast(f(u), [DELIMITER] + StringBytes(b));
    SlicePast([DELIMITER], StringBytes(a));
    SlicePast([DELIMITER], StringBytes(b));
    StringBytesInjective(a, b);
    FormatOrder(f, width, t, u);
  }

  /** Same-width keys: below the raised form of `y` are exactly `y` and what is below it. */
  lemma BelowRaised(x: Key, tail: Key, y: Key)
    requires |x| == |y| && y != []
    ensures Less(x + tail, PrefixEnd(y)) <==> Less(x, y) || x == y
  {
    hide Less;
    var n := |y| - 1;
    RaisedParts(x, tail, y);
    LessSameWidth(x[..n], [x[n]] + tail, y[..n], [y[n] + 1]);
    LessSameWidth(x[..n], [x[n]], y[..n], [y[n]]);
    HeadDecides(x[n], tail, y[n]);
    LessTotal(x[..n], y[..n]);
  }

  lemma RaisedParts(x: Key, tail: Key, y: Key)
    requires |x| == |y| && y != []
    ensures var n := |y| - 1;
            && x == x[..n] + [x[n]] && y == y[..n] + [y[n]] && PrefixEnd(y) == y[..n] + [y[n] + 1]
            && x + tail == x[..n] + ([x[n]] + tail)
  {
  }

  lemma HeadDecides(a: int, tail: Key, b: int)
    ensures Less([a] + tail, [b + 1]) <==> a <= b
    ensures Less([a], [b]) <==> a < b
  {
    assert ([a] + tail)[1..] == tail && [b + 1][1..] == [] && [a][1..] == [] && [b][1..] == [];
  }

  /** The range up to a time selects exactly the keys of that time and of earlier ones. */
  lemma DueRange(f: TimeFormat, width: nat, t: nat, addr: Addr, time: nat)
    requires Sortable(f, width) && t <= MAX_TIME && time <= MAX_TIME
    ensures InRange(Prefix(), PrefixEnd(TimePrefix(f, time)), QueueKey(f, t, addr)) <==> t <= time
  {
    var p, tail := Prefix() + [DELIMITER], [DELIMITER] + StringBytes(addr);
    assert QueueKey(f, t, addr) == Prefix() + ([DELIMITER] + f(t) + tail);
    LessOwnPrefix(Prefix(), [DELIMITER] + f(t) + tail);
    assert QueueKey(f, t, addr) == p + (f(t) + tail);
    assert PrefixEnd(TimePrefix(f, time)) == p + PrefixEnd(f(time));
    LessPrefixed(p, f(t) + tail, PrefixEnd(f(time)));
    BelowRaised(f(t), tail, f(time));
    FormatOrder(f, width, t, time);
  }
}
