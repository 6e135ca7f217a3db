/** Requests to delist a market, kept twice: by time, so that due requests are one range of
    keys, and by symbol. `requests` is the plain map that both indexes stand for. */
module Delist {
  import opened ByteKeys
  import opened KVStores
  import opened OrderStore
  import opened Slices
  import opened StoreKeys

  const TIME_BYTES: nat := 8

  function DelistKey(time: nat, symbol: string): Key
  {
    [DELIST] + (BigEndian(time, TIME_BYTES) + ([0] + StringBytes(symbol)))
  }

  function RevKey(symbol: string): Key { [DELIST_REV] + StringBytes(symbol) }

  predicate IsDelistKey(k: Key) { k != [] && (k[0] == DELIST || k[0] == DELIST_REV) }

  type Requests = map<string, nat>

  ghost predicate Requested(data: map<Key, Value>, symbol: string, time: nat)
  {
    && time < Pow256(TIME_BYTES)
    && DelistKey(time, symbol) in data && data[DelistKey(time, symbol)] == SymbolValue(symbol)
    && RevKey(symbol) in data && data[RevKey(symbol)] == TimeValue(time)
  }

  ghost predicate IsRequest(k: Key, requests: Requests)
  {
    exists s :: s in requests && (k == DelistKey(requests[s], s) || k == RevKey(s))
  }

  /** Each index holds every request and nothing else, so each is the inverse of the other. */
  ghost predicate DelistIndexed(data: map<Key, Value>, requests: Requests)
  {
    && (forall s | s in requests :: Requested(data, s, requests[s]))
    && (forall k | k in data && IsDelistKey(k) :: IsRequest(k, requests))
  }

  /** Nothing but keys of delist requests differs. */
  ghost predicate OnlyDelistChanged(before: map<Key, Value>, after: map<Key, Value>)
  {
    forall k | !IsDelistKey(k) :: (k in after <==> k in before) && (k in before ==> after[k] == before[k])
  }

  lemma DelistKeyParts(time: nat, symbol: string)
    ensures var k := DelistKey(time, symbol);
            |k| >= TIME_BYTES + 2 && k[0] == DELIST && k[TIME_BYTES + 2..] == StringBytes(symbol)
  {
    var num, tail := BigEndian(time, TIME_BYTES), [0] + StringBytes(symbol);
    SlicePast([DELIST] + num + [0], StringBytes(symbol));
    assert DelistKey(time, symbol) == [DELIST] + num + [0] + StringBytes(symbol);
  }

  lemma DelistKeyInjective(t: nat, a: string, u: nat, b: string)
    requires t < Pow256(TIME_BYTES) && u < Pow256(TIME_BYTES) && DelistKey(t, a) == DelistKey(u, b)
    ensures t == u && a == b
  {
    DelistKeyParts(t, a);
    DelistKeyParts(u, b);
    StringBytesInjective(a, b);
    var k := DelistKey(t, a);
    SlicePast([DELIST], BigEndian(t, TIME_BYTES) + ([0] + StringBytes(a)));
    SlicePast([DELIST], BigEndian(u, TIME_BYTES) + ([0] + StringBytes(b)));
    SlicePast(BigEndian(t, TIME_BYTES), [0] + StringBytes(a));
    SlicePast(BigEndian(u, TIME_BYTES), [0] + StringBytes(b));
    BigEndianOrder(t, u, TIME_BYTES);
  }

  lemma RevKeyInjective(a: string, b: string)
    requires RevKey(a) == RevKey(b)
    ensures a == b
  {
    SlicePast([DELIST_REV], StringBytes(a));
    SlicePast([DELIST_REV], StringBytes(b));
    StringBytesInjective(a, b);
  }

  /** The range of all times up to and including `time`. */
  function RangeStart(): Key { [DELIST] + (BigEndian(0, TIME_BYTES) + [0]) }

  function RangeEnd(time: nat): Key { [DELIST] + (BigEndian(time, TIME_BYTES) + [1]) }

  lemma {:induction false} ZeroIsLeast(k: Key, w: nat)
    requires |k| == w && forall i | 0 <= i < w :: 0 <= k[i]
    ensures !Less(k, BigEndian(0, w))
  {
    if w > 0 {
      var front := k[..w - 1];
      assert k == front + [k[w - 1]];
      ZeroIsLeast(front, w - 1);
      LessTotal(front, BigEndian(0, w - 1));
      Snoc(front, BigEndian(0, w - 1), k[w - 1], 0);
    }
  }

  lemma {:induction false} BigEndianNonNegative(n: nat, w: nat)
    ensures forall i | 0 <= i < w :: 0 <= BigEndian(n, w)[i]
  {
    if w > 0 { BigEndianNonNegative(n / 256, w - 1); }
  }

  lemma DueRange(u: nat, symbol: string, time: nat)
    requires u < Pow256(TIME_BYTES) && time < Pow256(TIME_BYTES)
    ensures InRange(RangeStart(), RangeEnd(time), DelistKey(u, symbol)) <==> u <= time
  {
    var num, zero, lim, tail := BigEndian(u, TIME_BYTES), BigEndian(0, TIME_BYTES), BigEndian(time, TIME_BYTES),
        [0] + StringBytes(symbol);
    LessPrefixed([DELIST], num + tail, zero + [0]);
    LessSameWidth(num, tail, zero, [0]);
    BigEndianNonNegative(u, TIME_BYTES);
    ZeroIsLeast(num, TIME_BYTES);
    LessOwnPrefix([0], StringBytes(symbol));
    LessPrefixed([DELIST], num + tail, lim + [1]);
    LessSameWidth(num, tail, lim, [1]);
    BigEndianOrder(u, time, TIME_BYTES);
    assert Less(tail, [1]);
  }

  lemma RangeIsDelist(time: nat, k: Key)
    requires InRange(RangeStart(), RangeEnd(time), k)
    ensures k != [] && k[0] == DELIST
  {
    assert RangeStart()[0] == DELIST && RangeEnd(time)[0] == DELIST;
  }

  // ------------------------------------------------------------ one more request

  function Entered(data: map<Key, Value>, time: nat, symbol: string): map<Key, Value>
  {
    data[DelistKey(time, symbol) := SymbolValue(symbol)][RevKey(symbol) := TimeValue(time)]
  }

  lemma KindsApart(time: nat, a: string, b: string)
    ensures DelistKey(time, a) != RevKey(b) && IsDelistKey(DelistKey(time, a)) && IsDelistKey(RevKey(b))
  {
    assert DelistKey(time, a)[0] == DELIST && RevKey(b)[0] == DELIST_REV;
  }

  lemma OthersRequested(data: map<Key, Value>, time: nat, symbol: string, s: string, t: nat)
    requires time < Pow256(TIME_BYTES) && Requested(data, s, t) && s != symbol
    ensures Requested(Entered(data, time, symbol), s, t)
  {
    hide DelistKey, RevKey;
    KindsApart(time, symbol, s);
    KindsApart(t, s, symbol);
    if DelistKey(t, s) == DelistKey(time, symbol) { DelistKeyInjective(t, s, time, symbol); }
    if RevKey(s) == RevKey(symbol) { RevKeyInjective(s, symbol); }
  }

  lemma EnteredOwned(data: map<Key, Value>, requests: Requests, time: nat, symbol: string, k: Key)
    requires symbol !in requests || requests[symbol] == time
    requires k in Entered(data, time, symbol) && (k in data ==> IsRequest(k, requests))
    ensures IsRequest(k, requests[symbol := time])
  {
    hide DelistKey, RevKey;
    var next := requests[symbol := time];
    if k == DelistKey(time, symbol) || k == RevKey(symbol) {
      assert symbol in next && next[symbol] == time;
    } else {
      var s :| s in requests && (k == DelistKey(requests[s], s) || k == RevKey(s));
      assert s in next && next[s] == requests[s];
    }
  }

  lemma EnterKeeps(data: map<Key, Value>, requests: Requests, time: nat, symbol: string)
    requires DelistIndexed(data, requests) && time < Pow256(TIME_BYTES)
    requires symbol !in requests || requests[symbol] == time
    ensures DelistIndexed(Entered(data, time, symbol), requests[symbol := time])
  {
    var next := requests[symbol := time];
    KindsApart(time, symbol, symbol);
    hide DelistKey, RevKey, IsRequest;
    forall s | s in next ensures Requested(Entered(data, time, symbol), s, next[s]) {
      if s != symbol { OthersRequested(data, time, symbol, s, requests[s]); }
    }
    forall k | k in Entered(data, time, symbol) && IsDelistKey(k) ensures IsRequest(k, next) {
      EnteredOwned(data, requests, time, symbol, k);
    }
  }

  /** A second request at another time leaves the first time's key behind. */
  lemma EnterBreaks(data: map<Key, Value>, requests: Requests, time: nat, symbol: string)
    requires DelistIndexed(data, requests) && time < Pow256(TIME_BYTES)
    requires symbol in requests && requests[symbol] != time
    ensures !DelistIndexed(Entered(data, time, symbol), requests[symbol := time])
  {
    var stale := DelistKey(requests[symbol], symbol);
    assert Requested(data, symbol, requests[symbol]);
    KindsApart(requests[symbol], symbol, symbol);
    hide DelistKey, RevKey;
    var next := requests[symbol := time];
    if DelistIndexed(Entered(data, time, symbol), next) {
      assert stale in Entered(data, time, symbol);
      var s :| s in next && (stale == DelistKey(next[s], s) || stale == RevKey(s));
      assert Requested(Entered(data, time, symbol), s, next[s]);
      KindsApart(requests[symbol], symbol, s);
      DelistKeyInjective(requests[symbol], symbol, next[s], s);
    }
  }

  // ------------------------------------------------------------ due requests

  ghost function Due(requests: Requests, time: nat): set<string>
  {
    set s | s in requests && requests[s] <= time
  }

  /** `symbols` own the keys of the due range, at the same places. */
  ghost predicate DueKeys(keys: seq<Key>, symbols: seq<string>, requests: Requests)
  {
    && |symbols| == |keys|
    && forall i | 0 <= i < |keys| :: symbols[i] in requests && keys[i] == DelistKey(requests[symbols[i]], symbols[i])
  }

  ghost function Requester(k: Key, requests: Requests): (s: string)
    requires IsRequest(k, requests)
    ensures s in requests && (k == DelistKey(requests[s], s) || k == RevKey(s))
  {
    var s :| s in requests && (k == DelistKey(requests[s], s) || k == RevKey(s));
    s
  }

  lemma DueKeyOwner(data: map<Key, Value>, requests: Requests, time: nat, k: Key)
    requires DelistIndexed(data, requests) && time < Pow256(TIME_BYTES)
    requires k in data && InRange(RangeStart(), RangeEnd(time), k)
    ensures IsRequest(k, requests)
    ensures var s := Requester(k, requests); k == DelistKey(requests[s], s) && requests[s] <= time
  {
    RangeIsDelist(time, k);
    hide DelistKey, RevKey, InRange;
    var s := Requester(k, requests);
    KindsApart(requests[s], s, s);
    assert Requested(data, s, requests[s]);
    DueRange(requests[s], s, time);
  }

  lemma DueScan(data: map<Key, Value>, requests: Requests, time: nat, keys: seq<Key>) returns (symbols: seq<string>)
    requires DelistIndexed(data, requests) && time < Pow256(TIME_BYTES)
    requires Listing(data, RangeStart(), RangeEnd(time), keys)
    ensures DueKeys(keys, symbols, requests) && Distinct(symbols)
    ensures forall s :: s in symbols <==> s in Due(requests, time)
  {
    hide DelistKey, RevKey, InRange, IsRequest, Pow256;
    forall i | 0 <= i < |keys|
      ensures IsRequest(keys[i], requests)
      ensures var s := Requester(keys[i], requests); keys[i] == DelistKey(requests[s], s) && requests[s] <= time
    {
      assert keys[i] in keys;
      DueKeyOwner(data, requests, time, keys[i]);
    }
    symbols := seq(|keys|, i requires 0 <= i < |keys| && IsRequest(keys[i], requests) => Requester(keys[i], requests));
    forall s ensures s in symbols <==> s in Due(requests, time) {
      if s in Due(requests, time) {
        assert Requested(data, s, requests[s]);
        DueRange(requests[s], s, time);
        var i :| 0 <= i < |keys| && keys[i] == DelistKey(requests[s], s);
        assert Requested(data, symbols[i], requests[symbols[i]]);
        DelistKeyInjective(requests[s], s, requests[symbols[i]], symbols[i]);
      }
    }
  }

  lemma DueInOrder(data: map<Key, Value>, requests: Requests, keys: seq<Key>, symbols: seq<string>)
    requires DelistIndexed(data, requests) && DueKeys(keys, symbols, requests) && Ascending(keys)
    ensures forall i, j | 0 <= i < j < |symbols| ::
            symbols[i] in requests && symbols[j] in requests && requests[symbols[i]] <= requests[symbols[j]]
  {
    forall i, j | 0 <= i < j < |symbols|
      ensures symbols[i] in requests && symbols[j] in requests && requests[symbols[i]] <= requests[symbols[j]]
    {
      var t, u := requests[symbols[i]], requests[symbols[j]];
      assert Requested(data, symbols[i], t) && Requested(data, symbols[j], u);
      LaterKeyLaterTime(t, symbols[i], u, symbols[j]);
    }
  }

  lemma LaterKeyLaterTime(t: nat, a: string, u: nat, b: string)
    requires t < Pow256(TIME_BYTES) && u < Pow256(TIME_BYTES) && Less(DelistKey(t, a), DelistKey(u, b))
    ensures t <= u
  {
    LessPrefixed([DELIST], BigEndian(t, TIME_BYTES) + ([0] + StringBytes(a)),
                 BigEndian(u, TIME_BYTES) + ([0] + StringBytes(b)));
    LessSameWidth(BigEndian(t, TIME_BYTES), [0] + StringBytes(a), BigEndian(u, TIME_BYTES), [0] + StringBytes(b));
    BigEndianOrder(t, u, TIME_BYTES);
  }

  /** The symbol that a byte string spells. */
  function TextOf(k: Key): string
  {
    seq(|k|, i requires 0 <= i < |k| => CharOf(k[i]))
  }

  function CharOf(b: int): char
  {
    if 0 <= b < 0xD800 || 0xE000 <= b < 0x11_0000 then b as char else ' '
  }

  lemma TextOfBytes(s: string)
    ensures TextOf(StringBytes(s)) == s
  {
    forall i | 0 <= i < |s| ensures TextOf(StringBytes(s))[i] == s[i] {
      assert StringBytes(s)[i] == ByteAt(s, i);
      assert (s[i] as int) as char == s[i];
    }
  }

  class DelistKeeper {
    const store: KVStore<Value>

    constructor (store: KVStore<Value>)
      ensures this.store == store
    {
      this.store := store;
    }

    method HasDelistRequest(symbol: string, ghost requests: Requests) returns (has: bool)
      requires DelistIndexed(store.data, requests)
      ensures has == (symbol in requests)
    {
      if symbol in requests {
        assert Requested(store.data, symbol, requests[symbol]);
      } else if RevKey(symbol) in store.data {
        KindsApart(0, symbol, symbol);
        var s := Requester(RevKey(symbol), requests);
        KindsApart(requests[s], s, symbol);
        RevKeyInjective(s, symbol);
      }
      has := RevKey(symbol) in store.data;
    }

    /** The indexes stay inverse to each other unless the symbol had a request at another time;
        the handler asks `HasDelistRequest` first. */
    method AddDelistRequest(time: nat, symbol: string, ghost requests: Requests)
      requires DelistIndexed(store.data, requests) && time < Pow256(TIME_BYTES)
      modifies store
      ensures DelistIndexed(store.data, requests[symbol := time]) <==> symbol !in requests || requests[symbol] == time
      ensures OnlyDelistChanged(old(store.data), store.data)
    {
      if symbol !in requests || requests[symbol] == time {
        EnterKeeps(store.data, requests, time, symbol);
      } else {
        EnterBreaks(store.data, requests, time, symbol);
      }
      KindsApart(time, symbol, symbol);
      store.Set(DelistKey(time, symbol), SymbolValue(symbol));
      store.Set(RevKey(symbol), TimeValue(time));
    }

    /** The markets whose time has come, `time` included, in the order of their times. */
    method GetDelistSymbolsBeforeTime(time: nat, ghost requests: Requests) returns (result: seq<string>)
      requires DelistIndexed(store.data, requests) && time < Pow256(TIME_BYTES)
      ensures Distinct(result) && forall s :: s in result <==> s in requests && requests[s] <= time
      ensures forall i, j | 0 <= i < j < |result| ::
              result[i] in requests && result[j] in requests && requests[result[i]] <= requests[result[j]]
    {
      hide DelistIndexed, InRange, DelistKey, Less;
      var start, end := RangeStart(), RangeEnd(time);
      var keys := store.Iterator(start, end);
      ghost var symbols := DueScan(store.data, requests, time, keys);
      DueInOrder(store.data, requests, keys, symbols);
      result := [];
      for i := 0 to |keys|
        invariant result == symbols[..i]
      {
        DelistKeyParts(requests[symbols[i]], symbols[i]);
        TextOfBytes(symbols[i]);
        result := result + [TextOf(keys[i][|start|..])];
      }
      assert result == symbols;
    }

    method DeleteKeys(keys: seq<Key>)
      modifies store
      ensures store.data == old(store.data) - (set k | k in keys)
    {
      ghost var before := store.data;
      for i := 0 to |keys|
        invariant store.data == before - (set k | k in keys[..i])
      {
        assert keys[..i + 1] == keys[..i] + [keys[i]];
        store.Delete(keys[i]);
      }
      assert keys[..|keys|] == keys;
    }

    method DeleteRevKeys(symbols: seq<string>)
      modifies store
      ensures store.data == old(store.data) - (set s | s in symbols :: RevKey(s))
    {
      hide RevKey;
      ghost var before := store.data;
      for i := 0 to |symbols|
        invariant store.data == before - (set s | s in symbols[..i] :: RevKey(s))
      {
        assert symbols[..i + 1] == symbols[..i] + [symbols[i]];
        store.Delete(RevKey(symbols[i]));
      }
      assert symbols[..|symbols|] == symbols;
    }

    method RemoveDelistRequestsBeforeTime(time: nat, ghost requests: Requests)
      requires DelistIndexed(store.data, requests) && time < Pow256(TIME_BYTES)
      modifies store
      ensures DelistIndexed(store.data, requests - Due(requests, time))
      ensures OnlyDelistChanged(old(store.data), store.data)
    {
      hide DelistIndexed, InRange, DelistKey, RevKey, Less, Requested, IsRequest, Due;
      ghost var before := store.data;
      var keys := store.Iterator(RangeStart(), RangeEnd(time));
      ghost var names := DueScan(before, requests, time, keys);
      var symbols: seq<string> := [];
      for i := 0 to |keys|
        invariant store.data == before && symbols == names[..i]
      {
        DueValue(before, requests, names[i]);
        symbols := symbols + [store.data[keys[i]].symbol];
      }
      assert symbols == names;
      DeleteKeys(keys);
      DeleteRevKeys(symbols);
      PurgeKeeps(before, requests, time, keys, names);
      PurgedOnlyDelist(before, requests, keys, names);
    }
  }

  lemma DueValue(data: map<Key, Value>, requests: Requests, s: string)
    requires DelistIndexed(data, requests) && s in requests
    ensures DelistKey(requests[s], s) in data && data[DelistKey(requests[s], s)] == SymbolValue(s)
  {
    assert Requested(data, s, requests[s]);
  }

  ghost function Purged(data: map<Key, Value>, keys: seq<Key>, names: seq<string>): map<Key, Value>
  {
    data - (set k | k in keys) - (set s | s in names :: RevKey(s))
  }

  lemma PurgedOnlyDelist(data: map<Key, Value>, requests: Requests, keys: seq<Key>, names: seq<string>)
    requires DueKeys(keys, names, requests)
    ensures OnlyDelistChanged(data, Purged(data, keys, names))
  {
    hide DelistKey, RevKey;
    forall k | k in data && k !in Purged(data, keys, names) ensures IsDelistKey(k) {
      if k in keys {
        var i :| 0 <= i < |keys| && keys[i] == k;
        KindsApart(requests[names[i]], names[i], names[i]);
      } else {
        var s :| s in names && k == RevKey(s);
        KindsApart(0, s, s);
      }
    }
  }

  lemma LeftOverIsRequest(data: map<Key, Value>, requests: Requests, keys: seq<Key>, names: seq<string>,
                          due: set<string>, k: Key)
    requires DueKeys(keys, names, requests) && k in Purged(data, keys, names) && IsRequest(k, requests)
    requires forall s :: s in names <==> s in due
    ensures IsRequest(k, requests - due)
  {
    hide DelistKey, RevKey;
    var s := Requester(k, requests);
    forall i | 0 <= i < |names| ensures names[i] != s {
      assert keys[i] in keys;
    }
    assert s in requests - due && (requests - due)[s] == requests[s];
  }

  lemma PurgeKeeps(data: map<Key, Value>, requests: Requests, time: nat, keys: seq<Key>, names: seq<string>)
    requires DelistIndexed(data, requests) && DueKeys(keys, names, requests)
    requires forall s :: s in names <==> s in Due(requests, time)
    ensures DelistIndexed(Purged(data, keys, names), requests - Due(requests, time))
  {
    hide DelistKey, RevKey, Due, IsRequest, DueKeys;
    var next := requests - Due(requests, time);
    forall s | s in next ensures Requested(Purged(data, keys, names), s, next[s]) {
      assert Requested(data, s, requests[s]);
      StaysRequested(data, requests, keys, names, s);
    }
    forall k | k in Purged(data, keys, names) && IsDelistKey(k) ensures IsRequest(k, next) {
      LeftOverIsRequest(data, requests, keys, names, Due(requests, time), k);
    }
  }

  lemma StaysRequested(data: map<Key, Value>, requests: Requests, keys: seq<Key>, names: seq<string>, s: string)
    requires DelistIndexed(data, requests) && DueKeys(keys, names, requests) && s in requests && s !in names
    ensures DelistKey(requests[s], s) !in keys && RevKey(s) !in keys
    ensures forall n | n in names :: RevKey(n) != RevKey(s) && RevKey(n) != DelistKey(requests[s], s)
  {
    hide DelistKey, RevKey;
    assert Requested(data, s, requests[s]);
    forall i | 0 <= i < |keys| ensures keys[i] != DelistKey(requests[s], s) && keys[i] != RevKey(s) {
      assert Requested(data, names[i], requests[names[i]]);
      KindsApart(requests[names[i]], names[i], s);
    }
    forall n | n in names ensures RevKey(n) != RevKey(s) && RevKey(n) != DelistKey(requests[s], s) {
      KindsApart(requests[s], s, n);
      if RevKey(n) == RevKey(s) { RevKeyInjective(n, s); }
    }
  }
}
