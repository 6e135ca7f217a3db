/** An ordered key-value store: reads, writes, and iterators over a range of keys. */
module KVStores {
  import opened ByteKeys
  import opened Slices

  /** `keys` are the stored keys of a range, each once. */
  ghost predicate Listing<V>(data: map<Key, V>, start: Key, end: Key, keys: seq<Key>)
  {
    Distinct(keys) && forall k :: k in keys <==> k in data && InRange(start, end, k)
  }

  ghost predicate Ascending(keys: seq<Key>)
  {
    forall i, j | 0 <= i < j < |keys| :: Less(keys[i], keys[j])
  }

  ghost predicate Descending(keys: seq<Key>)
  {
    forall i, j | 0 <= i < j < |keys| :: Less(keys[j], keys[i])
  }

  lemma LessOrders(keys: seq<Key>)
    ensures Ordering(Less, keys)
  {
    forall a, b | a in keys && b in keys ensures Less(a, b) ==> !Less(b, a) { LessTotal(a, b); }
    forall a, b, c | a in keys && b in keys && c in keys && !Less(b, a) && !Less(c, b) ensures !Less(c, a) {
      LessTotal(a, b);
      LessTotal(b, c);
      if Less(a, b) && Less(b, c) { LessTransitive(a, b, c); }
      LessTotal(a, c);
    }
  }

  class KVStore<V(==)> {
    var data: map<Key, V>

    constructor ()
      ensures data == map[]
    {
      data := map[];
    }

    method Set(k: Key, v: V)
      modifies this
      ensures data == old(data)[k := v]
    {
      data := data[k := v];
    }

    method Delete(k: Key)
      modifies this
      ensures data == old(data) - {k}
    {
      data := data - {k};
    }

    /** The keys in `[start, end)` in byte order. */
    method Iterator(start: Key, end: Key) returns (keys: seq<Key>)
      ensures Listing(data, start, end, keys) && Ascending(keys)
    {
      var inside: seq<Key> := [];
      var left := data.Keys;
      while left != {}
        invariant left <= data.Keys && Distinct(inside)
        invariant forall k :: k in inside <==> k in data && k !in left && InRange(start, end, k)
        decreases |left|
      {
        var k :| k in left;
        left := left - {k};
        if InRange(start, end, k) { inside := inside + [k]; }
      }
      LessOrders(inside);
      keys := Sort(Less, inside);
      SameElements(keys, inside);
      DistinctPermuted(keys, inside);
      forall i, j | 0 <= i < j < |keys| ensures Less(keys[i], keys[j]) { LessTotal(keys[i], keys[j]); }
    }

    /** The keys in `[start, end)` against byte order. */
    method ReverseIterator(start: Key, end: Key) returns (keys: seq<Key>)
      ensures Listing(data, start, end, keys) && Descending(keys)
    {
      var up := Iterator(start, end);
      keys := seq(|up|, i requires 0 <= i < |up| => up[|up| - 1 - i]);
      forall k ensures k in keys <==> k in up {
        if k in up {
          var i :| 0 <= i < |up| && up[i] == k;
          assert keys[|up| - 1 - i] == k;
        }
      }
    }
  }
}
