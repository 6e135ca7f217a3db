/** Sums over maps and sequences: the bookkeeping behind every conservation statement. */
module Sums {

  ghost function Sum<K(!new), V(!new)>(m: map<K, V>, w: (K, V) -> int): int
  {
    if m == map[] then 0
    else
      var k :| k in m;
      w(k, m[k]) + Sum(m - {k}, w)
  }

  lemma {:induction false} SumRemove<K(!new), V(!new)>(m: map<K, V>, w: (K, V) -> int, k: K)
    requires k in m
    ensures Sum(m, w) == w(k, m[k]) + Sum(m - {k}, w)
    decreases |m|
  {
    var j :| j in m && Sum(m, w) == w(j, m[j]) + Sum(m - {j}, w);
    if j != k {
      assert (m - {j}) - {k} == (m - {k}) - {j};
      SumRemove(m - {j}, w, k);
      SumRemove(m - {k}, w, j);
    }
  }

  lemma SumUpdate<K(!new), V(!new)>(m: map<K, V>, w: (K, V) -> int, k: K, v: V)
    ensures Sum(m[k := v], w) == Sum(m, w) - (if k in m then w(k, m[k]) else 0) + w(k, v)
  {
    SumRemove(m[k := v], w, k);
    assert m[k := v] - {k} == m - {k};
    if k in m {
      SumRemove(m, w, k);
    } else {
      assert m - {k} == m;
    }
  }

  lemma {:induction false} SumNonNegative<K(!new), V(!new)>(m: map<K, V>, w: (K, V) -> int)
    requires forall k | k in m :: w(k, m[k]) >= 0
    ensures Sum(m, w) >= 0
    decreases |m|
  {
    if m != map[] {
      var k :| k in m;
      SumRemove(m, w, k);
      SumNonNegative(m - {k}, w);
    }
  }

  lemma SumAtLeast<K(!new), V(!new)>(m: map<K, V>, w: (K, V) -> int, k: K)
    requires k in m && forall j | j in m :: w(j, m[j]) >= 0
    ensures Sum(m, w) >= w(k, m[k])
  {
    SumRemove(m, w, k);
    SumNonNegative(m - {k}, w);
  }

  lemma SumAtLeastTwo<K(!new), V(!new)>(m: map<K, V>, w: (K, V) -> int, k: K, j: K)
    requires k in m && j in m && k != j && forall i | i in m :: w(i, m[i]) >= 0
    ensures Sum(m, w) >= w(k, m[k]) + w(j, m[j])
  {
    SumRemove(m, w, k);
    SumAtLeast(m - {k}, w, j);
  }

  lemma {:induction false} SumOfZeros<K(!new), V(!new)>(m: map<K, V>, w: (K, V) -> int)
    requires forall k | k in m :: w(k, m[k]) == 0
    ensures Sum(m, w) == 0
    decreases |m|
  {
    if m != map[] {
      var k :| k in m;
      SumRemove(m, w, k);
      SumOfZeros(m - {k}, w);
    }
  }

  function Restrict<K, V>(m: map<K, V>, keys: set<K>): map<K, V>
  {
    map k | k in m && k in keys :: m[k]
  }

  lemma RestrictInside<K, V>(m: map<K, V>, keys: set<K>, k: K)
    requires k in m && k in keys
    ensures Restrict(m, keys) - {k} == Restrict(m - {k}, keys) && (m - {k}) - keys == m - keys
    ensures k in Restrict(m, keys) && Restrict(m, keys)[k] == m[k]
  {
  }

  lemma RestrictOutside<K, V>(m: map<K, V>, keys: set<K>, k: K)
    requires k in m && k !in keys
    ensures Restrict(m, keys) == Restrict(m - {k}, keys) && (m - {k}) - keys == (m - keys) - {k}
    ensures k in m - keys && (m - keys)[k] == m[k]
  {
  }

  lemma SumEmpty<K(!new), V(!new)>(m: map<K, V>, w: (K, V) -> int)
    requires |m| == 0
    ensures Sum(m, w) == 0
  {
  }

  lemma {:induction false} SumSplit<K(!new), V(!new)>(m: map<K, V>, w: (K, V) -> int, keys: set<K>)
    ensures Sum(m, w) == Sum(Restrict(m, keys), w) + Sum(m - keys, w)
    decreases |m|
  {
    hide Sum, Restrict;
    if |m| == 0 {
      RestrictEmpty(m, keys);
      SumEmpty(m, w);
      SumEmpty(Restrict(m, keys), w);
      SumEmpty(m - keys, w);
    } else {
      var k :| k in m;
      SumRemove(m, w, k);
      SumSplit(m - {k}, w, keys);
      if k in keys {
        RestrictInside(m, keys, k);
        SumRemove(Restrict(m, keys), w, k);
      } else {
        RestrictOutside(m, keys, k);
        SumRemove(m - keys, w, k);
      }
    }
  }

  lemma RestrictEmpty<K, V>(m: map<K, V>, keys: set<K>)
    requires |m| == 0
    ensures |Restrict(m, keys)| == 0 && |m - keys| == 0
  {
    assert m == map[];
    assert Restrict(m, keys) == map[] && m - keys == map[];
  }

  /** Replacing part of a map changes its sum by what the part's sum changes. */
  lemma SumOverlay<K(!new), V(!new)>(m: map<K, V>, n: map<K, V>, w: (K, V) -> int)
    requires n.Keys <= m.Keys
    ensures Sum(m + n, w) == Sum(m, w) - Sum(Restrict(m, n.Keys), w) + Sum(n, w)
  {
    hide Sum;
    SumSplit(m, w, n.Keys);
    SumSplit(m + n, w, n.Keys);
    assert Restrict(m + n, n.Keys) == n && (m + n) - n.Keys == m - n.Keys;
  }

  function SeqSum<T>(s: seq<T>, w: T -> int): int
  {
    if s == [] then 0 else SeqSum(s[..|s| - 1], w) + w(s[|s| - 1])
  }

  lemma {:induction false} SeqSumRemove<T>(s: seq<T>, w: T -> int, i: nat)
    requires i < |s|
    ensures SeqSum(s, w) == SeqSum(s[..i] + s[i + 1..], w) + w(s[i])
  {
    var rest := s[..i] + s[i + 1..];
    if i == |s| - 1 {
      assert rest == s[..|s| - 1];
    } else {
      assert rest[..|rest| - 1] == s[..|s| - 1][..i] + s[..|s| - 1][i + 1..];
      SeqSumRemove(s[..|s| - 1], w, i);
    }
  }

  lemma {:induction false} SeqSumPermuted<T>(s: seq<T>, t: seq<T>, w: T -> int)
    requires multiset(s) == multiset(t)
    ensures SeqSum(s, w) == SeqSum(t, w)
    decreases |s|
  {
    assert |multiset(s)| == |s| && |multiset(t)| == |t|;
    if s != [] {
      var x, front := s[|s| - 1], s[..|s| - 1];
      assert s == front + [x];
      assert x in multiset(t);
      var i :| 0 <= i < |t| && t[i] == x;
      var rest := t[..i] + t[i + 1..];
      assert t == t[..i] + [x] + t[i + 1..];
      assert multiset(front) == multiset(rest) by {
        assert multiset(rest) + multiset{x} == multiset(t);
        assert multiset(front) + multiset{x} == multiset(s);
        assert multiset(rest) == multiset(t) - multiset{x};
        assert multiset(front) == multiset(s) - multiset{x};
      }
      SeqSumRemove(t, w, i);
      SeqSumPermuted(front, rest, w);
    }
  }
}
