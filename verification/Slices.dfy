/** The library sort, with no promise about the order of ties. */
module Slices {

  /** `less` orders the elements of `s` up to ties. */
  ghost predicate Ordering<T>(less: (T, T) -> bool, s: seq<T>)
  {
    && (forall a, b | a in s && b in s :: less(a, b) ==> !less(b, a))
    && (forall a, b, c | a in s && b in s && c in s :: !less(b, a) && !less(c, b) ==> !less(c, a))
  }

  ghost predicate Sorted<T>(less: (T, T) -> bool, s: seq<T>)
  {
    forall i, j | 0 <= i < j < |s| :: !less(s[j], s[i])
  }

  method Sort<T(==)>(less: (T, T) -> bool, s: seq<T>) returns (r: seq<T>)
    requires Ordering(less, s)
    ensures multiset(r) == multiset(s)
    ensures Sorted(less, r)
  {
    r := [];
    for n := 0 to |s|
      invariant multiset(r) == multiset(s[..n])
      invariant Sorted(less, r)
    {
      assert s[..n + 1] == s[..n] + [s[n]];
      forall x | x in r ensures x in s {
        assert x in multiset(s[..n]);
      }
      r := Insert(less, r, s[n], s);
    }
    assert s[..|s|] == s;
  }

  method Insert<T(==)>(less: (T, T) -> bool, s: seq<T>, x: T, ghost all: seq<T>) returns (r: seq<T>)
    requires Ordering(less, all) && Sorted(less, s) && x in all && forall y | y in s :: y in all
    ensures multiset(r) == multiset(s) + multiset{x}
    ensures Sorted(less, r)
  {
    var k := 0;
    while k < |s| && !less(x, s[k])
      invariant k <= |s|
      invariant forall i | 0 <= i < k :: !less(x, s[i])
    {
      k := k + 1;
    }
    r := s[..k] + [x] + s[k..];
    assert s == s[..k] + s[k..];
    InsertedInOrder(less, s, x, k, r, all);
  }

  lemma InsertedInOrder<T>(less: (T, T) -> bool, s: seq<T>, x: T, k: nat, r: seq<T>, all: seq<T>)
    requires Ordering(less, all) && Sorted(less, s) && x in all && forall y | y in s :: y in all
    requires k <= |s| && r == s[..k] + [x] + s[k..]
    requires forall i | 0 <= i < k :: !less(x, s[i])
    requires k < |s| ==> less(x, s[k])
    ensures Sorted(less, r)
  {
    forall j | k <= j < |s| ensures !less(s[j], x) {
      assert s[k] in all && s[j] in all;
      assert !less(s[k], x);
    }
    forall i, j | 0 <= i < j < |r| ensures !less(r[j], r[i]) {
      if j < k {
        assert r[i] == s[i] && r[j] == s[j];
      } else if j == k {
        assert r[i] == s[i] && r[j] == x;
      } else if i == k {
        assert r[i] == x && r[j] == s[j - 1];
      } else {
        assert r[i] == s[if i < k then i else i - 1] && r[j] == s[j - 1];
      }
    }
  }

  lemma SameElements<T>(r: seq<T>, s: seq<T>)
    requires multiset(r) == multiset(s)
    ensures |r| == |s| && forall x :: x in r <==> x in s
  {
    assert |multiset(r)| == |r| && |multiset(s)| == |s|;
    forall x ensures x in r <==> x in s {
      assert x in r <==> x in multiset(r);
      assert x in s <==> x in multiset(s);
    }
  }

  ghost predicate Distinct<T>(s: seq<T>)
  {
    forall i, j | 0 <= i < j < |s| :: s[i] != s[j]
  }

  lemma OccursOnce<T>(s: seq<T>, i: nat)
    requires i < |s| && Distinct(s)
    ensures multiset(s)[s[i]] == 1
  {
    assert s == s[..i] + [s[i]] + s[i + 1..];
    assert s[i] !in multiset(s[..i]) && s[i] !in multiset(s[i + 1..]);
  }

  lemma OccursTwice<T>(s: seq<T>, i: nat, j: nat)
    requires i < j < |s| && s[i] == s[j]
    ensures multiset(s)[s[i]] >= 2
  {
    assert s == s[..i] + [s[i]] + s[i + 1..];
    assert s[i + 1..][j - i - 1] == s[i];
    assert s[i] in multiset(s[i + 1..]);
  }

  lemma DistinctPermuted<T>(r: seq<T>, s: seq<T>)
    requires multiset(r) == multiset(s) && Distinct(s)
    ensures Distinct(r)
  {
    forall i, j | 0 <= i < j < |r| ensures r[i] != r[j] {
      if r[i] == r[j] {
        OccursTwice(r, i, j);
        assert r[i] in multiset(s);
        var k :| 0 <= k < |s| && s[k] == r[i];
        OccursOnce(s, k);
      }
    }
  }

  /** Without ties there is only one sorted sequence of the same elements. */
  lemma {:induction false} SortedIsUnique<T>(less: (T, T) -> bool, r: seq<T>, s: seq<T>)
    requires Sorted(less, r) && Sorted(less, s) && Distinct(r) && Distinct(s)
    requires forall x :: x in r <==> x in s
    requires forall a, b | a in s && b in s && a != b :: less(a, b) || less(b, a)
    ensures r == s
    decreases |r|
  {
    if r == [] {
      assert forall i | 0 <= i < |s| :: s[i] in s;
    } else {
      assert r[0] in s;
      assert s[0] in r;
      var i :| 0 <= i < |s| && s[i] == r[0];
      var j :| 0 <= j < |r| && r[j] == s[0];
      assert r[0] == s[0];
      forall x ensures x in r[1..] <==> x in s[1..] {
        RestWithoutHead(r, x);
        RestWithoutHead(s, x);
      }
      SortedIsUnique(less, r[1..], s[1..]);
    }
  }

  lemma RestWithoutHead<T>(s: seq<T>, x: T)
    requires s != [] && Distinct(s)
    ensures x in s[1..] <==> x in s && x != s[0]
  {
    assert s == [s[0]] + s[1..];
    if x in s[1..] {
      var i :| 0 <= i < |s[1..]| && s[1..][i] == x;
      assert s[i + 1] == x;
    }
  }
}
