/**
 * Python's `sorted(items, key=f)`: a stable sort on keys computed once per item. Items are
 * paired with their key; the sort is an insertion sort that places each item before the first
 * later item whose key is not smaller, so items with equal keys keep their original order.
 */
module StableSort {

  predicate SortedByKey<T>(s: seq<(T, int)>)
  {
    forall i, j :: 0 <= i < j < |s| ==> s[i].1 <= s[j].1
  }

  function Insert<T>(x: (T, int), s: seq<(T, int)>): (r: seq<(T, int)>)
    ensures |r| == |s| + 1 && multiset(r) == multiset(s) + multiset{x}
    ensures r[0] == x || (|s| > 0 && r[0] == s[0])
    decreases |s|
  {
    if |s| == 0 then [x]
    else if x.1 <= s[0].1 then [x] + s
    else
      var rest := Insert(x, s[1..]);
      assert s == [s[0]] + s[1..];
      [s[0]] + rest
  }

  /** Inserting into a sorted list keeps it sorted. */
  lemma {:induction false} InsertSorted<T>(x: (T, int), s: seq<(T, int)>)
    requires SortedByKey(s)
    ensures SortedByKey(Insert(x, s))
    decreases |s|
  {
    if |s| > 0 && x.1 > s[0].1 {
      var rest := Insert(x, s[1..]);
      InsertSorted(x, s[1..]);
      assert rest[0].1 >= s[0].1;
      var r := [s[0]] + rest;
      assert Insert(x, s) == r;
      forall i, j | 0 <= i < j < |r| ensures r[i].1 <= r[j].1 {
        if i == 0 {
          assert rest[0].1 <= rest[j - 1].1;
        } else {
          assert r[i] == rest[i - 1] && r[j] == rest[j - 1];
        }
      }
    }
  }

  /** `sorted(...)`: ordered by key and a permutation of the input. */
  function Sort<T>(s: seq<(T, int)>): (r: seq<(T, int)>)
    ensures multiset(r) == multiset(s) && |r| == |s|
    ensures SortedByKey(r)
    decreases |s|
  {
    if |s| == 0 then []
    else
      assert s == [s[0]] + s[1..];
      InsertSorted(s[0], Sort(s[1..]));
      Insert(s[0], Sort(s[1..]))
  }

  /** The items whose key is `k`, in order. */
  function WithKey<T>(s: seq<(T, int)>, k: int): seq<(T, int)>
    decreases |s|
  {
    if |s| == 0 then []
    else (if s[0].1 == k then [s[0]] else []) + WithKey(s[1..], k)
  }

  lemma {:induction false} InsertWithKey<T>(x: (T, int), s: seq<(T, int)>, k: int)
    ensures WithKey(Insert(x, s), k) == (if x.1 == k then [x] else []) + WithKey(s, k)
    decreases |s|
  {
    if |s| == 0 {
      WithKeyCons(x, s, k);
    } else if x.1 <= s[0].1 {
      WithKeyCons(x, s, k);
    } else {
      InsertWithKey(x, s[1..], k);
      InsertWithKeyStep(x, s, k);
    }
  }

  /** The inductive step of InsertWithKey: x goes past the head of s. */
  lemma InsertWithKeyStep<T>(x: (T, int), s: seq<(T, int)>, k: int)
    requires |s| > 0 && x.1 > s[0].1
    requires WithKey(Insert(x, s[1..]), k) == (if x.1 == k then [x] else []) + WithKey(s[1..], k)
    ensures WithKey(Insert(x, s), k) == (if x.1 == k then [x] else []) + WithKey(s, k)
  {
    var rest := Insert(x, s[1..]);
    InsertPast(x, s);
    WithKeyCons(s[0], rest, k);
    WithKeyCons(s[0], s[1..], k);
    assert s == [s[0]] + s[1..];
    var hs: seq<(T, int)> := if s[0].1 == k then [s[0]] else [];
    var hx: seq<(T, int)> := if x.1 == k then [x] else [];
    SwapHeads(hs, hx, WithKey(s[1..], k));
  }

  /** An item with a larger key than the head goes after it. */
  lemma InsertPast<T>(x: (T, int), s: seq<(T, int)>)
    requires |s| > 0 && x.1 > s[0].1
    ensures Insert(x, s) == [s[0]] + Insert(x, s[1..])
  {
  }

  /** Two fronts of which one is empty can be swapped. */
  lemma SwapHeads<T>(a: seq<T>, b: seq<T>, w: seq<T>)
    requires a == [] || b == []
    ensures a + (b + w) == b + (a + w)
  {
    if a == [] {
      assert a + (b + w) == b + w;
    } else {
      assert b + (a + w) == a + w;
    }
  }

  /** `WithKey` of a list with one more item in front. */
  lemma WithKeyCons<T>(a: (T, int), t: seq<(T, int)>, k: int)
    ensures WithKey([a] + t, k) == (if a.1 == k then [a] else []) + WithKey(t, k)
  {
    assert ([a] + t)[1..] == t;
  }

  /** Stability: for every key, the items with that key come out in the order they went in. */
  lemma {:induction false} SortStable<T>(s: seq<(T, int)>, k: int)
    ensures WithKey(Sort(s), k) == WithKey(s, k)
    decreases |s|
  {
    if |s| > 0 {
      SortStable(s[1..], k);
      InsertWithKey(s[0], Sort(s[1..]), k);
    }
  }

  /** An item with a strictly smaller key comes out before an item with a larger one. */
  lemma SmallerKeyFirst<T>(s: seq<(T, int)>, i: int, j: int)
    requires 0 <= i < |Sort(s)| && 0 <= j < |Sort(s)|
    requires Sort(s)[i].1 < Sort(s)[j].1
    ensures i < j
  {
  }

  /** No two items share their first component (an identity, such as a position). */
  ghost predicate DistinctIds<T>(s: seq<(T, int)>)
  {
    forall i, j :: 0 <= i < j < |s| ==> s[i].0 != s[j].0
  }

  lemma {:induction false} InsertDistinct<T>(x: (T, int), s: seq<(T, int)>)
    requires DistinctIds(s)
    requires forall i :: 0 <= i < |s| ==> s[i].0 != x.0
    ensures DistinctIds(Insert(x, s))
    decreases |s|
  {
    if |s| > 0 && x.1 > s[0].1 {
      var rest := Insert(x, s[1..]);
      InsertDistinct(x, s[1..]);
      InsertAvoids(x, s[1..], s[0].0);
      InsertPast(x, s);
      ConsDistinct(s[0], rest);
    }
  }

  /** An identity that neither x nor any item of s has is not in `Insert(x, s)` either. */
  lemma {:induction false} InsertAvoids<T>(x: (T, int), s: seq<(T, int)>, id: T)
    requires x.0 != id && forall i :: 0 <= i < |s| ==> s[i].0 != id
    ensures forall j :: 0 <= j < |Insert(x, s)| ==> Insert(x, s)[j].0 != id
    decreases |s|
  {
    if |s| > 0 && x.1 > s[0].1 {
      InsertAvoids(x, s[1..], id);
      InsertPast(x, s);
    }
  }

  /** One more item in front keeps identities distinct when its identity is new. */
  lemma ConsDistinct<T>(a: (T, int), t: seq<(T, int)>)
    requires DistinctIds(t) && forall j :: 0 <= j < |t| ==> t[j].0 != a.0
    ensures DistinctIds([a] + t)
  {
  }

  /** Sorting never duplicates an item: identities stay distinct. */
  lemma {:induction false} SortDistinct<T>(s: seq<(T, int)>)
    requires DistinctIds(s)
    ensures DistinctIds(Sort(s))
    decreases |s|
  {
    if |s| > 0 {
      var rest := Sort(s[1..]);
      SortDistinct(s[1..]);
      forall j | 0 <= j < |rest| ensures rest[j].0 != s[0].0 {
        assert rest[j] in multiset(s[1..]);
        var t :| 0 <= t < |s[1..]| && s[1..][t] == rest[j];
        assert s[t + 1] == rest[j];
      }
      InsertDistinct(s[0], rest);
    }
  }

  /** Every item `WithKey` keeps comes from the input and has that key. */
  lemma {:induction false} WithKeyFrom<T>(s: seq<(T, int)>, k: int, i: int)
    requires 0 <= i < |WithKey(s, k)|
    ensures WithKey(s, k)[i] in s && WithKey(s, k)[i].1 == k
    decreases |s|
  {
    var head: seq<(T, int)> := if s[0].1 == k then [s[0]] else [];
    if i >= |head| {
      WithKeyFrom(s[1..], k, i - |head|);
    }
  }

  /** Two items with key k keep their relative order inside `WithKey(s, k)`. */
  lemma {:induction false} WithKeyKeepsOrder<T>(s: seq<(T, int)>, k: int, a: int, b: int)
    requires 0 <= a < b < |s| && s[a].1 == k && s[b].1 == k
    ensures exists a', b' :: 0 <= a' < b' < |WithKey(s, k)| && WithKey(s, k)[a'] == s[a] && WithKey(s, k)[b'] == s[b]
    decreases |s|
  {
    var rest := WithKey(s[1..], k);
    if a == 0 {
      var t := WithKeyIndex(s[1..], k, b - 1);
      assert WithKey(s, k) == [s[0]] + rest;
      assert WithKey(s, k)[0] == s[a] && WithKey(s, k)[t + 1] == s[b];
    } else {
      WithKeyKeepsOrder(s[1..], k, a - 1, b - 1);
      var a', b' :| 0 <= a' < b' < |rest| && rest[a'] == s[a] && rest[b'] == s[b];
      var head: seq<(T, int)> := if s[0].1 == k then [s[0]] else [];
      assert WithKey(s, k) == head + rest;
      assert WithKey(s, k)[a' + |head|] == s[a] && WithKey(s, k)[b' + |head|] == s[b];
    }
  }

  /** An item with key k has a place in `WithKey(s, k)`. */
  lemma {:induction false} WithKeyIndex<T>(s: seq<(T, int)>, k: int, b: int) returns (t: int)
    requires 0 <= b < |s| && s[b].1 == k
    ensures 0 <= t < |WithKey(s, k)| && WithKey(s, k)[t] == s[b]
    decreases |s|
  {
    var head: seq<(T, int)> := if s[0].1 == k then [s[0]] else [];
    assert WithKey(s, k) == head + WithKey(s[1..], k);
    if b == 0 {
      t := 0;
    } else {
      var t' := WithKeyIndex(s[1..], k, b - 1);
      t := t' + |head|;
    }
  }

  /** Items listed by increasing position. */
  predicate IncreasingIds(s: seq<(nat, int)>)
  {
    forall i, j :: 0 <= i < j < |s| ==> s[i].0 < s[j].0
  }

  lemma {:induction false} WithKeyIncreasing(s: seq<(nat, int)>, k: int)
    requires IncreasingIds(s)
    ensures IncreasingIds(WithKey(s, k))
    decreases |s|
  {
    if |s| > 0 {
      var rest := WithKey(s[1..], k);
      assert IncreasingIds(s[1..]);
      WithKeyIncreasing(s[1..], k);
      if s[0].1 == k {
        forall j | 0 <= j < |rest| ensures s[0].0 < rest[j].0 {
          WithKeyFrom(s[1..], k, j);
        }
      }
    }
  }

  /**
   * Stability stated on positions: sorting items listed by increasing position, two items
   * with equal keys come out in their original order.
   */
  lemma SortKeepsTies(s: seq<(nat, int)>, a: int, b: int)
    requires IncreasingIds(s)
    requires 0 <= a < b < |Sort(s)| && Sort(s)[a].1 == Sort(s)[b].1
    ensures Sort(s)[a].0 < Sort(s)[b].0
  {
    var r := Sort(s);
    var k := r[a].1;
    WithKeyKeepsOrder(r, k, a, b);
    SortStable(s, k);
    WithKeyIncreasing(s, k);
  }
}
