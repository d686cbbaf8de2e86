/**
 * A Python `dict` keyed by strings, as the installer uses it for its device registry: an
 * association list whose order is the dictionary's insertion order. Assigning to a present key
 * replaces the value where it stands; assigning to a new key appends it.
 */
module Registry {
  import opened Wrappers

  type Entries<V> = seq<(string, V)>

  function Keys<V>(es: Entries<V>): (ks: seq<string>)
    ensures |ks| == |es|
    ensures forall i :: 0 <= i < |es| ==> ks[i] == es[i].0
  {
    seq(|es|, i requires 0 <= i < |es| => es[i].0)
  }

  function Values<V>(es: Entries<V>): (vs: seq<V>)
    ensures |vs| == |es|
    ensures forall i :: 0 <= i < |es| ==> vs[i] == es[i].1
  {
    seq(|es|, i requires 0 <= i < |es| => es[i].1)
  }

  /** The keys of a longer prefix. */
  lemma KeysPrefix<V>(es: Entries<V>, i: int)
    requires 0 <= i < |es|
    ensures Keys(es[..i + 1]) == Keys(es[..i]) + [es[i].0]
  {
  }

  /** Every key occurs once, as in a dictionary. */
  predicate DistinctKeys<V>(es: Entries<V>)
  {
    forall i, j :: 0 <= i < j < |es| ==> es[i].0 != es[j].0
  }

  /** `d[k]`: None where Python raises KeyError. */
  function Lookup<V>(es: Entries<V>, k: string): (r: Option<V>)
    ensures r.None? <==> k !in Keys(es)
    ensures r.Some? ==> exists i :: 0 <= i < |es| && es[i] == (k, r.value)
    decreases |es|
  {
    if |es| == 0 then None
    else if es[0].0 == k then Some(es[0].1)
    else
      assert forall i :: 1 <= i < |es| ==> Keys(es)[i] == Keys(es[1..])[i - 1];
      Lookup(es[1..], k)
  }

  /** `d[k] = v` */
  function Put<V>(es: Entries<V>, k: string, v: V): Entries<V>
    decreases |es|
  {
    if |es| == 0 then [(k, v)]
    else if es[0].0 == k then [(k, v)] + es[1..]
    else [es[0]] + Put(es[1..], k, v)
  }

  /** Assignment keeps the keys in place and appends a new one. */
  lemma {:induction false} PutKeys<V>(es: Entries<V>, k: string, v: V)
    ensures Keys(Put(es, k, v)) == if k in Keys(es) then Keys(es) else Keys(es) + [k]
    decreases |es|
  {
    if |es| > 0 {
      assert es == [es[0]] + es[1..];
      KeysCons(es[0], es[1..]);
      if es[0].0 == k {
        KeysCons((k, v), es[1..]);
      } else {
        PutKeys(es[1..], k, v);
        KeysCons(es[0], Put(es[1..], k, v));
      }
    }
  }

  lemma KeysCons<V>(e: (string, V), es: Entries<V>)
    ensures Keys([e] + es) == [e.0] + Keys(es)
  {
    assert forall i :: 1 <= i < |es| + 1 ==> ([e] + es)[i] == es[i - 1];
  }

  /** After `d[k] = v`, `d[k]` is v and every other key still maps to what it mapped to. */
  lemma {:induction false} LookupPut<V>(es: Entries<V>, k: string, v: V, j: string)
    requires DistinctKeys(es)
    ensures Lookup(Put(es, k, v), j) == if j == k then Some(v) else Lookup(es, j)
    decreases |es|
  {
    if |es| > 0 && es[0].0 != k {
      assert DistinctKeys(es[1..]);
      LookupPut(es[1..], k, v, j);
    }
    if |es| > 0 && es[0].0 == k && j != k {
      assert Put(es, k, v)[1..] == es[1..];
    }
  }

  /** Assignment keeps the keys distinct. */
  lemma PutDistinct<V>(es: Entries<V>, k: string, v: V)
    requires DistinctKeys(es)
    ensures DistinctKeys(Put(es, k, v))
  {
    var r := Put(es, k, v);
    PutKeys(es, k, v);
    forall i, j | 0 <= i < j < |r| ensures r[i].0 != r[j].0 {
      assert Keys(r)[i] == r[i].0 && Keys(r)[j] == r[j].0;
      if k !in Keys(es) && j == |es| {
        assert Keys(es)[i] == es[i].0;
      } else {
        assert Keys(es)[i] == es[i].0 && Keys(es)[j] == es[j].0;
      }
    }
  }

  /** Assigning to a new key appends the entry. */
  lemma {:induction false} PutNew<V>(es: Entries<V>, k: string, v: V)
    requires k !in Keys(es)
    ensures Put(es, k, v) == es + [(k, v)]
    decreases |es|
  {
    if |es| > 0 {
      assert Keys(es) == [es[0].0] + Keys(es[1..]);
      PutNew(es[1..], k, v);
      assert es == [es[0]] + es[1..];
    }
  }

  /** A fold of assignments, in order: the registry after a loop of `d[k] = v`. */
  function PutAll<V>(es: Entries<V>, kvs: seq<(string, V)>): Entries<V>
    decreases |kvs|
  {
    if |kvs| == 0 then es else PutAll(Put(es, kvs[0].0, kvs[0].1), kvs[1..])
  }

  lemma {:induction false} PutAllSnoc<V>(es: Entries<V>, kvs: seq<(string, V)>, k: string, v: V)
    ensures PutAll(es, kvs + [(k, v)]) == Put(PutAll(es, kvs), k, v)
    decreases |kvs|
  {
    if |kvs| > 0 {
      assert (kvs + [(k, v)])[1..] == kvs[1..] + [(k, v)];
      PutAllSnoc(Put(es, kvs[0].0, kvs[0].1), kvs[1..], k, v);
    }
  }

  /** No value is stored under two keys. */
  ghost predicate DistinctValues<V>(es: Entries<V>)
  {
    forall i, j :: 0 <= i < j < |es| ==> es[i].1 != es[j].1
  }

  /** With distinct keys, the entry at position i is the one `d[k]` finds. */
  lemma LookupAt<V>(es: Entries<V>, i: int)
    requires DistinctKeys(es) && 0 <= i < |es|
    ensures Lookup(es, es[i].0) == Some(es[i].1)
  {
    var r := Lookup(es, es[i].0);
    assert es[i].0 in Keys(es) by { assert Keys(es)[i] == es[i].0; }
    var t :| 0 <= t < |es| && es[t] == (es[i].0, r.value);
  }

  /** With distinct keys, assigning to a present key rewrites its entry in place. */
  lemma {:induction false} PutAt<V>(es: Entries<V>, i: int, v: V)
    requires DistinctKeys(es) && 0 <= i < |es|
    ensures Put(es, es[i].0, v) == es[i := (es[i].0, v)]
    decreases |es|
  {
    if i > 0 {
      assert es[0].0 != es[i].0;
      assert DistinctKeys(es[1..]);
      PutAt(es[1..], i - 1, v);
      assert es[1..][i - 1] == es[i];
      assert es[i := (es[i].0, v)] == [es[0]] + es[1..][i - 1 := (es[i].0, v)];
    }
  }

  /** Assigning a value not yet stored keeps the values distinct. */
  lemma {:induction false} PutDistinctValues<V>(es: Entries<V>, k: string, v: V)
    requires DistinctValues(es)
    requires forall i :: 0 <= i < |es| ==> es[i].1 != v
    ensures DistinctValues(Put(es, k, v))
    ensures forall e :: e in Put(es, k, v) ==> e in es || e == (k, v)
    decreases |es|
  {
    if |es| > 0 && es[0].0 != k {
      assert DistinctValues(es[1..]);
      PutDistinctValues(es[1..], k, v);
      var r := Put(es, k, v);
      assert r == [es[0]] + Put(es[1..], k, v);
      forall j | 1 <= j < |r| ensures es[0].1 != r[j].1 {
        assert r[j] in Put(es[1..], k, v);
      }
    }
  }
  /** The keys of two lists one after the other. */
  lemma KeysAppend<V>(a: Entries<V>, b: Entries<V>)
    ensures Keys(a + b) == Keys(a) + Keys(b)
  {
    assert forall i :: |a| <= i < |a| + |b| ==> (a + b)[i] == b[i - |a|];
  }

  /** `d[k]` on a list extended at the end finds the first occurrence. */
  lemma {:induction false} LookupAppend<V>(a: Entries<V>, b: Entries<V>, k: string)
    ensures Lookup(a + b, k) == if k in Keys(a) then Lookup(a, k) else Lookup(b, k)
    decreases |a|
  {
    if |a| > 0 {
      assert (a + b)[0] == a[0] && (a + b)[1..] == a[1..] + b;
      assert Keys(a) == [a[0].0] + Keys(a[1..]);
      LookupAppend(a[1..], b, k);
    } else {
      assert a + b == b;
    }
  }
}
