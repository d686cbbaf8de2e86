/**
 * `merge` of scripts/merge_default.py: the older way of completing a configuration dictionary.
 * Every option of the defaults table that the dictionary lacks is inserted with its default, in
 * place; nothing is validated or recorded.
 */
module MergeDefault {
  import opened Wrappers
  import opened Registry
  import opened ConfigUtils

  /** `Defaults.DRIVE` of merge_default.py. */
  const DriveDefaults: Entries<Value> := [
    ("device-path", Null),
    ("gpt", Bool(true)),
    ("partitions", Dict([]))
  ]

  /** `Defaults.PARTITION` of merge_default.py. */
  const PartitionDefaults: Entries<Value> := [
    ("size", Str("0")),
    ("start-sector", Str("0")),
    ("end-sector", Str("0")),
    ("type-code", Str("8300")),
    ("partition-label", Null)
  ]

  /** The dictionary after the first n options of the table. */
  function MergeN<V>(config: Entries<V>, defaults: Entries<V>, n: nat): Entries<V>
    requires n <= |defaults|
  {
    if n == 0 then config
    else
      var c := MergeN(config, defaults, n - 1);
      if defaults[n - 1].0 in Keys(c) then c else Put(c, defaults[n - 1].0, defaults[n - 1].1)
  }

  /** The entries among the first n of the table whose option the original dictionary lacks. */
  function Missing<V>(config: Entries<V>, defaults: Entries<V>, n: nat): Entries<V>
    requires n <= |defaults|
  {
    if n == 0 then []
    else Missing(config, defaults, n - 1) + if defaults[n - 1].0 in Keys(config) then [] else [defaults[n - 1]]
  }

  /** `merge`: insert each missing option's default; the dictionary is returned. */
  method Merge<V>(config: Entries<V>, defaults: Entries<V>) returns (merged: Entries<V>)
    ensures merged == MergeN(config, defaults, |defaults|)
  {
    merged := config;
    for i := 0 to |defaults|
      invariant merged == MergeN(config, defaults, i)
    {
      var (option, value) := defaults[i];
      if option !in Keys(merged) {
        merged := Put(merged, option, value);
      }
    }
  }

  /** The options of Missing come from the first n of the table and are absent from the dictionary. */
  lemma {:induction false} MissingKeys<V>(config: Entries<V>, defaults: Entries<V>, n: nat)
    requires n <= |defaults|
    ensures forall k :: k in Keys(Missing(config, defaults, n)) ==> k in Keys(defaults[..n]) && k !in Keys(config)
  {
    if n > 0 {
      MissingKeys(config, defaults, n - 1);
      KeysPrefix(defaults, n - 1);
      var prev := Missing(config, defaults, n - 1);
      if defaults[n - 1].0 !in Keys(config) {
        KeysAppend(prev, [defaults[n - 1]]);
      } else {
        assert Missing(config, defaults, n) == prev + [];
      }
    }
  }

  /**
   * With a table whose options are distinct (it is a dictionary), merging leaves the original
   * dictionary in front and appends the entries of the options it lacked, in table order.
   */
  lemma {:induction false} MergeShape<V>(config: Entries<V>, defaults: Entries<V>, n: nat)
    requires DistinctKeys(defaults) && n <= |defaults|
    ensures MergeN(config, defaults, n) == config + Missing(config, defaults, n)
  {
    MergeShapeFrom(config, defaults, n);
  }

  /** MergeShape by induction on n, from each option's absence among the options before it. */
  lemma {:induction false} MergeShapeFrom<V>(config: Entries<V>, defaults: Entries<V>, n: nat)
    requires n <= |defaults|
    requires forall i :: 0 <= i < n ==> defaults[i].0 !in Keys(defaults[..i])
    ensures MergeN(config, defaults, n) == config + Missing(config, defaults, n)
  {
    if n > 0 {
      MergeShapeFrom(config, defaults, n - 1);
      MissingKeys(config, defaults, n - 1);
      var miss := Missing(config, defaults, n - 1);
      var (option, value) := defaults[n - 1];
      KeysAppend(config, miss);
      if option in Keys(config) {
        assert Missing(config, defaults, n) == miss + [];
      } else {
        PutNew(config + miss, option, value);
        assert config + miss + [defaults[n - 1]] == config + (miss + [defaults[n - 1]]);
      }
    } else {
      assert config + [] == config;
    }
  }

  /**
   * `merge` keeps what was there: the original dictionary, keys the table does not name
   * included, stays in front unchanged, so every present key keeps its value and no key is lost.
   */
  lemma MergeKeeps<V>(config: Entries<V>, defaults: Entries<V>)
    requires DistinctKeys(defaults)
    ensures var merged := MergeN(config, defaults, |defaults|);
      && |config| <= |merged| && merged[..|config|] == config
      && forall k :: k in Keys(config) ==> Lookup(merged, k) == Lookup(config, k)
  {
    var miss := Missing(config, defaults, |defaults|);
    MergeShape(config, defaults, |defaults|);
    assert (config + miss)[..|config|] == config;
    forall k | k in Keys(config) ensures Lookup(config + miss, k) == Lookup(config, k) {
      LookupAppend(config, miss, k);
    }
  }

  /** An option the dictionary lacked holds its default after `merge`; other absent keys stay absent. */
  lemma MergeFills<V>(config: Entries<V>, defaults: Entries<V>, k: string)
    requires DistinctKeys(defaults) && k !in Keys(config)
    ensures Lookup(MergeN(config, defaults, |defaults|), k) == Lookup(defaults, k)
  {
    var miss := Missing(config, defaults, |defaults|);
    MergeShape(config, defaults, |defaults|);
    LookupAppend(config, miss, k);
    MissingLookup(config, defaults, |defaults|, k);
    assert defaults[..|defaults|] == defaults;
  }

  /** After `merge`, every option of the table is present. */
  lemma MergeCompletes<V>(config: Entries<V>, defaults: Entries<V>)
    requires DistinctKeys(defaults)
    ensures forall j :: 0 <= j < |defaults| ==> defaults[j].0 in Keys(MergeN(config, defaults, |defaults|))
  {
    MergeKeeps(config, defaults);
    forall j | 0 <= j < |defaults| ensures defaults[j].0 in Keys(MergeN(config, defaults, |defaults|)) {
      if defaults[j].0 !in Keys(config) {
        MergeFills(config, defaults, defaults[j].0);
        LookupAt(defaults, j);
      }
    }
  }

  /** Outside the original dictionary, Missing answers lookups as the table's prefix does. */
  lemma {:induction false} MissingLookup<V>(config: Entries<V>, defaults: Entries<V>, n: nat, k: string)
    requires n <= |defaults| && k !in Keys(config)
    ensures Lookup(Missing(config, defaults, n), k) == Lookup(defaults[..n], k)
  {
    if n > 0 {
      MissingLookup(config, defaults, n - 1, k);
      MissingLookupStep(config, defaults, n, k);
    } else {
      assert defaults[..0] == [];
    }
  }

  /** The inductive step of MissingLookup: one more entry of the table. */
  lemma MissingLookupStep<V>(config: Entries<V>, defaults: Entries<V>, n: nat, k: string)
    requires 0 < n <= |defaults| && k !in Keys(config)
    requires Lookup(Missing(config, defaults, n - 1), k) == Lookup(defaults[..n - 1], k)
    ensures Lookup(Missing(config, defaults, n), k) == Lookup(defaults[..n], k)
  {
    var prev := Missing(config, defaults, n - 1);
    var e := defaults[n - 1];
    var pre := defaults[..n - 1];
    assert defaults[..n] == pre + [e];
    LookupSnoc(pre, e, k);
    if e.0 !in Keys(config) {
      assert Missing(config, defaults, n) == prev + [e];
      LookupSnoc(prev, e, k);
    } else {
      assert Missing(config, defaults, n) == prev + [] == prev;
    }
  }

  /** `d[k]` after one more entry at the end. */
  lemma LookupSnoc<V>(a: Entries<V>, e: (string, V), k: string)
    ensures Lookup(a + [e], k) == if k in Keys(a) then Lookup(a, k) else if e.0 == k then Some(e.1) else None
  {
    LookupAppend(a, [e], k);
    assert Keys([e]) == [e.0];
  }

  /** A dictionary that already has every option of the table is left as it is. */
  lemma {:induction false} MergeComplete<V>(config: Entries<V>, defaults: Entries<V>, n: nat)
    requires n <= |defaults|
    requires forall j :: 0 <= j < |defaults| ==> defaults[j].0 in Keys(config)
    ensures MergeN(config, defaults, n) == config
  {
    if n > 0 {
      MergeComplete(config, defaults, n - 1);
    }
  }

  /** Merging twice is merging once. */
  lemma MergeIdempotent<V>(config: Entries<V>, defaults: Entries<V>)
    requires DistinctKeys(defaults)
    ensures var once := MergeN(config, defaults, |defaults|);
      MergeN(once, defaults, |defaults|) == once
  {
    MergeCompletes(config, defaults);
    MergeComplete(MergeN(config, defaults, |defaults|), defaults, |defaults|);
  }

  /** From an empty dictionary, Missing is the table itself. */
  lemma {:induction false} MissingFromEmpty<V>(defaults: Entries<V>, n: nat)
    requires n <= |defaults|
    ensures Missing([], defaults, n) == defaults[..n]
  {
    if n > 0 {
      MissingFromEmpty(defaults, n - 1);
      assert defaults[..n] == defaults[..n - 1] + [defaults[n - 1]];
    }
  }

  /** A partition or drive configured with no options at all gets the whole table. */
  lemma MergeEmpty()
    ensures MergeN([], PartitionDefaults, |PartitionDefaults|) == PartitionDefaults
    ensures MergeN([], DriveDefaults, |DriveDefaults|) == DriveDefaults
  {
    MergeShape([], PartitionDefaults, |PartitionDefaults|);
    MissingFromEmpty(PartitionDefaults, |PartitionDefaults|);
    assert PartitionDefaults[..|PartitionDefaults|] == PartitionDefaults;
    MergeShape([], DriveDefaults, |DriveDefaults|);
    MissingFromEmpty(DriveDefaults, |DriveDefaults|);
    assert DriveDefaults[..|DriveDefaults|] == DriveDefaults;
  }

  /** The table for `fill_defaults` that gives every option of a merge table as a plain default. */
  function AsPlain(defaults: Entries<Value>): (t: Entries<Default>)
    ensures |t| == |defaults|
    ensures forall j :: 0 <= j < |t| ==> t[j] == (defaults[j].0, Plain(Given(defaults[j].1)))
  {
    seq(|defaults|, j requires 0 <= j < |defaults| => (defaults[j].0, Plain(Given(defaults[j].1))))
  }

  /**
   * `merge` is `fill_defaults` on a table without `Required()` or `Choice` options: the same
   * dictionary comes out and nothing is recorded.
   */
  lemma {:induction false} MergeIsFill(config: Entries<Value>, defaults: Entries<Value>, keyPath: seq<string>, n: nat)
    requires n <= |defaults|
    ensures FillN(config, AsPlain(defaults), keyPath, n) == (MergeN(config, defaults, n), [])
  {
    if n > 0 {
      MergeIsFill(config, defaults, keyPath, n - 1);
    }
  }
}
