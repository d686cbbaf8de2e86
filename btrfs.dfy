/**
 * scripts/btrfs.py: a btrfs filesystem spread over devices, with a table of subvolumes. The
 * table is a Python dict in insertion order (an association list here); its rows record the
 * mountpoint, compression and mount options of a subvolume, or None for a subvolume created
 * only as an ancestor of another.
 */
module Btrfs {
  import opened Wrappers
  import opened Text
  import opened Registry
  import opened Commands
  import opened Devices

  /** One row of `self.subvolumes`; None where Python stores None. */
  datatype Subvolume = Subvolume(mountpoint: Option<string>, compression: Option<string>,
                                 mountOptions: Option<seq<string>>)

  /** The row of a subvolume created as an ancestor. */
  const Bare := Subvolume(None, None, None)

  type Table = Entries<Subvolume>

  // ---------------------------------------------------------------------------
  // mkfs.btrfs

  /** The words of the mkfs.btrfs command: each flag only for a non-empty value, then the members. */
  function MkfsWords(dataRaid: string, metadataRaid: string, fsLabel: string, options: string,
                     paths: seq<string>): seq<string>
  {
    ["mkfs.btrfs"] + (if dataRaid != "" then ["-d", dataRaid] else [])
      + (if metadataRaid != "" then ["-m", metadataRaid] else [])
      + (if fsLabel != "" then ["-L", fsLabel] else [])
      + (if options != "" then [options] else []) + paths
  }

  /** `text += f" {flag} {value}"` is joining two more words (`spaced` is the flag between spaces). */
  lemma JoinFlag(ws: seq<string>, flag: string, spaced: string, value: string)
    requires |ws| >= 1 && spaced == " " + flag + " "
    ensures Join(ws + [flag, value], ' ') == Join(ws, ' ') + spaced + value
  {
    var j := Join(ws, ' ');
    assert ws + [flag, value] == (ws + [flag]) + [value];
    JoinSnoc(ws, flag, ' ');
    JoinSnoc(ws + [flag], value, ' ');
    calc {
      Join(ws + [flag, value], ' ');
      (j + [' '] + flag) + [' '] + value;
      { SpacedFlag(j, flag, spaced, value); }
      j + spaced + value;
    }
  }

  /** Regrouping the pieces of `f" {flag} {value}"`. */
  lemma SpacedFlag(j: string, flag: string, spaced: string, value: string)
    requires spaced == " " + flag + " "
    ensures (j + [' '] + flag) + [' '] + value == j + spaced + value
  {
    assert " " == [' '];
  }

  /** `text += f" {flag} {value}"`, done only for a non-empty value. */
  method AppendFlag(line: string, ghost words: seq<string>, flag: string, spaced: string, value: string)
    returns (r: string)
    requires |words| >= 1 && line == Join(words, ' ') && spaced == " " + flag + " "
    ensures r == Join(words + (if value != "" then [flag, value] else []), ' ')
  {
    r := line;
    if value != "" {
      JoinFlag(words, flag, spaced, value);
      r := line + spaced + value;
    } else {
      assert words + [] == words;
    }
  }

  /** One more word after a separator. */
  method AppendWord(line: string, ghost words: seq<string>, w: string, sep: char) returns (r: string)
    requires |words| >= 1 && line == Join(words, sep)
    ensures r == Join(words + [w], sep)
  {
    JoinSnoc(words, w, sep);
    r := line + [sep] + w;
  }

  /** The head of the mkfs.btrfs line, as `Btrfs.__init__` builds it: the flags for the non-empty values. */
  method MkfsHead(dataRaid: string, metadataRaid: string, fsLabel: string, options: string)
    returns (line: string)
    ensures line == Join(MkfsWords(dataRaid, metadataRaid, fsLabel, options, []), ' ')
  {
    ghost var w0 := ["mkfs.btrfs"];
    line := "mkfs.btrfs";
    line := AppendFlag(line, w0, "-d", " -d ", dataRaid);
    ghost var w1 := w0 + (if dataRaid != "" then ["-d", dataRaid] else []);
    line := AppendFlag(line, w1, "-m", " -m ", metadataRaid);
    ghost var w2 := w1 + (if metadataRaid != "" then ["-m", metadataRaid] else []);
    line := AppendFlag(line, w2, "-L", " -L ", fsLabel);
    ghost var w3 := w2 + (if fsLabel != "" then ["-L", fsLabel] else []);
    ghost var w4 := w3 + (if options != "" then [options] else []);
    if options != "" {
      line := AppendWord(line, w3, options, ' ');
    } else {
      assert w4 == w3;
    }
    assert line == Join(w4, ' ');
    assert w4 + [] == w4;
  }

  /** The mkfs.btrfs line of `Btrfs.__init__`: the head, then each member's path after a space. */
  method BuildMkfs(dataRaid: string, metadataRaid: string, fsLabel: string, options: string,
                   paths: seq<string>) returns (line: string)
    ensures line == Join(MkfsWords(dataRaid, metadataRaid, fsLabel, options, paths), ' ')
  {
    line := MkfsHead(dataRaid, metadataRaid, fsLabel, options);
    ghost var words := MkfsWords(dataRaid, metadataRaid, fsLabel, options, []);
    assert words + paths[..0] == words;
    for i := 0 to |paths|
      invariant line == Join(words + paths[..i], ' ')
    {
      assert words + paths[..i + 1] == words + paths[..i] + [paths[i]];
      JoinSnoc(words + paths[..i], paths[i], ' ');
      line := line + " " + paths[i];
    }
    assert paths[..|paths|] == paths;
    assert MkfsWords(dataRaid, metadataRaid, fsLabel, options, paths) == words + paths;
  }

  /** With space-free values, the mkfs.btrfs line splits back into its words. */
  lemma MkfsSplits(dataRaid: string, metadataRaid: string, fsLabel: string, options: string,
                   paths: seq<string>)
    requires ' ' !in dataRaid && ' ' !in metadataRaid && ' ' !in fsLabel && ' ' !in options
    requires forall i :: 0 <= i < |paths| ==> ' ' !in paths[i]
    ensures var ws := MkfsWords(dataRaid, metadataRaid, fsLabel, options, paths);
      Split(Join(ws, ' '), ' ') == ws
  {
    var ws := MkfsWords(dataRaid, metadataRaid, fsLabel, options, paths);
    var head := ws[..|ws| - |paths|];
    assert ws == head + paths;
    forall i | 0 <= i < |ws| ensures ' ' !in ws[i] {
      if i >= |head| {
        assert ws[i] == paths[i - |head|];
      }
    }
    SplitJoin(ws, ' ');
  }

  // ---------------------------------------------------------------------------
  // create_subvolume

  /** `subvolume_path.strip("/").split("/")` */
  function Segments(path: string): (r: seq<string>)
    ensures |r| >= 1
    ensures forall i :: 0 <= i < |r| ==> '/' !in r[i]
  {
    Split(Strip(path, {'/'}), '/')
  }

  /** The key a segment is stored under: the path as given for the last, the bare name for the first, else the joined prefix. */
  function EntryKey(path: string, segs: seq<string>, i: nat): string
    requires i < |segs|
  {
    if i == |segs| - 1 then path
    else if i == 0 then segs[0]
    else Join(segs[..i + 1], '/')
  }

  /** Only the last segment receives the supplied attributes. */
  function EntryValue(segs: seq<string>, i: nat, leaf: Subvolume): Subvolume
  {
    if i == |segs| - 1 then leaf else Bare
  }

  /** `btrfs subvolume create <target>/<key>` for each inserted key, in order. */
  function CreateCommands(target: string, keys: seq<string>, dryRun: bool): (r: seq<Command>)
    ensures |r| == |keys|
  {
    seq(|keys|, j requires 0 <= j < |keys| => Command("btrfs subvolume create " + target + "/" + keys[j], dryRun))
  }

  lemma CreateCommandsSnoc(target: string, keys: seq<string>, k: string, dryRun: bool)
    ensures CreateCommands(target, keys + [k], dryRun)
         == CreateCommands(target, keys, dryRun) + [Command("btrfs subvolume create " + target + "/" + k, dryRun)]
  {
  }

  /** The key each segment is stored under, in order. */
  function EntryKeys(path: string, segs: seq<string>): (r: seq<string>)
    ensures |r| == |segs|
    ensures forall i :: 0 <= i < |segs| ==> r[i] == EntryKey(path, segs, i)
  {
    seq(|segs|, i requires 0 <= i < |segs| => EntryKey(path, segs, i))
  }

  /** The row each segment would receive, in order. */
  function EntryValues(segs: seq<string>, leaf: Subvolume): (r: seq<Subvolume>)
    ensures |r| == |segs|
    ensures forall i :: 0 <= i < |segs| ==> r[i] == EntryValue(segs, i, leaf)
  {
    seq(|segs|, i requires 0 <= i < |segs| => EntryValue(segs, i, leaf))
  }

  /**
   * The walk of `create_subvolume` over the first n segments: segment i is stored under
   * `keys[i]` with `rows[i]` unless `tests[i]` is already a key of the table. The result is
   * the table and the keys stored, in the order they were stored.
   */
  function Walk(table: Table, tests: seq<string>, keys: seq<string>, rows: seq<Subvolume>, n: nat)
    : (Table, seq<string>)
    requires n <= |tests| && |tests| == |keys| == |rows|
    decreases n
  {
    if n == 0 then (table, [])
    else
      var (t, stored) := Walk(table, tests, keys, rows, n - 1);
      if tests[n - 1] in Keys(t) then (t, stored)
      else (Put(t, keys[n - 1], rows[n - 1]), stored + [keys[n - 1]])
  }

  /** As the code does it: a segment is skipped when its BARE name is already a key. */
  function Created(table: Table, path: string, segs: seq<string>, leaf: Subvolume, n: nat): (Table, seq<string>)
    requires n <= |segs|
  {
    Walk(table, segs, EntryKeys(path, segs), EntryValues(segs, leaf), n)
  }

  /**
   * As the keys chosen for the intermediate segments show was meant: a segment is skipped
   * when the key it would be stored under is already present.
   */
  function CreatedIntended(table: Table, path: string, segs: seq<string>, leaf: Subvolume, n: nat)
    : (Table, seq<string>)
    requires n <= |segs|
  {
    Walk(table, EntryKeys(path, segs), EntryKeys(path, segs), EntryValues(segs, leaf), n)
  }

  /** The intended walk, one segment further. */
  lemma IntendedStep(table: Table, path: string, segs: seq<string>, leaf: Subvolume, i: nat)
    requires i < |segs|
    ensures var c := CreatedIntended(table, path, segs, leaf, i);
      var key := EntryKey(path, segs, i);
      CreatedIntended(table, path, segs, leaf, i + 1)
        == if key in Keys(c.0) then c else (Put(c.0, key, EntryValue(segs, i, leaf)), c.1 + [key])
  {
  }

  /** `self.subvolumes[path]["mountpoint"]` where the key exists, None otherwise. */
  function MountpointOf(table: Table, path: string): (r: Option<string>)
    ensures path !in Keys(table) ==> r == None
    ensures forall s :: Lookup(table, path) == Some(s) ==> r == s.mountpoint
  {
    match Lookup(table, path)
    case None => None
    case Some(s) => s.mountpoint
  }

  // ---------------------------------------------------------------------------
  // Properties of the walk

  /** One step on a segment whose test key is absent. */
  lemma WalkStep(table: Table, tests: seq<string>, keys: seq<string>, rows: seq<Subvolume>, n: nat)
    requires 0 < n <= |tests| && |tests| == |keys| == |rows|
    requires tests[n - 1] !in Keys(Walk(table, tests, keys, rows, n - 1).0)
    ensures var c := Walk(table, tests, keys, rows, n - 1);
      Walk(table, tests, keys, rows, n) == (Put(c.0, keys[n - 1], rows[n - 1]), c.1 + [keys[n - 1]])
  {
  }

  /** One step on a segment whose test key is present: nothing changes. */
  lemma WalkSkip(table: Table, tests: seq<string>, keys: seq<string>, rows: seq<Subvolume>, n: nat)
    requires 0 < n <= |tests| && |tests| == |keys| == |rows|
    requires tests[n - 1] in Keys(Walk(table, tests, keys, rows, n - 1).0)
    ensures Walk(table, tests, keys, rows, n) == Walk(table, tests, keys, rows, n - 1)
  {
  }

  lemma GrowsBy(ks: seq<string>, k: string)
    ensures forall x :: x in ks ==> x in ks + [k]
    ensures k in ks + [k]
  {
  }

  /** The walk keeps every key the table had. */
  lemma {:induction false} WalkGrows(table: Table, tests: seq<string>, keys: seq<string>, rows: seq<Subvolume>, n: nat)
    requires n <= |tests| && |tests| == |keys| == |rows|
    ensures forall k :: k in Keys(table) ==> k in Keys(Walk(table, tests, keys, rows, n).0)
    decreases n
  {
    if n > 0 {
      WalkGrows(table, tests, keys, rows, n - 1);
      WalkGrowsStep(table, tests, keys, rows, n);
    }
  }

  /** One step of the walk keeps every key. */
  lemma WalkGrowsStep(table: Table, tests: seq<string>, keys: seq<string>, rows: seq<Subvolume>, n: nat)
    requires 0 < n <= |tests| && |tests| == |keys| == |rows|
    ensures forall k :: k in Keys(Walk(table, tests, keys, rows, n - 1).0) ==> k in Keys(Walk(table, tests, keys, rows, n).0)
  {
    var t := Walk(table, tests, keys, rows, n - 1).0;
    if tests[n - 1] !in Keys(t) {
      WalkStep(table, tests, keys, rows, n);
      PutKeys(t, keys[n - 1], rows[n - 1]);
      GrowsBy(Keys(t), keys[n - 1]);
    } else {
      WalkSkip(table, tests, keys, rows, n);
    }
  }

  /** Every key of the table after the walk was there before or was stored by it. */
  lemma {:induction false} WalkOrigin(table: Table, tests: seq<string>, keys: seq<string>, rows: seq<Subvolume>, n: nat)
    requires n <= |tests| && |tests| == |keys| == |rows|
    ensures var c := Walk(table, tests, keys, rows, n);
      forall k :: k in Keys(c.0) ==> k in Keys(table) || k in c.1
    decreases n
  {
    if n > 0 {
      WalkOrigin(table, tests, keys, rows, n - 1);
      WalkOriginStep(table, tests, keys, rows, n);
    }
  }

  /** One step of the walk: a key after it was there before or is recorded by it; records are kept. */
  lemma WalkOriginStep(table: Table, tests: seq<string>, keys: seq<string>, rows: seq<Subvolume>, n: nat)
    requires 0 < n <= |tests| && |tests| == |keys| == |rows|
    ensures var c, c' := Walk(table, tests, keys, rows, n - 1), Walk(table, tests, keys, rows, n);
      && (forall k :: k in Keys(c'.0) ==> k in Keys(c.0) || k in c'.1)
      && (forall k :: k in c.1 ==> k in c'.1)
  {
    var t := Walk(table, tests, keys, rows, n - 1).0;
    if tests[n - 1] !in Keys(t) {
      WalkStep(table, tests, keys, rows, n);
      PutKeys(t, keys[n - 1], rows[n - 1]);
    } else {
      WalkSkip(table, tests, keys, rows, n);
    }
  }

  /** Testing the key itself, the walk keeps the keys distinct and never changes an existing row. */
  lemma {:induction false} WalkKeeps(table: Table, keys: seq<string>, rows: seq<Subvolume>, n: nat)
    requires DistinctKeys(table)
    requires n <= |keys| == |rows|
    ensures var t := Walk(table, keys, keys, rows, n).0;
      && DistinctKeys(t)
      && (forall k :: k in Keys(table) ==> Lookup(t, k) == Lookup(table, k))
    decreases n
  {
    if n > 0 {
      WalkKeeps(table, keys, rows, n - 1);
      var t := Walk(table, keys, keys, rows, n - 1).0;
      var k := keys[n - 1];
      if k !in Keys(t) {
        WalkStep(table, keys, keys, rows, n);
        PutDistinct(t, k, rows[n - 1]);
        forall u | u in Keys(table) ensures Lookup(Put(t, k, rows[n - 1]), u) == Lookup(table, u) {
          LookupPut(t, k, rows[n - 1], u);
        }
      }
    }
  }

  /** Testing the key itself, every segment's key is present afterwards. */
  lemma {:induction false} WalkStores(table: Table, keys: seq<string>, rows: seq<Subvolume>, n: nat)
    requires n <= |keys| == |rows|
    ensures forall i :: 0 <= i < n ==> keys[i] in Keys(Walk(table, keys, keys, rows, n).0)
    decreases n
  {
    if n > 0 {
      WalkStores(table, keys, rows, n - 1);
      WalkStoresStep(table, keys, rows, n);
    }
  }

  /** One step of the walk testing the key itself: keys stay, and the segment's key is present after it. */
  lemma WalkStoresStep(table: Table, keys: seq<string>, rows: seq<Subvolume>, n: nat)
    requires 0 < n <= |keys| == |rows|
    ensures var t, t' := Walk(table, keys, keys, rows, n - 1).0, Walk(table, keys, keys, rows, n).0;
      (forall k :: k in Keys(t) ==> k in Keys(t')) && keys[n - 1] in Keys(t')
  {
    var t := Walk(table, keys, keys, rows, n - 1).0;
    if keys[n - 1] !in Keys(t) {
      WalkStep(table, keys, keys, rows, n);
      PutKeys(t, keys[n - 1], rows[n - 1]);
      GrowsBy(Keys(t), keys[n - 1]);
    } else {
      WalkSkip(table, keys, keys, rows, n);
    }
  }

  /** Testing the key itself, each key stored was absent from the table and is one of the segments' keys. */
  lemma {:induction false} WalkNew(table: Table, keys: seq<string>, rows: seq<Subvolume>, n: nat)
    requires n <= |keys| == |rows|
    ensures forall k :: k in Walk(table, keys, keys, rows, n).1 ==> k !in Keys(table) && k in keys[..n]
    decreases n
  {
    if n > 0 {
      WalkNew(table, keys, rows, n - 1);
      WalkGrows(table, keys, keys, rows, n - 1);
      assert keys[..n] == keys[..n - 1] + [keys[n - 1]];
    }
  }

  /** Testing the key itself, a last key that is new and unlike the earlier ones gets its row. */
  lemma WalkLast(table: Table, keys: seq<string>, rows: seq<Subvolume>, n: nat)
    requires DistinctKeys(table)
    requires 0 < n <= |keys| == |rows|
    requires keys[n - 1] !in Keys(table) && keys[n - 1] !in keys[..n - 1]
    ensures Lookup(Walk(table, keys, keys, rows, n).0, keys[n - 1]) == Some(rows[n - 1])
  {
    WalkKeeps(table, keys, rows, n - 1);
    WalkNew(table, keys, rows, n - 1);
    WalkOrigin(table, keys, keys, rows, n - 1);
    var t := Walk(table, keys, keys, rows, n - 1).0;
    assert keys[n - 1] !in Keys(t);
    WalkStep(table, keys, keys, rows, n);
    LookupPut(t, keys[n - 1], rows[n - 1], keys[n - 1]);
  }

  /** The rows of a walk that skips nothing. */
  function Zip(keys: seq<string>, rows: seq<Subvolume>, n: nat): (r: Table)
    requires n <= |keys| == |rows|
    ensures |r| == n
  {
    seq(n, i requires 0 <= i < n => (keys[i], rows[i]))
  }

  lemma ZipKeys(keys: seq<string>, rows: seq<Subvolume>, n: nat)
    requires n <= |keys| == |rows|
    ensures Keys(Zip(keys, rows, n)) == keys[..n]
  {
  }

  lemma ZipSnoc(keys: seq<string>, rows: seq<Subvolume>, n: nat)
    requires 0 < n <= |keys| == |rows|
    ensures Zip(keys, rows, n - 1) + [(keys[n - 1], rows[n - 1])] == Zip(keys, rows, n)
  {
  }

  /** From an empty table, with distinct keys and no test hitting an earlier key, every segment is stored in order. */
  lemma {:induction false} WalkFromEmpty(tests: seq<string>, keys: seq<string>, rows: seq<Subvolume>, n: nat)
    requires n <= |tests| && |tests| == |keys| == |rows|
    requires forall i, j :: 0 <= i < j < n ==> keys[i] != keys[j]
    requires forall i, j :: 0 <= i < j < n ==> keys[i] != tests[j]
    ensures Walk([], tests, keys, rows, n) == (Zip(keys, rows, n), keys[..n])
    decreases n
  {
    if n > 0 {
      WalkFromEmpty(tests, keys, rows, n - 1);
      assert tests[n - 1] !in keys[..n - 1] && keys[n - 1] !in keys[..n - 1];
      WalkFromEmptyStep(tests, keys, rows, n);
    }
  }

  /** One more segment stored by the walk from an empty table. */
  lemma WalkFromEmptyStep(tests: seq<string>, keys: seq<string>, rows: seq<Subvolume>, n: nat)
    requires 0 < n <= |tests| && |tests| == |keys| == |rows|
    requires Walk([], tests, keys, rows, n - 1) == (Zip(keys, rows, n - 1), keys[..n - 1])
    requires tests[n - 1] !in keys[..n - 1] && keys[n - 1] !in keys[..n - 1]
    ensures Walk([], tests, keys, rows, n) == (Zip(keys, rows, n), keys[..n])
  {
    var z := Zip(keys, rows, n - 1);
    ZipKeys(keys, rows, n - 1);
    WalkStep([], tests, keys, rows, n);
    PutNew(z, keys[n - 1], rows[n - 1]);
    ZipSnoc(keys, rows, n);
    assert keys[..n] == keys[..n - 1] + [keys[n - 1]];
  }

  // ---------------------------------------------------------------------------
  // The keys of one path

  /** The number of slashes in a string. */
  function Slashes(s: string): nat
  {
    multiset(s)['/']
  }

  /**
   * The key of an ancestor segment holds as many slashes as segments precede it; the path
   * itself holds at least as many as its stripped form, one fewer than its segments.
   */
  lemma KeySlashes(path: string, i: nat)
    requires i < |Segments(path)|
    ensures var segs := Segments(path);
      && (i < |segs| - 1 ==> Slashes(EntryKey(path, segs, i)) == i)
      && (i == |segs| - 1 ==> Slashes(EntryKey(path, segs, i)) >= i)
  {
    var segs := Segments(path);
    if i == |segs| - 1 {
      JoinSplit(Strip(path, {'/'}), '/');
      JoinCount(segs, '/');
      StripCount(path, {'/'}, '/');
    } else if i == 0 {
      assert '/' !in segs[0];
      assert multiset(segs[0])['/'] == 0;
    } else {
      JoinCount(segs[..i + 1], '/');
    }
  }

  /** Different segments of one path are stored under different keys. */
  lemma EntryKeysDistinct(path: string, i: nat, j: nat)
    requires i < j < |Segments(path)|
    ensures EntryKey(path, Segments(path), i) != EntryKey(path, Segments(path), j)
  {
    KeySlashes(path, i);
    KeySlashes(path, j);
  }

  /**
   * Creating a path in an empty table, when no later segment repeats the first one's name:
   * one row per segment, root first, ancestors bare and the leaf with the supplied attributes,
   * and one create command per segment in that order.
   */
  lemma CreateFromEmpty(path: string, leaf: Subvolume)
    requires forall i :: 0 < i < |Segments(path)| ==> Segments(path)[i] != Segments(path)[0]
    ensures var segs := Segments(path);
      var c := Created([], path, segs, leaf, |segs|);
      && c.1 == EntryKeys(path, segs)
      && (forall i :: 0 <= i < |segs| ==> Lookup(c.0, EntryKey(path, segs, i)) == Some(EntryValue(segs, i, leaf)))
      && MountpointOf(c.0, path) == leaf.mountpoint
  {
    var segs := Segments(path);
    var n := |segs|;
    var keys := EntryKeys(path, segs);
    var rows := EntryValues(segs, leaf);
    forall i, j | 0 <= i < j < n ensures keys[i] != keys[j] {
      EntryKeysDistinct(path, i, j);
    }
    forall i, j | 0 <= i < j < n ensures keys[i] != segs[j] {
      assert multiset(segs[j])['/'] == 0;
      if i > 0 {
        KeySlashes(path, i);
      }
    }
    WalkFromEmpty(segs, keys, rows, n);
    var z := Zip(keys, rows, n);
    assert keys[..n] == keys;
    assert DistinctKeys(z);
    forall i | 0 <= i < n ensures Lookup(z, EntryKey(path, segs, i)) == Some(EntryValue(segs, i, leaf)) {
      LookupAt(z, i);
    }
  }

  /**
   * The intended walk never overwrites a row, stores every segment's key, creates only keys
   * that were absent, and gives a path that was absent its supplied mountpoint.
   */
  lemma IntendedCreate(table: Table, path: string, leaf: Subvolume)
    requires DistinctKeys(table)
    ensures var segs := Segments(path);
      var c := CreatedIntended(table, path, segs, leaf, |segs|);
      && DistinctKeys(c.0)
      && (forall k :: k in Keys(table) ==> Lookup(c.0, k) == Lookup(table, k))
      && (forall i :: 0 <= i < |segs| ==> EntryKey(path, segs, i) in Keys(c.0))
      && (forall k :: k in c.1 ==> k !in Keys(table))
      && (path !in Keys(table) ==> MountpointOf(c.0, path) == leaf.mountpoint)
  {
    var segs := Segments(path);
    var n := |segs|;
    var keys := EntryKeys(path, segs);
    var rows := EntryValues(segs, leaf);
    WalkKeeps(table, keys, rows, n);
    WalkStores(table, keys, rows, n);
    WalkNew(table, keys, rows, n);
    if path !in Keys(table) {
      assert keys[n - 1] == path;
      forall i | 0 <= i < n - 1 ensures keys[i] != path {
        EntryKeysDistinct(path, i, n - 1);
      }
      WalkLast(table, keys, rows, n);
    }
  }

  /** A path with no slash at either end splits into the pieces it was joined from. */
  lemma SegmentsOfJoin(path: string, ws: seq<string>)
    requires |ws| >= 1 && (forall i :: 0 <= i < |ws| ==> '/' !in ws[i])
    requires path == Join(ws, '/') && |path| > 0 && path[0] != '/' && path[|path| - 1] != '/'
    ensures Segments(path) == ws
  {
    assert TrimLeft(path, {'/'}) == path;
    assert TrimRight(path, {'/'}) == path;
    SplitJoin(ws, '/');
  }

  /** A name fit to be one segment of a path. */
  predicate Name(a: string)
  {
    |a| > 0 && '/' !in a
  }

  /** The path "a/b" of two names. */
  lemma PathOfTwo(a: string, b: string, p: string)
    requires Name(a) && Name(b) && p == a + "/" + b
    ensures Join([a, b], '/') == p && Segments(p) == [a, b] && p != a && p != b
  {
    JoinCons(a, [b], '/');
    assert p[|a|] == '/';
    SegmentsOfJoin(p, [a, b]);
  }

  /** The path "a/b/c" of three names, whose first two make "a/b". */
  lemma PathOfThree(a: string, b: string, c: string, p: string, q: string)
    requires Name(a) && Name(b) && Name(c) && p == a + "/" + b && q == p + "/" + c
    ensures Segments(q) == [a, b, c] && q != a && q != p && c != p && Join([a, b, c][..2], '/') == p
  {
    PathOfTwo(a, b, p);
    JoinThree(a, b, c, p, q);
    ThreeParts(a, b, c, p, q);
    SegmentsOfJoin(q, [a, b, c]);
    assert [a, b, c][..2] == [a, b];
  }

  lemma JoinThree(a: string, b: string, c: string, p: string, q: string)
    requires Join([a, b], '/') == p && q == p + "/" + c
    ensures Join([a, b, c], '/') == q
  {
    JoinSnoc([a, b], c, '/');
    assert [a, b] + [c] == [a, b, c];
  }

  /** "a/b/c" starts with a's first character, ends with c's last, and is longer than "a/b" and a. */
  lemma ThreeParts(a: string, b: string, c: string, p: string, q: string)
    requires Name(a) && Name(b) && Name(c) && p == a + "/" + b && q == p + "/" + c
    ensures q[0] == a[0] && q[|q| - 1] == c[|c| - 1] && q != a && q != p && c != p
  {
    assert p[|a|] == '/';
  }

  /** The keys of three segments: the root, the path of the first two, and the path. */
  lemma KeysOfThree(segs: seq<string>, p: string, q: string)
    requires |segs| == 3 && Join(segs[..2], '/') == p
    ensures EntryKeys(q, segs) == [segs[0], p, q]
  {
    var ks := EntryKeys(q, segs);
    assert ks == [ks[0], ks[1], ks[2]];
  }

  /** The keys and rows of the two segments of a path. */
  lemma EntriesOfTwo(a: string, b: string, p: string, leaf: Subvolume)
    ensures EntryKeys(p, [a, b]) == [a, p]
    ensures EntryValues([a, b], leaf) == [Bare, leaf]
  {
    var ks := EntryKeys(p, [a, b]);
    assert ks == [ks[0], ks[1]];
    var vs := EntryValues([a, b], leaf);
    assert vs == [vs[0], vs[1]];
  }

  /** The rows of the three segments of a path. */
  lemma ValuesOfThree(a: string, b: string, c: string, leaf: Subvolume)
    ensures EntryValues([a, b, c], leaf) == [Bare, Bare, leaf]
  {
    var vs := EntryValues([a, b, c], leaf);
    assert vs == [vs[0], vs[1], vs[2]];
  }

  /** A table of one row has that row's key. */
  lemma KeysOne(k: string, v: Subvolume)
    ensures Keys([(k, v)]) == [k]
  {
  }

  /** A table of two rows has their keys. */
  lemma KeysTwo(k: string, v: Subvolume, l: string, w: Subvolume)
    ensures Keys([(k, v), (l, w)]) == [k, l]
  {
  }

  /** Walking two segments in an empty table, the second one's test differing from the root: both are stored. */
  lemma WalkTwo(tests: seq<string>, a: string, p: string, leaf: Subvolume)
    requires |tests| == 2 && tests[1] != a && a != p
    ensures Walk([], tests, [a, p], [Bare, leaf], 2) == ([(a, Bare), (p, leaf)], [a, p])
  {
    var keys, rows := [a, p], [Bare, leaf];
    WalkStep([], tests, keys, rows, 1);
    assert Put([], a, Bare) == [(a, Bare)];
    KeysOne(a, Bare);
    assert [] + [a] == [a];
    WalkStep([], tests, keys, rows, 2);
    PutNew([(a, Bare)], p, leaf);
    assert [(a, Bare)] + [(p, leaf)] == [(a, Bare), (p, leaf)];
    assert [a] + [p] == [a, p];
  }

  /**
   * Walking three segments, testing bare names, over a table holding the root and the
   * second key: the root is skipped, the second key is stored again as a bare row, and the
   * third is added.
   */
  lemma WalkThreeBare(a: string, b: string, c: string, p: string, q: string, leaf: Subvolume, child: Subvolume)
    requires p != a && b != a && b != p && c != a && c != p && q != a && q != p
    ensures var t := [(a, Bare), (p, leaf)];
      Walk(t, [a, b, c], [a, p, q], [Bare, Bare, child], 3) == ([(a, Bare), (p, Bare), (q, child)], [p, q])
  {
    var t := [(a, Bare), (p, leaf)];
    var tests, keys, rows := [a, b, c], [a, p, q], [Bare, Bare, child];
    KeysTwo(a, Bare, p, leaf);
    WalkSkip(t, tests, keys, rows, 1);
    WalkStep(t, tests, keys, rows, 2);
    var t2 := [(a, Bare), (p, Bare)];
    assert Put(t, p, Bare) == t2;
    assert [] + [p] == [p];
    KeysTwo(a, Bare, p, Bare);
    WalkStep(t, tests, keys, rows, 3);
    PutNew(t2, q, child);
    assert t2 + [(q, child)] == [(a, Bare), (p, Bare), (q, child)];
    assert [p] + [q] == [p, q];
  }

  /** The same walk testing the keys themselves: only the third is added. */
  lemma WalkThreeKeys(a: string, p: string, q: string, leaf: Subvolume, child: Subvolume)
    requires p != a && q != a && q != p
    ensures var t := [(a, Bare), (p, leaf)];
      Walk(t, [a, p, q], [a, p, q], [Bare, Bare, child], 3) == ([(a, Bare), (p, leaf), (q, child)], [q])
  {
    var t := [(a, Bare), (p, leaf)];
    var keys, rows := [a, p, q], [Bare, Bare, child];
    KeysTwo(a, Bare, p, leaf);
    WalkSkip(t, keys, keys, rows, 1);
    WalkSkip(t, keys, keys, rows, 2);
    WalkStep(t, keys, keys, rows, 3);
    PutNew(t, q, child);
    assert t + [(q, child)] == [(a, Bare), (p, leaf), (q, child)];
    assert [] + [q] == [q];
  }

  /** Creating "a/b" in an empty table, either way: a bare root and the leaf. */
  lemma CreateTwo(a: string, b: string, p: string, leaf: Subvolume)
    requires Name(a) && Name(b) && a != b && p == a + "/" + b
    ensures Segments(p) == [a, b]
    ensures Created([], p, [a, b], leaf, 2) == ([(a, Bare), (p, leaf)], [a, p])
    ensures CreatedIntended([], p, [a, b], leaf, 2) == ([(a, Bare), (p, leaf)], [a, p])
  {
    PathOfTwo(a, b, p);
    EntriesOfTwo(a, b, p, leaf);
    WalkTwo([a, b], a, p, leaf);
    WalkTwo([a, p], a, p, leaf);
  }

  /**
   * As written, creating "a/b" and then "a/b/c" (a differing from b and c) looks up the bare
   * name b, finds it absent, and stores "a/b" again as a bare row: its mountpoint is lost and
   * its create command is issued a second time.
   */
  lemma RecreatesAncestor(a: string, b: string, c: string, p: string, q: string, leaf: Subvolume, child: Subvolume)
    requires Name(a) && Name(b) && Name(c) && a != b && a != c
    requires p == a + "/" + b && q == p + "/" + c
    ensures Segments(p) == [a, b] && Segments(q) == [a, b, c]
    ensures var t := Created([], p, [a, b], leaf, 2).0;
      var r := Created(t, q, [a, b, c], child, 3);
      && Lookup(t, p) == Some(leaf)
      && r.1 == [p, q]
      && Lookup(r.0, p) == Some(Bare)
  {
    CreateTwo(a, b, p, leaf);
    PathOfThree(a, b, c, p, q);
    KeysOfThree([a, b, c], p, q);
    ValuesOfThree(a, b, c, child);
    WalkThreeBare(a, b, c, p, q, leaf, child);
    assert Lookup([(a, Bare), (p, leaf)], p) == Some(leaf);
    assert Lookup([(a, Bare), (p, Bare), (q, child)], p) == Some(Bare);
  }

  /** The intended walk, on the same two calls, leaves the row of "a/b" as it was and stores only "a/b/c". */
  lemma KeepsAncestor(a: string, b: string, c: string, p: string, q: string, leaf: Subvolume, child: Subvolume)
    requires Name(a) && Name(b) && Name(c) && a != b && a != c
    requires p == a + "/" + b && q == p + "/" + c
    ensures Segments(p) == [a, b] && Segments(q) == [a, b, c]
    ensures var t := CreatedIntended([], p, [a, b], leaf, 2).0;
      var r := CreatedIntended(t, q, [a, b, c], child, 3);
      && Lookup(t, p) == Some(leaf)
      && r.1 == [q]
      && Lookup(r.0, p) == Some(leaf)
  {
    CreateTwo(a, b, p, leaf);
    PathOfThree(a, b, c, p, q);
    KeysOfThree([a, b, c], p, q);
    ValuesOfThree(a, b, c, child);
    WalkThreeKeys(a, p, q, leaf, child);
    assert Lookup([(a, Bare), (p, leaf)], p) == Some(leaf);
    assert Lookup([(a, Bare), (p, leaf), (q, child)], p) == Some(leaf);
  }

  /** Walking two segments whose tests are both the root's key stores the root alone. */
  lemma WalkRepeated(a: string, p: string, leaf: Subvolume)
    ensures Walk([], [a, a], [a, p], [Bare, leaf], 2) == ([(a, Bare)], [a])
  {
    var tests, keys, rows := [a, a], [a, p], [Bare, leaf];
    WalkStep([], tests, keys, rows, 1);
    assert Put([], a, Bare) == [(a, Bare)];
    KeysOne(a, Bare);
    assert [] + [a] == [a];
    WalkSkip([], tests, keys, rows, 2);
  }

  /**
   * As written, creating "a/a" in an empty table stores "a" and then skips the second segment,
   * whose bare name is now a key: the path itself is never stored, so its mountpoint is lost.
   */
  lemma SkipsRepeatedName(a: string, p: string, leaf: Subvolume)
    requires Name(a) && p == a + "/" + a
    ensures Segments(p) == [a, a]
    ensures Created([], p, [a, a], leaf, 2) == ([(a, Bare)], [a])
    ensures MountpointOf(Created([], p, [a, a], leaf, 2).0, p) == None
  {
    PathOfTwo(a, a, p);
    EntriesOfTwo(a, a, p, leaf);
    WalkRepeated(a, p, leaf);
    KeysOne(a, Bare);
  }

  /** The intended walk stores both "a" and "a/a", the latter with the supplied attributes. */
  lemma StoresRepeatedName(a: string, p: string, leaf: Subvolume)
    requires Name(a) && p == a + "/" + a
    ensures Segments(p) == [a, a]
    ensures CreatedIntended([], p, [a, a], leaf, 2) == ([(a, Bare), (p, leaf)], [a, p])
  {
    PathOfTwo(a, a, p);
    EntriesOfTwo(a, a, p, leaf);
    WalkTwo([a, p], a, p, leaf);
  }

  // ---------------------------------------------------------------------------
  // mount_subvolume

  /** The comma-separated pieces of the `-o` argument of `mount_subvolume`. */
  function MountOptionWords(path: string, s: Subvolume): seq<string>
  {
    ["subvol=" + path]
      + (if Truthy(s.compression) then ["compress=" + s.compression.value] else [])
      + (if s.mountOptions.Some? && |s.mountOptions.value| > 0 then s.mountOptions.value else [])
  }

  /** The words of the mount command of a subvolume with a truthy mountpoint. */
  function MountWords(path: string, s: Subvolume, uuid: Option<string>, overrideMount: string, mountpoint: string)
    : seq<string>
  {
    ["mount", "-m", "-o", Join(MountOptionWords(path, s), ','), "/dev/disk/by-uuid/" + Show(uuid),
     overrideMount + mountpoint]
  }

  lemma MountLine(field: string, device: string, target: string)
    ensures Join(["mount", "-m", "-o", field, device, target], ' ')
         == "mount -m -o " + field + " " + device + " " + target
  {
    var tail := [field, device, target];
    JoinOfThree(field, device, target, ' ');
    JoinFrontThree("mount", "-m", "-o", tail, ' ');
    assert ["mount", "-m", "-o", field, device, target] == ["mount", "-m", "-o"] + tail;
    MountPrefix(Join(tail, ' '));
    SpacedThree("mount -m -o ", field, device, target);
  }

  /** Three words joined. */
  lemma JoinOfThree(a: string, b: string, c: string, sep: char)
    ensures Join([a, b, c], sep) == a + [sep] + b + [sep] + c
  {
    JoinCons(a, [b, c], sep);
    JoinCons(b, [c], sep);
    assert [a] + [b, c] == [a, b, c];
  }

  /** Three words in front of a non-empty list, joined. */
  lemma JoinFrontThree(a: string, b: string, c: string, tail: seq<string>, sep: char)
    requires |tail| >= 1
    ensures Join([a, b, c] + tail, sep) == a + [sep] + (b + [sep] + (c + [sep] + Join(tail, sep)))
  {
    JoinCons(c, tail, sep);
    JoinCons(b, [c] + tail, sep);
    JoinCons(a, [b] + ([c] + tail), sep);
    assert [a, b, c] + tail == [a] + ([b] + ([c] + tail));
  }

  /** The words `mount -m -o` in front of a rest, space-separated. */
  lemma MountPrefix(x: string)
    ensures "mount" + [' '] + ("-m" + [' '] + ("-o" + [' '] + x)) == "mount -m -o " + x
  {
  }

  /** A prefix followed by three words with spaces between, grouped either way. */
  lemma SpacedThree(p: string, a: string, b: string, c: string)
    ensures p + (a + [' '] + b + [' '] + c) == p + a + " " + b + " " + c
  {
  }

  /** With space-free pieces and comma-free options, the mount command splits back into its words and options. */
  lemma MountSplits(path: string, s: Subvolume, uuid: Option<string>, overrideMount: string, mountpoint: string)
    requires var ws := MountOptionWords(path, s);
      forall i :: 0 <= i < |ws| ==> ' ' !in ws[i] && ',' !in ws[i]
    requires ' ' !in Show(uuid) && ' ' !in overrideMount + mountpoint
    ensures var ws := MountWords(path, s, uuid, overrideMount, mountpoint);
      Split(Join(ws, ' '), ' ') == ws && Split(ws[3], ',') == MountOptionWords(path, s)
  {
    var os := MountOptionWords(path, s);
    var field := Join(os, ',');
    JoinNoChar(os, ',', ' ');
    SplitJoin(os, ',');
    var ws := MountWords(path, s, uuid, overrideMount, mountpoint);
    assert ' ' !in "/dev/disk/by-uuid/" + Show(uuid);
    SplitJoin(ws, ' ');
  }

  /** The `-o` argument as `mount_subvolume` builds it: the subvolume, then compression, then options. */
  method OptionsField(path: string, s: Subvolume) returns (field: string)
    ensures field == Join(MountOptionWords(path, s), ',')
  {
    ghost var w0 := ["subvol=" + path];
    field := "subvol=" + path;
    if Truthy(s.compression) {
      field := AppendWord(field, w0, "compress=" + s.compression.value, ',');
    } else {
      assert w0 + [] == w0;
    }
    ghost var w1 := w0 + (if Truthy(s.compression) then ["compress=" + s.compression.value] else []);
    if s.mountOptions.Some? && |s.mountOptions.value| > 0 {
      JoinAppend(w1, s.mountOptions.value, ',');
      field := field + "," + Join(s.mountOptions.value, ',');
    } else {
      assert w1 + [] == w1;
    }
  }

  /** The command line of `mount_subvolume` for a subvolume with a truthy mountpoint. */
  method SubvolumeMountCommand(path: string, s: Subvolume, uuid: Option<string>, overrideMount: string, mountpoint: string)
    returns (line: string)
    ensures line == Join(MountWords(path, s, uuid, overrideMount, mountpoint), ' ')
  {
    var field := OptionsField(path, s);
    var device := "/dev/disk/by-uuid/" + Show(uuid);
    var target := overrideMount + mountpoint;
    line := "mount -m -o " + field;
    line := line + " " + device;
    line := line + " " + target;
    MountLine(field, device, target);
  }

  /** A join contains no character that neither the pieces nor the separator contain. */
  lemma {:induction false} JoinNoChar(ws: seq<string>, sep: char, c: char)
    requires c != sep
    requires forall i :: 0 <= i < |ws| ==> c !in ws[i]
    ensures c !in Join(ws, sep)
    decreases |ws|
  {
    if |ws| > 1 {
      JoinNoChar(ws[1..], sep, c);
    }
  }

  // ---------------------------------------------------------------------------
  // The filesystem

  class Volume {
    const uuid: Option<string>
    const devices: seq<Formattable>
    const fsLabel: string
    var subvolumes: Table
    const dryRun: bool

    /**
     * `Btrfs.__init__`: run mkfs.btrfs over the members, take the UUID of the first one and
     * start with an empty subvolume table.
     */
    constructor (devices: seq<Formattable>, dataRaid: string, metadataRaid: string, fsLabel: string,
                 options: string, dryRun: bool, shell: Shell)
      requires |devices| > 0
      modifies shell
      ensures shell.log == old(shell.log)
                           + [Command(Join(MkfsWords(dataRaid, metadataRaid, fsLabel, options, PathsOf(devices)), ' '),
                                      dryRun)]
      ensures uuid == devices[0].uuid && this.devices == devices && this.fsLabel == fsLabel
      ensures subvolumes == [] && this.dryRun == dryRun
    {
      var line := BuildMkfs(dataRaid, metadataRaid, fsLabel, options, PathsOf(devices));
      shell.Run(line, dryRun);
      uuid := devices[0].uuid;
      this.devices := devices;
      this.fsLabel := fsLabel;
      subvolumes := [];
      this.dryRun := dryRun;
    }

    /**
     * `create_subvolume`, with the membership test corrected to the key a segment is stored
     * under: walk the path's segments from the root, storing and creating each one whose key
     * is absent.
     */
    method CreateSubvolume(subvolumePath: string, mountpoint: Option<string>, compression: Option<string>,
                           mountOptions: Option<seq<string>>, targetMountpoint: string, shell: Shell)
      modifies this`subvolumes, shell
      ensures var c := CreatedIntended(old(subvolumes), subvolumePath, Segments(subvolumePath),
                                       Subvolume(mountpoint, compression, mountOptions), |Segments(subvolumePath)|);
        subvolumes == c.0 && shell.log == old(shell.log) + CreateCommands(targetMountpoint, c.1, dryRun)
    {
      var splitSubvol := Segments(subvolumePath);
      ghost var leaf := Subvolume(mountpoint, compression, mountOptions);
      ghost var table, log := subvolumes, shell.log;
      ghost var keys: seq<string> := [];
      var i := 0;
      while i < |splitSubvol|
        invariant i <= |splitSubvol|
        invariant CreatedIntended(table, subvolumePath, splitSubvol, leaf, i) == (subvolumes, keys)
        invariant shell.log == log + CreateCommands(targetMountpoint, keys, dryRun)
      {
        keys := CreateSegment(subvolumePath, splitSubvol, i, mountpoint, compression, mountOptions,
                              targetMountpoint, shell, table, log, keys);
        i := i + 1;
      }
    }

    /** One pass of the loop in `create_subvolume`: the segment at index i. */
    method CreateSegment(subvolumePath: string, splitSubvol: seq<string>, i: nat, mountpoint: Option<string>,
                         compression: Option<string>, mountOptions: Option<seq<string>>, targetMountpoint: string,
                         shell: Shell, ghost table: Table, ghost log: seq<Command>, ghost keys: seq<string>)
      returns (ghost keys': seq<string>)
      requires i < |splitSubvol|
      requires CreatedIntended(table, subvolumePath, splitSubvol, Subvolume(mountpoint, compression, mountOptions), i)
            == (subvolumes, keys)
      requires shell.log == log + CreateCommands(targetMountpoint, keys, dryRun)
      modifies this`subvolumes, shell
      ensures CreatedIntended(table, subvolumePath, splitSubvol, Subvolume(mountpoint, compression, mountOptions), i + 1)
           == (subvolumes, keys')
      ensures shell.log == log + CreateCommands(targetMountpoint, keys', dryRun)
    {
      IntendedStep(table, subvolumePath, splitSubvol, Subvolume(mountpoint, compression, mountOptions), i);
      keys' := keys;
      var vol := splitSubvol[i];
      var mp, comp, mOptions := None, None, None;
      var volToAdd;
      if i == |splitSubvol| - 1 {
        volToAdd := subvolumePath;
        mp, comp, mOptions := mountpoint, compression, mountOptions;
      } else if i == 0 {
        volToAdd := vol;
      } else {
        volToAdd := Join(splitSubvol[..i + 1], '/');
      }
      if volToAdd !in Keys(subvolumes) {
        subvolumes := Put(subvolumes, volToAdd, Subvolume(mp, comp, mOptions));
        CreateCommandsSnoc(targetMountpoint, keys, volToAdd, dryRun);
        keys' := keys + [volToAdd];
        shell.Run("btrfs subvolume create " + targetMountpoint + "/" + volToAdd, dryRun);
      }
    }

    /** `get_mountpoint` */
    function GetMountpoint(subvolumePath: string): Option<string>
      reads this
    {
      MountpointOf(subvolumes, subvolumePath)
    }

    /**
     * `mount_subvolume`: nothing for a subvolume without a truthy mountpoint; otherwise mount
     * it by the filesystem's UUID with its subvolume, compression and options, at the override
     * followed by its mountpoint.
     */
    method MountSubvolume(subvolumePath: string, overrideMount: string, shell: Shell)
      modifies shell
      ensures var mp := MountpointOf(subvolumes, subvolumePath);
        shell.log == old(shell.log)
                     + if !Truthy(mp) then []
                       else [Command(Join(MountWords(subvolumePath, Lookup(subvolumes, subvolumePath).value, uuid,
                                                     overrideMount, mp.value), ' '), dryRun)]
    {
      var mp := GetMountpoint(subvolumePath);
      if !Truthy(mp) {
        return;
      }
      var subvol := Lookup(subvolumes, subvolumePath).value;
      var mountCommand := SubvolumeMountCommand(subvolumePath, subvol, uuid, overrideMount, mp.value);
      shell.Run(mountCommand, dryRun);
    }
  }
}
