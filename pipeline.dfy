/**
 * The installer's storage pipeline (`Excalibur` in new_main.py): a registry of block devices
 * keyed by the configuration's uids, filled by partitioning the drives and assembling RAID
 * arrays, then encrypted, formatted, ordered for mounting and mounted.
 *
 * Each stage is specified by a function over device states and the command log (the stage
 * run on values), and each stage method is proved to produce exactly that.
 */
module Pipeline {
  import opened Wrappers
  import opened Text
  import opened Commands
  import opened Registry
  import opened Devices
  import StableSort
  import Stages

  // ---------------------------------------------------------------------------
  // The configuration sections the pipeline reads (after defaults were filled)

  datatype PartitionConfig = PartitionConfig(
    size: string, startSector: string, endSector: string, typeCode: string, partitionLabel: Option<string>)

  datatype DriveConfig = DriveConfig(devicePath: string, gpt: bool, partitions: seq<(string, PartitionConfig)>)

  datatype RaidConfig = RaidConfig(devices: seq<string>, arrayName: string, level: int)

  datatype CryptConfig = CryptConfig(cryptLabel: string, loadEarly: bool, generateKeyfile: bool)

  datatype FilesystemConfig = FilesystemConfig(filesystem: string, fsLabel: Option<string>, mountpoint: Option<string>)

  /** The registry seen as values: each uid with the state of the device stored under it. */
  type View = Entries<DeviceState>

  // ---------------------------------------------------------------------------
  // Stage specifications: each stage is a walk over its configuration section (see Stages)

  /** `Drive.new_partition` for one configured partition, as the drive's n-th partition. */
  function PartitionAct(devicePath: string, dryRun: bool, probe: Probe, n: nat, log: seq<Command>,
                        pc: PartitionConfig): Step
  {
    PartitionStep(pc.startSector, pc.endSector, pc.size, pc.typeCode, pc.partitionLabel, n, devicePath,
                  dryRun, log, probe)
  }

  function PartitionAction(devicePath: string, dryRun: bool, probe: Probe)
    : Stages.Action<DeviceState, PartitionConfig, Command>
  {
    (n: nat, es: View, log: seq<Command>, uid: string, pc: PartitionConfig) =>
      var st := PartitionAct(devicePath, dryRun, probe, n, log, pc);
      Some((st.state, st.log))
  }

  /** One drive of `partition_drives`: a fresh `Drive` numbers its partitions from 1. */
  function DrivePartitionsSpec(view: View, log: seq<Command>, dc: DriveConfig, dryRun: bool, probe: Probe)
    : Stages.Outcome<DeviceState, Command>
  {
    Stages.Run(view, log, dc.partitions, 1, PartitionAction(dc.devicePath, dryRun, probe))
  }

  /** `partition_drives`: every drive in configuration order. */
  function PartitionSpec(view: View, log: seq<Command>, drives: seq<(string, DriveConfig)>, dryRun: bool,
                         probe: Probe): (View, seq<Command>)
    decreases |drives|
  {
    if |drives| == 0 then (view, log)
    else
      var o := DrivePartitionsSpec(view, log, drives[0].1, dryRun, probe);
      PartitionSpec(o.entries, o.log, drives[1..], dryRun, probe)
  }

  /** The current paths of the named members, or None if one of them is not registered. */
  function MemberPaths(view: View, members: seq<string>): (r: Option<seq<string>>)
    ensures r.Some? <==> forall t :: 0 <= t < |members| ==> members[t] in Keys(view)
    ensures r.Some? ==> |r.value| == |members|
    ensures r.Some? ==> forall t :: 0 <= t < |members| ==> r.value[t] == Lookup(view, members[t]).value.partitionPath
    decreases |members|
  {
    if |members| == 0 then Some([])
    else
      match Lookup(view, members[0])
      case None => None
      case Some(s) =>
        match MemberPaths(view, members[1..])
        case None => None
        case Some(rest) => Some([s.partitionPath] + rest)
  }

  /** One array of `setup_raid_arrays`: None where a member uid is missing (a KeyError). */
  function RaidAction(dryRun: bool, probe: Probe): Stages.Action<DeviceState, RaidConfig, Command>
  {
    (n: nat, es: View, log: seq<Command>, uid: string, rc: RaidConfig) =>
      match MemberPaths(es, rc.devices)
      case None => None
      case Some(paths) =>
        var st := RaidStep(paths, rc.arrayName, rc.level, "", dryRun, log, probe);
        Some((st.state, st.log))
  }

  /** `setup_raid_arrays` */
  function RaidSpec(view: View, log: seq<Command>, raids: seq<(string, RaidConfig)>, dryRun: bool,
                    probe: Probe): Stages.Outcome<DeviceState, Command>
  {
    Stages.Run(view, log, raids, 0, RaidAction(dryRun, probe))
  }

  /** The encryption of one device in `encrypt_partitions`: None where the uid is missing. */
  function EncryptAction(probe: Probe): Stages.Action<DeviceState, CryptConfig, Command>
  {
    (n: nat, es: View, log: seq<Command>, uid: string, cc: CryptConfig) =>
      match Lookup(es, uid)
      case None => None
      case Some(s) =>
        var st := EncryptStep(s, cc.cryptLabel, cc.generateKeyfile, "", "", log, probe);
        Some((st.state, st.log))
  }

  /** The uids flagged to be unlocked early, in configuration order. */
  function EarlyUids(crypts: seq<(string, CryptConfig)>): (r: seq<string>)
    ensures forall u :: u in r ==> u in Keys(crypts)
    decreases |crypts|
  {
    if |crypts| == 0 then []
    else
      assert Keys(crypts) == [crypts[0].0] + Keys(crypts[1..]);
      (if crypts[0].1.loadEarly then [crypts[0].0] else []) + EarlyUids(crypts[1..])
  }

  /** The uids to be unlocked late, in configuration order. */
  function LateUids(crypts: seq<(string, CryptConfig)>): (r: seq<string>)
    ensures forall u :: u in r ==> u in Keys(crypts)
    decreases |crypts|
  {
    if |crypts| == 0 then []
    else
      assert Keys(crypts) == [crypts[0].0] + Keys(crypts[1..]);
      (if crypts[0].1.loadEarly then [] else [crypts[0].0]) + LateUids(crypts[1..])
  }

  /**
   * The position of the first early entry met while an early device is already chosen
   * (`chosen` says whether one was chosen before the list): there the program exits.
   */
  function SecondEarly(crypts: seq<(string, CryptConfig)>, chosen: bool): (r: Option<nat>)
    ensures r.Some? ==> r.value < |crypts|
    decreases |crypts|
  {
    if |crypts| == 0 then None
    else if crypts[0].1.loadEarly && chosen then Some(0)
    else Later(SecondEarly(crypts[1..], chosen || crypts[0].1.loadEarly), 1)
  }

  /** A position found in a part of a list that starts `offset` entries in. */
  function Later(o: Option<nat>, offset: nat): Option<nat>
  {
    if o.Some? then Some(o.value + offset) else None
  }

  /** The first position found: in the first part, or else in the second, which starts `offset` entries in. */
  function ThenAt(first: Option<nat>, second: Option<nat>, offset: nat): Option<nat>
  {
    if first.Some? then first else Later(second, offset)
  }

  /** The devices `encrypt_partitions` encrypts: all of them, or up to a second early one. */
  function Handled(crypts: seq<(string, CryptConfig)>, hasEarly: bool): seq<(string, CryptConfig)>
  {
    var stop := SecondEarly(crypts, hasEarly);
    if stop.Some? then crypts[..stop.value + 1] else crypts
  }

  /** Where `encrypt_partitions` ends: states, log, the early device it chose, the late devices, success. */
  datatype CryptRun = CryptRun(view: View, log: seq<Command>, early: Option<string>, late: seq<string>, ok: bool)

  /**
   * `encrypt_partitions`: each device is encrypted and then classified. A missing uid stops the
   * program before encrypting that device; a second early device stops it after encrypting it.
   * `hasEarly` says whether an early device was chosen before.
   */
  function CryptSpec(view: View, log: seq<Command>, hasEarly: bool, crypts: seq<(string, CryptConfig)>,
                     probe: Probe): CryptRun
  {
    var stop := SecondEarly(crypts, hasEarly);
    var o := Stages.Run(view, log, Handled(crypts, hasEarly), 0, EncryptAction(probe));
    var early := if |EarlyUids(crypts)| > 0 then Some(EarlyUids(crypts)[0]) else None;
    CryptRun(o.entries, o.log, early, LateUids(crypts), o.completed && stop.None?)
  }

  /** The formatting of one device in `create_filesystems`: None where the uid is missing or the kind refused. */
  function FormatAction(probe: Probe): Stages.Action<DeviceState, FilesystemConfig, Command>
  {
    (n: nat, es: View, log: seq<Command>, uid: string, fc: FilesystemConfig) =>
      match Lookup(es, uid)
      case None => None
      case Some(s) =>
        match FormatStep(s, fc.filesystem, fc.fsLabel, fc.mountpoint, "", log, probe)
        case None => None
        case Some(st) => Some((st.state, st.log))
  }

  /** The formatting loop of `create_filesystems` */
  function FormatSpec(view: View, log: seq<Command>, filesystems: seq<(string, FilesystemConfig)>,
                      probe: Probe): Stages.Outcome<DeviceState, Command>
  {
    Stages.Run(view, log, filesystems, 0, FormatAction(probe))
  }

  /**
   * `sort_by_mountpoint`: -1 without a mountpoint, 0 for the root, -1 for swap, otherwise the
   * number of "/"-separated pieces of the mountpoint.
   */
  function SortByMountpoint(s: DeviceState): int
  {
    if !Truthy(s.mountpoint) then -1
    else if s.mountpoint.value == "/" then 0
    else if s.filesystem == Some("swap") then -1
    else |Split(s.mountpoint.value, '/')|
  }

  /** Each registry position paired with its sort key. */
  function Keyed(view: View): (r: seq<(nat, int)>)
    ensures |r| == |view|
    ensures forall t :: 0 <= t < |view| ==> r[t] == (t, SortByMountpoint(view[t].1))
  {
    seq(|view|, t requires 0 <= t < |view| => (t as nat, SortByMountpoint(view[t].1)))
  }

  /** The positions of the registry in mount order. */
  function MountOrder(view: View): (order: seq<(nat, int)>)
    ensures |order| == |view|
    ensures forall t :: 0 <= t < |order| ==> order[t].0 < |view| && order[t] == (order[t].0, SortByMountpoint(view[order[t].0].1))
  {
    var order := StableSort.Sort(Keyed(view));
    assert forall t :: 0 <= t < |order| ==> order[t] in multiset(Keyed(view));
    order
  }

  /** `dict(sorted(devices.items(), key=sort_by_mountpoint))` */
  function SortView(view: View): (r: View)
    ensures |r| == |view|
    ensures forall t :: 0 <= t < |r| ==> r[t] == view[MountOrder(view)[t].0]
  {
    var order := MountOrder(view);
    seq(|order|, t requires 0 <= t < |order| => view[order[t].0])
  }

  /** `mount_filesystems`: each registered device in registry order, at /mnt + its mountpoint. */
  function MountSpec(view: View): seq<Command>
    decreases |view|
  {
    if |view| == 0 then []
    else
      var s := view[0].1;
      MountLog(s, "/mnt" + Show(s.mountpoint)) + MountSpec(view[1..])
  }

  /** `confirm_partitions`: go on only if the lower-cased answer is "y". */
  predicate Confirmed(answer: string)
  {
    Lower(answer) == "y"
  }

  // ---------------------------------------------------------------------------
  // Properties of the stage specifications

  /** Only "y" and "Y" confirm. */
  lemma ConfirmedAnswers(answer: string)
    ensures Confirmed(answer) <==> answer == "y" || answer == "Y"
  {
    assert "Y" == [(('y' as int) - 32) as char];
    LowerIsLetter(answer, 'y');
  }

  // Partitioning

  /** Partitioning a drive never stops the program. */
  lemma DrivePartitionsComplete(view: View, log: seq<Command>, dc: DriveConfig, dryRun: bool, probe: Probe)
    ensures DrivePartitionsSpec(view, log, dc, dryRun, probe).completed
  {
    var act := PartitionAction(dc.devicePath, dryRun, probe);
    assert forall n, e, l, u, c :: act(n, e, l, u, c).Some?;
    Stages.RunTotal(view, log, dc.partitions, 1, act);
  }

  /** Partitioning the remaining drives from the i-th: that drive, then the ones after it. */
  lemma PartitionSpecStep(view: View, log: seq<Command>, drives: seq<(string, DriveConfig)>, i: nat, dryRun: bool,
                          probe: Probe)
    requires i < |drives|
    ensures var o := DrivePartitionsSpec(view, log, drives[i].1, dryRun, probe);
      PartitionSpec(view, log, drives[i..], dryRun, probe) == PartitionSpec(o.entries, o.log, drives[i + 1..], dryRun, probe)
  {
    assert drives[i..][0] == drives[i] && drives[i..][1..] == drives[i + 1..];
  }

  /** One more partition of a drive: the step of the partitioning loop. */
  lemma PartitionSnoc(view: View, log: seq<Command>, dc: DriveConfig, dryRun: bool, probe: Probe, j: nat,
                      v: View, l: seq<Command>, st: Step)
    requires j < |dc.partitions|
    requires Stages.Run(view, log, dc.partitions[..j], 1, PartitionAction(dc.devicePath, dryRun, probe))
          == Stages.Outcome(v, l, true)
    requires st == PartitionAct(dc.devicePath, dryRun, probe, j + 1, l, dc.partitions[j].1)
    ensures Stages.Run(view, log, dc.partitions[..j + 1], 1, PartitionAction(dc.devicePath, dryRun, probe))
         == Stages.Outcome(Put(v, dc.partitions[j].0, st.state), st.log, true)
  {
    Stages.RunSnoc(view, log, dc.partitions, j, 1, PartitionAction(dc.devicePath, dryRun, probe));
  }

  /**
   * Partitions are numbered in call order: the j-th partition of a drive (from 0) is partition
   * j + 1, addressed by the matching path, labelled as configured and not yet formatted or
   * encrypted, unless a later partition of the drive reuses its uid.
   */
  lemma PartitionNumbering(view: View, log: seq<Command>, dc: DriveConfig, dryRun: bool, probe: Probe, j: nat)
    requires DistinctKeys(view)
    requires j < |dc.partitions|
    requires dc.partitions[j].0 !in Keys(dc.partitions[j + 1..])
    ensures var r := Lookup(DrivePartitionsSpec(view, log, dc, dryRun, probe).entries, dc.partitions[j].0);
      && r.Some?
      && r.value.partitionPath == PartitionPath(dc.devicePath, j + 1)
      && r.value.partitionLabel == dc.partitions[j].1.partitionLabel
      && r.value.filesystem == None && r.value.encryptLabel == None && r.value.dryRun == dryRun
  {
    var act := PartitionAction(dc.devicePath, dryRun, probe);
    DrivePartitionsComplete(view, log, dc, dryRun, probe);
    Stages.RunEntry(view, log, dc.partitions, 1, act, j);
    var m := Stages.Run(view, log, dc.partitions[..j], 1, act);
    var st := PartitionAct(dc.devicePath, dryRun, probe, 1 + j, m.log, dc.partitions[j].1);
    assert act(1 + j, m.entries, m.log, dc.partitions[j].0, dc.partitions[j].1) == Some((st.state, st.log));
  }

  /** Partitioning a drive keeps the registry a dictionary, keeps its uids and adds the drive's. */
  lemma DrivePartitionsKeys(view: View, log: seq<Command>, dc: DriveConfig, dryRun: bool, probe: Probe)
    ensures var r := DrivePartitionsSpec(view, log, dc, dryRun, probe).entries;
      && (DistinctKeys(view) ==> DistinctKeys(r))
      && (forall u :: u in Keys(view) ==> u in Keys(r))
      && (forall j :: 0 <= j < |dc.partitions| ==> dc.partitions[j].0 in Keys(r))
  {
    DrivePartitionsComplete(view, log, dc, dryRun, probe);
    Stages.RunKeys(view, log, dc.partitions, 1, PartitionAction(dc.devicePath, dryRun, probe));
  }

  /** After `partition_drives` the registry is still a dictionary, keeps its uids and holds every partition uid. */
  lemma {:induction false} EveryPartitionRegistered(view: View, log: seq<Command>,
                                                   drives: seq<(string, DriveConfig)>, dryRun: bool, probe: Probe)
    ensures var r := PartitionSpec(view, log, drives, dryRun, probe).0;
      && (DistinctKeys(view) ==> DistinctKeys(r))
      && (forall u :: u in Keys(view) ==> u in Keys(r))
      && (forall d, j :: 0 <= d < |drives| && 0 <= j < |drives[d].1.partitions| ==>
            drives[d].1.partitions[j].0 in Keys(r))
    decreases |drives|
  {
    if |drives| > 0 {
      var dc := drives[0].1;
      var o := DrivePartitionsSpec(view, log, dc, dryRun, probe);
      DrivePartitionsKeys(view, log, dc, dryRun, probe);
      EveryPartitionRegistered(o.entries, o.log, drives[1..], dryRun, probe);
      forall d, j | 0 < d < |drives| && 0 <= j < |drives[d].1.partitions|
        ensures drives[d].1.partitions[j].0 in Keys(PartitionSpec(view, log, drives, dryRun, probe).0)
      {
        assert drives[d] == drives[1..][d - 1];
      }
    }
  }

  // RAID

  /** Every array's members are registered by the time it is built (earlier arrays count). */
  predicate Resolves(keys: seq<string>, raids: seq<(string, RaidConfig)>)
    decreases |raids|
  {
    || |raids| == 0
    || (&& (forall t :: 0 <= t < |raids[0].1.devices| ==> raids[0].1.devices[t] in keys)
        && Resolves(if raids[0].0 in keys then keys else keys + [raids[0].0], raids[1..]))
  }

  /**
   * One more array of `setup_raid_arrays`: built over the current paths of its members, or,
   * where a member is missing, the end of the stage.
   */
  lemma RaidSnoc(view: View, log: seq<Command>, raids: seq<(string, RaidConfig)>, dryRun: bool, probe: Probe,
                 i: nat, v: View, l: seq<Command>)
    requires i < |raids|
    requires Stages.Run(view, log, raids[..i], 0, RaidAction(dryRun, probe)) == Stages.Outcome(v, l, true)
    ensures var paths := MemberPaths(v, raids[i].1.devices);
      paths.None? ==> RaidSpec(view, log, raids, dryRun, probe) == Stages.Outcome(v, l, false)
    ensures var paths := MemberPaths(v, raids[i].1.devices);
      paths.Some? ==>
        var st := RaidStep(paths.value, raids[i].1.arrayName, raids[i].1.level, "", dryRun, l, probe);
        Stages.Run(view, log, raids[..i + 1], 0, RaidAction(dryRun, probe))
          == Stages.Outcome(Put(v, raids[i].0, st.state), st.log, true)
  {
    if MemberPaths(v, raids[i].1.devices).None? {
      Stages.RunStops(view, log, raids, i, 0, RaidAction(dryRun, probe));
    } else {
      Stages.RunSnoc(view, log, raids, i, 0, RaidAction(dryRun, probe));
    }
  }

  /** `setup_raid_arrays` completes exactly when every member uid resolves. */
  lemma {:induction false} RaidSucceedsIff(view: View, log: seq<Command>, raids: seq<(string, RaidConfig)>,
                                          next: nat, dryRun: bool, probe: Probe)
    ensures Stages.Run(view, log, raids, next, RaidAction(dryRun, probe)).completed <==> Resolves(Keys(view), raids)
    decreases |raids|
  {
    if |raids| > 0 {
      var (uid, rc) := raids[0];
      var paths := MemberPaths(view, rc.devices);
      if paths.Some? {
        var st := RaidStep(paths.value, rc.arrayName, rc.level, "", dryRun, log, probe);
        PutKeys(view, uid, st.state);
        RaidSucceedsIff(Put(view, uid, st.state), st.log, raids[1..], next + 1, dryRun, probe);
      }
    }
  }

  /**
   * A completed `setup_raid_arrays` registers each array under its uid, replacing what was
   * there: the array is addressed as /dev/md/<name>, labelled <name>, not yet formatted, and
   * built over the paths its members had when it was built.
   */
  lemma RaidRegistered(view: View, log: seq<Command>, raids: seq<(string, RaidConfig)>, dryRun: bool,
                       probe: Probe, k: nat)
    requires DistinctKeys(view)
    requires RaidSpec(view, log, raids, dryRun, probe).completed
    requires k < |raids|
    requires raids[k].0 !in Keys(raids[k + 1..])
    ensures var m := Stages.Run(view, log, raids[..k], 0, RaidAction(dryRun, probe));
            var r := Lookup(RaidSpec(view, log, raids, dryRun, probe).entries, raids[k].0);
      && MemberPaths(m.entries, raids[k].1.devices).Some?
      && r == Some(RaidStep(MemberPaths(m.entries, raids[k].1.devices).value, raids[k].1.arrayName,
                            raids[k].1.level, "", dryRun, m.log, probe).state)
      && r.value.partitionPath == "/dev/md/" + raids[k].1.arrayName
      && r.value.partitionLabel == Some(raids[k].1.arrayName)
      && r.value.filesystem == None && r.value.encryptLabel == None
  {
    Stages.RunEntry(view, log, raids, 0, RaidAction(dryRun, probe), k);
  }

  // Encryption

  lemma {:induction false} EarlyUidsAppend(pre: seq<(string, CryptConfig)>, post: seq<(string, CryptConfig)>)
    ensures EarlyUids(pre + post) == EarlyUids(pre) + EarlyUids(post)
    decreases |pre|
  {
    if |pre| == 0 {
      assert pre + post == post;
    } else {
      EarlyUidsAppend(pre[1..], post);
      EarlyUidsCons(pre[0], pre[1..] + post);
      EarlyUidsCons(pre[0], pre[1..]);
      assert pre == [pre[0]] + pre[1..];
      assert pre + post == [pre[0]] + (pre[1..] + post);
    }
  }

  /** `EarlyUids` of a list with one more entry in front. */
  lemma EarlyUidsCons(e: (string, CryptConfig), rest: seq<(string, CryptConfig)>)
    ensures EarlyUids([e] + rest) == (if e.1.loadEarly then [e.0] else []) + EarlyUids(rest)
  {
    assert ([e] + rest)[1..] == rest;
  }

  lemma {:induction false} LateUidsAppend(pre: seq<(string, CryptConfig)>, post: seq<(string, CryptConfig)>)
    ensures LateUids(pre + post) == LateUids(pre) + LateUids(post)
    decreases |pre|
  {
    if |pre| == 0 {
      assert pre + post == post;
    } else {
      assert (pre + post)[0] == pre[0] && (pre + post)[1..] == pre[1..] + post;
      LateUidsAppend(pre[1..], post);
    }
  }

  /** The program exits in `encrypt_partitions` for a second early device exactly when two are asked for. */
  lemma {:induction false} SecondEarlyIff(crypts: seq<(string, CryptConfig)>, chosen: bool)
    ensures SecondEarly(crypts, chosen).None? <==> |EarlyUids(crypts)| + (if chosen then 1 else 0) <= 1
    decreases |crypts|
  {
    if |crypts| > 0 {
      SecondEarlyIff(crypts[1..], chosen || crypts[0].1.loadEarly);
    }
  }

  /** Where the second early device sits in a list made of two parts. */
  lemma {:induction false} SecondEarlyAppend(pre: seq<(string, CryptConfig)>, post: seq<(string, CryptConfig)>,
                                            chosen: bool)
    ensures SecondEarly(pre + post, chosen)
         == ThenAt(SecondEarly(pre, chosen), SecondEarly(post, chosen || |EarlyUids(pre)| > 0), |pre|)
    decreases |pre|
  {
    if |pre| == 0 {
      assert pre + post == post;
    } else {
      var all := pre + post;
      assert all[0] == pre[0] && all[1..] == pre[1..] + post;
      var c1 := chosen || pre[0].1.loadEarly;
      if !(pre[0].1.loadEarly && chosen) {
        SecondEarlyAppend(pre[1..], post, c1);
        EarlyUidsCons(pre[0], pre[1..]);
        assert pre == [pre[0]] + pre[1..];
        assert (chosen || |EarlyUids(pre)| > 0) == (c1 || |EarlyUids(pre[1..])| > 0);
        LaterThenAt(SecondEarly(pre[1..], c1), SecondEarly(post, c1 || |EarlyUids(pre[1..])| > 0), |pre[1..]|);
      }
    }
  }

  /** Shifting the first position found is shifting both parts' positions. */
  lemma LaterThenAt(first: Option<nat>, second: Option<nat>, offset: nat)
    ensures Later(ThenAt(first, second, offset), 1) == ThenAt(Later(first, 1), second, offset + 1)
  {
  }

  /** The device where the program exits is itself flagged early, and one was chosen before it. */
  lemma SecondEarlyIsEarly(crypts: seq<(string, CryptConfig)>, chosen: bool, k: nat)
    requires SecondEarly(crypts, chosen) == Some(k)
    ensures crypts[k].1.loadEarly
    ensures chosen || |EarlyUids(crypts[..k])| > 0
  {
    assert crypts == crypts[..k] + crypts[k..];
    SecondEarlyAppend(crypts[..k], crypts[k..], chosen);
    var c1 := chosen || |EarlyUids(crypts[..k])| > 0;
    assert crypts[k..][0] == crypts[k];
  }

  /** Encrypting a list completes exactly when every uid is registered; the uids stay the same. */
  lemma {:induction false} EncryptCompletesIff(view: View, log: seq<Command>, crypts: seq<(string, CryptConfig)>,
                                              next: nat, probe: Probe)
    ensures var o := Stages.Run(view, log, crypts, next, EncryptAction(probe));
      && (o.completed <==> forall t :: 0 <= t < |crypts| ==> crypts[t].0 in Keys(view))
      && Keys(o.entries) == Keys(view)
    decreases |crypts|
  {
    if |crypts| > 0 {
      var (uid, cc) := crypts[0];
      var s := Lookup(view, uid);
      if s.Some? {
        var st := EncryptStep(s.value, cc.cryptLabel, cc.generateKeyfile, "", "", log, probe);
        PutKeys(view, uid, st.state);
        EncryptCompletesIff(Put(view, uid, st.state), st.log, crypts[1..], next + 1, probe);
        forall t | 0 < t < |crypts| ensures crypts[t] == crypts[1..][t - 1] { }
      }
    }
  }

  /**
   * `encrypt_partitions` succeeds exactly when every uid is registered and at most one early
   * device is asked for (counting one chosen before); it then unlocks the flagged device early
   * and every other device late, in configuration order. The registry keeps its uids.
   */
  lemma CryptOkIff(view: View, log: seq<Command>, hasEarly: bool, crypts: seq<(string, CryptConfig)>, probe: Probe)
    ensures var out := CryptSpec(view, log, hasEarly, crypts, probe);
      && (out.ok <==> (forall t :: 0 <= t < |crypts| ==> crypts[t].0 in Keys(view))
                      && |EarlyUids(crypts)| + (if hasEarly then 1 else 0) <= 1)
      && Keys(out.view) == Keys(view)
  {
    SecondEarlyIff(crypts, hasEarly);
    var handled := Handled(crypts, hasEarly);
    EncryptCompletesIff(view, log, handled, 0, probe);
  }

  /**
   * One more device of `encrypt_partitions`, with no second early device so far and unless it
   * is one: the lists of early and late uids grow by it.
   */
  lemma CryptContinue(crypts: seq<(string, CryptConfig)>, hasEarly: bool, i: nat)
    requires i < |crypts|
    requires SecondEarly(crypts[..i], hasEarly) == None
    requires !(crypts[i].1.loadEarly && (hasEarly || |EarlyUids(crypts[..i])| > 0))
    ensures SecondEarly(crypts[..i + 1], hasEarly) == None
    ensures EarlyUids(crypts[..i + 1]) == EarlyUids(crypts[..i]) + (if crypts[i].1.loadEarly then [crypts[i].0] else [])
    ensures LateUids(crypts[..i + 1]) == LateUids(crypts[..i]) + (if crypts[i].1.loadEarly then [] else [crypts[i].0])
  {
    var one := [crypts[i]];
    assert crypts[..i + 1] == crypts[..i] + one;
    assert one[1..] == [];
    SecondEarlyAppend(crypts[..i], one, hasEarly);
    EarlyUidsAppend(crypts[..i], one);
    LateUidsAppend(crypts[..i], one);
  }

  /** Encrypting the device registered at position t extends the walk by the i-th entry. */
  lemma EncryptSnoc(view: View, log: seq<Command>, crypts: seq<(string, CryptConfig)>, probe: Probe, i: nat,
                    v: View, l: seq<Command>, t: nat)
    requires i < |crypts| && DistinctKeys(v) && t < |v| && v[t].0 == crypts[i].0
    requires Stages.Run(view, log, crypts[..i], 0, EncryptAction(probe)) == Stages.Outcome(v, l, true)
    ensures var st := EncryptStep(v[t].1, crypts[i].1.cryptLabel, crypts[i].1.generateKeyfile, "", "", l, probe);
      Stages.Run(view, log, crypts[..i + 1], 0, EncryptAction(probe))
        == Stages.Outcome(v[t := (v[t].0, st.state)], st.log, true)
  {
    LookupAt(v, t);
    PutAt(v, t, EncryptStep(v[t].1, crypts[i].1.cryptLabel, crypts[i].1.generateKeyfile, "", "", l, probe).state);
    Stages.RunSnoc(view, log, crypts, i, 0, EncryptAction(probe));
  }

  /** A device whose uid is missing ends `encrypt_partitions` before anything is done to it. */
  lemma CryptMissing(view: View, log: seq<Command>, hasEarly: bool, crypts: seq<(string, CryptConfig)>,
                     probe: Probe, i: nat, v: View, l: seq<Command>)
    requires i < |crypts|
    requires Stages.Run(view, log, crypts[..i], 0, EncryptAction(probe)) == Stages.Outcome(v, l, true)
    requires SecondEarly(crypts[..i], hasEarly) == None
    requires crypts[i].0 !in Keys(v)
    ensures var c := CryptSpec(view, log, hasEarly, crypts, probe);
      c.view == v && c.log == l && !c.ok
  {
    var handled := Handled(crypts, hasEarly);
    HandledReaches(crypts, hasEarly, i);
    assert Lookup(v, crypts[i].0).None?;
    Stages.RunStops(view, log, handled, i, 0, EncryptAction(probe));
  }

  /** With no second early device among the first i, the devices handled include the i-th. */
  lemma HandledReaches(crypts: seq<(string, CryptConfig)>, hasEarly: bool, i: nat)
    requires i < |crypts| && SecondEarly(crypts[..i], hasEarly) == None
    ensures var handled := Handled(crypts, hasEarly);
      i < |handled| && handled[..i] == crypts[..i] && handled[i] == crypts[i]
  {
    assert crypts == crypts[..i] + crypts[i..];
    SecondEarlyAppend(crypts[..i], crypts[i..], hasEarly);
  }

  /** A second early device ends `encrypt_partitions` once it has been encrypted. */
  lemma CryptSecondEarly(view: View, log: seq<Command>, hasEarly: bool, crypts: seq<(string, CryptConfig)>,
                         probe: Probe, i: nat)
    requires i < |crypts|
    requires SecondEarly(crypts[..i], hasEarly) == None
    requires crypts[i].1.loadEarly && (hasEarly || |EarlyUids(crypts[..i])| > 0)
    ensures var c := CryptSpec(view, log, hasEarly, crypts, probe);
            var m := Stages.Run(view, log, crypts[..i + 1], 0, EncryptAction(probe));
      c.view == m.entries && c.log == m.log && !c.ok
  {
    SecondEarlyAt(crypts, hasEarly, i);
  }

  /** An early device met with one chosen before it, and no second early device before: it is the second. */
  lemma SecondEarlyAt(crypts: seq<(string, CryptConfig)>, hasEarly: bool, i: nat)
    requires i < |crypts|
    requires SecondEarly(crypts[..i], hasEarly) == None
    requires crypts[i].1.loadEarly && (hasEarly || |EarlyUids(crypts[..i])| > 0)
    ensures SecondEarly(crypts, hasEarly) == Some(i)
  {
    assert crypts == crypts[..i] + crypts[i..];
    assert crypts[i..][0] == crypts[i];
    SecondEarlyAppend(crypts[..i], crypts[i..], hasEarly);
  }

  /**
   * A second early device stops the program only after it has been encrypted: when the
   * devices up to it are registered, it is then addressed through its mapper.
   */
  lemma SecondEarlyAfterEncrypting(view: View, log: seq<Command>, hasEarly: bool,
                                   crypts: seq<(string, CryptConfig)>, probe: Probe, k: nat)
    requires DistinctKeys(view)
    requires SecondEarly(crypts, hasEarly) == Some(k)
    requires forall t :: 0 <= t <= k ==> crypts[t].0 in Keys(view)
    ensures var out := CryptSpec(view, log, hasEarly, crypts, probe);
      && !out.ok
      && crypts[k].1.loadEarly
      && Lookup(out.view, crypts[k].0).Some?
      && Lookup(out.view, crypts[k].0).value.encryptLabel == Some(crypts[k].1.cryptLabel)
      && Lookup(out.view, crypts[k].0).value.partitionPath == MapperPath(crypts[k].1.cryptLabel)
  {
    SecondEarlyIsEarly(crypts, hasEarly, k);
    var handled := Handled(crypts, hasEarly);
    assert handled == crypts[..k + 1];
    EncryptCompletesIff(view, log, handled, 0, probe);
    assert handled[k + 1..] == [];
    Stages.RunEntry(view, log, handled, 0, EncryptAction(probe), k);
  }

  /**
   * After a successful `encrypt_partitions` each device is addressed through its mapper,
   * labelled with it, and remembers its previous path, unless a later entry reuses its uid.
   */
  lemma EncryptRegistered(view: View, log: seq<Command>, hasEarly: bool, crypts: seq<(string, CryptConfig)>,
                          probe: Probe, j: nat)
    requires DistinctKeys(view)
    requires CryptSpec(view, log, hasEarly, crypts, probe).ok
    requires j < |crypts|
    requires crypts[j].0 !in Keys(crypts[j + 1..])
    ensures var r := Lookup(CryptSpec(view, log, hasEarly, crypts, probe).view, crypts[j].0);
      && r.Some?
      && r.value.encryptLabel == Some(crypts[j].1.cryptLabel)
      && r.value.partitionPath == MapperPath(crypts[j].1.cryptLabel)
      && r.value.realPath.Some?
  {
    Stages.RunEntry(view, log, crypts, 0, EncryptAction(probe), j);
  }

  /** With distinct uids (a dictionary), no device is both early and late. */
  lemma {:induction false} EarlyLateDisjoint(crypts: seq<(string, CryptConfig)>)
    requires DistinctKeys(crypts)
    ensures forall u :: u in EarlyUids(crypts) ==> u !in LateUids(crypts)
    decreases |crypts|
  {
    if |crypts| > 0 {
      assert DistinctKeys(crypts[1..]);
      EarlyLateDisjoint(crypts[1..]);
      assert crypts[0].0 !in Keys(crypts[1..]) by {
        forall t | 0 <= t < |crypts[1..]| ensures Keys(crypts[1..])[t] != crypts[0].0 {
          assert crypts[1..][t] == crypts[t + 1];
        }
      }
    }
  }

  // Formatting

  /**
   * The formatting loop completes iff every uid is registered and every kind is accepted; it
   * never adds or drops a uid.
   */
  lemma {:induction false} FormatSucceedsIff(view: View, log: seq<Command>,
                                            filesystems: seq<(string, FilesystemConfig)>, next: nat, probe: Probe)
    ensures var r := Stages.Run(view, log, filesystems, next, FormatAction(probe));
      && (r.completed <==> forall t :: 0 <= t < |filesystems| ==>
                             filesystems[t].0 in Keys(view) && filesystems[t].1.filesystem in Filesystems)
      && Keys(r.entries) == Keys(view)
    decreases |filesystems|
  {
    if |filesystems| > 0 {
      var (uid, fc) := filesystems[0];
      var s := Lookup(view, uid);
      if s.Some? {
        var st := FormatStep(s.value, fc.filesystem, fc.fsLabel, fc.mountpoint, "", log, probe);
        if st.Some? {
          var view1 := Put(view, uid, st.value.state);
          PutKeys(view, uid, st.value.state);
          FormatSucceedsIff(view1, st.value.log, filesystems[1..], next + 1, probe);
          forall t | 0 < t < |filesystems| ensures filesystems[t] == filesystems[1..][t - 1] { }
        }
      }
    }
  }

  /**
   * After the formatting loop each device carries the configured kind, label and mountpoint
   * and a UUID, and keeps its path, unless a later entry reuses its uid.
   */
  lemma FormatRegistered(view: View, log: seq<Command>, filesystems: seq<(string, FilesystemConfig)>,
                         probe: Probe, j: nat)
    requires DistinctKeys(view)
    requires FormatSpec(view, log, filesystems, probe).completed
    requires j < |filesystems|
    requires filesystems[j].0 !in Keys(filesystems[j + 1..])
    ensures var fc := filesystems[j].1;
            var m := Stages.Run(view, log, filesystems[..j], 0, FormatAction(probe));
            var r := Lookup(FormatSpec(view, log, filesystems, probe).entries, filesystems[j].0);
      && r.Some?
      && r.value.filesystem == Some(fc.filesystem) && r.value.fsLabel == fc.fsLabel
      && r.value.mountpoint == fc.mountpoint && r.value.uuid.Some?
      && Lookup(m.entries, filesystems[j].0).Some?
      && r.value.partitionPath == Lookup(m.entries, filesystems[j].0).value.partitionPath
  {
    Stages.RunEntry(view, log, filesystems, 0, FormatAction(probe), j);
  }

  /**
   * Formatting the device registered at position t extends the formatting walk by the i-th
   * entry, or ends it where the kind is refused.
   */
  lemma FormatSnoc(view: View, log: seq<Command>, filesystems: seq<(string, FilesystemConfig)>, probe: Probe,
                   i: nat, v: View, l: seq<Command>, t: nat)
    requires i < |filesystems| && DistinctKeys(v) && t < |v| && v[t].0 == filesystems[i].0
    requires Stages.Run(view, log, filesystems[..i], 0, FormatAction(probe)) == Stages.Outcome(v, l, true)
    ensures var fc := filesystems[i].1;
      var st := FormatStep(v[t].1, fc.filesystem, fc.fsLabel, fc.mountpoint, "", l, probe);
      && (st.None? ==> FormatSpec(view, log, filesystems, probe) == Stages.Outcome(v, l, false))
      && (st.Some? ==>
            Stages.Run(view, log, filesystems[..i + 1], 0, FormatAction(probe))
              == Stages.Outcome(v[t := (v[t].0, st.value.state)], st.value.log, true))
  {
    var fc := filesystems[i].1;
    var st := FormatStep(v[t].1, fc.filesystem, fc.fsLabel, fc.mountpoint, "", l, probe);
    LookupAt(v, t);
    if st.None? {
      Stages.RunStops(view, log, filesystems, i, 0, FormatAction(probe));
    } else {
      PutAt(v, t, st.value.state);
      Stages.RunSnoc(view, log, filesystems, i, 0, FormatAction(probe));
    }
  }

  /** A uid missing from the registry ends the formatting walk before anything is done to it. */
  lemma FormatMissing(view: View, log: seq<Command>, filesystems: seq<(string, FilesystemConfig)>, probe: Probe,
                      i: nat, v: View, l: seq<Command>)
    requires i < |filesystems| && filesystems[i].0 !in Keys(v)
    requires Stages.Run(view, log, filesystems[..i], 0, FormatAction(probe)) == Stages.Outcome(v, l, true)
    ensures FormatSpec(view, log, filesystems, probe) == Stages.Outcome(v, l, false)
  {
    assert Lookup(v, filesystems[i].0).None?;
    Stages.RunStops(view, log, filesystems, i, 0, FormatAction(probe));
  }

  // Mount order

  /** The mount order lists every registry position exactly once. */
  lemma MountOrderIsPermutation(view: View)
    ensures forall a, b :: 0 <= a < b < |view| ==> MountOrder(view)[a].0 != MountOrder(view)[b].0
    ensures forall u :: 0 <= u < |view| ==> u in Positions(MountOrder(view))
  {
    StableSort.SortDistinct(Keyed(view));
    forall u | 0 <= u < |view| ensures u in Positions(MountOrder(view)) {
      PositionInMountOrder(view, u);
    }
  }

  /** The registry positions named by a mount order. */
  function Positions(order: seq<(nat, int)>): (r: seq<nat>)
    ensures |r| == |order| && forall t :: 0 <= t < |order| ==> r[t] == order[t].0
  {
    seq(|order|, t requires 0 <= t < |order| => order[t].0)
  }

  lemma PositionInMountOrder(view: View, u: int)
    requires 0 <= u < |view|
    ensures u in Positions(MountOrder(view))
  {
    var keyed := Keyed(view);
    var sorted := StableSort.Sort(keyed);
    assert keyed[u] in multiset(keyed);
    assert keyed[u] in sorted;
    var t :| 0 <= t < |sorted| && sorted[t] == keyed[u];
    assert Positions(MountOrder(view))[t] == u;
  }

  /** Devices come out ordered by their sort key. */
  lemma SortViewSorted(view: View, a: int, b: int)
    requires 0 <= a < b < |view|
    ensures SortByMountpoint(SortView(view)[a].1) <= SortByMountpoint(SortView(view)[b].1)
  {
  }

  /** Devices with equal keys keep their registration order. */
  lemma SortViewStable(view: View, a: int, b: int)
    requires 0 <= a < b < |view|
    requires SortByMountpoint(SortView(view)[a].1) == SortByMountpoint(SortView(view)[b].1)
    ensures MountOrder(view)[a].0 < MountOrder(view)[b].0
  {
    StableSort.SortKeepsTies(Keyed(view), a, b);
  }

  /** A mountpoint extended by further segments gets a larger key, unless it is swap. */
  lemma MountKeyGrows(parent: DeviceState, child: DeviceState, rest: string)
    requires Truthy(parent.mountpoint)
    requires child.mountpoint == Some(parent.mountpoint.value + "/" + rest)
    requires child.filesystem != Some("swap")
    ensures SortByMountpoint(parent) < SortByMountpoint(child)
  {
    var p := parent.mountpoint.value;
    SplitAround(p, rest, '/');
    assert p + "/" + rest == p + ['/'] + rest;
  }

  /** A filesystem mounted below another one is mounted after it. */
  lemma ParentMountsFirst(view: View, a: int, b: int, rest: string)
    requires 0 <= a < |view| && 0 <= b < |view|
    requires Truthy(SortView(view)[b].1.mountpoint)
    requires SortView(view)[a].1.mountpoint == Some(SortView(view)[b].1.mountpoint.value + "/" + rest)
    requires SortView(view)[a].1.filesystem != Some("swap")
    ensures b < a
  {
    MountKeyGrows(SortView(view)[b].1, SortView(view)[a].1, rest);
    if a < b {
      SortViewSorted(view, a, b);
    }
  }

  /** The root filesystem is mounted before every other mounted, non-swap filesystem. */
  lemma RootMountsFirst(view: View, a: int, b: int)
    requires 0 <= a < |view| && 0 <= b < |view|
    requires SortView(view)[b].1.mountpoint == Some("/")
    requires Truthy(SortView(view)[a].1.mountpoint) && SortView(view)[a].1.mountpoint != Some("/")
    requires SortView(view)[a].1.filesystem != Some("swap")
    ensures b < a
  {
    if a < b {
      SortViewSorted(view, a, b);
    }
  }

  // Mounting

  lemma {:induction false} MountSpecAppend(v1: View, v2: View)
    ensures MountSpec(v1 + v2) == MountSpec(v1) + MountSpec(v2)
    decreases |v1|
  {
    if |v1| > 0 {
      assert (v1 + v2)[0] == v1[0];
      assert (v1 + v2)[1..] == v1[1..] + v2;
      MountSpecAppend(v1[1..], v2);
    } else {
      assert v1 + v2 == v2;
    }
  }

  /** A formatted, non-swap device without a mountpoint is mounted at "/mntNone". */
  lemma UnsetMountpointMountsAtMntNone(s: DeviceState)
    requires s.filesystem.Some? && s.filesystem != Some("swap") && s.mountpoint == None
    ensures MountSpec([("uid", s)]) == [Command("mount -m " + s.partitionPath + " /mntNone", s.dryRun)]
  {
    assert [("uid", s)][1..] == [];
    assert "/mnt" + Show(None) == "/mntNone";
    assert "mount -m " + s.partitionPath + " " + "/mntNone" == "mount -m " + s.partitionPath + " /mntNone";
  }
}
