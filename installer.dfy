/**
 * The `Excalibur` class of new_main.py as an object: its drive table, its device registry, its
 * list of RAID arrays and its classification of encrypted devices are fields that the stage
 * methods update in place, and the device objects in the registry are shared with the drives,
 * the RAID list and the crypt lists. Each stage method is proved to leave the registry (seen
 * through the states of its objects) and the command log exactly as the stage specification in
 * module Pipeline says.
 */
module Installer {
  import opened Wrappers
  import opened Text
  import opened Commands
  import opened Registry
  import opened Devices
  import opened Pipeline
  import StableSort
  import Stages
  import Pacstrap
  import opened Crypts

  /** The registry seen as values: each uid with the current state of its device object. */
  function Snapshot(devices: Entries<Formattable>): (view: View)
    reads Values(devices)
    ensures |view| == |devices|
    ensures forall i :: 0 <= i < |devices| ==> view[i] == (devices[i].0, devices[i].1.State())
  {
    seq(|devices|, i reads Values(devices) requires 0 <= i < |devices| => (devices[i].0, devices[i].1.State()))
  }

  /** Replacing the object stored at a position replaces the state there. */
  lemma SnapshotUpdate(devices: Entries<Formattable>, t: int, d: Formattable)
    requires 0 <= t < |devices|
    ensures Snapshot(devices[t := (devices[t].0, d)]) == Snapshot(devices)[t := (devices[t].0, d.State())]
  {
    var lhs, rhs := Snapshot(devices[t := (devices[t].0, d)]), Snapshot(devices)[t := (devices[t].0, d.State())];
    forall i | 0 <= i < |lhs| ensures lhs[i] == rhs[i] {
    }
  }

  /** Appending an object appends its state. */
  lemma SnapshotAppend(devices: Entries<Formattable>, uid: string, d: Formattable)
    ensures Snapshot(devices + [(uid, d)]) == Snapshot(devices) + [(uid, d.State())]
  {
    var lhs, rhs := Snapshot(devices + [(uid, d)]), Snapshot(devices) + [(uid, d.State())];
    forall i | 0 <= i < |lhs| ensures lhs[i] == rhs[i] {
    }
  }

  /** Storing an object under a uid stores its state in the snapshot. */
  lemma SnapshotPut(devices: Entries<Formattable>, uid: string, d: Formattable)
    requires DistinctKeys(devices)
    ensures Snapshot(Put(devices, uid, d)) == Put(Snapshot(devices), uid, d.State())
  {
    var view := Snapshot(devices);
    assert Keys(view) == Keys(devices);
    if uid in Keys(devices) {
      var t :| 0 <= t < |devices| && Keys(devices)[t] == uid;
      PutAt(devices, t, d);
      PutAt(view, t, d.State());
      SnapshotUpdate(devices, t, d);
    } else {
      PutNew(devices, uid, d);
      PutNew(view, uid, d.State());
      SnapshotAppend(devices, uid, d);
    }
  }

  /** The snapshot has the registry's uids. */
  lemma SnapshotKeys(devices: Entries<Formattable>)
    ensures Keys(Snapshot(devices)) == Keys(devices)
  {
  }

  /** The snapshot of a dictionary is a dictionary. */
  lemma SnapshotDistinct(devices: Entries<Formattable>)
    requires DistinctKeys(devices)
    ensures DistinctKeys(Snapshot(devices))
  {
    var view := Snapshot(devices);
    forall a, b | 0 <= a < b < |view| ensures view[a].0 != view[b].0 {
      assert view[a].0 == devices[a].0 && view[b].0 == devices[b].0;
    }
  }

  /** Looking a uid up in the snapshot finds the state of the object the registry holds for it. */
  lemma SnapshotLookup(devices: Entries<Formattable>, uid: string)
    requires DistinctKeys(devices)
    ensures var d := Lookup(devices, uid);
      Lookup(Snapshot(devices), uid) == if d.Some? then Some(d.value.State()) else None
  {
    var view := Snapshot(devices);
    SnapshotKeys(devices);
    var d := Lookup(devices, uid);
    if d.Some? {
      var i :| 0 <= i < |devices| && devices[i] == (uid, d.value);
      SnapshotDistinct(devices);
      LookupAt(view, i);
    }
  }

  /** The paths of the devices found for `uids` are the paths the snapshot gives for them. */
  lemma MembersPaths(devices: Entries<Formattable>, uids: seq<string>, members: Option<seq<Formattable>>)
    requires DistinctKeys(devices)
    requires members.Some? <==> forall t :: 0 <= t < |uids| ==> uids[t] in Keys(devices)
    requires members.Some? ==> |members.value| == |uids|
    requires members.Some? ==> forall t :: 0 <= t < |uids| ==> Lookup(devices, uids[t]) == Some(members.value[t])
    ensures MemberPaths(Snapshot(devices), uids) == if members.Some? then Some(PathsOf(members.value)) else None
  {
    var view := Snapshot(devices);
    SnapshotKeys(devices);
    if members.Some? {
      var found := members.value;
      forall t | 0 <= t < |uids| ensures Lookup(view, uids[t]) == Some(found[t].State()) {
        SnapshotLookup(devices, uids[t]);
      }
      var paths := MemberPaths(view, uids);
      assert paths.Some?;
      forall t | 0 <= t < |uids| ensures paths.value[t] == PathsOf(found)[t] {
      }
      assert paths.value == PathsOf(found);
    }
  }

  class Excalibur {
    const dryRun: bool
    /** Runs (or prints) the commands; see Commands.Shell. */
    const shell: Shell

    /** `self.drives`: drive name to `Drive`. */
    var drives: map<string, Drive>
    /** `self.devices`: uid to partition or RAID array, in insertion order. */
    var devices: Entries<Formattable>
    var raidArrays: seq<Formattable>
    var lateCryptDevices: seq<Formattable>
    var earlyCryptDevice: Option<Formattable>

    /** The registry is a dictionary and holds each device object under one uid only. */
    ghost predicate Valid()
      reads this`devices
    {
      DistinctKeys(devices) && DistinctValues(devices)
    }

    /** The state `__init__` leaves behind, once the arguments and the configuration are read. */
    constructor (dryRun: bool, shell: Shell)
      ensures this.dryRun == dryRun && this.shell == shell
      ensures drives == map[] && devices == [] && raidArrays == [] && lateCryptDevices == []
      ensures earlyCryptDevice == None
      ensures Valid()
    {
      this.dryRun := dryRun;
      this.shell := shell;
      drives, devices, raidArrays, lateCryptDevices := map[], [], [], [];
      earlyCryptDevice := None;
    }

    /**
     * `partition_drives`: for each configured drive, a fresh `Drive` is stored under its name,
     * each configured partition is created on it in order and stored in the registry under its
     * uid (a reused uid overwrites the earlier entry).
     */
    method PartitionDrives(config: seq<(string, DriveConfig)>)
      requires Valid()
      modifies this, shell
      ensures Valid()
      ensures (Snapshot(devices), shell.log) == PartitionSpec(old(Snapshot(devices)), old(shell.log), config, dryRun, shell.probe)
      ensures forall k :: k in drives <==> k in old(drives) || k in Keys(config)
    {
      ghost var spec := PartitionSpec(Snapshot(devices), shell.log, config, dryRun, shell.probe);
      var i := 0;
      while i < |config|
        invariant 0 <= i <= |config|
        invariant Valid()
        invariant spec == PartitionSpec(Snapshot(devices), shell.log, config[i..], dryRun, shell.probe)
        invariant forall k :: k in drives <==> k in old(drives) || k in Keys(config[..i])
      {
        PartitionDrive(config, i);
        KeysPrefix(config, i);
        i := i + 1;
      }
      assert config[..i] == config;
    }

    /**
     * One drive of `partition_drives`, the i-th configured: a fresh `Drive` under its name, then
     * its partitions; what is left of the stage is the rest of the configuration.
     */
    method PartitionDrive(config: seq<(string, DriveConfig)>, i: nat)
      requires Valid() && i < |config|
      modifies this, shell
      ensures Valid()
      ensures forall k :: k in drives <==> k in old(drives) || k == config[i].0
      ensures PartitionSpec(Snapshot(devices), shell.log, config[i + 1..], dryRun, shell.probe)
           == PartitionSpec(old(Snapshot(devices)), old(shell.log), config[i..], dryRun, shell.probe)
    {
      var (name, dc) := config[i];
      ghost var view0, log0 := Snapshot(devices), shell.log;
      var drive := new Drive(dc.devicePath, dc.gpt);
      drives := drives[name := drive];
      assert Snapshot(devices) == view0 && shell.log == log0;
      AddPartitions(drive, dc);
      PartitionSpecStep(view0, log0, config, i, dryRun, shell.probe);
    }

    /** The inner loop of `partition_drives`: each configured partition of one fresh drive, in order. */
    method AddPartitions(drive: Drive, dc: DriveConfig)
      requires Valid()
      requires drive.devicePath == dc.devicePath && drive.numberOfPartitions == 0
      modifies this, shell, drive
      ensures Valid()
      ensures unchanged(this`drives)
      ensures var o := DrivePartitionsSpec(old(Snapshot(devices)), old(shell.log), dc, dryRun, shell.probe);
        Snapshot(devices) == o.entries && shell.log == o.log
    {
      ghost var view0, log0 := Snapshot(devices), shell.log;
      var j := 0;
      while j < |dc.partitions|
        invariant 0 <= j <= |dc.partitions|
        invariant drive.devicePath == dc.devicePath && drive.numberOfPartitions == j
        invariant Valid() && unchanged(this`drives)
        invariant Stages.Run(view0, log0, dc.partitions[..j], 1, PartitionAction(dc.devicePath, dryRun, shell.probe))
               == Stages.Outcome(Snapshot(devices), shell.log, true)
      {
        ghost var viewBefore, logBefore := Snapshot(devices), shell.log;
        ghost var st := AddPartition(drive, dc.partitions[j].0, dc.partitions[j].1);
        PartitionSnoc(view0, log0, dc, dryRun, shell.probe, j, viewBefore, logBefore, st);
        j := j + 1;
      }
      assert dc.partitions[..j] == dc.partitions;
    }

    /** One pass of that loop: `new_partition` on the drive, then `self.devices[uid] = drive[uid]`. */
    method AddPartition(drive: Drive, uid: string, pc: PartitionConfig) returns (ghost st: Step)
      requires Valid()
      modifies this, shell, drive
      ensures Valid() && unchanged(this`drives)
      ensures drive.numberOfPartitions == old(drive.numberOfPartitions) + 1
      ensures st == PartitionAct(drive.devicePath, dryRun, shell.probe, drive.numberOfPartitions, old(shell.log), pc)
      ensures Snapshot(devices) == Put(old(Snapshot(devices)), uid, st.state) && shell.log == st.log
    {
      ghost var viewBefore := Snapshot(devices);
      drive.NewPartition(pc.startSector, pc.endSector, pc.size, pc.typeCode, pc.partitionLabel, uid, dryRun, shell);
      var partition := drive.Get(uid).value;
      st := Step(partition.State(), shell.log);
      assert Snapshot(devices) == viewBefore;
      Register(uid, partition);
    }

    /** `self.devices[uid] = device`, for a device not registered under another uid. */
    method Register(uid: string, device: Formattable)
      requires Valid()
      requires device !in Values(devices)
      modifies this`devices
      ensures Valid()
      ensures Snapshot(devices) == Put(old(Snapshot(devices)), uid, device.State())
    {
      PutDistinct(devices, uid, device);
      PutDistinctValues(devices, uid, device);
      SnapshotPut(devices, uid, device);
      devices := Put(devices, uid, device);
    }
  
    /**
     * `setup_raid_arrays`: for each configured array, its member devices are looked up in the
     * registry (a missing uid stops the program), the array is built over them, stored in the
     * registry under its uid and appended to the list of arrays.
     */
    method SetupRaidArrays(config: seq<(string, RaidConfig)>) returns (ok: bool)
      requires Valid()
      modifies this, shell
      ensures Valid()
      ensures var o := RaidSpec(old(Snapshot(devices)), old(shell.log), config, dryRun, shell.probe);
        Snapshot(devices) == o.entries && shell.log == o.log && ok == o.completed
      ensures |old(raidArrays)| <= |raidArrays| && raidArrays[..|old(raidArrays)|] == old(raidArrays)
      ensures ok ==> |raidArrays| == |old(raidArrays)| + |config|
    {
      ghost var view0, log0 := Snapshot(devices), shell.log;
      var i := 0;
      while i < |config|
        invariant 0 <= i <= |config|
        invariant Valid()
        invariant Stages.Run(view0, log0, config[..i], 0, RaidAction(dryRun, shell.probe))
               == Stages.Outcome(Snapshot(devices), shell.log, true)
        invariant |raidArrays| == |old(raidArrays)| + i && raidArrays[..|old(raidArrays)|] == old(raidArrays)
      {
        var raid := AddRaidArray(config, i, view0, log0);
        if raid.None? {
          return false;
        }
        raidArrays := raidArrays + [raid.value];
        i := i + 1;
      }
      assert config[..i] == config;
      ok := true;
    }

    /**
     * The i-th array of `setup_raid_arrays`, after the ones before it were built; false where a
     * member uid is not registered, which ends the stage.
     */
    method AddRaidArray(config: seq<(string, RaidConfig)>, i: nat, ghost view0: View, ghost log0: seq<Command>)
      returns (raid: Option<Formattable>)
      requires Valid() && i < |config|
      requires Stages.Run(view0, log0, config[..i], 0, RaidAction(dryRun, shell.probe))
            == Stages.Outcome(Snapshot(devices), shell.log, true)
      modifies this`devices, shell
      ensures Valid()
      ensures raid.Some? ==>
        Stages.Run(view0, log0, config[..i + 1], 0, RaidAction(dryRun, shell.probe))
          == Stages.Outcome(Snapshot(devices), shell.log, true)
      ensures raid.None? ==> RaidSpec(view0, log0, config, dryRun, shell.probe) == Stages.Outcome(Snapshot(devices), shell.log, false)
    {
      var (uid, rc) := config[i];
      var members := Members(rc.devices);
      ghost var view := Snapshot(devices);
      MembersPaths(devices, rc.devices, members);
      if members.None? {
        RaidSnoc(view0, log0, config, dryRun, shell.probe, i, view, shell.log);
        return None;
      }
      ghost var log := shell.log;
      ghost var paths := MemberPaths(view, rc.devices).value;
      ghost var st := RaidStep(paths, rc.arrayName, rc.level, "", dryRun, log, shell.probe);
      var built := RegisterRaidArray(uid, rc, members.value);
      assert Snapshot(devices) == Put(view, uid, st.state) && shell.log == st.log;
      RaidSnoc(view0, log0, config, dryRun, shell.probe, i, view, log);
      assert Stages.Run(view0, log0, config[..i + 1], 0, RaidAction(dryRun, shell.probe))
          == Stages.Outcome(Put(view, uid, st.state), st.log, true);
      raid := Some(built);
    }

    /** `self.devices[uid] = RaidArray(...)` over the given member devices. */
    method RegisterRaidArray(uid: string, rc: RaidConfig, members: seq<Formattable>) returns (built: Formattable)
      requires Valid()
      modifies this`devices, shell
      ensures Valid()
      ensures var st := RaidStep(old(PathsOf(members)), rc.arrayName, rc.level, "", dryRun, old(shell.log), shell.probe);
        Snapshot(devices) == Put(old(Snapshot(devices)), uid, st.state) && shell.log == st.log
    {
      ghost var view := Snapshot(devices);
      built := new Formattable.RaidArray(members, rc.arrayName, rc.level, "", dryRun, shell);
      forall t | 0 <= t < |devices| ensures Snapshot(devices)[t] == view[t] {
        assert devices[t].1.State() == old(devices[t].1.State());
      }
      assert Snapshot(devices) == view;
      Register(uid, built);
    }

    /** The registered devices named by `uids`, in order; None where one is missing (a KeyError). */
    method Members(uids: seq<string>) returns (members: Option<seq<Formattable>>)
      ensures members.Some? <==> forall t :: 0 <= t < |uids| ==> uids[t] in Keys(devices)
      ensures members.Some? ==> |members.value| == |uids|
      ensures members.Some? ==> forall t :: 0 <= t < |uids| ==> Lookup(devices, uids[t]) == Some(members.value[t])
    {
      var found: seq<Formattable> := [];
      var k := 0;
      while k < |uids|
        invariant 0 <= k <= |uids| && |found| == k
        invariant forall t :: 0 <= t < k ==> Lookup(devices, uids[t]) == Some(found[t])
      {
        var d := Lookup(devices, uids[k]);
        if d.None? {
          return None;
        }
        found := found + [d.value];
        k := k + 1;
      }
      members := Some(found);
    }
  
    /**
     * `encrypt_partitions`: each configured device is looked up (a missing uid stops the
     * program), encrypted, then either chosen to be unlocked early or appended to the devices
     * unlocked late; a second early device stops the program after it has been encrypted.
     */
    method EncryptPartitions(config: seq<(string, CryptConfig)>) returns (ok: bool)
      requires Valid()
      modifies shell, Values(devices), this`earlyCryptDevice, this`lateCryptDevices
      ensures Valid() && devices == old(devices)
      ensures var c := CryptSpec(old(Snapshot(devices)), old(shell.log), old(earlyCryptDevice).Some?, config, shell.probe);
        Snapshot(devices) == c.view && shell.log == c.log && ok == c.ok
      ensures ok ==> Classified(devices, config, old(earlyCryptDevice), old(lateCryptDevices), earlyCryptDevice,
                                lateCryptDevices)
    {
      var early, late;
      ok, early, late := EncryptAll(config, earlyCryptDevice, lateCryptDevices);
      if ok {
        SetCryptDevices(early, late);
      }
    }

    /** Stores the classification made by `encrypt_partitions`; the device objects are untouched. */
    method SetCryptDevices(early: Option<Formattable>, late: seq<Formattable>)
      modifies this`earlyCryptDevice, this`lateCryptDevices
      ensures earlyCryptDevice == early && lateCryptDevices == late
      ensures Snapshot(devices) == old(Snapshot(devices))
    {
      ghost var view := Snapshot(devices);
      earlyCryptDevice, lateCryptDevices := early, late;
      forall j | 0 <= j < |devices| ensures Snapshot(devices)[j] == view[j] { }
    }

    /** The loop of `encrypt_partitions`, from the classification `early0`, `late0` made before it. */
    method EncryptAll(config: seq<(string, CryptConfig)>, early0: Option<Formattable>, late0: seq<Formattable>)
      returns (ok: bool, early: Option<Formattable>, late: seq<Formattable>)
      requires Valid()
      modifies shell, Values(devices)
      ensures Valid()
      ensures var c := CryptSpec(old(Snapshot(devices)), old(shell.log), early0.Some?, config, shell.probe);
        Snapshot(devices) == c.view && shell.log == c.log && ok == c.ok
      ensures ok ==> Classified(devices, config, early0, late0, early, late)
    {
      ghost var view0, log0, ds := Snapshot(devices), shell.log, devices;
      early, late := early0, late0;
      ProgressStart(view0, log0, shell.probe, config, ds, early0, late0);
      var i := 0;
      while i < |config|
        invariant devices == ds && Valid()
        invariant Progress(view0, log0, shell.probe, config, i, Snapshot(ds), shell.log, ds, early0, late0, early, late)
      {
        var more;
        more, early, late := EncryptEntry(config, i, early, late, view0, log0, early0, late0);
        if !more {
          return false, early, late;
        }
        i := i + 1;
      }
      ProgressDone(view0, log0, shell.probe, config, Snapshot(ds), shell.log, ds, early0, late0, early, late);
      ok := true;
    }

    /**
     * The i-th entry of `encrypt_partitions`, after the ones before it: the device is encrypted,
     * then classified; false where the program stops (a missing uid, a second early device).
     */
    method EncryptEntry(config: seq<(string, CryptConfig)>, i: nat, early: Option<Formattable>, late: seq<Formattable>,
                        ghost view0: View, ghost log0: seq<Command>, ghost early0: Option<Formattable>,
                        ghost late0: seq<Formattable>)
      returns (more: bool, early': Option<Formattable>, late': seq<Formattable>)
      requires Valid() && i < |config|
      requires Progress(view0, log0, shell.probe, config, i, Snapshot(devices), shell.log, devices,
                        early0, late0, early, late)
      modifies shell, Values(devices)
      ensures !more ==> var c := CryptSpec(view0, log0, early0.Some?, config, shell.probe);
        c.view == Snapshot(devices) && c.log == shell.log && !c.ok
      ensures devices == old(devices)
      ensures more ==> Progress(view0, log0, shell.probe, config, i + 1, Snapshot(devices), shell.log, devices,
                                early0, late0, early', late')
    {
      var d := EncryptDevice(config, i, view0, log0, early0.Some?);
      if d.None? {
        return false, early, late;
      }
      if config[i].1.loadEarly && early.Some? {
        CryptSecondEarly(view0, log0, early0.Some?, config, shell.probe, i);
        return false, early, late;
      }
      if config[i].1.loadEarly {
        ClassifiedEarly(devices, config, i, early0, late0, late, d.value);
        more, early', late' := true, d, late;
      } else {
        ClassifiedLate(devices, config, i, early0, late0, early, late, d.value);
        more, early', late' := true, early, late + [d.value];
      }
    }

    /**
     * The i-th device of `encrypt_partitions`, after the ones before it: the device registered
     * under its uid, now encrypted, or None where the uid is missing, which ends the stage.
     */
    method EncryptDevice(config: seq<(string, CryptConfig)>, i: nat, ghost view0: View, ghost log0: seq<Command>,
                         ghost hasEarly0: bool) returns (d: Option<Formattable>)
      requires Valid() && i < |config|
      requires Stages.Run(view0, log0, config[..i], 0, EncryptAction(shell.probe))
            == Stages.Outcome(Snapshot(devices), shell.log, true)
      requires SecondEarly(config[..i], hasEarly0) == None
      modifies shell, Values(devices)
      ensures d.None? ==> var c := CryptSpec(view0, log0, hasEarly0, config, shell.probe);
        c.view == Snapshot(devices) && c.log == shell.log && !c.ok
      ensures d.Some? ==> Lookup(devices, config[i].0) == d
      ensures d.Some? ==>
        Stages.Run(view0, log0, config[..i + 1], 0, EncryptAction(shell.probe))
          == Stages.Outcome(Snapshot(devices), shell.log, true)
    {
      d := Lookup(devices, config[i].0);
      if d.None? {
        SnapshotKeys(devices);
        CryptMissing(view0, log0, hasEarly0, config, shell.probe, i, Snapshot(devices), shell.log);
        return;
      }
      EncryptFound(config, i, view0, log0, d.value);
    }

    /** The i-th device of `encrypt_partitions` when its uid is registered, for the device d. */
    method EncryptFound(config: seq<(string, CryptConfig)>, i: nat, ghost view0: View, ghost log0: seq<Command>,
                        d: Formattable)
      requires Valid() && i < |config| && Lookup(devices, config[i].0) == Some(d)
      requires Stages.Run(view0, log0, config[..i], 0, EncryptAction(shell.probe))
            == Stages.Outcome(Snapshot(devices), shell.log, true)
      modifies shell, Values(devices)
      ensures Stages.Run(view0, log0, config[..i + 1], 0, EncryptAction(shell.probe))
           == Stages.Outcome(Snapshot(devices), shell.log, true)
    {
      ghost var t :| 0 <= t < |devices| && devices[t] == (config[i].0, d);
      SnapshotDistinct(devices);
      EncryptSnoc(view0, log0, config, shell.probe, i, Snapshot(devices), shell.log, t);
      EncryptAt(d, t, config[i].1);
    }

    /** `encrypt_partition` on the device registered at position t. */
    method EncryptAt(d: Formattable, ghost t: nat, cc: CryptConfig)
      requires Valid() && t < |devices| && devices[t].1 == d
      modifies shell, d
      ensures var st := EncryptStep(old(d.State()), cc.cryptLabel, cc.generateKeyfile, "", "", old(shell.log), shell.probe);
        Snapshot(devices) == old(Snapshot(devices))[t := (devices[t].0, st.state)] && shell.log == st.log
    {
      ghost var view := Snapshot(devices);
      d.EncryptPartition(cc.cryptLabel, cc.generateKeyfile, "", "", shell);
      ghost var after := view[t := (devices[t].0, d.State())];
      forall j | 0 <= j < |devices| ensures Snapshot(devices)[j] == after[j] {
        if j != t {
          assert devices[j].1 != d;
        }
      }
    }

    /**
     * `create_filesystems`: each configured device is formatted (a missing uid or a refused
     * kind stops the program), then the registry is reordered by `sort_by_mountpoint`.
     */
    method CreateFilesystems(config: seq<(string, FilesystemConfig)>) returns (ok: bool)
      requires Valid()
      modifies this`devices, shell, Values(devices)
      ensures Valid()
      ensures var o := FormatSpec(old(Snapshot(devices)), old(shell.log), config, shell.probe);
        && shell.log == o.log && ok == o.completed
        && Snapshot(devices) == if ok then SortView(o.entries) else o.entries
    {
      ok := FormatAll(config);
      if ok {
        SortDevices();
      }
    }

    /** The formatting loop of `create_filesystems`. */
    method FormatAll(config: seq<(string, FilesystemConfig)>) returns (ok: bool)
      requires Valid()
      modifies shell, Values(devices)
      ensures Valid()
      ensures var o := FormatSpec(old(Snapshot(devices)), old(shell.log), config, shell.probe);
        Snapshot(devices) == o.entries && shell.log == o.log && ok == o.completed
    {
      ghost var view0, log0 := Snapshot(devices), shell.log;
      var i := 0;
      while i < |config|
        invariant 0 <= i <= |config| && Valid()
        invariant Stages.Run(view0, log0, config[..i], 0, FormatAction(shell.probe))
               == Stages.Outcome(Snapshot(devices), shell.log, true)
      {
        var more := FormatDevice(config, i, view0, log0);
        if !more {
          return false;
        }
        i := i + 1;
      }
      assert config[..i] == config;
      ok := true;
    }

    /**
     * The i-th device of `create_filesystems`, after the ones before it: false where the uid is
     * missing or the kind is refused, which ends the stage.
     */
    method FormatDevice(config: seq<(string, FilesystemConfig)>, i: nat, ghost view0: View, ghost log0: seq<Command>)
      returns (more: bool)
      requires Valid() && i < |config|
      requires Stages.Run(view0, log0, config[..i], 0, FormatAction(shell.probe))
            == Stages.Outcome(Snapshot(devices), shell.log, true)
      modifies shell, Values(devices)
      ensures !more ==> FormatSpec(view0, log0, config, shell.probe) == Stages.Outcome(Snapshot(devices), shell.log, false)
      ensures more ==>
        Stages.Run(view0, log0, config[..i + 1], 0, FormatAction(shell.probe))
          == Stages.Outcome(Snapshot(devices), shell.log, true)
    {
      var found := Lookup(devices, config[i].0);
      if found.None? {
        FormatNotFound(config, i, view0, log0);
        return false;
      }
      more := FormatFound(config, i, view0, log0, found.value);
    }

    /** A uid missing from the registry ends `create_filesystems` with nothing done for it. */
    lemma FormatNotFound(config: seq<(string, FilesystemConfig)>, i: nat, view0: View, log0: seq<Command>)
      requires Valid() && i < |config| && Lookup(devices, config[i].0).None?
      requires Stages.Run(view0, log0, config[..i], 0, FormatAction(shell.probe))
            == Stages.Outcome(Snapshot(devices), shell.log, true)
      ensures FormatSpec(view0, log0, config, shell.probe) == Stages.Outcome(Snapshot(devices), shell.log, false)
    {
      SnapshotKeys(devices);
      FormatMissing(view0, log0, config, shell.probe, i, Snapshot(devices), shell.log);
    }

    /** The i-th device of `create_filesystems` when its uid is registered, for the device d. */
    method FormatFound(config: seq<(string, FilesystemConfig)>, i: nat, ghost view0: View, ghost log0: seq<Command>,
                       d: Formattable) returns (more: bool)
      requires Valid() && i < |config| && Lookup(devices, config[i].0) == Some(d)
      requires Stages.Run(view0, log0, config[..i], 0, FormatAction(shell.probe))
            == Stages.Outcome(Snapshot(devices), shell.log, true)
      modifies shell, Values(devices)
      ensures !more ==> FormatSpec(view0, log0, config, shell.probe) == Stages.Outcome(Snapshot(devices), shell.log, false)
      ensures more ==>
        Stages.Run(view0, log0, config[..i + 1], 0, FormatAction(shell.probe))
          == Stages.Outcome(Snapshot(devices), shell.log, true)
    {
      ghost var t :| 0 <= t < |devices| && devices[t] == (config[i].0, d);
      SnapshotDistinct(devices);
      FormatSnoc(view0, log0, config, shell.probe, i, Snapshot(devices), shell.log, t);
      more := FormatAt(d, t, config[i].1);
    }

    /** `new_filesystem` on the device registered at position t. */
    method FormatAt(d: Formattable, ghost t: nat, fc: FilesystemConfig) returns (ok: bool)
      requires Valid() && t < |devices| && devices[t].1 == d
      modifies shell, d
      ensures var r := FormatStep(old(d.State()), fc.filesystem, fc.fsLabel, fc.mountpoint, "", old(shell.log), shell.probe);
        && ok == r.Some?
        && (ok ==> Snapshot(devices) == old(Snapshot(devices))[t := (devices[t].0, r.value.state)] && shell.log == r.value.log)
        && (!ok ==> Snapshot(devices) == old(Snapshot(devices)) && shell.log == old(shell.log))
    {
      ghost var view := Snapshot(devices);
      ok := d.NewFilesystem(fc.filesystem, fc.fsLabel, fc.mountpoint, "", shell);
      ghost var after := view[t := (devices[t].0, d.State())];
      forall j | 0 <= j < |devices| ensures Snapshot(devices)[j] == after[j] {
        if j != t {
          assert devices[j].1 != d;
        }
      }
    }

    /**
     * `self.devices = dict(sorted(self.devices.items(), key=self.sort_by_mountpoint))`: the
     * same entries, in mount order.
     */
    method SortDevices()
      requires Valid()
      modifies this`devices
      ensures Valid()
      ensures var order := MountOrder(old(Snapshot(devices)));
        |devices| == |old(devices)| && forall t :: 0 <= t < |devices| ==> devices[t] == old(devices)[order[t].0]
      ensures Snapshot(devices) == SortView(old(Snapshot(devices)))
    {
      var view := Snapshot(devices);
      var order := MountOrder(view);
      var entries := devices;
      devices := seq(|order|, t requires 0 <= t < |order| => entries[order[t].0]);
      MountOrderIsPermutation(view);
      forall t | 0 <= t < |devices| ensures Snapshot(devices)[t] == SortView(view)[t] { }
    }

    /** `mount_filesystems`: every registered device, in registry order, at /mnt + its mountpoint. */
    method MountFilesystems()
      modifies shell
      ensures shell.log == old(shell.log) + MountSpec(Snapshot(devices))
    {
      ghost var view, log0 := Snapshot(devices), shell.log;
      var i := 0;
      while i < |devices|
        invariant 0 <= i <= |devices| && Snapshot(devices) == view
        invariant shell.log == log0 + MountSpec(view[..i])
      {
        MountAt(i, view, log0);
        i := i + 1;
      }
      assert view[..i] == view;
    }

    /** `bootstrap_newroot`: `pacstrap` with its default options. */
    method BootstrapNewroot()
      modifies shell
      ensures shell.log == old(shell.log) + [Command(Join(Pacstrap.CommandLineWords(Pacstrap.Defaults), ' '), dryRun)]
    {
      Pacstrap.Pacstrap(Pacstrap.Defaults, dryRun, shell);
    }

    /** One pass of the loop in `mount_filesystems`: the device at position i. */
    method MountAt(i: nat, ghost view: View, ghost log0: seq<Command>)
      requires i < |devices| && Snapshot(devices) == view
      requires shell.log == log0 + MountSpec(view[..i])
      modifies shell
      ensures Snapshot(devices) == view
      ensures shell.log == log0 + MountSpec(view[..i + 1])
    {
      var d := devices[i].1;
      assert view[i].1 == d.State();
      d.MountFilesystem("/mnt" + Show(d.mountpoint), shell);
      assert MountSpec([view[i]]) == MountLog(view[i].1, "/mnt" + Show(view[i].1.mountpoint)) + MountSpec([]);
      MountSpecAppend(view[..i], [view[i]]);
      assert view[..i + 1] == view[..i] + [view[i]];
    }
  }
}
