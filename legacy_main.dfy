/**
 * `main` of main.py, the older entry point. With every stage switch on, it partitions the
 * drives, assembles the RAID arrays, encrypts, formats, sorts the registry for mounting, mounts
 * and bootstraps, all in dry-run mode (the drives and arrays are built with dry_run=True). Its
 * loops are the same as those of the `Excalibur` stages, so each stage here is the stage
 * specification of module Pipeline; only encryption differs: no early/late classification,
 * a keyfile always, and no extra cryptsetup options.
 */
module Legacy {
  import opened Wrappers
  import opened Text
  import opened Commands
  import opened Registry
  import opened Devices
  import opened Pipeline
  import Stages
  import Pacstrap

  /** The sections `main` reads, after defaults were filled; a crypt entry is its uid and crypt label. */
  datatype Sections = Sections(drives: seq<(string, DriveConfig)>, raids: seq<(string, RaidConfig)>,
                               crypts: seq<(string, string)>, filesystems: seq<(string, FilesystemConfig)>)

  /** Where `main` ends: the registry, the log, the registry in mount order, and whether it got through. */
  datatype Outcome = Outcome(view: View, log: seq<Command>, mounted: View, ok: bool)

  /** The encryption of one device in `main`: a missing uid is a KeyError, which ends the program. */
  function EncryptAction(probe: Probe): Stages.Action<DeviceState, string, Command>
  {
    (n: nat, es: View, log: seq<Command>, uid: string, cryptLabel: string) =>
      match Lookup(es, uid)
      case None => None
      case Some(s) =>
        var st := EncryptStep(s, cryptLabel, true, "", "", log, probe);
        Some((st.state, st.log))
  }

  /** The pacstrap line `main` issues, with the default options, in dry-run mode. */
  function PacstrapCommand(): Command
  {
    Command(Join(Pacstrap.CommandLineWords(Pacstrap.Defaults), ' '), true)
  }

  /** `main` from an empty registry, up to bootstrapping the new root. */
  function Install(log: seq<Command>, sec: Sections, probe: Probe): Outcome
  {
    var (v1, l1) := PartitionSpec([], log, sec.drives, true, probe);
    var r := RaidSpec(v1, l1, sec.raids, true, probe);
    if !r.completed then Outcome(r.entries, r.log, [], false)
    else
      var c := Stages.Run(r.entries, r.log, sec.crypts, 0, EncryptAction(probe));
      if !c.completed then Outcome(c.entries, c.log, [], false)
      else
        var f := FormatSpec(c.entries, c.log, sec.filesystems, probe);
        if !f.completed then Outcome(f.entries, f.log, [], false)
        else
          var sorted := SortView(f.entries);
          Outcome(f.entries, f.log + MountSpec(sorted) + [PacstrapCommand()], sorted, true)
  }

  /**
   * `sort_by_mountpoint` of main.py is the rule of `Pipeline.SortByMountpoint`: -1 exactly for
   * a device without a mountpoint or a swap device not at the root, 0 exactly for the root, and
   * otherwise at least 1.
   */
  lemma SortKeyCases(s: DeviceState)
    ensures SortByMountpoint(s) == -1
        <==> !Truthy(s.mountpoint) || (s.mountpoint != Some("/") && s.filesystem == Some("swap"))
    ensures SortByMountpoint(s) == 0 <==> s.mountpoint == Some("/")
    ensures SortByMountpoint(s) != -1 && SortByMountpoint(s) != 0 ==> SortByMountpoint(s) >= 1
  {
    if Truthy(s.mountpoint) && s.mountpoint.value != "/" && s.filesystem != Some("swap") {
      assert |Split(s.mountpoint.value, '/')| >= 1;
    }
  }

  /**
   * After a run that got through, every configured partition uid and every array uid is in the
   * registry, and the registry is a dictionary.
   */
  lemma InstallRegisters(log: seq<Command>, sec: Sections, probe: Probe)
    requires Install(log, sec, probe).ok
    ensures var r := Install(log, sec, probe);
      && DistinctKeys(r.view)
      && (forall d, j :: 0 <= d < |sec.drives| && 0 <= j < |sec.drives[d].1.partitions| ==>
            sec.drives[d].1.partitions[j].0 in Keys(r.view))
      && (forall k :: 0 <= k < |sec.raids| ==> sec.raids[k].0 in Keys(r.view))
  {
    var (v1, l1) := PartitionSpec([], log, sec.drives, true, probe);
    EveryPartitionRegistered([], log, sec.drives, true, probe);
    var r := RaidSpec(v1, l1, sec.raids, true, probe);
    Stages.RunKeys(v1, l1, sec.raids, 0, RaidAction(true, probe));
    var c := Stages.Run(r.entries, r.log, sec.crypts, 0, EncryptAction(probe));
    Stages.RunKeys(r.entries, r.log, sec.crypts, 0, EncryptAction(probe));
    Stages.RunKeys(c.entries, c.log, sec.filesystems, 0, FormatAction(probe));
  }

  /**
   * After a run that got through, the devices are mounted in `sorted_devices` order: each
   * registered device exactly once, keys non-decreasing, equal keys in registration order;
   * pacstrap's command comes last.
   */
  lemma InstallMountOrder(log: seq<Command>, sec: Sections, probe: Probe)
    requires Install(log, sec, probe).ok
    ensures var r := Install(log, sec, probe);
      var order := MountOrder(r.view);
      && |r.mounted| == |r.view|
      && (forall t :: 0 <= t < |r.mounted| ==> r.mounted[t] == r.view[order[t].0])
      && (forall a, b :: 0 <= a < b < |r.view| ==> order[a].0 != order[b].0)
      && (forall a, b :: 0 <= a < b < |r.mounted| ==>
            SortByMountpoint(r.mounted[a].1) <= SortByMountpoint(r.mounted[b].1))
      && (forall a, b :: 0 <= a < b < |r.mounted| && SortByMountpoint(r.mounted[a].1) == SortByMountpoint(r.mounted[b].1) ==>
            order[a].0 < order[b].0)
      && |r.log| > 0 && r.log[|r.log| - 1] == PacstrapCommand()
  {
    var r := Install(log, sec, probe);
    MountOrderIsPermutation(r.view);
    forall a, b | 0 <= a < b < |r.mounted|
      ensures SortByMountpoint(r.mounted[a].1) <= SortByMountpoint(r.mounted[b].1)
    {
      SortViewSorted(r.view, a, b);
    }
    forall a, b | 0 <= a < b < |r.mounted| && SortByMountpoint(r.mounted[a].1) == SortByMountpoint(r.mounted[b].1)
      ensures MountOrder(r.view)[a].0 < MountOrder(r.view)[b].0
    {
      SortViewStable(r.view, a, b);
    }
  }

  /** A RAID member that is not registered ends the run before any encryption or mount. */
  lemma InstallStopsAtMissingMember(log: seq<Command>, sec: Sections, probe: Probe)
    requires !RaidSpec(PartitionSpec([], log, sec.drives, true, probe).0,
                       PartitionSpec([], log, sec.drives, true, probe).1, sec.raids, true, probe).completed
    ensures var r := Install(log, sec, probe);
      !r.ok && r.mounted == [] && r.log == RaidSpec(PartitionSpec([], log, sec.drives, true, probe).0,
                                                    PartitionSpec([], log, sec.drives, true, probe).1,
                                                    sec.raids, true, probe).log
  {
  }
}
