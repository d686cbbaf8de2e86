/**
 * scripts/drive_configs.py, the older per-drive helpers: `partition` builds one `sgdisk`
 * argument list for all the partitions of a disk and runs it, collecting the result in the
 * module's `command_output` list; `format` checks the filesystem kind and prints (never runs)
 * the `mkfs` argument list.
 */
module DriveConfigs {
  import opened Text

  /** `FILESYSTEMS`: the kinds `format` accepts. */
  const Filesystems: seq<string> := ["vfat", "swap", "ext4", "xfs"]

  /** One entry of `disk_config["partitions"]`, as the f-strings read it. */
  datatype PartitionConfig = PartitionConfig(startSector: string, endSector: string, typeCode: string, partLabel: string)

  /** The arguments partition number `num` contributes: new, type code, name. */
  function PartitionArgs(num: nat, p: PartitionConfig): seq<string>
  {
    var n := NatToString(num);
    ["-n", n + ":" + p.startSector + ":" + p.endSector, "-t", n + ":" + p.typeCode, "-c", n + ":" + p.partLabel]
  }

  /** The arguments of the first k partitions, numbered from 1 in dictionary order. */
  function PartitionsArgs(parts: seq<PartitionConfig>, k: nat): seq<string>
    requires k <= |parts|
  {
    if k == 0 then [] else PartitionsArgs(parts, k - 1) + PartitionArgs(k, parts[k - 1])
  }

  /** The full argument list: `sgdisk`, the partitions' arguments, the disk path last. */
  function SgdiskArgv(parts: seq<PartitionConfig>, path: string): seq<string>
  {
    ["sgdisk"] + PartitionsArgs(parts, |parts|) + [path]
  }

  /** The first k partitions contribute six arguments each, in order. */
  lemma {:induction false} PartitionsArgsShape(parts: seq<PartitionConfig>, k: nat)
    requires k <= |parts|
    ensures |PartitionsArgs(parts, k)| == 6 * k
    ensures forall i :: 0 <= i < k ==> PartitionsArgs(parts, k)[6 * i..6 * i + 6] == PartitionArgs(i + 1, parts[i])
  {
    if k > 0 {
      PartitionsArgsShape(parts, k - 1);
      var pre := PartitionsArgs(parts, k - 1);
      var all := PartitionsArgs(parts, k);
      forall i | 0 <= i < k ensures all[6 * i..6 * i + 6] == PartitionArgs(i + 1, parts[i]) {
        if i < k - 1 {
          assert all[6 * i..6 * i + 6] == pre[6 * i..6 * i + 6];
        } else {
          assert all[6 * i..6 * i + 6] == PartitionArgs(k, parts[k - 1]);
        }
      }
    }
  }

  /**
   * The `sgdisk` list starts with the program, ends with the disk path, and holds for the i-th
   * partition (from 0) exactly `-n N:start:end -t N:type -c N:label` with N = i + 1, in
   * dictionary order: the numbers run 1, 2, 3, ….
   */
  lemma SgdiskShape(parts: seq<PartitionConfig>, path: string)
    ensures var argv := SgdiskArgv(parts, path);
      && |argv| == 6 * |parts| + 2
      && argv[0] == "sgdisk" && argv[|argv| - 1] == path
      && (forall i :: 0 <= i < |parts| ==> argv[1 + 6 * i..7 + 6 * i] == PartitionArgs(i + 1, parts[i]))
  {
    var argv := SgdiskArgv(parts, path);
    var mid := PartitionsArgs(parts, |parts|);
    PartitionsArgsShape(parts, |parts|);
    forall i | 0 <= i < |parts| ensures argv[1 + 6 * i..7 + 6 * i] == PartitionArgs(i + 1, parts[i]) {
      assert argv[1 + 6 * i..7 + 6 * i] == mid[6 * i..6 * i + 6];
    }
  }

  /** What `format` does: exit with a status, or print a line. */
  datatype FormatResult = Exit(status: int) | Printed(line: string)

  /** One `filesystem_config` dictionary, as `format` reads it. */
  datatype FilesystemConfig = FilesystemConfig(filesystem: string, options: string, fsLabel: string)

  /** The `mkfs` list of an accepted kind: program, options, label flag (`-n` for vfat), label. */
  function MkfsArgv(c: FilesystemConfig): seq<string>
  {
    ["mkfs." + c.filesystem, c.options, if c.filesystem == "vfat" then "-n" else "-L", c.fsLabel]
  }

  /** The module's `command_output` list: what each `sgdisk` run produced, here its argument list. */
  class Outputs {
    var commandOutput: seq<seq<string>>

    constructor ()
      ensures commandOutput == []
    {
      commandOutput := [];
    }

    /** `partition`: build the argument list partition by partition, then run it once. */
    method Partition(parts: seq<PartitionConfig>, path: string)
      modifies this
      ensures commandOutput == old(commandOutput) + [SgdiskArgv(parts, path)]
    {
      var sgdisk := ["sgdisk"];
      var partNum := 1;
      for i := 0 to |parts|
        invariant sgdisk == ["sgdisk"] + PartitionsArgs(parts, i)
        invariant partNum == i + 1
      {
        var p := parts[i];
        var n := NatToString(partNum);
        sgdisk := sgdisk + ["-n", n + ":" + p.startSector + ":" + p.endSector];
        sgdisk := sgdisk + ["-t", n + ":" + p.typeCode];
        sgdisk := sgdisk + ["-c", n + ":" + p.partLabel];
        partNum := partNum + 1;
      }
      sgdisk := sgdisk + [path];
      commandOutput := commandOutput + [sgdisk];
    }
  }

  /**
   * `format`: a kind outside `FILESYSTEMS` ends the program with status 1 before any list is
   * built; otherwise the four-word list is printed space-joined, and splitting the printed line
   * at spaces gives the list back when no word holds a space.
   */
  method Format(c: FilesystemConfig) returns (r: FormatResult)
    ensures c.filesystem !in Filesystems <==> r == Exit(1)
    ensures c.filesystem in Filesystems ==> r.Printed? && r.line == Join(MkfsArgv(c), ' ')
    ensures r.Printed? && ' ' !in c.filesystem && ' ' !in c.options && ' ' !in c.fsLabel ==>
              Split(r.line, ' ') == MkfsArgv(c)
  {
    if c.filesystem !in Filesystems {
      return Exit(1);
    }
    var mkfs := ["mkfs." + c.filesystem];
    mkfs := mkfs + [c.options];
    mkfs := mkfs + [if c.filesystem == "vfat" then "-n" else "-L"];
    mkfs := mkfs + [c.fsLabel];
    assert mkfs == MkfsArgv(c);
    r := Printed(Join(mkfs, ' '));
    if ' ' !in c.filesystem && ' ' !in c.options && ' ' !in c.fsLabel {
      assert ' ' !in "mkfs." + c.filesystem;
      SplitJoin(mkfs, ' ');
    }
  }
}
