/**
 * The device model: a `Formattable` block device (a partition or a RAID array, later an
 * encrypted mapping and a filesystem) whose fields change as it is formatted, encrypted and
 * mounted, and a `Drive` that numbers the partitions carved from it.
 */
module Devices {
  import opened Wrappers
  import opened Text
  import opened Commands

  /** The filesystem kinds `new_filesystem` accepts. */
  const Filesystems: seq<string> := ["efi", "vfat", "ext4", "xfs", "swap"]

  // ---------------------------------------------------------------------------
  // Command lines

  /** The formatting program and its label flag for one filesystem kind. */
  function MkfsProgram(filesystem: string): seq<string>
  {
    if filesystem == "efi" then ["mkfs.vfat", "-F32", "-n"]
    else if filesystem == "swap" then ["mkswap", "-L"]
    else ["mkfs." + filesystem, "-L"]
  }

  /** `new_filesystem`'s command: program, label (`None` prints as None), options, device. */
  function MkfsCommand(filesystem: string, fsLabel: Option<string>, options: string, path: string): string
  {
    MkfsPrefix(filesystem) + " " + Show(fsLabel) + " " + options + " " + path
  }

  /** The formatting program and its label flag, as the command starts. */
  function MkfsPrefix(filesystem: string): string
  {
    if filesystem == "efi" then "mkfs.vfat -F32 -n"
    else if filesystem == "swap" then "mkswap -L"
    else "mkfs." + filesystem + " -L"
  }

  /** Where the keyfile of a mapping is written ... */
  function WrittenKeyPath(mapperName: string): string
  {
    "/tmp/" + mapperName + ".key"
  }

  /** ... and where cryptsetup is told to read it. */
  function ReadKeyPath(mapperName: string): string
  {
    "/root/ramfs/" + mapperName + ".key"
  }

  /** The keyfile is written to /tmp ... */
  function KeyfileCommand(mapperName: string): string
  {
    "dd bs=512 count=4 if=/dev/random of=" + WrittenKeyPath(mapperName) + " iflag=fullblock"
  }

  /** ... while cryptsetup is pointed at /root/ramfs. */
  function LuksFormatCommand(keyfile: bool, mapperName: string, formatOptions: string, path: string): string
  {
    CryptsetupPrefix(keyfile, mapperName, " -q") + " " + formatOptions + " luksFormat " + path
  }

  function LuksOpenCommand(keyfile: bool, mapperName: string, openOptions: string, path: string): string
  {
    CryptsetupPrefix(keyfile, mapperName, "") + " " + openOptions + " luksOpen " + path + " " + mapperName
  }

  /** "cryptsetup", pointed at the keyfile when there is one, then `flags`. */
  function CryptsetupPrefix(keyfile: bool, mapperName: string, flags: string): string
  {
    (if keyfile then "cryptsetup --key-file " + ReadKeyPath(mapperName) else "cryptsetup") + flags
  }

  /** No keyfile the dd writes is ever at a path cryptsetup reads a keyfile from, whatever the names. */
  lemma KeyfileNeverRead(written: string, read: string)
    ensures WrittenKeyPath(written) != ReadKeyPath(read)
  {
    assert WrittenKeyPath(written)[1] == 't';
    assert ReadKeyPath(read)[1] == 'r';
  }

  function MapperPath(mapperName: string): string
  {
    "/dev/mapper/" + mapperName
  }

  /** `mount_filesystem`'s command, or None when the device holds no filesystem. */
  function MountCommand(filesystem: Option<string>, path: string, mountpoint: Option<string>,
                        overrideMount: string): Option<string>
  {
    match filesystem
    case None => None
    case Some(kind) =>
      if kind == "swap" then Some("swapon " + path)
      else Some("mount -m " + path + " " + (if overrideMount != "" then overrideMount else Show(mountpoint)))
  }

  /** Start and end sectors: a size other than "0" overrides them with 0 and "+size". */
  function SectorRange(startSector: string, endSector: string, partitionSize: string): (string, string)
  {
    if partitionSize != "0" then ("0", "+" + partitionSize) else (startSector, endSector)
  }

  /** The sgdisk command `Partition.__init__` issues. */
  function SgdiskCommand(startSector: string, endSector: string, partitionSize: string, typeCode: string,
                         partitionLabel: Option<string>, partitionNumber: nat, devicePath: string): string
  {
    var n := NatToString(partitionNumber);
    "sgdisk -n " + SgdiskRange(startSector, endSector, partitionSize, n) + " "
      + (SgdiskFlags(typeCode, partitionLabel, n) + devicePath)
  }

  /** The "-n" argument: number, start and end, colon-separated. */
  function SgdiskRange(startSector: string, endSector: string, partitionSize: string, n: string): string
  {
    var (start, end) := SectorRange(startSector, endSector, partitionSize);
    n + ":" + start + ":" + end
  }

  /** The optional type code and partition name flags, each followed by a space. */
  function SgdiskFlags(typeCode: string, partitionLabel: Option<string>, n: string): string
  {
    (if typeCode != "" then "-t " + n + ":" + typeCode + " " else "")
      + (if Truthy(partitionLabel) then "-c " + n + ":'" + partitionLabel.value + "' " else "")
  }

  /** The words sgdisk receives, as an independent statement of the command's shape. */
  function SgdiskWords(startSector: string, endSector: string, partitionSize: string, typeCode: string,
                       partitionLabel: Option<string>, partitionNumber: nat, devicePath: string): seq<string>
  {
    var n := NatToString(partitionNumber);
    var range := if partitionSize != "0" then n + ":0:+" + partitionSize else n + ":" + startSector + ":" + endSector;
    ["sgdisk", "-n", range] + SgdiskOptionWords(typeCode, partitionLabel, n, devicePath)
  }

  /** `mdadm --create` for an array over the member paths, each followed by a space. */
  function MdadmCommand(paths: seq<string>, arrayName: string, level: int, options: string): string
  {
    "mdadm --create --metadata=1.2 "
      + ("--level=" + IntToString(level) + " ")
      + ("--raid-devices=" + NatToString(|paths|) + " ")
      + ("--name=" + arrayName + " ")
      + "--homehost=any"
      + options
      + (" /dev/md/" + arrayName + " ")
      + MemberList(paths)
  }

  function MemberList(paths: seq<string>): string
    decreases |paths|
  {
    if |paths| == 0 then "" else paths[0] + " " + MemberList(paths[1..])
  }

  /** The partition's device path: a "p" goes between a drive path ending in a digit and the number. */
  function PartitionPath(devicePath: string, partitionNumber: nat): string
  {
    devicePath + (if EndsInDigit(devicePath) then "p" else "") + NatToString(partitionNumber)
  }

  // ---------------------------------------------------------------------------
  // Properties of the command lines and paths

  /** Two different slot numbers on one drive never give the same partition path. */
  lemma PartitionPathInjective(devicePath: string, m: nat, n: nat)
    requires PartitionPath(devicePath, m) == PartitionPath(devicePath, n)
    ensures m == n
  {
    var k := |devicePath| + (if EndsInDigit(devicePath) then 1 else 0);
    assert PartitionPath(devicePath, m)[k..] == NatToString(m);
    assert PartitionPath(devicePath, n)[k..] == NatToString(n);
    NatToStringInjective(m, n);
  }

  /** The two shapes of partition path, on a SATA and on an NVMe drive. */
  lemma PartitionPathExamples()
    ensures PartitionPath("/dev/sda", 2) == "/dev/sda2"
    ensures PartitionPath("/dev/nvme0n1", 2) == "/dev/nvme0n1p2"
    ensures PartitionPath("/dev/nvme0n1", 12) == "/dev/nvme0n1p12"
  {
    assert NatToString(12) == NatToString(1) + [DigitChar(2)];
  }

  lemma JoinPair(a: string, b: string, ws: seq<string>, sep: char)
    requires |ws| >= 1
    ensures Join([a, b] + ws, sep) == a + [sep] + b + [sep] + Join(ws, sep)
  {
    assert ([a, b] + ws)[1..] == [b] + ws;
    assert ([b] + ws)[1..] == ws;
  }

  /** The optional "-t" and "-c" words followed by the drive path. */
  function SgdiskOptionWords(typeCode: string, partitionLabel: Option<string>, n: string, devicePath: string): seq<string>
  {
    (if typeCode != "" then ["-t", n + ":" + typeCode] else [])
      + (if Truthy(partitionLabel) then ["-c", n + ":'" + partitionLabel.value + "'"] else [])
      + [devicePath]
  }

  lemma LabelWordsJoin(partitionLabel: Option<string>, n: string, devicePath: string)
    ensures Join(SgdiskOptionWords("", partitionLabel, n, devicePath), ' ')
         == (if Truthy(partitionLabel) then "-c " + n + ":'" + partitionLabel.value + "' " else "") + devicePath
  {
    if Truthy(partitionLabel) {
      JoinPair("-c", n + ":'" + partitionLabel.value + "'", [devicePath], ' ');
    }
  }

  lemma OptionWordsJoin(typeCode: string, partitionLabel: Option<string>, n: string, devicePath: string)
    ensures Join(SgdiskOptionWords(typeCode, partitionLabel, n, devicePath), ' ')
         == (if typeCode != "" then "-t " + n + ":" + typeCode + " " else "")
            + (if Truthy(partitionLabel) then "-c " + n + ":'" + partitionLabel.value + "' " else "")
            + devicePath
  {
    var tail := SgdiskOptionWords("", partitionLabel, n, devicePath);
    LabelWordsJoin(partitionLabel, n, devicePath);
    if typeCode != "" {
      assert SgdiskOptionWords(typeCode, partitionLabel, n, devicePath) == ["-t", n + ":" + typeCode] + tail;
      JoinPair("-t", n + ":" + typeCode, tail, ' ');
    }
  }

  lemma SgdiskPrefix(range: string, rest: string)
    ensures Join(["sgdisk", "-n", range] + [rest], ' ') == "sgdisk -n " + range + " " + rest
  {
    assert ["sgdisk", "-n", range] + [rest] == ["sgdisk", "-n"] + ([range] + [rest]);
    JoinPair("sgdisk", "-n", [range] + [rest], ' ');
    JoinCons(range, [rest], ' ');
    assert "sgdisk" + [' '] + "-n" + [' '] == "sgdisk -n ";
    assert "sgdisk" + [' '] + "-n" + [' '] + (range + [' '] + rest) == "sgdisk -n " + range + " " + rest;
  }

  lemma SgdiskIsJoin(startSector: string, endSector: string, partitionSize: string, typeCode: string,
                     partitionLabel: Option<string>, partitionNumber: nat, devicePath: string)
    ensures SgdiskCommand(startSector, endSector, partitionSize, typeCode, partitionLabel, partitionNumber, devicePath)
         == Join(SgdiskWords(startSector, endSector, partitionSize, typeCode, partitionLabel, partitionNumber, devicePath), ' ')
  {
    var n := NatToString(partitionNumber);
    var (start, end) := SectorRange(startSector, endSector, partitionSize);
    var range := n + ":" + start + ":" + end;
    assert partitionSize != "0" ==> range == n + ":0:+" + partitionSize;
    var tail := SgdiskOptionWords(typeCode, partitionLabel, n, devicePath);
    OptionWordsJoin(typeCode, partitionLabel, n, devicePath);
    JoinAppend(["sgdisk", "-n", range], tail, ' ');
    SgdiskPrefix(range, Join(tail, ' '));
    JoinAppend(["sgdisk", "-n", range], [Join(tail, ' ')], ' ');
  }

  /** Split on spaces, the sgdisk command is the word list above, whenever no piece holds a space. */
  lemma SgdiskSplitsIntoWords(startSector: string, endSector: string, partitionSize: string, typeCode: string,
                              partitionLabel: Option<string>, partitionNumber: nat, devicePath: string)
    requires ' ' !in startSector && ' ' !in endSector && ' ' !in partitionSize && ' ' !in typeCode
    requires ' ' !in devicePath && (partitionLabel.Some? ==> ' ' !in partitionLabel.value)
    ensures Split(SgdiskCommand(startSector, endSector, partitionSize, typeCode, partitionLabel, partitionNumber, devicePath), ' ')
         == SgdiskWords(startSector, endSector, partitionSize, typeCode, partitionLabel, partitionNumber, devicePath)
  {
    var words := SgdiskWords(startSector, endSector, partitionSize, typeCode, partitionLabel, partitionNumber, devicePath);
    SgdiskIsJoin(startSector, endSector, partitionSize, typeCode, partitionLabel, partitionNumber, devicePath);
    assert AllDigits(NatToString(partitionNumber));
    assert forall i :: 0 <= i < |words| ==> ' ' !in words[i];
    SplitJoin(words, ' ');
  }

  lemma {:induction false} MemberListIsJoin(paths: seq<string>)
    ensures MemberList(paths) == Join(paths + [""], ' ')
    decreases |paths|
  {
    if |paths| > 0 {
      MemberListIsJoin(paths[1..]);
      assert paths + [""] == [paths[0]] + (paths[1..] + [""]);
      JoinCons(paths[0], paths[1..] + [""], ' ');
    }
  }

  /** The words of the mdadm command before its members. */
  function MdadmHead(count: nat, arrayName: string, level: int, options: string): seq<string>
  {
    ["mdadm", "--create", "--metadata=1.2", "--level=" + IntToString(level),
     "--raid-devices=" + NatToString(count), "--name=" + arrayName,
     "--homehost=any" + options, "/dev/md/" + arrayName]
  }

  lemma Join5(a: string, b: string, c: string, d: string, e: string, sep: char)
    ensures Join([a, b, c, d, e], sep) == a + [sep] + b + [sep] + c + [sep] + d + [sep] + e
  {
    Join3(c, d, e, sep);
    JoinPair(a, b, [c, d, e], sep);
    assert [a, b, c, d, e] == [a, b] + [c, d, e];
  }

  lemma Regroup(p: string, l: string, r: string, nm: string, h1: string, h2: string, md: string, m: string, sp: char)
    ensures p + (l + [sp]) + (r + [sp]) + (nm + [sp]) + h1 + h2 + ([sp] + md + [sp]) + m
         == p + (l + [sp] + r + [sp] + nm + [sp] + (h1 + h2) + [sp] + md) + [sp] + m
  {
  }

  lemma Join8(a: string, b: string, c: string, d: string, e: string, f: string, g: string, h: string, sep: char)
    ensures Join([a, b, c, d, e, f, g, h], sep)
         == a + [sep] + b + [sep] + c + [sep] + (d + [sep] + e + [sep] + f + [sep] + g + [sep] + h)
  {
    Join3(a, b, c, sep);
    Join5(d, e, f, g, h, sep);
    JoinAppend([a, b, c], [d, e, f, g, h], sep);
    assert [a, b, c, d, e, f, g, h] == [a, b, c] + [d, e, f, g, h];
  }

  lemma MdadmHeadJoin(count: nat, arrayName: string, level: int, options: string)
    ensures Join(MdadmHead(count, arrayName, level, options), ' ')
         == "mdadm --create --metadata=1.2 "
            + ("--level=" + IntToString(level) + [' '] + ("--raid-devices=" + NatToString(count))
               + [' '] + ("--name=" + arrayName) + [' '] + ("--homehost=any" + options)
               + [' '] + ("/dev/md/" + arrayName))
  {
    Join8("mdadm", "--create", "--metadata=1.2", "--level=" + IntToString(level),
          "--raid-devices=" + NatToString(count), "--name=" + arrayName, "--homehost=any" + options,
          "/dev/md/" + arrayName, ' ');
    MdadmPrefixJoin();
  }

  lemma MdadmPrefixJoin()
    ensures "mdadm" + [' '] + "--create" + [' '] + "--metadata=1.2" + [' '] == "mdadm --create --metadata=1.2 "
  {
  }

  lemma SpaceAround(x: string, y: string, sp: char)
    ensures [sp] + x + y + [sp] == [sp] + (x + y) + [sp]
  {
  }

  /** The source's space-terminated pieces, written with the separator made explicit. */
  lemma MdadmPieces(paths: seq<string>, arrayName: string, level: int, options: string)
    ensures MdadmCommand(paths, arrayName, level, options)
         == "mdadm --create --metadata=1.2 " + ("--level=" + IntToString(level) + [' '])
            + ("--raid-devices=" + NatToString(|paths|) + [' ']) + ("--name=" + arrayName + [' '])
            + "--homehost=any" + options + ([' '] + ("/dev/md/" + arrayName) + [' ']) + MemberList(paths)
  {
    DevMdSpaced(arrayName);
  }

  /** The array path between the spaces around it. */
  lemma DevMdSpaced(arrayName: string)
    ensures " /dev/md/" + arrayName + " " == [' '] + ("/dev/md/" + arrayName) + [' ']
  {
    DevMdPrefix();
    SpaceAround("/dev/md/", arrayName, ' ');
  }

  lemma DevMdPrefix()
    ensures " /dev/md/" == [' '] + "/dev/md/"
  {
  }

  lemma MdadmIsJoin(paths: seq<string>, arrayName: string, level: int, options: string)
    ensures MdadmCommand(paths, arrayName, level, options)
         == Join(MdadmHead(|paths|, arrayName, level, options) + (paths + [""]), ' ')
  {
    var head := MdadmHead(|paths|, arrayName, level, options);
    var lv, rd, nm, md := "--level=" + IntToString(level), "--raid-devices=" + NatToString(|paths|),
                          "--name=" + arrayName, "/dev/md/" + arrayName;
    calc {
      Join(head + (paths + [""]), ' ');
    == { MemberListIsJoin(paths); JoinAppend(head, paths + [""], ' '); }
      Join(head, ' ') + [' '] + MemberList(paths);
    == { MdadmHeadJoin(|paths|, arrayName, level, options); }
      "mdadm --create --metadata=1.2 " + (lv + [' '] + rd + [' '] + nm + [' '] + ("--homehost=any" + options)
        + [' '] + md) + [' '] + MemberList(paths);
    == { Regroup("mdadm --create --metadata=1.2 ", lv, rd, nm, "--homehost=any", options, md, MemberList(paths), ' '); }
      "mdadm --create --metadata=1.2 " + (lv + [' ']) + (rd + [' ']) + (nm + [' ']) + "--homehost=any" + options
        + ([' '] + md + [' ']) + MemberList(paths);
    == { MdadmPieces(paths, arrayName, level, options); }
      MdadmCommand(paths, arrayName, level, options);
    }
  }

  lemma MdadmHeadNoSpaces(count: nat, arrayName: string, level: int, options: string)
    requires ' ' !in arrayName && ' ' !in options
    ensures forall i :: 0 <= i < 8 ==> ' ' !in MdadmHead(count, arrayName, level, options)[i]
  {
    var n := NatToString(count);
    var l := NatToString(if level < 0 then -level else level);
    assert ' ' !in n by { assert AllDigits(n); }
    assert ' ' !in l by { assert AllDigits(l); }
    assert ' ' !in IntToString(level);
  }

  /**
   * Split on spaces, the mdadm command names the member count and then the members in order
   * (with an empty last word left by the trailing space).
   */
  lemma MdadmSplitsIntoWords(paths: seq<string>, arrayName: string, level: int, options: string)
    requires ' ' !in arrayName && ' ' !in options
    requires forall i :: 0 <= i < |paths| ==> ' ' !in paths[i]
    ensures Split(MdadmCommand(paths, arrayName, level, options), ' ')
         == MdadmHead(|paths|, arrayName, level, options) + paths + [""]
  {
    var head := MdadmHead(|paths|, arrayName, level, options);
    var tail := paths + [""];
    MdadmIsJoin(paths, arrayName, level, options);
    MdadmHeadNoSpaces(|paths|, arrayName, level, options);
    var words := head + tail;
    forall i | 0 <= i < |words| ensures ' ' !in words[i] {
      if |head| <= i < |head| + |paths| {
        assert words[i] == paths[i - |head|];
      }
    }
    assert words == head + paths + [""];
    SplitJoin(words, ' ');
  }

  /** The program words joined back: the prefix `new_filesystem` starts its command with. */
  lemma MkfsProgramJoin(filesystem: string)
    ensures Join(MkfsProgram(filesystem), ' ') == MkfsPrefix(filesystem)
  {
    if filesystem == "efi" {
      EfiProgramJoin();
    } else if filesystem == "swap" {
      SwapProgramJoin();
    } else {
      JoinCons("mkfs." + filesystem, ["-L"], ' ');
      assert [' '] + Join(["-L"], ' ') == " -L";
    }
  }

  lemma EfiProgramJoin()
    ensures Join(["mkfs.vfat", "-F32", "-n"], ' ') == "mkfs.vfat -F32 -n"
  {
    JoinCons("-F32", ["-n"], ' ');
    JoinCons("mkfs.vfat", ["-F32", "-n"], ' ');
  }

  lemma SwapProgramJoin()
    ensures Join(["mkswap", "-L"], ' ') == "mkswap -L"
  {
    JoinCons("mkswap", ["-L"], ' ');
  }

  lemma Join3(a: string, b: string, c: string, sep: char)
    ensures Join([a, b, c], sep) == a + [sep] + b + [sep] + c
  {
    JoinPair(a, b, [c], sep);
    assert [a, b, c] == [a, b] + [c];
  }

  lemma MkfsIsJoin(filesystem: string, fsLabel: Option<string>, options: string, path: string)
    ensures MkfsCommand(filesystem, fsLabel, options, path)
         == Join(MkfsProgram(filesystem) + [Show(fsLabel), options, path], ' ')
  {
    MkfsProgramJoin(filesystem);
    Join3(Show(fsLabel), options, path, ' ');
    JoinAppend(MkfsProgram(filesystem), [Show(fsLabel), options, path], ' ');
  }

  /** Split on spaces, the mkfs command is program, label, options and device, in that order. */
  lemma MkfsSplitsIntoWords(filesystem: string, fsLabel: Option<string>, options: string, path: string)
    requires ' ' !in filesystem && ' ' !in Show(fsLabel) && ' ' !in options && ' ' !in path
    ensures Split(MkfsCommand(filesystem, fsLabel, options, path), ' ')
         == MkfsProgram(filesystem) + [Show(fsLabel), options, path]
  {
    var words := MkfsProgram(filesystem) + [Show(fsLabel), options, path];
    MkfsIsJoin(filesystem, fsLabel, options, path);
    assert forall i :: 0 <= i < |words| ==> ' ' !in words[i];
    SplitJoin(words, ' ');
  }

  // ---------------------------------------------------------------------------
  // Device state and its transitions

  /** Everything a `Formattable` records about one block device. */
  datatype DeviceState = DeviceState(
    partitionPath: string,
    partitionLabel: Option<string>,
    partitionUuid: string,
    filesystem: Option<string>,
    fsLabel: Option<string>,
    mountpoint: Option<string>,
    uuid: Option<string>,
    usesKeyfile: bool,
    encryptUuid: Option<string>,
    encryptLabel: Option<string>,
    realPath: Option<string>,
    dryRun: bool)

  /** A device state together with the command log after an operation. */
  datatype Step = Step(state: DeviceState, log: seq<Command>)

  /** `Formattable.__init__`: no filesystem, no encryption yet. */
  function Unformatted(path: string, partitionLabel: Option<string>, partitionUuid: string, dryRun: bool): DeviceState
  {
    DeviceState(path, partitionLabel, partitionUuid, None, None, None, None, false, None, None, None, dryRun)
  }

  /** Building a partition: sgdisk, then the PARTUUID query on the derived path. */
  function PartitionStep(startSector: string, endSector: string, partitionSize: string, typeCode: string,
                         partitionLabel: Option<string>, partitionNumber: nat, devicePath: string,
                         dryRun: bool, log: seq<Command>, probe: Probe): Step
  {
    var path := PartitionPath(devicePath, partitionNumber);
    var log1 := log + [Command(SgdiskCommand(startSector, endSector, partitionSize, typeCode, partitionLabel,
                                             partitionNumber, devicePath), dryRun)];
    Step(Unformatted(path, partitionLabel, probe(log1, "PARTUUID", path), dryRun),
         log1 + [Command(BlkidCommand("PARTUUID", path), false)])
  }

  /** Building a RAID array over member paths: mdadm, then the PARTUUID query on /dev/md/<name>. */
  function RaidStep(paths: seq<string>, arrayName: string, level: int, options: string, dryRun: bool,
                    log: seq<Command>, probe: Probe): Step
  {
    var path := "/dev/md/" + arrayName;
    var log1 := log + [Command(MdadmCommand(paths, arrayName, level, options), dryRun)];
    Step(Unformatted(path, Some(arrayName), probe(log1, "PARTUUID", path), dryRun),
         log1 + [Command(BlkidCommand("PARTUUID", path), false)])
  }

  /** `new_filesystem`: None for a kind it rejects (the program exits before any command). */
  function FormatStep(s: DeviceState, filesystem: string, fsLabel: Option<string>, mountpoint: Option<string>,
                      options: string, log: seq<Command>, probe: Probe): Option<Step>
  {
    if filesystem !in Filesystems then None
    else
      var log1 := log + [Command(MkfsCommand(filesystem, fsLabel, options, s.partitionPath), s.dryRun)];
      Some(Step(s.(filesystem := Some(filesystem), fsLabel := fsLabel, mountpoint := mountpoint,
                   uuid := Some(probe(log1, "UUID", s.partitionPath))),
                log1 + [Command(BlkidCommand("UUID", s.partitionPath), false)]))
  }

  /** The commands `encrypt_partition` hands to the runner before its UUID query. */
  function EncryptCommands(s: DeviceState, mapperName: string, keyfile: bool, formatOptions: string,
                           openOptions: string): seq<Command>
  {
    (if keyfile then [Command(KeyfileCommand(mapperName), false)] else [])
      + [Command(LuksFormatCommand(keyfile, mapperName, formatOptions, s.partitionPath), s.dryRun),
         Command(LuksOpenCommand(keyfile, mapperName, openOptions, s.partitionPath), s.dryRun)]
  }

  /** `encrypt_partition`: the device is then addressed through its mapper. */
  function EncryptStep(s: DeviceState, mapperName: string, keyfile: bool, formatOptions: string,
                       openOptions: string, log: seq<Command>, probe: Probe): Step
  {
    var log1 := log + EncryptCommands(s, mapperName, keyfile, formatOptions, openOptions);
    var path := MapperPath(mapperName);
    Step(s.(realPath := Some(s.partitionPath), partitionPath := path, usesKeyfile := s.usesKeyfile || keyfile,
            encryptUuid := Some(probe(log1, "UUID", path)), encryptLabel := Some(mapperName)),
         log1 + [Command(BlkidCommand("UUID", path), false)])
  }

  /** The log entries `mount_filesystem` appends for a device at an override mountpoint. */
  function MountLog(s: DeviceState, overrideMount: string): seq<Command>
  {
    match MountCommand(s.filesystem, s.partitionPath, s.mountpoint, overrideMount)
    case None => []
    case Some(c) => [Command(c, s.dryRun)]
  }

  /**
   * What the field updates keep true of every device: an encrypted device is addressed by its
   * mapper and remembers its previous path, a keyfile implies encryption, and a recorded
   * filesystem is an accepted kind with a UUID.
   */
  predicate Consistent(s: DeviceState)
  {
    && (s.realPath.Some? <==> s.encryptLabel.Some?)
    && (s.encryptLabel.Some? ==> s.partitionPath == MapperPath(s.encryptLabel.value) && s.encryptUuid.Some?)
    && (s.usesKeyfile ==> s.encryptLabel.Some?)
    && (s.filesystem.Some? ==> s.filesystem.value in Filesystems && s.uuid.Some?)
  }

  lemma PartitionStepConsistent(startSector: string, endSector: string, partitionSize: string, typeCode: string,
                                partitionLabel: Option<string>, partitionNumber: nat, devicePath: string,
                                dryRun: bool, log: seq<Command>, probe: Probe)
    ensures var r := PartitionStep(startSector, endSector, partitionSize, typeCode, partitionLabel,
                                   partitionNumber, devicePath, dryRun, log, probe);
      && Consistent(r.state) && r.state.filesystem == None && r.state.encryptLabel == None
      && r.state.partitionPath == PartitionPath(devicePath, partitionNumber)
      && r.state.partitionLabel == partitionLabel && |r.log| == |log| + 2
  {
  }

  /**
   * A new array is an unformatted, unencrypted device at /dev/md/<name> labelled with its name;
   * the mdadm command comes first and names every member, in order.
   */
  lemma RaidStepConsistent(paths: seq<string>, arrayName: string, level: int, options: string, dryRun: bool,
                           log: seq<Command>, probe: Probe)
    ensures var r := RaidStep(paths, arrayName, level, options, dryRun, log, probe);
      && Consistent(r.state) && r.state.filesystem == None && r.state.encryptLabel == None
      && r.state.partitionPath == "/dev/md/" + arrayName && r.state.partitionLabel == Some(arrayName)
      && |r.log| == |log| + 2 && r.log[..|log|] == log
      && r.log[|log|] == Command(MdadmCommand(paths, arrayName, level, options), dryRun)
  {
  }

  /** An unknown kind is refused; an accepted one sets kind, label and mountpoint and re-reads the UUID. */
  lemma FormatStepFields(s: DeviceState, filesystem: string, fsLabel: Option<string>, mountpoint: Option<string>,
                         options: string, log: seq<Command>, probe: Probe)
    ensures var r := FormatStep(s, filesystem, fsLabel, mountpoint, options, log, probe);
      && (r.None? <==> filesystem !in Filesystems)
      && (r.Some? ==>
            && r.value.state.filesystem == Some(filesystem) && r.value.state.fsLabel == fsLabel
            && r.value.state.mountpoint == mountpoint && r.value.state.uuid.Some?
            && r.value.state.partitionPath == s.partitionPath && r.value.state.realPath == s.realPath
            && r.value.state.encryptLabel == s.encryptLabel && r.value.state.usesKeyfile == s.usesKeyfile
            && r.value.log[..|log|] == log
            && r.value.log[|log|..] == [Command(MkfsCommand(filesystem, fsLabel, options, s.partitionPath), s.dryRun),
                                        Command(BlkidCommand("UUID", s.partitionPath), false)]
            && (Consistent(s) ==> Consistent(r.value.state)))
  {
  }

  /**
   * After encryption the previous path is kept as the real path, the device is addressed as
   * /dev/mapper/<name>, and the keyfile flag only ever turns on. The keyfile is generated even
   * on a dry run.
   */
  lemma EncryptStepFields(s: DeviceState, mapperName: string, keyfile: bool, formatOptions: string,
                          openOptions: string, log: seq<Command>, probe: Probe)
    ensures var r := EncryptStep(s, mapperName, keyfile, formatOptions, openOptions, log, probe);
      && r.state.realPath == Some(s.partitionPath)
      && r.state.partitionPath == MapperPath(mapperName)
      && r.state.encryptLabel == Some(mapperName)
      && r.state.usesKeyfile == (s.usesKeyfile || keyfile)
      && r.state.filesystem == s.filesystem && r.state.mountpoint == s.mountpoint && r.state.uuid == s.uuid
      && r.log[..|log|] == log
      && |r.log| == |log| + (if keyfile then 4 else 3)
      && (keyfile ==> r.log[|log|] == Command(KeyfileCommand(mapperName), false))
      && Consistent(r.state) == (s.filesystem.Some? ==> s.filesystem.value in Filesystems && s.uuid.Some?)
  {
  }

  /** Nothing prevents a second encryption: it wraps the first mapper, which becomes the real path. */
  lemma EncryptTwice(s: DeviceState, first: string, second: string, log: seq<Command>, probe: Probe)
    ensures var once := EncryptStep(s, first, false, "", "", log, probe);
            var twice := EncryptStep(once.state, second, false, "", "", once.log, probe);
      && twice.state.realPath == Some(MapperPath(first))
      && twice.state.partitionPath == MapperPath(second)
      && twice.log[|once.log|..|once.log| + 1]
         == [Command(LuksFormatCommand(false, second, "", MapperPath(first)), s.dryRun)]
  {
  }

  /** `mount_filesystem` issues nothing without a filesystem, swapon for swap, else one mount -m. */
  lemma MountLogCases(s: DeviceState, overrideMount: string)
    ensures s.filesystem.None? <==> MountLog(s, overrideMount) == []
    ensures s.filesystem == Some("swap") ==> MountLog(s, overrideMount) == [Command("swapon " + s.partitionPath, s.dryRun)]
    ensures s.filesystem.Some? && s.filesystem != Some("swap") ==>
      MountLog(s, overrideMount)
        == [Command("mount -m " + s.partitionPath + " "
                    + (if overrideMount != "" then overrideMount else Show(s.mountpoint)), s.dryRun)]
  {
  }

  // ---------------------------------------------------------------------------
  // Formattable

  class Formattable {
    /** The path the device is currently addressed by. */
    var partitionPath: string
    const partitionLabel: Option<string>
    const partitionUuid: string

    var filesystem: Option<string>
    var fsLabel: Option<string>
    var mountpoint: Option<string>
    var uuid: Option<string>

    var usesKeyfile: bool
    var encryptUuid: Option<string>
    var encryptLabel: Option<string>
    /** The path before encryption; the attribute does not exist until `encrypt_partition` ran. */
    var realPath: Option<string>

    const dryRun: bool

    function State(): DeviceState
      reads this
    {
      DeviceState(partitionPath, partitionLabel, partitionUuid, filesystem, fsLabel, mountpoint, uuid,
                  usesKeyfile, encryptUuid, encryptLabel, realPath, dryRun)
    }

    /** `Partition.__init__`: run sgdisk on the drive, then read the new partition's PARTUUID. */
    constructor Partition(startSector: string, endSector: string, partitionSize: string, typeCode: string,
                          partitionLabel: Option<string>, partitionNumber: nat, devicePath: string,
                          dryRun: bool, shell: Shell)
      modifies shell
      ensures Step(State(), shell.log)
           == PartitionStep(startSector, endSector, partitionSize, typeCode, partitionLabel, partitionNumber,
                            devicePath, dryRun, old(shell.log), shell.probe)
    {
      shell.Run(SgdiskCommand(startSector, endSector, partitionSize, typeCode, partitionLabel,
                              partitionNumber, devicePath), dryRun);
      var path := PartitionPath(devicePath, partitionNumber);
      var partUuid := shell.Blkid("PARTUUID", path);
      partitionPath := path;
      this.partitionLabel := partitionLabel;
      this.partitionUuid := partUuid;
      filesystem, fsLabel, mountpoint, uuid := None, None, None, None;
      usesKeyfile, encryptUuid, encryptLabel, realPath := false, None, None, None;
      this.dryRun := dryRun;
    }

    /** `RaidArray.__init__`: run mdadm over the members, then address the array as /dev/md/<name>. */
    constructor RaidArray(members: seq<Formattable>, arrayName: string, level: int, options: string,
                          dryRun: bool, shell: Shell)
      modifies shell
      ensures Step(State(), shell.log)
           == RaidStep(old(PathsOf(members)), arrayName, level, options, dryRun, old(shell.log), shell.probe)
    {
      shell.Run(MdadmCommand(PathsOf(members), arrayName, level, options), dryRun);
      var path := "/dev/md/" + arrayName;
      var partUuid := shell.Blkid("PARTUUID", path);
      partitionPath := path;
      partitionLabel := Some(arrayName);
      partitionUuid := partUuid;
      filesystem, fsLabel, mountpoint, uuid := None, None, None, None;
      usesKeyfile, encryptUuid, encryptLabel, realPath := false, None, None, None;
      this.dryRun := dryRun;
    }

    /**
     * `new_filesystem`: an unknown kind stops the program before anything happens; otherwise
     * format the device and record kind, label and mountpoint, then re-read the UUID.
     */
    method NewFilesystem(filesystem: string, fsLabel: Option<string>, mountpoint: Option<string>,
                         options: string, shell: Shell) returns (ok: bool)
      modifies this, shell
      ensures var r := FormatStep(old(State()), filesystem, fsLabel, mountpoint, options, old(shell.log), shell.probe);
        && ok == r.Some?
        && (ok ==> Step(State(), shell.log) == r.value)
        && (!ok ==> State() == old(State()) && shell.log == old(shell.log))
    {
      if filesystem !in Filesystems {
        return false;
      }
      var mkfsCommand :=
        if filesystem == "efi" then "mkfs.vfat -F32 -n"
        else if filesystem == "swap" then "mkswap -L"
        else "mkfs." + filesystem + " -L";
      mkfsCommand := mkfsCommand + " " + Show(fsLabel);
      mkfsCommand := mkfsCommand + " " + options;
      mkfsCommand := mkfsCommand + " " + partitionPath;
      shell.Run(mkfsCommand, dryRun);
      this.filesystem := Some(filesystem);
      this.fsLabel := fsLabel;
      this.mountpoint := mountpoint;
      var u := shell.Blkid("UUID", partitionPath);
      uuid := Some(u);
      ok := true;
    }

    /**
     * `encrypt_partition`: optionally write a keyfile (always for real), luksFormat and luksOpen
     * the device, then address it through its mapper. Nothing prevents doing this twice.
     */
    method EncryptPartition(mapperName: string, keyfile: bool, formatOptions: string, openOptions: string,
                            shell: Shell)
      modifies this, shell
      ensures Step(State(), shell.log)
           == EncryptStep(old(State()), mapperName, keyfile, formatOptions, openOptions, old(shell.log), shell.probe)
    {
      ghost var before := State();
      if keyfile {
        shell.Run(KeyfileCommand(mapperName), false);
        usesKeyfile := true;
      }
      shell.Run(LuksFormatCommand(keyfile, mapperName, formatOptions, partitionPath), dryRun);
      shell.Run(LuksOpenCommand(keyfile, mapperName, openOptions, partitionPath), dryRun);
      assert shell.log == old(shell.log) + EncryptCommands(before, mapperName, keyfile, formatOptions, openOptions);
      realPath := Some(partitionPath);
      partitionPath := MapperPath(mapperName);
      var u := shell.Blkid("UUID", partitionPath);
      encryptUuid := Some(u);
      encryptLabel := Some(mapperName);
    }

    /** `mount_filesystem`: nothing without a filesystem, swapon for swap, otherwise mount -m. */
    method MountFilesystem(overrideMount: string, shell: Shell)
      modifies shell
      ensures shell.log == old(shell.log) + MountLog(State(), overrideMount)
    {
      match filesystem {
        case None =>
          return;
        case Some(kind) =>
          if kind == "swap" {
            shell.Run("swapon " + partitionPath, dryRun);
          } else {
            shell.Run("mount -m " + partitionPath + " "
                        + (if overrideMount != "" then overrideMount else Show(mountpoint)), dryRun);
          }
      }
    }
  }

  /** The current paths of a list of devices. */
  function PathsOf(members: seq<Formattable>): (paths: seq<string>)
    reads members
    ensures |paths| == |members|
    ensures forall i :: 0 <= i < |members| ==> paths[i] == members[i].partitionPath
  {
    seq(|members|, i reads members requires 0 <= i < |members| => members[i].partitionPath)
  }

  // ---------------------------------------------------------------------------
  // Drive

  class Drive {
    const devicePath: string
    const isGpt: bool
    var numberOfPartitions: nat
    var partitions: map<string, Formattable>

    constructor (devicePath: string, gpt: bool)
      ensures this.devicePath == devicePath && isGpt == gpt
      ensures numberOfPartitions == 0 && partitions == map[]
    {
      this.devicePath := devicePath;
      isGpt := gpt;
      numberOfPartitions := 0;
      partitions := map[];
    }

    /** `new_partition`: take the next slot number and store the new partition under `uid`. */
    method NewPartition(startSector: string, endSector: string, partitionSize: string, typeCode: string,
                        partitionLabel: Option<string>, uid: string, dryRun: bool, shell: Shell)
      modifies this, shell
      ensures numberOfPartitions == old(numberOfPartitions) + 1
      ensures uid in partitions && fresh(partitions[uid])
      ensures partitions == old(partitions)[uid := partitions[uid]]
      ensures Step(partitions[uid].State(), shell.log)
           == PartitionStep(startSector, endSector, partitionSize, typeCode, partitionLabel, numberOfPartitions,
                            devicePath, dryRun, old(shell.log), shell.probe)
    {
      numberOfPartitions := numberOfPartitions + 1;
      var p := new Formattable.Partition(startSector, endSector, partitionSize, typeCode, partitionLabel,
                                         numberOfPartitions, devicePath, dryRun, shell);
      partitions := partitions[uid := p];
    }

    /** `__getitem__`: the partition stored under `uid`, or None where Python raises KeyError. */
    function Get(uid: string): (r: Option<Formattable>)
      reads this
      ensures r.Some? <==> uid in partitions
      ensures r.Some? ==> r.value == partitions[uid]
    {
      if uid in partitions then Some(partitions[uid]) else None
    }
  }
}
