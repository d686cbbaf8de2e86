# Excalibur installer core, modelled in Dafny

Excalibur installs Arch Linux from one YAML configuration. It partitions the drives with
`sgdisk`, assembles RAID arrays with `mdadm`, encrypts devices with `cryptsetup`, creates
filesystems (including btrfs volumes and their subvolumes), mounts everything below `/mnt` in an
order where parents come first, and bootstraps the new root with `pacstrap`. It then configures
the new system from inside a `chroot`.

This project models the decision logic of that core and proves properties about it. Nothing is
executed:

- **Commands.** A command is a `Command(line, dryRun)` appended to the log of a `Commands.Shell`.
  The only command whose output the core reads is `blkid`. Its answer comes from an oracle
  (`probe`) that sees the log so far.
- **Dictionaries.** Python dictionaries keep insertion order, and the installer depends on that
  order. A dictionary is an association list (`Registry.Entries`) with `Keys`, `Lookup` and
  `Put`: `Put` overwrites in place or appends.
- **Objects.** Objects the source updates in place are classes whose methods state their whole
  new state: `Devices.Formattable`, `Devices.Drive`, `Btrfs.Volume`, `InChroot.Chroot`,
  `ConfigUtils.Config`, `DriveConfigs.Outputs` and `Installer.Excalibur`.
- **Stages.** Each stage loop of `Excalibur` (new_main.py) and of `main` (main.py) is specified
  by a fold over the configuration section (`Stages.Run`). The fold stops at the first entry
  whose action fails, where the program exits or raises. The class methods are proved equal to
  those folds, seen through the states of the device objects (`Installer.Snapshot`). The folds'
  properties are proved as lemmas in `Pipeline`.
- **Text.** Text handling (`split`, `join`, `strip`, `lower`, `replace`, `readlines`) is in
  `Text`, with round-trip lemmas. Files the chroot step reads and writes are a map from path to
  contents.

Modules follow the source files:

| module | source file |
|---|---|
| `Commands` | scripts/command_utils.py |
| `Devices` | scripts/drive_utils.py |
| `Btrfs` | scripts/btrfs.py |
| `ConfigUtils` | scripts/config_utils.py |
| `MergeDefault` | scripts/merge_default.py |
| `DriveConfigs` | scripts/drive_configs.py |
| `Clock` | scripts/clock.py |
| `Pacstrap` | scripts/pacstrap.py |
| `InChroot` | scripts/chroot.py |
| `Pipeline`, `Crypts`, `Installer` | new_main.py |
| `Legacy` | main.py |

`Stages`, `StableSort` (Python's `sorted` with a key), `Registry`, `Text` and `Wrappers` are
shared helpers.

## Model

| member | source | states |
|---|---|---|
| `Commands.Shell.constructor` | scripts/command_utils.py:30-37 | A fresh shell has run nothing yet and answers `blkid` with the given oracle. |
| `Commands.Shell.Run` | scripts/command_utils.py:71-73 | Running or printing a command appends exactly that line and its dry-run flag to the log. |
| `Commands.Shell.Blkid` | scripts/drive_utils.py:36-38 | `blkid -s ELEMENT -o value PATH` is logged as a real run (never dry), and its value is the oracle's answer for the log before it. |
| `Commands.DecodePipeMode` | scripts/command_utils.py:75-84 | The loop over the pipe options pipes stdout, stderr and stdin exactly when bit 4, 2 and 1 respectively are set in `pipe_mode`. |
| `Commands.DecodeMask` | scripts/command_utils.py:17-21 | Every choice of piped streams has a mode that decodes back to it. |
| `Commands.MaskDecode` | scripts/command_utils.py:17-21 | Every mode from 0 to 7 is the mask of the streams it pipes, so the three bits are independent. |
| `Commands.DefaultPipesStderrOnly` | scripts/command_utils.py:32 | The default mode pipes only stderr, and mode 7 pipes all three streams. |
| `Commands.OutcomeCases` | scripts/command_utils.py:71-109 | A dry run returns nothing, exactly. A run that is not waited for returns the process, exactly. `CommandFailedException` is raised exactly when the process was waited for, errors are printed, stderr is piped, the status is non-zero and the answer is empty, `n` or `N`. Otherwise the result holds the stdout and stderr texts exactly for the piped streams. |
| `Commands.Execute` | scripts/command_utils.py:30-109 | `execute` logs the command once, with its dry-run flag, and returns the outcome that `OutcomeCases` characterises. |
| `Devices.PartitionPathInjective` | scripts/drive_utils.py:183-188 | Different partition numbers on one disk give different partition paths, with or without the `p` separator that disks ending in a digit get. |
| `Devices.PartitionPathExamples` | scripts/drive_utils.py:183-188 | `/dev/sda` partition 2 is `/dev/sda2`, and `/dev/nvme0n1` partitions 2 and 12 are `/dev/nvme0n1p2` and `/dev/nvme0n1p12`. |
| `Devices.SgdiskSplitsIntoWords` | scripts/drive_utils.py:193-198 | With space-free fields, the `sgdisk` line splits into exactly its intended words: `-n N:start:end` (or `:+size`), the optional `-t` and quoted `-c` arguments, then the disk. |
| `Devices.MdadmSplitsIntoWords` | scripts/drive_utils.py:155-168 | With space-free names and paths, the `mdadm --create` line splits into its flags, the array path, each member path in order, and the trailing empty word the loop's final space leaves. |
| `Devices.MkfsSplitsIntoWords` | scripts/drive_utils.py:51-65 | With space-free fields, the mkfs line splits into the program words for its kind (`mkfs.vfat -F32 -n` for efi, `mkswap -L` for swap, `mkfs.KIND -L` otherwise), then label, options and device. |
| `Devices.KeyfileNeverRead` | scripts/drive_utils.py:89-92 | The keyfile that `dd` writes (`/tmp/NAME.key`) is never the path `cryptsetup --key-file` reads (`/root/ramfs/NAME.key`), for any two mapper names. |
| `Devices.PartitionStepConsistent` | scripts/drive_utils.py:174-211 | A new partition is at the path `PartitionPath` numbers, keeps its label, has no filesystem and no encryption, its state is consistent, and two commands were logged: `sgdisk` and `blkid`. |
| `Devices.RaidStepConsistent` | scripts/drive_utils.py:132-168 | A new array lives at `/dev/md/NAME`, is labelled NAME, has no filesystem and no encryption, and logs the `mdadm` command (then `blkid`) after the earlier log. |
| `Devices.FormatStepFields` | scripts/drive_utils.py:42-73 | Formatting fails exactly for a kind outside `FILESYSTEMS`. On success it records kind, label, mountpoint and a UUID, keeps the device path and encryption fields, appends exactly the mkfs command and `blkid UUID`, and keeps the state consistent. |
| `Devices.EncryptStepFields` | scripts/drive_utils.py:77-113 | Encryption moves the device to `/dev/mapper/NAME`, remembers the old path as the real path, records the mapper name, sets the keyfile flag when asked, and logs four commands with a keyfile (`dd` first) or three without. The filesystem fields are unchanged. |
| `Devices.EncryptTwice` | scripts/drive_utils.py:110-113 | Encrypting an already encrypted device formats the first mapper device, and the real path becomes the first mapper path. |
| `Devices.MountLogCases` | scripts/drive_utils.py:117-126 | An unformatted device logs nothing. Swap logs `swapon PATH`. Anything else logs `mount -m PATH TARGET`, where TARGET is the override when it is non-empty and the mountpoint otherwise. |
| `Devices.Formattable.Partition` | scripts/drive_utils.py:174-211 | Constructing a partition leaves the state and log that `PartitionStep` describes. |
| `Devices.Formattable.RaidArray` | scripts/drive_utils.py:132-168 | Constructing an array from member objects leaves the state and log of `RaidStep` over the members' paths. |
| `Devices.Formattable.NewFilesystem` | scripts/drive_utils.py:42-73 | `new_filesystem` succeeds exactly when `FormatStep` does and then has its effect. On an invalid kind, nothing changes and nothing is logged (the program exits). |
| `Devices.Formattable.EncryptPartition` | scripts/drive_utils.py:77-113 | `encrypt_partition` has exactly the effect of `EncryptStep`. |
| `Devices.Formattable.MountFilesystem` | scripts/drive_utils.py:117-126 | `mount_filesystem` appends exactly `MountLog` of the device's state. |
| `Devices.Drive.constructor` | scripts/drive_utils.py:217-223 | A new drive has its path and GPT flag, no partitions, and a partition count of 0. |
| `Devices.Drive.NewPartition` | scripts/drive_utils.py:227-246 | The partition count grows by one, and a fresh partition numbered with the new count is stored under the uid (replacing any earlier one). The other uids are unchanged. |
| `Devices.Drive.Get` | scripts/drive_utils.py:250-251 | `drive[uid]` finds the partition stored under `uid`, and fails exactly when there is none. |
| `Btrfs.BuildMkfs` | scripts/btrfs.py:19-35 | The `mkfs.btrfs` line is the space-join of the program, `-d`/`-m`/`-L` only for non-empty values, the options when non-empty, and each device path in order. |
| `Btrfs.MkfsSplits` | scripts/btrfs.py:19-35 | With space-free values, the `mkfs.btrfs` line splits back into exactly those words. |
| `Btrfs.MountpointOf` | scripts/btrfs.py:89-93 | `get_mountpoint` is `None` for an unknown subvolume and the stored mountpoint for a known one. |
| `Btrfs.CreateFromEmpty` | scripts/btrfs.py:50-85 | On an empty table, when the first segment does not recur, the walk creates every ancestor (the first segment, then each joined prefix) as a bare subvolume and the full path with its settings, in that order. Afterwards `get_mountpoint` answers the requested mountpoint. |
| `Btrfs.IntendedCreate` | scripts/btrfs.py:50-85 | The corrected walk keeps every existing entry and its settings, ends with every ancestor key present, creates only keys that were absent, and records the mountpoint of a new path. |
| `Btrfs.WalkKeeps` | scripts/btrfs.py:64-80 | When membership is tested on the stored key, existing entries keep their values and the table stays a dictionary. |
| `Btrfs.WalkStores` | scripts/btrfs.py:64-80 | When membership is tested on the stored key, every key of the walk is present afterwards. |
| `Btrfs.WalkNew` | scripts/btrfs.py:64-80 | A `btrfs subvolume create` is issued only for keys of this walk that were not in the table. |
| `Btrfs.WalkOrigin` | scripts/btrfs.py:64-80 | After any walk, every key was either there before or is one this walk created. |
| `Btrfs.RecreatesAncestor` | scripts/btrfs.py:64 | As written: after `a/b` is created, creating `a/b/c` issues `btrfs subvolume create` for `a/b` again and overwrites its mountpoint with `None`. |
| `Btrfs.KeepsAncestor` | scripts/btrfs.py:64 | Corrected: creating `a/b/c` after `a/b` creates only `a/b/c`, and `a/b` keeps its settings. |
| `Btrfs.SkipsRepeatedName` | scripts/btrfs.py:64 | As written: for `a/a` the second segment is found as the bare `a`, so `a/a` is never created and has no mountpoint. |
| `Btrfs.StoresRepeatedName` | scripts/btrfs.py:64 | Corrected: `a/a` creates `a` and then `a/a` with its settings. |
| `Btrfs.MountSplits` | scripts/btrfs.py:103-118 | With space- and comma-free values, the mount line splits into `mount -m -o FIELD DEVICE TARGET`. The option field splits at commas into `subvol=`, the optional `compress=` and the mount options. |
| `Btrfs.OptionsField` | scripts/btrfs.py:108-112 | The `-o` field is the comma-join of `subvol=PATH`, `compress=C` only for a truthy compression, and each mount option only when the list is non-empty. |
| `Btrfs.SubvolumeMountCommand` | scripts/btrfs.py:108-116 | The mount line is the space-join of `mount -m -o`, the option field, `/dev/disk/by-uuid/UUID` and override plus mountpoint. |
| `Btrfs.Volume.constructor` | scripts/btrfs.py:19-46 | Creating a volume logs the one `mkfs.btrfs` line over the device paths. It takes the first device's UUID and starts with no subvolumes. |
| `Btrfs.Volume.CreateSubvolume` | scripts/btrfs.py:50-85 | `create_subvolume` leaves the table and the log exactly as the corrected walk (`CreatedIntended`) says. It issues one `btrfs subvolume create TARGET/KEY` per created key, in order. |
| `Btrfs.Volume.MountSubvolume` | scripts/btrfs.py:97-120 | Nothing is logged when the subvolume has no truthy mountpoint. Otherwise exactly its mount line is logged. |
| `Clock.Configure` | scripts/clock.py:4-29 | The `ln -sf` line is printed exactly for a truthy timezone, then the `hwclock --systohc` line (with `--utc` exactly when hardware UTC is set), then `systemctl enable systemd-timesyncd` last exactly when NTP is enabled. |
| `Clock.TimezoneWords` | scripts/clock.py:8-15 | A space-free timezone gives an `ln` line that splits back into its four words. |
| `Pacstrap.KernelCommand` | scripts/pacstrap.py:57-66 | The kernel part is `linux linux-headers` for the default kernel, `linux-K linux-K-headers` for a listed kernel K, and a bare `linux` with a warning naming K for any other K. |
| `Pacstrap.BuildCommand` | scripts/pacstrap.py:57-91 | The whole `pacstrap` line is the space-join of the intended word list, with the same warning condition. |
| `Pacstrap.Pacstrap` | scripts/pacstrap.py:45-93 | `pacstrap` logs exactly that line, once, with its dry-run flag. |
| `Pacstrap.CommandStartsWithBase` | scripts/pacstrap.py:57 | Every line starts with `pacstrap TARGET base base-devel`, followed by the kernel words. |
| `Pacstrap.KernelWords` | scripts/pacstrap.py:61-66 | The kernel words in each of the three kernel cases, as for `KernelCommand`. |
| `Pacstrap.DefaultWords` | scripts/pacstrap.py:45-54 | With the default arguments (also what `bootstrap_newroot` and `main` use), the words are `pacstrap /mnt base base-devel linux linux-headers linux-firmware grub efibootmgr networkmanager openssh reflector`. |
| `Pacstrap.WordCount` | scripts/pacstrap.py:69-91 | The word count is five, plus one for a known or default kernel, plus one per enabled optional package. |
| `Pacstrap.CommandWords` | scripts/pacstrap.py:57-93 | With space-free arguments, the line splits back into exactly its words. |
| `Pipeline.ConfirmedAnswers` | new_main.py:169-173 | `confirm_partitions` continues exactly on `y` or `Y`. |
| `Pipeline.PartitionNumbering` | new_main.py:189-202 | For each drive, the j-th configured partition (unless its uid recurs later) ends up registered with partition number j + 1, its label, no filesystem, no encryption and the run's dry-run flag. |
| `Pipeline.DrivePartitionsKeys` | new_main.py:189-202 | Partitioning one drive keeps earlier uids, registers every partition uid and keeps the registry a dictionary. |
| `Pipeline.EveryPartitionRegistered` | new_main.py:177-204 | After `partition_drives`, every partition uid of every drive is registered. The earlier uids stay, and the registry stays a dictionary. |
| `Pipeline.RaidSucceedsIff` | new_main.py:215-224 | `setup_raid_arrays` gets through exactly when every member uid names a device registered before that array, counting earlier arrays. Otherwise `self.devices[raid_device_uid]` raises. |
| `Pipeline.RaidRegistered` | new_main.py:215-224 | After a complete stage, each array uid (unless it recurs later) holds the `RaidStep` state over its members' paths at that point: path `/dev/md/NAME`, label NAME, unformatted and unencrypted. |
| `Pipeline.SecondEarlyIff` | new_main.py:241-245 | The stage meets a second load-early device exactly when more than one early device is asked for, counting one already chosen. |
| `Pipeline.SecondEarlyIsEarly` | new_main.py:241-245 | The entry that stops the stage is itself load-early, and an early device precedes it or was already chosen. |
| `Pipeline.EncryptCompletesIff` | new_main.py:236-239 | The encryption loop, read without the early check, gets through exactly when every uid is registered. It never adds or removes uids. |
| `Pipeline.CryptOkIff` | new_main.py:230-251 | `encrypt_partitions` gets through exactly when every uid is registered and at most one device is load-early, counting an already chosen one. The registry's uids never change. |
| `Pipeline.SecondEarlyAfterEncrypting` | new_main.py:236-245 | The second load-early device has already been encrypted (mapper path, mapper label) when the program exits on it. |
| `Pipeline.EncryptRegistered` | new_main.py:236-239 | After a complete stage, each crypt uid (unless it recurs later) is at `/dev/mapper/LABEL`, carries its crypt label and remembers its real path. |
| `Pipeline.EarlyLateDisjoint` | new_main.py:241-249 | No device is both the early-crypt device and a late-crypt device. |
| `Pipeline.FormatSucceedsIff` | new_main.py:255-266 | `create_filesystems` gets through exactly when every uid is registered and every kind is valid. Formatting never changes the set of uids. |
| `Pipeline.FormatRegistered` | new_main.py:255-266 | After a complete stage, each formatted uid (unless it recurs later) carries its kind, label, mountpoint and a UUID at its unchanged device path. |
| `Pipeline.MountOrderIsPermutation` | new_main.py:268 | The mount order lists every registry position exactly once. |
| `Pipeline.SortViewSorted` | new_main.py:268 | After sorting, `sort_by_mountpoint` keys never decrease. |
| `Pipeline.SortViewStable` | new_main.py:268 | Devices with equal keys keep their registry order, because Python's sort is stable. |
| `Pipeline.MountKeyGrows` | new_main.py:98-116 | A non-swap device mounted below a mounted parent's directory gets a strictly larger key than the parent. |
| `Pipeline.ParentMountsFirst` | new_main.py:98-116 | In sorted order, a device mounted inside another one's directory comes after it. This is the property `sort_by_mountpoint` exists for. |
| `Pipeline.RootMountsFirst` | new_main.py:98-116 | In sorted order, the root filesystem comes before every other mounted non-swap device. |
| `Pipeline.MountSpecAppend` | new_main.py:272-274 | Mounting a registry split in two logs the first part's mounts, then the second's. |
| `Pipeline.UnsetMountpointMountsAtMntNone` | new_main.py:272-274 | A formatted non-swap device without a mountpoint is mounted at `/mntNone`, because `None` is formatted into the target. |
| `Crypts.ClassifiedEarly` | new_main.py:241-247 | A load-early device, when none was chosen, becomes the early-crypt device, and the classification stays in step with the configuration. |
| `Crypts.ClassifiedLate` | new_main.py:248-249 | A device that is not load-early is appended to the late-crypt list. |
| `Crypts.ProgressDone` | new_main.py:230-251 | When the encryption loop has walked every entry, the registry and log are the stage specification's. The early device and the late list are the devices of the configuration's load-early uid and other uids, in order. |
| `Stages.RunAppend` | new_main.py:177-268 | Running a stage over two parts of a section is running it over the first and, only if that got through, over the second. |
| `Stages.RunKeys` | new_main.py:177-268 | A stage keeps every registered uid and adds only uids of its section. When it gets through, every uid of the section is registered. |
| `Stages.RunOthers` | new_main.py:177-268 | A stage leaves every uid outside its section exactly as it was. |
| `Stages.RunStops` | new_main.py:177-268 | The first failing entry ends the stage with the registry and log as they were before that entry. |
| `Stages.RunSplit` | new_main.py:177-268 | A stage that got through also got through every prefix, and its remainder continues from there. |
| `Stages.RunEntry` | new_main.py:177-268 | After a complete stage, a uid that does not recur later holds what its own entry's action produced. |
| `Stages.RunTotal` | new_main.py:189-202 | A stage whose action never fails, such as partitioning, always gets through. |
| `Installer.Excalibur.constructor` | new_main.py:53-64 | A new installer starts with no drives, an empty registry, no arrays and no crypt devices. |
| `Installer.Excalibur.PartitionDrives` | new_main.py:177-204 | `partition_drives` leaves the registry and log exactly as `PartitionSpec` says. The drive table gains exactly the configured drive names. |
| `Installer.Excalibur.SetupRaidArrays` | new_main.py:208-226 | `setup_raid_arrays` leaves the registry, the log and the success flag exactly as `RaidSpec` says. It only appends to the array list, with one entry per array when it gets through. |
| `Installer.Excalibur.EncryptPartitions` | new_main.py:230-251 | `encrypt_partitions` leaves the registry states, the log and the success flag exactly as `CryptSpec` says. It never changes the registry's entries. On success the early device and late list are classified as in `Crypts.Classified`. |
| `Installer.Excalibur.CreateFilesystems` | new_main.py:255-268 | `create_filesystems` leaves the log and the success flag as `FormatSpec` says. The registry is the formatted registry, re-ordered by `sort_by_mountpoint` when the stage got through. |
| `Installer.Excalibur.SortDevices` | new_main.py:268 | The registry is re-ordered by the stable mount order. Every entry is the same object as the entry at its old position. |
| `Installer.Excalibur.MountFilesystems` | new_main.py:272-274 | `mount_filesystems` logs the mounts of every registered device, in registry order, at `/mnt` plus its mountpoint. |
| `Installer.Excalibur.BootstrapNewroot` | new_main.py:278-280 | `bootstrap_newroot` logs the default `pacstrap` line with the installer's dry-run flag. |
| `Legacy.SortKeyCases` | main.py:42-58 | The older `sort_by_mountpoint` is -1 exactly for a device without a mountpoint or a swap device not at `/`, 0 exactly for `/`, and at least 1 otherwise. |
| `Legacy.InstallRegisters` | main.py:73-144 | When `main` gets through, every configured partition uid and every array uid is registered, and the registry is a dictionary. |
| `Legacy.InstallMountOrder` | main.py:128-144 | When `main` gets through, the mounted sequence is the formatted registry in stable `sort_by_mountpoint` order, and the last command is the default dry-run `pacstrap`. |
| `Legacy.InstallStopsAtMissingMember` | main.py:106-117 | An array naming an unregistered member stops `main` in the RAID stage. Nothing is mounted, and the log ends with that stage's commands. |
| `StableSort.Sort` | main.py:58 | The sorted sequence is a permutation of its input, ordered by key. |
| `StableSort.SortStable` | main.py:58 | For every key, the elements with that key keep their input order. |
| `StableSort.SmallerKeyFirst` | main.py:58 | An element with a smaller key comes first. |
| `StableSort.SortDistinct` | main.py:58 | Sorting keeps distinct identities distinct. |
| `StableSort.SortKeepsTies` | main.py:58 | Sorting positions by key keeps equal keys in increasing position order. |
| `ConfigUtils.Iterate` | scripts/config_utils.py:17-20 | Iterating a `Choice` yields the default first, then each choice in order. A value is `in` the choice exactly when it equals one of the yielded values. |
| `ConfigUtils.DefaultIsValid` | scripts/config_utils.py:12-20 | A choice's given default is always one of its valid values. |
| `ConfigUtils.FillShape` | scripts/config_utils.py:218-239 | `fill_defaults` keeps the dictionary in front and appends the inserted defaults. What it records is exactly the missing or invalid options. |
| `ConfigUtils.RecordedHas` | scripts/config_utils.py:224-237 | A key path is recorded exactly when some option of the table is required but missing, or present with a value outside its choice. |
| `ConfigUtils.FillOption` | scripts/config_utils.py:224-237 | There are three cases per option. Missing and required: recorded and left absent. Missing with a default: the default is inserted and nothing is recorded. Present: kept as it was, and recorded exactly when it is a choice and the value is not among its values. |
| `ConfigUtils.FillKeepsPresent` | scripts/config_utils.py:218-239 | Filling never changes or reorders a key that was present. |
| `ConfigUtils.FillErrorsInOrder` | scripts/config_utils.py:224-237 | Every recorded path is the key path followed by one option of the table, in table order. |
| `ConfigUtils.PasswordHoldersIff` | scripts/config_utils.py:151-155 | A name is in the password warnings exactly when its raw entry sets `password`. |
| `ConfigUtils.SectionWarnings` | scripts/config_utils.py:151-161 | The warnings of the crypt (and user) loop are the entries that set `password`, in section order. |
| `ConfigUtils.SectionKeys` | scripts/config_utils.py:151-161 | The filled section has exactly the names of the raw section. |
| `ConfigUtils.FilledTablesHavePassword` | scripts/config_utils.py:151-198 | After filling, every crypt device and every user has a `password`, because both tables give it a default. |
| `ConfigUtils.Config.FillDefaults` | scripts/config_utils.py:218-239 | `fill_defaults` returns the filled dictionary and appends exactly its recorded key paths to `missing_required`. |
| `ConfigUtils.Config.FillSection` | scripts/config_utils.py:151-161 | The crypt loop (and the identical user loop at lines 188-198) returns the filled section and its password warnings, and appends each entry's recorded paths in order. |
| `MergeDefault.Merge` | scripts/merge_default.py:21-28 | `merge` inserts each missing option's default in table order. |
| `MergeDefault.MergeKeeps` | scripts/merge_default.py:21-28 | Merging keeps the original dictionary in front, unchanged, including keys the table does not name. |
| `MergeDefault.MergeFills` | scripts/merge_default.py:21-28 | A missing option holds its table default afterwards. |
| `MergeDefault.MergeCompletes` | scripts/merge_default.py:21-28 | Afterwards every option of the table is present. |
| `MergeDefault.MergeIdempotent` | scripts/merge_default.py:21-28 | Merging twice is merging once. |
| `MergeDefault.MergeEmpty` | scripts/merge_default.py:6-18 | An empty partition or drive entry becomes the whole table. |
| `MergeDefault.MergeIsFill` | scripts/merge_default.py:21-28 | `merge` is `fill_defaults` on a table without required or choice options: the same dictionary, with nothing recorded. |
| `DriveConfigs.SgdiskShape` | scripts/drive_configs.py:14-29 | The `sgdisk` argument list starts with the program and ends with the disk. The i-th partition contributes exactly `-n N:start:end -t N:type -c N:label` with N = i + 1. |
| `DriveConfigs.Outputs.Partition` | scripts/drive_configs.py:10-31 | `partition` appends exactly one argument list, the one `SgdiskShape` describes, to `command_output`. |
| `DriveConfigs.Format` | scripts/drive_configs.py:34-47 | An unknown kind exits with status 1. A known kind prints `mkfs.KIND OPTIONS -n/-L LABEL` (`-n` for vfat), and with space-free fields the printed line splits back into those four words. |
| `InChroot.WrapQuotes` | scripts/chroot.py:72-100 | Wrapping a command for the chroot adds exactly two single quotes around it. |
| `InChroot.SplitFirst` | scripts/chroot.py:140-142 | The group name taken from a line is its longest prefix without `:`. |
| `InChroot.UncommentLine` | scripts/chroot.py:183-184 | Replacing `#LOCALE` uncomments a commented locale line. |
| `InChroot.NoHashUnchanged` | scripts/chroot.py:183-184 | Text without `#` is left unchanged by the replacement. |
| `InChroot.ReplaceLineByLine` | scripts/chroot.py:183-184 | For a pattern without a newline, replacing in a whole file is replacing in each line. |
| `InChroot.GroupsAdded` | scripts/chroot.py:260-268 | After the group loop, the known groups are the system groups followed by each new configured group, once. Every configured group is present, and nothing else was added. One `usermod` runs per configured group, plus one `groupadd` per new group. |
| `InChroot.SudoersCases` | scripts/chroot.py:274-281 | A sudoers drop-in is written exactly for a truthy `sudo`. It is the `NOPASSWD` rule exactly for `sudo: nopass`. |
| `InChroot.CrypttabRunsTogether` | scripts/chroot.py:295-305 | As written: two devices without keyfiles produce one crypttab line, because the newline is only written after a keyfile column. |
| `InChroot.CrypttabOneLinePerDevice` | scripts/chroot.py:295-305 | Corrected: each device adds exactly one line to a crypttab that ends in a newline. |
| `InChroot.CrypttabColumns` | scripts/chroot.py:295-305 | The entry splits at tabs into the mapper name, `UUID=...` and, with a keyfile, `/etc/cryptsetup-keys.d/NAME.key`. |
| `InChroot.KernelParamWords` | scripts/chroot.py:376-382 | The kernel parameters are `root=UUID=...` and, for a non-empty subvolume, `rootflags=subvol=...`. |
| `InChroot.EfistubUnbalanced` | scripts/chroot.py:473 | As written: the wrapped `efibootmgr` command holds three single quotes, so the shell sees an unterminated string. |
| `InChroot.EfistubBalanced` | scripts/chroot.py:473 | Corrected: with the loader path's quote closed, the wrapped command holds four quotes. |
| `InChroot.StripHelperName` | scripts/chroot.py:357 | `strip('-bin')` removes a trailing run of the characters `-`, `b`, `i` and `n` from a name that neither starts nor ends with one of them. |
| `InChroot.HelperPrograms` | scripts/chroot.py:357 | For `paru`, `yay` and their `-bin` variants, stripping gives the program name. |
| `InChroot.ExitCleansUp` | scripts/chroot.py:490-505 | `exit` runs 7 commands when an AUR helper was enabled and 5 otherwise. The helper case starts with `userdel aurbuilder` and the removal of its sudoers file. Then the mkinitcpio hook override is removed, and the last four commands are `umount -R` of the new root's `/proc/`, `/sys/`, `/dev/` and `/run/`, in that order. |
| `InChroot.ExitUndoesInit` | scripts/chroot.py:24-56 | `exit` undoes `__init__`: the hook file `__init__` touches is the one `exit` removes, and every directory `__init__` mounts is, or lies under, one that `exit` unmounts recursively. |
| `InChroot.Chroot.constructor` | scripts/chroot.py:24-63 | A new chroot session logs the eight API mounts, the `resolv.conf` copy, the hooks `mkdir -p` and the hook `touch`, in that order and with its dry-run flag. It installs with `pacman`, and its groups are those listed in the target's `/etc/group`. |
| `InChroot.Chroot.Wrap` | scripts/chroot.py:72-100 | `__wrap_chroot` logs one command: `chroot TARGET su USER -c '...'` for a given user, `chroot TARGET sh -c '...'` otherwise. |
| `InChroot.Chroot.WrapAll` | scripts/chroot.py:72-100 | Wrapping several commands logs each wrapped command in order. |
| `InChroot.Chroot.ConfigureLocales` | scripts/chroot.py:173-194 | `locale.gen` has each configured locale uncommented, `locale-gen` runs, and `locale.conf` is `LANG=...`. |
| `InChroot.Chroot.ConfigureUser` | scripts/chroot.py:224-281 | The account commands run first: `useradd`; then, for a non-empty shell, a `pacman -S` of the shell only when `/etc/shells` does not list it, and `usermod -s`; then the comment. The group loop of `GroupsAdded` follows, then `passwd`. A sudoers drop-in is written as `SudoersCases` says. |
| `InChroot.Chroot.AddGroups` | scripts/chroot.py:260-268 | The group loop updates the known groups and logs its commands as `GroupsAdded` describes. |
| `InChroot.Chroot.ConfigureLateCrypt` | scripts/chroot.py:294-308 | A keyfile is copied when used, and one corrected crypttab entry is appended to `/etc/crypttab`. |
| `InChroot.Chroot.Append` | scripts/chroot.py:126-128 | Appending to a file in `a` mode extends its contents, or creates the file. |
| `InChroot.Chroot.SetDefaultKernelParams` | scripts/chroot.py:369-382 | The kernel parameters and a trailing space are appended to `/etc/kernel/cmdline`. |
| `InChroot.Chroot.ConfigureEfistub` | scripts/chroot.py:454-478 | One wrapped `efibootmgr --create` command is logged, with the loader path quoted on both sides. |
| `InChroot.Chroot.EnableAur` | scripts/chroot.py:331-348 | The installer becomes the helper, the `aurbuilder` sudoers file is written, and the user, git, clone and build commands run in order. |
| `InChroot.Chroot.InstallPackages` | scripts/chroot.py:352-359 | Packages are installed with `pacman` as root, or with the stripped helper name as `aurbuilder`. |
| `InChroot.Chroot.Exit` | scripts/chroot.py:490-505 | `exit` logs exactly the clean-up and unmount commands of `ExitCleansUp`. |
| `InChroot.GetGroups` | scripts/chroot.py:138-144 | Each line of `/etc/group` gives one group name: the part before its first `:`. |
| `InChroot.FindShell` | scripts/chroot.py:244-247 | The shell is found exactly when some line from the fourth on, stripped of whitespace, is the shell. |

## Left out

- Processes are not run. `Popen`, `communicate`, `poll`, `shlex.split`, printing and the `get_input` prompt are outside the model. The prompt's answer and the process's status and output are parameters of `Commands.Execute`.
- Every other component assumes each command returns normally. A `CommandFailedException` in the middle of a stage (the user declining to continue) is not followed through the stages.
- Passwords are not modelled: `communicate(password)` for `cryptsetup` and `passwd`, `get_password` and its retry loops, and `collect_user_passwords`/`collect_crypt_passwords`.
- YAML loading and printing, argument parsing (`__parse_args`), and the configuration load at import time in main.py are not modelled. `Config.__init__` is modelled for its crypt and user loops only; the other sections use the same `fill_defaults`.
- `ConfigUtils.PyEq` compares scalar values the Python way (`True == 1`, `False == 0`). It compares lists and dictionaries structurally, without recursing into Python equality.
- `ConfigUtils.Config.FillDefaults` returns a new association list. Python mutates and returns the same dict, and the model does not capture that aliasing.
- `Excalibur.run` is not modelled as one method. Its steps (`confirm_partitions`, the four device stages, mounting and bootstrap) are, and `Legacy.Install` composes them for main.py. Its chroot part calls methods with signatures that do not match them.
- `Installer.Excalibur.PartitionDrives`: the drive table is stated by its keys only. The `Drive` objects' partition maps are not tied to the registry.
- `Installer.Excalibur.SetupRaidArrays`: the array list is stated by its length and kept prefix. It does not say that the new entries are the registered array objects.
- `Installer.Excalibur.EncryptPartitions`: the early device and late list are stored when the loop ends. The source stores them as it goes, but a failed stage exits the program, so the difference cannot be observed.
- `Btrfs.Volume.constructor`: it requires a non-empty device list. The source raises `IndexError` on `devices[0]`, after `mkfs.btrfs` has run. `set_as_btrfs_device` (scripts/btrfs.py:38) is not part of this model, because its definition is not among the source files.
- `InChroot.Chroot.EnableAur`: the sudoers file is written between the first and second commands. The model states the file and the commands, but not their interleaving.
- `InChroot.Chroot.Wrap`: the `pipe_mode` and `wait` arguments of `__wrap_chroot` are not modelled, and neither is the password it passes to `passwd`.
- `InChroot.Chroot.constructor`: the unused `efi_dir` is not modelled.
- `chroot.py` operations outside the modelled core: `__add_hook`, `configure_clock`, `configure_hosts`, `set_hostname`, `set_root_password`, `configure_early_crypt`, `configure_raid`, `generate_initramfs`, `enable_services`, `generate_ukis`, `configure_grub` and `generate_fstab`.
- `tune_pacman` and `update_pacman` (pacstrap.py), partition_disks.py, config_clock.py and output_utils.py are not part of this model.
- `DriveConfigs.Outputs.Partition`: the unused `efi` parameter is dropped, and each `subprocess.run` result is represented by its argument list.

## Findings

| source | as written | input that shows it | evidently intended | confidence | as-written member | corrected member |
|---|---|---|---|---|---|---|
| scripts/btrfs.py:64 | `create_subvolume` tests `vol not in self.subvolumes` on the bare segment, but stores under the joined path `vol_to_add` | `create_subvolume("a/b", …)` then `create_subvolume("a/b/c", …)`; or `create_subvolume("a/a", …)` | test the key that is stored, so existing subvolumes are neither re-created nor reset, and `a/a` is created | not executed | `Btrfs.RecreatesAncestor`, `Btrfs.SkipsRepeatedName` | `Btrfs.KeepsAncestor`, `Btrfs.StoresRepeatedName`, `Btrfs.Volume.CreateSubvolume` |
| scripts/chroot.py:473 | the `--loader '` quote is never closed, so the wrapped `sh -c '…'` command has three single quotes | any `configure_efistub(disk, partition, label, kernel)` with quote-free arguments | close the quote after the executable name | not executed | `InChroot.EfistubUnbalanced` | `InChroot.EfistubBalanced`, `InChroot.Chroot.ConfigureEfistub` |
| scripts/chroot.py:295-305 | the line's newline is only written in the keyfile branch | two `configure_late_crypt` calls on devices without keyfiles | end every crypttab entry with a newline | not executed | `InChroot.CrypttabRunsTogether` | `InChroot.CrypttabOneLinePerDevice`, `InChroot.Chroot.ConfigureLateCrypt` |
