/**
 * `pacstrap` in scripts/pacstrap.py: the command that installs the base system into the new
 * root, built from a fixed base package set, a kernel choice and optional packages, and handed
 * to the command runner once.
 */
module Pacstrap {
  import opened Wrappers
  import opened Text
  import opened Commands

  /** The kernel flavours that replace the stock kernel. */
  const Kernels: seq<string> := ["zen", "hardened", "lts"]

  /** The keyword arguments of `pacstrap` other than `dry_run`. */
  datatype Options = Options(
    targetMountpoint: string,
    linuxKernel: string,
    linuxFirmware: bool,
    bootloader: Option<string>,
    efibootmgr: bool,
    networkManager: bool,
    enableSsh: bool,
    reflector: bool)

  /** The defaults, as the installer calls `pacstrap(dry_run=...)`. */
  const Defaults: Options := Options("/mnt", "", true, Some("grub"), true, true, true, true)

  /** The kernel and its headers: the stock ones, a flavour's, or the bare stock kernel for an unknown name. */
  function KernelPackages(kernel: string): seq<string>
  {
    if kernel == "" then ["linux", "linux-headers"]
    else if kernel in Kernels then ["linux-" + kernel, "linux-" + kernel + "-headers"]
    else ["linux"]
  }

  /** A package named only when its option is set. */
  function Optional(flag: bool, name: string): seq<string>
  {
    if flag then [name] else []
  }

  /** The words every command starts with: the program, the target, the base packages and the kernel packages. */
  function BaseWords(o: Options): seq<string>
  {
    ["pacstrap", o.targetMountpoint, "base", "base-devel"] + KernelPackages(o.linuxKernel)
  }

  /**
   * The words of the command line: the base words, then the optional packages in their fixed
   * order; the bootloader is named when it is set and non-empty.
   */
  function CommandLineWords(o: Options): seq<string>
  {
    BaseWords(o)
      + Optional(o.linuxFirmware, "linux-firmware") + Optional(Truthy(o.bootloader), Show(o.bootloader))
      + Optional(o.efibootmgr, "efibootmgr") + Optional(o.networkManager, "networkmanager")
      + Optional(o.enableSsh, "openssh") + Optional(o.reflector, "reflector")
  }

  /** The text after appending, with a space, a word that is there only when `flag` holds. */
  function AddOptional(text: string, flag: bool, w: string): string
  {
    if flag then text + " " + w else text
  }

  /** Appending an optional word to the list appends it to the joined text. */
  lemma JoinOptional(ws: seq<string>, flag: bool, w: string)
    requires |ws| >= 1
    ensures Join(ws + Optional(flag, w), ' ') == AddOptional(Join(ws, ' '), flag, w)
  {
    if flag {
      JoinSnoc(ws, w, ' ');
    } else {
      assert ws + Optional(flag, w) == ws;
    }
  }

  /** The six optional words, appended one after the other. */
  lemma JoinOptionals(ws: seq<string>, f1: bool, w1: string, f2: bool, w2: string, f3: bool, w3: string,
                      f4: bool, w4: string, f5: bool, w5: string, f6: bool, w6: string)
    requires |ws| >= 1
    ensures Join(ws + Optional(f1, w1) + Optional(f2, w2) + Optional(f3, w3) + Optional(f4, w4)
                 + Optional(f5, w5) + Optional(f6, w6), ' ')
         == AddOptional(AddOptional(AddOptional(AddOptional(AddOptional(AddOptional(
              Join(ws, ' '), f1, w1), f2, w2), f3, w3), f4, w4), f5, w5), f6, w6)
  {
    var v1 := ws + Optional(f1, w1);
    var v2 := v1 + Optional(f2, w2);
    var v3 := v2 + Optional(f3, w3);
    var v4 := v3 + Optional(f4, w4);
    var v5 := v4 + Optional(f5, w5);
    JoinOptional(ws, f1, w1);
    JoinOptional(v1, f2, w2);
    JoinOptional(v2, f3, w3);
    JoinOptional(v3, f4, w4);
    JoinOptional(v4, f5, w5);
    JoinOptional(v5, f6, w6);
  }

  /** Extending the last word of a joined list. */
  lemma {:induction false} JoinExtendLast(ws: seq<string>, w: string, x: string, sep: char)
    ensures Join(ws + [w + x], sep) == Join(ws + [w], sep) + x
    decreases |ws|
  {
    if |ws| == 0 {
      assert ws + [w + x] == [w + x] && ws + [w] == [w];
    } else if |ws| == 1 {
      assert (ws + [w + x])[1..] == [w + x] && (ws + [w])[1..] == [w];
    } else {
      assert (ws + [w + x])[1..] == ws[1..] + [w + x] && (ws + [w])[1..] == ws[1..] + [w];
      JoinExtendLast(ws[1..], w, x, sep);
    }
  }

  /**
   * The first part of `pacstrap`'s string building: the base packages, then the kernel headers
   * (or, for a flavour, "linux" turned into the flavour's kernel, and its headers). An unknown
   * kernel name adds nothing and produces the message Python prints.
   */
  method KernelCommand(o: Options) returns (command: string, warning: Option<string>)
    ensures command == Join(BaseWords(o), ' ')
    ensures warning.Some? <==> o.linuxKernel != "" && o.linuxKernel !in Kernels
    ensures warning.Some? ==> warning.value == o.linuxKernel + " is not a valid kernel option"
  {
    ghost var head: seq<string> := ["pacstrap", o.targetMountpoint, "base", "base-devel"];
    command := "pacstrap" + " " + o.targetMountpoint + " " + "base" + " " + "base-devel" + " " + "linux";
    assert command == Join(head + ["linux"], ' ') by {
      JoinHead("pacstrap", o.targetMountpoint, "base", "base-devel", "linux", ' ');
    }
    warning := None;
    if o.linuxKernel == "" {
      StockHeaders(head, command);
      command := command + " " + "linux-headers";
    } else if o.linuxKernel in Kernels {
      FlavourKernel(head, command, o.linuxKernel);
      command := command + "-" + o.linuxKernel;
      FlavourHeaders(head, command, o.linuxKernel);
      command := command + " " + "linux-" + o.linuxKernel + "-headers";
    } else {
      warning := Some(o.linuxKernel + " is not a valid kernel option");
    }
  }

  /** Adding the stock headers after "linux". */
  lemma StockHeaders(head: seq<string>, text: string)
    requires |head| >= 1 && text == Join(head + ["linux"], ' ')
    ensures text + " " + "linux-headers" == Join(head + ["linux", "linux-headers"], ' ')
  {
    JoinSnoc(head + ["linux"], "linux-headers", ' ');
    assert head + ["linux"] + ["linux-headers"] == head + ["linux", "linux-headers"];
  }

  /** Turning "linux" into a flavour's kernel. */
  lemma FlavourKernel(head: seq<string>, text: string, kernel: string)
    requires text == Join(head + ["linux"], ' ')
    ensures text + "-" + kernel == Join(head + ["linux-" + kernel], ' ')
  {
    JoinExtendLast(head, "linux", "-" + kernel, ' ');
    assert "linux" + ("-" + kernel) == "linux-" + kernel;
    assert text + "-" + kernel == text + ("-" + kernel);
  }

  /** Adding a flavour's headers after its kernel. */
  lemma FlavourHeaders(head: seq<string>, text: string, kernel: string)
    requires |head| >= 1 && text == Join(head + ["linux-" + kernel], ' ')
    ensures text + " " + "linux-" + kernel + "-headers"
         == Join(head + ["linux-" + kernel, "linux-" + kernel + "-headers"], ' ')
  {
    var flavoured := "linux-" + kernel;
    assert text + " " + "linux-" + kernel + "-headers" == text + " " + (flavoured + "-headers");
    JoinSnoc(head + [flavoured], flavoured + "-headers", ' ');
    assert head + [flavoured] + [flavoured + "-headers"] == head + [flavoured, flavoured + "-headers"];
  }

  /** One optional package of `pacstrap`: appended, after a space, only when its option is set. */
  method AppendPackage(command: string, flag: bool, package: string) returns (extended: string)
    ensures extended == AddOptional(command, flag, package)
  {
    extended := command;
    if flag {
      extended := extended + " " + package;
    }
  }

  /**
   * The string building of `pacstrap`: the base and kernel packages, then each optional package
   * whose option is set, in the fixed order; the command is the package list space-joined.
   */
  method BuildCommand(o: Options) returns (command: string, warning: Option<string>)
    ensures command == Join(CommandLineWords(o), ' ')
    ensures warning.Some? <==> o.linuxKernel != "" && o.linuxKernel !in Kernels
    ensures warning.Some? ==> warning.value == o.linuxKernel + " is not a valid kernel option"
  {
    command, warning := KernelCommand(o);
    command := AppendPackage(command, o.linuxFirmware, "linux-firmware");
    command := AppendPackage(command, Truthy(o.bootloader), Show(o.bootloader));
    command := AppendPackage(command, o.efibootmgr, "efibootmgr");
    command := AppendPackage(command, o.networkManager, "networkmanager");
    command := AppendPackage(command, o.enableSsh, "openssh");
    command := AppendPackage(command, o.reflector, "reflector");
    CommandLineText(o);
  }

  /** The joined command line, as the base words joined followed by each optional word that is set. */
  lemma CommandLineText(o: Options)
    ensures Join(CommandLineWords(o), ' ')
         == AddOptional(AddOptional(AddOptional(AddOptional(AddOptional(AddOptional(
              Join(BaseWords(o), ' '), o.linuxFirmware, "linux-firmware"), Truthy(o.bootloader), Show(o.bootloader)),
              o.efibootmgr, "efibootmgr"), o.networkManager, "networkmanager"), o.enableSsh, "openssh"),
              o.reflector, "reflector")
  {
    JoinOptionals(BaseWords(o), o.linuxFirmware, "linux-firmware", Truthy(o.bootloader), Show(o.bootloader),
                  o.efibootmgr, "efibootmgr", o.networkManager, "networkmanager", o.enableSsh, "openssh",
                  o.reflector, "reflector");
  }

  /** The first five words joined. */
  lemma JoinHead(a: string, b: string, c: string, d: string, e: string, sep: char)
    ensures Join([a, b, c, d] + [e], sep) == a + [sep] + b + [sep] + c + [sep] + d + [sep] + e
  {
    JoinCons(d, [e], sep);
    JoinCons(c, [d, e], sep);
    JoinCons(b, [c, d, e], sep);
    JoinCons(a, [b, c, d, e], sep);
    assert [a, b, c, d] + [e] == [a, b, c, d, e];
  }

  /** `pacstrap`: exactly one command, run with the caller's dry-run flag. */
  method Pacstrap(o: Options, dryRun: bool, shell: Shell)
    modifies shell
    ensures shell.log == old(shell.log) + [Command(Join(CommandLineWords(o), ' '), dryRun)]
  {
    var command, _ := BuildCommand(o);
    shell.Run(command, dryRun);
  }

  // ---------------------------------------------------------------------------
  // Properties

  /** The command starts with its base words: program, target, base packages and kernel packages. */
  lemma CommandStartsWithBase(o: Options)
    ensures var ws := CommandLineWords(o);
      && |BaseWords(o)| <= |ws|
      && ws[..|BaseWords(o)|] == BaseWords(o)
      && ws[..4] == ["pacstrap", o.targetMountpoint, "base", "base-devel"]
  {
    var ws := CommandLineWords(o);
    assert ws == BaseWords(o) + ws[|BaseWords(o)|..];
  }

  /**
   * The kernel words: the stock kernel and headers for no choice, the flavour's kernel and headers
   * for a known flavour, and the bare stock kernel for an unknown name.
   */
  lemma KernelWords(o: Options)
    ensures o.linuxKernel == "" ==> BaseWords(o)[4..] == ["linux", "linux-headers"]
    ensures o.linuxKernel in Kernels ==>
      BaseWords(o)[4..] == ["linux-" + o.linuxKernel, "linux-" + o.linuxKernel + "-headers"]
    ensures o.linuxKernel != "" && o.linuxKernel !in Kernels ==> BaseWords(o)[4..] == ["linux"]
  {
    var head := ["pacstrap", o.targetMountpoint, "base", "base-devel"];
    assert BaseWords(o)[4..] == KernelPackages(o.linuxKernel) by {
      assert BaseWords(o) == head + KernelPackages(o.linuxKernel);
    }
  }

  /** With the defaults: the stock kernel with headers, firmware, grub and every optional package. */
  lemma DefaultWords()
    ensures CommandLineWords(Defaults)
         == ["pacstrap", "/mnt", "base", "base-devel", "linux", "linux-headers", "linux-firmware", "grub",
             "efibootmgr", "networkmanager", "openssh", "reflector"]
  {
  }

  /** Every option set adds exactly one word; an unknown kernel name installs the stock kernel without headers. */
  lemma WordCount(o: Options)
    ensures |CommandLineWords(o)|
         == 5 + (if o.linuxKernel == "" || o.linuxKernel in Kernels then 1 else 0)
              + (if o.linuxFirmware then 1 else 0) + (if Truthy(o.bootloader) then 1 else 0)
              + (if o.efibootmgr then 1 else 0) + (if o.networkManager then 1 else 0)
              + (if o.enableSsh then 1 else 0) + (if o.reflector then 1 else 0)
  {
    assert |BaseWords(o)| == 4 + |KernelPackages(o.linuxKernel)|;
  }

  /** No word of the list holds a space. */
  predicate SpaceFree(ws: seq<string>)
  {
    forall i :: 0 <= i < |ws| ==> ' ' !in ws[i]
  }

  lemma SpaceFreeAppend(ws: seq<string>, vs: seq<string>)
    requires SpaceFree(ws) && SpaceFree(vs)
    ensures SpaceFree(ws + vs)
  {
    forall i | 0 <= i < |ws + vs| ensures ' ' !in (ws + vs)[i] {
      if i >= |ws| {
        assert (ws + vs)[i] == vs[i - |ws|];
      }
    }
  }

  /** When no name holds a space, the command splits back into its words. */
  lemma CommandWords(o: Options)
    requires ' ' !in o.targetMountpoint && ' ' !in o.linuxKernel
    requires o.bootloader.Some? ==> ' ' !in o.bootloader.value
    ensures Split(Join(CommandLineWords(o), ' '), ' ') == CommandLineWords(o)
  {
    var k := o.linuxKernel;
    assert SpaceFree(KernelPackages(k)) by {
      assert ' ' !in "linux-" + k && ' ' !in "linux-" + k + "-headers";
    }
    assert SpaceFree(["pacstrap", o.targetMountpoint, "base", "base-devel"]);
    SpaceFreeAppend(["pacstrap", o.targetMountpoint, "base", "base-devel"], KernelPackages(k));
    var v0 := BaseWords(o);
    var v1 := v0 + Optional(o.linuxFirmware, "linux-firmware");
    SpaceFreeAppend(v0, Optional(o.linuxFirmware, "linux-firmware"));
    var v2 := v1 + Optional(Truthy(o.bootloader), Show(o.bootloader));
    SpaceFreeAppend(v1, Optional(Truthy(o.bootloader), Show(o.bootloader)));
    var v3 := v2 + Optional(o.efibootmgr, "efibootmgr");
    SpaceFreeAppend(v2, Optional(o.efibootmgr, "efibootmgr"));
    var v4 := v3 + Optional(o.networkManager, "networkmanager");
    SpaceFreeAppend(v3, Optional(o.networkManager, "networkmanager"));
    var v5 := v4 + Optional(o.enableSsh, "openssh");
    SpaceFreeAppend(v4, Optional(o.enableSsh, "openssh"));
    SpaceFreeAppend(v5, Optional(o.reflector, "reflector"));
    SplitJoin(CommandLineWords(o), ' ');
  }
}
