/**
 * The `Chroot` environment of scripts/chroot.py: commands run inside the new root through
 * `chroot <target> sh -c '<command>'` (or `su <user> -c` for a user), files of the new root
 * are read and written, and a little state is kept: the package installer in use (`pacman`
 * until an AUR helper is enabled) and the list of system groups. Commands are not executed:
 * each goes to the command log of a `Shell`. Files of the new root are a map from path to
 * contents; writing replaces a file, appending extends it.
 */
module InChroot {
  import opened Wrappers
  import opened Text
  import opened Commands
  import ConfigUtils

  // ---------------------------------------------------------------------------
  // Commands inside the new root

  /** `__wrap_chroot`'s command line: as `user` with `su` when one is given, else with `sh`. */
  function WrapChroot(target: string, command: string, user: string): string
  {
    if user != "" then "chroot " + target + " su " + user + " -c '" + command + "'"
    else "chroot " + target + " sh -c '" + command + "'"
  }

  /** A list of (command, user) steps as they reach the runner. */
  function Chrooted(target: string, dryRun: bool, steps: seq<(string, string)>): (cs: seq<Command>)
    ensures |cs| == |steps|
    ensures forall i :: 0 <= i < |steps| ==> cs[i] == Command(WrapChroot(target, steps[i].0, steps[i].1), dryRun)
  {
    seq(|steps|, i requires 0 <= i < |steps| => Command(WrapChroot(target, steps[i].0, steps[i].1), dryRun))
  }

  lemma ChrootedAppend(target: string, dryRun: bool, a: seq<(string, string)>, b: seq<(string, string)>)
    ensures Chrooted(target, dryRun, a + b) == Chrooted(target, dryRun, a) + Chrooted(target, dryRun, b)
  {
  }

  /** The number of single quotes in a line: `shlex.split` in the runner needs it even. */
  function Quotes(s: string): nat
  {
    multiset(s)['\'']
  }

  lemma QuotesAppend(a: string, b: string)
    ensures Quotes(a + b) == Quotes(a) + Quotes(b)
  {
  }

  lemma QuoteFree(s: string)
    requires '\'' !in s
    ensures Quotes(s) == 0
  {
  }

  /** A quote-free text followed by a single quote. */
  lemma QuoteLast(s: string)
    requires '\'' !in s
    ensures Quotes(s + "'") == 1
  {
    QuotesAppend(s, "'");
    QuoteFree(s);
    assert Quotes("'") == 1;
  }

  /** The quotes of a head with one quote, a command, and a closing quote. */
  lemma QuotesAround(a: string, m: string, c: string)
    requires '\'' !in a && Quotes(m) == 1
    ensures Quotes(a + m + c + "'") == Quotes(c) + 2
  {
    QuoteFree(a);
    QuotesAppend(a, m);
    QuotesAppend(a + m, c);
    QuotesAppend(a + m + c, "'");
    assert Quotes("'") == 1;
  }

  lemma SuHeadQuoteFree(target: string, user: string)
    requires '\'' !in target && '\'' !in user
    ensures '\'' !in "chroot " + target + " su " + user
  {
  }

  lemma ShHeadQuoteFree(target: string)
    requires '\'' !in target
    ensures '\'' !in "chroot " + target
  {
  }

  lemma OpeningQuotes()
    ensures Quotes(" -c '") == 1 && Quotes(" sh -c '") == 1
  {
    assert " -c '" == " -c " + "'";
    assert " sh -c '" == " sh -c " + "'";
    QuoteLast(" -c ");
    QuoteLast(" sh -c ");
  }

  /**
   * The wrapped line adds exactly two single quotes around the command; whether the whole line
   * has balanced quotes (as `shlex.split` in the runner requires) is decided by the command.
   */
  lemma WrapQuotes(target: string, command: string, user: string)
    requires '\'' !in target && '\'' !in user
    ensures Quotes(WrapChroot(target, command, user)) == Quotes(command) + 2
  {
    OpeningQuotes();
    if user != "" {
      SuHeadQuoteFree(target, user);
      QuotesAround("chroot " + target + " su " + user, " -c '", command);
    } else {
      ShHeadQuoteFree(target);
      QuotesAround("chroot " + target, " sh -c '", command);
    }
  }

  // ---------------------------------------------------------------------------
  // __get_groups

  /** The text of a string before the first occurrence of `c`: `s.split(c)[0]`. */
  lemma {:induction false} SplitFirst(s: string, c: char)
    ensures var g := Split(s, c)[0];
      && c !in g && |g| <= |s| && s[..|g|] == g
      && (|g| < |s| ==> s[|g|] == c)
    decreases |s|
  {
    if |s| > 0 && s[0] != c {
      SplitFirst(s[1..], c);
    }
  }

  // ---------------------------------------------------------------------------
  // configure_locales

  /** `locale_file_data` after uncommenting the first n locales, one `str.replace` each. */
  function Uncomment(data: string, locales: seq<string>, n: nat): string
    requires n <= |locales|
  {
    if n == 0 then data else Replace(Uncomment(data, locales, n - 1), "#" + locales[n - 1], locales[n - 1])
  }

  /** A commented line of a locale becomes the locale's line when the rest has no `#`. */
  lemma UncommentLine(locale: string, rest: string)
    requires '#' !in locale && '#' !in rest
    ensures Replace("#" + locale + rest, "#" + locale, locale) == locale + rest
  {
    var pat := "#" + locale;
    var s := pat + rest;
    assert s[..|pat|] == pat && s[|pat|..] == rest;
    NoHashUnchanged(rest, locale);
  }

  /** Text without `#` is left alone. */
  lemma NoHashUnchanged(s: string, locale: string)
    requires '#' !in s
    ensures Replace(s, "#" + locale, locale) == s
  {
    var pat := "#" + locale;
    forall i: nat ensures !OccursAt(s, pat, i) {
      if i + |pat| <= |s| {
        assert s[i..i + |pat|][0] == s[i] != '#';
      }
    }
    ReplaceAbsent(s, pat, locale);
  }

  /** A window over a newline is not an occurrence of a pattern without one. */
  lemma NewlineWindow(s: string, pat: string, k: nat)
    requires k < |pat| <= |s| && s[k] == '\n' && '\n' !in pat
    ensures s[..|pat|] != pat
  {
    assert s[..|pat|][k] == '\n';
  }

  /**
   * `str.replace` with a pattern that holds no newline works line by line: replacing in a file
   * is replacing in its first line and in the rest.
   */
  lemma {:induction false} ReplaceLineByLine(a: string, b: string, pat: string, rep: string)
    requires |pat| > 0 && '\n' !in pat
    requires |a| > 0 && a[|a| - 1] == '\n'
    ensures Replace(a + b, pat, rep) == Replace(a, pat, rep) + Replace(b, pat, rep)
    decreases |a|
  {
    var s := a + b;
    if |s| >= |pat| {
      if |pat| >= |a| {
        NewlineWindow(s, pat, |a| - 1);
      }
      if s[..|pat|] == pat {
        assert a[..|pat|] == pat;
        assert s[|pat|..] == a[|pat|..] + b;
        ReplaceLineByLine(a[|pat|..], b, pat, rep);
      } else {
        assert s[1..] == a[1..] + b;
        if |a| >= |pat| {
          assert a[..|pat|] == s[..|pat|];
        }
        if |a| == 1 {
          assert a[1..] == [] && a == [a[0]];
        } else {
          ReplaceLineByLine(a[1..], b, pat, rep);
          assert a == [a[0]] + a[1..];
        }
      }
    }
  }

  // ---------------------------------------------------------------------------
  // configure_user

  /** Python truthiness of a configuration value (`if sudo:`). */
  predicate TruthyValue(v: ConfigUtils.Value)
  {
    match v
    case Null => false
    case Bool(b) => b
    case Int(i) => i != 0
    case Str(s) => s != ""
    case List(items) => |items| > 0
    case Dict(entries) => |entries| > 0
  }

  /** The system groups after the first n groups of a user: each new one is appended once. */
  function GroupsAfter(system: seq<string>, groups: seq<string>, n: nat): seq<string>
    requires n <= |groups|
  {
    if n == 0 then system
    else
      var known := GroupsAfter(system, groups, n - 1);
      if groups[n - 1] in known then known else known + [groups[n - 1]]
  }

  /** The chroot steps for the first n groups: `groupadd` for a new group, then `usermod -a -G`. */
  function GroupSteps(system: seq<string>, groups: seq<string>, username: string, n: nat): seq<(string, string)>
    requires n <= |groups|
  {
    if n == 0 then []
    else
      var known := GroupsAfter(system, groups, n - 1);
      GroupSteps(system, groups, username, n - 1)
        + (if groups[n - 1] in known then [] else [("groupadd " + groups[n - 1], "")])
        + [("usermod -a -G " + groups[n - 1] + ", " + username, "")]
  }

  /** No name occurs twice. */
  predicate NoDuplicates(s: seq<string>)
  {
    forall i, j :: 0 <= i < j < |s| ==> s[i] != s[j]
  }

  /**
   * The group list keeps what it had, gains every group of the user, gains nothing else, and
   * never holds a group twice if it did not before; one `groupadd` is issued per group added
   * and one `usermod` per group listed, so the steps number the groups listed plus those added.
   */
  lemma {:induction false} GroupsAdded(system: seq<string>, groups: seq<string>, username: string, n: nat)
    requires n <= |groups|
    ensures var after := GroupsAfter(system, groups, n);
      && |system| <= |after| && after[..|system|] == system
      && (forall j :: 0 <= j < n ==> groups[j] in after)
      && (forall g :: g in after ==> g in system || g in groups[..n])
      && (NoDuplicates(system) ==> NoDuplicates(after))
      && |GroupSteps(system, groups, username, n)| == n + (|after| - |system|)
  {
    if n > 0 {
      GroupsAdded(system, groups, username, n - 1);
      GroupsAddedStep(system, groups, username, n);
    }
  }

  /** The inductive step of GroupsAdded: one more group. */
  lemma GroupsAddedStep(system: seq<string>, groups: seq<string>, username: string, n: nat)
    requires 0 < n <= |groups|
    requires var after := GroupsAfter(system, groups, n - 1);
      && |system| <= |after| && after[..|system|] == system
      && (forall j :: 0 <= j < n - 1 ==> groups[j] in after)
      && (forall g :: g in after ==> g in system || g in groups[..n - 1])
      && (NoDuplicates(system) ==> NoDuplicates(after))
      && |GroupSteps(system, groups, username, n - 1)| == n - 1 + (|after| - |system|)
    ensures var after := GroupsAfter(system, groups, n);
      && |system| <= |after| && after[..|system|] == system
      && (forall j :: 0 <= j < n ==> groups[j] in after)
      && (forall g :: g in after ==> g in system || g in groups[..n])
      && (NoDuplicates(system) ==> NoDuplicates(after))
      && |GroupSteps(system, groups, username, n)| == n + (|after| - |system|)
  {
    var known := GroupsAfter(system, groups, n - 1);
    assert groups[..n] == groups[..n - 1] + [groups[n - 1]];
    if groups[n - 1] !in known {
      assert (known + [groups[n - 1]])[..|system|] == known[..|system|];
    }
  }

  /** `shells_file.readlines()[3:]` holds a line that strips to the shell. */
  predicate ShellListed(lines: seq<string>, shell: string)
  {
    exists i :: 3 <= i < |lines| && Strip(lines[i], Whitespace) == shell
  }

  /** The sudoers drop-in of a user: None when `sudo` is falsy. */
  function SudoersRule(username: string, sudo: ConfigUtils.Value): Option<string>
  {
    if !TruthyValue(sudo) then None
    else if sudo == ConfigUtils.Str("nopass") then Some(username + " ALL=(ALL:ALL) NOPASSWD: ALL")
    else Some(username + " ALL=(ALL:ALL) ALL")
  }

  /** The rule is passwordless exactly for "nopass", asks for the password for any other truthy value. */
  lemma SudoersCases(username: string, sudo: ConfigUtils.Value)
    ensures SudoersRule(username, sudo).None? <==> !TruthyValue(sudo)
    ensures SudoersRule(username, sudo) == Some(username + " ALL=(ALL:ALL) NOPASSWD: ALL")
        <==> sudo == ConfigUtils.Str("nopass")
  {
    if TruthyValue(sudo) && sudo != ConfigUtils.Str("nopass") {
      assert |username + " ALL=(ALL:ALL) ALL"| != |username + " ALL=(ALL:ALL) NOPASSWD: ALL"|;
    }
  }

  /** The first chroot steps of `configure_user`, up to the comment. */
  function AccountSteps(username: string, shell: string, home: string, comment: string, installed: bool)
    : seq<(string, string)>
  {
    [("useradd -m" + (if home != "" then " -d " + home else "") + " " + username, "")]
      + (if shell == "" then []
         else (if installed then [] else [("pacman --noconfirm -S " + Split(shell, '/')[|Split(shell, '/')| - 1], "")])
              + [("usermod -s " + shell + " " + username, "")])
      + (if comment != "" then [("usermod -c " + comment + " " + username, "")] else [])
  }

  // ---------------------------------------------------------------------------
  // configure_late_crypt

  /** The crypttab line as written: the keyfile column and the newline only with a keyfile. */
  function CrypttabLine(mapping: string, uuid: string, usesKeyfile: bool): string
  {
    mapping + "\tUUID=" + uuid + if usesKeyfile then "\t/etc/cryptsetup-keys.d/" + mapping + ".key\n" else ""
  }

  /** The columns of a crypttab entry: the keyfile column only with a keyfile. */
  function CrypttabBody(mapping: string, uuid: string, usesKeyfile: bool): string
  {
    mapping + "\tUUID=" + uuid + if usesKeyfile then "\t/etc/cryptsetup-keys.d/" + mapping + ".key" else ""
  }

  /** The crypttab entry as intended: one line per device, whether or not a keyfile is used. */
  function CrypttabEntry(mapping: string, uuid: string, usesKeyfile: bool): string
  {
    CrypttabBody(mapping, uuid, usesKeyfile) + "\n"
  }

  /** A string without a newline is one line. */
  lemma {:induction false} LinesNoNewline(s: string)
    requires |s| > 0 && '\n' !in s
    ensures Lines(s) == [s]
    decreases |s|
  {
    if |s| > 1 {
      LinesNoNewline(s[1..]);
      assert s == [s[0]] + s[1..];
    } else {
      assert s[1..] == [] && s == [s[0]];
    }
  }

  /** A string with a newline only at its end is one line. */
  lemma {:induction false} LinesOneLine(body: string)
    requires '\n' !in body
    ensures Lines(body + "\n") == [body + "\n"]
    decreases |body|
  {
    var s := body + "\n";
    if |body| > 0 {
      assert s[1..] == body[1..] + "\n";
      LinesOneLine(body[1..]);
      assert s == [s[0]] + (body[1..] + "\n");
    } else {
      assert s == ['\n'] && s[1..] == [];
    }
  }

  /** The lines of a file that ends with a newline, followed by more text. */
  lemma {:induction false} LinesAppend(a: string, b: string)
    requires |a| == 0 || a[|a| - 1] == '\n'
    ensures Lines(a + b) == Lines(a) + Lines(b)
    decreases |a|
  {
    if |a| > 0 {
      assert (a + b)[0] == a[0] && (a + b)[1..] == a[1..] + b;
      LinesAppend(a[1..], b);
      if a[0] != '\n' {
        assert |a| > 1;
      }
    } else {
      assert a + b == b;
    }
  }

  /**
   * As written, two devices without keyfiles leave crypttab as ONE line: the second entry runs
   * on from the first, so crypttab names one device with garbled columns.
   */
  lemma CrypttabRunsTogether(label1: string, uuid1: string, label2: string, uuid2: string)
    requires '\n' !in label1 && '\n' !in uuid1 && '\n' !in label2 && '\n' !in uuid2
    ensures |Lines(CrypttabLine(label1, uuid1, false) + CrypttabLine(label2, uuid2, false))| == 1
  {
    var s := CrypttabLine(label1, uuid1, false) + CrypttabLine(label2, uuid2, false);
    assert s == label1 + "\tUUID=" + uuid1 + label2 + "\tUUID=" + uuid2;
    assert '\n' !in "\tUUID=";
    LinesNoNewline(s);
  }

  /**
   * Corrected: appending an entry to a crypttab that ends with a newline (or is empty) adds
   * exactly one line, which is the entry.
   */
  lemma CrypttabOneLinePerDevice(crypttab: string, mapping: string, uuid: string, usesKeyfile: bool)
    requires |crypttab| == 0 || crypttab[|crypttab| - 1] == '\n'
    requires '\n' !in mapping && '\n' !in uuid
    ensures var e := CrypttabEntry(mapping, uuid, usesKeyfile);
      Lines(crypttab + e) == Lines(crypttab) + [e]
  {
    CrypttabBodyOneLine(mapping, uuid, usesKeyfile);
    LinesOneLine(CrypttabBody(mapping, uuid, usesKeyfile));
    LinesAppend(crypttab, CrypttabEntry(mapping, uuid, usesKeyfile));
  }

  lemma CrypttabBodyOneLine(mapping: string, uuid: string, usesKeyfile: bool)
    requires '\n' !in mapping && '\n' !in uuid
    ensures '\n' !in CrypttabBody(mapping, uuid, usesKeyfile)
  {
  }

  /**
   * The entry's columns, separated by tabs, are the mapping name, `UUID=<uuid>` and, with a
   * keyfile, the keyfile's path in the new root.
   */
  lemma CrypttabColumns(mapping: string, uuid: string, usesKeyfile: bool)
    requires '\t' !in mapping && '\t' !in uuid
    ensures Split(CrypttabBody(mapping, uuid, usesKeyfile), '\t')
         == [mapping, "UUID=" + uuid] + if usesKeyfile then ["/etc/cryptsetup-keys.d/" + mapping + ".key"] else []
  {
    var b := "UUID=" + uuid;
    var c := "/etc/cryptsetup-keys.d/" + mapping + ".key";
    ColumnsTabFree(mapping, uuid);
    SplitNoSeparator(mapping, '\t');
    SplitNoSeparator(b, '\t');
    if usesKeyfile {
      SplitNoSeparator(c, '\t');
      BodyWithKeyfile(mapping, uuid);
      SplitAround(b, c, '\t');
      SplitAround(mapping, b + ['\t'] + c, '\t');
    } else {
      BodyWithoutKeyfile(mapping, uuid);
      SplitAround(mapping, b, '\t');
    }
  }

  lemma ColumnsTabFree(mapping: string, uuid: string)
    requires '\t' !in mapping && '\t' !in uuid
    ensures '\t' !in "UUID=" + uuid && '\t' !in "/etc/cryptsetup-keys.d/" + mapping + ".key"
  {
  }

  lemma BodyWithKeyfile(mapping: string, uuid: string)
    ensures CrypttabBody(mapping, uuid, true)
         == mapping + ['\t'] + (("UUID=" + uuid) + ['\t'] + ("/etc/cryptsetup-keys.d/" + mapping + ".key"))
  {
    assert "\tUUID=" == ['\t'] + "UUID=";
    assert "\t/etc/cryptsetup-keys.d/" == ['\t'] + "/etc/cryptsetup-keys.d/";
    TabRegroup(mapping, "\tUUID=", "UUID=", uuid, "\t/etc/cryptsetup-keys.d/", "/etc/cryptsetup-keys.d/", ".key");
  }

  /** Regrouping the columns of a crypttab line around its two tabs. */
  lemma TabRegroup(m: string, t1: string, u1: string, u: string, t2: string, p: string, k: string)
    requires t1 == ['\t'] + u1 && t2 == ['\t'] + p
    ensures m + t1 + u + (t2 + m + k) == m + ['\t'] + ((u1 + u) + ['\t'] + (p + m + k))
  {
  }

  lemma BodyWithoutKeyfile(mapping: string, uuid: string)
    ensures CrypttabBody(mapping, uuid, false) == mapping + ['\t'] + ("UUID=" + uuid)
  {
    assert "\tUUID=" == ['\t'] + "UUID=";
  }

  // ---------------------------------------------------------------------------
  // Kernel parameters

  /** `set_default_kernel_params`' parameter: the root uuid, and the root subvolume if any. */
  function KernelParams(rootUuid: string, rootSubvol: string): string
  {
    "root=UUID=" + rootUuid + if rootSubvol != "" then " rootflags=subvol=" + rootSubvol else ""
  }

  /** The parameters, split at spaces: `root=UUID=…`, then `rootflags=subvol=…` exactly when a subvolume is given. */
  lemma KernelParamWords(rootUuid: string, rootSubvol: string)
    requires ' ' !in rootUuid && ' ' !in rootSubvol
    ensures Split(KernelParams(rootUuid, rootSubvol), ' ')
         == ["root=UUID=" + rootUuid] + if rootSubvol != "" then ["rootflags=subvol=" + rootSubvol] else []
  {
    var a := "root=UUID=" + rootUuid;
    assert ' ' !in a;
    SplitNoSeparator(a, ' ');
    if rootSubvol != "" {
      var b := "rootflags=subvol=" + rootSubvol;
      assert ' ' !in b;
      SplitNoSeparator(b, ' ');
      assert " rootflags=subvol=" == [' '] + "rootflags=subvol=";
      assert KernelParams(rootUuid, rootSubvol) == a + [' '] + b;
      SplitAround(a, b, ' ');
    } else {
      assert KernelParams(rootUuid, rootSubvol) == a;
    }
  }

  // ---------------------------------------------------------------------------
  // configure_efistub

  /** The EFI executable of a kernel flavour: `arch-linux.efi` or `arch-linux-<kernel>.efi`. */
  function EfiExecutable(kernel: string): string
  {
    "arch-linux" + (if kernel != "" then "-" + kernel else "") + ".efi"
  }

  /** The start of the `efibootmgr` line: the disk, the partition and the entry's label. */
  function EfibootmgrTarget(disk: string, partition: int, bootLabel: string): string
  {
    "efibootmgr --create" + " --disk " + disk + " --part " + IntToString(partition) + " --label \"" + bootLabel + "\""
  }

  /** The `efibootmgr` line as written: the quote opened before the loader path is never closed. */
  function EfistubCommand(disk: string, partition: int, bootLabel: string, kernel: string): string
  {
    EfibootmgrTarget(disk, partition, bootLabel) + " --loader '" + "/EFI/Linux/" + EfiExecutable(kernel) + " --unicode"
  }

  /** The `efibootmgr` line as intended: the loader path quoted on both sides. */
  function EfistubCommandClosed(disk: string, partition: int, bootLabel: string, kernel: string): string
  {
    EfibootmgrTarget(disk, partition, bootLabel) + " --loader '" + "/EFI/Linux/" + EfiExecutable(kernel) + "'" + " --unicode"
  }

  lemma EfibootmgrTargetQuoteFree(disk: string, partition: int, bootLabel: string)
    requires '\'' !in disk && '\'' !in bootLabel
    ensures '\'' !in EfibootmgrTarget(disk, partition, bootLabel)
  {
    var n := NatToString(if partition < 0 then -partition else partition);
    assert forall i :: 0 <= i < |n| ==> IsDigit(n[i]);
    assert '\'' !in IntToString(partition);
  }

  lemma ExecutableQuoteFree(kernel: string)
    requires '\'' !in kernel
    ensures '\'' !in EfiExecutable(kernel)
  {
  }

  lemma LoaderPathQuoteFree()
    ensures '\'' !in "/EFI/Linux/" && '\'' !in " --unicode"
  {
  }

  lemma LoaderQuote()
    ensures Quotes(" --loader '") == 1
  {
    assert " --loader '" == " --loader " + "'";
    QuoteLast(" --loader ");
  }

  /** The quotes of the two `efibootmgr` shapes, piece by piece. */
  lemma EfistubShape(a: string, m: string, b: string, c: string, d: string)
    requires '\'' !in a && '\'' !in b && '\'' !in c && '\'' !in d && Quotes(m) == 1
    ensures Quotes(a + m + b + c + d) == 1 && Quotes(a + m + b + c + "'" + d) == 2
  {
    QuoteFree(a);
    QuoteFree(b);
    QuoteFree(c);
    QuoteFree(d);
    QuotesAppend(a, m);
    QuotesAppend(a + m, b);
    QuotesAppend(a + m + b, c);
    QuotesAppend(a + m + b + c, d);
    QuotesAppend(a + m + b + c, "'");
    QuotesAppend(a + m + b + c + "'", d);
    assert Quotes("'") == 1;
  }

  /** The line as written holds one single quote. */
  lemma EfistubQuoteCount(disk: string, partition: int, bootLabel: string, kernel: string)
    requires '\'' !in disk && '\'' !in bootLabel && '\'' !in kernel
    ensures Quotes(EfistubCommand(disk, partition, bootLabel, kernel)) == 1
  {
    EfistubPieces(disk, partition, bootLabel, kernel);
  }

  /** The corrected line holds two. */
  lemma EfistubClosedQuoteCount(disk: string, partition: int, bootLabel: string, kernel: string)
    requires '\'' !in disk && '\'' !in bootLabel && '\'' !in kernel
    ensures Quotes(EfistubCommandClosed(disk, partition, bootLabel, kernel)) == 2
  {
    EfistubPieces(disk, partition, bootLabel, kernel);
  }

  lemma EfistubPieces(disk: string, partition: int, bootLabel: string, kernel: string)
    requires '\'' !in disk && '\'' !in bootLabel && '\'' !in kernel
    ensures var a := EfibootmgrTarget(disk, partition, bootLabel);
      && Quotes(a + " --loader '" + "/EFI/Linux/" + EfiExecutable(kernel) + " --unicode") == 1
      && Quotes(a + " --loader '" + "/EFI/Linux/" + EfiExecutable(kernel) + "'" + " --unicode") == 2
  {
    EfibootmgrTargetQuoteFree(disk, partition, bootLabel);
    ExecutableQuoteFree(kernel);
    LoaderPathQuoteFree();
    LoaderQuote();
    EfistubShape(EfibootmgrTarget(disk, partition, bootLabel), " --loader '", "/EFI/Linux/", EfiExecutable(kernel), " --unicode");
  }

  /**
   * As written, the chroot line of `configure_efistub` holds an odd number of single quotes,
   * so the runner's `shlex.split` stops with "No closing quotation" and no boot entry is made.
   */
  lemma EfistubUnbalanced(target: string, disk: string, partition: int, bootLabel: string, kernel: string)
    requires '\'' !in target && '\'' !in disk && '\'' !in bootLabel && '\'' !in kernel
    ensures Quotes(WrapChroot(target, EfistubCommand(disk, partition, bootLabel, kernel), "")) == 3
  {
    var command := EfistubCommand(disk, partition, bootLabel, kernel);
    assert Quotes(command) == 1 by {
      EfistubQuoteCount(disk, partition, bootLabel, kernel);
    }
    ShWrapQuotes(target, command, 1);
  }

  /** Corrected: the chroot line's single quotes are balanced. */
  lemma EfistubBalanced(target: string, disk: string, partition: int, bootLabel: string, kernel: string)
    requires '\'' !in target && '\'' !in disk && '\'' !in bootLabel && '\'' !in kernel
    ensures Quotes(WrapChroot(target, EfistubCommandClosed(disk, partition, bootLabel, kernel), "")) == 4
  {
    var command := EfistubCommandClosed(disk, partition, bootLabel, kernel);
    assert Quotes(command) == 2 by {
      EfistubClosedQuoteCount(disk, partition, bootLabel, kernel);
    }
    ShWrapQuotes(target, command, 2);
  }

  /** A root command with k single quotes gets two more from `sh -c '…'`. */
  lemma ShWrapQuotes(target: string, command: string, k: nat)
    requires '\'' !in target && Quotes(command) == k
    ensures Quotes(WrapChroot(target, command, "")) == k + 2
  {
    WrapQuotes(target, command, "");
  }

  // ---------------------------------------------------------------------------
  // The installer state: pacman or an AUR helper

  /** The characters `str.strip('-bin')` removes from both ends. */
  const HelperSuffix: set<char> := {'-', 'b', 'i', 'n'}

  /** `install_packages`' step: pacman as root, or the helper (stripped) as aurbuilder. */
  function InstallStep(installer: string, packages: seq<string>): (string, string)
  {
    if installer == "pacman" then ("pacman --noconfirm -Syu " + Join(packages, ' '), "")
    else (Strip(installer, HelperSuffix) + " --noconfirm -Syu " + Join(packages, ' '), "aurbuilder")
  }

  /** Right-stripping removes exactly a suffix made of the stripped characters. */
  lemma {:induction false} TrimRightSuffix(w: string, suffix: string, cs: set<char>)
    requires |w| > 0 && w[|w| - 1] !in cs
    requires forall i :: 0 <= i < |suffix| ==> suffix[i] in cs
    ensures TrimRight(w + suffix, cs) == w
    decreases |suffix|
  {
    var s := w + suffix;
    if |suffix| > 0 {
      assert s[|s| - 1] == suffix[|suffix| - 1];
      assert s[..|s| - 1] == w + suffix[..|suffix| - 1];
      TrimRightSuffix(w, suffix[..|suffix| - 1], cs);
    } else {
      assert s == w;
    }
  }

  /** A helper name followed by a suffix of `-`, `b`, `i`, `n` strips to the name. */
  lemma StripHelperName(name: string, suffix: string)
    requires |name| > 0 && name[0] !in HelperSuffix && name[|name| - 1] !in HelperSuffix
    requires forall i :: 0 <= i < |suffix| ==> suffix[i] in HelperSuffix
    ensures Strip(name + suffix, HelperSuffix) == name
  {
    assert (name + suffix)[0] == name[0];
    TrimRightSuffix(name, suffix, HelperSuffix);
  }

  /**
   * Every helper the configuration allows (`paru`, `paru-bin`, `yay`, `yay-bin`) is run under
   * its program name.
   */
  lemma HelperPrograms(name: string)
    requires name == "paru" || name == "yay"
    ensures Strip(name, HelperSuffix) == name && Strip(name + "-bin", HelperSuffix) == name
  {
    assert name + "" == name;
    StripHelperName(name, "");
    StripHelperName(name, "-bin");
  }

  /** The AUR repository of a helper. */
  function AurUrl(helper: string): string
  {
    "https://aur.archlinux.org/" + helper + ".git"
  }

  /** The chroot steps of `enable_aur`. */
  function AurSteps(helper: string): seq<(string, string)>
  {
    [("useradd -N -m aurbuilder", ""),
     ("pacman --noconfirm -S git", ""),
     ("git clone " + AurUrl(helper) + " ~/" + helper, "aurbuilder"),
     ("cd ~/" + helper + " && makepkg -S", "aurbuilder"),
     ("cd ~/" + helper + " && makepkg --noconfirm -i", "aurbuilder")]
  }

  /** The mkinitcpio hook that `__init__` overrides with an empty file and `exit` removes. */
  const HookPath := "/etc/pacman.d/hooks/90-mkinitcpio-install.hook"

  /** The (options, directory) pairs of the API filesystems `__init__` mounts, in order. */
  const ApiMounts: seq<(string, string)> := [
    ("-t proc /proc", "/proc/"),
    ("--rbind /sys", "/sys/"),
    ("--make-rslave", "/sys/"),
    ("--rbind /dev", "/dev/"),
    ("--make-rslave", "/dev"),
    ("--rbind /run", "/run/"),
    ("--make-slave", "/run/"),
    ("--rbind /sys/firmware/efi/efivars", "/sys/firmware/efi/efivars")
  ]

  /** The directories `exit` unmounts recursively, in order. */
  const ApiUnmounts: seq<string> := ["/proc/", "/sys/", "/dev/", "/run/"]

  /** `__init__`'s `mount` lambda: `mount OPTIONS TARGETDIR`. */
  function MountCommand(target: string, dryRun: bool, options: string, dir: string): Command
  {
    Command("mount " + options + " " + target + dir, dryRun)
  }

  /** The `mount` lambda over each pair. */
  function MountCommands(target: string, dryRun: bool, mounts: seq<(string, string)>): (cs: seq<Command>)
    ensures |cs| == |mounts|
    ensures forall i :: 0 <= i < |mounts| ==> cs[i] == MountCommand(target, dryRun, mounts[i].0, mounts[i].1)
  {
    seq(|mounts|, i requires 0 <= i < |mounts| => MountCommand(target, dryRun, mounts[i].0, mounts[i].1))
  }

  /** Runs the `mount` lambda once. */
  method Mount(shell: Shell, target: string, dryRun: bool, options: string, dir: string)
    modifies shell
    ensures shell.log == old(shell.log) + [MountCommand(target, dryRun, options, dir)]
  {
    shell.Run("mount " + options + " " + target + dir, dryRun);
  }

  /**
   * The commands of `__init__`: the API mounts, then the DNS details copied in, the hooks
   * directory created and the mkinitcpio hook overridden by an empty file.
   */
  function InitCommands(target: string, dryRun: bool): seq<Command>
  {
    MountCommands(target, dryRun, ApiMounts)
      + [Command("cp /etc/resolv.conf " + target + "/etc/resolv.conf", dryRun),
         Command("mkdir -p " + target + "/etc/pacman.d/hooks", dryRun),
         Command("touch " + target + HookPath, dryRun)]
  }

  /** The eleven commands of `__init__`, written out one by one. */
  lemma InitCommandsListed(target: string, dryRun: bool)
    ensures InitCommands(target, dryRun) == [
      MountCommand(target, dryRun, "-t proc /proc", "/proc/"),
      MountCommand(target, dryRun, "--rbind /sys", "/sys/"),
      MountCommand(target, dryRun, "--make-rslave", "/sys/"),
      MountCommand(target, dryRun, "--rbind /dev", "/dev/"),
      MountCommand(target, dryRun, "--make-rslave", "/dev"),
      MountCommand(target, dryRun, "--rbind /run", "/run/"),
      MountCommand(target, dryRun, "--make-slave", "/run/"),
      MountCommand(target, dryRun, "--rbind /sys/firmware/efi/efivars", "/sys/firmware/efi/efivars"),
      Command("cp /etc/resolv.conf " + target + "/etc/resolv.conf", dryRun),
      Command("mkdir -p " + target + "/etc/pacman.d/hooks", dryRun),
      Command("touch " + target + HookPath, dryRun)]
  {
    var ms := MountCommands(target, dryRun, ApiMounts);
    assert |ms| == 8;
    assert ms == [ms[0], ms[1], ms[2], ms[3], ms[4], ms[5], ms[6], ms[7]];
  }

  /** `exit`'s recursive unmounts, one per directory. */
  function UnmountCommands(target: string, dryRun: bool, dirs: seq<string>): (cs: seq<Command>)
    ensures |cs| == |dirs|
    ensures forall i :: 0 <= i < |dirs| ==> cs[i] == Command("umount -R " + target + dirs[i], dryRun)
  {
    seq(|dirs|, i requires 0 <= i < |dirs| => Command("umount -R " + target + dirs[i], dryRun))
  }

  /**
   * The commands of `exit`: the AUR clean-up inside the root, the hook override removed, then
   * the API filesystems unmounted.
   */
  function ExitCommands(target: string, dryRun: bool, installer: string): seq<Command>
  {
    Chrooted(target, dryRun, if installer != "pacman" then [("userdel aurbuilder", ""), ("rm /etc/sudoers.d/aurbuilder", "")] else [])
      + [Command("rm " + target + HookPath, dryRun)]
      + UnmountCommands(target, dryRun, ApiUnmounts)
  }

  /**
   * The aurbuilder user and then its sudoers file are removed first exactly when an AUR helper
   * was enabled; then the hook override is removed, and the last four commands unmount
   * `/proc/`, `/sys/`, `/dev/` and `/run/` of the new root, in that order.
   */
  lemma ExitCleansUp(target: string, dryRun: bool, installer: string)
    ensures var cs := ExitCommands(target, dryRun, installer);
      && (|cs| == 7 <==> installer != "pacman") && (|cs| == 5 <==> installer == "pacman")
      && (installer != "pacman" ==>
            && cs[0] == Command(WrapChroot(target, "userdel aurbuilder", ""), dryRun)
            && cs[1] == Command(WrapChroot(target, "rm /etc/sudoers.d/aurbuilder", ""), dryRun))
      && cs[|cs| - 5] == Command("rm " + target + HookPath, dryRun)
      && forall j :: 0 <= j < 4 ==> cs[|cs| - 4 + j] == Command("umount -R " + target + ApiUnmounts[j], dryRun)
  {
    var pre := Chrooted(target, dryRun, if installer != "pacman" then [("userdel aurbuilder", ""), ("rm /etc/sudoers.d/aurbuilder", "")] else []);
    var cs := ExitCommands(target, dryRun, installer);
    assert cs == pre + ([Command("rm " + target + HookPath, dryRun)] + UnmountCommands(target, dryRun, ApiUnmounts));
  }

  /**
   * `exit` undoes `__init__`: the file `__init__` touches is the one `exit` removes, and every
   * directory `__init__` mounts lies under (or is) one that `exit` unmounts recursively.
   */
  lemma ExitUndoesInit(target: string, dryRun: bool, installer: string)
    ensures var init := InitCommands(target, dryRun);
      var cs := ExitCommands(target, dryRun, installer);
      && init[|init| - 1].line == "touch " + target + HookPath
      && cs[|cs| - 5].line == "rm " + target + HookPath
      && forall i :: 0 <= i < |ApiMounts| ==> exists j :: 0 <= j < |ApiUnmounts| && Under(ApiMounts[i].1, ApiUnmounts[j])
  {
    ExitCleansUp(target, dryRun, installer);
    assert Under(ApiMounts[0].1, ApiUnmounts[0]);
    assert Under(ApiMounts[1].1, ApiUnmounts[1]);
    assert Under(ApiMounts[2].1, ApiUnmounts[1]);
    assert Under(ApiMounts[3].1, ApiUnmounts[2]);
    assert Under(ApiMounts[4].1, ApiUnmounts[2]);
    assert Under(ApiMounts[5].1, ApiUnmounts[3]);
    assert Under(ApiMounts[6].1, ApiUnmounts[3]);
    assert Under(ApiMounts[7].1, ApiUnmounts[1]);
  }

  /** Directory `d`, read as a directory (a trailing `/` added when missing), lies under `top`. */
  predicate Under(d: string, top: string)
  {
    var dir := if |d| > 0 && d[|d| - 1] == '/' then d else d + "/";
    |top| <= |dir| && dir[..|top|] == top
  }

  /**
   * A `Chroot` over a new root: its path, whether commands are dry runs, the runner, the
   * installer in use, the known system groups, and the files of the new root.
   */
  class Chroot {
    const target: string
    const dryRun: bool
    const shell: Shell
    var installer: string
    var systemGroups: seq<string>
    var files: map<string, string>

    /**
     * The state `__init__` sets up: the installer is pacman and the system groups are read from
     * the new root's /etc/group, after the API mounts, the DNS copy and the hook override have
     * gone to the runner.
     */
    constructor (target: string, dryRun: bool, files: map<string, string>, shell: Shell)
      requires target + "/etc/group" in files
      modifies shell
      ensures this.target == target && this.dryRun == dryRun && this.shell == shell
      ensures this.files == files && installer == "pacman"
      ensures systemGroups == GroupNames(Lines(files[target + "/etc/group"]))
      ensures shell.log == old(shell.log) + InitCommands(target, dryRun)
    {
      InitCommandsListed(target, dryRun);
      Mount(shell, target, dryRun, "-t proc /proc", "/proc/");
      Mount(shell, target, dryRun, "--rbind /sys", "/sys/");
      Mount(shell, target, dryRun, "--make-rslave", "/sys/");
      Mount(shell, target, dryRun, "--rbind /dev", "/dev/");
      Mount(shell, target, dryRun, "--make-rslave", "/dev");
      Mount(shell, target, dryRun, "--rbind /run", "/run/");
      Mount(shell, target, dryRun, "--make-slave", "/run/");
      Mount(shell, target, dryRun, "--rbind /sys/firmware/efi/efivars", "/sys/firmware/efi/efivars");
      shell.Run("cp /etc/resolv.conf " + target + "/etc/resolv.conf", dryRun);
      shell.Run("mkdir -p " + target + "/etc/pacman.d/hooks", dryRun);
      shell.Run("touch " + target + HookPath, dryRun);
      this.target := target;
      this.dryRun := dryRun;
      this.shell := shell;
      this.files := files;
      installer := "pacman";
      new;
      systemGroups := GetGroups(files[target + "/etc/group"]);
    }

    /** `__wrap_chroot`: one command line to the runner. */
    method Wrap(command: string, user: string)
      modifies shell
      ensures shell.log == old(shell.log) + [Command(WrapChroot(target, command, user), dryRun)]
    {
      shell.Run(WrapChroot(target, command, user), dryRun);
    }

    /** Runs a list of (command, user) steps in order. */
    method WrapAll(steps: seq<(string, string)>)
      modifies shell
      ensures shell.log == old(shell.log) + Chrooted(target, dryRun, steps)
    {
      for i := 0 to |steps|
        invariant shell.log == old(shell.log) + Chrooted(target, dryRun, steps[..i])
      {
        Wrap(steps[i].0, steps[i].1);
        ChrootedAppend(target, dryRun, steps[..i], [steps[i]]);
        assert steps[..i + 1] == steps[..i] + [steps[i]];
      }
      assert steps[..|steps|] == steps;
    }

    /**
     * `configure_locales`: uncomment each locale in /etc/locale.gen, in order, then run
     * `locale-gen` and write `LANG=<locale_conf>` to /etc/locale.conf.
     */
    method ConfigureLocales(localeGen: seq<string>, localeConf: string)
      requires target + "/etc/locale.gen" in files
      modifies this`files, shell
      ensures files == old(files)[target + "/etc/locale.gen" := Uncomment(old(files)[target + "/etc/locale.gen"], localeGen, |localeGen|)]
                                 [target + "/etc/locale.conf" := "LANG=" + localeConf]
      ensures shell.log == old(shell.log) + [Command(WrapChroot(target, "locale-gen", ""), dryRun)]
    {
      var data := files[target + "/etc/locale.gen"];
      for i := 0 to |localeGen|
        invariant data == Uncomment(old(files)[target + "/etc/locale.gen"], localeGen, i)
      {
        data := Replace(data, "#" + localeGen[i], localeGen[i]);
      }
      files := files[target + "/etc/locale.gen" := data];
      Wrap("locale-gen", "");
      files := files[target + "/etc/locale.conf" := "LANG=" + localeConf];
    }

    /**
     * `configure_user`: create the account, install and set its shell, set its comment, add it
     * to its groups (creating missing ones), start `passwd`, and write its sudoers drop-in.
     */
    method ConfigureUser(username: string, userShell: string, home: string, comment: string,
                         groups: seq<string>, sudo: ConfigUtils.Value)
      requires userShell != "" ==> target + "/etc/shells" in files
      modifies this`systemGroups, this`files, shell
      ensures shell.log == old(shell.log)
        + Chrooted(target, dryRun, AccountSteps(username, userShell, home, comment,
                     userShell != "" && ShellListed(Lines(old(files)[target + "/etc/shells"]), userShell)))
        + Chrooted(target, dryRun, GroupSteps(old(systemGroups), groups, username, |groups|))
        + [Command(WrapChroot(target, "passwd " + username, ""), dryRun)]
      ensures systemGroups == GroupsAfter(old(systemGroups), groups, |groups|)
      ensures files == match SudoersRule(username, sudo)
                       case None => old(files)
                       case Some(rule) => old(files)[target + "/etc/sudoers.d/" + username := rule]
    {
      var installed := false;
      if userShell != "" {
        installed := FindShell(Lines(files[target + "/etc/shells"]), userShell);
      }
      WrapAll(AccountSteps(username, userShell, home, comment, installed));
      AddGroups(groups, username);
      Wrap("passwd " + username, "");
      var rule := SudoersRule(username, sudo);
      if rule.Some? {
        files := files[target + "/etc/sudoers.d/" + username := rule.value];
      }
    }

    /** The group loop of `configure_user`. */
    method AddGroups(groups: seq<string>, username: string)
      modifies this`systemGroups, shell
      ensures systemGroups == GroupsAfter(old(systemGroups), groups, |groups|)
      ensures shell.log == old(shell.log) + Chrooted(target, dryRun, GroupSteps(old(systemGroups), groups, username, |groups|))
    {
      ghost var system0, log0 := systemGroups, shell.log;
      for i := 0 to |groups|
        invariant systemGroups == GroupsAfter(system0, groups, i)
        invariant shell.log == log0 + Chrooted(target, dryRun, GroupSteps(system0, groups, username, i))
      {
        AddGroup(groups, username, i, system0, log0);
      }
    }

    /** One pass of the loop in `add_groups`: the i-th group. */
    method AddGroup(groups: seq<string>, username: string, i: nat, ghost system0: seq<string>, ghost log0: seq<Command>)
      requires i < |groups|
      requires systemGroups == GroupsAfter(system0, groups, i)
      requires shell.log == log0 + Chrooted(target, dryRun, GroupSteps(system0, groups, username, i))
      modifies this`systemGroups, shell
      ensures systemGroups == GroupsAfter(system0, groups, i + 1)
      ensures shell.log == log0 + Chrooted(target, dryRun, GroupSteps(system0, groups, username, i + 1))
    {
      var group := groups[i];
      if group !in systemGroups {
        Wrap("groupadd " + group, "");
        systemGroups := systemGroups + [group];
      }
      Wrap("usermod -a -G " + group + ", " + username, "");
      GroupStepsNext(system0, groups, username, i);
    }

    /** One more group: its `groupadd` if it is new, then its `usermod`. */
    lemma GroupStepsNext(system: seq<string>, groups: seq<string>, username: string, i: nat)
      requires i < |groups|
      ensures Chrooted(target, dryRun, GroupSteps(system, groups, username, i + 1))
           == Chrooted(target, dryRun, GroupSteps(system, groups, username, i))
              + (if groups[i] in GroupsAfter(system, groups, i) then []
                 else [Command(WrapChroot(target, "groupadd " + groups[i], ""), dryRun)])
              + [Command(WrapChroot(target, "usermod -a -G " + groups[i] + ", " + username, ""), dryRun)]
    {
      var steps := GroupSteps(system, groups, username, i);
      var add: seq<(string, string)> := if groups[i] in GroupsAfter(system, groups, i) then [] else [("groupadd " + groups[i], "")];
      ChrootedAppend(target, dryRun, steps, add);
      ChrootedAppend(target, dryRun, steps + add, [("usermod -a -G " + groups[i] + ", " + username, "")]);
    }

    /**
     * `configure_late_crypt`: copy the keyfile into the new root when one is used (this copy is
     * run even during a dry run, as `execute` is called without `dry_run`), then append the
     * device's crypttab entry, one line per device.
     */
    method ConfigureLateCrypt(mapping: string, uuid: string, usesKeyfile: bool)
      modifies this`files, shell
      ensures shell.log == old(shell.log)
        + if usesKeyfile then [Command("cp /tmp/" + mapping + ".key " + target + "/etc/cryptsetup-keys.d/", false)] else []
      ensures files == old(files)[target + "/etc/crypttab" :=
                 (if target + "/etc/crypttab" in old(files) then old(files)[target + "/etc/crypttab"] else "")
                 + CrypttabEntry(mapping, uuid, usesKeyfile)]
    {
      var keyColumn := "";
      if usesKeyfile {
        shell.Run("cp /tmp/" + mapping + ".key " + target + "/etc/cryptsetup-keys.d/", false);
        keyColumn := "\t/etc/cryptsetup-keys.d/" + mapping + ".key";
      }
      Append(target + "/etc/crypttab", mapping + "\tUUID=" + uuid + keyColumn + "\n");
    }

    /** `__add_kernel_parameter` and the other appends: extend a file of the new root. */
    method Append(path: string, text: string)
      modifies this`files
      ensures files == old(files)[path := (if path in old(files) then old(files)[path] else "") + text]
    {
      var current := if path in files then files[path] else "";
      files := files[path := current + text];
    }

    /** `set_default_kernel_params`: the parameters and a space appended to /etc/kernel/cmdline. */
    method SetDefaultKernelParams(rootUuid: string, rootSubvol: string)
      modifies this`files
      ensures files == old(files)[target + "/etc/kernel/cmdline" :=
                 (if target + "/etc/kernel/cmdline" in old(files) then old(files)[target + "/etc/kernel/cmdline"] else "")
                 + (KernelParams(rootUuid, rootSubvol) + " ")]
    {
      var subvolFlag := "";
      if rootSubvol != "" {
        subvolFlag := " rootflags=subvol=" + rootSubvol;
      }
      assert KernelParams(rootUuid, rootSubvol) == "root=UUID=" + rootUuid + subvolFlag;
      Append(target + "/etc/kernel/cmdline", "root=UUID=" + rootUuid + subvolFlag + " ");
    }

    /** `configure_efistub`: one `efibootmgr` boot entry, with the loader path quoted on both sides. */
    method ConfigureEfistub(disk: string, partition: int, bootLabel: string, kernel: string)
      modifies shell
      ensures shell.log == old(shell.log)
        + [Command(WrapChroot(target, EfistubCommandClosed(disk, partition, bootLabel, kernel), ""), dryRun)]
    {
      var command := EfibootmgrTarget(disk, partition, bootLabel);
      var executable := EfiExecutable(kernel);
      command := command + " --loader '" + "/EFI/Linux/" + executable + "'" + " --unicode";
      Wrap(command, "");
    }

    /**
     * `enable_aur`: the helper becomes the installer; aurbuilder is created and may sudo freely,
     * then the helper is cloned, built and installed as aurbuilder. The sudoers file is written
     * after the `useradd` in the source; files and the command log are kept apart here, so that
     * order leaves no trace.
     */
    method EnableAur(helper: string)
      modifies this`installer, this`files, shell
      ensures installer == helper
      ensures files == old(files)[target + "/etc/sudoers.d/aurbuilder" := "aurbuilder ALL=(ALL:ALL) NOPASSWD: ALL"]
      ensures shell.log == old(shell.log) + Chrooted(target, dryRun, AurSteps(helper))
    {
      installer := helper;
      files := files[target + "/etc/sudoers.d/aurbuilder" := "aurbuilder ALL=(ALL:ALL) NOPASSWD: ALL"];
      WrapAll(AurSteps(helper));
    }

    /** `install_packages`: one upgrade-and-install command through the current installer. */
    method InstallPackages(packages: seq<string>)
      modifies shell
      ensures shell.log == old(shell.log)
        + [Command(WrapChroot(target, InstallStep(installer, packages).0, InstallStep(installer, packages).1), dryRun)]
    {
      if installer == "pacman" {
        Wrap("pacman --noconfirm -Syu " + Join(packages, ' '), "");
      } else {
        Wrap(Strip(installer, HelperSuffix) + " --noconfirm -Syu " + Join(packages, ' '), "aurbuilder");
      }
    }

    /** `exit`: remove the AUR builder when a helper was used, the hook override, then unmount. */
    method Exit()
      modifies shell
      ensures shell.log == old(shell.log) + ExitCommands(target, dryRun, installer)
    {
      if installer != "pacman" {
        Wrap("userdel aurbuilder", "");
        Wrap("rm /etc/sudoers.d/aurbuilder", "");
      }
      shell.Run("rm " + target + HookPath, dryRun);
      shell.Run("umount -R " + target + "/proc/", dryRun);
      shell.Run("umount -R " + target + "/sys/", dryRun);
      shell.Run("umount -R " + target + "/dev/", dryRun);
      shell.Run("umount -R " + target + "/run/", dryRun);
    }
  }

  /** The group names of /etc/group's lines: each line's text before the first `:`. */
  function GroupNames(lines: seq<string>): (names: seq<string>)
    ensures |names| == |lines|
  {
    seq(|lines|, i requires 0 <= i < |lines| => Split(lines[i], ':')[0])
  }

  /**
   * `__get_groups`: one name per line of /etc/group, in file order, each the text of its line
   * before the first `:` (the whole line, newline included, when there is none).
   */
  method GetGroups(text: string) returns (groups: seq<string>)
    ensures groups == GroupNames(Lines(text))
    ensures forall i :: 0 <= i < |groups| ==>
      && ':' !in groups[i] && |groups[i]| <= |Lines(text)[i]| && Lines(text)[i][..|groups[i]|] == groups[i]
      && (|groups[i]| < |Lines(text)[i]| ==> Lines(text)[i][|groups[i]|] == ':')
  {
    var lines := Lines(text);
    groups := [];
    for i := 0 to |lines|
      invariant groups == GroupNames(lines[..i])
    {
      groups := groups + [Split(lines[i], ':')[0]];
    }
    assert lines[..|lines|] == lines;
    forall i | 0 <= i < |groups|
      ensures && ':' !in groups[i] && |groups[i]| <= |lines[i]| && lines[i][..|groups[i]|] == groups[i]
              && (|groups[i]| < |lines[i]| ==> lines[i][|groups[i]|] == ':')
    {
      SplitFirst(lines[i], ':');
    }
  }

  /** The search of /etc/shells (from its fourth line) for the user's shell, stopping at the first match. */
  method FindShell(lines: seq<string>, shell: string) returns (installed: bool)
    ensures installed <==> ShellListed(lines, shell)
  {
    installed := false;
    var i := 3;
    while i < |lines|
      invariant 3 <= i || |lines| <= 3
      invariant forall j :: 3 <= j < i && j < |lines| ==> Strip(lines[j], Whitespace) != shell
      decreases |lines| - i
    {
      if Strip(lines[i], Whitespace) == shell {
        installed := true;
        break;
      }
      i := i + 1;
    }
  }
}
