/** The guard's rules (src/safety/command_guard.py) on the words of a command line:
    which commands are denied outright, and which earn which points. */
module GuardRules {
  import opened Common
  import opened ShellLexer
  import opened ShellParser
  import opened Guard
  import opened GuardLaws
  import opened GuardPaths

  // ------------------------------------------------------------- programs

  ghost predicate CalledOneOf(cmd: string, progs: set<string>) { exists p :: p in progs && Called(cmd, p) }

  predicate Plain(progs: set<string>) { forall p :: p in progs ==> p != "" && Small(p) }

  lemma NameIn(cmd: string, progs: set<string>)
    requires Plain(progs)
    ensures ProgName(cmd) in progs <==> CalledOneOf(cmd, progs)
  {
    if ProgName(cmd) in progs { ProgNameExactly(cmd, ProgName(cmd)); }
    if CalledOneOf(cmd, progs) {
      var p :| p in progs && Called(cmd, p);
      ProgNameExactly(cmd, p);
    }
  }

  const Wrappers: set<string> := {"sudo", "su", "doas", "runas"}
  const Formatters: set<string> := {"mkfs", "mkfs.ext4", "mkfs.vfat", "fdisk", "parted"}
  const Halters: set<string> := {"shutdown", "reboot", "poweroff", "halt", "init"}
  const Deleters: set<string> := {"rm", "rmdir", "shred", "wipefs"}
  const Writers: set<string> := {"mkdir", "touch", "cp", "mv", "ln", "install", "tee", "chmod", "chown"}
  const Downloaders: set<string> := {"curl", "wget", "aria2c", "axel", "ftp", "nc", "ncat", "socat"}
  const Shells: set<string> :=
    {"bash", "sh", "dash", "zsh", "fish", "ksh", "pwsh", "powershell", "sudo", "python", "python3", "perl", "ruby", "node"}
  const Managers: set<string> :=
    {"apt", "dnf", "pacman", "zypper", "apk", "brew", "winget", "snap", "choco", "flatpak", "uninstall"}
  const Verbs: set<string> := {"remove", "uninstall", "erase", "purge", "del", "-rns", "-r", "-rs"}

  lemma WrappersArePlain()
    ensures Plain(Wrappers)
  {
    assert Small("sudo") && Small("su") && Small("doas") && Small("runas");
  }

  lemma FormattersArePlain()
    ensures Plain(Formatters)
  {
    assert Small("mkfs") && Small("mkfs.ext4") && Small("mkfs.vfat") && Small("fdisk");
    assert Small("parted");
  }

  lemma HaltersArePlain()
    ensures Plain(Halters)
  {
    assert Small("shutdown") && Small("reboot") && Small("poweroff") && Small("halt");
    assert Small("init");
  }

  lemma DeletersArePlain()
    ensures Plain(Deleters)
  {
    assert Small("rm") && Small("rmdir") && Small("shred") && Small("wipefs");
  }

  lemma WritersArePlain()
    ensures Plain(Writers)
  {
    assert Small("mkdir") && Small("touch") && Small("cp") && Small("mv");
    assert Small("ln") && Small("install") && Small("tee") && Small("chmod");
    assert Small("chown");
  }

  lemma DownloadersArePlain()
    ensures Plain(Downloaders)
  {
    assert Small("curl") && Small("wget") && Small("aria2c") && Small("axel");
    assert Small("ftp") && Small("nc") && Small("ncat") && Small("socat");
  }

  lemma ShellsArePlain()
    ensures Plain(Shells)
  {
    assert Small("bash") && Small("sh") && Small("dash") && Small("zsh");
    assert Small("fish") && Small("ksh") && Small("pwsh") && Small("powershell");
    assert Small("sudo") && Small("python") && Small("python3") && Small("perl");
    assert Small("ruby") && Small("node");
  }

  lemma ManagersArePlain()
    ensures Plain(Managers)
  {
    assert Small("apt") && Small("dnf") && Small("pacman") && Small("zypper");
    assert Small("apk") && Small("brew") && Small("winget") && Small("snap");
    assert Small("choco") && Small("flatpak") && Small("uninstall");
  }

  lemma VerbsArePlain()
    ensures Plain(Verbs)
  {
    assert Small("remove") && Small("uninstall") && Small("erase") && Small("purge");
    assert Small("del") && Small("-rns") && Small("-r") && Small("-rs");
  }

  lemma TablesArePlain()
    ensures Plain(Wrappers) && Plain(Formatters) && Plain(Formatters + {"dd"}) && Plain(Halters) && Plain(Deleters) && Plain(Writers)
    ensures Plain(Downloaders) && Plain(Shells) && Plain(Managers) && Plain(Verbs)
  {
    WrappersArePlain();
    FormattersArePlain();
    HaltersArePlain();
    DeletersArePlain();
    WritersArePlain();
    DownloadersArePlain();
    ShellsArePlain();
    ManagersArePlain();
    VerbsArePlain();
    assert Small("dd");
  }

  lemma TablesAgree()
    ensures PrivilegeProgs == Wrappers && FormatProgs == Formatters + {"dd"} && HaltProgs == Halters
    ensures DeleteProgs == Deleters && WritingProgs == Writers && DownloadProgs == Downloaders
    ensures ShellProgs + Interpreters == Shells && RemoveManagers == Managers && RemoveVerbs == Verbs
  {
  }

  // ------------------------------------------------ behind a privilege wrapper

  predicate TakesValue(tok: string) {
    tok == "-u" || tok == "--user" || tok == "-g" || tok == "--group" || tok == "-p" || tok == "--prompt"
  }

  predicate LoneFlag(tok: string) { !TakesValue(tok) && "-" <= tok && tok != "-" && tok != "--" }

  /** Flags of a wrapper, each with its value. */
  predicate Flags(flags: seq<string>) {
    || flags == []
    || (TakesValue(flags[0]) && |flags| >= 2 && Flags(flags[2..]))
    || (LoneFlag(flags[0]) && Flags(flags[1..]))
  }

  /** Flags to the end, the last one perhaps without its value. */
  predicate NothingBehind(args: seq<string>) {
    || args == []
    || (TakesValue(args[0]) && (|args| == 1 || NothingBehind(args[2..])))
    || (LoneFlag(args[0]) && NothingBehind(args[1..]))
  }

  predicate Behind(rest: seq<string>, flags: seq<string>, cmd: string, args: seq<string>) {
    rest == flags + ([cmd] + args) && Flags(flags) && !TakesValue(cmd) && !LoneFlag(cmd)
  }

  /** What a command line runs: its first word, or the word behind one privilege wrapper
      and its flags, if there is one. */
  ghost predicate Runs(argv: seq<string>, cmd: string, args: seq<string>) {
    argv != [] &&
    if CalledOneOf(argv[0], Wrappers) && !NothingBehind(argv[1..])
    then exists flags :: Behind(argv[1..], flags, cmd, args)
    else argv == [cmd] + args
  }

  lemma UnwrapTurns(rest: seq<string>)
    requires rest != []
    ensures Unwrapped(rest, false)
            == if TakesValue(rest[0]) then if |rest| == 1 then None else Unwrapped(rest[2..], false)
               else if LoneFlag(rest[0]) then Unwrapped(rest[1..], false)
               else Some((ProgName(rest[0]), rest[1..]))
  {
    if |rest| > 1 { assert rest[1..][1..] == rest[2..]; }
  }

  lemma {:induction false} UnwrapsBehind(rest: seq<string>, flags: seq<string>, cmd: string, args: seq<string>)
    requires Behind(rest, flags, cmd, args)
    ensures Unwrapped(rest, false) == Some((ProgName(cmd), args)) && !NothingBehind(rest)
    decreases |flags|
  {
    UnwrapTurns(rest);
    if flags == [] {
      assert rest == [cmd] + args;
    } else {
      assert rest[0] == flags[0];
      var k := if TakesValue(flags[0]) then 2 else 1;
      assert rest[k..] == flags[k..] + ([cmd] + args);
      UnwrapsBehind(rest[k..], flags[k..], cmd, args);
    }
  }

  lemma {:induction false} UnwrapFinds(rest: seq<string>) returns (flags: seq<string>, cmd: string, args: seq<string>)
    ensures if NothingBehind(rest) then Unwrapped(rest, false).None? else Behind(rest, flags, cmd, args)
    decreases |rest|
  {
    flags, cmd, args := [], "", [];
    if rest != [] {
      UnwrapTurns(rest);
      if TakesValue(rest[0]) || LoneFlag(rest[0]) {
        var k := if !TakesValue(rest[0]) then 1 else if |rest| == 1 then 1 else 2;
        flags, cmd, args := UnwrapFinds(rest[k..]);
        if !NothingBehind(rest) {
          flags := rest[..k] + flags;
          assert flags[k..] + ([cmd] + args) == rest[k..];
        }
      } else {
        cmd, args := rest[0], rest[1..];
      }
    }
  }

  /** The guard looks at exactly the command that runs. */
  lemma RunsExactly(argv: seq<string>, cmd: string, args: seq<string>)
    requires Runs(argv, cmd, args)
    ensures Effective(argv) == (ProgName(cmd), args)
  {
    TablesArePlain();
    TablesAgree();
    NameIn(argv[0], Wrappers);
    if CalledOneOf(argv[0], Wrappers) {
      if NothingBehind(argv[1..]) {
        var f, c, a := UnwrapFinds(argv[1..]);
      } else {
        var flags :| Behind(argv[1..], flags, cmd, args);
        UnwrapsBehind(argv[1..], flags, cmd, args);
      }
    }
  }

  lemma SomethingRuns(argv: seq<string>) returns (cmd: string, args: seq<string>)
    requires argv != []
    ensures Runs(argv, cmd, args)
  {
    var flags;
    flags, cmd, args := UnwrapFinds(argv[1..]);
    if !CalledOneOf(argv[0], Wrappers) || NothingBehind(argv[1..]) { cmd, args := argv[0], argv[1..]; }
  }

  // ------------------------------------------------------------- arguments

  predicate MentionsAt(word: string, p: string, k: int) { 0 <= k <= |word| - |p| && Spells(word[k..k + |p|], p) }

  /** Some argument holds the text, in any mix of cases. */
  ghost predicate SomeMentions(args: seq<string>, p: string) {
    exists i, k :: 0 <= i < |args| && MentionsAt(args[i], p, k)
  }

  lemma MentionsHolds(word: string, p: string, k: int)
    requires Small(p)
    ensures MentionsAt(word, p, k) <==> HoldsAt(Lower(word), p, k)
  {
    if 0 <= k <= |word| - |p| {
      assert Lower(word)[k..k + |p|] == Lower(word[k..k + |p|]);
      LowerExactly(word[k..k + |p|], p);
    }
  }

  lemma JoinMentions(args: seq<string>, p: string)
    requires p != "" && ' ' !in p && Small(p)
    ensures Contains(JoinSpaced(LowerAll(args)), p) <==> SomeMentions(args, p)
  {
    var lows := LowerAll(args);
    ContainsExactly(JoinSpaced(lows), p);
    JoinHolds(lows, p);
    if SomeHolds(lows, p) {
      var i :| 0 <= i < |lows| && Holds(lows[i], p);
      var k :| HoldsAt(lows[i], p, k);
      MentionsHolds(args[i], p, k);
    }
    if SomeMentions(args, p) {
      var i, k :| 0 <= i < |args| && MentionsAt(args[i], p, k);
      MentionsHolds(args[i], p, k);
      assert Holds(lows[i], p);
    }
  }

  ghost predicate DeviceOperand(args: seq<string>) { SomeMentions(args, "of=/dev/") || SomeMentions(args, "if=/dev/") }

  lemma DeviceExactly(args: seq<string>)
    ensures RawDevice(args) <==> DeviceOperand(args)
  {
    JoinMentions(args, "of=/dev/");
    JoinMentions(args, "if=/dev/");
  }

  /** `-rm`, `--recursive`, or an `r` in a bundle of the flags `r`, `f`, `i`, `l`. */
  predicate RecursiveWord(arg: string) {
    || Spells(arg, "-rm") || Spells(arg, "--recursive")
    || (arg != "" && arg[0] == '-' && ('r' in arg || 'R' in arg) && forall i :: 1 <= i < |arg| ==> arg[i] in "rfilRFIL")
  }

  lemma HasLowerR(arg: string)
    ensures 'r' in Lower(arg) <==> 'r' in arg || 'R' in arg
  {
    if 'r' in Lower(arg) {
      var i :| 0 <= i < |arg| && Lower(arg)[i] == 'r';
      assert arg[i] in arg;
    }
    if 'r' in arg || 'R' in arg {
      var i :| 0 <= i < |arg| && (arg[i] == 'r' || arg[i] == 'R');
      assert Lower(arg)[i] == 'r';
    }
  }

  lemma BundleExactly(arg: string)
    ensures (forall i :: 1 <= i < |arg| ==> Lower(arg)[i] in {'r', 'f', 'R', 'i', 'l'})
            <==> (forall i :: 1 <= i < |arg| ==> arg[i] in "rfilRFIL")
  {
    forall i | 1 <= i < |arg| ensures Lower(arg)[i] in {'r', 'f', 'R', 'i', 'l'} <==> arg[i] in "rfilRFIL" { }
  }

  lemma ShortBundles(arg: string)
    ensures Lower(arg) in {"-r", "-rf", "-fr"} ==> RecursiveWord(arg)
  {
    if Lower(arg) in {"-r", "-rf", "-fr"} {
      var low := Lower(arg);
      assert low == "-r" || low == "-rf" || low == "-fr";
      assert low[0] == '-' == LowerChar(arg[0]);
      HasLowerR(arg);
      BundleExactly(arg);
      assert low[1] == 'r' || low[2] == 'r';
    }
  }

  lemma RecursiveExactly(arg: string)
    ensures RecursiveFlag(arg) <==> RecursiveWord(arg)
  {
    LowerExactly(arg, "-rm");
    LowerExactly(arg, "--recursive");
    HasLowerR(arg);
    BundleExactly(arg);
    ShortBundles(arg);
    if arg != "" { assert Lower(arg)[0] == '-' <==> arg[0] == '-'; }
  }

  ghost predicate SomeRecursive(args: seq<string>) { exists i :: 0 <= i < |args| && RecursiveWord(args[i]) }

  ghost predicate TopWord(arg: string) { Cleaned(arg, "/") || Cleaned(arg, "/*") || Cleaned(arg, "/**") }

  lemma TopExactly(arg: string)
    ensures CleanPath(arg) in {"/", "/*", "/**"} <==> TopWord(arg)
    ensures RootTarget(arg) <==> TopWord(arg) || Cleaned(arg, "/.")
  {
    CleanExactly(arg, "/");
    CleanExactly(arg, "/*");
    CleanExactly(arg, "/**");
    CleanExactly(arg, "/.");
  }

  predicate FlagWord(arg: string) { "-" <= arg }

  ghost predicate SomeRootTarget(args: seq<string>) {
    exists i :: 0 <= i < |args| && (!FlagWord(args[i]) || '/' in args[i]) && (TopWord(args[i]) || Cleaned(args[i], "/."))
  }

  ghost predicate SomeTopTarget(args: seq<string>) {
    exists i :: 0 <= i < |args| && !FlagWord(args[i]) && TopWord(args[i])
  }

  lemma RmExactly(args: seq<string>)
    ensures HasRecursive(args) <==> SomeRecursive(args)
    ensures RmHitsRoot(args) <==> SomeRootTarget(args)
    ensures ChmodHitsRoot(args) <==> SomeTopTarget(args)
  {
    forall i | 0 <= i < |args|
      ensures RecursiveFlag(args[i]) <==> RecursiveWord(args[i])
      ensures CleanPath(args[i]) in {"/", "/*", "/**"} <==> TopWord(args[i])
      ensures RootTarget(args[i]) <==> TopWord(args[i]) || Cleaned(args[i], "/.")
      ensures IsFlag(args[i]) <==> FlagWord(args[i])
    {
      RecursiveExactly(args[i]);
      TopExactly(args[i]);
    }
  }

  ghost predicate OpensAll(args: seq<string>) { SomeSpells(args, "777") || SomeSpells(args, "7777") }

  ghost predicate SystemPath(arg: string) { arg != "" && !FlagWord(arg) && exists c :: Cleaned(arg, c) && SystemWord(c) }

  ghost predicate ClimbingPath(arg: string) { arg != "" && !FlagWord(arg) && exists c :: Cleaned(arg, c) && ClimbingWord(c) }

  ghost predicate SomeSystemPath(args: seq<string>) { exists i :: 0 <= i < |args| && SystemPath(args[i]) }

  ghost predicate SomeClimbingPath(args: seq<string>) { exists i :: 0 <= i < |args| && ClimbingPath(args[i]) }

  lemma CleanedTwice(arg: string)
    ensures UnderSensitiveRoot(CleanPath(arg)) <==> exists c :: Cleaned(arg, c) && SystemWord(c)
    ensures ParentTraversal(CleanPath(arg)) <==> exists c :: Cleaned(arg, c) && ClimbingWord(c)
  {
    var c := CleanPath(arg);
    CleanExactly(arg, c);
    SystemExactly(c);
    ClimbingExactly(c);
    forall c' | Cleaned(arg, c') ensures c' == c { CleanExactly(arg, c'); }
  }

  lemma PathsExactly(args: seq<string>)
    ensures SomePath(args, UnderSensitiveRoot) <==> SomeSystemPath(args)
    ensures SomePath(args, ParentTraversal) <==> SomeClimbingPath(args)
  {
    forall i | 0 <= i < |args|
      ensures args[i] != "" && !IsFlag(args[i]) && UnderSensitiveRoot(CleanPath(args[i])) <==> SystemPath(args[i])
      ensures args[i] != "" && !IsFlag(args[i]) && ParentTraversal(CleanPath(args[i])) <==> ClimbingPath(args[i])
    {
      CleanedTwice(args[i]);
    }
  }

  ghost predicate SomeVerb(args: seq<string>) { exists v :: v in Verbs && SomeSpells(args, v) }

  lemma VerbsExactly(args: seq<string>)
    ensures (exists v :: v in RemoveVerbs && v in LowerAll(args)) <==> SomeVerb(args)
  {
    TablesArePlain();
    TablesAgree();
    forall v | v in Verbs ensures v in LowerAll(args) <==> SomeSpells(args, v) { LowerAllHas(args, v); }
  }

  // ------------------------------------------------------------- denials

  /** A command that is denied whatever it scores. */
  ghost predicate Forbidden(cmd: string, args: seq<string>, unknownApp: (string, seq<string>) -> bool) {
    || CalledOneOf(cmd, Halters)
    || CalledOneOf(cmd, Formatters)
    || (Called(cmd, "dd") && DeviceOperand(args))
    || (Called(cmd, "rm") && SomeSpells(args, "--no-preserve-root"))
    || (Called(cmd, "rm") && SomeRecursive(args) && SomeRootTarget(args))
    || (Called(cmd, "chmod") && OpensAll(args) && SomeTopTarget(args))
    || (CalledOneOf(cmd, Writers + Deleters + Formatters + {"dd"}) && SomeSystemPath(args))
    || (CalledOneOf(cmd, Deleters + Formatters + {"dd"}) && SomeClimbingPath(args))
    || (Called(cmd, "chmod") && OpensAll(args) && SomeClimbingPath(args))
    || exists p :: p in Managers && Called(cmd, p) && SomeVerb(args) && unknownApp(p, args)
  }

  /** The same on the name of the program, as the guard computes it. */
  predicate Banned(prog: string, args: seq<string>, unknownApp: (string, seq<string>) -> bool) {
    || prog in HaltProgs
    || prog in Formatters
    || (prog == "dd" && RawDevice(args))
    || (prog == "rm" && "--no-preserve-root" in LowerAll(args))
    || (prog == "rm" && HasRecursive(args) && RmHitsRoot(args))
    || (prog == "chmod" && WideOpen(args) && ChmodHitsRoot(args))
    || (prog in WritingProgs + DeleteProgs + FormatProgs && SomePath(args, UnderSensitiveRoot))
    || (prog in DeleteProgs + FormatProgs && SomePath(args, ParentTraversal))
    || (prog == "chmod" && WideOpen(args) && SomePath(args, ParentTraversal))
    || (prog in RemoveManagers && (exists v :: v in RemoveVerbs && v in LowerAll(args)) && unknownApp(prog, args))
  }

  lemma DenialIsBan(argv: seq<string>, unknownApp: (string, seq<string>) -> bool)
    requires argv != []
    ensures LeafDenied(argv, unknownApp) <==> Banned(Effective(argv).0, Effective(argv).1, unknownApp)
  {
    TablesAgree();
    var prog := Effective(argv).0;
    if prog == "dd" { assert prog !in HaltProgs && prog !in Formatters && prog !in RemoveManagers; }
  }

  lemma ArgumentsExactly(args: seq<string>)
    ensures RawDevice(args) <==> DeviceOperand(args)
    ensures "--no-preserve-root" in LowerAll(args) <==> SomeSpells(args, "--no-preserve-root")
    ensures WideOpen(args) <==> OpensAll(args)
  {
    DeviceExactly(args);
    LowerAllHas(args, "--no-preserve-root");
    LowerAllHas(args, "777");
    LowerAllHas(args, "7777");
  }

  lemma ProgramsExactly(cmd: string)
    ensures ProgName(cmd) in HaltProgs <==> CalledOneOf(cmd, Halters)
    ensures ProgName(cmd) in Formatters <==> CalledOneOf(cmd, Formatters)
    ensures ProgName(cmd) in WritingProgs + DeleteProgs + FormatProgs <==> CalledOneOf(cmd, Writers + Deleters + Formatters + {"dd"})
    ensures ProgName(cmd) in DeleteProgs + FormatProgs <==> CalledOneOf(cmd, Deleters + Formatters + {"dd"})
    ensures ProgName(cmd) == "dd" <==> Called(cmd, "dd")
    ensures ProgName(cmd) == "rm" <==> Called(cmd, "rm")
    ensures ProgName(cmd) == "chmod" <==> Called(cmd, "chmod")
  {
    TablesArePlain();
    TablesAgree();
    NameIn(cmd, Halters);
    NameIn(cmd, Formatters);
    assert Writers + Deleters + Formatters + {"dd"} == Writers + Deleters + (Formatters + {"dd"});
    assert Deleters + Formatters + {"dd"} == Deleters + (Formatters + {"dd"});
    NameIn(cmd, Writers + Deleters + (Formatters + {"dd"}));
    NameIn(cmd, Deleters + (Formatters + {"dd"}));
    ProgNameExactly(cmd, "dd");
    ProgNameExactly(cmd, "rm");
    ProgNameExactly(cmd, "chmod");
  }

  lemma ManagerExactly(cmd: string, args: seq<string>, unknownApp: (string, seq<string>) -> bool)
    ensures (ProgName(cmd) in RemoveManagers && unknownApp(ProgName(cmd), args))
            <==> exists p :: p in Managers && Called(cmd, p) && unknownApp(p, args)
  {
    TablesArePlain();
    TablesAgree();
    forall p | p in Managers ensures ProgName(cmd) == p <==> Called(cmd, p) { ProgNameExactly(cmd, p); }
  }

  lemma BanExactly(cmd: string, args: seq<string>, unknownApp: (string, seq<string>) -> bool)
    ensures Banned(ProgName(cmd), args, unknownApp) <==> Forbidden(cmd, args, unknownApp)
  {
    ProgramsExactly(cmd);
    ArgumentsExactly(args);
    RmExactly(args);
    PathsExactly(args);
    VerbsExactly(args);
    ManagerExactly(cmd, args, unknownApp);
  }

  ghost predicate ForbiddenLeaf(argv: seq<string>, unknownApp: (string, seq<string>) -> bool) {
    exists cmd, args :: Runs(argv, cmd, args) && Forbidden(cmd, args, unknownApp)
  }

  /** A leaf is denied exactly when the command it runs is one of the forbidden ones. */
  lemma LeafDeniedExactly(argv: seq<string>, unknownApp: (string, seq<string>) -> bool)
    ensures LeafDenied(argv, unknownApp) <==> ForbiddenLeaf(argv, unknownApp)
  {
    if argv != [] {
      DenialIsBan(argv, unknownApp);
      var cmd, args := SomethingRuns(argv);
      RunsExactly(argv, cmd, args);
      BanExactly(cmd, args, unknownApp);
      if ForbiddenLeaf(argv, unknownApp) {
        var c, a :| Runs(argv, c, a) && Forbidden(c, a, unknownApp);
        RunsExactly(argv, c, a);
        BanExactly(c, a, unknownApp);
      }
    }
  }
}
