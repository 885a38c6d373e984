/** Risk scoring and the deny list of src/safety/command_guard.py, as folds over
    the parsed tree.  Whether an uninstall names an unknown application is asked of
    the host there; here it is the parameter `unknownApp`. */
module Guard {
  import opened Common
  import opened ShellLexer
  import opened ShellParser

  // ------------------------------------------------------- string helpers

  predicate Starts(s: string, p: string) { |p| <= |s| && s[..|p|] == p }

  predicate Contains(s: string, p: string)
    decreases |s|
  {
    Starts(s, p) || (s != "" && Contains(s[1..], p))
  }

  function LowerChar(c: char): char {
    if 'A' <= c <= 'Z' then (c as int - 'A' as int + 'a' as int) as char else c
  }

  /** `str.lower` on ASCII. */
  function Lower(s: string): string { seq(|s|, i requires 0 <= i < |s| => LowerChar(s[i])) }

  function LowerAll(ws: seq<string>): seq<string> {
    seq(|ws|, i requires 0 <= i < |ws| => Lower(ws[i]))
  }

  function Split(s: string, c: char): seq<string>
    decreases |s|
  {
    var i := IndexOf(s, c);
    if i == |s| then [s] else [s[..i]] + Split(s[i + 1..], c)
  }

  /** The last path component that is neither empty nor `.`. */
  function LastName(parts: seq<string>): string {
    if parts == [] then ""
    else
      var last := parts[|parts| - 1];
      if last == "" || last == "." then LastName(parts[..|parts| - 1]) else last
  }

  /** `_prog_name`: the lower-cased base name of an executable. */
  function ProgName(argv0: string): string { Lower(LastName(Split(argv0, '/'))) }

  function TrimQuotesLeft(s: string): string {
    if s != "" && IsQuote(s[0]) then TrimQuotesLeft(s[1..]) else s
  }

  function TrimQuotesRight(s: string): string {
    if s != "" && IsQuote(s[|s| - 1]) then TrimQuotesRight(s[..|s| - 1]) else s
  }

  /** `_clean_path`. */
  function CleanPath(s: string): string { TrimQuotesRight(TrimQuotesLeft(Strip(s))) }

  function NoSpaces(s: string): string {
    if s == "" then "" else (if s[0] == ' ' then "" else [s[0]]) + NoSpaces(s[1..])
  }

  // ---------------------------------------------------------------- tables

  const PrivilegeProgs: set<string> := {"sudo", "su", "doas", "runas"}
  const FormatProgs: set<string> := {"mkfs", "mkfs.ext4", "mkfs.vfat", "fdisk", "parted", "dd"}
  const HaltProgs: set<string> := {"shutdown", "reboot", "poweroff", "halt", "init"}
  const DeleteProgs: set<string> := {"rm", "rmdir", "shred", "wipefs"}
  const DownloadProgs: set<string> := {"curl", "wget", "aria2c", "axel", "ftp", "nc", "ncat", "socat"}
  const ShellProgs: set<string> := {"bash", "sh", "dash", "zsh", "fish", "ksh", "pwsh", "powershell"}
  const Interpreters: set<string> := {"sudo", "python", "python3", "perl", "ruby", "node"}
  const WritingProgs: set<string> := {"mkdir", "touch", "cp", "mv", "ln", "install", "tee", "chmod", "chown"}
  const SensitiveRoots: seq<string> := ["/root", "/etc", "/boot", "/sys", "/proc", "/dev"]
  const RemoveVerbs: set<string> := {"remove", "uninstall", "erase", "purge", "del", "-rns", "-r", "-rs"}
  const RemoveManagers: set<string> :=
    {"apt", "dnf", "pacman", "zypper", "apk", "brew", "winget", "snap", "choco", "flatpak", "uninstall"}

  // ------------------------------------------------------------ tree folds

  /** `iter_command_nodes`: the argument vectors of the leaf commands, in order. */
  function Leaves(n: Node): seq<seq<string>> {
    match n
    case Command(argv, _) => [argv]
    case Pipe(l, r) => Leaves(l) + Leaves(r)
    case Chain(l, r, _) => Leaves(l) + Leaves(r)
    case Redir(c, _, _) => Leaves(c)
    case Subshell(c) => Leaves(c)
  }

  /** The targets of `iter_redir_targets`. */
  function Targets(n: Node): seq<string> {
    match n
    case Command(_, _) => []
    case Redir(c, target, _) => [target] + Targets(c)
    case Pipe(l, r) => Targets(l) + Targets(r)
    case Chain(l, r, _) => Targets(l) + Targets(r)
    case Subshell(c) => Targets(c)
  }

  predicate Any<T>(xs: seq<T>, p: T -> bool) {
    xs != [] && (p(xs[0]) || Any(xs[1..], p))
  }

  function Widest<T>(xs: seq<T>, w: T -> nat): nat {
    if xs == [] then 0 else var rest := Widest(xs[1..], w); if w(xs[0]) > rest then w(xs[0]) else rest
  }

  // --------------------------------------------------------- one leaf command

  /** `_effective_argv` after the wrapper: skip its flags, then the real command. */
  function Unwrapped(rest: seq<string>, skip: bool): Option<(string, seq<string>)>
    decreases |rest|
  {
    if rest == [] then None
    else if skip then Unwrapped(rest[1..], false)
    else if rest[0] in {"-u", "--user", "-g", "--group", "-p", "--prompt"} then Unwrapped(rest[1..], true)
    else if Starts(rest[0], "-") && rest[0] != "-" && rest[0] != "--" then Unwrapped(rest[1..], false)
    else Some((ProgName(rest[0]), rest[1..]))
  }

  /** `_effective_argv`: program and arguments behind one privilege wrapper. */
  function Effective(argv: seq<string>): (string, seq<string>) {
    if argv == [] then ("", [])
    else if ProgName(argv[0]) !in PrivilegeProgs then (ProgName(argv[0]), argv[1..])
    else
      match Unwrapped(argv[1..], false)
      case Some(found) => found
      case None => (ProgName(argv[0]), argv[1..])
  }

  predicate UnderSensitiveRoot(path: string) {
    var cleaned := CleanPath(path);
    exists i :: 0 <= i < |SensitiveRoots| && (cleaned == SensitiveRoots[i] || Starts(cleaned, SensitiveRoots[i] + "/"))
  }

  predicate ParentTraversal(path: string) { ".." in Split(CleanPath(path), '/') }

  predicate IsFlag(arg: string) { Starts(arg, "-") }

  predicate RecursiveFlag(arg: string) {
    var low := Lower(arg);
    || low in {"-r", "-rf", "-fr", "-rm", "--recursive"}
    || (Starts(low, "-") && 'r' in low && forall i :: 1 <= i < |low| ==> low[i] in {'r', 'f', 'R', 'i', 'l'})
  }

  predicate HasRecursive(args: seq<string>) { exists i :: 0 <= i < |args| && RecursiveFlag(args[i]) }

  predicate RootTarget(arg: string) { CleanPath(arg) in {"/", "/*", "/**", "/."} }

  predicate RmHitsRoot(args: seq<string>) {
    exists i :: 0 <= i < |args| && (!IsFlag(args[i]) || '/' in args[i]) && RootTarget(args[i])
  }

  predicate WideOpen(args: seq<string>) { "777" in LowerAll(args) || "7777" in LowerAll(args) }

  predicate ChmodHitsRoot(args: seq<string>) {
    exists i :: 0 <= i < |args| && !IsFlag(args[i]) && CleanPath(args[i]) in {"/", "/*", "/**"}
  }

  predicate RawDevice(args: seq<string>) {
    var joined := JoinSpaced(LowerAll(args));
    Contains(joined, "of=/dev/") || Contains(joined, "if=/dev/")
  }

  predicate SomePath(args: seq<string>, p: string -> bool) {
    exists i :: 0 <= i < |args| && args[i] != "" && !IsFlag(args[i]) && p(CleanPath(args[i]))
  }

  /** The body of the leaf loop of `_check_deny_list`. */
  function LeafDenial(argv: seq<string>, unknownApp: (string, seq<string>) -> bool): Option<string> {
    if argv == [] then None
    else
      var (prog, args) := Effective(argv);
      if SomePath(args, ParentTraversal) && (prog in DeleteProgs + FormatProgs || (prog == "chmod" && WideOpen(args)))
      then Some("traversal with destructive")
      else if SomePath(args, UnderSensitiveRoot) && prog in WritingProgs + DeleteProgs + FormatProgs
      then Some("write to system path")
      else if prog in RemoveManagers && (exists v :: v in RemoveVerbs && v in LowerAll(args)) && unknownApp(prog, args)
      then Some("unknown application")
      else if prog in FormatProgs
      then if prog == "dd" && !RawDevice(args) then None else Some("raw-disk tool")
      else if prog in HaltProgs then Some("system halt")
      else if prog == "rm" && "--no-preserve-root" in LowerAll(args) then Some("rm --no-preserve-root")
      else if prog == "rm" && HasRecursive(args) && RmHitsRoot(args) then Some("rm -rf /")
      else if prog == "chmod" && WideOpen(args) && ChmodHitsRoot(args) then Some("chmod 777 /")
      else None
  }

  predicate LeafDenied(argv: seq<string>, unknownApp: (string, seq<string>) -> bool) {
    LeafDenial(argv, unknownApp).Some?
  }

  // --------------------------------------------------------------- denial

  predicate ProgIn(argv: seq<string>, progs: set<string>) { argv != [] && Effective(argv).0 in progs }

  /** `_has_pipe_to_shell`. */
  predicate PipeToShell(n: Node) {
    match n
    case Pipe(l, r) =>
      || (Any(Leaves(l), argv => ProgIn(argv, DownloadProgs))
          && Any(Leaves(r), argv => ProgIn(argv, ShellProgs + Interpreters)))
      || PipeToShell(l) || PipeToShell(r)
    case Chain(l, r, _) => PipeToShell(l) || PipeToShell(r)
    case Redir(c, _, _) => PipeToShell(c)
    case Subshell(c) => PipeToShell(c)
    case Command(_, _) => false
  }

  predicate ForkBomb(raw: string) { Contains(NoSpaces(raw), ":(){") }

  function FirstDenial(leaves: seq<seq<string>>, unknownApp: (string, seq<string>) -> bool): Option<string> {
    if leaves == [] then None
    else
      match LeafDenial(leaves[0], unknownApp)
      case Some(why) => Some(why)
      case None => FirstDenial(leaves[1..], unknownApp)
  }

  /** `_check_deny_list`. */
  function DenyReason(n: Node, raw: string, unknownApp: (string, seq<string>) -> bool): Option<string> {
    if ForkBomb(raw) then Some("fork bomb pattern")
    else if PipeToShell(n) then Some("pipe-to-shell 'curl|sh' pattern")
    else if Any(Targets(n), UnderSensitiveRoot) then Some("write to system path")
    else FirstDenial(Leaves(n), unknownApp)
  }

  // --------------------------------------------------------------- scores

  function Privilege(leaves: seq<seq<string>>): nat {
    if Any(leaves, (argv: seq<string>) => argv != [] && ProgName(argv[0]) in PrivilegeProgs) then 25 else 0
  }

  /** What one leaf does to the running `best`: keep going, or return 40 at once. */
  datatype Risk = Worst | Best(best: nat)

  function AtLeast(best: nat, n: nat): nat { if n > best then n else best }

  function LeafRisk(argv: seq<string>, best: nat): Risk {
    if argv == [] then Best(best)
    else
      var (prog, args) := Effective(argv);
      if prog == "dd" && !RawDevice(args) then Best(AtLeast(best, 30))
      else if prog in FormatProgs then Best(AtLeast(best, 35))
      else if prog in HaltProgs then Best(AtLeast(best, 30))
      else if prog == "chmod" then
        if WideOpen(args) && ChmodHitsRoot(args) then Best(AtLeast(best, 35)) else Best(best)
      else if prog == "rm" then
        if HasRecursive(args) && RmHitsRoot(args) then Worst
        else if HasRecursive(args) && best < 30 then Best(30)
        else if "--no-preserve-root" in LowerAll(args) then Worst
        else Best(best)
      else Best(best)
  }

  function WorstRisk(leaves: seq<seq<string>>, best: nat): nat
    decreases |leaves|
  {
    if leaves == [] then best
    else
      match LeafRisk(leaves[0], best)
      case Worst => 40
      case Best(b) => WorstRisk(leaves[1..], b)
  }

  function Destructiveness(leaves: seq<seq<string>>, raw: string): nat {
    if ForkBomb(raw) then 40 else WorstRisk(leaves, 0)
  }

  function PathScope(path: string): nat {
    var p := CleanPath(path);
    if p == "" then 0
    else if p in {"/", "/*", "/**"} then 20
    else if Starts(p, "/") then if p in {"/etc", "/usr", "/bin", "/sbin", "/boot", "/dev"} then 20 else 10
    else if Starts(p, "~") || Starts(p, "$HOME") || Starts(p, "${HOME") then 10
    else if Starts(p, "./") || Starts(p, "../") || p == "." || p == ".." then 5
    else 0
  }

  function ArgScope(arg: string): nat {
    if IsFlag(arg) && '/' !in arg && !Starts(arg, "~") then 0 else PathScope(arg)
  }

  function ArgsScope(argv: seq<string>): nat {
    if argv == [] then 0 else Widest(argv[1..], ArgScope)
  }

  function Larger(a: nat, b: nat): nat { if a > b then a else b }

  function Scope(leaves: seq<seq<string>>, targets: seq<string>): nat {
    Larger(Widest(leaves, ArgsScope), Widest(targets, ArgScope))
  }

  function Irreversibility(leaves: seq<seq<string>>): nat {
    if Any(leaves, (argv: seq<string>) => ProgIn(argv, DeleteProgs + FormatProgs)) then 20 else 0
  }

  predicate Downloads(argv: seq<string>) {
    && argv != [] && ProgName(argv[0]) in DownloadProgs
    && var joined := JoinSpaced(argv[1..]);
       Contains(joined, "http://") || Contains(joined, "https://") || Contains(joined, "|")
  }

  function Network(n: Node): nat { if PipeToShell(n) || Any(Leaves(n), Downloads) then 15 else 0 }

  /** The five fixed-weight components of `score_command`. */
  function FixedScore(n: Node, raw: string): nat {
    Privilege(Leaves(n)) + Destructiveness(Leaves(n), raw) + Scope(Leaves(n), Targets(n))
    + Irreversibility(Leaves(n)) + Network(n)
  }

  /** The per-leaf score of the "highest-risk leaf dominates" clause. */
  function LeafScore(argv: seq<string>): nat {
    Privilege([argv]) + Destructiveness([argv], JoinSpaced(argv)) + Scope([argv], []) + Irreversibility([argv])
  }

  function WorstLeaf(leaves: seq<seq<string>>): nat { Widest(leaves, LeafScore) }

  function Least(a: nat, b: nat): nat { if a < b then a else b }

  /** `score_command` on a parsed text; `bonus` is the dynamic-content part. */
  function Score(n: Node, raw: string, bonus: nat): nat {
    var total := FixedScore(n, raw) + Least(bonus, 15);
    Least(100, if |Leaves(n)| > 1 then Larger(total, WorstLeaf(Leaves(n))) else total)
  }

  // -------------------------------------------------------------- verdict

  datatype Verdict = ALLOW | CONFIRM | DENY

  datatype Assessment = Assessment(verdict: Verdict, score: nat)

  function Threshold(score: nat): Verdict {
    if score <= 30 then ALLOW else if score <= 70 then CONFIRM else DENY
  }

  /** `assess_command`. */
  function Assess(text: string, bonus: nat, unknownApp: (string, seq<string>) -> bool): Assessment {
    var raw := Strip(text);
    if raw == "" then Assessment(ALLOW, 0)
    else
      match Parse(raw)
      case Err(_) =>
        var score := Larger(Destructiveness([[]], raw), 85);
        if ForkBomb(raw) then Assessment(DENY, Larger(score, 100)) else Assessment(Threshold(score), score)
      case Ok(n) =>
        var score := Score(n, raw, bonus);
        if DenyReason(n, raw, unknownApp).Some? then Assessment(DENY, Least(100, Larger(score, 85)))
        else Assessment(Threshold(score), score)
  }
}
