/** Which words of a command line earn which points, and the verdict they add up to
    (src/safety/command_guard.py). */
module GuardPoints {
  import opened Common
  import opened ShellLexer
  import opened ShellParser
  import opened Guard
  import opened GuardLaws
  import opened GuardText
  import opened GuardPaths
  import opened GuardRules

  lemma {:induction false} AnyExactly<T>(xs: seq<T>, p: T -> bool)
    ensures Any(xs, p) <==> exists i :: 0 <= i < |xs| && p(xs[i])
  {
    if xs != [] {
      AnyExactly(xs[1..], p);
      assert forall i :: 1 <= i < |xs| ==> xs[1..][i - 1] == xs[i];
      assert forall i :: 0 <= i < |xs| - 1 ==> xs[1..][i] == xs[i + 1];
    }
  }

  lemma {:induction false} WidestExactly<T>(xs: seq<T>, w: T -> nat, k: nat)
    requires k > 0
    ensures Widest(xs, w) >= k <==> exists i :: 0 <= i < |xs| && w(xs[i]) >= k
  {
    if xs != [] {
      WidestExactly(xs[1..], w, k);
      assert forall i :: 1 <= i < |xs| ==> xs[1..][i - 1] == xs[i];
      assert forall i :: 0 <= i < |xs| - 1 ==> xs[1..][i] == xs[i + 1];
    }
  }

  // ------------------------------------------------ privilege, irreversibility

  ghost predicate LeafRuns(argv: seq<string>, progs: set<string>) {
    exists cmd, args :: Runs(argv, cmd, args) && CalledOneOf(cmd, progs)
  }

  lemma ProgInExactly(argv: seq<string>, progs: set<string>)
    requires Plain(progs)
    ensures ProgIn(argv, progs) <==> LeafRuns(argv, progs)
  {
    if argv != [] {
      var cmd, args := SomethingRuns(argv);
      RunsExactly(argv, cmd, args);
      NameIn(cmd, progs);
      if LeafRuns(argv, progs) {
        var c, a :| Runs(argv, c, a) && CalledOneOf(c, progs);
        RunsExactly(argv, c, a);
        NameIn(c, progs);
      }
    }
  }

  ghost predicate SomeLeafRuns(leaves: seq<seq<string>>, progs: set<string>) {
    exists i :: 0 <= i < |leaves| && LeafRuns(leaves[i], progs)
  }

  lemma SomeRunsExactly(leaves: seq<seq<string>>, progs: set<string>)
    requires Plain(progs)
    ensures Any(leaves, argv => ProgIn(argv, progs)) <==> SomeLeafRuns(leaves, progs)
  {
    AnyExactly(leaves, argv => ProgIn(argv, progs));
    forall i | 0 <= i < |leaves| ensures ProgIn(leaves[i], progs) <==> LeafRuns(leaves[i], progs) {
      ProgInExactly(leaves[i], progs);
    }
  }

  ghost predicate SomeWrapper(leaves: seq<seq<string>>) {
    exists i :: 0 <= i < |leaves| && leaves[i] != [] && CalledOneOf(leaves[i][0], Wrappers)
  }

  /** 25 points for a privilege wrapper, 20 for a command that deletes or formats. */
  lemma PrivilegeExactly(leaves: seq<seq<string>>)
    ensures Privilege(leaves) == if SomeWrapper(leaves) then 25 else 0
    ensures Irreversibility(leaves) == if SomeLeafRuns(leaves, Deleters + (Formatters + {"dd"})) then 20 else 0
  {
    TablesArePlain();
    TablesAgree();
    AnyExactly(leaves, (argv: seq<string>) => argv != [] && ProgName(argv[0]) in PrivilegeProgs);
    forall i | 0 <= i < |leaves| && leaves[i] != []
      ensures ProgName(leaves[i][0]) in PrivilegeProgs <==> CalledOneOf(leaves[i][0], Wrappers)
    {
      NameIn(leaves[i][0], Wrappers);
    }
    SomeRunsExactly(leaves, DeleteProgs + FormatProgs);
  }

  // ---------------------------------------------------------------- network

  ghost predicate Fetches(argv: seq<string>) {
    && argv != [] && CalledOneOf(argv[0], Downloaders)
    && (SomeHolds(argv[1..], "http://") || SomeHolds(argv[1..], "https://") || SomeHolds(argv[1..], "|"))
  }

  lemma FetchesExactly(argv: seq<string>)
    ensures Downloads(argv) <==> Fetches(argv)
  {
    if argv != [] {
      TablesArePlain();
      TablesAgree();
      NameIn(argv[0], Downloaders);
      var joined := JoinSpaced(argv[1..]);
      ContainsExactly(joined, "http://");
      ContainsExactly(joined, "https://");
      ContainsExactly(joined, "|");
      JoinHolds(argv[1..], "http://");
      JoinHolds(argv[1..], "https://");
      JoinHolds(argv[1..], "|");
    }
  }

  ghost predicate PipeAt(n: Node, l: Node, r: Node) {
    Subtree(Pipe(l, r), n) && SomeLeafRuns(Leaves(l), Downloaders) && SomeLeafRuns(Leaves(r), Shells)
  }

  /** Somewhere in the tree a download is piped into a shell or interpreter. */
  ghost predicate PipesIntoShell(n: Node) { exists l, r :: PipeAt(n, l, r) }

  lemma PipeHere(l: Node, r: Node)
    ensures (Any(Leaves(l), argv => ProgIn(argv, DownloadProgs)) && Any(Leaves(r), argv => ProgIn(argv, ShellProgs + Interpreters)))
            <==> SomeLeafRuns(Leaves(l), Downloaders) && SomeLeafRuns(Leaves(r), Shells)
  {
    TablesArePlain();
    TablesAgree();
    SomeRunsExactly(Leaves(l), DownloadProgs);
    SomeRunsExactly(Leaves(r), ShellProgs + Interpreters);
  }

  lemma {:induction false} FindPipe(n: Node) returns (l: Node, r: Node)
    requires PipeToShell(n)
    ensures PipeAt(n, l, r)
    decreases n
  {
    match n
    case Pipe(a, b) =>
      PipeHere(a, b);
      if PipeToShell(a) { l, r := FindPipe(a); }
      else if PipeToShell(b) { l, r := FindPipe(b); }
      else { l, r := a, b; }
    case Chain(a, b, _) =>
      if PipeToShell(a) { l, r := FindPipe(a); } else { l, r := FindPipe(b); }
    case Redir(c, _, _) => l, r := FindPipe(c);
    case Subshell(c) => l, r := FindPipe(c);
  }

  lemma PipeExactly(n: Node)
    ensures PipeToShell(n) <==> PipesIntoShell(n)
  {
    if PipeToShell(n) { var l, r := FindPipe(n); }
    if PipesIntoShell(n) {
      var l, r :| PipeAt(n, l, r);
      PipeHere(l, r);
      SubtreeFolds(Pipe(l, r), n);
    }
  }

  ghost predicate SomeFetches(leaves: seq<seq<string>>) { exists i :: 0 <= i < |leaves| && Fetches(leaves[i]) }

  /** 15 points for a download piped into a shell, or a download that names its source. */
  lemma NetworkExactly(n: Node)
    ensures Network(n) == if PipesIntoShell(n) || SomeFetches(Leaves(n)) then 15 else 0
  {
    PipeExactly(n);
    AnyExactly(Leaves(n), Downloads);
    forall i | 0 <= i < |Leaves(n)| ensures Downloads(Leaves(n)[i]) <==> Fetches(Leaves(n)[i]) {
      FetchesExactly(Leaves(n)[i]);
    }
  }

  // ------------------------------------------------------------------ scope

  predicate SystemWide(c: string) {
    || c == "/" || c == "/*" || c == "/**"
    || c == "/etc" || c == "/usr" || c == "/bin" || c == "/sbin" || c == "/boot" || c == "/dev"
  }

  predicate HomeWide(c: string) { "/" <= c || "~" <= c || "$HOME" <= c || "${HOME" <= c }

  predicate Local(c: string) { "./" <= c || "../" <= c || c == "." || c == ".." }

  /** A cleaned path covers at least this much. */
  predicate Covers(c: string, k: nat) {
    (k <= 20 && SystemWide(c)) || (k <= 10 && HomeWide(c)) || (k <= 5 && Local(c))
  }

  ghost predicate WordCovers(word: string, k: nat) {
    !("-" <= word && '/' !in word) && exists c :: Cleaned(word, c) && Covers(c, k)
  }

  lemma PathScopeIs(path: string, k: nat)
    requires k > 0
    ensures PathScope(path) >= k <==> Covers(CleanPath(path), k)
  {
  }

  lemma ArgScopeExactly(word: string, k: nat)
    requires k > 0
    ensures ArgScope(word) >= k <==> WordCovers(word, k)
  {
    var c := CleanPath(word);
    PathScopeIs(word, k);
    CleanExactly(word, c);
    forall c' | Cleaned(word, c') ensures c' == c { CleanExactly(word, c'); }
  }

  predicate Argument(leaves: seq<seq<string>>, i: nat, j: nat) { i < |leaves| && 1 <= j < |leaves[i]| }

  ghost predicate SomeCovers(leaves: seq<seq<string>>, targets: seq<string>, k: nat) {
    || (exists i: nat, j: nat :: Argument(leaves, i, j) && WordCovers(leaves[i][j], k))
    || (exists i :: 0 <= i < |targets| && WordCovers(targets[i], k))
  }

  lemma LeafCovers(argv: seq<string>, k: nat)
    requires k > 0
    ensures ArgsScope(argv) >= k <==> exists j :: 1 <= j < |argv| && WordCovers(argv[j], k)
  {
    if argv != [] {
      var args := argv[1..];
      WidestExactly(args, ArgScope, k);
      forall j | 0 <= j < |args| ensures ArgScope(args[j]) >= k <==> WordCovers(args[j], k) { ArgScopeExactly(args[j], k); }
      assert forall j :: 1 <= j < |argv| ==> args[j - 1] == argv[j];
      assert forall j :: 0 <= j < |args| ==> args[j] == argv[j + 1];
    }
  }

  lemma LeavesCover(leaves: seq<seq<string>>, k: nat)
    requires k > 0
    ensures Widest(leaves, ArgsScope) >= k <==> exists i: nat, j: nat :: Argument(leaves, i, j) && WordCovers(leaves[i][j], k)
  {
    WidestExactly(leaves, ArgsScope, k);
    forall i | 0 <= i < |leaves|
      ensures ArgsScope(leaves[i]) >= k <==> exists j :: 1 <= j < |leaves[i]| && WordCovers(leaves[i][j], k)
    {
      LeafCovers(leaves[i], k);
    }
    if Widest(leaves, ArgsScope) >= k {
      var i :| 0 <= i < |leaves| && ArgsScope(leaves[i]) >= k;
      var j :| 1 <= j < |leaves[i]| && WordCovers(leaves[i][j], k);
      assert Argument(leaves, i, j);
    }
  }

  /** The scope is 20, 10, 5 or 0: the most that an argument or a redirection target
      covers. */
  lemma ScopeExactly(leaves: seq<seq<string>>, targets: seq<string>, k: nat)
    requires k > 0
    ensures Scope(leaves, targets) >= k <==> SomeCovers(leaves, targets, k)
  {
    LeavesCover(leaves, k);
    WidestExactly(targets, ArgScope, k);
    forall i | 0 <= i < |targets| ensures ArgScope(targets[i]) >= k <==> WordCovers(targets[i], k) { ArgScopeExactly(targets[i], k); }
  }

  // --------------------------------------------------------- destructiveness

  ghost predicate Wipes(cmd: string, args: seq<string>) { Called(cmd, "rm") && SomeRecursive(args) && SomeRootTarget(args) }

  ghost predicate Reckless(cmd: string, args: seq<string>) { Called(cmd, "rm") && SomeSpells(args, "--no-preserve-root") }

  ghost predicate DeletesTrees(cmd: string, args: seq<string>) { Called(cmd, "rm") && SomeRecursive(args) }

  /** Worth 35 points. */
  ghost predicate Ruins(cmd: string, args: seq<string>) {
    || CalledOneOf(cmd, Formatters) || (Called(cmd, "dd") && DeviceOperand(args))
    || (Called(cmd, "chmod") && OpensAll(args) && SomeTopTarget(args))
  }

  /** Worth 30 points. */
  ghost predicate Harms(cmd: string, args: seq<string>) {
    CalledOneOf(cmd, Halters) || (Called(cmd, "dd") && !DeviceOperand(args)) || DeletesTrees(cmd, args)
  }

  /** How the scoring loop takes a leaf. */
  datatype Kind = Kind(wipes: bool, reckless: bool, recursive: bool, ruins: bool, harms: bool)

  function KindOf(argv: seq<string>): Kind {
    if argv == [] then Kind(false, false, false, false, false)
    else
      var (prog, args) := Effective(argv);
      var recursive := prog == "rm" && HasRecursive(args);
      Kind(recursive && RmHitsRoot(args), prog == "rm" && "--no-preserve-root" in LowerAll(args), recursive,
           prog in Formatters || (prog == "dd" && RawDevice(args)) || (prog == "chmod" && WideOpen(args) && ChmodHitsRoot(args)),
           prog in HaltProgs || (prog == "dd" && !RawDevice(args)) || recursive)
  }

  ghost predicate IsKind(kind: Kind, cmd: string, args: seq<string>) {
    && (kind.wipes <==> Wipes(cmd, args)) && (kind.reckless <==> Reckless(cmd, args))
    && (kind.recursive <==> DeletesTrees(cmd, args))
    && (kind.ruins <==> Ruins(cmd, args)) && (kind.harms <==> Harms(cmd, args))
  }

  lemma KindIs(argv: seq<string>, cmd: string, args: seq<string>)
    requires Runs(argv, cmd, args)
    ensures IsKind(KindOf(argv), cmd, args)
  {
    RunsExactly(argv, cmd, args);
    ProgramsExactly(cmd);
    ArgumentsExactly(args);
    RmExactly(args);
  }

  lemma RiskOfKind(argv: seq<string>, best: nat)
    ensures var kind := KindOf(argv);
            LeafRisk(argv, best)
            == if kind.wipes || (kind.reckless && (!kind.recursive || best >= 30)) then Worst
               else Best(if kind.ruins then AtLeast(best, 35) else if kind.harms then AtLeast(best, 30) else best)
  {
    TablesAgree();
    if argv != [] {
      var prog := Effective(argv).0;
      if prog == "dd" || prog == "rm" || prog == "chmod" { assert prog !in HaltProgs && prog !in Formatters; }
      if prog in HaltProgs { assert prog !in FormatProgs; }
    }
  }

  predicate Hurts(argv: seq<string>) { KindOf(argv).ruins || KindOf(argv).harms }

  /** At this leaf the loop gives up and returns 40. */
  predicate GivesUp(leaves: seq<seq<string>>, i: nat, best: nat)
    requires i < |leaves|
  {
    var kind := KindOf(leaves[i]);
    kind.wipes || (kind.reckless && (!kind.recursive || best >= 30 || exists j :: 0 <= j < i && Hurts(leaves[j])))
  }

  lemma GivesUpLater(leaves: seq<seq<string>>, i: nat, best: nat, next: nat)
    requires 1 <= i < |leaves| && (next >= 30 <==> best >= 30 || Hurts(leaves[0]))
    ensures GivesUp(leaves, i, best) <==> GivesUp(leaves[1..], i - 1, next)
  {
    var rest := leaves[1..];
    assert forall j :: 1 <= j < |leaves| ==> rest[j - 1] == leaves[j];
    assert (exists j :: 0 <= j < i && Hurts(leaves[j])) <==> Hurts(leaves[0]) || exists j :: 0 <= j < i - 1 && Hurts(rest[j]) by {
      assert forall j :: 0 <= j < |rest| ==> rest[j] == leaves[j + 1];
    }
  }

  ghost predicate Fatal(leaves: seq<seq<string>>, best: nat) { exists i: nat :: i < |leaves| && GivesUp(leaves, i, best) }

  lemma FatalLater(leaves: seq<seq<string>>, best: nat, next: nat)
    requires leaves != [] && (next >= 30 <==> best >= 30 || Hurts(leaves[0])) && !GivesUp(leaves, 0, best)
    ensures Fatal(leaves, best) <==> Fatal(leaves[1..], next)
  {
    if Fatal(leaves, best) {
      var i: nat :| i < |leaves| && GivesUp(leaves, i, best);
      GivesUpLater(leaves, i, best, next);
    }
    if Fatal(leaves[1..], next) {
      var i: nat :| i < |leaves[1..]| && GivesUp(leaves[1..], i, next);
      GivesUpLater(leaves, i + 1, best, next);
    }
  }

  ghost predicate SomeRuins(leaves: seq<seq<string>>) { exists i :: 0 <= i < |leaves| && KindOf(leaves[i]).ruins }

  ghost predicate SomeHarms(leaves: seq<seq<string>>) { exists i :: 0 <= i < |leaves| && KindOf(leaves[i]).harms }

  lemma SomeLater(leaves: seq<seq<string>>)
    requires leaves != []
    ensures SomeRuins(leaves) <==> KindOf(leaves[0]).ruins || SomeRuins(leaves[1..])
    ensures SomeHarms(leaves) <==> KindOf(leaves[0]).harms || SomeHarms(leaves[1..])
  {
    var rest := leaves[1..];
    assert forall j :: 1 <= j < |leaves| ==> rest[j - 1] == leaves[j];
    assert forall j :: 0 <= j < |rest| ==> rest[j] == leaves[j + 1];
  }

  /** The running maximum, in closed form. */
  ghost function Closed(leaves: seq<seq<string>>, best: nat): nat {
    if Fatal(leaves, best) then 40
    else if SomeRuins(leaves) then AtLeast(best, 35)
    else if SomeHarms(leaves) then AtLeast(best, 30)
    else best
  }

  lemma {:induction false} RiskExactly(leaves: seq<seq<string>>, best: nat)
    requires best <= 35
    ensures WorstRisk(leaves, best) == Closed(leaves, best)
    decreases |leaves|
  {
    if leaves != [] {
      RiskOfKind(leaves[0], best);
      if GivesUp(leaves, 0, best) {
      } else {
        var next := LeafRisk(leaves[0], best).best;
        RiskExactly(leaves[1..], next);
        FatalLater(leaves, best, next);
        SomeLater(leaves);
      }
    }
  }

  // -- the same on words

  ghost predicate LeafWipes(argv: seq<string>) { exists cmd, args :: Runs(argv, cmd, args) && Wipes(cmd, args) }
  ghost predicate LeafReckless(argv: seq<string>) { exists cmd, args :: Runs(argv, cmd, args) && Reckless(cmd, args) }
  ghost predicate LeafDeletesTrees(argv: seq<string>) { exists cmd, args :: Runs(argv, cmd, args) && DeletesTrees(cmd, args) }
  ghost predicate LeafRuins(argv: seq<string>) { exists cmd, args :: Runs(argv, cmd, args) && Ruins(cmd, args) }
  ghost predicate LeafHarms(argv: seq<string>) { exists cmd, args :: Runs(argv, cmd, args) && Harms(cmd, args) }

  lemma KindExactly(argv: seq<string>)
    ensures var kind := KindOf(argv);
            && (kind.wipes <==> LeafWipes(argv)) && (kind.reckless <==> LeafReckless(argv))
            && (kind.recursive <==> LeafDeletesTrees(argv))
            && (kind.ruins <==> LeafRuins(argv)) && (kind.harms <==> LeafHarms(argv))
  {
    forall cmd, args | Runs(argv, cmd, args) ensures IsKind(KindOf(argv), cmd, args) { KindIs(argv, cmd, args); }
    if argv != [] { var cmd, args := SomethingRuns(argv); }
  }

  /** `rm -r` of the root, or `rm --no-preserve-root` that is not merely counted as a
      recursive delete: it is, when it is recursive and nothing before it was harmful. */
  ghost predicate Disaster(leaves: seq<seq<string>>, i: nat)
    requires i < |leaves|
  {
    || LeafWipes(leaves[i])
    || (LeafReckless(leaves[i])
        && (LeafDeletesTrees(leaves[i]) ==> exists j :: 0 <= j < i && (LeafRuins(leaves[j]) || LeafHarms(leaves[j]))))
  }

  lemma DisasterExactly(leaves: seq<seq<string>>, i: nat)
    requires i < |leaves|
    ensures GivesUp(leaves, i, 0) <==> Disaster(leaves, i)
  {
    forall j | 0 <= j <= i
      ensures Hurts(leaves[j]) <==> LeafRuins(leaves[j]) || LeafHarms(leaves[j])
    {
      KindExactly(leaves[j]);
    }
    KindExactly(leaves[i]);
  }

  ghost predicate SomeDisaster(leaves: seq<seq<string>>) { exists i: nat :: i < |leaves| && Disaster(leaves, i) }

  /** 40 points for a fork bomb or a disaster, 35 for a command that formats a disk or
      opens the root, 30 for one that halts, copies raw or deletes trees. */
  lemma DestructivenessExactly(leaves: seq<seq<string>>, raw: string)
    ensures Destructiveness(leaves, raw)
            == if HasBomb(raw) || SomeDisaster(leaves) then 40
               else if exists i :: 0 <= i < |leaves| && LeafRuins(leaves[i]) then 35
               else if exists i :: 0 <= i < |leaves| && LeafHarms(leaves[i]) then 30
               else 0
  {
    ForkBombExactly(raw);
    RiskExactly(leaves, 0);
    forall i: nat | i < |leaves| ensures GivesUp(leaves, i, 0) <==> Disaster(leaves, i) { DisasterExactly(leaves, i); }
    forall i | 0 <= i < |leaves|
      ensures KindOf(leaves[i]).ruins <==> LeafRuins(leaves[i])
      ensures KindOf(leaves[i]).harms <==> LeafHarms(leaves[i])
    {
      KindExactly(leaves[i]);
    }
  }

  // -------------------------------------------------------------- fork bombs

  predicate Gap(raw: string, i: int, j: int) { 0 <= i < j < |raw| && forall k :: i < k < j ==> raw[k] == ' ' }

  /** The four characters of the pattern, with nothing but spaces between them. */
  predicate BombAt(raw: string, i: int, j: int, k: int, l: int) {
    && Gap(raw, i, j) && Gap(raw, j, k) && Gap(raw, k, l)
    && raw[i] == ':' && raw[j] == '(' && raw[k] == ')' && raw[l] == '{'
  }

  ghost predicate HasBomb(raw: string) { exists i, j, k, l :: BombAt(raw, i, j, k, l) }

  /** The first character that is no space, at or after `from`. */
  lemma {:induction false} NextChar(raw: string, from: nat) returns (i: nat)
    requires from <= |raw| && NoSpaces(raw[from..]) != ""
    ensures from <= i < |raw| && (forall k :: from <= k < i ==> raw[k] == ' ')
    ensures raw[i] == NoSpaces(raw[from..])[0] && NoSpaces(raw[i + 1..]) == NoSpaces(raw[from..])[1..]
    decreases |raw| - from
  {
    assert raw[from..][1..] == raw[from + 1..];
    if raw[from] == ' ' { i := NextChar(raw, from + 1); } else { i := from; }
  }

  lemma {:induction false} Skipped(raw: string, m: nat) returns (from: nat)
    requires m <= |NoSpaces(raw)|
    ensures from <= |raw| && NoSpaces(raw[from..]) == NoSpaces(raw)[m..]
    decreases m
  {
    if m == 0 {
      from := 0;
      assert raw[0..] == raw && NoSpaces(raw)[0..] == NoSpaces(raw);
    } else {
      var before := Skipped(raw, m - 1);
      var i := NextChar(raw, before);
      from := i + 1;
      assert NoSpaces(raw)[m - 1..][1..] == NoSpaces(raw)[m..];
    }
  }

  lemma FourChars(t: string, m: nat)
    requires HoldsAt(t, ":(){", m)
    ensures m + 4 <= |t| && t[m] == ':' && t[m + 1] == '(' && t[m + 2] == ')' && t[m + 3] == '{'
  {
    var p := t[m..m + 4];
    assert p[0] == t[m] && p[1] == t[m + 1] && p[2] == t[m + 2] && p[3] == t[m + 3];
  }

  /** From where `m` characters that are no spaces lie behind, to behind the next one. */
  lemma NextOf(raw: string, from: nat, m: nat) returns (i: nat)
    requires from <= |raw| && m < |NoSpaces(raw)| && NoSpaces(raw[from..]) == NoSpaces(raw)[m..]
    ensures from <= i < |raw| && (forall k :: from <= k < i ==> raw[k] == ' ')
    ensures raw[i] == NoSpaces(raw)[m] && NoSpaces(raw[i + 1..]) == NoSpaces(raw)[m + 1..]
  {
    i := NextChar(raw, from);
    assert NoSpaces(raw)[m..][1..] == NoSpaces(raw)[m + 1..];
  }

  lemma NextGap(raw: string, i: nat, m: nat) returns (j: nat)
    requires i < |raw| && m < |NoSpaces(raw)| && NoSpaces(raw[i + 1..]) == NoSpaces(raw)[m..]
    ensures Gap(raw, i, j) && raw[j] == NoSpaces(raw)[m] && NoSpaces(raw[j + 1..]) == NoSpaces(raw)[m + 1..]
  {
    j := NextOf(raw, i + 1, m);
  }

  lemma FindBomb(raw: string, m: nat)
    requires HoldsAt(NoSpaces(raw), ":(){", m)
    ensures HasBomb(raw)
  {
    FourChars(NoSpaces(raw), m);
    var from := Skipped(raw, m);
    var i := NextOf(raw, from, m);
    var j := NextGap(raw, i, m + 1);
    var k := NextGap(raw, j, m + 2);
    var l := NextGap(raw, k, m + 3);
    assert BombAt(raw, i, j, k, l);
  }

  lemma {:induction false} OnlySpaces(s: string)
    requires forall k :: 0 <= k < |s| ==> s[k] == ' '
    ensures NoSpaces(s) == ""
  {
    if s != "" { OnlySpaces(s[1..]); }
  }

  lemma GapCloses(raw: string, i: int, j: int)
    requires Gap(raw, i, j)
    ensures NoSpaces(raw[i + 1..]) == NoSpaces(raw[j..])
  {
    assert raw[i + 1..] == raw[i + 1..j] + raw[j..];
    OnlySpaces(raw[i + 1..j]);
    NoSpacesConcat(raw[i + 1..j], raw[j..]);
  }

  lemma OneOn(raw: string, i: int)
    requires 0 <= i < |raw| && raw[i] != ' '
    ensures NoSpaces(raw[i..]) == [raw[i]] + NoSpaces(raw[i + 1..])
  {
    assert raw[i..][1..] == raw[i + 1..];
  }

  lemma BombIsOne(raw: string, i: int, j: int, k: int, l: int)
    requires BombAt(raw, i, j, k, l)
    ensures ForkBomb(raw)
  {
    OneOn(raw, i);
    OneOn(raw, j);
    OneOn(raw, k);
    OneOn(raw, l);
    GapCloses(raw, i, j);
    GapCloses(raw, j, k);
    GapCloses(raw, k, l);
    var tail := NoSpaces(raw[i..]);
    assert tail[..4] == ":(){";
    assert raw == raw[..i] + raw[i..];
    NoSpacesConcat(raw[..i], raw[i..]);
    assert HoldsAt(NoSpaces(raw), ":(){", |NoSpaces(raw[..i])|) by {
      var n := |NoSpaces(raw[..i])|;
      assert NoSpaces(raw)[n..n + 4] == tail[..4];
    }
    ContainsExactly(NoSpaces(raw), ":(){");
  }

  lemma ForkBombExactly(raw: string)
    ensures ForkBomb(raw) <==> HasBomb(raw)
  {
    ContainsExactly(NoSpaces(raw), ":(){");
    if ForkBomb(raw) {
      var m :| HoldsAt(NoSpaces(raw), ":(){", m);
      FindBomb(raw, m);
    }
    if HasBomb(raw) {
      var i, j, k, l :| BombAt(raw, i, j, k, l);
      BombIsOne(raw, i, j, k, l);
    }
  }

  // ---------------------------------------------------------------- verdict

  ghost predicate SomeForbidden(leaves: seq<seq<string>>, unknownApp: (string, seq<string>) -> bool) {
    exists i :: 0 <= i < |leaves| && ForbiddenLeaf(leaves[i], unknownApp)
  }

  ghost predicate SomeSystemTarget(targets: seq<string>) { exists i :: 0 <= i < |targets| && SystemWord(targets[i]) }

  /** What the deny list holds: a fork bomb in the text, a download piped into a shell, a
      redirection into a system tree, or a forbidden command. */
  ghost predicate OnDenyList(n: Node, raw: string, unknownApp: (string, seq<string>) -> bool) {
    HasBomb(raw) || PipesIntoShell(n) || SomeSystemTarget(Targets(n)) || SomeForbidden(Leaves(n), unknownApp)
  }

  lemma TargetsExactly(targets: seq<string>)
    ensures Any(targets, UnderSensitiveRoot) <==> SomeSystemTarget(targets)
  {
    AnyExactly(targets, UnderSensitiveRoot);
    forall i | 0 <= i < |targets| ensures UnderSensitiveRoot(targets[i]) <==> SystemWord(targets[i]) {
      SystemExactly(targets[i]);
    }
  }

  lemma LeavesExactly(leaves: seq<seq<string>>, unknownApp: (string, seq<string>) -> bool)
    ensures SomeLeafDenied(leaves, unknownApp) <==> SomeForbidden(leaves, unknownApp)
  {
    AnyExactly(leaves, argv => LeafDenied(argv, unknownApp));
    forall i | 0 <= i < |leaves| ensures LeafDenied(leaves[i], unknownApp) <==> ForbiddenLeaf(leaves[i], unknownApp) {
      LeafDeniedExactly(leaves[i], unknownApp);
    }
  }

  lemma DenyListByWords(n: Node, raw: string, unknownApp: (string, seq<string>) -> bool)
    ensures DenyReason(n, raw, unknownApp).Some? <==> OnDenyList(n, raw, unknownApp)
  {
    DenyListExactly(n, raw, unknownApp);
    ForkBombExactly(raw);
    PipeExactly(n);
    TargetsExactly(Targets(n));
    LeavesExactly(Leaves(n), unknownApp);
  }

  /** The whole verdict: nothing is allowed, a syntax error is denied with 85 points (a
      fork bomb with 100), the deny list denies with at least 85, and otherwise the five
      components and the bonus are summed, capped at 100, and compared with 30 and 70. */
  lemma AssessExactly(text: string, bonus: nat, unknownApp: (string, seq<string>) -> bool)
    ensures var raw, a := Strip(text), Assess(text, bonus, unknownApp);
            if raw == "" then a == Assessment(ALLOW, 0)
            else if Parse(raw).Err? then a == Assessment(DENY, if HasBomb(raw) then 100 else 85)
            else
              var n := Parse(raw).value;
              var leaves := Leaves(n);
              var sum := Privilege(leaves) + Destructiveness(leaves, raw) + Scope(leaves, Targets(n)) + Irreversibility(leaves)
                         + Network(n) + (if bonus < 15 then bonus else 15);
              var total := if sum < 100 then sum else 100;
              if OnDenyList(n, raw, unknownApp) then a == Assessment(DENY, if total > 85 then total else 85)
              else a == Assessment(if total <= 30 then ALLOW else if total <= 70 then CONFIRM else DENY, total)
  {
    var raw := Strip(text);
    if raw != "" {
      ForkBombExactly(raw);
      if Parse(raw).Err? {
        RiskGrows([[]], 0, 0);
      } else {
        DenyListByWords(Parse(raw).value, raw, unknownApp);
        WholeDominatesWorstLeaf(raw, bonus);
      }
    }
  }
}
