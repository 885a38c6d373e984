/** The offline planner (src/orchestration/offline_planner.py and intents.py): from an
    intent and its slots to a list of workflow steps. */
module Planner {
  import opened Text
  import ShellParser
  import ShellPrinter

  // -- unique ids --------------------------------------------------------------

  /** The k-th candidate for an id: the base, then `base-2`, `base-3`, ... */
  function Name(base: string, k: nat): string { if k <= 1 then base else base + "-" + Digits(k) }

  lemma NameInjective(base: string, j: nat, k: nat)
    requires 1 <= j && 1 <= k && Name(base, j) == Name(base, k)
    ensures j == k
  {
    if j > 1 { assert Name(base, j)[|base| + 1..] == Digits(j); }
    if k > 1 { assert Name(base, k)[|base| + 1..] == Digits(k); }
    DigitsValue(j);
    DigitsValue(k);
  }

  /** The first `k - 1` candidates. */
  function Names(base: string, k: nat): set<string> { set j | 1 <= j < k :: Name(base, j) }

  lemma NextName(base: string, k: nat)
    requires k >= 1
    ensures Names(base, k + 1) == Names(base, k) + {Name(base, k)} && Name(base, k) !in Names(base, k)
  {
    if Name(base, k) in Names(base, k) {
      var j :| 1 <= j < k && Name(base, j) == Name(base, k);
      NameInjective(base, j, k);
    }
    forall x | x in Names(base, k + 1) ensures x in Names(base, k) + {Name(base, k)} {
      var j :| 1 <= j < k + 1 && Name(base, j) == x;
    }
  }

  lemma Shrinks(taken: set<string>, tried: set<string>, x: string)
    requires x in taken && x !in tried
    ensures |taken - (tried + {x})| < |taken - tried|
  {
    assert taken - tried == (taken - (tried + {x})) + {x};
  }

  /** The first candidate that is free: candidates differ, so a finite set of taken ids
      cannot hold them all. */
  function FirstFree(base: string, taken: set<string>, k: nat): (r: string)
    requires k >= 1
    ensures r !in taken && base <= r
    decreases |taken - Names(base, k)|
  {
    if Name(base, k) !in taken then Name(base, k)
    else
      NextName(base, k);
      Shrinks(taken, Names(base, k), Name(base, k));
      FirstFree(base, taken, k + 1)
  }

  /** `_unique`: an id nobody has, remembered as taken. */
  method Unique(base: string, taken: set<string>) returns (id: string, taken': set<string>)
    ensures id == FirstFree(base, taken, 1) && taken' == taken + {id}
  {
    var candidate, index := base, 2;
    while candidate in taken
      invariant index >= 2 && candidate == Name(base, index - 1)
      invariant FirstFree(base, taken, index - 1) == FirstFree(base, taken, 1)
      decreases |taken - Names(base, index - 1)|
    {
      NextName(base, index - 1);
      Shrinks(taken, Names(base, index - 1), candidate);
      candidate := base + "-" + Digits(index);
      index := index + 1;
    }
    id, taken' := candidate, taken + {candidate};
  }

  // -- steps ---------------------------------------------------------------------

  datatype Kind = Shell | Approval

  datatype Step = Step(id: string, kind: Kind, run: string, dependsOn: seq<string>, compensation: string)

  function IdsOf(steps: seq<Step>): set<string> { set s | s in steps :: s.id }

  predicate DistinctIds(steps: seq<Step>) {
    forall i, j :: 0 <= i < j < |steps| ==> steps[i].id != steps[j].id
  }

  predicate DependsOnEarlier(steps: seq<Step>, j: nat)
    requires j < |steps|
  {
    forall d <- steps[j].dependsOn :: exists i :: 0 <= i < j && steps[i].id == d
  }

  /** A workflow that can be run in the order it is written. */
  predicate WellFormed(steps: seq<Step>) {
    DistinctIds(steps) && forall j :: 0 <= j < |steps| ==> DependsOnEarlier(steps, j)
  }

  predicate SlugChar(c: char) {
    'a' <= c <= 'z' || 'A' <= c <= 'Z' || '0' <= c <= '9' || c == '.' || c == '_' || c == '-'
  }

  /** Each run of other characters becomes one dash. */
  function Dashed(s: string): string {
    if s == "" then ""
    else if SlugChar(s[0]) then [s[0]] + Dashed(s[1..])
    else if |s| > 1 && !SlugChar(s[1]) then Dashed(s[1..])
    else "-" + Dashed(s[1..])
  }

  function TrimLeft(s: string): string { if s != "" && s[0] == '-' then TrimLeft(s[1..]) else s }

  function TrimRight(s: string): string { if s != "" && s[|s| - 1] == '-' then TrimRight(s[..|s| - 1]) else s }

  function Slug(value: string, fallback: string): string {
    var slug := TrimRight(TrimLeft(Dashed(ShellParser.Strip(value))));
    if slug != "" then slug else fallback
  }

  predicate SlugText(s: string) { forall i :: 0 <= i < |s| ==> SlugChar(s[i]) }

  lemma {:induction false} DashedIsSlug(s: string)
    ensures SlugText(Dashed(s)) && (SlugText(s) ==> Dashed(s) == s)
  {
    if s != "" {
      DashedIsSlug(s[1..]);
      assert s == [s[0]] + s[1..];
      if SlugText(s) { assert SlugText(s[1..]); }
    }
  }

  predicate NoSlugChar(s: string) { forall i :: 0 <= i < |s| ==> !SlugChar(s[i]) }

  lemma {:induction false} DashedRun(run: string, rest: string)
    requires run != "" && NoSlugChar(run) && (rest == "" || SlugChar(rest[0]))
    ensures Dashed(run + rest) == "-" + Dashed(rest)
    decreases |run|
  {
    assert (run + rest)[1..] == run[1..] + rest;
    if |run| > 1 { DashedRun(run[1..], rest); } else { assert run[1..] + rest == rest; }
  }

  /** Slug characters stay, and each longest run of others becomes one dash. */
  lemma {:induction false} DashedRuns(kept: string, run: string, rest: string)
    requires SlugText(kept) && run != "" && NoSlugChar(run) && (rest == "" || SlugChar(rest[0]))
    ensures Dashed(kept + (run + rest)) == kept + ("-" + Dashed(rest))
    decreases |kept|
  {
    var s := kept + (run + rest);
    if kept == "" {
      assert s == run + rest;
      DashedRun(run, rest);
    } else {
      assert s[1..] == kept[1..] + (run + rest);
      assert kept == [kept[0]] + kept[1..];
      DashedRuns(kept[1..], run, rest);
    }
  }

  lemma {:induction false} TrimLeftShape(s: string) returns (k: nat)
    ensures k <= |s| && TrimLeft(s) == s[k..] && (forall i :: 0 <= i < k ==> s[i] == '-') && (k < |s| ==> s[k] != '-')
  {
    if s != "" && s[0] == '-' {
      var n := TrimLeftShape(s[1..]);
      assert s[1..][n..] == s[n + 1..];
      assert forall i :: 1 <= i < |s| ==> s[i] == s[1..][i - 1];
      k := n + 1;
    } else {
      k := 0;
      assert s[0..] == s;
    }
  }

  lemma {:induction false} TrimRightShape(s: string) returns (k: nat)
    ensures k <= |s| && TrimRight(s) == s[..k] && (forall i :: k <= i < |s| ==> s[i] == '-') && (k > 0 ==> s[k - 1] != '-')
  {
    if s != "" && s[|s| - 1] == '-' {
      k := TrimRightShape(s[..|s| - 1]);
      assert s[..|s| - 1][..k] == s[..k];
    } else {
      k := |s|;
      assert s[..|s|] == s;
    }
  }

  /** An id part holds only letters, digits, dots, underscores and dashes, with no dash at
      an end, unless it is the fallback; a text that is like that stays as it is. */
  lemma SlugShape(value: string, fallback: string)
    ensures var slug := Slug(value, fallback);
            slug == fallback || (slug != "" && SlugText(slug) && slug[0] != '-' && slug[|slug| - 1] != '-')
    ensures var s := ShellParser.Strip(value);
            s != "" && SlugText(s) && s[0] != '-' && s[|s| - 1] != '-' ==> Slug(value, fallback) == s
  {
    var d := Dashed(ShellParser.Strip(value));
    DashedIsSlug(ShellParser.Strip(value));
    var k := TrimLeftShape(d);
    var m := TrimRightShape(TrimLeft(d));
    assert forall i :: 0 <= i < m ==> TrimLeft(d)[..m][i] == d[k + i];
  }

  function FolderBase(folder: string): string { "mkdir-" + Slug(folder, "node") }

  function FolderStep(id: string, path: string, dependsOn: seq<string>): Step {
    Step(id, Shell, "mkdir -p " + ShellPrinter.Quote(path), dependsOn, "rmdir " + ShellPrinter.Quote(path))
  }

  /** The step for one folder, under some id made from its name. */
  predicate MakesFolder(step: Step, prefix: string, folder: string, dependsOn: seq<string>) {
    step == FolderStep(step.id, prefix + folder, dependsOn) && FolderBase(folder) <= step.id
  }

  /** `folder_nodes`: one step per folder, in order, with ids of their own. */
  method FolderNodes(folders: seq<string>, prefix: string) returns (steps: seq<Step>)
    ensures |steps| == |folders| && DistinctIds(steps)
    ensures forall i :: 0 <= i < |steps| ==> MakesFolder(steps[i], prefix, folders[i], [])
  {
    steps := [];
    var taken: set<string> := {};
    var i := 0;
    while i < |folders|
      invariant 0 <= i <= |folders| && |steps| == i && DistinctIds(steps)
      invariant forall j :: 0 <= j < i ==> steps[j].id in taken
      invariant forall j :: 0 <= j < i ==> MakesFolder(steps[j], prefix, folders[j], [])
    {
      var id, taken' := Unique(FolderBase(folders[i]), taken);
      var step := FolderStep(id, prefix + folders[i], []);
      assert MakesFolder(step, prefix, folders[i], []);
      steps, taken := steps + [step], taken';
      i := i + 1;
    }
  }

  // -- acyclic ---------------------------------------------------------------------

  /** The dependency edges of a plan, from step `i` to step `j`. */
  predicate Edge(steps: seq<Step>, i: nat, j: nat) {
    i < |steps| && j < |steps| && steps[i].id in steps[j].dependsOn
  }

  predicate Walk(steps: seq<Step>, path: seq<nat>) {
    forall k :: 0 <= k < |path| - 1 ==> Edge(steps, path[k], path[k + 1])
  }

  lemma EdgesGoForward(steps: seq<Step>, i: nat, j: nat)
    requires WellFormed(steps) && Edge(steps, i, j)
    ensures i < j
  {
    assert DependsOnEarlier(steps, j);
    var d := steps[i].id;
    assert d in steps[j].dependsOn;
    var k :| 0 <= k < j && steps[k].id == d;
    assert k == i;
  }

  /** No walk along the dependencies comes back to where it was. */
  lemma {:induction false} Acyclic(steps: seq<Step>, path: seq<nat>)
    requires WellFormed(steps) && Walk(steps, path) && |path| >= 2
    ensures path[0] < path[|path| - 1]
    decreases |path|
  {
    var n := |path| - 1;
    assert Edge(steps, path[n - 1], path[n - 1 + 1]);
    EdgesGoForward(steps, path[n - 1], path[n]);
    if n >= 2 {
      var init := path[..n];
      forall k | 0 <= k < |init| - 1 ensures Edge(steps, init[k], init[k + 1]) {
        assert Edge(steps, path[k], path[k + 1]);
      }
      Acyclic(steps, init);
    }
  }

  // -- the steps of an intent --------------------------------------------------------

  datatype Intent =
    | CreateFolder | WriteFile | CreateWorkspace | InstallApp | RunCommand | SystemInfo | ListDirectory
    | Other(name: string)  // help, unknown, and names outside the vocabulary

  /** The slots of a request; an absent slot is empty. */
  datatype Slots = Slots(path: string, folderNames: seq<string>, content: string, workspaceName: string,
                         app: string, command: string, metric: string)

  datatype Config = Config(threshold: real, maxSteps: int, defaultFolders: seq<string>, install: string -> string)

  function MetricCommand(metric: string): string {
    if metric == "disk" then "df -h"
    else if metric == "memory" then "free -h"
    else if metric == "cpu" then "nproc"
    else if metric == "uptime" then "uptime"
    else if metric == "load" then "cat /proc/loadavg"
    else if metric == "processes" then "ps -eo pid,comm --sort=-%cpu | head -20"
    else ""
  }

  function WriteRun(content: string, path: string): string {
    "printf '%s\\n' " + ShellPrinter.Quote(content) + " > " + ShellPrinter.Quote(path)
  }

  function RemoveFile(path: string): string { "rm -f " + ShellPrinter.Quote(path) }

  /** The folders of a new workspace. */
  function Folders(slots: Slots, config: Config): seq<string> {
    if slots.folderNames != [] then slots.folderNames else config.defaultFolders
  }

  /** The steps of a new workspace: the root, its folders, its README. */
  predicate IsWorkspace(steps: seq<Step>, name: string, folders: seq<string>) {
    && |steps| == |folders| + 2
    && steps[0] == FolderStep(steps[0].id, name, [])
    && (forall i :: 0 <= i < |folders| ==> MakesFolder(steps[i + 1], name + "/", folders[i], [steps[0].id]))
    && steps[|folders| + 1] ==
       Step(steps[|folders| + 1].id, Shell, WriteRun("# " + name, name + "/README.md"), [steps[0].id], RemoveFile(name + "/README.md"))
  }

  /** An install waits for the approval in front of it. */
  predicate IsInstall(steps: seq<Step>, run: string) {
    && |steps| == 2
    && steps[0] == Step(steps[0].id, Approval, "", [], "")
    && steps[1] == Step(steps[1].id, Shell, run, [steps[0].id], "")
  }

  predicate IsSingle(steps: seq<Step>, run: string, compensation: string) {
    |steps| == 1 && steps[0] == Step(steps[0].id, Shell, run, [], compensation)
  }

  /** What the steps of an intent do; none when a needed detail is empty. */
  predicate Carries(intent: Intent, slots: Slots, config: Config, steps: seq<Step>) {
    match intent
    case CreateFolder =>
      |steps| == |slots.folderNames| && forall i :: 0 <= i < |steps| ==> MakesFolder(steps[i], "", slots.folderNames[i], [])
    case WriteFile =>
      if slots.path == "" || slots.content == "" then steps == []
      else IsSingle(steps, WriteRun(slots.content, slots.path), RemoveFile(slots.path))
    case CreateWorkspace =>
      if slots.workspaceName == "" then steps == [] else IsWorkspace(steps, slots.workspaceName, Folders(slots, config))
    case InstallApp =>
      if slots.app == "" then steps == [] else IsInstall(steps, config.install(ShellPrinter.Quote(slots.app)))
    case RunCommand => if slots.command == "" then steps == [] else IsSingle(steps, slots.command, "")
    case SystemInfo =>
      if MetricCommand(slots.metric) == "" then steps == [] else IsSingle(steps, MetricCommand(slots.metric), "")
    case ListDirectory =>
      if slots.path == "" then steps == [] else IsSingle(steps, "ls -la " + ShellPrinter.Quote(slots.path), "")
    case Other(_) => steps == []
  }

  /** Steps that all depend on the first one only. */
  lemma StarIsWellFormed(steps: seq<Step>, root: string)
    requires DistinctIds(steps) && (steps != [] ==> steps[0].id == root && steps[0].dependsOn == [])
    requires forall j :: 0 < j < |steps| ==> steps[j].dependsOn == [root] || steps[j].dependsOn == []
    ensures WellFormed(steps)
  {
    forall j | 0 <= j < |steps| ensures DependsOnEarlier(steps, j) {
      forall d | d in steps[j].dependsOn ensures exists i :: 0 <= i < j && steps[i].id == d {
        assert d == root && steps[0].id == d && j > 0;
      }
    }
  }

  lemma FirstChars(a: string, b: string, x: string, y: string)
    requires a <= x && b <= y && a != "" && b != "" && a[0] != b[0]
    ensures x != y
  {
    assert x[0] == a[0] && y[0] == b[0];
  }

  function RootBase(name: string): (r: string)
    ensures r != "" && r[0] == 'c'
  {
    "create-" + Slug(name, "workspace")
  }

  lemma FolderBaseStarts(folder: string)
    ensures FolderBase(folder) != "" && FolderBase(folder)[0] == 'm'
  {
  }

  /** The root, and each folder's step now waiting for it. */
  method WrapFolders(root: Step, nodes: seq<Step>) returns (steps: seq<Step>)
    requires DistinctIds(nodes) && forall i :: 0 <= i < |nodes| ==> nodes[i].id != root.id
    ensures |steps| == |nodes| + 1 && steps[0] == root && DistinctIds(steps)
    ensures forall i :: 0 < i < |steps| ==> steps[i] == nodes[i - 1].(dependsOn := [root.id])
  {
    steps := [root];
    var i := 0;
    while i < |nodes|
      invariant 0 <= i <= |nodes| && |steps| == i + 1 && steps[0] == root && DistinctIds(steps)
      invariant forall j :: 0 < j < |steps| ==> steps[j] == nodes[j - 1].(dependsOn := [root.id])
    {
      steps := steps + [nodes[i].(dependsOn := [root.id])];
      i := i + 1;
    }
  }

  lemma Rewrapped(node: Step, prefix: string, folder: string, root: string)
    requires MakesFolder(node, prefix, folder, []) && root != "" && root[0] == 'c'
    ensures MakesFolder(node.(dependsOn := [root]), prefix, folder, [root]) && node.id != root
  {
    FolderBaseStarts(folder);
    FirstChars(FolderBase(folder), root, node.id, root);
  }

  /** The root and its folders. */
  method BuildFolders(name: string, folders: seq<string>) returns (steps: seq<Step>)
    ensures |steps| == |folders| + 1 && DistinctIds(steps) && steps[0] == FolderStep(steps[0].id, name, [])
    ensures forall i :: 0 < i < |steps| ==> MakesFolder(steps[i], name + "/", folders[i - 1], [steps[0].id])
  {
    var rootId, _ := Unique(RootBase(name), {});
    var nodes := FolderNodes(folders, name + "/");
    forall i | 0 <= i < |nodes|
      ensures MakesFolder(nodes[i].(dependsOn := [rootId]), name + "/", folders[i], [rootId]) && nodes[i].id != rootId {
      Rewrapped(nodes[i], name + "/", folders[i], rootId);
    }
    steps := WrapFolders(FolderStep(rootId, name, []), nodes);
  }

  method BuildWorkspace(name: string, folders: seq<string>) returns (steps: seq<Step>)
    ensures WellFormed(steps) && IsWorkspace(steps, name, folders)
  {
    steps := BuildFolders(name, folders);
    var root := steps[0].id;
    var readmeId, _ := Unique("write-readme", IdsOf(steps));
    forall j | 0 <= j < |steps| ensures steps[j].id != readmeId { assert steps[j].id in IdsOf(steps); }
    assert forall j :: 0 < j < |steps| ==> steps[j].dependsOn == [root];
    steps := steps + [Step(readmeId, Shell, WriteRun("# " + name, name + "/README.md"), [root], RemoveFile(name + "/README.md"))];
    StarIsWellFormed(steps, root);
  }

  method BuildSingle(base: string, run: string, compensation: string) returns (steps: seq<Step>)
    ensures WellFormed(steps) && IsSingle(steps, run, compensation)
  {
    var id, _ := Unique(base, {});
    steps := [Step(id, Shell, run, [], compensation)];
  }

  method BuildInstall(app: string, run: string) returns (steps: seq<Step>)
    ensures WellFormed(steps) && IsInstall(steps, run)
  {
    var approval, _ := Unique("approve-install", {});
    var install, _ := Unique("install-" + Slug(app, "node"), {approval});
    steps := [Step(approval, Approval, "", [], ""), Step(install, Shell, run, [approval], "")];
    StarIsWellFormed(steps, approval);
  }

  /** `build_steps`. */
  method BuildSteps(intent: Intent, slots: Slots, config: Config) returns (steps: seq<Step>)
    ensures WellFormed(steps) && Carries(intent, slots, config, steps)
  {
    steps := [];
    match intent
    case CreateFolder =>
      steps := FolderNodes(slots.folderNames, "");
      if steps != [] { StarIsWellFormed(steps, steps[0].id); }
    case WriteFile =>
      if slots.path != "" && slots.content != "" {
        steps := BuildSingle("write-" + Slug(slots.path, "file"), WriteRun(slots.content, slots.path), RemoveFile(slots.path));
      }
    case CreateWorkspace =>
      if slots.workspaceName != "" { steps := BuildWorkspace(slots.workspaceName, Folders(slots, config)); }
    case InstallApp =>
      if slots.app != "" { steps := BuildInstall(slots.app, config.install(ShellPrinter.Quote(slots.app))); }
    case RunCommand =>
      if slots.command != "" { steps := BuildSingle("run-command", slots.command, ""); }
    case SystemInfo =>
      if MetricCommand(slots.metric) != "" {
        steps := BuildSingle("report-" + Slug(slots.metric, "node"), MetricCommand(slots.metric), "");
      }
    case ListDirectory =>
      if slots.path != "" { steps := BuildSingle("list-directory", "ls -la " + ShellPrinter.Quote(slots.path), ""); }
    case Other(_) =>
  }

  // -- the plan ------------------------------------------------------------------------

  datatype Plan = Plan(intent: Intent, steps: seq<Step>, needsClarification: bool)

  predicate Executable(plan: Plan) { !plan.intent.Other? && plan.steps != [] && !plan.needsClarification }

  predicate Filled(value: string) { ShellParser.Strip(value) != "" }

  /** Every required slot has something in it. */
  predicate Complete(intent: Intent, slots: Slots) {
    match intent
    case CreateFolder => slots.folderNames != []
    case WriteFile => Filled(slots.path) && Filled(slots.content)
    case CreateWorkspace => Filled(slots.workspaceName)
    case InstallApp => Filled(slots.app)
    case RunCommand => Filled(slots.command)
    case SystemInfo => Filled(slots.metric)
    case ListDirectory => Filled(slots.path)
    case Other(_) => true
  }

  datatype Slot = PathSlot | FoldersSlot | ContentSlot | WorkspaceSlot | AppSlot | CommandSlot | MetricSlot

  /** The required slots of each intent (`INTENT_SPECS`). */
  function Required(intent: Intent): set<Slot> {
    match intent
    case CreateFolder => {FoldersSlot}
    case WriteFile => {PathSlot, ContentSlot}
    case CreateWorkspace => {WorkspaceSlot}
    case InstallApp => {AppSlot}
    case RunCommand => {CommandSlot}
    case SystemInfo => {MetricSlot}
    case ListDirectory => {PathSlot}
    case Other(_) => {}
  }

  predicate Blank(s: string) { forall i :: 0 <= i < |s| ==> ShellParser.IsSpace(s[i]) }

  predicate Given(slots: Slots, slot: Slot) {
    match slot
    case PathSlot => !Blank(slots.path)
    case FoldersSlot => slots.folderNames != []
    case ContentSlot => !Blank(slots.content)
    case WorkspaceSlot => !Blank(slots.workspaceName)
    case AppSlot => !Blank(slots.app)
    case CommandSlot => !Blank(slots.command)
    case MetricSlot => !Blank(slots.metric)
  }

  lemma {:induction false} StripsToNothing(s: string)
    ensures ShellParser.Strip(s) == "" <==> Blank(s)
  {
    if s != "" && ShellParser.IsSpace(s[0]) {
      StripsToNothing(s[1..]);
      assert forall i :: 1 <= i < |s| ==> s[i] == s[1..][i - 1];
    } else if s != "" {
      KeepsFirst(s);
    }
  }

  lemma {:induction false} KeepsFirst(s: string)
    requires s != "" && !ShellParser.IsSpace(s[0])
    ensures ShellParser.StripRight(s) != ""
  {
    if |s| > 1 && ShellParser.IsSpace(s[|s| - 1]) { KeepsFirst(s[..|s| - 1]); }
  }

  /** A request is complete exactly when none of its required slots is missing or blank. */
  lemma CompleteExactly(intent: Intent, slots: Slots)
    ensures Complete(intent, slots) <==> forall slot <- Required(intent) :: Given(slots, slot)
  {
    StripsToNothing(slots.path);
    StripsToNothing(slots.content);
    StripsToNothing(slots.workspaceName);
    StripsToNothing(slots.app);
    StripsToNothing(slots.command);
    StripsToNothing(slots.metric);
    match intent
    case CreateFolder => assert FoldersSlot in Required(intent);
    case WriteFile => assert PathSlot in Required(intent) && ContentSlot in Required(intent);
    case CreateWorkspace => assert WorkspaceSlot in Required(intent);
    case InstallApp => assert AppSlot in Required(intent);
    case RunCommand => assert CommandSlot in Required(intent);
    case SystemInfo => assert MetricSlot in Required(intent);
    case ListDirectory => assert PathSlot in Required(intent);
    case Other(_) =>
  }

  /** How many steps an intent needs. */
  function StepCount(intent: Intent, slots: Slots, config: Config): nat {
    match intent
    case CreateFolder => |slots.folderNames|
    case CreateWorkspace => if slots.workspaceName == "" then 0 else |Folders(slots, config)| + 2
    case InstallApp => if slots.app == "" then 0 else 2
    case WriteFile => if slots.path == "" || slots.content == "" then 0 else 1
    case RunCommand => if slots.command == "" then 0 else 1
    case SystemInfo => if MetricCommand(slots.metric) == "" then 0 else 1
    case ListDirectory => if slots.path == "" then 0 else 1
    case Other(_) => 0
  }

  lemma CarriesCount(intent: Intent, slots: Slots, config: Config, steps: seq<Step>)
    requires Carries(intent, slots, config, steps)
    ensures |steps| == StepCount(intent, slots, config)
  {
  }

  /** `from_slots`: a plan may be run exactly when it is complete, confident, and has
      between one step and the limit; its steps then have distinct ids and depend on
      earlier steps only. */
  method FromSlots(intent: Intent, slots: Slots, config: Config, confidence: real) returns (plan: Plan)
    ensures plan.intent == intent && WellFormed(plan.steps)
    ensures Executable(plan) <==>
            && !intent.Other? && Complete(intent, slots) && confidence >= config.threshold
            && 1 <= StepCount(intent, slots, config) <= config.maxSteps
    ensures Executable(plan) ==> 1 <= |plan.steps| <= config.maxSteps && Carries(intent, slots, config, plan.steps)
  {
    if !Complete(intent, slots) { return Plan(intent, [], true); }
    var steps := BuildSteps(intent, slots, config);
    CarriesCount(intent, slots, config, steps);
    if steps == [] && !intent.Other? { return Plan(intent, [], true); }
    if |steps| > config.maxSteps { return Plan(intent, [], true); }
    if confidence < config.threshold { return Plan(intent, steps, true); }
    plan := Plan(intent, steps, false);
  }
}
