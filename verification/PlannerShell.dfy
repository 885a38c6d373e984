/** What the planner's shell texts (src/orchestration/offline_planner.py) mean to a shell:
    how they parse, and what their quoted words stand for. */
module PlannerShell {
  import opened Common
  import opened ShellLexer
  import opened ShellParser
  import opened ShellPrinter
  import opened ShellTargets
  import opened ShellRoundTrip
  import opened ShellReparse
  import opened ShellGrammar
  import ShellLaws
  import Planner

  // ------------------------------------------------------- quoted words

  /** What a word without substitutions stands for once the shell removes its quotes. */
  function Meaning(w: Word): string {
    match w
    case End => ""
    case Plain(c, more) => [c] + Meaning(more)
    case Escape(c, more) => [c] + Meaning(more)
    case Single(u, more) => u + Meaning(more)
    case Double(q, more) => Inside(q) + Meaning(more)
    case Subst(body, more) => "$(" + BodyText(body) + Meaning(more)
  }

  function Inside(q: Quoted): string {
    match q
    case Close => ""
    case Char(c, more) => [c] + Inside(more)
    case Pair(c, more) => [c] + Inside(more)
  }

  function Literal(w: string): Word { if w == "" then End else Plain(w[0], Literal(w[1..])) }

  /** The pieces that `shlex.quote` writes: single-quoted stretches, and each single quote
      between double quotes. */
  function Pieces(u: string, w: string): Word
    decreases |w|
  {
    if w == "" then Single(u, End)
    else if w[0] == '\'' then Single(u, Double(Char('\'', Close), Pieces("", w[1..])))
    else Pieces(u + [w[0]], w[1..])
  }

  lemma {:induction false} LiteralText(w: string)
    ensures WordText(Literal(w)) == w && Meaning(Literal(w)) == w
  {
    if w != "" { LiteralText(w[1..]); }
  }

  lemma {:induction false} PiecesMeaning(u: string, w: string)
    ensures Meaning(Pieces(u, w)) == u + w
    decreases |w|
  {
    if w == "" {
      assert u + "" == u;
    } else {
      assert w == [w[0]] + w[1..];
      if w[0] == '\'' {
        PiecesMeaning("", w[1..]);
        assert Inside(Char('\'', Close)) == "'";
        assert "" + w[1..] == w[1..];
      } else {
        PiecesMeaning(u + [w[0]], w[1..]);
      }
    }
  }

  lemma QuotePiece(u: string, rest: string)
    ensures "'" + (u + "'") + ("\"" + (['\''] + "\"") + ("'" + ("" + rest + "'")))
            == "'" + (u + (['\'', '"', '\'', '"', '\''] + rest) + "'")
  {
  }

  lemma {:induction false} PiecesText(u: string, w: string)
    ensures WordText(Pieces(u, w)) == "'" + (u + Escaped(w) + "'")
    decreases |w|
  {
    if w == "" {
      assert WordText(Single(u, End)) == "'" + (u + "'") + "";
      assert u + "" == u;
    } else if w[0] == '\'' {
      PiecesText("", w[1..]);
      var tail := Pieces("", w[1..]);
      assert HeadText(Double(Char('\'', Close), tail)) == "\"" + (['\''] + "\"");
      QuotePiece(u, Escaped(w[1..]));
    } else {
      PiecesText(u + [w[0]], w[1..]);
      assert u + [w[0]] + Escaped(w[1..]) == u + ([w[0]] + Escaped(w[1..]));
    }
  }

  ghost predicate StandsFor(tok: string, w: string) { exists g :: WordText(g) == tok && Meaning(g) == w && ShieldedAll(g) }

  /** Single-quoted stretches and quoted quotes only, or safe characters only. */
  predicate ShieldedAll(g: Word) {
    match g
    case End => true
    case Plain(c, more) => IsSafeChar(c) && ShieldedAll(more)
    case Single(u, more) => '\'' !in u && ShieldedAll(more)
    case Double(q, more) => q == Char('\'', Close) && ShieldedAll(more)
    case _ => false
  }

  lemma {:induction false} LiteralShielded(w: string)
    requires forall i :: 0 <= i < |w| ==> IsSafeChar(w[i])
    ensures ShieldedAll(Literal(w))
  {
    if w != "" {
      forall i | 0 <= i < |w[1..]| ensures IsSafeChar(w[1..][i]) { assert w[1..][i] == w[i + 1]; }
      LiteralShielded(w[1..]);
    }
  }

  lemma {:induction false} PiecesShielded(u: string, w: string)
    requires '\'' !in u
    ensures ShieldedAll(Pieces(u, w))
    decreases |w|
  {
    if w != "" {
      if w[0] == '\'' { PiecesShielded("", w[1..]); } else { PiecesShielded(u + [w[0]], w[1..]); }
    }
  }

  /** A quoted word stands for the text itself, whatever is in it, and nothing in it is
      left for the shell to expand. */
  lemma QuoteStandsFor(w: string)
    ensures StandsFor(Quote(w), w)
  {
    if IsSafe(w) {
      LiteralText(w);
      LiteralShielded(w);
      assert WordText(Literal(w)) == Quote(w);
    } else {
      PiecesText("", w);
      PiecesMeaning("", w);
      PiecesShielded("", w);
      assert "" + w == w && "" + Escaped(w) == Escaped(w);
      assert "'" + (Escaped(w) + "'") == "'" + Escaped(w) + "'";
      assert WordText(Pieces("", w)) == Quote(w);
    }
  }

  // ------------------------------------------------------ quoted commands

  function CommandText(words: seq<string>): string { JoinSpaced(QuoteAll(words)) }

  lemma AfterNothing(toks: seq<string>)
    ensures ShellLexer.After(toks, Ok([])) == Ok(toks)
  {
    assert toks + [] == toks;
  }

  lemma CommandTokens(words: seq<string>)
    requires words != []
    ensures Tokens(CommandText(words)) == Ok(QuoteAll(words))
  {
    ScanWords(words, "");
    assert CommandText(words) + "" == CommandText(words);
    AfterNothing(QuoteAll(words));
  }

  lemma RedirectTokens(words: seq<string>, path: string)
    requires words != []
    ensures Tokens(CommandText(words) + (" " + ">" + " " + Quote(path))) == Ok(QuoteAll(words) + [">", Quote(path)])
  {
    QuoteIsSolid(path);
    SolidLeads(Quote(path), "");
    assert Quote(path) + "" == Quote(path);
    assert Tokens(Quote(path)) == Ok([Quote(path)]) by { assert [Quote(path)] + [] == [Quote(path)]; }
    ScanInfix(">", Quote(path));
    ScanWords(words, " " + ">" + " " + Quote(path));
    assert [">"] + [Quote(path)] == [">", Quote(path)];
  }

  lemma SimpleTurn(toks: seq<string>, words: seq<string>, redirs: seq<(string, string)>)
    requires ReadSimple([], [], toks) == Ok(Simple(words, redirs, []))
    requires words != [] && !IsAssign(words[0]) && toks != [] && toks[0] == words[0] && !IsOperator(toks[0])
    ensures ParseTokens(toks) == Ok(ApplyRedirs(Command(words, []), redirs))
  {
    OperatorKinds(toks[0]);
    var node := ApplyRedirs(Command(words, []), redirs);
    assert ParseSimple(toks) == Ok(Parsed(node, []));
    assert ParseFactor(toks) == Ok(Parsed(node, []));
    assert ParsePipe(toks) == Ok(Parsed(node, []));
    assert ParseChain(toks) == Ok(Parsed(node, []));
  }

  /** A text of quoted words is one command with exactly those words. */
  lemma CommandParses(words: seq<string>)
    requires words != [] && !IsAssign(Quote(words[0]))
    ensures Parse(CommandText(words)) == Ok(Command(QuoteAll(words), []))
  {
    var toks := QuoteAll(words);
    CommandTokens(words);
    QuotedAreNoOperators(words);
    ReadWords([], [], toks, []);
    assert toks + [] == toks && [] + toks == toks;
    QuoteIsSolid(words[0]);
    SimpleTurn(toks, toks, []);
  }

  /** With `>` and a quoted path after it, the same command redirected to that path. */
  lemma RedirectParses(words: seq<string>, path: string)
    requires words != [] && !IsAssign(Quote(words[0]))
    ensures Parse(CommandText(words) + (" " + ">" + " " + Quote(path))) == Ok(Redir(Command(QuoteAll(words), []), Quote(path), ">"))
  {
    var argv, toks := QuoteAll(words), QuoteAll(words) + [">", Quote(path)];
    RedirectTokens(words, path);
    QuotedAreNoOperators(words);
    ReadWords([], [], argv, [">", Quote(path)]);
    assert [] + argv == argv;
    QuoteIsSolid(path);
    QuoteIsSolid(words[0]);
    StripFirm(Quote(path));
    assert TargetOk(Quote(path));
    assert [">", Quote(path)] + [] == [">", Quote(path)];
    ReadRedir(argv, [], ">", Quote(path), []);
    assert [] + [(">", Quote(path))] == [(">", Quote(path))];
    SimpleTurn(toks, argv, [(">", Quote(path))]);
    assert [(">", Quote(path))][..0] == [];
  }

  // -------------------------------------------------------- the plan's texts

  lemma SafeWords(words: seq<string>)
    requires AllSafe(words)
    ensures QuoteAll(words) == words
  {
    if words != [] {
      assert words == [words[0]] + words[1..];
      SafeWords(words[1..]);
    }
  }

  lemma QuoteTwo(a: string, b: string)
    ensures QuoteAll([a, b]) == [Quote(a), Quote(b)]
    ensures CommandText([a, b]) == Quote(a) + " " + Quote(b)
  {
    assert [a, b][1..] == [b] && [b][1..] == [];
    assert QuoteAll([b]) == [Quote(b)];
    JoinTwo(Quote(a), Quote(b));
  }

  lemma JoinTwo(x: string, y: string)
    ensures JoinSpaced([x, y]) == x + " " + y
  {
    assert [x, y][1..] == [y];
    assert JoinSpaced([y]) == y;
  }

  lemma QuoteThree(a: string, b: string, c: string)
    ensures QuoteAll([a, b, c]) == [Quote(a), Quote(b), Quote(c)]
    ensures CommandText([a, b, c]) == Quote(a) + " " + (Quote(b) + " " + Quote(c))
  {
    QuoteTwo(b, c);
    assert [a, b, c][1..] == [b, c];
    assert [Quote(a), Quote(b), Quote(c)][1..] == [Quote(b), Quote(c)];
  }

  lemma OneThen(cmd: string, path: string)
    requires IsSafe(cmd) && '=' !in cmd
    ensures Parse(cmd + " " + Quote(path)) == Ok(Command([cmd, Quote(path)], []))
  {
    QuoteTwo(cmd, path);
    CommandParses([cmd, path]);
  }

  lemma TwoThen(cmd: string, flag: string, path: string)
    requires IsSafe(cmd) && '=' !in cmd && IsSafe(flag)
    ensures Parse(cmd + " " + (flag + " " + Quote(path))) == Ok(Command([cmd, flag, Quote(path)], []))
  {
    QuoteThree(cmd, flag, path);
    CommandParses([cmd, flag, path]);
  }

  /** Creating, removing and listing: one quoted path as the last word. */
  lemma FolderStepParses(id: string, path: string, dependsOn: seq<string>)
    ensures Parse(Planner.FolderStep(id, path, dependsOn).run) == Ok(Command(["mkdir", "-p", Quote(path)], []))
    ensures Parse(Planner.FolderStep(id, path, dependsOn).compensation) == Ok(Command(["rmdir", Quote(path)], []))
  {
    TwoThen("mkdir", "-p", path);
    assert "mkdir" + " " + ("-p" + " " + Quote(path)) == "mkdir -p " + Quote(path);
    OneThen("rmdir", path);
    assert "rmdir" + " " + Quote(path) == "rmdir " + Quote(path);
  }

  lemma RemoveParses(path: string)
    ensures Parse(Planner.RemoveFile(path)) == Ok(Command(["rm", "-f", Quote(path)], []))
  {
    TwoThen("rm", "-f", path);
    assert "rm" + " " + ("-f" + " " + Quote(path)) == "rm -f " + Quote(path);
  }

  lemma ListParses(path: string)
    ensures Parse("ls -la " + Quote(path)) == Ok(Command(["ls", "-la", Quote(path)], []))
  {
    TwoThen("ls", "-la", path);
    assert "ls" + " " + ("-la" + " " + Quote(path)) == "ls -la " + Quote(path);
  }

  lemma FormatWord()
    ensures Quote("%s\\n") == "'%s\\n'"
  {
    var w := "%s\\n";
    assert !IsSafeChar(w[2]);
    assert w[1..] == "s\\n" && "s\\n"[1..] == "\\n" && "\\n"[1..] == "n" && "n"[1..] == "";
    assert Escaped("n") == "n" && Escaped("\\n") == "\\n" && Escaped("s\\n") == "s\\n" && Escaped(w) == w;
  }

  lemma PrintfIsPlain()
    ensures Quote("printf") == "printf" && !IsAssign("printf")
  {
  }

  lemma WriteText(content: string, path: string)
    ensures ("printf" + " " + ("'%s\\n'" + " " + content)) + (" " + ">" + " " + path) == "printf '%s\\n' " + content + " > " + path
  {
  }

  /** Writing a file prints the content, as one word, to the path. */
  lemma WriteParses(content: string, path: string)
    ensures Parse(Planner.WriteRun(content, path)) ==
            Ok(Redir(Command(["printf", "'%s\\n'", Quote(content)], []), Quote(path), ">"))
  {
    FormatWord();
    PrintfIsPlain();
    QuoteThree("printf", "%s\\n", content);
    RedirectParses(["printf", "%s\\n", content], path);
    WriteText(Quote(content), Quote(path));
  }

  // ----------------------------------------------------------- system metrics

  /** A command of plain words, and how it is written. */
  predicate PlainCommand(n: Node) {
    n.Command? && n.env == [] && n.argv != [] && AllSafe(n.argv) && '=' !in n.argv[0]
  }

  lemma PlainText(n: Node)
    requires PlainCommand(n)
    ensures Print(n) == JoinSpaced(n.argv) && FactorOk(n) && HasCommand(n) && Firm(Print(n))
  {
    SafeWords(n.argv);
    assert WordsOf(n) == n.argv by { assert EnvWords([]) == []; }
    CommandIsFirm(n);
  }

  lemma PlainParses(text: string, n: Node)
    requires PlainCommand(n) && text == JoinSpaced(n.argv)
    ensures Parse(text) == Ok(n)
  {
    SafeWords(n.argv);
    CommandParses(n.argv);
  }

  lemma PipeParses(text: string, l: Node, r: Node)
    requires PlainCommand(l) && PlainCommand(r) && text == JoinSpaced(l.argv) + " | " + JoinSpaced(r.argv)
    ensures Parse(text) == Ok(Pipe(l, r))
  {
    var n := Pipe(l, r);
    PlainText(l);
    PlainText(r);
    assert ChainOk(n);
    StripAround(Print(l), "|", Print(r));
    PipeText(Print(l), Print(r));
    assert Print(l) + (" " + "|" + " ") + Print(r) == text;
    PlainHasPlainWords(l);
    PlainHasPlainWords(r);
    ShellLaws.TreeRoundTrip(n);
  }

  lemma PlainHasPlainWords(n: Node)
    requires PlainCommand(n)
    ensures PlainWords(n)
  {
    assert EnvWords([]) == [] && WordsOf(n) == n.argv;
  }

  lemma JoinOne(x: string)
    ensures JoinSpaced([x]) == x
  {
  }

  lemma JoinFour(a: string, b: string, c: string, d: string)
    ensures JoinSpaced([a, b, c, d]) == a + " " + (b + " " + (c + " " + d))
  {
    JoinTwo(c, d);
    assert [a, b, c, d][1..] == [b, c, d] && [b, c, d][1..] == [c, d];
    assert JoinSpaced([b, c, d]) == b + " " + (c + " " + d);
  }

  /** The commands behind the metrics. */
  function MetricTree(metric: string): Option<Node> {
    if metric == "disk" then Some(Command(["df", "-h"], []))
    else if metric == "memory" then Some(Command(["free", "-h"], []))
    else if metric == "cpu" then Some(Command(["nproc"], []))
    else if metric == "uptime" then Some(Command(["uptime"], []))
    else if metric == "load" then Some(Command(["cat", "/proc/loadavg"], []))
    else if metric == "processes"
    then Some(Pipe(Command(["ps", "-eo", "pid,comm", "--sort=-%cpu"], []), Command(["head", "-20"], [])))
    else None
  }

  lemma PairParses(text: string, a: string, b: string)
    requires IsSafe(a) && IsSafe(b) && '=' !in a && text == a + " " + b
    ensures Parse(text) == Ok(Command([a, b], []))
  {
    JoinTwo(a, b);
    PlainParses(text, Command([a, b], []));
  }

  lemma WordParses(text: string)
    requires IsSafe(text) && '=' !in text
    ensures Parse(text) == Ok(Command([text], []))
  {
    JoinOne(text);
    PlainParses(text, Command([text], []));
  }

  lemma ProcessesParse(text: string, a: string, b: string, c: string, d: string, e: string, f: string)
    requires IsSafe(a) && IsSafe(b) && IsSafe(c) && IsSafe(d) && IsSafe(e) && IsSafe(f) && '=' !in a && '=' !in e
    requires text == (a + " " + (b + " " + (c + " " + d))) + " | " + (e + " " + f)
    ensures Parse(text) == Ok(Pipe(Command([a, b, c, d], []), Command([e, f], [])))
  {
    JoinFour(a, b, c, d);
    JoinTwo(e, f);
    PipeParses(text, Command([a, b, c, d], []), Command([e, f], []));
  }

  lemma PairMetrics(metric: string, text: string)
    requires text == Planner.MetricCommand(metric)
    ensures metric == "disk" ==> Parse(text) == Ok(Command(["df", "-h"], []))
    ensures metric == "memory" ==> Parse(text) == Ok(Command(["free", "-h"], []))
  {
    if metric == "disk" { PairParses(text, "df", "-h"); }
    if metric == "memory" { PairParses(text, "free", "-h"); }
  }

  lemma LoadWords()
    ensures IsSafe("cat") && IsSafe("/proc/loadavg") && '=' !in "cat"
  {
  }

  lemma LoadText()
    ensures "cat /proc/loadavg" == "cat" + " " + "/proc/loadavg"
  {
  }

  lemma LoadMetric(metric: string, text: string)
    requires text == Planner.MetricCommand(metric)
    ensures metric == "load" ==> Parse(text) == Ok(Command(["cat", "/proc/loadavg"], []))
  {
    LoadWords();
    LoadText();
    if metric == "load" { PairParses(text, "cat", "/proc/loadavg"); }
  }

  lemma WordMetrics(metric: string, text: string)
    requires text == Planner.MetricCommand(metric)
    ensures metric == "cpu" ==> Parse(text) == Ok(Command(["nproc"], []))
    ensures metric == "uptime" ==> Parse(text) == Ok(Command(["uptime"], []))
  {
    if metric == "cpu" || metric == "uptime" { WordParses(text); }
  }

  lemma ProcessWords()
    ensures IsSafe("ps") && IsSafe("-eo") && IsSafe("pid,comm") && IsSafe("head") && IsSafe("-20")
    ensures '=' !in "ps" && '=' !in "head"
  {
  }

  lemma SortFlag()
    ensures IsSafe("--sort=-%cpu")
  {
  }

  lemma PsText()
    ensures "ps" + " " + ("-eo" + " " + ("pid,comm" + " " + "--sort=-%cpu")) == "ps -eo pid,comm --sort=-%cpu"
  {
  }

  lemma ProcessText()
    ensures ("ps" + " " + ("-eo" + " " + ("pid,comm" + " " + "--sort=-%cpu"))) + " | " + ("head" + " " + "-20")
            == "ps -eo pid,comm --sort=-%cpu | head -20"
  {
    PsText();
    assert "head" + " " + "-20" == "head -20";
  }

  lemma ProcessMetric(metric: string, text: string)
    requires text == Planner.MetricCommand(metric)
    ensures metric == "processes" ==>
              Parse(text) == Ok(Pipe(Command(["ps", "-eo", "pid,comm", "--sort=-%cpu"], []), Command(["head", "-20"], [])))
  {
    ProcessWords();
    SortFlag();
    ProcessText();
    if metric == "processes" { ProcessesParse(text, "ps", "-eo", "pid,comm", "--sort=-%cpu", "head", "-20"); }
  }

  /** Each metric's text parses to its command; any other metric has no text. */
  lemma MetricsParse(metric: string)
    ensures var text := Planner.MetricCommand(metric);
            match MetricTree(metric)
            case Some(tree) => Parse(text) == Ok(tree)
            case None => text == ""
  {
    var text := Planner.MetricCommand(metric);
    PairMetrics(metric, text);
    LoadMetric(metric, text);
    WordMetrics(metric, text);
    ProcessMetric(metric, text);
  }

  // ----------------------------------------------------------- whole plans

  /** The step makes this folder and, undone, removes it. */
  predicate MakesPath(step: Planner.Step, path: string) {
    && Parse(step.run) == Ok(Command(["mkdir", "-p", Quote(path)], []))
    && Parse(step.compensation) == Ok(Command(["rmdir", Quote(path)], []))
  }

  /** The step writes this text to this file and, undone, removes the file. */
  predicate WritesFile(step: Planner.Step, content: string, path: string) {
    && Parse(step.run) == Ok(Redir(Command(["printf", "'%s\\n'", Quote(content)], []), Quote(path), ">"))
    && Parse(step.compensation) == Ok(Command(["rm", "-f", Quote(path)], []))
  }

  lemma FolderMeans(step: Planner.Step, prefix: string, folder: string, dependsOn: seq<string>)
    requires Planner.MakesFolder(step, prefix, folder, dependsOn)
    ensures MakesPath(step, prefix + folder)
  {
    FolderStepParses(step.id, prefix + folder, dependsOn);
  }

  /** The folders asked for, each made by its own step. */
  lemma FoldersMean(slots: Planner.Slots, config: Planner.Config, steps: seq<Planner.Step>, i: nat)
    requires Planner.Carries(Planner.CreateFolder, slots, config, steps) && i < |steps|
    ensures |steps| == |slots.folderNames| && MakesPath(steps[i], slots.folderNames[i])
  {
    FolderMeans(steps[i], "", slots.folderNames[i], []);
    assert "" + slots.folderNames[i] == slots.folderNames[i];
  }

  lemma FileMeans(slots: Planner.Slots, config: Planner.Config, steps: seq<Planner.Step>)
    requires Planner.Carries(Planner.WriteFile, slots, config, steps) && slots.path != "" && slots.content != ""
    ensures |steps| == 1 && WritesFile(steps[0], slots.content, slots.path)
  {
    FileStepMeans(steps[0], slots.content, slots.path);
  }

  /** A workspace: its root, a step for each folder, and last a README that is headed by
      its name. */
  lemma WorkspaceMeans(slots: Planner.Slots, config: Planner.Config, steps: seq<Planner.Step>)
    requires Planner.Carries(Planner.CreateWorkspace, slots, config, steps) && slots.workspaceName != ""
    ensures |steps| == 2 + (if slots.folderNames != [] then |slots.folderNames| else |config.defaultFolders|)
    ensures MakesPath(steps[0], slots.workspaceName)
    ensures WritesFile(steps[|steps| - 1], "# " + slots.workspaceName, slots.workspaceName + "/README.md")
  {
    var name := slots.workspaceName;
    RootMeans(steps[0], name);
    ReadmeMeans(steps[|steps| - 1], "# " + name, name + "/README.md", [steps[0].id]);
  }

  /** The folders of a workspace are made inside its root. */
  lemma WorkspaceFoldersMean(slots: Planner.Slots, config: Planner.Config, steps: seq<Planner.Step>, i: nat)
    requires Planner.Carries(Planner.CreateWorkspace, slots, config, steps) && slots.workspaceName != "" && i + 2 < |steps|
    ensures var folders := if slots.folderNames != [] then slots.folderNames else config.defaultFolders;
            i < |folders| && MakesPath(steps[i + 1], slots.workspaceName + "/" + folders[i])
  {
    InsideMeans(steps, slots.workspaceName, slots.workspaceName + "/", Planner.Folders(slots, config), i);
  }

  lemma InsideMeans(steps: seq<Planner.Step>, name: string, prefix: string, folders: seq<string>, i: nat)
    requires prefix == name + "/" && Planner.IsWorkspace(steps, name, folders)
    ensures i < |folders| ==> MakesPath(steps[i + 1], prefix + folders[i])
  {
    if i < |folders| { FolderMeans(steps[i + 1], prefix, folders[i], [steps[0].id]); }
  }

  lemma ReadmeMeans(step: Planner.Step, content: string, path: string, dependsOn: seq<string>)
    requires step == Planner.Step(step.id, Planner.Shell, Planner.WriteRun(content, path), dependsOn, Planner.RemoveFile(path))
    ensures WritesFile(step, content, path)
  {
    FileStepMeans(step, content, path);
  }

  lemma RootMeans(step: Planner.Step, name: string)
    requires step == Planner.FolderStep(step.id, name, [])
    ensures MakesPath(step, name)
  {
    FolderStepParses(step.id, name, []);
  }

  lemma FileStepMeans(step: Planner.Step, content: string, path: string)
    requires step.run == Planner.WriteRun(content, path) && step.compensation == Planner.RemoveFile(path)
    ensures WritesFile(step, content, path)
  {
    WriteParses(content, path);
    RemoveParses(path);
  }

  /** What the install template gets is one word that stands for the application asked for,
      behind an approval. */
  lemma InstallMeans(slots: Planner.Slots, config: Planner.Config, steps: seq<Planner.Step>)
    requires Planner.Carries(Planner.InstallApp, slots, config, steps) && slots.app != ""
    ensures |steps| == 2 && steps[0].kind == Planner.Approval && steps[1].dependsOn == [steps[0].id]
    ensures exists word :: StandsFor(word, slots.app) && steps[1].run == config.install(word)
  {
    QuoteStandsFor(slots.app);
  }

  /** Commands as given, metrics by their command, directories by a quoted path. */
  lemma ReportsMean(intent: Planner.Intent, slots: Planner.Slots, config: Planner.Config, steps: seq<Planner.Step>)
    requires Planner.Carries(intent, slots, config, steps)
    ensures intent.RunCommand? && slots.command != "" ==> |steps| == 1 && steps[0].run == slots.command
    ensures intent.SystemInfo? ==>
              match MetricTree(slots.metric)
              case Some(tree) => |steps| == 1 && Parse(steps[0].run) == Ok(tree)
              case None => steps == []
    ensures intent.ListDirectory? && slots.path != "" ==>
              |steps| == 1 && Parse(steps[0].run) == Ok(Command(["ls", "-la", Quote(slots.path)], []))
  {
    MetricsParse(slots.metric);
    ListParses(slots.path);
    MetricHasText(slots.metric);
  }

  lemma MetricHasText(metric: string)
    ensures MetricTree(metric).Some? <==> Planner.MetricCommand(metric) != ""
  {
  }
}
