/** What the parser builds, and the round trip through the canonical printer
    (src/safety/command_guard.py). */
module ShellLaws {
  import opened Common
  import opened ShellLexer
  import opened ShellParser
  import opened ShellPrinter
  import opened ShellRoundTrip
  import opened ShellReparse
  import opened ShellShown
  import opened ShellTargets

  // ------------------------------------------------ the trees the parser builds

  predicate TokensOk(toks: seq<string>) {
    forall i :: 0 <= i < |toks| ==> IsOperator(toks[i]) || Solid(toks[i])
  }

  predicate WordsOk(words: seq<string>) { forall i :: 0 <= i < |words| ==> words[i] != "" }

  predicate RedirsOk(redirs: seq<(string, string)>) {
    forall i :: 0 <= i < |redirs| ==> IsRedirOp(redirs[i].0) && TargetOk(redirs[i].1)
  }

  lemma SuffixOk(toks: seq<string>, k: nat)
    requires TokensOk(toks) && k <= |toks|
    ensures TokensOk(toks[k..])
  {
    forall i | 0 <= i < |toks[k..]| ensures IsOperator(toks[k..][i]) || Solid(toks[k..][i]) {
      assert toks[k..][i] == toks[k + i];
    }
  }

  lemma TargetIsOk(toks: seq<string>)
    requires TokensOk(toks) && toks != [] && RedirTarget(toks).Ok?
    ensures |toks| >= 2 && TargetOk(RedirTarget(toks).value)
  {
  }

  lemma {:induction false} ReadSimpleOk(words: seq<string>, redirs: seq<(string, string)>, toks: seq<string>)
    requires TokensOk(toks) && WordsOk(words) && RedirsOk(redirs) && ReadSimple(words, redirs, toks).Ok?
    ensures var s := ReadSimple(words, redirs, toks).value;
            WordsOk(s.words) && RedirsOk(s.redirs) && TokensOk(s.rest)
    decreases |toks|
  {
    if toks == [] || EndsSimple(toks[0]) {
    } else if IsRedirOp(toks[0]) {
      TargetIsOk(toks);
      SuffixOk(toks, 2);
      ReadSimpleOk(words, redirs + [(toks[0], toks[1])], toks[2..]);
    } else {
      SuffixOk(toks, 1);
      OperatorKinds(toks[0]);
      ReadSimpleOk(words + [toks[0]], redirs, toks[1..]);
    }
  }

  /** Dictionary assignment overwrites in place or appends. */
  lemma {:induction false} PutShape(env: seq<(string, string)>, k: string, v: string) returns (at: nat)
    ensures at <= |env| && (forall i :: 0 <= i < at ==> env[i].0 != k)
    ensures at < |env| ==> env[at].0 == k && Put(env, k, v) == env[at := (k, v)]
    ensures at == |env| ==> Put(env, k, v) == env + [(k, v)]
    decreases |env|
  {
    if env == [] || env[0].0 == k {
      at := 0;
    } else {
      var rest := PutShape(env[1..], k, v);
      at := rest + 1;
      assert forall i :: 0 < i < at ==> env[i] == env[1..][i - 1];
      assert env == [env[0]] + env[1..];
    }
  }

  lemma PutKeeps(env: seq<(string, string)>, k: string, v: string)
    requires DistinctKeys(env) && Assigned(env) && '=' !in k && IsAssign(k + "=" + v)
    ensures DistinctKeys(Put(env, k, v)) && Assigned(Put(env, k, v))
  {
    var at := PutShape(env, k, v);
  }

  lemma SplitAt(w: string, i: nat)
    requires i < |w| && w[i] == '='
    ensures w[..i] + "=" + w[i + 1..] == w
  {
  }

  lemma AssignParts(w: string)
    requires IsAssign(w)
    ensures var i := IndexOf(w, '=');
            i < |w| && '=' !in w[..i] && w[..i] + "=" + w[i + 1..] == w
  {
    var i := IndexOf(w, '=');
    SplitAt(w, i);
  }

  lemma {:induction false} SplitEnvOk(env: seq<(string, string)>, words: seq<string>)
    requires DistinctKeys(env) && Assigned(env) && WordsOk(words)
    ensures SplitEnv(env, words).Command? && LeafOk(SplitEnv(env, words))
    decreases |words|
  {
    if words != [] && IsAssign(words[0]) {
      var i := IndexOf(words[0], '=');
      AssignParts(words[0]);
      PutKeeps(env, words[0][..i], words[0][i + 1..]);
      assert forall j :: 0 <= j < |words[1..]| ==> words[1..][j] == words[j + 1];
      SplitEnvOk(Put(env, words[0][..i], words[0][i + 1..]), words[1..]);
    }
  }

  lemma {:induction false} ApplyRedirsOk(node: Node, redirs: seq<(string, string)>)
    requires StackOk(node) && RedirsOk(redirs) && (redirs != [] || FactorOk(node))
    ensures FactorOk(ApplyRedirs(node, redirs))
    decreases |redirs|
  {
    if redirs != [] {
      var n := |redirs| - 1;
      assert RedirsOk(redirs[..n]);
      if n > 0 || FactorOk(node) {
        ApplyRedirsOk(node, redirs[..n]);
      } else {
        assert redirs[..n] == [];
      }
    }
  }

  lemma ParseSimpleOk(toks: seq<string>)
    requires TokensOk(toks) && ParseSimple(toks).Ok?
    ensures FactorOk(ParseSimple(toks).value.node) && TokensOk(ParseSimple(toks).value.rest)
  {
    ReadSimpleOk([], [], toks);
    var s := ReadSimple([], [], toks).value;
    SplitEnvOk([], s.words);
    SplitHasWords([], s.words);
    ApplyRedirsOk(SplitEnv([], s.words), s.redirs);
  }

  lemma {:induction false} ParseRedirsOk(node: Node, toks: seq<string>)
    requires TokensOk(toks) && FactorOk(node) && ParseRedirs(node, toks).Ok?
    ensures FactorOk(ParseRedirs(node, toks).value.node) && TokensOk(ParseRedirs(node, toks).value.rest)
    decreases |toks|
  {
    if toks != [] && IsRedirOp(toks[0]) {
      TargetIsOk(toks);
      SuffixOk(toks, 2);
      ParseRedirsOk(Redir(node, toks[1], toks[0]), toks[2..]);
    }
  }

  lemma {:induction false} ParseFactorOk(toks: seq<string>)
    requires TokensOk(toks) && ParseFactor(toks).Ok?
    ensures FactorOk(ParseFactor(toks).value.node) && TokensOk(ParseFactor(toks).value.rest)
    decreases |toks|, 1
  {
    if toks != [] && toks[0] == "(" {
      SuffixOk(toks, 1);
      ParseChainOk(toks[1..]);
      var p := ParseChain(toks[1..]).value;
      SuffixOk(p.rest, 1);
      ParseRedirsOk(Subshell(p.node), p.rest[1..]);
    } else {
      ParseSimpleOk(toks);
    }
  }

  lemma {:induction false} PipeLoopOk(node: Node, toks: seq<string>)
    requires TokensOk(toks) && PipeOk(node) && PipeLoop(node, toks).Ok?
    ensures PipeOk(PipeLoop(node, toks).value.node) && TokensOk(PipeLoop(node, toks).value.rest)
    decreases |toks|, 0
  {
    if toks != [] && toks[0] == "|" {
      SuffixOk(toks, 1);
      ParseFactorOk(toks[1..]);
      var p := ParseFactor(toks[1..]).value;
      PipeLoopOk(Pipe(node, p.node), p.rest);
    }
  }

  lemma FactorIsPipe(n: Node)
    requires FactorOk(n)
    ensures PipeOk(n) && ChainOk(n)
  {
  }

  lemma PipeIsChain(n: Node)
    requires PipeOk(n)
    ensures ChainOk(n)
  {
    if !n.Pipe? { FactorIsPipe(n); }
  }

  lemma {:induction false} ParsePipeOk(toks: seq<string>)
    requires TokensOk(toks) && ParsePipe(toks).Ok?
    ensures PipeOk(ParsePipe(toks).value.node) && TokensOk(ParsePipe(toks).value.rest)
    decreases |toks|, 2
  {
    ParseFactorOk(toks);
    var p := ParseFactor(toks).value;
    FactorIsPipe(p.node);
    PipeLoopOk(p.node, p.rest);
  }

  lemma {:induction false} ChainLoopOk(node: Node, toks: seq<string>)
    requires TokensOk(toks) && ChainOk(node) && ChainLoop(node, toks).Ok?
    ensures ChainOk(ChainLoop(node, toks).value.node) && TokensOk(ChainLoop(node, toks).value.rest)
    decreases |toks|, 0
  {
    if toks != [] && IsSep(toks[0]) {
      SuffixOk(toks, 1);
      ParsePipeOk(toks[1..]);
      var p := ParsePipe(toks[1..]).value;
      ChainLoopOk(Chain(node, p.node, toks[0]), p.rest);
    }
  }

  /** Whatever parses has the shape of the grammar: left-nested chains of
      left-nested pipes of redirected commands and subshells. */
  lemma {:induction false} ParseChainOk(toks: seq<string>)
    requires TokensOk(toks) && ParseChain(toks).Ok?
    ensures ChainOk(ParseChain(toks).value.node) && TokensOk(ParseChain(toks).value.rest)
    decreases |toks|, 3
  {
    ParsePipeOk(toks);
    var p := ParsePipe(toks).value;
    PipeIsChain(p.node);
    ChainLoopOk(p.node, p.rest);
  }

  // ---------------------------------------------------- what quoting changes

  lemma {:induction false} SafeUnquoted(words: seq<string>)
    requires AllSafe(words)
    ensures QuoteAll(words) == words
    decreases |words|
  {
    if words != [] {
      assert forall i :: 0 <= i < |words[1..]| ==> words[1..][i] == words[i + 1];
      SafeUnquoted(words[1..]);
      assert [words[0]] + words[1..] == words;
    }
  }

  lemma {:induction false} IndexOfAt(k: string, v: string)
    requires '=' !in k
    ensures IndexOf(k + "=" + v, '=') == |k|
    decreases |k|
  {
    if k != "" {
      assert (k + "=" + v)[1..] == k[1..] + "=" + v;
      IndexOfAt(k[1..], v);
    }
  }

  lemma SplitHead(done: seq<(string, string)>, k: string, v: string, rest: seq<string>)
    requires '=' !in k && IsAssign(k + "=" + v)
    ensures SplitEnv(done, [k + "=" + v] + rest) == SplitEnv(Put(done, k, v), rest)
  {
    var w := k + "=" + v;
    IndexOfAt(k, v);
    assert w[..|k|] == k && w[|k| + 1..] == v;
    assert ([w] + rest)[1..] == rest;
  }

  lemma {:induction false} SplitBack(done: seq<(string, string)>, env: seq<(string, string)>, argv: seq<string>)
    requires DistinctKeys(done + env) && Assigned(env) && (argv != [] ==> !IsAssign(argv[0]))
    ensures SplitEnv(done, EnvWords(env) + argv) == Command(argv, done + env)
    decreases |env|
  {
    if env == [] {
      assert EnvWords(env) + argv == argv && done + env == done;
    } else {
      var (k, v) := env[0];
      var rest := EnvWords(env[1..]) + argv;
      assert EnvWords(env) + argv == [k + "=" + v] + rest;
      SplitHead(done, k, v, rest);
      NewKeyAppends(done, env);
      SplitBack(done + [(k, v)], env[1..], argv);
    }
  }

  lemma NewKeyAppends(done: seq<(string, string)>, env: seq<(string, string)>)
    requires env != [] && DistinctKeys(done + env) && Assigned(env)
    ensures Put(done, env[0].0, env[0].1) == done + [env[0]]
    ensures done + [env[0]] + env[1..] == done + env && Assigned(env[1..])
  {
    assert (done + env)[|done|] == env[0];
    forall i | 0 <= i < |done| ensures done[i].0 != env[0].0 { assert (done + env)[i] == done[i]; }
    var at := PutShape(done, env[0].0, env[0].1);
    assert forall i :: 0 <= i < |env[1..]| ==> env[1..][i] == env[i + 1];
  }

  lemma {:induction false} SplitTakes(env: seq<(string, string)>, words: seq<string>) returns (m: nat)
    ensures m <= |words| && SplitEnv(env, words).Command? && SplitEnv(env, words).argv == words[m..]
    ensures forall i :: 0 <= i < m ==> IsAssign(words[i])
    decreases |words|
  {
    if words != [] && IsAssign(words[0]) {
      var i := IndexOf(words[0], '=');
      var rest := SplitTakes(Put(env, words[0][..i], words[0][i + 1..]), words[1..]);
      m := rest + 1;
      assert words[1..][rest..] == words[m..];
      forall j | 0 <= j < m ensures IsAssign(words[j]) {
        if j > 0 { assert words[j] == words[1..][j - 1]; }
      }
    } else {
      m := 0;
    }
  }

  /** A leaf comes back exactly when none of its words needs quoting. */
  lemma LeafComesBack(n: Node)
    requires n.Command? && LeafOk(n)
    ensures Reread(n) == n <==> AllSafe(WordsOf(n))
  {
    var words := WordsOf(n);
    if AllSafe(words) {
      SafeUnquoted(words);
      assert [] + n.env == n.env;
      SplitBack([], n.env, n.argv);
    }
    if Reread(n) == n {
      UnchangedIsSafe(n);
    }
  }

  lemma {:induction false} EnvWordsLength(env: seq<(string, string)>)
    ensures |EnvWords(env)| == |env|
    decreases |env|
  {
    if env != [] { EnvWordsLength(env[1..]); }
  }

  lemma UnchangedIsSafe(n: Node)
    requires n.Command? && Reread(n) == n
    ensures AllSafe(WordsOf(n))
  {
    var words, quoted := WordsOf(n), QuoteAll(WordsOf(n));
    QuotedAreNoOperators(words);
    EnvWordsLength(n.env);
    var m := SplitTakes([], quoted);
    assert m == |n.env|;
    forall i | 0 <= i < |words| ensures IsSafe(words[i]) {
      QuoteChanges(words[i]);
      if i >= m {
        assert words[i] == n.argv[i - m] && quoted[m..][i - m] == quoted[i];
      }
    }
  }

  predicate LeavesOk(n: Node) {
    match n
    case Command(_, _) => LeafOk(n)
    case Chain(l, r, _) => LeavesOk(l) && LeavesOk(r)
    case Pipe(l, r) => LeavesOk(l) && LeavesOk(r)
    case Redir(c, _, _) => LeavesOk(c)
    case Subshell(c) => LeavesOk(c)
  }

  lemma {:induction false} FactorLeavesOk(n: Node)
    requires StackOk(n)
    ensures LeavesOk(n)
    decreases n, 0
  {
    match n
    case Command(_, _) =>
    case Redir(c, _, _) => FactorLeavesOk(c);
    case Subshell(c) => ParsedLeavesOk(c);
  }

  lemma {:induction false} PipeLeavesOk(n: Node)
    requires PipeOk(n)
    ensures LeavesOk(n)
    decreases n, 1
  {
    if n.Pipe? {
      PipeLeavesOk(n.left);
      FactorLeavesOk(n.right);
    } else {
      FactorLeavesOk(n);
    }
  }

  lemma {:induction false} ParsedLeavesOk(n: Node)
    requires ChainOk(n)
    ensures LeavesOk(n)
    decreases n, 2
  {
    if n.Chain? {
      ParsedLeavesOk(n.left);
      PipeLeavesOk(n.right);
    } else {
      PipeLeavesOk(n);
    }
  }

  lemma {:induction false} TreeComesBack(n: Node)
    requires LeavesOk(n)
    ensures Reread(n) == n <==> PlainWords(n)
    decreases n
  {
    match n
    case Command(_, _) => LeafComesBack(n);
    case Chain(l, r, _) => TreeComesBack(l); TreeComesBack(r);
    case Pipe(l, r) => TreeComesBack(l); TreeComesBack(r);
    case Redir(c, _, _) => TreeComesBack(c);
    case Subshell(c) => TreeComesBack(c);
  }

  // ------------------------------------------------------------ round trip

  lemma ParsedIsChain(text: string)
    requires Parse(text).Ok? && Tokens(text) != Ok([])
    ensures ChainOk(Parse(text).value)
  {
    TokensAreSolid(text);
    ParseChainOk(Tokens(text).value);
  }

  /** A target comes back from the print when it ends in no white space - or in an
      escaped space, with a blank and an operator that does not start with a digit after
      it in the print. */
  predicate Comes(target: string, next: string) {
    target != "" &&
    (!IsSpace(target[|target| - 1])
     || (target[|target| - 1] == ' ' && next != "" && next != ")" && next[0] != '2'))
  }

  /** Every target comes back; `next` is the operator or parenthesis the print puts
      after the tree, or nothing at the end. */
  predicate TargetsCome(n: Node, next: string) {
    match n
    case Command(_, _) => true
    case Chain(l, r, sep) => TargetsCome(l, sep) && TargetsCome(r, next)
    case Pipe(l, r) => TargetsCome(l, "|") && TargetsCome(r, next)
    case Redir(c, target, op) => TargetsCome(c, op) && Comes(target, next)
    case Subshell(c) => TargetsCome(c, ")")
  }

  /** The print shows the tree's own targets and operators. */
  predicate Keeps(n: Node, next: string) {
    match n
    case Command(_, _) => true
    case Chain(l, r, sep) => Keeps(l, sep) && Keeps(r, next)
    case Pipe(l, r) => Keeps(l, "|") && Keeps(r, next)
    case Redir(c, target, op) => Keeps(c, op) && Seen(target, next) == target && OpAfter(c, op) == op
    case Subshell(c) => Keeps(c, ")")
  }

  /** What parsing the print gives back is the tree exactly when no word needs quoting
      and the print shows its targets and operators. */
  lemma {:induction false} ShownComesBack(n: Node, next: string)
    requires LeavesOk(n)
    ensures Reread(Shown(n, next)) == n <==> PlainWords(n) && Keeps(n, next)
    decreases n
  {
    match n
    case Command(_, _) => LeafComesBack(n);
    case Chain(l, r, sep) => ShownComesBack(l, sep); ShownComesBack(r, next);
    case Pipe(l, r) => ShownComesBack(l, "|"); ShownComesBack(r, next);
    case Redir(c, _, op) => ShownComesBack(c, op);
    case Subshell(c) => ShownComesBack(c, ")");
  }

  /** What the white space at the end of a target is: nothing, or characters that are no
      blanks, after an escaped one if the target hangs. */
  lemma TrailingSpace(target: string)
    requires TargetOk(target)
    ensures Core(target) == target <==> !IsSpace(target[|target| - 1])
    ensures Hangs(target) ==> (target[|target| - 1] == ' ' <==> target == Core(target) + " ")
    ensures Core(target) != target && !Hangs(target) ==> target[|target| - 1] != ' '
    ensures target != Core(target) + " 2" && (Core(target) != target ==> target != Core(target) + ")")
  {
    CoreOf(target);
    if Core(target) != target {
      LostSpace(target, "");
      var v := target[|Core(target)|..];
      assert target[|target| - 1] == v[|v| - 1];
      if Hangs(target) && |v| > 1 { assert !IsBlank(v[|v| - 1]); }
      assert |v| == 1 ==> v == [v[0]];
    }
  }

  lemma ComesExactly(target: string, next: string)
    requires TargetOk(target)
    ensures Comes(target, next) <==> Seen(target, next) == target && !(Hangs(target) && (next == "" || next == ")"))
  {
    TrailingSpace(target);
  }

  lemma {:induction false} DigitBreaks(n: Node, op: string)
    requires (Shaped(n) || n == Command([], [])) && Hanging(n) && op != "" && op[0] == '2'
    ensures !Keeps(n, op)
    decreases n
  {
    match n
    case Chain(_, r, _) => DigitBreaks(r, op);
    case Pipe(_, r) => DigitBreaks(r, op);
    case Redir(_, target, _) => TrailingSpace(target);
  }

  lemma {:induction false} TargetsComeExactly(n: Node, next: string)
    requires Shaped(n) || n == Command([], [])
    ensures TargetsCome(n, next) <==>
            Keeps(n, next) && !BrokenParens(n) && !(Hanging(n) && (next == "" || next == ")"))
    decreases n
  {
    match n
    case Command(_, _) =>
    case Chain(l, r, sep) => TargetsComeExactly(l, sep); TargetsComeExactly(r, next);
    case Pipe(l, r) => TargetsComeExactly(l, "|"); TargetsComeExactly(r, next);
    case Redir(c, target, op) =>
      TargetsComeExactly(c, op);
      ComesExactly(target, next);
      if Hanging(c) && op[0] == '2' { DigitBreaks(c, op); }
    case Subshell(c) => TargetsComeExactly(c, ")");
  }

  lemma TreeRoundTrip(n: Node)
    requires ChainOk(n)
    ensures Parse(Print(n)).Err? <==> Refused(n)
    ensures !Refused(n) ==> Parse(Print(n)) == Ok(Reread(Shown(n, "")))
    ensures Parse(Print(n)) == Ok(n) <==> PlainWords(n) && TargetsCome(n, "")
  {
    ChainIsShaped(n);
    TargetsComeExactly(n, "");
    if Refused(n) {
      RefusedFails(n);
    } else {
      ShownParses(n);
      ParsedLeavesOk(n);
      ShownComesBack(n, "");
    }
  }

  /** For every text that parses, across chains, pipes, stacked redirections, subshells
      and environment prefixes: the canonical form is refused exactly when stripping left
      an escape open at its end or in front of a parenthesis; otherwise it parses to the
      tree it shows; and that is the same tree exactly when no word needed quoting and
      every target comes back. */
  lemma CanonicalRoundTrip(text: string)
    requires Parse(text).Ok?
    ensures var n := Parse(text).value;
            && (Parse(Print(n)).Err? <==> Refused(n))
            && (!Refused(n) ==> Parse(Print(n)) == Ok(Reread(Shown(n, ""))))
            && (Parse(Print(n)) == Ok(n) <==> PlainWords(n) && TargetsCome(n, ""))
  {
    var n := Parse(text).value;
    if Tokens(text) == Ok([]) {
      assert n == Command([], []) && WordsOf(n) == [] && Print(n) == "";
      assert Reread(n) == n;
    } else {
      ParsedIsChain(text);
      TreeRoundTrip(n);
    }
  }

  /** In particular it comes back when words and targets hold only characters that
      `shlex.join` leaves unquoted. */
  lemma PlainComesBack(text: string)
    requires Parse(text).Ok? && PlainWords(Parse(text).value) && PlainTargets(Parse(text).value)
    ensures Parse(Print(Parse(text).value)) == Ok(Parse(text).value)
  {
    CanonicalRoundTrip(text);
    PlainTargetsCome(Parse(text).value, "");
  }

  predicate PlainTargets(n: Node) {
    match n
    case Command(_, _) => true
    case Chain(l, r, _) => PlainTargets(l) && PlainTargets(r)
    case Pipe(l, r) => PlainTargets(l) && PlainTargets(r)
    case Redir(c, target, _) => IsSafe(target) && PlainTargets(c)
    case Subshell(c) => PlainTargets(c)
  }

  lemma {:induction false} PlainTargetsCome(n: Node, next: string)
    requires PlainTargets(n)
    ensures TargetsCome(n, next)
    decreases n
  {
    match n
    case Command(_, _) =>
    case Chain(l, r, sep) => PlainTargetsCome(l, sep); PlainTargetsCome(r, next);
    case Pipe(l, r) => PlainTargetsCome(l, "|"); PlainTargetsCome(r, next);
    case Redir(c, target, op) =>
      PlainTargetsCome(c, op);
      assert IsSafeChar(target[|target| - 1]);
    case Subshell(c) => PlainTargetsCome(c, ")");
  }

  // --------------------------------------------------- prints that are refused

  /** A plain word, `>`, and a target. */
  function RedirText(w: string, target: string): string { w + (" " + ">" + " " + target) }

  lemma PlainIsSolid(w: string)
    requires IsSafe(w)
    ensures Solid(w) && Quote(w) == w
  {
    SafeGlides(w, true);
  }

  lemma RedirTokensOf(w: string, target: string)
    requires IsSafe(w) && TargetOk(target)
    ensures Tokens(RedirText(w, target)) == Ok([w] + ([">"] + [target]))
  {
    PlainIsSolid(w);
    SolidLeads(target, "");
    assert target + "" == target && [target] + [] == [target];
    assert Tokens(target) == Ok([target]);
    ScanInfix(">", target);
    assert Tokens(" " + ">" + " " + target) == Ok([">"] + [target]);
    SolidLeads(w, " " + ">" + " " + target);
  }

  lemma RedirOf(w: string, target: string)
    requires IsSafe(w) && !IsAssign(w) && TargetOk(target)
    ensures var n := Redir(Command([w], []), target, ">");
            ChainOk(n) && PrintedTokens(n) == [w] + ([">"] + [target]) && Reread(n) == n
  {
    var c := Command([w], []);
    assert EnvWords([]) == [] && WordsOf(c) == [w];
    PlainIsSolid(w);
    assert QuoteAll([w]) == [w] by { assert [w][1..] == []; }
    var n := Redir(c, target, ">");
    assert FactorOk(n);
    FactorIsPipe(n);
    assert [w] + [">", target] == [w] + ([">"] + [target]);
  }

  lemma RedirParses(w: string, target: string)
    requires IsSafe(w) && !IsAssign(w) && TargetOk(target)
    ensures Parse(RedirText(w, target)) == Ok(Redir(Command([w], []), target, ">"))
  {
    var n := Redir(Command([w], []), target, ">");
    RedirTokensOf(w, target);
    RedirOf(w, target);
    ParseChainBack(n, []);
    assert PrintedTokens(n) + [] == PrintedTokens(n);
  }

  /** A command `w > target` whose target ends in an escaped blank has a canonical form
      that is no command. */
  lemma OpenEscapeIsRefused(w: string, target: string)
    requires IsSafe(w) && !IsAssign(w) && TargetOk(target) && target[|target| - 1] == ' '
    ensures Parse(RedirText(w, target)).Ok? && Parse(Print(Parse(RedirText(w, target)).value)).Err?
  {
    RedirParses(w, target);
    RedirOf(w, target);
    TrailingSpace(target);
    TreeRoundTrip(Redir(Command([w], []), target, ">"));
  }

  /** There are such targets: `b\ `. */
  lemma EscapedBlankIsTarget()
    ensures TargetOk("b\\ ") && "b\\ "[|"b\\ "| - 1] == ' '
  {
    var t := "b\\ ";
    assert t[1..] == "\\ " && "\\ "[1..] == " " && " "[1..] == "";
    assert TurnAt(t, true, None, false) == Go(1, None, false);
    assert TurnAt("\\ ", false, None, false) == Go(1, None, true);
    assert WordLen(" ", false, None, true) == Ok(1);
    NotEmpty(t, 0);
  }
}
