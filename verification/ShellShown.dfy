/** The tree that a printed command denotes, redirection targets included, and the
    commands whose print is no command (src/safety/command_guard.py). */
module ShellShown {
  import opened Common
  import opened ShellLexer
  import opened ShellParser
  import opened ShellPrinter
  import opened ShellTargets
  import opened ShellRoundTrip
  import opened ShellReparse

  /** Some subshell ends in an open escape, which takes its closing parenthesis. */
  predicate BrokenParens(n: Node) {
    match n
    case Command(_, _) => false
    case Chain(l, r, _) => BrokenParens(l) || BrokenParens(r)
    case Pipe(l, r) => BrokenParens(l) || BrokenParens(r)
    case Redir(c, _, _) => BrokenParens(c)
    case Subshell(c) => Hanging(c) || BrokenParens(c)
  }

  /** The print ends in an open escape, or loses a parenthesis to one. */
  predicate Refused(n: Node) { Hanging(n) || BrokenParens(n) }

  /** The tree with its targets and redirection operators as the print shows them. */
  function Shown(n: Node, next: string): Node {
    match n
    case Command(_, _) => n
    case Chain(l, r, sep) => Chain(Shown(l, sep), Shown(r, next), sep)
    case Pipe(l, r) => Pipe(Shown(l, "|"), Shown(r, next))
    case Redir(c, target, op) => Redir(Shown(c, op), Seen(target, next), OpAfter(c, op))
    case Subshell(c) => Subshell(Shown(c, ")"))
  }

  lemma {:induction false} ToksAreShown(n: Node, next: string)
    requires !BrokenParens(n)
    ensures Toks(n, next) == PrintedTokens(Shown(n, next))
    decreases n
  {
    match n
    case Command(_, _) =>
    case Chain(l, r, sep) => ToksAreShown(l, sep); ToksAreShown(r, next);
    case Pipe(l, r) => ToksAreShown(l, "|"); ToksAreShown(r, next);
    case Redir(c, target, op) =>
      ToksAreShown(c, op);
      assert Toks(c, op) + [OpAfter(c, op)] + [Seen(target, next)] == Toks(c, op) + [OpAfter(c, op), Seen(target, next)];
    case Subshell(c) => ToksAreShown(c, ")");
  }

  // --------------------------------------------------- it is a tree of the grammar

  lemma {:induction false} EmptyStripLeft(t: string)
    requires Spaces(StripLeft(t))
    ensures Spaces(t)
    decreases |t|
  {
    if t != "" && IsSpace(t[0]) {
      EmptyStripLeft(t[1..]);
      assert forall i :: 0 < i < |t| ==> t[i] == t[1..][i - 1];
    }
  }

  lemma NotEmpty(t: string, i: nat)
    requires i < |t| && !IsSpace(t[i])
    ensures Strip(t) != ""
  {
    if Strip(t) == "" {
      StripRightShape(StripLeft(t));
      assert StripLeft(t)[0..] == StripLeft(t);
      EmptyStripLeft(t);
    }
  }

  lemma EatenWords()
    ensures WordLen(" ", false, None, true) == Ok(1) && WordLen(" 2", false, None, true) == Ok(2)
  {
    assert " "[1..] == "" && " 2"[1..] == "2" && "2"[1..] == "";
    assert TurnAt("2", false, None, false) == Go(1, None, false);
  }

  lemma HangingIsTarget(target: string, more: string)
    requires TargetOk(target) && Hangs(target) && Boundary(more) && WordLen(more, false, None, true) == Ok(|more|)
    ensures TargetOk(Core(target) + more)
  {
    var core := HangingParts(target, more);
    LongerIsTarget(core, more);
  }

  lemma HangingParts(target: string, more: string) returns (core: string)
    requires TargetOk(target) && Hangs(target) && Boundary(more) && WordLen(more, false, None, true) == Ok(|more|)
    ensures core == Core(target) && core != "" && !IsBlank(core[0]) && !IsSpace(core[|core| - 1])
    ensures OpLen(core + more, true) == 0 && WordLen(core + more, true, None, false) == Ok(|core| + |more|)
  {
    core := Core(target);
    EatenScans(target, more, |more|);
    HangingStarts(target, more);
  }

  lemma LongerIsTarget(core: string, more: string)
    requires core != "" && !IsBlank(core[0]) && !IsSpace(core[|core| - 1])
    requires OpLen(core + more, true) == 0 && WordLen(core + more, true, None, false) == Ok(|core| + |more|)
    ensures TargetOk(core + more)
  {
    LastOfCore(core, more);
    HangingIsSolid(core, more);
  }

  lemma EatenScans(target: string, more: string, n: nat)
    requires TargetOk(target) && Hangs(target) && Boundary(more) && WordLen(more, false, None, true) == Ok(n)
    ensures WordLen(Core(target) + more, true, None, false) == Ok(|Core(target)| + n)
  {
    LostSpace(target, more);
  }

  lemma HangingStarts(target: string, more: string)
    requires TargetOk(target) && Boundary(more)
    ensures var core := Core(target);
            && core != "" && !IsBlank(core[0]) && !IsSpace(core[|core| - 1]) && OpLen(core + more, true) == 0
  {
    CoreStarts(target);
    CoreOf(target);
  }

  lemma HangingIsSolid(core: string, more: string)
    requires core != "" && !IsBlank(core[0]) && OpLen(core + more, true) == 0
    requires WordLen(core + more, true, None, false) == Ok(|core| + |more|)
    ensures Solid(core + more) && !IsOperator(core + more)
  {
  }

  lemma LastOfCore(core: string, more: string)
    requires core != "" && !IsSpace(core[|core| - 1])
    ensures Strip(core + more) != ""
  {
    assert (core + more)[|core| - 1] == core[|core| - 1];
    NotEmpty(core + more, |core| - 1);
  }

  lemma SeenIsTarget(target: string, next: string)
    requires TargetOk(target) && (next == ")" ==> !Hangs(target))
    ensures TargetOk(Seen(target, next))
  {
    if Hangs(target) {
      EatenWords();
      HangingIsTarget(target, if next != "" && next[0] == '2' then " 2" else " ");
    } else {
      CoreIsTarget(target);
    }
  }

  lemma OpAfterIsOp(n: Node, op: string)
    requires IsRedirOp(op)
    ensures IsRedirOp(OpAfter(n, op))
  {
  }

  lemma {:induction false} ShownHasWords(n: Node, next: string)
    ensures HasWords(Shown(n, next)) == HasWords(n) && HasCommand(Shown(n, next)) == HasCommand(n)
    decreases n
  {
    match n
    case Command(_, _) =>
    case Chain(l, r, sep) => ShownHasWords(l, sep); ShownHasWords(r, next);
    case Pipe(l, r) => ShownHasWords(l, "|"); ShownHasWords(r, next);
    case Redir(c, _, op) => ShownHasWords(c, op);
    case Subshell(c) => ShownHasWords(c, ")");
  }

  predicate Safe(n: Node, next: string) { !BrokenParens(n) && (next == ")" ==> !Hanging(n)) }

  lemma {:induction false} FactorShown(n: Node, next: string)
    requires FactorOk(n) && Safe(n, next)
    ensures FactorOk(Shown(n, next))
    decreases n, 0
  {
    match n
    case Command(_, _) =>
    case Redir(c, target, op) =>
      SeenIsTarget(target, next);
      OpAfterIsOp(c, op);
      if FactorOk(c) { FactorShown(c, op); }
    case Subshell(c) => ChainShown(c, ")");
  }

  lemma {:induction false} PipeShown(n: Node, next: string)
    requires PipeOk(n) && Safe(n, next)
    ensures PipeOk(Shown(n, next))
    decreases n, 1
  {
    if n.Pipe? {
      PipeShown(n.left, "|");
      ShownHasWords(n.left, "|");
      FactorShown(n.right, next);
    } else {
      FactorShown(n, next);
    }
  }

  lemma {:induction false} ChainShown(n: Node, next: string)
    requires ChainOk(n) && Safe(n, next)
    ensures ChainOk(Shown(n, next))
    decreases n, 2
  {
    if n.Chain? {
      ChainShown(n.left, n.sep);
      ShownHasWords(n.left, n.sep);
      PipeShown(n.right, next);
    } else {
      PipeShown(n, next);
    }
  }

  /** A print that is not refused parses to the tree it shows, words quoted. */
  lemma ShownParses(n: Node)
    requires ChainOk(n) && !Refused(n)
    ensures Parse(Print(n)) == Ok(Reread(Shown(n, "")))
  {
    PrintScans(n);
    ToksAreShown(n, "");
    var m := Shown(n, "");
    ChainShown(n, "");
    ChainStarts(m);
    ParseChainBack(m, []);
    assert PrintedTokens(m) + [] == PrintedTokens(m);
  }

  lemma PrintScans(n: Node)
    requires ChainOk(n)
    ensures Hanging(n) ==> Tokens(Print(n)).Err?
    ensures !Hanging(n) ==> Tokens(Print(n)) == Ok(Toks(n, ""))
  {
    ChainIsShaped(n);
    ScanPrinted(n, "", "");
    assert Print(n) + "" == Print(n) && Toks(n, "") + [] == Toks(n, "");
  }

  // ------------------------------------------------------- lost parentheses

  function Balance(toks: seq<string>): int {
    if toks == [] then 0 else Balance(toks[..|toks| - 1]) + Weight(toks[|toks| - 1])
  }

  function Weight(tok: string): int { if tok == "(" then 1 else if tok == ")" then -1 else 0 }

  lemma {:induction false} BalanceConcat(a: seq<string>, b: seq<string>)
    ensures Balance(a + b) == Balance(a) + Balance(b)
    decreases |b|
  {
    if b == [] {
      assert a + b == a;
    } else {
      BalanceConcat(a, b[..|b| - 1]);
      assert (a + b)[..|a + b| - 1] == a + b[..|b| - 1];
    }
  }

  lemma BalanceOne(tok: string)
    ensures Balance([tok]) == Weight(tok)
  {
    assert [tok][..0] == [];
  }

  lemma BalanceSplit(toks: seq<string>, k: nat)
    requires k <= |toks|
    ensures Balance(toks) == Balance(toks[..k]) + Balance(toks[k..])
  {
    BalanceConcat(toks[..k], toks[k..]);
    assert toks[..k] + toks[k..] == toks;
  }

  lemma {:induction false} WordsBalance(words: seq<string>)
    requires NoOperator(words)
    ensures Balance(words) == 0
    decreases |words|
  {
    if words != [] {
      assert NoOperator(words[..|words| - 1]);
      WordsBalance(words[..|words| - 1]);
      assert !IsOperator(words[|words| - 1]);
    }
  }

  function BrokenCount(n: Node): nat {
    match n
    case Command(_, _) => 0
    case Chain(l, r, _) => BrokenCount(l) + BrokenCount(r)
    case Pipe(l, r) => BrokenCount(l) + BrokenCount(r)
    case Redir(c, _, _) => BrokenCount(c)
    case Subshell(c) => BrokenCount(c) + (if Hanging(c) then 1 else 0)
  }

  lemma {:induction false} BrokenIsCounted(n: Node)
    ensures BrokenParens(n) <==> BrokenCount(n) > 0
    decreases n
  {
    match n
    case Command(_, _) =>
    case Chain(l, r, _) => BrokenIsCounted(l); BrokenIsCounted(r);
    case Pipe(l, r) => BrokenIsCounted(l); BrokenIsCounted(r);
    case Redir(c, _, _) => BrokenIsCounted(c);
    case Subshell(c) => BrokenIsCounted(c);
  }

  lemma SeenHasNoWeight(target: string, next: string)
    requires TargetOk(target)
    ensures Weight(Seen(target, next)) == 0
  {
    CoreStarts(target);
    if !Hangs(target) { CoreIsTarget(target); }
  }

  lemma BalanceThree(a: seq<string>, op: string, b: seq<string>)
    ensures Balance(a + [op] + b) == Balance(a) + Weight(op) + Balance(b)
  {
    BalanceConcat(a + [op], b);
    BalanceConcat(a, [op]);
    BalanceOne(op);
  }

  /** Each broken subshell leaves one parenthesis open. */
  lemma {:induction false} ToksBalance(n: Node, next: string)
    requires Shaped(n) || n == Command([], [])
    ensures Balance(Toks(n, next)) == BrokenCount(n)
    decreases n
  {
    match n
    case Command(_, _) =>
      QuotedAreNoOperators(WordsOf(n));
      WordsBalance(Toks(n, next));
    case Chain(l, r, sep) =>
      ToksBalance(l, sep);
      ToksBalance(r, next);
      BalanceThree(Toks(l, sep), sep, Toks(r, next));
    case Pipe(l, r) =>
      ToksBalance(l, "|");
      ToksBalance(r, next);
      BalanceThree(Toks(l, "|"), "|", Toks(r, next));
    case Redir(c, target, op) =>
      ToksBalance(c, op);
      SeenHasNoWeight(target, next);
      OpAfterIsOp(c, op);
      BalanceOne(Seen(target, next));
      BalanceThree(Toks(c, op), OpAfter(c, op), [Seen(target, next)]);
    case Subshell(c) =>
      ToksBalance(c, ")");
      BalanceParens(Toks(c, ")"), Hanging(c));
  }

  lemma BalanceParens(toks: seq<string>, open: bool)
    ensures Balance(["("] + toks + (if open then [] else [")"])) == Balance(toks) + (if open then 1 else 0)
  {
    BalanceConcat(["("] + toks, if open then [] else [")"]);
    BalanceConcat(["("], toks);
    BalanceOne("(");
    BalanceOne(")");
  }

  // What the parser takes in is balanced.

  lemma {:induction false} SimpleBalance(words: seq<string>, redirs: seq<(string, string)>, toks: seq<string>)
    requires ReadSimple(words, redirs, toks).Ok?
    ensures Balance(toks) == Balance(ReadSimple(words, redirs, toks).value.rest)
    decreases |toks|
  {
    if toks != [] && !EndsSimple(toks[0]) {
      if IsRedirOp(toks[0]) {
        TakeTwo(toks);
        SimpleBalance(words, redirs + [(toks[0], toks[1])], toks[2..]);
      } else {
        TakeOne(toks);
        SimpleBalance(words + [toks[0]], redirs, toks[1..]);
      }
    }
  }

  lemma TakeOne(toks: seq<string>)
    requires toks != []
    ensures Balance(toks) == Weight(toks[0]) + Balance(toks[1..])
  {
    BalanceSplit(toks, 1);
    assert toks[..1] == [toks[0]];
    BalanceOne(toks[0]);
  }

  lemma TakeTwo(toks: seq<string>)
    requires toks != [] && IsRedirOp(toks[0]) && RedirTarget(toks).Ok?
    ensures |toks| >= 2 && Balance(toks) == Balance(toks[2..])
  {
    TakeOne(toks);
    TakeOne(toks[1..]);
    assert toks[1..][1..] == toks[2..];
    assert IsOperator("(") && IsOperator(")");
  }

  lemma {:induction false} RedirsBalance(node: Node, toks: seq<string>)
    requires ParseRedirs(node, toks).Ok?
    ensures Balance(toks) == Balance(ParseRedirs(node, toks).value.rest)
    decreases |toks|
  {
    if toks != [] && IsRedirOp(toks[0]) {
      TakeTwo(toks);
      RedirsBalance(Redir(node, toks[1], toks[0]), toks[2..]);
    }
  }

  lemma {:induction false} FactorBalance(toks: seq<string>)
    requires ParseFactor(toks).Ok?
    ensures Balance(toks) == Balance(ParseFactor(toks).value.rest)
    decreases |toks|, 1
  {
    if toks != [] && toks[0] == "(" {
      TakeOne(toks);
      ChainBalance(toks[1..]);
      var p := ParseChain(toks[1..]).value;
      TakeOne(p.rest);
      RedirsBalance(Subshell(p.node), p.rest[1..]);
    } else {
      SimpleBalance([], [], toks);
    }
  }

  lemma {:induction false} PipeLoopBalance(node: Node, toks: seq<string>)
    requires PipeLoop(node, toks).Ok?
    ensures Balance(toks) == Balance(PipeLoop(node, toks).value.rest)
    decreases |toks|, 0
  {
    if toks != [] && toks[0] == "|" {
      TakeOne(toks);
      FactorBalance(toks[1..]);
      var p := ParseFactor(toks[1..]).value;
      PipeLoopBalance(Pipe(node, p.node), p.rest);
    }
  }

  lemma {:induction false} PipeBalance(toks: seq<string>)
    requires ParsePipe(toks).Ok?
    ensures Balance(toks) == Balance(ParsePipe(toks).value.rest)
    decreases |toks|, 2
  {
    FactorBalance(toks);
    var p := ParseFactor(toks).value;
    PipeLoopBalance(p.node, p.rest);
  }

  lemma {:induction false} ChainLoopBalance(node: Node, toks: seq<string>)
    requires ChainLoop(node, toks).Ok?
    ensures Balance(toks) == Balance(ChainLoop(node, toks).value.rest)
    decreases |toks|, 0
  {
    if toks != [] && IsSep(toks[0]) {
      TakeOne(toks);
      PipeBalance(toks[1..]);
      var p := ParsePipe(toks[1..]).value;
      ChainLoopBalance(Chain(node, p.node, toks[0]), p.rest);
    }
  }

  /** Accepted tokens hold as many closing parentheses as opening ones. */
  lemma {:induction false} ChainBalance(toks: seq<string>)
    requires ParseChain(toks).Ok?
    ensures Balance(toks) == Balance(ParseChain(toks).value.rest)
    decreases |toks|, 3
  {
    PipeBalance(toks);
    var p := ParsePipe(toks).value;
    ChainLoopBalance(p.node, p.rest);
  }

  /** A refused print does not parse. */
  lemma RefusedFails(n: Node)
    requires ChainOk(n) && Refused(n)
    ensures Parse(Print(n)).Err?
  {
    PrintScans(n);
    if !Hanging(n) {
      ChainIsShaped(n);
      ToksBalance(n, "");
      BrokenIsCounted(n);
      if Parse(Print(n)).Ok? && Toks(n, "") != [] { ChainBalance(Toks(n, "")); }
    }
  }
}
