/** Parsing the printed tokens, and the round-trip theorem
    (src/safety/command_guard.py). */
module ShellReparse {
  import opened Common
  import opened ShellLexer
  import opened ShellParser
  import opened ShellPrinter
  import opened ShellRoundTrip

  lemma RegroupTokens(a: seq<string>, b: seq<string>, rest: seq<string>)
    ensures a + b + rest == a + (b + rest)
  {
  }

  lemma RegroupInfix(a: seq<string>, op: string, b: seq<string>, rest: seq<string>)
    ensures a + [op] + b + rest == a + ([op] + (b + rest))
  {
  }

  // ------------------------------------------------------- simple commands

  predicate NoOperator(words: seq<string>) { forall i :: 0 <= i < |words| ==> !IsOperator(words[i]) }

  lemma {:induction false} QuotedAreNoOperators(words: seq<string>)
    ensures NoOperator(QuoteAll(words)) && |QuoteAll(words)| == |words|
    ensures forall i :: 0 <= i < |words| ==> QuoteAll(words)[i] == Quote(words[i])
    decreases |words|
  {
    if words != [] {
      QuoteIsSolid(words[0]);
      QuotedAreNoOperators(words[1..]);
    }
  }

  lemma {:induction false} ReadWords(words: seq<string>, redirs: seq<(string, string)>, more: seq<string>, rest: seq<string>)
    requires NoOperator(more)
    ensures ReadSimple(words, redirs, more + rest) == ReadSimple(words + more, redirs, rest)
    decreases |more|
  {
    if more == [] {
      assert more + rest == rest && words + more == words;
    } else {
      var toks := more + rest;
      OperatorKinds(more[0]);
      assert toks[0] == more[0] && toks[1..] == more[1..] + rest;
      ReadWords(words + [more[0]], redirs, more[1..], rest);
      assert words + [more[0]] + more[1..] == words + more;
    }
  }

  /** A stack of redirections over one command, as tokens. */
  function BaseOf(n: Node): Node { if n.Redir? then BaseOf(n.cmd) else n }

  function RedirsOf(n: Node): seq<(string, string)> {
    if n.Redir? then RedirsOf(n.cmd) + [(n.op, n.target)] else []
  }

  predicate StackOk(n: Node) { FactorOk(n) || n == Command([], []) }

  lemma ReadRedir(words: seq<string>, redirs: seq<(string, string)>, op: string, target: string, rest: seq<string>)
    requires IsRedirOp(op) && TargetOk(target)
    ensures ReadSimple(words, redirs, [op, target] + rest) == ReadSimple(words, redirs + [(op, target)], rest)
  {
    var toks := [op, target] + rest;
    assert toks[0] == op && toks[1] == target && toks[2..] == rest;
  }

  lemma {:induction false} ReadStack(n: Node, rest: seq<string>)
    requires StackOk(n) && BaseOf(n).Command?
    ensures ReadSimple([], [], PrintedTokens(n) + rest)
            == ReadSimple(QuoteAll(WordsOf(BaseOf(n))), RedirsOf(n), rest)
    decreases n
  {
    if n.Command? {
      QuotedAreNoOperators(WordsOf(n));
      ReadWords([], [], QuoteAll(WordsOf(n)), rest);
      assert [] + QuoteAll(WordsOf(n)) == QuoteAll(WordsOf(n));
    } else {
      var tail := [n.op, n.target] + rest;
      RegroupTokens(PrintedTokens(n.cmd), [n.op, n.target], rest);
      ReadStack(n.cmd, tail);
      ReadRedir(QuoteAll(WordsOf(BaseOf(n))), RedirsOf(n.cmd), n.op, n.target, rest);
    }
  }

  lemma {:induction false} RereadStack(n: Node)
    ensures ApplyRedirs(Reread(BaseOf(n)), RedirsOf(n)) == Reread(n)
    decreases n
  {
    if n.Redir? {
      RereadStack(n.cmd);
      var redirs := RedirsOf(n);
      assert redirs[..|redirs| - 1] == RedirsOf(n.cmd);
    }
  }

  /** What may stand after a factor. */
  predicate Follow(rest: seq<string>) { rest == [] || EndsPipeEarly(rest[0]) }

  lemma StackHasTokens(n: Node)
    requires FactorOk(n) && BaseOf(n).Command?
    ensures WordsOf(BaseOf(n)) != [] || RedirsOf(n) != []
    decreases n
  {
    if n.Command? {
      if n.env != [] { assert EnvWords(n.env) != []; }
    }
  }

  lemma ParseStack(n: Node, rest: seq<string>)
    requires FactorOk(n) && BaseOf(n).Command? && Follow(rest)
    ensures ParseSimple(PrintedTokens(n) + rest) == Ok(Parsed(Reread(n), rest))
  {
    ReadStack(n, rest);
    RereadStack(n);
    StackHasTokens(n);
    QuotedAreNoOperators(WordsOf(BaseOf(n)));
  }

  /** The first token of a factor opens a parenthesis or is no delimiter at all. */
  lemma {:induction false} FactorStarts(n: Node)
    requires StackOk(n)
    ensures n != Command([], []) ==> PrintedTokens(n) != []
    ensures PrintedTokens(n) != [] ==> !EndsPipeEarly(PrintedTokens(n)[0])
    ensures PrintedTokens(n) != [] ==> (PrintedTokens(n)[0] == "(" <==> BaseOf(n).Subshell?)
    ensures BaseOf(n).Command? || BaseOf(n).Subshell?
    decreases n
  {
    match n
    case Command(argv, env) =>
      QuotedAreNoOperators(WordsOf(n));
      if env != [] { assert EnvWords(env) != []; }
      if PrintedTokens(n) != [] { OperatorKinds(PrintedTokens(n)[0]); }
    case Redir(c, target, op) =>
      FactorStarts(c);
      assert c == Command([], []) ==> WordsOf(c) == [] && PrintedTokens(c) == [];
    case Subshell(c) =>
  }

  lemma {:induction false} PipeStarts(n: Node)
    requires PipeOk(n)
    ensures PrintedTokens(n) != [] && !EndsPipeEarly(PrintedTokens(n)[0])
    decreases n
  {
    if n.Pipe? { PipeStarts(n.left); } else { FactorStarts(n); }
  }

  lemma {:induction false} ChainStarts(n: Node)
    requires ChainOk(n)
    ensures PrintedTokens(n) != [] && !EndsPipeEarly(PrintedTokens(n)[0])
    decreases n
  {
    if n.Chain? { ChainStarts(n.left); } else { PipeStarts(n); }
  }

  // ----------------------------------------------------- words survive quoting

  lemma {:induction false} SplitHasWords(env: seq<(string, string)>, words: seq<string>)
    ensures SplitEnv(env, words).Command?
    ensures HasWords(SplitEnv(env, words)) <==> env != [] || words != []
    decreases |words|
  {
    if words != [] && IsAssign(words[0]) {
      var i := IndexOf(words[0], '=');
      SplitHasWords(Put(env, words[0][..i], words[0][i + 1..]), words[1..]);
    }
  }

  lemma {:induction false} RereadHasWords(n: Node)
    ensures HasWords(Reread(n)) <==> HasWords(n)
    ensures HasCommand(Reread(n)) <==> HasCommand(n)
    decreases n
  {
    match n
    case Command(argv, env) =>
      SplitHasWords([], QuoteAll(WordsOf(n)));
      QuotedAreNoOperators(WordsOf(n));
      if env != [] { assert EnvWords(env) != []; }
    case Chain(l, r, _) => RereadHasWords(l); RereadHasWords(r);
    case Pipe(l, r) => RereadHasWords(l); RereadHasWords(r);
    case Redir(c, _, _) => RereadHasWords(c);
    case Subshell(c) => RereadHasWords(c);
  }

  // ------------------------------------------------------------ the parser

  /** The redirections after a subshell, as tokens. */
  function RedirTokens(n: Node): seq<string> {
    if n.Redir? then RedirTokens(n.cmd) + [n.op, n.target] else []
  }

  lemma {:induction false} StackTokens(n: Node)
    requires BaseOf(n).Subshell?
    ensures PrintedTokens(n) == ["("] + PrintedTokens(BaseOf(n).cmd) + [")"] + RedirTokens(n)
    decreases n
  {
    if n.Redir? {
      StackTokens(n.cmd);
    }
  }

  lemma OneRedir(node: Node, op: string, target: string, rest: seq<string>)
    requires IsRedirOp(op) && TargetOk(target)
    ensures ParseRedirs(node, [op, target] + rest) == ParseRedirs(Redir(node, target, op), rest)
  {
    var toks := [op, target] + rest;
    assert toks[0] == op && toks[1] == target && toks[2..] == rest;
  }

  lemma {:induction false} ParseRedirStack(n: Node, rest: seq<string>)
    requires FactorOk(n) && BaseOf(n).Subshell?
    ensures ParseRedirs(Reread(BaseOf(n)), RedirTokens(n) + rest) == ParseRedirs(Reread(n), rest)
    decreases n
  {
    if n.Redir? {
      var tail := [n.op, n.target] + rest;
      ParseRedirStack(n.cmd, tail);
      RegroupTokens(RedirTokens(n.cmd), [n.op, n.target], rest);
      OneRedir(Reread(n.cmd), n.op, n.target, rest);
    } else {
      assert RedirTokens(n) + rest == rest;
    }
  }

  lemma {:induction false} BaseIsSmaller(n: Node)
    requires FactorOk(n) && BaseOf(n).Subshell?
    ensures BaseOf(n).cmd < n && ChainOk(BaseOf(n).cmd)
    decreases n
  {
    if n.Redir? { BaseIsSmaller(n.cmd); }
  }

  lemma ParenTurn(toks: seq<string>, inner: Node, after: seq<string>)
    requires toks != [] && toks[0] != ")"
    requires ParseChain(toks + ([")"] + after)) == Ok(Parsed(inner, [")"] + after))
    ensures ParseFactor(["("] + (toks + ([")"] + after))) == ParseRedirs(Subshell(inner), after)
  {
    var tail := [")"] + after;
    var all := ["("] + (toks + tail);
    assert all[0] == "(" && all[1..] == toks + tail && all[1] == toks[0];
    assert tail[0] == ")" && tail[1..] == after;
  }

  lemma RegroupParens(a: seq<string>, b: seq<string>, rest: seq<string>)
    ensures ["("] + a + [")"] + b + rest == ["("] + (a + ([")"] + (b + rest)))
  {
  }

  lemma ParseParens(n: Node, rest: seq<string>)
    requires FactorOk(n) && BaseOf(n).Subshell? && Follow(rest)
    requires PrintedTokens(BaseOf(n).cmd) != [] && PrintedTokens(BaseOf(n).cmd)[0] != ")"
    requires ParseChain(PrintedTokens(BaseOf(n).cmd) + ([")"] + (RedirTokens(n) + rest)))
             == Ok(Parsed(Reread(BaseOf(n).cmd), [")"] + (RedirTokens(n) + rest)))
    ensures ParseFactor(PrintedTokens(n) + rest) == Ok(Parsed(Reread(n), rest))
  {
    StackTokens(n);
    var inner := BaseOf(n).cmd;
    RegroupParens(PrintedTokens(inner), RedirTokens(n), rest);
    ParenTurn(PrintedTokens(inner), Reread(inner), RedirTokens(n) + rest);
    ParseRedirStack(n, rest);
  }

  lemma {:induction false} ParseFactorBack(n: Node, rest: seq<string>)
    requires FactorOk(n) && Follow(rest)
    ensures ParseFactor(PrintedTokens(n) + rest) == Ok(Parsed(Reread(n), rest))
    decreases n, 0
  {
    FactorStarts(n);
    if BaseOf(n).Command? {
      ParseStack(n, rest);
      assert (PrintedTokens(n) + rest)[0] == PrintedTokens(n)[0];
    } else {
      BaseIsSmaller(n);
      var inner := BaseOf(n).cmd;
      ChainStarts(inner);
      ParseChainBack(inner, [")"] + (RedirTokens(n) + rest));
      ParseParens(n, rest);
    }
  }

  lemma PipeTurn(l: Node, toksR: seq<string>, r: Node, rest: seq<string>)
    requires HasCommand(l) && toksR != [] && !EndsPipeEarly(toksR[0])
    requires ParseFactor(toksR + rest) == Ok(Parsed(r, rest))
    ensures PipeLoop(l, ["|"] + (toksR + rest)) == PipeLoop(Pipe(l, r), rest)
  {
    var toks := ["|"] + (toksR + rest);
    assert toks[1..] == toksR + rest && toks[1] == toksR[0];
  }

  lemma {:induction false} ParsePipeBack(n: Node, rest: seq<string>)
    requires PipeOk(n) && Follow(rest)
    ensures ParsePipe(PrintedTokens(n) + rest) == PipeLoop(Reread(n), rest)
    decreases n, 1
  {
    if n.Pipe? {
      var tail := ["|"] + (PrintedTokens(n.right) + rest);
      ParsePipeBack(n.left, tail);
      ParseFactorBack(n.right, rest);
      RereadHasWords(n.left);
      FactorStarts(n.right);
      PipeTurn(Reread(n.left), PrintedTokens(n.right), Reread(n.right), rest);
      RegroupInfix(PrintedTokens(n.left), "|", PrintedTokens(n.right), rest);
    } else {
      ParseFactorBack(n, rest);
    }
  }

  lemma ChainTurn(l: Node, sep: string, toksR: seq<string>, r: Node, rest: seq<string>)
    requires HasCommand(l) && IsSep(sep) && toksR != [] && !EndsPipeEarly(toksR[0])
    requires ParsePipe(toksR + rest) == Ok(Parsed(r, rest))
    ensures ChainLoop(l, [sep] + (toksR + rest)) == ChainLoop(Chain(l, r, sep), rest)
  {
    var toks := [sep] + (toksR + rest);
    assert toks[1..] == toksR + rest && toks[1] == toksR[0];
  }

  /** What may stand after a chain. */
  predicate ChainFollow(rest: seq<string>) { rest == [] || rest[0] == ")" || IsSep(rest[0]) }

  lemma {:induction false} ParseChainLoop(n: Node, rest: seq<string>)
    requires ChainOk(n) && ChainFollow(rest)
    ensures ParseChain(PrintedTokens(n) + rest) == ChainLoop(Reread(n), rest)
    decreases n, 2
  {
    if n.Chain? {
      var tail := [n.sep] + (PrintedTokens(n.right) + rest);
      ParseChainLoop(n.left, tail);
      ParsePipeBack(n.right, rest);
      RereadHasWords(n.left);
      PipeStarts(n.right);
      ChainTurn(Reread(n.left), n.sep, PrintedTokens(n.right), Reread(n.right), rest);
      RegroupInfix(PrintedTokens(n.left), n.sep, PrintedTokens(n.right), rest);
    } else {
      ParsePipeBack(n, rest);
    }
  }

  lemma {:induction false} ParseChainBack(n: Node, rest: seq<string>)
    requires ChainOk(n) && (rest == [] || rest[0] == ")")
    ensures ParseChain(PrintedTokens(n) + rest) == Ok(Parsed(Reread(n), rest))
    decreases n, 3
  {
    ParseChainLoop(n, rest);
  }
}
