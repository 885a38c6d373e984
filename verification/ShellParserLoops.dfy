/** The `_parse_*` functions of src/safety/command_guard.py in their own form:
    loops over a token list and a position. */
module ShellParserLoops {
  import opened Common
  import opened ShellLexer
  import opened ShellParser

  datatype At = At(node: Node, pos: nat)

  /** A result by position stands for the specified result by remaining tokens. */
  predicate Agrees(tokens: seq<string>, r: Result<At>, spec: Result<Parsed>) {
    match (r, spec)
    case (Ok(a), Ok(p)) => a.pos <= |tokens| && a.node == p.node && tokens[a.pos..] == p.rest
    case (Err(e), Err(f)) => e == f
    case _ => false
  }

  lemma Drop(tokens: seq<string>, pos: nat, k: nat)
    requires pos + k <= |tokens|
    ensures tokens[pos..][k..] == tokens[pos + k..]
    ensures k < |tokens[pos..]| ==> tokens[pos..][k] == tokens[pos + k]
  {
  }

  /** `_parse_redir_target`. */
  method ParseTarget(tokens: seq<string>, pos: nat) returns (r: Result<string>)
    requires pos < |tokens|
    ensures r == RedirTarget(tokens[pos..])
    ensures r.Ok? ==> pos + 2 <= |tokens|
  {
    if pos + 1 >= |tokens| {
      return Err("redirection misses a target");
    }
    var target := tokens[pos + 1];
    Drop(tokens, pos, 1);
    if IsOperator(target) || Strip(target) == "" {
      return Err("redirection misses a target");
    }
    r := Ok(target);
  }

  lemma RedirTurn(tokens: seq<string>, pos: nat, node: Node)
    requires pos < |tokens| && IsRedirOp(tokens[pos]) && RedirTarget(tokens[pos..]).Ok?
    ensures pos + 2 <= |tokens|
    ensures ParseRedirs(node, tokens[pos..])
            == ParseRedirs(Redir(node, RedirTarget(tokens[pos..]).value, tokens[pos]), tokens[pos + 2..])
  {
    Drop(tokens, pos, 2);
    assert tokens[pos..][0] == tokens[pos];
  }

  lemma RedirFails(tokens: seq<string>, pos: nat, node: Node, target: Result<string>)
    requires pos < |tokens| && IsRedirOp(tokens[pos]) && target == RedirTarget(tokens[pos..]) && target.Err?
    ensures ParseRedirs(node, tokens[pos..]) == Err(target.message)
  {
    assert tokens[pos..][0] == tokens[pos];
  }

  lemma RedirsEnd(tokens: seq<string>, pos: nat, node: Node)
    requires pos <= |tokens| && (pos < |tokens| ==> !IsRedirOp(tokens[pos]))
    ensures ParseRedirs(node, tokens[pos..]) == Ok(Parsed(node, tokens[pos..]))
  {
  }

  lemma PipeTurn(tokens: seq<string>, pos: nat, node: Node, right: At)
    requires pos + 1 < |tokens| && tokens[pos] == "|" && HasCommand(node) && !EndsPipeEarly(tokens[pos + 1])
    requires Agrees(tokens, Ok(right), ParseFactor(tokens[pos + 1..]))
    ensures PipeLoop(node, tokens[pos..]) == PipeLoop(Pipe(node, right.node), tokens[right.pos..])
  {
    Drop(tokens, pos, 1);
    assert tokens[pos..][0] == "|";
  }

  lemma PipeMisses(tokens: seq<string>, pos: nat, node: Node)
    requires pos < |tokens| && tokens[pos] == "|"
    requires !HasCommand(node) || pos + 1 == |tokens| || EndsPipeEarly(tokens[pos + 1])
    ensures PipeLoop(node, tokens[pos..]) ==
            Err(if !HasCommand(node) then "pipe '|' misses a command before it" else "pipe '|' misses a command after it")
  {
    assert tokens[pos..][0] == "|";
    assert pos + 1 < |tokens| ==> tokens[pos..][1] == tokens[pos + 1];
  }

  lemma PipeRightFails(tokens: seq<string>, pos: nat, node: Node, right: Result<At>)
    requires pos + 1 < |tokens| && tokens[pos] == "|" && HasCommand(node) && !EndsPipeEarly(tokens[pos + 1])
    requires right.Err? && Agrees(tokens, right, ParseFactor(tokens[pos + 1..]))
    ensures Agrees(tokens, right, PipeLoop(node, tokens[pos..]))
  {
    Drop(tokens, pos, 1);
    assert tokens[pos..][0] == "|" && tokens[pos..][1] == tokens[pos + 1];
  }

  lemma PipeEnd(tokens: seq<string>, pos: nat, node: Node)
    requires pos <= |tokens| && (pos < |tokens| ==> tokens[pos] != "|")
    ensures PipeLoop(node, tokens[pos..]) == Ok(Parsed(node, tokens[pos..]))
  {
  }

  /** The redirections after a subshell. */
  method ParseTrailingRedirs(tokens: seq<string>, start: nat, inner: Node) returns (r: Result<At>)
    requires start <= |tokens|
    ensures Agrees(tokens, r, ParseRedirs(inner, tokens[start..]))
  {
    var node, pos := inner, start;
    while pos < |tokens| && IsRedirOp(tokens[pos])
      invariant pos <= |tokens|
      invariant ParseRedirs(node, tokens[pos..]) == ParseRedirs(inner, tokens[start..])
    {
      var target := ParseTarget(tokens, pos);
      if target.Err? {
        RedirFails(tokens, pos, node, target);
        return Err(target.message);
      }
      RedirTurn(tokens, pos, node);
      node, pos := Redir(node, target.value, tokens[pos]), pos + 2;
    }
    RedirsEnd(tokens, pos, node);
    r := Ok(At(node, pos));
  }

  /** `_split_env_assignments`, then the command node. */
  method SplitAssignments(words: seq<string>) returns (node: Node)
    ensures node == SplitEnv([], words)
  {
    var env: seq<(string, string)>, rest := [], words;
    while rest != [] && IsAssign(rest[0])
      invariant SplitEnv(env, rest) == SplitEnv([], words)
      decreases |rest|
    {
      var i := IndexOf(rest[0], '=');
      env, rest := Put(env, rest[0][..i], rest[0][i + 1..]), rest[1..];
    }
    node := Command(rest, env);
  }

  datatype Read = Read(words: seq<string>, redirs: seq<(string, string)>, pos: nat)

  predicate AgreesRead(tokens: seq<string>, r: Result<Read>, spec: Result<Simple>) {
    match (r, spec)
    case (Ok(a), Ok(p)) => a.pos <= |tokens| && a.words == p.words && a.redirs == p.redirs && tokens[a.pos..] == p.rest
    case (Err(e), Err(f)) => e == f
    case _ => false
  }

  lemma ReadRedir(tokens: seq<string>, i: nat, words: seq<string>, redirs: seq<(string, string)>, target: Result<string>)
    requires i < |tokens| && !EndsSimple(tokens[i]) && IsRedirOp(tokens[i]) && target == RedirTarget(tokens[i..])
    ensures target.Err? ==> ReadSimple(words, redirs, tokens[i..]) == Err(target.message)
    ensures target.Ok? && i + 2 <= |tokens| ==>
              ReadSimple(words, redirs, tokens[i..]) == ReadSimple(words, redirs + [(tokens[i], target.value)], tokens[i + 2..])
  {
    assert tokens[i..][0] == tokens[i];
    if i + 2 <= |tokens| { Drop(tokens, i, 2); }
  }

  lemma ReadWord(tokens: seq<string>, i: nat, words: seq<string>, redirs: seq<(string, string)>)
    requires i < |tokens| && !EndsSimple(tokens[i]) && !IsRedirOp(tokens[i])
    ensures ReadSimple(words, redirs, tokens[i..]) == ReadSimple(words + [tokens[i]], redirs, tokens[i + 1..])
  {
    assert tokens[i..][0] == tokens[i];
    Drop(tokens, i, 1);
  }

  lemma ReadEnd(tokens: seq<string>, i: nat, words: seq<string>, redirs: seq<(string, string)>)
    requires i <= |tokens| && (i < |tokens| ==> EndsSimple(tokens[i]))
    ensures AgreesRead(tokens, Ok(Read(words, redirs, i)), ReadSimple(words, redirs, tokens[i..]))
  {
    assert i < |tokens| ==> tokens[i..][0] == tokens[i];
  }

  /** The first loop of `_parse_simple_with_redir`: words and redirections. */
  method ReadSimpleAt(tokens: seq<string>, start: nat) returns (r: Result<Read>)
    requires start <= |tokens|
    ensures AgreesRead(tokens, r, ReadSimple([], [], tokens[start..]))
  {
    var words: seq<string>, redirs: seq<(string, string)>, i := [], [], start;
    while i < |tokens| && !EndsSimple(tokens[i])
      invariant i <= |tokens|
      invariant ReadSimple(words, redirs, tokens[i..]) == ReadSimple([], [], tokens[start..])
    {
      var tok := tokens[i];
      if IsRedirOp(tok) {
        var target := ParseTarget(tokens, i);
        ReadRedir(tokens, i, words, redirs, target);
        if target.Err? { return Err(target.message); }
        redirs, i := redirs + [(tok, target.value)], i + 2;
      } else {
        ReadWord(tokens, i, words, redirs);
        words, i := words + [tok], i + 1;
      }
    }
    ReadEnd(tokens, i, words, redirs);
    r := Ok(Read(words, redirs, i));
  }

  /** Its second loop: the redirections around the command, first one innermost. */
  method WrapRedirs(command: Node, redirs: seq<(string, string)>) returns (node: Node)
    ensures node == ApplyRedirs(command, redirs)
  {
    node := command;
    for k := 0 to |redirs|
      invariant node == ApplyRedirs(command, redirs[..k])
    {
      assert redirs[..k + 1][..k] == redirs[..k];
      node := Redir(node, redirs[k].1, redirs[k].0);
    }
    assert redirs[..|redirs|] == redirs;
  }

  /** `_parse_simple_with_redir`. */
  method ParseSimpleAt(tokens: seq<string>, start: nat) returns (r: Result<At>)
    requires start <= |tokens|
    ensures Agrees(tokens, r, ParseSimple(tokens[start..]))
  {
    var read := ReadSimpleAt(tokens, start);
    if read.Err? { return Err(read.message); }
    if read.value.words == [] && read.value.redirs == [] {
      return Err("misses a command");
    }
    var command := SplitAssignments(read.value.words);
    var node := WrapRedirs(command, read.value.redirs);
    r := Ok(At(node, read.value.pos));
  }

  /** `_parse_factor`. */
  method ParseFactorAt(tokens: seq<string>, start: nat) returns (r: Result<At>)
    requires start <= |tokens|
    ensures Agrees(tokens, r, ParseFactor(tokens[start..]))
    decreases |tokens| - start, 1
  {
    if start < |tokens| && tokens[start] == "(" {
      Drop(tokens, start, 1);
      assert tokens[start..][0] == "(";
      if start + 1 < |tokens| && tokens[start + 1] == ")" {
        return Err("empty subshell '()'");
      }
      var inner := ParseChainAt(tokens, start + 1);
      if inner.Err? { return inner; }
      var pos := inner.value.pos;
      if pos >= |tokens| || tokens[pos] != ")" {
        return Err("unclosed subshell: misses ')'");
      }
      Drop(tokens, pos, 1);
      r := ParseTrailingRedirs(tokens, pos + 1, Subshell(inner.value.node));
    } else if start < |tokens| && tokens[start] == ")" {
      r := Err("unexpected ')'");
    } else {
      r := ParseSimpleAt(tokens, start);
    }
  }

  /** `_parse_pipe`. */
  method ParsePipeAt(tokens: seq<string>, start: nat) returns (r: Result<At>)
    requires start <= |tokens|
    ensures Agrees(tokens, r, ParsePipe(tokens[start..]))
    decreases |tokens| - start, 2
  {
    r := ParseFactorAt(tokens, start);
    if r.Err? { return; }
    while r.Ok? && r.value.pos < |tokens| && tokens[r.value.pos] == "|"
      invariant r.Ok? ==> start < r.value.pos <= |tokens|
      invariant r.Ok? ==> PipeLoop(r.value.node, tokens[r.value.pos..]) == ParsePipe(tokens[start..])
      invariant r.Err? ==> Agrees(tokens, r, ParsePipe(tokens[start..]))
      decreases if r.Ok? then |tokens| - r.value.pos + 1 else 0
    {
      r := PipeMore(tokens, r.value.pos, r.value.node);
    }
    if r.Ok? { PipeEnd(tokens, r.value.pos, r.value.node); }
  }

  /** One round of the pipe loop: the command after a `|`. */
  method PipeMore(tokens: seq<string>, pos: nat, node: Node) returns (r: Result<At>)
    requires pos < |tokens| && tokens[pos] == "|"
    ensures r.Ok? ==> pos < r.value.pos <= |tokens|
    ensures r.Ok? ==> PipeLoop(node, tokens[pos..]) == PipeLoop(r.value.node, tokens[r.value.pos..])
    ensures r.Err? ==> Agrees(tokens, r, PipeLoop(node, tokens[pos..]))
    decreases |tokens| - pos, 2
  {
    if !HasCommand(node) {
      PipeMisses(tokens, pos, node);
      return Err("pipe '|' misses a command before it");
    }
    if pos + 1 >= |tokens| || EndsPipeEarly(tokens[pos + 1]) {
      PipeMisses(tokens, pos, node);
      return Err("pipe '|' misses a command after it");
    }
    var right := ParseFactorAt(tokens, pos + 1);
    if right.Err? {
      PipeRightFails(tokens, pos, node, right);
      return right;
    }
    PipeTurn(tokens, pos, node, right.value);
    r := Ok(At(Pipe(node, right.value.node), right.value.pos));
  }

  /** `_parse_chain`. */
  method ParseChainAt(tokens: seq<string>, start: nat) returns (r: Result<At>)
    requires start <= |tokens|
    ensures Agrees(tokens, r, ParseChain(tokens[start..]))
    decreases |tokens| - start, 3
  {
    var first := ParsePipeAt(tokens, start);
    if first.Err? { return first; }
    var node, pos := first.value.node, first.value.pos;
    while pos < |tokens| && IsSep(tokens[pos])
      invariant start < pos <= |tokens|
      invariant ChainLoop(node, tokens[pos..]) == ParseChain(tokens[start..])
    {
      var sep := tokens[pos];
      Drop(tokens, pos, 1);
      assert tokens[pos..][0] == sep;
      if !HasCommand(node) {
        return Err("separator misses a command before it");
      }
      if pos + 1 >= |tokens| || EndsPipeEarly(tokens[pos + 1]) {
        return Err("separator misses a command after it");
      }
      var right := ParsePipeAt(tokens, pos + 1);
      if right.Err? { return right; }
      node, pos := Chain(node, right.value.node, sep), right.value.pos;
    }
    assert pos < |tokens| ==> tokens[pos..][0] == tokens[pos];
    r := Ok(At(node, pos));
  }

  /** `parse_command`. */
  method ParseCommand(text: string) returns (r: Result<Node>)
    ensures r == Parse(text)
  {
    var scanned := Tokenize(text);
    if scanned.Err? { return Err(scanned.message); }
    var tokens := scanned.value;
    if tokens == [] { return Ok(Command([], [])); }
    assert tokens[0..] == tokens;
    var parsed := ParseChainAt(tokens, 0);
    if parsed.Err? { return Err(parsed.message); }
    if parsed.value.pos != |tokens| { return Err("unexpected token"); }
    r := Ok(parsed.value.node);
  }
}
