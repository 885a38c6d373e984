/** The recursive-descent parser of src/safety/command_guard.py and the tree it
    builds. */
module ShellParser {
  import opened Common
  import opened ShellLexer

  datatype Node =
    | Command(argv: seq<string>, env: seq<(string, string)>)
    | Pipe(left: Node, right: Node)
    | Redir(cmd: Node, target: string, op: string)
    | Subshell(cmd: Node)
    | Chain(left: Node, right: Node, sep: string)

  // ------------------------------------------------------------ characters

  /** The characters `str.strip` removes. */
  predicate IsSpace(c: char) {
    var n := c as int;
    || 0x09 <= n <= 0x0D || 0x1C <= n <= 0x20 || n == 0x85 || n == 0xA0 || n == 0x1680
    || 0x2000 <= n <= 0x200A || n == 0x2028 || n == 0x2029 || n == 0x202F || n == 0x205F || n == 0x3000
  }

  function StripLeft(s: string): string {
    if s != "" && IsSpace(s[0]) then StripLeft(s[1..]) else s
  }

  function StripRight(s: string): string {
    if s != "" && IsSpace(s[|s| - 1]) then StripRight(s[..|s| - 1]) else s
  }

  function Strip(s: string): string { StripRight(StripLeft(s)) }

  /** `str.isalpha` on ASCII. */
  predicate IsAlpha(c: char) { 'a' <= c <= 'z' || 'A' <= c <= 'Z' }

  // ---------------------------------------------------------------- tokens

  predicate IsSep(t: string) { t == ";" || t == "&&" || t == "||" }

  predicate IsRedirOp(t: string) {
    t == ">>" || t == "<<" || t == "2>>" || t == "2>" || t == "&>" || t == ">" || t == "<"
  }

  /** Tokens that end a simple command. */
  predicate EndsSimple(t: string) { IsSep(t) || t == "|" || t == "(" || t == ")" }

  // ----------------------------------------------------- environment prefix

  function IndexOf(s: string, c: char): (i: nat)
    ensures i <= |s| && c !in s[..i] && (i < |s| ==> s[i] == c) && (c in s ==> i < |s|)
  {
    if s == "" || s[0] == c then 0 else 1 + IndexOf(s[1..], c)
  }

  /** A leading word that `_split_env_assignments` takes as `KEY=value`. */
  predicate IsAssign(w: string) {
    && '=' in w && '/' !in w && !(w != "" && w[0] == '-')
    && var key := w[..IndexOf(w, '=')];
       key != "" && (IsAlpha(key[0]) || key[0] == '_')
  }

  /** Dictionary assignment: an existing key keeps its place. */
  function Put(env: seq<(string, string)>, k: string, v: string): seq<(string, string)> {
    if env == [] then [(k, v)]
    else if env[0].0 == k then [(k, v)] + env[1..]
    else [env[0]] + Put(env[1..], k, v)
  }

  function SplitEnv(env: seq<(string, string)>, words: seq<string>): Node
    decreases |words|
  {
    if words != [] && IsAssign(words[0]) then
      var i := IndexOf(words[0], '=');
      SplitEnv(Put(env, words[0][..i], words[0][i + 1..]), words[1..])
    else Command(words, env)
  }

  // ---------------------------------------------------------------- parser

  /** A parsed piece and the tokens after it. */
  datatype Parsed = Parsed(node: Node, rest: seq<string>)

  /** Some leaf command holds a word. */
  predicate HasWords(n: Node) {
    match n
    case Command(argv, env) => argv != [] || env != []
    case Pipe(l, r) => HasWords(l) || HasWords(r)
    case Chain(l, r, _) => HasWords(l) || HasWords(r)
    case Redir(c, _, _) => HasWords(c)
    case Subshell(c) => HasWords(c)
  }

  /** `_has_command`: a chain or pipe of bare redirections does not count. */
  predicate HasCommand(n: Node) { HasWords(n) || n.Subshell? || n.Redir? }

  /** `_parse_redir_target`: the target after the operator `toks[0]`. */
  function RedirTarget(toks: seq<string>): Result<string>
    requires toks != []
  {
    if |toks| < 2 then Err("redirection misses a target")
    else if IsOperator(toks[1]) then Err("redirection misses a target")
    else if Strip(toks[1]) == "" then Err("redirection misses a target")
    else Ok(toks[1])
  }

  function ParseRedirs(node: Node, toks: seq<string>): (r: Result<Parsed>)
    ensures r.Ok? ==> |r.value.rest| <= |toks|
    decreases |toks|
  {
    if toks == [] || !IsRedirOp(toks[0]) then Ok(Parsed(node, toks))
    else
      match RedirTarget(toks)
      case Err(e) => Err(e)
      case Ok(target) => ParseRedirs(Redir(node, target, toks[0]), toks[2..])
  }

  datatype Simple = Simple(words: seq<string>, redirs: seq<(string, string)>, rest: seq<string>)

  function ReadSimple(words: seq<string>, redirs: seq<(string, string)>, toks: seq<string>): (r: Result<Simple>)
    ensures r.Ok? ==> |r.value.rest| <= |toks|
    ensures r.Ok? && |r.value.rest| == |toks| ==> r.value == Simple(words, redirs, toks)
    decreases |toks|
  {
    if toks == [] || EndsSimple(toks[0]) then Ok(Simple(words, redirs, toks))
    else if IsRedirOp(toks[0]) then
      match RedirTarget(toks)
      case Err(e) => Err(e)
      case Ok(target) => ReadSimple(words, redirs + [(toks[0], target)], toks[2..])
    else ReadSimple(words + [toks[0]], redirs, toks[1..])
  }

  function ApplyRedirs(node: Node, redirs: seq<(string, string)>): Node {
    if redirs == [] then node
    else Redir(ApplyRedirs(node, redirs[..|redirs| - 1]), redirs[|redirs| - 1].1, redirs[|redirs| - 1].0)
  }

  function ParseSimple(toks: seq<string>): (r: Result<Parsed>)
    ensures r.Ok? ==> |r.value.rest| < |toks|
  {
    match ReadSimple([], [], toks)
    case Err(e) => Err(e)
    case Ok(s) =>
      if s.words == [] && s.redirs == [] then Err("misses a command")
      else Ok(Parsed(ApplyRedirs(SplitEnv([], s.words), s.redirs), s.rest))
  }

  function ParseFactor(toks: seq<string>): (r: Result<Parsed>)
    ensures r.Ok? ==> |r.value.rest| < |toks|
    decreases |toks|, 1
  {
    if toks != [] && toks[0] == "(" then
      if |toks| > 1 && toks[1] == ")" then Err("empty subshell '()'")
      else
        match ParseChain(toks[1..])
        case Err(e) => Err(e)
        case Ok(p) =>
          if p.rest == [] || p.rest[0] != ")" then Err("unclosed subshell: misses ')'")
          else ParseRedirs(Subshell(p.node), p.rest[1..])
    else if toks != [] && toks[0] == ")" then Err("unexpected ')'")
    else ParseSimple(toks)
  }

  function PipeLoop(node: Node, toks: seq<string>): (r: Result<Parsed>)
    ensures r.Ok? ==> |r.value.rest| <= |toks|
    decreases |toks|, 0
  {
    if toks == [] || toks[0] != "|" then Ok(Parsed(node, toks))
    else if !HasCommand(node) then Err("pipe '|' misses a command before it")
    else if |toks| < 2 || EndsPipeEarly(toks[1]) then Err("pipe '|' misses a command after it")
    else
      match ParseFactor(toks[1..])
      case Err(e) => Err(e)
      case Ok(p) => PipeLoop(Pipe(node, p.node), p.rest)
  }

  predicate EndsPipeEarly(t: string) { t == "|" || t == ")" || IsSep(t) }

  function ParsePipe(toks: seq<string>): (r: Result<Parsed>)
    ensures r.Ok? ==> |r.value.rest| < |toks|
    decreases |toks|, 2
  {
    match ParseFactor(toks)
    case Err(e) => Err(e)
    case Ok(p) => PipeLoop(p.node, p.rest)
  }

  function ChainLoop(node: Node, toks: seq<string>): (r: Result<Parsed>)
    ensures r.Ok? ==> |r.value.rest| <= |toks|
    decreases |toks|, 0
  {
    if toks == [] || !IsSep(toks[0]) then Ok(Parsed(node, toks))
    else if !HasCommand(node) then Err("separator misses a command before it")
    else if |toks| < 2 || EndsPipeEarly(toks[1]) then Err("separator misses a command after it")
    else
      match ParsePipe(toks[1..])
      case Err(e) => Err(e)
      case Ok(p) => ChainLoop(Chain(node, p.node, toks[0]), p.rest)
  }

  function ParseChain(toks: seq<string>): (r: Result<Parsed>)
    ensures r.Ok? ==> |r.value.rest| < |toks|
    decreases |toks|, 3
  {
    match ParsePipe(toks)
    case Err(e) => Err(e)
    case Ok(p) => ChainLoop(p.node, p.rest)
  }

  function ParseTokens(toks: seq<string>): Result<Node> {
    if toks == [] then Ok(Command([], []))
    else
      match ParseChain(toks)
      case Err(e) => Err(e)
      case Ok(p) => if p.rest == [] then Ok(p.node) else Err("unexpected token")
  }

  /** `parse_command`. */
  function Parse(text: string): Result<Node> {
    match Tokens(text)
    case Err(e) => Err(e)
    case Ok(toks) => ParseTokens(toks)
  }
}
