/** `canonical_command` of src/safety/command_guard.py, and exactly when parsing
    its output gives back the tree. */
module ShellPrinter {
  import opened Common
  import opened ShellLexer
  import opened ShellParser

  // ------------------------------------------------------- shlex.quote/join

  /** The characters `shlex.quote` leaves alone. */
  predicate IsSafeChar(c: char) {
    || 'a' <= c <= 'z' || 'A' <= c <= 'Z' || '0' <= c <= '9'
    || c == '_' || c == '@' || c == '%' || c == '+' || c == '=' || c == ':' || c == ',' || c == '.' || c == '/' || c == '-'
  }

  predicate IsSafe(w: string) { w != "" && forall i :: 0 <= i < |w| ==> IsSafeChar(w[i]) }

  /** The inside of a single-quoted word: each quote becomes `'"'"'`. */
  function Escaped(w: string): string {
    if w == "" then "" else (if w[0] == '\'' then ['\'', '"', '\'', '"', '\''] else [w[0]]) + Escaped(w[1..])
  }

  function Quote(w: string): string { if IsSafe(w) then w else "'" + Escaped(w) + "'" }

  function QuoteAll(words: seq<string>): seq<string> {
    if words == [] then [] else [Quote(words[0])] + QuoteAll(words[1..])
  }

  // --------------------------------------------------------------- printer

  function EnvWords(env: seq<(string, string)>): seq<string> {
    if env == [] then [] else [env[0].0 + "=" + env[0].1] + EnvWords(env[1..])
  }

  function WordsOf(n: Node): seq<string>
    requires n.Command?
  {
    EnvWords(n.env) + n.argv
  }

  /** `canonical_command`. */
  function Print(n: Node): string {
    match n
    case Command(_, _) => JoinSpaced(QuoteAll(WordsOf(n)))
    case Chain(l, r, sep) => Strip(Print(l) + " " + sep + " " + Print(r))
    case Pipe(l, r) => Strip(Print(l) + " | " + Print(r))
    case Redir(c, target, op) => Strip(Print(c) + " " + op + " " + target)
    case Subshell(c) => "(" + Print(c) + ")"
  }

  /** The tokens of the printed text. */
  function PrintedTokens(n: Node): seq<string> {
    match n
    case Command(_, _) => QuoteAll(WordsOf(n))
    case Chain(l, r, sep) => PrintedTokens(l) + [sep] + PrintedTokens(r)
    case Pipe(l, r) => PrintedTokens(l) + ["|"] + PrintedTokens(r)
    case Redir(c, target, op) => PrintedTokens(c) + [op, target]
    case Subshell(c) => ["("] + PrintedTokens(c) + [")"]
  }

  /** The tree those tokens parse to: every leaf rebuilt from its quoted words. */
  function Reread(n: Node): Node {
    match n
    case Command(_, _) => SplitEnv([], QuoteAll(WordsOf(n)))
    case Chain(l, r, sep) => Chain(Reread(l), Reread(r), sep)
    case Pipe(l, r) => Pipe(Reread(l), Reread(r))
    case Redir(c, target, op) => Redir(Reread(c), target, op)
    case Subshell(c) => Subshell(Reread(c))
  }

  predicate AllSafe(words: seq<string>) { forall i :: 0 <= i < |words| ==> IsSafe(words[i]) }

  /** No argument and no assignment needs quoting. */
  predicate PlainWords(n: Node) {
    match n
    case Command(_, _) => AllSafe(WordsOf(n))
    case Chain(l, r, _) => PlainWords(l) && PlainWords(r)
    case Pipe(l, r) => PlainWords(l) && PlainWords(r)
    case Redir(c, _, _) => PlainWords(c)
    case Subshell(c) => PlainWords(c)
  }

  // ------------------------------------------- the trees the parser can build

  predicate DistinctKeys(env: seq<(string, string)>) {
    forall i, j :: 0 <= i < j < |env| ==> env[i].0 != env[j].0
  }

  predicate Assigned(env: seq<(string, string)>) {
    forall i :: 0 <= i < |env| ==> '=' !in env[i].0 && IsAssign(env[i].0 + "=" + env[i].1)
  }

  predicate LeafOk(n: Node)
    requires n.Command?
  {
    && DistinctKeys(n.env) && Assigned(n.env)
    && (n.argv != [] ==> !IsAssign(n.argv[0]))
    && (forall i :: 0 <= i < |n.argv| ==> n.argv[i] != "")
  }

  predicate TargetOk(t: string) { Solid(t) && !IsOperator(t) && Strip(t) != "" }

  predicate FactorOk(n: Node)
    decreases n, 0
  {
    match n
    case Command(argv, env) => (argv != [] || env != []) && LeafOk(n)
    case Redir(c, target, op) =>
      IsRedirOp(op) && TargetOk(target) && (FactorOk(c) || c == Command([], []))
    case Subshell(c) => ChainOk(c)
    case _ => false
  }

  predicate PipeOk(n: Node)
    decreases n, 1
  {
    match n
    case Pipe(l, r) => PipeOk(l) && HasCommand(l) && FactorOk(r)
    case _ => FactorOk(n)
  }

  predicate ChainOk(n: Node)
    decreases n, 2
  {
    match n
    case Chain(l, r, sep) => ChainOk(l) && HasCommand(l) && PipeOk(r) && IsSep(sep)
    case _ => PipeOk(n)
  }

  // ------------------------------------------------- quoted words are words

  lemma SafeTurn(w: string, first: bool)
    requires w != "" && IsSafeChar(w[0]) && (|w| > 1 ==> IsSafeChar(w[1]))
    ensures TurnAt(w, first, None, false) == Go(1, None, false)
  {
  }

  lemma {:induction false} SafeGlides(w: string, first: bool)
    requires forall i :: 0 <= i < |w| ==> IsSafeChar(w[i])
    ensures WordLen(w, first, None, false) == Ok(|w|)
    decreases |w|
  {
    if w != "" {
      var c, t := w[0], w[1..];
      assert w == [c] + t;
      SafeTurn(w, first);
      forall i | 0 <= i < |t| ensures IsSafeChar(t[i]) { assert t[i] == w[i + 1]; }
      SafeGlides(t, false);
      OneChar(c, t, first, None, None, |t|);
    }
  }

  /** Taking one character in a known state. */
  lemma OneChar(c: char, t: string, first: bool, quote: Option<char>, quote': Option<char>, n: nat)
    requires TurnAt([c] + t, first, quote, false) == Go(1, quote', false)
    requires WordLen(t, false, quote', false) == Ok(n)
    ensures WordLen([c] + t, first, quote, false) == Ok(n + 1)
  {
    assert ([c] + t)[1..] == t;
  }

  lemma OpenSingle(t: string, n: nat)
    requires WordLen(t, false, Some('\''), false) == Ok(n)
    ensures WordLen(['\''] + t, false, None, false) == Ok(n + 1)
  {
    OneChar('\'', t, false, None, Some('\''), n);
  }

  lemma CloseDouble(t: string, n: nat)
    requires WordLen(t, false, None, false) == Ok(n)
    ensures WordLen(['"'] + t, false, Some('"'), false) == Ok(n + 1)
  {
    OneChar('"', t, false, Some('"'), None, n);
  }

  lemma KeepDouble(t: string, n: nat)
    requires WordLen(t, false, Some('"'), false) == Ok(n)
    ensures WordLen(['\''] + t, false, Some('"'), false) == Ok(n + 1)
  {
    OneChar('\'', t, false, Some('"'), Some('"'), n);
  }

  lemma OpenDouble(t: string, n: nat)
    requires WordLen(t, false, Some('"'), false) == Ok(n)
    ensures WordLen(['"'] + t, false, None, false) == Ok(n + 1)
  {
    OneChar('"', t, false, None, Some('"'), n);
  }

  lemma CloseSingle(t: string, n: nat)
    requires WordLen(t, false, None, false) == Ok(n)
    ensures WordLen(['\''] + t, false, Some('\''), false) == Ok(n + 1)
  {
    OneChar('\'', t, false, Some('\''), None, n);
  }

  function QuotedQuote(tail: string): string {
    ['\''] + (['"'] + (['\''] + (['"'] + (['\''] + tail))))
  }

  /** Leaving single quotes, a quoted quote, and entering single quotes again. */
  lemma QuotedQuoteGlides(tail: string, n: nat)
    requires WordLen(tail, false, Some('\''), false) == Ok(n)
    ensures WordLen(QuotedQuote(tail), false, Some('\''), false) == Ok(n + 5)
  {
    OpenSingle(tail, n);
    CloseDouble(['\''] + tail, n + 1);
    KeepDouble(['"'] + (['\''] + tail), n + 2);
    OpenDouble(['\''] + (['"'] + (['\''] + tail)), n + 3);
    CloseSingle(['"'] + (['\''] + (['"'] + (['\''] + tail))), n + 4);
  }

  lemma KeepSingle(c: char, t: string, n: nat)
    requires c != '\'' && WordLen(t, false, Some('\''), false) == Ok(n)
    ensures WordLen([c] + t, false, Some('\''), false) == Ok(n + 1)
  {
    OneChar(c, t, false, Some('\''), Some('\''), n);
  }

  lemma LastQuote()
    ensures WordLen("'", false, Some('\''), false) == Ok(1)
  {
    assert WordLen("", false, None, false) == Ok(0);
    CloseSingle("", 0);
    assert ['\''] + "" == "'";
  }

  lemma EscapedCons(w: string)
    requires w != ""
    ensures Escaped(w) + "'" == if w[0] == '\'' then QuotedQuote(Escaped(w[1..]) + "'") else [w[0]] + (Escaped(w[1..]) + "'")
  {
    var head := if w[0] == '\'' then ['\'', '"', '\'', '"', '\''] else [w[0]];
    ThreeParts(head, Escaped(w[1..]), "'");
    if w[0] == '\'' { FiveChars(Escaped(w[1..]) + "'"); }
  }

  lemma ThreeParts(a: string, b: string, c: string)
    ensures (a + b) + c == a + (b + c)
  {
  }

  lemma FiveChars(tail: string)
    ensures ['\'', '"', '\'', '"', '\''] + tail == QuotedQuote(tail)
  {
  }

  lemma {:induction false} EscapedGlides(w: string)
    ensures WordLen(Escaped(w) + "'", false, Some('\''), false) == Ok(|Escaped(w)| + 1)
    decreases |w|
  {
    if w == "" {
      LastQuote();
      assert Escaped(w) + "'" == "'";
    } else {
      var tail := Escaped(w[1..]) + "'";
      EscapedGlides(w[1..]);
      EscapedCons(w);
      if w[0] == '\'' {
        QuotedQuoteGlides(tail, |tail|);
      } else {
        KeepSingle(w[0], tail, |tail|);
      }
    }
  }

  lemma QuoteIsSolid(w: string)
    ensures Solid(Quote(w)) && !IsOperator(Quote(w)) && Firm(Quote(w))
  {
    var t := Quote(w);
    if IsSafe(w) {
      SafeGlides(w, true);
    } else {
      EscapedGlides(w);
      var tail := Escaped(w) + "'";
      assert t == ['\''] + tail;
      OneChar('\'', tail, true, None, Some('\''), |tail|);
    }
  }

  /** Neither empty nor with white space at an end. */
  predicate Firm(s: string) { s != "" && !IsSpace(s[0]) && !IsSpace(s[|s| - 1]) }

  lemma StripFirm(s: string)
    requires Firm(s)
    ensures Strip(s) == s && Strip(" " + s) == s
  {
    assert (" " + s)[1..] == s;
  }

  /** Quoting is the identity exactly on safe words. */
  lemma QuoteChanges(w: string)
    ensures Quote(w) == w <==> IsSafe(w)
    ensures !IsSafe(w) ==> !IsAssign(Quote(w))
  {
    if !IsSafe(w) {
      EscapedGrows(w);
      var t := Quote(w);
      assert t[0] == '\'';
      var key := t[..IndexOf(t, '=')];
      assert key != "" ==> key[0] == t[0];
    }
  }

  lemma {:induction false} EscapedGrows(w: string)
    ensures |Escaped(w)| >= |w|
  {
    if w != "" { EscapedGrows(w[1..]); }
  }
}
