/** Parsing what `canonical_command` prints (src/safety/command_guard.py). */
module ShellRoundTrip {
  import opened Common
  import opened ShellLexer
  import opened ShellParser
  import opened ShellPrinter
  import opened ShellTargets

  // ----------------------------------------------------- classes of tokens

  lemma OperatorKinds(t: string)
    ensures IsOperator(t) <==> IsRedirOp(t) || EndsSimple(t)
  {
    if IsOperator(t) {
      assert |t| <= 3;
      assert |t| == 1 ==> t == [t[0]];
      assert |t| == 2 ==> t == [t[0], t[1]];
      assert |t| == 3 ==> t == [t[0], t[1], t[2]];
    }
  }

  // -------------------------------------------- tokens of the printed text

  /** What the printer needs of a tree; every parsed tree has it. */
  predicate Shaped(n: Node) {
    match n
    case Command(argv, env) => argv != [] || env != []
    case Chain(l, r, sep) => Shaped(l) && Shaped(r) && IsSep(sep)
    case Pipe(l, r) => Shaped(l) && Shaped(r)
    case Redir(c, target, op) =>
      IsRedirOp(op) && TargetOk(target) && (Shaped(c) || c == Command([], []))
    case Subshell(c) => Shaped(c)
  }

  lemma {:induction false} FactorIsShaped(n: Node)
    requires FactorOk(n)
    ensures Shaped(n)
    decreases n, 0
  {
    match n
    case Command(_, _) =>
    case Redir(c, _, _) => if FactorOk(c) { FactorIsShaped(c); }
    case Subshell(c) => ChainIsShaped(c);
  }

  lemma {:induction false} PipeIsShaped(n: Node)
    requires PipeOk(n)
    ensures Shaped(n)
    decreases n, 1
  {
    if n.Pipe? {
      PipeIsShaped(n.left);
      FactorIsShaped(n.right);
    } else {
      FactorIsShaped(n);
    }
  }

  lemma {:induction false} ChainIsShaped(n: Node)
    requires ChainOk(n)
    ensures Shaped(n)
    decreases n, 2
  {
    if n.Chain? {
      ChainIsShaped(n.left);
      PipeIsShaped(n.right);
    } else {
      PipeIsShaped(n);
    }
  }

  lemma FirmConcat(a: string, b: string, c: string)
    requires Firm(a) && Firm(c)
    ensures Firm(a + b + c)
  {
  }

  lemma {:induction false} JoinedIsFirm(words: seq<string>)
    requires words != []
    ensures Firm(JoinSpaced(QuoteAll(words)))
    decreases |words|
  {
    QuoteIsSolid(words[0]);
    var quoted := QuoteAll(words);
    assert quoted[1..] == QuoteAll(words[1..]);
    if |words| > 1 {
      JoinedIsFirm(words[1..]);
      FirmConcat(quoted[0], " ", JoinSpaced(quoted[1..]));
    }
  }

  lemma SepIsFirm(t: string)
    requires IsInfix(t)
    ensures Firm(t) && IsOperator(t)
  {
  }

  /** The printed pieces, with the stripping resolved. */
  function Plain(n: Node): string {
    match n
    case Command(_, _) => Print(n)
    case Chain(l, r, sep) => Print(l) + (" " + sep + " ") + Print(r)
    case Pipe(l, r) => Print(l) + (" " + "|" + " ") + Print(r)
    case Redir(c, target, op) =>
      if c == Command([], []) then op + " " + Core(target) else Print(c) + (" " + op + " ") + Core(target)
    case Subshell(c) => "(" + Print(c) + ")"
  }

  lemma StripAround(a: string, mid: string, b: string)
    requires Firm(a) && Firm(b)
    ensures Strip(a + " " + mid + " " + b) == a + (" " + mid + " ") + b
    ensures Firm(a + (" " + mid + " ") + b)
  {
    FirmConcat(a, " " + mid + " ", b);
    StripFirm(a + (" " + mid + " ") + b);
    assert a + " " + mid + " " + b == a + (" " + mid + " ") + b;
  }

  lemma CommandIsFirm(n: Node)
    requires n.Command? && Shaped(n)
    ensures WordsOf(n) != [] && Firm(Print(n))
  {
    if n.env != [] { assert EnvWords(n.env) != []; }
    JoinedIsFirm(WordsOf(n));
  }

  lemma PipeText(l: string, r: string)
    ensures l + " | " + r == l + " " + "|" + " " + r
  {
  }

  lemma {:induction false} PrintIsPlain(n: Node)
    requires Shaped(n)
    ensures Firm(Print(n)) && Print(n) == Plain(n)
    decreases n
  {
    match n
    case Command(argv, env) => CommandIsFirm(n);
    case Chain(l, r, sep) =>
      PrintIsPlain(l);
      PrintIsPlain(r);
      StripAround(Print(l), sep, Print(r));
    case Pipe(l, r) =>
      PrintIsPlain(l);
      PrintIsPlain(r);
      PipeText(Print(l), Print(r));
      StripAround(Print(l), "|", Print(r));
    case Redir(c, target, op) =>
      if c != Command([], []) { PrintIsPlain(c); }
      RedirIsPlain(n);
    case Subshell(c) =>
      PrintIsPlain(c);
      FirmConcat("(", Print(c), ")");
  }

  lemma StripBare(op: string, target: string)
    requires Firm(op) && TargetOk(target)
    ensures Strip("" + " " + op + " " + target) == op + " " + Core(target) && Firm(op + " " + Core(target))
  {
    assert "" + " " + op + " " + target == " " + (op + " " + target);
    assert (" " + (op + " " + target))[1..] == op + " " + target;
    StripTail(op + " ", target);
    assert StripLeft(op + " " + target) == op + " " + target;
  }

  lemma StripFull(a: string, op: string, target: string)
    requires Firm(a) && TargetOk(target)
    ensures Strip(a + " " + op + " " + target) == a + (" " + op + " ") + Core(target)
    ensures Firm(a + (" " + op + " ") + Core(target))
  {
    StripTail(a + (" " + op + " "), target);
    assert a + " " + op + " " + target == a + (" " + op + " ") + target;
  }

  lemma RedirIsPlain(n: Node)
    requires n.Redir? && Shaped(n) && (n.cmd == Command([], []) || Firm(Print(n.cmd)))
    ensures Firm(Print(n)) && Print(n) == Plain(n)
  {
    SepIsFirm(n.op);
    if n.cmd == Command([], []) {
      assert WordsOf(n.cmd) == [] && Print(n.cmd) == "";
      StripBare(n.op, n.target);
    } else {
      StripFull(Print(n.cmd), n.op, n.target);
    }
  }

  /** Stripping a text that ends in a target strips the target. */
  lemma StripTail(a: string, target: string)
    requires a != "" && !IsSpace(a[0]) && TargetOk(target)
    ensures Strip(a + target) == a + Core(target) && Firm(a + Core(target))
  {
    CoreOf(target);
    assert StripLeft(a + target) == a + target;
    StripRightTail(a, target);
  }

  // ------------------------------------------------- scanning it again

  lemma SkipSpace(t: string)
    ensures Tokens(" " + t) == Tokens(t)
  {
    assert (" " + t)[1..] == t;
  }

  lemma AfterAfter(a: seq<string>, b: seq<string>, r: Result<seq<string>>)
    ensures ShellLexer.After(a, ShellLexer.After(b, r)) == ShellLexer.After(a + b, r)
    ensures ShellLexer.After([], r) == r
  {
    if r.Ok? { assert a + (b + r.value) == (a + b) + r.value; assert [] + r.value == r.value; }
  }

  lemma BeforeIsAfter(tok: string, r: Result<seq<string>>)
    ensures Before(tok, r) == ShellLexer.After([tok], r)
  {
  }

  /** An operator between blanks. */
  lemma ScanInfix(op: string, t: string)
    requires IsInfix(op)
    ensures Tokens(" " + op + " " + t) == ShellLexer.After([op], Tokens(t))
    ensures Tokens(op + " " + t) == ShellLexer.After([op], Tokens(t))
  {
    SepIsFirm(op);
    OperatorLeads(op, " " + t);
    assert op + (" " + t) == op + " " + t;
    SkipSpace(t);
    SkipSpace(op + " " + t);
    assert " " + (op + " " + t) == " " + op + " " + t;
  }

  lemma ScanCons(w: string, tail: string, toks: seq<string>, rest: string)
    requires Solid(w) && Tokens(tail + rest) == ShellLexer.After(toks, Tokens(rest))
    ensures Tokens(w + " " + tail + rest) == ShellLexer.After([w] + toks, Tokens(rest))
  {
    SolidLeads(w, " " + (tail + rest));
    SkipSpace(tail + rest);
    BeforeIsAfter(w, Tokens(tail + rest));
    AfterAfter([w], toks, Tokens(rest));
    assert w + " " + tail + rest == w + (" " + (tail + rest));
  }

  lemma {:induction false} ScanWords(words: seq<string>, rest: string)
    requires words != [] && Boundary(rest)
    ensures Tokens(JoinSpaced(QuoteAll(words)) + rest) == ShellLexer.After(QuoteAll(words), Tokens(rest))
    decreases |words|
  {
    var first, others := Quote(words[0]), QuoteAll(words[1..]);
    QuoteIsSolid(words[0]);
    assert QuoteAll(words) == [first] + others;
    if |words| == 1 {
      SolidLeads(first, rest);
      BeforeIsAfter(first, Tokens(rest));
      assert [first] + others == [first];
    } else {
      ScanWords(words[1..], rest);
      ScanCons(first, JoinSpaced(others), others, rest);
      JoinedCons(first, others);
    }
  }

  lemma JoinedCons(first: string, others: seq<string>)
    requires others != []
    ensures JoinSpaced([first] + others) == first + " " + JoinSpaced(others)
  {
    assert ([first] + others)[1..] == others;
  }

  // ------------------------------------------------- tokens, targets and all

  /** The text of `n` ends in an open escape. */
  predicate Hanging(n: Node) {
    match n
    case Chain(_, r, _) => Hanging(r)
    case Pipe(_, r) => Hanging(r)
    case Redir(_, target, _) => Hangs(target)
    case _ => false
  }

  /** The token that a printed target becomes in front of an operator, a closing
      parenthesis, or the end. */
  function Seen(target: string, next: string): string {
    if !Hangs(target) then Core(target)
    else if next == ")" then Core(target) + ")"
    else if next != "" && next[0] == '2' then Core(target) + " 2"
    else Core(target) + " "
  }

  /** The operator that is left when a hanging target before it has eaten. */
  function OpAfter(n: Node, op: string): string {
    if Hanging(n) && op != "" && op[0] == '2' then op[1..] else op
  }

  /** The tokens of the printed text when `next` follows it. */
  function Toks(n: Node, next: string): seq<string> {
    match n
    case Command(_, _) => QuoteAll(WordsOf(n))
    case Chain(l, r, sep) => Toks(l, sep) + [sep] + Toks(r, next)
    case Pipe(l, r) => Toks(l, "|") + ["|"] + Toks(r, next)
    case Redir(c, target, op) => Toks(c, op) + [OpAfter(c, op)] + [Seen(target, next)]
    case Subshell(c) => ["("] + Toks(c, ")") + (if Hanging(c) then [] else [")"])
  }

  /** How much of what follows an open escape takes: a parenthesis, a blank, or a blank
      and a digit. */
  function Eaten(hanging: bool, next: string): nat {
    if !hanging then 0 else if next != "" && next[0] == '2' then 2 else 1
  }

  predicate Context(next: string, rest: string) {
    if next == "" then rest == ""
    else if next == ")" then rest != "" && rest[0] == ')' && Boundary(rest[1..])
    else IsInfix(next) && |rest| >= |next| + 2 && rest == " " + next + " " + rest[|next| + 2..]
  }

  lemma ContextBounds(next: string, rest: string)
    requires Context(next, rest)
    ensures Boundary(rest) && rest[0..] == rest && (next != "" ==> |rest| >= Eaten(true, next))
  {
  }

  predicate Scans(text: string, hanging: bool, toks: seq<string>, next: string, rest: string)
    requires Context(next, rest)
  {
    ContextBounds(next, rest);
    if hanging && next == "" then Tokens(text + rest).Err?
    else Tokens(text + rest) == ShellLexer.After(toks, Tokens(rest[Eaten(hanging, next)..]))
  }

  lemma ScanTarget(target: string, next: string, rest: string)
    requires TargetOk(target) && Context(next, rest)
    ensures Scans(Core(target), Hangs(target), [Seen(target, next)], next, rest)
  {
    ContextBounds(next, rest);
    var core := Core(target);
    if !Hangs(target) {
      CoreIsTarget(target);
      SolidLeads(core, rest);
      BeforeIsAfter(core, Tokens(rest));
    } else if next == "" {
      HangEnd(target);
      assert core + rest == core;
    } else if next == ")" {
      assert rest == ")" + rest[1..];
      HangParen(target, rest[1..]);
      BeforeIsAfter(core + ")", Tokens(rest[1..]));
    } else {
      ScanHanging(target, next, rest);
    }
  }

  lemma InfixCut(op: string, more: string)
    requires op != ""
    ensures var rest := " " + op + " " + more;
            rest[0..] == rest && rest[1..] == op + " " + more && rest[2..] == op[1..] + " " + more && rest[|op| + 2..] == more
  {
  }

  lemma ScanHanging(target: string, op: string, rest: string)
    requires TargetOk(target) && Hangs(target) && IsInfix(op) && Context(op, rest)
    ensures Scans(Core(target), true, [Seen(target, op)], op, rest)
  {
    var more := rest[|op| + 2..];
    HangInfix(target, op, more);
    InfixCut(op, more);
    BeforeIsAfter(Seen(target, op), Tokens(rest[Eaten(true, op)..]));
  }

  lemma InfixContext(op: string, more: string)
    requires IsInfix(op)
    ensures Context(op, " " + op + " " + more)
  {
    InfixCut(op, more);
  }

  /** What is left of the operator and the rest once an open escape has eaten. */
  lemma ScanEaten(hanging: bool, op: string, more: string)
    requires IsInfix(op)
    ensures Tokens((" " + op + " " + more)[Eaten(hanging, op)..]) ==
            ShellLexer.After([if hanging && op[0] == '2' then op[1..] else op], Tokens(more))
  {
    InfixCut(op, more);
    if hanging && op[0] == '2' {
      InfixStops(op, more);
      ScanInfix(op[1..], more);
    } else {
      ScanInfix(op, more);
    }
  }

  /** A scanned piece, then an operator, then more. */
  lemma ScanLeft(text: string, hanging: bool, toks: seq<string>, op: string, more: string)
    requires IsInfix(op) && Context(op, " " + op + " " + more) && Scans(text, hanging, toks, op, " " + op + " " + more)
    ensures Tokens(text + (" " + op + " " + more)) ==
            ShellLexer.After(toks + [if hanging && op[0] == '2' then op[1..] else op], Tokens(more))
  {
    ScanEaten(hanging, op, more);
    AfterAfter(toks, [if hanging && op[0] == '2' then op[1..] else op], Tokens(more));
  }

  /** What comes after a scanned left side decides the whole. */
  lemma ScanRight(all: string, left: seq<string>, text: string, hanging: bool, toks: seq<string>, next: string, rest: string)
    requires Context(next, rest) && Scans(text, hanging, toks, next, rest)
    requires Tokens(all + rest) == ShellLexer.After(left, Tokens(text + rest))
    ensures Scans(all, hanging, left + toks, next, rest)
  {
    if !(hanging && next == "") {
      ContextBounds(next, rest);
      AfterAfter(left, toks, Tokens(rest[Eaten(hanging, next)..]));
    }
  }

  lemma Regrouped(a: string, op: string, b: string, rest: string)
    ensures a + (" " + op + " ") + b + rest == a + (" " + op + " " + (b + rest))
  {
  }

  predicate Lexes(n: Node, next: string, rest: string)
    requires Context(next, rest)
  {
    Scans(Print(n), Hanging(n), Toks(n, next), next, rest)
  }

  /** Two pieces joined by an operator. */
  lemma ScanJoined(n: Node, l: Node, op: string, text: string, hanging: bool, toks: seq<string>, next: string, rest: string)
    requires IsInfix(op) && Context(next, rest) && Print(n) == Print(l) + (" " + op + " ") + text
    requires Context(op, " " + op + " " + (text + rest)) && Lexes(l, op, " " + op + " " + (text + rest))
    requires Scans(text, hanging, toks, next, rest)
    ensures Scans(Print(n), hanging, Toks(l, op) + [OpAfter(l, op)] + toks, next, rest)
  {
    Regrouped(Print(l), op, text, rest);
    ScanLeft(Print(l), Hanging(l), Toks(l, op), op, text + rest);
    ScanRight(Print(n), Toks(l, op) + [OpAfter(l, op)], text, hanging, toks, next, rest);
  }

  lemma BareTokens(op: string, core: string, rest: string)
    requires IsInfix(op)
    ensures Tokens(op + " " + core + rest) == ShellLexer.After([op], Tokens(core + rest))
  {
    ScanInfix(op, core + rest);
    assert op + " " + core + rest == op + " " + (core + rest);
  }

  lemma BareToks(n: Node, next: string)
    requires n.Redir? && n.cmd == Command([], [])
    ensures Toks(n, next) == [n.op] + [Seen(n.target, next)]
  {
    assert WordsOf(n.cmd) == [] && Toks(n.cmd, n.op) == [];
    assert [] + [n.op] == [n.op];
  }

  lemma ScanBareRedir(n: Node, next: string, rest: string)
    requires n.Redir? && n.cmd == Command([], []) && Shaped(n) && Context(next, rest)
    requires Print(n) == n.op + " " + Core(n.target)
    ensures Lexes(n, next, rest)
  {
    ScanTarget(n.target, next, rest);
    BareTokens(n.op, Core(n.target), rest);
    BareToks(n, next);
    ScanRight(Print(n), [n.op], Core(n.target), Hangs(n.target), [Seen(n.target, next)], next, rest);
  }

  lemma ParenContext(next: string, rest: string)
    requires Context(next, rest)
    ensures Context(")", ")" + rest) && (")" + rest)[1..] == rest && (")" + rest)[0..] == ")" + rest
  {
    ContextBounds(next, rest);
    assert (")" + rest)[1..] == rest;
  }

  /** What a subshell's text scans to, closed or with its parenthesis eaten. */
  lemma ScanOpen(inner: string, ti: seq<string>, rest: string)
    requires Tokens(inner + (")" + rest)) == ShellLexer.After(ti, Tokens(rest))
    ensures Tokens("(" + inner + ")" + rest) == ShellLexer.After(["("] + ti, Tokens(rest))
  {
    OperatorLeads("(", inner + (")" + rest));
    assert "(" + inner + ")" + rest == "(" + (inner + (")" + rest));
    BeforeIsAfter("(", Tokens(inner + (")" + rest)));
    AfterAfter(["("], ti, Tokens(rest));
  }

  lemma ScanClosed(inner: string, ti: seq<string>, rest: string)
    requires Boundary(rest) && Tokens(inner + (")" + rest)) == ShellLexer.After(ti, Tokens(")" + rest))
    ensures Tokens(inner + (")" + rest)) == ShellLexer.After(ti + [")"], Tokens(rest))
  {
    OperatorLeads(")", rest);
    BeforeIsAfter(")", Tokens(rest));
    AfterAfter(ti, [")"], Tokens(rest));
  }

  lemma ScanParens(n: Node, next: string, rest: string)
    requires n.Subshell? && Context(next, rest) && Context(")", ")" + rest) && Lexes(n.cmd, ")", ")" + rest)
    ensures Lexes(n, next, rest)
  {
    ParenContext(next, rest);
    ContextBounds(next, rest);
    var inner, ti := Print(n.cmd), Toks(n.cmd, ")");
    if Hanging(n.cmd) {
      ScanOpen(inner, ti, rest);
      assert ["("] + ti + [] == ["("] + ti;
    } else {
      ScanClosed(inner, ti, rest);
      ScanOpen(inner, ti + [")"], rest);
      assert ["("] + (ti + [")"]) == ["("] + ti + [")"];
    }
  }

  /** The printed text, in front of whatever may follow it, scans to its tokens. */
  lemma {:induction false} ScanPrinted(n: Node, next: string, rest: string)
    requires Shaped(n) && Context(next, rest)
    ensures Lexes(n, next, rest)
    decreases n
  {
    PrintIsPlain(n);
    match n
    case Command(argv, env) =>
      CommandIsFirm(n);
      ContextBounds(next, rest);
      ScanWords(WordsOf(n), rest);
    case Chain(l, r, sep) =>
      ScanPrinted(r, next, rest);
      InfixContext(sep, Print(r) + rest);
      ScanPrinted(l, sep, " " + sep + " " + (Print(r) + rest));
      ScanJoined(n, l, sep, Print(r), Hanging(r), Toks(r, next), next, rest);
      SepHasNoDigit(sep);
    case Pipe(l, r) =>
      ScanPrinted(r, next, rest);
      InfixContext("|", Print(r) + rest);
      ScanPrinted(l, "|", " " + "|" + " " + (Print(r) + rest));
      ScanJoined(n, l, "|", Print(r), Hanging(r), Toks(r, next), next, rest);
    case Redir(c, target, op) =>
      if c == Command([], []) {
        ScanBareRedir(n, next, rest);
      } else {
        ScanTarget(target, next, rest);
        InfixContext(op, Core(target) + rest);
        ScanPrinted(c, op, " " + op + " " + (Core(target) + rest));
        ScanJoined(n, c, op, Core(target), Hangs(target), [Seen(target, next)], next, rest);
      }
    case Subshell(c) =>
      ParenContext(next, rest);
      ScanPrinted(c, ")", ")" + rest);
      ScanParens(n, next, rest);
  }

  lemma SepHasNoDigit(sep: string)
    requires IsSep(sep)
    ensures sep[0] != '2'
  {
  }
}
