/** The language of `parse_command` (src/safety/command_guard.py) as a grammar over
    tokens.  The parser accepts exactly the sentences of the grammar, and builds their
    trees. */
module ShellSyntax {
  import opened Common
  import opened ShellLexer
  import opened ShellParser
  import opened ShellRoundTrip
  import opened ShellGrammar

  // ---------------------------------------------------------------- phrases

  datatype Item = Word(w: string) | Into(op: string, target: string)

  datatype Factor = Basic(items: seq<Item>) | Group(inner: Sequence, redirs: seq<Item>)

  datatype Pipeline = Alone(only: Factor) | Piped(left: Pipeline, right: Factor)

  datatype Sequence = Just(pipeline: Pipeline) | Then(before: Sequence, sep: string, after: Pipeline)

  function ItemToks(it: Item): (toks: seq<string>)
    ensures toks != []
  {
    if it.Word? then [it.w] else [it.op, it.target]
  }

  function ItemsToks(items: seq<Item>): seq<string> {
    if items == [] then [] else ItemToks(items[0]) + ItemsToks(items[1..])
  }

  function FactorToks(f: Factor): seq<string> {
    match f
    case Basic(items) => ItemsToks(items)
    case Group(inner, redirs) => ["("] + (SequenceToks(inner) + ([")"] + ItemsToks(redirs)))
  }

  function PipelineToks(p: Pipeline): seq<string> {
    match p
    case Alone(f) => FactorToks(f)
    case Piped(l, f) => PipelineToks(l) + (["|"] + FactorToks(f))
  }

  function SequenceToks(s: Sequence): seq<string> {
    match s
    case Just(p) => PipelineToks(p)
    case Then(l, sep, p) => SequenceToks(l) + ([sep] + PipelineToks(p))
  }

  // ------------------------------------------------------------------ trees

  function Words(items: seq<Item>): seq<string> {
    if items == [] then [] else (if items[0].Word? then [items[0].w] else []) + Words(items[1..])
  }

  /** The redirections in order, the first one innermost. */
  function Wrapped(n: Node, items: seq<Item>): Node
    decreases |items|
  {
    if items == [] then n
    else Wrapped(if items[0].Into? then Redir(n, items[0].target, items[0].op) else n, items[1..])
  }

  function FactorTree(f: Factor): Node {
    match f
    case Basic(items) => Wrapped(SplitEnv([], Words(items)), items)
    case Group(inner, redirs) => Wrapped(Subshell(SequenceTree(inner)), redirs)
  }

  function PipelineTree(p: Pipeline): Node {
    match p
    case Alone(f) => FactorTree(f)
    case Piped(l, f) => Pipe(PipelineTree(l), FactorTree(f))
  }

  function SequenceTree(s: Sequence): Node {
    match s
    case Just(p) => PipelineTree(p)
    case Then(l, sep, p) => Chain(SequenceTree(l), PipelineTree(p), sep)
  }

  // -------------------------------------------------------------- sentences

  predicate RedirSign(op: string) {
    op == ">>" || op == "<<" || op == "2>>" || op == "2>" || op == "&>" || op == ">" || op == "<"
  }

  predicate Separator(t: string) { t == ";" || t == "&&" || t == "||" }

  predicate ItemOk(it: Item) {
    match it
    case Word(w) => !Listed(w)
    case Into(op, target) => RedirSign(op) && !Listed(target) && Strip(target) != ""
  }

  predicate ItemsOk(items: seq<Item>) { forall i :: 0 <= i < |items| ==> ItemOk(items[i]) }

  predicate AllInto(items: seq<Item>) { forall i :: 0 <= i < |items| ==> items[i].Into? }

  predicate FactorFine(f: Factor) {
    match f
    case Basic(items) => items != [] && ItemsOk(items)
    case Group(inner, redirs) => SequenceFine(inner) && ItemsOk(redirs) && AllInto(redirs)
  }

  /** Some command of the phrase has a word. */
  predicate FactorSpeaks(f: Factor) {
    match f
    case Basic(items) => exists i :: 0 <= i < |items| && items[i].Word?
    case Group(inner, _) => SequenceSpeaks(inner)
  }

  predicate PipelineSpeaks(p: Pipeline) {
    match p
    case Alone(f) => FactorSpeaks(f)
    case Piped(l, f) => PipelineSpeaks(l) || FactorSpeaks(f)
  }

  predicate SequenceSpeaks(s: Sequence) {
    match s
    case Just(p) => PipelineSpeaks(p)
    case Then(l, _, p) => SequenceSpeaks(l) || PipelineSpeaks(p)
  }

  /** What may stand before an operator: one factor, or several of which one has a word. */
  predicate PipelineFine(p: Pipeline) {
    match p
    case Alone(f) => FactorFine(f)
    case Piped(l, f) => PipelineFine(l) && (l.Alone? || PipelineSpeaks(l)) && FactorFine(f)
  }

  predicate SequenceFine(s: Sequence) {
    match s
    case Just(p) => PipelineFine(p)
    case Then(l, sep, p) =>
      && SequenceFine(l) && Separator(sep) && PipelineFine(p)
      && ((l.Just? && l.pipeline.Alone?) || SequenceSpeaks(l))
  }

  // --------------------------------------------------- what the phrases say

  lemma OperatorsListed(t: string)
    ensures IsOperator(t) <==> Listed(t)
    ensures Listed(t) <==> RedirSign(t) || Separator(t) || t == "|" || t == "(" || t == ")"
  {
    OperatorKinds(t);
  }

  lemma {:induction false} SplitSpeaks(env: seq<(string, string)>, words: seq<string>)
    ensures HasWords(SplitEnv(env, words)) <==> env != [] || words != []
    ensures SplitEnv(env, words).Command?
    decreases |words|
  {
    if words != [] && IsAssign(words[0]) {
      var i := ShellParser.IndexOf(words[0], '=');
      SplitSpeaks(Put(env, words[0][..i], words[0][i + 1..]), words[1..]);
    }
  }

  lemma {:induction false} WrappedSpeaks(n: Node, items: seq<Item>)
    ensures HasWords(Wrapped(n, items)) <==> HasWords(n)
    ensures n.Redir? ==> Wrapped(n, items).Redir?
    ensures (exists i :: 0 <= i < |items| && items[i].Into?) ==> Wrapped(n, items).Redir?
    ensures AllInto(items) && n.Subshell? ==> Wrapped(n, items).Redir? || Wrapped(n, items).Subshell?
    decreases |items|
  {
    if items != [] {
      var next := if items[0].Into? then Redir(n, items[0].target, items[0].op) else n;
      WrappedSpeaks(next, items[1..]);
      assert forall i :: 1 <= i < |items| ==> items[i] == items[1..][i - 1];
      assert forall i :: 0 <= i < |items[1..]| ==> items[1..][i] == items[i + 1];
    }
  }

  lemma {:induction false} WordsSpeak(items: seq<Item>)
    ensures Words(items) != [] <==> exists i :: 0 <= i < |items| && items[i].Word?
  {
    if items != [] {
      WordsSpeak(items[1..]);
      assert forall i :: 1 <= i < |items| ==> items[i] == items[1..][i - 1];
      assert forall i :: 0 <= i < |items[1..]| ==> items[1..][i] == items[i + 1];
    }
  }

  lemma {:induction false} FactorTells(f: Factor)
    requires FactorFine(f)
    ensures HasWords(FactorTree(f)) <==> FactorSpeaks(f)
    ensures HasCommand(FactorTree(f))
    decreases f, 0
  {
    match f
    case Basic(items) =>
      WordsSpeak(items);
      SplitSpeaks([], Words(items));
      WrappedSpeaks(SplitEnv([], Words(items)), items);
      assert items[0].Word? || items[0].Into?;
    case Group(inner, redirs) =>
      SequenceTells(inner);
      WrappedSpeaks(Subshell(SequenceTree(inner)), redirs);
  }

  lemma {:induction false} PipelineTells(p: Pipeline)
    requires PipelineFine(p)
    ensures HasWords(PipelineTree(p)) <==> PipelineSpeaks(p)
    ensures HasCommand(PipelineTree(p)) <==> p.Alone? || PipelineSpeaks(p)
    decreases p, 1
  {
    match p
    case Alone(f) => FactorTells(f);
    case Piped(l, f) =>
      PipelineTells(l);
      FactorTells(f);
  }

  lemma {:induction false} SequenceTells(s: Sequence)
    requires SequenceFine(s)
    ensures HasWords(SequenceTree(s)) <==> SequenceSpeaks(s)
    ensures HasCommand(SequenceTree(s)) <==> (s.Just? && s.pipeline.Alone?) || SequenceSpeaks(s)
    decreases s, 2
  {
    match s
    case Just(p) => PipelineTells(p);
    case Then(l, _, p) =>
      SequenceTells(l);
      PipelineTells(p);
  }

  // --------------------------------------------------- sentences parse

  lemma Regroup<T>(a: seq<T>, b: seq<T>, c: seq<T>)
    ensures (a + b) + c == a + (b + c)
  {
  }

  function Intos(items: seq<Item>): seq<(string, string)> {
    if items == [] then [] else (if items[0].Into? then [(items[0].op, items[0].target)] else []) + Intos(items[1..])
  }

  predicate Closes(rest: seq<string>) { rest == [] || EndsPipeEarly(rest[0]) }

  lemma WordTurn(words: seq<string>, redirs: seq<(string, string)>, w: string, rest: seq<string>)
    requires !Listed(w)
    ensures ReadSimple(words, redirs, [w] + rest) == ReadSimple(words + [w], redirs, rest)
  {
    OperatorsListed(w);
    assert ([w] + rest)[1..] == rest;
  }

  lemma IntoTurn(words: seq<string>, redirs: seq<(string, string)>, op: string, target: string, rest: seq<string>)
    requires RedirSign(op) && !Listed(target) && Strip(target) != ""
    ensures ReadSimple(words, redirs, [op, target] + rest) == ReadSimple(words, redirs + [(op, target)], rest)
  {
    OperatorsListed(target);
    var toks := [op, target] + rest;
    assert toks[0] == op && toks[1] == target && toks[2..] == rest;
  }

  lemma {:induction false} ItemsRead(words: seq<string>, redirs: seq<(string, string)>, items: seq<Item>, rest: seq<string>)
    requires ItemsOk(items) && Closes(rest)
    ensures ReadSimple(words, redirs, ItemsToks(items) + rest)
            == Ok(ShellParser.Simple(words + Words(items), redirs + Intos(items), rest))
    decreases |items|
  {
    if items == [] {
      assert [] + rest == rest && words + [] == words && redirs + [] == redirs;
    } else {
      var it, more := items[0], items[1..];
      assert forall i :: 0 <= i < |more| ==> more[i] == items[i + 1];
      assert ItemOk(it);
      Regroup(ItemToks(it), ItemsToks(more), rest);
      if it.Word? {
        WordTurn(words, redirs, it.w, ItemsToks(more) + rest);
        ItemsRead(words + [it.w], redirs, more, rest);
        Regroup(words, [it.w], Words(more));
        assert [] + Intos(more) == Intos(more);
      } else {
        IntoTurn(words, redirs, it.op, it.target, ItemsToks(more) + rest);
        ItemsRead(words, redirs + [(it.op, it.target)], more, rest);
        Regroup(redirs, [(it.op, it.target)], Intos(more));
        assert [] + Words(more) == Words(more);
      }
    }
  }

  lemma {:induction false} ApplyIs(n: Node, redirs: seq<(string, string)>, r: (string, string))
    ensures ApplyRedirs(n, [r] + redirs) == ApplyRedirs(Redir(n, r.1, r.0), redirs)
    decreases |redirs|
  {
    var all := [r] + redirs;
    if redirs == [] {
      assert all[..0] == [];
    } else {
      var k := |redirs| - 1;
      assert all[..|all| - 1] == [r] + redirs[..k];
      ApplyIs(n, redirs[..k], r);
    }
  }

  lemma {:induction false} WrappedIs(n: Node, items: seq<Item>)
    ensures ApplyRedirs(n, Intos(items)) == Wrapped(n, items)
    decreases |items|
  {
    if items != [] {
      var it, more := items[0], items[1..];
      if it.Into? {
        ApplyIs(n, Intos(more), (it.op, it.target));
        WrappedIs(Redir(n, it.target, it.op), more);
      } else {
        assert [] + Intos(more) == Intos(more);
        WrappedIs(n, more);
      }
    }
  }

  lemma RedirTurn(n: Node, op: string, target: string, rest: seq<string>)
    requires RedirSign(op) && !Listed(target) && Strip(target) != ""
    ensures ParseRedirs(n, [op, target] + rest) == ParseRedirs(Redir(n, target, op), rest)
  {
    OperatorsListed(target);
    var toks := [op, target] + rest;
    assert toks[0] == op && toks[1] == target && toks[2..] == rest;
  }

  lemma {:induction false} RedirsRead(n: Node, items: seq<Item>, rest: seq<string>)
    requires ItemsOk(items) && AllInto(items) && Closes(rest)
    ensures ParseRedirs(n, ItemsToks(items) + rest) == Ok(Parsed(Wrapped(n, items), rest))
    decreases |items|
  {
    if items == [] {
      assert [] + rest == rest;
    } else {
      var it, more := items[0], items[1..];
      assert forall i :: 0 <= i < |more| ==> more[i] == items[i + 1];
      assert ItemOk(it) && it.Into?;
      Regroup(ItemToks(it), ItemsToks(more), rest);
      RedirTurn(n, it.op, it.target, ItemsToks(more) + rest);
      RedirsRead(Redir(n, it.target, it.op), more, rest);
    }
  }

  /** No phrase starts with something that only ends one. */
  lemma {:induction false} FactorStarts(f: Factor)
    requires FactorFine(f)
    ensures FactorToks(f) != [] && !EndsPipeEarly(FactorToks(f)[0])
    ensures FactorToks(f)[0] == "(" <==> f.Group?
  {
    if f.Basic? {
      var it := f.items[0];
      assert ItemOk(it);
      assert FactorToks(f)[0] == if it.Word? then it.w else it.op;
    }
  }

  lemma {:induction false} PipelineStarts(p: Pipeline)
    requires PipelineFine(p)
    ensures PipelineToks(p) != [] && !EndsPipeEarly(PipelineToks(p)[0])
  {
    match p
    case Alone(f) => FactorStarts(f);
    case Piped(l, _) => PipelineStarts(l);
  }

  lemma {:induction false} SequenceStarts(s: Sequence)
    requires SequenceFine(s)
    ensures SequenceToks(s) != [] && !EndsPipeEarly(SequenceToks(s)[0])
  {
    match s
    case Just(p) => PipelineStarts(p);
    case Then(l, _, _) => SequenceStarts(l);
  }

  lemma SimpleParses(items: seq<Item>, rest: seq<string>)
    requires items != [] && ItemsOk(items) && Closes(rest)
    ensures ParseFactor(ItemsToks(items) + rest) == Ok(Parsed(FactorTree(Basic(items)), rest))
  {
    var f := Basic(items);
    FactorStarts(f);
    ItemsRead([], [], items, rest);
    assert [] + Words(items) == Words(items) && [] + Intos(items) == Intos(items);
    WrappedIs(SplitEnv([], Words(items)), items);
    SomeItem(items);
    assert (ItemsToks(items) + rest)[0] == FactorToks(f)[0];
  }

  lemma SomeItem(items: seq<Item>)
    requires items != []
    ensures Words(items) != [] || Intos(items) != []
  {
  }

  lemma GroupTurn(inner: seq<string>, node: Node, after: seq<string>)
    requires inner != [] && inner[0] != ")" && ParseChain(inner + ([")"] + after)) == Ok(Parsed(node, [")"] + after))
    ensures ParseFactor(["("] + (inner + ([")"] + after))) == ParseRedirs(Subshell(node), after)
  {
    var toks := ["("] + (inner + ([")"] + after));
    assert toks[1..] == inner + ([")"] + after);
    assert ([")"] + after)[1..] == after;
  }

  lemma GroupRegroups(inner: seq<string>, redirs: seq<string>, rest: seq<string>)
    ensures (["("] + (inner + ([")"] + redirs))) + rest == ["("] + (inner + ([")"] + (redirs + rest)))
  {
  }

  lemma {:induction false} FactorParses(f: Factor, rest: seq<string>)
    requires FactorFine(f) && Closes(rest)
    ensures ParseFactor(FactorToks(f) + rest) == Ok(Parsed(FactorTree(f), rest))
    decreases f, 0
  {
    match f
    case Basic(items) => SimpleParses(items, rest);
    case Group(inner, redirs) =>
      var after := ItemsToks(redirs) + rest;
      SequenceStarts(inner);
      SequenceParses(inner, [")"] + after);
      GroupTurn(SequenceToks(inner), SequenceTree(inner), after);
      RedirsRead(Subshell(SequenceTree(inner)), redirs, rest);
      GroupRegroups(SequenceToks(inner), ItemsToks(redirs), rest);
  }

  lemma PipeTurn(node: Node, right: seq<string>, tree: Node, rest: seq<string>)
    requires HasCommand(node) && right != [] && !EndsPipeEarly(right[0]) && ParseFactor(right + rest) == Ok(Parsed(tree, rest))
    ensures PipeLoop(node, (["|"] + right) + rest) == PipeLoop(Pipe(node, tree), rest)
  {
    Lead("|", right, rest);
    PipeStep(node, (["|"] + right) + rest, tree, rest);
  }

  lemma Lead(op: string, right: seq<string>, rest: seq<string>)
    requires right != []
    ensures var toks := ([op] + right) + rest; |toks| > 1 && toks[0] == op && toks[1] == right[0] && toks[1..] == right + rest
  {
  }

  lemma PipeStep(node: Node, toks: seq<string>, tree: Node, rest: seq<string>)
    requires HasCommand(node) && |toks| > 1 && toks[0] == "|" && !EndsPipeEarly(toks[1]) && ParseFactor(toks[1..]) == Ok(Parsed(tree, rest))
    ensures PipeLoop(node, toks) == PipeLoop(Pipe(node, tree), rest)
  {
  }

  lemma SepStep(node: Node, toks: seq<string>, tree: Node, rest: seq<string>)
    requires HasCommand(node) && |toks| > 1 && Separator(toks[0]) && !EndsPipeEarly(toks[1]) && ParsePipe(toks[1..]) == Ok(Parsed(tree, rest))
    ensures ChainLoop(node, toks) == ChainLoop(Chain(node, tree, toks[0]), rest)
  {
  }

  /** Reading a pipeline is reading its first factor and looping. */
  lemma {:induction false} PipelineLoops(p: Pipeline, rest: seq<string>)
    requires PipelineFine(p) && Closes(rest)
    ensures ParsePipe(PipelineToks(p) + rest) == PipeLoop(PipelineTree(p), rest)
    decreases p, 1
  {
    match p
    case Alone(f) => FactorParses(f, rest);
    case Piped(l, f) =>
      var tail := ["|"] + FactorToks(f);
      Regroup(PipelineToks(l), tail, rest);
      assert (tail + rest)[0] == "|";
      PipelineLoops(l, tail + rest);
      PipelineTells(l);
      FactorStarts(f);
      FactorParses(f, rest);
      PipeTurn(PipelineTree(l), FactorToks(f), FactorTree(f), rest);
  }

  lemma SepTurn(node: Node, sep: string, right: seq<string>, tree: Node, rest: seq<string>)
    requires HasCommand(node) && Separator(sep) && right != [] && !EndsPipeEarly(right[0])
    requires ParsePipe(right + rest) == Ok(Parsed(tree, rest))
    ensures ChainLoop(node, ([sep] + right) + rest) == ChainLoop(Chain(node, tree, sep), rest)
  {
    Lead(sep, right, rest);
    SepStep(node, ([sep] + right) + rest, tree, rest);
  }

  /** What may follow a pipeline, and what may follow a sequence. */
  predicate ClosesPipe(rest: seq<string>) { rest == [] || rest[0] == ")" || Separator(rest[0]) }

  predicate ClosesAll(rest: seq<string>) { rest == [] || rest[0] == ")" }

  lemma PipelineParses(p: Pipeline, rest: seq<string>)
    requires PipelineFine(p) && ClosesPipe(rest)
    ensures ParsePipe(PipelineToks(p) + rest) == Ok(Parsed(PipelineTree(p), rest))
    decreases p, 2
  {
    PipelineLoops(p, rest);
  }

  lemma {:induction false} SequenceLoops(s: Sequence, rest: seq<string>)
    requires SequenceFine(s) && ClosesPipe(rest)
    ensures ParseChain(SequenceToks(s) + rest) == ChainLoop(SequenceTree(s), rest)
    decreases s, 3
  {
    match s
    case Just(p) => PipelineParses(p, rest);
    case Then(l, sep, p) =>
      var tail := [sep] + PipelineToks(p);
      Regroup(SequenceToks(l), tail, rest);
      assert (tail + rest)[0] == sep;
      SequenceLoops(l, tail + rest);
      SequenceTells(l);
      PipelineStarts(p);
      PipelineParses(p, rest);
      SepTurn(SequenceTree(l), sep, PipelineToks(p), PipelineTree(p), rest);
  }

  lemma SequenceParses(s: Sequence, rest: seq<string>)
    requires SequenceFine(s) && ClosesAll(rest)
    ensures ParseChain(SequenceToks(s) + rest) == Ok(Parsed(SequenceTree(s), rest))
    decreases s, 4
  {
    SequenceLoops(s, rest);
  }

  // --------------------------------------------------- what parses is a sentence

  lemma {:induction false} ReadItems(words: seq<string>, redirs: seq<(string, string)>, toks: seq<string>) returns (items: seq<Item>)
    requires ReadSimple(words, redirs, toks).Ok?
    ensures var s := ReadSimple(words, redirs, toks).value;
            && ItemsOk(items) && toks == ItemsToks(items) + s.rest
            && s.words == words + Words(items) && s.redirs == redirs + Intos(items)
    decreases |toks|, 1
  {
    if toks == [] || EndsSimple(toks[0]) {
      items := [];
      assert toks == [] + toks && words + [] == words && redirs + [] == redirs;
    } else {
      OperatorsListed(toks[0]);
      if IsRedirOp(toks[0]) {
        items := ReadInto(words, redirs, toks);
      } else {
        items := ReadWordItem(words, redirs, toks);
      }
    }
  }

  lemma ReadInto(words: seq<string>, redirs: seq<(string, string)>, toks: seq<string>) returns (items: seq<Item>)
    requires toks != [] && IsRedirOp(toks[0]) && ReadSimple(words, redirs, toks).Ok?
    ensures var s := ReadSimple(words, redirs, toks).value;
            && ItemsOk(items) && toks == ItemsToks(items) + s.rest
            && s.words == words + Words(items) && s.redirs == redirs + Intos(items)
    decreases |toks|, 0
  {
    var op, target, tail := toks[0], toks[1], toks[2..];
    OperatorsListed(target);
    assert toks == [op, target] + tail;
    IntoTurn(words, redirs, op, target, tail);
    var more := ReadItems(words, redirs + [(op, target)], tail);
    Regroup(redirs, [(op, target)], Intos(more));
    items := ConsItem(Into(op, target), more, ReadSimple(words, redirs, toks).value.rest);
    assert [] + Words(more) == Words(more);
  }

  lemma ReadWordItem(words: seq<string>, redirs: seq<(string, string)>, toks: seq<string>) returns (items: seq<Item>)
    requires toks != [] && !Listed(toks[0]) && ReadSimple(words, redirs, toks).Ok?
    ensures var s := ReadSimple(words, redirs, toks).value;
            && ItemsOk(items) && toks == ItemsToks(items) + s.rest
            && s.words == words + Words(items) && s.redirs == redirs + Intos(items)
    decreases |toks|, 0
  {
    var w, tail := toks[0], toks[1..];
    assert toks == [w] + tail;
    WordTurn(words, redirs, w, tail);
    var more := ReadItems(words + [w], redirs, tail);
    Regroup(words, [w], Words(more));
    items := ConsItem(Word(w), more, ReadSimple(words, redirs, toks).value.rest);
    assert [] + Intos(more) == Intos(more);
  }

  lemma ConsItem(it: Item, more: seq<Item>, rest: seq<string>) returns (items: seq<Item>)
    requires ItemOk(it) && ItemsOk(more)
    ensures items == [it] + more && ItemsOk(items)
    ensures ItemsToks(items) + rest == ItemToks(it) + (ItemsToks(more) + rest)
    ensures Words(items) == (if it.Word? then [it.w] else []) + Words(more)
    ensures Intos(items) == (if it.Into? then [(it.op, it.target)] else []) + Intos(more)
    ensures it.Into? && AllInto(more) ==> AllInto(items)
    ensures forall n :: Wrapped(n, items) == Wrapped(if it.Into? then Redir(n, it.target, it.op) else n, more)
  {
    items := [it] + more;
    assert items[1..] == more;
    Regroup(ItemToks(it), ItemsToks(more), rest);
  }

  lemma {:induction false} ReadRedirs(n: Node, toks: seq<string>) returns (items: seq<Item>)
    requires ParseRedirs(n, toks).Ok?
    ensures var p := ParseRedirs(n, toks).value;
            ItemsOk(items) && AllInto(items) && toks == ItemsToks(items) + p.rest && p.node == Wrapped(n, items)
    decreases |toks|
  {
    if toks == [] || !IsRedirOp(toks[0]) {
      items := [];
      assert toks == [] + toks;
    } else {
      var op, target, tail := toks[0], toks[1], toks[2..];
      OperatorsListed(target);
      assert toks == [op, target] + tail;
      RedirTurn(n, op, target, tail);
      var more := ReadRedirs(Redir(n, target, op), tail);
      items := ConsItem(Into(op, target), more, ParseRedirs(n, toks).value.rest);
    }
  }

  lemma ReadBasic(toks: seq<string>) returns (f: Factor)
    requires ParseSimple(toks).Ok?
    ensures FactorFine(f) && toks == FactorToks(f) + ParseSimple(toks).value.rest && ParseSimple(toks).value.node == FactorTree(f)
  {
    var items := ReadItems([], [], toks);
    assert [] + Words(items) == Words(items) && [] + Intos(items) == Intos(items);
    WrappedIs(SplitEnv([], Words(items)), items);
    f := Basic(items);
  }

  lemma {:induction false} ReadFactor(toks: seq<string>) returns (f: Factor)
    requires ParseFactor(toks).Ok?
    ensures FactorFine(f) && toks == FactorToks(f) + ParseFactor(toks).value.rest && ParseFactor(toks).value.node == FactorTree(f)
    decreases |toks|, 1
  {
    if toks != [] && toks[0] == "(" {
      f := ReadGroup(toks);
    } else {
      f := ReadBasic(toks);
    }
  }

  lemma ReadGroup(toks: seq<string>) returns (f: Factor)
    requires toks != [] && toks[0] == "(" && ParseFactor(toks).Ok?
    ensures FactorFine(f) && toks == FactorToks(f) + ParseFactor(toks).value.rest && ParseFactor(toks).value.node == FactorTree(f)
    decreases |toks|, 0
  {
    GroupParts(toks);
    var p := ParseChain(toks[1..]).value;
    var inner := ReadSequence(toks[1..]);
    var redirs := ReadRedirs(Subshell(p.node), p.rest[1..]);
    GroupText(toks, SequenceToks(inner), p.rest, ItemsToks(redirs), ParseFactor(toks).value.rest);
    f := Group(inner, redirs);
  }

  lemma GroupParts(toks: seq<string>)
    requires toks != [] && toks[0] == "(" && ParseFactor(toks).Ok?
    ensures ParseChain(toks[1..]).Ok?
    ensures var p := ParseChain(toks[1..]).value;
            p.rest != [] && p.rest[0] == ")" && ParseFactor(toks) == ParseRedirs(Subshell(p.node), p.rest[1..])
  {
  }

  lemma GroupText(toks: seq<string>, inner: seq<string>, after: seq<string>, redirs: seq<string>, rest: seq<string>)
    requires toks != [] && toks[0] == "(" && toks[1..] == inner + after && after != [] && after[0] == ")" && after[1..] == redirs + rest
    ensures toks == (["("] + (inner + ([")"] + redirs))) + rest
  {
    assert toks == ["("] + toks[1..];
    assert after == [")"] + after[1..];
    GroupRegroups(inner, redirs, rest);
  }

  lemma JoinText(before: seq<string>, toks: seq<string>, right: seq<string>, rest: seq<string>)
    requires toks != [] && toks[1..] == right + rest
    ensures before + toks == (before + ([toks[0]] + right)) + rest
  {
    assert toks == [toks[0]] + toks[1..];
    Regroup([toks[0]], right, rest);
    Regroup(before, [toks[0]] + right, rest);
  }

  lemma {:induction false} ReadPipes(p0: Pipeline, toks: seq<string>) returns (p: Pipeline)
    requires PipelineFine(p0) && PipeLoop(PipelineTree(p0), toks).Ok?
    ensures var r := PipeLoop(PipelineTree(p0), toks).value;
            PipelineFine(p) && PipelineToks(p0) + toks == PipelineToks(p) + r.rest && r.node == PipelineTree(p)
    decreases |toks|, 0
  {
    if toks == [] || toks[0] != "|" {
      p := p0;
    } else {
      PipelineTells(p0);
      var f := ReadFactor(toks[1..]);
      var rest := ParseFactor(toks[1..]).value.rest;
      var p1 := Piped(p0, f);
      JoinText(PipelineToks(p0), toks, FactorToks(f), rest);
      p := ReadPipes(p1, rest);
    }
  }

  lemma {:induction false} ReadPipeline(toks: seq<string>) returns (p: Pipeline)
    requires ParsePipe(toks).Ok?
    ensures PipelineFine(p) && toks == PipelineToks(p) + ParsePipe(toks).value.rest && ParsePipe(toks).value.node == PipelineTree(p)
    decreases |toks|, 2
  {
    var f := ReadFactor(toks);
    p := ReadPipes(Alone(f), ParseFactor(toks).value.rest);
  }

  lemma {:induction false} ReadSeps(s0: Sequence, toks: seq<string>) returns (s: Sequence)
    requires SequenceFine(s0) && ChainLoop(SequenceTree(s0), toks).Ok?
    ensures var r := ChainLoop(SequenceTree(s0), toks).value;
            SequenceFine(s) && SequenceToks(s0) + toks == SequenceToks(s) + r.rest && r.node == SequenceTree(s)
    decreases |toks|, 0
  {
    if toks == [] || !IsSep(toks[0]) {
      s := s0;
    } else {
      SequenceTells(s0);
      var p := ReadPipeline(toks[1..]);
      var rest := ParsePipe(toks[1..]).value.rest;
      var s1 := Then(s0, toks[0], p);
      JoinText(SequenceToks(s0), toks, PipelineToks(p), rest);
      s := ReadSeps(s1, rest);
    }
  }

  lemma {:induction false} ReadSequence(toks: seq<string>) returns (s: Sequence)
    requires ParseChain(toks).Ok?
    ensures SequenceFine(s) && toks == SequenceToks(s) + ParseChain(toks).value.rest && ParseChain(toks).value.node == SequenceTree(s)
    decreases |toks|, 3
  {
    var p := ReadPipeline(toks);
    s := ReadSeps(Just(p), ParsePipe(toks).value.rest);
  }

  predicate Sentence(toks: seq<string>, n: Node, s: Sequence) {
    SequenceFine(s) && SequenceToks(s) == toks && SequenceTree(s) == n
  }

  /** The parser accepts exactly the sentences of the grammar, each with its tree; so it
      refuses exactly the token lists that are no sentence. */
  lemma ParseExactly(toks: seq<string>, n: Node)
    requires toks != []
    ensures ParseTokens(toks) == Ok(n) <==> exists s :: Sentence(toks, n, s)
  {
    if ParseTokens(toks) == Ok(n) {
      var s := ReadSequence(toks);
      assert SequenceToks(s) + [] == SequenceToks(s);
      assert Sentence(toks, n, s);
    }
    if exists s :: Sentence(toks, n, s) {
      var s :| Sentence(toks, n, s);
      SequenceParses(s, []);
      assert SequenceToks(s) + [] == SequenceToks(s);
    }
  }
}
