/** The fork-bomb test of src/safety/command_guard.py on a text and on the words of its
    commands: joining the words of a parsed command never makes one up. */
module GuardText {
  import opened Common
  import opened ShellLexer
  import opened ShellParser
  import opened ShellRoundTrip
  import opened ShellTargets
  import opened Guard

  // -------------------------------------------- the text around a part

  lemma {:induction false} NoSpacesConcat(a: string, b: string)
    ensures NoSpaces(a + b) == NoSpaces(a) + NoSpaces(b)
    decreases |a|
  {
    if a == "" {
      assert a + b == b;
    } else {
      assert (a + b)[1..] == a[1..] + b;
      NoSpacesConcat(a[1..], b);
    }
  }

  lemma {:induction false} ContainsAround(a: string, s: string, b: string, p: string)
    requires Contains(s, p)
    ensures Contains(a + s + b, p)
    decreases |a| + |s|
  {
    var t := a + s + b;
    if a != "" {
      assert t[1..] == a[1..] + s + b;
      ContainsAround(a[1..], s, b, p);
    } else if Starts(s, p) {
      assert t[..|p|] == s[..|p|];
    } else {
      assert t[1..] == "" + s[1..] + b;
      ContainsAround("", s[1..], b, p);
    }
  }

  /** A fork bomb stays one in any longer text. */
  lemma ForkBombStays(before: string, raw: string, after: string)
    requires ForkBomb(raw)
    ensures ForkBomb(before + raw + after)
  {
    NoSpacesConcat(before + raw, after);
    NoSpacesConcat(before, raw);
    ContainsAround(NoSpaces(before), NoSpaces(raw), NoSpaces(after), ":(){");
  }

  // ------------------------------------------------ how a word can end

  predicate Ends(s: string, p: string) { |p| <= |s| && s[|s| - |p|..] == p }

  /** The text ends in a substitution. */
  ghost predicate EndsInSubst(t: string) {
    exists j :: SubstAt(t, j)
  }

  predicate SubstAt(t: string, j: int) {
    0 <= j < |t| - 1 && t[j] == '$' && t[j + 1] == '(' && SubstLen(t[j + 1..], 0, None) == Some(|t| - j - 1)
  }

  /** The last character, if a blank or a closing parenthesis, is escaped - or closes a
      substitution. */
  ghost predicate EndOk(t: string, e: bool)
    requires t != ""
  {
    var c := t[|t| - 1];
    var escaped := if |t| == 1 then e else t[|t| - 2] == '\\';
    (c == ' ' ==> escaped) && (c == ')' ==> escaped || EndsInSubst(t))
  }

  lemma SubstInside(t: string, k: nat)
    requires k < |t| && EndsInSubst(t[k..])
    ensures EndsInSubst(t)
  {
    var u := t[k..];
    var j :| SubstAt(u, j);
    assert t[k + j + 1..] == u[j + 1..];
    assert SubstAt(t, k + j);
  }

  lemma LastTurn(t: string, first: bool, q: Option<char>, e: bool)
    requires t != "" && QuoteOk(q) && WordLen(t, first, q, e) == Ok(|t|)
    requires TurnAt(t, first, q, e).Go? && TurnAt(t, first, q, e).k == |t|
    ensures EndOk(t, e)
  {
    var m := TurnAt(t, first, q, e);
    WordTurn(t, first, q, e, m);
    assert t[m.k..] == "" && m.quote.None? && !m.escaped;
    if m.k > 1 {
      assert SubstAt(t, 0);
      TurnFacts(t, first, q, e);
    }
  }

  lemma {:induction false} WordEnds(t: string, first: bool, q: Option<char>, e: bool)
    requires t != "" && QuoteOk(q) && WordLen(t, first, q, e) == Ok(|t|)
    ensures EndOk(t, e)
    decreases |t|
  {
    var m := TurnAt(t, first, q, e);
    TurnFacts(t, first, q, e);
    if m.k == |t| {
      LastTurn(t, first, q, e);
    } else {
      WordTurn(t, first, q, e, m);
      var tail := t[m.k..];
      WordEnds(tail, false, m.quote, m.escaped);
      assert tail[|tail| - 1] == t[|t| - 1];
      if EndsInSubst(tail) { SubstInside(t, m.k); }
      if |tail| > 1 { assert tail[|tail| - 2] == t[|t| - 2]; }
    }
  }

  // ---------------------------------------------- how a substitution can end

  lemma {:induction false} SpacesNeverClose(s: string, depth: int, inner: Option<char>)
    requires NoSpaces(s) == "" && QuoteOk(inner)
    ensures SubstLen(s, depth, inner).None?
    decreases |s|
  {
    if s != "" { SpacesNeverClose(s[1..], depth, inner); }
  }

  lemma HeadTail(c: char, t: string, d: char, u: string)
    requires [c] + t == [d] + u
    ensures c == d && t == u
  {
    assert ([c] + t)[0] == ([d] + u)[0] && ([c] + t)[1..] == t && ([d] + u)[1..] == u;
  }

  /** Two levels deep or inside quotes, one more parenthesis does not close. */
  lemma {:induction false} OneIsNotEnough(s: string, depth: int, inner: Option<char>)
    requires SubstLen(s, depth, inner) == Some(|s|) && QuoteOk(inner) && (depth >= 2 || inner.Some?)
    ensures NoSpaces(s) != ")"
    decreases |s|
  {
    if s[0] == ' ' {
      OneIsNotEnough(s[1..], depth, inner);
    } else if NoSpaces(s) == ")" {
      HeadTail(s[0], NoSpaces(s[1..]), ')', "");
      SpacesNeverClose(s[1..], if inner.Some? then depth else depth - 1, inner);
    }
  }

  lemma EndsCons(c: char, s: string, p: string)
    requires Ends([c] + s, p)
    ensures Ends(s, p) || [c] + s == p
  {
    if |p| <= |s| {
      assert ([c] + s)[1 + |s| - |p|..] == s[|s| - |p|..];
    } else {
      assert ([c] + s)[0..] == [c] + s;
    }
  }

  /** Inside a substitution nothing ends in an empty pair of parentheses. */
  lemma {:induction false} NoEmptyPair(s: string, depth: int, inner: Option<char>)
    requires SubstLen(s, depth, inner) == Some(|s|) && QuoteOk(inner) && depth >= 1
    ensures !Ends(NoSpaces(s), "()")
    decreases |s|
  {
    var c, t := s[0], s[1..];
    if |s| == 1 {
      assert t == "" && NoSpaces(s) == (if c == ' ' then "" else [c]) + "";
    } else {
      var inner' := if inner.Some? then (if inner == Some(c) then None else inner) else if IsQuote(c) then Some(c) else None;
      var depth' := if inner.Some? || IsQuote(c) then depth else if c == '(' then depth + 1 else if c == ')' then depth - 1 else depth;
      assert SubstLen(t, depth', inner') == Some(|t|);
      NoEmptyPair(t, depth', inner');
      if c != ' ' && Ends(NoSpaces(s), "()") {
        EndsCons(c, NoSpaces(t), "()");
        assert "()" == ['('] + ")";
        HeadTail(c, NoSpaces(t), '(', ")");
        OneIsNotEnough(t, depth', inner');
      }
    }
  }

  lemma SubstOpens(sub: string)
    requires SubstLen(sub, 0, None) == Some(|sub|) && sub != "" && sub[0] == '('
    ensures SubstLen(sub[1..], 1, None) == Some(|sub[1..]|) && NoSpaces(sub) == ['('] + NoSpaces(sub[1..])
  {
  }

  lemma SubstTail(sub: string)
    requires SubstLen(sub, 0, None) == Some(|sub|) && sub != "" && sub[0] == '(' && Ends(NoSpaces(sub), "()")
    ensures NoSpaces(sub) == "()"
  {
    SubstOpens(sub);
    NoEmptyPair(sub[1..], 1, None);
    EndsCons('(', NoSpaces(sub[1..]), "()");
  }

  // --------------------------------------------- no word ends like a fork bomb

  const BOMB := ":(){"

  lemma NoSpacesSnoc(a: string, c: char)
    ensures NoSpaces(a + [c]) == NoSpaces(a) + (if c == ' ' then "" else [c])
  {
    NoSpacesConcat(a, [c]);
    assert [c][1..] == "" && NoSpaces("") == "";
  }

  lemma EndsChars(x: string)
    ensures Ends(x, "()") <==> |x| >= 2 && x[|x| - 2] == '(' && x[|x| - 1] == ')'
    ensures Ends(x, ":()") <==> |x| >= 3 && x[|x| - 3] == ':' && Ends(x, "()")
  {
    if |x| >= 2 { assert x[|x| - 2..] == [x[|x| - 2], x[|x| - 1]]; }
    if |x| >= 3 { assert x[|x| - 3..] == [x[|x| - 3], x[|x| - 2], x[|x| - 1]]; }
  }

  /** An escape keeps what it escapes apart from an opening parenthesis. */
  lemma EscapedEnd(w: string)
    requires |w| >= 2 && w[|w| - 2] == '\\'
    ensures !Ends(NoSpaces(w), ":()")
  {
    var a, c := w[..|w| - 2], w[|w| - 1];
    assert w == a + ['\\'] + [c];
    NoSpacesSnoc(a + ['\\'], c);
    NoSpacesSnoc(a, '\\');
    EndsChars(NoSpaces(w));
  }

  lemma SubstText(w: string, j: int)
    requires SubstAt(w, j)
    ensures NoSpaces(w) == NoSpaces(w[..j]) + ['$'] + NoSpaces(w[j + 1..])
  {
    assert w == w[..j] + ['$'] + w[j + 1..];
    NoSpacesConcat(w[..j] + ['$'], w[j + 1..]);
    NoSpacesSnoc(w[..j], '$');
  }

  lemma DollarPair(a: string, y: string)
    requires |y| >= 2 && (Ends(y, "()") ==> y == "()")
    ensures !Ends(a + ['$'] + y, ":()")
  {
    var x := a + ['$'] + y;
    EndsChars(x);
    EndsChars(y);
    assert y[|y| - 1] == x[|x| - 1] && y[|y| - 2] == x[|x| - 2];
    assert |y| == 2 ==> x[|x| - 3] == '$';
  }

  lemma SubstEnd(w: string)
    requires EndsInSubst(w)
    ensures !Ends(NoSpaces(w), ":()")
  {
    var j :| SubstAt(w, j);
    SubstText(w, j);
    var sub := w[j + 1..];
    SubstEndsInParen(sub, 0, None);
    PairText(sub);
    if Ends(NoSpaces(sub), "()") { SubstTail(sub); }
    DollarPair(NoSpaces(w[..j]), NoSpaces(sub));
  }

  lemma PairText(sub: string)
    requires |sub| >= 1 && sub[0] == '(' && sub[|sub| - 1] == ')'
    ensures |NoSpaces(sub)| >= 2
  {
    var init := sub[..|sub| - 1];
    assert sub == init + [')'] && init[0] == '(';
    NoSpacesSnoc(init, ')');
  }

  /** No word of a scanned text, its blanks taken out, ends in `:()`. */
  lemma WordsEndWell(w: string)
    requires Solid(w)
    ensures !Ends(NoSpaces(w), ":()")
  {
    WordEnds(w, true, None, false);
    EndsChars(NoSpaces(w));
    var a, c := w[..|w| - 1], w[|w| - 1];
    assert w == a + [c];
    NoSpacesSnoc(a, c);
    if |w| >= 2 && w[|w| - 2] == '\\' {
      EscapedEnd(w);
    } else if EndsInSubst(w) {
      SubstEnd(w);
    }
  }

  // ------------------------------------------------- from words to the text

  lemma StartsAcross(x: string, y: string)
    requires Starts(x + y, BOMB) && !Starts(x, BOMB) && x != "" && y != "" && y[0] != '(' && y[0] != ')'
    ensures Ends(x, ":()")
  {
    var t := x + y;
    assert t[..4] == BOMB && t[0] == ':' && t[1] == '(' && t[2] == ')' && t[3] == '{' by { assert BOMB == [':', '(', ')', '{']; }
    assert |x| < 4;
    assert t[|x|] == y[0];
    assert |x| == 3;
    EndsChars(x);
  }

  /** A match across a seam needs the left side to end in `:()`. */
  lemma {:induction false} AcrossSeam(x: string, y: string)
    requires Contains(x + y, BOMB) && y != "" && y[0] != '(' && y[0] != ')' && !Ends(x, ":()")
    ensures Contains(x, BOMB) || Contains(y, BOMB)
    decreases |x|
  {
    if x == "" {
      assert x + y == y;
    } else if Starts(x + y, BOMB) {
      if !Starts(x, BOMB) { StartsAcross(x, y); }
    } else {
      assert (x + y)[1..] == x[1..] + y;
      TailEnds(x);
      AcrossSeam(x[1..], y);
    }
  }

  lemma TailEnds(x: string)
    requires x != "" && !Ends(x, ":()")
    ensures !Ends(x[1..], ":()")
  {
    EndsChars(x);
    EndsChars(x[1..]);
  }

  predicate AllSolid(words: seq<string>) { forall i :: 0 <= i < |words| ==> Solid(words[i]) }

  lemma SolidStarts(w: string)
    requires Solid(w)
    ensures NoSpaces(w) != "" && NoSpaces(w)[0] == w[0] && w[0] != '(' && w[0] != ')'
  {
  }

  lemma NoSpacesJoin(words: seq<string>)
    requires |words| > 1
    ensures NoSpaces(JoinSpaced(words)) == NoSpaces(words[0]) + NoSpaces(JoinSpaced(words[1..]))
  {
    var rest := JoinSpaced(words[1..]);
    NoSpacesConcat(words[0] + " ", rest);
    NoSpacesSnoc(words[0], ' ');
  }

  lemma JoinStarts(words: seq<string>)
    requires words != [] && AllSolid(words)
    ensures var y := NoSpaces(JoinSpaced(words)); y != "" && y[0] != '(' && y[0] != ')'
  {
    SolidStarts(words[0]);
    if |words| > 1 { NoSpacesJoin(words); }
  }

  /** A fork bomb in joined words is in one of them. */
  lemma {:induction false} BombInOneWord(words: seq<string>) returns (i: nat)
    requires AllSolid(words) && ForkBomb(JoinSpaced(words))
    ensures i < |words| && ForkBomb(words[i])
    decreases |words|
  {
    assert NoSpaces("") == "" && !Contains("", BOMB);
    if |words| <= 1 {
      i := 0;
    } else {
      var rest := words[1..];
      assert forall j :: 0 <= j < |rest| ==> rest[j] == words[j + 1];
      NoSpacesJoin(words);
      JoinStarts(rest);
      WordsEndWell(words[0]);
      AcrossSeam(NoSpaces(words[0]), NoSpaces(JoinSpaced(rest)));
      if ForkBomb(words[0]) {
        i := 0;
      } else {
        var j := BombInOneWord(rest);
        i := j + 1;
      }
    }
  }

  lemma {:induction false} InWeave(gaps: seq<string>, toks: seq<string>, i: nat) returns (a: string, b: string)
    requires |gaps| == |toks| + 1 && i < |toks|
    ensures Weave(gaps, toks) == a + toks[i] + b
    decreases |toks|
  {
    if i == 0 {
      a, b := gaps[0], Weave(gaps[1..], toks[1..]);
    } else {
      var c, d := InWeave(gaps[1..], toks[1..], i - 1);
      a, b := gaps[0] + toks[0] + c, d;
      assert gaps[0] + toks[0] + (c + toks[i] + d) == a + toks[i] + b;
    }
  }

  lemma TokenBomb(text: string, i: nat)
    requires Tokens(text).Ok? && i < |Tokens(text).value| && ForkBomb(Tokens(text).value[i])
    ensures ForkBomb(text)
  {
    var gaps := TokensAreLossless(text);
    var a, b := InWeave(gaps, Tokens(text).value, i);
    ForkBombStays(a, Tokens(text).value[i], b);
  }

  // ---------------------------------------- the words of a command are tokens

  predicate WordsFrom(words: seq<string>, toks: seq<string>) {
    forall i :: 0 <= i < |words| ==> words[i] in toks && !IsOperator(words[i])
  }

  /** All words of all commands of the tree are tokens of the list, and no operators. */
  predicate From(n: Node, toks: seq<string>) {
    match n
    case Command(argv, _) => WordsFrom(argv, toks)
    case Chain(l, r, _) => From(l, toks) && From(r, toks)
    case Pipe(l, r) => From(l, toks) && From(r, toks)
    case Redir(c, _, _) => From(c, toks)
    case Subshell(c) => From(c, toks)
  }

  predicate Sub(a: seq<string>, b: seq<string>) { forall x :: x in a ==> x in b }

  lemma {:induction false} SplitFrom(env: seq<(string, string)>, words: seq<string>, toks: seq<string>)
    requires WordsFrom(words, toks)
    ensures From(SplitEnv(env, words), toks)
    decreases |words|
  {
    if words != [] && IsAssign(words[0]) {
      var i := IndexOf(words[0], '=');
      assert forall j :: 0 <= j < |words[1..]| ==> words[1..][j] == words[j + 1];
      SplitFrom(Put(env, words[0][..i], words[0][i + 1..]), words[1..], toks);
    }
  }

  lemma {:induction false} ReadFrom(words: seq<string>, redirs: seq<(string, string)>, toks: seq<string>, all: seq<string>)
    requires ReadSimple(words, redirs, toks).Ok? && WordsFrom(words, all) && Sub(toks, all)
    ensures WordsFrom(ReadSimple(words, redirs, toks).value.words, all) && Sub(ReadSimple(words, redirs, toks).value.rest, all)
    decreases |toks|
  {
    if toks != [] && !EndsSimple(toks[0]) {
      if IsRedirOp(toks[0]) {
        assert Sub(toks[2..], toks);
        ReadFrom(words, redirs + [(toks[0], toks[1])], toks[2..], all);
      } else {
        OperatorKinds(toks[0]);
        assert toks[0] in toks && Sub(toks[1..], toks);
        ReadFrom(words + [toks[0]], redirs, toks[1..], all);
      }
    }
  }

  lemma {:induction false} ApplyFrom(node: Node, redirs: seq<(string, string)>, all: seq<string>)
    requires From(node, all)
    ensures From(ApplyRedirs(node, redirs), all)
    decreases |redirs|
  {
    if redirs != [] { ApplyFrom(node, redirs[..|redirs| - 1], all); }
  }

  lemma {:induction false} RedirsFrom(node: Node, toks: seq<string>, all: seq<string>)
    requires ParseRedirs(node, toks).Ok? && From(node, all) && Sub(toks, all)
    ensures From(ParseRedirs(node, toks).value.node, all) && Sub(ParseRedirs(node, toks).value.rest, all)
    decreases |toks|
  {
    if toks != [] && IsRedirOp(toks[0]) {
      assert Sub(toks[2..], toks);
      RedirsFrom(Redir(node, toks[1], toks[0]), toks[2..], all);
    }
  }

  lemma SimpleFrom(toks: seq<string>, all: seq<string>)
    requires ParseSimple(toks).Ok? && Sub(toks, all)
    ensures From(ParseSimple(toks).value.node, all) && Sub(ParseSimple(toks).value.rest, all)
  {
    ReadFrom([], [], toks, all);
    var s := ReadSimple([], [], toks).value;
    SplitFrom([], s.words, all);
    ApplyFrom(SplitEnv([], s.words), s.redirs, all);
  }

  lemma {:induction false} FactorFrom(toks: seq<string>, all: seq<string>)
    requires ParseFactor(toks).Ok? && Sub(toks, all)
    ensures From(ParseFactor(toks).value.node, all) && Sub(ParseFactor(toks).value.rest, all)
    decreases |toks|, 1
  {
    if toks != [] && toks[0] == "(" {
      assert Sub(toks[1..], toks);
      ChainFrom(toks[1..], all);
      var p := ParseChain(toks[1..]).value;
      assert Sub(p.rest[1..], p.rest);
      RedirsFrom(Subshell(p.node), p.rest[1..], all);
    } else {
      SimpleFrom(toks, all);
    }
  }

  lemma {:induction false} PipeLoopFrom(node: Node, toks: seq<string>, all: seq<string>)
    requires PipeLoop(node, toks).Ok? && From(node, all) && Sub(toks, all)
    ensures From(PipeLoop(node, toks).value.node, all) && Sub(PipeLoop(node, toks).value.rest, all)
    decreases |toks|, 0
  {
    if toks != [] && toks[0] == "|" {
      assert Sub(toks[1..], toks);
      FactorFrom(toks[1..], all);
      var p := ParseFactor(toks[1..]).value;
      PipeLoopFrom(Pipe(node, p.node), p.rest, all);
    }
  }

  lemma {:induction false} PipeFrom(toks: seq<string>, all: seq<string>)
    requires ParsePipe(toks).Ok? && Sub(toks, all)
    ensures From(ParsePipe(toks).value.node, all) && Sub(ParsePipe(toks).value.rest, all)
    decreases |toks|, 2
  {
    FactorFrom(toks, all);
    var p := ParseFactor(toks).value;
    PipeLoopFrom(p.node, p.rest, all);
  }

  lemma {:induction false} ChainLoopFrom(node: Node, toks: seq<string>, all: seq<string>)
    requires ChainLoop(node, toks).Ok? && From(node, all) && Sub(toks, all)
    ensures From(ChainLoop(node, toks).value.node, all) && Sub(ChainLoop(node, toks).value.rest, all)
    decreases |toks|, 0
  {
    if toks != [] && IsSep(toks[0]) {
      assert Sub(toks[1..], toks);
      PipeFrom(toks[1..], all);
      var p := ParsePipe(toks[1..]).value;
      ChainLoopFrom(Chain(node, p.node, toks[0]), p.rest, all);
    }
  }

  lemma {:induction false} ChainFrom(toks: seq<string>, all: seq<string>)
    requires ParseChain(toks).Ok? && Sub(toks, all)
    ensures From(ParseChain(toks).value.node, all) && Sub(ParseChain(toks).value.rest, all)
    decreases |toks|, 3
  {
    PipeFrom(toks, all);
    var p := ParsePipe(toks).value;
    ChainLoopFrom(p.node, p.rest, all);
  }

  lemma {:induction false} LeavesFrom(n: Node, toks: seq<string>, i: nat)
    requires From(n, toks) && i < |Leaves(n)|
    ensures WordsFrom(Leaves(n)[i], toks)
    decreases n
  {
    match n
    case Command(_, _) =>
    case Chain(l, r, _) => if i < |Leaves(l)| { LeavesFrom(l, toks, i); } else { LeavesFrom(r, toks, i - |Leaves(l)|); }
    case Pipe(l, r) => if i < |Leaves(l)| { LeavesFrom(l, toks, i); } else { LeavesFrom(r, toks, i - |Leaves(l)|); }
    case Redir(c, _, _) => LeavesFrom(c, toks, i);
    case Subshell(c) => LeavesFrom(c, toks, i);
  }

  /** Joining the words of a parsed command makes up no fork bomb: if there is one, the
      text holds it. */
  lemma LeafBombIsInText(text: string, i: nat)
    requires Parse(text).Ok? && i < |Leaves(Parse(text).value)| && ForkBomb(JoinSpaced(Leaves(Parse(text).value)[i]))
    ensures ForkBomb(text)
  {
    var toks, n := Tokens(text).value, Parse(text).value;
    TokensAreSolid(text);
    if toks != [] { ChainFrom(toks, toks); }
    assert From(n, toks);
    LeavesFrom(n, toks, i);
    var words := Leaves(n)[i];
    var j := BombInOneWord(words);
    var k :| 0 <= k < |toks| && toks[k] == words[j];
    TokenBomb(text, k);
  }
}
