/** What a shell text means to `tokenize_shell` (src/safety/command_guard.py), as a
    grammar: operators, and words made of plain characters, escaped ones, quoted
    stretches and `$(...)`.  The scanner splits a text exactly as the grammar does. */
module ShellGrammar {
  import opened Common
  import opened ShellLexer

  // ------------------------------------------------------------- operators

  predicate Listed(op: string) {
    || op == "&&" || op == "||" || op == ">>" || op == "<<" || op == "2>>" || op == "2>" || op == "&>"
    || op == "|" || op == ";" || op == ">" || op == "<" || op == "(" || op == ")"
  }

  /** The text starts with this operator; one that begins with a digit counts only
      where a word may begin. */
  predicate OperatorAt(op: string, t: string, first: bool) {
    Listed(op) && op <= t && (first || op[0] != '2')
  }

  ghost predicate SomeOperator(t: string, first: bool) { exists op :: OperatorAt(op, t, first) }

  ghost predicate LongestOperator(op: string, t: string, first: bool) {
    OperatorAt(op, t, first) && forall other :: OperatorAt(other, t, first) ==> |other| <= |op|
  }

  lemma OneChar(op: string, t: string)
    requires |op| == 1
    ensures op <= t <==> At(t, 0, op[0])
  {
  }

  lemma TwoChars(op: string, t: string)
    requires |op| == 2
    ensures op <= t <==> At(t, 0, op[0]) && At(t, 1, op[1])
  {
  }

  lemma ThreeChars(op: string, t: string)
    requires |op| == 3
    ensures op <= t <==> At(t, 0, op[0]) && At(t, 1, op[1]) && At(t, 2, op[2])
  {
  }

  lemma OperatorLength(op: string, t: string, first: bool)
    requires OperatorAt(op, t, first)
    ensures 0 < |op| <= OpLen(t, first)
  {
    if |op| == 1 { OneChar(op, t); } else if |op| == 2 { TwoChars(op, t); } else { ThreeChars(op, t); }
  }

  lemma TakenOperator(t: string, first: bool)
    requires OpLen(t, first) > 0
    ensures OperatorAt(t[..OpLen(t, first)], t, first)
  {
    var op := t[..OpLen(t, first)];
    if |op| == 1 { assert op == [t[0]]; }
    else if |op| == 2 { assert op == [t[0], t[1]]; }
    else { assert op == [t[0], t[1], t[2]]; }
  }

  /** The scanner takes the longest listed operator, if there is one. */
  lemma OperatorsExactly(t: string, first: bool)
    ensures OpLen(t, first) > 0 <==> SomeOperator(t, first)
    ensures OpLen(t, first) > 0 ==> LongestOperator(t[..OpLen(t, first)], t, first)
  {
    forall op | OperatorAt(op, t, first) ensures 0 < |op| <= OpLen(t, first) { OperatorLength(op, t, first); }
    if OpLen(t, first) > 0 { TakenOperator(t, first); }
  }

  lemma LongestIsTaken(op: string, t: string)
    requires LongestOperator(op, t, true)
    ensures op == t[..OpLen(t, true)] && OpLen(t, true) == |op| > 0
  {
    OperatorLength(op, t, true);
    TakenOperator(t, true);
  }

  // --------------------------------------------------------------- grammar

  /** The rest of a double-quoted stretch: a backslash keeps the next character. */
  datatype Quoted = Close | Char(c: char, more: Quoted) | Pair(c: char, more: Quoted)

  /** The rest of a `$(...)`: parentheses nest, and quotes hide them. */
  datatype Body = Shut | Bare(c: char, more: Body) | Hide(q: char, u: string, more: Body) | Nested(inner: Body, more: Body)

  datatype Word =
    | End
    | Plain(c: char, more: Word)
    | Escape(c: char, more: Word)
    | Single(u: string, more: Word)
    | Double(q: Quoted, more: Word)
    | Subst(body: Body, more: Word)

  function QuotedText(q: Quoted): (t: string)
    ensures t != ""
  {
    match q
    case Close => "\""
    case Char(c, more) => [c] + QuotedText(more)
    case Pair(c, more) => ['\\', c] + QuotedText(more)
  }

  function BodyText(b: Body): (t: string)
    ensures t != ""
  {
    match b
    case Shut => ")"
    case Bare(c, more) => [c] + BodyText(more)
    case Hide(q, u, more) => [q] + (u + ([q] + BodyText(more)))
    case Nested(inner, more) => "(" + (BodyText(inner) + BodyText(more))
  }

  /** The first piece of a word. */
  function HeadText(w: Word): (t: string)
    requires w != End
    ensures t != ""
  {
    match w
    case Plain(c, _) => [c]
    case Escape(c, _) => ['\\', c]
    case Single(u, _) => "'" + (u + "'")
    case Double(q, _) => "\"" + QuotedText(q)
    case Subst(body, _) => "$(" + BodyText(body)
  }

  function WordText(w: Word): string { if w == End then "" else HeadText(w) + WordText(w.more) }

  predicate QuotedOk(q: Quoted) {
    match q
    case Close => true
    case Char(c, more) => c != '"' && c != '\\' && QuotedOk(more)
    case Pair(_, more) => QuotedOk(more)
  }

  predicate BodyOk(b: Body) {
    match b
    case Shut => true
    case Bare(c, more) => c !in "'\"()" && BodyOk(more)
    case Hide(q, u, more) => (q == '\'' || q == '"') && q !in u && BodyOk(more)
    case Nested(inner, more) => BodyOk(inner) && BodyOk(more)
  }

  /** A plain character is none that means something here. */
  ghost predicate PlainOk(t: string, first: bool)
    requires t != ""
  {
    t[0] !in " \t\n\\'\"" && !("$(" <= t) && !SomeOperator(t, first)
  }

  /** `t` is the text from here on. */
  ghost predicate HeadOk(w: Word, t: string, first: bool)
    requires w != End && t != ""
  {
    match w
    case Plain(_, _) => PlainOk(t, first)
    case Escape(_, _) => true
    case Single(u, _) => '\'' !in u
    case Double(q, _) => QuotedOk(q)
    case Subst(body, _) => BodyOk(body)
  }

  ghost predicate WordOk(w: Word, rest: string, first: bool) {
    w != End ==> HeadOk(w, WordText(w) + rest, first) && WordOk(w.more, rest, false)
  }

  /** Where a word ends. */
  ghost predicate Ends(rest: string) { rest == "" || rest[0] in " \t\n" || SomeOperator(rest, false) }

  ghost predicate WordAt(w: Word, tok: string, rest: string) {
    w != End && WordText(w) == tok && WordOk(w, rest, true) && Ends(rest)
  }

  /** The text goes on with this token: the longest operator, or a whole word. */
  ghost predicate TokenAt(tok: string, t: string) {
    tok != "" && tok <= t &&
    if SomeOperator(t, true) then LongestOperator(tok, t, true)
    else exists w :: WordAt(w, tok, t[|tok|..])
  }

  /** The text, blanks aside, is these tokens. */
  ghost predicate Splits(t: string, toks: seq<string>)
    decreases |t|
  {
    if t == "" then toks == []
    else if t[0] in " \t\n" then Splits(t[1..], toks)
    else toks != [] && TokenAt(toks[0], t) && Splits(t[|toks[0]|..], toks[1..])
  }

  // ------------------------------------------------------- texts in pieces

  lemma Regroup(a: string, b: string, c: string)
    ensures (a + b) + c == a + (b + c)
  {
  }

  lemma Skip(a: string, b: string)
    ensures (a + b)[|a|..] == b && (a != "" ==> (a + b)[1..] == a[1..] + b)
  {
  }

  lemma Regroup4(a: string, b: string, c: string, d: string)
    ensures (a + (b + c)) + d == a + (b + (c + d))
  {
    Regroup(a, b + c, d);
    Regroup(b, c, d);
  }

  // --------------------------------------------------- turns of the scanner

  lemma SingleTurn(c: char, t: string)
    ensures WordLen([c] + t, false, Some('\''), false)
            == Plus(1, WordLen(t, false, if c == '\'' then None else Some('\''), false))
  {
    Skip([c], t);
  }

  lemma DoubleTurn(c: char, t: string)
    requires c != '\\'
    ensures WordLen([c] + t, false, Some('"'), false) == Plus(1, WordLen(t, false, if c == '"' then None else Some('"'), false))
  {
    Skip([c], t);
  }

  lemma EscapedTurn(c: char, t: string, quote: Option<char>)
    ensures WordLen([c] + t, false, quote, true) == Plus(1, WordLen(t, false, quote, false))
  {
    Skip([c], t);
  }

  lemma PairTurn(c: char, t: string, first: bool, quote: Option<char>)
    requires quote != Some('\'')
    ensures WordLen(['\\', c] + t, first, quote, false) == Plus(2, WordLen(t, false, quote, false))
  {
    var whole := ['\\', c] + t;
    assert whole[1..] == [c] + t;
    EscapedTurn(c, t, quote);
  }

  lemma OpenTurn(c: char, t: string, first: bool)
    requires c == '\'' || c == '"'
    ensures WordLen([c] + t, first, None, false) == Plus(1, WordLen(t, false, Some(c), false))
  {
    Skip([c], t);
  }

  lemma SubstTurn(t: string, first: bool, k: nat, rest: string)
    requires SubstLen("(" + t, 0, None) == Some(k) && k <= |t| + 1 && ("(" + t)[k..] == rest
    ensures WordLen("$(" + t, first, None, false) == Plus(1 + k, WordLen(rest, false, None, false))
  {
    var whole := "$(" + t;
    assert whole[1..] == "(" + t;
    assert whole[1 + k..] == rest;
  }

  lemma PlainTurn(t: string, first: bool)
    requires t != "" && PlainOk(t, first)
    ensures WordLen(t, first, None, false) == Plus(1, WordLen(t[1..], false, None, false))
  {
    OperatorsExactly(t, first);
  }

  function More(n: nat, k: Option<nat>): Option<nat> { if k.Some? then Some(n + k.value) else None }

  lemma HiddenTurn(c: char, t: string, depth: int, q: char)
    ensures SubstLen([c] + t, depth, Some(q)) == More(1, SubstLen(t, depth, if c == q then None else Some(q)))
  {
    Skip([c], t);
  }

  lemma BodyTurn(c: char, t: string, depth: int)
    requires c != ')'
    ensures SubstLen([c] + t, depth, None)
            == More(1, if IsQuote(c) then SubstLen(t, depth, Some(c)) else SubstLen(t, if c == '(' then depth + 1 else depth, None))
  {
    Skip([c], t);
  }

  lemma ShutTurn(t: string, depth: int)
    ensures SubstLen(")" + t, depth, None) == if depth == 1 then Some(1) else More(1, SubstLen(t, depth - 1, None))
  {
    Skip(")", t);
  }

  // --------------------------------------------- what the grammar writes scans

  lemma {:induction false} SingleScans(u: string, rest: string)
    requires '\'' !in u
    ensures WordLen(u + ("'" + rest), false, Some('\''), false) == Plus(|u| + 1, WordLen(rest, false, None, false))
  {
    if u == "" {
      assert u + ("'" + rest) == "'" + rest;
      SingleTurn('\'', rest);
    } else {
      SingleScans(u[1..], rest);
      Regroup([u[0]], u[1..], "'" + rest);
      assert u == [u[0]] + u[1..];
      SingleTurn(u[0], u[1..] + ("'" + rest));
    }
  }

  lemma {:induction false} DoubleScans(q: Quoted, rest: string)
    requires QuotedOk(q)
    ensures WordLen(QuotedText(q) + rest, false, Some('"'), false) == Plus(|QuotedText(q)|, WordLen(rest, false, None, false))
  {
    match q
    case Close => DoubleTurn('"', rest);
    case Char(c, more) =>
      DoubleScans(more, rest);
      Regroup([c], QuotedText(more), rest);
      DoubleTurn(c, QuotedText(more) + rest);
    case Pair(c, more) =>
      DoubleScans(more, rest);
      DoublePairScans(c, QuotedText(more), rest);
  }

  lemma DoublePairScans(c: char, more: string, rest: string)
    ensures WordLen((['\\', c] + more) + rest, false, Some('"'), false) == Plus(2, WordLen(more + rest, false, Some('"'), false))
  {
    Regroup(['\\', c], more, rest);
    PairTurn(c, more + rest, false, Some('"'));
  }

  lemma {:induction false} HiddenScans(u: string, q: char, rest: string, depth: int)
    requires q !in u
    ensures SubstLen(u + ([q] + rest), depth, Some(q)) == More(|u| + 1, SubstLen(rest, depth, None))
  {
    if u == "" {
      assert u + ([q] + rest) == [q] + rest;
      HiddenTurn(q, rest, depth, q);
    } else {
      HiddenScans(u[1..], q, rest, depth);
      Regroup([u[0]], u[1..], [q] + rest);
      assert u == [u[0]] + u[1..];
      HiddenTurn(u[0], u[1..] + ([q] + rest), depth, q);
    }
  }

  /** How far a body goes that closes one of `depth` parentheses. */
  function Closes(n: nat, rest: string, depth: int): Option<nat> {
    if depth == 1 then Some(n) else More(n, SubstLen(rest, depth - 1, None))
  }

  lemma QuoteRegroups(q: char, u: string, more: string, rest: string)
    ensures ([q] + (u + ([q] + more))) + rest == [q] + (u + ([q] + (more + rest)))
  {
    Regroup([q], u + ([q] + more), rest);
    Regroup4(u, [q], more, rest);
  }

  lemma QuoteScans(q: char, u: string, more: string, rest: string, depth: int)
    requires (q == '\'' || q == '"') && q !in u
    ensures SubstLen(([q] + (u + ([q] + more))) + rest, depth, None) == More(|u| + 2, SubstLen(more + rest, depth, None))
  {
    QuoteRegroups(q, u, more, rest);
    BodyTurn(q, u + ([q] + (more + rest)), depth);
    HiddenScans(u, q, more + rest, depth);
  }

  lemma MoreCloses(a: nat, n: nat, rest: string, depth: int)
    ensures More(a, Closes(n, rest, depth)) == Closes(a + n, rest, depth)
  {
  }

  lemma BareScans(c: char, more: string, rest: string, depth: int)
    requires depth >= 1 && !IsQuote(c) && c != '(' && c != ')'
    requires SubstLen(more + rest, depth, None) == Closes(|more|, rest, depth)
    ensures SubstLen(([c] + more) + rest, depth, None) == Closes(1 + |more|, rest, depth)
  {
    Regroup([c], more, rest);
    BodyTurn(c, more + rest, depth);
  }

  lemma NestedScans(inner: string, more: string, rest: string, depth: int)
    requires depth >= 1 && SubstLen(inner + (more + rest), depth + 1, None) == Closes(|inner|, more + rest, depth + 1)
    requires SubstLen(more + rest, depth, None) == Closes(|more|, rest, depth)
    ensures SubstLen(("(" + (inner + more)) + rest, depth, None) == Closes(1 + |inner| + |more|, rest, depth)
  {
    Regroup4("(", inner, more, rest);
    BodyTurn('(', inner + (more + rest), depth);
  }

  /** From inside `depth` parentheses, the body closes one of them. */
  lemma {:induction false} BodyScans(b: Body, rest: string, depth: int)
    requires BodyOk(b) && depth >= 1
    ensures SubstLen(BodyText(b) + rest, depth, None) == Closes(|BodyText(b)|, rest, depth)
    decreases b
  {
    match b
    case Shut => ShutTurn(rest, depth);
    case Bare(c, more) =>
      BodyScans(more, rest, depth);
      BareScans(c, BodyText(more), rest, depth);
    case Hide(q, u, more) =>
      BodyScans(more, rest, depth);
      QuoteScans(q, u, BodyText(more), rest, depth);
      MoreCloses(|u| + 2, |BodyText(more)|, rest, depth);
    case Nested(inner, more) =>
      BodyScans(more, rest, depth);
      BodyScans(inner, BodyText(more) + rest, depth + 1);
      NestedScans(BodyText(inner), BodyText(more), rest, depth);
  }

  lemma SubstScans(b: Body, rest: string, first: bool)
    requires BodyOk(b)
    ensures WordLen(("$(" + BodyText(b)) + rest, first, None, false)
            == Plus(2 + |BodyText(b)|, WordLen(rest, false, None, false))
  {
    var inside := BodyText(b) + rest;
    BodyScans(b, rest, 1);
    BodyTurn('(', inside, 0);
    Skip("(" + BodyText(b), rest);
    Regroup("(", BodyText(b), rest);
    Regroup("$(", BodyText(b), rest);
    SubstTurn(inside, first, 1 + |BodyText(b)|, rest);
  }

  lemma SingleWordScans(u: string, rest: string, first: bool)
    requires '\'' !in u
    ensures WordLen(("'" + (u + "'")) + rest, first, None, false) == Plus(|u| + 2, WordLen(rest, false, None, false))
  {
    Regroup4("'", u, "'", rest);
    OpenTurn('\'', u + ("'" + rest), first);
    SingleScans(u, rest);
  }

  lemma DoubleWordScans(q: Quoted, rest: string, first: bool)
    requires QuotedOk(q)
    ensures WordLen(("\"" + QuotedText(q)) + rest, first, None, false)
            == Plus(|QuotedText(q)| + 1, WordLen(rest, false, None, false))
  {
    Regroup("\"", QuotedText(q), rest);
    OpenTurn('"', QuotedText(q) + rest, first);
    DoubleScans(q, rest);
  }

  lemma PlainScans(c: char, rest: string, first: bool)
    requires PlainOk([c] + rest, first)
    ensures WordLen([c] + rest, first, None, false) == Plus(1, WordLen(rest, false, None, false))
  {
    Skip([c], rest);
    PlainTurn([c] + rest, first);
  }

  lemma HeadScans(w: Word, rest: string, first: bool)
    requires w != End && HeadOk(w, HeadText(w) + rest, first)
    ensures WordLen(HeadText(w) + rest, first, None, false) == Plus(|HeadText(w)|, WordLen(rest, false, None, false))
  {
    match w
    case Plain(c, _) => PlainScans(c, rest, first);
    case Escape(c, _) => PairTurn(c, rest, first, None);
    case Single(u, _) => QuotedHeadScans(w, rest, first);
    case Double(q, _) => QuotedHeadScans(w, rest, first);
    case Subst(body, _) => SubstScans(body, rest, first);
  }

  lemma QuotedHeadScans(w: Word, rest: string, first: bool)
    requires (w.Single? && '\'' !in w.u) || (w.Double? && QuotedOk(w.q))
    ensures WordLen(HeadText(w) + rest, first, None, false) == Plus(|HeadText(w)|, WordLen(rest, false, None, false))
  {
    if w.Single? { SingleWordScans(w.u, rest, first); } else { DoubleWordScans(w.q, rest, first); }
  }

  lemma EndsStops(rest: string, first: bool)
    requires Ends(rest)
    ensures WordLen(rest, first, None, false) == Ok(0)
  {
    OperatorsExactly(rest, false);
    if rest != "" && rest[0] !in " \t\n" {
      assert rest[0] !in "\\'\"" && !StartsSubst(rest);
      assert OpLen(rest, first) > 0;
    }
  }

  lemma EndScans(rest: string, first: bool)
    requires Ends(rest)
    ensures WordLen("" + rest, first, None, false) == Ok(0)
  {
    assert "" + rest == rest;
    EndsStops(rest, first);
  }

  lemma JoinScans(w: Word, rest: string, first: bool)
    requires w != End && HeadOk(w, WordText(w) + rest, first)
    requires WordLen(WordText(w.more) + rest, false, None, false) == Ok(|WordText(w.more)|)
    ensures WordLen(WordText(w) + rest, first, None, false) == Ok(|WordText(w)|)
  {
    Regroup(HeadText(w), WordText(w.more), rest);
    HeadScans(w, WordText(w.more) + rest, first);
  }

  /** A word of the grammar is what the scanner takes for a word. */
  lemma {:induction false} WordScans(w: Word, rest: string, first: bool)
    requires WordOk(w, rest, first) && Ends(rest)
    ensures WordLen(WordText(w) + rest, first, None, false) == Ok(|WordText(w)|)
    decreases w
  {
    if w == End {
      EndScans(rest, first);
    } else {
      WordScans(w.more, rest, false);
      JoinScans(w, rest, first);
    }
  }

  // -------------------------------------------- what scans the grammar writes

  lemma {:induction false} ReadSingle(t: string) returns (u: string, rest: string)
    requires WordLen(t, false, Some('\''), false).Ok?
    ensures '\'' !in u && t == u + ("'" + rest)
  {
    var c, tail := t[0], t[1..];
    assert t == [c] + tail;
    if c == '\'' {
      u, rest := "", tail;
    } else {
      SingleTurn(c, tail);
      u, rest := ReadSingle(tail);
      Regroup([c], u, "'" + rest);
      u := [c] + u;
    }
  }

  lemma {:induction false} ReadDouble(t: string) returns (q: Quoted, rest: string)
    requires WordLen(t, false, Some('"'), false).Ok?
    ensures QuotedOk(q) && t == QuotedText(q) + rest
    decreases |t|
  {
    var c, tail := t[0], t[1..];
    assert t == [c] + tail;
    if c == '\\' {
      q, rest := ReadPair(t);
    } else if c == '"' {
      q, rest := Close, tail;
    } else {
      DoubleTurn(c, tail);
      q, rest := ReadDouble(tail);
      Regroup([c], QuotedText(q), rest);
      q := Char(c, q);
    }
  }

  lemma ReadPair(t: string) returns (q: Quoted, rest: string)
    requires t != "" && t[0] == '\\' && WordLen(t, false, Some('"'), false).Ok?
    ensures QuotedOk(q) && t == QuotedText(q) + rest
    decreases |t|, 0
  {
    assert |t| > 1;
    var c, tail := t[1], t[2..];
    assert t == ['\\', c] + tail;
    PairTurn(c, tail, false, Some('"'));
    q, rest := ReadDouble(tail);
    Regroup(['\\', c], QuotedText(q), rest);
    q := Pair(c, q);
  }

  lemma {:induction false} ReadHidden(t: string, q: char, depth: int) returns (u: string, rest: string)
    requires SubstLen(t, depth, Some(q)).Some?
    ensures q !in u && t == u + ([q] + rest)
  {
    var c, tail := t[0], t[1..];
    assert t == [c] + tail;
    if c == q {
      u, rest := "", tail;
    } else {
      HiddenTurn(c, tail, depth, q);
      u, rest := ReadHidden(tail, q, depth);
      Regroup([c], u, [q] + rest);
      u := [c] + u;
    }
  }

  lemma {:induction false} ReadBody(t: string, depth: int) returns (b: Body, rest: string)
    requires depth >= 1 && SubstLen(t, depth, None).Some?
    ensures BodyOk(b) && t == BodyText(b) + rest
    decreases |t|, 0
  {
    var c, tail := t[0], t[1..];
    assert t == [c] + tail;
    if c == ')' {
      b, rest := Shut, tail;
    } else {
      BodyTurn(c, tail, depth);
      if IsQuote(c) {
        b, rest := ReadQuote(c, tail, depth);
      } else if c == '(' {
        b, rest := ReadNested(tail, depth);
      } else {
        b, rest := ReadBody(tail, depth);
        Regroup([c], BodyText(b), rest);
        b := Bare(c, b);
      }
    }
  }

  lemma ReadQuote(q: char, t: string, depth: int) returns (b: Body, rest: string)
    requires depth >= 1 && IsQuote(q) && SubstLen(t, depth, Some(q)).Some?
    ensures BodyOk(b) && [q] + t == BodyText(b) + rest
    decreases |t|, 1
  {
    var u, after := ReadHidden(t, q, depth);
    HiddenScans(u, q, after, depth);
    b, rest := ReadBody(after, depth);
    QuoteRegroups(q, u, BodyText(b), rest);
    b := Hide(q, u, b);
  }

  lemma ReadNested(t: string, depth: int) returns (b: Body, rest: string)
    requires depth >= 1 && SubstLen(t, depth + 1, None).Some?
    ensures BodyOk(b) && "(" + t == BodyText(b) + rest
    decreases |t|, 1
  {
    var inner, after := ReadBody(t, depth + 1);
    BodyScans(inner, after, depth + 1);
    b, rest := ReadBody(after, depth);
    Regroup4("(", BodyText(inner), BodyText(b), rest);
    b := Nested(inner, b);
  }

  lemma ReadSubst(t: string, first: bool) returns (w: Word, rest: string)
    requires StartsSubst(t) && WordLen(t, first, None, false).Ok?
    ensures w.Subst? && w.more == End && BodyOk(w.body) && t == HeadText(w) + rest
  {
    var inside := t[2..];
    assert t == "$(" + inside && t[1..] == "(" + inside;
    assert SubstLen(t[1..], 0, None).Some?;
    BodyTurn('(', inside, 0);
    var body;
    body, rest := ReadBody(inside, 1);
    Regroup("$(", BodyText(body), rest);
    w := Subst(body, End);
  }

  lemma ReadQuoted(t: string, first: bool) returns (w: Word, rest: string)
    requires t != "" && IsQuote(t[0]) && WordLen(t, first, None, false).Ok?
    ensures w != End && w.more == End && !w.Plain? && HeadOk(w, t, first) && t == HeadText(w) + rest
  {
    var tail := t[1..];
    assert t == [t[0]] + tail;
    OpenTurn(t[0], tail, first);
    if t[0] == '\'' {
      var u;
      u, rest := ReadSingle(tail);
      Regroup4("'", u, "'", rest);
      w := Single(u, End);
    } else {
      var q;
      q, rest := ReadDouble(tail);
      Regroup("\"", QuotedText(q), rest);
      w := Double(q, End);
    }
  }

  lemma ReadPlain(t: string, first: bool)
    requires t != "" && t[0] !in "\\'\"" && !StartsSubst(t) && TurnAt(t, first, None, false).Go?
    ensures PlainOk(t, first)
  {
    OperatorsExactly(t, first);
  }

  /** The first piece of what the scanner takes for a word. */
  lemma ReadHead(t: string, first: bool) returns (w: Word, rest: string)
    requires t != "" && TurnAt(t, first, None, false).Go? && WordLen(t, first, None, false).Ok?
    ensures w != End && w.more == End && HeadOk(w, t, first) && t == HeadText(w) + rest
  {
    if t[0] == '\\' {
      assert t == ['\\', t[1]] + t[2..];
      w, rest := Escape(t[1], End), t[2..];
    } else if IsQuote(t[0]) {
      w, rest := ReadQuoted(t, first);
    } else if StartsSubst(t) {
      w, rest := ReadSubst(t, first);
    } else {
      ReadPlain(t, first);
      assert t == [t[0]] + t[1..];
      w, rest := Plain(t[0], End), t[1..];
    }
  }

  lemma StopsEnds(t: string, first: bool)
    requires t == "" || TurnAt(t, first, None, false).Stop?
    ensures first || Ends(t)
  {
    OperatorsExactly(t, first);
  }

  /** What the scanner takes for a word is one of the grammar, and ends where words end. */
  lemma {:induction false} ReadWord(t: string, first: bool) returns (w: Word, rest: string)
    requires WordLen(t, first, None, false).Ok?
    ensures t == WordText(w) + rest && WordOk(w, rest, first)
    ensures w == End <==> t == "" || TurnAt(t, first, None, false).Stop?
    ensures Ends(rest) || (first && w == End)
    decreases |t|
  {
    if t == "" || TurnAt(t, first, None, false).Stop? {
      w, rest := End, t;
      StopsEnds(t, first);
    } else {
      var head, tail := ReadHead(t, first);
      HeadScans(head, tail, first);
      var more;
      more, rest := ReadWord(tail, false);
      Regroup(HeadText(head), WordText(more), rest);
      w := head.(more := more);
      assert HeadText(w) == HeadText(head);
    }
  }

  // -------------------------------------------------------------- tokens

  lemma OneWay(tok: string, t: string)
    requires t != "" && t[0] !in " \t\n" && TokenAt(tok, t)
    ensures Tokens(t) == Before(tok, Tokens(t[|tok|..]))
  {
    OperatorsExactly(t, true);
    if SomeOperator(t, true) {
      LongestIsTaken(tok, t);
    } else {
      var w :| WordAt(w, tok, t[|tok|..]);
      WordScans(w, t[|tok|..], true);
      assert t == tok + t[|tok|..];
    }
  }

  lemma OtherWay(t: string) returns (tok: string)
    requires t != "" && t[0] !in " \t\n" && Tokens(t).Ok?
    ensures TokenAt(tok, t) && Tokens(t) == Before(tok, Tokens(t[|tok|..]))
  {
    OperatorsExactly(t, true);
    if OpLen(t, true) > 0 {
      tok := t[..OpLen(t, true)];
    } else {
      var w, rest := ReadWord(t, true);
      tok := WordText(w);
      Skip(tok, rest);
      WordScans(w, rest, true);
      assert WordAt(w, tok, t[|tok|..]);
    }
  }

  /** The scanner accepts a text with these tokens exactly when the grammar splits it
      into them; so a text is refused exactly when the grammar has no way to split it. */
  lemma {:induction false} TokensExactly(t: string, toks: seq<string>)
    ensures Tokens(t) == Ok(toks) <==> Splits(t, toks)
    decreases |t|
  {
    if t == "" {
    } else if t[0] in " \t\n" {
      TokensExactly(t[1..], toks);
    } else {
      if Tokens(t).Ok? {
        var tok := OtherWay(t);
        assert Tokens(t).value != [] && Tokens(t).value[0] == tok;
      }
      if toks != [] && TokenAt(toks[0], t) {
        TokensExactly(t[|toks[0]|..], toks[1..]);
        OneTokenOn(t, toks);
      }
    }
  }

  lemma OneTokenOn(t: string, toks: seq<string>)
    requires t != "" && t[0] !in " \t\n" && toks != [] && TokenAt(toks[0], t)
    ensures Tokens(t) == Ok(toks) <==> Tokens(t[|toks[0]|..]) == Ok(toks[1..])
  {
    OneWay(toks[0], t);
    BeforeExactly(toks, Tokens(t[|toks[0]|..]));
  }

  lemma BeforeExactly(toks: seq<string>, r: Result<seq<string>>)
    requires toks != []
    ensures Before(toks[0], r) == Ok(toks) <==> r == Ok(toks[1..])
  {
    assert toks == [toks[0]] + toks[1..];
    if r.Ok? { assert ([toks[0]] + r.value)[1..] == r.value; }
  }

  lemma RefusedExactly(t: string)
    ensures Tokens(t).Err? <==> forall toks :: !Splits(t, toks)
  {
    if Tokens(t).Ok? {
      TokensExactly(t, Tokens(t).value);
    } else {
      forall toks ensures !Splits(t, toks) { TokensExactly(t, toks); }
    }
  }

  // ---------------------------------------- quotes, escapes, substitutions

  lemma WordLeads(w: Word, rest: string)
    requires w != End && WordOk(w, rest, true) && Ends(rest)
    ensures Tokens(WordText(w) + rest) == Before(WordText(w), Tokens(rest))
  {
    var t, n := WordText(w) + rest, |WordText(w)|;
    WordScans(w, rest, true);
    Skip(WordText(w), rest);
    assert t[..n] == WordText(w);
    assert !IsBlank(t[0]) && OpLen(t, true) == 0 by { StartsAsWord(t); }
  }

  lemma StartsAsWord(t: string)
    requires t != "" && WordLen(t, true, None, false).Ok? && WordLen(t, true, None, false).value > 0
    ensures !IsBlank(t[0]) && OpLen(t, true) == 0
  {
  }

  /** Between double quotes everything is one token, blanks and operators included; a
      backslash there keeps the next character, a quote included. */
  lemma DoubleQuotedIsOneToken(q: Quoted, rest: string)
    requires QuotedOk(q) && Ends(rest)
    ensures Tokens(("\"" + QuotedText(q)) + rest) == Before("\"" + QuotedText(q), Tokens(rest))
  {
    var w := Double(q, End);
    assert WordText(w) == HeadText(w) + "";
    assert HeadText(w) + "" == HeadText(w);
    WordLeads(w, rest);
  }

  /** Between single quotes nothing is special, a backslash included. */
  lemma SingleQuotedIsOneToken(u: string, rest: string)
    requires '\'' !in u && Ends(rest)
    ensures Tokens(("'" + (u + "'")) + rest) == Before("'" + (u + "'"), Tokens(rest))
  {
    var w := Single(u, End);
    assert WordText(w) == HeadText(w) + "";
    assert HeadText(w) + "" == HeadText(w);
    WordLeads(w, rest);
  }

  /** Outside quotes an escaped character belongs to the word, whatever it is. */
  lemma EscapeStaysInside(c: char, more: Word, rest: string)
    requires WordOk(more, rest, false) && Ends(rest)
    ensures Tokens((['\\', c] + WordText(more)) + rest) == Before(['\\', c] + WordText(more), Tokens(rest))
  {
    WordLeads(Escape(c, more), rest);
  }

  /** A substitution is one token, whatever it holds. */
  lemma SubstitutionIsOneToken(b: Body, rest: string)
    requires BodyOk(b) && Ends(rest)
    ensures Tokens(("$(" + BodyText(b)) + rest) == Before("$(" + BodyText(b), Tokens(rest))
  {
    var w := Subst(b, End);
    assert WordText(w) == HeadText(w) + "";
    assert HeadText(w) + "" == HeadText(w);
    WordLeads(w, rest);
  }

  /** Which characters of a word are quoted, escaped or inside a substitution. */
  function Shield(w: Word): (s: seq<bool>)
    ensures |s| == |WordText(w)|
  {
    if w == End then [] else seq(|HeadText(w)|, _ => !w.Plain?) + Shield(w.more)
  }

  predicate Ordinary(tok: string, k: nat)
    requires k < |tok|
  {
    tok[k] !in " \t\n\\'\"" && OpLen(tok[k..], k == 0) == 0
  }

  lemma ShorterHasNoOperator(t: string, rest: string, first: bool)
    requires !SomeOperator(t + rest, first)
    ensures OpLen(t, first) == 0
  {
    OperatorsExactly(t, first);
    if OpLen(t, first) > 0 {
      var op := t[..OpLen(t, first)];
      assert OperatorAt(op, t + rest, first);
    }
  }

  /** Every other character is an ordinary one. */
  lemma {:induction false} ExposedIsOrdinary(w: Word, rest: string, first: bool, k: nat)
    requires WordOk(w, rest, first) && k < |WordText(w)| && !Shield(w)[k]
    ensures WordText(w)[k] !in " \t\n\\'\"" && OpLen(WordText(w)[k..], first && k == 0) == 0
    decreases w
  {
    var n := |HeadText(w)|;
    if k < n {
      assert w.Plain? && k == 0;
      PlainIsOrdinary(w, rest, first);
    } else {
      ExposedIsOrdinary(w.more, rest, false, k - n);
      LaterPart(HeadText(w), WordText(w.more), k);
    }
  }

  lemma PlainIsOrdinary(w: Word, rest: string, first: bool)
    requires w.Plain? && WordOk(w, rest, first)
    ensures WordText(w)[0] !in " \t\n\\'\"" && OpLen(WordText(w)[0..], first) == 0
  {
    ShorterHasNoOperator(WordText(w), rest, first);
    assert WordText(w)[0..] == WordText(w) && (WordText(w) + rest)[0] == WordText(w)[0];
  }

  lemma LaterPart(a: string, b: string, k: nat)
    requires |a| <= k < |a| + |b|
    ensures (a + b)[k] == b[k - |a|] && (a + b)[k..] == b[k - |a|..]
  {
  }

  ghost predicate WellShielded(w: Word, tok: string) {
    WordText(w) == tok && forall k: nat :: k < |tok| && !Shield(w)[k] ==> Ordinary(tok, k)
  }

  /** A token is an operator, or a word in which no blank, quote, backslash or operator
      stands open. */
  lemma {:induction false} TokensAreClosed(t: string, toks: seq<string>, i: nat)
    requires Tokens(t) == Ok(toks) && i < |toks|
    ensures Listed(toks[i]) || exists w :: WellShielded(w, toks[i])
    decreases |t|
  {
    TokensExactly(t, toks);
    if t[0] in " \t\n" {
      TokensAreClosed(t[1..], toks, i);
    } else if i > 0 {
      TokensExactly(t[|toks[0]|..], toks[1..]);
      TokensAreClosed(t[|toks[0]|..], toks[1..], i - 1);
    } else if !Listed(toks[0]) {
      var w :| WordAt(w, toks[0], t[|toks[0]|..]);
      forall k: nat | k < |toks[0]| && !Shield(w)[k] ensures Ordinary(toks[0], k) {
        ExposedIsOrdinary(w, t[|toks[0]|..], true, k);
      }
      assert WellShielded(w, toks[0]);
    }
  }
}
