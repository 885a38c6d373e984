/** `tokenize_shell` of src/safety/command_guard.py: a quote-aware scanner that
    keeps quotes, escapes and `$(...)` inside words. */
module ShellLexer {
  import opened Common

  datatype Result<T> = Ok(value: T) | Err(message: string)

  // ------------------------------------------------------------ characters

  predicate IsBlank(c: char) { c == ' ' || c == '\t' || c == '\n' }

  predicate IsQuote(c: char) { c == '\'' || c == '"' }

  predicate At(t: string, i: nat, c: char) { i < |t| && t[i] == c }

  /** Length of the first entry of `_ALL_OPERATORS` the text starts with, or 0:
      `&&`, `||`, `>>`, `<<`, `2>>`, `2>`, `&>`, `|`, `;`, `>`, `<`, `(`, `)`.
      The two that begin with a digit count only where a word may begin. */
  function OpLen(t: string, first: bool): (n: nat)
    ensures n <= |t|
  {
    if At(t, 0, '&') && At(t, 1, '&') then 2
    else if At(t, 0, '|') && At(t, 1, '|') then 2
    else if At(t, 0, '>') && At(t, 1, '>') then 2
    else if At(t, 0, '<') && At(t, 1, '<') then 2
    else if first && At(t, 0, '2') && At(t, 1, '>') && At(t, 2, '>') then 3
    else if first && At(t, 0, '2') && At(t, 1, '>') then 2
    else if At(t, 0, '&') && At(t, 1, '>') then 2
    else if At(t, 0, '|') || At(t, 0, ';') || At(t, 0, '>') || At(t, 0, '<') || At(t, 0, '(') || At(t, 0, ')') then 1
    else 0
  }

  predicate IsOperator(tok: string) { tok != "" && OpLen(tok, true) == |tok| }

  // --------------------------------------------------------- specification

  function Plus(n: nat, r: Result<nat>): Result<nat> {
    match r case Ok(m) => Ok(n + m) case Err(e) => Err(e)
  }

  /** Length of the substitution that starts here, up to the parenthesis that
      closes depth zero. */
  function SubstLen(t: string, depth: int, inner: Option<char>): (k: Option<nat>)
    ensures k.Some? ==> 1 <= k.value <= |t|
  {
    if t == "" then None
    else
      var c := t[0];
      if inner.Some? then Longer(SubstLen(t[1..], depth, if inner == Some(c) then None else inner))
      else if IsQuote(c) then Longer(SubstLen(t[1..], depth, Some(c)))
      else if c == '(' then Longer(SubstLen(t[1..], depth + 1, None))
      else if c == ')' && depth == 1 then Some(1)
      else if c == ')' then Longer(SubstLen(t[1..], depth - 1, None))
      else Longer(SubstLen(t[1..], depth, None))
  }

  function Longer(k: Option<nat>): Option<nat> {
    if k.Some? then Some(k.value + 1) else None
  }

  predicate StartsSubst(t: string) { |t| > 1 && t[0] == '$' && t[1] == '(' }

  /** One turn of the scanning loop inside a word: stop before this character,
      fail, or take `k` characters and go on with this quote and escape state. */
  datatype Turn = Stop | Fail(message: string) | Go(k: nat, quote: Option<char>, escaped: bool)

  function TurnAt(t: string, first: bool, quote: Option<char>, escaped: bool): (m: Turn)
    requires t != ""
    ensures m.Go? ==> 1 <= m.k <= |t|
    ensures m.Stop? ==> quote.None? && !escaped && (IsBlank(t[0]) || OpLen(t, first) > 0)
  {
    var c := t[0];
    if escaped then Go(1, quote, false)
    else if c == '\\' then
      if quote == Some('\'') then Go(1, quote, false)
      else if |t| == 1 then Fail("trailing backslash in command")
      else Go(1, quote, true)
    else if quote.Some? then Go(1, if quote == Some(c) then None else quote, false)
    else if IsQuote(c) then Go(1, Some(c), false)
    else if IsBlank(c) then Stop
    else if StartsSubst(t) then
      match SubstLen(t[1..], 0, None)
      case None => Fail("unclosed $(...) substitution")
      case Some(k) => Go(1 + k, None, false)
    else if OpLen(t, first) > 0 then Stop
    else Go(1, None, false)
  }

  /** How much of the text continues the current word; `first` means the word is
      still empty. */
  function WordLen(t: string, first: bool, quote: Option<char>, escaped: bool): (r: Result<nat>)
    ensures r.Ok? ==> r.value <= |t|
    ensures r.Ok? && (escaped || quote.Some?) ==> r.value > 0
    ensures r.Ok? && t != "" && !IsBlank(t[0]) && OpLen(t, first) == 0 ==> r.value > 0
    decreases |t|
  {
    if t == "" then
      if escaped then Err("trailing backslash in command")
      else if quote.Some? then Err("unclosed quote in command")
      else Ok(0)
    else
      match TurnAt(t, first, quote, escaped)
      case Stop => Ok(0)
      case Fail(e) => Err(e)
      case Go(k, q, e) => Plus(k, WordLen(t[k..], false, q, e))
  }

  function Before(tok: string, r: Result<seq<string>>): Result<seq<string>> {
    match r case Ok(toks) => Ok([tok] + toks) case Err(e) => Err(e)
  }

  function Tokens(t: string): Result<seq<string>>
    decreases |t|
  {
    if t == "" then Ok([])
    else if IsBlank(t[0]) then Tokens(t[1..])
    else if OpLen(t, true) > 0 then Before(t[..OpLen(t, true)], Tokens(t[OpLen(t, true)..]))
    else
      match WordLen(t, true, None, false)
      case Err(e) => Err(e)
      case Ok(n) => Before(t[..n], Tokens(t[n..]))
  }

  // ------------------------------------------------------------- lossless

  /** The text as tokens with blank gaps around them. */
  ghost function Weave(gaps: seq<string>, toks: seq<string>): string
    requires |gaps| == |toks| + 1
  {
    if toks == [] then gaps[0] else gaps[0] + toks[0] + Weave(gaps[1..], toks[1..])
  }

  ghost predicate AllBlank(s: string) { forall i :: 0 <= i < |s| ==> IsBlank(s[i]) }

  lemma Widen(c: char, gaps: seq<string>, toks: seq<string>, t: string)
    requires |gaps| == |toks| + 1 && Weave(gaps, toks) == t
    ensures Weave([[c] + gaps[0]] + gaps[1..], toks) == [c] + t
  {
    var gaps' := [[c] + gaps[0]] + gaps[1..];
    if toks == [] {
    } else {
      assert gaps'[1..] == gaps[1..];
      assert Weave(gaps', toks) == [c] + gaps[0] + toks[0] + Weave(gaps[1..], toks[1..]);
    }
  }

  lemma Lead(tok: string, gaps: seq<string>, toks: seq<string>, t: string)
    requires |gaps| == |toks| + 1 && Weave(gaps, toks) == t
    ensures Weave([""] + gaps, [tok] + toks) == tok + t
  {
    assert ([""] + gaps)[1..] == gaps && ([tok] + toks)[1..] == toks;
  }

  /** The text is its tokens, none empty, with only blanks in between. */
  ghost predicate Fits(gaps: seq<string>, toks: seq<string>, t: string) {
    && |gaps| == |toks| + 1 && Weave(gaps, toks) == t
    && (forall i :: 0 <= i < |gaps| ==> AllBlank(gaps[i]))
    && (forall i :: 0 <= i < |toks| ==> toks[i] != "")
  }

  lemma FitBlank(c: char, gaps: seq<string>, toks: seq<string>, t: string)
    requires IsBlank(c) && Fits(gaps, toks, t)
    ensures Fits([[c] + gaps[0]] + gaps[1..], toks, [c] + t)
  {
    Widen(c, gaps, toks, t);
  }

  lemma FitToken(tok: string, gaps: seq<string>, toks: seq<string>, t: string)
    requires tok != "" && Fits(gaps, toks, t)
    ensures Fits([""] + gaps, [tok] + toks, tok + t)
  {
    Lead(tok, gaps, toks, t);
  }

  /** The first token and the rest of the text, when the text does not start blank. */
  lemma FirstToken(t: string) returns (n: nat)
    requires Tokens(t).Ok? && t != "" && !IsBlank(t[0])
    ensures 0 < n <= |t| && Tokens(t[n..]).Ok? && Tokens(t).value == [t[..n]] + Tokens(t[n..]).value
    ensures t[..n] + t[n..] == t
  {
    n := if OpLen(t, true) > 0 then OpLen(t, true) else WordLen(t, true, None, false).value;
  }

  /** Every accepted text is exactly its tokens, none empty, with only blanks
      between them: nothing is dropped, added, reordered or split in quotes. */
  lemma {:induction false} TokensAreLossless(t: string) returns (gaps: seq<string>)
    requires Tokens(t).Ok?
    ensures Fits(gaps, Tokens(t).value, t)
    decreases |t|
  {
    if t == "" {
      gaps := [""];
    } else if IsBlank(t[0]) {
      var rest := TokensAreLossless(t[1..]);
      FitBlank(t[0], rest, Tokens(t[1..]).value, t[1..]);
      gaps := [[t[0]] + rest[0]] + rest[1..];
      assert [t[0]] + t[1..] == t;
    } else {
      var n := FirstToken(t);
      var rest := TokensAreLossless(t[n..]);
      FitToken(t[..n], rest, Tokens(t[n..]).value, t[n..]);
      gaps := [""] + rest;
    }
  }

  function Unblanked(s: string): string {
    if s == "" then "" else (if IsBlank(s[0]) then "" else [s[0]]) + Unblanked(s[1..])
  }

  function Concatenated(toks: seq<string>): string {
    if toks == [] then "" else toks[0] + Concatenated(toks[1..])
  }

  lemma {:induction false} UnblankedConcat(a: string, b: string)
    ensures Unblanked(a + b) == Unblanked(a) + Unblanked(b)
  {
    if a == "" {
      assert a + b == b;
    } else {
      assert (a + b)[1..] == a[1..] + b;
      UnblankedConcat(a[1..], b);
    }
  }

  lemma {:induction false} UnblankedBlank(s: string)
    requires AllBlank(s)
    ensures Unblanked(s) == ""
  {
    if s != "" {
      forall i | 0 <= i < |s[1..]| ensures IsBlank(s[1..][i]) { assert s[1..][i] == s[i + 1]; }
      UnblankedBlank(s[1..]);
    }
  }

  lemma {:induction false} UnblankedWeave(gaps: seq<string>, toks: seq<string>)
    requires |gaps| == |toks| + 1 && forall i :: 0 <= i < |gaps| ==> AllBlank(gaps[i])
    ensures Unblanked(Weave(gaps, toks)) == Unblanked(Concatenated(toks))
  {
    UnblankedBlank(gaps[0]);
    if toks != [] {
      var tail := Weave(gaps[1..], toks[1..]);
      UnblankedWeave(gaps[1..], toks[1..]);
      UnblankedConcat(gaps[0] + toks[0], tail);
      UnblankedConcat(gaps[0], toks[0]);
      UnblankedConcat(toks[0], Concatenated(toks[1..]));
    }
  }

  /** Blanks aside, the tokens concatenated are the text. */
  lemma TokensKeepEveryCharacter(t: string)
    requires Tokens(t).Ok?
    ensures Unblanked(Concatenated(Tokens(t).value)) == Unblanked(t)
  {
    var gaps := TokensAreLossless(t);
    UnblankedWeave(gaps, Tokens(t).value);
  }

  // --------------------------------------------- words stand on their own

  /** A text that scans as one whole word. */
  predicate Solid(w: string) {
    w != "" && !IsBlank(w[0]) && OpLen(w, true) == 0 && WordLen(w, true, None, false) == Ok(|w|)
  }

  /** What the canonical printer puts after a word. */
  predicate Boundary(rest: string) { rest == "" || rest[0] == ' ' || rest[0] == ')' }

  lemma {:induction false} SubstLocal(t: string, depth: int, inner: Option<char>, k: nat, n: nat)
    requires SubstLen(t, depth, inner) == Some(k) && k <= n <= |t|
    ensures SubstLen(t[..n], depth, inner) == Some(k)
    decreases |t|
  {
    var c := t[0];
    assert t[..n][1..] == t[1..][..n - 1];
    if inner.Some? {
      SubstLocal(t[1..], depth, if inner == Some(c) then None else inner, k - 1, n - 1);
    } else if IsQuote(c) {
      SubstLocal(t[1..], depth, Some(c), k - 1, n - 1);
    } else if c == '(' {
      SubstLocal(t[1..], depth + 1, None, k - 1, n - 1);
    } else if c == ')' && depth != 1 {
      SubstLocal(t[1..], depth - 1, None, k - 1, n - 1);
    } else if c != ')' {
      SubstLocal(t[1..], depth, None, k - 1, n - 1);
    }
  }

  lemma {:induction false} SubstExtends(t: string, rest: string, depth: int, inner: Option<char>)
    requires SubstLen(t, depth, inner).Some?
    ensures SubstLen(t + rest, depth, inner) == SubstLen(t, depth, inner)
    decreases |t|
  {
    var c := t[0];
    assert (t + rest)[1..] == t[1..] + rest;
    if inner.Some? {
      SubstExtends(t[1..], rest, depth, if inner == Some(c) then None else inner);
    } else if IsQuote(c) {
      SubstExtends(t[1..], rest, depth, Some(c));
    } else if c == '(' {
      SubstExtends(t[1..], rest, depth + 1, None);
    } else if c == ')' && depth != 1 {
      SubstExtends(t[1..], rest, depth - 1, None);
    } else if c != ')' {
      SubstExtends(t[1..], rest, depth, None);
    }
  }

  lemma TurnLocal(t: string, first: bool, quote: Option<char>, escaped: bool, n: nat)
    requires t != "" && TurnAt(t, first, quote, escaped).Go? && n <= |t|
    requires TurnAt(t, first, quote, escaped).k + (if TurnAt(t, first, quote, escaped).escaped then 1 else 0) <= n
    ensures TurnAt(t[..n], first, quote, escaped) == TurnAt(t, first, quote, escaped)
  {
    if StartsSubst(t) && n > 1 {
      assert t[..n][1..] == t[1..][..n - 1];
      if SubstLen(t[1..], 0, None).Some? && SubstLen(t[1..], 0, None).value <= n - 1 {
        SubstLocal(t[1..], 0, None, SubstLen(t[1..], 0, None).value, n - 1);
      }
    }
  }

  lemma CutSkip(t: string, k: nat, n: nat)
    requires k <= n <= |t|
    ensures t[..n][k..] == t[k..][..n - k]
  {
  }

  /** A word scans the same when cut off from what follows it. */
  lemma {:induction false} WordLocal(t: string, first: bool, quote: Option<char>, escaped: bool, n: nat)
    requires WordLen(t, first, quote, escaped) == Ok(n)
    ensures WordLen(t[..n], first, quote, escaped) == Ok(n)
    decreases |t|
  {
    if n > 0 {
      var m := TurnAt(t, first, quote, escaped);
      WordLocal(t[m.k..], false, m.quote, m.escaped, n - m.k);
      TurnLocal(t, first, quote, escaped, n);
      CutSkip(t, m.k, n);
    }
  }

  lemma TurnInContext(w: string, rest: string, first: bool, quote: Option<char>, escaped: bool)
    requires w != "" && TurnAt(w, first, quote, escaped).Go? && Boundary(rest)
    ensures TurnAt(w + rest, first, quote, escaped) == TurnAt(w, first, quote, escaped)
  {
    var t := w + rest;
    assert t[1..] == w[1..] + rest;
    if SubstLen(w[1..], 0, None).Some? {
      SubstExtends(w[1..], rest, 0, None);
    }
  }

  lemma SkipConcat(w: string, rest: string, k: nat)
    requires k <= |w|
    ensures (w + rest)[k..] == w[k..] + rest
  {
  }

  lemma BoundaryStops(rest: string, first: bool)
    requires Boundary(rest)
    ensures WordLen(rest, first, None, false) == Ok(0)
  {
    if rest != "" {
      assert TurnAt(rest, first, None, false) == Stop;
    }
  }

  /** A whole word scans the same when a boundary follows it. */
  lemma {:induction false} WordInContext(w: string, rest: string, first: bool, quote: Option<char>, escaped: bool)
    requires WordLen(w, first, quote, escaped) == Ok(|w|) && Boundary(rest)
    ensures WordLen(w + rest, first, quote, escaped) == Ok(|w|)
    decreases |w|
  {
    if w == "" {
      assert w + rest == rest;
      BoundaryStops(rest, first);
    } else {
      var m := TurnAt(w, first, quote, escaped);
      TurnInContext(w, rest, first, quote, escaped);
      SkipConcat(w, rest, m.k);
      WordInContext(w[m.k..], rest, false, m.quote, m.escaped);
    }
  }

  lemma SolidLeads(w: string, rest: string)
    requires Solid(w) && Boundary(rest)
    ensures Tokens(w + rest) == Before(w, Tokens(rest))
  {
    WordInContext(w, rest, true, None, false);
    assert OpLen(w + rest, true) == 0;
    assert (w + rest)[..|w|] == w && (w + rest)[|w|..] == rest;
  }

  lemma OperatorLeads(op: string, rest: string)
    requires IsOperator(op) && (op == "(" || op == ")" || Boundary(rest))
    ensures Tokens(op + rest) == Before(op, Tokens(rest))
  {
    var t := op + rest;
    assert OpLen(t, true) == |op|;
    assert t[..|op|] == op && t[|op|..] == rest;
  }

  /** Every token is an operator or a word that scans as itself. */
  lemma {:induction false} TokensAreSolid(t: string)
    requires Tokens(t).Ok?
    ensures forall i :: 0 <= i < |Tokens(t).value| ==> IsOperator(Tokens(t).value[i]) || Solid(Tokens(t).value[i])
    decreases |t|
  {
    if t != "" {
      if IsBlank(t[0]) {
        TokensAreSolid(t[1..]);
      } else if OpLen(t, true) > 0 {
        var n := OpLen(t, true);
        TokensAreSolid(t[n..]);
        assert OpLen(t[..n], true) == n;
      } else {
        var n := WordLen(t, true, None, false).value;
        TokensAreSolid(t[n..]);
        WordLocal(t, true, None, false, n);
        assert OpLen(t[..n], true) == 0;
      }
    }
  }

  // ------------------------------------------------------ the scanning loop

  /** What remains to be produced with `buf` already read of the current word. */
  function Resume(buf: string, rest: string, quote: Option<char>, escaped: bool): Result<seq<string>> {
    if buf == "" then Tokens(rest)
    else
      match WordLen(rest, false, quote, escaped)
      case Err(e) => Err(e)
      case Ok(n) => Before(buf + rest[..n], Tokens(rest[n..]))
  }

  function After(toks: seq<string>, r: Result<seq<string>>): Result<seq<string>> {
    match r case Ok(more) => Ok(toks + more) case Err(e) => Err(e)
  }

  lemma WordGrows(rest: string, k: nat, n: nat)
    requires k + n <= |rest|
    ensures rest[..k] + rest[k..][..n] == rest[..k + n] && rest[k..][n..] == rest[k + n..]
  {
  }

  lemma ResumeGo(buf: string, rest: string, quote: Option<char>, escaped: bool)
    requires rest != "" && TurnAt(rest, buf == "", quote, escaped).Go?
    requires buf == "" ==> quote.None? && !escaped
    ensures var m := TurnAt(rest, buf == "", quote, escaped);
            Resume(buf, rest, quote, escaped) == Resume(buf + rest[..m.k], rest[m.k..], m.quote, m.escaped)
  {
    if buf == "" { ResumeFirst(rest); } else { ResumeLater(buf, rest, quote, escaped); }
  }

  lemma ResumeFirst(rest: string)
    requires rest != "" && TurnAt(rest, true, None, false).Go?
    ensures var m := TurnAt(rest, true, None, false);
            Resume("", rest, None, false) == Resume("" + rest[..m.k], rest[m.k..], m.quote, m.escaped)
  {
    var m := TurnAt(rest, true, None, false);
    var r := WordLen(rest[m.k..], false, m.quote, m.escaped);
    assert WordLen(rest, true, None, false) == Plus(m.k, r);
    Associate("", rest[..m.k], "");
    StartsWord(rest);
    if r.Ok? { WordGrows(rest, m.k, r.value); }
  }

  lemma ResumeLater(buf: string, rest: string, quote: Option<char>, escaped: bool)
    requires buf != "" && rest != "" && TurnAt(rest, false, quote, escaped).Go?
    ensures var m := TurnAt(rest, false, quote, escaped);
            Resume(buf, rest, quote, escaped) == Resume(buf + rest[..m.k], rest[m.k..], m.quote, m.escaped)
  {
    var m := TurnAt(rest, false, quote, escaped);
    var r := WordLen(rest[m.k..], false, m.quote, m.escaped);
    assert WordLen(rest, false, quote, escaped) == Plus(m.k, r);
    if r.Ok? {
      WordGrows(rest, m.k, r.value);
      Associate(buf, rest[..m.k], rest[m.k..][..r.value]);
    }
  }

  lemma StartsWord(rest: string)
    requires rest != "" && TurnAt(rest, true, None, false).Go?
    ensures !IsBlank(rest[0]) && OpLen(rest, true) == 0
  {
  }

  lemma Associate(a: string, b: string, c: string)
    ensures (a + b) + c == a + (b + c)
    ensures a == "" ==> a + b == b
  {
  }

  lemma ResumeFail(buf: string, rest: string, quote: Option<char>, escaped: bool)
    requires rest != "" && TurnAt(rest, buf == "", quote, escaped).Fail?
    requires buf == "" ==> quote.None? && !escaped
    ensures Resume(buf, rest, quote, escaped) == Err(TurnAt(rest, buf == "", quote, escaped).message)
  {
  }

  /** The pending word, if any, followed by what a fresh scan of `rest` gives. */
  lemma ResumeStop(buf: string, rest: string)
    requires rest != "" && TurnAt(rest, buf == "", None, false).Stop?
    ensures Resume(buf, rest, None, false) == if buf == "" then Tokens(rest) else Before(buf, Tokens(rest))
  {
    if buf != "" {
      assert buf + rest[..0] == buf && rest[0..] == rest;
    }
  }

  function Flushed(toks: seq<string>, buf: string): seq<string> {
    if buf == "" then toks else toks + [buf]
  }

  lemma FlushThen(toks: seq<string>, buf: string, tok: string, more: Result<seq<string>>)
    ensures After(toks, if buf == "" then more else Before(buf, more)) == After(Flushed(toks, buf), more)
    ensures After(toks, Before(tok, more)) == After(toks + [tok], more)
  {
    if more.Ok? {
      assert toks + ([buf] + more.value) == toks + [buf] + more.value;
      assert toks + ([tok] + more.value) == toks + [tok] + more.value;
    }
  }

  /** The inner loop of the scanner: from an opening `$(` to its end. */
  method FindSubstEnd(text: string, start: nat) returns (end: Option<nat>)
    requires start < |text|
    ensures end == match SubstLen(text[start..], 0, None) case None => None case Some(k) => Some(start + k)
  {
    var depth, j := 0, start;
    var inner: Option<char> := None;
    while j < |text|
      invariant start <= j <= |text|
      invariant SubstLen(text[start..], 0, None)
                == match SubstLen(text[j..], depth, inner) case None => None case Some(k) => Some(j - start + k)
    {
      var c := text[j];
      assert text[j..][1..] == text[j + 1..];
      j := j + 1;
      if inner.Some? {
        if inner == Some(c) { inner := None; }
      } else if IsQuote(c) {
        inner := Some(c);
      } else if c == '(' {
        depth := depth + 1;
      } else if c == ')' {
        depth := depth - 1;
        if depth == 0 { return Some(j); }
      }
    }
    end := None;
  }

  /** What the loop keeps: the tokens so far and the rest of the text still give
      the tokens of the whole. */
  ghost predicate OnTrack(text: string, i: nat, tokens: seq<string>, buf: string, quote: Option<char>, escaped: bool) {
    && i <= |text| && (buf == "" ==> quote.None? && !escaped) && (escaped ==> i < |text|)
    && After(tokens, Resume(buf, text[i..], quote, escaped)) == Tokens(text)
  }

  lemma TakeChars(text: string, i: nat, tokens: seq<string>, buf: string, quote: Option<char>, escaped: bool,
                  k: nat, quote': Option<char>, escaped': bool)
    requires i < |text| && OnTrack(text, i, tokens, buf, quote, escaped)
    requires TurnAt(text[i..], buf == "", quote, escaped) == Go(k, quote', escaped')
    ensures i + k <= |text| && OnTrack(text, i + k, tokens, buf + text[i..i + k], quote', escaped')
  {
    ResumeGo(buf, text[i..], quote, escaped);
    assert text[i..][..k] == text[i..i + k] && text[i..][k..] == text[i + k..];
  }

  lemma FlushWord(text: string, i: nat, tokens: seq<string>, buf: string)
    requires i < |text| && OnTrack(text, i, tokens, buf, None, false)
    requires TurnAt(text[i..], buf == "", None, false).Stop?
    ensures After(Flushed(tokens, buf), Tokens(text[i..])) == Tokens(text)
  {
    ResumeStop(buf, text[i..]);
    FlushThen(tokens, buf, "", Tokens(text[i..]));
  }

  lemma SkipBlank(text: string, i: nat, tokens: seq<string>, buf: string)
    requires i < |text| && IsBlank(text[i]) && OnTrack(text, i, tokens, buf, None, false)
    ensures OnTrack(text, i + 1, Flushed(tokens, buf), "", None, false)
  {
    FlushWord(text, i, tokens, buf);
    assert text[i..][1..] == text[i + 1..];
  }

  lemma TakeOperator(text: string, i: nat, tokens: seq<string>, buf: string, n: nat)
    requires i < |text| && OnTrack(text, i, tokens, buf, None, false)
    requires n == OpLen(text[i..], buf == "") && n > 0 && !StartsSubst(text[i..])
    ensures i + n <= |text|
    ensures OnTrack(text, i + n, Flushed(tokens, buf) + [text[i..i + n]], "", None, false)
  {
    var rest := text[i..];
    assert TurnAt(rest, buf == "", None, false).Stop?;
    FlushWord(text, i, tokens, buf);
    assert OpLen(rest, true) == n && rest[..n] == text[i..i + n] && rest[n..] == text[i + n..];
    FlushThen(Flushed(tokens, buf), "", text[i..i + n], Tokens(text[i + n..]));
  }

  lemma FailAt(text: string, i: nat, tokens: seq<string>, buf: string, quote: Option<char>, escaped: bool)
    requires i < |text| && OnTrack(text, i, tokens, buf, quote, escaped)
    requires TurnAt(text[i..], buf == "", quote, escaped).Fail?
    ensures Tokens(text) == Err(TurnAt(text[i..], buf == "", quote, escaped).message)
  {
    ResumeFail(buf, text[i..], quote, escaped);
  }

  lemma ResumeAtEnd(buf: string, quote: Option<char>)
    requires buf == "" ==> quote.None?
    ensures Resume(buf, "", quote, false)
            == if quote.Some? then Err("unclosed quote in command") else Ok(if buf == "" then [] else [buf])
  {
    if buf != "" && quote.None? {
      assert WordLen("", false, None, false) == Ok(0);
      Associate(buf, "", "");
      assert buf + ""[..0] == buf;
      assert Before(buf, Tokens("")) == Ok([buf] + []);
      assert [buf] + [] == [buf];
    }
  }

  lemma EndOfText(text: string, tokens: seq<string>, buf: string, quote: Option<char>)
    requires OnTrack(text, |text|, tokens, buf, quote, false)
    ensures Tokens(text) == if quote.Some? then Err("unclosed quote in command") else Ok(Flushed(tokens, buf))
  {
    var rest := text[|text|..];
    assert rest == "";
    ResumeAtEnd(buf, quote);
    assert tokens + [] == tokens;
  }

  lemma StartOfText(text: string)
    ensures OnTrack(text, 0, [], "", None, false)
  {
    assert text[0..] == text;
    if Tokens(text).Ok? {
      assert [] + Tokens(text).value == Tokens(text).value;
    }
  }

  /** The branches of the scanning loop that look at one character. */
  method NextTurn(text: string, i: nat, first: bool, quote: Option<char>, escaped: bool) returns (m: Turn)
    requires i < |text|
    ensures m == TurnAt(text[i..], first, quote, escaped)
  {
    var c := text[i];
    ghost var rest := text[i..];
    assert rest[0] == c;
    if escaped {
      return Go(1, quote, false);
    }
    if c == '\\' {
      if quote == Some('\'') { return Go(1, quote, false); }
      if i + 1 >= |text| { return Fail("trailing backslash in command"); }
      return Go(1, quote, true);
    }
    if quote.Some? {
      return Go(1, if quote == Some(c) then None else quote, false);
    }
    if IsQuote(c) {
      return Go(1, Some(c), false);
    }
    if IsBlank(c) {
      return Stop;
    }
    if i + 1 < |text| && c == '$' && text[i + 1] == '(' {
      assert rest[1..] == text[i + 1..];
      var end := FindSubstEnd(text, i + 1);
      if end.None? { return Fail("unclosed $(...) substitution"); }
      return Go(end.value - i, None, false);
    }
    if OpLen(text[i..], first) > 0 {
      return Stop;
    }
    return Go(1, None, false);
  }

  /** A blank or an operator: flush the word, and keep the operator as a token. */
  method EndWord(text: string, i: nat, tokens: seq<string>, buf: string) returns (tokens': seq<string>, i': nat)
    requires i < |text| && OnTrack(text, i, tokens, buf, None, false)
    requires TurnAt(text[i..], buf == "", None, false).Stop?
    ensures i < i' <= |text| && OnTrack(text, i', tokens', "", None, false)
  {
    assert text[i..][0] == text[i];
    if IsBlank(text[i]) {
      SkipBlank(text, i, tokens, buf);
      return Flushed(tokens, buf), i + 1;
    }
    var n := OpLen(text[i..], buf == "");
    TakeOperator(text, i, tokens, buf, n);
    return Flushed(tokens, buf) + [text[i..i + n]], i + n;
  }

  /** One turn of the loop: the new position and buffers, or the syntax error. */
  method Advance(text: string, i: nat, tokens: seq<string>, buf: string, quote: Option<char>, escaped: bool)
    returns (failed: Option<string>, i': nat, tokens': seq<string>, buf': string, quote': Option<char>, escaped': bool)
    requires i < |text| && OnTrack(text, i, tokens, buf, quote, escaped)
    ensures failed.Some? ==> Tokens(text) == Err(failed.value)
    ensures failed.None? ==> i < i' <= |text| && OnTrack(text, i', tokens', buf', quote', escaped')
  {
    failed, i', tokens', buf', quote', escaped' := None, i, tokens, buf, quote, escaped;
    var m := NextTurn(text, i, buf == "", quote, escaped);
    match m
    case Fail(message) =>
      FailAt(text, i, tokens, buf, quote, escaped);
      failed := Some(message);
    case Go(k, q, e) =>
      TakeChars(text, i, tokens, buf, quote, escaped, k, q, e);
      i', buf', quote', escaped' := i + k, buf + text[i..i + k], q, e;
    case Stop =>
      tokens', i' := EndWord(text, i, tokens, buf);
      buf' := "";
  }

  /** `tokenize_shell`. */
  method Tokenize(text: string) returns (r: Result<seq<string>>)
    ensures r == Tokens(text)
  {
    var tokens: seq<string>, buf, i := [], "", 0;
    var quote: Option<char>, escaped := None, false;
    StartOfText(text);
    while i < |text|
      invariant 0 <= i <= |text| && OnTrack(text, i, tokens, buf, quote, escaped)
    {
      var failed;
      failed, i, tokens, buf, quote, escaped := Advance(text, i, tokens, buf, quote, escaped);
      if failed.Some? {
        return Err(failed.value);
      }
    }
    EndOfText(text, tokens, buf, quote);
    r := if quote.Some? then Err("unclosed quote in command") else Ok(Flushed(tokens, buf));
  }
}
