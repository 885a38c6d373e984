/** Redirection targets as `canonical_command` prints them (src/safety/command_guard.py):
    stripped of white space at the end, which may leave an escape open. */
module ShellTargets {
  import opened Common
  import opened ShellLexer
  import opened ShellParser
  import opened ShellPrinter

  predicate Spaces(v: string) { forall i :: 0 <= i < |v| ==> IsSpace(v[i]) }

  lemma {:induction false} StripRightShape(t: string)
    ensures |StripRight(t)| <= |t| && StripRight(t) == t[..|StripRight(t)|] && Spaces(t[|StripRight(t)|..])
    ensures StripRight(t) != "" ==> !IsSpace(StripRight(t)[|StripRight(t)| - 1])
    ensures StripRight(t) == t <==> t == "" || !IsSpace(t[|t| - 1])
  {
    if t != "" && IsSpace(t[|t| - 1]) {
      var init, n := t[..|t| - 1], |StripRight(t)|;
      StripRightShape(init);
      assert t[..n] == init[..n];
      forall i | 0 <= i < |t[n..]| ensures IsSpace(t[n..][i]) {
        if i < |init| - n { assert t[n..][i] == init[n..][i]; }
      }
    } else {
      assert t[|t|..] == "";
    }
  }

  /** What stripping leaves of a target. */
  function Core(t: string): (r: string)
    ensures |r| <= |t|
  {
    StripRightShape(t);
    StripRight(t)
  }

  lemma {:induction false} StripAll(t: string)
    requires Spaces(t)
    ensures Strip(t) == ""
    decreases |t|
  {
    if t != "" { StripAll(t[1..]); }
  }

  lemma CoreOf(t: string)
    requires Strip(t) != ""
    ensures Core(t) != "" && !IsSpace(Core(t)[|Core(t)| - 1]) && |Core(t)| <= |t|
    ensures t == Core(t) + t[|Core(t)|..] && Spaces(t[|Core(t)|..])
    ensures Core(t) == t <==> !IsSpace(t[|t| - 1])
  {
    StripRightShape(t);
    if Core(t) == "" {
      assert t[0..] == t;
      StripAll(t);
    }
  }

  lemma {:induction false} StripRightTail(a: string, t: string)
    requires Core(t) != ""
    ensures StripRight(a + t) == a + Core(t)
    decreases |t|
  {
    if t != "" && IsSpace(t[|t| - 1]) {
      StripRightTail(a, t[..|t| - 1]);
      assert (a + t)[..|a + t| - 1] == a + t[..|t| - 1];
    }
  }

  // ---------------------------------------------- scanning what is left

  lemma {:induction false} SubstEndsInParen(t: string, depth: int, inner: Option<char>)
    requires SubstLen(t, depth, inner).Some?
    ensures t[SubstLen(t, depth, inner).value - 1] == ')'
    decreases |t|
  {
    var c := t[0];
    if inner.Some? {
      SubstEndsInParen(t[1..], depth, if inner == Some(c) then None else inner);
    } else if IsQuote(c) {
      SubstEndsInParen(t[1..], depth, Some(c));
    } else if c == '(' {
      SubstEndsInParen(t[1..], depth + 1, None);
    } else if c == ')' && depth != 1 {
      SubstEndsInParen(t[1..], depth - 1, None);
    } else if c != ')' {
      SubstEndsInParen(t[1..], depth, None);
    }
  }

  predicate QuoteOk(q: Option<char>) { q.Some? ==> IsQuote(q.value) }

  lemma TurnFacts(t: string, first: bool, q: Option<char>, e: bool)
    requires t != "" && TurnAt(t, first, q, e).Go? && QuoteOk(q)
    ensures QuoteOk(TurnAt(t, first, q, e).quote)
    ensures TurnAt(t, first, q, e).k > 1 ==> t[TurnAt(t, first, q, e).k - 1] == ')'
    ensures TurnAt(t, first, q, e).escaped ==> TurnAt(t, first, q, e) == Go(1, q, true) && t[0] == '\\' && !e && q != Some('\'')
  {
    if StartsSubst(t) && SubstLen(t[1..], 0, None).Some? { SubstEndsInParen(t[1..], 0, None); }
  }

  /** One turn in front of white space is the same turn in front of a boundary, unless
      it opens an escape at the very end. */
  lemma TurnCarries(u: string, v: string, rest: string, first: bool, q: Option<char>, e: bool)
    requires u != "" && !IsSpace(u[|u| - 1]) && Spaces(v) && Boundary(rest) && QuoteOk(q)
    requires TurnAt(u + v, first, q, e).Go?
    ensures var m := TurnAt(u + v, first, q, e);
            && m.k <= |u|
            && (!(m.escaped && |u| == 1) ==> TurnAt(u, first, q, e) == m && TurnAt(u + rest, first, q, e) == m)
            && (m.escaped && |u| == 1 ==> m == Go(1, q, true) && u == "\\" && TurnAt(u, first, q, e) == Fail("trailing backslash in command")
                                          && (rest != "" ==> TurnAt(u + rest, first, q, e) == m))
  {
    var m := TurnAt(u + v, first, q, e);
    TurnFacts(u + v, first, q, e);
    assert forall i :: |u| <= i < |u + v| ==> IsSpace((u + v)[i]);
    if m.escaped && |u| == 1 {
      assert u == "\\";
    } else {
      TurnLocal(u + v, first, q, e, |u|);
      assert (u + v)[..|u|] == u;
      TurnInContext(u, rest, first, q, e);
    }
  }

  lemma WordTurn(t: string, first: bool, q: Option<char>, e: bool, m: Turn)
    requires t != "" && m.Go? && TurnAt(t, first, q, e) == m
    ensures WordLen(t, first, q, e) == Plus(m.k, WordLen(t[m.k..], false, m.quote, m.escaped))
  {
  }

  lemma PlusPlus(j: nat, k: nat, r: Result<nat>)
    ensures Plus(j, Plus(k, r)) == Plus(j + k, r)
  {
  }

  /** A text that goes on after `k` characters as another one does. */
  lemma TurnThen(t: string, first: bool, q: Option<char>, e: bool, m: Turn, after: string, n: nat, r: Result<nat>)
    requires t != "" && m.Go? && TurnAt(t, first, q, e) == m && t[m.k..] == after
    requires WordLen(after, false, m.quote, m.escaped) == Plus(n, r)
    ensures WordLen(t, first, q, e) == Plus(m.k + n, r)
  {
    WordTurn(t, first, q, e, m);
    PlusPlus(m.k, n, r);
  }

  /** The last character of `u` opens an escape. */
  lemma CarryEscape(u: string, v: string, rest: string, first: bool, q: Option<char>, e: bool)
    requires u == "\\" && TurnAt(u + v, first, q, e) == Go(1, q, true)
    requires WordLen(u + v, first, q, e) == Ok(|u + v|)
    requires TurnAt(u, first, q, e) == Fail("trailing backslash in command")
    requires rest != "" ==> TurnAt(u + rest, first, q, e) == Go(1, q, true)
    ensures WordLen(v, false, q, true) == Ok(|v|)
    ensures WordLen(u + rest, first, q, e) == Plus(1, WordLen(rest, false, q, true))
    ensures WordLen(u, first, q, e) == Plus(1, WordLen("", false, q, true))
  {
    WordTurn(u + v, first, q, e, Go(1, q, true));
    assert (u + v)[1..] == v && (u + rest)[1..] == rest;
    if rest != "" { WordTurn(u + rest, first, q, e, Go(1, q, true)); } else { assert u + rest == u; }
  }

  /** The state in which the scanner leaves `u`, read off in front of white space, is its
      state in front of a boundary and at the end of the text. */
  lemma {:induction false} Carry(u: string, v: string, rest: string, first: bool, q: Option<char>, e: bool)
    returns (q': Option<char>, e': bool)
    requires WordLen(u + v, first, q, e) == Ok(|u + v|) && Spaces(v) && Boundary(rest) && QuoteOk(q)
    requires u != "" ==> !IsSpace(u[|u| - 1])
    ensures QuoteOk(q') && WordLen(v, first && u == "", q', e') == Ok(|v|)
    ensures WordLen(u + rest, first, q, e) == Plus(|u|, WordLen(rest, first && u == "", q', e'))
    ensures WordLen(u, first, q, e) == Plus(|u|, WordLen("", first && u == "", q', e'))
    decreases |u|
  {
    if u == "" {
      q', e' := q, e;
      assert u + v == v && u + rest == rest;
    } else {
      var m := TurnAt(u + v, first, q, e);
      TurnFacts(u + v, first, q, e);
      TurnCarries(u, v, rest, first, q, e);
      if m.escaped && |u| == 1 {
        CarryEscape(u, v, rest, first, q, e);
        q', e' := q, true;
      } else {
        q', e' := CarryOn(u, v, rest, first, q, e, m);
      }
    }
  }

  lemma TailScans(u: string, v: string, first: bool, q: Option<char>, e: bool, m: Turn)
    requires WordLen(u + v, first, q, e) == Ok(|u + v|) && u != "" && m.Go? && 1 <= m.k <= |u| && TurnAt(u + v, first, q, e) == m
    requires !IsSpace(u[|u| - 1])
    ensures WordLen(u[m.k..] + v, false, m.quote, m.escaped) == Ok(|u[m.k..] + v|)
    ensures u[m.k..] != "" ==> !IsSpace(u[m.k..][|u[m.k..]| - 1])
  {
    SkipConcat(u, v, m.k);
    WordTurn(u + v, first, q, e, m);
  }

  lemma CarryJoin(u: string, rest: string, first: bool, q: Option<char>, e: bool, m: Turn, q': Option<char>, e': bool)
    requires u != "" && m.Go? && 1 <= m.k <= |u| && TurnAt(u + rest, first, q, e) == m
    requires WordLen(u[m.k..] + rest, false, m.quote, m.escaped) == Plus(|u[m.k..]|, WordLen(rest, false, q', e'))
    ensures WordLen(u + rest, first, q, e) == Plus(|u|, WordLen(rest, false, q', e'))
  {
    SkipConcat(u, rest, m.k);
    TurnThen(u + rest, first, q, e, m, u[m.k..] + rest, |u[m.k..]|, WordLen(rest, false, q', e'));
  }

  lemma CarryOn(u: string, v: string, rest: string, first: bool, q: Option<char>, e: bool, m: Turn)
    returns (q': Option<char>, e': bool)
    requires WordLen(u + v, first, q, e) == Ok(|u + v|) && Spaces(v) && Boundary(rest)
    requires u != "" && !IsSpace(u[|u| - 1]) && m.Go? && QuoteOk(m.quote) && 1 <= m.k <= |u|
    requires TurnAt(u + v, first, q, e) == m && TurnAt(u, first, q, e) == m && TurnAt(u + rest, first, q, e) == m
    ensures QuoteOk(q') && WordLen(v, false, q', e') == Ok(|v|)
    ensures WordLen(u + rest, first, q, e) == Plus(|u|, WordLen(rest, false, q', e'))
    ensures WordLen(u, first, q, e) == Plus(|u|, WordLen("", false, q', e'))
    decreases |u|, 0
  {
    var tail := u[m.k..];
    TailScans(u, v, first, q, e, m);
    q', e' := Carry(tail, v, rest, false, m.quote, m.escaped);
    CarryJoin(u, rest, first, q, e, m, q', e');
    assert tail + "" == tail && u + "" == u;
    CarryJoin(u, "", first, q, e, m, q', e');
  }

  lemma {:induction false} SpacesStayQuoted(v: string, x: char, e: bool)
    requires Spaces(v) && IsQuote(x)
    ensures WordLen(v, false, Some(x), e).Err?
    decreases |v|
  {
    if v != "" {
      SpacesStayQuoted(v[1..], x, false);
    }
  }

  lemma {:induction false} SpacesInWord(v: string)
    requires Spaces(v) && WordLen(v, false, None, false) == Ok(|v|)
    ensures forall i :: 0 <= i < |v| ==> !IsBlank(v[i])
    decreases |v|
  {
    if v != "" {
      assert TurnAt(v, false, None, false) == Go(1, None, false);
      SpacesInWord(v[1..]);
      assert forall i :: 0 < i < |v| ==> v[i] == v[1..][i - 1];
    }
  }

  /** Stripped, the target ends in an open escape. */
  predicate Hangs(t: string) { Core(t) != t && !Solid(Core(t)) }

  /** The white space a target loses: its first character was escaped exactly when the
      target hangs, and no other character of it is a blank. */
  lemma LostSpace(t: string, rest: string)
    requires TargetOk(t) && Core(t) != t && Boundary(rest)
    ensures var v := t[|Core(t)|..];
            && v != "" && (forall i :: (if Hangs(t) then 1 else 0) <= i < |v| ==> !IsBlank(v[i]))
    ensures Hangs(t) ==> WordLen(Core(t) + rest, true, None, false) == Plus(|Core(t)|, WordLen(rest, false, None, true))
  {
    CoreOf(t);
    var u, v := Core(t), t[|Core(t)|..];
    var q, e := Carry(u, v, rest, true, None, false);
    if q.Some? { SpacesStayQuoted(v, q.value, e); }
    CoreStarts(t);
    NoOtherBlank(v, e);
  }

  lemma NoOtherBlank(v: string, e: bool)
    requires Spaces(v) && v != "" && WordLen(v, false, None, e) == Ok(|v|)
    ensures forall i :: (if e then 1 else 0) <= i < |v| ==> !IsBlank(v[i])
  {
    if e {
      WordTurn(v, false, None, e, Go(1, None, false));
      SpacesInWord(v[1..]);
      assert forall i :: 1 <= i < |v| ==> v[i] == v[1..][i - 1];
    } else {
      SpacesInWord(v);
    }
  }

  /** A target's core starts like the target: no blank and no operator. */
  lemma CoreStarts(t: string)
    requires TargetOk(t)
    ensures Core(t) != "" && !IsBlank(Core(t)[0]) && OpLen(Core(t), true) == 0
    ensures forall rest :: Boundary(rest) ==> OpLen(Core(t) + rest, true) == 0
  {
    CoreOf(t);
    var u := Core(t);
    assert forall i :: 0 <= i < |u| ==> t[i] == u[i];
    assert OpLen(t, true) == 0;
  }

  /** A target that does not hang stands for itself, stripped. */
  lemma CoreIsTarget(t: string)
    requires TargetOk(t) && !Hangs(t)
    ensures TargetOk(Core(t))
  {
    CoreStarts(t);
    CoreOf(t);
    NotAllSpace(Core(t));
  }

  lemma {:induction false} NotAllSpace(t: string)
    requires t != "" && !IsSpace(t[|t| - 1])
    ensures Strip(t) != ""
    decreases |t|
  {
    if IsSpace(t[0]) { NotAllSpace(t[1..]); }
  }

  lemma HangTokens(t: string, rest: string, n: nat)
    requires TargetOk(t) && Hangs(t) && Boundary(rest) && WordLen(rest, false, None, true) == Ok(n)
    ensures Tokens(Core(t) + rest) == Before(Core(t) + rest[..n], Tokens(rest[n..]))
  {
    LostSpace(t, rest);
    CoreStarts(t);
    var u := Core(t);
    var all := u + rest;
    assert all[..|u| + n] == u + rest[..n] && all[|u| + n..] == rest[n..];
  }

  /** A hanging target at the end of the text is refused. */
  lemma HangEnd(t: string)
    requires TargetOk(t) && Hangs(t)
    ensures Tokens(Core(t)).Err?
  {
    LostSpace(t, "");
    CoreStarts(t);
    assert Core(t) + "" == Core(t);
  }

  /** In front of a closing parenthesis it takes the parenthesis. */
  lemma HangParen(t: string, rest: string)
    requires TargetOk(t) && Hangs(t) && Boundary(rest)
    ensures Tokens(Core(t) + (")" + rest)) == Before(Core(t) + ")", Tokens(rest))
  {
    var r := ")" + rest;
    assert r[1..] == rest && r[..1] == ")";
    BoundaryStops(rest, false);
    HangTokens(t, r, 1);
  }

  predicate IsInfix(op: string) { IsSep(op) || IsRedirOp(op) || op == "|" }

  lemma InfixStops(op: string, more: string)
    requires IsInfix(op)
    ensures op[0] != '2' ==> WordLen(op + " " + more, false, None, false) == Ok(0)
    ensures op[0] == '2' ==> WordLen(op + " " + more, false, None, false) == Ok(1) && IsRedirOp(op[1..]) && op[1] == '>'
  {
    var t := op + " " + more;
    if op[0] == '2' {
      assert t[1..] == op[1..] + " " + more;
      assert TurnAt(t[1..], false, None, false) == Stop;
      assert TurnAt(t, false, None, false) == Go(1, None, false);
    } else {
      assert TurnAt(t, false, None, false) == Stop;
    }
  }

  /** In front of a blank and an operator it takes the blank, and the digit of `2>`. */
  lemma HangInfix(t: string, op: string, more: string)
    requires TargetOk(t) && Hangs(t) && IsInfix(op)
    ensures Tokens(Core(t) + (" " + op + " " + more)) ==
            if op[0] == '2' then Before(Core(t) + " 2", Tokens(op[1..] + " " + more))
            else Before(Core(t) + " ", Tokens(op + " " + more))
  {
    var r := " " + op + " " + more;
    InfixStops(op, more);
    assert r[1..] == op + " " + more;
    var n := if op[0] == '2' then 2 else 1;
    HangTokens(t, r, n);
    if op[0] == '2' {
      assert r[..2] == " 2" && r[2..] == op[1..] + " " + more;
    } else {
      assert r[..1] == " ";
    }
  }
}
