/** The guard's verdict is compositional (src/safety/command_guard.py): hiding a
    command inside chains, pipes, redirections or subshells never helps it. */
module GuardLaws {
  import opened Common
  import opened ShellLexer
  import opened ShellParser
  import opened Guard
  import opened GuardText

  predicate Subtree(sub: Node, n: Node) {
    sub == n ||
    match n
    case Command(_, _) => false
    case Pipe(l, r) => Subtree(sub, l) || Subtree(sub, r)
    case Chain(l, r, _) => Subtree(sub, l) || Subtree(sub, r)
    case Redir(c, _, _) => Subtree(sub, c)
    case Subshell(c) => Subtree(sub, c)
  }

  // ------------------------------------------------------------- folds

  predicate StretchAt<T(==)>(xs: seq<T>, ys: seq<T>, i: int) {
    0 <= i <= |ys| - |xs| && ys[i..i + |xs|] == xs
  }

  /** `xs` is a contiguous stretch of `ys`. */
  ghost predicate Within<T>(xs: seq<T>, ys: seq<T>) { exists i :: StretchAt(xs, ys, i) }

  lemma WithinConcat<T>(xs: seq<T>, ys: seq<T>, pre: seq<T>, post: seq<T>)
    requires Within(xs, ys)
    ensures Within(xs, pre + ys + post)
  {
    var i :| StretchAt(xs, ys, i);
    var zs, j := pre + ys + post, |pre| + i;
    assert zs[j..j + |xs|] == ys[i..i + |xs|];
    assert StretchAt(xs, zs, j);
  }

  lemma WithinSelf<T>(xs: seq<T>)
    ensures Within(xs, xs)
  {
    assert StretchAt(xs, xs, 0);
  }

  lemma WithinSides<T>(xs: seq<T>, ls: seq<T>, rs: seq<T>)
    requires Within(xs, ls) || Within(xs, rs)
    ensures Within(xs, ls + rs)
  {
    if Within(xs, ls) {
      WithinConcat(xs, ls, [], rs);
      assert [] + ls + rs == ls + rs;
    } else {
      WithinConcat(xs, rs, ls, []);
      assert ls + rs + [] == ls + rs;
    }
  }

  lemma {:induction false} SubtreeFolds(sub: Node, n: Node)
    requires Subtree(sub, n)
    ensures Within(Leaves(sub), Leaves(n)) && Within(Targets(sub), Targets(n))
    ensures PipeToShell(sub) ==> PipeToShell(n)
    decreases n
  {
    WithinSelf(Leaves(sub));
    WithinSelf(Targets(sub));
    if sub != n {
      match n
      case Pipe(l, r) =>
        if Subtree(sub, l) { SubtreeFolds(sub, l); } else { SubtreeFolds(sub, r); }
        SidesFold(sub, l, r);
      case Chain(l, r, _) =>
        if Subtree(sub, l) { SubtreeFolds(sub, l); } else { SubtreeFolds(sub, r); }
        SidesFold(sub, l, r);
      case Redir(c, target, _) =>
        SubtreeFolds(sub, c);
        WithinConcat(Targets(sub), Targets(c), [target], []);
        assert [target] + Targets(c) + [] == Targets(n);
      case Subshell(c) => SubtreeFolds(sub, c);
    }
  }

  lemma SidesFold(sub: Node, l: Node, r: Node)
    requires Within(Leaves(sub), Leaves(l)) || Within(Leaves(sub), Leaves(r))
    requires Within(Targets(sub), Targets(l)) || Within(Targets(sub), Targets(r))
    ensures Within(Leaves(sub), Leaves(l) + Leaves(r)) && Within(Targets(sub), Targets(l) + Targets(r))
  {
    WithinSides(Leaves(sub), Leaves(l), Leaves(r));
    WithinSides(Targets(sub), Targets(l), Targets(r));
  }

  lemma {:induction false} AnyConcat<T>(xs: seq<T>, ys: seq<T>, p: T -> bool)
    ensures Any(xs + ys, p) <==> Any(xs, p) || Any(ys, p)
    decreases |xs|
  {
    if xs == [] {
      assert xs + ys == ys;
    } else {
      assert (xs + ys)[1..] == xs[1..] + ys;
      AnyConcat(xs[1..], ys, p);
    }
  }

  lemma {:induction false} WidestConcat<T>(xs: seq<T>, ys: seq<T>, w: T -> nat)
    ensures Widest(xs + ys, w) == Larger(Widest(xs, w), Widest(ys, w))
    decreases |xs|
  {
    if xs == [] {
      assert xs + ys == ys;
    } else {
      assert (xs + ys)[1..] == xs[1..] + ys;
      WidestConcat(xs[1..], ys, w);
    }
  }

  /** A stretch of a list, as the list with something before and after it. */
  lemma Around<T>(xs: seq<T>, ys: seq<T>) returns (pre: seq<T>, post: seq<T>)
    requires Within(xs, ys)
    ensures ys == pre + xs + post
  {
    var i :| StretchAt(xs, ys, i);
    pre, post := ys[..i], ys[i + |xs|..];
  }

  lemma AnyWithin<T>(xs: seq<T>, ys: seq<T>, p: T -> bool)
    requires Within(xs, ys)
    ensures Any(xs, p) ==> Any(ys, p)
  {
    var pre, post := Around(xs, ys);
    AnyConcat(pre + xs, post, p);
    AnyConcat(pre, xs, p);
  }

  lemma WidestWithin<T>(xs: seq<T>, ys: seq<T>, w: T -> nat)
    requires Within(xs, ys)
    ensures Widest(xs, w) <= Widest(ys, w)
  {
    var pre, post := Around(xs, ys);
    WidestConcat(pre + xs, post, w);
    WidestConcat(pre, xs, w);
  }

  // ------------------------------------------------------------- denial

  predicate SomeLeafDenied(leaves: seq<seq<string>>, unknownApp: (string, seq<string>) -> bool) {
    Any(leaves, argv => LeafDenied(argv, unknownApp))
  }

  lemma {:induction false} FirstDenialIsAny(leaves: seq<seq<string>>, unknownApp: (string, seq<string>) -> bool)
    ensures FirstDenial(leaves, unknownApp).Some? <==> SomeLeafDenied(leaves, unknownApp)
    decreases |leaves|
  {
    if leaves != [] {
      FirstDenialIsAny(leaves[1..], unknownApp);
    }
  }

  /** Denied by its structure alone, whatever the raw text looks like. */
  predicate StructurallyDenied(n: Node, unknownApp: (string, seq<string>) -> bool) {
    PipeToShell(n) || Any(Targets(n), UnderSensitiveRoot) || SomeLeafDenied(Leaves(n), unknownApp)
  }

  /** The deny list is exactly: a fork bomb in the text, or a structural reason. */
  lemma DenyListExactly(n: Node, raw: string, unknownApp: (string, seq<string>) -> bool)
    ensures DenyReason(n, raw, unknownApp).Some? <==> ForkBomb(raw) || StructurallyDenied(n, unknownApp)
  {
    FirstDenialIsAny(Leaves(n), unknownApp);
  }

  /** A structurally denied part makes the whole command denied. */
  lemma DenialPropagates(sub: Node, n: Node, unknownApp: (string, seq<string>) -> bool)
    requires Subtree(sub, n) && StructurallyDenied(sub, unknownApp)
    ensures StructurallyDenied(n, unknownApp)
  {
    SubtreeFolds(sub, n);
    AnyWithin(Targets(sub), Targets(n), UnderSensitiveRoot);
    AnyWithin(Leaves(sub), Leaves(n), argv => LeafDenied(argv, unknownApp));
  }

  /** Whatever surrounds it, a command text with a denied part anywhere in its tree
      gets the verdict DENY and at least 85 points. */
  lemma DeniedPartDeniesCommand(text: string, sub: Node, bonus: nat, unknownApp: (string, seq<string>) -> bool)
    requires Parse(Strip(text)).Ok? && Strip(text) != ""
    requires Subtree(sub, Parse(Strip(text)).value) && StructurallyDenied(sub, unknownApp)
    ensures Assess(text, bonus, unknownApp).verdict == DENY
    ensures 85 <= Assess(text, bonus, unknownApp).score <= 100
  {
    DenialPropagates(sub, Parse(Strip(text)).value, unknownApp);
    DenyListExactly(Parse(Strip(text)).value, Strip(text), unknownApp);
  }

  // -------------------------------------------------------------- scores

  /** One leaf never lowers the running risk, and a higher start stays higher. */
  lemma RiskIsMonotone(argv: seq<string>, a: nat, b: nat)
    requires a <= b <= 40
    ensures LeafRisk(argv, b).Best? ==> b <= LeafRisk(argv, b).best <= 40
    ensures LeafRisk(argv, a).Worst? ==> LeafRisk(argv, b).Worst?
    ensures LeafRisk(argv, a).Best? && LeafRisk(argv, b).Best? ==> LeafRisk(argv, a).best <= LeafRisk(argv, b).best
  {
  }

  lemma {:induction false} RiskGrows(leaves: seq<seq<string>>, a: nat, b: nat)
    requires a <= b <= 40
    ensures WorstRisk(leaves, a) <= WorstRisk(leaves, b) <= 40 && b <= WorstRisk(leaves, b)
    decreases |leaves|
  {
    if leaves != [] {
      RiskIsMonotone(leaves[0], a, b);
      if LeafRisk(leaves[0], b).Best? {
        RiskGrows(leaves[1..], LeafRisk(leaves[0], a).best, LeafRisk(leaves[0], b).best);
      } else if LeafRisk(leaves[0], a).Best? {
        RiskIsMonotone(leaves[0], a, a);
        RiskGrows(leaves[1..], LeafRisk(leaves[0], a).best, LeafRisk(leaves[0], a).best);
      }
    }
  }

  lemma {:induction false} RiskConcat(xs: seq<seq<string>>, ys: seq<seq<string>>, b: nat)
    requires b <= 40
    ensures WorstRisk(xs, b) <= WorstRisk(xs + ys, b)
    ensures WorstRisk(ys, b) <= WorstRisk(xs + ys, b)
    decreases |xs|
  {
    if xs == [] {
      assert xs + ys == ys;
      RiskGrows(ys, b, b);
    } else {
      assert (xs + ys)[1..] == xs[1..] + ys;
      RiskIsMonotone(xs[0], b, b);
      RiskGrows(ys, b, b);
      if LeafRisk(xs[0], b).Best? {
        var b' := LeafRisk(xs[0], b).best;
        RiskConcat(xs[1..], ys, b');
        RiskGrows(ys, b, b');
      }
    }
  }

  lemma RiskWithin(xs: seq<seq<string>>, ys: seq<seq<string>>)
    requires Within(xs, ys)
    ensures WorstRisk(xs, 0) <= WorstRisk(ys, 0) <= 40
  {
    var pre, post := Around(xs, ys);
    RiskConcat(pre + xs, post, 0);
    RiskConcat(pre, xs, 0);
    RiskGrows(ys, 0, 0);
  }

  lemma ComponentsWithin(xs: seq<seq<string>>, ys: seq<seq<string>>, raw: string, raw': string)
    requires Within(xs, ys) && (ForkBomb(raw) ==> ForkBomb(raw'))
    ensures Privilege(xs) <= Privilege(ys) && Irreversibility(xs) <= Irreversibility(ys)
    ensures Destructiveness(xs, raw) <= Destructiveness(ys, raw')
    ensures Widest(xs, ArgsScope) <= Widest(ys, ArgsScope)
    ensures Any(xs, Downloads) ==> Any(ys, Downloads)
  {
    AnyWithin(xs, ys, (argv: seq<string>) => argv != [] && ProgName(argv[0]) in PrivilegeProgs);
    AnyWithin(xs, ys, (argv: seq<string>) => ProgIn(argv, DeleteProgs + FormatProgs));
    AnyWithin(xs, ys, Downloads);
    RiskWithin(xs, ys);
    WidestWithin(xs, ys, ArgsScope);
  }

  /** Placing a tree inside any larger one never lowers the five fixed-weight
      components, as long as a fork bomb in its text is still in the larger text. */
  lemma ScoreNeverFalls(sub: Node, n: Node, raw: string, raw': string)
    requires Subtree(sub, n) && (ForkBomb(raw) ==> ForkBomb(raw'))
    ensures FixedScore(sub, raw) <= FixedScore(n, raw')
  {
    SubtreeFolds(sub, n);
    ComponentsWithin(Leaves(sub), Leaves(n), raw, raw');
    WidestWithin(Targets(sub), Targets(n), ArgScope);
  }

  // ------------------------------------------------------ the worst leaf

  lemma {:induction false} LeafIsSubtree(n: Node, i: nat) returns (leaf: Node)
    requires i < |Leaves(n)|
    ensures leaf.Command? && leaf.argv == Leaves(n)[i] && Subtree(leaf, n)
    decreases n
  {
    match n
    case Command(_, _) => leaf := n;
    case Pipe(l, r) =>
      if i < |Leaves(l)| { leaf := LeafIsSubtree(l, i); } else { leaf := LeafIsSubtree(r, i - |Leaves(l)|); }
    case Chain(l, r, _) =>
      if i < |Leaves(l)| { leaf := LeafIsSubtree(l, i); } else { leaf := LeafIsSubtree(r, i - |Leaves(l)|); }
    case Redir(c, _, _) => leaf := LeafIsSubtree(c, i);
    case Subshell(c) => leaf := LeafIsSubtree(c, i);
  }

  lemma {:induction false} WidestBound<T>(xs: seq<T>, w: T -> nat, bound: nat)
    requires forall i :: 0 <= i < |xs| ==> w(xs[i]) <= bound
    ensures Widest(xs, w) <= bound
    decreases |xs|
  {
    if xs != [] {
      assert forall i :: 0 <= i < |xs[1..]| ==> xs[1..][i] == xs[i + 1];
      WidestBound(xs[1..], w, bound);
    }
  }

  /** The clause "highest-risk leaf dominates chains" never changes the score of a text:
      the whole already scores at least what its worst leaf does. */
  lemma WholeDominatesWorstLeaf(raw: string, bonus: nat)
    requires Parse(raw).Ok?
    ensures var n := Parse(raw).value;
            Score(n, raw, bonus) == Least(100, FixedScore(n, raw) + Least(bonus, 15))
  {
    var n := Parse(raw).value;
    forall i | 0 <= i < |Leaves(n)| ensures LeafScore(Leaves(n)[i]) <= FixedScore(n, raw) {
      var leaf := LeafIsSubtree(n, i);
      if ForkBomb(JoinSpaced(leaf.argv)) { LeafBombIsInText(raw, i); }
      ScoreNeverFalls(leaf, n, JoinSpaced(leaf.argv), raw);
      assert Leaves(leaf) == [leaf.argv] && Targets(leaf) == [];
    }
    WidestBound(Leaves(n), LeafScore, FixedScore(n, raw));
  }

  // -------------------------------------------------------------- verdicts

  /** A text is denied exactly when it cannot be parsed, is on the deny list, or
      scores above 70; only texts at 30 or below are allowed without asking. */
  lemma VerdictExactly(text: string, bonus: nat, unknownApp: (string, seq<string>) -> bool)
    requires Strip(text) != ""
    ensures var raw, a := Strip(text), Assess(text, bonus, unknownApp);
            && (a.verdict == DENY <==>
                  || Parse(raw).Err? || ForkBomb(raw)
                  || StructurallyDenied(Parse(raw).value, unknownApp)
                  || Score(Parse(raw).value, raw, bonus) > 70)
            && (a.verdict == ALLOW ==> a.score <= 30)
            && a.score <= 100
  {
    var raw := Strip(text);
    RiskGrows([[]], 0, 0);
    if Parse(raw).Ok? { DenyListExactly(Parse(raw).value, raw, unknownApp); }
  }
}
