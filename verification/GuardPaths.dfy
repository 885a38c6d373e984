/** What the guard's text helpers (src/safety/command_guard.py) say about a word of the
    command line: the program it names, the path it cleans to, what it holds. */
module GuardPaths {
  import opened Common
  import opened ShellLexer
  import opened ShellParser
  import opened Guard

  // ------------------------------------------------------------- letters

  predicate Small(word: string) { forall i :: 0 <= i < |word| ==> !('A' <= word[i] <= 'Z') }

  lemma LowerExactly(text: string, word: string)
    requires Small(word)
    ensures Lower(text) == word <==> Spells(text, word)
  {
    if |text| == |word| {
      assert forall i :: 0 <= i < |text| ==> (Lower(text)[i] == word[i] <==> SameLetter(text[i], word[i]));
      assert Lower(text) == word <==> forall i :: 0 <= i < |text| ==> Lower(text)[i] == word[i];
    }
  }

  ghost predicate SomeSpells(args: seq<string>, word: string) { exists i :: 0 <= i < |args| && Spells(args[i], word) }

  lemma LowerAllHas(args: seq<string>, word: string)
    requires Small(word)
    ensures word in LowerAll(args) <==> SomeSpells(args, word)
  {
    if word in LowerAll(args) {
      var i :| 0 <= i < |args| && LowerAll(args)[i] == word;
      LowerExactly(args[i], word);
    }
    if SomeSpells(args, word) {
      var i :| 0 <= i < |args| && Spells(args[i], word);
      LowerExactly(args[i], word);
      assert LowerAll(args)[i] == word;
    }
  }

  // ---------------------------------------------------------- substrings

  predicate HoldsAt(s: string, p: string, i: int) { 0 <= i <= |s| - |p| && s[i..i + |p|] == p }

  ghost predicate Holds(s: string, p: string) { exists i :: HoldsAt(s, p, i) }

  lemma SliceShift(s: string, i: int, n: nat)
    requires 0 <= i && i + 1 + n <= |s|
    ensures s[i + 1..i + 1 + n] == s[1..][i..i + n]
  {
  }

  lemma {:induction false} ContainsExactly(s: string, p: string)
    ensures Contains(s, p) <==> Holds(s, p)
    decreases |s|
  {
    if Starts(s, p) {
      assert HoldsAt(s, p, 0);
    } else if s != "" {
      ContainsExactly(s[1..], p);
      if Holds(s[1..], p) {
        var i :| HoldsAt(s[1..], p, i);
        SliceShift(s, i, |p|);
        assert HoldsAt(s, p, i + 1);
      }
      if Holds(s, p) {
        var i :| HoldsAt(s, p, i);
        assert s[0..|p|] == s[..|p|];
        assert i > 0;
        SliceShift(s, i - 1, |p|);
        assert HoldsAt(s[1..], p, i - 1);
      }
    }
  }

  /** A stretch without blanks lies on one side of a blank. */
  lemma HoldsBeside(a: string, b: string, p: string)
    requires p != "" && ' ' !in p
    ensures Holds(a + " " + b, p) <==> Holds(a, p) || Holds(b, p)
  {
    var s, n := a + " " + b, |a| + 1;
    if Holds(a, p) {
      var i :| HoldsAt(a, p, i);
      assert s[i..i + |p|] == a[i..i + |p|];
      assert HoldsAt(s, p, i);
    }
    if Holds(b, p) {
      var i :| HoldsAt(b, p, i);
      assert s[n + i..n + i + |p|] == b[i..i + |p|];
      assert HoldsAt(s, p, n + i);
    }
    if Holds(s, p) {
      var i :| HoldsAt(s, p, i);
      assert forall k :: 0 <= k < |p| ==> p[k] == s[i + k] && p[k] != ' ';
      assert s[|a|] == ' ';
      assert i + |p| <= |a| || i >= n;
      if i + |p| <= |a| {
        assert a[i..i + |p|] == s[i..i + |p|];
        assert HoldsAt(a, p, i);
      } else {
        assert b[i - n..i - n + |p|] == s[i..i + |p|];
        assert HoldsAt(b, p, i - n);
      }
    }
  }

  ghost predicate SomeHolds(words: seq<string>, p: string) { exists i :: 0 <= i < |words| && Holds(words[i], p) }

  lemma {:induction false} JoinHolds(words: seq<string>, p: string)
    requires p != "" && ' ' !in p
    ensures Holds(JoinSpaced(words), p) <==> SomeHolds(words, p)
    decreases |words|
  {
    if words == [] {
      assert !HoldsAt("", p, 0);
    } else if |words| > 1 {
      var rest := words[1..];
      HoldsBeside(words[0], JoinSpaced(rest), p);
      JoinHolds(rest, p);
      if SomeHolds(rest, p) {
        var i :| 0 <= i < |rest| && Holds(rest[i], p);
        assert Holds(words[i + 1], p);
      }
      if SomeHolds(words, p) {
        var i :| 0 <= i < |words| && Holds(words[i], p);
        assert i > 0 ==> Holds(rest[i - 1], p);
      }
    }
  }

  // ------------------------------------------------------------ trimming

  predicate All(s: string, p: char -> bool) { forall i :: 0 <= i < |s| ==> p(s[i]) }

  predicate Trims(s: string, a: string, m: string, b: string, p: char -> bool) {
    s == a + (m + b) && All(a, p) && All(b, p) && (m != "" ==> !p(m[0]) && !p(m[|m| - 1]))
  }

  /** `m` is the text without the characters of a kind at both ends. */
  ghost predicate Trimmed(s: string, m: string, p: char -> bool) { exists a, b :: Trims(s, a, m, b, p) }

  function DropLeft(s: string, p: char -> bool): string {
    if s != "" && p(s[0]) then DropLeft(s[1..], p) else s
  }

  function DropRight(s: string, p: char -> bool): string {
    if s != "" && p(s[|s| - 1]) then DropRight(s[..|s| - 1], p) else s
  }

  lemma FrontGrows(s: string, a: string, rest: string)
    requires s != "" && s[1..] == a + rest
    ensures s == ([s[0]] + a) + rest
  {
    assert s == [s[0]] + s[1..];
  }

  lemma BackGrows(s: string, rest: string, b: string)
    requires s != "" && s[..|s| - 1] == rest + b
    ensures s == rest + (b + [s[|s| - 1]])
  {
    assert s == s[..|s| - 1] + [s[|s| - 1]];
  }

  lemma {:induction false} DropLeftShape(s: string, p: char -> bool) returns (a: string)
    ensures s == a + DropLeft(s, p) && All(a, p) && (DropLeft(s, p) != "" ==> !p(DropLeft(s, p)[0]))
  {
    if s != "" && p(s[0]) {
      var rest := DropLeftShape(s[1..], p);
      FrontGrows(s, rest, DropLeft(s[1..], p));
      a := [s[0]] + rest;
    } else {
      a := "";
    }
  }

  lemma {:induction false} DropRightShape(s: string, p: char -> bool) returns (b: string)
    ensures s == DropRight(s, p) + b && All(b, p)
    ensures DropRight(s, p) != "" ==> !p(DropRight(s, p)[|DropRight(s, p)| - 1])
  {
    if s != "" && p(s[|s| - 1]) {
      var rest := DropRightShape(s[..|s| - 1], p);
      BackGrows(s, DropRight(s[..|s| - 1], p), rest);
      b := rest + [s[|s| - 1]];
    } else {
      b := "";
    }
  }

  lemma {:induction false} DropLeftSkips(a: string, t: string, p: char -> bool)
    requires All(a, p)
    ensures DropLeft(a + t, p) == DropLeft(t, p)
  {
    if a == "" {
      assert a + t == t;
    } else {
      assert (a + t)[1..] == a[1..] + t;
      DropLeftSkips(a[1..], t, p);
    }
  }

  lemma {:induction false} DropRightSkips(t: string, b: string, p: char -> bool)
    requires All(b, p)
    ensures DropRight(t + b, p) == DropRight(t, p)
    decreases |b|
  {
    if b == "" {
      assert t + b == t;
    } else {
      assert (t + b)[..|t + b| - 1] == t + b[..|b| - 1];
      DropRightSkips(t, b[..|b| - 1], p);
    }
  }

  lemma DropsTrim(s: string, p: char -> bool)
    ensures Trimmed(s, DropRight(DropLeft(s, p), p), p)
  {
    var a := DropLeftShape(s, p);
    var b := DropRightShape(DropLeft(s, p), p);
    var m := DropRight(DropLeft(s, p), p);
    assert m != "" ==> m[0] == DropLeft(s, p)[0];
    assert Trims(s, a, m, b, p);
  }

  lemma TrimIsDrops(s: string, a: string, m: string, b: string, p: char -> bool)
    requires Trims(s, a, m, b, p)
    ensures DropRight(DropLeft(s, p), p) == m
  {
    DropLeftSkips(a, m + b, p);
    if m == "" {
      assert m + b == b && b + "" == b;
      DropLeftSkips(b, "", p);
    } else {
      assert (m + b)[0] == m[0];
      DropRightSkips(m, b, p);
    }
  }

  lemma DropsExactly(s: string, m: string, p: char -> bool)
    ensures DropRight(DropLeft(s, p), p) == m <==> Trimmed(s, m, p)
  {
    DropsTrim(s, p);
    if Trimmed(s, m, p) {
      var a, b :| Trims(s, a, m, b, p);
      TrimIsDrops(s, a, m, b, p);
    }
  }

  lemma {:induction false} SpacesDrop(s: string)
    ensures StripLeft(s) == DropLeft(s, IsSpace) && StripRight(s) == DropRight(s, IsSpace)
    ensures TrimQuotesLeft(s) == DropLeft(s, IsQuote) && TrimQuotesRight(s) == DropRight(s, IsQuote)
  {
    if s != "" {
      SpacesDrop(s[1..]);
      SpacesDrop(s[..|s| - 1]);
    }
  }

  ghost predicate CleansTo(s: string, m: string, c: string) { Trimmed(s, m, IsSpace) && Trimmed(m, c, IsQuote) }

  /** `c` is the word without white space and then without quotes around it. */
  ghost predicate Cleaned(s: string, c: string) { exists m :: CleansTo(s, m, c) }

  lemma CleanExactly(s: string, c: string)
    ensures CleanPath(s) == c <==> Cleaned(s, c)
  {
    var m := Strip(s);
    SpacesDrop(s);
    SpacesDrop(StripLeft(s));
    SpacesDrop(m);
    SpacesDrop(TrimQuotesLeft(m));
    DropsExactly(s, m, IsSpace);
    DropsExactly(m, c, IsQuote);
    assert CleanPath(s) == c ==> CleansTo(s, m, c);
    if Cleaned(s, c) {
      var m' :| CleansTo(s, m', c);
      DropsExactly(s, m', IsSpace);
    }
  }

  // -------------------------------------------------------- path components

  lemma NoSlash(s: string)
    requires '/' !in s
    ensures Split(s, '/') == [s]
  {
    forall j | 0 <= j < |s| ensures s[j] != '/' { assert s[j] in s; }
  }

  lemma {:induction false} IndexOfSlash(a: string, b: string)
    ensures ShellParser.IndexOf(a + "/" + b, '/') == ShellParser.IndexOf(a, '/')
  {
    var s := a + "/" + b;
    if a != "" && a[0] != '/' {
      assert s[1..] == a[1..] + "/" + b;
      IndexOfSlash(a[1..], b);
    }
  }

  lemma {:induction false} SplitJoin(a: string, b: string)
    ensures Split(a + "/" + b, '/') == Split(a, '/') + Split(b, '/')
    decreases |a|
  {
    var s, i := a + "/" + b, ShellParser.IndexOf(a, '/');
    IndexOfSlash(a, b);
    if i == |a| {
      CutWhole(a, b);
    } else {
      SplitJoin(a[i + 1..], b);
      CutJoin(a, b, i);
      CutStep(s, a[..i], a[i + 1..] + "/" + b);
      CutStep(a, a[..i], a[i + 1..]);
      Lists(a[..i], Split(a[i + 1..], '/'), Split(b, '/'));
    }
  }

  lemma CutStep(s: string, head: string, tail: string)
    requires |head| < |s| && ShellParser.IndexOf(s, '/') == |head| && s[..|head|] == head && s[|head| + 1..] == tail
    ensures Split(s, '/') == [head] + Split(tail, '/')
  {
  }

  lemma CutWhole(a: string, b: string)
    requires ShellParser.IndexOf(a + "/" + b, '/') == |a| == ShellParser.IndexOf(a, '/')
    ensures Split(a + "/" + b, '/') == Split(a, '/') + Split(b, '/')
  {
    var s := a + "/" + b;
    assert s[..|a|] == a && s[|a| + 1..] == b;
    CutStep(s, a, b);
  }

  lemma CutJoin(a: string, b: string, i: nat)
    requires i < |a|
    ensures (a + "/" + b)[..i] == a[..i] && (a + "/" + b)[i + 1..] == a[i + 1..] + "/" + b
  {
  }

  lemma Lists(x: string, ys: seq<string>, zs: seq<string>)
    ensures [x] + (ys + zs) == ([x] + ys) + zs
  {
  }

  predicate Between(s: string, pre: string, part: string, post: string) {
    && s == pre + (part + post)
    && (pre == "" || pre[|pre| - 1] == '/') && (post == "" || post[0] == '/')
  }

  /** A component of a path. */
  ghost predicate Component(s: string, part: string) { exists pre, post :: Between(s, pre, part, post) }

  lemma SplitLeads(part: string, post: string)
    requires '/' !in part && (post == "" || post[0] == '/')
    ensures part in Split(part + post, '/')
  {
    NoSlash(part);
    if post != "" {
      assert part + post == part + "/" + post[1..];
      SplitJoin(part, post[1..]);
    } else {
      assert part + post == part;
    }
  }

  lemma SplitHas(s: string, pre: string, part: string, post: string)
    requires '/' !in part && Between(s, pre, part, post)
    ensures part in Split(s, '/')
  {
    var tail := part + post;
    SplitLeads(part, post);
    if pre != "" {
      assert s == pre[..|pre| - 1] + "/" + tail;
      SplitJoin(pre[..|pre| - 1], tail);
    } else {
      assert s == tail;
    }
  }

  lemma {:induction false} SplitIsBetween(s: string, part: string) returns (pre: string, post: string)
    requires part in Split(s, '/')
    ensures Between(s, pre, part, post)
    decreases |s|
  {
    var i := ShellParser.IndexOf(s, '/');
    if i == |s| {
      pre, post := "", "";
    } else if part == s[..i] {
      pre, post := "", s[i..];
      assert s == s[..i] + s[i..];
    } else {
      pre, post := SplitIsBetween(s[i + 1..], part);
      BetweenLater(s, i, pre, part, post);
      pre := s[..i + 1] + pre;
    }
  }

  lemma BetweenLater(s: string, i: nat, pre: string, part: string, post: string)
    requires i < |s| && s[i] == '/' && Between(s[i + 1..], pre, part, post)
    ensures Between(s, s[..i + 1] + pre, part, post)
  {
    assert s == s[..i + 1] + s[i + 1..];
  }

  lemma ComponentExactly(s: string, part: string)
    requires '/' !in part
    ensures part in Split(s, '/') <==> Component(s, part)
  {
    if part in Split(s, '/') {
      var pre, post := SplitIsBetween(s, part);
    }
    if Component(s, part) {
      var pre, post :| Between(s, pre, part, post);
      SplitHas(s, pre, part, post);
    }
  }

  // ---------------------------------------------------------- program names

  /** Slashes and `.` components at the end of a path. */
  predicate Trailing(tail: string) {
    tail == ""
    || (tail[|tail| - 1] == '/' && Trailing(tail[..|tail| - 1]))
    || (|tail| >= 2 && tail[|tail| - 2..] == "/." && Trailing(tail[..|tail| - 2]))
  }

  predicate Names(path: string, dir: string, name: string, tail: string) {
    && path == dir + (name + tail) && name != "" && name != "." && '/' !in name
    && (dir == "" || dir[|dir| - 1] == '/') && Trailing(tail)
  }

  /** The path names this program, in any directory and any mix of cases. */
  ghost predicate Called(path: string, prog: string) {
    exists dir, name, tail :: Names(path, dir, name, tail) && Spells(name, prog)
  }

  lemma LastAfter(a: string, b: string)
    requires '/' !in b
    ensures LastName(Split(a + "/" + b, '/')) == if b == "" || b == "." then LastName(Split(a, '/')) else b
  {
    SplitJoin(a, b);
    NoSlash(b);
    var parts := Split(a, '/') + [b];
    assert parts[..|parts| - 1] == Split(a, '/');
  }

  lemma NameAlone(dir: string, name: string)
    requires name != "" && name != "." && '/' !in name && (dir == "" || dir[|dir| - 1] == '/')
    ensures LastName(Split(dir + name, '/')) == name
  {
    if dir == "" {
      assert dir + name == name;
      NoSlash(name);
      assert [name][..0] == [];
    } else {
      assert dir + name == dir[..|dir| - 1] + "/" + name;
      LastAfter(dir[..|dir| - 1], name);
    }
  }

  lemma TailText(front: string, tail: string, shorter: string, last: string)
    requires |shorter| + 1 + |last| == |tail| && shorter == tail[..|shorter|] && tail[|shorter|..] == "/" + last
    ensures front + tail == (front + shorter) + "/" + last
  {
    assert tail == shorter + ("/" + last);
  }

  lemma {:induction false} NameIsLast(front: string, tail: string)
    requires Trailing(tail)
    ensures LastName(Split(front + tail, '/')) == LastName(Split(front, '/'))
    decreases |tail|
  {
    if tail == "" {
      assert front + tail == front;
    } else {
      var last := if tail[|tail| - 1] == '/' then "" else ".";
      var shorter := tail[..|tail| - 1 - |last|];
      TailText(front, tail, shorter, last);
      LastAfter(front + shorter, last);
      NameIsLast(front, shorter);
    }
  }

  lemma {:induction false} LastSlash(s: string) returns (a: string, b: string)
    requires '/' in s
    ensures s == a + "/" + b && '/' !in b
  {
    if s[|s| - 1] == '/' {
      a, b := s[..|s| - 1], "";
    } else {
      var init := s[..|s| - 1];
      assert s == init + [s[|s| - 1]];
      a, b := LastSlash(init);
      b := b + [s[|s| - 1]];
    }
  }

  lemma {:induction false} LastIsName(path: string) returns (dir: string, tail: string)
    requires LastName(Split(path, '/')) != ""
    ensures Names(path, dir, LastName(Split(path, '/')), tail)
    decreases |path|
  {
    if '/' !in path {
      NoSlash(path);
      assert [path][..0] == [];
      dir, tail := "", "";
    } else {
      var a, b := LastSlash(path);
      LastAfter(a, b);
      if b == "" || b == "." {
        dir, tail := LastIsName(a);
        NamesLonger(a, dir, LastName(Split(a, '/')), tail, b);
        tail := tail + "/" + b;
      } else {
        dir, tail := a + "/", "";
      }
    }
  }

  lemma NamesLonger(a: string, dir: string, name: string, tail: string, b: string)
    requires Names(a, dir, name, tail) && (b == "" || b == ".")
    ensures Names(a + "/" + b, dir, name, tail + "/" + b)
  {
    TrailingLonger(tail, b);
    PathLonger(dir, name, tail, "/" + b);
    assert a + "/" + b == a + ("/" + b) && tail + "/" + b == tail + ("/" + b);
  }

  lemma TrailingLonger(tail: string, b: string)
    requires Trailing(tail) && (b == "" || b == ".")
    ensures Trailing(tail + "/" + b)
  {
    var longer := tail + "/" + b;
    assert longer[..|longer| - |b| - 1] == tail;
    assert b == "." ==> longer[|longer| - 2..] == "/.";
  }

  lemma PathLonger(dir: string, name: string, tail: string, more: string)
    ensures (dir + (name + tail)) + more == dir + (name + (tail + more))
  {
  }

  lemma NamedIsLast(path: string, dir: string, name: string, tail: string)
    requires Names(path, dir, name, tail)
    ensures LastName(Split(path, '/')) == name
  {
    NameIsLast(dir + name, tail);
    NameAlone(dir, name);
    assert path == (dir + name) + tail;
  }

  lemma ProgNameExactly(path: string, prog: string)
    requires Small(prog) && prog != ""
    ensures ProgName(path) == prog <==> Called(path, prog)
  {
    var last := LastName(Split(path, '/'));
    LowerExactly(last, prog);
    if Spells(last, prog) {
      var dir, tail := LastIsName(path);
    }
    if Called(path, prog) {
      var dir, name, tail :| Names(path, dir, name, tail) && Spells(name, prog);
      NamedIsLast(path, dir, name, tail);
    }
  }

  // ------------------------------------------------------------------ paths

  predicate InSystemTree(path: string) {
    || path == "/root" || path == "/etc" || path == "/boot" || path == "/sys" || path == "/proc" || path == "/dev"
    || "/root/" <= path || "/etc/" <= path || "/boot/" <= path || "/sys/" <= path || "/proc/" <= path || "/dev/" <= path
  }

  ghost predicate SystemWord(word: string) { exists c :: Cleaned(word, c) && InSystemTree(c) }

  lemma SensitiveIs(c: string, i: nat)
    requires i < 6 && (c == SensitiveRoots[i] || Starts(c, SensitiveRoots[i] + "/"))
    ensures InSystemTree(c)
  {
    var root := SensitiveRoots[i];
    if i == 0 { assert root + "/" == "/root/"; }
    else if i == 1 { assert root + "/" == "/etc/"; }
    else if i == 2 { assert root + "/" == "/boot/"; }
    else if i == 3 { assert root + "/" == "/sys/"; }
    else if i == 4 { assert root + "/" == "/proc/"; }
    else { assert root + "/" == "/dev/"; }
  }

  lemma InTreeAt(c: string) returns (i: nat)
    requires InSystemTree(c)
    ensures i < 6 && (c == SensitiveRoots[i] || Starts(c, SensitiveRoots[i] + "/"))
  {
    var r := SensitiveRoots;
    assert r[0] + "/" == "/root/" && r[1] + "/" == "/etc/" && r[2] + "/" == "/boot/";
    assert r[3] + "/" == "/sys/" && r[4] + "/" == "/proc/" && r[5] + "/" == "/dev/";
    i := if c == r[0] || "/root/" <= c then 0 else if c == r[1] || "/etc/" <= c then 1
         else if c == r[2] || "/boot/" <= c then 2 else if c == r[3] || "/sys/" <= c then 3
         else if c == r[4] || "/proc/" <= c then 4 else 5;
  }

  /** Exactly the six system trees are sensitive. */
  lemma SystemExactly(word: string)
    ensures UnderSensitiveRoot(word) <==> SystemWord(word)
  {
    var c := CleanPath(word);
    CleanExactly(word, c);
    if UnderSensitiveRoot(word) {
      var i :| 0 <= i < |SensitiveRoots| && (c == SensitiveRoots[i] || Starts(c, SensitiveRoots[i] + "/"));
      SensitiveIs(c, i);
    }
    if SystemWord(word) {
      var c' :| Cleaned(word, c') && InSystemTree(c');
      CleanExactly(word, c');
      var i := InTreeAt(c);
    }
  }

  ghost predicate ClimbingWord(word: string) { exists c :: Cleaned(word, c) && Component(c, "..") }

  lemma ClimbingExactly(word: string)
    ensures ParentTraversal(word) <==> ClimbingWord(word)
  {
    var c := CleanPath(word);
    CleanExactly(word, c);
    ComponentExactly(c, "..");
    if ClimbingWord(word) {
      var c' :| Cleaned(word, c') && Component(c', "..");
      CleanExactly(word, c');
    }
  }
}
