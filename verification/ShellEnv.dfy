/** The environment prefix of a simple command: `_split_env_assignments` of
    src/safety/command_guard.py. */
module ShellEnv {
  import opened Common
  import opened ShellLexer
  import opened ShellParser
  import opened ShellLaws

  // ------------------------------------------------------------ assignments

  /** A word that assigns: a name that starts with a letter or an underscore, `=`, a value,
      and no slash anywhere. */
  predicate Assigns(w: string, key: string, value: string) {
    && w == key + "=" + value && '=' !in key && '/' !in w
    && key != "" && (IsAlpha(key[0]) || key[0] == '_')
  }

  ghost predicate Assignment(w: string) { exists key, value :: Assigns(w, key, value) }

  lemma AssignsIs(w: string, key: string, value: string)
    requires Assigns(w, key, value)
    ensures IsAssign(w) && IndexOf(w, '=') == |key| && w[..|key|] == key && w[|key| + 1..] == value
  {
    IndexOfAt(key, value);
    assert w[|key|] == '=' && w[|key|] in w;
    assert w[0] == key[0];
  }

  /** The guard takes exactly those words for assignments, and cuts them there. */
  lemma AssignExactly(w: string)
    ensures IsAssign(w) <==> Assignment(w)
    ensures IsAssign(w) ==> var i := IndexOf(w, '='); i < |w| && Assigns(w, w[..i], w[i + 1..])
  {
    if IsAssign(w) {
      AssignParts(w);
      var i := IndexOf(w, '=');
      assert Assigns(w, w[..i], w[i + 1..]);
    }
    if Assignment(w) {
      var key, value :| Assigns(w, key, value);
      AssignsIs(w, key, value);
    }
  }

  // ------------------------------------------------------------ dictionaries

  predicate LastOf(pairs: seq<(string, string)>, i: nat) {
    i < |pairs| && forall k :: i < k < |pairs| ==> pairs[k].0 != pairs[i].0
  }

  predicate FirstOf(pairs: seq<(string, string)>, i: nat) {
    i < |pairs| && forall k :: 0 <= k < i ==> pairs[k].0 != pairs[i].0
  }

  /** Where each entry of a dictionary was first and last assigned, and the entry of each
      assignment. */
  datatype Book = Book(first: seq<nat>, last: seq<nat>, entry: seq<nat>)

  predicate EntryKept(pairs: seq<(string, string)>, entry: (string, string), first: nat, last: nat) {
    && LastOf(pairs, last) && pairs[last] == entry
    && FirstOf(pairs, first) && pairs[first].0 == entry.0
  }

  /** The entries have the last value of each key, in the order the keys first came. */
  predicate Keeps(pairs: seq<(string, string)>, env: seq<(string, string)>, b: Book) {
    && |b.first| == |b.last| == |env| && |b.entry| == |pairs|
    && (forall j :: 0 <= j < |env| ==> EntryKept(pairs, env[j], b.first[j], b.last[j]))
    && (forall j, k :: 0 <= j < k < |env| ==> b.first[j] < b.first[k])
    && (forall i :: 0 <= i < |pairs| ==> b.entry[i] < |env| && env[b.entry[i]].0 == pairs[i].0)
  }

  lemma KeysDiffer(pairs: seq<(string, string)>, env: seq<(string, string)>, b: Book, j: nat, k: nat)
    requires Keeps(pairs, env, b) && j < |env| && k < |env| && j != k
    ensures env[j].0 != env[k].0
  {
    assert EntryKept(pairs, env[j], b.first[j], b.last[j]) && EntryKept(pairs, env[k], b.first[k], b.last[k]);
    assert b.first[j] < b.first[k] || b.first[k] < b.first[j];
  }

  lemma EntryStays(pairs: seq<(string, string)>, entry: (string, string), first: nat, last: nat, more: (string, string))
    requires EntryKept(pairs, entry, first, last) && more.0 != entry.0
    ensures EntryKept(pairs + [more], entry, first, last)
  {
  }

  lemma EntryRenewed(pairs: seq<(string, string)>, entry: (string, string), first: nat, last: nat, v: string)
    requires EntryKept(pairs, entry, first, last)
    ensures EntryKept(pairs + [(entry.0, v)], (entry.0, v), first, |pairs|)
  {
  }

  lemma PutOld(pairs: seq<(string, string)>, env: seq<(string, string)>, b: Book, v: string, at: nat) returns (b': Book)
    requires Keeps(pairs, env, b) && at < |env|
    ensures Keeps(pairs + [(env[at].0, v)], env[at := (env[at].0, v)], b')
  {
    var more := (env[at].0, v);
    var all, env' := pairs + [more], env[at := more];
    b' := b.(last := b.last[at := |pairs|], entry := b.entry + [at]);
    forall j | 0 <= j < |env'| ensures EntryKept(all, env'[j], b'.first[j], b'.last[j]) {
      if j == at {
        EntryRenewed(pairs, env[at], b.first[at], b.last[at], v);
      } else {
        KeysDiffer(pairs, env, b, j, at);
        EntryStays(pairs, env[j], b.first[j], b.last[j], more);
      }
    }
    forall i | 0 <= i < |all| ensures b'.entry[i] < |env'| && env'[b'.entry[i]].0 == all[i].0 {
      if i < |pairs| { assert b'.entry[i] == b.entry[i]; }
    }
  }

  lemma KeyIsNew(pairs: seq<(string, string)>, env: seq<(string, string)>, b: Book, k: string, i: nat)
    requires Keeps(pairs, env, b) && i < |pairs| && forall j :: 0 <= j < |env| ==> env[j].0 != k
    ensures pairs[i].0 != k
  {
    assert env[b.entry[i]].0 == pairs[i].0;
  }

  lemma FirstsRise(pairs: seq<(string, string)>, env: seq<(string, string)>, b: Book)
    requires Keeps(pairs, env, b)
    ensures var first := b.first + [|pairs|]; forall j, m :: 0 <= j < m < |first| ==> first[j] < first[m]
  {
    forall j | 0 <= j < |env| ensures b.first[j] < |pairs| { assert EntryKept(pairs, env[j], b.first[j], b.last[j]); }
  }

  lemma PutNew(pairs: seq<(string, string)>, env: seq<(string, string)>, b: Book, k: string, v: string) returns (b': Book)
    requires Keeps(pairs, env, b) && forall j :: 0 <= j < |env| ==> env[j].0 != k
    ensures Keeps(pairs + [(k, v)], env + [(k, v)], b')
  {
    var all, env' := pairs + [(k, v)], env + [(k, v)];
    b' := Book(b.first + [|pairs|], b.last + [|pairs|], b.entry + [|env|]);
    forall i | 0 <= i < |pairs| ensures pairs[i].0 != k { KeyIsNew(pairs, env, b, k, i); }
    forall j | 0 <= j < |env'| ensures EntryKept(all, env'[j], b'.first[j], b'.last[j]) {
      if j < |env| { EntryStays(pairs, env[j], b.first[j], b.last[j], (k, v)); }
    }
    FirstsRise(pairs, env, b);
    forall i | 0 <= i < |all| ensures b'.entry[i] < |env'| && env'[b'.entry[i]].0 == all[i].0 {
      if i < |pairs| { assert b'.entry[i] == b.entry[i]; }
    }
  }

  lemma PutKept(pairs: seq<(string, string)>, env: seq<(string, string)>, b: Book, k: string, v: string) returns (b': Book)
    requires Keeps(pairs, env, b)
    ensures Keeps(pairs + [(k, v)], Put(env, k, v), b')
  {
    var at := PutShape(env, k, v);
    if at < |env| { b' := PutOld(pairs, env, b, v, at); } else { b' := PutNew(pairs, env, b, k, v); }
  }

  // ------------------------------------------------------------ simple commands

  predicate AssignAll(words: seq<string>, pairs: seq<(string, string)>) {
    |words| == |pairs| && forall i :: 0 <= i < |words| ==> Assigns(words[i], pairs[i].0, pairs[i].1)
  }

  /** The words up to the first that is no assignment are the environment, as a
      dictionary, and the rest are the arguments. */
  ghost predicate LeafOf(words: seq<string>, pairs: seq<(string, string)>, b: Book, n: Node) {
    var k := |pairs|;
    && k <= |words| && AssignAll(words[..k], pairs)
    && (k < |words| ==> !Assignment(words[k]))
    && n.Command? && n.argv == words[k..] && Keeps(pairs, n.env, b)
  }

  lemma {:induction false} SplitFrom(words: seq<string>, pairs: seq<(string, string)>, env: seq<(string, string)>, b: Book)
    returns (pairs': seq<(string, string)>, b': Book)
    requires |pairs| <= |words| && AssignAll(words[..|pairs|], pairs) && Keeps(pairs, env, b)
    ensures LeafOf(words, pairs', b', SplitEnv(env, words[|pairs|..]))
    decreases |words| - |pairs|
  {
    var k := |pairs|;
    pairs', b' := pairs, b;
    if k < |words| {
      var w, rest := words[k], words[k..];
      AssignExactly(w);
      assert rest[0] == w && rest[1..] == words[k + 1..];
      if IsAssign(w) {
        var i := IndexOf(w, '=');
        var key, value := w[..i], w[i + 1..];
        var b1 := PutKept(pairs, env, b, key, value);
        OneMore(words, pairs, key, value);
        pairs', b' := SplitFrom(words, pairs + [(key, value)], Put(env, key, value), b1);
      }
    }
  }

  lemma OneMore(words: seq<string>, pairs: seq<(string, string)>, key: string, value: string)
    requires |pairs| < |words| && AssignAll(words[..|pairs|], pairs) && Assigns(words[|pairs|], key, value)
    ensures AssignAll(words[..|pairs| + 1], pairs + [(key, value)])
  {
    var k := |pairs|;
    forall i | 0 <= i < k + 1 ensures Assigns(words[..k + 1][i], (pairs + [(key, value)])[i].0, (pairs + [(key, value)])[i].1) {
      if i < k { assert words[..k][i] == words[i]; }
    }
  }

  /** What the guard makes of the words of every simple command. */
  lemma LeafExactly(words: seq<string>) returns (pairs: seq<(string, string)>, b: Book)
    ensures LeafOf(words, pairs, b, SplitEnv([], words))
  {
    assert words[..0] == [] && words[0..] == words;
    pairs, b := SplitFrom(words, [], [], Book([], [], []));
  }
}
