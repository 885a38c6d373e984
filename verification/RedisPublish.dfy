/** `RedisBackend.publish` of src/bus/redis_backend.py as concurrent publishers on
    one stream: each SET NX, GET, XADD and SET is one atomic step of the server,
    steps of different publishers interleave freely, and a publisher may die
    between any two of its steps.  Expiry of the idempotency key is not modelled. */
module RedisPublish {

  /** The idempotency key on the server: absent from the map, set to the empty
      marker, or set to a message id. */
  datatype Mark = Blank | Held(id: nat)

  datatype Entry = Entry(id: nat, key: string, author: nat)

  datatype Pc = AtSetNx | AtGet | AtXadd | AtSet(id: nat) | Returned(id: nat) | Crashed

  /** `late`: the key already held an id when this publish began.  `appended`: it
      has added an entry to the stream. */
  datatype Pub = Pub(key: string, pc: Pc, late: bool, appended: bool)

  datatype Redis = Redis(idem: map<string, Mark>, stream: seq<Entry>, pubs: map<nat, Pub>)

  const Fresh: Redis := Redis(map[], [], map[])

  datatype Step = Start(p: nat, key: string) | Next(p: nat) | Crash(p: nat)

  predicate Settled(s: Redis, key: string) { key in s.idem && s.idem[key].Held? }

  predicate Running(s: Redis, p: nat) {
    p in s.pubs && !s.pubs[p].pc.Returned? && !s.pubs[p].pc.Crashed?
  }

  predicate Enabled(s: Redis, step: Step) {
    match step
    case Start(p, _) => p !in s.pubs
    case Next(p) => Running(s, p)
    case Crash(p) => Running(s, p)
  }

  function SetNx(s: Redis, p: nat): Redis
    requires p in s.pubs
  {
    var pub := s.pubs[p];
    if pub.key in s.idem then s.(pubs := s.pubs[p := pub.(pc := AtGet)])
    else s.(idem := s.idem[pub.key := Blank], pubs := s.pubs[p := pub.(pc := AtXadd)])
  }

  function Get(s: Redis, p: nat): Redis
    requires p in s.pubs
  {
    var pub := s.pubs[p];
    s.(pubs := s.pubs[p := pub.(pc := if Settled(s, pub.key) then Returned(s.idem[pub.key].id) else AtXadd)])
  }

  function Xadd(s: Redis, p: nat): Redis
    requires p in s.pubs
  {
    var pub, id := s.pubs[p], |s.stream| + 1;
    s.(stream := s.stream + [Entry(id, pub.key, p)], pubs := s.pubs[p := pub.(pc := AtSet(id), appended := true)])
  }

  function SetId(s: Redis, p: nat): Redis
    requires p in s.pubs && s.pubs[p].pc.AtSet?
  {
    var pub := s.pubs[p];
    s.(idem := s.idem[pub.key := Held(pub.pc.id)], pubs := s.pubs[p := pub.(pc := Returned(pub.pc.id))])
  }

  function Apply(s: Redis, step: Step): Redis
    requires Enabled(s, step)
  {
    match step
    case Start(p, key) => s.(pubs := s.pubs[p := Pub(key, AtSetNx, Settled(s, key), false)])
    case Crash(p) => s.(pubs := s.pubs[p := s.pubs[p].(pc := Crashed)])
    case Next(p) =>
      match s.pubs[p].pc
      case AtSetNx => SetNx(s, p)
      case AtGet => Get(s, p)
      case AtXadd => Xadd(s, p)
      case AtSet(_) => SetId(s, p)
  }

  predicate Legal(s: Redis, run: seq<Step>)
    decreases |run|
  {
    run == [] || (Enabled(s, run[0]) && Legal(Apply(s, run[0]), run[1..]))
  }

  function After(s: Redis, run: seq<Step>): Redis
    requires Legal(s, run)
    decreases |run|
  {
    if run == [] then s else After(Apply(s, run[0]), run[1..])
  }

  // ------------------------------------------------- every interleaving

  predicate Carries(stream: seq<Entry>, id: nat, key: string) {
    1 <= id <= |stream| && stream[id - 1].id == id && stream[id - 1].key == key
  }

  /** What one publisher knows at its program point. */
  predicate PubOk(s: Redis, p: nat)
    requires p in s.pubs
  {
    var pub := s.pubs[p];
    && (pub.pc.AtSet? ==> Carries(s.stream, pub.pc.id, pub.key) && pub.appended)
    && (pub.pc.Returned? ==> Carries(s.stream, pub.pc.id, pub.key) && Settled(s, pub.key))
    && (pub.pc.AtGet? || pub.pc.AtXadd? || pub.pc.AtSet? ==> pub.key in s.idem)
    && (pub.pc.AtSetNx? || pub.pc.AtGet? || pub.pc.AtXadd? ==> !pub.appended)
    && (pub.late ==> Settled(s, pub.key) && !pub.appended && !pub.pc.AtXadd? && !pub.pc.AtSet?)
  }

  predicate EntryOk(s: Redis, i: nat)
    requires i < |s.stream|
  {
    var e := s.stream[i];
    e.id == i + 1 && e.author in s.pubs && s.pubs[e.author].key == e.key && s.pubs[e.author].appended
  }

  predicate Inv(s: Redis) {
    && (forall k :: k in s.idem && s.idem[k].Held? ==> Carries(s.stream, s.idem[k].id, k))
    && (forall p :: p in s.pubs ==> PubOk(s, p))
    && (forall i :: 0 <= i < |s.stream| ==> EntryOk(s, i))
    && (forall i, j :: 0 <= i < j < |s.stream| ==> s.stream[i].author != s.stream[j].author)
  }

  lemma StepKeepsPubs(s: Redis, step: Step, p: nat)
    requires Inv(s) && Enabled(s, step) && p in Apply(s, step).pubs
    ensures PubOk(Apply(s, step), p)
  {
    if step.Next? { assert PubOk(s, step.p); }
    if p in s.pubs { assert PubOk(s, p); }
  }

  lemma StepKeepsEntries(s: Redis, step: Step, i: nat)
    requires Inv(s) && Enabled(s, step) && i < |Apply(s, step).stream|
    ensures EntryOk(Apply(s, step), i)
  {
    if step.Next? { assert PubOk(s, step.p); }
    if i < |s.stream| { assert EntryOk(s, i); }
  }

  lemma StepKeepsInv(s: Redis, step: Step)
    requires Inv(s) && Enabled(s, step)
    ensures Inv(Apply(s, step))
  {
    var s' := Apply(s, step);
    forall p | p in s'.pubs ensures PubOk(s', p) { StepKeepsPubs(s, step, p); }
    forall i | 0 <= i < |s'.stream| ensures EntryOk(s', i) { StepKeepsEntries(s, step, i); }
    if step.Next? { assert PubOk(s, step.p); }
    if step.Next? && s.pubs[step.p].pc.AtXadd? {
      forall i | 0 <= i < |s.stream| ensures s.stream[i].author != step.p {
        assert EntryOk(s, i);
      }
    }
  }

  lemma {:induction false} RunKeepsInv(s: Redis, run: seq<Step>)
    requires Inv(s) && Legal(s, run)
    ensures Inv(After(s, run))
    decreases |run|
  {
    if run != [] {
      StepKeepsInv(s, run[0]);
      RunKeepsInv(Apply(s, run[0]), run[1..]);
    }
  }

  /** In every interleaving with crashes, an id a publish returns names the entry
      at that place of the stream, and that entry carries the publish's key. */
  lemma ReturnedIdNamesEntry(run: seq<Step>, p: nat)
    requires Legal(Fresh, run) && p in After(Fresh, run).pubs && After(Fresh, run).pubs[p].pc.Returned?
    ensures var s := After(Fresh, run);
            Carries(s.stream, s.pubs[p].pc.id, s.pubs[p].key)
  {
    RunKeepsInv(Fresh, run);
    assert PubOk(After(Fresh, run), p);
  }

  /** A publish that starts after some publish of the key has returned never
      appends: every entry of a key comes from a publish that began before the key
      held an id, and from a different publish than any other entry. */
  lemma LateStartsNeverAppend(run: seq<Step>, p: nat)
    requires Legal(Fresh, run) && p in After(Fresh, run).pubs
    ensures var s := After(Fresh, run);
            && (s.pubs[p].pc.Returned? ==> Settled(s, s.pubs[p].key))
            && (s.pubs[p].late ==> forall i :: 0 <= i < |s.stream| ==> s.stream[i].author != p)
            && (forall i, j :: 0 <= i < j < |s.stream| ==> s.stream[i].author != s.stream[j].author)
  {
    RunKeepsInv(Fresh, run);
    var s := After(Fresh, run);
    assert PubOk(s, p);
    forall i | 0 <= i < |s.stream| && s.pubs[p].late ensures s.stream[i].author != p {
      assert EntryOk(s, i);
    }
  }

  /** Once a key holds an id it holds one forever. */
  lemma {:induction false} SettledStays(s: Redis, run: seq<Step>, key: string)
    requires Legal(s, run) && Settled(s, key)
    ensures Settled(After(s, run), key)
    decreases |run|
  {
    if run != [] {
      SettledStays(Apply(s, run[0]), run[1..], key);
    }
  }

  // ------------------------------------------------------ how many entries

  function CountKey(stream: seq<Entry>, key: string): nat {
    if stream == [] then 0
    else CountKey(stream[..|stream| - 1], key) + if stream[|stream| - 1].key == key then 1 else 0
  }

  lemma CountAppend(stream: seq<Entry>, e: Entry, key: string)
    ensures CountKey(stream + [e], key) == CountKey(stream, key) + if e.key == key then 1 else 0
  {
    assert (stream + [e])[..|stream|] == stream;
  }

  /** The publishes of the key that are about to append. */
  function Appending(s: Redis, key: string): set<nat> {
    set p | p in s.pubs && s.pubs[p].key == key && s.pubs[p].pc.AtXadd?
  }

  function Claimed(s: Redis, key: string): nat { if key in s.idem then 1 else 0 }

  predicate Of(s: Redis, step: Step, key: string)
    requires Enabled(s, step)
  {
    (if step.Start? then step.key else s.pubs[step.p].key) == key
  }

  /** A GET of the key that finds the empty marker of another publish. */
  predicate ReadsBlank(s: Redis, step: Step, key: string)
    requires Enabled(s, step)
  {
    step.Next? && Of(s, step, key) && s.pubs[step.p].pc.AtGet? && !Settled(s, key)
  }

  /** A publish of the key that dies when it was about to append. */
  predicate LosesAppend(s: Redis, step: Step, key: string)
    requires Enabled(s, step)
  {
    step.Crash? && Of(s, step, key) && s.pubs[step.p].pc.AtXadd?
  }

  function Blind(s: Redis, run: seq<Step>, key: string): nat
    requires Legal(s, run)
    decreases |run|
  {
    if run == [] then 0
    else (if ReadsBlank(s, run[0], key) then 1 else 0) + Blind(Apply(s, run[0]), run[1..], key)
  }

  function Lost(s: Redis, run: seq<Step>, key: string): nat
    requires Legal(s, run)
    decreases |run|
  {
    if run == [] then 0
    else (if LosesAppend(s, run[0], key) then 1 else 0) + Lost(Apply(s, run[0]), run[1..], key)
  }

  lemma AppendingAfter(s: Redis, step: Step, key: string)
    requires Enabled(s, step) && Of(s, step, key)
    ensures var s' := Apply(s, step);
            Appending(s', key) == if step.p in s'.pubs && s'.pubs[step.p].pc.AtXadd? then Appending(s, key) + {step.p}
                                  else Appending(s, key) - {step.p}
  {
  }

  lemma OtherStep(s: Redis, step: Step, key: string)
    requires Enabled(s, step) && !Of(s, step, key)
    ensures var s' := Apply(s, step);
            && CountKey(s'.stream, key) == CountKey(s.stream, key) && Appending(s', key) == Appending(s, key)
            && Claimed(s', key) == Claimed(s, key)
  {
    if step.Next? { CountAppend(s.stream, Entry(|s.stream| + 1, s.pubs[step.p].key, step.p), key); }
  }

  /** One step: a publish comes to append by claiming the key or by reading blank, and
      leaves by appending or by dying. */
  lemma StepCounts(s: Redis, step: Step, key: string)
    requires Inv(s) && Enabled(s, step)
    ensures var s' := Apply(s, step);
            CountKey(s'.stream, key) + |Appending(s', key)| + (if LosesAppend(s, step, key) then 1 else 0) + Claimed(s, key)
            == CountKey(s.stream, key) + |Appending(s, key)| + (if ReadsBlank(s, step, key) then 1 else 0) + Claimed(s', key)
  {
    if Of(s, step, key) {
      AppendingAfter(s, step, key);
      if step.Next? {
        assert PubOk(s, step.p);
        CountAppend(s.stream, Entry(|s.stream| + 1, key, step.p), key);
      }
    } else {
      OtherStep(s, step, key);
    }
  }

  lemma {:induction false} RunCounts(s: Redis, run: seq<Step>, key: string)
    requires Inv(s) && Legal(s, run)
    ensures var s' := After(s, run);
            CountKey(s'.stream, key) + |Appending(s', key)| + Lost(s, run, key) + Claimed(s, key)
            == CountKey(s.stream, key) + |Appending(s, key)| + Blind(s, run, key) + Claimed(s', key)
    decreases |run|
  {
    if run != [] {
      StepCounts(s, run[0], key);
      StepKeepsInv(s, run[0]);
      RunCounts(Apply(s, run[0]), run[1..], key);
    }
  }

  /** In every interleaving with crashes: the entries of a key are one for the claim,
      one for every read of a blank marker, less the publishes that died before their
      append and those that have yet to make it. */
  lemma EntriesExactly(run: seq<Step>, key: string)
    requires Legal(Fresh, run)
    ensures var s := After(Fresh, run);
            CountKey(s.stream, key) + |Appending(s, key)| + Lost(Fresh, run, key) == Claimed(s, key) + Blind(Fresh, run, key)
  {
    RunCounts(Fresh, run, key);
    assert Appending(Fresh, key) == {};
  }

  /** So once a publish of the key has returned and none is about to append, there is
      exactly one entry exactly when the blank reads are as many as the lost appends;
      without crashes, exactly when nobody ever read a blank marker. */
  lemma ExactlyOneExactly(run: seq<Step>, key: string, p: nat)
    requires Legal(Fresh, run) && Appending(After(Fresh, run), key) == {}
    requires p in After(Fresh, run).pubs && After(Fresh, run).pubs[p].key == key && After(Fresh, run).pubs[p].pc.Returned?
    ensures CountKey(After(Fresh, run).stream, key) == 1 + Blind(Fresh, run, key) - Lost(Fresh, run, key)
    ensures CountKey(After(Fresh, run).stream, key) == 1 <==> Blind(Fresh, run, key) == Lost(Fresh, run, key)
    ensures Lost(Fresh, run, key) <= Blind(Fresh, run, key)
  {
    EntriesExactly(run, key);
    RunKeepsInv(Fresh, run);
    var s := After(Fresh, run);
    assert PubOk(s, p);
    var id := s.pubs[p].pc.id;
    HasOne(s.stream, id - 1, key);
  }

  lemma {:induction false} HasOne(stream: seq<Entry>, i: nat, key: string)
    requires i < |stream| && stream[i].key == key
    ensures CountKey(stream, key) >= 1
  {
    if i < |stream| - 1 { HasOne(stream[..|stream| - 1], i, key); }
  }

  lemma {:induction false} NoCrashLosesNothing(s: Redis, run: seq<Step>, key: string)
    requires Legal(s, run) && forall i :: 0 <= i < |run| ==> !run[i].Crash?
    ensures Lost(s, run, key) == 0
    decreases |run|
  {
    if run != [] { NoCrashLosesNothing(Apply(s, run[0]), run[1..], key); }
  }

  // ------------------------------------------------------ publishes in turn

  /** No publish of `key` starts while another one is running, and none dies. */
  predicate InTurn(s: Redis, run: seq<Step>, key: string)
    requires Legal(s, run)
    decreases |run|
  {
    run == [] ||
    (&& (run[0].Start? && run[0].key == key ==> forall p :: p in s.pubs && s.pubs[p].key == key ==> !Running(s, p))
     && (run[0].Crash? ==> s.pubs[run[0].p].key != key)
     && InTurn(Apply(s, run[0]), run[1..], key))
  }

  /** All publishes of the key but `p` have returned. */
  predicate OthersReturned(s: Redis, key: string, p: nat) {
    forall q :: q in s.pubs && s.pubs[q].key == key && q != p ==> s.pubs[q].pc.Returned?
  }

  /** `p` is the one publish of the key under way; nobody waits on a blank marker. */
  predicate Underway(s: Redis, key: string, p: nat) {
    && OthersReturned(s, key, p)
    && (p in s.pubs && s.pubs[p].key == key ==>
          && !s.pubs[p].pc.Crashed?
          && (s.pubs[p].pc.AtGet? ==> Settled(s, key))
          && (s.pubs[p].pc.AtXadd? ==> !Settled(s, key))
          && (s.pubs[p].pc.AtSetNx? || s.pubs[p].pc.Returned? ==> key !in s.idem || Settled(s, key)))
    && (p !in s.pubs || s.pubs[p].key != key ==> key !in s.idem || Settled(s, key))
  }

  ghost predicate TurnOk(s: Redis, key: string) { exists p: nat :: Underway(s, key, p) }

  lemma OthersKeepTurn(s: Redis, step: Step, key: string, p: nat)
    requires Enabled(s, step) && Underway(s, key, p) && !Of(s, step, key)
    ensures Underway(Apply(s, step), key, p)
  {
  }

  lemma NextInTurn(s: Redis, step: Step, key: string, p: nat) returns (q: nat)
    requires Enabled(s, step) && Underway(s, key, p) && Of(s, step, key) && !step.Crash?
    requires step.Start? ==> forall r :: r in s.pubs && s.pubs[r].key == key ==> !Running(s, r)
    ensures Underway(Apply(s, step), key, q) && !ReadsBlank(s, step, key) && !LosesAppend(s, step, key)
  {
    q := step.p;
  }

  /** Publishes in turn never read a blank marker, and lose nothing. */
  lemma {:induction false} InTurnReadsNoBlank(s: Redis, run: seq<Step>, key: string, p: nat)
    requires Underway(s, key, p) && Legal(s, run) && InTurn(s, run, key)
    ensures Blind(s, run, key) == 0 && Lost(s, run, key) == 0 && TurnOk(After(s, run), key)
    decreases |run|
  {
    if run != [] {
      var q := p;
      if Of(s, run[0], key) { q := NextInTurn(s, run[0], key, p); } else { OthersKeepTurn(s, run[0], key, p); }
      InTurnReadsNoBlank(Apply(s, run[0]), run[1..], key, q);
    } else {
      assert Underway(After(s, run), key, p);
    }
  }

  /** When the publishes of a key neither overlap nor crash, then once one of them has
      returned the stream holds exactly one entry of the key. */
  lemma InTurnMeansExactlyOne(run: seq<Step>, key: string, p: nat)
    requires Legal(Fresh, run) && InTurn(Fresh, run, key)
    requires p in After(Fresh, run).pubs && After(Fresh, run).pubs[p].key == key
    requires After(Fresh, run).pubs[p].pc.Returned?
    ensures CountKey(After(Fresh, run).stream, key) == 1
  {
    InTurnReadsNoBlank(Fresh, run, key, 0);
    RunKeepsInv(Fresh, run);
    var s := After(Fresh, run);
    assert PubOk(s, p);
    var q: nat :| Underway(s, key, q);
    assert Appending(s, key) == {};
    ExactlyOneExactly(run, key, p);
  }

  lemma Prepend(s: Redis, step: Step, rest: seq<Step>)
    requires Enabled(s, step) && Legal(Apply(s, step), rest)
    ensures Legal(s, [step] + rest) && After(s, [step] + rest) == After(Apply(s, step), rest)
  {
    assert ([step] + rest)[1..] == rest;
  }

  lemma TwoEntries(stream: seq<Entry>, a: Entry, b: Entry)
    requires stream == [a] + [b] && a.key == b.key
    ensures CountKey(stream, a.key) == 2
  {
    CountAppend([a], b, a.key);
    CountAppend([], a, a.key);
    assert [] + [a] == [a];
  }

  /** Overlapping publishes of one key can append twice, without any crash: the
      second finds the empty marker of the first. */
  lemma OverlapAppendsTwice() returns (run: seq<Step>)
    ensures Legal(Fresh, run) && CountKey(After(Fresh, run).stream, "k") == 2
    ensures forall i :: 0 <= i < |run| ==> !run[i].Crash?
  {
    var s1 := Apply(Fresh, Start(0, "k"));
    var s2 := Apply(s1, Next(0));
    var s3 := Apply(s2, Start(1, "k"));
    var s4 := Apply(s3, Next(1));
    var s5 := Apply(s4, Next(1));
    var s6 := Apply(s5, Next(1));
    var s7 := Apply(s6, Next(0));
    run := [];
    Prepend(s6, Next(0), run);
    run := [Next(0)] + run;
    Prepend(s5, Next(1), run);
    run := [Next(1)] + run;
    Prepend(s4, Next(1), run);
    run := [Next(1)] + run;
    Prepend(s3, Next(1), run);
    run := [Next(1)] + run;
    Prepend(s2, Start(1, "k"), run);
    run := [Start(1, "k")] + run;
    Prepend(s1, Next(0), run);
    run := [Next(0)] + run;
    Prepend(Fresh, Start(0, "k"), run);
    run := [Start(0, "k")] + run;
    TwoEntries(s7.stream, Entry(1, "k", 1), Entry(2, "k", 0));
  }

  /** A publish that dies between its append and its last SET makes the next one
      append again, although the two never overlap. */
  lemma CrashAppendsTwice() returns (run: seq<Step>)
    ensures Legal(Fresh, run) && CountKey(After(Fresh, run).stream, "k") == 2
    ensures run == [Start(0, "k"), Next(0), Next(0), Crash(0), Start(1, "k"), Next(1), Next(1), Next(1)]
  {
    var s1 := Apply(Fresh, Start(0, "k"));
    var s2 := Apply(s1, Next(0));
    var s3 := Apply(s2, Next(0));
    var s4 := Apply(s3, Crash(0));
    var s5 := Apply(s4, Start(1, "k"));
    var s6 := Apply(s5, Next(1));
    var s7 := Apply(s6, Next(1));
    var s8 := Apply(s7, Next(1));
    run := [];
    Prepend(s7, Next(1), run);
    run := [Next(1)] + run;
    Prepend(s6, Next(1), run);
    run := [Next(1)] + run;
    Prepend(s5, Next(1), run);
    run := [Next(1)] + run;
    Prepend(s4, Start(1, "k"), run);
    run := [Start(1, "k")] + run;
    Prepend(s3, Crash(0), run);
    run := [Crash(0)] + run;
    Prepend(s2, Next(0), run);
    run := [Next(0)] + run;
    Prepend(s1, Next(0), run);
    run := [Next(0)] + run;
    Prepend(Fresh, Start(0, "k"), run);
    run := [Start(0, "k")] + run;
    TwoEntries(s8.stream, Entry(1, "k", 0), Entry(2, "k", 1));
  }

  // ------------------------------------------------ one publish, undisturbed

  /** The server as one client sees it when nobody else writes in between. */
  class Server {
    var idem: map<string, Mark>
    var stream: seq<Entry>

    method SetIfAbsent(key: string) returns (set_: bool)
      modifies this`idem
      ensures set_ == (key !in old(idem))
      ensures idem == if set_ then old(idem)[key := Blank] else old(idem)
    {
      set_ := key !in idem;
      if set_ { idem := idem[key := Blank]; }
    }

    method Append(key: string, author: nat) returns (id: nat)
      modifies this`stream
      ensures id == |old(stream)| + 1 && stream == old(stream) + [Entry(id, key, author)]
    {
      id := |stream| + 1;
      stream := stream + [Entry(id, key, author)];
    }

    /** `publish`, run without interference: it ends as the machine does when one
        publisher takes its steps alone. */
    method Publish(key: string, author: nat) returns (id: nat)
      modifies this
      ensures forall pubs: map<nat, Pub> :: author !in pubs ==>
                Alone(Redis(old(idem), old(stream), pubs), author, key, Redis(idem, stream, pubs), id)
    {
      var claimed := SetIfAbsent(key);
      if !claimed {
        if idem[key].Held? {
          return idem[key].id;
        }
      }
      id := Append(key, author);
      idem := idem[key := Held(id)];
    }
  }

  /** From `s`, publisher `p` alone takes the server to `t` and returns `id`. */
  ghost predicate Alone(s: Redis, p: nat, key: string, t: Redis, id: nat)
    requires p !in s.pubs
  {
    var s1 := Apply(Apply(s, Start(p, key)), Next(p));
    var s2 := if s1.pubs[p].pc.AtGet? then Apply(s1, Next(p)) else s1;
    var s4 := if s2.pubs[p].pc.AtXadd? then Apply(Apply(s2, Next(p)), Next(p)) else s2;
    s4.idem == t.idem && s4.stream == t.stream && s4.pubs[p].pc == Returned(id)
  }
}
