/** The idempotency keys of verdicts (src/bus/workers/core.py): `run:node:kind` tells two
    steps apart exactly when neither run id continues the other after a colon. */
module VerdictKeys {
  import opened Common
  import opened Bus
  import opened Delivery
  import opened DeliverySafety

  /** One run id is the other one, a colon, and more. */
  predicate Entangled(run1: string, run2: string) { run1 + ":" <= run2 || run2 + ":" <= run1 }

  lemma SuffixSeparates(node1: string, v1: Verdict, node2: string, v2: Verdict)
    requires node1 + ":" + Suffix(v1) == node2 + ":" + Suffix(v2)
    ensures node1 == node2 && v1.Finished? == v2.Finished?
  {
    var t1, t2 := node1 + ":" + Suffix(v1), node2 + ":" + Suffix(v2);
    assert t1[|t1| - 2] == Suffix(v1)[|Suffix(v1)| - 2];
    assert t2[|t2| - 2] == Suffix(v2)[|Suffix(v2)| - 2];
    assert "finished"[6] == 'e' && "failed"[4] == 'e';
    assert t1[|t1| - 3] == Suffix(v1)[|Suffix(v1)| - 3];
    assert t2[|t2| - 3] == Suffix(v2)[|Suffix(v2)| - 3];
    assert "finished"[5] == 'h' && "failed"[3] == 'l';
    assert t1[..|node1|] == node1 && t2[..|node2|] == node2;
  }

  lemma KeyForm(run: string, node: string, v: Verdict)
    ensures var tail := node + ":" + Suffix(v);
            && VerdictKey(run, node, v) == run + ":" + tail
            && run + ":" <= VerdictKey(run, node, v)
            && VerdictKey(run, node, v)[|run| + 1..] == tail
  {
    assert VerdictKey(run, node, v) == run + ":" + (node + ":" + Suffix(v));
  }

  lemma PrefixesOfOne(a: string, b: string, t: string)
    requires a + ":" <= t && b + ":" <= t && |a| <= |b|
    ensures a == b || a + ":" <= b
  {
    if |a| == |b| {
      assert a == (a + ":")[..|a|] == t[..|a|] && b == (b + ":")[..|b|] == t[..|b|];
    } else {
      assert b == (b + ":")[..|b|] == t[..|b|];
    }
  }

  lemma SharedKeyEntangles(run1: string, node1: string, v1: Verdict, run2: string, node2: string, v2: Verdict)
    requires VerdictKey(run1, node1, v1) == VerdictKey(run2, node2, v2)
    ensures run1 == run2 || Entangled(run1, run2)
  {
    KeyForm(run1, node1, v1);
    KeyForm(run2, node2, v2);
    if |run1| <= |run2| {
      PrefixesOfOne(run1, run2, VerdictKey(run1, node1, v1));
    } else {
      PrefixesOfOne(run2, run1, VerdictKey(run1, node1, v1));
    }
  }

  /** The key encoding separates runs, nodes and kinds as long as the run ids are not
      entangled; a run id is never entangled with itself. */
  lemma KeySeparates(run1: string, node1: string, v1: Verdict, run2: string, node2: string, v2: Verdict)
    requires !Entangled(run1, run2)
    ensures VerdictKey(run1, node1, v1) == VerdictKey(run2, node2, v2) <==>
            run1 == run2 && node1 == node2 && v1.Finished? == v2.Finished?
    ensures !Entangled(run1, run1)
  {
    if VerdictKey(run1, node1, v1) == VerdictKey(run2, node2, v2) {
      SharedKeyEntangles(run1, node1, v1, run2, node2, v2);
      KeyForm(run1, node1, v1);
      KeyForm(run2, node2, v2);
      SuffixSeparates(node1, v1, node2, v2);
    }
  }

  /** Two steps of different runs with one verdict key. */
  predicate SharesKey(run1: string, node1: string, run2: string, node2: string, v: Verdict) {
    VerdictKey(run1, node1, v) == VerdictKey(run2, node2, v)
  }

  lemma EntangledShares(run1: string, run2: string, node2: string, v: Verdict) returns (node1: string)
    requires run1 + ":" <= run2
    ensures SharesKey(run1, node1, run2, node2, v)
  {
    var more := run2[|run1| + 1..];
    node1 := more + ":" + node2;
    assert run2 == run1 + ":" + more;
    KeyForm(run1, node1, v);
    assert VerdictKey(run1, node1, v) == run1 + ":" + (more + ":" + node2 + ":" + Suffix(v));
  }

  /** Steps of two different runs can share a verdict key exactly when the run ids are
      entangled. */
  lemma KeysCollideExactly(run1: string, run2: string)
    requires run1 != run2
    ensures (exists node1, node2, v :: SharesKey(run1, node1, run2, node2, v)) <==> Entangled(run1, run2)
  {
    if run1 + ":" <= run2 {
      var node1 := EntangledShares(run1, run2, "", Finished(""));
      assert SharesKey(run1, node1, run2, "", Finished(""));
    } else if run2 + ":" <= run1 {
      var node2 := EntangledShares(run2, run1, "", Finished(""));
      assert SharesKey(run1, "", run2, node2, Finished(""));
    } else {
      forall node1, node2, v ensures !SharesKey(run1, node1, run2, node2, v) {
        if SharesKey(run1, node1, run2, node2, v) { SharedKeyEntangles(run1, node1, v, run2, node2, v); }
      }
    }
  }

  /** Steps of one run never share a key. */
  lemma OneRunNeverCollides(run: string, node1: string, v1: Verdict, node2: string, v2: Verdict)
    ensures VerdictKey(run, node1, v1) == VerdictKey(run, node2, v2) <==> node1 == node2 && v1.Finished? == v2.Finished?
  {
    KeySeparates(run, node1, v1, run, node2, v2);
  }

  // ------------------------------------------------- what a shared key does

  const WORKER: Config := Config("g", {"s"}, map["k" := Worker("t")], None, 0, false)

  function Dispatched(key: string, run: string, node: string): Event {
    Event("k", key, run, Dispatch(node, Dict("t", "")))
  }

  predicate Leads(s: Sys, run: seq<Label>, t: Sys) { Legal(s, run) && Delivery.After(s, run) == t }

  lemma {:induction false} Then(s: Sys, run: seq<Label>, t: Sys, l: Label)
    requires Leads(s, run, t) && Enabled(t, l)
    ensures Leads(s, run + [l], Apply(t, l))
    decreases |run|
  {
    var longer := run + [l];
    if run == [] {
      assert longer[1..] == [] && Legal(Apply(s, l), []);
    } else {
      Then(Apply(s, run[0]), run[1..], t, l);
      assert longer[1..] == run[1..] + [l];
    }
  }

  /** The machine with one such worker, which has replayed some events and has others to go. */
  function Working(bus: State, completions: seq<Completion>, again: seq<Event>, n: nat, phase: Phase): Sys {
    Sys(bus, [], [], completions, map[0 := Runner(WORKER, {}, [], [], again, phase, Zero.(again := n))])
  }

  lemma Begins(bus: State, completions: seq<Completion>, again: seq<Event>, n: nat)
    requires again != [] && again[0].kind == "k"
    ensures Enabled(Working(bus, completions, again, n, Idle), Begin(0))
    ensures Apply(Working(bus, completions, again, n, Idle), Begin(0)) ==
            Working(bus, completions, again, n, Running(1, Entered))
  {
    assert HandlerFor(WORKER, "k") == Some(Worker("t"));
  }

  lemma Executes(bus: State, completions: seq<Completion>, again: seq<Event>, n: nat, v: Verdict)
    requires again != [] && again[0].kind == "k" && Matches(Worker("t"), again[0])
    ensures Enabled(Working(bus, completions, again, n, Running(1, Entered)), Exec(0, v))
    ensures Apply(Working(bus, completions, again, n, Running(1, Entered)), Exec(0, v)) ==
            Working(bus, completions, again, n, Running(1, Saved(v)))
  {
    assert HandlerFor(WORKER, "k") == Some(Worker("t"));
  }

  function Told(bus: State, e: Event, v: Verdict): State { Publish(bus, RESULTS, VerdictEvent(RowFor(e, v))) }

  lemma Announces(bus: State, completions: seq<Completion>, again: seq<Event>, n: nat, v: Verdict)
    requires again != []
    ensures Enabled(Working(bus, completions, again, n, Running(1, Saved(v))), Announce(0, Ok))
    ensures Apply(Working(bus, completions, again, n, Running(1, Saved(v))), Announce(0, Ok)) ==
            Working(Told(bus, again[0], v), completions + [Completion(WORKER, again[0])], again[1..], n + 1, Idle)
  {
  }

  /** One event through the worker: begin, execute, announce. */
  lemma HandleOne(s: Sys, run: seq<Label>, bus: State, completions: seq<Completion>, again: seq<Event>, n: nat, v: Verdict)
    returns (run': seq<Label>)
    requires Leads(s, run, Working(bus, completions, again, n, Idle))
    requires again != [] && Matches(Worker("t"), again[0]) && again[0].kind == "k"
    ensures Leads(s, run', Working(Told(bus, again[0], v), completions + [Completion(WORKER, again[0])], again[1..], n + 1, Idle))
  {
    Begins(bus, completions, again, n);
    Then(s, run, Working(bus, completions, again, n, Idle), Begin(0));
    Executes(bus, completions, again, n, v);
    Then(s, run + [Begin(0)], Working(bus, completions, again, n, Running(1, Entered)), Exec(0, v));
    Announces(bus, completions, again, n, v);
    Then(s, run + [Begin(0)] + [Exec(0, v)], Working(bus, completions, again, n, Running(1, Saved(v))), Announce(0, Ok));
    run' := run + [Begin(0)] + [Exec(0, v)] + [Announce(0, Ok)];
  }

  const START: Sys := Working(Empty, [], [], 0, Idle)

  lemma Emits(bus: State, e: Event)
    ensures Enabled(Working(bus, [], [], 0, Idle), Emit("s", e))
    ensures Apply(Working(bus, [], [], 0, Idle), Emit("s", e)) == Working(Publish(bus, "s", e), [], [], 0, Idle)
  {
  }

  lemma Replays(bus: State)
    ensures Enabled(Working(bus, [], [], 0, Idle), Replay(0, "s"))
    ensures Apply(Working(bus, [], [], 0, Idle), Replay(0, "s")) == Working(bus, [], EventsOf(Entries(bus, "s")), 0, Idle)
  {
  }

  function Twice(e1: Event, e2: Event): State { Publish(Publish(Empty, "s", e1), "s", e2) }

  lemma TwoEvents(e1: Event, e2: Event)
    requires e1.key != e2.key
    ensures EventsOf(Entries(Twice(e1, e2), "s")) == [e1, e2]
    ensures Entries(Twice(e1, e2), RESULTS) == [] && KeysOf(Twice(e1, e2), RESULTS) == map[]
  {
    assert Entries(Twice(e1, e2), "s") == [Entry(1, e1), Entry(2, e2)];
    assert RESULTS != "s" by { assert |RESULTS| != |"s"|; }
  }

  /** Two events on the stream, and a replay of it. */
  lemma SetUp(e1: Event, e2: Event) returns (run: seq<Label>)
    requires e1.key != e2.key
    ensures Leads(START, run, Working(Twice(e1, e2), [], [e1, e2], 0, Idle))
  {
    assert Leads(START, [], START);
    Emits(Empty, e1);
    Then(START, [], START, Emit("s", e1));
    var bus1 := Publish(Empty, "s", e1);
    Emits(bus1, e2);
    Then(START, [] + [Emit("s", e1)], Working(bus1, [], [], 0, Idle), Emit("s", e2));
    Replays(Twice(e1, e2));
    TwoEvents(e1, e2);
    Then(START, [] + [Emit("s", e1)] + [Emit("s", e2)], Working(Twice(e1, e2), [], [], 0, Idle), Replay(0, "s"));
    run := [] + [Emit("s", e1)] + [Emit("s", e2)] + [Replay(0, "s")];
  }

  /** The second verdict finds its key taken. */
  lemma SecondIsSwallowed(bus: State, e1: Event, e2: Event, v: Verdict)
    requires Entries(bus, RESULTS) == [] && KeysOf(bus, RESULTS) == map[]
    requires VerdictEvent(RowFor(e1, v)).key == VerdictEvent(RowFor(e2, v)).key
    ensures Told(Told(bus, e1, v), e2, v) == Told(bus, e1, v)
    ensures Entries(Told(bus, e1, v), RESULTS) == [Entry(bus.seqNo + 1, VerdictEvent(RowFor(e1, v)))]
  {
  }

  /** Both events handled, one after the other. */
  function Handled(e1: Event, e2: Event, v: Verdict): Sys {
    Working(Told(Told(Twice(e1, e2), e1, v), e2, v),
            [] + [Completion(WORKER, e1)] + [Completion(WORKER, e2)], [e1, e2][1..][1..], 2, Idle)
  }

  function HandledFirst(e1: Event, e2: Event, v: Verdict): Sys {
    Working(Told(Twice(e1, e2), e1, v), [] + [Completion(WORKER, e1)], [e1, e2][1..], 1, Idle)
  }

  predicate ForWorker(e: Event) { e.kind == "k" && Matches(Worker("t"), e) }

  lemma HandleFirst(e1: Event, e2: Event, v: Verdict) returns (run: seq<Label>)
    requires e1.key != e2.key && ForWorker(e1)
    ensures Leads(START, run, HandledFirst(e1, e2, v))
  {
    run := SetUp(e1, e2);
    run := HandleOne(START, run, Twice(e1, e2), [], [e1, e2], 0, v);
  }

  lemma HandleBoth(e1: Event, e2: Event, v: Verdict) returns (run: seq<Label>)
    requires e1.key != e2.key && ForWorker(e1) && ForWorker(e2)
    ensures Leads(START, run, Handled(e1, e2, v))
  {
    run := HandleFirst(e1, e2, v);
    run := HandleOne(START, run, Told(Twice(e1, e2), e1, v), [] + [Completion(WORKER, e1)], [e1, e2][1..], 1, v);
  }

  lemma OnlyFirstVerdict(e1: Event, e2: Event, v: Verdict, s: Sys)
    requires e1.key != e2.key && e1.run != e2.run && VerdictEvent(RowFor(e1, v)).key == VerdictEvent(RowFor(e2, v)).key
    requires s.bus == Told(Told(Twice(e1, e2), e1, v), e2, v)
    ensures forall i :: 0 <= i < |Entries(s.bus, RESULTS)| ==> RowIn(Entries(s.bus, RESULTS)[i].event).run != e2.run
  {
    TwoEvents(e1, e2);
    SecondIsSwallowed(Twice(e1, e2), e1, e2, v);
  }

  /** Whenever two steps of different runs share a key, there is a run of the machine in
      which the worker completes on the second step and no verdict of its run ever
      appears: the verdict of the first step has taken its key. */
  lemma SharedKeySwallows(run1: string, node1: string, run2: string, node2: string, v: Verdict)
    returns (run: seq<Label>, s: Sys)
    requires run1 != run2 && SharesKey(run1, node1, run2, node2, v)
    ensures Initial(START) && Leads(START, run, s)
    ensures Completion(WORKER, Dispatched("2", run2, node2)) in s.completions
    ensures forall i :: 0 <= i < |Entries(s.bus, RESULTS)| ==> RowIn(Entries(s.bus, RESULTS)[i].event).run != run2
  {
    var e1, e2 := Dispatched("1", run1, node1), Dispatched("2", run2, node2);
    run := HandleBoth(e1, e2, v);
    s := Handled(e1, e2, v);
    OnlyFirstVerdict(e1, e2, v, s);
    assert s.completions[1] == Completion(WORKER, e2);
  }
}
