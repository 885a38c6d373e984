/** The promises of the delivery protocol, over every run of the machine. */
module DeliveryLaws {
  import opened Common
  import opened Bus
  import opened Delivery
  import opened DeliverySafety
  import opened VerdictKeys

  // -------------------------------------------------- reachable states

  lemma ReachedBus(s: Sys, run: seq<Label>)
    requires Initial(s) && Legal(s, run)
    ensures Inv(Delivery.After(s, run).bus)
  {
    InitialInv(s);
    RunKeepsInv(s, run);
  }

  lemma ReachedRunner(s: Sys, run: seq<Label>, r: nat)
    requires Initial(s) && Legal(s, run) && r in Delivery.After(s, run).runners
    ensures RunnerOk(Delivery.After(s, run), Delivery.After(s, run).runners[r])
  {
    InitialInv(s);
    RunKeepsInv(s, run);
  }

  lemma ReachedResults(s: Sys, run: seq<Label>)
    requires Initial(s) && Legal(s, run)
    ensures ResultsOk(Delivery.After(s, run)) && StreamInv(Delivery.After(s, run).bus, RESULTS)
  {
    InitialInv(s);
    RunKeepsInv(s, run);
  }

  lemma ReachedAnswers(s: Sys, run: seq<Label>, c: Completion)
    requires Initial(s) && Legal(s, run) && c in Delivery.After(s, run).completions
    ensures Answered(Delivery.After(s, run), c)
  {
    InitialInv(s);
    RunKeepsInv(s, run);
  }

  // ------------------------------------------------------- at-least-once

  /** However calls are lost, runners crash and steps interleave: every published
      entry is still to be delivered, pending, or accounted for by a completed
      handler, a parked copy, or a runner without a handler for its type. */
  lemma NoDeliveryLost(s: Sys, run: seq<Label>, stream: string, g: string, i: nat)
    requires Initial(s) && Legal(s, run)
    requires i < |Entries(Delivery.After(s, run).bus, stream)|
    ensures var s' := Delivery.After(s, run);
            var e := Entries(s'.bus, stream)[i];
            || e.id > Cursor(s'.bus, stream, g)
            || e.id in PendingOf(s'.bus, stream, g)
            || HandledKey(s', g, e.event.key)
            || (exists r :: r in s'.runners && s'.runners[r].cfg.group == g
                            && HandlerFor(s'.runners[r].cfg, e.event.kind).None?)
            || ParkedIn(s', stream, e.event)
  {
    InitialInv(s);
    RunKeepsInv(s, run);
    assert KeptAt(Delivery.After(s, run), stream, g, Entries(Delivery.After(s, run).bus, stream)[i]);
  }

  /** The step that takes an entry out of a pending set finds it accounted for. */
  lemma PendingLeftOnlyAccounted(s: Sys, run: seq<Label>, l: Label, stream: string, g: string, e: Entry)
    requires Initial(s) && Legal(s, run) && Enabled(Delivery.After(s, run), l)
    requires e in Entries(Delivery.After(s, run).bus, stream)
    requires e.id in PendingOf(Delivery.After(s, run).bus, stream, g)
    requires e.id !in PendingOf(Apply(Delivery.After(s, run), l).bus, stream, g)
    ensures Accounted(Delivery.After(s, run), stream, g, e)
  {
    ReachedBus(s, run);
    var s1 := Delivery.After(s, run);
    if l.Ack? && !l.reply.Lost? {
      ReachedRunner(s, run, l.r);
    }
    AckIsTheOnlyWayOut(s1, l, stream, g, e);
  }

  lemma AckIsTheOnlyWayOut(s: Sys, l: Label, stream: string, g: string, e: Entry)
    requires Enabled(s, l) && Inv(s.bus) && e in Entries(s.bus, stream)
    requires l.Ack? && !l.reply.Lost? ==> RunnerOk(s, s.runners[l.r])
    requires e.id in PendingOf(s.bus, stream, g) && e.id !in PendingOf(Apply(s, l).bus, stream, g)
    ensures Accounted(s, stream, g, e)
  {
    assert StreamInv(s.bus, stream);
    if BusOp(s, l).Some? {
      var op := BusOp(s, l).value;
      if Foreign(s.bus, op, stream, g) {
        ForeignGroup(s.bus, op, stream, g);
      } else if op.ReadOp? {
        var entries, cursor := Entries(s.bus, stream), Cursor(s.bus, stream, g);
        var k, n := ReadAdvances(entries, cursor, op.count);
        ReadPending(entries, PendingOf(s.bus, stream, g), k, n, e.id);
      } else {
        AckAccounts(s, l, e);
      }
    }
  }

  // --------------------------------------------------- choosing a handler

  /** A delivery goes to the handler of its type, or else to the default one: it is a
      duplicate if its key was handled before, runs if there is such a handler (and the
      retry limit allows one call), and is acknowledged unhandled if there is none. */
  lemma DeliveryStarts(s: Sys, r: nat)
    requires Enabled(s, Begin(r)) && s.runners[r].batch != []
    ensures var rs, e := s.runners[r], s.runners[r].batch[0].entry.event;
            var registered := e.kind in rs.cfg.handlers || rs.cfg.fallback.Some?;
            Apply(s, Begin(r)).runners[r].phase ==
            if e.key in rs.seen then Acking(Duplicate)
            else if !registered then Acking(Unhandled)
            else if rs.cfg.maxRetries >= 0 then Running(1, Entered) else Parking
  {
  }

  /** The steps open to a running handler are those of the registered one, which goes
      before the default. */
  lemma RegisteredGoesFirst(s: Sys, r: nat, v: Verdict, ok: bool)
    requires r in s.runners && InHandler(s.runners[r], Entered)
    ensures var rs, e := s.runners[r], Current(s.runners[r]);
            var h := if e.kind in rs.cfg.handlers then rs.cfg.handlers[e.kind] else rs.cfg.fallback.value;
            && (Enabled(s, Return(r, ok)) <==> h == Opaque)
            && (Enabled(s, Exec(r, v)) <==>
                h.Worker? && e.payload.Dispatch? && e.payload.node.Dict? && e.payload.node.nodeType == h.nodeType)
            && (Enabled(s, Skip(r)) <==> h.Worker? && !Enabled(s, Exec(r, v)))
  {
  }

  // ---------------------------------------- brokers that do not redeliver

  predicate Holds(rs: Runner, stream: string, id: nat) {
    exists i :: 0 <= i < |rs.batch| && rs.batch[i].stream == stream && rs.batch[i].entry.id == id
  }

  /** A pending entry that no runner of its group is working on: its runner crashed,
      or the acknowledgement was lost. */
  predicate Stranded(s: Sys, stream: string, g: string, id: nat) {
    && id in PendingOf(s.bus, stream, g)
    && forall r :: r in s.runners && s.runners[r].cfg.group == g ==> !Holds(s.runners[r], stream, id)
  }

  /** A poll hands out entries past the cursor only. */
  lemma PollIsFresh(s: Sys, stream: string, g: string, count: int, id: nat, i: nat)
    requires Inv(s.bus) && id in PendingOf(s.bus, stream, g) && i < |Batch(s.bus, stream, g, count)|
    ensures Batch(s.bus, stream, g, count)[i].id != id
  {
    assert StreamInv(s.bus, stream) && GroupInv(s.bus, stream, g);
    var k, n := ReadAdvances(Entries(s.bus, stream), Cursor(s.bus, stream, g), count);
    assert Entries(s.bus, stream)[k + i].id > Cursor(s.bus, stream, g);
  }

  lemma StrandedRunner(s: Sys, l: Label, stream: string, g: string, id: nat)
    requires Inv(s.bus) && Stranded(s, stream, g, id) && Enabled(s, l) && ByRunner(l) && !l.Redeliver?
    requires s.runners[l.r].cfg.group == g
    ensures !Holds(RunnerAfter(s, l), stream, id)
  {
    var rs, rs' := s.runners[l.r], RunnerAfter(s, l);
    if l.Poll? && l.reply.Ok? && l.s == stream {
      forall i | 0 <= i < |rs'.batch| ensures rs'.batch[i].entry.id != id {
        PollIsFresh(s, stream, g, l.count, id, i);
      }
    } else if !l.Poll? {
      assert rs'.batch == [] || rs'.batch == rs.batch || rs'.batch == rs.batch[1..];
    }
  }

  lemma StrandedPending(s: Sys, l: Label, stream: string, g: string, id: nat)
    requires Inv(s.bus) && Stranded(s, stream, g, id) && Enabled(s, l)
    ensures id in PendingOf(Apply(s, l).bus, stream, g)
  {
    if BusOp(s, l).Some? {
      var op := BusOp(s, l).value;
      if Foreign(s.bus, op, stream, g) {
        ForeignGroup(s.bus, op, stream, g);
      } else if op.ReadOp? {
        assert StreamInv(s.bus, stream);
        var k, n := ReadAdvances(Entries(s.bus, stream), Cursor(s.bus, stream, g), op.count);
        ReadPending(Entries(s.bus, stream), PendingOf(s.bus, stream, g), k, n, id);
      } else {
        assert !Holds(s.runners[l.r], stream, id);
      }
    }
  }

  lemma StrandedStep(s: Sys, l: Label, stream: string, g: string, id: nat)
    requires Inv(s.bus) && Stranded(s, stream, g, id) && Enabled(s, l) && !l.Redeliver?
    ensures Stranded(Apply(s, l), stream, g, id)
  {
    StrandedPending(s, l, stream, g, id);
    StepGrows(s, l);
    var s' := Apply(s, l);
    forall r | r in s'.runners && s'.runners[r].cfg.group == g ensures !Holds(s'.runners[r], stream, id) {
      assert s.runners[r].cfg == s'.runners[r].cfg;
      if ByRunner(l) && r == l.r { StrandedRunner(s, l, stream, g, id); }
    }
  }

  /** The two brokers as written never redeliver.  Whatever then happens, an entry whose
      runner crashed or whose acknowledgement was lost stays pending and is in no later
      batch of its group. */
  lemma {:induction false} StrandedForGood(s: Sys, run: seq<Label>, stream: string, g: string, id: nat)
    requires Inv(s.bus) && Stranded(s, stream, g, id) && Legal(s, run)
    requires forall i :: 0 <= i < |run| ==> !run[i].Redeliver?
    ensures Stranded(Delivery.After(s, run), stream, g, id)
    decreases |run|
  {
    if run != [] {
      StepKeepsBus(s, run[0]);
      StrandedStep(s, run[0], stream, g, id);
      StrandedForGood(Apply(s, run[0]), run[1..], stream, g, id);
    }
  }

  /** A crash strands every delivery the runner had not acknowledged, as far as no other
      runner of the group holds it. */
  lemma CrashStrands(s: Sys, r: nat, d: Delivered)
    requires Inv(s.bus) && r in s.runners && d in s.runners[r].batch
    requires d.entry.id in PendingOf(s.bus, d.stream, s.runners[r].cfg.group)
    requires forall q :: q in s.runners && q != r && s.runners[q].cfg.group == s.runners[r].cfg.group ==>
               !Holds(s.runners[q], d.stream, d.entry.id)
    ensures Stranded(Apply(s, Crash(r)), d.stream, s.runners[r].cfg.group, d.entry.id)
  {
  }

  /** A broker that redelivers may hand a stranded entry to any waiting runner of the
      group, which then has exactly that entry to settle. */
  lemma RedeliveryRescues(s: Sys, r: nat, stream: string, id: nat)
    requires Inv(s.bus) && r in s.runners && Waiting(s.runners[r]) && stream in s.runners[r].cfg.streams
    requires id in PendingOf(s.bus, stream, s.runners[r].cfg.group)
    ensures Enabled(s, Redeliver(r, stream, id))
    ensures var batch := Apply(s, Redeliver(r, stream, id)).runners[r].batch;
            |batch| == 1 && batch[0].stream == stream && batch[0].entry.id == id && batch[0].entry in Entries(s.bus, stream)
  {
    assert GroupInv(s.bus, stream, s.runners[r].cfg.group);
  }

  // ------------------------------------------------------------- verdicts

  /** With persistence on, every verdict on the results stream is backed by the
      stored row of the same run, node and outcome; only a failure can instead be
      the dispatcher's own.  Holding after every run, it holds at every moment, so
      the row was there when the verdict appeared. */
  lemma VerdictsAreBacked(s: Sys, run: seq<Label>, i: nat)
    requires Initial(s) && Legal(s, run) && AllPersist(s)
    requires i < |Entries(Delivery.After(s, run).bus, RESULTS)|
    ensures var s' := Delivery.After(s, run);
            var row := RowIn(Entries(s'.bus, RESULTS)[i].event);
            && Entries(s'.bus, RESULTS)[i].event == VerdictEvent(row)
            && (row in s'.rows || (row.verdict.Failed? && row in s'.dispatcherFailures))
  {
    ReachedResults(s, run);
    PersistStays(s, run);
    var s' := Delivery.After(s, run);
    assert Backed(s', Entries(s'.bus, RESULTS)[i].event);
  }

  /** The name, body and key of a verdict event say the same thing. */
  predicate SaysFinished(e: Event) {
    e.kind == "step.finished" && e.payload.FinishedBody? && e.key == e.run + ":" + e.payload.nodeId + ":finished"
  }

  predicate SaysFailed(e: Event) {
    e.kind == "step.failed" && e.payload.FailedBody? && e.key == e.run + ":" + e.payload.nodeId + ":failed"
  }

  lemma KeyTexts(run: string, node: string)
    ensures VerdictKey(run, node, Finished("")) == run + ":" + node + ":finished"
    ensures VerdictKey(run, node, Failed("")) == run + ":" + node + ":failed"
  {
    assert ":" + "finished" == ":finished" && ":" + "failed" == ":failed";
    assert run + ":" + node + ":" + "finished" == run + ":" + node + (":" + "finished");
    assert run + ":" + node + ":" + "failed" == run + ":" + node + (":" + "failed");
  }

  /** After every run, each entry of the results stream is one or the other. */
  lemma VerdictsSpeakPlainly(s: Sys, run: seq<Label>, i: nat)
    requires Initial(s) && Legal(s, run) && i < |Entries(Delivery.After(s, run).bus, RESULTS)|
    ensures var e := Entries(Delivery.After(s, run).bus, RESULTS)[i].event; SaysFinished(e) || SaysFailed(e)
  {
    ReachedResults(s, run);
    var e := Entries(Delivery.After(s, run).bus, RESULTS)[i].event;
    assert Backed(Delivery.After(s, run), e);
    KeyTexts(e.run, RowIn(e).nodeId);
  }

  /** The event that tells a run of the outcome at one of its nodes. */
  predicate Tells(e: Event, run: string, node: string, v: Verdict) {
    && e.run == run
    && match v
       case Finished(output) => SaysFinished(e) && e.payload == FinishedBody(node, output)
       case Failed(error) => SaysFailed(e) && e.payload == FailedBody(node, error)
  }

  /** The runner is between its execution of the event and the announcement. */
  predicate HasRun(s: Sys, r: nat, e: Event, v: Verdict) {
    && r in s.runners
    && var rs := s.runners[r];
       && Busy(rs) && Current(rs) == e && rs.phase.Running? && !rs.phase.stage.Entered? && rs.phase.stage.v == v
       && (rs.cfg.persists && rs.phase.stage.Saved? && e.payload.Dispatch? ==> Row(e.run, e.payload.nodeId, v) in s.rows)
  }

  /** Nothing this runner does in the run gives the event up. */
  predicate OnlyPersists(run: seq<Label>, r: nat) {
    forall l <- run :: ByRunner(l) && l.r == r ==> l.Persist? && l.reply.Ok?
  }

  lemma {:induction false} OutcomeIsKept(s: Sys, run: seq<Label>, r: nat, e: Event, v: Verdict)
    requires Legal(s, run) && OnlyPersists(run, r) && HasRun(s, r, e, v)
    ensures HasRun(Delivery.After(s, run), r, e, v)
    ensures Delivery.After(s, run).runners[r].cfg == s.runners[r].cfg
    decreases |run|
  {
    if run != [] {
      assert run[0] in run;
      OutcomeIsKept(Apply(s, run[0]), run[1..], r, e, v);
    }
  }

  /** What publishing the verdict leaves: one new entry that tells it, or nothing new
      under a key that is taken. */
  predicate Announced(b: State, b': State, run: string, node: string, v: Verdict) {
    var key := run + ":" + node + (if v.Finished? then ":finished" else ":failed");
    var results, results' := Entries(b, RESULTS), Entries(b', RESULTS);
    if key in KeysOf(b, RESULTS) then results' == results
    else |results'| == |results| + 1 && results <= results' && Tells(results'[|results|].event, run, node, v)
  }

  lemma VerdictIsTold(b: State, run: string, node: string, v: Verdict)
    ensures Announced(b, Publish(b, RESULTS, VerdictEvent(Row(run, node, v))), run, node, v)
  {
    KeyTexts(run, node);
  }

  /** A worker that executed its event with outcome `v`, and then - whatever everybody
      else does meanwhile - gets to publish, tells that run about that node and that
      outcome; with persistence on, the row of it is stored. */
  lemma ExecutionIsAnnounced(s: Sys, r: nat, v: Verdict, run: seq<Label>, reply: Reply)
    requires Enabled(s, Exec(r, v)) && Legal(Apply(s, Exec(r, v)), run) && OnlyPersists(run, r) && !reply.Lost?
    requires Enabled(Delivery.After(Apply(s, Exec(r, v)), run), Announce(r, reply))
    ensures var e, s' := Current(s.runners[r]), Delivery.After(Apply(s, Exec(r, v)), run);
            && e.payload.Dispatch? && Announced(s'.bus, Apply(s', Announce(r, reply)).bus, e.run, e.payload.nodeId, v)
            && (s.runners[r].cfg.persists ==> Row(e.run, e.payload.nodeId, v) in s'.rows)
  {
    var e, s1 := Current(s.runners[r]), Apply(s, Exec(r, v));
    OutcomeIsKept(s1, run, r, e, v);
    VerdictIsTold(Delivery.After(s1, run).bus, e.run, e.payload.nodeId, v);
  }

  lemma {:induction false} PersistStays(s: Sys, run: seq<Label>)
    requires Legal(s, run) && AllPersist(s)
    ensures AllPersist(Delivery.After(s, run))
    decreases |run|
  {
    if run != [] {
      StepGrows(s, run[0]);
      var s' := Apply(s, run[0]);
      forall r | r in s'.runners ensures s'.runners[r].cfg.persists {
        assert s.runners[r].cfg == s'.runners[r].cfg;
      }
      PersistStays(s', run[1..]);
    }
  }

  /** Under any mix of redelivery, retry, replay, redrive, crash and dispatcher
      failure, a run and node get at most one verdict of each kind. */
  lemma OneVerdictPerKind(s: Sys, run: seq<Label>, i: nat, j: nat)
    requires Initial(s) && Legal(s, run)
    requires i < |Entries(Delivery.After(s, run).bus, RESULTS)| && j < |Entries(Delivery.After(s, run).bus, RESULTS)|
    requires var results := Entries(Delivery.After(s, run).bus, RESULTS);
             var a, b := RowIn(results[i].event), RowIn(results[j].event);
             a.run == b.run && a.nodeId == b.nodeId && a.verdict.Finished? == b.verdict.Finished?
    ensures i == j
  {
    ReachedResults(s, run);
    var b := Delivery.After(s, run).bus;
    var results := Entries(b, RESULTS);
    OneEntryPerKey(results, KeysOf(b, RESULTS), b.seqNo);
    assert Backed(Delivery.After(s, run), results[i].event) && Backed(Delivery.After(s, run), results[j].event);
    assert results[i].event.key == results[j].event.key;
  }

  /** A worker that completed on a matching event has a verdict of that very run
      and node on the results stream, unless a run on that stream is entangled with
      its own. */
  lemma CompletedIsAnswered(s: Sys, run: seq<Label>, c: Completion)
    requires Initial(s) && Legal(s, run) && c in Delivery.After(s, run).completions
    requires HandlerFor(c.cfg, c.event.kind).Some? && Matches(HandlerFor(c.cfg, c.event.kind).value, c.event)
    requires forall i :: 0 <= i < |Entries(Delivery.After(s, run).bus, RESULTS)| ==>
               !Entangled(Entries(Delivery.After(s, run).bus, RESULTS)[i].event.run, c.event.run)
    ensures exists i :: 0 <= i < |Entries(Delivery.After(s, run).bus, RESULTS)|
              && RowIn(Entries(Delivery.After(s, run).bus, RESULTS)[i].event).run == c.event.run
              && RowIn(Entries(Delivery.After(s, run).bus, RESULTS)[i].event).nodeId == c.event.payload.nodeId
  {
    ReachedResults(s, run);
    ReachedAnswers(s, run, c);
    var s' := Delivery.After(s, run);
    var results, keys := Entries(s'.bus, RESULTS), KeysOf(s'.bus, RESULTS);
    var v :| v in {Finished(""), Failed("")} && VerdictKey(c.event.run, c.event.payload.nodeId, v) in keys;
    var key := VerdictKey(c.event.run, c.event.payload.nodeId, v);
    assert Names(results, key, keys[key]);
    var i :| 0 <= i < |results| && results[i].id == keys[key] && results[i].event.key == key;
    assert Backed(s', results[i].event);
    var row := RowIn(results[i].event);
    KeySeparates(row.run, row.nodeId, row.verdict, c.event.run, c.event.payload.nodeId, v);
  }

  // ----------------------------------------------------------- accounting

  /** Whenever a runner is between deliveries, its counters add up: each delivery
      of the pass is processed, a duplicate, parked, unhandled, or was lost on the
      way to the dead-letter queue (which the pass counted as a broker error), and
      each parked delivery cost the full number of attempts. */
  lemma PassAddsUp(s: Sys, run: seq<Label>, r: nat)
    requires Initial(s) && Legal(s, run) && r in Delivery.After(s, run).runners
    requires Waiting(Delivery.After(s, run).runners[r])
    ensures var rs := Delivery.After(s, run).runners[r];
            var t, a := rs.tally, Attempts(rs.cfg);
            && t.deliveries == t.processed + t.duplicates + t.dlq + t.unhandled + t.lostParks
            && t.lostParks <= t.backendErrors
            && t.dlq * a <= t.errors <= t.deliveries * a
            && NoRepeats(rs.done) && KeySet(rs.done) == rs.seen
  {
    ReachedRunner(s, run, r);
    var rs := Delivery.After(s, run).runners[r];
    var t, a := rs.tally, Attempts(rs.cfg);
    MulMonotone(t.dlq, t.dlq + t.lostParks, a);
    MulMonotone(t.processed + t.dlq + t.lostParks, t.deliveries, a);
  }

  lemma MulMonotone(x: nat, y: nat, a: nat)
    requires x <= y
    ensures x * a <= y * a
  {
  }

  // --------------------------------------------------------------- replay

  /** Every execution in the run answers as `f` does. */
  predicate Follows(f: Event -> Verdict, s: Sys, run: seq<Label>)
    requires Legal(s, run)
    decreases |run|
  {
    run == [] ||
    ((run[0].Exec? ==> run[0].v == f(Current(s.runners[run[0].r])))
     && Follows(f, Apply(s, run[0]), run[1..]))
  }

  predicate StageFollows(f: Event -> Verdict, rs: Runner) {
    Busy(rs) && rs.phase.Running? && !rs.phase.stage.Entered? ==> rs.phase.stage.v == f(Current(rs))
  }

  /** The verdict `f` gives the event is on the results stream, under its key. */
  predicate SettledAs(f: Event -> Verdict, b: State, e: Event) {
    VerdictEvent(RowFor(e, f(e))).key in KeysOf(b, RESULTS)
  }

  predicate MatchedBy(c: Completion) {
    HandlerFor(c.cfg, c.event.kind).Some? && Matches(HandlerFor(c.cfg, c.event.kind).value, c.event)
  }

  ghost predicate FollowsInv(f: Event -> Verdict, s: Sys) {
    && (forall r :: r in s.runners ==> StageFollows(f, s.runners[r]))
    && (forall i :: 0 <= i < |s.completions| && MatchedBy(s.completions[i]) ==>
          SettledAs(f, s.bus, s.completions[i].event))
  }

  lemma StepStage(f: Event -> Verdict, s: Sys, l: Label)
    requires Enabled(s, l) && ByRunner(l) && StageFollows(f, s.runners[l.r])
    requires l.Exec? ==> l.v == f(Current(s.runners[l.r]))
    ensures StageFollows(f, RunnerAfter(s, l))
  {
  }

  lemma StepSettles(f: Event -> Verdict, s: Sys, l: Label)
    requires SysInv(s) && FollowsInv(f, s) && Enabled(s, l)
    requires Completes(l) && MatchedBy(Completion(s.runners[l.r].cfg, Current(s.runners[l.r])))
    ensures SettledAs(f, Apply(s, l).bus, Current(s.runners[l.r]))
  {
    var rs := s.runners[l.r];
    assert RunnerOk(s, rs) && StageFollows(f, rs);
    assert l.Announce?;
  }

  lemma StepKeepsFollowing(f: Event -> Verdict, s: Sys, l: Label)
    requires SysInv(s) && FollowsInv(f, s) && Enabled(s, l)
    requires l.Exec? ==> l.v == f(Current(s.runners[l.r]))
    ensures FollowsInv(f, Apply(s, l))
  {
    var s' := Apply(s, l);
    StepGrows(s, l);
    forall r | r in s'.runners ensures StageFollows(f, s'.runners[r]) {
      if ByRunner(l) && r == l.r { StepStage(f, s, l); }
    }
    forall i | 0 <= i < |s'.completions| && MatchedBy(s'.completions[i])
      ensures SettledAs(f, s'.bus, s'.completions[i].event)
    {
      assert KeysOf(s.bus, RESULTS).Keys <= KeysOf(s'.bus, RESULTS).Keys;
      if i < |s.completions| {
        assert SettledAs(f, s.bus, s.completions[i].event);
      } else {
        StepSettles(f, s, l);
      }
    }
  }

  lemma {:induction false} RunKeepsFollowing(f: Event -> Verdict, s: Sys, run: seq<Label>)
    requires SysInv(s) && FollowsInv(f, s) && Legal(s, run) && Follows(f, s, run)
    ensures FollowsInv(f, Delivery.After(s, run))
    decreases |run|
  {
    if run != [] {
      StepKeepsInv(s, run[0]);
      StepKeepsFollowing(f, s, run[0]);
      RunKeepsFollowing(f, Apply(s, run[0]), run[1..]);
    }
  }

  /** What the worker closure does to the broker for one event, all calls answering. */
  function Rehandled(f: Event -> Verdict, h: Handler, b: State, e: Event): State {
    if Matches(h, e) then Publish(b, RESULTS, VerdictEvent(RowFor(e, f(e)))) else b
  }

  /** The closure acts on a dispatched node of its own type only, and then tells the
      event's run the outcome for the event's node. */
  lemma ClosureAnnounces(f: Event -> Verdict, h: Handler, b: State, e: Event)
    ensures if h.Worker? && e.payload.Dispatch? && e.payload.node.Dict? && e.payload.node.nodeType == h.nodeType
            then Announced(b, Rehandled(f, h, b, e), e.run, e.payload.nodeId, f(e))
            else Rehandled(f, h, b, e) == b
  {
    if e.payload.Dispatch? { VerdictIsTold(b, e.run, e.payload.nodeId, f(e)); }
  }

  /** `Runner.replay`: the worker closure over the whole history, in order. */
  function Replayed(f: Event -> Verdict, cfg: Config, b: State, events: seq<Event>): State
    decreases |events|
  {
    if events == [] then b
    else
      var h := HandlerFor(cfg, events[0].kind);
      Replayed(f, cfg, if h.None? then b else Rehandled(f, h.value, b, events[0]), events[1..])
  }

  lemma {:induction false} ReplayOfSettledIsIdle(f: Event -> Verdict, cfg: Config, b: State, events: seq<Event>)
    requires forall i :: 0 <= i < |events| && MatchedBy(Completion(cfg, events[i])) ==> SettledAs(f, b, events[i])
    ensures Replayed(f, cfg, b, events) == b
    decreases |events|
  {
    if events != [] {
      forall i | 0 <= i < |events[1..]| && MatchedBy(Completion(cfg, events[1..][i]))
        ensures SettledAs(f, b, events[1..][i])
      {
        assert events[1..][i] == events[i + 1];
      }
      ReplayOfSettledIsIdle(f, cfg, b, events[1..]);
    }
  }

  /** Nothing to do for this worker, or some worker of the kind completed on it. */
  predicate WorkedOff(s: Sys, cfg: Config, e: Event) {
    MatchedBy(Completion(cfg, e)) ==>
      exists j :: 0 <= j < |s.completions| && s.completions[j].event == e && MatchedBy(s.completions[j])
  }

  predicate AllWorkedOff(s: Sys, cfg: Config, entries: seq<Entry>) {
    forall i :: 0 <= i < |entries| ==> WorkedOff(s, cfg, entries[i].event)
  }

  lemma WorkedOffIsSettled(f: Event -> Verdict, s: Sys, cfg: Config, e: Event)
    requires FollowsInv(f, s) && WorkedOff(s, cfg, e) && MatchedBy(Completion(cfg, e))
    ensures SettledAs(f, s.bus, e)
  {
    var j :| 0 <= j < |s.completions| && s.completions[j].event == e && MatchedBy(s.completions[j]);
  }

  /** Whatever run led here (lost calls, crashes, retries, other workers): once a
      worker of this type completed on every matching event of a stream, replaying
      the whole stream leaves the broker exactly as it is - results, cursors,
      pending sets and dead letters. */
  lemma ReplayChangesNothing(f: Event -> Verdict, s: Sys, run: seq<Label>, cfg: Config, stream: string)
    requires Initial(s) && Legal(s, run) && Follows(f, s, run)
    requires AllWorkedOff(Delivery.After(s, run), cfg, Entries(Delivery.After(s, run).bus, stream))
    ensures var b := Delivery.After(s, run).bus;
            Replayed(f, cfg, b, EventsOf(Entries(b, stream))) == b
  {
    InitialInv(s);
    RunKeepsFollowing(f, s, run);
    var s' := Delivery.After(s, run);
    var entries := Entries(s'.bus, stream);
    var events := EventsOf(entries);
    forall i | 0 <= i < |events| && MatchedBy(Completion(cfg, events[i])) ensures SettledAs(f, s'.bus, events[i]) {
      assert WorkedOff(s', cfg, entries[i].event);
      WorkedOffIsSettled(f, s', cfg, events[i]);
    }
    ReplayOfSettledIsIdle(f, cfg, s'.bus, events);
  }
}
