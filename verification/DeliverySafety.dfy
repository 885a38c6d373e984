/** What every reachable state of the delivery machine keeps: nothing is lost,
    every acknowledgement is justified, every verdict is backed by a stored row,
    and the counters of a pass add up. */
module DeliverySafety {
  import opened Common
  import opened Bus
  import opened Delivery

  // ------------------------------------------------------------ invariants

  /** Some handler of the group completed on an event with this key. */
  predicate HandledKey(s: Sys, g: string, key: string) {
    exists i :: 0 <= i < |s.completions|
      && s.completions[i].cfg.group == g && s.completions[i].event.key == key
  }

  predicate ParkedIn(s: Sys, stream: string, e: Event) {
    exists i :: 0 <= i < |DlqOf(s.bus, stream)| && DlqOf(s.bus, stream)[i].event == e
  }

  predicate Justified(s: Sys, cfg: Config, d: Delivered, why: Why) {
    match why
    case Duplicate => HandledKey(s, cfg.group, d.entry.event.key)
    case Done => HandledKey(s, cfg.group, d.entry.event.key)
    case Unhandled => HandlerFor(cfg, d.entry.event.kind).None?
    case InDlq => ParkedIn(s, d.stream, d.entry.event)
  }

  function KeySet(keys: seq<string>): set<string> { set i | 0 <= i < |keys| :: keys[i] }

  predicate BatchOk(s: Sys, rs: Runner) {
    && (rs.batch == [] || rs.again == [])
    && (forall i :: 0 <= i < |rs.batch| ==>
          rs.batch[i].stream in rs.cfg.streams && rs.batch[i].entry in Entries(s.bus, rs.batch[i].stream))
  }

  /** A worker past its execution step: its event matched, and once past the
      persistence step its row is stored. */
  predicate StageOk(s: Sys, rs: Runner)
    requires Busy(rs) && rs.phase.Running? && HandlerFor(rs.cfg, Current(rs).kind).Some?
  {
    match rs.phase.stage
    case Entered => true
    case Executed(v) => Matches(HandlerOf(rs), Current(rs)) && rs.cfg.persists
    case Saved(v) =>
      && Matches(HandlerOf(rs), Current(rs))
      && (rs.cfg.persists ==> RowFor(Current(rs), v) in s.rows)
  }

  predicate PhaseOk(s: Sys, rs: Runner) {
    match rs.phase
    case Idle => true
    case Running(a, _) =>
      && Busy(rs) && a >= 1 && HandlerFor(rs.cfg, Current(rs).kind).Some?
      && (rs.batch != [] ==> a <= Attempts(rs.cfg) && Current(rs).key !in rs.seen)
      && StageOk(s, rs)
    case Parking => rs.batch != []
    case Acking(why) => rs.batch != [] && Justified(s, rs.cfg, rs.batch[0], why)
  }

  predicate SeenOk(s: Sys, rs: Runner) {
    && (forall k :: k in rs.seen ==> HandledKey(s, rs.cfg.group, k))
    && rs.seen == KeySet(rs.done)
    && NoRepeats(rs.done)
  }

  /** Handler failures charged to the delivery in progress. */
  function Charged(rs: Runner): nat {
    if rs.batch == [] then 0
    else if rs.phase.Running? && rs.phase.attempt >= 1 then rs.phase.attempt - 1
    else if rs.phase.Parking? then Attempts(rs.cfg)
    else 0
  }

  predicate TallyOk(rs: Runner) {
    var t := rs.tally;
    && t.deliveries + (if rs.phase.Acking? then 1 else 0)
       == |rs.batch| + t.processed + t.duplicates + t.dlq + t.unhandled + t.lostParks
    && t.lostParks <= t.backendErrors
    && (t.dlq + t.lostParks) * Attempts(rs.cfg) + Charged(rs) <= t.errors
    && t.errors <= (t.processed + t.dlq + t.lostParks) * Attempts(rs.cfg) + Charged(rs)
  }

  predicate RunnerOk(s: Sys, rs: Runner) {
    BatchOk(s, rs) && PhaseOk(s, rs) && SeenOk(s, rs) && TallyOk(rs)
  }

  /** Why a delivery may be gone from the pending set. */
  predicate Accounted(s: Sys, stream: string, g: string, e: Entry) {
    || HandledKey(s, g, e.event.key)
    || (exists r :: r in s.runners && s.runners[r].cfg.group == g
                    && HandlerFor(s.runners[r].cfg, e.event.kind).None?)
    || ParkedIn(s, stream, e.event)
  }

  predicate KeptAt(s: Sys, stream: string, g: string, e: Entry) {
    e.id > Cursor(s.bus, stream, g) || e.id in PendingOf(s.bus, stream, g) || Accounted(s, stream, g, e)
  }

  /** Every published entry is undelivered, pending or accounted for, in every group. */
  ghost predicate NothingLost(s: Sys) {
    forall stream, g, i :: 0 <= i < |Entries(s.bus, stream)| ==>
      KeptAt(s, stream, g, Entries(s.bus, stream)[i])
  }

  function RowIn(e: Event): Row {
    match e.payload
    case FinishedBody(node, output) => Row(e.run, node, Finished(output))
    case FailedBody(node, error) => Row(e.run, node, Failed(error))
    case _ => Row("", "", Failed(""))
  }

  predicate AllPersist(s: Sys) { forall r :: r in s.runners ==> s.runners[r].cfg.persists }

  /** A verdict event, and the stored row (or the dispatcher's own failure) behind it. */
  predicate Backed(s: Sys, e: Event) {
    && e == VerdictEvent(RowIn(e))
    && (AllPersist(s) ==> RowIn(e) in s.rows || RowIn(e) in s.dispatcherFailures)
  }

  predicate ResultsOk(s: Sys) {
    && (forall i :: 0 <= i < |Entries(s.bus, RESULTS)| ==> Backed(s, Entries(s.bus, RESULTS)[i].event))
    && (forall i :: 0 <= i < |s.dispatcherFailures| ==> s.dispatcherFailures[i].verdict.Failed?)
  }

  predicate Answered(s: Sys, c: Completion) {
    var h := HandlerFor(c.cfg, c.event.kind);
    h.Some? && Matches(h.value, c.event) ==>
      var row := RowFor(c.event, Finished(""));
      || VerdictKey(row.run, row.nodeId, Finished("")) in KeysOf(s.bus, RESULTS)
      || VerdictKey(row.run, row.nodeId, Failed("")) in KeysOf(s.bus, RESULTS)
  }

  predicate CompletionsOk(s: Sys) {
    forall i :: 0 <= i < |s.completions| ==> Answered(s, s.completions[i])
  }

  ghost predicate SysInv(s: Sys) {
    && Inv(s.bus)
    && (forall r :: r in s.runners ==> RunnerOk(s, s.runners[r]))
    && NothingLost(s)
    && ResultsOk(s)
    && CompletionsOk(s)
  }

  // ------------------------------------------------- what a step only grows

  ghost predicate BusGrew(b: State, b': State) {
    && (forall t :: Entries(b, t) <= Entries(b', t))
    && (forall t :: DlqOf(b, t) <= DlqOf(b', t))
    && (forall t :: KeysOf(b, t).Keys <= KeysOf(b', t).Keys)
  }

  ghost predicate Grew(s: Sys, s': Sys) {
    && BusGrew(s.bus, s'.bus)
    && s.rows <= s'.rows
    && s.dispatcherFailures <= s'.dispatcherFailures
    && s.completions <= s'.completions
    && s.runners.Keys == s'.runners.Keys
    && (forall r :: r in s.runners ==> s.runners[r].cfg == s'.runners[r].cfg)
  }

  lemma OpGrows(b: State, op: Op)
    requires !op.ResetOp?
    ensures BusGrew(b, Do(b, op))
  {
  }

  lemma StepKeepsConfigs(s: Sys, l: Label)
    requires Enabled(s, l) && ByRunner(l)
    ensures RunnerAfter(s, l).cfg == s.runners[l.r].cfg
  {
  }

  lemma StepGrows(s: Sys, l: Label)
    requires Enabled(s, l)
    ensures Grew(s, Apply(s, l))
  {
    if BusOp(s, l).Some? { OpGrows(s.bus, BusOp(s, l).value); }
    if ByRunner(l) { StepKeepsConfigs(s, l); }
    assert BusGrew(s.bus, Apply(s, l).bus);
  }

  lemma HandledStays(s: Sys, s': Sys, g: string, key: string)
    requires s.completions <= s'.completions && HandledKey(s, g, key)
    ensures HandledKey(s', g, key)
  {
    var i :| 0 <= i < |s.completions| && s.completions[i].cfg.group == g && s.completions[i].event.key == key;
    assert s'.completions[i] == s.completions[i];
  }

  lemma ParkedStays(s: Sys, s': Sys, stream: string, e: Event)
    requires DlqOf(s.bus, stream) <= DlqOf(s'.bus, stream) && ParkedIn(s, stream, e)
    ensures ParkedIn(s', stream, e)
  {
    var i :| 0 <= i < |DlqOf(s.bus, stream)| && DlqOf(s.bus, stream)[i].event == e;
    assert DlqOf(s'.bus, stream)[i] == DlqOf(s.bus, stream)[i];
  }

  lemma JustifiedStays(s: Sys, s': Sys, cfg: Config, d: Delivered, why: Why)
    requires Grew(s, s') && Justified(s, cfg, d, why)
    ensures Justified(s', cfg, d, why)
  {
    match why
    case Duplicate => HandledStays(s, s', cfg.group, d.entry.event.key);
    case Done => HandledStays(s, s', cfg.group, d.entry.event.key);
    case Unhandled =>
    case InDlq => ParkedStays(s, s', d.stream, d.entry.event);
  }

  lemma BatchStays(s: Sys, s': Sys, rs: Runner)
    requires Grew(s, s') && BatchOk(s, rs)
    ensures BatchOk(s', rs)
  {
    forall i | 0 <= i < |rs.batch| ensures rs.batch[i].entry in Entries(s'.bus, rs.batch[i].stream) {
      assert Entries(s.bus, rs.batch[i].stream) <= Entries(s'.bus, rs.batch[i].stream);
    }
  }

  lemma PhaseStays(s: Sys, s': Sys, rs: Runner)
    requires Grew(s, s') && PhaseOk(s, rs)
    ensures PhaseOk(s', rs)
  {
    if rs.phase.Acking? {
      JustifiedStays(s, s', rs.cfg, rs.batch[0], rs.phase.why);
    }
  }

  lemma SeenStays(s: Sys, s': Sys, rs: Runner)
    requires Grew(s, s') && SeenOk(s, rs)
    ensures SeenOk(s', rs)
  {
    forall k | k in rs.seen ensures HandledKey(s', rs.cfg.group, k) {
      HandledStays(s, s', rs.cfg.group, k);
    }
  }

  lemma RunnerStays(s: Sys, s': Sys, rs: Runner)
    requires Grew(s, s') && RunnerOk(s, rs)
    ensures RunnerOk(s', rs)
  {
    BatchStays(s, s', rs);
    PhaseStays(s, s', rs);
    SeenStays(s, s', rs);
  }

  // -------------------------------------------- the runner that takes a step

  lemma BatchIsOfStream(s: Sys, stream: string, g: string, count: int, i: nat)
    requires Inv(s.bus) && i < |Batch(s.bus, stream, g, count)|
    ensures Batch(s.bus, stream, g, count)[i] in Entries(s.bus, stream)
  {
    assert StreamInv(s.bus, stream);
    var k, n := ReadAdvances(Entries(s.bus, stream), Cursor(s.bus, stream, g), count);
    assert Batch(s.bus, stream, g, count)[i] == Entries(s.bus, stream)[k + i];
  }

  lemma StepBatch(s: Sys, l: Label)
    requires Enabled(s, l) && ByRunner(l) && Inv(s.bus) && BatchOk(s, s.runners[l.r])
    ensures BatchOk(s, RunnerAfter(s, l))
  {
    if l.Poll? && l.reply.Ok? {
      var batch := Batch(s.bus, l.s, s.runners[l.r].cfg.group, l.count);
      forall i | 0 <= i < |batch| ensures batch[i] in Entries(s.bus, l.s) {
        BatchIsOfStream(s, l.s, s.runners[l.r].cfg.group, l.count, i);
      }
    } else if l.Redeliver? {
      assert GroupInv(s.bus, l.s, s.runners[l.r].cfg.group);
    }
  }

  lemma NextPhase(s: Sys, l: Label)
    requires Enabled(s, l) && ByRunner(l) && RunnerOk(s, s.runners[l.r])
    requires !Completes(l) && !l.Persist? && !l.Park?
    ensures PhaseOk(s, RunnerAfter(s, l))
  {
  }

  lemma PersistPhase(s: Sys, l: Label)
    requires Enabled(s, l) && l.Persist? && RunnerOk(s, s.runners[l.r])
    ensures PhaseOk(Apply(s, l), RunnerAfter(s, l))
  {
    var row := RowFor(Current(s.runners[l.r]), s.runners[l.r].phase.stage.v);
    if l.reply.Ok? {
      assert Apply(s, l).rows[|s.rows|] == row;
    }
  }

  lemma CompletePhase(s: Sys, l: Label)
    requires Enabled(s, l) && Completes(l) && RunnerOk(s, s.runners[l.r])
    ensures PhaseOk(Apply(s, l), RunnerAfter(s, l))
    ensures HandledKey(Apply(s, l), s.runners[l.r].cfg.group, Current(s.runners[l.r]).key)
  {
    var s' := Apply(s, l);
    var n := |s.completions|;
    assert s'.completions[n] == Completion(s.runners[l.r].cfg, Current(s.runners[l.r]));
  }

  lemma ParkPhase(s: Sys, l: Label)
    requires Enabled(s, l) && l.Park? && RunnerOk(s, s.runners[l.r])
    ensures PhaseOk(Apply(s, l), RunnerAfter(s, l))
  {
    var d := s.runners[l.r].batch[0];
    if l.reply.Ok? {
      var n := |DlqOf(s.bus, d.stream)|;
      assert DlqOf(Apply(s, l).bus, d.stream)[n].event == d.entry.event;
    }
  }

  lemma KeySetAppend(keys: seq<string>, k: string)
    ensures KeySet(keys + [k]) == KeySet(keys) + {k}
  {
    var keys' := keys + [k];
    assert keys'[|keys|] == k;
    assert forall i :: 0 <= i < |keys| ==> keys'[i] == keys[i];
    forall x | x in KeySet(keys) ensures x in KeySet(keys') {
      var i :| 0 <= i < |keys| && keys[i] == x;
      assert keys'[i] == x;
    }
  }

  lemma CompletedSeen(s': Sys, rs: Runner)
    requires Busy(rs) && SeenOk(s', rs) && HandledKey(s', rs.cfg.group, Current(rs).key)
    requires rs.batch != [] ==> Current(rs).key !in rs.seen
    ensures SeenOk(s', Completed(rs))
  {
    KeySetAppend(rs.done, Current(rs).key);
  }

  lemma StepSeen(s: Sys, l: Label)
    requires Enabled(s, l) && ByRunner(l) && RunnerOk(s, s.runners[l.r]) && Grew(s, Apply(s, l))
    ensures SeenOk(Apply(s, l), RunnerAfter(s, l))
  {
    var s', rs := Apply(s, l), s.runners[l.r];
    SeenStays(s, s', rs);
    if Completes(l) {
      CompletePhase(s, l);
      CompletedSeen(s', rs);
    }
  }

  lemma MulSuc(n: nat, a: nat)
    ensures (n + 1) * a == n * a + a
  {
  }

  lemma CompletedTally(rs: Runner)
    requires Busy(rs) && rs.phase.Running? && 1 <= rs.phase.attempt && TallyOk(rs)
    requires rs.batch != [] ==> rs.phase.attempt <= Attempts(rs.cfg)
    ensures TallyOk(Completed(rs))
  {
    MulSuc(rs.tally.processed + rs.tally.dlq + rs.tally.lostParks, Attempts(rs.cfg));
  }

  lemma RaisedTally(rs: Runner)
    requires Busy(rs) && rs.phase.Running? && 1 <= rs.phase.attempt && TallyOk(rs)
    requires rs.batch != [] ==> rs.phase.attempt <= Attempts(rs.cfg)
    ensures TallyOk(Raised(rs))
  {
  }

  lemma ParkTally(s: Sys, l: Label)
    requires Enabled(s, l) && l.Park? && TallyOk(s.runners[l.r])
    ensures TallyOk(RunnerAfter(s, l))
  {
    var rs := s.runners[l.r];
    var t, a := rs.tally, Attempts(rs.cfg);
    MulSuc(t.processed + t.dlq + t.lostParks, a);
    MulSuc(t.dlq + t.lostParks, a);
  }

  lemma OtherTally(s: Sys, l: Label)
    requires Enabled(s, l) && ByRunner(l) && RunnerOk(s, s.runners[l.r])
    requires !Completes(l) && !Raises(l) && !l.Park?
    ensures TallyOk(RunnerAfter(s, l))
  {
  }

  lemma StepTally(s: Sys, l: Label)
    requires Enabled(s, l) && ByRunner(l) && RunnerOk(s, s.runners[l.r])
    ensures TallyOk(RunnerAfter(s, l))
  {
    if Completes(l) {
      CompletedTally(s.runners[l.r]);
    } else if Raises(l) {
      RaisedTally(s.runners[l.r]);
    } else if l.Park? {
      ParkTally(s, l);
    } else {
      OtherTally(s, l);
    }
  }

  lemma StepRunner(s: Sys, l: Label)
    requires Enabled(s, l) && ByRunner(l) && Inv(s.bus) && RunnerOk(s, s.runners[l.r])
    ensures RunnerOk(Apply(s, l), RunnerAfter(s, l))
  {
    StepGrows(s, l);
    var s', rs' := Apply(s, l), RunnerAfter(s, l);
    StepBatch(s, l);
    BatchStays(s, s', rs');
    if Completes(l) {
      CompletePhase(s, l);
    } else if l.Persist? {
      PersistPhase(s, l);
    } else if l.Park? {
      ParkPhase(s, l);
    } else {
      NextPhase(s, l);
      PhaseStays(s, s', rs');
    }
    StepSeen(s, l);
    StepTally(s, l);
  }

  // ------------------------------------------------------- nothing is lost

  lemma AccountedStays(s: Sys, s': Sys, stream: string, g: string, e: Entry)
    requires Grew(s, s') && Accounted(s, stream, g, e)
    ensures Accounted(s', stream, g, e)
  {
    if HandledKey(s, g, e.event.key) {
      HandledStays(s, s', g, e.event.key);
    } else if ParkedIn(s, stream, e.event) {
      ParkedStays(s, s', stream, e.event);
    } else {
      var r :| r in s.runners && s.runners[r].cfg.group == g && HandlerFor(s.runners[r].cfg, e.event.kind).None?;
      assert s'.runners[r].cfg == s.runners[r].cfg;
    }
  }

  lemma ReadKeeps(entries: seq<Entry>, cursor: nat, pending: map<nat, Event>, count: int, i: nat)
    requires Ascending(entries) && i < |entries|
    requires entries[i].id > cursor || entries[i].id in pending
    ensures var batch := SliceTo(Fresh(entries, cursor), count);
            entries[i].id > NextCursor(cursor, batch) || entries[i].id in AddPending(pending, batch)
  {
    var k, n := ReadAdvances(entries, cursor, count);
    ReadPending(entries, pending, k, n, entries[i].id);
  }

  /** The entry an acknowledgement takes out of the pending set is accounted for. */
  lemma AckAccounts(s: Sys, l: Label, e: Entry)
    requires Enabled(s, l) && l.Ack? && RunnerOk(s, s.runners[l.r])
    requires var d := s.runners[l.r].batch[0];
             Ascending(Entries(s.bus, d.stream)) && e in Entries(s.bus, d.stream) && e.id == d.entry.id
    ensures Accounted(s, s.runners[l.r].batch[0].stream, s.runners[l.r].cfg.group, e)
  {
    var d := s.runners[l.r].batch[0];
    var entries := Entries(s.bus, d.stream);
    assert d.entry in entries;
    var i, j :| 0 <= i < |entries| && entries[i] == e && 0 <= j < |entries| && entries[j] == d.entry;
    assert i == j;
  }

  /** The broker call of a step, seen from one group of one stream. */
  lemma OldEntryKept(s: Sys, l: Label, stream: string, g: string, i: nat)
    requires Enabled(s, l) && Inv(s.bus) && (ByRunner(l) ==> RunnerOk(s, s.runners[l.r]))
    requires i < |Entries(s.bus, stream)| && KeptAt(s, stream, g, Entries(s.bus, stream)[i])
    ensures KeptAt(Apply(s, l), stream, g, Entries(s.bus, stream)[i])
  {
    StepGrows(s, l);
    var s', e := Apply(s, l), Entries(s.bus, stream)[i];
    assert StreamInv(s.bus, stream);
    if Accounted(s, stream, g, e) {
      AccountedStays(s, s', stream, g, e);
    } else if BusOp(s, l).Some? {
      var op := BusOp(s, l).value;
      if Foreign(s.bus, op, stream, g) {
        ForeignGroup(s.bus, op, stream, g);
      } else if op.ReadOp? {
        ReadKeeps(Entries(s.bus, stream), Cursor(s.bus, stream, g), PendingOf(s.bus, stream, g), op.count, i);
      } else if e.id == op.id {
        AckAccounts(s, l, e);
        assert false;
      }
    }
  }

  lemma NewEntryKept(s: Sys, l: Label, stream: string, g: string, i: nat)
    requires Enabled(s, l) && Inv(s.bus)
    requires |Entries(s.bus, stream)| <= i < |Entries(Apply(s, l).bus, stream)|
    ensures KeptAt(Apply(s, l), stream, g, Entries(Apply(s, l).bus, stream)[i])
  {
    assert GroupInv(s.bus, stream, g);
    assert BusOp(s, l).Some? && BusOp(s, l).value.PublishOp?;
    ForeignGroup(s.bus, BusOp(s, l).value, stream, g);
  }

  lemma StepLosesNothing(s: Sys, l: Label)
    requires Enabled(s, l) && Inv(s.bus) && NothingLost(s)
    requires ByRunner(l) ==> RunnerOk(s, s.runners[l.r])
    ensures NothingLost(Apply(s, l))
  {
    var s' := Apply(s, l);
    StepGrows(s, l);
    forall stream, g, i | 0 <= i < |Entries(s'.bus, stream)|
      ensures KeptAt(s', stream, g, Entries(s'.bus, stream)[i])
    {
      if i < |Entries(s.bus, stream)| {
        assert Entries(s.bus, stream) <= Entries(s'.bus, stream);
        OldEntryKept(s, l, stream, g, i);
      } else {
        NewEntryKept(s, l, stream, g, i);
      }
    }
  }

  // --------------------------------------------------- verdicts and results

  lemma PublishedEntries(b: State, e: Event, i: nat)
    requires i < |Entries(Publish(b, RESULTS, e), RESULTS)|
    ensures Entries(Publish(b, RESULTS, e), RESULTS)[i].event == e
            || (i < |Entries(b, RESULTS)|
                && Entries(Publish(b, RESULTS, e), RESULTS)[i] == Entries(b, RESULTS)[i])
  {
  }

  lemma BackedStays(s: Sys, s': Sys, e: Event)
    requires Grew(s, s') && Backed(s, e)
    ensures Backed(s', e)
  {
    if AllPersist(s') {
      assert AllPersist(s) by {
        forall r | r in s.runners ensures s.runners[r].cfg.persists {
          assert s'.runners[r].cfg.persists;
        }
      }
    }
  }

  /** The event a step publishes on the results stream is backed afterwards. */
  lemma NewVerdictBacked(s: Sys, l: Label)
    requires Enabled(s, l) && (l.DispatcherFail? || (l.Announce? && RunnerOk(s, s.runners[l.r])))
    requires BusOp(s, l).Some?
    ensures BusOp(s, l).value.PublishOp? && Backed(Apply(s, l), BusOp(s, l).value.e)
  {
    var s' := Apply(s, l);
    if l.DispatcherFail? {
      assert s'.dispatcherFailures[|s.dispatcherFailures|] == Row(l.run, l.nodeId, Failed(l.error));
    } else if AllPersist(s') {
      StepKeepsConfigs(s, l);
      assert s'.runners[l.r].cfg.persists;
    }
  }

  lemma StepResults(s: Sys, l: Label)
    requires Enabled(s, l) && ResultsOk(s) && (ByRunner(l) ==> RunnerOk(s, s.runners[l.r]))
    ensures ResultsOk(Apply(s, l))
  {
    StepGrows(s, l);
    var s' := Apply(s, l);
    forall i | 0 <= i < |Entries(s'.bus, RESULTS)| ensures Backed(s', Entries(s'.bus, RESULTS)[i].event) {
      if (l.DispatcherFail? || l.Announce?) && BusOp(s, l).Some? {
        NewVerdictBacked(s, l);
        PublishedEntries(s.bus, BusOp(s, l).value.e, i);
      } else {
        assert Entries(s'.bus, RESULTS) == Entries(s.bus, RESULTS);
      }
      if i < |Entries(s.bus, RESULTS)| && Entries(s'.bus, RESULTS)[i] == Entries(s.bus, RESULTS)[i] {
        BackedStays(s, s', Entries(s.bus, RESULTS)[i].event);
      }
    }
  }

  lemma StepAnswers(s: Sys, l: Label)
    requires Enabled(s, l) && CompletionsOk(s) && (ByRunner(l) ==> RunnerOk(s, s.runners[l.r]))
    ensures CompletionsOk(Apply(s, l))
  {
    StepGrows(s, l);
    var s' := Apply(s, l);
    forall i | 0 <= i < |s'.completions| ensures Answered(s', s'.completions[i]) {
      assert KeysOf(s.bus, RESULTS).Keys <= KeysOf(s'.bus, RESULTS).Keys;
      if i < |s.completions| {
        assert Answered(s, s.completions[i]);
      } else if l.Announce? {
        var rs := s.runners[l.r];
        var row := RowFor(Current(rs), rs.phase.stage.v);
        assert VerdictEvent(row).key in KeysOf(s'.bus, RESULTS);
      }
    }
  }

  // ------------------------------------------------------------ every run

  lemma StepKeepsBus(s: Sys, l: Label)
    requires Enabled(s, l) && Inv(s.bus)
    ensures Inv(Apply(s, l).bus)
  {
    if BusOp(s, l).Some? { OpKeepsInv(s.bus, BusOp(s, l).value); }
  }

  lemma StepKeepsInv(s: Sys, l: Label)
    requires SysInv(s) && Enabled(s, l)
    ensures SysInv(Apply(s, l))
  {
    var s' := Apply(s, l);
    StepKeepsBus(s, l);
    StepGrows(s, l);
    forall r | r in s'.runners ensures RunnerOk(s', s'.runners[r]) {
      if ByRunner(l) && r == l.r {
        StepRunner(s, l);
      } else {
        RunnerStays(s, s', s.runners[r]);
      }
    }
    StepLosesNothing(s, l);
    StepResults(s, l);
    StepAnswers(s, l);
  }

  lemma InitialInv(s: Sys)
    requires Initial(s)
    ensures SysInv(s)
  {
  }

  lemma {:induction false} RunKeepsInv(s: Sys, run: seq<Label>)
    requires SysInv(s) && Legal(s, run)
    ensures SysInv(Delivery.After(s, run))
    decreases |run|
  {
    if run != [] {
      StepKeepsInv(s, run[0]);
      RunKeepsInv(Apply(s, run[0]), run[1..]);
    }
  }
}
