/** `Runner` of src/bus/consumer.py with the worker closure of
    src/bus/workers/core.py, as an object over a `MemoryBackend`.  A ghost copy of
    the delivery machine moves in lockstep with the fields, so every law of the
    machine is a law of this object.  `*` stands for whatever a handler, the step
    execution, the broker connection or the step store answers. */
module Consumer {
  import opened Common
  import opened Bus
  import opened Delivery
  import opened DeliverySafety
  import opened DeliveryLaws

  datatype RunStats = RunStats(processed: nat, errors: nat, dlq: nat, duplicates: nat, backendErrors: nat)

  predicate Counts(stats: RunStats, t: Tally) {
    && stats.processed == t.processed && stats.errors == t.errors && stats.dlq == t.dlq
    && stats.duplicates == t.duplicates && stats.backendErrors == t.backendErrors
  }

  lemma {:induction false} RunExtends(s: Sys, run: seq<Label>, l: Label)
    requires Legal(s, run) && Enabled(Delivery.After(s, run), l)
    ensures Legal(s, run + [l]) && Delivery.After(s, run + [l]) == Apply(Delivery.After(s, run), l)
    decreases |run|
  {
    if run == [] {
      assert (run + [l])[1..] == [];
    } else {
      RunExtends(Apply(s, run[0]), run[1..], l);
      assert (run + [l])[1..] == run[1..] + [l];
    }
  }

  predicate Reached(origin: Sys, trace: seq<Label>, s: Sys) {
    Initial(origin) && Legal(origin, trace) && Delivery.After(origin, trace) == s
  }

  /** The part of the broker a pass waits for: its own streams and cursors. */
  ghost predicate SameFeed(b: State, b': State, cfg: Config) {
    forall t :: t in cfg.streams ==>
      Entries(b', t) == Entries(b, t) && Cursor(b', t, cfg.group) == Cursor(b, t, cfg.group)
  }

  /** Handlers only publish: cursors, pending sets and dead letters stay. */
  predicate OnlyPublished(b: State, b': State) {
    b'.cursors == b.cursors && b'.pending == b.pending && b'.dlq == b.dlq
  }

  /** The same, for every stream but one, whose entries still are untouched. */
  ghost predicate OtherFeeds(b: State, b': State, cfg: Config, s: string) {
    forall t :: t in cfg.streams ==>
      Entries(b', t) == Entries(b, t) && (t != s ==> Cursor(b', t, cfg.group) == Cursor(b, t, cfg.group))
  }

  /** A runner as `make_step_worker` builds it: nothing but worker closures. */
  predicate OnlyWorkers(cfg: Config) {
    && (forall k :: k in cfg.handlers ==> cfg.handlers[k].Worker?)
    && (cfg.fallback.Some? ==> cfg.fallback.value.Worker?)
  }

  /** Steps that leave a runner's own streams and cursors alone. */
  predicate OffFeed(l: Label, cfg: Config) {
    !l.Ensure? && !l.Poll? && !l.DispatcherFail? && (l.Emit? ==> l.s !in cfg.streams)
  }

  lemma StepKeepsFeed(s: Sys, l: Label, cfg: Config)
    requires Enabled(s, l) && OffFeed(l, cfg) && RESULTS !in cfg.streams
    ensures SameFeed(s.bus, Apply(s, l).bus, cfg)
  {
  }

  /** How many entries of a stream a group has not been handed yet. */
  function Left(b: State, t: string, g: string): nat {
    |Fresh(Entries(b, t), Cursor(b, t, g))|
  }

  lemma PollShrinks(origin: Sys, trace: seq<Label>, s: Sys, t: string, g: string, count: int)
    requires Reached(origin, trace, s)
    ensures Left(ReadGroup(s.bus, t, g, count), t, g) == Left(s.bus, t, g) - |Batch(s.bus, t, g, count)|
    ensures count >= 1 && Batch(s.bus, t, g, count) == [] ==> Left(s.bus, t, g) == 0
  {
    ReachedBus(origin, trace);
    assert StreamInv(s.bus, t);
    var entries, cursor := Entries(s.bus, t), Cursor(s.bus, t, g);
    var k, n := ReadAdvances(entries, cursor, count);
    var cursor' := NextCursor(cursor, entries[k..k + n]);
    var m := FreshIsSuffix(entries, cursor');
    CutUnique(entries, cursor', m, k + n);
    var k' := FreshIsSuffix(entries, cursor);
    CutUnique(entries, cursor, k', k);
  }

  /** How far a handler got does not matter for what its outcome makes of the runner. */
  lemma StageIsPrivate(rs: Runner, stage: Stage)
    requires Busy(rs) && rs.phase.Running?
    ensures var rs' := rs.(phase := Running(rs.phase.attempt, stage));
            Busy(rs') && Completed(rs') == Completed(rs) && Raised(rs') == Raised(rs)
  {
  }

  /** A runner some of whose attempts failed. */
  function Erred(rs: Runner, errors: nat): Runner { rs.(tally := rs.tally.(errors := rs.tally.errors + errors)) }

  function Retrying(rs: Runner, cfg: Config, attempt: nat): Runner {
    rs.(phase := if attempt <= cfg.maxRetries then Running(attempt + 1, Entered) else Parking)
  }

  class StepRunner {
    const backend: MemoryBackend
    const cfg: Config
    const streams: seq<string>
    const exec: Option<Event -> Verdict>  // a deterministic execution, or anything at all
    var seen: set<string>
    var rows: seq<Row>
    var stats: RunStats
    ghost const origin: Sys
    ghost var trace: seq<Label>
    ghost var model: Sys

    ghost function Me(): Runner
      reads this
      requires 0 in model.runners
    {
      model.runners[0]
    }

    /** The ghost machine is in a reachable state that agrees with the fields. */
    ghost predicate Linked()
      reads this, backend
    {
      && model.bus == backend.Snapshot() && model.rows == rows
      && 0 in model.runners && Me().cfg == cfg
      && Reached(origin, trace, model)
    }

    ghost predicate Valid()
      reads this, backend
    {
      Linked() && Me().seen == seen && cfg.streams == (set t | t in streams)
    }

    constructor (backend: MemoryBackend, cfg: Config, streams: seq<string>, exec: Option<Event -> Verdict>)
      requires backend.Snapshot() == Empty && cfg.streams == (set t | t in streams)
      ensures Valid() && Waiting(Me()) && this.backend == backend && this.cfg == cfg && this.streams == streams
      ensures seen == {} && rows == [] && this.exec == exec
    {
      this.backend, this.cfg, this.streams, this.exec := backend, cfg, streams, exec;
      seen, rows, stats := {}, [], RunStats(0, 0, 0, 0, 0);
      var s := Sys(Empty, [], [], [], map[0 := NewRunner(cfg)]);
      origin, trace, model := s, [], s;
    }

    /** One step of the machine, taken together with the effect it stands for. */
    ghost method Step(l: Label)
      requires Reached(origin, trace, model) && Enabled(model, l)
      modifies this`model, this`trace
      ensures model == Apply(old(model), l) && Reached(origin, trace, model)
    {
      RunExtends(origin, trace, l);
      trace := trace + [l];
      model := Apply(model, l);
    }

    /** How one call over the network comes back. */
    method Call(healthy: bool) returns (reply: Reply)
      ensures healthy ==> reply.Ok?
    {
      reply := *;
      if healthy { reply := Ok; }
    }

    /** A handler publishes on some stream that is not its runner's own. */
    method EmitElsewhere(t: string, e: Event)
      requires Linked() && t != RESULTS && t !in cfg.streams
      modifies this`model, this`trace, backend
      ensures Linked() && Me() == old(Me())
      ensures SameFeed(old(model).bus, model.bus, cfg) && OnlyPublished(old(model).bus, model.bus)
    {
      var _ := backend.PublishEvent(t, e);
      Step(Emit(t, e));
    }

    /** An opaque handler: it may publish anything, except on the streams of its
        own runner and on the results stream, and then returns or raises. */
    method RunOpaque() returns (ok: bool)
      requires Linked() && InHandler(Me(), Entered) && HandlerOf(Me()).Opaque?
      requires cfg.streams == (set t | t in streams)
      modifies this`model, this`trace, backend
      ensures Linked() && Me() == if ok then Completed(old(Me())) else Raised(old(Me()))
      ensures SameFeed(old(model).bus, model.bus, cfg) && OnlyPublished(old(model).bus, model.bus)
    {
      var n: nat := *;
      while n > 0
        invariant Linked() && Me() == old(Me())
        invariant SameFeed(old(model).bus, model.bus, cfg) && OnlyPublished(old(model).bus, model.bus)
      {
        var t: string := *;
        var e: Event := *;
        if t != RESULTS && t !in streams {
          EmitElsewhere(t, e);
        }
        n := n - 1;
      }
      ok := *;
      Step(Return(0, ok));
    }

    /** Write the step row; the store may fail before or after the write. */
    method SaveRow(e: Event, v: Verdict, healthy: bool) returns (reply: Reply)
      requires Linked() && Busy(Me()) && e == Current(Me())
      requires Me().phase.Running? && Me().phase.stage == Executed(v)
      modifies this`model, this`trace, this`rows
      ensures Linked() && model.bus == old(model).bus && (healthy ==> reply.Ok?)
      ensures Me() == if reply.Ok? then old(Me()).(phase := old(Me()).phase.(stage := Saved(v))) else Raised(old(Me()))
    {
      reply := Call(healthy);
      if !reply.Lost? { rows := rows + [RowFor(e, v)]; }
      Step(Persist(0, reply));
    }

    /** Publish the verdict; the broker may fail before or after the append. */
    method SendVerdict(e: Event, v: Verdict, healthy: bool) returns (reply: Reply)
      requires Linked() && Busy(Me()) && e == Current(Me()) && RESULTS !in cfg.streams
      requires Me().phase.Running? && Me().phase.stage == Saved(v)
      modifies this`model, this`trace, backend
      ensures Linked() && SameFeed(old(model).bus, model.bus, cfg) && (healthy ==> reply.Ok?)
      ensures Me() == if reply.Ok? then Completed(old(Me())) else Raised(old(Me()))
      ensures model.bus == if reply.Lost? then old(model).bus else Publish(old(model).bus, RESULTS, VerdictEvent(RowFor(e, v)))
    {
      reply := Call(healthy);
      if !reply.Lost? {
        var _ := backend.PublishEvent(RESULTS, VerdictEvent(RowFor(e, v)));
      }
      StepKeepsFeed(model, Announce(0, reply), cfg);
      Step(Announce(0, reply));
    }

    /** After execution: persist the row, then publish the verdict. */
    method Answer(e: Event, v: Verdict, healthy: bool) returns (ok: bool)
      requires Linked() && Busy(Me()) && e == Current(Me()) && RESULTS !in cfg.streams
      requires Me().phase.Running? && Me().phase.stage == if cfg.persists then Executed(v) else Saved(v)
      modifies this`model, this`trace, this`rows, backend
      ensures Linked() && SameFeed(old(model).bus, model.bus, cfg) && (healthy ==> ok)
      ensures Me() == if ok then Completed(old(Me())) else Raised(old(Me()))
      ensures OnlyPublished(old(model).bus, model.bus)
      ensures ok ==> model.bus == Publish(old(model).bus, RESULTS, VerdictEvent(RowFor(e, v)))
    {
      if cfg.persists {
        var stored := SaveRow(e, v, healthy);
        if !stored.Ok? { return false; }
      }
      var sent := SendVerdict(e, v, healthy);
      ok := sent.Ok?;
    }

    /** Run the node: whatever it returns or raises is a verdict. */
    method Execute(e: Event) returns (v: Verdict)
      ensures exec.Some? ==> v == exec.value(e)
    {
      v := *;
      if exec.Some? { v := exec.value(e); }
    }

    /** The worker closure on an event meant for it. */
    method RunNode(h: Handler, e: Event, healthy: bool) returns (ok: bool)
      requires Linked() && InHandler(Me(), Entered) && e == Current(Me()) && h == HandlerOf(Me()) && h.Worker?
      requires RESULTS !in cfg.streams && Matches(h, e)
      modifies this`model, this`trace, this`rows, backend
      ensures Linked() && SameFeed(old(model).bus, model.bus, cfg) && (healthy ==> ok)
      ensures Me() == if ok then Completed(old(Me())) else Raised(old(Me()))
      ensures OnlyPublished(old(model).bus, model.bus)
      ensures ok && exec.Some? ==> model.bus == Publish(old(model).bus, RESULTS, VerdictEvent(RowFor(e, exec.value(e))))
    {
      var v := Execute(e);
      ghost var me := Me();
      Step(Exec(0, v));
      StageIsPrivate(me, Me().phase.stage);
      ok := Answer(e, v, healthy);
    }

    /** The worker closure; any outcome of the execution is a verdict. */
    method Handle(h: Handler, e: Event, healthy: bool) returns (ok: bool)
      requires Linked() && InHandler(Me(), Entered) && e == Current(Me()) && h == HandlerOf(Me()) && h.Worker?
      requires RESULTS !in cfg.streams
      modifies this`model, this`trace, this`rows, backend
      ensures Linked() && SameFeed(old(model).bus, model.bus, cfg) && (healthy ==> ok)
      ensures Me() == if ok then Completed(old(Me())) else Raised(old(Me()))
      ensures OnlyPublished(old(model).bus, model.bus)
      ensures ok && exec.Some? ==> model.bus == Rehandled(exec.value, h, old(model).bus, e)
      ensures ok && exec.Some? && e.payload.Dispatch? && e.payload.node.Dict? && e.payload.node.nodeType == h.nodeType ==>
                Announced(old(model).bus, model.bus, e.run, e.payload.nodeId, exec.value(e))
    {
      if Matches(h, e) {
        ok := RunNode(h, e, healthy);
      } else {
        Step(Skip(0));
        ok := true;
      }
      if exec.Some? { ClosureAnnounces(exec.value, h, old(model).bus, e); }
    }

    method CallHandler(h: Handler, e: Event, healthy: bool) returns (ok: bool)
      requires Linked() && InHandler(Me(), Entered) && e == Current(Me()) && h == HandlerOf(Me())
      requires RESULTS !in cfg.streams && cfg.streams == (set t | t in streams)
      modifies this`model, this`trace, this`rows, backend
      ensures Linked() && SameFeed(old(model).bus, model.bus, cfg) && (healthy && h.Worker? ==> ok)
      ensures Me() == if ok then Completed(old(Me())) else Raised(old(Me()))
      ensures OnlyPublished(old(model).bus, model.bus)
      ensures ok && h.Worker? && exec.Some? ==> model.bus == Rehandled(exec.value, h, old(model).bus, e)
    {
      match h
      case Opaque => ok := RunOpaque();
      case Worker(_) => ok := Handle(h, e, healthy);
    }

    /** Acknowledge the delivery in progress; true when the call came back. */
    method AckCurrent(d: Delivered, healthy: bool) returns (ok: bool)
      requires Linked() && Me().phase.Acking? && Me().batch != [] && d == Me().batch[0] && RESULTS !in cfg.streams
      modifies this`model, this`trace, backend`pending
      ensures Linked() && SameFeed(old(model).bus, model.bus, cfg) && (healthy ==> ok)
      ensures Me() == if ok then Dropped(old(Me())) else Dropped(BackendError(old(Me())))
    {
      var reply := Call(healthy);
      if !reply.Lost? { backend.Ack(d.stream, cfg.group, d.entry.id); }
      StepKeepsFeed(model, Ack(0, reply), cfg);
      Step(Ack(0, reply));
      ok := reply.Ok?;
    }

    /** Park the delivery in progress; true when the call came back. */
    method ParkCurrent(d: Delivered, reason: string, healthy: bool) returns (ok: bool)
      requires Linked() && Me().phase.Parking? && Me().batch != [] && d == Me().batch[0] && RESULTS !in cfg.streams
      modifies this`model, this`trace, backend`dlq, backend`seqNo
      ensures Linked() && SameFeed(old(model).bus, model.bus, cfg) && (healthy ==> ok)
      ensures Me() == AfterPark(old(Me()), ok)
    {
      var reply := Call(healthy);
      if !reply.Lost? { var _ := backend.Park(d.stream, d.entry.event, reason); }
      StepKeepsFeed(model, Park(0, reason, reply), cfg);
      Step(Park(0, reason, reply));
      ok := reply.Ok?;
    }

    /** The retry loop: call the handler until it returns or the attempts are used up. */
    method TryHandler(h: Handler, e: Event, healthy: bool) returns (handled: bool, errors: nat)
      requires Linked() && Me().batch != [] && e == Current(Me()) && HandlerFor(cfg, e.kind) == Some(h)
      requires Me().phase == if cfg.maxRetries >= 0 then Running(1, Entered) else Parking
      requires RESULTS !in cfg.streams && cfg.streams == (set t | t in streams)
      modifies this`model, this`trace, this`rows, backend
      ensures Linked() && SameFeed(old(model).bus, model.bus, cfg)
      ensures !handled ==> errors == Attempts(cfg)
      ensures Me() == if handled then Completed(Erred(old(Me()), errors)) else Erred(old(Me()), errors).(phase := Parking)
    {
      var attempt := 0;
      handled, errors := false, 0;
      while attempt <= cfg.maxRetries && !handled
        invariant 0 <= attempt && (attempt <= cfg.maxRetries + 1 || attempt == 0)
        invariant Linked() && SameFeed(old(model).bus, model.bus, cfg)
        invariant errors == if handled then attempt - 1 else attempt
        invariant Me() == if handled then Completed(Erred(old(Me()), errors)) else Retrying(Erred(old(Me()), errors), cfg, attempt)
        decreases cfg.maxRetries + 1 - attempt, !handled
      {
        attempt := attempt + 1;
        handled := CallHandler(h, e, healthy);
        if !handled { errors := errors + 1; }
      }
    }

    /** `_process`: settle the delivery in progress.  `raised` means a broker call
        failed; the caller counts it. */
    method Process(d: Delivered, healthy: bool) returns (raised: bool)
      requires Valid() && Me().phase.Idle? && Me().batch != [] && d == Me().batch[0]
      requires RESULTS !in cfg.streams && Counts(stats, Me().tally)
      modifies this`model, this`trace, this`rows, this`seen, this`stats, backend
      ensures Valid() && Me().phase.Idle? && Me().batch == old(Me()).batch[1..] && Me().again == old(Me()).again
      ensures SameFeed(old(model).bus, model.bus, cfg)
      ensures Counts(stats.(backendErrors := stats.backendErrors + if raised then 1 else 0), Me().tally)
      ensures Me().tally.deliveries == old(Me()).tally.deliveries
      ensures (healthy ==> !raised) && stats.backendErrors == old(stats).backendErrors
    {
      var e := d.entry.event;
      Step(Begin(0));
      if e.key in seen {
        stats := stats.(duplicates := stats.duplicates + 1);
        var ok := AckCurrent(d, healthy);
        return !ok;
      }
      var handler := HandlerFor(cfg, e.kind);
      if handler.None? {
        var ok := AckCurrent(d, healthy);
        return !ok;
      }
      raised := ProcessWith(handler.value, d, healthy);
    }

    /** The part of `_process` for a delivery that has a handler. */
    method ProcessWith(h: Handler, d: Delivered, healthy: bool) returns (raised: bool)
      requires Valid() && Me().batch != [] && d == Me().batch[0] && HandlerFor(cfg, d.entry.event.kind) == Some(h)
      requires Me().phase == if cfg.maxRetries >= 0 then Running(1, Entered) else Parking
      requires RESULTS !in cfg.streams && Counts(stats, Me().tally)
      modifies this`model, this`trace, this`rows, this`seen, this`stats, backend
      ensures Valid() && Me().phase.Idle? && Me().batch == old(Me()).batch[1..] && Me().again == old(Me()).again
      ensures SameFeed(old(model).bus, model.bus, cfg)
      ensures Counts(stats.(backendErrors := stats.backendErrors + if raised then 1 else 0), Me().tally)
      ensures Me().tally.deliveries == old(Me()).tally.deliveries
      ensures (healthy ==> !raised) && stats.backendErrors == old(stats).backendErrors
    {
      var handled, errors := TryHandler(h, d.entry.event, healthy);
      stats := stats.(errors := stats.errors + errors);
      if handled {
        seen := seen + {d.entry.event.key};
        stats := stats.(processed := stats.processed + 1);
        var ok := AckCurrent(d, healthy);
        return !ok;
      }
      raised := ParkAndAck(d, healthy);
    }

    /** The attempts are used up: dead-letter the event, then acknowledge it. */
    method ParkAndAck(d: Delivered, healthy: bool) returns (raised: bool)
      requires Valid() && Me().phase.Parking? && Me().batch != [] && d == Me().batch[0]
      requires RESULTS !in cfg.streams && Counts(stats, Me().tally)
      modifies this`model, this`trace, this`stats, backend
      ensures Valid() && Me().phase.Idle? && Me().batch == old(Me()).batch[1..] && Me().again == old(Me()).again
      ensures SameFeed(old(model).bus, model.bus, cfg)
      ensures Counts(stats.(backendErrors := stats.backendErrors + if raised then 1 else 0), Me().tally)
      ensures Me().tally.deliveries == old(Me()).tally.deliveries
      ensures (healthy ==> !raised) && stats.backendErrors == old(stats).backendErrors
    {
      var reason: string := *;
      var parked := ParkCurrent(d, reason, healthy);
      if !parked { return true; }
      stats := stats.(dlq := stats.dlq + 1);
      var ok := AckCurrent(d, healthy);
      raised := !ok;
    }

    /** One group read; its batch becomes the work in progress. */
    method PollBatch(t: string, count: int, healthy: bool) returns (ok: bool, batch: seq<Entry>)
      requires Valid() && Waiting(Me()) && t in cfg.streams
      modifies this`model, this`trace, backend
      ensures Valid() && Me().phase.Idle? && Me().again == [] && (healthy ==> ok)
      ensures ok ==> && batch == Batch(old(model).bus, t, cfg.group, count)
                     && model.bus == ReadGroup(old(model).bus, t, cfg.group, count)
                     && Me().batch == Handed(t, batch)
                     && Me().tally == old(Me()).tally.(deliveries := old(Me()).tally.deliveries + |batch|)
      ensures !ok ==> && batch == [] && Me() == BackendError(old(Me()))
                      && OtherFeeds(old(model).bus, model.bus, cfg, t)
    {
      var reply := Call(healthy);
      batch := [];
      if !reply.Lost? { batch := backend.Read(t, cfg.group, count); }
      Step(Poll(0, t, count, reply));
      ok := reply.Ok?;
      if !ok { batch := []; }
    }

    /** Settle every delivery of a batch, in order. */
    method SettleBatch(t: string, batch: seq<Entry>, healthy: bool)
      requires Valid() && Me().phase.Idle? && Me().again == [] && Me().batch == Handed(t, batch)
      requires RESULTS !in cfg.streams && Counts(stats, Me().tally)
      modifies this`model, this`trace, this`rows, this`seen, this`stats, backend
      ensures Valid() && Waiting(Me()) && Counts(stats, Me().tally)
      ensures SameFeed(old(model).bus, model.bus, cfg)
      ensures Me().tally.deliveries == old(Me()).tally.deliveries
      ensures healthy ==> stats.backendErrors == old(stats).backendErrors
    {
      for i := 0 to |batch|
        invariant Valid() && Me().phase.Idle? && Me().again == [] && Me().batch == Handed(t, batch)[i..]
        invariant Counts(stats, Me().tally) && SameFeed(old(model).bus, model.bus, cfg)
        invariant Me().tally.deliveries == old(Me()).tally.deliveries
        invariant healthy ==> stats.backendErrors == old(stats).backendErrors
      {
        var raised := Process(Delivered(t, batch[i]), healthy);
        if raised { stats := stats.(backendErrors := stats.backendErrors + 1); }
      }
    }

    /** One turn of the inner loop of `drain_once`; `more` when it has to go on. */
    method DrainBatch(t: string, count: int, healthy: bool) returns (more: bool, n: nat)
      requires Valid() && Waiting(Me()) && t in cfg.streams && RESULTS !in cfg.streams && Counts(stats, Me().tally)
      modifies this`model, this`trace, this`rows, this`seen, this`stats, backend
      ensures Valid() && Waiting(Me()) && Counts(stats, Me().tally)
      ensures Me().tally.deliveries == old(Me()).tally.deliveries + n
      ensures OtherFeeds(old(model).bus, model.bus, cfg, t)
      ensures healthy ==> stats.backendErrors == old(stats).backendErrors
      ensures more ==> Left(model.bus, t, cfg.group) < Left(old(model).bus, t, cfg.group)
      ensures !more && healthy && count >= 1 ==> Left(model.bus, t, cfg.group) == 0
    {
      PollShrinks(origin, trace, model, t, cfg.group, count);
      var ok, batch := PollBatch(t, count, healthy);
      n := |batch|;
      more := ok && batch != [];
      if !ok {
        stats := stats.(backendErrors := stats.backendErrors + 1);
      } else if more {
        SettleBatch(t, batch, healthy);
      }
    }

    /** The inner loop of `drain_once`: read and settle until nothing comes back. */
    method DrainStream(t: string, count: int, healthy: bool) returns (delivered: nat)
      requires Valid() && Waiting(Me()) && t in cfg.streams && RESULTS !in cfg.streams && Counts(stats, Me().tally)
      modifies this`model, this`trace, this`rows, this`seen, this`stats, backend
      ensures Valid() && Waiting(Me()) && Counts(stats, Me().tally)
      ensures Me().tally.deliveries == old(Me()).tally.deliveries + delivered
      ensures OtherFeeds(old(model).bus, model.bus, cfg, t)
      ensures healthy ==> stats.backendErrors == old(stats).backendErrors
      ensures healthy && count >= 1 ==> Left(model.bus, t, cfg.group) == 0
    {
      var more := true;
      delivered := 0;
      while more
        invariant Valid() && Waiting(Me()) && Counts(stats, Me().tally)
        invariant Me().tally.deliveries == old(Me()).tally.deliveries + delivered
        invariant OtherFeeds(old(model).bus, model.bus, cfg, t)
        invariant healthy ==> stats.backendErrors == old(stats).backendErrors
        invariant !more && healthy && count >= 1 ==> Left(model.bus, t, cfg.group) == 0
        decreases more, Left(model.bus, t, cfg.group)
      {
        var n;
        more, n := DrainBatch(t, count, healthy);
        delivered := delivered + n;
      }
    }

    /** One stream of a pass; a broker that fails here only ends this stream. */
    method VisitStream(t: string, count: int, healthy: bool) returns (n: nat)
      requires Valid() && Waiting(Me()) && t in cfg.streams && RESULTS !in cfg.streams && Counts(stats, Me().tally)
      modifies this`model, this`trace, this`rows, this`seen, this`stats, backend
      ensures Valid() && Waiting(Me()) && Counts(stats, Me().tally)
      ensures Me().tally.deliveries == old(Me()).tally.deliveries + n
      ensures healthy ==> stats.backendErrors == old(stats).backendErrors
      ensures healthy && count >= 1 ==> Left(model.bus, t, cfg.group) == 0
      ensures forall u :: u in cfg.streams && u != t ==> Left(model.bus, u, cfg.group) == Left(old(model).bus, u, cfg.group)
    {
      var ready := EnsureStream(t, healthy);
      n := 0;
      if ready {
        n := DrainStream(t, count, healthy);
      } else {
        stats := stats.(backendErrors := stats.backendErrors + 1);
      }
    }

    /** The outer loop of `drain_once`, over the streams in order. */
    method DrainStreams(count: int, healthy: bool) returns (delivered: nat)
      requires Valid() && Waiting(Me()) && RESULTS !in cfg.streams && Counts(stats, Me().tally)
      modifies this`model, this`trace, this`rows, this`seen, this`stats, backend
      ensures Valid() && Waiting(Me()) && Counts(stats, Me().tally)
      ensures Me().tally.deliveries == old(Me()).tally.deliveries + delivered
      ensures healthy ==> stats.backendErrors == old(stats).backendErrors
      ensures healthy && count >= 1 ==> forall t :: t in streams ==> Left(model.bus, t, cfg.group) == 0
    {
      delivered := 0;
      for i := 0 to |streams|
        invariant Valid() && Waiting(Me()) && Counts(stats, Me().tally)
        invariant Me().tally.deliveries == old(Me()).tally.deliveries + delivered
        invariant healthy ==> stats.backendErrors == old(stats).backendErrors
        invariant healthy && count >= 1 ==> forall j :: 0 <= j < i ==> Left(model.bus, streams[j], cfg.group) == 0
      {
        var n := VisitStream(streams[i], count, healthy);
        delivered := delivered + n;
      }
    }

    /** `drain_once`: it terminates, its counters add up, no key was ever handled
        twice, and with a broker that answers it leaves nothing undelivered. */
    method DrainOnce(count: int, healthy: bool) returns (result: RunStats, delivered: nat)
      requires Valid() && Waiting(Me()) && RESULTS !in cfg.streams
      modifies this`model, this`trace, this`rows, this`seen, this`stats, backend
      ensures Valid() && Waiting(Me()) && result == stats
      ensures result.dlq * Attempts(cfg) <= result.errors <= delivered * Attempts(cfg)
      ensures var t := Me().tally;
              && delivered == result.processed + result.duplicates + result.dlq + t.unhandled + t.lostParks
              && t.lostParks <= result.backendErrors
      ensures healthy ==> result.backendErrors == 0
      ensures healthy && count >= 1 ==> forall t :: t in streams ==> Left(model.bus, t, cfg.group) == 0
      ensures NoRepeats(Me().done) && KeySet(Me().done) == seen
    {
      stats := RunStats(0, 0, 0, 0, 0);
      Step(StartPass(0));
      delivered := DrainStreams(count, healthy);
      PassAddsUp(origin, trace, 0);
      result := stats;
    }

    method EnsureStream(t: string, healthy: bool) returns (ok: bool)
      requires Valid() && Waiting(Me()) && t in cfg.streams
      modifies this`model, this`trace, backend
      ensures Valid() && (healthy ==> ok)
      ensures Me() == if ok then old(Me()) else BackendError(old(Me()))
      ensures SameFeed(old(model).bus, model.bus, cfg)
    {
      var reply := Call(healthy);
      if !reply.Lost? { backend.Ensure(t, cfg.group); }
      Step(Delivery.Ensure(0, t, reply));
      ok := reply.Ok?;
    }

    /** The loop `replay` and `redrive_dlq` share: each event once through its
        handler, failures counted, neither `seen` nor any acknowledgement touched. */
    method Rework(events: seq<Event>, healthy: bool) returns (processed: nat, errors: nat)
      requires Valid() && Me().phase.Idle? && Me().batch == [] && Me().again == events && RESULTS !in cfg.streams
      modifies this`model, this`trace, this`rows, backend
      ensures Valid() && Waiting(Me()) && processed + errors <= |events|
      ensures OnlyPublished(old(model).bus, model.bus)
      ensures healthy && exec.Some? && OnlyWorkers(cfg) ==>
                errors == 0 && model.bus == Replayed(exec.value, cfg, old(model).bus, events)
    {
      processed, errors := 0, 0;
      for i := 0 to |events|
        invariant Valid() && Me().phase.Idle? && Me().batch == [] && Me().again == events[i..]
        invariant processed + errors <= i && OnlyPublished(old(model).bus, model.bus)
        invariant healthy && exec.Some? && OnlyWorkers(cfg) ==>
                    errors == 0 && Replayed(exec.value, cfg, old(model).bus, events)
                                   == Replayed(exec.value, cfg, model.bus, events[i..])
      {
        var outcome := ReworkOne(events[i], healthy);
        assert events[i..][1..] == events[i + 1..];
        if outcome == Some(true) { processed := processed + 1; }
        if outcome == Some(false) { errors := errors + 1; }
      }
    }

    /** One event of a replay: nothing without a handler, else whether it returned. */
    method ReworkOne(e: Event, healthy: bool) returns (outcome: Option<bool>)
      requires Valid() && Me().phase.Idle? && Me().batch == [] && Me().again != [] && e == Me().again[0]
      requires RESULTS !in cfg.streams
      modifies this`model, this`trace, this`rows, backend
      ensures Valid() && Me().phase.Idle? && Me().batch == [] && Me().again == old(Me()).again[1..]
      ensures OnlyPublished(old(model).bus, model.bus)
      ensures outcome.None? ==> HandlerFor(cfg, e.kind).None? && model.bus == old(model).bus
      ensures healthy && exec.Some? && OnlyWorkers(cfg) && outcome.Some? ==>
                && outcome.value && HandlerFor(cfg, e.kind).Some?
                && model.bus == Rehandled(exec.value, HandlerFor(cfg, e.kind).value, old(model).bus, e)
    {
      Step(Begin(0));
      var handler := HandlerFor(cfg, e.kind);
      if handler.None? { return None; }
      var ok := CallHandler(handler.value, e, healthy);
      outcome := Some(ok);
    }

    /** `replay`: the full history of a stream, in order. */
    method ReplayStream(t: string, healthy: bool) returns (processed: nat, errors: nat)
      requires Valid() && Waiting(Me()) && RESULTS !in cfg.streams
      modifies this`model, this`trace, this`rows, backend
      ensures Valid() && Waiting(Me()) && OnlyPublished(old(model).bus, model.bus)
      ensures healthy && exec.Some? && OnlyWorkers(cfg) ==>
                errors == 0 && backend.Snapshot()
                               == Replayed(exec.value, cfg, old(backend.Snapshot()), EventsOf(Entries(old(backend.Snapshot()), t)))
    {
      Step(Replay(0, t));
      var entries := backend.ReadRange(t, 0, None);
      FullRangeIsStream(Entries(backend.Snapshot(), t));
      processed, errors := Rework(EventsOf(entries), healthy);
    }

    /** `redrive_dlq`: the parked events again; they stay parked as evidence. */
    method RedriveStream(t: string, healthy: bool) returns (processed: nat, errors: nat)
      requires Valid() && Waiting(Me()) && RESULTS !in cfg.streams
      modifies this`model, this`trace, this`rows, backend
      ensures Valid() && Waiting(Me()) && OnlyPublished(old(model).bus, model.bus)
      ensures healthy && exec.Some? && OnlyWorkers(cfg) ==>
                errors == 0 && backend.Snapshot()
                               == Replayed(exec.value, cfg, old(backend.Snapshot()), EventsParked(DlqOf(old(backend.Snapshot()), t)))
    {
      Step(Redrive(0, t));
      processed, errors := Rework(EventsParked(if t in backend.dlq then backend.dlq[t] else []), healthy);
    }
  }
}
